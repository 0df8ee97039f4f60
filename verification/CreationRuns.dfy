/** Creations handled one after the other are runs of the cap machine, so they keep the cap. */
module CreationRuns {
  import opened Common
  import opened MonthlyCap
  import H = Handlers
  import P = Pipeline
  import L = Login
  import D = Decay

  type Encryption = (string, string) -> string

  /** A call of the creation handler, with the month its target date lies in. */
  datatype Call = Call(
    cx: P.Context, q: H.CreationRequest, st: L.Store, year: int, month: int, answers: (P.Answers, P.Answers))

  predicate Known(c: Call) {
    H.CreationRecipient(c.cx, c.q, c.st).Some?
  }

  function TargetOf(c: Call): Target
    requires Known(c)
  {
    Target(H.CreationRecipient(c.cx, c.q, c.st).value.publicKey, c.year, c.month)
  }

  /** What the node reports for the month of the call. */
  function SumFor(c: Call): H.Number
    requires Known(c)
  {
    H.SumBefore(c.cx, c.q, TargetOf(c).recipient)
  }

  /**
   A sum the node reports is that of all creations sent before, and only amounts that
   are numbers and not negative are valid.
   */
  predicate Honest(c: Call, sent: seq<Grant>) {
    && (Known(c) && H.IsNumber(SumFor(c)) ==> SumFor(c).value.value == Total(sent, TargetOf(c)))
    && (c.answers.0.valid ==> c.q.amount.Some? && c.q.amount.value >= 0.0)
  }

  predicate Sends(c: Call, encrypt: Encryption, rnd: D.Rounding) {
    H.CreationSends(c.cx, c.q, c.st, encrypt, c.answers, rnd) != []
  }

  /** What the call adds to its month. */
  function Added(c: Call, encrypt: Encryption, rnd: D.Rounding): seq<Grant> {
    if Sends(c, encrypt, rnd) && c.q.amount.Some? then [Grant(TargetOf(c), c.q.amount.value)] else []
  }

  lemma OneMore(steps: seq<Step>, step: Step, rnd: D.Rounding)
    requires After(steps, rnd).Some? && Enabled(After(steps, rnd).value, step)
    ensures After(steps + [step], rnd) == Some(Apply(After(steps, rnd).value, step, rnd))
  {
    assert (steps + [step])[..|steps|] == steps;
  }

  lemma OneMoreOpen(steps: seq<Step>, step: Step, rnd: D.Rounding, t: Target, k: nat)
    requires AtMostOpen(steps, rnd, t, k)
    requires After(steps + [step], rnd).Some? ==> Count(After(steps + [step], rnd).value.open, t) <= k
    ensures AtMostOpen(steps + [step], rnd, t, k)
  {
    var more := steps + [step];
    forall n | 0 <= n <= |more| && After(more[..n], rnd).Some? ensures Count(After(more[..n], rnd).value.open, t) <= k {
      if n <= |steps| { assert more[..n] == steps[..n]; } else { assert more[..n] == more; }
    }
  }

  /** After these steps exactly these creations have been sent, none is open, and none ever was beside another. */
  ghost predicate Reaches(steps: seq<Step>, rnd: D.Rounding, t: Target,
                          sent: seq<Grant>, archived: seq<Grant>)
  {
    After(steps, rnd) == Some(State(sent, archived, [])) && AtMostOpen(steps, rnd, t, 1)
  }

  lemma ArchivedSend(steps: seq<Step>, x: Grant, rnd: D.Rounding, t: Target,
                     sent: seq<Grant>, archived: seq<Grant>)
    requires Reaches(steps, rnd, t, sent, archived) && x.amount >= 0.0
    ensures Reaches(steps + [SendArchived(x)], rnd, t, sent + [x], archived + [x])
  {
    OneMore(steps, SendArchived(x), rnd);
    OneMoreOpen(steps, SendArchived(x), rnd, t, 1);
  }

  lemma CheckedSend(steps: seq<Step>, x: Grant, rnd: D.Rounding, t: Target,
                    sent: seq<Grant>, archived: seq<Grant>)
    requires Reaches(steps, rnd, t, sent, archived) && x.amount >= 0.0
    requires WithinCap(rnd, Total(sent, x.target), x.amount)
    ensures Reaches(steps + [Check(x)] + [Send(0)], rnd, t, sent + [x], archived)
  {
    OneMore(steps, Check(x), rnd);
    assert [] + [x] == [x];
    assert After(steps + [Check(x)], rnd) == Some(State(sent, archived, [x]));
    OneMoreOpen(steps, Check(x), rnd, t, 1);
    OneMore(steps + [Check(x)], Send(0), rnd);
    assert Without([x], 0) == [];
    OneMoreOpen(steps + [Check(x)], Send(0), rnd, t, 1);
  }

  /** What is sent was valid, and was archived or within the cap of the month's sum. */
  lemma SentIsChecked(c: Call, encrypt: Encryption, rnd: D.Rounding, sent: seq<Grant>)
    requires Honest(c, sent) && Sends(c, encrypt, rnd)
    ensures Known(c) && c.q.amount.Some? && c.q.amount.value >= 0.0
    ensures c.cx.archive || WithinCap(rnd, Total(sent, TargetOf(c)), c.q.amount.value)
  {
  }

  /** One call of the handler. */
  lemma CallIsARun(steps: seq<Step>, c: Call, encrypt: Encryption, rnd: D.Rounding, t: Target,
                   sent: seq<Grant>, archived: seq<Grant>) returns (next: seq<Step>)
    requires Reaches(steps, rnd, t, sent, archived) && Honest(c, sent)
    ensures var x := Added(c, encrypt, rnd);
      Reaches(next, rnd, t, sent + x, if c.cx.archive then archived + x else archived)
  {
    next := steps;
    assert sent + [] == sent && archived + [] == archived;
    if Sends(c, encrypt, rnd) {
      SentIsChecked(c, encrypt, rnd, sent);
      var x := Grant(TargetOf(c), c.q.amount.value);
      if c.cx.archive {
        ArchivedSend(steps, x, rnd, t, sent, archived);
        next := steps + [SendArchived(x)];
      } else {
        CheckedSend(steps, x, rnd, t, sent, archived);
        next := steps + [Check(x)] + [Send(0)];
      }
    }
  }

  // ---- any number of calls -------------------------------------------------

  function SentBy(calls: seq<Call>, encrypt: Encryption, rnd: D.Rounding): seq<Grant> {
    if calls == [] then []
    else SentBy(calls[..|calls| - 1], encrypt, rnd) + Added(calls[|calls| - 1], encrypt, rnd)
  }

  function ArchivedBy(calls: seq<Call>, encrypt: Encryption, rnd: D.Rounding): seq<Grant> {
    if calls == [] then []
    else
      var before, c := ArchivedBy(calls[..|calls| - 1], encrypt, rnd), calls[|calls| - 1];
      if c.cx.archive then before + Added(c, encrypt, rnd) else before
  }

  predicate AllHonest(calls: seq<Call>, encrypt: Encryption, rnd: D.Rounding) {
    calls != [] ==>
      && AllHonest(calls[..|calls| - 1], encrypt, rnd)
      && Honest(calls[|calls| - 1], SentBy(calls[..|calls| - 1], encrypt, rnd))
  }

  lemma {:induction false} CallsAreARun(calls: seq<Call>, encrypt: Encryption, rnd: D.Rounding, t: Target)
    returns (steps: seq<Step>)
    requires AllHonest(calls, encrypt, rnd)
    ensures Reaches(steps, rnd, t, SentBy(calls, encrypt, rnd), ArchivedBy(calls, encrypt, rnd))
  {
    steps := [];
    if calls != [] {
      var before, c := calls[..|calls| - 1], calls[|calls| - 1];
      steps := CallsAreARun(before, encrypt, rnd, t);
      steps := CallIsARun(steps, c, encrypt, rnd, t, SentBy(before, encrypt, rnd), ArchivedBy(before, encrypt, rnd));
    }
  }

  /**
   Creations handled one after the other keep every month within the cap, up to
   rounding and not counting archive creations, whichever of them fail.
   */
  lemma SequentialCreationsKeepCap(calls: seq<Call>, encrypt: Encryption, rnd: D.Rounding, u: real, t: Target)
    requires AllHonest(calls, encrypt, rnd) && D.Rounds(rnd, u)
    ensures Total(SentBy(calls, encrypt, rnd), t) - Total(ArchivedBy(calls, encrypt, rnd), t) <= Limit(u)
    ensures u == 0.0 ==> Limit(u) == CAP
  {
    var steps := CallsAreARun(calls, encrypt, rnd, t);
    TotalIsBounded(steps, rnd, u, t, 1);
    assert Times(1, Limit(u)) == Limit(u);
  }
}
