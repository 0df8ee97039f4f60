/** The handlers' sends are runs of the send machine, so what holds of all its runs holds of them. */
module HandlerRuns {
  import opened Common
  import opened PendingLog
  import opened Transactions
  import P = Pipeline
  import H = Handlers
  import L = Login
  import D = Decay
  import opened SendRuns

  /** The machine's messages and entries are what is sent and what is pending; memo and date are stamped on. */
  ghost predicate Mirrors(s: State, sent: seq<P.SentMessage>, log: Log) {
    && |s.sent| == |sent| && |s.recorded| == |log|
    && (forall i :: 0 <= i < |sent| ==>
          sent[i] == P.SentMessage(s.sent[i].tx.(memo := sent[i].tx.memo, created := sent[i].tx.created),
                                   s.sent[i].group, s.sent[i].id))
    && (forall i :: 0 <= i < |log| ==> log[i].iotaMessageId == s.recorded[i].id)
  }

  lemma OneMore(steps: seq<Step>, step: Step)
    requires After(steps).Some? && Enabled(After(steps).value, step)
    ensures After(steps + [step]) == Some(Apply(After(steps).value, step))
  {
    assert (steps + [step])[..|steps|] == steps;
  }

  /** `s'` is `s` after request `rid` has sent and recorded its next message under `id`. */
  ghost predicate SentNext(s: State, s': State, rid: Rid, id: MessageId)
    requires Ready(s, rid)
  {
    var r := s.requests[rid];
    && s'.recorded == s.recorded + [Entry(rid, |r.rec|, id)]
    && s'.sent == s.sent + [Message(rid, |r.at|, Part(r.job, |r.at|, FirstId(s, r)), PartGroup(r.job, |r.at|), id)]
    && |s'.requests| == |s.requests|
    && s'.requests[rid] == Request(r.job, r.at + [|s.sent|], r.rec + [|s.recorded|], false)
  }

  lemma SendThenRecord(s: State, rid: Rid, id: MessageId)
    requires Inv(s) && Ready(s, rid)
    ensures var s1 := Apply(s, Send(rid, id));
      Inv(s1) && Enabled(s1, Record(rid)) && Inv(Apply(s1, Record(rid))) && SentNext(s, Apply(s1, Record(rid)), rid, id)
  {
    InvStep(s, Send(rid, id));
    var s1 := Apply(s, Send(rid, id));
    assert RequestInv(s1, rid);
    InvStep(s1, Record(rid));
  }

  /** One send and its record. */
  lemma SendAndRecord(steps: seq<Step>, rid: Rid, id: MessageId) returns (next: seq<Step>)
    requires After(steps).Some? && Inv(After(steps).value) && Ready(After(steps).value, rid)
    ensures After(next).Some? && Inv(After(next).value)
    ensures SentNext(After(steps).value, After(next).value, rid, id)
    ensures steps <= next
  {
    SendThenRecord(After(steps).value, rid, id);
    OneMore(steps, Send(rid, id));
    OneMore(steps + [Send(rid, id)], Record(rid));
    next := steps + [Send(rid, id)] + [Record(rid)];
  }

  lemma MirrorsNext(s: State, s': State, rid: Rid, sent: seq<P.SentMessage>, log: Log,
                    m: P.SentMessage, e: PendingTransaction)
    requires Mirrors(s, sent, log) && Ready(s, rid) && SentNext(s, s', rid, m.id)
    requires var next := s'.sent[|s.sent|];
             m.tx == next.tx.(memo := m.tx.memo, created := m.tx.created) && m.group == next.group
    requires e.iotaMessageId == m.id
    ensures Mirrors(s', sent + [m], log + [e])
  {
  }

  /** `m` with its pending entry `e` is the `k`-th message of the job. */
  ghost predicate IsPart(m: P.SentMessage, e: PendingTransaction, job: Job, k: nat, firstId: string) {
    && k < Parts(job)
    && m.tx == Part(job, k, firstId).(memo := m.tx.memo, created := m.tx.created)
    && m.group == PartGroup(job, k)
    && e.iotaMessageId == m.id
  }

  /** What a job gets out, message by message. */
  lemma EmittedParts(cx: P.Context, job: Job, answers: (P.Answers, P.Answers), rnd: D.Rounding)
    ensures var out := P.Emitted(cx, job, answers, rnd);
      var log := P.Records(cx, out, answers);
      && |out| <= 2
      && (|out| > 0 ==> IsPart(out[0], log[0], job, 0, ""))
      && (|out| > 1 ==> IsPart(out[1], log[1], job, 1, out[0].id))
  {
  }

  /** Request `rid` has sent and recorded `k` parts of the job, the first under `firstId`. */
  ghost predicate Halfway(steps: seq<Step>, rid: Rid, job: Job, k: nat, firstId: string) {
    && After(steps).Some? && Inv(After(steps).value) && rid < |After(steps).value.requests|
    && var s := After(steps).value;
       var r := s.requests[rid];
       && r.job == job && |r.at| == |r.rec| == k && !r.stopped
       && AtInRange(s, r) && FirstId(s, r) == firstId
  }

  lemma AcceptJob(steps: seq<Step>, sent: seq<P.SentMessage>, log: Log, job: Job) returns (next: seq<Step>, rid: Rid)
    requires After(steps).Some? && Mirrors(After(steps).value, sent, log) && Proper(job)
    ensures steps <= next && Halfway(next, rid, job, 0, "") && Mirrors(After(next).value, sent, log)
  {
    rid := |After(steps).value.requests|;
    InvAfter(steps);
    OneMore(steps, Accept(job));
    InvStep(After(steps).value, Accept(job));
    next := steps + [Accept(job)];
  }

  /** Sending and recording the job's next message keeps the mirror. */
  lemma OneMoreMessage(steps: seq<Step>, rid: Rid, sent: seq<P.SentMessage>, log: Log,
                       job: Job, k: nat, firstId: string, m: P.SentMessage, e: PendingTransaction)
    returns (next: seq<Step>)
    requires Halfway(steps, rid, job, k, firstId) && Mirrors(After(steps).value, sent, log)
    requires IsPart(m, e, job, k, firstId)
    ensures steps <= next && Halfway(next, rid, job, k + 1, if k == 0 then m.id else firstId)
    ensures Mirrors(After(next).value, sent + [m], log + [e])
  {
    next := SendAndRecord(steps, rid, m.id);
    MirrorsNext(After(steps).value, After(next).value, rid, sent, log, m, e);
    assert RequestInv(After(next).value, rid);
  }

  lemma PutBehind<T>(s: seq<T>, out: seq<T>, k: nat)
    requires k < |out|
    ensures s + out[..k] + [out[k]] == s + out[..k + 1]
  {
  }

  /** The machine sends and records the parts of a job from the `k`-th on. */
  lemma {:induction false} PartsAreARun(steps: seq<Step>, rid: Rid, sent: seq<P.SentMessage>, log: Log, job: Job,
                                        out: seq<P.SentMessage>, more: Log, k: nat) returns (next: seq<Step>)
    requires k <= |out| == |more|
    requires forall i :: 0 <= i < |out| ==> IsPart(out[i], more[i], job, i, if i == 0 then "" else out[0].id)
    requires Halfway(steps, rid, job, k, if k == 0 then "" else out[0].id)
    requires Mirrors(After(steps).value, sent + out[..k], log + more[..k])
    ensures After(next).Some? && steps <= next && Mirrors(After(next).value, sent + out, log + more)
    decreases |out| - k
  {
    next := steps;
    if k < |out| {
      var firstId := if k == 0 then "" else out[0].id;
      next := OneMoreMessage(steps, rid, sent + out[..k], log + more[..k], job, k, firstId, out[k], more[k]);
      PutBehind(sent, out, k);
      PutBehind(log, more, k);
      next := PartsAreARun(next, rid, sent, log, job, out, more, k + 1);
    } else {
      assert out[..k] == out && more[..k] == more;
    }
  }

  /**
   From every reachable state, with other requests anywhere, the machine can do what
   `SendJob` does: the same messages and the same entries.
   */
  lemma EmittedIsARun(steps: seq<Step>, sent: seq<P.SentMessage>, log: Log,
                      cx: P.Context, job: Job, answers: (P.Answers, P.Answers), rnd: D.Rounding)
    returns (next: seq<Step>)
    requires After(steps).Some? && Mirrors(After(steps).value, sent, log) && Proper(job)
    ensures After(next).Some? && steps <= next
    ensures var out := P.Emitted(cx, job, answers, rnd);
      Mirrors(After(next).value, sent + out, log + P.Records(cx, out, answers))
  {
    var out := P.Emitted(cx, job, answers, rnd);
    EmittedParts(cx, job, answers, rnd);
    var accepted, rid := AcceptJob(steps, sent, log, job);
    var more := P.Records(cx, out, answers);
    assert sent + out[..0] == sent && log + more[..0] == log;
    next := PartsAreARun(accepted, rid, sent, log, job, out, more, 0);
  }

  // ---- any number of calls -------------------------------------------------

  type Encryption = (string, string) -> string

  /** One call of a handler with everything it is answered. */
  datatype Call =
    | Transferring(cx: P.Context, t: H.TransferRequest, st: L.Store, encrypt: Encryption,
                   answers: (P.Answers, P.Answers))
    | Registering(cx: P.Context, r: H.RegisterRequest, txids: (string, string) -> Option<nat>,
                  answers: (P.Answers, P.Answers))
    | Creating(cx: P.Context, c: H.CreationRequest, st: L.Store, encrypt: Encryption, answers: (P.Answers, P.Answers))

  /** What the call's handler sends, as its `Handle` promises. */
  function Sends(call: Call, rnd: D.Rounding): (r: seq<P.SentMessage>)
    ensures |r| <= 2
  {
    match call
    case Transferring(cx, t, st, encrypt, answers) => H.TransferSends(cx, t, st, encrypt, answers, rnd)
    case Registering(cx, r, txids, answers) => H.RegisterSends(cx, r, txids, answers, rnd)
    case Creating(cx, c, st, encrypt, answers) => H.CreationSends(cx, c, st, encrypt, answers, rnd)
  }

  /** What has gone out after the calls. */
  function SentBy(calls: seq<Call>, rnd: D.Rounding): seq<P.SentMessage> {
    if calls == [] then []
    else SentBy(calls[..|calls| - 1], rnd) + Sends(calls[|calls| - 1], rnd)
  }

  /** All pending entries ever pushed by the calls. */
  function LogBy(calls: seq<Call>, rnd: D.Rounding): Log {
    if calls == [] then []
    else
      var call := calls[|calls| - 1];
      LogBy(calls[..|calls| - 1], rnd) + P.Records(call.cx, Sends(call, rnd), call.answers)
  }

  lemma RecordsIgnoreMemo(cx: P.Context, memo: string, out: seq<P.SentMessage>, answers: (P.Answers, P.Answers))
    requires |out| <= 2
    ensures P.Records(cx.(memo := memo), out, answers) == P.Records(cx, out, answers)
  {
  }

  /** A call sends nothing, or what one proper job gets out. */
  lemma SendsIsAJob(call: Call, rnd: D.Rounding) returns (memo: string, job: Job)
    ensures Sends(call, rnd) != [] ==>
              Proper(job) && Sends(call, rnd) == P.Emitted(call.cx.(memo := memo), job, call.answers, rnd)
  {
    memo, job := call.cx.memo, Single(Base(AddressOf("", "")), "");
    match call
    case Transferring(cx, t, st, encrypt, _) =>
      if H.TransferAllowed(cx, t, st, rnd) {
        memo := encrypt(cx.memo, H.RecipientOf(cx, t, st).value.publicKey);
        job := H.TransferJobOf(cx, t, st);
      }
    case Registering(cx, r, _, _) =>
      assert cx.(memo := cx.memo) == cx;
      job := H.RegisterJobOf(cx, r);
    case Creating(cx, c, st, encrypt, _) =>
      if H.CreationAllowed(cx, c, st, rnd) {
        var recipient := H.CreationRecipient(cx, c, st).value.publicKey;
        memo := encrypt(cx.memo, recipient);
        job := Single(Base(CreationOf(recipient, c.amountText, c.targetDate)), cx.sessionGroup);
      }
  }

  /** Any sequence of handler calls, each refused, complete or cut off anywhere, is a run of the machine. */
  lemma {:induction false} CallsAreARun(calls: seq<Call>, rnd: D.Rounding) returns (steps: seq<Step>)
    ensures After(steps).Some? && Mirrors(After(steps).value, SentBy(calls, rnd), LogBy(calls, rnd))
  {
    steps := [];
    if calls != [] {
      var before, call := calls[..|calls| - 1], calls[|calls| - 1];
      steps := CallsAreARun(before, rnd);
      var memo, job := SendsIsAJob(call, rnd);
      if Sends(call, rnd) != [] {
        steps := EmittedIsARun(steps, SentBy(before, rnd), LogBy(before, rnd),
                               call.cx.(memo := memo), job, call.answers, rnd);
        RecordsIgnoreMemo(call.cx, memo, Sends(call, rnd), call.answers);
      } else {
        assert SentBy(calls, rnd) == SentBy(before, rnd) && LogBy(calls, rnd) == LogBy(before, rnd);
      }
    }
  }

  /** Every inbound half the calls send has its outbound half before it. */
  lemma CallsPairTheirHalves(calls: seq<Call>, rnd: D.Rounding, q: nat)
    requires q < |SentBy(calls, rnd)| && SentBy(calls, rnd)[q].tx.direction.Inbound?
    ensures var sent := SentBy(calls, rnd);
      exists p: nat :: p < q && sent[p].tx.direction.Outbound?
        && sent[p].id == sent[q].tx.parentMessageId && sent[p].tx.payload == sent[q].tx.payload
        && sent[p].tx.otherGroup == sent[q].group && sent[q].tx.otherGroup == sent[p].group
  {
    var steps := CallsAreARun(calls, rnd);
    InboundsAreMatched(steps);
    var p: nat :| Completes(After(steps).value.sent, p, q);
    assert SentBy(calls, rnd)[p].id == After(steps).value.sent[p].id;
  }
}
