/**
 The monthly creation cap. Each creation is checked against the sum the node
 reports and sent later; other requests run in between.
 */
module MonthlyCap {
  import opened Common
  import opened Decay

  const CAP: real := 1000.0

  const EXACT: Rounding := x => x

  /** The cap covers one recipient in one month. */
  datatype Target = Target(recipient: string, year: int, month: int)

  datatype Grant = Grant(target: Target, amount: real)

  /** The check: both numbers are rounded when parsed, then their sum is. */
  predicate WithinCap(rnd: Rounding, sum: real, amount: real) {
    rnd(rnd(sum) + rnd(amount)) <= CAP
  }

  /** `open` holds the creations between their check and their send. */
  datatype State = State(sent: seq<Grant>, archived: seq<Grant>, open: seq<Grant>)

  datatype Step =
    | Check(c: Grant)      // the node's sum has all creations sent so far
    | Send(i: nat)
    | Drop(i: nat)                   // a later step of the request fails
    | SendArchived(c: Grant)

  const INIT := State([], [], [])

  function Total(cs: seq<Grant>, t: Target): real {
    if cs == [] then 0.0
    else Total(cs[..|cs| - 1], t) + if cs[|cs| - 1].target == t then cs[|cs| - 1].amount else 0.0
  }

  function Count(cs: seq<Grant>, t: Target): nat {
    if cs == [] then 0
    else Count(cs[..|cs| - 1], t) + if cs[|cs| - 1].target == t then 1 else 0
  }

  function Without(cs: seq<Grant>, i: nat): seq<Grant>
    requires i < |cs|
  {
    cs[..i] + cs[i + 1..]
  }

  predicate Enabled(s: State, step: Step) {
    match step
    case Check(c) => c.amount >= 0.0
    case Send(i) => i < |s.open|
    case Drop(i) => i < |s.open|
    case SendArchived(c) => c.amount >= 0.0
  }

  function Apply(s: State, step: Step, rnd: Rounding): State
    requires Enabled(s, step)
  {
    match step
    case Check(c) => if WithinCap(rnd, Total(s.sent, c.target), c.amount) then s.(open := s.open + [c]) else s
    case Send(i) => s.(sent := s.sent + [s.open[i]], open := Without(s.open, i))
    case Drop(i) => s.(open := Without(s.open, i))
    case SendArchived(c) => s.(sent := s.sent + [c], archived := s.archived + [c])
  }

  function After(steps: seq<Step>, rnd: Rounding): Option<State> {
    if steps == [] then Some(INIT)
    else
      var before := After(steps[..|steps| - 1], rnd);
      if before.Some? && Enabled(before.value, steps[|steps| - 1])
      then Some(Apply(before.value, steps[|steps| - 1], rnd)) else None
  }

  /** Never more than `k` creations for `t` are between check and send. */
  ghost predicate AtMostOpen(steps: seq<Step>, rnd: Rounding, t: Target, k: nat) {
    forall n :: 0 <= n <= |steps| && After(steps[..n], rnd).Some? ==> Count(After(steps[..n], rnd).value.open, t) <= k
  }

  // ---- sums over sequences -------------------------------------------------

  lemma {:induction false} TotalConcat(a: seq<Grant>, b: seq<Grant>, t: Target)
    ensures Total(a + b, t) == Total(a, t) + Total(b, t)
    ensures Count(a + b, t) == Count(a, t) + Count(b, t)
  {
    if b == [] {
      assert a + b == a;
    } else {
      assert (a + b)[..|a + b| - 1] == a + b[..|b| - 1];
      TotalConcat(a, b[..|b| - 1], t);
    }
  }

  lemma TotalPush(cs: seq<Grant>, c: Grant, t: Target)
    ensures Total(cs + [c], t) == Total(cs, t) + if c.target == t then c.amount else 0.0
    ensures Count(cs + [c], t) == Count(cs, t) + if c.target == t then 1 else 0
  {
    assert (cs + [c])[..|cs|] == cs;
  }

  lemma TotalWithout(cs: seq<Grant>, i: nat, t: Target)
    requires i < |cs|
    ensures Total(cs, t) == Total(Without(cs, i), t) + if cs[i].target == t then cs[i].amount else 0.0
    ensures Count(cs, t) == Count(Without(cs, i), t) + if cs[i].target == t then 1 else 0
  {
    assert cs == cs[..i] + [cs[i]] + cs[i + 1..];
    TotalPush(cs[..i], cs[i], t);
    TotalConcat(cs[..i] + [cs[i]], cs[i + 1..], t);
    TotalConcat(cs[..i], cs[i + 1..], t);
  }

  function Times(k: nat, limit: real): real {
    k as real * limit
  }

  lemma TimesOneMore(k: nat, limit: real)
    ensures Times(k + 1, limit) == Times(k, limit) + limit
  {
  }

  lemma {:induction false} TimesMono(j: nat, k: nat, limit: real)
    requires j <= k && limit >= 0.0
    ensures 0.0 <= Times(j, limit) <= Times(k, limit)
  {
    assert 0.0 <= j as real <= k as real;
  }

  lemma {:induction false} TotalAtMost(cs: seq<Grant>, t: Target, limit: real)
    requires forall i :: 0 <= i < |cs| ==> cs[i].amount <= limit
    ensures Total(cs, t) <= Times(Count(cs, t), limit)
  {
    if cs != [] {
      var n := |cs| - 1;
      TotalAtMost(cs[..n], t, limit);
      TimesOneMore(Count(cs[..n], t), limit);
    }
  }

  // ---- one check -----------------------------------------------------------

  /** What an accepted exact sum can be, `u` being the relative rounding error. */
  function Limit(u: real): real
    requires 0.0 <= u < 1.0
  {
    CAP / (1.0 - u) / (1.0 - u)
  }

  lemma DivideBound(x: real, d: real, b: real)
    requires d > 0.0 && x * d <= b
    ensures x <= b / d
  {
    assert (b / d) * d == b;
    assert (x - b / d) * d == x * d - b;
  }

  lemma Shrinks(rnd: Rounding, u: real, x: real)
    requires Rounds(rnd, u) && x >= 0.0
    ensures rnd(x) >= x * (1.0 - u) >= 0.0
  {
    assert RoundsAt(rnd, u, x);
    assert x * (1.0 - u) == x - u * x;
  }

  /** An accepted creation keeps the exact sum within the limit. */
  lemma AcceptedMeansWithin(rnd: Rounding, u: real, sum: real, amount: real)
    requires Rounds(rnd, u) && sum >= 0.0 && amount >= 0.0 && WithinCap(rnd, sum, amount)
    ensures sum + amount <= Limit(u)
  {
    Shrinks(rnd, u, sum);
    Shrinks(rnd, u, amount);
    Shrinks(rnd, u, rnd(sum) + rnd(amount));
    DivideBound(rnd(sum) + rnd(amount), 1.0 - u, CAP);
    assert (sum + amount) * (1.0 - u) == sum * (1.0 - u) + amount * (1.0 - u);
    DivideBound(sum + amount, 1.0 - u, CAP / (1.0 - u));
  }

  ghost predicate Monotone(rnd: Rounding) {
    forall x: real, y: real :: x <= y ==> rnd(x) <= rnd(y)
  }

  /** A rounding of the relative error `u` that keeps order and 1000. */
  ghost predicate CapRounding(rnd: Rounding, u: real) {
    Rounds(rnd, u) && Monotone(rnd) && rnd(CAP) == CAP
  }

  function Scaled(x: real, u: real): real {
    x * (1.0 + u)
  }

  lemma ScaledAdds(x: real, y: real, u: real)
    ensures Scaled(x, u) + Scaled(y, u) == Scaled(x + y, u) && Scaled(0.0, u) == 0.0
  {
  }

  lemma ScaledOrder(x: real, y: real, u: real)
    requires 0.0 <= u && x <= y
    ensures Scaled(x, u) <= Scaled(y, u) && (x >= 0.0 ==> x <= Scaled(x, u))
  {
    assert (y - x) * (1.0 + u) >= 0.0;
    if x >= 0.0 { assert x * u >= 0.0; }
  }

  /** The total leaves room for rounding both numbers up, or there is only one number. */
  predicate SurelyWithin(u: real, sum: real, amount: real) {
    || Scaled(sum + amount, u) <= CAP
    || (sum == 0.0 && amount <= CAP)
    || (amount == 0.0 && sum <= CAP)
  }

  lemma Grows(rnd: Rounding, u: real, x: real)
    requires Rounds(rnd, u) && x >= 0.0
    ensures rnd(x) <= Scaled(x, u) && rnd(0.0) == 0.0
  {
    assert RoundsAt(rnd, u, x) && RoundsAt(rnd, u, 0.0);
  }

  lemma SurelyWithinIsAccepted(rnd: Rounding, u: real, sum: real, amount: real)
    requires CapRounding(rnd, u) && sum >= 0.0 && amount >= 0.0 && SurelyWithin(u, sum, amount)
    ensures WithinCap(rnd, sum, amount)
  {
    Grows(rnd, u, sum);
    Grows(rnd, u, amount);
    ScaledAdds(sum, amount, u);
    assert rnd(sum) + rnd(amount) <= CAP;
    assert rnd(rnd(sum) + rnd(amount)) <= rnd(CAP);
  }

  /** Rounds up as far as the error allows, but not across 1000. */
  function RoundedUp(u: real): Rounding {
    x => if x <= 0.0 || x > CAP then x else if Scaled(x, u) <= CAP then Scaled(x, u) else CAP
  }

  lemma RoundedUpAt(u: real, x: real)
    requires 0.0 <= u < 1.0
    ensures RoundsAt(RoundedUp(u), u, x)
  {
    if 0.0 < x <= CAP {
      assert Scaled(x, u) - x == Mul(u, Abs(x));
    } else {
      assert Mul(u, Abs(x)) >= 0.0;
    }
  }

  lemma RoundedUpIsCapRounding(u: real)
    requires 0.0 <= u < 1.0
    ensures CapRounding(RoundedUp(u), u)
  {
    forall x ensures RoundsAt(RoundedUp(u), u, x) { RoundedUpAt(u, x); }
    forall x: real, y: real | x <= y ensures RoundedUp(u)(x) <= RoundedUp(u)(y) {
      ScaledOrder(x, y, u);
      if y > 0.0 { ScaledOrder(y, y, u); }
    }
    ScaledOrder(CAP, CAP, u);
  }

  lemma RoundedUpRefuses(u: real, sum: real, amount: real)
    requires 0.0 <= u < 1.0 && sum >= 0.0 && amount >= 0.0 && !SurelyWithin(u, sum, amount)
    ensures !WithinCap(RoundedUp(u), sum, amount)
  {
    ScaledAdds(sum, amount, u);
    ScaledOrder(sum, sum, u);
    ScaledOrder(amount, amount, u);
    var up := RoundedUp(u);
    assert up(sum) + up(amount) > CAP;
  }

  /**
   No rounding refuses the creation exactly when the total leaves room for both numbers
   to be rounded up, or one of the two is zero. A total of at most 1000 alone is not enough.
   */
  lemma NeverRefusedIff(u: real, sum: real, amount: real)
    requires 0.0 <= u < 1.0 && sum >= 0.0 && amount >= 0.0
    ensures (forall rnd | CapRounding(rnd, u) :: WithinCap(rnd, sum, amount)) <==> SurelyWithin(u, sum, amount)
  {
    if SurelyWithin(u, sum, amount) {
      forall rnd | CapRounding(rnd, u) ensures WithinCap(rnd, sum, amount) {
        SurelyWithinIsAccepted(rnd, u, sum, amount);
      }
    } else {
      RoundedUpIsCapRounding(u);
      RoundedUpRefuses(u, sum, amount);
    }
  }

  /** What has been rounded stays as it is. */
  ghost predicate Idempotent(rnd: Rounding) {
    forall x: real :: rnd(rnd(x)) == rnd(x)
  }

  /** Lets a gap after `h` be passed upwards; every other number can be represented. */
  function SkippingAfter(h: real, u: real): Rounding {
    x => if h <= x <= Scaled(h, u) then Scaled(h, u) else x
  }

  lemma SkippingIsCapRounding(h: real, u: real)
    requires 0.0 <= u < 1.0 && 0.0 <= h <= CAP / 2.0
    ensures CapRounding(SkippingAfter(h, u), u) && Idempotent(SkippingAfter(h, u))
  {
    var rnd := SkippingAfter(h, u);
    forall x ensures RoundsAt(rnd, u, x) {
      assert Mul(u, Abs(x)) >= 0.0;
      if h <= x <= Scaled(h, u) { assert Scaled(h, u) - h == u * h <= u * x by { assert u * (x - h) >= 0.0; } }
    }
    assert Scaled(h, u) < CAP by { assert h * u <= CAP / 2.0 * u; }
    ScaledOrder(h, h, u);
  }

  /**
   Two equal halves, as 500 and 500, show it also for roundings that leave their own
   results alone: none refuses them exactly when twice the rounded-up half is within the cap.
   */
  lemma HalvesNeverRefusedIff(u: real, h: real)
    requires 0.0 <= u < 1.0 && h >= 0.0
    ensures (forall rnd | CapRounding(rnd, u) && Idempotent(rnd) :: WithinCap(rnd, h, h)) <==> Scaled(h + h, u) <= CAP
  {
    ScaledAdds(h, h, u);
    if Scaled(h + h, u) <= CAP {
      forall rnd | CapRounding(rnd, u) && Idempotent(rnd) ensures WithinCap(rnd, h, h) {
        SurelyWithinIsAccepted(rnd, u, h, h);
      }
    } else if h <= CAP / 2.0 {
      var rnd := SkippingAfter(h, u);
      SkippingIsCapRounding(h, u);
      ScaledOrder(h, h, u);
      assert rnd(h) + rnd(h) > CAP && !WithinCap(rnd, h, h);
    } else {
      assert CapRounding(EXACT, u) && Idempotent(EXACT) by {
        forall x ensures RoundsAt(EXACT, u, x) { assert Mul(u, Abs(x)) >= 0.0; }
      }
      assert !WithinCap(EXACT, h, h);
    }
  }

  /**
   When the two parsed numbers can be represented, nothing within the cap is refused,
   and an accepted sum is off by one rounding.
   */
  lemma NothingRefusedWithinCap(rnd: Rounding, u: real, sum: real, amount: real)
    requires CapRounding(rnd, u) && rnd(sum) == sum && rnd(amount) == amount
    requires sum >= 0.0 && amount >= 0.0
    ensures sum + amount <= CAP ==> WithinCap(rnd, sum, amount)
    ensures WithinCap(rnd, sum, amount) ==> sum + amount <= CAP / (1.0 - u)
  {
    if sum + amount <= CAP { assert rnd(sum + amount) <= rnd(CAP); }
    if WithinCap(rnd, sum, amount) {
      Shrinks(rnd, u, sum + amount);
      DivideBound(sum + amount, 1.0 - u, CAP);
    }
  }

  // ---- over runs -----------------------------------------------------------

  predicate Amounts(s: State, limit: real) {
    && (forall i :: 0 <= i < |s.sent| ==> s.sent[i].amount >= 0.0)
    && (forall i :: 0 <= i < |s.open| ==> 0.0 <= s.open[i].amount <= limit)
  }

  predicate CapInv(s: State, t: Target, k: nat, limit: real) {
    && Amounts(s, limit)
    && Total(s.sent, t) + Total(s.open, t) <= Times(k, limit) + Total(s.archived, t)
    && 0.0 <= Total(s.archived, t) <= Total(s.sent, t)
  }

  lemma {:induction false} TotalNonNegative(cs: seq<Grant>, t: Target)
    requires forall i :: 0 <= i < |cs| ==> cs[i].amount >= 0.0
    ensures Total(cs, t) >= 0.0
  {
    if cs != [] { TotalNonNegative(cs[..|cs| - 1], t); }
  }

  lemma CheckStep(s: State, c: Grant, rnd: Rounding, u: real, t: Target, k: nat)
    requires Rounds(rnd, u) && CapInv(s, t, k, Limit(u)) && c.amount >= 0.0
    requires WithinCap(rnd, Total(s.sent, c.target), c.amount)
    requires Count(s.open + [c], t) <= k
    ensures CapInv(s.(open := s.open + [c]), t, k, Limit(u))
  {
    TotalNonNegative(s.sent, c.target);
    AcceptedMeansWithin(rnd, u, Total(s.sent, c.target), c.amount);
    TotalPush(s.open, c, t);
    OthersBounded(s, t, k, Limit(u), c);
  }

  /** With a free place left for `t`, the open creations for it use up at most k - 1 limits. */
  lemma OthersBounded(s: State, t: Target, k: nat, limit: real, c: Grant)
    requires CapInv(s, t, k, limit) && limit >= 0.0 && Count(s.open + [c], t) <= k
    ensures c.target == t ==> Total(s.open, t) + limit <= Times(k, limit)
  {
    if c.target == t {
      TotalPush(s.open, c, t);
      TotalAtMost(s.open, t, limit);
      TimesOneMore(Count(s.open, t), limit);
      TimesMono(Count(s.open, t) + 1, k, limit);
    }
  }

  lemma LimitPositive(u: real)
    requires 0.0 <= u < 1.0
    ensures Limit(u) >= CAP
  {
    DivideBound(CAP, 1.0 - u, CAP);
    DivideBound(CAP, 1.0 - u, CAP / (1.0 - u));
  }

  lemma SendStep(s: State, i: nat, t: Target, k: nat, limit: real)
    requires CapInv(s, t, k, limit) && i < |s.open|
    ensures CapInv(s.(sent := s.sent + [s.open[i]], open := Without(s.open, i)), t, k, limit)
  {
    TotalWithout(s.open, i, t);
    TotalPush(s.sent, s.open[i], t);
  }

  lemma DropStep(s: State, i: nat, t: Target, k: nat, limit: real)
    requires CapInv(s, t, k, limit) && i < |s.open|
    ensures CapInv(s.(open := Without(s.open, i)), t, k, limit)
  {
    TotalWithout(s.open, i, t);
  }

  lemma ArchiveStep(s: State, c: Grant, t: Target, k: nat, limit: real)
    requires CapInv(s, t, k, limit) && c.amount >= 0.0
    ensures CapInv(s.(sent := s.sent + [c], archived := s.archived + [c]), t, k, limit)
  {
    TotalPush(s.sent, c, t);
    TotalPush(s.archived, c, t);
  }

  lemma CapStep(s: State, step: Step, rnd: Rounding, u: real, t: Target, k: nat)
    requires Rounds(rnd, u) && CapInv(s, t, k, Limit(u)) && Enabled(s, step)
    requires Count(Apply(s, step, rnd).open, t) <= k
    ensures CapInv(Apply(s, step, rnd), t, k, Limit(u))
  {
    match step
    case Check(c) => if WithinCap(rnd, Total(s.sent, c.target), c.amount) { CheckStep(s, c, rnd, u, t, k); }
    case Send(i) => SendStep(s, i, t, k, Limit(u));
    case Drop(i) => DropStep(s, i, t, k, Limit(u));
    case SendArchived(c) => ArchiveStep(s, c, t, k, Limit(u));
  }

  /**
   While never more than `k` creations of a month are between check and send, the
   month's total stays within `k` times the limit, archive creations not counted.
   With `k == 1` this is the cap itself.
   */
  lemma {:induction false} TotalIsBounded(steps: seq<Step>, rnd: Rounding, u: real, t: Target, k: nat)
    requires Rounds(rnd, u) && After(steps, rnd).Some? && AtMostOpen(steps, rnd, t, k)
    ensures CapInv(After(steps, rnd).value, t, k, Limit(u))
    ensures Total(After(steps, rnd).value.sent, t) - Total(After(steps, rnd).value.archived, t) <= Times(k, Limit(u))
  {
    if steps == [] {
      LimitPositive(u);
      TimesMono(0, k, Limit(u));
    } else {
      var n := |steps| - 1;
      var before := steps[..n];
      assert AtMostOpen(before, rnd, t, k) by {
        forall m | 0 <= m <= n ensures before[..m] == steps[..m] {}
      }
      TotalIsBounded(before, rnd, u, t, k);
      assert steps[..|steps|] == steps;
      CapStep(After(before, rnd).value, steps[n], rnd, u, t, k);
    }
    TotalNonNegative(After(steps, rnd).value.open, t);
  }

  // ---- and the bound is reached --------------------------------------------

  /** `k` equal creations are all checked before the first one is sent. */
  function Race(c: Grant, k: nat): seq<Step> {
    seq(2 * k, i requires 0 <= i < 2 * k => if i < k then Check(c) else Send(0))
  }

  function Copies(c: Grant, n: nat): seq<Grant> {
    seq(n, _ => c)
  }

  function RaceState(c: Grant, k: nat, m: nat): State
    requires m <= 2 * k
  {
    if m <= k then State([], [], Copies(c, m)) else State(Copies(c, m - k), [], Copies(c, 2 * k - m))
  }

  lemma {:induction false} RaceRuns(c: Grant, k: nat, m: nat)
    requires m <= 2 * k && 0.0 <= c.amount <= CAP
    ensures After(Race(c, k)[..m], EXACT) == Some(RaceState(c, k, m))
  {
    if m == 0 {
      assert Copies(c, 0) == [] && Race(c, k)[..0] == [];
    } else {
      RaceRuns(c, k, m - 1);
      assert Race(c, k)[..m][..m - 1] == Race(c, k)[..m - 1];
      var before, after := RaceState(c, k, m - 1), RaceState(c, k, m);
      if m <= k {
        assert Copies(c, m - 1) + [c] == Copies(c, m);
      } else {
        assert before.sent + [c] == after.sent;
        assert Without(before.open, 0) == after.open;
      }
    }
  }

  lemma {:induction false} CopiesTotal(c: Grant, n: nat)
    ensures Total(Copies(c, n), c.target) == Times(n, c.amount) && Count(Copies(c, n), c.target) == n
  {
    if n > 0 {
      CopiesTotal(c, n - 1);
      assert Copies(c, n) == Copies(c, n - 1) + [c];
      TotalPush(Copies(c, n - 1), c, c.target);
      TimesOneMore(n - 1, c.amount);
    }
  }

  /**
   The cap does not hold on its own: even without rounding, `k` creations of 1000
   that pass their checks before any of them is sent put k * 1000 into one month.
   */
  lemma RaceReachesBound(t: Target, k: nat)
    ensures var steps := Race(Grant(t, CAP), k);
      && After(steps, EXACT).Some? && AtMostOpen(steps, EXACT, t, k)
      && Total(After(steps, EXACT).value.sent, t) == Times(k, CAP) == Times(k, Limit(0.0))
  {
    var c := Grant(t, CAP);
    var steps := Race(c, k);
    forall m | 0 <= m <= |steps|
      ensures After(steps[..m], EXACT).Some? && Count(After(steps[..m], EXACT).value.open, t) <= k
    {
      RaceRuns(c, k, m);
      CopiesTotal(c, if m <= k then m else 2 * k - m);
    }
    RaceRuns(c, k, 2 * k);
    assert steps[..2 * k] == steps;
    CopiesTotal(c, k);
    if k == 0 { assert Copies(c, 0) == []; }
  }

  /** Every run with at most `k` creations for `t` between check and send keeps the cap. */
  ghost predicate CapHolds(t: Target, k: nat) {
    forall steps :: After(steps, EXACT).Some? && AtMostOpen(steps, EXACT, t, k)
      ==> Total(After(steps, EXACT).value.sent, t) - Total(After(steps, EXACT).value.archived, t) <= CAP
  }

  /** Without rounding the cap holds in all runs exactly when creations of one month are not checked side by side. */
  lemma CapHoldsIffOneAtATime(t: Target, k: nat)
    ensures CapHolds(t, k) <==> k <= 1
  {
    if k <= 1 {
      forall steps | After(steps, EXACT).Some? && AtMostOpen(steps, EXACT, t, k)
        ensures Total(After(steps, EXACT).value.sent, t) - Total(After(steps, EXACT).value.archived, t) <= CAP
      {
        TotalIsBounded(steps, EXACT, 0.0, t, k);
        TimesMono(k, 1, CAP);
      }
    } else {
      RaceReachesBound(t, k);
      RaceHasNoArchive(t, k);
      TimesMono(2, k, CAP);
      assert Times(2, CAP) == 2000.0;
    }
  }

  lemma RaceHasNoArchive(t: Target, k: nat)
    ensures After(Race(Grant(t, CAP), k), EXACT).Some?
    ensures After(Race(Grant(t, CAP), k), EXACT).value.archived == []
  {
    var c := Grant(t, CAP);
    RaceRuns(c, k, 2 * k);
    assert Race(c, k)[..2 * k] == Race(c, k);
  }
}
