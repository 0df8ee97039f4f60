/** What holds in every reachable state and over every run of the slot protocol. */
module RateLimiterTheorems {
  import opened Common
  import opened RateLimiterProtocol

  // ---- safety -------------------------------------------------------------

  lemma {:induction false} NamesCount(s: State, ts: set<Tid>)
    requires ts <= s.callers.Keys
    requires forall t, u :: t in ts && u in ts && s.callers[t].name == s.callers[u].name ==> t == u
    ensures |NamesOf(s, ts)| == |ts|
    decreases ts
  {
    if ts != {} {
      var t :| t in ts;
      var rest := ts - {t};
      NamesCount(s, rest);
      assert NamesOf(s, ts) == NamesOf(s, rest) + {s.callers[t].name};
      assert s.callers[t].name !in NamesOf(s, rest);
    }
  }

  lemma SubsetCount<T>(a: set<T>, b: set<T>)
    requires a <= b
    ensures |a| <= |b|
  {
    assert b == a + (b - a);
  }

  /**
   The set holds exactly the names of the callers between insert and erase, no
   two of them share a name, at most cpuCount callers are encrypting, and none of
   those holds the lock.
   */
  lemma SlotSafety(s: State, cpuCount: nat)
    requires Reachable(s, cpuCount)
    ensures s.running == NamesOf(s, SlotCallers(s))
    ensures forall t, u :: t in SlotCallers(s) && u in SlotCallers(s) && t != u ==>
              s.callers[t].name != s.callers[u].name
    ensures |SlotCallers(s)| == |s.running|
    ensures |EncryptingCallers(s)| <= |SlotCallers(s)| <= cpuCount
    ensures forall t :: t in EncryptingCallers(s) ==> s.holder != Some(t)
    ensures forall t, u :: t in s.callers && u in s.callers && HoldsLock(s.callers[t].pc) && HoldsLock(s.callers[u].pc)
              ==> t == u
  {
    InvReachable(s, cpuCount);
    NamesCount(s, SlotCallers(s));
    assert NamesOf(s, SlotCallers(s)) == s.running;
    SubsetCount(EncryptingCallers(s), SlotCallers(s));
  }

  /**
   A check is refused for exactly two reasons: cpuCount other callers hold slots,
   or another caller holds one under the same name.
   */
  lemma RefusedIff(s: State, t: Tid, cpuCount: nat)
    requires Reachable(s, cpuCount) && CanGo(s, t) && s.callers[t].pc.Testing?
    ensures Advance(s, t, cpuCount).callers[t].pc.Refused? <==>
              || |SlotCallers(s) - {t}| == cpuCount
              || exists u :: u in SlotCallers(s) && u != t && s.callers[u].name == s.callers[t].name
  {
    SlotSafety(s, cpuCount);
    assert t !in SlotCallers(s);
    assert SlotCallers(s) - {t} == SlotCallers(s);
    if s.callers[t].name in s.running {
      var u :| u in SlotCallers(s) && s.callers[u].name == s.callers[t].name;
      assert u != t;
    }
  }

  /** When every running encryption has come back, the next check of anybody succeeds. */
  lemma DrainedMeansFree(s: State, t: Tid, cpuCount: nat)
    requires Reachable(s, cpuCount) && SlotCallers(s) == {} && 0 < cpuCount
    requires CanGo(s, t) && s.callers[t].pc.Testing?
    ensures s.running == {}
    ensures Advance(s, t, cpuCount).callers[t].pc.Claimed?
  {
    SlotSafety(s, cpuCount);
    RefusedIff(s, t, cpuCount);
  }

  /** The erase takes out the eraser's own slot and leaves every other one. */
  lemma EraseIsOwn(s: State, t: Tid, cpuCount: nat)
    requires Reachable(s, cpuCount) && CanGo(s, t) && s.callers[t].pc.Erasing?
    ensures var s' := Advance(s, t, cpuCount);
            && s.callers[t].name in s.running && s.callers[t].name !in s'.running
            && SlotCallers(s') == SlotCallers(s) - {t}
            && NamesOf(s', SlotCallers(s')) == s'.running
  {
    var s' := Advance(s, t, cpuCount);
    InvReachable(s, cpuCount);
    InvGo(s, t, cpuCount);
    OnlyOneMoves(s, t, cpuCount);
    assert t in SlotCallers(s);
    assert SlotCallers(s') == SlotCallers(s) - {t};
    assert NamesOf(s', SlotCallers(s')) == s'.running;
  }

  // ---- how a call ends ----------------------------------------------------

  /**
   A call ends in one of two ways: createKey ran once, or the time-out passed and
   it never ran. Either way no slot is left behind, and at most 501 checks failed.
   */
  lemma HowCallsEnd(s: State, t: Tid, cpuCount: nat)
    requires Reachable(s, cpuCount) && t in s.callers
    ensures s.callers[t].refusals <= 501 && s.callers[t].keys <= 1
    ensures s.callers[t].pc.Done? ==> s.callers[t].keys == 1 && s.callers[t].refusals <= 500
    ensures s.callers[t].pc.TimedOut? ==> s.callers[t].keys == 0 && s.clock - s.callers[t].start > 100_000
    ensures Finished(s.callers[t].pc) ==> t !in SlotCallers(s) && s.holder != Some(t)
  {
    InvReachable(s, cpuCount);
    assert CallerInv(s.callers[t], s.clock);
  }

  /** The number of instructions a caller has executed, read off its place and its refusals. */
  function Taken(c: Caller): int {
    match c.pc
    case Locking => 5 * c.refusals
    case Testing => 5 * c.refusals + 1
    case Claimed => 5 * c.refusals + 2
    case Encrypting => 5 * c.refusals + 3
    case Relocking => 5 * c.refusals + 4
    case Erasing => 5 * c.refusals + 5
    case Releasing => 5 * c.refusals + 6
    case Done => 5 * c.refusals + 7
    case Refused => 5 * c.refusals - 3
    case Sleeping(_) => 5 * c.refusals - 2
    case Judging => 5 * c.refusals - 1
    case TimedOut => 5 * c.refusals
  }

  const MAX_STEPS: nat := 2507

  function GoCount(steps: seq<Step>, t: Tid): nat {
    if steps == [] then 0
    else GoCount(steps[..|steps| - 1], t) + if steps[|steps| - 1] == Go(t) then 1 else 0
  }

  lemma TakenStep(s: State, t: Tid, cpuCount: nat)
    requires CanGo(s, t)
    ensures t in Advance(s, t, cpuCount).callers
    ensures Taken(Advance(s, t, cpuCount).callers[t]) == Taken(s.callers[t]) + 1
  {
  }

  lemma {:induction false} TakenIsGoCount(steps: seq<Step>, cpuCount: nat, t: Tid)
    requires After(steps, cpuCount).Some?
    ensures var s := After(steps, cpuCount).value;
            GoCount(steps, t) == if t in s.callers then Taken(s.callers[t]) else 0
  {
    if steps != [] {
      var before := steps[..|steps| - 1];
      TakenIsGoCount(before, cpuCount, t);
      var s := After(before, cpuCount).value;
      match steps[|steps| - 1] {
        case Spawn(u, _) =>
        case Tick(_) =>
        case Go(u) =>
          OnlyOneMoves(s, u, cpuCount);
          TakenStep(s, u, cpuCount);
      }
    }
  }

  /** No call goes on forever: whatever the interleaving, a caller executes at most 2507 instructions. */
  lemma CallsAreBounded(steps: seq<Step>, cpuCount: nat, t: Tid)
    requires After(steps, cpuCount).Some?
    ensures GoCount(steps, t) <= MAX_STEPS
  {
    TakenIsGoCount(steps, cpuCount, t);
    InvAfter(steps, cpuCount);
    var s := After(steps, cpuCount).value;
    if t in s.callers { assert CallerInv(s.callers[t], s.clock); }
  }

  // ---- progress -----------------------------------------------------------

  /** While a call is open, somebody can move or everybody who is held up only sleeps. */
  lemma NoDeadlock(s: State, t: Tid, cpuCount: nat)
    requires Reachable(s, cpuCount) && t in s.callers && !Finished(s.callers[t].pc)
    ensures exists u :: u in s.callers && (CanGo(s, u) || s.callers[u].pc.Sleeping?)
  {
    InvReachable(s, cpuCount);
    if s.holder.Some? {
      assert CanGo(s, s.holder.value);
    } else {
      assert CanGo(s, t) || s.callers[t].pc.Sleeping?;
    }
  }

  function Open(s: State): set<Tid> {
    set t | t in s.callers && !Finished(s.callers[t].pc)
  }

  /** `s'` differs from `s` only in `t`, in the clock and in the shared set. */
  ghost predicate OthersSame(s: State, s': State, t: Tid) {
    s'.callers.Keys == s.callers.Keys && forall u :: u in s.callers && u != t ==> s'.callers[u] == s.callers[u]
  }

  ghost predicate Alone(s: State, t: Tid) {
    t in s.callers && (s.holder == None || s.holder == Some(t))
  }

  lemma Extend(steps: seq<Step>, step: Step, cpuCount: nat)
    requires After(steps, cpuCount).Some? && Enabled(After(steps, cpuCount).value, step)
    ensures After(steps + [step], cpuCount) == Some(Apply(After(steps, cpuCount).value, step, cpuCount))
    ensures forall t :: GoCount(steps + [step], t) == GoCount(steps, t) + if step == Go(t) then 1 else 0
  {
    assert (steps + [step])[..|steps|] == steps;
  }

  /** How long the caller must be left asleep. */
  function Wait(s: State, t: Tid): nat
    requires t in s.callers
  {
    var pc := s.callers[t].pc;
    if pc.Sleeping? && pc.until > s.clock then pc.until - s.clock else 0
  }

  lemma AloneCanGo(s: State, cpuCount: nat, t: Tid)
    requires Inv(s, cpuCount) && Alone(s, t) && !Finished(s.callers[t].pc)
    ensures CanGo(s.(clock := s.clock + Wait(s, t)), t)
  {
    assert s.holder == Some(t) <==> HoldsLock(s.callers[t].pc);
  }

  lemma StaysAlone(s: State, t: Tid, cpuCount: nat)
    requires CanGo(s, t) && Alone(s, t)
    ensures Alone(Advance(s, t, cpuCount), t)
  {
  }

  /** A caller that holds the lock or meets it free can always execute one more instruction. */
  lemma MoveAlone(steps: seq<Step>, cpuCount: nat, t: Tid) returns (more: seq<Step>)
    requires After(steps, cpuCount).Some?
    requires var s := After(steps, cpuCount).value; Alone(s, t) && !Finished(s.callers[t].pc)
    ensures After(steps + more, cpuCount).Some?
    ensures GoCount(steps + more, t) == GoCount(steps, t) + 1 <= MAX_STEPS
    ensures var s' := After(steps + more, cpuCount).value;
            OthersSame(After(steps, cpuCount).value, s', t) && Alone(s', t)
  {
    var s := After(steps, cpuCount).value;
    InvAfter(steps, cpuCount);
    AloneCanGo(s, cpuCount, t);
    var tick := Tick(Wait(s, t));
    more := [tick, Go(t)];
    Extend(steps, tick, cpuCount);
    var ticked := After(steps + [tick], cpuCount).value;
    Extend(steps + [tick], Go(t), cpuCount);
    assert steps + more == steps + [tick] + [Go(t)];
    OnlyOneMoves(ticked, t, cpuCount);
    StaysAlone(ticked, t, cpuCount);
    CallsAreBounded(steps + more, cpuCount, t);
  }

  lemma {:induction false} DriveAlone(steps: seq<Step>, cpuCount: nat, t: Tid) returns (more: seq<Step>)
    requires After(steps, cpuCount).Some? && Alone(After(steps, cpuCount).value, t)
    ensures After(steps + more, cpuCount).Some?
    ensures var s' := After(steps + more, cpuCount).value;
            && OthersSame(After(steps, cpuCount).value, s', t) && Alone(s', t)
            && Finished(s'.callers[t].pc)
    decreases MAX_STEPS - GoCount(steps, t)
  {
    if Finished(After(steps, cpuCount).value.callers[t].pc) {
      more := [];
      assert steps + more == steps;
    } else {
      var first := MoveAlone(steps, cpuCount, t);
      var rest := DriveAlone(steps + first, cpuCount, t);
      more := first + rest;
      assert steps + more == steps + first + rest;
    }
  }

  lemma NobodyOpen(steps: seq<Step>, cpuCount: nat)
    requires After(steps, cpuCount).Some? && Open(After(steps, cpuCount).value) == {}
    ensures var s := After(steps, cpuCount).value; s.running == {} && s.holder == None
  {
    InvAfter(steps, cpuCount);
    var s := After(steps, cpuCount).value;
    assert forall t :: t in SlotCallers(s) ==> t in Open(s);
    assert forall t :: t in s.callers && HoldsLock(s.callers[t].pc) ==> t in Open(s);
  }

  lemma SomebodyAlone(steps: seq<Step>, cpuCount: nat) returns (t: Tid)
    requires After(steps, cpuCount).Some? && Open(After(steps, cpuCount).value) != {}
    ensures var s := After(steps, cpuCount).value; t in Open(s) && Alone(s, t)
  {
    InvAfter(steps, cpuCount);
    var s := After(steps, cpuCount).value;
    t :| t in Open(s);
    if s.holder.Some? { t := s.holder.value; }
  }

  lemma OneFewerOpen(s: State, s': State, t: Tid)
    requires OthersSame(s, s', t) && t in Open(s) && t in s'.callers && Finished(s'.callers[t].pc)
    ensures Open(s') == Open(s) - {t}
    ensures |Open(s')| < |Open(s)|
  {
    assert Open(s') == Open(s) - {t};
  }

  lemma {:induction false} AllEnd(steps: seq<Step>, cpuCount: nat, open: nat) returns (more: seq<Step>)
    requires After(steps, cpuCount).Some? && |Open(After(steps, cpuCount).value)| <= open
    ensures After(steps + more, cpuCount).Some?
    ensures After(steps + more, cpuCount).value.callers.Keys == After(steps, cpuCount).value.callers.Keys
    ensures Open(After(steps + more, cpuCount).value) == {}
    decreases open
  {
    if Open(After(steps, cpuCount).value) == {} {
      more := [];
      assert steps + more == steps;
    } else {
      var t := SomebodyAlone(steps, cpuCount);
      var first := DriveAlone(steps, cpuCount, t);
      OneFewerOpen(After(steps, cpuCount).value, After(steps + first, cpuCount).value, t);
      var rest := AllEnd(steps + first, cpuCount, open - 1);
      more := first + rest;
      assert steps + more == steps + first + rest;
    }
  }

  /** From every reachable state the callers can be scheduled so that every call ends, and then no slot is left. */
  lemma EveryCallCanEnd(steps: seq<Step>, cpuCount: nat) returns (more: seq<Step>)
    requires After(steps, cpuCount).Some?
    ensures After(steps + more, cpuCount).Some?
    ensures var s' := After(steps + more, cpuCount).value;
            && s'.callers.Keys == After(steps, cpuCount).value.callers.Keys
            && Open(s') == {} && s'.running == {} && s'.holder == None
  {
    more := AllEnd(steps, cpuCount, |Open(After(steps, cpuCount).value)|);
    NobodyOpen(steps + more, cpuCount);
  }

  /** A refused caller sleeps 200 ms: it goes on as soon as the clock has moved that far, and not before. */
  lemma SleepLasts(s: State, t: Tid, cpuCount: nat, ms: nat)
    requires CanGo(s, t) && s.callers[t].pc.Refused?
    ensures CanGo(Advance(s, t, cpuCount).(clock := s.clock + ms), t) <==> ms >= 200
  {
  }
}
