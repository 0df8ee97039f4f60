/**
 The slot protocol of the password-encryption rate limiter as a step machine.
 Any number of caller threads run `waitForFreeSlotAndRunEncryption`; each has a
 program counter, and one step is one instruction on the shared state.
 */
module RateLimiterProtocol {
  import opened Common

  const SLEEP_MS: nat := 200
  const TIMEOUT_MS: nat := 100_000
  const MAX_REFUSALS: nat := 501

  type Tid = nat

  /** Where a caller stands; the comment says what it does next. */
  datatype Pc =
    | Locking                // take the lock
    | Testing                // test the set; insert the name when it is admitted
    | Claimed                // unlock, own slot in the set
    | Encrypting             // run createKey
    | Relocking              // take the lock again
    | Erasing                // erase the own name
    | Releasing              // unlock and return
    | Refused                // unlock after a failed test
    | Sleeping(until: nat)   // sleep until at least this time
    | Judging                // compare the stop watch with the time-out
    | Done
    | TimedOut

  predicate HoldsLock(pc: Pc) {
    pc.Testing? || pc.Claimed? || pc.Erasing? || pc.Releasing? || pc.Refused?
  }

  /** Between the insert and the erase. */
  predicate HasSlot(pc: Pc) {
    pc.Claimed? || pc.Encrypting? || pc.Relocking? || pc.Erasing?
  }

  predicate Finished(pc: Pc) {
    pc.Done? || pc.TimedOut?
  }

  /** `refusals` and `keys` only record what the caller has done so far. */
  datatype Caller = Caller(name: string, pc: Pc, start: nat, refusals: nat, keys: nat)

  datatype State = State(callers: map<Tid, Caller>, holder: Option<Tid>, running: set<string>, clock: nat)

  /** A new call comes in, a caller executes its next instruction, or time passes. */
  datatype Step = Spawn(t: Tid, name: string) | Go(t: Tid) | Tick(ms: nat)

  const INIT := State(map[], None, {}, 0)

  /** The test made under the lock. */
  predicate Admits(running: set<string>, name: string, cpuCount: nat) {
    |running| < cpuCount && name !in running
  }

  predicate CanGo(s: State, t: Tid) {
    && t in s.callers
    && !Finished(s.callers[t].pc)
    && (s.callers[t].pc in {Locking, Relocking} ==> s.holder == None)
    && (s.callers[t].pc.Sleeping? ==> s.callers[t].pc.until <= s.clock)
  }

  predicate Enabled(s: State, step: Step) {
    match step
    case Spawn(t, _) => t !in s.callers
    case Go(t) => CanGo(s, t)
    case Tick(_) => true
  }

  function Put(s: State, t: Tid, c: Caller): State {
    s.(callers := s.callers[t := c])
  }

  function Advance(s: State, t: Tid, cpuCount: nat): State
    requires CanGo(s, t)
  {
    var c := s.callers[t];
    match c.pc
    case Locking => Put(s, t, c.(pc := Testing)).(holder := Some(t))
    case Testing =>
      if Admits(s.running, c.name, cpuCount)
      then Put(s, t, c.(pc := Claimed)).(running := s.running + {c.name})
      else Put(s, t, c.(pc := Refused, refusals := c.refusals + 1))
    case Claimed => Put(s, t, c.(pc := Encrypting)).(holder := None)
    case Encrypting => Put(s, t, c.(pc := Relocking, keys := c.keys + 1))
    case Relocking => Put(s, t, c.(pc := Erasing)).(holder := Some(t))
    case Erasing => Put(s, t, c.(pc := Releasing)).(running := s.running - {c.name})
    case Releasing => Put(s, t, c.(pc := Done)).(holder := None)
    case Refused => Put(s, t, c.(pc := Sleeping(s.clock + SLEEP_MS))).(holder := None)
    case Sleeping(_) => Put(s, t, c.(pc := Judging))
    case Judging => Put(s, t, c.(pc := if s.clock - c.start > TIMEOUT_MS then TimedOut else Locking))
  }

  function Apply(s: State, step: Step, cpuCount: nat): State
    requires Enabled(s, step)
  {
    match step
    case Spawn(t, name) => Put(s, t, Caller(name, Locking, s.clock, 0, 0))
    case Go(t) => Advance(s, t, cpuCount)
    case Tick(ms) => s.(clock := s.clock + ms)
  }

  /** The state after `steps`, or None when one of them was not possible. */
  function After(steps: seq<Step>, cpuCount: nat): Option<State> {
    if steps == [] then Some(INIT)
    else
      var before := After(steps[..|steps| - 1], cpuCount);
      var step := steps[|steps| - 1];
      if before.Some? && Enabled(before.value, step) then Some(Apply(before.value, step, cpuCount)) else None
  }

  ghost predicate Reachable(s: State, cpuCount: nat) {
    exists steps :: After(steps, cpuCount) == Some(s)
  }

  function SlotCallers(s: State): set<Tid> {
    set t | t in s.callers && HasSlot(s.callers[t].pc)
  }

  function EncryptingCallers(s: State): set<Tid> {
    set t | t in s.callers && s.callers[t].pc.Encrypting?
  }

  function NamesOf(s: State, ts: set<Tid>): set<string>
    requires ts <= s.callers.Keys
  {
    set t | t in ts :: s.callers[t].name
  }

  // ---- the invariant ------------------------------------------------------

  ghost predicate LockInv(s: State) {
    && (s.holder.Some? ==> s.holder.value in s.callers)
    && forall t :: t in s.callers ==> (s.holder == Some(t) <==> HoldsLock(s.callers[t].pc))
  }

  ghost predicate SlotInv(s: State, cpuCount: nat) {
    && (forall n :: n in s.running <==> exists t :: t in SlotCallers(s) && s.callers[t].name == n)
    && (forall t, u :: t in SlotCallers(s) && u in SlotCallers(s) && s.callers[t].name == s.callers[u].name ==> t == u)
    && |s.running| <= cpuCount
  }

  /** Stop watch and counters of one caller at time `clock`. */
  predicate CallerInv(c: Caller, clock: nat) {
    && c.keys == (if c.pc in {Relocking, Erasing, Releasing, Done} then 1 else 0)
    && (match c.pc
        case Refused => 1 <= c.refusals <= MAX_REFUSALS && c.start + SLEEP_MS * (c.refusals - 1) <= clock
        case Sleeping(until) => 1 <= c.refusals <= MAX_REFUSALS && c.start + SLEEP_MS * c.refusals <= until
        case Judging => 1 <= c.refusals <= MAX_REFUSALS && c.start + SLEEP_MS * c.refusals <= clock
        case TimedOut => 1 <= c.refusals <= MAX_REFUSALS && clock - c.start > TIMEOUT_MS
        case _ => c.refusals < MAX_REFUSALS && c.start + SLEEP_MS * c.refusals <= clock)
  }

  ghost predicate Inv(s: State, cpuCount: nat) {
    && LockInv(s)
    && SlotInv(s, cpuCount)
    && forall t :: t in s.callers ==> CallerInv(s.callers[t], s.clock)
  }

  lemma SlotsAfterClaim(s: State, s': State, t: Tid, cpuCount: nat)
    requires SlotInv(s, cpuCount) && t in s.callers && !HasSlot(s.callers[t].pc)
    requires Admits(s.running, s.callers[t].name, cpuCount)
    requires s' == Put(s, t, s.callers[t].(pc := Claimed)).(running := s.running + {s.callers[t].name})
    ensures SlotInv(s', cpuCount)
  {
    var name := s.callers[t].name;
    assert SlotCallers(s') == SlotCallers(s) + {t};
    forall n ensures n in s'.running <==> exists u :: u in SlotCallers(s') && s'.callers[u].name == n {
      if n == name {
        assert t in SlotCallers(s') && s'.callers[t].name == n;
      } else if n in s.running {
        var u :| u in SlotCallers(s) && s.callers[u].name == n;
        assert u in SlotCallers(s') && s'.callers[u].name == n;
      }
    }
  }

  lemma SlotsAfterErase(s: State, t: Tid, cpuCount: nat)
    requires Inv(s, cpuCount) && CanGo(s, t) && s.callers[t].pc.Erasing?
    ensures SlotInv(Advance(s, t, cpuCount), cpuCount)
  {
    var s' := Advance(s, t, cpuCount);
    assert SlotCallers(s') == SlotCallers(s) - {t};
    assert t in SlotCallers(s);
    forall n ensures n in s'.running <==> exists u :: u in SlotCallers(s') && s'.callers[u].name == n {
      if n in s'.running {
        var u :| u in SlotCallers(s) && s.callers[u].name == n;
        assert u in SlotCallers(s') && s'.callers[u].name == n;
      }
    }
  }

  /** A step that leaves the set alone and moves nobody into or out of a slot. */
  lemma SlotsUntouched(s: State, s': State, cpuCount: nat)
    requires SlotInv(s, cpuCount) && s'.running == s.running
    requires SlotCallers(s') == SlotCallers(s)
    requires forall t :: t in SlotCallers(s) ==> s'.callers[t].name == s.callers[t].name
    ensures SlotInv(s', cpuCount)
  {
    forall n ensures n in s'.running <==> exists u :: u in SlotCallers(s') && s'.callers[u].name == n {
      if n in s.running {
        var u :| u in SlotCallers(s) && s.callers[u].name == n;
        assert s'.callers[u].name == n;
      }
    }
  }

  lemma LockStep(s: State, t: Tid, cpuCount: nat)
    requires LockInv(s) && CanGo(s, t)
    ensures LockInv(Advance(s, t, cpuCount))
  {
    var s' := Advance(s, t, cpuCount);
    assert s'.callers.Keys == s.callers.Keys;
    forall u | u in s'.callers ensures s'.holder == Some(u) <==> HoldsLock(s'.callers[u].pc) {
      assert s.holder == Some(u) <==> HoldsLock(s.callers[u].pc);
      assert s.holder == Some(t) <==> HoldsLock(s.callers[t].pc);
    }
  }

  lemma CallerStep(s: State, t: Tid, cpuCount: nat)
    requires CanGo(s, t) && CallerInv(s.callers[t], s.clock)
    ensures CallerInv(Advance(s, t, cpuCount).callers[t], Advance(s, t, cpuCount).clock)
  {
  }

  lemma CallerLater(c: Caller, clock: nat, ms: nat)
    requires CallerInv(c, clock)
    ensures CallerInv(c, clock + ms)
  {
  }

  lemma SlotsStep(s: State, t: Tid, cpuCount: nat)
    requires Inv(s, cpuCount) && CanGo(s, t)
    ensures SlotInv(Advance(s, t, cpuCount), cpuCount)
  {
    var s' := Advance(s, t, cpuCount);
    if s.callers[t].pc.Testing? && Admits(s.running, s.callers[t].name, cpuCount) {
      SlotsAfterClaim(s, s', t, cpuCount);
    } else if s.callers[t].pc.Erasing? {
      SlotsAfterErase(s, t, cpuCount);
    } else {
      assert s'.callers == s.callers[t := s'.callers[t]];
      assert SlotCallers(s') == SlotCallers(s);
      SlotsUntouched(s, s', cpuCount);
    }
  }

  lemma OnlyOneMoves(s: State, t: Tid, cpuCount: nat)
    requires CanGo(s, t)
    ensures var s' := Advance(s, t, cpuCount);
            t in s'.callers && s'.callers == s.callers[t := s'.callers[t]] && s'.clock == s.clock
            && s'.callers[t].name == s.callers[t].name
  {
  }

  lemma CallersTogether(s: State, s': State, t: Tid)
    requires forall u :: u in s.callers ==> CallerInv(s.callers[u], s.clock)
    requires t in s'.callers && s'.callers == s.callers[t := s'.callers[t]] && s'.clock == s.clock
    requires CallerInv(s'.callers[t], s'.clock)
    ensures forall u :: u in s'.callers ==> CallerInv(s'.callers[u], s'.clock)
  {
    forall u | u in s'.callers ensures CallerInv(s'.callers[u], s'.clock) {
      if u != t { assert u in s.callers && s'.callers[u] == s.callers[u]; }
    }
  }

  lemma InvGo(s: State, t: Tid, cpuCount: nat)
    requires Inv(s, cpuCount) && CanGo(s, t)
    ensures Inv(Advance(s, t, cpuCount), cpuCount)
  {
    SlotsStep(s, t, cpuCount);
    LockStep(s, t, cpuCount);
    CallerStep(s, t, cpuCount);
    OnlyOneMoves(s, t, cpuCount);
    CallersTogether(s, Advance(s, t, cpuCount), t);
  }

  lemma InvStep(s: State, step: Step, cpuCount: nat)
    requires Inv(s, cpuCount) && Enabled(s, step)
    ensures Inv(Apply(s, step, cpuCount), cpuCount)
  {
    var s' := Apply(s, step, cpuCount);
    match step {
      case Spawn(t, name) =>
        assert SlotCallers(s') == SlotCallers(s);
        SlotsUntouched(s, s', cpuCount);
      case Tick(ms) =>
        assert SlotCallers(s') == SlotCallers(s);
        SlotsUntouched(s, s', cpuCount);
        forall t | t in s.callers ensures CallerInv(s.callers[t], s.clock + ms) {
          CallerLater(s.callers[t], s.clock, ms);
        }
      case Go(t) =>
        InvGo(s, t, cpuCount);
    }
  }

  lemma {:induction false} InvAfter(steps: seq<Step>, cpuCount: nat)
    requires After(steps, cpuCount).Some?
    ensures Inv(After(steps, cpuCount).value, cpuCount)
  {
    if steps == [] {
      assert SlotCallers(INIT) == {};
    } else {
      var before := steps[..|steps| - 1];
      InvAfter(before, cpuCount);
      InvStep(After(before, cpuCount).value, steps[|steps| - 1], cpuCount);
    }
  }

  lemma InvReachable(s: State, cpuCount: nat)
    requires Reachable(s, cpuCount)
    ensures Inv(s, cpuCount)
  {
    var steps :| After(steps, cpuCount) == Some(s);
    InvAfter(steps, cpuCount);
  }
}
