/**
 The rate limiter as the object the callers share. What other threads do to the
 set while this caller is not inside the lock comes in as parameters.
 */
module RateLimiter {
  import P = RateLimiterProtocol
  import opened RateLimiterTheorems

  datatype Outcome = KeyCreated | NoFreeCore

  class PasswordEncryptionRateLimiter {
    var running: set<string>
    const cpuCount: nat

    constructor (cpuCount: nat)
      ensures running == {} && this.cpuCount == cpuCount
    {
      running := {};
      this.cpuCount := cpuCount;
    }

    /**
     One check. `found` is the set at the first lock, `back` the set at the second
     one, which still holds the own name (OwnSlotSurvives below).
     */
    method CheckForFreeSlotAndRunEncryption(name: string, found: set<string>, back: set<string>)
      returns (ran: bool, keys: nat)
      requires P.Admits(found, name, cpuCount) ==> name in back
      modifies this
      ensures ran <==> |found| < cpuCount && name !in found
      ensures keys == if ran then 1 else 0
      ensures name !in found && |found| < cpuCount ==> running + {name} == back && name !in running
      ensures !ran ==> running == found
    {
      keys := 0;
      running := found;                // lock
      if |running| < cpuCount {
        if name !in running {
          running := running + {name};
          keys := keys + 1;            // unlock, createKey
          running := back;             // lock
          running := running - {name};
          return true, keys;           // unlock
        }
      }
      return false, keys;              // unlock
    }

    /**
     The retry loop. `found(k)` and `back(k)` are the sets at the two locks of check
     `k`; `elapsed(k)` is what the stop watch shows after the sleep that follows it.
     */
    method WaitForFreeSlotAndRunEncryption(name: string, found: nat -> set<string>, back: nat -> set<string>,
                                           elapsed: nat -> nat)
      returns (outcome: Outcome, refusals: nat, keys: nat)
      requires forall k: nat :: P.Admits(found(k), name, cpuCount) ==> name in back(k)
      requires elapsed(0) >= 200 && forall k: nat :: elapsed(k + 1) >= elapsed(k) + 200
      modifies this
      ensures forall k: nat :: k < refusals ==> !P.Admits(found(k), name, cpuCount)
      ensures forall k: nat :: k + 1 < refusals ==> elapsed(k) <= 100_000
      ensures outcome == KeyCreated ==>
                && P.Admits(found(refusals), name, cpuCount) && keys == 1 && refusals <= 500
                && running + {name} == back(refusals) && name !in running
      ensures outcome == NoFreeCore ==>
                && 0 < refusals <= 501 && elapsed(refusals - 1) > 100_000 && keys == 0
                && running == found(refusals - 1)
    {
      refusals := 0;
      var ran;
      ran, keys := CheckForFreeSlotAndRunEncryption(name, found(0), back(0));
      while !ran
        invariant ran <==> P.Admits(found(refusals), name, cpuCount)
        invariant keys == if ran then 1 else 0
        invariant ran ==> running + {name} == back(refusals) && name !in running
        invariant !ran ==> running == found(refusals)
        invariant forall k: nat :: k < refusals ==> !P.Admits(found(k), name, cpuCount) && elapsed(k) <= 100_000
        invariant refusals > 0 ==> 200 * refusals <= elapsed(refusals - 1) <= 100_000
        decreases !ran, 501 - refusals
      {
        refusals := refusals + 1;      // sleep
        assert refusals > 1 ==> elapsed((refusals - 2) + 1) >= elapsed(refusals - 2) + 200;
        if elapsed(refusals - 1) > 100_000 {
          return NoFreeCore, refusals, 0;
        }
        ran, keys := CheckForFreeSlotAndRunEncryption(name, found(refusals), back(refusals));
      }
      outcome := KeyCreated;
    }
  }

  /** The assumption on `back`: from the insert to the erase a caller's name stays in the set. */
  lemma OwnSlotSurvives(s: P.State, t: P.Tid, cpuCount: nat)
    requires P.Reachable(s, cpuCount) && t in s.callers && P.HasSlot(s.callers[t].pc)
    ensures s.callers[t].name in s.running
  {
    SlotSafety(s, cpuCount);
    assert t in P.SlotCallers(s);
  }
}
