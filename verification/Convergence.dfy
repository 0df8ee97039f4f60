/**
 What a sequence of notifications does to a pending list: the order decides only
 between error messages, and delivering one again changes no state.
 */
module Convergence {
  import opened PendingLog

  datatype Notification = Notification(id: MessageId, confirmed: bool, errorMessage: string)

  function Deliver(log: Log, ns: seq<Notification>): (r: Log)
    ensures |r| == |log|
  {
    if ns == [] then log
    else
      var n := ns[|ns| - 1];
      Updated(Deliver(log, ns[..|ns| - 1]), n.id, n.confirmed, n.errorMessage)
  }

  predicate Addressed(e: PendingTransaction, ns: seq<Notification>, confirmed: bool) {
    exists k :: 0 <= k < |ns| && Matches(e, ns[k].id) && ns[k].confirmed == confirmed
  }

  /** The state an entry reaches, read off which kinds of notification there are. */
  function FinalState(e: PendingTransaction, ns: seq<Notification>): TxState {
    if e.state.Confirmed? || Addressed(e, ns, true) then Confirmed
    else if Addressed(e, ns, false) then Rejected
    else e.state
  }

  lemma {:induction false} IdsStay(log: Log, ns: seq<Notification>)
    ensures forall i :: 0 <= i < |log| ==> Deliver(log, ns)[i].iotaMessageId == log[i].iotaMessageId
  {
    if ns != [] { IdsStay(log, ns[..|ns| - 1]); }
  }

  lemma AddressedSplit(e: PendingTransaction, ns: seq<Notification>, confirmed: bool)
    requires ns != []
    ensures Addressed(e, ns, confirmed) <==>
              || Addressed(e, ns[..|ns| - 1], confirmed)
              || (Matches(e, ns[|ns| - 1].id) && ns[|ns| - 1].confirmed == confirmed)
  {
    var before := ns[..|ns| - 1];
    if Addressed(e, before, confirmed) {
      var k :| 0 <= k < |before| && Matches(e, before[k].id) && before[k].confirmed == confirmed;
      assert ns[k] == before[k];
    }
    if Addressed(e, ns, confirmed) {
      var k :| 0 <= k < |ns| && Matches(e, ns[k].id) && ns[k].confirmed == confirmed;
      assert k < |before| ==> before[k] == ns[k];
    }
  }

  /** Entry by entry: the newest entry of its id ends in `FinalState`, every older one stays as it was. */
  lemma {:induction false} DeliveredState(log: Log, ns: seq<Notification>, i: nat)
    requires i < |log|
    ensures IsNewest(log, i) ==> Deliver(log, ns)[i].state == FinalState(log[i], ns)
    ensures !IsNewest(log, i) ==> Deliver(log, ns)[i] == log[i]
  {
    if ns != [] {
      var before, n := ns[..|ns| - 1], ns[|ns| - 1];
      var mid := Deliver(log, before);
      DeliveredState(log, before, i);
      IdsStay(log, before);
      assert IsNewest(mid, i) <==> IsNewest(log, i);
      UpdatedPointwise(mid, n.id, n.confirmed, n.errorMessage, i);
      AddressedSplit(log[i], ns, true);
      AddressedSplit(log[i], ns, false);
    }
  }

  predicate SameStates(a: Log, b: Log) {
    |a| == |b| && forall i :: 0 <= i < |a| ==> a[i].state == b[i].state
  }

  lemma AddressedIsASetProperty(e: PendingTransaction, ns: seq<Notification>, ms: seq<Notification>, confirmed: bool)
    requires forall n :: n in ns <==> n in ms
    ensures Addressed(e, ns, confirmed) <==> Addressed(e, ms, confirmed)
  {
    if Addressed(e, ns, confirmed) {
      var k :| 0 <= k < |ns| && Matches(e, ns[k].id) && ns[k].confirmed == confirmed;
      assert ns[k] in ms;
    }
    if Addressed(e, ms, confirmed) {
      var k :| 0 <= k < |ms| && Matches(e, ms[k].id) && ms[k].confirmed == confirmed;
      assert ms[k] in ns;
    }
  }

  /** Neither the order of the notifications nor how often each one arrives changes the states reached. */
  lemma OrderAndRepetitionDoNotMatter(log: Log, ns: seq<Notification>, ms: seq<Notification>)
    requires forall n :: n in ns <==> n in ms
    ensures SameStates(Deliver(log, ns), Deliver(log, ms))
  {
    forall i | 0 <= i < |log| ensures Deliver(log, ns)[i].state == Deliver(log, ms)[i].state {
      DeliveredState(log, ns, i);
      DeliveredState(log, ms, i);
      AddressedIsASetProperty(log[i], ns, ms, true);
      AddressedIsASetProperty(log[i], ns, ms, false);
    }
  }

  /** Any permutation of a notification sequence reaches the same states. */
  lemma PermutationsConverge(log: Log, ns: seq<Notification>, ms: seq<Notification>)
    requires multiset(ns) == multiset(ms)
    ensures SameStates(Deliver(log, ns), Deliver(log, ms))
  {
    forall n ensures n in ns <==> n in ms {
      assert n in multiset(ns) <==> n in multiset(ms);
    }
    OrderAndRepetitionDoNotMatter(log, ns, ms);
  }

  lemma UpdatedTwice(log: Log, n: Notification, i: nat)
    requires i < |log|
    ensures var once := Updated(log, n.id, n.confirmed, n.errorMessage);
            Updated(once, n.id, n.confirmed, n.errorMessage)[i] == once[i]
  {
    var once := Updated(log, n.id, n.confirmed, n.errorMessage);
    assert forall j :: 0 <= j < |log| ==> once[j].iotaMessageId == log[j].iotaMessageId;
    assert IsNewest(once, i) <==> IsNewest(log, i);
    UpdatedPointwise(log, n.id, n.confirmed, n.errorMessage, i);
    UpdatedPointwise(once, n.id, n.confirmed, n.errorMessage, i);
  }

  /** Delivering the last notification a second time changes nothing at all. */
  lemma RedeliveryIsIdempotent(log: Log, ns: seq<Notification>, n: Notification)
    ensures Deliver(log, ns + [n, n]) == Deliver(log, ns + [n])
  {
    var before := Deliver(log, ns);
    assert (ns + [n])[..|ns|] == ns && (ns + [n, n])[..|ns| + 1] == ns + [n];
    var once := Deliver(log, ns + [n]);
    forall i | 0 <= i < |log| ensures Deliver(log, ns + [n, n])[i] == once[i] {
      UpdatedTwice(before, n, i);
    }
  }

  // ---- the error message ---------------------------------------------------

  /** The last notification for `e`, or -1. */
  function LastFor(e: PendingTransaction, ns: seq<Notification>): (r: int)
    ensures -1 <= r < |ns|
    ensures r >= 0 ==> Matches(e, ns[r].id)
    ensures forall k :: r < k < |ns| ==> !Matches(e, ns[k].id)
  {
    if ns == [] then -1
    else if Matches(e, ns[|ns| - 1].id) then |ns| - 1
    else LastFor(e, ns[..|ns| - 1])
  }

  /** As the listener sends them: a confirmation carries no message. */
  predicate ConfirmsSilently(ns: seq<Notification>) {
    forall k :: 0 <= k < |ns| && ns[k].confirmed ==> ns[k].errorMessage == ""
  }

  /** The message is empty once the entry is confirmed and otherwise the last reject's. */
  lemma {:induction false} DeliveredMessage(log: Log, ns: seq<Notification>, i: nat)
    requires i < |log| && IsNewest(log, i) && ConfirmsSilently(ns)
    requires log[i].state.Confirmed? ==> log[i].errorMessage == ""
    ensures Deliver(log, ns)[i].errorMessage ==
              if FinalState(log[i], ns).Confirmed? then ""
              else if LastFor(log[i], ns) < 0 then log[i].errorMessage
              else ns[LastFor(log[i], ns)].errorMessage
  {
    if ns != [] {
      var before, n := ns[..|ns| - 1], ns[|ns| - 1];
      var mid := Deliver(log, before);
      assert ConfirmsSilently(before);
      DeliveredMessage(log, before, i);
      DeliveredState(log, before, i);
      IdsStay(log, before);
      assert IsNewest(mid, i);
      UpdatedPointwise(mid, n.id, n.confirmed, n.errorMessage, i);
      AddressedSplit(log[i], ns, true);
    }
  }
}
