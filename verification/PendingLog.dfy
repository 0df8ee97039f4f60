/**
 The pending-transaction list: a bounded first-in-first-out list whose entries are
 updated by a newest-first search. `Updated` and `Suffix` say what the two
 operations do on values; the class below does it in place.
 */
module PendingLog {
  import opened Common

  const MAX_PENDING_TRANSACTIONS_IN_LIST: nat := 100
  const ID_BYTES: nat := 64

  /** The search compares 64 bytes, so an id has at least that many. */
  type MessageId = s: string | |s| >= ID_BYTES witness seq(ID_BYTES, _ => '0')

  datatype TransactionType = Creation | Transfer | RegisterAddress | DeferredTransfer | GlobalGroupAdd

  datatype TxState = Sended | Confirmed | Rejected

  datatype PendingTransaction = PendingTransaction(
    iotaMessageId: MessageId, transactionType: TransactionType, createdMicros: nat,
    state: TxState, errorMessage: string,
    apolloCreatedDecay: string, apolloDecayStart: int, apolloTransactionId: nat)

  datatype JsonEntry = JsonEntry(
    messageId: string, transactionType: TransactionType, created: nat, state: string, errorMessage: string)

  type Log = seq<PendingTransaction>

  function Key(id: MessageId): string {
    id[..ID_BYTES]
  }

  /** A freshly sent transaction. */
  function NewPending(id: MessageId, transactionType: TransactionType, createdMicros: nat,
                      apolloCreatedDecay: string, apolloDecayStart: int, apolloTransactionId: nat): PendingTransaction
  {
    PendingTransaction(id, transactionType, createdMicros, Sended, "",
                       apolloCreatedDecay, apolloDecayStart, apolloTransactionId)
  }

  function StateToString(state: TxState): string {
    match state
    case Sended => "sended"
    case Confirmed => "confirmed"
    case Rejected => "rejected"
  }

  function ToJson(e: PendingTransaction): JsonEntry {
    JsonEntry(CStr(e.iotaMessageId), e.transactionType, e.createdMicros / 1000,
              StateToString(e.state), CStr(e.errorMessage))
  }

  /** What the entry shows: texts end at their first NUL, and the time is in whole milliseconds. */
  predicate Shows(shown: JsonEntry, e: PendingTransaction) {
    && shown.messageId == CStr(e.iotaMessageId) && shown.errorMessage == CStr(e.errorMessage)
    && shown.transactionType == e.transactionType
    && 1000 * shown.created <= e.createdMicros < 1000 * shown.created + 1000
    && (shown.state == "sended" <==> e.state == Sended)
    && (shown.state == "confirmed" <==> e.state == Confirmed)
    && (shown.state == "rejected" <==> e.state == Rejected)
  }

  lemma ToJsonShows(e: PendingTransaction)
    ensures Shows(ToJson(e), e)
  {
    assert |"sended"| == 6 && |"confirmed"| == 9 && |"rejected"| == 8;
  }

  // ---- the update rule ----------------------------------------------------

  predicate Matches(e: PendingTransaction, id: MessageId) {
    Key(e.iotaMessageId) == Key(id)
  }

  /** Position of the newest entry with this id, or -1. */
  function Newest(log: Log, id: MessageId): (r: int)
    ensures -1 <= r < |log|
    ensures r >= 0 ==> Matches(log[r], id)
    ensures forall j :: r < j < |log| ==> !Matches(log[j], id)
  {
    if log == [] then -1
    else if Matches(log[|log| - 1], id) then |log| - 1
    else Newest(log[..|log| - 1], id)
  }

  function Resolved(e: PendingTransaction, confirmed: bool, errorMessage: string): PendingTransaction {
    if e.state.Confirmed? then e
    else e.(state := if confirmed then Confirmed else Rejected, errorMessage := errorMessage)
  }

  /** Every entry stays what it was, except the newest one with this id. */
  function Updated(log: Log, id: MessageId, confirmed: bool, errorMessage: string): (r: Log)
    ensures |r| == |log|
  {
    var i := Newest(log, id);
    if i < 0 then log else log[i := Resolved(log[i], confirmed, errorMessage)]
  }

  class PendingTransactions {
    var entries: Log

    /** All entries ever pushed, kept by the same update rule and never cut. */
    ghost var log: Log

    ghost predicate Valid()
      reads this
    {
      entries == Suffix(log, MAX_PENDING_TRANSACTIONS_IN_LIST)
    }

    constructor ()
      ensures Valid() && entries == [] && log == []
    {
      entries, log := [], [];
    }

    method PushNewTransaction(pending: PendingTransaction)
      requires Valid()
      modifies this
      ensures Valid()
      ensures log == old(log) + [pending]
      ensures entries == Suffix(old(entries) + [pending], MAX_PENDING_TRANSACTIONS_IN_LIST)
      ensures |entries| <= MAX_PENDING_TRANSACTIONS_IN_LIST && entries[|entries| - 1] == pending
    {
      entries := entries + [pending];
      ghost var all := entries;
      while |entries| > MAX_PENDING_TRANSACTIONS_IN_LIST
        invariant |entries| <= |all| && entries == all[|all| - |entries|..]
        invariant |entries| >= MAX_PENDING_TRANSACTIONS_IN_LIST || entries == all
        invariant log == old(log)
        decreases |entries|
      {
        entries := entries[1..];
      }
      assert entries == Suffix(all, MAX_PENDING_TRANSACTIONS_IN_LIST);
      SuffixPush(log, pending, MAX_PENDING_TRANSACTIONS_IN_LIST);
      log := log + [pending];
    }

    method UpdateTransaction(iotaMessageId: MessageId, confirmed: bool, errorMessage: string)
      requires Valid()
      modifies this
      ensures Valid()
      ensures log == Updated(old(log), iotaMessageId, confirmed, errorMessage)
      ensures entries == Updated(old(entries), iotaMessageId, confirmed, errorMessage)
    {
      SuffixUpdate(log, iotaMessageId, confirmed, errorMessage, MAX_PENDING_TRANSACTIONS_IN_LIST);
      log := Updated(log, iotaMessageId, confirmed, errorMessage);
      var it := |entries|;
      while it > 0
        invariant 0 <= it <= |entries| && entries == old(entries)
        invariant log == Updated(old(log), iotaMessageId, confirmed, errorMessage)
        invariant forall j :: it <= j < |entries| ==> !Matches(entries[j], iotaMessageId)
      {
        it := it - 1;
        if Matches(entries[it], iotaMessageId) {
          assert it == Newest(entries, iotaMessageId);
          if entries[it].state == Confirmed {
            return;
          }
          entries := entries[it := entries[it].(state := if confirmed then Confirmed else Rejected)];
          entries := entries[it := entries[it].(errorMessage := errorMessage)];
          return;
        }
      }
    }

    method ListAsJson() returns (list: seq<JsonEntry>)
      ensures |list| == |entries|
      ensures forall i :: 0 <= i < |list| ==> Shows(list[i], entries[|entries| - 1 - i])
      ensures forall i :: 0 <= i < |list| ==> list[i] == ToJson(entries[|entries| - 1 - i])
    {
      list := [];
      var it := |entries|;
      while it > 0
        invariant 0 <= it <= |entries| && |list| == |entries| - it
        invariant forall i :: 0 <= i < |list| ==> list[i] == ToJson(entries[|entries| - 1 - i])
        invariant forall i :: 0 <= i < |list| ==> Shows(list[i], entries[|entries| - 1 - i])
      {
        it := it - 1;
        ToJsonShows(entries[it]);
        list := list + [ToJson(entries[it])];
      }
    }
  }

  // ---- the bounded list simulates the unbounded log ------------------------

  lemma SuffixPush(log: Log, e: PendingTransaction, n: nat)
    requires n > 0
    ensures Suffix(Suffix(log, n) + [e], n) == Suffix(log + [e], n)
  {
  }

  lemma {:induction false} NewestCut(log: Log, id: MessageId, d: nat)
    requires d <= |log|
    ensures Newest(log[d..], id) == if Newest(log, id) >= d then Newest(log, id) - d else -1
  {
    if d < |log| && !Matches(log[|log| - 1], id) {
      assert log[d..][..|log| - d - 1] == log[..|log| - 1][d..];
      NewestCut(log[..|log| - 1], id, d);
    }
  }

  lemma CutUpdate<T>(s: seq<T>, i: nat, x: T, d: nat)
    requires i < |s| && d <= |s|
    ensures s[i := x][d..] == if i >= d then s[d..][i - d := x] else s[d..]
  {
  }

  lemma UpdateCut(log: Log, id: MessageId, confirmed: bool, errorMessage: string, d: nat)
    requires d <= |log|
    ensures Updated(log[d..], id, confirmed, errorMessage) == Updated(log, id, confirmed, errorMessage)[d..]
  {
    NewestCut(log, id, d);
    var i := Newest(log, id);
    if i >= 0 { CutUpdate(log, i, Resolved(log[i], confirmed, errorMessage), d); }
  }

  /** Cutting the front never changes what an update does to what is left. */
  lemma SuffixUpdate(log: Log, id: MessageId, confirmed: bool, errorMessage: string, n: nat)
    ensures Updated(Suffix(log, n), id, confirmed, errorMessage) == Suffix(Updated(log, id, confirmed, errorMessage), n)
  {
    if |log| > n { UpdateCut(log, id, confirmed, errorMessage, |log| - n); }
  }

  /** `Updated` said entry by entry, without the search. */
  lemma UpdatedPointwise(log: Log, id: MessageId, confirmed: bool, errorMessage: string, i: nat)
    requires i < |log|
    ensures Updated(log, id, confirmed, errorMessage)[i]
            == if Matches(log[i], id) && IsNewest(log, i) then Resolved(log[i], confirmed, errorMessage) else log[i]
  {
    var k := Newest(log, id);
    assert Matches(log[i], id) && k >= 0 ==> Matches(log[k], log[i].iotaMessageId);
  }

  /** No later entry has the same id. */
  predicate IsNewest(log: Log, i: nat)
    requires i < |log|
  {
    forall j :: i < j < |log| ==> !Matches(log[j], log[i].iotaMessageId)
  }

  datatype Op = Push(e: PendingTransaction) | Update(id: MessageId, confirmed: bool, errorMessage: string)

  function Unbounded(ops: seq<Op>): Log {
    if ops == [] then []
    else
      var log := Unbounded(ops[..|ops| - 1]);
      match ops[|ops| - 1]
      case Push(e) => log + [e]
      case Update(id, confirmed, errorMessage) => Updated(log, id, confirmed, errorMessage)
  }

  function Bounded(ops: seq<Op>): Log {
    if ops == [] then []
    else
      var log := Bounded(ops[..|ops| - 1]);
      match ops[|ops| - 1]
      case Push(e) => Suffix(log + [e], MAX_PENDING_TRANSACTIONS_IN_LIST)
      case Update(id, confirmed, errorMessage) => Updated(log, id, confirmed, errorMessage)
  }

  /**
   After any interleaving of pushes and updates the list is the end of the
   unbounded log, with duplicate ids and with updates to entries already cut off.
   */
  lemma {:induction false} BoundedIsSuffix(ops: seq<Op>)
    ensures Bounded(ops) == Suffix(Unbounded(ops), MAX_PENDING_TRANSACTIONS_IN_LIST)
  {
    if ops != [] {
      var before := ops[..|ops| - 1];
      BoundedIsSuffix(before);
      match ops[|ops| - 1] {
        case Push(e) => SuffixPush(Unbounded(before), e, MAX_PENDING_TRANSACTIONS_IN_LIST);
        case Update(id, confirmed, errorMessage) =>
          SuffixUpdate(Unbounded(before), id, confirmed, errorMessage, MAX_PENDING_TRANSACTIONS_IN_LIST);
      }
    }
  }
}
