/**
 Senders and the Gradido Node drive the pending list together: a sender pushes, the
 node calls /notify. A history is any interleaving of the two.
 */
module Listener {
  import opened Common
  import opened PendingLog

  /** What decoding and parsing the transaction of a request gives. */
  datatype Payload = Undecodable | Unparsable | Block(messageIdHex: MessageId)

  /** The parameters of a request; one that is not given is empty. */
  datatype Parameters = Parameters(transactionBase64: string, payload: Payload, error: string, messageId: string)

  /** The message id is read only together with an error. */
  predicate ReadsMessageId(p: Parameters) {
    p.transactionBase64 != "" && !p.payload.Undecodable? && p.error != ""
  }

  /** A request whose message id, where it is read, has the bytes the search compares. */
  type NotifyRequest = p: Parameters | ReadsMessageId(p) ==> |p.messageId| >= ID_BYTES
    witness Parameters("", Undecodable, "", "")

  datatype Verdict = Ignored | Confirms(id: MessageId) | Rejects(id: MessageId, error: string)

  function VerdictOf(q: NotifyRequest): Verdict {
    if q.transactionBase64 == "" || q.payload.Undecodable? then Ignored
    else if q.error != "" then Rejects(q.messageId, q.error)
    else if q.payload.Unparsable? then Ignored
    else Confirms(q.payload.messageIdHex)
  }

  function Told(log: Log, v: Verdict): (r: Log)
    ensures |r| == |log|
  {
    match v
    case Ignored => log
    case Confirms(id) => Updated(log, id, true, "")
    case Rejects(id, error) => Updated(log, id, false, error)
  }

  /**
   Every entry is what it was, but for the last one whose id has the same first 64
   bytes: unless it is confirmed already it gets this state and message.
   */
  ghost predicate NewestBecomes(was: Log, now: Log, id: string, state: TxState, errorMessage: string)
    requires |id| >= 64
  {
    && |now| == |was|
    && forall i :: 0 <= i < |was| ==>
         now[i] == if was[i].iotaMessageId[..64] == id[..64] && was[i].state != Confirmed
                      && (forall j :: i < j < |was| ==> was[j].iotaMessageId[..64] != id[..64])
                   then was[i].(state := state, errorMessage := errorMessage) else was[i]
  }

  lemma UpdatedIsNewestBecomes(log: Log, id: MessageId, confirmed: bool, errorMessage: string)
    ensures NewestBecomes(log, Updated(log, id, confirmed, errorMessage), id,
                          if confirmed then Confirmed else Rejected, errorMessage)
  {
    forall i | 0 <= i < |log|
      ensures Matches(log[i], id) && IsNewest(log, i) <==>
                && log[i].iotaMessageId[..64] == id[..64]
                && forall j :: i < j < |log| ==> log[j].iotaMessageId[..64] != id[..64]
    {
      if Matches(log[i], id) && IsNewest(log, i) {
        forall j | i < j < |log| ensures log[j].iotaMessageId[..64] != id[..64] {
          assert !Matches(log[j], log[i].iotaMessageId);
        }
      }
    }
    forall i | 0 <= i < |log| { UpdatedPointwise(log, id, confirmed, errorMessage, i); }
  }

  datatype Reply = Success | Thrown

  class JsonTransactionListener {
    constructor () {}

    /**
     /notify. An error rejects the entry it names with its text, a block confirms its own
     entry, and every other request leaves the list alone. A payload that cannot be decoded,
     or a block that cannot be parsed, throws.
     */
    method Handle(q: NotifyRequest, pt: PendingTransactions) returns (reply: Reply)
      requires pt.Valid()
      modifies pt
      ensures pt.Valid()
      ensures q.transactionBase64 != "" && q.payload != Undecodable && q.error != "" ==>
                && NewestBecomes(old(pt.entries), pt.entries, q.messageId, Rejected, q.error)
                && NewestBecomes(old(pt.log), pt.log, q.messageId, Rejected, q.error)
      ensures q.transactionBase64 != "" && q.payload.Block? && q.error == "" ==>
                && NewestBecomes(old(pt.entries), pt.entries, q.payload.messageIdHex, Confirmed, "")
                && NewestBecomes(old(pt.log), pt.log, q.payload.messageIdHex, Confirmed, "")
      ensures q.transactionBase64 == "" || q.payload == Undecodable || (q.payload == Unparsable && q.error == "") ==>
                pt.entries == old(pt.entries) && pt.log == old(pt.log)
      ensures pt.entries == Told(old(pt.entries), VerdictOf(q)) && pt.log == Told(old(pt.log), VerdictOf(q))
      ensures reply == Thrown <==>
                q.transactionBase64 != "" && (q.payload.Undecodable? || (q.error == "" && q.payload.Unparsable?))
    {
      if |q.transactionBase64| > 0 {
        if q.payload.Undecodable? {
          return Thrown;
        }
        if |q.error| > 0 {
          UpdatedIsNewestBecomes(pt.entries, q.messageId, false, q.error);
          UpdatedIsNewestBecomes(pt.log, q.messageId, false, q.error);
          pt.UpdateTransaction(q.messageId, false, q.error);
        } else {
          if q.payload.Unparsable? {
            return Thrown;
          }
          UpdatedIsNewestBecomes(pt.entries, q.payload.messageIdHex, true, "");
          UpdatedIsNewestBecomes(pt.log, q.payload.messageIdHex, true, "");
          pt.UpdateTransaction(q.payload.messageIdHex, true, "");
        }
      }
      reply := Success;
    }
  }

  datatype Event =
    | Sent(id: MessageId, transactionType: TransactionType, createdMicros: nat,
           apolloCreatedDecay: string, apolloDecayStart: int, apolloTransactionId: nat)
    | Notified(q: NotifyRequest)

  function React(log: Log, ev: Event): Log {
    match ev
    case Sent(id, tt, created, decay, start, txId) => log + [NewPending(id, tt, created, decay, start, txId)]
    case Notified(q) => Told(log, VerdictOf(q))
  }

  /** All entries ever pushed, as they stand after the history. */
  function Replay(es: seq<Event>): Log {
    if es == [] then [] else React(Replay(es[..|es| - 1]), es[|es| - 1])
  }

  /** What the bounded list shows after the history. */
  function Shown(es: seq<Event>): Log {
    Suffix(Replay(es), MAX_PENDING_TRANSACTIONS_IN_LIST)
  }

  /** The position in the history at which each entry was pushed. */
  function PushedAt(es: seq<Event>): (r: seq<nat>)
    ensures |r| == |Replay(es)|
    ensures forall i :: 0 <= i < |r| ==> r[i] < |es| && es[r[i]].Sent? && es[r[i]].id == Replay(es)[i].iotaMessageId
  {
    if es == [] then []
    else
      var before := es[..|es| - 1];
      if es[|es| - 1].Sent? then PushedAt(before) + [|before|] else PushedAt(before)
  }

  function TargetOf(v: Verdict): Option<MessageId> {
    match v case Ignored => None case Confirms(id) => Some(id) case Rejects(id, _) => Some(id)
  }

  /**
   Event `k` speaks about entry `i`: it came after the push, names its id, and no
   later push had taken the id over.
   */
  predicate Hits(es: seq<Event>, i: nat, k: nat)
    requires i < |PushedAt(es)|
  {
    var p := PushedAt(es)[i];
    && p < k < |es|
    && es[k].Notified?
    && TargetOf(VerdictOf(es[k].q)).Some?
    && Key(TargetOf(VerdictOf(es[k].q)).value) == Key(es[p].id)
    && forall j :: p < j < k && es[j].Sent? ==> Key(es[j].id) != Key(es[p].id)
  }

  predicate ConfirmHits(es: seq<Event>, i: nat, k: nat)
    requires i < |PushedAt(es)|
  {
    Hits(es, i, k) && VerdictOf(es[k].q).Confirms?
  }

  predicate RejectsWith(v: Verdict, error: string) {
    v.Rejects? && v.error == error
  }

  /** Everything the history says about entry `i`, in terms of the events alone. */
  ghost predicate Accounted(es: seq<Event>, i: nat)
    requires i < |PushedAt(es)|
  {
    var e := Replay(es)[i];
    && (e.state.Confirmed? <==> exists k: nat :: ConfirmHits(es, i, k))
    && (e.state.Sended? <==> forall k: nat :: !Hits(es, i, k))
    && (e.state.Rejected? ==>
          exists k: nat :: Hits(es, i, k) && RejectsWith(VerdictOf(es[k].q), e.errorMessage)
                      && forall l: nat :: l > k ==> !Hits(es, i, l))
    && (e.errorMessage != "" <==> e.state.Rejected?)
  }

  /** A hit and a push position concern only the events up to the hit. */
  lemma HitsPrefix(es: seq<Event>, n: nat, i: nat, k: nat)
    requires n + 1 == |es| && i < |PushedAt(es[..n])|
    ensures i < |PushedAt(es)| && PushedAt(es)[i] == PushedAt(es[..n])[i]
    ensures k < n ==> (Hits(es, i, k) <==> Hits(es[..n], i, k))
    ensures k >= n ==> !Hits(es[..n], i, k)
  {
    var before := es[..n];
    assert PushedAt(es)[i] == PushedAt(before)[i];
    var p := PushedAt(before)[i];
    assert es[p] == before[p];
    if k < n {
      assert es[k] == before[k];
      assert forall j :: p < j < k ==> es[j] == before[j];
    }
  }

  /** An entry is the newest of its id exactly when no later push carries the id. */
  lemma {:induction false} NewestMeansNoLaterPush(es: seq<Event>, i: nat)
    requires i < |Replay(es)|
    ensures var p := PushedAt(es)[i];
            IsNewest(Replay(es), i) <==> forall j :: p < j < |es| && es[j].Sent? ==> Key(es[j].id) != Key(es[p].id)
  {
    PushOrder(es);
    var at := PushedAt(es);
    var p := at[i];
    if IsNewest(Replay(es), i) {
      forall j | p < j < |es| && es[j].Sent? ensures Key(es[j].id) != Key(es[p].id) {
        var l := IndexOfPush(es, j);
        assert !Matches(Replay(es)[l], Replay(es)[i].iotaMessageId);
      }
    } else {
      var l :| i < l < |Replay(es)| && Matches(Replay(es)[l], Replay(es)[i].iotaMessageId);
      assert p < at[l] < |es| && es[at[l]].Sent?;
    }
  }

  lemma {:induction false} PushOrder(es: seq<Event>)
    ensures forall i, j :: 0 <= i < j < |PushedAt(es)| ==> PushedAt(es)[i] < PushedAt(es)[j]
  {
    if es != [] { PushOrder(es[..|es| - 1]); }
  }

  lemma {:induction false} IndexOfPush(es: seq<Event>, j: nat) returns (l: nat)
    requires j < |es| && es[j].Sent?
    ensures l < |PushedAt(es)| && PushedAt(es)[l] == j
  {
    if j == |es| - 1 {
      l := |PushedAt(es)| - 1;
    } else {
      l := IndexOfPush(es[..|es| - 1], j);
    }
  }

  /** A notification changes exactly the entry it hits. */
  lemma HitIsUpdate(es: seq<Event>, n: nat, i: nat)
    requires n + 1 == |es| && es[n].Notified? && i < |Replay(es)|
    ensures var v := VerdictOf(es[n].q);
            var e := Replay(es[..n])[i];
            Replay(es)[i] == if Hits(es, i, n)
                             then Resolved(e, v.Confirms?, if v.Rejects? then v.error else "") else e
  {
    var before, v := es[..n], VerdictOf(es[n].q);
    var e := Replay(before)[i];
    HitsPrefix(es, n, i, n);
    NewestMeansNoLaterPush(before, i);
    var p := PushedAt(before)[i];
    assert es[p] == before[p] && e.iotaMessageId == es[p].id;
    assert forall j :: p < j < n ==> es[j] == before[j];
    if TargetOf(v).Some? {
      UpdatedPointwise(Replay(before), TargetOf(v).value, v.Confirms?, if v.Rejects? then v.error else "", i);
      assert Hits(es, i, n) <==> Matches(e, TargetOf(v).value) && IsNewest(Replay(before), i);
    }
  }

  /** The step of `HistoryAccounts` for an entry the last event does not hit. */
  lemma NotHitStep(es: seq<Event>, n: nat, i: nat)
    requires n + 1 == |es| && i < |Replay(es[..n])| && Accounted(es[..n], i)
    requires i < |Replay(es)| && !Hits(es, i, n) && Replay(es)[i] == Replay(es[..n])[i]
    ensures Accounted(es, i)
  {
    var before := es[..n];
    forall k: nat ensures Hits(es, i, k) <==> Hits(before, i, k) { HitsPrefix(es, n, i, k); }
    forall k: nat | Hits(es, i, k) ensures es[k] == before[k] { HitsPrefix(es, n, i, k); }
    assert forall k: nat :: ConfirmHits(es, i, k) <==> ConfirmHits(before, i, k);
    var e := Replay(es)[i];
    if e.state.Rejected? {
      var k: nat :| Hits(before, i, k) && RejectsWith(VerdictOf(before[k].q), e.errorMessage)
                    && forall l: nat :: l > k ==> !Hits(before, i, l);
      assert Hits(es, i, k) && es[k] == before[k];
    }
  }

  /** A confirmation that hit the entry earlier still does. */
  lemma ConfirmHitStays(es: seq<Event>, n: nat, i: nat)
    requires n + 1 == |es| && i < |PushedAt(es[..n])|
    ensures i < |PushedAt(es)|
    ensures (exists k: nat :: ConfirmHits(es, i, k)) <==>
              (exists k: nat :: ConfirmHits(es[..n], i, k)) || ConfirmHits(es, i, n)
  {
    HitsPrefix(es, n, i, n);
    forall k: nat ensures k < n ==> (ConfirmHits(es, i, k) <==> ConfirmHits(es[..n], i, k)) {
      HitsPrefix(es, n, i, k);
      if k < n { assert es[k] == es[..n][k]; }
    }
    if k: nat :| ConfirmHits(es[..n], i, k) {
      HitsPrefix(es, n, i, k);
      assert ConfirmHits(es, i, k);
    }
  }

  /** The step of `HistoryAccounts` for the entry the last event hits. */
  lemma HitStep(es: seq<Event>, n: nat, i: nat)
    requires n + 1 == |es| && es[n].Notified? && i < |Replay(es[..n])| && Accounted(es[..n], i)
    requires i < |Replay(es)| && Hits(es, i, n)
    ensures Accounted(es, i)
  {
    var v := VerdictOf(es[n].q);
    HitIsUpdate(es, n, i);
    ConfirmHitStays(es, n, i);
    var was, now := Replay(es[..n])[i], Replay(es)[i];
    assert now == Resolved(was, v.Confirms?, if v.Rejects? then v.error else "");
    if now.state.Rejected? {
      assert RejectsWith(v, now.errorMessage);
      assert forall l: nat :: l > n ==> !Hits(es, i, l);
    }
  }

  /**
   Every entry is accounted for by its history: CONFIRMED exactly when a
   confirmation hit it, SENDED exactly when nothing did, and otherwise REJECTED
   with the message of the last hit; only a rejected entry has a message.
   */
  lemma {:induction false} HistoryAccounts(es: seq<Event>, i: nat)
    requires i < |Replay(es)|
    ensures Accounted(es, i)
  {
    var n := |es| - 1;
    var before := es[..n];
    if i == |Replay(before)| {
      assert PushedAt(es)[i] == n;
    } else {
      HistoryAccounts(before, i);
      if es[n].Notified? {
        HitIsUpdate(es, n, i);
        if Hits(es, i, n) { HitStep(es, n, i); } else { NotHitStep(es, n, i); }
      } else {
        NotHitStep(es, n, i);
      }
    }
  }

  /** The same for what the bounded list shows: its entry `i` is the log's entry `|log| - |list| + i`. */
  lemma ShownIsAccounted(es: seq<Event>, i: nat, l: nat)
    requires i < |Shown(es)| && l == |Replay(es)| - |Shown(es)| + i
    ensures |Shown(es)| <= MAX_PENDING_TRANSACTIONS_IN_LIST
    ensures Shown(es)[i] == Replay(es)[l] && Accounted(es, l)
  {
    SuffixAt(Replay(es), MAX_PENDING_TRANSACTIONS_IN_LIST, i);
    HistoryAccounts(es, l);
  }

  /** CONFIRMED is never left, whatever follows. */
  lemma {:induction false} ConfirmedIsFinal(es: seq<Event>, more: seq<Event>, i: nat)
    requires i < |Replay(es)| && Replay(es)[i].state.Confirmed?
    ensures i < |Replay(es + more)| && Replay(es + more)[i] == Replay(es)[i]
  {
    if more == [] {
      assert es + more == es;
    } else {
      var n := |es + more| - 1;
      var fewer := more[..|more| - 1];
      assert (es + more)[..n] == es + fewer;
      ConfirmedIsFinal(es, fewer, i);
      if (es + more)[n].Notified? { HitIsUpdate(es + more, n, i); }
    }
  }

  /** A rejected entry is not final: a confirmation that hits it later confirms it. */
  lemma RejectedCanBeConfirmed(es: seq<Event>, q: NotifyRequest, i: nat)
    requires i < |Replay(es)| && Replay(es)[i].state.Rejected? && IsNewest(Replay(es), i)
    requires VerdictOf(q).Confirms? && Matches(Replay(es)[i], VerdictOf(q).id)
    ensures Replay(es + [Notified(q)])[i].state.Confirmed? && Replay(es + [Notified(q)])[i].errorMessage == ""
  {
    assert (es + [Notified(q)])[..|es|] == es;
    UpdatedPointwise(Replay(es), VerdictOf(q).id, true, "", i);
  }

  /** Nothing in `more` speaks about `id`. */
  predicate Silent(more: seq<Event>, id: MessageId) {
    forall k :: 0 <= k < |more| && more[k].Notified? && TargetOf(VerdictOf(more[k].q)).Some?
      ==> Key(TargetOf(VerdictOf(more[k].q)).value) != Key(id)
  }

  /** A notification that arrives before the push of its entry is lost: the entry starts, and stays, SENDED. */
  lemma EarlyNotificationIsLost(es: seq<Event>, sent: Event, more: seq<Event>)
    requires sent.Sent? && Silent(more, sent.id)
    ensures var i, all := |Replay(es)|, es + [sent] + more;
            i < |Replay(all)| && Replay(all)[i].iotaMessageId == sent.id && Replay(all)[i].state.Sended?
  {
    var i, all := |Replay(es)|, es + [sent] + more;
    PushedThere(es, sent, more);
    forall k: nat ensures !Hits(all, i, k) { NotHit(es, sent, more, k); }
    HistoryAccounts(all, i);
  }

  lemma PushedThere(es: seq<Event>, sent: Event, more: seq<Event>)
    requires sent.Sent?
    ensures var i, all := |Replay(es)|, es + [sent] + more;
            i < |PushedAt(all)| && PushedAt(all)[i] == |es| && all[|es|] == sent
  {
    var all := es + [sent] + more;
    assert all[..|es| + 1][..|es|] == es && all[|es|] == sent;
    PushStays(all, |es| + 1, |Replay(es)|);
  }

  lemma NotHit(es: seq<Event>, sent: Event, more: seq<Event>, k: nat)
    requires sent.Sent? && Silent(more, sent.id)
    requires |Replay(es)| < |PushedAt(es + [sent] + more)| && PushedAt(es + [sent] + more)[|Replay(es)|] == |es|
    ensures !Hits(es + [sent] + more, |Replay(es)|, k)
  {
    var all := es + [sent] + more;
    if |es| < k < |all| { assert all[k] == more[k - |es| - 1]; }
  }

  /** An entry keeps its position and its push event as the history grows. */
  lemma {:induction false} PushStays(es: seq<Event>, n: nat, i: nat)
    requires n <= |es| && i < |PushedAt(es[..n])|
    ensures i < |PushedAt(es)| && PushedAt(es)[i] == PushedAt(es[..n])[i]
    decreases |es|
  {
    if n < |es| {
      var before := es[..|es| - 1];
      assert before[..n] == es[..n];
      PushStays(before, n, i);
    } else {
      assert es[..n] == es;
    }
  }
}
