/**
 Any number of requests send and record at the same time. A request may stop before
 each of its sends; between a send and its record other requests run.
 */
module SendRuns {
  import opened Common
  import opened PendingLog
  import opened Transactions

  type Rid = nat

  /** The `k`-th message of request `rid`, and the pending entry made for it. */
  datatype Message = Message(rid: Rid, k: nat, tx: Tx, group: string, id: MessageId)
  datatype Entry = Entry(rid: Rid, k: nat, id: MessageId)

  /** `at` and `rec` are the positions of the request's messages and entries. */
  datatype Request = Request(job: Job, at: seq<nat>, rec: seq<nat>, stopped: bool)

  datatype State = State(requests: seq<Request>, sent: seq<Message>, recorded: seq<Entry>)

  datatype Step =
    | Accept(job: Job)
    | Send(rid: Rid, id: MessageId)   // signed, validated and delivered under this id
    | Record(rid: Rid)                // push the pending entry
    | Stop(rid: Rid)                  // anything before the delivery fails

  const INIT := State([], [], [])

  /** What the handlers build: a fresh transaction, and for a pair two different groups. */
  predicate Proper(job: Job) {
    job.base.direction.Local? && (job.Pair? ==> job.home != job.to)
  }

  predicate InFlight(r: Request) {
    |r.at| == |r.rec| + 1
  }

  predicate CanSend(r: Request) {
    !r.stopped && |r.at| == |r.rec| && |r.at| < Parts(r.job)
  }

  predicate Ready(s: State, rid: Rid) {
    rid < |s.requests| && CanSend(s.requests[rid]) && AtInRange(s, s.requests[rid])
  }

  predicate Enabled(s: State, step: Step) {
    match step
    case Accept(job) => Proper(job)
    case Send(rid, _) => Ready(s, rid)
    case Record(rid) => rid < |s.requests| && InFlight(s.requests[rid]) && AtInRange(s, s.requests[rid])
    case Stop(rid) => rid < |s.requests| && CanSend(s.requests[rid])
  }

  predicate AtInRange(s: State, r: Request) {
    forall i :: 0 <= i < |r.at| ==> r.at[i] < |s.sent|
  }

  /** The id the request's first message got, once it has one. */
  function FirstId(s: State, r: Request): string
    requires AtInRange(s, r)
  {
    if |r.at| > 0 then s.sent[r.at[0]].id else ""
  }

  function Apply(s: State, step: Step): State
    requires Enabled(s, step)
  {
    match step
    case Accept(job) => s.(requests := s.requests + [Request(job, [], [], false)])
    case Send(rid, id) =>
      var r := s.requests[rid];
      var k := |r.at|;
      State(s.requests[rid := r.(at := r.at + [|s.sent|])],
            s.sent + [Message(rid, k, Part(r.job, k, FirstId(s, r)), PartGroup(r.job, k), id)],
            s.recorded)
    case Record(rid) =>
      var r := s.requests[rid];
      var k := |r.rec|;
      s.(requests := s.requests[rid := r.(rec := r.rec + [|s.recorded|])],
         recorded := s.recorded + [Entry(rid, k, s.sent[r.at[k]].id)])
    case Stop(rid) => s.(requests := s.requests[rid := s.requests[rid].(stopped := true)])
  }

  function After(steps: seq<Step>): Option<State> {
    if steps == [] then Some(INIT)
    else
      var before := After(steps[..|steps| - 1]);
      if before.Some? && Enabled(before.value, steps[|steps| - 1])
      then Some(Apply(before.value, steps[|steps| - 1])) else None
  }

  // ---- the invariant -------------------------------------------------------

  /** The request's messages and entries are where it says, in order, and as its job prescribes. */
  predicate RequestInv(s: State, rid: Rid)
    requires rid < |s.requests|
  {
    var r := s.requests[rid];
    && Proper(r.job)
    && |r.rec| <= |r.at| <= |r.rec| + 1 && |r.at| <= Parts(r.job)
    && AtInRange(s, r)
    && (forall i, j :: 0 <= i < j < |r.at| ==> r.at[i] < r.at[j])
    && (forall i, j :: 0 <= i < j < |r.rec| ==> r.rec[i] < r.rec[j])
    && (forall i :: 0 <= i < |r.at| ==>
          s.sent[r.at[i]] == Message(rid, i, Part(r.job, i, FirstId(s, r)), PartGroup(r.job, i), s.sent[r.at[i]].id))
    && (forall i :: 0 <= i < |r.rec| ==>
          r.rec[i] < |s.recorded| && s.recorded[r.rec[i]] == Entry(rid, i, s.sent[r.at[i]].id))
  }

  /** Every message and every entry belongs to the request it names. */
  predicate OwnedInv(s: State) {
    && (forall p :: 0 <= p < |s.sent| ==>
          var m := s.sent[p];
          m.rid < |s.requests| && m.k < |s.requests[m.rid].at| && s.requests[m.rid].at[m.k] == p)
    && (forall p :: 0 <= p < |s.recorded| ==>
          var e := s.recorded[p];
          e.rid < |s.requests| && e.k < |s.requests[e.rid].rec| && s.requests[e.rid].rec[e.k] == p)
  }

  predicate Inv(s: State) {
    (forall rid :: 0 <= rid < |s.requests| ==> RequestInv(s, rid)) && OwnedInv(s)
  }

  /** Requests that do not move are not disturbed by messages and entries added behind. */
  lemma RequestInvStays(s: State, s': State, rid: Rid)
    requires rid < |s.requests| && rid < |s'.requests| && s'.requests[rid] == s.requests[rid]
    requires s.sent <= s'.sent && s.recorded <= s'.recorded && RequestInv(s, rid)
    ensures RequestInv(s', rid)
  {
    var r := s.requests[rid];
    assert forall i :: 0 <= i < |r.at| ==> s'.sent[r.at[i]] == s.sent[r.at[i]];
    assert forall i :: 0 <= i < |r.rec| ==> s'.recorded[r.rec[i]] == s.recorded[r.rec[i]];
  }

  lemma SendKeepsOwn(s: State, rid: Rid, id: MessageId)
    requires Inv(s) && Enabled(s, Send(rid, id))
    ensures RequestInv(Apply(s, Send(rid, id)), rid)
  {
    var s' := Apply(s, Send(rid, id));
    var r, r' := s.requests[rid], s'.requests[rid];
    assert RequestInv(s, rid);
    assert forall i :: 0 <= i < |r.at| ==> r'.at[i] == r.at[i] && s'.sent[r.at[i]] == s.sent[r.at[i]];
    forall i | 0 <= i < |r'.at|
      ensures s'.sent[r'.at[i]] == Message(rid, i, Part(r'.job, i, FirstId(s', r')), PartGroup(r'.job, i),
                                           s'.sent[r'.at[i]].id)
    {
      if i < |r.at| { assert s'.sent[r'.at[i]] == s.sent[r.at[i]]; }
    }
  }

  lemma RecordKeepsOwn(s: State, rid: Rid)
    requires Inv(s) && Enabled(s, Record(rid))
    ensures RequestInv(Apply(s, Record(rid)), rid)
  {
    var s' := Apply(s, Record(rid));
    var r, r' := s.requests[rid], s'.requests[rid];
    assert RequestInv(s, rid);
    forall i | 0 <= i < |r'.rec|
      ensures r'.rec[i] < |s'.recorded| && s'.recorded[r'.rec[i]] == Entry(rid, i, s'.sent[r'.at[i]].id)
    {
      if i < |r.rec| { assert s'.recorded[r'.rec[i]] == s.recorded[r.rec[i]]; }
    }
  }

  lemma InvStep(s: State, step: Step)
    requires Inv(s) && Enabled(s, step)
    ensures Inv(Apply(s, step))
  {
    var s' := Apply(s, step);
    forall rid | 0 <= rid < |s'.requests| ensures RequestInv(s', rid) {
      match step
      case Accept(_) => if rid < |s.requests| { RequestInvStays(s, s', rid); }
      case Send(mover, id) => if rid == mover { SendKeepsOwn(s, mover, id); } else { RequestInvStays(s, s', rid); }
      case Record(mover) => if rid == mover { RecordKeepsOwn(s, mover); } else { RequestInvStays(s, s', rid); }
      case Stop(mover) => if rid != mover { RequestInvStays(s, s', rid); } else { assert RequestInv(s, rid); }
    }
  }

  lemma {:induction false} InvAfter(steps: seq<Step>)
    requires After(steps).Some?
    ensures Inv(After(steps).value)
  {
    if steps != [] {
      InvAfter(steps[..|steps| - 1]);
      InvStep(After(steps[..|steps| - 1]).value, steps[|steps| - 1]);
    }
  }

  // ---- the pairs -----------------------------------------------------------

  /** `p` is the outbound message that the inbound message `q` completes. */
  predicate Completes(sent: seq<Message>, p: nat, q: nat) {
    && p < q < |sent|
    && sent[p].tx.direction.Outbound? && sent[q].tx.direction.Inbound?
    && sent[p].rid == sent[q].rid
    && sent[q].tx.payload == sent[p].tx.payload
    && sent[q].tx.parentMessageId == sent[p].id
    && sent[q].tx.otherGroup == sent[p].group && sent[p].tx.otherGroup == sent[q].group
    && sent[p].group != sent[q].group
  }

  /** No other message of the request is outbound. */
  predicate OnlyOutbound(sent: seq<Message>, p: nat)
    requires p < |sent|
  {
    forall o :: 0 <= o < |sent| && sent[o].rid == sent[p].rid && sent[o].tx.direction.Outbound? ==> o == p
  }

  /**
   In every run, with sends failing anywhere, each inbound message completes one
   outbound message sent before it, no other outbound message of its request, and
   no two inbound messages complete the same one.
   */
  lemma InboundsAreMatched(steps: seq<Step>)
    requires After(steps).Some?
    ensures var sent := After(steps).value.sent;
      && (forall q :: 0 <= q < |sent| && sent[q].tx.direction.Inbound? ==>
            exists p: nat :: Completes(sent, p, q) && OnlyOutbound(sent, p))
      && (forall p: nat, q: nat, r: nat :: Completes(sent, p, q) && Completes(sent, p, r) ==> q == r)
  {
    InvAfter(steps);
    var s := After(steps).value;
    forall q | 0 <= q < |s.sent| && s.sent[q].tx.direction.Inbound?
      ensures exists p: nat :: Completes(s.sent, p, q) && OnlyOutbound(s.sent, p)
    {
      var p := OutboundOf(s, q);
    }
    forall p: nat, q: nat, r: nat | Completes(s.sent, p, q) && Completes(s.sent, p, r) ensures q == r {
      OneInbound(s, q, r);
    }
  }

  /** As Iota gives them out: no two messages share an id. */
  predicate DistinctIds(sent: seq<Message>) {
    forall i, j :: 0 <= i < j < |sent| ==> sent[i].id != sent[j].id
  }

  /** `p` is the only message of all requests that has the parent id of `q` as its id. */
  predicate OnlyParent(sent: seq<Message>, p: nat, q: nat)
    requires q < |sent|
  {
    forall o :: 0 <= o < |sent| && sent[o].id == sent[q].tx.parentMessageId ==> o == p
  }

  /** Inbound messages `q` and `r` carry the same parent id. */
  predicate ShareParent(sent: seq<Message>, q: nat, r: nat) {
    && q < |sent| && r < |sent|
    && sent[q].tx.direction.Inbound? && sent[r].tx.direction.Inbound?
    && sent[q].tx.parentMessageId == sent[r].tx.parentMessageId
  }

  /**
   On the chains, where nobody sees the requests, the parent id alone pairs the
   halves: with distinct message ids it names one message among all that were ever
   sent, which is the outbound half, and no two inbound messages share it.
   */
  lemma ParentIdPairsHalves(steps: seq<Step>)
    requires After(steps).Some? && DistinctIds(After(steps).value.sent)
    ensures var sent := After(steps).value.sent;
      && (forall q :: 0 <= q < |sent| && sent[q].tx.direction.Inbound? ==>
            exists p: nat :: Completes(sent, p, q) && OnlyParent(sent, p, q))
      && (forall q: nat, r: nat :: ShareParent(sent, q, r) ==> q == r)
  {
    InvAfter(steps);
    var s := After(steps).value;
    forall q | 0 <= q < |s.sent| && s.sent[q].tx.direction.Inbound?
      ensures exists p: nat :: Completes(s.sent, p, q) && OnlyParent(s.sent, p, q)
    {
      var p := OutboundOf(s, q);
      assert OnlyParent(s.sent, p, q);
    }
    forall q: nat, r: nat | ShareParent(s.sent, q, r) ensures q == r {
      var p := OutboundOf(s, q);
      var o := OutboundOf(s, r);
      assert s.sent[p].id == s.sent[o].id;
      OneInbound(s, q, r);
    }
  }

  lemma OutboundOf(s: State, q: nat) returns (p: nat)
    requires Inv(s) && q < |s.sent| && s.sent[q].tx.direction.Inbound?
    ensures Completes(s.sent, p, q) && OnlyOutbound(s.sent, p)
  {
    MessageIsItsPart(s, q);
    p := s.requests[s.sent[q].rid].at[0];
    MessageIsItsPart(s, p);
    OutboundIsFirst(s, p);
  }

  lemma OutboundIsFirst(s: State, p: nat)
    requires Inv(s) && p < |s.sent| && s.sent[p].tx.direction.Outbound?
    ensures OnlyOutbound(s.sent, p)
  {
    MessageIsItsPart(s, p);
    forall o | 0 <= o < |s.sent| && s.sent[o].rid == s.sent[p].rid && s.sent[o].tx.direction.Outbound? ensures o == p {
      MessageIsItsPart(s, o);
    }
  }

  lemma OneInbound(s: State, q: nat, r: nat)
    requires Inv(s) && q < |s.sent| && r < |s.sent| && s.sent[q].rid == s.sent[r].rid
    requires s.sent[q].tx.direction.Inbound? && s.sent[r].tx.direction.Inbound?
    ensures q == r
  {
    MessageIsItsPart(s, q);
    MessageIsItsPart(s, r);
  }

  /** A message is the part of its job its number says, at the position its request says. */
  lemma MessageIsItsPart(s: State, p: nat)
    requires Inv(s) && p < |s.sent|
    ensures var m := s.sent[p];
      && m.rid < |s.requests| && m.k < |s.requests[m.rid].at| <= Parts(s.requests[m.rid].job)
      && s.requests[m.rid].at[m.k] == p && Proper(s.requests[m.rid].job)
      && AtInRange(s, s.requests[m.rid])
      && m.tx == Part(s.requests[m.rid].job, m.k, FirstId(s, s.requests[m.rid]))
      && m.group == PartGroup(s.requests[m.rid].job, m.k)
      && s.requests[m.rid].at[0] <= p < |s.sent| && s.sent[s.requests[m.rid].at[0]].rid == m.rid
      && (m.k > 0 ==> s.requests[m.rid].at[0] < p) && s.sent[s.requests[m.rid].at[0]].k == 0
  {
    assert RequestInv(s, s.sent[p].rid);
  }
}
