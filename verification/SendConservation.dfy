/** What the runs of the send machine conserve: messages against records, and value across groups. */
module SendConservation {
  import opened Common
  import opened PendingLog
  import opened Transactions
  import opened SendRuns

  // ---- sent against recorded -----------------------------------------------

  /** A message or an entry, reduced to whose it is and its id. */
  datatype Mark = Mark(rid: Rid, k: nat, id: MessageId)

  function SentMarks(sent: seq<Message>): multiset<Mark> {
    if sent == [] then multiset{}
    else
      var m := sent[|sent| - 1];
      SentMarks(sent[..|sent| - 1]) + multiset{Mark(m.rid, m.k, m.id)}
  }

  function RecordedMarks(recorded: seq<Entry>): multiset<Mark> {
    if recorded == [] then multiset{}
    else
      var e := recorded[|recorded| - 1];
      RecordedMarks(recorded[..|recorded| - 1]) + multiset{Mark(e.rid, e.k, e.id)}
  }

  /** The message of a request that is sent but not recorded yet. */
  function OwnFlight(sent: seq<Message>, r: Request): multiset<Mark> {
    if InFlight(r) && r.at[|r.rec|] < |sent|
    then multiset{Mark(sent[r.at[|r.rec|]].rid, sent[r.at[|r.rec|]].k, sent[r.at[|r.rec|]].id)} else multiset{}
  }

  function FlightMarks(sent: seq<Message>, rs: seq<Request>): multiset<Mark> {
    if rs == [] then multiset{}
    else FlightMarks(sent, rs[..|rs| - 1]) + OwnFlight(sent, rs[|rs| - 1])
  }

  predicate AllInRange(sent: seq<Message>, rs: seq<Request>) {
    forall i :: 0 <= i < |rs| ==> forall j :: 0 <= j < |rs[i].at| ==> rs[i].at[j] < |sent|
  }

  /** More messages behind change nothing for the requests so far. */
  lemma {:induction false} FlightStays(sent: seq<Message>, m: Message, rs: seq<Request>)
    requires AllInRange(sent, rs)
    ensures FlightMarks(sent + [m], rs) == FlightMarks(sent, rs)
  {
    if rs != [] {
      var n := |rs| - 1;
      assert AllInRange(sent, rs[..n]);
      FlightStays(sent, m, rs[..n]);
      assert OwnFlight(sent + [m], rs[n]) == OwnFlight(sent, rs[n]);
    }
  }

  lemma Shuffle<T>(a: multiset<T>, a': multiset<T>, x: multiset<T>, y: multiset<T>, o: multiset<T>)
    requires a' + x == a + y
    ensures (a' + o) + x == (a + o) + y
  {
    assert (a' + o) + x == (a' + x) + o;
    assert (a + o) + y == (a + y) + o;
  }

  /** When one request changes, the total changes by its own share. */
  lemma {:induction false} FlightUpdate(sent: seq<Message>, rs: seq<Request>, i: nat, r: Request)
    requires i < |rs|
    ensures FlightMarks(sent, rs[i := r]) + OwnFlight(sent, rs[i]) == FlightMarks(sent, rs) + OwnFlight(sent, r)
  {
    var n := |rs| - 1;
    if i == n {
      assert rs[i := r][..n] == rs[..n];
    } else {
      assert rs[i := r][..n] == rs[..n][i := r];
      FlightUpdate(sent, rs[..n], i, r);
      Shuffle(FlightMarks(sent, rs[..n]), FlightMarks(sent, rs[..n][i := r]),
              OwnFlight(sent, rs[i]), OwnFlight(sent, r), OwnFlight(sent, rs[n]));
    }
  }

  ghost predicate Balanced(s: State) {
    SentMarks(s.sent) == RecordedMarks(s.recorded) + FlightMarks(s.sent, s.requests)
  }

  lemma InRange(s: State)
    requires Inv(s)
    ensures AllInRange(s.sent, s.requests)
  {
    forall rid | 0 <= rid < |s.requests| ensures AtInRange(s, s.requests[rid]) { assert RequestInv(s, rid); }
  }

  lemma SentPush(sent: seq<Message>, m: Message)
    ensures SentMarks(sent + [m]) == SentMarks(sent) + multiset{Mark(m.rid, m.k, m.id)}
  {
    assert (sent + [m])[..|sent|] == sent;
  }

  lemma RecordedPush(recorded: seq<Entry>, e: Entry)
    ensures RecordedMarks(recorded + [e]) == RecordedMarks(recorded) + multiset{Mark(e.rid, e.k, e.id)}
  {
    assert (recorded + [e])[..|recorded|] == recorded;
  }

  lemma AddBoth<T>(sent: multiset<T>, recorded: multiset<T>, flight: multiset<T>, x: multiset<T>)
    requires sent == recorded + flight
    ensures sent + x == recorded + (flight + x)
  {
  }

  lemma BalancedSend(s: State, rid: Rid, id: MessageId)
    requires Inv(s) && Balanced(s) && Ready(s, rid)
    ensures Balanced(Apply(s, Send(rid, id)))
  {
    var r := s.requests[rid];
    var m := Message(rid, |r.at|, Part(r.job, |r.at|, FirstId(s, r)), PartGroup(r.job, |r.at|), id);
    InRange(s);
    SentPush(s.sent, m);
    OneTakesOff(s.sent, m, s.requests, rid, r.(at := r.at + [|s.sent|]));
    AddBoth(SentMarks(s.sent), RecordedMarks(s.recorded), FlightMarks(s.sent, s.requests),
            multiset{Mark(m.rid, m.k, m.id)});
  }

  lemma OneTakesOff(sent: seq<Message>, m: Message, rs: seq<Request>, rid: Rid, r': Request)
    requires rid < |rs| && AllInRange(sent, rs) && !InFlight(rs[rid])
    requires InFlight(r') && r'.at[|r'.rec|] == |sent|
    ensures FlightMarks(sent + [m], rs[rid := r']) == FlightMarks(sent, rs) + multiset{Mark(m.rid, m.k, m.id)}
  {
    var more := sent + [m];
    FlightStays(sent, m, rs);
    FlightUpdate(more, rs, rid, r');
    assert OwnFlight(more, rs[rid]) == multiset{} && OwnFlight(more, r') == multiset{Mark(m.rid, m.k, m.id)};
    assert FlightMarks(more, rs[rid := r']) == FlightMarks(more, rs[rid := r']) + multiset{};
  }

  lemma OneLands(sent: seq<Message>, rs: seq<Request>, rid: Rid, r': Request)
    requires rid < |rs| && InFlight(rs[rid]) && rs[rid].at[|rs[rid].rec|] < |sent| && !InFlight(r')
    ensures var m := sent[rs[rid].at[|rs[rid].rec|]];
      FlightMarks(sent, rs) == FlightMarks(sent, rs[rid := r']) + multiset{Mark(m.rid, m.k, m.id)}
  {
    FlightUpdate(sent, rs, rid, r');
    assert OwnFlight(sent, r') == multiset{};
    assert FlightMarks(sent, rs) == FlightMarks(sent, rs) + multiset{};
  }

  lemma MoveOne<T>(sent: multiset<T>, recorded: multiset<T>, flight: multiset<T>, flight': multiset<T>, x: multiset<T>)
    requires sent == recorded + flight && flight == flight' + x
    ensures sent == (recorded + x) + flight'
  {
  }

  lemma BalancedRecord(s: State, rid: Rid)
    requires Inv(s) && Balanced(s) && Enabled(s, Record(rid))
    ensures Balanced(Apply(s, Record(rid)))
  {
    var r := s.requests[rid];
    var r' := r.(rec := r.rec + [|s.recorded|]);
    var m := s.sent[r.at[|r.rec|]];
    var e := Entry(rid, |r.rec|, m.id);
    assert (m.rid, m.k) == (rid, |r.rec|) && !InFlight(r') by { assert RequestInv(s, rid); }
    RecordedPush(s.recorded, e);
    OneLands(s.sent, s.requests, rid, r');
    MoveOne(SentMarks(s.sent), RecordedMarks(s.recorded), FlightMarks(s.sent, s.requests),
            FlightMarks(s.sent, s.requests[rid := r']), multiset{Mark(rid, |r.rec|, m.id)});
  }

  lemma BalancedStop(s: State, rid: Rid)
    requires Balanced(s) && Enabled(s, Stop(rid))
    ensures Balanced(Apply(s, Stop(rid)))
  {
    var r' := s.requests[rid].(stopped := true);
    FlightUpdate(s.sent, s.requests, rid, r');
    assert OwnFlight(s.sent, s.requests[rid]) == multiset{} && OwnFlight(s.sent, r') == multiset{};
    var before, after := FlightMarks(s.sent, s.requests), FlightMarks(s.sent, s.requests[rid := r']);
    assert after == after + multiset{} == before + multiset{} == before;
  }

  lemma BalancedStep(s: State, step: Step)
    requires Inv(s) && Balanced(s) && Enabled(s, step)
    ensures Balanced(Apply(s, step))
  {
    match step
    case Accept(job) =>
      assert Apply(s, step).requests[..|s.requests|] == s.requests;
      assert OwnFlight(s.sent, Request(job, [], [], false)) == multiset{};
    case Send(rid, id) => BalancedSend(s, rid, id);
    case Record(rid) => BalancedRecord(s, rid);
    case Stop(rid) => BalancedStop(s, rid);
  }

  /**
   At every moment what has been sent is what has been recorded plus exactly the
   messages of the requests that stand between their send and their push.
   */
  lemma {:induction false} SentIsRecordedPlusInFlight(steps: seq<Step>)
    requires After(steps).Some?
    ensures Inv(After(steps).value) && Balanced(After(steps).value)
  {
    if steps != [] {
      SentIsRecordedPlusInFlight(steps[..|steps| - 1]);
      InvAfter(steps);
      BalancedStep(After(steps[..|steps| - 1]).value, steps[|steps| - 1]);
    }
  }

  /** The entries of one request stand in the order of its messages and carry their ids. */
  lemma RecordsFollowSends(steps: seq<Step>, e: nat, f: nat)
    requires After(steps).Some?
    requires var s := After(steps).value;
             e < f < |s.recorded| && s.recorded[e].rid == s.recorded[f].rid
    ensures var s := After(steps).value;
      exists p, q :: 0 <= p < q < |s.sent|
        && (s.sent[p].rid, s.sent[p].k, s.sent[p].id) == (s.recorded[e].rid, s.recorded[e].k, s.recorded[e].id)
        && (s.sent[q].rid, s.sent[q].k, s.sent[q].id) == (s.recorded[f].rid, s.recorded[f].k, s.recorded[f].id)
  {
    InvAfter(steps);
    var s := After(steps).value;
    var rid := s.recorded[e].rid;
    assert RequestInv(s, rid);
    var r := s.requests[rid];
    var i, j := s.recorded[e].k, s.recorded[f].k;
    assert r.rec[i] == e && r.rec[j] == f;
    assert i < j;
    var p, q := r.at[i], r.at[j];
    assert s.sent[p].k == i && s.sent[q].k == j;
  }

  /** Of the messages of one request only the last can be without its entry. */
  lemma OnlyLastUnrecorded(steps: seq<Step>, p: nat, q: nat)
    requires After(steps).Some?
    requires var sent := After(steps).value.sent; p < q < |sent| && sent[p].rid == sent[q].rid
    ensures var s := After(steps).value; Entry(s.sent[p].rid, s.sent[p].k, s.sent[p].id) in s.recorded
  {
    InvAfter(steps);
    var s := After(steps).value;
    MessageIsItsPart(s, p);
    MessageIsItsPart(s, q);
    assert RequestInv(s, s.sent[p].rid);
    var r := s.requests[s.sent[p].rid];
    assert r.at[s.sent[p].k] == p && r.at[s.sent[q].k] == q;
    assert s.recorded[r.rec[s.sent[p].k]] == Entry(s.sent[p].rid, s.sent[p].k, s.sent[p].id);
  }

  // ---- value across groups -------------------------------------------------

  /** What the amount of a transfer is worth; other payloads move no value. */
  function Worth(p: Payload, value: string -> real): real {
    if p.TransferOf? then value(p.amount) else 0.0
  }

  /** Value of the messages of one direction that go from group `a` to group `b`. */
  function Moved(sent: seq<Message>, d: Direction, a: string, b: string, value: string -> real): real {
    if sent == [] then 0.0
    else
      var m := sent[|sent| - 1];
      var ours := m.tx.direction == d
                  && (if d.Outbound? then m.group == a && m.tx.otherGroup == b
                      else m.group == b && m.tx.otherGroup == a);
      Moved(sent[..|sent| - 1], d, a, b, value) + if ours then Worth(m.tx.payload, value) else 0.0
  }

  /** One request's value on its way from `a` to `b`: the outbound half is out, the inbound half is not. */
  function Underway(r: Request, a: string, b: string, value: string -> real): real {
    if r.job.Pair? && r.job.home == a && r.job.to == b && |r.at| == 1 then Worth(r.job.base.payload, value) else 0.0
  }

  function Between(rs: seq<Request>, a: string, b: string, value: string -> real): real {
    if rs == [] then 0.0
    else Between(rs[..|rs| - 1], a, b, value) + Underway(rs[|rs| - 1], a, b, value)
  }

  lemma {:induction false} BetweenUpdate(rs: seq<Request>, i: nat, r: Request,
                                         a: string, b: string, value: string -> real)
    requires i < |rs|
    ensures Between(rs[i := r], a, b, value) ==
              Between(rs, a, b, value) - Underway(rs[i], a, b, value) + Underway(r, a, b, value)
  {
    var n := |rs| - 1;
    if i == n {
      assert rs[i := r][..n] == rs[..n];
    } else {
      assert rs[i := r][..n] == rs[..n][i := r];
      BetweenUpdate(rs[..n], i, r, a, b, value);
    }
  }

  lemma MovedPush(sent: seq<Message>, m: Message, d: Direction, a: string, b: string, value: string -> real)
    ensures Moved(sent + [m], d, a, b, value) == Moved(sent, d, a, b, value) + Moved([m], d, a, b, value)
  {
    assert (sent + [m])[..|sent|] == sent;
    assert [m][..0] == [];
  }

  /** A send moves exactly as much as the request's own value on its way changes. */
  lemma SendMoves(s: State, rid: Rid, id: MessageId, a: string, b: string, value: string -> real)
    requires Inv(s) && Enabled(s, Send(rid, id))
    ensures var s' := Apply(s, Send(rid, id));
      var m := s'.sent[|s.sent|];
      Moved([m], Outbound, a, b, value) - Moved([m], Inbound, a, b, value)
        == Underway(s'.requests[rid], a, b, value) - Underway(s.requests[rid], a, b, value)
  {
    assert RequestInv(s, rid);
    var m := Apply(s, Send(rid, id)).sent[|s.sent|];
    assert [m][..0] == [];
  }

  ghost predicate Conserved(s: State, a: string, b: string, value: string -> real) {
    Moved(s.sent, Outbound, a, b, value) - Moved(s.sent, Inbound, a, b, value) == Between(s.requests, a, b, value)
  }

  /**
   For every two groups, what has left the one for the other minus what has arrived
   is at every moment the value of the transfers that stand, or have stopped,
   between their two sends.
   */
  lemma {:induction false} ValueIsConserved(steps: seq<Step>, a: string, b: string, value: string -> real)
    requires After(steps).Some?
    ensures Conserved(After(steps).value, a, b, value)
  {
    if steps != [] {
      var before, step := steps[..|steps| - 1], steps[|steps| - 1];
      ValueIsConserved(before, a, b, value);
      InvAfter(before);
      ConservedStep(After(before).value, step, a, b, value);
    }
  }

  /** A step that sends nothing and leaves what the request has sent moves no value. */
  lemma ConservedQuietly(s: State, rid: Rid, r': Request, a: string, b: string, value: string -> real)
    requires rid < |s.requests| && r'.job == s.requests[rid].job && r'.at == s.requests[rid].at
    requires Conserved(s, a, b, value)
    ensures Moved(s.sent, Outbound, a, b, value) - Moved(s.sent, Inbound, a, b, value)
              == Between(s.requests[rid := r'], a, b, value)
  {
    BetweenUpdate(s.requests, rid, r', a, b, value);
  }

  lemma ConservedSend(s: State, rid: Rid, id: MessageId, a: string, b: string, value: string -> real)
    requires Inv(s) && Enabled(s, Send(rid, id)) && Conserved(s, a, b, value)
    ensures Conserved(Apply(s, Send(rid, id)), a, b, value)
  {
    var r := s.requests[rid];
    var r' := r.(at := r.at + [|s.sent|]);
    var m := Message(rid, |r.at|, Part(r.job, |r.at|, FirstId(s, r)), PartGroup(r.job, |r.at|), id);
    MovedPush(s.sent, m, Outbound, a, b, value);
    MovedPush(s.sent, m, Inbound, a, b, value);
    BetweenUpdate(s.requests, rid, r', a, b, value);
    SendMoves(s, rid, id, a, b, value);
  }

  lemma ConservedStep(s: State, step: Step, a: string, b: string, value: string -> real)
    requires Inv(s) && Enabled(s, step) && Conserved(s, a, b, value)
    ensures Conserved(Apply(s, step), a, b, value)
  {
    match step {
      case Accept(job) =>
        assert Apply(s, step).requests[..|s.requests|] == s.requests;
      case Send(rid, id) => ConservedSend(s, rid, id, a, b, value);
      case Record(rid) =>
        var r := s.requests[rid];
        ConservedQuietly(s, rid, r.(rec := r.rec + [|s.recorded|]), a, b, value);
      case Stop(rid) => ConservedQuietly(s, rid, s.requests[rid].(stopped := true), a, b, value);
    }
  }
}
