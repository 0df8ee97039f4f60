/**
 The handlers that sign, send and record. What signing, validation, the node and
 Iota answer comes in with each call.
 */
module Pipeline {
  import opened Common
  import opened PendingLog
  import opened Sql
  import opened Transactions
  import D = Decay

  datatype SentMessage = SentMessage(tx: Tx, group: string, id: MessageId)

  /**
   The answers one send gets; the start balance is asked for under a public key and a
   group. None is a failed call, and an inner None text that is no number.
   */
  datatype Answers = Answers(
    signs: bool, valid: bool, startBalance: (string, string) -> Option<Option<real>>, decayFactor: real,
    iotaMessageId: Option<MessageId>, hash: MessageId, nodeAccepts: bool, createdMicros: nat)

  datatype Error =
    | CannotSign | NotValid | InvalidGroupAlias | DecayCheck | SendFailed | BalanceFailed
    | UnknownGroup | UnknownRecipient | NodeFailed | NotRegistered | WrongAddressType
    | BadNumber | InsufficientBalance | CapExceeded | SubaccountUnsupported | BadAliasParameter | AlreadyRegistered

  /** The errors of a send, as opposed to those of a handler's own checks. */
  predicate IsSendError(e: Error) {
    e.CannotSign? || e.NotValid? || e.InvalidGroupAlias? || e.DecayCheck? || e.SendFailed? || e.BalanceFailed?
  }

  datatype Reply = Success(iotaMessageId: MessageId) | Failed(error: Error)

  const ARCHIVE_AGE_SECONDS: int := 60 * 60 * 60

  /** Division as the source does it, towards zero. */
  function Truncated(a: int, b: int): int
    requires b > 0
  {
    if a >= 0 then a / b else -((-a) / b)
  }

  /** What a request carries into every send. */
  datatype Context = Context(
    sessionGroup: string, sessionGroupId: nat, sessionKey: string, memo: string, created: int, archive: bool,
    apolloCreatedDecay: string, apolloDecay: Option<real>, apolloDecayStart: int, apolloTransactionId: nat)

  /** Older than 60 hours, in whole seconds, and with a transaction number. */
  function IsArchive(nowMicros: int, createdMicros: int, transactionNr: nat): (archive: bool)
    ensures archive <==> nowMicros - createdMicros >= 216_001_000_000 && transactionNr != 0
  {
    Truncated(nowMicros - createdMicros, 1_000_000) > ARCHIVE_AGE_SECONDS && transactionNr != 0
  }

  function Stamped(cx: Context, tx: Tx): Tx {
    tx.(memo := cx.memo, created := cx.created)
  }

  function DecayKind(p: Payload): D.Kind {
    match p
    case CreationOf(_, _, _) => D.Creation
    case TransferOf(_, _, _, _) => D.Transfer
    case AddressOf(_, _) => D.Other
  }

  /** Whose balance the decay is about. */
  function DecayKey(p: Payload): string {
    match p
    case CreationOf(recipient, _, _) => recipient
    case TransferOf(sender, _, _, _) => sender
    case AddressOf(_, _) => ""
  }

  predicate DecayPasses(cx: Context, tx: Tx, a: Answers, rnd: D.Rounding) {
    || cx.apolloCreatedDecay == ""
    || tx.payload.AddressOf?
    || var start := a.startBalance(DecayKey(tx.payload), cx.sessionGroup);
       && start.Some? && start.value.Some? && cx.apolloDecay.Some?
       && D.Abs(D.Measured(rnd, start.value.value, a.decayFactor, cx.apolloDecay.value)) < D.LIMIT
  }

  /** Nothing but the alias stands in the way of sending the transaction. */
  predicate AllWell(cx: Context, tx: Tx, a: Answers, rnd: D.Rounding) {
    && a.signs && a.valid && DecayPasses(cx, tx, a, rnd)
    && (if cx.archive then a.nodeAccepts else a.iotaMessageId.Some?)
  }

  /** Everything a send needs, and the message id it then gets. */
  predicate Goes(cx: Context, tx: Tx, group: string, a: Answers, rnd: D.Rounding) {
    ValidAlias(group) && AllWell(cx, tx, a, rnd)
  }

  function IdOf(cx: Context, a: Answers): MessageId {
    if cx.archive || a.iotaMessageId.None? then a.hash else a.iotaMessageId.value
  }

  function Recorded(cx: Context, tx: Tx, a: Answers): PendingTransaction {
    NewPending(IdOf(cx, a), TypeOf(tx.payload), a.createdMicros,
               cx.apolloCreatedDecay, cx.apolloDecayStart, cx.apolloTransactionId)
  }

  /** The messages a job gets out, given the answers to its sends. */
  function Emitted(cx: Context, job: Job, answers: (Answers, Answers), rnd: D.Rounding): seq<SentMessage> {
    var first := Part(job, 0, "");
    if !Goes(cx, first, PartGroup(job, 0), answers.0, rnd) then []
    else
      var m0 := SentMessage(Stamped(cx, first), PartGroup(job, 0), IdOf(cx, answers.0));
      if job.Single? then [m0]
      else
        var second := Part(job, 1, m0.id);
        if !Goes(cx, second, PartGroup(job, 1), answers.1, rnd) then [m0]
        else [m0, SentMessage(Stamped(cx, second), PartGroup(job, 1), IdOf(cx, answers.1))]
  }

  /** One pending entry for each message sent, in the same order. */
  function Records(cx: Context, sent: seq<SentMessage>, answers: (Answers, Answers)): (r: Log)
    requires |sent| <= 2
    ensures |r| == |sent|
  {
    seq(|sent|, i requires 0 <= i < |sent| => Recorded(cx, sent[i].tx, if i == 0 then answers.0 else answers.1))
  }

  // ---- what a send is, field by field --------------------------------------

  /** The balance of this key in the session's group is known and Apollo's decay is close enough to its decay. */
  predicate DecayCloseEnough(cx: Context, key: string, a: Answers, rnd: D.Rounding) {
    var start := a.startBalance(key, cx.sessionGroup);
    && start.Some? && start.value.Some? && cx.apolloDecay.Some?
    && D.Abs(D.Measured(rnd, start.value.value, a.decayFactor, cx.apolloDecay.value)) < D.LIMIT
  }

  /** What success needs: of a creation the recipient's balance is looked at, of a transfer the sender's. */
  predicate SendSucceeds(cx: Context, tx: Tx, groupAlias: string, a: Answers, rnd: D.Rounding) {
    && a.signs && a.valid
    && 3 <= |groupAlias| <= 120
    && (forall c :: c in groupAlias ==> 'a' <= c <= 'z' || '0' <= c <= '9' || c == '-')
    && (cx.apolloCreatedDecay != "" && tx.payload.CreationOf? ==> DecayCloseEnough(cx, tx.payload.recipient, a, rnd))
    && (cx.apolloCreatedDecay != "" && tx.payload.TransferOf? ==> DecayCloseEnough(cx, tx.payload.sender, a, rnd))
    && (cx.archive ==> a.nodeAccepts)
    && (!cx.archive ==> a.iotaMessageId.Some?)
  }

  lemma GoesIffSucceeds(cx: Context, tx: Tx, groupAlias: string, a: Answers, rnd: D.Rounding)
    ensures Goes(cx, tx, groupAlias, a, rnd) <==> SendSucceeds(cx, tx, groupAlias, a, rnd)
  {
    assert (forall c :: c in groupAlias ==> AliasChar(c)) <==> AliasText(groupAlias) by {
      if forall c :: c in groupAlias ==> AliasChar(c) {
        forall i | 0 <= i < |groupAlias| ensures AliasChar(groupAlias[i]) { assert groupAlias[i] in groupAlias; }
      }
    }
  }

  /** The message is the transaction with memo and date of the request, under the id it got. */
  predicate SentAs(m: SentMessage, cx: Context, tx: Tx, groupAlias: string, id: MessageId) {
    && m.tx.payload == tx.payload && m.tx.direction == tx.direction
    && m.tx.otherGroup == tx.otherGroup && m.tx.parentMessageId == tx.parentMessageId
    && m.tx.memo == cx.memo && m.tx.created == cx.created
    && m.group == groupAlias && m.id == id
  }

  /** The pending entry of a message that has just gone out under this id. */
  predicate PendingAs(e: PendingTransaction, cx: Context, p: Payload, createdMicros: nat, id: MessageId) {
    && e.iotaMessageId == id && e.state == Sended && e.errorMessage == "" && e.createdMicros == createdMicros
    && (e.transactionType == TransactionType.Transfer <==> p.TransferOf?)
    && (e.transactionType == TransactionType.Creation <==> p.CreationOf?)
    && (e.transactionType == RegisterAddress <==> p.AddressOf?)
    && e.apolloCreatedDecay == cx.apolloCreatedDecay && e.apolloDecayStart == cx.apolloDecayStart
    && e.apolloTransactionId == cx.apolloTransactionId
  }

  /** One more than before, behind all others. */
  predicate Gained<T(==)>(was: seq<T>, now: seq<T>) {
    |now| == |was| + 1 && was <= now
  }

  class Connector {
    /** What has gone out, to Iota or to the node. */
    var sent: seq<SentMessage>
    const pending: PendingTransactions

    constructor ()
      ensures fresh(pending) && pending.Valid() && sent == []
    {
      sent := [];
      pending := new PendingTransactions();
    }

    method SignAndSendTransaction(cx: Context, transaction: Tx, groupAlias: string, a: Answers, rnd: D.Rounding)
      returns (r: Result<MessageId, Error>)
      requires pending.Valid()
      modifies this, pending
      ensures pending.Valid()
      ensures r.Ok? <==> SendSucceeds(cx, transaction, groupAlias, a, rnd)
      ensures r.Ok? && cx.archive ==> r.value == a.hash
      ensures r.Ok? && !cx.archive ==> Some(r.value) == a.iotaMessageId
      ensures r.Ok? ==>
                && Gained(old(sent), sent) && Gained(old(pending.log), pending.log)
                && SentAs(sent[|sent| - 1], cx, transaction, groupAlias, r.value)
                && PendingAs(pending.log[|pending.log| - 1], cx, transaction.payload, a.createdMicros, r.value)
      ensures r == Err(CannotSign) <==> !a.signs
      ensures r == Err(NotValid) <==> a.signs && !a.valid
      ensures r.Ok? <==> Goes(cx, transaction, groupAlias, a, rnd)
      ensures r.Ok? ==>
                && r.value == IdOf(cx, a)
                && sent == old(sent) + [SentMessage(Stamped(cx, transaction), groupAlias, r.value)]
                && pending.log == old(pending.log) + [Recorded(cx, transaction, a)]
      ensures r.Err? ==> sent == old(sent) && pending.log == old(pending.log) && IsSendError(r.error)
    {
      GoesIffSucceeds(cx, transaction, groupAlias, a, rnd);
      var tx := transaction.(memo := cx.memo);
      tx := tx.(created := cx.created);
      if !a.signs {
        return Err(CannotSign);
      }
      if !a.valid {
        return Err(NotValid);
      }
      if !ValidAlias(groupAlias) {
        return Err(InvalidGroupAlias);
      }
      if |cx.apolloCreatedDecay| > 0 {
        var start := None;
        if !tx.payload.AddressOf? {
          var balance := a.startBalance(DecayKey(tx.payload), cx.sessionGroup);
          if balance.None? {
            return Err(BalanceFailed);
          }
          start := balance.value;
        }
        var checked := D.ValidateApolloDecay(DecayKind(tx.payload), start, a.decayFactor, cx.apolloDecay, rnd);
        if checked.Err? {
          return Err(DecayCheck);
        }
      }
      var iotaMessageId;
      if cx.archive {
        iotaMessageId := a.hash;
        if !a.nodeAccepts {
          return Err(SendFailed);
        }
      } else {
        if a.iotaMessageId.None? {
          return Err(SendFailed);
        }
        iotaMessageId := a.iotaMessageId.value;
      }
      sent := sent + [SentMessage(tx, groupAlias, iotaMessageId)];
      pending.PushNewTransaction(
        NewPending(iotaMessageId, TypeOf(tx.payload), a.createdMicros,
                   cx.apolloCreatedDecay, cx.apolloDecayStart, cx.apolloTransactionId));
      r := Ok(iotaMessageId);
    }

    /**
     The end of every handler: send the transaction, or the outbound half and then,
     with its message id, the inbound half.
     */
    method SendJob(cx: Context, job: Job, answers: (Answers, Answers), rnd: D.Rounding) returns (reply: Reply)
      requires pending.Valid()
      modifies this, pending
      ensures pending.Valid()
      ensures sent == old(sent) + Emitted(cx, job, answers, rnd)
      ensures pending.log == old(pending.log) + Records(cx, Emitted(cx, job, answers, rnd), answers)
      ensures reply.Success? <==> |Emitted(cx, job, answers, rnd)| == Parts(job)
      ensures reply.Success? ==> reply.iotaMessageId == sent[|sent| - 1].id
      ensures reply.Failed? ==> IsSendError(reply.error)
    {
      if job.Pair? {
        var first := SignAndSendTransaction(cx, CreateOutbound(job.base, job.to), job.home, answers.0, rnd);
        if first.Err? {
          return Failed(first.error);
        }
        var lastIotaMessageId := first.value;
        var inbound := CreateInbound(job.base, job.home);
        inbound := inbound.(parentMessageId := lastIotaMessageId);
        var second := SignAndSendTransaction(cx, inbound, job.to, answers.1, rnd);
        if second.Err? {
          return Failed(second.error);
        }
        return Success(second.value);
      }
      var only := SignAndSendTransaction(cx, job.base, job.home, answers.0, rnd);
      if only.Err? {
        return Failed(only.error);
      }
      reply := Success(only.value);
    }
  }

  /** Nothing but the aliases stands in the way of the job, whatever decay value it carries. */
  predicate JobIsWell(cx: Context, job: Job, answers: (Answers, Answers), rnd: D.Rounding) {
    && AllWell(cx, Part(job, 0, ""), answers.0, rnd)
    && (job.Pair? ==> AllWell(cx, Part(job, 1, IdOf(cx, answers.0)), answers.1, rnd))
  }

  /**
   When signing, validation, the decay check, the node and Iota all play along, a
   pair stops between its halves exactly when the alias of the second group is not
   valid, and does not start exactly when that of the first is not.
   */
  lemma StopsBetweenIffAliasInvalid(cx: Context, job: Job, answers: (Answers, Answers), rnd: D.Rounding)
    requires job.Pair? && JobIsWell(cx, job, answers, rnd)
    ensures |Emitted(cx, job, answers, rnd)| == 0 <==> !ValidAlias(job.home)
    ensures |Emitted(cx, job, answers, rnd)| == 1 <==> ValidAlias(job.home) && !ValidAlias(job.to)
  {
  }
}
