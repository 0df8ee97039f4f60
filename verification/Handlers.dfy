/** The checks each handler makes before it hands its job to the connector. */
module Handlers {
  import opened Common
  import opened PendingLog
  import opened Sql
  import opened Transactions
  import opened Pipeline
  import opened Recipients
  import D = Decay
  import C = MonthlyCap
  import L = Login

  /** The address type the node reports. */
  datatype AddressType = NoAddress | Human | Subaccount | OtherType

  /** None is a failed call to the node; an inner None is text that is no number. */
  type Number = Option<Option<real>>

  predicate IsNumber(n: Number) {
    n.Some? && n.value.Some?
  }

  // ---- what a call has sent ------------------------------------------------

  /**
   The messages of one payload: a local one for group `home` when `to` is the same, and
   otherwise an outbound one for `home` and behind it perhaps the inbound one for `to`,
   which carries the id of the first.
   */
  predicate MessagesOf(sent: seq<SentMessage>, payload: Payload, memo: string, created: int, home: string, to: string) {
    && (forall i :: 0 <= i < |sent| ==>
          sent[i].tx.payload == payload && sent[i].tx.memo == memo && sent[i].tx.created == created)
    && (|sent| > 0 ==> sent[0].group == home && sent[0].tx.parentMessageId == "")
    && if home == to then
         |sent| <= 1 && (|sent| == 1 ==> sent[0].tx.direction == Local && sent[0].tx.otherGroup == "")
       else
         && |sent| <= 2
         && (|sent| > 0 ==> sent[0].tx.direction == Outbound && sent[0].tx.otherGroup == to)
         && (|sent| > 1 ==>
               && sent[1].tx.direction == Inbound && sent[1].tx.otherGroup == home && sent[1].group == to
               && sent[1].tx.parentMessageId == sent[0].id)
  }

  lemma EmittedIsMessages(cx: Context, payload: Payload, home: string, to: string,
                          answers: (Answers, Answers), rnd: D.Rounding)
    ensures home == to ==> MessagesOf(Emitted(cx, Single(Base(payload), home), answers, rnd), payload,
                                      cx.memo, cx.created, home, to)
    ensures home != to ==> MessagesOf(Emitted(cx, Pair(Base(payload), home, to), answers, rnd), payload,
                                      cx.memo, cx.created, home, to)
  {
  }

  /** What has come behind `was`. */
  function Added<T>(was: seq<T>, now: seq<T>): seq<T>
    requires |was| <= |now|
  {
    now[|was|..]
  }

  lemma AddedBehind<T>(was: seq<T>, more: seq<T>)
    ensures Added(was, was + more) == more
  {
  }

  /** The handler itself has refused, before any send. */
  predicate Refused(reply: Reply) {
    reply.Failed? && !IsSendError(reply.error)
  }

  // ---- transfer ------------------------------------------------------------

  /**
   The parameters of a transfer with what the node says: the address type of a key in a
   group, and the balance of a key in a group for a coin.
   */
  datatype TransferRequest = TransferRequest(
    recipientName: string, recipientGroupAlias: string, amountText: string, amount: Option<real>, coinGroupId: string,
    addressType: (string, string) -> Option<AddressType>, balance: (string, string, string) -> Number)

  function RecipientGroup(cx: Context, q: TransferRequest): string {
    if q.recipientGroupAlias != "" then q.recipientGroupAlias else cx.sessionGroup
  }

  function TargetGroupId(cx: Context, q: TransferRequest, st: L.Store): Option<nat> {
    if q.recipientGroupAlias == "" then Some(cx.sessionGroupId)
    else
      var group := L.FindGroup(st.groups, q.recipientGroupAlias);
      if group.Some? then Some(group.value.id) else None
  }

  function RecipientOf(cx: Context, q: TransferRequest, st: L.Store): Option<L.UserRow> {
    var groupId := TargetGroupId(cx, q, st);
    if groupId.Some? then LoadUser(st.users, q.recipientName, groupId.value) else None
  }

  /** The node knows the address of this key under this alias. */
  predicate RegisteredUnder(q: TransferRequest, key: string, groupAlias: string) {
    q.addressType(key, groupAlias).Some? && q.addressType(key, groupAlias).value != NoAddress
  }

  function SenderBalance(cx: Context, q: TransferRequest): Number {
    q.balance(cx.sessionKey, cx.sessionGroup, q.coinGroupId)
  }

  predicate OnChain(cx: Context, q: TransferRequest, key: string) {
    RegisteredUnder(q, key, RecipientGroup(cx, q)) && IsNumber(SenderBalance(cx, q)) && q.amount.Some?
  }

  /** The recipient is known and, unless archived, registered, and the balance covers the amount. */
  predicate TransferAllowed(cx: Context, q: TransferRequest, st: L.Store, rnd: D.Rounding) {
    && RecipientOf(cx, q, st).Some?
    && (cx.archive
        || (&& OnChain(cx, q, RecipientOf(cx, q, st).value.publicKey)
            && rnd(q.amount.value) <= rnd(SenderBalance(cx, q).value.value)))
  }

  /** `key` is that of the recipient: looked up in the group of the given alias, or else in the session's own. */
  predicate RecipientKeyIs(cx: Context, q: TransferRequest, st: L.Store, key: string) {
    if q.recipientGroupAlias == "" then
      var user := LoadUser(st.users, q.recipientName, cx.sessionGroupId);
      user.Some? && user.value.publicKey == key
    else
      var group := L.FindGroup(st.groups, q.recipientGroupAlias);
      && group.Some?
      && var user := LoadUser(st.users, q.recipientName, group.value.id);
         user.Some? && user.value.publicKey == key
  }

  /** The sender's balance in the session's group and for the coin covers the amount, both rounded when parsed. */
  predicate BalanceCovers(cx: Context, q: TransferRequest, rnd: D.Rounding) {
    var balance := q.balance(cx.sessionKey, cx.sessionGroup, q.coinGroupId);
    && balance.Some? && balance.value.Some? && q.amount.Some?
    && rnd(q.amount.value) <= rnd(balance.value.value)
  }

  /** A transfer that is not archived fails on its amount alone. */
  predicate BalanceTooLow(cx: Context, q: TransferRequest, st: L.Store, rnd: D.Rounding) {
    && RecipientOf(cx, q, st).Some? && !cx.archive && OnChain(cx, q, RecipientOf(cx, q, st).value.publicKey)
    && rnd(q.amount.value) > rnd(SenderBalance(cx, q).value.value)
  }

  /** The transfer may go to the holder of `key`. */
  predicate TransferAccepts(cx: Context, q: TransferRequest, st: L.Store, key: string, rnd: D.Rounding) {
    && RecipientKeyIs(cx, q, st, key)
    && (!cx.archive ==>
          var where := if q.recipientGroupAlias == "" then cx.sessionGroup else q.recipientGroupAlias;
          q.addressType(key, where).Some? && q.addressType(key, where) != Some(NoAddress) && BalanceCovers(cx, q, rnd))
  }

  /** What has been sent is a payment of the request's amount and coin by the session to the holder of `key`. */
  predicate PaysTo(sent: seq<SentMessage>, cx: Context, q: TransferRequest, key: string, memo: string) {
    var payload := TransferOf(sender := cx.sessionKey, recipient := key,
                              amount := q.amountText, coinGroupId := q.coinGroupId);
    MessagesOf(sent, payload, memo, cx.created, cx.sessionGroup,
               if q.recipientGroupAlias == "" then cx.sessionGroup else q.recipientGroupAlias)
  }

  function TransferJobOf(cx: Context, q: TransferRequest, st: L.Store): Job
    requires RecipientOf(cx, q, st).Some?
  {
    var payload := TransferOf(cx.sessionKey, q.amountText, q.coinGroupId, RecipientOf(cx, q, st).value.publicKey);
    TransferJob(Base(payload), cx.sessionGroup, RecipientGroup(cx, q))
  }

  /** What a transfer sends, memo encrypted for the recipient. */
  function TransferSends(cx: Context, q: TransferRequest, st: L.Store, encrypt: (string, string) -> string,
                         answers: (Answers, Answers), rnd: D.Rounding): seq<SentMessage>
  {
    if !TransferAllowed(cx, q, st, rnd) then []
    else
      var memo := encrypt(cx.memo, RecipientOf(cx, q, st).value.publicKey);
      Emitted(cx.(memo := memo), TransferJobOf(cx, q, st), answers, rnd)
  }

  lemma AllowedIffAccepted(cx: Context, q: TransferRequest, st: L.Store, rnd: D.Rounding)
    ensures TransferAllowed(cx, q, st, rnd) <==>
              RecipientOf(cx, q, st).Some? && TransferAccepts(cx, q, st, RecipientOf(cx, q, st).value.publicKey, rnd)
    ensures forall key | TransferAccepts(cx, q, st, key, rnd) ::
              RecipientOf(cx, q, st).Some? && key == RecipientOf(cx, q, st).value.publicKey
  {
  }

  lemma TransferSendsPay(cx: Context, q: TransferRequest, st: L.Store, encrypt: (string, string) -> string,
                         answers: (Answers, Answers), rnd: D.Rounding)
    requires TransferAllowed(cx, q, st, rnd)
    ensures var key := RecipientOf(cx, q, st).value.publicKey;
      PaysTo(TransferSends(cx, q, st, encrypt, answers, rnd), cx, q, key, encrypt(cx.memo, key))
  {
    var key := RecipientOf(cx, q, st).value.publicKey;
    var payload := TransferOf(cx.sessionKey, q.amountText, q.coinGroupId, key);
    var context := cx.(memo := encrypt(cx.memo, key));
    EmittedIsMessages(context, payload, cx.sessionGroup, RecipientGroup(cx, q), answers, rnd);
  }

  class JsonTransferTransaction {
    constructor () {}

    /** Everything that is looked up and compared before the first send; the result is the recipient's key. */
    method Check(cx: Context, q: TransferRequest, st: L.Store, rnd: D.Rounding) returns (r: Result<string, Error>)
      ensures r.Ok? <==> TransferAllowed(cx, q, st, rnd)
      ensures r.Ok? ==> RecipientKeyIs(cx, q, st, r.value) && r.value == RecipientOf(cx, q, st).value.publicKey
      ensures r.Err? ==> !IsSendError(r.error)
      ensures r == Err(InsufficientBalance) <==> BalanceTooLow(cx, q, st, rnd)
    {
      var recipientGroupAlias := q.recipientGroupAlias;
      var targetGroupId := cx.sessionGroupId;
      if |recipientGroupAlias| > 0 {
        var group := L.FindGroup(st.groups, recipientGroupAlias);
        if group.None? {
          return Err(UnknownGroup);
        }
        targetGroupId := group.value.id;
      } else {
        recipientGroupAlias := cx.sessionGroup;
      }
      var recipientUser := LoadUser(st.users, q.recipientName, targetGroupId);
      if recipientUser.None? {
        return Err(UnknownRecipient);
      }
      var recipientPublicKey := recipientUser.value.publicKey;
      if !cx.archive {
        var addressType := q.addressType(recipientPublicKey, recipientGroupAlias);
        if addressType.None? {
          return Err(NodeFailed);
        }
        if addressType.value == NoAddress {
          return Err(NotRegistered);
        }
        var reported := q.balance(cx.sessionKey, cx.sessionGroup, q.coinGroupId);
        if reported.None? || reported.value.None? {
          return Err(NodeFailed);
        }
        var balance := rnd(reported.value.value);
        if q.amount.None? {
          return Err(BadNumber);
        }
        var amount := rnd(q.amount.value);
        if amount > balance {
          return Err(InsufficientBalance);
        }
      }
      r := Ok(recipientPublicKey);
    }

    method Handle(cx: Context, q: TransferRequest, st: L.Store, encrypt: (string, string) -> string, world: Connector,
                  answers: (Answers, Answers), rnd: D.Rounding) returns (reply: Reply)
      requires world.pending.Valid()
      modifies world, world.pending
      ensures world.pending.Valid()
      ensures var out := TransferSends(cx, q, st, encrypt, answers, rnd);
        && world.sent == old(world.sent) + out
        && world.pending.log == old(world.pending.log) + Records(cx, out, answers)
        && (reply.Success? <==> TransferAllowed(cx, q, st, rnd) && |out| == Parts(TransferJobOf(cx, q, st)))
      ensures Refused(reply) <==> forall key :: !TransferAccepts(cx, q, st, key, rnd)
      ensures Refused(reply) ==> world.sent == old(world.sent) && world.pending.log == old(world.pending.log)
      ensures forall key | TransferAccepts(cx, q, st, key, rnd) ::
                PaysTo(Added(old(world.sent), world.sent), cx, q, key, encrypt(cx.memo, key))
      ensures reply.Success? ==> world.sent != [] && reply.iotaMessageId == world.sent[|world.sent| - 1].id
      ensures reply == Failed(InsufficientBalance) <==> BalanceTooLow(cx, q, st, rnd)
    {
      AllowedIffAccepted(cx, q, st, rnd);
      var checked := Check(cx, q, st, rnd);
      if checked.Err? {
        return Failed(checked.error);
      }
      ghost var out := TransferSends(cx, q, st, encrypt, answers, rnd);
      AddedBehind(world.sent, out);
      TransferSendsPay(cx, q, st, encrypt, answers, rnd);
      var recipientPublicKey := checked.value;
      var recipientGroupAlias := if q.recipientGroupAlias != "" then q.recipientGroupAlias else cx.sessionGroup;
      var context := cx.(memo := encrypt(cx.memo, recipientPublicKey));
      var base := Base(TransferOf(cx.sessionKey, q.amountText, q.coinGroupId, recipientPublicKey));
      if recipientGroupAlias != "" && recipientGroupAlias != cx.sessionGroup {
        reply := world.SendJob(context, Pair(base, cx.sessionGroup, recipientGroupAlias), answers, rnd);
      } else {
        reply := world.SendJob(context, Single(base, cx.sessionGroup), answers, rnd);
      }
    }
  }

  // ---- registering or moving an address ------------------------------------

  /** `txids` is the node's answer for a key and a group: how many transactions the address has there. */
  datatype RegisterRequest = RegisterRequest(
    addressType: AddressType, addressTypeText: string, currentGroupAlias: string, newGroupAlias: string)

  predicate Moving(q: RegisterRequest) {
    q.currentGroupAlias != "" && q.newGroupAlias != "" && q.currentGroupAlias != q.newGroupAlias
  }

  predicate AliasesValid(q: RegisterRequest) {
    && (q.currentGroupAlias != "" ==> ValidAlias(q.currentGroupAlias))
    && (q.newGroupAlias != "" ==> ValidAlias(q.newGroupAlias))
  }

  /** The group that must not have the address yet. */
  function TargetGroup(cx: Context, q: RegisterRequest): string {
    if Moving(q) then q.newGroupAlias else cx.sessionGroup
  }

  predicate RegisterAllowed(cx: Context, q: RegisterRequest, txids: (string, string) -> Option<nat>) {
    && q.addressType != Subaccount && AliasesValid(q)
    && (cx.archive || txids(cx.sessionKey, TargetGroup(cx, q)) == Some(0))
  }

  function RegisterJobOf(cx: Context, q: RegisterRequest): Job {
    var base := Base(AddressOf(cx.sessionKey, q.addressTypeText));
    RegisterJob(base, cx.sessionGroup, q.currentGroupAlias, q.newGroupAlias)
  }

  function RegisterSends(cx: Context, q: RegisterRequest, txids: (string, string) -> Option<nat>,
                         answers: (Answers, Answers), rnd: D.Rounding): seq<SentMessage>
  {
    if RegisterAllowed(cx, q, txids) then Emitted(cx, RegisterJobOf(cx, q), answers, rnd) else []
  }

  /** What has been sent registers the session's own key, or moves it from the current group to the new one. */
  predicate Registers(sent: seq<SentMessage>, cx: Context, q: RegisterRequest) {
    var payload := AddressOf(userRootPubkey := cx.sessionKey, addressType := q.addressTypeText);
    if q.currentGroupAlias != "" && q.newGroupAlias != "" && q.currentGroupAlias != q.newGroupAlias
    then MessagesOf(sent, payload, cx.memo, cx.created, q.currentGroupAlias, q.newGroupAlias)
    else MessagesOf(sent, payload, cx.memo, cx.created, cx.sessionGroup, cx.sessionGroup)
  }

  lemma RegisterSendsRegisters(cx: Context, q: RegisterRequest, txids: (string, string) -> Option<nat>,
                               answers: (Answers, Answers), rnd: D.Rounding)
    ensures Registers(RegisterSends(cx, q, txids, answers, rnd), cx, q)
  {
    var payload := AddressOf(cx.sessionKey, q.addressTypeText);
    assert cx.(memo := cx.memo) == cx;
    if Moving(q) {
      EmittedIsMessages(cx, payload, q.currentGroupAlias, q.newGroupAlias, answers, rnd);
      assert MessagesOf(RegisterSends(cx, q, txids, answers, rnd), payload, cx.memo, cx.created,
                        q.currentGroupAlias, q.newGroupAlias);
    } else {
      EmittedIsMessages(cx, payload, cx.sessionGroup, cx.sessionGroup, answers, rnd);
      assert MessagesOf(RegisterSends(cx, q, txids, answers, rnd), payload, cx.memo, cx.created,
                        cx.sessionGroup, cx.sessionGroup);
    }
  }

  class JsonRegisterAddressTransaction {
    constructor () {}

    /** Everything that is compared before the first send; the result is whether the address moves. */
    method Check(cx: Context, q: RegisterRequest, txids: (string, string) -> Option<nat>)
      returns (r: Result<bool, Error>)
      ensures r.Ok? <==> RegisterAllowed(cx, q, txids)
      ensures r.Ok? ==>
                && (r.value <==>
                      && q.currentGroupAlias != "" && q.newGroupAlias != "" && q.currentGroupAlias != q.newGroupAlias)
                && (r.value ==> ValidAlias(q.currentGroupAlias) && ValidAlias(q.newGroupAlias))
      ensures r.Err? ==> !IsSendError(r.error)
      ensures
        var moving := q.currentGroupAlias != "" && q.newGroupAlias != "" && q.currentGroupAlias != q.newGroupAlias;
        var known := txids(cx.sessionKey, if moving then q.newGroupAlias else cx.sessionGroup);
        var wellFormed := && q.addressType != Subaccount
                          && (q.currentGroupAlias == "" || ValidAlias(q.currentGroupAlias))
                          && (q.newGroupAlias == "" || ValidAlias(q.newGroupAlias));
        && (r.Err? <==> !wellFormed || (!cx.archive && known != Some(0)))
        && (r == Err(AlreadyRegistered) <==> wellFormed && !cx.archive && known.Some? && known.value > 0)
    {
      if q.addressType == Subaccount {
        return Err(SubaccountUnsupported);
      }
      if |q.currentGroupAlias| > 0 {
        if !ValidAlias(q.currentGroupAlias) {
          return Err(BadAliasParameter);
        }
      }
      if |q.newGroupAlias| > 0 {
        if !ValidAlias(q.newGroupAlias) {
          return Err(BadAliasParameter);
        }
      }
      var movingAddress := false;
      if |q.currentGroupAlias| > 0 && |q.newGroupAlias| > 0 && q.currentGroupAlias != q.newGroupAlias {
        movingAddress := true;
      }
      if !cx.archive {
        var addressTxids := txids(cx.sessionKey, if movingAddress then q.newGroupAlias else cx.sessionGroup);
        if addressTxids.None? {
          return Err(NodeFailed);
        }
        if addressTxids.value > 0 {
          return Err(AlreadyRegistered);
        }
      }
      r := Ok(movingAddress);
    }

    method Handle(cx: Context, q: RegisterRequest, txids: (string, string) -> Option<nat>, world: Connector,
                  answers: (Answers, Answers), rnd: D.Rounding) returns (reply: Reply)
      requires world.pending.Valid()
      modifies world, world.pending
      ensures world.pending.Valid()
      ensures var out := RegisterSends(cx, q, txids, answers, rnd);
        && world.sent == old(world.sent) + out
        && world.pending.log == old(world.pending.log) + Records(cx, out, answers)
        && (reply.Success? <==> RegisterAllowed(cx, q, txids) && |out| == Parts(RegisterJobOf(cx, q)))
      ensures Registers(Added(old(world.sent), world.sent), cx, q)
      ensures reply.Success? ==> world.sent != [] && reply.iotaMessageId == world.sent[|world.sent| - 1].id
      ensures Refused(reply) ==> world.sent == old(world.sent) && world.pending.log == old(world.pending.log)
      ensures var job := RegisterJobOf(cx, q);
        RegisterAllowed(cx, q, txids) && job.Pair? ==> ValidAlias(job.home) && ValidAlias(job.to)
      ensures
        var moving := q.currentGroupAlias != "" && q.newGroupAlias != "" && q.currentGroupAlias != q.newGroupAlias;
        var known := txids(cx.sessionKey, if moving then q.newGroupAlias else cx.sessionGroup);
        var wellFormed := && q.addressType != Subaccount
                          && (q.currentGroupAlias == "" || ValidAlias(q.currentGroupAlias))
                          && (q.newGroupAlias == "" || ValidAlias(q.newGroupAlias));
        && (Refused(reply) <==> !wellFormed || (!cx.archive && known != Some(0)))
        && (reply == Failed(AlreadyRegistered) <==> wellFormed && !cx.archive && known.Some? && known.value > 0)
    {
      AddedBehind(world.sent, RegisterSends(cx, q, txids, answers, rnd));
      RegisterSendsRegisters(cx, q, txids, answers, rnd);
      var movingAddress := Check(cx, q, txids);
      if movingAddress.Err? {
        return Failed(movingAddress.error);
      }
      var base := Base(AddressOf(cx.sessionKey, q.addressTypeText));
      if movingAddress.value {
        reply := world.SendJob(cx, Pair(base, q.currentGroupAlias, q.newGroupAlias), answers, rnd);
      } else {
        reply := world.SendJob(cx, Single(base, cx.sessionGroup), answers, rnd);
      }
    }
  }

  // ---- creation ------------------------------------------------------------

  /**
   The parameters of a creation with what the node says: the address type of a key in a
   group, and the sum of its creations in a group for the month of a date.
   */
  datatype CreationRequest = CreationRequest(
    recipientName: string, amountText: string, amount: Option<real>, targetDate: int,
    addressType: (string, string) -> Option<AddressType>, monthSum: (string, string, int) -> Number)

  function CreationRecipient(cx: Context, q: CreationRequest, st: L.Store): Option<L.UserRow> {
    LoadUser(st.users, q.recipientName, cx.sessionGroupId)
  }

  function SumBefore(cx: Context, q: CreationRequest, key: string): Number {
    q.monthSum(key, cx.sessionGroup, q.targetDate)
  }

  predicate HumanWithNumbers(cx: Context, q: CreationRequest, key: string) {
    q.addressType(key, cx.sessionGroup) == Some(Human) && IsNumber(SumBefore(cx, q, key)) && q.amount.Some?
  }

  /** The recipient is known and, unless archived, a human within the month's cap. */
  predicate CreationAllowed(cx: Context, q: CreationRequest, st: L.Store, rnd: D.Rounding) {
    && CreationRecipient(cx, q, st).Some?
    && (cx.archive
        || var key := CreationRecipient(cx, q, st).value.publicKey;
           HumanWithNumbers(cx, q, key) && C.WithinCap(rnd, SumBefore(cx, q, key).value.value, q.amount.value))
  }

  /** The creation may go to the holder of `key`. */
  predicate CreationAccepts(cx: Context, q: CreationRequest, st: L.Store, key: string, rnd: D.Rounding) {
    var user := LoadUser(st.users, q.recipientName, cx.sessionGroupId);
    && user.Some? && user.value.publicKey == key
    && (!cx.archive ==>
          var sum := q.monthSum(key, cx.sessionGroup, q.targetDate);
          && q.addressType(key, cx.sessionGroup) == Some(Human) && sum.Some? && sum.value.Some? && q.amount.Some?
          && rnd(rnd(sum.value.value) + rnd(q.amount.value)) <= 1000.0)
  }

  /** What has been sent creates the request's amount for its month and the holder of `key`, in the session's group. */
  predicate CreatesFor(sent: seq<SentMessage>, cx: Context, q: CreationRequest, key: string, memo: string) {
    var payload := CreationOf(recipient := key, amount := q.amountText, targetDate := q.targetDate);
    MessagesOf(sent, payload, memo, cx.created, cx.sessionGroup, cx.sessionGroup)
  }

  function CreationSends(cx: Context, q: CreationRequest, st: L.Store, encrypt: (string, string) -> string,
                         answers: (Answers, Answers), rnd: D.Rounding): seq<SentMessage>
  {
    if !CreationAllowed(cx, q, st, rnd) then []
    else
      var recipient := CreationRecipient(cx, q, st).value.publicKey;
      var job := Single(Base(CreationOf(recipient, q.amountText, q.targetDate)), cx.sessionGroup);
      Emitted(cx.(memo := encrypt(cx.memo, recipient)), job, answers, rnd)
  }

  lemma AllowedIffCreationAccepted(cx: Context, q: CreationRequest, st: L.Store, rnd: D.Rounding)
    ensures CreationAllowed(cx, q, st, rnd) <==>
              && CreationRecipient(cx, q, st).Some?
              && CreationAccepts(cx, q, st, CreationRecipient(cx, q, st).value.publicKey, rnd)
    ensures forall key | CreationAccepts(cx, q, st, key, rnd) ::
              CreationRecipient(cx, q, st).Some? && key == CreationRecipient(cx, q, st).value.publicKey
  {
  }

  lemma CreationSendsCreate(cx: Context, q: CreationRequest, st: L.Store, encrypt: (string, string) -> string,
                            answers: (Answers, Answers), rnd: D.Rounding)
    requires CreationAllowed(cx, q, st, rnd)
    ensures var key := CreationRecipient(cx, q, st).value.publicKey;
      CreatesFor(CreationSends(cx, q, st, encrypt, answers, rnd), cx, q, key, encrypt(cx.memo, key))
  {
    var key := CreationRecipient(cx, q, st).value.publicKey;
    var payload := CreationOf(key, q.amountText, q.targetDate);
    EmittedIsMessages(cx.(memo := encrypt(cx.memo, key)), payload, cx.sessionGroup, cx.sessionGroup, answers, rnd);
  }

  class JsonCreationTransaction {
    constructor () {}

    /** Everything that is looked up and compared before the send; the result is the recipient's key. */
    method Check(cx: Context, q: CreationRequest, st: L.Store, rnd: D.Rounding) returns (r: Result<string, Error>)
      ensures r.Ok? <==> CreationAllowed(cx, q, st, rnd)
      ensures r.Ok? ==> CreationAccepts(cx, q, st, r.value, rnd)
      ensures r.Err? ==> !IsSendError(r.error)
      ensures r == Err(CapExceeded) <==>
                && CreationRecipient(cx, q, st).Some? && !cx.archive
                && var key := CreationRecipient(cx, q, st).value.publicKey;
                   && HumanWithNumbers(cx, q, key)
                   && rnd(rnd(SumBefore(cx, q, key).value.value) + rnd(q.amount.value)) > 1000.0
    {
      var recipientUser := LoadUser(st.users, q.recipientName, cx.sessionGroupId);
      if recipientUser.None? {
        return Err(UnknownRecipient);
      }
      var recipientPublicKey := recipientUser.value.publicKey;
      if !cx.archive {
        var addressType := q.addressType(recipientPublicKey, cx.sessionGroup);
        if addressType.None? {
          return Err(NodeFailed);
        }
        if addressType.value != Human {
          if addressType.value == NoAddress {
            return Err(NotRegistered);
          }
          return Err(WrongAddressType);
        }
        var reported := q.monthSum(recipientPublicKey, cx.sessionGroup, q.targetDate);
        if reported.None? || reported.value.None? {
          return Err(NodeFailed);
        }
        var sum := rnd(reported.value.value);
        if q.amount.None? {
          return Err(BadNumber);
        }
        var amount := rnd(q.amount.value);
        sum := rnd(sum + amount);
        if sum > C.CAP {
          return Err(CapExceeded);
        }
      }
      r := Ok(recipientPublicKey);
    }

    method Handle(cx: Context, q: CreationRequest, st: L.Store, encrypt: (string, string) -> string, world: Connector,
                  answers: (Answers, Answers), rnd: D.Rounding) returns (reply: Reply)
      requires world.pending.Valid()
      modifies world, world.pending
      ensures world.pending.Valid()
      ensures var out := CreationSends(cx, q, st, encrypt, answers, rnd);
        && world.sent == old(world.sent) + out
        && world.pending.log == old(world.pending.log) + Records(cx, out, answers)
        && (reply.Success? <==> |out| == 1)
      ensures Refused(reply) <==> forall key :: !CreationAccepts(cx, q, st, key, rnd)
      ensures Refused(reply) ==> world.sent == old(world.sent) && world.pending.log == old(world.pending.log)
      ensures forall key | CreationAccepts(cx, q, st, key, rnd) ::
                CreatesFor(Added(old(world.sent), world.sent), cx, q, key, encrypt(cx.memo, key))
      ensures reply.Success? ==> world.sent != [] && reply.iotaMessageId == world.sent[|world.sent| - 1].id
      ensures reply == Failed(CapExceeded) <==>
                && CreationRecipient(cx, q, st).Some? && !cx.archive
                && var key := CreationRecipient(cx, q, st).value.publicKey;
                   && HumanWithNumbers(cx, q, key)
                   && rnd(rnd(SumBefore(cx, q, key).value.value) + rnd(q.amount.value)) > 1000.0
    {
      AllowedIffCreationAccepted(cx, q, st, rnd);
      var checked := Check(cx, q, st, rnd);
      if checked.Err? {
        return Failed(checked.error);
      }
      AddedBehind(world.sent, CreationSends(cx, q, st, encrypt, answers, rnd));
      CreationSendsCreate(cx, q, st, encrypt, answers, rnd);
      var recipientPublicKey := checked.value;
      var context := cx.(memo := encrypt(cx.memo, recipientPublicKey));
      var creation := Base(CreationOf(recipientPublicKey, q.amountText, q.targetDate));
      reply := world.SendJob(context, Single(creation, cx.sessionGroup), answers, rnd);
    }
  }

  // ---- what an alias can stop ----------------------------------------------

  /** A move is never stopped by an alias: its handler has checked both before the first send. */
  lemma MovesAreNotStoppedByAliases(cx: Context, q: RegisterRequest, txids: (string, string) -> Option<nat>,
                                    answers: (Answers, Answers), rnd: D.Rounding)
    requires RegisterAllowed(cx, q, txids) && Moving(q) && JobIsWell(cx, RegisterJobOf(cx, q), answers, rnd)
    ensures |RegisterSends(cx, q, txids, answers, rnd)| == 2
  {
    StopsBetweenIffAliasInvalid(cx, RegisterJobOf(cx, q), answers, rnd);
  }

  /** A transfer to another group that the handler lets through, and nothing fails but what an alias can stop. */
  predicate CrossGroupAndWell(cx: Context, q: TransferRequest, st: L.Store,
                              answers: (Answers, Answers), rnd: D.Rounding)
  {
    && TransferAllowed(cx, q, st, rnd) && ValidAlias(cx.sessionGroup) && RecipientGroup(cx, q) != cx.sessionGroup
    && JobIsWell(cx, TransferJobOf(cx, q, st), answers, rnd)
  }

  /**
   A transfer to another group, let through by its handler, gets only its outbound
   half out exactly when the recipient's alias is not valid, that is, when it is
   not written as in the row it finds; otherwise both halves go out.
   */
  lemma TransferIsCutIffAliasInvalid(cx: Context, q: TransferRequest, st: L.Store, encrypt: (string, string) -> string,
                                     answers: (Answers, Answers), rnd: D.Rounding)
    requires CrossGroupAndWell(cx, q, st, answers, rnd)
    ensures var out := TransferSends(cx, q, st, encrypt, answers, rnd);
      && (|out| == 1 <==> !ValidAlias(q.recipientGroupAlias))
      && (|out| == 2 <==> ValidAlias(q.recipientGroupAlias))
    ensures AliasesStoredValid(st.groups) ==>
              (ValidAlias(q.recipientGroupAlias)
               <==> q.recipientGroupAlias == L.FindGroup(st.groups, q.recipientGroupAlias).value.groupAlias)
  {
    var context := cx.(memo := encrypt(cx.memo, RecipientOf(cx, q, st).value.publicKey));
    StopsBetweenIffAliasInvalid(context, TransferJobOf(cx, q, st), answers, rnd);
    if AliasesStoredValid(st.groups) { FoundAliasIsValidIffExact(st.groups, q.recipientGroupAlias); }
  }

  /**
   A transfer that completes, asked for again with its alias in other upper and lower
   case, finds the same recipient. If the node knows the recipient under that spelling
   too, or is not asked, only the outbound half goes out; otherwise nothing does. The
   second call has its own answers.
   */
  lemma OtherSpellingCutsTransfer(cx: Context, q: TransferRequest, spelling: string, st: L.Store,
                                  encrypt: (string, string) -> string, answers: (Answers, Answers),
                                  answers': (Answers, Answers), rnd: D.Rounding)
    requires CrossGroupAndWell(cx, q, st, answers, rnd) && AliasesStoredValid(st.groups)
    requires ValidAlias(q.recipientGroupAlias) && OtherSpelling(spelling, q.recipientGroupAlias)
    requires JobIsWell(cx, TransferJobOf(cx, q, st).(to := spelling), answers', rnd)
    ensures var q' := q.(recipientGroupAlias := spelling);
      && RecipientOf(cx, q', st) == RecipientOf(cx, q, st)
      && (TransferAllowed(cx, q', st, rnd)
          <==> cx.archive || RegisteredUnder(q, RecipientOf(cx, q, st).value.publicKey, spelling))
      && |TransferSends(cx, q, st, encrypt, answers, rnd)| == 2
      && |TransferSends(cx, q', st, encrypt, answers', rnd)|
           == if cx.archive || RegisteredUnder(q, RecipientOf(cx, q, st).value.publicKey, spelling) then 1 else 0
  {
    var q' := q.(recipientGroupAlias := spelling);
    OtherSpellingIsFound(st.groups, spelling, q.recipientGroupAlias);
    assert spelling != "";
    TransferIsCutIffAliasInvalid(cx, q, st, encrypt, answers, rnd);
    if TransferAllowed(cx, q', st, rnd) {
      assert TransferJobOf(cx, q', st) == TransferJobOf(cx, q, st).(to := spelling);
      TransferIsCutIffAliasInvalid(cx, q', st, encrypt, answers', rnd);
    }
  }
}
