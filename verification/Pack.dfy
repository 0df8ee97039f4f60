/**
 /packtransaction: the same transactions as the sending handlers build, unsigned
 and as base64, all of them or none.
 */
module Pack {
  import opened Common
  import opened Encoding
  import opened Transactions

  /** A transaction and the group it is for; "" when the caller did not say. */
  datatype Packed = Packed(tx: Tx, groupAlias: string)

  datatype PackedEntry = PackedEntry(groupAlias: Option<string>, bodyBytesBase64: string)

  datatype Error = InvalidTransaction(tx: Tx) | CannotSerialize

  /** Two halves of one base transaction, outbound first, each naming the group of the other. */
  predicate Halves(transactions: seq<Packed>, base: Tx) {
    && |transactions| == 2
    && transactions[0].tx.direction.Outbound? && transactions[1].tx.direction.Inbound?
    && (forall k :: 0 <= k < 2 ==>
          && transactions[k].tx.payload == base.payload
          && transactions[k].tx.parentMessageId == base.parentMessageId
          && transactions[k].tx.otherGroup == transactions[1 - k].groupAlias)
  }

  /** A pair as soon as both aliases are given, also when they are equal. */
  method PackPair(base: Tx, firstAlias: string, secondAlias: string) returns (transactions: seq<Packed>)
    ensures firstAlias != "" && secondAlias != "" <==> |transactions| == 2
    ensures |transactions| == 2 ==>
              && Halves(transactions, base)
              && transactions[0].groupAlias == firstAlias && transactions[1].groupAlias == secondAlias
    ensures |transactions| != 2 ==> transactions == [Packed(base, "")]
    ensures transactions == PairFor(base, firstAlias, secondAlias)
  {
    transactions := [];
    if |firstAlias| > 0 && |secondAlias| > 0 {
      transactions := transactions + [Packed(CreateOutbound(base, secondAlias), firstAlias)];
      transactions := transactions + [Packed(CreateInbound(base, firstAlias), secondAlias)];
    } else {
      transactions := transactions + [Packed(base, "")];
    }
  }

  function PairFor(base: Tx, firstAlias: string, secondAlias: string): seq<Packed> {
    if firstAlias != "" && secondAlias != "" then
      [Packed(CreateOutbound(base, secondAlias), firstAlias), Packed(CreateInbound(base, firstAlias), secondAlias)]
    else [Packed(base, "")]
  }

  function Stamp(tx: Tx, memo: string, created: int): Tx {
    tx.(memo := memo, created := created)
  }

  function EntryFor(p: Packed, memo: string, created: int, serialize: Tx -> Option<Bytes>): Option<PackedEntry> {
    var bytes := serialize(Stamp(p.tx, memo, created));
    if bytes.None? then None
    else Some(PackedEntry(if p.groupAlias != "" then Some(CStr(p.groupAlias)) else None, EncodeBase64(bytes.value)))
  }

  /**
   The entry is the base64 of the transaction with memo and date of the request, and names
   the group the transaction was packed for, if it was packed for one.
   */
  predicate Answers(entry: PackedEntry, p: Packed, memo: string, created: int, serialize: Tx -> Option<Bytes>) {
    var sent := Tx(p.tx.payload, p.tx.direction, p.tx.otherGroup, p.tx.parentMessageId, memo, created);
    && serialize(sent).Some?
    && DecodeBase64(entry.bodyBytesBase64) == serialize(sent)
    && entry.bodyBytesBase64 == EncodeBase64(serialize(sent).value)
    && (p.groupAlias == "" <==> entry.groupAlias == None)
    && (p.groupAlias != "" ==> entry.groupAlias == Some(CStr(p.groupAlias)))
  }

  lemma EntryAnswers(p: Packed, memo: string, created: int, serialize: Tx -> Option<Bytes>, entry: PackedEntry)
    requires EntryFor(p, memo, created, serialize) == Some(entry)
    ensures Answers(entry, p, memo, created, serialize)
  {
    Base64RoundTrip(serialize(Stamp(p.tx, memo, created)).value);
  }

  /**
   All transactions are answered, in order, or the first one that does not validate
   or serialise decides the error.
   */
  method ResultBase64Transactions(transactions: seq<Packed>, memo: string, created: int,
                                  validate: Tx -> bool, serialize: Tx -> Option<Bytes>)
    returns (r: Result<seq<PackedEntry>, Error>)
    ensures r.Ok? <==>
              forall i :: 0 <= i < |transactions| ==>
                var tx := transactions[i].tx;
                var sent := Tx(tx.payload, tx.direction, tx.otherGroup, tx.parentMessageId, memo, created);
                validate(sent) && serialize(sent).Some?
    ensures r.Ok? <==> forall i :: 0 <= i < |transactions| ==> Good(transactions[i], memo, created, validate, serialize)
    ensures r.Ok? ==>
              && |r.value| == |transactions|
              && forall i :: 0 <= i < |transactions| ==>
                   EntryFor(transactions[i], memo, created, serialize) == Some(r.value[i])
    ensures r.Ok? ==>
              forall i :: 0 <= i < |transactions| ==> Answers(r.value[i], transactions[i], memo, created, serialize)
    ensures r.Err? ==> exists i: nat :: Stops(transactions, i, memo, created, validate, serialize, r.error)
  {
    var entries: seq<PackedEntry> := [];
    for it := 0 to |transactions|
      invariant |entries| == it
      invariant forall i :: 0 <= i < it ==> Good(transactions[i], memo, created, validate, serialize)
      invariant forall i :: 0 <= i < it ==> EntryFor(transactions[i], memo, created, serialize) == Some(entries[i])
    {
      var tx := transactions[it].tx.(memo := memo);
      tx := tx.(created := created);
      if !validate(tx) {
        assert Stops(transactions, it, memo, created, validate, serialize, InvalidTransaction(tx));
        return Err(InvalidTransaction(tx));
      }
      var groupAlias := if |transactions[it].groupAlias| > 0 then Some(CStr(transactions[it].groupAlias)) else None;
      var bytes := serialize(tx);
      if bytes.None? {
        assert Stops(transactions, it, memo, created, validate, serialize, CannotSerialize);
        return Err(CannotSerialize);
      }
      entries := entries + [PackedEntry(groupAlias, EncodeBase64(bytes.value))];
    }
    forall i | 0 <= i < |entries| ensures Answers(entries[i], transactions[i], memo, created, serialize) {
      EntryAnswers(transactions[i], memo, created, serialize, entries[i]);
    }
    r := Ok(entries);
  }

  predicate Good(p: Packed, memo: string, created: int, validate: Tx -> bool, serialize: Tx -> Option<Bytes>) {
    validate(Stamp(p.tx, memo, created)) && serialize(Stamp(p.tx, memo, created)).Some?
  }

  /** Transaction `i` is the first that is not good, and `error` says why. */
  predicate Stops(transactions: seq<Packed>, i: nat, memo: string, created: int,
                  validate: Tx -> bool, serialize: Tx -> Option<Bytes>, error: Error)
  {
    && i < |transactions|
    && (forall j :: 0 <= j < i ==> Good(transactions[j], memo, created, validate, serialize))
    && !Good(transactions[i], memo, created, validate, serialize)
    && error == (if !validate(Stamp(transactions[i].tx, memo, created))
                 then InvalidTransaction(Stamp(transactions[i].tx, memo, created)) else CannotSerialize)
  }

  /**
   What is packed is what a handler would send for its job, group by group, but for
   the parent id; a transaction packed without a group leaves that to the caller.
   */
  predicate AgreesWithHandler(packed: seq<Packed>, job: Job) {
    && |packed| == Parts(job)
    && forall k :: 0 <= k < |packed| ==>
         && packed[k].tx == Part(job, k, "")
         && packed[k].groupAlias == if job.Pair? then PartGroup(job, k) else ""
  }

  predicate FreshBase(base: Tx) {
    base.parentMessageId == "" && base.direction.Local? && base.otherGroup == ""
  }

  /**
   Packing agrees with the handler that registers or moves an address exactly when
   the two aliases are not one and the same: for equal aliases the handler makes one
   transaction, packing two.
   */
  lemma WhenPackAgrees(base: Tx, sessionGroup: string, firstAlias: string, secondAlias: string)
    requires FreshBase(base)
    ensures AgreesWithHandler(PairFor(base, firstAlias, secondAlias),
                              RegisterJob(base, sessionGroup, firstAlias, secondAlias))
            <==> (firstAlias != secondAlias || firstAlias == "")
  {
    var packed, job := PairFor(base, firstAlias, secondAlias), RegisterJob(base, sessionGroup, firstAlias, secondAlias);
    if firstAlias != "" && secondAlias != "" && firstAlias != secondAlias {
      assert packed[0].tx == Part(job, 0, "") && packed[1].tx == Part(job, 1, "");
    }
  }

  /** What the transfer handler makes of a base transaction and the alias it is given. */
  function HandlerTransferJob(base: Tx, sessionGroup: string, recipientAlias: string): Job {
    TransferJob(base, sessionGroup, if recipientAlias != "" then recipientAlias else sessionGroup)
  }

  /**
   Packing a transfer agrees with the transfer handler of a session exactly when it
   makes a pair from the session's group to another one, or makes no pair and the
   recipient is in the session's group.
   */
  lemma WhenPackedTransferAgrees(base: Tx, sessionGroup: string, senderAlias: string, recipientAlias: string)
    requires FreshBase(base)
    ensures AgreesWithHandler(PairFor(base, senderAlias, recipientAlias),
                              HandlerTransferJob(base, sessionGroup, recipientAlias))
            <==> if senderAlias != "" && recipientAlias != ""
                 then senderAlias == sessionGroup && recipientAlias != sessionGroup
                 else recipientAlias == "" || recipientAlias == sessionGroup
  {
    var packed := PairFor(base, senderAlias, recipientAlias);
    var job := HandlerTransferJob(base, sessionGroup, recipientAlias);
    if job.Pair? && |packed| == 2 {
      assert packed[0].groupAlias == senderAlias && PartGroup(job, 0) == sessionGroup;
      if senderAlias == sessionGroup {
        assert packed[0].tx == Part(job, 0, "") && packed[1].tx == Part(job, 1, "");
      }
    }
  }
}
