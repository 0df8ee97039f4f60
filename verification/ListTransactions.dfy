/**
 /listtransactions: user names are looked up for all public keys in one query and
 written into the node's answer, and encrypted memos are replaced by their text.
 */
module ListTransactions {
  import opened Common
  import opened Encoding
  import opened Sql

  datatype LinkedUser = LinkedUser(pubkey: Option<string>, firstName: Option<string>, lastName: Option<string>)

  /** A transaction of the node's answer; a member that is missing is None. */
  datatype Listed = Listed(linkedUser: LinkedUser, typeId: Option<string>, memo: Option<string>, balance: string)

  /** A binary(32) column. */
  type PublicKey = b: Bytes | |b| == 32 witness seq(32, _ => 0)

  datatype KeyRow = KeyRow(publicKey: PublicKey, name: string)

  /** decryptMemo with the session's own key; the empty text when it fails. */
  type Decrypt = (string, Bytes) -> string

  // ---- the lookup ----------------------------------------------------------

  predicate Asked(pubkeysHex: seq<string>, key: string) {
    exists k :: 0 <= k < |pubkeysHex| && SameText(key, pubkeysHex[k])
  }

  /** The first row with this key in hex. */
  function FirstName(rows: seq<KeyRow>, key: string): Option<string> {
    if rows == [] then None
    else if BinToHex(rows[0].publicKey) == key then Some(rows[0].name)
    else FirstName(rows[1..], key)
  }

  function Find(m: map<string, string>, key: string): Option<string> {
    if key in m then Some(m[key]) else None
  }

  /** One query for all keys; the map keeps the first name it is given for a key. */
  method LoadUserNamesForPubkeys(rows: seq<KeyRow>, pubkeysHex: seq<string>) returns (names: map<string, string>)
    ensures forall key :: Find(names, key) == if Asked(pubkeysHex, key) then FirstName(rows, key) else None
  {
    names := map[];
    var found: seq<(string, string)> := [];
    for r := 0 to |rows|
      invariant forall key ::
                  FirstPair(found, key) == if Asked(pubkeysHex, key) then FirstName(rows[..r], key) else None
    {
      var key := BinToHex(rows[r].publicKey);
      assert rows[..r + 1] == rows[..r] + [rows[r]];
      forall k { FirstNamePush(rows[..r], rows[r], k); }
      if Asked(pubkeysHex, key) {
        forall k { FirstPairPush(found, (key, rows[r].name), k); }
        found := found + [(key, rows[r].name)];
      }
    }
    assert rows[..|rows|] == rows;
    for n := 0 to |found|
      invariant forall key :: Find(names, key) == FirstPair(found[..n], key)
    {
      assert found[..n + 1] == found[..n] + [found[n]];
      forall k { FirstPairPush(found[..n], found[n], k); }
      if found[n].0 !in names {
        names := names[found[n].0 := found[n].1];
      }
    }
    assert found[..|found|] == found;
  }

  function FirstPair(pairs: seq<(string, string)>, key: string): Option<string> {
    if pairs == [] then None
    else if pairs[0].0 == key then Some(pairs[0].1)
    else FirstPair(pairs[1..], key)
  }

  lemma {:induction false} FirstPairPush(pairs: seq<(string, string)>, p: (string, string), key: string)
    ensures FirstPair(pairs + [p], key) ==
              if FirstPair(pairs, key).Some? then FirstPair(pairs, key) else if p.0 == key then Some(p.1) else None
  {
    if pairs != [] {
      assert (pairs + [p])[1..] == pairs[1..] + [p];
      FirstPairPush(pairs[1..], p, key);
    }
  }

  lemma {:induction false} FirstNamePush(rows: seq<KeyRow>, r: KeyRow, key: string)
    ensures FirstName(rows + [r], key) ==
              if FirstName(rows, key).Some? then FirstName(rows, key)
              else if BinToHex(r.publicKey) == key then Some(r.name) else None
  {
    if rows != [] {
      assert (rows + [r])[1..] == rows[1..] + [r];
      FirstNamePush(rows[1..], r, key);
    }
  }

  // ---- the keys to ask for -------------------------------------------------

  function PubkeyOf(tx: Listed): string {
    if tx.linkedUser.pubkey.Some? then tx.linkedUser.pubkey.value else ""
  }

  /** The non-empty keys, each at its first occurrence. */
  method CollectPubkeys(txs: seq<Listed>) returns (pubkeys: seq<string>)
    ensures forall i, j :: 0 <= i < j < |pubkeys| ==> pubkeys[i] != pubkeys[j]
    ensures forall p :: p in pubkeys <==> p != "" && exists i :: 0 <= i < |txs| && PubkeyOf(txs[i]) == p
    ensures forall i, j :: 0 <= i < j < |pubkeys| ==> FirstAt(txs, pubkeys[i]) < FirstAt(txs, pubkeys[j])
  {
    pubkeys := [];
    for n := 0 to |txs|
      invariant forall i, j :: 0 <= i < j < |pubkeys| ==> pubkeys[i] != pubkeys[j]
      invariant forall p :: p in pubkeys <==> p != "" && exists i :: 0 <= i < n && PubkeyOf(txs[i]) == p
      invariant forall i, j :: 0 <= i < j < |pubkeys| ==> FirstAt(txs, pubkeys[i]) < FirstAt(txs, pubkeys[j])
      invariant forall i :: 0 <= i < |pubkeys| ==> FirstAt(txs, pubkeys[i]) < n
    {
      var pubkey := PubkeyOf(txs[n]);
      if pubkey != "" {
        if pubkey !in pubkeys {
          FirstAtIs(txs, pubkey, n);
          pubkeys := pubkeys + [pubkey];
        }
      }
    }
  }

  /** The position of the first transaction with this key. */
  function FirstAt(txs: seq<Listed>, pubkey: string): nat {
    if txs == [] || PubkeyOf(txs[0]) == pubkey then 0 else 1 + FirstAt(txs[1..], pubkey)
  }

  lemma {:induction false} FirstAtIs(txs: seq<Listed>, pubkey: string, n: nat)
    requires n < |txs| && PubkeyOf(txs[n]) == pubkey && forall i :: 0 <= i < n ==> PubkeyOf(txs[i]) != pubkey
    ensures FirstAt(txs, pubkey) == n
  {
    if n > 0 {
      assert PubkeyOf(txs[0]) != pubkey;
      FirstAtIs(txs[1..], pubkey, n - 1);
    }
  }

  // ---- the rewriting -------------------------------------------------------

  function IsCreate(tx: Listed): bool {
    tx.typeId.Some? && CStr(tx.typeId.value) == "CREATE"
  }

  function NewFirstName(tx: Listed, name: Option<string>): Option<string> {
    if name.Some? && !IsCreate(tx) then Some(CStr(name.value)) else tx.linkedUser.firstName
  }

  /** The memo is replaced only when it looks encrypted, the key decodes, and decryption gives a text. */
  function NewMemo(tx: Listed, decrypt: Decrypt): Option<string> {
    if tx.memo.None? || tx.typeId.None? then tx.memo
    else
      var memo := CStr(tx.memo.value);
      if !LooksLikeBase64(memo) || HexToBin(PubkeyOf(tx)).None? then tx.memo
      else
        var clear := decrypt(memo, HexToBin(PubkeyOf(tx)).value);
        if clear == "" then tx.memo else Some(CStr(clear))
  }

  /** One transaction, given the name found for its key. */
  function Rewritten(tx: Listed, name: Option<string>, decrypt: Decrypt): Listed {
    tx.(linkedUser := tx.linkedUser.(pubkey := None, firstName := NewFirstName(tx, name)), memo := NewMemo(tx, decrypt))
  }

  predicate SomebodyLinked(txs: seq<Listed>) {
    exists i :: 0 <= i < |txs| && PubkeyOf(txs[i]) != ""
  }

  /** Every transaction rewritten on its own, with a lookup of its own. */
  function OneByOne(txs: seq<Listed>, rows: seq<KeyRow>, decrypt: Decrypt): (r: seq<Listed>)
    ensures |r| == |txs|
  {
    seq(|txs|, i requires 0 <= i < |txs| => Rewritten(txs[i], SingleLookup(rows, PubkeyOf(txs[i])), decrypt))
  }

  // ---- the rewriting, member by member -------------------------------------

  /** Row `r` is the first with this key in hex. */
  predicate IsFirstRow(rows: seq<KeyRow>, key: string, r: nat) {
    && r < |rows| && BinToHex(rows[r].publicKey) == key
    && forall j :: 0 <= j < r ==> BinToHex(rows[j].publicKey) != key
  }

  /** The first name: that of the first row with the key, unless there is none or the transaction is a creation. */
  ghost predicate NamedBy(was: Listed, now: Listed, rows: seq<KeyRow>) {
    if (was.typeId.Some? && CStr(was.typeId.value) == "CREATE")
       || was.linkedUser.pubkey.None?
       || (forall r :: 0 <= r < |rows| ==> BinToHex(rows[r].publicKey) != was.linkedUser.pubkey.value)
    then now.linkedUser.firstName == was.linkedUser.firstName
    else exists r: nat :: IsFirstRow(rows, was.linkedUser.pubkey.value, r)
                          && now.linkedUser.firstName == Some(CStr(rows[r].name))
  }

  /** The memo looks encrypted, the key decodes, and decryption gives this text. */
  predicate ClearMemo(was: Listed, decrypt: Decrypt, clear: string) {
    && was.memo.Some? && was.typeId.Some?
    && CStr(was.memo.value) != "" && MatchesExpression(CStr(was.memo.value))
    && var key := HexToBin(if was.linkedUser.pubkey.Some? then was.linkedUser.pubkey.value else "");
       key.Some? && clear == decrypt(CStr(was.memo.value), key.value) && clear != ""
  }

  /** What has become of one transaction; last name, type and balance are never touched, and the key is removed. */
  ghost predicate RewrittenAs(was: Listed, now: Listed, rows: seq<KeyRow>, decrypt: Decrypt) {
    && now.linkedUser.pubkey == None
    && now.linkedUser.lastName == was.linkedUser.lastName
    && now.typeId == was.typeId && now.balance == was.balance
    && NamedBy(was, now, rows)
    && (forall clear | ClearMemo(was, decrypt, clear) :: now.memo == Some(CStr(clear)))
    && ((forall clear :: !ClearMemo(was, decrypt, clear)) ==> now.memo == was.memo)
  }

  /** As soon as one transaction has a key every transaction is rewritten in its place, and otherwise none is. */
  ghost predicate ListRewrittenAs(was: seq<Listed>, now: seq<Listed>, rows: seq<KeyRow>, decrypt: Decrypt) {
    if exists k :: 0 <= k < |was| && was[k].linkedUser.pubkey != None && was[k].linkedUser.pubkey != Some("")
    then |now| == |was| && forall i :: 0 <= i < |was| ==> RewrittenAs(was[i], now[i], rows, decrypt)
    else now == was
  }

  lemma RewritingIsAs(was: seq<Listed>, now: seq<Listed>, rows: seq<KeyRow>, decrypt: Decrypt)
    requires now == if SomebodyLinked(was) then OneByOne(was, rows, decrypt) else was
    ensures ListRewrittenAs(was, now, rows, decrypt)
  {
    forall i | 0 <= i < |was| ensures RewrittenAs(was[i], OneByOne(was, rows, decrypt)[i], rows, decrypt) {
      RewrittenIsAs(was[i], rows, decrypt);
    }
    if k :| 0 <= k < |was| && was[k].linkedUser.pubkey != None && was[k].linkedUser.pubkey != Some("") {
      assert PubkeyOf(was[k]) != "";
    }
  }

  lemma {:induction false} FirstNameIsFirstRow(rows: seq<KeyRow>, key: string)
    ensures FirstName(rows, key).None? <==> forall r :: 0 <= r < |rows| ==> BinToHex(rows[r].publicKey) != key
    ensures FirstName(rows, key).Some? ==>
              exists r: nat :: IsFirstRow(rows, key, r) && FirstName(rows, key) == Some(rows[r].name)
  {
    if rows != [] {
      if BinToHex(rows[0].publicKey) == key {
        assert IsFirstRow(rows, key, 0);
      } else {
        FirstNameIsFirstRow(rows[1..], key);
        if FirstName(rows, key).Some? {
          var r: nat :| IsFirstRow(rows[1..], key, r) && FirstName(rows, key) == Some(rows[1..][r].name);
          assert forall j :: 0 < j < r + 1 ==> rows[j] == rows[1..][j - 1];
          assert IsFirstRow(rows, key, r + 1);
        } else {
          assert forall j :: 0 < j < |rows| ==> rows[j] == rows[1..][j - 1];
        }
      }
    }
  }

  lemma RewrittenIsAs(tx: Listed, rows: seq<KeyRow>, decrypt: Decrypt)
    ensures RewrittenAs(tx, Rewritten(tx, SingleLookup(rows, PubkeyOf(tx)), decrypt), rows, decrypt)
  {
    SelfAsked([PubkeyOf(tx)], PubkeyOf(tx));
    FirstNameIsFirstRow(rows, PubkeyOf(tx));
    NoEmptyKey(rows);
    MemoIsClear(tx, decrypt);
  }

  lemma MemoIsClear(tx: Listed, decrypt: Decrypt)
    ensures forall clear | ClearMemo(tx, decrypt, clear) :: NewMemo(tx, decrypt) == Some(CStr(clear))
    ensures (forall clear :: !ClearMemo(tx, decrypt, clear)) ==> NewMemo(tx, decrypt) == tx.memo
  {
    if NewMemo(tx, decrypt) != tx.memo {
      var clear := decrypt(CStr(tx.memo.value), HexToBin(PubkeyOf(tx)).value);
      assert ClearMemo(tx, decrypt, clear);
    }
  }

  /**
   The handler's result is the one-by-one result exactly when the list is empty or
   somebody is linked: without any key the early exit leaves the empty `pubkey`
   members in place.
   */
  lemma WhenBatchingAgrees(txs: seq<Listed>, rows: seq<KeyRow>, decrypt: Decrypt)
    requires forall i :: 0 <= i < |txs| ==> txs[i].linkedUser.pubkey.Some?
    ensures ((if SomebodyLinked(txs) then OneByOne(txs, rows, decrypt) else txs) == OneByOne(txs, rows, decrypt))
            <==> (txs == [] || SomebodyLinked(txs))
  {
    if txs != [] && !SomebodyLinked(txs) {
      assert OneByOne(txs, rows, decrypt)[0].linkedUser.pubkey == None;
    }
  }

  /** The handler's two loops over the node's list, which is edited in place. */
  method RewriteList(txs: array<Listed>, rows: seq<KeyRow>, decrypt: Decrypt)
    modifies txs
    ensures ListRewrittenAs(old(txs[..]), txs[..], rows, decrypt)
    ensures txs[..] == if SomebodyLinked(old(txs[..])) then OneByOne(old(txs[..]), rows, decrypt) else old(txs[..])
  {
    ghost var was := txs[..];
    var pubkeys := CollectPubkeys(txs[..]);
    if |pubkeys| == 0 {
      assert forall i :: 0 <= i < |was| && PubkeyOf(was[i]) != "" ==> PubkeyOf(was[i]) in pubkeys;
      RewritingIsAs(was, txs[..], rows, decrypt);
      return;
    }
    assert SomebodyLinked(was) by { assert pubkeys[0] in pubkeys; }
    var names := LoadUserNamesForPubkeys(rows, pubkeys);
    for it := 0 to txs.Length
      invariant forall i :: it <= i < txs.Length ==> txs[i] == was[i]
      invariant forall i :: 0 <= i < it ==> txs[i] == OneByOne(was, rows, decrypt)[i]
    {
      BatchedIsSingle(was, pubkeys, rows, it);
      txs[it] := RewriteOne(txs[it], names, decrypt);
    }
    assert txs[..] == OneByOne(was, rows, decrypt);
    RewritingIsAs(was, txs[..], rows, decrypt);
  }

  /** The body of the second loop. */
  method RewriteOne(listed: Listed, names: map<string, string>, decrypt: Decrypt) returns (tx: Listed)
    ensures tx == Rewritten(listed, Find(names, PubkeyOf(listed)), decrypt)
  {
    var pubkeyHex := PubkeyOf(listed);
    tx := listed.(linkedUser := listed.linkedUser.(pubkey := None));
    if pubkeyHex in names {
      var swapFirstName := true;
      if tx.typeId.Some? {
        if CStr(tx.typeId.value) == "CREATE" { swapFirstName := false; }
      }
      if swapFirstName {
        tx := tx.(linkedUser := tx.linkedUser.(firstName := Some(CStr(names[pubkeyHex]))));
      }
    }
    if tx.memo.Some? && tx.typeId.Some? {
      var memo := CStr(tx.memo.value);
      if LooksLikeBase64(memo) {
        var pubkey := HexToBin(pubkeyHex);
        if pubkey.Some? {
          var clear := decrypt(memo, pubkey.value);
          if clear != "" {
            tx := tx.(memo := Some(CStr(clear)));
          }
        }
      }
    }
  }

  /** Asking for this key alone. */
  function SingleLookup(rows: seq<KeyRow>, key: string): Option<string> {
    if Asked([key], key) then FirstName(rows, key) else None
  }

  lemma SelfAsked(pubkeys: seq<string>, key: string)
    requires key in pubkeys
    ensures Asked(pubkeys, key)
  {
    var k :| 0 <= k < |pubkeys| && pubkeys[k] == key;
    assert SameText(key, pubkeys[k]);
  }

  /** No row has the empty key asked for; any other key of the list is among those asked for. */
  lemma BatchedIsSingle(txs: seq<Listed>, pubkeys: seq<string>, rows: seq<KeyRow>, i: nat)
    requires i < |txs|
    requires forall p :: p in pubkeys <==> p != "" && exists k :: 0 <= k < |txs| && PubkeyOf(txs[k]) == p
    ensures var key := PubkeyOf(txs[i]);
      (if Asked(pubkeys, key) then FirstName(rows, key) else None) == SingleLookup(rows, key)
  {
    var key := PubkeyOf(txs[i]);
    SelfAsked([key], key);
    if key != "" {
      assert key in pubkeys;
      SelfAsked(pubkeys, key);
    } else {
      NoEmptyKey(rows);
    }
  }

  lemma {:induction false} NoEmptyKey(rows: seq<KeyRow>)
    ensures FirstName(rows, "") == None
  {
    if rows != [] {
      assert BinToHex(rows[0].publicKey) != "";
      NoEmptyKey(rows[1..]);
    }
  }
}
