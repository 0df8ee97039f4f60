/**
 Memos are encrypted under a key both parties can agree on, sent as base64, and
 shown as text again by /listtransactions.
 */
module Memo {
  import opened Common
  import opened Encoding
  import opened ListTransactions

  /** Key agreement and authenticated encryption, as functions. */
  datatype Cipher = Cipher(
    publicOf: Bytes -> PublicKey,
    agree: (Bytes, Bytes) -> Bytes,              // own private key, other public key
    seal: (Bytes, Bytes, string) -> Bytes,       // shared key, nonce, text
    unseal: (Bytes, Bytes) -> Option<string>)    // shared key, cipher text

  /** Both sides agree on one key; what was sealed under a key opens under it; no cipher text is empty. */
  ghost predicate Sound(c: Cipher) {
    && (forall a: Bytes, b: Bytes :: c.agree(a, c.publicOf(b)) == c.agree(b, c.publicOf(a)))
    && (forall k: Bytes, n: Bytes, m: string :: c.unseal(k, c.seal(k, n, m)) == Some(m))
    && (forall k: Bytes, n: Bytes, m: string :: c.seal(k, n, m) != [])
  }

  function EncryptMemo(c: Cipher, memo: string, publicKey: Bytes, privateKey: Bytes, nonce: Bytes): string {
    EncodeBase64(c.seal(c.agree(privateKey, publicKey), nonce, memo))
  }

  function DecryptMemo(c: Cipher, memo: string, publicKey: Bytes, privateKey: Bytes): string {
    var bin := DecodeBase64(memo);
    if bin.None? then ""
    else
      var clear := c.unseal(c.agree(privateKey, publicKey), bin.value);
      if clear.None? then "" else clear.value
  }

  /** Sender and recipient both get the memo back, each with the own private and the other's public key. */
  lemma MemoRoundTrip(c: Cipher, memo: string, sender: Bytes, recipient: Bytes, nonce: Bytes)
    requires Sound(c)
    ensures var sent := EncryptMemo(c, memo, c.publicOf(recipient), sender, nonce);
      && DecryptMemo(c, sent, c.publicOf(sender), recipient) == memo
      && DecryptMemo(c, sent, c.publicOf(recipient), sender) == memo
  {
    var k := c.agree(sender, c.publicOf(recipient));
    Base64RoundTrip(c.seal(k, nonce, memo));
    assert c.agree(recipient, c.publicOf(sender)) == k;
    assert c.unseal(k, c.seal(k, nonce, memo)) == Some(memo);
  }

  /** The linked user a party sees is the other party. */
  function ListedFor(sent: string, otherKey: PublicKey, firstName: Option<string>, typeId: string): Listed {
    Listed(LinkedUser(Some(BinToHex(otherKey)), firstName, None), Some(typeId), Some(sent), "")
  }

  /**
   End to end: a memo encrypted for a transfer is shown by the list handler to
   either party as its text, up to the first NUL; an empty memo stays encrypted.
   */
  lemma ListShowsMemo(c: Cipher, memo: string, own: Bytes, other: Bytes, nonce: Bytes, ownIsSender: bool,
                      firstName: Option<string>, typeId: string, name: Option<string>)
    requires Sound(c)
    ensures var sent := if ownIsSender then EncryptMemo(c, memo, c.publicOf(other), own, nonce)
                        else EncryptMemo(c, memo, c.publicOf(own), other, nonce);
      var tx := ListedFor(sent, c.publicOf(other), firstName, typeId);
      Rewritten(tx, name, (m, key) => DecryptMemo(c, m, key, own)).memo == Some(if memo == "" then sent else CStr(memo))
  {
    var sender, recipient := if ownIsSender then own else other, if ownIsSender then other else own;
    var sent := EncryptMemo(c, memo, c.publicOf(recipient), sender, nonce);
    var sealed := c.seal(c.agree(sender, c.publicOf(recipient)), nonce, memo);
    assert sealed != [];
    EncodingsAreRecognised(sealed);
    HexRoundTrip(c.publicOf(other));
    MemoRoundTrip(c, memo, sender, recipient, nonce);
  }
}
