/** Hex and base64 (section 4 of RFC 4648), and the expression that recognises base64. */
module Encoding {
  import opened Common

  type Byte = b: int | 0 <= b < 256

  type Bytes = seq<Byte>

  // ---- base64 --------------------------------------------------------------

  function Digit(v: int): char
    requires 0 <= v < 64
  {
    if v < 26 then ('A' as int + v) as char
    else if v < 52 then ('a' as int + v - 26) as char
    else if v < 62 then ('0' as int + v - 52) as char
    else if v == 62 then '+' else '/'
  }

  function Value(c: char): (v: int)
    ensures -1 <= v < 64
  {
    if 'A' <= c <= 'Z' then c as int - 'A' as int
    else if 'a' <= c <= 'z' then c as int - 'a' as int + 26
    else if '0' <= c <= '9' then c as int - '0' as int + 52
    else if c == '+' then 62 else if c == '/' then 63 else -1
  }

  predicate Alphabet(c: char) {
    Value(c) >= 0
  }

  lemma DigitValue(v: int)
    requires 0 <= v < 64
    ensures Value(Digit(v)) == v && Digit(v) != '=' && Digit(v) != '\0'
  {
  }

  /** Table 1 of RFC 4648. */
  lemma DigitsAreTheTable(v: int)
    requires 0 <= v < 64
    ensures v < 26 ==> Digit(v) == "ABCDEFGHIJKLMNOPQRSTUVWXYZ"[v]
    ensures 26 <= v < 52 ==> Digit(v) == "abcdefghijklmnopqrstuvwxyz"[v - 26]
    ensures 52 <= v ==> Digit(v) == "0123456789+/"[v - 52]
  {
  }

  type Sextet = v: int | 0 <= v < 64

  /** The four groups of six bits in three bytes. */
  function Bits0(x: Byte): Sextet { x / 4 }
  function Bits1(x: Byte, y: Byte): Sextet { x % 4 * 16 + y / 16 }
  function Bits2(y: Byte, z: Byte): Sextet { y % 16 * 4 + z / 64 }
  function Bits3(z: Byte): Sextet { z % 64 }

  function EncodeBase64(bs: Bytes): string {
    if bs == [] then ""
    else if |bs| == 1 then [Digit(Bits0(bs[0])), Digit(Bits1(bs[0], 0)), '=', '=']
    else if |bs| == 2 then [Digit(Bits0(bs[0])), Digit(Bits1(bs[0], bs[1])), Digit(Bits2(bs[1], 0)), '=']
    else
      [Digit(Bits0(bs[0])), Digit(Bits1(bs[0], bs[1])), Digit(Bits2(bs[1], bs[2])), Digit(Bits3(bs[2]))]
      + EncodeBase64(bs[3..])
  }

  /** Padding may end the text and nothing else; the unused bits must be zero. */
  function DecodeBase64(s: string): Option<Bytes> {
    if s == "" then Some([])
    else if |s| < 4 || !Alphabet(s[0]) || !Alphabet(s[1]) then None
    else
      var a, b, c := Value(s[0]), Value(s[1]), Value(s[2]);
      if |s| == 4 && s[2] == '=' && s[3] == '=' then
        if b % 16 == 0 then Some([First(a, b)]) else None
      else if c < 0 then None
      else if |s| == 4 && s[3] == '=' then
        if c % 4 == 0 then Some([First(a, b), Second(b, c)]) else None
      else if !Alphabet(s[3]) then None
      else
        var rest := DecodeBase64(s[4..]);
        if rest.None? then None
        else Some([First(a, b), Second(b, c), Third(c, Value(s[3]))] + rest.value)
  }

  /** Examples of section 10 of RFC 4648: "f", "fo" and "foo". */
  lemma EncodesExamples()
    ensures EncodeBase64([102]) == "Zg==" && EncodeBase64([102, 111]) == "Zm8="
    ensures EncodeBase64([102, 111, 111]) == "Zm9v"
  {
    assert EncodeBase64([102, 111, 111][3..]) == "";
  }

  function First(a: Sextet, b: Sextet): Byte {
    a * 4 + b / 16
  }

  function Second(b: Sextet, c: Sextet): Byte {
    b % 16 * 16 + c / 4
  }

  function Third(c: Sextet, d: Sextet): Byte {
    c % 4 * 64 + d
  }

  lemma FirstJoins(x: Byte, y: Byte)
    ensures First(Bits0(x), Bits1(x, y)) == x
  {
    assert (x % 4 * 16 + y / 16) / 16 == x % 4;
  }

  lemma SecondJoins(x: Byte, y: Byte, z: Byte)
    ensures Second(Bits1(x, y), Bits2(y, z)) == y
  {
    assert (x % 4 * 16 + y / 16) % 16 == y / 16;
    assert (y % 16 * 4 + z / 64) / 4 == y % 16;
  }

  lemma ThirdJoins(y: Byte, z: Byte)
    ensures Third(Bits2(y, z), Bits3(z)) == z
  {
    assert (y % 16 * 4 + z / 64) % 4 == z / 64;
  }

  lemma PaddingBits(x: Byte)
    ensures Bits1(x, 0) % 16 == 0 && Bits2(x, 0) % 4 == 0
  {
    assert x % 4 * 16 % 16 == 0 && x % 16 * 4 % 4 == 0;
  }

  lemma {:induction false} Base64RoundTrip(bs: Bytes)
    ensures DecodeBase64(EncodeBase64(bs)) == Some(bs)
  {
    if |bs| == 1 {
      OneByte(bs);
    } else if |bs| == 2 {
      TwoBytes(bs);
    } else if |bs| > 2 {
      ThreeBytes(bs);
      Base64RoundTrip(bs[3..]);
      assert bs == bs[..3] + bs[3..];
    }
  }

  lemma OneByte(bs: Bytes)
    requires |bs| == 1
    ensures DecodeBase64(EncodeBase64(bs)) == Some(bs)
  {
    FirstJoins(bs[0], 0);
    PaddingBits(bs[0]);
    DigitValue(Bits0(bs[0]));
    DigitValue(Bits1(bs[0], 0));
    assert bs == [bs[0]];
  }

  lemma TwoBytes(bs: Bytes)
    requires |bs| == 2
    ensures DecodeBase64(EncodeBase64(bs)) == Some(bs)
  {
    FirstJoins(bs[0], bs[1]);
    SecondJoins(bs[0], bs[1], 0);
    PaddingBits(bs[1]);
    DigitValue(Bits0(bs[0]));
    DigitValue(Bits1(bs[0], bs[1]));
    DigitValue(Bits2(bs[1], 0));
    assert bs == [bs[0], bs[1]];
  }

  function Prepend(bs: Bytes, rest: Option<Bytes>): Option<Bytes> {
    if rest.None? then None else Some(bs + rest.value)
  }

  /** A full group of four digits decodes to three bytes. */
  lemma FullGroup(s: string, a: Sextet, b: Sextet, c: Sextet, d: Sextet, three: Bytes)
    requires |s| >= 4 && s[2] != '=' && s[3] != '='
    requires Value(s[0]) == a && Value(s[1]) == b && Value(s[2]) == c && Value(s[3]) == d
    requires three == [First(a, b), Second(b, c), Third(c, d)]
    ensures DecodeBase64(s) == Prepend(three, DecodeBase64(s[4..]))
  {
  }

  lemma ThreeBytes(bs: Bytes)
    requires |bs| > 2
    ensures DecodeBase64(EncodeBase64(bs)) == Prepend(bs[..3], DecodeBase64(EncodeBase64(bs[3..])))
  {
    FourDigits(bs);
    GroupDecodes(EncodeBase64(bs), bs);
  }

  lemma GroupDecodes(s: string, bs: Bytes)
    requires |bs| > 2 && IsGroup(s, bs[0], bs[1], bs[2])
    ensures DecodeBase64(s) == Prepend(bs[..3], DecodeBase64(s[4..]))
  {
    Regroup(s, bs[0], bs[1], bs[2]);
    assert bs[..3] == [bs[0], bs[1], bs[2]];
  }

  lemma Regroup(s: string, x: Byte, y: Byte, z: Byte)
    requires IsGroup(s, x, y, z)
    ensures DecodeBase64(s) == Prepend([x, y, z], DecodeBase64(s[4..]))
  {
    FirstJoins(x, y);
    SecondJoins(x, y, z);
    ThirdJoins(y, z);
    FullGroup(s, Bits0(x), Bits1(x, y), Bits2(y, z), Bits3(z), [x, y, z]);
  }

  /** `s` starts with the four digits of three bytes. */
  predicate IsGroup(s: string, x: Byte, y: Byte, z: Byte) {
    && |s| >= 4 && s[2] != '=' && s[3] != '='
    && Value(s[0]) == Bits0(x) && Value(s[1]) == Bits1(x, y) && Value(s[2]) == Bits2(y, z) && Value(s[3]) == Bits3(z)
  }

  lemma FourDigits(bs: Bytes)
    requires |bs| > 2
    ensures var s := EncodeBase64(bs);
      && IsGroup(s, bs[0], bs[1], bs[2])
      && '\0' !in s[..4] && AllAlphabet(s, 4)
      && s[4..] == EncodeBase64(bs[3..])
  {
    DigitValue(Bits0(bs[0]));
    DigitValue(Bits1(bs[0], bs[1]));
    DigitValue(Bits2(bs[1], bs[2]));
    DigitValue(Bits3(bs[2]));
  }

  // ---- the recogniser ------------------------------------------------------

  /** The first `n` characters are in the alphabet. */
  predicate AllAlphabet(s: string, n: nat) {
    n <= |s| && forall i :: 0 <= i < n ==> Alphabet(s[i])
  }

  /** Three, two or one characters of the alphabet, filled up with `=`. */
  predicate Tail(s: string) {
    && |s| == 4
    && (|| (AllAlphabet(s, 3) && s[3] == '=')
        || (AllAlphabet(s, 2) && s[2] == '=' && s[3] == '=')
        || (AllAlphabet(s, 1) && s[1] == '=' && s[2] == '=' && s[3] == '='))
  }

  predicate MatchesExpression(s: string) {
    || s == ""
    || Tail(s)
    || (AllAlphabet(s, 4) && MatchesExpression(s[4..]))
  }

  /** A complete and non-empty match. */
  predicate LooksLikeBase64(s: string) {
    s != "" && MatchesExpression(s)
  }

  /** `p` characters of padding at the end, and only the alphabet before them. */
  predicate PaddedBy(s: string, p: nat) {
    p <= |s| && AllAlphabet(s, |s| - p) && forall i :: |s| - p <= i < |s| ==> s[i] == '='
  }

  /** The expression takes exactly the texts in groups of four with up to three `=` at the end. */
  lemma {:induction false} RecogniserIsExact(s: string)
    ensures MatchesExpression(s) <==> |s| % 4 == 0 && exists p: nat :: p <= 3 && PaddedBy(s, p)
  {
    if |s| <= 4 {
      if s == "" { assert PaddedBy(s, 0); }
      if |s| == 4 { FourIsExact(s); }
    } else {
      RecogniserIsExact(s[4..]);
      forall p: nat | p <= 3 && |s| % 4 == 0 ensures PaddedBy(s, p) <==> AllAlphabet(s, 4) && PaddedBy(s[4..], p) {
        PaddingShift(s, p);
      }
    }
  }

  lemma PaddingShift(s: string, p: nat)
    requires |s| > 4 && p <= 3 && |s| % 4 == 0
    ensures PaddedBy(s, p) <==> AllAlphabet(s, 4) && PaddedBy(s[4..], p)
  {
    var rest := s[4..];
    assert forall i :: 4 <= i < |s| ==> s[i] == rest[i - 4];
    assert forall i :: 0 <= i < |rest| ==> rest[i] == s[i + 4];
  }

  lemma FourIsExact(s: string)
    requires |s| == 4
    ensures MatchesExpression(s) <==> exists p: nat :: p <= 3 && PaddedBy(s, p)
  {
    assert s[4..] == "";
    assert PaddedBy(s, 0) <==> AllAlphabet(s, 4);
    assert PaddedBy(s, 1) <==> AllAlphabet(s, 3) && s[3] == '=';
    assert PaddedBy(s, 2) <==> AllAlphabet(s, 2) && s[2] == '=' && s[3] == '=';
    assert PaddedBy(s, 3) <==> AllAlphabet(s, 1) && s[1] == '=' && s[2] == '=' && s[3] == '=';
  }

  /** Every encoding of at least one byte is recognised, and none contains a NUL. */
  lemma {:induction false} EncodingsAreRecognised(bs: Bytes)
    ensures bs != [] ==> LooksLikeBase64(EncodeBase64(bs))
    ensures MatchesExpression(EncodeBase64(bs)) && '\0' !in EncodeBase64(bs)
    ensures CStr(EncodeBase64(bs)) == EncodeBase64(bs)
  {
    if |bs| == 1 {
      DigitValue(Bits0(bs[0]));
      DigitValue(Bits1(bs[0], 0));
    } else if |bs| == 2 {
      DigitValue(Bits0(bs[0]));
      DigitValue(Bits1(bs[0], bs[1]));
      DigitValue(Bits2(bs[1], 0));
    } else if |bs| > 2 {
      FourDigits(bs);
      var s := EncodeBase64(bs);
      assert s == s[..4] + s[4..];
      EncodingsAreRecognised(bs[3..]);
    }
  }

  // ---- which recognised texts are encodings --------------------------------

  /** Padding of at most two characters, and no bits left over in the digit before it. */
  predicate Clean(s: string) {
    var n := |s|;
    && !(n >= 3 && s[n - 3] == '=' && s[n - 2] == '=' && s[n - 1] == '=')
    && (n >= 3 && s[n - 2] == '=' && s[n - 1] == '=' ==> Value(s[n - 3]) % 16 == 0)
    && (n >= 2 && s[n - 2] != '=' && s[n - 1] == '=' ==> Value(s[n - 2]) % 4 == 0)
  }

  lemma ValueDigit(c: char)
    requires Alphabet(c)
    ensures Digit(Value(c)) == c
  {
  }

  /** The four digits of three bytes put together from four digits are these digits again. */
  lemma GroupSplits(a: Sextet, b: Sextet, c: Sextet, d: Sextet)
    ensures Bits0(First(a, b)) == a && Bits1(First(a, b), Second(b, c)) == b
    ensures Bits2(Second(b, c), Third(c, d)) == c && Bits3(Third(c, d)) == d
    ensures b % 16 == 0 ==> Bits1(First(a, b), 0) == b
    ensures c % 4 == 0 ==> Bits2(Second(b, c), 0) == c
  {
    assert (a * 4 + b / 16) / 4 == a && (a * 4 + b / 16) % 4 == b / 16;
    assert (b % 16 * 16 + c / 4) / 16 == b % 16 && (b % 16 * 16 + c / 4) % 16 == c / 4;
    assert (c % 4 * 64 + d) / 64 == c % 4 && (c % 4 * 64 + d) % 64 == d;
  }

  /** A text that decodes is the encoding of what it decodes to. */
  lemma {:induction false} DecodedEncodes(s: string)
    requires DecodeBase64(s).Some?
    ensures EncodeBase64(DecodeBase64(s).value) == s
  {
    if s == "" {
    } else if |s| == 4 && s[2] == '=' && s[3] == '=' {
      TwoPadded(s);
    } else if |s| == 4 && s[3] == '=' {
      OnePadded(s);
    } else {
      DecodableStarts(s);
      DecodedEncodes(s[4..]);
      GroupEncodes(s, Value(s[0]), Value(s[1]), Value(s[2]), Value(s[3]), DecodeBase64(s[4..]).value);
    }
  }

  /** What a decodable text starts with. */
  lemma DecodableStarts(s: string)
    requires s != "" && DecodeBase64(s).Some?
    ensures |s| >= 4 && Alphabet(s[0]) && Alphabet(s[1])
    ensures s[2] != '=' ==> Alphabet(s[2])
    ensures s[2] != '=' && s[3] != '=' ==> Alphabet(s[3]) && DecodeBase64(s[4..]).Some?
  {
  }

  lemma TwoPadsDecode(s: string, a: Sextet, b: Sextet)
    requires |s| == 4 && Value(s[0]) == a && Value(s[1]) == b && s[2] == '=' && s[3] == '='
    ensures DecodeBase64(s) == if b % 16 == 0 then Some([First(a, b)]) else None
  {
  }

  lemma TwoPadsEncode(s: string, a: Sextet, b: Sextet)
    requires |s| == 4 && Value(s[0]) == a && Value(s[1]) == b && s[2] == '=' && s[3] == '='
    requires b % 16 == 0
    ensures EncodeBase64([First(a, b)]) == s
  {
    var x := First(a, b);
    assert Bits0(x) == a && Bits1(x, 0) == b by { GroupSplits(a, b, 0, 0); }
    ValueDigit(s[0]);
    ValueDigit(s[1]);
    assert s == [s[0], s[1], '=', '='];
  }

  lemma TwoPadded(s: string)
    requires |s| == 4 && s[2] == '=' && s[3] == '=' && DecodeBase64(s).Some?
    ensures EncodeBase64(DecodeBase64(s).value) == s
  {
    DecodableStarts(s);
    var a, b := Value(s[0]), Value(s[1]);
    TwoPadsDecode(s, a, b);
    TwoPadsEncode(s, a, b);
  }

  lemma OnePadDecodes(s: string, a: Sextet, b: Sextet, c: Sextet)
    requires |s| == 4 && Value(s[0]) == a && Value(s[1]) == b && Value(s[2]) == c && s[3] == '='
    ensures DecodeBase64(s) == if c % 4 == 0 then Some([First(a, b), Second(b, c)]) else None
  {
  }

  lemma OnePadded(s: string)
    requires |s| == 4 && s[2] != '=' && s[3] == '=' && DecodeBase64(s).Some?
    ensures EncodeBase64(DecodeBase64(s).value) == s
  {
    DecodableStarts(s);
    var a, b, c := Value(s[0]), Value(s[1]), Value(s[2]);
    OnePadDecodes(s, a, b, c);
    GroupSplits(a, b, c, 0);
    ValueDigit(s[0]);
    ValueDigit(s[1]);
    ValueDigit(s[2]);
    assert EncodeBase64([First(a, b), Second(b, c)]) == [s[0], s[1], s[2], '='] == s;
  }

  lemma EncodeGroup(x: Byte, y: Byte, z: Byte, rest: Bytes)
    ensures EncodeBase64([x, y, z] + rest) ==
              [Digit(Bits0(x)), Digit(Bits1(x, y)), Digit(Bits2(y, z)), Digit(Bits3(z))] + EncodeBase64(rest)
  {
    var bs := [x, y, z] + rest;
    assert bs[3..] == rest;
  }

  lemma GroupEncodes(s: string, a: Sextet, b: Sextet, c: Sextet, d: Sextet, rest: Bytes)
    requires |s| >= 4 && s[2] != '=' && s[3] != '='
    requires Value(s[0]) == a && Value(s[1]) == b && Value(s[2]) == c && Value(s[3]) == d
    requires DecodeBase64(s[4..]) == Some(rest) && EncodeBase64(rest) == s[4..]
    ensures DecodeBase64(s).Some? && EncodeBase64(DecodeBase64(s).value) == s
  {
    var x, y, z := First(a, b), Second(b, c), Third(c, d);
    FullGroup(s, a, b, c, d, [x, y, z]);
    EncodeGroup(x, y, z, rest);
    GroupSplits(a, b, c, d);
    ValueDigit(s[0]);
    ValueDigit(s[1]);
    ValueDigit(s[2]);
    ValueDigit(s[3]);
    assert s == [s[0], s[1], s[2], s[3]] + s[4..];
  }

  /** What decodes is recognised and clean, and nothing else decodes. */
  lemma {:induction false} DecodesIffClean(s: string)
    ensures DecodeBase64(s).Some? <==> MatchesExpression(s) && Clean(s)
  {
    if |s| > 4 && AllAlphabet(s, 4) {
      var rest := s[4..];
      DecodesIffClean(rest);
      if MatchesExpression(rest) { CleanShift(s); }
    } else if |s| == 4 && AllAlphabet(s, 4) {
      assert s[4..] == "";
    }
  }

  lemma CleanShift(s: string)
    requires |s| > 4 && AllAlphabet(s, 4) && MatchesExpression(s[4..])
    ensures Clean(s) <==> Clean(s[4..])
  {
    RecogniserIsExact(s[4..]);
    var n := |s|;
    assert s[n - 1] == s[4..][n - 5] && s[n - 2] == s[4..][n - 6] && s[n - 3] == s[4..][n - 7];
  }

  /** The recognised texts that are the encoding of some bytes are exactly the clean ones. */
  lemma EncodingIffRecognisedAndClean(s: string)
    ensures (exists bs: Bytes :: EncodeBase64(bs) == s) <==> MatchesExpression(s) && Clean(s)
  {
    DecodesIffClean(s);
    if DecodeBase64(s).Some? {
      DecodedEncodes(s);
    }
    if bs: Bytes :| EncodeBase64(bs) == s {
      Base64RoundTrip(bs);
    }
  }

  /**
   So the expression takes more than the encodings: three `=`, and two or one after
   a digit with bits left over.
   */
  lemma RecognisedButNoEncoding(bs: Bytes)
    ensures LooksLikeBase64("A===") && EncodeBase64(bs) != "A==="
    ensures LooksLikeBase64("AB==") && EncodeBase64(bs) != "AB=="
    ensures LooksLikeBase64("AAB=") && EncodeBase64(bs) != "AAB="
  {
    Base64RoundTrip(bs);
    DecodesIffClean("A===");
    DecodesIffClean("AB==");
    DecodesIffClean("AAB=");
  }

  // ---- hex -----------------------------------------------------------------

  function HexDigit(v: int): char
    requires 0 <= v < 16
  {
    if v < 10 then ('0' as int + v) as char else ('a' as int + v - 10) as char
  }

  lemma HexDigitsAreLowerCase(v: int)
    requires 0 <= v < 16
    ensures HexDigit(v) == "0123456789abcdef"[v]
  {
  }

  function HexValue(c: char): (v: int)
    ensures -1 <= v < 16
  {
    if '0' <= c <= '9' then c as int - '0' as int
    else if 'a' <= c <= 'f' then c as int - 'a' as int + 10
    else if 'A' <= c <= 'F' then c as int - 'A' as int + 10
    else -1
  }

  function BinToHex(bs: Bytes): string {
    if bs == [] then "" else [HexDigit(bs[0] / 16), HexDigit(bs[0] % 16)] + BinToHex(bs[1..])
  }

  function HexToBin(s: string): Option<Bytes> {
    if s == "" then Some([])
    else if |s| == 1 || HexValue(s[0]) < 0 || HexValue(s[1]) < 0 then None
    else
      var rest := HexToBin(s[2..]);
      if rest.None? then None else Some([HexValue(s[0]) * 16 + HexValue(s[1])] + rest.value)
  }

  lemma {:induction false} HexRoundTrip(bs: Bytes)
    ensures HexToBin(BinToHex(bs)) == Some(bs)
  {
    if bs != [] {
      var s := BinToHex(bs);
      assert s[2..] == BinToHex(bs[1..]);
      assert HexValue(HexDigit(bs[0] / 16)) == bs[0] / 16;
      assert HexValue(HexDigit(bs[0] % 16)) == bs[0] % 16;
      HexRoundTrip(bs[1..]);
      assert bs == [bs[0]] + bs[1..];
    }
  }
}
