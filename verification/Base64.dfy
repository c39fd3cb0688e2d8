/** Base64 (section 4 of RFC 4648) as the repository uses it: Buffer's encoder
    and decoder, the text check of src/protocol/canonical.ts, and the length
    formulas repeated next to every budget. */
module Base64 {
  import opened Basics

  const PAD: CodeUnit := 0x3d

  function Char(n: nat): CodeUnit
    requires n < 64
  {
    if n < 26 then 0x41 + n
    else if n < 52 then 0x61 + n - 26
    else if n < 62 then 0x30 + n - 52
    else if n == 62 then 0x2b else 0x2f
  }

  predicate IsChar(c: CodeUnit) {
    0x41 <= c <= 0x5a || 0x61 <= c <= 0x7a || 0x30 <= c <= 0x39 || c == 0x2b || c == 0x2f
  }

  function Sextet(c: CodeUnit): (n: nat)
    requires IsChar(c)
    ensures n < 64 && Char(n) == c
  {
    if 0x41 <= c <= 0x5a then c - 0x41
    else if 0x61 <= c <= 0x7a then c - 0x61 + 26
    else if 0x30 <= c <= 0x39 then c - 0x30 + 52
    else if c == 0x2b then 62 else 63
  }

  const CAPITALS := "ABCDEFGHIJKLMNOPQRSTUVWXYZ"
  const SMALL := "abcdefghijklmnopqrstuvwxyz"
  const DIGITS := "0123456789+/"

  /** Table 1 of RFC 4648. */
  lemma CharIs(n: nat)
    requires n < 64
    ensures Char(n) ==
            (if n < 26 then CAPITALS[n] else if n < 52 then SMALL[n - 26] else DIGITS[n - 52]) as int
  {
  }

  lemma SextetOfChar(n: nat)
    requires n < 64
    ensures IsChar(Char(n)) && Sextet(Char(n)) == n && Char(n) != PAD
  {
  }

  // ----- Encoding -----

  /** One full group, or a last one of one or two bytes. */
  function Group(s: seq<byte>): (t: Text)
    requires 1 <= |s| <= 3
    ensures |t| == 4
  {
    var b1 := if |s| > 1 then s[1] else 0;
    var b2 := if |s| > 2 then s[2] else 0;
    [Char(s[0] / 4), Char(s[0] % 4 * 16 + b1 / 16),
     if |s| > 1 then Char(b1 % 16 * 4 + b2 / 64) else PAD,
     if |s| > 2 then Char(b2 % 64) else PAD]
  }

  function Encode(s: seq<byte>): Text {
    if s == [] then [] else if |s| <= 3 then Group(s) else Group(s[..3]) + Encode(s[3..])
  }

  /** Buffer.toString("base64") emits four characters per started group. */
  lemma {:induction false} EncodedLength(s: seq<byte>)
    ensures |Encode(s)| == (|s| + 2) / 3 * 4
  {
    if |s| > 3 {
      EncodedLength(s[3..]);
    }
  }

  /** Encoding piecewise is encoding the whole, as long as every piece but the
      last is a whole number of groups. */
  lemma {:induction false} EncodeConcatenation(a: seq<byte>, b: seq<byte>)
    requires |a| % 3 == 0
    ensures Encode(a + b) == Encode(a) + Encode(b)
  {
    if a == [] {
      assert a + b == b;
    } else {
      EncodeConcatenation(a[3..], b);
      EncodeFirst(a, b);
    }
  }

  lemma EncodeFirst(a: seq<byte>, b: seq<byte>)
    requires |a| >= 3 && |a| % 3 == 0
    ensures Encode(a) == Group(a[..3]) + Encode(a[3..])
    ensures Encode(a + b) == Group(a[..3]) + Encode(a[3..] + b)
  {
    assert (a + b)[..3] == a[..3];
    assert (a + b)[3..] == a[3..] + b;
    if |a| == 3 {
      assert a[..3] == a;
      if b == [] {
        assert a + b == a;
      }
    }
  }

  // ----- Decoding -----

  function Padding(t: Text): nat {
    if t == [] || t[|t| - 1] != PAD then 0 else if |t| >= 2 && t[|t| - 2] == PAD then 2 else 1
  }

  /** isCanonicalBase64Text: whole quartets of the alphabet, padded at the end
      only. It does not look at the bits under the padding. */
  predicate IsText(t: Text) {
    |t| % 4 == 0 && forall i :: 0 <= i < |t| - Padding(t) ==> IsChar(t[i])
  }

  function Ungroup(t: Text): seq<byte>
    requires |t| == 4 && IsText(t)
  {
    var pad := Padding(t);
    var n0, n1 := Sextet(t[0]), Sextet(t[1]);
    var n2 := if pad < 2 then Sextet(t[2]) else 0;
    var n3 := if pad < 1 then Sextet(t[3]) else 0;
    [n0 * 4 + n1 / 16]
    + (if pad < 2 then [n1 % 16 * 16 + n2 / 4] else [])
    + (if pad < 1 then [n2 % 4 * 64 + n3] else [])
  }

  lemma TextSplit(t: Text)
    requires IsText(t) && |t| > 4
    ensures IsText(t[..4]) && Padding(t[..4]) == 0
    ensures IsText(t[4..]) && Padding(t[4..]) == Padding(t)
  {
    assert IsChar(t[3]);
    forall i | 0 <= i < |t[4..]| - Padding(t) ensures IsChar(t[4..][i]) {
      assert t[4..][i] == t[i + 4];
    }
  }

  /** Buffer.from(t, "base64") on text that passed the check. */
  function Decode(t: Text): seq<byte>
    requires IsText(t)
  {
    if t == [] then []
    else if |t| == 4 then Ungroup(t)
    else
      TextSplit(t);
      Ungroup(t[..4]) + Decode(t[4..])
  }

  /** decodedBase64Length and its copies. */
  function DecodedLength(t: Text): int {
    if |t| == 0 then 0 else |t| / 4 * 3 - Padding(t)
  }

  /** The length formula is exact on every text that passes the check. */
  lemma {:induction false} DecodedLengthExact(t: Text)
    requires IsText(t)
    ensures |Decode(t)| == DecodedLength(t)
  {
    if |t| > 4 {
      TextSplit(t);
      DecodedLengthExact(t[4..]);
    }
  }

  lemma UngroupGroup(s: seq<byte>)
    requires 1 <= |s| <= 3
    ensures IsText(Group(s)) && Padding(Group(s)) == 3 - |s| && Ungroup(Group(s)) == s
  {
    hide Char, IsChar, Sextet;
    var b1 := if |s| > 1 then s[1] else 0;
    var b2 := if |s| > 2 then s[2] else 0;
    SextetOfChar(s[0] / 4);
    SextetOfChar(s[0] % 4 * 16 + b1 / 16);
    SextetOfChar(b1 % 16 * 4 + b2 / 64);
    SextetOfChar(b2 % 64);
    Regroup(s[0], b1, b2);
  }

  /** The four sextets hold the bits of the three bytes. */
  lemma Regroup(a: byte, b: byte, c: byte)
    ensures a / 4 * 4 + (a % 4 * 16 + b / 16) / 16 == a
    ensures (a % 4 * 16 + b / 16) % 16 * 16 + (b % 16 * 4 + c / 64) / 4 == b
    ensures (b % 16 * 4 + c / 64) % 4 * 64 + c % 64 == c
  {
  }

  lemma JoinGroups(a: Text, b: Text)
    requires |a| == 4 && IsText(a) && Padding(a) == 0 && IsText(b) && b != []
    ensures IsText(a + b) && Padding(a + b) == Padding(b) && Decode(a + b) == Ungroup(a) + Decode(b)
  {
    var t := a + b;
    assert t[..4] == a && t[4..] == b;
    forall i | 0 <= i < |t| - Padding(b) ensures IsChar(t[i]) {
      if i >= 4 {
        assert t[i] == b[i - 4];
      }
    }
  }

  /** Decoding undoes encoding. */
  lemma {:induction false} DecodeEncode(s: seq<byte>)
    ensures IsText(Encode(s)) && Decode(Encode(s)) == s
  {
    if |s| > 3 {
      UngroupGroup(s[..3]);
      DecodeEncode(s[3..]);
      EncodedLength(s[3..]);
      JoinGroups(Group(s[..3]), Encode(s[3..]));
    } else if s != [] {
      UngroupGroup(s);
    }
  }

  lemma EncodeInjective(a: seq<byte>, b: seq<byte>)
    requires Encode(a) == Encode(b)
    ensures a == b
  {
    DecodeEncode(a);
    DecodeEncode(b);
  }

  /** Text that is exactly what the encoder emits for what it decodes to. */
  predicate IsCanonical(t: Text) {
    IsText(t) && Encode(Decode(t)) == t
  }

  lemma EncodeIsCanonical(s: seq<byte>)
    ensures IsCanonical(Encode(s))
  {
    DecodeEncode(s);
  }
}
