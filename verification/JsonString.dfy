/** UTF-8 and the canonical JSON string writer of src/chat/headerCanonical.ts. */
module JsonString {
  import opened Basics

  predicate High(c: CodeUnit) {
    0xD800 <= c <= 0xDBFF
  }

  predicate Low(c: CodeUnit) {
    0xDC00 <= c <= 0xDFFF
  }

  /** Surrogates by their leading six bits: 110110 starts a pair, 110111 ends one. */
  lemma SurrogateBits(c: CodeUnit)
    ensures High(c) <==> c / 0x400 == 0x36
    ensures Low(c) <==> c / 0x400 == 0x37
  {
  }

  /** A surrogate at this position is half of a pair. */
  predicate Paired(t: Text, i: nat)
    requires i < |t|
  {
    (High(t[i]) ==> i + 1 < |t| && Low(t[i + 1])) && (Low(t[i]) ==> i > 0 && High(t[i - 1]))
  }

  predicate WellFormed(t: Text) {
    forall i: nat :: i < |t| ==> Paired(t, i)
  }

  /** The code units of the first code point. */
  function PointLength(t: Text): (n: nat)
    requires t != []
    ensures 1 <= n <= |t|
  {
    if |t| >= 2 && High(t[0]) && Low(t[1]) then 2 else 1
  }

  // ----- UTF-8 (RFC 3629, section 3) -----

  type CodePoint = n: nat | n < 0x11_0000

  /** The scalar value an encoder writes: U+FFFD for a lone surrogate. */
  function FirstPoint(t: Text): CodePoint
    requires t != []
  {
    if PointLength(t) == 2 then 0x1_0000 + (t[0] as int - 0xD800) * 0x400 + (t[1] as int - 0xDC00)
    else if High(t[0]) || Low(t[0]) then 0xFFFD
    else t[0]
  }

  function EncodePoint(c: CodePoint): seq<byte> {
    if c < 0x80 then [c]
    else if c < 0x800 then [0xC0 + c / 0x40, 0x80 + c % 0x40]
    else if c < 0x1_0000 then [0xE0 + c / 0x1000, 0x80 + c / 0x40 % 0x40, 0x80 + c % 0x40]
    else [0xF0 + c / 0x4_0000, 0x80 + c / 0x1000 % 0x40, 0x80 + c / 0x40 % 0x40, 0x80 + c % 0x40]
  }

  function Utf8(t: Text): seq<byte> {
    if t == [] then [] else EncodePoint(FirstPoint(t)) + Utf8(t[PointLength(t)..])
  }

  /** Text that starts with a whole code point encodes on its own. */
  lemma {:induction false} Utf8Append(a: Text, b: Text)
    requires WellFormed(b)
    ensures Utf8(a + b) == Utf8(a) + Utf8(b)
  {
    hide EncodePoint;
    if a == [] {
      assert a + b == b;
    } else {
      assert b != [] ==> Paired(b, 0);
      assert PointLength(a + b) == PointLength(a) && FirstPoint(a + b) == FirstPoint(a);
      assert (a + b)[PointLength(a)..] == a[PointLength(a)..] + b;
      Utf8Append(a[PointLength(a)..], b);
    }
  }

  lemma CutWellFormed(t: Text, i: nat)
    requires WellFormed(t) && i <= |t| && !(0 < i < |t| && High(t[i - 1]) && Low(t[i]))
    ensures WellFormed(t[..i]) && WellFormed(t[i..])
  {
    forall j: nat | j < i ensures Paired(t[..i], j) {
      assert Paired(t, j);
    }
    forall j: nat | j < |t| - i ensures Paired(t[i..], j) {
      assert Paired(t, i + j) && t[i..][j] == t[i + j];
    }
  }

  lemma JoinWellFormed(a: Text, b: Text)
    requires WellFormed(a) && WellFormed(b)
    ensures WellFormed(a + b)
  {
    forall j: nat | j < |a + b| ensures Paired(a + b, j) {
      if j < |a| {
        assert Paired(a, j);
      } else {
        assert Paired(b, j - |a|);
      }
    }
  }

  /** The code point at the front of UTF-8 bytes, taken on trust. */
  function DecodePoint(s: seq<byte>): (r: (int, nat))
    requires s != []
    ensures 1 <= r.1 <= |s|
  {
    var a: int := s[0];
    var b: int := if |s| > 1 then s[1] as int - 0x80 else 0;
    var c: int := if |s| > 2 then s[2] as int - 0x80 else 0;
    var d: int := if |s| > 3 then s[3] as int - 0x80 else 0;
    if a < 0x80 || |s| < 2 then (a, 1)
    else if a < 0xE0 || |s| < 3 then ((a - 0xC0) * 0x40 + b, 2)
    else if a < 0xF0 || |s| < 4 then ((a - 0xE0) * 0x1000 + b * 0x40 + c, 3)
    else ((a - 0xF0) * 0x4_0000 + b * 0x1000 + c * 0x40 + d, 4)
  }

  function Units(c: int): Text {
    if 0 <= c < 0x1_0000 then [c]
    else if 0x1_0000 <= c < 0x11_0000 then [0xD800 + (c - 0x1_0000) / 0x400, 0xDC00 + (c - 0x1_0000) % 0x400]
    else []
  }

  function DecodeUtf8(s: seq<byte>): Text {
    if s == [] then [] else Units(DecodePoint(s).0) + DecodeUtf8(s[DecodePoint(s).1..])
  }

  lemma DecodeEncodedPoint(c: CodePoint, rest: seq<byte>)
    ensures var e := EncodePoint(c); e != [] && DecodePoint(e + rest) == (c, |e|)
  {
    var q, r := c / 0x40, c % 0x40;
    assert c == q * 0x40 + r;
    var q2, r2 := q / 0x40, q % 0x40;
    assert q == q2 * 0x40 + r2;
    assert c / 0x1000 == q2 && c / 0x4_0000 == q2 / 0x40 && q2 == q2 / 0x40 * 0x40 + q2 % 0x40;
  }

  lemma PointUnits(t: Text)
    requires t != [] && Paired(t, 0)
    ensures Units(FirstPoint(t)) == t[..PointLength(t)]
  {
    if PointLength(t) == 2 {
      var h: int, l: int := t[0] as int - 0xD800, t[1] as int - 0xDC00;
      assert (h * 0x400 + l) / 0x400 == h && (h * 0x400 + l) % 0x400 == l;
      assert t[..2] == [t[0], t[1]];
    } else {
      assert t[..1] == [t[0]];
    }
  }

  /** Nothing is lost by encoding text without lone surrogates. */
  lemma {:induction false} DecodeUtf8Inverts(t: Text)
    requires WellFormed(t)
    ensures DecodeUtf8(Utf8(t)) == t
  {
    hide EncodePoint, DecodePoint, DecodeUtf8, WellFormed, FirstPoint, PointLength;
    DecodeNothing();
    if t != [] {
      var n := PointLength(t);
      FirstPaired(t);
      CutWellFormed(t, n);
      DecodeUtf8Inverts(t[n..]);
      DecodeUtf8First(FirstPoint(t), Utf8(t[n..]));
      PointUnits(t);
    }
  }

  lemma DecodeNothing()
    ensures DecodeUtf8([]) == []
  {
  }

  lemma FirstPaired(t: Text)
    requires t != [] && WellFormed(t)
    ensures Paired(t, 0)
    ensures var n := PointLength(t); !(0 < n < |t| && High(t[n - 1]) && Low(t[n]))
  {
    assert Paired(t, 0);
    var n := PointLength(t);
    if n < |t| {
      assert Paired(t, n) && Paired(t, n - 1);
    }
  }

  lemma DecodeUtf8First(c: CodePoint, rest: seq<byte>)
    ensures DecodeUtf8(EncodePoint(c) + rest) == Units(c) + DecodeUtf8(rest)
  {
    hide EncodePoint, DecodePoint, Units;
    DecodeEncodedPoint(c, rest);
    assert (EncodePoint(c) + rest)[|EncodePoint(c)|..] == rest;
  }

  // ----- QuoteJSONString (ECMA-262, section 25.5.2.3) -----

  const QUOTE: CodeUnit := 0x22
  const BACKSLASH: CodeUnit := 0x5C

  function UnicodeEscape(c: CodeUnit): Text {
    [BACKSLASH, 0x75, HexDigit(c / 0x1000), HexDigit(c / 0x100 % 16), HexDigit(c / 16 % 16), HexDigit(c % 16)]
  }

  /** The letter of a two-character escape. */
  function ShortEscape(c: CodeUnit): Option<CodeUnit> {
    if c == 0x08 then Some(0x62) else if c == 0x09 then Some(0x74) else if c == 0x0A then Some(0x6E)
    else if c == 0x0C then Some(0x66) else if c == 0x0D then Some(0x72)
    else if c == QUOTE || c == BACKSLASH then Some(c) else None
  }

  /** The escape of the code point at the front, if it has one. */
  function EscapeOf(t: Text): Option<Text>
    requires t != []
  {
    if ShortEscape(t[0]).Some? then Some([BACKSLASH, ShortEscape(t[0]).value])
    else if t[0] < 0x20 || (PointLength(t) == 1 && (High(t[0]) || Low(t[0]))) then Some(UnicodeEscape(t[0]))
    else None
  }

  /** What one code point turns into. */
  function QuotePoint(t: Text): Text
    requires t != []
  {
    if EscapeOf(t).Some? then EscapeOf(t).value else t[..PointLength(t)]
  }

  function QuoteBody(t: Text): Text {
    if t == [] then [] else QuotePoint(t) + QuoteBody(t[PointLength(t)..])
  }

  /** JSON.stringify of a string. */
  function Quote(t: Text): Text {
    [QUOTE] + QuoteBody(t) + [QUOTE]
  }

  lemma PointWellFormed(t: Text)
    requires t != []
    ensures WellFormed(QuotePoint(t))
  {
    if EscapeOf(t) == None && PointLength(t) == 2 {
      assert t[..2] == [t[0], t[1]];
    }
  }

  lemma {:induction false} BodyWellFormed(t: Text)
    ensures WellFormed(QuoteBody(t))
  {
    hide QuotePoint, WellFormed;
    if t == [] {
      EmptyWellFormed();
    } else {
      PointWellFormed(t);
      BodyWellFormed(t[PointLength(t)..]);
      JoinWellFormed(QuotePoint(t), QuoteBody(t[PointLength(t)..]));
    }
  }

  lemma EmptyWellFormed()
    ensures WellFormed([])
  {
  }

  lemma QuoteWellFormed(t: Text)
    ensures WellFormed(Quote(t))
  {
    hide QuoteBody, WellFormed;
    BodyWellFormed(t);
    assert WellFormed([QUOTE]) by {
      OneWellFormed(QUOTE);
    }
    JoinWellFormed([QUOTE], QuoteBody(t));
    JoinWellFormed([QUOTE] + QuoteBody(t), [QUOTE]);
  }

  lemma OneWellFormed(c: CodeUnit)
    requires !High(c) && !Low(c)
    ensures WellFormed([c])
  {
  }

  // ----- Reading a quoted string back -----

  function HexValue(c: CodeUnit): Option<nat> {
    if 0x30 <= c <= 0x39 then Some(c - 0x30) else if 0x61 <= c <= 0x66 then Some(c - 0x61 + 10) else None
  }

  function LongEscape(t: Text): Option<CodeUnit>
    requires |t| >= 4
  {
    var a, b, c, d := HexValue(t[0]), HexValue(t[1]), HexValue(t[2]), HexValue(t[3]);
    if a.Some? && b.Some? && c.Some? && d.Some? then Some(((a.value * 16 + b.value) * 16 + c.value) * 16 + d.value)
    else None
  }

  function ShortMeaning(c: CodeUnit): Option<CodeUnit> {
    if c == 0x62 then Some(0x08) else if c == 0x74 then Some(0x09) else if c == 0x6E then Some(0x0A)
    else if c == 0x66 then Some(0x0C) else if c == 0x72 then Some(0x0D)
    else if c == QUOTE || c == BACKSLASH then Some(c) else None
  }

  /** The string whose body and closing quote are at the front, and what follows. */
  function Unquote(t: Text): Option<(Text, Text)>
    decreases |t|
  {
    if t == [] || t[0] < 0x20 then None
    else if t[0] == QUOTE then Some(([], t[1..]))
    else if t[0] != BACKSLASH then Prepend([t[0]], Unquote(t[1..]))
    else if |t| >= 2 && ShortMeaning(t[1]).Some? then Prepend([ShortMeaning(t[1]).value], Unquote(t[2..]))
    else if |t| >= 6 && t[1] == 0x75 && LongEscape(t[2..]).Some? then Prepend([LongEscape(t[2..]).value],
        Unquote(t[6..]))
    else None
  }

  function Prepend(a: Text, r: Option<(Text, Text)>): Option<(Text, Text)> {
    match r
    case None => None
    case Some((b, rest)) => Some((a + b, rest))
  }

  lemma UnicodeEscapeRead(c: CodeUnit)
    ensures LongEscape(UnicodeEscape(c)[2..]) == Some(c)
  {
    var q1, q2, q3 := c / 16, c / 0x100, c / 0x1000;
    assert q2 == q1 / 16 && q3 == q2 / 16;
    assert c == ((q3 * 16 + q2 % 16) * 16 + q1 % 16) * 16 + c % 16;
    assert HexValue(HexDigit(q3)) == Some(q3);
  }

  lemma UnquotePoint(t: Text, rest: Text)
    requires t != []
    ensures Unquote(QuotePoint(t) + rest) == Prepend(t[..PointLength(t)], Unquote(rest))
  {
    hide Unquote, LongEscape;
    var s := QuotePoint(t) + rest;
    UnquoteFirst(s);
    assert t[..1] == [t[0]];
    if ShortEscape(t[0]).Some? {
      assert s[2..] == rest;
    } else if EscapeOf(t).Some? {
      UnicodeEscapeRead(t[0]);
      assert s[2..][..4] == UnicodeEscape(t[0])[2..];
      assert LongEscape(s[2..]) == LongEscape(UnicodeEscape(t[0])[2..]) by {
        LongEscapeFront(s[2..], UnicodeEscape(t[0])[2..]);
      }
      assert s[6..] == rest;
    } else if PointLength(t) == 1 {
      assert s[1..] == rest;
    } else {
      assert s[1..] == [t[1]] + rest;
      UnquoteFirst(s[1..]);
      assert s[1..][1..] == rest;
      PrependTwice([t[0]], [t[1]], Unquote(rest));
      assert t[..2] == [t[0]] + [t[1]];
    }
  }

  lemma LongEscapeFront(t: Text, u: Text)
    requires |t| >= 4 && |u| == 4 && t[..4] == u
    ensures LongEscape(t) == LongEscape(u)
  {
    assert t[0] == u[0] && t[1] == u[1] && t[2] == u[2] && t[3] == u[3];
  }

  lemma PrependTwice(a: Text, b: Text, r: Option<(Text, Text)>)
    ensures Prepend(a, Prepend(b, r)) == Prepend(a + b, r)
  {
    if r.Some? {
      assert a + (b + r.value.0) == a + b + r.value.0;
    }
  }

  /** One step of reading. */
  lemma UnquoteFirst(t: Text)
    requires t != [] && t[0] >= 0x20 && t[0] != QUOTE
    ensures t[0] != BACKSLASH ==> Unquote(t) == Prepend([t[0]], Unquote(t[1..]))
    ensures t[0] == BACKSLASH && |t| >= 2 && ShortMeaning(t[1]).Some? ==>
              Unquote(t) == Prepend([ShortMeaning(t[1]).value], Unquote(t[2..]))
    ensures t[0] == BACKSLASH && |t| >= 6 && t[1] == 0x75 && LongEscape(t[2..]).Some? ==>
              Unquote(t) == Prepend([LongEscape(t[2..]).value], Unquote(t[6..]))
  {
    hide LongEscape;
  }

  lemma {:induction false} UnquoteBody(t: Text, rest: Text)
    ensures Unquote(QuoteBody(t) + [QUOTE] + rest) == Some((t, rest))
  {
    hide QuotePoint, Unquote;
    if t == [] {
      assert QuoteBody(t) + [QUOTE] + rest == [QUOTE] + rest;
      UnquoteEnd(rest);
    } else {
      var n := PointLength(t);
      var tail := QuoteBody(t[n..]) + [QUOTE] + rest;
      assert QuoteBody(t) + [QUOTE] + rest == QuotePoint(t) + tail;
      UnquotePoint(t, tail);
      UnquoteBody(t[n..], rest);
      assert t[..n] + t[n..] == t;
    }
  }

  lemma UnquoteEnd(rest: Text)
    ensures Unquote([QUOTE] + rest) == Some(([], rest))
  {
    assert ([QUOTE] + rest)[1..] == rest;
  }

  /** Reading a quoted string gives the string back, and leaves what follows. */
  lemma UnquoteInverts(t: Text, rest: Text)
    ensures var s := Quote(t) + rest; s[0] == QUOTE && Unquote(s[1..]) == Some((t, rest))
  {
    hide QuoteBody, Unquote;
    UnquoteBody(t, rest);
    assert (Quote(t) + rest)[1..] == QuoteBody(t) + [QUOTE] + rest;
  }

  /** No shorter text without lone surrogates reads as the string: every escape is
      as short as it can be, and nothing is escaped without need. */
  lemma {:induction false} QuoteShortest(s: Text, t: Text, rest: Text)
    requires WellFormed(s) && Unquote(s) == Some((t, rest))
    ensures |QuoteBody(t)| + 1 + |rest| <= |s|
    decreases |s|
  {
    hide QuoteBody, LongEscape, ShortMeaning, EscapeOf, QuotePoint, WellFormed;
    if s[0] == QUOTE {
      NothingQuoted();
    } else if s[0] == BACKSLASH {
      var n := if ShortMeaning(s[1]).Some? then 2 else 6;
      EscapeEnds(s);
      CutWellFormed(s, n);
      var tail := Unquote(s[n..]).value.0;
      QuoteShortest(s[n..], tail, rest);
      assert t[1..] == tail;
      ShortEscapes(s[1]);
      QuoteOneMore(t);
    } else {
      RawUnit(s);
      var n := PointLength(s);
      FirstPaired(s);
      CutWellFormed(s, n);
      if n == 2 {
        assert s[1..][1..] == s[2..];
      }
      var tail := Unquote(s[n..]).value.0;
      QuoteShortest(s[n..], tail, rest);
      assert t[..n] == s[..n] && t[n..] == tail;
      RawQuoted(s, t, n);
    }
  }

  lemma ShortEscapes(c: CodeUnit)
    ensures ShortMeaning(c).Some? ==> ShortEscape(ShortMeaning(c).value) == Some(c)
  {
  }

  lemma NothingQuoted()
    ensures QuoteBody([]) == []
  {
  }

  /** The last unit of an escape is no surrogate. */
  lemma EscapeEnds(s: Text)
    requires |s| >= 2
    ensures ShortMeaning(s[1]).Some? ==> !High(s[1])
    ensures |s| >= 6 && LongEscape(s[2..]).Some? ==> !High(s[5])
  {
  }

  /** A raw unit starts a whole code point, and is its own reading. */
  lemma RawUnit(s: Text)
    requires WellFormed(s) && s != [] && s[0] >= 0x20 && s[0] != QUOTE && s[0] != BACKSLASH
    ensures PointLength(s) == 2 ==> s[1] >= 0x20 && s[1] != QUOTE && s[1] != BACKSLASH
    ensures PointLength(s) == 1 ==> !High(s[0]) && !Low(s[0])
  {
    assert Paired(s, 0);
  }

  lemma RawQuoted(s: Text, t: Text, n: nat)
    requires s != [] && n == PointLength(s) && n <= |t| && t[..n] == s[..n]
    requires s[0] >= 0x20 && s[0] != QUOTE && s[0] != BACKSLASH && (n == 1 ==> !High(s[0]) && !Low(s[0]))
    ensures |QuoteBody(t)| == n + |QuoteBody(t[n..])|
  {
    assert t[0] == t[..n][0] == s[0];
    if n == 2 {
      assert t[1] == t[..n][1] == s[1];
    }
  }

  /** One more unit in front takes at most an escape; two if it is one of the short ones. */
  lemma QuoteOneMore(t: Text)
    requires t != []
    ensures |QuoteBody(t)| <= (if ShortEscape(t[0]).Some? then 2 else 6) + |QuoteBody(t[1..])|
  {
    hide QuotePoint, QuoteBody, ShortEscape, PointLength;
    PointQuoted(t);
    BodyFirst(t);
    if PointLength(t) == 2 {
      PointQuoted(t[1..]);
      BodyFirst(t[1..]);
      assert t[1..][1..] == t[2..];
    }
  }

  lemma BodyFirst(t: Text)
    requires t != []
    ensures |QuoteBody(t)| == |QuotePoint(t)| + |QuoteBody(t[PointLength(t)..])|
  {
    hide QuotePoint, PointLength;
  }

  lemma PointQuoted(t: Text)
    requires t != []
    ensures |QuotePoint(t)| <= if ShortEscape(t[0]).Some? then 2 else 6
    ensures PointLength(t) == 2 ==> |QuotePoint(t)| == 2 && PointLength(t[1..]) == 1 && |QuotePoint(t[1..])| == 6
    ensures PointLength(t) <= 2
  {
    hide UnicodeEscape;
    assert |UnicodeEscape(t[0])| == 6 by {
      SixUnits(t[0]);
    }
    if PointLength(t) == 2 {
      SixUnits(t[1]);
    }
  }

  lemma SixUnits(c: CodeUnit)
    ensures |UnicodeEscape(c)| == 6
  {
  }

  // ----- The writer -----

  const CHUNK := 16 * 1024

  /** A hash fed with strings, each encoded to UTF-8 on its own. */
  class HashSink {
    var bytes: seq<byte>
    /** All the text so far, whether no string has split a surrogate pair, and
        the length of the longest. */
    ghost var text: Text
    ghost var clean: bool
    ghost var longest: nat

    constructor ()
      ensures Valid() && text == [] && clean && longest == 0
    {
      bytes, text, clean, longest := [], [], true, 0;
    }

    /** Encoding the strings one by one comes to the same as encoding them all. */
    ghost predicate Valid()
      reads this
    {
      clean ==> bytes == Utf8(text)
    }

    method Update(data: Text)
      requires Valid()
      modifies this
      ensures Valid() && text == old(text) + data
      ensures clean == (old(clean) && WellFormed(data))
      ensures longest == if |data| > old(longest) then |data| else old(longest)
    {
      hide Utf8;
      bytes := bytes + Utf8(data);
      text := text + data;
      clean := clean && WellFormed(data);
      longest := if |data| > longest then |data| else longest;
      if clean {
        Utf8Append(old(text), data);
      }
    }
  }

  /** New strings were at most a chunk and one unit long. */
  predicate AtMostAChunk(before: nat, after: nat) {
    after <= before || after <= CHUNK + 1
  }

  /** updateRawStringRange */
  method UpdateRawStringRange(hash: HashSink, value: Text, start: nat, end: nat)
    requires hash.Valid() && start <= end <= |value| && WellFormed(value[start..end])
    modifies hash
    ensures hash.Valid() && hash.text == old(hash.text) + value[start..end] && hash.clean == old(hash.clean)
    ensures AtMostAChunk(old(hash.longest), hash.longest)
  {
    hide WellFormed;
    var offset := start;
    while offset < end
      invariant start <= offset <= end && hash.Valid()
      invariant hash.text == old(hash.text) + value[start..offset] && hash.clean == old(hash.clean)
      invariant AtMostAChunk(old(hash.longest), hash.longest)
      invariant WellFormed(value[offset..end])
    {
      var chunkEnd := if offset + CHUNK < end then offset + CHUNK else end;
      if chunkEnd < end && High(value[chunkEnd - 1]) && Low(value[chunkEnd]) {
        chunkEnd := chunkEnd + 1;
      }
      CutRange(value, offset, chunkEnd, end);
      hash.Update(value[offset..chunkEnd]);
      Slices(value, start, offset, chunkEnd);
      offset := chunkEnd;
    }
  }

  lemma Slices<T>(s: seq<T>, a: nat, b: nat, c: nat)
    requires a <= b <= c <= |s|
    ensures s[a..b] + s[b..c] == s[a..c]
  {
  }

  lemma CutRange(value: Text, offset: nat, cut: nat, end: nat)
    requires offset <= cut <= end <= |value| && WellFormed(value[offset..end])
    requires offset < cut < end ==>
               !(High(value[cut - 1]) && Low(value[cut]))
               || (cut - 1 > offset && High(value[cut - 2]) && Low(value[cut - 1]))
    ensures WellFormed(value[offset..cut]) && WellFormed(value[cut..end])
  {
    var t := value[offset..end];
    if offset < cut < end {
      assert Paired(t, cut - offset - 1);
    }
    CutWellFormed(t, cut - offset);
    assert t[..cut - offset] == value[offset..cut] && t[cut - offset..] == value[cut..end];
  }

  /** The switch: the escape of the code point at index and the units it takes. */
  method Classify(value: Text, index: nat) returns (escape: Option<Text>, consumed: nat)
    requires index < |value|
    ensures consumed == PointLength(value[index..]) && escape == EscapeOf(value[index..])
  {
    var code := value[index];
    escape, consumed := None, 1;
    if ShortEscape(code).Some? {
      escape := Some([BACKSLASH, ShortEscape(code).value]);
    } else if code < 0x20 {
      escape := Some(UnicodeEscape(code));
    } else if High(code) {
      if index + 1 < |value| && Low(value[index + 1]) {
        consumed := 2;
      } else {
        escape := Some(UnicodeEscape(code));
      }
    } else if Low(code) {
      escape := Some(UnicodeEscape(code));
    }
  }

  /** What is written, the raw range and the rest to quote are together the
      quoted value. */
  ghost predicate Progress(value: Text, written: Text, rawStart: nat, index: nat)
    requires rawStart <= index <= |value|
  {
    && WellFormed(value[rawStart..index])
    && QuoteBody(value) == written + value[rawStart..index] + QuoteBody(value[index..])
  }

  lemma ProgressStart(value: Text)
    ensures Progress(value, [], 0, 0)
  {
    hide QuoteBody;
    assert value[0..] == value && value[0..0] == [];
  }

  lemma ProgressFlush(value: Text, written: Text, rawStart: nat, index: nat)
    requires rawStart <= index <= |value| && Progress(value, written, rawStart, index)
    ensures Progress(value, written + value[rawStart..index], index, index)
  {
    hide QuoteBody;
    assert value[index..index] == [];
  }

  /** The next code point, escaped on its own or added to the raw range. */
  lemma ProgressStep(value: Text, written: Text, rawStart: nat, index: nat)
    requires rawStart <= index < |value| && Progress(value, written, rawStart, index)
    ensures var n := PointLength(value[index..]);
            match EscapeOf(value[index..])
            case None => Progress(value, written, rawStart, index + n)
            case Some(escape) => WellFormed(escape) && Progress(value, written + value[rawStart..index] + escape,
                index + n, index + n)
  {
    hide QuoteBody, EscapeOf, WellFormed;
    var n := PointLength(value[index..]);
    BodyStep(value, index);
    PointWellFormed(value[index..]);
    EmptyWellFormed();
    assert value[index + n..index + n] == [];
    if EscapeOf(value[index..]) == None {
      JoinWellFormed(value[rawStart..index], value[index..index + n]);
      Slices(value, rawStart, index, index + n);
    }
  }

  /** updateCanonicalJsonString: exactly JSON.stringify(value), in strings of at
      most a chunk and one that never split a surrogate pair. */
  method UpdateCanonicalJsonString(hash: HashSink, value: Text)
    requires hash.Valid()
    modifies hash
    ensures hash.Valid() && hash.text == old(hash.text) + Quote(value) && hash.clean == old(hash.clean)
    ensures AtMostAChunk(old(hash.longest), hash.longest)
  {
    hide WellFormed, QuoteBody, EscapeOf, PointLength, Progress;
    OneWellFormed(QUOTE);
    hash.Update([QUOTE]);
    ghost var start := hash.text;
    ghost var written: Text := [];
    var rawStart, index := 0, 0;
    ProgressStart(value);
    while index < |value|
      invariant 0 <= rawStart <= index <= |value| && index - rawStart < CHUNK
      invariant hash.Valid() && hash.clean == old(hash.clean) && hash.text == start + written
      invariant AtMostAChunk(old(hash.longest), hash.longest)
      invariant Progress(value, written, rawStart, index)
    {
      var escape, consumed := Classify(value, index);
      ProgressRange(value, written, rawStart, index);
      ProgressStep(value, written, rawStart, index);
      EscapeShort(value[index..]);
      if escape.Some? {
        UpdateRawStringRange(hash, value, rawStart, index);
        hash.Update(escape.value);
        written := written + value[rawStart..index] + escape.value;
        index := index + consumed;
        rawStart := index;
      } else {
        index := index + consumed;
        if index - rawStart >= CHUNK {
          ProgressRange(value, written, rawStart, index);
          ProgressFlush(value, written, rawStart, index);
          UpdateRawStringRange(hash, value, rawStart, index);
          written := written + value[rawStart..index];
          rawStart := index;
        }
      }
    }
    ProgressRange(value, written, rawStart, index);
    ProgressEnd(value, written, rawStart);
    UpdateRawStringRange(hash, value, rawStart, |value|);
    hash.Update([QUOTE]);
  }

  lemma ProgressRange(value: Text, written: Text, rawStart: nat, index: nat)
    requires rawStart <= index <= |value| && Progress(value, written, rawStart, index)
    ensures WellFormed(value[rawStart..index])
  {
    hide QuoteBody;
  }

  lemma ProgressEnd(value: Text, written: Text, rawStart: nat)
    requires rawStart <= |value| && Progress(value, written, rawStart, |value|)
    ensures written + value[rawStart..|value|] == QuoteBody(value)
  {
    assert value[|value|..] == [];
    BodyOfNothing();
  }

  lemma EscapeShort(t: Text)
    requires t != []
    ensures EscapeOf(t).Some? ==> |EscapeOf(t).value| <= 6
  {
  }

  lemma BodyOfNothing()
    ensures QuoteBody([]) == []
  {
  }

  lemma BodyStep(value: Text, index: nat)
    requires index < |value|
    ensures var n := PointLength(value[index..]);
            QuoteBody(value[index..]) == QuotePoint(value[index..]) + QuoteBody(value[index + n..])
            && (EscapeOf(value[index..]) == None ==> QuotePoint(value[index..]) == value[index..index + n])
  {
    hide EscapeOf;
    var n := PointLength(value[index..]);
    assert value[index..][n..] == value[index + n..] && value[index..][..n] == value[index..index + n];
  }

  // ----- The length -----

  /** canonicalJsonStringByteLength: the UTF-8 length of JSON.stringify(value). */
  method CanonicalJsonStringByteLength(value: Text) returns (bytes: nat)
    ensures bytes == |Utf8(Quote(value))|
  {
    hide Utf8, QuoteBody;
    bytes := 2;
    var index := 0;
    BodyOfNothing();
    assert value[0..] == value;
    while index < |value|
      invariant index <= |value|
      invariant bytes + |Utf8(QuoteBody(value[index..]))| == 2 + |Utf8(QuoteBody(value))|
    {
      var code := value[index];
      ghost var rest := value[index..];
      BodyStep(value, index);
      PointBytes(rest);
      BodyWellFormed(value[index + PointLength(rest)..]);
      Utf8Append(QuotePoint(rest), QuoteBody(value[index + PointLength(rest)..]));
      if ShortEscape(code).Some? {
        bytes := bytes + 2;
      } else if code < 0x20 {
        bytes := bytes + 6;
      } else if code <= 0x7F {
        bytes := bytes + 1;
      } else if code <= 0x7FF {
        bytes := bytes + 2;
      } else if High(code) {
        if index + 1 < |value| && Low(value[index + 1]) {
          bytes := bytes + 4;
          index := index + 1;
        } else {
          bytes := bytes + 6;
        }
      } else if Low(code) {
        bytes := bytes + 6;
      } else {
        bytes := bytes + 3;
      }
      index := index + 1;
    }
    assert value[index..] == [];
    QuotedBytes(value);
  }

  /** The bytes one quoted code point takes. */
  function PointSize(t: Text): nat
    requires t != []
  {
    if ShortEscape(t[0]).Some? then 2
    else if t[0] < 0x20 then 6
    else if t[0] <= 0x7F then 1
    else if t[0] <= 0x7FF then 2
    else if PointLength(t) == 2 then 4
    else if High(t[0]) || Low(t[0]) then 6 else 3
  }

  lemma PointBytes(t: Text)
    requires t != []
    ensures |Utf8(QuotePoint(t))| == PointSize(t)
  {
    hide Utf8;
    var q := QuotePoint(t);
    if EscapeOf(t).Some? {
      AsciiBytes(q);
    } else if PointLength(t) == 2 {
      assert q == [t[0], t[1]];
      Utf8One(q);
    } else {
      assert q == [t[0]];
      Utf8One(q);
    }
  }

  /** ASCII text is one byte a unit. */
  lemma {:induction false} AsciiBytes(t: Text)
    requires forall i :: 0 <= i < |t| ==> t[i] < 0x80
    ensures |Utf8(t)| == |t|
  {
    if t != [] {
      AsciiBytes(t[1..]);
    }
  }

  lemma Utf8One(t: Text)
    requires t != [] && PointLength(t) == |t|
    ensures Utf8(t) == EncodePoint(FirstPoint(t))
  {
    hide EncodePoint;
    assert t[|t|..] == [];
  }

  lemma QuotedBytes(t: Text)
    ensures |Utf8(Quote(t))| == 2 + |Utf8(QuoteBody(t))|
    ensures Utf8([]) == []
  {
    hide QuoteBody, WellFormed;
    OneWellFormed(QUOTE);
    BodyWellFormed(t);
    Utf8Append([QUOTE] + QuoteBody(t), [QUOTE]);
    Utf8Append([QUOTE], QuoteBody(t));
    AsciiBytes([QUOTE]);
  }
}
