/** The Protocol Buffers wire reader of src/chat/agentKv.ts: base-128 varints and
    the field scanner, with the encoder they undo. */
module Wire {
  import opened Basics

  const MAX_FIELD_NUMBER := 0x1fff_ffff
  const MAX_SAFE_INTEGER := 0x1f_ffff_ffff_ffff
  const TWO_TO_THE_64 := 0x1_0000_0000_0000_0000

  // ----- Varints -----

  datatype VarintRead = VarintRead(value: nat, length: nat)

  /** A well-formed base-128 group: a continuation bit on every byte but the
      last, at most ten bytes, and a tenth byte that adds only bit 63. */
  predicate IsVarint(s: seq<byte>) {
    && 1 <= |s| <= 10
    && (forall i :: 0 <= i < |s| - 1 ==> s[i] >= 0x80)
    && s[|s| - 1] < 0x80
    && (|s| == 10 ==> s[9] < 2)
  }

  /** Little-endian value of the low seven bits of each byte. */
  function VarintValue(s: seq<byte>): nat {
    if s == [] then 0 else Low7(s[0]) + 0x80 * VarintValue(s[1..])
  }

  function Low7(b: byte): nat {
    b % 0x80
  }

  function Pow128(n: nat): nat {
    if n == 0 then 1 else 0x80 * Pow128(n - 1)
  }

  /** Length of the varint at the front of s, or 0 when there is none. */
  function VarintLength(s: seq<byte>, from: nat := 0): (n: nat)
    requires from <= |s| && from <= 10
    ensures n <= |s| && n <= 10
    decreases 10 - from
  {
    if from == 10 || from == |s| || (from == 9 && s[9] >= 2) then 0
    else if s[from] < 0x80 then from + 1
    else VarintLength(s, from + 1)
  }

  function FirstVarint(s: seq<byte>): Option<VarintRead> {
    var n := VarintLength(s);
    if n == 0 then None else Some(VarintRead(VarintValue(s[..n]), n))
  }

  lemma {:induction false} VarintValueAppend(s: seq<byte>, b: byte)
    ensures VarintValue(s + [b]) == VarintValue(s) + Low7(b) * Pow128(|s|)
  {
    var t := s + [b];
    if s == [] {
      assert t[1..] == [];
      assert Pow128(0) == 1;
    } else {
      VarintValueAppend(s[1..], b);
      assert t[1..] == s[1..] + [b];
      MulShift(Low7(b), Pow128(|s| - 1));
    }
  }

  lemma MulShift(d: int, p: int)
    ensures 0x80 * (d * p) == d * (0x80 * p)
  {
  }

  lemma {:induction false} VarintLengthFrom(s: seq<byte>, from: nat, n: nat)
    requires from <= |s| && from <= 10 && 0 < n <= |s|
    requires forall i :: 0 <= i < from ==> s[i] >= 0x80
    requires from == 10 ==> s[9] < 2
    ensures VarintLength(s, from) == n <==> n > from && IsVarint(s[..n])
    decreases 10 - from
  {
    if from < 10 && from < |s| {
      assert n > from ==> s[..n][from] == s[from];
      if !(from == 9 && s[9] >= 2) && s[from] >= 0x80 {
        VarintLengthFrom(s, from + 1, n);
      }
    }
  }

  /** The reader's answer is the one prefix that is a varint, if any. */
  lemma FirstVarintExact(s: seq<byte>, n: nat)
    requires 0 < n <= |s|
    ensures FirstVarint(s) == Some(VarintRead(VarintValue(s[..n]), n)) <==> IsVarint(s[..n])
  {
    VarintLengthFrom(s, 0, n);
  }

  lemma {:induction false} VarintBelow(s: seq<byte>)
    ensures VarintValue(s) < Pow128(|s|)
  {
    if s != [] {
      VarintBelow(s[1..]);
    }
  }

  /** Every varint fits an unsigned 64-bit integer. */
  lemma VarintFits64(s: seq<byte>)
    requires IsVarint(s)
    ensures VarintValue(s) < TWO_TO_THE_64
  {
    VarintBelow(s);
    if |s| == 10 {
      VarintBelow(s[..9]);
      VarintValueAppend(s[..9], s[9]);
      assert s[..9] + [s[9]] == s;
      PowNine();
      assert Low7(s[9]) * Pow128(9) <= Pow128(9);
    } else {
      PowMonotone(|s|, 9);
      PowNine();
    }
  }

  lemma PowNine()
    ensures 2 * Pow128(9) == TWO_TO_THE_64
  {
    assert Pow128(3) == 0x20_0000;
    assert Pow128(6) == 0x400_0000_0000;
  }

  lemma {:induction false} PowMonotone(m: nat, n: nat)
    requires m <= n
    ensures Pow128(m) <= Pow128(n)
    decreases n
  {
    if m < n {
      PowMonotone(m, n - 1);
    }
  }

  method ReadVarint(bytes: seq<byte>, offset: nat) returns (r: Option<VarintRead>)
    ensures offset > |bytes| ==> r == None
    ensures r.Some? ==> 0 < r.value.length <= |bytes| - offset
    ensures offset <= |bytes| ==> r == FirstVarint(bytes[offset..])
  {
    if offset > |bytes| {
      return None;
    }
    ghost var s := bytes[offset..];
    var value := 0;
    var shift := 1;
    for index := 0 to 10
      invariant offset + index <= |bytes|
      invariant shift == Pow128(index)
      invariant value == VarintValue(s[..index])
      invariant VarintLength(s) == VarintLength(s, index)
    {
      if offset + index == |bytes| {
        return None;
      }
      var b := bytes[offset + index];
      if index == 9 && b >= 2 {
        return None;
      }
      VarintValueAppend(s[..index], b);
      assert s[..index + 1] == s[..index] + [b];
      value := value + Low7(b) * shift;
      if b < 0x80 {
        return Some(VarintRead(value, index + 1));
      }
      shift := 0x80 * shift;
    }
    return None;
  }

  function EncodeVarint(v: nat): (s: seq<byte>)
    ensures |s| >= 1
  {
    if v < 0x80 then [v] else [v % 0x80 + 0x80] + EncodeVarint(v / 0x80)
  }

  lemma {:induction false} EncodeVarintShape(v: nat, k: nat)
    requires v < Pow128(k) && k >= 1
    ensures var s := EncodeVarint(v);
            && |s| <= k
            && VarintValue(s) == v
            && s[|s| - 1] < 0x80
            && (forall i :: 0 <= i < |s| - 1 ==> s[i] >= 0x80)
  {
    if v >= 0x80 {
      EncodeVarintShape(v / 0x80, k - 1);
      assert EncodeVarint(v)[1..] == EncodeVarint(v / 0x80);
    }
  }

  /** The top group of a k-group encoding is what is left above 128^(k-1). */
  lemma {:induction false} EncodeVarintTop(v: nat, k: nat)
    requires k >= 1 && |EncodeVarint(v)| == k
    ensures EncodeVarint(v)[k - 1] * Pow128(k - 1) <= v
  {
    if v < 0x80 {
      assert Pow128(0) == 1;
    } else {
      EncodeVarintTop(v / 0x80, k - 1);
      MulShift(EncodeVarint(v)[k - 1], Pow128(k - 2));
    }
  }

  lemma EncodeVarintIsVarint(v: nat)
    requires v < TWO_TO_THE_64
    ensures IsVarint(EncodeVarint(v)) && VarintValue(EncodeVarint(v)) == v
  {
    PowNine();
    assert Pow128(10) == 0x80 * Pow128(9);
    EncodeVarintShape(v, 10);
    var s := EncodeVarint(v);
    if |s| == 10 {
      EncodeVarintTop(v, 10);
      assert s[9] >= 2 ==> s[9] * Pow128(9) >= 2 * Pow128(9);
    }
  }

  /** Reading undoes encoding, whatever follows. */
  lemma ReadEncodedVarint(v: nat, rest: seq<byte>)
    requires v < TWO_TO_THE_64
    ensures FirstVarint(EncodeVarint(v) + rest) == Some(VarintRead(v, |EncodeVarint(v)|))
  {
    var s := EncodeVarint(v);
    EncodeVarintIsVarint(v);
    assert (s + rest)[..|s|] == s;
    FirstVarintExact(s + rest, |s|);
  }

  // ----- Fields -----

  /** What the scanner reports of one field: fixed-width contents are skipped. */
  datatype Field = Field(number: nat, wire: nat, payload: Option<seq<byte>>, value: Option<nat>)

  datatype NextField = NextField(field: Field, length: nat)

  datatype Scanned = Scanned(ok: bool, fields: seq<Field>)

  /** The field at the front of s and the bytes it takes. */
  function FirstField(s: seq<byte>): (r: Option<NextField>)
    ensures r.Some? ==> 0 < r.value.length <= |s|
    ensures r.Some? && r.value.field.payload.Some? ==> |r.value.field.payload.value| < r.value.length
  {
    match FirstVarint(s)
    case None => None
    case Some(tag) =>
      var number, wire := tag.value / 8, tag.value % 8;
      if number == 0 || number > MAX_FIELD_NUMBER then None
      else
        match FirstContents(s[tag.length..], number, wire)
        case None => None
        case Some(next) => Some(next.(length := tag.length + next.length))
  }

  /** The same after the tag. */
  function FirstContents(s: seq<byte>, number: nat, wire: nat): (r: Option<NextField>)
    ensures r.Some? ==> r.value.length <= |s|
    ensures r.Some? ==> r.value.field.number == number && r.value.field.wire == wire
    ensures r.Some? && r.value.field.payload.Some? ==> |r.value.field.payload.value| <= r.value.length
  {
    if wire == 1 then
      if |s| < 8 then None else Some(NextField(Field(number, 1, None, None), 8))
    else if wire == 5 then
      if |s| < 4 then None else Some(NextField(Field(number, 5, None, None), 4))
    else if wire != 0 && wire != 2 then None
    else
      match FirstVarint(s)
      case None => None
      case Some(v) =>
        if wire == 0 then Some(NextField(Field(number, 0, None, Some(v.value)), v.length))
        else if v.value > MAX_SAFE_INTEGER || v.value > |s| - v.length then None
        else Some(NextField(Field(number, 2, Some(s[v.length..v.length + v.value]), None), v.length + v.value))
  }

  /** All the fields the scanner visits, and whether it reaches the end. */
  function Scan(s: seq<byte>): Scanned {
    if s == [] then Scanned(true, [])
    else
      match FirstField(s)
      case None => Scanned(false, [])
      case Some(next) =>
        var rest := Scan(s[next.length..]);
        Scanned(rest.ok, [next.field] + rest.fields)
  }

  /** Every payload is shorter than the message that carries it. */
  lemma {:induction false} PayloadsShorter(s: seq<byte>)
    ensures forall f :: f in Scan(s).fields && f.payload.Some? ==> |f.payload.value| < |s|
  {
    hide FirstField;
    if s != [] && FirstField(s).Some? {
      PayloadsShorter(s[FirstField(s).value.length..]);
    }
  }

  /** The visitor, shown the fields so far with the new one last, said to go
      on after each of the first n - 1 fields. */
  ghost predicate WentOn(visit: seq<Field> -> bool, visited: seq<Field>, n: nat)
    requires n <= |visited| + 1
  {
    forall k :: 0 < k < n ==> visit(visited[..k])
  }

  lemma WentOnAppend(visit: seq<Field> -> bool, visited: seq<Field>, f: Field)
    requires WentOn(visit, visited, |visited| + 1)
    ensures WentOn(visit, visited + [f], |visited| + 1)
    ensures visit(visited + [f]) ==> WentOn(visit, visited + [f], |visited| + 2)
  {
    var v := visited + [f];
    assert v[..|v|] == v;
    forall k | 0 < k < |v| ensures visit(v[..k]) {
      assert v[..k] == visited[..k];
    }
  }

  /** The fields from an offset on extend those visited before it to the whole. */
  ghost predicate ScannedTo(bytes: seq<byte>, offset: nat, visited: seq<Field>)
    requires offset <= |bytes|
  {
    var rest := Scan(bytes[offset..]);
    Scan(bytes) == Scanned(rest.ok, visited + rest.fields)
  }

  lemma ScannedStep(bytes: seq<byte>, offset: nat, visited: seq<Field>)
    requires offset < |bytes| && ScannedTo(bytes, offset, visited)
    ensures match FirstField(bytes[offset..])
            case None => Scan(bytes) == Scanned(false, visited)
            case Some(next) => ScannedTo(bytes, offset + next.length, visited + [next.field])
  {
    hide FirstField;
    match FirstField(bytes[offset..])
    case None =>
    case Some(next) =>
      assert bytes[offset..][next.length..] == bytes[offset + next.length..];
      var rest := Scan(bytes[offset + next.length..]).fields;
      assert visited + ([next.field] + rest) == visited + [next.field] + rest;
  }

  /** The scanner with its visitor: false from the visitor stops the scan with
      success. */
  method ScanProtobufMessage(bytes: seq<byte>, visit: seq<Field> -> bool)
    returns (ok: bool, visited: seq<Field>)
    ensures visited <= Scan(bytes).fields
    ensures WentOn(visit, visited, |visited|)
    ensures if visited != [] && !visit(visited) then ok
            else ok == Scan(bytes).ok && visited == Scan(bytes).fields
  {
    hide FirstField, Scan;
    var offset := 0;
    visited := [];
    assert bytes[0..] == bytes;
    while offset < |bytes|
      invariant 0 <= offset <= |bytes|
      invariant ScannedTo(bytes, offset, visited)
      invariant WentOn(visit, visited, |visited| + 1)
    {
      assert visited[..|visited|] == visited;
      var next := ReadField(bytes, offset);
      ScannedStep(bytes, offset, visited);
      if next == None {
        return false, visited;
      }
      WentOnAppend(visit, visited, next.value.field);
      offset := offset + next.value.length;
      visited := visited + [next.value.field];
      if !visit(visited) {
        return true, visited;
      }
    }
    ok := true;
    ScanNothing(bytes[offset..]);
    assert visited[..|visited|] == visited;
  }

  lemma ScanNothing(s: seq<byte>)
    requires s == []
    ensures Scan(s) == Scanned(true, [])
  {
  }

  /** The tag of the scan loop, then its wire-type branches. */
  method ReadField(bytes: seq<byte>, offset: nat) returns (next: Option<NextField>)
    requires offset <= |bytes|
    ensures next == FirstField(bytes[offset..])
  {
    hide FirstContents, FirstVarint;
    var tag := ReadVarint(bytes, offset);
    if tag == None {
      return None;
    }
    var start := offset + tag.value.length;
    assert bytes[offset..][tag.value.length..] == bytes[start..];
    var wire, number := tag.value.value % 8, tag.value.value / 8;
    if number == 0 || number > MAX_FIELD_NUMBER {
      return None;
    }
    next := ReadContents(bytes, start, number, wire);
    if next.Some? {
      next := Some(next.value.(length := tag.value.length + next.value.length));
    }
  }

  method ReadContents(bytes: seq<byte>, start: nat, number: nat, wire: nat)
    returns (next: Option<NextField>)
    requires start <= |bytes|
    ensures next == FirstContents(bytes[start..], number, wire)
  {
    if wire == 0 {
      var value := ReadVarint(bytes, start);
      return if value == None then None
             else Some(NextField(Field(number, 0, None, Some(value.value.value)), value.value.length));
    }
    if wire == 1 {
      return if |bytes| - start < 8 then None else Some(NextField(Field(number, 1, None, None), 8));
    }
    if wire == 5 {
      return if |bytes| - start < 4 then None else Some(NextField(Field(number, 5, None, None), 4));
    }
    if wire != 2 {
      return None;
    }
    var encodedLength := ReadVarint(bytes, start);
    if encodedLength == None || encodedLength.value.value > MAX_SAFE_INTEGER {
      return None;
    }
    var from := start + encodedLength.value.length;
    if encodedLength.value.value > |bytes| - from {
      return None;
    }
    var payload := bytes[from..from + encodedLength.value.value];
    assert payload == bytes[start..][from - start..from - start + encodedLength.value.value];
    return Some(NextField(Field(number, 2, Some(payload), None), from - start + encodedLength.value.value));
  }

  // ----- The scanner accepts exactly the well-formed messages -----

  /** s is one well-formed encoding of f, read off the format, not the reader. */
  ghost predicate Encodes(s: seq<byte>, f: Field) {
    && 1 <= f.number <= MAX_FIELD_NUMBER
    && exists i :: 0 <= i <= |s| && IsTag(s[..i], f) && IsContents(s[i..], f)
  }

  predicate IsTag(s: seq<byte>, f: Field) {
    IsVarint(s) && VarintValue(s) == 8 * f.number + f.wire
  }

  ghost predicate IsContents(s: seq<byte>, f: Field) {
    match f.wire
    case 0 => IsVarint(s) && f.payload == None && f.value == Some(VarintValue(s))
    case 1 => |s| == 8 && f.payload == None && f.value == None
    case 5 => |s| == 4 && f.payload == None && f.value == None
    case 2 => f.value == None && f.payload.Some?
              && exists j :: 0 <= j <= |s| && IsLength(s[..j], |s| - j) && f.payload.value == s[j..]
    case _ => false
  }

  predicate IsLength(s: seq<byte>, n: int) {
    IsVarint(s) && VarintValue(s) == n <= MAX_SAFE_INTEGER
  }

  ghost predicate IsMessage(s: seq<byte>, fields: seq<Field>)
    decreases |fields|
  {
    if fields == [] then s == []
    else exists n: nat :: 0 < n <= |s| && Encodes(s[..n], fields[0]) && IsMessage(s[n..], fields[1..])
  }

  lemma FirstContentsEncoded(s: seq<byte>, number: nat, wire: nat)
    requires FirstContents(s, number, wire).Some?
    ensures var next := FirstContents(s, number, wire).value;
            IsContents(s[..next.length], next.field)
  {
    var next := FirstContents(s, number, wire).value;
    var e := s[..next.length];
    if wire == 0 || wire == 2 {
      var v := FirstVarint(s).value;
      FirstVarintExact(s, v.length);
      assert e[..v.length] == s[..v.length];
      if wire == 2 {
        assert e[v.length..] == s[v.length..next.length];
        assert IsLength(e[..v.length], |e| - v.length);
      }
    }
  }

  lemma EncodedContentsFirst(e: seq<byte>, f: Field, rest: seq<byte>)
    requires IsContents(e, f)
    ensures f.wire <= 5 && FirstContents(e + rest, f.number, f.wire) == Some(NextField(f, |e|))
  {
    var s := e + rest;
    if f.wire == 0 {
      assert s[..|e|] == e;
      FirstVarintExact(s, |e|);
    } else if f.wire == 2 {
      var j :| 0 <= j <= |e| && IsLength(e[..j], |e| - j) && f.payload.value == e[j..];
      assert s[..j] == e[..j];
      FirstVarintExact(s, j);
      assert s[j..|e|] == e[j..];
    }
  }

  lemma FirstFieldEncodes(s: seq<byte>)
    requires FirstField(s).Some?
    ensures Encodes(s[..FirstField(s).value.length], FirstField(s).value.field)
  {
    var NextField(f, n) := FirstField(s).value;
    var tag := FirstVarint(s).value;
    FirstVarintExact(s, tag.length);
    FirstContentsEncoded(s[tag.length..], f.number, f.wire);
    var e := s[..n];
    assert e[..tag.length] == s[..tag.length];
    assert e[tag.length..] == s[tag.length..][..n - tag.length];
    assert IsTag(e[..tag.length], f);
  }

  lemma EncodedFieldIsFirst(e: seq<byte>, f: Field, rest: seq<byte>)
    requires Encodes(e, f)
    ensures e != [] && FirstField(e + rest) == Some(NextField(f, |e|))
  {
    hide FirstContents, FirstVarint, IsContents;
    var i :| 0 <= i <= |e| && IsTag(e[..i], f) && IsContents(e[i..], f);
    Cut(e, rest, i);
    FirstVarintExact(e + rest, i);
    EncodedContentsFirst(e[i..], f, rest);
  }

  /** The scanner succeeds with a field list exactly when the bytes are the
      concatenation of well-formed encodings of those fields. */
  lemma {:induction false} ScanAcceptsExactly(s: seq<byte>, fields: seq<Field>)
    ensures Scan(s) == Scanned(true, fields) <==> IsMessage(s, fields)
    decreases |s|
  {
    hide FirstField, Encodes;
    if Scan(s) == Scanned(true, fields) && s != [] {
      var next := FirstField(s).value;
      FirstFieldEncodes(s);
      assert fields[1..] == Scan(s[next.length..]).fields;
      ScanAcceptsExactly(s[next.length..], fields[1..]);
    }
    if IsMessage(s, fields) && fields != [] {
      var n: nat :| 0 < n <= |s| && Encodes(s[..n], fields[0]) && IsMessage(s[n..], fields[1..]);
      EncodedFieldIsFirst(s[..n], fields[0], s[n..]);
      assert s[..n] + s[n..] == s;
      ScanAcceptsExactly(s[n..], fields[1..]);
    }
  }

  lemma FirstFieldLocal(s: seq<byte>, rest: seq<byte>)
    requires FirstField(s).Some?
    ensures FirstField(s + rest) == FirstField(s)
  {
    hide FirstVarint, FirstContents, Encodes;
    var next := FirstField(s).value;
    FirstFieldEncodes(s);
    EncodedFieldIsFirst(s[..next.length], next.field, s[next.length..] + rest);
    Resume(s, rest, next.length);
  }

  /** Scanning distributes over concatenation after any complete message. */
  lemma {:induction false} ScanConcatenation(a: seq<byte>, b: seq<byte>)
    requires Scan(a).ok
    ensures Scan(a + b) == Scanned(Scan(b).ok, Scan(a).fields + Scan(b).fields)
    decreases |a|
  {
    hide FirstField;
    if a == [] {
      assert a + b == b;
    } else {
      var NextField(f, n) := FirstField(a).value;
      FirstFieldLocal(a, b);
      Cut(a, b, n);
      ScanConcatenation(a[n..], b);
      assert [f] + (Scan(a[n..]).fields + Scan(b).fields) == Scan(a).fields + Scan(b).fields;
    }
  }

  // ----- The encoder -----

  /** A field to write, with the raw contents the scanner skips. */
  datatype WireField =
    | Varint(number: nat, v: nat)
    | Fixed64(number: nat, raw: seq<byte>)
    | Bytes(number: nat, raw: seq<byte>)
    | Fixed32(number: nat, raw: seq<byte>)
  {
    predicate Writable() {
      && 1 <= number <= MAX_FIELD_NUMBER
      && match this
         case Varint(_, v) => v < TWO_TO_THE_64
         case Fixed64(_, raw) => |raw| == 8
         case Bytes(_, raw) => |raw| <= MAX_SAFE_INTEGER
         case Fixed32(_, raw) => |raw| == 4
    }

    function Wire(): nat {
      match this
      case Varint(_, _) => 0
      case Fixed64(_, _) => 1
      case Bytes(_, _) => 2
      case Fixed32(_, _) => 5
    }

    function Report(): Field {
      match this
      case Varint(n, v) => Field(n, 0, None, Some(v))
      case Bytes(n, raw) => Field(n, 2, Some(raw), None)
      case _ => Field(number, Wire(), None, None)
    }

    function Encode(): seq<byte> {
      EncodeVarint(8 * number + Wire()) + Contents()
    }

    function Contents(): seq<byte> {
      match this
      case Varint(_, v) => EncodeVarint(v)
      case Bytes(_, raw) => EncodeVarint(|raw|) + raw
      case _ => raw
    }
  }

  function EncodeAll(fields: seq<WireField>): seq<byte> {
    if fields == [] then [] else fields[0].Encode() + EncodeAll(fields[1..])
  }

  function ReportAll(fields: seq<WireField>): seq<Field> {
    if fields == [] then [] else [fields[0].Report()] + ReportAll(fields[1..])
  }

  lemma EncodeContents(f: WireField)
    requires f.Writable()
    ensures IsContents(f.Contents(), f.Report())
  {
    match f {
      case Varint(_, v) => EncodeVarintIsVarint(v);
      case Bytes(_, raw) =>
        EncodeVarintIsVarint(|raw|);
        var len := EncodeVarint(|raw|);
        assert (len + raw)[..|len|] == len;
        assert (len + raw)[|len|..] == raw;
        assert IsLength(len, |len + raw| - |len|);
      case _ =>
    }
  }

  lemma EncodeField(f: WireField)
    requires f.Writable()
    ensures Encodes(f.Encode(), f.Report())
  {
    var tag := EncodeVarint(8 * f.number + f.Wire());
    EncodeVarintIsVarint(8 * f.number + f.Wire());
    EncodeContents(f);
    assert f.Encode()[..|tag|] == tag;
    assert f.Encode()[|tag|..] == f.Contents();
    assert IsTag(tag, f.Report());
  }

  /** Scanning inverts encoding. */
  lemma {:induction false} ScanEncoded(fields: seq<WireField>)
    requires forall f :: f in fields ==> f.Writable()
    ensures Scan(EncodeAll(fields)) == Scanned(true, ReportAll(fields))
  {
    if fields != [] {
      EncodeField(fields[0]);
      var e, rest := fields[0].Encode(), EncodeAll(fields[1..]);
      EncodedFieldIsFirst(e, fields[0].Report(), rest);
      assert (e + rest)[|e|..] == rest;
      ScanEncoded(fields[1..]);
    }
  }
}
