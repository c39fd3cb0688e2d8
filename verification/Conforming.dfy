/** Stored data that two descriptor snapshots read alike, field by field: what an
    encoder of a schema common to both writes, and the work it takes to look
    through it (src/chat/dataCompatibility.ts). */
module Conforming {
  import opened Basics
  import opened Wire
  import opened Descriptors

  const MAX_FIELDS := 1_000_000
  const MAX_BYTES := 128 * 1024 * 1024
  const MAX_DEPTH := 64

  function Size(f: Field): nat {
    if f.payload.Some? then |f.payload.value| else 0
  }

  lemma PayloadSmaller(bytes: seq<byte>, i: nat)
    requires i < |Scan(bytes).fields|
    ensures Size(Scan(bytes).fields[i]) < |bytes|
  {
    hide Scan;
    PayloadsShorter(bytes);
    ScanSomething(bytes);
  }

  lemma ScanSomething(bytes: seq<byte>)
    ensures Scan(bytes).fields != [] ==> bytes != []
  {
  }

  /** The name reaches fewer than 256 types, all identical. */
  ghost predicate SmallIdentical(a: Snapshot, b: Snapshot, name: string) {
    exists graph :: SmallGraph(a, b, {}, [name], graph)
  }

  // ----- Contents of one field -----

  /** The wire types of the scalar codes of descriptor.proto: double, fixed64 and
      sfixed64 take eight bytes, float, fixed32 and sfixed32 four, text and bytes
      are delimited, the rest are varints; and repeated numbers may be packed. */
  ghost predicate ScalarFits(code: int, repeated: bool, f: Field) {
    || (code in {1, 6, 16} && (f.wire == 1 || (repeated && HoldsRows(f, 8))))
    || (code in {2, 7, 15} && (f.wire == 5 || (repeated && HoldsRows(f, 4))))
    || (code in {9, 12} && f.wire == 2)
    || (code in {3, 4, 5, 8, 13, 17, 18} && (f.wire == 0 || (repeated && HoldsVarints(f))))
  }

  ghost predicate HoldsRows(f: Field, width: nat)
    requires width > 0
  {
    f.wire == 2 && f.payload.Some? && |f.payload.value| % width == 0
  }

  predicate HoldsVarints(f: Field) {
    f.wire == 2 && f.payload.Some? && Packed(f.payload.value).Some?
  }

  /** Both snapshots know the enum value by the same entry. */
  ghost predicate Known(a: Snapshot, b: Snapshot, name: string, v: nat) {
    FindEnum(a, name, AsInt32(v)).Some? && FindEnum(a, name, AsInt32(v)) == FindEnum(b, name, AsInt32(v))
  }

  ghost predicate EnumFits(a: Snapshot, b: Snapshot, name: string, repeated: bool, f: Field) {
    || (SmallIdentical(a, b, name) && (f.wire == 0 || (f.wire == 2 && repeated)))
    || (f.wire == 0 && f.value.Some? && Known(a, b, name, f.value.value))
    || (repeated && HoldsVarints(f) && forall v :: v in Packed(f.payload.value).value ==> Known(a, b, name, v))
  }

  /** The field holds what its descriptor says, nested messages and map entries
      included, and both snapshots describe everything in it alike. */
  ghost predicate Fits(a: Snapshot, b: Snapshot, d: Descriptor, f: Field, depth: nat)
    decreases Size(f), 2
  {
    match d.kind
    case OtherKind => false
    case ScalarKind => d.T.Scalar? && ScalarFits(d.T.code, d.repeated, f)
    case EnumKind => d.T.Named? && EnumFits(a, b, d.T.name, d.repeated, f)
    case MapKind =>
      f.wire == 2 && f.payload.Some? && d.V.Some? && EntryFits(a, b, d.K, d.V.value, f.payload.value, depth)
    case MessageKind =>
      f.wire == 2 && f.payload.Some? && d.T.Named? && MessageFits(a, b, d.T.name, f.payload.value, depth)
  }

  ghost predicate MessageFits(a: Snapshot, b: Snapshot, name: string, payload: seq<byte>, depth: nat)
    decreases |payload|, 1
  {
    && depth <= MAX_DEPTH && name in a.messages && name in b.messages && Scan(payload).ok
    && forall i ::
         0 <= i < |Scan(payload).fields| ==> PartFits(a, b, a.messages[name], b.messages[name], payload, i, depth)
  }

  /** Field i of the payload has one descriptor in both definitions and fits it. */
  ghost predicate PartFits(a: Snapshot, b: Snapshot, defA: seq<Descriptor>, defB: seq<Descriptor>, payload: seq<byte>,
                           i: nat, depth: nat)
    requires i < |Scan(payload).fields|
    decreases |payload|, 0
  {
    var f := Scan(payload).fields[i];
    PayloadSmaller(payload, i);
    Find(defA, f.number).Some? && Find(defA, f.number) == Find(defB, f.number)
    && Fits(a, b, Find(defA, f.number).value, f, depth + 1)
  }

  /** A map entry has keys under 1 and values under 2, and nothing else. */
  ghost predicate EntryFits(a: Snapshot, b: Snapshot, k: TypeRef, v: ValueType, entry: seq<byte>, depth: nat)
    decreases |entry|, 1
  {
    && Scan(entry).ok
    && forall i :: 0 <= i < |Scan(entry).fields| ==> HalfFits(a, b, k, v, entry, i, depth)
  }

  ghost predicate HalfFits(a: Snapshot, b: Snapshot, k: TypeRef, v: ValueType, entry: seq<byte>, i: nat, depth: nat)
    requires i < |Scan(entry).fields|
    decreases |entry|, 0
  {
    var f := Scan(entry).fields[i];
    PayloadSmaller(entry, i);
    && (f.number == 1 ==> k.Scalar? && ScalarFits(k.code, false, f))
    && (f.number != 1 ==>
          f.number == 2 && Fits(a, b, Descriptor(2, "value", v.kind, v.T, NoType, None, false, ""), f, depth + 1))
  }

  // ----- The work -----

  /** Fields counted and nested bytes opened. */
  datatype Work = Work(fields: nat, bytes: nat) {
    function Plus(w: Work): Work {
      Work(fields + w.fields, bytes + w.bytes)
    }
  }

  const NO_WORK := Work(0, 0)

  /** Packed varints are looked at one by one; packed rows of bytes are not. */
  function PackedCount(d: Descriptor, f: Field): nat {
    if d.repeated && HoldsVarints(f) && !(d.kind == ScalarKind && d.T.Scalar?
                                          && d.T.code in {1, 2, 6, 7, 9, 12, 15, 16})
    then |Packed(f.payload.value).value| else 0
  }

  /** The fields below one field, packed values counting one each, and the bytes of
      the messages below it. */
  ghost function FieldWork(s: Snapshot, d: Descriptor, f: Field): Work
    decreases Size(f), 2
  {
    match d.kind
    case MessageKind =>
      if f.payload.Some? && d.T.Named? then MessageWork(s, d.T.name, f.payload.value) else NO_WORK
    case MapKind =>
      if f.payload.Some? && d.V.Some? then EntryWork(s, d.V.value, f.payload.value, |Scan(f.payload.value).fields|)
      else NO_WORK
    case _ => Work(PackedCount(d, f), 0)
  }

  ghost function MessageWork(s: Snapshot, name: string, payload: seq<byte>): Work
    decreases |payload|, 1
  {
    if name !in s.messages then NO_WORK
    else Work(0, |payload|).Plus(PartsWork(s, s.messages[name], payload, |Scan(payload).fields|))
  }

  ghost function PartsWork(s: Snapshot, def: seq<Descriptor>, payload: seq<byte>, n: nat): Work
    requires n <= |Scan(payload).fields|
    decreases |payload|, 0, n
  {
    if n == 0 then NO_WORK
    else
      var f := Scan(payload).fields[n - 1];
      PayloadSmaller(payload, n - 1);
      var own := if Find(def, f.number).Some? then FieldWork(s, Find(def, f.number).value, f) else NO_WORK;
      PartsWork(s, def, payload, n - 1).Plus(Work(1, 0)).Plus(own)
  }

  ghost function EntryWork(s: Snapshot, v: ValueType, entry: seq<byte>, n: nat): Work
    requires n <= |Scan(entry).fields|
    decreases |entry|, 0, n
  {
    if n == 0 then NO_WORK
    else
      var f := Scan(entry).fields[n - 1];
      PayloadSmaller(entry, n - 1);
      var own := if f.number == 2 then FieldWork(s, ValueField(v), f) else NO_WORK;
      EntryWork(s, v, entry, n - 1).Plus(Work(1, 0)).Plus(own)
  }

  lemma {:induction false} PartsWorkGrows(s: Snapshot, def: seq<Descriptor>, payload: seq<byte>, m: nat, n: nat)
    requires m <= n <= |Scan(payload).fields|
    ensures PartsWork(s, def, payload, m).fields <= PartsWork(s, def, payload, n).fields
    ensures PartsWork(s, def, payload, m).bytes <= PartsWork(s, def, payload, n).bytes
  {
    hide Scan, FieldWork;
    if m < n {
      PartsWorkGrows(s, def, payload, m, n - 1);
    }
  }

  lemma {:induction false} EntryWorkGrows(s: Snapshot, v: ValueType, entry: seq<byte>, m: nat, n: nat)
    requires m <= n <= |Scan(entry).fields|
    ensures EntryWork(s, v, entry, m).fields <= EntryWork(s, v, entry, n).fields
    ensures EntryWork(s, v, entry, m).bytes <= EntryWork(s, v, entry, n).bytes
  {
    hide Scan, FieldWork;
    if m < n {
      EntryWorkGrows(s, v, entry, m, n - 1);
    }
  }

  lemma PartsStep(a: Snapshot, b: Snapshot, defA: seq<Descriptor>, defB: seq<Descriptor>, payload: seq<byte>, i: nat,
                  depth: nat)
    requires i < |Scan(payload).fields| && PartFits(a, b, defA, defB, payload, i, depth)
    ensures var f := Scan(payload).fields[i];
            && Find(defA, f.number).Some? && Find(defA, f.number) == Find(defB, f.number)
            && Fits(a, b, Find(defA, f.number).value, f, depth + 1)
            && PartsWork(a, defA, payload, i + 1) ==
               PartsWork(a, defA, payload, i).Plus(Work(1, 0)).Plus(FieldWork(a, Find(defA, f.number).value, f))
    ensures PartsWork(a, defA, payload, i + 1).fields <= PartsWork(a, defA, payload, |Scan(payload).fields|).fields
    ensures PartsWork(a, defA, payload, i + 1).bytes <= PartsWork(a, defA, payload, |Scan(payload).fields|).bytes
  {
    hide Scan, FieldWork, Fits;
    PartsWorkGrows(a, defA, payload, i + 1, |Scan(payload).fields|);
  }

  lemma HalfStep(a: Snapshot, b: Snapshot, k: TypeRef, v: ValueType, entry: seq<byte>, i: nat, depth: nat)
    requires i < |Scan(entry).fields| && HalfFits(a, b, k, v, entry, i, depth)
    ensures var f := Scan(entry).fields[i];
            var d := if f.number == 1 then Descriptor(1, "key", ScalarKind, k, NoType, None, false, "")
                     else ValueField(v);
            && (f.number == 1 || f.number == 2) && Fits(a, b, d, f, depth + 1)
            && EntryWork(a, v, entry, i + 1) == EntryWork(a, v, entry, i).Plus(Work(1, 0)).Plus(FieldWork(a, d, f))
    ensures EntryWork(a, v, entry, i + 1).fields <= EntryWork(a, v, entry, |Scan(entry).fields|).fields
    ensures EntryWork(a, v, entry, i + 1).bytes <= EntryWork(a, v, entry, |Scan(entry).fields|).bytes
  {
    hide Scan, ScalarFits;
    EntryWorkGrows(a, v, entry, i + 1, |Scan(entry).fields|);
  }

  // ----- What an encoder writes -----

  /** The value of a scalar type as an encoder writes it: eight bytes, four bytes,
      delimited bytes or a varint. */
  ghost predicate IsScalarValue(code: int, w: WireField) {
    w.Writable() &&
    match w
    case Fixed64(_, _) => code in {1, 6, 16}
    case Fixed32(_, _) => code in {2, 7, 15}
    case Bytes(_, _) => code in {9, 12}
    case Varint(_, _) => code in {3, 4, 5, 8, 13, 17, 18}
  }

  lemma ScalarValuesFit(code: int, repeated: bool, w: WireField)
    requires IsScalarValue(code, w)
    ensures ScalarFits(code, repeated, w.Report())
  {
  }

  function EncodeVarints(values: seq<nat>): seq<byte> {
    if values == [] then [] else EncodeVarint(values[0]) + EncodeVarints(values[1..])
  }

  /** Packed varints are read back. */
  lemma {:induction false} PackedEncoded(values: seq<nat>)
    requires forall i :: 0 <= i < |values| ==> values[i] < TWO_TO_THE_64
    ensures Packed(EncodeVarints(values)) == Some(values)
  {
    hide FirstVarint, EncodeVarint;
    if values != [] {
      var e, rest := EncodeVarint(values[0]), EncodeVarints(values[1..]);
      ReadEncodedVarint(values[0], rest);
      EncodeVarintIsVarint(values[0]);
      assert (e + rest)[|e|..] == rest;
      PackedEncoded(values[1..]);
      assert |e| > 0 && e + rest == EncodeVarints(values);
      assert [values[0]] + values[1..] == values;
      assert Packed(e + rest) == Some([values[0]] + values[1..]);
    }
  }

  /** A message written field by field, each by a descriptor common to both
      snapshots, fits. */
  lemma EncodedMessageFits(a: Snapshot, b: Snapshot, name: string, ws: seq<WireField>, depth: nat)
    requires depth <= MAX_DEPTH && name in a.messages && name in b.messages
    requires forall w :: w in ws ==> w.Writable() && WrittenFor(a, b, name, w, depth)
    ensures MessageFits(a, b, name, EncodeAll(ws), depth)
  {
    hide Scan, Find, Fits;
    ScanEncoded(ws);
    var payload := EncodeAll(ws);
    forall i | 0 <= i < |Scan(payload).fields|
      ensures PartFits(a, b, a.messages[name], b.messages[name], payload, i, depth)
    {
      ReportAt(ws, i);
      assert WrittenFor(a, b, name, ws[i], depth);
    }
  }

  /** A double in a nested message is read whatever else the type has gained. */
  lemma NestedDoubleFits(a: Snapshot, b: Snapshot, d: Descriptor, inner: Descriptor, number: nat, raw: seq<byte>,
                         depth: nat)
    requires d.kind == MessageKind && d.T.Named? && d.T.name in a.messages && d.T.name in b.messages
    requires inner.no == 1 && inner.kind == ScalarKind && inner.T == Scalar(1) && |raw| == 8 && depth <= MAX_DEPTH
    requires Find(a.messages[d.T.name], 1) == Some(inner) == Find(b.messages[d.T.name], 1)
    ensures Fits(a, b, d, Field(number, 2, Some(EncodeAll([Fixed64(1, raw)])), None), depth)
  {
    hide EncodeAll, MessageFits;
    var w := Fixed64(1, raw);
    ScalarValuesFit(1, inner.repeated, w);
    EncodedMessageFits(a, b, d.T.name, [w], depth);
  }

  ghost predicate WrittenFor(a: Snapshot, b: Snapshot, name: string, w: WireField, depth: nat)
    requires name in a.messages && name in b.messages
  {
    var d := Find(a.messages[name], w.number);
    d.Some? && d == Find(b.messages[name], w.number) && Fits(a, b, d.value, w.Report(), depth + 1)
  }

  lemma {:induction false} ReportAt(ws: seq<WireField>, i: nat)
    requires i < |ReportAll(ws)|
    ensures i < |ws| && ReportAll(ws)[i] == ws[i].Report()
  {
    if i > 0 {
      ReportAt(ws[1..], i - 1);
    }
  }

  // ----- What decoding keeps -----

  /** A message is decoded exactly if it is known and well formed, to one node for
      every field in order: the field itself if the schema has no such number, else
      its descriptor and value. */
  lemma MessageDecodes(s: Snapshot, name: string, bytes: seq<byte>)
    ensures DecodeMessage(s, name, bytes).Message? <==> name in s.messages && Scan(bytes).ok
    ensures DecodeMessage(s, name, bytes) == Malformed <==> name in s.messages && !Scan(bytes).ok
    ensures name in s.messages && Scan(bytes).ok ==>
              && |DecodeMessage(s, name, bytes).nodes| == |Scan(bytes).fields|
              && forall i :: 0 <= i < |Scan(bytes).fields| ==>
                   NodeIs(s, s.messages[name], bytes, i, DecodeMessage(s, name, bytes).nodes[i])
  {
    hide Scan, DecodeNodes, NodeIs;
    if name in s.messages && Scan(bytes).ok {
      NodesByPosition(s, s.messages[name], bytes, |Scan(bytes).fields|);
    }
  }

  ghost predicate NodeIs(s: Snapshot, def: seq<Descriptor>, bytes: seq<byte>, i: nat, node: Node)
    requires i < |Scan(bytes).fields|
  {
    var f := Scan(bytes).fields[i];
    PayloadSmaller(bytes, i);
    match node
    case UnknownField(own) => own == f && forall d :: d in def ==> d.no != f.number
    case KnownField(d, value) =>
      d in def && d.no == f.number && value == DecodeField(s, d, f, |bytes|)
  }

  lemma {:induction false} NodesByPosition(s: Snapshot, def: seq<Descriptor>, bytes: seq<byte>, n: nat)
    requires n <= |Scan(bytes).fields|
    ensures |DecodeNodes(s, def, bytes, n)| == n
    ensures forall i :: 0 <= i < n ==> NodeIs(s, def, bytes, i, DecodeNodes(s, def, bytes, n)[i])
    decreases n
  {
    hide Scan, DecodeField, Find;
    if n > 0 {
      NodesByPosition(s, def, bytes, n - 1);
      var f := Scan(bytes).fields[n - 1];
      FoundOrNot(def, f.number);
    }
  }

  lemma {:induction false} FoundOrNot(def: seq<Descriptor>, no: int)
    ensures match Find(def, no)
            case None => forall d :: d in def ==> d.no != no
            case Some(d) => d in def && d.no == no
  {
    if def != [] {
      FoundOrNot(def[1..], no);
    }
  }

  /** Array.prototype.find: the first with the number. */
  lemma {:induction false} FindMeans(fields: seq<Descriptor>, no: int, d: Descriptor)
    ensures Find(fields, no) == Some(d) <==>
            exists i ::
              0 <= i < |fields| && fields[i] == d && d.no == no && forall j :: 0 <= j < i ==> fields[j].no != no
  {
    if fields != [] {
      FindMeans(fields[1..], no, d);
      if i :| 0 <= i < |fields| && fields[i] == d && d.no == no && forall j :: 0 <= j < i ==> fields[j].no != no {
        if i > 0 {
          assert fields[1..][i - 1] == d && forall j :: 0 <= j < i - 1 ==> fields[1..][j] == fields[j + 1];
        }
      }
      if i :| 0 <= i < |fields[1..]| && fields[1..][i] == d && d.no == no
              && forall j :: 0 <= j < i ==> fields[1..][j].no != no {
        assert fields[i + 1] == d;
        assert fields[0].no != no ==> forall j :: 0 <= j < i + 1 ==> fields[j].no != no;
      }
    }
  }

  /** The 32-bit two's-complement reading of a varint. */
  lemma AsInt32Means(v: nat, n: int)
    ensures AsInt32(v) == n <==> -0x8000_0000 <= n < 0x8000_0000 && (v - n) % 0x1_0000_0000 == 0
  {
  }
}
