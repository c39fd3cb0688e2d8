/** Protobuf descriptor snapshots, what it means to decode bytes with one, and
    the descriptor comparison of src/chat/dataCompatibility.ts. */
module Descriptors {
  import opened Basics
  import opened Wire

  datatype Kind = MessageKind | MapKind | EnumKind | ScalarKind | OtherKind

  /** The T, K or V.T property: absent, a scalar code, or a type name. */
  datatype TypeRef = NoType | Scalar(code: int) | Named(name: string)

  datatype ValueType = ValueType(kind: Kind, T: TypeRef)

  /** A field of a message or an entry of an enum; rest stands for the other
      literal properties, which only take part in comparison. */
  datatype Descriptor = Descriptor(
    no: int, name: string, kind: Kind, T: TypeRef, K: TypeRef, V: Option<ValueType>, repeated: bool, rest: string)

  datatype Snapshot = Snapshot(messages: map<string, seq<Descriptor>>, enums: map<string, seq<Descriptor>>)

  /** messages[name] ?? enums?.[name] */
  function TypeOf(s: Snapshot, name: string): Option<seq<Descriptor>> {
    if name in s.messages then Some(s.messages[name])
    else if name in s.enums then Some(s.enums[name]) else None
  }

  /** Array.prototype.find by number */
  function Find(fields: seq<Descriptor>, no: int): Option<Descriptor> {
    if fields == [] then None else if fields[0].no == no then Some(fields[0]) else Find(fields[1..], no)
  }

  function FindEnum(s: Snapshot, name: string, no: int): Option<Descriptor> {
    if name in s.enums then Find(s.enums[name], no) else None
  }

  // ----- Decoding -----

  /** A decoded message: its fields with the numbers, names, kinds and types the
      schema gives them, enum values with their labels, and raw wire contents at
      the leaves. */
  datatype Tree =
    | NoSuchMessage
    | Malformed
    | Message(nodes: seq<Node>)

  datatype Node =
    | UnknownField(field: Field)
    | KnownField(descriptor: Descriptor, value: Value)

  datatype Value =
    | Raw(field: Field)
    | Nested(tree: Tree)
    | Labels(labels: seq<Option<Descriptor>>)
    | Entries(wellFormed: bool, values: seq<Value>)

  /** BigInt.asIntN(32, value) */
  function AsInt32(value: nat): int {
    var low := value % 0x1_0000_0000;
    if low < 0x8000_0000 then low else low - 0x1_0000_0000
  }

  /** The values of a packed varint payload, if it is one. */
  function Packed(payload: seq<byte>): Option<seq<nat>> {
    if payload == [] then Some([])
    else
      match FirstVarint(payload)
      case None => None
      case Some(v) =>
        match Packed(payload[v.length..])
        case None => None
        case Some(rest) => Some([v.value] + rest)
  }

  function LabelsOf(s: Snapshot, name: string, values: seq<nat>): seq<Option<Descriptor>> {
    if values == [] then [] else [FindEnum(s, name, AsInt32(values[0]))] + LabelsOf(s, name, values[1..])
  }

  /** The value half of a map entry as a field of its own. */
  function ValueField(v: ValueType): Descriptor {
    Descriptor(2, "value", v.kind, v.T, NoType, None, false, "")
  }

  function DecodeMessage(s: Snapshot, name: string, bytes: seq<byte>): Tree
    decreases |bytes|, 3
  {
    if name !in s.messages then NoSuchMessage
    else if !Scan(bytes).ok then Malformed
    else Message(DecodeNodes(s, s.messages[name], bytes, |Scan(bytes).fields|))
  }

  function DecodeNodes(s: Snapshot, def: seq<Descriptor>, bytes: seq<byte>, n: nat): seq<Node>
    requires n <= |Scan(bytes).fields|
    decreases |bytes|, 2, n
  {
    if n == 0 then []
    else
      var f := Scan(bytes).fields[n - 1];
      PayloadsShorter(bytes);
      DecodeNodes(s, def, bytes, n - 1) +
      match Find(def, f.number)
      case None => [UnknownField(f)]
      case Some(d) => [KnownField(d, DecodeField(s, d, f, |bytes|))]
  }

  function DecodeField(s: Snapshot, d: Descriptor, f: Field, ghost bound: nat): Value
    requires f.payload.Some? ==> |f.payload.value| < bound
    decreases bound, 1
  {
    if d.kind == MessageKind && d.T.Named? && f.payload.Some? then Nested(DecodeMessage(s, d.T.name, f.payload.value))
    else if d.kind == EnumKind && d.T.Named? then
      if f.wire == 0 && f.value.Some? then Labels(LabelsOf(s, d.T.name, [f.value.value]))
      else if f.payload.Some? && Packed(f.payload.value).Some? then Labels(LabelsOf(s, d.T.name,
                                                                                    Packed(f.payload.value).value))
      else Raw(f)
    else if d.kind == MapKind && d.V.Some? && f.payload.Some? then
      var entry := f.payload.value;
      Entries(Scan(entry).ok, DecodeEntry(s, d.V.value, entry, |Scan(entry).fields|))
    else Raw(f)
  }

  function DecodeEntry(s: Snapshot, v: ValueType, entry: seq<byte>, n: nat): seq<Value>
    requires n <= |Scan(entry).fields|
    decreases |entry|, 2, n
  {
    if n == 0 then []
    else
      var f := Scan(entry).fields[n - 1];
      PayloadsShorter(entry);
      DecodeEntry(s, v, entry, n - 1) + [if f.number == 2 then DecodeField(s, ValueField(v), f, |entry|) else Raw(f)]
  }

  // ----- Identical types -----

  /** Type names a descriptor refers to, T before V. */
  function NamesOf(d: Descriptor): seq<string> {
    (if d.T.Named? then [d.T.name] else []) + (if d.V.Some? && d.V.value.T.Named? then [d.V.value.T.name] else [])
  }

  /** All type names the descriptors refer to, with repetitions. */
  function NamesIn(fields: seq<Descriptor>): seq<string> {
    if fields == [] then [] else NamesOf(fields[0]) + NamesIn(fields[1..])
  }

  lemma {:induction false} NamesInAll(fields: seq<Descriptor>, d: Descriptor)
    requires d in fields
    ensures forall n :: n in NamesOf(d) ==> n in NamesIn(fields)
  {
    if d != fields[0] {
      assert d in fields[1..];
      NamesInAll(fields[1..], d);
    }
  }

  predicate Identical(a: Snapshot, b: Snapshot, name: string) {
    TypeOf(a, name).Some? && TypeOf(a, name) == TypeOf(b, name)
  }

  /** Every name of the set has the same definition in both snapshots, and all
      names it refers to are in the set too. */
  ghost predicate IdenticalSet(a: Snapshot, b: Snapshot, names: set<string>) {
    forall n :: n in names ==> Identical(a, b, n) && Elements(NamesIn(TypeOf(a, n).value)) <= names
  }

  /** All types reachable from the name, cycles included, are identical. */
  ghost predicate IdenticalGraph(a: Snapshot, b: Snapshot, name: string) {
    exists names :: name in names && IdenticalSet(a, b, names)
  }

  const MAX_NAMES := 256

  /** Everything added to the visited names is identical and refers only to
      visited names. */
  ghost predicate ClosedBeyond(a: Snapshot, b: Snapshot, before: set<string>, after: set<string>) {
    forall n :: n in after && n !in before ==> Identical(a, b, n) && Elements(NamesIn(TypeOf(a, n).value)) <= after
  }

  /** A small identical graph holds the names visited so far and these ones. */
  ghost predicate SmallGraph(a: Snapshot, b: Snapshot, visiting: set<string>, names: seq<string>, graph: set<string>) {
    IdenticalSet(a, b, graph) && visiting <= graph && Elements(names) <= graph && |graph| < MAX_NAMES
  }

  /** sameOpaqueType: the visiting set only grows. A true answer means the whole
      graph is identical; a graph of fewer than 256 identical types always gets
      one. */
  method SameOpaqueType(a: Snapshot, b: Snapshot, name: string, visiting: set<string>)
    returns (same: bool, visited: set<string>)
    requires |visiting| <= MAX_NAMES
    ensures visiting <= visited && |visited| <= MAX_NAMES
    ensures same ==> name in visited && ClosedBeyond(a, b, visiting, visited)
    ensures forall graph :: SmallGraph(a, b, visiting, [name], graph) ==> same && visited <= graph
    decreases MAX_NAMES - |visiting|, 0, 1
  {
    hide IdenticalSet, TypeOf, NamesIn;
    if |visiting| >= MAX_NAMES {
      forall graph ensures !SmallGraph(a, b, visiting, [name], graph) {
        NotSmall(a, b, visiting, [name], graph);
      }
      return false, visiting;
    }
    assert name in [name];
    if name in visiting {
      return true, visiting;
    }
    visited := visiting + {name};
    forall graph | SmallGraph(a, b, visiting, [name], graph)
      ensures Identical(a, b, name) && SmallGraph(a, b, visited, NamesIn(TypeOf(a, name).value), graph)
    {
      Opened(a, b, visiting, name, graph);
    }
    if !Identical(a, b, name) {
      return false, visited;
    }
    ghost var opened_ := visited;
    same, visited := SameTypes(a, b, NamesIn(TypeOf(a, name).value), visited);
    assert same ==> ClosedBeyond(a, b, visiting, visited) by {
      assert forall n :: n in visited && n !in visiting ==> n == name || n !in opened_;
    }
  }

  lemma NotSmall(a: Snapshot, b: Snapshot, visiting: set<string>, names: seq<string>, graph: set<string>)
    requires |visiting| >= MAX_NAMES
    ensures !SmallGraph(a, b, visiting, names, graph)
  {
    if visiting <= graph {
      SubsetSize(visiting, graph);
    }
  }

  lemma Opened(a: Snapshot, b: Snapshot, visiting: set<string>, name: string, graph: set<string>)
    requires SmallGraph(a, b, visiting, [name], graph)
    ensures Identical(a, b, name) && SmallGraph(a, b, visiting + {name}, NamesIn(TypeOf(a, name).value), graph)
  {
    hide TypeOf, NamesIn, Identical;
    assert name in Elements([name]);
  }

  /** a.every(...) over the type names of the fields, in order. */
  method SameTypes(a: Snapshot, b: Snapshot, names: seq<string>, visiting: set<string>)
    returns (same: bool, visited: set<string>)
    requires |visiting| <= MAX_NAMES
    ensures visiting <= visited && |visited| <= MAX_NAMES
    ensures same ==> Elements(names) <= visited && ClosedBeyond(a, b, visiting, visited)
    ensures forall graph :: SmallGraph(a, b, visiting, names, graph) ==> same && visited <= graph
    decreases MAX_NAMES - |visiting|, 1, |names|
  {
    hide IdenticalSet, Identical, TypeOf, NamesIn;
    visited := visiting;
    for i := 0 to |names|
      invariant visiting <= visited && |visited| <= MAX_NAMES
      invariant Elements(names[..i]) <= visited && ClosedBeyond(a, b, visiting, visited)
      invariant forall graph :: SmallGraph(a, b, visiting, names, graph) ==> visited <= graph
    {
      ghost var before := visited;
      forall graph | SmallGraph(a, b, visiting, names, graph) ensures SmallGraph(a, b, before, [names[i]], graph) {
        assert names[i] in Elements(names);
      }
      SubsetSize(visiting, visited);
      same, visited := SameOpaqueType(a, b, names[i], visited);
      if !same {
        return;
      }
      assert names[..i + 1] == names[..i] + [names[i]];
    }
    same := true;
    assert names[..|names|] == names;
  }
}
