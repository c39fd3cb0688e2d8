/** The cross-version field observer of src/chat/dataCompatibility.ts: as long as
    it reports no failure, the source and the installed schema decode every
    inspected payload to the same tree. */
module Compat {
  import opened Basics
  import opened Wire
  import opened Descriptors
  import opened Conforming

  /** The name is a message in both snapshots or in neither, and gives enum
      values the same labels in both. */
  ghost predicate SameRole(a: Snapshot, b: Snapshot, n: string) {
    && (n in a.messages <==> n in b.messages)
    && forall v: nat :: FindEnum(a, n, AsInt32(v)) == FindEnum(b, n, AsInt32(v))
  }

  ghost predicate SameRoles(a: Snapshot, b: Snapshot, names: set<string>) {
    forall n :: n in names ==> SameRole(a, b, n)
  }

  /** Whatever is defined alike plays the same role. */
  ghost predicate RolesKept(a: Snapshot, b: Snapshot, names: set<string>) {
    forall n :: n in names && Identical(a, b, n) ==> SameRole(a, b, n)
  }

  /** The definitions of these names refer to no other names. */
  ghost predicate ClosedNames(a: Snapshot, names: set<string>) {
    forall n :: n in names && TypeOf(a, n).Some? ==> Elements(NamesIn(TypeOf(a, n).value)) <= names
  }

  /** Of everything the source reaches from these names, what is defined alike
      plays the same role. */
  ghost predicate RolesFor(a: Snapshot, b: Snapshot, names: seq<string>) {
    exists graph :: Elements(names) <= graph && ClosedNames(a, graph) && RolesKept(a, b, graph)
  }

  lemma RolesForFewer(a: Snapshot, b: Snapshot, names: seq<string>, fewer: seq<string>)
    requires RolesFor(a, b, names) && forall n :: n in fewer ==> n in names
    ensures RolesFor(a, b, fewer)
  {
    hide ClosedNames, RolesKept;
    var graph :| Elements(names) <= graph && ClosedNames(a, graph) && RolesKept(a, b, graph);
    assert forall n :: n in fewer ==> n in Elements(names);
  }

  /** From a message on to the types of a field. */
  lemma RolesForField(a: Snapshot, b: Snapshot, name: string, d: Descriptor)
    requires RolesFor(a, b, [name]) && name in a.messages && d in a.messages[name]
    ensures RolesFor(a, b, NamesOf(d))
  {
    hide RolesKept, NamesIn, NamesOf;
    var graph :| Elements([name]) <= graph && ClosedNames(a, graph) && RolesKept(a, b, graph);
    assert name in Elements([name]);
    assert TypeOf(a, name) == Some(a.messages[name]);
    NamesInAll(a.messages[name], d);
    forall n | n in Elements(NamesOf(d)) ensures n in graph {
      assert n in Elements(NamesIn(a.messages[name]));
    }
  }

  /** When all that is defined alike plays the same role, it does from anywhere. */
  lemma RolesEverywhere(a: Snapshot, b: Snapshot, names: seq<string>)
    requires forall n :: Identical(a, b, n) ==> SameRole(a, b, n)
    ensures RolesFor(a, b, names)
  {
    hide SameRole, NamesIn, Identical;
    var graph := Elements(names) + (set m, n | m in a.messages && n in NamesIn(a.messages[m]) :: n)
                 + set m, n | m in a.enums && n in NamesIn(a.enums[m]) :: n;
    assert ClosedNames(a, graph);
    assert RolesKept(a, b, graph);
  }

  // ----- Identical types decode alike -----

  lemma {:induction false} SameLabels(a: Snapshot, b: Snapshot, n: string, values: seq<nat>)
    requires forall v: nat :: FindEnum(a, n, AsInt32(v)) == FindEnum(b, n, AsInt32(v))
    ensures LabelsOf(a, n, values) == LabelsOf(b, n, values)
  {
    hide FindEnum, AsInt32;
    if values != [] {
      SameLabels(a, b, n, values[1..]);
    }
  }

  /** The enum values a field carries, alone or packed. */
  function ValuesOf(f: Field): seq<nat> {
    if f.wire == 0 && f.value.Some? then [f.value.value]
    else if f.payload.Some? && Packed(f.payload.value).Some? then Packed(f.payload.value).value else []
  }

  lemma RoleLabels(a: Snapshot, b: Snapshot, n: string)
    requires SameRole(a, b, n)
    ensures forall v: nat :: FindEnum(a, n, AsInt32(v)) == FindEnum(b, n, AsInt32(v))
  {
  }

  /** The types of the set are the same, so any bytes decode the same. */
  lemma {:induction false} SameDecoding(a: Snapshot, b: Snapshot, names: set<string>, n: string, bytes: seq<byte>)
    requires SameRoles(a, b, names) && IdenticalSet(a, b, names) && n in names
    ensures DecodeMessage(a, n, bytes) == DecodeMessage(b, n, bytes)
    decreases |bytes|, 3
  {
    hide Scan, DecodeNodes, NamesIn;
    if n in a.messages {
      SameNodes(a, b, names, a.messages[n], bytes, |Scan(bytes).fields|);
    }
  }

  lemma {:induction false} SameNodes(a: Snapshot, b: Snapshot, names: set<string>, def: seq<Descriptor>,
                                     bytes: seq<byte>, n: nat)
    requires SameRoles(a, b, names) && IdenticalSet(a, b, names) && Elements(NamesIn(def)) <= names
    requires n <= |Scan(bytes).fields|
    ensures DecodeNodes(a, def, bytes, n) == DecodeNodes(b, def, bytes, n)
    decreases |bytes|, 2, n
  {
    hide Scan, DecodeField, NamesIn, SameRoles, IdenticalSet, NamesOf;
    if n > 0 {
      SameNodes(a, b, names, def, bytes, n - 1);
      PayloadsShorter(bytes);
      var f := Scan(bytes).fields[n - 1];
      FindIn(def, f.number);
      if Find(def, f.number).Some? {
        NamesInAll(def, Find(def, f.number).value);
        SameField(a, b, names, Find(def, f.number).value, f, |bytes|);
      }
    }
  }

  lemma {:induction false} FindIn(def: seq<Descriptor>, no: int)
    ensures Find(def, no).Some? ==> Find(def, no).value in def && Find(def, no).value.no == no
  {
    if def != [] && def[0].no != no {
      FindIn(def[1..], no);
    }
  }

  lemma {:induction false} SameField(a: Snapshot, b: Snapshot, names: set<string>, d: Descriptor, f: Field, bound: nat)
    requires SameRoles(a, b, names) && IdenticalSet(a, b, names) && forall n :: n in NamesOf(d) ==> n in names
    requires f.payload.Some? ==> |f.payload.value| < bound
    ensures DecodeField(a, d, f, bound) == DecodeField(b, d, f, bound)
    decreases bound, 1
  {
    hide Scan, Packed, DecodeMessage, DecodeEntry, SameRole, NamesIn, LabelsOf;
    assert d.T.Named? ==> d.T.name in NamesOf(d);
    if d.kind == MessageKind && d.T.Named? && f.payload.Some? {
      SameDecoding(a, b, names, d.T.name, f.payload.value);
    } else if d.kind == EnumKind && d.T.Named? {
      RoleLabels(a, b, d.T.name);
      SameLabels(a, b, d.T.name, ValuesOf(f));
    } else if d.kind == MapKind && d.V.Some? && f.payload.Some? {
      assert d.V.value.T.Named? ==> d.V.value.T.name in NamesOf(d);
      SameEntry(a, b, names, d.V.value, f.payload.value, |Scan(f.payload.value).fields|);
    }
  }

  lemma {:induction false} SameEntry(a: Snapshot, b: Snapshot, names: set<string>, v: ValueType, entry: seq<byte>,
                                     n: nat)
    requires SameRoles(a, b, names) && IdenticalSet(a, b, names) && (v.T.Named? ==> v.T.name in names)
    requires n <= |Scan(entry).fields|
    ensures DecodeEntry(a, v, entry, n) == DecodeEntry(b, v, entry, n)
    decreases |entry|, 2, n
  {
    hide Scan, DecodeField, SameRoles, IdenticalSet;
    if n > 0 {
      SameEntry(a, b, names, v, entry, n - 1);
      PayloadsShorter(entry);
      SameField(a, b, names, ValueField(v), Scan(entry).fields[n - 1], |entry|);
    }
  }

  /** A descriptor that names no type decodes without the snapshot. */
  lemma UntypedField(a: Snapshot, b: Snapshot, d: Descriptor, f: Field, bound: nat)
    requires f.payload.Some? ==> |f.payload.value| < bound
    requires NamesOf(d) == []
    ensures DecodeField(a, d, f, bound) == DecodeField(b, d, f, bound)
  {
    hide Scan, Packed;
    if d.kind == MapKind && d.V.Some? && f.payload.Some? {
      UntypedEntry(a, b, d.V.value, f.payload.value, |Scan(f.payload.value).fields|);
    }
  }

  lemma {:induction false} UntypedEntry(a: Snapshot, b: Snapshot, v: ValueType, entry: seq<byte>, n: nat)
    requires !v.T.Named? && n <= |Scan(entry).fields|
    ensures DecodeEntry(a, v, entry, n) == DecodeEntry(b, v, entry, n)
  {
    hide Scan;
    if n > 0 {
      UntypedEntry(a, b, v, entry, n - 1);
    }
  }

  lemma BoundFree(s: Snapshot, d: Descriptor, f: Field, m: nat, n: nat)
    requires f.payload.Some? ==> |f.payload.value| < m && |f.payload.value| < n
    ensures DecodeField(s, d, f, m) == DecodeField(s, d, f, n)
  {
    hide Scan, Packed, DecodeMessage, DecodeEntry;
  }

  // ----- When identical types may be trusted -----

  /** A singular field of a message or enum type. */
  function FieldOfType(kind: Kind, n: string): Descriptor {
    Descriptor(1, "field", kind, Named(n), NoType, None, false, "")
  }

  ghost predicate TypeDecodesAlike(a: Snapshot, b: Snapshot, n: string) {
    forall kind, f :: kind == MessageKind || kind == EnumKind ==> SameValue(a, b, FieldOfType(kind, n), f)
  }

  /** sameOpaqueType looks a name up among the messages first and the enums
      second, so identical definitions alone do not settle what fields of these
      types decode to: they decode alike exactly when every name also plays the
      same role in both snapshots. */
  lemma IdenticalTypesDecodeAlike(a: Snapshot, b: Snapshot, names: set<string>)
    requires IdenticalSet(a, b, names)
    ensures SameRoles(a, b, names) <==> forall n :: n in names ==> TypeDecodesAlike(a, b, n)
  {
    hide IdenticalSet, DecodeField, SameRole, TypeDecodesAlike;
    if SameRoles(a, b, names) {
      forall n | n in names ensures TypeDecodesAlike(a, b, n) {
        RoleSuffices(a, b, names, n);
      }
    }
    forall n | n in names && TypeDecodesAlike(a, b, n) ensures SameRole(a, b, n) {
      RoleNeeded(a, b, n);
    }
  }

  lemma RoleSuffices(a: Snapshot, b: Snapshot, names: set<string>, n: string)
    requires IdenticalSet(a, b, names) && SameRoles(a, b, names) && n in names
    ensures TypeDecodesAlike(a, b, n)
  {
    hide IdenticalSet, DecodeField, SameRoles;
    forall kind, f | kind == MessageKind || kind == EnumKind ensures SameValue(a, b, FieldOfType(kind, n), f) {
      SameField(a, b, names, FieldOfType(kind, n), f, Size(f) + 1);
    }
  }

  lemma RoleNeeded(a: Snapshot, b: Snapshot, n: string)
    requires TypeDecodesAlike(a, b, n)
    ensures SameRole(a, b, n)
  {
    hide DecodeField, FindEnum;
    MessageNeedsRole(a, b, FieldOfType(MessageKind, n));
    EnumDecodesAlike(a, b, FieldOfType(EnumKind, n));
  }

  /** Whatever it holds, a message field decodes alike only if its type is a message
      in both snapshots or in neither. */
  lemma MessageNeedsRole(a: Snapshot, b: Snapshot, d: Descriptor)
    requires d.kind == MessageKind && d.T.Named? && forall f :: SameValue(a, b, d, f)
    ensures d.T.name in a.messages <==> d.T.name in b.messages
  {
    hide DecodeNodes;
    var empty := Field(1, 2, Some([]), None);
    assert SameValue(a, b, d, empty);
    assert Scan([]).ok;
  }

  /** Whatever it holds, an enum field decodes alike exactly when all values have
      the same labels. */
  lemma EnumDecodesAlike(a: Snapshot, b: Snapshot, d: Descriptor)
    requires d.kind == EnumKind && d.T.Named?
    ensures (forall f :: SameValue(a, b, d, f)) <==>
            forall v: nat :: FindEnum(a, d.T.name, AsInt32(v)) == FindEnum(b, d.T.name, AsInt32(v))
  {
    hide FindEnum, Packed;
    var n := d.T.name;
    if forall f :: SameValue(a, b, d, f) {
      forall v: nat ensures FindEnum(a, n, AsInt32(v)) == FindEnum(b, n, AsInt32(v)) {
        assert SameValue(a, b, d, Field(1, 0, None, Some(v)));
        SingleLabel(a, n, v);
        SingleLabel(b, n, v);
        assert LabelsOf(a, n, [v])[0] == LabelsOf(b, n, [v])[0];
      }
    }
    if forall v: nat :: FindEnum(a, n, AsInt32(v)) == FindEnum(b, n, AsInt32(v)) {
      forall f ensures SameValue(a, b, d, f) {
        SameLabels(a, b, n, ValuesOf(f));
      }
    }
  }

  // ----- Maps -----

  /** The values of the map entry decode alike; asked only of maps whose descriptor
      names a type in T, where T alone is looked at. */
  ghost predicate ValuesAlike(a: Snapshot, b: Snapshot, d: Descriptor, f: Field) {
    d.kind == MapKind && d.T.Named? && d.V.Some? && f.payload.Some? ==>
      EntriesAlike(a, b, d.V.value, f.payload.value, |Scan(f.payload.value).fields|)
  }

  ghost predicate EntriesAlike(a: Snapshot, b: Snapshot, v: ValueType, entry: seq<byte>, n: nat)
    requires n <= |Scan(entry).fields|
  {
    forall i ::
      0 <= i < n && Scan(entry).fields[i].number == 2 ==> SameValue(a, b, ValueField(v), Scan(entry).fields[i])
  }

  /** A map decodes alike exactly when its values do, T or no T. */
  lemma MapDecodesAlike(a: Snapshot, b: Snapshot, d: Descriptor, f: Field)
    requires d.kind == MapKind && d.V.Some? && f.payload.Some?
    ensures SameValue(a, b, d, f) <==> EntriesAlike(a, b, d.V.value, f.payload.value, |Scan(f.payload.value).fields|)
  {
    hide Scan, DecodeEntry;
    EntriesExact(a, b, d.V.value, f.payload.value, |Scan(f.payload.value).fields|);
  }

  lemma {:induction false} EntriesExact(a: Snapshot, b: Snapshot, v: ValueType, entry: seq<byte>, n: nat)
    requires n <= |Scan(entry).fields|
    ensures SameEntries(a, b, v, entry, n) <==> EntriesAlike(a, b, v, entry, n)
  {
    hide Scan, DecodeField;
    if n > 0 {
      EntriesExact(a, b, v, entry, n - 1);
      var f := Scan(entry).fields[n - 1];
      PayloadsShorter(entry);
      if f.number == 2 {
        BoundFree(a, ValueField(v), f, Size(f) + 1, |entry|);
        BoundFree(b, ValueField(v), f, Size(f) + 1, |entry|);
      }
      LastOf(DecodeEntry(a, v, entry, n - 1), DecodeEntry(b, v, entry, n - 1),
             if f.number == 2 then DecodeField(a, ValueField(v), f, |entry|) else Raw(f),
             if f.number == 2 then DecodeField(b, ValueField(v), f, |entry|) else Raw(f));
    }
  }

  lemma LastOf<T>(s: seq<T>, t: seq<T>, x: T, y: T)
    ensures s + [x] == t + [y] <==> s == t && x == y
  {
    if s + [x] == t + [y] {
      assert (s + [x])[|s|] == (t + [y])[|t|];
      assert (s + [x])[..|s|] == (t + [y])[..|t|];
    }
  }

  // ----- Where identical types may not be trusted -----

  function EnumEntry(name: string): Descriptor {
    Descriptor(7, name, OtherKind, NoType, NoType, None, false, "")
  }

  /** A message N, an enum of the given name with one label for 7, and a message M
      with the given field. */
  function Sample(field: Descriptor, enumName: string, enumLabel: string): Snapshot {
    Snapshot(map["M" := [field], "N" := []], map[enumName := [EnumEntry(enumLabel)]])
  }

  const HIDDEN_ENUM := FieldOfType(EnumKind, "N")

  /** A map with values of enum E whose descriptor also names N in T. */
  const HIDDEN_VALUE := Descriptor(1, "field", MapKind, Named("N"), Scalar(9), Some(ValueType(EnumKind, Named("E"))),
                                   false, "")

  lemma SampleAccepted(d: Descriptor, enumName: string, field: Field)
    requires NamesOf(d) != [] && NamesOf(d)[0] == "N" && d.no == 1 == field.number
    ensures Readable(Sample(d, enumName, "old"), Sample(d, enumName, "new"), Event("M", false, field))
  {
    var a, b := Sample(d, enumName, "old"), Sample(d, enumName, "new");
    assert SmallGraph(a, b, {}, ["N"], {"N"});
  }

  /** A name that is a message in both snapshots hides an enum of that name: the
      field is accepted although its value has another label. */
  lemma HiddenEnum()
    ensures var a, b := Sample(HIDDEN_ENUM, "N", "old"), Sample(HIDDEN_ENUM, "N", "new");
            var e := Event("M", false, Field(1, 0, None, Some(7)));
            Readable(a, b, e) && !Agrees(a, b, e) && !RolesFor(a, b, ["N"])
  {
    var a, b := Sample(HIDDEN_ENUM, "N", "old"), Sample(HIDDEN_ENUM, "N", "new");
    SampleAccepted(HIDDEN_ENUM, "N", Field(1, 0, None, Some(7)));
    SingleLabel(a, "N", 7);
    SingleLabel(b, "N", 7);
    assert FindEnum(a, "N", AsInt32(7)) == Some(EnumEntry("old"))
           && FindEnum(b, "N", AsInt32(7)) == Some(EnumEntry("new"));
    assert LabelsOf(a, "N", [7])[0] != LabelsOf(b, "N", [7])[0];
    assert "N" in Elements(["N"]);
  }

  /** And a map field that also names a type in T is accepted on T alone. */
  lemma HiddenMapValue()
    ensures var a, b := Sample(HIDDEN_VALUE, "E", "old"), Sample(HIDDEN_VALUE, "E", "new");
            var e := Event("M", false, Field(1, 2, Some([0x10, 7]), None));
            Readable(a, b, e) && !Agrees(a, b, e) && !ValuesAlike(a, b, HIDDEN_VALUE, e.field)
  {
    var a, b := Sample(HIDDEN_VALUE, "E", "old"), Sample(HIDDEN_VALUE, "E", "new");
    SampleAccepted(HIDDEN_VALUE, "E", Field(1, 2, Some([0x10, 7]), None));
    OneLabel(a, HIDDEN_VALUE, 7);
    OneLabel(b, HIDDEN_VALUE, 7);
    assert FindEnum(a, "E", 7) == Some(EnumEntry("old")) && FindEnum(b, "E", 7) == Some(EnumEntry("new"));
    ValuesDecodeAlike(a, b, HIDDEN_VALUE, Field(1, 2, Some([0x10, 7]), None));
  }

  /** The observer, shown the field with the hidden enum, reports no failure. */
  method AcceptsHiddenEnum() returns (o: Observer)
    ensures o.failure == None && o.seen == [Event("M", false, Field(1, 0, None, Some(7)))]
    ensures !Agrees(o.source, o.target, o.seen[0])
  {
    hide Readable, Agrees, Sample;
    HiddenEnum();
    o := new Observer(Sample(HIDDEN_ENUM, "N", "old"), Sample(HIDDEN_ENUM, "N", "new"));
    o.OnField(Event("M", false, Field(1, 0, None, Some(7))));
  }

  /** Nor for the map with the hidden value type. */
  method AcceptsHiddenMapValue() returns (o: Observer)
    ensures o.failure == None && o.seen == [Event("M", false, Field(1, 2, Some([0x10, 7]), None))]
    ensures !Agrees(o.source, o.target, o.seen[0])
  {
    hide Readable, Agrees, Sample;
    HiddenMapValue();
    o := new Observer(Sample(HIDDEN_VALUE, "E", "old"), Sample(HIDDEN_VALUE, "E", "new"));
    o.OnField(Event("M", false, Field(1, 2, Some([0x10, 7]), None)));
  }

  /** Where names keep their roles and maps name no type in T, everything accepted
      agrees. */
  lemma AcceptedAgrees(a: Snapshot, b: Snapshot, e: Event)
    requires Accepted(a, b, e) && RolesFor(a, b, NamesOf(FieldOf(a, e.message, e.field.number).value))
    requires FieldOf(a, e.message, e.field.number).value.kind == MapKind ==>
               !FieldOf(a, e.message, e.field.number).value.T.Named?
    ensures Agrees(a, b, e)
  {
    hide FieldOf, RolesFor, SameValue;
  }

  /** A map entry whose only field is an enum value decodes to its label. */
  lemma OneLabel(s: Snapshot, d: Descriptor, v: nat)
    requires d.kind == MapKind && d.V == Some(ValueType(EnumKind, Named("E"))) && v < 0x80
    ensures DecodeField(s, d, Field(1, 2, Some([0x10, v]), None), 3) == Entries(true, [Labels([FindEnum(s, "E", v)])])
  {
    hide FindEnum, Scan;
    var entry: seq<byte> := [0x10, v];
    ScanOneVarint(v);
    SingleLabel(s, "E", v);
    assert DecodeEntry(s, d.V.value, entry, 0) == [];
  }

  lemma ScanOneVarint(v: nat)
    requires v < 0x80
    ensures Scan([0x10, v]) == Scanned(true, [Field(2, 0, None, Some(v))])
  {
    var f := Varint(2, v);
    ScanEncoded([f]);
    assert EncodeVarint(0x10) == [0x10] && EncodeVarint(v) == [v];
    assert f.Encode() == [0x10, v];
    assert EncodeAll([f]) == [0x10, v] && ReportAll([f]) == [f.Report()];
  }

  // ----- The observer -----

  datatype Failure =
    | UnreadableField(message: string, no: int)
    | UnreadableEnum(name: string, no: int)
    | WorkLimit
    | UnknownMapField
    | UnverifiedMap
    | UnverifiedField(message: string, no: int)
    | UnverifiedType(name: string, message: string, no: int)

  /** One field the walk reports: of which message, and whether the walk itself
      goes into its contents. */
  datatype Event = Event(message: string, traversed: bool, field: Field)

  function FieldOf(s: Snapshot, message: string, no: int): Option<Descriptor> {
    if message in s.messages then Find(s.messages[message], no) else None
  }

  predicate IsScalarCode(t: TypeRef) {
    t.Scalar? && t.code in {1, 2, 3, 4, 5, 6, 7, 8, 9, 12, 13, 15, 16, 17, 18}
  }

  function ExpectedWire(d: Descriptor): nat {
    if d.kind == MessageKind || d.kind == MapKind then 2
    else if d.kind == EnumKind || !d.T.Scalar? then 0
    else if d.T.code in {1, 6, 16} then 1
    else if d.T.code in {2, 7, 15} then 5
    else if d.T.code in {9, 12} then 2 else 0
  }

  /** The two snapshots give this field the same descriptor and, unless the walk
      goes into it itself, decode its contents to the same value. */
  ghost predicate Agrees(a: Snapshot, b: Snapshot, e: Event) {
    var d := FieldOf(a, e.message, e.field.number);
    && d.Some? && d == FieldOf(b, e.message, e.field.number)
    && (!e.traversed ==> SameValue(a, b, d.value, e.field))
  }

  ghost predicate SameValue(a: Snapshot, b: Snapshot, d: Descriptor, f: Field) {
    DecodeField(a, d, f, Size(f) + 1) == DecodeField(b, d, f, Size(f) + 1)
  }

  /** The field has one descriptor in both snapshots, and the walk goes into it
      itself, or it names no type, or the type it names is small and identical. */
  ghost predicate Readable(a: Snapshot, b: Snapshot, e: Event) {
    var d := FieldOf(a, e.message, e.field.number);
    && d.Some? && d == FieldOf(b, e.message, e.field.number)
    && (e.traversed || NamesOf(d.value) == [] || SmallIdentical(a, b, NamesOf(d.value)[0]))
  }

  /** What it takes to accept a field: one descriptor in both snapshots, and as far
      as the types it names keep their roles, contents that decode alike; but for
      the values of a map that also names a type in T, which nobody looks at. */
  ghost predicate Accepted(a: Snapshot, b: Snapshot, e: Event) {
    var d := FieldOf(a, e.message, e.field.number);
    && d.Some? && d == FieldOf(b, e.message, e.field.number)
    && (RolesFor(a, b, NamesOf(d.value)) ==> (Agrees(a, b, e) <==> e.traversed || ValuesAlike(a, b, d.value, e.field)))
  }

  /** The event's field has one descriptor in both snapshots, and unless the walk goes
      into it itself or its type is small and identical, what it holds fits. */
  ghost predicate Compatible(a: Snapshot, b: Snapshot, e: Event) {
    var d := FieldOf(a, e.message, e.field.number);
    Readable(a, b, e) || (d.Some? && d == FieldOf(b, e.message, e.field.number) && Fits(a, b, d.value, e.field, 0))
  }

  /** The work an event takes: none if the walk goes into it itself or its type is
      small and identical. */
  ghost function EventWork(a: Snapshot, b: Snapshot, e: Event): Work {
    if Readable(a, b, e) || FieldOf(a, e.message, e.field.number) == None then NO_WORK
    else FieldWork(a, FieldOf(a, e.message, e.field.number).value, e.field)
  }

  ghost function TotalWork(a: Snapshot, b: Snapshot, events: seq<Event>): Work {
    if events == [] then NO_WORK
    else TotalWork(a, b, events[..|events| - 1]).Plus(EventWork(a, b, events[|events| - 1]))
  }

  ghost predicate AllCompatible(a: Snapshot, b: Snapshot, events: seq<Event>) {
    forall e :: e in events ==> Compatible(a, b, e)
  }

  /** The work is within what is left of the limits. */
  ghost predicate RoomFor(fields: nat, bytes: nat, w: Work) {
    fields + w.fields <= MAX_FIELDS && bytes + w.bytes <= MAX_BYTES
  }

  ghost predicate AtMost(fields: nat, bytes: nat, w: Work, fieldsAfter: nat, bytesAfter: nat) {
    fieldsAfter <= fields + w.fields && bytesAfter <= bytes + w.bytes
  }

  /** The wire type is one the field's kind takes. */
  ghost predicate Shaped(d: Descriptor, f: Field) {
    match d.kind
    case OtherKind => false
    case ScalarKind => d.T.Scalar? && ScalarFits(d.T.code, d.repeated, f)
    case EnumKind => f.wire == 0 || (f.wire == 2 && d.repeated)
    case _ => f.wire == 2
  }

  ghost predicate AllKnown(a: Snapshot, b: Snapshot, name: string, payload: seq<byte>) {
    Packed(payload).Some? && forall v :: v in Packed(payload).value ==> Known(a, b, name, v)
  }

  class Observer {
    const source: Snapshot
    const target: Snapshot
    var failure: Option<Failure>
    var identicalTypes: map<string, bool>
    var inspectedBytes: nat
    var inspectedFields: nat
    var checked: set<(string, int)>
    /** Every field reported so far. */
    ghost var seen: seq<Event>

    constructor (source: Snapshot, target: Snapshot)
      ensures Valid() && failure == None && seen == []
      ensures this.source == source && this.target == target
    {
      this.source, this.target := source, target;
      failure, identicalTypes, inspectedBytes, inspectedFields, checked, seen := None, map[], 0, 0, {}, [];
    }

    /** The memo and the checked fields tell the truth. */
    ghost predicate Sane()
      reads this`identicalTypes, this`checked
    {
      && (forall n :: n in identicalTypes && identicalTypes[n] ==> IdenticalGraph(source, target, n))
      && (forall n :: n in identicalTypes && !identicalTypes[n] ==> !SmallIdentical(source, target, n))
      && (forall k ::
            k in checked ==> FieldOf(source, k.0, k.1).Some? && FieldOf(source, k.0, k.1) == FieldOf(target, k.0, k.1))
    }

    /** No failure has been reported unless some event was not compatible or the
        events together took too much work. */
    ghost predicate Fair()
      reads this
    {
      AllCompatible(source, target, seen) && RoomFor(0, 0, TotalWork(source, target, seen)) ==>
        failure == None && AtMost(0, 0, TotalWork(source, target, seen), inspectedFields, inspectedBytes)
    }

    ghost predicate Valid()
      reads this
    {
      && Sane() && Fair()
      && (failure == None ==> forall e :: e in seen ==> Accepted(source, target, e))
    }

    method IdenticalType(name: string) returns (same: bool)
      requires Sane()
      modifies this`identicalTypes
      ensures Sane() && (same ==> IdenticalGraph(source, target, name))
      ensures SmallIdentical(source, target, name) ==> same
    {
      hide SmallGraph, IdenticalGraph, FieldOf;
      if name in identicalTypes {
        return identicalTypes[name];
      }
      var visited;
      same, visited := SameOpaqueType(source, target, name, {});
      if same {
        ClosedIsGraph(source, target, name, visited);
      }
      identicalTypes := identicalTypes[name := same];
    }

    method InspectEnum(name: string, value: nat) returns (ok: bool)
      modifies this`failure
      ensures ok ==>
                failure == old(failure)
                && FindEnum(source, name, AsInt32(value)) == FindEnum(target, name, AsInt32(value))
      ensures ok <==> Known(source, target, name, value)
    {
      var no := AsInt32(value);
      var a, b := FindEnum(source, name, no), FindEnum(target, name, no);
      if a == None || b == None || a != b {
        failure := Some(UnreadableEnum(name, no));
        return false;
      }
      return true;
    }

    /** The loop over a packed enum payload. */
    method InspectEnums(name: string, payload: seq<byte>) returns (ok: bool)
      modifies this`failure, this`inspectedFields
      ensures ok ==> failure == old(failure) && Packed(payload).Some?
                     && LabelsOf(source, name, Packed(payload).value) == LabelsOf(target, name, Packed(payload).value)
      ensures AllKnown(source, target, name, payload) && old(inspectedFields) + |Packed(payload).value| <= MAX_FIELDS
              ==> ok && inspectedFields == old(inspectedFields) + |Packed(payload).value|
    {
      hide Packed, PackedFrom, FirstVarint, Known;
      var offset := 0;
      ghost var values: seq<nat> := [];
      PackedNone(payload);
      while offset < |payload|
        invariant offset <= |payload| && failure == old(failure)
        invariant PackedFrom(payload, offset, values)
        invariant LabelsOf(source, name, values) == LabelsOf(target, name, values)
        invariant inspectedFields == old(inspectedFields) + |values|
      {
        PackedStep(payload, offset, values);
        if Packed(payload).Some? {
          PackedNext(payload, offset, values);
        }
        var entry := ReadVarint(payload, offset);
        if entry == None {
          return false;
        }
        inspectedFields := inspectedFields + 1;
        if inspectedFields > MAX_FIELDS {
          return false;
        }
        var readable := InspectEnum(name, entry.value.value);
        if !readable {
          return false;
        }
        offset := offset + entry.value.length;
        LabelsAppend(source, name, values, entry.value.value);
        LabelsAppend(target, name, values, entry.value.value);
        values := values + [entry.value.value];
      }
      PackedAll(payload, values);
      return true;
    }

    /** The loop over a packed scalar payload: it only has to be well formed. */
    method InspectVarints(payload: seq<byte>) returns (ok: bool)
      modifies this`inspectedFields
      ensures ok ==> Packed(payload).Some?
      ensures Packed(payload).Some? && old(inspectedFields) + |Packed(payload).value| <= MAX_FIELDS ==>
                ok && inspectedFields == old(inspectedFields) + |Packed(payload).value|
    {
      hide Packed, PackedFrom, FirstVarint;
      var offset := 0;
      ghost var values: seq<nat> := [];
      PackedNone(payload);
      while offset < |payload|
        invariant offset <= |payload| && PackedFrom(payload, offset, values)
        invariant inspectedFields == old(inspectedFields) + |values|
      {
        PackedStep(payload, offset, values);
        if Packed(payload).Some? {
          PackedNext(payload, offset, values);
        }
        var entry := ReadVarint(payload, offset);
        if entry == None {
          return false;
        }
        inspectedFields := inspectedFields + 1;
        if inspectedFields > MAX_FIELDS {
          return false;
        }
        offset := offset + entry.value.length;
        values := values + [entry.value.value];
      }
      PackedAll(payload, values);
      return true;
    }

    method InspectField(d: Descriptor, f: Field, depth: nat) returns (ok: bool)
      requires Sane() && failure == None
      modifies this`failure, this`identicalTypes, this`inspectedBytes, this`inspectedFields
      ensures Sane()
      ensures ok ==> failure == None && (RolesFor(source, target, NamesOf(d)) ==> SameValue(source, target, d, f))
      ensures ok ==> Shaped(d, f)
      ensures Fits(source, target, d, f, depth)
              && RoomFor(old(inspectedFields), old(inspectedBytes), FieldWork(source, d, f)) ==>
                ok && AtMost(old(inspectedFields), old(inspectedBytes), FieldWork(source, d, f), inspectedFields,
                             inspectedBytes)
      decreases Size(f), 3
    {
      hide Sane, RolesFor, IdenticalGraph, Scan, Packed, DecodeMessage, DecodeEntry, LabelsOf, MessageFits, EntryFits,
           MessageWork, EntryWork;
      if d.kind == OtherKind || (d.kind == ScalarKind && !IsScalarCode(d.T)) {
        return false;
      }
      var expectedWire := ExpectedWire(d);
      if f.wire != expectedWire && !(f.wire == 2 && d.repeated && expectedWire != 2) {
        return false;
      }
      if d.kind == MessageKind {
        if !d.T.Named? || f.payload == None {
          return false;
        }
        ok := InspectMessage(d.T.name, f.payload.value, depth);
        RolesForOne(source, target, d, [d.T.name]);
      } else if d.kind == EnumKind {
        ok := InspectEnumField(d, f);
      } else if d.kind == MapKind {
        if f.payload == None || d.V == None {
          return false;
        }
        ok := InspectMap(d.K, d.V.value, f.payload.value, depth);
        RolesForOne(source, target, d, NamesOf(ValueField(d.V.value)));
      } else {
        ok := InspectScalar(d, expectedWire, f);
      }
    }

    method InspectScalar(d: Descriptor, expectedWire: nat, f: Field) returns (ok: bool)
      requires d.kind == ScalarKind && IsScalarCode(d.T) && expectedWire == ExpectedWire(d)
      requires f.wire == expectedWire || (f.wire == 2 && d.repeated && expectedWire != 2)
      modifies this`inspectedFields
      ensures ok ==> ScalarFits(d.T.code, d.repeated, f)
      ensures ScalarFits(d.T.code, d.repeated, f) && old(inspectedFields) + PackedCount(d, f) <= MAX_FIELDS ==>
                ok && inspectedFields <= old(inspectedFields) + PackedCount(d, f)
    {
      hide Packed;
      if f.wire != 2 || expectedWire == 2 {
        return true;
      }
      if f.payload == None {
        return false;
      }
      if expectedWire == 1 || expectedWire == 5 {
        return |f.payload.value| % (if expectedWire == 1 then 8 else 4) == 0;
      }
      ok := InspectVarints(f.payload.value);
    }

    method InspectEnumField(d: Descriptor, f: Field) returns (ok: bool)
      requires Sane() && failure == None && d.kind == EnumKind
      modifies this`failure, this`identicalTypes, this`inspectedFields
      ensures Sane()
      ensures ok ==> failure == None && (RolesFor(source, target, NamesOf(d)) ==> SameValue(source, target, d, f))
      ensures d.T.Named? && EnumFits(source, target, d.T.name, d.repeated, f)
              && old(inspectedFields) + PackedCount(d, f) <= MAX_FIELDS ==>
                ok && inspectedFields <= old(inspectedFields) + PackedCount(d, f)
    {
      hide Sane, RolesFor, IdenticalGraph, Scan, Packed, LabelsOf, SmallIdentical, Known;
      if !d.T.Named? {
        return false;
      }
      var same := IdenticalType(d.T.name);
      if same {
        IdenticalValue(d, f);
        return true;
      }
      if f.wire == 0 {
        if f.value == None {
          return false;
        }
        ok := InspectEnum(d.T.name, f.value.value);
        SingleLabel(source, d.T.name, f.value.value);
        SingleLabel(target, d.T.name, f.value.value);
        return;
      }
      if f.payload == None {
        return false;
      }
      ok := InspectEnums(d.T.name, f.payload.value);
    }

    /** Only a map's V and another kind's T are decoded, so one identical name
        settles the field whatever its bytes, if roles are kept. */
    lemma IdenticalValue(d: Descriptor, f: Field)
      requires NamesOf(d) != [] && IdenticalGraph(source, target, NamesOf(d)[0])
      requires d.kind == MapKind ==> !d.T.Named?
      ensures RolesFor(source, target, NamesOf(d)) ==> SameValue(source, target, d, f)
    {
      hide IdenticalSet, DecodeMessage, DecodeEntry, Packed, Scan, FieldOf, ClosedNames, RolesKept, SameRoles;
      if RolesFor(source, target, NamesOf(d)) {
        var names :| NamesOf(d)[0] in names && IdenticalSet(source, target, names);
        var graph :| Elements(NamesOf(d)) <= graph && ClosedNames(source, graph) && RolesKept(source, target, graph);
        IdenticalWithin(source, target, names, graph);
        assert NamesOf(d)[0] in Elements(NamesOf(d));
        var plain := if d.kind == MapKind then d else d.(V := None);
        SameField(source, target, names * graph, plain, f, Size(f) + 1);
      }
    }

    /** The scan of a map entry: key and value as fields of their own. */
    method InspectMap(k: TypeRef, v: ValueType, entry: seq<byte>, depth: nat) returns (ok: bool)
      requires Sane() && failure == None
      modifies this`failure, this`identicalTypes, this`inspectedBytes, this`inspectedFields
      ensures Sane()
      ensures ok ==> failure == None
      ensures ok && RolesFor(source, target, NamesOf(ValueField(v))) ==>
                SameEntries(source, target, v, entry, |Scan(entry).fields|)
      ensures var w := EntryWork(source, v, entry, |Scan(entry).fields|);
              EntryFits(source, target, k, v, entry, depth)
              && RoomFor(old(inspectedFields), old(inspectedBytes), w) ==>
                ok && AtMost(old(inspectedFields), old(inspectedBytes), w, inspectedFields, inspectedBytes)
      decreases |entry|, 2
    {
      hide Sane, RolesFor, NamesOf, IdenticalGraph, Scan, DecodeField, FieldWork, Fits, HalfFits, EntryWork, ValueField,
           SameValue;
      ghost var whole := EntryWork(source, v, entry, |Scan(entry).fields|);
      ghost var fits := EntryFits(source, target, k, v, entry, depth)
                        && RoomFor(old(inspectedFields), old(inspectedBytes), whole);
      var scanned, fields := ScanProtobufMessage(entry, _ => true);
      for i := 0 to |fields|
        invariant Sane() && failure == None
        invariant RolesFor(source, target, NamesOf(ValueField(v))) ==> SameEntries(source, target, v, entry, i)
        invariant fits ==> AtMost(old(inspectedFields), old(inspectedBytes), EntryWork(source, v, entry, i),
                                  inspectedFields, inspectedBytes)
      {
        var f := fields[i];
        if fits {
          HalfStep(source, target, k, v, entry, i, depth);
        }
        inspectedFields := inspectedFields + 1;
        if inspectedFields > MAX_FIELDS {
          failure := Some(WorkLimit);
          return false;
        }
        if f.number != 1 && f.number != 2 {
          failure := Some(UnknownMapField);
          return false;
        }
        PayloadSmaller(entry, i);
        var d := if f.number == 1 then Descriptor(1, "key", ScalarKind, k, NoType, None, false, "") else ValueField(v);
        var inspected := InspectField(d, f, depth + 1);
        if !inspected {
          failure := if failure == None then Some(UnverifiedMap) else failure;
          return false;
        }
        if RolesFor(source, target, NamesOf(ValueField(v))) {
          SameEntriesStep(source, target, v, entry, i);
        }
      }
      return scanned;
    }

    method InspectMessage(name: string, payload: seq<byte>, depth: nat) returns (ok: bool)
      requires Sane() && failure == None
      modifies this`failure, this`identicalTypes, this`inspectedBytes, this`inspectedFields
      ensures Sane()
      ensures ok ==> failure == None
      ensures ok && RolesFor(source, target, [name]) ==>
                DecodeMessage(source, name, payload) == DecodeMessage(target, name, payload)
      ensures var w := MessageWork(source, name, payload);
              MessageFits(source, target, name, payload, depth)
              && RoomFor(old(inspectedFields), old(inspectedBytes), w) ==>
                ok && AtMost(old(inspectedFields), old(inspectedBytes), w, inspectedFields, inspectedBytes)
      decreases |payload|, 2
    {
      hide Sane, RolesFor, NamesOf, IdenticalGraph, Scan, DecodeField, DecodeNodes, FieldWork, Fits, PartFits;
      hide PartsWork, Find, SameValue;
      ghost var whole := MessageWork(source, name, payload);
      ghost var fits := MessageFits(source, target, name, payload, depth)
                        && RoomFor(old(inspectedFields), old(inspectedBytes), whole);
      if depth > MAX_DEPTH {
        return false;
      }
      inspectedBytes := inspectedBytes + |payload|;
      if inspectedBytes > MAX_BYTES || name !in source.messages || name !in target.messages {
        return false;
      }
      var a, b := source.messages[name], target.messages[name];
      var scanned, fields := ScanProtobufMessage(payload, _ => true);
      NodesNone(source, target, a, b, payload);
      for i := 0 to |fields|
        invariant Sane() && failure == None
        invariant RolesFor(source, target, [name]) ==>
                    DecodeNodes(source, a, payload, i) == DecodeNodes(target, b, payload, i)
        invariant fits ==> AtMost(old(inspectedFields), old(inspectedBytes) + |payload|,
                                  PartsWork(source, a, payload, i), inspectedFields, inspectedBytes)
      {
        var f := fields[i];
        if fits {
          PartsStep(source, target, a, b, payload, i, depth);
        }
        inspectedFields := inspectedFields + 1;
        if inspectedFields > MAX_FIELDS {
          failure := Some(WorkLimit);
          return false;
        }
        var incoming, installed := Find(a, f.number), Find(b, f.number);
        if incoming == None || installed == None || incoming != installed {
          failure := Some(UnreadableField(name, f.number));
          return false;
        }
        PayloadSmaller(payload, i);
        var inspected := InspectField(incoming.value, f, depth + 1);
        if !inspected {
          failure := if failure == None then Some(UnverifiedField(name, f.number)) else failure;
          return false;
        }
        if RolesFor(source, target, [name]) {
          FindIn(a, f.number);
          RolesForField(source, target, name, incoming.value);
          NodesStep(source, target, a, b, payload, i, incoming.value);
        }
      }
      return scanned;
    }

    /** The callback given to the walk. */
    method OnField(e: Event)
      requires Valid()
      modifies this
      ensures Valid() && seen == old(seen) + [e]
      ensures old(failure) != None ==> failure == old(failure)
      ensures old(failure) == None && Readable(source, target, e) ==> failure == None
    {
      hide FieldOf, IdenticalGraph, SmallIdentical, Accepted, Compatible, EventWork, TotalWork, AllCompatible, Readable;
      OneMoreEvent(source, target, seen, e);
      seen := seen + [e];
      if failure == None {
        ObserveField(e);
      }
    }

    /** One field while no failure is reported. */
    method ObserveField(e: Event)
      requires Sane() && failure == None
      modifies this`failure, this`identicalTypes, this`inspectedBytes, this`inspectedFields, this`checked
      ensures Sane() && (failure == None ==> Accepted(source, target, e))
      ensures Readable(source, target, e) ==> failure == None
      ensures Compatible(source, target, e)
              && RoomFor(old(inspectedFields), old(inspectedBytes), EventWork(source, target, e)) ==>
                failure == None && AtMost(old(inspectedFields), old(inspectedBytes), EventWork(source, target, e),
                                          inspectedFields, inspectedBytes)
    {
      hide FieldOf, IdenticalGraph, SameValue, SmallIdentical, Fits, FieldWork, RolesFor, ValuesAlike;
      var key := (e.message, e.field.number);
      var a, b := FieldOf(source, e.message, e.field.number), FieldOf(target, e.message, e.field.number);
      if key !in checked {
        if a == None || b == None || a != b {
          failure := Some(UnreadableField(e.message, e.field.number));
          return;
        }
        checked := checked + {key};
      }
      if !e.traversed {
        CheckContents(a.value, e);
      }
    }

    method CheckContents(d: Descriptor, e: Event)
      requires Sane() && failure == None && FieldOf(source, e.message, e.field.number) == Some(d)
      modifies this`failure, this`identicalTypes, this`inspectedBytes, this`inspectedFields
      ensures Sane()
      ensures failure == None && RolesFor(source, target, NamesOf(d)) ==>
                (SameValue(source, target, d, e.field) <==> ValuesAlike(source, target, d, e.field))
      ensures NamesOf(d) == [] || SmallIdentical(source, target, NamesOf(d)[0]) ==>
                failure == None && inspectedFields == old(inspectedFields) && inspectedBytes == old(inspectedBytes)
      ensures Fits(source, target, d, e.field, 0)
              && RoomFor(old(inspectedFields), old(inspectedBytes), FieldWork(source, d, e.field)) ==>
                failure == None && AtMost(old(inspectedFields), old(inspectedBytes), FieldWork(source, d, e.field),
                                          inspectedFields, inspectedBytes)
    {
      hide SmallIdentical, IdenticalGraph, FieldOf, Fits, FieldWork, RolesFor;
      var types := NamesOf(d);
      ValuesDecodeAlike(source, target, d, e.field);
      if types == [] {
        UntypedField(source, target, d, e.field, Size(e.field) + 1);
        return;
      }
      var name := types[0];
      var same := IdenticalType(name);
      if same {
        if d.kind != MapKind || !d.T.Named? {
          IdenticalValue(d, e.field);
        }
        return;
      }
      var ok := InspectField(d, e.field, 0);
      if !ok && failure == None {
        failure := Some(UnverifiedType(name, e.message, e.field.number));
      }
    }
  }

  lemma OneMoreEvent(a: Snapshot, b: Snapshot, events: seq<Event>, e: Event)
    ensures AllCompatible(a, b, events + [e]) <==> AllCompatible(a, b, events) && Compatible(a, b, e)
    ensures TotalWork(a, b, events + [e]) == TotalWork(a, b, events).Plus(EventWork(a, b, e))
  {
    hide Compatible, EventWork;
    assert (events + [e])[..|events|] == events;
    if AllCompatible(a, b, events) && Compatible(a, b, e) {
      assert forall x :: x in events + [e] ==> x in events || x == e;
    }
    if AllCompatible(a, b, events + [e]) {
      assert forall x :: x in events || x == e ==> x in events + [e];
    }
  }

  lemma RolesForOne(a: Snapshot, b: Snapshot, d: Descriptor, names: seq<string>)
    requires forall n :: n in names ==> n in NamesOf(d)
    ensures RolesFor(a, b, NamesOf(d)) ==> RolesFor(a, b, names)
  {
    hide RolesFor;
    if RolesFor(a, b, NamesOf(d)) {
      RolesForFewer(a, b, NamesOf(d), names);
    }
  }

  /** The identical types among those reached keep their roles. */
  lemma IdenticalWithin(a: Snapshot, b: Snapshot, names: set<string>, graph: set<string>)
    requires IdenticalSet(a, b, names) && ClosedNames(a, graph) && RolesKept(a, b, graph)
    ensures IdenticalSet(a, b, names * graph) && SameRoles(a, b, names * graph)
  {
    hide SameRole, NamesIn;
  }

  /** Contents that decode alike have values that do; and for a map that names a
      type in T the values are all there is. */
  lemma ValuesDecodeAlike(a: Snapshot, b: Snapshot, d: Descriptor, f: Field)
    ensures SameValue(a, b, d, f) ==> ValuesAlike(a, b, d, f)
    ensures d.kind == MapKind && d.T.Named? && ValuesAlike(a, b, d, f) ==> SameValue(a, b, d, f)
  {
    hide Scan, EntriesAlike;
    if d.kind == MapKind && d.V.Some? && f.payload.Some? {
      MapDecodesAlike(a, b, d, f);
    }
  }

  lemma SingleLabel(s: Snapshot, name: string, v: nat)
    ensures LabelsOf(s, name, [v]) == [FindEnum(s, name, AsInt32(v))]
  {
  }

  ghost predicate SameEntries(a: Snapshot, b: Snapshot, v: ValueType, entry: seq<byte>, n: nat)
    requires n <= |Scan(entry).fields|
  {
    DecodeEntry(a, v, entry, n) == DecodeEntry(b, v, entry, n)
  }

  lemma SameEntriesStep(a: Snapshot, b: Snapshot, v: ValueType, entry: seq<byte>, i: nat)
    requires i < |Scan(entry).fields| && SameEntries(a, b, v, entry, i)
    requires var f := Scan(entry).fields[i]; f.number == 2 ==> SameValue(a, b, ValueField(v), f)
    ensures SameEntries(a, b, v, entry, i + 1)
  {
    hide Scan, DecodeField;
    var f := Scan(entry).fields[i];
    PayloadsShorter(entry);
    if f.number == 2 {
      BoundFree(a, ValueField(v), f, Size(f) + 1, |entry|);
      BoundFree(b, ValueField(v), f, Size(f) + 1, |entry|);
    }
  }

  lemma NodesNone(a: Snapshot, b: Snapshot, defA: seq<Descriptor>, defB: seq<Descriptor>, bytes: seq<byte>)
    ensures DecodeNodes(a, defA, bytes, 0) == DecodeNodes(b, defB, bytes, 0)
  {
    hide Scan;
  }

  lemma NodesStep(a: Snapshot, b: Snapshot, defA: seq<Descriptor>, defB: seq<Descriptor>, bytes: seq<byte>, i: nat,
                  d: Descriptor)
    requires i < |Scan(bytes).fields| && DecodeNodes(a, defA, bytes, i) == DecodeNodes(b, defB, bytes, i)
    requires var f := Scan(bytes).fields[i];
      Find(defA, f.number) == Some(d) && Find(defB, f.number) == Some(d) && SameValue(a, b, d, f)
    ensures DecodeNodes(a, defA, bytes, i + 1) == DecodeNodes(b, defB, bytes, i + 1)
  {
    hide Scan, DecodeField, Find;
    var f := Scan(bytes).fields[i];
    PayloadsShorter(bytes);
    BoundFree(a, d, f, Size(f) + 1, |bytes|);
    BoundFree(b, d, f, Size(f) + 1, |bytes|);
  }

  lemma ClosedIsGraph(a: Snapshot, b: Snapshot, name: string, visited: set<string>)
    requires name in visited && ClosedBeyond(a, b, {}, visited)
    ensures IdenticalGraph(a, b, name)
  {
    hide Identical, TypeOf, NamesIn;
    assert IdenticalSet(a, b, visited);
  }

  /** The values read so far are the front of the packed values, if any. */
  predicate PackedFrom(payload: seq<byte>, offset: nat, values: seq<nat>)
    requires offset <= |payload|
  {
    match Packed(payload[offset..])
    case None => Packed(payload) == None
    case Some(rest) => Packed(payload) == Some(values + rest)
  }

  /** If the payload is packed, the values read so far and the next are among its
      values. */
  lemma PackedNext(payload: seq<byte>, offset: nat, values: seq<nat>)
    requires offset < |payload| && PackedFrom(payload, offset, values) && Packed(payload).Some?
    ensures FirstVarint(payload[offset..]).Some?
    ensures |values| < |Packed(payload).value|
    ensures Packed(payload).value[|values|] == FirstVarint(payload[offset..]).value.value
  {
    hide FirstVarint;
  }

  lemma PackedNone(payload: seq<byte>)
    ensures PackedFrom(payload, 0, [])
  {
    assert payload[0..] == payload;
    assert forall rest: seq<nat> :: [] + rest == rest;
  }

  lemma PackedAll(payload: seq<byte>, values: seq<nat>)
    requires PackedFrom(payload, |payload|, values)
    ensures Packed(payload) == Some(values)
  {
    assert payload[|payload|..] == [];
    assert values + [] == values;
  }

  lemma PackedStep(payload: seq<byte>, offset: nat, values: seq<nat>)
    requires offset < |payload| && PackedFrom(payload, offset, values)
    ensures match FirstVarint(payload[offset..])
            case None => true
            case Some(v) => offset + v.length <= |payload| && PackedFrom(payload, offset + v.length, values + [v.value])
  {
    hide FirstVarint;
    match FirstVarint(payload[offset..])
    case None =>
    case Some(v) =>
      FirstVarintInside(payload[offset..]);
      assert payload[offset..][v.length..] == payload[offset + v.length..];
      assert forall rest: seq<nat> :: values + ([v.value] + rest) == values + [v.value] + rest;
  }

  lemma FirstVarintInside(s: seq<byte>)
    ensures FirstVarint(s).Some? ==> FirstVarint(s).value.length <= |s|
  {
  }

  lemma {:induction false} LabelsAppend(s: Snapshot, name: string, values: seq<nat>, v: nat)
    ensures LabelsOf(s, name, values + [v]) == LabelsOf(s, name, values) + [FindEnum(s, name, AsInt32(v))]
  {
    if values == [] {
      assert values + [v] == [v];
    } else {
      assert (values + [v])[1..] == values[1..] + [v];
      LabelsAppend(s, name, values[1..], v);
    }
  }
}
