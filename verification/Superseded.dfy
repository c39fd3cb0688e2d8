/** Where the reader of src/chat/agentKv.ts follows a superseded reference: a map
    with one key more than fit stops the scan, and what the scan retained until
    then is taken in although a later entry replaces it. */
module Superseded {
  import opened Basics
  import opened Wire
  import opened LastWins
  import opened Schema

  function Entry(key: byte, value: seq<byte>): seq<byte> {
    EncodeAll([Bytes(1, [key]), Bytes(2, value)])
  }

  /** Three entries of one map field: a refers to x, b to nothing, a again to y. */
  function ThreeEntries(field: nat, a: byte, b: byte, x: seq<byte>, y: seq<byte>): seq<byte> {
    EncodeAll([Bytes(field, Entry(a, x)), Bytes(field, Entry(b, [])), Bytes(field, Entry(a, y))])
  }

  /** The field is a map of references of the message type, and the keys differ. */
  predicate IsMapField(rd: Reader, t: MessageType, field: nat, target: MessageType, a: byte, b: byte) {
    && rd.rules(Typed(t), field) == Some(Rule({2}, Some(MapReference(target)), None, true))
    && 1 <= field <= MAX_FIELD_NUMBER && t != Opaque && rd.maxDepth > 0 && rd.keyOf([a]) != rd.keyOf([b])
  }

  lemma EncodeShort(fields: seq<WireField>)
    requires |fields| == 2 && fields[0].Bytes? && fields[1].Bytes? && fields[0].Writable() && fields[1].Writable()
    ensures |EncodeAll(fields)| <= 40 + |fields[0].raw| + |fields[1].raw|
  {
    EncodeVarintIsVarint(8 * fields[0].number + 2);
    EncodeVarintIsVarint(8 * fields[1].number + 2);
    EncodeVarintIsVarint(|fields[0].raw|);
    EncodeVarintIsVarint(|fields[1].raw|);
    assert EncodeAll(fields) == fields[0].Encode() + (fields[1].Encode() + EncodeAll(fields[2..]));
  }

  lemma ScanEntry(key: byte, value: seq<byte>)
    requires |value| <= 32
    ensures Scan(Entry(key, value)) == Scanned(true, [Field(1, 2, Some([key]), None), Field(2, 2, Some(value), None)])
    ensures |Entry(key, value)| <= 100
  {
    var fields := [Bytes(1, [key]), Bytes(2, value)];
    ScanEncoded(fields);
    EncodeShort(fields);
    assert ReportAll(fields) == [fields[0].Report()] + ReportAll(fields[1..]);
    assert ReportAll(fields[1..]) == [fields[1].Report()] + ReportAll(fields[1..][1..]);
  }

  lemma EntryMeans(rd: Reader, key: byte, value: seq<byte>)
    requires |value| <= 32 && rd.maxDepth > 0
    ensures EntryKey(rd, Entry(key, value)) == rd.keyOf([key]) && EntryValue(Entry(key, value)) == value
    ensures Scan(Entry(key, value)).ok && EntryFlags(rd, Entry(key, value), 0) == NOTHING
  {
    hide Scan, Entry;
    ScanEntry(key, value);
    var fields := [Field(1, 2, Some([key]), None), Field(2, 2, Some(value), None)];
    assert fields[..1] == [fields[0]] && fields[..1][..0] == [];
    assert LastPayload(fields, 2) == Some(value)
           && LastPayload(fields, 1) == LastPayload(fields[..1], 1) == Some([key]);
    forall f | f in fields ensures IsPairField(f) {
    }
  }

  lemma ScanThree(field: nat, a: byte, b: byte, x: seq<byte>, y: seq<byte>)
    requires 1 <= field <= MAX_FIELD_NUMBER && |x| == 32 && |y| == 32
    ensures Scan(ThreeEntries(field, a, b, x, y)) ==
            Scanned(true, [Field(field, 2, Some(Entry(a, x)), None), Field(field, 2, Some(Entry(b, [])), None),
                           Field(field, 2, Some(Entry(a, y)), None)])
  {
    hide Scan, Entry;
    ScanEntry(a, x);
    ScanEntry(b, []);
    ScanEntry(a, y);
    var fields := [Bytes(field, Entry(a, x)), Bytes(field, Entry(b, [])), Bytes(field, Entry(a, y))];
    ScanEncoded(fields);
    assert ReportAll(fields) == [fields[0].Report()] + ReportAll(fields[1..]);
    assert ReportAll(fields[1..]) == [fields[1].Report()] + ReportAll(fields[1..][1..]);
    assert ReportAll(fields[1..][1..]) == [fields[2].Report()] + ReportAll(fields[1..][1..][1..]);
  }

  /** What the three entries are to the reader: the third replaces the first. */
  ghost predicate IsThree(rd: Reader, t: MessageType, s: seq<byte>, target: MessageType, k: Slot, x: seq<byte>,
                          y: seq<byte>)
  {
    var fields := Scan(s).fields;
    && Scan(s).ok && |fields| == 3 && k.MapSlot?
    && (forall i :: 0 <= i < 3 ==> IsEntry(rd, t, fields[i], target))
    && EntryValue(fields[0].payload.value) == x
    && EntryValue(fields[1].payload.value) == []
    && EntryValue(fields[2].payload.value) == y
    && SlotOf(rd, Typed(t), 0, fields[0]) == SlotOf(rd, Typed(t), 0, fields[2]) == Some(k)
    && SlotOf(rd, Typed(t), 0, fields[1]).Some? && SlotOf(rd, Typed(t), 0, fields[1]) != Some(k)
  }

  predicate IsEntry(rd: Reader, t: MessageType, f: Field, target: MessageType) {
    RoleOf(rd, Typed(t), f) == MapEntry(MapReference(target)) && f.payload.Some?
    && EntryFlags(rd, f.payload.value, 0) == NOTHING
  }

  lemma EntryField(rd: Reader, t: MessageType, field: nat, target: MessageType, key: byte, value: seq<byte>)
    requires rd.rules(Typed(t), field) == Some(Rule({2}, Some(MapReference(target)), None, true)) && rd.maxDepth > 0
    requires |value| <= 32
    ensures var f := Field(field, 2, Some(Entry(key, value)), None);
            IsEntry(rd, t, f, target) && EntryValue(Entry(key, value)) == value
            && SlotOf(rd, Typed(t), 0, f) == Some(MapSlot(field, rd.keyOf([key])))
  {
    hide Scan, Entry;
    EntryMeans(rd, key, value);
  }

  lemma ThreeIs(rd: Reader, t: MessageType, field: nat, target: MessageType, a: byte, b: byte, x: seq<byte>,
                y: seq<byte>)
    requires IsMapField(rd, t, field, target, a, b) && |x| == 32 && |y| == 32
    ensures IsThree(rd, t, ThreeEntries(field, a, b, x, y), target, MapSlot(field, rd.keyOf([a])), x, y)
  {
    hide Scan, Entry, ThreeEntries, SlotOf, RoleOf, EntryFlags, EntryValue;
    ScanThree(field, a, b, x, y);
    EntryField(rd, t, field, target, a, x);
    EntryField(rd, t, field, target, b, []);
    EntryField(rd, t, field, target, a, y);
  }

  /** Two keys, and of the references only the last: the message means y. */
  lemma ThreeMean(rd: Reader, t: MessageType, s: seq<byte>, target: MessageType, k: Slot, x: seq<byte>, y: seq<byte>)
    requires IsThree(rd, t, s, target, k, x, y) && t != Opaque && |y| == 32
    ensures TypeMeaning(rd, s, t) == Meaning({Ref(Hex(y), target)}, true, false, false, 2)
  {
    hide Scan, Hex, RoleOf, SlotOf, EntryFlags, EntryValue, Immediate, Deferred, Live;
    var slots := SlotsOf(rd, Typed(t), 0, Scan(s).fields);
    LiveOfThree(slots);
    ImmediateOfThree(rd, s, t, target, k, x, y);
    DeferredOfThree(rd, s, t, target, k, x, y, Live(slots));
    assert {} + {Ref(Hex(y), target)} == {Ref(Hex(y), target)};
  }

  lemma LiveOfThree(slots: seq<Option<Slot>>)
    requires |slots| == 3 && slots[0] == slots[2] != slots[1] && slots[0].Some? && slots[1].Some?
    ensures Live(slots) == {1, 2} && Opens(slots, 0) && Opens(slots, 1) && !Opens(slots, 2)
  {
    assert slots[2] == slots[0];
  }

  lemma ImmediateOfThree(rd: Reader, s: seq<byte>, t: MessageType, target: MessageType, k: Slot, x: seq<byte>,
                         y: seq<byte>)
    requires IsThree(rd, t, s, target, k, x, y)
    ensures Immediate(rd, s, Typed(t), 0, 1) == ONE_ENTRY
    ensures Immediate(rd, s, Typed(t), 0, 2) == Immediate(rd, s, Typed(t), 0, 3) == NOTHING.(entries := 2)
  {
    hide Scan, RoleOf, EntryFlags, EntryValue, SlotOf, Opens, ImmediateAt, Live;
    LiveOfThree(SlotsOf(rd, Typed(t), 0, Scan(s).fields));
    ImmediateEntry(rd, s, t, target, k, x, y, 0);
    ImmediateEntry(rd, s, t, target, k, x, y, 1);
    ImmediateEntry(rd, s, t, target, k, x, y, 2);
    assert Immediate(rd, s, Typed(t), 0, 0) == NOTHING;
    assert Immediate(rd, s, Typed(t), 0, 1) == Join(NOTHING, ONE_ENTRY);
    assert Immediate(rd, s, Typed(t), 0, 2) == Join(ONE_ENTRY, ONE_ENTRY);
    assert Immediate(rd, s, Typed(t), 0, 3) == Join(NOTHING.(entries := 2), NOTHING);
  }

  lemma ImmediateEntry(rd: Reader, s: seq<byte>, t: MessageType, target: MessageType, k: Slot, x: seq<byte>,
                       y: seq<byte>, i: nat)
    requires IsThree(rd, t, s, target, k, x, y) && i < 3
    ensures ImmediateAt(rd, s, Typed(t), 0, i) ==
              if Opens(SlotsOf(rd, Typed(t), 0, Scan(s).fields), i) then ONE_ENTRY else NOTHING
  {
    hide Scan, SlotOf, EntryFlags, EntryValue, Opens;
    assert IsEntry(rd, t, Scan(s).fields[i], target);
  }

  lemma DeferredOfThree(rd: Reader, s: seq<byte>, t: MessageType, target: MessageType, k: Slot, x: seq<byte>,
                        y: seq<byte>, positions: set<nat>)
    requires IsThree(rd, t, s, target, k, x, y) && |y| == 32 && 0 !in positions && 1 in positions && 2 in positions
    ensures Deferred(rd, s, Typed(t), 0, positions, 3) == NOTHING.(refs := {Ref(Hex(y), target)})
  {
    hide Scan, RoleOf, SlotOf, EntryFlags, EntryValue, Hex, DeferredAt, Deferred;
    DeferredEntry(rd, s, t, target, k, x, y, 1);
    DeferredEntry(rd, s, t, target, k, x, y, 2);
    assert DeferredAt(rd, s, Typed(t), 0, 1) == NOTHING;
    assert DeferredAt(rd, s, Typed(t), 0, 2) == NOTHING.(refs := {Ref(Hex(y), target)});
    LastOfTwo(rd, s, Typed(t), positions);
  }

  lemma LastOfTwo(rd: Reader, s: seq<byte>, schema: SchemaName, positions: set<nat>)
    requires |Scan(s).fields| == 3 && DeferredAt(rd, s, schema, 0, 1) == NOTHING
    requires 0 !in positions && 1 in positions && 2 in positions
    ensures Deferred(rd, s, schema, 0, positions, 3) == DeferredAt(rd, s, schema, 0, 2)
  {
    hide Scan, DeferredAt, Deferred, Join;
    DeferredStep(rd, s, schema, positions, 0);
    DeferredStep(rd, s, schema, positions, 1);
    JoinNothing(NOTHING);
    assert Deferred(rd, s, schema, 0, positions, 2) == NOTHING;
    DeferredStep(rd, s, schema, positions, 2);
    JoinNothing(DeferredAt(rd, s, schema, 0, 2));
  }

  lemma DeferredStep(rd: Reader, s: seq<byte>, schema: SchemaName, positions: set<nat>, n: nat)
    requires n < |Scan(s).fields|
    ensures Deferred(rd, s, schema, 0, positions, 0) == NOTHING
    ensures Deferred(rd, s, schema, 0, positions, n + 1) ==
            var rest := Deferred(rd, s, schema, 0, positions, n);
            if n in positions then Join(rest, DeferredAt(rd, s, schema, 0, n)) else rest
  {
    hide Scan, DeferredAt;
  }

  lemma JoinNothing(m: Meaning)
    ensures Join(NOTHING, m) == m
  {
    assert {} + m.refs == m.refs;
  }

  lemma DeferredEntry(rd: Reader, s: seq<byte>, t: MessageType, target: MessageType, k: Slot, x: seq<byte>,
                      y: seq<byte>, i: nat)
    requires IsThree(rd, t, s, target, k, x, y) && i < 3
    ensures DeferredAt(rd, s, Typed(t), 0, i) == ReferenceMeaning(EntryValue(Scan(s).fields[i].payload.value), target)
  {
    hide Scan, SlotOf, EntryFlags, EntryValue, ReferenceMeaning;
    assert IsEntry(rd, t, Scan(s).fields[i], target);
  }

  /** With room for one id and one map key the scan stops at the second entry,
      holding the first. */
  lemma StopsAtSecond(rd: Reader, t: MessageType, s: seq<byte>, target: MessageType, k: Slot, x: seq<byte>,
                      y: seq<byte>)
    requires IsThree(rd, t, s, target, k, x, y)
    ensures StopsAt(rd, Limits({}, 1, 1), START, s, Typed(t), 0, 1) && StopsInMap(rd, Typed(t), 0, Scan(s).fields, 1)
    ensures Scan(s).ok && |Scan(s).fields| == 3 && k.MapSlot?
    ensures SlotsAt(rd, Typed(t), 0, Scan(s).fields, 1) == map[k := DeferredField(Some(MapReference(target)), x)]
  {
    hide Scan, SlotOf, RoleOf, EntryFlags, EntryValue, Immediate;
    ImmediateOfThree(rd, s, t, target, k, x, y);
    var slots := SlotsOf(rd, Typed(t), 0, Scan(s).fields);
    assert Survivor(slots, 0) == map[] && Survivor(slots, 1) == map[k := 0];
    assert IsEntry(rd, t, Scan(s).fields[0], target) && IsEntry(rd, t, Scan(s).fields[1], target);
    assert Ids({}) == {} && START.refs + {} == {};
    assert DeferredFieldOf(rd, Typed(t), Scan(s).fields[0]) == DeferredField(Some(MapReference(target)), x);
  }

  /** The parse then reports x, which the message does not mean, and not y. */
  method FollowsSuperseded(rd: Reader, t: MessageType, field: nat, target: MessageType, a: byte, b: byte, x: seq<byte>,
                           y: seq<byte>)
    returns (p: ParsedProtobuf)
    requires IsMapField(rd, t, field, target, a, b) && |x| == 32 && |y| == 32 && Hex(x) != Hex(y)
    ensures p.valid && p.candidateLimited && p.candidates.Keys == {Hex(x)}
    ensures TypeMeaning(rd, ThreeEntries(field, a, b, x, y), t) == Meaning({Ref(Hex(y), target)}, true, false, false, 2)
  {
    hide Scan, ThreeEntries, Hex, TypeMeaning, StopsAt, StopsInMap, SlotsAt, IsThree, LeavesBehind, NoneEmpty;
    var s := ThreeEntries(field, a, b, x, y);
    ghost var k := MapSlot(field, rd.keyOf([a]));
    ThreeIs(rd, t, field, target, a, b, x, y);
    ThreeMean(rd, t, s, target, k, x, y);
    StopsAtSecond(rd, t, s, target, k, x, y);
    p := ParseProtobuf(rd, s, t, {}, 1, 1);
    LeavesFirst(rd, s, t, target, k, x, y, p);
  }

  lemma LeavesFirst(rd: Reader, s: seq<byte>, t: MessageType, target: MessageType, k: Slot, x: seq<byte>, y: seq<byte>,
                    p: ParsedProtobuf)
    requires IsThree(rd, t, s, target, k, x, y) && |x| == 32 && NoneEmpty(p.candidates)
    requires LeavesBehind(rd, Limits({}, 1, 1), s, Typed(t), 0, 1, START,
                          START.(refs := RefsOf(p.candidates), valid := p.valid))
    ensures p.valid && p.candidates.Keys == {Hex(x)}
  {
    hide Scan, Hex, StopsAt, StopsInMap, SlotsAt, IsThree, RefsOf, Immediate;
    StopsAtSecond(rd, t, s, target, k, x, y);
    ImmediateOfThree(rd, s, t, target, k, x, y);
    var slots := SlotsAt(rd, Typed(t), 0, Scan(s).fields, 1);
    var r := Ref(Hex(x), target);
    assert k in slots && DirectRefs(k, slots[k]) == {r} && IsDirect(k, slots[k]);
    assert AllDirect(slots) && AllRefs(slots) == {r};
    RefsOfIds(p.candidates);
    assert RefsOf(p.candidates) <= {r};
    assert HoldsRefs(Limits({}, 1, 1), {r}, START.(refs := RefsOf(p.candidates), valid := p.valid));
    OneRef(RefsOf(p.candidates), r);
  }

  lemma OneRef(refs: set<Ref>, r: Ref)
    requires refs <= {r} && (r in refs || |Ids(refs)| >= 1)
    ensures Ids(refs) == {r.id}
  {
    assert refs == {} || refs == {r};
    assert Ids({}) == {} && Ids({r}) == {r.id};
  }
}
