/** The schema-driven reference reader of src/chat/agentKv.ts: what one stored
    message means as a set of typed blob references, and the two-pass walk that
    computes it under candidate, map-entry and nesting limits. */
module Schema {
  import opened Basics
  import opened Wire
  import opened LastWins

  /** A content id: 64 hexadecimal digits when produced by the reader. */
  type Id = Text

  datatype MessageType =
    | ConversationState | ConversationTurn | UserMessage | ConversationStep | SubagentState | Opaque

  datatype SchemaName =
    | Typed(messageType: MessageType)
    | FileState | AgentTurn | ShellTurn | SelectedContext | SelectedImage | ExtraContextEntry
    | InvocationContext | SelectedPullRequest | SelectedGitPrDiff | ToolCall | ReadToolCall
    | ReadToolResult | ReadToolSuccess | TaskToolCall | TaskResult | TaskSuccess | TruncatedToolCall

  datatype Action =
    | Reference(target: MessageType)
    | Message(schema: SchemaName)
    | MapReference(target: MessageType)
    | MapMessage(schema: SchemaName)
    | SelectedImageWithData

  datatype Rule = Rule(wires: set<nat>, action: Option<Action>, oneof: Option<string>, repeated: bool)

  /** The schema table, the UTF-8 decoding of map keys, and the nesting limit. */
  datatype Reader = Reader(
    rules: (SchemaName, nat) -> Option<Rule>,
    keyOf: seq<byte> -> Text,
    maxDepth: nat)

  datatype Ref = Ref(id: Id, target: MessageType)

  // ----- Meanings -----

  /** What some bytes contribute: typed references, flags, and how many map keys
      had to be retained. */
  datatype Meaning = Meaning(refs: set<Ref>, valid: bool, depthLimited: bool, unsupported: bool, entries: nat)

  const NOTHING := Meaning({}, true, false, false, 0)
  const INVALID := NOTHING.(valid := false)
  const TOO_DEEP := NOTHING.(depthLimited := true)
  const UNSUPPORTED := NOTHING.(unsupported := true)
  const ONE_ENTRY := NOTHING.(entries := 1)

  function Join(a: Meaning, b: Meaning): Meaning {
    Meaning(a.refs + b.refs, a.valid && b.valid, a.depthLimited || b.depthLimited,
            a.unsupported || b.unsupported, a.entries + b.entries)
  }

  lemma JoinLaws(a: Meaning, b: Meaning, c: Meaning)
    ensures Join(Join(a, b), c) == Join(a, Join(b, c))
    ensures Join(Join(a, b), c) == Join(Join(a, c), b)
    ensures Join(a, NOTHING) == a
  {
    assert a.refs + b.refs + c.refs == a.refs + (b.refs + c.refs) == a.refs + c.refs + b.refs;
  }

  // ----- The role of one field -----

  datatype Role =
    | Unknown
    | Ignored
    | OneofMember(oneof: string, member: Option<Action>)
    | MapEntry(action: Action)
    | Repeated(action: Action)
    | Singular(action: Action)

  function RoleOf(rd: Reader, schema: SchemaName, f: Field): (r: Role)
    ensures !r.Unknown? && !r.Ignored? ==> f.payload.Some?
  {
    match rd.rules(schema, f.number)
    case None => Unknown
    case Some(rule) =>
      if f.wire !in rule.wires then Unknown
      else if f.payload == None || rule.action == None then
        if rule.oneof.Some? && f.payload.Some? then OneofMember(rule.oneof.value, None) else Ignored
      else if rule.oneof.Some? then OneofMember(rule.oneof.value, rule.action)
      else if rule.action.value.MapReference? || rule.action.value.MapMessage? then MapEntry(rule.action.value)
      else if rule.repeated then Repeated(rule.action.value)
      else Singular(rule.action.value)
  }

  // ----- Two-field submessages: map entries and images with inline data -----

  predicate IsPairField(f: Field) {
    (f.number == 1 || f.number == 2) && f.wire == 2 && f.payload.Some?
  }

  /** The last payload given to field n of the pair. */
  function LastPayload(fields: seq<Field>, n: nat): Option<seq<byte>> {
    if fields == [] then None
    else
      var f := fields[|fields| - 1];
      if IsPairField(f) && f.number == n then f.payload else LastPayload(fields[..|fields| - 1], n)
  }

  predicate PairUnsupported(fields: seq<Field>) {
    exists f :: f in fields && !IsPairField(f)
  }

  function OrEmpty(p: Option<seq<byte>>): seq<byte> {
    if p.Some? then p.value else []
  }

  lemma {:induction false} LastPayloadShorter(fields: seq<Field>, n: nat, bound: nat)
    requires forall f :: f in fields && f.payload.Some? ==> |f.payload.value| < bound
    requires bound > 0
    ensures |OrEmpty(LastPayload(fields, n))| < bound
  {
    if fields != [] {
      LastPayloadShorter(fields[..|fields| - 1], n, bound);
    }
  }

  function EntryValue(entry: seq<byte>): seq<byte> {
    OrEmpty(LastPayload(Scan(entry).fields, 2))
  }

  function EntryKey(rd: Reader, entry: seq<byte>): Text {
    rd.keyOf(OrEmpty(LastPayload(Scan(entry).fields, 1)))
  }

  function EntryFlags(rd: Reader, entry: seq<byte>, depth: nat): Meaning {
    if depth >= rd.maxDepth then TOO_DEEP
    else if !Scan(entry).ok then INVALID
    else PairFlags(Scan(entry).fields)
  }

  // ----- What each action contributes -----

  function Hex(s: seq<byte>): Id {
    if s == [] then [] else [HexDigit(s[0] / 16), HexDigit(s[0] % 16)] + Hex(s[1..])
  }

  /** Bytes as a number, the first the most significant. */
  function BytesNumber(s: seq<byte>): nat {
    if s == [] then 0 else BytesNumber(s[..|s| - 1]) * 256 + s[|s| - 1]
  }

  /** Hexadecimal digits as a number. */
  function DigitsNumber(t: Id): int {
    if t == [] then 0 else DigitsNumber(t[..|t| - 1]) * 16 + DigitValue(t[|t| - 1])
  }

  function DigitValue(c: CodeUnit): int {
    if c <= '9' as int then c - '0' as int else c - 'a' as int + 10
  }

  lemma {:induction false} HexAppend(s: seq<byte>, b: byte)
    ensures Hex(s + [b]) == Hex(s) + [HexDigit(b / 16), HexDigit(b % 16)]
  {
    if s == [] {
      assert s + [b] == [b] && Hex([b][1..]) == [];
    } else {
      assert (s + [b])[1..] == s[1..] + [b];
      HexAppend(s[1..], b);
    }
  }

  /** An id writes its bytes as one number in base 16, two digits a byte. */
  lemma {:induction false} HexIsNumber(s: seq<byte>)
    ensures |Hex(s)| == 2 * |s| && DigitsNumber(Hex(s)) == BytesNumber(s)
    ensures forall i ::
              0 <= i < |Hex(s)| ==> '0' as int <= Hex(s)[i] <= '9' as int || 'a' as int <= Hex(s)[i] <= 'f' as int
  {
    if s != [] {
      var init, b := s[..|s| - 1], s[|s| - 1];
      HexIsNumber(init);
      HexAppend(init, b);
      assert s == init + [b];
      var t := Hex(s);
      assert t[..|t| - 1] == Hex(init) + [HexDigit(b / 16)];
      assert t[..|t| - 1][..|t| - 2] == Hex(init);
      assert DigitsNumber(t[..|t| - 1]) == DigitsNumber(Hex(init)) * 16 + b / 16;
    }
  }

  function ReferenceMeaning(payload: seq<byte>, target: MessageType): Meaning {
    if payload == [] then NOTHING
    else if |payload| != 32 then UNSUPPORTED
    else NOTHING.(refs := {Ref(Hex(payload), target)})
  }

  function ImageMeaning(rd: Reader, payload: seq<byte>, depth: nat): Meaning {
    if depth >= rd.maxDepth then TOO_DEEP
    else if !Scan(payload).ok then INVALID
    else Join(PairFlags(Scan(payload).fields), ImageReference(Scan(payload).fields))
  }

  function PairFlags(fields: seq<Field>): Meaning {
    if PairUnsupported(fields) then UNSUPPORTED else NOTHING
  }

  /** The blob id counts only when there is no inline data. */
  function ImageReference(fields: seq<Field>): Meaning {
    var id := LastPayload(fields, 1);
    if id.Some? && |OrEmpty(LastPayload(fields, 2))| == 0 then ReferenceMeaning(id.value, Opaque) else NOTHING
  }

  function ActionMeaning(rd: Reader, action: Action, payload: seq<byte>, depth: nat): Meaning
    decreases |payload|, 5
  {
    match action
    case Reference(target) => ReferenceMeaning(payload, target)
    case Message(schema) => NestedMeaning(rd, payload, schema, depth)
    case SelectedImageWithData => ImageMeaning(rd, payload, depth)
    case _ => NOTHING
  }

  function NestedMeaning(rd: Reader, payload: seq<byte>, schema: SchemaName, depth: nat): Meaning
    decreases |payload|, 4
  {
    if depth >= rd.maxDepth then TOO_DEEP else MessageMeaning(rd, payload, schema, depth + 1)
  }

  // ----- The meaning of a message -----

  /** Fields of one slot supersede one another: occurrences of a singular field,
      members of one oneof, entries of one map with one key. */
  datatype Slot = SingularSlot(number: nat) | OneofSlot(name: string) | MapSlot(number: nat, key: Text)

  function SlotOf(rd: Reader, schema: SchemaName, depth: nat, f: Field): Option<Slot> {
    match RoleOf(rd, schema, f)
    case OneofMember(name, _) => Some(OneofSlot(name))
    case Singular(_) => Some(SingularSlot(f.number))
    case MapEntry(_) =>
      if f.payload.Some? && depth < rd.maxDepth && Scan(f.payload.value).ok
      then Some(MapSlot(f.number, EntryKey(rd, f.payload.value))) else None
    case _ => None
  }

  function SlotsOf(rd: Reader, schema: SchemaName, depth: nat, fields: seq<Field>): (r: seq<Option<Slot>>)
    ensures |r| == |fields|
  {
    seq(|fields|, i requires 0 <= i < |fields| => SlotOf(rd, schema, depth, fields[i]))
  }

  /** A message means the union of what every occurrence of a repeated field,
      and the last (live) occurrence in each slot, means; every map entry is checked,
      and each distinct map key counts once. */
  function MessageMeaning(rd: Reader, s: seq<byte>, schema: SchemaName, depth: nat): Meaning
    decreases |s|, 3
  {
    var fields := Scan(s).fields;
    if !Scan(s).ok then INVALID
    else Join(Immediate(rd, s, schema, depth, |fields|),
              Deferred(rd, s, schema, depth, Live(SlotsOf(rd, schema, depth, fields)), |fields|))
  }

  function Immediate(rd: Reader, s: seq<byte>, schema: SchemaName, depth: nat, n: nat): Meaning
    requires n <= |Scan(s).fields|
    decreases |s|, 2, n
  {
    if n == 0 then NOTHING
    else Join(Immediate(rd, s, schema, depth, n - 1), ImmediateAt(rd, s, schema, depth, n - 1))
  }

  function ImmediateAt(rd: Reader, s: seq<byte>, schema: SchemaName, depth: nat, i: nat): Meaning
    requires i < |Scan(s).fields|
    decreases |s|, 1
  {
    var fields := Scan(s).fields;
    match RoleOf(rd, schema, fields[i])
    case Unknown => UNSUPPORTED
    case MapEntry(_) =>
      Join(EntryFlags(rd, fields[i].payload.value, depth),
           if Opens(SlotsOf(rd, schema, depth, fields), i) then ONE_ENTRY else NOTHING)
    case Repeated(action) =>
      PayloadsShorter(s);
      ActionMeaning(rd, action, fields[i].payload.value, depth)
    case _ => NOTHING
  }

  function Deferred(rd: Reader, s: seq<byte>, schema: SchemaName, depth: nat, positions: set<nat>, n: nat): Meaning
    requires n <= |Scan(s).fields|
    decreases |s|, 2, n
  {
    if n == 0 then NOTHING
    else
      var rest := Deferred(rd, s, schema, depth, positions, n - 1);
      if n - 1 in positions then Join(rest, DeferredAt(rd, s, schema, depth, n - 1)) else rest
  }

  function DeferredAt(rd: Reader, s: seq<byte>, schema: SchemaName, depth: nat, i: nat): Meaning
    requires i < |Scan(s).fields|
    decreases |s|, 1
  {
    var f := Scan(s).fields[i];
    PayloadsShorter(s);
    match RoleOf(rd, schema, f)
    case OneofMember(_, Some(action)) => ActionMeaning(rd, action, f.payload.value, depth)
    case Singular(action) => ActionMeaning(rd, action, f.payload.value, depth)
    case MapEntry(action) =>
      PayloadsShorter(f.payload.value);
      LastPayloadShorter(Scan(f.payload.value).fields, 2, |f.payload.value| + 1);
      MapValueMeaning(rd, action, EntryValue(f.payload.value), depth)
    case _ => NOTHING
  }

  function MapValueMeaning(rd: Reader, action: Action, value: seq<byte>, depth: nat): Meaning
    decreases |value|, 5
  {
    match action
    case MapReference(target) => ReferenceMeaning(value, target)
    case MapMessage(schema) => NestedMeaning(rd, value, schema, depth + 1)
    case _ => NOTHING
  }

  // ----- Limits -----

  /** Ids that cost nothing, and how many new ids and map keys fit. */
  datatype Limits = Limits(known: set<Id>, maxNew: nat, maxEntries: nat)

  const START := State({}, 0, false, false, true, false)

  datatype State = State(refs: set<Ref>, entries: nat, depthLimited: bool, unsupported: bool, valid: bool,
                         limited: bool)
  {
    predicate Ok() {
      valid && !limited
    }
  }

  function Ids(refs: set<Ref>): set<Id> {
    set r | r in refs :: r.id
  }

  predicate Overflow(l: Limits, refs: set<Ref>, entries: nat) {
    |Ids(refs) - l.known| > l.maxNew || entries > l.maxEntries
  }

  function Plus(a: State, m: Meaning): State {
    State(a.refs + m.refs, a.entries + m.entries, a.depthLimited || m.depthLimited, a.unsupported || m.unsupported,
          true, false)
  }

  predicate Accepts(l: Limits, a: State, m: Meaning) {
    m.valid && !Overflow(l, Plus(a, m).refs, Plus(a, m).entries)
  }

  function NewIdsOf(l: Limits, a: State): set<Id> {
    Ids(a.refs) - l.known
  }

  /** No new id fits any more. */
  predicate IsFull(l: Limits, a: State) {
    |NewIdsOf(l, a)| >= l.maxNew
  }

  /** The walk from a to b took in m: it is still going exactly when m is valid
      and fits, and then it holds exactly what it held before and m. */
  ghost predicate Takes(l: Limits, a: State, m: Meaning, b: State) {
    && (b.Ok() ==> a.Ok() && m.valid && b == Plus(a, m))
    && (a.Ok() && Accepts(l, a, m) ==> b.Ok())
  }

  /** Even when it stops: nothing is taken back; once full, no new id comes in;
      and as long as the map keys fit, only ids of m come in and only new ids
      stop the walk. */
  ghost predicate Grows(l: Limits, a: State, m: Meaning, b: State) {
    && a.refs <= b.refs && (b.valid ==> a.valid) && (a.limited ==> b.limited)
    && (IsFull(l, a) ==> NewIdsOf(l, b) == NewIdsOf(l, a))
    && a.entries <= b.entries <= a.entries + m.entries && (!a.Ok() ==> b.entries == a.entries)
    && (b.valid && (a.limited ==> IsFull(l, a)) && a.entries + m.entries <= l.maxEntries ==>
          (b.limited ==> IsFull(l, b)) && NewIdsOf(l, b) <= NewIdsOf(l, a) + Ids(m.refs))
  }

  ghost predicate Adds(l: Limits, a: State, m: Meaning, b: State) {
    Takes(l, a, m, b) && Grows(l, a, m, b)
  }

  lemma AddsFlags(l: Limits, a: State)
    ensures Adds(l, a, NOTHING, a)
    ensures Adds(l, a, TOO_DEEP, a.(depthLimited := true))
    ensures Adds(l, a, UNSUPPORTED, a.(unsupported := true))
    ensures Adds(l, a, INVALID, a.(valid := false))
    ensures a.Ok() ==> Adds(l, a, ONE_ENTRY, a.(entries := a.entries + 1))
    ensures a.entries >= l.maxEntries ==> Adds(l, a, ONE_ENTRY, a.(limited := true))
  {
    assert a.refs + {} == a.refs;
  }

  lemma AddsNothing(l: Limits, a: State)
    ensures Adds(l, a, NOTHING, a)
  {
    AddsFlags(l, a);
  }

  lemma AddsTooDeepOrInvalid(l: Limits, a: State)
    ensures Adds(l, a, TOO_DEEP, a.(depthLimited := true))
    ensures Adds(l, a, INVALID, a.(valid := false))
  {
    AddsFlags(l, a);
  }

  lemma AddsAfterStop(l: Limits, a: State, m: Meaning)
    requires !a.Ok()
    ensures Adds(l, a, m, a)
  {
  }

  lemma AddsPairFlags(l: Limits, a: State)
    ensures Adds(l, a, NOTHING, a) && Adds(l, a, UNSUPPORTED, a.(unsupported := true))
  {
    AddsFlags(l, a);
  }

  lemma AddsOneEntry(l: Limits, a: State)
    ensures a.Ok() ==> Adds(l, a, ONE_ENTRY, a.(entries := a.entries + 1))
    ensures a.entries >= l.maxEntries ==> Adds(l, a, ONE_ENTRY, a.(limited := true))
  {
    AddsFlags(l, a);
  }

  lemma AddsRef(l: Limits, a: State, r: Ref)
    ensures r.id in l.known + Ids(a.refs) || !IsFull(l, a) ==>
              Adds(l, a, NOTHING.(refs := {r}), a.(refs := a.refs + {r}))
    ensures Overflow(l, a.refs + {r}, a.entries) && IsFull(l, a) ==>
              Adds(l, a, NOTHING.(refs := {r}), a.(limited := true))
  {
    hide Overflow, Grows;
    GrowsRef(l, a, r);
  }

  lemma GrowsRef(l: Limits, a: State, r: Ref)
    ensures r.id in l.known + Ids(a.refs) || !IsFull(l, a) ==>
              Grows(l, a, NOTHING.(refs := {r}), a.(refs := a.refs + {r}))
    ensures IsFull(l, a) ==> Grows(l, a, NOTHING.(refs := {r}), a.(limited := true))
  {
    hide Ids;
    IdsInsert(a.refs, r);
    OneMoreId(l.known, Ids(a.refs), r.id);
    IdsInsert({}, r);
    assert {} + {r} == {r};
  }

  lemma IdsInsert(refs: set<Ref>, r: Ref)
    ensures Ids(refs + {r}) == Ids(refs) + {r.id}
  {
  }

  lemma IdsOfMore(a: set<Ref>, b: set<Ref>)
    ensures Ids(a + b) == Ids(a) + Ids(b)
  {
  }

  lemma OneMoreId(known: set<Id>, ids: set<Id>, id: Id)
    ensures id in known + ids ==> ids + {id} - known == ids - known
    ensures ids + {id} - known <= ids - known + {id}
  {
  }

  lemma OneTooMany(l: Limits, refs: set<Ref>, newIds: set<Id>, id: Id, entries: nat)
    requires id !in newIds && |newIds| >= l.maxNew && Ids(refs) - l.known == newIds + {id}
    ensures Overflow(l, refs, entries)
  {
  }

  /** m contributes no more than n. */
  ghost predicate Below(m: Meaning, n: Meaning) {
    m.refs <= n.refs && m.entries <= n.entries && (n.valid ==> m.valid)
  }

  lemma OverflowMonotone(l: Limits, r: set<Ref>, r': set<Ref>, e: nat, e': nat)
    requires r <= r' && e <= e' && Overflow(l, r, e)
    ensures Overflow(l, r', e')
  {
    SubsetSize(Ids(r) - l.known, Ids(r') - l.known);
  }

  lemma AddsJoin(l: Limits, a: State, m: Meaning, b: State, n: Meaning, c: State)
    requires Adds(l, a, m, b) && Adds(l, b, n, c)
    ensures Adds(l, a, Join(m, n), c)
  {
    hide Takes, Grows;
    TakesJoin(l, a, m, b, n, c);
    GrowsJoin(l, a, m, b, n, c);
  }

  lemma TakesJoin(l: Limits, a: State, m: Meaning, b: State, n: Meaning, c: State)
    requires Takes(l, a, m, b) && Takes(l, b, n, c)
    ensures Takes(l, a, Join(m, n), c)
  {
    hide Overflow;
    var mn := Join(m, n);
    assert a.refs + mn.refs == a.refs + m.refs + n.refs;
    if a.Ok() && mn.valid && !Overflow(l, a.refs + mn.refs, a.entries + mn.entries) {
      if Overflow(l, a.refs + m.refs, a.entries + m.entries) {
        OverflowMonotone(l, a.refs + m.refs, a.refs + mn.refs, a.entries + m.entries, a.entries + mn.entries);
      }
    }
  }

  lemma GrowsJoin(l: Limits, a: State, m: Meaning, b: State, n: Meaning, c: State)
    requires Grows(l, a, m, b) && Grows(l, b, n, c)
    ensures Grows(l, a, Join(m, n), c)
  {
    hide Ids;
    IdsOfMore(m.refs, n.refs);
  }

  /** Once stopped, the walk has failed on anything that contains m. */
  lemma AddsStopped(l: Limits, a: State, m: Meaning, b: State, n: Meaning, c: State)
    requires Adds(l, a, m, b) && !b.Ok() && !c.Ok() && Below(m, n) && Grows(l, b, NOTHING, c)
    ensures Adds(l, a, n, c)
  {
    hide Overflow, Grows;
    if a.Ok() && m.valid {
      assert Overflow(l, a.refs + m.refs, a.entries + m.entries);
      OverflowMonotone(l, a.refs + m.refs, a.refs + n.refs, a.entries + m.entries, a.entries + n.entries);
    }
    GrowsJoin(l, a, m, b, NOTHING, c);
    GrowsMore(l, a, Join(m, NOTHING), n, c);
  }

  lemma GrowsMore(l: Limits, a: State, m: Meaning, n: Meaning, b: State)
    requires Grows(l, a, m, b) && m.refs <= n.refs && m.entries <= n.entries
    ensures Grows(l, a, n, b)
  {
    assert Ids(m.refs) <= Ids(n.refs);
  }

  /** What a stopped walk still takes in are ids it holds already. */
  lemma GrowsStale(l: Limits, a: State, m: Meaning, b: State)
    requires Grows(l, a, m, b) && !a.Ok()
    ensures Grows(l, a, NOTHING, b)
  {
    hide Ids;
  }

  lemma {:induction false} ImmediateBelow(rd: Reader, s: seq<byte>, schema: SchemaName, depth: nat, i: nat, n: nat)
    requires i <= n <= |Scan(s).fields|
    ensures Below(Immediate(rd, s, schema, depth, i), Immediate(rd, s, schema, depth, n))
    decreases n
  {
    hide ImmediateAt, Scan;
    if i < n {
      ImmediateBelow(rd, s, schema, depth, i, n - 1);
    }
  }

  lemma {:induction false} DeferredInsert(
    rd: Reader, s: seq<byte>, schema: SchemaName, depth: nat, positions: set<nat>, i: nat, n: nat)
    requires n <= |Scan(s).fields| && i < n && i !in positions
    ensures Deferred(rd, s, schema, depth, positions + {i}, n)
         == Join(Deferred(rd, s, schema, depth, positions, n), DeferredAt(rd, s, schema, depth, i))
  {
    hide DeferredAt, Scan;
    var d := DeferredAt(rd, s, schema, depth, i);
    var rest := Deferred(rd, s, schema, depth, positions, n - 1);
    if i == n - 1 {
      DeferredOutside(rd, s, schema, depth, positions, i, n - 1);
    } else {
      DeferredInsert(rd, s, schema, depth, positions, i, n - 1);
      JoinLaws(rest, d, DeferredAt(rd, s, schema, depth, n - 1));
    }
  }

  lemma {:induction false} DeferredOutside(
    rd: Reader, s: seq<byte>, schema: SchemaName, depth: nat, positions: set<nat>, i: nat, n: nat)
    requires n <= |Scan(s).fields| && i >= n
    ensures Deferred(rd, s, schema, depth, positions + {i}, n) == Deferred(rd, s, schema, depth, positions, n)
  {
    hide DeferredAt, Scan;
    if n > 0 {
      DeferredOutside(rd, s, schema, depth, positions, i, n - 1);
    }
  }

  lemma {:induction false} DeferredNone(rd: Reader, s: seq<byte>, schema: SchemaName, depth: nat, n: nat)
    requires n <= |Scan(s).fields|
    ensures Deferred(rd, s, schema, depth, {}, n) == NOTHING
  {
    hide DeferredAt, Scan;
    if n > 0 {
      DeferredNone(rd, s, schema, depth, n - 1);
    }
  }

  lemma AddsImmediateNone(rd: Reader, l: Limits, a: State, s: seq<byte>, schema: SchemaName, depth: nat)
    ensures Adds(l, a, Immediate(rd, s, schema, depth, 0), a)
    ensures Retained(rd, schema, depth, Scan(s).fields, 0, map[])
  {
    hide Scan, SlotOf;
    AddsFlags(l, a);
  }

  /** Scanning one more field, and giving up if it stopped the walk. */
  lemma AddsImmediate(rd: Reader, l: Limits, a: State, b: State, c: State, s: seq<byte>, schema: SchemaName, depth: nat,
                      i: nat)
    requires i < |Scan(s).fields|
    requires Adds(l, a, Immediate(rd, s, schema, depth, i), b)
    requires Adds(l, b, ImmediateAt(rd, s, schema, depth, i), c)
    ensures Adds(l, a, Immediate(rd, s, schema, depth, i + 1), c)
    ensures !c.Ok() ==> Adds(l, a, Immediate(rd, s, schema, depth, |Scan(s).fields|), c)
  {
    hide Scan, ImmediateAt, Adds, Below;
    AddsJoin(l, a, Immediate(rd, s, schema, depth, i), b, ImmediateAt(rd, s, schema, depth, i), c);
    if !c.Ok() {
      ImmediateBelow(rd, s, schema, depth, i + 1, |Scan(s).fields|);
      AddsStopped(l, a, Immediate(rd, s, schema, depth, i + 1), c, Immediate(rd, s, schema, depth, |Scan(s).fields|),
                  c);
    }
  }

  // ----- The walk -----

  /** What a superseded-or-not slot keeps until the whole message is scanned. */
  datatype DeferredField = DeferredField(action: Option<Action>, payload: seq<byte>)

  function DeferredFieldOf(rd: Reader, schema: SchemaName, f: Field): DeferredField
  {
    match RoleOf(rd, schema, f)
    case OneofMember(_, member) => DeferredField(member, f.payload.value)
    case Singular(action) => DeferredField(Some(action), f.payload.value)
    case MapEntry(action) => DeferredField(Some(action), EntryValue(f.payload.value))
    case _ => DeferredField(None, [])
  }

  function RefsOf(candidates: map<Id, set<MessageType>>): set<Ref> {
    set id, t | id in candidates && t in candidates[id] :: Ref(id, t)
  }

  predicate NoneEmpty(candidates: map<Id, set<MessageType>>) {
    forall id :: id in candidates ==> candidates[id] != {}
  }

  function AddTo(candidates: map<Id, set<MessageType>>, id: Id, t: MessageType): map<Id, set<MessageType>> {
    candidates[id := (if id in candidates then candidates[id] else {}) + {t}]
  }

  lemma RefsOfAdd(candidates: map<Id, set<MessageType>>, id: Id, t: MessageType)
    requires NoneEmpty(candidates)
    ensures NoneEmpty(AddTo(candidates, id, t))
    ensures AddTo(candidates, id, t).Keys == candidates.Keys + {id}
    ensures RefsOf(AddTo(candidates, id, t)) == RefsOf(candidates) + {Ref(id, t)}
    ensures Ids(RefsOf(candidates) + {Ref(id, t)}) == candidates.Keys + {id}
  {
    forall r ensures r in RefsOf(AddTo(candidates, id, t)) <==> r in RefsOf(candidates) + {Ref(id, t)} {
    }
    forall k | k in candidates.Keys + {id} ensures k in Ids(RefsOf(candidates) + {Ref(id, t)}) {
      if k == id {
        assert Ref(id, t).id == id;
      } else {
        var u :| u in candidates[k];
        assert Ref(k, u) in RefsOf(candidates);
      }
    }
  }

  lemma RefsOfIds(a: map<Id, set<MessageType>>)
    requires NoneEmpty(a)
    ensures Ids(RefsOf(a)) == a.Keys
  {
    forall id | id in a ensures id in Ids(RefsOf(a)) {
      var t :| t in a[id];
      assert Ref(id, t) in RefsOf(a);
    }
  }

  predicate Counted(l: Limits, candidates: map<Id, set<MessageType>>, newIds: set<Id>) {
    NoneEmpty(candidates) && newIds == candidates.Keys - l.known && |newIds| <= l.maxNew
  }

  /** addCandidate on values: the new candidates and new ids, or None at the limit. */
  function Candidate(l: Limits, candidates: map<Id, set<MessageType>>, newIds: set<Id>, id: Id, t: MessageType)
    : Option<(map<Id, set<MessageType>>, set<Id>)>
  {
    if id !in candidates && id !in l.known then
      if |newIds| >= l.maxNew then None else Some((AddTo(candidates, id, t), newIds + {id}))
    else Some((AddTo(candidates, id, t), newIds))
  }

  lemma AddMinus<T>(keys: set<T>, known: set<T>, x: T)
    ensures keys + {x} - known == if x in known then keys - known else keys - known + {x}
    ensures x in keys ==> keys + {x} == keys
  {
  }

  lemma CandidateAdds(l: Limits, candidates: map<Id, set<MessageType>>, newIds: set<Id>, id: Id, t: MessageType,
                      entries: nat)
    requires Counted(l, candidates, newIds)
    ensures match Candidate(l, candidates, newIds, id, t)
            case None => Overflow(l, RefsOf(candidates) + {Ref(id, t)}, entries)
            case Some((c, n)) => Counted(l, c, n) && RefsOf(c) == RefsOf(candidates) + {Ref(id, t)}
  {
    hide AddTo, RefsOf, NoneEmpty, Overflow;
    RefsOfAdd(candidates, id, t);
    AddMinus(candidates.Keys, l.known, id);
    if id !in candidates && id !in l.known && |newIds| >= l.maxNew {
      OneTooMany(l, RefsOf(candidates) + {Ref(id, t)}, newIds, id, entries);
    }
  }

  /** The scan stops at this field: the fields before it fit, and it does not. */
  ghost predicate StopsAt(rd: Reader, l: Limits, a: State, s: seq<byte>, schema: SchemaName, depth: nat, stop: nat) {
    && stop < |Scan(s).fields|
    && Accepts(l, a, Immediate(rd, s, schema, depth, stop)) && !Accepts(l, a, Immediate(rd, s, schema, depth, stop + 1))
  }

  /** The references a retained value makes directly. */
  function DirectRefs(slot: Slot, deferred: DeferredField): set<Ref> {
    match deferred.action
    case Some(Reference(target)) => if slot.MapSlot? then {} else ReferenceMeaning(deferred.payload, target).refs
    case Some(MapReference(target)) => if slot.MapSlot? then ReferenceMeaning(deferred.payload, target).refs else {}
    case _ => {}
  }

  /** The state holds these references, or has no room for another id. */
  ghost predicate HoldsRefs(l: Limits, refs: set<Ref>, b: State) {
    refs <= b.refs || IsFull(l, b)
  }

  lemma HoldsNothing(l: Limits, b: State)
    ensures HoldsRefs(l, {}, b)
  {
  }

  lemma CandidateTaken(l: Limits, candidates: map<Id, set<MessageType>>, newIds: set<Id>, id: Id, t: MessageType,
                       a: State)
    requires Counted(l, candidates, newIds) && a.refs == RefsOf(candidates)
    ensures var m, unseen := NOTHING.(refs := {Ref(id, t)}), id !in candidates && id !in l.known;
            if unseen && |newIds| >= l.maxNew then Adds(l, a, m, a.(limited := true)) && HoldsRefs(l, m.refs,
                a.(limited := true))
            else
              var b := a.(refs := RefsOf(AddTo(candidates, id, t)));
              b.refs <= a.refs + m.refs &&
              Counted(l, AddTo(candidates, id, t), if unseen then newIds + {id} else newIds) && Adds(l, a, m, b)
              && HoldsRefs(l, m.refs, b)
  {
    hide Adds, AddTo, RefsOf, NoneEmpty, Overflow;
    CandidateAdds(l, candidates, newIds, id, t, a.entries);
    CountedIds(l, candidates, newIds);
    AddsRef(l, a, Ref(id, t));
  }

  /** The state holds what the retained values refer to, or has no room for it. */
  ghost predicate Given(l: Limits, slots: map<Slot, DeferredField>, b: State) {
    forall slot :: slot in slots ==> HoldsRefs(l, DirectRefs(slot, slots[slot]), b)
  }

  /** The scan stops at a well-formed map entry. */
  predicate StopsInMap(rd: Reader, schema: SchemaName, depth: nat, fields: seq<Field>, stop: nat) {
    && stop < |fields| && RoleOf(rd, schema, fields[stop]).MapEntry?
    && fields[stop].payload.Some? && EntryFlags(rd, fields[stop].payload.value, depth).valid
  }

  predicate IsDirect(slot: Slot, deferred: DeferredField) {
    match deferred.action
    case None => true
    case Some(Reference(_)) => true
    case Some(MapReference(_)) => true
    case _ => false
  }

  predicate AllDirect(slots: map<Slot, DeferredField>) {
    forall slot :: slot in slots ==> IsDirect(slot, slots[slot])
  }

  /** What a scan that stops leaves behind: it still takes in what it retained,
      superseded or not, while there is room for another id; and nothing of that is
      malformed if it stopped in a map and retained references only. */
  ghost predicate LeavesBehind(rd: Reader, l: Limits, s: seq<byte>, schema: SchemaName, depth: nat, stop: nat, a: State,
                               b: State)
  {
    var fields := Scan(s).fields;
    stop <= |fields| ==>
      var slots := SlotsAt(rd, schema, depth, fields, stop);
      && Given(l, slots, b)
      && (StopsInMap(rd, schema, depth, fields, stop) && AllDirect(slots) ==>
            b.valid && b.refs <= a.refs + Immediate(rd, s, schema, depth, stop).refs + AllRefs(slots))
  }

  function AllRefs(slots: map<Slot, DeferredField>): set<Ref> {
    set slot, r | slot in slots && r in DirectRefs(slot, slots[slot]) :: r
  }

  /** What the slots hold after the first n fields. */
  function SlotsAt(rd: Reader, schema: SchemaName, depth: nat, fields: seq<Field>, n: nat): map<Slot, DeferredField>
    requires n <= |fields|
  {
    var survivor := Survivor(SlotsOf(rd, schema, depth, fields), n);
    map slot | slot in survivor && survivor[slot] < |fields| :: DeferredFieldOf(rd, schema, fields[survivor[slot]])
  }

  lemma RetainedIs(rd: Reader, schema: SchemaName, depth: nat, fields: seq<Field>, n: nat,
                   slots: map<Slot, DeferredField>)
    requires n <= |fields| && Retained(rd, schema, depth, fields, n, slots)
    ensures slots == SlotsAt(rd, schema, depth, fields, n)
  {
    hide SlotOf, DeferredFieldOf;
    var survivor := Survivor(SlotsOf(rd, schema, depth, fields), n);
    forall slot | slot in survivor ensures survivor[slot] < |fields| {
      SurvivorIsLast(SlotsOf(rd, schema, depth, fields), n, slot);
    }
  }

  lemma StopsOnce(rd: Reader, l: Limits, a: State, s: seq<byte>, schema: SchemaName, depth: nat, stop: nat, n: nat)
    requires StopsAt(rd, l, a, s, schema, depth, stop) && stop < n <= |Scan(s).fields|
    ensures !Accepts(l, a, Immediate(rd, s, schema, depth, n))
  {
    hide Scan, ImmediateAt, Overflow;
    var m, k := Immediate(rd, s, schema, depth, stop + 1), Immediate(rd, s, schema, depth, n);
    ImmediateBelow(rd, s, schema, depth, stop + 1, n);
    if m.valid {
      OverflowMonotone(l, a.refs + m.refs, a.refs + k.refs, a.entries + m.entries, a.entries + k.entries);
    }
  }

  lemma GivenGrows(l: Limits, slots: map<Slot, DeferredField>, a: State, m: Meaning, b: State)
    requires Grows(l, a, m, b)
    ensures IsFull(l, a) ==> IsFull(l, b)
    ensures forall slot :: slot in slots && (HoldsRefs(l, DirectRefs(slot, slots[slot]), a)) ==>
              HoldsRefs(l, DirectRefs(slot, slots[slot]), b)
  {
    hide DirectRefs;
    assert Ids(a.refs) <= Ids(b.refs);
    SubsetSize(NewIdsOf(l, a), NewIdsOf(l, b));
  }

  lemma CountedIds(l: Limits, candidates: map<Id, set<MessageType>>, newIds: set<Id>)
    requires Counted(l, candidates, newIds)
    ensures Ids(RefsOf(candidates)) == candidates.Keys && Ids(RefsOf(candidates)) - l.known == newIds
  {
    RefsOfIds(candidates);
  }

  class SemanticParseContext {
    const rd: Reader
    const knownCandidates: set<Id>
    const maxNewCandidates: nat
    const maxMapEntries: nat
    var candidates: map<Id, set<MessageType>>
    var newCandidateIds: set<Id>
    var mapEntries: nat
    var valid: bool
    var depthLimited: bool
    var candidateLimited: bool
    var schemaUnsupported: bool

    constructor (rd: Reader, knownCandidates: set<Id>, maxNewCandidates: nat, maxMapEntries: nat)
      ensures Valid()
      ensures this.rd == rd && Bounds() == Limits(knownCandidates, maxNewCandidates, maxMapEntries)
      ensures Value() == START
    {
      this.rd := rd;
      this.knownCandidates := knownCandidates;
      this.maxNewCandidates := maxNewCandidates;
      this.maxMapEntries := maxMapEntries;
      candidates := map[];
      newCandidateIds := {};
      mapEntries := 0;
      valid, depthLimited, candidateLimited, schemaUnsupported := true, false, false, false;
    }

    function Bounds(): Limits {
      Limits(knownCandidates, maxNewCandidates, maxMapEntries)
    }

    function Value(): State
      reads this
    {
      State(RefsOf(candidates), mapEntries, depthLimited, schemaUnsupported, valid, candidateLimited)
    }

    ghost predicate Valid()
      reads this
    {
      && Counted(Bounds(), candidates, newCandidateIds)
      && mapEntries <= maxMapEntries
    }

    method AddCandidate(payload: seq<byte>, target: MessageType)
      requires Valid()
      modifies this
      ensures Valid()
      ensures Adds(Bounds(), old(Value()), ReferenceMeaning(payload, target), Value())
      ensures HoldsRefs(Bounds(), ReferenceMeaning(payload, target).refs, Value())
      ensures valid == old(valid) && Value().refs <= old(Value()).refs + ReferenceMeaning(payload, target).refs
    {
      hide Adds, Hex, AddTo, RefsOf, Counted, Overflow, HoldsRefs;
      ghost var l, a := Bounds(), Value();
      AddsPairFlags(l, a);
      HoldsNothing(l, a);
      HoldsNothing(l, a.(unsupported := true));
      if |payload| == 0 {
        return;
      }
      if |payload| != 32 {
        schemaUnsupported := true;
        return;
      }
      TakeCandidate(Hex(payload), target);
    }

    /** The rest of addCandidate, with the id in hand. */
    method TakeCandidate(id: Id, target: MessageType)
      requires Valid()
      modifies this
      ensures Valid()
      ensures Adds(Bounds(), old(Value()), NOTHING.(refs := {Ref(id, target)}), Value())
      ensures HoldsRefs(Bounds(), {Ref(id, target)}, Value())
      ensures valid == old(valid) && Value().refs <= old(Value()).refs + {Ref(id, target)}
    {
      hide Adds, AddTo, RefsOf, Counted, HoldsRefs;
      CandidateTaken(Bounds(), candidates, newCandidateIds, id, target, Value());
      if id !in candidates && id !in knownCandidates {
        if |newCandidateIds| >= maxNewCandidates {
          candidateLimited := true;
          return;
        }
        newCandidateIds := newCandidateIds + {id};
      }
      candidates := AddTo(candidates, id, target);
    }

    /** The field loop of map entries and of images with inline data. */
    method ReadPair(payload: seq<byte>) returns (first: Option<seq<byte>>, second: Option<seq<byte>>)
      modifies this`schemaUnsupported
      ensures first == LastPayload(Scan(payload).fields, 1)
      ensures second == LastPayload(Scan(payload).fields, 2)
      ensures schemaUnsupported == (old(schemaUnsupported) || PairUnsupported(Scan(payload).fields))
    {
      hide Scan;
      var _, fields := ScanProtobufMessage(payload, _ => true);
      first, second := None, None;
      for i := 0 to |fields|
        invariant first == LastPayload(fields[..i], 1)
        invariant second == LastPayload(fields[..i], 2)
        invariant schemaUnsupported == (old(schemaUnsupported) || PairUnsupported(fields[..i]))
      {
        var f := fields[i];
        assert fields[..i + 1][..i] == fields[..i];
        assert forall g :: g in fields[..i + 1] <==> g in fields[..i] || g == f;
        if !IsPairField(f) {
          schemaUnsupported := true;
        } else if f.number == 1 {
          first := f.payload;
        } else {
          second := f.payload;
        }
      }
      assert fields[..|fields|] == fields;
    }

    method ParseMapEntry(payload: seq<byte>, depth: nat) returns (entry: Option<(Text, seq<byte>)>)
      requires Valid()
      modifies this
      ensures Valid()
      ensures Adds(Bounds(), old(Value()), EntryFlags(rd, payload, depth), Value())
      ensures entry == if depth < rd.maxDepth && Scan(payload).ok
                       then Some((EntryKey(rd, payload), EntryValue(payload))) else None
      ensures Value().refs == old(Value()).refs && (old(valid) && EntryFlags(rd, payload, depth).valid ==> valid)
      ensures entry.Some? ==> Value() == old(Value()).(unsupported := schemaUnsupported)
    {
      hide Scan, LastPayload, PairUnsupported;
      AddsFlags(Bounds(), Value());
      hide Adds;
      if depth >= rd.maxDepth {
        depthLimited := true;
        return None;
      }
      var scanned, _ := ScanProtobufMessage(payload, _ => true);
      if !scanned {
        valid := false;
        return None;
      }
      var key, value := ReadPair(payload);
      return Some((rd.keyOf(OrEmpty(key)), OrEmpty(value)));
    }

    method ParseSelectedImageWithData(payload: seq<byte>, depth: nat)
      requires Valid()
      modifies this
      ensures Valid()
      ensures Adds(Bounds(), old(Value()), ImageMeaning(rd, payload, depth), Value())
    {
      hide Scan, PairFlags, ImageReference, RefsOf, Counted, Overflow, Adds;
      AddsTooDeepOrInvalid(Bounds(), Value());
      if depth >= rd.maxDepth {
        depthLimited := true;
        return;
      }
      var scanned, _ := ScanProtobufMessage(payload, _ => true);
      if !scanned {
        valid := false;
        return;
      }
      ParseImageFields(payload);
    }

    method ParseImageFields(payload: seq<byte>)
      requires Valid()
      modifies this
      ensures Valid()
      ensures Adds(Bounds(), old(Value()), Join(PairFlags(Scan(payload).fields), ImageReference(Scan(payload).fields)),
                   Value())
    {
      hide Scan, LastPayload, PairUnsupported, ReferenceMeaning, RefsOf, Counted, Overflow, Adds, HoldsRefs;
      ghost var l, a := Bounds(), Value();
      AddsPairFlags(l, a);
      var id, data := ReadPair(payload);
      ghost var b := Value();
      AddsNothing(l, b);
      if id.Some? && |OrEmpty(data)| == 0 {
        AddCandidate(id.value, Opaque);
      }
      AddsJoin(l, a, PairFlags(Scan(payload).fields), b, ImageReference(Scan(payload).fields), Value());
    }

    method ProcessSchemaAction(action: Action, payload: seq<byte>, depth: nat)
      requires Valid()
      modifies this
      ensures Valid()
      ensures Adds(Bounds(), old(Value()), ActionMeaning(rd, action, payload, depth), Value())
      ensures action.Reference? || action.MapReference? ==> valid == old(valid)
      ensures action.Reference? ==> Value().refs <= old(Value()).refs + ReferenceMeaning(payload, action.target).refs
      ensures action.MapReference? ==> Value().refs == old(Value()).refs
      ensures action.Reference? ==> HoldsRefs(Bounds(), ReferenceMeaning(payload, action.target).refs, Value())
      decreases |payload|, 5
    {
      hide Scan, ReferenceMeaning, ImageMeaning, NestedMeaning;
      AddsFlags(Bounds(), Value());
      hide Adds;
      match action {
        case Reference(target) => AddCandidate(payload, target);
        case Message(schema) => DescendSchemaMessage(payload, schema, depth);
        case SelectedImageWithData => ParseSelectedImageWithData(payload, depth);
        case _ =>
      }
    }

    method DescendSchemaMessage(payload: seq<byte>, schema: SchemaName, depth: nat)
      requires Valid()
      modifies this
      ensures Valid()
      ensures Adds(Bounds(), old(Value()), NestedMeaning(rd, payload, schema, depth), Value())
      decreases |payload|, 4
    {
      hide MessageMeaning;
      AddsFlags(Bounds(), Value());
      hide Adds;
      if depth >= rd.maxDepth {
        depthLimited := true;
        return;
      }
      WalkSchemaMessage(payload, depth + 1, schema);
    }

    method WalkSchemaMessage(bytes: seq<byte>, depth: nat, schema: SchemaName)
      requires Valid()
      modifies this
      ensures Valid()
      ensures Adds(Bounds(), old(Value()), MessageMeaning(rd, bytes, schema, depth), Value())
      ensures old(Value().Ok()) && Scan(bytes).ok ==>
        forall n: nat :: StopsAt(rd, Bounds(), old(Value()), bytes, schema, depth, n) ==>
          LeavesBehind(rd, Bounds(), bytes, schema, depth, n, old(Value()), Value())
      decreases |bytes|, 3
    {
      hide Scan, Immediate, Deferred, Live, Given, SlotsAt, StopsAt, StopsInMap, AllDirect, AllRefs, Accepts, Retained;
      hide SlotsOf, Grows;
      hide Adds;
      AddsTooDeepOrInvalid(Bounds(), Value());
      if candidateLimited || !valid {
        AddsAfterStop(Bounds(), Value(), MessageMeaning(rd, bytes, schema, depth));
        return;
      }
      var scanned, fields := ScanProtobufMessage(bytes, _ => true);
      if !scanned {
        valid := false;
        return;
      }
      ghost var a := Value();
      var slots, scannedAll, stop := ScanFields(bytes, fields, depth, schema);
      ghost var b := Value();
      StopsOnlyThere(Bounds(), a, bytes, schema, depth, stop);
      RetainedIs(rd, schema, depth, fields, stop, slots);
      ProcessDeferred(bytes, fields, slots, scannedAll, depth, schema);
      if scannedAll {
        AddsJoin(Bounds(), a, Immediate(rd, bytes, schema, depth, |fields|), b,
                 Deferred(rd, bytes, schema, depth, Live(SlotsOf(rd, schema, depth, fields)), |fields|), Value());
      } else {
        StoppedMessage(Bounds(), a, b, Value(), bytes, schema, depth);
      }
    }

    lemma StopsOnlyThere(l: Limits, a: State, bytes: seq<byte>, schema: SchemaName, depth: nat, stop: nat)
      requires stop <= |Scan(bytes).fields|
      requires if stop < |Scan(bytes).fields| then StopsAt(rd, l, a, bytes, schema, depth, stop)
               else Accepts(l, a, Immediate(rd, bytes, schema, depth, stop))
      ensures forall n: nat :: StopsAt(rd, l, a, bytes, schema, depth, n) ==> n == stop < |Scan(bytes).fields|
    {
      hide Scan, Immediate, Accepts;
      forall n: nat | StopsAt(rd, l, a, bytes, schema, depth, n) ensures n == stop {
        if n < stop {
          StopsOnce(rd, l, a, bytes, schema, depth, n, stop);
        } else if stop < n {
          StopsOnce(rd, l, a, bytes, schema, depth, stop, n);
        }
      }
    }

    lemma StoppedMessage(l: Limits, a: State, b: State, c: State, bytes: seq<byte>, schema: SchemaName, depth: nat)
      requires Scan(bytes).ok && !b.Ok() && !c.Ok() && Grows(l, b, NOTHING, c)
      requires Adds(l, a, Immediate(rd, bytes, schema, depth, |Scan(bytes).fields|), b)
      ensures Adds(l, a, MessageMeaning(rd, bytes, schema, depth), c)
    {
      hide Scan, Immediate, Deferred, Live, Adds, Grows;
      AddsStopped(l, a, Immediate(rd, bytes, schema, depth, |Scan(bytes).fields|), b,
                  MessageMeaning(rd, bytes, schema, depth), c);
    }

    /** The second scan: repeated fields at once, the others into slots where a
        later occurrence replaces an earlier one. The three JavaScript maps
        (singular, oneofs, maps) are one map keyed by slot. */
    method ScanFields(bytes: seq<byte>, fields: seq<Field>, depth: nat, schema: SchemaName)
      returns (slots: map<Slot, DeferredField>, scannedAll: bool, ghost stop: nat)
      requires Valid() && Value().Ok()
      requires Scan(bytes) == Scanned(true, fields)
      modifies this
      ensures Valid()
      ensures Adds(Bounds(), old(Value()), Immediate(rd, bytes, schema, depth, |fields|), Value())
      ensures scannedAll == Value().Ok()
      ensures Shorter(slots, |bytes|)
      ensures stop <= |fields| && (scannedAll <==> stop == |fields|) && Retained(rd, schema, depth, fields, stop, slots)
      ensures if scannedAll then Accepts(Bounds(), old(Value()), Immediate(rd, bytes, schema, depth, stop))
              else StopsAt(rd, Bounds(), old(Value()), bytes, schema, depth, stop)
      ensures !scannedAll && StopsInMap(rd, schema, depth, fields, stop) ==>
                valid && Value().refs == old(Value()).refs + Immediate(rd, bytes, schema, depth, stop).refs
      decreases |bytes|, 2, 1
    {
      hide Scan, Immediate, ImmediateAt, Adds, RefsOf, Counted, Overflow, Below, SlotsOf, Retained;
      slots := map[];
      ghost var l, a := Bounds(), Value();
      AddsImmediateNone(rd, l, a, bytes, schema, depth);
      var i := 0;
      while i < |fields|
        invariant i <= |fields|
        invariant Valid() && Value().Ok()
        invariant Adds(l, a, Immediate(rd, bytes, schema, depth, i), Value())
        invariant Shorter(slots, |bytes|)
        invariant Retained(rd, schema, depth, fields, i, slots)
      {
        ghost var b := Value();
        HasFit(l, a, Immediate(rd, bytes, schema, depth, i), candidates, newCandidateIds, b);
        slots := ScanField(bytes, fields, i, depth, schema, slots);
        AddsImmediate(rd, l, a, b, Value(), bytes, schema, depth, i);
        if candidateLimited || !valid {
          DoesNotFit(l, a, Immediate(rd, bytes, schema, depth, i + 1), Value());
          return slots, false, i;
        }
        i := i + 1;
      }
      HasFit(l, a, Immediate(rd, bytes, schema, depth, i), candidates, newCandidateIds, Value());
      return slots, true, i;
    }

    method ScanField(bytes: seq<byte>, fields: seq<Field>, i: nat, depth: nat, schema: SchemaName,
                     before: map<Slot, DeferredField>)
      returns (slots: map<Slot, DeferredField>)
      requires Valid() && Value().Ok()
      requires Scan(bytes) == Scanned(true, fields) && i < |fields|
      requires Shorter(before, |bytes|)
      requires Retained(rd, schema, depth, fields, i, before)
      modifies this
      ensures Valid()
      ensures Adds(Bounds(), old(Value()), ImmediateAt(rd, bytes, schema, depth, i), Value())
      ensures Shorter(slots, |bytes|)
      ensures if Value().Ok() then Retained(rd, schema, depth, fields, i + 1, slots) else slots == before
      ensures StopsInMap(rd, schema, depth, fields, i) ==> valid && Value().refs == old(Value()).refs
      decreases |bytes|, 2, 0
    {
      hide Scan, ActionMeaning, EntryFlags, Retained, LastPayload, RefsOf, Counted, Overflow, Opens, SlotsOf, EntryKey;
      hide EntryValue, Adds, HoldsRefs, ReferenceMeaning, Shorter, SlotOf, DeferredFieldOf;
      ghost var l, a := Bounds(), Value();
      var f := fields[i];
      AddsPairFlags(l, a);
      ScannedField(rd, bytes, schema, depth, i, before);
      slots := before;
      match RoleOf(rd, schema, f) {
        case Unknown => schemaUnsupported := true;
        case Ignored =>
        case OneofMember(name, member) =>
          slots := slots[OneofSlot(name) := DeferredField(member, f.payload.value)];
        case MapEntry(action) =>
          slots := ScanMapEntry(f.number, f.payload.value, action, depth, before,
                                Opens(SlotsOf(rd, schema, depth, fields), i));
        case Repeated(action) => ProcessSchemaAction(action, f.payload.value, depth);
        case Singular(action) =>
          slots := slots[SingularSlot(f.number) := DeferredField(Some(action), f.payload.value)];
      }
    }

    /** One map entry: its key counts when it opens a slot. */
    method ScanMapEntry(number: nat, payload: seq<byte>, action: Action, depth: nat, before: map<Slot, DeferredField>,
                        ghost opens: bool)
      returns (slots: map<Slot, DeferredField>)
      requires Valid() && Value().Ok()
      requires opens <==> depth < rd.maxDepth && Scan(payload).ok && MapSlot(number, EntryKey(rd, payload)) !in before
      modifies this
      ensures Valid()
      ensures Adds(Bounds(), old(Value()), Join(EntryFlags(rd, payload, depth), if opens then ONE_ENTRY else NOTHING),
                   Value())
      ensures slots == before
              || slots ==
                   before[MapSlot(number, EntryKey(rd, payload)) := DeferredField(Some(action), EntryValue(payload))]
      ensures !Value().Ok() ==> slots == before
      ensures Value().refs == old(Value()).refs && (EntryFlags(rd, payload, depth).valid ==> valid)
      ensures Value().Ok() ==>
        (slots ==
           if depth < rd.maxDepth && Scan(payload).ok then
             before[MapSlot(number, EntryKey(rd, payload)) := DeferredField(Some(action), EntryValue(payload))]
           else before)
    {
      hide Scan, EntryFlags, EntryKey, EntryValue, RefsOf, Counted, Overflow, Adds;
      ghost var l, a := Bounds(), Value();
      var entry := ParseMapEntry(payload, depth);
      ghost var b := Value();
      AddsNothing(l, b);
      AddsOneEntry(l, b);
      slots := before;
      if entry.Some? {
        var slot := MapSlot(number, entry.value.0);
        if slot !in slots && mapEntries >= maxMapEntries {
          candidateLimited := true;
        } else {
          if slot !in slots {
            mapEntries := mapEntries + 1;
          }
          slots := slots[slot := DeferredField(Some(action), entry.value.1)];
        }
      }
      AddsJoin(l, a, EntryFlags(rd, payload, depth), b, if opens then ONE_ENTRY else NOTHING, Value());
    }

    method ProcessSlot(slot: Slot, deferred: DeferredField, depth: nat)
      requires Valid()
      modifies this
      ensures Valid()
      ensures Adds(Bounds(), old(Value()), SlotMeaning(rd, slot, deferred, depth), Value())
      ensures HoldsRefs(Bounds(), DirectRefs(slot, deferred), Value())
      ensures IsDirect(slot, deferred) ==>
                valid == old(valid) && Value().refs <= old(Value()).refs + DirectRefs(slot, deferred)
      decreases |deferred.payload|, 6
    {
      hide ActionMeaning, ReferenceMeaning, NestedMeaning;
      AddsFlags(Bounds(), Value());
      hide Adds;
      if deferred.action == None {
        return;
      }
      var action := deferred.action.value;
      if !slot.MapSlot? {
        ProcessSchemaAction(action, deferred.payload, depth);
      } else if action.MapReference? {
        AddCandidate(deferred.payload, action.target);
      } else if action.MapMessage? {
        DescendSchemaMessage(deferred.payload, action.schema, depth + 1);
      }
    }

    /** The loops over the retained singular, oneof and map values. */
    method ProcessDeferred(bytes: seq<byte>, fields: seq<Field>, slots: map<Slot, DeferredField>, scannedAll: bool,
                           depth: nat, schema: SchemaName)
      requires Valid() && (!scannedAll ==> !Value().Ok())
      requires Scan(bytes) == Scanned(true, fields)
      requires Shorter(slots, |bytes|)
      requires scannedAll ==> Retained(rd, schema, depth, fields, |fields|, slots)
      modifies this
      ensures Valid() && (!scannedAll ==> !Value().Ok() && Grows(Bounds(), old(Value()), NOTHING, Value()))
      ensures Given(Bounds(), slots, Value())
      ensures AllDirect(slots) ==> valid == old(valid) && Value().refs <= old(Value()).refs + AllRefs(slots)
      ensures scannedAll ==>
        Adds(Bounds(), old(Value()),
             Deferred(rd, bytes, schema, depth, Live(SlotsOf(rd, schema, depth, fields)), |fields|), Value())
      decreases |bytes|, 2, 1
    {
      hide Scan, Deferred, DeferredAt, SlotMeaning, RefsOf, Counted, Overflow, Done, Retained, Survivor, SlotsOf;
      hide DirectRefs, IsDirect, AllDirect, AllRefs, GivenBut, IsFull;
      ghost var l, a := Bounds(), Value();
      ghost var keys := SlotsOf(rd, schema, depth, fields);
      ghost var survivor := if |keys| == |fields| then Survivor(keys, |fields|) else map[];
      AddsNothing(l, a);
      hide Adds, Grows;
      var waiting := slots.Keys;
      ghost var done: set<nat> := {};
      DeferredNone(rd, bytes, schema, depth, |fields|);
      NoneGiven(l, slots, Value());
      if scannedAll {
        RetainedSurvivors(rd, schema, depth, fields, slots);
      }
      while waiting != {}
        invariant waiting <= slots.Keys
        invariant Valid() && (!scannedAll ==> !Value().Ok() && Grows(l, a, NOTHING, Value()))
        invariant GivenBut(l, slots, waiting, Value())
        invariant AllDirect(slots) ==> valid == old(valid) && Value().refs <= a.refs + AllRefs(slots)
        invariant scannedAll ==> done == Done(survivor, waiting)
        invariant scannedAll ==> Adds(l, a, Deferred(rd, bytes, schema, depth, done, |fields|), Value())
        decreases waiting
      {
        var slot :| slot in waiting;
        ghost var b := Value();
        ProcessSlot(slot, slots[slot], depth);
        DirectAmongAll(slots, slot);
        GivenOne(l, slots, waiting, slot, b, SlotMeaning(rd, slot, slots[slot], depth), Value());
        if !scannedAll {
          StaysStopped(l, b, SlotMeaning(rd, slot, slots[slot], depth), Value());
          GrowsJoin(l, a, NOTHING, b, NOTHING, Value());
        } else {
          ghost var i := survivor[slot];
          DoneStep(keys, waiting, slot);
          RetainedAt(rd, bytes, schema, depth, slots, slot);
          DeferredInsert(rd, bytes, schema, depth, done, i, |fields|);
          AddsJoin(l, a, Deferred(rd, bytes, schema, depth, done, |fields|), b,
                   DeferredAt(rd, bytes, schema, depth, i), Value());
          done := done + {i};
        }
        waiting := waiting - {slot};
      }
      DoneAll(keys);
      GivenAll(l, slots, Value());
    }
  }

  /** The same for the values no longer waiting. */
  ghost predicate GivenBut(l: Limits, slots: map<Slot, DeferredField>, waiting: set<Slot>, b: State) {
    forall slot :: slot in slots && slot !in waiting ==> HoldsRefs(l, DirectRefs(slot, slots[slot]), b)
  }

  lemma DirectAmongAll(slots: map<Slot, DeferredField>, slot: Slot)
    requires slot in slots
    ensures AllDirect(slots) ==> IsDirect(slot, slots[slot])
    ensures DirectRefs(slot, slots[slot]) <= AllRefs(slots)
  {
    hide DirectRefs, IsDirect;
  }

  lemma GivenOne(l: Limits, slots: map<Slot, DeferredField>, waiting: set<Slot>, slot: Slot, a: State, m: Meaning,
                 b: State)
    requires slot in slots && GivenBut(l, slots, waiting, a) && Adds(l, a, m, b)
    requires HoldsRefs(l, DirectRefs(slot, slots[slot]), b)
    ensures GivenBut(l, slots, waiting - {slot}, b)
  {
    hide DirectRefs, Takes, Grows, IsFull;
    GivenGrows(l, slots, a, m, b);
  }

  lemma NoneGiven(l: Limits, slots: map<Slot, DeferredField>, b: State)
    ensures GivenBut(l, slots, slots.Keys, b)
  {
  }

  lemma GivenAll(l: Limits, slots: map<Slot, DeferredField>, b: State)
    requires GivenBut(l, slots, {}, b)
    ensures Given(l, slots, b)
  {
    hide DirectRefs, IsFull;
  }

  /** A walk still going has taken in what fits, and a stopped one what does not. */
  lemma HasFit(l: Limits, a: State, m: Meaning, candidates: map<Id, set<MessageType>>, newIds: set<Id>, b: State)
    requires Adds(l, a, m, b) && b.Ok() && Counted(l, candidates, newIds) && b.refs == RefsOf(candidates)
    requires b.entries <= l.maxEntries
    ensures Accepts(l, a, m) && b == Plus(a, m)
  {
    hide Overflow, Grows, NoneEmpty;
    WholeFits(l, candidates, newIds, b.entries);
  }

  lemma DoesNotFit(l: Limits, a: State, m: Meaning, b: State)
    requires Adds(l, a, m, b) && a.Ok() && !b.Ok()
    ensures !Accepts(l, a, m)
  {
    hide Accepts, Grows;
  }

  lemma StaysStopped(l: Limits, a: State, m: Meaning, b: State)
    requires Adds(l, a, m, b) && !a.Ok()
    ensures !b.Ok() && Grows(l, a, NOTHING, b)
  {
    GrowsStale(l, a, m, b);
  }

  /** What a retained value means, by its slot. */
  function SlotMeaning(rd: Reader, slot: Slot, deferred: DeferredField, depth: nat): Meaning {
    if deferred.action == None then NOTHING
    else if slot.MapSlot? then MapValueMeaning(rd, deferred.action.value, deferred.payload, depth)
    else ActionMeaning(rd, deferred.action.value, deferred.payload, depth)
  }

  lemma DeferredAtSlot(rd: Reader, s: seq<byte>, schema: SchemaName, depth: nat, i: nat)
    requires i < |Scan(s).fields| && SlotOf(rd, schema, depth, Scan(s).fields[i]).Some?
    ensures var f := Scan(s).fields[i];
            DeferredAt(rd, s, schema, depth, i)
              == SlotMeaning(rd, SlotOf(rd, schema, depth, f).value, DeferredFieldOf(rd, schema, f), depth)
  {
    hide Scan, ActionMeaning, MapValueMeaning;
  }

  /** Every retained payload is shorter than its message. */
  predicate Shorter(slots: map<Slot, DeferredField>, n: nat) {
    forall slot :: slot in slots ==> |slots[slot].payload| < n
  }

  lemma ShorterAdded(slots: map<Slot, DeferredField>, slot: Slot, deferred: DeferredField, n: nat)
    requires Shorter(slots, n) && |deferred.payload| < n
    ensures Shorter(slots[slot := deferred], n)
  {
  }

  lemma DeferredShorter(rd: Reader, schema: SchemaName, f: Field)
    requires f.payload.Some?
    ensures |DeferredFieldOf(rd, schema, f).payload| <= |f.payload.value|
  {
    hide Scan, LastPayload;
    PayloadsShorter(f.payload.value);
    LastPayloadShorter(Scan(f.payload.value).fields, 2, |f.payload.value| + 1);
  }

  function ValuesOf(rd: Reader, schema: SchemaName, fields: seq<Field>): seq<DeferredField> {
    seq(|fields|, i requires 0 <= i < |fields| => DeferredFieldOf(rd, schema, fields[i]))
  }

  /** The slots hold the survivors of the first n fields. */
  ghost predicate Retained(rd: Reader, schema: SchemaName, depth: nat, fields: seq<Field>, n: nat,
                           slots: map<Slot, DeferredField>)
  {
    Retains(SlotsOf(rd, schema, depth, fields), ValuesOf(rd, schema, fields), n, slots)
  }

  /** One more field replaces the value of its slot, and opens it exactly when
      it was empty. */
  lemma RetainedStep(rd: Reader, schema: SchemaName, depth: nat, fields: seq<Field>, i: nat,
                     slots: map<Slot, DeferredField>)
    requires i < |fields| && Retained(rd, schema, depth, fields, i, slots)
    ensures match SlotOf(rd, schema, depth, fields[i])
            case None =>
              && Retained(rd, schema, depth, fields, i + 1, slots)
              && !Opens(SlotsOf(rd, schema, depth, fields), i)
            case Some(slot) =>
              && Retained(rd, schema, depth, fields, i + 1, slots[slot := DeferredFieldOf(rd, schema, fields[i])])
              && (slot !in slots <==> Opens(SlotsOf(rd, schema, depth, fields), i))
  {
    hide SlotOf, DeferredFieldOf, Opens, Retains;
    RetainsStep(SlotsOf(rd, schema, depth, fields), ValuesOf(rd, schema, fields), i, slots);
  }

  /** What one more field does to the slots, by its role. */
  lemma ScannedField(rd: Reader, s: seq<byte>, schema: SchemaName, depth: nat, i: nat, slots: map<Slot, DeferredField>)
    requires i < |Scan(s).fields| && Retained(rd, schema, depth, Scan(s).fields, i, slots) && Shorter(slots, |s|)
    ensures var fields := Scan(s).fields;
            var f, opens := fields[i], Opens(SlotsOf(rd, schema, depth, fields), i);
            && (f.payload.Some? ==> |f.payload.value| < |s|)
            && match RoleOf(rd, schema, f)
               case OneofMember(name, member) =>
                 RetainedWith(rd, s, schema, depth, i, slots[OneofSlot(name) := DeferredField(member, f.payload.value)])
               case Singular(action) =>
                 RetainedWith(rd, s, schema, depth, i,
                              slots[SingularSlot(f.number) := DeferredField(Some(action), f.payload.value)])
               case MapEntry(action) =>
                 var entry := f.payload.value;
                 if depth < rd.maxDepth && Scan(entry).ok then
                   var slot := MapSlot(f.number, EntryKey(rd, entry));
                   RetainedWith(rd, s, schema, depth, i, slots[slot := DeferredField(Some(action), EntryValue(entry))])
                   && (slot !in slots <==> opens)
                 else RetainedWith(rd, s, schema, depth, i, slots) && !opens
               case _ => RetainedWith(rd, s, schema, depth, i, slots)
  {
    hide Scan, Retained, Opens, SlotsOf, EntryKey, EntryValue, Shorter;
    var f := Scan(s).fields[i];
    PayloadsShorter(s);
    RetainedStep(rd, schema, depth, Scan(s).fields, i, slots);
    if f.payload.Some? {
      DeferredShorter(rd, schema, f);
    }
    if SlotOf(rd, schema, depth, f).Some? {
      ShorterAdded(slots, SlotOf(rd, schema, depth, f).value, DeferredFieldOf(rd, schema, f), |s|);
    }
  }

  ghost predicate RetainedWith(rd: Reader, s: seq<byte>, schema: SchemaName, depth: nat, i: nat,
                               slots: map<Slot, DeferredField>)
    requires i < |Scan(s).fields|
  {
    Retained(rd, schema, depth, Scan(s).fields, i + 1, slots) && Shorter(slots, |s|)
  }

  lemma RetainedSurvivors(rd: Reader, schema: SchemaName, depth: nat, fields: seq<Field>,
                          slots: map<Slot, DeferredField>)
    requires Retained(rd, schema, depth, fields, |fields|, slots)
    ensures var keys := SlotsOf(rd, schema, depth, fields);
            |keys| == |fields| && slots.Keys == Survivor(keys, |keys|).Keys
            && Done(Survivor(keys, |keys|), slots.Keys) == {}
  {
    hide SlotOf, DeferredFieldOf;
  }

  lemma RetainedAt(rd: Reader, s: seq<byte>, schema: SchemaName, depth: nat, slots: map<Slot, DeferredField>,
                   slot: Slot)
    requires Retained(rd, schema, depth, Scan(s).fields, |Scan(s).fields|, slots) && slot in slots
    ensures var fields := Scan(s).fields;
            var m := Survivor(SlotsOf(rd, schema, depth, fields), |fields|);
            slot in m && m[slot] < |fields|
            && DeferredAt(rd, s, schema, depth, m[slot]) == SlotMeaning(rd, slot, slots[slot], depth)
  {
    hide SlotOf, DeferredFieldOf, Scan, SlotMeaning, DeferredAt;
    var fields := Scan(s).fields;
    SurvivorIsLast(SlotsOf(rd, schema, depth, fields), |fields|, slot);
    DeferredAtSlot(rd, s, schema, depth, Survivor(SlotsOf(rd, schema, depth, fields), |fields|)[slot]);
  }

  // ----- What a parse reports -----

  datatype ParsedProtobuf = ParsedProtobuf(
    valid: bool,
    candidates: map<Id, set<MessageType>>,
    depthLimited: bool,
    candidateLimited: bool,
    schemaUnsupported: bool)
  {
    /** Neither malformed nor cut off by a candidate limit. */
    predicate Whole() {
      valid && !candidateLimited
    }
  }

  /** What stored bytes mean when they are reached as a value of type t. */
  function TypeMeaning(rd: Reader, bytes: seq<byte>, t: MessageType): Meaning {
    if t == Opaque then NOTHING else MessageMeaning(rd, bytes, Typed(t), 0)
  }

  /** The parse is whole exactly when the bytes are valid and their new ids and
      map keys fit, and a whole parse reports exactly their meaning. One that is
      cut off, though all map keys would fit, has no room for another id and
      reports no new id but theirs. */
  method ParseProtobuf(rd: Reader, bytes: seq<byte>, t: MessageType, known: set<Id>, maxNew: nat, maxEntries: nat)
    returns (p: ParsedProtobuf)
    ensures NoneEmpty(p.candidates) && |p.candidates.Keys - known| <= maxNew
    ensures var m := TypeMeaning(rd, bytes, t);
            && (p.Whole() <==> m.valid && !Overflow(Limits(known, maxNew, maxEntries), m.refs, m.entries))
            && (p.Whole() ==> RefsOf(p.candidates) == m.refs
                              && p.depthLimited == m.depthLimited && p.schemaUnsupported == m.unsupported)
            && (p.valid && m.entries <= maxEntries ==>
                  p.candidates.Keys - known <= Ids(m.refs)
                  && (p.candidateLimited ==> |p.candidates.Keys - known| == maxNew))
    ensures var l := Limits(known, maxNew, maxEntries);
            t != Opaque && Scan(bytes).ok ==>
              forall n: nat :: StopsAt(rd, l, START, bytes, Typed(t), 0, n) ==>
                LeavesBehind(rd, l, bytes, Typed(t), 0, n, START,
                             START.(refs := RefsOf(p.candidates), valid := p.valid))
  {
    hide MessageMeaning, RefsOf, Counted, Overflow, NoneEmpty, Adds, Ids, LeavesBehind, StopsAt;
    if t == Opaque {
      NothingFits(known, maxNew, maxEntries);
      return ParsedProtobuf(true, map[], false, false, false);
    }
    var context := new SemanticParseContext(rd, known, maxNew, maxEntries);
    context.WalkSchemaMessage(bytes, 0, Typed(t));
    CountedIds(context.Bounds(), context.candidates, context.newCandidateIds);
    WholeFits(context.Bounds(), context.candidates, context.newCandidateIds, context.mapEntries);
    AddedToNothing(context.Bounds(), MessageMeaning(rd, bytes, Typed(t), 0), context.Value());
    LeftBehind(rd, context.Bounds(), bytes, Typed(t), 0, context.Value());
    return ParsedProtobuf(context.valid, context.candidates, context.depthLimited, context.candidateLimited,
                          context.schemaUnsupported);
  }

  lemma LeftBehind(rd: Reader, l: Limits, s: seq<byte>, schema: SchemaName, depth: nat, b: State)
    ensures forall n: nat :: LeavesBehind(rd, l, s, schema, depth, n, START, b) ==>
              LeavesBehind(rd, l, s, schema, depth, n, START, START.(refs := b.refs, valid := b.valid))
  {
    hide Scan, SlotsAt, StopsInMap, AllDirect, AllRefs, DirectRefs, Immediate;
  }

  lemma AddedToNothing(l: Limits, m: Meaning, b: State)
    requires Adds(l, START, m, b)
    ensures b.Ok() ==> m.valid && b == Plus(START, m) && b.refs == m.refs
    ensures m.valid && !Overflow(l, m.refs, m.entries) ==> b.Ok()
    ensures b.valid && m.entries <= l.maxEntries ==> (b.limited ==> IsFull(l, b)) && NewIdsOf(l, b) <= Ids(m.refs)
  {
    hide Overflow;
    EmptyPlus(m.refs);
    assert Ids({}) == {};
  }

  lemma NothingFits(known: set<Id>, maxNew: nat, maxEntries: nat)
    ensures NoneEmpty(map[]) && RefsOf(map[]) == {} && !Overflow(Limits(known, maxNew, maxEntries), {}, 0)
  {
  }

  lemma EmptyPlus<T>(s: set<T>)
    ensures {} + s == s
  {
  }

  lemma WholeFits(l: Limits, candidates: map<Id, set<MessageType>>, newIds: set<Id>, entries: nat)
    requires Counted(l, candidates, newIds) && entries <= l.maxEntries
    ensures NoneEmpty(candidates) && |candidates.Keys - l.known| <= l.maxNew
    ensures !Overflow(l, RefsOf(candidates), entries)
  {
    assert Ids(RefsOf(candidates)) <= candidates.Keys;
    SubsetSize(Ids(RefsOf(candidates)) - l.known, newIds);
  }

  // ----- Reading the meaning off the field list -----

  /** The references of a valid message, with no fold in sight: those of every
      immediate position and of every live deferred one. */
  lemma MeaningByPosition(rd: Reader, s: seq<byte>, schema: SchemaName, depth: nat, r: Ref)
    requires Scan(s).ok
    ensures r in MessageMeaning(rd, s, schema, depth).refs <==>
            || (exists i: nat :: ImmediateHere(rd, s, schema, depth, |Scan(s).fields|, i, r))
            || (exists i: nat ::
                  DeferredHere(rd, s, schema, depth, Live(SlotsOf(rd, schema, depth, Scan(s).fields)), |Scan(s).fields|,
                               i, r))
  {
    hide Scan, ImmediateAt, DeferredAt, Live, SlotsOf, Immediate, Deferred, ImmediateHere, DeferredHere;
    ImmediateByPosition(rd, s, schema, depth, |Scan(s).fields|, r);
    DeferredByPosition(rd, s, schema, depth, Live(SlotsOf(rd, schema, depth, Scan(s).fields)), |Scan(s).fields|, r);
  }

  /** Position i, one of the first n, is immediate and refers to r. */
  predicate ImmediateHere(rd: Reader, s: seq<byte>, schema: SchemaName, depth: nat, n: nat, i: nat, r: Ref)
    requires n <= |Scan(s).fields|
  {
    i < n && r in ImmediateAt(rd, s, schema, depth, i).refs
  }

  /** Position i, one of the first n and chosen, is deferred and refers to r. */
  predicate DeferredHere(rd: Reader, s: seq<byte>, schema: SchemaName, depth: nat, positions: set<nat>, n: nat, i: nat,
                         r: Ref)
    requires n <= |Scan(s).fields|
  {
    i < n && i in positions && r in DeferredAt(rd, s, schema, depth, i).refs
  }

  lemma {:induction false} ImmediateByPosition(rd: Reader, s: seq<byte>, schema: SchemaName, depth: nat, n: nat, r: Ref)
    requires n <= |Scan(s).fields|
    ensures r in Immediate(rd, s, schema, depth, n).refs <==>
              exists i: nat :: ImmediateHere(rd, s, schema, depth, n, i, r)
  {
    hide Scan, ImmediateAt;
    if n > 0 {
      var m := n - 1;
      ImmediateByPosition(rd, s, schema, depth, m, r);
      if i: nat :| ImmediateHere(rd, s, schema, depth, m, i, r) {
        assert ImmediateHere(rd, s, schema, depth, n, i, r);
      }
      if i: nat :| ImmediateHere(rd, s, schema, depth, n, i, r) {
        assert i < m ==> ImmediateHere(rd, s, schema, depth, m, i, r);
      }
      assert r in Immediate(rd, s, schema, depth, n).refs <==>
        r in Immediate(rd, s, schema, depth, m).refs || ImmediateHere(rd, s, schema, depth, n, m, r);
    }
  }

  lemma {:induction false} DeferredByPosition(
    rd: Reader, s: seq<byte>, schema: SchemaName, depth: nat, positions: set<nat>, n: nat, r: Ref)
    requires n <= |Scan(s).fields|
    ensures r in Deferred(rd, s, schema, depth, positions, n).refs
            <==> exists i: nat :: DeferredHere(rd, s, schema, depth, positions, n, i, r)
  {
    hide Scan, DeferredAt;
    if n > 0 {
      var m := n - 1;
      DeferredByPosition(rd, s, schema, depth, positions, m, r);
      if i: nat :| DeferredHere(rd, s, schema, depth, positions, m, i, r) {
        assert DeferredHere(rd, s, schema, depth, positions, n, i, r);
      }
      if i: nat :| DeferredHere(rd, s, schema, depth, positions, n, i, r) {
        assert i < m ==> DeferredHere(rd, s, schema, depth, positions, m, i, r);
      }
      assert r in Deferred(rd, s, schema, depth, positions, n).refs <==>
        r in Deferred(rd, s, schema, depth, positions, m).refs
        || DeferredHere(rd, s, schema, depth, positions, n, m, r);
    }
  }
}
