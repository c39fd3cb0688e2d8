/** What a stored message refers to, and what is wrong with it, said of the schema
    table and the scanned fields alone; the walk of src/chat/agentKv.ts finds
    exactly that. */
module References {
  import opened Basics
  import opened Wire
  import opened LastWins
  import opened Schema
  import opened Reach
  import opened CursorSchemas
  import Seeds
  import Base64

  /** One thing a message can show: a typed reference, or a fault. */
  datatype Sign = Names(ref: Ref) | Malformed | TooDeep | Unsupported

  /** The parse reports the meaning's references and flags. */
  ghost predicate Reports(p: ParsedProtobuf, m: Meaning) {
    && m.valid && RefsOf(p.candidates) == m.refs
    && p.depthLimited == m.depthLimited && p.schemaUnsupported == m.unsupported
  }

  ghost predicate Shows(m: Meaning, sign: Sign) {
    match sign
    case Names(r) => r in m.refs
    case Malformed => !m.valid
    case TooDeep => m.depthLimited
    case Unsupported => m.unsupported
  }

  // ----- Fields that count -----

  /** The schema has a rule for the field that takes its wire type. */
  ghost predicate Takes(rd: Reader, schema: SchemaName, f: Field, rule: Rule) {
    rd.rules(schema, f.number) == Some(rule) && f.wire in rule.wires
  }

  ghost predicate IsMap(rule: Rule) {
    rule.oneof == None && rule.action.Some? && (rule.action.value.MapReference? || rule.action.value.MapMessage?)
  }

  /** A map entry that can be opened. */
  ghost predicate Opened(rd: Reader, f: Field, depth: nat) {
    f.payload.Some? && depth < rd.maxDepth && Scan(f.payload.value).ok
  }

  /** The later field takes the place of the earlier one: another member of its oneof,
      whether it acts or not, another occurrence of a singular field, or another entry
      of a map with the same key. */
  ghost predicate Replaces(rd: Reader, schema: SchemaName, depth: nat, f: Field, rule: Rule, g: Field, later: Rule) {
    && Takes(rd, schema, f, rule) && Takes(rd, schema, g, later) && g.payload.Some?
    && if rule.oneof.Some? then later.oneof == rule.oneof
       else
         && g.number == f.number
         && (IsMap(rule) ==>
               Opened(rd, f, depth) && Opened(rd, g, depth)
               && SameKey(rd, Scan(f.payload.value).fields, Scan(g.payload.value).fields))
  }

  ghost predicate SameKey(rd: Reader, a: seq<Field>, b: seq<Field>) {
    exists p, q :: IsPart(a, 1, p) && IsPart(b, 1, q) && rd.keyOf(p) == rd.keyOf(q)
  }

  ghost predicate IsReplaced(rd: Reader, schema: SchemaName, depth: nat, fields: seq<Field>, i: nat, rule: Rule)
    requires i < |fields|
  {
    exists j: nat, later :: i < j < |fields| && Replaces(rd, schema, depth, fields[i], rule, fields[j], later)
  }

  // ----- Pairs -----

  /** The field gives number n of a pair: a map key or value, an image's id or data. */
  ghost predicate Gives(f: Field, n: nat) {
    (n == 1 || n == 2) && f.number == n && f.wire == 2 && f.payload.Some?
  }

  ghost predicate GivesLast(fields: seq<Field>, n: nat, p: seq<byte>) {
    exists i :: 0 <= i < |fields| && Gives(fields[i], n) && fields[i].payload == Some(p)
                && forall j :: i < j < |fields| ==> !Gives(fields[j], n)
  }

  lemma {:induction false} PairMeans(fields: seq<Field>, n: nat)
    requires n == 1 || n == 2
    ensures match LastPayload(fields, n)
            case Some(p) => GivesLast(fields, n, p)
            case None => forall i :: 0 <= i < |fields| ==> !Gives(fields[i], n)
  {
    if fields != [] {
      var init := fields[..|fields| - 1];
      PairMeans(init, n);
      assert fields == init + [fields[|fields| - 1]];
      match LastPayload(init, n) {
        case Some(p) =>
          var i :| 0 <= i < |init| && Gives(init[i], n) && init[i].payload == Some(p)
                   && forall j :: i < j < |init| ==> !Gives(init[j], n);
          assert fields[i] == init[i];
          assert !Gives(fields[|fields| - 1], n) ==> GivesLast(fields, n, p);
        case None =>
      }
      if Gives(fields[|fields| - 1], n) {
        assert GivesLast(fields, n, fields[|fields| - 1].payload.value);
      }
    }
  }

  /** Number n of the pair: the last one given, or empty. */
  ghost predicate IsPart(fields: seq<Field>, n: nat, p: seq<byte>) {
    GivesLast(fields, n, p) || (p == [] && forall i :: 0 <= i < |fields| ==> !Gives(fields[i], n))
  }

  lemma PartMeans(fields: seq<Field>, n: nat, p: seq<byte>)
    requires n == 1 || n == 2
    ensures IsPart(fields, n, p) <==> p == OrEmpty(LastPayload(fields, n))
  {
    hide GivesLast, LastPayload, Gives;
    PairMeans(fields, n);
    NoneLast(fields, n);
    if LastPayload(fields, n).Some? {
      OneLast(fields, n, p, LastPayload(fields, n).value);
    }
  }

  lemma KeyMeans(rd: Reader, f: seq<byte>, g: seq<byte>)
    ensures SameKey(rd, Scan(f).fields, Scan(g).fields) <==> EntryKey(rd, f) == EntryKey(rd, g)
  {
    hide Scan, LastPayload, IsPart;
    var p, q := OrEmpty(LastPayload(Scan(f).fields, 1)), OrEmpty(LastPayload(Scan(g).fields, 1));
    PartMeans(Scan(f).fields, 1, p);
    PartMeans(Scan(g).fields, 1, q);
    if a, b :| IsPart(Scan(f).fields, 1, a) && IsPart(Scan(g).fields, 1, b) && rd.keyOf(a) == rd.keyOf(b) {
      PartMeans(Scan(f).fields, 1, a);
      PartMeans(Scan(g).fields, 1, b);
    }
  }

  /** Some field is neither number 1 nor number 2 with contents of its own. */
  ghost predicate HasStray(fields: seq<Field>) {
    exists i :: 0 <= i < |fields| && !Gives(fields[i], 1) && !Gives(fields[i], 2)
  }

  // ----- What a message says -----

  ghost predicate Says(rd: Reader, s: seq<byte>, schema: SchemaName, depth: nat, sign: Sign)
    decreases |s|, 4
  {
    if !Scan(s).ok then sign == Malformed
    else exists i: nat :: i < |Scan(s).fields| && FieldSays(rd, s, schema, depth, i, sign)
  }

  ghost predicate FieldSays(rd: Reader, s: seq<byte>, schema: SchemaName, depth: nat, i: nat, sign: Sign)
    requires i < |Scan(s).fields|
    decreases |s|, 3
  {
    var fields := Scan(s).fields;
    match rd.rules(schema, fields[i].number)
    case None => sign == Unsupported
    case Some(rule) =>
      if fields[i].wire !in rule.wires then sign == Unsupported
      else if fields[i].payload == None || rule.action == None then false
      else
        PayloadsShorter(s);
        var payload := fields[i].payload.value;
        if IsMap(rule) then
          || EntrySays(rd, payload, depth, sign)
          || (Opened(rd, fields[i], depth) && !IsReplaced(rd, schema, depth, fields, i, rule)
              && ValueSays(rd, rule.action.value, payload, depth, sign))
        else
          && ((rule.oneof == None && rule.repeated) || !IsReplaced(rd, schema, depth, fields, i, rule))
          && ActionSays(rd, rule.action.value, payload, depth, sign)
  }

  ghost predicate ActionSays(rd: Reader, action: Action, payload: seq<byte>, depth: nat, sign: Sign)
    decreases |payload|, 6
  {
    match action
    case Reference(target) => ReferenceSays(payload, target, sign)
    case Message(schema) => NestedSays(rd, payload, schema, depth, sign)
    case SelectedImageWithData => ImageSays(rd, payload, depth, sign)
    case _ => false
  }

  /** A reference is 32 bytes; no bytes at all are no reference. */
  ghost predicate ReferenceSays(payload: seq<byte>, target: MessageType, sign: Sign) {
    payload != [] && sign == if |payload| == 32 then Names(Ref(Hex(payload), target)) else Unsupported
  }

  ghost predicate NestedSays(rd: Reader, payload: seq<byte>, schema: SchemaName, depth: nat, sign: Sign)
    decreases |payload|, 5
  {
    if depth >= rd.maxDepth then sign == TooDeep else Says(rd, payload, schema, depth + 1, sign)
  }

  /** An image's blob id counts only if the image has no inline data. */
  ghost predicate ImageSays(rd: Reader, payload: seq<byte>, depth: nat, sign: Sign) {
    if depth >= rd.maxDepth then sign == TooDeep
    else if !Scan(payload).ok then sign == Malformed
    else
      var fields := Scan(payload).fields;
      || (HasStray(fields) && sign == Unsupported)
      || exists id ::
           GivesLast(fields, 1, id) && (forall data :: GivesLast(fields, 2, data) ==> data == [])
           && ReferenceSays(id, Opaque, sign)
  }

  ghost predicate EntrySays(rd: Reader, entry: seq<byte>, depth: nat, sign: Sign) {
    if depth >= rd.maxDepth then sign == TooDeep
    else if !Scan(entry).ok then sign == Malformed
    else HasStray(Scan(entry).fields) && sign == Unsupported
  }

  /** The value of a map entry is no longer than the entry. */
  ghost predicate ValueSays(rd: Reader, action: Action, entry: seq<byte>, depth: nat, sign: Sign)
    decreases |entry|, 7
  {
    exists v :: |v| <= |entry| && IsPart(Scan(entry).fields, 2, v) && MapActionSays(rd, action, v, depth, sign)
  }

  ghost predicate MapActionSays(rd: Reader, action: Action, value: seq<byte>, depth: nat, sign: Sign)
    decreases |value|, 6
  {
    match action
    case MapReference(target) => ReferenceSays(value, target, sign)
    case MapMessage(schema) => NestedSays(rd, value, schema, depth + 1, sign)
    case _ => false
  }

  // ----- It is what the meaning shows -----

  lemma JoinShows(a: Meaning, b: Meaning, sign: Sign)
    ensures Shows(Join(a, b), sign) <==> Shows(a, sign) || Shows(b, sign)
  {
  }

  lemma StrayMeans(fields: seq<Field>)
    ensures HasStray(fields) <==> PairUnsupported(fields)
  {
    if f :| f in fields && !IsPairField(f) {
      var i :| 0 <= i < |fields| && fields[i] == f;
      assert !Gives(fields[i], 1) && !Gives(fields[i], 2);
    }
    if i :| 0 <= i < |fields| && !Gives(fields[i], 1) && !Gives(fields[i], 2) {
      assert fields[i] in fields && !IsPairField(fields[i]);
    }
  }

  lemma ReferenceMeans(payload: seq<byte>, target: MessageType, sign: Sign)
    ensures ReferenceSays(payload, target, sign) <==> Shows(ReferenceMeaning(payload, target), sign)
  {
    hide Hex;
  }

  lemma ImageMeans(rd: Reader, payload: seq<byte>, depth: nat, sign: Sign)
    ensures ImageSays(rd, payload, depth, sign) <==> Shows(ImageMeaning(rd, payload, depth), sign)
  {
    hide Scan, HasStray, PairUnsupported, ReferenceSays, ReferenceMeaning, LastPayload, GivesLast;
    if depth < rd.maxDepth && Scan(payload).ok {
      var fields := Scan(payload).fields;
      StrayMeans(fields);
      PairMeans(fields, 1);
      PairMeans(fields, 2);
      JoinShows(PairFlags(fields), ImageReference(fields), sign);
      forall p, q ensures GivesLast(fields, 1, p) && GivesLast(fields, 1, q) ==> p == q {
        OneLast(fields, 1, p, q);
      }
      forall p, q ensures GivesLast(fields, 2, p) && GivesLast(fields, 2, q) ==> p == q {
        OneLast(fields, 2, p, q);
      }
      NoneLast(fields, 1);
      NoneLast(fields, 2);
      if LastPayload(fields, 1).Some? {
        ReferenceMeans(LastPayload(fields, 1).value, Opaque, sign);
      }
    }
  }

  lemma OneLast(fields: seq<Field>, n: nat, p: seq<byte>, q: seq<byte>)
    ensures GivesLast(fields, n, p) && GivesLast(fields, n, q) ==> p == q
  {
  }

  lemma NoneLast(fields: seq<Field>, n: nat)
    ensures (forall i :: 0 <= i < |fields| ==> !Gives(fields[i], n)) ==> forall p :: !GivesLast(fields, n, p)
  {
  }

  lemma {:induction false} ActionMeans(rd: Reader, action: Action, payload: seq<byte>, depth: nat, sign: Sign)
    ensures ActionSays(rd, action, payload, depth, sign) <==> Shows(ActionMeaning(rd, action, payload, depth), sign)
    decreases |payload|, 6
  {
    hide ReferenceSays, ReferenceMeaning, ImageSays, ImageMeaning, NestedSays, NestedMeaning;
    match action
    case Reference(target) => ReferenceMeans(payload, target, sign);
    case Message(schema) => NestedMeans(rd, payload, schema, depth, sign);
    case SelectedImageWithData => ImageMeans(rd, payload, depth, sign);
    case _ =>
  }

  lemma {:induction false} NestedMeans(rd: Reader, payload: seq<byte>, schema: SchemaName, depth: nat, sign: Sign)
    ensures NestedSays(rd, payload, schema, depth, sign) <==> Shows(NestedMeaning(rd, payload, schema, depth), sign)
    decreases |payload|, 5
  {
    hide Says, MessageMeaning;
    if depth < rd.maxDepth {
      SaysMeans(rd, payload, schema, depth + 1, sign);
    }
  }

  lemma {:induction false} ValueMeans(rd: Reader, action: Action, entry: seq<byte>, depth: nat, sign: Sign)
    ensures ValueSays(rd, action, entry, depth, sign) <==>
              Shows(MapValueMeaning(rd, action, EntryValue(entry), depth), sign)
    decreases |entry|, 7
  {
    hide MapActionSays, MapValueMeaning, Scan, LastPayload, IsPart;
    PayloadsShorter(entry);
    var fields := Scan(entry).fields;
    LastPayloadShorter(fields, 2, |entry| + 1);
    var v := EntryValue(entry);
    PartMeans(fields, 2, v);
    forall w | IsPart(fields, 2, w) ensures w == v {
      PartMeans(fields, 2, w);
    }
    MapActionMeans(rd, action, v, depth, sign);
  }

  lemma {:induction false} MapActionMeans(rd: Reader, action: Action, value: seq<byte>, depth: nat, sign: Sign)
    ensures MapActionSays(rd, action, value, depth, sign) <==>
              Shows(MapValueMeaning(rd, action, value, depth), sign)
    decreases |value|, 6
  {
    hide ReferenceSays, ReferenceMeaning, NestedSays, NestedMeaning;
    match action
    case MapReference(target) => ReferenceMeans(value, target, sign);
    case MapMessage(schema) => NestedMeans(rd, value, schema, depth + 1, sign);
    case _ =>
  }

  lemma EntryMeans(rd: Reader, entry: seq<byte>, depth: nat, sign: Sign)
    ensures EntrySays(rd, entry, depth, sign) <==> Shows(EntryFlags(rd, entry, depth), sign)
  {
    hide Scan, HasStray, PairUnsupported;
    StrayMeans(Scan(entry).fields);
  }

  /** A field's slot is live exactly if no later field takes its place. */
  lemma LiveMeans(rd: Reader, schema: SchemaName, depth: nat, fields: seq<Field>, i: nat, rule: Rule)
    requires i < |fields| && Takes(rd, schema, fields[i], rule) && fields[i].payload.Some? && rule.action.Some?
    ensures i in Live(SlotsOf(rd, schema, depth, fields)) <==>
              (rule.oneof.Some? || if IsMap(rule) then Opened(rd, fields[i], depth) else !rule.repeated)
              && !IsReplaced(rd, schema, depth, fields, i, rule)
  {
    hide Scan, EntryKey;
    var slots := SlotsOf(rd, schema, depth, fields);
    if slots[i].Some? {
      forall j | i < j < |fields|
        ensures slots[j] == slots[i] <==> exists later :: Replaces(rd, schema, depth, fields[i], rule, fields[j], later)
      {
        SlotsMeet(rd, schema, depth, fields[i], rule, fields[j]);
      }
    }
  }

  lemma SlotsMeet(rd: Reader, schema: SchemaName, depth: nat, f: Field, rule: Rule, g: Field)
    requires Takes(rd, schema, f, rule) && f.payload.Some? && rule.action.Some? && SlotOf(rd, schema, depth, f).Some?
    ensures SlotOf(rd, schema, depth, g) == SlotOf(rd, schema, depth, f) <==>
              exists later :: Replaces(rd, schema, depth, f, rule, g, later)
  {
    hide Scan, EntryKey, SameKey;
    if f.payload.Some? && g.payload.Some? {
      KeyMeans(rd, f.payload.value, g.payload.value);
    }
    if rd.rules(schema, g.number).Some? {
      var later := rd.rules(schema, g.number).value;
      if SlotOf(rd, schema, depth, g) == SlotOf(rd, schema, depth, f) {
        assert Replaces(rd, schema, depth, f, rule, g, later);
      }
    }
  }

  /** What the walk finds at a position: at once, or as the live value of its slot. */
  ghost predicate FoundAt(rd: Reader, s: seq<byte>, schema: SchemaName, depth: nat, i: nat, sign: Sign)
    requires Scan(s).ok && i < |Scan(s).fields|
  {
    || Shows(ImmediateAt(rd, s, schema, depth, i), sign)
    || (i in Live(SlotsOf(rd, schema, depth, Scan(s).fields)) && Shows(DeferredAt(rd, s, schema, depth, i), sign))
  }

  ghost predicate ActsOn(rd: Reader, schema: SchemaName, f: Field, rule: Rule) {
    Takes(rd, schema, f, rule) && f.payload.Some? && rule.action.Some?
  }

  lemma {:induction false} FieldMeans(rd: Reader, s: seq<byte>, schema: SchemaName, depth: nat, i: nat, sign: Sign)
    requires Scan(s).ok && i < |Scan(s).fields|
    ensures FieldSays(rd, s, schema, depth, i, sign) <==> FoundAt(rd, s, schema, depth, i, sign)
    decreases |s|, 3
  {
    hide Scan, FieldSays, FoundAt;
    var f := Scan(s).fields[i];
    PayloadsShorter(s);
    if rd.rules(schema, f.number).Some? && ActsOn(rd, schema, f, rd.rules(schema, f.number).value) {
      var rule := rd.rules(schema, f.number).value;
      if IsMap(rule) {
        EntryMeans(rd, f.payload.value, depth, sign);
        ValueMeans(rd, rule.action.value, f.payload.value, depth, sign);
        MapFieldMeans(rd, s, schema, depth, i, rule, sign);
      } else {
        ActionMeans(rd, rule.action.value, f.payload.value, depth, sign);
        ActingFieldMeans(rd, s, schema, depth, i, rule, sign);
      }
    } else {
      OtherFieldMeans(rd, s, schema, depth, i, sign);
    }
  }

  lemma OtherFieldMeans(rd: Reader, s: seq<byte>, schema: SchemaName, depth: nat, i: nat, sign: Sign)
    requires Scan(s).ok && i < |Scan(s).fields| && forall rule :: !ActsOn(rd, schema, Scan(s).fields[i], rule)
    ensures FieldSays(rd, s, schema, depth, i, sign) <==> FoundAt(rd, s, schema, depth, i, sign)
  {
    hide Scan, SlotsOf, Live, IsReplaced, ActionSays, ActionMeaning, ValueSays, MapValueMeaning, EntrySays, EntryFlags;
    PayloadsShorter(s);
    var f := Scan(s).fields[i];
    if rd.rules(schema, f.number).Some? {
      assert !ActsOn(rd, schema, f, rd.rules(schema, f.number).value);
    }
  }

  lemma MapFieldMeans(rd: Reader, s: seq<byte>, schema: SchemaName, depth: nat, i: nat, rule: Rule, sign: Sign)
    requires Scan(s).ok && i < |Scan(s).fields| && ActsOn(rd, schema, Scan(s).fields[i], rule) && IsMap(rule)
    requires var entry := Scan(s).fields[i].payload.value;
             && (EntrySays(rd, entry, depth, sign) <==> Shows(EntryFlags(rd, entry, depth), sign))
             && (ValueSays(rd, rule.action.value, entry, depth, sign) <==>
                   Shows(MapValueMeaning(rd, rule.action.value, EntryValue(entry), depth), sign))
    ensures FieldSays(rd, s, schema, depth, i, sign) <==> FoundAt(rd, s, schema, depth, i, sign)
  {
    hide Scan, SlotsOf, Live, IsReplaced, ValueSays, MapValueMeaning, EntrySays, EntryFlags, Opened, Opens, Join;
    hide RoleOf;
    PayloadsShorter(s);
    MapRole(rd, schema, Scan(s).fields[i], rule);
    var fields := Scan(s).fields;
    LiveMeans(rd, schema, depth, fields, i, rule);
    JoinShows(EntryFlags(rd, fields[i].payload.value, depth),
              if Opens(SlotsOf(rd, schema, depth, fields), i) then ONE_ENTRY else NOTHING, sign);
  }

  lemma MapRole(rd: Reader, schema: SchemaName, f: Field, rule: Rule)
    requires ActsOn(rd, schema, f, rule) && IsMap(rule)
    ensures RoleOf(rd, schema, f) == MapEntry(rule.action.value)
  {
  }

  lemma ActingFieldMeans(rd: Reader, s: seq<byte>, schema: SchemaName, depth: nat, i: nat, rule: Rule, sign: Sign)
    requires Scan(s).ok && i < |Scan(s).fields| && ActsOn(rd, schema, Scan(s).fields[i], rule) && !IsMap(rule)
    requires var payload := Scan(s).fields[i].payload.value;
             ActionSays(rd, rule.action.value, payload, depth, sign) <==>
               Shows(ActionMeaning(rd, rule.action.value, payload, depth), sign)
    ensures FieldSays(rd, s, schema, depth, i, sign) <==> FoundAt(rd, s, schema, depth, i, sign)
  {
    hide Scan, SlotsOf, Live, IsReplaced, ActionSays, ActionMeaning, Opened;
    PayloadsShorter(s);
    LiveMeans(rd, schema, depth, Scan(s).fields, i, rule);
  }

  lemma {:induction false} ImmediateShows(rd: Reader, s: seq<byte>, schema: SchemaName, depth: nat, n: nat, sign: Sign)
    returns (i: nat)
    requires n <= |Scan(s).fields| && Shows(Immediate(rd, s, schema, depth, n), sign)
    ensures i < n && Shows(ImmediateAt(rd, s, schema, depth, i), sign)
    decreases n
  {
    hide Scan, ImmediateAt, Join;
    assert n > 0;
    JoinShows(Immediate(rd, s, schema, depth, n - 1), ImmediateAt(rd, s, schema, depth, n - 1), sign);
    if Shows(ImmediateAt(rd, s, schema, depth, n - 1), sign) {
      i := n - 1;
    } else {
      i := ImmediateShows(rd, s, schema, depth, n - 1, sign);
    }
  }

  lemma {:induction false} ImmediateHas(rd: Reader, s: seq<byte>, schema: SchemaName, depth: nat, i: nat, n: nat,
                                        sign: Sign)
    requires i < n <= |Scan(s).fields| && Shows(ImmediateAt(rd, s, schema, depth, i), sign)
    ensures Shows(Immediate(rd, s, schema, depth, n), sign)
    decreases n
  {
    hide Scan, ImmediateAt, Join;
    JoinShows(Immediate(rd, s, schema, depth, n - 1), ImmediateAt(rd, s, schema, depth, n - 1), sign);
    if i < n - 1 {
      ImmediateHas(rd, s, schema, depth, i, n - 1, sign);
    }
  }

  lemma {:induction false} DeferredShows(rd: Reader, s: seq<byte>, schema: SchemaName, depth: nat, live: set<nat>,
                                         n: nat, sign: Sign)
    requires n <= |Scan(s).fields|
    ensures Shows(Deferred(rd, s, schema, depth, live, n), sign) <==>
              exists i: nat :: i < n && i in live && Shows(DeferredAt(rd, s, schema, depth, i), sign)
    decreases n
  {
    hide Scan, DeferredAt, Join;
    if n > 0 {
      DeferredShows(rd, s, schema, depth, live, n - 1, sign);
      JoinShows(Deferred(rd, s, schema, depth, live, n - 1), DeferredAt(rd, s, schema, depth, n - 1), sign);
    }
  }

  /** The meaning of a message is found at its positions. */
  lemma MessageShows(rd: Reader, s: seq<byte>, schema: SchemaName, depth: nat, sign: Sign)
    requires Scan(s).ok
    ensures Shows(MessageMeaning(rd, s, schema, depth), sign) <==>
              exists i: nat :: i < |Scan(s).fields| && FoundAt(rd, s, schema, depth, i, sign)
  {
    hide Scan, ImmediateAt, DeferredAt, Join, SlotsOf, Live, Immediate, Deferred, Shows;
    var n, live := |Scan(s).fields|, Live(SlotsOf(rd, schema, depth, Scan(s).fields));
    DeferredShows(rd, s, schema, depth, live, n, sign);
    JoinShows(Immediate(rd, s, schema, depth, n), Deferred(rd, s, schema, depth, live, n), sign);
    if i: nat :| i < n && FoundAt(rd, s, schema, depth, i, sign) {
      if Shows(ImmediateAt(rd, s, schema, depth, i), sign) {
        ImmediateHas(rd, s, schema, depth, i, n, sign);
      }
    }
    if Shows(Immediate(rd, s, schema, depth, n), sign) {
      var i := ImmediateShows(rd, s, schema, depth, n, sign);
      assert FoundAt(rd, s, schema, depth, i, sign);
    }
    if Shows(Deferred(rd, s, schema, depth, live, n), sign) {
      var i: nat :| i < n && i in live && Shows(DeferredAt(rd, s, schema, depth, i), sign);
      assert FoundAt(rd, s, schema, depth, i, sign);
    }
  }

  /** The meaning of a message shows exactly what the message says. */
  lemma {:induction false} SaysMeans(rd: Reader, s: seq<byte>, schema: SchemaName, depth: nat, sign: Sign)
    ensures Says(rd, s, schema, depth, sign) <==> Shows(MessageMeaning(rd, s, schema, depth), sign)
    decreases |s|, 4
  {
    hide Scan, FieldSays, FoundAt, Shows;
    if Scan(s).ok {
      hide MessageMeaning;
      MessageShows(rd, s, schema, depth, sign);
      forall i: nat | i < |Scan(s).fields|
        ensures FieldSays(rd, s, schema, depth, i, sign) <==> FoundAt(rd, s, schema, depth, i, sign)
      {
        FieldMeans(rd, s, schema, depth, i, sign);
      }
    } else {
      InvalidShows(sign);
    }
  }

  lemma InvalidShows(sign: Sign)
    ensures Shows(INVALID, sign) <==> sign == Malformed
  {
  }

  // ----- A replaced field gives no reference -----

  /** The field takes part in superseding: the last of its kind decides. */
  ghost predicate Yields(rule: Rule) {
    rule.oneof.Some? || IsMap(rule) || !rule.repeated
  }

  ghost function Without(fields: seq<Field>, i: nat): seq<Field>
    requires i < |fields|
  {
    fields[..i] + fields[i + 1..]
  }

  lemma ReplacesOnwards(rd: Reader, schema: SchemaName, depth: nat, e: Field, a: Rule, f: Field, b: Rule,
                        g: Field, c: Rule)
    requires Replaces(rd, schema, depth, e, a, f, b) && Replaces(rd, schema, depth, f, b, g, c)
    ensures Replaces(rd, schema, depth, e, a, g, c)
  {
    hide Scan, EntryKey, SameKey;
    if IsMap(a) {
      KeyMeans(rd, e.payload.value, f.payload.value);
      KeyMeans(rd, f.payload.value, g.payload.value);
      KeyMeans(rd, e.payload.value, g.payload.value);
    }
  }

  /** What is replaced without field i is replaced with it, and conversely. */
  lemma ReplacedWithout(rd: Reader, schema: SchemaName, depth: nat, fields: seq<Field>, i: nat, own: Rule, j: nat,
                        rule: Rule)
    requires i < |fields| && j < |fields| && j != i && IsReplaced(rd, schema, depth, fields, i, own)
    ensures IsReplaced(rd, schema, depth, fields, j, rule) <==>
              IsReplaced(rd, schema, depth, Without(fields, i), if j < i then j else j - 1, rule)
  {
    hide Replaces;
    var rest, k := Without(fields, i), if j < i then j else j - 1;
    assert rest[k] == fields[j];
    if m: nat, later :| j < m < |fields| && Replaces(rd, schema, depth, fields[j], rule, fields[m], later) {
      if m == i {
        var n: nat, last :| i < n < |fields| && Replaces(rd, schema, depth, fields[i], own, fields[n], last);
        SameRule(rd, schema, depth, fields[j], rule, fields[i], later, own, fields[n], last);
        ReplacesOnwards(rd, schema, depth, fields[j], rule, fields[i], later, fields[n], last);
        assert rest[n - 1] == fields[n];
      } else {
        assert rest[if m < i then m else m - 1] == fields[m];
      }
    }
    if m: nat, later :| k < m < |rest| && Replaces(rd, schema, depth, rest[k], rule, rest[m], later) {
      assert rest[m] == fields[if m < i then m else m + 1];
    }
  }

  lemma SameRule(rd: Reader, schema: SchemaName, depth: nat, e: Field, a: Rule, f: Field, b: Rule, b': Rule, g: Field,
                 c: Rule)
    requires Replaces(rd, schema, depth, e, a, f, b) && Replaces(rd, schema, depth, f, b', g, c)
    ensures b == b'
  {
    hide SameKey, Scan;
  }

  /** The references of a message are those of the message without a replaced field. */
  lemma ReplacedIsGone(rd: Reader, s: seq<byte>, t: seq<byte>, schema: SchemaName, depth: nat, i: nat, rule: Rule,
                       r: Ref)
    requires Scan(s).ok && Scan(t).ok && i < |Scan(s).fields| && Scan(t).fields == Without(Scan(s).fields, i)
    requires Yields(rule) && IsReplaced(rd, schema, depth, Scan(s).fields, i, rule)
    ensures Says(rd, s, schema, depth, Names(r)) <==> Says(rd, t, schema, depth, Names(r))
  {
    hide Scan, FieldSays, IsReplaced;
    ReplacedSaysNothing(rd, s, schema, depth, i, rule, r);
    if j: nat :| j < |Scan(s).fields| && FieldSays(rd, s, schema, depth, j, Names(r)) {
      SameFieldSays(rd, s, t, schema, depth, i, rule, j, r);
      var k: nat := if j < i then j else j - 1;
      assert FieldSays(rd, t, schema, depth, k, Names(r));
    }
    if k: nat :| k < |Scan(t).fields| && FieldSays(rd, t, schema, depth, k, Names(r)) {
      var j: nat := if k < i then k else k + 1;
      SameFieldSays(rd, s, t, schema, depth, i, rule, j, r);
      assert FieldSays(rd, s, schema, depth, j, Names(r));
    }
  }

  lemma ReplacedSaysNothing(rd: Reader, s: seq<byte>, schema: SchemaName, depth: nat, i: nat, rule: Rule, r: Ref)
    requires i < |Scan(s).fields| && Yields(rule) && IsReplaced(rd, schema, depth, Scan(s).fields, i, rule)
    ensures !FieldSays(rd, s, schema, depth, i, Names(r))
  {
    hide Scan, ActionSays, ValueSays, SameKey;
  }

  lemma SameFieldSays(rd: Reader, s: seq<byte>, t: seq<byte>, schema: SchemaName, depth: nat, i: nat, rule: Rule,
                      j: nat, r: Ref)
    requires i < |Scan(s).fields| && Scan(t).fields == Without(Scan(s).fields, i)
    requires j < |Scan(s).fields| && j != i && IsReplaced(rd, schema, depth, Scan(s).fields, i, rule)
    ensures FieldSays(rd, s, schema, depth, j, Names(r)) <==>
              FieldSays(rd, t, schema, depth, if j < i then j else j - 1, Names(r))
  {
    hide Scan, ActionSays, ValueSays, SameKey, IsReplaced;
    var fields := Scan(s).fields;
    assert Without(fields, i)[if j < i then j else j - 1] == fields[j];
    if rd.rules(schema, fields[j].number).Some? {
      ReplacedWithout(rd, schema, depth, fields, i, rule, j, rd.rules(schema, fields[j].number).value);
    }
  }

  lemma ReplacedByNext(rd: Reader, schema: SchemaName, depth: nat, fields: seq<Field>, i: nat, rule: Rule, later: Rule)
    requires i + 1 < |fields| && Replaces(rd, schema, depth, fields[i], rule, fields[i + 1], later)
    ensures IsReplaced(rd, schema, depth, fields, i, rule)
  {
  }

  lemma ReportTwo(a: WireField, b: WireField)
    ensures ReportAll([a, b]) == [a.Report(), b.Report()]
  {
    assert [a, b][1..] == [b];
    assert ReportAll([b]) == [b.Report()] + ReportAll([]);
  }

  /** A blob id followed by inline data: the image refers to nothing; data followed
      by a blob id: it refers to the blob. */
  lemma OverwrittenImage(rd: Reader, id: seq<byte>, data: seq<byte>, depth: nat, r: Ref)
    requires rd.rules == CursorRules && |id| == 32 && |data| <= MAX_SAFE_INTEGER
    ensures !Says(rd, EncodeAll([Bytes(1, id), Bytes(8, data)]), SelectedImage, depth, Names(r))
    ensures Says(rd, EncodeAll([Bytes(8, data), Bytes(1, id)]), SelectedImage, depth, Names(Ref(Hex(id), Opaque)))
  {
    hide Scan, EncodeAll, Hex;
    var blob, inline := Bytes(1, id), Bytes(8, data);
    ScanEncoded([blob, inline]);
    ScanEncoded([inline, blob]);
    ReportTwo(blob, inline);
    ReportTwo(inline, blob);
    var s, t := EncodeAll([blob, inline]), EncodeAll([inline, blob]);
    var rule, other := CursorRules(SelectedImage, 1).value, CursorRules(SelectedImage, 8).value;
    assert Replaces(rd, SelectedImage, depth, blob.Report(), rule, inline.Report(), other);
    ReplacedByNext(rd, SelectedImage, depth, Scan(s).fields, 0, rule, other);
    ReplacedSaysNothing(rd, s, SelectedImage, depth, 0, rule, r);
    assert !FieldSays(rd, s, SelectedImage, depth, 1, Names(r));
    assert !IsReplaced(rd, SelectedImage, depth, Scan(t).fields, 1, rule);
    assert FieldSays(rd, t, SelectedImage, depth, 1, Names(Ref(Hex(id), Opaque)));
  }

  // ----- What parses, contents and states give -----

  /** What bytes say when they are reached as a value of type t; opaque bytes are not read. */
  ghost predicate TypeSays(rd: Reader, bytes: seq<byte>, t: MessageType, sign: Sign) {
    t != Opaque && Says(rd, bytes, Typed(t), 0, sign)
  }

  lemma TypeMeans(rd: Reader, bytes: seq<byte>, t: MessageType, sign: Sign)
    ensures TypeSays(rd, bytes, t, sign) <==> Shows(TypeMeaning(rd, bytes, t), sign)
  {
    hide Says, MessageMeaning;
    if t != Opaque {
      SaysMeans(rd, bytes, Typed(t), 0, sign);
    }
  }

  /** A whole parse reports exactly the references the bytes name and whether they nest
      too deep or say what the schema does not know; malformed bytes have none. */
  lemma ParseSays(rd: Reader, bytes: seq<byte>, t: MessageType, p: ParsedProtobuf, r: Ref)
    requires p.Whole() ==> Reports(p, TypeMeaning(rd, bytes, t))
    ensures p.Whole() ==>
              && (r in RefsOf(p.candidates) <==> TypeSays(rd, bytes, t, Names(r)))
              && (p.depthLimited <==> TypeSays(rd, bytes, t, TooDeep))
              && (p.schemaUnsupported <==> TypeSays(rd, bytes, t, Unsupported))
              && !TypeSays(rd, bytes, t, Malformed)
  {
    hide TypeSays, TypeMeaning, RefsOf;
    TypeMeans(rd, bytes, t, Names(r));
    TypeMeans(rd, bytes, t, TooDeep);
    TypeMeans(rd, bytes, t, Unsupported);
    TypeMeans(rd, bytes, t, Malformed);
  }

  /** The store has these bytes under the id's own key, as text or as a blob, and
      their hash is the id. */
  ghost predicate HasContent(w: World, id: Id, bytes: seq<byte>, valueType: Option<ValueType>) {
    && w.store(BLOB_PREFIX + id) == Found(BLOB_PREFIX + id, Some(bytes), valueType)
    && valueType != Some(OtherValue) && w.sha256(bytes) == id
  }

  /** One reference leads to another exactly if the store has its content and the
      content, unless malformed, names the other. */
  lemma ChildrenSay(w: World, p: Ref, r: Ref)
    ensures r in Children(w, p) <==>
              exists bytes, valueType ::
                && HasContent(w, p.id, bytes, valueType)
                && TypeSays(w.rd, bytes, p.target, Names(r)) && !TypeSays(w.rd, bytes, p.target, Malformed)
  {
    hide TypeSays, TypeMeaning;
    match Content(w, p.id)
    case Good(bytes, valueType) =>
      assert HasContent(w, p.id, bytes, valueType);
      TypeMeans(w.rd, bytes, p.target, Names(r));
      TypeMeans(w.rd, bytes, p.target, Malformed);
    case Bad(_) =>
  }

  /** A conversation state roots what it names: a tilde and then Base64. */
  lemma StateSays(rd: Reader, bytes: seq<byte>, r: Ref)
    ensures r in Seeds.SeedRefsOf(rd, [Seeds.TILDE] + Base64.Encode(bytes)) <==>
              TypeSays(rd, bytes, ConversationState, Names(r)) && !TypeSays(rd, bytes, ConversationState, Malformed)
  {
    hide TypeSays, TypeMeaning;
    var state := [Seeds.TILDE] + Base64.Encode(bytes);
    assert state[1..] == Base64.Encode(bytes);
    Base64.DecodeEncode(bytes);
    TypeMeans(rd, bytes, ConversationState, Names(r));
    TypeMeans(rd, bytes, ConversationState, Malformed);
  }

  /** Any other state cannot be read, and roots nothing. */
  lemma ReadableStates(rd: Reader, state: Text)
    ensures Seeds.SeedReadable(state) <==> exists bytes :: state == [Seeds.TILDE] + Base64.Encode(bytes)
    ensures !Seeds.SeedReadable(state) ==> Seeds.SeedRefsOf(rd, state) == {}
  {
    if Seeds.SeedReadable(state) {
      assert state == [Seeds.TILDE] + Base64.Encode(Base64.Decode(state[1..]));
    }
    if bytes :| state == [Seeds.TILDE] + Base64.Encode(bytes) {
      assert state[1..] == Base64.Encode(bytes);
      Base64.EncodeIsCanonical(bytes);
    }
  }
}
