/** Canonical JSON of chat snapshots, and the hand-written writers and length
    formulas that must agree with it: src/chat/headerCanonical.ts and the core
    hashes of src/chat/stateVscdb.ts and src/chat/chunked.ts. */
module Canonical {
  import opened Basics
  import opened JsonString
  import opened Portable
  import Base64

  // ----- JSON text -----

  /** Text of an ASCII literal. */
  function Ascii(s: string): Text {
    seq(|s|, i requires 0 <= i < |s| => if s[i] < 128 as char then s[i] as int else 0)
  }

  datatype Json =
    | Null
    | Number(text: Text)
    | String(value: Text)
    | Array(items: seq<Json>)
    | Object(members: seq<Member>)

  datatype Member = Member(name: string, value: Json)

  /** JSON.stringify of a value whose members are in key order. */
  function Stringify(v: Json): Text {
    match v
    case Null => Ascii("null")
    case Number(text) => text
    case String(t) => Quote(t)
    case Array(items) => Ascii("[") + Items(items) + Ascii("]")
    case Object(members) => Ascii("{") + Members(members) + Ascii("}")
  }

  function Comma(n: nat): Text {
    if n > 0 then Ascii(",") else []
  }

  function Items(items: seq<Json>): Text {
    if items == [] then []
    else Items(items[..|items| - 1]) + Comma(|items| - 1) + Stringify(items[|items| - 1])
  }

  function Members(members: seq<Member>): Text {
    if members == [] then []
    else
      var last := members[|members| - 1];
      Members(members[..|members| - 1]) + Comma(|members| - 1) + Label(last.name) + Stringify(last.value)
  }

  /** A member's name with its colon: the names here need no escape. */
  function Label(name: string): Text {
    Ascii("\"") + Ascii(name) + Ascii("\":")
  }

  lemma ItemsAppend(items: seq<Json>, v: Json)
    ensures Items(items + [v]) == Items(items) + Comma(|items|) + Stringify(v)
  {
    assert (items + [v])[..|items|] == items;
  }

  lemma MembersAppend(members: seq<Member>, m: Member)
    ensures Members(members + [m]) == Members(members) + Comma(|members|) + Label(m.name) + Stringify(m.value)
  {
    assert (members + [m])[..|members|] == members;
  }

  /** Printable ASCII without quotes and backslashes is quoted as it is. */
  predicate Plain(t: Text) {
    forall i :: 0 <= i < |t| ==> 0x20 <= t[i] < 0x80 && t[i] != QUOTE && t[i] != BACKSLASH
  }

  lemma {:induction false} PlainBody(t: Text)
    requires Plain(t)
    ensures QuoteBody(t) == t
  {
    if t != [] {
      PlainBody(t[1..]);
      assert t[..1] + t[1..] == t;
    }
  }

  lemma LabelIs(name: string)
    requires Plain(Ascii(name))
    ensures Label(name) == Quote(Ascii(name)) + Ascii(":")
  {
    PlainBody(Ascii(name));
    assert Ascii("\"") == [QUOTE] && Ascii("\":") == [QUOTE] + Ascii(":");
  }

  // ----- Snapshots -----

  /** A finite number and its JSON text. */
  datatype Num = Num(value: real, text: Text)

  datatype Header = Header(
    composerId: Text, workspaceId: Option<Text>, createdAt: Option<Num>, lastUpdatedAt: Option<Num>,
    isArchived: Option<Num>, isSubagent: Option<Num>, recency: Option<Num>, checkpointAt: Option<Num>,
    value: Option<Text>)

  datatype ChatSnapshot = ChatSnapshot(composerId: Text, header: Header, composerData: Row, bubbles: seq<Row>,
                                       agentKv: Option<AgentKv>)

  function ClassName(c: StorageClass): string {
    match c
    case TextClass => "text"
    case BlobClass => "blob"
    case NullClass => "null"
    case OtherClass => "other"
  }

  function RowJson(row: Row): Json {
    Object([Member("key", String(row.key)), Member("valueBase64", String(row.valueBase64))]
           + if row.valueType.Some? then [Member("valueType", String(Ascii(ClassName(row.valueType.value))))] else [])
  }

  function RowsJson(rows: seq<Row>): seq<Json> {
    seq(|rows|, i requires 0 <= i < |rows| => RowJson(rows[i]))
  }

  function NumberJson(n: Option<Num>): Json {
    if n.Some? then Number(n.value.text) else Null
  }

  function TextJson(t: Option<Text>): Json {
    if t.Some? then String(t.value) else Null
  }

  function HeaderMembers(h: Header): seq<Member> {
    [Member("checkpointAt", NumberJson(h.checkpointAt)), Member("composerId", String(h.composerId)),
     Member("createdAt", NumberJson(h.createdAt)), Member("isArchived", NumberJson(h.isArchived)),
     Member("isSubagent", NumberJson(h.isSubagent)), Member("lastUpdatedAt", NumberJson(h.lastUpdatedAt)),
     Member("recency", NumberJson(h.recency)), Member("value", TextJson(h.value)),
     Member("workspaceId", TextJson(h.workspaceId))]
  }

  /** The part of a snapshot the core hash covers: always as schema 1. */
  function CoreJson(composerId: Text, header: Header, composerData: Row, bubbles: seq<Row>): Json {
    Object([Member("bubbles", Array(RowsJson(bubbles))), Member("composerData", RowJson(composerData)),
            Member("composerId", String(composerId)), Member("header", Object(HeaderMembers(header))),
            Member("schemaVersion", Number(Ascii("1")))])
  }

  function CoreText(composerId: Text, header: Header, composerData: Row, bubbles: seq<Row>): Text {
    Stringify(CoreJson(composerId, header, composerData, bubbles))
  }

  // ----- The same, spelled out -----

  function TypePart(row: Row): Text {
    if row.valueType.Some? then Ascii(",") + Label("valueType") + Quote(Ascii(ClassName(row.valueType.value))) else []
  }

  function RowText(row: Row): Text {
    Ascii("{") + Label("key") + Quote(row.key) + Ascii(",") + Label("valueBase64") + Quote(row.valueBase64)
    + TypePart(row) + Ascii("}")
  }

  lemma RowTextIs(row: Row)
    ensures Stringify(RowJson(row)) == RowText(row)
  {
    hide Quote, Ascii, Label, TypePart;
    RowMembers(row);
    Flatten(Ascii("{"), Label("key"), Quote(row.key), Ascii(","), Label("valueBase64"), Quote(row.valueBase64),
            TypePart(row), Ascii("}"));
  }

  lemma Flatten<T>(a: seq<T>, b: seq<T>, c: seq<T>, d: seq<T>, e: seq<T>, f: seq<T>, g: seq<T>, h: seq<T>)
    ensures a + (b + c + d + e + f + g) + h == a + b + c + d + e + f + g + h
  {
  }

  lemma RowMembers(row: Row)
    ensures Stringify(RowJson(row)) ==
      Ascii("{")
      + (Label("key") + Quote(row.key) + Ascii(",") + Label("valueBase64") + Quote(row.valueBase64) + TypePart(row))
      + Ascii("}")
  {
    hide Quote, Ascii, Label, Members, ClassName;
    var first := [Member("key", String(row.key))];
    var second := first + [Member("valueBase64", String(row.valueBase64))];
    assert [] + first == first;
    MembersNone();
    MembersAppend([], first[0]);
    MembersAppend(first, second[1]);
    if row.valueType.Some? {
      var third := Member("valueType", String(Ascii(ClassName(row.valueType.value))));
      MembersAppend(second, third);
      assert RowJson(row).members == second + [third];
    } else {
      assert RowJson(row).members == second;
    }
  }

  lemma MembersNone()
    ensures Members([]) == []
  {
  }

  // ----- The header writer -----

  function NumberText(n: Option<Num>): Text {
    if n.Some? then n.value.text else Ascii("null")
  }

  function NullableText(t: Option<Text>): Text {
    if t.Some? then Quote(t.value) else Ascii("null")
  }

  /** JSON numbers are ASCII. */
  predicate NumberOk(n: Option<Num>) {
    n.Some? ==> forall i :: 0 <= i < |n.value.text| ==> n.value.text[i] < 0x80
  }

  predicate HeaderOk(h: Header) {
    NumberOk(h.createdAt) && NumberOk(h.lastUpdatedAt) && NumberOk(h.isArchived) && NumberOk(h.isSubagent)
    && NumberOk(h.recency) && NumberOk(h.checkpointAt)
  }

  function HeaderText(h: Header): Text {
    Stringify(Object(HeaderMembers(h)))
  }

  /** The members written so far, one more, and the text this makes. */
  ghost predicate HeaderStep(h: Header, k: nat, name: string, value: Text)
    requires 0 < k <= 9
  {
    Members(HeaderMembers(h)[..k]) == Members(HeaderMembers(h)[..k - 1]) + Comma(k - 1) + Label(name) + value
  }

  lemma HeaderAt(h: Header, k: nat)
    requires 0 < k <= 9
    ensures HeaderStep(h, k, HeaderMembers(h)[k - 1].name, Stringify(HeaderMembers(h)[k - 1].value))
  {
    hide Label, Stringify, Members, NumberJson, TextJson;
    MembersTake(HeaderMembers(h), k);
  }

  lemma MembersTake(members: seq<Member>, k: nat)
    requires 0 < k <= |members|
    ensures Members(members[..k]) ==
              Members(members[..k - 1]) + Comma(k - 1) + Label(members[k - 1].name) + Stringify(members[k - 1].value)
  {
    assert members[..k] == members[..k - 1] + [members[k - 1]];
    MembersAppend(members[..k - 1], members[k - 1]);
  }

  lemma AsciiWellFormed(t: Text)
    requires forall i :: 0 <= i < |t| ==> t[i] < 0x80
    ensures WellFormed(t)
  {
  }

  lemma LiteralWellFormed(s: string)
    ensures WellFormed(Ascii(s)) && WellFormed(Label(s))
  {
    AsciiWellFormed(Ascii(s));
    AsciiWellFormed(Label(s));
  }

  lemma SeparatorWellFormed(separator: string, name: string)
    ensures WellFormed(Ascii(separator) + Label(name))
  {
    hide WellFormed, Ascii, Label;
    LiteralWellFormed(separator);
    LiteralWellFormed(name);
    JoinWellFormed(Ascii(separator), Label(name));
  }

  /** ',"name":' and a number or null after the members so far. */
  method UpdateNumberMember(hash: HashSink, name: string, n: Option<Num>, ghost start: Text, ghost written: Text)
    requires hash.Valid() && NumberOk(n) && hash.text == start + written
    modifies hash
    ensures hash.Valid() && hash.clean == old(hash.clean)
    ensures hash.text == start + (written + Ascii(",") + Label(name) + NumberText(n))
  {
    hide Label, Ascii, WellFormed;
    SeparatorWellFormed(",", name);
    hash.Update(Ascii(",") + Label(name));
    NumberWellFormed(n);
    hash.Update(NumberText(n));
    Grow(start, written, Ascii(","), Label(name), NumberText(n));
  }

  lemma NumberWellFormed(n: Option<Num>)
    requires NumberOk(n)
    ensures WellFormed(NumberText(n))
  {
    AsciiWellFormed(NumberText(n));
  }

  lemma Grow<T>(start: seq<T>, written: seq<T>, a: seq<T>, b: seq<T>, c: seq<T>)
    ensures start + written + (a + b) + c == start + (written + a + b + c)
  {
  }

  /** The same with a string or null. */
  method UpdateTextMember(hash: HashSink, name: string, t: Option<Text>, ghost start: Text, ghost written: Text)
    requires hash.Valid() && hash.text == start + written
    modifies hash
    ensures hash.Valid() && hash.clean == old(hash.clean)
    ensures hash.text == start + (written + Ascii(",") + Label(name) + NullableText(t))
  {
    hide Label, Ascii, WellFormed, Quote;
    SeparatorWellFormed(",", name);
    LiteralWellFormed("null");
    hash.Update(Ascii(",") + Label(name));
    if t.Some? {
      UpdateCanonicalJsonString(hash, t.value);
    } else {
      hash.Update(Ascii("null"));
    }
    Grow(start, written, Ascii(","), Label(name), NullableText(t));
  }

  /** updatePortableComposerHeaderHash */
  method UpdatePortableComposerHeaderHash(hash: HashSink, h: Header)
    requires hash.Valid() && HeaderOk(h)
    modifies hash
    ensures hash.Valid() && hash.clean == old(hash.clean) && hash.text == old(hash.text) + HeaderText(h)
  {
    hide Label, Ascii, WellFormed, Quote, Members, HeaderMembers;
    SeparatorWellFormed("{", "checkpointAt");
    hash.Update(Ascii("{") + Label("checkpointAt"));
    NumberWellFormed(h.checkpointAt);
    hash.Update(NumberText(h.checkpointAt));
    ghost var start := old(hash.text) + Ascii("{");
    HeaderParts(h);
    FirstMember(old(hash.text), Ascii("{"), Label("checkpointAt"), NumberText(h.checkpointAt), HeaderSoFar(h, 0),
                HeaderSoFar(h, 1));
    UpdateTextMember(hash, "composerId", Some(h.composerId), start, HeaderSoFar(h, 1));
    UpdateNumberMember(hash, "createdAt", h.createdAt, start, HeaderSoFar(h, 2));
    UpdateNumberMember(hash, "isArchived", h.isArchived, start, HeaderSoFar(h, 3));
    UpdateNumberMember(hash, "isSubagent", h.isSubagent, start, HeaderSoFar(h, 4));
    UpdateNumberMember(hash, "lastUpdatedAt", h.lastUpdatedAt, start, HeaderSoFar(h, 5));
    UpdateNumberMember(hash, "recency", h.recency, start, HeaderSoFar(h, 6));
    UpdateTextMember(hash, "value", h.value, start, HeaderSoFar(h, 7));
    UpdateTextMember(hash, "workspaceId", h.workspaceId, start, HeaderSoFar(h, 8));
    LiteralWellFormed("}");
    hash.Update(Ascii("}"));
    Enclose(old(hash.text), Ascii("{"), HeaderSoFar(h, 9), Ascii("}"));
  }

  ghost function HeaderSoFar(h: Header, k: nat): Text
    requires k <= 9
  {
    Members(HeaderMembers(h)[..k])
  }

  lemma HeaderParts(h: Header)
    ensures HeaderSoFar(h, 0) == [] && HeaderText(h) == Ascii("{") + HeaderSoFar(h, 9) + Ascii("}")
    ensures HeaderSoFar(h, 1) == [] + [] + Label("checkpointAt") + NumberText(h.checkpointAt)
    ensures HeaderSoFar(h, 2) == HeaderSoFar(h, 1) + Ascii(",") + Label("composerId") + NullableText(Some(h.composerId))
    ensures HeaderSoFar(h, 3) == HeaderSoFar(h, 2) + Ascii(",") + Label("createdAt") + NumberText(h.createdAt)
    ensures HeaderSoFar(h, 4) == HeaderSoFar(h, 3) + Ascii(",") + Label("isArchived") + NumberText(h.isArchived)
    ensures HeaderSoFar(h, 5) == HeaderSoFar(h, 4) + Ascii(",") + Label("isSubagent") + NumberText(h.isSubagent)
    ensures HeaderSoFar(h, 6) == HeaderSoFar(h, 5) + Ascii(",") + Label("lastUpdatedAt") + NumberText(h.lastUpdatedAt)
    ensures HeaderSoFar(h, 7) == HeaderSoFar(h, 6) + Ascii(",") + Label("recency") + NumberText(h.recency)
    ensures HeaderSoFar(h, 8) == HeaderSoFar(h, 7) + Ascii(",") + Label("value") + NullableText(h.value)
    ensures HeaderSoFar(h, 9) == HeaderSoFar(h, 8) + Ascii(",") + Label("workspaceId") + NullableText(h.workspaceId)
  {
    hide Label, Ascii, Members, Quote;
    MembersNone();
    assert HeaderMembers(h)[..9] == HeaderMembers(h);
    HeaderAt(h, 1);
    HeaderAt(h, 2);
    HeaderAt(h, 3);
    HeaderAt(h, 4);
    HeaderAt(h, 5);
    HeaderAt(h, 6);
    HeaderAt(h, 7);
    HeaderAt(h, 8);
    HeaderAt(h, 9);
  }

  lemma FirstMember<T>(start: seq<T>, brace: seq<T>, name: seq<T>, value: seq<T>, none: seq<T>, one: seq<T>)
    requires none == [] && one == [] + [] + name + value
    ensures start + (brace + name) + value == start + brace + one
  {
  }

  lemma Enclose<T>(start: seq<T>, a: seq<T>, b: seq<T>, c: seq<T>)
    ensures start + a + b + c == start + (a + b + c)
  {
  }

  // ----- The core hash writers -----

  function CoreOpen(): Text {
    Ascii("{") + Label("bubbles") + Ascii("[")
  }

  function CoreMiddle(): Text {
    Ascii("]") + (Ascii(",") + Label("composerData"))
  }

  function CoreEnd(): Text {
    Ascii(",") + Label("schemaVersion") + Ascii("1") + Ascii("}")
  }

  function CoreTail(composerId: Text, header: Header): Text {
    Ascii(",") + Label("composerId") + Quote(composerId) + (Ascii(",") + Label("header")) + HeaderText(header)
    + CoreEnd()
  }

  /** The core text cut where the writers cut it. */
  lemma CoreTextIs(composerId: Text, header: Header, composerData: Row, bubbles: seq<Row>)
    ensures CoreText(composerId, header, composerData, bubbles) ==
      CoreOpen() + Items(RowsJson(bubbles)) + CoreMiddle() + Stringify(RowJson(composerData))
      + CoreTail(composerId, header)
  {
    hide Label, Ascii, Quote, RowJson, RowsJson, HeaderMembers, Members, Items;
    var members := CoreJson(composerId, header, composerData, bubbles).members;
    MembersNone();
    assert members[..5] == members;
    MembersTake(members, 1);
    MembersTake(members, 2);
    MembersTake(members, 3);
    MembersTake(members, 4);
    MembersTake(members, 5);
    CoreGlue(Ascii("{"), Label("bubbles"), Ascii("["), Items(RowsJson(bubbles)), Ascii("]"), Ascii(","),
             Label("composerData"), Stringify(RowJson(composerData)), Label("composerId"), Quote(composerId),
             Label("header"), HeaderText(header), Label("schemaVersion"), Ascii("1"), Ascii("}"));
  }

  lemma CoreGlue<T>(brace: seq<T>, a: seq<T>, open: seq<T>, items: seq<T>, close: seq<T>, comma: seq<T>, b: seq<T>,
                    row: seq<T>, c: seq<T>, id: seq<T>, d: seq<T>, header: seq<T>, e: seq<T>, one: seq<T>, end: seq<T>)
    ensures var m1 := [] + [] + a + (open + items + close);
            var m2 := m1 + comma + b + row;
            var m3 := m2 + comma + c + id;
            var m4 := m3 + comma + d + header;
            var m5 := m4 + comma + e + one;
            brace + m5 + end ==
            (brace + a + open) + items + (close + (comma + b)) + row
            + (comma + c + id + (comma + d) + header + (comma + e + one + end))
  {
    var front := brace + a + open + items + close + comma + b + row;
    var m1 := [] + [] + a + (open + items + close);
    assert brace + (m1 + comma + b + row) == front;
    assert (brace + a + open) + items + (close + (comma + b)) + row == front;
    CoreGlueTail(brace, m1 + comma + b + row, front, comma, c, id, d, header, e, one, end);
  }

  lemma CoreGlueTail<T>(brace: seq<T>, m2: seq<T>, front: seq<T>, comma: seq<T>, c: seq<T>, id: seq<T>, d: seq<T>,
                        header: seq<T>, e: seq<T>, one: seq<T>, end: seq<T>)
    requires brace + m2 == front
    ensures brace + (m2 + comma + c + id + comma + d + header + comma + e + one) + end ==
      front + (comma + c + id + (comma + d) + header + (comma + e + one + end))
  {
    var tail := comma + c + id + comma + d + header + comma + e + one;
    assert m2 + comma + c + id + comma + d + header + comma + e + one == m2 + tail;
    assert comma + c + id + (comma + d) + header + (comma + e + one + end) == tail + end;
    assert brace + (m2 + tail) + end == brace + m2 + (tail + end);
  }

  lemma RowWellFormed(row: Row)
    ensures WellFormed(Stringify(RowJson(row)))
  {
    hide Label, Ascii, Quote, WellFormed;
    RowTextIs(row);
    var a := Ascii("{") + Label("key");
    SeparatorWellFormed("{", "key");
    QuoteWellFormed(row.key);
    JoinWellFormed(a, Quote(row.key));
    SeparatorWellFormed(",", "valueBase64");
    JoinWellFormed(a + Quote(row.key), Ascii(",") + Label("valueBase64"));
    QuoteWellFormed(row.valueBase64);
    JoinWellFormed(a + Quote(row.key) + (Ascii(",") + Label("valueBase64")), Quote(row.valueBase64));
    TypePartWellFormed(row);
    LiteralWellFormed("}");
    var front := a + Quote(row.key) + (Ascii(",") + Label("valueBase64")) + Quote(row.valueBase64);
    JoinWellFormed(front, TypePart(row));
    JoinWellFormed(front + TypePart(row), Ascii("}"));
    assert RowText(row) == front + TypePart(row) + Ascii("}");
  }

  lemma TypePartWellFormed(row: Row)
    ensures WellFormed(TypePart(row))
  {
    hide Label, Ascii, Quote, WellFormed, ClassName;
    if row.valueType.Some? {
      SeparatorWellFormed(",", "valueType");
      QuoteWellFormed(Ascii(ClassName(row.valueType.value)));
      JoinWellFormed(Ascii(",") + Label("valueType"), Quote(Ascii(ClassName(row.valueType.value))));
    } else {
      EmptyWellFormed();
    }
  }

  lemma CorePartsWellFormed()
    ensures WellFormed(CoreOpen()) && WellFormed(CoreMiddle()) && WellFormed(CoreEnd())
    ensures WellFormed(Ascii(",")) && WellFormed(Ascii(",") + Label("composerId"))
    ensures WellFormed(Ascii(",") + Label("header"))
  {
    hide Label, Ascii, WellFormed;
    LiteralWellFormed(",");
    LiteralWellFormed("[");
    LiteralWellFormed("]");
    LiteralWellFormed("1");
    LiteralWellFormed("}");
    SeparatorWellFormed("{", "bubbles");
    SeparatorWellFormed(",", "composerData");
    SeparatorWellFormed(",", "composerId");
    SeparatorWellFormed(",", "header");
    SeparatorWellFormed(",", "schemaVersion");
    JoinWellFormed(Ascii("{") + Label("bubbles"), Ascii("["));
    JoinWellFormed(Ascii("]"), Ascii(",") + Label("composerData"));
    JoinWellFormed(Ascii(",") + Label("schemaVersion"), Ascii("1"));
    JoinWellFormed(Ascii(",") + Label("schemaVersion") + Ascii("1"), Ascii("}"));
  }

  /** From the composer id on, with the string writer. */
  method FinishCore(hash: HashSink, composerId: Text, header: Header)
    requires hash.Valid() && HeaderOk(header)
    modifies hash
    ensures hash.Valid() && hash.clean == old(hash.clean) && hash.text == old(hash.text) + CoreTail(composerId, header)
  {
    hide Label, Ascii, Quote, WellFormed, HeaderText, CoreEnd, HeaderOk;
    CorePartsWellFormed();
    hash.Update(Ascii(",") + Label("composerId"));
    UpdateCanonicalJsonString(hash, composerId);
    hash.Update(Ascii(",") + Label("header"));
    UpdatePortableComposerHeaderHash(hash, header);
    hash.Update(CoreEnd());
    Tail(old(hash.text), Ascii(",") + Label("composerId"), Quote(composerId), Ascii(",") + Label("header"),
         HeaderText(header), CoreEnd());
  }

  lemma Tail<T>(start: seq<T>, a: seq<T>, b: seq<T>, c: seq<T>, d: seq<T>, e: seq<T>)
    ensures start + a + b + c + d + e == start + (a + b + c + d + e)
  {
  }

  lemma RowsNone()
    ensures Items(RowsJson([])) == []
  {
  }

  /** ',' between rows, then the row. */
  lemma RowsStep(rows: seq<Row>, i: nat, start: Text)
    requires i < |rows|
    ensures start + Items(RowsJson(rows[..i + 1])) ==
              start + Items(RowsJson(rows[..i])) + Comma(i) + Stringify(RowJson(rows[i]))
  {
    hide Stringify, Items, Ascii, RowJson;
    assert RowsJson(rows[..i + 1]) == RowsJson(rows[..i]) + [RowJson(rows[i])];
    ItemsAppend(RowsJson(rows[..i]), RowJson(rows[i]));
    Enclose(start, Items(RowsJson(rows[..i])), Comma(i), Stringify(RowJson(rows[i])));
  }

  lemma CoreEnclose(start: Text, composerId: Text, header: Header, composerData: Row, bubbles: seq<Row>)
    ensures start + CoreOpen() + Items(RowsJson(bubbles)) + CoreMiddle() + Stringify(RowJson(composerData))
            + CoreTail(composerId, header)
         == start + CoreText(composerId, header, composerData, bubbles)
  {
    CoreTextIs(composerId, header, composerData, bubbles);
    hide CoreOpen, CoreMiddle, CoreTail, Items, Stringify, RowsJson, RowJson, CoreText;
    Tail(start, CoreOpen(), Items(RowsJson(bubbles)), CoreMiddle(), Stringify(RowJson(composerData)),
         CoreTail(composerId, header));
  }

  /** portableChatCoreHash */
  method PortableChatCoreHash(hash: HashSink, s: ChatSnapshot)
    requires hash.Valid() && HeaderOk(s.header)
    modifies hash
    ensures hash.Valid() && hash.clean == old(hash.clean)
    ensures hash.text == old(hash.text) + CoreText(s.composerId, s.header, s.composerData, s.bubbles)
  {
    hide Label, Ascii, Quote, WellFormed, HeaderText, CoreOpen, CoreMiddle, CoreTail, CoreText, HeaderOk, Stringify;
    hide Items, RowJson, RowsJson;
    CorePartsWellFormed();
    RowsNone();
    hash.Update(CoreOpen());
    ghost var start := hash.text;
    for i := 0 to |s.bubbles|
      invariant hash.Valid() && hash.clean == old(hash.clean)
      invariant hash.text == start + Items(RowsJson(s.bubbles[..i]))
    {
      if i > 0 {
        hash.Update(Ascii(","));
      }
      RowWellFormed(s.bubbles[i]);
      RowsStep(s.bubbles, i, start);
      hash.Update(Stringify(RowJson(s.bubbles[i])));
    }
    assert s.bubbles[..|s.bubbles|] == s.bubbles;
    hash.Update(CoreMiddle());
    RowWellFormed(s.composerData);
    hash.Update(Stringify(RowJson(s.composerData)));
    FinishCore(hash, s.composerId, s.header);
    CoreEnclose(old(hash.text), s.composerId, s.header, s.composerData, s.bubbles);
  }

  // ----- Database rows -----

  /** A key-value row of the database: a text value is its UTF-8 bytes. */
  datatype RawRow = RawRow(key: Text, valueType: StorageClass, bytes: seq<byte>)
  {
    /** The storage classes the readers accept. */
    predicate Supported() {
      valueType != OtherClass && (valueType == NullClass ==> bytes == [])
    }
  }

  /** The row with the bytes that are stored. */
  function StoredRow(raw: RawRow): Row {
    Row(raw.key, Base64.Encode(raw.bytes), Some(raw.valueType))
  }

  /** portableRow: a text value is read as a string and encoded again. */
  function PortableRow(raw: RawRow, reencode: seq<byte> -> seq<byte>): Row {
    Row(raw.key, Base64.Encode(if raw.valueType == TextClass then reencode(raw.bytes) else raw.bytes),
        Some(raw.valueType))
  }

  function StoredRows(rows: seq<RawRow>): seq<Row> {
    seq(|rows|, i requires 0 <= i < |rows| => StoredRow(rows[i]))
  }

  function PortableRows(rows: seq<RawRow>, reencode: seq<byte> -> seq<byte>): seq<Row> {
    seq(|rows|, i requires 0 <= i < |rows| => PortableRow(rows[i], reencode))
  }

  /** analyzeChatCore: row by row as the rows are read. */
  method AnalyzeChatCore(hash: HashSink, header: Header, composerData: RawRow, bubbles: seq<RawRow>,
                         reencode: seq<byte> -> seq<byte>)
    requires hash.Valid() && HeaderOk(header)
    modifies hash
    ensures hash.Valid() && hash.clean == old(hash.clean)
    ensures hash.text ==
              old(hash.text)
              + CoreText(header.composerId, header, PortableRow(composerData, reencode),
                         PortableRows(bubbles, reencode))
  {
    hide Label, Ascii, Quote, WellFormed, HeaderText, CoreOpen, CoreMiddle, CoreTail, CoreText, HeaderOk, Stringify;
    hide Items, RowJson, RowsJson, PortableRow;
    CorePartsWellFormed();
    RowsNone();
    var composerPortable := PortableRow(composerData, reencode);
    ghost var rows := PortableRows(bubbles, reencode);
    hash.Update(CoreOpen());
    ghost var start := hash.text;
    var first := true;
    for i := 0 to |bubbles|
      invariant hash.Valid() && hash.clean == old(hash.clean) && (first <==> i == 0)
      invariant hash.text == start + Items(RowsJson(rows[..i]))
    {
      var portable := PortableRow(bubbles[i], reencode);
      if !first {
        hash.Update(Ascii(","));
      }
      first := false;
      RowWellFormed(portable);
      RowsStep(rows, i, start);
      hash.Update(Stringify(RowJson(portable)));
    }
    assert rows[..|bubbles|] == rows;
    hash.Update(CoreMiddle());
    RowWellFormed(composerPortable);
    hash.Update(Stringify(RowJson(composerPortable)));
    FinishCore(hash, header.composerId, header);
    CoreEnclose(old(hash.text), header.composerId, header, composerPortable, rows);
  }

  // ----- Streaming -----

  const STREAM_CHUNK := 192 * 1024

  function RowOpen(key: Text): Text {
    Ascii("{") + Label("key") + Quote(key) + (Ascii(",") + Label("valueBase64")) + Ascii("\"")
  }

  function RowClose(c: StorageClass): Text {
    Ascii("\"") + (Ascii(",") + Label("valueType")) + Quote(Ascii(ClassName(c))) + Ascii("}")
  }

  lemma EncodedPlain(s: seq<byte>)
    ensures Plain(Base64.Encode(s))
  {
    Base64.DecodeEncode(s);
    TextPlain(Base64.Encode(s));
  }

  lemma TextPlain(t: Text)
    requires Base64.IsText(t)
    ensures Plain(t)
  {
    forall i | 0 <= i < |t| ensures 0x20 <= t[i] < 0x80 && t[i] != QUOTE && t[i] != BACKSLASH {
      assert Base64.IsChar(t[i]) || t[i] == Base64.PAD;
    }
  }

  lemma PlainWellFormed(t: Text)
    requires Plain(t)
    ensures WellFormed(t)
  {
    AsciiWellFormed(t);
  }

  /** A streamed row is the row with its value quoted as it is. */
  lemma StreamedRow(raw: RawRow)
    ensures Stringify(RowJson(StoredRow(raw))) == RowOpen(raw.key) + Base64.Encode(raw.bytes) + RowClose(raw.valueType)
  {
    RowTextIs(StoredRow(raw));
    EncodedPlain(raw.bytes);
    PlainBody(Base64.Encode(raw.bytes));
    QuoteIs();
    hide Label, Ascii, Quote, ClassName, Base64.Encode;
    StreamGlue(Ascii("{"), Label("key"), Quote(raw.key), Ascii(","), Label("valueBase64"), [QUOTE],
               Base64.Encode(raw.bytes), Label("valueType"), Quote(Ascii(ClassName(raw.valueType))), Ascii("}"));
    assert Quote(Base64.Encode(raw.bytes)) == [QUOTE] + Base64.Encode(raw.bytes) + [QUOTE] by {
      QuotedPlain(Base64.Encode(raw.bytes));
    }
  }

  lemma QuoteIs()
    ensures Ascii("\"") == [QUOTE]
  {
  }

  lemma QuotedPlain(t: Text)
    requires QuoteBody(t) == t
    ensures Quote(t) == [QUOTE] + t + [QUOTE]
  {
  }

  lemma StreamGlue<T>(a: seq<T>, b: seq<T>, key: seq<T>, comma: seq<T>, d: seq<T>, q: seq<T>, v: seq<T>, e: seq<T>,
                      f: seq<T>, g: seq<T>)
    ensures a + b + key + comma + d + (q + v + q) + (comma + e + f) + g ==
              a + b + key + (comma + d) + q + v + (q + (comma + e) + f + g)
  {
    var front := a + b + key + comma + d;
    assert a + b + key + (comma + d) == front;
    assert front + (q + v + q) + (comma + e + f) + g == front + q + v + (q + (comma + e) + f + g) by {
      assert q + (comma + e) + f + g == q + comma + e + f + g;
      assert front + (q + v + q) == front + q + v + q;
    }
  }

  lemma RowPartsWellFormed(key: Text, c: StorageClass)
    ensures WellFormed(RowOpen(key)) && WellFormed(RowClose(c))
  {
    hide Label, Ascii, Quote, WellFormed, ClassName;
    SeparatorWellFormed("{", "key");
    QuoteWellFormed(key);
    SeparatorWellFormed(",", "valueBase64");
    LiteralWellFormed("\"");
    LiteralWellFormed("}");
    SeparatorWellFormed(",", "valueType");
    QuoteWellFormed(Ascii(ClassName(c)));
    var a := Ascii("{") + Label("key");
    JoinWellFormed(a, Quote(key));
    JoinWellFormed(a + Quote(key), Ascii(",") + Label("valueBase64"));
    JoinWellFormed(a + Quote(key) + (Ascii(",") + Label("valueBase64")), Ascii("\""));
    var b := Ascii("\"") + (Ascii(",") + Label("valueType"));
    JoinWellFormed(Ascii("\""), Ascii(",") + Label("valueType"));
    JoinWellFormed(b, Quote(Ascii(ClassName(c))));
    JoinWellFormed(b + Quote(Ascii(ClassName(c))), Ascii("}"));
  }

  /** updatePortableKvRowHash: the value in chunks of 192 KiB, each encoded to
      Base64 on its own. */
  method UpdatePortableKvRowHash(hash: HashSink, raw: RawRow)
    requires hash.Valid()
    modifies hash
    ensures hash.Valid() && hash.clean == old(hash.clean)
    ensures hash.text == old(hash.text) + Stringify(RowJson(StoredRow(raw)))
  {
    hide WellFormed, RowOpen, RowClose, Base64.Encode, Stringify, RowJson, Plain;
    RowPartsWellFormed(raw.key, raw.valueType);
    hash.Update(RowOpen(raw.key));
    ghost var start := hash.text;
    var rowStreamedBytes := 0;
    EncodeNothing();
    while rowStreamedBytes < |raw.bytes|
      invariant 0 <= rowStreamedBytes <= |raw.bytes| && (rowStreamedBytes % 3 == 0 || rowStreamedBytes == |raw.bytes|)
      invariant hash.Valid() && hash.clean == old(hash.clean)
      invariant hash.text == start + Base64.Encode(raw.bytes[..rowStreamedBytes])
    {
      var rest := |raw.bytes| - rowStreamedBytes;
      var expectedBytes := if rest < STREAM_CHUNK then rest else STREAM_CHUNK;
      var chunk := raw.bytes[rowStreamedBytes..rowStreamedBytes + expectedBytes];
      EncodedPlain(chunk);
      PlainWellFormed(Base64.Encode(chunk));
      hash.Update(Base64.Encode(chunk));
      Base64.EncodeConcatenation(raw.bytes[..rowStreamedBytes], chunk);
      Slices(raw.bytes, 0, rowStreamedBytes, rowStreamedBytes + expectedBytes);
      Regroup(start, Base64.Encode(raw.bytes[..rowStreamedBytes]), Base64.Encode(chunk));
      rowStreamedBytes := rowStreamedBytes + |chunk|;
    }
    assert raw.bytes[..|raw.bytes|] == raw.bytes;
    hash.Update(RowClose(raw.valueType));
    StreamedRow(raw);
    Enclose(old(hash.text), RowOpen(raw.key), Base64.Encode(raw.bytes), RowClose(raw.valueType));
  }

  lemma EncodeNothing()
    ensures Base64.Encode([]) == []
  {
  }

  lemma Regroup<T>(a: seq<T>, b: seq<T>, c: seq<T>)
    ensures a + b + c == a + (b + c)
  {
  }

  /** streamPortableChatCoreHash */
  method StreamPortableChatCoreHash(hash: HashSink, header: Header, composerData: RawRow, bubbles: seq<RawRow>)
    requires hash.Valid() && HeaderOk(header)
    modifies hash
    ensures hash.Valid() && hash.clean == old(hash.clean)
    ensures hash.text ==
              old(hash.text) + CoreText(header.composerId, header, StoredRow(composerData), StoredRows(bubbles))
  {
    hide Label, Ascii, Quote, WellFormed, HeaderText, CoreOpen, CoreMiddle, CoreTail, CoreText, HeaderOk, Stringify;
    hide Items, RowJson, RowsJson, StoredRow;
    CorePartsWellFormed();
    RowsNone();
    ghost var rows := StoredRows(bubbles);
    hash.Update(CoreOpen());
    ghost var start := hash.text;
    var bubbleCount := 0;
    for i := 0 to |bubbles|
      invariant hash.Valid() && hash.clean == old(hash.clean) && bubbleCount == i
      invariant hash.text == start + Items(RowsJson(rows[..i]))
    {
      if bubbleCount > 0 {
        hash.Update(Ascii(","));
      }
      RowsStep(rows, i, start);
      UpdatePortableKvRowHash(hash, bubbles[i]);
      bubbleCount := bubbleCount + 1;
    }
    assert rows[..|bubbles|] == rows;
    hash.Update(CoreMiddle());
    UpdatePortableKvRowHash(hash, composerData);
    FinishCore(hash, header.composerId, header);
    CoreEnclose(old(hash.text), header.composerId, header, StoredRow(composerData), rows);
  }

  /** finishCoreHash of chunked chats: the composer id printed at once. */
  method FinishCoreHash(hash: HashSink, composer: Row, header: Header)
    requires hash.Valid() && HeaderOk(header)
    modifies hash
    ensures hash.Valid() && hash.clean == old(hash.clean)
    ensures hash.text ==
              old(hash.text) + CoreMiddle() + Stringify(RowJson(composer)) + CoreTail(header.composerId, header)
  {
    hide Label, Ascii, Quote, WellFormed, HeaderText, CoreMiddle, CoreEnd, HeaderOk, Stringify, RowJson;
    CorePartsWellFormed();
    RowWellFormed(composer);
    QuoteWellFormed(header.composerId);
    hash.Update(CoreMiddle());
    hash.Update(Stringify(RowJson(composer)));
    ghost var start := hash.text;
    hash.Update(Ascii(",") + Label("composerId"));
    hash.Update(Quote(header.composerId));
    hash.Update(Ascii(",") + Label("header"));
    UpdatePortableComposerHeaderHash(hash, header);
    hash.Update(CoreEnd());
    Tail(start, Ascii(",") + Label("composerId"), Quote(header.composerId), Ascii(",") + Label("header"),
         HeaderText(header), CoreEnd());
  }

  // ----- One stream -----

  /** Reading a text value as a string keeps its bytes. */
  predicate Survives(raw: RawRow, reencode: seq<byte> -> seq<byte>) {
    raw.valueType == TextClass ==> reencode(raw.bytes) == raw.bytes
  }

  /** The streaming writer and the row-reading one feed the hash the same text
      exactly when every text value is what encoding its string gives back: a
      text value with invalid UTF-8 hashes differently. */
  lemma OneStream(header: Header, composerData: RawRow, bubbles: seq<RawRow>, reencode: seq<byte> -> seq<byte>)
    ensures CoreText(header.composerId, header, PortableRow(composerData, reencode), PortableRows(bubbles, reencode))
         == CoreText(header.composerId, header, StoredRow(composerData), StoredRows(bubbles))
      <==> Survives(composerData, reencode) && forall raw :: raw in bubbles ==> Survives(raw, reencode)
  {
    var p, r := PortableRow(composerData, reencode), StoredRow(composerData);
    var ps, rs := PortableRows(bubbles, reencode), StoredRows(bubbles);
    RowSurvives(composerData, reencode);
    forall i | 0 <= i < |bubbles| ensures ps[i] == rs[i] <==> Survives(bubbles[i], reencode) {
      RowSurvives(bubbles[i], reencode);
    }
    hide PortableRow, StoredRow, Survives, CoreText;
    if CoreText(header.composerId, header, p, ps) == CoreText(header.composerId, header, r, rs) {
      CoreTextDetermines(header.composerId, header, p, ps, header.composerId, header, r, rs);
      forall raw | raw in bubbles ensures Survives(raw, reencode) {
        var i :| 0 <= i < |bubbles| && bubbles[i] == raw;
        assert ps[i] == rs[i];
      }
    } else if forall raw :: raw in bubbles ==> Survives(raw, reencode) {
      forall i | 0 <= i < |bubbles| ensures ps[i] == rs[i] {
        assert bubbles[i] in bubbles;
      }
      assert ps == rs;
    }
  }

  lemma RowSurvives(raw: RawRow, reencode: seq<byte> -> seq<byte>)
    ensures PortableRow(raw, reencode) == StoredRow(raw) <==> Survives(raw, reencode)
  {
    if PortableRow(raw, reencode) == StoredRow(raw) && raw.valueType == TextClass {
      Base64.EncodeInjective(reencode(raw.bytes), raw.bytes);
    }
  }

  // ----- What the text determines -----

  /** Equal text after quoted strings: the strings are equal and so is the rest. */
  lemma QuoteFront(a: Text, x: Text, b: Text, y: Text)
    requires Quote(a) + x == Quote(b) + y
    ensures a == b && x == y
  {
    hide QuoteBody, Unquote;
    UnquoteInverts(a, x);
    UnquoteInverts(b, y);
  }

  lemma SameFront<T>(a: seq<T>, x: seq<T>, y: seq<T>)
    requires a + x == a + y
    ensures x == y
  {
    assert (a + x)[|a|..] == x && (a + y)[|a|..] == y;
  }

  lemma ClassNameDetermines(a: StorageClass, b: StorageClass)
    requires Ascii(ClassName(a)) == Ascii(ClassName(b))
    ensures a == b
  {
    assert ClassName(a) != ClassName(b) ==> Ascii(ClassName(a)) != Ascii(ClassName(b)) by {
      assert Ascii(ClassName(a))[0] == ClassName(a)[0] as int;
      assert Ascii(ClassName(b))[0] == ClassName(b)[0] as int;
    }
  }

  function RowFront(row: Row): Text {
    Ascii("{") + Label("key") + Quote(row.key) + (Ascii(",") + Label("valueBase64")) + Quote(row.valueBase64)
  }

  lemma RowTextFront(row: Row, x: Text)
    ensures Stringify(RowJson(row)) + x == RowFront(row) + (TypePart(row) + Ascii("}") + x)
  {
    hide Ascii, Label, Quote, TypePart;
    RowTextIs(row);
    FrontGlue(Ascii("{") + Label("key") + Quote(row.key), Ascii(","), Label("valueBase64"), Quote(row.valueBase64),
              TypePart(row), Ascii("}"), x);
  }

  lemma FrontGlue<T>(a: seq<T>, b: seq<T>, c: seq<T>, d: seq<T>, e: seq<T>, f: seq<T>, x: seq<T>)
    ensures a + b + c + d + e + f + x == a + (b + c) + d + (e + f + x)
  {
  }

  lemma RowFrontDetermines(a: Row, x: Text, b: Row, y: Text)
    requires RowFront(a) + x == RowFront(b) + y
    ensures a.key == b.key && a.valueBase64 == b.valueBase64 && x == y
  {
    hide Ascii, Label, Quote;
    var open, middle := Ascii("{") + Label("key"), Ascii(",") + Label("valueBase64");
    FrontSplit(open, Quote(a.key), middle, Quote(a.valueBase64), x);
    FrontSplit(open, Quote(b.key), middle, Quote(b.valueBase64), y);
    var restA, restB := middle + (Quote(a.valueBase64) + x), middle + (Quote(b.valueBase64) + y);
    SameFront(open, Quote(a.key) + restA, Quote(b.key) + restB);
    QuoteFront(a.key, restA, b.key, restB);
    SameFront(middle, Quote(a.valueBase64) + x, Quote(b.valueBase64) + y);
    QuoteFront(a.valueBase64, x, b.valueBase64, y);
  }

  lemma FrontSplit<T>(a: seq<T>, b: seq<T>, c: seq<T>, d: seq<T>, x: seq<T>)
    ensures a + b + c + d + x == a + (b + (c + (d + x)))
  {
  }

  /** The first characters of the literals that can follow a row's value. */
  lemma TypePartDetermines(a: Row, x: Text, b: Row, y: Text)
    requires TypePart(a) + Ascii("}") + x == TypePart(b) + Ascii("}") + y
    ensures a.valueType == b.valueType && x == y
  {
    hide Label, Quote, ClassName, Ascii;
    var comma := Ascii(",") + Label("valueType");
    FirstChars();
    TypeFirst(a, x);
    TypeFirst(b, y);
    assert a.valueType.Some? <==> b.valueType.Some?;
    if a.valueType.Some? {
      var p, q := Ascii(ClassName(a.valueType.value)), Ascii(ClassName(b.valueType.value));
      TypeSplit(comma, Quote(p), Ascii("}"), x);
      TypeSplit(comma, Quote(q), Ascii("}"), y);
      SameFront(comma, Quote(p) + (Ascii("}") + x), Quote(q) + (Ascii("}") + y));
      QuoteFront(p, Ascii("}") + x, q, Ascii("}") + y);
      ClassNameDetermines(a.valueType.value, b.valueType.value);
      SameFront(Ascii("}"), x, y);
    } else {
      assert [] + Ascii("}") + x == Ascii("}") + x && [] + Ascii("}") + y == Ascii("}") + y;
      SameFront(Ascii("}"), x, y);
    }
  }

  lemma TypeFirst(row: Row, x: Text)
    ensures var t := TypePart(row) + Ascii("}") + x; t != [] && t[0] == if row.valueType.Some? then 0x2C else 0x7D
  {
    FirstChars();
    hide Label, Quote, ClassName, Ascii;
  }

  lemma FirstChars()
    ensures Ascii(",") == [0x2C] && Ascii("}") == [0x7D] && Ascii("]") == [0x5D] && Ascii("{") == [0x7B]
  {
  }

  lemma TypeSplit<T>(a: seq<T>, b: seq<T>, c: seq<T>, x: seq<T>)
    ensures a + b + c + x == a + (b + (c + x))
  {
  }

  /** A printed row can be read off the front of any text. */
  lemma RowFrontFree(a: Row, x: Text, b: Row, y: Text)
    requires Stringify(RowJson(a)) + x == Stringify(RowJson(b)) + y
    ensures a == b && x == y
  {
    hide Ascii, TypePart, RowFront, Stringify, RowJson;
    RowTextFront(a, x);
    RowTextFront(b, y);
    RowFrontDetermines(a, TypePart(a) + Ascii("}") + x, b, TypePart(b) + Ascii("}") + y);
    TypePartDetermines(a, x, b, y);
  }

  /** The rows of an array, first to last. */
  function Listed(rows: seq<Row>): Text {
    if rows == [] then []
    else if |rows| == 1 then Stringify(RowJson(rows[0]))
    else Stringify(RowJson(rows[0])) + Ascii(",") + Listed(rows[1..])
  }

  lemma {:induction false} ItemsListed(rows: seq<Row>)
    ensures Items(RowsJson(rows)) == Listed(rows)
  {
    hide Ascii, RowJson, Stringify, Items;
    ListedNone();
    if rows != [] {
      var n := |rows| - 1;
      RowsStep(rows, n, []);
      assert rows[..n + 1] == rows;
      ItemsListed(rows[..n]);
      ListedAppend(rows[..n], rows[n]);
      assert rows[..n] + [rows[n]] == rows;
      EmptyFront(Items(RowsJson(rows)), Items(RowsJson(rows[..n])));
    }
  }

  lemma EmptyFront<T>(a: seq<T>, b: seq<T>)
    ensures [] + a == a && [] + b == b
  {
  }

  lemma ListedNone()
    ensures Listed([]) == [] && Items(RowsJson([])) == []
  {
  }

  lemma {:induction false} ListedAppend(rows: seq<Row>, row: Row)
    ensures Listed(rows + [row]) == Listed(rows) + Comma(|rows|) + Stringify(RowJson(row))
  {
    hide Ascii, RowJson, Stringify;
    if rows == [] {
      assert rows + [row] == [row];
    } else {
      assert (rows + [row])[0] == rows[0] && (rows + [row])[1..] == rows[1..] + [row];
      ListedAppend(rows[1..], row);
      var r := Stringify(RowJson(rows[0]));
      if |rows| == 1 {
        assert rows[1..] == [];
      } else {
        ListGlue(r, Ascii(","), Listed(rows[1..]), Ascii(","), Stringify(RowJson(row)));
      }
    }
  }

  lemma ListGlue<T>(r: seq<T>, c: seq<T>, l: seq<T>, d: seq<T>, s: seq<T>)
    ensures r + c + (l + d + s) == r + c + l + d + s
  {
  }

  /** A list of rows closed by a bracket can be read off too. */
  lemma {:induction false} ListedFree(a: seq<Row>, x: Text, b: seq<Row>, y: Text)
    requires Listed(a) + Ascii("]") + x == Listed(b) + Ascii("]") + y
    ensures a == b && x == y
  {
    hide Ascii, RowJson, Stringify, Listed;
    FirstChars();
    ListedParts(a, x);
    ListedParts(b, y);
    assert a == [] <==> b == [];
    if a == [] {
      SameFront(Ascii("]"), x, y);
    } else {
      RowFrontFree(a[0], AfterFirst(a, x), b[0], AfterFirst(b, y));
      AfterFirstChar(a, x);
      AfterFirstChar(b, y);
      assert |a| == 1 <==> |b| == 1;
      if |a| > 1 {
        SameFront(Ascii(","), Listed(a[1..]) + Ascii("]") + x, Listed(b[1..]) + Ascii("]") + y);
        ListedFree(a[1..], x, b[1..], y);
        assert a == [a[0]] + a[1..] && b == [b[0]] + b[1..];
      } else {
        SameFront(Ascii("]"), x, y);
      }
    }
  }

  lemma AfterFirstChar(rows: seq<Row>, x: Text)
    requires rows != []
    ensures AfterFirst(rows, x) != [] && AfterFirst(rows, x)[0] == if |rows| == 1 then 0x5D else 0x2C
  {
    FirstChars();
    hide Ascii, Listed;
  }

  ghost function AfterFirst(rows: seq<Row>, x: Text): Text
    requires rows != []
  {
    if |rows| == 1 then Ascii("]") + x else Ascii(",") + (Listed(rows[1..]) + Ascii("]") + x)
  }

  lemma ListedParts(rows: seq<Row>, x: Text)
    ensures rows == [] ==> Listed(rows) + Ascii("]") + x == Ascii("]") + x && (Ascii("]") + x)[0] == 0x5D
    ensures rows != [] ==> Listed(rows) + Ascii("]") + x == Stringify(RowJson(rows[0])) + AfterFirst(rows, x)
    ensures rows != [] ==> Stringify(RowJson(rows[0])) != [] && Stringify(RowJson(rows[0]))[0] == 0x7B
  {
    FirstChars();
    hide Ascii, RowJson, Stringify;
    if rows != [] {
      RowStarts(rows[0]);
      var r := Stringify(RowJson(rows[0]));
      if |rows| == 1 {
        Regroup(r, Ascii("]"), x);
      } else {
        PartsGlue(r, Ascii(","), Listed(rows[1..]), Ascii("]"), x);
      }
    }
  }

  lemma PartsGlue<T>(r: seq<T>, c: seq<T>, l: seq<T>, b: seq<T>, x: seq<T>)
    ensures r + c + l + b + x == r + (c + (l + b + x))
  {
  }

  lemma RowStarts(row: Row)
    ensures Stringify(RowJson(row)) != [] && Stringify(RowJson(row))[0] == 0x7B
  {
    FirstChars();
  }

  /** The core text determines the rows, composerData and the composer id. */
  lemma CoreTextDetermines(idA: Text, headerA: Header, dataA: Row, rowsA: seq<Row>, idB: Text, headerB: Header,
                           dataB: Row, rowsB: seq<Row>)
    requires CoreText(idA, headerA, dataA, rowsA) == CoreText(idB, headerB, dataB, rowsB)
    ensures idA == idB && dataA == dataB && rowsA == rowsB
  {
    CoreTextIs(idA, headerA, dataA, rowsA);
    CoreTextIs(idB, headerB, dataB, rowsB);
    ItemsListed(rowsA);
    ItemsListed(rowsB);
    hide CoreText, CoreOpen, CoreEnd, HeaderText, Ascii, Label, Quote, Stringify, RowJson, Listed, Items, RowsJson;
    var named := Ascii(",") + Label("composerData");
    var rowA, rowB := Stringify(RowJson(dataA)), Stringify(RowJson(dataB));
    var tailA, tailB := CoreTail(idA, headerA), CoreTail(idB, headerB);
    CoreSplit(CoreOpen(), Listed(rowsA), Ascii("]"), named, rowA, tailA);
    CoreSplit(CoreOpen(), Listed(rowsB), Ascii("]"), named, rowB, tailB);
    SameFront(CoreOpen(), Listed(rowsA) + Ascii("]") + (named + (rowA + tailA)),
              Listed(rowsB) + Ascii("]") + (named + (rowB + tailB)));
    ListedFree(rowsA, named + (rowA + tailA), rowsB, named + (rowB + tailB));
    SameFront(named, rowA + tailA, rowB + tailB);
    RowFrontFree(dataA, tailA, dataB, tailB);
    var comma := Ascii(",") + Label("composerId");
    var endA := Ascii(",") + Label("header") + HeaderText(headerA) + CoreEnd();
    var endB := Ascii(",") + Label("header") + HeaderText(headerB) + CoreEnd();
    TailSplit(comma, Quote(idA), Ascii(",") + Label("header"), HeaderText(headerA), CoreEnd());
    TailSplit(comma, Quote(idB), Ascii(",") + Label("header"), HeaderText(headerB), CoreEnd());
    SameFront(comma, Quote(idA) + endA, Quote(idB) + endB);
    QuoteFront(idA, endA, idB, endB);
  }

  lemma CoreSplit<T>(a: seq<T>, b: seq<T>, c: seq<T>, d: seq<T>, e: seq<T>, f: seq<T>)
    ensures a + b + (c + d) + e + f == a + (b + c + (d + (e + f)))
  {
  }

  lemma TailSplit<T>(a: seq<T>, b: seq<T>, c: seq<T>, d: seq<T>, e: seq<T>)
    ensures a + b + c + d + e == a + (b + (c + d + e))
  {
  }

  // ----- A row as it is written -----

  lemma AsciiJoin(a: string, b: string)
    ensures Ascii(a + b) == Ascii(a) + Ascii(b)
  {
  }

  lemma AsciiAt(s: string, i: nat)
    requires i < |s| && s[i] < 128 as char
    ensures |Ascii(s)| == |s| && Ascii(s)[i] == s[i] as int
  {
  }

  /** A label and the quotes around it, in one piece. */
  lemma LabelLetters(front: string, name: string, back: string)
    ensures Ascii(front) + Label(name) + Ascii(back) == Ascii(front + "\"" + name + "\":" + back)
  {
    AsciiJoin(front, "\"");
    AsciiJoin(front + "\"", name);
    AsciiJoin(front + "\"" + name, "\":");
    AsciiJoin(front + "\"" + name + "\":", back);
    JoinFive(Ascii(front), Ascii("\""), Ascii(name), Ascii("\":"), Ascii(back));
  }

  lemma JoinFive<T>(a: seq<T>, b: seq<T>, c: seq<T>, d: seq<T>, e: seq<T>)
    ensures a + (b + c + d) + e == a + b + c + d + e
  {
  }

  /** A row with a plain key and value as it is written, letter by letter. */
  lemma RowPrints(row: Row)
    requires Plain(row.key) && Plain(row.valueBase64)
    ensures Stringify(RowJson(row)) ==
            Ascii("{\"key\":\"") + row.key + Ascii("\",\"valueBase64\":\"") + row.valueBase64 + Ascii("\"")
            + RowEnding(row.valueType)
  {
    hide Stringify, QuoteBody, Ascii, Label, TypePart;
    RowTextIs(row);
    PlainBody(row.key);
    PlainBody(row.valueBase64);
    QuotedPlain(row.key);
    QuotedPlain(row.valueBase64);
    QuoteIs();
    LabelLetters("{", "key", "\"");
    LabelLetters("\",", "valueBase64", "\"");
    assert "{" + "\"" + "key" + "\":" + "\"" == "{\"key\":\"";
    assert "\"," + "\"" + "valueBase64" + "\":" + "\"" == "\",\"valueBase64\":\"";
    AsciiJoin("\"", ",");
    assert "\"" + "," == "\",";
    EndingPrints(row);
    RowGlue(Ascii("{"), Label("key"), Ascii("\""), row.key, Ascii(","), Label("valueBase64"), row.valueBase64,
            TypePart(row), Ascii("}"));
  }

  lemma RowGlue<T>(a: seq<T>, b: seq<T>, q: seq<T>, k: seq<T>, c: seq<T>, d: seq<T>, v: seq<T>, e: seq<T>, f: seq<T>)
    ensures a + b + (q + k + q) + c + d + (q + v + q) + e + f == (a + b + q) + k + (q + c + d + q) + v + q + (e + f)
  {
    var front := a + b + q + k + q + c + d + q + v + q;
    assert a + b + (q + k + q) + c + d + (q + v + q) == front;
    assert (a + b + q) + k + (q + c + d + q) + v + q == front;
  }

  /** How a row ends after the value, by its storage class. */
  function RowEnding(c: Option<StorageClass>): Text {
    match c
    case None => Ascii("}")
    case Some(TextClass) => Ascii(",\"valueType\":\"text\"}")
    case Some(BlobClass) => Ascii(",\"valueType\":\"blob\"}")
    case Some(NullClass) => Ascii(",\"valueType\":\"null\"}")
    case Some(OtherClass) => Ascii(",\"valueType\":\"other\"}")
  }

  lemma EndingPrints(row: Row)
    ensures TypePart(row) + Ascii("}") == RowEnding(row.valueType)
  {
    hide Quote, Ascii, Label;
    if row.valueType.Some? {
      var name := ClassName(row.valueType.value);
      ClassPlain(row.valueType.value);
      PlainBody(Ascii(name));
      QuotedPlain(Ascii(name));
      QuoteIs();
      LabelLetters(",", "valueType", "\"");
      AsciiJoin("," + "\"" + "valueType" + "\":" + "\"", name);
      AsciiJoin("," + "\"" + "valueType" + "\":" + "\"" + name, "\"");
      AsciiJoin("," + "\"" + "valueType" + "\":" + "\"" + name + "\"", "}");
      JoinEnding(Ascii(","), Label("valueType"), Ascii("\""), Ascii(name), Ascii("}"));
      EndingLiteral(row.valueType.value);
    }
  }

  lemma JoinEnding<T>(a: seq<T>, b: seq<T>, q: seq<T>, n: seq<T>, e: seq<T>)
    ensures a + b + (q + n + q) + e == a + b + q + n + q + e
  {
  }

  lemma EndingLiteral(c: StorageClass)
    ensures Ascii("," + "\"" + "valueType" + "\":" + "\"" + ClassName(c) + "\"" + "}") == RowEnding(Some(c))
  {
    hide Ascii;
    assert "," + "\"" + "valueType" + "\":" + "\"" == ",\"valueType\":\"";
    match c
    case TextClass => assert ",\"valueType\":\"" + "text" + "\"" + "}" == ",\"valueType\":\"text\"}";
    case BlobClass => assert ",\"valueType\":\"" + "blob" + "\"" + "}" == ",\"valueType\":\"blob\"}";
    case NullClass => assert ",\"valueType\":\"" + "null" + "\"" + "}" == ",\"valueType\":\"null\"}";
    case OtherClass => assert ",\"valueType\":\"" + "other" + "\"" + "}" == ",\"valueType\":\"other\"}";
  }

  lemma ClassPlain(c: StorageClass)
    ensures Plain(Ascii(ClassName(c)))
  {
  }
}
