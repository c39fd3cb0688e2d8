/** The length formulas for canonical chat JSON: the UTF-8 size of a snapshot
    computed without printing it, in src/chat/headerCanonical.ts,
    src/chat/chatMerge.ts and src/chat/stateVscdb.ts. */
module Lengths {
  import opened Basics
  import opened JsonString
  import opened Portable
  import opened Canonical
  import Base64

  /** Buffer.byteLength */
  function Bytes(t: Text): nat {
    |Utf8(t)|
  }

  lemma BytesJoin(a: Text, b: Text)
    requires WellFormed(b)
    ensures Bytes(a + b) == Bytes(a) + Bytes(b)
  {
    Utf8Append(a, b);
  }

  // ----- Sizes of JSON values -----

  /** Numbers are ASCII all through the value. */
  predicate Printable(v: Json) {
    match v
    case Number(text) => forall i :: 0 <= i < |text| ==> text[i] < 0x80
    case Array(items) => forall i :: 0 <= i < |items| ==> Printable(items[i])
    case Object(members) => forall i :: 0 <= i < |members| ==> Printable(members[i].value)
    case _ => true
  }

  function Size(v: Json): nat {
    match v
    case Null => 4
    case Number(text) => |text|
    case String(t) => Bytes(Quote(t))
    case Array(items) => 2 + ItemsSize(items)
    case Object(members) => 2 + MembersSize(members)
  }

  function ItemsSize(items: seq<Json>): nat {
    if items == [] then 0
    else ItemsSize(items[..|items| - 1]) + (if |items| > 1 then 1 else 0) + Size(items[|items| - 1])
  }

  function MembersSize(members: seq<Member>): nat {
    if members == [] then 0
    else
      var last := members[|members| - 1];
      MembersSize(members[..|members| - 1]) + (if |members| > 1 then 1 else 0) + |last.name| + 3 + Size(last.value)
  }

  lemma LiteralBytes(s: string)
    ensures Bytes(Ascii(s)) == |s| && Bytes(Label(s)) == |s| + 3
  {
    hide Utf8;
    AsciiBytes(Ascii(s));
    AsciiBytes(Label(s));
  }

  lemma Join4(a: Text, b: Text, c: Text, d: Text)
    requires WellFormed(a) && WellFormed(b) && WellFormed(c) && WellFormed(d)
    ensures WellFormed(a + b + c + d) && Bytes(a + b + c + d) == Bytes(a) + Bytes(b) + Bytes(c) + Bytes(d)
  {
    hide WellFormed, Bytes;
    JoinWellFormed(a, b);
    JoinWellFormed(a + b, c);
    JoinWellFormed(a + b + c, d);
    BytesJoin(a, b);
    BytesJoin(a + b, c);
    BytesJoin(a + b + c, d);
  }

  lemma Join3(a: Text, b: Text, c: Text)
    requires WellFormed(a) && WellFormed(b) && WellFormed(c)
    ensures WellFormed(a + b + c) && Bytes(a + b + c) == Bytes(a) + Bytes(b) + Bytes(c)
  {
    hide WellFormed, Bytes;
    JoinWellFormed(a, b);
    JoinWellFormed(a + b, c);
    BytesJoin(a, b);
    BytesJoin(a + b, c);
  }

  /** What is printed takes exactly its size, and splits no surrogate pair. */
  lemma {:induction false} SizeIs(v: Json)
    requires Printable(v)
    ensures Bytes(Stringify(v)) == Size(v) && WellFormed(Stringify(v))
    decreases v, 1
  {
    hide WellFormed, Bytes, Quote, Ascii, Items, Members;
    match v {
      case Null =>
        LiteralBytes("null");
        LiteralWellFormed("null");
      case Number(text) =>
        AsciiText(text);
      case String(t) =>
        QuoteWellFormed(t);
      case Array(items) =>
        ItemsSizeIs(items);
        LiteralBytes("[");
        LiteralBytes("]");
        LiteralWellFormed("[");
        LiteralWellFormed("]");
        Join3(Ascii("["), Items(items), Ascii("]"));
      case Object(members) =>
        MembersSizeIs(members);
        LiteralBytes("{");
        LiteralBytes("}");
        LiteralWellFormed("{");
        LiteralWellFormed("}");
        Join3(Ascii("{"), Members(members), Ascii("}"));
    }
  }

  lemma AsciiText(t: Text)
    requires forall i :: 0 <= i < |t| ==> t[i] < 0x80
    ensures Bytes(t) == |t| && WellFormed(t)
  {
    AsciiBytes(t);
    AsciiWellFormed(t);
  }

  lemma CommaSize(n: nat)
    ensures Bytes(Comma(n)) == (if n > 0 then 1 else 0) && WellFormed(Comma(n))
  {
    LiteralBytes(",");
    LiteralWellFormed(",");
    EmptyWellFormed();
  }

  lemma {:induction false} ItemsSizeIs(items: seq<Json>)
    requires forall i :: 0 <= i < |items| ==> Printable(items[i])
    ensures Bytes(Items(items)) == ItemsSize(items) && WellFormed(Items(items))
    decreases items, 0
  {
    hide WellFormed, Bytes, Comma, Stringify, Size;
    if items == [] {
      NoBytes();
    } else {
      var n := |items| - 1;
      ItemsSizeIs(items[..n]);
      SizeIs(items[n]);
      CommaSize(n);
      Join3(Items(items[..n]), Comma(n), Stringify(items[n]));
    }
  }

  lemma NoBytes()
    ensures Bytes([]) == 0 && WellFormed([])
  {
    EmptyWellFormed();
  }

  lemma {:induction false} MembersSizeIs(members: seq<Member>)
    requires forall i :: 0 <= i < |members| ==> Printable(members[i].value)
    ensures Bytes(Members(members)) == MembersSize(members) && WellFormed(Members(members))
    decreases members, 0
  {
    hide WellFormed, Bytes, Comma, Stringify, Size, Label;
    if members == [] {
      NoBytes();
    } else {
      var n := |members| - 1;
      MembersSizeIs(members[..n]);
      SizeIs(members[n].value);
      CommaSize(n);
      LiteralBytes(members[n].name);
      LiteralWellFormed(members[n].name);
      Join4(Members(members[..n]), Comma(n), Label(members[n].name), Stringify(members[n].value));
    }
  }

  // ----- Snapshots as JSON -----

  function IdsJson(ids: seq<Text>): seq<Json> {
    seq(|ids|, i requires 0 <= i < |ids| => String(ids[i]))
  }

  function KvJson(kv: AgentKv): Json {
    Object([Member("blobs", Array(RowsJson(kv.blobs))), Member("missingIds", Array(IdsJson(kv.missingIds))),
            Member("referencedIds", Array(IdsJson(kv.referencedIds)))])
  }

  /** The canonical value of a snapshot: canonicalBytes prints it. */
  function SnapshotJson(s: ChatSnapshot): Json {
    if s.agentKv == None then CoreJson(s.composerId, s.header, s.composerData, s.bubbles)
    else
      Object([Member("agentKv", KvJson(s.agentKv.value)), Member("bubbles", Array(RowsJson(s.bubbles))),
              Member("composerData", RowJson(s.composerData)), Member("composerId", String(s.composerId)),
              Member("header", Object(HeaderMembers(s.header))), Member("schemaVersion", Number(Ascii("2")))])
  }

  lemma RowPrintable(row: Row)
    ensures Printable(RowJson(row))
  {
  }

  lemma RowsPrintable(rows: seq<Row>)
    ensures Printable(Array(RowsJson(rows)))
  {
    hide RowJson;
    forall i | 0 <= i < |rows| ensures Printable(RowsJson(rows)[i]) {
      RowPrintable(rows[i]);
    }
  }

  lemma IdsPrintable(ids: seq<Text>)
    ensures Printable(Array(IdsJson(ids)))
  {
  }

  lemma HeaderPrintable(h: Header)
    requires HeaderOk(h)
    ensures Printable(Object(HeaderMembers(h)))
  {
    forall i | 0 <= i < 9 ensures Printable(HeaderMembers(h)[i].value) {
    }
  }

  lemma SnapshotPrintable(s: ChatSnapshot)
    requires HeaderOk(s.header)
    ensures Printable(SnapshotJson(s))
  {
    hide HeaderOk, HeaderMembers, RowsJson, RowJson, IdsJson;
    RowsPrintable(s.bubbles);
    RowPrintable(s.composerData);
    HeaderPrintable(s.header);
    assert Ascii("1")[0] == 0x31 && Ascii("2")[0] == 0x32;
    if s.agentKv.Some? {
      RowsPrintable(s.agentKv.value.blobs);
      IdsPrintable(s.agentKv.value.missingIds);
      IdsPrintable(s.agentKv.value.referencedIds);
      var members := SnapshotJson(s).members;
      forall i | 0 <= i < |members| ensures Printable(members[i].value) {
      }
    } else {
      var members := SnapshotJson(s).members;
      forall i | 0 <= i < |members| ensures Printable(members[i].value) {
      }
    }
  }

  // ----- The formulas -----

  method NumberOrNullByteLength(n: Option<Num>) returns (bytes: nat)
    requires NumberOk(n)
    ensures bytes == Size(NumberJson(n))
  {
    LiteralBytes("null");
    if n.Some? {
      AsciiText(n.value.text);
    }
    return Bytes(NumberText(n));
  }

  method NullableStringByteLength(t: Option<Text>) returns (bytes: nat)
    ensures bytes == Size(TextJson(t))
  {
    if t == None {
      return 4;
    }
    bytes := CanonicalJsonStringByteLength(t.value);
  }

  lemma MembersSizeTake(members: seq<Member>, k: nat)
    requires 0 < k <= |members|
    ensures MembersSize(members[..k]) ==
      MembersSize(members[..k - 1]) + (if k > 1 then 1 else 0) + |members[k - 1].name| + 3 + Size(members[k - 1].value)
  {
    assert members[..k][..k - 1] == members[..k - 1];
  }

  lemma MembersSizeNone(members: seq<Member>)
    ensures MembersSize(members[..0]) == 0 && members[..|members|] == members
  {
  }

  /** portableComposerHeaderCanonicalByteLength */
  method PortableComposerHeaderCanonicalByteLength(h: Header) returns (bytes: nat)
    requires HeaderOk(h)
    ensures bytes == Size(Object(HeaderMembers(h)))
  {
    hide Size, MembersSize;
    HeaderSize(h);
    var checkpointAt := NumberOrNullByteLength(h.checkpointAt);
    var composerId := CanonicalJsonStringByteLength(h.composerId);
    var createdAt := NumberOrNullByteLength(h.createdAt);
    var isArchived := NumberOrNullByteLength(h.isArchived);
    var isSubagent := NumberOrNullByteLength(h.isSubagent);
    var lastUpdatedAt := NumberOrNullByteLength(h.lastUpdatedAt);
    var recency := NumberOrNullByteLength(h.recency);
    var value := NullableStringByteLength(h.value);
    var workspaceId := NullableStringByteLength(h.workspaceId);
    bytes := |"{\"checkpointAt\":"| + checkpointAt + |",\"composerId\":"| + composerId + |",\"createdAt\":"| + createdAt
             + |",\"isArchived\":"| + isArchived + |",\"isSubagent\":"| + isSubagent + |",\"lastUpdatedAt\":"|
             + lastUpdatedAt
             + |",\"recency\":"| + recency + |",\"value\":"| + value + |",\"workspaceId\":"| + workspaceId + 1;
  }

  lemma HeaderSize(h: Header)
    ensures Size(Object(HeaderMembers(h))) ==
      16 + Size(NumberJson(h.checkpointAt)) + 14 + Bytes(Quote(h.composerId)) + 13 + Size(NumberJson(h.createdAt))
      + 14 + Size(NumberJson(h.isArchived)) + 14 + Size(NumberJson(h.isSubagent)) + 17
      + Size(NumberJson(h.lastUpdatedAt))
      + 11 + Size(NumberJson(h.recency)) + 9 + Size(TextJson(h.value)) + 15 + Size(TextJson(h.workspaceId)) + 1
  {
    hide Bytes, Quote, MembersSize, NumberJson, TextJson;
    var m := HeaderMembers(h);
    MembersSizeNone(m);
    MembersSizeTake(m, 1);
    MembersSizeTake(m, 2);
    MembersSizeTake(m, 3);
    MembersSizeTake(m, 4);
    MembersSizeTake(m, 5);
    MembersSizeTake(m, 6);
    MembersSizeTake(m, 7);
    MembersSizeTake(m, 8);
    MembersSizeTake(m, 9);
  }

  /** portableKvRowCanonicalByteLength: canonical Base64 is quoted as it is. */
  method PortableKvRowCanonicalByteLength(row: Row) returns (bytes: nat)
    requires Base64.IsText(row.valueBase64)
    ensures bytes == Size(RowJson(row))
  {
    hide Size, MembersSize, Bytes;
    RowSize(row);
    PlainSize(row.valueBase64);
    bytes := |"{\"key\":"|;
    var key := CanonicalJsonStringByteLength(row.key);
    bytes := bytes + key + |",\"valueBase64\":"| + |row.valueBase64| + 2;
    if row.valueType.Some? {
      var valueType := CanonicalJsonStringByteLength(Ascii(ClassName(row.valueType.value)));
      bytes := bytes + |",\"valueType\":"| + valueType;
    }
    BytesIs(row.key);
    if row.valueType.Some? {
      BytesIs(Ascii(ClassName(row.valueType.value)));
    }
    bytes := bytes + 1;
  }

  lemma BytesIs(t: Text)
    ensures Bytes(Quote(t)) == |Utf8(Quote(t))|
  {
  }

  lemma PlainSize(t: Text)
    requires Base64.IsText(t)
    ensures Bytes(Quote(t)) == |t| + 2
  {
    TextPlain(t);
    PlainBody(t);
    AsciiBytes(Quote(t));
  }

  function TypeSize(row: Row): nat {
    if row.valueType.Some? then 13 + Bytes(Quote(Ascii(ClassName(row.valueType.value)))) else 0
  }

  lemma RowSize(row: Row)
    ensures Size(RowJson(row)) == 7 + Bytes(Quote(row.key)) + 15 + Bytes(Quote(row.valueBase64)) + TypeSize(row) + 1
  {
    hide Bytes, Quote, MembersSize, ClassName, Ascii;
    var m := RowJson(row).members;
    MembersSizeNone(m);
    MembersSizeTake(m, 1);
    MembersSizeTake(m, 2);
    if row.valueType.Some? {
      MembersSizeTake(m, 3);
    }
  }

  /** portableKvRowByteLength: four characters for every started group of three
      bytes, without reading the value. */
  method PortableKvRowByteLength(key: Text, valueType: StorageClass, valueBytes: nat, ghost raw: RawRow)
    returns (bytes: nat)
    requires raw.key == key && raw.valueType == valueType && |raw.bytes| == valueBytes
    ensures bytes == Size(RowJson(StoredRow(raw)))
  {
    hide Size, MembersSize;
    RowSize(StoredRow(raw));
    Base64.EncodedLength(raw.bytes);
    Base64.DecodeEncode(raw.bytes);
    PlainSize(Base64.Encode(raw.bytes));
    return |"{\"key\":"| + Bytes(Quote(key)) + |",\"valueBase64\":\""| + 4 * ((valueBytes + 2) / 3)
           + |"\",\"valueType\":"| + Bytes(Quote(Ascii(ClassName(valueType)))) + |"}"|;
  }

  lemma RowsSizeStep(rows: seq<Row>, i: nat)
    requires i < |rows|
    ensures ItemsSize(RowsJson(rows[..i + 1])) ==
              ItemsSize(RowsJson(rows[..i])) + (if i > 0 then 1 else 0) + Size(RowJson(rows[i]))
  {
    hide Size, RowJson;
    assert RowsJson(rows[..i + 1])[..i] == RowsJson(rows[..i]);
  }

  lemma NoRows()
    ensures ItemsSize(RowsJson([])) == 0 && ItemsSize(IdsJson([])) == 0
  {
  }

  lemma CoreSize(composerId: Text, header: Header, composerData: Row, bubbles: seq<Row>)
    ensures Size(CoreJson(composerId, header, composerData, bubbles)) ==
      12 + ItemsSize(RowsJson(bubbles)) + 17 + Size(RowJson(composerData)) + 14 + Bytes(Quote(composerId))
      + 10 + Size(Object(HeaderMembers(header))) + 19
  {
    hide Bytes, Quote, MembersSize, ItemsSize, RowJson, RowsJson, HeaderMembers;
    var m := CoreJson(composerId, header, composerData, bubbles).members;
    MembersSizeNone(m);
    MembersSizeTake(m, 1);
    MembersSizeTake(m, 2);
    MembersSizeTake(m, 3);
    MembersSizeTake(m, 4);
    MembersSizeTake(m, 5);
  }

  /** portableChatCoreByteLength: the size of the streamed core, from the rows'
      keys, storage classes and lengths alone. */
  method PortableChatCoreByteLength(header: Header, composerData: RawRow, bubbles: seq<RawRow>) returns (bytes: nat)
    requires HeaderOk(header)
    ensures bytes == Bytes(CoreText(header.composerId, header, StoredRow(composerData), StoredRows(bubbles)))
  {
    hide Size, ItemsSize, StoredRow, RowJson, RowsJson, CoreText, HeaderMembers, HeaderOk, Bytes;
    ghost var rows := StoredRows(bubbles);
    NoRows();
    bytes := |"{\"bubbles\":["|;
    var bubbleCount := 0;
    for i := 0 to |bubbles|
      invariant bubbleCount == i && bytes == 12 + ItemsSize(RowsJson(rows[..i]))
    {
      if bubbleCount > 0 {
        bytes := bytes + 1;
      }
      RowsSizeStep(rows, i);
      var row := PortableKvRowByteLength(bubbles[i].key, bubbles[i].valueType, |bubbles[i].bytes|, bubbles[i]);
      bytes := bytes + row;
      bubbleCount := bubbleCount + 1;
    }
    assert rows[..|bubbles|] == rows;
    bytes := bytes + |"],\"composerData\":"|;
    var data := PortableKvRowByteLength(composerData.key, composerData.valueType, |composerData.bytes|, composerData);
    bytes := bytes + data + |",\"composerId\":"|;
    var id := CanonicalJsonStringByteLength(header.composerId);
    BytesIs(header.composerId);
    var head := PortableComposerHeaderCanonicalByteLength(header);
    bytes := bytes + id + |",\"header\":"| + head + |",\"schemaVersion\":1}"|;
    CoreSize(header.composerId, header, StoredRow(composerData), rows);
    CoreTextSize(header, StoredRow(composerData), rows);
  }

  lemma CoreTextSize(header: Header, composerData: Row, bubbles: seq<Row>)
    requires HeaderOk(header)
    ensures Bytes(CoreText(header.composerId, header, composerData, bubbles)) ==
              Size(CoreJson(header.composerId, header, composerData, bubbles))
  {
    hide Size, Bytes, Stringify, CoreJson, HeaderOk;
    SnapshotPrintable(ChatSnapshot(header.composerId, header, composerData, bubbles, None));
    SizeIs(CoreJson(header.composerId, header, composerData, bubbles));
  }
}
