/** The parser of portable chat snapshots, src/chat/stateVscdb.ts, on text that
    canonicalBytes printed: which fields it accepts, and how much structure. */
module Reparse {
  import opened Basics
  import opened Portable
  import opened Canonical
  import opened Bubbles
  import opened RepairBudget
  import opened RepairScan
  import ChatMerge
  import Chunks
  import Lengths
  import Base64

  const MAX_ROWS := 250_000

  // ----- Fields -----

  predicate IsHex(u: CodeUnit) {
    0x30 <= u <= 0x39 || 0x41 <= u <= 0x46 || 0x61 <= u <= 0x66
  }

  /** Hexadecimal groups of 8, 4, 4, 4 and 12, in either case. */
  predicate IsUuid(t: Text) {
    && |t| == 36
    && forall i :: 0 <= i < 36 ==> if i == 8 || i == 13 || i == 18 || i == 23 then t[i] == 0x2D else IsHex(t[i])
  }

  predicate RowOk(row: Row) {
    Base64.IsCanonical(row.valueBase64) && row.valueType != Some(OtherClass)
  }

  predicate IsBubbleOf(composerId: Text, row: Row) {
    RowOk(row) && ChatMerge.BubblePrefix(composerId) < row.key
  }

  /** What the parser asks of the fields, however the text is structured. */
  ghost predicate FieldsOk(c: Codec, s: ChatSnapshot) {
    && IsUuid(s.composerId) && s.header.composerId == s.composerId
    && s.composerData.key == Ascii("composerData:") + s.composerId && RowOk(s.composerData)
    && |s.bubbles| <= MAX_ROWS
    && (forall row :: row in s.bubbles ==> IsBubbleOf(s.composerId, row))
    && DistinctKeys(s.bubbles)
    && (s.agentKv.Some? ==> ValidPayload(c, s.agentKv.value))
  }

  /** The printed snapshot stays within the structural limits. */
  ghost predicate AllHex(t: Text) {
    forall i :: 0 <= i < |t| ==> IsHex(t[i])
  }

  /** Hexadecimal digits of n, then a dash, then the rest. */
  ghost predicate Dashed(t: Text, n: nat, rest: Text) {
    exists digits :: |digits| == n && AllHex(digits) && t == digits + Ascii("-") + rest
  }

  /** A UUID is five groups of hexadecimal digits between dashes, of 8, 4, 4, 4 and
      12 digits. */
  lemma UuidIs(t: Text)
    ensures IsUuid(t) <==>
            exists a, b, c, d ::
              Dashed(t, 8, a) && Dashed(a, 4, b) && Dashed(b, 4, c) && Dashed(c, 4, d) && |d| == 12 && AllHex(d)
  {
    hide AllHex;
    if IsUuid(t) {
      UuidGroups(t);
    }
    if a, b, c, d :|
      Dashed(t, 8, a) && Dashed(a, 4, b) && Dashed(b, 4, c) && Dashed(c, 4, d) && |d| == 12 && AllHex(d)
    {
      DashedAt(t, 8, a);
      DashedAt(a, 4, b);
      DashedAt(b, 4, c);
      DashedAt(c, 4, d);
      UuidDigits(t);
    }
  }

  lemma DashedAt(t: Text, n: nat, rest: Text)
    ensures Dashed(t, n, rest) <==>
              |t| == n + 1 + |rest| && AllHex(t[..n]) && t[n] == 0x2D && t[n + 1..] == rest
  {
    if |t| == n + 1 + |rest| && AllHex(t[..n]) && t[n] == 0x2D && t[n + 1..] == rest {
      assert t == t[..n] + Ascii("-") + rest;
    }
    if digits :| |digits| == n && AllHex(digits) && t == digits + Ascii("-") + rest {
      assert t[..n] == digits && t[n + 1..] == rest && t[n] == Ascii("-")[0];
    }
  }

  lemma UuidGroups(t: Text)
    requires IsUuid(t)
    ensures Dashed(t, 8, t[9..]) && Dashed(t[9..], 4, t[14..]) && Dashed(t[14..], 4, t[19..])
    ensures Dashed(t[19..], 4, t[24..]) && |t[24..]| == 12 && AllHex(t[24..])
  {
    DashedAt(t, 8, t[9..]);
    DashedAt(t[9..], 4, t[14..]);
    DashedAt(t[14..], 4, t[19..]);
    DashedAt(t[19..], 4, t[24..]);
    assert t[9..][5..] == t[14..] && t[14..][5..] == t[19..] && t[19..][5..] == t[24..];
  }

  lemma UuidDigits(t: Text)
    requires |t| == 36 && AllHex(t[..8]) && AllHex(t[9..][..4]) && AllHex(t[9..][5..][..4])
    requires AllHex(t[9..][5..][5..][..4]) && AllHex(t[9..][5..][5..][5..])
    requires t[8] == 0x2D && t[9..][4] == 0x2D && t[9..][5..][4] == 0x2D && t[9..][5..][5..][4] == 0x2D
    ensures IsUuid(t)
  {
    assert t[9..][5..] == t[14..] && t[14..][5..] == t[19..] && t[19..][5..] == t[24..];
    forall i | 0 <= i < 36 && i != 8 && i != 13 && i != 18 && i != 23 ensures IsHex(t[i]) {
      if i < 8 {
        assert t[i] == t[..8][i];
      } else if i < 13 {
        assert t[i] == t[9..][..4][i - 9];
      } else if i < 18 {
        assert t[i] == t[14..][..4][i - 14];
      } else if i < 23 {
        assert t[i] == t[19..][..4][i - 19];
      } else {
        assert t[i] == t[24..][i - 24];
      }
    }
  }

  const HEX_DIGITS := "0123456789ABCDEFabcdef"

  lemma HexIs(u: CodeUnit)
    ensures IsHex(u) <==> exists j :: 0 <= j < |HEX_DIGITS| && HEX_DIGITS[j] as int == u
  {
    var at := if u <= 0x39 then u - 0x30 else if u <= 0x46 then u - 0x41 + 10 else u - 0x61 + 16;
    if 0 <= at < |HEX_DIGITS| {
      assert HEX_DIGITS[at] as int == u || HEX_DIGITS[at] as int != u;
    }
  }

  /** A composerData or message row is some bytes under a storage class of SQLite. */
  lemma RowOkMeans(row: Row)
    ensures RowOk(row) <==>
            row.valueType != Some(OtherClass) && exists bytes :: row.valueBase64 == Base64.Encode(bytes)
  {
    if Base64.IsCanonical(row.valueBase64) {
      assert row.valueBase64 == Base64.Encode(Base64.Decode(row.valueBase64));
    }
    if bytes :| row.valueBase64 == Base64.Encode(bytes) {
      Base64.EncodeIsCanonical(bytes);
    }
  }

  /** What the parser accepts is parsed in the sense of the merge. */
  lemma ParsedForMerge(c: Codec, s: ChatSnapshot)
    requires FieldsOk(c, s) && HeaderOk(s.header)
    ensures ChatMerge.IsParsed(c, s)
  {
    hide ValidPayload, IsUuid;
  }

  predicate StructureOk(s: ChatSnapshot) {
    var scan := Structure(Stringify(Lengths.SnapshotJson(s)));
    scan.shape == Fits && scan.tokens <= MAX_STRUCTURAL_TOKENS
  }

  ghost predicate Parses(c: Codec, s: ChatSnapshot) {
    StructureOk(s) && FieldsOk(c, s)
  }

  // ----- The structure of a printed snapshot -----

  /** Numbers print without quotes, brackets, commas and colons. */
  predicate NumberInert(n: Option<Num>) {
    n.Some? ==> Inert(n.value.text)
  }

  predicate HeaderInert(h: Header) {
    && NumberInert(h.createdAt) && NumberInert(h.lastUpdatedAt) && NumberInert(h.isArchived)
    && NumberInert(h.isSubagent) && NumberInert(h.recency) && NumberInert(h.checkpointAt)
  }

  function RowTokens(row: Row): nat {
    if row.valueType.Some? then 7 else 5
  }

  /** Tokens of an array of rows, brackets aside. */
  function RowsTokens(rows: seq<Row>): nat {
    if rows == [] then 0
    else RowsTokens(rows[..|rows| - 1]) + Separators(|rows| - 1) + RowTokens(rows[|rows| - 1])
  }

  function CommasOf(n: nat): nat {
    if n == 0 then 0 else n - 1
  }

  function KvTokens(kv: AgentKv): nat {
    13 + RowsTokens(kv.blobs) + CommasOf(|kv.missingIds|) + CommasOf(|kv.referencedIds|)
  }

  /** Tokens of the whole; a message costs five or seven and a comma. */
  function Tokens(s: ChatSnapshot): nat {
    33 + RowsTokens(s.bubbles) + RowTokens(s.composerData)
    + if s.agentKv.Some? then 2 + KvTokens(s.agentKv.value) else 0
  }

  predicate Flat(v: Json) {
    !v.Array? && !v.Object?
  }

  lemma {:induction false} FlatMembers(members: seq<Member>)
    requires forall m :: m in members ==> Flat(m.value)
    ensures DepthOfMembers(members) == 0 && PunctuationOfMembers(members) == |members| + CommasOf(|members|)
  {
    if members != [] {
      FlatMembers(members[..|members| - 1]);
      assert members[|members| - 1] in members;
    }
  }

  lemma {:induction false} FlatItems(items: seq<Json>)
    requires forall item :: item in items ==> Flat(item)
    ensures DepthOfItems(items) == 0 && PunctuationOfItems(items) == CommasOf(|items|)
  {
    if items != [] {
      FlatItems(items[..|items| - 1]);
      assert items[|items| - 1] in items;
    }
  }

  lemma AppendMember(members: seq<Member>, m: Member)
    ensures DepthOfMembers(members + [m]) == Max(DepthOfMembers(members), Depth(m.value))
    ensures PunctuationOfMembers(members + [m]) ==
            PunctuationOfMembers(members) + Separators(|members|) + 1 + Punctuation(m.value)
  {
    hide Depth, Punctuation;
    assert (members + [m])[..|members|] == members;
  }

  lemma NoMembers()
    ensures DepthOfMembers([]) == 0 && PunctuationOfMembers([]) == 0
  {
  }

  lemma RowStructure(row: Row)
    ensures Depth(RowJson(row)) == 1 && Punctuation(RowJson(row)) == RowTokens(row)
  {
    FlatMembers(RowJson(row).members);
  }

  lemma {:induction false} RowsStructure(rows: seq<Row>)
    ensures DepthOfItems(RowsJson(rows)) == (if rows == [] then 0 else 1)
    ensures PunctuationOfItems(RowsJson(rows)) == RowsTokens(rows)
  {
    hide Depth, Punctuation, RowJson, RowTokens;
    if rows != [] {
      var n := |rows| - 1;
      RowsStructure(rows[..n]);
      RowStructure(rows[n]);
      assert RowsJson(rows)[..n] == RowsJson(rows[..n]);
    }
  }

  lemma IdsStructure(ids: seq<Text>)
    ensures Depth(Array(Lengths.IdsJson(ids))) == 1 && Punctuation(Array(Lengths.IdsJson(ids))) == 2 + CommasOf(|ids|)
  {
    FlatItems(Lengths.IdsJson(ids));
  }

  lemma HeaderStructure(h: Header)
    ensures Depth(Object(HeaderMembers(h))) == 1 && Punctuation(Object(HeaderMembers(h))) == 19
  {
    FlatMembers(HeaderMembers(h));
  }

  lemma KvStructure(kv: AgentKv)
    ensures Depth(Lengths.KvJson(kv)) <= 3 && Punctuation(Lengths.KvJson(kv)) == KvTokens(kv)
  {
    hide RowsJson, Lengths.IdsJson, RowsTokens, DepthOfMembers, PunctuationOfMembers, DepthOfItems, PunctuationOfItems;
    var first := Member("blobs", Array(RowsJson(kv.blobs)));
    var second := Member("missingIds", Array(Lengths.IdsJson(kv.missingIds)));
    var third := Member("referencedIds", Array(Lengths.IdsJson(kv.referencedIds)));
    RowsStructure(kv.blobs);
    IdsStructure(kv.missingIds);
    IdsStructure(kv.referencedIds);
    NoMembers();
    AppendMember([], first);
    AppendMember([] + [first], second);
    AppendMember([] + [first] + [second], third);
    assert [] + [first] + [second] + [third] == Lengths.KvJson(kv).members;
  }

  /** The members common to both schemas, in order, after those given. */
  lemma CoreStructure(before: seq<Member>, s: ChatSnapshot, schema: Json)
    requires Flat(schema)
    ensures var members := before
              + [Member("bubbles", Array(RowsJson(s.bubbles))), Member("composerData", RowJson(s.composerData)),
                 Member("composerId", String(s.composerId)), Member("header", Object(HeaderMembers(s.header))),
                 Member("schemaVersion", schema)];
            && DepthOfMembers(members) <= Max(DepthOfMembers(before), 2)
            && PunctuationOfMembers(members) == PunctuationOfMembers(before) + Separators(|before|)
                 + 30 + RowsTokens(s.bubbles) + RowTokens(s.composerData)
  {
    hide RowsJson, RowJson, HeaderMembers, RowsTokens, RowTokens, DepthOfMembers, PunctuationOfMembers, DepthOfItems;
    hide PunctuationOfItems;
    var first, second := Member("bubbles", Array(RowsJson(s.bubbles))), Member("composerData", RowJson(s.composerData));
    var third, fourth := Member("composerId", String(s.composerId)), Member("header", Object(HeaderMembers(s.header)));
    var fifth := Member("schemaVersion", schema);
    RowsStructure(s.bubbles);
    RowStructure(s.composerData);
    HeaderStructure(s.header);
    AppendMember(before, first);
    AppendMember(before + [first], second);
    AppendMember(before + [first] + [second], third);
    AppendMember(before + [first] + [second] + [third], fourth);
    AppendMember(before + [first] + [second] + [third] + [fourth], fifth);
    Five(before, first, second, third, fourth, fifth);
  }

  lemma Five<T>(before: seq<T>, a: T, b: T, c: T, d: T, e: T)
    ensures before + [a] + [b] + [c] + [d] + [e] == before + [a, b, c, d, e]
  {
  }

  lemma SnapshotStructure(s: ChatSnapshot)
    ensures Depth(Lengths.SnapshotJson(s)) <= 4
    ensures 1 + Punctuation(Lengths.SnapshotJson(s)) == Tokens(s)
  {
    hide RowsJson, RowJson, HeaderMembers, RowsTokens, RowTokens, DepthOfMembers, PunctuationOfMembers, Lengths.KvJson;
    hide KvTokens;
    NoMembers();
    var v := Lengths.SnapshotJson(s);
    if s.agentKv.Some? {
      var kv := Member("agentKv", Lengths.KvJson(s.agentKv.value));
      KvStructure(s.agentKv.value);
      AppendMember([], kv);
      assert [] + [kv] == [kv];
      CoreStructure([kv], s, Number(Ascii("2")));
      assert v.members == [kv] + v.members[1..];
    } else {
      CoreStructure([], s, Number(Ascii("1")));
      assert v.members == [] + v.members;
    }
  }

  predicate MemberPrintable(m: Member) {
    Plain(Ascii(m.name)) && Printable(m.value)
  }

  lemma OneMember(name: string, value: Json)
    requires forall i :: 0 <= i < |name| ==> '0' <= name[i] <= 'z' && name[i] != '\\'
    requires Printable(value)
    ensures MemberPrintable(Member(name, value))
  {
  }

  lemma AllMembers(members: seq<Member>)
    requires forall i :: 0 <= i < |members| ==> MemberPrintable(members[i])
    ensures Printable(Object(members))
  {
    hide Plain, Ascii;
    forall m | m in members ensures Plain(Ascii(m.name)) && Printable(m.value) {
      var i :| 0 <= i < |members| && members[i] == m;
    }
  }

  lemma RowPrintable(row: Row)
    ensures Printable(RowJson(row))
  {
    var members := RowJson(row).members;
    OneMember("key", String(row.key));
    OneMember("valueBase64", String(row.valueBase64));
    if row.valueType.Some? {
      OneMember("valueType", String(Ascii(ClassName(row.valueType.value))));
    }
    hide MemberPrintable, Printable;
    AllMembers(members);
  }

  lemma RowsPrintable(rows: seq<Row>)
    ensures Printable(Array(RowsJson(rows)))
  {
    hide RowJson;
    forall item | item in RowsJson(rows) ensures Printable(item) {
      var i :| 0 <= i < |rows| && RowsJson(rows)[i] == item;
      RowPrintable(rows[i]);
    }
  }

  lemma NumberMember(name: string, n: Option<Num>)
    requires NumberInert(n) && forall i :: 0 <= i < |name| ==> '0' <= name[i] <= 'z' && name[i] != '\\'
    ensures MemberPrintable(Member(name, NumberJson(n)))
  {
    hide MemberPrintable, Inert;
    OneMember(name, NumberJson(n));
  }

  lemma TextMember(name: string, t: Option<Text>)
    requires forall i :: 0 <= i < |name| ==> '0' <= name[i] <= 'z' && name[i] != '\\'
    ensures MemberPrintable(Member(name, TextJson(t)))
  {
    hide MemberPrintable;
    OneMember(name, TextJson(t));
  }

  lemma HeaderPrintable(h: Header)
    requires HeaderInert(h)
    ensures Printable(Object(HeaderMembers(h)))
  {
    hide MemberPrintable, NumberInert, NumberJson, TextJson, Printable;
    NumberMember("checkpointAt", h.checkpointAt);
    TextMember("composerId", Some(h.composerId));
    assert TextJson(Some(h.composerId)) == String(h.composerId) by { SomeText(h.composerId); }
    NumberMember("createdAt", h.createdAt);
    NumberMember("isArchived", h.isArchived);
    NumberMember("isSubagent", h.isSubagent);
    NumberMember("lastUpdatedAt", h.lastUpdatedAt);
    NumberMember("recency", h.recency);
    TextMember("value", h.value);
    TextMember("workspaceId", h.workspaceId);
    AllMembers(HeaderMembers(h));
  }

  lemma SomeText(t: Text)
    ensures TextJson(Some(t)) == String(t)
  {
  }

  lemma KvPrintable(kv: AgentKv)
    ensures Printable(Lengths.KvJson(kv))
  {
    RowsPrintable(kv.blobs);
    IdsPrintable(kv.missingIds);
    IdsPrintable(kv.referencedIds);
    hide MemberPrintable, Printable, RowsJson, Lengths.IdsJson;
    OneMember("blobs", Array(RowsJson(kv.blobs)));
    OneMember("missingIds", Array(Lengths.IdsJson(kv.missingIds)));
    OneMember("referencedIds", Array(Lengths.IdsJson(kv.referencedIds)));
    AllMembers(Lengths.KvJson(kv).members);
  }

  lemma IdsPrintable(ids: seq<Text>)
    ensures Printable(Array(Lengths.IdsJson(ids)))
  {
  }

  lemma FlatPrintable(v: Json)
    requires v.String? || (v.Number? && Inert(v.text))
    ensures Printable(v)
  {
  }

  lemma SnapshotPrintable(s: ChatSnapshot)
    requires HeaderInert(s.header)
    ensures Printable(Lengths.SnapshotJson(s))
  {
    hide MemberPrintable, Printable, RowsJson, RowJson, HeaderMembers, Lengths.KvJson, HeaderInert, Inert, Ascii;
    RowsPrintable(s.bubbles);
    OneMember("bubbles", Array(RowsJson(s.bubbles)));
    RowPrintable(s.composerData);
    OneMember("composerData", RowJson(s.composerData));
    FlatPrintable(String(s.composerId));
    OneMember("composerId", String(s.composerId));
    HeaderPrintable(s.header);
    OneMember("header", Object(HeaderMembers(s.header)));
    InertSchema();
    FlatPrintable(Number(Ascii("1")));
    FlatPrintable(Number(Ascii("2")));
    OneMember("schemaVersion", Number(Ascii("1")));
    OneMember("schemaVersion", Number(Ascii("2")));
    if s.agentKv.Some? {
      KvPrintable(s.agentKv.value);
      OneMember("agentKv", Lengths.KvJson(s.agentKv.value));
    }
    AllMembers(Lengths.SnapshotJson(s).members);
  }

  lemma InertSchema()
    ensures Inert(Ascii("1")) && Inert(Ascii("2"))
  {
    assert Ascii("1") == [0x31] && Ascii("2") == [0x32];
  }

  /** A printed snapshot nests too little to matter: its tokens alone decide. */
  lemma TokensExact(s: ChatSnapshot)
    requires HeaderInert(s.header)
    ensures Structure(Stringify(Lengths.SnapshotJson(s))) == Scan(Fits, Tokens(s))
    ensures StructureOk(s) <==> Tokens(s) <= MAX_STRUCTURAL_TOKENS
  {
    hide Structure, Stringify, Printable, Lengths.SnapshotJson, Tokens, HeaderInert;
    SnapshotPrintable(s);
    SnapshotStructure(s);
    StructureOfPrinted(Lengths.SnapshotJson(s));
  }

  lemma {:induction false} RowsTokensBound(rows: seq<Row>)
    ensures 6 * |rows| <= RowsTokens(rows) + 1
  {
    if rows != [] {
      RowsTokensBound(rows[..|rows| - 1]);
    }
  }

  /** However small they are, so many rows are refused. */
  lemma TooManyRows(c: Codec, s: ChatSnapshot)
    requires HeaderInert(s.header) && |s.bubbles| > 43_684
    ensures !Parses(c, s)
  {
    hide StructureOk, FieldsOk;
    TokensExact(s);
    RowsTokensBound(s.bubbles);
  }

  /** The row limit never strikes first. */
  lemma RowsWithinTokens(s: ChatSnapshot)
    requires Tokens(s) <= MAX_STRUCTURAL_TOKENS
    ensures |s.bubbles| <= MAX_ROWS
  {
    RowsTokensBound(s.bubbles);
  }

  // ----- The parts of a chunked chat -----

  const PART_STRUCTURAL_TOKENS := 65_536

  lemma {:induction false} RowsTokensAtMost(rows: seq<Row>)
    ensures RowsTokens(rows) <= 8 * |rows|
  {
    if rows != [] {
      RowsTokensAtMost(rows[..|rows| - 1]);
    }
  }

  lemma PartStructure(p: Chunks.PartContent)
    ensures Depth(Chunks.ContentJson(p)) <= 3 && Punctuation(Chunks.ContentJson(p)) == 11 + RowsTokens(p.rows)
    ensures Printable(Chunks.ContentJson(p))
  {
    hide RowsJson, RowsTokens, DepthOfMembers, PunctuationOfMembers, DepthOfItems, PunctuationOfItems, MemberPrintable;
    hide Printable, Ascii;
    var first := Member("composerId", String(p.composerId));
    var second := Member("kind", String(Ascii(Chunks.KindName(p.kind))));
    var third, fourth := Member("rows", Array(RowsJson(p.rows))), Member("schemaVersion", Number(Ascii("1")));
    RowsStructure(p.rows);
    NoMembers();
    AppendMember([], first);
    AppendMember([] + [first], second);
    AppendMember([] + [first] + [second], third);
    AppendMember([] + [first] + [second] + [third], fourth);
    assert [] + [first] + [second] + [third] + [fourth] == Chunks.ContentJson(p).members;
    RowsPrintable(p.rows);
    InertSchema();
    FlatPrintable(first.value);
    FlatPrintable(second.value);
    FlatPrintable(fourth.value);
    OneMember("composerId", first.value);
    OneMember("kind", second.value);
    OneMember("rows", third.value);
    OneMember("schemaVersion", fourth.value);
    AllMembers(Chunks.ContentJson(p).members);
  }

  /** A part of at most 512 rows stays far below the structural limits of a part. */
  lemma PartStructureFits(p: Chunks.PartContent)
    requires |p.rows| <= Chunks.MAX_CHUNK_ROWS
    ensures var scan := Structure(Stringify(Chunks.ContentJson(p)));
            scan.shape == Fits && scan.tokens <= PART_STRUCTURAL_TOKENS
  {
    hide Structure, Stringify, Printable, Depth, Punctuation, Chunks.ContentJson;
    PartStructure(p);
    RowsTokensAtMost(p.rows);
    StructureOfPrinted(Chunks.ContentJson(p));
  }

  // ----- The parser -----

  /** parsePortableChatSnapshot of what canonicalBytes prints of s. */
  method ParsePortableChatSnapshot(c: Codec, s: ChatSnapshot) returns (ok: bool)
    ensures ok <==> Parses(c, s)
  {
    hide Structure, Stringify, Lengths.SnapshotJson, IsUuid, IsBubbleOf, RowOk, ValidPayload, Ascii, Index;
    var scan := Structure(Stringify(Lengths.SnapshotJson(s)));
    if scan.shape != Fits || scan.tokens > MAX_STRUCTURAL_TOKENS {
      return false;
    }
    if !IsUuid(s.composerId) || s.header.composerId != s.composerId
       || s.composerData.key != Ascii("composerData:") + s.composerId || !RowOk(s.composerData) {
      return false;
    }
    if |s.bubbles| > MAX_ROWS {
      return false;
    }
    if exists row :: row in s.bubbles && !IsBubbleOf(s.composerId, row) {
      return false;
    }
    DistinctCount(s.bubbles);
    if |Elements(Keys(s.bubbles))| != |s.bubbles| {
      return false;
    }
    ok := true;
    if s.agentKv.Some? {
      ok := ValidatePayload(c, s.agentKv.value);
    }
  }

  /** As many keys as rows: no key twice. */
  lemma {:induction false} DistinctCount(rows: seq<Row>)
    ensures |Elements(Keys(rows))| <= |rows|
    ensures |Elements(Keys(rows))| == |rows| <==> DistinctKeys(rows)
  {
    if rows != [] {
      var init, last := rows[..|rows| - 1], rows[|rows| - 1];
      DistinctCount(init);
      KeysAppend(init, last);
      assert rows == init + [last];
      if last.key in Elements(Keys(init)) {
        var i :| 0 <= i < |init| && Keys(init)[i] == last.key;
        assert rows[i].key == rows[|rows| - 1].key;
        assert Elements(Keys(rows)) == Elements(Keys(init));
      } else {
        assert forall i :: 0 <= i < |init| ==> rows[i] == init[i] && Keys(init)[i] in Elements(Keys(init));
        assert DistinctKeys(rows) <==> DistinctKeys(init);
      }
    } else {
      assert Keys(rows) == [];
    }
  }

  lemma KeysAppend(init: seq<Row>, last: Row)
    ensures Elements(Keys(init + [last])) == Elements(Keys(init)) + {last.key}
  {
    assert Keys(init + [last]) == Keys(init) + [last.key];
  }
}
