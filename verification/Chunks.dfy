/** Packing a chat into bounded parts, src/chat/chunked.ts. */
module Chunks {
  import opened Basics
  import opened JsonString
  import opened Portable
  import opened Canonical
  import opened Lengths

  const CHUNK_BYTES := 8 * 1024 * 1024
  const MAX_TOTAL := 2 * 1024 * 1024 * 1024
  const MAX_ROWS := 250_000
  const MAX_PARTS := 4_096
  const MAX_CHUNK_ROWS := 512
  const RESERVE := 256

  datatype Kind = Core | Kv

  function KindName(k: Kind): string {
    if k == Core then "core" else "agent-kv"
  }

  /** What a part's content says. */
  datatype PartContent = PartContent(composerId: Text, kind: Kind, rows: seq<Row>)

  function ContentJson(p: PartContent): Json {
    Object([Member("composerId", String(p.composerId)), Member("kind", String(Ascii(KindName(p.kind)))),
            Member("rows", Array(RowsJson(p.rows))), Member("schemaVersion", Number(Ascii("1")))])
  }

  /** canonicalBytes of the part. */
  function PartBytes(p: PartContent): seq<byte> {
    Utf8(Stringify(ContentJson(p)))
  }

  /** An id of 36 hexadecimal digits and dashes. */
  predicate IsComposerId(t: Text) {
    |t| == 36
    && forall i :: 0 <= i < 36 ==> t[i] == 0x2D || 0x30 <= t[i] <= 0x39 || 0x41 <= t[i] <= 0x46 || 0x61 <= t[i] <= 0x66
  }

  // ----- Sizes -----

  /** A row with its separator. */
  function RowCost(row: Row): nat {
    Size(RowJson(row)) + 1
  }

  function RowsCost(rows: seq<Row>): nat {
    if rows == [] then 0 else RowsCost(rows[..|rows| - 1]) + RowCost(rows[|rows| - 1])
  }

  lemma {:induction false} RowsCostCovers(rows: seq<Row>)
    ensures ItemsSize(RowsJson(rows)) <= RowsCost(rows)
  {
    hide Size, RowJson;
    if rows == [] {
      NoRows();
    } else {
      RowsCostCovers(rows[..|rows| - 1]);
      RowsSizeStep(rows, |rows| - 1);
      assert rows[..|rows| - 1 + 1] == rows;
    }
  }

  lemma IdSize(t: Text)
    requires IsComposerId(t)
    ensures Size(String(t)) == 38
  {
    forall i | 0 <= i < |t| ensures 0x20 <= t[i] < 0x80 && t[i] != QUOTE && t[i] != BACKSLASH {
    }
    PlainBody(t);
    AsciiBytes(Quote(t));
  }

  lemma KindSize(k: Kind)
    ensures Size(String(Ascii(KindName(k)))) <= 10
  {
    KindPlain(k);
    PlainBody(Ascii(KindName(k)));
    AsciiBytes(Quote(Ascii(KindName(k))));
  }

  lemma KindPlain(k: Kind)
    ensures Plain(Ascii(KindName(k))) && |Ascii(KindName(k))| <= 8
  {
    var name := KindName(k);
    forall i | 0 <= i < |name|
      ensures 0x20 <= Ascii(name)[i] < 0x80 && Ascii(name)[i] != QUOTE && Ascii(name)[i] != BACKSLASH
    {
      assert name[i] in {'c', 'o', 'r', 'e', 'a', 'g', 'n', 't', '-', 'k', 'v'};
    }
  }

  /** The bytes of a row as it is written. */
  function RowBytesWritten(row: Row): nat {
    |Utf8(Stringify(RowJson(row)))|
  }

  /** A row costs what it takes in print and a comma. */
  lemma RowCostIs(row: Row)
    ensures RowCost(row) == RowBytesWritten(row) + 1
  {
    hide Utf8, Stringify, RowJson, Size;
    RowPrintable(row);
    SizeIs(RowJson(row));
  }

  /** There is no room for a row if the part, its 256 bytes in reserve, would exceed
      the limit or has 512 rows. */
  lemma NoRoomMeans(limit: nat, rows: seq<Row>, next: Row)
    ensures NoRoom(limit, rows, next) <==> |rows| >= 512 || 256 + RowsCost(rows) + RowBytesWritten(next) + 1 > limit
    ensures rows != [] ==>
              RowsCost(rows) == RowsCost(rows[..|rows| - 1]) + RowBytesWritten(rows[|rows| - 1]) + 1
    ensures RowsCost([]) == 0
  {
    hide RowCost, RowBytesWritten;
    RowCostIs(next);
    if rows != [] {
      RowCostIs(rows[|rows| - 1]);
    }
  }

  /** The parts are full if another would exceed 2 GiB together or there are 4096. */
  lemma FullMeans(parts: seq<Part>, next: PartContent)
    ensures Full(parts, next) <==>
            |parts| >= 4096 || PartsBytes(parts) + |Utf8(Stringify(ContentJson(next)))| > 0x8000_0000
  {
    hide Utf8, Stringify, ContentJson;
  }

  /** A part as it is written, letter by letter around its id and rows. */
  lemma PartPrints(p: PartContent)
    requires Plain(p.composerId)
    ensures Stringify(ContentJson(p)) ==
            Ascii("{\"composerId\":\"") + p.composerId
            + Ascii(if p.kind == Core then "\",\"kind\":\"core\",\"rows\":["
                    else "\",\"kind\":\"agent-kv\",\"rows\":[")
            + Items(RowsJson(p.rows)) + Ascii("],\"schemaVersion\":1}")
  {
    hide Ascii, Items, RowsJson, Quote, QuoteBody, KindName, Stringify, ContentJson, Label, Plain;
    PartMembers(p);
    PlainBody(p.composerId);
    QuotedPlain(p.composerId);
    KindPlain(p.kind);
    PlainBody(Ascii(KindName(p.kind)));
    QuotedPlain(Ascii(KindName(p.kind)));
    QuoteIs();
    LabelLetters("{", "composerId", "\"");
    assert "{" + "\"" + "composerId" + "\":" + "\"" == "{\"composerId\":\"";
    KindLetters(p.kind);
    LabelLetters("],", "schemaVersion", "1}");
    assert "]," + "\"" + "schemaVersion" + "\":" + "1}" == "],\"schemaVersion\":1}";
    EndLetters();
    PartGlue(Ascii("{"), Label("composerId"), Ascii("\""), p.composerId, Ascii(","), Label("kind"),
             Ascii(KindName(p.kind)), Label("rows"), Ascii("["), Items(RowsJson(p.rows)), Ascii("]"),
             Label("schemaVersion"), Ascii("1"), Ascii("}"));
  }

  lemma PartMembers(p: PartContent)
    ensures Stringify(ContentJson(p)) ==
            Ascii("{")
            + (Label("composerId") + Quote(p.composerId) + Ascii(",") + Label("kind") + Quote(Ascii(KindName(p.kind)))
               + Ascii(",") + Label("rows") + (Ascii("[") + Items(RowsJson(p.rows)) + Ascii("]"))
               + Ascii(",") + Label("schemaVersion") + Ascii("1"))
            + Ascii("}")
  {
    hide Quote, Ascii, Label, Members, KindName, Items, RowsJson;
    var a := [Member("composerId", String(p.composerId))];
    var b := a + [Member("kind", String(Ascii(KindName(p.kind))))];
    var c := b + [Member("rows", Array(RowsJson(p.rows)))];
    var d := c + [Member("schemaVersion", Number(Ascii("1")))];
    assert [] + a == a && ContentJson(p) == Object(d);
    MembersNone();
    MembersAppend([], a[0]);
    MembersAppend(a, b[1]);
    MembersAppend(b, c[2]);
    MembersAppend(c, d[3]);
    StartGlue(Label("composerId"), Quote(p.composerId));
  }

  lemma StartGlue<T>(a: seq<T>, b: seq<T>)
    ensures [] + [] + a + b == a + b
  {
  }

  lemma KindLetters(k: Kind)
    ensures Ascii("\"") + Ascii(",") + Label("kind") + Ascii("\"") + Ascii(KindName(k)) + Ascii("\"") + Ascii(",")
            + Label("rows") + Ascii("[") ==
            Ascii(if k == Core then "\",\"kind\":\"core\",\"rows\":["
                  else "\",\"kind\":\"agent-kv\",\"rows\":[")
  {
    hide Ascii, Label;
    AsciiJoin("\"", ",");
    assert "\"" + "," == "\",";
    LabelLetters("\",", "kind", "\"");
    assert "\"," + "\"" + "kind" + "\":" + "\"" == "\",\"kind\":\"";
    LabelLetters("\",", "rows", "[");
    assert "\"," + "\"" + "rows" + "\":" + "[" == "\",\"rows\":[";
    AsciiJoin("\",\"kind\":\"", KindName(k));
    AsciiJoin("\",\"kind\":\"" + KindName(k), "\",\"rows\":[");
    KindGlue(Ascii("\",\"kind\":\""), Ascii(KindName(k)), Ascii("\""), Ascii(","), Label("rows"), Ascii("["));
    match k
    case Core => assert "\",\"kind\":\"" + "core" + "\",\"rows\":[" == "\",\"kind\":\"core\",\"rows\":[";
    case Kv =>
      assert "\",\"kind\":\"" + "agent-kv" + "\",\"rows\":[" == "\",\"kind\":\"agent-kv\",\"rows\":[";
  }

  lemma KindGlue<T>(a: seq<T>, n: seq<T>, q: seq<T>, c: seq<T>, l: seq<T>, o: seq<T>)
    ensures a + n + q + c + l + o == a + n + (q + c + l + o)
  {
  }

  lemma EndLetters()
    ensures Ascii("]") + Ascii(",") + Label("schemaVersion") + Ascii("1") + Ascii("}") ==
            Ascii("],") + Label("schemaVersion") + Ascii("1}")
  {
    hide Label, Ascii;
    AsciiJoin("]", ",");
    AsciiJoin("1", "}");
    assert "]" + "," == "]," && "1" + "}" == "1}";
    EndGlue(Ascii("]") + Ascii(","), Label("schemaVersion"), Ascii("1"), Ascii("}"));
  }

  lemma EndGlue<T>(a: seq<T>, b: seq<T>, c: seq<T>, d: seq<T>)
    ensures a + b + c + d == a + b + (c + d)
  {
  }

  lemma PartGlue<T>(a: seq<T>, b: seq<T>, q: seq<T>, i: seq<T>, c: seq<T>, d: seq<T>, n: seq<T>, e: seq<T>, o: seq<T>,
                    x: seq<T>, p: seq<T>, f: seq<T>, g: seq<T>, h: seq<T>)
    ensures a + (b + (q + i + q) + c + d + (q + n + q) + c + e + (o + x + p) + c + f + g) + h ==
            (a + b + q) + i + (q + c + d + q + n + q + c + e + o) + x + (p + c + f + g + h)
  {
    Regroup(b + (q + i + q), c, d, q + n + q, c, e, o + x + p);
    Regroup3(b + (q + i + q) + c + d + (q + n + q) + c + e + (o + x + p), c, f, g);
    Around(a, b, q, i, c + d + (q + n + q) + c + e, o, x, p, c + f + g, h);
    Inside(q, c, d, n, e, o);
    Regroup3(p, c, f, g);
  }

  lemma Regroup<T>(a: seq<T>, b: seq<T>, c: seq<T>, d: seq<T>, e: seq<T>, f: seq<T>, g: seq<T>)
    ensures a + b + c + d + e + f + g == a + (b + c + d + e + f) + g
  {
  }

  lemma Regroup3<T>(a: seq<T>, b: seq<T>, c: seq<T>, d: seq<T>)
    ensures a + b + c + d == a + (b + c + d)
  {
  }

  lemma Inside<T>(q: seq<T>, c: seq<T>, d: seq<T>, n: seq<T>, e: seq<T>, o: seq<T>)
    ensures q + (c + d + (q + n + q) + c + e) + o == q + c + d + q + n + q + c + e + o
  {
  }

  lemma Around<T>(a: seq<T>, b: seq<T>, q: seq<T>, i: seq<T>, k: seq<T>, o: seq<T>, x: seq<T>, p: seq<T>, r: seq<T>,
                  h: seq<T>)
    ensures a + (b + (q + i + q) + k + (o + x + p) + r) + h == (a + b + q) + i + (q + k + o) + x + (p + r + h)
  {
  }

  const ID_CHARACTERS := "-0123456789ABCDEFabcdef"

  predicate IsIdCharacter(u: CodeUnit) {
    exists j :: 0 <= j < |ID_CHARACTERS| && ID_CHARACTERS[j] as int == u
  }

  /** Ids are 36 dashes and hexadecimal digits. */
  lemma IdCharacters(t: Text)
    ensures IsComposerId(t) <==> |t| == 36 && forall i :: 0 <= i < |t| ==> IsIdCharacter(t[i])
  {
    hide IsIdCharacter;
    forall i | 0 <= i < |t|
      ensures IsIdCharacter(t[i]) <==>
                t[i] == 0x2D || 0x30 <= t[i] <= 0x39 || 0x41 <= t[i] <= 0x46 || 0x61 <= t[i] <= 0x66
    {
      IdCharacter(t[i]);
    }
  }

  lemma IdCharacter(u: CodeUnit)
    ensures IsIdCharacter(u) <==> u == 0x2D || 0x30 <= u <= 0x39 || 0x41 <= u <= 0x46 || 0x61 <= u <= 0x66
  {
    var at := if u == 0x2D then 0 else if u <= 0x39 then u - 0x30 + 1 else if u <= 0x46 then u - 0x41 + 11
              else u - 0x61 + 17;
    if 0 <= at < |ID_CHARACTERS| {
      assert ID_CHARACTERS[at] as int == u || ID_CHARACTERS[at] as int != u;
    }
  }

  /** 256 bytes are enough for everything around the rows. */
  lemma ContentFits(p: PartContent)
    requires IsComposerId(p.composerId)
    ensures 0 < |PartBytes(p)| <= RESERVE + RowsCost(p.rows)
  {
    hide Utf8, Size, MembersSize, ItemsSize, Stringify, RowsJson, Ascii, Printable;
    ContentSize(p);
    IdSize(p.composerId);
    KindSize(p.kind);
    RowsCostCovers(p.rows);
  }

  lemma ContentSize(p: PartContent)
    ensures |PartBytes(p)| ==
      2 + 13 + Size(String(p.composerId)) + 8 + Size(String(Ascii(KindName(p.kind)))) + 8 + 2
      + ItemsSize(RowsJson(p.rows)) + 17 + 1
  {
    var v := ContentJson(p);
    RowsPrintable(p.rows);
    OneIsAscii();
    assert Printable(v) by {
      hide RowsJson, Ascii;
      forall i | 0 <= i < |v.members| ensures Printable(v.members[i].value) {
      }
    }
    SizeIs(v);
    hide Utf8, ItemsSize, Stringify, RowsJson, Ascii, Printable, MembersSize;
    MembersSizeNone(v.members);
    MembersSizeTake(v.members, 1);
    MembersSizeTake(v.members, 2);
    MembersSizeTake(v.members, 3);
    MembersSizeTake(v.members, 4);
  }

  lemma OneIsAscii()
    ensures |Ascii("1")| == 1 && Ascii("1")[0] == 0x31
  {
  }

  // ----- Packing -----

  /** A written part with its descriptor. */
  datatype Part = Part(content: PartContent, plainBytes: nat)

  function PartsRows(parts: seq<Part>, k: Kind): seq<Row> {
    if parts == [] then []
    else
      var last := parts[|parts| - 1];
      PartsRows(parts[..|parts| - 1], k) + if last.content.kind == k then last.content.rows else []
  }

  function PartsBytes(parts: seq<Part>): nat {
    if parts == [] then 0 else PartsBytes(parts[..|parts| - 1]) + parts[|parts| - 1].plainBytes
  }

  function PartsCount(parts: seq<Part>): nat {
    if parts == [] then 0 else PartsCount(parts[..|parts| - 1]) + |parts[|parts| - 1].content.rows|
  }

  /** A part is within every limit and is of one chat. */
  predicate PartOk(composerId: Text, limit: nat, p: Part) {
    && p.content.composerId == composerId && p.plainBytes == |PartBytes(p.content)|
    && 0 < p.plainBytes <= limit && 0 < |p.content.rows| <= MAX_CHUNK_ROWS
  }

  lemma {:induction false} CountSplits(parts: seq<Part>)
    ensures PartsCount(parts) == |PartsRows(parts, Core)| + |PartsRows(parts, Kv)|
  {
    if parts != [] {
      CountSplits(parts[..|parts| - 1]);
    }
  }

  /** No room for one more part. */
  predicate Full(parts: seq<Part>, next: PartContent) {
    PartsBytes(parts) + |PartBytes(next)| > MAX_TOTAL || |parts| >= MAX_PARTS
  }

  /** A part of these rows has no room for the next row. */
  predicate NoRoom(limit: nat, rows: seq<Row>, next: Row) {
    RESERVE + RowsCost(rows) + RowCost(next) > limit || |rows| >= MAX_CHUNK_ROWS
  }

  /** Every part is filled before the next one of its kind is begun. */
  predicate Greedy(limit: nat, parts: seq<PartContent>) {
    forall i ::
      0 < i < |parts| && parts[i - 1].kind == parts[i].kind && parts[i].rows != [] ==>
        NoRoom(limit, parts[i - 1].rows, parts[i].rows[0])
  }

  function ContentsOf(parts: seq<Part>): seq<PartContent> {
    seq(|parts|, i requires 0 <= i < |parts| => parts[i].content)
  }

  lemma GreedyAdded(limit: nat, parts: seq<PartContent>, next: PartContent)
    requires Greedy(limit, parts)
    requires parts != [] && parts[|parts| - 1].kind == next.kind && next.rows != [] ==>
               NoRoom(limit, parts[|parts| - 1].rows, next.rows[0])
    ensures Greedy(limit, parts + [next])
  {
    hide NoRoom;
  }

  /** Packed part by part in this order, some first rows of the core and of the
      blobs already exceed what one transfer may hold. */
  ghost predicate Overflows(composerId: Text, limit: nat, core: seq<Row>, kv: seq<Row>) {
    exists parts, next :: OverflowsAt(composerId, limit, core, kv, parts, next)
  }

  ghost predicate OverflowsAt(composerId: Text, limit: nat, core: seq<Row>, kv: seq<Row>, parts: seq<Part>,
                              next: PartContent)
  {
    && next.composerId == composerId && Greedy(limit, ContentsOf(parts) + [next]) && Full(parts, next)
    && (forall i :: 0 <= i < |parts| ==> PartOk(composerId, limit, parts[i]))
    && PartsRows(parts, Core) + (if next.kind == Core then next.rows else []) <= core
    && PartsRows(parts, Kv) + (if next.kind == Kv then next.rows else []) <= kv
  }

  lemma OverflowsMore(composerId: Text, limit: nat, core: seq<Row>, kv: seq<Row>, moreCore: seq<Row>, moreKv: seq<Row>)
    requires Overflows(composerId, limit, core, kv) && core <= moreCore && kv <= moreKv
    ensures Overflows(composerId, limit, moreCore, moreKv)
  {
    hide Full, Greedy, PartOk, PartsRows;
    var parts, next :| OverflowsAt(composerId, limit, core, kv, parts, next);
    assert OverflowsAt(composerId, limit, moreCore, moreKv, parts, next);
  }

  /** The append and flush closures of captureChunkedChat and what they share. */
  class Packer {
    const composerId: Text
    const limit: nat
    var rows: seq<Row>
    var bytes: nat
    var total: nat
    var kind: Kind
    var parts: seq<Part>

    constructor (composerId: Text, maxPayloadBytes: nat)
      requires IsComposerId(composerId)
      ensures Valid() && this.composerId == composerId
      ensures limit == (if CHUNK_BYTES < maxPayloadBytes then CHUNK_BYTES else maxPayloadBytes)
      ensures kind == Core && Contents(Core) == [] && Contents(Kv) == [] && parts == []
    {
      this.composerId := composerId;
      limit := if CHUNK_BYTES < maxPayloadBytes then CHUNK_BYTES else maxPayloadBytes;
      rows, bytes, total, kind, parts := [], RESERVE, 0, Core, [];
    }

    ghost predicate Valid()
      reads this
    {
      && IsComposerId(composerId)
      && bytes == RESERVE + RowsCost(rows) && (rows != [] ==> bytes <= limit) && |rows| <= MAX_CHUNK_ROWS
      && total == PartsBytes(parts) <= MAX_TOTAL && |parts| <= MAX_PARTS
      && (forall i :: 0 <= i < |parts| ==> PartOk(composerId, limit, parts[i]))
      && (kind == Core ==> PartsRows(parts, Kv) == [])
      && Greedy(limit, ContentsOf(parts) + [PartContent(composerId, kind, rows)])
    }

    /** A row may be appended: the part it begins is the first of its kind, or the
        part before is full. */
    ghost predicate Open()
      reads this
    {
      rows != [] || parts == [] || parts[|parts| - 1].content.kind != kind
    }

    /** All rows of a kind, packed or waiting. */
    ghost function Contents(k: Kind): seq<Row>
      reads this
    {
      PartsRows(parts, k) + if kind == k then rows else []
    }

    method Flush() returns (ok: bool)
      requires Valid()
      modifies this`rows, this`bytes, this`total, this`parts
      ensures ok ==> Valid() && rows == [] && Contents(Core) == old(Contents(Core)) && Contents(Kv) == old(Contents(Kv))
      ensures ok ==> old(parts) <= parts && (old(rows) == [] ==> parts == old(parts))
      ensures ok && old(rows) != [] ==>
                parts != [] && parts[|parts| - 1].content == PartContent(composerId, kind, old(rows))
      ensures !ok ==> Overflows(composerId, limit, old(Contents(Core)), old(Contents(Kv)))
    {
      hide PartBytes, PartOk, IsComposerId, PartsRows, PartsBytes, RowsCost, Greedy;
      if |rows| == 0 {
        return true;
      }
      NoCost();
      assert forall s: seq<Row> :: s + [] == s;
      var content := PartContent(composerId, kind, rows);
      ContentFits(content);
      var byteLength := |PartBytes(content)|;
      total := total + byteLength;
      if byteLength > limit || total > MAX_TOTAL || |parts| >= MAX_PARTS {
        assert OverflowsAt(composerId, limit, old(Contents(Core)), old(Contents(Kv)), parts, content);
        return false;
      }
      var part := Part(content, byteLength);
      PartIsOk(composerId, limit, part);
      PartAdded(parts, part);
      ContentsAdded(parts, part);
      GreedyAdded(limit, ContentsOf(parts + [part]), PartContent(composerId, kind, []));
      parts := parts + [part];
      rows, bytes := [], RESERVE;
      return true;
    }

    /** From the core on to the blobs, between parts. */
    method SwitchToBlobs()
      requires Valid() && rows == [] && kind == Core
      modifies this`kind
      ensures Valid() && kind == Kv && Contents(Core) == old(Contents(Core)) && Contents(Kv) == old(Contents(Kv))
      ensures Open()
    {
      hide PartBytes, NoRoom;
      GreedyFront(limit, ContentsOf(parts), PartContent(composerId, kind, []));
      GreedyAdded(limit, ContentsOf(parts), PartContent(composerId, Kv, []));
      NoBlobPart(parts);
      kind := Kv;
    }

    method Append(row: Row) returns (ok: bool)
      requires Valid() && Open()
      modifies this`rows, this`bytes, this`total, this`parts
      ensures ok ==> Valid() && Contents(kind) == old(Contents(kind)) + [row]
      ensures ok ==> forall k :: k != kind ==> Contents(k) == old(Contents(k))
      ensures ok ==> rows != [] && old(parts) <= parts
      ensures !ok ==>
                RowCost(row) + RESERVE > limit || Overflows(composerId, limit, old(Contents(Core)), old(Contents(Kv)))
    {
      hide PartBytes, PartOk, RowCost, IsComposerId, PartsRows, PartsBytes, RowsCost, Greedy, Overflows;
      var size := RowCost(row);
      if size + RESERVE > limit {
        return false;
      }
      if bytes + size > limit || |rows| >= MAX_CHUNK_ROWS {
        ok := Flush();
        if !ok {
          return false;
        }
      }
      NoCost();
      CostAdded(rows, row);
      Appended(PartsRows(parts, kind), rows, row);
      GreedyNext(limit, composerId, kind, parts, rows, row);
      rows := rows + [row];
      bytes := bytes + size;
      return true;
    }
  }

  lemma ContentsAdded(parts: seq<Part>, p: Part)
    ensures ContentsOf(parts + [p]) == ContentsOf(parts) + [p.content]
  {
  }

  lemma GreedyFront(limit: nat, parts: seq<PartContent>, last: PartContent)
    requires Greedy(limit, parts + [last])
    ensures Greedy(limit, parts)
  {
    hide NoRoom;
    assert forall i :: 0 <= i < |parts| ==> (parts + [last])[i] == parts[i];
  }

  /** One more row in the part that is being filled: only its first row matters. */
  lemma GreedyNext(limit: nat, composerId: Text, kind: Kind, parts: seq<Part>, rows: seq<Row>, row: Row)
    requires Greedy(limit, ContentsOf(parts) + [PartContent(composerId, kind, rows)])
    requires rows == [] && parts != [] && parts[|parts| - 1].content.kind == kind ==>
               NoRoom(limit, parts[|parts| - 1].content.rows, row)
    ensures Greedy(limit, ContentsOf(parts) + [PartContent(composerId, kind, rows + [row])])
  {
    hide NoRoom;
    var before, next := ContentsOf(parts), PartContent(composerId, kind, rows + [row]);
    GreedyFront(limit, before, PartContent(composerId, kind, rows));
    if before != [] && before[|before| - 1].kind == kind && rows != [] {
      assert (before + [PartContent(composerId, kind, rows)])[|before|].rows[0] == (rows + [row])[0];
      assert (before + [PartContent(composerId, kind, rows)])[|before| - 1] == before[|before| - 1];
    }
    GreedyAdded(limit, before, next);
  }

  lemma {:induction false} NoBlobPart(parts: seq<Part>)
    requires PartsRows(parts, Kv) == [] && forall i :: 0 <= i < |parts| ==> parts[i].content.rows != []
    ensures parts != [] ==> parts[|parts| - 1].content.kind != Kv
  {
  }

  lemma NoCost()
    ensures RowsCost([]) == 0
  {
  }

  lemma CostAdded(rows: seq<Row>, row: Row)
    ensures RowsCost(rows + [row]) == RowsCost(rows) + RowCost(row)
  {
    assert (rows + [row])[..|rows|] == rows;
  }

  lemma Appended<T>(a: seq<T>, b: seq<T>, x: T)
    ensures a + (b + [x]) == a + b + [x]
  {
  }

  lemma PartIsOk(composerId: Text, limit: nat, p: Part)
    requires p.content.composerId == composerId && p.plainBytes == |PartBytes(p.content)|
    requires 0 < p.plainBytes <= limit && 0 < |p.content.rows| <= MAX_CHUNK_ROWS
    ensures PartOk(composerId, limit, p)
  {
    hide PartBytes;
  }

  lemma PartAdded(parts: seq<Part>, p: Part)
    ensures PartsBytes(parts + [p]) == PartsBytes(parts) + p.plainBytes
    ensures PartsRows(parts + [p], p.content.kind) == PartsRows(parts, p.content.kind) + p.content.rows
    ensures forall k :: k != p.content.kind ==> PartsRows(parts + [p], k) == PartsRows(parts, k)
  {
    assert (parts + [p])[..|parts|] == parts;
  }

  lemma PartOkWithin(composerId: Text, limit: nat, p: Part)
    requires PartOk(composerId, limit, p) && limit <= CHUNK_BYTES
    ensures PartOk(composerId, CHUNK_BYTES, p)
  {
    hide PartBytes;
  }
}
