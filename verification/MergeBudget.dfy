/** The budgets of src/chat/chatMerge.ts: the conservative preflight covers the
    exact size of what the merge prints, and the whole merge of two parsed
    snapshots. */
module MergeBudget {
  import opened Basics
  import opened Sums
  import opened Portable
  import opened Canonical
  import opened Lengths
  import opened Bubbles
  import opened KvMerge
  import opened ChatMerge
  import JsonString
  import Base64

  // ----- The exact size -----

  lemma ItemsStep(items: seq<Json>, i: nat)
    requires i < |items|
    ensures ItemsSize(items[..i + 1]) == ItemsSize(items[..i]) + (if i > 0 then 1 else 0) + Size(items[i])
  {
    hide Size;
    assert items[..i + 1][..i] == items[..i];
  }

  method AddRows(initial: nat, rows: seq<Row>) returns (bytes: nat)
    requires forall row :: row in rows ==> Base64.IsText(row.valueBase64)
    ensures bytes == initial + ItemsSize(RowsJson(rows))
  {
    hide Size, ItemsSize, RowJson;
    bytes := initial;
    ghost var items := RowsJson(rows);
    NoItems(items);
    for i := 0 to |rows|
      invariant bytes == initial + ItemsSize(items[..i])
    {
      ItemsStep(items, i);
      if i > 0 {
        bytes := bytes + 1;
      }
      var row := PortableKvRowCanonicalByteLength(rows[i]);
      bytes := bytes + row;
    }
  }

  method AddIds(initial: nat, ids: seq<Text>) returns (bytes: nat)
    ensures bytes == initial + ItemsSize(IdsJson(ids))
  {
    hide Size, ItemsSize, Bytes;
    bytes := initial;
    ghost var items := IdsJson(ids);
    NoItems(items);
    for i := 0 to |ids|
      invariant bytes == initial + ItemsSize(items[..i])
    {
      ItemsStep(items, i);
      if i > 0 {
        bytes := bytes + 1;
      }
      var id := JsonString.CanonicalJsonStringByteLength(ids[i]);
      StringSize(ids[i]);
      bytes := bytes + id;
    }
  }

  lemma NoItems(items: seq<Json>)
    ensures ItemsSize(items[..0]) == 0 && items[..|items|] == items
  {
  }

  lemma StringSize(t: Text)
    ensures Size(String(t)) == |JsonString.Utf8(JsonString.Quote(t))|
  {
  }

  predicate RowsText(s: ChatSnapshot) {
    && HasTextRows(s)
    && (s.agentKv.Some? ==> forall row :: row in s.agentKv.value.blobs ==> Base64.IsText(row.valueBase64))
  }

  /** portableChatCanonicalByteLength: the size of canonicalBytes(snapshot). */
  method PortableChatCanonicalByteLength(s: ChatSnapshot) returns (bytes: nat)
    requires HeaderOk(s.header) && RowsText(s)
    ensures bytes == Bytes(Stringify(SnapshotJson(s)))
  {
    hide Size, ItemsSize, RowJson, RowsJson, IdsJson, HeaderMembers, HeaderOk, Bytes, Stringify, SnapshotJson;
    bytes := |"{\"bubbles\":["|;
    if s.agentKv.Some? {
      bytes := |"{\"agentKv\":{\"blobs\":["|;
      bytes := AddRows(bytes, s.agentKv.value.blobs);
      bytes := bytes + |"],\"missingIds\":["|;
      bytes := AddIds(bytes, s.agentKv.value.missingIds);
      bytes := bytes + |"],\"referencedIds\":["|;
      bytes := AddIds(bytes, s.agentKv.value.referencedIds);
      bytes := bytes + |"]},\"bubbles\":["|;
    }
    bytes := AddRows(bytes, s.bubbles);
    bytes := bytes + |"],\"composerData\":"|;
    var data := PortableKvRowCanonicalByteLength(s.composerData);
    bytes := bytes + data + |",\"composerId\":"|;
    var id := JsonString.CanonicalJsonStringByteLength(s.composerId);
    BytesIs(s.composerId);
    bytes := bytes + id + |",\"header\":"|;
    var header := PortableComposerHeaderCanonicalByteLength(s.header);
    bytes := bytes + header + |",\"schemaVersion\":1}"|;
    SnapshotSize(s);
  }

  ghost function KvPart(kv: AgentKv): nat {
    ItemsSize(RowsJson(kv.blobs)) + ItemsSize(IdsJson(kv.missingIds)) + ItemsSize(IdsJson(kv.referencedIds))
  }

  ghost function CorePart(s: ChatSnapshot): nat {
    ItemsSize(RowsJson(s.bubbles)) + Size(RowJson(s.composerData)) + Bytes(JsonString.Quote(s.composerId))
    + Size(Object(HeaderMembers(s.header)))
  }

  lemma SnapshotSize(s: ChatSnapshot)
    requires HeaderOk(s.header)
    ensures Bytes(Stringify(SnapshotJson(s))) ==
              CorePart(s) + 72 + if s.agentKv.Some? then KvPart(s.agentKv.value) + 58 else 0
  {
    hide Bytes, JsonString.Quote, MembersSize, ItemsSize, RowJson, RowsJson, IdsJson, HeaderMembers, HeaderOk;
    hide Stringify, Ascii;
    SnapshotPrintable(s);
    SizeIs(SnapshotJson(s));
    if s.agentKv == None {
      CoreSize(s.composerId, s.header, s.composerData, s.bubbles);
    } else {
      var m := SnapshotJson(s).members;
      MembersSizeNone(m);
      MembersSizeTake(m, 1);
      MembersSizeTake(m, 2);
      MembersSizeTake(m, 3);
      MembersSizeTake(m, 4);
      MembersSizeTake(m, 5);
      MembersSizeTake(m, 6);
      KvSize(s.agentKv.value);
      OneDigit();
    }
  }

  lemma OneDigit()
    ensures |Ascii("2")| == 1
  {
  }

  lemma KvSize(kv: AgentKv)
    ensures Size(KvJson(kv)) == KvPart(kv) + 47
  {
    hide Bytes, MembersSize, ItemsSize, RowsJson, IdsJson;
    var m := KvJson(kv).members;
    MembersSizeNone(m);
    MembersSizeTake(m, 1);
    MembersSizeTake(m, 2);
    MembersSizeTake(m, 3);
  }

  // ----- The preflight -----

  /** A row with a comma. */
  function RowWork(row: Row): nat {
    Size(RowJson(row)) + 1
  }

  function RowsWork(rows: seq<Row>): nat {
    if rows == [] then 0 else RowsWork(rows[..|rows| - 1]) + RowWork(rows[|rows| - 1])
  }

  /** Every declared id counts twice. */
  function IdsWork(ids: seq<Text>): nat {
    if ids == [] then 0 else IdsWork(ids[..|ids| - 1]) + 2 * (Size(String(ids[|ids| - 1])) + 1)
  }

  function BubblesWork(snapshots: seq<ChatSnapshot>): nat {
    if snapshots == [] then 0
    else BubblesWork(snapshots[..|snapshots| - 1]) + RowsWork(snapshots[|snapshots| - 1].bubbles)
  }

  function PayloadWork(s: ChatSnapshot): nat {
    if s.agentKv == None then 0 else RowsWork(s.agentKv.value.blobs) + IdsWork(s.agentKv.value.referencedIds)
  }

  function PayloadsWork(snapshots: seq<ChatSnapshot>): nat {
    if snapshots == [] then 0 else PayloadsWork(snapshots[..|snapshots| - 1]) + PayloadWork(snapshots[|snapshots| - 1])
  }

  const ROOT_ID_BYTES := 67

  function CoreWork(winner: ChatSnapshot): nat {
    OVERHEAD_BYTES + Size(Object(HeaderMembers(winner.header))) + Size(RowJson(winner.composerData))
    + Size(String(winner.composerId))
  }

  function Work(snapshots: seq<ChatSnapshot>, winner: ChatSnapshot, emitsV2: bool): nat {
    CoreWork(winner) + BubblesWork(snapshots)
    + if emitsV2 then PayloadsWork(snapshots) + 2 * (MAX_NODES * ROOT_ID_BYTES) else 0
  }

  function BubbleCount(snapshots: seq<ChatSnapshot>): nat {
    if snapshots == [] then 0 else BubbleCount(snapshots[..|snapshots| - 1]) + |snapshots[|snapshots| - 1].bubbles|
  }

  predicate CountsFit(snapshots: seq<ChatSnapshot>, maxBubbleRowWork: nat) {
    BubbleCount(snapshots) <= maxBubbleRowWork
    && forall i :: 0 <= i < |snapshots| ==> |snapshots[i].bubbles| <= MAX_BUBBLE_ROWS
  }

  method AddRowsWork(rows: seq<Row>, work: nat, budget: nat) returns (ok: bool, total: nat)
    requires work <= budget && forall row :: row in rows ==> Base64.IsText(row.valueBase64)
    ensures ok <==> work + RowsWork(rows) <= budget
    ensures ok ==> total == work + RowsWork(rows)
  {
    hide Size, RowJson;
    total := work;
    assert rows[..0] == [];
    for i := 0 to |rows|
      invariant total == work + RowsWork(rows[..i]) <= budget
    {
      assert rows[..i + 1][..i] == rows[..i];
      RowsWorkPrefix(rows, i + 1);
      var bytes := PortableKvRowCanonicalByteLength(rows[i]);
      if bytes + 1 > budget - total {
        return false, total;
      }
      total := total + bytes + 1;
    }
    assert rows[..|rows|] == rows;
    return true, total;
  }

  lemma {:induction false} RowsWorkPrefix(rows: seq<Row>, i: nat)
    requires i <= |rows|
    ensures RowsWork(rows[..i]) <= RowsWork(rows)
  {
    hide RowWork;
    if i < |rows| {
      assert rows[..|rows| - 1][..i] == rows[..i];
      RowsWorkPrefix(rows[..|rows| - 1], i);
    } else {
      assert rows[..i] == rows;
    }
  }

  method AddIdsWork(ids: seq<Text>, work: nat, budget: nat) returns (ok: bool, total: nat)
    requires work <= budget
    ensures ok <==> work + IdsWork(ids) <= budget
    ensures ok ==> total == work + IdsWork(ids)
  {
    hide Size;
    total := work;
    assert ids[..0] == [];
    for i := 0 to |ids|
      invariant total == work + IdsWork(ids[..i]) <= budget
    {
      assert ids[..i + 1][..i] == ids[..i];
      IdsWorkPrefix(ids, i + 1);
      var encoded := JsonString.CanonicalJsonStringByteLength(ids[i]);
      StringSize(ids[i]);
      encoded := encoded + 1;
      if encoded > budget - total {
        return false, total;
      }
      if encoded > budget - (total + encoded) {
        return false, total;
      }
      total := total + encoded + encoded;
    }
    assert ids[..|ids|] == ids;
    return true, total;
  }

  lemma {:induction false} IdsWorkPrefix(ids: seq<Text>, i: nat)
    requires i <= |ids|
    ensures IdsWork(ids[..i]) <= IdsWork(ids)
  {
    hide Size;
    if i < |ids| {
      assert ids[..|ids| - 1][..i] == ids[..i];
      IdsWorkPrefix(ids[..|ids| - 1], i);
    } else {
      assert ids[..i] == ids;
    }
  }

  lemma {:induction false} BubblesWorkPrefix(snapshots: seq<ChatSnapshot>, i: nat)
    requires i <= |snapshots|
    ensures BubblesWork(snapshots[..i]) <= BubblesWork(snapshots)
    ensures PayloadsWork(snapshots[..i]) <= PayloadsWork(snapshots)
  {
    hide RowsWork, PayloadWork;
    if i < |snapshots| {
      assert snapshots[..|snapshots| - 1][..i] == snapshots[..i];
      BubblesWorkPrefix(snapshots[..|snapshots| - 1], i);
    } else {
      assert snapshots[..i] == snapshots;
    }
  }

  method AddBubblesWork(snapshots: seq<ChatSnapshot>, work: nat, budget: nat) returns (ok: bool, total: nat)
    requires work <= budget && forall i :: 0 <= i < |snapshots| ==> RowsText(snapshots[i])
    ensures ok <==> work + BubblesWork(snapshots) <= budget
    ensures ok ==> total == work + BubblesWork(snapshots)
  {
    hide RowsWork;
    total := work;
    assert snapshots[..0] == [];
    for i := 0 to |snapshots|
      invariant total == work + BubblesWork(snapshots[..i]) <= budget
    {
      assert snapshots[..i + 1][..i] == snapshots[..i];
      BubblesWorkPrefix(snapshots, i + 1);
      ok, total := AddRowsWork(snapshots[i].bubbles, total, budget);
      if !ok {
        return false, total;
      }
    }
    assert snapshots[..|snapshots|] == snapshots;
    return true, total;
  }

  method AddPayloadsWork(snapshots: seq<ChatSnapshot>, work: nat, budget: nat) returns (ok: bool, total: nat)
    requires work <= budget && forall i :: 0 <= i < |snapshots| ==> RowsText(snapshots[i])
    ensures ok <==> work + PayloadsWork(snapshots) <= budget
    ensures ok ==> total == work + PayloadsWork(snapshots)
  {
    hide RowsWork, IdsWork;
    total := work;
    assert snapshots[..0] == [];
    for i := 0 to |snapshots|
      invariant total == work + PayloadsWork(snapshots[..i]) <= budget
    {
      assert snapshots[..i + 1][..i] == snapshots[..i];
      BubblesWorkPrefix(snapshots, i + 1);
      if snapshots[i].agentKv.Some? {
        ok, total := AddRowsWork(snapshots[i].agentKv.value.blobs, total, budget);
        if !ok {
          return false, total;
        }
        ok, total := AddIdsWork(snapshots[i].agentKv.value.referencedIds, total, budget);
        if !ok {
          return false, total;
        }
      }
    }
    assert snapshots[..|snapshots|] == snapshots;
    return true, total;
  }

  method CountBubbles(snapshots: seq<ChatSnapshot>, maxBubbleRowWork: nat) returns (ok: bool)
    ensures ok <==> CountsFit(snapshots, maxBubbleRowWork)
  {
    var bubbleOccurrences := 0;
    var tooMany := false;
    assert snapshots[..0] == [];
    for i := 0 to |snapshots|
      invariant bubbleOccurrences == BubbleCount(snapshots[..i])
      invariant tooMany <==> exists j :: 0 <= j < i && |snapshots[j].bubbles| > MAX_BUBBLE_ROWS
    {
      assert snapshots[..i + 1][..i] == snapshots[..i];
      bubbleOccurrences := bubbleOccurrences + |snapshots[i].bubbles|;
      tooMany := tooMany || |snapshots[i].bubbles| > MAX_BUBBLE_ROWS;
    }
    assert snapshots[..|snapshots|] == snapshots;
    return bubbleOccurrences <= maxBubbleRowWork && !tooMany;
  }

  /** chatMergeStructureFitsBudget: accepted exactly when the row counts fit and
      the estimate is within the budget. */
  method ChatMergeStructureFitsBudget(snapshots: seq<ChatSnapshot>, winner: ChatSnapshot, emitsV2: bool, budget: nat,
                                      maxBubbleRowWork: nat)
    returns (ok: bool)
    requires (forall i :: 0 <= i < |snapshots| ==> RowsText(snapshots[i])) && RowsText(winner)
    requires HeaderOk(winner.header)
    ensures ok <==> CountsFit(snapshots, maxBubbleRowWork) && Work(snapshots, winner, emitsV2) <= budget
  {
    hide Size, BubblesWork, PayloadsWork, CountsFit, HeaderMembers, RowJson, HeaderOk;
    ok := CountBubbles(snapshots, maxBubbleRowWork);
    if !ok {
      return false;
    }
    var header := PortableComposerHeaderCanonicalByteLength(winner.header);
    var data := PortableKvRowCanonicalByteLength(winner.composerData);
    var id := JsonString.CanonicalJsonStringByteLength(winner.composerId);
    StringSize(winner.composerId);
    var work := OVERHEAD_BYTES + header + data + id;
    if work > budget {
      return false;
    }
    ok, work := AddBubblesWork(snapshots, work, budget);
    if !ok || !emitsV2 {
      return ok;
    }
    ok, work := AddPayloadsWork(snapshots, work, budget);
    if !ok {
      return false;
    }
    return 2 * (MAX_NODES * ROOT_ID_BYTES) <= budget - work;
  }

  // ----- The preflight covers the result -----

  lemma {:induction false} DistinctRowsSize(rows: seq<Row>)
    requires forall i, j :: 0 <= i < j < |rows| ==> rows[i] != rows[j]
    ensures ItemsSize(RowsJson(rows)) <= Sum(RowWork, Elements(rows))
  {
    hide Size, RowJson, RowsJson, ItemsSize, Elements;
    NoRows();
    SumEmpty(RowWork);
    if rows != [] {
      var n := |rows| - 1;
      DistinctRowsSize(rows[..n]);
      RowsSizeStep(rows, n);
      assert rows[..n + 1] == rows;
      NewLast(rows);
      SumInsert(RowWork, Elements(rows[..n]), rows[n]);
    }
  }

  lemma {:induction false} SumOfRows(rows: seq<Row>)
    ensures Sum(RowWork, Elements(rows)) <= RowsWork(rows)
  {
    hide RowWork;
    if rows == [] {
      SumEmpty(RowWork);
    } else {
      var n := |rows| - 1;
      SumOfRows(rows[..n]);
      assert rows == rows[..n] + [rows[n]];
      assert Elements(rows) == Elements(rows[..n]) + {rows[n]};
      if rows[n] in Elements(rows[..n]) {
        assert Elements(rows) == Elements(rows[..n]);
      } else {
        SumInsert(RowWork, Elements(rows[..n]), rows[n]);
      }
    }
  }

  lemma {:induction false} SumUnion<T(!new)>(f: T -> nat, a: set<T>, b: set<T>)
    ensures Sum(f, a + b) <= Sum(f, a) + Sum(f, b)
  {
    SumEmpty(f);
    if b == {} {
      assert a + b == a;
    } else {
      var x :| x in b;
      SumUnion(f, a, b - {x});
      SumRemove(f, b, x);
      if x in a {
        assert a + b == a + (b - {x});
      } else {
        assert a + b == (a + (b - {x})) + {x};
        SumInsert(f, a + (b - {x}), x);
      }
    }
  }

  ghost function AllBubbles(snapshots: seq<ChatSnapshot>): set<Row> {
    if snapshots == [] then {}
    else AllBubbles(snapshots[..|snapshots| - 1]) + Elements(snapshots[|snapshots| - 1].bubbles)
  }

  ghost function AllPayloadRows(snapshots: seq<ChatSnapshot>): set<Row> {
    if snapshots == [] then {}
    else
      var last := snapshots[|snapshots| - 1];
      AllPayloadRows(snapshots[..|snapshots| - 1])
      + if last.agentKv.Some? then Elements(last.agentKv.value.blobs) else {}
  }

  lemma {:induction false} AllRowsWork(snapshots: seq<ChatSnapshot>)
    ensures Sum(RowWork, AllBubbles(snapshots)) <= BubblesWork(snapshots)
    ensures Sum(RowWork, AllPayloadRows(snapshots)) <= PayloadsWork(snapshots)
  {
    hide RowWork, RowsWork, IdsWork;
    SumEmpty(RowWork);
    if snapshots != [] {
      var init, last := snapshots[..|snapshots| - 1], snapshots[|snapshots| - 1];
      AllRowsWork(init);
      SumOfRows(last.bubbles);
      SumUnion(RowWork, AllBubbles(init), Elements(last.bubbles));
      if last.agentKv.Some? {
        SumOfRows(last.agentKv.value.blobs);
        SumUnion(RowWork, AllPayloadRows(init), Elements(last.agentKv.value.blobs));
      } else {
        assert AllPayloadRows(init) + {} == AllPayloadRows(init);
      }
    }
  }

  lemma SortedKeysDistinct(rows: seq<Row>)
    requires StrictlySorted(Keys(rows))
    ensures forall i, j :: 0 <= i < j < |rows| ==> rows[i] != rows[j]
  {
    forall i, j | 0 <= i < j < |rows| ensures rows[i] != rows[j] {
      if rows[i] == rows[j] {
        assert Keys(rows)[i] == Keys(rows)[j];
        SortedNoDuplicates(Keys(rows), i, j);
      }
    }
  }

  lemma {:induction false} IdsSize(ids: seq<Text>)
    requires forall i :: 0 <= i < |ids| ==> IsId(ids[i])
    ensures ItemsSize(IdsJson(ids)) <= |ids| * ROOT_ID_BYTES
  {
    hide Size, IsId;
    if ids != [] {
      var n := |ids| - 1;
      IdsSize(ids[..n]);
      assert IdsJson(ids)[..n] == IdsJson(ids[..n]);
      IdBytes(ids[n]);
    }
  }

  lemma IdBytes(id: Text)
    requires IsId(id)
    ensures Size(String(id)) == 66
  {
    forall i | 0 <= i < |id|
      ensures 0x20 <= id[i] < 0x80 && id[i] != JsonString.QUOTE && id[i] != JsonString.BACKSLASH
    {
    }
    PlainBody(id);
    JsonString.AsciiBytes(JsonString.Quote(id));
  }

  /** What the merge builds: the winner's core, rows and blobs of the inputs in
      key order, and at most 4096 ids. */
  ghost predicate BuiltFrom(snapshots: seq<ChatSnapshot>, winner: ChatSnapshot, m: ChatSnapshot) {
    && m.composerId == winner.composerId && m.header == winner.header && m.composerData == winner.composerData
    && StrictlySorted(Keys(m.bubbles)) && Elements(m.bubbles) <= AllBubbles(snapshots)
    && (m.agentKv.Some? ==> PayloadBuiltFrom(snapshots, m.agentKv.value))
  }

  ghost predicate PayloadBuiltFrom(snapshots: seq<ChatSnapshot>, kv: AgentKv) {
    && StrictlySorted(Keys(kv.blobs)) && Elements(kv.blobs) <= AllPayloadRows(snapshots)
    && ValidIds(kv.referencedIds) && ValidIds(kv.missingIds) && |kv.missingIds| <= |kv.referencedIds| <= MAX_NODES
  }

  /** The estimate is at least the exact size of whatever the merge builds. */
  lemma PreflightCovers(snapshots: seq<ChatSnapshot>, winner: ChatSnapshot, m: ChatSnapshot)
    requires BuiltFrom(snapshots, winner, m) && HeaderOk(m.header)
    ensures Bytes(Stringify(SnapshotJson(m))) <= Work(snapshots, winner, m.agentKv.Some?)
  {
    hide Size, RowJson, HeaderMembers, HeaderOk, Stringify, SnapshotJson, BubblesWork, PayloadsWork, ItemsSize, Bytes;
    hide StrictlySorted, AllBubbles, AllPayloadRows, PayloadBuiltFrom, RowsJson, IdsJson, JsonString.Quote;
    SnapshotSize(m);
    SizeOfString(m.composerId);
    AllRowsWork(snapshots);
    SortedKeysDistinct(m.bubbles);
    DistinctRowsSize(m.bubbles);
    SumSubset(RowWork, Elements(m.bubbles), AllBubbles(snapshots));
    if m.agentKv.Some? {
      PayloadCovered(snapshots, m.agentKv.value);
    }
  }

  lemma SizeOfString(t: Text)
    ensures Size(String(t)) == Bytes(JsonString.Quote(t))
  {
  }

  lemma PayloadCovered(snapshots: seq<ChatSnapshot>, kv: AgentKv)
    requires PayloadBuiltFrom(snapshots, kv)
    ensures KvPart(kv) <= PayloadsWork(snapshots) + 2 * (MAX_NODES * ROOT_ID_BYTES)
  {
    hide Size, RowJson, ItemsSize, StrictlySorted, IsId, AllPayloadRows, RowsJson, IdsJson, PayloadsWork;
    AllRowsWork(snapshots);
    SortedKeysDistinct(kv.blobs);
    DistinctRowsSize(kv.blobs);
    SumSubset(RowWork, Elements(kv.blobs), AllPayloadRows(snapshots));
    IdsSize(kv.referencedIds);
    IdsSize(kv.missingIds);
  }

  // ----- The whole merge -----

  /** Continuation roots of a core: the scan hit a limit, found them unreadable or
      gave their ids. */
  datatype RootScan = StructureLimit | Unreadable | Roots(ids: seq<Text>)

  datatype MergeLimits = MergeLimits(maxWorkBytes: nat, maxOutputBytes: nat, maxBubbleRowWork: nat,
                                     maxStructuralTokens: nat)

  datatype MergeResult = Conflict | WorkBudgetExceeded | Merged(snapshot: ChatSnapshot, winner: Side)

  function Inputs(base: Option<ChatSnapshot>, first: ChatSnapshot, second: ChatSnapshot): seq<ChatSnapshot> {
    if base.Some? then [base.value, first, second] else [first, second]
  }

  function Payloads(base: Option<ChatSnapshot>, first: ChatSnapshot, second: ChatSnapshot): seq<Option<AgentKv>> {
    [if base.Some? then base.value.agentKv else None, first.agentKv, second.agentKv]
  }

  ghost predicate InputsParsed(c: Codec, base: Option<ChatSnapshot>, first: ChatSnapshot, second: ChatSnapshot) {
    IsParsed(c, first) && IsParsed(c, second) && (base.Some? ==> IsParsed(c, base.value))
  }

  /** What holds of a merged snapshot: the elected core with the joined rows, a
      payload exactly when the winner had one, and a size within both budgets. */
  ghost predicate IsMerge(c: Codec, r: JsonReader, base: Option<ChatSnapshot>, first: ChatSnapshot,
                          second: ChatSnapshot, limits: MergeLimits, m: ChatSnapshot)
  {
    && MergeStep(r, base, first, second, m)
    && IsParsed(c, m) && StrictlySorted(Keys(m.bubbles))
    && Bytes(Stringify(SnapshotJson(m))) <= limits.maxOutputBytes
    && Bytes(Stringify(SnapshotJson(m))) <= limits.maxWorkBytes
    && m.agentKv.Some? == Pick(Elects(r, base, first, second).value, first, second).agentKv.Some?
  }

  /** mergeChatBuffers, from the parsed snapshots on. */
  method MergeSnapshots(ghost c: Codec, r: JsonReader, roots: ChatSnapshot -> RootScan,
                        base: Option<ChatSnapshot>, first: ChatSnapshot, second: ChatSnapshot, limits: MergeLimits)
    returns (result: MergeResult, ghost limited: bool)
    requires InputsParsed(c, base, first, second)
    requires forall s, id :: roots(s).Roots? && id in roots(s).ids ==> IsId(id)
    ensures result.Merged? ==> Elects(r, base, first, second) == Some(result.winner)
                               && IsMerge(c, r, base, first, second, limits, result.snapshot)
    ensures result.Merged? && result.snapshot.agentKv.Some? ==>
      var core := result.snapshot.(agentKv := None);
      roots(core).Roots?
      && PayloadOf(base, first, second, Pick(result.winner, first, second), roots(core).ids,
                   result.snapshot.agentKv.value)
    ensures result.Conflict? && !limited && SameChat(base, first, second) && Elects(r, base, first, second).Some? ==>
      Merge(BaseTable(base), Index(first.bubbles), Index(second.bubbles)) == None
      || exists core :: MergeStep(r, base, first, second, core) && roots(core).Unreadable?
    ensures result.WorkBudgetExceeded? ==>
              Elects(r, base, first, second).Some? && OverBudget(r, roots, base, first, second, limits)
    ensures limited ==>
              result == Conflict && TooSmall(r, base, first, second, limits.maxWorkBytes, limits.maxStructuralTokens)
  {
    hide IsParsed, Elects, Merge, IsMerge, HeaderOk, CountsFit, Work, ValidPayload, Bytes, PayloadOf, IsId, Index;
    hide BuiltFrom, OverBudget, Declared, BlobsFit, TooSmall;
    limited := false;
    if first.composerId != second.composerId || (base.Some? && base.value.composerId != first.composerId) {
      return Conflict, limited;
    }
    ParsedTexts(c, base, first, second);
    var side;
    side, limited := ElectCompatibleCore(r, base, first, second, limits.maxWorkBytes, limits.maxStructuralTokens);
    if side == None {
      return Conflict, limited;
    }
    var winner := Pick(side.value, first, second);
    var emitsV2 := winner.agentKv.Some?;
    var fits := ChatMergeStructureFitsBudget(Inputs(base, first, second), winner, emitsV2, limits.maxWorkBytes,
                                             limits.maxBubbleRowWork);
    if !fits {
      PreflightRefuses(r, roots, base, first, second, limits, side.value);
      return WorkBudgetExceeded, limited;
    }
    var bubbles := MergeBubbles(if base.Some? then Some(base.value.bubbles) else None, first.bubbles, second.bubbles);
    if bubbles == None {
      return Conflict, limited;
    }
    var merged := ChatSnapshot(winner.composerId, winner.header, winner.composerData, bubbles.value, None);
    if emitsV2 {
      var scan := roots(merged);
      assert MergeStep(r, base, first, second, merged);
      if scan.StructureLimit? {
        CoreRefuses(r, roots, base, first, second, limits, side.value, merged);
        return WorkBudgetExceeded, limited;
      }
      if scan.Unreadable? {
        return Conflict, limited;
      }
      PayloadsParsed(c, base, first, second);
      WinnerParsed(c, base, first, second, side.value);
      var kv := MergeAgentKvSnapshots(c, Payloads(base, first, second), winner.agentKv, scan.ids);
      if kv == None {
        CoreRefuses(r, roots, base, first, second, limits, side.value, merged);
        return WorkBudgetExceeded, limited;
      }
      PayloadIs(base, first, second, winner, scan.ids, kv.value);
      PayloadBuilt(c, base, first, second, winner, scan.ids, kv.value);
      merged := merged.(agentKv := kv);
    }
    MergedParsed(c, r, base, first, second, side.value, merged);
    var length := PortableChatCanonicalByteLength(merged);
    PreflightCovers(Inputs(base, first, second), winner, merged);
    if length > limits.maxOutputBytes {
      OutputRefuses(r, roots, base, first, second, limits, merged);
      return WorkBudgetExceeded, limited;
    }
    MergedIs(c, r, base, first, second, limits, merged, side.value);
    return Merged(merged, side.value), limited;
  }

  predicate SameChat(base: Option<ChatSnapshot>, first: ChatSnapshot, second: ChatSnapshot) {
    first.composerId == second.composerId && (base.Some? ==> base.value.composerId == first.composerId)
  }

  /** Why a budget may refuse: the preflight fails, the core's roots or the union
      of the payloads exceed theirs, or the merged snapshot is larger than the
      output may be. Once the preflight accepts it is never larger than the work. */
  ghost predicate OverBudget(r: JsonReader, roots: ChatSnapshot -> RootScan, base: Option<ChatSnapshot>,
                             first: ChatSnapshot, second: ChatSnapshot, limits: MergeLimits)
    requires Elects(r, base, first, second).Some?
  {
    var winner := Pick(Elects(r, base, first, second).value, first, second);
    || !CountsFit(Inputs(base, first, second), limits.maxBubbleRowWork)
    || Work(Inputs(base, first, second), winner, winner.agentKv.Some?) > limits.maxWorkBytes
    || (exists m ::
          IsBuilt(r, roots, base, first, second, m) && Bytes(Stringify(SnapshotJson(m))) > limits.maxOutputBytes)
    || exists core :: MergeStep(r, base, first, second, core) && CoreTooLarge(roots(core), base, first, second, winner)
  }

  /** What the merge builds before it measures it. */
  ghost predicate IsBuilt(r: JsonReader, roots: ChatSnapshot -> RootScan, base: Option<ChatSnapshot>,
                          first: ChatSnapshot, second: ChatSnapshot, m: ChatSnapshot)
  {
    && MergeStep(r, base, first, second, m) && StrictlySorted(Keys(m.bubbles))
    && var winner := Pick(Elects(r, base, first, second).value, first, second);
    && m.agentKv.Some? == winner.agentKv.Some?
    && var scan := roots(m.(agentKv := None));
    && (m.agentKv.Some? ==> scan.Roots? && PayloadOf(base, first, second, winner, scan.ids, m.agentKv.value))
  }

  ghost predicate CoreTooLarge(scan: RootScan, base: Option<ChatSnapshot>, first: ChatSnapshot, second: ChatSnapshot,
                               winner: ChatSnapshot)
  {
    scan.StructureLimit? ||
    (scan.Roots?
     && !(BlobsFit(AllBlobs(Payloads(base, first, second)))
          && |Declared(Payloads(base, first, second), winner.agentKv, scan.ids)| <= MAX_NODES))
  }

  lemma PreflightRefuses(r: JsonReader, roots: ChatSnapshot -> RootScan, base: Option<ChatSnapshot>,
                         first: ChatSnapshot, second: ChatSnapshot, limits: MergeLimits, side: Side)
    requires Elects(r, base, first, second) == Some(side)
    requires var w := Pick(side, first, second);
      !(CountsFit(Inputs(base, first, second), limits.maxBubbleRowWork)
        && Work(Inputs(base, first, second), w, w.agentKv.Some?) <= limits.maxWorkBytes)
    ensures OverBudget(r, roots, base, first, second, limits)
  {
    hide CountsFit, Work, Elects;
  }

  lemma CoreRefuses(r: JsonReader, roots: ChatSnapshot -> RootScan, base: Option<ChatSnapshot>, first: ChatSnapshot,
                    second: ChatSnapshot, limits: MergeLimits, side: Side, core: ChatSnapshot)
    requires Elects(r, base, first, second) == Some(side) && MergeStep(r, base, first, second, core)
    requires CoreTooLarge(roots(core), base, first, second, Pick(side, first, second))
    ensures OverBudget(r, roots, base, first, second, limits)
  {
    hide CountsFit, Work, Elects, MergeStep, CoreTooLarge;
  }

  lemma OutputRefuses(r: JsonReader, roots: ChatSnapshot -> RootScan, base: Option<ChatSnapshot>, first: ChatSnapshot,
                      second: ChatSnapshot, limits: MergeLimits, m: ChatSnapshot)
    requires IsBuilt(r, roots, base, first, second, m) && Bytes(Stringify(SnapshotJson(m))) > limits.maxOutputBytes
    ensures Elects(r, base, first, second).Some? && OverBudget(r, roots, base, first, second, limits)
  {
    hide CountsFit, Work, Elects, CoreTooLarge, Merge, Index, PayloadOf, Bytes, Stringify, SnapshotJson;
  }

  /** The merged payload: the union's blobs and what the winner declares. */
  ghost predicate PayloadOf(base: Option<ChatSnapshot>, first: ChatSnapshot, second: ChatSnapshot, winner: ChatSnapshot,
                            coreRoots: seq<Text>, kv: AgentKv)
  {
    && Elements(kv.blobs) == FirstSeen(AllBlobs(Payloads(base, first, second))).Values
    && Elements(kv.referencedIds) == Declared(Payloads(base, first, second), winner.agentKv, coreRoots)
  }

  lemma PayloadIs(base: Option<ChatSnapshot>, first: ChatSnapshot, second: ChatSnapshot, winner: ChatSnapshot,
                  coreRoots: seq<Text>, kv: AgentKv)
    requires Elements(kv.blobs) == FirstSeen(AllBlobs(Payloads(base, first, second))).Values
    requires Elements(kv.referencedIds) == Declared(Payloads(base, first, second), winner.agentKv, coreRoots)
    ensures PayloadOf(base, first, second, winner, coreRoots, kv)
  {
  }

  lemma ParsedTexts(c: Codec, base: Option<ChatSnapshot>, first: ChatSnapshot, second: ChatSnapshot)
    requires InputsParsed(c, base, first, second)
    ensures RowsText(first) && RowsText(second) && (base.Some? ==> RowsText(base.value))
    ensures HasTextRows(first) && HasTextRows(second) && (base.Some? ==> HasTextRows(base.value))
    ensures HeaderOk(first.header) && HeaderOk(second.header)
    ensures forall i :: 0 <= i < |Inputs(base, first, second)| ==> RowsText(Inputs(base, first, second)[i])
  {
    hide IsParsed, HeaderOk, HasTextRows, RowsText;
    ParsedText(c, first);
    ParsedText(c, second);
    if base.Some? {
      ParsedText(c, base.value);
    }
  }

  lemma ParsedText(c: Codec, s: ChatSnapshot)
    requires IsParsed(c, s)
    ensures RowsText(s) && HasTextRows(s) && HeaderOk(s.header)
  {
    hide ValidBlob, HeaderOk, StrictlySorted, TotalBytes, BlobIds, ValidIds;
    if s.agentKv.Some? {
      forall row | row in s.agentKv.value.blobs ensures Base64.IsText(row.valueBase64) {
        var i :| 0 <= i < |s.agentKv.value.blobs| && s.agentKv.value.blobs[i] == row;
        BlobIsText(c, row);
      }
    }
  }

  lemma BlobIsText(c: Codec, row: Row)
    requires ValidBlob(c, row)
    ensures Base64.IsText(row.valueBase64)
  {
  }

  lemma PayloadsParsed(c: Codec, base: Option<ChatSnapshot>, first: ChatSnapshot, second: ChatSnapshot)
    requires InputsParsed(c, base, first, second)
    ensures InputsValid(c, Payloads(base, first, second))
  {
    hide ValidPayload, HeaderOk;
  }

  lemma WinnerParsed(c: Codec, base: Option<ChatSnapshot>, first: ChatSnapshot, second: ChatSnapshot, side: Side)
    requires InputsParsed(c, base, first, second)
    ensures var w := Pick(side, first, second); w.agentKv.Some? ==> ValidPayload(c, w.agentKv.value)
  {
    hide ValidPayload, HeaderOk;
  }

  lemma PayloadBuilt(c: Codec, base: Option<ChatSnapshot>, first: ChatSnapshot, second: ChatSnapshot,
                     winner: ChatSnapshot, coreRoots: seq<Text>, kv: AgentKv)
    requires ValidPayload(c, kv) && PayloadOf(base, first, second, winner, coreRoots, kv)
    requires |Declared(Payloads(base, first, second), winner.agentKv, coreRoots)| <= MAX_NODES
    ensures PayloadBuiltFrom(Inputs(base, first, second), kv)
  {
    hide ValidBlob, ValidIds, TotalBytes, FirstSeen, Declared;
    PayloadRows(base, first, second);
    SortedSize(kv.referencedIds);
    SortedSize(kv.missingIds);
    SubsetSize(Elements(kv.missingIds), Elements(kv.referencedIds));
    assert StrictlySorted(kv.referencedIds) && StrictlySorted(kv.missingIds) by {
      IdsSorted(kv.referencedIds);
      IdsSorted(kv.missingIds);
    }
  }

  lemma IdsSorted(ids: seq<Text>)
    requires ValidIds(ids)
    ensures StrictlySorted(ids)
  {
  }

  lemma {:induction false} SortedSize(ids: seq<Text>)
    requires ValidIds(ids)
    ensures |Elements(ids)| == |ids|
  {
    hide Less, IsId;
    if ids != [] {
      var n := |ids| - 1;
      assert ids == ids[..n] + [ids[n]];
      SortedSize(ids[..n]);
      assert Elements(ids) == Elements(ids[..n]) + {ids[n]};
      if ids[n] in Elements(ids[..n]) {
        var j :| 0 <= j < n && ids[..n][j] == ids[n];
        SortedNoDuplicates(ids, j, n);
        assert false;
      }
    }
  }

  lemma PayloadRows(base: Option<ChatSnapshot>, first: ChatSnapshot, second: ChatSnapshot)
    ensures FirstSeen(AllBlobs(Payloads(base, first, second))).Values <= AllPayloadRows(Inputs(base, first, second))
  {
    hide FirstSeen, AllBlobs, AllPayloadRows;
    var payloads, snapshots := Payloads(base, first, second), Inputs(base, first, second);
    FirstSeenKeyed(AllBlobs(payloads));
    forall row | row in FirstSeen(AllBlobs(payloads)).Values ensures row in AllPayloadRows(snapshots) {
      AllBlobsIn(payloads, row);
      var p :| p in payloads && p.Some? && row in p.value.blobs;
      var i := if p == first.agentKv then |snapshots| - 2 else if p == second.agentKv then |snapshots| - 1 else 0;
      InPayloadRows(snapshots, i, row);
    }
  }

  lemma {:induction false} InPayloadRows(snapshots: seq<ChatSnapshot>, i: nat, row: Row)
    requires i < |snapshots| && snapshots[i].agentKv.Some? && row in snapshots[i].agentKv.value.blobs
    ensures row in AllPayloadRows(snapshots)
  {
    if i < |snapshots| - 1 {
      InPayloadRows(snapshots[..|snapshots| - 1], i, row);
    }
  }

  lemma {:induction false} InBubbles(snapshots: seq<ChatSnapshot>, i: nat, row: Row)
    requires i < |snapshots| && row in snapshots[i].bubbles
    ensures row in AllBubbles(snapshots)
  {
    if i < |snapshots| - 1 {
      InBubbles(snapshots[..|snapshots| - 1], i, row);
    }
  }

  /** Every merged row is a row of an input. */
  lemma MergedRowFrom(base: Option<ChatSnapshot>, first: ChatSnapshot, second: ChatSnapshot, rows: seq<Row>, row: Row)
    requires Merge(BaseTable(base), Index(first.bubbles), Index(second.bubbles)) == Some(Index(rows))
    requires StrictlySorted(Keys(rows)) && row in rows
    ensures row in first.bubbles || row in second.bubbles || (base.Some? && row in base.value.bubbles)
  {
    hide Merge, Index, MergeRow, Less;
    var i :| 0 <= i < |rows| && rows[i] == row;
    SortedIndex(rows, i);
    MergeAt(BaseTable(base), Index(first.bubbles), Index(second.bubbles), row.key);
    IndexRows(first.bubbles);
    IndexRows(second.bubbles);
    if base.Some? {
      IndexRows(base.value.bubbles);
    }
    ChosenFrom(At(BaseTable(base), row.key), At(Index(first.bubbles), row.key), At(Index(second.bubbles), row.key));
  }

  lemma ChosenFrom(base: Option<Row>, a: Option<Row>, b: Option<Row>)
    ensures MergeRow(base, a, b).Kept? ==>
              var row := Some(MergeRow(base, a, b).row); row == base || row == a || row == b
  {
  }

  /** The merged snapshot is what the parser would accept. */
  lemma MergedParsed(c: Codec, r: JsonReader, base: Option<ChatSnapshot>, first: ChatSnapshot, second: ChatSnapshot,
                     side: Side, m: ChatSnapshot)
    requires InputsParsed(c, base, first, second) && first.composerId == second.composerId
    requires (base.Some? ==> base.value.composerId == first.composerId)
    requires var w := Pick(side, first, second);
             m.composerId == w.composerId && m.header == w.header && m.composerData == w.composerData
    requires Merge(BaseTable(base), Index(first.bubbles), Index(second.bubbles)) == Some(Index(m.bubbles))
    requires StrictlySorted(Keys(m.bubbles))
    requires m.agentKv.Some? ==>
               ValidPayload(c, m.agentKv.value) && PayloadBuiltFrom(Inputs(base, first, second), m.agentKv.value)
    ensures IsParsed(c, m) && RowsText(m) && HeaderOk(m.header)
    ensures BuiltFrom(Inputs(base, first, second), Pick(side, first, second), m)
  {
    hide Merge, Index, HeaderOk, ValidPayload, StrictlySorted, PayloadBuiltFrom, AllBubbles;
    forall row | row in m.bubbles
      ensures row in AllBubbles(Inputs(base, first, second)) && IsParsedRow(row) && BubblePrefix(m.composerId) < row.key
    {
      MergedRowFrom(base, first, second, m.bubbles, row);
      var n := |Inputs(base, first, second)|;
      var i := if row in first.bubbles then n - 2 else if row in second.bubbles then n - 1 else 0;
      InBubbles(Inputs(base, first, second), i, row);
    }
    forall i, j | 0 <= i < j < |m.bubbles| ensures m.bubbles[i].key != m.bubbles[j].key {
      if m.bubbles[i].key == m.bubbles[j].key {
        assert Keys(m.bubbles)[i] == Keys(m.bubbles)[j];
        SortedNoDuplicates(Keys(m.bubbles), i, j);
      }
    }
    assert IsParsed(c, m);
    ParsedText(c, m);
  }

  lemma MergedIs(c: Codec, r: JsonReader, base: Option<ChatSnapshot>, first: ChatSnapshot, second: ChatSnapshot,
                 limits: MergeLimits, m: ChatSnapshot, side: Side)
    requires Elects(r, base, first, second) == Some(side)
    requires var w := Pick(side, first, second);
      m.composerId == w.composerId && m.header == w.header && m.composerData == w.composerData
      && m.agentKv.Some? == w.agentKv.Some?
    requires Merge(BaseTable(base), Index(first.bubbles), Index(second.bubbles)) == Some(Index(m.bubbles))
    requires StrictlySorted(Keys(m.bubbles))
    requires IsParsed(c, m) && Bytes(Stringify(SnapshotJson(m))) <= limits.maxOutputBytes
    requires Bytes(Stringify(SnapshotJson(m))) <= limits.maxWorkBytes
    ensures IsMerge(c, r, base, first, second, limits, m)
  {
    hide Elects, Merge, Index, IsParsed, Bytes, Stringify, SnapshotJson;
  }
}
