/** The union of content payloads, mergeAgentKvSnapshots of src/chat/chatMerge.ts. */
module KvMerge {
  import opened Basics
  import opened Sums
  import opened Reach
  import opened Portable
  import Base64

  const MAX_NODES := 4_096
  const MAX_BYTES := 32 * 1024 * 1024

  // ----- The blobs -----

  /** The first row of every key. */
  function FirstSeen(rows: seq<Row>): map<Text, Row> {
    if rows == [] then map[]
    else
      var last := rows[|rows| - 1];
      var seen := FirstSeen(rows[..|rows| - 1]);
      if last.key in seen then seen else seen[last.key := last]
  }

  function SizeOf(row: Row): nat {
    |RowBytes(row)|
  }

  ghost function BytesOf(rows: set<Row>): nat {
    Sum(SizeOf, rows)
  }

  ghost predicate BlobsFit(rows: seq<Row>) {
    |FirstSeen(rows)| <= MAX_NODES && BytesOf(FirstSeen(rows).Values) <= MAX_BYTES
  }

  lemma {:induction false} FirstSeenKeyed(rows: seq<Row>)
    ensures var m := FirstSeen(rows);
            && (forall k :: k in m ==> m[k].key == k && m[k] in rows)
            && (forall row :: row in rows ==> row.key in m)
  {
    if rows != [] {
      assert rows == rows[..|rows| - 1] + [rows[|rows| - 1]];
      FirstSeenKeyed(rows[..|rows| - 1]);
    }
  }

  lemma FirstSeenStep(rows: seq<Row>, row: Row)
    ensures var m := FirstSeen(rows);
            var n := FirstSeen(rows + [row]);
            if row.key in m then n == m
            else && n == m[row.key := row] && |n| == |m| + 1
                 && n.Values == m.Values + {row} && BytesOf(n.Values) == BytesOf(m.Values) + SizeOf(row)
  {
    hide SizeOf;
    assert (rows + [row])[..|rows|] == rows;
    var m, n := FirstSeen(rows), FirstSeen(rows + [row]);
    if row.key !in m {
      FirstSeenKeyed(rows);
      assert n.Keys == m.Keys + {row.key};
      NewValue(m, row);
      SumInsert(SizeOf, m.Values, row);
    }
  }

  lemma NewValue(m: map<Text, Row>, row: Row)
    requires row.key !in m && forall k :: k in m ==> m[k].key == k
    ensures m[row.key := row].Values == m.Values + {row} && row !in m.Values
  {
    var n := m[row.key := row];
    forall r ensures r in n.Values <==> r in m.Values + {row} {
      if r in m.Values {
        var k :| k in m && m[k] == r;
        assert n[k] == r;
      }
      assert n[row.key] == row;
    }
  }

  lemma {:induction false} BlobsFitPrefix(a: seq<Row>, b: seq<Row>)
    requires BlobsFit(a + b)
    ensures BlobsFit(a)
    decreases |b|
  {
    hide SizeOf, FirstSeen;
    if b == [] {
      assert a + b == a;
    } else {
      var init, last := b[..|b| - 1], b[|b| - 1];
      assert a + b == (a + init) + [last];
      FirstSeenStep(a + init, last);
      BlobsFitPrefix(a, init);
    }
  }

  /** decodedBase64Bytes of text the parser accepted. */
  lemma DecodedBytes(row: Row)
    requires Base64.IsText(row.valueBase64)
    ensures Base64.DecodedLength(row.valueBase64) == SizeOf(row)
  {
    Base64.DecodedLengthExact(row.valueBase64);
  }

  /** The blobs of one payload after those of the payloads before it. */
  method AddBlobs(rows: seq<Row>, blobs: map<Text, Row>, decodedBlobBytes: nat, ghost before: seq<Row>)
    returns (ok: bool, blobs': map<Text, Row>, decodedBlobBytes': nat)
    requires forall row :: row in rows ==> Base64.IsText(row.valueBase64)
    requires BlobsFit(before) && blobs == FirstSeen(before) && decodedBlobBytes == BytesOf(blobs.Values)
    ensures ok <==> BlobsFit(before + rows)
    ensures ok ==> blobs' == FirstSeen(before + rows) && decodedBlobBytes' == BytesOf(blobs'.Values)
  {
    hide FirstSeen, BytesOf, SizeOf;
    blobs', decodedBlobBytes' := blobs, decodedBlobBytes;
    assert before + rows[..0] == before;
    for i := 0 to |rows|
      invariant BlobsFit(before + rows[..i])
      invariant blobs' == FirstSeen(before + rows[..i]) && decodedBlobBytes' == BytesOf(blobs'.Values)
    {
      var blob := rows[i];
      assert before + rows[..i + 1] == (before + rows[..i]) + [blob];
      assert before + rows == (before + rows[..i + 1]) + rows[i + 1..];
      FirstSeenStep(before + rows[..i], blob);
      DecodedBytes(blob);
      if blob.key !in blobs' {
        var blobBytes := Base64.DecodedLength(blob.valueBase64);
        if |blobs'| >= MAX_NODES || blobBytes > MAX_BYTES - decodedBlobBytes' {
          if BlobsFit(before + rows) {
            BlobsFitPrefix(before + rows[..i + 1], rows[i + 1..]);
            assert false;
          }
          return false, blobs', decodedBlobBytes';
        }
        blobs', decodedBlobBytes' := blobs'[blob.key := blob], decodedBlobBytes' + blobBytes;
      }
    }
    assert rows[..|rows|] == rows;
    return true, blobs', decodedBlobBytes';
  }

  /** The blobs of all payloads in order. */
  function AllBlobs(payloads: seq<Option<AgentKv>>): seq<Row> {
    if payloads == [] then []
    else
      var last := payloads[|payloads| - 1];
      AllBlobs(payloads[..|payloads| - 1]) + if last.Some? then last.value.blobs else []
  }

  lemma {:induction false} AllBlobsPrefix(payloads: seq<Option<AgentKv>>, i: nat)
    requires i <= |payloads|
    ensures AllBlobs(payloads[..i]) <= AllBlobs(payloads)
    decreases |payloads| - i
  {
    if i < |payloads| {
      assert payloads[..i + 1][..i] == payloads[..i];
      AllBlobsPrefix(payloads, i + 1);
    } else {
      assert payloads[..i] == payloads;
    }
  }

  lemma {:induction false} AllBlobsIn(payloads: seq<Option<AgentKv>>, row: Row)
    ensures row in AllBlobs(payloads) <==> exists p :: p in payloads && p.Some? && row in p.value.blobs
  {
    if payloads != [] {
      var init, last := payloads[..|payloads| - 1], payloads[|payloads| - 1];
      assert payloads == init + [last];
      AllBlobsIn(init, row);
    }
  }

  /** No two input rows of one key can differ in content: both hash to the id. */
  ghost predicate InputsValid(c: Codec, payloads: seq<Option<AgentKv>>) {
    forall p :: p in payloads && p.Some? ==> ValidPayload(c, p.value)
  }

  lemma InputRowValid(c: Codec, payloads: seq<Option<AgentKv>>, row: Row)
    requires InputsValid(c, payloads) && row in AllBlobs(payloads)
    ensures ValidBlob(c, row)
  {
    hide ValidBlob;
    AllBlobsIn(payloads, row);
    var p :| p in payloads && p.Some? && row in p.value.blobs;
  }

  method CollectBlobs(ghost c: Codec, payloads: seq<Option<AgentKv>>) returns (r: Option<map<Text, Row>>)
    requires InputsValid(c, payloads)
    ensures r == if BlobsFit(AllBlobs(payloads)) then Some(FirstSeen(AllBlobs(payloads))) else None
  {
    hide BytesOf, InputsValid, FirstSeen;
    var blobs, decodedBlobBytes := map[], 0;
    NothingFits();
    assert payloads[..0] == [];
    for i := 0 to |payloads|
      invariant BlobsFit(AllBlobs(payloads[..i]))
      invariant blobs == FirstSeen(AllBlobs(payloads[..i])) && decodedBlobBytes == BytesOf(blobs.Values)
    {
      assert payloads[..i + 1][..i] == payloads[..i] && payloads[..i + 1][i] == payloads[i];
      AllBlobsPrefix(payloads, i + 1);
      if payloads[i].Some? {
        var rows := payloads[i].value.blobs;
        RowsAreText(c, payloads, i);
        var ok;
        ok, blobs, decodedBlobBytes := AddBlobs(rows, blobs, decodedBlobBytes, AllBlobs(payloads[..i]));
        if !ok {
          if BlobsFit(AllBlobs(payloads)) {
            var part := AllBlobs(payloads[..i + 1]);
            assert AllBlobs(payloads) == part + AllBlobs(payloads)[|part|..];
            BlobsFitPrefix(part, AllBlobs(payloads)[|part|..]);
            assert false;
          }
          return None;
        }
      } else {
        assert AllBlobs(payloads[..i]) + [] == AllBlobs(payloads[..i]);
      }
    }
    assert payloads[..|payloads|] == payloads;
    return Some(blobs);
  }

  lemma NothingFits()
    ensures FirstSeen([]) == map[] && BytesOf({}) == 0 && BlobsFit([]) && BytesOf(FirstSeen([]).Values) == 0
  {
    SumEmpty(SizeOf);
    assert FirstSeen([]).Values == {};
  }

  lemma RowsAreText(c: Codec, payloads: seq<Option<AgentKv>>, i: nat)
    requires InputsValid(c, payloads) && i < |payloads| && payloads[i].Some?
    ensures forall row :: row in payloads[i].value.blobs ==> Base64.IsText(row.valueBase64)
  {
    hide ValidPayload;
    forall row | row in payloads[i].value.blobs ensures Base64.IsText(row.valueBase64) {
      AllBlobsIn(payloads, row);
      assert payloads[i] in payloads;
      InputRowValid(c, payloads, row);
    }
  }

  // ----- The references -----

  /** addBoundedAgentKvReference for each id. */
  method AddReferences(ids: seq<Text>, referenced: set<Text>) returns (ok: bool, r: set<Text>)
    requires |referenced| <= MAX_NODES
    ensures ok <==> |referenced + Elements(ids)| <= MAX_NODES
    ensures ok ==> r == referenced + Elements(ids)
  {
    r := referenced;
    for i := 0 to |ids|
      invariant r == referenced + Elements(ids[..i]) && |r| <= MAX_NODES
    {
      assert ids[..i + 1] == ids[..i] + [ids[i]];
      assert referenced + Elements(ids[..i + 1]) == r + {ids[i]};
      if ids[i] !in r {
        if |r| >= MAX_NODES {
          assert ids[i] in Elements(ids);
          SubsetSize(r + {ids[i]}, referenced + Elements(ids));
          return false, r;
        }
        r := r + {ids[i]};
      }
    }
    assert ids[..|ids|] == ids;
    return true, r;
  }

  /** ids.filter(id => !materialized(id)) */
  function Without(ids: seq<Text>, materialized: set<Text>): seq<Text> {
    if ids == [] then []
    else (if ids[0] in materialized then [] else [ids[0]]) + Without(ids[1..], materialized)
  }

  lemma {:induction false} WithoutElements(ids: seq<Text>, materialized: set<Text>)
    ensures Elements(Without(ids, materialized)) == Elements(ids) - materialized
    ensures |Without(ids, materialized)| <= |ids|
  {
    if ids != [] {
      WithoutElements(ids[1..], materialized);
      assert Elements(ids) == {ids[0]} + Elements(ids[1..]) by {
        assert ids == [ids[0]] + ids[1..];
      }
      var rest := Without(ids[1..], materialized);
      assert Elements([ids[0]] + rest) == {ids[0]} + Elements(rest);
      assert [] + rest == rest;
    }
  }

  lemma {:induction false} WithoutSorted(ids: seq<Text>, materialized: set<Text>)
    requires StrictlySorted(ids)
    ensures StrictlySorted(Without(ids, materialized))
  {
    hide Less;
    if ids != [] {
      var rest := Without(ids[1..], materialized);
      WithoutSorted(ids[1..], materialized);
      if ids[0] !in materialized {
        WithoutElements(ids[1..], materialized);
        forall i | 0 <= i < |rest| ensures Less(ids[0], rest[i]) {
          assert rest[i] in Elements(rest);
          var j :| 0 <= j < |ids[1..]| && ids[1..][j] == rest[i];
          assert ids[j + 1] == rest[i];
        }
        PrependSorted(ids[0], rest);
      } else {
        assert [] + rest == rest;
      }
    }
  }

  lemma PrependSorted(x: Text, s: seq<Text>)
    requires StrictlySorted(s) && forall i :: 0 <= i < |s| ==> Less(x, s[i])
    ensures StrictlySorted([x] + s)
  {
    hide Less;
  }

  // ----- The payload -----

  /** The ids the merged payload declares: those it materializes, those the
      winner declares, and the roots of the winner's core. */
  ghost function Declared(payloads: seq<Option<AgentKv>>, winner: Option<AgentKv>, coreRoots: seq<Text>): set<Text> {
    BlobIds(AllBlobs(payloads)) + (if winner.Some? then Elements(winner.value.referencedIds) else {})
    + Elements(coreRoots)
  }

  /** mergeAgentKvSnapshots: nothing when a budget is exceeded, else a payload
      the parser's validator accepts, which materializes every id an input does
      with the row first seen for it. */
  method MergeAgentKvSnapshots(ghost c: Codec, payloads: seq<Option<AgentKv>>, winner: Option<AgentKv>,
                               coreRoots: seq<Text>)
    returns (r: Option<AgentKv>)
    requires InputsValid(c, payloads) && (winner.Some? ==> ValidPayload(c, winner.value))
    requires forall i :: 0 <= i < |coreRoots| ==> IsId(coreRoots[i])
    ensures r.Some? <==> BlobsFit(AllBlobs(payloads)) && |Declared(payloads, winner, coreRoots)| <= MAX_NODES
    ensures r.Some? ==> ValidPayload(c, r.value)
    ensures r.Some? ==> Elements(r.value.blobs) == FirstSeen(AllBlobs(payloads)).Values
    ensures r.Some? ==> Elements(r.value.referencedIds) == Declared(payloads, winner, coreRoots)
  {
    hide InputsValid, ValidPayload, BlobsFit, FirstSeen, AllBlobs, IsId, BlobIds;
    var collected := CollectBlobs(c, payloads);
    if collected == None {
      return None;
    }
    var blobs := collected.value;
    var keys := SortTexts(blobs.Keys);
    BlobsWithin(c, payloads, keys);
    var referenced := CollectReferences(keys, winner, coreRoots);
    if referenced == None {
      return None;
    }
    var sortedReferenced := SortTexts(referenced.value);
    var sortedBlobs := RowsOf(blobs, keys);
    var missing := Without(sortedReferenced, Elements(IdsOfKeys(keys)));
    var p := AgentKv(sortedBlobs, sortedReferenced, missing);
    MergedIsValid(c, payloads, winner, coreRoots, keys, p);
    return Some(p);
  }

  /** The references in the order the source adds them. */
  method CollectReferences(keys: seq<Text>, winner: Option<AgentKv>, coreRoots: seq<Text>)
    returns (r: Option<set<Text>>)
    requires |Elements(IdsOfKeys(keys))| <= MAX_NODES
    ensures var fromWinner := if winner.Some? then Elements(winner.value.referencedIds) else {};
            var declared := Elements(IdsOfKeys(keys)) + fromWinner + Elements(coreRoots);
            r == if |declared| <= MAX_NODES then Some(declared) else None
  {
    hide IdsOfKeys;
    var blobIds := IdsOfKeys(keys);
    var winnerIds := if winner.Some? then winner.value.referencedIds else [];
    assert {} + Elements(blobIds) == Elements(blobIds);
    var ok, referenced := AddReferences(blobIds, {});
    ok, referenced := AddReferences(winnerIds, referenced);
    if !ok {
      SubsetSize(Elements(blobIds) + Elements(winnerIds),
                 Elements(blobIds) + Elements(winnerIds) + Elements(coreRoots));
      return None;
    }
    ok, referenced := AddReferences(coreRoots, referenced);
    return if ok then Some(referenced) else None;
  }

  function IdsOfKeys(keys: seq<Text>): seq<Text> {
    seq(|keys|, i requires 0 <= i < |keys| => BlobId(keys[i]))
  }

  function RowsOf(blobs: map<Text, Row>, keys: seq<Text>): seq<Row>
    requires forall k :: k in keys ==> k in blobs
  {
    seq(|keys|, i requires 0 <= i < |keys| => blobs[keys[i]])
  }

  /** The materialized ids, one for each key. */
  lemma BlobsWithin(c: Codec, payloads: seq<Option<AgentKv>>, keys: seq<Text>)
    requires BlobsFit(AllBlobs(payloads)) && InputsValid(c, payloads)
    requires StrictlySorted(keys) && Elements(keys) == FirstSeen(AllBlobs(payloads)).Keys
    requires |keys| == |FirstSeen(AllBlobs(payloads))|
    ensures Elements(IdsOfKeys(keys)) == BlobIds(AllBlobs(payloads)) && |BlobIds(AllBlobs(payloads))| <= MAX_NODES
    ensures |keys| <= MAX_NODES
  {
    hide InputsValid, FirstSeen, BytesOf, BlobId, ValidBlob;
    var rows := AllBlobs(payloads);
    FirstSeenKeyed(rows);
    var ids := IdsOfKeys(keys);
    forall id ensures id in Elements(ids) <==> id in BlobIds(rows) {
      if id in Elements(ids) {
        var i :| 0 <= i < |ids| && ids[i] == id;
        assert keys[i] in Elements(keys);
        var row := FirstSeen(rows)[keys[i]];
        assert row in rows && BlobId(row.key) == id;
      }
      if id in BlobIds(rows) {
        var row :| row in rows && BlobId(row.key) == id;
        assert row.key in Elements(keys);
        var i :| 0 <= i < |keys| && keys[i] == row.key;
        assert ids[i] == id;
      }
    }
    ElementsSize(ids);
  }

  lemma MergedIsValid(c: Codec, payloads: seq<Option<AgentKv>>, winner: Option<AgentKv>, coreRoots: seq<Text>,
                      keys: seq<Text>, p: AgentKv)
    requires InputsValid(c, payloads) && (winner.Some? ==> ValidPayload(c, winner.value))
    requires forall i :: 0 <= i < |coreRoots| ==> IsId(coreRoots[i])
    requires BlobsFit(AllBlobs(payloads)) && |Declared(payloads, winner, coreRoots)| <= MAX_NODES
    requires StrictlySorted(keys) && Elements(keys) == FirstSeen(AllBlobs(payloads)).Keys
    requires forall k :: k in keys ==> k in FirstSeen(AllBlobs(payloads))
    requires p.blobs == RowsOf(FirstSeen(AllBlobs(payloads)), keys)
    requires StrictlySorted(p.referencedIds) && Elements(p.referencedIds) == Declared(payloads, winner, coreRoots)
    requires |p.referencedIds| == |Declared(payloads, winner, coreRoots)|
    requires Elements(IdsOfKeys(keys)) == BlobIds(AllBlobs(payloads)) && |keys| <= MAX_NODES
    requires p.missingIds == Without(p.referencedIds, Elements(IdsOfKeys(keys)))
    ensures ValidPayload(c, p)
    ensures Elements(p.blobs) == FirstSeen(AllBlobs(payloads)).Values
  {
    hide InputsValid, FirstSeen, AllBlobs, BytesOf, BlobId, ValidBlob, Less, IsId, BlobsFit, TotalBytes, ValidPayload;
    hide StrictlySorted, BlobIds, RowsOf, Keys, Elements;
    var rows := AllBlobs(payloads);
    var m := FirstSeen(rows);
    FirstSeenKeyed(rows);
    WithoutElements(p.referencedIds, Elements(IdsOfKeys(keys)));
    WithoutSorted(p.referencedIds, Elements(IdsOfKeys(keys)));
    RowsValid(c, payloads, keys);
    SortedRowsBytes(m, keys);
    RowsOfKeys(m, keys);
    DeclaredIds(c, payloads, winner, coreRoots);
    IdsOfRows(m, keys);
    AllIds(p.referencedIds, Declared(payloads, winner, coreRoots));
    AllIds(p.missingIds, Declared(payloads, winner, coreRoots));
    FitsTotal(rows);
    Partitioned(c, p);
  }

  lemma RowsValid(c: Codec, payloads: seq<Option<AgentKv>>, keys: seq<Text>)
    requires InputsValid(c, payloads) && forall k :: k in keys ==> k in FirstSeen(AllBlobs(payloads))
    ensures var blobs := RowsOf(FirstSeen(AllBlobs(payloads)), keys);
            |blobs| == |keys| && Keys(blobs) == keys && forall i :: 0 <= i < |blobs| ==> ValidBlob(c, blobs[i])
  {
    hide InputsValid, FirstSeen, AllBlobs, ValidBlob;
    FirstSeenKeyed(AllBlobs(payloads));
    var blobs := RowsOf(FirstSeen(AllBlobs(payloads)), keys);
    forall i | 0 <= i < |blobs| ensures ValidBlob(c, blobs[i]) {
      assert keys[i] in keys;
      InputRowValid(c, payloads, blobs[i]);
    }
    forall i | 0 <= i < |keys| ensures Keys(blobs)[i] == keys[i] {
      assert keys[i] in keys;
    }
  }

  lemma AllIds(ids: seq<Text>, declared: set<Text>)
    requires Elements(ids) <= declared && StrictlySorted(ids) && forall id :: id in declared ==> IsId(id)
    ensures ValidIds(ids)
  {
    hide IsId, StrictlySorted;
    forall i | 0 <= i < |ids| ensures IsId(ids[i]) {
      assert ids[i] in Elements(ids);
    }
  }

  /** Removing the materialized ids from the references partitions them. */
  lemma Partitioned(c: Codec, p: AgentKv)
    requires |p.blobs| <= MAX_NODES && |p.referencedIds| <= MAX_NODES && |p.missingIds| <= MAX_NODES
    requires ValidIds(p.referencedIds) && ValidIds(p.missingIds) && StrictlySorted(Keys(p.blobs))
    requires forall i :: 0 <= i < |p.blobs| ==> ValidBlob(c, p.blobs[i])
    requires TotalBytes(p.blobs, |p.blobs|) <= MAX_TOTAL_BYTES
    requires Elements(p.missingIds) == Elements(p.referencedIds) - BlobIds(p.blobs)
    requires BlobIds(p.blobs) <= Elements(p.referencedIds)
    ensures ValidPayload(c, p)
  {
    hide ValidBlob, ValidIds, StrictlySorted, TotalBytes, BlobIds;
  }

  lemma FitsTotal(rows: seq<Row>)
    requires BlobsFit(rows)
    ensures BytesOf(FirstSeen(rows).Values) <= MAX_TOTAL_BYTES
  {
    hide FirstSeen, BytesOf;
  }

  lemma RowsOfKeys(m: map<Text, Row>, keys: seq<Text>)
    requires Elements(keys) == m.Keys && forall k :: k in keys ==> k in m
    ensures Elements(RowsOf(m, keys)) == m.Values
  {
    var rows := RowsOf(m, keys);
    forall row ensures row in Elements(rows) <==> row in m.Values {
      if row in Elements(rows) {
        var i :| 0 <= i < |rows| && rows[i] == row;
        assert keys[i] in m;
      }
      if row in m.Values {
        var k :| k in m && m[k] == row;
        assert k in Elements(keys);
        var i :| 0 <= i < |keys| && keys[i] == k;
        assert rows[i] == row;
      }
    }
  }

  lemma IdsOfRows(m: map<Text, Row>, keys: seq<Text>)
    requires (forall k :: k in keys ==> k in m) && forall k :: k in m ==> m[k].key == k
    ensures BlobIds(RowsOf(m, keys)) == Elements(IdsOfKeys(keys))
  {
    hide BlobId;
    var rows, ids := RowsOf(m, keys), IdsOfKeys(keys);
    forall id ensures id in BlobIds(rows) <==> id in Elements(ids) {
      if id in BlobIds(rows) {
        var row :| row in rows && BlobId(row.key) == id;
        var i :| 0 <= i < |rows| && rows[i] == row;
        assert ids[i] == id && keys[i] in keys;
      }
      if id in Elements(ids) {
        var i :| 0 <= i < |ids| && ids[i] == id;
        assert keys[i] in keys && rows[i] in rows;
      }
    }
  }

  /** Adding the rows up in key order gives the bytes of them all. */
  lemma SortedRowsBytes(m: map<Text, Row>, keys: seq<Text>)
    requires StrictlySorted(keys) && Elements(keys) == m.Keys && (forall k :: k in keys ==> k in m)
    requires forall k :: k in m ==> m[k].key == k
    ensures TotalBytes(RowsOf(m, keys), |keys|) == BytesOf(m.Values)
  {
    RowsOfKeys(m, keys);
    DifferentRows(m, keys);
    DistinctBytes(RowsOf(m, keys), |keys|);
    assert RowsOf(m, keys)[..|keys|] == RowsOf(m, keys);
  }

  lemma DifferentRows(m: map<Text, Row>, keys: seq<Text>)
    requires StrictlySorted(keys) && (forall k :: k in keys ==> k in m) && forall k :: k in m ==> m[k].key == k
    ensures forall i, j :: 0 <= i < j < |keys| ==> RowsOf(m, keys)[i] != RowsOf(m, keys)[j]
  {
    hide StrictlySorted;
    forall i, j | 0 <= i < j < |keys| ensures RowsOf(m, keys)[i] != RowsOf(m, keys)[j] {
      assert keys[i] in keys && keys[j] in keys;
      if keys[i] == keys[j] {
        SortedNoDuplicates(keys, i, j);
      }
    }
  }

  lemma {:induction false} DistinctBytes(rows: seq<Row>, n: nat)
    requires n <= |rows| && forall i, j :: 0 <= i < j < |rows| ==> rows[i] != rows[j]
    ensures TotalBytes(rows, n) == BytesOf(Elements(rows[..n]))
  {
    hide SizeOf, RowBytes, Elements;
    if n == 0 {
      SumEmpty(SizeOf);
      NoElements<Row>();
    } else {
      DistinctBytes(rows, n - 1);
      NewLast(rows[..n]);
      assert rows[..n][..n - 1] == rows[..n - 1];
      SumInsert(SizeOf, Elements(rows[..n - 1]), rows[n - 1]);
      RowSizeIs(rows[n - 1]);
    }
  }

  lemma NoElements<T>()
    ensures Elements<T>([]) == {}
  {
  }

  lemma RowSizeIs(row: Row)
    ensures SizeOf(row) == |RowBytes(row)|
  {
  }

  lemma DeclaredIds(c: Codec, payloads: seq<Option<AgentKv>>, winner: Option<AgentKv>, coreRoots: seq<Text>)
    requires InputsValid(c, payloads) && (winner.Some? ==> ValidPayload(c, winner.value))
    requires forall i :: 0 <= i < |coreRoots| ==> IsId(coreRoots[i])
    ensures forall id :: id in Declared(payloads, winner, coreRoots) ==> IsId(id)
  {
    hide InputsValid, AllBlobs, ValidBlob, IsId;
    forall id | id in Declared(payloads, winner, coreRoots) ensures IsId(id) {
      if id in BlobIds(AllBlobs(payloads)) {
        var row :| row in AllBlobs(payloads) && BlobId(row.key) == id;
        InputRowValid(c, payloads, row);
        ValidBlobKey(c, row);
        BlobKeyIsId(row.key);
      }
    }
  }

  lemma BlobKeyIsId(key: Text)
    requires IsBlobKey(key)
    ensures IsId(BlobId(key))
  {
  }

  // ----- What the union keeps -----

  /** Every input blob's content is in the merged payload under its key. */
  lemma UnionKeepsContent(c: Codec, payloads: seq<Option<AgentKv>>, merged: AgentKv, row: Row)
    requires InputsValid(c, payloads) && row in AllBlobs(payloads)
    requires Elements(merged.blobs) == FirstSeen(AllBlobs(payloads)).Values
    ensures exists kept ::
              kept in merged.blobs && kept.key == row.key && c.sha256(RowBytes(kept)) == c.sha256(RowBytes(row))
  {
    hide InputsValid, AllBlobs, FirstSeen, ValidBlob, RowBytes;
    FirstSeenKeyed(AllBlobs(payloads));
    var kept := FirstSeen(AllBlobs(payloads))[row.key];
    assert kept in Elements(merged.blobs);
    InputRowValid(c, payloads, row);
    InputRowValid(c, payloads, kept);
    ValidBlobHash(c, row);
    ValidBlobHash(c, kept);
  }

  lemma ValidBlobHash(c: Codec, row: Row)
    requires ValidBlob(c, row)
    ensures c.sha256(RowBytes(row)) == BlobId(row.key)
  {
  }

  /** Only ids the winner declares or its core names can be missing. */
  lemma MissingFromWinner(c: Codec, payloads: seq<Option<AgentKv>>, winner: Option<AgentKv>, coreRoots: seq<Text>,
                          merged: AgentKv, id: Text)
    requires ValidPayload(c, merged) && Elements(merged.blobs) == FirstSeen(AllBlobs(payloads)).Values
    requires Elements(merged.referencedIds) == Declared(payloads, winner, coreRoots)
    ensures id in merged.missingIds <==>
      id !in BlobIds(AllBlobs(payloads)) && ((winner.Some? && id in winner.value.referencedIds) || id in coreRoots)
  {
    hide AllBlobs, FirstSeen, ValidBlob, ValidIds, Less, TotalBytes, BlobId;
    FirstSeenKeyed(AllBlobs(payloads));
    var rows, m := AllBlobs(payloads), FirstSeen(AllBlobs(payloads));
    assert BlobIds(merged.blobs) == BlobIds(rows) by {
      forall id ensures id in BlobIds(merged.blobs) <==> id in BlobIds(rows) {
        if id in BlobIds(merged.blobs) {
          var row :| row in merged.blobs && BlobId(row.key) == id;
          assert row in Elements(merged.blobs);
        }
        if id in BlobIds(rows) {
          var row :| row in rows && BlobId(row.key) == id;
          assert m[row.key] in Elements(merged.blobs);
        }
      }
    }
    assert id in merged.missingIds <==> id in Elements(merged.missingIds);
  }
}
