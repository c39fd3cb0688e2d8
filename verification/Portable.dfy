/** Portable chat snapshots of src/chat/stateVscdb.ts and the validator of their
    content-addressed payload. */
module Portable {
  import opened Basics
  import opened Reach
  import Base64
  import Schema

  /** SQLite storage classes a row may name; any other string is OtherClass. */
  datatype StorageClass = TextClass | BlobClass | NullClass | OtherClass

  datatype Row = Row(key: Text, valueBase64: Text, valueType: Option<StorageClass>)

  datatype AgentKv = AgentKv(blobs: seq<Row>, referencedIds: seq<Text>, missingIds: seq<Text>)

  /** The hash of content ids, and whether bytes survive UTF-8 decoding. */
  datatype Codec = Codec(sha256: seq<byte> -> Text, isUtf8: seq<byte> -> bool)

  const MAX_ENTRIES := 250_000
  const MAX_TOTAL_BYTES := 512 * 1024 * 1024

  /** 64 lower-case hexadecimal digits. */
  predicate IsId(t: Text) {
    |t| == 64 && forall i :: 0 <= i < 64 ==> 0x30 <= t[i] <= 0x39 || 0x61 <= t[i] <= 0x66
  }

  predicate IsBlobKey(key: Text) {
    BLOB_PREFIX <= key && IsId(key[|BLOB_PREFIX|..])
  }

  /** key.slice(AGENT_KV_BLOB_PREFIX.length) */
  function BlobId(key: Text): Text {
    if |key| < |BLOB_PREFIX| then [] else key[|BLOB_PREFIX|..]
  }

  function Keys(rows: seq<Row>): seq<Text> {
    seq(|rows|, i requires 0 <= i < |rows| => rows[i].key)
  }

  function BlobIds(blobs: seq<Row>): set<Text> {
    set row | row in blobs :: BlobId(row.key)
  }

  function RowBytes(row: Row): seq<byte> {
    if Base64.IsText(row.valueBase64) then Base64.Decode(row.valueBase64) else []
  }

  /** Decoded bytes of the first n blobs. */
  function TotalBytes(blobs: seq<Row>, n: nat): nat
    requires n <= |blobs|
  {
    if n == 0 then 0 else TotalBytes(blobs, n - 1) + |RowBytes(blobs[n - 1])|
  }

  /** A blob row is what its id claims. */
  predicate ValidBlob(c: Codec, row: Row) {
    && IsBlobKey(row.key)
    && Base64.IsCanonical(row.valueBase64)
    && (row.valueType == Some(TextClass) || row.valueType == Some(BlobClass))
    && (row.valueType == Some(TextClass) ==> c.isUtf8(RowBytes(row)))
    && c.sha256(RowBytes(row)) == BlobId(row.key)
  }

  /** The row stores the bytes under their hash, as text only if they are UTF-8. */
  ghost predicate Stores(c: Codec, row: Row, bytes: seq<byte>) {
    && row.key == BLOB_PREFIX + c.sha256(bytes) && row.valueBase64 == Base64.Encode(bytes)
    && (row.valueType == Some(BlobClass) || (row.valueType == Some(TextClass) && c.isUtf8(bytes)))
  }

  /** A valid blob row is what storing some bytes under their hash leaves. */
  lemma ValidBlobMeans(c: Codec, row: Row)
    ensures ValidBlob(c, row) <==> exists bytes :: Stores(c, row, bytes) && IsId(c.sha256(bytes))
  {
    hide IsId;
    if ValidBlob(c, row) {
      assert row.key == BLOB_PREFIX + BlobId(row.key);
      assert Stores(c, row, RowBytes(row));
    }
    if bytes :| Stores(c, row, bytes) && IsId(c.sha256(bytes)) {
      Base64.EncodeIsCanonical(bytes);
      Base64.DecodeEncode(bytes);
      assert BlobId(row.key) == c.sha256(bytes);
    }
  }

  /** Ids are the hexadecimal writing of 32 bytes. */
  lemma IdIsHex(t: Text)
    ensures IsId(t) <==> exists s: seq<byte> :: |s| == 32 && Schema.Hex(s) == t
  {
    if IsId(t) {
      HexUnhex(t);
    }
    if s: seq<byte> :| |s| == 32 && Schema.Hex(s) == t {
      Schema.HexIsNumber(s);
    }
  }

  function Nibble(c: CodeUnit): int {
    if c <= 0x39 then c - 0x30 else c - 0x61 + 10
  }

  predicate IsNibble(c: CodeUnit) {
    0x30 <= c <= 0x39 || 0x61 <= c <= 0x66
  }

  function Unhex(t: Text): seq<byte>
    requires |t| % 2 == 0 && forall i :: 0 <= i < |t| ==> IsNibble(t[i])
  {
    if t == [] then []
    else
      assert IsNibble(t[0]) && IsNibble(t[1]);
      var b: byte := Nibble(t[0]) * 16 + Nibble(t[1]);
      [b] + Unhex(t[2..])
  }

  lemma {:induction false} HexUnhex(t: Text)
    requires |t| % 2 == 0 && forall i :: 0 <= i < |t| ==> IsNibble(t[i])
    ensures |Unhex(t)| == |t| / 2 && Schema.Hex(Unhex(t)) == t
  {
    if t != [] {
      HexUnhex(t[2..]);
      var b := Nibble(t[0]) * 16 + Nibble(t[1]);
      assert b / 16 == Nibble(t[0]) && b % 16 == Nibble(t[1]);
      assert Unhex(t)[1..] == Unhex(t[2..]);
      assert t == [t[0], t[1]] + t[2..];
    }
  }

  predicate ValidIds(ids: seq<Text>) {
    (forall i :: 0 <= i < |ids| ==> IsId(ids[i])) && StrictlySorted(ids)
  }

  /** Sorted ids, sorted valid blobs, and an exact partition of the references
      into materialized and missing ones. */
  ghost predicate ValidPayload(c: Codec, p: AgentKv) {
    && |p.blobs| <= MAX_ENTRIES && |p.referencedIds| <= MAX_ENTRIES && |p.missingIds| <= MAX_ENTRIES
    && ValidIds(p.referencedIds) && ValidIds(p.missingIds)
    && (forall i :: 0 <= i < |p.blobs| ==> ValidBlob(c, p.blobs[i]))
    && StrictlySorted(Keys(p.blobs))
    && TotalBytes(p.blobs, |p.blobs|) <= MAX_TOTAL_BYTES
    && BlobIds(p.blobs) !! Elements(p.missingIds)
    && Elements(p.referencedIds) == BlobIds(p.blobs) + Elements(p.missingIds)
  }

  // ----- The validator -----

  lemma {:induction false} SortedByNeighbours(s: seq<Text>)
    ensures StrictlySorted(s) <==> forall i :: 0 < i < |s| ==> Less(s[i - 1], s[i])
  {
    if (forall i :: 0 < i < |s| ==> Less(s[i - 1], s[i])) && s != [] {
      var init := s[..|s| - 1];
      SortedByNeighbours(init);
      forall i | 0 <= i < |s| - 1 ensures Less(s[i], s[|s| - 1]) {
        if i < |s| - 2 {
          assert Less(init[i], init[|s| - 2]);
          LessTransitive(s[i], s[|s| - 2], s[|s| - 1]);
        }
      }
    }
  }

  /** isSortedUniqueAgentKvIds */
  method SortedUniqueIds(ids: seq<Text>) returns (ok: bool)
    ensures ok <==> ValidIds(ids)
  {
    SortedByNeighbours(ids);
    for i := 0 to |ids|
      invariant forall j :: 0 <= j < i ==> IsId(ids[j])
      invariant forall j :: 0 < j < i ==> Less(ids[j - 1], ids[j])
    {
      if !IsId(ids[i]) || (i > 0 && !Less(ids[i - 1], ids[i])) {
        return false;
      }
    }
    return true;
  }

  lemma TotalBytesMonotone(blobs: seq<Row>, m: nat, n: nat)
    requires m <= n <= |blobs|
    ensures TotalBytes(blobs, m) <= TotalBytes(blobs, n)
    decreases n
  {
    if m < n {
      TotalBytesMonotone(blobs, m, n - 1);
    }
  }

  lemma BlobKeyOf(key: Text)
    requires IsBlobKey(key)
    ensures key == BlobKey(BlobId(key))
  {
  }

  /** Sorted keys have distinct ids. */
  lemma IdsBefore(blobs: seq<Row>, i: nat)
    requires i < |blobs| && StrictlySorted(Keys(blobs)[..i + 1])
    requires forall j :: 0 <= j <= i ==> IsBlobKey(blobs[j].key)
    ensures BlobId(blobs[i].key) !in BlobIds(blobs[..i])
  {
    forall j | 0 <= j < i ensures BlobId(blobs[j].key) != BlobId(blobs[i].key) {
      BlobKeyOf(blobs[j].key);
      BlobKeyOf(blobs[i].key);
      LessIrreflexive(blobs[i].key);
      assert Less(Keys(blobs)[..i + 1][j], Keys(blobs)[..i + 1][i]);
    }
  }

  lemma BlobIdsStep(blobs: seq<Row>, i: nat)
    requires i < |blobs|
    ensures BlobIds(blobs[..i + 1]) == BlobIds(blobs[..i]) + {BlobId(blobs[i].key)}
  {
    assert blobs[..i + 1] == blobs[..i] + [blobs[i]];
    forall id ensures id in BlobIds(blobs[..i + 1]) <==> id in BlobIds(blobs[..i]) + {BlobId(blobs[i].key)} {
      assert blobs[i] in blobs[..i + 1];
      if id in BlobIds(blobs[..i]) {
        var row :| row in blobs[..i] && BlobId(row.key) == id;
        assert row in blobs[..i + 1];
      }
    }
  }

  /** The loop over the blobs, up to position n. */
  ghost predicate BlobsAccepted(c: Codec, p: AgentKv, n: nat)
    requires n <= |p.blobs|
  {
    && (forall i :: 0 <= i < n ==> ValidBlob(c, p.blobs[i]))
    && (forall i :: 0 < i < n ==> Less(p.blobs[i - 1].key, p.blobs[i].key))
    && TotalBytes(p.blobs, n) <= MAX_TOTAL_BYTES
    && BlobIds(p.blobs[..n]) <= Elements(p.referencedIds)
    && BlobIds(p.blobs[..n]) !! Elements(p.missingIds)
  }

  lemma AcceptedKeys(c: Codec, p: AgentKv, n: nat)
    requires n <= |p.blobs| && BlobsAccepted(c, p, n)
    ensures StrictlySorted(Keys(p.blobs)[..n])
    ensures forall j :: 0 <= j < n ==> IsBlobKey(p.blobs[j].key)
  {
    hide ValidBlob;
    SortedByNeighbours(Keys(p.blobs)[..n]);
    forall j | 0 <= j < n ensures IsBlobKey(p.blobs[j].key) {
      ValidBlobKey(c, p.blobs[j]);
    }
  }

  lemma ValidBlobKey(c: Codec, row: Row)
    requires ValidBlob(c, row)
    ensures IsBlobKey(row.key)
  {
  }

  method ValidateBlob(c: Codec, row: Row) returns (ok: bool)
    ensures ok <==> ValidBlob(c, row)
  {
    if !IsBlobKey(row.key) || !Base64.IsText(row.valueBase64)
       || (row.valueType != Some(TextClass) && row.valueType != Some(BlobClass)) {
      return false;
    }
    var bytes := Base64.Decode(row.valueBase64);
    return Base64.Encode(bytes) == row.valueBase64
        && !(row.valueType == Some(TextClass) && !c.isUtf8(bytes))
        && c.sha256(bytes) == BlobId(row.key);
  }

  /** What the loop checks of the blob at position i. */
  predicate BlobFits(c: Codec, p: AgentKv, i: nat)
    requires i < |p.blobs|
  {
    var id := BlobId(p.blobs[i].key);
    && ValidBlob(c, p.blobs[i])
    && (i > 0 ==> Less(p.blobs[i - 1].key, p.blobs[i].key))
    && TotalBytes(p.blobs, i + 1) <= MAX_TOTAL_BYTES
    && id in p.referencedIds && id !in p.missingIds
  }

  lemma AcceptStep(c: Codec, p: AgentKv, i: nat)
    requires i < |p.blobs| && BlobsAccepted(c, p, i)
    ensures BlobsAccepted(c, p, i + 1) <==> BlobFits(c, p, i)
    ensures BlobFits(c, p, i) ==> BlobId(p.blobs[i].key) !in BlobIds(p.blobs[..i])
  {
    hide ValidBlob, BlobId, BlobIds;
    BlobIdsStep(p.blobs, i);
    if BlobFits(c, p, i) {
      assert BlobsAccepted(c, p, i + 1);
      AcceptedKeys(c, p, i + 1);
      IdsBefore(p.blobs, i);
    }
  }

  method ValidateBlobs(c: Codec, p: AgentKv, referenced: set<Text>, missing: set<Text>)
    returns (ok: bool, materialized: set<Text>)
    requires referenced == Elements(p.referencedIds) && missing == Elements(p.missingIds)
    ensures ok <==> BlobsAccepted(c, p, |p.blobs|)
    ensures ok ==> materialized == BlobIds(p.blobs)
  {
    hide ValidBlob, IsBlobKey, BlobId, BlobsAccepted, BlobIds;
    materialized := {};
    var totalBytes := 0;
    NoneAccepted(c, p);
    for i := 0 to |p.blobs|
      invariant BlobsAccepted(c, p, i)
      invariant materialized == BlobIds(p.blobs[..i])
      invariant totalBytes == TotalBytes(p.blobs, i)
    {
      var row := p.blobs[i];
      BlobIdsStep(p.blobs, i);
      AcceptStep(c, p, i);
      var valid := ValidateBlob(c, row);
      var id := BlobId(row.key);
      totalBytes := totalBytes + |RowBytes(row)|;
      if !valid || (i > 0 && !Less(p.blobs[i - 1].key, row.key))
         || totalBytes > MAX_TOTAL_BYTES || id in materialized || id !in referenced || id in missing {
        NotAccepted(c, p, i);
        return false, materialized;
      }
      materialized := materialized + {id};
    }
    assert p.blobs[..|p.blobs|] == p.blobs;
    ok := true;
  }

  lemma NoneAccepted(c: Codec, p: AgentKv)
    ensures BlobsAccepted(c, p, 0) && BlobIds(p.blobs[..0]) == {}
  {
  }

  /** A step that fails keeps the whole from being accepted. */
  lemma NotAccepted(c: Codec, p: AgentKv, i: nat)
    requires i < |p.blobs| && !BlobsAccepted(c, p, i + 1)
    ensures !BlobsAccepted(c, p, |p.blobs|)
  {
    hide ValidBlob, BlobId;
    TotalBytesMonotone(p.blobs, i + 1, |p.blobs|);
    assert BlobIds(p.blobs[..i + 1]) <= BlobIds(p.blobs[..|p.blobs|]) by {
      forall row | row in p.blobs[..i + 1] ensures row in p.blobs[..|p.blobs|] {
      }
    }
  }

  /** validatePortableAgentKvPayload: no error exactly on valid payloads. */
  method ValidatePayload(c: Codec, p: AgentKv) returns (ok: bool)
    ensures ok <==> ValidPayload(c, p)
  {
    hide ValidBlob, BlobsAccepted, ValidIds, BlobIds;
    if |p.blobs| > MAX_ENTRIES || |p.referencedIds| > MAX_ENTRIES || |p.missingIds| > MAX_ENTRIES {
      return false;
    }
    var sortedReferenced := SortedUniqueIds(p.referencedIds);
    var sortedMissing := SortedUniqueIds(p.missingIds);
    if !sortedReferenced || !sortedMissing {
      return false;
    }
    var referenced, missing := Elements(p.referencedIds), Elements(p.missingIds);
    var accepted, materialized := ValidateBlobs(c, p, referenced, missing);
    AcceptedIsValid(c, p);
    if !accepted {
      return false;
    }
    var undeclared := exists id :: id in p.referencedIds && id !in materialized && id !in missing;
    var unreferenced := exists id :: id in p.missingIds && id !in referenced;
    Partition(referenced, materialized, missing);
    return !undeclared && !unreferenced && |materialized| + |missing| == |referenced|;
  }

  lemma Partition<T>(whole: set<T>, a: set<T>, b: set<T>)
    requires a <= whole && a !! b
    ensures whole == a + b <==> whole <= a + b && b <= whole
    ensures whole == a + b ==> |a| + |b| == |whole|
  {
  }

  lemma AcceptedIsValid(c: Codec, p: AgentKv)
    ensures BlobsAccepted(c, p, |p.blobs|) <==>
      && (forall i :: 0 <= i < |p.blobs| ==> ValidBlob(c, p.blobs[i]))
      && StrictlySorted(Keys(p.blobs))
      && TotalBytes(p.blobs, |p.blobs|) <= MAX_TOTAL_BYTES
      && BlobIds(p.blobs) !! Elements(p.missingIds)
      && BlobIds(p.blobs) <= Elements(p.referencedIds)
  {
    hide ValidBlob;
    SortedByNeighbours(Keys(p.blobs));
    assert p.blobs[..|p.blobs|] == p.blobs;
    if forall i :: 0 < i < |p.blobs| ==> Less(p.blobs[i - 1].key, p.blobs[i].key) {
      forall i | 0 < i < |Keys(p.blobs)| ensures Less(Keys(p.blobs)[i - 1], Keys(p.blobs)[i]) {
        assert Less(p.blobs[i - 1].key, p.blobs[i].key);
      }
    }
    if StrictlySorted(Keys(p.blobs)) {
      forall i | 0 < i < |p.blobs| ensures Less(p.blobs[i - 1].key, p.blobs[i].key) {
        assert Less(Keys(p.blobs)[i - 1], Keys(p.blobs)[i]);
      }
    }
  }
}
