/** Enrichment of published chats with locally found blobs, and the pruning of
    references it may do: src/chat/enrichment.ts. */
module Enrich {
  import opened Basics
  import opened Schema
  import opened Reach
  import opened Seeds
  import opened Walker
  import opened Portable
  import opened Canonical
  import opened Sums
  import KvMerge
  import Base64

  const ENRICHMENT_MAX_NODES := 4_096
  const WALK_MAX_DEPTH := 256

  const DEFAULT_MAX_BYTES := 512 * 1024 * 1024

  // ----- Budgets -----

  function Min(a: int, b: int): int {
    if a < b then a else b
  }

  function Max(a: int, b: int): int {
    if a < b then b else a
  }

  /** decodedBase64Length of src/chat/enrichment.ts: of any text, not only Base64. */
  function RoughLength(t: Text): int {
    if t == [] then 0 else |t| * 3 / 4 - Base64.Padding(t)
  }

  function SeedLength(states: seq<Text>): int {
    if states == [] then 0
    else
      var last := states[|states| - 1];
      SeedLength(states[..|states| - 1]) + if last != [] && last[0] == TILDE then RoughLength(last[1..]) else 0
  }

  function RowsLength(rows: seq<Row>): int {
    if rows == [] then 0 else RowsLength(rows[..|rows| - 1]) + RoughLength(rows[|rows| - 1].valueBase64)
  }

  /** What the payload limit leaves for new blobs: the room beside the source's own
      content, less a reserve for JSON, in raw bytes. */
  function AdditionalRawBudget(maxPayloadBytes: nat, sourceContentBytes: nat): nat {
    var room: nat := Max(0, maxPayloadBytes - sourceContentBytes);
    var reserve := Min(1024 * 1024, Max(16 * 1024, room / 10));
    Max(0, room - reserve) * 3 / 4
  }

  /** A tenth of the room, but no less than 16 KiB and no more than 1 MiB. */
  ghost predicate IsReserve(reserve: nat, room: int) {
    && 0x4000 <= reserve <= 0x10_0000
    && (reserve > 0x4000 ==> 10 * reserve <= room) && (reserve < 0x10_0000 ==> room < 10 * (reserve + 1))
  }

  /** The budget is the most bytes whose Base64, padding aside, fits beside the
      source's content and the reserve; none where these take all the room. */
  lemma BudgetIs(maxPayloadBytes: nat, sourceContentBytes: nat) returns (reserve: nat)
    ensures IsReserve(reserve, maxPayloadBytes - sourceContentBytes)
    ensures var left := maxPayloadBytes - sourceContentBytes - reserve;
            var budget := AdditionalRawBudget(maxPayloadBytes, sourceContentBytes);
            if left <= 0 then budget == 0 else 4 * budget <= 3 * left < 4 * (budget + 1)
  {
    reserve := Min(1024 * 1024, Max(16 * 1024, Max(0, maxPayloadBytes - sourceContentBytes) / 10));
  }

  /** The rough length of Base64 text is that of the bytes. */
  lemma RoughLengthExact(s: seq<byte>)
    ensures RoughLength(Base64.Encode(s)) == |s|
  {
    Base64.DecodeEncode(s);
    Base64.DecodedLengthExact(Base64.Encode(s));
  }

  /** Bytes the walk reads in any case: the states and the retained rows. */
  function GivenBytes(source: ChatSnapshot, states: seq<Text>): int {
    SeedLength(states) + RowsLength(PayloadOf(source).blobs)
  }

  /** One more state, and one more row, count with their bytes; what is no tilde and
      Base64 is no state. */
  lemma GivenIs(states: seq<Text>, rows: seq<Row>, row: Row, bytes: seq<byte>)
    requires row.valueBase64 == Base64.Encode(bytes)
    ensures SeedLength([]) == 0 && RowsLength([]) == 0
    ensures SeedLength(states + [[TILDE] + Base64.Encode(bytes)]) == SeedLength(states) + |bytes|
    ensures RowsLength(rows + [row]) == RowsLength(rows) + |bytes|
  {
    hide RoughLength;
    RoughLengthExact(bytes);
    var state := [TILDE] + Base64.Encode(bytes);
    assert (states + [state])[..|states|] == states && (rows + [row])[..|rows|] == rows;
    assert state[1..] == Base64.Encode(bytes);
  }

  function WalkByteBudget(source: ChatSnapshot, states: seq<Text>, additionalRawBudget: nat): int {
    Min(DEFAULT_MAX_BYTES, GivenBytes(source, states) + additionalRawBudget)
  }

  /** The walk is worth starting: its budget leaves something for new blobs, and is
      one the walk takes. */
  predicate HasWalkBudget(source: ChatSnapshot, states: seq<Text>, additionalRawBudget: nat) {
    && WalkByteBudget(source, states, additionalRawBudget) > GivenBytes(source, states)
    && WalkByteBudget(source, states, additionalRawBudget) > 0
  }

  /** The walk gets what it is given and the budget, but no more than 512 MiB, and
      starts only if that is more than nothing and more than it is given. */
  lemma WalkBudgetIs(source: ChatSnapshot, states: seq<Text>, rawBudget: nat)
    ensures var given := SeedLength(states) + RowsLength(PayloadOf(source).blobs);
            var budget := WalkByteBudget(source, states, rawBudget);
            && budget <= 0x2000_0000 && budget <= given + rawBudget
            && (budget == 0x2000_0000 || budget == given + rawBudget)
            && (HasWalkBudget(source, states, rawBudget) <==>
                  given < 0x2000_0000 && rawBudget > 0 && given + rawBudget > 0)
  {
  }

  // ----- The live store -----

  /** What a row of the database can answer: a failure, nothing, something
      unusable, or text or blob bytes. */
  ghost predicate LiveDatabase(db: Text -> LookupResult) {
    forall key ::
      match db(key)
      case Found(k, bytes, t) => k == key && bytes.Some? && (t == Some(TextValue) || t == Some(BlobValue))
      case OverBudget => false
      case NotAResult => false
      case _ => true
  }

  function Existing(blobs: seq<Row>): (m: map<Text, Row>)
    ensures forall k :: k in m ==> m[k] in blobs && m[k].key == k
    ensures forall row :: row in blobs ==> row.key in m
  {
    if blobs == [] then map[]
    else
      assert blobs == blobs[..|blobs| - 1] + [blobs[|blobs| - 1]];
      Existing(blobs[..|blobs| - 1])[blobs[|blobs| - 1].key := blobs[|blobs| - 1]]
  }

  function FoundRow(row: Row): LookupResult {
    Found(row.key, Some(RowBytes(row)), Some(if row.valueType == Some(TextClass) then TextValue else BlobValue))
  }

  /** Retained repository rows answer before the database does. */
  function LiveStore(existing: map<Text, Row>, db: Text -> LookupResult): Text -> LookupResult {
    (key: Text) => if key in existing then FoundRow(existing[key]) else db(key)
  }

  /** lookupExactBlob */
  function LookupExactBlob(existing: map<Text, Row>, db: Text -> LookupResult): (Text, nat) -> LookupResult {
    (key: Text, remaining: nat) =>
      if key in existing then FoundRow(existing[key])
      else if RowSize(db(key)) > remaining then OverBudget else db(key)
  }

  lemma LiveServes(existing: map<Text, Row>, db: Text -> LookupResult)
    requires LiveDatabase(db)
    ensures Serves(LookupExactBlob(existing, db), LiveStore(existing, db))
  {
  }

  // ----- The source -----

  function PayloadOf(s: ChatSnapshot): AgentKv {
    if s.agentKv.Some? then s.agentKv.value else AgentKv([], [], [])
  }

  function LiveWorld(c: Codec, rd: Reader, source: ChatSnapshot, db: Text -> LookupResult): World {
    World(LiveStore(Existing(PayloadOf(source).blobs), db), c.sha256, rd)
  }

  lemma WorldServes(c: Codec, rd: Reader, source: ChatSnapshot, db: Text -> LookupResult)
    requires LiveDatabase(db)
    ensures Serves(LookupExactBlob(Existing(PayloadOf(source).blobs), db), LiveWorld(c, rd, source, db).store)
  {
    hide Serves, LiveDatabase, LookupExactBlob, LiveStore;
    LiveServes(Existing(PayloadOf(source).blobs), db);
  }

  /** Content is what a retained row holds, or else what the database has under the
      id's own key, as text or as a blob, if its hash is the id. */
  lemma LiveContent(c: Codec, rd: Reader, source: ChatSnapshot, db: Text -> LookupResult, id: Id, bytes: seq<byte>)
    requires ValidPayload(c, PayloadOf(source)) && LiveDatabase(db)
    ensures (exists t :: Content(LiveWorld(c, rd, source, db), id) == Good(bytes, t)) <==>
              || (exists row :: row in PayloadOf(source).blobs && row.key == BLOB_PREFIX + id && Stores(c, row, bytes))
              || (BLOB_PREFIX + id !in Elements(Keys(PayloadOf(source).blobs)) && c.sha256(bytes) == id
                  && exists t :: db(BLOB_PREFIX + id) == Found(BLOB_PREFIX + id, Some(bytes), t))
  {
    hide Existing, Stores, LiveDatabase, ValidPayload;
    var w, key := LiveWorld(c, rd, source, db), BLOB_PREFIX + id;
    IssueMeans(w, id);
    KeysHeld(PayloadOf(source).blobs, key);
    if key in Existing(PayloadOf(source).blobs) {
      var row := Existing(PayloadOf(source).blobs)[key];
      RowStores(c, source, row);
      assert w.store(key) == FoundRow(row);
      forall own, more | own in PayloadOf(source).blobs && Stores(c, own, more) && own.key == key
        ensures own == row && more == RowBytes(row)
      {
        OnlyRow(c, source, row, own);
        StoredBytes(c, own, more);
      }
      if Stores(c, row, bytes) {
        StoredBytes(c, row, bytes);
      }
      StoredHash(c, id, row);
      assert Content(w, id).Good? ==> Content(w, id) == Good(RowBytes(row), Content(w, id).valueType);
      if Stores(c, row, bytes) {
        assert Content(w, id) == Good(bytes, Content(w, id).valueType);
      }
    } else {
      assert w.store(key) == db(key);
      DatabaseTypes(db, key);
    }
  }

  lemma KeysHeld(blobs: seq<Row>, key: Text)
    ensures key in Elements(Keys(blobs)) <==> key in Existing(blobs)
  {
    hide Existing;
    if key in Existing(blobs) {
      var i :| 0 <= i < |blobs| && blobs[i] == Existing(blobs)[key];
      assert Keys(blobs)[i] == key;
    }
    if key in Elements(Keys(blobs)) {
      var i :| 0 <= i < |blobs| && Keys(blobs)[i] == key;
      assert blobs[i] in blobs;
    }
  }

  lemma DatabaseTypes(db: Text -> LookupResult, key: Text)
    requires LiveDatabase(db)
    ensures db(key).Found? ==>
              && db(key).key == key && db(key).bytes.Some?
              && db(key).valueType.Some? && db(key).valueType != Some(ValueType.OtherValue)
  {
  }

  lemma OnlyRow(c: Codec, source: ChatSnapshot, a: Row, b: Row)
    requires ValidPayload(c, PayloadOf(source))
    requires a in PayloadOf(source).blobs && b in PayloadOf(source).blobs && a.key == b.key
    ensures a == b
  {
    var rows := PayloadOf(source).blobs;
    var i :| 0 <= i < |rows| && rows[i] == a;
    var j :| 0 <= j < |rows| && rows[j] == b;
    assert Keys(rows)[i] == Keys(rows)[j];
    SortedNoDuplicates(Keys(rows), i, j);
  }

  lemma RowStores(c: Codec, source: ChatSnapshot, row: Row)
    requires ValidPayload(c, PayloadOf(source)) && row in PayloadOf(source).blobs
    ensures Stores(c, row, RowBytes(row))
  {
    hide IsId;
    var i :| 0 <= i < |PayloadOf(source).blobs| && PayloadOf(source).blobs[i] == row;
    assert ValidBlob(c, row);
    assert row.key == BLOB_PREFIX + BlobId(row.key);
  }

  lemma StoredBytes(c: Codec, row: Row, bytes: seq<byte>)
    requires Stores(c, row, bytes)
    ensures RowBytes(row) == bytes
  {
    Base64.DecodeEncode(bytes);
  }

  lemma StoredHash(c: Codec, id: Id, row: Row)
    requires Stores(c, row, RowBytes(row)) && row.key == BLOB_PREFIX + id
    ensures c.sha256(RowBytes(row)) == id
  {
    assert row.key[|BLOB_PREFIX|..] == id;
  }

  // ----- Probing the source's missing ids -----

  datatype Probed = Probed(blobs: map<Text, Row>, proven: set<Text>, retryable: bool)

  predicate IsContentRow(c: Codec, row: Row) {
    && (row.valueType == Some(TextClass) || row.valueType == Some(BlobClass))
    && Base64.IsText(row.valueBase64) && row.key == BlobKey(c.sha256(RowBytes(row)))
  }

  /** The probe adds only verified rows of missing ids, and proves absent only
      missing ids the database has no row for. */
  ghost predicate ProbedFrom(c: Codec, db: Text -> LookupResult, missingIds: seq<Text>, blobs: map<Text, Row>,
                             p: Probed)
  {
    && blobs.Keys <= p.blobs.Keys && (forall k :: k in blobs ==> p.blobs[k] == blobs[k])
    && (forall k ::
          k in p.blobs && k !in blobs ==>
            p.blobs[k].key == k && IsContentRow(c, p.blobs[k]) && db(k).Found?
            && exists id :: id in missingIds && k == BlobKey(id))
    && (forall id :: id in p.proven ==> id in missingIds && BlobKey(id) !in blobs && db(BlobKey(id)) == Absent)
  }

  /** The database has the content the id names. */
  predicate Verified(c: Codec, db: Text -> LookupResult, id: Text) {
    match db(BlobKey(id))
    case Found(_, Some(bytes), Some(_)) => c.sha256(bytes) == id
    case _ => false
  }

  /** The probe found what there is to find of an id not known otherwise. */
  /** A verified id has bytes in the database that hash to it, as text or as a blob. */
  lemma VerifiedMeans(c: Codec, db: Text -> LookupResult, id: Text)
    requires LiveDatabase(db)
    ensures Verified(c, db, id) <==>
              exists bytes, t ::
                db(BLOB_PREFIX + id) == Found(BLOB_PREFIX + id, Some(bytes), t) && c.sha256(bytes) == id
  {
    hide LiveDatabase;
    DatabaseTypes(db, BLOB_PREFIX + id);
  }

  ghost predicate Settled(c: Codec, db: Text -> LookupResult, blobs: map<Text, Row>, walkedIds: set<Id>, p: Probed,
                          id: Text)
  {
    BlobKey(id) in blobs || id in walkedIds ||
    ((Verified(c, db, id) ==> BlobKey(id) in p.blobs) && (db(BlobKey(id)) == Absent ==> id in p.proven))
  }

  ghost predicate AllSettled(c: Codec, db: Text -> LookupResult, blobs: map<Text, Row>, walkedIds: set<Id>, p: Probed,
                             missingIds: seq<Text>, n: nat)
    requires n <= |missingIds|
  {
    forall i :: 0 <= i < n ==> Settled(c, db, blobs, walkedIds, p, missingIds[i])
  }

  /** How many ids from the i-th on are not skipped, and the bytes of those the
      database has. */
  function ProbeCount(missingIds: seq<Text>, skip: set<Id>, i: nat): nat
    requires i <= |missingIds|
    decreases |missingIds| - i
  {
    if i == |missingIds| then 0 else (if missingIds[i] in skip then 0 else 1) + ProbeCount(missingIds, skip, i + 1)
  }

  function ProbeBytes(c: Codec, db: Text -> LookupResult, missingIds: seq<Text>, skip: set<Id>, i: nat): nat
    requires i <= |missingIds|
    decreases |missingIds| - i
  {
    if i == |missingIds| then 0
    else
      (if missingIds[i] in skip || !Verified(c, db, missingIds[i]) then 0 else RowSize(db(BlobKey(missingIds[i]))))
      + ProbeBytes(c, db, missingIds, skip, i + 1)
  }

  lemma SettledGrows(c: Codec, db: Text -> LookupResult, blobs: map<Text, Row>, walkedIds: set<Id>, p: Probed,
                     q: Probed, missingIds: seq<Text>, n: nat)
    requires n < |missingIds| && AllSettled(c, db, blobs, walkedIds, p, missingIds, n)
    requires p.blobs.Keys <= q.blobs.Keys && p.proven <= q.proven && Settled(c, db, blobs, walkedIds, q, missingIds[n])
    ensures AllSettled(c, db, blobs, walkedIds, q, missingIds, n + 1)
  {
    hide Verified, BlobKey;
  }

  method ProbeMissing(c: Codec, db: Text -> LookupResult, existing: map<Text, Row>, missingIds: seq<Text>,
                      blobs: map<Text, Row>, walkedIds: set<Id>, nodes: nat, rawBytes: nat, ghost skip: set<Id>)
    returns (p: Probed)
    requires LiveDatabase(db) && existing.Keys <= blobs.Keys
    requires forall id :: id in missingIds ==> (id in skip <==> BlobKey(id) in blobs || id in walkedIds)
    ensures ProbedFrom(c, db, missingIds, blobs, p)
    ensures nodes >= ProbeCount(missingIds, skip, 0) && rawBytes >= ProbeBytes(c, db, missingIds, skip, 0) ==>
              AllSettled(c, db, blobs, walkedIds, p, missingIds, |missingIds|)
  {
    hide ProbedFrom, LiveDatabase, BlobKey, LookupExactBlob, RowOfBytes, AllSettled, Settled, RowSize, Verified;
    p := Probed(blobs, {}, false);
    var remainingNodes: nat, remainingRawBytes: nat := nodes, rawBytes;
    ghost var ample := nodes >= ProbeCount(missingIds, skip, 0) && rawBytes >= ProbeBytes(c, db, missingIds, skip, 0);
    ProbedNothing(c, db, missingIds, blobs);
    NothingSettled(c, db, blobs, walkedIds, p, missingIds);
    for i := 0 to |missingIds|
      invariant ProbedFrom(c, db, missingIds, blobs, p)
      invariant ample ==>
                  remainingNodes >= ProbeCount(missingIds, skip, i)
                  && remainingRawBytes >= ProbeBytes(c, db, missingIds, skip, i)
      invariant ample ==> AllSettled(c, db, blobs, walkedIds, p, missingIds, i)
    {
      var id := missingIds[i];
      var key := BlobKey(id);
      ghost var before := p;
      ProbedKeys(c, db, missingIds, blobs, p);
      if key !in p.blobs && id !in walkedIds {
        if remainingNodes == 0 {
          return;
        }
        remainingNodes := remainingNodes - 1;
        var debit;
        p, debit := ProbeOne(c, db, existing, missingIds, blobs, walkedIds, p, id, remainingRawBytes);
        remainingRawBytes := remainingRawBytes - debit;
      } else if ample {
        KnownSettled(c, db, missingIds, blobs, walkedIds, p, id);
      }
      if ample {
        SettledGrows(c, db, blobs, walkedIds, before, p, missingIds, i);
      }
    }
  }

  /** The lookup of one id: what is found under its hash is kept, what is not there
      is proven absent, and anything else changes nothing. */
  method ProbeOne(c: Codec, db: Text -> LookupResult, existing: map<Text, Row>, missingIds: seq<Text>,
                  blobs: map<Text, Row>, ghost walkedIds: set<Id>, before: Probed, id: Text, room: nat)
    returns (p: Probed, debit: nat)
    requires LiveDatabase(db) && existing.Keys <= blobs.Keys && id in missingIds && BlobKey(id) !in before.blobs
    requires ProbedFrom(c, db, missingIds, blobs, before)
    ensures ProbedFrom(c, db, missingIds, blobs, p) && before.blobs.Keys <= p.blobs.Keys && before.proven <= p.proven
    ensures debit <= room && debit <= if Verified(c, db, id) then RowSize(db(BlobKey(id))) else 0
    ensures (Verified(c, db, id) ==> RowSize(db(BlobKey(id))) <= room) ==> Settled(c, db, blobs, walkedIds, p, id)
  {
    hide ProbedFrom, LiveDatabase, BlobKey, LookupExactBlob, RowOfBytes, RowSize;
    p, debit := before, 0;
    ProbedKeys(c, db, missingIds, blobs, before);
    var key := BlobKey(id);
    var found := LookupExactBlob(existing, db)(key, room);
    LookedUpExactly(existing, db, key, room);
    match found {
      case Threw =>
        p := p.(retryable := true);
        ProbedRetry(c, db, missingIds, blobs, p);
      case Absent =>
        ProbedAbsent(c, db, existing, missingIds, blobs, p, id, room);
        p := p.(proven := p.proven + {id});
      case Found(_, Some(bytes), Some(valueType)) =>
        if |bytes| <= room && c.sha256(bytes) == id && valueType != OtherValue {
          ProbedFound(c, db, missingIds, blobs, p, id, bytes, valueType);
          p := p.(blobs := p.blobs[key := RowOfBytes(key, bytes, valueType)]);
          debit := |bytes|;
        }
      case _ =>
    }
  }

  lemma NothingSettled(c: Codec, db: Text -> LookupResult, blobs: map<Text, Row>, walkedIds: set<Id>, p: Probed,
                       missingIds: seq<Text>)
    ensures AllSettled(c, db, blobs, walkedIds, p, missingIds, 0)
  {
  }

  lemma LookedUpExactly(existing: map<Text, Row>, db: Text -> LookupResult, key: Text, room: nat)
    requires LiveDatabase(db) && key !in existing
    ensures var found := LookupExactBlob(existing, db)(key, room);
            && (RowSize(db(key)) <= room ==> found == db(key)) && (db(key) == Absent ==> found == Absent)
            && (found.Found? ==>
                  && found == db(key) && found.bytes.Some? && |found.bytes.value| == RowSize(db(key)) <= room
                  && found.valueType.Some? && found.valueType != Some(OtherValue))
  {
  }

  lemma KnownSettled(c: Codec, db: Text -> LookupResult, missingIds: seq<Text>, blobs: map<Text, Row>,
                     walkedIds: set<Id>, p: Probed, id: Text)
    requires ProbedFrom(c, db, missingIds, blobs, p) && (BlobKey(id) in p.blobs || id in walkedIds)
    ensures Settled(c, db, blobs, walkedIds, p, id)
  {
    hide Verified, BlobKey, IsContentRow;
  }

  lemma ProbedNothing(c: Codec, db: Text -> LookupResult, missingIds: seq<Text>, blobs: map<Text, Row>)
    ensures ProbedFrom(c, db, missingIds, blobs, Probed(blobs, {}, false))
  {
  }

  lemma ProbedKeys(c: Codec, db: Text -> LookupResult, missingIds: seq<Text>, blobs: map<Text, Row>, p: Probed)
    requires ProbedFrom(c, db, missingIds, blobs, p)
    ensures blobs.Keys <= p.blobs.Keys
  {
    hide IsContentRow, BlobKey;
  }

  lemma ProbedRetry(c: Codec, db: Text -> LookupResult, missingIds: seq<Text>, blobs: map<Text, Row>, p: Probed)
    requires ProbedFrom(c, db, missingIds, blobs, p.(retryable := false))
             || ProbedFrom(c, db, missingIds, blobs, p.(retryable := true))
    ensures ProbedFrom(c, db, missingIds, blobs, p)
  {
    hide IsContentRow, BlobKey;
  }

  lemma ProbedAbsent(c: Codec, db: Text -> LookupResult, existing: map<Text, Row>, missingIds: seq<Text>,
                     blobs: map<Text, Row>, p: Probed, id: Text, room: nat)
    requires ProbedFrom(c, db, missingIds, blobs, p) && id in missingIds && BlobKey(id) !in p.blobs
    requires existing.Keys <= blobs.Keys
    requires LookupExactBlob(existing, db)(BlobKey(id), room) == Absent
    ensures db(BlobKey(id)) == Absent
    ensures ProbedFrom(c, db, missingIds, blobs, p.(proven := p.proven + {id}))
  {
    hide IsContentRow, BlobKey;
  }

  lemma ProbedFound(c: Codec, db: Text -> LookupResult, missingIds: seq<Text>, blobs: map<Text, Row>, p: Probed,
                    id: Text, bytes: seq<byte>, t: ValueType)
    requires ProbedFrom(c, db, missingIds, blobs, p) && id in missingIds && BlobKey(id) !in p.blobs
    requires c.sha256(bytes) == id && db(BlobKey(id)).Found?
    ensures ProbedFrom(c, db, missingIds, blobs, p.(blobs := p.blobs[BlobKey(id) := RowOfBytes(BlobKey(id), bytes, t)]))
  {
    RowOfBytesIs(c, id, bytes, t);
    assert RowOfBytes(BlobKey(id), bytes, t).key == BlobKey(id);
    hide IsContentRow, BlobKey, RowOfBytes;
  }

  /** The bytes of the rows of some ids. */
  ghost function RowSizes(db: Text -> LookupResult): Id -> nat {
    id => RowSize(db(BLOB_PREFIX + id))
  }

  ghost function VerifiedOf(c: Codec, db: Text -> LookupResult, ids: set<Id>): set<Id> {
    set id | id in ids && Verified(c, db, id)
  }

  /** Probing costs one node for every missing id not passed over, and the bytes of
      those that are verified. */
  lemma {:induction false} ProbingIs(c: Codec, db: Text -> LookupResult, missingIds: seq<Text>, skip: set<Id>, i: nat)
    requires i <= |missingIds| && StrictlySorted(missingIds)
    ensures ProbeCount(missingIds, skip, i) == |Elements(missingIds[i..]) - skip|
    ensures ProbeBytes(c, db, missingIds, skip, i) ==
              Sum(RowSizes(db), VerifiedOf(c, db, Elements(missingIds[i..]) - skip))
    decreases |missingIds| - i
  {
    hide Verified, StrictlySorted, RowSize, VerifiedOf, Elements;
    if i == |missingIds| {
      SumEmpty(RowSizes(db));
      NoneLeft(c, db, missingIds[i..], skip);
    } else {
      var id, rest := missingIds[i], Elements(missingIds[i + 1..]) - skip;
      ProbingIs(c, db, missingIds, skip, i + 1);
      NotAgain(missingIds, i);
      assert missingIds[i..] == [id] + missingIds[i + 1..];
      OneLeft(c, db, id, missingIds[i + 1..], skip);
      if id !in skip && Verified(c, db, id) {
        SumInsert(RowSizes(db), VerifiedOf(c, db, rest), id);
      }
    }
  }

  lemma NoneLeft(c: Codec, db: Text -> LookupResult, ids: seq<Text>, skip: set<Id>)
    requires ids == []
    ensures Elements(ids) - skip == {} && VerifiedOf(c, db, Elements(ids) - skip) == {}
  {
  }

  lemma OneLeft(c: Codec, db: Text -> LookupResult, id: Text, ids: seq<Text>, skip: set<Id>)
    requires id !in Elements(ids)
    ensures var rest := Elements(ids) - skip;
            && Elements([id] + ids) - skip == (if id in skip then rest else rest + {id})
            && id !in rest && id !in VerifiedOf(c, db, rest)
            && VerifiedOf(c, db, rest + {id}) ==
               if Verified(c, db, id) then VerifiedOf(c, db, rest) + {id} else VerifiedOf(c, db, rest)
  {
    hide Verified;
    assert Elements([id] + ids) == Elements(ids) + {id};
  }

  lemma NotAgain(ids: seq<Text>, i: nat)
    requires i < |ids| && StrictlySorted(ids)
    ensures ids[i] !in Elements(ids[i + 1..])
  {
    if ids[i] in Elements(ids[i + 1..]) {
      var j :| 0 <= j < |ids[i + 1..]| && ids[i + 1..][j] == ids[i];
      SortedNoDuplicates(ids, i, i + 1 + j);
    }
  }

  function RowOfBytes(key: Text, bytes: seq<byte>, t: ValueType): Row {
    Row(key, Base64.Encode(bytes), Some(if t == TextValue then TextClass else BlobClass))
  }

  lemma RowOfBytesIs(c: Codec, id: Text, bytes: seq<byte>, t: ValueType)
    requires c.sha256(bytes) == id
    ensures IsContentRow(c, RowOfBytes(BlobKey(id), bytes, t)) && RowBytes(RowOfBytes(BlobKey(id), bytes, t)) == bytes
    ensures RowOfBytes(BlobKey(id), bytes, t).key == BlobKey(id)
  {
    Base64.DecodeEncode(bytes);
  }

  // ----- The collector -----

  datatype Collection = Collection(agentKv: Option<AgentKv>, proof: seq<Text>, retryable: bool)

  /** walked.blobs over the retained rows. */
  function WithWalked(existing: map<Text, Row>, walked: map<Id, Blob>): map<Text, Row> {
    existing
    + map key | key in WalkedKeys(walked) :: RowOfBytes(key, walked[BlobId(key)].bytes, BlobType(walked[BlobId(key)]))
  }

  lemma WithWalkedIs(existing: map<Text, Row>, walked: map<Id, Blob>)
    ensures var blobs := WithWalked(existing, walked);
            && blobs.Keys == existing.Keys + WalkedKeys(walked)
            && (forall k :: k in existing && k !in WalkedKeys(walked) ==> blobs[k] == existing[k])
            && forall k :: k in WalkedKeys(walked) ==>
                 blobs[k] == RowOfBytes(k, walked[BlobId(k)].bytes, BlobType(walked[BlobId(k)]))
  {
    hide RowOfBytes, BlobType, BlobId, BlobKey;
  }

  function WalkedKeys(walked: map<Id, Blob>): (keys: set<Text>)
    ensures forall k :: k in keys ==> BlobId(k) in walked && k == BlobKey(BlobId(k))
    ensures forall id :: id in walked ==> BlobKey(id) in keys
  {
    var keys := set id | id in walked :: BlobKey(id);
    assert forall id :: id in walked ==> BlobId(BlobKey(id)) == id by {
      forall id | id in walked ensures BlobId(BlobKey(id)) == id {
        IdOfKey(id);
      }
    }
    keys
  }

  lemma IdOfKey(id: Id)
    ensures BlobId(BlobKey(id)) == id
  {
    assert BlobKey(id)[|BLOB_PREFIX|..] == id;
  }

  function BlobType(b: Blob): ValueType {
    if b.valueType == Some(TextValue) then TextValue else BlobValue
  }

  function IdsOf(blobs: map<Text, Row>): set<Text> {
    set k | k in blobs :: BlobId(k)
  }

  /** Sorted rows, sorted references and those without a row. */
  method Assemble(blobs: map<Text, Row>, referenced: set<Text>) returns (kv: AgentKv)
    requires (forall k :: k in blobs ==> blobs[k].key == k) && IdsOf(blobs) <= referenced
    ensures Elements(kv.blobs) == blobs.Values && Elements(kv.referencedIds) == referenced
    ensures Elements(kv.missingIds) == referenced - IdsOf(blobs)
    ensures StrictlySorted(Keys(kv.blobs)) && StrictlySorted(kv.referencedIds) && StrictlySorted(kv.missingIds)
  {
    var keys := SortTexts(blobs.Keys);
    var sortedReferences := SortTexts(referenced);
    var missing := KvMerge.Without(sortedReferences, IdsOf(blobs));
    KvMerge.WithoutElements(sortedReferences, IdsOf(blobs));
    KvMerge.WithoutSorted(sortedReferences, IdsOf(blobs));
    var rows := seq(|keys|, i requires 0 <= i < |keys| => Value(blobs, keys, i));
    RowsAre(blobs, keys, rows);
    return AgentKv(rows, sortedReferences, missing);
  }

  function Value(blobs: map<Text, Row>, keys: seq<Text>, i: nat): Row
    requires Elements(keys) == blobs.Keys && i < |keys|
  {
    assert keys[i] in Elements(keys);
    blobs[keys[i]]
  }

  lemma RowsAre(blobs: map<Text, Row>, keys: seq<Text>, rows: seq<Row>)
    requires Elements(keys) == blobs.Keys && |rows| == |keys| && (forall k :: k in blobs ==> blobs[k].key == k)
    requires forall i :: 0 <= i < |keys| ==> rows[i] == Value(blobs, keys, i)
    ensures Elements(rows) == blobs.Values && Keys(rows) == keys
  {
    forall row ensures row in Elements(rows) <==> row in blobs.Values {
      if row in Elements(rows) {
        var i :| 0 <= i < |rows| && rows[i] == row;
        assert keys[i] in Elements(keys);
      }
      if row in blobs.Values {
        var k :| k in blobs && blobs[k] == row;
        assert k in Elements(keys);
        var i :| 0 <= i < |keys| && keys[i] == k;
        assert rows[i] == row;
      }
    }
    forall i | 0 <= i < |keys| ensures Keys(rows)[i] == keys[i] {
      assert keys[i] in Elements(keys);
    }
  }

  function CollectLimits(walkByteBudget: nat): WalkLimits {
    WalkLimits(ENRICHMENT_MAX_NODES, walkByteBudget, WALK_MAX_DEPTH)
  }

  /** collectLiveAgentKv: the walked closure, the retained rows and the probed
      ones; nothing when no budget is left for new blobs or the closure is not known
      in full. */
  method CollectLiveAgentKv(c: Codec, rd: Reader, db: Text -> LookupResult, source: ChatSnapshot, states: seq<Text>,
                            sourceContentBytes: nat, maxPayloadBytes: nat)
    returns (r: Collection)
    requires LiveDatabase(db) && ValidPayload(c, PayloadOf(source))
    ensures r.agentKv.Some? <==>
              CanCollect(c, rd, db, source, states, AdditionalRawBudget(maxPayloadBytes, sourceContentBytes))
    ensures r.agentKv.Some? ==>
              Collected(c, rd, db, source, states, AdditionalRawBudget(maxPayloadBytes, sourceContentBytes),
                        r.agentKv.value, r.proof)
  {
    hide ValidPayload, Coverable, Faithful, Exact, Completable, Serves, LiveDatabase, Collected, IsContentRow;
    hide WithWalked, Existing, ProbedFrom;
    hide LookupExactBlob, LiveWorld, WalkedKeys, AdditionalRawBudget, WalkByteBudget, GivenBytes;
    var additionalRawBudget := AdditionalRawBudget(maxPayloadBytes, sourceContentBytes);
    var walkByteBudget := WalkByteBudget(source, states, additionalRawBudget);
    if walkByteBudget <= GivenBytes(source, states) || walkByteBudget < 1 {
      return Collection(None, [], false);
    }
    var existing := Existing(PayloadOf(source).blobs);
    var lookup := LookupExactBlob(existing, db);
    WorldServes(c, rd, source, db);
    var limits := CollectLimits(walkByteBudget);
    var walked, reached := WalkAgentKvReachability(LiveWorld(c, rd, source, db), lookup, states, limits, false);
    var retryable := exists id ::
                       id in walked.issues && (walked.issues[id] == LookupFailed || walked.issues[id] == InvalidResult);
    if walked.limitReasons != {} || walked.unreadableSeeds != [] {
      return Collection(None, [], retryable);
    }
    WalkedKeep(c, rd, db, source, states, limits, walked, reached);
    NothingSunk(LiveWorld(c, rd, source, db), limits, states, walked, reached);
    r := FinishCollection(c, rd, db, source, states, limits, additionalRawBudget, existing, walked, reached, retryable);
  }

  /** There is a budget for new blobs, and the walk meets no limit within it. */
  ghost predicate CanCollect(c: Codec, rd: Reader, db: Text -> LookupResult, source: ChatSnapshot, states: seq<Text>,
                             additionalRawBudget: nat)
  {
    && HasWalkBudget(source, states, additionalRawBudget)
    && Coverable(LiveWorld(c, rd, source, db), CollectLimits(WalkByteBudget(source, states, additionalRawBudget)),
                 false, states)
  }

  lemma NothingSunk(w: World, lim: WalkLimits, states: seq<Text>, walked: WalkResult, reached: set<Ref>)
    requires Faithful(w, lim, false, states, walked, reached)
    ensures walked.sunk == []
  {
    hide Content, SizeOf;
  }

  /** What the walked rows add up to with the retained ones. */
  ghost predicate WalkedOver(c: Codec, source: ChatSnapshot, walked: WalkResult) {
    var existing := Existing(PayloadOf(source).blobs);
    var blobs := WithWalked(existing, walked.blobs);
    && existing.Keys <= blobs.Keys
    && (forall k :: k in existing ==> blobs[k] == existing[k])
    && (forall k :: k in blobs ==> blobs[k].key == k && IsContentRow(c, blobs[k]))
  }

  lemma WalkedKeyed(c: Codec, source: ChatSnapshot, walked: WalkResult)
    requires WalkedOver(c, source, walked)
    ensures var blobs := WithWalked(Existing(PayloadOf(source).blobs), walked.blobs);
            Existing(PayloadOf(source).blobs).Keys <= blobs.Keys && forall k :: k in blobs ==> blobs[k].key == k
  {
    hide Existing, WithWalked, IsContentRow;
  }

  /** Bytes of the walked blobs that were not retained before. */
  ghost function BlobSize(walked: map<Id, Blob>): Id -> nat {
    id => if id in walked then |walked[id].bytes| else 0
  }

  function NewlyWalked(existing: map<Text, Row>, walked: map<Id, Blob>): set<Id> {
    set id | id in walked && BlobKey(id) !in existing
  }

  method AdditionalRawBytes(existing: map<Text, Row>, walked: map<Id, Blob>) returns (total: nat)
    ensures total == Sum(BlobSize(walked), NewlyWalked(existing, walked))
  {
    hide BlobKey;
    total := 0;
    var rest := NewlyWalked(existing, walked);
    ghost var all := rest;
    SumEmpty(BlobSize(walked));
    assert all - rest == {};
    while rest != {}
      invariant rest <= all && total == Sum(BlobSize(walked), all - rest)
      decreases rest
    {
      var id :| id in rest;
      SumInsert(BlobSize(walked), all - rest, id);
      assert all - rest + {id} == all - (rest - {id});
      total := total + |walked[id].bytes|;
      rest := rest - {id};
    }
    assert all - rest == all;
  }

  /** The probe of the source's missing ids and the payload it all comes to. */
  method FinishCollection(c: Codec, ghost rd: Reader, db: Text -> LookupResult, source: ChatSnapshot,
                          ghost states: seq<Text>, ghost lim: WalkLimits, additionalRawBudget: nat,
                          existing: map<Text, Row>, walked: WalkResult, ghost reached: set<Ref>, retryable: bool)
    returns (r: Collection)
    requires LiveDatabase(db) && ValidPayload(c, PayloadOf(source)) && existing == Existing(PayloadOf(source).blobs)
    requires WalkedOver(c, source, walked) && walked.sunk == []
    requires Exact(LiveWorld(c, rd, source, db), states, walked, reached) && walked.unreadableSeeds == []
    requires Faithful(LiveWorld(c, rd, source, db), lim, false, states, walked, reached)
    ensures r.agentKv.Some? && Collected(c, rd, db, source, states, additionalRawBudget, r.agentKv.value, r.proof)
  {
    hide ValidPayload, Exact, Faithful, LiveDatabase, Collected, WithWalked, Existing, ProbedFrom, WalkedOver, Elements;
    hide AllSettled, Ids;
    hide ProbeBytes, ProbeCount, CanProbeAll, Settled, LiveWorld, NewlyWalked, BlobKey;
    var blobs := WithWalked(existing, walked.blobs);
    WalkedKeyed(c, source, walked);
    var missingIds := PayloadOf(source).missingIds;
    VisitedReached(LiveWorld(c, rd, source, db), states, walked, reached);
    var additionalRawBytes := AdditionalRawBytes(existing, walked.blobs);
    Skipped(c, rd, db, source, states, walked, reached);
    var probed := ProbeMissing(c, db, existing, missingIds, blobs, walked.blobs.Keys + walked.issues.Keys,
                               Max(0, ENRICHMENT_MAX_NODES - walked.visitedNodes),
                               Max(0, additionalRawBudget - additionalRawBytes), Ids(reached));
    ProbedAmply(c, rd, db, source, states, lim, additionalRawBudget, walked, reached, additionalRawBytes);
    var activeClosureFullyWalked := walked.issues == map[] && walked.unreadableSeeds == [];
    var kept := KeptMissing(missingIds, if activeClosureFullyWalked then probed.proven else {});
    KeptIs(missingIds, if activeClosureFullyWalked then probed.proven else {}, probed.proven);
    var referenced := IdsOf(probed.blobs) + walked.roots + walked.blobs.Keys + walked.issues.Keys + kept;
    ProbedKeyed(c, db, missingIds, blobs, probed);
    var kv := Assemble(probed.blobs, referenced);
    var proof := SortTexts(probed.proven - referenced - IdsOf(probed.blobs));
    ProvenMissing(c, db, missingIds, blobs, probed);
    CollectedIs(c, rd, db, source, states, additionalRawBudget, walked, reached, probed, kept, referenced, kv, proof);
    return Collection(Some(kv), proof, retryable || probed.retryable);
  }

  lemma ProvenMissing(c: Codec, db: Text -> LookupResult, missingIds: seq<Text>, blobs: map<Text, Row>, p: Probed)
    requires ProbedFrom(c, db, missingIds, blobs, p)
    ensures p.proven <= Elements(missingIds)
  {
    hide IsContentRow, BlobKey;
  }

  /** The probe passes over exactly the missing ids that were reached. */
  lemma Skipped(c: Codec, rd: Reader, db: Text -> LookupResult, source: ChatSnapshot, states: seq<Text>,
                walked: WalkResult, reached: set<Ref>)
    requires ValidPayload(c, PayloadOf(source)) && walked.sunk == []
    requires Exact(LiveWorld(c, rd, source, db), states, walked, reached)
    ensures forall id :: id in PayloadOf(source).missingIds ==>
              (id in Ids(reached) <==>
                 BlobKey(id) in WithWalked(Existing(PayloadOf(source).blobs), walked.blobs)
                 || id in walked.blobs.Keys + walked.issues.Keys)
  {
    hide ValidPayload, Exact, WithWalked, Existing, BlobKey, Ids, LiveWorld;
    forall id | id in PayloadOf(source).missingIds
      ensures id in Ids(reached) <==>
                BlobKey(id) in WithWalked(Existing(PayloadOf(source).blobs), walked.blobs)
                || id in walked.blobs.Keys + walked.issues.Keys
    {
      if id in Ids(reached) {
        ReachedWalked(LiveWorld(c, rd, source, db), states, walked, reached, id);
      } else {
        NotHeld(c, rd, db, source, states, walked, reached, id);
      }
    }
  }

  lemma ReachedWalked(w: World, states: seq<Text>, walked: WalkResult, reached: set<Ref>, id: Id)
    requires Exact(w, states, walked, reached) && walked.sunk == [] && id in Ids(reached)
    ensures id in walked.blobs.Keys + walked.issues.Keys
  {
    hide IsClosure, Content, Ids;
    assert Elements(walked.sunk) == {};
  }

  /** The bytes debited are those of the reached rows that are not retained. */
  lemma ProbedAmply(c: Codec, rd: Reader, db: Text -> LookupResult, source: ChatSnapshot, states: seq<Text>,
                    lim: WalkLimits, additionalRawBudget: nat, walked: WalkResult, reached: set<Ref>,
                    additionalRawBytes: nat)
    requires Exact(LiveWorld(c, rd, source, db), states, walked, reached) && walked.sunk == []
    requires Faithful(LiveWorld(c, rd, source, db), lim, false, states, walked, reached)
    requires additionalRawBytes ==
               Sum(BlobSize(walked.blobs), NewlyWalked(Existing(PayloadOf(source).blobs), walked.blobs))
    ensures CanProbeAll(c, rd, db, source, additionalRawBudget, Ids(reached)) ==>
              ProbeCount(PayloadOf(source).missingIds, Ids(reached), 0) <= Max(0, ENRICHMENT_MAX_NODES - |Ids(reached)|)
              && ProbeBytes(c, db, PayloadOf(source).missingIds, Ids(reached), 0) <=
                   Max(0, additionalRawBudget - additionalRawBytes)
  {
    hide Exact, Faithful, Existing, ProbeCount, ProbeBytes, LiveWorld, Ids, BlobKey, SizeOf;
    var w := LiveWorld(c, rd, source, db);
    GoodsWalked(w, states, walked, reached);
    var ids := NewlyWalked(Existing(PayloadOf(source).blobs), walked.blobs);
    assert ids == NewReached(w, source, Ids(reached));
    forall id | id in ids ensures BlobSize(walked.blobs)(id) == SizeOf(w)(id) {
      FaithfulBlob(w, lim, states, walked, reached, id);
      GoodSize(w, id, walked.blobs[id]);
    }
    SumSame(BlobSize(walked.blobs), SizeOf(w), ids);
  }

  lemma GoodSize(w: World, id: Id, b: Blob)
    requires Content(w, id) == Good(b.bytes, b.valueType)
    ensures SizeOf(w)(id) == |b.bytes|
  {
  }

  lemma VisitedReached(w: World, states: seq<Text>, walked: WalkResult, reached: set<Ref>)
    requires Exact(w, states, walked, reached)
    ensures walked.visitedNodes == |Ids(reached)|
  {
    hide IsClosure, Ids;
  }

  /** Missing ids not given up on. */
  function KeptMissing(missingIds: seq<Text>, given: set<Text>): set<Text> {
    set id | id in missingIds && id !in given
  }

  lemma KeptIs(missingIds: seq<Text>, given: set<Text>, proven: set<Text>)
    requires given <= proven
    ensures KeptMissing(missingIds, given) <= Elements(missingIds)
    ensures Elements(missingIds) - KeptMissing(missingIds, given) <= proven
  {
  }

  /** What the collector promises of a payload and its absence proof. */
  ghost predicate Collected(c: Codec, rd: Reader, db: Text -> LookupResult, source: ChatSnapshot, states: seq<Text>,
                            rawBudget: nat, kv: AgentKv, proof: seq<Text>)
  {
    && PruneProofValid(source, kv, proof)
    && MonotonicOk(source, kv, Dropped(source, kv))
    && (forall id :: id in proof ==> db(BlobKey(id)) == Absent)
    && (forall row :: row in kv.blobs ==> IsContentRow(c, row))
    && Elements(kv.referencedIds) == BlobIds(kv.blobs) + Elements(kv.missingIds)
    && BlobIds(kv.blobs) !! Elements(kv.missingIds)
    && exists reached :: CollectedOver(c, rd, db, source, states, rawBudget, kv, reached)
  }

  /** The payload declares the closure of the states, carries all of it that is
      available, and, budgets permitting, everything else the source misses and the
      database has; and it gives up what the database does not have once nothing of
      the closure is missing. */
  ghost predicate CollectedOver(c: Codec, rd: Reader, db: Text -> LookupResult, source: ChatSnapshot, states: seq<Text>,
                                rawBudget: nat, kv: AgentKv, reached: set<Ref>)
  {
    var w := LiveWorld(c, rd, source, db);
    && IsClosure(w, RootRefs(w, states), reached)
    && Ids(reached) <= Elements(kv.referencedIds) && Goods(w, Ids(reached)) <= BlobIds(kv.blobs)
    && (CanProbeAll(c, rd, db, source, rawBudget, Ids(reached)) ==>
          forall id :: id in PayloadOf(source).missingIds && id !in Ids(reached) ==>
            && (Verified(c, db, id) ==> id in BlobIds(kv.blobs))
            && (db(BlobKey(id)) == Absent && Goods(w, Ids(reached)) == Ids(reached) ==> id in Dropped(source, kv)))
  }

  /** Verified ids reached whose rows the source does not retain. */
  ghost function NewReached(w: World, source: ChatSnapshot, reached: set<Id>): set<Id> {
    set id | id in Goods(w, reached) && BlobKey(id) !in Existing(PayloadOf(source).blobs)
  }

  /** After the walk, nodes and bytes are left for every missing id not reached. */
  ghost predicate CanProbeAll(c: Codec, rd: Reader, db: Text -> LookupResult, source: ChatSnapshot, rawBudget: nat,
                              reached: set<Id>)
  {
    var w, missingIds := LiveWorld(c, rd, source, db), PayloadOf(source).missingIds;
    && |reached| + ProbeCount(missingIds, reached, 0) <= ENRICHMENT_MAX_NODES
    && Sum(SizeOf(w), NewReached(w, source, reached)) + ProbeBytes(c, db, missingIds, reached, 0) <= rawBudget
  }

  lemma ProbedKeyed(c: Codec, db: Text -> LookupResult, missingIds: seq<Text>, blobs: map<Text, Row>, p: Probed)
    requires ProbedFrom(c, db, missingIds, blobs, p) && forall k :: k in blobs ==> blobs[k].key == k
    ensures forall k :: k in p.blobs ==> p.blobs[k].key == k
  {
  }

  /** A walked row of a retained key is the retained row. */
  lemma WalkedKeep(c: Codec, rd: Reader, db: Text -> LookupResult, source: ChatSnapshot, states: seq<Text>,
                   lim: WalkLimits, walked: WalkResult, reached: set<Ref>)
    requires ValidPayload(c, PayloadOf(source))
    requires Faithful(LiveWorld(c, rd, source, db), lim, false, states, walked, reached)
    ensures WalkedOver(c, source, walked)
  {
    hide ValidPayload, IsContentRow, WalkedKeys, Existing, Faithful, RowOfBytes, BlobId, LiveWorld, BlobKey, BlobType;
    hide WithWalked;
    var existing := Existing(PayloadOf(source).blobs);
    var blobs := WithWalked(existing, walked.blobs);
    WithWalkedIs(existing, walked.blobs);
    forall k | k in WalkedKeys(walked.blobs)
      ensures blobs[k].key == k && IsContentRow(c, blobs[k]) && (k in existing ==> blobs[k] == existing[k])
    {
      WalkedRow(c, rd, db, source, states, lim, walked, reached, BlobId(k));
    }
    forall k | k in existing
      ensures IsContentRow(c, existing[k]) && (k !in WalkedKeys(walked.blobs) ==> blobs[k] == existing[k])
    {
      RetainedRow(c, source, k);
    }
  }

  lemma WalkedRow(c: Codec, rd: Reader, db: Text -> LookupResult, source: ChatSnapshot, states: seq<Text>,
                  lim: WalkLimits, walked: WalkResult, reached: set<Ref>, id: Id)
    requires ValidPayload(c, PayloadOf(source))
    requires Faithful(LiveWorld(c, rd, source, db), lim, false, states, walked, reached) && id in walked.blobs
    ensures var row := RowOfBytes(BlobKey(id), walked.blobs[id].bytes, BlobType(walked.blobs[id]));
            var existing := Existing(PayloadOf(source).blobs);
            row.key == BlobKey(id) && IsContentRow(c, row) && (row.key in existing ==> row == existing[row.key])
  {
    hide ValidPayload, Existing, BlobKey, Faithful, RowOfBytes, IsContentRow, LiveWorld;
    var w := LiveWorld(c, rd, source, db);
    var b := walked.blobs[id];
    FaithfulBlob(w, lim, states, walked, reached, id);
    GoodHash(w, id, b);
    assert w.sha256 == c.sha256 by {
      WorldHash(c, rd, source, db);
    }
    RowOfBytesIs(c, id, b.bytes, BlobType(b));
    if BlobKey(id) in Existing(PayloadOf(source).blobs) {
      RetainedRow(c, source, BlobKey(id));
      GoodRetained(c, rd, db, source, id, b);
    }
  }

  lemma WorldHash(c: Codec, rd: Reader, source: ChatSnapshot, db: Text -> LookupResult)
    ensures LiveWorld(c, rd, source, db).sha256 == c.sha256
  {
  }

  lemma GoodHash(w: World, id: Id, b: Blob)
    requires Content(w, id) == Good(b.bytes, b.valueType)
    ensures w.sha256(b.bytes) == id
  {
  }

  /** The walk read a retained row as it is. */
  lemma GoodRetained(c: Codec, rd: Reader, db: Text -> LookupResult, source: ChatSnapshot, id: Id, b: Blob)
    requires Content(LiveWorld(c, rd, source, db), id) == Good(b.bytes, b.valueType)
    requires BlobKey(id) in Existing(PayloadOf(source).blobs)
    ensures var row := Existing(PayloadOf(source).blobs)[BlobKey(id)];
            b.bytes == RowBytes(row) && BlobType(b) == if row.valueType == Some(TextClass) then TextValue else BlobValue
  {
    hide RowBytes, Existing;
  }

  lemma FaithfulBlob(w: World, lim: WalkLimits, states: seq<Text>, walked: WalkResult, reached: set<Ref>, id: Id)
    requires Faithful(w, lim, false, states, walked, reached) && id in walked.blobs
    ensures Content(w, id) == Good(walked.blobs[id].bytes, walked.blobs[id].valueType)
  {
    hide Content, SizeOf;
  }

  /** A retained row is content-addressed, and building it from its bytes again
      gives it back. */
  lemma RetainedRow(c: Codec, source: ChatSnapshot, k: Text)
    requires ValidPayload(c, PayloadOf(source)) && k in Existing(PayloadOf(source).blobs)
    ensures var row := Existing(PayloadOf(source).blobs)[k];
            && row.key == k && IsContentRow(c, row)
            && row == RowOfBytes(k, RowBytes(row), if row.valueType == Some(TextClass) then TextValue else BlobValue)
  {
    hide ValidBlob, Existing, IsId, StrictlySorted, TotalBytes, BlobIds;
    var row := Existing(PayloadOf(source).blobs)[k];
    var i :| 0 <= i < |PayloadOf(source).blobs| && PayloadOf(source).blobs[i] == row;
    ValidRowRebuilt(c, row);
  }

  lemma ValidRowRebuilt(c: Codec, row: Row)
    requires ValidBlob(c, row)
    ensures IsContentRow(c, row)
    ensures row == RowOfBytes(row.key, RowBytes(row), if row.valueType == Some(TextClass) then TextValue else BlobValue)
  {
    BlobKeyOf(row.key);
  }

  // ----- The prune proof -----

  /** Missing ids of the source that the payload no longer mentions. */
  function Dropped(source: ChatSnapshot, kv: AgentKv): set<Text> {
    set id |
      id in PayloadOf(source).missingIds && id !in kv.referencedIds && id !in kv.missingIds && id !in BlobIds(kv.blobs)
  }

  /** Only missing ids of the source that are proven absent are dropped, and
      everything proven absent is dropped or was found after all. */
  ghost predicate PruneProofValid(source: ChatSnapshot, kv: AgentKv, proof: seq<Text>) {
    && StrictlySorted(proof)
    && if source.agentKv == None then proof == []
       else
         && Elements(proof) <= Elements(PayloadOf(source).missingIds)
         && Dropped(source, kv) <= Elements(proof)
         && Elements(proof) <= Dropped(source, kv) + BlobIds(kv.blobs)
  }

  /** validateSourceMissingPruneProof */
  method ValidateSourceMissingPruneProof(source: ChatSnapshot, kv: AgentKv, proof: seq<Text>)
    returns (valid: bool, droppedIds: seq<Text>)
    ensures valid <==> PruneProofValid(source, kv, proof)
    ensures valid ==> Elements(droppedIds) == if source.agentKv == None then {} else Dropped(source, kv)
  {
    droppedIds := [];
    SortedByNeighbours(proof);
    for index := 0 to |proof|
      invariant forall j :: 0 < j < index ==> Less(proof[j - 1], proof[j])
    {
      if index > 0 && !Less(proof[index - 1], proof[index]) {
        return false, [];
      }
    }
    if source.agentKv == None {
      return proof == [], [];
    }
    var missingIds := PayloadOf(source).missingIds;
    var references, missing, blobs := Elements(kv.referencedIds), Elements(kv.missingIds), BlobIds(kv.blobs);
    droppedIds := KvMerge.Without(missingIds, references + missing + blobs);
    KvMerge.WithoutElements(missingIds, references + missing + blobs);
    var dropped, proven, sourceMissing := Elements(droppedIds), Elements(proof), Elements(missingIds);
    assert dropped == Dropped(source, kv);
    if exists id :: id in proof && id !in sourceMissing {
      assert !(proven <= sourceMissing);
      return false, droppedIds;
    }
    if exists id :: id in droppedIds && id !in proven {
      return false, droppedIds;
    }
    if exists id :: id in proof && id !in dropped && id !in blobs {
      return false, droppedIds;
    }
    return true, droppedIds;
  }

  // ----- Monotonicity -----

  /** References go only if missing and allowed, rows stay as they are, and what
      was missing is missing still, found, or gone as allowed. */
  ghost predicate MonotonicOk(source: ChatSnapshot, kv: AgentKv, allowed: set<Text>) {
    source.agentKv.Some? ==>
      && ReferencesKept(source.agentKv.value, kv, allowed)
      && (forall row :: row in source.agentKv.value.blobs ==> row in kv.blobs)
      && MissingKept(source.agentKv.value, kv, allowed)
  }

  ghost predicate ReferencesKept(from: AgentKv, kv: AgentKv, allowed: set<Text>) {
    forall id :: id in from.referencedIds ==> id in kv.referencedIds || (id in from.missingIds && id in allowed)
  }

  ghost predicate MissingKept(from: AgentKv, kv: AgentKv, allowed: set<Text>) {
    forall id :: id in from.missingIds ==>
      id in kv.missingIds || BlobKey(id) in Elements(Keys(kv.blobs)) || (id in allowed && id !in kv.referencedIds)
  }

  predicate SameValue(a: Row, b: Row) {
    a.valueBase64 == b.valueBase64 && a.valueType == b.valueType
  }

  /** assertAgentKvMonotonic: no error exactly when the payload is monotonic. */
  method AssertAgentKvMonotonic(source: ChatSnapshot, kv: AgentKv, allowed: set<Text>) returns (ok: bool)
    requires StrictlySorted(Keys(kv.blobs))
    ensures ok <==> MonotonicOk(source, kv, allowed)
  {
    hide Existing, StrictlySorted, BlobKey;
    if source.agentKv == None {
      return true;
    }
    var from := source.agentKv.value;
    var enrichedReferences, sourceMissing := Elements(kv.referencedIds), Elements(from.missingIds);
    if exists id :: id in from.referencedIds && id !in enrichedReferences && !(id in sourceMissing && id in allowed) {
      return false;
    }
    var enrichedBlobs := Existing(kv.blobs);
    RowsByKey(kv.blobs);
    if exists row :: row in from.blobs && !(row.key in enrichedBlobs && SameValue(enrichedBlobs[row.key], row)) {
      return false;
    }
    var enrichedMissing := Elements(kv.missingIds);
    return forall id :: id in from.missingIds ==>
      id in enrichedMissing || BlobKey(id) in enrichedBlobs || (id in allowed && id !in enrichedReferences);
  }

  /** With distinct keys a row is found under its key exactly if it is there. */
  lemma RowsByKey(rows: seq<Row>)
    requires StrictlySorted(Keys(rows))
    ensures var m := Existing(rows);
            && (forall row :: row in rows <==> row.key in m && SameValue(m[row.key], row))
            && m.Keys == Elements(Keys(rows))
  {
    hide Less, Existing;
    var m := Existing(rows);
    forall row ensures row in rows <==> row.key in m && SameValue(m[row.key], row) {
      if row in rows {
        var i :| 0 <= i < |rows| && rows[i] == row;
        var j :| 0 <= j < |rows| && rows[j] == m[row.key];
        assert Keys(rows)[i] == Keys(rows)[j];
        SortedNoDuplicates(Keys(rows), i, j);
      }
    }
    forall k ensures k in m.Keys <==> k in Elements(Keys(rows)) {
      if k in m {
        var i :| 0 <= i < |rows| && rows[i] == m[k];
        assert Keys(rows)[i] == k;
      }
      if k in Elements(Keys(rows)) {
        var i :| 0 <= i < |rows| && Keys(rows)[i] == k;
        assert rows[i] in rows;
      }
    }
  }

  // ----- The collector keeps both -----

  lemma CollectedIs(c: Codec, rd: Reader, db: Text -> LookupResult, source: ChatSnapshot, states: seq<Text>,
                    rawBudget: nat, walked: WalkResult, reached: set<Ref>, p: Probed, kept: set<Text>,
                    referenced: set<Text>, kv: AgentKv, proof: seq<Text>)
    requires ValidPayload(c, PayloadOf(source))
    requires WalkedOver(c, source, walked)
    requires ProbedFrom(c, db, PayloadOf(source).missingIds,
                        WithWalked(Existing(PayloadOf(source).blobs), walked.blobs), p)
    requires Exact(LiveWorld(c, rd, source, db), states, walked, reached) && walked.sunk == []
    requires kept <= Elements(PayloadOf(source).missingIds) && Elements(PayloadOf(source).missingIds) - kept <= p.proven
    requires referenced == IdsOf(p.blobs) + walked.roots + walked.blobs.Keys + walked.issues.Keys + kept
    requires Elements(kv.blobs) == p.blobs.Values && Elements(kv.referencedIds) == referenced
    requires Elements(kv.missingIds) == referenced - IdsOf(p.blobs)
    requires StrictlySorted(proof) && Elements(proof) == p.proven - referenced - IdsOf(p.blobs)
    requires kept == KeptMissing(PayloadOf(source).missingIds, if walked.issues == map[] then p.proven else {})
    requires CanProbeAll(c, rd, db, source, rawBudget, Ids(reached)) ==>
             AllSettled(c, db, WithWalked(Existing(PayloadOf(source).blobs), walked.blobs),
                        walked.blobs.Keys + walked.issues.Keys, p, PayloadOf(source).missingIds,
                        |PayloadOf(source).missingIds|)
    ensures Collected(c, rd, db, source, states, rawBudget, kv, proof)
  {
    hide ValidPayload, Exact, IsContentRow, StrictlySorted, Existing, WithWalked, IsClosure, PruneProofValid;
    hide MonotonicOk, CollectedOver, AllSettled;
    CollectedAll(c, rd, db, source, states, rawBudget, walked, reached, p, kept, referenced, kv);
    BlobIdsAre(c, db, PayloadOf(source).missingIds, WithWalked(Existing(PayloadOf(source).blobs), walked.blobs), p, kv);
    ReachedDeclared(LiveWorld(c, rd, source, db), states, walked, reached, referenced);
    ProbedContent(c, db, PayloadOf(source).missingIds, WithWalked(Existing(PayloadOf(source).blobs), walked.blobs), p);
    CollectedProof(source, p, kept, referenced, kv, proof);
    CollectedMonotonic(c, db, source, WithWalked(Existing(PayloadOf(source).blobs), walked.blobs), p, kept, referenced,
                       kv);
    forall id | id in proof ensures db(BlobKey(id)) == Absent {
      assert id in Elements(proof);
    }
    forall row | row in kv.blobs ensures IsContentRow(c, row) {
      assert row in Elements(kv.blobs);
      var k :| k in p.blobs && p.blobs[k] == row;
    }
  }

  /** An id the source misses and the walk did not reach has no row yet. */
  lemma NotHeld(c: Codec, rd: Reader, db: Text -> LookupResult, source: ChatSnapshot, states: seq<Text>,
                walked: WalkResult, reached: set<Ref>, id: Id)
    requires ValidPayload(c, PayloadOf(source)) && id in PayloadOf(source).missingIds && id !in Ids(reached)
    requires Exact(LiveWorld(c, rd, source, db), states, walked, reached)
    ensures BlobKey(id) !in WithWalked(Existing(PayloadOf(source).blobs), walked.blobs)
    ensures id !in walked.blobs.Keys + walked.issues.Keys + walked.roots
  {
    hide IsClosure, Content, ValidBlob, TotalBytes, ValidIds, Existing, RowOfBytes, BlobKey;
    IdOfKey(id);
    assert id in Elements(PayloadOf(source).missingIds);
    ExistingIds(PayloadOf(source).blobs, BlobKey(id));
    RootsReached(LiveWorld(c, rd, source, db), states, reached);
  }

  lemma ExistingIds(rows: seq<Row>, key: Text)
    ensures key in Existing(rows) ==> BlobId(key) in BlobIds(rows)
  {
    hide Existing, BlobId;
    if key in Existing(rows) {
      var row := Existing(rows)[key];
      assert row in rows && row.key == key;
    }
  }

  lemma RootsReached(w: World, states: seq<Text>, reached: set<Ref>)
    requires IsClosure(w, RootRefs(w, states), reached)
    ensures Ids(RootRefs(w, states)) <= Ids(reached)
  {
    hide Closed, Reachable;
    IdsMonotone(RootRefs(w, states), reached);
  }

  lemma WalkedHeld(existing: map<Text, Row>, walked: map<Id, Blob>)
    ensures walked.Keys <= IdsOf(WithWalked(existing, walked))
  {
    hide RowOfBytes, BlobKey;
    forall id | id in walked ensures id in IdsOf(WithWalked(existing, walked)) {
      IdOfKey(id);
      assert BlobKey(id) in WithWalked(existing, walked);
    }
  }

  /** What is given up on is not mentioned. */
  lemma GivenUp(c: Codec, db: Text -> LookupResult, missingIds: seq<Text>, blobs: map<Text, Row>, p: Probed, id: Id)
    requires ProbedFrom(c, db, missingIds, blobs, p) && BlobKey(id) !in blobs && db(BlobKey(id)) == Absent
    requires forall k :: k in p.blobs ==> k == BlobKey(BlobId(k))
    ensures id !in IdsOf(p.blobs)
  {
    hide IsContentRow, BlobKey, BlobId;
  }

  lemma HeldIds(p: Probed, id: Id)
    requires BlobKey(id) in p.blobs
    ensures id in IdsOf(p.blobs)
  {
    IdOfKey(id);
  }

  lemma CollectedAll(c: Codec, rd: Reader, db: Text -> LookupResult, source: ChatSnapshot, states: seq<Text>,
                     rawBudget: nat, walked: WalkResult, reached: set<Ref>, p: Probed, kept: set<Text>,
                     referenced: set<Text>, kv: AgentKv)
    requires ValidPayload(c, PayloadOf(source)) && WalkedOver(c, source, walked)
    requires ProbedFrom(c, db, PayloadOf(source).missingIds,
                        WithWalked(Existing(PayloadOf(source).blobs), walked.blobs), p)
    requires Exact(LiveWorld(c, rd, source, db), states, walked, reached) && walked.sunk == []
    requires kept == KeptMissing(PayloadOf(source).missingIds, if walked.issues == map[] then p.proven else {})
    requires referenced == IdsOf(p.blobs) + walked.roots + walked.blobs.Keys + walked.issues.Keys + kept
    requires Elements(kv.blobs) == p.blobs.Values && Elements(kv.referencedIds) == referenced
    requires Elements(kv.missingIds) == referenced - IdsOf(p.blobs)
    requires CanProbeAll(c, rd, db, source, rawBudget, Ids(reached)) ==>
             AllSettled(c, db, WithWalked(Existing(PayloadOf(source).blobs), walked.blobs),
                        walked.blobs.Keys + walked.issues.Keys, p, PayloadOf(source).missingIds,
                        |PayloadOf(source).missingIds|)
    ensures CollectedOver(c, rd, db, source, states, rawBudget, kv, reached)
  {
    hide ValidPayload, Exact, IsContentRow, Existing, WithWalked, IsClosure, ProbedFrom, WalkedOver, LiveWorld;
    hide CanProbeAll, Verified, BlobKey, Ids, IdsOf, BlobIds;
    var w, missingIds := LiveWorld(c, rd, source, db), PayloadOf(source).missingIds;
    var blobs := WithWalked(Existing(PayloadOf(source).blobs), walked.blobs);
    WalkedKeyed(c, source, walked);
    WalkedRows(c, source, walked);
    BlobIdsAre(c, db, missingIds, blobs, p, kv);
    ReachedDeclared(w, states, walked, reached, referenced);
    GoodsWalked(w, states, walked, reached);
    WalkedHeld(Existing(PayloadOf(source).blobs), walked.blobs);
    ProbedGrows(c, db, missingIds, blobs, p);
    ProbedContent(c, db, missingIds, blobs, p);
    if CanProbeAll(c, rd, db, source, rawBudget, Ids(reached)) {
      forall id | id in missingIds && id !in Ids(reached)
        ensures Verified(c, db, id) ==> id in BlobIds(kv.blobs)
        ensures db(BlobKey(id)) == Absent && Goods(w, Ids(reached)) == Ids(reached) ==> id in Dropped(source, kv)
      {
        NotHeld(c, rd, db, source, states, walked, reached, id);
        SettledOne(c, db, blobs, walked.blobs.Keys + walked.issues.Keys, p, missingIds, id);
        if BlobKey(id) in p.blobs {
          HeldIds(p, id);
        }
        if db(BlobKey(id)) == Absent {
          GivenUp(c, db, missingIds, blobs, p, id);
          NotReferenced(p, referenced, kv, id);
        }
        assert id in kv.referencedIds <==> id in Elements(kv.referencedIds);
      }
    }
  }

  lemma SettledOne(c: Codec, db: Text -> LookupResult, blobs: map<Text, Row>, walkedIds: set<Id>, p: Probed,
                   missingIds: seq<Text>, id: Id)
    requires AllSettled(c, db, blobs, walkedIds, p, missingIds, |missingIds|) && id in missingIds
    ensures Settled(c, db, blobs, walkedIds, p, id)
  {
    hide Settled;
    var i :| 0 <= i < |missingIds| && missingIds[i] == id;
  }

  lemma WalkedRows(c: Codec, source: ChatSnapshot, walked: WalkResult)
    requires WalkedOver(c, source, walked)
    ensures var blobs := WithWalked(Existing(PayloadOf(source).blobs), walked.blobs);
            forall k :: k in blobs ==> blobs[k].key == k && IsContentRow(c, blobs[k])
  {
    hide Existing, WithWalked, IsContentRow;
  }

  lemma ProbedGrows(c: Codec, db: Text -> LookupResult, missingIds: seq<Text>, blobs: map<Text, Row>, p: Probed)
    requires ProbedFrom(c, db, missingIds, blobs, p)
    ensures IdsOf(blobs) <= IdsOf(p.blobs)
  {
    hide IsContentRow, BlobKey;
  }

  lemma GoodsWalked(w: World, states: seq<Text>, walked: WalkResult, reached: set<Ref>)
    requires Exact(w, states, walked, reached) && walked.sunk == []
    ensures walked.blobs.Keys == Goods(w, Ids(reached))
    ensures (Goods(w, Ids(reached)) == Ids(reached) <==> walked.issues == map[])
  {
    hide IsClosure, Content, Ids;
    assert Elements(walked.sunk) == {};
    assert Goods(w, Ids(reached)) <= Ids(reached);
    NoIssueKeys(walked.issues);
    if walked.issues == map[] {
      assert Ids(reached) - Goods(w, Ids(reached)) == {};
    }
  }

  lemma NoIssueKeys(issues: map<Id, Issue>)
    ensures issues == map[] <==> issues.Keys == {}
  {
  }

  lemma ProbedContent(c: Codec, db: Text -> LookupResult, missingIds: seq<Text>, blobs: map<Text, Row>, p: Probed)
    requires ProbedFrom(c, db, missingIds, blobs, p)
    requires forall k :: k in blobs ==> blobs[k].key == k && IsContentRow(c, blobs[k])
    ensures forall k :: k in p.blobs ==> p.blobs[k].key == k && IsContentRow(c, p.blobs[k]) && k == BlobKey(BlobId(k))
  {
    forall k | k in p.blobs ensures p.blobs[k].key == k && IsContentRow(c, p.blobs[k]) && k == BlobKey(BlobId(k)) {
      ContentKey(c, p.blobs[k]);
    }
  }

  lemma ContentKey(c: Codec, row: Row)
    ensures IsContentRow(c, row) ==> row.key == BlobKey(BlobId(row.key))
  {
    IdOfKey(c.sha256(RowBytes(row)));
  }

  lemma BlobIdsAre(c: Codec, db: Text -> LookupResult, missingIds: seq<Text>, blobs: map<Text, Row>, p: Probed,
                   kv: AgentKv)
    requires ProbedFrom(c, db, missingIds, blobs, p) && (forall k :: k in blobs ==> blobs[k].key == k)
    requires Elements(kv.blobs) == p.blobs.Values
    ensures BlobIds(kv.blobs) == IdsOf(p.blobs)
  {
    hide IsContentRow;
    ProbedKeyed(c, db, missingIds, blobs, p);
    forall id ensures id in BlobIds(kv.blobs) <==> id in IdsOf(p.blobs) {
      if id in BlobIds(kv.blobs) {
        var row :| row in kv.blobs && BlobId(row.key) == id;
        assert row in Elements(kv.blobs);
        var k :| k in p.blobs && p.blobs[k] == row;
      }
      if id in IdsOf(p.blobs) {
        var k :| k in p.blobs && BlobId(k) == id;
        assert p.blobs[k] in p.blobs.Values && p.blobs[k] in Elements(kv.blobs);
      }
    }
  }

  lemma ReachedDeclared(w: World, states: seq<Text>, walked: WalkResult, reached: set<Ref>, referenced: set<Text>)
    requires Exact(w, states, walked, reached) && walked.sunk == []
    requires walked.blobs.Keys + walked.issues.Keys <= referenced
    ensures IsClosure(w, RootRefs(w, states), reached) && Ids(reached) <= referenced
  {
    hide IsClosure, Content;
    assert Elements(walked.sunk) == {};
  }

  lemma CollectedProof(source: ChatSnapshot, p: Probed, kept: set<Text>, referenced: set<Text>, kv: AgentKv,
                       proof: seq<Text>)
    requires BlobIds(kv.blobs) == IdsOf(p.blobs) && IdsOf(p.blobs) <= referenced && kept <= referenced
    requires p.proven <= Elements(PayloadOf(source).missingIds)
    requires Elements(PayloadOf(source).missingIds) - kept <= p.proven
    requires Elements(kv.referencedIds) == referenced && Elements(kv.missingIds) == referenced - IdsOf(p.blobs)
    requires StrictlySorted(proof) && Elements(proof) == p.proven - referenced - IdsOf(p.blobs)
    ensures PruneProofValid(source, kv, proof)
  {
    hide StrictlySorted, BlobIds, IdsOf;
    forall id ensures id in kv.referencedIds <==> id in referenced {
      assert id in kv.referencedIds <==> id in Elements(kv.referencedIds);
    }
    forall id ensures id in kv.missingIds <==> id in referenced - IdsOf(p.blobs) {
      assert id in kv.missingIds <==> id in Elements(kv.missingIds);
    }
    forall id | id in Elements(proof)
      ensures id in Elements(PayloadOf(source).missingIds) && id in Dropped(source, kv)
    {
    }
    if source.agentKv == None {
      assert p.proven == {};
      assert Elements(proof) == {};
      NonEmptyElements(proof);
    }
  }

  lemma NonEmptyElements<T>(s: seq<T>)
    ensures s != [] ==> Elements(s) != {}
  {
    if s != [] {
      assert s[0] in Elements(s);
    }
  }

  lemma CollectedMonotonic(c: Codec, db: Text -> LookupResult, source: ChatSnapshot, blobs: map<Text, Row>, p: Probed,
                           kept: set<Text>, referenced: set<Text>, kv: AgentKv)
    requires ValidPayload(c, PayloadOf(source)) && ProbedFrom(c, db, PayloadOf(source).missingIds, blobs, p)
    requires Existing(PayloadOf(source).blobs).Keys <= blobs.Keys
    requires forall k :: k in Existing(PayloadOf(source).blobs) ==> blobs[k] == Existing(PayloadOf(source).blobs)[k]
    requires BlobIds(kv.blobs) == IdsOf(p.blobs) && IdsOf(p.blobs) <= referenced && kept <= referenced
    requires (forall k :: k in p.blobs ==> p.blobs[k].key == k && k == BlobKey(BlobId(k)))
    requires Elements(kv.blobs) == p.blobs.Values && Elements(kv.referencedIds) == referenced
    requires Elements(kv.missingIds) == referenced - IdsOf(p.blobs)
    ensures MonotonicOk(source, kv, Dropped(source, kv))
  {
    hide IsContentRow, StrictlySorted, Existing, ValidBlob, TotalBytes, ValidIds;
    var from := PayloadOf(source);
    forall row | row in from.blobs ensures row in kv.blobs {
      RetainedIs(c, source, row);
      assert p.blobs[row.key] == row;
      assert row in p.blobs.Values && row in Elements(kv.blobs);
    }
    forall id | id in from.missingIds
      ensures id in kv.missingIds || BlobKey(id) in Elements(Keys(kv.blobs))
              || (id in Dropped(source, kv) && id !in kv.referencedIds)
    {
      MissingStays(p, referenced, kv, id);
    }
    forall id | id in from.referencedIds
      ensures id in kv.referencedIds || (id in from.missingIds && id in Dropped(source, kv))
    {
      assert id in Elements(from.referencedIds);
      NotReferenced(p, referenced, kv, id);
      if id in BlobIds(from.blobs) {
        var row :| row in from.blobs && BlobId(row.key) == id;
        assert id in BlobIds(kv.blobs);
      } else {
        assert id in Elements(from.missingIds);
      }
    }
  }

  lemma RetainedIs(c: Codec, source: ChatSnapshot, row: Row)
    requires ValidPayload(c, PayloadOf(source)) && row in PayloadOf(source).blobs
    ensures row.key in Existing(PayloadOf(source).blobs) && Existing(PayloadOf(source).blobs)[row.key] == row
  {
    hide ValidBlob, Existing, TotalBytes, ValidIds, BlobIds;
    RowsByKey(PayloadOf(source).blobs);
  }

  lemma MissingStays(p: Probed, referenced: set<Text>, kv: AgentKv, id: Text)
    requires BlobIds(kv.blobs) == IdsOf(p.blobs) && IdsOf(p.blobs) <= referenced
    requires (forall k :: k in p.blobs ==> p.blobs[k].key == k && k == BlobKey(BlobId(k)))
    requires Elements(kv.blobs) == p.blobs.Values && Elements(kv.referencedIds) == referenced
    requires Elements(kv.missingIds) == referenced - IdsOf(p.blobs)
    ensures id in kv.missingIds || BlobKey(id) in Elements(Keys(kv.blobs))
            || (id !in kv.referencedIds && id !in kv.missingIds && id !in BlobIds(kv.blobs))
  {
    hide BlobKey, BlobId, BlobIds;
    NotReferenced(p, referenced, kv, id);
    assert id in kv.missingIds <==> id in Elements(kv.missingIds);
    if id in IdsOf(p.blobs) {
      var k :| k in p.blobs && BlobId(k) == id;
      assert p.blobs[k] in p.blobs.Values && p.blobs[k] in Elements(kv.blobs);
      var i :| 0 <= i < |kv.blobs| && kv.blobs[i] == p.blobs[k];
      assert Keys(kv.blobs)[i] == BlobKey(id);
    }
  }

  lemma NotReferenced(p: Probed, referenced: set<Text>, kv: AgentKv, id: Text)
    requires BlobIds(kv.blobs) == IdsOf(p.blobs) && IdsOf(p.blobs) <= referenced
    requires Elements(kv.referencedIds) == referenced && Elements(kv.missingIds) == referenced - IdsOf(p.blobs)
    ensures id !in kv.referencedIds ==> id !in kv.missingIds && id !in BlobIds(kv.blobs)
    ensures id in kv.referencedIds && id !in BlobIds(kv.blobs) ==> id in kv.missingIds
  {
    hide BlobIds, IdsOf;
    assert id in kv.referencedIds <==> id in Elements(kv.referencedIds);
    assert id in kv.missingIds <==> id in Elements(kv.missingIds);
  }
}
