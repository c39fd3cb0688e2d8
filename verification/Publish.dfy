/** The decision to publish an enriched chat and what it keeps over any run:
    planChatTipEnrichment of src/chat/enrichment.ts. */
module Publish {
  import opened Basics
  import opened Schema
  import opened Reach
  import opened Seeds
  import opened Walker
  import opened Transfer
  import opened Portable
  import opened Canonical
  import opened Reparse
  import opened Enrich
  import Closure
  import Lengths
  import RepairBudget

  // ----- The active closure of a snapshot -----

  /** What is fixed while chats are planned: hashing, the schema reader, the scan
      of a snapshot for conversation states, and the byte limit of closure walks. */
  datatype Setting = Setting(c: Codec, rd: Reader, scan: ChatSnapshot -> Closure.StateScan, closureBytes: nat)
  {
    /** The scan reads the core of a snapshot only. */
    ghost predicate ScansCore() {
      forall a, b :: SameCore(a, b) ==> scan(a) == scan(b)
    }

    function Limits(): WalkLimits {
      WalkLimits(ENRICHMENT_MAX_NODES, Min(closureBytes, DEFAULT_MAX_BYTES), WALK_MAX_DEPTH)
    }

    function World(s: ChatSnapshot): World {
      Closure.WorldOf(c, rd, PayloadOf(s))
    }

    function States(s: ChatSnapshot): seq<Text> {
      if scan(s).States? then scan(s).states else []
    }

    /** The snapshot's own rows hold everything its states reach, within the limits. */
    ghost predicate ClosureComplete(s: ChatSnapshot) {
      scan(s).States? && Completable(World(s), Limits(), false, States(s))
    }

    /** These are the references its states reach, over its own rows. */
    ghost predicate Active(s: ChatSnapshot, reached: set<Ref>) {
      IsClosure(World(s), RootRefs(World(s), States(s)), reached)
    }

    /** Everything reached can be walked and is declared. */
    ghost predicate Declares(s: ChatSnapshot) {
      && scan(s).States? && Coverable(World(s), Limits(), false, States(s))
      && forall reached :: Active(s, reached) ==> Ids(reached) <= Elements(PayloadOf(s).referencedIds)
    }
  }

  /** A closure is walked over at most 4096 nodes and 256 levels, and the bytes of the
      setting up to 512 MiB. */
  lemma LimitsAre(st: Setting)
    ensures var l := st.Limits();
            && l.maxNodes == 4096 && l.maxDepth == 256 && l.maxBytes <= st.closureBytes && l.maxBytes <= 0x2000_0000
            && (l.maxBytes == st.closureBytes || l.maxBytes == 0x2000_0000)
  {
  }

  predicate SameCore(a: ChatSnapshot, b: ChatSnapshot) {
    a.composerId == b.composerId && a.header == b.header && a.composerData == b.composerData && a.bubbles == b.bubbles
  }

  datatype ClosureStatus = Complete | Incomplete | Doubtful

  /** verifyEnrichmentContinuationClosure; doubtful is invalid or unknown. */
  method VerifyActiveClosure(st: Setting, s: ChatSnapshot) returns (status: ClosureStatus)
    requires ValidPayload(st.c, PayloadOf(s))
    ensures status == Complete <==> st.ClosureComplete(s)
    ensures status != Doubtful <==> st.Declares(s)
    ensures status == Complete ==>
              forall reached :: st.Active(s, reached) ==> Ids(reached) <= BlobIds(PayloadOf(s).blobs)
  {
    hide ValidPayload, Completable, Coverable, IsClosure, BlobIds, Closure.WorldOf, RootRefs, Ids;
    var verdict, reached := Closure.VerifyClosure(st.c, st.rd, PayloadOf(s), st.scan(s), st.Limits());
    status := if verdict == Closure.Complete then Complete
              else if verdict == Closure.Incomplete then Incomplete else Doubtful;
    if verdict in {Closure.Complete, Closure.Incomplete, Closure.NotDeclared} {
      forall other | st.Active(s, other) ensures other == reached {
        ClosureUnique(st.World(s), RootRefs(st.World(s), st.States(s)), other, reached);
      }
      assert st.Active(s, reached);
    }
  }

  // ----- Publishing -----

  const DEFAULT_LIMITS := WalkLimits(50_000, DEFAULT_MAX_BYTES, WALK_MAX_DEPTH)

  /** A published enrichment of the source: the core is the source's, everything
      reached is declared, and held if nothing is listed missing; every row stays,
      and a reference goes only where that is safe. */
  ghost predicate Published(st: Setting, db: Text -> LookupResult, source: ChatSnapshot, enriched: ChatSnapshot) {
    && SameCore(source, enriched) && enriched.agentKv.Some? && ValidPayload(st.c, enriched.agentKv.value)
    && st.Declares(enriched) && (enriched.agentKv.value.missingIds == [] ==> st.ClosureComplete(enriched))
    && (source.agentKv.Some? ==>
          && (forall row :: row in source.agentKv.value.blobs ==> row in enriched.agentKv.value.blobs)
          && forall id :: id in source.agentKv.value.referencedIds && id !in enriched.agentKv.value.referencedIds ==>
               PrunedSafely(st, db, source, enriched, id))
  }

  /** The source listed the id missing, an exact lookup found nothing, and the new
      snapshot holds all its states reach, the id not among it. */
  ghost predicate PrunedSafely(st: Setting, db: Text -> LookupResult, source: ChatSnapshot, enriched: ChatSnapshot,
                               id: Text)
  {
    && source.agentKv.Some? && id in source.agentKv.value.missingIds && db(BlobKey(id)) == Absent
    && st.ClosureComplete(enriched) && exists reached :: st.Active(enriched, reached) && id !in Ids(reached)
  }

  function AddedBlobCount(previous: set<Text>, rows: seq<Row>): nat {
    if rows == [] then 0
    else AddedBlobCount(previous, rows[..|rows| - 1]) + if BlobId(rows[|rows| - 1].key) in previous then 0 else 1
  }

  lemma {:induction false} NothingAdded(previous: set<Text>, rows: seq<Row>)
    ensures AddedBlobCount(previous, rows) == 0 <==> BlobIds(rows) <= previous
  {
    hide BlobId;
    if rows != [] {
      var init, last := rows[..|rows| - 1], rows[|rows| - 1];
      NothingAdded(previous, init);
      assert rows == init + [last];
      assert BlobIds(rows) == BlobIds(init) + {BlobId(last.key)};
    }
  }

  /** A legacy chat whose states can all be read and refer to nothing. */
  predicate EmptyLegacyGraph(rd: Reader, source: ChatSnapshot, states: seq<Text>) {
    && source.agentKv == None
    && SeedsFit(rd, DEFAULT_LIMITS, states, |states|) && SeedRefs(rd, states, |states|) == {}
  }

  /** emptyLegacyAgentKvPayload */
  method EmptyLegacyAgentKvPayload(rd: Reader, source: ChatSnapshot, states: seq<Text>) returns (empty: bool)
    ensures empty <==> EmptyLegacyGraph(rd, source, states)
  {
    hide SeedsFit, SeedRefs, RefsOf, RootsNamed;
    if source.agentKv.Some? {
      return false;
    }
    var roots := ExtractRoots(rd, states, DEFAULT_LIMITS);
    NoRefs(roots.rootTypes);
    return roots.Complete() && roots.rootTypes == map[];
  }

  lemma NoRefs(types: map<Id, set<MessageType>>)
    requires NoneEmpty(types)
    ensures RefsOf(types) == {} <==> types == map[]
  {
    if types != map[] {
      var id :| id in types;
      var t :| t in types[id];
      assert Ref(id, t) in RefsOf(types);
    }
  }

  function PrunedIds(source: ChatSnapshot, kv: AgentKv): set<Text> {
    if source.agentKv == None then {} else Dropped(source, kv)
  }

  /** No blob is added, no reference given up, no empty graph audited, and no
      partition corrected. */
  predicate NothingNew(source: ChatSnapshot, kv: AgentKv, safelyEmptyLegacyGraph: bool, isCoreMigrationSource: bool) {
    && BlobIds(kv.blobs) <= BlobIds(PayloadOf(source).blobs)
    && !(safelyEmptyLegacyGraph && kv == AgentKv([], [], []))
    && PrunedIds(source, kv) == {}
    && !(source.agentKv.Some? && source.agentKv.value.missingIds == [] && isCoreMigrationSource
         && source.agentKv.value != kv)
  }

  /** Giving up a missing id is worth publishing by itself, and so is a new blob;
      what the source has already is not, but for an audit of an empty graph and,
      where the core is to migrate, a partition to correct. */
  lemma WorthPublishing(source: ChatSnapshot, kv: AgentKv, safelyEmptyLegacyGraph: bool, isCoreMigrationSource: bool)
    ensures NothingNew(source, kv, safelyEmptyLegacyGraph, isCoreMigrationSource) <==>
              && (forall row :: row in kv.blobs ==>
                    source.agentKv.Some?
                    && exists own :: own in source.agentKv.value.blobs && BlobId(own.key) == BlobId(row.key))
              && (source.agentKv.Some? ==> forall id :: id in source.agentKv.value.missingIds ==>
                    || id in kv.referencedIds || id in kv.missingIds
                    || exists row :: row in kv.blobs && BlobId(row.key) == id)
              && (safelyEmptyLegacyGraph ==> kv.blobs != [] || kv.referencedIds != [] || kv.missingIds != [])
              && (isCoreMigrationSource && source.agentKv.Some? && source.agentKv.value.missingIds == [] ==>
                    source.agentKv.value == kv)
  {
    hide BlobId;
    if NothingNew(source, kv, safelyEmptyLegacyGraph, isCoreMigrationSource) {
      forall row | row in kv.blobs
        ensures source.agentKv.Some?
                && exists own :: own in source.agentKv.value.blobs && BlobId(own.key) == BlobId(row.key)
      {
        assert BlobId(row.key) in BlobIds(kv.blobs);
      }
      if source.agentKv.Some? {
        forall id | id in source.agentKv.value.missingIds && id !in kv.referencedIds && id !in kv.missingIds
          ensures exists row :: row in kv.blobs && BlobId(row.key) == id
        {
          assert id !in PrunedIds(source, kv);
        }
      }
    }
  }

  /** The payload up for publication: an empty one for a chat audited as having
      none, else what was collected. */
  ghost predicate Proposed(st: Setting, db: Text -> LookupResult, source: ChatSnapshot, rawBudget: nat, kv: AgentKv,
                           proof: seq<Text>)
  {
    if EmptyLegacyGraph(st.rd, source, st.States(source)) then kv == AgentKv([], [], []) && proof == []
    else Collected(st.c, st.rd, db, source, st.States(source), rawBudget, kv, proof)
  }

  /** What can be wrong with a proposed payload: an invalid proof, nothing new, a
      snapshot the parser refuses, a closure that cannot be walked, is not declared
      or is not whole, a loss, or too many bytes. */
  ghost predicate Unpublishable(st: Setting, source: ChatSnapshot, kv: AgentKv, proof: seq<Text>,
                                isCoreMigrationSource: bool, maxPayloadBytes: nat)
  {
    var enriched := source.(agentKv := Some(kv));
    || !PruneProofValid(source, kv, proof)
    || NothingNew(source, kv, EmptyLegacyGraph(st.rd, source, st.States(source)), isCoreMigrationSource)
    || !Parses(st.c, enriched)
    || !st.Declares(enriched) || (kv.missingIds == [] && !st.ClosureComplete(enriched))
    || !MonotonicOk(source, kv, if st.ClosureComplete(enriched) then PrunedIds(source, kv) else {})
    || Lengths.Bytes(Stringify(Lengths.SnapshotJson(enriched))) > maxPayloadBytes
  }

  /** The source needs no more than a marker: nothing is missing. */
  ghost predicate CoreMigrates(st: Setting, source: ChatSnapshot, isCoreMigrationSource: bool) {
    isCoreMigrationSource && source.agentKv.Some? && source.agentKv.value.missingIds == [] && st.ClosureComplete(source)
  }

  /** planChatTipEnrichment: collect, check the absence proof, and publish what adds
      something, parses, closes and stays monotonic. A plan applies the core exactly
      when nothing is missing. */
  method PlanEnrichment(st: Setting, db: Text -> LookupResult, source: ChatSnapshot,
                        sourceContentBytes: nat, maxPayloadBytes: nat, isCoreMigrationSource: bool)
    returns (r: Option<ChatSnapshot>, appliesCore: bool)
    requires LiveDatabase(db) && st.ScansCore() && ValidPayload(st.c, PayloadOf(source))
    ensures r.Some? ==> Published(st, db, source, r.value)
    ensures appliesCore <==> r.Some? && PayloadOf(r.value).missingIds == []
    ensures CoreMigrates(st, source, isCoreMigrationSource) ==> r == Some(source)
    ensures r.Some? && !CoreMigrates(st, source, isCoreMigrationSource) ==>
      && r.value.agentKv.Some? && r.value == source.(agentKv := r.value.agentKv)
      && exists proof ::
           && Proposed(st, db, source, AdditionalRawBudget(maxPayloadBytes, sourceContentBytes), r.value.agentKv.value,
                       proof)
           && !Unpublishable(st, source, r.value.agentKv.value, proof, isCoreMigrationSource, maxPayloadBytes)
    ensures r == None ==>
      || !st.scan(source).States?
      || (!EmptyLegacyGraph(st.rd, source, st.States(source))
          && !CanCollect(st.c, st.rd, db, source, st.States(source),
                         AdditionalRawBudget(maxPayloadBytes, sourceContentBytes)))
      || exists kv, proof ::
           && Proposed(st, db, source, AdditionalRawBudget(maxPayloadBytes, sourceContentBytes), kv, proof)
           && Unpublishable(st, source, kv, proof, isCoreMigrationSource, maxPayloadBytes)
  {
    hide ValidPayload, LiveDatabase, Published, Proposed, Unpublishable, EmptyLegacyGraph, CanCollect;
    hide AdditionalRawBudget;
    hide st.ClosureComplete, st.ScansCore;
    if !st.scan(source).States? {
      NeverComplete(st, source);
      return None, false;
    }
    if isCoreMigrationSource && source.agentKv.Some? && source.agentKv.value.missingIds == [] {
      var status := VerifyActiveClosure(st, source);
      if status == Complete {
        PublishedItself(st, db, source);
        return Some(source), true;
      }
    }
    var kv, proof := Propose(st, db, source, sourceContentBytes, maxPayloadBytes);
    if kv == None {
      return None, false;
    }
    r, appliesCore := Decide(st, db, source, kv.value, proof, isCoreMigrationSource, maxPayloadBytes);
  }

  /** What is to be published, if it can be known. */
  method Propose(st: Setting, db: Text -> LookupResult, source: ChatSnapshot, sourceContentBytes: nat,
                 maxPayloadBytes: nat)
    returns (kv: Option<AgentKv>, proof: seq<Text>)
    requires LiveDatabase(db) && ValidPayload(st.c, PayloadOf(source)) && st.scan(source).States?
    ensures kv == None <==>
      && !EmptyLegacyGraph(st.rd, source, st.States(source))
      && !CanCollect(st.c, st.rd, db, source, st.States(source),
                     AdditionalRawBudget(maxPayloadBytes, sourceContentBytes))
    ensures kv.Some? ==>
              Proposed(st, db, source, AdditionalRawBudget(maxPayloadBytes, sourceContentBytes), kv.value, proof)
    ensures kv.Some? ==> forall id :: id in proof ==> db(BlobKey(id)) == Absent
  {
    hide ValidPayload, LiveDatabase, CanCollect, AdditionalRawBudget, Collected, BlobKey, EmptyLegacyGraph;
    var states := st.scan(source).states;
    var safelyEmptyLegacyGraph := EmptyLegacyAgentKvPayload(st.rd, source, states);
    if safelyEmptyLegacyGraph {
      return Some(AgentKv([], [], [])), [];
    }
    var collected := CollectLiveAgentKv(st.c, st.rd, db, source, states, sourceContentBytes, maxPayloadBytes);
    kv, proof := collected.agentKv, collected.proof;
    if kv.Some? {
      CollectedAbsent(st.c, st.rd, db, source, states, AdditionalRawBudget(maxPayloadBytes, sourceContentBytes),
                      kv.value, proof);
    }
  }

  lemma CollectedAbsent(c: Codec, rd: Reader, db: Text -> LookupResult, source: ChatSnapshot, states: seq<Text>,
                        rawBudget: nat, kv: AgentKv, proof: seq<Text>)
    requires Collected(c, rd, db, source, states, rawBudget, kv, proof)
    ensures forall id :: id in proof ==> db(BlobKey(id)) == Absent
  {
    hide PruneProofValid, MonotonicOk, IsContentRow, IsClosure;
  }

  /** The checks on a proposed payload: it is published exactly when none fails. */
  method Decide(st: Setting, ghost db: Text -> LookupResult, source: ChatSnapshot, kv: AgentKv, proof: seq<Text>,
                isCoreMigrationSource: bool, maxPayloadBytes: nat)
    returns (r: Option<ChatSnapshot>, appliesCore: bool)
    requires st.ScansCore() && ValidPayload(st.c, PayloadOf(source)) && st.scan(source).States?
    requires forall id :: id in proof ==> db(BlobKey(id)) == Absent
    ensures r.Some? <==> !Unpublishable(st, source, kv, proof, isCoreMigrationSource, maxPayloadBytes)
    ensures r.Some? ==> r.value == source.(agentKv := Some(kv)) && Published(st, db, source, r.value)
    ensures appliesCore <==> r.Some? && kv.missingIds == []
  {
    hide ValidPayload, PruneProofValid, MonotonicOk, Lengths.Bytes, Stringify, Lengths.SnapshotJson, Published, Dropped;
    hide BlobIds;
    hide EmptyLegacyGraph, StructureOk, st.ClosureComplete, st.Declares, st.ScansCore, IsUuid, IsBubbleOf, RowOk;
    hide BlobKey;
    r, appliesCore := None, false;
    NothingAdded(BlobIds(PayloadOf(source).blobs), kv.blobs);
    var valid, droppedIds := ValidateSourceMissingPruneProof(source, kv, proof);
    if !valid {
      return;
    }
    var safelyEmptyLegacyGraph := EmptyLegacyAgentKvPayload(st.rd, source, st.scan(source).states);
    var addedBlobCount := AddedBlobCount(BlobIds(PayloadOf(source).blobs), kv.blobs);
    var publishesAuditedEmptyGraph := safelyEmptyLegacyGraph && kv == AgentKv([], [], []);
    var publishesCorrectedCoreMigrationPartition :=
      source.agentKv.Some? && source.agentKv.value.missingIds == [] && isCoreMigrationSource
      && source.agentKv.value != kv;
    NonEmptyElements(droppedIds);
    if addedBlobCount == 0 && !publishesAuditedEmptyGraph && droppedIds == []
       && !publishesCorrectedCoreMigrationPartition {
      return;
    }
    var enriched := source.(agentKv := Some(kv));
    var parsed := ParsePortableChatSnapshot(st.c, enriched);
    if !parsed {
      return;
    }
    var status := VerifyActiveClosure(st, enriched);
    if status == Doubtful {
      return;
    }
    var activeClosureComplete := status == Complete;
    if kv.missingIds == [] && !activeClosureComplete {
      return;
    }
    ValidKeysSorted(st.c, kv);
    var monotonic := AssertAgentKvMonotonic(source, kv, if activeClosureComplete then Elements(droppedIds) else {});
    if !monotonic || Lengths.Bytes(Stringify(Lengths.SnapshotJson(enriched))) > maxPayloadBytes {
      return;
    }
    PublishedBy(st, db, source, enriched, proof);
    return Some(enriched), kv.missingIds == [];
  }

  lemma ValidKeysSorted(c: Codec, kv: AgentKv)
    requires ValidPayload(c, kv)
    ensures StrictlySorted(Keys(kv.blobs))
  {
    hide ValidBlob, ValidIds, TotalBytes, BlobIds;
  }

  lemma NeverComplete(st: Setting, source: ChatSnapshot)
    requires !st.scan(source).States?
    ensures !st.ClosureComplete(source)
  {
  }

  lemma PublishedItself(st: Setting, db: Text -> LookupResult, source: ChatSnapshot)
    requires source.agentKv.Some? && ValidPayload(st.c, source.agentKv.value) && st.ClosureComplete(source)
    requires st.Declares(source)
    ensures Published(st, db, source, source)
  {
    hide ValidPayload, st.ClosureComplete, st.Declares;
  }

  /** An id no longer declared is not reached. */
  lemma PrunedOutside(st: Setting, s: ChatSnapshot, id: Text)
    requires st.ClosureComplete(s) && st.Declares(s) && id !in PayloadOf(s).referencedIds
    ensures exists reached :: st.Active(s, reached) && id !in Ids(reached)
  {
    hide IsClosure, Fits, Coverable, Ids, SeedsFit, Closure.WorldOf, RootRefs;
    var reached :| CompletableWith(st.World(s), st.Limits(), false, st.States(s), reached);
    assert st.Active(s, reached);
    assert id !in Elements(PayloadOf(s).referencedIds);
  }

  lemma PublishedBy(st: Setting, db: Text -> LookupResult, source: ChatSnapshot, enriched: ChatSnapshot,
                    proof: seq<Text>)
    requires enriched.agentKv.Some? && SameCore(source, enriched) && ValidPayload(st.c, enriched.agentKv.value)
    requires st.Declares(enriched) && (enriched.agentKv.value.missingIds == [] ==> st.ClosureComplete(enriched))
    requires PruneProofValid(source, enriched.agentKv.value, proof)
    requires MonotonicOk(source, enriched.agentKv.value,
                         if st.ClosureComplete(enriched) then PrunedIds(source, enriched.agentKv.value) else {})
    requires forall id :: id in proof ==> db(BlobKey(id)) == Absent
    ensures Published(st, db, source, enriched)
  {
    hide ValidPayload, StrictlySorted, BlobKey, BlobIds, st.ClosureComplete, st.Declares, st.Active, Ids;
    if source.agentKv.Some? {
      var kv := enriched.agentKv.value;
      forall id | id in source.agentKv.value.referencedIds && id !in kv.referencedIds
        ensures PrunedSafely(st, db, source, enriched, id)
      {
        assert id in Dropped(source, kv);
        assert id in Elements(proof);
        PrunedOutside(st, enriched, id);
      }
    }
  }

  /** For a chat that was parsed only the payload and the tokens can make the
      parser refuse. */
  lemma EnrichedParses(c: Codec, source: ChatSnapshot, kv: AgentKv)
    requires FieldsOk(c, source) && HeaderInert(source.header)
    ensures var enriched := source.(agentKv := Some(kv));
            Parses(c, enriched) <==> ValidPayload(c, kv) && Tokens(enriched) <= RepairBudget.MAX_STRUCTURAL_TOKENS
  {
    hide ValidPayload, StructureOk, Tokens, IsUuid, IsBubbleOf, RowOk, HeaderInert;
    TokensExact(source.(agentKv := Some(kv)));
  }

  // ----- Whole runs -----

  /** A run of published enrichments, each over whatever the database was then. */
  ghost predicate IsRun(st: Setting, dbs: seq<Text -> LookupResult>, versions: seq<ChatSnapshot>) {
    |versions| == |dbs| + 1 && forall i :: 0 <= i < |dbs| ==> Published(st, dbs[i], versions[i], versions[i + 1])
  }

  /** The step of the run at which a reference was pruned. */
  ghost predicate PrunedAt(st: Setting, dbs: seq<Text -> LookupResult>, versions: seq<ChatSnapshot>, id: Text, i: nat) {
    i < |dbs| && i + 1 < |versions| && PrunedSafely(st, dbs[i], versions[i], versions[i + 1], id)
  }

  /** Over any run the core never changes, no materialized blob is lost or
      altered, and a reference disappears only at a step that pruned it safely. */
  lemma {:induction false} RunIsMonotone(st: Setting, dbs: seq<Text -> LookupResult>, versions: seq<ChatSnapshot>)
    requires IsRun(st, dbs, versions)
    ensures var first, last := versions[0], versions[|versions| - 1];
            && SameCore(first, last)
            && (forall row :: row in PayloadOf(first).blobs ==> row in PayloadOf(last).blobs)
            && forall id :: id in PayloadOf(first).referencedIds && id !in PayloadOf(last).referencedIds ==>
                 exists i: nat :: PrunedAt(st, dbs, versions, id, i)
    decreases |dbs|
  {
    hide ValidPayload, BlobKey, PrunedSafely, st.Declares, st.ClosureComplete;
    var n := |dbs|;
    if n > 0 {
      RunIsMonotone(st, dbs[..n - 1], versions[..n]);
      var first, before, last := versions[0], versions[n - 1], versions[n];
      assert Published(st, dbs[n - 1], before, last);
      assert versions[..n][n - 1] == before;
      forall id | id in PayloadOf(first).referencedIds && id !in PayloadOf(last).referencedIds
        ensures exists i: nat :: PrunedAt(st, dbs, versions, id, i)
      {
        if id in PayloadOf(before).referencedIds {
          assert PrunedAt(st, dbs, versions, id, n - 1);
        } else {
          var i: nat :| PrunedAt(st, dbs[..n - 1], versions[..n], id, i);
          assert PrunedAt(st, dbs, versions, id, i);
        }
      }
    }
  }

  /** A row that is kept gives its id the same content. */
  lemma KeptContent(c: Codec, rd: Reader, p: AgentKv, q: AgentKv, id: Id)
    requires ValidPayload(c, p) && ValidPayload(c, q) && forall row :: row in p.blobs ==> row in q.blobs
    requires Content(Closure.WorldOf(c, rd, p), id).Good?
    ensures Content(Closure.WorldOf(c, rd, q), id) == Content(Closure.WorldOf(c, rd, p), id)
  {
    hide RowBytes, BlobIds, Content, ValidBlob;
    Closure.ContentOfId(c, rd, p, id);
    Closure.ContentOfId(c, rd, q, id);
    Closure.FindRowFinds(p.blobs, BlobKey(id));
    Closure.FindRowFinds(q.blobs, BlobKey(id));
    Closure.SameKeySameRow(q, Closure.FindRow(p.blobs, BlobKey(id)).value, Closure.FindRow(q.blobs, BlobKey(id)).value);
  }

  /** A chat that has all its states reach still has it once enriched. */
  lemma CompleteStays(st: Setting, db: Text -> LookupResult, source: ChatSnapshot, enriched: ChatSnapshot)
    requires st.ScansCore() && Published(st, db, source, enriched)
    requires ValidPayload(st.c, PayloadOf(source)) && st.ClosureComplete(source)
    ensures st.ClosureComplete(enriched)
  {
    hide ValidPayload, Content, IsClosure, Roomy, SeedsFit, Ids, PrunedSafely, st.Declares, Closure.WorldOf, RootRefs;
    var w, v := st.World(source), st.World(enriched);
    var reached :| CompletableWith(w, st.Limits(), false, st.States(source), reached);
    forall id | id in Ids(reached) ensures Content(w, id) == Content(v, id) {
      KeptContent(st.c, st.rd, PayloadOf(source), PayloadOf(enriched), id) by { ReachedGood(w, reached, id); }
    }
    SameReader(st.c, st.rd, PayloadOf(source), PayloadOf(enriched));
    CompletableElsewhere(w, v, st.Limits(), false, st.States(source), reached);
  }

  lemma ReachedGood(w: World, reached: set<Ref>, id: Id)
    requires Available(w, reached) && id in Ids(reached)
    ensures Content(w, id).Good?
  {
    hide Content;
    var r :| r in reached && r.id == id;
  }

  lemma SameReader(c: Codec, rd: Reader, p: AgentKv, q: AgentKv)
    ensures Closure.WorldOf(c, rd, p).rd == Closure.WorldOf(c, rd, q).rd == rd
  {
  }

  /** Once complete, the closure is complete at every later step of a run. */
  lemma {:induction false} RunStaysComplete(st: Setting, dbs: seq<Text -> LookupResult>, versions: seq<ChatSnapshot>,
                                            i: nat, j: nat)
    requires st.ScansCore() && IsRun(st, dbs, versions) && i <= j < |versions|
    requires ValidPayload(st.c, PayloadOf(versions[0])) && st.ClosureComplete(versions[i])
    ensures st.ClosureComplete(versions[j])
    decreases j
  {
    hide ValidPayload, st.ScansCore, st.ClosureComplete, Published;
    if i < j {
      RunStaysComplete(st, dbs, versions, i, j - 1);
      assert Published(st, dbs[j - 1], versions[j - 1], versions[j]);
      if j > 1 {
        assert Published(st, dbs[j - 2], versions[j - 2], versions[j - 1]);
        PublishedValid(st, dbs[j - 2], versions[j - 2], versions[j - 1]);
      }
      CompleteStays(st, dbs[j - 1], versions[j - 1], versions[j]);
    }
  }

  lemma PublishedValid(st: Setting, db: Text -> LookupResult, source: ChatSnapshot, enriched: ChatSnapshot)
    requires Published(st, db, source, enriched)
    ensures ValidPayload(st.c, PayloadOf(enriched))
  {
    hide ValidPayload, PrunedSafely, st.Declares, st.ClosureComplete;
  }
}
