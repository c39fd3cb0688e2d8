/** The continuation-closure verdict of src/chat/continuationClosure.ts. */
module Closure {
  import opened Basics
  import opened Schema
  import opened Reach
  import opened Seeds
  import opened Sums
  import opened Portable
  import opened Transfer
  import opened Walker
  import Base64

  // ----- The payload as a store -----

  /** new Map(rows.map(row => [row.key, row])).get(key) */
  function FindRow(rows: seq<Row>, key: Text): Option<Row> {
    if rows == [] then None
    else if rows[|rows| - 1].key == key then Some(rows[|rows| - 1])
    else FindRow(rows[..|rows| - 1], key)
  }

  lemma {:induction false} FindRowFinds(rows: seq<Row>, key: Text)
    ensures match FindRow(rows, key)
            case Some(row) => row in rows && row.key == key
            case None => forall row :: row in rows ==> row.key != key
  {
    if rows != [] {
      assert rows == rows[..|rows| - 1] + [rows[|rows| - 1]];
      FindRowFinds(rows[..|rows| - 1], key);
    }
  }

  function ClassOf(row: Row): Option<ValueType> {
    if row.valueType == Some(TextClass) then Some(TextValue)
    else if row.valueType == Some(BlobClass) then Some(BlobValue) else Some(OtherValue)
  }

  /** portableBlobLookup */
  function PortableLookup(p: AgentKv): (Text, nat) -> LookupResult {
    (key: Text, remaining: nat) =>
      match FindRow(p.blobs, key)
      case None => Absent
      case Some(row) =>
        if Base64.DecodedLength(row.valueBase64) > remaining then OverBudget
        else if ClassOf(row) == Some(OtherValue) then LookupResult.Unreadable
        else Found(key, Some(RowBytes(row)), ClassOf(row))
  }

  function PortableStore(p: AgentKv): Text -> LookupResult {
    (key: Text) =>
      match FindRow(p.blobs, key)
      case None => Absent
      case Some(row) => Found(key, Some(RowBytes(row)), ClassOf(row))
  }

  function WorldOf(c: Codec, rd: Reader, p: AgentKv): World {
    World(PortableStore(p), c.sha256, rd)
  }

  lemma ValidRow(c: Codec, p: AgentKv, row: Row)
    requires ValidPayload(c, p) && row in p.blobs
    ensures ValidBlob(c, row)
    ensures Base64.DecodedLength(row.valueBase64) == |RowBytes(row)|
  {
    hide ValidBlob;
    var i :| 0 <= i < |p.blobs| && p.blobs[i] == row;
    ValidLength(c, row);
  }

  lemma ValidLength(c: Codec, row: Row)
    requires ValidBlob(c, row)
    ensures Base64.DecodedLength(row.valueBase64) == |RowBytes(row)|
  {
    Base64.DecodedLengthExact(row.valueBase64);
  }

  lemma LookupServes(c: Codec, p: AgentKv)
    requires ValidPayload(c, p)
    ensures Serves(PortableLookup(p), PortableStore(p))
  {
    hide ValidPayload, RowBytes, Base64.DecodedLength;
    forall key, room
      ensures || (PortableLookup(p)(key, room) == PortableStore(p)(key) && PortableStore(p)(key) != OverBudget)
              || (PortableLookup(p)(key, room) == OverBudget && RowSize(PortableStore(p)(key)) > room)
    {
      FindRowFinds(p.blobs, key);
      if FindRow(p.blobs, key).Some? {
        ValidRow(c, p, FindRow(p.blobs, key).value);
      }
    }
  }

  /** In a valid payload an id is verified content or simply absent. */
  lemma ContentOfId(c: Codec, rd: Reader, p: AgentKv, id: Id)
    requires ValidPayload(c, p)
    ensures match FindRow(p.blobs, BlobKey(id))
            case Some(row) => id in BlobIds(p.blobs) && Content(WorldOf(c, rd, p), id) == Good(RowBytes(row),
                ClassOf(row))
            case None => id !in BlobIds(p.blobs) && Content(WorldOf(c, rd, p), id) == Bad(MissingContent)
  {
    hide ValidPayload, RowBytes, ValidBlob, IsId;
    FindRowFinds(p.blobs, BlobKey(id));
    match FindRow(p.blobs, BlobKey(id))
    case Some(row) =>
      ValidRow(c, p, row);
      ValidBlobParts(c, row);
      assert BlobId(BlobKey(id)) == id;
    case None =>
      forall row | row in p.blobs ensures BlobId(row.key) != id {
        ValidRow(c, p, row);
        ValidBlobParts(c, row);
        BlobKeyOf(row.key);
      }
  }

  lemma ValidBlobParts(c: Codec, row: Row)
    requires ValidBlob(c, row)
    ensures IsBlobKey(row.key) && c.sha256(RowBytes(row)) == BlobId(row.key) && ClassOf(row) != Some(OtherValue)
  {
  }

  // ----- The verdict -----

  datatype StateScan = StructureLimit | UnreadableStates | States(states: seq<Text>)

  datatype Verdict =
    | Complete
    | Incomplete
    | NotDeclared
    | ContentInvalid
    | NotDeclaredMissing
    | JsonStructureLimit
    | StateUnreadable
    | WalkLimit

  /** What the verdict on these reachable ids should be. */
  function VerdictOf(p: AgentKv, ids: set<Id>): Verdict {
    if !(ids <= Elements(p.referencedIds)) then NotDeclared
    else if ids <= BlobIds(p.blobs) then Complete
    else Incomplete
  }

  function MissingOf(issues: map<Id, Issue>): set<Id> {
    set id | id in issues && issues[id] == MissingContent
  }

  /** verifyPortableChatContinuationClosure, given the state scan. On a payload
      that passed the parser the verdict is decided by the reachable ids alone,
      and complete exactly when the walk can be. */
  method VerifyClosure(c: Codec, rd: Reader, p: AgentKv, scan: StateScan, lim: WalkLimits)
    returns (verdict: Verdict, ghost reached: set<Ref>)
    requires ValidPayload(c, p)
    ensures verdict == Complete <==> scan.States? && Completable(WorldOf(c, rd, p), lim, false, scan.states)
    ensures verdict !in {JsonStructureLimit, StateUnreadable, WalkLimit} ==>
      && scan.States?
      && IsClosure(WorldOf(c, rd, p), RootRefs(WorldOf(c, rd, p), scan.states), reached)
      && verdict == VerdictOf(p, Ids(reached))
    ensures verdict != ContentInvalid && verdict != NotDeclaredMissing
    ensures verdict == JsonStructureLimit <==> scan == StructureLimit
    ensures verdict in {StateUnreadable, WalkLimit} <==>
            scan == UnreadableStates || (scan.States? && !Coverable(WorldOf(c, rd, p), lim, false, scan.states))
    ensures scan == UnreadableStates ==> verdict == StateUnreadable
  {
    hide ValidPayload, Completable, Coverable, IsClosure, RowBytes, BlobIds, Content, Goods;
    reached := {};
    if scan == StructureLimit {
      return JsonStructureLimit, reached;
    }
    if scan == UnreadableStates {
      return StateUnreadable, reached;
    }
    var world := WorldOf(c, rd, p);
    LookupServes(c, p);
    var walked;
    walked, reached := WalkAgentKvReachability(world, PortableLookup(p), scan.states, lim, false);
    if walked.limitReasons != {} {
      return WalkLimit, reached;
    }
    if walked.unreadableSeeds != [] {
      return StateUnreadable, reached;
    }
    var active := walked.blobs.Keys + walked.issues.Keys;
    ActiveIds(c, rd, p, scan.states, walked, reached);
    var declared := Elements(p.referencedIds);
    if !(active <= declared) {
      return NotDeclared, reached;
    }
    var missing := MissingOf(walked.issues);
    if missing != walked.issues.Keys {
      return ContentInvalid, reached;
    }
    if !(missing <= Elements(p.missingIds)) {
      return NotDeclaredMissing, reached;
    }
    verdict := if missing != {} then Incomplete else Complete;
  }

  /** Without limits, what was examined is what is reachable; without tampered
      rows, what is wrong is what is missing. */
  lemma ActiveIds(c: Codec, rd: Reader, p: AgentKv, states: seq<Text>, walked: WalkResult, reached: set<Ref>)
    requires ValidPayload(c, p)
    requires walked.sunk == []
    requires forall id :: id in walked.issues ==> Content(WorldOf(c, rd, p), id) == Bad(walked.issues[id])
    requires Exact(WorldOf(c, rd, p), states, walked, reached)
    ensures walked.blobs.Keys + walked.issues.Keys == Ids(reached)
    ensures MissingOf(walked.issues) == walked.issues.Keys == Ids(reached) - BlobIds(p.blobs)
    ensures Elements(p.referencedIds) == BlobIds(p.blobs) + Elements(p.missingIds)
  {
    hide RowBytes, BlobIds, Content, IsClosure, Ids, ValidPayload, WorldOf, Goods;
    DeclaredParts(c, p);
    HeldOrMissing(c, rd, p, Ids(reached), walked.issues);
    assert Elements(walked.sunk) == {};
    SplitGoods(Ids(reached), Goods(WorldOf(c, rd, p), Ids(reached)), BlobIds(p.blobs));
  }

  /** Ids are verified content or missing, and only the others can be issues. */
  lemma HeldOrMissing(c: Codec, rd: Reader, p: AgentKv, ids: set<Id>, issues: map<Id, Issue>)
    requires ValidPayload(c, p)
    requires forall id :: id in issues ==> Content(WorldOf(c, rd, p), id) == Bad(issues[id])
    ensures Goods(WorldOf(c, rd, p), ids) == ids * BlobIds(p.blobs)
    ensures MissingOf(issues) == issues.Keys
  {
    hide RowBytes, BlobIds, Content, ValidPayload, WorldOf;
    forall id: Id
      ensures Content(WorldOf(c, rd, p), id).Good? <==> id in BlobIds(p.blobs)
      ensures Content(WorldOf(c, rd, p), id).Good? || Content(WorldOf(c, rd, p), id) == Bad(MissingContent)
    {
      ContentOfId(c, rd, p, id);
    }
  }

  lemma DeclaredParts(c: Codec, p: AgentKv)
    requires ValidPayload(c, p)
    ensures Elements(p.referencedIds) == BlobIds(p.blobs) + Elements(p.missingIds)
  {
    hide ValidBlob, ValidIds, StrictlySorted, TotalBytes, BlobIds, Elements;
  }

  lemma SplitGoods<T>(all: set<T>, goods: set<T>, blobs: set<T>)
    requires goods == all * blobs
    ensures goods + (all - goods) == all
    ensures all - goods == all - blobs
  {
  }

  // ----- Rows the core does not reach -----

  /** q declares and carries everything p does, and nothing more among ids. */
  ghost predicate AddsOnlyOutside(p: AgentKv, q: AgentKv, ids: set<Id>) {
    && (forall row :: row in p.blobs ==> row in q.blobs)
    && Elements(p.referencedIds) <= Elements(q.referencedIds)
    && (Elements(q.referencedIds) - Elements(p.referencedIds)) !! ids
    && (BlobIds(q.blobs) - BlobIds(p.blobs)) !! ids
  }

  lemma SameContent(c: Codec, rd: Reader, p: AgentKv, q: AgentKv, ids: set<Id>, id: Id)
    requires ValidPayload(c, p) && ValidPayload(c, q) && AddsOnlyOutside(p, q, ids) && id in ids
    ensures Content(WorldOf(c, rd, p), id) == Content(WorldOf(c, rd, q), id)
  {
    hide RowBytes, BlobIds, Content, ValidBlob;
    ContentOfId(c, rd, p, id);
    ContentOfId(c, rd, q, id);
    FindRowFinds(p.blobs, BlobKey(id));
    FindRowFinds(q.blobs, BlobKey(id));
    if FindRow(p.blobs, BlobKey(id)).Some? {
      SameKeySameRow(q, FindRow(p.blobs, BlobKey(id)).value, FindRow(q.blobs, BlobKey(id)).value);
    }
  }

  lemma SameKeySameRow(p: AgentKv, a: Row, b: Row)
    requires StrictlySorted(Keys(p.blobs)) && a in p.blobs && b in p.blobs && a.key == b.key
    ensures a == b
  {
    var i :| 0 <= i < |p.blobs| && p.blobs[i] == a;
    var j :| 0 <= j < |p.blobs| && p.blobs[j] == b;
    SortedNoDuplicates(Keys(p.blobs), i, j);
  }

  lemma SameWorlds(c: Codec, rd: Reader, p: AgentKv, q: AgentKv, ids: set<Id>)
    requires ValidPayload(c, p) && ValidPayload(c, q) && AddsOnlyOutside(p, q, ids)
    ensures SameOn(WorldOf(c, rd, p), WorldOf(c, rd, q), ids)
  {
    hide ValidPayload, AddsOnlyOutside, Content;
    forall id | id in ids ensures Content(WorldOf(c, rd, p), id) == Content(WorldOf(c, rd, q), id) {
      SameContent(c, rd, p, q, ids, id);
    }
  }

  /** Declared rows the core does not reach change neither the closure nor the
      verdict on it. */
  lemma ExtraRowsIrrelevant(c: Codec, rd: Reader, p: AgentKv, q: AgentKv, roots: set<Ref>, reached: set<Ref>)
    requires ValidPayload(c, p) && ValidPayload(c, q) && AddsOnlyOutside(p, q, Ids(reached))
    requires IsClosure(WorldOf(c, rd, p), roots, reached)
    ensures IsClosure(WorldOf(c, rd, q), roots, reached)
    ensures VerdictOf(p, Ids(reached)) == VerdictOf(q, Ids(reached))
  {
    hide ValidPayload, IsClosure, Ids;
    SameWorlds(c, rd, p, q, Ids(reached));
    ClosureElsewhere(WorldOf(c, rd, p), WorldOf(c, rd, q), roots, reached);
    SubsetOutside(Ids(reached), Elements(p.referencedIds), Elements(q.referencedIds));
    BlobIdsGrow(p, q);
    SubsetOutside(Ids(reached), BlobIds(p.blobs), BlobIds(q.blobs));
  }

  lemma BlobIdsGrow(p: AgentKv, q: AgentKv)
    requires forall row :: row in p.blobs ==> row in q.blobs
    ensures BlobIds(p.blobs) <= BlobIds(q.blobs)
  {
  }

  lemma SubsetOutside<T>(ids: set<T>, a: set<T>, b: set<T>)
    requires a <= b && (b - a) !! ids
    ensures ids <= a <==> ids <= b
  {
  }

  /** Nor do they change whether the walk meets a limit: so they never change the
      verdict. */
  lemma ExtraRowsKeepVerdict(c: Codec, rd: Reader, p: AgentKv, q: AgentKv, lim: WalkLimits, states: seq<Text>,
                             reached: set<Ref>)
    requires ValidPayload(c, p) && ValidPayload(c, q) && AddsOnlyOutside(p, q, Ids(reached))
    requires IsClosure(WorldOf(c, rd, p), RootRefs(WorldOf(c, rd, p), states), reached)
    ensures IsClosure(WorldOf(c, rd, q), RootRefs(WorldOf(c, rd, q), states), reached)
    ensures Coverable(WorldOf(c, rd, p), lim, false, states) <==> Coverable(WorldOf(c, rd, q), lim, false, states)
    ensures VerdictOf(p, Ids(reached)) == VerdictOf(q, Ids(reached))
  {
    hide ValidPayload, SeedsFit, AddsOnlyOutside, IsClosure, Passable, SameOn, SizedAlike, SeedRefs, VerdictOf, Ids;
    var w, v := WorldOf(c, rd, p), WorldOf(c, rd, q);
    SameWorlds(c, rd, p, q, Ids(reached));
    SameRowSizes(c, rd, p, q, Ids(reached));
    ExtraRowsIrrelevant(c, rd, p, q, RootRefs(w, states), reached);
    SameBack(w, v, Ids(reached));
    if Coverable(w, lim, false, states) {
      var other :| CoverableWith(w, lim, false, states, other);
      ClosureUnique(w, RootRefs(w, states), other, reached);
      CoverableElsewhere(w, v, lim, states, reached);
    }
    if Coverable(v, lim, false, states) {
      var other :| CoverableWith(v, lim, false, states, other);
      ClosureUnique(v, RootRefs(v, states), other, reached);
      CoverableElsewhere(v, w, lim, states, reached);
    }
  }

  lemma SameBack(w: World, v: World, ids: set<Id>)
    requires SameOn(w, v, ids) && SizedAlike(w, v, ids)
    ensures SameOn(v, w, ids) && SizedAlike(v, w, ids)
  {
    hide Content, SizeOf;
  }

  lemma SameRowSizes(c: Codec, rd: Reader, p: AgentKv, q: AgentKv, ids: set<Id>)
    requires ValidPayload(c, p) && ValidPayload(c, q) && AddsOnlyOutside(p, q, ids)
    ensures SizedAlike(WorldOf(c, rd, p), WorldOf(c, rd, q), ids)
  {
    hide ValidPayload, AddsOnlyOutside, Content, RowBytes, BlobIds;
    forall id | id in ids ensures SizeOf(WorldOf(c, rd, p))(id) == SizeOf(WorldOf(c, rd, q))(id) {
      SameContent(c, rd, p, q, ids, id);
      ContentOfId(c, rd, p, id);
      ContentOfId(c, rd, q, id);
    }
  }
}
