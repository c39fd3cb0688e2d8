/** walkAgentKvReachability of src/chat/agentKv.ts: the typed worklist search
    over hash-verified content, in its retaining and its streaming mode. */
module Walker {
  import opened Basics
  import opened Schema
  import opened Reach
  import opened Seeds
  import opened Sums

  datatype Pending = Pending(ref: Ref, depth: nat)

  datatype Blob = Blob(bytes: seq<byte>, valueType: Option<ValueType>)

  /** The variables of the walk. The arrays of missing, tampered and unreadable
      blobs are one map from an id to what is wrong with it; a sink's deliveries
      are listed in order. */
  datatype Walk = Walk(
    pending: seq<Pending>,
    scheduledIds: set<Id>,
    scheduledReferences: set<Ref>,
    resolved: map<Id, Option<seq<byte>>>,
    blobs: map<Id, Blob>,
    sunk: seq<Id>,
    issues: map<Id, Issue>,
    visitedNodes: nat,
    totalBytes: nat,
    examinedBytes: nat,
    reasons: set<LimitReason>)

  // ----- The worklist -----

  function RefsIn(pending: seq<Pending>): set<Ref> {
    set p | p in pending :: p.ref
  }

  predicate Distinct(pending: seq<Pending>) {
    forall i, j :: 0 <= i < j < |pending| ==> pending[i].ref != pending[j].ref
  }

  lemma RefsInAppend(pending: seq<Pending>, p: Pending)
    ensures RefsIn(pending + [p]) == RefsIn(pending) + {p.ref}
    ensures Distinct(pending) && p.ref !in RefsIn(pending) ==> Distinct(pending + [p])
  {
    forall r ensures r in RefsIn(pending + [p]) <==> r in RefsIn(pending) + {p.ref} {
      if r in RefsIn(pending) {
        var q :| q in pending && q.ref == r;
        assert q in pending + [p];
      }
      assert p in pending + [p];
    }
    if p.ref !in RefsIn(pending) {
      assert forall i :: 0 <= i < |pending| ==> pending[i] in pending;
    }
  }

  /** Every scheduled reference waits exactly once; ids stay within the node
      limit. */
  ghost predicate Queue(lim: WalkLimits, w: Walk) {
    && Distinct(w.pending)
    && w.scheduledReferences == RefsIn(w.pending)
    && w.scheduledIds == Ids(RefsIn(w.pending))
    && |w.scheduledIds| <= lim.maxNodes
  }

  /** Depths never fall along the queue and span at most d and d + 1 beyond d. */
  ghost predicate Layered(pending: seq<Pending>, d: nat) {
    && (forall i, j :: 0 <= i < j < |pending| ==> pending[i].depth <= pending[j].depth)
    && (forall i :: 0 <= i < |pending| ==> pending[i].depth <= d + 1)
  }

  /** c waits, or has waited, at depth d or less. */
  ghost predicate Listed(pending: seq<Pending>, c: Ref, d: nat) {
    exists i :: 0 <= i < |pending| && pending[i].ref == c && pending[i].depth <= d
  }

  lemma ListedAppend(pending: seq<Pending>, more: seq<Pending>, c: Ref, d: nat)
    requires Listed(pending, c, d)
    ensures Listed(pending + more, c, d)
  {
    var i :| 0 <= i < |pending| && pending[i].ref == c && pending[i].depth <= d;
    assert (pending + more)[i] == pending[i];
  }

  /** Pairs of an id and one of the six types. */
  lemma {:induction false} SixTypes(refs: set<Ref>)
    ensures |refs| <= 6 * |Ids(refs)|
  {
    if r :| r in refs {
      var same := set t: MessageType | Ref(r.id, t) in refs :: Ref(r.id, t);
      var six := {Ref(r.id, ConversationState), Ref(r.id, ConversationTurn), Ref(r.id, UserMessage),
                  Ref(r.id, ConversationStep), Ref(r.id, SubagentState), Ref(r.id, Opaque)};
      assert same <= six by {
        forall s | s in same ensures s in six {
          match s.target {
            case ConversationState =>
            case ConversationTurn =>
            case UserMessage =>
            case ConversationStep =>
            case SubagentState =>
            case Opaque =>
          }
        }
      }
      SubsetSize(same, six);
      var rest := refs - same;
      assert Ids(rest) == Ids(refs) - {r.id} by {
        forall s | s in refs ensures s in same <==> s.id == r.id {
          assert s == Ref(s.id, s.target);
        }
      }
      assert r in same by {
        assert r == Ref(r.id, r.target);
      }
      SixTypes(rest);
      assert refs == rest + same;
      assert r.id in Ids(refs);
    }
  }

  lemma {:induction false} DistinctSize(pending: seq<Pending>)
    requires Distinct(pending)
    ensures |pending| == |RefsIn(pending)|
  {
    if pending != [] {
      var init, last := pending[..|pending| - 1], pending[|pending| - 1];
      assert pending == init + [last];
      DistinctSize(init);
      RefsInAppend(init, last);
      forall q | q in init ensures q.ref != last.ref {
        var i :| 0 <= i < |init| && init[i] == q;
        assert pending[i] == q;
      }
    }
  }

  /** So the worklist can never outgrow six entries a node. */
  lemma QueueBound(lim: WalkLimits, w: Walk)
    requires Queue(lim, w)
    ensures |w.pending| <= 6 * lim.maxNodes
  {
    DistinctSize(w.pending);
    SixTypes(RefsIn(w.pending));
  }

  // ----- Fetching content -----

  ghost function Goods(world: World, ids: set<Id>): set<Id> {
    set id | id in ids && Content(world, id).Good?
  }

  /** What has been looked up so far is exactly ids, each with its outcome. */
  ghost predicate Account(world: World, streaming: bool, seedBytes: nat, ids: set<Id>, w: Walk) {
    && w.resolved.Keys == ids
    && w.issues.Keys == ids - Goods(world, ids)
    && (forall id :: id in w.issues ==> Content(world, id) == Bad(w.issues[id]))
    && w.totalBytes == seedBytes + Sum(SizeOf(world), Goods(world, ids))
    && if streaming then Delivered(world, ids, w) else Kept(world, ids, w)
  }

  /** Streaming: the sink got every verified blob, each exactly once. */
  ghost predicate Delivered(world: World, ids: set<Id>, w: Walk)
    requires w.resolved.Keys == ids
  {
    && w.blobs == map[]
    && (forall id :: id in ids ==> w.resolved[id] == None)
    && Elements(w.sunk) == Goods(world, ids)
    && |w.sunk| == |Goods(world, ids)|
  }

  /** Retaining: every verified blob is kept with its bytes and storage class. */
  ghost predicate Kept(world: World, ids: set<Id>, w: Walk)
    requires w.resolved.Keys == ids
  {
    && w.sunk == []
    && w.blobs.Keys == Goods(world, ids)
    && (forall id :: id in w.blobs ==> Content(world, id) == Good(w.blobs[id].bytes, w.blobs[id].valueType))
    && (forall id :: id in ids ==> w.resolved[id] == ContentBytes(world, id))
  }

  function ContentBytes(world: World, id: Id): Option<seq<byte>> {
    match Content(world, id)
    case Good(bytes, _) => Some(bytes)
    case Bad(_) => None
  }

  lemma GoodsInsert(world: World, ids: set<Id>, id: Id)
    ensures Goods(world, ids + {id}) == if Content(world, id).Good? then Goods(world, ids) + {id} else Goods(world, ids)
  {
    hide Content;
  }

  /** Bytes read to fetch an id: verified content is read again by each typed
      route when it is streamed, and never twice when it is retained. */
  function Cost(world: World, streaming: bool, done: set<Id>, id: Id): nat {
    if id !in done || (streaming && Content(world, id).Good?) then SizeOf(world)(id) else 0
  }

  /** The scheduling variables and reasons are untouched. */
  predicate SameQueue(v: Walk, w: Walk) {
    v.pending == w.pending && v.scheduledIds == w.scheduledIds && v.scheduledReferences == w.scheduledReferences
  }

  /** The limit that stopped a lookup, and why. */
  ghost predicate FetchLimit(world: World, lim: WalkLimits, w: Walk, v: Walk, id: Id) {
    || (v.reasons == w.reasons + {Nodes} && id !in w.resolved && |w.resolved.Keys| >= lim.maxNodes)
    || (v.reasons == w.reasons + {Bytes} && w.examinedBytes + SizeOf(world)(id) > lim.maxBytes)
  }

  /** One lookup, and the bytes of verified content; stop ends the walk. */
  method Fetch(world: World, lookup: (Text, nat) -> LookupResult, lim: WalkLimits, streaming: bool,
               ghost seedBytes: nat, w: Walk, id: Id)
    returns (v: Walk, bytes: Option<seq<byte>>, stop: bool)
    requires Serves(lookup, world.store)
    requires Account(world, streaming, seedBytes, w.resolved.Keys, w)
    requires w.visitedNodes == |w.resolved.Keys| <= lim.maxNodes && w.examinedBytes <= lim.maxBytes
    ensures SameQueue(v, w)
    ensures v.examinedBytes <= lim.maxBytes && v.visitedNodes <= lim.maxNodes
    ensures stop ==> v.examinedBytes == w.examinedBytes && FetchLimit(world, lim, w, v, id)
    ensures stop ==> v.resolved == w.resolved && Account(world, streaming, seedBytes, w.resolved.Keys, v)
    ensures !stop ==> v.reasons == w.reasons && Account(world, streaming, seedBytes, w.resolved.Keys + {id}, v)
    ensures !stop ==> v.visitedNodes == |v.resolved.Keys| && bytes == ContentBytes(world, id)
    ensures !stop ==> v.examinedBytes == w.examinedBytes + Cost(world, streaming, w.resolved.Keys, id)
    ensures CanFetch(world, lim, streaming, w, id) ==> !stop
  {
    hide Content, SizeOf, Goods, Serves;
    if streaming && id in w.sunk {
      assert id in Elements(w.sunk);
      KnownGood(world, w.resolved.Keys, id);
      v, bytes, stop := FetchAgain(world, lookup, lim, w, id);
    } else if id in w.resolved {
      v, bytes, stop := w, w.resolved[id], false;
      if streaming {
        assert id !in Elements(w.sunk);
        KnownGood(world, w.resolved.Keys, id);
      }
      assert w.resolved.Keys + {id} == w.resolved.Keys;
    } else {
      v, bytes, stop := FetchFirst(world, lookup, lim, streaming, seedBytes, w, id);
    }
  }

  /** The node and byte budgets allow reading the content, and streamed content
      is verified. */
  predicate CanFetch(world: World, lim: WalkLimits, streaming: bool, w: Walk, id: Id) {
    && (streaming ==> Content(world, id).Good?)
    && (id in w.resolved || |w.resolved.Keys| < lim.maxNodes)
    && w.examinedBytes + Cost(world, streaming, w.resolved.Keys, id) <= lim.maxBytes
  }

  lemma KnownGood(world: World, ids: set<Id>, id: Id)
    ensures id in Goods(world, ids) <==> id in ids && Content(world, id).Good?
    ensures id in ids ==> ids + {id} == ids
  {
    hide Content;
  }

  /** The repeated, verified read of a streamed blob. */
  method FetchAgain(world: World, lookup: (Text, nat) -> LookupResult, lim: WalkLimits, w: Walk, id: Id)
    returns (v: Walk, bytes: Option<seq<byte>>, stop: bool)
    requires Serves(lookup, world.store)
    requires w.examinedBytes <= lim.maxBytes
    requires Content(world, id).Good?
    ensures if SizeOf(world)(id) <= lim.maxBytes - w.examinedBytes
            then !stop && bytes == ContentBytes(world, id)
            && v == w.(examinedBytes := w.examinedBytes + SizeOf(world)(id))
            else stop && v == w.(reasons := w.reasons + {Bytes})
  {
    var again := lookup(BlobKey(id), lim.maxBytes - w.examinedBytes);
    if !again.Found? || again.bytes == None || |again.bytes.value| > lim.maxBytes - w.examinedBytes
       || world.sha256(again.bytes.value) != id || again.key != BlobKey(id) {
      return w.(reasons := w.reasons + {Bytes}), None, true;
    }
    return w.(examinedBytes := w.examinedBytes + |again.bytes.value|), again.bytes, false;
  }

  /** The first lookup of an id. */
  method FetchFirst(world: World, lookup: (Text, nat) -> LookupResult, lim: WalkLimits, streaming: bool,
                    ghost seedBytes: nat, w: Walk, id: Id)
    returns (v: Walk, bytes: Option<seq<byte>>, stop: bool)
    requires Serves(lookup, world.store) && id !in w.resolved
    requires Account(world, streaming, seedBytes, w.resolved.Keys, w)
    requires w.visitedNodes == |w.resolved.Keys| <= lim.maxNodes && w.examinedBytes <= lim.maxBytes
    ensures SameQueue(v, w)
    ensures v.examinedBytes <= lim.maxBytes && v.visitedNodes <= lim.maxNodes
    ensures stop ==> v.examinedBytes == w.examinedBytes && FetchLimit(world, lim, w, v, id)
    ensures stop ==> v.resolved == w.resolved && Account(world, streaming, seedBytes, w.resolved.Keys, v)
    ensures !stop ==> v.reasons == w.reasons && Account(world, streaming, seedBytes, w.resolved.Keys + {id}, v)
    ensures !stop ==> v.visitedNodes == |v.resolved.Keys| && bytes == ContentBytes(world, id)
    ensures !stop ==> v.examinedBytes == w.examinedBytes + SizeOf(world)(id)
    ensures stop <==> |w.resolved.Keys| >= lim.maxNodes || SizeOf(world)(id) > lim.maxBytes - w.examinedBytes
  {
    hide Judge, Goods, Account, Serves, RowSize, SizeOf;
    if w.visitedNodes >= lim.maxNodes {
      AccountFrame(world, streaming, seedBytes, w, w.(reasons := w.reasons + {Nodes}));
      return w.(reasons := w.reasons + {Nodes}), None, true;
    }
    v := w.(visitedNodes := w.visitedNodes + 1);
    var row := lookup(BlobKey(id), lim.maxBytes - w.examinedBytes);
    JudgedSize(world, id, row);
    Answer(world, lookup, id, lim.maxBytes - w.examinedBytes);
    if row == OverBudget || RowSize(row) > lim.maxBytes - w.examinedBytes {
      AccountFrame(world, streaming, seedBytes, w, v.(reasons := w.reasons + {Bytes}));
      return v.(reasons := w.reasons + {Bytes}), None, true;
    }
    v := v.(examinedBytes := w.examinedBytes + RowSize(row));
    stop := false;
    match Judge(world, id, row) {
      case Bad(issue) =>
        v := v.(issues := w.issues[id := issue], resolved := w.resolved[id := None]);
        bytes := None;
        AccountBad(world, streaming, seedBytes, w, v, id, issue);
      case Good(content, valueType) =>
        v := v.(totalBytes := w.totalBytes + |content|,
                resolved := w.resolved[id := if streaming then None else Some(content)],
                blobs := if streaming then w.blobs else w.blobs[id := Blob(content, valueType)],
                sunk := if streaming then w.sunk + [id] else w.sunk);
        bytes := Some(content);
        AccountGood(world, streaming, seedBytes, w, v, id, content, valueType);
    }
  }

  /** The account does not speak of the queue, the counters or the reasons. */
  lemma AccountFrame(world: World, streaming: bool, seedBytes: nat, w: Walk, v: Walk)
    requires Account(world, streaming, seedBytes, w.resolved.Keys, w)
    requires v.resolved == w.resolved && v.issues == w.issues && v.blobs == w.blobs && v.sunk == w.sunk
    requires v.totalBytes == w.totalBytes
    ensures Account(world, streaming, seedBytes, v.resolved.Keys, v)
  {
    hide Goods, Content, SizeOf;
  }

  lemma Answer(world: World, lookup: (Text, nat) -> LookupResult, id: Id, room: nat)
    requires Serves(lookup, world.store)
    ensures var row := lookup(BlobKey(id), room);
            if SizeOf(world)(id) > room then row == OverBudget || RowSize(row) > room
            else row != OverBudget && RowSize(row) == SizeOf(world)(id) && Judge(world, id, row) == Content(world, id)
  {
    hide Judge;
    assert lookup(BlobKey(id), room) == world.store(BlobKey(id)) || lookup(BlobKey(id), room) == OverBudget;
  }

  lemma JudgedSize(world: World, id: Id, row: LookupResult)
    ensures Judge(world, id, row).Good? ==> RowSize(row) == |Judge(world, id, row).bytes|
  {
  }

  lemma AccountBad(world: World, streaming: bool, seedBytes: nat, w: Walk, v: Walk, id: Id, issue: Issue)
    requires Account(world, streaming, seedBytes, w.resolved.Keys, w) && id !in w.resolved
    requires Content(world, id) == Bad(issue)
    requires v.issues == w.issues[id := issue] && v.resolved == w.resolved[id := None]
    requires v.blobs == w.blobs && v.sunk == w.sunk && v.totalBytes == w.totalBytes
    ensures Account(world, streaming, seedBytes, w.resolved.Keys + {id}, v)
  {
    hide Content, SizeOf, Goods;
    GoodsInsert(world, w.resolved.Keys, id);
    KnownGood(world, w.resolved.Keys, id);
  }

  lemma AccountGood(world: World, streaming: bool, seedBytes: nat, w: Walk, v: Walk, id: Id, content: seq<byte>,
                    valueType: Option<ValueType>)
    requires Account(world, streaming, seedBytes, w.resolved.Keys, w) && id !in w.resolved
    requires Content(world, id) == Good(content, valueType) && SizeOf(world)(id) == |content|
    requires v.issues == w.issues && v.totalBytes == w.totalBytes + |content|
    requires v.resolved == w.resolved[id := if streaming then None else Some(content)]
    requires v.blobs == if streaming then w.blobs else w.blobs[id := Blob(content, valueType)]
    requires v.sunk == if streaming then w.sunk + [id] else w.sunk
    ensures Account(world, streaming, seedBytes, w.resolved.Keys + {id}, v)
  {
    hide Content, SizeOf, Goods, Delivered, Kept;
    var ids := w.resolved.Keys;
    GoodsInsert(world, ids, id);
    KnownGood(world, ids, id);
    SumInsert(SizeOf(world), Goods(world, ids), id);
    MinusBoth(ids, Goods(world, ids), id);
    assert v.resolved.Keys == ids + {id};
    if streaming {
      DeliverGood(world, ids, w, v, id);
    } else {
      KeepGood(world, ids, w, v, id, content, valueType);
    }
  }

  lemma MinusBoth<T>(a: set<T>, b: set<T>, x: T)
    requires x !in a
    ensures (a + {x}) - (b + {x}) == a - b
  {
  }

  lemma DeliverGood(world: World, ids: set<Id>, w: Walk, v: Walk, id: Id)
    requires w.resolved.Keys == ids && id !in ids && Delivered(world, ids, w)
    requires Goods(world, ids + {id}) == Goods(world, ids) + {id} && id !in Goods(world, ids)
    requires v.resolved == w.resolved[id := None] && v.blobs == w.blobs && v.sunk == w.sunk + [id]
    ensures Delivered(world, ids + {id}, v)
  {
    hide Goods;
    ElementsAppend(w.sunk, id);
  }

  lemma KeepGood(world: World, ids: set<Id>, w: Walk, v: Walk, id: Id, content: seq<byte>, valueType: Option<ValueType>)
    requires w.resolved.Keys == ids && id !in ids && Kept(world, ids, w)
    requires Goods(world, ids + {id}) == Goods(world, ids) + {id} && id !in Goods(world, ids)
    requires Content(world, id) == Good(content, valueType)
    requires v.resolved == w.resolved[id := Some(content)] && v.blobs == w.blobs[id := Blob(content, valueType)]
    requires v.sunk == w.sunk
    ensures Kept(world, ids + {id}, v)
  {
    hide Goods, Content;
    assert v.blobs.Keys == w.blobs.Keys + {id};
  }

  lemma ElementsAppend<T>(s: seq<T>, x: T)
    ensures Elements(s + [x]) == Elements(s) + {x}
  {
    assert x in s + [x];
  }

  // ----- Expanding content into references -----

  /** Everything but the queue and the reasons is untouched. */
  predicate SameRecord(v: Walk, w: Walk) {
    v ==
      w.(pending := v.pending, scheduledIds := v.scheduledIds, scheduledReferences := v.scheduledReferences,
         reasons := v.reasons)
  }

  /** schedule: a reference joins the queue the first time only. */
  method Schedule(lim: WalkLimits, w: Walk, r: Ref, depth: nat) returns (v: Walk)
    requires Queue(lim, w) && (r.id !in w.scheduledIds ==> |w.scheduledIds| < lim.maxNodes)
    ensures Queue(lim, v) && SameRecord(v, w) && v.reasons == w.reasons
    ensures RefsIn(v.pending) == RefsIn(w.pending) + {r}
    ensures v.pending == w.pending || v.pending == w.pending + [Pending(r, depth)]
  {
    hide RefsIn, Ids;
    RefsInAppend(w.pending, Pending(r, depth));
    IdsInsert(RefsIn(w.pending), r);
    v := w.(scheduledIds := w.scheduledIds + {r.id});
    if r in w.scheduledReferences {
      IdsMember(RefsIn(w.pending), r);
      assert RefsIn(w.pending) + {r} == RefsIn(w.pending);
      assert v.scheduledIds == w.scheduledIds;
      return;
    }
    if r.id in w.scheduledIds {
      assert v.scheduledIds == w.scheduledIds;
    }
    v := v.(scheduledReferences := w.scheduledReferences + {r}, pending := w.pending + [Pending(r, depth)]);
  }

  lemma IdsMember(refs: set<Ref>, r: Ref)
    requires r in refs
    ensures r.id in Ids(refs)
  {
  }

  /** The queue grew by entries of one depth. */
  ghost predicate Extended(pending: seq<Pending>, more: seq<Pending>, depth: nat) {
    && pending <= more
    && forall i :: |pending| <= i < |more| ==> more[i].depth == depth
  }

  /** The new entries are among these references. */
  ghost predicate Grown(pending: seq<Pending>, more: seq<Pending>, refs: set<Ref>, depth: nat) {
    && Extended(pending, more, depth)
    && forall i :: |pending| <= i < |more| ==> more[i].ref in refs
  }

  /** The nested loops over child ids and their types, in any order. */
  method ScheduleChildren(lim: WalkLimits, w: Walk, refs: set<Ref>, depth: nat) returns (v: Walk, stop: bool)
    requires Queue(lim, w)
    ensures Queue(lim, v) && SameRecord(v, w) && Grown(w.pending, v.pending, refs, depth)
    ensures if stop then v.reasons == w.reasons + {Nodes} && |w.scheduledIds + Ids(refs)| > lim.maxNodes
            else v.reasons == w.reasons && RefsIn(v.pending) == RefsIn(w.pending) + refs
  {
    hide RefsIn, Ids, Queue, Grown;
    v := w;
    var rest := refs;
    GrownNone(w.pending, refs, depth);
    QueueIds(lim, w);
    while rest != {}
      invariant rest <= refs
      invariant Queue(lim, v) && SameRecord(v, w) && v.reasons == w.reasons && Grown(w.pending, v.pending, refs, depth)
      invariant RefsIn(v.pending) == RefsIn(w.pending) + (refs - rest)
      decreases rest
    {
      var r :| r in rest;
      QueueIds(lim, v);
      if r.id !in v.scheduledIds && |v.scheduledIds| >= lim.maxNodes {
        TooMany(RefsIn(w.pending), refs, refs - rest, r, lim.maxNodes);
        return v.(reasons := v.reasons + {Nodes}), true;
      }
      ghost var before := v;
      v := Schedule(lim, v, r, depth);
      GrownStep(w.pending, before.pending, v.pending, refs, r, depth);
      SplitRest(RefsIn(w.pending), refs, rest, r);
      rest := rest - {r};
    }
    stop := false;
    assert refs - rest == refs;
  }

  lemma SplitRest<T>(a: set<T>, all: set<T>, rest: set<T>, x: T)
    requires x in rest && rest <= all
    ensures a + (all - rest) + {x} == a + (all - (rest - {x}))
  {
  }

  lemma QueueIds(lim: WalkLimits, w: Walk)
    requires Queue(lim, w)
    ensures w.scheduledIds == Ids(RefsIn(w.pending)) && |w.scheduledIds| <= lim.maxNodes
    ensures Queue(lim, w.(reasons := w.reasons + {Nodes}))
  {
  }

  lemma GrownNone(pending: seq<Pending>, refs: set<Ref>, depth: nat)
    ensures Grown(pending, pending, refs, depth)
  {
  }

  lemma GrownStep(a: seq<Pending>, b: seq<Pending>, c: seq<Pending>, refs: set<Ref>, r: Ref, depth: nat)
    requires Grown(a, b, refs, depth) && r in refs
    requires c == b || c == b + [Pending(r, depth)]
    ensures Grown(a, c, refs, depth)
  {
  }

  lemma TooMany(old_: set<Ref>, refs: set<Ref>, done: set<Ref>, r: Ref, max: nat)
    requires done <= refs && r in refs && r.id !in Ids(old_ + done) && |Ids(old_ + done)| >= max
    ensures |Ids(old_) + Ids(refs)| > max
  {
    var now := Ids(old_ + done) + {r.id};
    assert |now| > max;
    assert now <= Ids(old_) + Ids(refs);
    SubsetSize(now, Ids(old_) + Ids(refs));
  }

  /** Nothing about parsing bytes as type t stands in the way of completeness. */
  predicate CleanMeaning(lim: WalkLimits, m: Meaning) {
    m.valid && !m.depthLimited && !m.unsupported && m.entries <= lim.maxNodes
  }

  predicate CanExpand(lim: WalkLimits, w: Walk, current: Pending, m: Meaning) {
    && CleanMeaning(lim, m)
    && (m.refs != {} ==> current.depth < lim.maxDepth)
    && |w.scheduledIds + Ids(m.refs)| <= lim.maxNodes
  }

  /** Parse content and schedule what it references; stop ends the walk. */
  method Expand(world: World, lim: WalkLimits, w: Walk, current: Pending, bytes: seq<byte>)
    returns (v: Walk, stop: bool)
    requires Queue(lim, w)
    ensures Queue(lim, v) && SameRecord(v, w) && w.reasons <= v.reasons
    ensures stop ==> v.reasons != {}
    ensures var m := TypeMeaning(world.rd, bytes, current.ref.target);
      && (Nodes !in v.reasons ==> Grown(w.pending, v.pending, if m.valid then m.refs else {}, current.depth + 1))
      && Extended(w.pending, v.pending, current.depth + 1)
      && (v.reasons == {} ==>
            CleanMeaning(lim, m) && m.refs <= RefsIn(v.pending) && (m.refs != {} ==> current.depth < lim.maxDepth))
      && (w.reasons == {} && CanExpand(lim, w, current, m) ==> v.reasons == {})
      && Names(lim, w, v, m, current.depth + 1)
      && NodesMet(lim, w, v, m)
  {
    hide TypeMeaning, RefsIn, RefsOf, Overflow, Queue, Grown, Names, Ids, NodesMet;
    QueueIds(lim, w);
    ghost var m := TypeMeaning(world.rd, bytes, current.ref.target);
    var parsed := ParseProtobuf(world.rd, bytes, current.ref.target, w.scheduledIds, lim.maxNodes - |w.scheduledIds|,
                                lim.maxNodes);
    ParseFits(lim, w.scheduledIds, m);
    GrownNone(w.pending, {}, current.depth + 1);
    GrownNone(w.pending, m.refs, current.depth + 1);
    if !parsed.valid {
      v, stop := w.(reasons := w.reasons + {SchemaRoute}), false;
      QueueFrame(lim, w, v);
      NamesNothing(lim, w, v, m, current.depth + 1);
      NodesNotMet(lim, w, v, m, {SchemaRoute});
      return;
    }
    assert Nodes in Reasons(parsed) ==> Pressed(lim, w, m);
    v := w.(reasons := w.reasons + Reasons(parsed));
    QueueFrame(lim, w, v);
    var children := RefsOf(parsed.candidates);
    if current.depth >= lim.maxDepth {
      if children != {} || parsed.candidateLimited {
        v := v.(reasons := v.reasons + {Depth});
        QueueFrame(lim, w, v);
      }
      NamesNothing(lim, w, v, m, current.depth + 1);
      NodesNotMet(lim, w, v, m, Reasons(parsed) + {Depth});
      return v, false;
    }
    v, stop := ScheduleChildren(lim, v, children, current.depth + 1);
    GrownExtended(w.pending, v.pending, children, current.depth + 1);
    NamesChildren(lim, w, v, stop, m, parsed, current.depth + 1);
    NodesNotMet(lim, w, v, m, Reasons(parsed) + if stop then {Nodes} else {});
  }

  lemma NodesNotMet(lim: WalkLimits, w: Walk, v: Walk, m: Meaning, more: set<LimitReason>)
    requires v.reasons <= w.reasons + more && Bytes !in more && (Nodes in more ==> Pressed(lim, w, m))
    ensures NodesMet(lim, w, v, m)
  {
  }

  /** Only nodes and never bytes run out on a message, and only if it brings too many
      ids, has too many map keys, or is malformed. */
  ghost predicate NodesMet(lim: WalkLimits, w: Walk, v: Walk, m: Meaning) {
    && (Bytes in v.reasons ==> Bytes in w.reasons)
    && (Nodes in v.reasons ==> Nodes in w.reasons || Pressed(lim, w, m))
  }

  ghost predicate Pressed(lim: WalkLimits, w: Walk, m: Meaning) {
    !m.valid || m.entries > lim.maxNodes || |w.scheduledIds + Ids(m.refs)| > lim.maxNodes
  }

  /** What a message brings into the queue, limits or not: once there is no room,
      no new id; of a steady message only its own ids, and, unless that leaves no
      room, only its own references. */
  ghost predicate Names(lim: WalkLimits, w: Walk, v: Walk, m: Meaning, depth: nat) {
    && w.scheduledIds <= v.scheduledIds
    && (|w.scheduledIds| >= lim.maxNodes ==> v.scheduledIds == w.scheduledIds)
    && (Steady(lim, m) ==>
          && v.scheduledIds <= w.scheduledIds + Ids(m.refs)
          && (|v.scheduledIds| < lim.maxNodes ==> Grown(w.pending, v.pending, m.refs, depth)))
  }

  lemma NamesNothing(lim: WalkLimits, w: Walk, v: Walk, m: Meaning, depth: nat)
    requires SameQueue(v, w)
    ensures Names(lim, w, v, m, depth)
  {
    GrownNone(w.pending, m.refs, depth);
    hide Grown, Ids;
  }

  lemma NamesChildren(lim: WalkLimits, w: Walk, v: Walk, stop: bool, m: Meaning, parsed: ParsedProtobuf, depth: nat)
    requires Queue(lim, w) && Queue(lim, v) && Grown(w.pending, v.pending, RefsOf(parsed.candidates), depth)
    requires NoneEmpty(parsed.candidates)
    requires |parsed.candidates.Keys - w.scheduledIds| <= lim.maxNodes - |w.scheduledIds|
    requires if stop then |w.scheduledIds + Ids(RefsOf(parsed.candidates))| > lim.maxNodes
             else RefsIn(v.pending) == RefsIn(w.pending) + RefsOf(parsed.candidates)
    requires parsed.valid && (!parsed.candidateLimited ==> RefsOf(parsed.candidates) == m.refs)
    requires m.entries <= lim.maxNodes ==>
      && parsed.candidates.Keys - w.scheduledIds <= Ids(m.refs)
      && (parsed.candidateLimited ==> |parsed.candidates.Keys - w.scheduledIds| == lim.maxNodes - |w.scheduledIds|)
    ensures Names(lim, w, v, m, depth)
  {
    RefsOfIds(parsed.candidates);
    QueueIds(lim, w);
    QueueIds(lim, v);
    UnionSize(w.scheduledIds, parsed.candidates.Keys);
    IdsOfMore(RefsIn(w.pending), RefsOf(parsed.candidates));
    hide Queue, RefsIn, RefsOf, Ids, Grown, NoneEmpty;
    NoneNew(w.scheduledIds, parsed.candidates.Keys);
  }

  lemma NoneNew<T>(a: set<T>, b: set<T>)
    ensures |b - a| == 0 ==> a + b == a
    ensures a <= a + b
  {
    if |b - a| == 0 {
      assert b - a == {};
      assert forall x :: x in b ==> x !in b - a;
    }
  }

  lemma GrownExtended(pending: seq<Pending>, more: seq<Pending>, refs: set<Ref>, depth: nat)
    requires Grown(pending, more, refs, depth)
    ensures Extended(pending, more, depth)
  {
  }

  lemma QueueFrame(lim: WalkLimits, w: Walk, v: Walk)
    requires Queue(lim, w) && SameQueue(v, w)
    ensures Queue(lim, v)
  {
  }

  /** The parser's node limit is the walk's. */
  lemma ParseFits(lim: WalkLimits, scheduled: set<Id>, m: Meaning)
    requires |scheduled| <= lim.maxNodes
    ensures Overflow(Limits(scheduled, lim.maxNodes - |scheduled|, lim.maxNodes), m.refs, m.entries)
       <==> |scheduled + Ids(m.refs)| > lim.maxNodes || m.entries > lim.maxNodes
  {
    UnionSize(scheduled, Ids(m.refs));
  }

  // ----- What every step of the walk keeps -----

  /** While no node limit struck, everything scheduled is reached, at its depth. */
  ghost predicate Sound(world: World, roots: set<Ref>, w: Walk) {
    Nodes !in w.reasons ==>
      forall i :: 0 <= i < |w.pending| ==> w.pending[i].ref in Within(world, roots, w.pending[i].depth)
  }

  /** While no limit struck, each of the first n references parsed cleanly and
      its children wait at most one layer below it. */
  ghost predicate Finished(world: World, lim: WalkLimits, w: Walk, n: nat)
    requires n <= |w.pending|
  {
    w.reasons == {} ==> forall i :: 0 <= i < n ==> FinishedAt(world, lim, w.pending, i)
  }

  ghost predicate FinishedAt(world: World, lim: WalkLimits, pending: seq<Pending>, i: nat)
    requires i < |pending|
  {
    && ParsesCleanly(world, lim, pending[i].ref)
    && (forall c :: c in Children(world, pending[i].ref) ==> Listed(pending, c, pending[i].depth + 1))
    && (Children(world, pending[i].ref) != {} ==> pending[i].depth < lim.maxDepth)
  }

  /** The bytes examined so far. */
  ghost predicate Spent(world: World, streaming: bool, seedBytes: nat, w: Walk, n: nat)
    requires n <= |w.pending|
  {
    && (!streaming ==> w.examinedBytes == seedBytes + Sum(SizeOf(world), Ids(RefsIn(w.pending[..n]))))
    && (streaming && w.issues == map[] ==> w.examinedBytes == seedBytes + Sum(RefSizeOf(world), RefsIn(w.pending[..n])))
  }

  /** Everything that holds after the first n references are finished. */
  ghost predicate Inv(world: World, lim: WalkLimits, streaming: bool, seedBytes: nat, roots: set<Ref>, w: Walk, n: nat)
  {
    && n <= |w.pending|
    && Queue(lim, w)
    && (n < |w.pending| ==> Layered(w.pending, w.pending[n].depth))
    && w.resolved.Keys == Ids(RefsIn(w.pending[..n]))
    && Account(world, streaming, seedBytes, w.resolved.Keys, w)
    && w.visitedNodes == |w.resolved.Keys| <= lim.maxNodes && w.examinedBytes <= lim.maxBytes
    && Sound(world, roots, w)
    && Finished(world, lim, w, n)
    && Spent(world, streaming, seedBytes, w, n)
  }

  lemma LayeredExtended(pending: seq<Pending>, more: seq<Pending>, n: nat)
    requires n < |pending| && Layered(pending, pending[n].depth) && Extended(pending, more, pending[n].depth + 1)
    ensures Layered(more, pending[n].depth)
    ensures n + 1 < |more| ==> Layered(more, more[n + 1].depth)
  {
  }

  lemma SoundGrown(world: World, roots: set<Ref>, w: Walk, v: Walk, n: nat)
    requires n < |w.pending| && Sound(world, roots, w) && w.reasons <= v.reasons
    requires Nodes !in v.reasons ==>
               Grown(w.pending, v.pending, Children(world, w.pending[n].ref), w.pending[n].depth + 1)
    ensures Sound(world, roots, v)
  {
    hide Children;
    if Nodes !in v.reasons {
      var p, d := w.pending[n].ref, w.pending[n].depth;
      forall i | 0 <= i < |v.pending| ensures v.pending[i].ref in Within(world, roots, v.pending[i].depth) {
        if i >= |w.pending| {
          var c := v.pending[i].ref;
          assert p in Within(world, roots, d) && c in Children(world, p);
          assert c in Within(world, roots, d + 1);
        }
      }
    }
  }

  lemma FinishedGrown(world: World, lim: WalkLimits, w: Walk, v: Walk, n: nat)
    requires n < |w.pending| && Finished(world, lim, w, n) && w.reasons <= v.reasons
    requires w.pending <= v.pending && Layered(v.pending, w.pending[n].depth)
    requires var p := w.pending[n];
      v.reasons == {} ==>
        && ParsesCleanly(world, lim, p.ref)
        && Children(world, p.ref) <= RefsIn(v.pending)
        && (Children(world, p.ref) != {} ==> p.depth < lim.maxDepth)
    ensures Finished(world, lim, v, n + 1)
  {
    hide Children, ParsesCleanly;
    if v.reasons == {} {
      forall i | 0 <= i < n + 1 ensures FinishedAt(world, lim, v.pending, i) {
        var more := v.pending[|w.pending|..];
        assert v.pending == w.pending + more;
        forall c | c in Children(world, v.pending[i].ref) ensures Listed(v.pending, c, v.pending[i].depth + 1) {
          if i < n {
            assert FinishedAt(world, lim, w.pending, i);
            ListedAppend(w.pending, more, c, w.pending[i].depth + 1);
          } else {
            var q :| q in v.pending && q.ref == c;
            var j :| 0 <= j < |v.pending| && v.pending[j] == q;
          }
        }
        assert i < n ==> FinishedAt(world, lim, w.pending, i);
      }
    }
  }

  lemma TakeNext(pending: seq<Pending>, more: seq<Pending>, n: nat)
    requires n < |pending| && pending <= more
    ensures RefsIn(more[..n + 1]) == RefsIn(pending[..n]) + {pending[n].ref}
    ensures Ids(RefsIn(more[..n + 1])) == Ids(RefsIn(pending[..n])) + {pending[n].ref.id}
    ensures Distinct(pending) ==> pending[n].ref !in RefsIn(pending[..n])
  {
    assert more[..n + 1] == pending[..n] + [pending[n]];
    RefsInAppend(pending[..n], pending[n]);
    IdsInsert(RefsIn(pending[..n]), pending[n].ref);
    forall q | q in pending[..n] ensures Distinct(pending) ==> q.ref != pending[n].ref {
      var i :| 0 <= i < n && pending[i] == q;
    }
  }

  lemma SpentNext(world: World, streaming: bool, seedBytes: nat, w: Walk, v: Walk, n: nat)
    requires n < |w.pending| && Distinct(w.pending) && w.pending <= v.pending
    requires Spent(world, streaming, seedBytes, w, n)
    requires w.resolved.Keys == Ids(RefsIn(w.pending[..n]))
    requires v.examinedBytes == w.examinedBytes + Cost(world, streaming, w.resolved.Keys, w.pending[n].ref.id)
    requires w.issues.Keys <= v.issues.Keys && (v.issues == map[] ==> Content(world, w.pending[n].ref.id).Good?)
    ensures Spent(world, streaming, seedBytes, v, n + 1)
  {
    hide Content, RefsIn, Ids, SizeOf;
    var r := w.pending[n].ref;
    TakeNext(w.pending, v.pending, n);
    if streaming {
      SumInsert(RefSizeOf(world), RefsIn(w.pending[..n]), r);
      SameSize(world, r);
    } else if r.id in w.resolved {
      assert w.resolved.Keys + {r.id} == w.resolved.Keys;
    } else {
      SumInsert(SizeOf(world), w.resolved.Keys, r.id);
    }
  }

  lemma SameSize(world: World, r: Ref)
    ensures RefSizeOf(world)(r) == SizeOf(world)(r.id)
  {
  }

  // ----- Depths are shortest distances -----

  ghost predicate RootsListed(roots: set<Ref>, pending: seq<Pending>) {
    forall r :: r in roots ==> Listed(pending, r, 0)
  }

  /** Everything within k references is listed at k, up to the depth reached. */
  lemma {:induction false} WithinListed(world: World, lim: WalkLimits, roots: set<Ref>, w: Walk, n: nat, k: nat)
    requires n < |w.pending| && Layered(w.pending, w.pending[n].depth)
    requires w.reasons == {} && Finished(world, lim, w, n) && RootsListed(roots, w.pending)
    requires k <= w.pending[n].depth
    ensures forall q :: q in Within(world, roots, k) ==> Listed(w.pending, q, k)
  {
    hide Children, ParsesCleanly;
    if k > 0 {
      WithinListed(world, lim, roots, w, n, k - 1);
      var near := Within(world, roots, k - 1);
      forall q | q in Within(world, roots, k) ensures Listed(w.pending, q, k) {
        if q in near {
          assert Listed(w.pending, q, k - 1);
        } else {
          var p :| p in near && q in Children(world, p);
          var i :| 0 <= i < |w.pending| && w.pending[i].ref == p && w.pending[i].depth <= k - 1;
          assert i < n && FinishedAt(world, lim, w.pending, i);
          assert Listed(w.pending, q, w.pending[i].depth + 1);
        }
      }
    }
  }

  /** So the reference about to be expanded lies exactly at its depth. */
  lemma DepthIsDistance(world: World, lim: WalkLimits, roots: set<Ref>, w: Walk, n: nat, k: nat)
    requires n < |w.pending| && Layered(w.pending, w.pending[n].depth) && Distinct(w.pending)
    requires w.reasons == {} && Finished(world, lim, w, n) && RootsListed(roots, w.pending)
    requires w.pending[n].ref in Within(world, roots, k)
    ensures w.pending[n].depth <= k
  {
    hide Children, ParsesCleanly, Within;
    if k < w.pending[n].depth {
      WithinListed(world, lim, roots, w, n, k);
      ListedDepth(w.pending, n, k);
    }
  }

  lemma ListedDepth(pending: seq<Pending>, i: nat, d: nat)
    requires i < |pending| && Distinct(pending) && Listed(pending, pending[i].ref, d)
    ensures pending[i].depth <= d
  {
  }

  // ----- When everything fits, nothing stops the walk -----

  /** The walk is on its way to the closure, with nothing against it. */
  ghost predicate OnTrack(streaming: bool, roots: set<Ref>, reached: set<Ref>, w: Walk) {
    w.reasons == {} && (streaming ==> w.issues == map[]) && RefsIn(w.pending) <= reached
    && RootsListed(roots, w.pending)
  }

  lemma CanFetchNext(world: World, lim: WalkLimits, streaming: bool, seedBytes: nat, roots: set<Ref>, reached: set<Ref>,
                     w: Walk, n: nat)
    requires Passable(world, lim, streaming, seedBytes, roots, reached)
    requires Inv(world, lim, streaming, seedBytes, roots, w, n) && n < |w.pending|
    requires OnTrack(streaming, roots, reached, w)
    ensures CanFetch(world, lim, streaming, w, w.pending[n].ref.id)
  {
    hide Content, SizeOf, ParsesCleanly, Within, Account, Finished, Sound, Layered, Queue, Children, RefsIn, Ids;
    hide RootsListed, Cost;
    var r, done := w.pending[n].ref, RefsIn(w.pending[..n]);
    TakeNext(w.pending, w.pending, n);
    PrefixRefs(w.pending, n + 1);
    DistinctNext(lim, w, n);
    assert done + {r} <= reached && r in done + {r};
    IdsMonotone(done + {r}, reached);
    RoomForOne(Ids(done), Ids(reached), r, lim.maxNodes);
    RoomForBytes(world, streaming, done, reached, r);
  }

  lemma RoomForBytes(world: World, streaming: bool, done: set<Ref>, reached: set<Ref>, r: Ref)
    requires done + {r} <= reached && r !in done
    ensures ReadCost(world, streaming, done) + Cost(world, streaming, Ids(done), r.id) <=
              ReadCost(world, streaming, reached)
  {
    hide Content, SizeOf, Ids;
    IdsInsert(done, r);
    IdsMonotone(done + {r}, reached);
    if streaming {
      StreamingRoom(world, done, reached, r);
    } else {
      RetainingRoom(world, Ids(done), Ids(reached), r.id);
    }
  }

  lemma DistinctNext(lim: WalkLimits, w: Walk, n: nat)
    requires Queue(lim, w) && n < |w.pending|
    ensures w.pending[n].ref !in RefsIn(w.pending[..n])
  {
    TakeNext(w.pending, w.pending, n);
  }

  lemma RoomForOne(ids: set<Id>, all: set<Id>, r: Ref, max: nat)
    requires ids + {r.id} <= all && |all| <= max
    ensures r.id in ids || |ids| < max
  {
    SubsetSize(ids + {r.id}, all);
  }

  lemma StreamingRoom(world: World, done: set<Ref>, reached: set<Ref>, r: Ref)
    requires done + {r} <= reached && r !in done
    ensures Sum(RefSizeOf(world), done) + SizeOf(world)(r.id) <= Sum(RefSizeOf(world), reached)
  {
    SumInsert(RefSizeOf(world), done, r);
    SumSubset(RefSizeOf(world), done + {r}, reached);
    SameSize(world, r);
  }

  lemma RetainingRoom(world: World, ids: set<Id>, all: set<Id>, id: Id)
    requires ids + {id} <= all
    ensures Sum(SizeOf(world), ids) + (if id in ids then 0 else SizeOf(world)(id)) <= Sum(SizeOf(world), all)
  {
    if id in ids {
      SumSubset(SizeOf(world), ids, all);
    } else {
      SumInsert(SizeOf(world), ids, id);
      SumSubset(SizeOf(world), ids + {id}, all);
    }
  }

  lemma PrefixRefs(pending: seq<Pending>, n: nat)
    requires n <= |pending|
    ensures RefsIn(pending[..n]) <= RefsIn(pending)
  {
  }

  lemma IdsMonotone(a: set<Ref>, b: set<Ref>)
    requires a <= b
    ensures Ids(a) <= Ids(b)
  {
  }

  lemma CanExpandNext(world: World, lim: WalkLimits, streaming: bool, seedBytes: nat, roots: set<Ref>,
                      reached: set<Ref>, w: Walk, n: nat)
    requires IsClosure(world, roots, reached) && Passable(world, lim, streaming, seedBytes, roots, reached)
    requires n < |w.pending| && Layered(w.pending, w.pending[n].depth) && Queue(lim, w)
    requires Finished(world, lim, w, n) && OnTrack(streaming, roots, reached, w)
    ensures CanExpand(lim, w, w.pending[n], MeaningOf(world, w.pending[n].ref))
    ensures Children(world, w.pending[n].ref) <= reached
  {
    hide Content, SizeOf, Within, MeaningOf, Finished;
    var r := w.pending[n].ref;
    assert r in RefsIn(w.pending);
    var m := MeaningOf(world, r);
    assert ParsesCleanly(world, lim, r) && Children(world, r) == m.refs;
    if m.refs != {} {
      DepthIsDistance(world, lim, roots, w, n, lim.maxDepth - 1);
    }
    IdsMonotone(RefsIn(w.pending), reached);
    IdsMonotone(m.refs, reached);
    SubsetSize(w.scheduledIds + Ids(m.refs), Ids(reached));
  }

  // ----- The walk -----

  datatype WalkResult = WalkResult(
    roots: set<Id>,
    blobs: map<Id, Blob>,
    sunk: seq<Id>,
    issues: map<Id, Issue>,
    unreadableSeeds: seq<SeedIssue>,
    seedBytes: nat,
    totalBytes: nat,
    examinedBytes: nat,
    visitedNodes: nat,
    complete: bool,
    limitReasons: set<LimitReason>)

  /** What still holds when a limit ends the walk between two references. */
  ghost predicate Stopped(world: World, lim: WalkLimits, streaming: bool, seedBytes: nat, roots: set<Ref>, w: Walk) {
    && Queue(lim, w)
    && w.resolved.Keys <= Ids(RefsIn(w.pending))
    && Account(world, streaming, seedBytes, w.resolved.Keys, w)
    && w.visitedNodes <= lim.maxNodes && w.examinedBytes <= lim.maxBytes
    && Sound(world, roots, w)
  }

  /** v is w after fetching id. */
  ghost predicate Fetched(world: World, lim: WalkLimits, streaming: bool, seedBytes: nat, w: Walk, v: Walk, id: Id) {
    && SameQueue(v, w) && v.reasons == w.reasons
    && v.examinedBytes <= lim.maxBytes && v.visitedNodes == |v.resolved.Keys| <= lim.maxNodes
    && Account(world, streaming, seedBytes, w.resolved.Keys + {id}, v)
    && v.examinedBytes == w.examinedBytes + Cost(world, streaming, w.resolved.Keys, id)
  }

  /** v is u after expanding, or passing over, the reference p at the head. */
  ghost predicate ExpandedFrom(world: World, lim: WalkLimits, u: Walk, v: Walk, p: Pending) {
    && Queue(lim, v) && SameRecord(v, u) && u.reasons <= v.reasons
    && Extended(u.pending, v.pending, p.depth + 1)
    && (Nodes !in v.reasons ==> Grown(u.pending, v.pending, Children(world, p.ref), p.depth + 1))
    && (v.reasons == {} ==>
          && ParsesCleanly(world, lim, p.ref)
          && Children(world, p.ref) <= RefsIn(v.pending)
          && (Children(world, p.ref) != {} ==> p.depth < lim.maxDepth))
    && Names(lim, u, v, MeaningOf(world, p.ref), p.depth + 1)
  }

  lemma StepKeeps(world: World, lim: WalkLimits, streaming: bool, seedBytes: nat, roots: set<Ref>, w: Walk, u: Walk,
                  v: Walk, n: nat)
    requires Inv(world, lim, streaming, seedBytes, roots, w, n) && n < |w.pending|
    requires Fetched(world, lim, streaming, seedBytes, w, u, w.pending[n].ref.id)
    requires ExpandedFrom(world, lim, u, v, w.pending[n])
    ensures Inv(world, lim, streaming, seedBytes, roots, v, n + 1)
  {
    hide Content, SizeOf, Within, MeaningOf, RefsIn, Ids, Children, Cost, Queue, Sound, Finished, Spent, ParsesCleanly;
    hide Layered, Extended, Grown, Account;
    var p := w.pending[n];
    AccountIds(world, streaming, seedBytes, w, u, p.ref.id);
    AccountFrame(world, streaming, seedBytes, u, v);
    IssuesGrow(world, streaming, seedBytes, w, v, p.ref.id);
    ExtendedPrefix(w.pending, v.pending, p.depth + 1);
    LayeredExtended(w.pending, v.pending, n);
    TakeNext(w.pending, v.pending, n);
    DistinctOf(lim, w);
    SoundGrown(world, roots, w, v, n);
    FinishedGrown(world, lim, w, v, n);
    SpentNext(world, streaming, seedBytes, w, v, n);
  }

  lemma AccountIds(world: World, streaming: bool, seedBytes: nat, w: Walk, u: Walk, id: Id)
    requires Account(world, streaming, seedBytes, w.resolved.Keys + {id}, u)
    ensures u.resolved.Keys == w.resolved.Keys + {id}
  {
  }

  lemma ExtendedPrefix(pending: seq<Pending>, more: seq<Pending>, depth: nat)
    requires Extended(pending, more, depth)
    ensures pending <= more
  {
  }

  lemma DistinctOf(lim: WalkLimits, w: Walk)
    requires Queue(lim, w)
    ensures Distinct(w.pending)
  {
  }

  lemma IssuesGrow(world: World, streaming: bool, seedBytes: nat, w: Walk, v: Walk, id: Id)
    requires Account(world, streaming, seedBytes, w.resolved.Keys, w)
    requires Account(world, streaming, seedBytes, w.resolved.Keys + {id}, v)
    ensures w.issues.Keys <= v.issues.Keys && (v.issues == map[] ==> Content(world, id).Good?)
  {
    hide Content, SizeOf;
    assert id !in Goods(world, w.resolved.Keys + {id}) ==> id in v.issues;
  }

  lemma StepStops(world: World, lim: WalkLimits, streaming: bool, seedBytes: nat, roots: set<Ref>, w: Walk, v: Walk,
                  n: nat)
    requires Inv(world, lim, streaming, seedBytes, roots, w, n)
    requires SameQueue(v, w) && v.resolved == w.resolved && w.reasons <= v.reasons
    requires Account(world, streaming, seedBytes, w.resolved.Keys, v)
    requires v.visitedNodes <= lim.maxNodes && v.examinedBytes <= lim.maxBytes
    ensures Stopped(world, lim, streaming, seedBytes, roots, v)
  {
    hide Content, SizeOf, Within, RefsIn, Ids, Account, Layered, Finished, Spent;
    PrefixRefs(w.pending, n);
    IdsMonotone(RefsIn(w.pending[..n]), RefsIn(w.pending));
  }

  lemma InvStopped(world: World, lim: WalkLimits, streaming: bool, seedBytes: nat, roots: set<Ref>, w: Walk, n: nat)
    requires Inv(world, lim, streaming, seedBytes, roots, w, n)
    ensures Stopped(world, lim, streaming, seedBytes, roots, w)
  {
    hide Content, SizeOf, Within, RefsIn, Ids, Account, Layered, Finished, Spent, Queue;
    StepStops(world, lim, streaming, seedBytes, roots, w, w, n);
  }

  /** Expansion, with its result in terms of the graph. */
  method Follow(world: World, lim: WalkLimits, u: Walk, p: Pending, bytes: Option<seq<byte>>)
    returns (v: Walk, stop: bool)
    requires Queue(lim, u) && bytes == ContentBytes(world, p.ref.id)
    ensures ExpandedFrom(world, lim, u, v, p)
    ensures stop ==> v.reasons != {}
    ensures u.reasons == {} && CanExpand(lim, u, p, MeaningOf(world, p.ref)) ==> v.reasons == {}
    ensures NodesMet(lim, u, v, MeaningOf(world, p.ref))
  {
    hide Content, TypeMeaning, RefsIn, Queue, Grown, Extended, Names;
    FollowMeaning(world, p.ref);
    if bytes == None || p.ref.target == Opaque {
      GrownNone(u.pending, {}, p.depth + 1);
      GrownExtended(u.pending, u.pending, {}, p.depth + 1);
      NamesNothing(lim, u, u, MeaningOf(world, p.ref), p.depth + 1);
      return u, false;
    }
    v, stop := Expand(world, lim, u, p, bytes.value);
  }

  lemma FollowMeaning(world: World, r: Ref)
    ensures MeaningOf(world, r) == match ContentBytes(world, r.id)
                                   case None => NOTHING
                                   case Some(bytes) => TypeMeaning(world.rd, bytes, r.target)
    ensures r.target == Opaque ==> MeaningOf(world, r) == NOTHING
  {
    hide Content, MessageMeaning;
  }

  /** Every reference reached is to steady content. */
  ghost predicate Tame(world: World, lim: WalkLimits, roots: set<Ref>) {
    forall p :: Reachable(world, roots, p) ==> Steady(lim, MeaningOf(world, p))
  }

  /** Every id in the queue is reached, and while there is room for another id
      every reference in it is. */
  ghost predicate Named(world: World, lim: WalkLimits, roots: set<Ref>, w: Walk) {
    && (forall id :: id in w.scheduledIds ==> IdReached(world, roots, id))
    && (|w.scheduledIds| < lim.maxNodes ==> forall q :: q in w.pending ==> Reachable(world, roots, q.ref))
  }

  ghost predicate IdReached(world: World, roots: set<Ref>, id: Id) {
    exists p :: Reachable(world, roots, p) && p.id == id
  }

  lemma NamedFrame(world: World, lim: WalkLimits, roots: set<Ref>, w: Walk, v: Walk)
    requires SameQueue(v, w)
    ensures Named(world, lim, roots, w) <==> Named(world, lim, roots, v)
  {
    hide IdReached, Reachable;
  }

  lemma StepNames(world: World, lim: WalkLimits, roots: set<Ref>, w: Walk, v: Walk, n: nat)
    requires n < |w.pending| && ExpandedFrom(world, lim, w, v, w.pending[n])
    ensures Tame(world, lim, roots) && Named(world, lim, roots, w) ==> Named(world, lim, roots, v)
    ensures w.pending <= v.pending && w.reasons <= v.reasons
  {
    hide MeaningOf, Reachable, Queue, Children, ParsesCleanly;
    var p, m := w.pending[n], MeaningOf(world, w.pending[n].ref);
    if Tame(world, lim, roots) && Named(world, lim, roots, w) && |w.scheduledIds| < lim.maxNodes {
      assert p in w.pending && Steady(lim, m);
      forall c | c in m.refs ensures Reachable(world, roots, c) {
        ReachableChild(world, roots, p.ref, c);
      }
      forall q | q in v.pending && |v.scheduledIds| < lim.maxNodes ensures Reachable(world, roots, q.ref) {
        var i :| 0 <= i < |v.pending| && v.pending[i] == q;
        assert i < |w.pending| ==> w.pending[i] == q && q in w.pending;
      }
    }
  }

  lemma ReachableChild(world: World, roots: set<Ref>, p: Ref, c: Ref)
    requires Reachable(world, roots, p) && c in MeaningOf(world, p).refs && MeaningOf(world, p).valid
    ensures Reachable(world, roots, c)
  {
    hide MeaningOf;
    var n: nat :| p in Within(world, roots, n);
    assert c in Children(world, p);
    assert c in Within(world, roots, n + 1);
  }

  /** Bytes ran out only on an id whose row is larger than what is left, and nodes
      only if more ids are reached than allowed, or something reached has more map
      keys or is malformed; but for the reasons given from the start. */
  ghost predicate Caused(world: World, lim: WalkLimits, roots: set<Ref>, given: set<LimitReason>, w: Walk) {
    && (Bytes in w.reasons && Bytes !in given ==>
          exists id :: id in w.scheduledIds && w.examinedBytes + SizeOf(world)(id) > lim.maxBytes)
    && (Nodes in w.reasons && Nodes !in given ==> NodesShort(world, lim, roots))
  }

  ghost predicate NodesShort(world: World, lim: WalkLimits, roots: set<Ref>) {
    || (exists ids: set<Id> :: |ids| > lim.maxNodes && forall id :: id in ids ==> IdReached(world, roots, id))
    || exists p :: Reachable(world, roots, p) && Overburdened(lim, MeaningOf(world, p))
  }

  predicate Overburdened(lim: WalkLimits, m: Meaning) {
    !m.valid || m.entries > lim.maxNodes
  }

  lemma FetchCaused(world: World, lim: WalkLimits, streaming: bool, seedBytes: nat, roots: set<Ref>,
                    given: set<LimitReason>, w: Walk, v: Walk, n: nat)
    requires Inv(world, lim, streaming, seedBytes, roots, w, n) && n < |w.pending|
    requires SameQueue(v, w) && v.examinedBytes == w.examinedBytes
    requires FetchLimit(world, lim, w, v, w.pending[n].ref.id)
    ensures Caused(world, lim, roots, given, w) ==> Caused(world, lim, roots, given, v)
  {
    hide SizeOf, Account, Sound, Finished, Spent, Layered, RefsIn, Ids, NodesShort;
    TakeNext(w.pending, w.pending, n);
    PrefixRefs(w.pending, n + 1);
    IdsMonotone(RefsIn(w.pending[..n + 1]), RefsIn(w.pending));
    SubsetSize(w.resolved.Keys + {w.pending[n].ref.id}, w.scheduledIds);
  }

  lemma NamesGrow(lim: WalkLimits, w: Walk, v: Walk, m: Meaning, depth: nat)
    requires Names(lim, w, v, m, depth)
    ensures w.scheduledIds <= v.scheduledIds
  {
  }

  lemma FetchReasons(world: World, lim: WalkLimits, w: Walk, v: Walk, id: Id)
    requires FetchLimit(world, lim, w, v, id)
    ensures w.reasons <= v.reasons && v.reasons != {}
  {
    assert Nodes in v.reasons || Bytes in v.reasons;
  }

  lemma FollowCaused(world: World, lim: WalkLimits, streaming: bool, seedBytes: nat, roots: set<Ref>,
                     given: set<LimitReason>, w: Walk, u: Walk, v: Walk, n: nat)
    requires Inv(world, lim, streaming, seedBytes, roots, w, n) && n < |w.pending|
    requires Fetched(world, lim, streaming, seedBytes, w, u, w.pending[n].ref.id)
    requires ExpandedFrom(world, lim, u, v, w.pending[n]) && NodesMet(lim, u, v, MeaningOf(world, w.pending[n].ref))
    ensures Caused(world, lim, roots, given, w) ==> Caused(world, lim, roots, given, v)
  {
    hide SizeOf, MeaningOf, Within, Sound, Account, Finished, Spent, Layered, Caused, Names, NodesMet, Children, Grown;
    hide ParsesCleanly, Queue, RefsIn, Ids, Cost, Extended;
    NamesGrow(lim, u, v, MeaningOf(world, w.pending[n].ref), w.pending[n].depth + 1);
    ExpandCaused(world, lim, roots, given, w, u, v, n);
  }

  lemma ExpandCaused(world: World, lim: WalkLimits, roots: set<Ref>, given: set<LimitReason>, w: Walk, u: Walk, v: Walk,
                     n: nat)
    requires n < |w.pending| && Queue(lim, w) && Sound(world, roots, w) && SameQueue(u, w) && u.reasons == w.reasons
    requires w.examinedBytes <= u.examinedBytes == v.examinedBytes && w.scheduledIds <= v.scheduledIds
    requires NodesMet(lim, u, v, MeaningOf(world, w.pending[n].ref))
    ensures Caused(world, lim, roots, given, w) ==> Caused(world, lim, roots, given, v)
  {
    hide SizeOf, MeaningOf, Within, Reachable;
    var p := w.pending[n];
    var m := MeaningOf(world, p.ref);
    if Nodes in v.reasons && Nodes !in w.reasons {
      ScheduledReached(world, roots, w);
      if Overburdened(lim, m) {
        assert Reachable(world, roots, p.ref);
      } else {
        forall id | id in w.scheduledIds + Ids(m.refs) ensures IdReached(world, roots, id) {
          if id !in w.scheduledIds {
            var c :| c in m.refs && c.id == id;
            ReachableChild(world, roots, p.ref, c);
          }
        }
      }
    }
  }

  lemma ScheduledReached(world: World, roots: set<Ref>, w: Walk)
    requires w.scheduledIds == Ids(RefsIn(w.pending)) && Sound(world, roots, w) && Nodes !in w.reasons
    ensures forall p :: p in w.pending ==> Reachable(world, roots, p.ref)
    ensures forall id :: id in w.scheduledIds ==> IdReached(world, roots, id)
  {
    hide Within;
    forall p | p in w.pending ensures Reachable(world, roots, p.ref) {
      var i :| 0 <= i < |w.pending| && w.pending[i] == p;
      assert p.ref in Within(world, roots, p.depth);
    }
    forall id | id in w.scheduledIds ensures IdReached(world, roots, id) {
      var r :| r in RefsIn(w.pending) && r.id == id;
    }
  }

  /** One step: fetch the next reference's content and expand it. */
  method Step(world: World, lookup: (Text, nat) -> LookupResult, lim: WalkLimits, streaming: bool, ghost seedBytes: nat,
              ghost roots: set<Ref>, ghost given: set<LimitReason>, ghost goal: bool, ghost reached: set<Ref>, w: Walk,
              n: nat)
    returns (v: Walk, stop: bool)
    requires Serves(lookup, world.store)
    requires Inv(world, lim, streaming, seedBytes, roots, w, n) && n < |w.pending|
    requires goal ==>
               IsClosure(world, roots, reached) && Passable(world, lim, streaming, seedBytes, roots, reached)
               && OnTrack(streaming, roots, reached, w)
    ensures stop ==> v.reasons != {} && Stopped(world, lim, streaming, seedBytes, roots, v)
    ensures !stop ==> Inv(world, lim, streaming, seedBytes, roots, v, n + 1)
    ensures w.pending <= v.pending && w.reasons <= v.reasons
    ensures goal ==> !stop && OnTrack(streaming, roots, reached, v)
    ensures Tame(world, lim, roots) && Named(world, lim, roots, w) ==> Named(world, lim, roots, v)
    ensures Caused(world, lim, roots, given, w) ==> Caused(world, lim, roots, given, v)
  {
    hide Names, Named, Tame, Caused, FetchLimit, NodesMet, ExpandedFrom;
    hide Content, SizeOf, Within, MeaningOf, Serves, Passable, IsClosure, RefsIn, OnTrack, Cost, Ids;
    hide Account, Finished, Sound, Spent, Queue, Layered, CanFetch, CanExpand, Grown, Children, ParsesCleanly;
    if goal {
      CanFetchNext(world, lim, streaming, seedBytes, roots, reached, w, n);
      CanExpandNext(world, lim, streaming, seedBytes, roots, reached, w, n);
    }
    var p := w.pending[n];
    var u, bytes, halted := Fetch(world, lookup, lim, streaming, seedBytes, w, p.ref.id);
    NamedFrame(world, lim, roots, w, u);
    if halted {
      FetchCaused(world, lim, streaming, seedBytes, roots, given, w, u, n);
      FetchReasons(world, lim, w, u, p.ref.id);
      StepStops(world, lim, streaming, seedBytes, roots, w, u, n);
      return u, true;
    }
    QueueFrame(lim, w, u);
    v, stop := Follow(world, lim, u, p, bytes);
    StepNames(world, lim, roots, u, v, n);
    FollowCaused(world, lim, streaming, seedBytes, roots, given, w, u, v, n);
    StepKeeps(world, lim, streaming, seedBytes, roots, w, u, v, n);
    InvStopped(world, lim, streaming, seedBytes, roots, v, n + 1);
    if goal {
      StaysOnTrack(world, lim, roots, reached, w, u, v, p, streaming, seedBytes);
    }
  }

  lemma StaysOnTrack(world: World, lim: WalkLimits, roots: set<Ref>, reached: set<Ref>, w: Walk, u: Walk, v: Walk,
                     p: Pending, streaming: bool, seedBytes: nat)
    requires OnTrack(streaming, roots, reached, w) && CanFetch(world, lim, streaming, w, p.ref.id)
    requires CanExpand(lim, w, p, MeaningOf(world, p.ref)) && Children(world, p.ref) <= reached
    requires Account(world, streaming, seedBytes, w.resolved.Keys, w)
    requires Fetched(world, lim, streaming, seedBytes, w, u, p.ref.id) && ExpandedFrom(world, lim, u, v, p)
    requires u.reasons == {} && CanExpand(lim, u, p, MeaningOf(world, p.ref)) ==> v.reasons == {}
    ensures v.reasons == {} && OnTrack(streaming, roots, reached, v)
  {
    hide Content, SizeOf, MeaningOf, Cost, ParsesCleanly, Queue, Children, RefsIn, Listed, Account, CleanMeaning;
    if streaming {
      NoIssues(world, streaming, seedBytes, w, u, p.ref.id);
    }
    assert CanExpand(lim, u, p, MeaningOf(world, p.ref));
    GrownRefs(w.pending, v.pending, Children(world, p.ref), p.depth + 1);
    forall r | r in roots ensures Listed(v.pending, r, 0) {
      ListedAppend(w.pending, v.pending[|w.pending|..], r, 0);
      assert v.pending == w.pending + v.pending[|w.pending|..];
    }
  }

  lemma NoIssues(world: World, streaming: bool, seedBytes: nat, w: Walk, u: Walk, id: Id)
    requires Account(world, streaming, seedBytes, w.resolved.Keys, w) && w.issues == map[] && Content(world, id).Good?
    requires Account(world, streaming, seedBytes, w.resolved.Keys + {id}, u)
    ensures u.issues == map[]
  {
    hide Content, SizeOf;
    assert u.issues.Keys <= w.issues.Keys;
  }

  lemma GrownRefs(pending: seq<Pending>, more: seq<Pending>, refs: set<Ref>, depth: nat)
    requires Grown(pending, more, refs, depth)
    ensures RefsIn(more) <= RefsIn(pending) + refs
  {
    forall q | q in more ensures q.ref in RefsIn(pending) + refs {
      var i :| 0 <= i < |more| && more[i] == q;
      assert i < |pending| ==> pending[i] == q && q in pending;
    }
  }

  /** All the states read by a walk, and whether it can be complete: there is a
      closure, and seeds and closure fit the limits. */
  function RootRefs(world: World, states: seq<Text>): set<Ref> {
    SeedRefs(world.rd, states, |states|)
  }

  ghost predicate Completable(world: World, lim: WalkLimits, streaming: bool, states: seq<Text>) {
    && SeedsFit(world.rd, lim, states, |states|)
    && exists reached :: CompletableWith(world, lim, streaming, states, reached)
  }

  ghost predicate CompletableWith(world: World, lim: WalkLimits, streaming: bool, states: seq<Text>, reached: set<Ref>)
  {
    && IsClosure(world, RootRefs(world, states), reached)
    && Fits(world, lim, streaming, SeedTotal(states, |states|), RootRefs(world, states), reached)
  }

  /** Whether a walk can cover everything reached without meeting a limit, missing
      and damaged content included unless it streams. */
  ghost predicate Coverable(world: World, lim: WalkLimits, streaming: bool, states: seq<Text>) {
    && SeedsFit(world.rd, lim, states, |states|)
    && exists reached :: CoverableWith(world, lim, streaming, states, reached)
  }

  ghost predicate CoverableWith(world: World, lim: WalkLimits, streaming: bool, states: seq<Text>, reached: set<Ref>) {
    && IsClosure(world, RootRefs(world, states), reached)
    && Passable(world, lim, streaming, SeedTotal(states, |states|), RootRefs(world, states), reached)
  }

  method Start(world: World, lim: WalkLimits, streaming: bool, states: seq<Text>, e: Extracted, ghost goal: bool,
               ghost reached: set<Ref>)
    returns (w: Walk)
    requires ExtractedTo(world.rd, lim, states, |states|, e)
    requires goal ==> SeedsFit(world.rd, lim, states, |states|) && CoverableWith(world, lim, streaming, states, reached)
    ensures Inv(world, lim, streaming, e.seedBytes, RootRefs(world, states), w, 0) && w.reasons == e.limitReasons
    ensures RefsIn(w.pending) == RefsOf(e.rootTypes)
    ensures goal ==> OnTrack(streaming, RootRefs(world, states), reached, w)
    ensures SeedsSteady(world.rd, lim, states) && RootsNamed(world.rd, lim, states, |states|, e) ==>
              Named(world, lim, RootRefs(world, states), w)
  {
    hide Content, SizeOf, RefsOf, NoneEmpty, SeedsFit, Passable, SeedRefs, Children;
    var w0 := Walk([], {}, {}, map[], map[], [], map[], 0, e.seedBytes, e.seedBytes, e.limitReasons);
    RefsOfIds(e.rootTypes);
    EmptyQueue(lim, w0);
    var stop;
    w, stop := ScheduleChildren(lim, w0, RefsOf(e.rootTypes), 0);
    StartInv(world, lim, streaming, states, e, w0, w);
    StartNamed(world, lim, states, e, w);
    if goal {
      StartOnTrack(streaming, RootRefs(world, states), reached, w);
    }
  }

  lemma StartNamed(world: World, lim: WalkLimits, states: seq<Text>, e: Extracted, w: Walk)
    requires Queue(lim, w) && RefsIn(w.pending) == RefsOf(e.rootTypes) && NoneEmpty(e.rootTypes)
    ensures SeedsSteady(world.rd, lim, states) && RootsNamed(world.rd, lim, states, |states|, e) ==>
              Named(world, lim, RootRefs(world, states), w)
  {
    hide SeedsSteady, RefsOf, NoneEmpty, SeedRefs;
    var roots := RootRefs(world, states);
    RefsOfIds(e.rootTypes);
    QueueIds(lim, w);
    hide Queue;
    if SeedsSteady(world.rd, lim, states) && RootsNamed(world.rd, lim, states, |states|, e) {
      forall r | r in roots ensures Reachable(world, roots, r) {
        assert r in Within(world, roots, 0);
      }
      forall id | id in w.scheduledIds ensures IdReached(world, roots, id) {
        var r :| r in roots && r.id == id;
      }
    }
  }

  lemma EmptyQueue(lim: WalkLimits, w: Walk)
    requires w.pending == [] && w.scheduledIds == {} && w.scheduledReferences == {}
    ensures Queue(lim, w) && RefsIn(w.pending) == {}
    ensures forall s: set<Id> :: w.scheduledIds + s == s
    ensures forall s: set<Ref> :: RefsIn(w.pending) + s == s
  {
  }

  lemma StartInv(world: World, lim: WalkLimits, streaming: bool, states: seq<Text>, e: Extracted, w0: Walk, w: Walk)
    requires ExtractedTo(world.rd, lim, states, |states|, e)
    requires w0 == Walk([], {}, {}, map[], map[], [], map[], 0, e.seedBytes, e.seedBytes, e.limitReasons)
    requires Queue(lim, w) && SameRecord(w, w0) && w.reasons == e.limitReasons
    requires Grown([], w.pending, RefsOf(e.rootTypes), 0)
    ensures Inv(world, lim, streaming, e.seedBytes, RootRefs(world, states), w, 0)
  {
    hide Content, SizeOf, RefsOf, NoneEmpty, SeedsFit, SeedRefs, Queue;
    SumEmpty(SizeOf(world));
    SumEmpty(RefSizeOf(world));
    assert w.pending[..0] == [];
    assert Goods(world, {}) == {};
    assert Ids({}) == {};
  }

  lemma StartOnTrack(streaming: bool, roots: set<Ref>, reached: set<Ref>, w: Walk)
    requires w.reasons == {} && w.issues == map[] && RefsIn(w.pending) == roots && roots <= reached
    requires forall i :: 0 <= i < |w.pending| ==> w.pending[i].depth == 0
    ensures OnTrack(streaming, roots, reached, w)
  {
    forall r | r in roots ensures Listed(w.pending, r, 0) {
      var q :| q in w.pending && q.ref == r;
      var i :| 0 <= i < |w.pending| && w.pending[i] == q;
    }
  }

  /** What the result of any walk says, complete or not: every answer is the
      store's, the sink got each blob once, at most maxNodes ids were looked up,
      the budgets held, and every id examined is reached if everything read is
      steady; unless a node limit struck, so is every typed reference. */
  ghost predicate Faithful(world: World, lim: WalkLimits, streaming: bool, states: seq<Text>, r: WalkResult,
                           reached: set<Ref>)
  {
    && (forall id :: id in r.blobs ==> Content(world, id) == Good(r.blobs[id].bytes, r.blobs[id].valueType))
    && (forall id :: id in r.issues ==> Content(world, id) == Bad(r.issues[id]))
    && (forall id :: id in r.sunk ==> Content(world, id).Good?)
    && |r.sunk| == |Elements(r.sunk)|
    && (if streaming then r.blobs == map[] else r.sunk == [])
    && r.blobs.Keys + Elements(r.sunk) + r.issues.Keys <= Ids(reached) && |Ids(reached)| <= lim.maxNodes
    && r.visitedNodes <= lim.maxNodes && r.examinedBytes <= lim.maxBytes
    && r.totalBytes == r.seedBytes + Sum(SizeOf(world), r.blobs.Keys + Elements(r.sunk))
    && (SteadyThroughout(world, lim, states) ==>
          forall id :: id in Ids(reached) ==> IdReached(world, RootRefs(world, states), id))
    && (Nodes !in r.limitReasons ==> forall p :: p in reached ==> Reachable(world, RootRefs(world, states), p))
  }

  /** Nothing read has more map keys than the node limit, and nothing malformed
      refers to anything. */
  ghost predicate SteadyThroughout(world: World, lim: WalkLimits, states: seq<Text>) {
    SeedsSteady(world.rd, lim, states) && Tame(world, lim, RootRefs(world, states))
  }

  /** When no limit struck and every seed was read, the walk covered exactly the
      closure: its verified blobs are exactly the available ids reached, and its
      issues exactly the others. */
  ghost predicate Exact(world: World, states: seq<Text>, r: WalkResult, reached: set<Ref>) {
    && IsClosure(world, RootRefs(world, states), reached)
    && r.roots == Ids(RootRefs(world, states)) && r.visitedNodes == |Ids(reached)|
    && r.blobs.Keys + Elements(r.sunk) == Goods(world, Ids(reached))
    && r.issues.Keys == Ids(reached) - Goods(world, Ids(reached))
  }

  /** The walk gives bytes as its reason only if a state or the row of an id it came to
      is larger than what is left of them, and nodes only if more ids are reached than
      allowed, or a state or something reached has more map keys or is malformed. */
  ghost predicate LimitsMet(world: World, lim: WalkLimits, states: seq<Text>, r: WalkResult, reached: set<Ref>) {
    && (Bytes in r.limitReasons ==>
          || (exists i :: 0 <= i < |states| && r.seedBytes + StateSize(states[i]) > lim.maxBytes)
          || exists id :: id in Ids(reached) && r.examinedBytes + SizeOf(world)(id) > lim.maxBytes)
    && (Nodes in r.limitReasons ==>
          || |Ids(RootRefs(world, states))| > lim.maxNodes
          || (exists i :: 0 <= i < |states| && Overloaded(world.rd, lim, states[i]))
          || NodesShort(world, lim, RootRefs(world, states)))
  }

  lemma NothingCaused(world: World, lim: WalkLimits, roots: set<Ref>, w: Walk)
    ensures Caused(world, lim, roots, w.reasons, w)
  {
  }

  lemma StoppedIds(world: World, lim: WalkLimits, streaming: bool, seedBytes: nat, roots: set<Ref>, w: Walk)
    requires Stopped(world, lim, streaming, seedBytes, roots, w)
    ensures w.scheduledIds == Ids(RefsIn(w.pending))
  {
  }

  lemma FinishLimits(world: World, lim: WalkLimits, states: seq<Text>, e: Extracted, w: Walk, r: WalkResult)
    requires ShortageIs(world.rd, lim, states, e) && Caused(world, lim, RootRefs(world, states), e.limitReasons, w)
    requires w.scheduledIds == Ids(RefsIn(w.pending)) && r.limitReasons == w.reasons
    requires r.seedBytes == e.seedBytes && r.examinedBytes == w.examinedBytes
    ensures LimitsMet(world, lim, states, r, RefsIn(w.pending))
  {
    hide SizeOf, Ids, RefsIn, Overloaded, NodesShort, SeedRefs;
  }

  method WalkAgentKvReachability(
    world: World, lookup: (Text, nat) -> LookupResult, states: seq<Text>, lim: WalkLimits, streaming: bool)
    returns (r: WalkResult, ghost reached: set<Ref>)
    requires Serves(lookup, world.store)
    ensures r.complete <==> Completable(world, lim, streaming, states)
    ensures r.complete <==> r.issues == map[] && r.unreadableSeeds == [] && r.limitReasons == {}
    ensures Coverable(world, lim, streaming, states) ==> r.unreadableSeeds == [] && r.limitReasons == {}
    ensures !streaming && r.unreadableSeeds == [] && r.limitReasons == {} ==> Coverable(world, lim, streaming, states)
    ensures Faithful(world, lim, streaming, states, r, reached)
    ensures r.limitReasons == {} && r.unreadableSeeds == [] ==> Exact(world, states, r, reached)
    ensures LimitsMet(world, lim, states, r, reached)
  {
    hide Caused, ShortageIs, LimitsMet;
    hide Named, RootsNamed, Content, SizeOf, SeedsFit, Fits, Passable, IsClosure, Serves, Inv, Stopped, RefsIn, RefsOf;
    hide OnTrack;
    hide Faithful, Exact, Completable, Coverable, ExtractedTo, RootRefs;
    var e := ExtractRoots(world.rd, states, lim);
    ghost var roots, goal := RootRefs(world, states), Coverable(world, lim, streaming, states);
    ghost var target := Target(world, lim, streaming, states, e);
    var w := Start(world, lim, streaming, states, e, goal, target);
    ghost var first := w.pending;
    NothingCaused(world, lim, roots, w);
    var n, stopped := 0, false;
    while n < |w.pending| && !stopped
      invariant n <= |w.pending|
      invariant !stopped ==> Inv(world, lim, streaming, e.seedBytes, roots, w, n)
      invariant stopped ==> w.reasons != {} && Stopped(world, lim, streaming, e.seedBytes, roots, w)
      invariant first <= w.pending && e.limitReasons <= w.reasons
      invariant goal ==> !stopped && OnTrack(streaming, roots, target, w)
      invariant SteadyThroughout(world, lim, states) ==> Named(world, lim, roots, w)
      invariant Caused(world, lim, roots, e.limitReasons, w)
      decreases 6 * lim.maxNodes - n, !stopped
    {
      InvSize(world, lim, streaming, e.seedBytes, roots, w, n);
      w, stopped := Step(world, lookup, lim, streaming, e.seedBytes, roots, e.limitReasons, goal, target, w, n);
      if !stopped {
        n := n + 1;
        InvSize(world, lim, streaming, e.seedBytes, roots, w, n);
      }
    }
    r := WalkResult(e.rootTypes.Keys, w.blobs, w.sunk, w.issues, e.unreadable, e.seedBytes, w.totalBytes,
                    w.examinedBytes, w.visitedNodes, w.issues == map[] && e.unreadable == [] && w.reasons == {},
                    w.reasons);
    reached := RefsIn(w.pending);
    if !stopped {
      InvStopped(world, lim, streaming, e.seedBytes, roots, w, n);
    }
    FinishWalk(world, lim, streaming, states, e, target, first, w, r);
  }

  /** What the loop leaves is what the walk promises. */
  lemma FinishWalk(world: World, lim: WalkLimits, streaming: bool, states: seq<Text>, e: Extracted, target: set<Ref>,
                   first: seq<Pending>, w: Walk, r: WalkResult)
    requires ExtractedTo(world.rd, lim, states, |states|, e) && ShortageIs(world.rd, lim, states, e)
    requires Stopped(world, lim, streaming, e.seedBytes, RootRefs(world, states), w)
    requires w.reasons == {} ==> Inv(world, lim, streaming, e.seedBytes, RootRefs(world, states), w, |w.pending|)
    requires first <= w.pending && RefsIn(first) == RefsOf(e.rootTypes) && e.limitReasons <= w.reasons
    requires Coverable(world, lim, streaming, states) ==>
               SeedsFit(world.rd, lim, states, |states|) && OnTrack(streaming, RootRefs(world, states), target, w)
    requires SteadyThroughout(world, lim, states) ==> Named(world, lim, RootRefs(world, states), w)
    requires Caused(world, lim, RootRefs(world, states), e.limitReasons, w)
    requires r == WalkResult(e.rootTypes.Keys, w.blobs, w.sunk, w.issues, e.unreadable, e.seedBytes, w.totalBytes,
                             w.examinedBytes, w.visitedNodes, r.complete, w.reasons)
    requires r.complete <==> w.issues == map[] && e.unreadable == [] && w.reasons == {}
    ensures r.complete <==> Completable(world, lim, streaming, states)
    ensures Coverable(world, lim, streaming, states) ==> r.unreadableSeeds == [] && r.limitReasons == {}
    ensures !streaming && r.unreadableSeeds == [] && r.limitReasons == {} ==> Coverable(world, lim, streaming, states)
    ensures Faithful(world, lim, streaming, states, r, RefsIn(w.pending))
    ensures r.limitReasons == {} && r.unreadableSeeds == [] ==> Exact(world, states, r, RefsIn(w.pending))
    ensures LimitsMet(world, lim, states, r, RefsIn(w.pending))
  {
    hide Caused, ShortageIs, LimitsMet, SteadyThroughout, Named, SeedsFit, Inv, Stopped, RefsIn, RefsOf, OnTrack;
    hide Faithful, Exact, Completable, Coverable, ExtractedTo, RootRefs;
    StoppedIds(world, lim, streaming, e.seedBytes, RootRefs(world, states), w);
    FinishLimits(world, lim, states, e, w, r);
    FinishFaithful(world, lim, streaming, states, e, w, r);
    if w.reasons == {} && e.unreadable == [] {
      FinishExact(world, lim, streaming, states, e, first, w, r);
    }
    if Coverable(world, lim, streaming, states) {
      FinishOnTrack(world, lim, streaming, states, e, target, w);
      if Completable(world, lim, streaming, states) {
        NothingWrong(world, lim, streaming, states, r, RefsIn(w.pending));
      }
    } else {
      CompletableIsCoverable(world, lim, streaming, states);
    }
  }

  lemma CompletableIsCoverable(world: World, lim: WalkLimits, streaming: bool, states: seq<Text>)
    ensures Completable(world, lim, streaming, states) ==> Coverable(world, lim, streaming, states)
  {
    hide IsClosure, SeedsFit, SeedTotal, RootRefs, Roomy, Available;
    if Completable(world, lim, streaming, states) {
      var reached :| CompletableWith(world, lim, streaming, states, reached);
      assert CoverableWith(world, lim, streaming, states, reached);
    }
  }

  /** Where everything reached is available, a walk that covers it finds nothing wrong. */
  lemma NothingWrong(world: World, lim: WalkLimits, streaming: bool, states: seq<Text>, r: WalkResult,
                     reached: set<Ref>)
    requires Completable(world, lim, streaming, states) && Exact(world, states, r, reached)
    ensures r.issues == map[]
  {
    hide Content, IsClosure, SeedsFit, SeedTotal, RootRefs, Roomy;
    var other :| CompletableWith(world, lim, streaming, states, other);
    ClosureUnique(world, RootRefs(world, states), other, reached);
    assert Goods(world, Ids(reached)) == Ids(reached);
  }

  /** The closure to aim for, when there is one the walk can cover. */
  lemma Target(world: World, lim: WalkLimits, streaming: bool, states: seq<Text>, e: Extracted)
    returns (target: set<Ref>)
    requires ExtractedTo(world.rd, lim, states, |states|, e)
    ensures Coverable(world, lim, streaming, states) ==>
      && SeedsFit(world.rd, lim, states, |states|) && e.seedBytes == SeedTotal(states, |states|)
      && CoverableWith(world, lim, streaming, states, target)
  {
    hide CoverableWith, SeedsFit, NoneEmpty, RefsOf, SeedRefs, SeedTotal;
    target := {};
    if Coverable(world, lim, streaming, states) {
      target :| CoverableWith(world, lim, streaming, states, target);
    }
  }

  lemma InvSize(world: World, lim: WalkLimits, streaming: bool, seedBytes: nat, roots: set<Ref>, w: Walk, n: nat)
    requires Inv(world, lim, streaming, seedBytes, roots, w, n)
    ensures n <= |w.pending| <= 6 * lim.maxNodes
  {
    hide Account, Sound, Finished, Spent, Layered;
    QueueBound(lim, w);
  }

  lemma FinishFaithful(world: World, lim: WalkLimits, streaming: bool, states: seq<Text>, e: Extracted, w: Walk,
                       r: WalkResult)
    requires Stopped(world, lim, streaming, e.seedBytes, RootRefs(world, states), w)
    requires r.blobs == w.blobs && r.sunk == w.sunk && r.issues == w.issues && r.totalBytes == w.totalBytes
    requires r.seedBytes == e.seedBytes
    requires r.visitedNodes == w.visitedNodes && r.examinedBytes == w.examinedBytes && r.limitReasons == w.reasons
    requires SteadyThroughout(world, lim, states) ==> Named(world, lim, RootRefs(world, states), w)
    ensures Faithful(world, lim, streaming, states, r, RefsIn(w.pending))
  {
    hide Content, SizeOf, Queue, Within, Sound, RefsIn, Ids, RootRefs, Reachable, IdReached, SteadyThroughout, Account;
    hide Goods;
    QueuedIds(lim, w);
    QueueIds(lim, w);
    Gathered(world, streaming, e.seedBytes, w);
    LookedUp(world, streaming, e.seedBytes, w);
    SoundReachable(world, RootRefs(world, states), w);
  }

  lemma QueuedIds(lim: WalkLimits, w: Walk)
    requires Queue(lim, w)
    ensures |Ids(RefsIn(w.pending))| <= lim.maxNodes
  {
  }

  lemma LookedUp(world: World, streaming: bool, seedBytes: nat, w: Walk)
    requires Account(world, streaming, seedBytes, w.resolved.Keys, w)
    ensures Goods(world, w.resolved.Keys) + w.issues.Keys <= w.resolved.Keys
    ensures forall id :: id in w.issues ==> Content(world, id) == Bad(w.issues[id])
  {
    hide Content, SizeOf, Delivered, Kept;
  }

  lemma SoundReachable(world: World, roots: set<Ref>, w: Walk)
    requires Sound(world, roots, w)
    ensures Nodes !in w.reasons ==> forall p :: p in RefsIn(w.pending) ==> Reachable(world, roots, p)
  {
    hide Within;
    if Nodes !in w.reasons {
      forall p | p in RefsIn(w.pending) ensures Reachable(world, roots, p) {
        var q :| q in w.pending && q.ref == p;
        var i :| 0 <= i < |w.pending| && w.pending[i] == q;
        assert p in Within(world, roots, q.depth);
      }
    }
  }

  /** Blobs and deliveries together are the verified ids looked up. */
  lemma Gathered(world: World, streaming: bool, seedBytes: nat, w: Walk)
    requires Account(world, streaming, seedBytes, w.resolved.Keys, w)
    ensures w.blobs.Keys + Elements(w.sunk) == Goods(world, w.resolved.Keys)
    ensures w.totalBytes == seedBytes + Sum(SizeOf(world), w.blobs.Keys + Elements(w.sunk))
    ensures |w.sunk| == |Elements(w.sunk)|
    ensures forall id :: id in w.sunk ==> Content(world, id).Good?
    ensures forall id :: id in w.blobs ==> Content(world, id) == Good(w.blobs[id].bytes, w.blobs[id].valueType)
    ensures if streaming then w.blobs == map[] else w.sunk == []
  {
    hide Content, SizeOf;
    assert forall id :: id in w.sunk ==> id in Elements(w.sunk);
    assert w.blobs.Keys + Elements(w.sunk) == Goods(world, w.resolved.Keys);
  }

  lemma FinishExact(world: World, lim: WalkLimits, streaming: bool, states: seq<Text>, e: Extracted,
                    first: seq<Pending>, w: Walk, r: WalkResult)
    requires ExtractedTo(world.rd, lim, states, |states|, e) && e.Complete()
    requires Inv(world, lim, streaming, e.seedBytes, RootRefs(world, states), w, |w.pending|) && w.reasons == {}
    requires first <= w.pending && RefsIn(first) == RefsOf(e.rootTypes)
    requires r.roots == e.rootTypes.Keys && r.blobs == w.blobs && r.sunk == w.sunk && r.issues == w.issues
    requires r.visitedNodes == w.visitedNodes
    ensures Exact(world, states, r, RefsIn(w.pending))
    ensures w.issues == map[] ==> Completable(world, lim, streaming, states)
    ensures !streaming ==> Coverable(world, lim, streaming, states)
  {
    hide Content, SizeOf, Within, RefsIn, Ids, Account, Goods, Sound, Finished, Spent, Queue, SeedRefs, SeedsFit;
    hide RefsOf, Roomy, Available, Closed, Reachable, NoneEmpty, Layered;
    var reached := RefsIn(w.pending);
    assert w.pending[..|w.pending|] == w.pending;
    RefsOfIds(e.rootTypes);
    PrefixOf(first, w.pending);
    ClosedAtEnd(world, lim, w);
    SoundReachable(world, RootRefs(world, states), w);
    Gathered(world, streaming, e.seedBytes, w);
    AccountIssues(world, streaming, e.seedBytes, w);
    if !streaming || w.issues == map[] {
      RoomyAtEnd(world, lim, streaming, e.seedBytes, RootRefs(world, states), w);
    }
    if w.issues == map[] {
      AvailableAtEnd(world, streaming, e.seedBytes, w);
      assert CompletableWith(world, lim, streaming, states, reached);
    }
    if !streaming {
      assert CoverableWith(world, lim, streaming, states, reached);
    }
  }

  lemma PrefixOf(first: seq<Pending>, pending: seq<Pending>)
    requires first <= pending
    ensures RefsIn(first) <= RefsIn(pending)
  {
    PrefixRefs(pending, |first|);
  }

  lemma AccountIssues(world: World, streaming: bool, seedBytes: nat, w: Walk)
    requires Account(world, streaming, seedBytes, w.resolved.Keys, w)
    ensures w.issues.Keys == w.resolved.Keys - Goods(world, w.resolved.Keys)
  {
  }

  /** A finished queue with no limit struck is closed under references. */
  lemma ClosedAtEnd(world: World, lim: WalkLimits, w: Walk)
    requires Finished(world, lim, w, |w.pending|) && w.reasons == {}
    ensures Closed(world, RefsIn(w.pending))
  {
    hide Children, ParsesCleanly;
    forall p, c | p in RefsIn(w.pending) && c in Children(world, p) ensures c in RefsIn(w.pending) {
      var q :| q in w.pending && q.ref == p;
      var i :| 0 <= i < |w.pending| && w.pending[i] == q;
      assert FinishedAt(world, lim, w.pending, i);
      assert Listed(w.pending, c, q.depth + 1);
      var j :| 0 <= j < |w.pending| && w.pending[j].ref == c && w.pending[j].depth <= q.depth + 1;
      assert w.pending[j] in w.pending;
    }
  }

  /** And everything it covers is within the limits. */
  lemma RoomyAtEnd(world: World, lim: WalkLimits, streaming: bool, seedBytes: nat, roots: set<Ref>, w: Walk)
    requires Inv(world, lim, streaming, seedBytes, roots, w, |w.pending|) && w.reasons == {}
    requires (!streaming || w.issues == map[])
    ensures Roomy(world, lim, streaming, seedBytes, roots, RefsIn(w.pending))
  {
    hide Content, SizeOf, Children, ParsesCleanly, Goods, Layered, Account;
    var reached := RefsIn(w.pending);
    assert w.pending[..|w.pending|] == w.pending;
    forall p | p in reached
      ensures ParsesCleanly(world, lim, p)
      ensures Children(world, p) != {} ==> lim.maxDepth > 0 && p in Within(world, roots, lim.maxDepth - 1)
    {
      var q :| q in w.pending && q.ref == p;
      var i :| 0 <= i < |w.pending| && w.pending[i] == q;
      FinishedDepth(world, lim, roots, w, i);
    }
    hide RefsIn, Ids, Within, Finished, Sound;
  }

  lemma AvailableAtEnd(world: World, streaming: bool, seedBytes: nat, w: Walk)
    requires Account(world, streaming, seedBytes, w.resolved.Keys, w) && w.issues == map[]
    requires w.resolved.Keys == Ids(RefsIn(w.pending))
    ensures Available(world, RefsIn(w.pending))
  {
    hide Content, SizeOf, Account, RefsIn;
    AllGood(world, streaming, seedBytes, w);
    forall p | p in RefsIn(w.pending) ensures Content(world, p.id).Good? {
      IdsMember(RefsIn(w.pending), p);
    }
  }

  lemma FinishedDepth(world: World, lim: WalkLimits, roots: set<Ref>, w: Walk, i: nat)
    requires i < |w.pending| && w.reasons == {} && Finished(world, lim, w, |w.pending|) && Sound(world, roots, w)
    ensures var p := w.pending[i].ref;
      && ParsesCleanly(world, lim, p)
      && (Children(world, p) != {} ==> lim.maxDepth > 0 && p in Within(world, roots, lim.maxDepth - 1))
  {
    hide Children, ParsesCleanly, Within;
    assert FinishedAt(world, lim, w.pending, i);
    if Children(world, w.pending[i].ref) != {} {
      WithinMonotone(world, roots, w.pending[i].depth, lim.maxDepth - 1);
    }
  }

  lemma AllGood(world: World, streaming: bool, seedBytes: nat, w: Walk)
    requires Account(world, streaming, seedBytes, w.resolved.Keys, w) && w.issues == map[]
    ensures forall id :: id in w.resolved ==> Content(world, id).Good?
  {
    hide Content, SizeOf, Delivered, Kept;
    forall id | id in w.resolved ensures Content(world, id).Good? {
      assert id !in Goods(world, w.resolved.Keys) ==> id in w.issues.Keys;
    }
  }

  lemma FinishOnTrack(world: World, lim: WalkLimits, streaming: bool, states: seq<Text>, e: Extracted,
                      reached: set<Ref>, w: Walk)
    requires ExtractedTo(world.rd, lim, states, |states|, e) && SeedsFit(world.rd, lim, states, |states|)
    requires OnTrack(streaming, RootRefs(world, states), reached, w)
    ensures e.unreadable == [] && w.reasons == {}
  {
    hide RefsIn, RootsListed, NoneEmpty, RefsOf, SeedRefs, SeedTotal;
  }

  // ----- The two modes -----

  /** If the streaming walk can complete, so can the retaining walk. */
  lemma StreamingRefinesRetaining(world: World, lim: WalkLimits, states: seq<Text>)
    requires Completable(world, lim, true, states)
    ensures Completable(world, lim, false, states)
  {
    hide IsClosure, SeedsFit, SeedTotal, RootRefs, Fits;
    var reached :| CompletableWith(world, lim, true, states, reached);
    StreamingFitsRetaining(world, lim, SeedTotal(states, |states|), RootRefs(world, states), reached);
    assert CompletableWith(world, lim, false, states, reached);
  }

  /** Two exact walks of one store from the same states agree on roots, ids and
      what is wrong, whatever their modes and limits. */
  lemma ExactWalksAgree(world: World, states: seq<Text>, a: WalkResult, reachedA: set<Ref>, b: WalkResult,
                        reachedB: set<Ref>)
    requires Exact(world, states, a, reachedA) && Exact(world, states, b, reachedB)
    ensures reachedA == reachedB && a.roots == b.roots
    ensures a.blobs.Keys + Elements(a.sunk) == b.blobs.Keys + Elements(b.sunk)
    ensures a.issues.Keys == b.issues.Keys
  {
    hide IsClosure, Goods;
    ClosureUnique(world, RootRefs(world, states), reachedA, reachedB);
  }
}
