/** The original ordering of a chat version: src/chat/conflictResolution.ts looks
    through merges, enrichments and checkpoint markers for the version whose
    author's ordering they inherit. */
module Origins {
  import opened Basics

  type Id = Text

  datatype Ordering = Ordering(versionId: Id, eventHash: Text, lamport: int, deviceId: Text, createdAt: Option<Text>)

  /** compareOrdering(a, b) < 0: the later version comes first. */
  predicate Before(a: Ordering, b: Ordering) {
    if a.lamport != b.lamport then a.lamport > b.lamport
    else if a.deviceId != b.deviceId then Less(b.deviceId, a.deviceId)
    else if a.eventHash != b.eventHash then Less(b.eventHash, a.eventHash)
    else Less(b.versionId, a.versionId)
  }

  /** The first is no later than the second: it has no greater logical time, and at
      the same time no later device, then event, then version in code-unit order. */
  ghost predicate NoLater(x: Ordering, o: Ordering) {
    && x.lamport <= o.lamport
    && (x.lamport == o.lamport ==> !Less(o.deviceId, x.deviceId))
    && (x.lamport == o.lamport && x.deviceId == o.deviceId ==> !Less(o.eventHash, x.eventHash))
    && (x.lamport == o.lamport && x.deviceId == o.deviceId && x.eventHash == o.eventHash ==>
          !Less(o.versionId, x.versionId))
  }

  /** What does not come before another is no later than it. */
  lemma NoLaterMeans(x: Ordering, o: Ordering)
    ensures NoLater(x, o) <==> !Before(x, o)
  {
    hide Less;
    LessBothWays(x.deviceId, o.deviceId);
    LessBothWays(x.eventHash, o.eventHash);
    LessBothWays(x.versionId, o.versionId);
  }

  /** The first of a list is one of the latest. */
  lemma FirstIsLatest(list: seq<Ordering>)
    ensures First(list) == None <==> list == []
    ensures First(list).Some? ==> First(list).value in list && forall o :: o in list ==> NoLater(o, First(list).value)
  {
    hide Before, NoLater;
    FirstIsGreatest(list);
    if First(list).Some? {
      forall o | o in list ensures NoLater(o, First(list).value) {
        NoLaterMeans(o, First(list).value);
      }
    }
  }

  predicate SameRank(a: Ordering, b: Ordering) {
    a.lamport == b.lamport && a.deviceId == b.deviceId && a.eventHash == b.eventHash && a.versionId == b.versionId
  }

  /** compareOrdering is a total order up to the creation time. */
  lemma BeforeIsTotal(a: Ordering, b: Ordering)
    ensures Before(a, b) || Before(b, a) || SameRank(a, b)
    ensures !(Before(a, b) && Before(b, a)) && (SameRank(a, b) ==> !Before(a, b))
  {
    LessBothWays(a.deviceId, b.deviceId);
    LessBothWays(a.eventHash, b.eventHash);
    LessBothWays(a.versionId, b.versionId);
  }

  lemma LessBothWays(a: Text, b: Text)
    ensures a == b || Less(a, b) || Less(b, a)
    ensures !(Less(a, b) && Less(b, a)) && (a == b ==> !Less(a, b))
  {
    hide Less;
    LessTotal(a, b);
    LessIrreflexive(a);
    if Less(a, b) && Less(b, a) {
      LessTransitive(a, b, a);
    }
  }

  /** Not being beaten is transitive. */
  lemma BeforeNegative(a: Ordering, b: Ordering, c: Ordering)
    requires !Before(a, b) && !Before(b, c)
    ensures !Before(a, c)
  {
    hide Less;
    LessNegative(a.deviceId, b.deviceId, c.deviceId);
    LessNegative(a.eventHash, b.eventHash, c.eventHash);
    LessNegative(a.versionId, b.versionId, c.versionId);
  }

  lemma LessNegative(a: Text, b: Text, c: Text)
    ensures !Less(b, a) && !Less(c, b) ==> !Less(c, a) && (a == c ==> a == b)
  {
    hide Less;
    LessBothWays(a, b);
    LessBothWays(b, c);
    LessBothWays(a, c);
    if !Less(b, a) && !Less(c, b) {
      if a != b && b != c {
        LessTransitive(a, b, c);
      }
    }
  }

  /** list.sort(compareOrdering)[0] of a stable sort. */
  function First(list: seq<Ordering>): Option<Ordering> {
    if list == [] then None
    else
      match First(list[1..])
      case None => Some(list[0])
      case Some(o) => if Before(o, list[0]) then Some(o) else Some(list[0])
  }

  lemma {:induction false} FirstIsGreatest(list: seq<Ordering>)
    ensures First(list) == None <==> list == []
    ensures First(list).Some? ==> First(list).value in list && forall o :: o in list ==> !Before(o, First(list).value)
  {
    hide Before;
    if list != [] {
      FirstIsGreatest(list[1..]);
      BeforeIsTotal(list[0], list[0]);
      match First(list[1..]) {
        case None =>
        case Some(best) =>
          forall o | o in list ensures !Before(o, First(list).value) {
            BeforeIsTotal(best, list[0]);
            if o != list[0] {
              assert o in list[1..];
              if !Before(best, list[0]) {
                BeforeNegative(o, best, list[0]);
              }
            }
          }
      }
    }
  }

  /** Electing in stages: the first of two groups' firsts is the first of all. */
  lemma {:induction false} FirstInStages(a: seq<Ordering>, b: seq<Ordering>)
    requires a != []
    ensures First(a + b) == First([First(a).value] + b)
  {
    hide Before;
    FirstIsGreatest(a);
    FirstPair(a[0], b);
    assert (a + b)[1..] == a[1..] + b;
    if |a| > 1 {
      FirstIsGreatest(a[1..]);
      FirstInStages(a[1..], b);
      FirstPair(First(a[1..]).value, b);
      FirstPair(First(a).value, b);
      FirstIsGreatest(b);
      if b != [] {
        var x, y, z := a[0], First(a[1..]).value, First(b).value;
        BeforeIsTotal(x, y);
        StageOrder(x, y, z);
      }
    } else {
      assert a + b == [a[0]] + b;
    }
  }

  lemma StageOrder(x: Ordering, y: Ordering, z: Ordering)
    ensures Before(y, x) && !Before(x, y) && Before(z, y) ==> Before(z, x)
    ensures !Before(y, x) && !Before(z, y) ==> !Before(z, x)
  {
    hide Before;
    BeforeIsTotal(x, y);
    BeforeIsTotal(y, z);
    BeforeIsTotal(x, z);
    if !Before(y, x) && !Before(z, y) {
      BeforeNegative(z, y, x);
    }
    if Before(z, y) && Before(y, x) && !Before(z, x) {
      BeforeNegative(y, z, x);
    }
  }

  lemma FirstPair(x: Ordering, b: seq<Ordering>)
    ensures First([x] + b) ==
              match First(b) case None => Some(x) case Some(o) => if Before(o, x) then Some(o) else Some(x)
  {
    assert ([x] + b)[1..] == b;
  }

  /** Whatever the order of the list, its first has the same rank. */
  lemma FirstOfSame(a: seq<Ordering>, b: seq<Ordering>)
    requires a != [] && Elements(a) == Elements(b)
    ensures b != [] && SameRank(First(a).value, First(b).value)
  {
    hide Before, First, SameRank;
    assert a[0] in Elements(b);
    FirstIsGreatest(a);
    FirstIsGreatest(b);
    var x, y := First(a).value, First(b).value;
    assert x in Elements(b) && y in Elements(a);
    BeforeIsTotal(x, y);
  }

  // ----- Versions -----

  datatype StoredOrigin = NoOrigin | BadOrigin | StoredOrigin(ordering: Ordering)

  /** The metadata properties the search looks at; effectiveOrigin is
      effectiveSyncOrigin of them all, coreHash is present when well formed. */
  datatype Metadata = Metadata(
    chatResolutionOrigin: StoredOrigin, hasResolutionCoreHash: bool, syncOrigin: Option<string>,
    effectiveOrigin: Option<string>, enrichedFromVersionId: Option<Id>, checkpointedVersionId: Option<Id>,
    chatCoreHash: Option<Text>, chatSnapshotSchemaVersion: int)

  datatype Version = Version(
    resourceId: Text, isChat: bool, isPut: bool, semanticHash: Text, parents: seq<Id>,
    ordering: Option<Ordering>, metadata: Metadata)

  /** The readable versions of the repository and the orderings of its tips. */
  datatype History = History(versions: map<Id, Version>, tips: map<Id, Ordering>)
  {
    /** Authenticated orderings name their own version, and a tip's ordering is
        the one its version carries. */
    predicate Consistent() {
      && (forall v :: v in versions && versions[v].ordering.Some? ==> versions[v].ordering.value.versionId == v)
      && (forall v :: v in tips ==> tips[v].versionId == v)
      && (forall v ::
            v in tips && v in versions && versions[v].ordering.Some? ==> versions[v].ordering.value == tips[v])
    }

    /** A version the search can ask about: a readable tip or parent. */
    predicate Known(v: Id) {
      v in versions && (versions[v].ordering.Some? || v in tips)
    }

    function Own(v: Id): Ordering
      requires Known(v)
    {
      if versions[v].ordering.Some? then versions[v].ordering.value else tips[v]
    }
  }

  datatype Shape = Leaf(origin: Ordering) | Dead | Wrapper

  /** What a version is to the search. */
  function ShapeOf(d: Version, own: Ordering): Shape {
    var stored := d.metadata.chatResolutionOrigin;
    var origin := d.metadata.effectiveOrigin;
    if stored.StoredOrigin? && stored.ordering.lamport <= own.lamport && d.metadata.hasResolutionCoreHash then
      Leaf(stored.ordering)
    else if stored != NoOrigin then Dead
    else if !IsMarker(d) && origin != Some("agent-kv-enrichment") && origin != Some("auto-merge") then
      Leaf(if d.ordering.Some? then d.ordering.value else own)
    else Wrapper
  }

  predicate IsMarker(d: Version) {
    d.metadata.syncOrigin == Some("checkpoint-marker")
  }

  predicate IsMerge(d: Version) {
    d.metadata.effectiveOrigin == Some("auto-merge") && !IsMarker(d)
  }

  function ParentsOf(d: Version): seq<Id> {
    if IsMarker(d) then
      if d.metadata.checkpointedVersionId.Some? then [d.metadata.checkpointedVersionId.value] else []
    else if d.metadata.effectiveOrigin == Some("agent-kv-enrichment") && d.metadata.enrichedFromVersionId.Some?
    then [d.metadata.enrichedFromVersionId.value] else d.parents
  }

  predicate IsReadable(d: Option<Version>, resourceId: Text) {
    d.Some? && d.value.resourceId == resourceId && d.value.isChat && d.value.ordering.Some?
  }

  function Lookup(h: History, v: Id): Option<Version> {
    if v in h.versions then Some(h.versions[v]) else None
  }

  predicate AllReadable(h: History, resourceId: Text, ids: seq<Id>) {
    forall v :: v in ids ==> IsReadable(Lookup(h, v), resourceId)
  }

  predicate ExactParent(d: Version, p: Version) {
    p.semanticHash == d.semanticHash
  }

  predicate CoreParent(d: Version, p: Version) {
    d.metadata.chatCoreHash.Some? &&
    (p.metadata.chatCoreHash == d.metadata.chatCoreHash
     || (p.metadata.chatSnapshotSchemaVersion == 1 && p.semanticHash == d.metadata.chatCoreHash.value))
  }

  function Keep(h: History, ids: seq<Id>, keep: Version -> bool): (r: seq<Id>)
    requires forall v :: v in ids ==> v in h.versions
    ensures forall v :: v in r <==> v in ids && keep(h.versions[v])
  {
    if ids == [] then []
    else (if keep(h.versions[ids[0]]) then [ids[0]] else []) + Keep(h, ids[1..], keep)
  }

  /** Parents with exactly a merge's content, else those with its core, else all. */
  function Contributors(h: History, resourceId: Text, d: Version): seq<Id>
    requires AllReadable(h, resourceId, ParentsOf(d))
  {
    var parents := ParentsOf(d);
    var exact := if IsMerge(d) then Keep(h, parents, p => ExactParent(d, p)) else [];
    var core := if IsMerge(d) then Keep(h, parents, p => CoreParent(d, p)) else [];
    if exact != [] then exact else if core != [] then core else parents
  }

  lemma ContributorsReadable(h: History, resourceId: Text, d: Version)
    requires AllReadable(h, resourceId, ParentsOf(d))
    ensures forall v :: v in Contributors(h, resourceId, d) ==> v in ParentsOf(d) && h.Known(v)
  {
  }

  // ----- The plain recursive definition -----

  /** The unmemoised search from a version, failing when it meets its own path. */
  ghost function Plain(h: History, resourceId: Text, v: Id, path: set<Id>): Option<Ordering>
    requires h.Known(v)
    decreases |h.versions.Keys - path|, 1
  {
    if v in path then None
    else
      match ShapeOf(h.versions[v], h.Own(v))
      case Leaf(o) => Some(o)
      case Dead => None
      case Wrapper =>
        Smaller(h.versions.Keys, path, v);
        if !AllReadable(h, resourceId, ParentsOf(h.versions[v])) then None
        else
          ContributorsReadable(h, resourceId, h.versions[v]);
          match PlainAll(h, resourceId, Contributors(h, resourceId, h.versions[v]), path + {v})
          case None => None
          case Some(origins) => First(origins)
  }

  ghost function PlainAll(h: History, resourceId: Text, ids: seq<Id>, path: set<Id>): Option<seq<Ordering>>
    requires forall v :: v in ids ==> h.Known(v)
    decreases |h.versions.Keys - path|, 2, |ids|
  {
    if ids == [] then Some([])
    else
      match Plain(h, resourceId, ids[0], path)
      case None => None
      case Some(o) =>
        match PlainAll(h, resourceId, ids[1..], path)
        case None => None
        case Some(rest) => Some([o] + rest)
  }

  lemma Smaller(all: set<Id>, path: set<Id>, v: Id)
    requires v in all && v !in path
    ensures |all - (path + {v})| < |all - path|
  {
    assert all - path == (all - (path + {v})) + {v};
  }

  ghost function Origin(h: History, resourceId: Text, v: Id): Option<Ordering>
    requires h.Known(v)
  {
    Plain(h, resourceId, v, {})
  }

  // ----- Contributor edges -----

  ghost predicate Contributes(h: History, resourceId: Text, u: Id, v: Id) {
    && h.Known(u)
    && ShapeOf(h.versions[u], h.Own(u)).Wrapper?
    && AllReadable(h, resourceId, ParentsOf(h.versions[u]))
    && v in Contributors(h, resourceId, h.versions[u])
  }

  lemma ContributorKnown(h: History, resourceId: Text, u: Id, v: Id)
    requires Contributes(h, resourceId, u, v)
    ensures h.Known(v)
  {
    ContributorsReadable(h, resourceId, h.versions[u]);
  }

  ghost predicate Chain(h: History, resourceId: Text, chain: seq<Id>) {
    forall i :: 0 <= i < |chain| - 1 ==> Contributes(h, resourceId, chain[i], chain[i + 1])
  }

  ghost predicate IsPath(h: History, resourceId: Text, chain: seq<Id>, u: Id, v: Id) {
    |chain| >= 2 && Chain(h, resourceId, chain) && chain[0] == u && chain[|chain| - 1] == v
  }

  /** v lies one or more contributor edges from u. */
  ghost predicate Reaches(h: History, resourceId: Text, u: Id, v: Id) {
    exists chain :: IsPath(h, resourceId, chain, u, v)
  }

  lemma OneEdge(h: History, resourceId: Text, u: Id, v: Id)
    requires Contributes(h, resourceId, u, v)
    ensures Reaches(h, resourceId, u, v)
  {
    hide Contributes;
    assert IsPath(h, resourceId, [u, v], u, v);
  }

  lemma EdgeFirst(h: History, resourceId: Text, u: Id, v: Id, w: Id)
    requires Contributes(h, resourceId, u, v) && Reaches(h, resourceId, v, w)
    ensures Reaches(h, resourceId, u, w)
  {
    hide Contributes;
    var chain :| IsPath(h, resourceId, chain, v, w);
    assert IsPath(h, resourceId, [u] + chain, u, w);
  }

  lemma EdgeLast(h: History, resourceId: Text, u: Id, v: Id, w: Id)
    requires Reaches(h, resourceId, u, v) && Contributes(h, resourceId, v, w)
    ensures Reaches(h, resourceId, u, w)
  {
    hide Contributes;
    var chain :| IsPath(h, resourceId, chain, u, v);
    assert IsPath(h, resourceId, chain + [w], u, w);
  }

  /** Every path starts with an edge. */
  lemma FirstEdge(h: History, resourceId: Text, u: Id, w: Id) returns (v: Id)
    requires Reaches(h, resourceId, u, w)
    ensures Contributes(h, resourceId, u, v) && (v == w || Reaches(h, resourceId, v, w))
  {
    hide Contributes;
    var chain :| IsPath(h, resourceId, chain, u, w);
    v := chain[1];
    if |chain| > 2 {
      assert IsPath(h, resourceId, chain[1..], v, w);
    }
  }

  // ----- The path does not matter -----

  lemma {:induction false} PlainAllParts(h: History, resourceId: Text, ids: seq<Id>, path: set<Id>)
    requires forall v :: v in ids ==> h.Known(v)
    ensures PlainAll(h, resourceId, ids, path).Some? <==> forall v :: v in ids ==> Plain(h, resourceId, v, path).Some?
    ensures PlainAll(h, resourceId, ids, path).Some? ==>
      var origins := PlainAll(h, resourceId, ids, path).value;
      |origins| == |ids| && forall i :: 0 <= i < |ids| ==> Plain(h, resourceId, ids[i], path) == Some(origins[i])
  {
    hide Plain;
    if ids != [] {
      PlainAllParts(h, resourceId, ids[1..], path);
      assert ids[0] in ids && ids == [ids[0]] + ids[1..];
      if Plain(h, resourceId, ids[0], path).Some? && PlainAll(h, resourceId, ids[1..], path) == None {
        var w :| w in ids[1..] && Plain(h, resourceId, w, path) == None;
        assert w in ids;
      }
    }
  }

  /** The value at a wrapper, one level unfolded. */
  lemma PlainWrapper(h: History, resourceId: Text, v: Id, path: set<Id>)
    requires h.Known(v) && v !in path && ShapeOf(h.versions[v], h.Own(v)).Wrapper?
    requires AllReadable(h, resourceId, ParentsOf(h.versions[v]))
    ensures var ids := Contributors(h, resourceId, h.versions[v]);
            (forall c :: c in ids ==> h.Known(c)) &&
            match PlainAll(h, resourceId, ids, path + {v})
            case None => Plain(h, resourceId, v, path) == None
            case Some(origins) => Plain(h, resourceId, v, path) == First(origins)
  {
    hide ShapeOf, AllReadable, Contributors, ParentsOf;
    ContributorsReadable(h, resourceId, h.versions[v]);
    Smaller(h.versions.Keys, path, v);
  }

  lemma PlainOther(h: History, resourceId: Text, v: Id, path: set<Id>)
    requires h.Known(v) && v !in path
    requires ShapeOf(h.versions[v], h.Own(v)).Wrapper? ==> !AllReadable(h, resourceId, ParentsOf(h.versions[v]))
    ensures Plain(h, resourceId, v, path) ==
              match ShapeOf(h.versions[v], h.Own(v)) case Leaf(o) => Some(o) case _ => None
  {
    hide ShapeOf, AllReadable, Contributors, ParentsOf;
  }

  predicate IsInner(h: History, resourceId: Text, v: Id)
    requires h.Known(v)
  {
    ShapeOf(h.versions[v], h.Own(v)).Wrapper? && AllReadable(h, resourceId, ParentsOf(h.versions[v]))
  }

  lemma InnerEdges(h: History, resourceId: Text, v: Id)
    requires h.Known(v) && IsInner(h, resourceId, v)
    ensures forall c :: c in Contributors(h, resourceId, h.versions[v]) <==> Contributes(h, resourceId, v, c)
  {
    hide Contributors, ShapeOf, AllReadable, ParentsOf;
  }

  /** A shorter path cannot lose an answer. */
  lemma {:induction false} PlainOnShorterPath(h: History, resourceId: Text, v: Id, path: set<Id>, shorter: set<Id>)
    requires h.Known(v) && shorter <= path && Plain(h, resourceId, v, path).Some?
    ensures Plain(h, resourceId, v, shorter) == Plain(h, resourceId, v, path)
    decreases |h.versions.Keys - path|
  {
    assert v !in path by {
      PathFails(h, resourceId, v, path);
    }
    hide Plain, PlainAll, ShapeOf, AllReadable, Contributors, ParentsOf, History.Known;
    if IsInner(h, resourceId, v) {
      PlainWrapper(h, resourceId, v, path);
      PlainWrapper(h, resourceId, v, shorter);
      Smaller(h.versions.Keys, path, v);
      var ids := Contributors(h, resourceId, h.versions[v]);
      PlainAllParts(h, resourceId, ids, path + {v});
      PlainAllParts(h, resourceId, ids, shorter + {v});
      forall c | c in ids ensures Plain(h, resourceId, c, shorter + {v}) == Plain(h, resourceId, c, path + {v}) {
        PlainOnShorterPath(h, resourceId, c, path + {v}, shorter + {v});
      }
      SameSeq(PlainAll(h, resourceId, ids, path + {v}).value, PlainAll(h, resourceId, ids, shorter + {v}).value,
              i => if 0 <= i < |ids| then Plain(h, resourceId, ids[i], path + {v}) else None);
    } else {
      PlainOther(h, resourceId, v, path);
      PlainOther(h, resourceId, v, shorter);
    }
  }

  lemma PathFails(h: History, resourceId: Text, v: Id, path: set<Id>)
    requires h.Known(v)
    ensures v in path ==> Plain(h, resourceId, v, path) == None
  {
    hide PlainAll, ShapeOf, AllReadable, Contributors, ParentsOf;
  }

  lemma SameSeq(a: seq<Ordering>, b: seq<Ordering>, f: int -> Option<Ordering>)
    requires |a| == |b| && forall i :: 0 <= i < |a| ==> f(i) == Some(a[i]) && f(i) == Some(b[i])
    ensures a == b
  {
    forall i | 0 <= i < |a| ensures a[i] == b[i] {
      assert f(i) == Some(a[i]);
    }
  }

  /** A longer path loses an answer only to a version the search meets. */
  lemma {:induction false} PlainAvoids(h: History, resourceId: Text, v: Id, path: set<Id>, x: Id)
    requires h.Known(v) && Plain(h, resourceId, v, path).Some? && v != x && !Reaches(h, resourceId, v, x)
    ensures Plain(h, resourceId, v, path + {x}) == Plain(h, resourceId, v, path)
    decreases |h.versions.Keys - path|
  {
    assert v !in path by {
      PathFails(h, resourceId, v, path);
    }
    hide Plain, PlainAll, ShapeOf, AllReadable, Contributors, ParentsOf, History.Known, Contributes, Reaches;
    if IsInner(h, resourceId, v) {
      PlainWrapper(h, resourceId, v, path);
      Smaller(h.versions.Keys, path, v);
      InnerEdges(h, resourceId, v);
      var ids := Contributors(h, resourceId, h.versions[v]);
      PlainAllParts(h, resourceId, ids, path + {v});
      forall c | c in ids ensures Plain(h, resourceId, c, path + {v} + {x}).Some? {
        AvoidsToo(h, resourceId, v, c, x);
        PlainAvoids(h, resourceId, c, path + {v}, x);
      }
      PlainWrapper(h, resourceId, v, path + {x});
      assert path + {v} + {x} == path + {x} + {v};
      PlainAllParts(h, resourceId, ids, path + {x} + {v});
      Inhabited(PlainAll(h, resourceId, ids, path + {v}).value, PlainAll(h, resourceId, ids, path + {x} + {v}).value);
    } else {
      PlainOther(h, resourceId, v, path);
      PlainOther(h, resourceId, v, path + {x});
    }
    PlainOnShorterPath(h, resourceId, v, path + {x}, path);
  }

  lemma Inhabited(a: seq<Ordering>, b: seq<Ordering>)
    requires |a| == |b|
    ensures First(a).Some? <==> First(b).Some?
  {
    hide Before;
    FirstIsGreatest(a);
    FirstIsGreatest(b);
  }

  lemma AvoidsToo(h: History, resourceId: Text, v: Id, c: Id, x: Id)
    requires Contributes(h, resourceId, v, c) && !Reaches(h, resourceId, v, x)
    ensures c != x && !Reaches(h, resourceId, c, x) && h.Known(c)
  {
    hide Reaches, Contributes;
    ContributorKnown(h, resourceId, v, c);
    OneEdge(h, resourceId, v, c);
    if Reaches(h, resourceId, c, x) {
      EdgeFirst(h, resourceId, v, c, x);
    }
  }

  /** An answer under a path meets neither the path nor itself. */
  lemma {:induction false} AlongChain(h: History, resourceId: Text, chain: seq<Id>, path: set<Id>)
    requires Chain(h, resourceId, chain) && chain != [] && h.Known(chain[0])
    requires Plain(h, resourceId, chain[0], path).Some?
    ensures chain[|chain| - 1] !in path
    ensures |chain| > 1 ==> chain[|chain| - 1] != chain[0]
    ensures h.Known(chain[|chain| - 1]) && Plain(h, resourceId, chain[|chain| - 1], path).Some?
    decreases |chain|
  {
    PathFails(h, resourceId, chain[0], path);
    hide Plain, PlainAll, Contributes, History.Known;
    if |chain| > 1 {
      var v, c := chain[0], chain[1];
      EdgeAnswer(h, resourceId, v, c, path);
      AlongChain(h, resourceId, chain[1..], path + {v});
      var last := chain[|chain| - 1];
      assert chain[1..][|chain| - 2] == last;
      PlainOnShorterPath(h, resourceId, last, path + {v}, path);
    }
  }

  lemma EdgeAnswer(h: History, resourceId: Text, v: Id, c: Id, path: set<Id>)
    requires h.Known(v) && Plain(h, resourceId, v, path).Some? && Contributes(h, resourceId, v, c)
    ensures h.Known(c) && Plain(h, resourceId, c, path + {v}).Some?
  {
    PathFails(h, resourceId, v, path);
    PlainWrapper(h, resourceId, v, path);
    hide Plain, PlainAll, ShapeOf, AllReadable, Contributors, ParentsOf;
    PlainAllParts(h, resourceId, Contributors(h, resourceId, h.versions[v]), path + {v});
  }

  lemma NoCycle(h: History, resourceId: Text, v: Id)
    requires h.Known(v) && Origin(h, resourceId, v).Some?
    ensures !Reaches(h, resourceId, v, v)
  {
    hide Plain, Contributes;
    if Reaches(h, resourceId, v, v) {
      var chain :| IsPath(h, resourceId, chain, v, v);
      AlongChain(h, resourceId, chain, {});
      assert false;
    }
  }

  /** Without the path: the origin of a wrapper is the first of its contributors'
      origins, and a version on a cycle has none. */
  lemma OriginOfWrapper(h: History, resourceId: Text, v: Id)
    requires h.Known(v) && IsInner(h, resourceId, v)
    ensures var ids := Contributors(h, resourceId, h.versions[v]);
            (forall c :: c in ids ==> h.Known(c)) &&
            match PlainAll(h, resourceId, ids, {})
            case None => Origin(h, resourceId, v) == None
            case Some(origins) => Origin(h, resourceId, v) == First(origins)
  {
    PlainWrapper(h, resourceId, v, {});
    hide Plain, PlainAll, ShapeOf, AllReadable, Contributors, ParentsOf, Contributes, Reaches, History.Known;
    var ids := Contributors(h, resourceId, h.versions[v]);
    InnerEdges(h, resourceId, v);
    PlainAllParts(h, resourceId, ids, {});
    PlainAllParts(h, resourceId, ids, {} + {v});
    if PlainAll(h, resourceId, ids, {} + {v}).Some? {
      forall c | c in ids ensures Plain(h, resourceId, c, {}) == Plain(h, resourceId, c, {} + {v}) {
        PlainOnShorterPath(h, resourceId, c, {} + {v}, {});
      }
      SameSeq(PlainAll(h, resourceId, ids, {}).value, PlainAll(h, resourceId, ids, {} + {v}).value,
              i => if 0 <= i < |ids| then Plain(h, resourceId, ids[i], {}) else None);
    } else if PlainAll(h, resourceId, ids, {}).Some? {
      forall c | c in ids ensures Plain(h, resourceId, c, {} + {v}).Some? {
        NoCycle(h, resourceId, c);
        if Reaches(h, resourceId, c, v) {
          EdgeLast(h, resourceId, c, v, c);
        }
        if c == v {
          OneEdge(h, resourceId, v, v);
        }
        PlainAvoids(h, resourceId, c, {}, v);
      }
    }
  }

  // ----- What the origin is -----

  predicate IsLeaf(h: History, v: Id)
    requires h.Known(v)
  {
    ShapeOf(h.versions[v], h.Own(v)).Leaf?
  }

  function LeafOrdering(h: History, v: Id): Ordering
    requires h.Known(v) && IsLeaf(h, v)
  {
    ShapeOf(h.versions[v], h.Own(v)).origin
  }

  ghost predicate IsOrReaches(h: History, resourceId: Text, u: Id, v: Id) {
    u == v || Reaches(h, resourceId, u, v)
  }

  /** The ordering belongs to a leaf the version rests on, and none of those
      leaves is later. */
  ghost predicate GreatestLeaf(h: History, resourceId: Text, v: Id, o: Ordering) {
    && (exists l :: IsOrReaches(h, resourceId, v, l) && h.Known(l) && IsLeaf(h, l) && LeafOrdering(h, l) == o)
    && (forall l :: IsOrReaches(h, resourceId, v, l) && h.Known(l) && IsLeaf(h, l) ==> !Before(LeafOrdering(h, l), o))
  }

  /** The version rests on one the search cannot see through: an unusable stored
      origin, a wrapper with no or unreadable parents, or one on a cycle. */
  ghost predicate Troubled(h: History, resourceId: Text, v: Id) {
    exists x :: IsOrReaches(h, resourceId, v, x) && (IsStuck(h, resourceId, x) || Reaches(h, resourceId, x, x))
  }

  ghost predicate IsStuck(h: History, resourceId: Text, x: Id) {
    h.Known(x) && !IsLeaf(h, x) && (!IsInner(h, resourceId, x) || Contributors(h, resourceId, h.versions[x]) == [])
  }

  lemma {:induction false} GreatestUnder(h: History, resourceId: Text, v: Id, path: set<Id>)
    requires h.Known(v) && Plain(h, resourceId, v, path).Some?
    ensures GreatestLeaf(h, resourceId, v, Plain(h, resourceId, v, path).value)
    decreases |h.versions.Keys - path|
  {
    PathFails(h, resourceId, v, path);
    hide Plain, PlainAll, ShapeOf, AllReadable, Contributors, ParentsOf, History.Known, Contributes, Reaches;
    hide GreatestLeaf;
    if IsInner(h, resourceId, v) {
      PlainWrapper(h, resourceId, v, path);
      Smaller(h.versions.Keys, path, v);
      InnerEdges(h, resourceId, v);
      var ids := Contributors(h, resourceId, h.versions[v]);
      PlainAllParts(h, resourceId, ids, path + {v});
      forall c | c in ids ensures GreatestLeaf(h, resourceId, c, Plain(h, resourceId, c, path + {v}).value) {
        GreatestUnder(h, resourceId, c, path + {v});
      }
      GreatestOfMany(h, resourceId, v, ids, PlainAll(h, resourceId, ids, path + {v}).value);
    } else {
      PlainOther(h, resourceId, v, path);
      LeafAlone(h, resourceId, v);
    }
  }

  lemma LeafAlone(h: History, resourceId: Text, v: Id)
    requires h.Known(v) && IsLeaf(h, v)
    ensures GreatestLeaf(h, resourceId, v, LeafOrdering(h, v))
  {
    hide ShapeOf, Contributors, ParentsOf, Reaches, Before;
    assert IsOrReaches(h, resourceId, v, v);
    BeforeIsTotal(LeafOrdering(h, v), LeafOrdering(h, v));
    forall l | Reaches(h, resourceId, v, l) ensures false {
      var c := FirstEdge(h, resourceId, v, l);
      assert false;
    }
  }

  lemma GreatestOfMany(h: History, resourceId: Text, v: Id, ids: seq<Id>, origins: seq<Ordering>)
    requires h.Known(v) && IsInner(h, resourceId, v) && ids == Contributors(h, resourceId, h.versions[v])
    requires |origins| == |ids| && First(origins).Some?
    requires forall i :: 0 <= i < |ids| ==> GreatestLeaf(h, resourceId, ids[i], origins[i])
    ensures GreatestLeaf(h, resourceId, v, First(origins).value)
  {
    InnerEdges(h, resourceId, v);
    assert !IsLeaf(h, v);
    hide ShapeOf, AllReadable, Contributors, ParentsOf, History.Known, Contributes, Reaches, Before, First;
    hide LeafOrdering, IsLeaf;
    FirstIsGreatest(origins);
    var best := First(origins).value;
    var k :| 0 <= k < |origins| && origins[k] == best;
    var l :| IsOrReaches(h, resourceId, ids[k], l) && h.Known(l) && IsLeaf(h, l) && LeafOrdering(h, l) == best;
    assert IsOrReaches(h, resourceId, v, l) by {
      EdgeThen(h, resourceId, v, ids[k], l);
    }
    forall l | IsOrReaches(h, resourceId, v, l) && h.Known(l) && IsLeaf(h, l)
      ensures !Before(LeafOrdering(h, l), best)
    {
      var c := FirstEdge(h, resourceId, v, l);
      var i :| 0 <= i < |ids| && ids[i] == c;
      BeforeNegative(LeafOrdering(h, l), origins[i], best);
    }
  }

  lemma EdgeThen(h: History, resourceId: Text, u: Id, v: Id, w: Id)
    requires Contributes(h, resourceId, u, v) && IsOrReaches(h, resourceId, v, w)
    ensures Reaches(h, resourceId, u, w)
  {
    hide Contributes, Reaches;
    if v == w {
      OneEdge(h, resourceId, u, v);
    } else {
      EdgeFirst(h, resourceId, u, v, w);
    }
  }

  ghost predicate MeetsPath(h: History, resourceId: Text, v: Id, path: set<Id>) {
    exists p :: p in path && IsOrReaches(h, resourceId, v, p)
  }

  lemma {:induction false} TroubleUnder(h: History, resourceId: Text, v: Id, path: set<Id>)
    requires h.Known(v) && Plain(h, resourceId, v, path) == None
    ensures Troubled(h, resourceId, v) || MeetsPath(h, resourceId, v, path)
    decreases |h.versions.Keys - path|
  {
    assert IsOrReaches(h, resourceId, v, v);
    hide Plain, PlainAll, ShapeOf, AllReadable, Contributors, ParentsOf, History.Known, Contributes, Reaches;
    hide IsOrReaches, First;
    if v in path {
    } else if !IsInner(h, resourceId, v) {
      PlainOther(h, resourceId, v, path);
      assert IsStuck(h, resourceId, v);
    } else {
      PlainWrapper(h, resourceId, v, path);
      Smaller(h.versions.Keys, path, v);
      InnerEdges(h, resourceId, v);
      var ids := Contributors(h, resourceId, h.versions[v]);
      PlainAllParts(h, resourceId, ids, path + {v});
      if ids == [] {
        assert !IsLeaf(h, v);
        assert IsStuck(h, resourceId, v);
      } else {
        assert exists c :: c in ids && Plain(h, resourceId, c, path + {v}) == None by {
          if PlainAll(h, resourceId, ids, path + {v}).Some? {
            FirstIsGreatest(PlainAll(h, resourceId, ids, path + {v}).value);
          }
        }
        var c :| c in ids && Plain(h, resourceId, c, path + {v}) == None;
        TroubleUnder(h, resourceId, c, path + {v});
        PassUp(h, resourceId, v, c, path);
      }
    }
  }

  lemma PassUp(h: History, resourceId: Text, v: Id, c: Id, path: set<Id>)
    requires Contributes(h, resourceId, v, c)
    requires Troubled(h, resourceId, c) || MeetsPath(h, resourceId, c, path + {v})
    ensures Troubled(h, resourceId, v) || MeetsPath(h, resourceId, v, path)
  {
    hide Contributes, Reaches, IsStuck;
    if Troubled(h, resourceId, c) {
      var x :| IsOrReaches(h, resourceId, c, x) && (IsStuck(h, resourceId, x) || Reaches(h, resourceId, x, x));
      EdgeThen(h, resourceId, v, c, x);
      assert IsOrReaches(h, resourceId, v, x);
    } else {
      var p :| p in path + {v} && IsOrReaches(h, resourceId, c, p);
      EdgeThen(h, resourceId, v, c, p);
      assert IsOrReaches(h, resourceId, v, p);
    }
  }

  lemma StuckFails(h: History, resourceId: Text, x: Id)
    requires IsStuck(h, resourceId, x)
    ensures Origin(h, resourceId, x) == None
  {
    hide Plain, PlainAll, AllReadable, Contributors, ParentsOf;
    if IsInner(h, resourceId, x) {
      PlainWrapper(h, resourceId, x, {});
      PlainAllNone(h, resourceId, {} + {x});
    } else {
      PlainOther(h, resourceId, x, {});
    }
  }

  lemma PlainAllNone(h: History, resourceId: Text, path: set<Id>)
    ensures PlainAll(h, resourceId, [], path) == Some([])
  {
  }

  lemma LeavesNoLater(h: History, resourceId: Text, v: Id, o: Ordering)
    requires GreatestLeaf(h, resourceId, v, o)
    ensures forall l ::
              IsOrReaches(h, resourceId, v, l) && h.Known(l) && IsLeaf(h, l) ==> NoLater(LeafOrdering(h, l), o)
  {
    hide IsOrReaches, ShapeOf, Before, NoLater, History.Known;
    forall l | IsOrReaches(h, resourceId, v, l) && h.Known(l) && IsLeaf(h, l) ensures NoLater(LeafOrdering(h, l), o) {
      NoLaterMeans(LeafOrdering(h, l), o);
    }
  }

  /** The search answers exactly when the version rests on nothing it cannot see
      through and on no cycle, and then with the latest ordering among the
      leaves the version rests on. */
  lemma OriginMeaning(h: History, resourceId: Text, v: Id)
    requires h.Known(v)
    ensures Origin(h, resourceId, v) == None <==> Troubled(h, resourceId, v)
    ensures Origin(h, resourceId, v).Some? ==> GreatestLeaf(h, resourceId, v, Origin(h, resourceId, v).value)
    ensures Origin(h, resourceId, v).Some? ==>
              forall l :: IsOrReaches(h, resourceId, v, l) && h.Known(l) && IsLeaf(h, l) ==>
                NoLater(LeafOrdering(h, l), Origin(h, resourceId, v).value)
  {
    hide Plain, Contributes, GreatestLeaf, IsStuck, NoLater;
    if Origin(h, resourceId, v).Some? {
      GreatestUnder(h, resourceId, v, {});
      LeavesNoLater(h, resourceId, v, Origin(h, resourceId, v).value);
      if Troubled(h, resourceId, v) {
        var x :| IsOrReaches(h, resourceId, v, x) && (IsStuck(h, resourceId, x) || Reaches(h, resourceId, x, x));
        assert h.Known(x) && Origin(h, resourceId, x).Some? by {
          if x != v {
            var chain :| IsPath(h, resourceId, chain, v, x);
            AlongChain(h, resourceId, chain, {});
          }
        }
        NoCycle(h, resourceId, x);
        StuckFails(h, resourceId, x);
        assert false;
      }
    } else {
      TroubleUnder(h, resourceId, v, {});
    }
  }

  // ----- The memoised search -----

  const MAX_ORIGIN_VERSIONS := 64

  datatype ReadResult = Got(version: Option<Version>) | Exceeded

  datatype SearchResult = Answer(origin: Option<Ordering>) | OverLimit

  /** A set of at most 64 versions that holds every parent a search from it reads. */
  ghost predicate Enough(h: History, ids: set<Id>) {
    && |ids| <= MAX_ORIGIN_VERSIONS
    && forall u, v ::
         u in ids && h.Known(u) && ShapeOf(h.versions[u], h.Own(u)).Wrapper? && v in ParentsOf(h.versions[u]) ==>
           v in ids
  }

  /** A set that holds every version read before, the one searched from and all
      parents the search can ask for spares it the limit. */
  ghost predicate Within(h: History, v: Id, before: set<Id>, after: set<Id>, limited: bool) {
    forall ids :: Enough(h, ids) && v in ids && before <= ids ==> after <= ids && !limited
  }

  /** The same for a search from each of the first n tips. */
  ghost predicate WithinTips(h: History, tips: seq<Tip>, n: nat, before: set<Id>, after: set<Id>, limited: bool)
    requires n <= |tips|
  {
    forall ids ::
      Enough(h, ids) && before <= ids && (forall k :: 0 <= k < n ==> tips[k].versionId in ids) ==>
        after <= ids && !limited
  }

  datatype Tip = Tip(versionId: Id, semanticHash: Text)

  datatype Election = Elected(index: nat, origin: Ordering) | Waiting | Aborted

  predicate IsClaimed(d: Version, resourceId: Text, tip: Tip) {
    d.resourceId == resourceId && d.isChat && d.isPut && d.semanticHash == tip.semanticHash
  }

  /** The tip is a stored chat of this resource with the content it claims, and has
      an origin. */
  ghost predicate CanWin(h: History, resourceId: Text, tip: Tip) {
    && h.Known(tip.versionId)
    && var d := h.versions[tip.versionId];
    && d.resourceId == resourceId && d.isChat && d.isPut && d.semanticHash == tip.semanticHash
    && Origin(h, resourceId, tip.versionId).Some?
  }

  ghost predicate HasOrigin(h: History, resourceId: Text, v: Id, o: Ordering) {
    h.Known(v) && Origin(h, resourceId, v) == Some(o)
  }

  /** compareTips: like compareOrdering without the version. */
  predicate TipBefore(a: Ordering, b: Ordering) {
    Before(a.(versionId := []), b.(versionId := []))
  }

  /** compareOrdering of the origins, then compareTips of the tips. */
  predicate CandidateBefore(h: History, resourceId: Text, a: Tip, originA: Ordering, b: Tip, originB: Ordering)
    requires a.versionId in h.tips && b.versionId in h.tips
  {
    Before(originA, originB) || (!Before(originB, originA) && TipBefore(h.tips[a.versionId], h.tips[b.versionId]))
  }

  /** None of the first n candidates would be sorted before this one. */
  ghost predicate WinsOver(h: History, resourceId: Text, tips: seq<Tip>, winner: nat, n: nat)
    requires n <= |tips| && winner < |tips| && forall t :: t in tips ==> t.versionId in h.tips
  {
    forall k :: 0 <= k < n && CanWin(h, resourceId, tips[k]) && CanWin(h, resourceId, tips[winner]) ==>
      !CandidateBefore(h, resourceId, tips[k], Origin(h, resourceId, tips[k].versionId).value,
                       tips[winner], Origin(h, resourceId, tips[winner].versionId).value)
  }

  /** No candidate's origin is later than the elected one's; of those with origins of
      the same rank none is itself a later tip. */
  ghost predicate IsLatest(h: History, resourceId: Text, tips: seq<Tip>, winner: Tip, origin: Ordering)
    requires winner.versionId in h.tips && forall t :: t in tips ==> t.versionId in h.tips
  {
    forall t :: t in tips ==>
      && CanWin(h, resourceId, t) && NoLater(Origin(h, resourceId, t.versionId).value, origin)
      && (SameRank(Origin(h, resourceId, t.versionId).value, origin) ==>
            NoLater(h.tips[t.versionId].(versionId := []), h.tips[winner.versionId].(versionId := [])))
  }

  lemma WinnerIsLatest(h: History, resourceId: Text, tips: seq<Tip>, winner: nat, origin: Ordering)
    requires winner < |tips| && (forall t :: t in tips ==> t.versionId in h.tips)
    requires forall t :: t in tips ==> CanWin(h, resourceId, t)
    requires WinsOver(h, resourceId, tips, winner, |tips|)
    requires HasOrigin(h, resourceId, tips[winner].versionId, origin)
    ensures IsLatest(h, resourceId, tips, tips[winner], origin)
  {
    hide Origin, Before, NoLater, CanWin;
    assert forall t :: t in tips ==> h.Known(t.versionId) && Origin(h, resourceId, t.versionId).Some? by {
      WinnersKnown(h, resourceId, tips);
    }
    forall t | t in tips
      ensures NoLater(Origin(h, resourceId, t.versionId).value, origin)
      ensures SameRank(Origin(h, resourceId, t.versionId).value, origin) ==>
                NoLater(h.tips[t.versionId].(versionId := []), h.tips[tips[winner].versionId].(versionId := []))
    {
      var k :| 0 <= k < |tips| && tips[k] == t;
      NoLaterMeans(Origin(h, resourceId, t.versionId).value, origin);
      NoLaterMeans(h.tips[t.versionId].(versionId := []), h.tips[tips[winner].versionId].(versionId := []));
      BeforeIsTotal(Origin(h, resourceId, t.versionId).value, origin);
      BeforeIsTotal(origin, Origin(h, resourceId, t.versionId).value);
    }
  }

  lemma AllCanWin(h: History, resourceId: Text, tips: seq<Tip>)
    requires forall k :: 0 <= k < |tips| ==> CanWin(h, resourceId, tips[k])
    ensures forall t :: t in tips ==> CanWin(h, resourceId, t)
  {
    hide CanWin;
  }

  lemma WinnersKnown(h: History, resourceId: Text, tips: seq<Tip>)
    requires forall t :: t in tips ==> CanWin(h, resourceId, t)
    ensures forall t :: t in tips ==> h.Known(t.versionId) && Origin(h, resourceId, t.versionId).Some?
  {
    hide Origin, History.Known;
  }

  class OriginSearch {
    const history: History
    const resourceId: Text
    /** Whether a read over the limit throws, as it does for conflicts, or reads
        nothing, as it does for checkpoints. */
    const throws: bool
    var metadata: map<Id, Option<Version>>
    var origins: map<Id, Option<Ordering>>
    var visiting: set<Id>
    /** A read has been refused. */
    ghost var limited: bool

    constructor (history: History, resourceId: Text, throws: bool)
      requires history.Consistent()
      ensures Valid() && visiting == {} && metadata == map[] && origins == map[] && !limited
      ensures this.history == history && this.resourceId == resourceId && this.throws == throws
    {
      this.history, this.resourceId, this.throws := history, resourceId, throws;
      metadata, origins, visiting, limited := map[], map[], {}, false;
    }

    ghost predicate Valid()
      reads this
    {
      && history.Consistent()
      && |metadata| <= MAX_ORIGIN_VERSIONS
      && (forall v :: v in metadata ==> metadata[v] == Lookup(history, v))
      && (forall v :: v in origins ==> Remembered(v))
      && (visiting !! origins.Keys)
    }

    ghost predicate Remembered(v: Id)
      requires v in origins
      reads this`origins
    {
      history.Known(v) && origins[v] == Origin(history, resourceId, v)
    }

    method Read(v: Id) returns (r: ReadResult)
      requires Valid()
      modifies this`metadata, this`limited
      ensures Valid()
      ensures limited == (old(limited) || (v !in old(metadata) && |old(metadata)| == MAX_ORIGIN_VERSIONS))
      ensures if v in old(metadata) || |old(metadata)| < MAX_ORIGIN_VERSIONS
              then r == Got(Lookup(history, v)) && metadata == old(metadata)[v := Lookup(history, v)]
              else r == (if throws then Exceeded else Got(None)) && metadata == old(metadata)
    {
      hide Origin, Lookup;
      if v !in metadata {
        if |metadata| >= MAX_ORIGIN_VERSIONS {
          limited := true;
          return if throws then Exceeded else Got(None);
        }
        metadata := metadata[v := Lookup(history, v)];
      }
      return Got(metadata[v]);
    }

    method OriginalOrdering(data: Version, own: Ordering) returns (r: SearchResult)
      requires Valid() && !limited
      requires history.Known(own.versionId) && data == history.versions[own.versionId]
      requires own == history.Own(own.versionId)
      requires visiting <= history.versions.Keys
      requires forall u :: u in visiting ==> Reaches(history, resourceId, u, own.versionId)
      modifies this`metadata, this`origins, this`visiting, this`limited
      ensures Valid()
      ensures !limited ==> r == Answer(Origin(history, resourceId, own.versionId))
      ensures limited ==> r == if throws then OverLimit else Answer(None)
      ensures r.Answer? && r.origin.Some? ==> visiting == old(visiting)
      ensures Within(history, own.versionId, old(metadata.Keys), metadata.Keys, limited)
      decreases |history.versions.Keys - visiting|, 1
    {
      hide Origin, Plain, PlainAll, Contributors, ParentsOf, Reaches, Contributes, Enough, AllReadable;
      var v := own.versionId;
      if v in origins {
        return Answer(origins[v]);
      }
      if v in visiting {
        if Origin(history, resourceId, v).Some? {
          NoCycle(history, resourceId, v);
          assert false;
        }
        return Answer(None);
      }
      OriginHere(history, resourceId, v);
      var stored := data.metadata.chatResolutionOrigin;
      if stored.StoredOrigin? && stored.ordering.lamport <= own.lamport && data.metadata.hasResolutionCoreHash {
        Remember(v, Some(stored.ordering));
        return Answer(Some(stored.ordering));
      }
      if stored != NoOrigin {
        return Answer(None);
      }
      var origin := data.metadata.effectiveOrigin;
      if !IsMarker(data) && origin != Some("agent-kv-enrichment") && origin != Some("auto-merge") {
        var result := if data.ordering.Some? then data.ordering.value else own;
        Remember(v, Some(result));
        return Answer(Some(result));
      }
      r := SearchParents(data, own);
    }

    method ReadParents(data: Version, ghost v: Id) returns (ok: bool, threw: bool, parents: seq<Version>)
      requires Valid() && !limited && history.Known(v) && data == history.versions[v]
      requires ShapeOf(data, history.Own(v)).Wrapper?
      modifies this`metadata, this`limited
      ensures Valid()
      ensures ok ==>
                !limited && AllReadable(history, resourceId, ParentsOf(data))
                && IsVersions(history, ParentsOf(data), parents)
      ensures !ok && !limited ==> !AllReadable(history, resourceId, ParentsOf(data))
      ensures threw <==> limited && throws
      ensures Within(history, v, old(metadata.Keys), metadata.Keys, limited)
    {
      hide Origin, ParentsOf, Within, ShapeOf, Remembered, ReadTo, AllReadable, IsVersions;
      ReadNone(history, resourceId, ParentsOf(data));
      var ids := ParentsOf(data);
      WithinAlready(history, v, metadata.Keys);
      parents := [];
      for i := 0 to |ids|
        invariant Valid() && !limited && ReadTo(history, resourceId, ids, parents, i)
        invariant Within(history, v, old(metadata.Keys), metadata.Keys, limited)
      {
        ghost var known := metadata.Keys;
        var parent := Read(ids[i]);
        ReadWithin(history, v, ids[i], old(metadata.Keys), known, metadata.Keys, limited);
        if parent.Exceeded? || !IsReadable(parent.version, resourceId) {
          if !limited {
            ReadStuck(history, resourceId, ids, i);
          }
          return false, parent.Exceeded?, [];
        }
        ReadStep(history, resourceId, ids, parents, i);
        parents := parents + [parent.version.value];
      }
      ReadAll(history, resourceId, ids, parents);
      return true, false, parents;
    }

    /** The search goes on into the parents a wrapper takes its ordering from. */
    method SearchParents(data: Version, own: Ordering) returns (r: SearchResult)
      requires Valid() && !limited
      requires history.Known(own.versionId) && data == history.versions[own.versionId]
      requires own == history.Own(own.versionId)
      requires visiting <= history.versions.Keys
      requires forall u :: u in visiting ==> Reaches(history, resourceId, u, own.versionId)
      requires ShapeOf(data, own).Wrapper? && own.versionId !in visiting && own.versionId !in origins
      modifies this`metadata, this`origins, this`visiting, this`limited
      ensures Valid()
      ensures !limited ==> r == Answer(Origin(history, resourceId, own.versionId))
      ensures limited ==> r == if throws then OverLimit else Answer(None)
      ensures r.Answer? && r.origin.Some? ==> visiting == old(visiting)
      ensures Within(history, own.versionId, old(metadata.Keys), metadata.Keys, limited)
      decreases |history.versions.Keys - visiting|, 0
    {
      hide Origin, Plain, PlainAll, Contributors, ParentsOf, Reaches, Contributes, Within, AllReadable, ShapeOf;
      hide Remembered, First, IsVersions, Answered, ContributorVersions, IsReadable;
      ghost var before := visiting;
      var v := own.versionId;
      Smaller(history.versions.Keys, visiting, v);
      visiting := visiting + {v};
      var ok, threw, parents := ReadParents(data, v);
      if !ok {
        if !limited {
          OriginHere(history, resourceId, v);
        }
        return if threw then OverLimit else Answer(None);
      }
      var contributors := ContributorVersions(data, parents);
      ContributorsMatch(history, resourceId, data, parents);
      ghost var ids := Contributors(history, resourceId, data);
      InnerEdges(history, resourceId, v);
      ghost var known := metadata.Keys;
      r := SearchContributors(v, contributors, ids, before);
      WithinBoth(history, v, old(metadata.Keys), known, metadata.Keys, limited);
    }

    /** The first of the contributors' origins is the wrapper's. */
    method SearchContributors(v: Id, contributors: seq<Version>, ghost ids: seq<Id>, ghost before: set<Id>)
      returns (r: SearchResult)
      requires Valid() && !limited && v !in before && visiting == before + {v}
      requires history.Known(v) && IsInner(history, resourceId, v)
      requires ids == Contributors(history, resourceId, history.versions[v]) && IsVersions(history, ids, contributors)
      requires forall c :: c in ids ==> history.Known(c) && history.versions[c].ordering.Some?
      requires visiting <= history.versions.Keys && forall u :: u in before ==> Reaches(history, resourceId, u, v)
      modifies this`metadata, this`origins, this`visiting, this`limited
      ensures Valid()
      ensures !limited ==> r == Answer(Origin(history, resourceId, v))
      ensures limited ==> r == if throws then OverLimit else Answer(None)
      ensures r.Answer? && r.origin.Some? ==> visiting == before
      ensures Within(history, v, old(metadata.Keys), metadata.Keys, limited)
      decreases |history.versions.Keys - visiting|, 3
    {
      hide Origin, Plain, PlainAll, Contributors, ParentsOf, Reaches, Contributes, Within, AllReadable, ShapeOf;
      hide Remembered, First, IsVersions, Answered, IsInner, IsReadable;
      var failure, originals := SearchEach(v, contributors, ids);
      if failure.Some? {
        return failure.value;
      }
      visiting := visiting - {v};
      assert visiting == before;
      var result := First(originals);
      WrapperAnswer(history, resourceId, v, originals);
      Remember(v, result);
      return Answer(result);
    }

    method Remember(v: Id, origin: Option<Ordering>)
      requires Valid() && history.Known(v) && v !in visiting && origin == Origin(history, resourceId, v)
      modifies this`origins
      ensures Valid() && origins == old(origins)[v := origin]
    {
      hide Origin;
      origins := origins[v := origin];
    }

    /** The search of every contributor, up to the first without an answer. */
    method SearchEach(v: Id, contributors: seq<Version>, ghost ids: seq<Id>)
      returns (failure: Option<SearchResult>, originals: seq<Ordering>)
      requires Valid() && !limited
      requires history.Known(v) && IsInner(history, resourceId, v) && v in visiting
      requires ids == Contributors(history, resourceId, history.versions[v]) && IsVersions(history, ids, contributors)
      requires forall c :: c in ids ==> history.Known(c) && history.versions[c].ordering.Some?
      requires visiting <= history.versions.Keys
      requires forall u :: u in visiting && u != v ==> Reaches(history, resourceId, u, v)
      modifies this`metadata, this`origins, this`visiting, this`limited
      ensures Valid() && Within(history, v, old(metadata.Keys), metadata.Keys, limited)
      ensures failure == None ==> !limited && visiting == old(visiting) && |originals| == |ids|
      ensures failure == None ==> Answered(history, resourceId, ids, originals)
      ensures failure.Some? && !limited ==> failure.value == Answer(None) && Origin(history, resourceId, v) == None
      ensures failure.Some? && limited ==> failure.value == if throws then OverLimit else Answer(None)
      decreases |history.versions.Keys - visiting|, 2
    {
      hide Origin, Plain, PlainAll, Contributors, ParentsOf, Reaches, Contributes, Within, AllReadable, ShapeOf;
      hide Remembered, IsInner, First, Answered;
      InnerEdges(history, resourceId, v);
      originals := [];
      NoneAnswered(history, resourceId, ids);
      WithinAlready(history, v, metadata.Keys);
      for i := 0 to |contributors|
        invariant Valid() && !limited && visiting == old(visiting) && |originals| == i
        invariant Answered(history, resourceId, ids, originals)
        invariant Within(history, v, old(metadata.Keys), metadata.Keys, limited)
      {
        var parent := contributors[i];
        ChainGrows(history, resourceId, visiting - {v}, v, ids[i]);
        assert parent == history.versions[ids[i]] && parent.ordering.value.versionId == ids[i];
        ghost var known := metadata.Keys;
        var result := OriginalOrdering(parent, parent.ordering.value);
        WithinStep(history, resourceId, v, ids[i], old(metadata.Keys), known, metadata.Keys, limited);
        if result.OverLimit? || result.origin == None {
          if !limited {
            WrapperNone(history, resourceId, v, ids[i]);
          }
          return Some(result), [];
        }
        AnsweredStep(history, resourceId, ids, originals, result.origin.value);
        originals := originals + [result.origin.value];
      }
      return None, originals;
    }

    /** A fresh search from a tip that must be the version it claims to be. */
    method TipOrigin(tip: Tip) returns (r: SearchResult)
      requires Valid() && !limited && tip.versionId in history.tips
      modifies this
      ensures Valid()
      ensures limited ==> r == if throws then OverLimit else Answer(None)
      ensures !limited ==> r.Answer? && (r.origin.Some? <==> CanWin(history, resourceId, tip))
      ensures r.Answer? && r.origin.Some? ==> !limited && HasOrigin(history, resourceId, tip.versionId, r.origin.value)
      ensures Within(history, tip.versionId, old(metadata.Keys), metadata.Keys, limited)
    {
      hide Origin, Remembered, Within;
      var data := Read(tip.versionId);
      ReadFirst(history, tip.versionId, old(metadata.Keys), metadata.Keys, limited);
      if data.Exceeded? {
        return OverLimit;
      }
      if data.version == None || !IsClaimed(data.version.value, resourceId, tip) {
        return Answer(None);
      }
      visiting := {};
      OwnOfTip(history, tip.versionId);
      ghost var read := metadata.Keys;
      r := OriginalOrdering(data.version.value, history.tips[tip.versionId]);
      WithinBoth(history, tip.versionId, old(metadata.Keys), read, metadata.Keys, limited);
    }

    /** Every tip must be readable, be the version it claims and have an origin;
        the latest is the one whose origin comes first, tips with origins of the
        same rank being compared themselves. */
    method ElectLatest(tips: seq<Tip>) returns (r: Election)
      requires Valid() && !limited && forall t :: t in tips ==> t.versionId in history.tips
      modifies this
      ensures Valid()
      ensures limited ==> r == if throws then Aborted else Waiting
      ensures !limited ==> (r.Elected? <==> tips != [] && forall t :: t in tips ==> CanWin(history, resourceId, t))
      ensures !limited && !r.Elected? ==> r.Waiting?
      ensures r.Elected? ==> r.index < |tips| && WinsOver(history, resourceId, tips, r.index, |tips|)
      ensures r.Elected? ==> HasOrigin(history, resourceId, tips[r.index].versionId, r.origin)
      ensures r.Elected? ==> IsLatest(history, resourceId, tips, tips[r.index], r.origin)
      ensures WithinTips(history, tips, |tips|, old(metadata.Keys), metadata.Keys, limited)
    {
      hide Origin, Remembered, WinsOver, IsLatest, CandidateBefore, Within, WithinTips, CanWin, History.Consistent;
      var best := Waiting;
      NoTips(history, tips, metadata.Keys);
      for i := 0 to |tips|
        invariant Valid() && !limited && !best.Aborted? && (best.Elected? <==> i > 0)
        invariant forall k :: 0 <= k < i ==> CanWin(history, resourceId, tips[k])
        invariant WithinTips(history, tips, i, old(metadata.Keys), metadata.Keys, false)
        invariant best.Elected? ==> best.index < i && WinsOver(history, resourceId, tips, best.index, i)
        invariant best.Elected? ==> HasOrigin(history, resourceId, tips[best.index].versionId, best.origin)
      {
        var tip := tips[i];
        ghost var read := metadata.Keys;
        var origin := TipOrigin(tip);
        OneMoreTip(history, tips, i, old(metadata.Keys), read, metadata.Keys, limited);
        if origin.OverLimit? {
          return Aborted;
        }
        if origin.origin == None {
          return Waiting;
        }
        if best.Waiting? {
          FirstCandidate(history, resourceId, tips);
          best := Elected(i, origin.origin.value);
        } else {
          NextCandidate(history, resourceId, tips, best.index, i);
          if CandidateBefore(history, resourceId, tip, origin.origin.value, tips[best.index], best.origin) {
            best := Elected(i, origin.origin.value);
          }
        }
      }
      if best.Elected? {
        AllCanWin(history, resourceId, tips);
        WinnerIsLatest(history, resourceId, tips, best.index, best.origin);
      }
      return best;
    }
  }

  lemma OriginHere(h: History, resourceId: Text, v: Id)
    requires h.Known(v)
    ensures !IsInner(h, resourceId, v) ==>
      Origin(h, resourceId, v) == match ShapeOf(h.versions[v], h.Own(v)) case Leaf(o) => Some(o) case _ => None
  {
    hide Plain, ShapeOf, AllReadable, ParentsOf;
    if !IsInner(h, resourceId, v) {
      PlainOther(h, resourceId, v, {});
    }
  }

  ghost predicate IsVersions(h: History, ids: seq<Id>, versions: seq<Version>) {
    |ids| == |versions| && forall i :: 0 <= i < |ids| ==> ids[i] in h.versions && versions[i] == h.versions[ids[i]]
  }

  lemma ParentInEnough(h: History, v: Id, parent: Id)
    requires h.Known(v) && ShapeOf(h.versions[v], h.Own(v)).Wrapper? && parent in ParentsOf(h.versions[v])
    ensures forall ids :: Enough(h, ids) && v in ids ==> parent in ids
  {
    hide ShapeOf, ParentsOf, History.Known;
  }

  /** The first i parents are readable, and these are they. */
  ghost predicate ReadTo(h: History, resourceId: Text, ids: seq<Id>, parents: seq<Version>, i: nat) {
    |parents| == i <= |ids|
    && forall j :: 0 <= j < i ==> IsReadable(Lookup(h, ids[j]), resourceId) && parents[j] == h.versions[ids[j]]
  }

  lemma ReadNone(h: History, resourceId: Text, ids: seq<Id>)
    ensures ReadTo(h, resourceId, ids, [], 0)
  {
  }

  lemma ReadStep(h: History, resourceId: Text, ids: seq<Id>, parents: seq<Version>, i: nat)
    requires ReadTo(h, resourceId, ids, parents, i) && i < |ids| && IsReadable(Lookup(h, ids[i]), resourceId)
    ensures ReadTo(h, resourceId, ids, parents + [h.versions[ids[i]]], i + 1)
  {
  }

  lemma ReadAll(h: History, resourceId: Text, ids: seq<Id>, parents: seq<Version>)
    requires ReadTo(h, resourceId, ids, parents, |ids|)
    ensures AllReadable(h, resourceId, ids) && IsVersions(h, ids, parents)
  {
  }

  lemma ReadStuck(h: History, resourceId: Text, ids: seq<Id>, i: nat)
    requires i < |ids| && !IsReadable(Lookup(h, ids[i]), resourceId)
    ensures !AllReadable(h, resourceId, ids)
  {
  }

  /** Reading a parent is refused only when no such set has it. */
  lemma ReadWithin(h: History, v: Id, parent: Id, first: set<Id>, known: set<Id>, after: set<Id>, limited: bool)
    requires h.Known(v) && ShapeOf(h.versions[v], h.Own(v)).Wrapper? && parent in ParentsOf(h.versions[v])
    requires Within(h, v, first, known, false) && after <= known + {parent}
    requires limited ==> parent !in known && |known| == MAX_ORIGIN_VERSIONS
    ensures Within(h, v, first, after, limited)
  {
    ParentInEnough(h, v, parent);
    hide ShapeOf, ParentsOf, History.Known;
    forall ids | Enough(h, ids) && v in ids && first <= ids ensures after <= ids && !limited {
      if limited {
        StrictSubset(known, ids, parent);
      }
    }
  }

  lemma StrictSubset<T>(a: set<T>, b: set<T>, x: T)
    requires a <= b && x in b && x !in a
    ensures |a| < |b|
  {
    assert b == a + (b - a);
    assert x in b - a;
  }

  // ----- The parents a merge takes its ordering from -----

  function Select(list: seq<Version>, keep: Version -> bool): seq<Version> {
    if list == [] then [] else (if keep(list[0]) then [list[0]] else []) + Select(list[1..], keep)
  }

  function ContributorVersions(data: Version, parents: seq<Version>): seq<Version> {
    var exactParents := if IsMerge(data) then Select(parents, p => ExactParent(data, p)) else [];
    var coreParents := if IsMerge(data) then Select(parents, p => CoreParent(data, p)) else [];
    if exactParents != [] then exactParents else if coreParents != [] then coreParents else parents
  }

  lemma {:induction false} SelectKeeps(h: History, ids: seq<Id>, list: seq<Version>, keep: Version -> bool)
    requires IsVersions(h, ids, list)
    requires forall v :: v in ids ==> v in h.versions
    ensures IsVersions(h, Keep(h, ids, keep), Select(list, keep))
  {
    if ids != [] {
      SelectKeeps(h, ids[1..], list[1..], keep);
    }
  }

  lemma ContributorsMatch(h: History, resourceId: Text, data: Version, parents: seq<Version>)
    requires AllReadable(h, resourceId, ParentsOf(data)) && IsVersions(h, ParentsOf(data), parents)
    ensures IsVersions(h, Contributors(h, resourceId, data), ContributorVersions(data, parents))
    ensures forall v :: v in Contributors(h, resourceId, data) ==> h.Known(v) && h.versions[v].ordering.Some?
  {
    hide ParentsOf, ExactParent, CoreParent;
    var ids := ParentsOf(data);
    SelectKeeps(h, ids, parents, p => ExactParent(data, p));
    SelectKeeps(h, ids, parents, p => CoreParent(data, p));
  }

  lemma ChainGrows(h: History, resourceId: Text, before: set<Id>, v: Id, c: Id)
    requires Contributes(h, resourceId, v, c) && forall u :: u in before ==> Reaches(h, resourceId, u, v)
    ensures forall u :: u in before + {v} ==> Reaches(h, resourceId, u, c)
  {
    hide Contributes, Reaches;
    OneEdge(h, resourceId, v, c);
    forall u | u in before ensures Reaches(h, resourceId, u, c) {
      EdgeLast(h, resourceId, u, v, c);
    }
  }

  lemma ParentsEnough(h: History, resourceId: Text, v: Id, c: Id)
    requires Contributes(h, resourceId, v, c)
    ensures forall ids :: Enough(h, ids) && v in ids ==> c in ids
  {
    hide ShapeOf, ParentsOf, Enough, Contributors;
    ContributorsReadable(h, resourceId, h.versions[v]);
    ParentInEnough(h, v, c);
  }

  /** The origins of the first ids. */
  ghost predicate Answered(h: History, resourceId: Text, ids: seq<Id>, originals: seq<Ordering>)
    requires forall c :: c in ids ==> h.Known(c)
  {
    |originals| <= |ids| && forall j :: 0 <= j < |originals| ==> Origin(h, resourceId, ids[j]) == Some(originals[j])
  }

  lemma NoneAnswered(h: History, resourceId: Text, ids: seq<Id>)
    requires forall c :: c in ids ==> h.Known(c)
    ensures Answered(h, resourceId, ids, [])
  {
  }

  lemma AnsweredStep(h: History, resourceId: Text, ids: seq<Id>, originals: seq<Ordering>, o: Ordering)
    requires (forall c :: c in ids ==> h.Known(c)) && Answered(h, resourceId, ids, originals)
    requires |originals| < |ids| && Origin(h, resourceId, ids[|originals|]) == Some(o)
    ensures Answered(h, resourceId, ids, originals + [o])
  {
    hide Origin;
  }

  lemma WithinAlready(h: History, v: Id, keys: set<Id>)
    ensures Within(h, v, keys, keys, false)
  {
  }

  lemma WithinBoth(h: History, v: Id, first: set<Id>, before: set<Id>, after: set<Id>, limited: bool)
    requires Within(h, v, first, before, false) && Within(h, v, before, after, limited)
    ensures Within(h, v, first, after, limited)
  {
    hide Enough;
  }

  lemma WithinStep(h: History, resourceId: Text, v: Id, c: Id, first: set<Id>, before: set<Id>, after: set<Id>,
                   limited: bool)
    requires Contributes(h, resourceId, v, c) && Within(h, v, first, before, false)
    requires Within(h, c, before, after, limited)
    ensures Within(h, v, first, after, limited)
  {
    hide Contributes, Enough;
    ParentsEnough(h, resourceId, v, c);
  }

  lemma WrapperAnswer(h: History, resourceId: Text, v: Id, originals: seq<Ordering>)
    requires h.Known(v) && IsInner(h, resourceId, v) && |originals| == |Contributors(h, resourceId, h.versions[v])|
    requires (forall c :: c in Contributors(h, resourceId, h.versions[v]) ==> h.Known(c))
    requires Answered(h, resourceId, Contributors(h, resourceId, h.versions[v]), originals)
    ensures Origin(h, resourceId, v) == First(originals)
  {
    OriginOfWrapper(h, resourceId, v);
    hide Plain, PlainAll, Contributors, ParentsOf, ShapeOf, AllReadable, History.Known, First;
    var ids := Contributors(h, resourceId, h.versions[v]);
    PlainAllParts(h, resourceId, ids, {});
    SameSeq(originals, PlainAll(h, resourceId, ids, {}).value,
            i => if 0 <= i < |ids| then Origin(h, resourceId, ids[i]) else None);
  }

  lemma WrapperNone(h: History, resourceId: Text, v: Id, c: Id)
    requires Contributes(h, resourceId, v, c) && h.Known(c) && Origin(h, resourceId, c) == None
    ensures Origin(h, resourceId, v) == None
  {
    OriginOfWrapper(h, resourceId, v);
    hide Plain, PlainAll, ParentsOf, ShapeOf, AllReadable, First;
    PlainAllParts(h, resourceId, Contributors(h, resourceId, h.versions[v]), {});
  }

  // ----- The election -----

  lemma ReadFirst(h: History, v: Id, before: set<Id>, after: set<Id>, limited: bool)
    requires after <= before + {v} && (limited ==> v !in before && |before| == MAX_ORIGIN_VERSIONS)
    ensures Within(h, v, before, after, limited)
  {
    hide ShapeOf, ParentsOf, History.Known;
    forall ids | Enough(h, ids) && v in ids && before <= ids ensures after <= ids && !limited {
      if limited {
        StrictSubset(before, ids, v);
      }
    }
  }

  lemma NoTips(h: History, tips: seq<Tip>, keys: set<Id>)
    ensures WithinTips(h, tips, 0, keys, keys, false)
  {
  }

  lemma OneMoreTip(h: History, tips: seq<Tip>, i: nat, first: set<Id>, before: set<Id>, after: set<Id>, limited: bool)
    requires i < |tips| && WithinTips(h, tips, i, first, before, false)
    requires Within(h, tips[i].versionId, before, after, limited)
    ensures WithinTips(h, tips, i + 1, first, after, limited)
    ensures WithinTips(h, tips, |tips|, first, after, limited)
  {
    hide Enough;
  }

  lemma OwnOfTip(h: History, v: Id)
    requires h.Consistent() && v in h.tips && v in h.versions
    ensures h.Known(v) && h.tips[v] == h.Own(v) && h.tips[v].versionId == v
  {
  }

  lemma CandidateOrder(h: History, resourceId: Text, a: Tip, x: Ordering, b: Tip, y: Ordering, c: Tip, z: Ordering)
    requires a.versionId in h.tips && b.versionId in h.tips && c.versionId in h.tips
    ensures !CandidateBefore(h, resourceId, a, x, a, x)
    ensures CandidateBefore(h, resourceId, a, x, b, y) ==> !CandidateBefore(h, resourceId, b, y, a, x)
    ensures !CandidateBefore(h, resourceId, a, x, b, y) && !CandidateBefore(h, resourceId, b, y, c, z) ==>
              !CandidateBefore(h, resourceId, a, x, c, z)
  {
    hide Before;
    var p, q := h.tips[a.versionId].(versionId := []), h.tips[b.versionId].(versionId := []);
    var r := h.tips[c.versionId].(versionId := []);
    BeforeIsTotal(x, x);
    BeforeIsTotal(x, y);
    BeforeIsTotal(p, p);
    BeforeIsTotal(p, q);
    if !CandidateBefore(h, resourceId, a, x, b, y) && !CandidateBefore(h, resourceId, b, y, c, z) {
      BeforeNegative(x, y, z);
      if !Before(z, x) {
        BeforeNegative(y, z, x);
        BeforeNegative(z, x, y);
        BeforeNegative(p, q, r);
      }
    }
  }

  lemma FirstCandidate(h: History, resourceId: Text, tips: seq<Tip>)
    requires tips != [] && forall t :: t in tips ==> t.versionId in h.tips
    ensures WinsOver(h, resourceId, tips, 0, 1)
  {
    hide Origin, CandidateBefore;
    if CanWin(h, resourceId, tips[0]) {
      var o := Origin(h, resourceId, tips[0].versionId).value;
      CandidateOrder(h, resourceId, tips[0], o, tips[0], o, tips[0], o);
    }
  }

  lemma NextCandidate(h: History, resourceId: Text, tips: seq<Tip>, best: nat, i: nat)
    requires best < i < |tips| && (forall t :: t in tips ==> t.versionId in h.tips)
    requires WinsOver(h, resourceId, tips, best, i)
    requires CanWin(h, resourceId, tips[best]) && CanWin(h, resourceId, tips[i])
    ensures if CandidateBefore(h, resourceId, tips[i], Origin(h, resourceId, tips[i].versionId).value,
                               tips[best], Origin(h, resourceId, tips[best].versionId).value)
            then WinsOver(h, resourceId, tips, i, i + 1) else WinsOver(h, resourceId, tips, best, i + 1)
  {
    hide Origin, CandidateBefore;
    var a, b := tips[i], tips[best];
    var x, y := Origin(h, resourceId, a.versionId).value, Origin(h, resourceId, b.versionId).value;
    if CandidateBefore(h, resourceId, a, x, b, y) {
      forall k | 0 <= k < i + 1 && CanWin(h, resourceId, tips[k])
        ensures !CandidateBefore(h, resourceId, tips[k], Origin(h, resourceId, tips[k].versionId).value, a, x)
      {
        var c, z := tips[k], Origin(h, resourceId, tips[k].versionId).value;
        CandidateOrder(h, resourceId, a, x, b, y, b, y);
        CandidateOrder(h, resourceId, c, z, b, y, a, x);
        CandidateOrder(h, resourceId, a, x, a, x, a, x);
      }
    }
  }

  /** A version that records its origin has it, whatever its history. */
  lemma RecordedOrigin(h: History, resourceId: Text, v: Id, o: Ordering)
    requires h.Known(v) && h.versions[v].metadata.chatResolutionOrigin == StoredOrigin(o)
    requires h.versions[v].metadata.hasResolutionCoreHash && o.lamport <= h.Own(v).lamport
    ensures Origin(h, resourceId, v) == Some(o)
  {
  }

  /** Electing in stages: when some versions are first resolved into one that
      records the first of their origins, that one and the others have the same
      first origin as all of them at once. */
  lemma StagedElection(h: History, resourceId: Text, early: seq<Id>, late: seq<Id>, resolved: Id)
    requires forall v :: v in early + late ==> h.Known(v) && Origin(h, resourceId, v).Some?
    requires early != [] && h.Known(resolved)
    requires (forall v :: v in early ==> h.Known(v)) && PlainAll(h, resourceId, early, {}).Some?
    requires Origin(h, resourceId, resolved) == First(PlainAll(h, resourceId, early, {}).value)
    ensures (forall v :: v in [resolved] + late ==> h.Known(v))
    ensures PlainAll(h, resourceId, early + late, {}).Some? && PlainAll(h, resourceId, [resolved] + late, {}).Some?
    ensures First(PlainAll(h, resourceId, [resolved] + late, {}).value) ==
              First(PlainAll(h, resourceId, early + late, {}).value)
  {
    hide First, Plain, PlainAll, History.Known;
    assert forall v :: v in late ==> v in early + late;
    PlainAllJoin(h, resourceId, early, late);
    PlainAllParts(h, resourceId, early, {});
    var a, b := PlainAll(h, resourceId, early, {}).value, PlainAll(h, resourceId, late, {}).value;
    FirstIsGreatest(a);
    PlainAllJoin(h, resourceId, [resolved], late);
    PlainAllOne(h, resourceId, resolved);
    FirstInStages(a, b);
  }

  /** The origin a resolution of these versions records: that of the candidate whose
      content it repeats, if it repeats one, else the first of all. */
  ghost function RecordedFor(h: History, resourceId: Text, early: seq<Id>, exact: Option<nat>): Option<Ordering>
    requires (forall v :: v in early ==> h.Known(v)) && (exact.Some? ==> exact.value < |early|)
  {
    if exact.Some? then Origin(h, resourceId, early[exact.value])
    else
      match PlainAll(h, resourceId, early, {})
      case None => None
      case Some(origins) => First(origins)
  }

  /** The version records that origin in a form the search accepts. */
  ghost predicate Records(h: History, v: Id, o: Ordering) {
    && h.Known(v) && h.versions[v].metadata.chatResolutionOrigin == StoredOrigin(o)
    && h.versions[v].metadata.hasResolutionCoreHash && o.lamport <= h.Own(v).lamport
  }

  /** The resolved version and the later ones have the same first origin as all the
      versions at once. */
  ghost predicate SameElection(h: History, resourceId: Text, early: seq<Id>, late: seq<Id>, resolved: Id)
    requires forall v :: v in early + late ==> h.Known(v)
    requires h.Known(resolved)
  {
    assert forall v :: v in [resolved] + late ==> h.Known(v);
    match (PlainAll(h, resourceId, [resolved] + late, {}), PlainAll(h, resourceId, early + late, {}))
    case (Some(staged), Some(whole)) => First(staged) == First(whole)
    case _ => false
  }

  /** Resolving in stages elects as resolving at once does, whatever comes later,
      exactly when the recorded origin is the first of them all; so always, unless
      the resolution repeats a candidate of an older origin. */
  lemma StagedResolution(h: History, resourceId: Text, early: seq<Id>, exact: Option<nat>, resolved: Id, late: seq<Id>)
    requires early != [] && (forall v :: v in early + late ==> h.Known(v) && Origin(h, resourceId, v).Some?)
    requires (forall v :: v in early ==> v in early + late) && (exact.Some? ==> exact.value < |early|)
    requires RecordedFor(h, resourceId, early, exact).Some?
    requires Records(h, resolved, RecordedFor(h, resourceId, early, exact).value)
    ensures PlainAll(h, resourceId, early, {}).Some?
    ensures RecordedFor(h, resourceId, early, exact) == First(PlainAll(h, resourceId, early, {}).value) ==>
              SameElection(h, resourceId, early, late, resolved)
    ensures (forall v :: v in early + [] ==> h.Known(v)) && SameElection(h, resourceId, early, [], resolved) ==>
              RecordedFor(h, resourceId, early, exact) == First(PlainAll(h, resourceId, early, {}).value)
  {
    hide First, Plain, PlainAll, History.Known;
    var recorded := RecordedFor(h, resourceId, early, exact);
    RecordedOrigin(h, resourceId, resolved, recorded.value);
    PlainAllParts(h, resourceId, early, {});
    if recorded == First(PlainAll(h, resourceId, early, {}).value) {
      StagedElection(h, resourceId, early, late, resolved);
    }
    PlainAllOne(h, resourceId, resolved);
    assert early + [] == early && [resolved] + [] == [resolved];
    FirstOfOne(recorded.value);
  }

  lemma FirstOfOne(o: Ordering)
    ensures First([o]) == Some(o)
  {
  }

  lemma PlainAllOne(h: History, resourceId: Text, v: Id)
    requires h.Known(v) && Origin(h, resourceId, v).Some?
    ensures PlainAll(h, resourceId, [v], {}) == Some([Origin(h, resourceId, v).value])
  {
    hide Plain, PlainAll;
    PlainAllParts(h, resourceId, [v], {});
    assert [v][0] == v;
    var origins := PlainAll(h, resourceId, [v], {}).value;
    assert origins == [origins[0]];
  }

  lemma PlainAllJoin(h: History, resourceId: Text, a: seq<Id>, b: seq<Id>)
    requires forall v :: v in a || v in b ==> h.Known(v) && Plain(h, resourceId, v, {}).Some?
    ensures PlainAll(h, resourceId, a, {}).Some? && PlainAll(h, resourceId, b, {}).Some?
    ensures PlainAll(h, resourceId, a + b, {}) ==
              Some(PlainAll(h, resourceId, a, {}).value + PlainAll(h, resourceId, b, {}).value)
  {
    hide Plain, PlainAll, History.Known;
    PlainAllParts(h, resourceId, a, {});
    PlainAllParts(h, resourceId, b, {});
    PlainAllParts(h, resourceId, a + b, {});
    SameSeq(PlainAll(h, resourceId, a + b, {}).value,
            PlainAll(h, resourceId, a, {}).value + PlainAll(h, resourceId, b, {}).value,
            i => if 0 <= i < |a + b| then Plain(h, resourceId, (a + b)[i], {}) else None);
  }
}
