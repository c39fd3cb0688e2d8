/** What each kind of version inherits, in terms of its recorded properties alone:
    originalOrdering of src/chat/conflictResolution.ts. */
module Ancestry {
  import opened Basics
  import opened Origins

  /** A version of the chat that the search may look through to. */
  ghost predicate MayInherit(h: History, resourceId: Text, v: Id) {
    v in h.versions && h.versions[v].resourceId == resourceId && h.versions[v].isChat && h.versions[v].ordering.Some?
  }

  /** The latest origin of these versions, if they all have one. */
  ghost predicate LatestOf(h: History, resourceId: Text, from: set<Id>, o: Option<Ordering>)
    requires forall c :: c in from ==> h.Known(c)
  {
    match o
    case None => from == {} || exists c :: c in from && Origin(h, resourceId, c) == None
    case Some(latest) =>
      && (exists c :: c in from && Origin(h, resourceId, c) == o)
      && forall c :: c in from ==>
           Origin(h, resourceId, c).Some? && NoLater(Origin(h, resourceId, c).value, latest)
  }

  /** A version of a chat somebody edited: no recorded resolution, no marker, no
      enrichment and no merge. */
  lemma EditedOrigin(h: History, resourceId: Text, v: Id)
    requires h.Known(v) && h.versions[v].metadata.chatResolutionOrigin == NoOrigin
    requires h.versions[v].metadata.syncOrigin != Some("checkpoint-marker")
    requires h.versions[v].metadata.effectiveOrigin != Some("agent-kv-enrichment")
    requires h.versions[v].metadata.effectiveOrigin != Some("auto-merge")
    ensures Origin(h, resourceId, v) ==
              Some(if h.versions[v].ordering.Some? then h.versions[v].ordering.value else h.tips[v])
  {
    OriginHere(h, resourceId, v);
  }

  /** A recorded resolution counts exactly when its time is not in the version's
      future and it names a core. */
  lemma ResolvedOrigin(h: History, resourceId: Text, v: Id, o: Ordering)
    requires h.Known(v) && h.versions[v].metadata.chatResolutionOrigin == StoredOrigin(o)
    ensures Origin(h, resourceId, v) ==
              if o.lamport <= h.Own(v).lamport && h.versions[v].metadata.hasResolutionCoreHash then Some(o) else None
  {
    OriginHere(h, resourceId, v);
  }

  lemma BadResolution(h: History, resourceId: Text, v: Id)
    requires h.Known(v) && h.versions[v].metadata.chatResolutionOrigin == BadOrigin
    ensures Origin(h, resourceId, v) == None
  {
    OriginHere(h, resourceId, v);
  }

  /** A checkpoint marker has the origin of the version it marks. */
  lemma MarkerOrigin(h: History, resourceId: Text, v: Id)
    requires h.Known(v) && h.versions[v].metadata.chatResolutionOrigin == NoOrigin
    requires h.versions[v].metadata.syncOrigin == Some("checkpoint-marker")
    ensures match h.versions[v].metadata.checkpointedVersionId
            case None => Origin(h, resourceId, v) == None
            case Some(marked) =>
              Origin(h, resourceId, v) ==
                if MayInherit(h, resourceId, marked) then Origin(h, resourceId, marked) else None
  {
    var marked := h.versions[v].metadata.checkpointedVersionId;
    OnlyParent(h, resourceId, v, marked);
  }

  /** An enrichment has the origin of the version it enriches, if it names one. */
  lemma EnrichmentOrigin(h: History, resourceId: Text, v: Id, source: Id)
    requires h.Known(v) && h.versions[v].metadata.chatResolutionOrigin == NoOrigin
    requires h.versions[v].metadata.syncOrigin != Some("checkpoint-marker")
    requires h.versions[v].metadata.effectiveOrigin == Some("agent-kv-enrichment")
    requires h.versions[v].metadata.enrichedFromVersionId == Some(source)
    ensures Origin(h, resourceId, v) ==
              if MayInherit(h, resourceId, source) then Origin(h, resourceId, source) else None
  {
    OnlyParent(h, resourceId, v, Some(source));
  }

  /** One that does not name it has the latest origin among its parents'. */
  lemma UnnamedEnrichmentOrigin(h: History, resourceId: Text, v: Id)
    requires h.Known(v) && h.versions[v].metadata.chatResolutionOrigin == NoOrigin
    requires h.versions[v].metadata.syncOrigin != Some("checkpoint-marker")
    requires h.versions[v].metadata.effectiveOrigin == Some("agent-kv-enrichment")
    requires h.versions[v].metadata.enrichedFromVersionId == None
    ensures var parents := Elements(h.versions[v].parents);
            if exists p :: p in parents && !MayInherit(h, resourceId, p) then Origin(h, resourceId, v) == None
            else (forall c :: c in parents ==> h.Known(c)) && LatestOf(h, resourceId, parents, Origin(h, resourceId, v))
  {
    hide Origin, Plain;
    var d := h.versions[v];
    if exists p :: p in Elements(d.parents) && !MayInherit(h, resourceId, p) {
      var p :| p in Elements(d.parents) && !MayInherit(h, resourceId, p);
      assert p in ParentsOf(d);
      OriginHere(h, resourceId, v);
    } else {
      assert AllReadable(h, resourceId, ParentsOf(d)) by {
        assert forall p :: p in d.parents ==> p in Elements(d.parents);
      }
      Inherits(h, resourceId, v);
    }
  }

  lemma OnlyParent(h: History, resourceId: Text, v: Id, parent: Option<Id>)
    requires h.Known(v) && ShapeOf(h.versions[v], h.Own(v)).Wrapper? && !IsMerge(h.versions[v])
    requires ParentsOf(h.versions[v]) == if parent.Some? then [parent.value] else []
    ensures Origin(h, resourceId, v) ==
              if parent.Some? && MayInherit(h, resourceId, parent.value) then Origin(h, resourceId, parent.value)
              else None
  {
    hide Origin, Plain, ShapeOf;
    if parent.Some? && !MayInherit(h, resourceId, parent.value) {
      assert parent.value in ParentsOf(h.versions[v]);
      OriginHere(h, resourceId, v);
    } else {
      assert AllReadable(h, resourceId, ParentsOf(h.versions[v]));
      OriginOfWrapper(h, resourceId, v);
      PlainAllParts(h, resourceId, ParentsOf(h.versions[v]), {});
      OriginIsPlain(h, resourceId, parent);
    }
  }

  lemma OriginIsPlain(h: History, resourceId: Text, v: Option<Id>)
    ensures v.Some? && h.Known(v.value) ==> Origin(h, resourceId, v.value) == Plain(h, resourceId, v.value, {})
  {
  }

  /** The parents whose content the merge repeats. */
  ghost function SameContent(h: History, v: Id): set<Id>
    requires v in h.versions
  {
    set p | p in h.versions[v].parents && p in h.versions && h.versions[p].semanticHash == h.versions[v].semanticHash
  }

  /** The parents whose core it repeats, by their recorded core hash or, in the oldest
      schema, by their content. */
  ghost function SameCore(h: History, v: Id): set<Id>
    requires v in h.versions
  {
    set p |
      p in h.versions[v].parents && p in h.versions && h.versions[v].metadata.chatCoreHash.Some?
      && (h.versions[p].metadata.chatCoreHash == h.versions[v].metadata.chatCoreHash
          || (h.versions[p].metadata.chatSnapshotSchemaVersion == 1
              && Some(h.versions[p].semanticHash) == h.versions[v].metadata.chatCoreHash))
  }

  /** A merge has the latest origin among the parents whose content it repeats, or
      else whose core it repeats, or else all; none if a parent cannot be read. */
  lemma MergeOrigin(h: History, resourceId: Text, v: Id)
    requires h.Known(v) && h.versions[v].metadata.chatResolutionOrigin == NoOrigin
    requires h.versions[v].metadata.syncOrigin != Some("checkpoint-marker")
    requires h.versions[v].metadata.effectiveOrigin == Some("auto-merge")
    ensures var parents := Elements(h.versions[v].parents);
            var from := if SameContent(h, v) != {} then SameContent(h, v)
                        else if SameCore(h, v) != {} then SameCore(h, v) else parents;
            if exists p :: p in parents && !MayInherit(h, resourceId, p) then Origin(h, resourceId, v) == None
            else (forall c :: c in from ==> h.Known(c)) && LatestOf(h, resourceId, from, Origin(h, resourceId, v))
  {
    hide Origin, Plain;
    var d := h.versions[v];
    if exists p :: p in Elements(d.parents) && !MayInherit(h, resourceId, p) {
      var p :| p in Elements(d.parents) && !MayInherit(h, resourceId, p);
      assert p in ParentsOf(d);
      OriginHere(h, resourceId, v);
    } else {
      assert AllReadable(h, resourceId, ParentsOf(d)) by {
        assert forall p :: p in d.parents ==> p in Elements(d.parents);
      }
      var exact := Keep(h, d.parents, p => ExactParent(d, p));
      var core := Keep(h, d.parents, p => CoreParent(d, p));
      assert Elements(exact) == SameContent(h, v);
      assert Elements(core) == SameCore(h, v);
      NoneKept(exact);
      NoneKept(core);
      Inherits(h, resourceId, v);
    }
  }

  lemma NoneKept<T>(s: seq<T>)
    ensures s == [] <==> Elements(s) == {}
  {
    if s != [] {
      assert s[0] in Elements(s);
    }
  }

  /** The origin of a wrapper is the latest of its contributors' origins. */
  lemma Inherits(h: History, resourceId: Text, v: Id)
    requires h.Known(v) && IsInner(h, resourceId, v)
    ensures var ids := Contributors(h, resourceId, h.versions[v]);
            (forall c :: c in Elements(ids) ==> h.Known(c))
            && LatestOf(h, resourceId, Elements(ids), Origin(h, resourceId, v))
  {
    OriginOfWrapper(h, resourceId, v);
    hide Origin, Contributors, Plain, PlainAll, First, ShapeOf, ParentsOf, LatestOf, IsInner;
    LatestOfAll(h, resourceId, Contributors(h, resourceId, h.versions[v]));
  }

  lemma LatestOfAll(h: History, resourceId: Text, ids: seq<Id>)
    requires forall c :: c in ids ==> h.Known(c)
    ensures LatestOf(h, resourceId, Elements(ids),
                     match PlainAll(h, resourceId, ids, {})
                     case None => None
                     case Some(origins) => First(origins))
  {
    hide Origin, Plain, PlainAll, First, NoLater, History.Known;
    PlainAllParts(h, resourceId, ids, {});
    forall c | c in ids ensures Origin(h, resourceId, c) == Plain(h, resourceId, c, {}) {
      OriginIsPlain(h, resourceId, Some(c));
    }
    match PlainAll(h, resourceId, ids, {})
    case None =>
      var c :| c in ids && Plain(h, resourceId, c, {}) == None;
      assert c in Elements(ids);
    case Some(origins) =>
      FirstIsLatest(origins);
      if origins != [] {
        LatestOfOrigins(h, resourceId, ids, origins);
      } else {
        assert ids == [];
      }
  }

  lemma LatestOfOrigins(h: History, resourceId: Text, ids: seq<Id>, origins: seq<Ordering>)
    requires (forall c :: c in ids ==> h.Known(c)) && First(origins).Some? && First(origins).value in origins
    requires |origins| == |ids| && forall i :: 0 <= i < |ids| ==> Origin(h, resourceId, ids[i]) == Some(origins[i])
    requires forall o :: o in origins ==> NoLater(o, First(origins).value)
    ensures LatestOf(h, resourceId, Elements(ids), First(origins))
  {
    hide Origin, First, NoLater, History.Known;
    var k :| 0 <= k < |origins| && origins[k] == First(origins).value;
    assert ids[k] in Elements(ids) && Origin(h, resourceId, ids[k]) == First(origins);
    forall c | c in Elements(ids)
      ensures Origin(h, resourceId, c).Some? && NoLater(Origin(h, resourceId, c).value, First(origins).value)
    {
      var i :| 0 <= i < |ids| && ids[i] == c;
      assert Origin(h, resourceId, ids[i]) == Some(origins[i]) && origins[i] in origins;
    }
  }
}
