/** A closure that can be walked in one store can be walked in another that holds
    the same content under the ids it reaches. */
module Transfer {
  import opened Basics
  import opened Schema
  import opened Sums
  import opened Reach
  import opened Seeds
  import opened Walker

  /** The two stores answer alike for these ids. */
  ghost predicate SameOn(w: World, v: World, ids: set<Id>) {
    w.rd == v.rd && forall id :: id in ids ==> Content(w, id) == Content(v, id)
  }

  lemma SameParts(w: World, v: World, reached: set<Ref>, r: Ref)
    requires SameOn(w, v, Ids(reached)) && r in reached
    ensures Content(w, r.id) == Content(v, r.id) && MeaningOf(w, r) == MeaningOf(v, r)
    ensures Children(w, r) == Children(v, r)
  {
    hide Content, TypeMeaning;
    IdsMember(reached, r);
  }

  lemma {:induction false} SameWithin(w: World, v: World, roots: set<Ref>, reached: set<Ref>, n: nat)
    requires SameOn(w, v, Ids(reached)) && roots <= reached && Closed(w, reached)
    ensures Within(w, roots, n) == Within(v, roots, n) <= reached
  {
    hide Children, SameOn, Ids;
    if n > 0 {
      SameWithin(w, v, roots, reached, n - 1);
      WithinClosed(w, roots, reached, n);
      var near := Within(w, roots, n - 1);
      forall r | r in near ensures Children(w, r) == Children(v, r) {
        SameParts(w, v, reached, r);
      }
    }
  }

  lemma SameSizes(w: World, v: World, reached: set<Ref>, r: Ref)
    requires SameOn(w, v, Ids(reached)) && r in reached && Content(w, r.id).Good?
    ensures SizeOf(w)(r.id) == SizeOf(v)(r.id) && RefSizeOf(w)(r) == RefSizeOf(v)(r)
  {
    SameParts(w, v, reached, r);
  }

  lemma SameCost(w: World, v: World, streaming: bool, reached: set<Ref>)
    requires SizedAlike(w, v, Ids(reached))
    ensures ReadCost(w, streaming, reached) == ReadCost(v, streaming, reached)
  {
    hide SizeOf, RefSizeOf;
    forall r | r in reached ensures RefSizeOf(w)(r) == RefSizeOf(v)(r) {
      IdsMember(reached, r);
      SameSize(w, r);
      SameSize(v, r);
    }
    SumSame(SizeOf(w), SizeOf(v), Ids(reached));
    SumSame(RefSizeOf(w), RefSizeOf(v), reached);
  }

  /** Rows of the same size; verified content is no other than its row. */
  ghost predicate SizedAlike(w: World, v: World, ids: set<Id>) {
    forall id :: id in ids ==> SizeOf(w)(id) == SizeOf(v)(id)
  }

  lemma GoodsSizedAlike(w: World, v: World, reached: set<Ref>)
    requires SameOn(w, v, Ids(reached)) && Available(w, reached)
    ensures SizedAlike(w, v, Ids(reached))
  {
    hide SameOn, Content, SizeOf;
    forall id | id in Ids(reached) ensures SizeOf(w)(id) == SizeOf(v)(id) {
      var r :| r in reached && r.id == id;
      SameSizes(w, v, reached, r);
    }
  }

  lemma ClosureElsewhere(w: World, v: World, roots: set<Ref>, reached: set<Ref>)
    requires SameOn(w, v, Ids(reached)) && IsClosure(w, roots, reached)
    ensures IsClosure(v, roots, reached)
  {
    hide Children, SameOn, Within, Ids;
    forall r | r in reached ensures Children(v, r) <= reached && Reachable(v, roots, r) {
      SameParts(w, v, reached, r);
      var n: nat :| r in Within(w, roots, n);
      SameWithin(w, v, roots, reached, n);
    }
  }

  lemma RoomyElsewhere(w: World, v: World, lim: WalkLimits, streaming: bool, seedBytes: nat, roots: set<Ref>,
                       reached: set<Ref>)
    requires SameOn(w, v, Ids(reached)) && SizedAlike(w, v, Ids(reached)) && IsClosure(w, roots, reached)
    requires Roomy(w, lim, streaming, seedBytes, roots, reached)
    ensures Roomy(v, lim, streaming, seedBytes, roots, reached)
  {
    hide Children, SameOn, Within, Content, SizeOf, TypeMeaning, ReadCost, Ids;
    forall r | r in reached ensures ParsesCleanly(v, lim, r) && Children(v, r) == Children(w, r) {
      SameParts(w, v, reached, r);
    }
    if lim.maxDepth > 0 {
      SameWithin(w, v, roots, reached, lim.maxDepth - 1);
    }
    SameCost(w, v, streaming, reached);
  }

  lemma CompletableElsewhere(w: World, v: World, lim: WalkLimits, streaming: bool, states: seq<Text>, reached: set<Ref>)
    requires SameOn(w, v, Ids(reached))
    requires SeedsFit(w.rd, lim, states, |states|) && CompletableWith(w, lim, streaming, states, reached)
    ensures Completable(v, lim, streaming, states)
  {
    hide SameOn, SeedsFit, SeedRefs, SeedTotal, Content, Roomy, IsClosure, Ids;
    SameReaders(w, v, Ids(reached));
    forall r | r in reached ensures Content(v, r.id).Good? {
      SameParts(w, v, reached, r);
    }
    GoodsSizedAlike(w, v, reached);
    ClosureElsewhere(w, v, RootRefs(w, states), reached);
    RoomyElsewhere(w, v, lim, streaming, SeedTotal(states, |states|), RootRefs(w, states), reached);
    assert CompletableWith(v, lim, streaming, states, reached);
  }

  lemma CoverableElsewhere(w: World, v: World, lim: WalkLimits, states: seq<Text>, reached: set<Ref>)
    requires SameOn(w, v, Ids(reached)) && SizedAlike(w, v, Ids(reached))
    requires SeedsFit(w.rd, lim, states, |states|) && CoverableWith(w, lim, false, states, reached)
    ensures Coverable(v, lim, false, states)
  {
    hide SameOn, SeedsFit, SeedRefs, SeedTotal, Content, Roomy, IsClosure, Ids, SizedAlike;
    SameReaders(w, v, Ids(reached));
    ClosureElsewhere(w, v, RootRefs(w, states), reached);
    RoomyElsewhere(w, v, lim, false, SeedTotal(states, |states|), RootRefs(w, states), reached);
    assert CoverableWith(v, lim, false, states, reached);
  }

  lemma SameReaders(w: World, v: World, ids: set<Id>)
    requires SameOn(w, v, ids)
    ensures w.rd == v.rd
  {
    hide Content;
  }
}
