/** The content-addressed graph a conversation reaches, and what a walk of it
    needs: the notions that src/chat/agentKv.ts computes with a worklist. */
module Reach {
  import opened Basics
  import opened Schema
  import opened Sums

  // ----- The store -----

  datatype ValueType = TextValue | BlobValue | OtherValue

  /** What a lookup can answer: it threw, was not a lookup result, or is one.
      Found bytes are None when they are no byte array. */
  datatype LookupResult =
    | Threw
    | NotAResult
    | Absent
    | OverBudget
    | Unreadable
    | Found(key: Text, bytes: Option<seq<byte>>, valueType: Option<ValueType>)

  /** A fixed store, the hash its keys claim, and the schema reader. */
  datatype World = World(store: Text -> LookupResult, sha256: seq<byte> -> Id, rd: Reader)

  /** "agentKv:blob:" */
  const BLOB_PREFIX: Text := [0x61, 0x67, 0x65, 0x6e, 0x74, 0x4b, 0x76, 0x3a, 0x62, 0x6c, 0x6f, 0x62, 0x3a]

  function BlobKey(id: Id): Text {
    BLOB_PREFIX + id
  }

  /** The lookup answers from the store, except that it may refuse a row larger
      than the bytes left. */
  ghost predicate Serves(lookup: (Text, nat) -> LookupResult, store: Text -> LookupResult) {
    forall key, room ::
      || (lookup(key, room) == store(key) && store(key) != OverBudget)
      || (lookup(key, room) == OverBudget && RowSize(store(key)) > room)
  }

  function RowSize(row: LookupResult): nat {
    if row.Found? && row.bytes.Some? then |row.bytes.value| else 0
  }

  datatype Issue = LookupFailed | InvalidResult | MissingContent | UnreadableRow | UnexpectedKey
                 | InvalidBytes | InvalidValueType | Tampered(actualHash: Id)

  /** What reading one id comes to: verified content, or what is wrong. */
  datatype Outcome = Good(bytes: seq<byte>, valueType: Option<ValueType>) | Bad(issue: Issue)

  function Judge(w: World, id: Id, row: LookupResult): Outcome {
    match row
    case Threw => Bad(LookupFailed)
    case Absent => Bad(MissingContent)
    case Unreadable => Bad(UnreadableRow)
    case Found(key, bytes, valueType) =>
      if key != BlobKey(id) then Bad(UnexpectedKey)
      else if bytes == None then Bad(InvalidBytes)
      else if valueType == Some(OtherValue) then Bad(InvalidValueType)
      else if w.sha256(bytes.value) != id then Bad(Tampered(w.sha256(bytes.value)))
      else Good(bytes.value, valueType)
    case _ => Bad(InvalidResult)
  }

  function Content(w: World, id: Id): Outcome {
    Judge(w, id, w.store(BlobKey(id)))
  }

  /** The row of an id by its own key, with these bytes. */
  predicate HoldsBytes(w: World, id: Id, bytes: Option<seq<byte>>, valueType: Option<ValueType>) {
    w.store(BLOB_PREFIX + id) == Found(BLOB_PREFIX + id, bytes, valueType)
  }

  /** What is wrong with an id, issue by issue, and that nothing else is. */
  lemma IssueMeans(w: World, id: Id)
    ensures Content(w, id) == Bad(LookupFailed) <==> w.store(BLOB_PREFIX + id) == Threw
    ensures Content(w, id) == Bad(MissingContent) <==> w.store(BLOB_PREFIX + id) == Absent
    ensures Content(w, id) == Bad(UnreadableRow) <==> w.store(BLOB_PREFIX + id) == Unreadable
    ensures Content(w, id) == Bad(InvalidResult) <==>
              w.store(BLOB_PREFIX + id) == NotAResult || w.store(BLOB_PREFIX + id) == OverBudget
    ensures Content(w, id) == Bad(UnexpectedKey) <==>
              w.store(BLOB_PREFIX + id).Found? && w.store(BLOB_PREFIX + id).key != BLOB_PREFIX + id
    ensures Content(w, id) == Bad(InvalidBytes) <==> exists t :: HoldsBytes(w, id, None, t)
    ensures Content(w, id) == Bad(InvalidValueType) <==>
              exists bytes :: HoldsBytes(w, id, Some(bytes), Some(ValueType.OtherValue))
    ensures forall hash :: Content(w, id) == Bad(Tampered(hash)) <==>
              exists bytes, t ::
                HoldsBytes(w, id, Some(bytes), t) && t != Some(ValueType.OtherValue) && w.sha256(bytes) == hash != id
    ensures forall bytes, t :: Content(w, id) == Good(bytes, t) <==>
              HoldsBytes(w, id, Some(bytes), t) && t != Some(ValueType.OtherValue) && w.sha256(bytes) == id
  {
    match w.store(BLOB_PREFIX + id)
    case Found(key, bytes, t) =>
      if key == BLOB_PREFIX + id {
        assert HoldsBytes(w, id, bytes, t);
      }
    case _ =>
  }

  function SizeOf(w: World): Id -> nat {
    id => RowSize(w.store(BlobKey(id)))
  }

  function RefSizeOf(w: World): Ref -> nat {
    (p: Ref) => RowSize(w.store(BlobKey(p.id)))
  }

  // ----- The graph -----

  function MeaningOf(w: World, p: Ref): Meaning {
    match Content(w, p.id)
    case Good(bytes, _) => TypeMeaning(w.rd, bytes, p.target)
    case Bad(_) => NOTHING
  }

  /** Typed references of one reference: none from content that is unavailable,
      opaque or malformed. */
  function Children(w: World, p: Ref): set<Ref> {
    if MeaningOf(w, p).valid then MeaningOf(w, p).refs else {}
  }

  /** Reached along at most n references. */
  function Within(w: World, roots: set<Ref>, n: nat): set<Ref> {
    if n == 0 then roots
    else
      var near := Within(w, roots, n - 1);
      near + set p, c | p in near && c in Children(w, p) :: c
  }

  ghost predicate Reachable(w: World, roots: set<Ref>, p: Ref) {
    exists n: nat :: p in Within(w, roots, n)
  }

  ghost predicate Closed(w: World, s: set<Ref>) {
    forall p :: p in s ==> Children(w, p) <= s
  }

  /** Everything reached and nothing else. */
  ghost predicate IsClosure(w: World, roots: set<Ref>, reached: set<Ref>) {
    && roots <= reached
    && Closed(w, reached)
    && forall p :: p in reached ==> Reachable(w, roots, p)
  }

  lemma {:induction false} WithinClosed(w: World, roots: set<Ref>, s: set<Ref>, n: nat)
    requires roots <= s && Closed(w, s)
    ensures Within(w, roots, n) <= s
  {
    hide Children;
    if n > 0 {
      WithinClosed(w, roots, s, n - 1);
    }
  }

  lemma {:induction false} WithinMonotone(w: World, roots: set<Ref>, m: nat, n: nat)
    requires m <= n
    ensures Within(w, roots, m) <= Within(w, roots, n)
    decreases n
  {
    hide Children;
    if m < n {
      WithinMonotone(w, roots, m, n - 1);
    }
  }

  /** The closure is the least set that holds the roots and is closed under
      references, and so is unique. */
  lemma ClosureIsLeast(w: World, roots: set<Ref>, reached: set<Ref>, s: set<Ref>)
    requires IsClosure(w, roots, reached)
    requires roots <= s && Closed(w, s)
    ensures reached <= s
  {
    hide Children;
    forall p | p in reached ensures p in s {
      var n: nat :| p in Within(w, roots, n);
      WithinClosed(w, roots, s, n);
    }
  }

  lemma ClosureUnique(w: World, roots: set<Ref>, a: set<Ref>, b: set<Ref>)
    requires IsClosure(w, roots, a) && IsClosure(w, roots, b)
    ensures a == b
  {
    ClosureIsLeast(w, roots, a, b);
    ClosureIsLeast(w, roots, b, a);
  }

  // ----- What a complete walk needs -----

  datatype WalkLimits = WalkLimits(maxNodes: nat, maxBytes: nat, maxDepth: nat)

  /** Parsing the content under this type raises no flag. */
  predicate ParsesCleanly(w: World, lim: WalkLimits, p: Ref) {
    var m := MeaningOf(w, p);
    m.valid && !m.depthLimited && !m.unsupported && m.entries <= lim.maxNodes
  }

  /** Bytes a walk reads besides its seeds: every id once when it retains
      content, every typed reference once when it streams. */
  ghost function ReadCost(w: World, streaming: bool, reached: set<Ref>): nat {
    if streaming then Sum(RefSizeOf(w), reached) else Sum(SizeOf(w), Ids(reached))
  }

  /** Everything reached parses cleanly, nothing with references lies at the
      depth limit, and nodes and bytes suffice. */
  ghost predicate Roomy(w: World, lim: WalkLimits, streaming: bool, seedBytes: nat, roots: set<Ref>, reached: set<Ref>)
  {
    && (forall p :: p in reached ==> ParsesCleanly(w, lim, p))
    && (forall p ::
          p in reached && Children(w, p) != {} ==> lim.maxDepth > 0 && p in Within(w, roots, lim.maxDepth - 1))
    && |Ids(reached)| <= lim.maxNodes
    && seedBytes + ReadCost(w, streaming, reached) <= lim.maxBytes
  }

  /** Everything reached is present and verified. */
  ghost predicate Available(w: World, reached: set<Ref>) {
    forall p :: p in reached ==> Content(w, p.id).Good?
  }

  ghost predicate Fits(w: World, lim: WalkLimits, streaming: bool, seedBytes: nat, roots: set<Ref>, reached: set<Ref>) {
    Available(w, reached) && Roomy(w, lim, streaming, seedBytes, roots, reached)
  }

  /** Nothing stops the walk; what it reaches may be missing or damaged, unless
      it streams. */
  ghost predicate Passable(w: World, lim: WalkLimits, streaming: bool, seedBytes: nat, roots: set<Ref>,
                           reached: set<Ref>)
  {
    (streaming ==> Available(w, reached)) && Roomy(w, lim, streaming, seedBytes, roots, reached)
  }

  lemma {:induction false} IdsCostLess(w: World, s: set<Ref>)
    ensures Sum(SizeOf(w), Ids(s)) <= Sum(RefSizeOf(w), s)
  {
    if p :| p in s {
      var rest := s - {p};
      IdsCostLess(w, rest);
      SumRemove(RefSizeOf(w), s, p);
      if p.id in Ids(rest) {
        assert Ids(s) == Ids(rest);
      } else {
        assert Ids(s) == Ids(rest) + {p.id};
        SumInsert(SizeOf(w), Ids(rest), p.id);
      }
    } else {
      assert Ids(s) == {};
    }
  }

  /** Whatever a streaming walk can complete, a retaining walk under the same
      limits can: it reads each id once instead of once per type. */
  lemma StreamingFitsRetaining(w: World, lim: WalkLimits, seedBytes: nat, roots: set<Ref>, reached: set<Ref>)
    requires Fits(w, lim, true, seedBytes, roots, reached)
    ensures Fits(w, lim, false, seedBytes, roots, reached)
  {
    IdsCostLess(w, reached);
  }
}
