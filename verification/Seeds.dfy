/** Root extraction of src/chat/agentKv.ts: the conversation states that seed a
    walk, decoded and parsed in order under the byte and node limits. */
module Seeds {
  import opened Basics
  import opened Schema
  import opened Reach
  import Base64

  const TILDE: CodeUnit := 0x7e

  datatype LimitReason = Nodes | Bytes | Depth | ProtobufDepth | SchemaRoute

  datatype SeedIssue = MissingTildePrefix(index: nat) | InvalidBase64(index: nat) | InvalidProtobuf(index: nat)

  datatype Extracted = Extracted(
    rootTypes: map<Id, set<MessageType>>,
    unreadable: seq<SeedIssue>,
    seedBytes: nat,
    limitReasons: set<LimitReason>)
  {
    predicate Complete() {
      unreadable == [] && limitReasons == {}
    }
  }

  // ----- What the states mean -----

  predicate SeedReadable(state: Text) {
    state != [] && state[0] == TILDE && Base64.IsCanonical(state[1..])
  }

  function SeedBytes(state: Text): seq<byte> {
    if SeedReadable(state) then Base64.Decode(state[1..]) else []
  }

  function SeedMeaning(rd: Reader, state: Text): Meaning {
    if SeedReadable(state) then TypeMeaning(rd, SeedBytes(state), ConversationState) else INVALID
  }

  function SeedRefsOf(rd: Reader, state: Text): set<Ref> {
    if SeedMeaning(rd, state).valid then SeedMeaning(rd, state).refs else {}
  }

  /** References of the first n states. */
  function SeedRefs(rd: Reader, states: seq<Text>, n: nat): set<Ref>
    requires n <= |states|
  {
    if n == 0 then {} else SeedRefs(rd, states, n - 1) + SeedRefsOf(rd, states[n - 1])
  }

  /** Decoded bytes of the distinct states among the first n. */
  function SeedTotal(states: seq<Text>, n: nat): nat
    requires n <= |states|
  {
    if n == 0 then 0
    else SeedTotal(states, n - 1) + if states[n - 1] in states[..n - 1] then 0 else |SeedBytes(states[n - 1])|
  }

  predicate SeedParsesCleanly(rd: Reader, lim: WalkLimits, state: Text) {
    var m := SeedMeaning(rd, state);
    m.valid && !m.depthLimited && !m.unsupported && m.entries <= lim.maxNodes
  }

  /** The first n states are all readable and fit. */
  predicate SeedsFit(rd: Reader, lim: WalkLimits, states: seq<Text>, n: nat)
    requires n <= |states|
  {
    && (forall i :: 0 <= i < n ==> SeedParsesCleanly(rd, lim, states[i]))
    && SeedTotal(states, n) <= lim.maxBytes
    && |Ids(SeedRefs(rd, states, n))| <= lim.maxNodes
  }

  lemma {:induction false} SeedsFitPrefix(rd: Reader, lim: WalkLimits, states: seq<Text>, m: nat, n: nat)
    requires m <= n <= |states| && SeedsFit(rd, lim, states, n)
    ensures SeedsFit(rd, lim, states, m)
    decreases n
  {
    hide SeedParsesCleanly, SeedRefsOf, SeedBytes;
    if m < n {
      SubsetSize(Ids(SeedRefs(rd, states, n - 1)), Ids(SeedRefs(rd, states, n)));
      SeedsFitPrefix(rd, lim, states, m, n - 1);
    }
  }

  // ----- Extraction -----

  /** Progress after the first n states: complete so far exactly when they fit,
      and then exactly their references and bytes. */
  ghost predicate ExtractedTo(rd: Reader, lim: WalkLimits, states: seq<Text>, n: nat, e: Extracted)
    requires n <= |states|
  {
    && NoneEmpty(e.rootTypes) && |e.rootTypes| <= lim.maxNodes && e.seedBytes <= lim.maxBytes
    && (e.Complete() <==> SeedsFit(rd, lim, states, n))
    && (e.Complete() ==> e.seedBytes == SeedTotal(states, n) && RefsOf(e.rootTypes) == SeedRefs(rd, states, n))
    && (Nodes !in e.limitReasons ==> RefsOf(e.rootTypes) <= SeedRefs(rd, states, n))
  }

  lemma {:induction false} SeedRefsContains(rd: Reader, states: seq<Text>, i: nat, n: nat)
    requires i < n <= |states|
    ensures SeedRefsOf(rd, states[i]) <= SeedRefs(rd, states, n)
  {
    hide SeedRefsOf;
    if i < n - 1 {
      SeedRefsContains(rd, states, i, n - 1);
    }
  }

  /** A repeated state changes nothing. */
  lemma RepeatedSeed(rd: Reader, lim: WalkLimits, states: seq<Text>, n: nat, e: Extracted)
    requires n < |states| && states[n] in states[..n] && ExtractedTo(rd, lim, states, n, e)
    ensures ExtractedTo(rd, lim, states, n + 1, e)
  {
    hide SeedParsesCleanly, SeedRefsOf, RefsOf, SeedBytes, NoneEmpty;
    var i :| 0 <= i < n && states[i] == states[n];
    SeedRefsContains(rd, states, i, n);
    assert SeedRefs(rd, states, n + 1) == SeedRefs(rd, states, n);
  }

  /** Any flag or limit raised on a state that does not fit keeps the account. */
  lemma SeedRefused(rd: Reader, lim: WalkLimits, states: seq<Text>, n: nat, e: Extracted, after: Extracted)
    requires n < |states| && ExtractedTo(rd, lim, states, n, e)
    requires e.Complete() ==> !SeedsFit(rd, lim, states, n + 1)
    requires !after.Complete() && (Nodes !in after.limitReasons ==> Nodes !in e.limitReasons)
    requires after.rootTypes == e.rootTypes && after.seedBytes <= lim.maxBytes
    ensures ExtractedTo(rd, lim, states, n + 1, after)
  {
    hide SeedParsesCleanly, SeedRefsOf, RefsOf, SeedsFit, NoneEmpty;
    if SeedsFit(rd, lim, states, n + 1) {
      SeedsFitPrefix(rd, lim, states, n, n + 1);
    }
  }

  /** Stopping early is as good as reading on: nothing more can fit. */
  lemma {:induction false} SeedStopped(rd: Reader, lim: WalkLimits, states: seq<Text>, m: nat, n: nat, e: Extracted)
    requires m <= n <= |states| && ExtractedTo(rd, lim, states, m, e) && !e.Complete()
    ensures ExtractedTo(rd, lim, states, n, e)
    decreases n
  {
    hide SeedParsesCleanly, SeedRefsOf, RefsOf, SeedsFit, NoneEmpty;
    if m < n {
      SeedStopped(rd, lim, states, m, n - 1, e);
      if SeedsFit(rd, lim, states, n) {
        SeedsFitPrefix(rd, lim, states, n - 1, n);
      }
    }
  }

  // ----- The roots named, limits or not -----

  /** A message no limit can cut off between a reference and what supersedes it:
      its map keys fit, and it is well formed if it refers to anything. */
  predicate Steady(lim: WalkLimits, m: Meaning) {
    m.entries <= lim.maxNodes && (m.valid || m.refs == {})
  }

  predicate SeedsSteady(rd: Reader, lim: WalkLimits, states: seq<Text>) {
    forall i :: 0 <= i < |states| ==> Steady(lim, SeedMeaning(rd, states[i]))
  }

  /** Of steady states only ids they refer to are roots; and only once there is no
      room for another id can one be a root under a superseded type. */
  ghost predicate RootsNamed(rd: Reader, lim: WalkLimits, states: seq<Text>, n: nat, e: Extracted)
    requires n <= |states|
  {
    SeedsSteady(rd, lim, states) ==>
      && e.rootTypes.Keys <= Ids(SeedRefs(rd, states, n))
      && (|e.rootTypes| < lim.maxNodes ==> RefsOf(e.rootTypes) <= SeedRefs(rd, states, n))
  }

  // ----- Why a limit struck -----

  /** Decoded bytes of a state that passes for Base64. */
  function StateSize(state: Text): nat {
    if state != [] && state[0] == TILDE && Base64.IsText(state[1..]) then |Base64.Decode(state[1..])| else 0
  }

  predicate NoShortage(e: Extracted) {
    Bytes !in e.limitReasons && Nodes !in e.limitReasons
  }

  /** A state with more map keys than the node limit, or malformed. */
  predicate Overloaded(rd: Reader, lim: WalkLimits, state: Text) {
    SeedReadable(state) && (!SeedMeaning(rd, state).valid || SeedMeaning(rd, state).entries > lim.maxNodes)
  }

  /** Bytes are short only if a state is larger than what is left, nodes only if
      the states refer to more ids, or one has more map keys or is malformed. */
  ghost predicate ShortageIs(rd: Reader, lim: WalkLimits, states: seq<Text>, e: Extracted) {
    && (Bytes in e.limitReasons ==> exists i :: 0 <= i < |states| && e.seedBytes + StateSize(states[i]) > lim.maxBytes)
    && (Nodes in e.limitReasons ==>
          || |Ids(SeedRefs(rd, states, |states|))| > lim.maxNodes
          || exists i :: 0 <= i < |states| && Overloaded(rd, lim, states[i]))
  }

  /** What stopped the parse of a state. */
  lemma SeedLimited(rd: Reader, lim: WalkLimits, states: seq<Text>, i: nat, before: Extracted, e: Extracted)
    requires i < |states| && ExtractedTo(rd, lim, states, i, before) && NoShortage(before) && SeedReadable(states[i])
    requires var m := SeedMeaning(rd, states[i]);
             !m.valid || Overflow(Limits(before.rootTypes.Keys, lim.maxNodes - |before.rootTypes|, lim.maxNodes),
                                  m.refs, m.entries)
    requires Bytes !in e.limitReasons
    ensures ShortageIs(rd, lim, states, e)
  {
    hide SeedMeaning, RefsOf, NoneEmpty, SeedsFit, SeedReadable, Ids;
    var m := SeedMeaning(rd, states[i]);
    if m.valid && m.entries <= lim.maxNodes {
      RefsOfIds(before.rootTypes);
      UnionSize(before.rootTypes.Keys, Ids(m.refs));
      IdsPlus(SeedRefs(rd, states, i), m.refs);
      IdsWithin(RefsOf(before.rootTypes), SeedRefs(rd, states, i));
      SeedRefsGrow(rd, states, i + 1, |states|);
      SubsetSize(before.rootTypes.Keys + Ids(m.refs), Ids(SeedRefs(rd, states, |states|)));
    } else {
      assert Overloaded(rd, lim, states[i]);
    }
  }

  lemma IdsWithin(a: set<Ref>, b: set<Ref>)
    requires a <= b
    ensures Ids(a) <= Ids(b)
  {
  }

  lemma {:induction false} SeedRefsGrow(rd: Reader, states: seq<Text>, m: nat, n: nat)
    requires m <= n <= |states|
    ensures SeedRefs(rd, states, m) <= SeedRefs(rd, states, n)
    ensures Ids(SeedRefs(rd, states, m)) <= Ids(SeedRefs(rd, states, n))
    decreases n
  {
    hide SeedRefsOf;
    if m < n {
      SeedRefsGrow(rd, states, m, n - 1);
    }
  }

  lemma RootsKept(rd: Reader, lim: WalkLimits, states: seq<Text>, m: nat, n: nat, before: Extracted, e: Extracted)
    requires m <= n <= |states| && RootsNamed(rd, lim, states, m, before) && e.rootTypes == before.rootTypes
    ensures RootsNamed(rd, lim, states, n, e)
  {
    hide SeedsSteady, SeedRefs, Ids, RefsOf;
    SeedRefsGrow(rd, states, m, n);
  }

  lemma RootsParsed(rd: Reader, lim: WalkLimits, states: seq<Text>, n: nat, before: Extracted, e: Extracted,
                    parsed: ParsedProtobuf)
    requires n < |states| && RootsNamed(rd, lim, states, n, before) && |before.rootTypes| <= lim.maxNodes
    requires NoneEmpty(before.rootTypes) && NoneEmpty(parsed.candidates)
    requires e.rootTypes == MergeTypes(before.rootTypes, parsed.candidates)
    requires var m := SeedMeaning(rd, states[n]);
      && (!parsed.candidateLimited ==> m.valid && RefsOf(parsed.candidates) == m.refs)
      && (m.entries <= lim.maxNodes ==>
            && parsed.candidates.Keys - before.rootTypes.Keys <= Ids(m.refs)
            && (parsed.candidateLimited ==>
                  |parsed.candidates.Keys - before.rootTypes.Keys| == lim.maxNodes - |before.rootTypes|))
    ensures RootsNamed(rd, lim, states, n + 1, e)
  {
    hide SeedMeaning, RefsOf, NoneEmpty, Ids, MergeTypes;
    MergeTypesRefs(before.rootTypes, parsed.candidates);
    MergedKeys(before.rootTypes, parsed.candidates);
    var m, refs := SeedMeaning(rd, states[n]), SeedRefs(rd, states, n);
    if SeedsSteady(rd, lim, states) {
      assert Steady(lim, m) && SeedRefsOf(rd, states[n]) == m.refs;
      IdsOfMore(refs, m.refs);
    }
  }

  lemma MergedKeys(a: map<Id, set<MessageType>>, b: map<Id, set<MessageType>>)
    ensures MergeTypes(a, b).Keys == a.Keys + (b.Keys - a.Keys)
  {
  }

  function MergeTypes(a: map<Id, set<MessageType>>, b: map<Id, set<MessageType>>): map<Id, set<MessageType>> {
    map id | id in a.Keys + b.Keys :: (if id in a then a[id] else {}) + if id in b then b[id] else {}
  }

  lemma MergeTypesRefs(a: map<Id, set<MessageType>>, b: map<Id, set<MessageType>>)
    requires NoneEmpty(a) && NoneEmpty(b)
    ensures NoneEmpty(MergeTypes(a, b))
    ensures RefsOf(MergeTypes(a, b)) == RefsOf(a) + RefsOf(b)
    ensures |MergeTypes(a, b)| == |a| + |b.Keys - a.Keys|
  {
    MergeTypesRefsOf(a, b);
    UnionSize(a.Keys, b.Keys);
    assert MergeTypes(a, b).Keys == a.Keys + b.Keys;
  }

  lemma MergeTypesRefsOf(a: map<Id, set<MessageType>>, b: map<Id, set<MessageType>>)
    ensures RefsOf(MergeTypes(a, b)) == RefsOf(a) + RefsOf(b)
  {
    forall r ensures r in RefsOf(MergeTypes(a, b)) <==> r in RefsOf(a) || r in RefsOf(b) {
      var m := MergeTypes(a, b);
      assert r in RefsOf(m) <==> r.id in m && r.target in m[r.id];
    }
  }

  lemma UnionSize<T>(a: set<T>, b: set<T>)
    ensures |a + b| == |a| + |b - a|
  {
    assert a + b == a + (b - a);
  }

  /** The parser's limit on the roots still free is a limit on all roots. */
  lemma OverflowIsTotal(known: set<Id>, refs: set<Ref>, all: set<Ref>, entries: nat, max: nat)
    requires |known| <= max && Ids(all) == known + Ids(refs)
    ensures Overflow(Limits(known, max - |known|, max), refs, entries) <==> |Ids(all)| > max || entries > max
  {
    UnionSize(known, Ids(refs));
  }

  lemma IdsPlus(a: set<Ref>, b: set<Ref>)
    ensures Ids(a + b) == Ids(a) + Ids(b)
  {
  }

  /** What one more distinct state adds to fitting. */
  lemma SeedsFitStep(rd: Reader, lim: WalkLimits, states: seq<Text>, n: nat)
    requires n < |states| && SeedsFit(rd, lim, states, n) && states[n] !in states[..n]
    ensures SeedsFit(rd, lim, states, n + 1) <==>
      && SeedParsesCleanly(rd, lim, states[n])
      && SeedTotal(states, n) + |SeedBytes(states[n])| <= lim.maxBytes
      && |Ids(SeedRefs(rd, states, n + 1))| <= lim.maxNodes
  {
    hide SeedBytes, SeedParsesCleanly, SeedRefs, Ids;
  }

  /** Whether the parse was whole decides whether the state fits. */
  lemma SeedWhole(rd: Reader, lim: WalkLimits, states: seq<Text>, n: nat, e: Extracted)
    requires n < |states| && ExtractedTo(rd, lim, states, n, e) && e.Complete()
    requires states[n] !in states[..n] && SeedReadable(states[n])
    ensures var m := SeedMeaning(rd, states[n]);
            var whole := m.valid
                         && !Overflow(Limits(e.rootTypes.Keys, lim.maxNodes - |e.rootTypes|, lim.maxNodes), m.refs,
                                      m.entries);
            SeedsFit(rd, lim, states, n + 1) <==>
              && whole && !m.depthLimited && !m.unsupported
              && e.seedBytes + |SeedBytes(states[n])| <= lim.maxBytes
  {
    SeedsFitStep(rd, lim, states, n);
    hide SeedBytes, TypeMeaning, RefsOf, Overflow, NoneEmpty, Ids, SeedsFit, SeedTotal;
    var m := SeedMeaning(rd, states[n]);
    RefsOfIds(e.rootTypes);
    if m.valid {
      IdsPlus(SeedRefs(rd, states, n), m.refs);
      OverflowIsTotal(e.rootTypes.Keys, m.refs, SeedRefs(rd, states, n + 1), m.entries, lim.maxNodes);
    }
  }

  method ExtractRoots(rd: Reader, states: seq<Text>, lim: WalkLimits) returns (e: Extracted)
    ensures ExtractedTo(rd, lim, states, |states|, e)
    ensures RootsNamed(rd, lim, states, |states|, e)
    ensures ShortageIs(rd, lim, states, e)
  {
    hide ShortageIs, NoShortage;
    hide SeedsFit, RootsNamed, SeedRefsOf, RefsOf, SeedMeaning, Overflow, NoneEmpty, SeedParsesCleanly;
    e := Extracted(map[], [], 0, {});
    var seen: set<Text> := {};
    NothingExtracted(rd, lim, states);
    NoRootsNamed(rd, lim, states);
    NothingShort(rd, lim, states, e);
    for i := 0 to |states|
      invariant seen == Elements(states[..i])
      invariant ExtractedTo(rd, lim, states, i, e)
      invariant RootsNamed(rd, lim, states, i, e)
      invariant NoShortage(e) && ShortageIs(rd, lim, states, e)
    {
      var state := states[i];
      assert states[..i + 1] == states[..i] + [state];
      if state in seen {
        RepeatedSeed(rd, lim, states, i, e);
        RootsKept(rd, lim, states, i, i + 1, e, e);
      } else {
        var stop;
        e, stop := ExtractSeed(rd, states, i, lim, e);
        if !stop {
          NothingShort(rd, lim, states, e);
        }
        if stop {
          SeedStopped(rd, lim, states, i + 1, |states|, e);
          RootsKept(rd, lim, states, i + 1, |states|, e, e);
          return;
        }
      }
      seen := seen + {state};
    }
  }

  lemma NothingShort(rd: Reader, lim: WalkLimits, states: seq<Text>, e: Extracted)
    ensures NoShortage(e) ==> ShortageIs(rd, lim, states, e)
    ensures NoShortage(Extracted(map[], [], 0, {}))
  {
  }

  lemma NoRootsNamed(rd: Reader, lim: WalkLimits, states: seq<Text>)
    ensures RootsNamed(rd, lim, states, 0, Extracted(map[], [], 0, {}))
  {
    assert RefsOf(map[]) == {};
  }

  lemma NothingExtracted(rd: Reader, lim: WalkLimits, states: seq<Text>)
    ensures ExtractedTo(rd, lim, states, 0, Extracted(map[], [], 0, {}))
  {
  }

  /** One state not seen before; stop breaks the loop. */
  method ExtractSeed(rd: Reader, states: seq<Text>, i: nat, lim: WalkLimits, before: Extracted)
    returns (e: Extracted, stop: bool)
    requires i < |states| && states[i] !in states[..i]
    requires ExtractedTo(rd, lim, states, i, before) && RootsNamed(rd, lim, states, i, before) && NoShortage(before)
    ensures ExtractedTo(rd, lim, states, i + 1, e) && RootsNamed(rd, lim, states, i + 1, e)
    ensures stop ==> !e.Complete()
    ensures if stop then ShortageIs(rd, lim, states, e) else NoShortage(e)
  {
    hide SeedMeaning;
    hide SeedRefsOf, RefsOf, TypeMeaning, Overflow, NoneEmpty, RootsNamed;
    var state := states[i];
    if state == [] || state[0] != TILDE {
      e := before.(unreadable := before.unreadable + [MissingTildePrefix(i)]);
      Refused(rd, lim, states, i, before, e);
      RootsKept(rd, lim, states, i, i + 1, before, e);
      return e, false;
    }
    var encoded := state[1..];
    if !Base64.IsText(encoded) {
      e := before.(unreadable := before.unreadable + [InvalidBase64(i)]);
      Refused(rd, lim, states, i, before, e);
      RootsKept(rd, lim, states, i, i + 1, before, e);
      return e, false;
    }
    Base64.DecodedLengthExact(encoded);
    if Base64.DecodedLength(encoded) > lim.maxBytes - before.seedBytes {
      e := before.(limitReasons := before.limitReasons + {Bytes});
      Refused(rd, lim, states, i, before, e);
      RootsKept(rd, lim, states, i, i + 1, before, e);
      return e, true;
    }
    var bytes := Base64.Decode(encoded);
    if Base64.Encode(bytes) != encoded {
      e := before.(unreadable := before.unreadable + [InvalidBase64(i)]);
      Refused(rd, lim, states, i, before, e);
      RootsKept(rd, lim, states, i, i + 1, before, e);
      return e, false;
    }
    e, stop := ParseSeed(rd, states, i, lim, before, bytes);
  }

  /** The checks that come before parsing refuse only what cannot fit. */
  lemma Refused(rd: Reader, lim: WalkLimits, states: seq<Text>, n: nat, before: Extracted, e: Extracted)
    requires n < |states| && states[n] !in states[..n] && ExtractedTo(rd, lim, states, n, before)
    requires !SeedReadable(states[n]) || before.seedBytes + |SeedBytes(states[n])| > lim.maxBytes
    requires !e.Complete() && (Nodes !in e.limitReasons ==> Nodes !in before.limitReasons)
    requires e.rootTypes == before.rootTypes && e.seedBytes == before.seedBytes
    ensures ExtractedTo(rd, lim, states, n + 1, e)
  {
    hide SeedRefsOf, RefsOf, TypeMeaning, NoneEmpty, SeedBytes;
    SeedRefused(rd, lim, states, n, before, e);
  }

  lemma ReadableMeaning(rd: Reader, state: Text)
    requires SeedReadable(state)
    ensures SeedMeaning(rd, state) == TypeMeaning(rd, SeedBytes(state), ConversationState)
  {
    hide TypeMeaning, SeedReadable, SeedBytes;
  }

  lemma ExtractedBounds(rd: Reader, lim: WalkLimits, states: seq<Text>, n: nat, e: Extracted)
    requires n <= |states| && ExtractedTo(rd, lim, states, n, e)
    ensures NoneEmpty(e.rootTypes) && |e.rootTypes| <= lim.maxNodes && e.seedBytes <= lim.maxBytes
  {
  }

  lemma SeedParsed(rd: Reader, lim: WalkLimits, states: seq<Text>, i: nat, before: Extracted, parsed: ParsedProtobuf)
    requires i < |states| && states[i] !in states[..i] && ExtractedTo(rd, lim, states, i, before)
    requires SeedReadable(states[i])
    requires before.seedBytes + |SeedBytes(states[i])| <= lim.maxBytes && parsed.valid
    requires |before.rootTypes| <= lim.maxNodes
    requires var m := SeedMeaning(rd, states[i]);
             var l := Limits(before.rootTypes.Keys, lim.maxNodes - |before.rootTypes|, lim.maxNodes);
             parsed.Whole() <==> m.valid && !Overflow(l, m.refs, m.entries)
    ensures var m := SeedMeaning(rd, states[i]);
            before.Complete() ==>
              (SeedsFit(rd, lim, states, i + 1) <==> !parsed.candidateLimited && !m.depthLimited && !m.unsupported)
  {
    hide RefsOf, Overflow, NoneEmpty, Ids, SeedBytes, SeedsFit, ExtractedTo, SeedMeaning, SeedReadable;
    if before.Complete() {
      SeedWhole(rd, lim, states, i, before);
    }
  }

  method ParseSeed(rd: Reader, states: seq<Text>, i: nat, lim: WalkLimits, before: Extracted, bytes: seq<byte>)
    returns (e: Extracted, stop: bool)
    requires i < |states| && states[i] !in states[..i]
    requires ExtractedTo(rd, lim, states, i, before) && RootsNamed(rd, lim, states, i, before) && NoShortage(before)
    requires SeedReadable(states[i]) && bytes == SeedBytes(states[i]) && before.seedBytes + |bytes| <= lim.maxBytes
    ensures ExtractedTo(rd, lim, states, i + 1, e) && RootsNamed(rd, lim, states, i + 1, e)
    ensures stop ==> !e.Complete()
    ensures if stop then ShortageIs(rd, lim, states, e) else NoShortage(e)
  {
    hide RefsOf, TypeMeaning, Overflow, NoneEmpty, Ids, RootsNamed, SeedBytes, SeedsFit, ExtractedTo, MergeTypes;
    hide Reasons, ShortageIs;
    hide SeedMeaning, SeedReadable, StopsAt, LeavesBehind;
    ReadableMeaning(rd, states[i]);
    ExtractedBounds(rd, lim, states, i, before);
    e := before.(seedBytes := before.seedBytes + |bytes|);
    var parsed := ParseProtobuf(rd, bytes, ConversationState, e.rootTypes.Keys, lim.maxNodes - |e.rootTypes|,
                                lim.maxNodes);
    if !parsed.valid {
      if before.Complete() {
        SeedWhole(rd, lim, states, i, before);
      }
      e := e.(unreadable := e.unreadable + [InvalidProtobuf(i)]);
      SeedMalformed(rd, lim, states, i, before, e);
      RootsKept(rd, lim, states, i, i + 1, before, e);
      return e, false;
    }
    SeedParsed(rd, lim, states, i, before, parsed);
    e := TakeRoots(rd, states, i, lim, before, e.seedBytes, parsed);
    stop := parsed.candidateLimited;
    if stop {
      SeedLimited(rd, lim, states, i, before, e);
    }
  }

  /** The roots of a parsed state join those before. */
  method TakeRoots(rd: Reader, states: seq<Text>, i: nat, lim: WalkLimits, before: Extracted, seedBytes: nat,
                   parsed: ParsedProtobuf)
    returns (e: Extracted)
    requires i < |states| && states[i] !in states[..i]
    requires ExtractedTo(rd, lim, states, i, before) && RootsNamed(rd, lim, states, i, before)
    requires before.seedBytes + |SeedBytes(states[i])| == seedBytes <= lim.maxBytes
    requires parsed.valid && NoneEmpty(parsed.candidates) && |before.rootTypes| <= lim.maxNodes
    requires |parsed.candidates.Keys - before.rootTypes.Keys| <= lim.maxNodes - |before.rootTypes|
    requires var m := SeedMeaning(rd, states[i]);
      && (!parsed.candidateLimited ==>
            m.valid && RefsOf(parsed.candidates) == m.refs
            && parsed.depthLimited == m.depthLimited && parsed.schemaUnsupported == m.unsupported)
      && (m.entries <= lim.maxNodes ==>
            && parsed.candidates.Keys - before.rootTypes.Keys <= Ids(m.refs)
            && (parsed.candidateLimited ==>
                  |parsed.candidates.Keys - before.rootTypes.Keys| == lim.maxNodes - |before.rootTypes|))
      && (before.Complete() ==>
            (SeedsFit(rd, lim, states, i + 1) <==> !parsed.candidateLimited && !m.depthLimited && !m.unsupported))
    ensures ExtractedTo(rd, lim, states, i + 1, e) && RootsNamed(rd, lim, states, i + 1, e)
    ensures parsed.candidateLimited ==> !e.Complete()
    ensures e.limitReasons == before.limitReasons + Reasons(parsed)
  {
    hide RefsOf, NoneEmpty, Ids, RootsNamed, SeedBytes, SeedsFit, ExtractedTo, MergeTypes, SeedMeaning, Reasons;
    ExtractedBounds(rd, lim, states, i, before);
    MergeTypesRefs(before.rootTypes, parsed.candidates);
    e := before.(seedBytes := seedBytes, rootTypes := MergeTypes(before.rootTypes, parsed.candidates),
                 limitReasons := before.limitReasons + Reasons(parsed));
    Parsed(rd, lim, states, i, before, e, parsed);
    RootsParsed(rd, lim, states, i, before, e, parsed);
  }

  lemma SeedMalformed(rd: Reader, lim: WalkLimits, states: seq<Text>, n: nat, before: Extracted, e: Extracted)
    requires n < |states| && ExtractedTo(rd, lim, states, n, before)
    requires before.Complete() ==> !SeedsFit(rd, lim, states, n + 1)
    requires e == before.(seedBytes := e.seedBytes, unreadable := e.unreadable) && e.unreadable != []
    requires e.seedBytes <= lim.maxBytes
    ensures ExtractedTo(rd, lim, states, n + 1, e)
  {
    hide ExtractedTo, SeedsFit;
    SeedRefused(rd, lim, states, n, before, e);
  }

  function Reasons(parsed: ParsedProtobuf): (r: set<LimitReason>)
    ensures parsed.candidateLimited <==> Nodes in r
    ensures (parsed.depthLimited <==> ProtobufDepth in r) && (parsed.schemaUnsupported <==> SchemaRoute in r)
    ensures Bytes !in r && Depth !in r
    ensures r == {} <==> !parsed.candidateLimited && !parsed.depthLimited && !parsed.schemaUnsupported
  {
    (if parsed.candidateLimited then {Nodes} else {})
    + (if parsed.depthLimited then {ProtobufDepth} else {})
    + (if parsed.schemaUnsupported then {SchemaRoute} else {})
  }

  lemma Parsed(rd: Reader, lim: WalkLimits, states: seq<Text>, n: nat, before: Extracted, e: Extracted,
               parsed: ParsedProtobuf)
    requires n < |states| && states[n] !in states[..n] && ExtractedTo(rd, lim, states, n, before)
    requires before.seedBytes + |SeedBytes(states[n])| == e.seedBytes <= lim.maxBytes
    requires e.unreadable == before.unreadable
    requires parsed.valid && NoneEmpty(e.rootTypes) && |e.rootTypes| <= lim.maxNodes
    requires RefsOf(e.rootTypes) == RefsOf(before.rootTypes) + RefsOf(parsed.candidates)
    requires e.limitReasons == before.limitReasons + Reasons(parsed)
    requires var m := SeedMeaning(rd, states[n]);
      && (!parsed.candidateLimited ==>
            (m.valid && RefsOf(parsed.candidates) == m.refs
             && parsed.depthLimited == m.depthLimited && parsed.schemaUnsupported == m.unsupported))
      && (before.Complete() ==> (SeedsFit(rd, lim, states, n + 1) <==>
            !parsed.candidateLimited && !m.depthLimited && !m.unsupported))
    ensures ExtractedTo(rd, lim, states, n + 1, e)
  {
    hide RefsOf, SeedMeaning, NoneEmpty, SeedBytes, SeedsFit, Reasons;
    if before.Complete() {
    } else if SeedsFit(rd, lim, states, n + 1) {
      SeedsFitPrefix(rd, lim, states, n, n + 1);
    }
  }
}
