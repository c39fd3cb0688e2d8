/** The methods of buildChatRepairSnapshot, src/chat/repair.ts: under one shared
    budget and row cache they come to the plan, or to a refusal of the budget. */
module RepairBuild {
  import opened Basics
  import opened Portable
  import opened Canonical
  import opened Bubbles
  import opened RepairBudget
  import opened Repair
  import opened RepairPlan
  import opened RepairReads
  import opened Reparse
  import ChatMerge

  /** Unparseable: the parser throws on the conversation that was put together. */
  datatype BuildResult =
    | Repairable(snapshot: ChatSnapshot, sourceVersionId: Text, repairedBubbleCount: nat)
    | Unrepaired(reason: Reason)
    | Unparseable

  /** The budget holds, and has only read rows it may read; or it is spent, and
      those rows do not fit a fresh one. */
  ghost predicate Within(work: RepairRowJsonWork, all: set<RowId>)
    reads work
  {
    && work.Valid()
    && if work.structuralLimitReached then !Affordable(work.rd, all) else work.read <= all
  }

  method Read(work: RepairRowJsonWork, row: Row, ghost all: set<RowId>) returns (usable: bool)
    requires Within(work, all) && !work.structuralLimitReached && IdOf(row) in all
    modifies work
    ensures Within(work, all)
    ensures !work.structuralLimitReached ==>
              usable == IsUsable(work.rd, row) && work.read == old(work.read) + {IdOf(row)}
  {
    hide Verdict, Affordable;
    var inspection := work.Inspect(row);
    if work.structuralLimitReached {
      NotAffordable(work.rd, old(work.read) + {IdOf(row)}, all);
    }
    usable := inspection.Usable?;
  }

  // ----- Selecting a version -----

  method ContainsEvery(work: RepairRowJsonWork, rows: Table, missing: seq<Text>, ghost all: set<RowId>)
    returns (every: bool)
    requires Within(work, all) && !work.structuralLimitReached && FirstReads(work.rd, rows, missing, 0) <= all
    modifies work
    ensures Within(work, all)
    ensures !work.structuralLimitReached ==> (every <==> forall key :: key in missing ==> Available(work.rd, rows, key))
    ensures !work.structuralLimitReached ==> work.read == old(work.read) + FirstReads(work.rd, rows, missing, 0)
  {
    hide IsUsable, IdOf;
    ghost var goal := work.read + FirstReads(work.rd, rows, missing, 0);
    for i := 0 to |missing|
      invariant Within(work, all) && !work.structuralLimitReached
      invariant work.read + FirstReads(work.rd, rows, missing, i) == goal
      invariant FirstReads(work.rd, rows, missing, i) <= all
      invariant forall j :: 0 <= j < i ==> Available(work.rd, rows, missing[j])
    {
      if missing[i] !in rows {
        assert missing[i] in missing && !Available(work.rd, rows, missing[i]);
        return false;
      }
      var usable := Read(work, rows[missing[i]], all);
      if work.structuralLimitReached {
        return false;
      }
      if !usable {
        assert missing[i] in missing && !Available(work.rd, rows, missing[i]);
        return false;
      }
    }
    return true;
  }

  method Select(work: RepairRowJsonWork, local: ChatSnapshot, candidates: seq<Candidate>, missing: seq<Text>,
                ghost all: set<RowId>)
    returns (selected: nat)
    requires Within(work, all) && !work.structuralLimitReached
    requires SelectReads(work.rd, local, candidates, missing, 0) <= all
    modifies work
    ensures Within(work, all)
    ensures selected <= |candidates|
    ensures !work.structuralLimitReached ==>
              selected == FirstOffer(work.rd, local, candidates, missing, 0)
              && work.read == old(work.read) + SelectReads(work.rd, local, candidates, missing, 0)
  {
    hide Available, Index, Within, FirstReads;
    ghost var goal := work.read + SelectReads(work.rd, local, candidates, missing, 0);
    selected := 0;
    while selected < |candidates|
      invariant selected <= |candidates|
      invariant Within(work, all) && !work.structuralLimitReached
      invariant work.read + SelectReads(work.rd, local, candidates, missing, selected) == goal
      invariant SelectReads(work.rd, local, candidates, missing, selected) <= all
      invariant FirstOffer(work.rd, local, candidates, missing, 0)
                == FirstOffer(work.rd, local, candidates, missing, selected)
    {
      if Trusted(local, candidates[selected]) {
        var every := ContainsEvery(work, Index(candidates[selected].snapshot.bubbles), missing, all);
        if work.structuralLimitReached || every {
          return;
        }
      }
      selected := selected + 1;
    }
  }

  // ----- Newer versions -----

  method AnyContradiction(work: RepairRowJsonWork, newer: Table, selected: Table, missing: seq<Text>,
                          ghost all: set<RowId>)
    returns (found: bool)
    requires Within(work, all) && !work.structuralLimitReached
    requires CompareReads(work.rd, newer, selected, missing, 0) <= all
    modifies work
    ensures Within(work, all)
    ensures !work.structuralLimitReached ==>
              (found <==> exists key :: key in missing && Contradicts(work.rd, newer, selected, key))
    ensures !work.structuralLimitReached ==>
              work.read == old(work.read) + CompareReads(work.rd, newer, selected, missing, 0)
  {
    hide IsUsable, IdOf, Identity;
    ghost var goal := work.read + CompareReads(work.rd, newer, selected, missing, 0);
    for i := 0 to |missing|
      invariant Within(work, all) && !work.structuralLimitReached
      invariant work.read + CompareReads(work.rd, newer, selected, missing, i) == goal
      invariant CompareReads(work.rd, newer, selected, missing, i) <= all
      invariant forall j :: 0 <= j < i ==> !Contradicts(work.rd, newer, selected, missing[j])
    {
      var key := missing[i];
      if key in newer {
        var usable := Read(work, newer[key], all);
        if work.structuralLimitReached {
          return false;
        }
        if key in selected && usable && Identity(work.rd, newer[key]) != Identity(work.rd, selected[key]) {
          assert Contradicts(work.rd, newer, selected, key);
          return true;
        }
      }
    }
    return false;
  }

  method NewerVersionsDisagree(work: RepairRowJsonWork, local: ChatSnapshot, candidates: seq<Candidate>, n: nat,
                               selected: Table, missing: seq<Text>, ghost all: set<RowId>)
    returns (found: bool)
    requires Within(work, all) && !work.structuralLimitReached && n < |candidates|
    requires DisagreeReads(work.rd, local, candidates, n, selected, missing, 0) <= all
    modifies work
    ensures Within(work, all)
    ensures !work.structuralLimitReached ==>
              found == Disagree(work.rd, local, candidates, n, selected, missing)
              && work.read == old(work.read) + DisagreeReads(work.rd, local, candidates, n, selected, missing, 0)
  {
    hide Contradicts, Index, Within, CompareReads;
    ghost var goal := work.read + DisagreeReads(work.rd, local, candidates, n, selected, missing, 0);
    for i := 0 to n
      invariant Within(work, all) && !work.structuralLimitReached
      invariant work.read + DisagreeReads(work.rd, local, candidates, n, selected, missing, i) == goal
      invariant DisagreeReads(work.rd, local, candidates, n, selected, missing, i) <= all
      invariant forall j :: 0 <= j < i ==> !NewerDisagrees(work.rd, local, candidates[j], selected, missing)
    {
      if Trusted(local, candidates[i]) {
        found := AnyContradiction(work, Index(candidates[i].snapshot.bubbles), selected, missing, all);
        if work.structuralLimitReached {
          return;
        }
        if found {
          assert NewerDisagrees(work.rd, local, candidates[i], selected, missing);
          return;
        }
      }
    }
    return false;
  }

  // ----- Gathering rows -----

  method GatherRows(work: RepairRowJsonWork, before: Table, rows: seq<Row>, ghost earlier: seq<Row>,
                    ghost start: set<RowId>, ghost all: set<RowId>)
    returns (pool: Table)
    requires Within(work, all) && !work.structuralLimitReached
    requires PoolReads(work.rd, earlier + rows) <= all && before == Pool(work.rd, earlier)
    requires work.read == start + PoolReads(work.rd, earlier)
    modifies work
    ensures Within(work, all)
    ensures !work.structuralLimitReached ==>
              pool == Pool(work.rd, earlier + rows) && work.read == start + PoolReads(work.rd, earlier + rows)
  {
    hide IsUsable, IdOf, Pool, PoolReads;
    pool := before;
    assert earlier + rows[..0] == earlier;
    for i := 0 to |rows|
      invariant Within(work, all) && !work.structuralLimitReached
      invariant pool == Pool(work.rd, earlier + rows[..i])
      invariant work.read == start + PoolReads(work.rd, earlier + rows[..i])
    {
      var row := rows[i];
      var key := row.key;
      RowReads(work.rd, earlier, rows, i);
      if key !in pool {
        pool := pool[key := row];
      } else {
        var existingUsable := Read(work, pool[key], all);
        if work.structuralLimitReached {
          return;
        }
        if !existingUsable {
          var usable := Read(work, row, all);
          if work.structuralLimitReached {
            return;
          }
          if usable {
            pool := pool[key := row];
          }
        }
      }
    }
    assert rows[..|rows|] == rows;
  }

  /** What the i-th row adds to the pool and to the reads. */
  lemma RowReads(rd: RowReader, earlier: seq<Row>, rows: seq<Row>, i: nat)
    requires i < |rows|
    ensures Pool(rd, earlier + rows[..i + 1]) == Admit(rd, Pool(rd, earlier + rows[..i]), rows[i])
    ensures PoolReads(rd, earlier + rows[..i + 1]) ==
              PoolReads(rd, earlier + rows[..i]) + AdmitReads(rd, Pool(rd, earlier + rows[..i]), rows[i])
    ensures PoolReads(rd, earlier + rows[..i + 1]) <= PoolReads(rd, earlier + rows)
  {
    hide IsUsable, Pool, PoolReads, Admit, AdmitReads;
    assert earlier + rows[..i + 1] == earlier + rows[..i] + [rows[i]];
    PoolStep(rd, earlier + rows[..i], rows[i]);
    PoolReadsStep(rd, earlier + rows[..i], rows[i]);
    PoolReadsGrow(rd, earlier + rows, |earlier| + i + 1);
    assert (earlier + rows)[..|earlier| + i + 1] == earlier + rows[..i + 1];
  }

  method Gather(work: RepairRowJsonWork, local: ChatSnapshot, candidates: seq<Candidate>, n: nat, ghost all: set<RowId>)
    returns (pool: Table)
    requires Within(work, all) && !work.structuralLimitReached && n < |candidates|
    requires PoolReads(work.rd, TrustedRows(local, candidates, n + 1)) <= all
    modifies work
    ensures Within(work, all)
    ensures !work.structuralLimitReached ==>
              pool == Pool(work.rd, TrustedRows(local, candidates, n + 1))
              && work.read == old(work.read) + PoolReads(work.rd, TrustedRows(local, candidates, n + 1))
  {
    hide IsUsable, Within, Pool, PoolReads;
    ghost var start := work.read;
    pool := map[];
    NothingPooled(work.rd);
    for i := 0 to n + 1
      invariant Within(work, all) && !work.structuralLimitReached
      invariant pool == Pool(work.rd, TrustedRows(local, candidates, i))
      invariant work.read == start + PoolReads(work.rd, TrustedRows(local, candidates, i))
    {
      if Trusted(local, candidates[i]) {
        TrustedReads(work.rd, local, candidates, i + 1, n + 1);
        pool := GatherRows(work, pool, candidates[i].snapshot.bubbles, TrustedRows(local, candidates, i), start, all);
        if work.structuralLimitReached {
          return;
        }
      } else {
        assert TrustedRows(local, candidates, i) + [] == TrustedRows(local, candidates, i);
      }
    }
  }

  lemma {:induction false} TrustedReads(rd: RowReader, local: ChatSnapshot, candidates: seq<Candidate>, m: nat, n: nat)
    requires m <= n <= |candidates|
    ensures PoolReads(rd, TrustedRows(local, candidates, m)) <= PoolReads(rd, TrustedRows(local, candidates, n))
    decreases n
  {
    hide IsUsable, PoolReads;
    if m < n {
      TrustedReads(rd, local, candidates, m, n - 1);
      var before, after := TrustedRows(local, candidates, n - 1), TrustedRows(local, candidates, n);
      PoolReadsGrow(rd, after, |before|);
      assert after[..|before|] == before;
    }
  }

  lemma NothingPooled(rd: RowReader)
    ensures Pool(rd, []) == map[] && PoolReads(rd, []) == {}
  {
  }

  // ----- The live rows -----

  lemma OverlayStep(rd: RowReader, pool: Table, live: Table, row: Row)
    requires row.key !in live
    ensures var o := Overlay(rd, pool, live);
            Overlay(rd, pool, live[row.key := row]) ==
              if IsUsable(rd, row) || row.key !in o then o[row.key := row] else o
  {
    hide IsUsable;
    var o, grown := Overlay(rd, pool, live), Overlay(rd, pool, live[row.key := row]);
    assert grown.Keys == o.Keys + {row.key};
    forall key | key in grown && key != row.key ensures grown[key] == o[key] {
    }
  }

  method KeepLive(work: RepairRowJsonWork, live: seq<Row>, pool: Table, ghost all: set<RowId>) returns (repaired: Table)
    requires Within(work, all) && !work.structuralLimitReached && RowSet(live) <= all && DistinctKeys(live)
    modifies work
    ensures Within(work, all)
    ensures !work.structuralLimitReached ==>
              repaired == Overlay(work.rd, pool, Index(live)) && work.read == old(work.read) + RowSet(live)
  {
    hide IsUsable, IdOf, Overlay, Index;
    repaired := pool;
    OverlayNothing(work.rd, pool);
    assert live[..0] == [];
    for i := 0 to |live|
      invariant Within(work, all) && !work.structuralLimitReached
      invariant work.read == old(work.read) + RowSet(live[..i])
      invariant repaired == Overlay(work.rd, pool, Index(live[..i]))
    {
      var row := live[i];
      assert IdOf(row) in RowSet(live);
      assert live[..i + 1] == live[..i] + [row];
      NewLiveKey(live, i);
      OverlayStep(work.rd, pool, Index(live[..i]), row);
      var usable := Read(work, row, all);
      if work.structuralLimitReached {
        return;
      }
      if usable || row.key !in repaired {
        repaired := repaired[row.key := row];
      }
    }
    assert live[..|live|] == live;
  }

  lemma OverlayNothing(rd: RowReader, pool: Table)
    ensures Overlay(rd, pool, Index([])) == pool
  {
  }

  lemma NewLiveKey(live: seq<Row>, i: nat)
    requires i < |live| && DistinctKeys(live)
    ensures live[i].key !in Index(live[..i])
    ensures Index(live[..i + 1]) == Index(live[..i])[live[i].key := live[i]]
  {
    assert live[..i + 1] == live[..i] + [live[i]];
    IndexAppend(live[..i], live[i]);
    ChatMerge.IndexRows(live[..i]);
  }

  // ----- The result -----

  /** The conversation with its rows replaced, in key order. */
  ghost predicate IsRebuilt(local: ChatSnapshot, rows: Table, s: ChatSnapshot) {
    s == local.(bubbles := s.bubbles) && Index(s.bubbles) == rows && StrictlySorted(Keys(s.bubbles))
  }

  method Rebuild(local: ChatSnapshot, rows: Table) returns (s: ChatSnapshot)
    requires Keyed(rows)
    ensures IsRebuilt(local, rows, s)
  {
    hide StrictlySorted, Index;
    var keys := SortTexts(rows.Keys);
    var bubbles := [];
    for i := 0 to |keys|
      invariant |bubbles| == i && forall j :: 0 <= j < i ==> bubbles[j] == rows[keys[j]]
    {
      assert keys[i] in Elements(keys);
      bubbles := bubbles + [rows[keys[i]]];
    }
    InOrder(rows, keys, bubbles);
    return local.(bubbles := bubbles);
  }

  lemma InOrder(rows: Table, keys: seq<Text>, bubbles: seq<Row>)
    requires Keyed(rows) && StrictlySorted(keys) && Elements(keys) == rows.Keys
    requires |bubbles| == |keys| && forall j :: 0 <= j < |keys| ==> bubbles[j] == rows[keys[j]]
    ensures Keys(bubbles) == keys && Index(bubbles) == rows
  {
    hide StrictlySorted, Index;
    forall j | 0 <= j < |keys| ensures keys[j] in rows && bubbles[j].key == keys[j] {
      assert keys[j] in Elements(keys);
    }
    assert Keys(bubbles) == keys;
    forall i, j | 0 <= i < j < |bubbles| ensures bubbles[i].key != bubbles[j].key {
      if bubbles[i].key == bubbles[j].key {
        SortedNoDuplicates(keys, i, j);
      }
    }
    DistinctIndex(bubbles);
    forall key | key in rows ensures Index(bubbles)[key] == rows[key] {
      var j :| 0 <= j < |keys| && keys[j] == key;
      assert bubbles[j].key == key;
    }
  }

  /** What is left to check once the rows are chosen. */
  ghost predicate Concludes(
    c: Codec, rd: RowReader, local: ChatSnapshot, rows: Table, missing: seq<Text>, versionId: Text, r: BuildResult)
  {
    if exists key :: key in missing && !Available(rd, rows, key) then r == Unrepaired(RowDisappeared)
    else
      match r
      case Repairable(s, v, n) =>
        && IsRebuilt(local, rows, s) && Parses(c, s) && v == versionId && n == |missing|
        && IsWhole(rd, s) && Affordable(rd, Needed(rd, s))
      case Unparseable => exists s :: IsRebuilt(local, rows, s) && !Parses(c, s)
      case Unrepaired(reason) => reason == StillUnavailable && exists s :: IsRebuilt(local, rows, s) && !IsWhole(rd, s)
  }

  /** No message of the conversation is unavailable. */
  predicate IsWhole(rd: RowReader, s: ChatSnapshot) {
    Findings(rd, s).Known? && Findings(rd, s).unavailable == []
  }

  /** The recovered rows are read again, and the result is audited again: both
      from the cache, at no further cost. */
  method Conclude(c: Codec, work: RepairRowJsonWork, local: ChatSnapshot, rows: Table, missing: seq<Text>,
                  versionId: Text, ghost all: set<RowId>)
    returns (r: BuildResult)
    requires Within(work, all) && !work.structuralLimitReached && Keyed(rows) && RowIds(rows, missing) <= all
    requires forall s :: IsRebuilt(local, rows, s) ==> Needed(work.rd, s) <= work.read + RowIds(rows, missing)
    modifies work
    ensures work.Valid()
    ensures r == Unrepaired(LimitReached) ==> !Affordable(work.rd, all)
    ensures r != Unrepaired(LimitReached) && (forall key :: key in missing ==> Available(work.rd, rows, key)) ==>
              Affordable(work.rd, old(work.read) + RowIds(rows, missing))
    ensures r != Unrepaired(LimitReached) ==> Concludes(c, work.rd, local, rows, missing, versionId, r)
  {
    hide IsUsable, Verdict, IdOf, Affordable, IsWhole, Needed, IsRebuilt, Keyed, Parses, work.Valid;
    for i := 0 to |missing|
      invariant Within(work, all) && !work.structuralLimitReached
      invariant work.read == old(work.read) + RowIds(rows, missing[..i])
      invariant forall j :: 0 <= j < i ==> Available(work.rd, rows, missing[j])
    {
      var key := missing[i];
      RowIdsStep(rows, missing, i);
      if key !in rows {
        assert key in missing && !Available(work.rd, rows, key);
        return Unrepaired(RowDisappeared);
      }
      var usable := Read(work, rows[key], all);
      if work.structuralLimitReached {
        return Unrepaired(LimitReached);
      }
      if !usable {
        assert key in missing && !Available(work.rd, rows, key);
        return Unrepaired(RowDisappeared);
      }
    }
    assert missing[..|missing|] == missing;
    work.Afforded();
    var snapshot := Rebuild(local, rows);
    var parsed := ParsePortableChatSnapshot(c, snapshot);
    if !parsed {
      return Unparseable;
    }
    r := Reaudit(work, snapshot, versionId, |missing|);
  }

  method Reaudit(work: RepairRowJsonWork, s: ChatSnapshot, versionId: Text, count: nat) returns (r: BuildResult)
    requires work.Valid() && !work.structuralLimitReached && Needed(work.rd, s) <= work.read
    modifies work
    ensures work.Valid()
    ensures if IsWhole(work.rd, s) then r == Repairable(s, versionId, count) && Affordable(work.rd, Needed(work.rd, s))
            else r == Unrepaired(StillUnavailable)
  {
    hide Verdict, IdOf, Findings, Needed;
    AffordableSubset(work.rd, Needed(work.rd, s), work.read);
    assert work.read + Needed(work.rd, s) == work.read;
    var audit := AuditWithWork(work, s);
    if !audit.Known? || |audit.unavailable| > 0 {
      return Unrepaired(StillUnavailable);
    }
    return Repairable(s, versionId, count);
  }

  // ----- Building -----

  /** Every row the last audit reads was read before: live ones by the first
      audit, the others just before. */
  lemma NeededWasRead(rd: RowReader, local: ChatSnapshot, rows: Table, missing: seq<Text>, pool: Table, s: ChatSnapshot)
    requires IsRebuilt(local, rows, s) && Findings(rd, local).Known? && missing == Findings(rd, local).unavailable
    requires rows == Overlay(rd, pool, Index(local.bubbles))
    ensures Needed(rd, s) <= Needed(rd, local) + RowIds(rows, missing)
  {
    hide IsUsable, IdOf, Index, Verdict, StrictlySorted;
    assert References(rd, s) == References(rd, local);
    var references := References(rd, local).value;
    forall key | key in references && key in rows
      ensures IdOf(rows[key]) in RowIds(Index(local.bubbles), references) + RowIds(rows, missing)
    {
      if key !in missing {
        assert Available(rd, Index(local.bubbles), key);
      }
    }
  }

  lemma ChosenKeyed(rd: RowReader, local: ChatSnapshot, trusted: seq<Row>)
    ensures Keyed(Overlay(rd, Pool(rd, trusted), Index(local.bubbles)))
  {
    hide IsUsable, IdOf, Index, Pool;
    PoolMeans(rd, trusted);
    IndexKeyed(local.bubbles);
  }

  /** The result is what the plan says, unless the parser refuses the conversation
      put together after the plan. */
  ghost predicate Follows(c: Codec, local: ChatSnapshot, candidates: seq<Candidate>, p: RepairPlan.Plan,
                          r: BuildResult)
  {
    match p
    case Refuse(reason) => r == Unrepaired(reason)
    case Restore(rows, source, missing) =>
      if r.Unparseable? then exists s :: IsRebuilt(local, rows, s) && !Parses(c, s)
      else
        && r.Repairable?
        && IsRebuilt(local, rows, r.snapshot)
        && Parses(c, r.snapshot)
        && r.repairedBubbleCount == |missing|
        && source < |candidates| && r.sourceVersionId == candidates[source].versionId
  }

  /** The rest of a build once the conversation is known to be damaged. */
  method Synthesize(c: Codec, work: RepairRowJsonWork, local: ChatSnapshot, candidates: seq<Candidate>,
                    missing: seq<Text>)
    returns (r: BuildResult)
    requires Within(work, BuildReads(work.rd, local, candidates)) && !work.structuralLimitReached
    requires ParsedRows(local, candidates)
    requires Findings(work.rd, local).Known? && missing == Findings(work.rd, local).unavailable != []
    requires work.read == Needed(work.rd, local)
    modifies work
    ensures r == Unrepaired(LimitReached) <==> !Affordable(work.rd, BuildReads(work.rd, local, candidates))
    ensures r != Unrepaired(LimitReached) ==> Follows(c, local, candidates, PlanRepair(work.rd, local, candidates), r)
    ensures r.Repairable? ==> Affordable(work.rd, Needed(work.rd, r.snapshot))
  {
    hide Findings, Affordable, FirstOffer, Disagree, Pool, Overlay, Index, Needed, IsRebuilt, TrustedRows, Available;
    hide work.Valid, DistinctKeys, Parses, SelectReads, DisagreeReads, GatherReads;
    ghost var rd, all := work.rd, BuildReads(work.rd, local, candidates);
    var n := Select(work, local, candidates, missing, all);
    if work.structuralLimitReached {
      return Unrepaired(LimitReached);
    }
    if n == |candidates| {
      work.Afforded();
      assert work.read == all;
      return Unrepaired(NoVersion);
    }
    var disagree :=
      NewerVersionsDisagree(work, local, candidates, n, Index(candidates[n].snapshot.bubbles), missing, all);
    if work.structuralLimitReached {
      return Unrepaired(LimitReached);
    }
    if disagree {
      work.Afforded();
      assert work.read == all;
      return Unrepaired(Disagreement);
    }
    assert work.read + GatherReads(rd, local, candidates, n, missing) == all;
    r := PutTogether(c, work, local, candidates, missing, n, all);
  }

  /** The rows put together, and what comes of them. */
  method PutTogether(c: Codec, work: RepairRowJsonWork, local: ChatSnapshot, candidates: seq<Candidate>,
                     missing: seq<Text>, n: nat, ghost all: set<RowId>)
    returns (r: BuildResult)
    requires Within(work, all) && !work.structuralLimitReached && ParsedRows(local, candidates) && n < |candidates|
    requires Findings(work.rd, local).Known? && missing == Findings(work.rd, local).unavailable != []
    requires Needed(work.rd, local) <= work.read
    requires n == FirstOffer(work.rd, local, candidates, missing, 0)
    requires !Disagree(work.rd, local, candidates, n, Index(candidates[n].snapshot.bubbles), missing)
    requires work.read + GatherReads(work.rd, local, candidates, n, missing) == all
    modifies work
    ensures r == Unrepaired(LimitReached) <==> !Affordable(work.rd, all)
    ensures r != Unrepaired(LimitReached) ==> Follows(c, local, candidates, PlanRepair(work.rd, local, candidates), r)
    ensures r.Repairable? ==> Affordable(work.rd, Needed(work.rd, r.snapshot))
  {
    hide Findings, Affordable, FirstOffer, Disagree, Pool, Overlay, Index, Needed, IsRebuilt, TrustedRows, Available;
    hide work.Valid, DistinctKeys, Parses, PoolReads, RowSet, RowIds;
    ghost var rd := work.rd;
    var pool := Gather(work, local, candidates, n, all);
    if work.structuralLimitReached {
      return Unrepaired(LimitReached);
    }
    var rows := KeepLive(work, local.bubbles, pool, all);
    if work.structuralLimitReached {
      return Unrepaired(LimitReached);
    }
    ChosenKeyed(rd, local, TrustedRows(local, candidates, n + 1));
    assert PlanRepair(rd, local, candidates) == Restore(rows, n, missing);
    forall s | IsRebuilt(local, rows, s) ensures Needed(rd, s) <= work.read + RowIds(rows, missing) {
      NeededWasRead(rd, local, rows, missing, pool, s);
    }
    assert work.read + RowIds(rows, missing) == all;
    r := Conclude(c, work, local, rows, missing, candidates[n].versionId, all);
    Settled(c, rd, local, candidates, rows, missing, candidates[n].versionId, r);
  }

  /** A chosen row never disappears, and the synthesized conversation is never
      found unavailable: the last two refusals do not happen. */
  lemma Settled(c: Codec, rd: RowReader, local: ChatSnapshot, candidates: seq<Candidate>, rows: Table,
                missing: seq<Text>, versionId: Text, r: BuildResult)
    requires ParsedRows(local, candidates) && PlanRepair(rd, local, candidates).Restore?
    requires rows == PlanRepair(rd, local, candidates).rows && missing == PlanRepair(rd, local, candidates).missing
    ensures forall key :: key in missing ==> Available(rd, rows, key)
    ensures Concludes(c, rd, local, rows, missing, versionId, r) ==>
      if r.Unparseable? then exists s :: IsRebuilt(local, rows, s) && !Parses(c, s)
      else
        && r.Repairable? && IsRebuilt(local, rows, r.snapshot) && Parses(c, r.snapshot)
        && r.sourceVersionId == versionId
        && r.repairedBubbleCount == |missing|
        && Affordable(rd, Needed(rd, r.snapshot))
  {
    hide PlanRepair, Findings, Affordable, Needed, Available, Index, StrictlySorted, Parses;
    forall key | key in missing ensures Available(rd, rows, key) {
      RepairRestores(rd, local, candidates, key);
    }
    forall s | IsRebuilt(local, rows, s) ensures IsWhole(rd, s) {
      RepairCompletes(rd, local, candidates, s);
    }
  }

  /** buildChatRepairSnapshot. The shared cache never changes an answer: the result
      is the plan's, or a refusal of the budget exactly when it cannot pay for the rows
      the build reads; and a repaired conversation passes the audit with a fresh one. */
  method BuildChatRepairSnapshot(c: Codec, rd: RowReader, local: ChatSnapshot, candidates: seq<Candidate>)
    returns (r: BuildResult)
    requires ParsedRows(local, candidates)
    ensures r == Unrepaired(LimitReached) <==> !Affordable(rd, BuildReads(rd, local, candidates))
    ensures r != Unrepaired(LimitReached) ==> Follows(c, local, candidates, PlanRepair(rd, local, candidates), r)
    ensures r.Repairable? ==>
              Affordable(rd, Needed(rd, r.snapshot))
              && Findings(rd, r.snapshot) == Known(References(rd, local).value, [])
  {
    hide Affordable, Needed, PlanFrom, IsRebuilt, Parses, DistinctKeys, References, Unavailable, Index, SynthesisReads;
    var work := new RepairRowJsonWork(rd);
    var audit := AuditWithWork(work, local);
    assert {} + Needed(rd, local) == Needed(rd, local);
    match audit {
      case Refused(reason) =>
        if work.structuralLimitReached {
          NotAffordable(rd, Needed(rd, local), BuildReads(rd, local, candidates));
        } else {
          work.Afforded();
          assert audit == Findings(rd, local) && BuildReads(rd, local, candidates) == Needed(rd, local);
        }
        return Unrepaired(reason);
      case Known(_, missing) =>
        if |missing| == 0 {
          work.Afforded();
          assert missing == [] && BuildReads(rd, local, candidates) == Needed(rd, local);
          return Unrepaired(AlreadyComplete);
        }
        r := Synthesize(c, work, local, candidates, missing);
        if r.Repairable? {
          Complete(c, rd, local, candidates, r);
        }
    }
  }

  lemma Complete(c: Codec, rd: RowReader, local: ChatSnapshot, candidates: seq<Candidate>, r: BuildResult)
    requires ParsedRows(local, candidates) && r.Repairable?
    requires Follows(c, local, candidates, PlanRepair(rd, local, candidates), r)
    ensures References(rd, local).Some? && Findings(rd, r.snapshot) == Known(References(rd, local).value, [])
  {
    hide PlanRepair, Findings, References, Index, StrictlySorted, Parses;
    RepairCompletes(rd, local, candidates, r.snapshot);
  }

  // ----- When the parser refuses -----

  /** The conversation put together is determined by its rows. */
  lemma RebuiltOnce(local: ChatSnapshot, rows: Table, s: ChatSnapshot, t: ChatSnapshot)
    requires IsRebuilt(local, rows, s) && IsRebuilt(local, rows, t)
    ensures s == t
  {
    hide Index, StrictlySorted;
    SortedRowsUnique(s.bubbles, t.bubbles);
  }

  lemma SortedRowsIndex(rows: seq<Row>)
    requires StrictlySorted(Keys(rows))
    ensures DistinctKeys(rows) && Elements(Keys(rows)) == Index(rows).Keys
    ensures forall i :: 0 <= i < |rows| ==> rows[i].key in Index(rows) && Index(rows)[rows[i].key] == rows[i]
  {
    forall i, j | 0 <= i < j < |rows| ensures rows[i].key != rows[j].key {
      if Keys(rows)[i] == Keys(rows)[j] {
        SortedNoDuplicates(Keys(rows), i, j);
      }
    }
    DistinctIndex(rows);
  }

  /** A repair of parsed conversations is refused by the parser exactly when it has
      too many tokens, and so never only for its number of rows. */
  lemma RepairParses(c: Codec, rd: RowReader, local: ChatSnapshot, candidates: seq<Candidate>, s: ChatSnapshot)
    requires FieldsOk(c, local) && (forall candidate :: candidate in candidates ==> FieldsOk(c, candidate.snapshot))
    requires PlanRepair(rd, local, candidates).Restore? && IsRebuilt(local, PlanRepair(rd, local, candidates).rows, s)
    requires HeaderInert(local.header)
    ensures Parses(c, s) <==> Tokens(s) <= MAX_STRUCTURAL_TOKENS
  {
    hide PlanRepair, Index, Tokens, StructureOk, StrictlySorted, ValidPayload, HeaderInert, IsBubbleOf, RowOk;
    TokensExact(s);
    if Tokens(s) <= MAX_STRUCTURAL_TOKENS {
      RowsWithinTokens(s);
      SortedRowsIndex(s.bubbles);
      forall row | row in s.bubbles ensures IsBubbleOf(s.composerId, row) {
        var i :| 0 <= i < |s.bubbles| && s.bubbles[i] == row;
        RepairedRow(c, rd, local, candidates, row.key);
      }
    }
  }

  lemma RepairedRow(c: Codec, rd: RowReader, local: ChatSnapshot, candidates: seq<Candidate>, key: Text)
    requires FieldsOk(c, local) && (forall candidate :: candidate in candidates ==> FieldsOk(c, candidate.snapshot))
    requires PlanRepair(rd, local, candidates).Restore? && key in PlanRepair(rd, local, candidates).rows
    ensures IsBubbleOf(local.composerId, PlanRepair(rd, local, candidates).rows[key])
  {
    hide PlanRepair, ValidPayload, IsBubbleOf, DistinctKeys, RowOk, IsUsable;
    var p := PlanRepair(rd, local, candidates);
    RepairKeepsKeys(rd, local, candidates, key);
    RepairInventsNothing(rd, local, candidates, key);
    if p.rows[key] !in local.bubbles {
      var i := TrustedFrom(local, candidates, p.source + 1, p.rows[key]);
      assert FieldsOk(c, candidates[i].snapshot);
    }
  }
}
