/** What a repair comes to, whatever the row cache holds: buildChatRepairSnapshot
    of src/chat/repair.ts, and what its result keeps of every version. */
module RepairPlan {
  import opened Basics
  import opened Portable
  import opened Canonical
  import opened Bubbles
  import opened RepairBudget
  import opened Repair
  import ChatMerge

  // ----- What history offers -----

  predicate Trusted(local: ChatSnapshot, c: Candidate) {
    c.snapshot.composerId == local.composerId
  }

  /** A usable row for every unavailable message. */
  predicate Offers(rd: RowReader, local: ChatSnapshot, c: Candidate, missing: seq<Text>) {
    Trusted(local, c) && forall key :: key in missing ==> Available(rd, Index(c.snapshot.bubbles), key)
  }

  /** The newest version from the i-th on that offers every message. */
  function FirstOffer(rd: RowReader, local: ChatSnapshot, candidates: seq<Candidate>, missing: seq<Text>,
                      i: nat): (r: nat)
    requires i <= |candidates|
    ensures i <= r <= |candidates|
    ensures r < |candidates| ==> Offers(rd, local, candidates[r], missing)
    ensures forall j :: i <= j < r ==> !Offers(rd, local, candidates[j], missing)
    decreases |candidates| - i
  {
    if i == |candidates| || Offers(rd, local, candidates[i], missing) then i
    else FirstOffer(rd, local, candidates, missing, i + 1)
  }

  /** portableRowIdentity */
  function Identity(rd: RowReader, row: Row): (StorageClass, Text) {
    (if row.valueType.Some? then row.valueType.value else if rd.text(RowBytes(row)).Some? then TextClass else BlobClass,
     row.valueBase64)
  }

  predicate Contradicts(rd: RowReader, newer: Table, selected: Table, key: Text) {
    Available(rd, newer, key) && key in selected && Identity(rd, newer[key]) != Identity(rd, selected[key])
  }

  /** A version newer than the n-th has another usable value for a message. */
  predicate Disagree(rd: RowReader, local: ChatSnapshot, candidates: seq<Candidate>, n: nat, selected: Table,
                     missing: seq<Text>)
    requires n <= |candidates|
  {
    exists i :: 0 <= i < n && NewerDisagrees(rd, local, candidates[i], selected, missing)
  }

  predicate NewerDisagrees(rd: RowReader, local: ChatSnapshot, c: Candidate, selected: Table, missing: seq<Text>) {
    Trusted(local, c) && exists key :: key in missing && Contradicts(rd, Index(c.snapshot.bubbles), selected, key)
  }

  /** The rows of the conversation's first n versions, newest version first. */
  function TrustedRows(local: ChatSnapshot, candidates: seq<Candidate>, n: nat): seq<Row>
    requires n <= |candidates|
  {
    if n == 0 then []
    else
      TrustedRows(local, candidates, n - 1)
      + if Trusted(local, candidates[n - 1]) then candidates[n - 1].snapshot.bubbles else []
  }

  // ----- Which row is kept -----

  /** The first row of a key stays, unless it is damaged and this one is not. */
  function Admit(rd: RowReader, pool: Table, row: Row): Table {
    if row.key in pool && (IsUsable(rd, pool[row.key]) || !IsUsable(rd, row)) then pool else pool[row.key := row]
  }

  function Pool(rd: RowReader, rows: seq<Row>): Table {
    if rows == [] then map[] else Admit(rd, Pool(rd, rows[..|rows| - 1]), rows[|rows| - 1])
  }

  lemma PoolStep(rd: RowReader, rows: seq<Row>, row: Row)
    ensures Pool(rd, rows + [row]) == Admit(rd, Pool(rd, rows), row)
  {
    assert (rows + [row])[..|rows|] == rows;
  }

  /** The pooled row of a key is the first usable one, or the first if none is. */
  ghost predicate IsBest(rd: RowReader, rows: seq<Row>, row: Row) {
    exists i :: 0 <= i < |rows| && rows[i] == row && forall j :: 0 <= j < |rows| && rows[j].key == row.key && j != i ==>
      if IsUsable(rd, row) then j > i || !IsUsable(rd, rows[j]) else j > i && !IsUsable(rd, rows[j])
  }

  lemma {:induction false} PoolMeans(rd: RowReader, rows: seq<Row>)
    ensures Pool(rd, rows).Keys == Elements(Keys(rows))
    ensures forall key ::
              key in Pool(rd, rows) ==> Pool(rd, rows)[key].key == key && IsBest(rd, rows, Pool(rd, rows)[key])
  {
    hide IsUsable;
    if rows != [] {
      var init, last := rows[..|rows| - 1], rows[|rows| - 1];
      PoolMeans(rd, init);
      var pool := Pool(rd, init);
      assert rows == init + [last] && Keys(rows) == Keys(init) + [last.key];
      assert Elements(Keys(rows)) == Elements(Keys(init)) + {last.key};
      assert rows[|init|] == last;
      forall key | key in Pool(rd, rows)
        ensures Pool(rd, rows)[key].key == key && IsBest(rd, rows, Pool(rd, rows)[key])
      {
        if key in pool && Pool(rd, rows)[key] == pool[key] {
          BestStays(rd, init, last, pool[key]);
        } else {
          assert key == last.key && Pool(rd, rows)[key] == last;
          BestChanges(rd, init, last, pool);
        }
      }
    }
  }

  lemma BestStays(rd: RowReader, init: seq<Row>, last: Row, row: Row)
    requires IsBest(rd, init, row) && (last.key == row.key ==> IsUsable(rd, row) || !IsUsable(rd, last))
    ensures IsBest(rd, init + [last], row)
  {
    hide IsUsable;
    var rows := init + [last];
    var i :| 0 <= i < |init| && init[i] == row && forall j :: 0 <= j < |init| && init[j].key == row.key && j != i ==>
      if IsUsable(rd, row) then j > i || !IsUsable(rd, init[j]) else j > i && !IsUsable(rd, init[j]);
    assert rows[i] == row;
    assert forall j :: 0 <= j < |init| ==> rows[j] == init[j];
  }

  lemma BestChanges(rd: RowReader, init: seq<Row>, last: Row, pool: Table)
    requires pool.Keys == Elements(Keys(init))
    requires last.key in pool ==>
               pool[last.key].key == last.key && IsBest(rd, init, pool[last.key]) && !IsUsable(rd, pool[last.key])
               && IsUsable(rd, last)
    ensures IsBest(rd, init + [last], last)
  {
    hide IsUsable;
    var rows := init + [last];
    assert rows[|init|] == last;
    forall j | 0 <= j < |init| && rows[j].key == last.key ensures IsUsable(rd, last) && !IsUsable(rd, rows[j]) {
      assert Keys(init)[j] == last.key;
      assert rows[j] == init[j];
    }
  }

  /** A usable live row wins over every stored one; a damaged one only fills a gap. */
  function Overlay(rd: RowReader, pool: Table, live: Table): Table {
    map key | key in pool.Keys + live.Keys ::
      if key in live && (IsUsable(rd, live[key]) || key !in pool) then live[key] else pool[key]
  }

  // ----- The plan -----

  datatype Plan = Refuse(reason: Reason) | Restore(rows: Table, source: nat, missing: seq<Text>)

  function PlanRepair(rd: RowReader, local: ChatSnapshot, candidates: seq<Candidate>): Plan {
    match Findings(rd, local)
    case Refused(reason) => Refuse(reason)
    case Known(_, missing) =>
      if missing == [] then Refuse(AlreadyComplete) else PlanFrom(rd, local, candidates, missing)
  }

  function PlanFrom(rd: RowReader, local: ChatSnapshot, candidates: seq<Candidate>, missing: seq<Text>): Plan {
    var n := FirstOffer(rd, local, candidates, missing, 0);
    if n == |candidates| then Refuse(NoVersion)
    else if Disagree(rd, local, candidates, n, Index(candidates[n].snapshot.bubbles), missing) then Refuse(Disagreement)
    else Restore(Overlay(rd, Pool(rd, TrustedRows(local, candidates, n + 1)), Index(local.bubbles)), n, missing)
  }

  /** Parsed snapshots repeat no row key. */
  predicate ParsedRows(local: ChatSnapshot, candidates: seq<Candidate>) {
    DistinctKeys(local.bubbles) && forall c :: c in candidates ==> DistinctKeys(c.snapshot.bubbles)
  }

  // ----- What a repair keeps -----

  lemma {:induction false} TrustedFrom(local: ChatSnapshot, candidates: seq<Candidate>, n: nat, row: Row)
    returns (i: nat)
    requires n <= |candidates| && row in TrustedRows(local, candidates, n)
    ensures i < n && Trusted(local, candidates[i]) && row in candidates[i].snapshot.bubbles
    decreases n
  {
    if row in TrustedRows(local, candidates, n - 1) {
      i := TrustedFrom(local, candidates, n - 1, row);
    } else {
      i := n - 1;
    }
  }

  lemma {:induction false} TrustedHolds(local: ChatSnapshot, candidates: seq<Candidate>, n: nat, i: nat, row: Row)
    requires i < n <= |candidates| && Trusted(local, candidates[i]) && row in candidates[i].snapshot.bubbles
    ensures row in TrustedRows(local, candidates, n)
    decreases n
  {
    if i < n - 1 {
      TrustedHolds(local, candidates, n - 1, i, row);
    }
  }

  lemma RowOfIndex(rows: seq<Row>, row: Row)
    requires DistinctKeys(rows) && row in rows
    ensures row.key in Index(rows) && Index(rows)[row.key] == row
  {
    DistinctIndex(rows);
  }

  lemma KeyOfRow(rows: seq<Row>, row: Row)
    requires row in rows
    ensures row.key in Elements(Keys(rows))
  {
    var i :| 0 <= i < |rows| && rows[i] == row;
    assert Keys(rows)[i] == row.key;
  }

  lemma RowOfKey(rows: seq<Row>, key: Text) returns (row: Row)
    requires key in Elements(Keys(rows))
    ensures row in rows && row.key == key
  {
    var i :| 0 <= i < |rows| && Keys(rows)[i] == key;
    row := rows[i];
  }

  /** Every usable live row is kept as it is. */
  lemma RepairKeepsLive(rd: RowReader, local: ChatSnapshot, candidates: seq<Candidate>, row: Row)
    requires ParsedRows(local, candidates) && PlanRepair(rd, local, candidates).Restore?
    requires row in local.bubbles && IsUsable(rd, row)
    ensures var rows := PlanRepair(rd, local, candidates).rows; row.key in rows && rows[row.key] == row
  {
    hide IsUsable, Pool, Index;
    RowOfIndex(local.bubbles, row);
  }

  /** The rows of a restoring plan. */
  lemma PlanRows(rd: RowReader, local: ChatSnapshot, candidates: seq<Candidate>)
    requires PlanRepair(rd, local, candidates).Restore?
    ensures var p := PlanRepair(rd, local, candidates);
            p.source < |candidates|
            && p.rows == Overlay(rd, Pool(rd, TrustedRows(local, candidates, p.source + 1)), Index(local.bubbles))
  {
    hide IsUsable, Pool, Index, Disagree, TrustedRows, Overlay, Findings;
  }

  /** No message of the conversation, of the selected version or of a newer one is dropped, and no other appears. */
  lemma RepairKeepsKeys(rd: RowReader, local: ChatSnapshot, candidates: seq<Candidate>, key: Text)
    requires PlanRepair(rd, local, candidates).Restore?
    ensures var p := PlanRepair(rd, local, candidates);
            p.source < |candidates|
            && (key in p.rows <==>
                  || key in Elements(Keys(local.bubbles))
                  || exists i ::
                       0 <= i <= p.source && Trusted(local, candidates[i])
                       && key in Elements(Keys(candidates[i].snapshot.bubbles)))
  {
    hide IsUsable, Pool, Index, Disagree, FirstOffer, Keys, PlanRepair, TrustedRows, Trusted;
    PlanRows(rd, local, candidates);
    var p := PlanRepair(rd, local, candidates);
    var trusted := TrustedRows(local, candidates, p.source + 1);
    PoolMeans(rd, trusted);
    IndexKeyed(local.bubbles);
    if key in Elements(Keys(trusted)) {
      var row := RowOfKey(trusted, key);
      var i := TrustedFrom(local, candidates, p.source + 1, row);
      KeyOfRow(candidates[i].snapshot.bubbles, row);
    }
    if i :|
      0 <= i <= p.source && Trusted(local, candidates[i]) && key in Elements(Keys(candidates[i].snapshot.bubbles))
    {
      var row := RowOfKey(candidates[i].snapshot.bubbles, key);
      TrustedHolds(local, candidates, p.source + 1, i, row);
      KeyOfRow(trusted, row);
    }
  }

  /** Nothing is invented: every row is the conversation's own or a trusted
      version's, and a damaged one is kept only where no version had better. */
  lemma RepairInventsNothing(rd: RowReader, local: ChatSnapshot, candidates: seq<Candidate>, key: Text)
    requires PlanRepair(rd, local, candidates).Restore? && key in PlanRepair(rd, local, candidates).rows
    ensures var p := PlanRepair(rd, local, candidates);
            var trusted := TrustedRows(local, candidates, p.source + 1);
            && (p.rows[key] in local.bubbles || p.rows[key] in trusted)
            && (!IsUsable(rd, p.rows[key]) ==> forall row :: row in trusted && row.key == key ==> !IsUsable(rd, row))
  {
    hide IsUsable, Pool, Index, Disagree, FirstOffer, TrustedRows, PlanRepair;
    PlanRows(rd, local, candidates);
    var p := PlanRepair(rd, local, candidates);
    var trusted := TrustedRows(local, candidates, p.source + 1);
    PoolMeans(rd, trusted);
    ChatMerge.IndexRows(local.bubbles);
    forall row | row in trusted && row.key == key && !IsUsable(rd, p.rows[key]) ensures !IsUsable(rd, row) {
      KeyOfRow(trusted, row);
      BestOf(rd, trusted, Pool(rd, trusted)[key], row);
    }
    if key in Pool(rd, trusted) {
      BestOf(rd, trusted, Pool(rd, trusted)[key], Pool(rd, trusted)[key]);
    }
  }

  lemma BestOf(rd: RowReader, rows: seq<Row>, best: Row, row: Row)
    requires IsBest(rd, rows, best) && row in rows && row.key == best.key
    ensures best in rows && (IsUsable(rd, row) ==> IsUsable(rd, best))
  {
    hide IsUsable;
    var j :| 0 <= j < |rows| && rows[j] == row;
  }

  /** A message that was unavailable comes back with the selected version's exact value. */
  lemma RepairRestores(rd: RowReader, local: ChatSnapshot, candidates: seq<Candidate>, key: Text)
    requires ParsedRows(local, candidates) && PlanRepair(rd, local, candidates).Restore?
    requires key in PlanRepair(rd, local, candidates).missing
    ensures var p := PlanRepair(rd, local, candidates);
            && p.source < |candidates|
            && Available(rd, p.rows, key)
            && key in Index(candidates[p.source].snapshot.bubbles)
            && Identity(rd, p.rows[key]) == Identity(rd, Index(candidates[p.source].snapshot.bubbles)[key])
  {
    hide IsUsable, Pool, Index, FirstOffer, TrustedRows, Identity, Trusted;
    var p := PlanRepair(rd, local, candidates);
    var selected := candidates[p.source].snapshot.bubbles;
    assert Offers(rd, local, candidates[p.source], p.missing);
    ChatMerge.IndexRows(selected);
    var offered := Index(selected)[key];
    var trusted := TrustedRows(local, candidates, p.source + 1);
    TrustedHolds(local, candidates, p.source + 1, p.source, offered);
    PoolMeans(rd, trusted);
    KeyOfRow(trusted, offered);
    var best := Pool(rd, trusted)[key];
    BestOf(rd, trusted, best, offered);
    MissingNotLive(rd, local, candidates, key);
    assert p.rows[key] == best;
    var i := TrustedFrom(local, candidates, p.source + 1, best);
    RowOfIndex(candidates[i].snapshot.bubbles, best);
    if i < p.source {
      AgreesWithNewer(rd, local, candidates, p.source, i, p.missing, key);
    }
  }

  lemma MissingNotLive(rd: RowReader, local: ChatSnapshot, candidates: seq<Candidate>, key: Text)
    requires PlanRepair(rd, local, candidates).Restore? && key in PlanRepair(rd, local, candidates).missing
    ensures !Available(rd, Index(local.bubbles), key)
  {
    hide Pool, Index, FirstOffer, TrustedRows, Disagree;
  }

  lemma AgreesWithNewer(rd: RowReader, local: ChatSnapshot, candidates: seq<Candidate>, n: nat, i: nat,
                        missing: seq<Text>, key: Text)
    requires i < n < |candidates| && Trusted(local, candidates[i]) && key in missing
    requires !Disagree(rd, local, candidates, n, Index(candidates[n].snapshot.bubbles), missing)
    requires Available(rd, Index(candidates[i].snapshot.bubbles), key) && key in Index(candidates[n].snapshot.bubbles)
    ensures Identity(rd, Index(candidates[i].snapshot.bubbles)[key]) ==
              Identity(rd, Index(candidates[n].snapshot.bubbles)[key])
  {
    hide IsUsable, Index, Identity;
    var selected := Index(candidates[n].snapshot.bubbles);
    assert !NewerDisagrees(rd, local, candidates[i], selected, missing);
    assert !Contradicts(rd, Index(candidates[i].snapshot.bubbles), selected, key);
  }

  /** The repaired conversation refers to the same messages and has them all. */
  lemma RepairCompletes(rd: RowReader, local: ChatSnapshot, candidates: seq<Candidate>, repaired: ChatSnapshot)
    requires ParsedRows(local, candidates) && PlanRepair(rd, local, candidates).Restore?
    requires repaired.composerId == local.composerId && repaired.composerData == local.composerData
    requires Index(repaired.bubbles) == PlanRepair(rd, local, candidates).rows
    ensures References(rd, local).Some? && Findings(rd, repaired) == Known(References(rd, local).value, [])
  {
    hide IsUsable, Pool, Index, FirstOffer, TrustedRows, Disagree, Verdict;
    var p := PlanRepair(rd, local, candidates);
    assert References(rd, repaired) == References(rd, local);
    var references := References(rd, local).value;
    forall key | key in references ensures Available(rd, p.rows, key) {
      if key in p.missing {
        RepairRestores(rd, local, candidates, key);
      } else {
        assert Available(rd, Index(local.bubbles), key);
      }
    }
    NoneUnavailable(Unavailable(rd, p.rows, references));
  }

  lemma NoneUnavailable(keys: seq<Text>)
    ensures (forall key :: key in keys ==> false) ==> keys == []
  {
    if keys != [] {
      assert keys[0] in keys;
    }
  }

  /** A repaired conversation is never repaired again, whatever history holds. */
  lemma RepairSettles(rd: RowReader, local: ChatSnapshot, candidates: seq<Candidate>, repaired: ChatSnapshot,
                      later: seq<Candidate>)
    requires ParsedRows(local, candidates) && PlanRepair(rd, local, candidates).Restore?
    requires repaired.composerId == local.composerId && repaired.composerData == local.composerData
    requires Index(repaired.bubbles) == PlanRepair(rd, local, candidates).rows
    ensures PlanRepair(rd, repaired, later) == Refuse(AlreadyComplete)
  {
    RepairCompletes(rd, local, candidates, repaired);
  }

  /** Versions older than the selected one never change a repair. */
  lemma OlderVersionsIrrelevant(rd: RowReader, local: ChatSnapshot, candidates: seq<Candidate>, older: seq<Candidate>)
    requires PlanRepair(rd, local, candidates).Restore?
    ensures PlanRepair(rd, local, candidates + older) == PlanRepair(rd, local, candidates)
  {
    hide IsUsable, Pool, Index, Offers, NewerDisagrees, Overlay;
    var p := PlanRepair(rd, local, candidates);
    var all := candidates + older;
    FirstOfferPrefix(rd, local, candidates, older, p.missing, 0);
    TrustedPrefix(local, candidates, older, p.source + 1);
    assert forall i :: 0 <= i <= p.source ==> all[i] == candidates[i];
  }

  lemma {:induction false} FirstOfferPrefix(rd: RowReader, local: ChatSnapshot, candidates: seq<Candidate>,
                                            older: seq<Candidate>, missing: seq<Text>, i: nat)
    requires i <= |candidates| && FirstOffer(rd, local, candidates, missing, i) < |candidates|
    ensures FirstOffer(rd, local, candidates + older, missing, i) == FirstOffer(rd, local, candidates, missing, i)
    decreases |candidates| - i
  {
    hide Offers;
    assert (candidates + older)[i] == candidates[i];
    if !Offers(rd, local, candidates[i], missing) {
      FirstOfferPrefix(rd, local, candidates, older, missing, i + 1);
    }
  }

  lemma {:induction false} TrustedPrefix(local: ChatSnapshot, candidates: seq<Candidate>, older: seq<Candidate>, n: nat)
    requires n <= |candidates|
    ensures TrustedRows(local, candidates + older, n) == TrustedRows(local, candidates, n)
  {
    if n > 0 {
      TrustedPrefix(local, candidates, older, n - 1);
    }
  }

  // ----- Value for value -----

  /** The storage class a row counts as: its own, or for an older row without one text
      if its bytes are lossless UTF-8. */
  ghost predicate CountsAs(rd: RowReader, row: Row, c: StorageClass) {
    match row.valueType
    case Some(own) => c == own
    case None => c == if rd.text(RowBytes(row)).Some? then TextClass else BlobClass
  }

  /** The same bytes under the same storage class. */
  ghost predicate SameStored(rd: RowReader, a: Row, b: Row) {
    a.valueBase64 == b.valueBase64 && forall c :: CountsAs(rd, a, c) <==> CountsAs(rd, b, c)
  }

  lemma IdentityMeans(rd: RowReader, a: Row, b: Row)
    ensures Identity(rd, a) == Identity(rd, b) <==> SameStored(rd, a, b)
  {
    assert CountsAs(rd, a, Identity(rd, a).0) && CountsAs(rd, b, Identity(rd, b).0);
  }

  /** The version is of this conversation and has readable JSON under every key. */
  ghost predicate HasAll(rd: RowReader, local: ChatSnapshot, s: ChatSnapshot, missing: seq<Text>) {
    s.composerId == local.composerId
    && forall key :: key in missing ==> key in Index(s.bubbles) && Verdict(rd, IdOf(Index(s.bubbles)[key])).Usable?
  }

  /** Where the newer version has readable JSON for a missing message, it has the same
      value as the selected one. */
  ghost predicate SameWhereUsable(rd: RowReader, local: ChatSnapshot, newer: ChatSnapshot, selected: ChatSnapshot,
                                  missing: seq<Text>)
  {
    newer.composerId == local.composerId ==>
      forall key ::
        key in missing && key in Index(newer.bubbles) && Verdict(rd, IdOf(Index(newer.bubbles)[key])).Usable?
        && key in Index(selected.bubbles) ==>
          SameStored(rd, Index(newer.bubbles)[key], Index(selected.bubbles)[key])
  }

  /** The n-th version is the newest that has all that is missing, and no newer version
      has another value for any of it. */
  ghost predicate CanRestoreFrom(rd: RowReader, local: ChatSnapshot, candidates: seq<Candidate>, missing: seq<Text>,
                                 n: nat)
  {
    && n < |candidates| && HasAll(rd, local, candidates[n].snapshot, missing)
    && (forall i :: 0 <= i < n ==> !HasAll(rd, local, candidates[i].snapshot, missing))
    && forall i :: 0 <= i < n ==>
         SameWhereUsable(rd, local, candidates[i].snapshot, candidates[n].snapshot, missing)
  }

  /** A repair goes ahead exactly when messages are missing and such a version exists. */
  lemma RestoresExactly(rd: RowReader, local: ChatSnapshot, candidates: seq<Candidate>)
    ensures PlanRepair(rd, local, candidates).Restore? <==>
              Findings(rd, local).Known? && Findings(rd, local).unavailable != []
              && exists n: nat :: CanRestoreFrom(rd, local, candidates, Findings(rd, local).unavailable, n)
    ensures PlanRepair(rd, local, candidates).Restore? ==>
              CanRestoreFrom(rd, local, candidates, Findings(rd, local).unavailable,
                             PlanRepair(rd, local, candidates).source)
  {
    hide Findings, Index, Pool, Overlay, TrustedRows, Identity, SameStored, Verdict, FirstOffer;
    if Findings(rd, local).Known? && Findings(rd, local).unavailable != [] {
      var missing := Findings(rd, local).unavailable;
      var n := FirstOffer(rd, local, candidates, missing, 0);
      assert forall i :: 0 <= i < |candidates| ==>
        (Offers(rd, local, candidates[i], missing) <==> HasAll(rd, local, candidates[i].snapshot, missing));
      if n < |candidates| {
        forall i | 0 <= i < n
          ensures NewerDisagrees(rd, local, candidates[i], Index(candidates[n].snapshot.bubbles), missing) <==>
                    !SameWhereUsable(rd, local, candidates[i].snapshot, candidates[n].snapshot, missing)
        {
          DisagreesExactly(rd, local, candidates[i], candidates[n].snapshot, missing);
        }
      }
      if m: nat :| CanRestoreFrom(rd, local, candidates, missing, m) {
        assert Offers(rd, local, candidates[m], missing);
        assert n <= m && Offers(rd, local, candidates[n], missing);
        assert m == n;
        assert !Disagree(rd, local, candidates, n, Index(candidates[n].snapshot.bubbles), missing);
      } else if n < |candidates| {
        assert Disagree(rd, local, candidates, n, Index(candidates[n].snapshot.bubbles), missing) by {
          assert !CanRestoreFrom(rd, local, candidates, missing, n);
        }
      }
    }
  }

  lemma DisagreesExactly(rd: RowReader, local: ChatSnapshot, newer: Candidate, selected: ChatSnapshot,
                         missing: seq<Text>)
    ensures NewerDisagrees(rd, local, newer, Index(selected.bubbles), missing) <==>
              !SameWhereUsable(rd, local, newer.snapshot, selected, missing)
  {
    hide Index, Identity, SameStored, Verdict;
    var a, b := Index(newer.snapshot.bubbles), Index(selected.bubbles);
    forall key | key in a && key in b
      ensures Identity(rd, a[key]) == Identity(rd, b[key]) <==> SameStored(rd, a[key], b[key])
    {
      IdentityMeans(rd, a[key], b[key]);
    }
  }

  /** Each message comes back with the selected version's bytes and class, and with
      those of any newer version that can be read. */
  lemma RestoredValue(rd: RowReader, local: ChatSnapshot, candidates: seq<Candidate>, key: Text)
    requires ParsedRows(local, candidates) && PlanRepair(rd, local, candidates).Restore?
    requires key in Findings(rd, local).unavailable
    ensures var p := PlanRepair(rd, local, candidates);
            && p.source < |candidates| && key in p.rows && key in Index(candidates[p.source].snapshot.bubbles)
            && SameStored(rd, p.rows[key], Index(candidates[p.source].snapshot.bubbles)[key])
            && Verdict(rd, IdOf(p.rows[key])).Usable?
  {
    hide Findings, Index, Pool, Overlay, TrustedRows, Identity, SameStored, Verdict, FirstOffer;
    RepairRestores(rd, local, candidates, key);
    var p := PlanRepair(rd, local, candidates);
    IdentityMeans(rd, p.rows[key], Index(candidates[p.source].snapshot.bubbles)[key]);
  }
}
