/** The three-way merge of a chat's message rows, mergeBubbles of
    src/chat/chatMerge.ts: over a fixed base it is a join, so tips merge to the
    same rows, or are refused, in any order and grouping. */
module Bubbles {
  import opened Basics
  import opened Portable

  type Table = map<Text, Row>

  /** indexBubbles: the last row of a key counts. */
  function Index(rows: seq<Row>): Table {
    if rows == [] then map[] else Index(rows[..|rows| - 1])[rows[|rows| - 1].key := rows[|rows| - 1]]
  }

  predicate Keyed(t: Table) {
    forall k :: k in t ==> t[k].key == k
  }

  lemma {:induction false} IndexKeyed(rows: seq<Row>)
    ensures Keyed(Index(rows)) && Index(rows).Keys == Elements(Keys(rows))
  {
    if rows != [] {
      var init := rows[..|rows| - 1];
      IndexKeyed(init);
      assert Keys(rows) == Keys(init) + [rows[|rows| - 1].key];
    }
  }

  /** Rows in strict key order are determined by their table. */
  lemma {:induction false} SortedRowsUnique(a: seq<Row>, b: seq<Row>)
    requires StrictlySorted(Keys(a)) && StrictlySorted(Keys(b)) && Index(a) == Index(b)
    ensures a == b
  {
    IndexKeyed(a);
    IndexKeyed(b);
    SortedUnique(Keys(a), Keys(b));
    forall i | 0 <= i < |a| ensures a[i] == b[i] {
      SortedIndex(a, i);
      SortedIndex(b, i);
      assert Keys(a)[i] == Keys(b)[i];
    }
  }

  lemma {:induction false} SortedIndex(rows: seq<Row>, i: nat)
    requires StrictlySorted(Keys(rows)) && i < |rows|
    ensures rows[i].key in Index(rows) && Index(rows)[rows[i].key] == rows[i]
  {
    var init := rows[..|rows| - 1];
    if i < |rows| - 1 {
      assert Keys(init) == Keys(rows)[..|rows| - 1];
      SortedIndex(init, i);
      LessIrreflexive(rows[i].key);
      assert Less(Keys(rows)[i], Keys(rows)[|rows| - 1]);
    }
  }

  // ----- Distinct keys -----

  predicate DistinctKeys(rows: seq<Row>) {
    forall i, j :: 0 <= i < j < |rows| ==> rows[i].key != rows[j].key
  }

  lemma {:induction false} DistinctIndex(rows: seq<Row>)
    requires DistinctKeys(rows)
    ensures |Index(rows)| == |rows| && Index(rows).Keys == Elements(Keys(rows))
    ensures forall i :: 0 <= i < |rows| ==> rows[i].key in Index(rows) && Index(rows)[rows[i].key] == rows[i]
  {
    IndexKeyed(rows);
    hide Keyed, Keys;
    if rows != [] {
      var n := |rows| - 1;
      DistinctIndex(rows[..n]);
      LastIsNew(rows);
      var m := Index(rows[..n]);
      assert Index(rows) == m[rows[n].key := rows[n]];
      NewKey(m, rows[n].key, rows[n]);
      assert forall i :: 0 <= i < n ==> rows[i] == rows[..n][i];
    }
  }

  lemma LastIsNew(rows: seq<Row>)
    requires DistinctKeys(rows) && rows != []
    ensures rows[|rows| - 1].key !in Elements(Keys(rows[..|rows| - 1]))
  {
    var init := Keys(rows[..|rows| - 1]);
    forall i | 0 <= i < |init| ensures init[i] != rows[|rows| - 1].key {
    }
  }

  lemma NewKey(m: map<Text, Row>, k: Text, row: Row)
    requires k !in m
    ensures |m[k := row]| == |m| + 1
  {
    var n := m[k := row];
    assert n.Keys == m.Keys + {k};
    assert |n| == |n.Keys| && |m| == |m.Keys|;
  }

  // ----- One key -----

  predicate SameRow(a: Row, b: Row) {
    a.valueBase64 == b.valueBase64 && a.valueType == b.valueType
  }

  datatype Cell = Absent | Kept(row: Row) | Clash

  function At(t: Table, k: Text): Option<Row> {
    if k in t then Some(t[k]) else None
  }

  /** Equal rows stay, a changed row beats the base's, two different changes clash. */
  function MergeRow(base: Option<Row>, a: Option<Row>, b: Option<Row>): Cell {
    if a.Some? && b.Some? then
      if SameRow(a.value, b.value) then Kept(a.value)
      else if base == None then Clash
      else if SameRow(a.value, base.value) == SameRow(b.value, base.value) then Clash
      else Kept(if SameRow(a.value, base.value) then b.value else a.value)
    else if a.Some? then Kept(a.value)
    else if b.Some? then Kept(b.value)
    else if base.Some? then Kept(base.value) else Absent
  }

  predicate Clashes(base: Table, a: Table, b: Table) {
    exists k :: k in a.Keys && MergeRow(At(base, k), At(a, k), At(b, k)) == Clash
  }

  function Rows(base: Table, a: Table, b: Table): Table
    requires !Clashes(base, a, b)
  {
    map k | k in base.Keys + a.Keys + b.Keys :: MergeRow(At(base, k), At(a, k), At(b, k)).row
  }

  /** The merged table, unless some key clashes. */
  function Merge(base: Table, a: Table, b: Table): Option<Table> {
    if Clashes(base, a, b) then None else Some(Rows(base, a, b))
  }

  lemma MergeAt(base: Table, a: Table, b: Table, k: Text)
    requires Merge(base, a, b).Some?
    ensures k in Merge(base, a, b).value <==> k in base || k in a || k in b
    ensures k in Merge(base, a, b).value ==>
              Kept(Merge(base, a, b).value[k]) == MergeRow(At(base, k), At(a, k), At(b, k))
  {
  }

  /** mergeBubbles: the merged rows in key order, or nothing when a key clashes. */
  method MergeBubbles(base: Option<seq<Row>>, first: seq<Row>, second: seq<Row>) returns (r: Option<seq<Row>>)
    ensures var m := Merge(if base.Some? then Index(base.value) else map[], Index(first), Index(second));
            match r
            case None => m == None
            case Some(rows) => m == Some(Index(rows)) && StrictlySorted(Keys(rows))
  {
    hide Merge, Index, Resolved, Keyed;
    var baseRows := if base.Some? then Index(base.value) else map[];
    var firstRows, secondRows := Index(first), Index(second);
    IndexKeyed(first);
    IndexKeyed(second);
    BaseKeyed(base);
    var keys := SortTexts(baseRows.Keys + firstRows.Keys + secondRows.Keys);
    var merged := [];
    NothingResolved(baseRows, firstRows, secondRows, keys);
    for i := 0 to |keys|
      invariant Resolved(baseRows, firstRows, secondRows, keys, merged, i)
    {
      var key := keys[i];
      assert key in Elements(keys);
      var inFirst, inSecond, inBase := At(firstRows, key), At(secondRows, key), At(baseRows, key);
      var row;
      if inFirst.Some? && inSecond.Some? && !SameRow(inFirst.value, inSecond.value) {
        if inBase == None || SameRow(inFirst.value, inBase.value) == SameRow(inSecond.value, inBase.value) {
          ClashFound(baseRows, firstRows, secondRows, key);
          return None;
        }
        row := if SameRow(inFirst.value, inBase.value) then inSecond.value else inFirst.value;
      } else {
        row := if inFirst.Some? then inFirst.value else if inSecond.Some? then inSecond.value else inBase.value;
      }
      ResolvedStep(baseRows, firstRows, secondRows, keys, merged, i, row);
      merged := merged + [row];
    }
    AllResolved(baseRows, firstRows, secondRows, keys, merged);
    return Some(merged);
  }

  lemma BaseKeyed(base: Option<seq<Row>>)
    ensures Keyed(if base.Some? then Index(base.value) else map[])
  {
    if base.Some? {
      IndexKeyed(base.value);
    }
  }

  /** The rows of the first i keys are merged. */
  ghost predicate Resolved(base: Table, a: Table, b: Table, keys: seq<Text>, merged: seq<Row>, i: nat)
    requires i <= |keys|
  {
    && Keys(merged) == keys[..i]
    && Index(merged).Keys == Elements(keys[..i])
    && forall j ::
         0 <= j < i ==> Holds(Index(merged), keys[j], MergeRow(At(base, keys[j]), At(a, keys[j]), At(b, keys[j])))
  }

  lemma NothingResolved(base: Table, a: Table, b: Table, keys: seq<Text>)
    ensures Resolved(base, a, b, keys, [], 0)
  {
  }

  lemma ResolvedStep(base: Table, a: Table, b: Table, keys: seq<Text>, merged: seq<Row>, i: nat, row: Row)
    requires Keyed(base) && Keyed(a) && Keyed(b) && StrictlySorted(keys) && i < |keys|
    requires keys[i] in base.Keys + a.Keys + b.Keys && Resolved(base, a, b, keys, merged, i)
    requires MergeRow(At(base, keys[i]), At(a, keys[i]), At(b, keys[i])) == Kept(row)
    ensures Resolved(base, a, b, keys, merged + [row], i + 1)
  {
    hide MergeRow, Index, Less, StrictlySorted;
    KeptKey(base, a, b, keys[i]);
    IndexAppend(merged, row);
    Distinct(keys, i);
    assert keys[..i + 1] == keys[..i] + [keys[i]];
    assert Keys(merged + [row]) == Keys(merged) + [row.key];
  }

  lemma AllResolved(base: Table, a: Table, b: Table, keys: seq<Text>, merged: seq<Row>)
    requires StrictlySorted(keys) && Elements(keys) == base.Keys + a.Keys + b.Keys
    requires Resolved(base, a, b, keys, merged, |keys|)
    ensures Merge(base, a, b) == Some(Index(merged)) && StrictlySorted(Keys(merged))
  {
    hide MergeRow, Index, Less, Merge;
    assert keys[..|keys|] == keys;
    forall k | k in Index(merged) ensures Holds(Index(merged), k, MergeRow(At(base, k), At(a, k), At(b, k))) {
      var j :| 0 <= j < |keys| && keys[j] == k;
    }
    AllKept(base, a, b, Index(merged));
  }

  predicate Holds(t: Table, k: Text, c: Cell) {
    k in t && c == Kept(t[k])
  }

  lemma IndexAppend(rows: seq<Row>, row: Row)
    ensures Index(rows + [row]) == Index(rows)[row.key := row]
  {
    assert (rows + [row])[..|rows|] == rows;
  }

  lemma Distinct(keys: seq<Text>, i: nat)
    requires StrictlySorted(keys) && i < |keys|
    ensures forall j :: 0 <= j < i ==> keys[j] != keys[i]
  {
    LessIrreflexive(keys[i]);
  }

  lemma KeptKey(base: Table, a: Table, b: Table, k: Text)
    requires Keyed(base) && Keyed(a) && Keyed(b) && k in base.Keys + a.Keys + b.Keys
    ensures var c := MergeRow(At(base, k), At(a, k), At(b, k)); c.Clash? || (c.Kept? && c.row.key == k)
    ensures At(a, k) == None && At(b, k) == None ==> At(base, k).Some?
  {
  }

  lemma ClashFound(base: Table, a: Table, b: Table, k: Text)
    requires k in a && k in b && !SameRow(a[k], b[k])
    requires k !in base || SameRow(a[k], base[k]) == SameRow(b[k], base[k])
    ensures Merge(base, a, b) == None
  {
    assert MergeRow(At(base, k), At(a, k), At(b, k)) == Clash;
  }

  lemma AllKept(base: Table, a: Table, b: Table, t: Table)
    requires t.Keys == base.Keys + a.Keys + b.Keys
    requires forall k :: k in t ==> Holds(t, k, MergeRow(At(base, k), At(a, k), At(b, k)))
    ensures Merge(base, a, b) == Some(t)
  {
    hide MergeRow, At;
    forall k | k in a.Keys ensures MergeRow(At(base, k), At(a, k), At(b, k)) != Clash {
      assert k in t;
    }
    assert Rows(base, a, b) == t;
  }

  // ----- The join -----

  /** Over one base, the table that some tips settle on: every tip's row is there
      or is the base's own, every row comes from a tip or from the base, and all
      keys of the tips, but maybe not all of the base's, are kept. */
  ghost predicate Settles(base: Table, tips: set<Table>, t: Table) {
    && (forall tip, k :: tip in tips && k in tip ==> k in t && (t[k] == tip[k] || (k in base && tip[k] == base[k])))
    && (forall k :: k in t ==> (k in base && t[k] == base[k]) || FromTip(tips, k, t[k]))
  }

  ghost predicate FromTip(tips: set<Table>, k: Text, row: Row) {
    exists tip :: tip in tips && k in tip && tip[k] == row
  }

  ghost predicate SettlesFully(base: Table, tips: set<Table>, t: Table) {
    Settles(base, tips, t) && base.Keys <= t.Keys
  }

  lemma TipSettles(base: Table, tip: Table)
    ensures Settles(base, {tip}, tip)
  {
    forall k | k in tip ensures FromTip({tip}, k, tip[k]) {
      assert tip in {tip};
    }
  }

  /** Tips settle on at most one table. */
  lemma SettledOnce(base: Table, tips: set<Table>, t: Table, u: Table)
    requires SettlesFully(base, tips, t) && SettlesFully(base, tips, u)
    ensures t == u
  {
    SettledWithin(base, tips, t, u);
    SettledWithin(base, tips, u, t);
  }

  lemma SettledWithin(base: Table, tips: set<Table>, t: Table, u: Table)
    requires SettlesFully(base, tips, t) && SettlesFully(base, tips, u)
    ensures forall k :: k in t ==> k in u && u[k] == t[k]
  {
    forall k | k in t ensures k in u && u[k] == t[k] {
      if !(k in base && t[k] == base[k]) {
        var tip :| tip in tips && k in tip && tip[k] == t[k];
      } else if FromTip(tips, k, u[k]) {
        var tip :| tip in tips && k in tip && tip[k] == u[k];
      }
    }
  }

  lemma SameRowIsEqual(a: Row, b: Row)
    requires a.key == b.key
    ensures SameRow(a, b) <==> a == b
  {
  }

  /** MergeRow in terms of equality. */
  lemma MergeRowMeans(base: Table, a: Table, b: Table, k: Text)
    requires Keyed(base) && Keyed(a) && Keyed(b)
    ensures MergeRow(At(base, k), At(a, k), At(b, k)) ==
      if k in a && k in b && a[k] != b[k] then
        if k in base && a[k] == base[k] then Kept(b[k]) else if k in base && b[k] == base[k] then Kept(a[k]) else Clash
      else if k in a then Kept(a[k]) else if k in b then Kept(b[k]) else if k in base then Kept(base[k]) else Absent
  {
    if k in a && k in b {
      SameRowIsEqual(a[k], b[k]);
    }
    if k in a && k in base {
      SameRowIsEqual(a[k], base[k]);
    }
    if k in b && k in base {
      SameRowIsEqual(b[k], base[k]);
    }
  }

  /** Merging what two sets of tips settle on is settling all of them at once. */
  lemma MergeSettles(base: Table, s: set<Table>, a: Table, r: set<Table>, b: Table, m: Table)
    requires Keyed(base) && Keyed(a) && Keyed(b) && Settles(base, s, a) && Settles(base, r, b)
    ensures Merge(base, a, b) == Some(m) <==> SettlesFully(base, s + r, m)
  {
    hide Merge, SettlesFully, Settles, DifferentChanges;
    if Merge(base, a, b).Some? {
      var t := Merge(base, a, b).value;
      MergedSettles(base, s, a, r, b);
      if SettlesFully(base, s + r, m) {
        SettledOnce(base, s + r, t, m);
      }
    } else {
      var k, x, y := TwoChanges(base, s, a, r, b);
      ChangesUnsettled(base, s + r, m, k, x, y);
    }
  }

  lemma MergedSettles(base: Table, s: set<Table>, a: Table, r: set<Table>, b: Table)
    requires Keyed(base) && Keyed(a) && Keyed(b) && Settles(base, s, a) && Settles(base, r, b)
    requires Merge(base, a, b).Some?
    ensures SettlesFully(base, s + r, Merge(base, a, b).value)
  {
    hide Merge, MergeRow, Keyed, FromTip;
    var t := Merge(base, a, b).value;
    forall k ensures (k in t <==> k in base || k in a || k in b) {
      MergeAt(base, a, b, k);
    }
    forall tip, k | tip in s + r && k in tip ensures k in t && (t[k] == tip[k] || (k in base && tip[k] == base[k])) {
      MergeAt(base, a, b, k);
      MergeRowMeans(base, a, b, k);
      if tip in s {
        assert k in a && (a[k] == tip[k] || (k in base && tip[k] == base[k]));
      } else {
        assert k in b && (b[k] == tip[k] || (k in base && tip[k] == base[k]));
      }
    }
    forall k | k in t ensures (k in base && t[k] == base[k]) || FromTip(s + r, k, t[k]) {
      MergeAt(base, a, b, k);
      MergeRowMeans(base, a, b, k);
      TipOfMore(s, r, k, t[k]);
    }
  }

  lemma TipOfMore(s: set<Table>, r: set<Table>, k: Text, row: Row)
    ensures FromTip(s + r, k, row) <==> FromTip(s, k, row) || FromTip(r, k, row)
  {
    if FromTip(s, k, row) {
      var tip :| tip in s && k in tip && tip[k] == row;
      assert tip in s + r;
    }
    if FromTip(r, k, row) {
      var tip :| tip in r && k in tip && tip[k] == row;
      assert tip in s + r;
    }
  }

  /** A clash is two tips with different changes to a row. */
  ghost predicate DifferentChanges(base: Table, k: Text, x: Table, y: Table) {
    k in x && k in y && x[k] != y[k] && (k in base ==> x[k] != base[k] && y[k] != base[k])
  }

  lemma TwoChanges(base: Table, s: set<Table>, a: Table, r: set<Table>, b: Table) returns (k: Text, x: Table, y: Table)
    requires Keyed(base) && Keyed(a) && Keyed(b) && Settles(base, s, a) && Settles(base, r, b)
    requires Merge(base, a, b) == None
    ensures x in s + r && y in s + r && DifferentChanges(base, k, x, y)
  {
    k :| k in a.Keys && MergeRow(At(base, k), At(a, k), At(b, k)) == Clash;
    MergeRowMeans(base, a, b, k);
    hide MergeRow;
    assert FromTip(s, k, a[k]) && FromTip(r, k, b[k]);
    x :| x in s && k in x && x[k] == a[k];
    y :| y in r && k in y && y[k] == b[k];
  }

  lemma ChangesUnsettled(base: Table, tips: set<Table>, m: Table, k: Text, x: Table, y: Table)
    requires x in tips && y in tips && DifferentChanges(base, k, x, y)
    ensures !SettlesFully(base, tips, m)
  {
  }

  // ----- Any order and grouping -----

  /** Tips merged two at a time in some order and grouping. */
  datatype Plan = Tip(table: Table) | Both(left: Plan, right: Plan)
  {
    function Tips(): set<Table> {
      match this
      case Tip(t) => {t}
      case Both(l, r) => l.Tips() + r.Tips()
    }

    predicate AllKeyed() {
      forall t :: t in Tips() ==> Keyed(t)
    }
  }

  function Run(base: Table, plan: Plan): Option<Table> {
    match plan
    case Tip(t) => Some(t)
    case Both(l, r) =>
      match (Run(base, l), Run(base, r))
      case (Some(a), Some(b)) => Merge(base, a, b)
      case _ => None
  }

  lemma {:induction false} RunSettles(base: Table, plan: Plan)
    requires Keyed(base) && plan.AllKeyed()
    ensures Run(base, plan).Some? ==> Settles(base, plan.Tips(), Run(base, plan).value) && Keyed(Run(base, plan).value)
    ensures plan.Both? && Run(base, plan).Some? ==> SettlesFully(base, plan.Tips(), Run(base, plan).value)
  {
    hide Merge, Settles;
    match plan {
      case Tip(t) =>
        TipSettles(base, t);
        assert t in plan.Tips();
      case Both(l, r) =>
        assert l.AllKeyed() && r.AllKeyed();
        RunSettles(base, l);
        RunSettles(base, r);
        if Run(base, plan).Some? {
          MergeSettles(base, l.Tips(), Run(base, l).value, r.Tips(), Run(base, r).value, Run(base, plan).value);
          MergeKeyed(base, Run(base, l).value, Run(base, r).value);
        }
    }
  }

  lemma MergeKeyed(base: Table, a: Table, b: Table)
    requires Keyed(base) && Keyed(a) && Keyed(b) && Merge(base, a, b).Some?
    ensures Keyed(Merge(base, a, b).value)
  {
    hide Merge, MergeRow;
    var m := Merge(base, a, b).value;
    forall k | k in m ensures m[k].key == k {
      MergeAt(base, a, b, k);
      MergeRowMeans(base, a, b, k);
    }
  }

  /** A table all tips settle on is one any part of them settles on first. */
  lemma PartSettles(base: Table, part: set<Table>, tips: set<Table>, m: Table)
    requires part <= tips && SettlesFully(base, tips, m)
    ensures exists u :: SettlesFully(base, part, u)
  {
    var u: Table := map k | k in m && (k in base || exists tip :: tip in part && k in tip) ::
      if FromTip(part, k, m[k]) then m[k] else if k in base then base[k] else m[k];
    forall tip, k | tip in part && k in tip ensures k in u && (u[k] == tip[k] || (k in base && tip[k] == base[k])) {
      assert tip in tips;
      if m[k] == tip[k] {
        assert FromTip(part, k, m[k]);
      }
    }
    forall k | k in u ensures (k in base && u[k] == base[k]) || FromTip(part, k, u[k]) {
      if k !in base {
        var tip :| tip in part && k in tip;
        assert tip in tips && m[k] == tip[k];
        assert FromTip(part, k, m[k]);
      }
    }
    assert Settles(base, part, u);
    assert forall k :: k in base.Keys ==> k in m && k in u;
    assert SettlesFully(base, part, u);
  }

  /** However tips are ordered and grouped, merging two or more of them succeeds
      exactly when they settle on some table, and gives that table. */
  lemma {:induction false} AnyPlan(base: Table, plan: Plan, m: Table)
    requires Keyed(base) && plan.AllKeyed() && plan.Both?
    ensures Run(base, plan) == Some(m) <==> SettlesFully(base, plan.Tips(), m)
    decreases plan, 0
  {
    hide Merge, Settles, SettlesFully;
    var l, r := plan.left, plan.right;
    assert l.AllKeyed() && r.AllKeyed();
    RunSettles(base, plan);
    RunSettles(base, l);
    RunSettles(base, r);
    if SettlesFully(base, plan.Tips(), m) {
      PartRuns(base, l, plan.Tips(), m);
      PartRuns(base, r, plan.Tips(), m);
      MergeSettles(base, l.Tips(), Run(base, l).value, r.Tips(), Run(base, r).value, m);
    }
  }

  lemma {:induction false} PartRuns(base: Table, plan: Plan, tips: set<Table>, m: Table)
    requires Keyed(base) && plan.AllKeyed() && plan.Tips() <= tips && SettlesFully(base, tips, m)
    ensures Run(base, plan).Some?
    decreases plan, 1
  {
    hide SettlesFully;
    if plan.Both? {
      PartSettles(base, plan.Tips(), tips, m);
      var u :| SettlesFully(base, plan.Tips(), u);
      AnyPlan(base, plan, u);
    }
  }

  /** So two ways of merging the same tips agree, refusals included. */
  lemma PlansAgree(base: Table, p: Plan, q: Plan)
    requires Keyed(base) && p.AllKeyed() && p.Both? && q.Both? && p.Tips() == q.Tips()
    ensures Run(base, p) == Run(base, q)
  {
    hide Run, SettlesFully;
    if Run(base, p).Some? {
      AnyPlan(base, p, Run(base, p).value);
      AnyPlan(base, q, Run(base, p).value);
    } else if Run(base, q).Some? {
      AnyPlan(base, q, Run(base, q).value);
      AnyPlan(base, p, Run(base, q).value);
    }
  }

  lemma MergeCommutes(base: Table, a: Table, b: Table)
    requires Keyed(base) && Keyed(a) && Keyed(b)
    ensures Merge(base, a, b) == Merge(base, b, a)
  {
    hide Merge;
    var p, q := Both(Tip(a), Tip(b)), Both(Tip(b), Tip(a));
    TipsOfTwo(a, b);
    TipsOfTwo(b, a);
    PlansAgree(base, p, q);
    RunPair(base, a, b);
    RunPair(base, b, a);
  }

  lemma MergeAssociates(base: Table, a: Table, b: Table, c: Table)
    requires Keyed(base) && Keyed(a) && Keyed(b) && Keyed(c)
    ensures Run(base, Both(Both(Tip(a), Tip(b)), Tip(c))) == Run(base, Both(Tip(a), Both(Tip(b), Tip(c))))
  {
    hide Merge, Run;
    var p, q := Both(Both(Tip(a), Tip(b)), Tip(c)), Both(Tip(a), Both(Tip(b), Tip(c)));
    TipsOfThree(a, b, c);
    PlansAgree(base, p, q);
  }

  /** Merging the result with either input again changes nothing. */
  lemma MergeAbsorbs(base: Table, a: Table, b: Table)
    requires Keyed(base) && Keyed(a) && Keyed(b) && Merge(base, a, b).Some?
    ensures Merge(base, Merge(base, a, b).value, a) == Merge(base, a, b) == Merge(base, Merge(base, a, b).value, b)
  {
    hide Merge;
    var both := Both(Tip(a), Tip(b));
    TipsOfTwo(a, b);
    assert Both(both, Tip(a)).Tips() == {a, b} + {a} == {a, b};
    assert Both(both, Tip(b)).Tips() == {a, b} + {b} == {a, b};
    RunPair(base, a, b);
    PlansAgree(base, Both(both, Tip(a)), both);
    PlansAgree(base, Both(both, Tip(b)), both);
  }

  lemma RunPair(base: Table, a: Table, b: Table)
    ensures Run(base, Both(Tip(a), Tip(b))) == Merge(base, a, b)
  {
    hide Merge;
  }

  lemma TipsOfThree(a: Table, b: Table, c: Table)
    ensures Both(Both(Tip(a), Tip(b)), Tip(c)).Tips() == {a, b, c} == Both(Tip(a), Both(Tip(b), Tip(c))).Tips()
  {
    TipsOfTwo(a, b);
    TipsOfTwo(b, c);
    assert Tip(a).Tips() == {a} && Tip(c).Tips() == {c};
    assert {a, b} + {c} == {a, b, c} == {a} + {b, c};
  }

  lemma TipsOfTwo(a: Table, b: Table)
    ensures Both(Tip(a), Tip(b)).Tips() == {a, b}
  {
    assert Tip(a).Tips() == {a} && Tip(b).Tips() == {b};
  }

  /** Merging a table with itself keeps it exactly when it has the base's keys. */
  lemma MergeIdempotent(base: Table, a: Table)
    requires Keyed(base) && Keyed(a)
    ensures Merge(base, a, a) == Some(a) <==> base.Keys <= a.Keys
  {
    hide Merge, Settles;
    TipSettles(base, a);
    assert {a} + {a} == {a};
    MergeSettles(base, {a}, a, {a}, a, a);
  }
}
