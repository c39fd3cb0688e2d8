/** Exactly which stored rows buildChatRepairSnapshot of src/chat/repair.ts reads,
    were its budget unlimited. */
module RepairReads {
  import opened Basics
  import opened Portable
  import opened Canonical
  import opened Bubbles
  import opened RepairBudget
  import opened Repair
  import opened RepairPlan

  ghost function RowSet(rows: seq<Row>): set<RowId> {
    set row | row in rows :: IdOf(row)
  }

  /** Rows of the missing messages, up to the first that is not available. */
  ghost function FirstReads(rd: RowReader, rows: Table, missing: seq<Text>, i: nat): set<RowId>
    requires i <= |missing|
    decreases |missing| - i
  {
    if i == |missing| || missing[i] !in rows then {}
    else
      {IdOf(rows[missing[i]])}
      + if IsUsable(rd, rows[missing[i]]) then FirstReads(rd, rows, missing, i + 1) else {}
  }

  /** From the i-th version on, up to the one that offers every message. */
  ghost function SelectReads(rd: RowReader, local: ChatSnapshot, candidates: seq<Candidate>, missing: seq<Text>,
                             i: nat): set<RowId>
    requires i <= |candidates|
    decreases |candidates| - i
  {
    if i == |candidates| then {}
    else
      var candidate := candidates[i];
      (if Trusted(local, candidate) then FirstReads(rd, Index(candidate.snapshot.bubbles), missing, 0) else {})
      + if Offers(rd, local, candidate, missing) then {} else SelectReads(rd, local, candidates, missing, i + 1)
  }

  /** A newer version's rows of the missing messages, up to the first contradiction. */
  ghost function CompareReads(rd: RowReader, newer: Table, selected: Table, missing: seq<Text>, i: nat): set<RowId>
    requires i <= |missing|
    decreases |missing| - i
  {
    if i == |missing| then {}
    else
      (if missing[i] in newer then {IdOf(newer[missing[i]])} else {})
      + if Contradicts(rd, newer, selected, missing[i]) then {} else CompareReads(rd, newer, selected, missing, i + 1)
  }

  ghost function DisagreeReads(rd: RowReader, local: ChatSnapshot, candidates: seq<Candidate>, n: nat, selected: Table,
                               missing: seq<Text>, i: nat): set<RowId>
    requires i <= n <= |candidates|
    decreases n - i
  {
    if i == n then {}
    else
      var candidate := candidates[i];
      (if Trusted(local, candidate) then CompareReads(rd, Index(candidate.snapshot.bubbles), selected, missing, 0)
       else {})
      + if NewerDisagrees(rd, local, candidate, selected, missing) then {}
        else DisagreeReads(rd, local, candidates, n, selected, missing, i + 1)
  }

  /** A collision reads the pooled row, and the new one only if the pooled one is
      damaged. */
  ghost function AdmitReads(rd: RowReader, pool: Table, row: Row): set<RowId> {
    if row.key !in pool then {}
    else {IdOf(pool[row.key])} + if IsUsable(rd, pool[row.key]) then {} else {IdOf(row)}
  }

  ghost function PoolReads(rd: RowReader, rows: seq<Row>): set<RowId> {
    if rows == [] then {}
    else
      var init := rows[..|rows| - 1];
      PoolReads(rd, init) + AdmitReads(rd, Pool(rd, init), rows[|rows| - 1])
  }

  lemma PoolReadsStep(rd: RowReader, rows: seq<Row>, row: Row)
    ensures PoolReads(rd, rows + [row]) == PoolReads(rd, rows) + AdmitReads(rd, Pool(rd, rows), row)
  {
    assert (rows + [row])[..|rows|] == rows;
  }

  lemma {:induction false} PoolReadsGrow(rd: RowReader, rows: seq<Row>, n: nat)
    requires n <= |rows|
    ensures PoolReads(rd, rows[..n]) <= PoolReads(rd, rows)
  {
    hide IsUsable, Pool, AdmitReads;
    if n == |rows| {
      assert rows[..n] == rows;
    } else {
      PoolReadsGrow(rd, rows[..|rows| - 1], n);
      assert rows[..|rows| - 1][..n] == rows[..n];
    }
  }

  /** Gathering the rows of the selected and newer versions, the live ones on top,
      and reading the recovered ones once more. */
  ghost function GatherReads(rd: RowReader, local: ChatSnapshot, candidates: seq<Candidate>, n: nat,
                             missing: seq<Text>): set<RowId>
    requires n < |candidates|
  {
    var trusted := TrustedRows(local, candidates, n + 1);
    PoolReads(rd, trusted) + RowSet(local.bubbles)
    + RowIds(Overlay(rd, Pool(rd, trusted), Index(local.bubbles)), missing)
  }

  ghost function SynthesisReads(rd: RowReader, local: ChatSnapshot, candidates: seq<Candidate>, missing: seq<Text>):
    set<RowId>
  {
    var n := FirstOffer(rd, local, candidates, missing, 0);
    SelectReads(rd, local, candidates, missing, 0) +
    if n == |candidates| then {}
    else
      var selected := Index(candidates[n].snapshot.bubbles);
      DisagreeReads(rd, local, candidates, n, selected, missing, 0)
      + if Disagree(rd, local, candidates, n, selected, missing) then {}
        else GatherReads(rd, local, candidates, n, missing)
  }

  /** The rows of a whole build: those of the first audit, and if it finds messages
      unavailable, those it takes to bring them back. */
  ghost function BuildReads(rd: RowReader, local: ChatSnapshot, candidates: seq<Candidate>): set<RowId> {
    Needed(rd, local) +
    match Findings(rd, local)
    case Refused(_) => {}
    case Known(_, missing) => if missing == [] then {} else SynthesisReads(rd, local, candidates, missing)
  }
}
