/** The synthesis of a repaired conversation, auditChatReferences and
    buildChatRepairSnapshot of src/chat/repair.ts. */
module Repair {
  import opened Basics
  import opened Portable
  import opened Canonical
  import opened Bubbles
  import opened RepairBudget
  import Sums
  import ChatMerge

  const MAX_HEADERS := 250_000

  datatype Candidate = Candidate(versionId: Text, snapshot: ChatSnapshot)

  datatype Reason =
    | LimitReached | Unrecognized | AlreadyComplete | NoVersion | Disagreement | RowDisappeared | StillUnavailable

  // ----- What a conversation refers to -----

  /** The row keys composerData names, when its row exposes a recognized list. */
  function References(rd: RowReader, s: ChatSnapshot): Option<seq<Text>> {
    match Verdict(rd, IdOf(s.composerData))
    case Usable(ObjectValue(Some(headers))) =>
      if |headers| <= MAX_HEADERS && ChatMerge.IdsOk(headers) then Some(ChatMerge.KeysOf(s.composerId, headers))
      else None
    case _ => None
  }

  predicate IsUsable(rd: RowReader, row: Row) {
    Verdict(rd, IdOf(row)).Usable?
  }

  predicate Available(rd: RowReader, rows: Table, key: Text) {
    key in rows && IsUsable(rd, rows[key])
  }

  /** The references without a usable row, in reference order. */
  function Unavailable(rd: RowReader, rows: Table, references: seq<Text>): (r: seq<Text>)
    ensures forall key :: key in r <==> key in references && !Available(rd, rows, key)
  {
    if references == [] then []
    else
      var init, last := references[..|references| - 1], references[|references| - 1];
      assert references == init + [last];
      Unavailable(rd, rows, init) + if Available(rd, rows, last) then [] else [last]
  }

  lemma UnavailableStep(rd: RowReader, rows: Table, references: seq<Text>, n: nat)
    requires n < |references|
    ensures Unavailable(rd, rows, references[..n + 1]) ==
            Unavailable(rd, rows, references[..n]) + if Available(rd, rows, references[n]) then [] else [references[n]]
  {
    assert references[..n + 1][..n] == references[..n];
  }

  ghost function RowIds(rows: Table, keys: seq<Text>): set<RowId> {
    set key | key in keys && key in rows :: IdOf(rows[key])
  }

  /** The rows an audit reads. */
  ghost function Needed(rd: RowReader, s: ChatSnapshot): set<RowId> {
    {IdOf(s.composerData)} + if References(rd, s).Some? then RowIds(Index(s.bubbles), References(rd, s).value) else {}
  }

  datatype Audit = Known(references: seq<Text>, unavailable: seq<Text>) | Refused(reason: Reason)

  /** What an audit says of a conversation whose rows it can afford to read. */
  function Findings(rd: RowReader, s: ChatSnapshot): Audit {
    match References(rd, s)
    case None => Refused(Unrecognized)
    case Some(keys) => Known(keys, Unavailable(rd, Index(s.bubbles), keys))
  }

  // ----- The audit -----

  /** referencedBubbleKeys */
  method ReferencedBubbleKeys(work: RepairRowJsonWork, s: ChatSnapshot) returns (keys: Option<seq<Text>>)
    requires work.Valid()
    modifies work
    ensures work.Valid()
    ensures old(work.structuralLimitReached) ==> work.structuralLimitReached
    ensures !work.structuralLimitReached ==>
              keys == References(work.rd, s) && work.read == old(work.read) + {IdOf(s.composerData)}
    ensures work.structuralLimitReached ==> keys == None
    ensures work.structuralLimitReached && !old(work.structuralLimitReached) ==>
            !Affordable(work.rd, old(work.read) + {IdOf(s.composerData)})
  {
    hide Verdict, Affordable, ChatMerge.KeysOf, ChatMerge.IdsOk, work.Valid;
    var inspection := work.Inspect(s.composerData);
    if work.structuralLimitReached {
      return None;
    }
    match inspection {
      case Usable(ObjectValue(Some(headers))) =>
        keys := ReadHeaders(s.composerId, headers);
      case _ =>
        keys := None;
    }
  }

  /** Every header carries a non-empty id of its own. */
  method ReadHeaders(composerId: Text, headers: seq<Option<Text>>) returns (keys: Option<seq<Text>>)
    ensures keys ==
              if |headers| <= MAX_HEADERS && ChatMerge.IdsOk(headers) then Some(ChatMerge.KeysOf(composerId, headers))
              else None
  {
    if |headers| > MAX_HEADERS {
      return None;
    }
    var seen: set<Text> := {};
    var list := [];
    for i := 0 to |headers|
      invariant ChatMerge.IdsOk(headers[..i]) && seen == ChatMerge.IdSet(headers[..i])
      invariant list == ChatMerge.KeysOf(composerId, headers[..i])
    {
      var bubbleId := headers[i];
      assert headers[..i + 1][..i] == headers[..i] && headers[..i + 1][i] == bubbleId;
      if bubbleId == None || |bubbleId.value| == 0 || bubbleId.value in seen {
        ChatMerge.IdsNotOk(headers, i + 1);
        return None;
      }
      seen := seen + {bubbleId.value};
      list := list + [ChatMerge.BubblePrefix(composerId) + bubbleId.value];
    }
    assert headers[..|headers|] == headers;
    return Some(list);
  }

  /** auditChatReferencesWithWork */
  method AuditWithWork(work: RepairRowJsonWork, s: ChatSnapshot) returns (a: Audit)
    requires work.Valid()
    modifies work
    ensures work.Valid()
    ensures old(work.structuralLimitReached) ==> work.structuralLimitReached
    ensures !work.structuralLimitReached ==>
              a == Findings(work.rd, s) && work.read == old(work.read) + Needed(work.rd, s)
    ensures work.structuralLimitReached ==> a == Refused(LimitReached)
    ensures work.structuralLimitReached && !old(work.structuralLimitReached) ==>
              !Affordable(work.rd, old(work.read) + Needed(work.rd, s))
  {
    hide Verdict, Affordable, Unavailable, Index, References, work.Valid;
    ghost var rd, before, spent := work.rd, work.read, work.structuralLimitReached;
    var keys := ReferencedBubbleKeys(work, s);
    if work.structuralLimitReached {
      if !spent {
        NotAffordable(rd, before + {IdOf(s.composerData)}, before + Needed(rd, s));
      }
      return Refused(LimitReached);
    }
    if keys == None {
      return Refused(Unrecognized);
    }
    var references := keys.value;
    var rows := Index(s.bubbles);
    ghost var own := work.read;
    assert own == before + {IdOf(s.composerData)} && own + RowIds(rows, references) == before + Needed(rd, s);
    var missing := [];
    assert references[..0] == [];
    NothingUnavailable(rd, rows);
    for i := 0 to |references|
      invariant work.Valid() && !work.structuralLimitReached
      invariant missing == Unavailable(rd, rows, references[..i])
      invariant work.read == own + RowIds(rows, references[..i])
    {
      var key := references[i];
      UnavailableStep(rd, rows, references, i);
      RowIdsStep(rows, references, i);
      if key !in rows {
        missing := missing + [key];
      } else {
        var inspection := work.Inspect(rows[key]);
        if work.structuralLimitReached {
          NotAffordable(rd, own + RowIds(rows, references[..i]) + {IdOf(rows[key])}, before + Needed(rd, s));
          return Refused(LimitReached);
        }
        if inspection == Unusable {
          missing := missing + [key];
        }
      }
    }
    assert references[..|references|] == references;
    return Known(references, missing);
  }

  lemma NothingUnavailable(rd: RowReader, rows: Table)
    ensures Unavailable(rd, rows, []) == []
  {
  }

  lemma RowIdsStep(rows: Table, keys: seq<Text>, n: nat)
    requires n < |keys|
    ensures RowIds(rows, keys[..n + 1]) ==
              RowIds(rows, keys[..n]) + if keys[n] in rows then {IdOf(rows[keys[n]])} else {}
    ensures RowIds(rows, keys[..n + 1]) <= RowIds(rows, keys)
  {
    assert keys[..n + 1] == keys[..n] + [keys[n]];
  }

  lemma NotAffordable(rd: RowReader, a: set<RowId>, b: set<RowId>)
    requires a <= b && !Affordable(rd, a)
    ensures !Affordable(rd, b)
  {
    if Affordable(rd, b) {
      AffordableSubset(rd, a, b);
      assert false;
    }
  }

  /** auditChatReferences: refused for the budget exactly when the rows it reads
      do not fit a fresh one. */
  method AuditChatReferences(rd: RowReader, s: ChatSnapshot) returns (a: Audit)
    ensures a == Refused(LimitReached) <==> !Affordable(rd, Needed(rd, s))
    ensures Affordable(rd, Needed(rd, s)) ==> a == Findings(rd, s)
  {
    hide Verdict, Unavailable, Index, References, Affordable;
    var work := new RepairRowJsonWork(rd);
    a := AuditWithWork(work, s);
    assert {} + Needed(rd, s) == Needed(rd, s);
    assert !work.structuralLimitReached ==> Affordable(rd, work.read);
  }
}
