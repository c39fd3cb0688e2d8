/** The merge of two forks of one chat, src/chat/chatMerge.ts: which side's core
    is elected, what the merge keeps, and the budgets around it. */
module ChatMerge {
  import opened Basics
  import opened Sums
  import opened Portable
  import opened Canonical
  import opened Lengths
  import opened Bubbles
  import opened KvMerge
  import JsonString
  import Base64

  const MAX_BUBBLE_ROWS := 16_384
  const OVERHEAD_BYTES := 4 * 1024

  // ----- Parsed snapshots -----

  function BubblePrefix(composerId: Text): Text {
    Ascii("bubbleId:") + composerId + Ascii(":")
  }

  predicate IsParsedRow(row: Row) {
    Base64.IsText(row.valueBase64) && row.valueType != Some(OtherClass)
  }

  /** What parsePortableChatSnapshot guarantees. */
  ghost predicate IsParsed(c: Codec, s: ChatSnapshot) {
    && s.header.composerId == s.composerId && HeaderOk(s.header)
    && s.composerData.key == Ascii("composerData:") + s.composerId
    && IsParsedRow(s.composerData)
    && (forall row :: row in s.bubbles ==> IsParsedRow(row) && BubblePrefix(s.composerId) < row.key)
    && DistinctKeys(s.bubbles)
    && (s.agentKv.Some? ==> ValidPayload(c, s.agentKv.value))
  }

  // ----- Reading rows under a budget -----

  /** What JSON.parse of a row comes to for the merge: not JSON, not an object,
      or an object with its visible message index, where every entry has a string
      bubbleId or not. */
  datatype Parsed = NotJson | OtherValue | ObjectValue(headers: Option<seq<Option<Text>>>)

  /** JSON parsing, UTF-8 validity, and the structural tokens of a text unless it
      nests too deep. */
  datatype JsonReader = JsonReader(parse: seq<byte> -> Parsed, isUtf8: seq<byte> -> bool,
                                   tokens: seq<byte> -> Option<nat>)

  /** The row can be read by someone with budget enough. */
  predicate RowReadable(r: JsonReader, row: Row) {
    row.valueType != Some(NullClass) && r.isUtf8(RowBytes(row)) && r.tokens(RowBytes(row)).Some?
  }

  predicate RowUsable(r: JsonReader, row: Row) {
    RowReadable(r, row) && r.parse(RowBytes(row)).ObjectValue?
  }

  datatype Inspection = Usable(value: Parsed) | Unusable | Limit

  /** What reading a row takes from the two budgets. */
  ghost function BytesTaken(): Row -> nat {
    row => |RowBytes(row)|
  }

  ghost function TokensTaken(r: JsonReader): Row -> nat {
    row => TokenCount(r, row)
  }

  function TokenCount(r: JsonReader, row: Row): nat {
    if r.tokens(RowBytes(row)).Some? then r.tokens(RowBytes(row)).value else 0
  }

  class ElectionBudget {
    var remainingDecodedBytes: nat
    var remainingTokens: nat
    /** A budget has refused something. */
    ghost var limited: bool

    constructor (bytes: nat, tokens: nat)
      ensures !limited && remainingDecodedBytes == bytes && remainingTokens == tokens
    {
      remainingDecodedBytes, remainingTokens, limited := bytes, tokens, false;
    }

    /** structure.consume: debits the tokens of one document. */
    method Consume(r: JsonReader, bytes: seq<byte>) returns (ok: bool)
      modifies this`remainingTokens, this`limited
      ensures limited && !old(limited) ==> r.tokens(bytes).Some? && r.tokens(bytes).value > old(remainingTokens)
      ensures !ok && !limited ==> remainingTokens == old(remainingTokens)
      ensures ok ==>
                r.tokens(bytes).Some? && limited == old(limited)
                && remainingTokens == old(remainingTokens) - r.tokens(bytes).value
      ensures !ok ==> limited || r.tokens(bytes) == None
      ensures old(limited) ==> limited
    {
      if r.tokens(bytes) == None {
        return false;
      }
      var cost := r.tokens(bytes).value;
      if cost > remainingTokens {
        remainingTokens := 0;
        limited := true;
        return false;
      }
      remainingTokens := remainingTokens - cost;
      return true;
    }

    /** inspectMergeJsonRow */
    method Inspect(r: JsonReader, row: Row) returns (i: Inspection)
      requires Base64.IsText(row.valueBase64)
      modifies this
      ensures old(limited) ==> limited
      ensures i.Usable? ==>
                RowReadable(r, row) && i.value == r.parse(RowBytes(row)) && i.value != NotJson
                && limited == old(limited)
      ensures !i.Usable? && !limited ==> !RowReadable(r, row) || r.parse(RowBytes(row)) == NotJson
      ensures limited && !old(limited) ==>
                BytesTaken()(row) > old(remainingDecodedBytes) || TokensTaken(r)(row) > old(remainingTokens)
      ensures !limited ==> remainingDecodedBytes + BytesTaken()(row) >= old(remainingDecodedBytes)
                           && remainingTokens + TokensTaken(r)(row) >= old(remainingTokens)
    {
      if row.valueType == Some(NullClass) {
        return Unusable;
      }
      DecodedBytes(row);
      var byteLength := Base64.DecodedLength(row.valueBase64);
      if byteLength > remainingDecodedBytes {
        limited := true;
        return Limit;
      }
      remainingDecodedBytes := remainingDecodedBytes - byteLength;
      var bytes := RowBytes(row);
      if !r.isUtf8(bytes) {
        return Limit;
      }
      var ok := Consume(r, bytes);
      if !ok {
        return Limit;
      }
      if r.parse(bytes) == NotJson {
        return Unusable;
      }
      return Usable(r.parse(bytes));
    }

    /** visibleBubbleKeys */
    method VisibleBubbleKeys(r: JsonReader, s: ChatSnapshot) returns (keys: Option<seq<Text>>)
      requires Base64.IsText(s.composerData.valueBase64)
      modifies this
      ensures old(limited) ==> limited
      ensures keys.Some? ==> keys == VisibleKeys(r, s) && limited == old(limited)
      ensures keys == None && !limited ==> VisibleKeys(r, s) == None
      ensures limited && !old(limited) ==>
              BytesTaken()(s.composerData) > old(remainingDecodedBytes)
              || TokensTaken(r)(s.composerData) > old(remainingTokens)
      ensures !limited ==> remainingDecodedBytes + BytesTaken()(s.composerData) >= old(remainingDecodedBytes)
                           && remainingTokens + TokensTaken(r)(s.composerData) >= old(remainingTokens)
    {
      hide RowReadable;
      var inspected := Inspect(r, s.composerData);
      if !inspected.Usable? || !inspected.value.ObjectValue? || inspected.value.headers == None
         || |inspected.value.headers.value| > MAX_BUBBLE_ROWS {
        return None;
      }
      var headers := inspected.value.headers.value;
      var seen: set<Text> := {};
      var list := [];
      for i := 0 to |headers|
        invariant limited == old(limited)
        invariant !limited ==> remainingDecodedBytes + BytesTaken()(s.composerData) >= old(remainingDecodedBytes)
                               && remainingTokens + TokensTaken(r)(s.composerData) >= old(remainingTokens)
        invariant IdsOk(headers[..i]) && seen == IdSet(headers[..i]) && list == KeysOf(s.composerId, headers[..i])
      {
        var bubbleId := headers[i];
        assert headers[..i + 1][..i] == headers[..i] && headers[..i + 1][i] == bubbleId;
        if bubbleId == None || |bubbleId.value| == 0 || bubbleId.value in seen {
          IdsNotOk(headers, i + 1);
          return None;
        }
        seen := seen + {bubbleId.value};
        list := list + [BubblePrefix(s.composerId) + bubbleId.value];
      }
      assert headers[..|headers|] == headers;
      return Some(list);
    }

    /** visibleBubblesAreCompleteAndUsable */
    method VisibleBubblesAreCompleteAndUsable(r: JsonReader, s: ChatSnapshot, references: seq<Text>) returns (ok: bool)
      requires forall row :: row in s.bubbles ==> Base64.IsText(row.valueBase64)
      requires forall i, j :: 0 <= i < j < |references| ==> references[i] != references[j]
      modifies this
      ensures old(limited) ==> limited
      ensures limited && !old(limited) ==>
              || Sum(BytesTaken(), Elements(s.bubbles)) > old(remainingDecodedBytes)
              || Sum(TokensTaken(r), Elements(s.bubbles)) > old(remainingTokens)
      ensures ok ==> IsComplete(r, s, references) && limited == old(limited)
      ensures !ok && !limited ==> !IsComplete(r, s, references)
    {
      hide Index, RowReadable;
      var bubbles := Index(s.bubbles);
      IndexRows(s.bubbles);
      ghost var bytes, tokens := BytesTaken(), TokensTaken(r);
      SumEmpty(bytes);
      SumEmpty(tokens);
      assert RowsNamed(bubbles, references[..0]) == {};
      for i := 0 to |references|
        invariant limited == old(limited)
        invariant !limited ==>
                    remainingDecodedBytes
                    + Sum(bytes, RowsNamed(bubbles, references[..i])) >= old(remainingDecodedBytes)
                               && remainingTokens
                                  + Sum(tokens, RowsNamed(bubbles, references[..i])) >= old(remainingTokens)
        invariant forall j :: 0 <= j < i ==> references[j] in bubbles && RowUsable(r, bubbles[references[j]])
      {
        var key := references[i];
        if key !in bubbles {
          return false;
        }
        NextNamed(bubbles, s.bubbles, references, i, bytes);
        NextNamed(bubbles, s.bubbles, references, i, tokens);
        var inspected := Inspect(r, bubbles[key]);
        if !inspected.Usable? || !inspected.value.ObjectValue? {
          return false;
        }
      }
      return true;
    }
  }

  /** The rows of these keys. */
  ghost function RowsNamed(t: Table, keys: seq<Text>): set<Row> {
    set k | k in keys && k in t :: t[k]
  }

  /** Rows of distinct keys add up, and to no more than all rows. */
  lemma NextNamed(t: Table, rows: seq<Row>, keys: seq<Text>, i: nat, f: Row -> nat)
    requires i < |keys| && keys[i] in t && (forall j :: 0 <= j < i ==> keys[j] != keys[i])
    requires forall k :: k in t ==> t[k] in rows && t[k].key == k
    ensures Sum(f, RowsNamed(t, keys[..i + 1])) ==
              Sum(f, RowsNamed(t, keys[..i])) + f(t[keys[i]]) <= Sum(f, Elements(rows))
  {
    assert keys[..i + 1] == keys[..i] + [keys[i]];
    assert RowsNamed(t, keys[..i + 1]) == RowsNamed(t, keys[..i]) + {t[keys[i]]};
    SumInsert(f, RowsNamed(t, keys[..i]), t[keys[i]]);
    SumSubset(f, RowsNamed(t, keys[..i + 1]), Elements(rows));
  }

  /** The ids of a recognized list differ, and so do the row keys. */
  lemma {:induction false} KeysDiffer(composerId: Text, headers: seq<Option<Text>>)
    requires IdsOk(headers)
    ensures |KeysOf(composerId, headers)| == |headers|
    ensures forall i ::
              0 <= i < |headers| ==>
                headers[i].Some? && KeysOf(composerId, headers)[i] == BubblePrefix(composerId) + headers[i].value
    ensures forall i, j :: 0 <= i < j < |headers| ==> KeysOf(composerId, headers)[i] != KeysOf(composerId, headers)[j]
    ensures forall i :: 0 <= i < |headers| ==> headers[i].value in IdSet(headers)
  {
    hide BubblePrefix;
    if headers != [] {
      var n := |headers| - 1;
      KeysDiffer(composerId, headers[..n]);
      assert forall i :: 0 <= i < n ==> headers[..n][i] == headers[i];
      forall i | 0 <= i < n
        ensures BubblePrefix(composerId) + headers[i].value != BubblePrefix(composerId) + headers[n].value
      {
        SamePrefix(BubblePrefix(composerId), headers[i].value, headers[n].value);
      }
    }
  }

  lemma SamePrefix<T>(a: seq<T>, b: seq<T>, c: seq<T>)
    ensures a + b == a + c ==> b == c
  {
    assert (a + b)[|a|..] == b && (a + c)[|a|..] == c;
  }

  lemma VisibleKeysDiffer(r: JsonReader, s: ChatSnapshot)
    ensures VisibleKeys(r, s).Some? ==>
              var keys := VisibleKeys(r, s).value; forall i, j :: 0 <= i < j < |keys| ==> keys[i] != keys[j]
  {
    hide IdsOk, KeysOf, BubblePrefix;
    match r.parse(RowBytes(s.composerData))
    case ObjectValue(Some(headers)) =>
      if IdsOk(headers) {
        KeysDiffer(s.composerId, headers);
      }
    case _ =>
  }

  // ----- The visible conversation -----

  /** All entries are non-empty string ids, without repetition. */
  predicate IdsOk(headers: seq<Option<Text>>) {
    headers == [] ||
    (IdsOk(headers[..|headers| - 1]) && headers[|headers| - 1].Some? && headers[|headers| - 1].value != []
     && headers[|headers| - 1].value !in IdSet(headers[..|headers| - 1]))
  }

  function IdSet(headers: seq<Option<Text>>): set<Text> {
    if headers == [] then {}
    else
      IdSet(headers[..|headers| - 1]) + if headers[|headers| - 1].Some? then {headers[|headers| - 1].value} else {}
  }

  function KeysOf(composerId: Text, headers: seq<Option<Text>>): seq<Text> {
    if headers == [] then []
    else
      KeysOf(composerId, headers[..|headers| - 1])
      + if headers[|headers| - 1].Some? then [BubblePrefix(composerId) + headers[|headers| - 1].value] else []
  }

  lemma {:induction false} IdsNotOk(headers: seq<Option<Text>>, n: nat)
    requires n <= |headers| && !IdsOk(headers[..n])
    ensures !IdsOk(headers)
  {
    if n < |headers| {
      assert headers[..|headers| - 1][..n] == headers[..n];
      IdsNotOk(headers[..|headers| - 1], n);
    } else {
      assert headers[..n] == headers;
    }
  }

  /** The ordered row keys of the messages a core shows. */
  function VisibleKeys(r: JsonReader, s: ChatSnapshot): Option<seq<Text>> {
    if !RowReadable(r, s.composerData) then None
    else
      match r.parse(RowBytes(s.composerData))
      case ObjectValue(Some(headers)) =>
        if |headers| <= MAX_BUBBLE_ROWS && IdsOk(headers) then Some(KeysOf(s.composerId, headers)) else None
      case _ => None
  }

  /** Every visible message has a usable row of the snapshot's own. */
  predicate IsComplete(r: JsonReader, s: ChatSnapshot, keys: seq<Text>) {
    forall k :: k in keys ==> k in Index(s.bubbles) && RowUsable(r, Index(s.bubbles)[k])
  }

  lemma {:induction false} IndexRows(rows: seq<Row>)
    ensures forall k :: k in Index(rows) ==> Index(rows)[k] in rows && Index(rows)[k].key == k
  {
    if rows != [] {
      assert rows == rows[..|rows| - 1] + [rows[|rows| - 1]];
      IndexRows(rows[..|rows| - 1]);
    }
  }

  // ----- The election -----

  datatype Side = First | Second

  function Pick(side: Side, first: ChatSnapshot, second: ChatSnapshot): ChatSnapshot {
    if side == First then first else second
  }

  predicate SameNum(a: Option<Num>, b: Option<Num>) {
    if a.Some? && b.Some? then a.value.value == b.value.value else a == b
  }

  /** compareLastUpdatedAt(a, b) < 0 */
  predicate Older(a: ChatSnapshot, b: ChatSnapshot) {
    var x, y := a.header.lastUpdatedAt, b.header.lastUpdatedAt;
    if SameNum(x, y) then false
    else if x == None then true
    else if y == None then false else x.value.value < y.value.value
  }

  predicate SameChatContentExceptDeviceHeader(a: ChatSnapshot, b: ChatSnapshot) {
    && a.header.composerId == b.header.composerId && a.header.value == b.header.value
    && SameNum(a.header.createdAt, b.header.createdAt) && SameNum(a.header.lastUpdatedAt, b.header.lastUpdatedAt)
    && SameNum(a.header.isArchived, b.header.isArchived) && SameNum(a.header.isSubagent, b.header.isSubagent)
    && SameNum(a.header.checkpointAt, b.header.checkpointAt)
    && |a.bubbles| == |b.bubbles|
    && forall i :: 0 <= i < |a.bubbles| ==> a.bubbles[i].key == b.bubbles[i].key && SameRow(a.bubbles[i], b.bubbles[i])
  }

  predicate StrictPrefix(a: seq<Text>, b: seq<Text>) {
    |a| < |b| && a <= b
  }

  /** The election with all the budget it needs. */
  function Elects(r: JsonReader, base: Option<ChatSnapshot>, first: ChatSnapshot, second: ChatSnapshot): Option<Side> {
    if SameRow(first.composerData, second.composerData) then
      if first.agentKv.Some? != second.agentKv.Some? && SameChatContentExceptDeviceHeader(first, second) then
        Some(if first.agentKv.Some? then First else Second)
      else Some(if Older(first, second) then Second else First)
    else if base.Some? && SameRow(first.composerData, base.value.composerData) != SameRow(second.composerData,
        base.value.composerData) then
      var side := if SameRow(first.composerData, base.value.composerData) then Second else First;
      ElectsChanged(r, base.value, Pick(side, first, second), side)
    else
      match (VisibleKeys(r, first), VisibleKeys(r, second))
      case (Some(a), Some(b)) =>
        if StrictPrefix(a, b) then if IsComplete(r, second, b) then Some(Second) else None
        else if StrictPrefix(b, a) then if IsComplete(r, first, a) then Some(First) else None
        else None
      case _ => None
  }

  /** The only side that changed its core since the base wins if its visible
      messages are the base's or more. */
  function ElectsChanged(r: JsonReader, base: ChatSnapshot, changed: ChatSnapshot, side: Side): Option<Side> {
    match (VisibleKeys(r, base), VisibleKeys(r, changed))
    case (Some(a), Some(b)) => if (a == b || StrictPrefix(a, b)) && IsComplete(r, changed, b) then Some(side) else None
    case _ => None
  }

  predicate HasTextRows(s: ChatSnapshot) {
    Base64.IsText(s.composerData.valueBase64) && forall row :: row in s.bubbles ==> Base64.IsText(row.valueBase64)
  }

  /** The budgets do not cover reading these two cores and these message rows. */
  ghost predicate Short(r: JsonReader, a: Row, b: Row, rows: set<Row>, bytes: nat, tokens: nat) {
    || BytesTaken()(a) + BytesTaken()(b) + Sum(BytesTaken(), rows) > bytes
    || TokensTaken(r)(a) + TokensTaken(r)(b) + Sum(TokensTaken(r), rows) > tokens
  }

  lemma ShortOfMore(r: JsonReader, a: Row, b: Row, some: set<Row>, all: set<Row>, bytes: nat, tokens: nat)
    requires some <= all && Short(r, a, b, some, bytes, tokens)
    ensures Short(r, a, b, all, bytes, tokens)
  {
    SumSubset(BytesTaken(), some, all);
    SumSubset(TokensTaken(r), some, all);
  }

  /** A budget is too small for reading some two of the cores and one side's messages. */
  ghost predicate TooSmall(r: JsonReader, base: Option<ChatSnapshot>, first: ChatSnapshot, second: ChatSnapshot,
                           bytes: nat, tokens: nat)
  {
    var rows := Elements(first.bubbles) + Elements(second.bubbles);
    || Short(r, first.composerData, second.composerData, rows, bytes, tokens)
    || (base.Some? && Short(r, base.value.composerData, first.composerData, rows, bytes, tokens))
    || (base.Some? && Short(r, base.value.composerData, second.composerData, rows, bytes, tokens))
  }

  /** electCompatibleCore: what Elects says, or nothing when a budget runs out. */
  method ElectCompatibleCore(r: JsonReader, base: Option<ChatSnapshot>, first: ChatSnapshot, second: ChatSnapshot,
                             workBudget: nat, maxStructuralTokens: nat)
    returns (side: Option<Side>, ghost limited: bool)
    requires HasTextRows(first) && HasTextRows(second) && (base.Some? ==> HasTextRows(base.value))
    ensures side.Some? ==> side == Elects(r, base, first, second)
    ensures side == None && !limited ==> Elects(r, base, first, second) == None
    ensures limited ==> side == None && TooSmall(r, base, first, second, workBudget, maxStructuralTokens)
  {
    hide VisibleKeys, IsComplete;
    limited := false;
    if SameRow(first.composerData, second.composerData) {
      if first.agentKv.Some? != second.agentKv.Some? && SameChatContentExceptDeviceHeader(first, second) {
        return Some(if first.agentKv.Some? then First else Second), false;
      }
      return Some(if Older(first, second) then Second else First), false;
    }
    var budget := new ElectionBudget(workBudget, maxStructuralTokens);
    if base.Some? {
      var firstIsBase := SameRow(first.composerData, base.value.composerData);
      var secondIsBase := SameRow(second.composerData, base.value.composerData);
      if firstIsBase != secondIsBase {
        var changedSide := if firstIsBase then Second else First;
        side, limited := ElectChanged(r, base.value, Pick(changedSide, first, second), changedSide, budget);
        if limited {
          ShortOfMore(r, base.value.composerData, Pick(changedSide, first, second).composerData,
                      Elements(Pick(changedSide, first, second).bubbles),
                      Elements(first.bubbles) + Elements(second.bubbles), workBudget, maxStructuralTokens);
        }
        return;
      }
    }
    side, limited := ElectLonger(r, first, second, budget);
  }

  method ElectChanged(r: JsonReader, base: ChatSnapshot, changed: ChatSnapshot, changedSide: Side,
                      budget: ElectionBudget)
    returns (side: Option<Side>, ghost limited: bool)
    requires HasTextRows(base) && HasTextRows(changed) && !budget.limited
    modifies budget
    ensures side.Some? ==> side == ElectsChanged(r, base, changed, changedSide)
    ensures side == None && !limited ==> ElectsChanged(r, base, changed, changedSide) == None
    ensures limited ==>
              side == None
              && Short(r, base.composerData, changed.composerData, Elements(changed.bubbles),
                       old(budget.remainingDecodedBytes), old(budget.remainingTokens))
  {
    hide VisibleKeys, IsComplete;
    VisibleKeysDiffer(r, changed);
    var baseReferences := budget.VisibleBubbleKeys(r, base);
    var changedReferences := budget.VisibleBubbleKeys(r, changed);
    if baseReferences == None || changedReferences == None
       || (baseReferences != changedReferences && !StrictPrefix(baseReferences.value, changedReferences.value)) {
      return None, budget.limited;
    }
    var complete := budget.VisibleBubblesAreCompleteAndUsable(r, changed, changedReferences.value);
    return if complete then Some(changedSide) else None, budget.limited;
  }

  method ElectLonger(r: JsonReader, first: ChatSnapshot, second: ChatSnapshot, budget: ElectionBudget)
    returns (side: Option<Side>, ghost limited: bool)
    requires HasTextRows(first) && HasTextRows(second) && !budget.limited
    modifies budget
    ensures var a, b := VisibleKeys(r, first), VisibleKeys(r, second);
            match side
            case Some(Second) => a.Some? && b.Some? && StrictPrefix(a.value, b.value) && IsComplete(r, second, b.value)
            case Some(First) => a.Some? && b.Some? && StrictPrefix(b.value, a.value) && IsComplete(r, first, a.value)
            case None =>
              limited || a == None || b == None ||
              (!(StrictPrefix(a.value, b.value) && IsComplete(r, second, b.value)) &&
               !(StrictPrefix(b.value, a.value) && IsComplete(r, first, a.value)))
    ensures limited ==>
              side == None
              && Short(r, first.composerData, second.composerData, Elements(first.bubbles) + Elements(second.bubbles),
                       old(budget.remainingDecodedBytes), old(budget.remainingTokens))
  {
    hide VisibleKeys, IsComplete;
    VisibleKeysDiffer(r, first);
    VisibleKeysDiffer(r, second);
    SumSubset(BytesTaken(), Elements(first.bubbles), Elements(first.bubbles) + Elements(second.bubbles));
    SumSubset(TokensTaken(r), Elements(first.bubbles), Elements(first.bubbles) + Elements(second.bubbles));
    SumSubset(BytesTaken(), Elements(second.bubbles), Elements(first.bubbles) + Elements(second.bubbles));
    SumSubset(TokensTaken(r), Elements(second.bubbles), Elements(first.bubbles) + Elements(second.bubbles));
    var firstReferences := budget.VisibleBubbleKeys(r, first);
    var secondReferences := budget.VisibleBubbleKeys(r, second);
    if firstReferences == None || secondReferences == None {
      return None, budget.limited;
    }
    if StrictPrefix(firstReferences.value, secondReferences.value) {
      var complete := budget.VisibleBubblesAreCompleteAndUsable(r, second, secondReferences.value);
      return if complete then Some(Second) else None, budget.limited;
    }
    if StrictPrefix(secondReferences.value, firstReferences.value) {
      var complete := budget.VisibleBubblesAreCompleteAndUsable(r, first, firstReferences.value);
      return if complete then Some(First) else None, budget.limited;
    }
    return None, budget.limited;
  }

  // ----- No visible message is hidden -----

  /** Whatever the loser shows, the winner shows first and in the same order. */
  predicate Extends(winner: Option<seq<Text>>, loser: Option<seq<Text>>) {
    winner == loser || (winner.Some? && loser.Some? && loser.value <= winner.value)
  }

  lemma SameRowSameKeys(r: JsonReader, a: ChatSnapshot, b: ChatSnapshot)
    requires SameRow(a.composerData, b.composerData) && a.composerId == b.composerId
    ensures VisibleKeys(r, a) == VisibleKeys(r, b)
  {
    hide IdsOk, KeysOf;
  }

  /** An election never elects a core that hides a message of the other side. */
  lemma ElectionHidesNothing(r: JsonReader, base: Option<ChatSnapshot>, first: ChatSnapshot, second: ChatSnapshot)
    requires first.composerId == second.composerId && (base.Some? ==> base.value.composerId == first.composerId)
    requires Elects(r, base, first, second).Some?
    ensures var side := Elects(r, base, first, second).value;
            Extends(VisibleKeys(r, Pick(side, first, second)),
                    VisibleKeys(r, Pick(if side == First then Second else First, first, second)))
  {
    hide VisibleKeys, IsComplete;
    if SameRow(first.composerData, second.composerData) {
      SameRowSameKeys(r, first, second);
    } else if base.Some? {
      if SameRow(first.composerData, base.value.composerData) {
        SameRowSameKeys(r, first, base.value);
      }
      if SameRow(second.composerData, base.value.composerData) {
        SameRowSameKeys(r, second, base.value);
      }
    }
  }

  /** When the cores differ, the order of the two sides does not matter. */
  lemma ElectionSymmetric(r: JsonReader, base: Option<ChatSnapshot>, first: ChatSnapshot, second: ChatSnapshot)
    requires !SameRow(first.composerData, second.composerData)
    ensures match Elects(r, base, first, second)
            case None => Elects(r, base, second, first) == None
            case Some(side) => Elects(r, base, second, first) == Some(if side == First then Second else First)
  {
    hide VisibleKeys, IsComplete;
  }

  /** The first was last updated no later than the second: never counts as earliest. */
  ghost predicate NoFresher(a: ChatSnapshot, b: ChatSnapshot) {
    match (a.header.lastUpdatedAt, b.header.lastUpdatedAt)
    case (None, _) => true
    case (Some(_), None) => false
    case (Some(x), Some(y)) => x.value <= y.value
  }

  /** Of two sides with the same core the fresher wins, and the first if they are
      equally fresh; but a side that carries a payload wins over one that differs in
      nothing else, and that is equally fresh. */
  lemma SameCoreElection(r: JsonReader, base: Option<ChatSnapshot>, first: ChatSnapshot, second: ChatSnapshot)
    requires SameRow(first.composerData, second.composerData)
    ensures Elects(r, base, first, second).Some?
    ensures var side := Elects(r, base, first, second).value;
            && NoFresher(Pick(if side == First then Second else First, first, second), Pick(side, first, second))
            && (first.agentKv.Some? == second.agentKv.Some? || !SameChatContentExceptDeviceHeader(first, second) ==>
                  (side == First <==> NoFresher(second, first)))
            && (first.agentKv.Some? != second.agentKv.Some? && SameChatContentExceptDeviceHeader(first, second) ==>
                  Pick(side, first, second).agentKv.Some?)
  {
  }

  ghost function NumberOf(n: Option<Num>): Option<real> {
    if n.Some? then Some(n.value.value) else None
  }

  /** Chats differ in nothing else exactly if they have the same messages in the same
      order and, numbers by value, the same header but for workspace and recency. */
  lemma SameContentMeans(a: ChatSnapshot, b: ChatSnapshot)
    ensures SameChatContentExceptDeviceHeader(a, b) <==>
              && a.header.composerId == b.header.composerId && a.header.value == b.header.value
              && NoFresher(a, b) && NoFresher(b, a)
              && NumberOf(a.header.createdAt) == NumberOf(b.header.createdAt)
              && NumberOf(a.header.isArchived) == NumberOf(b.header.isArchived)
              && NumberOf(a.header.isSubagent) == NumberOf(b.header.isSubagent)
              && NumberOf(a.header.checkpointAt) == NumberOf(b.header.checkpointAt)
              && |a.bubbles| == |b.bubbles|
              && forall i :: 0 <= i < |a.bubbles| ==>
                   && a.bubbles[i].key == b.bubbles[i].key && a.bubbles[i].valueBase64 == b.bubbles[i].valueBase64
                   && a.bubbles[i].valueType == b.bubbles[i].valueType
  {
  }

  /** The elected side of two different cores shows only messages it can render, and
      either it alone changed its core since the base and kept what the base shows, or
      both or neither changed and the other shows strictly less. */
  ghost predicate Deserves(r: JsonReader, base: Option<ChatSnapshot>, winner: ChatSnapshot, loser: ChatSnapshot) {
    && VisibleKeys(r, winner).Some?
    && (forall k :: k in VisibleKeys(r, winner).value ==>
          k in Index(winner.bubbles) && RowUsable(r, Index(winner.bubbles)[k]))
    && if base.Some? && SameRow(loser.composerData, base.value.composerData)
          && !SameRow(winner.composerData, base.value.composerData)
       then VisibleKeys(r, base.value).Some? && VisibleKeys(r, base.value).value <= VisibleKeys(r, winner).value
       else
         && VisibleKeys(r, loser).Some? && VisibleKeys(r, loser).value < VisibleKeys(r, winner).value
         && (base == None
             || (SameRow(loser.composerData, base.value.composerData)
                 <==> SameRow(winner.composerData, base.value.composerData)))
  }

  lemma DifferentCoreElection(r: JsonReader, base: Option<ChatSnapshot>, first: ChatSnapshot, second: ChatSnapshot)
    requires !SameRow(first.composerData, second.composerData)
    ensures Elects(r, base, first, second) == Some(First) <==> Deserves(r, base, first, second)
    ensures Elects(r, base, first, second) == Some(Second) <==> Deserves(r, base, second, first)
  {
    hide VisibleKeys, RowUsable, SameRow, Index;
  }

  /** The merged snapshot has the elected core and the joined rows. */
  ghost predicate MergeStep(r: JsonReader, base: Option<ChatSnapshot>, first: ChatSnapshot, second: ChatSnapshot,
                            m: ChatSnapshot)
  {
    && Elects(r, base, first, second).Some?
    && var winner := Pick(Elects(r, base, first, second).value, first, second);
    && m.composerId == winner.composerId && m.header == winner.header && m.composerData == winner.composerData
    && Merge(BaseTable(base), Index(first.bubbles), Index(second.bubbles)) == Some(Index(m.bubbles))
  }

  function BaseTable(base: Option<ChatSnapshot>): Table {
    if base.Some? then Index(base.value.bubbles) else map[]
  }

  lemma StepKeeps(r: JsonReader, base: Option<ChatSnapshot>, first: ChatSnapshot, second: ChatSnapshot, m: ChatSnapshot)
    requires MergeStep(r, base, first, second, m)
    requires first.composerId == second.composerId && (base.Some? ==> base.value.composerId == first.composerId)
    ensures m.composerId == first.composerId
    ensures Extends(VisibleKeys(r, m), VisibleKeys(r, first)) && Extends(VisibleKeys(r, m), VisibleKeys(r, second))
    ensures Index(m.bubbles).Keys == BaseTable(base).Keys + Index(first.bubbles).Keys + Index(second.bubbles).Keys
    ensures VisibleKeys(r, m) == VisibleKeys(r, first) || VisibleKeys(r, m) == VisibleKeys(r, second)
  {
    hide VisibleKeys, Elects, Merge, Index;
    ElectionHidesNothing(r, base, first, second);
    SameRowSameKeys(r, m, Pick(Elects(r, base, first, second).value, first, second));
    forall k
      ensures k in Index(m.bubbles) <==> k in BaseTable(base) || k in Index(first.bubbles) || k in Index(second.bubbles)
    {
      MergeAt(BaseTable(base), Index(first.bubbles), Index(second.bubbles), k);
    }
  }

  /** The fold over all candidates: every intermediate result merges one more. */
  ghost predicate IsFold(r: JsonReader, base: Option<ChatSnapshot>, candidates: seq<ChatSnapshot>,
                         results: seq<ChatSnapshot>)
  {
    && |results| == |candidates| && candidates != [] && results[0] == candidates[0]
    && forall i :: 0 < i < |candidates| ==> MergeStep(r, base, results[i - 1], candidates[i], results[i])
  }

  /** Nothing a user can see is lost: every candidate's visible messages come
      first and in order among the result's, and every message row of every
      candidate and of the base is there. */
  lemma {:induction false} FoldKeepsEverything(r: JsonReader, base: Option<ChatSnapshot>, candidates: seq<ChatSnapshot>,
      results: seq<ChatSnapshot>, i: nat)
    requires IsFold(r, base, candidates, results) && i < |candidates|
    requires forall j :: 0 <= j < |candidates| ==> candidates[j].composerId == candidates[0].composerId
    requires base.Some? ==> base.value.composerId == candidates[0].composerId
    ensures var last := results[|results| - 1];
            && last.composerId == candidates[0].composerId
            && Extends(VisibleKeys(r, last), VisibleKeys(r, candidates[i]))
            && Index(candidates[i].bubbles).Keys <= Index(last.bubbles).Keys
            && (|candidates| > 1 ==> BaseTable(base).Keys <= Index(last.bubbles).Keys)
    decreases |candidates|
  {
    hide VisibleKeys, MergeStep, Index;
    var n := |candidates| - 1;
    if n > 0 {
      FoldPrefix(r, base, candidates, results);
      FoldKeepsEverything(r, base, candidates[..n], results[..n], if i < n then i else 0);
      StepKeeps(r, base, results[n - 1], candidates[n], results[n]);
    }
  }

  lemma FoldPrefix(r: JsonReader, base: Option<ChatSnapshot>, candidates: seq<ChatSnapshot>, results: seq<ChatSnapshot>)
    requires IsFold(r, base, candidates, results) && |candidates| > 1
    ensures IsFold(r, base, candidates[..|candidates| - 1], results[..|results| - 1])
    ensures MergeStep(r, base, results[|results| - 2], candidates[|candidates| - 1], results[|results| - 1])
  {
    hide MergeStep;
  }

  /** When all candidates have one core, the result is as fresh as the freshest. */
  lemma {:induction false} FoldIsFreshest(r: JsonReader, base: Option<ChatSnapshot>, candidates: seq<ChatSnapshot>,
                                          results: seq<ChatSnapshot>, i: nat)
    requires IsFold(r, base, candidates, results) && i < |candidates|
    requires forall j :: 0 <= j < |candidates| ==> SameRow(candidates[0].composerData, candidates[j].composerData)
    ensures SameRow(candidates[0].composerData, results[|results| - 1].composerData)
    ensures NoFresher(candidates[i], results[|results| - 1])
    decreases |candidates|
  {
    hide Elects, Index, Merge, SameRow;
    var n := |candidates| - 1;
    if n > 0 {
      FoldPrefix(r, base, candidates, results);
      FoldIsFreshest(r, base, candidates[..n], results[..n], if i < n then i else 0);
      SameRowJoins(candidates[0].composerData, results[n - 1].composerData, candidates[n].composerData);
      SameCoreElection(r, base, results[n - 1], candidates[n]);
    }
  }

  lemma SameRowJoins(a: Row, b: Row, c: Row)
    requires SameRow(a, b) && SameRow(a, c)
    ensures SameRow(b, c)
  {
  }

  /** Every visible message of the snapshot has a row. */
  predicate IsRendered(r: JsonReader, s: ChatSnapshot) {
    VisibleKeys(r, s).Some? && forall k :: k in VisibleKeys(r, s).value ==> k in Index(s.bubbles)
  }

  /** If all candidates show only messages they have, so does the result. */
  lemma {:induction false} FoldRenders(r: JsonReader, base: Option<ChatSnapshot>, candidates: seq<ChatSnapshot>,
                                       results: seq<ChatSnapshot>)
    requires IsFold(r, base, candidates, results)
    requires forall j ::
               0 <= j < |candidates| ==>
                 candidates[j].composerId == candidates[0].composerId && IsRendered(r, candidates[j])
    requires base.Some? ==> base.value.composerId == candidates[0].composerId
    ensures IsRendered(r, results[|results| - 1])
    decreases |candidates|
  {
    hide VisibleKeys, MergeStep, Index;
    var n := |candidates| - 1;
    if n > 0 {
      FoldPrefix(r, base, candidates, results);
      FoldRenders(r, base, candidates[..n], results[..n]);
      FoldKeepsEverything(r, base, candidates[..n], results[..n], 0);
      StepKeeps(r, base, results[n - 1], candidates[n], results[n]);
    }
  }
}
