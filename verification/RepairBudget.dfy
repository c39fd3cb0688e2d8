/** Reading stored rows under one shared JSON budget: the structural scanner and
    the row cache of src/chat/repair.ts. */
module RepairBudget {
  import opened Basics
  import opened Sums
  import opened Portable
  import opened JsonString
  import ChatMerge

  const MAX_STRUCTURAL_TOKENS := 262_144
  const MAX_NESTING_DEPTH := 256

  // ----- The structural scanner -----

  datatype Shape = Fits | Malformed | Limit

  /** What a scan with budget enough comes to, and the tokens it debits. */
  datatype Scan = Scan(shape: Shape, tokens: nat)

  predicate Opens(c: CodeUnit) {
    c == 0x7B || c == 0x5B
  }

  predicate Closes(c: CodeUnit) {
    c == 0x7D || c == 0x5D
  }

  predicate Structural(c: CodeUnit) {
    Opens(c) || Closes(c) || c == 0x2C || c == 0x3A
  }

  /** The scan of the rest of a text, at a depth, inside a string or not. */
  function ScanRest(t: Text, depth: nat, inString: bool, escaped: bool): Scan {
    if t == [] then Scan(if depth == 0 && !inString then Fits else Malformed, 0)
    else if inString then ScanRest(t[1..], depth, escaped || t[0] != QUOTE, !escaped && t[0] == BACKSLASH)
    else if t[0] == QUOTE then ScanRest(t[1..], depth, true, false)
    else if !Structural(t[0]) then ScanRest(t[1..], depth, false, false)
    else if Opens(t[0]) && depth == MAX_NESTING_DEPTH then Scan(Limit, 1)
    else if Closes(t[0]) && depth == 0 then Scan(Malformed, 1)
    else
      var rest := ScanRest(t[1..], if Opens(t[0]) then depth + 1 else if Closes(t[0]) then depth - 1 else depth, false,
                           false);
      Scan(rest.shape, rest.tokens + 1)
  }

  /** One token for the document and one for every structural character. */
  function Structure(t: Text): Scan {
    var rest := ScanRest(t, 0, false, false);
    Scan(rest.shape, rest.tokens + 1)
  }

  // ----- Rows -----

  /** Lossless UTF-8 decoding, and JSON.parse. */
  datatype RowReader = RowReader(text: seq<byte> -> Option<Text>, parse: Text -> ChatMerge.Parsed)

  /** What the cache tells apart: key, effective storage class and content. */
  datatype RowId = RowId(key: Text, valueType: StorageClass, valueBase64: Text)

  function EffectiveType(row: Row): StorageClass {
    if row.valueType.Some? then row.valueType.value else TextClass
  }

  function IdOf(row: Row): RowId {
    RowId(row.key, EffectiveType(row), row.valueBase64)
  }

  datatype Inspection = Usable(value: ChatMerge.Parsed) | Unusable | Unknown

  /** The text a row gives the JSON parser, if it gives any. */
  function TextOf(rd: RowReader, id: RowId): Option<Text> {
    if id.valueType == NullClass then None else rd.text(RowBytes(Row(id.key, id.valueBase64, None)))
  }

  /** What a row is on its own: readable JSON, damaged, or too deep to tell. */
  function Verdict(rd: RowReader, id: RowId): Inspection {
    match TextOf(rd, id)
    case None => Unusable
    case Some(text) =>
      match Structure(text).shape
      case Limit => Unknown
      case Malformed => Unusable
      case Fits => if rd.parse(text).NotJson? then Unusable else Usable(rd.parse(text))
  }

  /** A row is usable exactly if it is not null and its bytes are text that nests
      no deeper than allowed and parses. */
  lemma UsableMeans(rd: RowReader, row: Row, value: ChatMerge.Parsed)
    ensures Verdict(rd, IdOf(row)) == Usable(value) <==>
              && row.valueType != Some(NullClass)
              && exists text :: rd.text(RowBytes(row)) == Some(text) && Structure(text).shape == Fits
                                && rd.parse(text) == value && value != ChatMerge.NotJson
  {
    hide Structure, RowBytes;
    assert RowBytes(Row(row.key, row.valueBase64, None)) == RowBytes(row) by {
      SameBytes(row);
    }
  }

  lemma SameBytes(row: Row)
    ensures RowBytes(Row(row.key, row.valueBase64, None)) == RowBytes(row)
  {
  }

  /** Rows are told apart by key, content and storage class, text where none is given. */
  lemma IdsAgree(a: Row, b: Row)
    ensures IdOf(a) == IdOf(b) <==>
              && a.key == b.key && a.valueBase64 == b.valueBase64
              && (a.valueType == b.valueType || {a.valueType, b.valueType} == {None, Some(TextClass)})
  {
    if {a.valueType, b.valueType} == {None, Some(TextClass)} {
      assert a.valueType in {None, Some(TextClass)} && b.valueType in {None, Some(TextClass)};
    }
  }

  function Cost(rd: RowReader, id: RowId): nat {
    match TextOf(rd, id)
    case None => 0
    case Some(text) => Structure(text).tokens
  }

  ghost function Costs(rd: RowReader): RowId -> nat {
    id => Cost(rd, id)
  }

  /** A fresh budget reads all these rows, in any order. */
  ghost predicate Affordable(rd: RowReader, ids: set<RowId>) {
    Sum(Costs(rd), ids) <= MAX_STRUCTURAL_TOKENS && forall id :: id in ids ==> Verdict(rd, id) != Unknown
  }

  lemma AffordableSubset(rd: RowReader, a: set<RowId>, b: set<RowId>)
    requires a <= b && Affordable(rd, b)
    ensures Affordable(rd, a)
  {
    SumSubset(Costs(rd), a, b);
  }

  // ----- The cache -----

  datatype Entry = Entry(valueBase64: Text, valueType: StorageClass, inspection: Inspection)

  type Cache = map<Text, seq<Entry>>

  function EntryId(key: Text, e: Entry): RowId {
    RowId(key, e.valueType, e.valueBase64)
  }

  predicate Holds(cache: Cache, id: RowId) {
    id.key in cache && exists e :: e in cache[id.key] && EntryId(id.key, e) == id
  }

  function Entries(cache: Cache, key: Text): seq<Entry> {
    if key in cache then cache[key] else []
  }

  /** The cache remembers what it read: the verdict, or the refusal that latched the budget. */
  ghost predicate Remembers(rd: RowReader, cache: Cache, read: set<RowId>, latched: bool) {
    forall key, e :: key in cache && e in cache[key] ==> EntryHolds(rd, read, latched, EntryId(key, e), e.inspection)
  }

  ghost predicate EntryHolds(rd: RowReader, read: set<RowId>, latched: bool, id: RowId, i: Inspection) {
    id in read && ((i == Unknown && latched) || (i != Unknown && i == Verdict(rd, id)))
  }

  ghost predicate CoversAll(cache: Cache, read: set<RowId>) {
    forall id :: id in read ==> Holds(cache, id)
  }

  lemma Remember(rd: RowReader, cache: Cache, read: set<RowId>, before: bool, after: bool, id: RowId, e: Entry)
    requires Remembers(rd, cache, read, before) && CoversAll(cache, read) && (before ==> after)
    requires EntryId(id.key, e) == id
    requires EntryHolds(rd, read + {id}, after, id, e.inspection)
    ensures var grown := cache[id.key := Entries(cache, id.key) + [e]];
            Remembers(rd, grown, read + {id}, after) && CoversAll(grown, read + {id})
  {
    hide Verdict;
    var grown := cache[id.key := Entries(cache, id.key) + [e]];
    assert e in grown[id.key];
    forall other | other in read + {id} ensures Holds(grown, other) {
      if other != id {
        assert Holds(cache, other);
        var f :| f in cache[other.key] && EntryId(other.key, f) == other;
        assert f in grown[other.key];
      }
    }
    forall key, f | key in grown && f in grown[key]
      ensures EntryHolds(rd, read + {id}, after, EntryId(key, f), f.inspection)
    {
      if key != id.key || f != e {
        assert key in cache && f in cache[key];
      }
    }
  }

  class RepairRowJsonWork {
    const rd: RowReader
    var remainingStructuralTokens: nat
    var structuralLimitReached: bool
    var portableByKey: Cache
    /** The distinct rows read so far. */
    ghost var read: set<RowId>

    /** Until the limit is reached, what was spent is exactly what the rows read cost. */
    ghost predicate Valid()
      reads this
    {
      && Remembers(rd, portableByKey, read, structuralLimitReached)
      && CoversAll(portableByKey, read)
      && (!structuralLimitReached ==>
            Affordable(rd, read) && remainingStructuralTokens + Sum(Costs(rd), read) == MAX_STRUCTURAL_TOKENS)
    }

    lemma Afforded()
      requires Valid() && !structuralLimitReached
      ensures Affordable(rd, read)
    {
    }

    constructor (rd: RowReader)
      ensures Valid() && this.rd == rd && !structuralLimitReached && read == {}
    {
      this.rd := rd;
      remainingStructuralTokens, structuralLimitReached, portableByKey, read := MAX_STRUCTURAL_TOKENS, false, map[], {};
    }

    /** consumeRepairJsonStructure: the shape of the text, unless the rest of the
        budget or the depth limit is in the way. */
    method ConsumeStructure(input: Text) returns (shape: Shape)
      modifies this`remainingStructuralTokens, this`structuralLimitReached
      ensures shape == Limit <==> structuralLimitReached
      ensures structuralLimitReached <==>
              old(structuralLimitReached) || Structure(input).shape == Limit
              || Structure(input).tokens > old(remainingStructuralTokens)
      ensures shape != Limit ==>
              shape == Structure(input).shape
              && remainingStructuralTokens == old(remainingStructuralTokens) - Structure(input).tokens
    {
      if structuralLimitReached || remainingStructuralTokens <= 0 {
        structuralLimitReached := true;
        return Limit;
      }
      remainingStructuralTokens := remainingStructuralTokens - 1;
      var depth, inString, escaped := 0, false, false;
      for index := 0 to |input|
        invariant !structuralLimitReached && !old(structuralLimitReached)
        invariant depth <= MAX_NESTING_DEPTH
        invariant remainingStructuralTokens < old(remainingStructuralTokens)
        invariant escaped ==> inString
        invariant var rest := ScanRest(input[index..], depth, inString, escaped);
                  Structure(input) ==
                    Scan(rest.shape, rest.tokens + old(remainingStructuralTokens) - remainingStructuralTokens)
      {
        var code := input[index];
        assert input[index..][0] == code && input[index..][1..] == input[index + 1..];
        if inString {
          if escaped {
            escaped := false;
          } else if code == BACKSLASH {
            escaped := true;
          } else if code == QUOTE {
            inString := false;
          }
        } else if code == QUOTE {
          inString := true;
        } else if Structural(code) {
          if remainingStructuralTokens <= 0 {
            structuralLimitReached := true;
            return Limit;
          }
          remainingStructuralTokens := remainingStructuralTokens - 1;
          if Opens(code) {
            if depth == MAX_NESTING_DEPTH {
              structuralLimitReached := true;
              return Limit;
            }
            depth := depth + 1;
          } else if Closes(code) {
            if depth == 0 {
              return Malformed;
            }
            depth := depth - 1;
          }
        }
      }
      return if depth == 0 && !inString then Fits else Malformed;
    }

    method Find(row: Row) returns (found: Option<Inspection>)
      requires Valid()
      ensures found == None ==> IdOf(row) !in read
      ensures found.Some? ==> EntryHolds(rd, read, structuralLimitReached, IdOf(row), found.value)
    {
      hide Verdict, Affordable;
      var id := IdOf(row);
      if row.key in portableByKey {
        var entries := portableByKey[row.key];
        for i := 0 to |entries|
          invariant forall e :: e in entries[..i] ==> EntryId(row.key, e) != id
        {
          if EntryId(row.key, entries[i]) == id {
            assert entries[i] in portableByKey[row.key];
            return Some(entries[i].inspection);
          }
        }
        assert entries[..|entries|] == entries;
      }
      assert !Holds(portableByKey, id);
      return None;
    }

    /** inspectPortableJsonRow: the row's own verdict, or the refusal of a spent
        budget. A row read before costs nothing. */
    method Inspect(row: Row) returns (i: Inspection)
      requires Valid()
      modifies this
      ensures Valid()
      ensures i != Unknown ==> i == Verdict(rd, IdOf(row))
      ensures old(structuralLimitReached) || i == Unknown ==> structuralLimitReached
      ensures !structuralLimitReached ==> i != Unknown && read == old(read) + {IdOf(row)}
      ensures structuralLimitReached && !old(structuralLimitReached) ==>
                i == Unknown && !Affordable(rd, old(read) + {IdOf(row)})
    {
      hide ScanRest, Structure, Remembers, CoversAll;
      var id := IdOf(row);
      var cached := Find(row);
      if cached.Some? {
        return cached.value;
      }
      var limitWasAlreadyReached := structuralLimitReached;
      i := Fresh(row);
      Sums.SumInsert(Costs(rd), read, id);
      if !limitWasAlreadyReached {
        Remember(rd, portableByKey, read, limitWasAlreadyReached, structuralLimitReached, id,
                 Entry(row.valueBase64, EffectiveType(row), i));
        portableByKey := portableByKey[row.key := Entries(portableByKey, row.key)
                                       + [Entry(row.valueBase64, EffectiveType(row), i)]];
        read := read + {id};
      }
    }

    /** The inspection of a row the cache does not hold. */
    method Fresh(row: Row) returns (i: Inspection)
      modifies this`remainingStructuralTokens, this`structuralLimitReached
      ensures i != Unknown ==> i == Verdict(rd, IdOf(row))
      ensures old(structuralLimitReached) || i == Unknown ==> structuralLimitReached
      ensures !structuralLimitReached ==>
                i != Unknown && remainingStructuralTokens == old(remainingStructuralTokens) - Cost(rd, IdOf(row))
      ensures structuralLimitReached && !old(structuralLimitReached) ==>
              i == Unknown
              && (Verdict(rd, IdOf(row)) == Unknown || Cost(rd, IdOf(row)) > old(remainingStructuralTokens))
    {
      hide ScanRest;
      if EffectiveType(row) == NullClass {
        return Unusable;
      }
      assert RowBytes(row) == RowBytes(Row(row.key, row.valueBase64, None));
      var text := rd.text(RowBytes(row));
      if text == None {
        return Unusable;
      }
      var structure := ConsumeStructure(text.value);
      if structure == Limit {
        return Unknown;
      }
      if structure == Malformed || rd.parse(text.value).NotJson? {
        return Unusable;
      }
      return Usable(rd.parse(text.value));
    }
  }
}
