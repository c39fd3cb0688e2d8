/** The structural scanner of src/chat/repair.ts on printed JSON: it accepts every
    value of allowed depth and counts exactly its punctuation. */
module RepairScan {
  import opened Basics
  import opened JsonString
  import opened Canonical
  import opened RepairBudget

  // ----- Nesting and punctuation of a value -----

  function Max(a: nat, b: nat): nat {
    if a < b then b else a
  }

  function Depth(v: Json): nat {
    match v
    case Array(items) => 1 + DepthOfItems(items)
    case Object(members) => 1 + DepthOfMembers(members)
    case _ => 0
  }

  function DepthOfItems(items: seq<Json>): nat {
    if items == [] then 0 else Max(DepthOfItems(items[..|items| - 1]), Depth(items[|items| - 1]))
  }

  function DepthOfMembers(members: seq<Member>): nat {
    if members == [] then 0 else Max(DepthOfMembers(members[..|members| - 1]), Depth(members[|members| - 1].value))
  }

  function Separators(n: nat): nat {
    if n > 0 then 1 else 0
  }

  /** Brackets, braces, commas and colons. */
  function Punctuation(v: Json): nat {
    match v
    case Array(items) => 2 + PunctuationOfItems(items)
    case Object(members) => 2 + PunctuationOfMembers(members)
    case _ => 0
  }

  function PunctuationOfItems(items: seq<Json>): nat {
    if items == [] then 0
    else PunctuationOfItems(items[..|items| - 1]) + Separators(|items| - 1) + Punctuation(items[|items| - 1])
  }

  function PunctuationOfMembers(members: seq<Member>): nat {
    if members == [] then 0
    else
      PunctuationOfMembers(members[..|members| - 1]) + Separators(|members| - 1) + 1
      + Punctuation(members[|members| - 1].value)
  }

  predicate Inert(t: Text) {
    forall i :: 0 <= i < |t| ==> t[i] != QUOTE && !Structural(t[i])
  }

  /** Numbers print without quotes and punctuation, and names need no escape. */
  predicate Printable(v: Json) {
    match v
    case Number(text) => Inert(text)
    case Array(items) => forall item :: item in items ==> Printable(item)
    case Object(members) => forall m :: m in members ==> Plain(Ascii(m.name)) && Printable(m.value)
    case _ => true
  }

  // ----- Scanning the pieces -----

  /** What follows a value of the given depth and punctuation. */
  predicate Passes(before: Scan, after: Scan, depth: nat, nested: nat, tokens: nat) {
    if depth + nested <= MAX_NESTING_DEPTH then before == Scan(after.shape, after.tokens + tokens)
    else before.shape == Limit
  }

  lemma Step(c: CodeUnit, a: Text, rest: Text)
    ensures ([c] + a + rest)[0] == c && ([c] + a + rest)[1..] == a + rest
  {
  }

  lemma {:induction false} ScanInert(a: Text, rest: Text, depth: nat)
    requires Inert(a)
    ensures ScanRest(a + rest, depth, false, false) == ScanRest(rest, depth, false, false)
  {
    if a == [] {
      assert a + rest == rest;
    } else {
      assert a == [a[0]] + a[1..];
      Step(a[0], a[1..], rest);
      ScanInert(a[1..], rest, depth);
    }
  }

  predicate Quiet(t: Text) {
    forall i :: 0 <= i < |t| ==> t[i] != QUOTE && t[i] != BACKSLASH
  }

  lemma {:induction false} ScanQuiet(a: Text, rest: Text, depth: nat)
    requires Quiet(a)
    ensures ScanRest(a + rest, depth, true, false) == ScanRest(rest, depth, true, false)
  {
    if a == [] {
      assert a + rest == rest;
    } else {
      assert a == [a[0]] + a[1..];
      Step(a[0], a[1..], rest);
      ScanQuiet(a[1..], rest, depth);
    }
  }

  lemma ScanEscape(a: Text, rest: Text, depth: nat)
    requires |a| >= 2 && a[0] == BACKSLASH && Quiet(a[2..])
    ensures ScanRest(a + rest, depth, true, false) == ScanRest(rest, depth, true, false)
  {
    assert a == [a[0]] + ([a[1]] + a[2..]);
    Step(a[0], [a[1]] + a[2..], rest);
    Step(a[1], a[2..], rest);
    assert ScanRest(a + rest, depth, true, false) == ScanRest([a[1]] + a[2..] + rest, depth, true, true);
    ScanQuiet(a[2..], rest, depth);
  }

  lemma QuotePointForm(t: Text)
    requires t != []
    ensures var q := QuotePoint(t); Quiet(q) || (|q| >= 2 && q[0] == BACKSLASH && Quiet(q[2..]))
  {
    hide High, Low;
    if ShortEscape(t[0]) == None && EscapeOf(t).Some? {
      assert UnicodeEscape(t[0])[2..] ==
             [HexDigit(t[0] / 0x1000), HexDigit(t[0] / 0x100 % 16), HexDigit(t[0] / 16 % 16), HexDigit(t[0] % 16)];
    } else if EscapeOf(t) == None {
      PointQuiet(t);
    }
  }

  lemma PointQuiet(t: Text)
    requires t != [] && EscapeOf(t) == None
    ensures Quiet(t[..PointLength(t)])
  {
  }

  lemma {:induction false} ScanBody(t: Text, rest: Text, depth: nat)
    ensures ScanRest(QuoteBody(t) + rest, depth, true, false) == ScanRest(rest, depth, true, false)
    decreases |t|
  {
    hide ScanRest, QuotePoint, Quiet;
    if t == [] {
      BodyOfNothing();
      assert [] + rest == rest;
    } else {
      var q, u := QuotePoint(t), QuoteBody(t[PointLength(t)..]);
      assert QuoteBody(t) + rest == q + (u + rest);
      QuotePointForm(t);
      if Quiet(q) {
        ScanQuiet(q, u + rest, depth);
      } else {
        ScanEscape(q, u + rest, depth);
      }
      ScanBody(t[PointLength(t)..], rest, depth);
    }
  }

  lemma ScanQuote(t: Text, rest: Text, depth: nat)
    ensures ScanRest(Quote(t) + rest, depth, false, false) == ScanRest(rest, depth, false, false)
  {
    hide QuoteBody;
    assert Quote(t) + rest == [QUOTE] + QuoteBody(t) + ([QUOTE] + rest);
    Step(QUOTE, QuoteBody(t), [QUOTE] + rest);
    ScanBody(t, [QUOTE] + rest, depth);
    Step(QUOTE, [], rest);
    assert [QUOTE] + [] + rest == [QUOTE] + rest && [] + rest == rest;
  }

  lemma ScanMark(c: CodeUnit, rest: Text, depth: nat)
    requires c == 0x2C || c == 0x3A
    ensures var after := ScanRest(rest, depth, false, false);
            ScanRest([c] + rest, depth, false, false) == Scan(after.shape, after.tokens + 1)
  {
    assert ([c] + rest)[1..] == rest;
  }

  lemma ScanOpen(c: CodeUnit, rest: Text, depth: nat)
    requires Opens(c) && depth < MAX_NESTING_DEPTH
    ensures var after := ScanRest(rest, depth + 1, false, false);
            ScanRest([c] + rest, depth, false, false) == Scan(after.shape, after.tokens + 1)
  {
    assert ([c] + rest)[1..] == rest;
  }

  lemma ScanClose(c: CodeUnit, rest: Text, depth: nat)
    requires Closes(c)
    ensures var after := ScanRest(rest, depth, false, false);
            ScanRest([c] + rest, depth + 1, false, false) == Scan(after.shape, after.tokens + 1)
  {
    assert ([c] + rest)[1..] == rest;
  }

  lemma ScanComma(n: nat, rest: Text, depth: nat)
    ensures var after := ScanRest(rest, depth, false, false);
            ScanRest(Comma(n) + rest, depth, false, false) == Scan(after.shape, after.tokens + Separators(n))
  {
    if n > 0 {
      assert Comma(n) == [0x2C];
      ScanMark(0x2C, rest, depth);
    } else {
      assert Comma(n) + rest == rest;
    }
  }

  lemma ScanLabel(name: string, rest: Text, depth: nat)
    requires Plain(Ascii(name))
    ensures var after := ScanRest(rest, depth, false, false);
            ScanRest(Label(name) + rest, depth, false, false) == Scan(after.shape, after.tokens + 1)
  {
    hide ScanRest, Label, Quote;
    LabelIs(name);
    assert Ascii(":") == [0x3A];
    assert Label(name) + rest == Quote(Ascii(name)) + ([0x3A] + rest);
    ScanQuote(Ascii(name), [0x3A] + rest, depth);
    ScanMark(0x3A, rest, depth);
  }

  /** A bracketed value, given what its content does. */
  lemma ScanBracketed(open: CodeUnit, body: Text, close: CodeUnit, rest: Text, depth: nat, nested: nat, tokens: nat)
    requires Opens(open) && Closes(close) && depth <= MAX_NESTING_DEPTH
    requires depth < MAX_NESTING_DEPTH ==>
             Passes(ScanRest(body + ([close] + rest), depth + 1, false, false),
                    ScanRest([close] + rest, depth + 1, false, false), depth + 1, nested, tokens)
    ensures Passes(ScanRest([open] + body + [close] + rest, depth, false, false), ScanRest(rest, depth, false, false),
                   depth, 1 + nested, 2 + tokens)
  {
    assert [open] + body + [close] + rest == [open] + (body + ([close] + rest));
    if depth < MAX_NESTING_DEPTH {
      hide ScanRest;
      ScanOpen(open, body + ([close] + rest), depth);
      ScanClose(close, rest, depth);
    }
  }

  // ----- Scanning a value -----

  lemma {:induction false} ScanValue(v: Json, rest: Text, depth: nat)
    requires Printable(v) && depth <= MAX_NESTING_DEPTH
    ensures Passes(ScanRest(Stringify(v) + rest, depth, false, false), ScanRest(rest, depth, false, false), depth,
                   Depth(v), Punctuation(v))
    decreases v, 1
  {
    hide ScanRest, Quote, Items, Members, DepthOfItems, DepthOfMembers, PunctuationOfItems, PunctuationOfMembers, Inert;
    match v
    case Null =>
      InertNull();
      ScanInert(Ascii("null"), rest, depth);
    case Number(text) => ScanInert(text, rest, depth);
    case String(t) => ScanQuote(t, rest, depth);
    case Array(items) =>
      assert Ascii("[") == [0x5B] && Ascii("]") == [0x5D];
      if depth < MAX_NESTING_DEPTH {
        ScanItems(v, items, [0x5D] + rest, depth + 1);
      }
      ScanBracketed(0x5B, Items(items), 0x5D, rest, depth, DepthOfItems(items), PunctuationOfItems(items));
    case Object(members) =>
      assert Ascii("{") == [0x7B] && Ascii("}") == [0x7D];
      if depth < MAX_NESTING_DEPTH {
        ScanMembers(v, members, [0x7D] + rest, depth + 1);
      }
      ScanBracketed(0x7B, Members(members), 0x7D, rest, depth, DepthOfMembers(members), PunctuationOfMembers(members));
  }

  lemma InertNull()
    ensures Inert(Ascii("null"))
  {
    assert Ascii("null") == [0x6E, 0x75, 0x6C, 0x6C];
  }

  lemma {:induction false} ScanItems(v: Json, items: seq<Json>, rest: Text, depth: nat)
    requires (forall item :: item in items ==> item < v && Printable(item)) && depth <= MAX_NESTING_DEPTH
    ensures Passes(ScanRest(Items(items) + rest, depth, false, false), ScanRest(rest, depth, false, false), depth,
                   DepthOfItems(items), PunctuationOfItems(items))
    decreases v, 0, |items|
  {
    hide ScanRest, Stringify, Depth, Punctuation, Printable, Comma;
    if items == [] {
      assert Items(items) + rest == rest;
    } else {
      var init, last := items[..|items| - 1], items[|items| - 1];
      assert forall item :: item in init ==> item in items;
      assert last in items && last < v;
      assert forall item :: item in init ==> item < v;
      var text := Stringify(last) + rest;
      assert Items(items) + rest == Items(init) + (Comma(|init|) + text);
      ScanItems(v, init, Comma(|init|) + text, depth);
      ScanComma(|init|, text, depth);
      ScanValue(last, rest, depth);
    }
  }

  lemma {:induction false} ScanMembers(v: Json, members: seq<Member>, rest: Text, depth: nat)
    requires (forall m :: m in members ==> m.value < v && Plain(Ascii(m.name)) && Printable(m.value))
    requires depth <= MAX_NESTING_DEPTH
    ensures Passes(ScanRest(Members(members) + rest, depth, false, false), ScanRest(rest, depth, false, false), depth,
                   DepthOfMembers(members), PunctuationOfMembers(members))
    decreases v, 0, |members|
  {
    hide ScanRest, Stringify, Depth, Punctuation, Printable, Comma, Label, Plain;
    if members == [] {
      assert Members(members) + rest == rest;
    } else {
      var init, last := members[..|members| - 1], members[|members| - 1];
      assert members == init + [last];
      var text := Stringify(last.value) + rest;
      assert Members(members) + rest == Members(init) + (Comma(|init|) + (Label(last.name) + text));
      ScanMembers(v, init, Comma(|init|) + (Label(last.name) + text), depth);
      ScanComma(|init|, Label(last.name) + text, depth);
      ScanLabel(last.name, text, depth);
      ScanValue(last.value, rest, depth);
    }
  }

  /** Printed JSON fits exactly when it nests no deeper than allowed, and costs one
      token more than its punctuation. */
  lemma StructureOfPrinted(v: Json)
    requires Printable(v)
    ensures if Depth(v) <= MAX_NESTING_DEPTH then Structure(Stringify(v)) == Scan(Fits, 1 + Punctuation(v))
            else Structure(Stringify(v)).shape == Limit
  {
    hide Stringify, Depth, Punctuation, Printable;
    ScanValue(v, [], 0);
    assert Stringify(v) + [] == Stringify(v);
  }
}
