/** Vocabulary shared by every component: bytes, UTF-16 text and its code-unit
    order, options, and strictly sorted sequences. */
module Basics {

  datatype Option<+T> = None | Some(value: T)

  type byte = n: nat | n < 0x100

  type CodeUnit = n: nat | n < 0x1_0000

  /** A JavaScript string: a sequence of UTF-16 code units. */
  type Text = seq<CodeUnit>

  /** The order of compareCodeUnits: the first differing unit decides, and a
      proper prefix comes first. */
  predicate Less(a: Text, b: Text) {
    if b == [] then false
    else if a == [] then true
    else a[0] < b[0] || (a[0] == b[0] && Less(a[1..], b[1..]))
  }

  /** Up to some position the texts agree, and there the first ends or has the
      smaller unit. */
  ghost predicate LessAt(a: Text, b: Text, i: nat) {
    i <= |a| && i < |b| && a[..i] == b[..i] && (i == |a| || a[i] < b[i])
  }

  lemma {:induction false} LessMeans(a: Text, b: Text)
    ensures Less(a, b) <==> exists i: nat :: LessAt(a, b, i)
  {
    if a == [] && b != [] {
      assert LessAt(a, b, 0);
    }
    if a != [] && b != [] && a[0] < b[0] {
      assert LessAt(a, b, 0);
    }
    if a != [] && b != [] && a[0] == b[0] {
      LessMeans(a[1..], b[1..]);
      if i: nat :| LessAt(a[1..], b[1..], i) {
        assert a[..i + 1] == [a[0]] + a[1..][..i] == b[..i + 1];
        assert LessAt(a, b, i + 1);
      }
      if i: nat :| LessAt(a, b, i) {
        assert a[1..][..i - 1] == a[..i][1..] == b[..i][1..] == b[1..][..i - 1];
        assert LessAt(a[1..], b[1..], i - 1);
      }
    }
    forall i: nat | i > 0 && LessAt(a, b, i) ensures a[0] == b[0] {
      assert a[..i][0] == a[0] && b[..i][0] == b[0];
    }
  }

  lemma {:induction false} LessIrreflexive(a: Text)
    ensures !Less(a, a)
  {
    if a != [] {
      LessIrreflexive(a[1..]);
    }
  }

  lemma {:induction false} LessTransitive(a: Text, b: Text, c: Text)
    requires Less(a, b) && Less(b, c)
    ensures Less(a, c)
  {
    if a != [] && a[0] == b[0] && b[0] == c[0] {
      LessTransitive(a[1..], b[1..], c[1..]);
    }
  }

  lemma {:induction false} LessTotal(a: Text, b: Text)
    ensures a == b || Less(a, b) || Less(b, a)
  {
    if a != [] && b != [] && a[0] == b[0] {
      LessTotal(a[1..], b[1..]);
      if a[1..] == b[1..] {
        assert a == [a[0]] + a[1..] == [b[0]] + b[1..] == b;
      }
    }
  }

  /** Cutting inside the first part of a concatenation. */
  lemma Cut<T>(a: seq<T>, b: seq<T>, i: nat)
    requires i <= |a|
    ensures (a + b)[..i] == a[..i]
    ensures (a + b)[i..] == a[i..] + b
  {
  }

  lemma Resume<T>(s: seq<T>, rest: seq<T>, i: nat)
    requires i <= |s|
    ensures s[..i] + (s[i..] + rest) == s + rest
  {
  }

  predicate StrictlySorted(s: seq<Text>) {
    forall i, j :: 0 <= i < j < |s| ==> Less(s[i], s[j])
  }

  function Elements<T>(s: seq<T>): set<T> {
    set x | x in s
  }

  lemma SubsetSize<T>(a: set<T>, b: set<T>)
    requires a <= b
    ensures |a| <= |b|
  {
    assert b == a + (b - a);
  }

  lemma {:induction false} ElementsSize<T>(s: seq<T>)
    ensures |Elements(s)| <= |s|
  {
    if s != [] {
      assert s == s[..|s| - 1] + [s[|s| - 1]];
      assert Elements(s) == Elements(s[..|s| - 1]) + {s[|s| - 1]};
      ElementsSize(s[..|s| - 1]);
    }
  }

  lemma NewLast<T>(s: seq<T>)
    requires s != [] && forall i, j :: 0 <= i < j < |s| ==> s[i] != s[j]
    ensures var init, last := s[..|s| - 1], s[|s| - 1];
            last !in Elements(init) && Elements(s) == Elements(init) + {last}
  {
    assert s == s[..|s| - 1] + [s[|s| - 1]];
  }

  function HexDigit(n: nat): CodeUnit
    requires n < 16
  {
    if n < 10 then 0x30 + n else 0x61 + n - 10
  }

  /** The first of a non-empty set of texts. */
  predicate IsFirst(m: Text, s: set<Text>) {
    m in s && forall x :: x in s && x != m ==> Less(m, x)
  }

  lemma {:induction false} FirstExists(s: set<Text>)
    requires s != {}
    ensures exists m :: IsFirst(m, s)
  {
    var x :| x in s;
    if s == {x} {
      assert IsFirst(x, s);
    } else {
      FirstExists(s - {x});
      var m :| IsFirst(m, s - {x});
      LessTotal(x, m);
      if Less(x, m) {
        forall y | y in s && y != x ensures Less(x, y) {
          if y != m {
            LessTransitive(x, m, y);
          }
        }
        assert IsFirst(x, s);
      } else {
        assert IsFirst(m, s);
      }
    }
  }

  /** Array.prototype.sort(compareCodeUnits) over the distinct elements of a
      Set or the keys of a Map. */
  method SortTexts(s: set<Text>) returns (r: seq<Text>)
    ensures StrictlySorted(r)
    ensures Elements(r) == s
    ensures |r| == |s|
  {
    r := [];
    var rest := s;
    while rest != {}
      invariant rest <= s && Elements(r) == s - rest
      invariant |r| + |rest| == |s|
      invariant StrictlySorted(r)
      invariant AllBefore(r, rest)
      decreases rest
    {
      FirstExists(rest);
      var m :| IsFirst(m, rest);
      AppendSorted(r, m, rest);
      r, rest := r + [m], rest - {m};
    }
  }

  ghost predicate AllBefore(r: seq<Text>, rest: set<Text>) {
    forall i, y :: 0 <= i < |r| && y in rest ==> Less(r[i], y)
  }

  lemma AppendSorted(r: seq<Text>, m: Text, rest: set<Text>)
    requires StrictlySorted(r) && AllBefore(r, rest) && IsFirst(m, rest)
    ensures StrictlySorted(r + [m]) && AllBefore(r + [m], rest - {m})
    ensures Elements(r + [m]) == Elements(r) + {m}
  {
    assert (r + [m])[|r|] == m;
    forall x | x in Elements(r) ensures x in Elements(r + [m]) {
      var i :| 0 <= i < |r| && r[i] == x;
      assert (r + [m])[i] == x;
    }
  }

  /** A strictly sorted sequence is determined by its elements. */
  lemma {:induction false} SortedUnique(a: seq<Text>, b: seq<Text>)
    requires StrictlySorted(a) && StrictlySorted(b)
    requires Elements(a) == Elements(b)
    ensures a == b
  {
    assert a != [] ==> a[0] in Elements(a);
    assert b != [] ==> b[0] in Elements(b);
    if a != [] {
      SortedHead(a);
      SortedHead(b);
      LessIrreflexive(a[0]);
      if a[0] != b[0] {
        assert Less(a[0], b[0]) && Less(b[0], a[0]);
        LessTransitive(a[0], b[0], a[0]);
        assert false;
      }
      TailElements(a);
      TailElements(b);
      SortedUnique(a[1..], b[1..]);
      assert a == [a[0]] + a[1..];
      assert b == [b[0]] + b[1..];
    }
  }

  lemma SortedHead(a: seq<Text>)
    requires StrictlySorted(a) && a != []
    ensures forall x :: x in Elements(a) && x != a[0] ==> Less(a[0], x)
  {
    forall x | x in Elements(a) && x != a[0] ensures Less(a[0], x) {
      var i :| 0 <= i < |a| && a[i] == x;
    }
  }

  lemma TailElements(a: seq<Text>)
    requires StrictlySorted(a) && a != []
    ensures Elements(a[1..]) == Elements(a) - {a[0]}
  {
    LessIrreflexive(a[0]);
    forall x | x in Elements(a) - {a[0]} ensures x in Elements(a[1..]) {
      var i :| 0 <= i < |a| && a[i] == x;
      assert a[1..][i - 1] == x;
    }
  }

  lemma SortedNoDuplicates(s: seq<Text>, i: nat, j: nat)
    requires StrictlySorted(s) && i < |s| && j < |s| && s[i] == s[j]
    ensures i == j
  {
    LessIrreflexive(s[i]);
  }
}
