/** Sums of sizes over finite sets. */
module Sums {

  ghost function Sum<T(!new)>(f: T -> nat, s: set<T>): nat {
    if s == {} then 0
    else
      var x :| x in s;
      f(x) + Sum(f, s - {x})
  }

  lemma {:induction false} SumRemove<T(!new)>(f: T -> nat, s: set<T>, x: T)
    requires x in s
    ensures Sum(f, s) == f(x) + Sum(f, s - {x})
  {
    var y :| y in s && Sum(f, s) == f(y) + Sum(f, s - {y});
    if y != x {
      SumRemove(f, s - {y}, x);
      SumRemove(f, s - {x}, y);
      assert s - {y} - {x} == s - {x} - {y};
    }
  }

  lemma SumInsert<T(!new)>(f: T -> nat, s: set<T>, x: T)
    requires x !in s
    ensures Sum(f, s + {x}) == Sum(f, s) + f(x)
  {
    SumRemove(f, s + {x}, x);
    assert s + {x} - {x} == s;
  }

  lemma {:induction false} SumSubset<T(!new)>(f: T -> nat, a: set<T>, b: set<T>)
    requires a <= b
    ensures Sum(f, a) <= Sum(f, b)
  {
    if a != b {
      var x :| x in b && x !in a;
      SumRemove(f, b, x);
      SumSubset(f, a, b - {x});
    }
  }

  lemma SumEmpty<T(!new)>(f: T -> nat)
    ensures Sum(f, {}) == 0
  {
  }

  lemma {:induction false} SumSame<T(!new)>(f: T -> nat, g: T -> nat, s: set<T>)
    requires forall x :: x in s ==> f(x) == g(x)
    ensures Sum(f, s) == Sum(g, s)
  {
    if s != {} {
      var x :| x in s;
      SumRemove(f, s, x);
      SumRemove(g, s, x);
      SumSame(f, g, s - {x});
    }
  }
}
