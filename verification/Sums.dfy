/** Sums of a function over a finite set. */
module Sums {

  ghost function Sum<T(!new)>(s: set<T>, f: T -> nat): nat {
    if s == {} then 0
    else
      var x :| x in s;
      f(x) + Sum(s - {x}, f)
  }

  /** Any element may be taken out first. */
  lemma {:induction false} SumTake<T(!new)>(s: set<T>, f: T -> nat, x: T)
    requires x in s
    ensures Sum(s, f) == f(x) + Sum(s - {x}, f)
    decreases |s|
  {
    var y :| y in s && Sum(s, f) == f(y) + Sum(s - {y}, f);
    if y != x {
      SumTake(s - {y}, f, x);
      SumTake(s - {x}, f, y);
      assert s - {y} - {x} == s - {x} - {y};
    }
  }

  lemma SumInsert<T(!new)>(s: set<T>, f: T -> nat, x: T)
    requires x !in s
    ensures Sum(s + {x}, f) == f(x) + Sum(s, f)
  {
    SumTake(s + {x}, f, x);
    assert s + {x} - {x} == s;
  }

  lemma {:induction false} SumUnion<T(!new)>(a: set<T>, b: set<T>, f: T -> nat)
    requires a !! b
    ensures Sum(a + b, f) == Sum(a, f) + Sum(b, f)
    decreases |b|
  {
    if b == {} {
      assert a + b == a;
    } else {
      var x :| x in b;
      SumUnion(a, b - {x}, f);
      SumTake(b, f, x);
      SumTake(a + b, f, x);
      assert a + b - {x} == a + (b - {x});
    }
  }

  lemma {:induction false} SumAtMost<T(!new)>(s: set<T>, f: T -> nat, g: T -> nat)
    requires forall x :: x in s ==> f(x) <= g(x)
    ensures Sum(s, f) <= Sum(s, g)
    decreases |s|
  {
    if s != {} {
      var x :| x in s;
      SumTake(s, f, x);
      SumTake(s, g, x);
      SumAtMost(s - {x}, f, g);
    }
  }

  lemma SumSame<T(!new)>(s: set<T>, f: T -> nat, g: T -> nat)
    requires forall x :: x in s ==> f(x) == g(x)
    ensures Sum(s, f) == Sum(s, g)
  {
    SumAtMost(s, f, g);
    SumAtMost(s, g, f);
  }

  lemma SumSubset<T(!new)>(a: set<T>, b: set<T>, f: T -> nat)
    requires a <= b
    ensures Sum(a, f) <= Sum(b, f)
  {
    SumUnion(a, b - a, f);
    assert b == a + (b - a);
  }

  lemma {:induction false} SumZero<T(!new)>(s: set<T>, f: T -> nat)
    requires forall x :: x in s ==> f(x) == 0
    ensures Sum(s, f) == 0
    decreases |s|
  {
    if s != {} {
      var x :| x in s;
      SumTake(s, f, x);
      SumZero(s - {x}, f);
    }
  }

  /** Only the part where a function is not zero counts. */
  lemma SumSupport<T(!new)>(a: set<T>, b: set<T>, f: T -> nat)
    requires a <= b && forall x :: x in b - a ==> f(x) == 0
    ensures Sum(a, f) == Sum(b, f)
  {
    SumUnion(a, b - a, f);
    SumZero(b - a, f);
    assert b == a + (b - a);
  }
}
