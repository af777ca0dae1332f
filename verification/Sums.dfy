/** Sums of an integer-valued function over a finite set, independent of the order in which
    the elements are visited. Go's map iteration order is unspecified, so every total the
    program accumulates over a map is stated with `Sum`. */
module Sums {

  ghost function Sum<T>(s: set<T>, f: T -> int): int {
    if s == {} then 0
    else
      var x :| x in s;
      f(x) + Sum(s - {x}, f)
  }

  /** Any element can be taken out first. */
  lemma {:induction false} SumTakeOut<T>(s: set<T>, f: T -> int, x: T)
    requires x in s
    ensures Sum(s, f) == f(x) + Sum(s - {x}, f)
    decreases |s|
  {
    var y :| y in s && Sum(s, f) == f(y) + Sum(s - {y}, f);
    if y != x {
      SumTakeOut(s - {y}, f, x);
      SumTakeOut(s - {x}, f, y);
      assert s - {y} - {x} == s - {x} - {y};
    }
  }

  lemma SumAdd<T>(s: set<T>, f: T -> int, x: T)
    requires x !in s
    ensures Sum(s + {x}, f) == Sum(s, f) + f(x)
  {
    SumTakeOut(s + {x}, f, x);
    assert s + {x} - {x} == s;
  }

  lemma {:induction false} SumSame<T>(s: set<T>, f: T -> int, g: T -> int)
    requires forall x :: x in s ==> f(x) == g(x)
    ensures Sum(s, f) == Sum(s, g)
    decreases |s|
  {
    if s != {} {
      var x :| x in s;
      SumTakeOut(s, f, x);
      SumTakeOut(s, g, x);
      SumSame(s - {x}, f, g);
    }
  }

  /** Changing the function at one place changes the sum by the difference there. */
  lemma SumChange<T>(s: set<T>, f: T -> int, g: T -> int, x: T)
    requires forall y :: y in s && y != x ==> f(y) == g(y)
    ensures Sum(s, g) == Sum(s, f) + if x in s then g(x) - f(x) else 0
  {
    if x in s {
      SumTakeOut(s, f, x);
      SumTakeOut(s, g, x);
      SumSame(s - {x}, f, g);
    } else {
      SumSame(s, f, g);
    }
  }

  lemma {:induction false} SumAtMost<T>(s: set<T>, f: T -> int, g: T -> int)
    requires forall x :: x in s ==> f(x) <= g(x)
    ensures Sum(s, f) <= Sum(s, g)
    decreases |s|
  {
    if s != {} {
      var x :| x in s;
      SumTakeOut(s, f, x);
      SumTakeOut(s, g, x);
      SumAtMost(s - {x}, f, g);
    }
  }

  lemma {:induction false} SumNotNegative<T>(s: set<T>, f: T -> int)
    requires forall x :: x in s ==> 0 <= f(x)
    ensures 0 <= Sum(s, f)
    decreases |s|
  {
    if s != {} {
      var x :| x in s;
      SumTakeOut(s, f, x);
      SumNotNegative(s - {x}, f);
    }
  }

  lemma {:induction false} SumOfSums<T>(s: set<T>, f: T -> int, g: T -> int, h: T -> int)
    requires forall x :: x in s ==> h(x) == f(x) + g(x)
    ensures Sum(s, h) == Sum(s, f) + Sum(s, g)
    decreases |s|
  {
    if s != {} {
      var x :| x in s;
      SumTakeOut(s, f, x);
      SumTakeOut(s, g, x);
      SumTakeOut(s, h, x);
      SumOfSums(s - {x}, f, g, h);
    }
  }

  /** Elements on which the function is zero do not matter. */
  lemma {:induction false} SumSupport<T>(s: set<T>, t: set<T>, f: T -> int)
    requires s <= t
    requires forall x :: x in t - s ==> f(x) == 0
    ensures Sum(s, f) == Sum(t, f)
    decreases |t - s|
  {
    if t - s == {} {
      assert s == t;
    } else {
      var x :| x in t - s;
      SumAdd(s, f, x);
      assert t - (s + {x}) < t - s;
      SumSupport(s + {x}, t, f);
    }
  }
}
