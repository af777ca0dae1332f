/** Stable insertion sort under any ordering, for the places where the source sorts rows. */
module Sorting {

  /** Strict, and of two elements in order any third is in order with one of them. */
  ghost predicate Ordering<T(!new)>(before: (T, T) -> bool) {
    && (forall a, b :: before(a, b) ==> !before(b, a))
    && (forall a, b, c :: before(a, c) ==> before(a, b) || before(b, c))
  }

  predicate SameRank<T>(before: (T, T) -> bool, a: T, b: T) { !before(a, b) && !before(b, a) }

  /** Puts an element after everything that is not behind it. */
  function Insert<T>(before: (T, T) -> bool, c: T, cs: seq<T>): seq<T> {
    if cs == [] || !before(c, cs[|cs| - 1]) then cs + [c]
    else Insert(before, c, cs[..|cs| - 1]) + [cs[|cs| - 1]]
  }

  function StableSort<T>(before: (T, T) -> bool, cs: seq<T>): seq<T> {
    if cs == [] then [] else Insert(before, cs[|cs| - 1], StableSort(before, cs[..|cs| - 1]))
  }

  predicate InOrder<T>(before: (T, T) -> bool, cs: seq<T>) {
    forall i, j :: 0 <= i < j < |cs| ==> !before(cs[j], cs[i])
  }

  /** The elements ranking with `c`, in the order they are listed. */
  function RankedWith<T>(before: (T, T) -> bool, c: T, cs: seq<T>): seq<T> {
    if cs == [] then []
    else
      var init := RankedWith(before, c, cs[..|cs| - 1]);
      if SameRank(before, c, cs[|cs| - 1]) then init + [cs[|cs| - 1]] else init
  }

  lemma {:induction false} InsertPermutes<T>(before: (T, T) -> bool, c: T, cs: seq<T>)
    ensures multiset(Insert(before, c, cs)) == multiset(cs) + multiset{c}
    decreases |cs|
  {
    if cs != [] && before(c, cs[|cs| - 1]) {
      InsertPermutes(before, c, cs[..|cs| - 1]);
      assert cs == cs[..|cs| - 1] + [cs[|cs| - 1]];
    }
  }

  lemma {:induction false} InsertInOrder<T(!new)>(before: (T, T) -> bool, c: T, cs: seq<T>)
    requires Ordering(before) && InOrder(before, cs)
    ensures InOrder(before, Insert(before, c, cs))
    decreases |cs|
  {
    if cs != [] {
      var init, last := cs[..|cs| - 1], cs[|cs| - 1];
      if before(c, last) {
        InsertInOrder(before, c, init);
        InsertPermutes(before, c, init);
        var rest := Insert(before, c, init);
        forall i | 0 <= i < |rest| ensures !before(last, rest[i]) {
          assert rest[i] in multiset(rest);
          assert rest[i] in init || rest[i] == c;
        }
      } else {
        forall i | 0 <= i < |cs| ensures !before(c, cs[i]) {
          var x := cs[i];
          assert !before(c, last) && (i == |cs| - 1 || !before(last, x));
        }
      }
    }
  }

  lemma {:induction false} InsertStable<T(!new)>(before: (T, T) -> bool, c: T, cs: seq<T>, k: T)
    requires Ordering(before)
    ensures RankedWith(before, k, Insert(before, c, cs))
         == RankedWith(before, k, cs) + if SameRank(before, k, c) then [c] else []
    decreases |cs|
  {
    if cs == [] || !before(c, cs[|cs| - 1]) {
      assert (cs + [c])[..|cs|] == cs;
    } else {
      var init, last := cs[..|cs| - 1], cs[|cs| - 1];
      InsertStable(before, c, init, k);
      var rest := Insert(before, c, init);
      assert (rest + [last])[..|rest|] == rest;
      assert before(c, k) || before(k, last);
    }
  }

  /** A stable sort: same elements, in order, and equally ranked ones as they were listed. */
  lemma {:induction false} StableSortSpec<T(!new)>(before: (T, T) -> bool, cs: seq<T>, k: T)
    requires Ordering(before)
    ensures InOrder(before, StableSort(before, cs))
    ensures multiset(StableSort(before, cs)) == multiset(cs)
    ensures RankedWith(before, k, StableSort(before, cs)) == RankedWith(before, k, cs)
  {
    if cs != [] {
      var init, last := cs[..|cs| - 1], cs[|cs| - 1];
      assert cs == init + [last];
      StableSortSpec(before, init, k);
      InsertInOrder(before, last, StableSort(before, init));
      InsertPermutes(before, last, StableSort(before, init));
      InsertStable(before, last, StableSort(before, init), k);
    }
  }
}
