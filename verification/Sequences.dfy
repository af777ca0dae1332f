/** How often a value occurs in a sequence, and what it means to cut a sequence down. */
module Sequences {

  function Times<T(==)>(s: seq<T>, x: T): nat {
    if s == [] then 0 else Times(s[..|s| - 1], x) + if s[|s| - 1] == x then 1 else 0
  }

  lemma NoTimes<T>(x: T)
    ensures Times([], x) == 0
  {}

  lemma {:induction false} TimesOfBoth<T>(a: seq<T>, b: seq<T>, x: T)
    ensures Times(a + b, x) == Times(a, x) + Times(b, x)
  {
    if b == [] {
      assert a + b == a;
    } else {
      TimesOfBoth(a, b[..|b| - 1], x);
      assert (a + b)[..|a + b| - 1] == a + b[..|b| - 1];
    }
  }

  lemma TimesOfOneMore<T>(s: seq<T>, y: T, x: T)
    ensures Times(s + [y], x) == Times(s, x) + if x == y then 1 else 0
  {
    assert (s + [y])[..|s|] == s;
  }

  /** Taking out one position takes away one occurrence of what is there. */
  lemma TimesWithout<T>(s: seq<T>, i: nat, x: T)
    requires i < |s|
    ensures Times(s[..i] + s[i + 1..], x) == Times(s, x) - if s[i] == x then 1 else 0
  {
    hide Times;
    assert s == s[..i] + [s[i]] + s[i + 1..];
    TimesOfBoth(s[..i] + [s[i]], s[i + 1..], x);
    TimesOfOneMore(s[..i], s[i], x);
    TimesOfBoth(s[..i], s[i + 1..], x);
  }

  lemma TimesOfTail<T>(s: seq<T>, x: T)
    requires s != []
    ensures Times(s[1..], x) == Times(s, x) - if s[0] == x then 1 else 0
  {
    hide Times;
    assert s[..0] + s[1..] == s[1..];
    TimesWithout(s, 0, x);
  }

  /** `part` is what `all` holds at the positions `idx`, which are in order. */
  ghost predicate At<T>(idx: seq<nat>, part: seq<T>, all: seq<T>) {
    && |idx| == |part|
    && (forall i :: 0 <= i < |idx| ==> idx[i] < |all| && all[idx[i]] == part[i])
    && (forall i, j :: 0 <= i < j < |idx| ==> idx[i] < idx[j])
  }

  /** One more element: taken along, or passed over. */
  lemma AtOneMore<T>(idx: seq<nat>, part: seq<T>, all: seq<T>, y: T)
    requires At(idx, part, all)
    ensures At(idx + [|all|], part + [y], all + [y]) && At(idx, part, all + [y])
    ensures forall p: nat :: p in idx + [|all|] <==> p in idx || p == |all|
    ensures |all| !in idx
  {}

  /** The positions from `from` up to `to`. */
  function Upto(from: nat, to: nat): (idx: seq<nat>)
    requires from <= to
    ensures |idx| == to - from && forall i :: 0 <= i < |idx| ==> idx[i] == from + i
    ensures forall p: nat :: p in idx <==> from <= p < to
  {
    if from == to then [] else Upto(from, to - 1) + [to - 1]
  }

  /** What a prefix is cut to, followed by a whole suffix. */
  lemma AtThenRest<T>(idx: seq<nat>, part: seq<T>, all: seq<T>, i: nat, from: nat)
    requires i <= from <= |all| && At(idx, part, all[..i])
    ensures At(idx + Upto(from, |all|), part + all[from..], all)
    ensures forall p: nat :: p in idx + Upto(from, |all|) <==> p in idx || from <= p < |all|
  {}
}
