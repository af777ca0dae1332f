/** Reservations parked by evictions, internal/pool/capacity.go: a profile's list of claims
    that concurrent clone workers drain, pick from and put back. */
module Parking {
  import opened Common
  import opened Sequences

  /** A parked reservation handle with the node it is for. */
  datatype Parked = Parked(node: string, handle: nat, expires: nat)

  /** What the selector says about a claim's node. */
  datatype Verdict = Eligible | NotEligible | Unknown

  predicate Expired(p: Parked, now: nat) { now > p.expires }

  function Live(ps: seq<Parked>, now: nat): seq<Parked> {
    if ps == [] then []
    else Live(ps[..|ps| - 1], now) + if Expired(ps[|ps| - 1], now) then [] else [ps[|ps| - 1]]
  }

  function Dead(ps: seq<Parked>, now: nat): seq<Parked> {
    if ps == [] then []
    else Dead(ps[..|ps| - 1], now) + if Expired(ps[|ps| - 1], now) then [ps[|ps| - 1]] else []
  }

  /** The position of the first eligible claim, or the end. */
  function FirstEligible(vs: seq<Verdict>): (i: nat)
    ensures i <= |vs| && (i < |vs| ==> vs[i].Eligible?)
    ensures forall j :: 0 <= j < i ==> !vs[j].Eligible?
  {
    if vs == [] || vs[0].Eligible? then 0 else 1 + FirstEligible(vs[1..])
  }

  function With(v: Verdict, ps: seq<Parked>, vs: seq<Verdict>): seq<Parked>
    requires |ps| == |vs|
  {
    if ps == [] then []
    else With(v, ps[..|ps| - 1], vs[..|ps| - 1]) + if vs[|ps| - 1] == v then [ps[|ps| - 1]] else []
  }

  /** The first eligible claim is taken, definite refusals before it are released, and all
      others go back in their order. */
  function Chosen(ps: seq<Parked>, vs: seq<Verdict>): Option<Parked>
    requires |ps| == |vs|
  {
    var i := FirstEligible(vs);
    if i < |ps| then Some(ps[i]) else None
  }

  function Keep(ps: seq<Parked>, vs: seq<Verdict>): seq<Parked>
    requires |ps| == |vs|
  {
    var i := FirstEligible(vs);
    With(Unknown, ps[..i], vs[..i]) + if i < |ps| then ps[i + 1..] else []
  }

  function Dropped(ps: seq<Parked>, vs: seq<Verdict>): seq<Parked>
    requires |ps| == |vs|
  {
    var i := FirstEligible(vs);
    With(NotEligible, ps[..i], vs[..i])
  }

  function AsSeq(o: Option<Parked>): seq<Parked> { if o.Some? then [o.value] else [] }

  lemma {:induction false} DrainSplits(ps: seq<Parked>, now: nat, x: Parked)
    ensures Times(Live(ps, now), x) + Times(Dead(ps, now), x) == Times(ps, x)
  {
    hide Times, Live, Dead;
    if ps == [] {
      DrainNone(ps, now, x);
    } else {
      var n := |ps| - 1;
      DrainOneMore(ps, now, x);
      DrainSplits(ps[..n], now, x);
      assert ps == ps[..n] + [ps[n]];
      TimesOfOneMore(ps[..n], ps[n], x);
    }
  }

  lemma DrainNone(ps: seq<Parked>, now: nat, x: Parked)
    requires ps == []
    ensures Times(Live(ps, now), x) == Times(Dead(ps, now), x) == Times(ps, x) == 0
  {}

  lemma DrainOneMore(ps: seq<Parked>, now: nat, x: Parked)
    requires ps != []
    ensures
      var n := |ps| - 1;
      && Times(Live(ps, now), x) == Times(Live(ps[..n], now), x) + (if !Expired(ps[n], now) && ps[n] == x then 1 else 0)
      && Times(Dead(ps, now), x) == Times(Dead(ps[..n], now), x) + (if Expired(ps[n], now) && ps[n] == x then 1 else 0)
  {
    hide Times;
    var n := |ps| - 1;
    var live, dead := Live(ps[..n], now), Dead(ps[..n], now);
    TimesOfOneMore(live, ps[n], x);
    TimesOfOneMore(dead, ps[n], x);
    assert live + [] == live && dead + [] == dead;
  }

  lemma {:induction false} VerdictsSplit(ps: seq<Parked>, vs: seq<Verdict>, x: Parked)
    requires |ps| == |vs| && forall j :: 0 <= j < |vs| ==> !vs[j].Eligible?
    ensures Times(With(Unknown, ps, vs), x) + Times(With(NotEligible, ps, vs), x) == Times(ps, x)
  {
    hide Times, With;
    if ps == [] {
      WithNone(Unknown, ps, vs, x);
      WithNone(NotEligible, ps, vs, x);
    } else {
      var n := |ps| - 1;
      WithOneMore(Unknown, ps, vs, x);
      WithOneMore(NotEligible, ps, vs, x);
      VerdictsSplit(ps[..n], vs[..n], x);
      assert ps == ps[..n] + [ps[n]];
      TimesOfOneMore(ps[..n], ps[n], x);
    }
  }

  lemma WithNone(v: Verdict, ps: seq<Parked>, vs: seq<Verdict>, x: Parked)
    requires |ps| == |vs| == 0
    ensures Times(With(v, ps, vs), x) == 0 == Times(ps, x)
  {}

  lemma WithOneMore(v: Verdict, ps: seq<Parked>, vs: seq<Verdict>, x: Parked)
    requires |ps| == |vs| && ps != []
    ensures
      var n := |ps| - 1;
      Times(With(v, ps, vs), x) == Times(With(v, ps[..n], vs[..n]), x) + if vs[n] == v && ps[n] == x then 1 else 0
  {
    hide Times;
    var n := |ps| - 1;
    var init := With(v, ps[..n], vs[..n]);
    TimesOfOneMore(init, ps[n], x);
    assert init + [] == init;
  }

  lemma ClaimSplits(ps: seq<Parked>, vs: seq<Verdict>, x: Parked)
    requires |ps| == |vs|
    ensures Times(Keep(ps, vs), x) + Times(Dropped(ps, vs), x) + Times(AsSeq(Chosen(ps, vs)), x) == Times(ps, x)
  {
    hide With, Times;
    var i := FirstEligible(vs);
    var unknown := With(Unknown, ps[..i], vs[..i]);
    VerdictsSplit(ps[..i], vs[..i], x);
    if i < |ps| {
      assert ps == ps[..i] + [ps[i]] + ps[i + 1..];
      TimesOfBoth(ps[..i] + [ps[i]], ps[i + 1..], x);
      TimesOfBoth(ps[..i], [ps[i]], x);
      TimesOfBoth(unknown, ps[i + 1..], x);
    } else {
      assert ps[..i] == ps && unknown + [] == unknown;
      NoTimes(x);
    }
  }

  // ------------------------------------------------------------------
  // Which claims these are, by position in the list
  // ------------------------------------------------------------------

  /** The positions of the claims whose deadline has not passed, or of those whose has. */
  ghost predicate OnTime(idx: seq<nat>, ps: seq<Parked>, now: nat, live: bool) {
    forall p: nat :: p < |ps| ==> (p in idx <==> (now <= ps[p].expires <==> live))
  }

  /** Draining hands out, in order, the claims whose deadline has not passed, and releases the
      others. */
  lemma DrainedExactly(ps: seq<Parked>, now: nat) returns (live: seq<nat>, dead: seq<nat>)
    ensures At(live, Live(ps, now), ps) && OnTime(live, ps, now, true)
    ensures At(dead, Dead(ps, now), ps) && OnTime(dead, ps, now, false)
  {
    live := DrainedAt(ps, now, true);
    dead := DrainedAt(ps, now, false);
  }

  /** The claims on time, or the others. */
  function Drained(ps: seq<Parked>, now: nat, live: bool): seq<Parked> { if live then Live(ps, now) else Dead(ps, now) }

  lemma DrainedOneMore(ps: seq<Parked>, now: nat, live: bool)
    requires ps != []
    ensures
      var init, last := ps[..|ps| - 1], ps[|ps| - 1];
      && ps == init + [last]
      && Drained(ps, now, live)
         == if now <= last.expires <==> live then Drained(init, now, live) + [last] else Drained(init, now, live)
  {}

  lemma DrainedNone(ps: seq<Parked>, now: nat, live: bool)
    requires ps == []
    ensures At([], Drained(ps, now, live), ps) && OnTime([], ps, now, live)
  {}

  lemma {:induction false} DrainedAt(ps: seq<Parked>, now: nat, live: bool) returns (idx: seq<nat>)
    ensures At(idx, Drained(ps, now, live), ps) && OnTime(idx, ps, now, live)
  {
    hide At, OnTime, Drained;
    if ps == [] {
      DrainedNone(ps, now, live);
      idx := [];
    } else {
      var init, last := ps[..|ps| - 1], ps[|ps| - 1];
      var before := DrainedAt(init, now, live);
      DrainedOneMore(ps, now, live);
      AtOneMore(before, Drained(init, now, live), init, last);
      OnTimeOneMore(before, init, last, now, live);
      idx := if now <= last.expires <==> live then before + [|init|] else before;
    }
  }

  lemma OnTimeOneMore(idx: seq<nat>, init: seq<Parked>, last: Parked, now: nat, live: bool)
    requires OnTime(idx, init, now, live) && |init| !in idx
    ensures (now <= last.expires <==> live) ==> OnTime(idx + [|init|], init + [last], now, live)
    ensures !(now <= last.expires <==> live) ==> OnTime(idx, init + [last], now, live)
  {
    var ps := init + [last];
    forall p: nat | p < |init| ensures p in idx + [|init|] <==> (now <= ps[p].expires <==> live) {
      assert ps[p] == init[p];
    }
  }

  ghost predicate Judged(idx: seq<nat>, vs: seq<Verdict>, v: Verdict) {
    forall p: nat :: p < |vs| ==> (p in idx <==> vs[p] == v)
  }

  lemma {:induction false} WithExactly(v: Verdict, ps: seq<Parked>, vs: seq<Verdict>) returns (idx: seq<nat>)
    requires |ps| == |vs|
    ensures At(idx, With(v, ps, vs), ps) && Judged(idx, vs, v)
  {
    idx := [];
    if ps != [] {
      var n := |ps| - 1;
      var init := With(v, ps[..n], vs[..n]);
      var before := WithExactly(v, ps[..n], vs[..n]);
      assert ps == ps[..n] + [ps[n]] && init + [] == init;
      AtOneMore(before, init, ps[..n], ps[n]);
      assert forall p: nat :: p < n ==> vs[..n][p] == vs[p];
      idx := if vs[n] == v then before + [n] else before;
    }
  }

  /** Picking, by position: the first eligible claim is taken; of those before it, the definite
      refusals are released and the unknown ones go back; all behind it go back. */
  lemma PickedExactly(ps: seq<Parked>, vs: seq<Verdict>) returns (first: nat, keep: seq<nat>, dropped: seq<nat>)
    requires |ps| == |vs|
    ensures first <= |ps| && (forall p :: 0 <= p < first ==> vs[p] != Eligible) &&
      (first < |ps| ==> vs[first] == Eligible)
    ensures Chosen(ps, vs) == if first < |ps| then Some(ps[first]) else None
    ensures At(keep, Keep(ps, vs), ps) && At(dropped, Dropped(ps, vs), ps)
    ensures forall p: nat :: p < |ps| ==> (p in keep <==> p > first || (p < first && vs[p] == Unknown))
    ensures forall p: nat :: p < |ps| ==> (p in dropped <==> p < first && vs[p] == NotEligible)
  {
    hide With;
    first := FirstEligible(vs);
    keep := WithExactly(Unknown, ps[..first], vs[..first]);
    dropped := WithExactly(NotEligible, ps[..first], vs[..first]);
    assert forall p: nat :: p < first ==> vs[..first][p] == vs[p];
    var unknown := With(Unknown, ps[..first], vs[..first]);
    if first < |ps| {
      AtThenRest(keep, unknown, ps, first, first + 1);
      keep := keep + Upto(first + 1, |ps|);
    } else {
      assert ps[..first] == ps && unknown + [] == unknown;
    }
  }

  /** One profile's parked claims; every method is one critical section. Handles that a
      method releases are returned as `released`. */
  class ProfileState {
    var evicted: seq<Parked>

    constructor ()
      ensures evicted == []
    {
      evicted := [];
    }

    method DrainEvicted(now: nat) returns (out: seq<Parked>, released: seq<Parked>)
      modifies this
      ensures evicted == [] && out == Live(old(evicted), now) && released == Dead(old(evicted), now)
    {
      out, released := [], [];
      for i := 0 to |evicted|
        invariant evicted == old(evicted)
        invariant out == Live(evicted[..i], now) && released == Dead(evicted[..i], now)
      {
        assert evicted[..i + 1][..i] == evicted[..i];
        if Expired(evicted[i], now) {
          released := released + [evicted[i]];
        } else {
          out := out + [evicted[i]];
        }
      }
      assert evicted[..|evicted|] == evicted;
      evicted := [];
    }

    method ParkAll(rs: seq<Parked>)
      modifies this
      ensures evicted == old(evicted) + rs
    {
      if |rs| == 0 {
        return;
      }
      evicted := evicted + rs;
    }

    method ParkEvicted(node: string, handle: nat, now: nat, ttl: nat)
      modifies this
      ensures evicted == old(evicted) + [Parked(node, handle, now + ttl)]
    {
      evicted := evicted + [Parked(node, handle, now + ttl)];
    }

    method ReleaseParked() returns (released: seq<Parked>)
      modifies this
      ensures evicted == [] && released == old(evicted)
    {
      released := evicted;
      evicted := [];
    }
  }

  /** The loop of claimParked between draining and putting back. Verdicts are only asked
      for until one claim is taken. */
  method PickParked(parked: seq<Parked>, verdicts: seq<Verdict>)
    returns (chosen: Option<Parked>, keep: seq<Parked>, released: seq<Parked>)
    requires |verdicts| == |parked|
    ensures chosen == Chosen(parked, verdicts)
    ensures keep == Keep(parked, verdicts)
    ensures released == Dropped(parked, verdicts)
  {
    chosen, keep, released := None, [], [];
    var first := FirstEligible(verdicts);
    for i := 0 to |parked|
      invariant chosen == if first < i then Some(parked[first]) else None
      invariant i <= first ==> keep == With(Unknown, parked[..i], verdicts[..i])
      invariant i <= first ==> released == With(NotEligible, parked[..i], verdicts[..i])
      invariant first < i ==> keep == With(Unknown, parked[..first], verdicts[..first]) + parked[first + 1..i]
      invariant first < i ==> released == With(NotEligible, parked[..first], verdicts[..first])
    {
      assert parked[..i + 1][..i] == parked[..i] && verdicts[..i + 1][..i] == verdicts[..i];
      if chosen.Some? {
        keep := keep + [parked[i]];
      } else {
        match verdicts[i]
        case Eligible => chosen := Some(parked[i]);
        case NotEligible => released := released + [parked[i]];
        case Unknown => keep := keep + [parked[i]];
      }
    }
    if first < |parked| {
      assert parked[first + 1..|parked|] == parked[first + 1..];
    }
  }

  // ------------------------------------------------------------------
  // Concurrent workers
  // ------------------------------------------------------------------

  /** Where the claims are: each profile's list, each worker's hands with the profile it
      works for, running clones, and released. `ever` are all claims parked so far, `profileOf`
      tells by handle for which profile, and `consumed` those a clone was ever started from. */
  datatype State = State(lists: seq<seq<Parked>>, hands: seq<seq<Parked>>, worksFor: seq<nat>,
                         clones: seq<Parked>, released: seq<Parked>, ever: seq<Parked>, profileOf: map<nat, nat>,
                         consumed: seq<Parked>)

  datatype Step =
    | Park(profile: nat, claim: Parked)
    | Drain(worker: nat, profile: nat, now: nat)
    | Pick(worker: nat, verdicts: seq<Verdict>)
    | PutBack(worker: nat)
    | CloneFailed(clone: nat)
    | ReleaseAll(profile: nat)

  predicate Enabled(st: State, e: Step) {
    && |st.worksFor| == |st.hands|
    && match e
       // the accountant never hands out the same handle twice
       case Park(profile, claim) =>
         profile < |st.lists| && forall i :: 0 <= i < |st.ever| ==> st.ever[i].handle != claim.handle
       case Drain(worker, profile, _) => worker < |st.hands| && profile < |st.lists| && st.hands[worker] == []
       case Pick(worker, verdicts) => worker < |st.hands| && |verdicts| == |st.hands[worker]|
       case PutBack(worker) => worker < |st.hands| && st.worksFor[worker] < |st.lists|
       case CloneFailed(clone) => clone < |st.clones|
       case ReleaseAll(profile) => profile < |st.lists|
  }

  function Apply(st: State, e: Step): State
    requires Enabled(st, e)
  {
    match e
    case Park(profile, claim) =>
      st.(lists := st.lists[profile := st.lists[profile] + [claim]], ever := st.ever + [claim],
          profileOf := st.profileOf[claim.handle := profile])
    case Drain(worker, profile, now) =>
      st.(lists := st.lists[profile := []], hands := st.hands[worker := Live(st.lists[profile], now)],
          worksFor := st.worksFor[worker := profile],
          released := st.released + Dead(st.lists[profile], now))
    case Pick(worker, verdicts) =>
      var ps := st.hands[worker];
      st.(hands := st.hands[worker := Keep(ps, verdicts)],
          clones := st.clones + AsSeq(Chosen(ps, verdicts)), consumed := st.consumed + AsSeq(Chosen(ps, verdicts)),
          released := st.released + Dropped(ps, verdicts))
    case PutBack(worker) =>
      var p := st.worksFor[worker];
      st.(lists := st.lists[p := st.lists[p] + st.hands[worker]], hands := st.hands[worker := []])
    case CloneFailed(clone) =>
      st.(clones := st.clones[..clone] + st.clones[clone + 1..], released := st.released + [st.clones[clone]])
    case ReleaseAll(profile) =>
      st.(lists := st.lists[profile := []], released := st.released + st.lists[profile])
  }

  function TimesIn(ss: seq<seq<Parked>>, x: Parked): nat {
    if ss == [] then 0 else TimesIn(ss[..|ss| - 1], x) + Times(ss[|ss| - 1], x)
  }

  lemma {:induction false} TimesInUpdate(ss: seq<seq<Parked>>, i: nat, s: seq<Parked>, x: Parked)
    requires i < |ss|
    ensures TimesIn(ss[i := s], x) == TimesIn(ss, x) + Times(s, x) - Times(ss[i], x)
  {
    hide Times;
    var init := ss[..|ss| - 1];
    if i < |init| {
      TimesInUpdate(init, i, s, x);
      assert ss[i := s][..|ss| - 1] == init[i := s];
    } else {
      assert ss[i := s][..|ss| - 1] == init;
    }
  }

  /** In how many places a claim is. */
  function Places(st: State, x: Parked): nat {
    TimesIn(st.lists, x) + TimesIn(st.hands, x) + Times(st.clones, x) + Times(st.released, x)
  }

  /** The claim is in as many places as it was parked, and was consumed at most as often as
      it is in a clone or released. */
  predicate Accounted(st: State, x: Parked) {
    Places(st, x) == Times(st.ever, x) && Times(st.consumed, x) <= Times(st.clones, x) + Times(st.released, x)
  }

  lemma StepAccounted(st: State, e: Step, x: Parked)
    requires Accounted(st, x) && Enabled(st, e)
    ensures Accounted(Apply(st, e), x)
  {
    hide TimesIn, Times, Live, Dead, Keep, Dropped, Chosen, AsSeq;
    match e
    case Park(profile, claim) =>
      TimesInUpdate(st.lists, profile, st.lists[profile] + [claim], x);
      TimesOfBoth(st.lists[profile], [claim], x);
      TimesOfBoth(st.ever, [claim], x);
    case Drain(worker, profile, now) =>
      NoTimes(x);
      DrainSplits(st.lists[profile], now, x);
      TimesInUpdate(st.lists, profile, [], x);
      TimesInUpdate(st.hands, worker, Live(st.lists[profile], now), x);
      TimesOfBoth(st.released, Dead(st.lists[profile], now), x);
    case Pick(worker, verdicts) =>
      var ps := st.hands[worker];
      ClaimSplits(ps, verdicts, x);
      TimesInUpdate(st.hands, worker, Keep(ps, verdicts), x);
      TimesOfBoth(st.clones, AsSeq(Chosen(ps, verdicts)), x);
      TimesOfBoth(st.consumed, AsSeq(Chosen(ps, verdicts)), x);
      TimesOfBoth(st.released, Dropped(ps, verdicts), x);
    case PutBack(worker) =>
      var p := st.worksFor[worker];
      NoTimes(x);
      TimesInUpdate(st.lists, p, st.lists[p] + st.hands[worker], x);
      TimesOfBoth(st.lists[p], st.hands[worker], x);
      TimesInUpdate(st.hands, worker, [], x);
    case CloneFailed(clone) =>
      assert st.clones == st.clones[..clone] + [st.clones[clone]] + st.clones[clone + 1..];
      TimesOfBoth(st.clones[..clone] + [st.clones[clone]], st.clones[clone + 1..], x);
      TimesOfBoth(st.clones[..clone], [st.clones[clone]], x);
      TimesOfBoth(st.clones[..clone], st.clones[clone + 1..], x);
      TimesOfBoth(st.released, [st.clones[clone]], x);
    case ReleaseAll(profile) =>
      NoTimes(x);
      TimesInUpdate(st.lists, profile, [], x);
      TimesOfBoth(st.released, st.lists[profile], x);
  }

  predicate DistinctHandles(ps: seq<Parked>) {
    forall i, j :: 0 <= i < j < |ps| ==> ps[i].handle != ps[j].handle
  }

  lemma {:induction false} DistinctMeansOnce(ps: seq<Parked>, x: Parked)
    requires DistinctHandles(ps)
    ensures Times(ps, x) == if x in ps then 1 else 0
  {
    if ps != [] {
      DistinctMeansOnce(ps[..|ps| - 1], x);
      assert ps == ps[..|ps| - 1] + [ps[|ps| - 1]];
    }
  }

  predicate Legal(st: State, es: seq<Step>)
    decreases |es|
  {
    es == [] || (Enabled(st, es[0]) && Legal(Apply(st, es[0]), es[1..]))
  }

  function Run(st: State, es: seq<Step>): State
    requires Legal(st, es)
    decreases |es|
  {
    if es == [] then st else Run(Apply(st, es[0]), es[1..])
  }

  lemma {:induction false} RunAccounted(st: State, es: seq<Step>, x: Parked)
    requires Accounted(st, x) && DistinctHandles(st.ever) && Legal(st, es)
    ensures Accounted(Run(st, es), x) && DistinctHandles(Run(st, es).ever)
    decreases |es|
  {
    hide Accounted;
    if es != [] {
      StepAccounted(st, es[0], x);
      assert DistinctHandles(Apply(st, es[0]).ever);
      hide Enabled, Apply, DistinctHandles;
      RunAccounted(Apply(st, es[0]), es[1..], x);
    }
  }

  function Empties(n: nat): seq<seq<Parked>> { seq(n, _ => []) }

  function Start(profiles: nat, workers: nat): State {
    State(Empties(profiles), Empties(workers), seq(workers, _ => 0), [], [], [], map[], [])
  }

  lemma {:induction false} NoneInEmpties(n: nat, x: Parked)
    ensures TimesIn(Empties(n), x) == 0
  {
    if n > 0 {
      NoneInEmpties(n - 1, x);
      assert Empties(n)[..n - 1] == Empties(n - 1);
    }
  }

  /** Single ownership: in every interleaving of workers and evictions, from nothing parked,
      each parked claim is in exactly one of the lists, the hands, the clones or released,
      none is dropped, and none is consumed twice. */
  lemma EachClaimHasOneOwner(profiles: nat, workers: nat, es: seq<Step>, x: Parked)
    requires Legal(Start(profiles, workers), es)
    ensures
      var st := Run(Start(profiles, workers), es);
      Places(st, x) == (if x in st.ever then 1 else 0) && Times(st.consumed, x) <= 1
  {
    NoneInEmpties(profiles, x);
    NoneInEmpties(workers, x);
    RunAccounted(Start(profiles, workers), es, x);
    DistinctMeansOnce(Run(Start(profiles, workers), es).ever, x);
  }

  /** A claim parked for a profile is in that profile's list or in the hands of a worker for it. */
  ghost predicate StaysHome(st: State) {
    && |st.worksFor| == |st.hands|
    && (forall p, i :: 0 <= p < |st.lists| && 0 <= i < |st.lists[p]| ==> HomeOf(st, st.lists[p][i], p))
    && (forall w, i :: 0 <= w < |st.hands| && 0 <= i < |st.hands[w]| ==> HomeOf(st, st.hands[w][i], st.worksFor[w]))
  }

  predicate HomeOf(st: State, claim: Parked, profile: nat) {
    && (claim.handle in st.profileOf && st.profileOf[claim.handle] == profile)
    && (exists i :: 0 <= i < |st.ever| && st.ever[i].handle == claim.handle)
  }

  lemma PartOf(idx: seq<nat>, part: seq<Parked>, all: seq<Parked>, st: State, profile: nat)
    requires At(idx, part, all) && forall i :: 0 <= i < |all| ==> HomeOf(st, all[i], profile)
    ensures forall i :: 0 <= i < |part| ==> HomeOf(st, part[i], profile)
  {
    forall i | 0 <= i < |part| ensures HomeOf(st, part[i], profile) {
      assert part[i] == all[idx[i]];
    }
  }

  lemma StepStaysHome(st: State, e: Step)
    requires StaysHome(st) && Enabled(st, e)
    ensures StaysHome(Apply(st, e))
  {
    hide HomeOf, Live, Dead, Keep, Dropped, Chosen, AsSeq;
    var next := Apply(st, e);
    match e
    case Park(profile, claim) => ParkStaysHome(st, e);
    case Drain(worker, profile, now) =>
      var idx := DrainedAt(st.lists[profile], now, true);
      PartOf(idx, Live(st.lists[profile], now), st.lists[profile], st, profile);
      SameHomes(st, next);
    case Pick(worker, verdicts) =>
      var first, keep, dropped := PickedExactly(st.hands[worker], verdicts);
      PartOf(keep, Keep(st.hands[worker], verdicts), st.hands[worker], st, st.worksFor[worker]);
      SameHomes(st, next);
    case _ => SameHomes(st, next);
  }

  lemma SameHomes(st: State, next: State)
    requires next.profileOf == st.profileOf && next.ever == st.ever
    ensures forall claim, profile: nat :: HomeOf(st, claim, profile) <==> HomeOf(next, claim, profile)
  {}

  lemma ParkStaysHome(st: State, e: Step)
    requires StaysHome(st) && Enabled(st, e) && e.Park?
    ensures StaysHome(Apply(st, e))
  {
    var next := Apply(st, e);
    assert next.ever[|st.ever|] == e.claim;
    forall c: Parked, p: nat | HomeOf(st, c, p) ensures HomeOf(next, c, p) {
      var i :| 0 <= i < |st.ever| && st.ever[i].handle == c.handle;
      assert next.ever[i] == st.ever[i];
    }
  }

  /** In every interleaving a claim stays with the profile whose eviction paid for it: it is
      never in another profile's list or offered to another profile's worker. */
  lemma {:induction false} ClaimsStayWithProfile(st: State, es: seq<Step>)
    requires StaysHome(st) && Legal(st, es)
    ensures StaysHome(Run(st, es))
    decreases |es|
  {
    hide StaysHome, Enabled, Apply;
    if es != [] {
      StepStaysHome(st, es[0]);
      ClaimsStayWithProfile(Apply(st, es[0]), es[1..]);
    }
  }
}
