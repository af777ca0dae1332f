/** VMID ranges and allocation: the range validator of internal/config, the allocator of
    internal/pool/manager.go, and concurrent managers minting from validated ranges. */
module Vmids {
  import opened Common

  datatype Range = Range(min: int, max: int) {
    predicate Has(id: int) { min <= id <= max }
  }

  datatype ScaleSet = ScaleSet(name: string, vmidRange: Option<Range>)

  predicate WellFormed(r: Range) { r.min > 0 && r.max > r.min }

  ghost predicate Overlap(a: Range, b: Range) { exists id :: a.Has(id) && b.Has(id) }

  /** A range is well formed if it has two VMIDs at least, all of them positive. */
  lemma WellFormedExactly(r: Range)
    ensures WellFormed(r) <==> (exists a, b :: a < b && r.Has(a) && r.Has(b)) && forall id :: r.Has(id) ==> id > 0
  {
    if WellFormed(r) {
      assert r.Has(r.min) && r.Has(r.max);
    } else if exists a, b :: a < b && r.Has(a) && r.Has(b) {
      assert r.Has(r.min);
    }
  }

  lemma OverlapTest(a: Range, b: Range)
    requires WellFormed(a) && WellFormed(b)
    ensures Overlap(a, b) <==> !(a.max < b.min || b.max < a.min)
  {
    if !(a.max < b.min || b.max < a.min) {
      var id := if a.min < b.min then b.min else a.min;
      assert a.Has(id) && b.Has(id);
    }
  }

  /** What the validator is for: with several scale sets each has its own well-formed range,
      and no VMID is in two declared ranges. */
  ghost predicate Partitioned(ss: seq<ScaleSet>) {
    && (|ss| > 1 ==> forall i :: 0 <= i < |ss| ==> ss[i].vmidRange.Some?)
    && (forall i :: 0 <= i < |ss| && ss[i].vmidRange.Some? ==> WellFormed(ss[i].vmidRange.value))
    && (forall i, j :: 0 <= i < j < |ss| && ss[i].vmidRange.Some? && ss[j].vmidRange.Some? ==>
          !Overlap(ss[i].vmidRange.value, ss[j].vmidRange.value))
  }

  function Declared(ss: seq<ScaleSet>): seq<Range> {
    if ss == [] then []
    else
      var last := ss[|ss| - 1];
      Declared(ss[..|ss| - 1]) + if last.vmidRange.Some? then [last.vmidRange.value] else []
  }

  ghost predicate AllDisjoint(rs: seq<Range>) {
    forall i, j :: 0 <= i < j < |rs| ==> !Overlap(rs[i], rs[j])
  }

  /** Some scale set declares the range. */
  ghost predicate DeclaredIn(ss: seq<ScaleSet>, r: Range) {
    exists i :: 0 <= i < |ss| && ss[i].vmidRange == Some(r)
  }

  lemma OneMoreDisjoint(rs: seq<Range>, r: Range)
    ensures AllDisjoint(rs + [r]) <==> AllDisjoint(rs) && forall x :: x in rs ==> !Overlap(x, r)
  {
    hide Overlap;
    var all := rs + [r];
    assert all[|rs|] == r;
    if AllDisjoint(all) {
      forall i, j | 0 <= i < j < |rs| ensures !Overlap(rs[i], rs[j]) {
        assert !Overlap(all[i], all[j]);
      }
      forall x | x in rs ensures !Overlap(x, r) {
        var i :| 0 <= i < |rs| && rs[i] == x;
        assert !Overlap(all[i], all[|rs|]);
      }
    }
  }

  lemma {:induction false} DeclaredSpec(ss: seq<ScaleSet>)
    ensures forall r :: r in Declared(ss) <==> DeclaredIn(ss, r)
    ensures AllDisjoint(Declared(ss)) <==>
      forall i, j :: 0 <= i < j < |ss| && ss[i].vmidRange.Some? && ss[j].vmidRange.Some? ==>
        !Overlap(ss[i].vmidRange.value, ss[j].vmidRange.value)
  {
    if ss == [] {
      assert AllDisjoint(Declared(ss));
    }
    hide Overlap, AllDisjoint;
    if ss != [] {
      var n := |ss| - 1;
      var init, ds := ss[..n], Declared(ss[..n]);
      DeclaredSpec(init);
      if ss[n].vmidRange.Some? {
        var r := ss[n].vmidRange.value;
        assert ss[n].vmidRange == Some(r);
        OneMoreDisjoint(ds, r);
        assert (forall x :: x in ds ==> !Overlap(x, r)) <==>
               (forall i :: 0 <= i < n && ss[i].vmidRange.Some? ==> !Overlap(ss[i].vmidRange.value, r)) by {
          forall i | 0 <= i < n && ss[i].vmidRange.Some? ensures ss[i].vmidRange.value in ds {
            assert init[i].vmidRange == Some(ss[i].vmidRange.value);
          }
        }
      } else {
        assert ds + [] == ds;
      }
    }
  }

  method ValidateScalesetVMIDRanges(ss: seq<ScaleSet>) returns (ok: bool)
    ensures ok <==> Partitioned(ss)
  {
    hide Overlap, AllDisjoint;
    var declared: seq<Range> := [];
    for i := 0 to |ss|
      invariant declared == Declared(ss[..i])
      invariant forall k :: 0 <= k < i && ss[k].vmidRange.Some? ==> WellFormed(ss[k].vmidRange.value)
      invariant forall d :: 0 <= d < |declared| ==> WellFormed(declared[d])
      invariant |ss| > 1 ==> forall k :: 0 <= k < i ==> ss[k].vmidRange.Some?
    {
      assert ss[..i + 1][..i] == ss[..i];
      if ss[i].vmidRange.None? {
        if |ss| > 1 {
          return false;
        }
      } else {
        var r := ss[i].vmidRange.value;
        if r.min <= 0 {
          return false;
        }
        if r.max <= r.min {
          return false;
        }
        declared := declared + [r];
      }
    }
    assert ss[..|ss|] == ss;
    DeclaredSpec(ss);
    ok := PairwiseDisjoint(declared);
  }

  method PairwiseDisjoint(declared: seq<Range>) returns (ok: bool)
    requires forall d :: 0 <= d < |declared| ==> WellFormed(declared[d])
    ensures ok <==> AllDisjoint(declared)
  {
    for i := 0 to |declared|
      invariant forall a, b :: 0 <= a < i && a < b < |declared| ==> !Overlap(declared[a], declared[b])
    {
      for j := i + 1 to |declared|
        invariant forall b :: i < b < j ==> !Overlap(declared[i], declared[b])
      {
        OverlapTest(declared[i], declared[j]);
        if declared[i].max < declared[j].min || declared[j].max < declared[i].min {
          continue;
        }
        return false;
      }
    }
    ok := true;
  }

  // ------------------------------------------------------------------
  // Allocation
  // ------------------------------------------------------------------

  datatype Allocation = Minted(id: int) | Exhausted | Cancelled

  predicate Free(r: Range, used: set<int>, cooling: set<int>, id: int) {
    r.Has(id) && id !in used && id !in cooling
  }

  /** The lowest id that is neither used nor cooling down; exhaustion is reported exactly when
      there is none. `cancelled` is the caller's context as seen at each candidate. */
  method AllocateVMID(r: Range, used: set<int>, cooling: set<int>, cancelled: int -> bool) returns (a: Allocation)
    ensures a.Minted? ==> IsLowestFree(r, used, cooling, a.id)
    ensures a.Minted? ==> r.min <= a.id <= r.max && a.id !in used && a.id !in cooling
    ensures a.Minted? ==> forall id :: r.min <= id < a.id ==> id in used || id in cooling
    ensures a == Exhausted ==> forall id :: r.min <= id <= r.max ==> id in used || id in cooling
    ensures a == Cancelled ==> exists id :: cancelled(id)
    ensures (forall id :: !cancelled(id)) && (exists id :: Free(r, used, cooling, id)) ==> a.Minted?
  {
    if cancelled(r.min) {
      return Cancelled;
    }
    var id := r.min;
    while id <= r.max
      invariant r.min <= id && forall k :: r.min <= k < id ==> k in used || k in cooling
      decreases r.max - id
    {
      if cancelled(id) {
        return Cancelled;
      }
      if id !in used && id !in cooling {
        return Minted(id);
      }
      id := id + 1;
    }
    a := Exhausted;
  }

  // ------------------------------------------------------------------
  // Concurrent managers
  // ------------------------------------------------------------------

  datatype Live = Live(manager: nat, id: int)

  /** Each manager's store rows, the id its allocation lock is held for, and the minted rows
      alive in any store. */
  datatype World = World(rows: seq<set<int>>, minting: seq<Option<int>>, live: seq<Live>)

  datatype Step =
    /** Takes the manager's lock, reads the used ids and picks one. */
    | Begin(manager: nat, cooling: set<int>)
    /** Inserts the row and releases the lock. */
    | Commit(manager: nat)
    /** A row goes away, at any time. */
    | Remove(manager: nat, id: int)

  ghost predicate IsLowestFree(r: Range, used: set<int>, cooling: set<int>, id: int) {
    Free(r, used, cooling, id) && forall k :: Free(r, used, cooling, k) ==> id <= k
  }

  predicate Enabled(ranges: seq<Range>, w: World, e: Step) {
    && |w.rows| == |w.minting| == |ranges| && e.manager < |ranges|
    && match e
       case Begin(m, _) => w.minting[m].None?
       case Commit(m) => w.minting[m].Some?
       case Remove(_, _) => true
  }

  function LowestFrom(r: Range, used: set<int>, cooling: set<int>, from: int): (o: Option<int>)
    requires r.min <= from
    requires forall k :: Free(r, used, cooling, k) ==> from <= k
    ensures o.Some? ==> IsLowestFree(r, used, cooling, o.value)
    ensures o.None? ==> forall k :: !Free(r, used, cooling, k)
    decreases r.max - from
  {
    if from > r.max then None
    else if from !in used && from !in cooling then Some(from)
    else LowestFrom(r, used, cooling, from + 1)
  }

  function DropLive(live: seq<Live>, x: Live): seq<Live> {
    if live == [] then []
    else DropLive(live[..|live| - 1], x) + if live[|live| - 1] == x then [] else [live[|live| - 1]]
  }

  function Apply(ranges: seq<Range>, w: World, e: Step): World
    requires Enabled(ranges, w, e)
  {
    match e
    case Begin(m, cooling) => w.(minting := w.minting[m := LowestFrom(ranges[m], w.rows[m], cooling, ranges[m].min)])
    case Commit(m) =>
      var id := w.minting[m].value;
      World(w.rows[m := w.rows[m] + {id}], w.minting[m := None],
            // the insert would fail on a present row
            if id in w.rows[m] then w.live else w.live + [Live(m, id)])
    case Remove(m, id) => w.(rows := w.rows[m := w.rows[m] - {id}], live := DropLive(w.live, Live(m, id)))
  }

  predicate DistinctIds(live: seq<Live>) {
    forall i, j :: 0 <= i < j < |live| ==> live[i].id != live[j].id
  }

  ghost predicate Sound(ranges: seq<Range>, w: World) {
    && |w.rows| == |w.minting| == |ranges|
    && (forall i :: 0 <= i < |w.live| ==>
        w.live[i].manager < |ranges| && w.live[i].id in w.rows[w.live[i].manager] &&
        ranges[w.live[i].manager].Has(w.live[i].id))
    && (forall m :: 0 <= m < |ranges| && w.minting[m].Some? ==>
        w.minting[m].value !in w.rows[m] && ranges[m].Has(w.minting[m].value))
    && DistinctIds(w.live)
  }

  lemma {:induction false} DropLiveSpec(live: seq<Live>, x: Live)
    ensures forall y :: y in DropLive(live, x) <==> y in live && y != x
    ensures DistinctIds(live) ==> DistinctIds(DropLive(live, x))
  {
    if live != [] {
      var init, last := live[..|live| - 1], live[|live| - 1];
      DropLiveSpec(init, x);
      assert live == init + [last];
      if DistinctIds(live) {
        var kept := DropLive(init, x);
        forall i | 0 <= i < |kept| ensures kept[i].id != last.id {
          assert kept[i] in init;
        }
      }
    }
  }

  lemma StepSound(ranges: seq<Range>, w: World, e: Step)
    requires Sound(ranges, w) && AllDisjoint(ranges) && Enabled(ranges, w, e)
    ensures Sound(ranges, Apply(ranges, w, e))
  {
    match e
    case Begin(m, cooling) =>
    case Commit(m) => CommitSound(ranges, w, m);
    case Remove(m, id) => RemoveSound(ranges, w, m, id);
  }

  lemma InOneOnly(a: Range, b: Range, id: int)
    requires !Overlap(a, b)
    ensures !(a.Has(id) && b.Has(id))
  {}

  lemma CommitSound(ranges: seq<Range>, w: World, m: nat)
    requires Sound(ranges, w) && AllDisjoint(ranges) && Enabled(ranges, w, Commit(m))
    ensures Sound(ranges, Apply(ranges, w, Commit(m)))
  {
    var id := w.minting[m].value;
    forall i | 0 <= i < |w.live| ensures w.live[i].id != id {
      var k := w.live[i].manager;
      if k < m {
        InOneOnly(ranges[k], ranges[m], w.live[i].id);
      } else if m < k {
        InOneOnly(ranges[m], ranges[k], w.live[i].id);
      }
    }
  }

  lemma RemoveSound(ranges: seq<Range>, w: World, m: nat, id: int)
    requires Sound(ranges, w) && Enabled(ranges, w, Remove(m, id))
    ensures Sound(ranges, Apply(ranges, w, Remove(m, id)))
  {
    hide Overlap;
    var w' := Apply(ranges, w, Remove(m, id));
    DropLiveSpec(w.live, Live(m, id));
    hide DropLive;
    forall i | 0 <= i < |w'.live|
      ensures w'.live[i].manager < |ranges| && w'.live[i].id in w'.rows[w'.live[i].manager] &&
        ranges[w'.live[i].manager].Has(w'.live[i].id)
    {
      assert w'.live[i] in w'.live;
      assert w'.live[i] in w.live && w'.live[i] != Live(m, id);
    }
  }

  predicate Legal(ranges: seq<Range>, w: World, es: seq<Step>)
    decreases |es|
  {
    es == [] || (Enabled(ranges, w, es[0]) && Legal(ranges, Apply(ranges, w, es[0]), es[1..]))
  }

  function Run(ranges: seq<Range>, w: World, es: seq<Step>): World
    requires Legal(ranges, w, es)
    decreases |es|
  {
    if es == [] then w else Run(ranges, Apply(ranges, w, es[0]), es[1..])
  }

  /** However the managers' allocations, insertions and removals interleave, no two live
      minted rows share a VMID, and an insert of a minted id never finds it taken. */
  lemma {:induction false} MintedIdsNeverCollide(ranges: seq<Range>, w: World, es: seq<Step>)
    requires Sound(ranges, w) && AllDisjoint(ranges) && Legal(ranges, w, es)
    ensures Sound(ranges, Run(ranges, w, es)) && DistinctIds(Run(ranges, w, es).live)
    decreases |es|
  {
    if es != [] {
      hide Sound, AllDisjoint, Enabled, Apply;
      StepSound(ranges, w, es[0]);
      MintedIdsNeverCollide(ranges, Apply(ranges, w, es[0]), es[1..]);
    }
  }

  /** The allocation lock: from the moment a manager has picked an id until it inserts the row, no
      step of anyone changes the pick; and the insert then makes exactly that row live. */
  lemma {:induction false} PickedIsInserted(ranges: seq<Range>, w: World, es: seq<Step>, m: nat, id: int)
    requires Sound(ranges, w) && AllDisjoint(ranges) && Legal(ranges, w, es)
    requires m < |ranges| && w.minting[m] == Some(id) && forall i :: 0 <= i < |es| ==> es[i] != Commit(m)
    ensures
      var before := Run(ranges, w, es);
      && Sound(ranges, before) && before.minting[m] == Some(id) && Enabled(ranges, before, Commit(m))
      && var after := Apply(ranges, before, Commit(m));
         after.rows[m] == before.rows[m] + {id} && after.live == before.live + [Live(m, id)] && after.minting[m] == None
    decreases |es|
  {
    if es != [] {
      StepSound(ranges, w, es[0]);
      PickStays(ranges, w, es[0], m);
      hide Sound, AllDisjoint, Enabled, Apply;
      PickedIsInserted(ranges, Apply(ranges, w, es[0]), es[1..], m, id);
    }
  }

  lemma PickStays(ranges: seq<Range>, w: World, e: Step, m: nat)
    requires Enabled(ranges, w, e) && m < |ranges| && w.minting[m].Some? && e != Commit(m)
    ensures Apply(ranges, w, e).minting[m] == w.minting[m]
  {}

  /** The ranges the managers use: their own, or the global one for a single scale set. */
  function RangesOf(ss: seq<ScaleSet>, global: Range): (rs: seq<Range>)
    ensures |rs| == |ss|
  {
    seq(|ss|, i requires 0 <= i < |ss| => if ss[i].vmidRange.Some? then ss[i].vmidRange.value else global)
  }

  /** A validated configuration, whatever rows the stores adopted. */
  lemma ValidatedRangesNeverCollide(ss: seq<ScaleSet>, global: Range, rows: seq<set<int>>, es: seq<Step>)
    requires Partitioned(ss) && |rows| == |ss|
    requires Legal(RangesOf(ss, global), World(rows, seq(|ss|, _ => None), []), es)
    ensures DistinctIds(Run(RangesOf(ss, global), World(rows, seq(|ss|, _ => None), []), es).live)
  {
    hide Overlap, Run, Legal;
    var w := World(rows, seq(|ss|, _ => None), []);
    assert AllDisjoint(RangesOf(ss, global));
    MintedIdsNeverCollide(RangesOf(ss, global), w, es);
  }
}
