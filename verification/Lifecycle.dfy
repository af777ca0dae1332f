/** The VM lifecycle as interleaved store transactions. Callers work from row snapshots that
    may be arbitrarily stale; what holds is what the compare-and-set guards of each
    transaction enforce. */
module Lifecycle {
  import opened VMStore

  type States = map<int, State>

  /** The guarded transitions of internal/pool, each one compare-and-set. */
  datatype Op =
    | MarkRunning
    | PromoteToRunning
    | CompleteToRecycle
    | CompleteToDestroy
    | ForceDestroy
    | Preempt
    | ShrinkHot
    | ShrinkWarm
    | RecycleOld(observed: State)
    | Evict(preferred: bool)
    | PromoteWarm
    | RollbackDone
    | RollbackFailed

  function From(op: Op): set<State> {
    match op
    case MarkRunning => {Assigned}
    case PromoteToRunning => {Assigned, Hot}
    case CompleteToRecycle => {Assigned, Running}
    case CompleteToDestroy => {Assigned, Running}
    case ForceDestroy => {Provisioning, Warm, Booting, Hot, Assigned, Running, Recycling, Poison}
    case Preempt => {Assigned}
    case ShrinkHot => {Hot}
    case ShrinkWarm => {Warm}
    case RecycleOld(observed) => {observed}
    case Evict(preferred) => if preferred then {Warm} else {Hot}
    case PromoteWarm => {Warm}
    case RollbackDone => {Recycling}
    case RollbackFailed => {Recycling}
  }

  function To(op: Op): State {
    match op
    case MarkRunning => Running
    case PromoteToRunning => Running
    case CompleteToRecycle => Recycling
    case PromoteWarm => Booting
    case RollbackDone => Warm
    case _ => Draining
  }

  datatype Step =
    /** A clone's row; adoption happens before the run. */
    | InsertRow(vmid: int)
    | Acquire(vmid: int, maxConcurrent: int, maxBusy: int)
    | Guarded(op: Op, vmid: int)
    /** A worker's unconditional write. */
    | Write(vmid: int, to: State)
    | Delete(vmid: int)

  /** What the code can do at all: age-based recycling looks at idle rows only, and no
      unconditional write makes a row busy or provisioning. */
  predicate Possible(e: Step) {
    match e
    case Guarded(RecycleOld(observed), _) => observed == Hot || observed == Warm
    case Write(_, to) => to in {Warm, Booting, Hot, Poison, Destroying, Draining}
    case _ => true
  }

  /** Row states; per row, since it was inserted, the teardowns queued for it, its revivals and
      the teardowns that a worker queued although one was due; and the number of Hot rows
      promoted straight to Running. */
  datatype World = World(states: States, queued: map<int, nat>, revived: map<int, nat>, repeated: map<int, nat>,
                         promotions: nat)

  function Busy(st: States): set<int> { set v | v in st && IsBusy(st[v]) }

  predicate Doomed(s: State) { s == Draining || s == Destroying }

  function Count(m: map<int, nat>, v: int): nat { if v in m then m[v] else 0 }

  /** The guard of the transaction holds. */
  predicate Fires(st: States, e: Step) {
    match e
    case InsertRow(v) => v > 0 && v !in st
    case Acquire(v, maxConcurrent, maxBusy) =>
      v in st && st[v] == Hot && |Busy(st)| < maxConcurrent && (maxBusy > 0 ==> |Busy(st)| < maxBusy)
    case Guarded(op, v) => v in st && st[v] in From(op)
    case Write(v, _) => v in st
    case Delete(v) => v in st
  }

  /** An unconditional write that takes a row back out of its teardown. */
  predicate Revives(st: States, e: Step, v: int) {
    e.Write? && e.vmid == v && v in st && Doomed(st[v]) && !Doomed(e.to)
  }

  /** A worker's write into teardown of a row already in it: its failed clone or boot, or the
      sweep of stuck rows. */
  predicate Repeats(st: States, e: Step, v: int) {
    e.Write? && e.vmid == v && v in st && Doomed(st[v]) && Doomed(e.to)
  }

  /** Whoever puts a row into teardown also queues it. */
  predicate Queues(e: Step) { (e.Guarded? && To(e.op) == Draining) || (e.Write? && Doomed(e.to)) }

  /** A row's count after a step: from zero with the row, and one more on the occasion. */
  function Counted(m: map<int, nat>, e: Step, occasion: bool): map<int, nat> {
    if e.InsertRow? then m[e.vmid := 0] else if occasion then m[e.vmid := Count(m, e.vmid) + 1] else m
  }

  function NextStates(st: States, e: Step): States {
    if !Fires(st, e) then st
    else
      match e
      case InsertRow(v) => st[v := Provisioning]
      case Acquire(v, _, _) => st[v := Assigned]
      case Guarded(op, v) => st[v := To(op)]
      case Write(v, to) => st[v := to]
      case Delete(v) => st - {v}
  }

  function Apply(w: World, e: Step): World {
    if !Fires(w.states, e) then w
    else
      World(
        NextStates(w.states, e),
        Counted(w.queued, e, Queues(e)),
        Counted(w.revived, e, Revives(w.states, e, e.vmid)),
        Counted(w.repeated, e, Repeats(w.states, e, e.vmid)),
        w.promotions + if e.Guarded? && e.op == PromoteToRunning && w.states[e.vmid] == Hot then 1 else 0)
  }

  function Run(w: World, es: seq<Step>): World
    decreases |es|
  {
    if es == [] then w else Run(Apply(w, es[0]), es[1..])
  }

  predicate AllPossible(es: seq<Step>) { forall i :: 0 <= i < |es| ==> Possible(es[i]) }

  // ------------------------------------------------------------------
  // The busy cap
  // ------------------------------------------------------------------

  /** The acquire is clamped to `cap`, by the fleet's maximum or by the listener's count. */
  predicate Clamped(e: Step, cap: int) {
    e.Acquire? ==> e.maxConcurrent <= cap || 0 < e.maxBusy <= cap
  }

  lemma BusyChange(st: States, v: int, to: State)
    ensures |Busy(st[v := to])|
      == |Busy(st)| + (if IsBusy(to) then 1 else 0) - (if v in st && IsBusy(st[v]) then 1 else 0)
  {
    var rest := Busy(st) - {v};
    if IsBusy(to) {
      assert Busy(st[v := to]) == rest + {v};
    } else {
      assert Busy(st[v := to]) == rest;
    }
    if v in Busy(st) {
      assert Busy(st) == rest + {v};
    } else {
      assert Busy(st) == rest;
    }
  }

  lemma BusyDelete(st: States, v: int)
    ensures |Busy(st - {v})| <= |Busy(st)|
  {
    assert Busy(st - {v}) == Busy(st) - {v};
  }

  /** In every interleaving the number of busy rows stays within the larger of the cap and
      what adoption found, plus one for every Hot row GitHub promoted on its own. The cap is
      the fleet's maximum; if every acquire comes from desired-count messages asking for at
      most N it is also N, however often they repeat. */
  lemma {:induction false} BusyStaysCapped(w: World, es: seq<Step>, cap: int)
    requires AllPossible(es) && forall i :: 0 <= i < |es| ==> Clamped(es[i], cap)
    ensures
      var start := |Busy(w.states)|;
      |Busy(Run(w, es).states)| <= (if start <= cap then cap else start) + Run(w, es).promotions - w.promotions
  {
    var start := |Busy(w.states)|;
    BusyWithin(w, es, cap, (if start <= cap then cap else start) - w.promotions);
  }

  lemma {:induction false} BusyWithin(w: World, es: seq<Step>, cap: int, bound: int)
    requires AllPossible(es) && forall i :: 0 <= i < |es| ==> Clamped(es[i], cap)
    requires cap <= bound + w.promotions && |Busy(w.states)| <= bound + w.promotions
    ensures |Busy(Run(w, es).states)| <= bound + Run(w, es).promotions
    decreases |es|
  {
    hide Possible, Clamped, Busy;
    if es != [] {
      assert w.promotions <= Apply(w, es[0]).promotions;
      StepWithinCap(w, es[0], cap, bound);
      hide Apply;
      BusyWithin(Apply(w, es[0]), es[1..], cap, bound);
    }
  }

  lemma StepWithinCap(w: World, e: Step, cap: int, bound: int)
    requires Possible(e) && Clamped(e, cap) && cap <= bound + w.promotions
    requires |Busy(w.states)| <= bound + w.promotions
    ensures |Busy(Apply(w, e).states)| <= bound + Apply(w, e).promotions
  {
    if Fires(w.states, e) {
      match e
      case InsertRow(v) => BusyChange(w.states, v, Provisioning);
      case Acquire(v, _, _) => BusyChange(w.states, v, Assigned);
      case Guarded(op, v) => BusyChange(w.states, v, To(op));
      case Write(v, to) => BusyChange(w.states, v, to);
      case Delete(v) => BusyDelete(w.states, v);
    }
  }

  // ------------------------------------------------------------------
  // Teardown
  // ------------------------------------------------------------------

  /** A row that is being torn down leaves that, other than by deletion, exactly through an
      unconditional worker write. */
  lemma DoomedLeavesOnlyByRevival(w: World, e: Step, v: int)
    requires v in w.states && (w.states[v] == Draining || w.states[v] == Destroying)
    ensures
      var after := Apply(w, e).states;
      (v in after && after[v] != Draining && after[v] != Destroying) <==>
        e.Write? && e.vmid == v && e.to != Draining && e.to != Destroying
  {}

  /** What the counters count for a row: a teardown is queued exactly when a compare-and-set or a
      write leaves it Draining or Destroying, which is a repeat if it was so before; and a
      revival is the way back. */
  lemma CountersExactly(w: World, e: Step, v: int)
    requires v in w.states && !e.InsertRow? && Possible(e)
    ensures
      var was, fires, w' := w.states[v], e.vmid == v && Fires(w.states, e) && !e.Delete?, Apply(w, e);
      var into := fires && (w'.states[v] == Draining || w'.states[v] == Destroying);
      var before := was == Draining || was == Destroying;
      && Count(w'.queued, v) == Count(w.queued, v) + (if into then 1 else 0)
      && Count(w'.repeated, v) == Count(w.repeated, v) + (if into && before then 1 else 0)
      && Count(w'.revived, v) == Count(w.revived, v) + (if fires && !into && before then 1 else 0)
    ensures e.vmid == v ==>
      var promoted := e.Guarded? && w.states[v] == Hot && Apply(w, e).states[v] == Running;
      Apply(w, e).promotions == w.promotions + if promoted then 1 else 0
  {}

  /** The teardowns queued for a row are exactly: one if it is being torn down, one for each
      time it was revived from there, and the workers' repeats. */
  predicate TeardownsOwned(w: World, v: int) {
    v in w.states ==>
      Count(w.queued, v) == Count(w.revived, v) + Count(w.repeated, v) + if Doomed(w.states[v]) then 1 else 0
  }

  lemma StepOwned(w: World, e: Step, v: int)
    requires TeardownsOwned(w, v) && Possible(e)
    ensures TeardownsOwned(Apply(w, e), v)
  {}

  /** However many callers compete for a row, one teardown is queued each time it goes into
      teardown, no more and no less, apart from the repeats of workers that write without
      looking. */
  lemma {:induction false} OneTeardownPerRow(w: World, es: seq<Step>, v: int)
    requires TeardownsOwned(w, v) && AllPossible(es)
    ensures TeardownsOwned(Run(w, es), v)
    decreases |es|
  {
    hide TeardownsOwned, Apply, Possible;
    if es != [] {
      StepOwned(w, es[0], v);
      OneTeardownPerRow(Apply(w, es[0]), es[1..], v);
    }
  }

  /** Nobody deletes the row, and no write takes it out of its teardown. */
  predicate NoRevival(es: seq<Step>, v: int) {
    forall i :: 0 <= i < |es| ==>
      es[i] != Delete(v) && (es[i].Write? && es[i].vmid == v ==> es[i].to == Draining || es[i].to == Destroying)
  }

  /** Once a row is being torn down, no guarded caller, in particular no late rollback, brings
      it back: it stays so until it is deleted or revived. */
  lemma {:induction false} DoomedIsFinal(w: World, es: seq<Step>, v: int)
    requires v in w.states && (w.states[v] == Draining || w.states[v] == Destroying) && NoRevival(es, v)
    ensures v in Run(w, es).states && (Run(w, es).states[v] == Draining || Run(w, es).states[v] == Destroying)
    decreases |es|
  {
    if es != [] {
      DoomedStays(w, es[0], v);
      hide Apply, From, To;
      DoomedIsFinal(Apply(w, es[0]), es[1..], v);
    }
  }

  lemma DoomedStays(w: World, e: Step, v: int)
    requires v in w.states && (w.states[v] == Draining || w.states[v] == Destroying) && e != Delete(v)
    requires e.Write? && e.vmid == v ==> e.to == Draining || e.to == Destroying
    ensures var after := Apply(w, e).states; v in after && (after[v] == Draining || after[v] == Destroying)
  {}

  /** Revival happens: a row force-destroyed while its clone is in flight is put into the
      warm pool by the clone worker, with its teardown already queued. */
  lemma CloneWorkerRevives(v: int)
    requires v > 0
    ensures
      var es := [InsertRow(v), Guarded(ForceDestroy, v), Write(v, Warm)];
      var end := Run(World(map[], map[], map[], map[], 0), es);
      AllPossible(es) && end.states == map[v := Warm] && Count(end.queued, v) == 1 && Count(end.revived, v) == 1
  {
    var w0 := World(map[], map[], map[], map[], 0);
    var w1 := Apply(w0, InsertRow(v));
    var w2 := Apply(w1, Guarded(ForceDestroy, v));
    var w3 := Apply(w2, Write(v, Warm));
    assert w1.states[v] == Provisioning && Count(w1.queued, v) == 0 && Count(w1.revived, v) == 0;
    assert w2.states[v] == Draining && Count(w2.queued, v) == 1;
    assert w3.states == map[v := Warm];
    RunThree(w0, InsertRow(v), Guarded(ForceDestroy, v), Write(v, Warm));
  }

  lemma RunThree(w: World, a: Step, b: Step, c: Step)
    ensures Run(w, [a, b, c]) == Apply(Apply(Apply(w, a), b), c)
  {
    hide Apply;
    assert [a, b, c][1..] == [b, c];
    assert [b, c][1..] == [c];
    assert [c][1..] == [];
    assert Run(w, [a, b, c]) == Run(Apply(w, a), [b, c]);
    assert Run(Apply(w, a), [b, c]) == Run(Apply(Apply(w, a), b), [c]);
  }

  // ------------------------------------------------------------------
  // Jobs are not interrupted
  // ------------------------------------------------------------------

  /** However stale the callers' snapshots, a running row keeps running through any number of
      steps other than its completion, a forced destroy, a worker's write and deletion; so
      through every reclaiming one. */
  lemma {:induction false} RunningIsNotReclaimed(w: World, es: seq<Step>, v: int)
    requires v in w.states && w.states[v] == Running && AllPossible(es)
    requires forall i :: 0 <= i < |es| && es[i].vmid == v ==> !es[i].Write? && !es[i].Delete?
    requires forall i :: 0 <= i < |es| && es[i].vmid == v && es[i].Guarded? ==>
      es[i].op != CompleteToRecycle && es[i].op != CompleteToDestroy && es[i].op != ForceDestroy
    ensures v in Run(w, es).states && Run(w, es).states[v] == Running
    decreases |es|
  {
    if es != [] {
      RunningStays(w, es[0], v);
      hide Apply, Possible;
      RunningIsNotReclaimed(Apply(w, es[0]), es[1..], v);
    }
  }

  lemma RunningStays(w: World, e: Step, v: int)
    requires v in w.states && w.states[v] == Running && Possible(e)
    requires e.vmid == v ==> !e.Write? && !e.Delete?
    requires e.vmid == v && e.Guarded? ==>
      e.op != CompleteToRecycle && e.op != CompleteToDestroy && e.op != ForceDestroy
    ensures v in Apply(w, e).states && Apply(w, e).states[v] == Running
  {}
}
