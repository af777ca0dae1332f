/** The pool manager's lifecycle methods and the scaler's acquire loop, as sequential code over
    the store. Each store transaction in them is a step of `Lifecycle`; `queued` collects the
    teardown requests and `rollbacks` the snapshot rollbacks handed to workers. */
module PoolManager {
  import opened Common
  import opened VMStore
  import opened Lifecycle
  import Ledger
  import Accounting
  import Eviction
  import NoDoubleSpend
  import Parking
  import Sorting

  function StatesOf(rows: Rows): States { map id | id in rows :: rows[id].state }

  /** The row as it enters a state; its age is not reset. */
  function Entered(row: VM, to: State, now: nat): VM { row.(state := to, stateSince := now, updatedAt := now) }

  /** 90 seconds, in the model's time unit of seconds. */
  const PARKED_RESERVATION_TTL: nat := 90

  predicate Older(a: VM, b: VM) { a.createdAt < b.createdAt }

  /** The rows of a listing, oldest first. */
  function ByAge(listing: seq<VM>): seq<VM> { Sorting.StableSort(Older, listing) }

  predicate ListedIn(rows: seq<VM>, v: int) { exists i :: 0 <= i < |rows| && rows[i].vmid == v }

  /** It holds the listed rows and no others, and an older row is never behind a younger. */
  lemma ByAgeSpec(listing: seq<VM>)
    ensures multiset(ByAge(listing)) == multiset(listing)
    ensures forall i, j :: 0 <= i < j < |ByAge(listing)| ==> ByAge(listing)[i].createdAt <= ByAge(listing)[j].createdAt
  {
    if listing != [] {
      hide Sorting.StableSort, Sorting.RankedWith;
      Sorting.StableSortSpec(Older, listing, listing[0]);
    }
  }

  lemma ByAgeHolds(listing: seq<VM>)
    ensures forall i :: 0 <= i < |listing| ==> exists j :: 0 <= j < |ByAge(listing)| && ByAge(listing)[j] == listing[i]
  {
    hide Sorting.StableSort;
    ByAgeSpec(listing);
    forall i | 0 <= i < |listing| ensures exists j :: 0 <= j < |ByAge(listing)| && ByAge(listing)[j] == listing[i] {
      assert listing[i] in multiset(listing);
      assert listing[i] in multiset(ByAge(listing));
      var j :| 0 <= j < |ByAge(listing)| && ByAge(listing)[j] == listing[i];
    }
  }

  class Manager {
    const store: Store
    const maxConcurrent: int
    const snapshotRecycle: bool
    const vmMaxAge: nat
    var queued: seq<int>
    var rollbacks: seq<int>

    constructor (store: Store, maxConcurrent: int, snapshotRecycle: bool, vmMaxAge: nat)
      ensures this.store == store && this.maxConcurrent == maxConcurrent && queued == [] && rollbacks == []
      ensures this.snapshotRecycle == snapshotRecycle && this.vmMaxAge == vmMaxAge
    {
      this.store, this.maxConcurrent, this.snapshotRecycle, this.vmMaxAge :=
        store, maxConcurrent, snapshotRecycle, vmMaxAge;
      queued, rollbacks := [], [];
    }

    method MarkRunning(vmid: int, runnerId: int, now: nat)
      requires store.Valid()
      modifies store
      ensures store.Valid() &&
        StatesOf(store.rows) == NextStates(StatesOf(old(store.rows)), Guarded(Lifecycle.MarkRunning, vmid))
      ensures store.rows ==
        if vmid in old(store.rows) && old(store.rows)[vmid].state == Assigned
        then old(store.rows)[vmid := Entered(old(store.rows)[vmid], Running, now).(runnerId := runnerId)]
        else old(store.rows)
    {
      var o := store.UpdateState(vmid, Assigned, Running, (v: VM) => v.(runnerId := runnerId), now);
    }

    method PromoteToRunning(vmid: int, runnerId: int, jobId: int, now: nat)
      requires store.Valid()
      modifies store
      ensures store.Valid() &&
        StatesOf(store.rows) == NextStates(StatesOf(old(store.rows)), Guarded(Lifecycle.PromoteToRunning, vmid))
      ensures
        var was := old(store.rows);
        if vmid in was && (was[vmid].state == Assigned || was[vmid].state == Hot) then
          var job := if jobId != 0 then jobId else was[vmid].jobId;
          store.rows == was[vmid := Entered(was[vmid], Running, now).(runnerId := runnerId, jobId := job)]
        else store.rows == was
    {
      var o := store.UpdateStateIn(vmid, {Assigned, Hot}, Running,
                                   (v: VM) => v.(runnerId := runnerId,
                                                 jobId := if jobId != 0 then jobId else v.jobId), now);
    }

    method ForceDestroy(vmid: int, now: nat)
      requires store.Valid()
      modifies this`queued, store
      ensures store.Valid() &&
        StatesOf(store.rows) == NextStates(StatesOf(old(store.rows)), Guarded(Lifecycle.ForceDestroy, vmid))
      ensures
        var was := old(store.rows);
        if vmid in was && was[vmid].state != Draining && was[vmid].state != Destroying
        then store.rows == was[vmid := Entered(was[vmid], Draining, now)] && queued == old(queued) + [vmid]
        else store.rows == was && queued == old(queued)
    {
      var o := store.UpdateStateIn(vmid, {Provisioning, Warm, Booting, Hot, Assigned, Running, Recycling, Poison},
                                   Draining, (v: VM) => v, now);
      if o == Applied {
        queued := queued + [vmid];
      }
    }

    /** Refuses unless the row is Assigned. `seen` is the row as read beforehand; `None` is a
        missing one. */
    method Preempt(vmid: int, seen: Option<VM>, now: nat) returns (refused: bool)
      requires store.Valid()
      modifies this`queued, store
      ensures store.Valid()
      ensures !refused <==>
        && seen.Some? && seen.value.state == Assigned
        && vmid in old(store.rows) && old(store.rows)[vmid].state == Assigned
      ensures refused ==> store.rows == old(store.rows) && queued == old(queued)
      ensures !refused ==>
        StatesOf(store.rows) == NextStates(StatesOf(old(store.rows)), Guarded(Lifecycle.Preempt, vmid))
      ensures !refused ==> store.rows == old(store.rows)[vmid := Entered(old(store.rows)[vmid], Draining, now)]
      ensures !refused ==> queued == old(queued) + [vmid]
    {
      if seen.None? || seen.value.state != Assigned {
        return true;
      }
      var o := store.UpdateState(vmid, Assigned, Draining, (v: VM) => v.(stateSince := now), now);
      if o != Applied {
        return true;
      }
      queued := queued + [vmid];
      refused := false;
    }

    /** Rolled back rather than destroyed: only in recycle mode, with a snapshot, under age. */
    predicate ShouldRecycle(row: VM, now: nat) {
      snapshotRecycle && row.hasRecycleSnapshot && (vmMaxAge == 0 || now - row.createdAt < vmMaxAge)
    }

    /** Acts on a row seen busy and still busy at the transaction. It goes to Recycling and to a
        rollback if VMs are recycled at all, this one carries the snapshot and is not too old;
        otherwise to Draining and into the destroy queue. */
    method MarkCompleted(vmid: int, seen: Option<VM>, now: nat)
      requires store.Valid()
      modifies this`queued, this`rollbacks, store
      ensures store.Valid()
      ensures
        var was := old(store.rows);
        var acts := && seen.Some? && (seen.value.state == Assigned || seen.value.state == Running)
                    && vmid in was && (was[vmid].state == Assigned || was[vmid].state == Running);
        var recycles := acts && snapshotRecycle && seen.value.hasRecycleSnapshot
                        && (vmMaxAge == 0 || now < seen.value.createdAt + vmMaxAge);
        && store.rows
           == (if !acts then was else was[vmid := Entered(was[vmid], if recycles then Recycling else Draining, now)])
        && rollbacks == old(rollbacks) + (if recycles then [vmid] else [])
        && queued == old(queued) + (if acts && !recycles then [vmid] else [])
        && (acts ==>
              var op := if recycles then CompleteToRecycle else CompleteToDestroy;
              StatesOf(store.rows) == NextStates(StatesOf(was), Guarded(op, vmid)))
    {
      if seen.None? || !IsBusy(seen.value.state) {
        return;
      }
      if ShouldRecycle(seen.value, now) {
        var o := store.UpdateStateIn(vmid, {Assigned, Running}, Recycling, (v: VM) => v.(stateSince := now), now);
        if o == Applied {
          rollbacks := rollbacks + [vmid];
        }
        return;
      }
      var o := store.UpdateStateIn(vmid, {Assigned, Running}, Draining, (v: VM) => v.(stateSince := now), now);
      if o != Applied {
        return;
      }
      queued := queued + [vmid];
    }

    /** The end of a rollback worker: back to Warm, or on to destruction, only if the row is
        still Recycling. */
    method FinishRollback(vmid: int, rolledBack: bool, now: nat)
      requires store.Valid()
      modifies this`queued, store
      ensures store.Valid()
      ensures StatesOf(store.rows)
        == NextStates(StatesOf(old(store.rows)), Guarded(if rolledBack then RollbackDone else RollbackFailed, vmid))
      ensures
        var was := old(store.rows);
        if !(vmid in was && was[vmid].state == Recycling) then store.rows == was && queued == old(queued)
        else if rolledBack then
          var kept :=
            was[vmid].(poolKind := WarmPool, recycleCount := was[vmid].recycleCount + 1, hasRecycleSnapshot := true);
          store.rows == was[vmid := Entered(kept, Warm, now)] && queued == old(queued)
        else store.rows == was[vmid := Entered(was[vmid], Draining, now)] && queued == old(queued) + [vmid]
    {
      if !rolledBack {
        var o := store.UpdateState(vmid, Recycling, Draining, (v: VM) => v.(stateSince := now), now);
        if o == Applied {
          queued := queued + [vmid];
        }
        return;
      }
      var o := store.UpdateState(vmid, Recycling, Warm,
                                 (v: VM) => v.(poolKind := WarmPool, recycleCount := v.recycleCount + 1,
                                               stateSince := now, hasRecycleSnapshot := true), now);
    }

    /** What every reclaiming loop may do: drain the listed rows that were in `from`, and
        queue each of them once. */
    ghost predicate Reclaimed(was: States, after: States, from: State, killed: seq<int>) {
      && after.Keys == was.Keys
      && (forall v :: v in killed ==> v in was && was[v] == from && after[v] == Draining)
      && (forall v :: v in was && v !in killed ==> after[v] == was[v])
      && (forall i, j :: 0 <= i < j < |killed| ==> killed[i] != killed[j])
    }

    /** shrinkHotPool and shrinkWarmPool: drains rows of a possibly stale listing, oldest first
        and skipping those that changed state since, until the excess is gone. Of the `k`
        oldest rows none is left in `from`; no row behind them is touched. */
    method Shrink(from: State, listing: seq<VM>, excess: nat, now: nat) returns (killed: seq<int>, ghost k: nat)
      requires store.Valid() && (from == Hot || from == Warm)
      modifies this`queued, store
      ensures store.Valid() && Reclaimed(StatesOf(old(store.rows)), StatesOf(store.rows), from, killed)
      ensures queued == old(queued) + killed && |killed| <= excess
      ensures k <= |ByAge(listing)| && (|killed| < excess ==> k == |ByAge(listing)|)
      ensures forall v :: v in killed ==> ListedIn(ByAge(listing)[..k], v)
      ensures forall j :: 0 <= j < k ==> !InState(StatesOf(store.rows), ByAge(listing)[j].vmid, from)
    {
      hide StatesOf, ByAge;
      killed, k := [], 0;
      var rows := ByAge(listing);
      for i := 0 to |rows|
        invariant store.Valid() && |killed| <= excess && k <= i && (|killed| < excess ==> k == i)
        invariant Reclaimed(StatesOf(old(store.rows)), StatesOf(store.rows), from, killed)
        invariant queued == old(queued) + killed
        invariant forall v :: v in killed ==> ListedIn(rows[..k], v)
        invariant forall j :: 0 <= j < k ==> !InState(StatesOf(store.rows), rows[j].vmid, from)
      {
        if |killed| >= excess {
          break;
        }
        assert rows[..i + 1] == rows[..i] + [rows[i]];
        var o := Drain(rows[i].vmid, from, now);
        k := i + 1;
        if o {
          killed := killed + [rows[i].vmid];
          queued := queued + [rows[i].vmid];
        }
      }
    }

    /** The hot pool is over target when it has more rows than its size and than the demand not
        yet served by busy rows; only what is over is drained. */
    method ShrinkHotPool(listing: seq<VM>, current: nat, hotSize: nat, desired: int, busy: nat, now: nat)
      returns (killed: seq<int>)
      requires store.Valid()
      modifies this`queued, store
      ensures store.Valid() && Reclaimed(StatesOf(old(store.rows)), StatesOf(store.rows), Hot, killed)
      ensures queued == old(queued) + killed
      ensures killed == [] || (current - |killed| >= hotSize && current - |killed| >= desired - busy)
      ensures current - |killed| > hotSize && current - |killed| > desired - busy ==>
        forall i :: 0 <= i < |listing| ==> !InState(StatesOf(store.rows), listing[i].vmid, Hot)
    {
      hide StatesOf, ByAge;
      killed := [];
      var target: int := hotSize;
      if desired - busy > target {
        target := desired - busy;
      }
      if current <= target {
        return;
      }
      ghost var k;
      killed, k := Shrink(Hot, listing, current - target, now);
      ByAgeHolds(listing);
    }

    method ShrinkWarmPool(listing: seq<VM>, current: nat, warmSize: nat, now: nat) returns (killed: seq<int>)
      requires store.Valid()
      modifies this`queued, store
      ensures store.Valid() && Reclaimed(StatesOf(old(store.rows)), StatesOf(store.rows), Warm, killed)
      ensures queued == old(queued) + killed
      ensures killed == [] || current - |killed| >= warmSize
      ensures current - |killed| > warmSize ==>
        forall i :: 0 <= i < |listing| ==> !InState(StatesOf(store.rows), listing[i].vmid, Warm)
    {
      hide StatesOf, ByAge;
      killed := [];
      if current <= warmSize {
        return;
      }
      ghost var k;
      killed, k := Shrink(Warm, listing, current - warmSize, now);
      ByAgeHolds(listing);
    }

    static predicate InState(st: States, v: int, s: State) { v in st && st[v] == s }

    /** recycleOldVMs: drains the rows of a possibly stale listing that are too old, each if
        and only if it is still in the idle state it was listed in. */
    method RecycleOldVMs(listing: seq<VM>, now: nat) returns (killed: seq<int>)
      requires store.Valid()
      requires forall i :: 0 <= i < |listing| ==> listing[i].state == Hot || listing[i].state == Warm
      modifies this`queued, store
      ensures store.Valid() && queued == old(queued) + killed
      ensures vmMaxAge == 0 ==> killed == []
      ensures
        var was, after := StatesOf(old(store.rows)), StatesOf(store.rows);
        && after.Keys == was.Keys
        && (forall v :: v in killed ==> v in was && (was[v] == Hot || was[v] == Warm) && after[v] == Draining)
        && (forall v :: v in was && v !in killed ==> after[v] == was[v])
        && (forall i, j :: 0 <= i < j < |killed| ==> killed[i] != killed[j])
      ensures forall v :: v in killed ==>
        exists i :: 0 <= i < |listing| && listing[i].vmid == v && listing[i].createdAt < now - vmMaxAge
      ensures forall i :: 0 <= i < |listing| && vmMaxAge > 0 && listing[i].createdAt < now - vmMaxAge ==>
        !InState(StatesOf(store.rows), listing[i].vmid, listing[i].state)
    {
      hide StatesOf;
      killed := [];
      if vmMaxAge == 0 {
        return;
      }
      for i := 0 to |listing|
        invariant store.Valid() && queued == old(queued) + killed
        invariant StatesOf(store.rows).Keys == StatesOf(old(store.rows)).Keys
        invariant forall v :: v in killed ==>
          v in StatesOf(old(store.rows)) &&
          (StatesOf(old(store.rows))[v] == Hot || StatesOf(old(store.rows))[v] == Warm) &&
          StatesOf(store.rows)[v] == Draining
        invariant forall v :: v in StatesOf(old(store.rows)) && v !in killed ==>
          StatesOf(store.rows)[v] == StatesOf(old(store.rows))[v]
        invariant forall a, b :: 0 <= a < b < |killed| ==> killed[a] != killed[b]
        invariant forall v :: v in killed ==>
          exists k :: 0 <= k < i && listing[k].vmid == v && listing[k].createdAt < now - vmMaxAge
        invariant forall k :: 0 <= k < i && listing[k].createdAt < now - vmMaxAge ==>
          !InState(StatesOf(store.rows), listing[k].vmid, listing[k].state)
      {
        if listing[i].createdAt < now - vmMaxAge {
          var o := Drain(listing[i].vmid, listing[i].state, now);
          if o {
            killed := killed + [listing[i].vmid];
            queued := queued + [listing[i].vmid];
          }
        }
      }
    }

    /** promoteN: starts booting the `n` oldest listed rows, as far as they are still Warm and
        boot slots last. A slot is taken before the row is flipped and given back if the flip
        is lost. */
    method PromoteN(listing: seq<VM>, n: nat, slots: nat, now: nat) returns (booted: seq<int>)
      requires store.Valid()
      modifies store
      ensures store.Valid() && |booted| <= n && |booted| <= slots
      ensures
        var was, after := StatesOf(old(store.rows)), StatesOf(store.rows);
        && after.Keys == was.Keys
        && (forall v :: v in booted ==> v in was && was[v] == Warm && after[v] == Booting)
        && (forall v :: v in was && v !in booted ==> after[v] == was[v])
      ensures
        var oldest := ByAge(listing)[..Min(n, |ByAge(listing)|)];
        && (forall v :: v in booted ==> ListedIn(oldest, v))
        && (|booted| < slots ==> forall j :: 0 <= j < |oldest| ==> !InState(StatesOf(store.rows), oldest[j].vmid, Warm))
    {
      hide StatesOf, ByAge;
      booted := [];
      var warms := ByAge(listing);
      if n < |warms| {
        warms := warms[..n];
      }
      for i := 0 to |warms|
        invariant store.Valid() && |booted| <= i && |booted| <= slots
        invariant StatesOf(store.rows).Keys == StatesOf(old(store.rows)).Keys
        invariant forall v :: v in booted ==>
          v in StatesOf(old(store.rows)) && StatesOf(old(store.rows))[v] == Warm && StatesOf(store.rows)[v] == Booting
        invariant forall v :: v in StatesOf(old(store.rows)) && v !in booted ==>
          StatesOf(store.rows)[v] == StatesOf(old(store.rows))[v]
        invariant forall v :: v in booted ==> ListedIn(warms, v)
        invariant |booted| < slots ==> forall j :: 0 <= j < i ==> !InState(StatesOf(store.rows), warms[j].vmid, Warm)
      {
        if |booted| < slots {
          var ok := Boot(warms[i].vmid, now);
          if ok {
            booted := booted + [warms[i].vmid];
          }
        }
      }
    }

    method Boot(vmid: int, now: nat) returns (ok: bool)
      requires store.Valid()
      modifies store
      ensures store.Valid() && (ok <==> InState(StatesOf(old(store.rows)), vmid, Warm))
      ensures StatesOf(store.rows) == NextStates(StatesOf(old(store.rows)), Guarded(PromoteWarm, vmid))
      ensures store.rows ==
        if ok then old(store.rows)[vmid := Entered(old(store.rows)[vmid], Booting, now).(poolKind := HotPool)]
        else old(store.rows)
    {
      var o := store.UpdateState(vmid, Warm, Booting, (v: VM) => v.(poolKind := HotPool), now);
      ok := o == Applied;
    }

    /** The reclaiming operations that drain a row of this state. */
    static predicate Drains(op: Op, from: State) {
      || (op == ShrinkHot && from == Hot) || (op == ShrinkWarm && from == Warm)
      || op == RecycleOld(from) || (op == Evict(true) && from == Warm) || (op == Evict(false) && from == Hot)
    }

    /** One compare-and-set to Draining. */
    method Drain(vmid: int, from: State, now: nat) returns (ok: bool)
      requires store.Valid()
      modifies store
      ensures store.Valid()
      ensures ok <==> vmid in StatesOf(old(store.rows)) && StatesOf(old(store.rows))[vmid] == from
      ensures StatesOf(store.rows)
        == if ok then StatesOf(old(store.rows))[vmid := Draining] else StatesOf(old(store.rows))
      ensures forall op :: Drains(op, from) ==>
        StatesOf(store.rows) == NextStates(StatesOf(old(store.rows)), Guarded(op, vmid))
    {
      var o := store.UpdateState(vmid, from, Draining, (v: VM) => v.(stateSince := now), now);
      ok := o == Applied;
    }

    method Acquire(jobId: int, maxBusy: int, now: nat) returns (a: Acquisition)
      requires store.Valid()
      modifies store
      ensures store.Valid()
      ensures a.Claimed? ==>
        a.vm.vmid in HotIds(old(store.rows), "") && store.rows == old(store.rows)[a.vm.vmid := a.vm] &&
        a.vm.state == Assigned
      ensures a.Claimed? <==> HotIds(old(store.rows), "") != {} && |BusyIds(old(store.rows), "")| < Cap(maxBusy)
      ensures !a.Claimed? ==> store.rows == old(store.rows)
      ensures a.Claimed? ==>
        StatesOf(store.rows)
          == NextStates(StatesOf(old(store.rows)), Lifecycle.Acquire(a.vm.vmid, maxConcurrent, maxBusy))
    {
      a := store.AcquireHotInProfile("", jobId, maxConcurrent, maxBusy, now);
      assert Busy(StatesOf(old(store.rows))) == BusyIds(old(store.rows), "");
    }

    function Cap(maxBusy: int): int { if maxBusy > 0 then Min(maxConcurrent, maxBusy) else maxConcurrent }

    /** Claims hot VMs one by one until enough are claimed or the pool refuses. The number
        claimed is exact: it is limited by the need, by the hot rows there are, and by what
        is left under the caps. */
    method PreAcquireVMs(need: nat, count: int, now: nat) returns (vms: seq<VM>)
      requires store.Valid() && count > 0
      modifies store
      ensures store.Valid()
      ensures |vms|
        == Min(need, Min(|HotIds(old(store.rows), "")|, Max(0, Cap(count) - |BusyIds(old(store.rows), "")|)))
      ensures |BusyIds(store.rows, "")| == |BusyIds(old(store.rows), "")| + |vms|
      ensures |BusyIds(store.rows, "")| <= Max(|BusyIds(old(store.rows), "")|, count)
    {
      hide BusyIds, HotIds;
      vms := [];
      ghost var busy0, hot0 := |BusyIds(store.rows, "")|, |HotIds(store.rows, "")|;
      while |vms| < need
        invariant store.Valid() && |vms| <= need
        invariant |BusyIds(store.rows, "")| == busy0 + |vms| && |HotIds(store.rows, "")| == hot0 - |vms|
        invariant |vms| > 0 ==> busy0 + |vms| <= Cap(count)
        decreases need - |vms|
      {
        ghost var rows := store.rows;
        var a := Acquire(0, count, now);
        if !a.Claimed? {
          assert HotIds(rows, "") == {} || busy0 + |vms| >= Cap(count);
          break;
        }
        ClaimCounts(rows, a.vm.vmid, a.vm);
        vms := vms + [a.vm];
      }
    }

    /** GitHub wants `count` runners in all: acquires what is missing. With the row counts at
        hand, a repeated message acquires nothing more. */
    method HandleDesiredRunnerCount(count: int, statsOk: bool, now: nat) returns (vms: seq<VM>)
      requires store.Valid()
      modifies store
      ensures store.Valid()
      ensures |BusyIds(store.rows, "")| == |BusyIds(old(store.rows), "")| + |vms|
      ensures |BusyIds(store.rows, "")| <= Max(|BusyIds(old(store.rows), "")|, count)
      ensures count <= |BusyIds(old(store.rows), "")| ==> vms == []
      ensures count > 0 ==>
        |vms| == Min(|HotIds(old(store.rows), "")|, Max(0, Cap(count) - |BusyIds(old(store.rows), "")|))
    {
      hide BusyIds, HotIds;
      vms := [];
      if count <= 0 {
        return;
      }
      var busy := 0;
      if statsOk {
        busy := store.CountBusy("");
      }
      var need := count - busy;
      if need <= 0 {
        return;
      }
      vms := PreAcquireVMs(need, count, now);
    }
  }

  lemma ClaimCounts(rows: Rows, v: int, vm: VM)
    requires v in HotIds(rows, "") && vm.state == Assigned
    ensures |BusyIds(rows[v := vm], "")| == |BusyIds(rows, "")| + 1
    ensures |HotIds(rows[v := vm], "")| == |HotIds(rows, "")| - 1
  {
    assert BusyIds(rows[v := vm], "") == BusyIds(rows, "") + {v};
    assert HotIds(rows[v := vm], "") == HotIds(rows, "") - {v};
  }

  // ------------------------------------------------------------------
  // Starting an eviction
  // ------------------------------------------------------------------

  /** Drains the victims in order until one has changed state since the plan was made. */
  method CommitVictims(m: Manager, victims: seq<Eviction.Candidate>, now: nat) returns (n: nat)
    requires m.store.Valid()
    modifies m.store
    ensures m.store.Valid() && n <= |victims|
    ensures StatesOf(m.store.rows) == AfterCommit(StatesOf(old(m.store.rows)), victims[..n])
    ensures Committable(StatesOf(old(m.store.rows)), victims[..n])
    ensures n < |victims| ==> !Committable(StatesOf(old(m.store.rows)), victims[..n + 1])
  {
    hide StatesOf;
    n := 0;
    while n < |victims|
      invariant m.store.Valid() && n <= |victims|
      invariant StatesOf(m.store.rows) == AfterCommit(StatesOf(old(m.store.rows)), victims[..n])
      invariant Committable(StatesOf(old(m.store.rows)), victims[..n])
    {
      assert victims[..n + 1][..n] == victims[..n];
      var ok := m.Drain(victims[n].vmid, if victims[n].preferred then Warm else Hot, now);
      if !ok {
        return;
      }
      n := n + 1;
    }
  }

  function IdleState(c: Eviction.Candidate): State { if c.preferred then Warm else Hot }

  function AfterCommit(st: States, victims: seq<Eviction.Candidate>): States {
    if victims == [] then st else AfterCommit(st, victims[..|victims| - 1])[victims[|victims| - 1].vmid := Draining]
  }

  /** Every victim is still in the idle state it was planned in when its turn comes. */
  predicate Committable(st: States, victims: seq<Eviction.Candidate>) {
    victims == [] ||
    (var init, last := victims[..|victims| - 1], victims[|victims| - 1];
     Committable(st, init) && last.vmid in AfterCommit(st, init) && AfterCommit(st, init)[last.vmid] == IdleState(last))
  }

  /** Committed victims are distinct, as the ledger demands of a freeing list: a row is
      drained only once. */
  lemma {:induction false} CommittedVictimsDistinct(st: States, victims: seq<Eviction.Candidate>)
    requires Committable(st, victims)
    ensures NoDoubleSpend.Distinct(Eviction.Vmids(victims))
    ensures forall v :: v in Eviction.Vmids(victims) ==>
      v in AfterCommit(st, victims) && AfterCommit(st, victims)[v] == Draining
  {
    if victims != [] {
      var init, last := victims[..|victims| - 1], victims[|victims| - 1];
      CommittedVictimsDistinct(st, init);
      assert last.vmid !in Eviction.Vmids(init);
    }
  }

  /** In states: each committed victim was Warm if preferred and Hot if not, all of them are
      Draining afterwards, and no other row has changed. */
  lemma {:induction false} CommittedExactly(st: States, victims: seq<Eviction.Candidate>)
    requires Committable(st, victims)
    ensures AfterCommit(st, victims).Keys == st.Keys
    ensures forall i :: 0 <= i < |victims| ==>
      victims[i].vmid in st && st[victims[i].vmid] == (if victims[i].preferred then Warm else Hot)
    ensures forall v :: v in st ==>
      AfterCommit(st, victims)[v] == if v in Eviction.Vmids(victims) then Draining else st[v]
  {
    if victims != [] {
      var init, last := victims[..|victims| - 1], victims[|victims| - 1];
      CommittedExactly(st, init);
      assert victims == init + [last];
      assert last.vmid !in Eviction.Vmids(init);
    }
  }

  /** Commits a plan: drains victims, reserves what they release, parks the reservation for
      the profile, and queues the teardowns. The reservation is taken for exactly the victims
      that were committed; if it is refused they are destroyed all the same. */
  method StartEviction(m: Manager, acct: Accounting.Accountant, ps: Parking.ProfileState, node: string,
                       shape: Ledger.Shape, plan: Eviction.Plan, snap: Option<Ledger.Snapshot>, now: nat)
    returns (started: bool, ghost n: nat, ghost outcome: Accounting.Admission)
    requires m.store.Valid() && acct.Valid()
    modifies m`queued, m.store, acct, ps
    ensures m.store.Valid() && acct.Valid()
    ensures n <= |plan.victims| && Committable(StatesOf(old(m.store.rows)), plan.victims[..n])
    ensures n < |plan.victims| ==> !Committable(StatesOf(old(m.store.rows)), plan.victims[..n + 1])
    ensures StatesOf(m.store.rows) == AfterCommit(StatesOf(old(m.store.rows)), plan.victims[..n])
    ensures m.queued == old(m.queued) + Eviction.Vmids(plan.victims[..n])
    ensures started <==> n > 0
    ensures !started ==> acct.res == old(acct.res) && ps.evicted == old(ps.evicted)
    ensures started ==>
      acct.Reserved(old(acct.res), old(acct.nextRes), outcome, snap, node, shape, Eviction.Vmids(plan.victims[..n]),
                    now)
    ensures started ==>
      ps.evicted == old(ps.evicted) +
        if outcome.Granted? then [Parking.Parked(node, outcome.id, now + PARKED_RESERVATION_TTL)] else []
  {
    hide StatesOf, AfterCommit, Committable, Ledger.FitsOn, Ledger.Swept;
    var committed := CommitVictims(m, plan.victims, now);
    n := committed;
    outcome := Accounting.Refused;
    var vmids := VmidsOf(plan.victims, committed);
    if committed == 0 {
      return false, n, outcome;
    }
    var a := acct.ReserveFreeing(snap, node, shape, vmids, now);
    outcome := a;
    if a.Granted? {
      ps.ParkEvicted(node, a.id, now, PARKED_RESERVATION_TTL);
    }
    m.queued := m.queued + vmids;
    started := true;
  }

  method VmidsOf(victims: seq<Eviction.Candidate>, n: nat) returns (vmids: seq<int>)
    requires n <= |victims|
    ensures vmids == Eviction.Vmids(victims[..n])
  {
    vmids := [];
    for i := 0 to n
      invariant vmids == Eviction.Vmids(victims[..i])
    {
      assert victims[..i + 1][..i] == victims[..i];
      vmids := vmids + [victims[i].vmid];
    }
  }
}
