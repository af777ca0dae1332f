/** The accountant object of internal/nodecap. Every operation is one critical section over
    the reservation table; the cluster snapshot and the clock reading it uses are arguments.
    `None` for the snapshot means the cluster was never read successfully. */
module Accounting {
  import opened Common
  import opened Sums
  import opened Ledger

  datatype Admission = NoSnapshot | Refused | Granted(id: nat)

  class Accountant {
    const opts: Options
    var res: Reservations
    var nextRes: nat

    ghost predicate Valid()
      reads this
    {
      forall id :: id in res ==> id <= nextRes
    }

    constructor (opts: Options)
      ensures Valid() && this.opts == opts && res == map[] && nextRes == 0
    {
      this.opts := opts;
      res, nextRes := map[], 0;
    }

    /** Per-node state, net of the host reserve and every outstanding reservation. */
    method SnapshotStates(snap: Option<Snapshot>, now: nat) returns (out: Option<map<string, NodeState>>)
      requires Valid()
      modifies this
      ensures Valid() && nextRes == old(nextRes)
      ensures snap.None? ==> out.None? && res == old(res)
      ensures snap.Some? ==>
        && res == Swept(old(res), snap.value, now)
        && out.Some? && out.value.Keys == snap.value.nodes.Keys
        && forall n :: n in out.value ==> out.value[n] == StateOf(opts, snap.value, res, n)
    {
      if snap.None? {
        return None;
      }
      SweepLocked(snap.value, now);
      var states: map<string, NodeState> := map[];
      var left := snap.value.nodes.Keys;
      while left != {}
        invariant Valid() && nextRes == old(nextRes) && res == Swept(old(res), snap.value, now)
        invariant left <= snap.value.nodes.Keys
        invariant states.Keys == snap.value.nodes.Keys - left
        invariant forall n :: n in states ==> states[n] == StateOf(opts, snap.value, res, n)
        decreases left
      {
        var node := PickAny(left);
        var st := StateLocked(snap.value, node);
        states := states[node := st];
        left := left - {node};
      }
      out := Some(states);
    }

    /** Whether the shape would be admitted on each candidate right now. */
    method Fits(snap: Option<Snapshot>, shape: Shape, candidates: seq<string>, now: nat)
      returns (out: Option<map<string, bool>>)
      requires Valid()
      modifies this
      ensures Valid() && nextRes == old(nextRes)
      ensures snap.None? ==> out.None? && res == old(res)
      ensures snap.Some? ==>
        && res == Swept(old(res), snap.value, now)
        && out.Some? && out.value.Keys == (set c | c in candidates)
        && forall n :: n in out.value ==> out.value[n] == FitsOn(opts, snap.value, res, n, shape, [])
    {
      if snap.None? {
        return None;
      }
      SweepLocked(snap.value, now);
      var fits: map<string, bool> := map[];
      for i := 0 to |candidates|
        invariant Valid() && nextRes == old(nextRes) && res == Swept(old(res), snap.value, now)
        invariant fits.Keys == set c | c in candidates[..i]
        invariant forall n :: n in fits ==> fits[n] == FitsOn(opts, snap.value, res, n, shape, [])
      {
        var ok := FitsLocked(snap.value, candidates[i], shape, []);
        fits := fits[candidates[i] := ok];
        assert candidates[..i + 1] == candidates[..i] + [candidates[i]];
      }
      assert candidates[..|candidates|] == candidates;
      out := Some(fits);
    }

    method Reserve(snap: Option<Snapshot>, node: string, shape: Shape, now: nat) returns (a: Admission)
      requires Valid()
      modifies this
      ensures Valid()
      ensures Reserved(old(res), old(nextRes), a, snap, node, shape, [], now)
    {
      a := ReserveFreeing(snap, node, shape, [], now);
    }

    /** What a reservation attempt leaves behind: the swept table, plus a new claim exactly
        when the shape fits with the victims' allocations credited. */
    ghost predicate Reserved(was: Reservations, last: nat, a: Admission, snap: Option<Snapshot>, node: string,
                             shape: Shape, freeing: seq<int>, now: nat)
      reads this
    {
      match snap
      case None => a == NoSnapshot && res == was && nextRes == last
      case Some(s) =>
        var swept := Swept(was, s, now);
        if FitsOn(opts, s, swept, node, shape, freeing) then
          && a == Granted(last + 1) && nextRes == last + 1 && last + 1 !in was
          && res == swept[last + 1 := Reservation(node, shape, 0, freeing, now + opts.reservationTTL)]
        else a == Refused && res == swept && nextRes == last
    }

    method ReserveFreeing(snap: Option<Snapshot>, node: string, shape: Shape, freeing: seq<int>, now: nat)
      returns (a: Admission)
      requires Valid()
      modifies this
      ensures Valid()
      ensures Reserved(old(res), old(nextRes), a, snap, node, shape, freeing, now)
    {
      hide FitsOn;
      if snap.None? {
        return NoSnapshot;
      }
      SweepLocked(snap.value, now);
      var ok := FitsLocked(snap.value, node, shape, freeing);
      if !ok {
        return Refused;
      }
      nextRes := nextRes + 1;
      res := res[nextRes := Reservation(node, shape, 0, freeing, now + opts.reservationTTL)];
      a := Granted(nextRes);
    }

    /** A reservation that is no longer in the table is bound without effect on the table. */
    method Bind(id: nat, vmid: int)
      requires Valid()
      modifies this
      ensures Valid() && nextRes == old(nextRes)
      ensures res == if id in old(res) then old(res)[id := old(res)[id].(vmid := vmid)] else old(res)
    {
      if id in res {
        res := res[id := res[id].(vmid := vmid)];
      }
    }

    /** Idempotent: a handle released, retired or expired before has no effect. */
    method Release(id: nat)
      requires Valid()
      modifies this
      ensures Valid() && nextRes == old(nextRes)
      ensures res == old(res) - {id}
    {
      res := res - {id};
    }

    /** Retires, expires and prunes, one entry at a time. */
    method SweepLocked(snap: Snapshot, now: nat)
      requires Valid()
      modifies this
      ensures Valid() && nextRes == old(nextRes)
      ensures res == Swept(old(res), snap, now)
    {
      var left := res.Keys;
      while left != {}
        invariant left <= old(res).Keys && nextRes == old(nextRes)
        invariant res.Keys == left + Swept(old(res), snap, now).Keys
        invariant forall id :: id in left ==> res[id] == old(res)[id]
        invariant forall id :: id in res && id !in left ==> res[id] == Swept(old(res), snap, now)[id]
        decreases left
      {
        var id := PickAny(left);
        var r := res[id];
        left := left - {id};
        if Expired(r, now) {
          res := res - {id};
        } else if Retired(snap, r) {
          res := res - {id};
        } else {
          var kept := Prune(snap, r.freeing);
          res := res[id := r.(freeing := kept)];
        }
      }
    }

    static method Prune(snap: Snapshot, freeing: seq<int>) returns (kept: seq<int>)
      ensures kept == StillSeen(snap, freeing)
    {
      kept := [];
      for i := 0 to |freeing|
        invariant kept == StillSeen(snap, freeing[..i])
      {
        assert freeing[..i + 1][..i] == freeing[..i];
        if freeing[i] in snap.guestMem {
          kept := kept + [freeing[i]];
        }
      }
      assert freeing[..|freeing|] == freeing;
    }

    static method CreditOf(d: Resource, snap: Snapshot, freeing: seq<int>) returns (credit: nat)
      ensures credit == Credit(d, snap, freeing)
    {
      credit := 0;
      for i := 0 to |freeing|
        invariant credit == Credit(d, snap, freeing[..i])
      {
        assert freeing[..i + 1][..i] == freeing[..i];
        credit := credit + snap.Observed(d, freeing[i]);
      }
      assert freeing[..|freeing|] == freeing;
    }

    method FitsLocked(snap: Snapshot, node: string, shape: Shape, extraFreeing: seq<int>) returns (fits: bool)
      ensures fits == FitsOn(opts, snap, res, node, shape, extraFreeing)
    {
      hide Committed, Credit;
      if node !in snap.nodes {
        return false;
      }
      var st := StateLocked(snap, node);
      var credit := CreditOf(Memory, snap, extraFreeing);
      if shape.memoryBytes > st.availableBytes + credit {
        return false;
      }
      if opts.Gated() {
        var vcpuCredit := CreditOf(VCPU, snap, extraFreeing);
        if st.committedVCPU - vcpuCredit + shape.vcpus > opts.VcpuLimit(snap.nodes[node].cores) {
          return false;
        }
      }
      return true;
    }

    /** The sum of the reservation terms of one node, in whatever order the table yields. */
    method Delta(d: Resource, snap: Snapshot, node: string) returns (delta: int)
      ensures delta == Sum(res.Keys, Terms(d, snap, res, node))
    {
      delta := 0;
      var left := res.Keys;
      ghost var f := Terms(d, snap, res, node);
      assert res.Keys - left == {};
      while left != {}
        invariant left <= res.Keys
        invariant delta == Sum(res.Keys - left, f)
        decreases left
      {
        hide Sum;
        var id := PickAny(left);
        var r := res[id];
        SumAdd(res.Keys - left, f, id);
        assert res.Keys - left + {id} == res.Keys - (left - {id});
        left := left - {id};
        if r.node == node {
          var observed := if r.vmid != 0 then snap.Observed(d, r.vmid) else 0;
          if r.shape.Claim(d) > observed {
            delta := delta + r.shape.Claim(d) - observed;
          }
          var credit := CreditOf(d, snap, r.freeing);
          delta := delta - credit;
        }
      }
      assert res.Keys - left == res.Keys;
    }

    method StateLocked(snap: Snapshot, node: string) returns (st: NodeState)
      requires node in snap.nodes
      ensures st == StateOf(opts, snap, res, node)
    {
      hide Sum;
      var totals := snap.nodes[node];
      var delta := Delta(Memory, snap, node);
      var deltaVCPU := Delta(VCPU, snap, node);
      var committed := AddClamped(totals.guestMem, delta);
      var committedVCPU := totals.guestVCPU + deltaVCPU;
      if committedVCPU < 0 {
        committedVCPU := 0;
      }
      var reserve := opts.ReserveFor(totals.memBytes);
      var usable, available := SaturatingSub(totals.memBytes, reserve), 0;
      if usable > committed {
        available := usable - committed;
      }
      var limit, availableVCPU := 0, 0;
      if opts.Gated() {
        limit := opts.VcpuLimit(totals.cores);
        if limit > committedVCPU {
          availableVCPU := limit - committedVCPU;
        }
      }
      st := NodeState(totals.memBytes, reserve, committed, available, opts.Gated(), limit, committedVCPU,
                      availableVCPU);
    }
  }
}

/** The object and the runs of `HeldReads` and `NoDoubleSpend` are one machine. */
module AccountantRuns {
  import opened Common
  import opened Ledger
  import opened Accounting
  import opened NoDoubleSpend
  import opened HeldReads

  ghost predicate Tracks(a: Accountant, site: Site, w: World)
    reads a
  {
    a.Valid() && a.opts == site.opts && a.res == w.res && a.nextRes == w.last
  }

  /** Performing an event's operation on the object, with whatever snapshot it has read, moves
      the object as `ApplyHeld` moves the world; the cluster's own events do not touch it. With
      the current snapshot that is `Apply`. */
  method Perform(a: Accountant, ghost site: Site, ghost w: World, e: Event, ghost view: Guests, snap: Snapshot)
    returns (granted: bool)
    requires Tracks(a, site, w) && Enabled(site, w, e) && snap == SnapshotOf(site.nodes, view)
    modifies a
    ensures Tracks(a, site, ApplyHeld(site, w, HeldEvent(e, view)))
    ensures granted <==> e.Reserve? && a.nextRes == old(a.nextRes) + 1
  {
    hide SnapshotOf, FitsOn, Swept;
    granted := false;
    match e
    case Reserve(node, shape, freeing, now) =>
      var outcome := a.ReserveFreeing(Some(snap), node, shape, freeing, now);
      granted := outcome.Granted?;
    case Sweep(now) => a.SweepLocked(snap, now);
    case Bind(id, vmid) => a.Bind(id, vmid);
    case Release(id) => a.Release(id);
    case Observe(_, _, _, _, _) =>
    case Vanish(_) =>
  }
}
