/** The capacity ledger of internal/nodecap as pure functions: what a snapshot of the cluster
    and the outstanding reservations say about the room left on a node. `Accountant` computes
    these functions with loops; `NoDoubleSpend` reasons about whole runs of them.

    The two gated resources follow the same arithmetic, so a `Resource` argument picks one. */
module Ledger {
  import opened Sequences
  import opened Sums

  datatype Resource = Memory | VCPU

  /** A non-negative setting: reserve fraction or overcommit ratio. */
  type Ratio = r: real | 0.0 <= r witness 0.0

  datatype Shape = Shape(memoryBytes: nat, vcpus: nat) {
    function Claim(d: Resource): nat { if d.Memory? then memoryBytes else vcpus }
  }

  /** Physical totals of a node and the sums over the guests it hosts. */
  datatype NodeTotals = NodeTotals(memBytes: nat, cores: nat, guestMem: nat, guestVCPU: nat) {
    function Guests(d: Resource): nat { if d.Memory? then guestMem else guestVCPU }
  }

  /** One read of the cluster: node totals, and the footprint of every guest by VMID. */
  datatype Snapshot = Snapshot(nodes: map<string, NodeTotals>, guestMem: map<int, nat>, guestVCPU: map<int, nat>) {
    /** A VMID the snapshot does not know has footprint 0. */
    function Observed(d: Resource, vmid: int): nat {
      var m := if d.Memory? then guestMem else guestVCPU;
      if vmid in m then m[vmid] else 0
    }
  }

  /** A claim on a node. `vmid` is 0 until the clone's VMID is bound. */
  datatype Reservation = Reservation(node: string, shape: Shape, vmid: int, freeing: seq<int>, expires: nat)

  datatype Options = Options(reserveBytes: nat, reserveFraction: Ratio, cpuOvercommit: Ratio, reservationTTL: nat) {
    predicate Gated() { cpuOvercommit > 0.0 }

    /** Host headroom: the larger of the absolute and the fractional setting. */
    function ReserveFor(total: nat): nat {
      var frac := Floor(total as real * reserveFraction);
      if frac > reserveBytes then frac else reserveBytes
    }

    function VcpuLimit(cores: nat): nat { Floor(cores as real * cpuOvercommit) }

    /** The most that may be committed of a resource. */
    function Limit(d: Resource, t: NodeTotals): nat {
      if d.Memory? then SaturatingSub(t.memBytes, ReserveFor(t.memBytes)) else VcpuLimit(t.cores)
    }
  }

  function Floor(r: Ratio): nat { r.Floor }

  function SaturatingSub(a: nat, b: nat): nat { if b > a then 0 else a - b }

  function AddClamped(base: nat, delta: int): nat {
    if delta >= 0 then base + delta else SaturatingSub(base, -delta)
  }

  datatype NodeState = NodeState(
    totalBytes: nat, reserveBytes: nat, committedBytes: nat, availableBytes: nat,
    cpuGated: bool, limitVCPU: nat, committedVCPU: nat, availableVCPU: nat)

  type Reservations = map<nat, Reservation>

  /** The part of a claim the snapshot does not show yet. */
  function Pending(d: Resource, s: Snapshot, r: Reservation): nat {
    var observed := if r.vmid != 0 then s.Observed(d, r.vmid) else 0;
    SaturatingSub(r.shape.Claim(d), observed)
  }

  /** What destroying the listed VMs would give back, as far as the snapshot shows them. */
  function Credit(d: Resource, s: Snapshot, vmids: seq<int>): nat {
    if vmids == [] then 0 else Credit(d, s, vmids[..|vmids| - 1]) + s.Observed(d, vmids[|vmids| - 1])
  }

  function Term(d: Resource, s: Snapshot, r: Reservation, node: string): int {
    if r.node != node then 0 else Pending(d, s, r) - Credit(d, s, r.freeing)
  }

  ghost function Terms(d: Resource, s: Snapshot, res: Reservations, node: string): nat -> int {
    id => if id in res then Term(d, s, res[id], node) else 0
  }

  /** Guest allocations plus every reservation's pending part, minus its credits. */
  ghost function Raw(d: Resource, s: Snapshot, res: Reservations, node: string): int
    requires node in s.nodes
  {
    s.nodes[node].Guests(d) + Sum(res.Keys, Terms(d, s, res, node))
  }

  ghost function Committed(d: Resource, s: Snapshot, res: Reservations, node: string): nat
    requires node in s.nodes
  {
    var raw := Raw(d, s, res, node);
    if raw < 0 then 0 else raw
  }

  ghost function StateOf(o: Options, s: Snapshot, res: Reservations, node: string): NodeState
    requires node in s.nodes
  {
    var t := s.nodes[node];
    var mem := Committed(Memory, s, res, node);
    var vcpu := Committed(VCPU, s, res, node);
    var limit := if o.Gated() then o.VcpuLimit(t.cores) else 0;
    NodeState(t.memBytes, o.ReserveFor(t.memBytes), mem, SaturatingSub(o.Limit(Memory, t), mem),
              o.Gated(), limit, vcpu, if o.Gated() then SaturatingSub(limit, vcpu) else 0)
  }

  /** The accountant's fit rule: memory always binds, vCPU only when gated. */
  ghost predicate FitsOn(o: Options, s: Snapshot, res: Reservations, node: string, shape: Shape, freeing: seq<int>) {
    && node in s.nodes
    && shape.memoryBytes <= StateOf(o, s, res, node).availableBytes + Credit(Memory, s, freeing)
    && (o.Gated() ==>
          Committed(VCPU, s, res, node) - Credit(VCPU, s, freeing) + shape.vcpus <= o.VcpuLimit(s.nodes[node].cores))
  }

  predicate Expired(r: Reservation, now: nat) { now > r.expires }

  /** The VM is observed at its full configured memory; vCPUs are not consulted. */
  predicate Retired(s: Snapshot, r: Reservation) {
    r.vmid != 0 && s.Observed(Memory, r.vmid) >= r.shape.memoryBytes
  }

  /** The entries of a freeing list that the snapshot still shows. */
  function StillSeen(s: Snapshot, vmids: seq<int>): (kept: seq<int>)
    ensures forall v :: v in kept <==> v in vmids && v in s.guestMem
  {
    if vmids == [] then []
    else
      var rest := StillSeen(s, vmids[..|vmids| - 1]);
      if vmids[|vmids| - 1] in s.guestMem then rest + [vmids[|vmids| - 1]] else rest
  }

  predicate Kept(s: Snapshot, r: Reservation, now: nat) { !Expired(r, now) && !Retired(s, r) }

  function Swept(res: Reservations, s: Snapshot, now: nat): Reservations {
    map id | id in res && Kept(s, res[id], now) :: res[id].(freeing := StillSeen(s, res[id].freeing))
  }

  ghost predicate Keeps(idx: seq<nat>, all: seq<int>, keep: set<int>) {
    forall p: nat :: p < |all| ==> (p in idx <==> all[p] in keep)
  }

  /** `part` is `all` cut down to the values of `keep`, in the same order. */
  ghost predicate CutTo(part: seq<int>, all: seq<int>, keep: set<int>) {
    exists idx: seq<nat> :: At(idx, part, all) && Keeps(idx, all, keep)
  }

  lemma {:induction false} StillSeenCuts(s: Snapshot, vmids: seq<int>)
    ensures CutTo(StillSeen(s, vmids), vmids, s.guestMem.Keys)
  {
    var keep := s.guestMem.Keys;
    if vmids == [] {
      assert At([], [], vmids) && Keeps([], vmids, keep);
    } else {
      var init, last := vmids[..|vmids| - 1], vmids[|vmids| - 1];
      StillSeenCuts(s, init);
      var part := StillSeen(s, init);
      var idx: seq<nat> :| At(idx, part, init) && Keeps(idx, init, keep);
      AtOneMore(idx, part, init, last);
      assert vmids == init + [last];
      KeepsOneMore(idx, init, last, keep);
    }
  }

  lemma KeepsOneMore(idx: seq<nat>, init: seq<int>, last: int, keep: set<int>)
    requires Keeps(idx, init, keep) && |init| !in idx
    ensures last in keep ==> Keeps(idx + [|init|], init + [last], keep)
    ensures last !in keep ==> Keeps(idx, init + [last], keep)
  {
    var all := init + [last];
    forall p: nat | p < |init| ensures p in idx + [|init|] <==> all[p] in keep {
      assert all[p] == init[p];
    }
  }

  /** What a sweep leaves, in the reservation's own fields: a reservation goes exactly if its
      deadline has passed or its VM is seen at full memory; of one that stays, the list of
      victims is cut to those still seen, in order, and nothing else changes. */
  lemma SweptExactly(res: Reservations, s: Snapshot, now: nat, id: nat)
    requires id in res
    ensures
      var r := res[id];
      id in Swept(res, s, now) <==>
        now <= r.expires &&
        (r.vmid == 0 || r.shape.memoryBytes > if r.vmid in s.guestMem then s.guestMem[r.vmid] else 0)
    ensures id in Swept(res, s, now) ==>
      var r, after := res[id], Swept(res, s, now)[id];
      && after.node == r.node && after.shape == r.shape && after.vmid == r.vmid && after.expires == r.expires
      && CutTo(after.freeing, r.freeing, s.guestMem.Keys)
    ensures Swept(res, s, now).Keys <= res.Keys
  {
    hide CutTo;
    StillSeenCuts(s, res[id].freeing);
  }

  /** The host reserve is the larger of the two settings, the memory limit what it leaves of the
      total, and the vCPU limit, which binds only with a ratio set, the whole part of cores
      times ratio. */
  lemma HeadroomSettings(o: Options, total: nat, cores: nat)
    ensures
      var t := NodeTotals(total, cores, 0, 0);
      && o.Limit(Memory, t) == (if o.ReserveFor(total) <= total then total - o.ReserveFor(total) else 0)
      && o.Limit(VCPU, t) == o.VcpuLimit(cores)
      && (o.Gated() <==> o.cpuOvercommit != 0.0)
    ensures o.ReserveFor(total) >= o.reserveBytes &&
      o.ReserveFor(total) as real > total as real * o.reserveFraction - 1.0
    ensures o.ReserveFor(total) == o.reserveBytes || o.ReserveFor(total) as real <= total as real * o.reserveFraction
    ensures o.VcpuLimit(cores) as real <= cores as real * o.cpuOvercommit < o.VcpuLimit(cores) as real + 1.0
  {}

  // ------------------------------------------------------------------
  // Sweeping
  // ------------------------------------------------------------------

  /** Both footprint maps of a snapshot have the same VMIDs, as Fetch builds them. */
  ghost predicate SameGuests(s: Snapshot) { s.guestMem.Keys == s.guestVCPU.Keys }

  lemma {:induction false} StillSeenKeepsCredit(d: Resource, s: Snapshot, vmids: seq<int>)
    requires SameGuests(s)
    ensures Credit(d, s, StillSeen(s, vmids)) == Credit(d, s, vmids)
  {
    if vmids != [] {
      var last := vmids[|vmids| - 1];
      StillSeenKeepsCredit(d, s, vmids[..|vmids| - 1]);
      if last in s.guestMem {
        var kept := StillSeen(s, vmids);
        assert kept[..|kept| - 1] == StillSeen(s, vmids[..|vmids| - 1]);
      }
    }
  }

  lemma {:induction false} StillSeenTwice(s: Snapshot, vmids: seq<int>)
    requires forall i :: 0 <= i < |vmids| ==> vmids[i] in s.guestMem
    ensures StillSeen(s, vmids) == vmids
  {
    if vmids != [] {
      var init := vmids[..|vmids| - 1];
      StillSeenTwice(s, init);
      assert vmids == init + [vmids[|vmids| - 1]];
    }
  }

  predicate RetiredOn(s: Snapshot, res: Reservations, node: string, id: nat) {
    id in res && res[id].node == node && Retired(s, res[id])
  }

  /** The credits that retiring gives up, by reservation. */
  ghost function RetiredCredit(d: Resource, s: Snapshot, res: Reservations, node: string): nat -> int {
    (id: nat) => if RetiredOn(s, res, node, id) then Credit(d, s, res[id].freeing) else 0
  }

  /** The part of the claim still outstanding when it retires: none of memory, but retiring
      does not consult vCPUs. */
  ghost function RetiredPending(d: Resource, s: Snapshot, res: Reservations, node: string): nat -> int {
    (id: nat) => if RetiredOn(s, res, node, id) then Pending(d, s, res[id]) else 0
  }

  /** A sweep in which nothing expires moves the ledger by exactly the credits and the
      outstanding parts of the reservations it retires: pruning a freeing list changes
      nothing. */
  lemma SweepEffect(d: Resource, s: Snapshot, res: Reservations, now: nat, node: string)
    requires SameGuests(s) && node in s.nodes
    requires forall id :: id in res ==> !Expired(res[id], now)
    ensures Raw(d, s, Swept(res, s, now), node)
         == Raw(d, s, res, node) + Sum(res.Keys, RetiredCredit(d, s, res, node))
           - Sum(res.Keys, RetiredPending(d, s, res, node))
  {
    hide Sum, Credit;
    var after := Swept(res, s, now);
    var f, h := Terms(d, s, res, node), Terms(d, s, after, node);
    var credit, pending := RetiredCredit(d, s, res, node), RetiredPending(d, s, res, node);
    forall id | id in res ensures h(id) + pending(id) == f(id) + credit(id) {
      StillSeenKeepsCredit(d, s, res[id].freeing);
    }
    var both := (id: nat) => f(id) + credit(id);
    SumOfSums(res.Keys, f, credit, both);
    SumOfSums(res.Keys, h, pending, both);
    SumSupport(after.Keys, res.Keys, h);
  }

  lemma AllZero(ids: set<nat>, f: nat -> int)
    requires forall id :: id in ids ==> 0 <= f(id)
    ensures 0 <= Sum(ids, f)
    ensures Sum(ids, f) == 0 <==> forall id :: id in ids ==> f(id) == 0
  {
    SumNotNegative(ids, f);
    if id :| id in ids && f(id) != 0 {
      SumTakeOut(ids, f, id);
      SumNotNegative(ids - {id}, f);
    } else {
      var zero := (id: nat) => 0;
      SumSame(ids, f, zero);
      SumOfSums(ids, zero, zero, zero);
    }
  }

  /** Without expiry a sweep never lowers a node's committed memory, and it leaves it
      unchanged exactly when no retired reservation on the node still holds a credit. */
  lemma SweepNeverLowersMemory(s: Snapshot, res: Reservations, now: nat, node: string)
    requires SameGuests(s) && node in s.nodes
    requires forall id :: id in res ==> !Expired(res[id], now)
    ensures Committed(Memory, s, Swept(res, s, now), node) >= Committed(Memory, s, res, node)
    ensures Raw(Memory, s, Swept(res, s, now), node) == Raw(Memory, s, res, node)
       <==> forall id :: RetiredOn(s, res, node, id) ==> Credit(Memory, s, res[id].freeing) == 0
  {
    hide Sum, Credit;
    SweepEffect(Memory, s, res, now, node);
    var credit, pending := RetiredCredit(Memory, s, res, node), RetiredPending(Memory, s, res, node);
    AllZero(res.Keys, credit);
    AllZero(res.Keys, pending);
    forall id | RetiredOn(s, res, node, id)
      ensures credit(id) == Credit(Memory, s, res[id].freeing)
    {}
  }

  /** For vCPUs the same sweep lowers the ledger exactly when what it retires still had more
      vCPUs outstanding than credits to give up; without credits, when any clone retires
      with vCPUs outstanding. */
  lemma SweepLowersVCPU(s: Snapshot, res: Reservations, now: nat, node: string)
    requires SameGuests(s) && node in s.nodes
    requires forall id :: id in res ==> !Expired(res[id], now)
    ensures Raw(VCPU, s, Swept(res, s, now), node) < Raw(VCPU, s, res, node)
       <==> Sum(res.Keys, RetiredPending(VCPU, s, res, node)) > Sum(res.Keys, RetiredCredit(VCPU, s, res, node))
    ensures (forall id :: RetiredOn(s, res, node, id) ==> Credit(VCPU, s, res[id].freeing) == 0) ==>
              (Raw(VCPU, s, Swept(res, s, now), node) < Raw(VCPU, s, res, node)
               <==> exists id :: RetiredOn(s, res, node, id) && Pending(VCPU, s, res[id]) > 0)
  {
    hide Sum, Credit, Pending;
    SweepEffect(VCPU, s, res, now, node);
    var credit, pending := RetiredCredit(VCPU, s, res, node), RetiredPending(VCPU, s, res, node);
    AllZero(res.Keys, credit);
    AllZero(res.Keys, pending);
    assert forall id :: RetiredOn(s, res, node, id) ==> pending(id) == Pending(VCPU, s, res[id]);
  }

  /** Expired or not, sweeping again with the same snapshot and time changes nothing. */
  lemma SweepTwice(s: Snapshot, res: Reservations, now: nat)
    ensures Swept(Swept(res, s, now), s, now) == Swept(res, s, now)
  {
    var once := Swept(res, s, now);
    forall id | id in once ensures StillSeen(s, once[id].freeing) == once[id].freeing {
      StillSeenTwice(s, once[id].freeing);
    }
  }

  // ------------------------------------------------------------------
  // The pool's quick fit test
  // ------------------------------------------------------------------

  /** The pool's own test on a reported node state. */
  predicate FitsNode(st: NodeState, shape: Shape) {
    st.availableBytes >= shape.memoryBytes && (!st.cpuGated || st.availableVCPU >= shape.vcpus)
  }

  /** What a node's state reports, in the node's and the ledger's own terms. */
  lemma StateExactly(o: Options, s: Snapshot, res: Reservations, node: string, more: nat)
    requires node in s.nodes
    ensures
      var st, t := StateOf(o, s, res, node), s.nodes[node];
      var mem, vcpu := Raw(Memory, s, res, node), Raw(VCPU, s, res, node);
      && st.totalBytes == t.memBytes && st.reserveBytes == o.ReserveFor(t.memBytes)
      && st.committedBytes == (if mem > 0 then mem else 0) && st.committedVCPU == (if vcpu > 0 then vcpu else 0)
      && (more <= st.availableBytes <==> more == 0 || st.committedBytes + st.reserveBytes + more <= t.memBytes)
      && (st.cpuGated <==> o.cpuOvercommit > 0.0)
      && (st.cpuGated ==> st.limitVCPU == o.VcpuLimit(t.cores))
      && (more <= st.availableVCPU <==> more == 0 || (st.cpuGated && st.committedVCPU + more <= st.limitVCPU))
  {
    hide Raw, Floor;
  }

  /** It agrees with the accountant's rule on every ledger, except on one family: a shape
      with no vCPUs, small enough in memory, on a gated node already over its vCPU ceiling. */
  lemma QuickTestAgrees(o: Options, s: Snapshot, res: Reservations, node: string, shape: Shape)
    requires node in s.nodes
    ensures
      var st := StateOf(o, s, res, node);
      (FitsNode(st, shape) <==> FitsOn(o, s, res, node, shape, []))
      <==> !(st.cpuGated && shape.vcpus == 0 && st.committedVCPU > st.limitVCPU &&
             shape.memoryBytes <= st.availableBytes)
  {}
}
