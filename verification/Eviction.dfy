/** Planning an idle eviction, internal/pool/capacity.go: which idle VMs of a node to destroy
    so that one more clone fits. */
module Eviction {
  import opened Ledger
  import opened Sorting

  /** An idle VM with its profile's declared footprint; Warm VMs are preferred victims. */
  datatype Candidate = Candidate(vmid: int, createdAt: nat, memBytes: nat, vcpus: nat, preferred: bool)

  datatype Plan = Plan(victims: seq<Candidate>, memGap: nat, vcpuGap: nat, freedMem: nat, freedVCPU: nat)

  // ------------------------------------------------------------------
  // The order: warm before hot, then oldest first, ties as listed
  // ------------------------------------------------------------------

  predicate Before(a: Candidate, b: Candidate) {
    if a.preferred != b.preferred then a.preferred else a.createdAt < b.createdAt
  }

  function Ordered(cs: seq<Candidate>): seq<Candidate> { StableSort(Before, cs) }

  /** The candidates and no others: all preferred ones first, each group from the oldest to the
      youngest, and those of the same age as they were listed. */
  lemma OrderedSpec(cs: seq<Candidate>, k: Candidate)
    ensures multiset(Ordered(cs)) == multiset(cs)
    ensures forall i, j :: 0 <= i < j < |Ordered(cs)| && Ordered(cs)[j].preferred ==> Ordered(cs)[i].preferred
    ensures forall i, j :: 0 <= i < j < |Ordered(cs)| && Ordered(cs)[i].preferred == Ordered(cs)[j].preferred ==>
      Ordered(cs)[i].createdAt <= Ordered(cs)[j].createdAt
    ensures Alike(k, Ordered(cs)) == Alike(k, cs)
  {
    hide StableSort, RankedWith;
    StableSortSpec(Before, cs, k);
    AlikeIsRanked(k, cs);
    AlikeIsRanked(k, Ordered(cs));
  }

  /** The candidates of the same kind and age as `k`, as listed. */
  function Alike(k: Candidate, cs: seq<Candidate>): seq<Candidate> {
    if cs == [] then []
    else
      var last := cs[|cs| - 1];
      Alike(k, cs[..|cs| - 1]) + if last.preferred == k.preferred && last.createdAt == k.createdAt then [last] else []
  }

  lemma {:induction false} AlikeIsRanked(k: Candidate, cs: seq<Candidate>)
    ensures Alike(k, cs) == RankedWith(Before, k, cs)
  {
    if cs != [] {
      AlikeIsRanked(k, cs[..|cs| - 1]);
      assert Alike(k, cs[..|cs| - 1]) + [] == Alike(k, cs[..|cs| - 1]);
    }
  }

  // ------------------------------------------------------------------
  // The plan
  // ------------------------------------------------------------------

  function Freed(d: Resource, cs: seq<Candidate>): nat {
    if cs == [] then 0
    else Freed(d, cs[..|cs| - 1]) + (if d.Memory? then cs[|cs| - 1].memBytes else cs[|cs| - 1].vcpus)
  }

  predicate Closes(cs: seq<Candidate>, memGap: nat, vcpuGap: nat) {
    Freed(Memory, cs) >= memGap && Freed(VCPU, cs) >= vcpuGap
  }

  function MemGap(shape: Shape, st: NodeState): nat { SaturatingSub(shape.memoryBytes, st.availableBytes) }

  function VcpuGap(shape: Shape, st: NodeState): nat {
    if st.cpuGated then SaturatingSub(shape.vcpus, st.availableVCPU) else 0
  }

  /** A gap is the least amount that, added to what is available, reaches the shape; without
      the gate nothing is missing of vCPUs. */
  lemma GapsAreLeast(shape: Shape, st: NodeState, more: nat)
    ensures more >= MemGap(shape, st) <==> st.availableBytes + more >= shape.memoryBytes
    ensures st.cpuGated ==> (more >= VcpuGap(shape, st) <==> st.availableVCPU + more >= shape.vcpus)
    ensures !st.cpuGated ==> VcpuGap(shape, st) == 0
  {}

  /** Victims close the gaps when what they release, beside what is available, holds the shape. */
  lemma ClosesMeansRoom(cs: seq<Candidate>, shape: Shape, st: NodeState)
    ensures Closes(cs, MemGap(shape, st), VcpuGap(shape, st)) <==>
      && st.availableBytes + Freed(Memory, cs) >= shape.memoryBytes
      && (st.cpuGated ==> st.availableVCPU + Freed(VCPU, cs) >= shape.vcpus)
  {
    GapsAreLeast(shape, st, Freed(Memory, cs));
    GapsAreLeast(shape, st, Freed(VCPU, cs));
  }

  /** The victims are the shortest prefix of the order that closes both gaps. There are none
      exactly when the shape already fits or not even all candidates close them; the gaps are
      reported whenever the shape does not fit. */
  method PlanEviction(candidates: seq<Candidate>, shape: Shape, st: NodeState) returns (plan: Plan)
    ensures FitsNode(st, shape) ==> plan == Plan([], 0, 0, 0, 0)
    ensures !FitsNode(st, shape) ==> plan.memGap == MemGap(shape, st) && plan.vcpuGap == VcpuGap(shape, st)
    ensures plan.victims <= Ordered(candidates)
    ensures plan.victims == [] <==>
      FitsNode(st, shape) || !Closes(Ordered(candidates), MemGap(shape, st), VcpuGap(shape, st))
    ensures plan.victims != [] ==> Closes(plan.victims, plan.memGap, plan.vcpuGap)
    ensures forall k :: 0 <= k < |plan.victims| ==> !Closes(plan.victims[..k], plan.memGap, plan.vcpuGap)
    ensures plan.freedMem == Freed(Memory, plan.victims) && plan.freedVCPU == Freed(VCPU, plan.victims)
  {
    hide Ordered, Closes;
    if FitsNode(st, shape) {
      return Plan([], 0, 0, 0, 0);
    }
    var memGap, vcpuGap := 0, 0;
    if shape.memoryBytes > st.availableBytes {
      memGap := shape.memoryBytes - st.availableBytes;
    }
    if st.cpuGated && shape.vcpus > st.availableVCPU {
      vcpuGap := shape.vcpus - st.availableVCPU;
    }
    plan := Collect(Ordered(candidates), memGap, vcpuGap);
  }

  method Collect(ordered: seq<Candidate>, memGap: nat, vcpuGap: nat) returns (plan: Plan)
    requires memGap > 0 || vcpuGap > 0
    ensures plan.memGap == memGap && plan.vcpuGap == vcpuGap && plan.victims <= ordered
    ensures plan.victims == [] <==> !Closes(ordered, memGap, vcpuGap)
    ensures plan.victims != [] ==> Closes(plan.victims, memGap, vcpuGap)
    ensures forall k :: 0 <= k < |plan.victims| ==> !Closes(plan.victims[..k], memGap, vcpuGap)
    ensures plan.freedMem == Freed(Memory, plan.victims) && plan.freedVCPU == Freed(VCPU, plan.victims)
  {
    var victims, freedMem, freedVCPU := [], 0, 0;
    assert ordered[..0] == [] && Freed(Memory, []) == 0 && Freed(VCPU, []) == 0;
    hide Freed;
    for i := 0 to |ordered|
      invariant victims == ordered[..i]
      invariant freedMem == Freed(Memory, victims) && freedVCPU == Freed(VCPU, victims)
      invariant forall k :: 0 <= k <= i ==> !Closes(ordered[..k], memGap, vcpuGap)
    {
      FreedOneMore(victims, ordered[i]);
      victims := victims + [ordered[i]];
      assert victims == ordered[..i + 1];
      freedMem := freedMem + ordered[i].memBytes;
      freedVCPU := freedVCPU + ordered[i].vcpus;
      if freedMem >= memGap && freedVCPU >= vcpuGap {
        ClosesMonotone(ordered, i + 1, memGap, vcpuGap);
        assert forall k :: 0 <= k < i + 1 ==> victims[..k] == ordered[..k];
        return Plan(victims, memGap, vcpuGap, freedMem, freedVCPU);
      }
    }
    assert ordered[..|ordered|] == ordered;
    plan := Plan([], memGap, vcpuGap, 0, 0);
  }

  lemma FreedOneMore(cs: seq<Candidate>, c: Candidate)
    ensures Freed(Memory, cs + [c]) == Freed(Memory, cs) + c.memBytes
    ensures Freed(VCPU, cs + [c]) == Freed(VCPU, cs) + c.vcpus
  {
    assert (cs + [c])[..|cs|] == cs;
  }

  lemma {:induction false} ClosesMonotone(cs: seq<Candidate>, k: nat, memGap: nat, vcpuGap: nat)
    requires k <= |cs| && Closes(cs[..k], memGap, vcpuGap)
    ensures Closes(cs, memGap, vcpuGap)
  {
    if k == |cs| {
      assert cs[..k] == cs;
    } else {
      assert cs[..|cs| - 1][..k] == cs[..k];
      ClosesMonotone(cs[..|cs| - 1], k, memGap, vcpuGap);
    }
  }

  lemma {:induction false} InsertFreed(d: Resource, c: Candidate, cs: seq<Candidate>)
    ensures Freed(d, Insert(Before, c, cs)) == Freed(d, cs + [c])
    decreases |cs|
  {
    assert (cs + [c])[..|cs|] == cs;
    if cs != [] && Before(c, cs[|cs| - 1]) {
      var init, last := cs[..|cs| - 1], cs[|cs| - 1];
      InsertFreed(d, c, init);
      assert (init + [c])[..|init|] == init;
      assert (Insert(Before, c, init) + [last])[..|Insert(Before, c, init)|] == Insert(Before, c, init);
    }
  }

  lemma {:induction false} SortedFreed(d: Resource, cs: seq<Candidate>)
    ensures Freed(d, Ordered(cs)) == Freed(d, cs)
  {
    if cs != [] {
      var init, last := cs[..|cs| - 1], cs[|cs| - 1];
      SortedFreed(d, init);
      InsertFreed(d, last, Ordered(init));
      assert (Ordered(init) + [last])[..|Ordered(init)|] == Ordered(init);
    }
  }

  /** So planning gives up only if the node's idle VMs together cannot close the gaps. */
  lemma GivesUpOnlyIfHopeless(candidates: seq<Candidate>, memGap: nat, vcpuGap: nat)
    ensures Closes(Ordered(candidates), memGap, vcpuGap) <==> Closes(candidates, memGap, vcpuGap)
  {
    SortedFreed(Memory, candidates);
    SortedFreed(VCPU, candidates);
  }

  // ------------------------------------------------------------------
  // Does the plan pay off?
  // ------------------------------------------------------------------

  function Vmids(cs: seq<Candidate>): seq<int> {
    if cs == [] then [] else Vmids(cs[..|cs| - 1]) + [cs[|cs| - 1].vmid]
  }

  /** The snapshot shows each victim at the footprint its profile declares. */
  ghost predicate AsDeclared(s: Snapshot, cs: seq<Candidate>) {
    forall i :: 0 <= i < |cs| ==>
      s.Observed(Memory, cs[i].vmid) == cs[i].memBytes && s.Observed(VCPU, cs[i].vmid) == cs[i].vcpus
  }

  lemma {:induction false} CreditAsDeclared(d: Resource, s: Snapshot, cs: seq<Candidate>)
    requires AsDeclared(s, cs)
    ensures Credit(d, s, Vmids(cs)) == Freed(d, cs)
  {
    if cs != [] {
      CreditAsDeclared(d, s, cs[..|cs| - 1]);
      var ids := Vmids(cs);
      assert ids[..|ids| - 1] == Vmids(cs[..|cs| - 1]);
    }
  }

  /** Reserving with the planned victims succeeds exactly when the vCPU excess of the node
      over its ceiling, which the plan does not see, is covered too: always on an ungated
      node or one within its ceiling. */
  lemma PlanPaysOff(o: Options, s: Snapshot, res: Reservations, node: string, shape: Shape, victims: seq<Candidate>)
    requires node in s.nodes && AsDeclared(s, victims)
    requires
      var st := StateOf(o, s, res, node);
      !FitsNode(st, shape) && Closes(victims, MemGap(shape, st), VcpuGap(shape, st))
    ensures
      var st := StateOf(o, s, res, node);
      FitsOn(o, s, res, node, shape, Vmids(victims))
      <==> (st.cpuGated ==> Freed(VCPU, victims) >= shape.vcpus + st.committedVCPU - st.limitVCPU)
    ensures
      var st := StateOf(o, s, res, node);
      (!st.cpuGated || st.committedVCPU <= st.limitVCPU) ==> FitsOn(o, s, res, node, shape, Vmids(victims))
  {
    hide Committed, Floor, Freed;
    CreditAsDeclared(Memory, s, victims);
    CreditAsDeclared(VCPU, s, victims);
  }

  /** An eviction that does not pay off: one idle VM with as many vCPUs as the new clone, on
      a node already over its vCPU ceiling. */
  lemma OverCeilingPlanFails(o: Options, shape: Shape, victim: Candidate, s: Snapshot, node: string)
    requires o.Gated() && node in s.nodes && AsDeclared(s, [victim])
    requires s.nodes[node].guestVCPU > o.VcpuLimit(s.nodes[node].cores)
    requires shape.vcpus == victim.vcpus > 0 && shape.memoryBytes <= victim.memBytes
    ensures
      var st := StateOf(o, s, map[], node);
      && !FitsNode(st, shape)
      && Closes([victim], MemGap(shape, st), VcpuGap(shape, st))
      && !FitsOn(o, s, map[], node, shape, [victim.vmid])
  {
    hide Floor;
    var st := StateOf(o, s, map[], node);
    assert Freed(VCPU, [victim]) == victim.vcpus && Freed(Memory, [victim]) == victim.memBytes;
    assert Vmids([victim]) == [victim.vmid];
    PlanPaysOff(o, s, map[], node, shape, [victim]);
  }
}
