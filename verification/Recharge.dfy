/** A clone that an eviction destroys while its own reservation is still live: the claim is
    charged again, to a VM that no longer exists, until it is released or expires. */
module Recharging {
  import opened Sums
  import opened Ledger
  import opened NoDoubleSpend
  import opened HandOff
  import opened Retirement

  // ------------------------------------------------------------------
  // The ledger
  // ------------------------------------------------------------------

  lemma RawSplit(d: Resource, site: Site, w: World, node: string)
    requires node in site.nodes
    ensures node in Snap(site, w).nodes
    ensures Raw(d, Snap(site, w), w.res, node)
         == HostedOn(d, w.guests, node) + Awaited(Full, d, Snap(site, w), w, node)
            - Sum(w.res.Keys, CreditsOn(d, Snap(site, w), w.res, node))
  {
    hide Sum, SnapshotOf, HostedOn, Pending, Credit;
    var s := Snap(site, w);
    SnapshotShows(d, site.nodes, w.guests);
    SumOfSums(w.res.Keys, Terms(d, s, w.res, node), CreditsOn(d, s, w.res, node), PendingOn(d, s, w.res, {}, node));
  }

  lemma {:induction false} CreditChange(d: Resource, s: Snapshot, s': Snapshot, v: int, vmids: seq<int>)
    requires forall x :: x != v ==> s'.Observed(d, x) == s.Observed(d, x)
    requires Distinct(vmids)
    ensures Credit(d, s', vmids) - Credit(d, s, vmids) == if v in vmids then s'.Observed(d, v) - s.Observed(d, v) else 0
  {
    if vmids != [] {
      var init, last := vmids[..|vmids| - 1], vmids[|vmids| - 1];
      assert last !in init;
      if last == v {
        CreditUnaffected(d, s, s', v, init);
      } else {
        CreditChange(d, s, s', v, init);
        assert v in vmids <==> v in init;
      }
    }
  }

  /** The credits of all reservations on a node follow the one guest that changed. */
  lemma CreditsChange(d: Resource, site: Site, w: World, w': World, v: int, home: string, node: string)
    requires ListsDisjoint(w.guests, w.res) && OnlyChanged(w, w', v, home)
    requires forall id :: id in w.res && v in w.res[id].freeing ==> w.res[id].node == home
    ensures Sum(w.res.Keys, CreditsOn(d, Snap(site, w'), w.res, node))
      - Sum(w.res.Keys, CreditsOn(d, Snap(site, w), w.res, node))
         == if FreedIn(w.res, v) && home == node then SizeOf(d, w'.guests, v) - SizeOf(d, w.guests, v) else 0
  {
    hide Sum, SnapshotOf, Credit;
    var s, s' := Snap(site, w), Snap(site, w');
    SnapshotShows(d, site.nodes, w.guests);
    SnapshotShows(d, site.nodes, w'.guests);
    forall id | id in w.res
      ensures Credit(d, s', w.res[id].freeing) - Credit(d, s, w.res[id].freeing)
           == if v in w.res[id].freeing then SizeOf(d, w'.guests, v) - SizeOf(d, w.guests, v) else 0
    {
      CreditChange(d, s, s', v, w.res[id].freeing);
    }
    var f, f' := CreditsOn(d, s, w.res, node), CreditsOn(d, s', w.res, node);
    if id :| id in w.res && v in w.res[id].freeing {
      SumChange(w.res.Keys, f, f', id);
    } else {
      SumSame(w.res.Keys, f, f');
    }
  }

  /** While the eviction's own claim is live, the ledger moves with the full total: the guest
      and its credit cancel out. Otherwise the guest's size comes on top. */
  lemma PromisedMovesLedger(d: Resource, site: Site, w: World, e: Event, node: string)
    requires Consistent(w) && PromisedMoves(site, w, e) && node in site.nodes
    ensures node in Snap(site, w).nodes && node in Snap(site, Apply(site, w, e)).nodes
    ensures
      var w' := Apply(site, w, e);
      Raw(d, Snap(site, w'), w'.res, node) - Raw(d, Snap(site, w), w.res, node)
      == Spent(Full, d, site, w', node) - Spent(Full, d, site, w, node)
         + if FreedIn(w.res, e.vmid) then 0
           else SizeOn(d, w'.guests, node, e.vmid) - SizeOn(d, w.guests, node, e.vmid)
  {
    hide Sum, SnapshotOf, HostedOn, Raw, Awaited, Keeping;
    var w', v := Apply(site, w, e), e.vmid;
    var home := if e.Observe? then e.home else w.guests[v].node;
    assert OnlyChanged(w, w', v, home);
    RawSplit(d, site, w, node);
    RawSplit(d, site, w', node);
    HostedChange(d, w, w', node, v, home);
    CreditsChange(d, site, w, w', v, home, node);
    KeepingChange(d, w, w', node, v, home);
  }

  /** Destroying a victim raises what the ledger shows of its node if and only if the claim it
      was destroyed for is live and so is the victim's own, observed in part at least. */
  lemma VictimRaisesLedgerExactly(d: Resource, site: Site, w: World, v: int, node: string)
    requires Consistent(w) && v in w.guests && v in w.promised && node in site.nodes
    ensures node in Snap(site, w).nodes && node in Snap(site, Vanished(w, v)).nodes
    ensures Raw(d, Snap(site, Vanished(w, v)), w.res, node) > Raw(d, Snap(site, w), w.res, node) <==>
              FreedIn(w.res, v) && w.guests[v].Size(d) > 0 &&
              exists id :: id in w.res && w.res[id].vmid == v && w.res[id].node == node && w.res[id].shape.Claim(d) > 0
  {
    hide SnapshotOf, Raw, Spent, ListsDisjoint;
    var e := Vanish(v);
    assert Apply(site, w, e) == Vanished(w, v) && PromisedMoves(site, w, e);
    PromisedMovesLedger(d, site, w, e, node);
    PromisedMovesFull(d, site, w, e, node);
  }

  // ------------------------------------------------------------------
  // The run in which a claim is charged twice
  // ------------------------------------------------------------------

  /** A clone is seen in part, an eviction admits another clone of that size in its place, and
      the victim is destroyed. */
  function Displacing(node: string, first: Shape, seen: Shape): seq<Event> {
    [Reserve(node, first, [], 0), Bind(1, 1), Observe(1, node, seen.memoryBytes, seen.vcpus, false)]
      + Displacement(node, seen)
  }

  function Displacement(node: string, seen: Shape): seq<Event> { [Reserve(node, seen, [1], 0), Vanish(1)] }

  /** Both claims are live, and the victim is promised. */
  function BothClaimed(site: Site, guests: Guests, node: string, first: Shape, seen: Shape): World {
    World(guests,
          map[1 := Reservation(node, first, 1, [], site.opts.reservationTTL),
              2 := Reservation(node, seen, 0, [1], site.opts.reservationTTL)],
          {1}, 2)
  }

  function SeenAlone(node: string, seen: Shape): Guests { map[1 := Guest(node, seen.memoryBytes, seen.vcpus)] }

  /** The ledger shows the first claim as a whole. */
  lemma OneClaimRaw(d: Resource, site: Site, node: string, first: Shape, seen: Shape)
    requires node in site.nodes && seen.Claim(d) <= first.Claim(d)
    ensures
      var w := Claimed(site, SeenAlone(node, seen), node, first, 1, 1);
      node in Snap(site, w).nodes && Raw(d, Snap(site, w), w.res, node) == first.Claim(d)
  {
    hide HostedOn, SnapshotOf;
    var w := Claimed(site, SeenAlone(node, seen), node, first, 1, 1);
    SnapshotShows(d, site.nodes, w.guests);
    HostedOne(d, 1, w.guests[1]);
    assert w.res.Keys == {1};
    SumTakeOut(w.res.Keys, Terms(d, Snap(site, w), w.res, node), 1);
    assert w.res.Keys - {1} == {};
  }

  lemma SeenInPartStays(site: Site, node: string, first: Shape, seen: Shape)
    requires seen.memoryBytes < first.memoryBytes
    ensures
      var w := Claimed(site, SeenAlone(node, seen), node, first, 1, 1);
      AfterSweep(site, w, 0) == w
  {
    hide SnapshotOf;
    var w := Claimed(site, SeenAlone(node, seen), node, first, 1, 1);
    SnapshotShows(Memory, site.nodes, w.guests);
    assert Kept(Snap(site, w), w.res[1], 0);
    assert StillSeen(Snap(site, w), []) == [];
    assert Swept(w.res, Snap(site, w), 0) == w.res;
  }

  /** The second claim is admitted on the credit of the first one's clone. */
  lemma Displaces(site: Site, node: string, first: Shape, seen: Shape)
    requires node in site.nodes
    requires seen.memoryBytes < first.memoryBytes && seen.vcpus <= first.vcpus
    requires first.vcpus <= site.Limit(VCPU, node)
    ensures
      var w, e := Claimed(site, SeenAlone(node, seen), node, first, 1, 1), Reserve(node, seen, [1], 0);
      Enabled(site, w, e) && Apply(site, w, e) == BothClaimed(site, SeenAlone(node, seen), node, first, seen)
  {
    hide SnapshotOf, Raw, Swept, Floor;
    var w := Claimed(site, SeenAlone(node, seen), node, first, 1, 1);
    SeenInPartStays(site, node, first, seen);
    OneClaimRaw(VCPU, site, node, first, seen);
    LimitOf(VCPU, site, w, node);
    SnapshotShows(Memory, site.nodes, w.guests);
    SnapshotShows(VCPU, site.nodes, w.guests);
    assert [1][..0] == [];
    assert Credit(Memory, Snap(site, w), [1]) == seen.memoryBytes;
    assert Credit(VCPU, Snap(site, w), [1]) == seen.vcpus;
    assert Listed([1]) == {1};
  }

  lemma SumOfTwo(f: nat -> int, a: nat, b: nat)
    requires a != b
    ensures Sum({a, b}, f) == f(a) + f(b)
  {
    SumTakeOut<nat>({a, b}, f, a);
    assert {a, b} - {a} == {b};
    SumTakeOut<nat>({b}, f, b);
    assert {b} - {b} == {};
  }

  lemma BothCharged(d: Resource, site: Site, node: string, first: Shape, seen: Shape)
    requires node in site.nodes
    ensures
      var w := BothClaimed(site, map[], node, first, seen);
      && node in Snap(site, w).nodes
      && Raw(d, Snap(site, w), w.res, node) == Spent(Full, d, site, w, node) == first.Claim(d) + seen.Claim(d)
  {
    hide SnapshotOf, HostedOn;
    var w := BothClaimed(site, map[], node, first, seen);
    var s := Snap(site, w);
    SnapshotShows(d, site.nodes, w.guests);
    HostedNone(d, node);
    assert w.res.Keys == {1, 2};
    SumOfTwo(PendingOn(d, s, w.res, {}, node), 1, 2);
    SumOfTwo(Terms(d, s, w.res, node), 1, 2);
    assert [1][..0] == [];
    assert Credit(d, s, [1]) == 0;
  }

  /** From an empty cluster and ledger: the ledger and the full total end at the first claim plus its seen
      part, so above the limit whenever the first claim filled the node. */
  lemma DisplacedClaimIsChargedTwice(site: Site, node: string, first: Shape, seen: Shape, d: Resource)
    requires node in site.nodes
    requires first.memoryBytes <= site.Limit(Memory, node) && first.vcpus <= site.Limit(VCPU, node)
    requires seen.memoryBytes < first.memoryBytes && seen.vcpus <= first.vcpus
    ensures
      var es := Displacing(node, first, seen);
      && Legal(site, Fresh(map[]), es)
      && Leads(site, Fresh(map[]), map[], es, Run(site, Fresh(map[]), es))
      && var end := Run(site, Fresh(map[]), es);
         && node in Snap(site, end).nodes
         && Raw(d, Snap(site, end), end.res, node) == Spent(Full, d, site, end, node) == first.Claim(d) + seen.Claim(d)
  {
    hide HostedOn, Spent, Raw, Leads, SnapshotOf, Enabled, Apply, Legal, Run;
    var w, g, tail := Fresh(map[]), map[], Displacement(node, seen);
    var end := BothClaimed(site, map[], node, first, seen);
    Displaced(site, node, first, seen);
    assert g[1 := first] == map[1 := first];
    BindsAndSees(site, w.guests, g, node, first, 1, 1, seen.memoryBytes, seen.vcpus, tail, end);
    HostedNone(Memory, node);
    HostedNone(VCPU, node);
    Admits(site, w, node, first);
    var rest := [Bind(1, 1), Observe(1, node, seen.memoryBytes, seen.vcpus, false)] + tail;
    LeadsOn(site, w, g, Reserve(node, first, [], 0), Claimed(site, map[], node, first, 1, 0), g, rest, end);
    assert [Reserve(node, first, [], 0)] + rest == Displacing(node, first, seen);
    LeadsRuns(site, w, g, Displacing(node, first, seen), end);
    BothCharged(d, site, node, first, seen);
  }

  lemma Displaced(site: Site, node: string, first: Shape, seen: Shape)
    requires node in site.nodes && first.vcpus <= site.Limit(VCPU, node)
    requires seen.memoryBytes < first.memoryBytes && seen.vcpus <= first.vcpus
    ensures Leads(site, Claimed(site, SeenAlone(node, seen), node, first, 1, 1), map[1 := first],
                  Displacement(node, seen), BothClaimed(site, map[], node, first, seen))
  {
    hide Leads, SnapshotOf, Swept, FitsOn;
    var g := map[1 := first];
    var w := Claimed(site, SeenAlone(node, seen), node, first, 1, 1);
    var both, end :=
      BothClaimed(site, SeenAlone(node, seen), node, first, seen), BothClaimed(site, map[], node, first, seen);
    Displaces(site, node, first, seen);
    LeadsNowhere(site, end, g);
    assert SeenAlone(node, seen) - {1} == map[];
    LeadsOn(site, both, g, Vanish(1), end, g, [], end);
    LeadsOn(site, w, g, Reserve(node, seen, [1], 0), both, g, [Vanish(1)] + [], end);
    assert [Reserve(node, seen, [1], 0)] + ([Vanish(1)] + []) == Displacement(node, seen);
  }

  lemma LeadsNowhere(site: Site, w: World, g: Grants)
    ensures Leads(site, w, g, [], w)
  {}
}
