/** A clone's life on the ledger: absent, seen at the template's size, seen at its full
    size, retired, destroyed. */
module HandOff {
  import opened Sums
  import opened Ledger
  import opened NoDoubleSpend

  lemma HostedChange(d: Resource, w: World, w': World, node: string, v: int, home: string)
    requires OnlyChanged(w, w', v, home)
    ensures HostedOn(d, w'.guests, node) - HostedOn(d, w.guests, node)
         == SizeOn(d, w'.guests, node, v) - SizeOn(d, w.guests, node, v)
  {
    hide Sum;
    var all := w.guests.Keys + {v};
    var f, f' := SizesOn(d, w.guests, node), SizesOn(d, w'.guests, node);
    SumSupport(w.guests.Keys, all, f);
    SumSupport(w'.guests.Keys, all, f');
    SumChange(all, f, f', v);
  }

  lemma {:induction false} CreditUnaffected(d: Resource, s: Snapshot, s': Snapshot, v: int, vmids: seq<int>)
    requires forall x :: x != v ==> s'.Observed(d, x) == s.Observed(d, x)
    requires v !in vmids
    ensures Credit(d, s', vmids) == Credit(d, s, vmids)
  {
    if vmids != [] {
      CreditUnaffected(d, s, s', v, vmids[..|vmids| - 1]);
      assert vmids[|vmids| - 1] in vmids;
    }
  }

  lemma TermsChange(d: Resource, site: Site, w: World, w': World, v: int, home: string, node: string, id: nat)
    requires OnlyChanged(w, w', v, home) && !FreedIn(w.res, v)
    requires forall i :: i in w.res && w.res[i].vmid == v != 0 ==> i == id
    ensures Sum(w.res.Keys, Terms(d, Snap(site, w'), w.res, node))
      - Sum(w.res.Keys, Terms(d, Snap(site, w), w.res, node))
         == if id in w.res && w.res[id].node == node
            then Pending(d, Snap(site, w'), w.res[id]) - Pending(d, Snap(site, w), w.res[id])
            else 0
  {
    hide Sum, SnapshotOf, Pending;
    var s, s' := Snap(site, w), Snap(site, w');
    SnapshotShows(d, site.nodes, w.guests);
    SnapshotShows(d, site.nodes, w'.guests);
    forall i | i in w.res
      ensures Credit(d, s', w.res[i].freeing) == Credit(d, s, w.res[i].freeing)
      ensures i != id ==> Pending(d, s', w.res[i]) == Pending(d, s, w.res[i])
    {
      CreditUnaffected(d, s, s', v, w.res[i].freeing);
      if i != id {
        OtherPendingSame(d, site, w, w', v, home, w.res[i]);
      }
    }
    SumChange(w.res.Keys, Terms(d, s, w.res, node), Terms(d, s', w.res, node), id);
  }

  /** One change of a bound clone moves the ledger by the change of the size it is accounted
      for: its own, or its reservation's if that is larger. */
  lemma BoundChange(d: Resource, site: Site, w: World, w': World, id: nat, node: string)
    requires id in w.res && w.res[id].vmid != 0 && node in site.nodes
    requires OnlyChanged(w, w', w.res[id].vmid, w.res[id].node) && !FreedIn(w.res, w.res[id].vmid)
    requires forall i :: i in w.res && w.res[i].vmid == w.res[id].vmid ==> i == id
    ensures node in Snap(site, w).nodes && node in Snap(site, w').nodes
    ensures Raw(d, Snap(site, w'), w.res, node) - Raw(d, Snap(site, w), w.res, node)
         == if w.res[id].node != node then 0
            else Accounted(d, w.res[id], SizeOf(d, w'.guests, w.res[id].vmid))
                 - Accounted(d, w.res[id], SizeOf(d, w.guests, w.res[id].vmid))
  {
    hide Sum, SnapshotOf, HostedOn, Pending;
    var v, home := w.res[id].vmid, w.res[id].node;
    SnapshotShows(d, site.nodes, w.guests);
    SnapshotShows(d, site.nodes, w'.guests);
    HostedChange(d, w, w', node, v, home);
    TermsChange(d, site, w, w', v, home, node, id);
    BoundPending(d, site, w, w.res[id]);
    BoundPending(d, site, w', w.res[id]);
  }

  /** The clone of reservation `id` is seen at one footprint after the other. */
  function Seen(w: World, id: nat, sizes: seq<(nat, nat)>): World
    requires id in w.res
  {
    if sizes == [] then w
    else
      var last := sizes[|sizes| - 1];
      Observed(Seen(w, id, sizes[..|sizes| - 1]), w.res[id].vmid, w.res[id].node, last.0, last.1, false)
  }

  /** The reservation is bound to a VMID that nothing else refers to. */
  ghost predicate Handing(w: World, id: nat) {
    && id in w.res && w.res[id].vmid != 0 && !FreedIn(w.res, w.res[id].vmid)
    && (forall i :: i in w.res && w.res[i].vmid == w.res[id].vmid ==> i == id)
    && (w.res[id].vmid in w.guests ==> w.guests[w.res[id].vmid].node == w.res[id].node)
  }

  predicate WithinShape(shape: Shape, sizes: seq<(nat, nat)>) {
    forall i :: 0 <= i < |sizes| ==> sizes[i].0 <= shape.memoryBytes && sizes[i].1 <= shape.vcpus
  }

  lemma {:induction false} SeenShape(w: World, id: nat, sizes: seq<(nat, nat)>)
    requires Handing(w, id)
    ensures Seen(w, id, sizes).res == w.res && Handing(Seen(w, id, sizes), id)
    ensures OnlyChanged(w, Seen(w, id, sizes), w.res[id].vmid, w.res[id].node)
  {
    if sizes != [] {
      SeenShape(w, id, sizes[..|sizes| - 1]);
    }
  }

  /** Hand-off: as the clone goes from absent through any footprints up to its reserved
      shape, the ledger of every node stays constant at every step. */
  lemma HandOffConserves(d: Resource, site: Site, w: World, id: nat, sizes: seq<(nat, nat)>, node: string)
    requires Handing(w, id) && w.res[id].vmid !in w.guests && node in site.nodes
    requires WithinShape(w.res[id].shape, sizes)
    ensures Seen(w, id, sizes).res == w.res
    ensures node in Snap(site, w).nodes && node in Snap(site, Seen(w, id, sizes)).nodes
    ensures Raw(d, Snap(site, Seen(w, id, sizes)), w.res, node) == Raw(d, Snap(site, w), w.res, node)
  {
    hide Raw, SnapshotOf;
    SeenShape(w, id, sizes);
    BoundChange(d, site, w, Seen(w, id, sizes), id, node);
  }

  /** Once seen in full the reservation retires: while nothing expires and no retiring
      reservation on the node still holds a credit, that changes nothing, and destroying
      the VM afterwards takes its whole size off the ledger. */
  lemma RetiredIsNeverChargedAgain(site: Site, w: World, id: nat, sizes: seq<(nat, nat)>, now: nat, node: string)
    requires Handing(w, id) && w.res[id].vmid !in w.guests && node in site.nodes && node == w.res[id].node
    requires sizes != [] && WithinShape(w.res[id].shape, sizes) && sizes[|sizes| - 1].0 == w.res[id].shape.memoryBytes
    requires forall i :: i in w.res ==> !Expired(w.res[i], now)
    requires forall i :: RetiredOn(Snap(site, Seen(w, id, sizes)), w.res, node, i) ==>
               Credit(Memory, Snap(site, Seen(w, id, sizes)), w.res[i].freeing) == 0
    ensures
      var retired := AfterSweep(site, Seen(w, id, sizes), now);
      var gone := Vanished(retired, w.res[id].vmid);
      && id !in retired.res
      && node in Snap(site, w).nodes && node in Snap(site, retired).nodes && node in Snap(site, gone).nodes
      && Raw(Memory, Snap(site, retired), retired.res, node) == Raw(Memory, Snap(site, w), w.res, node)
      && Raw(Memory, Snap(site, gone), gone.res, node)
        == Raw(Memory, Snap(site, w), w.res, node) - w.res[id].shape.memoryBytes
  {
    hide Raw, Credit, SnapshotOf, StillSeen;
    var full := Seen(w, id, sizes);
    SeenShape(w, id, sizes);
    HandOffConserves(Memory, site, w, id, sizes, node);
    SnapshotShows(Memory, site.nodes, full.guests);
    SweepNeverLowersMemory(Snap(site, full), full.res, now, node);
    var retired := AfterSweep(site, full, now);
    assert Retired(Snap(site, full), w.res[id]) && id !in retired.res;
    UnboundVanish(Memory, site, retired, w.res[id].vmid, node);
  }

  /** Retiring looks at memory only: a clone first seen with fewer vCPUs than it claimed takes
      exactly the difference off the vCPU ledger when it retires, and the rest of its claim
      when it is destroyed. */
  lemma RetiringDropsVCPUs(site: Site, w: World, id: nat, sizes: seq<(nat, nat)>, now: nat, node: string)
    requires Handing(w, id) && w.res[id].vmid !in w.guests && node in site.nodes && node == w.res[id].node
    requires sizes != [] && WithinShape(w.res[id].shape, sizes) && sizes[|sizes| - 1].0 == w.res[id].shape.memoryBytes
    requires forall i :: i in w.res ==> !Expired(w.res[i], now)
    requires forall i :: RetiredOn(Snap(site, Seen(w, id, sizes)), w.res, node, i) ==> i == id
    requires Credit(VCPU, Snap(site, Seen(w, id, sizes)), w.res[id].freeing) == 0
    ensures
      var retired := AfterSweep(site, Seen(w, id, sizes), now);
      var gone := Vanished(retired, w.res[id].vmid);
      && node in Snap(site, w).nodes && node in Snap(site, retired).nodes && node in Snap(site, gone).nodes
      && Raw(VCPU, Snap(site, retired), retired.res, node)
         == Raw(VCPU, Snap(site, w), w.res, node) - (w.res[id].shape.vcpus - sizes[|sizes| - 1].1)
      && Raw(VCPU, Snap(site, gone), gone.res, node) == Raw(VCPU, Snap(site, w), w.res, node) - w.res[id].shape.vcpus
  {
    hide Raw, Credit, SnapshotOf, StillSeen, Sum;
    var full := Seen(w, id, sizes);
    SeenShape(w, id, sizes);
    HandOffConserves(VCPU, site, w, id, sizes, node);
    SnapshotShows(Memory, site.nodes, full.guests);
    SnapshotShows(VCPU, site.nodes, full.guests);
    OneRetires(VCPU, Snap(site, full), full.res, now, node, id);
    UnboundVanish(VCPU, site, AfterSweep(site, full, now), w.res[id].vmid, node);
  }

  lemma OneRetires(d: Resource, s: Snapshot, res: Reservations, now: nat, node: string, id: nat)
    requires SameGuests(s) && node in s.nodes && RetiredOn(s, res, node, id)
    requires forall i :: i in res ==> !Expired(res[i], now)
    requires forall i :: RetiredOn(s, res, node, i) ==> i == id
    ensures Raw(d, s, Swept(res, s, now), node)
         == Raw(d, s, res, node) + Credit(d, s, res[id].freeing) - Pending(d, s, res[id])
  {
    hide Raw, Credit, Sum, Pending;
    SweepEffect(d, s, res, now, node);
    var zero := (i: nat) => 0;
    AllZero(res.Keys, zero);
    SumChange(res.Keys, zero, RetiredCredit(d, s, res, node), id);
    SumChange(res.Keys, zero, RetiredPending(d, s, res, node), id);
  }

  /** A guest no reservation refers to leaves with exactly its size. */
  lemma UnboundVanish(d: Resource, site: Site, w: World, v: int, node: string)
    requires node in site.nodes && v != 0 && v in w.guests && w.guests[v].node == node
    requires !FreedIn(w.res, v) && !BoundIn(w.res, v)
    ensures node in Snap(site, w).nodes && node in Snap(site, Vanished(w, v)).nodes
    ensures Raw(d, Snap(site, Vanished(w, v)), w.res, node) == Raw(d, Snap(site, w), w.res, node) - w.guests[v].Size(d)
  {
    hide Sum, SnapshotOf, HostedOn, Pending;
    var w' := Vanished(w, v);
    SnapshotShows(d, site.nodes, w.guests);
    SnapshotShows(d, site.nodes, w'.guests);
    HostedChange(d, w, w', node, v, node);
    var unused := FreshId(w.res);
    TermsChange(d, site, w, w', v, node, node, unused);
  }

  lemma FreshId(res: Reservations) returns (id: nat)
    ensures id !in res
  {
    id := 0;
    var left := res.Keys;
    while id in res
      invariant forall i :: i in res && i !in left ==> i < id
      invariant forall i :: i in left ==> i in res && id <= i
      decreases left
    {
      left := left - {id};
      id := id + 1;
    }
  }

  /** Why retiring must delete: a reservation that was merely left at zero would be charged
      in full again as soon as its VM is destroyed. */
  lemma UnretiredIsChargedAgain(d: Resource, site: Site, w: World, id: nat, sizes: seq<(nat, nat)>, node: string)
    requires Handing(w, id) && w.res[id].vmid !in w.guests && node in site.nodes
    requires WithinShape(w.res[id].shape, sizes)
    ensures
      var gone := Vanished(Seen(w, id, sizes), w.res[id].vmid);
      && node in Snap(site, w).nodes && node in Snap(site, gone).nodes
      && Raw(d, Snap(site, gone), gone.res, node) == Raw(d, Snap(site, w), w.res, node)
  {
    hide Raw, SnapshotOf;
    SeenShape(w, id, sizes);
    var gone := Vanished(Seen(w, id, sizes), w.res[id].vmid);
    assert OnlyChanged(w, gone, w.res[id].vmid, w.res[id].node);
    BoundChange(d, site, w, gone, id, node);
  }
}
