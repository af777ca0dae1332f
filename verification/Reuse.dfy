/** A destroyed victim's VMID is given to a new VM. Nothing may credit the new VM to the claim
    the old one was destroyed for. What keeps that from happening is that a sweep cuts victims
    that have left the cluster out of the lists. */
module VmidReuse {
  import opened Sums
  import opened Ledger
  import opened NoDoubleSpend
  import opened HandOff
  import opened Recharging

  /** The promised VMIDs that were absent from the cluster at some sweep since. */
  function NextGone(w: World, gone: set<int>, e: Event): set<int> {
    match e
    case Reserve(_, _, _, _) => gone + set v | v in w.promised && v !in w.guests
    case Sweep(_) => gone + set v | v in w.promised && v !in w.guests
    case Bind(id, vmid) => if id in w.res then gone - {vmid} else gone
    case Observe(vmid, _, _, _, reused) => if reused then gone - {vmid} else gone
    case _ => gone
  }

  /** All that reusing a VMID asks: its VM has left the cluster, a sweep ran since, and no
      reservation is bound to it. Of victim lists nothing is asked. */
  predicate Reusable(w: World, gone: set<int>, v: int) { v !in w.guests && v in gone && !BoundIn(w.res, v) }

  /** The guards of `NoDoubleSpend.Enabled`, with that in place of its condition on lists. */
  ghost predicate EnabledBy(site: Site, w: World, gone: set<int>, e: Event) {
    match e
    case Bind(id, vmid) =>
      id in w.res ==>
        && w.res[id].vmid == 0 && vmid != 0 && !BoundIn(w.res, vmid)
        && (vmid in w.promised ==> Reusable(w, gone, vmid))
        && (vmid in w.guests ==> w.guests[vmid].node == w.res[id].node)
    case Observe(vmid, home, _, _, reused) =>
      if reused then Reusable(w, gone, vmid) else CanObserve(w, vmid, home, false)
    case _ => Enabled(site, w, e)
  }

  /** No list names a VMID that has been gone. */
  ghost predicate Pruned(w: World, gone: set<int>) {
    gone <= w.promised && forall v :: v in gone ==> !FreedIn(w.res, v)
  }

  lemma HistoryIsEnough(site: Site, w: World, gone: set<int>, e: Event)
    requires Consistent(w) && Pruned(w, gone) && EnabledBy(site, w, gone, e)
    ensures Enabled(site, w, e)
  {
    hide SnapshotOf, Consistent;
    if e.Observe? && e.reused {
      assert !FreedIn(w.res, e.vmid) && !BoundIn(w.res, e.vmid);
    }
  }

  /** Victims that are absent at a sweep are in no list after it. */
  lemma SweepPrunes(site: Site, w: World, now: nat, v: int)
    requires v !in w.guests
    ensures !FreedIn(AfterSweep(site, w, now).res, v)
  {
    hide StillSeen, Kept;
    assert v !in Snap(site, w).guestMem;
  }

  lemma SweepKeepsUnlisted(site: Site, w: World, now: nat, v: int)
    requires !FreedIn(w.res, v)
    ensures !FreedIn(AfterSweep(site, w, now).res, v)
  {
    hide SnapshotOf, StillSeen, Kept;
  }

  lemma StaysPruned(site: Site, w: World, gone: set<int>, e: Event)
    requires Pruned(w, gone) && Enabled(site, w, e)
    ensures Pruned(Apply(site, w, e), NextGone(w, gone, e))
  {
    hide SnapshotOf, Swept, FitsOn;
    if e.Reserve? || e.Sweep? {
      forall v | v in NextGone(w, gone, e) ensures !FreedIn(AfterSweep(site, w, e.now).res, v) {
        if v in gone {
          SweepKeepsUnlisted(site, w, e.now, v);
        } else {
          SweepPrunes(site, w, e.now, v);
        }
      }
    }
  }

  ghost predicate LegalBy(site: Site, w: World, gone: set<int>, es: seq<Event>)
    decreases |es|
  {
    es == [] ||
    (EnabledBy(site, w, gone, es[0]) && LegalBy(site, Apply(site, w, es[0]), NextGone(w, gone, es[0]), es[1..]))
  }

  /** Every run in which VMIDs are reused on that history alone is a run of `NoDoubleSpend`, so
      all its laws hold of it. */
  lemma {:induction false} ReuseIsLegal(site: Site, w: World, gone: set<int>, es: seq<Event>)
    requires Consistent(w) && Pruned(w, gone) && LegalBy(site, w, gone, es)
    ensures Legal(site, w, es)
    decreases |es|
  {
    hide Consistent, Pruned, Enabled, EnabledBy, Apply, NextGone;
    if es != [] {
      HistoryIsEnough(site, w, gone, es[0]);
      StaysPruned(site, w, gone, es[0]);
      StaysConsistent(site, w, es[0]);
      ReuseIsLegal(site, Apply(site, w, es[0]), NextGone(w, gone, es[0]), es[1..]);
    }
  }

  /** In particular no byte and no gated vCPU is spent twice over reused VMIDs. */
  lemma ReuseNeverDoubleSpends(
      k: Count, d: Resource, site: Site, guests: Guests, es: seq<Event>, node: string)
    requires node in site.nodes && (d.VCPU? ==> site.opts.Gated())
    requires HostedOn(d, guests, node) <= site.Limit(d, node)
    requires LegalBy(site, Fresh(guests), {}, es)
    ensures Spent(k, d, site, Run(site, Fresh(guests), es), node)
         <= site.Limit(d, node) + TotalUnreserved(d, site, Fresh(guests), es, node)
            + if k.Full? then TotalRecharged(d, site, Fresh(guests), es, node) else 0
  {
    hide HostedOn, Spent, Legal, LegalBy, Run, TotalUnreserved, TotalRecharged;
    ReuseIsLegal(site, Fresh(guests), {}, es);
    FreshLedgerNeverOverfills(k, d, site, guests, es, node);
  }

  /** Why the lists matter: a new guest without a reservation adds its size to the ledger of its
      node if and only if no list names its VMID; otherwise its own credit hides it. */
  lemma NewGuestCountsExactly(d: Resource, site: Site, w: World, e: Event, node: string)
    requires Consistent(w) && e.Observe? && e.vmid !in w.guests && !BoundIn(w.res, e.vmid) && node in site.nodes
    requires forall id :: id in w.res && e.vmid in w.res[id].freeing ==> w.res[id].node == e.home
    ensures node in Snap(site, w).nodes && node in Snap(site, Apply(site, w, e)).nodes
    ensures
      var w' := Apply(site, w, e);
      Raw(d, Snap(site, w'), w'.res, node) - Raw(d, Snap(site, w), w.res, node)
      == if e.home == node && !FreedIn(w.res, e.vmid) then (if d.Memory? then e.mem else e.vcpus) else 0
  {
    hide Sum, SnapshotOf, HostedOn, Raw, Awaited;
    var w', v := Apply(site, w, e), e.vmid;
    var still := w'.(promised := w.promised);
    assert OnlyChanged(w, still, v, e.home);
    RawSplit(d, site, w, node);
    RawSplit(d, site, still, node);
    HostedChange(d, w, still, node, v, e.home);
    CreditsChange(d, site, w, still, v, e.home, node);
    NoneBoundSame(Full, d, site, w, still, v, e.home, node);
  }

  /** So a VM on a reused VMID is always counted in full. */
  lemma ReusedIsCounted(d: Resource, site: Site, w: World, gone: set<int>, e: Event, node: string)
    requires Consistent(w) && Pruned(w, gone) && EnabledBy(site, w, gone, e) && e.Observe? && e.reused
    requires node in site.nodes
    ensures node in Snap(site, w).nodes && node in Snap(site, Apply(site, w, e)).nodes
    ensures
      var w' := Apply(site, w, e);
      Raw(d, Snap(site, w'), w'.res, node) - Raw(d, Snap(site, w), w.res, node)
      == if e.home == node then (if d.Memory? then e.mem else e.vcpus) else 0
  {
    hide SnapshotOf, Raw, Consistent, Apply;
    assert !FreedIn(w.res, e.vmid);
    NewGuestCountsExactly(d, site, w, e, node);
  }
}
