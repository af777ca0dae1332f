/** Which growth of a clone the ledger has paid for. A sweep retires a reservation once its
    clone is seen at full memory, whatever its vCPUs. For memory the reservation is then spent
    in full; for vCPUs the rest of the claim is dropped while the clone may still grow into
    it, and another clone can be admitted on the same vCPUs. */
module Retirement {
  import opened Sums
  import opened Ledger
  import opened NoDoubleSpend

  /** The shape that each VMID was last bound with. */
  type Grants = map<int, Shape>

  /** A grant lasts while its reservation lives or its guest exists. */
  predicate Entitled(w: World, g: Grants, v: int) { v in g && (v in w.guests || BoundIn(w.res, v)) }

  function NextGrants(w: World, g: Grants, e: Event): Grants {
    match e
    case Bind(id, vmid) => if id in w.res then g[vmid := w.res[id].shape] else g
    case Observe(vmid, _, _, _, _) => if Entitled(w, g, vmid) then g else g - {vmid}
    case _ => g
  }

  /** A granted clone stays within its grant, without shrinking once its reservation is gone,
      and no other guest grows. What a guest promised for destruction does is not looked at. */
  predicate AsGranted(d: Resource, w: World, g: Grants, e: Event) {
    e.Observe? && (e.reused || e.vmid !in w.promised) ==>
      var size := if d.Memory? then e.mem else e.vcpus;
      if Entitled(w, g, e.vmid) then
        size <= g[e.vmid].Claim(d) && (BoundIn(w.res, e.vmid) || SizeOf(d, w.guests, e.vmid) <= size)
      else size <= SizeOf(d, w.guests, e.vmid)
  }

  /** A reservation whose clone is seen, but not in full. */
  predicate Outstanding(d: Resource, s: Snapshot, w: World, id: nat) {
    && id in w.res && w.res[id].vmid != 0 && w.res[id].vmid in w.guests && w.res[id].vmid !in w.promised
    && Pending(d, s, w.res[id]) > 0
  }

  ghost predicate SweepsOnlySpent(d: Resource, site: Site, w: World, now: nat) {
    forall id :: Outstanding(d, Snap(site, w), w, id) ==> Kept(Snap(site, w), w.res[id], now)
  }

  /** The event drops no outstanding reservation. */
  ghost predicate DropsOnlySpent(d: Resource, site: Site, w: World, e: Event) {
    match e
    case Reserve(_, _, _, now) => SweepsOnlySpent(d, site, w, now)
    case Sweep(now) => SweepsOnlySpent(d, site, w, now)
    case Release(id) => !Outstanding(d, Snap(site, w), w, id)
    case _ => true
  }

  /** Every granted clone is either still reserved or as large as it will get. */
  ghost predicate Backed(d: Resource, w: World, g: Grants) {
    forall v :: v in g && v in w.guests && v !in w.promised && !BoundIn(w.res, v) ==>
      w.guests[v].Size(d) >= g[v].Claim(d)
  }

  ghost predicate GrantsMatch(w: World, g: Grants) {
    && 0 !in g
    && (forall id :: id in w.res && w.res[id].vmid != 0 ==> w.res[id].vmid in g && g[w.res[id].vmid] == w.res[id].shape)
  }

  // ------------------------------------------------------------------
  // One event
  // ------------------------------------------------------------------

  lemma OutstandingBySize(d: Resource, site: Site, w: World, id: nat)
    requires id in w.res && w.res[id].vmid != 0 && w.res[id].vmid in w.guests
    ensures Pending(d, Snap(site, w), w.res[id]) > 0 <==> w.guests[w.res[id].vmid].Size(d) < w.res[id].shape.Claim(d)
  {
    hide SnapshotOf;
    SnapshotShows(d, site.nodes, w.guests);
  }

  lemma StillBound(w: World, w': World, v: int)
    requires BoundIn(w.res, v)
    requires forall id :: id in w.res && w.res[id].vmid == v ==> id in w'.res && w'.res[id].vmid == v
    ensures BoundIn(w'.res, v)
  {
    var id :| id in w.res && w.res[id].vmid == v;
    assert id in w'.res;
  }

  /** Dropping only spent reservations keeps every clone backed. */
  lemma DropKeepsBacked(d: Resource, site: Site, w: World, w': World, g: Grants)
    requires GrantsMatch(w, g) && Backed(d, w, g)
    requires w'.guests == w.guests && w.promised <= w'.promised
    requires forall id :: id in w.res && id !in w'.res ==> !Outstanding(d, Snap(site, w), w, id)
    requires forall id :: id in w.res && id in w'.res ==> w'.res[id].vmid == w.res[id].vmid
    ensures Backed(d, w', g)
  {
    hide SnapshotOf, Pending;
    forall v | v in g && v in w'.guests && v !in w'.promised && !BoundIn(w'.res, v)
      ensures w'.guests[v].Size(d) >= g[v].Claim(d)
    {
      if id :| id in w.res && w.res[id].vmid == v {
        OutstandingBySize(d, site, w, id);
      }
    }
  }

  lemma SweepKeepsGrants(site: Site, w: World, g: Grants, now: nat)
    requires GrantsMatch(w, g)
    ensures GrantsMatch(AfterSweep(site, w, now), g)
  {
    hide SnapshotOf, Kept;
  }

  /** A sweep keeps every clone backed if and only if each reservation it drops is spent. */
  lemma SweepBacksExactly(d: Resource, site: Site, w: World, g: Grants, now: nat)
    requires BindingsUnique(w) && GrantsMatch(w, g) && Backed(d, w, g)
    ensures Backed(d, AfterSweep(site, w, now), g) <==> SweepsOnlySpent(d, site, w, now)
  {
    hide SnapshotOf, Pending, Kept;
    var w' := AfterSweep(site, w, now);
    if SweepsOnlySpent(d, site, w, now) {
      DropKeepsBacked(d, site, w, w', g);
    } else {
      var id :| Outstanding(d, Snap(site, w), w, id) && !Kept(Snap(site, w), w.res[id], now);
      OutstandingBySize(d, site, w, id);
      assert !BoundIn(w'.res, w.res[id].vmid);
    }
  }

  /** For memory only expiry can drop an outstanding reservation. */
  lemma MemoryDroppedByExpiryOnly(site: Site, w: World, now: nat)
    ensures SweepsOnlySpent(Memory, site, w, now)
       <==> forall id :: Outstanding(Memory, Snap(site, w), w, id) ==> !Expired(w.res[id], now)
  {
    hide SnapshotOf;
  }

  lemma BindKeepsBacked(d: Resource, w: World, g: Grants, id: nat, vmid: int)
    requires GrantsMatch(w, g) && Backed(d, w, g) && CanBind(w, id, vmid) && id in w.res
    ensures GrantsMatch(Bound(w, id, vmid), g[vmid := w.res[id].shape])
    ensures Backed(d, Bound(w, id, vmid), g[vmid := w.res[id].shape])
  {
    var w' := Bound(w, id, vmid);
    assert w'.res[id].vmid == vmid && BoundIn(w'.res, vmid);
    forall v | v in g && v != vmid && BoundIn(w.res, v) ensures BoundIn(w'.res, v) {
      StillBound(w, w', v);
    }
  }

  lemma ObserveKeepsBacked(d: Resource, site: Site, w: World, g: Grants, e: Event)
    requires GrantsMatch(w, g) && Backed(d, w, g) && e.Observe? && Enabled(site, w, e) && AsGranted(d, w, g, e)
    ensures GrantsMatch(Apply(site, w, e), NextGrants(w, g, e))
    ensures Backed(d, Apply(site, w, e), NextGrants(w, g, e))
  {
    hide SnapshotOf;
  }

  lemma StaysBacked(d: Resource, site: Site, w: World, g: Grants, e: Event)
    requires IdsUsed(w) && GrantsMatch(w, g) && Backed(d, w, g) && Enabled(site, w, e)
    requires AsGranted(d, w, g, e) && DropsOnlySpent(d, site, w, e)
    ensures GrantsMatch(Apply(site, w, e), NextGrants(w, g, e))
    ensures Backed(d, Apply(site, w, e), NextGrants(w, g, e))
  {
    hide SnapshotOf, Outstanding, Kept, FitsOn;
    match e
    case Reserve(node, shape, freeing, now) =>
      var swept := AfterSweep(site, w, now);
      SweepKeepsGrants(site, w, g, now);
      DropKeepsBacked(d, site, w, swept, g);
      ReserveKeepsBacked(d, site, swept, g, Reservation(node, shape, 0, freeing, now + site.opts.reservationTTL));
    case Sweep(now) =>
      SweepKeepsGrants(site, w, g, now);
      DropKeepsBacked(d, site, w, AfterSweep(site, w, now), g);
    case Bind(id, vmid) =>
      if id in w.res {
        BindKeepsBacked(d, w, g, id, vmid);
      }
    case Release(id) => DropKeepsBacked(d, site, w, Apply(site, w, e), g);
    case Observe(_, _, _, _, _) => ObserveKeepsBacked(d, site, w, g, e);
    case Vanish(_) =>
  }

  lemma ReserveKeepsBacked(d: Resource, site: Site, w: World, g: Grants, r: Reservation)
    requires IdsUsed(w) && GrantsMatch(w, g) && Backed(d, w, g) && r.vmid == 0
    ensures GrantsMatch(Reserved(site, w, r), g) && Backed(d, Reserved(site, w, r), g)
  {
    hide SnapshotOf, FitsOn;
    var w' := WithReservation(w, r);
    forall v | BoundIn(w.res, v) ensures BoundIn(w'.res, v) {
      StillBound(w, w', v);
    }
  }

  /** Growth of a backed clone within its grant is paid for. */
  lemma GrantedBringsNothing(d: Resource, site: Site, w: World, g: Grants, e: Event, node: string)
    requires BindingsUnique(w) && GrantsMatch(w, g) && Backed(d, w, g) && Enabled(site, w, e) && AsGranted(d, w, g, e)
    ensures Unreserved(d, w, e, node) == 0
  {
    hide SnapshotOf, Cover;
    if e.Observe? && (e.reused || e.vmid !in w.promised) {
      var size := if d.Memory? then e.mem else e.vcpus;
      if id :| id in w.res && w.res[id].vmid == e.vmid != 0 {
        CoverBound(d, w, id, size);
        CoverBound(d, w, id, SizeOf(d, w.guests, e.vmid));
        assert Entitled(w, g, e.vmid);
      } else {
        CoverUnbound(d, w.res, e.vmid, size);
        CoverUnbound(d, w.res, e.vmid, SizeOf(d, w.guests, e.vmid));
      }
    }
  }

  // ------------------------------------------------------------------
  // Whole runs
  // ------------------------------------------------------------------

  /** Every clone stays within what was reserved for it, nothing else grows, and no
      reservation is dropped while its clone is seen but not in full. */
  ghost predicate Faithful(d: Resource, site: Site, w: World, g: Grants, es: seq<Event>)
    decreases |es|
  {
    es == [] ||
    (AsGranted(d, w, g, es[0]) && DropsOnlySpent(d, site, w, es[0])
     && Faithful(d, site, Apply(site, w, es[0]), NextGrants(w, g, es[0]), es[1..]))
  }

  lemma {:induction false} FaithfulBringsNothing(d: Resource, site: Site, w: World, g: Grants, es: seq<Event>,
                                                 node: string)
    requires Consistent(w) && Legal(site, w, es) && GrantsMatch(w, g) && Backed(d, w, g) && Faithful(d, site, w, g, es)
    ensures TotalUnreserved(d, site, w, es, node) == 0
    decreases |es|
  {
    hide Consistent, Enabled, Apply, Unreserved, NextGrants, AsGranted, DropsOnlySpent, GrantsMatch, Backed;
    if es != [] {
      var e := es[0];
      assert BindingsUnique(w) && IdsUsed(w) by { UsedUnique(w); }
      GrantedBringsNothing(d, site, w, g, e, node);
      StaysBacked(d, site, w, g, e);
      StaysConsistent(site, w, e);
      FaithfulBringsNothing(d, site, Apply(site, w, e), NextGrants(w, g, e), es[1..], node);
    }
  }

  lemma UsedUnique(w: World)
    requires Consistent(w)
    ensures BindingsUnique(w) && IdsUsed(w)
  {}

  /** Started with an empty ledger on a node whose guests fit, a faithful run never overfills
      the node: the guests that stay remain within its limit even if every outstanding claim
      is filled. */
  lemma FaithfulNeverOverfills(d: Resource, site: Site, guests: Guests, es: seq<Event>, node: string)
    requires node in site.nodes && (d.VCPU? ==> site.opts.Gated())
    requires HostedOn(d, guests, node) <= site.Limit(d, node)
    requires Legal(site, Fresh(guests), es) && Faithful(d, site, Fresh(guests), map[], es)
    ensures Spent(Net, d, site, Run(site, Fresh(guests), es), node) <= site.Limit(d, node)
    ensures Spent(Full, d, site, Run(site, Fresh(guests), es), node)
         <= site.Limit(d, node) + TotalRecharged(d, site, Fresh(guests), es, node)
    ensures Keeping(d, Run(site, Fresh(guests), es), node) <= site.Limit(d, node)
  {
    hide HostedOn, Spent, Keeping, Legal, Run, TotalUnreserved, TotalRecharged, Faithful;
    FaithfulBringsNothing(d, site, Fresh(guests), map[], es, node);
    FreshLedgerNeverOverfills(Net, d, site, guests, es, node);
    FreshLedgerNeverOverfills(Full, d, site, guests, es, node);
  }

  // ------------------------------------------------------------------
  // The run in which vCPUs are spent twice
  // ------------------------------------------------------------------

  /** The run is legal, every arrival is as granted, and it ends in `end`. */
  ghost predicate Leads(site: Site, w: World, g: Grants, es: seq<Event>, end: World)
    decreases |es|
  {
    if es == [] then w == end
    else
      && Enabled(site, w, es[0]) && AsGranted(Memory, w, g, es[0]) && AsGranted(VCPU, w, g, es[0])
      && Leads(site, Apply(site, w, es[0]), NextGrants(w, g, es[0]), es[1..], end)
  }

  lemma {:induction false} LeadsRuns(site: Site, w: World, g: Grants, es: seq<Event>, end: World)
    requires Leads(site, w, g, es, end)
    ensures Legal(site, w, es) && Run(site, w, es) == end
    decreases |es|
  {
    hide Enabled, AsGranted, Apply, NextGrants;
    if es != [] {
      LeadsRuns(site, Apply(site, w, es[0]), NextGrants(w, g, es[0]), es[1..], end);
    }
  }

  lemma LeadsOn(site: Site, w: World, g: Grants, e: Event, w': World, g': Grants, es: seq<Event>, end: World)
    requires Enabled(site, w, e) && AsGranted(Memory, w, g, e) && AsGranted(VCPU, w, g, e)
    requires Apply(site, w, e) == w' && NextGrants(w, g, e) == g' && Leads(site, w', g', es, end)
    ensures Leads(site, w, g, [e] + es, end)
  {
    hide Enabled, AsGranted, Apply, NextGrants;
    assert ([e] + es)[1..] == es;
  }

  /** On an empty ledger a shape fits beside the guests if both resources allow it. */
  lemma FitsBesideGuests(site: Site, w: World, node: string, shape: Shape)
    requires node in site.nodes && w.res == map[]
    requires HostedOn(Memory, w.guests, node) + shape.memoryBytes <= site.Limit(Memory, node)
    requires HostedOn(VCPU, w.guests, node) + shape.vcpus <= site.Limit(VCPU, node)
    ensures FitsOn(site.opts, Snap(site, w), w.res, node, shape, [])
  {
    hide HostedOn, Floor;
    assert Sum(w.res.Keys, Terms(Memory, Snap(site, w), w.res, node)) == 0;
    assert Sum(w.res.Keys, Terms(VCPU, Snap(site, w), w.res, node)) == 0;
  }

  lemma HostedOne(d: Resource, v: int, guest: Guest)
    ensures HostedOn(d, map[v := guest], guest.node) == guest.Size(d)
  {
    var guests := map[v := guest];
    assert guests.Keys == {v};
    SumTakeOut(guests.Keys, SizesOn(d, guests, guest.node), v);
    assert guests.Keys - {v} == {};
  }

  lemma KeepingTwo(d: Resource, v: int, guest: Guest, u: int, other: Guest, res: Reservations, last: nat)
    requires u != v && other.node == guest.node
    ensures Keeping(d, World(map[v := guest, u := other], res, {}, last), guest.node) == guest.Size(d) + other.Size(d)
  {
    var guests := map[v := guest, u := other];
    var f := UnpromisedOn(d, World(guests, res, {}, last), guest.node);
    assert guests.Keys == {v, u};
    SumTakeOut(guests.Keys, f, v);
    assert guests.Keys - {v} == {u};
    SumTakeOut({u}, f, u);
    assert {u} - {u} == {};
  }

  /** Some guests and a single reservation. */
  function Claimed(site: Site, guests: Guests, node: string, shape: Shape, id: nat, vmid: int): World {
    World(guests, map[id := Reservation(node, shape, vmid, [], site.opts.reservationTTL)], {}, id)
  }

  /** A claim is admitted beside the guests, in a ledger that a sweep leaves empty. */
  lemma Admits(site: Site, w: World, node: string, shape: Shape)
    requires node in site.nodes && w.promised == {}
    requires Swept(w.res, Snap(site, w), 0) == map[]
    requires HostedOn(Memory, w.guests, node) + shape.memoryBytes <= site.Limit(Memory, node)
    requires HostedOn(VCPU, w.guests, node) + shape.vcpus <= site.Limit(VCPU, node)
    ensures Enabled(site, w, Reserve(node, shape, [], 0))
    ensures Apply(site, w, Reserve(node, shape, [], 0)) == Claimed(site, w.guests, node, shape, w.last + 1, 0)
  {
    hide HostedOn, SnapshotOf, FitsOn, Swept;
    FitsBesideGuests(site, AfterSweep(site, w, 0), node, shape);
  }

  /** Its clone is bound and seen at a size within the shape. */
  lemma BindsAndSees(site: Site, guests: Guests, g: Grants, node: string, shape: Shape, id: nat, v: int, mem: nat,
                     vcpus: nat, es: seq<Event>, end: World)
    requires v != 0 && v !in guests && mem <= shape.memoryBytes && vcpus <= shape.vcpus
    requires Leads(site, Claimed(site, guests[v := Guest(node, mem, vcpus)], node, shape, id, v), g[v := shape],
                   es, end)
    ensures Leads(site, Claimed(site, guests, node, shape, id, 0), g,
                  [Bind(id, v), Observe(v, node, mem, vcpus, false)] + es, end)
  {
    hide Leads, SnapshotOf;
    var w := Claimed(site, guests, node, shape, id, 0);
    var bound := Claimed(site, guests, node, shape, id, v);
    var seen := Claimed(site, guests[v := Guest(node, mem, vcpus)], node, shape, id, v);
    var observe := Observe(v, node, mem, vcpus, false);
    assert bound.res[id].vmid == v;
    LeadsOn(site, bound, g[v := shape], observe, seen, g[v := shape], es, end);
    LeadsOn(site, w, g, Bind(id, v), bound, g[v := shape], [observe] + es, end);
    assert [Bind(id, v)] + ([observe] + es) == [Bind(id, v), observe] + es;
  }

  /** With its reservation gone, the clone still grows to the shape it was granted. */
  lemma Regrows(site: Site, w: World, g: Grants, v: int, node: string, vcpus: nat)
    requires v in g && v in w.guests && v != 0 && w.promised == {} && !BoundIn(w.res, v) && !FreedIn(w.res, v)
    requires w.guests[v].node == node && w.guests[v].mem == g[v].memoryBytes && w.guests[v].vcpus <= vcpus <= g[v].vcpus
    ensures Leads(site, w, g, [Observe(v, node, g[v].memoryBytes, vcpus, false)],
                  w.(guests := w.guests[v := Guest(node, g[v].memoryBytes, vcpus)]))
  {
    hide SnapshotOf;
    var e := Observe(v, node, g[v].memoryBytes, vcpus, false);
    var end := w.(guests := w.guests[v := Guest(node, g[v].memoryBytes, vcpus)]);
    assert Leads(site, end, g, [], end);
    LeadsOn(site, w, g, e, end, g, [], end);
    assert [e] + [] == [e];
  }

  /** The sweep retires a clone seen at full memory, whatever its vCPUs. */
  lemma SeenRetires(site: Site, guests: Guests, node: string, shape: Shape, id: nat, v: int, now: nat)
    requires v != 0 && v in guests && guests[v].mem >= shape.memoryBytes
    ensures Swept(Claimed(site, guests, node, shape, id, v).res, SnapshotOf(site.nodes, guests), now) == map[]
  {
    hide SnapshotOf;
    SnapshotShows(Memory, site.nodes, guests);
  }

  /** The first clone is seen at full memory but `seen` vCPUs, which retires its reservation; a
      second is admitted on the vCPUs that then look free; the first grows to its shape. */
  function TwiceSpent(node: string, first: Shape, seen: nat, second: Shape): seq<Event> {
    [Reserve(node, first, [], 0), Bind(1, 1), Observe(1, node, first.memoryBytes, seen, false)]
      + Respent(node, first, second)
  }

  function Respent(node: string, first: Shape, second: Shape): seq<Event> {
    [Reserve(node, second, [], 0), Bind(2, 2), Observe(2, node, second.memoryBytes, second.vcpus, false),
     Observe(1, node, first.memoryBytes, first.vcpus, false)]
  }

  function Both(node: string, first: Shape, second: Shape): Guests {
    map[1 := Guest(node, first.memoryBytes, first.vcpus), 2 := Guest(node, second.memoryBytes, second.vcpus)]
  }

  lemma SecondHalf(site: Site, node: string, first: Shape, seen: nat, second: Shape)
    requires node in site.nodes && first.memoryBytes + second.memoryBytes <= site.Limit(Memory, node)
    requires seen < first.vcpus && seen + second.vcpus <= site.Limit(VCPU, node)
    ensures Leads(site, Claimed(site, map[1 := Guest(node, first.memoryBytes, seen)], node, first, 1, 1),
                  map[1 := first], Respent(node, first, second),
                  Claimed(site, Both(node, first, second), node, second, 2, 2))
  {
    hide HostedOn, Leads, SnapshotOf, Swept, Enabled, Apply;
    var guests, g := map[1 := Guest(node, first.memoryBytes, seen)], map[1 := first];
    var w := Claimed(site, guests, node, first, 1, 1);
    var end := Claimed(site, Both(node, first, second), node, second, 2, 2);
    var grown := Claimed(site, guests[2 := Guest(node, second.memoryBytes, second.vcpus)], node, second, 2, 2);
    var grow := Observe(1, node, first.memoryBytes, first.vcpus, false);
    Regrows(site, grown, g[2 := second], 1, node, first.vcpus);
    assert grown.guests[1 := Guest(node, first.memoryBytes, first.vcpus)] == end.guests;
    BindsAndSees(site, guests, g, node, second, 2, 2, second.memoryBytes, second.vcpus, [grow], end);
    SeenRetires(site, guests, node, first, 1, 1, 0);
    HostedOne(Memory, 1, guests[1]);
    HostedOne(VCPU, 1, guests[1]);
    Admits(site, w, node, second);
    var rest := [Bind(2, 2), Observe(2, node, second.memoryBytes, second.vcpus, false)] + [grow];
    LeadsOn(site, w, g, Reserve(node, second, [], 0), Claimed(site, guests, node, second, 2, 0), g, rest, end);
    assert [Reserve(node, second, [], 0)] + rest == Respent(node, first, second);
  }

  /** Every arrival is a clone within the shape reserved for it and nothing expires, and yet
      the guests end up over the vCPU limit by what the first clone had outstanding when its
      reservation retired. */
  lemma RetiringOnMemoryOverfills(site: Site, node: string, first: Shape, seen: nat, second: Shape)
    requires node in site.nodes && site.opts.Gated()
    requires first.memoryBytes + second.memoryBytes <= site.Limit(Memory, node)
    requires seen < first.vcpus <= site.Limit(VCPU, node) && seen + second.vcpus == site.Limit(VCPU, node)
    ensures
      var es := TwiceSpent(node, first, seen, second);
      && Legal(site, Fresh(map[]), es)
      && Leads(site, Fresh(map[]), map[], es, Run(site, Fresh(map[]), es))
      && Keeping(VCPU, Run(site, Fresh(map[]), es), node) == site.Limit(VCPU, node) + (first.vcpus - seen)
  {
    hide HostedOn, Keeping, Leads, SnapshotOf, Enabled, Apply, Legal, Run;
    var w, g, tail := Fresh(map[]), map[], Respent(node, first, second);
    var end := Claimed(site, Both(node, first, second), node, second, 2, 2);
    SecondHalf(site, node, first, seen, second);
    assert g[1 := first] == map[1 := first];
    BindsAndSees(site, w.guests, g, node, first, 1, 1, first.memoryBytes, seen, tail, end);
    HostedNone(Memory, node);
    HostedNone(VCPU, node);
    Admits(site, w, node, first);
    var rest := [Bind(1, 1), Observe(1, node, first.memoryBytes, seen, false)] + tail;
    LeadsOn(site, w, g, Reserve(node, first, [], 0), Claimed(site, map[], node, first, 1, 0), g, rest, end);
    assert [Reserve(node, first, [], 0)] + rest == TwiceSpent(node, first, seen, second);
    LeadsRuns(site, w, g, TwiceSpent(node, first, seen, second), end);
    KeepingTwo(VCPU, 1, end.guests[1], 2, end.guests[2], end.res, 2);
  }

  lemma HostedNone(d: Resource, node: string)
    ensures HostedOn(d, map[], node) == 0
  {}
}
