/** Runs of the capacity ledger against a cluster whose snapshots move on: reservations are
    taken, bound, released and swept while guests appear, change size and are destroyed.
    The result is that what is reserved is not spent twice: a node's guests and outstanding
    claims stay within its limit, up to what turns up on it without a live claim.
    `Retirement` says when nothing does, which for vCPUs is not always. */
module NoDoubleSpend {
  import opened Sums
  import opened Ledger

  datatype Guest = Guest(node: string, mem: nat, vcpus: nat) {
    function Size(d: Resource): nat { if d.Memory? then mem else vcpus }
  }

  type Guests = map<int, Guest>

  datatype NodeSpec = NodeSpec(memBytes: nat, cores: nat)

  /** What does not change during a run: the settings and the nodes' hardware. */
  datatype Site = Site(opts: Options, nodes: map<string, NodeSpec>) {
    function Limit(d: Resource, node: string): nat
      requires node in nodes
    {
      opts.Limit(d, NodeTotals(nodes[node].memBytes, nodes[node].cores, 0, 0))
    }
  }

  function SizeOf(d: Resource, guests: Guests, v: int): nat { if v in guests then guests[v].Size(d) else 0 }

  function SizeOn(d: Resource, guests: Guests, node: string, v: int): nat {
    if v in guests && guests[v].node == node then guests[v].Size(d) else 0
  }

  ghost function SizesOn(d: Resource, guests: Guests, node: string): int -> int {
    v => SizeOn(d, guests, node, v)
  }

  ghost function HostedOn(d: Resource, guests: Guests, node: string): nat {
    SumNotNegative(guests.Keys, SizesOn(d, guests, node));
    Sum(guests.Keys, SizesOn(d, guests, node))
  }

  /** The snapshot that a read of these nodes and guests yields. */
  ghost function SnapshotOf(nodes: map<string, NodeSpec>, guests: Guests): Snapshot {
    Snapshot(
      map n | n in nodes :: NodeTotals(nodes[n].memBytes, nodes[n].cores,
                                       HostedOn(Memory, guests, n), HostedOn(VCPU, guests, n)),
      map v | v in guests :: guests[v].mem,
      map v | v in guests :: guests[v].vcpus)
  }

  lemma SnapshotShows(d: Resource, nodes: map<string, NodeSpec>, guests: Guests)
    ensures Shows(d, SnapshotOf(nodes, guests), guests)
    ensures SnapshotOf(nodes, guests).nodes.Keys == nodes.Keys && SameGuests(SnapshotOf(nodes, guests))
    ensures forall n :: n in nodes ==> SnapshotOf(nodes, guests).nodes[n].Guests(d) == HostedOn(d, guests, n)
  {
    hide Sum;
  }

  /** `promised` holds the VMIDs whose destruction was promised to a reservation, until the
      VMID is used for a new VM; `last` is the highest reservation id handed out. */
  datatype World = World(guests: Guests, res: Reservations, promised: set<int>, last: nat)

  ghost function Snap(site: Site, w: World): Snapshot { SnapshotOf(site.nodes, w.guests) }

  predicate Distinct(vmids: seq<int>) {
    forall i, j :: 0 <= i < j < |vmids| ==> vmids[i] != vmids[j]
  }

  function Listed(vmids: seq<int>): set<int> { set v | v in vmids }

  predicate BoundIn(res: Reservations, vmid: int) { exists id :: id in res && res[id].vmid == vmid }

  predicate FreedIn(res: Reservations, vmid: int) { exists id :: id in res && vmid in res[id].freeing }

  // ------------------------------------------------------------------
  // Events
  // ------------------------------------------------------------------

  datatype Event =
    | Reserve(node: string, shape: Shape, freeing: seq<int>, now: nat)
    | Sweep(now: nat)
    | Bind(id: nat, vmid: int)
    | Release(id: nat)
    | Observe(vmid: int, home: string, mem: nat, vcpus: nat, reused: bool)
    | Vanish(vmid: int)

  /** Victims are listed once, were never promised before, and are on the node. */
  ghost predicate CanReserve(w: World, node: string, freeing: seq<int>) {
    Distinct(freeing) &&
    forall v :: v in freeing ==> v != 0 && v !in w.promised && (v in w.guests ==> w.guests[v].node == node)
  }

  ghost function AfterSweep(site: Site, w: World, now: nat): World {
    w.(res := Swept(w.res, Snap(site, w), now))
  }

  /** A swept world with one more reservation. */
  function WithReservation(w: World, r: Reservation): World {
    w.(res := w.res[w.last + 1 := r],
       promised := w.promised + Listed(r.freeing),
       last := w.last + 1)
  }

  /** Fit and reserve in one step. */
  ghost function Reserved(site: Site, swept: World, r: Reservation): World {
    if FitsOn(site.opts, Snap(site, swept), swept.res, r.node, r.shape, r.freeing) then WithReservation(swept, r)
    else swept
  }

  /** The VMID of a destroyed victim may be used again: nothing refers to it any more. */
  predicate Forgotten(w: World, vmid: int) {
    vmid !in w.guests && !FreedIn(w.res, vmid) && !BoundIn(w.res, vmid)
  }

  /** A reservation is bound once, to a VMID no other live reservation has. */
  predicate CanBind(w: World, id: nat, vmid: int) {
    id in w.res ==>
      && w.res[id].vmid == 0 && vmid != 0 && !BoundIn(w.res, vmid)
      && (vmid in w.promised ==> Forgotten(w, vmid))
      && (vmid in w.guests ==> w.guests[vmid].node == w.res[id].node)
  }

  function Bound(w: World, id: nat, vmid: int): World {
    if id in w.res then w.(res := w.res[id := w.res[id].(vmid := vmid)], promised := w.promised - {vmid}) else w
  }

  /** Any guest may appear or change size. It does not migrate, a clone appears on the node
      reserved for it, and a victim on the node it was listed for. */
  predicate CanObserve(w: World, vmid: int, home: string, reused: bool) {
    && (vmid in w.guests ==> w.guests[vmid].node == home)
    && (forall id :: id in w.res && w.res[id].vmid == vmid != 0 ==> w.res[id].node == home)
    && (forall id :: id in w.res && vmid in w.res[id].freeing ==> w.res[id].node == home)
    && (reused ==> Forgotten(w, vmid))
  }

  function Observed(w: World, vmid: int, home: string, mem: nat, vcpus: nat, reused: bool): World {
    w.(guests := w.guests[vmid := Guest(home, mem, vcpus)],
       promised := if reused then w.promised - {vmid} else w.promised)
  }

  function Vanished(w: World, vmid: int): World { w.(guests := w.guests - {vmid}) }

  /** The callers' and the cluster's side of the contract. */
  ghost predicate Enabled(site: Site, w: World, e: Event) {
    match e
    case Reserve(node, _, freeing, now) => CanReserve(w, node, freeing)
    case Sweep(_) => true
    case Bind(id, vmid) => CanBind(w, id, vmid)
    case Release(_) => true
    case Observe(vmid, home, _, _, reused) => CanObserve(w, vmid, home, reused)
    case Vanish(vmid) => vmid in w.guests
  }

  ghost function Apply(site: Site, w: World, e: Event): World {
    match e
    case Reserve(node, shape, freeing, now) =>
      Reserved(site, AfterSweep(site, w, now), Reservation(node, shape, 0, freeing, now + site.opts.reservationTTL))
    case Sweep(now) => AfterSweep(site, w, now)
    case Bind(id, vmid) => Bound(w, id, vmid)
    case Release(id) => w.(res := w.res - {id})
    case Observe(vmid, home, mem, vcpus, reused) => Observed(w, vmid, home, mem, vcpus, reused)
    case Vanish(vmid) => Vanished(w, vmid)
  }

  ghost predicate Legal(site: Site, w: World, es: seq<Event>)
    decreases |es|
  {
    es == [] || (Enabled(site, w, es[0]) && Legal(site, Apply(site, w, es[0]), es[1..]))
  }

  ghost function Run(site: Site, w: World, es: seq<Event>): World
    decreases |es|
  {
    if es == [] then w else Run(site, Apply(site, w, es[0]), es[1..])
  }

  // ------------------------------------------------------------------
  // What a node has handed out
  // ------------------------------------------------------------------

  ghost function UnpromisedOn(d: Resource, w: World, node: string): int -> int {
    v => if v in w.promised then 0 else SizeOn(d, w.guests, node, v)
  }

  function PendingAt(d: Resource, s: Snapshot, res: Reservations, promised: set<int>, node: string, id: nat): nat {
    if id in res && res[id].node == node && res[id].vmid !in promised then Pending(d, s, res[id]) else 0
  }

  ghost function PendingOn(d: Resource, s: Snapshot, res: Reservations, promised: set<int>, node: string): nat -> int {
    (id: nat) => PendingAt(d, s, res, promised, node, id)
  }

  /** The guests not promised for destruction. */
  ghost function Keeping(d: Resource, w: World, node: string): int {
    Sum(w.guests.Keys, UnpromisedOn(d, w, node))
  }

  /** Two ways to count. `Full` counts the unobserved part of every reservation; `Net` leaves
      out those of clones that were themselves promised for destruction before they were
      observed in full. */
  datatype Count = Full | Net

  function Exempt(k: Count, w: World): set<int> { if k.Full? then {} else w.promised }

  /** The unobserved parts of the reservations that count. */
  ghost function Awaited(k: Count, d: Resource, s: Snapshot, w: World, node: string): int {
    Sum(w.res.Keys, PendingOn(d, s, w.res, Exempt(k, w), node))
  }

  /** What a node has handed out. */
  ghost function Spent(k: Count, d: Resource, site: Site, w: World, node: string): int {
    Keeping(d, w, node) + Awaited(k, d, Snap(site, w), w, node)
  }

  /** The size a reserved guest is accounted for: its own, or its claim if that is larger. */
  function Accounted(d: Resource, r: Reservation, size: nat): nat {
    if r.shape.Claim(d) > size then r.shape.Claim(d) else size
  }

  /** The part of a claim that a guest of this size shows. */
  function PartSeen(d: Resource, r: Reservation, size: nat): nat {
    if r.shape.Claim(d) < size then r.shape.Claim(d) else size
  }

  ghost function Cover(d: Resource, res: Reservations, vmid: int, size: nat): nat {
    if id :| id in res && res[id].vmid == vmid != 0 then Accounted(d, res[id], size) else size
  }

  /** What an event brings onto a node without having reserved it: a guest that is not a
      clone of a live reservation, or a clone growing past the size reserved for it. */
  ghost function Unreserved(d: Resource, w: World, e: Event, node: string): nat {
    if e.Observe? && e.home == node && (e.reused || e.vmid !in w.promised) then
      SaturatingSub(Cover(d, w.res, e.vmid, if d.Memory? then e.mem else e.vcpus),
                    Cover(d, w.res, e.vmid, SizeOf(d, w.guests, e.vmid)))
    else 0
  }

  /** What is charged a second time when guest `v` changes: the fall of the observed part of
      its own live reservation. */
  ghost function Recharge(d: Resource, site: Site, w: World, w': World, v: int, node: string): nat {
    if id :| id in w.res && w.res[id].vmid == v then
      SaturatingSub(PendingAt(d, Snap(site, w'), w.res, {}, node, id), PendingAt(d, Snap(site, w), w.res, {}, node, id))
    else 0
  }

  /** It matters for a guest promised for destruction, whose size is not counted any more. */
  ghost function Recharged(d: Resource, site: Site, w: World, e: Event, node: string): nat {
    if (e.Observe? || e.Vanish?) && e.vmid in w.promised then Recharge(d, site, w, Apply(site, w, e), e.vmid, node)
    else 0
  }

  ghost function TotalRecharged(d: Resource, site: Site, w: World, es: seq<Event>, node: string): nat
    decreases |es|
  {
    if es == [] then 0
    else Recharged(d, site, w, es[0], node) + TotalRecharged(d, site, Apply(site, w, es[0]), es[1..], node)
  }

  ghost function TotalUnreserved(d: Resource, site: Site, w: World, es: seq<Event>, node: string): nat
    decreases |es|
  {
    if es == [] then 0
    else Unreserved(d, w, es[0], node) + TotalUnreserved(d, site, Apply(site, w, es[0]), es[1..], node)
  }

  // ------------------------------------------------------------------
  // Bookkeeping that every event keeps
  // ------------------------------------------------------------------

  /** No VMID is listed twice, and a listed guest is on the reserved node. */
  ghost predicate ListsDisjoint(guests: Guests, res: Reservations) {
    && (forall id :: id in res ==> Distinct(res[id].freeing))
    && (forall id, v :: id in res && v in res[id].freeing && v in guests ==> guests[v].node == res[id].node)
    && (forall i, j, v :: i in res && j in res && v in res[i].freeing && v in res[j].freeing ==> i == j)
  }

  ghost predicate ListsPromised(w: World) {
    && 0 !in w.promised
    && (forall id, v :: id in w.res && v in w.res[id].freeing ==> v in w.promised)
  }

  /** A bound VM has one reservation and lives on the reserved node. */
  ghost predicate BindingsUnique(w: World) {
    && (forall i, j :: i in w.res && j in w.res && w.res[i].vmid == w.res[j].vmid != 0 ==> i == j)
    && (forall id :: id in w.res && w.res[id].vmid != 0 && w.res[id].vmid in w.guests ==>
          w.guests[w.res[id].vmid].node == w.res[id].node)
  }

  ghost predicate IdsUsed(w: World) { forall id :: id in w.res ==> id <= w.last }

  ghost predicate Consistent(w: World) {
    IdsUsed(w) && ListsDisjoint(w.guests, w.res) && ListsPromised(w) && BindingsUnique(w)
  }

  lemma StaysConsistent(site: Site, w: World, e: Event)
    requires Consistent(w) && Enabled(site, w, e)
    ensures Consistent(Apply(site, w, e))
  {
    hide SnapshotOf, FitsOn, Swept, Consistent, CanReserve, CanBind, CanObserve, Bound, Observed, Vanished,
      WithReservation;
    match e
    case Reserve(node, shape, freeing, now) =>
      var swept, r := AfterSweep(site, w, now), Reservation(node, shape, 0, freeing, now + site.opts.reservationTTL);
      SweepStaysConsistent(w, swept, Snap(site, w), now);
      CanReserveSwept(w, swept, node, freeing);
      ReservedStaysConsistent(swept, r);
    case Sweep(now) => SweepStaysConsistent(w, AfterSweep(site, w, now), Snap(site, w), now);
    case Bind(id, vmid) => BoundStaysConsistent(w, id, vmid);
    case Release(id) => ReleaseStaysConsistent(w, id);
    case Observe(vmid, home, mem, vcpus, reused) => ObservedStaysConsistent(w, vmid, home, mem, vcpus, reused);
    case Vanish(vmid) => VanishedStaysConsistent(w, vmid);
  }

  lemma SweepStaysConsistent(w: World, w': World, s: Snapshot, now: nat)
    requires Consistent(w) && w' == w.(res := Swept(w.res, s, now))
    ensures Consistent(w')
  {
    forall id | id in w.res ensures Distinct(StillSeen(s, w.res[id].freeing)) {
      StillSeenDistinct(s, w.res[id].freeing);
    }
  }

  lemma {:induction false} StillSeenDistinct(s: Snapshot, vmids: seq<int>)
    requires Distinct(vmids)
    ensures Distinct(StillSeen(s, vmids))
  {
    if vmids != [] {
      StillSeenDistinct(s, vmids[..|vmids| - 1]);
      assert vmids[|vmids| - 1] !in vmids[..|vmids| - 1];
    }
  }

  lemma ReservedStaysConsistent(w: World, r: Reservation)
    requires Consistent(w) && CanReserve(w, r.node, r.freeing) && r.vmid == 0
    ensures Consistent(WithReservation(w, r))
  {}

  lemma BoundStaysConsistent(w: World, id: nat, vmid: int)
    requires Consistent(w) && CanBind(w, id, vmid)
    ensures Consistent(Bound(w, id, vmid))
  {}

  lemma ReleaseStaysConsistent(w: World, id: nat)
    requires Consistent(w)
    ensures Consistent(w.(res := w.res - {id}))
  {}

  lemma ObservedStaysConsistent(w: World, vmid: int, home: string, mem: nat, vcpus: nat, reused: bool)
    requires Consistent(w) && CanObserve(w, vmid, home, reused)
    ensures Consistent(Observed(w, vmid, home, mem, vcpus, reused))
  {}

  lemma VanishedStaysConsistent(w: World, vmid: int)
    requires Consistent(w)
    ensures Consistent(Vanished(w, vmid))
  {}

  // ------------------------------------------------------------------
  // The ledger never shows less than what is spent
  // ------------------------------------------------------------------

  ghost function PickedOn(d: Resource, guests: Guests, node: string, picked: set<int>): int -> int {
    v => if v in picked then SizeOn(d, guests, node, v) else 0
  }

  ghost function PickedTotal(d: Resource, guests: Guests, node: string, picked: set<int>): int {
    Sum(guests.Keys, PickedOn(d, guests, node, picked))
  }

  ghost function CreditsOn(d: Resource, s: Snapshot, res: Reservations, node: string): nat -> int {
    id => if id in res && res[id].node == node then Credit(d, s, res[id].freeing) else 0
  }

  ghost predicate Shows(d: Resource, s: Snapshot, guests: Guests) {
    forall v :: s.Observed(d, v) == SizeOf(d, guests, v)
  }

  lemma NothingPicked(d: Resource, guests: Guests, node: string)
    ensures PickedTotal(d, guests, node, {}) == 0
  {
    hide Sum;
    var f := PickedOn(d, guests, node, {});
    SumOfSums(guests.Keys, f, f, f);
  }

  lemma OnePicked(d: Resource, guests: Guests, node: string, picked: set<int>, v: int)
    requires v !in picked
    ensures PickedTotal(d, guests, node, picked + {v})
      == PickedTotal(d, guests, node, picked) + SizeOn(d, guests, node, v)
  {
    hide Sum;
    SumChange(guests.Keys, PickedOn(d, guests, node, picked), PickedOn(d, guests, node, picked + {v}), v);
  }

  /** The credit of a duplicate-free list of guests of one node is their total size. */
  lemma {:induction false} CreditIsTotal(d: Resource, s: Snapshot, guests: Guests, node: string, vmids: seq<int>)
    requires Shows(d, s, guests) && Distinct(vmids)
    requires forall v :: v in vmids && v in guests ==> guests[v].node == node
    ensures Credit(d, s, vmids) == PickedTotal(d, guests, node, Listed(vmids))
  {
    hide PickedTotal;
    if vmids == [] {
      NothingPicked(d, guests, node);
      assert Listed(vmids) == {};
    } else {
      var init, last := vmids[..|vmids| - 1], vmids[|vmids| - 1];
      assert last in vmids && last !in init;
      CreditIsTotal(d, s, guests, node, init);
      OnePicked(d, guests, node, Listed(init), last);
      assert Listed(vmids) == Listed(init) + {last};
    }
  }

  lemma SplitPicked(d: Resource, guests: Guests, node: string, part: set<int>, picked: set<int>)
    requires forall v :: v in part && v in guests ==> v in picked
    ensures PickedTotal(d, guests, node, picked)
      == PickedTotal(d, guests, node, picked - part) + PickedTotal(d, guests, node, part)
  {
    hide Sum;
    SumOfSums(guests.Keys, PickedOn(d, guests, node, picked - part), PickedOn(d, guests, node, part),
              PickedOn(d, guests, node, picked));
  }

  /** Disjoint lists of picked guests cannot credit more than the picked guests hold. */
  lemma {:induction false} CreditsWithinPicked(
      d: Resource, s: Snapshot, guests: Guests, res: Reservations, ids: set<nat>, node: string, picked: set<int>)
    requires Shows(d, s, guests) && ListsDisjoint(guests, res) && ids <= res.Keys
    requires forall id, v :: id in ids && res[id].node == node && v in res[id].freeing && v in guests ==> v in picked
    ensures Sum(ids, CreditsOn(d, s, res, node)) <= PickedTotal(d, guests, node, picked)
    decreases |ids|
  {
    hide Shows;
    var credits := CreditsOn(d, s, res, node);
    if ids == {} {
      SumNotNegative(guests.Keys, PickedOn(d, guests, node, picked));
    } else {
      hide Sum, PickedTotal;
      var id :| id in ids;
      SumTakeOut(ids, credits, id);
      if res[id].node != node {
        CreditsWithinPicked(d, s, guests, res, ids - {id}, node, picked);
      } else {
        var mine := Listed(res[id].freeing);
        CreditsWithinPicked(d, s, guests, res, ids - {id}, node, picked - mine);
        CreditIsTotal(d, s, guests, node, res[id].freeing);
        SplitPicked(d, guests, node, mine, picked);
      }
    }
  }

  lemma UnpromisedSplit(d: Resource, w: World, node: string)
    ensures HostedOn(d, w.guests, node) == Keeping(d, w, node) + PickedTotal(d, w.guests, node, w.promised)
  {
    hide Sum;
    SumOfSums(w.guests.Keys, UnpromisedOn(d, w, node), PickedOn(d, w.guests, node, w.promised),
              SizesOn(d, w.guests, node));
  }

  lemma TermsSplit(k: Count, d: Resource, s: Snapshot, w: World, node: string)
    ensures Awaited(k, d, s, w, node)
      <= Sum(w.res.Keys, Terms(d, s, w.res, node)) + Sum(w.res.Keys, CreditsOn(d, s, w.res, node))
  {
    hide Sum, Pending, Credit;
    var pending := PendingOn(d, s, w.res, {}, node);
    SumOfSums(w.res.Keys, Terms(d, s, w.res, node), CreditsOn(d, s, w.res, node), pending);
    SumAtMost(w.res.Keys, PendingOn(d, s, w.res, Exempt(k, w), node), pending);
  }

  lemma SpentWithinRaw(k: Count, d: Resource, site: Site, w: World, node: string)
    requires Consistent(w) && node in site.nodes
    ensures node in Snap(site, w).nodes
    ensures Spent(k, d, site, w, node) <= Raw(d, Snap(site, w), w.res, node)
  {
    hide Sum, Shows, SnapshotOf, HostedOn, Keeping, PickedTotal, Awaited;
    var s := Snap(site, w);
    SnapshotShows(d, site.nodes, w.guests);
    CreditsWithinPicked(d, s, w.guests, w.res, w.res.Keys, node, w.promised);
    UnpromisedSplit(d, w, node);
    TermsSplit(k, d, s, w, node);
  }

  // ------------------------------------------------------------------
  // Reserving
  // ------------------------------------------------------------------

  /** Dropping reservations, lowering their pending parts, or promising more spends nothing. */
  lemma FewerReservations(k: Count, d: Resource, s: Snapshot, w: World, w': World, node: string)
    requires w'.res.Keys <= w.res.Keys
    requires forall id :: id in w'.res ==>
      w'.res[id].node == w.res[id].node && Pending(d, s, w'.res[id]) <= Pending(d, s, w.res[id])
    requires forall id :: id in w'.res && w.res[id].vmid in Exempt(k, w) ==> w'.res[id].vmid in Exempt(k, w')
    ensures Awaited(k, d, s, w', node) <= Awaited(k, d, s, w, node)
  {
    hide Sum, Pending;
    var f, f' := PendingOn(d, s, w.res, Exempt(k, w), node), PendingOn(d, s, w'.res, Exempt(k, w'), node);
    SumSupport(w'.res.Keys, w.res.Keys, f');
    SumAtMost(w.res.Keys, f', f);
  }

  /** Only the guests and the promises matter to the guest part. */
  lemma KeepingSame(d: Resource, w: World, w': World, node: string)
    requires w'.guests == w.guests
    requires forall v :: v in w.guests ==> (v in w'.promised <==> v in w.promised)
    ensures Keeping(d, w', node) == Keeping(d, w, node)
  {
    hide Sum;
    SumSame(w.guests.Keys, UnpromisedOn(d, w, node), UnpromisedOn(d, w', node));
  }

  lemma SweepSpendsNothing(k: Count, d: Resource, site: Site, w: World, now: nat, node: string)
    ensures Spent(k, d, site, AfterSweep(site, w, now), node) <= Spent(k, d, site, w, node)
  {
    hide SnapshotOf, Keeping, Awaited;
    FewerReservations(k, d, Snap(site, w), w, AfterSweep(site, w, now), node);
    KeepingSame(d, w, AfterSweep(site, w, now), node);
  }

  lemma ReleaseSpendsNothing(k: Count, d: Resource, site: Site, w: World, id: nat, node: string)
    ensures Spent(k, d, site, w.(res := w.res - {id}), node) <= Spent(k, d, site, w, node)
  {
    hide SnapshotOf, Keeping, Awaited;
    FewerReservations(k, d, Snap(site, w), w, w.(res := w.res - {id}), node);
    KeepingSame(d, w, w.(res := w.res - {id}), node);
  }

  lemma BindSpendsNothing(k: Count, d: Resource, site: Site, w: World, id: nat, vmid: int, node: string)
    requires CanBind(w, id, vmid) && 0 !in w.promised
    ensures Spent(k, d, site, Bound(w, id, vmid), node) <= Spent(k, d, site, w, node)
  {
    hide SnapshotOf, Keeping, Awaited;
    FewerReservations(k, d, Snap(site, w), w, Bound(w, id, vmid), node);
    KeepingSame(d, w, Bound(w, id, vmid), node);
  }

  lemma NewPending(k: Count, d: Resource, s: Snapshot, w: World, r: Reservation, node: string)
    requires IdsUsed(w) && r.vmid == 0
    ensures Awaited(k, d, s, WithReservation(w, r), node)
         <= Awaited(k, d, s, w, node) + if r.node == node then r.shape.Claim(d) else 0
  {
    hide Sum;
    var w', id := WithReservation(w, r), w.last + 1;
    var f, f' := PendingOn(d, s, w.res, Exempt(k, w), node), PendingOn(d, s, w'.res, Exempt(k, w'), node);
    assert w'.res.Keys == w.res.Keys + {id};
    SumAdd<nat>(w.res.Keys, f', id);
    SumAtMost(w.res.Keys, f', f);
  }

  lemma NewPromises(d: Resource, s: Snapshot, w: World, r: Reservation, node: string)
    requires Shows(d, s, w.guests) && CanReserve(w, r.node, r.freeing)
    ensures Keeping(d, WithReservation(w, r), node)
         == Keeping(d, w, node) - if r.node == node then Credit(d, s, r.freeing) else 0
  {
    hide Sum, Shows, Credit;
    var w', mine := WithReservation(w, r), Listed(r.freeing);
    if r.node == node {
      CreditIsTotal(d, s, w.guests, node, r.freeing);
      SumOfSums(w.guests.Keys, UnpromisedOn(d, w', node), PickedOn(d, w.guests, node, mine), UnpromisedOn(d, w, node));
    } else {
      SumSame(w.guests.Keys, UnpromisedOn(d, w', node), UnpromisedOn(d, w, node));
    }
  }

  /** A new reservation adds at most its claim, less its victims. */
  lemma ReservedSpends(k: Count, d: Resource, site: Site, w: World, r: Reservation, node: string)
    requires IdsUsed(w) && r.vmid == 0 && CanReserve(w, r.node, r.freeing)
    ensures Spent(k, d, site, WithReservation(w, r), node) <= Spent(k, d, site, w, node)
         + if r.node != node then 0 else r.shape.Claim(d) - Credit(d, Snap(site, w), r.freeing)
  {
    hide Shows, SnapshotOf, CanReserve, Credit, Keeping, Awaited;
    SnapshotShows(d, site.nodes, w.guests);
    NewPending(k, d, Snap(site, w), w, r, node);
    NewPromises(d, Snap(site, w), w, r, node);
  }

  /** The arithmetic of admission: claim against the larger of ledger and limit. */
  lemma AdmittedWithinBound(d: Resource, o: Options, s: Snapshot, res: Reservations, node: string, shape: Shape,
                            freeing: seq<int>, spent: int, bound: int)
    requires FitsOn(o, s, res, node, shape, freeing) && (d.VCPU? ==> o.Gated())
    requires spent <= Raw(d, s, res, node) && spent <= bound && o.Limit(d, s.nodes[node]) <= bound
    ensures spent + shape.Claim(d) - Credit(d, s, freeing) <= bound
  {
    hide Raw, Credit, Floor, SaturatingSub;
    if d.Memory? {
      SaturatingSubBound(o.Limit(Memory, s.nodes[node]), Committed(Memory, s, res, node), bound, spent);
    }
  }

  lemma SaturatingSubBound(a: nat, b: nat, bound: int, spent: int)
    requires a <= bound && spent <= b && spent <= bound
    ensures SaturatingSub(a, b) <= bound - spent
  {}

  lemma LimitOf(d: Resource, site: Site, w: World, node: string)
    requires node in site.nodes
    ensures node in Snap(site, w).nodes
    ensures site.opts.Limit(d, Snap(site, w).nodes[node]) == site.Limit(d, node)
  {
    hide Sum, Floor, SaturatingSub;
  }

  /** An admitted reservation takes no more than what its victims give back plus what is
      left: the node stays within its limit, or within whatever it was over by before. */
  lemma ReserveWithinBound(k: Count, d: Resource, site: Site, w: World, r: Reservation, n: string, bound: int)
    requires Consistent(w) && CanReserve(w, r.node, r.freeing) && r.vmid == 0
    requires n in site.nodes && (d.VCPU? ==> site.opts.Gated())
    requires site.Limit(d, n) <= bound && Spent(k, d, site, w, n) <= bound
    ensures Spent(k, d, site, Reserved(site, w, r), n) <= bound
  {
    hide Spent, FitsOn, Raw, Credit, SnapshotOf, CanReserve, ListsDisjoint, ListsPromised, BindingsUnique;
    if FitsOn(site.opts, Snap(site, w), w.res, r.node, r.shape, r.freeing) {
      ReservedSpends(k, d, site, w, r, n);
      if n == r.node {
        SpentWithinRaw(k, d, site, w, n);
        LimitOf(d, site, w, n);
        AdmittedWithinBound(d, site.opts, Snap(site, w), w.res, n, r.shape, r.freeing, Spent(k, d, site, w, n), bound);
      }
    }
  }

  // ------------------------------------------------------------------
  // The cluster moving on
  // ------------------------------------------------------------------

  /** Only guest `v` of node `home` differs. */
  ghost predicate OnlyChanged(w: World, w': World, v: int, home: string) {
    && w'.res == w.res && w'.promised == w.promised
    && w'.guests.Keys + {v} == w.guests.Keys + {v}
    && (forall x :: x in w.guests && x != v ==> w'.guests[x] == w.guests[x])
    && (v in w.guests ==> w.guests[v].node == home)
    && (v in w'.guests ==> w'.guests[v].node == home)
  }

  lemma KeepingChange(d: Resource, w: World, w': World, node: string, v: int, home: string)
    requires OnlyChanged(w, w', v, home)
    ensures Keeping(d, w', node) - Keeping(d, w, node) == UnpromisedOn(d, w', node)(v) - UnpromisedOn(d, w, node)(v)
  {
    hide Sum;
    var all := w.guests.Keys + {v};
    var f, f' := UnpromisedOn(d, w, node), UnpromisedOn(d, w', node);
    SumSupport(w.guests.Keys, all, f);
    SumSupport(w'.guests.Keys, all, f');
    SumChange(all, f, f', v);
  }

  /** A reservation bound to another VM, or to none, sees no difference. */
  lemma OtherPendingSame(d: Resource, site: Site, w: World, w': World, v: int, home: string, r: Reservation)
    requires OnlyChanged(w, w', v, home) && (r.vmid != v || v == 0)
    ensures Pending(d, Snap(site, w'), r) == Pending(d, Snap(site, w), r)
  {
    hide SnapshotOf;
    SnapshotShows(d, site.nodes, w.guests);
    SnapshotShows(d, site.nodes, w'.guests);
  }

  lemma AwaitedChange(k: Count, d: Resource, site: Site, w: World, w': World, v: int, home: string, node: string,
                      id: nat)
    requires OnlyChanged(w, w', v, home)
    requires forall i :: i in w.res && w.res[i].vmid == v != 0 ==> i == id
    ensures Awaited(k, d, Snap(site, w'), w', node) - Awaited(k, d, Snap(site, w), w, node)
         == PendingAt(d, Snap(site, w'), w.res, Exempt(k, w), node, id)
           - PendingAt(d, Snap(site, w), w.res, Exempt(k, w), node, id)
  {
    hide Sum, SnapshotOf, Pending;
    forall i | i in w.res && i != id
      ensures Pending(d, Snap(site, w'), w.res[i]) == Pending(d, Snap(site, w), w.res[i])
    {
      OtherPendingSame(d, site, w, w', v, home, w.res[i]);
    }
    SumChange(w.res.Keys, PendingOn(d, Snap(site, w), w.res, Exempt(k, w), node),
              PendingOn(d, Snap(site, w'), w.res, Exempt(k, w), node), id);
  }

  lemma BoundPending(d: Resource, site: Site, w: World, r: Reservation)
    requires r.vmid != 0
    ensures SizeOf(d, w.guests, r.vmid) + Pending(d, Snap(site, w), r)
         == Accounted(d, r, SizeOf(d, w.guests, r.vmid))
  {
    hide Sum;
  }

  lemma CoverBound(d: Resource, w: World, id: nat, size: nat)
    requires BindingsUnique(w) && id in w.res && w.res[id].vmid != 0
    ensures Cover(d, w.res, w.res[id].vmid, size) == Accounted(d, w.res[id], size)
  {}

  lemma CoverUnbound(d: Resource, res: Reservations, v: int, size: nat)
    requires forall id :: id in res && res[id].vmid == v ==> v == 0
    ensures Cover(d, res, v, size) == size
  {}

  /** A change of one unpromised guest moves what is spent on its node by the change of the
      size it is accounted for. */
  lemma ChangeSpends(k: Count, d: Resource, site: Site, w: World, w': World, v: int, home: string, node: string)
    requires BindingsUnique(w) && OnlyChanged(w, w', v, home)
    requires v !in w.promised && 0 !in w.promised
    requires forall id :: id in w.res && w.res[id].vmid == v != 0 ==> w.res[id].node == home
    ensures Spent(k, d, site, w', node) - Spent(k, d, site, w, node)
         == if home != node then 0
            else Cover(d, w.res, v, SizeOf(d, w'.guests, v)) - Cover(d, w.res, v, SizeOf(d, w.guests, v))
  {
    hide Sum, SnapshotOf, Pending, Keeping, Awaited;
    KeepingChange(d, w, w', node, v, home);
    if id :| id in w.res && w.res[id].vmid == v != 0 {
      hide Cover;
      AwaitedChange(k, d, site, w, w', v, home, node, id);
      BoundPending(d, site, w, w.res[id]);
      BoundPending(d, site, w', w.res[id]);
      CoverBound(d, w, id, SizeOf(d, w.guests, v));
      CoverBound(d, w, id, SizeOf(d, w'.guests, v));
    } else {
      hide Cover;
      NoneBoundSame(k, d, site, w, w', v, home, node);
      CoverUnbound(d, w.res, v, SizeOf(d, w.guests, v));
      CoverUnbound(d, w.res, v, SizeOf(d, w'.guests, v));
    }
  }

  lemma NoneBoundSame(k: Count, d: Resource, site: Site, w: World, w': World, v: int, home: string, node: string)
    requires OnlyChanged(w, w', v, home)
    requires forall id :: id in w.res && w.res[id].vmid == v && v !in Exempt(k, w) ==> v == 0
    ensures Awaited(k, d, Snap(site, w'), w', node) == Awaited(k, d, Snap(site, w), w, node)
  {
    hide Sum, SnapshotOf, Pending;
    forall i | i in w.res && (w.res[i].vmid != v || v == 0)
      ensures Pending(d, Snap(site, w'), w.res[i]) == Pending(d, Snap(site, w), w.res[i])
    {
      OtherPendingSame(d, site, w, w', v, home, w.res[i]);
    }
    SumSame(w.res.Keys, PendingOn(d, Snap(site, w), w.res, Exempt(k, w), node),
            PendingOn(d, Snap(site, w'), w.res, Exempt(k, w), node));
  }

  /** A promised guest is on its way out whatever its size; the full total moves by what its own
      reservation has pending. */
  lemma PromisedChange(d: Resource, site: Site, w: World, w': World, v: int, home: string, node: string, id: nat)
    requires BindingsUnique(w) && OnlyChanged(w, w', v, home) && v in w.promised && 0 !in w.promised
    requires id in w.res && w.res[id].vmid == v
    ensures Spent(Full, d, site, w', node) - Spent(Full, d, site, w, node)
         == PendingAt(d, Snap(site, w'), w.res, {}, node, id) - PendingAt(d, Snap(site, w), w.res, {}, node, id)
  {
    hide Sum, SnapshotOf, Pending, Keeping, Awaited;
    KeepingChange(d, w, w', node, v, home);
    AwaitedChange(Full, d, site, w, w', v, home, node, id);
  }

  /** Without one it does not move at all. */
  lemma PromisedUnbound(k: Count, d: Resource, site: Site, w: World, w': World, v: int, home: string, node: string)
    requires OnlyChanged(w, w', v, home) && v in w.promised
    requires k.Full? ==> !BoundIn(w.res, v)
    ensures Spent(k, d, site, w', node) == Spent(k, d, site, w, node)
  {
    hide Sum, SnapshotOf, Pending, Keeping, Awaited;
    KeepingChange(d, w, w', node, v, home);
    NoneBoundSame(k, d, site, w, w', v, home, node);
  }

  lemma PromisedSpends(k: Count, d: Resource, site: Site, w: World, w': World, v: int, home: string, node: string)
    requires BindingsUnique(w) && OnlyChanged(w, w', v, home) && v in w.promised && 0 !in w.promised
    ensures k.Net? ==> Spent(k, d, site, w', node) == Spent(k, d, site, w, node)
    ensures k.Full? ==> Spent(k, d, site, w', node) <= Spent(k, d, site, w, node) + Recharge(d, site, w, w', v, node)
  {
    hide SnapshotOf, Spent, PendingAt, OnlyChanged;
    if id :| k.Full? && id in w.res && w.res[id].vmid == v {
      PromisedChange(d, site, w, w', v, home, node, id);
      RechargeBound(d, site, w, w', id, node);
    } else {
      PromisedUnbound(k, d, site, w, w', v, home, node);
    }
  }

  lemma RechargeBound(d: Resource, site: Site, w: World, w': World, id: nat, node: string)
    requires BindingsUnique(w) && id in w.res && w.res[id].vmid != 0
    ensures
      var rise := PendingAt(d, Snap(site, w'), w.res, {}, node, id) - PendingAt(d, Snap(site, w), w.res, {}, node, id);
      Recharge(d, site, w, w', w.res[id].vmid, node) == if rise > 0 then rise else 0
  {
    hide SnapshotOf, PendingAt;
  }

  /** A VMID nothing refers to can leave the promises without effect. */
  lemma ForgetSpendsNothing(k: Count, d: Resource, site: Site, w: World, v: int, node: string)
    requires Forgotten(w, v)
    ensures Spent(k, d, site, w.(promised := w.promised - {v}), node) == Spent(k, d, site, w, node)
  {
    hide Sum, SnapshotOf, Pending, Keeping;
    var w' := w.(promised := w.promised - {v});
    KeepingSame(d, w, w', node);
    var s := Snap(site, w);
    SumSame(w.res.Keys, PendingOn(d, s, w.res, Exempt(k, w), node), PendingOn(d, s, w.res, Exempt(k, w'), node));
  }

  lemma ObserveSpends(k: Count, d: Resource, site: Site, w: World, e: Event, node: string)
    requires Consistent(w) && e.Observe? && Enabled(site, w, e)
    ensures Spent(k, d, site, Apply(site, w, e), node)
         <= Spent(k, d, site, w, node) + Unreserved(d, w, e, node)
            + if k.Full? then Recharged(d, site, w, e, node) else 0
  {
    hide Spent, Cover, ListsDisjoint, Recharge;
    var w1 := if e.reused then w.(promised := w.promised - {e.vmid}) else w;
    var w' := Apply(site, w, e);
    assert OnlyChanged(w1, w', e.vmid, e.home);
    if e.reused {
      ForgetSpendsNothing(k, d, site, w, e.vmid, node);
    }
    hide OnlyChanged;
    if e.vmid in w1.promised {
      PromisedSpends(k, d, site, w1, w', e.vmid, e.home, node);
    } else {
      ChangeSpends(k, d, site, w1, w', e.vmid, e.home, node);
    }
  }

  /** What turns up unreserved is exactly what either total rises by. */
  lemma UnreservedExactly(k: Count, d: Resource, site: Site, w: World, e: Event, node: string)
    requires Consistent(w) && e.Observe? && Enabled(site, w, e) && (e.reused || e.vmid !in w.promised)
    ensures
      var rise := Spent(k, d, site, Apply(site, w, e), node) - Spent(k, d, site, w, node);
      Unreserved(d, w, e, node) == if rise > 0 then rise else 0
  {
    hide Spent, Cover, ListsDisjoint;
    var w1 := if e.reused then w.(promised := w.promised - {e.vmid}) else w;
    var w' := Apply(site, w, e);
    assert OnlyChanged(w1, w', e.vmid, e.home);
    if e.reused {
      ForgetSpendsNothing(k, d, site, w, e.vmid, node);
    }
    hide OnlyChanged;
    ChangeSpends(k, d, site, w1, w', e.vmid, e.home, node);
  }

  lemma VanishSpends(k: Count, d: Resource, site: Site, w: World, e: Event, node: string)
    requires Consistent(w) && e.Vanish? && Enabled(site, w, e)
    ensures Spent(k, d, site, Apply(site, w, e), node)
         <= Spent(k, d, site, w, node) + if k.Full? then Recharged(d, site, w, e, node) else 0
  {
    hide Spent, ListsDisjoint, Recharge;
    var w', home := Apply(site, w, e), w.guests[e.vmid].node;
    assert OnlyChanged(w, w', e.vmid, home);
    hide OnlyChanged;
    if e.vmid in w.promised {
      PromisedSpends(k, d, site, w, w', e.vmid, home, node);
    } else {
      ChangeSpends(k, d, site, w, w', e.vmid, home, node);
    }
  }

  // ------------------------------------------------------------------
  // Whole runs
  // ------------------------------------------------------------------

  lemma StepWithinBound(k: Count, d: Resource, site: Site, w: World, e: Event, node: string, bound: int)
    requires Consistent(w) && Enabled(site, w, e)
    requires node in site.nodes && (d.VCPU? ==> site.opts.Gated())
    requires site.Limit(d, node) <= bound && Spent(k, d, site, w, node) <= bound
    ensures Spent(k, d, site, Apply(site, w, e), node)
         <= bound + Unreserved(d, w, e, node) + if k.Full? then Recharged(d, site, w, e, node) else 0
  {
    hide Spent, SnapshotOf, Consistent, CanReserve, CanObserve, CanBind, Swept, Reserved, Bound, Observed, Vanished,
      Cover, SaturatingSub, Recharge;
    match e
    case Reserve(n, shape, freeing, now) =>
      var swept := AfterSweep(site, w, now);
      SweepStaysConsistent(w, swept, Snap(site, w), now);
      SweepSpendsNothing(k, d, site, w, now, node);
      CanReserveSwept(w, swept, n, freeing);
      ReserveWithinBound(k, d, site, swept, Reservation(n, shape, 0, freeing, now + site.opts.reservationTTL), node,
                         bound);
    case Sweep(now) => SweepSpendsNothing(k, d, site, w, now, node);
    case Bind(id, vmid) =>
      assert 0 !in w.promised by { ZeroNotPromised(w); }
      BindSpendsNothing(k, d, site, w, id, vmid, node);
    case Release(id) => ReleaseSpendsNothing(k, d, site, w, id, node);
    case Observe(_, _, _, _, _) => ObserveSpends(k, d, site, w, e, node);
    case Vanish(_) => VanishSpends(k, d, site, w, e, node);
  }

  lemma ZeroNotPromised(w: World)
    requires Consistent(w)
    ensures 0 !in w.promised
  {}

  lemma CanReserveSwept(w: World, swept: World, node: string, freeing: seq<int>)
    requires swept.guests == w.guests && swept.promised == w.promised
    requires CanReserve(w, node, freeing)
    ensures CanReserve(swept, node, freeing)
  {}

  /** No double spending: in every run of reservations, bindings, releases, sweeps with
      expiry, and cluster changes, what a node has handed out stays within the larger of its
      limit and what it had handed out at the start, plus what turned up without having
      been reserved and, in the full count, what was charged a second time. */
  lemma {:induction false} NeverDoubleSpent(k: Count, d: Resource, site: Site, w: World, es: seq<Event>, node: string,
                                            bound: int)
    requires Consistent(w) && Legal(site, w, es)
    requires node in site.nodes && (d.VCPU? ==> site.opts.Gated())
    requires site.Limit(d, node) <= bound && Spent(k, d, site, w, node) <= bound
    ensures Consistent(Run(site, w, es))
    ensures Spent(k, d, site, Run(site, w, es), node)
         <= bound + TotalUnreserved(d, site, w, es, node) + if k.Full? then TotalRecharged(d, site, w, es, node) else 0
    decreases |es|
  {
    hide Spent, Consistent, Enabled, Apply, Unreserved, Recharged;
    if es != [] {
      StaysConsistent(site, w, es[0]);
      StepWithinBound(k, d, site, w, es[0], node, bound);
      NeverDoubleSpent(k, d, site, Apply(site, w, es[0]), es[1..], node,
                       bound + Unreserved(d, w, es[0], node)
                       + if k.Full? then Recharged(d, site, w, es[0], node) else 0);
    }
  }

  /** Between two reads of the cluster nothing turns up and nothing is charged twice, so
      every guest that stays and every outstanding claim fit together, whatever is reserved,
      bound, released or swept and in whatever order. */
  lemma OneSnapshotNeverDoubleSpent(d: Resource, site: Site, w: World, es: seq<Event>, node: string, bound: int)
    requires Consistent(w) && Legal(site, w, es)
    requires forall i :: 0 <= i < |es| ==> !es[i].Observe? && !es[i].Vanish?
    requires node in site.nodes && (d.VCPU? ==> site.opts.Gated())
    requires site.Limit(d, node) <= bound && Spent(Full, d, site, w, node) <= bound
    ensures Spent(Full, d, site, Run(site, w, es), node) <= bound
  {
    hide Spent, Consistent, Legal, Run, TotalUnreserved, TotalRecharged;
    NeverDoubleSpent(Full, d, site, w, es, node, bound);
    NothingTurnsUp(d, site, w, es, node);
  }

  lemma {:induction false} NothingTurnsUp(d: Resource, site: Site, w: World, es: seq<Event>, node: string)
    requires forall i :: 0 <= i < |es| ==> !es[i].Observe? && !es[i].Vanish?
    ensures TotalUnreserved(d, site, w, es, node) == 0 && TotalRecharged(d, site, w, es, node) == 0
    decreases |es|
  {
    hide Apply, Cover, Recharge;
    if es != [] {
      NothingTurnsUp(d, site, Apply(site, w, es[0]), es[1..], node);
    }
  }

  lemma PendingBySize(d: Resource, site: Site, w: World, id: nat, node: string)
    requires id in w.res && w.res[id].vmid != 0
    ensures PendingAt(d, Snap(site, w), w.res, {}, node, id)
         == if w.res[id].node != node then 0
            else w.res[id].shape.Claim(d) - PartSeen(d, w.res[id], SizeOf(d, w.guests, w.res[id].vmid))
  {
    hide SnapshotOf;
    SnapshotShows(d, site.nodes, w.guests);
  }

  /** A guest promised for destruction changes or vanishes. */
  ghost predicate PromisedMoves(site: Site, w: World, e: Event) {
    Enabled(site, w, e) && (e.Vanish? || (e.Observe? && !e.reused)) && e.vmid in w.promised
  }

  /** The full total then moves by exactly what its own live reservation shows less or more of
      its claim, and not at all without one. */
  lemma PromisedMovesFull(d: Resource, site: Site, w: World, e: Event, node: string)
    requires BindingsUnique(w) && 0 !in w.promised && PromisedMoves(site, w, e)
    ensures
      var w' := Apply(site, w, e);
      var rise := Spent(Full, d, site, w', node) - Spent(Full, d, site, w, node);
      && (forall id :: id in w.res && w.res[id].vmid == e.vmid && w.res[id].node == node ==>
            rise == PartSeen(d, w.res[id], SizeOf(d, w.guests, e.vmid))
              - PartSeen(d, w.res[id], SizeOf(d, w'.guests, e.vmid)))
      && ((forall id :: id in w.res && w.res[id].vmid == e.vmid ==> w.res[id].node != node) ==> rise == 0)
      && Recharged(d, site, w, e, node) == if rise > 0 then rise else 0
  {
    hide SnapshotOf, Spent, PendingAt, PartSeen, SizeOf, Recharge;
    var w', v := Apply(site, w, e), e.vmid;
    var home := if e.Observe? then e.home else w.guests[v].node;
    assert OnlyChanged(w, w', v, home);
    hide OnlyChanged, Apply, Enabled;
    if id :| id in w.res && w.res[id].vmid == v {
      PromisedChange(d, site, w, w', v, home, node, id);
      RechargeBound(d, site, w, w', id, node);
      PendingBySize(d, site, w, id, node);
      PendingBySize(d, site, w', id, node);
    } else {
      PromisedUnbound(Full, d, site, w, w', v, home, node);
      RechargeUnbound(d, site, w, w', v, node);
    }
  }

  lemma RechargeUnbound(d: Resource, site: Site, w: World, w': World, v: int, node: string)
    requires !BoundIn(w.res, v)
    ensures Recharge(d, site, w, w', v, node) == 0
  {
    hide SnapshotOf, PendingAt;
  }

  /** Exactly when a claim is charged a second time: the full total rises if and only if the
      promised guest has a live reservation on the node and shows less of that claim than
      before. */
  lemma RechargedExactly(d: Resource, site: Site, w: World, e: Event, node: string)
    requires BindingsUnique(w) && 0 !in w.promised && PromisedMoves(site, w, e)
    ensures Spent(Full, d, site, Apply(site, w, e), node) > Spent(Full, d, site, w, node) <==>
              exists id :: id in w.res && w.res[id].vmid == e.vmid && w.res[id].node == node
                        && SizeOf(d, Apply(site, w, e).guests, e.vmid) < SizeOf(d, w.guests, e.vmid)
                        && SizeOf(d, Apply(site, w, e).guests, e.vmid) < w.res[id].shape.Claim(d)
  {
    hide SnapshotOf, Spent, Apply, Enabled, SizeOf;
    PromisedMovesFull(d, site, w, e, node);
  }

  /** The two counts differ exactly while a claim on the node waits for a clone that was
      itself promised for destruction. */
  lemma CountsDiffer(d: Resource, site: Site, w: World, node: string)
    ensures Spent(Net, d, site, w, node) <= Spent(Full, d, site, w, node)
    ensures Spent(Net, d, site, w, node) < Spent(Full, d, site, w, node) <==>
              exists id ::
                id in w.res && w.res[id].node == node && w.res[id].vmid in w.promised &&
                Pending(d, Snap(site, w), w.res[id]) > 0
  {
    hide Sum, SnapshotOf, Keeping, Pending;
    var s := Snap(site, w);
    var net, full := PendingOn(d, s, w.res, w.promised, node), PendingOn(d, s, w.res, {}, node);
    SumAtMost(w.res.Keys, net, full);
    if id :| id in w.res && net(id) < full(id) {
      SumTakeOut(w.res.Keys, net, id);
      SumTakeOut(w.res.Keys, full, id);
      SumAtMost(w.res.Keys - {id}, net, full);
    } else {
      SumSame(w.res.Keys, net, full);
      assert forall id :: id in w.res ==> net(id) == full(id);
    }
  }

  /** Started with an empty ledger on a node whose guests fit, the guests that stay and the
      claims still out exceed the node's limit by no more than what turned up without a
      live claim, and what was charged again. */
  lemma FreshLedgerNeverOverfills(k: Count, d: Resource, site: Site, guests: Guests, es: seq<Event>, node: string)
    requires node in site.nodes && (d.VCPU? ==> site.opts.Gated())
    requires HostedOn(d, guests, node) <= site.Limit(d, node)
    requires Legal(site, Fresh(guests), es)
    ensures Spent(k, d, site, Run(site, Fresh(guests), es), node)
         <= site.Limit(d, node) + TotalUnreserved(d, site, Fresh(guests), es, node)
            + if k.Full? then TotalRecharged(d, site, Fresh(guests), es, node) else 0
    ensures Keeping(d, Run(site, Fresh(guests), es), node)
         <= site.Limit(d, node) + TotalUnreserved(d, site, Fresh(guests), es, node)
  {
    hide HostedOn, Keeping, Awaited, Consistent, Legal, Run, TotalUnreserved, TotalRecharged, Fresh;
    var w := Fresh(guests);
    FreshSpent(k, d, site, guests, node);
    FreshSpent(Net, d, site, guests, node);
    NeverDoubleSpent(k, d, site, w, es, node, site.Limit(d, node));
    NeverDoubleSpent(Net, d, site, w, es, node, site.Limit(d, node));
    AwaitedNotNegative(Net, d, Snap(site, Run(site, w, es)), Run(site, w, es), node);
  }

  /** A restarted program: guests, but no reservations yet. */
  function Fresh(guests: Guests): World { World(guests, map[], {}, 0) }

  lemma FreshSpent(k: Count, d: Resource, site: Site, guests: Guests, node: string)
    ensures Consistent(Fresh(guests))
    ensures Spent(k, d, site, Fresh(guests), node) == HostedOn(d, guests, node)
  {
    hide SnapshotOf, HostedOn, Keeping, PickedTotal;
    UnpromisedSplit(d, Fresh(guests), node);
    NothingPicked(d, guests, node);
  }

  lemma AwaitedNotNegative(k: Count, d: Resource, s: Snapshot, w: World, node: string)
    ensures 0 <= Awaited(k, d, s, w, node)
  {
    hide Sum;
    SumNotNegative(w.res.Keys, PendingOn(d, s, w.res, Exempt(k, w), node));
  }

  /** A clone seen at any size within its reservation brings nothing unreserved. */
  lemma ReservedCloneBringsNothing(d: Resource, w: World, e: Event, id: nat, node: string)
    requires BindingsUnique(w) && e.Observe? && e.vmid != 0
    requires id in w.res && w.res[id].vmid == e.vmid
    requires e.mem <= w.res[id].shape.memoryBytes && e.vcpus <= w.res[id].shape.vcpus
    ensures Unreserved(d, w, e, node) == 0
  {
    CoverBound(d, w, id, if d.Memory? then e.mem else e.vcpus);
    CoverBound(d, w, id, SizeOf(d, w.guests, e.vmid));
  }
}
