/** An accountant operation reads the cluster before it takes the lock, so the snapshot it works
    on may be older than one that another operation has already used. */
module HeldReads {
  import opened Sums
  import opened Ledger
  import opened NoDoubleSpend
  import opened Retirement

  /** An event with the guests that its operation has read, now or earlier. */
  datatype HeldEvent = HeldEvent(e: Event, view: Guests)

  predicate UsesSnapshot(e: Event) { e.Reserve? || e.Sweep? }

  function Held(w: World, view: Guests): World { w.(guests := view) }

  ghost function ApplyHeld(site: Site, w: World, h: HeldEvent): World {
    if UsesSnapshot(h.e) then Apply(site, Held(w, h.view), h.e).(guests := w.guests) else Apply(site, w, h.e)
  }

  /** The older read is of the same VMs: each is where the newer one and the ledger have it. */
  ghost predicate Readable(w: World, view: Guests) {
    Consistent(Held(w, view)) && forall v :: v in view && v in w.guests ==> view[v].node == w.guests[v].node
  }

  ghost predicate EnabledHeld(site: Site, w: World, h: HeldEvent) {
    Enabled(site, w, h.e) && (UsesSnapshot(h.e) ==> Readable(w, h.view) && Enabled(site, Held(w, h.view), h.e))
  }

  // ------------------------------------------------------------------
  // What an older read may miss
  // ------------------------------------------------------------------

  /** Every guest of the node is as large in the older read, or a live reservation covers it;
      in the full count, no promised guest with a reservation has shrunk since. */
  ghost predicate Covered(k: Count, d: Resource, w: World, view: Guests, node: string) {
    && (forall v :: v in w.guests && w.guests[v].node == node && v !in w.promised ==>
          Cover(d, w.res, v, w.guests[v].Size(d)) <= Cover(d, w.res, v, SizeOf(d, view, v)))
    && (k.Full? ==> forall v :: v in w.promised ==> SizeOf(d, view, v) <= SizeOf(d, w.guests, v))
  }

  /** The guests of `vs` as they are now, the others as they were read. */
  function Mixed(now: Guests, view: Guests, vs: set<int>): Guests {
    map v | v in now.Keys + view.Keys && (if v in vs then v in now else v in view) ::
      if v in vs then now[v] else view[v]
  }

  lemma CoverGrows(d: Resource, w: World, v: int, size: nat)
    requires BindingsUnique(w)
    ensures Cover(d, w.res, v, 0) <= Cover(d, w.res, v, size)
  {
    hide Cover;
    if id :| id in w.res && w.res[id].vmid == v != 0 {
      CoverBound(d, w, id, 0);
      CoverBound(d, w, id, size);
    } else {
      CoverUnbound(d, w.res, v, 0);
      CoverUnbound(d, w.res, v, size);
    }
  }

  /** Bringing one guest up to date does not raise the total. */
  lemma CatchUpOne(k: Count, d: Resource, site: Site, w: World, w': World, v: int, home: string, node: string)
    requires BindingsUnique(w) && 0 !in w.promised && OnlyChanged(w, w', v, home)
    requires forall id :: id in w.res && w.res[id].vmid == v != 0 ==> w.res[id].node == home
    requires home == node && v !in w.promised ==>
      Cover(d, w.res, v, SizeOf(d, w'.guests, v)) <= Cover(d, w.res, v, SizeOf(d, w.guests, v))
    requires k.Full? && v in w.promised ==> SizeOf(d, w.guests, v) <= SizeOf(d, w'.guests, v)
    ensures Spent(k, d, site, w', node) <= Spent(k, d, site, w, node)
  {
    hide Spent, SnapshotOf, Cover, PendingAt, OnlyChanged;
    if v !in w.promised {
      ChangeSpends(k, d, site, w, w', v, home, node);
    } else if id :| k.Full? && id in w.res && w.res[id].vmid == v {
      PromisedChange(d, site, w, w', v, home, node, id);
      SameReservations(w, w', v, home);
      PendingBySize(d, site, w, id, node);
      PendingBySize(d, site, w', id, node);
    } else {
      PromisedUnbound(k, d, site, w, w', v, home, node);
    }
  }

  lemma SameReservations(w: World, w': World, v: int, home: string)
    requires OnlyChanged(w, w', v, home)
    ensures w'.res == w.res
  {}

  lemma MixedBindings(w: World, view: Guests, vs: set<int>)
    requires BindingsUnique(w) && BindingsUnique(Held(w, view))
    ensures BindingsUnique(Held(w, Mixed(w.guests, view, vs)))
  {}

  /** Where the one guest lives, whichever read shows it. */
  function HomeOf(now: Guests, view: Guests, v: int): string
    requires v in now || v in view
  {
    if v in now then now[v].node else view[v].node
  }

  lemma MixedChange(w: World, view: Guests, vs: set<int>, v: int)
    requires Readable(w, view) && v !in vs && (v in w.guests || v in view)
    ensures
      var before, after := Mixed(w.guests, view, vs), Mixed(w.guests, view, vs + {v});
      && OnlyChanged(Held(w, before), Held(w, after), v, HomeOf(w.guests, view, v))
      && (forall d :: SizeOf(d, before, v) == SizeOf(d, view, v) && SizeOf(d, after, v) == SizeOf(d, w.guests, v))
  {
    hide Consistent;
  }

  lemma {:induction false} CatchUp(k: Count, d: Resource, site: Site, w: World, view: Guests, vs: set<int>,
                                   node: string)
    requires Consistent(w) && Readable(w, view) && Covered(k, d, w, view, node)
    requires vs <= w.guests.Keys + view.Keys
    ensures Spent(k, d, site, Held(w, Mixed(w.guests, view, vs)), node) <= Spent(k, d, site, Held(w, view), node)
    decreases |vs|
  {
    hide Spent, SnapshotOf, Cover, Mixed, ListsDisjoint, OnlyChanged;
    if vs == {} {
      MixedNone(w.guests, view);
    } else {
      var v := AnyOf(vs);
      var rest := vs - {v};
      assert rest + {v} == vs;
      CatchUp(k, d, site, w, view, rest, node);
      MixedBindings(w, view, rest);
      MixedChange(w, view, rest, v);
      CoverGrows(d, w, v, SizeOf(d, view, v));
      CatchUpOne(k, d, site, Held(w, Mixed(w.guests, view, rest)), Held(w, Mixed(w.guests, view, vs)), v,
                 HomeOf(w.guests, view, v), node);
    }
  }

  lemma AnyOf<T>(vs: set<T>) returns (v: T)
    requires vs != {}
    ensures v in vs
  {
    v :| v in vs;
  }

  lemma MixedNone(now: Guests, view: Guests)
    ensures Mixed(now, view, {}) == view
  {}

  lemma MixedAll(now: Guests, view: Guests)
    ensures Mixed(now, view, now.Keys + view.Keys) == now
  {}

  /** Then what the older read has as spent is no less than what is. */
  lemma CoveredSpends(k: Count, d: Resource, site: Site, w: World, view: Guests, node: string)
    requires Consistent(w) && Readable(w, view) && Covered(k, d, w, view, node)
    ensures Spent(k, d, site, w, node) <= Spent(k, d, site, Held(w, view), node)
  {
    hide Spent, SnapshotOf, Consistent, Readable, Covered;
    CatchUp(k, d, site, w, view, w.guests.Keys + view.Keys, node);
    MixedAll(w.guests, view);
    assert Held(w, w.guests) == w;
  }

  // ------------------------------------------------------------------
  // Reserving on an older read
  // ------------------------------------------------------------------

  /** Whatever it was read from, a sweep only drops reservations. */
  lemma HeldSweepSpendsNothing(k: Count, d: Resource, site: Site, w: World, s: Snapshot, now: nat, node: string)
    ensures Spent(k, d, site, w.(res := Swept(w.res, s, now)), node) <= Spent(k, d, site, w, node)
  {
    hide SnapshotOf, Keeping, Awaited;
    var w' := w.(res := Swept(w.res, s, now));
    FewerReservations(k, d, Snap(site, w), w, w', node);
    KeepingSame(d, w, w', node);
  }

  /** An admitted claim fits under the limit, or its victims are worth it. */
  lemma AdmittedCases(d: Resource, o: Options, s: Snapshot, res: Reservations, node: string, shape: Shape,
                      freeing: seq<int>, spent: int)
    requires FitsOn(o, s, res, node, shape, freeing) && (d.VCPU? ==> o.Gated())
    requires spent <= Raw(d, s, res, node)
    ensures spent + shape.Claim(d) - Credit(d, s, freeing) <= o.Limit(d, s.nodes[node])
         || shape.Claim(d) <= Credit(d, s, freeing)
  {
    hide Raw, Credit, Floor;
  }

  lemma {:induction false} CreditGrows(d: Resource, s: Snapshot, s': Snapshot, vmids: seq<int>)
    requires forall v :: v in vmids ==> s.Observed(d, v) <= s'.Observed(d, v)
    ensures Credit(d, s, vmids) <= Credit(d, s', vmids)
  {
    if vmids != [] {
      CreditGrows(d, s, s', vmids[..|vmids| - 1]);
    }
  }

  /** No victim is smaller than it was read. */
  predicate VictimsSeen(d: Resource, w: World, view: Guests, freeing: seq<int>) {
    forall v :: v in freeing ==> SizeOf(d, view, v) <= SizeOf(d, w.guests, v)
  }

  lemma VictimsPay(d: Resource, site: Site, w: World, view: Guests, freeing: seq<int>)
    requires VictimsSeen(d, w, view, freeing)
    ensures Credit(d, Snap(site, Held(w, view)), freeing) <= Credit(d, Snap(site, w), freeing)
  {
    hide SnapshotOf, Credit;
    SnapshotShows(d, site.nodes, w.guests);
    SnapshotShows(d, site.nodes, view);
    CreditGrows(d, Snap(site, Held(w, view)), Snap(site, w), freeing);
  }

  /** The claim admitted on an older read: within the bound if that read covers the guests. */
  lemma GrantedOnHeld(k: Count, d: Resource, site: Site, w: World, view: Guests, r: Reservation, node: string,
                      bound: int)
    requires Consistent(w) && Readable(w, view) && r.vmid == 0
    requires CanReserve(w, r.node, r.freeing) && CanReserve(Held(w, view), r.node, r.freeing)
    requires node in site.nodes && (d.VCPU? ==> site.opts.Gated())
    requires site.Limit(d, node) <= bound && Spent(k, d, site, w, node) <= bound
    requires FitsOn(site.opts, Snap(site, Held(w, view)), w.res, r.node, r.shape, r.freeing)
    requires Covered(k, d, WithReservation(w, r), view, node) && VictimsSeen(d, w, view, r.freeing)
    ensures Spent(k, d, site, WithReservation(w, r), node) <= bound
  {
    hide Spent, FitsOn, Raw, Credit, SnapshotOf, CanReserve, ListsDisjoint, ListsPromised, BindingsUnique, Covered,
         VictimsSeen, WithReservation;
    var held := Held(w, view);
    ReservedSpends(k, d, site, w, r, node);
    if node == r.node {
      SpentWithinRaw(k, d, site, held, node);
      LimitOf(d, site, held, node);
      AdmittedCases(d, site.opts, Snap(site, held), w.res, node, r.shape, r.freeing, Spent(k, d, site, held, node));
      VictimsPay(d, site, w, view, r.freeing);
      ReservedSpends(k, d, site, held, r, node);
      StillReadable(w, view, r);
      CoveredSpends(k, d, site, WithReservation(w, r), view, node);
    }
  }

  lemma StillReadable(w: World, view: Guests, r: Reservation)
    requires Consistent(w) && Readable(w, view) && r.vmid == 0
    requires CanReserve(w, r.node, r.freeing) && CanReserve(Held(w, view), r.node, r.freeing)
    ensures Consistent(WithReservation(w, r)) && Readable(WithReservation(w, r), view)
    ensures Held(WithReservation(w, r), view) == WithReservation(Held(w, view), r)
  {
    hide Consistent, CanReserve;
    ReservedStaysConsistent(w, r);
    ReservedStaysConsistent(Held(w, view), r);
  }

  // ------------------------------------------------------------------
  // Whole runs
  // ------------------------------------------------------------------

  /** What a step on an older read must not have missed. */
  ghost predicate Sound(k: Count, d: Resource, site: Site, w: World, h: HeldEvent, node: string) {
    h.e.Reserve? ==>
      Covered(k, d, ApplyHeld(site, w, h), h.view, node) && VictimsSeen(d, w, h.view, h.e.freeing)
  }

  /** The step sweeps on its own read, and reserves on what that leaves. */
  lemma HeldSplit(site: Site, w: World, h: HeldEvent)
    requires UsesSnapshot(h.e)
    ensures
      var swept := w.(res := Swept(w.res, Snap(site, Held(w, h.view)), h.e.now));
      && AfterSweep(site, Held(w, h.view), h.e.now) == Held(swept, h.view)
      && (h.e.Sweep? ==> ApplyHeld(site, w, h) == swept)
      && (h.e.Reserve? ==>
            var r := Reservation(h.e.node, h.e.shape, 0, h.e.freeing, h.e.now + site.opts.reservationTTL);
            ApplyHeld(site, w, h)
            == if FitsOn(site.opts, Snap(site, Held(swept, h.view)), swept.res, r.node, r.shape, r.freeing)
               then WithReservation(swept, r) else swept)
  {
    hide SnapshotOf, FitsOn, Swept;
  }

  lemma HeldStaysConsistent(site: Site, w: World, h: HeldEvent)
    requires Consistent(w) && EnabledHeld(site, w, h)
    ensures Consistent(ApplyHeld(site, w, h))
  {
    hide SnapshotOf, FitsOn, Swept, Consistent, CanReserve, WithReservation;
    if UsesSnapshot(h.e) {
      HeldSplit(site, w, h);
      var swept := w.(res := Swept(w.res, Snap(site, Held(w, h.view)), h.e.now));
      SweepStaysConsistent(w, swept, Snap(site, Held(w, h.view)), h.e.now);
      if h.e.Reserve? {
        CanReserveSwept(w, swept, h.e.node, h.e.freeing);
        var r := Reservation(h.e.node, h.e.shape, 0, h.e.freeing, h.e.now + site.opts.reservationTTL);
        ReservedStaysConsistent(swept, r);
      }
    } else {
      hide Enabled, Apply;
      StaysConsistent(site, w, h.e);
    }
  }

  ghost function Excess(k: Count, d: Resource, site: Site, w: World, e: Event, node: string): nat {
    Unreserved(d, w, e, node) + if k.Full? then Recharged(d, site, w, e, node) else 0
  }

  lemma HeldReserveWithinBound(k: Count, d: Resource, site: Site, w: World, h: HeldEvent, node: string, bound: int)
    requires Consistent(w) && h.e.Reserve? && EnabledHeld(site, w, h) && Sound(k, d, site, w, h, node)
    requires node in site.nodes && (d.VCPU? ==> site.opts.Gated())
    requires site.Limit(d, node) <= bound && Spent(k, d, site, w, node) <= bound
    ensures Spent(k, d, site, ApplyHeld(site, w, h), node) <= bound
  {
    hide SnapshotOf, FitsOn, Swept, Consistent, CanReserve, WithReservation, Spent, Covered, VictimsSeen, ApplyHeld;
    var s := Snap(site, Held(w, h.view));
    var swept := w.(res := Swept(w.res, s, h.e.now));
    var r := Reservation(h.e.node, h.e.shape, 0, h.e.freeing, h.e.now + site.opts.reservationTTL);
    HeldSplit(site, w, h);
    HeldSweepSpendsNothing(k, d, site, w, s, h.e.now, node);
    SweepStaysConsistent(w, swept, s, h.e.now);
    SweepStaysConsistent(Held(w, h.view), Held(swept, h.view), s, h.e.now);
    CanReserveSwept(w, swept, h.e.node, h.e.freeing);
    CanReserveSwept(Held(w, h.view), Held(swept, h.view), h.e.node, h.e.freeing);
    VictimsSeenSwept(d, w, swept, h.view, h.e.freeing);
    if FitsOn(site.opts, Snap(site, Held(swept, h.view)), swept.res, r.node, r.shape, r.freeing) {
      GrantedOnHeld(k, d, site, swept, h.view, r, node, bound);
    }
  }

  lemma VictimsSeenSwept(d: Resource, w: World, swept: World, view: Guests, freeing: seq<int>)
    requires swept.guests == w.guests && VictimsSeen(d, w, view, freeing)
    ensures VictimsSeen(d, swept, view, freeing)
  {}

  lemma HeldStepWithinBound(k: Count, d: Resource, site: Site, w: World, h: HeldEvent, node: string, bound: int)
    requires Consistent(w) && EnabledHeld(site, w, h) && Sound(k, d, site, w, h, node)
    requires node in site.nodes && (d.VCPU? ==> site.opts.Gated())
    requires site.Limit(d, node) <= bound && Spent(k, d, site, w, node) <= bound
    ensures Spent(k, d, site, ApplyHeld(site, w, h), node) <= bound + Excess(k, d, site, w, h.e, node)
  {
    hide SnapshotOf, Consistent, Spent, Unreserved, Recharged, Swept, Sound, Readable;
    if h.e.Reserve? {
      HeldReserveWithinBound(k, d, site, w, h, node, bound);
    } else if h.e.Sweep? {
      HeldSplit(site, w, h);
      HeldSweepSpendsNothing(k, d, site, w, Snap(site, Held(w, h.view)), h.e.now, node);
    } else {
      hide Enabled, Apply;
      StepWithinBound(k, d, site, w, h.e, node, bound);
    }
  }

  ghost predicate LegalHeld(site: Site, w: World, hs: seq<HeldEvent>)
    decreases |hs|
  {
    hs == [] || (EnabledHeld(site, w, hs[0]) && LegalHeld(site, ApplyHeld(site, w, hs[0]), hs[1..]))
  }

  ghost function RunHeld(site: Site, w: World, hs: seq<HeldEvent>): World
    decreases |hs|
  {
    if hs == [] then w else RunHeld(site, ApplyHeld(site, w, hs[0]), hs[1..])
  }

  ghost predicate AllSound(k: Count, d: Resource, site: Site, w: World, hs: seq<HeldEvent>, node: string)
    decreases |hs|
  {
    hs == [] || (Sound(k, d, site, w, hs[0], node) && AllSound(k, d, site, ApplyHeld(site, w, hs[0]), hs[1..], node))
  }

  ghost function TotalExcess(k: Count, d: Resource, site: Site, w: World, hs: seq<HeldEvent>, node: string): nat
    decreases |hs|
  {
    if hs == [] then 0
    else Excess(k, d, site, w, hs[0].e, node) + TotalExcess(k, d, site, ApplyHeld(site, w, hs[0]), hs[1..], node)
  }

  /** No double spending on reads of any age: if no claim is admitted on a read that has missed
      a guest without a live reservation, the bound of `NeverDoubleSpent` holds. */
  lemma {:induction false} HeldNeverDoubleSpent(
      k: Count, d: Resource, site: Site, w: World, hs: seq<HeldEvent>, node: string, bound: int)
    requires Consistent(w) && LegalHeld(site, w, hs) && AllSound(k, d, site, w, hs, node)
    requires node in site.nodes && (d.VCPU? ==> site.opts.Gated())
    requires site.Limit(d, node) <= bound && Spent(k, d, site, w, node) <= bound
    ensures Spent(k, d, site, RunHeld(site, w, hs), node) <= bound + TotalExcess(k, d, site, w, hs, node)
    decreases |hs|
  {
    hide Spent, Consistent, EnabledHeld, ApplyHeld, Sound, Excess;
    if hs != [] {
      HeldStaysConsistent(site, w, hs[0]);
      HeldStepWithinBound(k, d, site, w, hs[0], node, bound);
      HeldNeverDoubleSpent(k, d, site, ApplyHeld(site, w, hs[0]), hs[1..], node,
                           bound + Excess(k, d, site, w, hs[0].e, node));
    }
  }

  /** A read as of now misses nothing, so the steps of `NoDoubleSpend` are the special case. */
  lemma CurrentReadIsSound(k: Count, d: Resource, site: Site, w: World, e: Event, node: string)
    requires Consistent(w) && Enabled(site, w, e)
    ensures
      var h := HeldEvent(e, w.guests);
      EnabledHeld(site, w, h) && ApplyHeld(site, w, h) == Apply(site, w, e) && Sound(k, d, site, w, h, node)
  {
    hide SnapshotOf, Consistent, Cover, Swept, FitsOn;
    assert Held(w, w.guests) == w;
  }

  // ------------------------------------------------------------------
  // Which older reads are safe
  // ------------------------------------------------------------------

  lemma NewClaim(d: Resource, site: Site, w: World, r: Reservation)
    requires IdsUsed(w) && r.vmid == 0 && r.freeing == []
    ensures Spent(Full, d, site, WithReservation(w, r), r.node) == Spent(Full, d, site, w, r.node) + r.shape.Claim(d)
  {
    hide Sum, SnapshotOf, Keeping;
    var w', id, s, node := WithReservation(w, r), w.last + 1, Snap(site, w), r.node;
    var f, f' := PendingOn(d, s, w.res, {}, node), PendingOn(d, s, w'.res, {}, node);
    assert w'.res.Keys == w.res.Keys + {id};
    SumAdd<nat>(w.res.Keys, f', id);
    SumSame(w.res.Keys, f, f');
    KeepingSame(d, w, w', node);
  }

  /** Exactly which reads are safe to admit on: no claim admitted on an older read takes the
      node past its limit if and only if the ledger shows no less, on that read and after its
      sweep, than what is spent now. */
  lemma SafeReadsExactly(site: Site, w: World, view: Guests, now: nat, node: string)
    requires IdsUsed(w) && node in site.nodes && node in Snap(site, Held(w, view)).nodes
    requires
      var swept := w.(res := Swept(w.res, Snap(site, Held(w, view)), now));
      && Spent(Full, Memory, site, swept, node) <= site.Limit(Memory, node)
      && (site.opts.Gated() ==> Committed(VCPU, Snap(site, Held(w, view)), swept.res, node) <= site.Limit(VCPU, node))
    ensures
      var swept := w.(res := Swept(w.res, Snap(site, Held(w, view)), now));
      (forall mem: nat ::
       Spent(Full, Memory, site, ApplyHeld(site, w, Asking(node, mem, now, view)), node) <= site.Limit(Memory, node))
      <==> Spent(Full, Memory, site, swept, node) <= Committed(Memory, Snap(site, Held(w, view)), swept.res, node)
  {
    hide SnapshotOf, Spent, Committed, Swept;
    var s := Snap(site, Held(w, view));
    var swept := w.(res := Swept(w.res, s, now));
    var committed, limit := Committed(Memory, s, swept.res, node), site.Limit(Memory, node);
    assert IdsUsed(swept) by { SweptIds(w, s, now); }
    forall mem: nat
      ensures Spent(Full, Memory, site, ApplyHeld(site, w, Asking(node, mem, now, view)), node)
           == Spent(Full, Memory, site, swept, node) + if mem <= SaturatingSub(limit, committed) then mem else 0
    {
      Asked(site, w, view, now, node, mem);
    }
    var most := SaturatingSub(limit, committed);
    assert Spent(Full, Memory, site, ApplyHeld(site, w, Asking(node, most, now, view)), node)
        == Spent(Full, Memory, site, swept, node) + most;
  }

  /** A claim of memory alone, without victims. */
  function Asking(node: string, mem: nat, now: nat, view: Guests): HeldEvent {
    HeldEvent(Reserve(node, Shape(mem, 0), [], now), view)
  }

  lemma SweptIds(w: World, s: Snapshot, now: nat)
    requires IdsUsed(w)
    ensures IdsUsed(w.(res := Swept(w.res, s, now)))
  {}

  lemma Asked(site: Site, w: World, view: Guests, now: nat, node: string, mem: nat)
    requires node in site.nodes && node in Snap(site, Held(w, view)).nodes
    requires
      var swept := w.(res := Swept(w.res, Snap(site, Held(w, view)), now));
      && IdsUsed(swept)
      && (site.opts.Gated() ==> Committed(VCPU, Snap(site, Held(w, view)), swept.res, node) <= site.Limit(VCPU, node))
    ensures
      var swept := w.(res := Swept(w.res, Snap(site, Held(w, view)), now));
      Spent(Full, Memory, site, ApplyHeld(site, w, Asking(node, mem, now, view)), node)
      == Spent(Full, Memory, site, swept, node)
         + if mem <= SaturatingSub(site.Limit(Memory, node),
                                   Committed(Memory, Snap(site, Held(w, view)), swept.res, node))
           then mem else 0
  {
    hide SnapshotOf, Spent, Committed, Swept, ApplyHeld, IdsUsed, SaturatingSub, Floor;
    var h := Asking(node, mem, now, view);
    var swept := w.(res := Swept(w.res, Snap(site, Held(w, view)), now));
    HeldSplit(site, w, h);
    LimitOf(Memory, site, Held(w, view), node);
    LimitOf(VCPU, site, Held(w, view), node);
    NewClaim(Memory, site, swept, Reservation(node, Shape(mem, 0), 0, [], now + site.opts.reservationTTL));
  }

  // ------------------------------------------------------------------
  // The run in which an older read overfills a node
  // ------------------------------------------------------------------

  /** The run ends in `end`, and nothing turned up without a claim or was charged again. */
  ghost predicate LeadsHeld(d: Resource, site: Site, node: string, w: World, hs: seq<HeldEvent>, end: World) {
    LegalHeld(site, w, hs) && RunHeld(site, w, hs) == end && TotalExcess(Full, d, site, w, hs, node) == 0
  }

  lemma LeadsHeldOn(
      d: Resource, site: Site, node: string, w: World, h: HeldEvent, w': World, hs: seq<HeldEvent>, end: World)
    requires EnabledHeld(site, w, h) && ApplyHeld(site, w, h) == w' && Excess(Full, d, site, w, h.e, node) == 0
    requires LeadsHeld(d, site, node, w', hs, end)
    ensures LeadsHeld(d, site, node, w, [h] + hs, end)
  {
    hide EnabledHeld, ApplyHeld, Excess;
    assert ([h] + hs)[1..] == hs;
  }

  /** Two operations read the empty cluster. The first reserves; its clone is seen in full, and
      a sweep on a newer read retires the claim. Only then does the second reserve. */
  function LateReader(node: string, first: Shape, second: Shape): seq<HeldEvent> {
    [HeldEvent(Reserve(node, first, [], 0), map[])] + (Landing(node, first) + LateHalf(node, first, second))
  }

  function Landing(node: string, first: Shape): seq<HeldEvent> {
    [HeldEvent(Bind(1, 1), map[]), HeldEvent(Observe(1, node, first.memoryBytes, first.vcpus, false), map[])]
  }

  function LateHalf(node: string, first: Shape, second: Shape): seq<HeldEvent> {
    [HeldEvent(Sweep(0), InFull(node, first)), HeldEvent(Reserve(node, second, [], 0), map[])]
  }

  function InFull(node: string, first: Shape): Guests { map[1 := Guest(node, first.memoryBytes, first.vcpus)] }

  /** The newer read retires the first claim. */
  lemma LateSweep(site: Site, node: string, first: Shape)
    ensures
      var guests := InFull(node, first);
      var w, h := Claimed(site, guests, node, first, 1, 1), HeldEvent(Sweep(0), guests);
      EnabledHeld(site, w, h) && ApplyHeld(site, w, h) == World(guests, map[], {}, 1)
  {
    hide SnapshotOf, Swept;
    var guests := InFull(node, first);
    SeenRetires(site, guests, node, first, 1, 1, 0);
    assert Held(Claimed(site, guests, node, first, 1, 1), guests) == Claimed(site, guests, node, first, 1, 1);
  }

  /** On the older one the node is empty. */
  lemma LateReserve(site: Site, node: string, guests: Guests, second: Shape)
    requires node in site.nodes
    requires second.memoryBytes <= site.Limit(Memory, node) && second.vcpus <= site.Limit(VCPU, node)
    ensures
      var w, h := World(guests, map[], {}, 1), HeldEvent(Reserve(node, second, [], 0), map[]);
      EnabledHeld(site, w, h) && ApplyHeld(site, w, h) == Claimed(site, guests, node, second, 2, 0)
  {
    hide SnapshotOf, Swept, HostedOn, FitsOn;
    var held := World(map[], map[], {}, 1);
    HostedNone(Memory, node);
    HostedNone(VCPU, node);
    SweptNone(Snap(site, held));
    Admits(site, held, node, second);
  }

  lemma LateHalfLeads(d: Resource, site: Site, node: string, first: Shape, second: Shape)
    requires node in site.nodes
    requires second.memoryBytes <= site.Limit(Memory, node) && second.vcpus <= site.Limit(VCPU, node)
    ensures LeadsHeld(d, site, node, Claimed(site, InFull(node, first), node, first, 1, 1),
                      LateHalf(node, first, second), Claimed(site, InFull(node, first), node, second, 2, 0))
  {
    hide LeadsHeld, EnabledHeld, ApplyHeld, Unreserved;
    var guests := InFull(node, first);
    var w, end := Claimed(site, guests, node, first, 1, 1), Claimed(site, guests, node, second, 2, 0);
    var swept := World(guests, map[], {}, 1);
    var sweep, late := HeldEvent(Sweep(0), guests), HeldEvent(Reserve(node, second, [], 0), map[]);
    LateSweep(site, node, first);
    LateReserve(site, node, guests, second);
    NoArrival(d, w, sweep.e, node);
    NoArrival(d, swept, late.e, node);
    LeadsHeldNowhere(d, site, node, end);
    LeadsHeldOn(d, site, node, swept, late, end, [], end);
    LeadsHeldOn(d, site, node, w, sweep, swept, [late] + [], end);
    assert [sweep] + ([late] + []) == LateHalf(node, first, second);
  }

  lemma SweptNone(s: Snapshot)
    ensures Swept(map[], s, 0) == map[]
  {}

  lemma LeadsHeldNowhere(d: Resource, site: Site, node: string, w: World)
    ensures LeadsHeld(d, site, node, w, [], w)
  {}

  lemma FirstHalfLeads(d: Resource, site: Site, node: string, first: Shape, hs: seq<HeldEvent>, end: World)
    requires LeadsHeld(d, site, node, Claimed(site, InFull(node, first), node, first, 1, 1), hs, end)
    ensures LeadsHeld(d, site, node, Claimed(site, map[], node, first, 1, 0), Landing(node, first) + hs, end)
  {
    hide LeadsHeld, SnapshotOf, Unreserved;
    var w, bound := Claimed(site, map[], node, first, 1, 0), Claimed(site, map[], node, first, 1, 1);
    var seen := Claimed(site, InFull(node, first), node, first, 1, 1);
    var bind, see := Bind(1, 1), Observe(1, node, first.memoryBytes, first.vcpus, false);
    assert bound.res[1].vmid == 1;
    ReservedCloneBringsNothing(d, bound, see, 1, node);
    LeadsHeldOn(d, site, node, bound, HeldEvent(see, map[]), seen, hs, end);
    NoArrival(d, w, bind, node);
    LeadsHeldOn(d, site, node, w, HeldEvent(bind, map[]), bound, [HeldEvent(see, map[])] + hs, end);
    assert [HeldEvent(bind, map[])] + ([HeldEvent(see, map[])] + hs) == Landing(node, first) + hs;
  }

  lemma NoArrival(d: Resource, w: World, e: Event, node: string)
    requires !e.Observe?
    ensures Unreserved(d, w, e, node) == 0
  {}

  lemma BothThere(d: Resource, site: Site, node: string, first: Shape, second: Shape)
    ensures Spent(Full, d, site, Claimed(site, InFull(node, first), node, second, 2, 0), node)
      == first.Claim(d) + second.Claim(d)
  {
    hide SnapshotOf, Sum, Keeping, HostedOn, PickedTotal;
    var w := World(InFull(node, first), map[], {}, 1);
    var r := Reservation(node, second, 0, [], site.opts.reservationTTL);
    assert WithReservation(w, r) == Claimed(site, InFull(node, first), node, second, 2, 0);
    NewClaim(d, site, w, r);
    NoReservations(d, site, w, node);
    UnpromisedSplit(d, w, node);
    NothingPicked(d, w.guests, node);
    HostedOne(d, 1, w.guests[1]);
  }

  lemma NoReservations(d: Resource, site: Site, w: World, node: string)
    requires w.res == map[]
    ensures Spent(Full, d, site, w, node) == Keeping(d, w, node)
  {
    hide SnapshotOf, Keeping;
  }

  /** Every step is one the accountant can take, nothing turns up without a claim, and the
      node ends with both claims on it, each of which may fill it alone. */
  lemma LateReaderOverfills(d: Resource, site: Site, node: string, first: Shape, second: Shape)
    requires node in site.nodes
    requires first.memoryBytes <= site.Limit(Memory, node) && first.vcpus <= site.Limit(VCPU, node)
    requires second.memoryBytes <= site.Limit(Memory, node) && second.vcpus <= site.Limit(VCPU, node)
    ensures
      var hs := LateReader(node, first, second);
      && LegalHeld(site, Fresh(map[]), hs) && TotalExcess(Full, d, site, Fresh(map[]), hs, node) == 0
      && Spent(Full, d, site, RunHeld(site, Fresh(map[]), hs), node) == first.Claim(d) + second.Claim(d)
  {
    hide LegalHeld, RunHeld, TotalExcess, Spent, SnapshotOf, Swept, HostedOn, Unreserved;
    var w, tail := Fresh(map[]), LateHalf(node, first, second);
    var end := Claimed(site, InFull(node, first), node, second, 2, 0);
    var h := HeldEvent(Reserve(node, first, [], 0), map[]);
    assert LeadsHeld(d, site, node, w, LateReader(node, first, second), end) by {
      hide LeadsHeld;
      LateHalfLeads(d, site, node, first, second);
      FirstHalfLeads(d, site, node, first, tail, end);
      FirstReserve(site, node, first);
      NoArrival(d, w, h.e, node);
      LeadsHeldOn(d, site, node, w, h, Claimed(site, map[], node, first, 1, 0), Landing(node, first) + tail, end);
    }
    BothThere(d, site, node, first, second);
  }

  lemma FirstReserve(site: Site, node: string, first: Shape)
    requires node in site.nodes
    requires first.memoryBytes <= site.Limit(Memory, node) && first.vcpus <= site.Limit(VCPU, node)
    ensures
      var w, h := Fresh(map[]), HeldEvent(Reserve(node, first, [], 0), map[]);
      EnabledHeld(site, w, h) && ApplyHeld(site, w, h) == Claimed(site, map[], node, first, 1, 0)
  {
    hide SnapshotOf, Swept, HostedOn, FitsOn;
    var w := Fresh(map[]);
    HostedNone(Memory, node);
    HostedNone(VCPU, node);
    SweptNone(Snap(site, w));
    Admits(site, w, node, first);
    assert Held(w, map[]) == w;
  }
}
