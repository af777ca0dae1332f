/** The pool-sizing arithmetic of internal/pool/manager.go, and what it does to a profile's
    fleet over whole runs of reconcile passes. */
module Sizing {
  import opened Common

  /** Row counts of one profile, by state; `claimed` counts the Assigned rows. */
  datatype Stats = Stats(warm: nat, booting: nat, hot: nat, claimed: nat, running: nat, recycling: nat) {
    function Available(): nat { hot + booting }
    function Busy(): nat { claimed + running }
  }

  /** Rows that will roll back into the pool: still serving a job, or already rolling back. */
  datatype Credit = Credit(busy: nat, recycling: nat)

  /** The operator's sizes and GitHub's demand. */
  datatype Target = Target(hotSize: nat, warmSize: nat, desired: int, profileMax: int)

  datatype Needs = Needs(hot: nat, warm: nat)

  function BurstDeficit(s: Stats, inflight: nat, hotProv: nat, desired: int, credit: Credit): int {
    desired - (s.Available() + hotProv + inflight + credit.recycling + s.Busy())
  }

  function HotCredit(s: Stats, inflight: nat, hotProv: nat, hotSize: nat, credit: Credit): nat {
    var short := hotSize - (s.Available() + hotProv + inflight);
    var capped := if short > credit.busy + credit.recycling then credit.busy + credit.recycling else short;
    if capped < 0 then 0 else capped
  }

  /** Everything that counts against the profile's concurrency cap. */
  function Occupied(s: Stats, inflight: nat, hotProv: nat): nat {
    s.Available() + s.recycling + hotProv + inflight + s.Busy()
  }

  function ComputeCloneNeeds(s: Stats, inflight: nat, hotProv: nat, warmProv: nat, t: Target, credit: Credit): Needs {
    var base := s.Available() + hotProv + inflight;
    var hotCredit := HotCredit(s, inflight, hotProv, t.hotSize, credit);
    var warmCredit := credit.busy + credit.recycling - hotCredit;
    var needIdle := t.hotSize - base - hotCredit;
    var needBurst := BurstDeficit(s, inflight, hotProv, t.desired, credit);
    var wanted := if needBurst > needIdle then needBurst else needIdle;
    var wanted0 := if wanted < 0 then 0 else wanted;
    var room := t.profileMax - Occupied(s, inflight, hotProv);
    var capped := if room < wanted0 then room else wanted0;
    var needHot := if capped < 0 then 0 else capped;
    var needWarm := t.warmSize - (s.warm + warmProv + warmCredit);
    Needs(needHot, if needWarm < 0 then 0 else needWarm)
  }

  // ------------------------------------------------------------------
  // One pass
  // ------------------------------------------------------------------

  /** The needs in closed form. Returning VMs cover the missing hot slots first and only what
      is left of them the missing warm ones; demand and the cap bear on the hot side only. */
  lemma NeedsInClosedForm(s: Stats, inflight: nat, hotProv: nat, warmProv: nat, t: Target, credit: Credit)
    ensures
      var returning := credit.busy + credit.recycling;
      var hotShort := Max(0, t.hotSize - (s.Available() + hotProv + inflight));
      var warmShort := Max(0, t.warmSize - (s.warm + warmProv));
      var burst := t.desired - (s.Available() + hotProv + inflight + s.Busy() + credit.recycling);
      var room := t.profileMax - (s.Available() + hotProv + inflight + s.Busy() + s.recycling);
      ComputeCloneNeeds(s, inflight, hotProv, warmProv, t, credit)
      == Needs(Max(0, Min(room, Max(burst, hotShort - returning))),
               Max(0, warmShort - Max(0, returning - hotShort)))
  {}

  /** Without queued demand and below the cap, each returning VM covers exactly one missing
      slot of the hot and warm pools together. */
  lemma ReturningVMCoversOneSlot(s: Stats, inflight: nat, hotProv: nat, warmProv: nat, t: Target, credit: Credit)
    requires BurstDeficit(s, inflight, hotProv, t.desired, credit) <= 0
    requires Occupied(s, inflight, hotProv) + t.hotSize <= t.profileMax
    ensures
      var hotShort := Max(0, t.hotSize - (s.Available() + hotProv + inflight));
      var warmShort := Max(0, t.warmSize - (s.warm + warmProv));
      var n := ComputeCloneNeeds(s, inflight, hotProv, warmProv, t, credit);
      n.hot + n.warm == Max(0, hotShort + warmShort - (credit.busy + credit.recycling))
  {}

  /** Adding the busy credit lowers the total need by at least 0 and at most the number of
      busy returning VMs: one returning VM never suppresses two clones. */
  lemma CreditIsConserved(s: Stats, inflight: nat, hotProv: nat, warmProv: nat, t: Target, credit: Credit)
    ensures
      var without := ComputeCloneNeeds(s, inflight, hotProv, warmProv, t, Credit(0, credit.recycling));
      var with := ComputeCloneNeeds(s, inflight, hotProv, warmProv, t, credit);
      0 <= without.hot + without.warm - (with.hot + with.warm) <= credit.busy
  {}

  /** Whatever the busy credit, queued demand is served up to the cap, and cloning never
      takes the profile past it. */
  lemma BurstsAreNotDulled(s: Stats, inflight: nat, hotProv: nat, warmProv: nat, t: Target, credit: Credit)
    ensures
      var n := ComputeCloneNeeds(s, inflight, hotProv, warmProv, t, credit);
      var room := t.profileMax - Occupied(s, inflight, hotProv);
      && n.hot >= Min(BurstDeficit(s, inflight, hotProv, t.desired, credit), room)
      && (n.hot > 0 ==> Occupied(s, inflight, hotProv) + n.hot <= t.profileMax)
  {}

  /** Once the needs are recorded as provisioning rows, the same inputs need nothing more. */
  lemma RecordedNeedsAreEnough(s: Stats, inflight: nat, hotProv: nat, warmProv: nat, t: Target, credit: Credit)
    ensures
      var n := ComputeCloneNeeds(s, inflight, hotProv, warmProv, t, credit);
      ComputeCloneNeeds(s, inflight, hotProv + n.hot, warmProv + n.warm, t, credit) == Needs(0, 0)
  {}

  /** Cloning and shrinking never work against each other: hot rows above the shrink target
      mean no hot need, and after shrinking to the target there is still none; likewise for
      the warm pool. */
  lemma ShrinkAndCloneDoNotFight(s: Stats, inflight: nat, hotProv: nat, warmProv: nat, t: Target, credit: Credit)
    ensures
      var target := Max(t.hotSize, t.desired - s.Busy());
      && (s.hot > target ==>
            && ComputeCloneNeeds(s, inflight, hotProv, warmProv, t, credit).hot == 0
            && ComputeCloneNeeds(s.(hot := target), inflight, hotProv, warmProv, t, credit).hot == 0)
      && (s.warm > t.warmSize ==>
            && ComputeCloneNeeds(s, inflight, hotProv, warmProv, t, credit).warm == 0
            && ComputeCloneNeeds(s.(warm := t.warmSize), inflight, hotProv, warmProv, t, credit).warm == 0)
  {}

  // ------------------------------------------------------------------
  // Runs of passes
  // ------------------------------------------------------------------

  /** A profile's fleet: its rows, its provisioning rows by kind, the dispatched clones that
      have no row yet, and the clones the current pass has decided on but not dispatched. */
  datatype Fleet = Fleet(s: Stats, hotProv: nat, warmProv: nat, pendHot: nat, pendWarm: nat, owedHot: nat,
                         owedWarm: nat) {
    function HotSide(): nat { s.Available() + s.recycling + s.Busy() + hotProv + pendHot }
    function WarmSide(): nat { s.warm + warmProv + pendWarm }
    function Size(): nat { HotSide() + WarmSide() }
    function Planned(): nat { Size() + owedHot + owedWarm }
  }

  datatype Event =
    /** A reconcile pass decides. `extra` are other profiles' clones in flight; some of the
        promotions it asks for may fail. */
    | Pass(t: Target, credit: Credit, extra: nat, promoted: nat)
    /** It then dispatches clone by clone, hot ones first, waiting for a slot each time;
        shutdown drops the rest. */
    | HotDispatched | WarmDispatched | RestDropped
    | HotRowInserted | WarmRowInserted | CloneAbandonedHot | CloneAbandonedWarm
    | HotCloned | WarmCloned | Booted | Acquired | Started | Promoted | Completed(running: bool) | RolledBack
    | Destroyed(after: Stats, hotProv: nat, warmProv: nat)

  function PassNeeds(f: Fleet, e: Event): Needs
    requires e.Pass?
  {
    ComputeCloneNeeds(f.s, f.pendHot + f.pendWarm + e.extra, f.hotProv, f.warmProv, e.t, e.credit)
  }

  /** The returning VMs that the pass credits to the warm pool. */
  function WarmCredit(f: Fleet, e: Event): nat
    requires e.Pass?
  {
    e.credit.busy + e.credit.recycling
    - HotCredit(f.s, f.pendHot + f.pendWarm + e.extra, f.hotProv, e.t.hotSize, e.credit)
  }

  predicate AtMost(a: Stats, b: Stats) {
    && a.warm <= b.warm && a.booting <= b.booting && a.hot <= b.hot
    && a.claimed <= b.claimed && a.running <= b.running && a.recycling <= b.recycling
  }

  /** A clone holds its slot until it ends, so one without a row holds one. */
  predicate SlotFree(f: Fleet, slots: nat) { f.pendHot + f.pendWarm < slots }

  predicate Enabled(f: Fleet, e: Event, slots: nat) {
    match e
    case Pass(_, _, _, promoted) => f.owedHot == f.owedWarm == 0 && promoted <= Min(PassNeeds(f, e).hot, f.s.warm)
    case HotDispatched => f.owedHot > 0 && SlotFree(f, slots)
    case WarmDispatched => f.owedHot == 0 && f.owedWarm > 0 && SlotFree(f, slots)
    case RestDropped => true
    case HotRowInserted => f.pendHot > 0
    case WarmRowInserted => f.pendWarm > 0
    case CloneAbandonedHot => f.pendHot > 0
    case CloneAbandonedWarm => f.pendWarm > 0
    case HotCloned => f.hotProv > 0
    case WarmCloned => f.warmProv > 0
    case Booted => f.s.booting > 0
    case Acquired => f.s.hot > 0
    case Started => f.s.claimed > 0
    case Promoted => f.s.hot > 0
    case Completed(running) => if running then f.s.running > 0 else f.s.claimed > 0
    case RolledBack => f.s.recycling > 0
    case Destroyed(after, hotProv, warmProv) => AtMost(after, f.s) && hotProv <= f.hotProv && warmProv <= f.warmProv
  }

  function Apply(f: Fleet, e: Event, slots: nat): Fleet
    requires Enabled(f, e, slots)
  {
    match e
    case Pass(_, _, _, promoted) =>
      var n := PassNeeds(f, e);
      f.(s := f.s.(warm := f.s.warm - promoted, booting := f.s.booting + promoted),
         owedHot := n.hot - Min(n.hot, f.s.warm), owedWarm := n.warm)
    case HotDispatched => f.(owedHot := f.owedHot - 1, pendHot := f.pendHot + 1)
    case WarmDispatched => f.(owedWarm := f.owedWarm - 1, pendWarm := f.pendWarm + 1)
    case RestDropped => f.(owedHot := 0, owedWarm := 0)
    case HotRowInserted => f.(pendHot := f.pendHot - 1, hotProv := f.hotProv + 1)
    case WarmRowInserted => f.(pendWarm := f.pendWarm - 1, warmProv := f.warmProv + 1)
    case CloneAbandonedHot => f.(pendHot := f.pendHot - 1)
    case CloneAbandonedWarm => f.(pendWarm := f.pendWarm - 1)
    case HotCloned => f.(hotProv := f.hotProv - 1, s := f.s.(booting := f.s.booting + 1))
    case WarmCloned => f.(warmProv := f.warmProv - 1, s := f.s.(warm := f.s.warm + 1))
    case Booted => f.(s := f.s.(booting := f.s.booting - 1, hot := f.s.hot + 1))
    case Acquired => f.(s := f.s.(hot := f.s.hot - 1, claimed := f.s.claimed + 1))
    case Started => f.(s := f.s.(claimed := f.s.claimed - 1, running := f.s.running + 1))
    case Promoted => f.(s := f.s.(hot := f.s.hot - 1, running := f.s.running + 1))
    case Completed(running) =>
      if running then f.(s := f.s.(running := f.s.running - 1, recycling := f.s.recycling + 1))
      else f.(s := f.s.(claimed := f.s.claimed - 1, recycling := f.s.recycling + 1))
    case RolledBack => f.(s := f.s.(recycling := f.s.recycling - 1, warm := f.s.warm + 1))
    case Destroyed(after, hotProv, warmProv) => f.(s := after, hotProv := hotProv, warmProv := warmProv)
  }

  /** Between passes nothing is made up or lost: dispatching, inserting a row, landing, booting
      and serving a job conserve the fleet with its plan, on either side; a rollback returns
      one VM from the hot side to the warm one; an abandoned clone is one less. */
  lemma EventsConserve(f: Fleet, e: Event, slots: nat)
    requires Enabled(f, e, slots) && !e.Pass? && !e.RestDropped? && !e.Destroyed?
    ensures
      var f' := Apply(f, e, slots);
      var hot, warm :=
        f'.HotSide() + f'.owedHot - f.HotSide() - f.owedHot, f'.WarmSide() + f'.owedWarm - f.WarmSide() - f.owedWarm;
      match e
      case CloneAbandonedHot => hot == -1 && warm == 0
      case CloneAbandonedWarm => hot == 0 && warm == -1
      case RolledBack => hot == -1 && warm == 1
      case _ => hot == 0 && warm == 0
    ensures
      var f' := Apply(f, e, slots);
      && (e.HotDispatched? ==> f'.pendHot == f.pendHot + 1) && (e.WarmDispatched? ==> f'.pendWarm == f.pendWarm + 1)
      && (e.HotRowInserted? ==> f'.hotProv == f.hotProv + 1) && (e.WarmRowInserted? ==> f'.warmProv == f.warmProv + 1)
      && (e.HotCloned? ==> f'.hotProv == f.hotProv - 1) && (e.WarmCloned? ==> f'.warmProv == f.warmProv - 1)
  {
    hide PassNeeds;
  }

  /** A pass whose promotions all succeed plans for exactly what is needed: the hot side grows by
      the hot need, from warm rows as far as there are any, and the warm side by the warm need
      less what it gives away. */
  lemma PassMeetsNeeds(f: Fleet, e: Event, slots: nat)
    requires e.Pass? && Enabled(f, e, slots) && (e.promoted == PassNeeds(f, e).hot || e.promoted == f.s.warm)
    ensures
      var f', n := Apply(f, e, slots), PassNeeds(f, e);
      && f'.HotSide() + f'.owedHot == f.HotSide() + n.hot
      && f'.WarmSide() + f'.owedWarm == f.WarmSide() + n.warm - e.promoted
      && (f'.owedHot > 0 ==> f'.s.warm == 0)
      && f'.s.warm + e.promoted == f.s.warm && f'.s.booting == f.s.booting + e.promoted && f'.s.hot == f.s.hot
  {
    hide PassNeeds;
  }

  /** The warm need does not count dispatched clones that have no row yet. What a pass plans
      keeps the warm side within its target, or where it was, exactly when the rows and the
      credit leave no more to clone than it promotes, or the clones without a row are no more
      than the credit and the promotions. */
  lemma WarmOvershootsExactly(f: Fleet, e: Event, slots: nat)
    requires e.Pass? && Enabled(f, e, slots)
    ensures
      var after := Apply(f, e, slots);
      after.WarmSide() + after.owedWarm <= Max(f.WarmSide(), e.t.warmSize) <==>
        f.s.warm + f.warmProv + WarmCredit(f, e) + e.promoted >= e.t.warmSize ||
        f.pendWarm <= WarmCredit(f, e) + e.promoted
  {}

  /** The pass needs no warm clones, or the credit outweighs the clones without a row. */
  predicate WarmSeen(f: Fleet, e: Event)
    requires e.Pass?
  {
    f.s.warm + f.warmProv + WarmCredit(f, e) >= e.t.warmSize || f.pendWarm <= WarmCredit(f, e)
  }

  predicate WithinCaps(e: Event, cap: int, warmCap: nat) {
    e.Pass? ==> e.t.profileMax <= cap && e.t.warmSize <= warmCap
  }

  predicate Legal(f: Fleet, es: seq<Event>, slots: nat, cap: int, warmCap: nat)
    decreases |es|
  {
    es == [] ||
    (Enabled(f, es[0], slots) && WithinCaps(es[0], cap, warmCap) &&
     Legal(Apply(f, es[0], slots), es[1..], slots, cap, warmCap))
  }

  function Run(f: Fleet, es: seq<Event>, slots: nat, cap: int, warmCap: nat): Fleet
    requires Legal(f, es, slots, cap, warmCap)
    decreases |es|
  {
    if es == [] then f else Run(Apply(f, es[0], slots), es[1..], slots, cap, warmCap)
  }

  predicate AllWarmSeen(f: Fleet, es: seq<Event>, slots: nat, cap: int, warmCap: nat)
    requires Legal(f, es, slots, cap, warmCap)
    decreases |es|
  {
    es == [] ||
    ((es[0].Pass? ==> WarmSeen(f, es[0])) && AllWarmSeen(Apply(f, es[0], slots), es[1..], slots, cap, warmCap))
  }

  /** How far it goes: a warm pool that is short, without credit and without new rows, can
      have every free clone slot filled with warm clones by one pass after another. */
  lemma {:induction false} UnseenWarmClonesPileUp(f: Fleet, e: Event, n: nat, slots: nat) returns (es: seq<Event>)
    requires e.Pass? && e.credit == Credit(0, 0) && e.promoted == 0 && f.owedHot == 0
    requires f.s.warm + f.warmProv < e.t.warmSize && PassNeeds(f, e).hot == 0
    requires f.pendHot + f.pendWarm + n <= slots
    ensures Legal(f, es, slots, e.t.profileMax, e.t.warmSize)
    ensures Run(f, es, slots, e.t.profileMax, e.t.warmSize).WarmSide() == f.WarmSide() + n
    decreases n, f.owedWarm == 0
  {
    if n == 0 {
      es := [];
    } else {
      var next := if f.owedWarm == 0 then e else WarmDispatched;
      var rest := UnseenWarmClonesPileUp(Apply(f, next, slots), e, if f.owedWarm == 0 then n else n - 1, slots);
      es := [next] + rest;
      assert es[1..] == rest;
    }
  }

  /** What a run keeps: the hot side and its planned clones under `hot`, the warm clones in
      the making under `warm`, and everything under their sum or where it was. */
  predicate Within(f: Fleet, slots: nat, hot: int, warm: int, all: int) {
    && f.pendHot + f.pendWarm <= slots
    && f.HotSide() + f.owedHot <= hot
    && f.warmProv + f.pendWarm + f.owedWarm <= warm
    && f.Planned() <= all
  }

  /** A hot need keeps the hot side under the cap, a warm need meets the warm target. */
  lemma PassPlans(f: Fleet, e: Event)
    requires e.Pass?
    ensures PassNeeds(f, e).hot > 0 ==> f.HotSide() + PassNeeds(f, e).hot <= e.t.profileMax
    ensures PassNeeds(f, e).warm > 0 ==> f.s.warm + f.warmProv + WarmCredit(f, e) + PassNeeds(f, e).warm == e.t.warmSize
  {}

  /** A pass may overlook as many warm clones as there are slots, or none if they are seen. */
  lemma PassWithinCaps(f: Fleet, e: Event, slots: nat, hot: int, warm: int, all: int)
    requires e.Pass? && Enabled(f, e, slots) && Within(f, slots, hot, warm, all)
    requires e.t.profileMax <= hot && hot + warm <= all
    requires e.t.warmSize + slots <= warm || (e.t.warmSize <= warm && WarmSeen(f, e))
    ensures Within(Apply(f, e, slots), slots, hot, warm, all)
  {
    hide PassNeeds, WarmCredit;
    PassPlans(f, e);
  }

  lemma StepWithinCaps(f: Fleet, e: Event, slots: nat, cap: int, warmCap: nat, hot: int, warm: int, all: int)
    requires Enabled(f, e, slots) && WithinCaps(e, cap, warmCap) && Within(f, slots, hot, warm, all)
    requires cap <= hot && hot + warm <= all
    requires warmCap + slots <= warm || (warmCap <= warm && (e.Pass? ==> WarmSeen(f, e)))
    ensures Within(Apply(f, e, slots), slots, hot, warm, all)
  {
    hide PassNeeds, WarmSeen;
    if e.Pass? {
      PassWithinCaps(f, e, slots, hot, warm, all);
    }
  }

  lemma {:induction false} FleetWithin(f: Fleet, es: seq<Event>, slots: nat, cap: int, warmCap: nat, hot: int,
                                       warm: int, all: int)
    requires Legal(f, es, slots, cap, warmCap) && Within(f, slots, hot, warm, all)
    requires cap <= hot && hot + warm <= all
    requires warmCap + slots <= warm || (warmCap <= warm && AllWarmSeen(f, es, slots, cap, warmCap))
    ensures Within(Run(f, es, slots, cap, warmCap), slots, hot, warm, all)
    decreases |es|
  {
    hide Enabled, Apply, WarmSeen, Within;
    if es != [] {
      StepWithinCaps(f, es[0], slots, cap, warmCap, hot, warm, all);
      FleetWithin(Apply(f, es[0], slots), es[1..], slots, cap, warmCap, hot, warm, all);
    }
  }

  /** In every run the hot side stays under the profile's cap and the whole fleet under cap
      plus warm target plus clone slots, or where they started, although the warm need is
      neither capped nor aware of clones without a row. */
  lemma FleetStaysWithinCaps(f: Fleet, es: seq<Event>, slots: nat, cap: int, warmCap: nat)
    requires Legal(f, es, slots, cap, warmCap) && f.pendHot + f.pendWarm <= slots
    ensures
      var end := Run(f, es, slots, cap, warmCap);
      var hot := Max(cap, f.HotSide() + f.owedHot);
      && end.pendHot + end.pendWarm <= slots
      && end.HotSide() <= hot
      && end.Size() <= Max(f.Planned(), hot + Max(f.warmProv + f.pendWarm + f.owedWarm, warmCap + slots))
  {
    var hot := Max(cap, f.HotSide() + f.owedHot);
    var warm := Max(f.warmProv + f.pendWarm + f.owedWarm, warmCap + slots);
    FleetWithin(f, es, slots, cap, warmCap, hot, warm, Max(f.Planned(), hot + warm));
  }

  /** If no pass overlooks a warm clone, the slots drop out of the bound. */
  lemma SeenFleetStaysWithinCaps(f: Fleet, es: seq<Event>, slots: nat, cap: int, warmCap: nat)
    requires Legal(f, es, slots, cap, warmCap) && f.pendHot + f.pendWarm <= slots &&
      AllWarmSeen(f, es, slots, cap, warmCap)
    ensures
      var hot := Max(cap, f.HotSide() + f.owedHot);
      Run(f, es, slots, cap, warmCap).Size()
        <= Max(f.Planned(), hot + Max(f.warmProv + f.pendWarm + f.owedWarm, warmCap))
  {
    var hot := Max(cap, f.HotSide() + f.owedHot);
    var warm := Max(f.warmProv + f.pendWarm + f.owedWarm, warmCap);
    FleetWithin(f, es, slots, cap, warmCap, hot, warm, Max(f.Planned(), hot + warm));
  }
}
