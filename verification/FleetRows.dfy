/** The sizing arithmetic counts the rows of the store: each lifecycle transaction changes the
    counts as the fleet event of that name does. */
module FleetRows {
  import VMStore
  import L = Lifecycle
  import Z = Sizing

  function RowsIn(st: L.States, s: VMStore.State): set<int> { set v | v in st && st[v] == s }

  /** How many rows are in each state that sizing looks at. */
  function StatsOf(st: L.States): Z.Stats {
    Z.Stats(|RowsIn(st, VMStore.Warm)|, |RowsIn(st, VMStore.Booting)|, |RowsIn(st, VMStore.Hot)|,
            |RowsIn(st, VMStore.Assigned)|, |RowsIn(st, VMStore.Running)|, |RowsIn(st, VMStore.Recycling)|)
  }

  /** Moving one row changes the counts of the state it leaves and of the one it enters. */
  lemma RowMoves(st: L.States, v: int, to: VMStore.State, s: VMStore.State)
    requires v in st
    ensures |RowsIn(st[v := to], s)|
         == |RowsIn(st, s)| + (if to == s then 1 else 0) - (if st[v] == s then 1 else 0)
  {
    var before, after := RowsIn(st, s), RowsIn(st[v := to], s);
    if to == s {
      assert after == before + {v};
    } else {
      assert after == before - {v};
    }
  }

  lemma AllMove(st: L.States, v: int, to: VMStore.State)
    requires v in st
    ensures forall s :: |RowsIn(st[v := to], s)|
                     == |RowsIn(st, s)| + (if to == s then 1 else 0) - (if st[v] == s then 1 else 0)
  {
    forall s ensures |RowsIn(st[v := to], s)|
                  == |RowsIn(st, s)| + (if to == s then 1 else 0) - (if st[v] == s then 1 else 0)
    {
      RowMoves(st, v, to, s);
    }
  }

  /** The fleet event that a transaction on a row is, if it is one. */
  function EventOf(st: L.States, e: L.Step): Z.Event
    requires e.vmid in st
  {
    match e
    case Acquire(_, _, _) => Z.Acquired
    case Guarded(MarkRunning, _) => Z.Started
    case Guarded(PromoteToRunning, v) => if st[v] == VMStore.Hot then Z.Promoted else Z.Started
    case Guarded(CompleteToRecycle, v) => Z.Completed(st[v] == VMStore.Running)
    case Guarded(RollbackDone, _) => Z.RolledBack
    case Write(_, Hot) => Z.Booted
    case _ => Z.RestDropped
  }

  predicate IsFleetEvent(st: L.States, e: L.Step) {
    || e.Acquire?
    || (e.Guarded? && (e.op == L.MarkRunning || e.op == L.PromoteToRunning || e.op == L.CompleteToRecycle
                       || e.op == L.RollbackDone))
    || (e.Write? && e.to == VMStore.Hot && e.vmid in st && st[e.vmid] == VMStore.Booting)
  }

  /** Acquiring, starting, promoting, completing, rolling back and booting move the counts as
      the events do. */
  lemma CountsFollow(st: L.States, e: L.Step, f: Z.Fleet, slots: nat)
    requires L.Fires(st, e) && IsFleetEvent(st, e) && f.s == StatsOf(st)
    ensures e.vmid in st && Z.Enabled(f, EventOf(st, e), slots)
    ensures Z.Apply(f, EventOf(st, e), slots) == f.(s := StatsOf(L.NextStates(st, e)))
  {
    var v := e.vmid;
    var next := L.NextStates(st, e);
    assert v in st && next == st[v := next[v]];
    assert Moves(st[v], next[v], EventOf(st, e));
    hide L.Fires, L.NextStates, EventOf, Moves, IsFleetEvent;
    MoveFollows(st, v, next[v], f, EventOf(st, e), slots);
  }

  /** From which state to which the event moves a row. */
  predicate Moves(from: VMStore.State, to: VMStore.State, ev: Z.Event) {
    || (ev == Z.Acquired && from == VMStore.Hot && to == VMStore.Assigned)
    || (ev == Z.Started && from == VMStore.Assigned && to == VMStore.Running)
    || (ev == Z.Promoted && from == VMStore.Hot && to == VMStore.Running)
    || (ev == Z.Completed(true) && from == VMStore.Running && to == VMStore.Recycling)
    || (ev == Z.Completed(false) && from == VMStore.Assigned && to == VMStore.Recycling)
    || (ev == Z.RolledBack && from == VMStore.Recycling && to == VMStore.Warm)
    || (ev == Z.Booted && from == VMStore.Booting && to == VMStore.Hot)
  }

  lemma MoveFollows(st: L.States, v: int, to: VMStore.State, f: Z.Fleet, ev: Z.Event, slots: nat)
    requires v in st && Moves(st[v], to, ev) && f.s == StatsOf(st)
    ensures Z.Enabled(f, ev, slots) && Z.Apply(f, ev, slots) == f.(s := StatsOf(st[v := to]))
  {
    hide RowsIn, Z.PassNeeds;
    AllMove(st, v, to);
    OccupiedState(st, v);
  }

  lemma OccupiedState(st: L.States, v: int)
    requires v in st
    ensures |RowsIn(st, st[v])| > 0
  {
    assert v in RowsIn(st, st[v]);
  }

  /** A promotion moves one row from Warm to Booting, as a pass takes it into account; and
      whatever drains a row only lowers the counts, as destroying does. */
  lemma PromotionsAndDrains(st: L.States, v: int)
    requires v in st
    ensures L.Fires(st, L.Guarded(L.PromoteWarm, v)) ==>
      var s := StatsOf(st);
      s.warm > 0 &&
      StatsOf(L.NextStates(st, L.Guarded(L.PromoteWarm, v))) == s.(warm := s.warm - 1, booting := s.booting + 1)
    ensures forall op :: L.To(op) == VMStore.Draining ==>
      Z.AtMost(StatsOf(L.NextStates(st, L.Guarded(op, v))), StatsOf(st))
  {
    hide RowsIn;
    AllMove(st, v, VMStore.Booting);
    AllMove(st, v, VMStore.Draining);
    OccupiedState(st, v);
  }

  /** A clone that has landed leaves Provisioning for Warm or Booting, as its event has it. */
  lemma LandingsFollow(st: L.States, v: int, f: Z.Fleet, slots: nat)
    requires v in st && st[v] == VMStore.Provisioning && f.s == StatsOf(st)
    ensures f.warmProv > 0 ==>
      Z.Apply(f, Z.WarmCloned, slots).s == StatsOf(L.NextStates(st, L.Write(v, VMStore.Warm)))
    ensures f.hotProv > 0 ==>
      Z.Apply(f, Z.HotCloned, slots).s == StatsOf(L.NextStates(st, L.Write(v, VMStore.Booting)))
  {
    hide RowsIn, Z.PassNeeds;
    AllMove(st, v, VMStore.Warm);
    AllMove(st, v, VMStore.Booting);
  }
}
