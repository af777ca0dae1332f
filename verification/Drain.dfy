/** The destroy queue, its dispatcher, the wait group and the shutdown drain of
    internal/pool/manager.go, as a protocol over single atomic steps. */
module Drain {
  import opened Sequences

  const QUEUE_CAP: nat := 16

  datatype Dispatcher = Serving | InHand(vmid: int) | Flushing | Exited

  /** `past` are callers of destroyAsync between the drain gate and the send; `live` destroy
      workers; `leaving` workers that released their semaphore slot but not yet the wait
      group; `waiting`/`active` rollback workers before and after getting a slot; `other`
      clone and boot workers; `skipped` counts rollbacks given up before their slot. Then come
      the VMIDs of all requests accepted and of those finished, dropped and abandoned, and what
      was put into and taken from the queue, in order. */
  datatype State = State(draining: bool, cancelled: bool, wg: int, past: seq<int>, queue: seq<int>,
                         dispatcher: Dispatcher, live: seq<int>, leaving: seq<int>, waiting: nat, active: nat,
                         other: nat, skipped: nat, accepted: seq<int>, finished: seq<int>, dropped: seq<int>,
                         abandoned: seq<int>, sent: seq<int>, taken: seq<int>)

  datatype Step =
    | EnterGate(vmid: int)
    | Send(caller: nat)
    | Take
    | Spawn
    | GiveUp
    | SeeCancel
    | Flush
    | FlushDone
    | ReleaseSlot(worker: nat)
    | WorkerDone(worker: nat)
    | RollbackGate
    | RollbackStart
    | RollbackCancelled
    | RollbackEnd
    | OtherStart
    | OtherEnd
    | BeginDrain
    | Cancel

  /** Destroys and rollbacks share one semaphore. */
  function SlotsUsed(st: State): nat { |st.live| + st.active }

  predicate Enabled(st: State, e: Step, slots: nat) {
    match e
    case EnterGate(_) => true
    case Send(caller) => caller < |st.past|
    case Take => st.dispatcher.Serving? && st.queue != []
    case Spawn => st.dispatcher.InHand? && SlotsUsed(st) < slots
    case GiveUp => st.dispatcher.InHand? && st.cancelled
    case SeeCancel => st.dispatcher.Serving? && st.cancelled
    case Flush => st.dispatcher.Flushing? && st.queue != []
    case FlushDone => st.dispatcher.Flushing? && st.queue == []
    case ReleaseSlot(worker) => worker < |st.live|
    case WorkerDone(worker) => worker < |st.leaving|
    case RollbackGate => true
    case RollbackStart => st.waiting > 0 && SlotsUsed(st) < slots
    case RollbackCancelled => st.waiting > 0 && st.cancelled
    case RollbackEnd => st.active > 0
    // the reconcile loops, which start these, have ended before the drain begins
    case OtherStart => !st.draining
    case OtherEnd => st.other > 0
    case BeginDrain => true
    // a drain that timed out, or Close before any drain
    case Cancel => true
  }

  function Without(s: seq<int>, i: nat): (r: seq<int>)
    requires i < |s|
    ensures |r| == |s| - 1
  {
    s[..i] + s[i + 1..]
  }

  function Apply(st: State, e: Step, slots: nat): State
    requires Enabled(st, e, slots)
  {
    match e
    case EnterGate(vmid) =>
      if st.draining then st else st.(wg := st.wg + 1, past := st.past + [vmid], accepted := st.accepted + [vmid])
    case Send(caller) =>
      var v := st.past[caller];
      if |st.queue| < QUEUE_CAP then
        st.(past := Without(st.past, caller), queue := st.queue + [v], sent := st.sent + [v])
      else st.(past := Without(st.past, caller), wg := st.wg - 1, dropped := st.dropped + [v])
    case Take => st.(dispatcher := InHand(st.queue[0]), queue := st.queue[1..], taken := st.taken + [st.queue[0]])
    case Spawn => st.(dispatcher := Serving, live := st.live + [st.dispatcher.vmid])
    case GiveUp =>
      st.(dispatcher := Flushing, wg := st.wg - 1, abandoned := st.abandoned + [st.dispatcher.vmid])
    case SeeCancel => st.(dispatcher := Flushing)
    case Flush =>
      var v := st.queue[0];
      st.(queue := st.queue[1..], wg := st.wg - 1, abandoned := st.abandoned + [v], taken := st.taken + [v])
    case FlushDone => st.(dispatcher := Exited)
    case ReleaseSlot(worker) =>
      st.(live := Without(st.live, worker), leaving := st.leaving + [st.live[worker]])
    case WorkerDone(worker) =>
      st.(leaving := Without(st.leaving, worker), wg := st.wg - 1, finished := st.finished + [st.leaving[worker]])
    case RollbackGate => if st.draining then st else st.(wg := st.wg + 1, waiting := st.waiting + 1)
    case RollbackStart => st.(waiting := st.waiting - 1, active := st.active + 1)
    case RollbackCancelled => st.(waiting := st.waiting - 1, wg := st.wg - 1, skipped := st.skipped + 1)
    case RollbackEnd => st.(active := st.active - 1, wg := st.wg - 1)
    case OtherStart => st.(wg := st.wg + 1, other := st.other + 1)
    case OtherEnd => st.(other := st.other - 1, wg := st.wg - 1)
    case BeginDrain => st.(draining := true)
    case Cancel => st.(cancelled := true)
  }

  /** Destroy requests past the gate that are not settled yet. */
  function Pending(st: State): nat {
    |st.past| + |st.queue| + (if st.dispatcher.InHand? then 1 else 0) + |st.live| + |st.leaving|
  }

  /** The wait group counts exactly the outstanding work. */
  predicate WorkCounted(st: State) { st.wg == Pending(st) + st.waiting + st.active + st.other }

  /** Every accepted request is pending, finished, dropped or abandoned. */
  predicate RequestsSettled(st: State) {
    |st.accepted| == Pending(st) + |st.finished| + |st.dropped| + |st.abandoned|
  }

  /** The same request by request: each VMID was accepted as often as it is past the gate, in
      the queue, in hand, with a worker, finished, dropped or abandoned. */
  predicate Followed(st: State, v: int) {
    Times(st.accepted, v)
    == Times(st.past, v) + Times(st.queue, v) + (if st.dispatcher == InHand(v) then 1 else 0) + Times(st.live, v)
       + Times(st.leaving, v) + Times(st.finished, v) + Times(st.dropped, v) + Times(st.abandoned, v)
  }

  /** First in, first out: what was taken is what was sent, in the same order, up to what is
      still queued; and what is in hand was taken last. */
  predicate InTurn(st: State) {
    && st.sent == st.taken + st.queue
    && (st.dispatcher.InHand? ==> st.taken != [] && st.taken[|st.taken| - 1] == st.dispatcher.vmid)
  }

  predicate WithinBounds(st: State, slots: nat) { |st.queue| <= 16 && SlotsUsed(st) <= slots }

  predicate Counted(st: State, slots: nat) { WorkCounted(st) && RequestsSettled(st) && WithinBounds(st, slots) }

  lemma StepCounted(st: State, e: Step, slots: nat)
    requires Counted(st, slots) && Enabled(st, e, slots)
    ensures Counted(Apply(st, e, slots), slots)
  {
    hide WorkCounted, RequestsSettled, WithinBounds, Apply;
    WorkStaysCounted(st, e, slots);
    RequestsStaySettled(st, e, slots);
    BoundsStay(st, e, slots);
  }

  lemma WorkStaysCounted(st: State, e: Step, slots: nat)
    requires WorkCounted(st) && Enabled(st, e, slots)
    ensures WorkCounted(Apply(st, e, slots))
  {
    hide Without;
  }

  lemma RequestsStaySettled(st: State, e: Step, slots: nat)
    requires RequestsSettled(st) && Enabled(st, e, slots)
    ensures RequestsSettled(Apply(st, e, slots))
  {
    hide Without;
  }

  lemma BoundsStay(st: State, e: Step, slots: nat)
    requires WithinBounds(st, slots) && Enabled(st, e, slots)
    ensures WithinBounds(Apply(st, e, slots), slots)
  {
    hide Without;
  }

  lemma TimesAfter(s: seq<int>, i: nat, v: int)
    requires i < |s|
    ensures Times(Without(s, i), v) == Times(s, v) - if s[i] == v then 1 else 0
  {
    TimesWithout(s, i, v);
  }

  lemma StaysFollowed(st: State, e: Step, slots: nat, v: int)
    requires Followed(st, v) && Enabled(st, e, slots)
    ensures Followed(Apply(st, e, slots), v)
  {
    hide Times, Without;
    match e
    case EnterGate(vmid) =>
      TimesOfOneMore(st.past, vmid, v);
      TimesOfOneMore(st.accepted, vmid, v);
    case Send(caller) =>
      TimesAfter(st.past, caller, v);
      TimesOfOneMore(st.queue, st.past[caller], v);
      TimesOfOneMore(st.dropped, st.past[caller], v);
    case Take => TimesOfTail(st.queue, v);
    case Spawn => TimesOfOneMore(st.live, st.dispatcher.vmid, v);
    case GiveUp => TimesOfOneMore(st.abandoned, st.dispatcher.vmid, v);
    case Flush =>
      TimesOfTail(st.queue, v);
      TimesOfOneMore(st.abandoned, st.queue[0], v);
    case ReleaseSlot(worker) =>
      TimesAfter(st.live, worker, v);
      TimesOfOneMore(st.leaving, st.live[worker], v);
    case WorkerDone(worker) =>
      TimesAfter(st.leaving, worker, v);
      TimesOfOneMore(st.finished, st.leaving[worker], v);
    case _ =>
  }

  lemma StaysInTurn(st: State, e: Step, slots: nat)
    requires InTurn(st) && Enabled(st, e, slots)
    ensures InTurn(Apply(st, e, slots))
  {
    hide Without;
    if e.Take? || e.Flush? {
      assert st.taken + st.queue == st.taken + [st.queue[0]] + st.queue[1..];
    } else if e.Send? {
      assert st.taken + (st.queue + [st.past[e.caller]]) == st.taken + st.queue + [st.past[e.caller]];
    }
  }

  lemma StepOnlyRisesUndrained(st: State, e: Step, slots: nat)
    requires Enabled(st, e, slots)
    ensures Apply(st, e, slots).wg > st.wg ==> !st.draining
    ensures st.draining ==> Apply(st, e, slots).draining && Apply(st, e, slots).accepted == st.accepted
    ensures st.dispatcher.Exited? ==>
      Apply(st, e, slots).dispatcher.Exited? && |st.queue| <= |Apply(st, e, slots).queue|
  {}

  predicate Legal(st: State, es: seq<Step>, slots: nat)
    decreases |es|
  {
    es == [] || (Enabled(st, es[0], slots) && Legal(Apply(st, es[0], slots), es[1..], slots))
  }

  function Run(st: State, es: seq<Step>, slots: nat): State
    requires Legal(st, es, slots)
    decreases |es|
  {
    if es == [] then st else Run(Apply(st, es[0], slots), es[1..], slots)
  }

  /** Nothing is outstanding. */
  predicate Quiet(st: State) {
    && st.past == [] && st.queue == [] && !st.dispatcher.InHand? && st.live == []
    && st.leaving == [] && st.waiting == 0 && st.active == 0 && st.other == 0
  }

  /** The manager as it starts. */
  predicate Initial(st: State) {
    && Quiet(st) && !st.draining && !st.cancelled && st.wg == 0 && st.dispatcher == Serving
    && st.accepted == [] && st.finished == [] && st.dropped == [] && st.abandoned == []
    && st.sent == [] && st.taken == [] && st.skipped == 0
  }

  /** In every interleaving the wait group equals the outstanding work, so it never goes
      negative; once draining is set it never rises and no request is accepted. */
  lemma {:induction false} WaitGroupCountsWork(st: State, es: seq<Step>, slots: nat)
    requires Counted(st, slots) && Legal(st, es, slots)
    ensures Counted(Run(st, es, slots), slots)
    ensures st.draining ==>
      Run(st, es, slots).draining && Run(st, es, slots).wg <= st.wg && Run(st, es, slots).accepted == st.accepted
    ensures st.dispatcher.Exited? ==>
      Run(st, es, slots).dispatcher.Exited? && |st.queue| <= |Run(st, es, slots).queue|
    decreases |es|
  {
    hide Counted, Enabled, Apply;
    if es != [] {
      StepCounted(st, es[0], slots);
      StepOnlyRisesUndrained(st, es[0], slots);
      WaitGroupCountsWork(Apply(st, es[0], slots), es[1..], slots);
    }
  }

  /** A drain that sees the wait group at zero is final: at that moment, and in every state
      reachable from it, nothing is queued, in hand or running, and every request ever
      accepted was finished, dropped or abandoned. */
  lemma CleanDrainIsFinal(start: State, before: seq<Step>, after: seq<Step>, slots: nat)
    requires Initial(start) && Legal(start, before, slots)
    requires var st := Run(start, before, slots); st.draining && st.wg == 0 && Legal(st, after, slots)
    ensures
      var end := Run(Run(start, before, slots), after, slots);
      && end.wg == 0 && Quiet(end)
      && end.accepted == Run(start, before, slots).accepted
      && (forall v ::
          Times(end.accepted, v) == Times(end.finished, v) + Times(end.dropped, v) + Times(end.abandoned, v))
  {
    InitialCounted(start, slots);
    hide Run, Legal, Quiet, Counted;
    WaitGroupCountsWork(start, before, slots);
    WaitGroupCountsWork(Run(start, before, slots), after, slots);
    ZeroMeansQuiet(Run(Run(start, before, slots), after, slots), slots);
    forall v
      ensures
        var end := Run(Run(start, before, slots), after, slots);
        Times(end.accepted, v) == Times(end.finished, v) + Times(end.dropped, v) + Times(end.abandoned, v)
    {
      InitialFollowed(start, v);
      RequestsAreFollowed(start, before, slots, v);
      RequestsAreFollowed(Run(start, before, slots), after, slots, v);
      QuietMeansSettled(Run(Run(start, before, slots), after, slots), v);
    }
  }

  /** The gate: once a drain begins, in no continuation is a request accepted any more, and the
      wait group only falls. */
  lemma DrainClosesGate(st: State, es: seq<Step>, slots: nat)
    requires Counted(st, slots) && Legal(Apply(st, BeginDrain, slots), es, slots)
    ensures
      var end := Run(Apply(st, BeginDrain, slots), es, slots);
      end.draining && end.accepted == st.accepted && end.wg <= st.wg
  {
    hide Run, Legal, Counted;
    StepCounted(st, BeginDrain, slots);
    WaitGroupCountsWork(Apply(st, BeginDrain, slots), es, slots);
  }

  lemma InitialFollowed(st: State, v: int)
    requires Initial(st)
    ensures Followed(st, v) && InTurn(st)
  {}

  lemma QuietMeansSettled(st: State, v: int)
    requires Quiet(st) && Followed(st, v)
    ensures Times(st.accepted, v) == Times(st.finished, v) + Times(st.dropped, v) + Times(st.abandoned, v)
  {}

  /** In every interleaving each VMID's requests are followed to where they are, and requests
      leave the queue in the order they were sent. */
  lemma {:induction false} RequestsAreFollowed(st: State, es: seq<Step>, slots: nat, v: int)
    requires Followed(st, v) && InTurn(st) && Legal(st, es, slots)
    ensures Followed(Run(st, es, slots), v) && InTurn(Run(st, es, slots))
    decreases |es|
  {
    hide Followed, InTurn, Enabled, Apply;
    if es != [] {
      StaysFollowed(st, es[0], slots, v);
      StaysInTurn(st, es[0], slots);
      RequestsAreFollowed(Apply(st, es[0], slots), es[1..], slots, v);
    }
  }

  lemma InitialCounted(st: State, slots: nat)
    requires Initial(st)
    ensures Counted(st, slots)
  {}

  lemma ZeroMeansQuiet(st: State, slots: nat)
    requires Counted(st, slots)
    ensures st.wg >= 0 && (st.wg == 0 <==> Quiet(st))
    ensures st.wg == 0 ==> |st.accepted| == |st.finished| + |st.dropped| + |st.abandoned|
  {}

  /** Destroys and rollbacks are given up only after the workers were cancelled, and so does the
      dispatcher leave. */
  predicate GivesUpLate(st: State) {
    st.abandoned != [] || st.skipped > 0 || st.dispatcher.Flushing? || st.dispatcher.Exited? ==> st.cancelled
  }

  lemma {:induction false} NothingAbandonedEarly(st: State, es: seq<Step>, slots: nat)
    requires GivesUpLate(st) && Legal(st, es, slots)
    ensures GivesUpLate(Run(st, es, slots))
    decreases |es|
  {
    if es != [] {
      GivesUpLater(st, es[0], slots);
      hide Enabled, Apply, GivesUpLate;
      NothingAbandonedEarly(Apply(st, es[0], slots), es[1..], slots);
    }
  }

  lemma GivesUpLater(st: State, e: Step, slots: nat)
    requires GivesUpLate(st) && Enabled(st, e, slots)
    ensures GivesUpLate(Apply(st, e, slots))
  {
    hide Without;
  }

  /** A request is dropped exactly if it finds sixteen in the queue; else it joins at the end. */
  lemma DroppedOnlyWhenFull(st: State, caller: nat, slots: nat)
    requires WithinBounds(st, slots) && caller < |st.past|
    ensures
      var next := Apply(st, Send(caller), slots);
      if |st.queue| == 16 then next.queue == st.queue && next.dropped == st.dropped + [st.past[caller]]
      else next.queue == st.queue + [st.past[caller]] && next.dropped == st.dropped
  {}

  /** What a drain can still wait for once the dispatcher has flushed and gone: a request sent
      after that stays in the queue, so the wait group never reaches zero again. */
  lemma LateSendIsStranded(st: State, es: seq<Step>, slots: nat)
    requires Counted(st, slots) && st.dispatcher.Exited? && st.queue != [] && Legal(st, es, slots)
    ensures Run(st, es, slots).wg > 0
  {
    WaitGroupCountsWork(st, es, slots);
  }

  /** It can happen: a caller passes the gate before the drain begins and sends after the
      timed-out drain cancelled the workers and the dispatcher left. */
  lemma LateSendHappens(start: State, slots: nat, vmid: int) returns (es: seq<Step>)
    requires Initial(start)
    ensures Legal(start, es, slots)
    ensures Run(start, es, slots).dispatcher.Exited? && Run(start, es, slots).queue == [vmid]
  {
    var s1 := Apply(start, EnterGate(vmid), slots);
    var s2 := Apply(s1, BeginDrain, slots);
    var s3 := Apply(s2, Cancel, slots);
    assert s3.cancelled && s3.dispatcher == Serving && s3.queue == [] && s3.past == [vmid];
    hide Apply, Run, Legal;
    es := DispatcherLeavesFirst(s3, slots, vmid);
    es := RunOne(s2, Cancel, es, slots);
    es := RunOne(s1, BeginDrain, es, slots);
    es := RunOne(start, EnterGate(vmid), es, slots);
  }

  lemma DispatcherLeavesFirst(st: State, slots: nat, vmid: int) returns (es: seq<Step>)
    requires st.cancelled && st.dispatcher == Serving && st.queue == [] && st.past == [vmid]
    ensures Legal(st, es, slots)
    ensures Run(st, es, slots).dispatcher.Exited? && Run(st, es, slots).queue == [vmid]
  {
    var s1 := Apply(st, SeeCancel, slots);
    var s2 := Apply(s1, FlushDone, slots);
    var s3 := Apply(s2, Send(0), slots);
    assert s3.dispatcher == Exited && s3.queue == [vmid];
    assert Legal(s3, [], slots) && Run(s3, [], slots) == s3;
    hide Apply, Run, Legal;
    es := RunOne(s2, Send(0), [], slots);
    es := RunOne(s1, FlushDone, es, slots);
    es := RunOne(st, SeeCancel, es, slots);
  }

  lemma RunOne(st: State, e: Step, es: seq<Step>, slots: nat) returns (all: seq<Step>)
    requires Enabled(st, e, slots) && Legal(Apply(st, e, slots), es, slots)
    ensures all == [e] + es && Legal(st, all, slots) && Run(st, all, slots) == Run(Apply(st, e, slots), es, slots)
  {
    all := [e] + es;
    assert all[1..] == es;
  }

  /** A drain in which no caller is between gate and send when the dispatcher leaves is never
      held up by the queue: nothing can be sent any more. */
  lemma {:induction false} NoLateSendNoStranding(st: State, es: seq<Step>, slots: nat)
    requires st.draining && st.past == [] && Legal(st, es, slots)
    ensures Run(st, es, slots).past == [] && |Run(st, es, slots).queue| <= |st.queue|
    decreases |es|
  {
    hide Apply, Enabled;
    if es != [] {
      NothingSent(st, es[0], slots);
      NoLateSendNoStranding(Apply(st, es[0], slots), es[1..], slots);
    }
  }

  /** A request is in the queue and nobody will take it out. */
  predicate Stranded(st: State) { st.dispatcher.Exited? && st.queue != [] }

  /** Exactly when a request can still be stranded, in any state whatever: until the drain gate
      closes, and then while a caller is between gate and send, or if one is stranded already. */
  lemma StrandedExactly(st: State, slots: nat)
    ensures (exists es :: Legal(st, es, slots) && Stranded(Run(st, es, slots)))
       <==> !st.draining || st.past != [] || Stranded(st)
  {
    hide Apply, Run, Legal, Stranded;
    if st.past != [] || Stranded(st) {
      var es := Strands(st, slots);
    } else if !st.draining {
      var entered := Entered(st, slots);
      var es := Strands(entered, slots);
      es := RunOne(st, EnterGate(0), es, slots);
    } else {
      forall es | Legal(st, es, slots) ensures !Stranded(Run(st, es, slots)) {
        NeverStrands(st, es, slots);
      }
    }
  }

  lemma Entered(st: State, slots: nat) returns (next: State)
    requires !st.draining
    ensures next == Apply(st, EnterGate(0), slots) && next.past != []
  {
    next := Apply(st, EnterGate(0), slots);
  }

  /** What leads there: the workers are cancelled, the dispatcher gives up and flushes, and the
      caller sends after it has left. */
  function NextStranding(st: State): Step {
    match st.dispatcher
    case Serving => if st.cancelled then SeeCancel else Cancel
    case InHand(_) => if st.cancelled then GiveUp else Cancel
    case Flushing => if st.queue == [] then FlushDone else Flush
    case Exited => Send(0)
  }

  /** How far the dispatcher is from leaving. */
  function Distance(st: State): nat {
    match st.dispatcher
    case Exited => if st.queue == [] then 1 else 0
    case Flushing => 2 + |st.queue|
    case _ => 3 + |st.queue| + if st.cancelled then 0 else 1
  }

  lemma StepsCloser(st: State, slots: nat)
    requires st.past != [] && !Stranded(st)
    ensures
      var e := NextStranding(st);
      && Enabled(st, e, slots)
      && var next := Apply(st, e, slots);
         Distance(next) < Distance(st) && (next.past != [] || Stranded(next))
  {
    hide Without;
  }

  lemma {:induction false} Strands(st: State, slots: nat) returns (es: seq<Step>)
    requires st.past != [] || Stranded(st)
    ensures Legal(st, es, slots) && Stranded(Run(st, es, slots))
    decreases Distance(st)
  {
    if Stranded(st) {
      es := [];
    } else {
      hide Apply, Stranded, Distance, NextStranding;
      StepsCloser(st, slots);
      es := Strands(Apply(st, NextStranding(st), slots), slots);
      es := RunOne(st, NextStranding(st), es, slots);
    }
  }

  lemma {:induction false} NeverStrands(st: State, es: seq<Step>, slots: nat)
    requires st.draining && st.past == [] && !Stranded(st) && Legal(st, es, slots)
    ensures !Stranded(Run(st, es, slots))
    decreases |es|
  {
    hide Apply, Enabled, Stranded;
    if es != [] {
      NothingSent(st, es[0], slots);
      NeverStrands(Apply(st, es[0], slots), es[1..], slots);
    }
  }

  lemma NothingSent(st: State, e: Step, slots: nat)
    requires st.draining && st.past == [] && Enabled(st, e, slots)
    ensures
      var next := Apply(st, e, slots);
      next.draining && next.past == [] && |next.queue| <= |st.queue| && (Stranded(next) ==> Stranded(st))
  {}
}
