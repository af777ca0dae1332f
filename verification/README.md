# Verified model of the runner fleet's allocator and VM lifecycle

The orchestrator keeps a fleet of single-use VMs on Proxmox nodes for GitHub Actions. This
project models its resource allocator and its concurrent VM lifecycle in Dafny and proves what
the code's comments promise: no reserved memory is spent twice, no burst is dulled, no running
job is interrupted by reclaiming, one teardown is queued each time a row goes into it, no orphan
is reaped early.
Where a promise fails, the section on findings says how.

`dafny verify dfyconfig.toml` checks everything. Nothing here is executed.

| file | models |
|---|---|
| Ledger.dfy, Accountant.dfy, Fetch.dfy | the capacity accountant: its arithmetic, its object with the reservation table, and reading the cluster |
| NoDoubleSpend.dfy, HandOff.dfy | whole runs of the ledger while the cluster's snapshots move on |
| Retirement.dfy, Recharge.dfy, HeldReads.dfy, Reuse.dfy | where the ledger can go wrong: what retiring a reservation gives up, victims with a claim of their own, operations that work on an older snapshot, and VMIDs used again |
| Sizing.dfy, FleetRows.dfy | how many VMs a reconcile pass clones, runs of passes, and the store rows they count |
| Eviction.dfy, Parking.dfy, ParkedClaims.dfy | planning an idle eviction, the reservations it parks for later clones, and their deadlines |
| Placement.dfy | capacity over affinity over a base node strategy, and the eligibility probe |
| Store.dfy, Lifecycle.dfy, Manager.dfy | the row store, the interleaved transactions on it, and the manager's methods |
| Drain.dfy | the destroy queue, dispatcher, wait group and shutdown drain |
| Orphans.dfy | the grace clocks of the GitHub reconciler |
| Vmids.dfy, Tags.dfy | VMID ranges and allocation; the tag encoding and ownership |
| Sums.dfy, Sequences.dfy, Sorting.dfy, Common.dfy | sums over finite sets, since Go's map order is unspecified; counting in and cutting down sequences; stable sorting; shared small definitions |

Objects that the source updates in place are classes whose methods are proved against the
functions the theorems are about; protocols between goroutines are step machines whose steps
are single critical sections or store transactions. A run is a sequence of steps, and a result
about runs holds for every sequence the step guards allow. The cluster snapshot, the clock, the
outcome of remote calls and a caller's earlier reads are arguments. Times are natural numbers,
the reserve fraction and the overcommit ratio are reals, and integers are unbounded.

## Findings

Where a property one would expect is false of the code, the code is kept, an input is shown, and
the exact condition is proved.

- Gated vCPUs can be spent twice. A sweep retires a reservation once its clone is seen at full
  memory, without looking at vCPUs (internal/nodecap/nodecap.go:584). A clone whose template has
  enough memory but fewer cores than the profile is then no longer accounted for in full, another
  clone is admitted on the difference, and the first grows into it when its cores are set:
  `Retirement.RetiringOnMemoryOverfills`. A sweep lowers the vCPU ledger exactly as
  `Ledger.SweepLowersVCPU` says, and the limit holds if no clone retires with vCPUs outstanding:
  `Retirement.SweepBacksExactly`, `Retirement.FaithfulNeverOverfills`. For memory, a sweep on the
  current snapshot does the same only by expiry: `Retirement.MemoryDroppedByExpiryOnly`.
- An operation reads the cluster before it takes the lock (internal/nodecap/nodecap.go:346, 377).
  If another one has meanwhile retired a claim on a newer snapshot, the older one shows neither the
  claim nor its clone, and memory is spent twice: `HeldReads.LateReaderOverfills`. An older
  snapshot is safe to admit on if and only if the ledger shows no less on it than what is spent
  now: `HeldReads.SafeReadsExactly`. That is so whenever each guest of the node is as large on it as
  now or has a live claim that covers it, and then the bound holds over whole runs:
  `HeldReads.CoveredSpends`, `HeldReads.HeldNeverDoubleSpent`.
- A claim is charged a second time, for a VM that is gone, when an eviction destroys a clone whose
  own reservation is still live. From an empty ledger on a node filled by one claim, evicting its
  partly seen clone leaves the ledger above the limit until the claim is released or expires:
  `Recharging.DisplacedClaimIsChargedTwice`. The total rises exactly when a promised guest shows
  less of its own live claim than before (`NoDoubleSpend.RechargedExactly`), and the ledger exactly
  when, besides, the claim it was destroyed for is live (`Recharging.VictimRaisesLedgerExactly`).
  Between two reads of the cluster that cannot happen: `NoDoubleSpend.OneSnapshotNeverDoubleSpent`.
- The comment on the parking time of evicted claims (internal/pool/capacity.go:27-28) relies on a
  longer reservation lifetime. That lifetime is the clone in-flight grace
  (internal/app/app.go:570), of which configuration asks only that it is positive
  (internal/config/config.go:1642-1644). A parked claim is backed for as long as it can be picked
  if and only if its reservation expires last: `ParkedClaims.BackedWhileParked`.
- A reconcile pass does not count dispatched warm clones that have no row yet, so passes in quick
  succession overshoot the warm target: `Sizing.WarmOvershootsExactly`. They can go on until the
  clone slots are full, and no further: `Sizing.UnseenWarmClonesPileUp`,
  `Sizing.FleetStaysWithinCaps`. The comment on `pendingClones` promises the next pass already
  sees them; that is so for the hot side only.
- An eviction planned on a node above its vCPU ceiling may not make room, because the reported
  available vCPUs are clamped at 0: `Eviction.PlanPaysOff`, `Eviction.OverCeilingPlanFails`.
- The pool's quick fit test differs from the accountant's rule on one family of shapes:
  `Ledger.QuickTestAgrees`. Configuration refuses such shapes when the vCPU gate is set
  (internal/config/config.go:2345-2346), so they do not reach the test.
- A worker's unconditional write can take a row back out of its teardown:
  `Lifecycle.DoomedLeavesOnlyByRevival`, `Lifecycle.CloneWorkerRevives`. Workers also queue a second
  teardown for rows already in it, as `Lifecycle.OneTeardownPerRow` counts; and a full queue drops
  requests, as `Drain.WaitGroupCountsWork` counts.
- After a timed-out drain, a destroy request sent once the dispatcher has left stays queued and
  keeps the wait group above zero: `Drain.LateSendIsStranded`, `Drain.LateSendHappens`. Once the
  drain gate is closed it is possible exactly while a caller is between gate and send:
  `Drain.StrandedExactly`.
- The Proxmox orphan sweep keeps the clock of a VM that left the listing, the runner sweep does
  not: `Orphans.AbsenceResetsOnlyRunners`.
- Configuration accepts profile names ending in a hyphen, which do not survive the tags:
  `Tags.ProfileSurvivesRestart`.

## Model

| member | source | states |
|---|---|---|
| NoDoubleSpend.NeverDoubleSpent | internal/nodecap/nodecap.go:376-490 | over every run of reserving (with victims), binding, releasing, sweeping with expiry, and guests appearing, changing size and vanishing: a node's guests not promised for destruction plus the unobserved parts of all its reservations stay within the larger of the limit and the start, plus what turned up without a live claim and what was charged a second time; without that last term if claims whose own clone is promised are not counted; for memory and for gated vCPUs |
| NoDoubleSpend.OneSnapshotNeverDoubleSpent | internal/nodecap/nodecap.go:376-490 | while the snapshot stands, however much is reserved, bound, released and swept: guests not promised plus the unobserved parts of all reservations stay within the larger of limit and start, with no extra term |
| NoDoubleSpend.PromisedMovesFull | internal/nodecap/nodecap.go:443-459 | when a guest promised for destruction changes or vanishes, the full total moves by exactly what its own live claim on the node shows less or more, and not at all without one |
| NoDoubleSpend.RechargedExactly | internal/nodecap/nodecap.go:443-459 | the full total then rises iff that guest has a live claim on the node and shows less of it than before |
| NoDoubleSpend.CountsDiffer | internal/nodecap/nodecap.go:443-464 | the two totals differ iff a claim on the node waits for a clone that is itself promised for destruction |
| NoDoubleSpend.UnreservedExactly | internal/nodecap/nodecap.go:443-459 | what an arrival brings unreserved is exactly what either total rises by |
| Recharging.DisplacedClaimIsChargedTwice | internal/nodecap/nodecap.go:443-464 | a legal run from an empty ledger, with every arrival as granted, after which ledger and full total are the first claim plus its seen part |
| Recharging.PromisedMovesLedger | internal/nodecap/nodecap.go:443-464 | the ledger moves with the full total while the claim the guest was promised to is live, and by the guest's size on top otherwise |
| Recharging.VictimRaisesLedgerExactly | internal/nodecap/nodecap.go:443-464 | destroying a victim raises the ledger of a node iff the claim it was destroyed for is live and so is its own there, with something of it observed |
| NoDoubleSpend.FreshLedgerNeverOverfills | internal/nodecap/nodecap.go:179-207 | from an empty ledger on a node whose guests fit, both totals and the guests alone exceed the limit by no more than those terms |
| NoDoubleSpend.StepWithinBound | internal/nodecap/nodecap.go:376-398 | the same for one step of any kind, in either total |
| NoDoubleSpend.StaysConsistent | internal/nodecap/nodecap.go:261-294 | every step keeps freeing lists disjoint and promised, bindings unique and on the reserved node |
| NoDoubleSpend.SpentWithinRaw | internal/nodecap/nodecap.go:433-466 | the ledger never shows less than either total, however the credits of several reservations add up |
| NoDoubleSpend.CreditsWithinPicked | internal/nodecap/nodecap.go:460-464 | the credits of all freeing lists together never exceed what the promised guests hold |
| NoDoubleSpend.ReserveWithinBound | internal/nodecap/nodecap.go:376-430 | fit-then-reserve keeps either total within the larger of the limit and what it was |
| NoDoubleSpend.ReservedCloneBringsNothing | internal/nodecap/nodecap.go:191-198 | a clone seen at any size up to its reservation brings nothing unreserved |
| Retirement.RetiringOnMemoryOverfills | internal/nodecap/nodecap.go:584-588 | a legal run, with every arrival within the shape reserved for it, that ends above the vCPU limit by what a clone had outstanding when it retired |
| Retirement.SweepBacksExactly | internal/nodecap/nodecap.go:574-602 | a sweep leaves every clone reserved or as large as it will get iff each reservation it drops is spent in that resource |
| Retirement.MemoryDroppedByExpiryOnly | internal/nodecap/nodecap.go:579-588 | in memory a sweep drops an unspent claim only by expiry |
| Retirement.StaysBacked | internal/nodecap/nodecap.go:187-207 | every event that drops no unspent claim keeps every clone so, while clones grow within their grants |
| Retirement.FaithfulNeverOverfills | internal/nodecap/nodecap.go:187-207 | from an empty ledger, if clones stay within their shapes, those without a claim do not shrink, no other guest grows and no unspent claim of a visible clone is dropped, the limit holds, outstanding claims included; for memory and gated vCPUs |
| HeldReads.LateReaderOverfills | internal/nodecap/nodecap.go:376-398 | a legal run in which nothing turns up without a claim, and a claim admitted on an older read leaves a node with two claims that each may fill it |
| HeldReads.SafeReadsExactly | internal/nodecap/nodecap.go:376-430 | no memory claim admitted on an older read takes the node past its limit iff the ledger shows no less, on that read and after its sweep, than is spent now |
| HeldReads.CoveredSpends | internal/nodecap/nodecap.go:433-466 | which is so if every guest of the node is as large on that read as now, or a live claim covers it |
| HeldReads.HeldNeverDoubleSpent | internal/nodecap/nodecap.go:376-490 | over every run in which operations hold reads of any age: if no claim is admitted on a read that misses more, the bound on both totals holds |
| HeldReads.CurrentReadIsSound | internal/nodecap/nodecap.go:376-398 | a current read misses nothing, so the runs above are the special case |
| VmidReuse.ReuseIsLegal | internal/nodecap/nodecap.go:589-600 | runs in which a VMID is used again once its VM has left the cluster and a sweep ran since, with nothing asked of victim lists, are runs of the ledger above: sweeps have cut the VMID out of every list |
| VmidReuse.ReuseNeverDoubleSpends | internal/nodecap/nodecap.go:589-600 | so the bound on both totals holds over reused VMIDs |
| VmidReuse.NewGuestCountsExactly | internal/nodecap/nodecap.go:460-464 | a new guest without a claim adds its size to the ledger iff no list names its VMID |
| VmidReuse.ReusedIsCounted | internal/nodecap/nodecap.go:589-600 | a VM on a reused VMID is counted in full |
| HandOff.HandOffConserves | internal/nodecap/nodecap.go:187-198 | as a clone goes from absent through any sizes up to its shape, every node's ledger stays constant |
| HandOff.RetiredIsNeverChargedAgain | internal/nodecap/nodecap.go:200-207 | once seen in full it retires without moving the memory ledger, and its later disappearance takes its whole size off |
| HandOff.RetiringDropsVCPUs | internal/nodecap/nodecap.go:584-588 | the same retirement takes exactly the vCPUs not seen yet off the vCPU ledger, and the VM's disappearance the rest |
| HandOff.UnretiredIsChargedAgain | internal/nodecap/nodecap.go:203-207 | without deletion the reservation would be charged in full again |
| HandOff.BoundChange | internal/nodecap/nodecap.go:443-459 | a change of a bound clone moves the ledger by the change of the larger of its size and its claim |
| Ledger.SweepEffect | internal/nodecap/nodecap.go:574-602 | a sweep without expiry moves the ledger up by the credits and down by the outstanding parts of what it retires, and by nothing else |
| Ledger.SweepNeverLowersMemory | internal/nodecap/nodecap.go:574-602 | it never lowers committed memory, and leaves it unchanged iff no retired reservation on the node holds a credit |
| Ledger.SweepLowersVCPU | internal/nodecap/nodecap.go:574-602 | it lowers committed vCPUs iff what it retires has more vCPUs outstanding than credits; without credits, iff some clone retires with vCPUs outstanding |
| Ledger.SweepTwice | internal/nodecap/nodecap.go:574-602 | a second sweep with the same snapshot and time is a no-op |
| Ledger.StillSeen | internal/nodecap/nodecap.go:592-600 | keeps exactly the listed VMIDs the snapshot still shows |
| Ledger.SweptExactly | internal/nodecap/nodecap.go:574-602 | a claim goes iff its deadline passed or its VM is seen at full memory; of one that stays the victim list is cut, in order, to the VMIDs in the snapshot, and no other field changes |
| Ledger.StateExactly | internal/nodecap/nodecap.go:433-490 | each reported field of a node's state, in totals, reserve, ledger and ceiling |
| Ledger.QuickTestAgrees | internal/pool/capacity.go:517-522 | the pool's fit test agrees with the accountant's iff not (gated, no vCPUs, memory fits, node over its ceiling) |
| Accounting.Accountant.ReserveFreeing | internal/nodecap/nodecap.go:376-398 | sweeps, then grants a new claim exactly when the fit rule holds on the swept table, else leaves only the sweep; no snapshot, no change |
| Accounting.Accountant.Reserve | internal/nodecap/nodecap.go:363-365 | the same without victims |
| Accounting.Accountant.Fits | internal/nodecap/nodecap.go:345-358 | answers the fit rule for every candidate |
| Accounting.Accountant.SnapshotStates | internal/nodecap/nodecap.go:325-338 | reports the state of every node after a sweep |
| Accounting.Accountant.StateLocked | internal/nodecap/nodecap.go:433-490 | the loop over reservations in any order computes the ledger's clamped totals |
| Accounting.Accountant.FitsLocked | internal/nodecap/nodecap.go:404-430 | decides the fit rule, unknown nodes included |
| Accounting.Accountant.SweepLocked | internal/nodecap/nodecap.go:574-602 | retires, expires and prunes exactly as the sweep function |
| Accounting.Accountant.Bind | internal/nodecap/nodecap.go:280-284 | sets the VMID of a live claim only |
| Accounting.Accountant.Release | internal/nodecap/nodecap.go:286-294 | drops the claim, idempotently |
| AccountantRuns.Perform | internal/nodecap/nodecap.go:208-235 | each operation on the object, with whatever snapshot it has read, is the corresponding step of those runs |
| ClusterRead.Fetch | internal/nodecap/nodecap.go:648-706 | one pass over the rows in any order yields the snapshot of the counted nodes and guests with their per-node totals |
| ClusterRead.CountedExactly | internal/nodecap/nodecap.go:519-555 | a guest counts iff its node is declared or none is, it is no template, and it is powered on or ours by owner tag or VMID range |
| ClusterRead.NodesExactly | internal/nodecap/nodecap.go:648-706 | a node is known iff a row reports it, declared and online, with the memory and cores of its last such row |
| Ledger.HeadroomSettings | internal/nodecap/nodecap.go:557-565 | the reserve is the larger of the absolute and the fractional setting, the memory limit what it leaves of the total, the vCPU ceiling the whole part of cores times ratio, and it binds iff a ratio is set |
| Sizing.NeedsInClosedForm | internal/pool/manager.go:1760-1813 | needs in closed form: returning VMs cover missing hot slots first and warm ones with the rest; demand and cap bear on the hot side only |
| Sizing.CreditIsConserved | internal/pool/manager.go:1594-1608 | the busy credit lowers the total need by at least 0 and at most the number of returning VMs |
| Sizing.ReturningVMCoversOneSlot | internal/pool/manager.go:1764-1787 | without demand and below the cap the total need is exactly the missing slots minus the returning VMs |
| Sizing.BurstsAreNotDulled | internal/pool/manager.go:1788-1805 | the hot need covers the burst deficit up to the room, and never takes the profile past its cap |
| Sizing.RecordedNeedsAreEnough | internal/pool/manager.go:1760-1831 | with the needs recorded as rows, the same inputs need nothing |
| Sizing.ShrinkAndCloneDoNotFight | internal/pool/manager.go:1885-1963 | rows above the shrink target mean no need, before and after shrinking |
| Sizing.FleetStaysWithinCaps | internal/pool/manager.go:1583-1626 | over every run of passes, dispatches waiting for a slot, clones landing, jobs and teardowns: the hot side stays under its cap and the whole fleet under cap plus warm target plus clone slots, or where they started |
| Sizing.SeenFleetStaysWithinCaps | internal/pool/manager.go:1583-1626 | without the slots if no pass overlooks warm clones |
| Sizing.WarmOvershootsExactly | internal/pool/manager.go:1807-1811 | what a pass plans keeps the warm side within its target, or where it was, iff rows, credit and promotions meet the target or its row-less warm clones are covered by credit and promotions |
| Sizing.UnseenWarmClonesPileUp | internal/pool/manager.go:2105-2124 | a short warm pool without credit can get a clone too many for every free clone slot |
| Sizing.PassMeetsNeeds | internal/pool/manager.go:1611-1626 | a pass whose promotions succeed plans exactly the needs, from warm rows first |
| Sizing.EventsConserve | internal/pool/manager.go:1583-1626 | between passes no VM is made up or lost on either side |
| FleetRows.CountsFollow | internal/pool/manager.go:691-706 | the counts sizing works on are those of the rows: each lifecycle transaction moves them as its event does |
| FleetRows.PromotionsAndDrains | internal/pool/manager.go:691-706 | a promotion moves one row from Warm to Booting, and drains only lower the counts |
| FleetRows.LandingsFollow | internal/pool/manager.go:691-706 | a landed clone adds to Warm or to Booting |
| Eviction.PlanEviction | internal/pool/capacity.go:557-594 | victims are the shortest prefix of the order closing both gaps; none iff the shape fits or all candidates cannot close them |
| Eviction.OrderedSpec | internal/pool/capacity.go:573-580 | a permutation in which no other candidate precedes a preferred one, of two alike the older comes first, and those of one age stay as listed |
| Eviction.GapsAreLeast | internal/pool/capacity.go:562-567 | a gap is the least amount that, added to what is available, reaches the shape |
| Eviction.ClosesMeansRoom | internal/pool/capacity.go:582-593 | victims close the gaps iff they and what is available hold the shape |
| Eviction.GivesUpOnlyIfHopeless | internal/pool/capacity.go:582-593 | whether the gaps can be closed does not depend on the order |
| Eviction.PlanPaysOff | internal/pool/capacity.go:557-594 | with footprints as declared, reserving with the victims succeeds iff the node's vCPU excess is covered too; always within the ceiling |
| Eviction.OverCeilingPlanFails | internal/nodecap/nodecap.go:483-488 | above the ceiling a plan can close its gaps and still be refused |
| Parking.EachClaimHasOneOwner | internal/pool/capacity.go:109-145 | in every interleaving each parked claim is in exactly one list, hand, clone or released; none is dropped or consumed twice |
| Parking.StepAccounted | internal/pool/capacity.go:303-363 | every critical section conserves each claim |
| Parking.PickParked | internal/pool/capacity.go:119-137 | takes the first eligible claim, releases definite refusals before it, keeps the rest in order |
| Parking.PickedExactly | internal/pool/capacity.go:119-137 | by position: the first eligible is taken, refusals before it released, unknown ones before it and all behind it kept in order |
| Parking.DrainedExactly | internal/pool/capacity.go:313-327 | by position: the claims whose deadline has not passed are handed out in order, the others released |
| Parking.ClaimsStayWithProfile | internal/pool/capacity.go:303-363 | in every interleaving a claim is only in the list of the profile it was parked for, or with a worker for it |
| Parking.ProfileState.DrainEvicted | internal/pool/capacity.go:313-327 | hands out the unexpired claims, releases the expired ones, empties the list |
| Parking.ProfileState.ParkAll | internal/pool/capacity.go:331-338 | appends what was not used |
| Parking.ProfileState.ParkEvicted | internal/pool/capacity.go:341-349 | appends one claim with its expiry |
| Parking.ProfileState.ReleaseParked | internal/pool/capacity.go:354-363 | releases all of a profile's claims |
| Placement.CapacityWrapper.Select | internal/nodeselector/nodeselector.go:533-580 | a picked node is declared, not avoided, has room, hosts no anti-affine VM and obeys a hard pin, is preferred if any preferred one qualifies, and with least loaded has a lowest score among those; for single and round robin with validated rules a node is picked iff one qualifies |
| Placement.AffinityWrapper.Select | internal/nodeselector/nodeselector.go:394-452 | the same for the affinity layer, with the exact condition for an unsatisfiable pin; least loaded takes a lowest score among the nodes the rule leaves |
| Placement.BaseSelector.Select | internal/nodeselector/nodeselector.go:86-124 | picks only its own, unavoided nodes; round robin takes the first free one after its cursor and moves past it; least loaded a node with no higher score than any polled, unavoided member, and none iff the scores are missing or all of those are avoided |
| Placement.BaseSelector.TurnsInRotation | internal/nodeselector/nodeselector.go:113-124 | each turn leaves the cursor right behind the node picked, and with nothing avoided picks the node at the cursor |
| Placement.BaseSelector.Best | internal/nodeselector/nodeselector.go:225-247 | least loaded picks a lowest score among the free nodes |
| Placement.MatchingRule | internal/nodeselector/nodeselector.go:457-465 | the first rule in declaration order that matches |
| Placement.MatchesExactly | internal/nodeselector/nodeselector.go:457-465 | a rule matches its own profile, or every profile if it names none |
| Placement.AllowedExactly | internal/nodeselector/nodeselector.go:394-452 | what a node must meet, in the fields of hint, rule and fitter |
| Placement.EligibleFrom | internal/nodeselector/nodeselector.go:380-392 | candidates minus excluded minus avoided |
| Placement.NodeEligible | internal/pool/capacity.go:176-214 | eligible iff declared and permitted, refused iff a hard pin excludes it, otherwise unknown (single and round robin); "eligible" is never wrong (least loaded) |
| VMStore.Store.Insert | internal/store/store.go:338-370 | creates the row iff the VMID is positive and free, with unset times now and an unset profile the default; nothing else changes |
| VMStore.Store.DeleteAndReturn | internal/store/store.go:399-415 | removes the row and returns it as it was |
| VMStore.Store.Update | internal/store/store.go:421-430 | writes unless the row is missing or its identity would change |
| VMStore.Store.UpdateState | internal/store/store.go:440-470 | compare-and-set on one state |
| VMStore.Store.UpdateStateIn | internal/store/store.go:597-631 | applied exactly when the row is in one of the expected states and keeps its identity |
| VMStore.Store.CountBusy | internal/store/store.go:486-510 | the number of Assigned and Running rows, of a profile or of all |
| VMStore.RowSets | internal/store/store.go:486-592 | busy rows are the Assigned and Running ones, hot rows the Hot ones, of the profile or of all |
| VMStore.Store.AcquireHotInProfile | internal/store/store.go:530-592 | refuses iff a cap is reached; else claims an oldest Hot row of the profile and changes nothing else |
| Lifecycle.BusyStaysCapped | internal/store/store.go:512-592 | in every interleaving busy rows stay within the larger of the cap and what adoption found, plus the Hot-to-Running promotions; with cap N if every acquire is clamped to N |
| Lifecycle.OneTeardownPerRow | internal/pool/manager.go:896-975 | in every interleaving the teardowns queued for a row are exactly one if it is in teardown, one per revival from it, and the repeats of workers that write without looking |
| Lifecycle.CountersExactly | internal/pool/manager.go:896-975 | a teardown is queued for a row exactly when a transaction leaves it Draining or Destroying, a repeat if it was so before |
| Lifecycle.DoomedIsFinal | internal/pool/manager.go:2920-2957 | a row being torn down stays so, late rollbacks included, until deleted or revived |
| Lifecycle.DoomedLeavesOnlyByRevival | internal/pool/manager.go:2251-2260 | it leaves that state iff an unconditional worker write takes it out |
| Lifecycle.CloneWorkerRevives | internal/pool/manager.go:2251-2260 | which happens to a row force-destroyed during its clone |
| Lifecycle.RunningIsNotReclaimed | internal/pool/manager.go:1965-1995 | whatever stale snapshots callers use, a Running row stays Running until its completion, a forced destroy, a worker's unconditional write or its deletion; shrinking, age recycling, eviction and preemption leave it alone |
| PoolManager.Manager.MarkRunning | internal/pool/manager.go:857-869 | Assigned to Running, else nothing |
| PoolManager.Manager.PromoteToRunning | internal/pool/manager.go:876-894 | Assigned or Hot to Running, else nothing |
| PoolManager.Manager.ForceDestroy | internal/pool/manager.go:907-934 | a row neither Draining nor Destroying ends Draining and is queued; otherwise nothing changes |
| PoolManager.Manager.Preempt | internal/pool/manager.go:947-975 | acts iff the row was and still is Assigned |
| PoolManager.Manager.MarkCompleted | internal/pool/manager.go:1039-1133 | a row seen and still busy ends Recycling and is rolled back iff VMs are recycled, it carries the snapshot and is under the age limit, if any; otherwise it ends Draining and is queued |
| PoolManager.Manager.FinishRollback | internal/pool/manager.go:2907-2957 | a row still Recycling ends Warm in the warm budget, counted once more, or Draining and queued; any other is left alone |
| PoolManager.Manager.Shrink | internal/pool/manager.go:1885-1963 | drains at most the excess, only listed rows, each once, from the expected state and oldest first: none of the oldest ones it went through is left in that state, none behind them is touched; stops short only at the end of the listing |
| PoolManager.Manager.ShrinkHotPool | internal/pool/manager.go:1885-1923 | drains Hot rows only down to the larger of pool size and demand not served by busy rows, and stays above only if no listed row is left Hot |
| PoolManager.Manager.ShrinkWarmPool | internal/pool/manager.go:1932-1963 | the same for Warm rows and the warm size |
| PoolManager.Manager.RecycleOldVMs | internal/pool/manager.go:1968-1995 | drains exactly the too-old listed rows still in the idle state they were listed in, each once |
| PoolManager.Manager.PromoteN | internal/pool/manager.go:2033-2082 | boots only rows among the n oldest listed that are still Warm, at most the free slots; with slots to spare, all of them |
| PoolManager.ByAgeSpec | internal/pool/manager.go:2045 | the order both work through: the listed rows, never an older one behind a younger |
| PoolManager.Manager.Boot | internal/pool/manager.go:2063-2070 | Warm to Booting in the hot budget, else nothing |
| PoolManager.Manager.Acquire | internal/pool/manager.go:730-758 | claims iff a Hot row exists and the busy count is under both caps |
| PoolManager.Manager.PreAcquireVMs | internal/scaler/scaler.go:429-444 | the number claimed is exactly the least of need, Hot rows and what is left under the caps |
| PoolManager.Manager.HandleDesiredRunnerCount | internal/scaler/scaler.go:385-420 | busy rows end within the larger of before and the count, by the exact number; a repeated message claims nothing more |
| PoolManager.StartEviction | internal/pool/capacity.go:606-664 | drains the longest prefix of victims still idle, reserves and parks for exactly those, queues their teardowns |
| PoolManager.CommittedVictimsDistinct | internal/pool/capacity.go:600-622 | the committed victims are distinct and all Draining |
| PoolManager.CommittedExactly | internal/pool/capacity.go:606-622 | each committed victim was Warm if preferred and Hot if not, all are Draining, and no other row has changed |
| ParkedClaims.BackedWhileParked | internal/pool/capacity.go:23-29 | a granted and parked claim picked before it expires still has its reservation in the ledger, whatever happened to others, iff grant time plus reservation lifetime is no earlier than parking time plus 90 seconds |
| Drain.WaitGroupCountsWork | internal/pool/manager.go:2602-2690 | in every interleaving the wait group equals the outstanding work and every accepted request is pending, finished, dropped or abandoned; once draining it never rises |
| Drain.RequestsAreFollowed | internal/pool/manager.go:2602-2690 | in every interleaving each VMID's accepted requests are exactly those past the gate, queued, in hand, with a worker, finished, dropped and abandoned, and requests leave the queue in the order they were sent |
| Drain.DrainClosesGate | internal/pool/manager.go:2611-2617 | once a drain begins no request is accepted any more and the wait group only falls |
| Drain.DroppedOnlyWhenFull | internal/pool/manager.go:2618-2634 | a request is dropped iff sixteen are queued, else it joins at the end |
| Drain.NothingAbandonedEarly | internal/pool/manager.go:2647-2690 | destroys and rollbacks are given up, and the dispatcher leaves, only after the workers were cancelled |
| Drain.CleanDrainIsFinal | internal/pool/manager.go:3010-3043 | when the drain sees zero, nothing is queued, in hand or running, then and ever after, and each VMID's requests were finished, dropped or abandoned |
| Drain.LateSendIsStranded | internal/pool/manager.go:2674-2690 | a request queued after the dispatcher left keeps the count above zero |
| Drain.LateSendHappens | internal/pool/manager.go:2611-2620 | and such a run exists |
| Drain.NoLateSendNoStranding | internal/pool/manager.go:2603-2620 | it takes a caller between gate and send: without one the queue only shrinks |
| Drain.StrandedExactly | internal/pool/manager.go:2603-2690 | from any state whatever, some continuation leaves a request queued with the dispatcher gone iff the drain gate is open, a caller is between gate and send, or it is so already |
| Orphans.RemovedExactlyAfterGrace | internal/gh/reconciler.go:615-674 | for every tick history, removal is attempted iff the entry is an orphan now and was one at least the grace period earlier with no match, authoritative absence or removal in between |
| Orphans.ClockHasOrigin | internal/gh/reconciler.go:627-632 | a running clock shows the time of such a sighting |
| Orphans.ClockKeepsRunning | internal/gh/reconciler.go:648-674 | empty, cut-off and failed listings never reset the clock |
| Orphans.AbsenceResetsOnlyRunners | internal/gh/reconciler.go:736-742 | absence from the listing resets the clock of a runner but not of a VM |
| Orphans.Reconciler.CleanupOrphanRunners | internal/gh/reconciler.go:615-646 | one tick: attempts exactly the listed runners without a row whose clock has run the grace period; keeps the clock of every other entry without a row that is listed or whose absence is not proved |
| Orphans.Reconciler.PruneOrphanTracking | internal/gh/reconciler.go:661-674 | drops matched entries, and missing ones only on a non-empty complete listing |
| Orphans.Reconciler.SweepProxmoxOrphans | internal/gh/reconciler.go:725-767 | the same for VMs, whose absence is never proved; a failed listing changes nothing |
| Vmids.ValidateScalesetVMIDRanges | internal/config/config.go:1971-2008 | accepts iff several scale sets all declare ranges, ranges are well formed, and no VMID is in two |
| Vmids.AllocateVMID | internal/pool/manager.go:2978-2999 | the lowest id neither used nor cooling; exhaustion iff there is none |
| Vmids.ValidatedRangesNeverCollide | internal/pool/manager.go:2410-2446 | under a validated configuration, no interleaving of managers gives two live minted rows one VMID |
| Vmids.MintedIdsNeverCollide | internal/store/store.go:344-350 | and an insert of a minted id never finds it taken |
| Vmids.PickedIsInserted | internal/pool/manager.go:2403-2446 | from pick to insert no step of any manager changes the pick, and the insert makes exactly that row live |
| Vmids.WellFormedExactly | internal/config/config.go:1984-1992 | a range is well formed iff it has at least two VMIDs, all positive |
| Tags.RoundTrip | internal/tags/tags.go:144-172 | decoding what was encoded gives the trimmed, sorted, duplicate-free tags iff no tag has a semicolon |
| Tags.EncodeTags | internal/tags/tags.go:144-157 | collecting in any order and sorting yields the canonical form, joined |
| Tags.DecodeTags | internal/tags/tags.go:160-172 | the trimmed non-empty pieces |
| Tags.SplitExactly | internal/tags/tags.go:164 | the pieces have no semicolon and join to the whole |
| Tags.KeptExactly | internal/tags/tags.go:166-170 | a tag is kept iff it is what trimming leaves of a piece, and not empty |
| Tags.TrimSpaceExactly | internal/tags/tags.go:147 | trimming cuts out the middle and cuts off white space only |
| Tags.LessExactly | internal/tags/tags.go:155 | tags sort by the first character that differs, a prefix first |
| Tags.SanitizeName | internal/tags/tags.go:186-198 | computes the sanitized name |
| Tags.SanitizeExactly | internal/tags/tags.go:186-198 | the name folded letter by letter, without the hyphens at both ends |
| Tags.FoldExactly | internal/tags/tags.go:190-196 | lower-case letters and digits stay, capitals are lowered, all else becomes a hyphen |
| Tags.OwnedExactly | internal/tags/tags.go:176-183 | a VM is owned iff the name is valid and both the marker and the owner's tag are among its tags |
| Tags.FirstWithAt | internal/tags/tags.go:128-140 | the first profile tag decides, unless nothing follows the prefix |
| Tags.NamesExactly | internal/tags/tags.go:54 | both name patterns, character by character |
| Tags.ProfileReadBack | internal/tags/tags.go:128-140 | a new VM's tags give back its sanitized profile |
| Tags.ProfileSurvivesRestart | internal/config/config.go:2197-2200 | a valid profile name is read back unchanged iff it does not end in a hyphen |
| Tags.ValidateScalesetNames | internal/config/config.go:1893-1916 | accepts iff all names are valid and have distinct owner tags |
| Tags.OwnedByExactlyOne | internal/tags/tags.go:176-183 | under a validated configuration each tagged VM is owned by exactly one scale set |

## Left out

- Proxmox, GitHub, the guest agent, authentication, the admin server, metrics and tracing: remote input and output; their outcomes are arguments.
- go-memdb, ttlcache, singleflight and semaphore internals: libraries; a transaction is atomic, a semaphore a bound.
- Raft leader election, the schedule runner, router, quotas, priority, canary and static IP pool: consensus and cron live in libraries, the rest is short counting code.
- Fixed-width overflow and floating-point rounding: integers are unbounded and fractions real.
- The snapshot cache and its stale fallback: the accountant is told which snapshot it works on, current or older.
- Reads that race inside one reconcile pass: the sizing laws are for one consistent input. A clone that ends frees its slot and leaves the count of row-less clones in one step.
- Adoption's classification table: runs start from arbitrary adopted rows.
- Profile-scoped acquisition in runs: `VMStore.Store.AcquireHotInProfile` covers it, the interleaving theorem is for the fleet-wide cap the scaler uses.
- Least loaded over an undeclared node list: the model's strategy always has its members.
- Sizing.FleetStaysWithinCaps: rows that a worker's write revived from their teardown are not among its events.
- PoolManager.Manager.Shrink: rows of the same age are taken as listed; the source's sort leaves their order open.
- PoolManager.Manager.PromoteN: does not state which Warm rows are skipped when slots run out, since the semaphore is shared with other profiles.
- Retirement.FaithfulNeverOverfills: one way only; whether a run that drops an unspent vCPU claim overfills depends on what is admitted next. The exact condition is stated for what a sweep leaves behind.
- NoDoubleSpend.NeverDoubleSpent: callers list each victim once and bind a VMID no other live reservation has; guests do not migrate between nodes; operations use the current snapshot, older ones are in HeldReads.
- HeldReads.HeldNeverDoubleSpent: on an older read each VM is on the node where the ledger and the newer read have it.
- HeldReads.SafeReadsExactly: for claims of memory without victims, on a node within its limits.
- Placement.NodeEligible: exact for single and round robin only, because least loaded depends on which nodes were polled.
- Orphans.RemovedExactlyAfterGrace: the clock does not run backwards.
- Tags.SanitizeName: letters outside ASCII lower to ASCII only for the dotted capital I and the Kelvin sign, the only two Unicode has.
