/** The grace clocks of internal/gh/reconciler.go: how long a GitHub runner or a Proxmox VM
    must have been without a live store row before it is removed. */
module Orphans {
  import opened Common

  /** One tick's view. `known` have a store row that is not being torn down, `listed` are
      reported by the remote side, `authoritative` says that absence from the listing proves
      absence, and removals of `failing` fail. */
  datatype Tick<K> = Tick(now: nat, known: set<K>, listed: set<K>, authoritative: bool, failing: set<K>)

  type Clocks<K> = map<K, nat>

  /** Tracking ends when a row appears, or when an authoritative listing lacks the entry. */
  predicate Forgets<K>(t: Tick<K>, k: K) { k in t.known || (t.authoritative && k !in t.listed) }

  predicate Orphaned<K>(t: Tick<K>, k: K) { k in t.listed && k !in t.known }

  function Pruned<K>(m: Clocks<K>, t: Tick<K>): Clocks<K> { map k | k in m && !Forgets(t, k) :: m[k] }

  /** Whether removal is attempted. */
  predicate Due<K>(m: Clocks<K>, t: Tick<K>, grace: nat, k: K) {
    Orphaned(t, k) && k in m && t.now - m[k] >= grace
  }

  predicate Gone<K>(m: Clocks<K>, t: Tick<K>, grace: nat, k: K) { Due(m, t, grace, k) && k !in t.failing }

  function NextClock<K>(m: Clocks<K>, t: Tick<K>, k: K): nat { if k in m then m[k] else t.now }

  function NextClocks<K>(m: Clocks<K>, t: Tick<K>, grace: nat): Clocks<K> { Advanced(Pruned(m, t), t, grace) }

  /** New orphans start their clock now; those removed stop theirs. */
  function Advanced<K>(p: Clocks<K>, t: Tick<K>, grace: nat): Clocks<K> {
    map k | k in p.Keys + t.listed && (k in p || Orphaned(t, k)) && !Gone(p, t, grace, k) :: NextClock(p, t, k)
  }

  // ------------------------------------------------------------------
  // The object
  // ------------------------------------------------------------------

  class Reconciler {
    const orphanGrace: nat
    var orphanFirstSeen: Clocks<string>
    var orphanProxmoxFirstSeen: Clocks<int>

    constructor (grace: nat)
      ensures orphanGrace == grace && orphanFirstSeen == map[] && orphanProxmoxFirstSeen == map[]
    {
      orphanGrace := grace;
      orphanFirstSeen, orphanProxmoxFirstSeen := map[], map[];
    }

    /** A listing proves absence unless it is empty or was cut off. */
    static function RunnerTick(now: nat, rows: seq<string>, runners: set<string>, truncated: bool,
                               failing: set<string>): Tick<string> {
      Tick(now, (set r | r in rows), runners, runners != {} && !truncated, failing)
    }

    /** Returns the runners whose removal was attempted. */
    method CleanupOrphanRunners(now: nat, rows: seq<string>, runners: set<string>, truncated: bool,
                                failing: set<string>)
      returns (attempted: set<string>)
      modifies this`orphanFirstSeen
      ensures
        var t := RunnerTick(now, rows, runners, truncated, failing);
        && orphanFirstSeen == NextClocks(old(orphanFirstSeen), t, orphanGrace)
        && attempted == set k | k in runners && Due(Pruned(old(orphanFirstSeen), t), t, orphanGrace, k)
      ensures forall k :: k in attempted <==>
        k in runners && k !in rows && k in old(orphanFirstSeen) && now - old(orphanFirstSeen)[k] >= orphanGrace
      ensures forall k :: k in orphanFirstSeen <==>
        && k !in rows && !(k in attempted && k !in failing)
        && (k in runners || (k in old(orphanFirstSeen) && (runners == {} || truncated)))
      ensures forall k :: k in orphanFirstSeen ==>
        orphanFirstSeen[k] == if k in old(orphanFirstSeen) then old(orphanFirstSeen)[k] else now
    {
      ghost var t := RunnerTick(now, rows, runners, truncated, failing);
      var known := set r | r in rows;
      PruneOrphanTracking(known, runners, truncated, t);
      orphanFirstSeen, attempted := Advance(orphanFirstSeen, now, known, runners, failing, orphanGrace, t);
    }

    method PruneOrphanTracking(known: set<string>, runners: set<string>, truncated: bool, ghost t: Tick<string>)
      requires t.known == known && t.listed == runners && t.authoritative == (runners != {} && !truncated)
      modifies this`orphanFirstSeen
      ensures orphanFirstSeen == Pruned(old(orphanFirstSeen), t)
    {
      var left := orphanFirstSeen.Keys;
      while left != {}
        invariant left <= old(orphanFirstSeen).Keys
        invariant orphanFirstSeen.Keys == left + Pruned(old(orphanFirstSeen), t).Keys
        invariant forall k :: k in orphanFirstSeen ==> orphanFirstSeen[k] == old(orphanFirstSeen)[k]
        decreases left
      {
        var name := PickAny(left);
        left := left - {name};
        if name in known {
          orphanFirstSeen := orphanFirstSeen - {name};
        } else if runners != {} && !truncated && name !in runners {
          orphanFirstSeen := orphanFirstSeen - {name};
        }
      }
    }

    /** A Proxmox listing never proves absence to this sweep. */
    static function VMTick(now: nat, rows: seq<int>, vms: set<int>, failing: set<int>): Tick<int> {
      Tick(now, (set r | r in rows), vms, false, failing)
    }

    /** A failed listing leaves the clocks alone. */
    method SweepProxmoxOrphans(listOk: bool, now: nat, rows: seq<int>, vms: set<int>, failing: set<int>)
      returns (attempted: set<int>)
      modifies this`orphanProxmoxFirstSeen
      ensures !listOk ==> orphanProxmoxFirstSeen == old(orphanProxmoxFirstSeen) && attempted == {}
      ensures listOk ==>
        var t := VMTick(now, rows, vms, failing);
        && orphanProxmoxFirstSeen == NextClocks(old(orphanProxmoxFirstSeen), t, orphanGrace)
        && attempted == set k | k in vms && Due(Pruned(old(orphanProxmoxFirstSeen), t), t, orphanGrace, k)
      ensures listOk ==> forall k :: k in attempted <==>
        k in vms && k !in rows && k in old(orphanProxmoxFirstSeen) &&
        now - old(orphanProxmoxFirstSeen)[k] >= orphanGrace
      ensures listOk ==> forall k :: k in orphanProxmoxFirstSeen <==>
        k !in rows && !(k in attempted && k !in failing) && (k in vms || k in old(orphanProxmoxFirstSeen))
      ensures listOk ==> forall k :: k in orphanProxmoxFirstSeen ==>
        orphanProxmoxFirstSeen[k] == if k in old(orphanProxmoxFirstSeen) then old(orphanProxmoxFirstSeen)[k] else now
    {
      attempted := {};
      if !listOk {
        return;
      }
      ghost var t := VMTick(now, rows, vms, failing);
      var known := set r | r in rows;
      orphanProxmoxFirstSeen := map k | k in orphanProxmoxFirstSeen && k !in known :: orphanProxmoxFirstSeen[k];
      assert orphanProxmoxFirstSeen == Pruned(old(orphanProxmoxFirstSeen), t);
      orphanProxmoxFirstSeen, attempted := Advance(orphanProxmoxFirstSeen, now, known, vms, failing, orphanGrace, t);
    }
  }

  /** The loop both sweeps run over their listing after pruning. */
  method Advance<K>(pruned: Clocks<K>, now: nat, known: set<K>, listed: set<K>, failing: set<K>, grace: nat,
                    ghost t: Tick<K>)
    returns (clocks: Clocks<K>, attempted: set<K>)
    requires t.now == now && t.known == known && t.listed == listed && t.failing == failing
    ensures clocks == Advanced(pruned, t, grace)
    ensures attempted == set k | k in listed && Due(pruned, t, grace, k)
  {
    clocks, attempted := pruned, {};
    var left := listed;
    while left != {}
      invariant left <= listed
      invariant forall k :: k in left || k !in listed ==>
        (k in clocks <==> k in pruned) && (k in pruned ==> clocks[k] == pruned[k])
      invariant forall k :: k in listed && k !in left ==>
        (k in clocks <==> (k in pruned || Orphaned(t, k)) && !Gone(pruned, t, grace, k))
      invariant forall k :: k in listed && k !in left && k in clocks ==> clocks[k] == NextClock(pruned, t, k)
      invariant forall k :: k in attempted <==> k in listed && k !in left && Due(pruned, t, grace, k)
      decreases left
    {
      var name := PickAny(left);
      left := left - {name};
      if name !in known {
        if name !in clocks {
          clocks := clocks[name := now];
        } else if now - clocks[name] >= grace {
          attempted := attempted + {name};
          if name !in failing {
            clocks := clocks - {name};
          }
        }
      }
    }
  }

  // ------------------------------------------------------------------
  // Whole histories
  // ------------------------------------------------------------------

  /** The clocks after a history of ticks, from none. */
  function After<K>(ts: seq<Tick<K>>, grace: nat): Clocks<K> {
    if ts == [] then map[] else NextClocks(After(ts[..|ts| - 1], grace), ts[|ts| - 1], grace)
  }

  /** Tick `i` of the history attempts to remove `k`. */
  predicate AttemptedAt<K>(ts: seq<Tick<K>>, grace: nat, i: nat, k: K)
    requires i < |ts|
  {
    Due(Pruned(After(ts[..i], grace), ts[i]), ts[i], grace, k)
  }

  predicate RemovedAt<K>(ts: seq<Tick<K>>, grace: nat, i: nat, k: K)
    requires i < |ts|
  {
    AttemptedAt(ts, grace, i, k) && k !in ts[i].failing
  }

  /** Seen without a row at tick `j`, and from then up to tick `i` never matched, never
      authoritatively missing, and not removed. */
  predicate OrphanedSince<K>(ts: seq<Tick<K>>, grace: nat, j: nat, i: nat, k: K)
    requires j < i <= |ts|
  {
    && Orphaned(ts[j], k)
    && (forall l :: j < l < i ==> !Forgets(ts[l], k))
    && (forall l :: j <= l < i ==> !RemovedAt(ts, grace, l, k))
  }

  lemma OneTick<K>(m: Clocks<K>, t: Tick<K>, grace: nat, k: K)
    ensures k in NextClocks(m, t, grace) <==>
      ((k in m && !Forgets(t, k)) || Orphaned(t, k)) && !Gone(Pruned(m, t), t, grace, k)
    ensures k in NextClocks(m, t, grace) ==>
      NextClocks(m, t, grace)[k] == if k in m && !Forgets(t, k) then m[k] else t.now
  {}

  lemma SincePrefix<K>(ts: seq<Tick<K>>, grace: nat, j: nat, i: nat, k: K)
    requires j < i <= |ts|
    ensures OrphanedSince(ts, grace, j, i, k) <==> OrphanedSince(ts[..i], grace, j, i, k)
  {
    hide After;
    forall l | 0 <= l < i ensures RemovedAt(ts, grace, l, k) <==> RemovedAt(ts[..i], grace, l, k) {
      assert ts[..i][..l] == ts[..l];
    }
  }

  /** A running clock shows the time of a sighting since which nothing intervened. */
  lemma {:induction false} ClockHasOrigin<K>(ts: seq<Tick<K>>, grace: nat, k: K) returns (j: nat)
    requires k in After(ts, grace)
    ensures j < |ts| && After(ts, grace)[k] == ts[j].now && OrphanedSince(ts, grace, j, |ts|, k)
  {
    hide NextClocks, Pruned, Forgets, Due;
    var n := |ts| - 1;
    OneTick(After(ts[..n], grace), ts[n], grace, k);
    if k in After(ts[..n], grace) && !Forgets(ts[n], k) {
      j := ClockHasOrigin(ts[..n], grace, k);
      SincePrefix(ts, grace, j, n, k);
    } else {
      j := n;
    }
  }

  /** Conversely such a sighting keeps a clock running that is no later. */
  lemma {:induction false} ClockKeepsRunning<K>(ts: seq<Tick<K>>, grace: nat, j: nat, k: K)
    requires j < |ts| && OrphanedSince(ts, grace, j, |ts|, k)
    requires forall a, b :: 0 <= a <= b < |ts| ==> ts[a].now <= ts[b].now
    ensures k in After(ts, grace) && After(ts, grace)[k] <= ts[j].now
  {
    hide NextClocks, Pruned, Forgets, Due;
    var n := |ts| - 1;
    assert !RemovedAt(ts, grace, n, k);
    OneTick(After(ts[..n], grace), ts[n], grace, k);
    if j < n {
      SincePrefix(ts, grace, j, n, k);
      ClockKeepsRunning(ts[..n], grace, j, k);
    } else if k in After(ts[..n], grace) {
      var i := ClockHasOrigin(ts[..n], grace, k);
      assert ts[i].now <= ts[n].now;
    }
  }

  /** For every history: removal is attempted at a tick exactly when the entry is an orphan
      there and was first sighted as one at least the grace period earlier, with no match, no
      authoritative absence and no removal in between. Empty, cut-off and failed listings do
      not appear among what resets the clock. */
  lemma RemovedExactlyAfterGrace<K>(ts: seq<Tick<K>>, grace: nat, i: nat, k: K)
    requires i < |ts| && forall a, b :: 0 <= a <= b < |ts| ==> ts[a].now <= ts[b].now
    ensures AttemptedAt(ts, grace, i, k) <==>
      Orphaned(ts[i], k) &&
      exists j :: 0 <= j < i && OrphanedSince(ts, grace, j, i, k) && ts[i].now - ts[j].now >= grace
  {
    var before := ts[..i];
    if AttemptedAt(ts, grace, i, k) {
      var j := ClockHasOrigin(before, grace, k);
      SincePrefix(ts, grace, j, i, k);
    }
    if Orphaned(ts[i], k) &&
       exists j :: 0 <= j < i && OrphanedSince(ts, grace, j, i, k) && ts[i].now - ts[j].now >= grace {
      var j :| 0 <= j < i && OrphanedSince(ts, grace, j, i, k) && ts[i].now - ts[j].now >= grace;
      SincePrefix(ts, grace, j, i, k);
      ClockKeepsRunning(before, grace, j, k);
    }
  }

  /** The two sweeps differ: a Proxmox VM that was away from the listing in between is removed
      on its first new sighting, while a runner gets a new grace period. */
  lemma AbsenceResetsOnlyRunners<K>(grace: nat, k: K, other: K)
    requires grace > 0 && k != other
    ensures
      var runners := [Tick(0, {}, {k}, true, {}), Tick(1, {}, {other}, true, {}), Tick(grace + 1, {}, {k}, true, {})];
      var vms := [Tick(0, {}, {k}, false, {}), Tick(1, {}, {other}, false, {}), Tick(grace + 1, {}, {k}, false, {})];
      !AttemptedAt(runners, grace, 2, k) && AttemptedAt(vms, grace, 2, k)
  {
    hide After, NextClocks;
    var runners := [Tick(0, {}, {k}, true, {}), Tick(1, {}, {other}, true, {}), Tick(grace + 1, {}, {k}, true, {})];
    var vms := [Tick(0, {}, {k}, false, {}), Tick(1, {}, {other}, false, {}), Tick(grace + 1, {}, {k}, false, {})];
    RemovedExactlyAfterGrace(runners, grace, 2, k);
    assert Forgets(runners[1], k);
    assert forall j :: 0 <= j < 2 && OrphanedSince(runners, grace, j, 2, k) ==> j == 1;
    RemovedExactlyAfterGrace(vms, grace, 0, k);
    RemovedExactlyAfterGrace(vms, grace, 1, k);
    assert OrphanedSince(vms, grace, 0, 2, k);
    RemovedExactlyAfterGrace(vms, grace, 2, k);
  }
}
