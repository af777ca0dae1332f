/** A parked claim and the ledger reservation behind it carry separate deadlines. */
module ParkedClaims {
  import opened Ledger
  import opened NoDoubleSpend
  import Parking
  import PoolManager

  /** The run leaves reservation `id` alone, and no sweep in it happens after `t`. */
  predicate LeavesAlone(es: seq<Event>, id: nat, t: nat) {
    forall i :: 0 <= i < |es| ==>
      match es[i]
      case Reserve(_, _, _, now) => now <= t
      case Sweep(now) => now <= t
      case Bind(other, _) => other != id
      case Release(other) => other != id
      case _ => true
  }

  /** Whoever picks the claim before it expires finds its reservation in the ledger, whatever
      else was reserved, bound, released, swept and observed since it was parked. */
  ghost predicate AlwaysBacked(site: Site, w: World, id: nat, p: Parking.Parked) {
    forall es, t :: Legal(site, w, es) && LeavesAlone(es, id, t) && !Parking.Expired(p, t) ==>
      id in Run(site, w, es).res
  }

  lemma UnboundSurvivesStep(site: Site, w: World, e: Event, id: nat, t: nat)
    requires IdsUsed(w) && id in w.res && w.res[id].vmid == 0 && t <= w.res[id].expires && LeavesAlone([e], id, t)
    ensures
      var next := Apply(site, w, e);
      IdsUsed(next) && id in next.res && next.res[id].vmid == 0 && next.res[id].expires == w.res[id].expires
  {
    hide SnapshotOf, FitsOn, StillSeen;
    assert e == [e][0];
  }

  /** An unbound reservation never retires, so only its deadline can end it. */
  lemma {:induction false} UnboundSurvives(site: Site, w: World, es: seq<Event>, id: nat, t: nat)
    requires IdsUsed(w) && id in w.res && w.res[id].vmid == 0 && t <= w.res[id].expires && LeavesAlone(es, id, t)
    ensures id in Run(site, w, es).res
    decreases |es|
  {
    hide Apply, IdsUsed;
    if es != [] {
      assert LeavesAlone([es[0]], id, t) && LeavesAlone(es[1..], id, t);
      UnboundSurvivesStep(site, w, es[0], id, t);
      UnboundSurvives(site, Apply(site, w, es[0]), es[1..], id, t);
    }
  }

  lemma SweepEnds(site: Site, w: World, late: seq<Event>, id: nat)
    requires |late| == 1 && late[0].Sweep? && id in w.res && Expired(w.res[id], late[0].now)
    ensures Legal(site, w, late) && id !in Run(site, w, late).res
  {
    hide SnapshotOf, StillSeen;
    assert late[1..] == [];
  }

  /** A claim is granted, and parked a little later by another reading of the clock. It is
      backed for as long as it can be picked if and only if the reservation is the last of the
      two to expire. */
  lemma BackedWhileParked(site: Site, w: World, e: Event, p: Parking.Parked, parkedAt: nat)
    requires IdsUsed(w) && e.Reserve? && e.now <= parkedAt && Apply(site, w, e).last == w.last + 1
    requires p.expires == parkedAt + PoolManager.PARKED_RESERVATION_TTL
    ensures AlwaysBacked(site, Apply(site, w, e), w.last + 1, p) <==>
              e.now + site.opts.reservationTTL >= parkedAt + 90
  {
    var w', id := Apply(site, w, e), w.last + 1;
    GrantedClaim(site, w, e);
    hide Apply;
    if w'.res[id].expires >= p.expires {
      forall es, t | Legal(site, w', es) && LeavesAlone(es, id, t) && !Parking.Expired(p, t)
        ensures id in Run(site, w', es).res
      {
        UnboundSurvives(site, w', es, id, t);
      }
    } else {
      var late := [Sweep(p.expires)];
      SweepEnds(site, w', late, id);
      assert LeavesAlone(late, id, p.expires) && !Parking.Expired(p, p.expires);
    }
  }

  lemma GrantedClaim(site: Site, w: World, e: Event)
    requires IdsUsed(w) && e.Reserve? && Apply(site, w, e).last == w.last + 1
    ensures
      var w', id := Apply(site, w, e), w.last + 1;
      IdsUsed(w') && id in w'.res && w'.res[id].vmid == 0 && w'.res[id].expires == e.now + site.opts.reservationTTL
  {
    hide SnapshotOf, FitsOn, StillSeen, Kept;
  }
}
