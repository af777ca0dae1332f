/** The in-memory VM table of internal/store. Every method is one transaction; the clock
    reading it stamps is an argument. */
module VMStore {
  import opened Common

  datatype State =
    Provisioning | Warm | Booting | Hot | Assigned | Running | Recycling | Draining | Destroying | Poison

  datatype PoolKind = HotPool | WarmPool

  /** A row. A time of 0 is unset, as is a job or runner id of 0. */
  datatype VM = VM(vmid: int, node: string, profile: string, poolKind: PoolKind, state: State, jobId: int,
                   runnerId: int, bootAttempts: nat, recycleCount: nat, hasRecycleSnapshot: bool,
                   createdAt: nat, updatedAt: nat, stateSince: nat)

  type Rows = map<int, VM>

  datatype Outcome = Applied | Lost | Rejected

  datatype Acquisition = AtCapacity | NoneAvailable | Claimed(vm: VM)

  predicate IsBusy(s: State) { s == Assigned || s == Running }

  /** The rows serving a job; the empty profile means all profiles. */
  function BusyIds(rows: Rows, profile: string): set<int> {
    set id | id in rows && IsBusy(rows[id].state) && (profile == "" || rows[id].profile == profile)
  }

  function HotIds(rows: Rows, profile: string): set<int> {
    set id | id in rows && rows[id].state == Hot && (profile == "" || rows[id].profile == profile)
  }

  /** Fields no write may change. */
  predicate SameIdentity(before: VM, after: VM) {
    before.vmid == after.vmid && before.profile == after.profile && before.createdAt == after.createdAt
  }

  /** The rows these sets hold, in the rows' own fields. */
  lemma RowSets(rows: Rows, profile: string, id: int)
    ensures id in BusyIds(rows, profile) <==>
      id in rows && (rows[id].state == Assigned || rows[id].state == Running) &&
      (profile == "" || rows[id].profile == profile)
    ensures id in HotIds(rows, profile) <==>
      id in rows && rows[id].state == Hot && (profile == "" || rows[id].profile == profile)
  {}

  /** The row a compare-and-set writes: stamped first, then changed by the caller. */
  function Stamped(cur: VM, to: State, now: nat, mutate: VM -> VM): VM {
    mutate(cur.(state := to, stateSince := now, updatedAt := now))
  }

  class Store {
    var rows: Rows

    ghost predicate Valid()
      reads this
    {
      forall id :: id in rows ==> id > 0 && rows[id].vmid == id && rows[id].profile != ""
    }

    constructor ()
      ensures Valid() && rows == map[]
    {
      rows := map[];
    }

    /** Creates a row unless the VMID is taken or not positive. Unset times become now and an
        unset profile the default one. */
    method Insert(v: VM, now: nat) returns (ok: bool)
      requires Valid()
      modifies this
      ensures Valid()
      ensures ok <==> v.vmid > 0 && v.vmid !in old(rows)
      ensures ok ==> rows == old(rows)[v.vmid :=
        v.(createdAt := if v.createdAt == 0 then now else v.createdAt,
           updatedAt := if v.updatedAt == 0 then now else v.updatedAt,
           stateSince := if v.stateSince == 0 then now else v.stateSince,
           profile := if v.profile == "" then "default" else v.profile)]
      ensures !ok ==> rows == old(rows)
    {
      if v.vmid <= 0 || v.vmid in rows {
        return false;
      }
      var row := v;
      if row.createdAt == 0 {
        row := row.(createdAt := now);
      }
      if row.updatedAt == 0 {
        row := row.(updatedAt := now);
      }
      if row.stateSince == 0 {
        row := row.(stateSince := now);
      }
      if row.profile == "" {
        row := row.(profile := DEFAULT_PROFILE);
      }
      rows := rows[row.vmid := row];
      ok := true;
    }

    /** Removes the row and returns it as it was; a missing row is no error. */
    method DeleteAndReturn(vmid: int) returns (had: bool, row: VM)
      requires Valid()
      modifies this
      ensures Valid() && rows == old(rows) - {vmid}
      ensures had <==> vmid in old(rows)
      ensures had ==> row == old(rows)[vmid]
    {
      had := vmid in rows;
      row := if had then rows[vmid] else VM(0, "", "", HotPool, Poison, 0, 0, 0, 0, false, 0, 0, 0);
      rows := rows - {vmid};
    }

    /** Unconditional write, refused only if it would change the row's identity. */
    method Update(vmid: int, mutate: VM -> VM, now: nat) returns (o: Outcome)
      requires Valid()
      modifies this
      ensures Valid()
      ensures vmid !in old(rows) ==> o == Lost && rows == old(rows)
      ensures vmid in old(rows) ==>
        var was, new_ := old(rows)[vmid], mutate(old(rows)[vmid]);
        if was.vmid == new_.vmid && was.profile == new_.profile && was.createdAt == new_.createdAt
        then o == Applied && rows == old(rows)[vmid := new_.(updatedAt := now)]
        else o == Rejected && rows == old(rows)
    {
      if vmid !in rows {
        return Lost;
      }
      var cur := mutate(rows[vmid]);
      if !SameIdentity(rows[vmid], cur) {
        return Rejected;
      }
      rows := rows[vmid := cur.(updatedAt := now)];
      o := Applied;
    }

    /** Compare-and-set: applied exactly when the row exists in one of the expected states. */
    method UpdateStateIn(vmid: int, from: set<State>, to: State, mutate: VM -> VM, now: nat) returns (o: Outcome)
      requires Valid()
      modifies this
      ensures Valid()
      ensures o == Lost <==> vmid !in old(rows) || old(rows)[vmid].state !in from
      ensures o != Lost ==>
        var was := old(rows)[vmid];
        var new_ := mutate(was.(state := to, stateSince := now, updatedAt := now));
        if was.vmid == new_.vmid && was.profile == new_.profile && was.createdAt == new_.createdAt
        then o == Applied && rows == old(rows)[vmid := new_]
        else o == Rejected
      ensures o != Applied ==> rows == old(rows)
    {
      if vmid !in rows {
        return Lost;
      }
      var cur := rows[vmid];
      if cur.state !in from {
        return Lost;
      }
      var cp := Stamped(cur, to, now, mutate);
      if !SameIdentity(cur, cp) {
        return Rejected;
      }
      rows := rows[vmid := cp];
      o := Applied;
    }

    method UpdateState(vmid: int, from: State, to: State, mutate: VM -> VM, now: nat) returns (o: Outcome)
      requires Valid()
      modifies this
      ensures Valid()
      ensures o == Lost <==> vmid !in old(rows) || old(rows)[vmid].state != from
      ensures o != Lost ==>
        var was := old(rows)[vmid];
        var new_ := mutate(was.(state := to, stateSince := now, updatedAt := now));
        if was.vmid == new_.vmid && was.profile == new_.profile && was.createdAt == new_.createdAt
        then o == Applied && rows == old(rows)[vmid := new_]
        else o == Rejected
      ensures o != Applied ==> rows == old(rows)
    {
      o := UpdateStateIn(vmid, {from}, to, mutate, now);
    }

    method CountBusy(profile: string) returns (busy: nat)
      ensures busy == |BusyIds(rows, profile)|
    {
      busy := 0;
      var left := rows.Keys;
      ghost var counted: set<int> := {};
      while left != {}
        invariant left <= rows.Keys
        invariant counted == set id | id in BusyIds(rows, profile) && id !in left
        invariant busy == |counted|
        decreases left
      {
        var id := PickAny(left);
        left := left - {id};
        if IsBusy(rows[id].state) && (profile == "" || rows[id].profile == profile) {
          busy := busy + 1;
          counted := counted + {id};
        }
      }
      assert counted == BusyIds(rows, profile);
    }

    /** The oldest hot row of the profile, by creation time. */
    method OldestHot(profile: string) returns (found: bool, oldest: int)
      ensures found <==> HotIds(rows, profile) != {}
      ensures found ==> oldest in HotIds(rows, profile)
      ensures found ==> forall id :: id in HotIds(rows, profile) ==> rows[oldest].createdAt <= rows[id].createdAt
    {
      found, oldest := false, 0;
      var left := HotIds(rows, profile);
      while left != {}
        invariant left <= HotIds(rows, profile)
        invariant found <==> HotIds(rows, profile) - left != {}
        invariant found ==> oldest in HotIds(rows, profile)
        invariant found ==> forall id :: id in HotIds(rows, profile) && id !in left ==>
          rows[oldest].createdAt <= rows[id].createdAt
        decreases left
      {
        var id := PickAny(left);
        assert id in HotIds(rows, profile) - (left - {id});
        left := left - {id};
        if !found || rows[id].createdAt < rows[oldest].createdAt {
          found, oldest := true, id;
        }
      }
    }

    /** Claims the oldest hot row of the profile unless the fleet or the profile is at its
        cap. The caps are checked in the same transaction as the claim. */
    method AcquireHotInProfile(profile: string, jobId: int, maxConcurrent: int, maxBusy: int, now: nat)
      returns (a: Acquisition)
      requires Valid()
      modifies this
      ensures Valid()
      ensures a == AtCapacity <==>
        |BusyIds(old(rows), "")| >= maxConcurrent || (maxBusy > 0 && |BusyIds(old(rows), profile)| >= maxBusy)
      ensures a == NoneAvailable ==> HotIds(old(rows), profile) == {}
      ensures a.Claimed? ==>
        && a.vm.vmid in HotIds(old(rows), profile)
        && (forall id :: id in HotIds(old(rows), profile) ==> a.vm.createdAt <= old(rows)[id].createdAt)
        && a.vm == old(rows)[a.vm.vmid].(state := Assigned, jobId := jobId, stateSince := now, updatedAt := now)
        && rows == old(rows)[a.vm.vmid := a.vm]
      ensures !a.Claimed? ==> rows == old(rows)
    {
      var globalBusy := CountBusy("");
      if globalBusy >= maxConcurrent {
        return AtCapacity;
      }
      if maxBusy > 0 {
        var busy := globalBusy;
        if profile != "" {
          busy := CountBusy(profile);
        }
        if busy >= maxBusy {
          return AtCapacity;
        }
      }
      var found, oldest := OldestHot(profile);
      if !found {
        return NoneAvailable;
      }
      var cp := rows[oldest].(state := Assigned, jobId := jobId, stateSince := now, updatedAt := now);
      rows := rows[oldest := cp];
      a := Claimed(cp);
    }
  }
}
