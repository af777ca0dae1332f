/** Projecting a cluster resource listing into the accountant's snapshot. */
module ClusterRead {
  import opened Sums
  import opened Ledger
  import opened NoDoubleSpend
  import Tags

  datatype Row =
    | NodeRow(node: string, status: string, maxMem: nat, maxCPU: nat)
    | GuestRow(vmid: int, host: string, template: bool, power: string, tags: string, mem: nat, vcpus: nat)
    | OtherRow

  /** Which nodes are declared (none means all), and what marks a guest as our own. */
  datatype Scope = Scope(nodes: seq<string>, ownerScaleSets: seq<string>, ownedVMIDs: seq<(int, int)>) {
    predicate Wants(node: string) { nodes == [] || node in nodes }

    /** By owner tag, or by VMID range: each covers a window the other misses. */
    predicate Owns(tags: string, vmid: int) {
      || (exists i :: 0 <= i < |ownerScaleSets| && Tags.IsOwnedBy(tags, ownerScaleSets[i]))
      || (exists i :: 0 <= i < |ownedVMIDs| && ownedVMIDs[i].0 <= vmid <= ownedVMIDs[i].1)
    }

    /** Powered-off guests hold no memory, except our own. */
    predicate HoldsMemory(r: Row)
      requires r.GuestRow?
    {
      r.power != "stopped" || Owns(r.tags, r.vmid)
    }

    predicate CountsGuest(r: Row) { r.GuestRow? && Wants(r.host) && !r.template && HoldsMemory(r) }

    predicate CountsNode(r: Row) { r.NodeRow? && Wants(r.node) && (r.status == "" || r.status == "online") }
  }

  function NodesOf(sc: Scope, rows: seq<Row>): map<string, NodeSpec> {
    if rows == [] then map[]
    else
      var nodes, r := NodesOf(sc, rows[..|rows| - 1]), rows[|rows| - 1];
      if sc.CountsNode(r) then nodes[r.node := NodeSpec(r.maxMem, r.maxCPU)] else nodes
  }

  function GuestsOf(sc: Scope, rows: seq<Row>): Guests {
    if rows == [] then map[]
    else
      var guests, r := GuestsOf(sc, rows[..|rows| - 1]), rows[|rows| - 1];
      if sc.CountsGuest(r) then guests[r.vmid := Guest(r.host, r.mem, r.vcpus)] else guests
  }

  /** VMIDs are unique in a cluster. */
  predicate UniqueVmids(rows: seq<Row>) {
    forall i, j :: 0 <= i < j < |rows| && rows[i].GuestRow? && rows[j].GuestRow? ==> rows[i].vmid != rows[j].vmid
  }

  lemma {:induction false} GuestsComeFromRows(sc: Scope, rows: seq<Row>, v: int)
    requires v in GuestsOf(sc, rows)
    ensures exists i :: 0 <= i < |rows| && rows[i].GuestRow? && rows[i].vmid == v
  {
    var n := |rows| - 1;
    if sc.CountsGuest(rows[n]) && rows[n].vmid == v {
    } else {
      GuestsComeFromRows(sc, rows[..n], v);
      var i :| 0 <= i < n && rows[..n][i].GuestRow? && rows[..n][i].vmid == v;
      assert rows[i].vmid == v;
    }
  }

  lemma HostedAdd(d: Resource, guests: Guests, v: int, g: Guest, node: string)
    requires v !in guests
    ensures HostedOn(d, guests[v := g], node) == HostedOn(d, guests, node) + if g.node == node then g.Size(d) else 0
  {
    hide Sum;
    var guests' := guests[v := g];
    assert guests'.Keys == guests.Keys + {v};
    SumAdd(guests.Keys, SizesOn(d, guests', node), v);
    SumSame(guests.Keys, SizesOn(d, guests', node), SizesOn(d, guests, node));
  }

  function SumOf(sums: map<string, (nat, nat)>, node: string): (nat, nat) {
    if node in sums then sums[node] else (0, 0)
  }

  /** The sums gathered so far are the totals of the guests gathered so far. */
  ghost predicate SumsMatch(sums: map<string, (nat, nat)>, guests: Guests) {
    forall n: string :: SumOf(sums, n).0 == HostedOn(Memory, guests, n) && SumOf(sums, n).1 == HostedOn(VCPU, guests, n)
  }

  lemma SumsStart()
    ensures SumsMatch(map[], map[])
  {}

  lemma SumsAdd(sums: map<string, (nat, nat)>, guests: Guests, v: int, g: Guest)
    requires SumsMatch(sums, guests) && v !in guests
    ensures
      var s := SumOf(sums, g.node);
      SumsMatch(sums[g.node := (s.0 + g.mem, s.1 + g.vcpus)], guests[v := g])
  {
    hide HostedOn;
    var s := SumOf(sums, g.node);
    var sums', guests' := sums[g.node := (s.0 + g.mem, s.1 + g.vcpus)], guests[v := g];
    forall n: string
      ensures SumOf(sums', n).0 == HostedOn(Memory, guests', n) && SumOf(sums', n).1 == HostedOn(VCPU, guests', n)
    {
      HostedAdd(Memory, guests, v, g, n);
      HostedAdd(VCPU, guests, v, g, n);
      assert SumOf(sums, n).0 == HostedOn(Memory, guests, n) && SumOf(sums, n).1 == HostedOn(VCPU, guests, n);
    }
  }

  /** One pass over the rows in whatever order they come, guests summed per node on the side.
      The result is the snapshot the ledger's laws are stated for. */
  method Fetch(sc: Scope, rows: seq<Row>) returns (snap: Snapshot)
    requires UniqueVmids(rows)
    ensures snap == SnapshotOf(NodesOf(sc, rows), GuestsOf(sc, rows))
  {
    hide SumsMatch, HostedOn, Tags.IsOwnedBy;
    var nodes: map<string, NodeSpec>, guests: Guests, sums: map<string, (nat, nat)> := map[], map[], map[];
    SumsStart();
    for i := 0 to |rows|
      invariant nodes == NodesOf(sc, rows[..i]) && guests == GuestsOf(sc, rows[..i])
      invariant SumsMatch(sums, guests)
    {
      var r := rows[i];
      assert rows[..i + 1][..i] == rows[..i];
      match r
      case NodeRow(node, status, maxMem, maxCPU) =>
        if sc.Wants(node) && (status == "" || status == "online") {
          nodes := nodes[node := NodeSpec(maxMem, maxCPU)];
        }
      case GuestRow(vmid, host, template, power, tags, mem, vcpus) =>
        if sc.Wants(host) && !template && sc.HoldsMemory(r) {
          assert vmid !in guests by {
            if vmid in guests {
              GuestsComeFromRows(sc, rows[..i], vmid);
            }
          }
          SumsAdd(sums, guests, vmid, Guest(host, mem, vcpus));
          var s := SumOf(sums, host);
          sums := sums[host := (s.0 + mem, s.1 + vcpus)];
          guests := guests[vmid := Guest(host, mem, vcpus)];
        }
      case OtherRow =>
    }
    assert rows[..|rows|] == rows;
    snap := Fold(nodes, guests, sums);
  }

  method Fold(nodes: map<string, NodeSpec>, guests: Guests, sums: map<string, (nat, nat)>) returns (snap: Snapshot)
    requires SumsMatch(sums, guests)
    ensures snap == SnapshotOf(nodes, guests)
  {
    hide HostedOn;
    snap := Snapshot(
      map n | n in nodes :: NodeTotals(nodes[n].memBytes, nodes[n].cores, SumOf(sums, n).0, SumOf(sums, n).1),
      map v | v in guests :: guests[v].mem,
      map v | v in guests :: guests[v].vcpus);
  }

  /** What counts: a guest on a declared node that is no template and is powered on or our
      own. In particular a stopped warm VM counts, and a stopped foreign one does not. */
  lemma {:induction false} CountedExactly(sc: Scope, rows: seq<Row>, i: nat)
    requires UniqueVmids(rows) && i < |rows| && rows[i].GuestRow?
    ensures rows[i].vmid in GuestsOf(sc, rows) <==>
      && (sc.nodes == [] || rows[i].host in sc.nodes) && !rows[i].template
      && (|| rows[i].power != "stopped"
          || (exists k :: 0 <= k < |sc.ownerScaleSets| && Tags.IsOwnedBy(rows[i].tags, sc.ownerScaleSets[k]))
          || (exists k :: 0 <= k < |sc.ownedVMIDs| && sc.ownedVMIDs[k].0 <= rows[i].vmid <= sc.ownedVMIDs[k].1))
    ensures rows[i].vmid in GuestsOf(sc, rows) ==>
      GuestsOf(sc, rows)[rows[i].vmid] == Guest(rows[i].host, rows[i].mem, rows[i].vcpus)
  {
    hide Tags.IsOwnedBy;
    var n := |rows| - 1;
    var init := rows[..n];
    if i < n {
      assert init[i] == rows[i];
      CountedExactly(sc, init, i);
    } else if rows[n].vmid in GuestsOf(sc, init) {
      GuestsComeFromRows(sc, init, rows[n].vmid);
    }
  }

  /** A row that reports a declared node which is online, or does not say. */
  predicate Reports(sc: Scope, r: Row, node: string) {
    r.NodeRow? && r.node == node && (sc.nodes == [] || node in sc.nodes) && (r.status == "" || r.status == "online")
  }

  /** The nodes known are those reported, each with the memory and cores of its last report. */
  lemma {:induction false} NodesExactly(sc: Scope, rows: seq<Row>, node: string)
    ensures node in NodesOf(sc, rows) <==> exists i :: 0 <= i < |rows| && Reports(sc, rows[i], node)
    ensures forall i :: 0 <= i < |rows| && Reports(sc, rows[i], node)
                        && (forall j :: i < j < |rows| ==> !Reports(sc, rows[j], node)) ==>
      node in NodesOf(sc, rows) && NodesOf(sc, rows)[node] == NodeSpec(rows[i].maxMem, rows[i].maxCPU)
  {
    if rows != [] {
      var n := |rows| - 1;
      NodesExactly(sc, rows[..n], node);
      assert rows == rows[..n] + [rows[n]];
      assert sc.CountsNode(rows[n]) && rows[n].node == node <==> Reports(sc, rows[n], node);
      if i :| 0 <= i < n && Reports(sc, rows[..n][i], node) {
        assert Reports(sc, rows[i], node);
      }
    }
  }
}
