/** First-fit placement of deployments on nodes, updated in place. */
module Placement {
  import opened Wrappers

  datatype Demand = Demand(cpu: real, ram: real)

  datatype Node = Node(cpu: real, ram: real, usedCPU: real, usedRAM: real)

  predicate Fits(n: Node, d: Demand)
  {
    n.cpu - n.usedCPU >= d.cpu && n.ram - n.usedRAM >= d.ram
  }

  function Load(n: Node, d: Demand): Node
  {
    n.(usedCPU := n.usedCPU + d.cpu, usedRAM := n.usedRAM + d.ram)
  }

  /** The first node with room. */
  function FirstFit(nodes: seq<Node>, d: Demand): (r: Option<nat>)
    ensures r.Some? ==> r.value < |nodes| && Fits(nodes[r.value], d)
    ensures forall i | 0 <= i < (if r.Some? then r.value else |nodes|) :: !Fits(nodes[i], d)
  {
    if nodes == [] then None
    else if Fits(nodes[0], d) then Some(0)
    else
      var r := FirstFit(nodes[1..], d);
      if r.Some? then Some(r.value + 1) else None
  }

  function Place(nodes: seq<Node>, d: Demand): (r: seq<Node>)
    ensures |r| == |nodes|
  {
    var at := FirstFit(nodes, d);
    if at.Some? then nodes[at.value := Load(nodes[at.value], d)] else nodes
  }

  method AttemptPlaceDeployment(d: Demand, nodes: array<Node>) returns (ok: bool)
    modifies nodes
    ensures nodes[..] == Place(old(nodes[..]), d)
    ensures ok <==> exists i :: 0 <= i < nodes.Length && Fits(old(nodes[i]), d)
  {
    for i := 0 to nodes.Length
      invariant nodes[..] == old(nodes[..])
      invariant forall j | 0 <= j < i :: !Fits(nodes[j], d)
    {
      var node := nodes[i];
      if node.cpu - node.usedCPU >= d.cpu && node.ram - node.usedRAM >= d.ram {
        FirstFitIs(nodes[..], d, i);
        nodes[i] := nodes[i].(usedCPU := node.usedCPU + d.cpu);
        nodes[i] := nodes[i].(usedRAM := node.usedRAM + d.ram);
        return true;
      }
    }
    return false;
  }

  lemma FirstFitIs(nodes: seq<Node>, d: Demand, i: nat)
    requires i < |nodes| && Fits(nodes[i], d) && forall j | 0 <= j < i :: !Fits(nodes[j], d)
    ensures FirstFit(nodes, d) == Some(i)
  {
  }

  /** Loading a node adds the demand to what it carries; a demand fits exactly if that overloads nothing. */
  lemma FitsExact(n: Node, d: Demand)
    ensures Load(n, d) == Node(n.cpu, n.ram, n.usedCPU + d.cpu, n.usedRAM + d.ram)
    ensures Fits(n, d) <==> Load(n, d).usedCPU <= n.cpu && Load(n, d).usedRAM <= n.ram
  {
  }

  // ----- Runs -----

  /** The nodes after the first `k` of the demands `ds`. */
  function After(nodes: seq<Node>, ds: seq<Demand>, k: nat): (r: seq<Node>)
    requires k <= |ds|
    ensures |r| == |nodes|
  {
    if k == 0 then nodes else Place(After(nodes, ds, k - 1), ds[k - 1])
  }

  /** Where demand `k` of the run went. */
  function Chosen(nodes: seq<Node>, ds: seq<Demand>, k: nat): Option<nat>
    requires k < |ds|
  {
    FirstFit(After(nodes, ds, k), ds[k])
  }

  ghost predicate NonNegative(ds: seq<Demand>)
  {
    forall k | 0 <= k < |ds| :: ds[k].cpu >= 0.0 && ds[k].ram >= 0.0
  }

  ghost predicate WithinCapacity(nodes: seq<Node>)
  {
    forall i | 0 <= i < |nodes| :: nodes[i].usedCPU <= nodes[i].cpu && nodes[i].usedRAM <= nodes[i].ram
  }

  /** No run overloads a node, whatever is asked for. */
  lemma {:induction false} CapacityKept(nodes: seq<Node>, ds: seq<Demand>, k: nat)
    requires k <= |ds| && WithinCapacity(nodes)
    ensures WithinCapacity(After(nodes, ds, k))
  {
    if k > 0 {
      CapacityKept(nodes, ds, k - 1);
    }
  }

  function Zero(): Demand
  {
    Demand(0.0, 0.0)
  }

  function Plus(a: Demand, b: Demand): Demand
  {
    Demand(a.cpu + b.cpu, a.ram + b.ram)
  }

  /** What the first `k` demands of the run put on node `i`. */
  function PlacedOn(nodes: seq<Node>, ds: seq<Demand>, k: nat, i: nat): Demand
    requires k <= |ds|
  {
    if k == 0 then Zero()
    else
      var before := PlacedOn(nodes, ds, k - 1, i);
      if Chosen(nodes, ds, k - 1) == Some(i) then Plus(before, ds[k - 1]) else before
  }

  /** What the first `k` demands of the run put anywhere. */
  function Placed(nodes: seq<Node>, ds: seq<Demand>, k: nat): Demand
    requires k <= |ds|
  {
    if k == 0 then Zero()
    else
      var before := Placed(nodes, ds, k - 1);
      if Chosen(nodes, ds, k - 1).Some? then Plus(before, ds[k - 1]) else before
  }

  function Used(nodes: seq<Node>): Demand
  {
    if nodes == [] then Zero()
    else Plus(Used(nodes[..|nodes| - 1]), Demand(nodes[|nodes| - 1].usedCPU, nodes[|nodes| - 1].usedRAM))
  }

  /** Each node carries what it carried before and exactly the demands placed on it; its size never changes. */
  lemma {:induction false} NodeAccounts(nodes: seq<Node>, ds: seq<Demand>, k: nat, i: nat)
    requires k <= |ds| && i < |nodes|
    ensures var n, d := nodes[i], PlacedOn(nodes, ds, k, i);
            After(nodes, ds, k)[i] == Node(n.cpu, n.ram, n.usedCPU + d.cpu, n.usedRAM + d.ram)
  {
    if k > 0 {
      NodeAccounts(nodes, ds, k - 1, i);
    }
  }

  lemma {:induction false} UsedAfterLoad(nodes: seq<Node>, i: nat, d: Demand)
    requires i < |nodes|
    ensures Used(nodes[i := Load(nodes[i], d)]) == Plus(Used(nodes), d)
  {
    var init := nodes[..|nodes| - 1];
    if i < |nodes| - 1 {
      UsedAfterLoad(init, i, d);
      assert nodes[i := Load(nodes[i], d)][..|nodes| - 1] == init[i := Load(nodes[i], d)];
    } else {
      assert nodes[i := Load(nodes[i], d)][..|nodes| - 1] == init;
    }
  }

  /** Nothing is lost or made up: the total in use grows by the demands that were placed. */
  lemma {:induction false} TotalAccounts(nodes: seq<Node>, ds: seq<Demand>, k: nat)
    requires k <= |ds|
    ensures Used(After(nodes, ds, k)) == Plus(Used(nodes), Placed(nodes, ds, k))
  {
    if k > 0 {
      TotalAccounts(nodes, ds, k - 1);
      var at := Chosen(nodes, ds, k - 1);
      if at.Some? {
        UsedAfterLoad(After(nodes, ds, k - 1), at.value, ds[k - 1]);
      }
    }
  }

  /** Room only shrinks. */
  lemma {:induction false} RoomShrinks(nodes: seq<Node>, ds: seq<Demand>, k: nat, m: nat, i: nat, d: Demand)
    requires k <= m <= |ds| && i < |nodes| && NonNegative(ds)
    requires !Fits(After(nodes, ds, k)[i], d)
    ensures !Fits(After(nodes, ds, m)[i], d)
    decreases m - k
  {
    if k < m {
      RoomShrinks(nodes, ds, k, m - 1, i, d);
    }
  }

  /**
   First fit packs to the front: a demand placed on node `j` fits on no earlier node in any later
   state of the run, and a refused demand fits nowhere from then on.
   */
  lemma PackedToTheFront(nodes: seq<Node>, ds: seq<Demand>, k: nat, m: nat, i: nat)
    requires k < |ds| && k <= m <= |ds| && i < |nodes| && NonNegative(ds)
    requires Chosen(nodes, ds, k).None? || i < Chosen(nodes, ds, k).value
    ensures !Fits(After(nodes, ds, m)[i], ds[k])
  {
    RoomShrinks(nodes, ds, k, m, i, ds[k]);
  }

  /** Hence two nodes in use cannot be merged: what sits on the later one does not fit on the earlier. */
  lemma {:induction false} LaterNodeDoesNotFit(nodes: seq<Node>, ds: seq<Demand>, m: nat, i: nat, j: nat)
    requires m <= |ds| && i < j < |nodes| && NonNegative(ds)
    requires exists k :: 0 <= k < m && Chosen(nodes, ds, k) == Some(j)
    ensures !Fits(After(nodes, ds, m)[i], PlacedOn(nodes, ds, m, j))
  {
    var k :| 0 <= k < m && Chosen(nodes, ds, k) == Some(j);
    PackedToTheFront(nodes, ds, k, m, i);
    PlacedOnCovers(nodes, ds, m, j, k);
  }

  lemma {:induction false} PlacedOnCovers(nodes: seq<Node>, ds: seq<Demand>, m: nat, j: nat, k: nat)
    requires k < m <= |ds| && NonNegative(ds) && Chosen(nodes, ds, k) == Some(j)
    ensures PlacedOn(nodes, ds, m, j).cpu >= ds[k].cpu && PlacedOn(nodes, ds, m, j).ram >= ds[k].ram
  {
    PlacedOnGrows(nodes, ds, m - 1, j);
    if k < m - 1 {
      PlacedOnCovers(nodes, ds, m - 1, j, k);
    }
  }

  lemma {:induction false} PlacedOnGrows(nodes: seq<Node>, ds: seq<Demand>, m: nat, j: nat)
    requires m <= |ds| && NonNegative(ds)
    ensures PlacedOn(nodes, ds, m, j).cpu >= 0.0 && PlacedOn(nodes, ds, m, j).ram >= 0.0
  {
    if m > 0 {
      PlacedOnGrows(nodes, ds, m - 1, j);
    }
  }

  /** Why demands must not be negative: one can make room on an earlier node. */
  lemma NegativeDemandMakesRoom(nodes: seq<Node>, ds: seq<Demand>)
    requires nodes == [Node(1.0, 1.0, 1.0, 1.0), Node(1.0, 1.0, 0.0, 0.0)]
    requires ds == [Demand(1.0, 1.0), Demand(-1.0, -1.0)]
    ensures Chosen(nodes, ds, 0) == Some(1) && Fits(After(nodes, ds, 2)[0], ds[0])
  {
    assert After(nodes, ds, 0) == nodes;
    FirstFitIs(nodes, ds[0], 1);
    assert After(nodes, ds, 1) == Place(nodes, ds[0]);
    FirstFitIs(After(nodes, ds, 1), ds[1], 0);
    assert After(nodes, ds, 2) == Place(After(nodes, ds, 1), ds[1]);
  }
}
