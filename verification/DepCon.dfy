/**
  The DepCon allocator of the scheduling simulation: keep the nodes with enough bandwidth and CPU, take
  the one with the most CPU left, the first of them on ties.  The results are for a cluster of equal
  nodes and containers within bounds; the simulation's own numbers are one instance.
 */
module DepCon {
  import opened Wrappers
  import opened Resources

  /** Every node starts with `node`; a container asks for 1 to `maxCpu` CPU and at most `maxBw` bandwidth. */
  datatype Params = Params(node: Vec, maxCpu: int, maxBw: int) {
    /** Even a container on every single CPU cannot use up a node's bandwidth. */
    predicate Sensible() {
      maxCpu >= 1 && maxBw >= 0 && node.cpu >= 0 && node.bw >= maxBw * node.cpu
    }

    predicate Allows(c: Vec) { 1 <= c.cpu <= maxCpu && 0 <= c.bw <= maxBw }
  }

  const SIMULATION := Params(Vec(10, 10000), 2, 100)

  // ---------- Choosing a node ----------

  /** The node that scoring picks among those that fit: the first with the most CPU left. */
  ghost predicate IsBest(nodes: seq<Vec>, c: Vec, i: nat) {
    && i < |nodes| && c.FitsIn(nodes[i])
    && (forall j :: 0 <= j < |nodes| && c.FitsIn(nodes[j]) ==> nodes[j].cpu <= nodes[i].cpu)
    && (forall j :: 0 <= j < i && c.FitsIn(nodes[j]) ==> nodes[j].cpu < nodes[i].cpu)
  }

  function Choose(nodes: seq<Vec>, c: Vec, n: nat): Option<nat>
    requires n <= |nodes|
    ensures Choose(nodes, c, n).Some? ==> Choose(nodes, c, n).value < n
  {
    if n == 0 then None
    else
      var best := Choose(nodes, c, n - 1);
      if c.FitsIn(nodes[n - 1]) && (best.None? || nodes[best.value].cpu < nodes[n - 1].cpu) then Some(n - 1) else best
  }

  lemma {:induction false} ChooseIsBest(nodes: seq<Vec>, c: Vec, n: nat)
    requires n <= |nodes|
    ensures Choose(nodes, c, n).None? <==> forall j :: 0 <= j < n ==> !c.FitsIn(nodes[j])
    ensures Choose(nodes, c, n).Some? ==> IsBest(nodes[..n], c, Choose(nodes, c, n).value)
  {
    if n > 0 {
      ChooseIsBest(nodes, c, n - 1);
      var best := Choose(nodes, c, n - 1);
      if best.Some? { assert IsBest(nodes[..n - 1], c, best.value); }
    }
  }

  // ---------- The placement loop ----------

  function Place(nodes: seq<Vec>, c: Vec): Option<seq<Vec>> {
    var i := Choose(nodes, c, |nodes|);
    if i.None? then None else Some(nodes[i.value := nodes[i.value].Minus(c)])
  }

  /** The nodes after the first n containers, and how many were placed before the loop ended. */
  function PlaceAll(nodes: seq<Vec>, containers: seq<Vec>): (seq<Vec>, nat) {
    if containers == [] then (nodes, 0)
    else
      var n := |containers| - 1;
      var (after, placed) := PlaceAll(nodes, containers[..n]);
      if placed < n then (after, placed)
      else
        var r := Place(after, containers[n]);
        if r.None? then (after, placed) else (r.value, placed + 1)
  }

  function EqualNodes(p: Params, n: nat): seq<Vec> { seq(n, _ => p.node) }

  // ---------- Balance ----------

  /** What a node has used: at most `maxBw` bandwidth for each CPU. */
  ghost predicate Coupled(p: Params, v: Vec) {
    0 <= v.cpu <= p.node.cpu && v.bw >= p.node.bw - p.maxBw * (p.node.cpu - v.cpu)
  }

  ghost predicate Balanced(p: Params, nodes: seq<Vec>) {
    forall i, j :: 0 <= i < |nodes| && 0 <= j < |nodes| ==> nodes[i].cpu - nodes[j].cpu <= p.maxCpu
  }

  ghost predicate Inv(p: Params, nodes: seq<Vec>) {
    Balanced(p, nodes) && forall v <- nodes :: Coupled(p, v)
  }

  lemma ProductMonotonic(b: int, x: int, y: int)
    requires b >= 0 && x <= y
    ensures b * x <= b * y
  {
  }

  /** A coupled node always has the bandwidth for a container it has the CPU for. */
  lemma BandwidthNeverRejects(p: Params, v: Vec, c: Vec)
    requires p.Sensible() && p.Allows(c) && Coupled(p, v)
    ensures c.FitsIn(v) <==> c.cpu <= v.cpu
    ensures v.bw >= 0
  {
    ProductMonotonic(p.maxBw, p.node.cpu - v.cpu, p.node.cpu);
    if c.cpu <= v.cpu {
      ProductMonotonic(p.maxBw, p.node.cpu - v.cpu, p.node.cpu - 1);
      assert p.maxBw * (p.node.cpu - 1) == p.maxBw * p.node.cpu - p.maxBw;
    }
  }

  lemma DebitKeepsCoupled(p: Params, v: Vec, c: Vec)
    requires p.Sensible() && p.Allows(c) && Coupled(p, v) && c.FitsIn(v)
    ensures Coupled(p, v.Minus(c))
  {
    ProductMonotonic(p.maxBw, 1, c.cpu);
    assert p.maxBw * (p.node.cpu - (v.cpu - c.cpu)) == p.maxBw * (p.node.cpu - v.cpu) + p.maxBw * c.cpu;
  }

  /** One placement: taken from the fullest node, so the spread stays within one container. */
  lemma PlaceKeepsInv(p: Params, nodes: seq<Vec>, c: Vec)
    requires p.Sensible() && p.Allows(c) && Inv(p, nodes)
    ensures Place(nodes, c).None? <==> forall v <- nodes :: v.cpu < c.cpu
    ensures Place(nodes, c).Some? ==> Inv(p, Place(nodes, c).value)
    ensures Place(nodes, c).Some? ==> Total(Place(nodes, c).value, CPU) == Total(nodes, CPU) - c.cpu
    ensures Place(nodes, c).Some? ==> Total(Place(nodes, c).value, BW) == Total(nodes, BW) - c.bw
  {
    ChooseIsBest(nodes, c, |nodes|);
    assert nodes[..|nodes|] == nodes;
    forall j | 0 <= j < |nodes| ensures c.FitsIn(nodes[j]) <==> c.cpu <= nodes[j].cpu {
      assert nodes[j] in nodes;
      BandwidthNeverRejects(p, nodes[j], c);
    }
    var choice := Choose(nodes, c, |nodes|);
    if choice.Some? {
      var i := choice.value;
      assert nodes[i] in nodes;
      DebitKeepsCoupled(p, nodes[i], c);
      TotalAfterWrite(nodes, i, nodes[i].Minus(c), CPU);
      TotalAfterWrite(nodes, i, nodes[i].Minus(c), BW);
      assert forall j :: 0 <= j < |nodes| ==> nodes[j].cpu <= nodes[i].cpu;
    }
  }

  lemma EqualNodesOk(p: Params, n: nat)
    requires p.Sensible()
    ensures Inv(p, EqualNodes(p, n))
  {
  }

  /**
    In every state the loop reaches the nodes' remaining CPU differs by at most one container, nothing
    is negative, and exactly the placed requests are gone; the loop ends early only when no node has
    the CPU for the next container, never for bandwidth.
   */
  lemma {:induction false} EveryPlacement(p: Params, n: nat, containers: seq<Vec>)
    requires p.Sensible() && forall c <- containers :: p.Allows(c)
    ensures PlaceAll(EqualNodes(p, n), containers).1 <= |containers|
    ensures var (nodes, placed) := PlaceAll(EqualNodes(p, n), containers);
      && |nodes| == n
      && Inv(p, nodes)
      && Total(nodes, CPU) == Total(EqualNodes(p, n), CPU) - Total(containers[..placed], CPU)
      && Total(nodes, BW) == Total(EqualNodes(p, n), BW) - Total(containers[..placed], BW)
      && (placed < |containers| ==> forall v <- nodes :: v.cpu < containers[placed].cpu)
  {
    if containers == [] {
      EqualNodesOk(p, n);
    } else {
      var m := |containers| - 1;
      EveryPlacement(p, n, containers[..m]);
      var (nodes, placed) := PlaceAll(EqualNodes(p, n), containers[..m]);
      assert containers[..m][..placed] == containers[..placed];
      if placed == m {
        assert containers[m] in containers;
        PlaceKeepsInv(p, nodes, containers[m]);
        assert containers[..m + 1][..m] == containers[..m];
      }
    }
  }

  /** No node's remaining CPU or bandwidth ever becomes negative. */
  lemma NothingNegative(p: Params, n: nat, containers: seq<Vec>)
    requires p.Sensible() && forall c <- containers :: p.Allows(c)
    ensures NonNegative(PlaceAll(EqualNodes(p, n), containers).0)
  {
    EveryPlacement(p, n, containers);
    forall v | v in PlaceAll(EqualNodes(p, n), containers).0 ensures v.cpu >= 0 && v.bw >= 0 {
      BandwidthNeverRejects(p, v, Vec(1, 0));
    }
  }

  lemma {:induction false} TotalAtMost(vs: seq<Vec>, n: nat, bound: int)
    requires n == |vs| && forall v <- vs :: v.cpu <= bound
    ensures Total(vs, CPU) <= n * bound
  {
    if n > 0 {
      TotalAtMost(vs[..n - 1], n - 1, bound);
      assert n * bound == (n - 1) * bound + bound;
      assert vs[n - 1] in vs;
    }
  }

  lemma FullMeansLittleLeft(p: Params, nodes: seq<Vec>, n: nat, c: Vec)
    requires p.Allows(c) && n == |nodes| && forall v <- nodes :: v.cpu < c.cpu
    ensures Total(nodes, CPU) <= n * (p.maxCpu - 1)
  {
    TotalAtMost(nodes, n, p.maxCpu - 1);
  }

  /** A run that ends early has placed all the CPU of the cluster but less than one largest container a node. */
  lemma EarlyEndMeansFull(p: Params, n: nat, containers: seq<Vec>)
    requires p.Sensible() && forall c <- containers :: p.Allows(c)
    ensures var placed := PlaceAll(EqualNodes(p, n), containers).1;
      placed < |containers| ==>
        Total(containers[..placed], CPU) >= Total(EqualNodes(p, n), CPU) - n * (p.maxCpu - 1)
  {
    EveryPlacement(p, n, containers);
    var (nodes, placed) := PlaceAll(EqualNodes(p, n), containers);
    if placed < |containers| {
      assert containers[placed] in containers;
      FullMeansLittleLeft(p, nodes, n, containers[placed]);
    }
  }

  /** The simulation's nodes and ranges: the spread is at most 2, and at most 1 CPU is left when the loop ends early. */
  lemma SimulationIsBalanced(n: nat, containers: seq<Vec>, i: nat, j: nat)
    requires forall c <- containers :: 1 <= c.cpu <= 2 && 50 <= c.bw <= 100
    requires i < n && j < n
    ensures var (nodes, placed) := PlaceAll(EqualNodes(SIMULATION, n), containers);
      && |nodes| == n
      && nodes[i].cpu - nodes[j].cpu <= 2
      && nodes[i].cpu >= 0 && nodes[i].bw >= 9000
      && (placed < |containers| ==> nodes[i].cpu <= 1)
  {
    EveryPlacement(SIMULATION, n, containers);
    var (nodes, placed) := PlaceAll(EqualNodes(SIMULATION, n), containers);
    assert nodes[i] in nodes;
    if placed < |containers| {
      assert containers[placed] in containers;
    }
  }

  // ---------- The program ----------

  class DepConScheduler {
    var nodeList: seq<Vec>

    constructor (p: Params, numOfNode: nat)
      ensures nodeList == EqualNodes(p, numOfNode)
    {
      var nodes: seq<Vec> := [];
      for i := 0 to numOfNode
        invariant nodes == EqualNodes(p, i)
      {
        nodes := nodes + [p.node];
      }
      nodeList := nodes;
    }

    /** The nodes with enough of both resources, in order. */
    method Filtering(c: Vec) returns (available: seq<nat>)
      ensures forall i :: i in available <==> 0 <= i < |nodeList| && c.FitsIn(nodeList[i])
      ensures forall a, b :: 0 <= a < b < |available| ==> available[a] < available[b]
    {
      available := [];
      for i := 0 to |nodeList|
        invariant forall j :: j in available <==> 0 <= j < i && c.FitsIn(nodeList[j])
        invariant forall a :: 0 <= a < |available| ==> available[a] < i
        invariant forall a, b :: 0 <= a < b < |available| ==> available[a] < available[b]
      {
        if c.bw <= nodeList[i].bw && c.cpu <= nodeList[i].cpu {
          available := available + [i];
        }
      }
    }

    /** The first of the available nodes with the most CPU left, and its place among them. */
    method Scoring(available: seq<nat>) returns (key: nat, ghost k: nat)
      requires available != [] && forall a :: 0 <= a < |available| ==> available[a] < |nodeList|
      ensures k < |available| && available[k] == key
      ensures forall a :: 0 <= a < |available| ==> nodeList[available[a]].cpu <= nodeList[key].cpu
      ensures forall a :: 0 <= a < k ==> nodeList[available[a]].cpu < nodeList[key].cpu
    {
      key, k := available[0], 0;
      for n := 0 to |available|
        invariant k < |available| && available[k] == key && (k < n || k == 0)
        invariant forall a :: 0 <= a < n ==> nodeList[available[a]].cpu <= nodeList[key].cpu
        invariant forall a :: 0 <= a < k ==> nodeList[available[a]].cpu < nodeList[key].cpu
      {
        if nodeList[available[n]].cpu > nodeList[key].cpu {
          key, k := available[n], n;
        }
      }
    }

    method Select(c: Vec) returns (node: Option<nat>)
      ensures node == Choose(nodeList, c, |nodeList|)
    {
      var available := Filtering(c);
      ChooseIsBest(nodeList, c, |nodeList|);
      assert nodeList[..|nodeList|] == nodeList;
      if available == [] {
        assert forall i :: 0 <= i < |nodeList| ==> i !in available;
        return None;
      }
      forall a | 0 <= a < |available| ensures available[a] < |nodeList| {
        assert available[a] in available;
      }
      var key, k := Scoring(available);
      forall j | 0 <= j < |nodeList| && c.FitsIn(nodeList[j])
        ensures nodeList[j].cpu <= nodeList[key].cpu && (j < key ==> nodeList[j].cpu < nodeList[key].cpu)
      {
        var a :| 0 <= a < |available| && available[a] == j;
      }
      assert available[k] in available;
      assert IsBest(nodeList, c, key);
      return Some(key);
    }

    method Run(containers: seq<Vec>) returns (placed: nat)
      modifies this
      ensures (nodeList, placed) == PlaceAll(old(nodeList), containers)
    {
      placed := 0;
      ghost var start := nodeList;
      for i := 0 to |containers|
        invariant placed == i
        invariant (nodeList, placed) == PlaceAll(start, containers[..i])
      {
        var c := containers[i];
        assert containers[..i + 1][..i] == containers[..i];
        var key := Select(c);
        if key.None? {
          EndIsFinal(start, containers, i + 1);
          return;
        }
        nodeList := nodeList[key.value := nodeList[key.value].Minus(c)];
        placed := placed + 1;
      }
      assert containers[..|containers|] == containers;
    }
  }

  lemma {:induction false} EndIsFinal(nodes: seq<Vec>, containers: seq<Vec>, n: nat)
    requires n <= |containers| && PlaceAll(nodes, containers[..n]).1 < n
    ensures PlaceAll(nodes, containers) == PlaceAll(nodes, containers[..n])
    decreases |containers|
  {
    if n == |containers| {
      assert containers[..n] == containers;
    } else {
      var m := |containers| - 1;
      assert containers[..m][..n] == containers[..n];
      EndIsFinal(nodes, containers[..m], n);
    }
  }
}
