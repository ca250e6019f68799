/**
  When the DRF loop crashes, in terms of what it is given.  On equal nodes with an even number of CPUs
  and containers of one or two CPUs first fit wastes nothing: a container is turned away only when
  it asks for more CPU than all nodes have left together.
 */
module DrfCrash {
  import opened Wrappers
  import opened Resources
  import opened Drf
  import opened DrfSimulation
  import DepCon

  type Params = DepCon.Params

  /** Requests of one or two CPUs, an even number of CPUs on each node, and bandwidth to cover them. */
  predicate SmallRequests(p: Params) { p.Sensible() && p.maxCpu <= 2 && p.node.cpu % 2 == 0 }

  // ---------- First fit ----------

  /** Behind a node with CPU left every node has an even number left; bandwidth covers the CPU everywhere. */
  ghost predicate Packed(p: Params, nodes: seq<Vec>) {
    && (forall v <- nodes :: DepCon.Coupled(p, v))
    && forall i, j :: 0 <= i < j < |nodes| && nodes[i].cpu > 0 ==> nodes[j].cpu % 2 == 0
  }

  lemma PlaceKeepsPacked(p: Params, nodes: seq<Vec>, c: Vec)
    requires SmallRequests(p) && p.Allows(c) && Packed(p, nodes) && FirstFit(nodes, c, 0).Some?
    ensures var i := FirstFit(nodes, c, 0).value;
      i < |nodes| && Packed(p, nodes[i := nodes[i].Minus(c)])
  {
    FirstFitExact(nodes, c, 0);
    var i := FirstFit(nodes, c, 0).value;
    assert nodes[i] in nodes;
    DepCon.DebitKeepsCoupled(p, nodes[i], c);
    forall j | 0 <= j < |nodes| ensures c.FitsIn(nodes[j]) <==> c.cpu <= nodes[j].cpu {
      assert nodes[j] in nodes;
      DepCon.BandwidthNeverRejects(p, nodes[j], c);
    }
  }

  lemma {:induction false} TotalOfEmpty(nodes: seq<Vec>)
    requires forall v <- nodes :: v.cpu == 0
    ensures Total(nodes, CPU) == 0
  {
    if nodes != [] { TotalOfEmpty(nodes[..|nodes| - 1]); }
  }

  /** Where no node has two CPUs left, at most one CPU is left in all. */
  lemma {:induction false} TotalOfPacked(nodes: seq<Vec>)
    requires forall v <- nodes :: 0 <= v.cpu <= 1
    requires forall i, j :: 0 <= i < j < |nodes| && nodes[i].cpu > 0 ==> nodes[j].cpu % 2 == 0
    ensures Total(nodes, CPU) <= 1
  {
    if nodes != [] {
      var n := |nodes| - 1;
      assert nodes[n] in nodes;
      TotalOfPacked(nodes[..n]);
      if nodes[n].cpu == 1 {
        forall v | v in nodes[..n] ensures v.cpu == 0 {
          var i :| 0 <= i < n && nodes[i] == v;
        }
        TotalOfEmpty(nodes[..n]);
      }
    }
  }

  lemma {:induction false} TotalAtLeast(nodes: seq<Vec>, i: nat)
    requires i < |nodes| && forall v <- nodes :: v.cpu >= 0
    ensures nodes[i].cpu <= Total(nodes, CPU) && 0 <= Total(nodes[..i], CPU)
  {
    var n := |nodes| - 1;
    assert nodes[n] in nodes;
    if i < n {
      TotalAtLeast(nodes[..n], i);
      assert nodes[..n][..i] == nodes[..i];
    } else {
      CpuNonNegative(nodes[..n]);
    }
  }

  lemma {:induction false} CpuNonNegative(nodes: seq<Vec>)
    requires forall v <- nodes :: v.cpu >= 0
    ensures Total(nodes, CPU) >= 0
  {
    if nodes != [] {
      assert nodes[|nodes| - 1] in nodes;
      CpuNonNegative(nodes[..|nodes| - 1]);
    }
  }

  /** No node has room for a container exactly if it asks for more CPU than is left in all. */
  lemma RejectedIffTooLarge(p: Params, nodes: seq<Vec>, c: Vec)
    requires SmallRequests(p) && p.Allows(c) && Packed(p, nodes)
    ensures FirstFit(nodes, c, 0).None? <==> c.cpu > Total(nodes, CPU)
  {
    FirstFitExact(nodes, c, 0);
    forall j | 0 <= j < |nodes| ensures nodes[j].cpu >= 0 && (c.FitsIn(nodes[j]) <==> c.cpu <= nodes[j].cpu) {
      assert nodes[j] in nodes;
      DepCon.BandwidthNeverRejects(p, nodes[j], c);
    }
    if i :| 0 <= i < |nodes| && c.FitsIn(nodes[i]) {
      TotalAtLeast(nodes, i);
    } else {
      TotalOfPacked(nodes);
      if c.cpu == 1 { TotalOfEmpty(nodes); }
    }
  }

  // ---------- What is left to place ----------

  /** The CPU of all containers that still wait. */
  function WaitingCpu(fs: seq<Framework>): int {
    if fs == [] then 0 else WaitingCpu(fs[..|fs| - 1]) + Total(fs[|fs| - 1].pending, CPU)
  }

  lemma {:induction false} WaitingCpuAfterWrite(fs: seq<Framework>, i: nat, f: Framework)
    requires i < |fs|
    ensures WaitingCpu(fs[i := f]) == WaitingCpu(fs) + Total(f.pending, CPU) - Total(fs[i].pending, CPU)
  {
    var n := |fs| - 1;
    if i == n {
      assert fs[i := f][..n] == fs[..n];
    } else {
      assert fs[i := f][..n] == fs[..n][i := f];
      WaitingCpuAfterWrite(fs[..n], i, f);
    }
  }

  lemma {:induction false} WaitingCpuSame(a: seq<Framework>, b: seq<Framework>)
    requires |a| == |b| && forall i :: 0 <= i < |a| ==> a[i].pending == b[i].pending
    ensures WaitingCpu(a) == WaitingCpu(b)
  {
    if a != [] { WaitingCpuSame(a[..|a| - 1], b[..|b| - 1]); }
  }

  lemma {:induction false} TotalHead(vs: seq<Vec>)
    requires vs != []
    ensures Total(vs, CPU) == vs[0].cpu + Total(vs[1..], CPU)
  {
    if |vs| > 1 {
      TotalHead(vs[..|vs| - 1]);
      assert vs[1..][..|vs| - 2] == vs[..|vs| - 1][1..];
    }
  }

  ghost predicate AllAllowed(p: Params, fs: seq<Framework>) {
    forall f <- fs, c <- f.pending :: p.Allows(c)
  }

  lemma {:induction false} WaitingCpuBounds(p: Params, fs: seq<Framework>)
    requires AllAllowed(p, fs)
    ensures WaitingCpu(fs) >= 0
    ensures Waiting(fs) == 0 ==> WaitingCpu(fs) == 0
  {
    if fs != [] {
      var n := |fs| - 1;
      assert fs[n] in fs;
      forall f, c | f in fs[..n] && c in f.pending ensures p.Allows(c) {}
      forall c | c in fs[n].pending ensures c.cpu >= 0 { assert p.Allows(c); }
      WaitingCpuBounds(p, fs[..n]);
      CpuNonNegative(fs[n].pending);
    }
  }

  /** A round takes one waiting container; it is placed unless it asks for more CPU than is left. */
  lemma RoundTakesCpu(p: Params, s: State, capacity: Vec)
    requires SmallRequests(p) && Drf.Inv(s, capacity) && Packed(p, s.nodes) && AllAllowed(p, s.frameworks)
    requires Waiting(s.frameworks) > 0
    ensures var (s', outcome) := Round(s, capacity);
      && !outcome.Crashed? && p.Allows(outcome.container) && AllAllowed(p, s'.frameworks)
      && WaitingCpu(s'.frameworks) == WaitingCpu(s.frameworks) - outcome.container.cpu
      && (outcome.NoRoom? <==> outcome.container.cpu > Total(s.nodes, CPU))
      && (outcome.Placed? ==>
            Packed(p, s'.nodes) && Total(s'.nodes, CPU) == Total(s.nodes, CPU) - outcome.container.cpu)
  {
    RoundTakesOne(s, capacity);
    var fs := Refresh(s.frameworks);
    ScanInRange(fs, |fs|);
    var k := Scan(fs, |fs|).0;
    var c := fs[k].pending[0];
    assert s.frameworks[k] in s.frameworks && c in s.frameworks[k].pending;
    WaitingCpuSame(s.frameworks, fs);
    WaitingCpuAfterWrite(fs, k, Charged(fs[k], capacity));
    TotalHead(fs[k].pending);
    ChargedAllowed(p, s.frameworks, fs, k, Charged(fs[k], capacity));
    RejectedIffTooLarge(p, s.nodes, c);
    FirstFitExact(s.nodes, c, 0);
    var i := FirstFit(s.nodes, c, 0);
    if i.Some? {
      PlaceKeepsPacked(p, s.nodes, c);
      TotalAfterWrite(s.nodes, i.value, s.nodes[i.value].Minus(c), CPU);
    }
  }

  lemma ChargedAllowed(p: Params, before: seq<Framework>, fs: seq<Framework>, k: nat, charged: Framework)
    requires AllAllowed(p, before) && |fs| == |before| && k < |fs|
    requires forall i :: 0 <= i < |fs| ==> fs[i].pending == before[i].pending
    requires fs[k].pending != [] && charged.pending == fs[k].pending[1..]
    ensures AllAllowed(p, fs[k := charged])
  {
    forall f, c | f in fs[k := charged] && c in f.pending ensures p.Allows(c) {
      var i :| 0 <= i < |fs| && fs[k := charged][i] == f;
      assert before[i] in before && c in before[i].pending;
    }
  }

  // ---------- Every loop head ----------

  lemma {:induction false} TotalConcat(a: seq<Vec>, b: seq<Vec>)
    ensures Total(a + b, CPU) == Total(a, CPU) + Total(b, CPU)
  {
    if b == [] {
      assert a + b == a;
    } else {
      assert (a + b)[..|a + b| - 1] == a + b[..|b| - 1];
      TotalConcat(a, b[..|b| - 1]);
    }
  }

  lemma OnePart(containers: seq<Vec>, fs: seq<Framework>, start: nat, end: nat)
    requires fs != [] && start <= end <= |containers| && fs[|fs| - 1].pending == containers[start..end]
    requires WaitingCpu(fs[..|fs| - 1]) == Total(containers[..start], CPU)
    ensures WaitingCpu(fs) == Total(containers[..end], CPU)
  {
    assert containers[..end] == containers[..start] + containers[start..end];
    TotalConcat(containers[..start], containers[start..end]);
  }

  /** The frameworks receive the first containers, part by part. */
  lemma {:induction false} PartsMakeUp(containers: seq<Vec>, numFrameworks: nat, n: nat, end: nat)
    requires n <= numFrameworks && numFrameworks > 0 && end == n * (|containers| / numFrameworks) <= |containers|
    ensures WaitingCpu(SplitEvenly(containers, numFrameworks)[..n]) == Total(containers[..end], CPU)
  {
    if n > 0 {
      SliceInRange(n - 1, numFrameworks, |containers|);
      var start := (n - 1) * (|containers| / numFrameworks);
      PartsMakeUp(containers, numFrameworks, n - 1, start);
      var fs := SplitEvenly(containers, numFrameworks)[..n];
      assert fs[..n - 1] == SplitEvenly(containers, numFrameworks)[..n - 1];
      OnePart(containers, fs, start, end);
    }
  }

  lemma HandedOutCpu(containers: seq<Vec>, numFrameworks: nat)
    requires numFrameworks > 0
    ensures HandedOut(numFrameworks, |containers|) <= |containers|
    ensures WaitingCpu(SplitEvenly(containers, numFrameworks))
         == Total(containers[..HandedOut(numFrameworks, |containers|)], CPU)
  {
    HandedOutRest(numFrameworks, |containers|);
    PartsMakeUp(containers, numFrameworks, numFrameworks, HandedOut(numFrameworks, |containers|));
    var fs := SplitEvenly(containers, numFrameworks);
    assert fs[..numFrameworks] == fs;
  }

  /** A cluster of equal nodes with something on them. */
  predicate Cluster(p: Params, numOfNode: nat) {
    SmallRequests(p) && numOfNode > 0 && p.node.cpu > 0 && p.node.bw > 0
  }

  lemma {:induction false} EqualTotals(p: Params, n: nat)
    ensures Total(DepCon.EqualNodes(p, n), CPU) == n * p.node.cpu
    ensures Total(DepCon.EqualNodes(p, n), BW) == n * p.node.bw
  {
    if n > 0 {
      assert DepCon.EqualNodes(p, n)[..n - 1] == DepCon.EqualNodes(p, n - 1);
      EqualTotals(p, n - 1);
      assert n * p.node.cpu == (n - 1) * p.node.cpu + p.node.cpu;
      assert n * p.node.bw == (n - 1) * p.node.bw + p.node.bw;
    }
  }

  lemma ClusterIsSetting(p: Params, numOfNode: nat, containers: seq<Vec>)
    requires Cluster(p, numOfNode) && forall c <- containers :: p.Allows(c)
    ensures Setting(DepCon.EqualNodes(p, numOfNode), containers)
  {
    EqualTotals(p, numOfNode);
    assert numOfNode * p.node.cpu >= p.node.cpu && numOfNode * p.node.bw >= p.node.bw;
  }

  lemma StartIsPacked(p: Params, numOfNode: nat, containers: seq<Vec>, numFrameworks: nat)
    requires SmallRequests(p) && forall c <- containers :: p.Allows(c)
    ensures Packed(p, DepCon.EqualNodes(p, numOfNode))
    ensures AllAllowed(p, SplitEvenly(containers, numFrameworks))
  {
    DepCon.EqualNodesOk(p, numOfNode);
    StartIsFresh(containers, numFrameworks);
    forall f, c | f in SplitEvenly(containers, numFrameworks) && c in f.pending ensures p.Allows(c) {
      assert Fresh(f, containers);
    }
  }

  /** The nodes are packed, and the CPU left exceeds what waits by this much. */
  ghost predicate PackedWith(p: Params, s: State, spare: int) {
    Packed(p, s.nodes) && AllAllowed(p, s.frameworks) && Total(s.nodes, CPU) - WaitingCpu(s.frameworks) == spare
  }

  lemma RoundKeepsPacked(p: Params, s: State, capacity: Vec, spare: int)
    requires SmallRequests(p) && Drf.Inv(s, capacity) && PackedWith(p, s, spare) && Round(s, capacity).1.Placed?
    ensures Drf.Inv(Round(s, capacity).0, capacity) && PackedWith(p, Round(s, capacity).0, spare)
  {
    RoundTakesOne(s, capacity);
    RoundTakesCpu(p, s, capacity);
    RoundKeepsInv(s, capacity);
  }

  lemma {:induction false} RoundsKeepPacked(p: Params, start: State, capacity: Vec, n: nat, spare: int)
    requires SmallRequests(p) && Drf.Inv(start, capacity) && PackedWith(p, start, spare)
    requires Rounds(start, capacity, n).1 == Finished
    ensures Drf.Inv(Rounds(start, capacity, n).0, capacity) && PackedWith(p, Rounds(start, capacity, n).0, spare)
  {
    if n > 0 {
      RoundsKeepPacked(p, start, capacity, n - 1, spare);
      RoundKeepsPacked(p, Rounds(start, capacity, n - 1).0, capacity, spare);
    }
  }

  /** At every loop head the CPU left exceeds what waits by as much as at the start. */
  lemma LoopHeadPacked(p: Params, nodes: seq<Vec>, numOfNode: nat, containers: seq<Vec>, numFrameworks: nat, n: nat)
    requires SmallRequests(p) && nodes == DepCon.EqualNodes(p, numOfNode) && Setting(nodes, containers)
    requires forall c <- containers :: p.Allows(c)
    requires Rounds(Start(nodes, containers, numFrameworks), Capacity(nodes), n).1 == Finished
    ensures PackedWith(p, Rounds(Start(nodes, containers, numFrameworks), Capacity(nodes), n).0,
                       Total(nodes, CPU) - WaitingCpu(SplitEvenly(containers, numFrameworks)))
  {
    StartIsPacked(p, numOfNode, containers, numFrameworks);
    StartIsOk(nodes, containers, numFrameworks);
    RoundsKeepPacked(p, Start(nodes, containers, numFrameworks), Capacity(nodes), n,
                     Total(nodes, CPU) - WaitingCpu(SplitEvenly(containers, numFrameworks)));
  }

  /** All containers handed out found room exactly if the cluster has the CPU for them. */
  lemma AllPlacedIff(p: Params, numOfNode: nat, containers: seq<Vec>, numFrameworks: nat, m: nat)
    requires Cluster(p, numOfNode) && numFrameworks > 0 && forall c <- containers :: p.Allows(c)
    requires Setting(DepCon.EqualNodes(p, numOfNode), containers) && m == HandedOut(numFrameworks, |containers|)
    ensures m <= |containers|
    ensures var nodes := DepCon.EqualNodes(p, numOfNode);
      Rounds(Start(nodes, containers, numFrameworks), Capacity(nodes), m).1 == Finished <==>
        Total(containers[..m], CPU) <= Total(nodes, CPU)
  {
    var nodes := DepCon.EqualNodes(p, numOfNode);
    var start, cap := Start(nodes, containers, numFrameworks), Capacity(nodes);
    HandedOutCpu(containers, numFrameworks);
    StartWaits(containers, numFrameworks);
    if Rounds(start, cap, m).1 == Finished {
      LoopHeadPacked(p, nodes, numOfNode, containers, numFrameworks, m);
      EveryLoopHead(nodes, containers, numFrameworks, m);
      var s := Rounds(start, cap, m).0;
      WaitingCpuBounds(p, s.frameworks);
      CpuNonNegative(s.nodes);
    } else {
      var k := EndsBefore(start, cap, m);
      LoopHeadPacked(p, nodes, numOfNode, containers, numFrameworks, k);
      EveryLoopHead(nodes, containers, numFrameworks, k);
      var s := Rounds(start, cap, k).0;
      RoundTakesOne(s, cap);
      RoundTakesCpu(p, s, cap);
      WaitingCpuBounds(p, Round(s, cap).0.frameworks);
    }
  }

  // ---------- The crash ----------

  /**
    The loop crashes exactly if equal parts leave a rest and the cluster has the CPU for all the
    containers that were handed out.
   */
  lemma LoopCrashesIff(p: Params, numOfNode: nat, containers: seq<Vec>, numFrameworks: nat)
    requires Cluster(p, numOfNode) && numFrameworks > 0 && forall c <- containers :: p.Allows(c)
    ensures HandedOut(numFrameworks, |containers|) <= |containers|
    ensures Setting(DepCon.EqualNodes(p, numOfNode), containers)
    ensures var nodes := DepCon.EqualNodes(p, numOfNode);
      Rounds(Start(nodes, containers, numFrameworks), Capacity(nodes), |containers|).1 == Crash <==>
        && |containers| % numFrameworks != 0
        && Total(containers[..HandedOut(numFrameworks, |containers|)], CPU) <= numOfNode * p.node.cpu
  {
    ClusterIsSetting(p, numOfNode, containers);
    EqualTotals(p, numOfNode);
    AllPlacedIff(p, numOfNode, containers, numFrameworks, HandedOut(numFrameworks, |containers|));
    CrashesIff(DepCon.EqualNodes(p, numOfNode), containers, numFrameworks);
  }

  /** The simulation's own figures. */
  lemma SimulationCrashesIff(numOfNode: nat, containers: seq<Vec>, numFrameworks: nat)
    requires numOfNode > 0 && numFrameworks > 0
    requires forall c <- containers :: 1 <= c.cpu <= 2 && 50 <= c.bw <= 100
    ensures HandedOut(numFrameworks, |containers|) <= |containers|
    ensures var nodes := DepCon.EqualNodes(DepCon.SIMULATION, numOfNode);
      && Setting(nodes, containers)
      && (Rounds(Start(nodes, containers, numFrameworks), Capacity(nodes), |containers|).1 == Crash <==>
            && |containers| % numFrameworks != 0
            && Total(containers[..HandedOut(numFrameworks, |containers|)], CPU) <= 10 * numOfNode)
  {
    LoopCrashesIff(DepCon.SIMULATION, numOfNode, containers, numFrameworks);
  }

  /** Three small containers, two frameworks, one node: the third round finds nobody waiting. */
  lemma ThreeForTwoCrash()
    ensures var nodes, containers := DepCon.EqualNodes(DepCon.SIMULATION, 1), [Vec(1, 50), Vec(1, 50), Vec(1, 50)];
      && Setting(nodes, containers)
      && Rounds(Start(nodes, containers, 2), Capacity(nodes), 3).1 == Crash
  {
    var containers := [Vec(1, 50), Vec(1, 50), Vec(1, 50)];
    SimulationCrashesIff(1, containers, 2);
    assert containers[..2][..1] == [Vec(1, 50)] && [Vec(1, 50)][..0] == [];
    assert Total([Vec(1, 50)], CPU) == 1;
    assert Total(containers[..2], CPU) == 2;
  }

  /** Without frameworks the first round crashes. */
  lemma NoFrameworksCrash(nodes: seq<Vec>, containers: seq<Vec>, n: nat)
    requires Setting(nodes, containers)
    ensures Rounds(Start(nodes, containers, 0), Capacity(nodes), n).1 == Crash <==> n > 0
  {
    var start, cap := Start(nodes, containers, 0), Capacity(nodes);
    if n > 0 {
      assert Rounds(start, cap, 0) == (start, Finished);
      assert Round(start, cap).1.Crashed?;
      assert Rounds(start, cap, 1).1 == Crash;
      EndIsFinal(start, cap, 1, n);
    }
  }
}
