/**
  The DRF run of the simulation: set-up, the placement loop, and what holds at every loop head and
  at the end, for all nodes, containers and numbers of frameworks.
 */
module DrfSimulation {
  import opened Wrappers
  import opened Resources
  import opened Drf

  datatype End = Finished | OutOfRoom(rejected: Vec) | Crash

  // ---------- Set-up ----------

  function SplitEvenly(containers: seq<Vec>, numFrameworks: nat): seq<Framework> {
    seq(numFrameworks, i requires 0 <= i < numFrameworks =>
      var q := |containers| / numFrameworks;
      SliceInRange(i, numFrameworks, |containers|);
      Framework(0.0, Shares(0.0, 0.0), None, containers[i * q..(i + 1) * q]))
  }

  lemma TimesMonotonic(a: nat, b: nat, q: nat)
    requires a <= b
    ensures a * q <= b * q
  {
  }

  lemma SliceInRange(i: nat, n: nat, size: nat)
    requires i < n
    ensures 0 <= i * (size / n) <= (i + 1) * (size / n) <= size
    ensures (i + 1) * (size / n) - i * (size / n) == size / n
  {
    var q := size / n;
    TimesMonotonic(i, i + 1, q);
    TimesMonotonic(i + 1, n, q);
    HandedOutRest(n, size);
  }

  /** How many containers the frameworks receive together. */
  function HandedOut(n: nat, size: nat): nat
    requires n > 0
  {
    n * (size / n)
  }

  lemma HandedOutRest(n: nat, size: nat)
    requires n > 0
    ensures size == HandedOut(n, size) + size % n
  {
  }

  function Capacity(nodes: seq<Vec>): Vec { Vec(Total(nodes, CPU), Total(nodes, BW)) }

  predicate PositiveCapacity(nodes: seq<Vec>) { Total(nodes, CPU) > 0 && Total(nodes, BW) > 0 }

  /** Every framework starts with nothing granted and an equal part of the containers, one part after the other. */
  lemma SplitEvenlyEffect(containers: seq<Vec>, numFrameworks: nat, i: nat)
    requires i < numFrameworks
    ensures var f, q := SplitEvenly(containers, numFrameworks)[i], |containers| / numFrameworks;
      && f.dominant == 0.0 && f.share.cpu == 0.0 && f.share.bw == 0.0
      && |f.pending| == q
      && forall j :: 0 <= j < q ==> 0 <= i * q + j < |containers| && f.pending[j] == containers[i * q + j]
  {
    SliceInRange(i, numFrameworks, |containers|);
  }

  // ---------- The placement loop ----------

  /** The state and the way the loop stands after n rounds of the loop. */
  function Rounds(s: State, capacity: Vec, n: nat): (State, End)
    requires capacity.cpu > 0 && capacity.bw > 0
  {
    if n == 0 then (s, Finished)
    else
      var (s', end) := Rounds(s, capacity, n - 1);
      if end != Finished then (s', end)
      else
        var (s'', outcome) := Round(s', capacity);
        match outcome
        case Crashed => (s'', Crash)
        case NoRoom(c) => (s'', OutOfRoom(c))
        case Placed(_, _) => (s'', Finished)
  }

  function Waiting(fs: seq<Framework>): nat {
    if fs == [] then 0 else Waiting(fs[..|fs| - 1]) + |fs[|fs| - 1].pending|
  }

  lemma {:induction false} WaitingAfterWrite(fs: seq<Framework>, i: nat, f: Framework)
    requires i < |fs|
    ensures Waiting(fs[i := f]) == Waiting(fs) + |f.pending| - |fs[i].pending|
  {
    var n := |fs| - 1;
    if i == n {
      assert fs[i := f][..n] == fs[..n];
    } else {
      assert fs[i := f][..n] == fs[..n][i := f];
      WaitingAfterWrite(fs[..n], i, f);
    }
  }

  lemma {:induction false} WaitingSame(a: seq<Framework>, b: seq<Framework>)
    requires |a| == |b| && forall i :: 0 <= i < |a| ==> |a[i].pending| == |b[i].pending|
    ensures Waiting(a) == Waiting(b)
  {
    if a != [] { WaitingSame(a[..|a| - 1], b[..|b| - 1]); }
  }

  lemma {:induction false} WaitingZero(fs: seq<Framework>)
    ensures Waiting(fs) == 0 <==> forall f <- fs :: f.pending == []
  {
    if fs != [] {
      WaitingZero(fs[..|fs| - 1]);
      assert fs == fs[..|fs| - 1] + [fs[|fs| - 1]];
    }
  }

  lemma RoundTakesOne(s: State, capacity: Vec)
    requires Inv(s, capacity)
    ensures var (s', outcome) := Round(s, capacity);
      && (outcome.Crashed? <==> Waiting(s.frameworks) == 0)
      && (!outcome.Crashed? ==> Waiting(s'.frameworks) == Waiting(s.frameworks) - 1)
  {
    CrashIff(s, capacity);
    WaitingZero(s.frameworks);
    var fs := Refresh(s.frameworks);
    WaitingSame(s.frameworks, fs);
    if !Round(s, capacity).1.Crashed? {
      ScanInRange(fs, |fs|);
      var k := Scan(fs, |fs|).0;
      WaitingAfterWrite(fs, k, Charged(fs[k], capacity));
    }
  }

  // ---------- Every loop head ----------

  lemma {:induction false} EmptyHanded(fs: seq<Framework>, capacity: int, r: Resource)
    requires forall f <- fs :: f.share == Shares(0.0, 0.0)
    ensures Granted(fs, capacity, r) == 0.0
  {
    if fs != [] { EmptyHanded(fs[..|fs| - 1], capacity, r); }
  }

  lemma {:induction false} WaitingOfEqual(fs: seq<Framework>, q: nat)
    requires forall f <- fs :: |f.pending| == q
    ensures Waiting(fs) == |fs| * q
  {
    if fs != [] {
      WaitingOfEqual(fs[..|fs| - 1], q);
      assert |fs| * q == (|fs| - 1) * q + q;
    }
  }

  function Start(nodes: seq<Vec>, containers: seq<Vec>, numFrameworks: nat): State {
    State(nodes, SplitEvenly(containers, numFrameworks))
  }

  ghost predicate Setting(nodes: seq<Vec>, containers: seq<Vec>) {
    NonNegative(nodes) && PositiveCapacity(nodes) && NonNegative(containers)
  }

  lemma StartWaits(containers: seq<Vec>, numFrameworks: nat)
    requires numFrameworks > 0
    ensures Waiting(SplitEvenly(containers, numFrameworks)) == HandedOut(numFrameworks, |containers|)
  {
    var fs := SplitEvenly(containers, numFrameworks);
    forall i | 0 <= i < numFrameworks ensures |fs[i].pending| == |containers| / numFrameworks {
      SliceInRange(i, numFrameworks, |containers|);
    }
    WaitingOfEqual(fs, |containers| / numFrameworks);
  }

  ghost predicate Fresh(f: Framework, containers: seq<Vec>) {
    f.dominant == 0.0 && f.share == Shares(0.0, 0.0) && forall c <- f.pending :: c in containers
  }

  lemma StartIsFresh(containers: seq<Vec>, numFrameworks: nat)
    ensures forall f <- SplitEvenly(containers, numFrameworks) :: Fresh(f, containers)
  {
    var fs := SplitEvenly(containers, numFrameworks);
    forall i | 0 <= i < |fs| ensures Fresh(fs[i], containers) {
      SliceInRange(i, numFrameworks, |containers|);
    }
  }

  lemma StartIsOk(nodes: seq<Vec>, containers: seq<Vec>, numFrameworks: nat)
    requires Setting(nodes, containers)
    ensures Inv(Start(nodes, containers, numFrameworks), Capacity(nodes))
    ensures forall f <- SplitEvenly(containers, numFrameworks) :: Fresh(f, containers)
  {
    var fs := SplitEvenly(containers, numFrameworks);
    StartIsFresh(containers, numFrameworks);
    assert forall f <- fs :: Fresh(f, containers) ==> SharesOk(f) && NonNegative(f.pending);
    assert forall f <- fs :: Fresh(f, containers) ==> f.share == Shares(0.0, 0.0);
    EmptyHanded(fs, Total(nodes, CPU), CPU);
    EmptyHanded(fs, Total(nodes, BW), BW);
  }

  /** The largest fraction of the capacity that one container asks for. */
  function Largest(containers: seq<Vec>, capacity: Vec): real
    requires capacity.cpu > 0 && capacity.bw > 0
  {
    if containers == [] then 0.0
    else Max(Largest(containers[..|containers| - 1], capacity), Fraction(containers[|containers| - 1], capacity))
  }

  lemma {:induction false} LargestBounds(containers: seq<Vec>, capacity: Vec)
    requires capacity.cpu > 0 && capacity.bw > 0
    ensures Largest(containers, capacity) >= 0.0
    ensures forall c <- containers :: Fraction(c, capacity) <= Largest(containers, capacity)
  {
    if containers != [] {
      var n := |containers| - 1;
      assert containers == containers[..n] + [containers[n]];
      LargestBounds(containers[..n], capacity);
    }
  }

  /**
    At every loop head reached, for each resource what was granted and what is left on the nodes add
    up to the capacity, nothing is negative, and no framework is ahead of one that still waits by
    more than the largest container; exactly one container was taken in each round.
   */
  lemma {:induction false} EveryLoopHead(nodes: seq<Vec>, containers: seq<Vec>, numFrameworks: nat, n: nat)
    requires Setting(nodes, containers)
    requires Rounds(Start(nodes, containers, numFrameworks), Capacity(nodes), n).1 == Finished
    ensures var s := Rounds(Start(nodes, containers, numFrameworks), Capacity(nodes), n).0;
      && Inv(s, Capacity(nodes))
      && Fair(s.frameworks, Largest(containers, Capacity(nodes)))
      && AtMostFraction(s.frameworks, Capacity(nodes), Largest(containers, Capacity(nodes)))
      && Waiting(s.frameworks) == Waiting(SplitEvenly(containers, numFrameworks)) - n
  {
    StartIsOk(nodes, containers, numFrameworks);
    LargestBounds(containers, Capacity(nodes));
    if n > 0 {
      EveryLoopHead(nodes, containers, numFrameworks, n - 1);
      var s := Rounds(Start(nodes, containers, numFrameworks), Capacity(nodes), n - 1).0;
      RoundKeepsInv(s, Capacity(nodes));
      RoundKeepsFairness(s, Capacity(nodes), Largest(containers, Capacity(nodes)));
      RoundTakesOne(s, Capacity(nodes));
    }
  }

  /** Consequences at a loop head: shares are fractions of the whole, and the round's choice is a true minimum. */
  lemma LoopHeadChoice(nodes: seq<Vec>, containers: seq<Vec>, numFrameworks: nat, n: nat, i: nat, r: Resource)
    requires Setting(nodes, containers)
    requires Rounds(Start(nodes, containers, numFrameworks), Capacity(nodes), n).1 == Finished
    requires i < |Rounds(Start(nodes, containers, numFrameworks), Capacity(nodes), n).0.frameworks|
    ensures var fs := Rounds(Start(nodes, containers, numFrameworks), Capacity(nodes), n).0.frameworks;
      && 0.0 <= fs[i].share.At(r) <= 1.0
      && (fs[i].pending != [] ==>
            var k := Scan(Refresh(fs), |fs|).0;
            k < |fs| && fs[k].pending != [] && fs[k].dominant <= fs[i].dominant)
  {
    EveryLoopHead(nodes, containers, numFrameworks, n);
    var s := Rounds(Start(nodes, containers, numFrameworks), Capacity(nodes), n).0;
    assert s.frameworks[i] in s.frameworks;
    ShareAtMostOne(s, Capacity(nodes), i, r);
    if s.frameworks[i].pending != [] {
      ChoiceIsMinimal(s, Capacity(nodes), i);
    }
  }

  /**
    When the loop stops for want of room, no node fits the container; it has already been charged, so
    the grants exceed the capacity by exactly that container.
   */
  lemma {:induction false} OutOfRoomIsReal(nodes: seq<Vec>, containers: seq<Vec>, numFrameworks: nat, n: nat)
    requires Setting(nodes, containers)
    requires Rounds(Start(nodes, containers, numFrameworks), Capacity(nodes), n).1.OutOfRoom?
    ensures var (s, end) := Rounds(Start(nodes, containers, numFrameworks), Capacity(nodes), n);
      && (forall v <- s.nodes :: !end.rejected.FitsIn(v))
      && Conserved(s, Capacity(nodes), CPU, end.rejected.cpu) && Conserved(s, Capacity(nodes), BW, end.rejected.bw)
      && Fair(s.frameworks, Largest(containers, Capacity(nodes)))
  {
    var (before, end) := Rounds(Start(nodes, containers, numFrameworks), Capacity(nodes), n - 1);
    if end == Finished {
      EveryLoopHead(nodes, containers, numFrameworks, n - 1);
      LargestBounds(containers, Capacity(nodes));
      RoundKeepsInv(before, Capacity(nodes));
      RoundKeepsFairness(before, Capacity(nodes), Largest(containers, Capacity(nodes)));
    } else {
      OutOfRoomIsReal(nodes, containers, numFrameworks, n - 1);
    }
  }

  // ---------- When the loop crashes ----------

  lemma {:induction false} EndIsFinal(s: State, capacity: Vec, n: nat, m: nat)
    requires capacity.cpu > 0 && capacity.bw > 0 && n <= m && Rounds(s, capacity, n).1 != Finished
    ensures Rounds(s, capacity, m) == Rounds(s, capacity, n)
  {
    if n < m { EndIsFinal(s, capacity, n, m - 1); }
  }

  /** The round that ended the loop. */
  lemma {:induction false} EndsBefore(s: State, capacity: Vec, n: nat) returns (k: nat)
    requires capacity.cpu > 0 && capacity.bw > 0 && Rounds(s, capacity, n).1 != Finished
    ensures k < n && Rounds(s, capacity, k).1 == Finished && !Round(Rounds(s, capacity, k).0, capacity).1.Placed?
  {
    if Rounds(s, capacity, n - 1).1 == Finished {
      k := n - 1;
    } else {
      k := EndsBefore(s, capacity, n - 1);
    }
  }

  lemma CrashHasRound(s: State, capacity: Vec, n: nat) returns (k: nat)
    requires capacity.cpu > 0 && capacity.bw > 0 && Rounds(s, capacity, n).1 == Crash
    ensures k < n && Rounds(s, capacity, k).1 == Finished && Round(Rounds(s, capacity, k).0, capacity).1.Crashed?
  {
    k := EndsBefore(s, capacity, n);
    EndIsFinal(s, capacity, k + 1, n);
  }

  lemma CrashMeansHandedOut(nodes: seq<Vec>, containers: seq<Vec>, numFrameworks: nat, n: nat)
    requires Setting(nodes, containers) && numFrameworks > 0
    requires Rounds(Start(nodes, containers, numFrameworks), Capacity(nodes), n).1 == Crash
    ensures HandedOut(numFrameworks, |containers|) < n
    ensures var m := HandedOut(numFrameworks, |containers|);
            Rounds(Start(nodes, containers, numFrameworks), Capacity(nodes), m).1 == Finished
  {
    var start, cap := Start(nodes, containers, numFrameworks), Capacity(nodes);
    StartWaits(containers, numFrameworks);
    var k := CrashHasRound(start, cap, n);
    EveryLoopHead(nodes, containers, numFrameworks, k);
    RoundTakesOne(Rounds(start, cap, k).0, cap);
  }

  lemma NothingLeftThenCrash(s: State, capacity: Vec, m: nat, n: nat)
    requires m < n && capacity.cpu > 0 && capacity.bw > 0
    requires Rounds(s, capacity, m).1 == Finished
    requires Inv(Rounds(s, capacity, m).0, capacity) && Waiting(Rounds(s, capacity, m).0.frameworks) == 0
    ensures Rounds(s, capacity, n).1 == Crash
  {
    RoundTakesOne(Rounds(s, capacity, m).0, capacity);
    EndIsFinal(s, capacity, m + 1, n);
  }

  lemma HandedOutThenCrash(nodes: seq<Vec>, containers: seq<Vec>, numFrameworks: nat, n: nat)
    requires Setting(nodes, containers) && numFrameworks > 0
    requires HandedOut(numFrameworks, |containers|) < n
    requires var m := HandedOut(numFrameworks, |containers|);
             Rounds(Start(nodes, containers, numFrameworks), Capacity(nodes), m).1 == Finished
    ensures Rounds(Start(nodes, containers, numFrameworks), Capacity(nodes), n).1 == Crash
  {
    var start, cap := Start(nodes, containers, numFrameworks), Capacity(nodes);
    var m := HandedOut(numFrameworks, |containers|);
    StartWaits(containers, numFrameworks);
    EveryLoopHead(nodes, containers, numFrameworks, m);
    NothingLeftThenCrash(start, cap, m, n);
  }

  /**
    The loop runs once per container, but the frameworks only receive equal parts.  Whatever the nodes,
    it crashes exactly when the number of frameworks does not divide the number of containers and all
    the containers that were handed out found room.
   */
  lemma CrashesIff(nodes: seq<Vec>, containers: seq<Vec>, numFrameworks: nat)
    requires Setting(nodes, containers) && numFrameworks > 0
    ensures var start, cap := Start(nodes, containers, numFrameworks), Capacity(nodes);
      Rounds(start, cap, |containers|).1 == Crash <==>
        && |containers| % numFrameworks != 0
        && Rounds(start, cap, HandedOut(numFrameworks, |containers|)).1 == Finished
  {
    var start, cap := Start(nodes, containers, numFrameworks), Capacity(nodes);
    var m := HandedOut(numFrameworks, |containers|);
    HandedOutRest(numFrameworks, |containers|);
    if Rounds(start, cap, |containers|).1 == Crash {
      CrashMeansHandedOut(nodes, containers, numFrameworks, |containers|);
    } else if |containers| % numFrameworks != 0 && Rounds(start, cap, m).1 == Finished {
      HandedOutThenCrash(nodes, containers, numFrameworks, |containers|);
    }
  }

  // ---------- The program ----------

  function Amount(i: nat): Resource { if i == 0 then CPU else BW }

  class DrfScheduler {
    var nodeList: seq<Vec>
    var frameworkList: seq<Framework>

    ghost function View(): State
      reads this
    {
      State(nodeList, frameworkList)
    }

    constructor (nodes: seq<Vec>, containers: seq<Vec>, numFrameworks: nat)
      ensures View() == Start(nodes, containers, numFrameworks)
    {
      nodeList := nodes;
      var frameworks: seq<Framework> := [];
      for i := 0 to numFrameworks
        invariant frameworks == SplitEvenly(containers, numFrameworks)[..i]
      {
        SliceInRange(i, numFrameworks, |containers|);
        var q := |containers| / numFrameworks;
        frameworks := frameworks + [Framework(0.0, Shares(0.0, 0.0), None, containers[i * q..(i + 1) * q])];
      }
      frameworkList := frameworks;
    }

    method RefreshDemands()
      modifies this`frameworkList
      ensures frameworkList == Refresh(old(frameworkList))
    {
      for i := 0 to |frameworkList|
        invariant |frameworkList| == |old(frameworkList)|
        invariant forall j :: 0 <= j < |frameworkList| ==>
          frameworkList[j] == if j < i then Refreshed(old(frameworkList)[j]) else old(frameworkList)[j]
      {
        var f := frameworkList[i];
        frameworkList := frameworkList[i := f.(demand := if f.pending != [] then Some(f.pending[0]) else None)];
      }
    }

    /** Select a framework, charge it, and take its next container; None when an empty list would be indexed. */
    method CalculateShare(capacity: Vec) returns (selected: Option<Vec>)
      requires capacity.cpu > 0 && capacity.bw > 0
      requires frameworkList == Refresh(frameworkList)
      modifies this`frameworkList
      ensures var fs := old(frameworkList);
              var k := Scan(fs, |fs|).0;
              if k < |fs| && fs[k].demand.Some?
              then selected == fs[k].demand && frameworkList == fs[k := Charged(fs[k], capacity)]
              else selected.None? && frameworkList == fs
    {
      var best, share := 0, 1.0;
      for i := 0 to |frameworkList|
        invariant (best, share) == Scan(frameworkList, i)
      {
        if frameworkList[i].dominant <= share && frameworkList[i].demand.Some? {
          best, share := i, frameworkList[i].dominant;
        }
      }
      if best >= |frameworkList| || frameworkList[best].demand.None? {
        return None;
      }
      var f := frameworkList[best];
      assert f == Refreshed(f);
      var request := f.demand.value;
      var maxShare := 0.0;
      var shares := f.share;
      for i := 0 to 2
        invariant shares.cpu == if i > 0 then ChargedShares(f.share, request, capacity).cpu else f.share.cpu
        invariant shares.bw == if i > 1 then ChargedShares(f.share, request, capacity).bw else f.share.bw
        invariant maxShare == if i == 0 then 0.0
                              else if i == 1 then Max(0.0, shares.cpu) else Max(Max(0.0, shares.cpu), shares.bw)
      {
        var r := Amount(i);
        var charged := shares.At(r) + request.At(r) as real / capacity.At(r) as real;
        shares := if r == CPU then shares.(cpu := charged) else shares.(bw := charged);
        if maxShare < charged {
          maxShare := charged;
        }
      }
      selected := Some(f.pending[0]);
      frameworkList := frameworkList[best := Framework(maxShare, shares, f.demand, f.pending[1..])];
    }

    /** The nodes with room, in order. */
    method SelectNode(c: Vec) returns (fitting: seq<nat>)
      ensures forall i :: i in fitting <==> 0 <= i < |nodeList| && c.FitsIn(nodeList[i])
      ensures forall i, j :: 0 <= i < j < |fitting| ==> fitting[i] < fitting[j]
    {
      fitting := [];
      for i := 0 to |nodeList|
        invariant forall j :: j in fitting <==> 0 <= j < i && c.FitsIn(nodeList[j])
        invariant forall j :: 0 <= j < |fitting| ==> fitting[j] < i
        invariant forall j, k :: 0 <= j < k < |fitting| ==> fitting[j] < fitting[k]
      {
        if nodeList[i].cpu >= c.cpu && nodeList[i].bw >= c.bw {
          fitting := fitting + [i];
        }
      }
    }

    method OneRound(capacity: Vec) returns (outcome: Outcome)
      requires capacity.cpu > 0 && capacity.bw > 0
      modifies this
      ensures (View(), outcome) == Round(old(View()), capacity)
    {
      RefreshDemands();
      var fs := frameworkList;
      var selected := CalculateShare(capacity);
      if |fs| > 0 { ScanInRange(fs, |fs|); }
      if selected.None? {
        return Crashed;
      }
      var c := selected.value;
      var fitting := SelectNode(c);
      FirstFitExact(nodeList, c, 0);
      if fitting == [] {
        assert forall i :: 0 <= i < |nodeList| ==> i !in fitting;
        return NoRoom(c);
      }
      var key := fitting[0];
      assert key in fitting && FirstFit(nodeList, c, 0) == Some(key);
      nodeList := nodeList[key := nodeList[key].Minus(c)];
      return Placed(key, c);
    }

    method Run(capacity: Vec, numContainers: nat) returns (end: End)
      requires capacity.cpu > 0 && capacity.bw > 0
      modifies this
      ensures (View(), end) == Rounds(old(View()), capacity, numContainers)
    {
      end := Finished;
      ghost var start := View();
      var i := 0;
      while i < numContainers && end == Finished
        invariant i <= numContainers
        invariant (View(), end) == Rounds(start, capacity, i)
        decreases numContainers - i
      {
        var outcome := OneRound(capacity);
        match outcome {
          case Crashed => end := Crash;
          case NoRoom(c) => end := OutOfRoom(c);
          case Placed(_, _) =>
        }
        i := i + 1;
      }
      if end != Finished {
        EndIsFinal(start, capacity, i, numContainers);
      }
    }
  }
}
