/**
  The DRF allocator of the scheduling simulation: each round charges one container to the framework
  with the smallest dominant share and places it on the first node with room.  Python floats are reals.
 */
module Drf {
  import opened Wrappers
  import opened Resources

  datatype Shares = Shares(cpu: real, bw: real) {
    function At(r: Resource): real { if r == CPU then cpu else bw }
  }

  /** `demand` is the head of the pending list as of the last refresh; None stands for the empty list. */
  datatype Framework = Framework(dominant: real, share: Shares, demand: Option<Vec>, pending: seq<Vec>)

  datatype State = State(nodes: seq<Vec>, frameworks: seq<Framework>)

  datatype Outcome = Crashed | NoRoom(container: Vec) | Placed(node: nat, container: Vec)

  // ---------- One round ----------

  function Max(a: real, b: real): real { if a < b then b else a }

  function Refreshed(f: Framework): Framework {
    f.(demand := if f.pending == [] then None else Some(f.pending[0]))
  }

  function Refresh(fs: seq<Framework>): seq<Framework> {
    seq(|fs|, i requires 0 <= i < |fs| => Refreshed(fs[i]))
  }

  /** The scan of calculateShare over the first n frameworks: the selected one and the share to beat. */
  function Scan(fs: seq<Framework>, n: nat): (nat, real)
    requires n <= |fs|
  {
    if n == 0 then (0, 1.0)
    else
      var (best, share) := Scan(fs, n - 1);
      if fs[n - 1].dominant <= share && fs[n - 1].demand.Some? then (n - 1, fs[n - 1].dominant) else (best, share)
  }

  function ChargedShares(s: Shares, c: Vec, capacity: Vec): Shares
    requires capacity.cpu > 0 && capacity.bw > 0
  {
    Shares(s.cpu + c.cpu as real / capacity.cpu as real, s.bw + c.bw as real / capacity.bw as real)
  }

  /** The framework after one container has been charged to it and taken from its list. */
  function Charged(f: Framework, capacity: Vec): Framework
    requires capacity.cpu > 0 && capacity.bw > 0 && f.demand.Some? && f.pending != []
  {
    var s := ChargedShares(f.share, f.demand.value, capacity);
    Framework(Max(Max(0.0, s.cpu), s.bw), s, f.demand, f.pending[1..])
  }

  /** The first node with room, if any. */
  function FirstFit(nodes: seq<Vec>, c: Vec, from: nat): Option<nat>
    requires from <= |nodes|
    decreases |nodes| - from
  {
    if from == |nodes| then None
    else if c.FitsIn(nodes[from]) then Some(from)
    else FirstFit(nodes, c, from + 1)
  }

  /** One round of the placement loop; indexing an empty demand list, or no framework at all, ends the program. */
  function Round(s: State, capacity: Vec): (State, Outcome)
    requires capacity.cpu > 0 && capacity.bw > 0
  {
    var fs := Refresh(s.frameworks);
    if fs == [] then (s, Crashed)
    else
      var i := Scan(fs, |fs|).0;
      ScanInRange(fs, |fs|);
      if fs[i].demand.None? then (s.(frameworks := fs), Crashed)
      else
        var c := fs[i].pending[0];
        var charged := fs[i := Charged(fs[i], capacity)];
        var node := FirstFit(s.nodes, c, 0);
        FirstFitExact(s.nodes, c, 0);
        if node.None? then (State(s.nodes, charged), NoRoom(c))
        else (State(s.nodes[node.value := s.nodes[node.value].Minus(c)], charged), Placed(node.value, c))
  }

  lemma {:induction false} ScanInRange(fs: seq<Framework>, n: nat)
    requires 0 < |fs| && n <= |fs|
    ensures Scan(fs, n).0 < |fs|
  {
    if n > 0 { ScanInRange(fs, n - 1); }
  }

  lemma {:induction false} FirstFitExact(nodes: seq<Vec>, c: Vec, from: nat)
    requires from <= |nodes|
    ensures FirstFit(nodes, c, from).None? <==> forall i :: from <= i < |nodes| ==> !c.FitsIn(nodes[i])
    ensures FirstFit(nodes, c, from).Some? ==>
      var i := FirstFit(nodes, c, from).value;
      from <= i < |nodes| && c.FitsIn(nodes[i]) && forall j :: from <= j < i ==> !c.FitsIn(nodes[j])
    decreases |nodes| - from
  {
    if from < |nodes| { FirstFitExact(nodes, c, from + 1); }
  }

  /** Some framework wants a container and its share is at most the sentinel: the scan finds the true minimum. */
  lemma {:induction false} ScanFindsMinimum(fs: seq<Framework>, n: nat)
    requires n <= |fs|
    requires forall i :: 0 <= i < n && fs[i].demand.Some? ==> fs[i].dominant <= 1.0
    ensures var (best, share) := Scan(fs, n);
      && (forall i :: 0 <= i < n && fs[i].demand.Some? ==>
            best < n && fs[best].demand.Some? && fs[best].dominant == share <= fs[i].dominant
            && (i > best ==> share < fs[i].dominant))
      && ((forall i :: 0 <= i < n ==> fs[i].demand.None?) ==> best == 0 && share == 1.0)
  {
    if n > 0 { ScanFindsMinimum(fs, n - 1); }
  }

  // ---------- The invariant of the placement loop ----------

  /** The amount of a resource that a share stands for. */
  function Grant(share: real, capacity: int): real { share * capacity as real }

  /** The amount of a resource granted to all frameworks together. */
  function Granted(fs: seq<Framework>, capacity: int, r: Resource): real {
    if fs == [] then 0.0
    else Granted(fs[..|fs| - 1], capacity, r) + Grant(fs[|fs| - 1].share.At(r), capacity)
  }

  lemma {:induction false} GrantedAfterWrite(fs: seq<Framework>, i: nat, f: Framework, capacity: int, r: Resource)
    requires i < |fs|
    ensures Granted(fs[i := f], capacity, r)
         == Granted(fs, capacity, r) + Grant(f.share.At(r), capacity) - Grant(fs[i].share.At(r), capacity)
  {
    var n := |fs| - 1;
    if i == n {
      assert fs[i := f][..n] == fs[..n];
    } else {
      assert fs[i := f][..n] == fs[..n][i := f];
      GrantedAfterWrite(fs[..n], i, f, capacity, r);
    }
  }

  lemma {:induction false} GrantedSame(a: seq<Framework>, b: seq<Framework>, capacity: int, r: Resource)
    requires |a| == |b| && forall i :: 0 <= i < |a| ==> a[i].share == b[i].share
    ensures Granted(a, capacity, r) == Granted(b, capacity, r)
  {
    if a != [] { GrantedSame(a[..|a| - 1], b[..|b| - 1], capacity, r); }
  }

  lemma GrantNonNegative(share: real, capacity: int)
    requires share >= 0.0 && capacity > 0
    ensures Grant(share, capacity) >= 0.0
    ensures Grant(share, capacity) <= capacity as real ==> share <= 1.0
  {
    if share > 1.0 { assert (share - 1.0) * capacity as real > 0.0; }
  }

  lemma {:induction false} GrantedAtLeast(fs: seq<Framework>, i: nat, capacity: int, r: Resource)
    requires capacity > 0 && forall f <- fs :: f.share.At(r) >= 0.0
    ensures Granted(fs, capacity, r) >= 0.0
    ensures i < |fs| ==> Grant(fs[i].share.At(r), capacity) <= Granted(fs, capacity, r)
  {
    if fs != [] {
      GrantedAtLeast(fs[..|fs| - 1], i, capacity, r);
      GrantNonNegative(fs[|fs| - 1].share.At(r), capacity);
    }
  }

  /** A framework's dominant share is the larger of its two shares. */
  ghost predicate SharesOk(f: Framework) {
    f.share.cpu >= 0.0 && f.share.bw >= 0.0 && f.dominant == Max(f.share.cpu, f.share.bw)
  }

  /** What has been granted and the room left add up to the capacity. */
  ghost predicate Conserved(s: State, capacity: Vec, r: Resource, rejected: int) {
    Granted(s.frameworks, capacity.At(r), r) + Total(s.nodes, r) as real == (capacity.At(r) + rejected) as real
  }

  ghost predicate Inv(s: State, capacity: Vec) {
    && capacity.cpu > 0 && capacity.bw > 0
    && NonNegative(s.nodes)
    && (forall f <- s.frameworks :: SharesOk(f) && NonNegative(f.pending))
    && Conserved(s, capacity, CPU, 0) && Conserved(s, capacity, BW, 0)
  }

  /** The larger of the two fractions of the capacity that a container asks for. */
  function Fraction(c: Vec, capacity: Vec): real
    requires capacity.cpu > 0 && capacity.bw > 0
  {
    Max(c.cpu as real / capacity.cpu as real, c.bw as real / capacity.bw as real)
  }

  /** No single container takes more than the fraction d of either resource. */
  ghost predicate AtMostFraction(fs: seq<Framework>, capacity: Vec, d: real)
    requires capacity.cpu > 0 && capacity.bw > 0
  {
    forall f <- fs, c <- f.pending :: Fraction(c, capacity) <= d
  }

  /** No framework is ahead of a framework that still waits by more than one container. */
  ghost predicate Fair(fs: seq<Framework>, d: real) {
    forall i, j :: 0 <= i < |fs| && 0 <= j < |fs| && fs[j].pending != [] ==> fs[i].dominant <= fs[j].dominant + d
  }

  /** Every share is a fraction of the whole, so the sentinel 1 hides no framework. */
  lemma ShareAtMostOne(s: State, capacity: Vec, i: nat, r: Resource)
    requires Inv(s, capacity) && i < |s.frameworks|
    ensures s.frameworks[i].share.At(r) <= 1.0
  {
    GrantedAtLeast(s.frameworks, i, capacity.At(r), r);
    TotalNonNegative(s.nodes, r);
    assert Conserved(s, capacity, r, 0);
    GrantNonNegative(s.frameworks[i].share.At(r), capacity.At(r));
  }

  lemma RefreshKeepsInv(s: State, capacity: Vec)
    requires Inv(s, capacity)
    ensures Inv(s.(frameworks := Refresh(s.frameworks)), capacity)
  {
    GrantedSame(s.frameworks, Refresh(s.frameworks), capacity.cpu, CPU);
    GrantedSame(s.frameworks, Refresh(s.frameworks), capacity.bw, BW);
  }

  /** The framework chosen by a round is waiting, and no waiting framework has a smaller dominant share. */
  lemma ChoiceIsMinimal(s: State, capacity: Vec, j: nat)
    requires Inv(s, capacity) && j < |s.frameworks| && s.frameworks[j].pending != []
    ensures var i := Scan(Refresh(s.frameworks), |s.frameworks|).0;
      i < |s.frameworks| && s.frameworks[i].pending != [] && s.frameworks[i].dominant <= s.frameworks[j].dominant
  {
    var fs := Refresh(s.frameworks);
    forall i | 0 <= i < |fs| && fs[i].demand.Some? ensures fs[i].dominant <= 1.0 {
      ShareAtMostOne(s, capacity, i, CPU);
      ShareAtMostOne(s, capacity, i, BW);
    }
    ScanFindsMinimum(fs, |fs|);
    assert fs[j].demand.Some?;
  }

  lemma ChargeArithmetic(share: real, c: int, cap: int)
    requires cap > 0 && c >= 0 && share >= 0.0
    ensures var s := share + c as real / cap as real;
            s >= share && Grant(s, cap) == Grant(share, cap) + c as real
  {
    var q := c as real / cap as real;
    assert q * cap as real == c as real;
    assert q >= 0.0;
  }

  /** Charging a container to the chosen framework grants exactly its request. */
  lemma ChargeConserves(fs: seq<Framework>, i: nat, capacity: Vec, r: Resource)
    requires capacity.cpu > 0 && capacity.bw > 0
    requires i < |fs| && fs[i].demand.Some? && fs[i].pending != [] && fs[i].demand.value == fs[i].pending[0]
    requires SharesOk(fs[i]) && NonNegative(fs[i].pending)
    ensures Granted(fs[i := Charged(fs[i], capacity)], capacity.At(r), r)
         == Granted(fs, capacity.At(r), r) + fs[i].pending[0].At(r) as real
  {
    GrantedAfterWrite(fs, i, Charged(fs[i], capacity), capacity.At(r), r);
    assert fs[i].pending[0] in fs[i].pending;
    ChargeArithmetic(fs[i].share.At(r), fs[i].pending[0].At(r), capacity.At(r));
  }

  lemma ChargedIsOk(f: Framework, capacity: Vec)
    requires capacity.cpu > 0 && capacity.bw > 0
    requires f.demand.Some? && f.pending != [] && f.demand.value == f.pending[0]
    requires SharesOk(f) && NonNegative(f.pending)
    ensures SharesOk(Charged(f, capacity)) && NonNegative(Charged(f, capacity).pending)
    ensures f.dominant <= Charged(f, capacity).dominant <= f.dominant + Fraction(f.pending[0], capacity)
  {
    assert f.pending[0] in f.pending;
    ChargeArithmetic(f.share.cpu, f.pending[0].cpu, capacity.cpu);
    ChargeArithmetic(f.share.bw, f.pending[0].bw, capacity.bw);
  }

  /** What a round does in terms of the state before it. */
  lemma RoundKeepsInv(s: State, capacity: Vec)
    requires Inv(s, capacity)
    ensures var (s', outcome) := Round(s, capacity);
      && |s'.frameworks| == |s.frameworks| && |s'.nodes| == |s.nodes|
      && (outcome.Placed? ==> Inv(s', capacity))
      && (outcome.NoRoom? ==>
            && s'.nodes == s.nodes
            && Conserved(s', capacity, CPU, outcome.container.cpu)
            && Conserved(s', capacity, BW, outcome.container.bw)
            && forall n <- s.nodes :: !outcome.container.FitsIn(n))
  {
    RefreshKeepsInv(s, capacity);
    var fs := Refresh(s.frameworks);
    var (s', outcome) := Round(s, capacity);
    if !outcome.Crashed? {
      ScanInRange(fs, |fs|);
      var i := Scan(fs, |fs|).0;
      assert fs[i] in fs && SharesOk(fs[i]) && fs[i].demand.value == fs[i].pending[0];
      ChargeConserves(fs, i, capacity, CPU);
      ChargeConserves(fs, i, capacity, BW);
      ChargedIsOk(fs[i], capacity);
      FirstFitExact(s.nodes, outcome.container, 0);
      if outcome.Placed? {
        TotalAfterWrite(s.nodes, outcome.node, s.nodes[outcome.node].Minus(outcome.container), CPU);
        TotalAfterWrite(s.nodes, outcome.node, s.nodes[outcome.node].Minus(outcome.container), BW);
      }
    }
  }

  /** A round crashes exactly when no framework waits. */
  lemma CrashIff(s: State, capacity: Vec)
    requires Inv(s, capacity)
    ensures Round(s, capacity).1.Crashed? <==> forall f <- s.frameworks :: f.pending == []
  {
    var fs := Refresh(s.frameworks);
    if fs != [] {
      ScanInRange(fs, |fs|);
      assert s.frameworks[Scan(fs, |fs|).0] in s.frameworks;
    }
    if j :| 0 <= j < |s.frameworks| && s.frameworks[j].pending != [] {
      ChoiceIsMinimal(s, capacity, j);
    }
  }

  /** Containers only leave the pending lists. */
  lemma RoundOnlyTakes(s: State, capacity: Vec, i: nat)
    requires Inv(s, capacity) && i < |s.frameworks|
    ensures var (s', outcome) := Round(s, capacity);
      && |s'.frameworks| == |s.frameworks|
      && (forall c <- s'.frameworks[i].pending :: c in s.frameworks[i].pending)
      && s.frameworks[i].dominant <= s'.frameworks[i].dominant
  {
    var fs := Refresh(s.frameworks);
    if !Round(s, capacity).1.Crashed? {
      ScanInRange(fs, |fs|);
      var k := Scan(fs, |fs|).0;
      assert s.frameworks[k] in s.frameworks;
      ChargedIsOk(fs[k], capacity);
    }
  }

  /** Only the chosen framework moves ahead, and by at most the fraction it was charged. */
  lemma RoundMovesOne(s: State, capacity: Vec, d: real, i: nat)
    requires Inv(s, capacity) && AtMostFraction(s.frameworks, capacity, d) && i < |s.frameworks|
    ensures var (s', outcome) := Round(s, capacity);
      var k := Scan(Refresh(s.frameworks), |s.frameworks|).0;
      && |s'.frameworks| == |s.frameworks|
      && s'.frameworks[i].dominant <= s.frameworks[i].dominant + if i == k && !outcome.Crashed? then d else 0.0
  {
    var fs := Refresh(s.frameworks);
    if !Round(s, capacity).1.Crashed? {
      ScanInRange(fs, |fs|);
      var k := Scan(fs, |fs|).0;
      assert s.frameworks[k] in s.frameworks && fs[k].pending[0] in s.frameworks[k].pending;
      ChargedIsOk(fs[k], capacity);
    }
  }

  lemma RoundKeepsFairness(s: State, capacity: Vec, d: real)
    requires Inv(s, capacity) && AtMostFraction(s.frameworks, capacity, d) && d >= 0.0 && Fair(s.frameworks, d)
    ensures Fair(Round(s, capacity).0.frameworks, d)
    ensures AtMostFraction(Round(s, capacity).0.frameworks, capacity, d)
  {
    var fs, fs' := s.frameworks, Round(s, capacity).0.frameworks;
    forall i | 0 <= i < |fs|
      ensures |fs'| == |fs| && fs[i].dominant <= fs'[i].dominant
      ensures forall c <- fs'[i].pending :: c in fs[i].pending
    {
      RoundOnlyTakes(s, capacity, i);
    }
    forall i, j | 0 <= i < |fs'| && 0 <= j < |fs'| && fs'[j].pending != []
      ensures fs'[i].dominant <= fs'[j].dominant + d
    {
      RoundOnlyTakes(s, capacity, j);
      assert fs[j].pending != [] by { assert fs'[j].pending[0] in fs[j].pending; }
      RoundMovesOne(s, capacity, d, i);
      ChoiceIsMinimal(s, capacity, j);
    }
    forall f, c | f in fs' && c in f.pending ensures Fraction(c, capacity) <= d {
      var i :| 0 <= i < |fs'| && fs'[i] == f;
      RoundOnlyTakes(s, capacity, i);
      assert fs[i] in fs && c in fs[i].pending;
    }
  }

  /** The head of the list is gone, the shares have grown by its fractions, and the larger share is dominant. */
  ghost predicate ChargedWith(f: Framework, f': Framework, c: Vec, capacity: Vec)
    requires capacity.cpu > 0 && capacity.bw > 0
  {
    && f.pending == [c] + f'.pending
    && f'.share.cpu == f.share.cpu + c.cpu as real / capacity.cpu as real
    && f'.share.bw == f.share.bw + c.bw as real / capacity.bw as real
    && f'.dominant == (if f'.share.cpu >= f'.share.bw then f'.share.cpu else f'.share.bw)
  }

  ghost predicate Untouched(f: Framework, f': Framework) {
    f'.pending == f.pending && f'.share == f.share && f'.dominant == f.dominant
  }

  /** A round charges the head of one framework's list to it, and if it is placed, takes it from one node. */
  lemma RoundEffect(s: State, capacity: Vec) returns (k: nat)
    requires Inv(s, capacity) && !Round(s, capacity).1.Crashed?
    ensures var (s', outcome) := Round(s, capacity);
      && k < |s.frameworks| == |s'.frameworks| && |s'.nodes| == |s.nodes|
      && ChargedWith(s.frameworks[k], s'.frameworks[k], outcome.container, capacity)
      && (forall i :: 0 <= i < |s.frameworks| && i != k ==> Untouched(s.frameworks[i], s'.frameworks[i]))
      && (outcome.NoRoom? ==> s'.nodes == s.nodes)
      && (outcome.Placed? ==>
            && outcome.node < |s.nodes|
            && s'.nodes[outcome.node].cpu == s.nodes[outcome.node].cpu - outcome.container.cpu
            && s'.nodes[outcome.node].bw == s.nodes[outcome.node].bw - outcome.container.bw
            && forall i :: 0 <= i < |s.nodes| && i != outcome.node ==> s'.nodes[i] == s.nodes[i])
  {
    var fs := Refresh(s.frameworks);
    ScanInRange(fs, |fs|);
    k := Scan(fs, |fs|).0;
    assert s.frameworks[k] in s.frameworks;
    ChargedIsOk(fs[k], capacity);
    FirstFitExact(s.nodes, fs[k].pending[0], 0);
  }
}
