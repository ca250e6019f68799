/**
  Stella's credit allocator: the list of container vifs, the ledger of their weights, the CPU shares
  that the weights stand for, and the once-a-second pass that adjusts every container's quota.
 */
module VifAllocator {
  import opened QuotaControl

  // ---------- The weight ledger ----------

  /** `total` is an unsigned 32-bit counter, kept by differences; `num` counts the vifs. */
  datatype Ledger = Ledger(weights: seq<nat>, total: nat, num: int)

  datatype LedgerEvent = NewVif | DelVif(i: nat) | WriteWeight(i: nat, value: nat)

  function Sum(ws: seq<nat>): nat {
    if ws == [] then 0 else Sum(ws[..|ws| - 1]) + ws[|ws| - 1]
  }

  /** Events about a vif that is not in the list do not happen. */
  function LedgerStep(l: Ledger, e: LedgerEvent): Ledger {
    match e
    case NewVif => Ledger([1] + l.weights, U32(l.total + 1), l.num + 1)
    case DelVif(i) =>
      if i >= |l.weights| then l
      else Ledger(l.weights[..i] + l.weights[i + 1..], U32(l.total - l.weights[i]), l.num - 1)
    case WriteWeight(i, value) =>
      if i >= |l.weights| then l
      else l.(weights := l.weights[i := U32(value)], total := U32(l.total + U32(U32(value) - l.weights[i])))
  }

  function LedgerRun(events: seq<LedgerEvent>): Ledger {
    if events == [] then Ledger([], 0, 0)
    else LedgerStep(LedgerRun(events[..|events| - 1]), events[|events| - 1])
  }

  ghost predicate LedgerOk(l: Ledger) {
    l.total == U32(Sum(l.weights)) && l.num == |l.weights|
  }

  lemma {:induction false} SumConcat(a: seq<nat>, b: seq<nat>)
    ensures Sum(a + b) == Sum(a) + Sum(b)
  {
    if b == [] {
      assert a + b == a;
    } else {
      assert (a + b)[..|a + b| - 1] == a + b[..|b| - 1];
      SumConcat(a, b[..|b| - 1]);
    }
  }

  lemma SumOne(x: nat)
    ensures Sum([x]) == x
  {
    assert [x][..0] == [];
  }

  lemma SumParts(a: seq<nat>, x: nat, b: seq<nat>)
    ensures Sum(a + [x] + b) == Sum(a) + x + Sum(b)
  {
    SumConcat(a + [x], b);
    SumConcat(a, [x]);
    SumOne(x);
  }

  lemma SumAt(ws: seq<nat>, i: nat)
    requires i < |ws|
    ensures Sum(ws) == Sum(ws[..i]) + ws[i] + Sum(ws[i + 1..])
  {
    SumParts(ws[..i], ws[i], ws[i + 1..]);
    assert ws == ws[..i] + [ws[i]] + ws[i + 1..];
  }

  lemma U32Shift(x: int, q: int)
    ensures U32(x + TWO32 * q) == U32(x)
  {
    assert x == TWO32 * (x / TWO32) + U32(x);
    assert x + TWO32 * q == TWO32 * (x / TWO32 + q) + U32(x);
  }

  lemma U32Absorbs(a: int, b: int)
    ensures U32(U32(a) + b) == U32(a + b)
    ensures U32(a + U32(b)) == U32(a + b)
  {
    U32Shift(a + b, -(a / TWO32));
    U32Shift(a + b, -(b / TWO32));
    assert U32(a) + b == a + b + TWO32 * -(a / TWO32);
    assert a + U32(b) == a + b + TWO32 * -(b / TWO32);
  }

  lemma DeleteKeeps(l: Ledger, i: nat)
    requires LedgerOk(l) && i < |l.weights|
    ensures LedgerOk(LedgerStep(l, DelVif(i)))
  {
    SumAt(l.weights, i);
    SumConcat(l.weights[..i], l.weights[i + 1..]);
    var weight: int := l.weights[i];
    U32Absorbs(Sum(l.weights), -weight);
  }

  lemma WriteSum(ws: seq<nat>, i: nat, weight: nat)
    requires i < |ws|
    ensures Sum(ws[i := weight]) == Sum(ws) + weight - ws[i]
  {
    var ws' := ws[i := weight];
    SumAt(ws, i);
    SumAt(ws', i);
    assert ws'[..i] == ws[..i] && ws'[i + 1..] == ws[i + 1..];
  }

  lemma CounterFollows(sum: int, after: int, before: int)
    ensures U32(U32(sum) + U32(after - before)) == U32(sum + (after - before))
  {
    U32Absorbs(sum, U32(after - before));
    U32Absorbs(sum, after - before);
  }

  lemma WriteKeeps(l: Ledger, i: nat, value: nat)
    requires LedgerOk(l) && i < |l.weights|
    ensures LedgerOk(LedgerStep(l, WriteWeight(i, value)))
  {
    var weight := U32(value);
    WriteSum(l.weights, i, weight);
    CounterFollows(Sum(l.weights), weight, l.weights[i]);
  }

  lemma LedgerStepKeeps(l: Ledger, e: LedgerEvent)
    requires LedgerOk(l)
    ensures LedgerOk(LedgerStep(l, e))
  {
    match e
    case NewVif =>
      SumConcat([1], l.weights);
      U32Absorbs(Sum(l.weights), 1);
    case DelVif(i) => if i < |l.weights| { DeleteKeeps(l, i); }
    case WriteWeight(i, value) => if i < |l.weights| { WriteKeeps(l, i, value); }
  }

  /** In every run the counter is the sum of the live weights modulo 2^32, and the number of vifs is right. */
  lemma {:induction false} LedgerIsExact(events: seq<LedgerEvent>)
    ensures LedgerOk(LedgerRun(events))
    ensures Sum(LedgerRun(events).weights) < TWO32 ==> LedgerRun(events).total == Sum(LedgerRun(events).weights)
  {
    if events != [] {
      LedgerIsExact(events[..|events| - 1]);
      LedgerStepKeeps(LedgerRun(events[..|events| - 1]), events[|events| - 1]);
    }
  }

  lemma NextLedger(events: seq<LedgerEvent>, e: LedgerEvent)
    ensures LedgerRun(events + [e]) == LedgerStep(LedgerRun(events), e)
  {
    assert (events + [e])[..|events|] == events;
  }

  /** A new vif has weight 1 and is the first. */
  lemma NewVifEffect(events: seq<LedgerEvent>)
    ensures var ws, ws' := LedgerRun(events).weights, LedgerRun(events + [NewVif]).weights;
      |ws'| == |ws| + 1 && ws'[0] == 1 && forall j :: 0 <= j < |ws| ==> ws'[j + 1] == ws[j]
  {
    NextLedger(events, NewVif);
  }

  /** A removed vif is gone, and no other. */
  lemma DelVifEffect(events: seq<LedgerEvent>, i: nat)
    requires i < |LedgerRun(events).weights|
    ensures var ws, ws' := LedgerRun(events).weights, LedgerRun(events + [DelVif(i)]).weights;
      |ws'| == |ws| - 1 && forall j :: 0 <= j < |ws'| ==> ws'[j] == if j < i then ws[j] else ws[j + 1]
  {
    NextLedger(events, DelVif(i));
  }

  /** The weight written is the weight read, modulo 2^32; no other changes. */
  lemma WriteWeightEffect(events: seq<LedgerEvent>, i: nat, value: nat)
    requires i < |LedgerRun(events).weights|
    ensures var ws, ws' := LedgerRun(events).weights, LedgerRun(events + [WriteWeight(i, value)]).weights;
      && |ws'| == |ws| && ws'[i] == value % 0x1_0000_0000
      && forall j :: 0 <= j < |ws| && j != i ==> ws'[j] == ws[j]
  {
    NextLedger(events, WriteWeight(i, value));
  }

  // ---------- CPU shares ----------

  /** cpu_control's quota for one vif, in unsigned arithmetic. */
  function MachineShare(period: nat, weight: nat, total: nat): int
    requires total > 0
  {
    S32(Div(U32(U32(period * weight) + U32(total - 1)), total))
  }

  function Shares(period: nat, ws: seq<nat>, total: nat): int
    requires total > 0
  {
    if ws == [] then 0
    else Shares(period, ws[..|ws| - 1], total) + MachineShare(period, ws[|ws| - 1], total)
  }

  /** Nothing wraps for this vif. */
  predicate ShareFits(period: nat, weight: nat, total: nat) {
    0 < total < TWO32 && weight * period + (total - 1) < TWO31
  }

  lemma ShareBounds(period: nat, weight: nat, total: nat)
    requires ShareFits(period, weight, total)
    ensures weight * period <= MachineShare(period, weight, total) * total <= weight * period + (total - 1)
  {
    var product := weight * period;
    assert product >= 0;
    ShareOf(product, total);
    assert period * weight == product;
  }

  lemma ShareOf(product: nat, total: nat)
    requires 0 < total < TWO32 && product + (total - 1) < TWO31
    ensures var share := S32(Div(U32(U32(product) + U32(total - 1)), total));
            product <= share * total <= product + (total - 1)
  {
    DivBounds(product + (total - 1), total);
    DividingShrinks(product + (total - 1), total, 1);
  }

  lemma Distribute(a: int, b: int, c: int)
    ensures (a + b) * c == a * c + b * c
  {
  }

  lemma ExtendBounds(shares: int, share: int, sum: int, w: int, n: int, period: int, total: int)
    requires sum * period <= shares * total <= sum * period + n * (total - 1)
    requires w * period <= share * total <= w * period + (total - 1)
    ensures (sum + w) * period <= (shares + share) * total <= (sum + w) * period + (n + 1) * (total - 1)
  {
    Distribute(shares, share, total);
    Distribute(sum, w, period);
    Distribute(n, 1, total - 1);
  }

  lemma {:induction false} SharesBounds(period: nat, ws: seq<nat>, n: nat, total: nat)
    requires n == |ws| && total > 0 && forall w <- ws :: ShareFits(period, w, total)
    ensures Sum(ws) * period <= Shares(period, ws, total) * total <= Sum(ws) * period + n * (total - 1)
  {
    if n > 0 {
      assert ws[n - 1] in ws;
      SharesBounds(period, ws[..n - 1], n - 1, total);
      ShareBounds(period, ws[n - 1], total);
      ExtendBounds(Shares(period, ws[..n - 1], total), MachineShare(period, ws[n - 1], total),
                   Sum(ws[..n - 1]), ws[n - 1], n - 1, period, total);
    }
  }

  lemma CancelFactor(a: int, b: int, c: int)
    requires c > 0
    ensures a * c <= b * c ==> a <= b
    ensures a * c < b * c ==> a < b
  {
    Distribute(a, -b, c);
    Distribute(b, -a, c);
    if a > b { assert (a - b) * c > 0; }
  }

  lemma FewerThan(shares: int, period: int, n: int, total: int)
    requires total > 0 && n > 0 && total * period <= shares * total <= total * period + n * (total - 1)
    ensures period <= shares < period + n
  {
    assert n * (total - 1) == n * total - n;
    assert total * period == period * total;
    Distribute(period, n, total);
    CancelFactor(period, shares, total);
    CancelFactor(shares, period + n, total);
  }

  /** Rounded up, the shares of all vifs cover the whole period and exceed it by less than one unit each. */
  lemma SharesCoverThePeriod(period: nat, ws: seq<nat>)
    requires ws != [] && Sum(ws) > 0
    requires forall w <- ws :: ShareFits(period, w, Sum(ws))
    ensures period <= Shares(period, ws, Sum(ws)) < period + |ws|
  {
    SharesBounds(period, ws, |ws|, Sum(ws));
    FewerThan(Shares(period, ws, Sum(ws)), period, |ws|, Sum(ws));
  }

  /** In every run the shares computed with the allocator's own counter cover the period. */
  lemma LedgerSharesCover(period: nat, events: seq<LedgerEvent>)
    requires LedgerRun(events).weights != [] && 0 < Sum(LedgerRun(events).weights) < TWO32
    requires forall w <- LedgerRun(events).weights :: ShareFits(period, w, LedgerRun(events).total)
    ensures var l := LedgerRun(events);
      l.total > 0 && period <= Shares(period, l.weights, l.total) < period + l.num
  {
    LedgerIsExact(events);
    SharesCoverThePeriod(period, LedgerRun(events).weights);
  }

  // ---------- The allocator ----------

  class Vif {
    var weight: nat
    var minCredit: nat   // the throughput measured in the last second
    var maxCredit: nat   // the goal
    var usedCredit: nat
    var pps: nat
    var hasTask: bool
    var quota: int       // the CFS quota of the container's task group

    constructor (quota: int)
      ensures weight == 1 && minCredit == maxCredit == usedCredit == 0 && !hasTask && this.quota == quota
    {
      weight, minCredit, maxCredit, usedCredit, pps, hasTask := 1, 0, 0, 0, 0, false;
      this.quota := quota;
    }

    /** pay_credit, on unsigned counters. */
    method PayCredit(length: nat)
      modifies this`pps, this`usedCredit
      ensures pps == U32(old(pps) + 1) && usedCredit == U32(old(usedCredit) + length)
    {
      pps := U32(pps + 1);
      usedCredit := U32(usedCredit + length);
    }

    /** io_control; the quota of a division by zero is not defined. */
    method IoControl()
      requires !MachineAdjust(quota, maxCredit, usedCredit / 1000).Oops?
      modifies this`minCredit, this`quota
      ensures minCredit == usedCredit / 1000
      ensures quota == Adjusted(old(quota), maxCredit, usedCredit / 1000)
    {
      var goal, perf := maxCredit, usedCredit / 1000;
      minCredit := perf;
      if goal == perf || perf == 0 || goal == 0 { return; }
      var diff := S32(goal - perf);
      var k := 5000;
      if !(perf < goal / 2 || perf > U32(goal * 2)) {
        k := S32(Div(500000000, U32(goal * 8)));
      }
      var after;
      if diff > 0 {
        var dat := S32(Div(U32(U32(S32(k * diff)) + (goal - 1)), goal));
        if dat > MAX_DIFF { dat := MAX_DIFF; }
        after := S32(quota + dat);
      } else {
        var dat := S32(Div(U32(U32(U32(k) * U32(perf - goal)) + (goal - 1)), goal));
        if dat > MAX_DIFF { dat := MAX_DIFF; }
        after := S32(quota - dat);
      }
      if after > MAX_QUOTA {
        after := MAX_QUOTA;
      } else if after <= 0 || after < MIN_QUOTA {
        after := MIN_QUOTA;
      }
      quota := after;
    }
  }

  function Adjusted(before: int, goal: nat, perf: nat): int {
    match MachineAdjust(before, goal, perf)
    case Quota(us) => us
    case _ => before
  }

  class CreditAllocator {
    var vifs: seq<Vif>
    var totalWeight: nat
    var numVif: int
    ghost var weights: seq<nat>

    ghost function View(): Ledger
      reads this
    {
      Ledger(weights, totalWeight, numVif)
    }

    ghost predicate Valid()
      reads this, vifs
    {
      && (forall i, j :: 0 <= i < j < |vifs| ==> vifs[i] != vifs[j])
      && |weights| == |vifs| && (forall i :: 0 <= i < |vifs| ==> vifs[i].weight == weights[i])
      && LedgerOk(View())
    }

    constructor ()
      ensures Valid() && vifs == [] && View() == LedgerRun([])
    {
      vifs, weights, totalWeight, numVif := [], [], 0, 0;
    }

    method NewVif(quota: int) returns (v: Vif)
      requires Valid()
      modifies this
      ensures v.weight == 1
      ensures Valid() && fresh(v) && vifs == [v] + old(vifs) && View() == LedgerStep(old(View()), LedgerEvent.NewVif)
    {
      LedgerStepKeeps(View(), LedgerEvent.NewVif);
      v := new Vif(quota);
      vifs := [v] + vifs;
      weights := [1] + weights;
      totalWeight := U32(totalWeight + v.weight);
      numVif := numVif + 1;
    }

    method DelVif(i: nat)
      requires Valid() && i < |vifs|
      modifies this
      ensures Valid() && vifs == old(vifs)[..i] + old(vifs)[i + 1..]
      ensures View() == LedgerStep(old(View()), LedgerEvent.DelVif(i))
    {
      LedgerStepKeeps(View(), LedgerEvent.DelVif(i));
      totalWeight := U32(totalWeight - vifs[i].weight);
      numVif := numVif - 1;
      vifs := vifs[..i] + vifs[i + 1..];
      weights := weights[..i] + weights[i + 1..];
    }

    /** A write of the weight file of one vif. */
    method WriteWeight(i: nat, value: nat)
      requires Valid() && i < |vifs|
      modifies this`totalWeight, this`weights, vifs`weight
      ensures Valid() && View() == LedgerStep(old(View()), LedgerEvent.WriteWeight(i, value))
      ensures vifs[i].weight == value % 0x1_0000_0000
      ensures forall j :: 0 <= j < |vifs| && j != i ==> vifs[j].weight == old(vifs[j].weight)
    {
      LedgerStepKeeps(View(), LedgerEvent.WriteWeight(i, value));
      var weight := U32(value);
      totalWeight := U32(totalWeight + U32(weight - vifs[i].weight));
      vifs[i].weight := weight;
      weights := weights[i := weight];
    }

    /** quota_control: one second's pass over the list. */
    method QuotaControl()
      requires forall i, j :: 0 <= i < j < |vifs| ==> vifs[i] != vifs[j]
      requires forall i :: 0 <= i < |vifs| && vifs[i].hasTask ==>
        !MachineAdjust(vifs[i].quota, vifs[i].maxCredit, vifs[i].usedCredit / 1000).Oops?
      modifies vifs`quota, vifs`minCredit, vifs`pps, vifs`usedCredit
      ensures forall i :: 0 <= i < |vifs| ==>
        && vifs[i].pps == 0 && vifs[i].usedCredit == 0
        && (vifs[i].hasTask ==>
              && vifs[i].quota == Adjusted(old(vifs[i].quota), vifs[i].maxCredit, old(vifs[i].usedCredit) / 1000)
              && vifs[i].minCredit == old(vifs[i].usedCredit) / 1000)
        && (!vifs[i].hasTask ==> vifs[i].quota == old(vifs[i].quota) && vifs[i].minCredit == old(vifs[i].minCredit))
    {
      for n := 0 to |vifs|
        invariant forall i :: n <= i < |vifs| ==>
          && vifs[i].quota == old(vifs[i].quota) && vifs[i].usedCredit == old(vifs[i].usedCredit)
          && vifs[i].minCredit == old(vifs[i].minCredit)
        invariant forall i :: 0 <= i < n ==>
          && vifs[i].pps == 0 && vifs[i].usedCredit == 0
          && (vifs[i].hasTask ==>
                && vifs[i].quota == Adjusted(old(vifs[i].quota), vifs[i].maxCredit, old(vifs[i].usedCredit) / 1000)
                && vifs[i].minCredit == old(vifs[i].usedCredit) / 1000)
          && (!vifs[i].hasTask ==> vifs[i].quota == old(vifs[i].quota) && vifs[i].minCredit == old(vifs[i].minCredit))
      {
        var v := vifs[n];
        if v.hasTask {
          v.IoControl();
        }
        v.pps := 0;
        v.usedCredit := 0;
      }
    }
  }
}
