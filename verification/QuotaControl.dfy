/**
  Stella's CPU quota controller: once a second each container's quota moves towards the goal set for
  its network throughput.  The machine form follows C's 32-bit conversions; the plain form is what it
  computes while nothing wraps.
 */
module QuotaControl {
  const MAX_QUOTA := 100000
  const MIN_QUOTA := 1000
  const MAX_DIFF := 10000

  const TWO31 := 0x8000_0000
  const TWO32 := 0x1_0000_0000

  function U32(x: int): (r: nat)
    ensures r < TWO32
    ensures 0 <= x < TWO32 ==> r == x
  {
    x % TWO32
  }

  function S32(x: int): (r: int)
    ensures -TWO31 <= r < TWO31
    ensures -TWO31 <= x < TWO31 ==> r == x
  {
    (x + TWO31) % TWO32 - TWO31
  }

  /** Unsigned division. */
  function Div(n: nat, d: nat): nat
    requires d > 0
  {
    if n < d then 0 else 1 + Div(n - d, d)
  }

  lemma {:induction false} DivBounds(n: nat, d: nat)
    requires d > 0
    ensures Div(n, d) * d <= n < Div(n, d) * d + d
  {
    if n >= d {
      DivBounds(n - d, d);
      assert (1 + Div(n - d, d)) * d == d + Div(n - d, d) * d;
    }
  }

  lemma DivExact(n: nat, d: nat, q: nat)
    requires d > 0 && q * d <= n < q * d + d
    ensures Div(n, d) == q
  {
    DivBounds(n, d);
    var r := Div(n, d);
    if r < q {
      ProductAtMost(r + 1, d, q, d);
    } else if r > q {
      ProductAtMost(q + 1, d, r, d);
    }
  }

  lemma ProductAtMost(a: nat, b: nat, x: nat, y: nat)
    requires a <= x && b <= y
    ensures a * b <= x * y
  {
    assert a * b <= a * y;
    assert a * y <= x * y;
  }

  // ---------- One adjustment ----------

  /** Unchanged: the early return.  Oops: a division by zero. */
  datatype Outcome = Unchanged | Oops | Quota(us: int)

  function Clamp(q: int): int {
    if q > MAX_QUOTA then MAX_QUOTA else if q <= 0 || q < MIN_QUOTA then MIN_QUOTA else q
  }

  function Capped(dat: int): int { if dat > MAX_DIFF then MAX_DIFF else dat }

  predicate Extreme(goal: nat, perf: nat) { perf < goal / 2 || perf > U32(goal * 2) }

  /** io_control on an unsigned goal and perf and a signed quota, conversion by conversion. */
  function MachineGain(goal: nat, perf: nat): int
    requires !Extreme(goal, perf) ==> U32(goal * 8) != 0
  {
    if Extreme(goal, perf) then 5000 else S32(Div(500000000, U32(goal * 8)))
  }

  /** The rounding up and the division are unsigned; the result is stored in an int. */
  function MachineQuotient(product: int, goal: nat): int
    requires goal > 0
  {
    S32(Div(U32(U32(product) + (goal - 1)), goal))
  }

  /** `dat` of the branch that raises the quota: a signed product, then unsigned sum and quotient. */
  function MachineRaise(goal: nat, k: int, diff: int): int
    requires goal > 0
  {
    MachineQuotient(S32(k * diff), goal)
  }

  /** `dat` of the branch that lowers it: an unsigned product. */
  function MachineLower(goal: nat, perf: nat, k: int): int
    requires goal > 0
  {
    MachineQuotient(U32(k) * U32(perf - goal), goal)
  }

  function MachineAdjust(before: int, goal: nat, perf: nat): Outcome {
    if goal == perf || perf == 0 || goal == 0 then Unchanged
    else if !Extreme(goal, perf) && U32(goal * 8) == 0 then Oops
    else
      var diff := S32(goal - perf);
      var k := MachineGain(goal, perf);
      if diff > 0 then Quota(Clamp(S32(before + Capped(MachineRaise(goal, k, diff)))))
      else Quota(Clamp(S32(before - Capped(MachineLower(goal, perf, k)))))
  }

  function Gain(goal: nat, perf: nat): nat
    requires goal > 0
  {
    if perf < goal / 2 || perf > 2 * goal then 5000 else Div(500000000, goal * 8)
  }

  function Distance(goal: nat, perf: nat): nat { if perf < goal then goal - perf else perf - goal }

  function Numerator(goal: nat, perf: nat): nat
    requires goal > 0
  {
    Gain(goal, perf) * Distance(goal, perf)
  }

  function RoundedUp(n: nat, d: nat): nat
    requires d > 0
  {
    Div(n + (d - 1), d)
  }

  /** How far one tick moves the quota: error times gain as a share of the goal, rounded up, at most MAX_DIFF. */
  function Stride(goal: nat, perf: nat): nat
    requires goal > 0
  {
    Capped(RoundedUp(Numerator(goal, perf), goal))
  }

  function Adjust(before: int, goal: nat, perf: nat): int
    requires goal > 0
  {
    Clamp(if perf < goal then before + Stride(goal, perf) else before - Stride(goal, perf))
  }

  /** The gain outside the extremes never exceeds 500000000/8 divided by the goal. */
  lemma GainBound(goal: nat, perf: nat)
    requires 0 < goal && !(perf < goal / 2 || perf > 2 * goal)
    ensures Gain(goal, perf) * goal <= 62500000
    ensures Numerator(goal, perf) <= 62500000
  {
    var k := Gain(goal, perf);
    DivBounds(500000000, goal * 8);
    assert k * (goal * 8) == 8 * (k * goal);
    assert Distance(goal, perf) <= goal;
    ProductAtMost(k, Distance(goal, perf), k, goal);
  }

  /** No product, sum or quotient of the adjustment wraps. */
  predicate InRange(goal: nat, perf: nat) {
    && 0 < goal < 0x2000_0000 && perf > 0
    && Numerator(goal, perf) + (goal - 1) < if goal == 1 then TWO31 else TWO32
  }

  lemma DividingShrinks(n: nat, d: nat, least: nat)
    requires d >= least > 0
    ensures Div(n, d) * least <= n
  {
    DivBounds(n, d);
    ProductAtMost(Div(n, d), least, Div(n, d), d);
  }

  lemma RoundedUpFits(n: nat, d: nat)
    requires d > 0 && n + (d - 1) < if d == 1 then TWO31 else TWO32
    ensures RoundedUp(n, d) < TWO31
  {
    DividingShrinks(n + (d - 1), d, if d == 1 then 1 else 2);
  }

  lemma NumeratorFits(goal: nat, perf: nat)
    requires InRange(goal, perf)
    ensures Gain(goal, perf) < TWO31 && perf < TWO31
    ensures RoundedUp(Numerator(goal, perf), goal) < TWO31
  {
    RoundedUpFits(Numerator(goal, perf), goal);
    if perf < goal / 2 || perf > 2 * goal {
      assert Numerator(goal, perf) == 5000 * Distance(goal, perf);
    } else {
      GainBound(goal, perf);
      ProductAtMost(Gain(goal, perf), 1, Gain(goal, perf), goal);
    }
  }

  lemma GainIsPlain(goal: nat, perf: nat)
    requires 0 < goal < 0x2000_0000
    ensures U32(goal * 8) != 0 && (Gain(goal, perf) < TWO31 ==> MachineGain(goal, perf) == Gain(goal, perf))
  {
    assert U32(goal * 2) == goal * 2 && U32(goal * 8) == goal * 8;
  }

  lemma QuotientFits(product: nat, goal: nat)
    requires goal > 0 && product + (goal - 1) < TWO32 && RoundedUp(product, goal) < TWO31
    ensures MachineQuotient(product, goal) == RoundedUp(product, goal)
  {
  }

  lemma RaiseIsPlain(goal: nat, perf: nat)
    requires InRange(goal, perf) && perf < goal
    ensures U32(goal * 8) != 0
    ensures Capped(MachineRaise(goal, MachineGain(goal, perf), S32(goal - perf))) == Stride(goal, perf)
  {
    NumeratorFits(goal, perf);
    GainIsPlain(goal, perf);
    RaiseProduct(goal, perf, Gain(goal, perf), Distance(goal, perf), Numerator(goal, perf));
    QuotientFits(Numerator(goal, perf), goal);
  }

  /** Reading a signed product as unsigned undoes its wrap. */
  lemma SignedThenUnsigned(x: int)
    ensures U32(S32(x)) == U32(x)
  {
    var q := (x + TWO31) / TWO32;
    assert S32(x) == x - TWO32 * q;
    assert x == TWO32 * (x / TWO32) + U32(x);
    assert S32(x) == TWO32 * (x / TWO32 - q) + U32(x);
  }

  lemma RaiseProduct(goal: nat, perf: nat, k: nat, distance: nat, product: nat)
    requires 0 < goal < TWO31 && goal - perf == distance && product == k * distance
    ensures MachineRaise(goal, k, S32(goal - perf)) == MachineQuotient(product, goal)
  {
    assert S32(goal - perf) == distance;
    SignedThenUnsigned(product);
  }

  lemma LowerIsPlain(goal: nat, perf: nat)
    requires InRange(goal, perf) && perf > goal
    ensures U32(goal * 8) != 0
    ensures Capped(MachineLower(goal, perf, MachineGain(goal, perf))) == Stride(goal, perf)
  {
    NumeratorFits(goal, perf);
    GainIsPlain(goal, perf);
    LowerProduct(goal, perf, Gain(goal, perf), Distance(goal, perf), Numerator(goal, perf));
    QuotientFits(Numerator(goal, perf), goal);
  }

  lemma LowerProduct(goal: nat, perf: nat, k: nat, distance: nat, product: nat)
    requires k < TWO31 && distance < TWO31 && perf - goal == distance && goal > 0 && product == k * distance
    ensures MachineLower(goal, perf, k) == MachineQuotient(product, goal)
  {
    assert U32(k) == k && U32(perf - goal) == distance;
  }

  lemma MachineRaises(before: int, goal: nat, perf: nat, stride: nat)
    requires 0 < perf < goal && goal - perf < TWO31 && -TWO31 <= before < TWO31 - MAX_DIFF && stride <= MAX_DIFF
    requires Extreme(goal, perf) || U32(goal * 8) != 0
    requires Capped(MachineRaise(goal, MachineGain(goal, perf), S32(goal - perf))) == stride
    ensures MachineAdjust(before, goal, perf) == Quota(Clamp(before + stride))
  {
    assert S32(goal - perf) == goal - perf && S32(before + stride) == before + stride;
  }

  lemma MachineLowers(before: int, goal: nat, perf: nat, stride: nat)
    requires 0 < goal < perf < TWO31 && -TWO31 + MAX_DIFF <= before < TWO31 && stride <= MAX_DIFF
    requires Extreme(goal, perf) || U32(goal * 8) != 0
    requires Capped(MachineLower(goal, perf, MachineGain(goal, perf))) == stride
    ensures MachineAdjust(before, goal, perf) == Quota(Clamp(before - stride))
  {
    assert S32(goal - perf) == goal - perf && S32(before - stride) == before - stride;
  }

  /**
    In range the machine computes what plain arithmetic computes, for every quota an int can hold
    with room for one stride.
   */
  lemma MachineIsPlain(before: int, goal: nat, perf: nat)
    requires InRange(goal, perf) && -TWO31 + MAX_DIFF <= before < TWO31 - MAX_DIFF
    ensures goal == perf ==> MachineAdjust(before, goal, perf) == Unchanged
    ensures goal != perf ==> MachineAdjust(before, goal, perf) == Quota(Adjust(before, goal, perf))
  {
    NumeratorFits(goal, perf);
    if perf < goal {
      RaiseIsPlain(goal, perf);
      MachineRaises(before, goal, perf, Stride(goal, perf));
    } else if perf > goal {
      LowerIsPlain(goal, perf);
      MachineLowers(before, goal, perf, Stride(goal, perf));
    }
  }

  /** At goal 1, one unit above the range: throughput far over the goal raises the quota to its maximum. */
  lemma PerfBoundIsTight()
    ensures MachineAdjust(MIN_QUOTA, 1, 429498) == Quota(MAX_QUOTA)
    ensures Adjust(MIN_QUOTA, 1, 429498) == MIN_QUOTA
  {
    LowerProduct(1, 429498, 5000, 429497, 2147485000);
    DivExact(2147485000, 1, 2147485000);
    assert MachineQuotient(2147485000, 1) == -2147482296;
    assert Numerator(1, 429498) == 2147485000;
  }

  lemma EightfoldWraps(goal: nat)
    ensures U32(goal * 8) == 0 <==> goal % 0x2000_0000 == 0
  {
    if U32(goal * 8) == 0 { assert goal * 8 == TWO32 * (goal * 8 / TWO32); }
    if goal % 0x2000_0000 == 0 { assert goal * 8 == TWO32 * (goal / 0x2000_0000); }
  }

  /**
    The quota is left alone on target, without traffic and without a goal. A division by zero needs a goal
    that is a multiple of 2^29, and a throughput between its half and its wrapped double.
   */
  lemma OutcomeIff(before: int, goal: nat, perf: nat)
    ensures MachineAdjust(before, goal, perf) == Unchanged <==> goal == perf || perf == 0 || goal == 0
    ensures MachineAdjust(before, goal, perf) == Oops <==>
      && goal > 0 && perf > 0 && goal != perf && goal % 0x2000_0000 == 0
      && goal / 2 <= perf <= 2 * goal % 0x1_0000_0000
  {
    EightfoldWraps(goal);
  }

  // ---------- Direction, range and speed ----------

  predicate Legal(q: int) { MIN_QUOTA <= q <= MAX_QUOTA }

  lemma CeilingPositive(n: nat, d: nat)
    requires d > 0 && n > 0
    ensures RoundedUp(n, d) >= 1
  {
    QuotientAtLeast(n + (d - 1), d, 1);
  }

  lemma QuotientAtLeast(n: nat, d: nat, q: nat)
    requires d > 0 && n >= q * d
    ensures Div(n, d) >= q
  {
    DivBounds(n, d);
    assert (Div(n, d) + 1) * d == Div(n, d) * d + d;
    if Div(n, d) < q {
      ProductAtMost(Div(n, d) + 1, d, q, d);
    }
  }

  lemma RoundedUpBounds(n: nat, d: nat)
    requires d > 0
    ensures n <= RoundedUp(n, d) * d <= n + (d - 1)
  {
    DivBounds(n + (d - 1), d);
  }

  lemma CappedBounds(q: nat, n: nat, d: nat)
    requires d > 0 && n <= q * d <= n + (d - 1)
    ensures Capped(q) < MAX_DIFF ==> n <= Capped(q) * d <= n + (d - 1)
    ensures Capped(q) >= MAX_DIFF ==> n > (MAX_DIFF - 1) * d
  {
    if q >= MAX_DIFF {
      ProductAtMost(MAX_DIFF, d, q, d);
      assert MAX_DIFF * d == (MAX_DIFF - 1) * d + d;
    }
  }

  /** Short of the cap a stride is the error times the gain as a share of the goal, rounded up. */
  lemma StrideInProportion(goal: nat, perf: nat) returns (gain: nat)
    requires goal > 0
    ensures perf < goal / 2 || perf > 2 * goal ==> gain == 5000
    ensures goal / 2 <= perf <= 2 * goal ==> gain * (goal * 8) <= 500000000 < gain * (goal * 8) + goal * 8
    ensures var error := if perf < goal then goal - perf else perf - goal;
      && (Stride(goal, perf) < MAX_DIFF ==>
            gain * error <= Stride(goal, perf) * goal <= gain * error + (goal - 1))
      && (Stride(goal, perf) >= MAX_DIFF ==> Stride(goal, perf) == MAX_DIFF && gain * error > (MAX_DIFF - 1) * goal)
  {
    gain := Gain(goal, perf);
    DivBounds(500000000, goal * 8);
    var n := Numerator(goal, perf);
    RoundedUpBounds(n, goal);
    CappedBounds(RoundedUp(n, goal), n, goal);
  }

  /** Away from the extremes a goal above 62500000 leaves no gain. */
  predicate Responsive(goal: nat, perf: nat) { goal <= 62500000 || perf < goal / 2 || perf > 2 * goal }

  lemma GainIsPositiveIff(goal: nat, perf: nat)
    requires goal > 0
    ensures Gain(goal, perf) >= 1 <==> Responsive(goal, perf)
  {
    if !(perf < goal / 2 || perf > 2 * goal) && goal <= 62500000 {
      QuotientAtLeast(500000000, goal * 8, 1);
    }
  }

  /** An error moves the quota exactly if there is a gain, and by at most MAX_DIFF. */
  lemma StrideBounds(goal: nat, perf: nat)
    requires goal > 0 && goal != perf
    ensures Stride(goal, perf) <= MAX_DIFF
    ensures Stride(goal, perf) >= 1 <==> Responsive(goal, perf)
    ensures perf < goal / 2 ==> Stride(goal, perf) >= 2501
    ensures perf > 2 * goal ==> Stride(goal, perf) >= 5001
  {
    var k, distance := Gain(goal, perf), Distance(goal, perf);
    GainIsPositiveIff(goal, perf);
    if k >= 1 {
      ProductAtMost(1, 1, k, distance);
      CeilingPositive(k * distance, goal);
    } else {
      assert Numerator(goal, perf) == 0;
    }
    if perf < goal / 2 {
      QuotientAtLeast(k * distance + (goal - 1), goal, 2501);
    } else if perf > 2 * goal {
      QuotientAtLeast(k * distance + (goal - 1), goal, 5001);
    }
  }

  /**
    A tick lands in the legal range whatever the quota was.  From there it moves towards the goal by at
    most MAX_DIFF, and stands still only at the limit or without a gain.
   */
  lemma TickMovesTowardsGoal(before: int, goal: nat, perf: nat)
    requires InRange(goal, perf) && goal != perf && -TWO31 + MAX_DIFF <= before < TWO31 - MAX_DIFF
    ensures MachineAdjust(before, goal, perf).Quota?
    ensures var after := MachineAdjust(before, goal, perf).us;
      && Legal(after)
      && (Legal(before) ==>
            && -MAX_DIFF <= after - before <= MAX_DIFF
            && (perf < goal ==> after >= before)
            && (perf < goal ==> (after == before <==> before == MAX_QUOTA || !Responsive(goal, perf)))
            && (perf > goal ==> after <= before)
            && (perf > goal ==> (after == before <==> before == MIN_QUOTA || !Responsive(goal, perf))))
  {
    MachineIsPlain(before, goal, perf);
    StrideBounds(goal, perf);
  }

  // ---------- Beyond the range ----------

  /** The quota moves away from the goal. */
  predicate MovesAway(before: int, after: int, goal: nat, perf: nat) {
    (perf < goal && after < before) || (perf > goal && after > before)
  }

  /** Divided by two or more, an unsigned number fits a signed one. */
  lemma QuotientNonNegative(product: int, goal: nat)
    requires goal >= 2
    ensures MachineQuotient(product, goal) >= 0
  {
    DividingShrinks(U32(U32(product) + (goal - 1)), goal, 2);
  }

  /** Whatever wraps, at a goal above 1 the step is in the right direction and within MAX_DIFF. */
  lemma StepIsBounded(before: int, goal: nat, perf: nat) returns (step: nat)
    requires 2 <= goal < TWO31 && perf < TWO31 && MachineAdjust(before, goal, perf).Quota?
    requires -TWO31 + MAX_DIFF <= before < TWO31 - MAX_DIFF
    ensures step <= MAX_DIFF
    ensures MachineAdjust(before, goal, perf) == Quota(Clamp(if perf < goal then before + step else before - step))
  {
    var k := MachineGain(goal, perf);
    if perf < goal {
      QuotientNonNegative(S32(k * S32(goal - perf)), goal);
      step := Capped(MachineRaise(goal, k, S32(goal - perf)));
      MachineRaises(before, goal, perf, step);
    } else {
      QuotientNonNegative(U32(k) * U32(perf - goal), goal);
      step := Capped(MachineLower(goal, perf, k));
      MachineLowers(before, goal, perf, step);
    }
  }

  lemma DividedByOne(n: nat)
    ensures Div(n, 1) == n
  {
    DivExact(n, 1, n);
  }

  /** At goal 1 the wrapped product itself is read as a signed number. */
  lemma AtGoalOne(before: int, perf: nat, w: int)
    requires 1 < perf < TWO31 && w == U32((if perf > 2 then 5000 else 62500000) * (perf - 1))
    ensures MachineAdjust(before, 1, perf) == Quota(Clamp(S32(before - Capped(S32(w)))))
  {
    DivExact(500000000, 8, 62500000);
    var k := MachineGain(1, perf);
    assert k == if perf > 2 then 5000 else 62500000;
    assert U32(k) == k && U32(perf - 1) == perf - 1;
    DividedByOne(w);
    assert MachineLower(1, perf, k) == MachineQuotient(k * (perf - 1), 1);
    assert S32(1 - perf) <= 0;
  }

  /**
    For goals and throughputs below 2^31 a tick leaves a legal quota, and moves it away from the goal
    exactly at goal 1, when the wrapped product is negative and taking it away does not overflow.
   */
  lemma DirectionLostIff(before: int, goal: nat, perf: nat)
    requires Legal(before) && goal < TWO31 && perf < TWO31 && MachineAdjust(before, goal, perf).Quota?
    ensures Legal(MachineAdjust(before, goal, perf).us)
    ensures var w := U32(5000 * (perf - 1));
      MovesAway(before, MachineAdjust(before, goal, perf).us, goal, perf) <==>
        goal == 1 && perf > 2 && w >= TWO31 && before - S32(w) < TWO31 && before < MAX_QUOTA
  {
    if goal >= 2 {
      var step := StepIsBounded(before, goal, perf);
    } else {
      var w := U32((if perf > 2 then 5000 else 62500000) * (perf - 1));
      AtGoalOne(before, perf, w);
      SignOf(before, w);
    }
  }

  lemma SignOf(before: int, w: nat)
    requires Legal(before) && w < TWO32
    ensures w < TWO31 ==> S32(w) == w
    ensures w >= TWO31 ==> S32(w) == w - TWO32
    ensures w < TWO31 ==> S32(before - Capped(S32(w))) <= before
    ensures w >= TWO31 ==>
      S32(before - Capped(S32(w))) == if before - S32(w) < TWO31 then before - S32(w) else before - S32(w) - TWO32
  {
  }

  /** A wrapped sum is at least the goal exactly if it did not wrap and its first part was not zero. */
  lemma WrappedQuotient(w: nat, goal: nat)
    requires w < TWO32 && 0 < goal < TWO32
    ensures Div(U32(w + (goal - 1)), goal) >= 1 <==> 0 < w <= TWO32 - goal
  {
    if U32(w + (goal - 1)) >= goal { QuotientAtLeast(U32(w + (goal - 1)), goal, 1); }
  }

  /** Far below such a goal the error is read as negative, and the quota is lowered. */
  lemma LoweredAtLargeGoal(before: int, goal: nat, perf: nat, w: nat) returns (step: nat)
    requires Legal(before) && TWO31 <= goal < TWO32 && 0 < perf < goal / 2 && goal - perf >= TWO31
    requires w == U32(5000 * (perf - goal))
    ensures MachineAdjust(before, goal, perf) == Quota(Clamp(before - step))
    ensures step >= 1 <==> 0 < w <= TWO32 - goal
  {
    var k := MachineGain(goal, perf);
    assert k == 5000 && U32(k) == 5000;
    LargeProduct(goal, perf, w);
    QuotientNonNegative(U32(k) * U32(perf - goal), goal);
    DividingShrinks(U32(w + (goal - 1)), goal, 2);
    WrappedQuotient(w, goal);
    step := Capped(MachineLower(goal, perf, k));
    assert S32(goal - perf) <= 0 && S32(before - step) == before - step;
  }

  /** At the greatest goal and the throughput just half of it there is no gain. */
  lemma GreatestGoal(before: int)
    requires Legal(before)
    ensures MachineAdjust(before, TWO32 - 1, TWO31 - 1) == Quota(before)
    ensures U32(5000 * ((TWO31 - 1) - (TWO32 - 1))) == 0
  {
    assert U32((TWO32 - 1) * 8) == TWO32 - 8 && Div(500000000, TWO32 - 8) == 0;
    assert Div(TWO32 - 2, TWO32 - 1) == 0;
  }

  lemma LargeProduct(goal: nat, perf: nat, w: nat)
    requires perf < goal < TWO32 && w == U32(5000 * (perf - goal))
    ensures U32(5000 * U32(perf - goal)) == w
  {
    assert U32(perf - goal) == perf - goal + TWO32;
    var x: int := 5000 * (perf - goal);
    assert x == TWO32 * (x / TWO32) + w;
    assert 5000 * U32(perf - goal) == TWO32 * (x / TWO32 + 5000) + w;
  }

  /**
    At goals of 2^31 and more a tick leaves a legal quota too, and moves it away from the goal exactly if
    the error is too large for an int and its wrapped product is neither zero nor too large to round up.
   */
  lemma DirectionLostAtLargeGoalIff(before: int, goal: nat, perf: nat)
    requires Legal(before) && TWO31 <= goal < TWO32 && perf < TWO31 && MachineAdjust(before, goal, perf).Quota?
    ensures Legal(MachineAdjust(before, goal, perf).us)
    ensures MovesAway(before, MachineAdjust(before, goal, perf).us, goal, perf) <==>
      goal - perf >= TWO31 && 0 < U32(5000 * (perf - goal)) <= TWO32 - goal && before > MIN_QUOTA
  {
    if goal - perf >= TWO31 && perf == goal / 2 {
      GreatestGoal(before);
    } else if goal - perf >= TWO31 {
      var step := LoweredAtLargeGoal(before, goal, perf, U32(5000 * (perf - goal)));
    } else {
      var k := MachineGain(goal, perf);
      QuotientNonNegative(S32(k * S32(goal - perf)), goal);
      MachineRaises(before, goal, perf, Capped(MachineRaise(goal, k, S32(goal - perf))));
    }
  }

  /** Such a goal and such an error. */
  lemma LargeGoalMayLower()
    ensures MachineAdjust(50000, 2147913249, 1).Quota?
    ensures MovesAway(50000, MachineAdjust(50000, 2147913249, 1).us, 2147913249, 1)
  {
    assert U32(5000 * (1 - 2147913249)) == 2146967296;
    var step := LoweredAtLargeGoal(50000, 2147913249, 1, 2146967296);
  }

  /** What a wrap costs at a goal from 2 to 2^31 is speed: here a product of 4294970000 wraps to 2704. */
  lemma SpeedMayBeLost()
    ensures MachineAdjust(50000, 400000, 1258994) == Quota(49999)
    ensures Adjust(50000, 400000, 1258994) == 40000
  {
    LowerProduct(400000, 1258994, 5000, 858994, 4294970000);
    DivExact(402703, 400000, 1);
    assert MachineQuotient(4294970000, 400000) == 1;
    MachineLowers(50000, 400000, 1258994, 1);
    DivExact(4295369999, 400000, 10738);
    assert Numerator(400000, 1258994) == 4294970000;
  }

  /** An unlimited quota reads as -1: the first tick then sets less than MAX_DIFF, however large the error. */
  lemma FirstTick(goal: nat, perf: nat)
    requires 2 <= goal < TWO31 && perf < TWO31 && MachineAdjust(-1, goal, perf).Quota?
    ensures perf < goal ==> MIN_QUOTA <= MachineAdjust(-1, goal, perf).us <= MAX_DIFF - 1
    ensures perf > goal ==> MachineAdjust(-1, goal, perf).us == MIN_QUOTA
  {
    var step := StepIsBounded(-1, goal, perf);
  }

  // ---------- Many ticks ----------

  /** The quota after n ticks with the goal and the throughput held constant. */
  function Ticks(q: int, goal: nat, perf: nat, n: nat): int {
    if n == 0 then q
    else
      var before := Ticks(q, goal, perf, n - 1);
      match MachineAdjust(before, goal, perf)
      case Quota(us) => us
      case _ => before
  }

  lemma OneTick(before: int, goal: nat, perf: nat, s: nat)
    requires InRange(goal, perf) && Legal(before) && s == Stride(goal, perf)
    ensures perf < goal ==> MachineAdjust(before, goal, perf) == Quota(Clamp(before + s))
    ensures perf > goal ==> MachineAdjust(before, goal, perf) == Quota(Clamp(before - s))
  {
    MachineIsPlain(before, goal, perf);
  }

  /** n clamped steps of the same size. */
  function Walk(q: int, step: int, n: nat): int {
    if n == 0 then q else Clamp(Walk(q, step, n - 1) + step)
  }

  lemma TimesNext(n: nat, s: int)
    requires n > 0
    ensures n * s == (n - 1) * s + s
    ensures s >= 0 ==> (n - 1) * s >= 0
    ensures s <= 0 ==> (n - 1) * s <= 0
  {
  }

  lemma {:induction false} WalkClosedForm(q: int, step: int, n: nat)
    requires Legal(q)
    ensures Walk(q, step, n) == Clamp(q + n * step)
  {
    if n > 0 {
      WalkClosedForm(q, step, n - 1);
      TimesNext(n, step);
    }
  }

  function SignedStride(goal: nat, perf: nat): int
    requires goal > 0
  {
    var s: int := Stride(goal, perf);
    if perf < goal then s else -s
  }

  lemma {:induction false} TicksAreWalk(q: int, goal: nat, perf: nat, step: int, n: nat)
    requires InRange(goal, perf) && goal != perf && Legal(q) && step == SignedStride(goal, perf)
    ensures Ticks(q, goal, perf, n) == Walk(q, step, n) && Legal(Walk(q, step, n))
  {
    if n > 0 {
      TicksAreWalk(q, goal, perf, step, n - 1);
      OneTick(Walk(q, step, n - 1), goal, perf, Stride(goal, perf));
    }
  }

  /** Held constant, an error moves the quota in equal strides up to the limit. */
  lemma TicksClosedForm(q: int, goal: nat, perf: nat, step: int, n: nat)
    requires InRange(goal, perf) && goal != perf && Legal(q) && step == SignedStride(goal, perf)
    ensures Ticks(q, goal, perf, n) == Clamp(q + n * step)
  {
    TicksAreWalk(q, goal, perf, step, n);
    WalkClosedForm(q, step, n);
  }

  /** Below half the goal the full quota is reached within 40 ticks; above twice the goal the least one within 20. */
  lemma ReachesTheLimit(q: int, goal: nat, perf: nat)
    requires InRange(goal, perf) && Legal(q)
    ensures perf < goal / 2 ==> Ticks(q, goal, perf, 40) == MAX_QUOTA
    ensures perf > 2 * goal ==> Ticks(q, goal, perf, 20) == MIN_QUOTA
  {
    if goal != perf {
      StrideBounds(goal, perf);
      TicksClosedForm(q, goal, perf, SignedStride(goal, perf), 40);
      TicksClosedForm(q, goal, perf, SignedStride(goal, perf), 20);
    }
  }

  /** Fewer ticks are not enough in general. */
  lemma TickBoundsAreTight()
    ensures Ticks(MIN_QUOTA, 400000, 199999, 39) < MAX_QUOTA
    ensures Ticks(MAX_QUOTA, 199999, 399999, 19) > MIN_QUOTA
  {
    DivExact(1000404999, 400000, 2501);
    DivExact(1000199998, 199999, 5001);
    assert Numerator(400000, 199999) == 1000005000 && Numerator(199999, 399999) == 1000000000;
    TicksClosedForm(MIN_QUOTA, 400000, 199999, 2501, 39);
    TicksClosedForm(MAX_QUOTA, 199999, 399999, -5001, 19);
  }
}
