/**
  The orders in which controllers delete pods and kubectl picks pods for their logs: three Less
  methods for Go's sort package, which asks them to be strict weak orders.
 */
module PodOrder {
  import opened Sorting

  /** An instant; zero is the zero time. */
  type Time = int

  datatype Condition = Condition(kind: string, status: string, lastTransition: Time)

  /** The parts of a pod that the orders look at; `restarts` are those of its containers. */
  datatype Pod = Pod(nodeName: string, phase: string, conditions: seq<Condition>, restarts: seq<int>, created: Time)

  // ---------- What is compared ----------

  /** podPhaseToOrdinal; a missing key reads as zero. */
  function Ordinal(phase: string): int {
    if phase == "Unknown" then 1 else if phase == "Running" then 2 else 0
  }

  predicate Unassigned(p: Pod) { |p.nodeName| == 0 }

  /** The first Ready condition is true. */
  predicate ReadyIn(conditions: seq<Condition>) {
    if conditions == [] then false
    else if conditions[0].kind == "Ready" then conditions[0].status == "True"
    else ReadyIn(conditions[1..])
  }

  predicate Ready(p: Pod) { ReadyIn(p.conditions) }

  function ReadyTimeIn(conditions: seq<Condition>): Time {
    if conditions == [] then 0
    else if conditions[0].kind == "Ready" && conditions[0].status == "True" then conditions[0].lastTransition
    else ReadyTimeIn(conditions[1..])
  }

  function ReadyTime(p: Pod): Time { if Ready(p) then ReadyTimeIn(p.conditions) else 0 }

  function MaxOf(xs: seq<int>): int {
    if xs == [] then 0
    else
      var before := MaxOf(xs[..|xs| - 1]);
      if xs[|xs| - 1] > before then xs[|xs| - 1] else before
  }

  function Restarts(p: Pod): int { MaxOf(p.restarts) }

  /** The zero time counts as after every other. */
  predicate AfterOrZero(t1: Time, t2: Time) {
    if t1 == 0 || t2 == 0 then t1 == 0 else t1 > t2
  }

  method PodReadyTime(p: Pod) returns (t: Time)
    ensures t == ReadyTime(p)
  {
    if Ready(p) {
      for i := 0 to |p.conditions|
        invariant ReadyTimeIn(p.conditions) == ReadyTimeIn(p.conditions[i..])
      {
        var c := p.conditions[i];
        if c.kind == "Ready" && c.status == "True" { return c.lastTransition; }
        assert p.conditions[i..][1..] == p.conditions[i + 1..];
      }
    }
    return 0;
  }

  /** A ready pod's ready time is when a Ready condition became true. */
  lemma {:induction false} ReadyTimeIsTransition(conditions: seq<Condition>)
    requires ReadyIn(conditions)
    ensures exists c <- conditions ::
      c.kind == "Ready" && c.status == "True" && c.lastTransition == ReadyTimeIn(conditions)
  {
    if conditions[0].kind == "Ready" {
      assert conditions[0] in conditions;
    } else {
      ReadyTimeIsTransition(conditions[1..]);
      var c :| c in conditions[1..] && c.kind == "Ready" && c.status == "True"
        && c.lastTransition == ReadyTimeIn(conditions[1..]);
      assert c in conditions;
    }
  }

  method MaxContainerRestarts(p: Pod) returns (m: int)
    ensures m == Restarts(p)
  {
    m := 0;
    for i := 0 to |p.restarts|
      invariant m == MaxOf(p.restarts[..i])
    {
      assert p.restarts[..i + 1][..i] == p.restarts[..i];
      if p.restarts[i] > m { m := p.restarts[i]; }
    }
    assert p.restarts[..|p.restarts|] == p.restarts;
  }

  /** The greatest, or zero if none is greater. */
  lemma {:induction false} MaxOfIsGreatest(xs: seq<int>)
    ensures MaxOf(xs) >= 0 && (forall x <- xs :: x <= MaxOf(xs)) && (MaxOf(xs) == 0 || MaxOf(xs) in xs)
  {
    if xs != [] {
      var n := |xs| - 1;
      MaxOfIsGreatest(xs[..n]);
      assert xs == xs[..n] + [xs[n]];
    }
  }

  // ---------- The three orders ----------

  predicate ActiveLess(a: Pod, b: Pod) {
    if a.nodeName != b.nodeName && (Unassigned(a) || Unassigned(b)) then Unassigned(a)
    else if Ordinal(a.phase) != Ordinal(b.phase) then Ordinal(a.phase) < Ordinal(b.phase)
    else if Ready(a) != Ready(b) then !Ready(a)
    else if Ready(a) && Ready(b) && ReadyTime(a) != ReadyTime(b) then AfterOrZero(ReadyTime(a), ReadyTime(b))
    else if Restarts(a) != Restarts(b) then Restarts(a) > Restarts(b)
    else if a.created != b.created then AfterOrZero(a.created, b.created)
    else false
  }

  datatype Ranked = Ranked(pod: Pod, rank: int)

  predicate RankedLess(a: Ranked, b: Ranked) {
    if a.pod.nodeName != b.pod.nodeName && (Unassigned(a.pod) || Unassigned(b.pod)) then Unassigned(a.pod)
    else if Ordinal(a.pod.phase) != Ordinal(b.pod.phase) then Ordinal(a.pod.phase) < Ordinal(b.pod.phase)
    else if Ready(a.pod) != Ready(b.pod) then !Ready(a.pod)
    else if a.rank != b.rank then a.rank > b.rank
    else if Ready(a.pod) && Ready(b.pod) && ReadyTime(a.pod) != ReadyTime(b.pod)
    then AfterOrZero(ReadyTime(a.pod), ReadyTime(b.pod))
    else if Restarts(a.pod) != Restarts(b.pod) then Restarts(a.pod) > Restarts(b.pod)
    else if a.pod.created != b.pod.created then AfterOrZero(a.pod.created, b.pod.created)
    else false
  }

  predicate LoggingLess(a: Pod, b: Pod) {
    if a.nodeName != b.nodeName && (Unassigned(a) || Unassigned(b)) then !Unassigned(a)
    else if a.phase != b.phase then Ordinal(a.phase) > Ordinal(b.phase)
    else if Ready(a) != Ready(b) then Ready(a)
    else if Ready(a) && Ready(b) && ReadyTime(a) != ReadyTime(b) then AfterOrZero(ReadyTime(b), ReadyTime(a))
    else if Restarts(a) != Restarts(b) then Restarts(a) > Restarts(b)
    else if a.created != b.created then AfterOrZero(b.created, a.created)
    else false
  }

  // ---------- As lexicographic orders ----------

  function Bit(b: bool): int { if b then 1 else 0 }

  /** The latest first, and the zero time before all. */
  function Latest<T>(key: T -> Time): (T, T) -> bool {
    (a: T, b: T) => key(a) != key(b) && AfterOrZero(key(a), key(b))
  }

  function Earliest<T>(key: T -> Time): (T, T) -> bool {
    (a: T, b: T) => key(a) != key(b) && AfterOrZero(key(b), key(a))
  }

  lemma LatestIsOrder<T(!new)>(key: T -> Time)
    ensures StrictWeakOrder(Latest(key)) && StrictWeakOrder(Earliest(key))
  {
  }

  function ReadyTimeOf<T>(pod: T -> Pod): T -> Time { x => ReadyTime(pod(x)) }
  function CreatedOf<T>(pod: T -> Pod): T -> Time { x => pod(x).created }
  function FewerRestarts<T>(pod: T -> Pod): T -> int { x => -Restarts(pod(x)) }
  function PlacedOf<T>(pod: T -> Pod): T -> int { x => Bit(!Unassigned(pod(x))) }
  function OrdinalOf<T>(pod: T -> Pod): T -> int { x => Ordinal(pod(x).phase) }
  function ReadyOf<T>(pod: T -> Pod): T -> int { x => Bit(Ready(pod(x))) }

  function ByAge<T>(pod: T -> Pod): (T, T) -> bool {
    Then(Latest(ReadyTimeOf(pod)), Then(ByInt(FewerRestarts(pod)), Latest(CreatedOf(pod))))
  }

  function ByState<T>(pod: T -> Pod, rest: (T, T) -> bool): (T, T) -> bool {
    Then(ByInt(PlacedOf(pod)), Then(ByInt(OrdinalOf(pod)), Then(ByInt(ReadyOf(pod)), rest)))
  }

  lemma ByAgeIsOrder<T(!new)>(pod: T -> Pod)
    ensures StrictWeakOrder(ByAge(pod))
  {
    LatestIsOrder(ReadyTimeOf(pod));
    LatestIsOrder(CreatedOf(pod));
    ByIntIsOrder(FewerRestarts(pod));
    ThenIsOrder(ByInt(FewerRestarts(pod)), Latest(CreatedOf(pod)));
    ThenIsOrder(Latest(ReadyTimeOf(pod)), Then(ByInt(FewerRestarts(pod)), Latest(CreatedOf(pod))));
  }

  lemma ByStateIsOrder<T(!new)>(pod: T -> Pod, rest: (T, T) -> bool)
    requires StrictWeakOrder(rest)
    ensures StrictWeakOrder(ByState(pod, rest))
  {
    ByIntIsOrder(PlacedOf(pod));
    ByIntIsOrder(OrdinalOf(pod));
    ByIntIsOrder(ReadyOf(pod));
    ThenIsOrder(ByInt(ReadyOf(pod)), rest);
    ThenIsOrder(ByInt(OrdinalOf(pod)), Then(ByInt(ReadyOf(pod)), rest));
    ThenIsOrder(ByInt(PlacedOf(pod)), Then(ByInt(OrdinalOf(pod)), Then(ByInt(ReadyOf(pod)), rest)));
  }

  const Itself: Pod -> Pod := (p: Pod) => p
  const PodOf: Ranked -> Pod := (r: Ranked) => r.pod
  const GreaterRank: Ranked -> int := (r: Ranked) => -r.rank

  lemma ActiveIsLexicographic(a: Pod, b: Pod)
    ensures ActiveLess(a, b) == ByState(Itself, ByAge(Itself))(a, b)
  {
    StateDecides(Itself, ByAge(Itself), a, b);
    AgeDecides(Itself, a, b);
  }

  lemma RankedIsLexicographic(a: Ranked, b: Ranked)
    ensures RankedLess(a, b) == ByState(PodOf, Then(ByInt(GreaterRank), ByAge(PodOf)))(a, b)
  {
    var byRank := Then(ByInt(GreaterRank), ByAge(PodOf));
    assert byRank(a, b) == (a.rank > b.rank || (a.rank == b.rank && ByAge(PodOf)(a, b)));
    StateDecides(PodOf, byRank, a, b);
    AgeDecides(PodOf, a, b);
  }

  lemma StateDecides<T>(pod: T -> Pod, rest: (T, T) -> bool, a: T, b: T)
    ensures ByState(pod, rest)(a, b) ==
      if Unassigned(pod(a)) != Unassigned(pod(b)) then Unassigned(pod(a))
      else if Ordinal(pod(a).phase) != Ordinal(pod(b).phase) then Ordinal(pod(a).phase) < Ordinal(pod(b).phase)
      else if Ready(pod(a)) != Ready(pod(b)) then !Ready(pod(a))
      else rest(a, b)
  {
    assert ReadyOf(pod)(a) == Bit(Ready(pod(a))) && ReadyOf(pod)(b) == Bit(Ready(pod(b)));
    assert PlacedOf(pod)(a) == Bit(!Unassigned(pod(a))) && PlacedOf(pod)(b) == Bit(!Unassigned(pod(b)));
  }

  lemma AgeDecides<T>(pod: T -> Pod, a: T, b: T)
    ensures ByAge(pod)(a, b) ==
      if ReadyTime(pod(a)) != ReadyTime(pod(b)) then AfterOrZero(ReadyTime(pod(a)), ReadyTime(pod(b)))
      else if Restarts(pod(a)) != Restarts(pod(b)) then Restarts(pod(a)) > Restarts(pod(b))
      else pod(a).created != pod(b).created && AfterOrZero(pod(a).created, pod(b).created)
  {
    assert FewerRestarts(pod)(a) == -Restarts(pod(a)) && FewerRestarts(pod)(b) == -Restarts(pod(b));
    assert ReadyTimeOf(pod)(a) == ReadyTime(pod(a)) && ReadyTimeOf(pod)(b) == ReadyTime(pod(b));
    assert CreatedOf(pod)(a) == pod(a).created && CreatedOf(pod)(b) == pod(b).created;
  }

  /** ActivePods.Less is a strict weak order on all pods. */
  lemma ActivePodsIsOrder()
    ensures StrictWeakOrder(ActiveLess)
  {
    ByAgeIsOrder(Itself);
    ByStateIsOrder(Itself, ByAge(Itself));
    forall a, b { ActiveIsLexicographic(a, b); }
    SameOrder(ActiveLess, ByState(Itself, ByAge(Itself)));
  }

  /** ActivePodsWithRanks.Less is a strict weak order on all pods with ranks. */
  lemma ActivePodsWithRanksIsOrder()
    ensures StrictWeakOrder(RankedLess)
  {
    ByAgeIsOrder(PodOf);
    ByIntIsOrder(GreaterRank);
    ThenIsOrder(ByInt(GreaterRank), ByAge(PodOf));
    ByStateIsOrder(PodOf, Then(ByInt(GreaterRank), ByAge(PodOf)));
    forall a, b { RankedIsLexicographic(a, b); }
    SameOrder(RankedLess, ByState(PodOf, Then(ByInt(GreaterRank), ByAge(PodOf))));
  }

  // ---------- In plain terms ----------

  /** The pod is ready, since this time: its first Ready condition is true and dates from then. */
  ghost predicate ReadySince(p: Pod, t: Time) {
    exists i :: 0 <= i < |p.conditions| && IsFirstReady(p.conditions, i)
             && p.conditions[i].status == "True" && p.conditions[i].lastTransition == t
  }

  ghost predicate IsFirstReady(conditions: seq<Condition>, i: nat) {
    i < |conditions| && conditions[i].kind == "Ready" && forall j :: 0 <= j < i ==> conditions[j].kind != "Ready"
  }

  lemma {:induction false} FirstReadyDecides(conditions: seq<Condition>, i: nat)
    requires IsFirstReady(conditions, i)
    ensures ReadyIn(conditions) <==> conditions[i].status == "True"
    ensures ReadyIn(conditions) ==> ReadyTimeIn(conditions) == conditions[i].lastTransition
  {
    if i > 0 { FirstReadyDecides(conditions[1..], i - 1); }
  }

  lemma {:induction false} ReadyHasFirst(conditions: seq<Condition>) returns (i: nat)
    requires ReadyIn(conditions)
    ensures IsFirstReady(conditions, i)
  {
    if conditions[0].kind == "Ready" {
      i := 0;
    } else {
      i := ReadyHasFirst(conditions[1..]);
      i := i + 1;
    }
  }

  /** Readiness and ready time are those of the first Ready condition, whatever later ones say. */
  lemma ReadyIffSince(p: Pod, t: Time)
    ensures ReadySince(p, t) <==> Ready(p) && ReadyTime(p) == t
    ensures !Ready(p) ==> ReadyTime(p) == 0
  {
    if Ready(p) {
      var i := ReadyHasFirst(p.conditions);
      FirstReadyDecides(p.conditions, i);
    }
    if i :| 0 <= i < |p.conditions| && IsFirstReady(p.conditions, i)
            && p.conditions[i].status == "True" && p.conditions[i].lastTransition == t {
      FirstReadyDecides(p.conditions, i);
    }
  }

  ghost predicate ReadySinceSome(p: Pod) { exists t :: ReadySince(p, t) }

  lemma ReadyIffSinceSome(p: Pod)
    ensures Ready(p) <==> ReadySinceSome(p)
  {
    ReadyIffSince(p, ReadyTime(p));
    if t :| ReadySince(p, t) { ReadyIffSince(p, t); }
  }

  /** Pending and unlisted phases, then Unknown, then Running. */
  predicate EarlierPhase(p: string, q: string) {
    (p != "Unknown" && p != "Running" && (q == "Unknown" || q == "Running")) || (p == "Unknown" && q == "Running")
  }

  lemma OrdinalIsPhaseOrder(p: string, q: string)
    ensures Ordinal(p) < Ordinal(q) <==> EarlierPhase(p, q)
  {
    assert |"Unknown"| == |"Running"| == 7 && "Unknown"[0] != "Running"[0];
  }

  /** An unassigned pod is deleted before an assigned one, and its logs come last, whatever else they are. */
  lemma AssignmentDecides(a: Pod, b: Pod, m: int, n: int)
    requires a.nodeName == "" && b.nodeName != ""
    ensures ActiveLess(a, b) && RankedLess(Ranked(a, m), Ranked(b, n)) && LoggingLess(b, a)
    ensures !ActiveLess(b, a) && !RankedLess(Ranked(b, n), Ranked(a, m)) && !LoggingLess(a, b)
  {
  }

  /** Then the earlier phase is deleted first, and the later one's logs are preferred. */
  lemma PhaseDecides(a: Pod, b: Pod, m: int, n: int)
    requires (a.nodeName == "" <==> b.nodeName == "") && EarlierPhase(a.phase, b.phase)
    ensures ActiveLess(a, b) && RankedLess(Ranked(a, m), Ranked(b, n)) && LoggingLess(b, a)
    ensures !ActiveLess(b, a) && !RankedLess(Ranked(b, n), Ranked(a, m)) && !LoggingLess(a, b)
  {
    OrdinalIsPhaseOrder(a.phase, b.phase);
  }

  /** Then the pod that is not ready is deleted first, and a ready one's logs are preferred. */
  lemma ReadinessDecides(a: Pod, b: Pod, m: int, n: int)
    requires (a.nodeName == "" <==> b.nodeName == "") && a.phase == b.phase
    requires !ReadySinceSome(a) && ReadySinceSome(b)
    ensures ActiveLess(a, b) && RankedLess(Ranked(a, m), Ranked(b, n)) && LoggingLess(b, a)
    ensures !ActiveLess(b, a) && !RankedLess(Ranked(b, n), Ranked(a, m)) && !LoggingLess(a, b)
  {
    ReadyIffSinceSome(a);
    ReadyIffSinceSome(b);
  }

  /** Assigned alike, in one phase, and both ready or both not. */
  ghost predicate SameStanding(a: Pod, b: Pod) {
    && (a.nodeName == "" <==> b.nodeName == "") && a.phase == b.phase
    && (ReadySinceSome(a) <==> ReadySinceSome(b))
  }

  lemma SameStandingIsReady(a: Pod, b: Pod)
    requires SameStanding(a, b)
    ensures Ready(a) <==> Ready(b)
  {
    ReadyIffSinceSome(a);
    ReadyIffSinceSome(b);
  }

  /** Then, where there are ranks, the greater rank is deleted first. */
  lemma RankDecides(a: Pod, b: Pod, m: int, n: int)
    requires SameStanding(a, b) && m != n
    ensures RankedLess(Ranked(a, m), Ranked(b, n)) <==> m > n
  {
    SameStandingIsReady(a, b);
  }

  /** Then the pod ready for less time is deleted first, and the one ready longest has its logs preferred. */
  lemma ReadyTimeDecides(a: Pod, b: Pod, rank: int, x: Time, y: Time)
    requires SameStanding(a, b) && ReadySince(a, x) && ReadySince(b, y) && x != y
    ensures ActiveLess(a, b) <==> x == 0 || (y != 0 && x > y)
    ensures RankedLess(Ranked(a, rank), Ranked(b, rank)) <==> x == 0 || (y != 0 && x > y)
    ensures LoggingLess(a, b) <==> y == 0 || (x != 0 && x < y)
  {
    ReadyIffSince(a, x);
    ReadyIffSince(b, y);
  }

  /** Of the same standing, and if ready, since the same time. */
  ghost predicate SameSince(a: Pod, b: Pod) {
    SameStanding(a, b) && forall t :: ReadySince(a, t) <==> ReadySince(b, t)
  }

  lemma SameSinceIsSameTime(a: Pod, b: Pod)
    requires SameSince(a, b)
    ensures (Ready(a) <==> Ready(b)) && ReadyTime(a) == ReadyTime(b)
  {
    SameStandingIsReady(a, b);
    ReadyIffSince(a, ReadyTime(a));
    ReadyIffSince(b, ReadyTime(a));
  }

  /** Some container has been restarted more often than all of the other pod's, and at all. */
  ghost predicate MoreRestarts(a: Pod, b: Pod) {
    exists r <- a.restarts :: r > 0 && forall s <- b.restarts :: r > s
  }

  lemma MoreRestartsIff(a: Pod, b: Pod)
    ensures Restarts(a) > Restarts(b) <==> MoreRestarts(a, b)
  {
    MaxOfIsGreatest(a.restarts);
    MaxOfIsGreatest(b.restarts);
  }

  /** Then the pod with the most restarted container comes first, in all three orders. */
  lemma RestartsDecide(a: Pod, b: Pod, rank: int)
    requires SameSince(a, b) && MoreRestarts(a, b)
    ensures ActiveLess(a, b) && RankedLess(Ranked(a, rank), Ranked(b, rank)) && LoggingLess(a, b)
    ensures !ActiveLess(b, a) && !RankedLess(Ranked(b, rank), Ranked(a, rank)) && !LoggingLess(b, a)
  {
    SameSinceIsSameTime(a, b);
    MoreRestartsIff(a, b);
  }

  /** Last, the newer pod is deleted first, one without a creation time before all; the oldest shows its logs. */
  lemma AgeDecidesLast(a: Pod, b: Pod, rank: int)
    requires SameSince(a, b) && !MoreRestarts(a, b) && !MoreRestarts(b, a)
    ensures ActiveLess(a, b) <==>
      (a.created == 0 && b.created != 0) || (b.created != 0 && a.created > b.created)
    ensures RankedLess(Ranked(a, rank), Ranked(b, rank)) <==>
      (a.created == 0 && b.created != 0) || (b.created != 0 && a.created > b.created)
    ensures LoggingLess(a, b) <==>
      (b.created == 0 && a.created != 0) || (a.created != 0 && b.created > a.created)
  {
    SameSinceIsSameTime(a, b);
    MoreRestartsIff(a, b);
    MoreRestartsIff(b, a);
  }

  // ---------- The order for logs ----------

  const Shown: Pod -> int := (p: Pod) => Bit(Unassigned(p))
  const GreaterOrdinal: Pod -> int := (p: Pod) => -Ordinal(p.phase)
  const NotReady: Pod -> int := (p: Pod) => Bit(!Ready(p))

  function ByLogging(): (Pod, Pod) -> bool {
    Then(ByInt(Shown), Then(ByInt(GreaterOrdinal), Then(ByInt(NotReady), ByService())))
  }

  /** In service for longest, restarted most, created first. */
  function ByService(): (Pod, Pod) -> bool {
    Then(Earliest(ReadyTimeOf(Itself)), Then(ByInt(FewerRestarts(Itself)), Earliest(CreatedOf(Itself))))
  }

  lemma ByLoggingIsOrder()
    ensures StrictWeakOrder(ByLogging())
  {
    LatestIsOrder(ReadyTimeOf(Itself));
    LatestIsOrder(CreatedOf(Itself));
    ByIntIsOrder(FewerRestarts(Itself));
    ByIntIsOrder(Shown);
    ByIntIsOrder(GreaterOrdinal);
    ByIntIsOrder(NotReady);
    ThenIsOrder(ByInt(FewerRestarts(Itself)), Earliest(CreatedOf(Itself)));
    ThenIsOrder(Earliest(ReadyTimeOf(Itself)), Then(ByInt(FewerRestarts(Itself)), Earliest(CreatedOf(Itself))));
    ThenIsOrder(ByInt(NotReady), ByService());
    ThenIsOrder(ByInt(GreaterOrdinal), Then(ByInt(NotReady), ByService()));
    ThenIsOrder(ByInt(Shown), Then(ByInt(GreaterOrdinal), Then(ByInt(NotReady), ByService())));
  }

  /** Ordinals tell the phases apart. */
  ghost predicate ToldApart(phases: set<string>) {
    forall p, q :: p in phases && q in phases && Ordinal(p) == Ordinal(q) ==> p == q
  }

  lemma ServiceDecides(a: Pod, b: Pod)
    ensures ByService()(a, b) ==
      if ReadyTime(a) != ReadyTime(b) then AfterOrZero(ReadyTime(b), ReadyTime(a))
      else if Restarts(a) != Restarts(b) then Restarts(a) > Restarts(b)
      else a.created != b.created && AfterOrZero(b.created, a.created)
  {
    assert FewerRestarts(Itself)(a) == -Restarts(a) && FewerRestarts(Itself)(b) == -Restarts(b);
  }

  lemma LoggingIsLexicographic(a: Pod, b: Pod)
    requires Ordinal(a.phase) == Ordinal(b.phase) ==> a.phase == b.phase
    ensures LoggingLess(a, b) == ByLogging()(a, b)
  {
    ServiceDecides(a, b);
    assert NotReady(a) == Bit(!Ready(a)) && NotReady(b) == Bit(!Ready(b));
    assert Shown(a) == Bit(Unassigned(a)) && Shown(b) == Bit(Unassigned(b));
  }

  /** Two phases with one ordinal: a pod of one phase ties with pods of the other that do not tie. */
  lemma SharedOrdinalBreaksTies(p: string, q: string)
    requires p != q && Ordinal(p) == Ordinal(q)
    ensures var ready := Pod("node", p, [Condition("Ready", "True", 1)], [], 1);
      var unready := ready.(conditions := []);
      var other := ready.(phase := q);
      && Tied(LoggingLess, ready, other) && Tied(LoggingLess, other, unready) && LoggingLess(ready, unready)
  {
  }

  /** ByLogging.Less is a strict weak order among pods of the given phases exactly if ordinals tell the phases apart. */
  lemma ByLoggingIsOrderIff(phases: set<string>)
    ensures StrictWeakOrderOn(LoggingLess, (p: Pod) => p.phase in phases) <==> ToldApart(phases)
  {
    var on := (p: Pod) => p.phase in phases;
    if ToldApart(phases) {
      ByLoggingIsOrder();
      forall a, b | on(a) && on(b) ensures LoggingLess(a, b) == ByLogging()(a, b) {
        LoggingIsLexicographic(a, b);
      }
      OrderOn(LoggingLess, ByLogging(), on);
    } else {
      var p, q :| p in phases && q in phases && Ordinal(p) == Ordinal(q) && p != q;
      SharedOrdinalBreaksTies(p, q);
      var ready := Pod("node", p, [Condition("Ready", "True", 1)], [], 1);
      assert on(ready) && on(ready.(phase := q)) && on(ready.(conditions := []));
      assert !Tied(LoggingLess, ready, ready.(conditions := []));
    }
  }

  /** So it is one for the phases of live pods, and not for all five. */
  lemma LivePhasesAreToldApart()
    ensures ToldApart({"Pending", "Unknown", "Running"})
    ensures !ToldApart({"Pending", "Unknown", "Running", "Succeeded", "Failed"})
  {
    assert Ordinal("Pending") == 0 && Ordinal("Unknown") == 1 && Ordinal("Running") == 2;
    assert Ordinal("Failed") == 0 && |"Pending"| != |"Failed"|;
  }

  // ---------- Sorting in place ----------

  function Pairs(pods: seq<Pod>, ranks: seq<int>): (r: seq<Ranked>)
    requires |pods| == |ranks|
  {
    seq(|pods|, i requires 0 <= i < |pods| => Ranked(pods[i], ranks[i]))
  }

  function Swapped<T>(s: seq<T>, i: nat, j: nat): seq<T>
    requires i < |s| && j < |s|
  {
    s[i := s[j]][j := s[i]]
  }

  /** Any sort that moves elements by Swap only. */
  function SwapAll<T>(s: seq<T>, swaps: seq<(nat, nat)>): (r: seq<T>)
    ensures |r| == |s|
  {
    if swaps == [] then s
    else
      var before := SwapAll(s, swaps[..|swaps| - 1]);
      var (i, j) := swaps[|swaps| - 1];
      if i < |s| && j < |s| then Swapped(before, i, j) else before
  }

  lemma SwappedIsPermutation<T>(s: seq<T>, i: nat, j: nat)
    requires i < |s| && j < |s|
    ensures multiset(Swapped(s, i, j)) == multiset(s)
  {
  }

  lemma {:induction false} SwapAllIsPermutation<T>(s: seq<T>, swaps: seq<(nat, nat)>)
    ensures multiset(SwapAll(s, swaps)) == multiset(s)
  {
    if swaps != [] {
      var n := |swaps| - 1;
      SwapAllIsPermutation(s, swaps[..n]);
      var (i, j) := swaps[n];
      if i < |s| && j < |s| { SwappedIsPermutation(SwapAll(s, swaps[..n]), i, j); }
    }
  }

  lemma {:induction false} SwapsKeepPairs(pods: seq<Pod>, ranks: seq<int>, swaps: seq<(nat, nat)>)
    requires |pods| == |ranks|
    ensures Pairs(SwapAll(pods, swaps), SwapAll(ranks, swaps)) == SwapAll(Pairs(pods, ranks), swaps)
  {
    if swaps != [] {
      var n := |swaps| - 1;
      SwapsKeepPairs(pods, ranks, swaps[..n]);
      var (i, j) := swaps[n];
      if i < |pods| && j < |pods| {
        SwapPairs(SwapAll(pods, swaps[..n]), SwapAll(ranks, swaps[..n]), i, j);
      }
    }
  }

  lemma SwapPairs(pods: seq<Pod>, ranks: seq<int>, i: nat, j: nat)
    requires |pods| == |ranks| && i < |pods| && j < |pods|
    ensures Pairs(Swapped(pods, i, j), Swapped(ranks, i, j)) == Swapped(Pairs(pods, ranks), i, j)
  {
  }

  /**
    Whatever swaps a sort makes, every pod keeps its rank; and if no pod ends up less than the one
    before it, no pod is less than any earlier one.
   */
  lemma SortingKeepsPairs(pods: seq<Pod>, ranks: seq<int>, swaps: seq<(nat, nat)>)
    requires |pods| == |ranks|
    ensures var sorted := Pairs(SwapAll(pods, swaps), SwapAll(ranks, swaps));
      && multiset(sorted) == multiset(Pairs(pods, ranks))
      && ((forall i :: 0 < i < |sorted| ==> !RankedLess(sorted[i], sorted[i - 1])) ==> SortedBy(sorted, RankedLess))
  {
    SwapsKeepPairs(pods, ranks, swaps);
    SwapAllIsPermutation(Pairs(pods, ranks), swaps);
    var sorted := Pairs(SwapAll(pods, swaps), SwapAll(ranks, swaps));
    if forall i :: 0 < i < |sorted| ==> !RankedLess(sorted[i], sorted[i - 1]) {
      ActivePodsWithRanksIsOrder();
      NeighboursSorted(sorted, RankedLess);
    }
  }

  class ActivePodsWithRanks {
    const pods: array<Pod>
    const ranks: array<int>

    ghost predicate Valid()
    {
      pods.Length == ranks.Length && (pods as object) != (ranks as object)
    }

    ghost function Contents(): (r: seq<Ranked>)
      requires Valid()
      reads pods, ranks
    {
      Pairs(pods[..], ranks[..])
    }

    constructor (pods: array<Pod>, ranks: array<int>)
      requires pods.Length == ranks.Length
      ensures Valid() && this.pods == pods && this.ranks == ranks
    {
      this.pods, this.ranks := pods, ranks;
    }

    method Less(i: nat, j: nat) returns (less: bool)
      requires Valid() && i < pods.Length && j < pods.Length
      ensures less == RankedLess(Contents()[i], Contents()[j])
    {
      var a, b := pods[i], pods[j];
      if a.nodeName != b.nodeName && (|a.nodeName| == 0 || |b.nodeName| == 0) { return |a.nodeName| == 0; }
      if Ordinal(a.phase) != Ordinal(b.phase) { return Ordinal(a.phase) < Ordinal(b.phase); }
      if Ready(a) != Ready(b) { return !Ready(a); }
      if ranks[i] != ranks[j] { return ranks[i] > ranks[j]; }
      if Ready(a) && Ready(b) {
        var readyTime1 := PodReadyTime(a);
        var readyTime2 := PodReadyTime(b);
        if readyTime1 != readyTime2 { return AfterOrZero(readyTime1, readyTime2); }
      }
      var restarts1 := MaxContainerRestarts(a);
      var restarts2 := MaxContainerRestarts(b);
      if restarts1 != restarts2 { return restarts1 > restarts2; }
      if a.created != b.created { return AfterOrZero(a.created, b.created); }
      return false;
    }

    method Swap(i: nat, j: nat)
      requires Valid() && i < pods.Length && j < pods.Length
      modifies pods, ranks
      ensures Contents() == Swapped(old(Contents()), i, j)
    {
      pods[i], pods[j] := pods[j], pods[i];
      ranks[i], ranks[j] := ranks[j], ranks[i];
    }
  }
}
