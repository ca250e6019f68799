/**
  Controller expectations: how many creations and deletions each controller still waits for, and, for
  deletions, which UIDs. The UIDs keep one deletion from being counted twice.
 */
module Expectations {

  type Key = string
  type Uid = string

  datatype Counts = Counts(add: int, del: int)

  datatype Tables = Tables(counts: map<Key, Counts>, uids: map<Key, set<Uid>>)
  {
    /** GetUIDs; no set is as good as an empty one. */
    function Uids(key: Key): set<Uid> { if key in uids then uids[key] else {} }
  }

  // ---------- Calls ----------

  datatype Call =
    | SetExpectations(key: Key, add: int, del: int)
    | ExpectCreations(key: Key, adds: int)
    | ExpectDeletions(key: Key, deletedKeys: seq<Uid>)
    | RaiseExpectations(key: Key, add: int, del: int)
    | LowerExpectations(key: Key, add: int, del: int)
    | CreationObserved(key: Key)
    | DeletionObserved(key: Key, uid: Uid)
    | DeleteExpectations(key: Key)

  /** SetExpectations forgets what was expected before. */
  function Set(t: Tables, key: Key, add: int, del: int): Tables {
    t.(counts := t.counts[key := Counts(add, del)])
  }

  function Raise(t: Tables, key: Key, add: int, del: int): Tables {
    if key in t.counts
    then t.(counts := t.counts[key := Counts(t.counts[key].add + add, t.counts[key].del + del)])
    else t
  }

  function Elements(s: seq<Uid>): set<Uid> { set u <- s }

  function Step(t: Tables, c: Call): Tables {
    match c
    case SetExpectations(key, add, del) => Set(t, key, add, del)
    case ExpectCreations(key, adds) => Set(t, key, adds, 0)
    case ExpectDeletions(key, deletedKeys) =>
      var expected := Elements(deletedKeys);
      Set(t.(uids := t.uids[key := expected]), key, 0, |expected|)
    case RaiseExpectations(key, add, del) => Raise(t, key, add, del)
    case LowerExpectations(key, add, del) => Raise(t, key, -add, -del)
    case CreationObserved(key) => Raise(t, key, -1, 0)
    case DeletionObserved(key, uid) =>
      if uid in t.Uids(key) then Raise(t, key, 0, -1).(uids := t.uids[key := t.uids[key] - {uid}]) else t
    case DeleteExpectations(key) => Tables(t.counts - {key}, t.uids - {key})
  }

  function Run(t: Tables, calls: seq<Call>): Tables {
    if calls == [] then t else Step(Run(t, calls[..|calls| - 1]), calls[|calls| - 1])
  }

  /** SatisfiedExpectations; whether the expectations have expired is up to the clock. */
  predicate Satisfied(t: Tables, key: Key, expired: bool) {
    key in t.counts && (t.counts[key].add > 0 || t.counts[key].del > 0) ==> expired
  }

  // ---------- What a call does ----------

  /** A call touches its own key only. */
  lemma OtherKeysStay(t: Tables, c: Call, key: Key)
    requires key != c.key
    ensures var t' := Step(t, c);
      && (key in t'.counts <==> key in t.counts) && (key in t.counts ==> t'.counts[key] == t.counts[key])
      && (key in t'.uids <==> key in t.uids) && (key in t.uids ==> t'.uids[key] == t.uids[key])
  {
  }

  /** Setting starts afresh, whatever was there. */
  lemma SettingEffect(t: Tables, key: Key, add: int, del: int, deletedKeys: seq<Uid>, u: Uid)
    ensures Step(t, SetExpectations(key, add, del)) == t.(counts := t.counts[key := Counts(add, del)])
    ensures Step(t, ExpectCreations(key, add)) == t.(counts := t.counts[key := Counts(add, 0)])
    ensures var t' := Step(t, ExpectDeletions(key, deletedKeys));
      && key in t'.uids && key in t'.counts
      && (u in t'.uids[key] <==> u in deletedKeys) && t'.counts[key] == Counts(0, |t'.uids[key]|)
  {
  }

  /** Raising and lowering change the counters of a known key by the amounts given, and nothing of an unknown one. */
  lemma RaisingEffect(t: Tables, key: Key, add: int, del: int)
    ensures key !in t.counts ==>
      Step(t, RaiseExpectations(key, add, del)) == t == Step(t, LowerExpectations(key, add, del))
    ensures var raised, lowered := Step(t, RaiseExpectations(key, add, del)), Step(t, LowerExpectations(key, add, del));
      key in t.counts ==>
        && key in raised.counts && key in lowered.counts
        && raised.counts[key] == Counts(t.counts[key].add + add, t.counts[key].del + del)
        && lowered.counts[key] == Counts(t.counts[key].add - add, t.counts[key].del - del)
  {
  }

  /** Lowering undoes raising. */
  lemma LoweringUndoesRaising(t: Tables, key: Key, add: int, del: int)
    ensures Step(Step(t, RaiseExpectations(key, add, del)), LowerExpectations(key, add, del)) == t
  {
    if key in t.counts {
      assert Step(Step(t, RaiseExpectations(key, add, del)), LowerExpectations(key, add, del)).counts == t.counts;
    }
  }

  /** After DeleteExpectations nothing is waited for, and nothing is known of the key. */
  lemma DeletingEffect(t: Tables, key: Key, expired: bool)
    ensures var t' := Step(t, DeleteExpectations(key));
      key !in t'.counts && key !in t'.uids && Satisfied(t', key, expired)
  {
  }

  // ---------- No more deletions than UIDs are waited for ----------

  ghost predicate Bounded(t: Tables) {
    forall key <- t.counts :: t.counts[key].del <= |t.Uids(key)|
  }

  /** The calls that could ask for deletions without naming UIDs ask for no more than there are UIDs. */
  predicate Covered(t: Tables, c: Call) {
    match c
    case SetExpectations(key, _, del) => del <= |t.Uids(key)|
    case RaiseExpectations(key, _, del) => key in t.counts ==> t.counts[key].del + del <= |t.Uids(key)|
    case LowerExpectations(key, _, del) => key in t.counts ==> t.counts[key].del - del <= |t.Uids(key)|
    case _ => true
  }

  lemma BoundedIff(t: Tables, c: Call)
    requires Bounded(t)
    ensures Bounded(Step(t, c)) <==> Covered(t, c)
  {
    var t' := Step(t, c);
    assert forall key <- t.counts :: key != c.key && key in t'.counts ==> t'.counts[key] == t.counts[key];
    assert forall key :: key != c.key ==> t'.Uids(key) == t.Uids(key);
    assert c.key in t'.counts ==> (t'.counts[c.key].del <= |t'.Uids(c.key)| <==> Covered(t, c));
  }

  ghost predicate AllCovered(t: Tables, calls: seq<Call>) {
    forall i :: 0 <= i < |calls| ==> Covered(Run(t, calls[..i]), calls[i])
  }

  /** Without raising or setting counts directly there is nothing to check. */
  predicate OnlyLowers(c: Call) {
    !c.SetExpectations? && !c.RaiseExpectations? && (c.LowerExpectations? ==> c.del >= 0)
  }

  lemma {:induction false} EveryRunIsBounded(calls: seq<Call>)
    requires AllCovered(Tables(map[], map[]), calls)
    ensures Bounded(Run(Tables(map[], map[]), calls))
  {
    if calls != [] {
      var n := |calls| - 1;
      var start := Tables(map[], map[]);
      forall i | 0 <= i < n ensures Covered(Run(start, calls[..n][..i]), calls[..n][i]) {
        assert calls[..n][..i] == calls[..i];
      }
      EveryRunIsBounded(calls[..n]);
      BoundedIff(Run(start, calls[..n]), calls[n]);
    }
  }

  lemma {:induction false} LoweringIsCovered(calls: seq<Call>)
    requires forall c <- calls :: OnlyLowers(c)
    ensures AllCovered(Tables(map[], map[]), calls)
  {
    if calls != [] {
      var n := |calls| - 1;
      var start := Tables(map[], map[]);
      LoweringIsCovered(calls[..n]);
      EveryRunIsBounded(calls[..n]);
      forall i | 0 <= i < |calls| ensures Covered(Run(start, calls[..i]), calls[i]) {
        assert calls[i] in calls;
        if i < n {
          assert calls[..n][..i] == calls[..i];
          assert Covered(Run(start, calls[..n][..i]), calls[..n][i]);
        } else {
          assert Bounded(Run(start, calls[..n]));
        }
      }
    }
  }

  /** Once every expected deletion has been seen, no deletion is waited for. */
  lemma SeenAllIsEnough(calls: seq<Call>, key: Key, expired: bool)
    requires forall c <- calls :: OnlyLowers(c)
    requires Run(Tables(map[], map[]), calls).Uids(key) == {}
    ensures var t := Run(Tables(map[], map[]), calls);
      && (key in t.counts ==> t.counts[key].del <= 0)
      && (key in t.counts && t.counts[key].add <= 0 ==> Satisfied(t, key, expired))
  {
    LoweringIsCovered(calls);
    EveryRunIsBounded(calls);
  }

  /** A raise outside the UID table can leave a controller waiting although it has seen every deletion. */
  lemma RaisingMayOvercount()
    ensures var calls := [ExpectDeletions("rc", ["a"]), RaiseExpectations("rc", 0, 1), DeletionObserved("rc", "a")];
      var t := Run(Tables(map[], map[]), calls);
      t.Uids("rc") == {} && !Satisfied(t, "rc", false)
  {
    var t0 := Tables(map[], map[]);
    var c0, c1, c2 := ExpectDeletions("rc", ["a"]), RaiseExpectations("rc", 0, 1), DeletionObserved("rc", "a");
    assert [c0, c1, c2][..2] == [c0, c1] && [c0, c1][..1] == [c0] && [c0][..0] == [];
    assert Run(t0, [c0]) == Step(t0, c0);
    assert Elements(["a"]) == {"a"};
    assert Run(t0, [c0]) == Tables(map["rc" := Counts(0, 1)], map["rc" := {"a"}]);
    assert Run(t0, [c0, c1]) == Step(Run(t0, [c0]), c1);
    assert Run(t0, [c0, c1]).counts["rc"].del == 2;
    assert Run(t0, [c0, c1, c2]) == Step(Run(t0, [c0, c1]), c2);
  }

  // ---------- Nothing is counted twice ----------

  /** Between two decisions of the controller: its deletions and creations come in, in any order. */
  predicate Observation(c: Call, key: Key) {
    c.key == key ==> c.DeletionObserved? || c.CreationObserved?
  }

  function Seen(calls: seq<Call>, key: Key): set<Uid> {
    set c <- calls | c.DeletionObserved? && c.key == key :: c.uid
  }

  function Creations(calls: seq<Call>, key: Key): nat {
    if calls == [] then 0
    else Creations(calls[..|calls| - 1], key) + (if calls[|calls| - 1] == CreationObserved(key) then 1 else 0)
  }

  /** What is known after `seen` and `created` have come in. */
  ghost predicate Counting(t: Tables, key: Key, expected: set<Uid>, seen: set<Uid>, created: nat) {
    && key in t.counts && key in t.uids
    && t.uids[key] == expected - seen
    && t.counts[key].del == |expected - seen|
    && t.counts[key].add + created == 0
  }

  lemma ObservationCounts(t: Tables, c: Call, key: Key, expected: set<Uid>, seen: set<Uid>, created: nat)
    requires Counting(t, key, expected, seen, created) && Observation(c, key)
    ensures Counting(Step(t, c), key, expected,
                     if c.key == key && c.DeletionObserved? then seen + {c.uid} else seen,
                     if c == CreationObserved(key) then created + 1 else created)
  {
    if c.key == key && c.DeletionObserved? {
      assert expected - (seen + {c.uid}) == expected - seen - {c.uid};
    }
  }

  lemma {:induction false} RunCounts(t: Tables, calls: seq<Call>, key: Key, expected: set<Uid>)
    requires Counting(t, key, expected, {}, 0)
    requires forall c <- calls :: Observation(c, key)
    ensures Counting(Run(t, calls), key, expected, Seen(calls, key), Creations(calls, key))
  {
    if calls == [] {
      assert Seen(calls, key) == {};
    } else {
      var n := |calls| - 1;
      var last := calls[n];
      RunCounts(t, calls[..n], key, expected);
      assert calls == calls[..n] + [last];
      assert Seen(calls, key) ==
        if last.key == key && last.DeletionObserved? then Seen(calls[..n], key) + {last.uid} else Seen(calls[..n], key);
      ObservationCounts(Run(t, calls[..n]), last, key, expected, Seen(calls[..n], key), Creations(calls[..n], key));
    }
  }

  /** Repeated, unknown or interleaved, what counts is the set of expected UIDs seen. */
  lemma CountsDistinctUids(t: Tables, key: Key, deletedKeys: seq<Uid>, calls: seq<Call>)
    requires forall c <- calls :: Observation(c, key)
    ensures var expected := Elements(deletedKeys);
      var t' := Run(Step(t, ExpectDeletions(key, deletedKeys)), calls);
      && key in t'.counts && key in t'.uids
      && t'.uids[key] == expected - Seen(calls, key)
      && t'.counts[key].del == |expected| - |expected * Seen(calls, key)|
      && t'.counts[key].del == |t'.uids[key]|
      && t'.counts[key].add + Creations(calls, key) == 0
  {
    var expected, seen := Elements(deletedKeys), Seen(calls, key);
    assert expected - {} == expected;
    RunCounts(Step(t, ExpectDeletions(key, deletedKeys)), calls, key, expected);
    assert expected == expected * seen + (expected - seen);
  }

  /** So the controller is woken when, and unless it gives up not before, every expected UID has been seen. */
  lemma WokenIffAllSeen(t: Tables, key: Key, deletedKeys: seq<Uid>, calls: seq<Call>, expired: bool)
    requires forall c <- calls :: Observation(c, key)
    ensures Satisfied(Run(Step(t, ExpectDeletions(key, deletedKeys)), calls), key, expired) <==>
      expired || forall u <- deletedKeys :: DeletionObserved(key, u) in calls
  {
    CountsDistinctUids(t, key, deletedKeys, calls);
    var expected := Elements(deletedKeys);
    var left := expected - Seen(calls, key);
    assert forall u <- deletedKeys :: u in expected;
    forall u ensures u in Seen(calls, key) <==> DeletionObserved(key, u) in calls {
      if DeletionObserved(key, u) in calls {
        assert DeletionObserved(key, u).uid in Seen(calls, key);
      }
    }
    if |left| > 0 {
      var u :| u in left;
      assert u in deletedKeys && DeletionObserved(key, u) !in calls;
    } else {
      assert left == {};
      forall u | u in deletedKeys ensures DeletionObserved(key, u) in calls {
        assert u !in left;
      }
    }
  }

  // ---------- The objects ----------

  class ControlleeExpectations {
    var add: int
    var del: int
    const key: Key

    constructor (key: Key, add: int, del: int)
      ensures this.key == key && this.add == add && this.del == del
    {
      this.key, this.add, this.del := key, add, del;
    }

    method Add(add: int, del: int)
      modifies this
      ensures this.add == old(this.add) + add && this.del == old(this.del) + del
    {
      this.add := this.add + add;
      this.del := this.del + del;
    }

    method Fulfilled() returns (r: bool)
      ensures r <==> add <= 0 && del <= 0
    {
      r := add <= 0;
      if r { r := del <= 0; }
    }
  }

  class ControllerExpectations {
    var store: map<Key, ControlleeExpectations>

    ghost predicate Valid()
      reads this
    {
      forall key <- store :: store[key].key == key
    }

    ghost function View(): map<Key, Counts>
      reads this, store.Values
    {
      map key <- store :: Counts(store[key].add, store[key].del)
    }

    constructor ()
      ensures Valid() && store == map[] && View() == map[]
    {
      store := map[];
    }

    method SetExpectations(key: Key, add: int, del: int)
      requires Valid()
      modifies this
      ensures Valid() && View() == old(View())[key := Counts(add, del)]
      ensures fresh(store.Values - old(store.Values))
    {
      var exp := new ControlleeExpectations(key, add, del);
      store := store[key := exp];
      assert store[key] == exp;
    }

    method RaiseExpectations(key: Key, add: int, del: int)
      requires Valid()
      modifies store.Values
      ensures Valid()
      ensures View() == Raise(Tables(old(View()), map[]), key, add, del).counts
    {
      if key in store {
        store[key].Add(add, del);
      }
    }

    method LowerExpectations(key: Key, add: int, del: int)
      requires Valid()
      modifies store.Values
      ensures Valid()
      ensures View() == Raise(Tables(old(View()), map[]), key, -add, -del).counts
    {
      if key in store {
        store[key].Add(-add, -del);
      }
    }

    method ExpectCreations(key: Key, adds: int)
      requires Valid()
      modifies this
      ensures Valid() && View() == old(View())[key := Counts(adds, 0)]
      ensures fresh(store.Values - old(store.Values))
    {
      SetExpectations(key, adds, 0);
    }

    method CreationObserved(key: Key)
      requires Valid()
      modifies store.Values
      ensures Valid()
      ensures View() == Raise(Tables(old(View()), map[]), key, -1, 0).counts
    {
      LowerExpectations(key, 1, 0);
    }

    method DeleteExpectations(key: Key)
      requires Valid()
      modifies this
      ensures Valid() && View() == old(View()) - {key} && store.Values <= old(store.Values)
    {
      if key in store {
        store := store - {key};
      }
    }

    method SatisfiedExpectations(key: Key, expired: bool) returns (r: bool)
      requires Valid()
      ensures r <==> (key in View() && (View()[key].add > 0 || View()[key].del > 0) ==> expired)
    {
      if key !in store { return true; }
      var fulfilled := store[key].Fulfilled();
      return fulfilled || expired;
    }
  }

  class UIDSet {
    var members: set<Uid>
    const key: Key

    constructor (key: Key, members: set<Uid>)
      ensures this.key == key && this.members == members
    {
      this.key, this.members := key, members;
    }
  }

  method InsertAll(deletedKeys: seq<Uid>) returns (r: set<Uid>)
    ensures r == Elements(deletedKeys)
  {
    r := {};
    for i := 0 to |deletedKeys|
      invariant r == Elements(deletedKeys[..i])
    {
      r := r + {deletedKeys[i]};
      assert deletedKeys[..i + 1] == deletedKeys[..i] + [deletedKeys[i]];
    }
    assert deletedKeys[..|deletedKeys|] == deletedKeys;
  }

  class UIDTrackingControllerExpectations {
    const expectations: ControllerExpectations
    var uidStore: map<Key, UIDSet>

    ghost predicate Valid()
      reads this, expectations
    {
      && expectations.Valid()
      && forall key <- uidStore :: uidStore[key].key == key
    }

    ghost function View(): Tables
      reads this, expectations, expectations.store.Values, uidStore.Values
    {
      Tables(expectations.View(), map key <- uidStore :: uidStore[key].members)
    }

    constructor (expectations: ControllerExpectations)
      requires expectations.Valid()
      ensures Valid() && this.expectations == expectations && View() == Tables(expectations.View(), map[])
    {
      this.expectations := expectations;
      uidStore := map[];
    }

    method ExpectDeletions(key: Key, deletedKeys: seq<Uid>)
      requires Valid()
      modifies this, expectations
      ensures Valid() && View() == Step(old(View()), Call.ExpectDeletions(key, deletedKeys))
    {
      var expected := InsertAll(deletedKeys);
      var uids := new UIDSet(key, expected);
      uidStore := uidStore[key := uids];
      ghost var uidTable := old(View()).uids[key := expected];
      assert View().uids == uidTable;
      expectations.SetExpectations(key, 0, |expected|);
      assert View().uids == uidTable;
    }

    method DeletionObserved(key: Key, uid: Uid)
      requires Valid()
      modifies expectations.store.Values, uidStore.Values
      ensures Valid() && View() == Step(old(View()), Call.DeletionObserved(key, uid))
    {
      if key in uidStore && uid in uidStore[key].members {
        expectations.LowerExpectations(key, 0, 1);
        var uids := uidStore[key];
        uids.members := uids.members - {uid};
        assert forall k <- uidStore :: k != key ==> uidStore[k] != uids;
      }
    }

    method DeleteExpectations(key: Key)
      requires Valid()
      modifies this, expectations
      ensures Valid() && View() == Step(old(View()), Call.DeleteExpectations(key))
    {
      expectations.DeleteExpectations(key);
      if key in uidStore {
        uidStore := uidStore - {key};
      }
    }
  }
}
