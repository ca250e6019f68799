/**
  The expectations under concurrent calls. One step is one atomic load or add on a counter, one
  operation on a store, or the taking of the UID lock together with the reads made under it. A
  ControlleeExpectations object is an index into a heap, because a thread may go on using one that
  the store has replaced since.
 */
module ExpectationsInterleaved {
  import opened Wrappers
  import opened Expectations

  type Thread = nat
  type Object = nat

  /** Where a thread is in its call. */
  datatype Local =
    | Adding(obj: Object, add: int, del: int)       // LowerExpectations and RaiseExpectations: both adds to come
    | AddingDel(obj: Object, del: int)
    | Loading(obj: Object)                          // Fulfilled: both loads to come
    | LoadingDel(obj: Object)                       // the first load was not positive
    | Expecting(key: Key, n: nat)                   // the UID set is stored, the counts are not; holds the lock
    | Observing(key: Key, uid: Uid)                 // the UID is expected; holds the lock
    | Lowering(key: Key, uid: Uid, obj: Object)     // holds the lock
    | Removing(key: Key, uid: Uid)                  // counted, the UID not yet removed; holds the lock
    | Forgetting(key: Key)                          // holds the lock
    | Deleting(key: Key)                            // the counts are known to be stored; holds the lock
    | Dropping(key: Key)                            // holds the lock
  {
    predicate HoldsLock() { !Adding? && !AddingDel? && !Loading? && !LoadingDel? }
  }

  datatype State = State(
    heap: seq<Counts>, store: map<Key, Object>, uids: map<Key, set<Uid>>,
    lock: Option<Thread>, locals: map<Thread, Local>)
  {
    function Uids(key: Key): set<Uid> { if key in uids then uids[key] else {} }
  }

  datatype Event =
    | ExpectCreations(key: Key, adds: int)
    | Add(t: Thread, key: Key, add: int, del: int)
    | Fulfilled(t: Thread, key: Key)
    | ExpectDeletions(t: Thread, key: Key, deletedKeys: seq<Uid>)
    | DeletionObserved(t: Thread, key: Key, uid: Uid)
    | DeleteExpectations(t: Thread, key: Key)
    | Advance(t: Thread)

  function Start(): State { State([], map[], map[], None, map[]) }

  /** A fresh object for the key. */
  function NewCounts(s: State, key: Key, add: int, del: int): State {
    s.(heap := s.heap + [Counts(add, del)], store := s.store[key := |s.heap|])
  }

  function AddTo(s: State, obj: Object, add: int, del: int): State {
    if obj < |s.heap| then s.(heap := s.heap[obj := Counts(s.heap[obj].add + add, s.heap[obj].del + del)]) else s
  }

  function Goto(s: State, t: Thread, local: Local): State { s.(locals := s.locals[t := local]) }

  function Lock(s: State, t: Thread, local: Local): State { Goto(s, t, local).(lock := Some(t)) }

  function Done(s: State, t: Thread): State { s.(locals := s.locals - {t}) }

  function Unlock(s: State, t: Thread): State { Done(s, t).(lock := None) }

  function Next(s: State, t: Thread): State
    requires t in s.locals
  {
    match s.locals[t]
    case Adding(obj, add, del) => Goto(AddTo(s, obj, add, 0), t, AddingDel(obj, del))
    case AddingDel(obj, del) => Done(AddTo(s, obj, 0, del), t)
    case Loading(obj) => if obj < |s.heap| && s.heap[obj].add <= 0 then Goto(s, t, LoadingDel(obj)) else Done(s, t)
    case LoadingDel(obj) => Done(s, t)
    case Expecting(key, n) => Unlock(NewCounts(s, key, 0, n), t)
    case Observing(key, uid) =>
      Goto(s, t, if key in s.store then Lowering(key, uid, s.store[key]) else Removing(key, uid))
    case Lowering(key, uid, obj) => Goto(AddTo(s, obj, 0, -1), t, Removing(key, uid))
    case Removing(key, uid) => Unlock(s.(uids := s.uids[key := s.Uids(key) - {uid}]), t)
    case Forgetting(key) => Goto(s, t, if key in s.store then Deleting(key) else Dropping(key))
    case Deleting(key) => Goto(s.(store := s.store - {key}), t, Dropping(key))
    case Dropping(key) => Unlock(s.(uids := s.uids - {key}), t)
  }

  /** What Fulfilled returns when thread t makes its second load. */
  predicate SecondLoad(s: State, obj: Object) { obj < |s.heap| && s.heap[obj].del <= 0 }

  /** A thread in a call starts no other; who wants the lock waits until it is free. */
  predicate Enabled(s: State, e: Event) {
    match e
    case ExpectCreations(_, _) => true
    case Add(t, _, _, _) => t !in s.locals
    case Fulfilled(t, _) => t !in s.locals
    case ExpectDeletions(t, _, _) => t !in s.locals && s.lock == None
    case DeletionObserved(t, _, _) => t !in s.locals && s.lock == None
    case DeleteExpectations(t, _) => t !in s.locals && s.lock == None
    case Advance(t) => t in s.locals
  }

  function Step(s: State, e: Event): State {
    if !Enabled(s, e) then s
    else match e
      case ExpectCreations(key, adds) => NewCounts(s, key, adds, 0)
      case Add(t, key, add, del) => if key in s.store then Goto(s, t, Adding(s.store[key], add, del)) else s
      case Fulfilled(t, key) => if key in s.store then Goto(s, t, Loading(s.store[key])) else s
      case ExpectDeletions(t, key, deletedKeys) =>
        var expected := Elements(deletedKeys);
        Lock(s.(uids := s.uids[key := expected]), t, Expecting(key, |expected|))
      case DeletionObserved(t, key, uid) => if uid in s.Uids(key) then Lock(s, t, Observing(key, uid)) else s
      case DeleteExpectations(t, key) => Lock(s, t, Forgetting(key))
      case Advance(t) => Next(s, t)
  }

  function Run(s: State, events: seq<Event>): State {
    if events == [] then s else Step(Run(s, events[..|events| - 1]), events[|events| - 1])
  }

  /** Once set, expectations are only lowered. */
  predicate OnlyLowers(e: Event) { e.Add? ==> e.add <= 0 && e.del <= 0 }

  // ---------- The invariant ----------

  /** The objects in use exist, and no two keys share one. */
  ghost predicate StoreOk(heap: seq<Counts>, store: map<Key, Object>) {
    && (forall key <- store :: store[key] < |heap|)
    && forall k1, k2 :: k1 in store && k2 in store && store[k1] == store[k2] ==> k1 == k2
  }

  ghost predicate LocalOk(heap: seq<Counts>, local: Local) {
    match local
    case Adding(obj, add, del) => obj < |heap| && add <= 0 && del <= 0
    case AddingDel(obj, del) => obj < |heap| && del <= 0
    case Loading(obj) => obj < |heap|
    case LoadingDel(obj) => obj < |heap| && heap[obj].add <= 0
    case Lowering(_, _, obj) => obj < |heap|
    case _ => true
  }

  ghost predicate LocalsOk(s: State) {
    forall t <- s.locals :: LocalOk(s.heap, s.locals[t]) && (s.locals[t].HoldsLock() <==> s.lock == Some(t))
  }

  /** What the holder of the lock has seen of the UIDs still holds. */
  ghost predicate HolderOk(s: State) {
    s.lock.Some? ==>
      && s.lock.value in s.locals
      && match s.locals[s.lock.value] {
           case Expecting(key, n) => n == |s.Uids(key)|
           case Observing(key, uid) => uid in s.Uids(key)
           case Lowering(key, uid, _) => uid in s.Uids(key)
           case Removing(key, uid) => uid in s.Uids(key)
           case _ => true
         }
  }

  /** How many deletions may be waited for while the lock is held at this point. */
  ghost predicate DelOk(del: int, uids: nat, obj: Object, local: Local) {
    match local
    case Expecting(_, _) => true
    case Lowering(_, _, lowering) => del <= uids && (obj != lowering ==> del <= 0)
    case Removing(_, _) => del <= uids - 1
    case Dropping(_) => del <= 0
    case _ => del <= uids
  }

  ghost predicate KeyOk(s: State, key: Key) {
    && key in s.store && s.store[key] < |s.heap|
    && var del := s.heap[s.store[key]].del;
       if s.lock.Some? && s.lock.value in s.locals
          && s.locals[s.lock.value].HoldsLock() && s.locals[s.lock.value].key == key
       then DelOk(del, |s.Uids(key)|, s.store[key], s.locals[s.lock.value])
       else del <= |s.Uids(key)|
  }

  ghost predicate Inv(s: State) {
    && StoreOk(s.heap, s.store)
    && LocalsOk(s)
    && HolderOk(s)
    && forall key <- s.store :: KeyOk(s, key)
  }

  // ---------- Every interleaving ----------

  /** Objects come and are lowered; nothing else happens to them. */
  ghost predicate Lowered(before: seq<Counts>, after: seq<Counts>) {
    && |before| <= |after|
    && forall obj :: 0 <= obj < |before| ==> after[obj].add <= before[obj].add && after[obj].del <= before[obj].del
  }

  lemma StepLowers(s: State, e: Event)
    requires Inv(s) && OnlyLowers(e)
    ensures Lowered(s.heap, Step(s, e).heap)
  {
    if Enabled(s, e) && e.Advance? { NextLowers(s, e.t); }
  }

  lemma NextLowers(s: State, t: Thread)
    requires t in s.locals && LocalOk(s.heap, s.locals[t])
    ensures Lowered(s.heap, Next(s, t).heap)
  {
  }

  lemma StepKeepsStore(s: State, e: Event)
    requires Inv(s)
    ensures StoreOk(Step(s, e).heap, Step(s, e).store)
  {
    if Enabled(s, e) && e.Advance? { NextKeepsStore(s, e.t); }
  }

  lemma NextKeepsStore(s: State, t: Thread)
    requires StoreOk(s.heap, s.store) && t in s.locals
    ensures StoreOk(Next(s, t).heap, Next(s, t).store)
  {
  }

  /** What a thread knows about its object survives while objects are only lowered. */
  lemma LoweredKeepsLocal(before: seq<Counts>, after: seq<Counts>, local: Local)
    requires Lowered(before, after) && LocalOk(before, local)
    ensures LocalOk(after, local)
  {
  }

  lemma NextLocal(s: State, t: Thread)
    requires StoreOk(s.heap, s.store) && t in s.locals && LocalOk(s.heap, s.locals[t])
    ensures var s' := Next(s, t);
      && (t in s'.locals ==> LocalOk(s'.heap, s'.locals[t]))
      && (forall u <- s'.locals :: u != t ==> u in s.locals && s'.locals[u] == s.locals[u])
  {
  }

  lemma NextLock(s: State, t: Thread)
    requires t in s.locals && (s.locals[t].HoldsLock() <==> s.lock == Some(t))
    ensures var s' := Next(s, t);
      && (t in s'.locals ==> (s'.locals[t].HoldsLock() <==> s'.lock == Some(t)))
      && (forall u :: u != t ==> (s'.lock == Some(u) <==> s.lock == Some(u)))
  {
  }

  lemma NextKeepsLocals(s: State, t: Thread)
    requires Inv(s) && t in s.locals
    ensures LocalsOk(Next(s, t))
  {
    var s' := Next(s, t);
    assert LocalOk(s.heap, s.locals[t]);
    NextLocal(s, t);
    NextLock(s, t);
    StepLowers(s, Advance(t));
    forall u | u in s'.locals
      ensures LocalOk(s'.heap, s'.locals[u]) && (s'.locals[u].HoldsLock() <==> s'.lock == Some(u))
    {
      if u != t {
        assert LocalOk(s.heap, s.locals[u]);
        LoweredKeepsLocal(s.heap, s'.heap, s.locals[u]);
      }
    }
  }

  lemma StepKeepsLocals(s: State, e: Event)
    requires Inv(s) && OnlyLowers(e)
    ensures LocalsOk(Step(s, e))
  {
    if Enabled(s, e) {
      match e
      case Advance(t) => NextKeepsLocals(s, t);
      case ExpectCreations(key, adds) =>
        StepLowers(s, e);
        forall u | u in s.locals ensures LocalOk(Step(s, e).heap, s.locals[u]) {
          LoweredKeepsLocal(s.heap, Step(s, e).heap, s.locals[u]);
        }
      case _ => BeginKeepsLocals(s, e);
    }
  }

  lemma BeginKeepsLocals(s: State, e: Event)
    requires Inv(s) && OnlyLowers(e) && Enabled(s, e) && !e.Advance? && !e.ExpectCreations?
    ensures LocalsOk(Step(s, e))
  {
    var s' := Step(s, e);
    forall u | u in s'.locals
      ensures LocalOk(s'.heap, s'.locals[u]) && (s'.locals[u].HoldsLock() <==> s'.lock == Some(u))
    {
      if u != e.t {
        assert LocalOk(s.heap, s.locals[u]) && (s.locals[u].HoldsLock() <==> s.lock == Some(u));
      }
    }
  }

  lemma StepKeepsHolder(s: State, e: Event)
    requires Inv(s) && OnlyLowers(e)
    ensures HolderOk(Step(s, e))
  {
    if Enabled(s, e) && e.Advance? { NextKeepsHolder(s, e.t); }
  }

  lemma NextKeepsHolder(s: State, t: Thread)
    requires HolderOk(s) && LocalsOk(s) && t in s.locals
    ensures HolderOk(Next(s, t))
  {
  }

  /** A UID that is in the set makes room for one deletion. */
  lemma MemberCounts(s: State, key: Key, uid: Uid)
    requires uid in s.Uids(key)
    ensures |s.Uids(key)| >= 1 && |s.Uids(key) - {uid}| == |s.Uids(key)| - 1
  {
  }

  lemma CreatedKeepsKey(s: State, created: Key, adds: int, key: Key)
    requires Inv(s) && (key == created || key in s.store)
    ensures KeyOk(NewCounts(s, created, adds, 0), key)
  {
    if key == created {
      if s.lock.Some? && s.locals[s.lock.value].Removing? && s.locals[s.lock.value].key == key {
        MemberCounts(s, key, s.locals[s.lock.value].uid);
      }
    } else {
      assert KeyOk(s, key);
    }
  }

  lemma AddKeepsKey(s: State, t: Thread, key: Key)
    requires Inv(s) && t in s.locals && !s.locals[t].HoldsLock() && key in s.store
    ensures KeyOk(Next(s, t), key)
  {
    assert KeyOk(s, key);
    assert LocalOk(s.heap, s.locals[t]);
  }

  lemma HolderKeepsKey(s: State, t: Thread, key: Key)
    requires Inv(s) && t in s.locals && s.locals[t].HoldsLock() && key in Next(s, t).store
    ensures KeyOk(Next(s, t), key)
  {
    assert s.lock == Some(t);
    var local := s.locals[t];
    if key == local.key {
      assert key in s.store ==> KeyOk(s, key);
      if local.Lowering? || local.Removing? { MemberCounts(s, key, local.uid); }
    } else {
      OthersKeepKey(s, t, key);
    }
  }

  lemma OthersKeepKey(s: State, t: Thread, key: Key)
    requires Inv(s) && t in s.locals && s.lock == Some(t) && s.locals[t].HoldsLock()
    requires key != s.locals[t].key && key in Next(s, t).store
    ensures KeyOk(Next(s, t), key)
  {
    assert KeyOk(s, key);
    assert Next(s, t).Uids(key) == s.Uids(key);
    assert Next(s, t).store[key] == s.store[key];
    assert Next(s, t).heap[s.store[key]].del <= s.heap[s.store[key]].del;
  }

  lemma BeginKeepsKey(s: State, e: Event, key: Key)
    requires Inv(s) && Enabled(s, e) && !e.Advance? && !e.ExpectCreations? && key in s.store
    ensures KeyOk(Step(s, e), key)
  {
    assert KeyOk(s, key);
  }

  lemma StepKeepsKey(s: State, e: Event, key: Key)
    requires Inv(s) && OnlyLowers(e) && key in Step(s, e).store
    ensures KeyOk(Step(s, e), key)
  {
    if !Enabled(s, e) {
      assert KeyOk(s, key);
    } else {
      match e
      case ExpectCreations(created, adds) => CreatedKeepsKey(s, created, adds, key);
      case Advance(t) => if s.locals[t].HoldsLock() { HolderKeepsKey(s, t, key); } else { AddKeepsKey(s, t, key); }
      case _ => BeginKeepsKey(s, e, key);
    }
  }

  lemma StepKeepsInv(s: State, e: Event)
    requires Inv(s) && OnlyLowers(e)
    ensures Inv(Step(s, e))
  {
    StepKeepsStore(s, e);
    StepKeepsLocals(s, e);
    StepKeepsHolder(s, e);
    forall key | key in Step(s, e).store ensures KeyOk(Step(s, e), key) {
      StepKeepsKey(s, e, key);
    }
  }

  lemma {:induction false} EveryRunKeepsInv(events: seq<Event>)
    requires forall e <- events :: OnlyLowers(e)
    ensures Inv(Run(Start(), events))
  {
    if events != [] {
      EveryRunKeepsInv(events[..|events| - 1]);
      StepKeepsInv(Run(Start(), events[..|events| - 1]), events[|events| - 1]);
    }
  }

  /** In every interleaving, when nobody holds the UID lock no more deletions are waited for than UIDs. */
  lemma NoInterleavingOvercounts(events: seq<Event>, key: Key)
    requires forall e <- events :: OnlyLowers(e)
    requires Run(Start(), events).lock == None && key in Run(Start(), events).store
    ensures var s := Run(Start(), events);
      s.store[key] < |s.heap| && s.heap[s.store[key]].del <= |s.Uids(key)|
  {
    EveryRunKeepsInv(events);
    assert KeyOk(Run(Start(), events), key);
  }

  /** Though its two loads are apart, Fulfilled returns true only if both counters are down at the second. */
  lemma FulfilledAtSecondLoad(events: seq<Event>, t: Thread)
    requires forall e <- events :: OnlyLowers(e)
    requires t in Run(Start(), events).locals && Run(Start(), events).locals[t].LoadingDel?
    ensures var s := Run(Start(), events);
      var obj := s.locals[t].obj;
      && obj < |s.heap|
      && (SecondLoad(s, obj) <==> s.heap[obj].add <= 0 && s.heap[obj].del <= 0)
  {
    EveryRunKeepsInv(events);
    var s := Run(Start(), events);
    assert LocalOk(s.heap, s.locals[t]);
  }

  /** And they stay down, whatever follows. */
  lemma {:induction false} FulfilledForever(events: seq<Event>, more: seq<Event>, obj: Object)
    requires forall e <- events + more :: OnlyLowers(e)
    requires var s := Run(Start(), events); obj < |s.heap| && s.heap[obj].add <= 0 && s.heap[obj].del <= 0
    ensures var s := Run(Start(), events + more); obj < |s.heap| && s.heap[obj].add <= 0 && s.heap[obj].del <= 0
  {
    if more == [] {
      assert events + more == events;
    } else {
      var n := |more| - 1;
      var before := events + more[..n];
      assert (events + more)[..|events + more| - 1] == before;
      FulfilledForever(events, more[..n], obj);
      EveryRunKeepsInv(before);
      assert more[n] in events + more;
      StepLowers(Run(Start(), before), more[n]);
    }
  }

  /** The state after n events of the run below. */
  function Fooled(n: nat): State
    requires n <= |Fooling()|
  {
    Run(Start(), Fooling()[..n])
  }

  lemma FooledNext(n: nat)
    requires n < |Fooling()|
    ensures Fooled(n + 1) == Step(Fooled(n), Fooling()[n])
  {
    assert Fooling()[..n + 1][..n] == Fooling()[..n];
  }

  lemma FooledHalfway()
    ensures Fooled(2) == State([Counts(0, 1)], map["rc" := 0], map["rc" := {"a"}], None, map[])
    ensures Fooled(3) == Fooled(2).(locals := map[0 := Loading(0)])
    ensures Fooled(4) == Fooled(2).(locals := map[0 := LoadingDel(0)])
  {
    FooledNext(0);
    FooledNext(1);
    FooledNext(2);
    FooledNext(3);
    assert Elements(["a"]) == {"a"};
  }

  /** Thread 0 is between its loads, thread 1 elsewhere. */
  function Half(c: Counts, other: map<Thread, Local>): State {
    State([c], map["rc" := 0], map["rc" := {"a"}], None, other + map[0 := LoadingDel(0)])
  }

  /** The three steps of thread 1 adding to the counters meanwhile. */
  lemma HalfAdds(c: Counts, add: int, del: int)
    ensures var s1 := Step(Half(c, map[]), Add(1, "rc", add, del));
      && s1 == Half(c, map[1 := Adding(0, add, del)])
      && Step(s1, Advance(1)) == Half(Counts(c.add + add, c.del), map[1 := AddingDel(0, del)])
  {
  }

  lemma HalfAddsDel(c: Counts, del: int)
    ensures Step(Half(c, map[1 := AddingDel(0, del)]), Advance(1)) == Half(Counts(c.add, c.del + del), map[])
  {
    assert Half(c, map[1 := AddingDel(0, del)]).locals - {1} == Half(c, map[]).locals;
  }

  /** From event n on, thread 1 adds to the counters. */
  lemma FooledAdds(n: nat, c: Counts, add: int, del: int)
    requires n + 3 <= |Fooling()| && Fooled(n) == Half(c, map[])
    requires Fooling()[n] == Add(1, "rc", add, del) && Fooling()[n + 1] == Fooling()[n + 2] == Advance(1)
    ensures Fooled(n + 1) == Half(c, map[1 := Adding(0, add, del)])
    ensures Fooled(n + 2) == Half(Counts(c.add + add, c.del), map[1 := AddingDel(0, del)])
    ensures Fooled(n + 3) == Half(Counts(c.add + add, c.del + del), map[])
  {
    FooledNext(n);
    FooledNext(n + 1);
    FooledNext(n + 2);
    HalfAdds(c, add, del);
    HalfAddsDel(Counts(c.add + add, c.del), del);
  }

  lemma FooledAtFour()
    ensures Fooled(2).heap == Fooled(3).heap == [Counts(0, 1)] && Fooled(4) == Half(Counts(0, 1), map[])
  {
    FooledHalfway();
    assert Half(Counts(0, 1), map[]).locals == map[0 := LoadingDel(0)];
  }

  lemma FooledAtSeven()
    requires Fooled(4) == Half(Counts(0, 1), map[])
    ensures Fooled(5).heap == [Counts(0, 1)] && Fooled(6).heap == [Counts(1, 1)]
    ensures Fooled(7) == Half(Counts(1, 1), map[])
  {
    FooledAdds(4, Counts(0, 1), 1, 0);
  }

  lemma FooledAtTen()
    requires Fooled(7) == Half(Counts(1, 1), map[])
    ensures Fooled(8).heap == Fooled(9).heap == [Counts(1, 1)] && Fooled(10) == Half(Counts(1, 0), map[])
  {
    FooledAdds(7, Counts(1, 1), 0, -1);
  }

  ghost predicate NeverBothDown(s: State) {
    |s.heap| == 1 && (s.heap[0].add > 0 || s.heap[0].del > 0)
  }

  lemma NotDown(s: State, c: Counts)
    requires s.heap == [c] && (c.add > 0 || c.del > 0)
    ensures NeverBothDown(s)
  {
  }

  /** With a raise between the loads Fulfilled returns true although both counters were never down together. */
  lemma RaisingFoolsFulfilled()
    ensures Fooled(4).locals == map[0 := LoadingDel(0)] == Fooled(10).locals
    ensures SecondLoad(Fooled(10), 0)
    ensures forall n :: 2 <= n <= 10 ==> NeverBothDown(Fooled(n))
  {
    FooledAtFour();
    FooledAtSeven();
    FooledAtTen();
    forall n | 2 <= n <= 10 ensures NeverBothDown(Fooled(n)) {
      var c := if n <= 5 then Counts(0, 1) else if n <= 9 then Counts(1, 1) else Counts(1, 0);
      assert n == 2 || n == 3 || n == 4 || n == 5 || n == 6 || n == 7 || n == 8 || n == 9 || n == 10;
      NotDown(Fooled(n), c);
    }
  }

  function Fooling(): seq<Event> {
    [Event.ExpectDeletions(1, "rc", ["a"]), Advance(1),
     Fulfilled(0, "rc"), Advance(0),
     Add(1, "rc", 1, 0), Advance(1), Advance(1),
     Add(1, "rc", 0, -1), Advance(1), Advance(1)]
  }

  // ---------- A call on its own ----------

  /** The tables that the stores and objects stand for. */
  ghost function View(s: State): Tables
    requires StoreOk(s.heap, s.store)
  {
    Tables(CountsView(s.heap, s.store), s.uids)
  }

  ghost function CountsView(heap: seq<Counts>, store: map<Key, Object>): map<Key, Counts>
    requires StoreOk(heap, store)
  {
    map key <- store :: heap[store[key]]
  }

  lemma NewCountsStored(heap: seq<Counts>, store: map<Key, Object>, key: Key, c: Counts)
    requires StoreOk(heap, store)
    ensures var heap', store' := heap + [c], store[key := |heap|];
      StoreOk(heap', store') && CountsView(heap', store') == CountsView(heap, store)[key := c]
  {
    forall k | k in store ensures (heap + [c])[store[k]] == heap[store[k]] {}
  }

  /** Thread t runs the whole call while the others wait. */
  function Alone(s: State, t: Thread, e: Event): State {
    var s1 := Step(s, e);
    var s2 := Step(s1, Advance(t));
    var s3 := Step(s2, Advance(t));
    Step(s3, Advance(t))
  }

  function CallOf(e: Event): Call
    requires !e.Fulfilled? && !e.Advance?
  {
    match e
    case ExpectCreations(key, adds) => Call.ExpectCreations(key, adds)
    case Add(_, key, add, del) => RaiseExpectations(key, add, del)
    case ExpectDeletions(_, key, deletedKeys) => Call.ExpectDeletions(key, deletedKeys)
    case DeletionObserved(_, key, uid) => Call.DeletionObserved(key, uid)
    case DeleteExpectations(_, key) => Call.DeleteExpectations(key)
  }

  /** As AloneIsAtomic, for one call. */
  ghost predicate Atomic(s: State, s': State, c: Call)
    requires StoreOk(s.heap, s.store)
  {
    StoreOk(s'.heap, s'.store) && View(s') == Expectations.Step(View(s), c) && s'.lock == None && s'.locals == s.locals
  }

  lemma AddToView(s: State, key: Key, add: int, del: int)
    requires StoreOk(s.heap, s.store) && key in s.store
    ensures var s' := AddTo(s, s.store[key], add, del);
      StoreOk(s'.heap, s'.store) && View(s') == Raise(View(s), key, add, del)
  {
  }

  lemma NewCountsView(s: State, key: Key, add: int, del: int)
    requires StoreOk(s.heap, s.store)
    ensures var s' := NewCounts(s, key, add, del); StoreOk(s'.heap, s'.store) && View(s') == Set(View(s), key, add, del)
  {
    NewCountsStored(s.heap, s.store, key, Counts(add, del));
  }

  lemma AddAlone(s: State, t: Thread, key: Key, add: int, del: int)
    requires StoreOk(s.heap, s.store) && t !in s.locals && s.lock == None
    ensures Atomic(s, Alone(s, t, Add(t, key, add, del)), RaiseExpectations(key, add, del))
  {
    if key in s.store {
      AddSteps(s, t, key, add, del);
      AddTwiceView(s, key, add, del);
    }
  }

  lemma AddTwiceView(s: State, key: Key, add: int, del: int)
    requires StoreOk(s.heap, s.store) && key in s.store
    ensures var s' := AddTo(AddTo(s, s.store[key], add, 0), s.store[key], 0, del);
      StoreOk(s'.heap, s'.store) && View(s') == Raise(View(s), key, add, del)
  {
    AddToView(s, key, add, 0);
    AddToView(AddTo(s, s.store[key], add, 0), key, 0, del);
  }

  lemma AddSteps(s: State, t: Thread, key: Key, add: int, del: int)
    requires t !in s.locals && key in s.store
    ensures Alone(s, t, Add(t, key, add, del)) == AddTo(AddTo(s, s.store[key], add, 0), s.store[key], 0, del)
  {
    var obj := s.store[key];
    var half := AddTo(s, obj, add, 0);
    var s1 := Step(s, Add(t, key, add, del));
    assert s1 == Goto(s, t, Adding(obj, add, del));
    var s2 := Step(s1, Advance(t));
    assert s2 == Goto(half, t, AddingDel(obj, del));
    assert Step(s2, Advance(t)) == AddTo(half, obj, 0, del);
  }

  lemma ExpectAlone(s: State, t: Thread, key: Key, deletedKeys: seq<Uid>)
    requires StoreOk(s.heap, s.store) && t !in s.locals && s.lock == None
    ensures Atomic(s, Alone(s, t, Event.ExpectDeletions(t, key, deletedKeys)), Call.ExpectDeletions(key, deletedKeys))
  {
    var expected := Elements(deletedKeys);
    var named := s.(uids := s.uids[key := expected]);
    NewCountsView(named, key, 0, |expected|);
    assert Step(Lock(named, t, Expecting(key, |expected|)), Advance(t)) == NewCounts(named, key, 0, |expected|);
  }

  lemma ObserveAlone(s: State, t: Thread, key: Key, uid: Uid)
    requires StoreOk(s.heap, s.store) && t !in s.locals && s.lock == None
    ensures Atomic(s, Alone(s, t, Event.DeletionObserved(t, key, uid)), Call.DeletionObserved(key, uid))
  {
    if uid in s.Uids(key) {
      if key in s.store {
        ObserveSteps(s, t, key, uid);
        AddToView(s, key, 0, -1);
      } else {
        ObserveUncounted(s, t, key, uid);
      }
    }
  }

  function WithoutUid(s: State, key: Key, uid: Uid): State { s.(uids := s.uids[key := s.Uids(key) - {uid}]) }

  lemma ObserveSteps(s: State, t: Thread, key: Key, uid: Uid)
    requires t !in s.locals && s.lock == None && uid in s.Uids(key) && key in s.store
    ensures Alone(s, t, Event.DeletionObserved(t, key, uid)) == WithoutUid(AddTo(s, s.store[key], 0, -1), key, uid)
  {
    var lowered := AddTo(s, s.store[key], 0, -1);
    var s1 := Step(s, Event.DeletionObserved(t, key, uid));
    var s2 := Step(s1, Advance(t));
    assert s2 == Lock(s, t, Lowering(key, uid, s.store[key]));
    var s3 := Step(s2, Advance(t));
    assert s3 == Lock(lowered, t, Removing(key, uid));
    assert Unlock(s3, t) == lowered;
  }

  lemma ObserveUncounted(s: State, t: Thread, key: Key, uid: Uid)
    requires t !in s.locals && s.lock == None && uid in s.Uids(key) && key !in s.store
    ensures Alone(s, t, Event.DeletionObserved(t, key, uid)) == WithoutUid(s, key, uid)
  {
    var s1 := Step(s, Event.DeletionObserved(t, key, uid));
    var s2 := Step(s1, Advance(t));
    assert s2 == Lock(s, t, Removing(key, uid));
    assert Unlock(s2, t) == s;
  }

  lemma DeleteAlone(s: State, t: Thread, key: Key)
    requires StoreOk(s.heap, s.store) && t !in s.locals && s.lock == None
    ensures Atomic(s, Alone(s, t, Event.DeleteExpectations(t, key)), Call.DeleteExpectations(key))
  {
    DeleteSteps(s, t, key);
    ForgetView(s, key);
  }

  lemma ForgetView(s: State, key: Key)
    requires StoreOk(s.heap, s.store)
    ensures var s' := s.(store := s.store - {key}, uids := s.uids - {key});
      StoreOk(s'.heap, s'.store) && View(s') == Tables(View(s).counts - {key}, View(s).uids - {key})
  {
  }

  lemma DeleteSteps(s: State, t: Thread, key: Key)
    requires t !in s.locals && s.lock == None
    ensures Alone(s, t, Event.DeleteExpectations(t, key)) == s.(store := s.store - {key}, uids := s.uids - {key})
  {
    var without := s.(store := s.store - {key});
    var s1 := Step(s, Event.DeleteExpectations(t, key));
    var s2 := Step(s1, Advance(t));
    if key in s.store {
      assert s2 == Lock(s, t, Deleting(key));
      assert Step(s2, Advance(t)) == Lock(without, t, Dropping(key));
    } else {
      assert without == s;
      assert s2 == Lock(s, t, Dropping(key));
    }
    assert Step(Lock(without, t, Dropping(key)), Advance(t)) == without.(uids := s.uids - {key});
  }

  /** A call that nobody interrupts does in its steps what it is said to do at once. */
  lemma AloneIsAtomic(s: State, t: Thread, e: Event)
    requires Inv(s) && t !in s.locals && s.lock == None && !e.Fulfilled? && !e.Advance?
    requires !e.ExpectCreations? ==> e.t == t
    ensures var s' := Alone(s, t, e);
      && StoreOk(s'.heap, s'.store) && View(s') == Expectations.Step(View(s), CallOf(e))
      && s'.lock == None && s'.locals == s.locals
  {
    match e
    case ExpectCreations(key, adds) => NewCountsView(s, key, adds, 0);
    case Add(_, key, add, del) => AddAlone(s, t, key, add, del);
    case ExpectDeletions(_, key, deletedKeys) => ExpectAlone(s, t, key, deletedKeys);
    case DeletionObserved(_, key, uid) => ObserveAlone(s, t, key, uid);
    case DeleteExpectations(_, key) => DeleteAlone(s, t, key);
  }
}
