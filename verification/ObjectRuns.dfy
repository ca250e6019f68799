/**
  Runs of informer events about whole objects.  An informer reports each change of an object as the
  pair of its last known state and its new state; what an object contributes to the table is a function
  of the object, so such a run is a run of the change tracker.
 */
module ObjectRuns {
  import opened Wrappers
  import opened ChangeTracking

  /** An object is added, updated or deleted; or a sync visits the pending items in some order. */
  datatype ObjectEvent<O> =
    | Observe(previous: Option<O>, current: Option<O>)
    | Sync(order: seq<NamespacedName>)

  /** The object an event is about; the trackers ignore an event with neither half. */
  function Subject<O>(previous: Option<O>, current: Option<O>): Option<O> {
    if current.Some? then current else previous
  }

  function ViewOf<O, V>(view: O -> GoMap<V>, o: Option<O>): GoMap<V> {
    if o.None? then Nil else view(o.value)
  }

  /** The last known objects, by name. */
  ghost function Known<O>(name: O -> NamespacedName, events: seq<ObjectEvent<O>>): map<NamespacedName, O>
    decreases |events|
  {
    if events == [] then map[]
    else
      var known := Known(name, events[..|events| - 1]);
      var e := events[|events| - 1];
      if e.Sync? || Subject(e.previous, e.current).None? then known
      else
        var n := name(Subject(e.previous, e.current).value);
        if e.current.Some? then known[n := e.current.value] else known - {n}
  }

  ghost function Find<O>(known: map<NamespacedName, O>, n: NamespacedName): Option<O> {
    if n in known then Some(known[n]) else None
  }

  /** The informer's promise: every event has a subject, and `previous` is its last known state. */
  ghost predicate Informed<O>(name: O -> NamespacedName, events: seq<ObjectEvent<O>>)
    decreases |events|
  {
    events == [] ||
    (var past, e := events[..|events| - 1], events[|events| - 1];
     && Informed(name, past)
     && (e.Observe? ==>
           && Subject(e.previous, e.current).Some?
           && e.previous == Find(Known(name, past), name(Subject(e.previous, e.current).value))))
  }

  ghost function TranslateOne<O, V>(name: O -> NamespacedName, view: O -> GoMap<V>, e: ObjectEvent<O>): Event<V>
    requires e.Observe? ==> Subject(e.previous, e.current).Some?
  {
    match e
    case Observe(previous, current) =>
      Update(name(Subject(previous, current).value), ViewOf(view, previous), ViewOf(view, current))
    case Sync(order) => Apply(order)
  }

  ghost function Translate<O, V>(name: O -> NamespacedName, view: O -> GoMap<V>, events: seq<ObjectEvent<O>>)
    : (r: seq<Event<V>>)
    requires Informed(name, events)
    ensures |r| == |events|
    decreases |events|
  {
    if events == [] then []
    else Translate(name, view, events[..|events| - 1]) + [TranslateOne(name, view, events[|events| - 1])]
  }

  /** Every sync visits exactly the items pending at that moment. */
  ghost predicate SyncsVisitAll<O, V>(name: O -> NamespacedName, view: O -> GoMap<V>, events: seq<ObjectEvent<O>>)
    requires Informed(name, events)
    decreases |events|
  {
    events == [] ||
    (var past, e := events[..|events| - 1], events[|events| - 1];
     && SyncsVisitAll(name, view, past)
     && (e.Sync? && AllowedRun(Translate(name, view, past)) ==>
           IsOrder(e.order, Run(Translate(name, view, past)).items.Keys)))
  }

  lemma {:induction false} InformedRunIsAllowed<O(!new), V(!new)>(
    name: O -> NamespacedName, view: O -> GoMap<V>, events: seq<ObjectEvent<O>>)
    requires forall o: O :: Owned(name(o), view(o))
    requires Informed(name, events) && SyncsVisitAll(name, view, events)
    ensures AllowedRun(Translate(name, view, events))
    ensures forall n :: Look(Run(Translate(name, view, events)).latest, n) == ViewOf(view, Find(Known(name, events), n))
    decreases |events|
  {
    if events != [] {
      var past, e := events[..|events| - 1], events[|events| - 1];
      InformedRunIsAllowed(name, view, past);
      var all := Translate(name, view, events);
      assert all[..|all| - 1] == Translate(name, view, past);
      if e.Observe? {
        var n0 := name(Subject(e.previous, e.current).value);
        assert Run(all).latest == Run(Translate(name, view, past)).latest[n0 := ViewOf(view, e.current)];
        assert e.current.None? ==> Find(Known(name, events), n0) == None;
        assert e.current.Some? ==> Find(Known(name, events), n0) == e.current;
        forall n | n != n0
          ensures Look(Run(all).latest, n) == ViewOf(view, Find(Known(name, events), n))
        {
          assert Find(Known(name, events), n) == Find(Known(name, past), n);
        }
      }
    }
  }

  /** After a sync, the table holds under each key what the last known object of that name contributes. */
  lemma TableFollowsObjects<O(!new), V(!new)>(
    name: O -> NamespacedName, view: O -> GoMap<V>, events: seq<ObjectEvent<O>>, k: ServicePortName)
    requires forall o: O :: Owned(name(o), view(o))
    requires Informed(name, events) && SyncsVisitAll(name, view, events)
    requires events != [] && events[|events| - 1].Sync?
    ensures AllowedRun(Translate(name, view, events))
    ensures var table := Run(Translate(name, view, events)).table;
            var entries := ViewOf(view, Find(Known(name, events), k.nn)).Entries();
            (k in table <==> k in entries) && (k in table ==> table[k] == entries[k])
  {
    InformedRunIsAllowed(name, view, events);
    var all := Translate(name, view, events);
    EveryRunInSync(all);
    assert all[|all| - 1].Apply?;
    assert Run(all).applied == Run(all).latest;
    assert Look(Run(all).latest, k.nn) == ViewOf(view, Find(Known(name, events), k.nn));
  }
}
