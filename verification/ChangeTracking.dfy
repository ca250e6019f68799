/**
  The scheme kube-proxy's service and endpoints trackers share: object events are folded into one
  pending <previous, current> pair per object, and a sync applies the pairs, in the arbitrary order
  of a Go map, to a table keyed by service port name.  A table value is a service port or an
  endpoint list; what is proved here holds for both.
 */
module ChangeTracking {
  datatype NamespacedName = NamespacedName(namespace: string, name: string)
  datatype Protocol = TCP | UDP | SCTP
  datatype ServicePortName = ServicePortName(nn: NamespacedName, port: string, protocol: Protocol)

  /** A Go map value: reflect.DeepEqual tells nil from empty, reading it does not. */
  datatype GoMap<V> = Nil | Made(entries: map<ServicePortName, V>) {
    function Entries(): map<ServicePortName, V> { if Nil? then map[] else entries }
  }

  datatype Change<V> = Change(previous: GoMap<V>, current: GoMap<V>)

  type Items<V> = map<NamespacedName, Change<V>>
  type Table<V> = map<ServicePortName, V>

  // ---------- Update and apply ----------

  /** The first event since the last sync fixes `previous`; a pair whose halves are equal is dropped. */
  function TrackUpdate<V(==)>(items: Items<V>, n: NamespacedName, previous: GoMap<V>, current: GoMap<V>): Items<V> {
    var first := if n in items then items[n].previous else previous;
    if first == current then items - {n} else items[n := Change(first, current)]
  }

  /** Remove what the object had contributed, add what it contributes now. */
  function ApplyChange<V>(table: Table<V>, c: Change<V>): Table<V> {
    (table - c.previous.Entries().Keys) + c.current.Entries()
  }

  function ApplySeq<V>(table: Table<V>, changes: seq<Change<V>>): Table<V> {
    if changes == [] then table
    else ApplyChange(ApplySeq(table, changes[..|changes| - 1]), changes[|changes| - 1])
  }

  function ApplyInOrder<V>(table: Table<V>, items: Items<V>, order: seq<NamespacedName>): Table<V>
    requires forall n <- order :: n in items
    decreases |order|
  {
    if order == [] then table
    else ApplyChange(ApplyInOrder(table, items, order[..|order| - 1]), items[order[|order| - 1]])
  }

  lemma {:induction false} ApplySeqInOrder<V>(
    table: Table<V>, items: Items<V>, order: seq<NamespacedName>, changes: seq<Change<V>>)
    requires |changes| == |order| && forall i :: 0 <= i < |order| ==> order[i] in items && changes[i] == items[order[i]]
    ensures ApplySeq(table, changes) == ApplyInOrder(table, items, order)
    decreases |order|
  {
    if order != [] {
      ApplySeqInOrder(table, items, order[..|order| - 1], changes[..|order| - 1]);
    }
  }

  /** `order` is one of the orders in which Go may range over a map with these keys. */
  ghost predicate IsOrder<K(!new)>(order: seq<K>, keys: set<K>) {
    && (forall k :: k in order <==> k in keys)
    && (forall i, j :: 0 <= i < j < |order| ==> order[i] != order[j])
  }

  // ---------- Runs ----------

  /** `latest` and `applied` are what each object contributes now and contributed at the last sync. */
  datatype State<V> = State(
    items: Items<V>,
    table: Table<V>,
    latest: map<NamespacedName, GoMap<V>>,
    applied: map<NamespacedName, GoMap<V>>)

  datatype Event<V> =
    | Update(n: NamespacedName, previous: GoMap<V>, current: GoMap<V>)
    | Apply(order: seq<NamespacedName>)

  function Look<V>(views: map<NamespacedName, GoMap<V>>, n: NamespacedName): GoMap<V> {
    if n in views then views[n] else Nil
  }

  /** The keys an object contributes carry its own name, so two objects never share a key. */
  ghost predicate Owned<V>(n: NamespacedName, view: GoMap<V>) {
    forall k <- view.Entries() :: k.nn == n
  }

  /** An event reports the object's last known state as `previous`; a sync ranges over the pending items. */
  ghost predicate Allowed<V>(s: State<V>, e: Event<V>) {
    match e
    case Update(n, previous, current) => previous == Look(s.latest, n) && Owned(n, current)
    case Apply(order) => IsOrder(order, s.items.Keys)
  }

  ghost function Step<V>(s: State<V>, e: Event<V>): State<V>
    requires Allowed(s, e)
  {
    match e
    case Update(n, previous, current) =>
      s.(items := TrackUpdate(s.items, n, previous, current), latest := s.latest[n := current])
    case Apply(order) =>
      State(map[], ApplyInOrder(s.table, s.items, order), s.latest, s.latest)
  }

  ghost function Start<V>(): State<V> { State(map[], map[], map[], map[]) }

  ghost predicate AllowedRun<V>(events: seq<Event<V>>)
    decreases |events|, 0
  {
    events == [] ||
    (AllowedRun(events[..|events| - 1]) && Allowed(Run(events[..|events| - 1]), events[|events| - 1]))
  }

  ghost function Run<V>(events: seq<Event<V>>): State<V>
    requires AllowedRun(events)
    decreases |events|, 1
  {
    if events == [] then Start() else Step(Run(events[..|events| - 1]), events[|events| - 1])
  }

  // ---------- The table is what recomputation would give ----------

  /** The table computed from scratch: each object's contribution, under its own keys. */
  ghost predicate IsUnion<V(!new)>(table: Table<V>, views: map<NamespacedName, GoMap<V>>) {
    forall k: ServicePortName ::
      var entries := Look(views, k.nn).Entries();
      (k in table <==> k in entries) && (k in table ==> table[k] == entries[k])
  }

  ghost predicate AllOwned<V(!new)>(views: map<NamespacedName, GoMap<V>>) {
    forall n: NamespacedName :: Owned(n, Look(views, n))
  }

  /** An object is pending exactly when its contribution differs from the applied one. */
  ghost predicate ItemsTrack<V(!new)>(
    items: Items<V>, latest: map<NamespacedName, GoMap<V>>, applied: map<NamespacedName, GoMap<V>>)
  {
    forall n: NamespacedName ::
      && (n in items <==> Look(applied, n) != Look(latest, n))
      && (n in items ==> items[n] == Change(Look(applied, n), Look(latest, n)))
  }

  ghost predicate InSync<V(!new)>(s: State<V>) {
    && ItemsTrack(s.items, s.latest, s.applied)
    && IsUnion(s.table, s.applied)
    && AllOwned(s.latest)
    && AllOwned(s.applied)
  }

  /** Half way through a sync the table holds the new contribution of exactly the objects already visited. */
  ghost function Visited<V>(
    latest: map<NamespacedName, GoMap<V>>, applied: map<NamespacedName, GoMap<V>>, done: set<NamespacedName>)
    : map<NamespacedName, GoMap<V>>
  {
    map n | n in latest.Keys + applied.Keys :: if n in done then Look(latest, n) else Look(applied, n)
  }

  lemma ApplyOneMore<V(!new)>(
    table: Table<V>, s: State<V>, done: set<NamespacedName>, n: NamespacedName)
    requires InSync(s) && n in s.items && n !in done
    requires IsUnion(table, Visited(s.latest, s.applied, done))
    ensures IsUnion(ApplyChange(table, s.items[n]), Visited(s.latest, s.applied, done + {n}))
  {
    var views, views' := Visited(s.latest, s.applied, done), Visited(s.latest, s.applied, done + {n});
    assert s.items[n] == Change(Look(s.applied, n), Look(s.latest, n));
    assert Look(views, n) == Look(s.applied, n) && Look(views', n) == Look(s.latest, n);
    assert Owned(n, Look(s.latest, n)) && Owned(n, Look(s.applied, n));
    forall k: ServicePortName | k.nn != n ensures Look(views', k.nn) == Look(views, k.nn) {}
  }

  /** The order in which the pending items are visited does not matter. */
  lemma {:induction false} ApplyInAnyOrder<V(!new)>(s: State<V>, order: seq<NamespacedName>)
    requires InSync(s)
    requires forall n <- order :: n in s.items
    requires forall i, j :: 0 <= i < j < |order| ==> order[i] != order[j]
    ensures IsUnion(ApplyInOrder(s.table, s.items, order), Visited(s.latest, s.applied, set n <- order))
    decreases |order|
  {
    var done := set n <- order;
    if order == [] {
      assert forall n :: Look(Visited(s.latest, s.applied, done), n) == Look(s.applied, n);
    } else {
      var last := order[|order| - 1];
      var before := order[..|order| - 1];
      ApplyInAnyOrder(s, before);
      assert order == before + [last];
      ApplyOneMore(ApplyInOrder(s.table, s.items, before), s, (set n <- before), last);
      assert (set n <- before) + {last} == done;
    }
  }

  lemma SyncAppliesLatest<V(!new)>(s: State<V>, order: seq<NamespacedName>)
    requires InSync(s) && IsOrder(order, s.items.Keys)
    ensures IsUnion(ApplyInOrder(s.table, s.items, order), s.latest)
  {
    ApplyInAnyOrder(s, order);
    var views := Visited(s.latest, s.applied, set n <- order);
    forall n ensures Look(views, n) == Look(s.latest, n) {
      assert n in s.items <==> Look(s.applied, n) != Look(s.latest, n);
    }
  }

  lemma StepKeepsSync<V(!new)>(s: State<V>, e: Event<V>)
    requires InSync(s) && Allowed(s, e)
    ensures InSync(Step(s, e))
  {
    match e
    case Update(n, previous, current) =>
      var s' := Step(s, e);
      forall m: NamespacedName
        ensures && (m in s'.items <==> Look(s'.applied, m) != Look(s'.latest, m))
                && (m in s'.items ==> s'.items[m] == Change(Look(s'.applied, m), Look(s'.latest, m)))
                && Owned(m, Look(s'.latest, m))
      {
        assert Owned(m, Look(s.latest, m));
        assert m in s.items <==> Look(s.applied, m) != Look(s.latest, m);
      }
    case Apply(order) =>
      SyncAppliesLatest(s, order);
  }

  lemma {:induction false} EveryRunInSync<V(!new)>(events: seq<Event<V>>)
    requires AllowedRun(events)
    ensures InSync(Run(events))
    decreases |events|
  {
    if events != [] {
      EveryRunInSync(events[..|events| - 1]);
      StepKeepsSync(Run(events[..|events| - 1]), events[|events| - 1]);
    }
  }

  lemma UnionIsUnique<V(!new)>(a: Table<V>, b: Table<V>, views: map<NamespacedName, GoMap<V>>)
    requires IsUnion(a, views) && IsUnion(b, views)
    ensures a == b
  {
    assert forall k :: k in a <==> k in b;
  }

  /**
    After any run that ends with a sync, in whatever orders the syncs visited their items, the
    incremental table is the one recomputed from the latest objects; so is the table of every run
    whose pending changes have cancelled out.
   */
  lemma IncrementalEqualsRecomputed<V(!new)>(events: seq<Event<V>>, recomputed: Table<V>)
    requires AllowedRun(events) && ((events != [] && events[|events| - 1].Apply?) || Run(events).items == map[])
    requires IsUnion(recomputed, Run(events).latest)
    ensures Run(events).table == recomputed
  {
    EveryRunInSync(events);
    var s := Run(events);
    assert forall n :: n !in s.items ==> Look(s.applied, n) == Look(s.latest, n);
    assert IsUnion(s.table, s.latest);
    UnionIsUnique(s.table, recomputed, s.latest);
  }
}
