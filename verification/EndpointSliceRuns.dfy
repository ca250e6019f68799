/**
  Whole runs of slice events and syncs: the cache and the proxier's table against a plain replay of
  the events, and what the table then says about each service port and IP.
 */
module EndpointSliceRuns {
  import opened Wrappers
  import opened ChangeTracking
  import opened EndpointChanges
  import opened EndpointSlices
  import opened EndpointSliceCache
  import Sorting

  /** `latest` replays every slice event as it comes, without looking at what the cache does. */
  datatype SliceState = SliceState(
    trackers: map<NamespacedName, Tracker>, table: Table<EndpointList>, latest: map<NamespacedName, Infos>)

  datatype SliceEvent =
    | SliceChange(svc: NamespacedName, name: string, info: SliceInfo)
    | SliceSync(owners: seq<NamespacedName>, changes: seq<Change<EndpointList>>)

  function InfosOf(latest: map<NamespacedName, Infos>, svc: NamespacedName): Infos {
    if svc in latest then latest[svc] else map[]
  }

  /** A sync applies what the cache may check out, in any order and computed in any order. */
  ghost predicate Allowed(env: Env, s: SliceState, e: SliceEvent) {
    e.SliceSync? ==>
      CheckedOut(env, s.trackers, map svc <- s.trackers :: Committed(s.trackers[svc]), e.owners, e.changes)
  }

  function Step(s: SliceState, e: SliceEvent): SliceState {
    match e
    case SliceChange(svc, name, info) =>
      s.(trackers := s.trackers[svc := UpdateTracker(TrackerOf(s.trackers, svc), name, info)],
         latest := s.latest[svc := Replay(InfosOf(s.latest, svc), name, info)])
    case SliceSync(owners, changes) =>
      s.(trackers := map svc <- s.trackers :: Committed(s.trackers[svc]),
         table := ApplySeq(s.table, changes))
  }

  const START := SliceState(map[], map[], map[])

  function Run(events: seq<SliceEvent>): SliceState {
    if events == [] then START else Step(Run(events[..|events| - 1]), events[|events| - 1])
  }

  ghost predicate AllowedRun(env: Env, events: seq<SliceEvent>) {
    events == [] ||
    (AllowedRun(env, events[..|events| - 1]) && Allowed(env, Run(events[..|events| - 1]), events[|events| - 1]))
  }

  // ---------- The table is rendered from the applied slices ----------

  ghost predicate RenderedIn(
    env: Env, svc: NamespacedName, infos: Infos, table: Table<EndpointList>, order: seq<string>)
  {
    && IsOrder(order, infos.Keys)
    && forall k: ServicePortName :: k.nn == svc ==> RenderedAt(table, FromSlices(env, svc, infos, order), k)
  }

  /** Under one service's keys the table holds what some order of ranging over its slices computes. */
  ghost predicate Rendered(env: Env, svc: NamespacedName, infos: Infos, table: Table<EndpointList>) {
    exists order :: RenderedIn(env, svc, infos, table, order)
  }

  /** Some slice of the service contributes this key and IP. */
  ghost predicate Contributed(
    env: Env, svc: NamespacedName, infos: Infos, k: ServicePortName, ip: string, local: bool)
  {
    exists name <- infos ::
      exists c <- FromSlice(env, svc, infos[name]) :: c.key == k && c.ip == ip && (local ==> c.endpoint.isLocal)
  }

  lemma PickMeansContributed(
    env: Env, svc: NamespacedName, infos: Infos, order: seq<string>, k: ServicePortName, ip: string)
    requires IsOrder(order, infos.Keys)
    ensures var p := Pick(FromSlices(env, svc, infos, order), k, ip);
      && (p.Some? <==> Contributed(env, svc, infos, k, ip, false))
      && (p.Some? ==> (p.value.isLocal <==> Contributed(env, svc, infos, k, ip, true)))
      && (p.Some? ==> env.ipPart(p.value.address) == ip)
  {
    var cs := FromSlices(env, svc, infos, order);
    PickExact(cs, k, ip);
    FromSlicesKeyed(env, svc, infos, order);
    forall c ensures c in cs <==> exists name <- infos :: c in FromSlice(env, svc, infos[name]) {
      FromSlicesMember(env, svc, infos, order, c);
    }
  }

  /** Which keys a service has does not depend on the order. */
  lemma SameKeys(env: Env, svc: NamespacedName, infos: Infos,
                 a: Table<EndpointList>, oa: seq<string>, b: Table<EndpointList>, ob: seq<string>, k: ServicePortName)
    requires RenderedIn(env, svc, infos, a, oa) && RenderedIn(env, svc, infos, b, ob) && k.nn == svc
    ensures k in a <==> k in b
  {
    var ca, cb := FromSlices(env, svc, infos, oa), FromSlices(env, svc, infos, ob);
    forall ip ensures Pick(ca, k, ip).Some? <==> Pick(cb, k, ip).Some? {
      PickMeansContributed(env, svc, infos, oa, k, ip);
      PickMeansContributed(env, svc, infos, ob, k, ip);
    }
    assert RenderedAt(a, FromSlices(env, svc, infos, oa), k);
    assert RenderedAt(b, FromSlices(env, svc, infos, ob), k);
  }

  /** Applying one service's change replaces its part of the table and touches nothing else. */
  lemma ApplyRenders(env: Env, svc: NamespacedName, t: Tracker, table: Table<EndpointList>, c: Change<EndpointList>)
    requires Rendered(env, svc, t.applied, table) && IsChange(env, svc, t, c)
    ensures Rendered(env, svc, Overlay(t), ApplyChange(table, c))
    ensures forall k: ServicePortName :: k.nn != svc ==>
      (k in ApplyChange(table, c) <==> k in table) && (k in table ==> ApplyChange(table, c)[k] == table[k])
  {
    var old', previous, current := table, c.previous.entries, c.current.entries;
    var o0 :| RenderedIn(env, svc, t.applied, table, o0);
    var o1 :| IsMap(env, svc, t.applied, previous, o1);
    var o2 :| IsMap(env, svc, Overlay(t), current, o2);
    assert RenderedIn(env, svc, t.applied, previous, o1);
    forall k: ServicePortName | k.nn == svc
      ensures RenderedAt(ApplyChange(table, c), FromSlices(env, svc, Overlay(t), o2), k)
    {
      SameKeys(env, svc, t.applied, table, o0, previous, o1, k);
      assert RenderedAt(current, FromSlices(env, svc, Overlay(t), o2), k);
    }
    assert RenderedIn(env, svc, Overlay(t), ApplyChange(table, c), o2);
  }

  lemma RenderedElsewhere(env: Env, svc: NamespacedName, infos: Infos, a: Table<EndpointList>, b: Table<EndpointList>)
    requires Rendered(env, svc, infos, a)
    requires forall k: ServicePortName :: k.nn == svc ==> (k in a <==> k in b) && (k in a ==> a[k] == b[k])
    ensures Rendered(env, svc, infos, b)
  {
    var order :| RenderedIn(env, svc, infos, a, order);
    forall k: ServicePortName | k.nn == svc ensures RenderedAt(b, FromSlices(env, svc, infos, order), k) {
      assert RenderedAt(a, FromSlices(env, svc, infos, order), k);
    }
    assert RenderedIn(env, svc, infos, b, order);
  }

  lemma {:induction false} ApplyAllRenders(
    env: Env, trackers: map<NamespacedName, Tracker>, table: Table<EndpointList>,
    owners: seq<NamespacedName>, changes: seq<Change<EndpointList>>, svc: NamespacedName)
    requires Rendered(env, svc, TrackerOf(trackers, svc).applied, table)
    requires |owners| == |changes| && forall i, j :: 0 <= i < j < |owners| ==> owners[i] != owners[j]
    requires forall i :: 0 <= i < |owners| ==>
      owners[i] in trackers && IsChange(env, owners[i], trackers[owners[i]], changes[i])
    ensures var t := TrackerOf(trackers, svc);
            Rendered(env, svc, if svc in owners then Overlay(t) else t.applied, ApplySeq(table, changes))
    decreases |owners|
  {
    if owners != [] {
      var n := |owners| - 1;
      var t := TrackerOf(trackers, svc);
      ApplyAllRenders(env, trackers, table, owners[..n], changes[..n], svc);
      var before := ApplySeq(table, changes[..n]);
      if svc == owners[n] {
        assert svc !in owners[..n];
        ApplyRenders(env, svc, t, before, changes[n]);
      } else {
        assert svc in owners <==> svc in owners[..n];
        OthersUntouched(env, owners[n], trackers[owners[n]], before, changes[n], svc);
        RenderedElsewhere(env, svc, if svc in owners then Overlay(t) else t.applied, before, ApplySeq(table, changes));
      }
    }
  }

  lemma OthersUntouched(
    env: Env, owner: NamespacedName, t: Tracker, table: Table<EndpointList>, c: Change<EndpointList>,
    svc: NamespacedName)
    requires IsChange(env, owner, t, c) && svc != owner
    ensures forall k: ServicePortName :: k.nn == svc ==>
      (k in table <==> k in ApplyChange(table, c)) && (k in table ==> table[k] == ApplyChange(table, c)[k])
  {
    var o1 :| IsMap(env, owner, t.applied, c.previous.entries, o1);
    var o2 :| IsMap(env, owner, Overlay(t), c.current.entries, o2);
  }

  // ---------- Every run ----------

  ghost predicate Inv(env: Env, s: SliceState) {
    forall svc: NamespacedName ::
      var t := TrackerOf(s.trackers, svc);
      && NoRemovals(t.applied)
      && Overlay(t) == InfosOf(s.latest, svc)
      && Rendered(env, svc, t.applied, s.table)
  }

  lemma ChangeKeepsInv(env: Env, s: SliceState, svc: NamespacedName, name: string, info: SliceInfo)
    requires Inv(env, s)
    ensures Inv(env, Step(s, SliceChange(svc, name, info)))
  {
    UpdateIsReplay(TrackerOf(s.trackers, svc), name, info);
    var s' := Step(s, SliceChange(svc, name, info));
    forall u: NamespacedName
      ensures var t := TrackerOf(s'.trackers, u);
        NoRemovals(t.applied) && Overlay(t) == InfosOf(s'.latest, u) && Rendered(env, u, t.applied, s'.table)
    {
      assert Overlay(TrackerOf(s.trackers, u)) == InfosOf(s.latest, u);
    }
  }

  lemma SyncKeepsInv(env: Env, s: SliceState, owners: seq<NamespacedName>, changes: seq<Change<EndpointList>>)
    requires Inv(env, s) && Allowed(env, s, SliceSync(owners, changes))
    ensures Inv(env, Step(s, SliceSync(owners, changes)))
    ensures forall svc ::
      TrackerOf(Step(s, SliceSync(owners, changes)).trackers, svc) == Tracker(InfosOf(s.latest, svc), map[])
  {
    var s' := Step(s, SliceSync(owners, changes));
    forall svc: NamespacedName
      ensures TrackerOf(s'.trackers, svc) == Tracker(InfosOf(s.latest, svc), map[])
      ensures NoRemovals(InfosOf(s.latest, svc))
      ensures Rendered(env, svc, InfosOf(s.latest, svc), s'.table)
    {
      var t := TrackerOf(s.trackers, svc);
      assert Overlay(t) == InfosOf(s.latest, svc);
      UpdateIsReplay(t, "", SliceInfo([], [], true));
      ApplyAllRenders(env, s.trackers, s.table, owners, changes, svc);
      assert svc in owners <==> svc in Dirty(s.trackers);
      if svc !in owners {
        OverlayOfApplied(t);
      }
    }
    forall svc: NamespacedName {
      OverlayOfApplied(TrackerOf(s'.trackers, svc));
    }
  }

  lemma StartIsRendered(env: Env, svc: NamespacedName)
    ensures Rendered(env, svc, map[], map[])
  {
    assert RenderedIn(env, svc, map[], map[], []);
  }

  lemma {:induction false} EveryRunKeepsInv(env: Env, events: seq<SliceEvent>)
    requires AllowedRun(env, events)
    ensures Inv(env, Run(events))
  {
    if events == [] {
      forall svc {
        StartIsRendered(env, svc);
      }
    } else {
      var past, e := events[..|events| - 1], events[|events| - 1];
      EveryRunKeepsInv(env, past);
      match e
      case SliceChange(svc, name, info) => ChangeKeepsInv(env, Run(past), svc, name, info);
      case SliceSync(owners, changes) => SyncKeepsInv(env, Run(past), owners, changes);
    }
  }

  /** The event changes this slice. */
  predicate IsChangeOf(e: SliceEvent, svc: NamespacedName, name: string) {
    e.SliceChange? && e.svc == svc && e.name == name
  }

  predicate IsLastChange(events: seq<SliceEvent>, svc: NamespacedName, name: string, i: nat) {
    && i < |events| && IsChangeOf(events[i], svc, name)
    && forall j :: i < j < |events| ==> !IsChangeOf(events[j], svc, name)
  }

  /** The replay knows a slice exactly if its last event was no removal, and as that event gave it. */
  lemma {:induction false} ReplayIsLastEvent(events: seq<SliceEvent>, svc: NamespacedName, name: string)
    ensures name in InfosOf(Run(events).latest, svc) <==>
      exists i: nat :: IsLastChange(events, svc, name, i) && !events[i].info.remove
    ensures forall i: nat :: IsLastChange(events, svc, name, i) && !events[i].info.remove ==>
      name in InfosOf(Run(events).latest, svc) && InfosOf(Run(events).latest, svc)[name] == events[i].info
  {
    if events != [] {
      var n := |events| - 1;
      ReplayIsLastEvent(events[..n], svc, name);
      if IsChangeOf(events[n], svc, name) {
        assert IsLastChange(events, svc, name, n);
      } else {
        forall i: nat ensures IsLastChange(events, svc, name, i) <==> IsLastChange(events[..n], svc, name, i) {}
      }
    }
  }

  /**
    For every run: the applied slices overlaid with the pending ones are the plain replay of all
    events, and right after a sync the table is computed from that replay, service by service.
   */
  lemma SlicesFollowReplay(env: Env, events: seq<SliceEvent>, svc: NamespacedName)
    requires AllowedRun(env, events)
    ensures var s := Run(events);
      && Overlay(TrackerOf(s.trackers, svc)) == InfosOf(s.latest, svc)
      && (events != [] && events[|events| - 1].SliceSync? ==> Rendered(env, svc, InfosOf(s.latest, svc), s.table))
  {
    EveryRunKeepsInv(env, events);
    if events != [] && events[|events| - 1].SliceSync? {
      var past, e := events[..|events| - 1], events[|events| - 1];
      EveryRunKeepsInv(env, past);
      SyncKeepsInv(env, Run(past), e.owners, e.changes);
      assert TrackerOf(Run(events).trackers, svc).applied == InfosOf(Run(events).latest, svc);
    }
  }

  /**
    In a computed table, whatever the order: a key lists an IP exactly when some slice contributes it,
    lists it once, and marks it local exactly when some contributor is local.
   */
  lemma ListedIPs(
    env: Env, svc: NamespacedName, infos: Infos, table: Table<EndpointList>, k: ServicePortName, ip: string)
    requires Rendered(env, svc, infos, table) && k.nn == svc
    ensures (exists e <- At(table, k) :: env.ipPart(e.address) == ip) <==> Contributed(env, svc, infos, k, ip, false)
    ensures forall e <- At(table, k) :: env.ipPart(e.address) == ip ==>
      (e.isLocal <==> Contributed(env, svc, infos, k, ip, true))
    ensures var list := At(table, k);
      forall i, j | 0 <= i < |list| && 0 <= j < |list| ::
        (env.ipPart(list[i].address) == ip && env.ipPart(list[j].address) == ip ==> i == j)
  {
    var order :| RenderedIn(env, svc, infos, table, order);
    var cs := FromSlices(env, svc, infos, order);
    assert RenderedAt(table, cs, k);
    PickMeansContributed(env, svc, infos, order, k, ip);
    var list := At(table, k);
    forall e | e in list && env.ipPart(e.address) == ip ensures Pick(cs, k, ip) == Some(e) {
      var other :| Pick(cs, k, other) == Some(e);
      PickMeansContributed(env, svc, infos, order, k, other);
    }
    if Pick(cs, k, ip).Some? {
      assert Pick(cs, k, ip).value in list;
    }
    forall i, j | 0 <= i < j < |list| && env.ipPart(list[i].address) == ip && env.ipPart(list[j].address) == ip
      ensures false
    {
      assert list[i] in list && list[j] in list;
      assert list[i] == list[j];
      Sorting.StringLessTotal(list[i].address, list[j].address);
    }
  }

  /** Where the contending slices agree, the whole list under the key is the same for every order. */
  lemma ListIsDetermined(
    env: Env, svc: NamespacedName, infos: Infos, a: Table<EndpointList>, b: Table<EndpointList>, k: ServicePortName)
    requires Rendered(env, svc, infos, a) && Rendered(env, svc, infos, b) && k.nn == svc
    requires forall ip :: ContendersAgree(env, svc, infos, k, ip)
    ensures (k in a <==> k in b) && At(a, k) == At(b, k)
  {
    var oa :| RenderedIn(env, svc, infos, a, oa);
    var ob :| RenderedIn(env, svc, infos, b, ob);
    assert RenderedAt(a, FromSlices(env, svc, infos, oa), k);
    assert RenderedAt(b, FromSlices(env, svc, infos, ob), k);
    SameKeys(env, svc, infos, a, oa, b, ob, k);
    forall ip ensures Pick(FromSlices(env, svc, infos, oa), k, ip) == Pick(FromSlices(env, svc, infos, ob), k, ip) {
      OrderDoesNotMatterIff(env, svc, infos, k, ip);
    }
    if k in a {
      AscendingIsUnique(a[k], b[k]);
    }
  }

  // ---------- What a sync reports ----------

  /** The slices of a service agree about everything the key could list. */
  ghost predicate Agreed(env: Env, infos: Infos, k: ServicePortName) {
    forall ip :: ContendersAgree(env, k.nn, infos, k, ip)
  }

  /** A change that is recomputed from agreeing slices says what the table lists before and after. */
  lemma ChangeIsOfTable(env: Env, t: Tracker, c: Change<EndpointList>,
                        before: Table<EndpointList>, after: Table<EndpointList>, k: ServicePortName)
    requires IsChange(env, k.nn, t, c) && Agreed(env, t.applied, k) && Agreed(env, Overlay(t), k)
    requires Rendered(env, k.nn, t.applied, before) && Rendered(env, k.nn, Overlay(t), after)
    ensures Says(c, k, At(before, k), At(after, k))
  {
    var o1 :| IsMap(env, k.nn, t.applied, c.previous.entries, o1);
    var o2 :| IsMap(env, k.nn, Overlay(t), c.current.entries, o2);
    assert RenderedIn(env, k.nn, t.applied, c.previous.entries, o1);
    assert RenderedIn(env, k.nn, Overlay(t), c.current.entries, o2);
    ListIsDetermined(env, k.nn, t.applied, c.previous.entries, before, k);
    ListIsDetermined(env, k.nn, Overlay(t), c.current.entries, after, k);
  }

  /** What a change says about one key. */
  ghost predicate Says(c: Change<EndpointList>, k: ServicePortName, before: EndpointList, after: EndpointList) {
    At(c.previous.Entries(), k) == before && At(c.current.Entries(), k) == after
  }

  lemma OthersSayNothing(env: Env, owner: NamespacedName, t: Tracker, c: Change<EndpointList>, k: ServicePortName)
    requires IsChange(env, owner, t, c) && k.nn != owner
    ensures Says(c, k, [], [])
  {
    var o1 :| IsMap(env, owner, t.applied, c.previous.entries, o1);
    var o2 :| IsMap(env, owner, Overlay(t), c.current.entries, o2);
  }

  /** Before and after a sync a service's part of the table is computed from its slices as applied then. */
  lemma SyncRenders(
    env: Env, s: SliceState, owners: seq<NamespacedName>, changes: seq<Change<EndpointList>>, svc: NamespacedName)
    requires Inv(env, s) && Allowed(env, s, SliceSync(owners, changes))
    ensures var t, after := TrackerOf(s.trackers, svc), Step(s, SliceSync(owners, changes)).table;
      && Rendered(env, svc, t.applied, s.table) && Rendered(env, svc, Overlay(t), after)
      && (svc !in owners ==> Overlay(t) == t.applied)
      && (forall i :: 0 <= i < |owners| && owners[i] == svc ==> svc in s.trackers && IsChange(env, svc, t, changes[i]))
      && |changes| == |owners|
  {
    SyncKeepsInv(env, s, owners, changes);
    var t := TrackerOf(s.trackers, svc);
    assert Overlay(t) == InfosOf(s.latest, svc);
    var s' := Step(s, SliceSync(owners, changes));
    assert TrackerOf(s'.trackers, svc).applied == InfosOf(s.latest, svc);
    assert svc in owners <==> svc in Dirty(s.trackers);
    if svc !in owners { OverlayOfApplied(t); }
  }

  /** Every change says what the tables say of the key, or nothing; some change does, or the key did not change. */
  ghost predicate SayTogether(
    changes: seq<Change<EndpointList>>, before: Table<EndpointList>, after: Table<EndpointList>, k: ServicePortName)
  {
    && (forall c <- changes :: Says(c, k, At(before, k), At(after, k)) || Says(c, k, [], []))
    && ((exists c <- changes :: Says(c, k, At(before, k), At(after, k))) || At(before, k) == At(after, k))
  }

  lemma ReportsTogether(changes: seq<Change<EndpointList>>, before: Table<EndpointList>, after: Table<EndpointList>,
                        k: ServicePortName, x: ServiceEndpoint)
    requires SayTogether(changes, before, after, k) && x.key == k
    ensures (exists c <- changes :: Lost(c.previous.Entries(), c.current.Entries(), x)) <==> Lost(before, after, x)
    ensures (exists c <- changes :: Gained(c.previous.Entries(), c.current.Entries(), k)) <==> Gained(before, after, k)
  {
    SameListLosesNothing(At(before, k));
    if c :| c in changes && Says(c, k, At(before, k), At(after, k)) {
      assert Lost(before, after, x) ==> Lost(c.previous.Entries(), c.current.Entries(), x);
    }
  }

  lemma SameListLosesNothing(list: EndpointList)
    ensures forall e <- list :: Listed(list, e)
  {
    forall e | e in list ensures Listed(list, e) {
      var i :| 0 <= i < |list| && list[i] == e;
      assert list[i].Equal(e);
    }
  }

  lemma SyncSaysTogether(
    env: Env, s: SliceState, owners: seq<NamespacedName>, changes: seq<Change<EndpointList>>, k: ServicePortName)
    requires Inv(env, s) && Allowed(env, s, SliceSync(owners, changes))
    requires Agreed(env, TrackerOf(s.trackers, k.nn).applied, k) && Agreed(env, Overlay(TrackerOf(s.trackers, k.nn)), k)
    ensures SayTogether(changes, s.table, Step(s, SliceSync(owners, changes)).table, k)
  {
    var t, after := TrackerOf(s.trackers, k.nn), Step(s, SliceSync(owners, changes)).table;
    SyncRenders(env, s, owners, changes, k.nn);
    forall i | 0 <= i < |owners|
      ensures Says(changes[i], k, At(s.table, k), At(after, k)) || (owners[i] != k.nn && Says(changes[i], k, [], []))
    {
      SyncRenders(env, s, owners, changes, owners[i]);
      if owners[i] == k.nn {
        ChangeIsOfTable(env, t, changes[i], s.table, after, k);
      } else {
        OthersSayNothing(env, owners[i], TrackerOf(s.trackers, owners[i]), changes[i], k);
      }
    }
    if i :| 0 <= i < |owners| && owners[i] == k.nn {
      assert changes[i] in changes;
    } else {
      ListIsDetermined(env, k.nn, t.applied, s.table, after, k);
    }
  }

  /**
    Although each change is recomputed, in an order of its own: where the slices of the key's service
    agree before and after, the sync reports under the key exactly what the table loses and gains.
   */
  lemma SliceSyncReports(env: Env, s: SliceState, owners: seq<NamespacedName>, changes: seq<Change<EndpointList>>,
                         k: ServicePortName, address: string)
    requires Inv(env, s) && Allowed(env, s, SliceSync(owners, changes))
    requires Agreed(env, TrackerOf(s.trackers, k.nn).applied, k) && Agreed(env, Overlay(TrackerOf(s.trackers, k.nn)), k)
    ensures var after, x := Step(s, SliceSync(owners, changes)).table, ServiceEndpoint(address, k);
      && ((exists c <- changes :: Lost(c.previous.Entries(), c.current.Entries(), x)) <==> Lost(s.table, after, x))
      && ((exists c <- changes :: Gained(c.previous.Entries(), c.current.Entries(), k)) <==> Gained(s.table, after, k))
  {
    SyncSaysTogether(env, s, owners, changes, k);
    ReportsTogether(changes, s.table, Step(s, SliceSync(owners, changes)).table, k, ServiceEndpoint(address, k));
  }
}
