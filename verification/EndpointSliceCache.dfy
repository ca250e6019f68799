/**
  The EndpointSlice cache as an object, and its runs: after each sync the proxier's table is what a
  plain replay of the slice events computes, under some order of ranging over each service's slices.
 */
module EndpointSliceCache {
  import opened Wrappers
  import opened ChangeTracking
  import opened EndpointChanges
  import opened EndpointSlices
  import Sorting

  // ---------- From slices to sorted lists ----------

  type ByIP = map<string, Endpoint>
  type ByServicePort = map<ServicePortName, ByIP>

  ghost predicate Represents(bySP: ByServicePort, cs: seq<Contribution>) {
    forall k: ServicePortName, ip: string ::
      Pick(cs, k, ip) == if k in bySP then Get(bySP[k], ip) else None
  }

  ghost predicate AscendingAddresses(list: EndpointList) {
    forall i, j :: 0 <= i < j < |list| ==> Sorting.StringLess(list[i].address, list[j].address)
  }

  /** The list holds the endpoint kept for each IP, once, in ascending order of address. */
  ghost predicate IsList(list: EndpointList, cs: seq<Contribution>, k: ServicePortName) {
    && (forall e :: e in list <==> exists ip :: Pick(cs, k, ip) == Some(e))
    && AscendingAddresses(list)
  }

  ghost predicate RenderedAt(table: Table<EndpointList>, cs: seq<Contribution>, k: ServicePortName) {
    && (k in table <==> exists ip :: Pick(cs, k, ip).Some?)
    && (k in table ==> IsList(table[k], cs, k))
  }

  function AddressOf(e: Endpoint): string { e.address }

  ghost predicate DistinctAddresses(list: EndpointList) {
    forall i, j :: 0 <= i < j < |list| ==> list[i].address != list[j].address
  }

  lemma {:induction false} DistinctCountsOnce(list: EndpointList, e: Endpoint)
    requires DistinctAddresses(list)
    ensures multiset(list)[e] <= 1
  {
    if list != [] {
      var n := |list| - 1;
      assert list == list[..n] + [list[n]];
      DistinctCountsOnce(list[..n], e);
    }
  }

  lemma RepeatCountsTwice(list: EndpointList, i: nat, j: nat)
    requires i < j < |list| && list[i] == list[j]
    ensures multiset(list)[list[i]] >= 2
  {
    assert list == list[..i] + [list[i]] + list[i + 1..j] + [list[j]] + list[j + 1..];
  }

  /** Sorting a list of distinct addresses gives an ascending list. */
  lemma SortedIsAscending(list: EndpointList, sorted: EndpointList)
    requires DistinctAddresses(list) && multiset(sorted) == multiset(list)
    requires Sorting.SortedBy(sorted, Sorting.ByString(AddressOf))
    requires forall e, f :: e in list && f in list && e.address == f.address ==> e == f
    ensures AscendingAddresses(sorted)
  {
    forall i, j | 0 <= i < j < |sorted| ensures Sorting.StringLess(sorted[i].address, sorted[j].address) {
      assert Sorting.ByString(AddressOf)(sorted[j], sorted[i])
          == Sorting.StringLess(AddressOf(sorted[j]), AddressOf(sorted[i]));
      Sorting.StringLessTotal(sorted[i].address, sorted[j].address);
      if sorted[i].address == sorted[j].address {
        assert sorted[i] in multiset(sorted) && sorted[j] in multiset(sorted);
        assert sorted[i] == sorted[j];
        RepeatCountsTwice(sorted, i, j);
        DistinctCountsOnce(list, sorted[i]);
      }
    }
  }

  /** An ascending list is determined by its elements, so the result does not depend on how they were visited. */
  lemma {:induction false} AscendingIsUnique(a: EndpointList, b: EndpointList)
    requires AscendingAddresses(a) && AscendingAddresses(b)
    requires forall e :: e in a <==> e in b
    ensures a == b
  {
    if b != [] { assert b[0] in b; }
    if a != [] {
      assert a[0] in b;
      var m, n := |a| - 1, |b| - 1;
      LastIsLast(a, b);
      assert forall e :: e in a[..m] <==> e in b[..n] by {
        forall e ensures e in a[..m] <==> e in b[..n] {
          NotAmongEarlier(a, e);
          NotAmongEarlier(b, e);
        }
      }
      AscendingIsUnique(a[..m], b[..n]);
      assert a == a[..m] + [a[m]] && b == b[..n] + [b[n]];
    }
  }

  lemma NotAmongEarlier(a: EndpointList, e: Endpoint)
    requires AscendingAddresses(a) && a != []
    ensures e in a[..|a| - 1] <==> e in a && e != a[|a| - 1]
  {
    var n := |a| - 1;
    assert a == a[..n] + [a[n]];
    if e in a[..n] {
      Sorting.StringLessTotal(a[n].address, a[n].address);
    }
  }

  lemma LastIsLast(a: EndpointList, b: EndpointList)
    requires AscendingAddresses(a) && AscendingAddresses(b) && a != [] && b != []
    requires forall e :: e in a <==> e in b
    ensures a[|a| - 1] == b[|b| - 1]
  {
    var x, y := a[|a| - 1], b[|b| - 1];
    assert x in b && y in a;
    var i :| 0 <= i < |b| && b[i] == x;
    var j :| 0 <= j < |a| && a[j] == y;
    Sorting.StringLessTotal(x.address, y.address);
  }

  /** The list of the values of one IP map, sorted by address. */
  method SortedValues(ipPart: string -> string, byIP: ByIP) returns (list: EndpointList)
    requires forall ip <- byIP :: ipPart(byIP[ip].address) == ip
    ensures forall e :: e in list <==> exists ip :: Get(byIP, ip) == Some(e)
    ensures AscendingAddresses(list)
  {
    var unsorted: EndpointList := [];
    var rest := byIP.Keys;
    while rest != {}
      invariant rest <= byIP.Keys
      invariant forall e :: e in unsorted <==> exists ip :: Get(byIP, ip) == Some(e) && ip !in rest
      invariant DistinctAddresses(unsorted)
      decreases rest
    {
      var ip :| ip in rest;
      forall e | e in unsorted ensures e.address != byIP[ip].address {
        var other :| Get(byIP, other) == Some(e) && other !in rest;
      }
      assert Get(byIP, ip) == Some(byIP[ip]);
      unsorted := unsorted + [byIP[ip]];
      rest := rest - {ip};
    }
    Sorting.ByStringIsOrder(AddressOf);
    list := Sorting.Sort(unsorted, Sorting.ByString(AddressOf));
    forall e, f | e in unsorted && f in unsorted && e.address == f.address ensures e == f {
      var i :| 0 <= i < |unsorted| && unsorted[i] == e;
      var j :| 0 <= j < |unsorted| && unsorted[j] == f;
    }
    SortedIsAscending(unsorted, list);
    forall e ensures e in list <==> e in unsorted {
      assert e in multiset(list) <==> e in multiset(unsorted);
    }
  }

  method EndpointsMapFromEndpointInfo(ipPart: string -> string, bySP: ByServicePort, ghost cs: seq<Contribution>)
    returns (table: Table<EndpointList>)
    requires Represents(bySP, cs)
    requires forall c <- cs :: c.ip == ipPart(c.endpoint.address)
    ensures forall k: ServicePortName :: RenderedAt(table, cs, k)
  {
    table := map[];
    var rest := bySP.Keys;
    while rest != {}
      invariant rest <= bySP.Keys
      invariant table.Keys !! rest
      invariant forall k: ServicePortName :: k !in rest ==> RenderedAt(table, cs, k)
      decreases rest
    {
      var k :| k in rest;
      forall ip | ip in bySP[k] ensures ipPart(bySP[k][ip].address) == ip {
        assert Pick(cs, k, ip) == Some(bySP[k][ip]);
        PickExact(cs, k, ip);
      }
      if bySP[k] != map[] {
        var list := SortedValues(ipPart, bySP[k]);
        ghost var before := table;
        table := table[k := list];
        assert forall ip :: Pick(cs, k, ip) == Get(bySP[k], ip);
        var ip :| ip in bySP[k];
        assert Pick(cs, k, ip).Some?;
        assert RenderedAt(table, cs, k);
        assert forall k' :: k' != k && k' !in rest ==> RenderedAt(before, cs, k');
      } else {
        assert forall ip :: Pick(cs, k, ip) == None;
        assert RenderedAt(table, cs, k);
      }
      rest := rest - {k};
    }
  }

  // ---------- The cache ----------

  function TrackerOf(trackers: map<NamespacedName, Tracker>, svc: NamespacedName): Tracker {
    if svc in trackers then trackers[svc] else EMPTY_TRACKER
  }

  /** A slice without a service label, a namespace or a name cannot be cached. */
  function CacheKeys(slice: EndpointSlice): Option<(NamespacedName, string)> {
    if slice.serviceLabel.None? || slice.serviceLabel.value == "" || slice.namespace == "" || slice.name == "" then None
    else Some((NamespacedName(slice.namespace, slice.serviceLabel.value), slice.name))
  }

  /** The endpoints of one service's slices, computed in the given order. */
  ghost predicate IsMap(env: Env, svc: NamespacedName, infos: Infos, table: Table<EndpointList>, order: seq<string>) {
    && IsOrder(order, infos.Keys)
    && (forall k <- table :: k.nn == svc)
    && (forall k: ServicePortName :: k.nn == svc ==> RenderedAt(table, FromSlices(env, svc, infos, order), k))
  }

  ghost predicate IsChange(env: Env, svc: NamespacedName, t: Tracker, c: Change<EndpointList>) {
    && c.previous.Made? && c.current.Made?
    && (exists order :: IsMap(env, svc, t.applied, c.previous.entries, order))
    && (exists order :: IsMap(env, svc, Overlay(t), c.current.entries, order))
  }

  ghost function Dirty(trackers: map<NamespacedName, Tracker>): set<NamespacedName> {
    set svc <- trackers | trackers[svc].pending != map[]
  }

  function Committed(t: Tracker): Tracker { Tracker(Overlay(t), map[]) }

  /** One change for each service with pending slices that is not in `rest`; its slices are pending no longer. */
  ghost predicate CheckedOutBut(
    env: Env, before: map<NamespacedName, Tracker>, after: map<NamespacedName, Tracker>,
    rest: set<NamespacedName>, owners: seq<NamespacedName>, changes: seq<Change<EndpointList>>)
  {
    && IsOrder(owners, Dirty(before) - rest)
    && |changes| == |owners|
    && (forall i :: 0 <= i < |owners| ==>
          owners[i] in before && IsChange(env, owners[i], before[owners[i]], changes[i]))
    && after.Keys == before.Keys
    && (forall svc <- before :: after[svc] == if svc in rest then before[svc] else Committed(before[svc]))
  }

  ghost predicate CheckedOut(
    env: Env, before: map<NamespacedName, Tracker>, after: map<NamespacedName, Tracker>,
    owners: seq<NamespacedName>, changes: seq<Change<EndpointList>>)
  {
    CheckedOutBut(env, before, after, {}, owners, changes)
  }

  lemma CheckoutOneMore(
    env: Env, before: map<NamespacedName, Tracker>, after: map<NamespacedName, Tracker>,
    rest: set<NamespacedName>, owners: seq<NamespacedName>, changes: seq<Change<EndpointList>>,
    svc: NamespacedName, c: Change<EndpointList>)
    requires CheckedOutBut(env, before, after, rest, owners, changes)
    requires svc in rest && svc in before && before[svc].pending != map[] && IsChange(env, svc, before[svc], c)
    ensures CheckedOutBut(
      env, before, after[svc := Committed(before[svc])], rest - {svc}, owners + [svc], changes + [c])
  {
    var owners' := owners + [svc];
    forall k ensures k in owners' <==> k in Dirty(before) - (rest - {svc}) {
      assert k in owners <==> k in Dirty(before) - rest;
    }
  }

  lemma OverlayOfApplied(t: Tracker)
    requires t.pending == map[]
    ensures Overlay(t) == t.applied
  {
  }

  lemma CommitOne(t: Tracker, name: string)
    requires name in t.pending
    ensures Overlay(Tracker(Replay(t.applied, name, t.pending[name]), t.pending - {name})) == Overlay(t)
    ensures |t.pending - {name}| < |t.pending|
  {
    var t' := Tracker(Replay(t.applied, name, t.pending[name]), t.pending - {name});
    assert t'.pending.Keys == t.pending.Keys - {name};
    var o, o' := Overlay(t), Overlay(t');
    forall n ensures n in o' <==> n in o {
      assert n != name ==> (n in t'.applied <==> n in t.applied);
    }
    forall n | n in o ensures o'[n] == o[n] {}
  }

  class EndpointSliceCache {
    const env: Env
    var trackers: map<NamespacedName, Tracker>

    constructor (env: Env)
      ensures this.env == env && trackers == map[]
    {
      this.env := env;
      trackers := map[];
    }

    method UpdatePending(slice: EndpointSlice, remove: bool) returns (changed: bool, ghost info: SliceInfo)
      requires CacheKeys(slice).Some? ==> PortsComparable(slice)
      modifies this
      ensures slice.serviceLabel in {None, Some("")} || slice.namespace == "" || slice.name == "" ==>
        !changed && trackers == old(trackers)
      ensures !(slice.serviceLabel in {None, Some("")} || slice.namespace == "" || slice.name == "") ==>
        forall svc <- trackers :: svc != NamespacedName(slice.namespace, slice.serviceLabel.value) ==>
          svc in old(trackers) && trackers[svc] == old(trackers)[svc]
      ensures changed ==>
        var svc := NamespacedName(slice.namespace, slice.serviceLabel.value);
        svc in trackers && slice.name in trackers[svc].pending && trackers[svc].pending[slice.name] == info
      ensures CacheKeys(slice).None? ==> !changed && trackers == old(trackers)
      ensures CacheKeys(slice).Some? ==>
        var (svc, name) := CacheKeys(slice).value;
        && IsInfo(slice, remove, info)
        && trackers == old(trackers)[svc := UpdateTracker(TrackerOf(old(trackers), svc), name, info)]
        && changed == InfoChanged(TrackerOf(old(trackers), svc), name, info)
    {
      if CacheKeys(slice).None? {
        info := SliceInfo([], [], remove);
        return false, info;
      }
      var (svc, name) := CacheKeys(slice).value;
      var esInfo := NewEndpointSliceInfo(slice, remove);
      if svc !in trackers {
        trackers := trackers[svc := EMPTY_TRACKER];
      }
      changed := InfoChanged(trackers[svc], name, esInfo);
      if changed {
        trackers := trackers[svc := trackers[svc].(pending := trackers[svc].pending[name := esInfo])];
      }
      info := esInfo;
    }

    method AddEndpointsByIP(key: ServicePortName, port: int, before: ByIP, endpoints: seq<EndpointInfo>,
                            ghost cs: seq<Contribution>)
      returns (byIP: ByIP)
      requires forall ip :: Get(before, ip) == Pick(cs, key, ip)
      ensures forall ip :: Get(byIP, ip) == Pick(cs + FromPort(env, key, port, endpoints), key, ip)
    {
      byIP := before;
      ghost var all := cs;
      for i := 0 to |endpoints|
        invariant all == cs + FromPort(env, key, port, endpoints[..i])
        invariant forall ip :: Get(byIP, ip) == Pick(all, key, ip)
      {
        var e := endpoints[i];
        assert endpoints[..i + 1][..i] == endpoints[..i];
        if e.addresses != [] && !env.WrongFamily(e.addresses[0]) {
          var ep := InfoEndpoint(env, port, e);
          var ip := env.ipPart(ep.address);
          if ip !in byIP || ep.isLocal {
            byIP := byIP[ip := ep];
          }
          assert (all + [Contribute(env, key, port, e)])[..|all|] == all;
          all := all + [Contribute(env, key, port, e)];
        }
      }
      assert endpoints[..|endpoints|] == endpoints;
    }

    method AddPorts(svc: NamespacedName, info: SliceInfo, before: ByServicePort, ghost cs: seq<Contribution>)
      returns (bySP: ByServicePort)
      requires Represents(before, cs)
      ensures Represents(bySP, cs + FromSlice(env, svc, info))
    {
      bySP := before;
      ghost var all := cs;
      for j := 0 to |info.ports|
        invariant all == cs + FromPorts(env, svc, info.ports[..j], info.endpoints)
        invariant Represents(bySP, all)
      {
        var p := info.ports[j];
        assert info.ports[..j + 1][..j] == info.ports[..j];
        if UsablePort(p) {
          var key := PortKey(svc, p);
          var byIP := if key in bySP then bySP[key] else map[];
          byIP := AddEndpointsByIP(key, p.port.value, byIP, info.endpoints, all);
          ghost var more := FromPort(env, key, p.port.value, info.endpoints);
          OtherKeysUnchanged(all, more, key, p.port.value, info.endpoints);
          RepresentsMore(bySP, all, more, key, byIP);
          bySP := bySP[key := byIP];
          all := all + more;
        }
      }
      assert info.ports[..|info.ports|] == info.ports;
    }

    lemma RepresentsMore(
      bySP: ByServicePort, cs: seq<Contribution>, more: seq<Contribution>, key: ServicePortName, byIP: ByIP)
      requires Represents(bySP, cs)
      requires forall ip :: Get(byIP, ip) == Pick(cs + more, key, ip)
      requires forall k: ServicePortName, ip: string :: k != key ==> Pick(cs + more, k, ip) == Pick(cs, k, ip)
      ensures Represents(bySP[key := byIP], cs + more)
    {
    }

    lemma OtherKeysUnchanged(
      cs: seq<Contribution>, more: seq<Contribution>, key: ServicePortName, port: int, endpoints: seq<EndpointInfo>)
      requires more == FromPort(env, key, port, endpoints)
      ensures forall k: ServicePortName, ip: string :: k != key ==> Pick(cs + more, k, ip) == Pick(cs, k, ip)
    {
      FromPortKeyed(env, key, port, endpoints);
      forall k: ServicePortName, ip: string | k != key ensures Pick(cs + more, k, ip) == Pick(cs, k, ip) {
        PickConcat(cs, more, k, ip);
        PickExact(more, k, ip);
      }
    }

    method GetEndpointsMap(svc: NamespacedName, infos: Infos)
      returns (table: Table<EndpointList>, ghost order: seq<string>)
      ensures IsMap(env, svc, infos, table, order)
      ensures forall k <- table :: k.nn == svc
    {
      var bySP: ByServicePort := map[];
      order := [];
      ghost var cs: seq<Contribution> := [];
      var rest := infos.Keys;
      while rest != {}
        invariant rest <= infos.Keys
        invariant IsOrder(order, infos.Keys - rest)
        invariant forall name <- order :: name in infos
        invariant cs == FromSlices(env, svc, infos, order)
        invariant Represents(bySP, cs)
        decreases rest
      {
        var name :| name in rest;
        bySP := AddPorts(svc, infos[name], bySP, cs);
        assert (order + [name])[..|order|] == order;
        order := order + [name];
        cs := cs + FromSlice(env, svc, infos[name]);
        rest := rest - {name};
      }
      FromSlicesKeyed(env, svc, infos, order);
      table := EndpointsMapFromEndpointInfo(env.ipPart, bySP, cs);
      forall k | k in table ensures k.nn == svc {
        assert RenderedAt(table, cs, k);
        var ip :| Pick(cs, k, ip).Some?;
        PickExact(cs, k, ip);
      }
    }

    /** Move the pending slices of one service to its applied ones, in any order. */
    method Commit(t: Tracker) returns (applied: Infos)
      ensures applied == Overlay(t)
    {
      applied := t.applied;
      var pending := t.pending;
      while pending != map[]
        invariant Overlay(Tracker(applied, pending)) == Overlay(t)
        decreases |pending|
      {
        var name :| name in pending;
        CommitOne(Tracker(applied, pending), name);
        if pending[name].remove {
          applied := applied - {name};
        } else {
          applied := applied[name := pending[name]];
        }
        pending := pending - {name};
      }
      OverlayOfApplied(Tracker(applied, pending));
    }

    method CheckoutService(svc: NamespacedName, t: Tracker) returns (change: Change<EndpointList>, applied: Infos)
      ensures IsChange(env, svc, t, change) && applied == Overlay(t)
    {
      var previous, o1 := GetEndpointsMap(svc, t.applied);
      applied := Commit(t);
      var current, o2 := GetEndpointsMap(svc, applied);
      change := Change(Made(previous), Made(current));
    }

    method CheckoutChanges() returns (changes: seq<Change<EndpointList>>, ghost owners: seq<NamespacedName>)
      modifies this
      ensures CheckedOut(env, old(trackers), trackers, owners, changes)
    {
      changes, owners := [], [];
      ghost var before := trackers;
      var rest := trackers.Keys;
      while rest != {}
        invariant rest <= before.Keys
        invariant CheckedOutBut(env, before, trackers, rest, owners, changes)
        decreases rest
      {
        var svc :| svc in rest;
        var t := trackers[svc];
        if t.pending != map[] {
          var change, applied := CheckoutService(svc, t);
          CheckoutOneMore(env, before, trackers, rest, owners, changes, svc, change);
          trackers := trackers[svc := Tracker(applied, map[])];
          changes, owners := changes + [change], owners + [svc];
        } else {
          OverlayOfApplied(t);
          assert Dirty(before) - rest == Dirty(before) - (rest - {svc});
        }
        rest := rest - {svc};
      }
    }
  }
}
