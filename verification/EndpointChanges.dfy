/**
  The endpoints side of kube-proxy: translating one Endpoints object, tracking pending changes,
  applying them to the proxier's table, and finding the UDP connections they make stale.
 */
module EndpointChanges {
  import opened Wrappers
  import opened ChangeTracking
  import opened ObjectRuns

  /** An endpoint as the proxier sees it; `address` is its "ip:port" string. */
  datatype Endpoint = Endpoint(address: string, isLocal: bool, topology: map<string, string>) {
    predicate Equal(other: Endpoint) { address == other.address && isLocal == other.isLocal }
  }

  /** What the tracker is configured with, and the address helpers of other packages. */
  datatype Env = Env(
    hostname: string,
    ipv6Mode: Option<bool>,
    isIPv6: string -> bool,
    joinHostPort: (string, int) -> string,
    ipPart: string -> string)
  {
    predicate WrongFamily(ip: string) { ipv6Mode.Some? && isIPv6(ip) != ipv6Mode.value }
  }

  datatype Address = Address(ip: string, nodeName: Option<string>)
  datatype Port = Port(name: string, port: int, protocol: Protocol)
  datatype Subset = Subset(addresses: seq<Address>, ports: seq<Port>)
  /** `trigger` is the parsed last-change-trigger-time annotation, if there is one. */
  datatype Endpoints = Endpoints(nn: NamespacedName, subsets: seq<Subset>, trigger: Option<int>)

  type EndpointList = seq<Endpoint>
  type EndpointsMap = GoMap<EndpointList>

  // ---------- Translating one object ----------

  /** The ip:port pairs of one object in the order the code meets them. */
  datatype Pair = Pair(key: ServicePortName, endpoint: Endpoint)

  function Key(nn: NamespacedName, port: Port): ServicePortName { ServicePortName(nn, port.name, port.protocol) }

  predicate Usable(env: Env, port: Port, a: Address) {
    port.port != 0 && a.ip != "" && !env.WrongFamily(a.ip)
  }

  function MakeEndpoint(env: Env, port: Port, a: Address): Endpoint {
    Endpoint(env.joinHostPort(a.ip, port.port), a.nodeName == Some(env.hostname), map[])
  }

  function PortPairs(env: Env, nn: NamespacedName, port: Port, addresses: seq<Address>): seq<Pair> {
    if addresses == [] then []
    else
      var a := addresses[|addresses| - 1];
      PortPairs(env, nn, port, addresses[..|addresses| - 1])
      + if Usable(env, port, a) then [Pair(Key(nn, port), MakeEndpoint(env, port, a))] else []
  }

  function SubsetPairs(env: Env, nn: NamespacedName, ports: seq<Port>, addresses: seq<Address>): seq<Pair> {
    if ports == [] then []
    else SubsetPairs(env, nn, ports[..|ports| - 1], addresses) + PortPairs(env, nn, ports[|ports| - 1], addresses)
  }

  function Pairs(env: Env, nn: NamespacedName, subsets: seq<Subset>): seq<Pair> {
    if subsets == [] then []
    else
      var last := subsets[|subsets| - 1];
      Pairs(env, nn, subsets[..|subsets| - 1]) + SubsetPairs(env, nn, last.ports, last.addresses)
  }

  /** Group the pairs by key, keeping their order. */
  function ListFor(pairs: seq<Pair>, k: ServicePortName): EndpointList {
    if pairs == [] then []
    else
      var last := pairs[|pairs| - 1];
      ListFor(pairs[..|pairs| - 1], k) + if last.key == k then [last.endpoint] else []
  }

  ghost predicate Groups(table: Table<EndpointList>, pairs: seq<Pair>) {
    forall k: ServicePortName ::
      && (k in table <==> ListFor(pairs, k) != [])
      && (k in table ==> table[k] == ListFor(pairs, k))
  }

  function Grouped(pairs: seq<Pair>): Table<EndpointList> {
    map p <- pairs | ListFor(pairs, p.key) != [] :: p.key := ListFor(pairs, p.key)
  }

  lemma {:induction false} ListForMember(pairs: seq<Pair>, k: ServicePortName, e: Endpoint)
    ensures e in ListFor(pairs, k) <==> Pair(k, e) in pairs
  {
    if pairs != [] {
      var last := pairs[|pairs| - 1];
      assert pairs == pairs[..|pairs| - 1] + [last];
      ListForMember(pairs[..|pairs| - 1], k, e);
    }
  }

  lemma GroupedGroups(pairs: seq<Pair>)
    ensures Groups(Grouped(pairs), pairs)
  {
    forall k: ServicePortName | ListFor(pairs, k) != [] ensures k in Grouped(pairs) {
      ListForMember(pairs, k, ListFor(pairs, k)[0]);
    }
  }

  lemma GroupsUnique(a: Table<EndpointList>, b: Table<EndpointList>, pairs: seq<Pair>)
    requires Groups(a, pairs) && Groups(b, pairs)
    ensures a == b
  {
    assert forall k :: k in a <==> k in b;
  }

  function View(env: Env, o: Option<Endpoints>): EndpointsMap {
    if o.None? then Nil else Made(Grouped(Pairs(env, o.value.nn, o.value.subsets)))
  }

  /**
    A port with a number and an address with an IP of the proxier's family, in one subset of the object,
    put this endpoint under this key; it is local if the address is on this node.
   */
  ghost predicate Contributes(env: Env, o: Endpoints, k: ServicePortName, e: Endpoint) {
    exists i, j, a ::
      && 0 <= i < |o.subsets| && 0 <= j < |o.subsets[i].ports| && 0 <= a < |o.subsets[i].addresses|
      && PutBy(env, o.nn, o.subsets[i].ports[j], o.subsets[i].addresses[a], k, e)
  }

  ghost predicate PutBy(env: Env, nn: NamespacedName, port: Port, a: Address, k: ServicePortName, e: Endpoint) {
    && port.port != 0 && a.ip != "" && (env.ipv6Mode.None? || env.ipv6Mode.value == env.isIPv6(a.ip))
    && k == ServicePortName(nn, port.name, port.protocol)
    && e.address == env.joinHostPort(a.ip, port.port)
    && (e.isLocal <==> a.nodeName == Some(env.hostname)) && e.topology == map[]
  }

  lemma PutByIff(env: Env, nn: NamespacedName, port: Port, a: Address, k: ServicePortName, e: Endpoint)
    ensures PutBy(env, nn, port, a, k, e) <==>
      Usable(env, port, a) && k == Key(nn, port) && e == MakeEndpoint(env, port, a)
  {
  }

  lemma {:induction false} PortPairsMember(env: Env, nn: NamespacedName, port: Port, addresses: seq<Address>, p: Pair)
    ensures p in PortPairs(env, nn, port, addresses) <==>
      exists a :: 0 <= a < |addresses| && PutBy(env, nn, port, addresses[a], p.key, p.endpoint)
  {
    if addresses != [] {
      PortPairsMember(env, nn, port, addresses[..|addresses| - 1], p);
    }
  }

  lemma {:induction false} SubsetPairsMember(
    env: Env, nn: NamespacedName, ports: seq<Port>, addresses: seq<Address>, p: Pair)
    ensures p in SubsetPairs(env, nn, ports, addresses) <==>
      exists j :: 0 <= j < |ports| && p in PortPairs(env, nn, ports[j], addresses)
  {
    if ports != [] {
      SubsetPairsMember(env, nn, ports[..|ports| - 1], addresses, p);
    }
  }

  lemma {:induction false} PairsMember(env: Env, nn: NamespacedName, subsets: seq<Subset>, p: Pair)
    ensures p in Pairs(env, nn, subsets) <==>
      exists i :: 0 <= i < |subsets| && p in SubsetPairs(env, nn, subsets[i].ports, subsets[i].addresses)
  {
    if subsets != [] {
      PairsMember(env, nn, subsets[..|subsets| - 1], p);
    }
  }

  /** A key lists exactly the usable addresses of the object, and every key carries the object's name. */
  lemma ViewIsExact(env: Env, o: Endpoints, k: ServicePortName, e: Endpoint)
    ensures var entries := View(env, Some(o)).Entries();
            (k in entries && e in entries[k]) <==> Contributes(env, o, k, e)
    ensures Owned(o.nn, View(env, Some(o)))
    ensures forall k <- View(env, Some(o)).Entries() :: View(env, Some(o)).Entries()[k] != []
  {
    var pairs := Pairs(env, o.nn, o.subsets);
    GroupedGroups(pairs);
    ListForMember(pairs, k, e);
    PairContributes(env, o, Pair(k, e));
    forall k' | k' in Grouped(pairs) ensures k'.nn == o.nn {
      var e' := Grouped(pairs)[k'][0];
      ListForMember(pairs, k', e');
      PairContributes(env, o, Pair(k', e'));
    }
  }

  lemma PairContributes(env: Env, o: Endpoints, p: Pair)
    ensures p in Pairs(env, o.nn, o.subsets) <==> Contributes(env, o, p.key, p.endpoint)
  {
    PairsMember(env, o.nn, o.subsets, p);
    if p in Pairs(env, o.nn, o.subsets) {
      var i :| 0 <= i < |o.subsets| && p in SubsetPairs(env, o.nn, o.subsets[i].ports, o.subsets[i].addresses);
      SubsetPairsMember(env, o.nn, o.subsets[i].ports, o.subsets[i].addresses, p);
      var j :| 0 <= j < |o.subsets[i].ports|
               && p in PortPairs(env, o.nn, o.subsets[i].ports[j], o.subsets[i].addresses);
      PortPairsMember(env, o.nn, o.subsets[i].ports[j], o.subsets[i].addresses, p);
    }
    if Contributes(env, o, p.key, p.endpoint) {
      var i, j, a :|
        && 0 <= i < |o.subsets| && 0 <= j < |o.subsets[i].ports| && 0 <= a < |o.subsets[i].addresses|
        && PutBy(env, o.nn, o.subsets[i].ports[j], o.subsets[i].addresses[a], p.key, p.endpoint);
      PortPairsMember(env, o.nn, o.subsets[i].ports[j], o.subsets[i].addresses, p);
      SubsetPairsMember(env, o.nn, o.subsets[i].ports, o.subsets[i].addresses, p);
    }
  }

  // ---------- Stale connections ----------

  datatype ServiceEndpoint = ServiceEndpoint(endpoint: string, key: ServicePortName)

  function At(table: Table<EndpointList>, k: ServicePortName): EndpointList {
    if k in table then table[k] else []
  }

  ghost predicate Listed(list: EndpointList, e: Endpoint) {
    exists i :: 0 <= i < |list| && list[i].Equal(e)
  }

  /** A UDP pair of the old table has no equal endpoint in the new one. */
  ghost predicate Lost(before: Table<EndpointList>, after: Table<EndpointList>, x: ServiceEndpoint) {
    && x.key.protocol == UDP
    && exists e :: e in At(before, x.key) && e.address == x.endpoint && !Listed(At(after, x.key), e)
  }

  /** A UDP service goes from no endpoints to some. */
  predicate Gained(before: Table<EndpointList>, after: Table<EndpointList>, k: ServicePortName) {
    k.protocol == UDP && At(before, k) == [] && At(after, k) != []
  }

  /** How many endpoints of the list have this address and no equal in the other list. */
  ghost function TimesStale(list: EndpointList, current: EndpointList, address: string): nat {
    if list == [] then 0
    else
      var e := list[|list| - 1];
      TimesStale(list[..|list| - 1], current, address) + if e.address == address && !Listed(current, e) then 1 else 0
  }

  /** How many endpoints make a UDP pair stale. */
  ghost function TimesLost(before: Table<EndpointList>, after: Table<EndpointList>, x: ServiceEndpoint): nat {
    if x.key.protocol == UDP then TimesStale(At(before, x.key), At(after, x.key), x.endpoint) else 0
  }

  method StaleInList(k: ServicePortName, list: EndpointList, current: EndpointList)
    returns (stale: seq<ServiceEndpoint>)
    ensures forall x :: multiset(stale)[x] == if x.key == k then TimesStale(list, current, x.endpoint) else 0
    ensures forall x :: x in stale <==>
      x.key == k && exists e :: e in list && e.address == x.endpoint && !Listed(current, e)
  {
    stale := [];
    for j := 0 to |list|
      invariant forall x :: multiset(stale)[x] == if x.key == k then TimesStale(list[..j], current, x.endpoint) else 0
      invariant forall x :: x in stale <==>
        x.key == k && exists e :: e in list[..j] && e.address == x.endpoint && !Listed(current, e)
    {
      var isStale := true;
      for i := 0 to |current|
        invariant isStale
        invariant forall m :: 0 <= m < i ==> !current[m].Equal(list[j])
      {
        if current[i].Equal(list[j]) {
          isStale := false;
          break;
        }
      }
      assert list[..j + 1] == list[..j] + [list[j]];
      assert list[..j + 1][..j] == list[..j];
      if isStale {
        stale := stale + [ServiceEndpoint(list[j].address, k)];
      }
    }
    assert list[..|list|] == list;
  }

  method DetectStaleConnections(before: EndpointsMap, after: EndpointsMap)
    returns (staleEndpoints: seq<ServiceEndpoint>, staleServiceNames: seq<ServicePortName>)
    ensures forall x :: x in staleEndpoints <==> Lost(before.Entries(), after.Entries(), x)
    ensures forall x :: multiset(staleEndpoints)[x] == TimesLost(before.Entries(), after.Entries(), x)
    ensures forall k :: k in staleServiceNames <==> Gained(before.Entries(), after.Entries(), k)
    ensures forall k :: multiset(staleServiceNames)[k] <= 1
  {
    staleEndpoints, staleServiceNames := [], [];
    var rest := before.Entries().Keys;
    while rest != {}
      invariant rest <= before.Entries().Keys
      invariant forall x :: x in staleEndpoints <==> Lost(before.Entries(), after.Entries(), x) && x.key !in rest
      invariant forall x ::
        multiset(staleEndpoints)[x] == if x.key !in rest then TimesLost(before.Entries(), after.Entries(), x) else 0
      decreases rest
    {
      var k :| k in rest;
      if k.protocol == UDP {
        var stale := StaleInList(k, before.Entries()[k], At(after.Entries(), k));
        staleEndpoints := staleEndpoints + stale;
      }
      rest := rest - {k};
    }
    rest := after.Entries().Keys;
    while rest != {}
      invariant rest <= after.Entries().Keys
      invariant forall k :: k in staleServiceNames <==> Gained(before.Entries(), after.Entries(), k) && k !in rest
      invariant forall k :: multiset(staleServiceNames)[k] <= 1
      decreases rest
    {
      var k :| k in rest;
      if k.protocol == UDP && after.Entries()[k] != [] && At(before.Entries(), k) == [] {
        staleServiceNames := staleServiceNames + [k];
      }
      rest := rest - {k};
    }
  }

  // ---------- The tracker and the table ----------

  class EndpointChangeTracker {
    const env: Env
    var items: Items<EndpointList>
    var lastChangeTriggerTimes: map<NamespacedName, seq<int>>

    constructor (env: Env)
      ensures this.env == env && items == map[] && lastChangeTriggerTimes == map[]
    {
      this.env := env;
      items, lastChangeTriggerTimes := map[], map[];
    }

    /** Trigger times are kept only for objects with a pending change. */
    ghost predicate Valid()
      reads this
    {
      lastChangeTriggerTimes.Keys <= items.Keys
    }

    method EndpointsToEndpointsMap(o: Option<Endpoints>) returns (r: EndpointsMap)
      ensures r == View(env, o)
    {
      if o.None? { return Nil; }
      var nn, subsets := o.value.nn, o.value.subsets;
      var table: Table<EndpointList> := map[];
      ghost var pairs: seq<Pair> := [];
      for i := 0 to |subsets|
        invariant pairs == Pairs(env, nn, subsets[..i])
        invariant Groups(table, pairs)
      {
        var ss := subsets[i];
        ghost var pairs0 := pairs;
        for j := 0 to |ss.ports|
          invariant pairs == pairs0 + SubsetPairs(env, nn, ss.ports[..j], ss.addresses)
          invariant Groups(table, pairs)
        {
          var port := ss.ports[j];
          table := AddPort(nn, port, ss.addresses, table, pairs);
          pairs := pairs + PortPairs(env, nn, port, ss.addresses);
          assert ss.ports[..j + 1][..j] == ss.ports[..j];
        }
        assert ss.ports[..|ss.ports|] == ss.ports;
        assert subsets[..i + 1][..i] == subsets[..i];
      }
      assert subsets[..|subsets|] == subsets;
      GroupedGroups(pairs);
      GroupsUnique(table, Grouped(pairs), pairs);
      return Made(table);
    }

    method AddPort(nn: NamespacedName, port: Port, addresses: seq<Address>,
                   before: Table<EndpointList>, ghost pairs: seq<Pair>)
      returns (table: Table<EndpointList>)
      requires Groups(before, pairs)
      ensures Groups(table, pairs + PortPairs(env, nn, port, addresses))
    {
      table := before;
      ghost var added: seq<Pair> := [];
      assert pairs + added == pairs;
      if port.port != 0 {
        var k := Key(nn, port);
        for a := 0 to |addresses|
          invariant added == PortPairs(env, nn, port, addresses[..a])
          invariant Groups(table, pairs + added)
        {
          var addr := addresses[a];
          assert addresses[..a + 1][..a] == addresses[..a];
          if addr.ip != "" && !env.WrongFamily(addr.ip) {
            var p := Pair(k, MakeEndpoint(env, port, addr));
            table := table[k := At(table, k) + [p.endpoint]];
            assert (pairs + (added + [p]))[..|pairs + added|] == pairs + added;
            added := added + [p];
          }
        }
        assert addresses[..|addresses|] == addresses;
      } else {
        NoPairs(nn, port, addresses);
      }
    }

    lemma {:induction false} NoPairs(nn: NamespacedName, port: Port, addresses: seq<Address>)
      requires port.port == 0
      ensures PortPairs(env, nn, port, addresses) == []
    {
      if addresses != [] { NoPairs(nn, port, addresses[..|addresses| - 1]); }
    }

    method Update(previous: Option<Endpoints>, current: Option<Endpoints>) returns (pending: bool)
      requires Valid()
      modifies this
      ensures Valid()
      ensures Subject(previous, current).None? ==>
        !pending && items == old(items) && lastChangeTriggerTimes == old(lastChangeTriggerTimes)
      ensures Subject(previous, current).Some? ==>
        var o := Subject(previous, current).value;
        && items == TrackUpdate(old(items), o.nn, View(env, previous), View(env, current))
        && pending == (items != map[])
        && lastChangeTriggerTimes == TrackTimes(old(lastChangeTriggerTimes), o, o.nn in items)
    {
      var subject := if current.Some? then current else previous;
      if subject.None? { return false; }
      var o := subject.value;
      var change;
      if o.nn in items {
        change := items[o.nn];
      } else {
        var p := EndpointsToEndpointsMap(previous);
        change := Change(p, Nil);
      }
      lastChangeTriggerTimes := AppendTime(lastChangeTriggerTimes, o);
      var c := EndpointsToEndpointsMap(current);
      items := items[o.nn := change.(current := c)];
      if change.previous == c {
        items := items - {o.nn};
        lastChangeTriggerTimes := lastChangeTriggerTimes - {o.nn};
        assert items == old(items) - {o.nn};
        assert lastChangeTriggerTimes == old(lastChangeTriggerTimes) - {o.nn};
      }
      pending := items != map[];
    }

    /** The pending changes as a list, in the order in which Go happens to range over the map. */
    method CheckoutChanges() returns (changes: seq<Change<EndpointList>>, ghost order: seq<NamespacedName>)
      modifies this`items
      ensures items == map[]
      ensures IsOrder(order, old(items).Keys) && |changes| == |order|
      ensures forall i :: 0 <= i < |order| ==> order[i] in old(items) && changes[i] == old(items)[order[i]]
    {
      changes, order := [], [];
      var rest := items.Keys;
      while rest != {}
        invariant rest <= items.Keys && items == old(items)
        invariant IsOrder(order, items.Keys - rest) && |changes| == |order|
        invariant forall i :: 0 <= i < |order| ==> order[i] in items && changes[i] == items[order[i]]
        decreases rest
      {
        var n :| n in rest;
        changes, order := changes + [items[n]], order + [n];
        rest := rest - {n};
      }
      items := map[];
    }
  }

  function AppendTime(times: map<NamespacedName, seq<int>>, o: Endpoints): map<NamespacedName, seq<int>> {
    if o.trigger.None? then times
    else times[o.nn := (if o.nn in times then times[o.nn] else []) + [o.trigger.value]]
  }

  /** The trigger times of an object are kept while its change is pending and forgotten when it cancels out. */
  function TrackTimes(times: map<NamespacedName, seq<int>>, o: Endpoints, pending: bool)
    : map<NamespacedName, seq<int>>
  {
    if pending then AppendTime(times, o) else times - {o.nn}
  }

  /** An update of an object that had a subject, and whether it left the object pending. */
  datatype Tracked = Tracked(o: Endpoints, pending: bool)

  function TimesAfter(updates: seq<Tracked>): map<NamespacedName, seq<int>> {
    if updates == [] then map[]
    else
      var last := updates[|updates| - 1];
      TrackTimes(TimesAfter(updates[..|updates| - 1]), last.o, last.pending)
  }

  /** The trigger times of the updates of one object, in order. */
  function Triggers(updates: seq<Tracked>, n: NamespacedName): seq<int> {
    if updates == [] then []
    else
      var o := updates[|updates| - 1].o;
      Triggers(updates[..|updates| - 1], n) + if o.nn == n && o.trigger.Some? then [o.trigger.value] else []
  }

  /**
    The times kept for an object are those of its updates since its change last cancelled out, or since the
    start or the last sync; without any the object is not listed.
   */
  lemma {:induction false} TimesSinceCancelled(past: seq<Tracked>, since: seq<Tracked>, n: NamespacedName)
    requires past == [] || (past[|past| - 1].o.nn == n && !past[|past| - 1].pending)
    requires forall u <- since :: u.o.nn == n ==> u.pending
    ensures var times := TimesAfter(past + since);
      (n in times <==> Triggers(since, n) != []) && (n in times ==> times[n] == Triggers(since, n))
  {
    if since == [] {
      assert past + since == past;
    } else {
      var m := |since| - 1;
      assert since[m] in since;
      assert (past + since)[..|past + since| - 1] == past + since[..m];
      TimesSinceCancelled(past, since[..m], n);
    }
  }

  class EndpointsTable {
    var entries: Table<EndpointList>

    method Merge(other: EndpointsMap)
      modifies this
      ensures entries == old(entries) + other.Entries()
    {
      var rest := other.Entries().Keys;
      while rest != {}
        invariant rest <= other.Entries().Keys
        invariant entries.Keys == old(entries).Keys + (other.Entries().Keys - rest)
        invariant forall k <- entries ::
          entries[k] == if k in other.Entries() && k !in rest then other.Entries()[k] else old(entries)[k]
        decreases rest
      {
        var k :| k in rest;
        entries := entries[k := other.Entries()[k]];
        rest := rest - {k};
      }
    }

    method Unmerge(other: EndpointsMap)
      modifies this
      ensures entries == old(entries) - other.Entries().Keys
    {
      var rest := other.Entries().Keys;
      while rest != {}
        invariant rest <= other.Entries().Keys
        invariant entries == old(entries) - (other.Entries().Keys - rest)
        decreases rest
      {
        var k :| k in rest;
        entries := entries - {k};
        rest := rest - {k};
      }
    }

    method ApplyChanges(changes: seq<Change<EndpointList>>)
      returns (staleEndpoints: seq<ServiceEndpoint>, staleServiceNames: seq<ServicePortName>)
      modifies this
      ensures entries == ApplySeq(old(entries), changes)
      ensures forall x :: x in staleEndpoints <==>
        exists c <- changes :: Lost(c.previous.Entries(), c.current.Entries(), x)
      ensures forall k :: k in staleServiceNames <==>
        exists c <- changes :: Gained(c.previous.Entries(), c.current.Entries(), k)
    {
      staleEndpoints, staleServiceNames := [], [];
      for i := 0 to |changes|
        invariant entries == ApplySeq(old(entries), changes[..i])
        invariant forall x :: x in staleEndpoints <==>
          exists c <- changes[..i] :: Lost(c.previous.Entries(), c.current.Entries(), x)
        invariant forall k :: k in staleServiceNames <==>
          exists c <- changes[..i] :: Gained(c.previous.Entries(), c.current.Entries(), k)
      {
        Unmerge(changes[i].previous);
        Merge(changes[i].current);
        var endpoints, names := DetectStaleConnections(changes[i].previous, changes[i].current);
        staleEndpoints, staleServiceNames := staleEndpoints + endpoints, staleServiceNames + names;
        assert changes[..i + 1] == changes[..i] + [changes[i]];
        assert changes[..i + 1][..i] == changes[..i];
      }
      assert changes[..|changes|] == changes;
    }

    method Apply(ect: EndpointChangeTracker)
      returns (staleEndpoints: seq<ServiceEndpoint>, staleServiceNames: seq<ServicePortName>,
               triggerTimes: map<NamespacedName, seq<int>>, ghost order: seq<NamespacedName>)
      requires ect.Valid()
      modifies this, ect
      ensures ect.Valid() && ect.items == map[] && ect.lastChangeTriggerTimes == map[]
      ensures triggerTimes == old(ect.lastChangeTriggerTimes)
      ensures IsOrder(order, old(ect.items).Keys)
      ensures entries == ApplyInOrder(old(entries), old(ect.items), order)
      ensures forall x :: x in staleEndpoints <==>
        exists n <- old(ect.items) :: Lost(old(ect.items)[n].previous.Entries(), old(ect.items)[n].current.Entries(), x)
      ensures forall k :: k in staleServiceNames <==>
        exists n <- old(ect.items) ::
          Gained(old(ect.items)[n].previous.Entries(), old(ect.items)[n].current.Entries(), k)
    {
      ghost var items := ect.items;
      var changes;
      changes, order := ect.CheckoutChanges();
      staleEndpoints, staleServiceNames := ApplyChanges(changes);
      ApplySeqInOrder(old(entries), items, order, changes);
      assert forall c :: c in changes <==> exists n <- items :: items[n] == c by {
        forall n | n in items ensures items[n] in changes {
          var i :| 0 <= i < |order| && order[i] == n;
          assert changes[i] == items[n];
        }
      }
      triggerTimes := ect.lastChangeTriggerTimes;
      ect.lastChangeTriggerTimes := map[];
    }
  }

  // ---------- What a sync reports, in terms of the whole table ----------

  /**
    The pending changes together report exactly the UDP pairs that the whole table loses in a sync,
    and exactly the UDP services that it takes from no endpoints to some.
   */
  lemma StaleIsWhatTheTableLoses(
    s: State<EndpointList>, after: Table<EndpointList>, x: ServiceEndpoint, k: ServicePortName)
    requires InSync(s) && IsUnion(after, s.latest)
    ensures (exists n <- s.items :: Lost(s.items[n].previous.Entries(), s.items[n].current.Entries(), x))
       <==> Lost(s.table, after, x)
    ensures (exists n <- s.items :: Gained(s.items[n].previous.Entries(), s.items[n].current.Entries(), k))
       <==> Gained(s.table, after, k)
  {
    OnlyItsObjectMatters(s, after, x.key);
    OnlyItsObjectMatters(s, after, k);
    forall e | e in At(s.table, x.key) && x.key.nn !in s.items ensures Listed(At(after, x.key), e) {
      var list := At(after, x.key);
      var i :| 0 <= i < |list| && list[i] == e;
      assert list[i].Equal(e);
    }
  }

  lemma OnlyItsObjectMatters(s: State<EndpointList>, after: Table<EndpointList>, k: ServicePortName)
    requires InSync(s) && IsUnion(after, s.latest)
    ensures k.nn !in s.items ==> At(s.table, k) == At(after, k)
    ensures k.nn in s.items ==> At(s.items[k.nn].previous.Entries(), k) == At(s.table, k)
    ensures k.nn in s.items ==> At(s.items[k.nn].current.Entries(), k) == At(after, k)
    ensures forall n <- s.items :: n != k.nn ==>
      At(s.items[n].previous.Entries(), k) == [] && At(s.items[n].current.Entries(), k) == []
  {
    assert k.nn in s.items <==> Look(s.applied, k.nn) != Look(s.latest, k.nn);
    assert k in s.table <==> k in Look(s.applied, k.nn).Entries();
    assert k in after <==> k in Look(s.latest, k.nn).Entries();
    forall n | n in s.items && n != k.nn
      ensures At(s.items[n].previous.Entries(), k) == [] && At(s.items[n].current.Entries(), k) == []
    {
      assert s.items[n] == Change(Look(s.applied, n), Look(s.latest, n));
      assert Owned(n, Look(s.latest, n)) && Owned(n, Look(s.applied, n));
    }
  }

  /** The object uses the address under this key, on this node or on another. */
  ghost predicate Uses(env: Env, o: Option<Endpoints>, k: ServicePortName, address: string, local: bool) {
    o.Some? && Contributes(env, o.value, k, Endpoint(address, local, map[]))
  }

  ghost predicate Serves(table: Table<EndpointList>, x: ServiceEndpoint) {
    exists e :: e in At(table, x.key) && e.address == x.endpoint
  }

  /** The list has the address on this side. */
  ghost predicate HasSide(list: EndpointList, address: string, local: bool) {
    exists e :: e in list && e.address == address && e.isLocal == local
  }

  /** A list in a table shows an address on a side exactly if the object of that name uses it there. */
  lemma SideIffUsed(env: Env, table: Table<EndpointList>, views: map<NamespacedName, EndpointsMap>,
                    o: Option<Endpoints>, k: ServicePortName, address: string, local: bool)
    requires IsUnion(table, views) && Look(views, k.nn) == View(env, o) && (o.Some? ==> o.value.nn == k.nn)
    ensures HasSide(At(table, k), address, local) <==> Uses(env, o, k, address, local)
  {
    assert At(table, k) == At(View(env, o).Entries(), k);
    if o.Some? {
      ViewIsExact(env, o.value, k, Endpoint(address, local, map[]));
      if e :| e in At(table, k) && e.address == address && e.isLocal == local {
        ViewIsExact(env, o.value, k, e);
      }
    }
  }

  lemma ListedIsSide(list: EndpointList, e: Endpoint)
    ensures Listed(list, e) <==> HasSide(list, e.address, e.isLocal)
  {
    if i :| 0 <= i < |list| && list[i].Equal(e) {
      assert list[i] in list;
    }
    if f :| f in list && f.address == e.address && f.isLocal == e.isLocal {
      var i :| 0 <= i < |list| && list[i] == f;
      assert list[i].Equal(e);
    }
  }

  lemma MovedIff(before: Table<EndpointList>, after: Table<EndpointList>, x: ServiceEndpoint)
    ensures Lost(before, after, x) && Serves(after, x) <==>
      x.key.protocol == UDP && exists local: bool ::
        && HasSide(At(before, x.key), x.endpoint, local)
        && !HasSide(At(after, x.key), x.endpoint, local) && HasSide(At(after, x.key), x.endpoint, !local)
  {
    forall e: Endpoint {
      ListedIsSide(At(after, x.key), e);
    }
    if e :| e in At(after, x.key) && e.address == x.endpoint {
      assert HasSide(At(after, x.key), x.endpoint, e.isLocal);
    }
  }

  /**
    A sync reports an address that it goes on serving exactly if the address has moved: it was used on
    one side, this node or another, and is now used on the other side only.
   */
  lemma ReportedButStillServed(env: Env, s: State<EndpointList>, after: Table<EndpointList>,
                               o: Option<Endpoints>, o': Option<Endpoints>, x: ServiceEndpoint)
    requires InSync(s) && IsUnion(after, s.latest)
    requires Look(s.applied, x.key.nn) == View(env, o) && (o.Some? ==> o.value.nn == x.key.nn)
    requires Look(s.latest, x.key.nn) == View(env, o') && (o'.Some? ==> o'.value.nn == x.key.nn)
    ensures Lost(s.table, after, x) && Serves(after, x) <==>
      x.key.protocol == UDP && exists local: bool ::
        && Uses(env, o, x.key, x.endpoint, local)
        && !Uses(env, o', x.key, x.endpoint, local) && Uses(env, o', x.key, x.endpoint, !local)
  {
    MovedIff(s.table, after, x);
    forall local: bool
      ensures HasSide(At(s.table, x.key), x.endpoint, local) <==> Uses(env, o, x.key, x.endpoint, local)
      ensures HasSide(At(after, x.key), x.endpoint, local) <==> Uses(env, o', x.key, x.endpoint, local)
    {
      SideIffUsed(env, s.table, s.applied, o, x.key, x.endpoint, local);
      SideIffUsed(env, after, s.latest, o', x.key, x.endpoint, local);
    }
  }

  // ---------- Runs of object events ----------

  /**
    For every run of object events and syncs, after a sync the proxier's table holds under each key
    exactly what translating the last known object of that name gives, and nothing else.
   */
  lemma ProxierFollowsEndpoints(env: Env, events: seq<ObjectEvent<Endpoints>>, k: ServicePortName)
    requires Informed(Name, events) && SyncsVisitAll(Name, (o: Endpoints) => View(env, Some(o)), events)
    requires events != [] && events[|events| - 1].Sync?
    ensures AllowedRun(Translate(Name, (o: Endpoints) => View(env, Some(o)), events))
    ensures At(Run(Translate(Name, (o: Endpoints) => View(env, Some(o)), events)).table, k)
         == At(View(env, Find(Known(Name, events), k.nn)).Entries(), k)
  {
    var view := (o: Endpoints) => View(env, Some(o));
    forall o: Endpoints ensures Owned(Name(o), view(o)) {
      ViewIsExact(env, o, ServicePortName(o.nn, "", TCP), Endpoint("", false, map[]));
    }
    TableFollowsObjects(Name, view, events, k);
  }

  function Name(o: Endpoints): NamespacedName { o.nn }
}
