/**
  The services side of kube-proxy: translating one Service object, tracking pending changes, and
  applying them by merge, filter and unmerge, which also collects the cluster IPs of UDP ports gone.
 */
module ServiceChanges {
  import opened Wrappers
  import opened ChangeTracking
  import opened ObjectRuns

  datatype ServiceType = ClusterIP | NodePort | LoadBalancer | ExternalName
  datatype Port = Port(name: string, protocol: Protocol, port: int, nodePort: int)
  datatype Service = Service(nn: NamespacedName, clusterIP: string, serviceType: ServiceType, ports: seq<Port>)

  datatype ServicePort = ServicePort(clusterIP: string, port: int, protocol: Protocol, nodePort: int)

  type ServiceMap = GoMap<ServicePort>

  datatype Env = Env(ipv6Mode: Option<bool>, isIPv6: string -> bool)

  // ---------- Translating one object ----------

  predicate Skipped(env: Env, o: Service) {
    || o.clusterIP == "None" || o.clusterIP == ""
    || o.serviceType == ExternalName
    || (env.ipv6Mode.Some? && env.isIPv6(o.clusterIP) != env.ipv6Mode.value)
  }

  function Key(nn: NamespacedName, port: Port): ServicePortName { ServicePortName(nn, port.name, port.protocol) }

  function Info(o: Service, port: Port): ServicePort {
    ServicePort(o.clusterIP, port.port, port.protocol, port.nodePort)
  }

  /** A later port with the same name and protocol replaces an earlier one. */
  function PortEntries(o: Service, ports: seq<Port>): Table<ServicePort> {
    if ports == [] then map[]
    else
      var last := ports[|ports| - 1];
      PortEntries(o, ports[..|ports| - 1])[Key(o.nn, last) := Info(o, last)]
  }

  function View(env: Env, o: Option<Service>): ServiceMap {
    if o.None? || Skipped(env, o.value) then Nil else Made(PortEntries(o.value, o.value.ports))
  }

  /** `i` is the last port of the service with this key. */
  predicate IsLastPort(o: Service, ports: seq<Port>, k: ServicePortName, i: nat) {
    && i < |ports| && Key(o.nn, ports[i]) == k
    && forall j :: i < j < |ports| ==> Key(o.nn, ports[j]) != k
  }

  lemma {:induction false} PortEntriesExact(o: Service, ports: seq<Port>, k: ServicePortName)
    ensures k in PortEntries(o, ports) <==> exists i: nat :: IsLastPort(o, ports, k, i)
    ensures forall i: nat :: IsLastPort(o, ports, k, i) ==>
      k in PortEntries(o, ports) && PortEntries(o, ports)[k] == Info(o, ports[i])
    ensures k in PortEntries(o, ports) ==> k.nn == o.nn && PortEntries(o, ports)[k].protocol == k.protocol
  {
    if ports != [] {
      var n := |ports| - 1;
      PortEntriesExact(o, ports[..n], k);
      if Key(o.nn, ports[n]) == k {
        assert IsLastPort(o, ports, k, n);
      } else {
        forall i: nat ensures IsLastPort(o, ports, k, i) <==> IsLastPort(o, ports[..n], k, i) {}
      }
    }
  }

  /** The last port of the service with this name and protocol. */
  ghost predicate IsLastNamed(ports: seq<Port>, k: ServicePortName, i: nat) {
    && i < |ports| && ports[i].name == k.port && ports[i].protocol == k.protocol
    && forall j :: i < j < |ports| ==> !(ports[j].name == k.port && ports[j].protocol == k.protocol)
  }

  /**
    A service is translated unless it has no cluster IP or is headless, is an external name, or is of
    another IP family than the proxier's; then its table holds, for each name and protocol among its
    ports, the cluster IP and the figures of the last such port.
   */
  lemma ViewIsExact(env: Env, o: Service, k: ServicePortName)
    ensures View(env, Some(o)).Nil? <==>
      || o.clusterIP == "" || o.clusterIP == "None" || o.serviceType == ExternalName
      || env.ipv6Mode == Some(!env.isIPv6(o.clusterIP))
    ensures View(env, Some(o)).Made? ==>
      (k in View(env, Some(o)).entries <==> exists i: nat :: k.nn == o.nn && IsLastNamed(o.ports, k, i))
    ensures View(env, Some(o)).Made? ==> forall i: nat :: k.nn == o.nn && IsLastNamed(o.ports, k, i) ==>
      && k in View(env, Some(o)).entries
      && View(env, Some(o)).entries[k].clusterIP == o.clusterIP
      && View(env, Some(o)).entries[k].port == o.ports[i].port
      && View(env, Some(o)).entries[k].protocol == o.ports[i].protocol
      && View(env, Some(o)).entries[k].nodePort == o.ports[i].nodePort
  {
    PortEntriesExact(o, o.ports, k);
    forall i: nat ensures k.nn == o.nn && IsLastNamed(o.ports, k, i) <==> IsLastPort(o, o.ports, k, i) {}
  }

  lemma ViewIsOwned(env: Env, o: Service)
    ensures Owned(o.nn, View(env, Some(o)))
  {
    forall k | k in PortEntries(o, o.ports) ensures k.nn == o.nn {
      PortEntriesExact(o, o.ports, k);
    }
  }

  // ---------- The tracker and the table ----------

  class ServiceChangeTracker {
    const env: Env
    var items: Items<ServicePort>

    constructor (env: Env)
      ensures this.env == env && items == map[]
    {
      this.env := env;
      items := map[];
    }

    method ServiceToServiceMap(o: Option<Service>) returns (r: ServiceMap)
      ensures r == View(env, o)
      ensures r.Nil? <==>
        || o.None? || o.value.clusterIP == "" || o.value.clusterIP == "None" || o.value.serviceType == ExternalName
        || env.ipv6Mode == Some(!env.isIPv6(o.value.clusterIP))
    {
      if o.None? || Skipped(env, o.value) { return Nil; }
      var ports := o.value.ports;
      var table: Table<ServicePort> := map[];
      for i := 0 to |ports|
        invariant table == PortEntries(o.value, ports[..i])
      {
        table := table[Key(o.value.nn, ports[i]) := Info(o.value, ports[i])];
        assert ports[..i + 1][..i] == ports[..i];
      }
      assert ports[..|ports|] == ports;
      return Made(table);
    }

    method Update(previous: Option<Service>, current: Option<Service>) returns (pending: bool)
      modifies this
      ensures Subject(previous, current).None? ==> !pending && items == old(items)
      ensures Subject(previous, current).Some? ==>
        && items == TrackUpdate(
             old(items), Subject(previous, current).value.nn, View(env, previous), View(env, current))
        && pending == (items != map[])
    {
      var subject := if current.Some? then current else previous;
      if subject.None? { return false; }
      var n := subject.value.nn;
      var change;
      if n in items {
        change := items[n];
      } else {
        var p := ServiceToServiceMap(previous);
        change := Change(p, Nil);
      }
      var c := ServiceToServiceMap(current);
      items := items[n := change.(current := c)];
      if change.previous == c {
        items := items - {n};
        assert items == old(items) - {n};
      }
      pending := items != map[];
    }
  }

  /** The cluster IPs of the UDP ports that one change takes away, as recorded in the table. */
  ghost function Vacated(table: Table<ServicePort>, c: Change<ServicePort>): set<string> {
    set k <- c.previous.Entries() |
      k !in c.current.Entries() && k in table && table[k].protocol == UDP :: table[k].clusterIP
  }

  /** The keys of one map that are not keys of another, as `filter` leaves them. */
  method Filter(sm: ServiceMap, other: ServiceMap) returns (r: Table<ServicePort>)
    ensures r == sm.Entries() - other.Entries().Keys
  {
    r := sm.Entries();
    var rest := r.Keys;
    while rest != {}
      invariant rest <= sm.Entries().Keys
      invariant r == sm.Entries() - (other.Entries().Keys - rest)
      decreases rest
    {
      var k :| k in rest;
      if k in other.Entries() {
        r := r - {k};
      }
      rest := rest - {k};
    }
  }

  class ServiceTable {
    var entries: Table<ServicePort>

    method Merge(other: ServiceMap) returns (existingPorts: set<ServicePortName>)
      modifies this
      ensures entries == old(entries) + other.Entries() && existingPorts == other.Entries().Keys
    {
      existingPorts := {};
      var rest := other.Entries().Keys;
      while rest != {}
        invariant rest <= other.Entries().Keys && existingPorts == other.Entries().Keys - rest
        invariant entries.Keys == old(entries).Keys + existingPorts
        invariant forall k <- entries ::
          entries[k] == if k in existingPorts then other.Entries()[k] else old(entries)[k]
        decreases rest
      {
        var k :| k in rest;
        existingPorts := existingPorts + {k};
        entries := entries[k := other.Entries()[k]];
        rest := rest - {k};
      }
    }

    method Unmerge(other: Table<ServicePort>, udpStaleClusterIP: set<string>) returns (stale: set<string>)
      modifies this
      ensures entries == old(entries) - other.Keys
      ensures stale == udpStaleClusterIP
        + set k <- other | k in old(entries) && old(entries)[k].protocol == UDP :: old(entries)[k].clusterIP
    {
      stale := udpStaleClusterIP;
      var rest := other.Keys;
      while rest != {}
        invariant rest <= other.Keys
        invariant entries == old(entries) - (other.Keys - rest)
        invariant stale == udpStaleClusterIP
          + set k <- other | k !in rest && k in old(entries) && old(entries)[k].protocol == UDP ::
              old(entries)[k].clusterIP
        decreases rest
      {
        var k :| k in rest;
        if k in entries {
          if entries[k].protocol == UDP {
            stale := stale + {entries[k].clusterIP};
          }
          entries := entries - {k};
        }
        rest := rest - {k};
      }
    }

    method ApplyOne(c: Change<ServicePort>, udpStaleClusterIP: set<string>) returns (stale: set<string>)
      modifies this
      ensures entries == ApplyChange(old(entries), c)
      ensures stale == udpStaleClusterIP + Vacated(old(entries), c)
    {
      var _ := Merge(c.current);
      var gone := Filter(c.previous, c.current);
      ghost var merged := entries;
      stale := Unmerge(gone, udpStaleClusterIP);
      assert forall k <- gone :: k in merged <==> k in old(entries);
      assert entries == ApplyChange(old(entries), c);
    }

    /** Each change meets the table as the changes before it left it. */
    method Apply(changes: ServiceChangeTracker, udpStaleClusterIP: set<string>)
      returns (stale: set<string>, ghost order: seq<NamespacedName>)
      modifies this, changes`items
      ensures changes.items == map[]
      ensures IsOrder(order, old(changes.items).Keys)
      ensures entries == ApplyInOrder(old(entries), old(changes.items), order)
      ensures stale == udpStaleClusterIP + VacatedInOrder(old(entries), old(changes.items), order)
    {
      stale, order := udpStaleClusterIP, [];
      var rest := changes.items.Keys;
      while rest != {}
        invariant changes.items == old(changes.items) && rest <= changes.items.Keys
        invariant IsOrder(order, changes.items.Keys - rest)
        invariant entries == ApplyInOrder(old(entries), changes.items, order)
        invariant stale == udpStaleClusterIP + VacatedInOrder(old(entries), changes.items, order)
        decreases rest
      {
        var n :| n in rest;
        stale := ApplyOne(changes.items[n], stale);
        assert (order + [n])[..|order|] == order;
        order := order + [n];
        rest := rest - {n};
      }
      changes.items := map[];
    }
  }

  ghost function VacatedInOrder(table: Table<ServicePort>, items: Items<ServicePort>, order: seq<NamespacedName>)
    : set<string>
    requires forall n <- order :: n in items
    decreases |order|
  {
    if order == [] then {}
    else
      var before := order[..|order| - 1];
      VacatedInOrder(table, items, before)
      + Vacated(ApplyInOrder(table, items, before), items[order[|order| - 1]])
  }

  // ---------- What a sync reports, in terms of the whole table ----------

  /** The cluster IPs of the UDP keys of one table that another lacks. */
  ghost function GoneUdpIPs(before: Table<ServicePort>, after: Table<ServicePort>): set<string> {
    set k <- before | k !in after && before[k].protocol == UDP :: before[k].clusterIP
  }

  /** One change to the keys of one object, of which the table still held the previous contribution. */
  ghost predicate OneObjectChanges(
    start: Table<ServicePort>, mid: Table<ServicePort>, end: Table<ServicePort>,
    n: NamespacedName, c: Change<ServicePort>)
  {
    forall k: ServicePortName ::
      && (k.nn != n ==> (k in mid <==> k in end) && k !in c.previous.Entries())
      && (k.nn == n ==> (k in mid <==> k in start) && (k in mid ==> mid[k] == start[k]))
      && (k.nn == n ==> (k in end <==> k in c.current.Entries()) && (k in start <==> k in c.previous.Entries()))
  }

  lemma VacatedByOne(
    start: Table<ServicePort>, mid: Table<ServicePort>, end: Table<ServicePort>,
    n: NamespacedName, c: Change<ServicePort>)
    requires OneObjectChanges(start, mid, end, n, c)
    ensures GoneUdpIPs(start, end) == GoneUdpIPs(start, mid) + Vacated(mid, c)
  {
    forall ip | ip in GoneUdpIPs(start, end) ensures ip in GoneUdpIPs(start, mid) + Vacated(mid, c) {
      var k :| k in start && k !in end && start[k].protocol == UDP && start[k].clusterIP == ip;
      if k.nn == n { assert k in c.previous.Entries(); }
    }
    forall ip | ip in Vacated(mid, c) ensures ip in GoneUdpIPs(start, end) {
      var k :| k in c.previous.Entries() && k !in c.current.Entries() && k in mid
               && mid[k].protocol == UDP && mid[k].clusterIP == ip;
      assert k.nn == n && k in start;
    }
  }

  lemma VisitChangesOneObject(s: State<ServicePort>, before: seq<NamespacedName>, n: NamespacedName)
    requires InSync(s) && n in s.items && n !in before
    requires forall m <- before :: m in s.items
    requires forall i, j :: 0 <= i < j < |before| ==> before[i] != before[j]
    ensures var mid := ApplyInOrder(s.table, s.items, before);
            OneObjectChanges(s.table, mid, ApplyChange(mid, s.items[n]), n, s.items[n])
  {
    ApplyInAnyOrder(s, before);
    var views := Visited(s.latest, s.applied, set m <- before);
    assert Look(views, n) == Look(s.applied, n);
    assert s.items[n] == Change(Look(s.applied, n), Look(s.latest, n));
    assert Owned(n, Look(s.latest, n)) && Owned(n, Look(s.applied, n));
  }

  lemma {:induction false} VacatedSoFar(s: State<ServicePort>, order: seq<NamespacedName>)
    requires InSync(s)
    requires forall n <- order :: n in s.items
    requires forall i, j :: 0 <= i < j < |order| ==> order[i] != order[j]
    ensures VacatedInOrder(s.table, s.items, order) == GoneUdpIPs(s.table, ApplyInOrder(s.table, s.items, order))
    decreases |order|
  {
    if order != [] {
      var before, n := order[..|order| - 1], order[|order| - 1];
      VacatedSoFar(s, before);
      VisitChangesOneObject(s, before, n);
      var mid := ApplyInOrder(s.table, s.items, before);
      VacatedByOne(s.table, mid, ApplyChange(mid, s.items[n]), n, s.items[n]);
    }
  }

  /** A sync collects exactly the cluster IPs of the UDP ports that the whole table loses, in any order of visits. */
  lemma SyncReportsGoneUdpIPs(s: State<ServicePort>, order: seq<NamespacedName>, after: Table<ServicePort>)
    requires InSync(s) && IsOrder(order, s.items.Keys) && IsUnion(after, s.latest)
    ensures VacatedInOrder(s.table, s.items, order) == GoneUdpIPs(s.table, after)
  {
    VacatedSoFar(s, order);
    SyncAppliesLatest(s, order);
    UnionIsUnique(ApplyInOrder(s.table, s.items, order), after, s.latest);
  }

  /** Cluster IPs in use, and those that had UDP ports and are no longer assigned to any service port. */
  ghost function IPs(table: Table<ServicePort>): set<string> { set k <- table :: table[k].clusterIP }

  ghost function UnassignedUdpIPs(before: Table<ServicePort>, after: Table<ServicePort>): set<string> {
    set k <- before | before[k].protocol == UDP && before[k].clusterIP !in IPs(after) :: before[k].clusterIP
  }

  // ---------- What it reports, in terms of the services ----------

  function Views(env: Env, services: map<NamespacedName, Service>): map<NamespacedName, ServiceMap> {
    map n <- services :: View(env, Some(services[n]))
  }

  /** The service has a cluster IP that the proxier uses. */
  predicate Proxied(env: Env, o: Option<Service>) { o.Some? && !Skipped(env, o.value) }

  function UdpNames(env: Env, o: Option<Service>): set<string> {
    if Proxied(env, o) then set p <- o.value.ports | p.protocol == UDP :: p.name else {}
  }

  /** A UDP port has gone from a service that keeps its IP and still has ports. */
  predicate DropsUdpKeepsIP(env: Env, o: Option<Service>, o': Option<Service>) {
    && Proxied(env, o) && Proxied(env, o') && o'.value.clusterIP == o.value.clusterIP && o'.value.ports != []
    && !(UdpNames(env, o) <= UdpNames(env, o'))
  }

  /** A service with UDP ports has kept them all and got another IP. */
  predicate KeepsUdpMovesIP(env: Env, o: Option<Service>, o': Option<Service>) {
    && Proxied(env, o) && Proxied(env, o') && o'.value.clusterIP != o.value.clusterIP
    && UdpNames(env, o) != {} && UdpNames(env, o) <= UdpNames(env, o')
  }

  ghost predicate Owner(env: Env, services: map<NamespacedName, Service>, n: NamespacedName, ip: string) {
    Proxied(env, Find(services, n)) && services[n].clusterIP == ip
  }

  /** Each cluster IP belongs to one service, and none passes from one service to another between the two syncs. */
  ghost predicate OwnIPs(env: Env, olds: map<NamespacedName, Service>, news: map<NamespacedName, Service>) {
    forall m: NamespacedName, n: NamespacedName, ip: string ::
      (Owner(env, olds, m, ip) || Owner(env, news, m, ip)) && (Owner(env, olds, n, ip) || Owner(env, news, n, ip)) ==>
        m == n
  }

  ghost predicate Named(services: map<NamespacedName, Service>) { forall n <- services :: services[n].nn == n }

  /** The table of these services, entry by entry. */
  lemma EntryOf(env: Env, services: map<NamespacedName, Service>, table: Table<ServicePort>, k: ServicePortName)
    requires Named(services) && IsUnion(table, Views(env, services))
    ensures k in table <==>
      && Proxied(env, Find(services, k.nn))
      && exists p <- services[k.nn].ports :: p.name == k.port && p.protocol == k.protocol
    ensures k in table ==> Owner(env, services, k.nn, table[k].clusterIP) && table[k].protocol == k.protocol
  {
    if Proxied(env, Find(services, k.nn)) {
      var o := services[k.nn];
      PortEntriesExact(o, o.ports, k);
      assert Look(Views(env, services), k.nn) == Made(PortEntries(o, o.ports));
      LastPortExists(o, o.ports, k);
    }
  }

  lemma {:induction false} LastPortExists(o: Service, ports: seq<Port>, k: ServicePortName)
    ensures (exists i: nat :: IsLastPort(o, ports, k, i)) <==> exists p <- ports :: Key(o.nn, p) == k
  {
    if ports != [] {
      var n := |ports| - 1;
      assert ports == ports[..n] + [ports[n]];
      LastPortExists(o, ports[..n], k);
      if Key(o.nn, ports[n]) == k {
        assert IsLastPort(o, ports, k, n);
      } else {
        forall i: nat ensures IsLastPort(o, ports, k, i) <==> IsLastPort(o, ports[..n], k, i) {}
      }
    }
  }

  lemma UdpKeyOf(
    env: Env, services: map<NamespacedName, Service>, table: Table<ServicePort>, n: NamespacedName, name: string)
    requires Named(services) && IsUnion(table, Views(env, services))
    ensures ServicePortName(n, name, UDP) in table <==> name in UdpNames(env, Find(services, n))
  {
    EntryOf(env, services, table, ServicePortName(n, name, UDP));
    if name in UdpNames(env, Find(services, n)) {
      var p :| p in services[n].ports && p.protocol == UDP && p.name == name;
    }
  }

  /** Two syncs: the services known at each and the tables. */
  ghost predicate Synced(
    env: Env, olds: map<NamespacedName, Service>, news: map<NamespacedName, Service>,
    before: Table<ServicePort>, after: Table<ServicePort>)
  {
    Named(olds) && Named(news) && IsUnion(before, Views(env, olds)) && IsUnion(after, Views(env, news))
  }

  /** The UDP keys that hold a service's IP are its own. */
  lemma OwnUdpKey(
    env: Env, olds: map<NamespacedName, Service>, news: map<NamespacedName, Service>,
    before: Table<ServicePort>, after: Table<ServicePort>, n: NamespacedName, k: ServicePortName)
    requires Synced(env, olds, news, before, after) && OwnIPs(env, olds, news) && Proxied(env, Find(olds, n))
    requires k in before && before[k].protocol == UDP && before[k].clusterIP == olds[n].clusterIP
    ensures k == ServicePortName(n, k.port, UDP) && k.port in UdpNames(env, Find(olds, n))
    ensures k in after <==> k.port in UdpNames(env, Find(news, n))
  {
    EntryOf(env, olds, before, k);
    assert Owner(env, olds, n, olds[n].clusterIP);
    UdpKeyOf(env, olds, before, n, k.port);
    UdpKeyOf(env, news, after, n, k.port);
  }

  lemma UdpKeyHasIP(
    env: Env, olds: map<NamespacedName, Service>, before: Table<ServicePort>, n: NamespacedName, name: string)
    requires Named(olds) && IsUnion(before, Views(env, olds)) && name in UdpNames(env, Find(olds, n))
    ensures var k := ServicePortName(n, name, UDP);
      k in before && before[k].protocol == UDP && before[k].clusterIP == olds[n].clusterIP
  {
    UdpKeyOf(env, olds, before, n, name);
    EntryOf(env, olds, before, ServicePortName(n, name, UDP));
  }

  /** A service's IP is reported exactly if one of its UDP ports has gone. */
  lemma ReportedIff(
    env: Env, olds: map<NamespacedName, Service>, news: map<NamespacedName, Service>,
    before: Table<ServicePort>, after: Table<ServicePort>, n: NamespacedName)
    requires Synced(env, olds, news, before, after) && OwnIPs(env, olds, news) && Proxied(env, Find(olds, n))
    ensures olds[n].clusterIP in GoneUdpIPs(before, after) <==>
      !(UdpNames(env, Find(olds, n)) <= UdpNames(env, Find(news, n)))
  {
    if olds[n].clusterIP in GoneUdpIPs(before, after) {
      var k :| k in before && k !in after && before[k].protocol == UDP && before[k].clusterIP == olds[n].clusterIP;
      OwnUdpKey(env, olds, news, before, after, n, k);
    }
    if name :| name in UdpNames(env, Find(olds, n)) && name !in UdpNames(env, Find(news, n)) {
      UdpKeyHasIP(env, olds, before, n, name);
      OwnUdpKey(env, olds, news, before, after, n, ServicePortName(n, name, UDP));
    }
  }

  /** A service's IP is still assigned exactly if the service has kept it for some port. */
  lemma AssignedIff(
    env: Env, olds: map<NamespacedName, Service>, news: map<NamespacedName, Service>,
    before: Table<ServicePort>, after: Table<ServicePort>, n: NamespacedName)
    requires Synced(env, olds, news, before, after) && OwnIPs(env, olds, news) && Proxied(env, Find(olds, n))
    ensures olds[n].clusterIP in IPs(after) <==> Owner(env, news, n, olds[n].clusterIP) && news[n].ports != []
  {
    var ip := olds[n].clusterIP;
    assert Owner(env, olds, n, ip);
    if ip in IPs(after) {
      var j :| j in after && after[j].clusterIP == ip;
      EntryOf(env, news, after, j);
    }
    if Owner(env, news, n, ip) && news[n].ports != [] {
      var p := news[n].ports[0];
      assert p in news[n].ports;
      EntryOf(env, news, after, Key(n, p));
    }
  }

  /** It had UDP ports and is no longer assigned exactly if the service has not kept it for some port. */
  lemma UnassignedIff(
    env: Env, olds: map<NamespacedName, Service>, news: map<NamespacedName, Service>,
    before: Table<ServicePort>, after: Table<ServicePort>, n: NamespacedName)
    requires Synced(env, olds, news, before, after) && OwnIPs(env, olds, news) && Proxied(env, Find(olds, n))
    ensures olds[n].clusterIP in UnassignedUdpIPs(before, after) <==>
      UdpNames(env, Find(olds, n)) != {} && !(Owner(env, news, n, olds[n].clusterIP) && news[n].ports != [])
  {
    AssignedIff(env, olds, news, before, after, n);
    if olds[n].clusterIP in UnassignedUdpIPs(before, after) {
      var k :| k in before && before[k].protocol == UDP && before[k].clusterIP == olds[n].clusterIP;
      OwnUdpKey(env, olds, news, before, after, n, k);
    }
    if name :| name in UdpNames(env, Find(olds, n)) {
      UdpKeyHasIP(env, olds, before, n, name);
    }
  }

  lemma ReportedIPHasOwner(env: Env, olds: map<NamespacedName, Service>, before: Table<ServicePort>, ip: string)
    requires Named(olds) && IsUnion(before, Views(env, olds)) && exists k <- before :: before[k].clusterIP == ip
    ensures exists n <- olds :: Owner(env, olds, n, ip)
  {
    var k :| k in before && before[k].clusterIP == ip;
    EntryOf(env, olds, before, k);
  }

  /** For this service the report and the comment agree. */
  ghost predicate Agrees(
    env: Env, olds: map<NamespacedName, Service>, news: map<NamespacedName, Service>, n: NamespacedName)
  {
    !DropsUdpKeepsIP(env, Find(olds, n), Find(news, n)) && !KeepsUdpMovesIP(env, Find(olds, n), Find(news, n))
  }

  lemma AgreesIff(
    env: Env, olds: map<NamespacedName, Service>, news: map<NamespacedName, Service>,
    before: Table<ServicePort>, after: Table<ServicePort>, n: NamespacedName)
    requires Synced(env, olds, news, before, after) && OwnIPs(env, olds, news) && Proxied(env, Find(olds, n))
    ensures (olds[n].clusterIP in GoneUdpIPs(before, after) <==> olds[n].clusterIP in UnassignedUdpIPs(before, after))
       <==> Agrees(env, olds, news, n)
  {
    ReportedIff(env, olds, news, before, after, n);
    UnassignedIff(env, olds, news, before, after, n);
    if Owner(env, news, n, olds[n].clusterIP) && news[n].ports == [] {
      assert UdpNames(env, Find(news, n)) == {};
    }
  }

  /**
    The comment on UDPStaleClusterIP calls the result the IPs that had UDP ports and are no longer
    assigned to a service.  While every IP has one owner it is that exactly if no service drops a UDP
    port and keeps its IP for others, and none keeps its UDP ports and moves to another IP.
   */
  lemma StaleIPsAreUnassignedIff(
    env: Env, olds: map<NamespacedName, Service>, news: map<NamespacedName, Service>,
    before: Table<ServicePort>, after: Table<ServicePort>)
    requires Synced(env, olds, news, before, after) && OwnIPs(env, olds, news)
    ensures GoneUdpIPs(before, after) == UnassignedUdpIPs(before, after) <==>
      forall n <- olds ::
        && !DropsUdpKeepsIP(env, Find(olds, n), Find(news, n))
        && !KeepsUdpMovesIP(env, Find(olds, n), Find(news, n))
  {
    var gone, unassigned := GoneUdpIPs(before, after), UnassignedUdpIPs(before, after);
    forall n | n in olds
      ensures Agrees(env, olds, news, n) || Proxied(env, Find(olds, n))
      ensures Proxied(env, Find(olds, n)) ==>
        ((olds[n].clusterIP in gone <==> olds[n].clusterIP in unassigned) <==> Agrees(env, olds, news, n))
    {
      if Proxied(env, Find(olds, n)) { AgreesIff(env, olds, news, before, after, n); }
    }
    if forall n <- olds :: Agrees(env, olds, news, n) {
      forall ip ensures ip in gone <==> ip in unassigned {
        if ip in gone || ip in unassigned {
          ReportedIPHasOwner(env, olds, before, ip);
          var n :| n in olds && Owner(env, olds, n, ip);
          assert Agrees(env, olds, news, n);
        }
      }
    }
  }

  /** So a sync's report is what the comment says under the same condition, in any order of visits. */
  lemma SyncReportIsUnassignedIff(
    env: Env, s: State<ServicePort>, order: seq<NamespacedName>, after: Table<ServicePort>,
    olds: map<NamespacedName, Service>, news: map<NamespacedName, Service>)
    requires InSync(s) && IsOrder(order, s.items.Keys) && IsUnion(after, s.latest)
    requires Named(olds) && Named(news) && OwnIPs(env, olds, news)
    requires forall n: NamespacedName ::
      Look(s.applied, n) == Look(Views(env, olds), n) && Look(s.latest, n) == Look(Views(env, news), n)
    ensures VacatedInOrder(s.table, s.items, order) == UnassignedUdpIPs(s.table, after) <==>
      forall n <- olds ::
        && !DropsUdpKeepsIP(env, Find(olds, n), Find(news, n))
        && !KeepsUdpMovesIP(env, Find(olds, n), Find(news, n))
  {
    SyncReportsGoneUdpIPs(s, order, after);
    StaleIPsAreUnassignedIff(env, olds, news, s.table, after);
  }

  /** A UDP port dropped from a service that keeps a TCP port: its IP is reported although it is still assigned. */
  lemma ReportedIPMayStillBeAssigned(nn: NamespacedName, ip: string)
    ensures var dns := Port("dns", UDP, 53, 0);
            var dnsTcp := Port("dns-tcp", TCP, 53, 0);
            var before := PortEntries(Service(nn, ip, ClusterIP, [dnsTcp, dns]), [dnsTcp, dns]);
            var after := PortEntries(Service(nn, ip, ClusterIP, [dnsTcp]), [dnsTcp]);
            ip in GoneUdpIPs(before, after) && ip in IPs(after)
  {
    var dns, dnsTcp := Port("dns", UDP, 53, 0), Port("dns-tcp", TCP, 53, 0);
    var before := PortEntries(Service(nn, ip, ClusterIP, [dnsTcp, dns]), [dnsTcp, dns]);
    var after := PortEntries(Service(nn, ip, ClusterIP, [dnsTcp]), [dnsTcp]);
    PortEntriesExact(Service(nn, ip, ClusterIP, [dnsTcp]), [dnsTcp], Key(nn, dns));
    assert [dnsTcp, dns][..1] == [dnsTcp];
    assert Key(nn, dns) in before && before[Key(nn, dns)] == ServicePort(ip, 53, UDP, 0);
    assert Key(nn, dnsTcp) in after;
  }

  lemma OnePort(o: Service, port: Port)
    ensures PortEntries(o, [port]) == map[Key(o.nn, port) := Info(o, port)]
  {
    assert [port][..0] == [];
    assert PortEntries(o, []) == map[];
  }

  /** A service that keeps its UDP port and moves to another IP: the IP it leaves is not reported. */
  lemma VacatedIPMayGoUnreported(nn: NamespacedName, ip: string, ip': string)
    requires ip != ip'
    ensures var dns := Port("dns", UDP, 53, 0);
            var before := PortEntries(Service(nn, ip, ClusterIP, [dns]), [dns]);
            var after := PortEntries(Service(nn, ip', ClusterIP, [dns]), [dns]);
            ip in UnassignedUdpIPs(before, after) && ip !in GoneUdpIPs(before, after)
  {
    var dns := Port("dns", UDP, 53, 0);
    assert [dns][..0] == [];
    var before := PortEntries(Service(nn, ip, ClusterIP, [dns]), [dns]);
    var after := PortEntries(Service(nn, ip', ClusterIP, [dns]), [dns]);
    OnePort(Service(nn, ip, ClusterIP, [dns]), dns);
    OnePort(Service(nn, ip', ClusterIP, [dns]), dns);
    assert Key(nn, dns) in before;
  }

  // ---------- Runs of object events ----------

  /** After a sync, the table holds under each key what the last known service of that name translates to. */
  lemma ProxierFollowsServices(env: Env, events: seq<ObjectEvent<Service>>, k: ServicePortName)
    requires Informed(Name, events) && SyncsVisitAll(Name, (o: Service) => View(env, Some(o)), events)
    requires events != [] && events[|events| - 1].Sync?
    ensures AllowedRun(Translate(Name, (o: Service) => View(env, Some(o)), events))
    ensures var table := Run(Translate(Name, (o: Service) => View(env, Some(o)), events)).table;
            var entries := View(env, Find(Known(Name, events), k.nn)).Entries();
            (k in table <==> k in entries) && (k in table ==> table[k] == entries[k])
  {
    var view := (o: Service) => View(env, Some(o));
    forall o: Service ensures Owned(Name(o), view(o)) {
      ViewIsOwned(env, o);
    }
    TableFollowsObjects(Name, view, events, k);
  }

  function Name(o: Service): NamespacedName { o.nn }
}
