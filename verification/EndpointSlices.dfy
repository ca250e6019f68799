/**
  The EndpointSlice cache: each service's slices, those applied and those pending, and the endpoints
  computed from them by ranging over a Go map of slices in an arbitrary order.
 */
module EndpointSlices {
  import opened Wrappers
  import opened ChangeTracking
  import opened EndpointChanges
  import Sorting

  datatype SlicePort = SlicePort(name: Option<string>, port: Option<int>, protocol: Protocol)
  datatype SliceEndpoint = SliceEndpoint(addresses: seq<string>, ready: Option<bool>, topology: map<string, string>)
  datatype EndpointSlice = EndpointSlice(
    namespace: string, name: string, serviceLabel: Option<string>, ports: seq<SlicePort>, endpoints: seq<SliceEndpoint>)

  /** What the cache keeps of a slice. */
  datatype EndpointInfo = EndpointInfo(addresses: seq<string>, topology: map<string, string>)
  datatype SliceInfo = SliceInfo(ports: seq<SlicePort>, endpoints: seq<EndpointInfo>, remove: bool)

  type Infos = map<string, SliceInfo>
  datatype Tracker = Tracker(applied: Infos, pending: Infos)

  const LABEL_HOSTNAME := "kubernetes.io/hostname"

  // ---------- Simplifying a slice ----------

  function PortNumber(p: SlicePort): int { if p.port.Some? then p.port.value else 0 }

  function Joined(addresses: seq<string>): string {
    if addresses == [] then ""
    else if |addresses| == 1 then addresses[0]
    else addresses[0] + "," + Joined(addresses[1..])
  }

  function JoinedAddresses(e: EndpointInfo): string { Joined(e.addresses) }

  predicate Ready(e: SliceEndpoint) { e.ready.None? || e.ready.value }

  function ReadyInfos(endpoints: seq<SliceEndpoint>): seq<EndpointInfo> {
    if endpoints == [] then []
    else
      var last := endpoints[|endpoints| - 1];
      ReadyInfos(endpoints[..|endpoints| - 1])
      + if Ready(last) then [EndpointInfo(last.addresses, last.topology)] else []
  }

  /** Ports sorted by number; the ready endpoints, sorted by address, unless the slice is being removed. */
  ghost predicate IsInfo(slice: EndpointSlice, remove: bool, info: SliceInfo) {
    && info.remove == remove
    && multiset(info.ports) == multiset(slice.ports)
    && Sorting.SortedBy(info.ports, Sorting.ByInt(PortNumber))
    && multiset(info.endpoints) == multiset(if remove then [] else ReadyInfos(slice.endpoints))
    && Sorting.SortedBy(info.endpoints, Sorting.ByString(JoinedAddresses))
  }

  /** Comparing two ports dereferences their numbers, so a slice with several ports must number them all. */
  predicate PortsComparable(slice: EndpointSlice) {
    |slice.ports| <= 1 || forall p <- slice.ports :: p.port.Some?
  }

  method NewEndpointSliceInfo(slice: EndpointSlice, remove: bool) returns (info: SliceInfo)
    requires PortsComparable(slice)
    ensures IsInfo(slice, remove, info)
  {
    Sorting.ByIntIsOrder(PortNumber);
    var ports := Sorting.Sort(slice.ports, Sorting.ByInt(PortNumber));
    var endpoints: seq<EndpointInfo> := [];
    if !remove {
      for i := 0 to |slice.endpoints|
        invariant endpoints == ReadyInfos(slice.endpoints[..i])
      {
        if Ready(slice.endpoints[i]) {
          endpoints := endpoints + [EndpointInfo(slice.endpoints[i].addresses, slice.endpoints[i].topology)];
        }
        assert slice.endpoints[..i + 1][..i] == slice.endpoints[..i];
      }
      assert slice.endpoints[..|slice.endpoints|] == slice.endpoints;
      Sorting.ByStringIsOrder(JoinedAddresses);
      endpoints := Sorting.Sort(endpoints, Sorting.ByString(JoinedAddresses));
    }
    info := SliceInfo(ports, endpoints, remove);
  }

  lemma {:induction false} ReadyInfosMember(endpoints: seq<SliceEndpoint>, e: EndpointInfo)
    ensures e in ReadyInfos(endpoints) <==>
      exists s <- endpoints :: s.ready != Some(false) && e == EndpointInfo(s.addresses, s.topology)
  {
    if endpoints != [] {
      var n := |endpoints| - 1;
      assert endpoints == endpoints[..n] + [endpoints[n]];
      ReadyInfosMember(endpoints[..n], e);
    }
  }

  /** A slice being added keeps the addresses and topology of exactly its endpoints not marked as unready. */
  lemma InfoEndpoints(slice: EndpointSlice, remove: bool, info: SliceInfo, e: EndpointInfo)
    requires IsInfo(slice, remove, info)
    ensures e in info.endpoints <==>
      !remove && exists s <- slice.endpoints :: s.ready != Some(false) && e == EndpointInfo(s.addresses, s.topology)
  {
    ReadyInfosMember(slice.endpoints, e);
    assert e in info.endpoints <==> e in multiset(info.endpoints);
  }

  // ---------- Applied, pending and the plain replay ----------

  const EMPTY_TRACKER := Tracker(map[], map[])

  /** A slice that the cache has not seen, or one that differs from what it would become. */
  predicate InfoChanged(t: Tracker, name: string, info: SliceInfo) {
    if name in t.pending then info != t.pending[name]
    else if name in t.applied then info != t.applied[name]
    else !info.remove
  }

  function UpdateTracker(t: Tracker, name: string, info: SliceInfo): Tracker {
    if InfoChanged(t, name, info) then t.(pending := t.pending[name := info]) else t
  }

  /** What the tracker will hold once its pending slices are applied. */
  function Overlay(t: Tracker): Infos {
    map name <- t.applied.Keys + t.pending.Keys | !(name in t.pending && t.pending[name].remove) ::
      if name in t.pending then t.pending[name] else t.applied[name]
  }

  /** The plain meaning of one slice event. */
  function Replay(infos: Infos, name: string, info: SliceInfo): Infos {
    if info.remove then infos - {name} else infos[name := info]
  }

  ghost predicate NoRemovals(infos: Infos) { forall name <- infos :: !infos[name].remove }

  /** No event is lost, whether or not it is judged to be a change; and a judged change is one, except for removals. */
  lemma UpdateIsReplay(t: Tracker, name: string, info: SliceInfo)
    requires NoRemovals(t.applied)
    ensures Overlay(UpdateTracker(t, name, info)) == Replay(Overlay(t), name, info)
    ensures NoRemovals(Overlay(t))
    ensures !InfoChanged(t, name, info) ==> Replay(Overlay(t), name, info) == Overlay(t)
    ensures InfoChanged(t, name, info) && !info.remove ==> Replay(Overlay(t), name, info) != Overlay(t)
  {
    var t' := UpdateTracker(t, name, info);
    assert Overlay(t').Keys == Replay(Overlay(t), name, info).Keys;
    if !InfoChanged(t, name, info) {
      assert Replay(Overlay(t), name, info).Keys == Overlay(t).Keys;
    }
    if InfoChanged(t, name, info) && !info.remove {
      assert name in Overlay(t) ==> Overlay(t)[name] != info;
    }
  }

  // ---------- Endpoints by service port and IP ----------

  datatype Contribution = Contribution(key: ServicePortName, ip: string, endpoint: Endpoint)

  predicate UsablePort(p: SlicePort) { p.name.Some? && p.port.Some? && p.port.value != 0 }

  predicate UsableEndpoint(env: Env, e: EndpointInfo) {
    e.addresses != [] && !env.WrongFamily(e.addresses[0])
  }

  function IsLocal(env: Env, e: EndpointInfo): bool {
    env.hostname != "" && LABEL_HOSTNAME in e.topology && e.topology[LABEL_HOSTNAME] == env.hostname
  }

  function PortKey(svc: NamespacedName, p: SlicePort): ServicePortName
    requires UsablePort(p)
  {
    ServicePortName(svc, p.name.value, p.protocol)
  }

  function InfoEndpoint(env: Env, port: int, e: EndpointInfo): Endpoint
    requires UsableEndpoint(env, e)
  {
    Endpoint(env.joinHostPort(e.addresses[0], port), IsLocal(env, e), e.topology)
  }

  function Contribute(env: Env, key: ServicePortName, port: int, e: EndpointInfo): Contribution
    requires UsableEndpoint(env, e)
  {
    var ep := InfoEndpoint(env, port, e);
    Contribution(key, env.ipPart(ep.address), ep)
  }

  /** What one port, one slice and a list of slices contribute, in the order in which the loops meet it. */
  function FromPort(env: Env, key: ServicePortName, port: int, endpoints: seq<EndpointInfo>): seq<Contribution> {
    if endpoints == [] then []
    else
      var e := endpoints[|endpoints| - 1];
      FromPort(env, key, port, endpoints[..|endpoints| - 1])
      + if UsableEndpoint(env, e) then [Contribute(env, key, port, e)] else []
  }

  function FromPorts(env: Env, svc: NamespacedName, ports: seq<SlicePort>, endpoints: seq<EndpointInfo>)
    : seq<Contribution>
  {
    if ports == [] then []
    else
      var p := ports[|ports| - 1];
      FromPorts(env, svc, ports[..|ports| - 1], endpoints)
      + if UsablePort(p) then FromPort(env, PortKey(svc, p), p.port.value, endpoints) else []
  }

  function FromSlice(env: Env, svc: NamespacedName, info: SliceInfo): seq<Contribution> {
    FromPorts(env, svc, info.ports, info.endpoints)
  }

  function FromSlices(env: Env, svc: NamespacedName, infos: Infos, order: seq<string>): seq<Contribution>
    requires forall name <- order :: name in infos
    decreases |order|
  {
    if order == [] then []
    else FromSlices(env, svc, infos, order[..|order| - 1]) + FromSlice(env, svc, infos[order[|order| - 1]])
  }

  /** A later endpoint replaces an earlier one with the same key and IP only if it is local. */
  function Prefer(old': Option<Endpoint>, new': Option<Endpoint>): Option<Endpoint> {
    if new'.None? then old'
    else if old'.None? || new'.value.isLocal then new'
    else old'
  }

  /** The endpoint kept for a key and IP. */
  function Pick(cs: seq<Contribution>, key: ServicePortName, ip: string): Option<Endpoint> {
    if cs == [] then None
    else
      var c := cs[|cs| - 1];
      var before := Pick(cs[..|cs| - 1], key, ip);
      if c.key == key && c.ip == ip then Prefer(before, Some(c.endpoint)) else before
  }

  lemma {:induction false} PickConcat(a: seq<Contribution>, b: seq<Contribution>, key: ServicePortName, ip: string)
    ensures Pick(a + b, key, ip) == Prefer(Pick(a, key, ip), Pick(b, key, ip))
  {
    if b == [] {
      assert a + b == a;
    } else {
      assert (a + b)[..|a + b| - 1] == a + b[..|b| - 1];
      PickConcat(a, b[..|b| - 1], key, ip);
    }
  }

  /** An endpoint is kept exactly when something contributes it, and it is local exactly when some contributor is. */
  lemma {:induction false} PickExact(cs: seq<Contribution>, key: ServicePortName, ip: string)
    ensures Pick(cs, key, ip).None? <==> forall c <- cs :: !(c.key == key && c.ip == ip)
    ensures Pick(cs, key, ip).Some? ==> Contribution(key, ip, Pick(cs, key, ip).value) in cs
    ensures Pick(cs, key, ip).Some? ==>
      (Pick(cs, key, ip).value.isLocal <==> exists c <- cs :: c.key == key && c.ip == ip && c.endpoint.isLocal)
  {
    if cs != [] {
      var n := |cs| - 1;
      PickExact(cs[..n], key, ip);
      assert cs == cs[..n] + [cs[n]];
    }
  }

  ghost predicate IsFor(c: Contribution, key: ServicePortName, ip: string) { c.key == key && c.ip == ip }

  /** The last local contribution for the IP, or its first one when none is local. */
  ghost predicate IsLastLocalOrFirst(cs: seq<Contribution>, key: ServicePortName, ip: string, i: nat)
    requires i < |cs|
  {
    && IsFor(cs[i], key, ip)
    && (forall j :: i < j < |cs| && IsFor(cs[j], key, ip) ==> !cs[j].endpoint.isLocal)
    && (cs[i].endpoint.isLocal || forall j :: 0 <= j < i ==> !IsFor(cs[j], key, ip))
  }

  lemma {:induction false} PickIsLastLocalOrFirst(cs: seq<Contribution>, key: ServicePortName, ip: string, i: nat)
    requires i < |cs| && IsLastLocalOrFirst(cs, key, ip, i)
    ensures Pick(cs, key, ip) == Some(cs[i].endpoint)
  {
    var n := |cs| - 1;
    PickExact(cs[..n], key, ip);
    if i < n {
      PickIsLastLocalOrFirst(cs[..n], key, ip, i);
    }
  }

  lemma {:induction false} FromPortKeyed(env: Env, key: ServicePortName, port: int, endpoints: seq<EndpointInfo>)
    ensures forall c <- FromPort(env, key, port, endpoints) :: c.key == key && c.ip == env.ipPart(c.endpoint.address)
  {
    if endpoints != [] { FromPortKeyed(env, key, port, endpoints[..|endpoints| - 1]); }
  }

  lemma {:induction false} FromPortsKeyed(
    env: Env, svc: NamespacedName, ports: seq<SlicePort>, endpoints: seq<EndpointInfo>)
    ensures forall c <- FromPorts(env, svc, ports, endpoints) ::
      c.key.nn == svc && c.ip == env.ipPart(c.endpoint.address)
  {
    if ports != [] {
      FromPortsKeyed(env, svc, ports[..|ports| - 1], endpoints);
      var p := ports[|ports| - 1];
      if UsablePort(p) { FromPortKeyed(env, PortKey(svc, p), p.port.value, endpoints); }
    }
  }

  /** Contributions carry the service's name, and their IP is a function of their address. */
  lemma {:induction false} FromSlicesKeyed(env: Env, svc: NamespacedName, infos: Infos, order: seq<string>)
    requires forall name <- order :: name in infos
    ensures forall c <- FromSlices(env, svc, infos, order) :: c.key.nn == svc && c.ip == env.ipPart(c.endpoint.address)
    decreases |order|
  {
    if order != [] {
      FromSlicesKeyed(env, svc, infos, order[..|order| - 1]);
      var info := infos[order[|order| - 1]];
      FromPortsKeyed(env, svc, info.ports, info.endpoints);
    }
  }

  lemma {:induction false} FromSlicesMember(
    env: Env, svc: NamespacedName, infos: Infos, order: seq<string>, c: Contribution)
    requires forall name <- order :: name in infos
    ensures c in FromSlices(env, svc, infos, order) <==> exists name <- order :: c in FromSlice(env, svc, infos[name])
    decreases |order|
  {
    if order != [] {
      var n := |order| - 1;
      FromSlicesMember(env, svc, infos, order[..n], c);
      assert order == order[..n] + [order[n]];
    }
  }

  /**
    A port with a name and a number and an endpoint with an address of the right family give this
    contribution; it is local if the endpoint's hostname label is this node's.
   */
  ghost predicate GivenBy(env: Env, svc: NamespacedName, p: SlicePort, e: EndpointInfo, c: Contribution) {
    && p.name.Some? && p.port.Some? && p.port.value != 0
    && e.addresses != [] && (env.ipv6Mode.None? || env.ipv6Mode.value == env.isIPv6(e.addresses[0]))
    && c.key == ServicePortName(svc, p.name.value, p.protocol)
    && c.endpoint.address == env.joinHostPort(e.addresses[0], p.port.value) && c.ip == env.ipPart(c.endpoint.address)
    && (c.endpoint.isLocal <==>
          env.hostname != "" && "kubernetes.io/hostname" in e.topology
          && e.topology["kubernetes.io/hostname"] == env.hostname)
    && c.endpoint.topology == e.topology
  }

  lemma {:induction false} FromPortMember(
    env: Env, svc: NamespacedName, p: SlicePort, endpoints: seq<EndpointInfo>, c: Contribution)
    requires UsablePort(p)
    ensures c in FromPort(env, PortKey(svc, p), p.port.value, endpoints) <==>
      exists e <- endpoints :: GivenBy(env, svc, p, e, c)
  {
    if endpoints != [] {
      var n := |endpoints| - 1;
      assert endpoints == endpoints[..n] + [endpoints[n]];
      FromPortMember(env, svc, p, endpoints[..n], c);
      assert GivenBy(env, svc, p, endpoints[n], c) <==>
        UsableEndpoint(env, endpoints[n]) && c == Contribute(env, PortKey(svc, p), p.port.value, endpoints[n]);
    }
  }

  lemma {:induction false} FromPortsMember(
    env: Env, svc: NamespacedName, ports: seq<SlicePort>, endpoints: seq<EndpointInfo>, c: Contribution)
    ensures c in FromPorts(env, svc, ports, endpoints) <==>
      exists p <- ports, e <- endpoints :: GivenBy(env, svc, p, e, c)
  {
    if ports != [] {
      var n := |ports| - 1;
      assert ports == ports[..n] + [ports[n]];
      FromPortsMember(env, svc, ports[..n], endpoints, c);
      if UsablePort(ports[n]) { FromPortMember(env, svc, ports[n], endpoints, c); }
    }
  }

  /** What a slice contributes, port by port and endpoint by endpoint. */
  lemma SliceContributes(env: Env, svc: NamespacedName, info: SliceInfo, c: Contribution)
    ensures c in FromSlice(env, svc, info) <==>
      exists p <- info.ports, e <- info.endpoints :: GivenBy(env, svc, p, e, c)
  {
    FromPortsMember(env, svc, info.ports, info.endpoints, c);
  }

  // ---------- The order of the slices ----------

  /** What one slice alone would keep. */
  function Winner(env: Env, svc: NamespacedName, info: SliceInfo, k: ServicePortName, ip: string): Option<Endpoint> {
    Pick(FromSlice(env, svc, info), k, ip)
  }

  ghost predicate LocalWinner(
    env: Env, svc: NamespacedName, infos: Infos, k: ServicePortName, ip: string, name: string)
  {
    name in infos && var w := Winner(env, svc, infos[name], k, ip); w.Some? && w.value.isLocal
  }

  ghost predicate AnyLocal(
    env: Env, svc: NamespacedName, infos: Infos, k: ServicePortName, ip: string, names: seq<string>)
  {
    exists name <- names :: LocalWinner(env, svc, infos, k, ip, name)
  }

  /** Whichever order: the endpoint kept is some slice's winner, and a local one if there is any. */
  lemma {:induction false} PickIsSomeWinner(
    env: Env, svc: NamespacedName, infos: Infos, order: seq<string>, k: ServicePortName, ip: string)
    requires forall name <- order :: name in infos
    ensures var p := Pick(FromSlices(env, svc, infos, order), k, ip);
      && (p.None? <==> forall name <- order :: Winner(env, svc, infos[name], k, ip).None?)
      && (p.Some? ==> exists name <- order :: Winner(env, svc, infos[name], k, ip) == p)
      && (p.Some? ==> (p.value.isLocal <==> AnyLocal(env, svc, infos, k, ip, order)))
    decreases |order|
  {
    if order != [] {
      var n := |order| - 1;
      var before, last := order[..n], order[n];
      assert order == before + [last];
      PickIsSomeWinner(env, svc, infos, before, k, ip);
      PickConcat(FromSlices(env, svc, infos, before), FromSlice(env, svc, infos[last]), k, ip);
      var p := Pick(FromSlices(env, svc, infos, order), k, ip);
      if p == Winner(env, svc, infos[last], k, ip) {
        assert last in order;
      }
      if p.Some? && p.value.isLocal && p == Winner(env, svc, infos[last], k, ip) {
        assert LocalWinner(env, svc, infos, k, ip, last);
      }
      if LocalWinner(env, svc, infos, k, ip, last) {
        assert p == Winner(env, svc, infos[last], k, ip);
      }
    }
  }

  /** The slices whose winners could be kept: the local ones, or all of them when none is local. */
  ghost predicate Contender(env: Env, svc: NamespacedName, infos: Infos, k: ServicePortName, ip: string, name: string) {
    && name in infos
    && Winner(env, svc, infos[name], k, ip).Some?
    && ((exists m <- infos :: LocalWinner(env, svc, infos, k, ip, m)) ==> LocalWinner(env, svc, infos, k, ip, name))
  }

  ghost predicate ContendersAgree(env: Env, svc: NamespacedName, infos: Infos, k: ServicePortName, ip: string) {
    forall m, n :: Contender(env, svc, infos, k, ip, m) && Contender(env, svc, infos, k, ip, n) ==>
      Winner(env, svc, infos[m], k, ip) == Winner(env, svc, infos[n], k, ip)
  }

  lemma PickIsContender(env: Env, svc: NamespacedName, infos: Infos, order: seq<string>, k: ServicePortName, ip: string)
    returns (name: string)
    requires IsOrder(order, infos.Keys) && Pick(FromSlices(env, svc, infos, order), k, ip).Some?
    ensures Contender(env, svc, infos, k, ip, name)
    ensures Winner(env, svc, infos[name], k, ip) == Pick(FromSlices(env, svc, infos, order), k, ip)
  {
    PickIsSomeWinner(env, svc, infos, order, k, ip);
    name :| name in order && Winner(env, svc, infos[name], k, ip) == Pick(FromSlices(env, svc, infos, order), k, ip);
    if m :| m in infos && LocalWinner(env, svc, infos, k, ip, m) {
      assert m in order;
    }
  }

  lemma SomeOrder(keys: set<string>) returns (order: seq<string>)
    ensures IsOrder(order, keys)
    decreases keys
  {
    if keys == {} {
      order := [];
    } else {
      var k :| k in keys;
      order := SomeOrder(keys - {k});
      order := order + [k];
    }
  }

  /** Any contender is kept under some order: last among the local ones, or first when none is local. */
  lemma ContenderIsPicked(env: Env, svc: NamespacedName, infos: Infos, k: ServicePortName, ip: string, name: string)
    returns (order: seq<string>)
    requires Contender(env, svc, infos, k, ip, name)
    ensures IsOrder(order, infos.Keys)
    ensures Pick(FromSlices(env, svc, infos, order), k, ip) == Winner(env, svc, infos[name], k, ip)
  {
    var others := SomeOrder(infos.Keys - {name});
    if LocalWinner(env, svc, infos, k, ip, name) {
      order := others + [name];
      assert order[..|others|] == others;
      PickConcat(FromSlices(env, svc, infos, others), FromSlice(env, svc, infos[name]), k, ip);
    } else {
      order := [name] + others;
      FirstIsKept(env, svc, infos, name, others, k, ip);
    }
  }

  lemma {:induction false} FirstIsKept(
    env: Env, svc: NamespacedName, infos: Infos, name: string, others: seq<string>, k: ServicePortName, ip: string)
    requires name in infos && Winner(env, svc, infos[name], k, ip).Some?
    requires forall m <- others :: m in infos && !LocalWinner(env, svc, infos, k, ip, m)
    ensures Pick(FromSlices(env, svc, infos, [name] + others), k, ip) == Winner(env, svc, infos[name], k, ip)
    decreases |others|
  {
    var order := [name] + others;
    var n := |order| - 1;
    PickConcat(FromSlices(env, svc, infos, order[..n]), FromSlice(env, svc, infos[order[n]]), k, ip);
    if others == [] {
      assert FromSlices(env, svc, infos, order[..n]) == [];
    } else {
      assert order[..n] == [name] + others[..|others| - 1];
      FirstIsKept(env, svc, infos, name, others[..|others| - 1], k, ip);
    }
  }

  /**
    The endpoint kept for a service port and IP does not depend on the order in which Go ranges over
    the slices exactly when the contending slices agree about it.
   */
  lemma OrderDoesNotMatterIff(env: Env, svc: NamespacedName, infos: Infos, k: ServicePortName, ip: string)
    ensures ContendersAgree(env, svc, infos, k, ip) <==>
      forall a, b :: IsOrder(a, infos.Keys) && IsOrder(b, infos.Keys) ==>
        Pick(FromSlices(env, svc, infos, a), k, ip) == Pick(FromSlices(env, svc, infos, b), k, ip)
  {
    if ContendersAgree(env, svc, infos, k, ip) {
      forall a, b | IsOrder(a, infos.Keys) && IsOrder(b, infos.Keys)
        ensures Pick(FromSlices(env, svc, infos, a), k, ip) == Pick(FromSlices(env, svc, infos, b), k, ip)
      {
        PickIsSomeWinner(env, svc, infos, a, k, ip);
        PickIsSomeWinner(env, svc, infos, b, k, ip);
        if Pick(FromSlices(env, svc, infos, a), k, ip).Some? {
          var m := PickIsContender(env, svc, infos, a, k, ip);
          assert m in b;
          var n := PickIsContender(env, svc, infos, b, k, ip);
        }
      }
    } else {
      var m, n :| Contender(env, svc, infos, k, ip, m) && Contender(env, svc, infos, k, ip, n)
        && Winner(env, svc, infos[m], k, ip) != Winner(env, svc, infos[n], k, ip);
      var a := ContenderIsPicked(env, svc, infos, k, ip, m);
      var b := ContenderIsPicked(env, svc, infos, k, ip, n);
    }
  }

  /** A slice with one port and one endpoint that is not local. */
  function OneEndpoint(port: int, ip: string): SliceInfo {
    SliceInfo([SlicePort(Some("http"), Some(port), TCP)], [EndpointInfo([ip], map[])], false)
  }

  lemma OneContribution(env: Env, svc: NamespacedName, port: int, ip: string)
    requires port != 0 && !env.WrongFamily(ip)
    ensures FromSlice(env, svc, OneEndpoint(port, ip)) ==
      [Contribute(env, ServicePortName(svc, "http", TCP), port, EndpointInfo([ip], map[]))]
  {
    var info := OneEndpoint(port, ip);
    assert info.ports[..0] == [] && info.endpoints[..0] == [];
    assert FromPort(env, ServicePortName(svc, "http", TCP), port, []) == [];
    assert FromPorts(env, svc, [], info.endpoints) == [];
  }

  lemma TwoSlices(env: Env, svc: NamespacedName, infos: Infos, a: string, b: string)
    requires a in infos && b in infos
    ensures FromSlices(env, svc, infos, [a, b]) == FromSlice(env, svc, infos[a]) + FromSlice(env, svc, infos[b])
  {
    assert [a, b][..1] == [a] && [a][..0] == [];
    assert FromSlices(env, svc, infos, []) == [];
    assert FromSlices(env, svc, infos, [a]) == FromSlices(env, svc, infos, []) + FromSlice(env, svc, infos[a]);
  }

  lemma PickOne(c: Contribution)
    ensures Pick([c], c.key, c.ip) == Some(c.endpoint)
  {
    assert [c][..0] == [];
    assert Pick([], c.key, c.ip) == None;
  }

  /** Of two such slices the one visited first gives the endpoint. */
  lemma FirstOfTwo(env: Env, svc: NamespacedName, infos: Infos, a: string, b: string, p: int, q: int, ip: string)
    requires a in infos && b in infos && infos[a] == OneEndpoint(p, ip) && infos[b] == OneEndpoint(q, ip)
    requires p != 0 && q != 0 && !env.WrongFamily(ip)
    requires env.ipPart(env.joinHostPort(ip, p)) == ip == env.ipPart(env.joinHostPort(ip, q))
    ensures Pick(FromSlices(env, svc, infos, [a, b]), ServicePortName(svc, "http", TCP), ip)
         == Some(Endpoint(env.joinHostPort(ip, p), false, map[]))
  {
    var k, e := ServicePortName(svc, "http", TCP), EndpointInfo([ip], map[]);
    TwoSlices(env, svc, infos, a, b);
    OneContribution(env, svc, p, ip);
    OneContribution(env, svc, q, ip);
    var first, second := Contribute(env, k, p, e), Contribute(env, k, q, e);
    PickConcat([first], [second], k, ip);
    PickOne(first);
    PickOne(second);
  }

  /** Two slices that give one IP under one port name different numbers: the order decides which is kept. */
  lemma OrderMayMatter(env: Env, svc: NamespacedName, ip: string, p: int, q: int)
    requires p != 0 && q != 0 && !env.WrongFamily(ip) && env.joinHostPort(ip, p) != env.joinHostPort(ip, q)
    requires env.ipPart(env.joinHostPort(ip, p)) == ip == env.ipPart(env.joinHostPort(ip, q))
    ensures var infos := map["a" := OneEndpoint(p, ip), "b" := OneEndpoint(q, ip)];
      var k := ServicePortName(svc, "http", TCP);
      && IsOrder(["a", "b"], infos.Keys) && IsOrder(["b", "a"], infos.Keys)
      && Pick(FromSlices(env, svc, infos, ["a", "b"]), k, ip) != Pick(FromSlices(env, svc, infos, ["b", "a"]), k, ip)
  {
    var infos := map["a" := OneEndpoint(p, ip), "b" := OneEndpoint(q, ip)];
    FirstOfTwo(env, svc, infos, "a", "b", p, q, ip);
    FirstOfTwo(env, svc, infos, "b", "a", q, p, ip);
  }
}
