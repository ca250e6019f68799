/**
  The bridge's port table: port numbers, backup links with their reference counts, and the values
  derived from the ports (number of auto ports, promiscuity, headroom), all kept incrementally.
  A port struct is a record in a map; its key stands for the pointer to it.
 */
module Bridge {
  import opened Wrappers

  datatype PortId = PortId(address: nat)

  const BR_MAX_PORTS := 1024
  const ENOENT := 2
  const EBUSY := 16
  const ELOOP := 40
  const EOPNOTSUPP := 95
  const EINVAL := 22
  const EXFULL := 54

  /** `fwdHeadroom` and `unicastFlt` belong to the port's device and do not change. */
  datatype Port = Port(
    portNo: nat, fwdHeadroom: nat, unicastFlt: bool,
    learning: bool, flood: bool, promisc: bool,
    backup: Option<PortId>, redirected: nat, rxHeadroom: int)
  {
    predicate Auto() { learning || flood }
  }

  type Ports = map<PortId, Port>

  /** `setAll`: vlan filtering is off, or the bridge itself is promiscuous. */
  datatype State = State(ports: Ports, portList: seq<PortId>, autoCnt: nat, neededHeadroom: nat, setAll: bool)

  function Members(list: seq<PortId>): set<PortId> { set q <- list }

  // ---------- Port numbers ----------

  function NumbersIn(ports: Ports, list: seq<PortId>): set<nat>
    requires forall q <- list :: q in ports
  {
    set q <- list :: ports[q].portNo
  }

  /** The first number from `from` on that is not in use, or BR_MAX_PORTS. */
  function FirstFree(used: set<nat>, from: nat): nat
    requires from <= BR_MAX_PORTS
    decreases BR_MAX_PORTS - from
  {
    if from == BR_MAX_PORTS || from !in used then from else FirstFree(used, from + 1)
  }

  lemma {:induction false} FirstFreeIsLeast(used: set<nat>, from: nat)
    requires from <= BR_MAX_PORTS
    ensures from <= FirstFree(used, from) <= BR_MAX_PORTS
    ensures FirstFree(used, from) < BR_MAX_PORTS ==> FirstFree(used, from) !in used
    ensures forall n :: from <= n < FirstFree(used, from) ==> n in used
    decreases BR_MAX_PORTS - from
  {
    if from < BR_MAX_PORTS && from in used { FirstFreeIsLeast(used, from + 1); }
  }

  ghost predicate NumbersOk(ports: Ports, list: seq<PortId>) {
    && (forall q <- list :: q in ports && 1 <= ports[q].portNo < BR_MAX_PORTS)
    && (forall i, j :: 0 <= i < j < |list| ==> ports[list[i]].portNo != ports[list[j]].portNo)
  }

  function UpTo(n: nat): (r: set<nat>)
    ensures |r| == n && forall x :: x in r <==> 1 <= x <= n
  {
    if n == 0 then {} else UpTo(n - 1) + {n}
  }

  lemma {:induction false} DistinctNumbers(ports: Ports, list: seq<PortId>)
    requires NumbersOk(ports, list)
    ensures |NumbersIn(ports, list)| == |list| && |Members(list)| == |list|
  {
    if list != [] {
      var n := |list| - 1;
      assert list == list[..n] + [list[n]];
      DistinctNumbers(ports, list[..n]);
      assert NumbersIn(ports, list) == NumbersIn(ports, list[..n]) + {ports[list[n]].portNo};
      assert Members(list) == Members(list[..n]) + {list[n]};
    }
  }

  lemma SubsetSize<T>(a: set<T>, b: set<T>)
    requires a <= b
    ensures |a| <= |b|
    ensures |a| == |b| ==> a == b
  {
    assert b == a + (b - a);
    if |a| == |b| { assert b - a == {}; }
  }

  /** Distinct numbers below 1024 leave room for 1023 ports; the search fails exactly when all are taken. */
  lemma AtMost1023(ports: Ports, list: seq<PortId>)
    requires NumbersOk(ports, list)
    ensures |Members(list)| == |list| <= 1023
    ensures FirstFree(NumbersIn(ports, list), 1) == BR_MAX_PORTS <==> |list| == 1023
  {
    DistinctNumbers(ports, list);
    var used := NumbersIn(ports, list);
    assert used <= UpTo(1023);
    SubsetSize(used, UpTo(1023));
    FirstFreeIsLeast(used, 1);
    if FirstFree(used, 1) == BR_MAX_PORTS {
      assert UpTo(1023) <= used;
      SubsetSize(UpTo(1023), used);
    }
  }

  // ---------- Backup links ----------

  datatype BackupDevice = NoDevice | NotABridgePort | PortOf(port: PortId)

  /** The counter is sixteen bits wide. */
  function Inc16(x: nat): nat { (x + 1) % 0x1_0000 }
  function Dec16(x: nat): nat { (x + 0xFFFF) % 0x1_0000 }

  function AddToCount(ports: Ports, q: Option<PortId>, up: bool): Ports {
    if q.Some? && q.value in ports then
      var p := ports[q.value];
      ports[q.value := p.(redirected := if up then Inc16(p.redirected) else Dec16(p.redirected))]
    else ports
  }

  /** Move p's reference from its old backup to the new one. */
  function Redirect(ports: Ports, p: PortId, target: Option<PortId>): Ports
    requires p in ports
  {
    if ports[p].backup == target then ports
    else
      var moved := AddToCount(AddToCount(ports, ports[p].backup, false), target, true);
      moved[p := moved[p].(backup := target)]
  }

  /** nbp_backup_change: the new ports and the error code. */
  function BackupChange(ports: Ports, list: seq<PortId>, p: PortId, device: BackupDevice): (Ports, int)
    requires p in ports
  {
    match device
    case NotABridgePort => (ports, -ENOENT)
    case PortOf(q) => if q !in list || q == p then (ports, -EINVAL) else (Redirect(ports, p, Some(q)), 0)
    case NoDevice => (Redirect(ports, p, None), 0)
  }

  ghost function Backers(ports: Ports, all: set<PortId>, x: PortId): set<PortId> {
    set q <- all | q in ports && ports[q].backup == Some(x)
  }

  /** What moving a reference does to each port. */
  lemma RedirectEffect(ports: Ports, p: PortId, target: Option<PortId>, q: PortId)
    requires p in ports && q in ports && ports[p].backup != target
    requires target != Some(p) && ports[p].backup != Some(p)
    ensures var q' := Redirect(ports, p, target)[q];
      && Redirect(ports, p, target).Keys == ports.Keys
      && q' == ports[q].(backup := q'.backup, redirected := q'.redirected)
      && q'.backup == (if q == p then target else ports[q].backup)
      && q'.redirected == (if ports[p].backup == Some(q) then Dec16(ports[q].redirected)
                           else if target == Some(q) then Inc16(ports[q].redirected) else ports[q].redirected)
  {
  }

  /** The backers of q before and after the move. */
  lemma MovedBackers(ports: Ports, all: set<PortId>, p: PortId, target: Option<PortId>, q: PortId)
    requires p in all && (forall r <- all :: r in ports) && ports[p].backup != target
    requires target != Some(p) && ports[p].backup != Some(p)
    ensures Backers(Redirect(ports, p, target), all, q)
         == Backers(ports, all, q)
            - (if ports[p].backup == Some(q) then {p} else {}) + (if target == Some(q) then {p} else {})
  {
    forall r | r in all {
      RedirectEffect(ports, p, target, r);
    }
  }

  lemma CounterArithmetic(x: nat)
    requires x <= 1023
    ensures Inc16(x) == x + 1 && (x > 0 ==> Dec16(x) == x - 1)
  {
  }

  ghost predicate RefOk(ports: Ports, all: set<PortId>, q: PortId) {
    && q in ports
    && ports[q].redirected == |Backers(ports, all, q)|
    && (ports[q].backup.Some? ==> ports[q].backup.value in all && ports[q].backup.value != q)
  }

  /** Among the given ports, each counts the ports that name it as backup, and none backs itself. */
  ghost predicate Refs(ports: Ports, all: set<PortId>) {
    forall q <- all :: RefOk(ports, all, q)
  }

  /** Moving one reference keeps every count right, and no counter wraps. */
  lemma RedirectKeepsRef(ports: Ports, all: set<PortId>, p: PortId, target: Option<PortId>, q: PortId)
    requires Refs(ports, all) && p in all && q in all && |all| <= 1023 && ports[p].backup != target
    requires target.Some? ==> target.value in all && target.value != p
    ensures RefOk(Redirect(ports, p, target), all, q)
  {
    assert RefOk(ports, all, p) && RefOk(ports, all, q);
    var before, after := Backers(ports, all, q), Backers(Redirect(ports, p, target), all, q);
    SubsetSize(before, all);
    CounterArithmetic(|before|);
    forall r | r in all ensures r in ports { assert RefOk(ports, all, r); }
    MovedBackers(ports, all, p, target, q);
    RedirectEffect(ports, p, target, q);
    assert p in before <==> ports[p].backup == Some(q);
    if ports[p].backup == Some(q) {
      assert |after| == |before| - 1;
    }
  }

  lemma RedirectKeepsRefs(ports: Ports, all: set<PortId>, p: PortId, target: Option<PortId>)
    requires Refs(ports, all) && p in all && |all| <= 1023
    requires target.Some? ==> target.value in all && target.value != p
    ensures Refs(Redirect(ports, p, target), all)
    ensures Redirect(ports, p, target).Keys == ports.Keys
    ensures forall q <- ports :: Redirect(ports, p, target)[q].backup == if q == p then target else ports[q].backup
  {
    assert RefOk(ports, all, p);
    if ports[p].backup != target {
      forall q | q in all ensures RefOk(Redirect(ports, p, target), all, q) {
        RedirectKeepsRef(ports, all, p, target, q);
      }
      forall q | q in ports {
        RedirectEffect(ports, p, target, q);
      }
    }
  }

  /** The loop of nbp_backup_clear: every listed port that is backed by p loses its link. */
  function DropLinks(ports: Ports, list: seq<PortId>, p: PortId): Ports
    ensures DropLinks(ports, list, p).Keys == ports.Keys
  {
    if list == [] then ports
    else
      var before := DropLinks(ports, list[..|list| - 1], p);
      var cur := list[|list| - 1];
      if cur in before && before[cur].backup == Some(p) then Redirect(before, cur, None) else before
  }

  /** nbp_backup_clear: p gives up its own link, then the links to it. */
  function ClearBackups(ports: Ports, list: seq<PortId>, p: PortId): Ports
    requires p in ports
  {
    var ports := Redirect(ports, p, None);
    if ports[p].redirected != 0 then DropLinks(ports, list, p) else ports
  }

  lemma {:induction false} DropLinksKeepsRefs(ports: Ports, list: seq<PortId>, all: set<PortId>, p: PortId)
    requires Refs(ports, all) && |all| <= 1023 && forall q <- list :: q in all
    ensures Refs(DropLinks(ports, list, p), all)
    ensures forall q <- ports ::
      DropLinks(ports, list, p)[q].backup == (if q in list && ports[q].backup == Some(p) then None else ports[q].backup)
  {
    if list != [] {
      var n := |list| - 1;
      assert list == list[..n] + [list[n]];
      assert RefOk(ports, all, list[n]);
      DropLinksKeepsRefs(ports, list[..n], all, p);
      var before := DropLinks(ports, list[..n], p);
      if before[list[n]].backup == Some(p) {
        RedirectKeepsRefs(before, all, list[n], None);
      }
    }
  }

  /** The warning at the end of nbp_backup_clear. */
  predicate Warns(ports: Ports, p: PortId)
    requires p in ports
  {
    ports[p].backup.Some? || ports[p].redirected != 0
  }

  /** A port that nobody names as backup can be dropped from the count. */
  lemma ForgetUnreferenced(ports: Ports, all: set<PortId>, p: PortId)
    requires Refs(ports, all) && p in all && ports[p].backup == None && forall q <- all :: ports[q].backup != Some(p)
    ensures !Warns(ports, p) && Refs(ports, all - {p})
  {
    assert RefOk(ports, all, p);
    assert Backers(ports, all, p) == {};
    forall q | q in all - {p} ensures RefOk(ports, all - {p}, q) {
      assert RefOk(ports, all, q);
      assert Backers(ports, all - {p}, q) == Backers(ports, all, q);
    }
  }

  /** Clearing a port that has left the list frees it of references in both directions, and never warns. */
  lemma ClearKeepsRefs(ports: Ports, list: seq<PortId>, all: set<PortId>, p: PortId)
    requires Refs(ports, all) && |all| <= 1023 && p in all
    requires Members(list) == all - {p}
    ensures var ports' := ClearBackups(ports, list, p);
      && ports'.Keys == ports.Keys && !Warns(ports', p)
      && Refs(ports', all - {p})
      && (forall q <- all - {p} ::
            ports'[q].backup == if ports[q].backup == Some(p) then None else ports[q].backup)
  {
    assert RefOk(ports, all, p);
    RedirectKeepsRefs(ports, all, p, None);
    var own, ports' := Redirect(ports, p, None), ClearBackups(ports, list, p);
    assert RefOk(own, all, p);
    forall q | q in all ensures q in ports && (q == p || q in list) {
      assert RefOk(ports, all, q);
      assert q == p || q in Members(list);
    }
    if own[p].redirected != 0 {
      forall q | q in list ensures q in all { assert q in Members(list); }
      DropLinksKeepsRefs(own, list, all, p);
    } else {
      assert Backers(own, all, p) == {};
      forall q | q in all ensures own[q].backup != Some(p) {
        assert q !in Backers(own, all, p);
      }
    }
    ForgetUnreferenced(ports', all, p);
  }

  // ---------- Auto ports and promiscuity ----------

  function AutoPorts(ports: Ports, list: seq<PortId>): set<PortId> {
    set q <- list | q in ports && ports[q].Auto()
  }

  /** br_manage_promisc's rule for one port. */
  predicate WantsPromisc(setAll: bool, autoCnt: nat, auto: bool) {
    setAll || !(autoCnt == 0 || (autoCnt == 1 && auto))
  }

  /** A port that need not be promiscuous stops being so if its device can filter unicast. */
  function ManagedPort(p: Port, setAll: bool, autoCnt: nat): Port {
    if WantsPromisc(setAll, autoCnt, p.Auto()) then p.(promisc := true)
    else if p.promisc && p.unicastFlt then p.(promisc := false)
    else p
  }

  function Manage(ports: Ports, list: seq<PortId>, setAll: bool, autoCnt: nat): Ports {
    map q <- ports :: if q in list then ManagedPort(ports[q], setAll, autoCnt) else ports[q]
  }

  /** Promiscuous when the rule says so; otherwise not, unless the device cannot filter unicast. */
  ghost predicate PromiscOk(p: Port, setAll: bool, autoCnt: nat) {
    var wants := WantsPromisc(setAll, autoCnt, p.Auto());
    (wants ==> p.promisc) && (!wants && p.unicastFlt ==> !p.promisc)
  }

  /** nbp_update_port_count: promiscuity is looked at again only if the number of auto ports changed. */
  function Recount(s: State): State {
    var cnt := |AutoPorts(s.ports, s.portList)|;
    if s.autoCnt == cnt then s
    else s.(autoCnt := cnt, ports := Manage(s.ports, s.portList, s.setAll, cnt))
  }

  ghost predicate Counted(s: State) {
    && s.autoCnt == |AutoPorts(s.ports, s.portList)|
    && forall q <- s.portList :: q in s.ports && PromiscOk(s.ports[q], s.setAll, s.autoCnt)
  }

  /** Recounting restores the rule everywhere, provided it held wherever the count says nothing changed. */
  lemma RecountIsCounted(s: State)
    requires forall q <- s.portList :: q in s.ports
    requires s.autoCnt == |AutoPorts(s.ports, s.portList)| ==>
      forall q <- s.portList :: PromiscOk(s.ports[q], s.setAll, s.autoCnt)
    ensures Counted(Recount(s))
  {
    assert AutoPorts(Recount(s).ports, s.portList) == AutoPorts(s.ports, s.portList);
  }

  // ---------- Headroom ----------

  /** The maximum over the ports, zero without ports. */
  ghost predicate IsMaxHeadroom(m: nat, ports: Ports, list: seq<PortId>) {
    && (forall q <- list :: q in ports && ports[q].fwdHeadroom <= m)
    && (m == 0 || exists q <- list :: q in ports && ports[q].fwdHeadroom == m)
  }

  function MaxHeadroom(ports: Ports, list: seq<PortId>): nat {
    if list == [] then 0
    else
      var before, q := MaxHeadroom(ports, list[..|list| - 1]), list[|list| - 1];
      if q in ports && ports[q].fwdHeadroom > before then ports[q].fwdHeadroom else before
  }

  lemma {:induction false} MaxHeadroomIsMax(ports: Ports, list: seq<PortId>)
    requires forall q <- list :: q in ports
    ensures IsMaxHeadroom(MaxHeadroom(ports, list), ports, list)
  {
    if list != [] {
      var n := |list| - 1;
      assert list == list[..n] + [list[n]];
      MaxHeadroomIsMax(ports, list[..n]);
    }
  }

  /** update_headroom: give every listed port the new headroom. */
  function SetHeadroom(s: State, hr: nat): State {
    s.(neededHeadroom := hr,
       ports := map q <- s.ports :: if q in s.portList then s.ports[q].(rxHeadroom := hr) else s.ports[q])
  }

  ghost predicate HeadroomOk(s: State) {
    && IsMaxHeadroom(s.neededHeadroom, s.ports, s.portList)
    && forall q <- s.portList :: s.ports[q].rxHeadroom == s.neededHeadroom
  }

  // ---------- Events ----------

  /** What br_add_if asks of a device: an Ethernet device, no bridge, no other master, willing to be bridged. */
  datatype Device = Device(
    fwdHeadroom: nat, unicastFlt: bool, ethernet: bool, isBridge: bool, otherMaster: bool, dontBridge: bool)
  {
    predicate Bridgeable() { ethernet && !isBridge && !otherMaster && !dontBridge }
  }

  datatype Event =
    | Add(p: PortId, dev: Device)
    | Delete(p: PortId)
    | ChangeBackup(p: PortId, device: BackupDevice)
    | ChangeFlags(p: PortId, learning: bool, flood: bool)

  /** The port joins the head of the list. */
  function Link(s: State, p: PortId, port: Port): State {
    s.(ports := s.ports[p := port], portList := [p] + s.portList)
  }

  function RaiseHeadroom(s: State, p: PortId): State
    requires p in s.ports
  {
    if s.neededHeadroom < s.ports[p].fwdHeadroom then SetHeadroom(s, s.ports[p].fwdHeadroom)
    else s.(ports := s.ports[p := s.ports[p].(rxHeadroom := s.neededHeadroom)])
  }

  function NewPort(portNo: nat, fwdHeadroom: nat, unicastFlt: bool): Port {
    Port(portNo, fwdHeadroom, unicastFlt, true, true, false, None, 0, 0)
  }

  /** The first of the checks that fails, or zero; a port of this bridge has a master. */
  function Refusal(s: State, p: PortId, dev: Device): int {
    if !dev.ethernet then -EINVAL
    else if dev.isBridge then -ELOOP
    else if dev.otherMaster || p in s.portList then -EBUSY
    else if dev.dontBridge then -EOPNOTSUPP
    else 0
  }

  function AddStep(s: State, p: PortId, dev: Device): (State, int)
    requires forall q <- s.portList :: q in s.ports
  {
    if Refusal(s, p, dev) != 0 then (s, Refusal(s, p, dev))
    else
      var n := FirstFree(NumbersIn(s.ports, s.portList), 1);
      if n >= BR_MAX_PORTS then (s, -EXFULL)
      else (RaiseHeadroom(Recount(Link(s, p, NewPort(n, dev.fwdHeadroom, dev.unicastFlt))), p), 0)
  }

  function RemoveFrom(list: seq<PortId>, p: PortId): seq<PortId> {
    if list == [] then []
    else if list[0] == p then list[1..]
    else [list[0]] + RemoveFrom(list[1..], p)
  }

  /** The headroom after the port has left the list: recomputed if the port's was the largest. */
  function Lowered(s: State, p: PortId): State
    requires p in s.ports
  {
    if s.ports[p].fwdHeadroom == s.neededHeadroom then SetHeadroom(s, MaxHeadroom(s.ports, s.portList)) else s
  }

  /** del_nbp after the port has left the list: headroom, backup links, recount; then the port is freed. */
  function Unlink(s: State, p: PortId): State
    requires p in s.ports
  {
    var lowered := Lowered(s, p);
    var cleared := lowered.(ports := ClearBackups(lowered.ports, s.portList, p));
    var counted := Recount(cleared);
    counted.(ports := counted.ports - {p})
  }

  function DeleteStep(s: State, p: PortId): (State, int) {
    if p !in s.portList || p !in s.ports then (s, -EINVAL)
    else (Unlink(s.(portList := RemoveFrom(s.portList, p)), p), 0)
  }

  function ChangeFlagsStep(s: State, p: PortId, learning: bool, flood: bool): (State, int) {
    if p !in s.portList || p !in s.ports then (s, -EINVAL)
    else
      var old' := s.ports[p];
      var t := s.(ports := s.ports[p := old'.(learning := learning, flood := flood)]);
      (if old'.learning != learning || old'.flood != flood then Recount(t) else t, 0)
  }

  function ChangeBackupStep(s: State, p: PortId, device: BackupDevice): (State, int) {
    if p !in s.portList || p !in s.ports then (s, -EINVAL)
    else
      var (ports, err) := BackupChange(s.ports, s.portList, p, device);
      (s.(ports := ports), err)
  }

  function Step(s: State, e: Event): (State, int)
    requires forall q <- s.portList :: q in s.ports
  {
    match e
    case Add(p, dev) => AddStep(s, p, dev)
    case Delete(p) => DeleteStep(s, p)
    case ChangeBackup(p, device) => ChangeBackupStep(s, p, device)
    case ChangeFlags(p, learning, flood) => ChangeFlagsStep(s, p, learning, flood)
  }

  // ---------- The invariant ----------

  ghost predicate Inv(s: State) {
    && s.ports.Keys == Members(s.portList)
    && NumbersOk(s.ports, s.portList)
    && Refs(s.ports, Members(s.portList))
    && Counted(s)
    && HeadroomOk(s)
  }

  /** Ports that differ in promiscuity or headroom only. */
  ghost predicate SameLinks(a: Ports, b: Ports) {
    && a.Keys == b.Keys
    && forall q <- a :: a[q].(promisc := b[q].promisc, rxHeadroom := b[q].rxHeadroom) == b[q]
  }

  lemma SameLinksKeep(a: Ports, b: Ports, list: seq<PortId>, all: set<PortId>)
    requires SameLinks(a, b)
    ensures NumbersOk(a, list) ==> NumbersOk(b, list)
    ensures Refs(a, all) ==> Refs(b, all)
    ensures AutoPorts(a, list) == AutoPorts(b, list)
    ensures forall m :: IsMaxHeadroom(m, a, list) ==> IsMaxHeadroom(m, b, list)
  {
    forall q ensures Backers(a, all, q) == Backers(b, all, q) {}
    forall m | IsMaxHeadroom(m, a, list) ensures IsMaxHeadroom(m, b, list) {
      if m != 0 {
        var q :| q in list && q in a && a[q].fwdHeadroom == m;
        assert b[q].fwdHeadroom == m;
      }
    }
  }

  lemma ManageSameLinks(s: State, cnt: nat)
    ensures SameLinks(s.ports, Manage(s.ports, s.portList, s.setAll, cnt))
  {
  }

  lemma SetHeadroomSameLinks(s: State, hr: nat)
    ensures SameLinks(s.ports, SetHeadroom(s, hr).ports)
  {
  }

  /** Recounting touches neither links nor headroom. */
  lemma RecountKeepsRest(s: State)
    requires NumbersOk(s.ports, s.portList) && Refs(s.ports, Members(s.portList))
    ensures var t := Recount(s);
      && t.portList == s.portList && t.ports.Keys == s.ports.Keys && t.neededHeadroom == s.neededHeadroom
      && NumbersOk(t.ports, t.portList) && Refs(t.ports, Members(t.portList))
      && SameLinks(s.ports, t.ports)
      && (forall q <- s.ports :: t.ports[q].rxHeadroom == s.ports[q].rxHeadroom)
      && (IsMaxHeadroom(s.neededHeadroom, s.ports, s.portList) ==> IsMaxHeadroom(s.neededHeadroom, t.ports, s.portList))
  {
    ManageSameLinks(s, |AutoPorts(s.ports, s.portList)|);
    SameLinksKeep(s.ports, Recount(s).ports, s.portList, Members(s.portList));
  }

  /** Setting the headroom touches neither links nor promiscuity. */
  lemma SetHeadroomKeepsRest(s: State, hr: nat)
    requires NumbersOk(s.ports, s.portList) && Refs(s.ports, Members(s.portList))
    ensures var t := SetHeadroom(s, hr);
      && t.portList == s.portList && t.ports.Keys == s.ports.Keys && t.autoCnt == s.autoCnt && t.setAll == s.setAll
      && NumbersOk(t.ports, t.portList) && Refs(t.ports, Members(t.portList))
      && (Counted(s) ==> Counted(t))
      && (IsMaxHeadroom(hr, s.ports, s.portList) ==> HeadroomOk(t))
  {
    SetHeadroomSameLinks(s, hr);
    SameLinksKeep(s.ports, SetHeadroom(s, hr).ports, s.portList, Members(s.portList));
  }

  // ---------- Adding a port ----------

  lemma LinkKeepsRefs(s: State, p: PortId, port: Port)
    requires Refs(s.ports, Members(s.portList)) && p !in s.portList && s.ports.Keys == Members(s.portList)
    requires port.backup == None && port.redirected == 0
    ensures Refs(Link(s, p, port).ports, Members(Link(s, p, port).portList))
  {
    var t := Link(s, p, port);
    var before, after := Members(s.portList), Members(t.portList);
    assert after == before + {p};
    forall q | q in after ensures RefOk(t.ports, after, q) {
      if q == p {
        forall r | r in before ensures s.ports[r].backup != Some(p) {
          assert RefOk(s.ports, before, r);
        }
        assert Backers(t.ports, after, p) == {};
      } else {
        assert RefOk(s.ports, before, q);
        assert Backers(t.ports, after, q) == Backers(s.ports, before, q);
      }
    }
  }

  lemma LinkKeepsNumbers(s: State, p: PortId, port: Port)
    requires NumbersOk(s.ports, s.portList) && p !in s.portList
    requires 1 <= port.portNo < BR_MAX_PORTS && port.portNo !in NumbersIn(s.ports, s.portList)
    ensures NumbersOk(Link(s, p, port).ports, Link(s, p, port).portList)
  {
    var t := Link(s, p, port);
    forall i, j | 0 <= i < j < |t.portList| ensures t.ports[t.portList[i]].portNo != t.ports[t.portList[j]].portNo {
      assert t.portList[j] == s.portList[j - 1] && s.portList[j - 1] in s.portList;
      if i > 0 { assert t.portList[i] == s.portList[i - 1] && s.portList[i - 1] in s.portList; }
    }
  }

  lemma LinkAddsAuto(s: State, p: PortId, port: Port)
    requires p !in s.portList && s.ports.Keys == Members(s.portList)
    ensures var t := Link(s, p, port);
      && t.ports.Keys == Members(t.portList)
      && AutoPorts(t.ports, t.portList) == AutoPorts(s.ports, s.portList) + (if port.Auto() then {p} else {})
  {
    assert Members(Link(s, p, port).portList) == Members(s.portList) + {p};
  }

  lemma RaiseHeadroomIsMax(s: State, p: PortId)
    requires s.portList != [] && s.portList[0] == p && p in s.ports
    requires NumbersOk(s.ports, s.portList) && Refs(s.ports, Members(s.portList)) && Counted(s)
    requires IsMaxHeadroom(s.neededHeadroom, s.ports, s.portList[1..])
    requires forall q <- s.portList[1..] :: s.ports[q].rxHeadroom == s.neededHeadroom
    ensures var t := RaiseHeadroom(s, p);
      && t.portList == s.portList && t.ports.Keys == s.ports.Keys
      && NumbersOk(t.ports, t.portList) && Refs(t.ports, Members(t.portList)) && Counted(t) && HeadroomOk(t)
  {
    var list := s.portList;
    assert list == [p] + list[1..];
    var hr := s.ports[p].fwdHeadroom;
    if s.neededHeadroom < hr {
      assert IsMaxHeadroom(hr, s.ports, list);
      SetHeadroomKeepsRest(s, hr);
    } else {
      assert IsMaxHeadroom(s.neededHeadroom, s.ports, list);
      HeadroomOfNewPort(s, p);
    }
  }

  lemma HeadroomOfNewPort(s: State, p: PortId)
    requires p in s.ports && IsMaxHeadroom(s.neededHeadroom, s.ports, s.portList)
    requires NumbersOk(s.ports, s.portList) && Refs(s.ports, Members(s.portList)) && Counted(s)
    requires forall q <- s.portList :: q != p ==> s.ports[q].rxHeadroom == s.neededHeadroom
    ensures var t := s.(ports := s.ports[p := s.ports[p].(rxHeadroom := s.neededHeadroom)]);
      NumbersOk(t.ports, t.portList) && Refs(t.ports, Members(t.portList)) && Counted(t) && HeadroomOk(t)
  {
    var t := s.(ports := s.ports[p := s.ports[p].(rxHeadroom := s.neededHeadroom)]);
    assert SameLinks(s.ports, t.ports);
    SameLinksKeep(s.ports, t.ports, s.portList, Members(s.portList));
  }

  lemma LinkIsCounted(s: State, p: PortId, port: Port)
    requires Inv(s) && p !in s.portList && port.Auto()
    requires 1 <= port.portNo < BR_MAX_PORTS && port.portNo !in NumbersIn(s.ports, s.portList)
    requires port.backup == None && port.redirected == 0
    ensures var t := Recount(Link(s, p, port));
      && t.portList == [p] + s.portList && p in t.ports && t.ports.Keys == Members(t.portList)
      && NumbersOk(t.ports, t.portList) && Refs(t.ports, Members(t.portList)) && Counted(t)
      && t.neededHeadroom == s.neededHeadroom && IsMaxHeadroom(t.neededHeadroom, t.ports, s.portList)
      && (forall q <- s.portList :: t.ports[q].rxHeadroom == t.neededHeadroom)
  {
    var linked := Link(s, p, port);
    LinkKeepsRefs(s, p, port);
    LinkKeepsNumbers(s, p, port);
    LinkAddsAuto(s, p, port);
    assert p !in AutoPorts(s.ports, s.portList);
    RecountIsCounted(linked);
    RecountKeepsRest(linked);
    assert forall q <- s.portList :: q in Members(s.portList);
    MaxOfRest(s, linked, Recount(linked));
  }

  lemma AddedKeepsInv(s: State, p: PortId, port: Port, after: State)
    requires Inv(s) && p !in s.portList && port.Auto() && port.backup == None && port.redirected == 0
    requires 1 <= port.portNo < BR_MAX_PORTS && port.portNo !in NumbersIn(s.ports, s.portList)
    requires p in Recount(Link(s, p, port)).ports && after == RaiseHeadroom(Recount(Link(s, p, port)), p)
    ensures Inv(after)
  {
    LinkIsCounted(s, p, port);
    assert ([p] + s.portList)[1..] == s.portList;
    RaiseHeadroomIsMax(Recount(Link(s, p, port)), p);
  }

  lemma AddKeepsInv(s: State, p: PortId, dev: Device)
    requires Inv(s)
    ensures Inv(AddStep(s, p, dev).0)
  {
    var n := FirstFree(NumbersIn(s.ports, s.portList), 1);
    FirstFreeIsLeast(NumbersIn(s.ports, s.portList), 1);
    if Refusal(s, p, dev) == 0 && n < BR_MAX_PORTS {
      AddedKeepsInv(s, p, NewPort(n, dev.fwdHeadroom, dev.unicastFlt), AddStep(s, p, dev).0);
    }
  }

  lemma MaxOfRest(s: State, linked: State, counted: State)
    requires SameLinks(linked.ports, counted.ports)
    requires forall q <- s.portList :: q in s.ports && q in linked.ports && linked.ports[q] == s.ports[q]
    requires IsMaxHeadroom(s.neededHeadroom, s.ports, s.portList)
    ensures IsMaxHeadroom(s.neededHeadroom, counted.ports, s.portList)
  {
    if s.neededHeadroom != 0 {
      var q :| q in s.portList && q in s.ports && s.ports[q].fwdHeadroom == s.neededHeadroom;
      assert counted.ports[q].fwdHeadroom == s.neededHeadroom;
    }
  }

  // ---------- Deleting a port ----------

  lemma {:induction false} RemoveFromMembers(list: seq<PortId>, p: PortId)
    requires p in list && forall i, j :: 0 <= i < j < |list| ==> list[i] != list[j]
    ensures Members(RemoveFrom(list, p)) == Members(list) - {p}
    ensures forall q :: q in RemoveFrom(list, p) <==> q in list && q != p
    ensures |RemoveFrom(list, p)| == |list| - 1
    ensures forall i, j :: 0 <= i < j < |RemoveFrom(list, p)| ==> RemoveFrom(list, p)[i] != RemoveFrom(list, p)[j]
  {
    assert list == [list[0]] + list[1..];
    if list[0] != p {
      RemoveFromMembers(list[1..], p);
      var rest := RemoveFrom(list[1..], p);
      forall j | 0 <= j < |rest| ensures rest[j] != list[0] {
        assert rest[j] in rest;
      }
    }
  }

  lemma NumbersOkSub(ports: Ports, list: seq<PortId>, sub: seq<PortId>)
    requires NumbersOk(ports, list) && forall q <- sub :: q in list
    requires forall i, j :: 0 <= i < j < |sub| ==> sub[i] != sub[j]
    ensures NumbersOk(ports, sub)
  {
    forall i, j | 0 <= i < j < |sub| ensures ports[sub[i]].portNo != ports[sub[j]].portNo {
      assert sub[i] in list && sub[j] in list;
      var a :| 0 <= a < |list| && list[a] == sub[i];
      var b :| 0 <= b < |list| && list[b] == sub[j];
    }
  }

  /** When the largest port leaves the maximum is recomputed; when another leaves it stands. */
  lemma LoweredIsMax(s: State, p: PortId, list: seq<PortId>)
    requires HeadroomOk(s) && p in s.ports && p in s.portList && forall q <- s.portList :: q in s.ports
    requires forall q :: q in list <==> q in s.portList && q != p
    ensures s.ports[p].fwdHeadroom == s.neededHeadroom ==>
      IsMaxHeadroom(MaxHeadroom(s.ports, list), s.ports, list)
    ensures s.ports[p].fwdHeadroom != s.neededHeadroom ==> IsMaxHeadroom(s.neededHeadroom, s.ports, list)
  {
    MaxHeadroomIsMax(s.ports, list);
    if s.ports[p].fwdHeadroom != s.neededHeadroom && s.neededHeadroom != 0 {
      var q :| q in s.portList && q in s.ports && s.ports[q].fwdHeadroom == s.neededHeadroom;
      assert q in list;
    }
  }

  ghost predicate LinksCleared(before: Ports, after: Ports, p: PortId) {
    forall q <- after ::
      q in before && after[q].backup == if before[q].backup == Some(p) then None else before[q].backup
  }

  /** Only the link and the counter differ. */
  ghost predicate SameButLink(a: Port, b: Port) {
    a.(backup := b.backup, redirected := b.redirected) == b
  }

  ghost predicate SameButLinks(a: Ports, b: Ports) {
    a.Keys == b.Keys && forall q <- a :: SameButLink(a[q], b[q])
  }

  lemma SameButLinksTransitive(a: Ports, b: Ports, c: Ports)
    requires SameButLinks(a, b) && SameButLinks(b, c)
    ensures SameButLinks(a, c)
  {
    forall q | q in a ensures SameButLink(a[q], c[q]) {
      assert SameButLink(a[q], b[q]) && SameButLink(b[q], c[q]);
    }
  }

  lemma RedirectSame(ports: Ports, p: PortId, target: Option<PortId>)
    requires p in ports
    ensures SameButLinks(ports, Redirect(ports, p, target))
  {
    var one := AddToCount(ports, ports[p].backup, false);
    var two := AddToCount(one, target, true);
    assert SameButLinks(ports, one);
    assert SameButLinks(one, two);
    SameButLinksTransitive(ports, one, two);
    var three := two[p := two[p].(backup := target)];
    assert SameButLinks(two, three);
    SameButLinksTransitive(ports, two, three);
  }

  lemma {:induction false} DropLinksSame(ports: Ports, list: seq<PortId>, p: PortId)
    ensures SameButLinks(ports, DropLinks(ports, list, p))
  {
    if list != [] {
      DropLinksSame(ports, list[..|list| - 1], p);
      var before, cur := DropLinks(ports, list[..|list| - 1], p), list[|list| - 1];
      if cur in before && before[cur].backup == Some(p) {
        RedirectSame(before, cur, None);
        SameButLinksTransitive(ports, before, Redirect(before, cur, None));
      }
    }
  }

  lemma ClearBackupsSame(ports: Ports, list: seq<PortId>, p: PortId)
    requires p in ports
    ensures SameButLinks(ports, ClearBackups(ports, list, p))
  {
    RedirectSame(ports, p, None);
    var own := Redirect(ports, p, None);
    DropLinksSame(own, list, p);
    SameButLinksTransitive(ports, own, DropLinks(own, list, p));
  }

  lemma SameButLinksKeep(a: Ports, b: Ports, list: seq<PortId>)
    requires SameButLinks(a, b)
    ensures NumbersOk(a, list) ==> NumbersOk(b, list)
    ensures AutoPorts(a, list) == AutoPorts(b, list)
    ensures forall m :: IsMaxHeadroom(m, a, list) ==> IsMaxHeadroom(m, b, list)
  {
    forall m | IsMaxHeadroom(m, a, list) ensures IsMaxHeadroom(m, b, list) {
      if m != 0 {
        var q :| q in list && q in a && a[q].fwdHeadroom == m;
        assert b[q].fwdHeadroom == m;
      }
    }
  }

  lemma LoweredSame(s: State, p: PortId)
    requires p in s.ports
    ensures var t := Lowered(s, p);
      && SameLinks(s.ports, t.ports) && t.portList == s.portList && t.autoCnt == s.autoCnt && t.setAll == s.setAll
      && (forall q <- s.ports :: t.ports[q].promisc == s.ports[q].promisc)
  {
    SetHeadroomSameLinks(s, MaxHeadroom(s.ports, s.portList));
  }

  /** Headroom after the port has left the list. */
  lemma LoweredIsOk(s: State, p: PortId, left: State)
    requires Inv(s) && p in s.portList && left == s.(portList := RemoveFrom(s.portList, p))
    ensures var t := Lowered(left, p);
      && SameLinks(s.ports, t.ports) && t.portList == left.portList && t.autoCnt == s.autoCnt && t.setAll == s.setAll
      && (forall q <- s.ports :: t.ports[q].promisc == s.ports[q].promisc)
      && HeadroomOk(t)
  {
    assert forall q <- s.portList :: q in Members(s.portList);
    assert p in s.ports;
    LoweredSame(left, p);
    DistinctList(s);
    RemoveFromMembers(s.portList, p);
    LoweredIsMax(s, p, left.portList);
    SameLinksKeep(s.ports, Lowered(left, p).ports, left.portList, {});
  }

  lemma DistinctList(s: State)
    requires NumbersOk(s.ports, s.portList)
    ensures forall i, j :: 0 <= i < j < |s.portList| ==> s.portList[i] != s.portList[j]
  {
    forall i, j | 0 <= i < j < |s.portList| ensures s.portList[i] != s.portList[j] {
      assert s.ports[s.portList[i]].portNo != s.ports[s.portList[j]].portNo;
    }
  }

  /** Everything but the count, after headroom and links have been dealt with. */
  lemma ClearedLinks(s: State, p: PortId, t: State)
    requires Inv(s) && p in s.portList && t.portList == RemoveFrom(s.portList, p) && SameLinks(s.ports, t.ports)
    ensures p in t.ports
    ensures var ports := ClearBackups(t.ports, t.portList, p);
      && ports.Keys == s.ports.Keys && !Warns(ports, p)
      && Refs(ports, Members(t.portList)) && Members(t.portList) == Members(s.portList) - {p}
      && LinksCleared(s.ports, ports - {p}, p)
  {
    DistinctList(s);
    RemoveFromMembers(s.portList, p);
    AtMost1023(s.ports, s.portList);
    var all := Members(s.portList);
    assert p in all && Members(t.portList) == all - {p};
    SameLinksKeep(s.ports, t.ports, s.portList, all);
    ClearKeepsRefs(t.ports, t.portList, all, p);
  }

  lemma ClearedHeadroom(t: State, p: PortId)
    requires p in t.ports && HeadroomOk(t)
    ensures HeadroomOk(t.(ports := ClearBackups(t.ports, t.portList, p)))
  {
    var ports := ClearBackups(t.ports, t.portList, p);
    ClearBackupsSame(t.ports, t.portList, p);
    SameButLinksKeep(t.ports, ports, t.portList);
    forall q | q in t.portList ensures q in ports && ports[q].rxHeadroom == t.neededHeadroom {
      assert SameButLink(t.ports[q], ports[q]);
    }
  }

  lemma ClearedNumbers(s: State, p: PortId, t: State)
    requires Inv(s) && p in s.portList && p in t.ports && t.portList == RemoveFrom(s.portList, p)
    requires SameLinks(s.ports, t.ports)
    ensures NumbersOk(ClearBackups(t.ports, t.portList, p), t.portList)
  {
    DistinctList(s);
    RemoveFromMembers(s.portList, p);
    NumbersOkSub(s.ports, s.portList, t.portList);
    SameLinksKeep(s.ports, t.ports, t.portList, {});
    ClearBackupsSame(t.ports, t.portList, p);
    SameButLinksKeep(t.ports, ClearBackups(t.ports, t.portList, p), t.portList);
  }

  lemma DropFreed(s: State, p: PortId)
    requires p in s.ports && p !in s.portList && s.ports.Keys == Members(s.portList) + {p}
    requires NumbersOk(s.ports, s.portList) && Refs(s.ports, Members(s.portList)) && Counted(s) && HeadroomOk(s)
    ensures Inv(s.(ports := s.ports - {p}))
  {
    var t := s.(ports := s.ports - {p});
    var all := Members(s.portList);
    forall q | q in all ensures RefOk(t.ports, all, q) {
      assert RefOk(s.ports, all, q);
      assert Backers(t.ports, all, q) == Backers(s.ports, all, q);
    }
    assert AutoPorts(t.ports, t.portList) == AutoPorts(s.ports, s.portList);
    if s.neededHeadroom != 0 {
      var q :| q in s.portList && q in s.ports && s.ports[q].fwdHeadroom == s.neededHeadroom;
      assert q in t.ports;
    }
  }

  /** The fields that the promiscuity rule looks at. */
  ghost predicate SamePromisc(a: Port, b: Port) {
    a.promisc == b.promisc && a.Auto() == b.Auto() && a.unicastFlt == b.unicastFlt
  }

  /** Recounting when the listed ports are among those that obeyed the rule under the present count. */
  lemma RecountRestores(s: State, c: State)
    requires Counted(s) && c.autoCnt == s.autoCnt && c.setAll == s.setAll
    requires forall q <- c.portList ::
      q in s.portList && q in s.ports && q in c.ports && SamePromisc(s.ports[q], c.ports[q])
    ensures Counted(Recount(c))
  {
    forall q | q in c.portList ensures PromiscOk(c.ports[q], s.setAll, s.autoCnt) {
      assert PromiscOk(s.ports[q], s.setAll, s.autoCnt);
    }
    RecountIsCounted(c);
  }

  lemma DeleteRecounts(s: State, p: PortId, t: State, c: State)
    requires Inv(s) && p in s.portList && p in t.ports && t.portList == RemoveFrom(s.portList, p)
    requires SameLinks(s.ports, t.ports) && t.autoCnt == s.autoCnt && t.setAll == s.setAll
    requires forall q <- s.ports :: t.ports[q].promisc == s.ports[q].promisc
    requires c == t.(ports := ClearBackups(t.ports, t.portList, p))
    ensures Counted(Recount(c))
  {
    DistinctList(s);
    RemoveFromMembers(s.portList, p);
    ClearBackupsSame(t.ports, t.portList, p);
    forall q | q in c.portList
      ensures q in s.portList && q in s.ports && q in c.ports && SamePromisc(s.ports[q], c.ports[q])
    {
      assert q in Members(s.portList);
      assert SameButLink(t.ports[q], c.ports[q]);
    }
    RecountRestores(s, c);
  }

  lemma DeleteKeepsInv(s: State, p: PortId)
    requires Inv(s) && p in s.portList && p in s.ports
    ensures var t := DeleteStep(s, p).0;
      && Inv(t) && t.portList == RemoveFrom(s.portList, p) && LinksCleared(s.ports, t.ports, p)
    ensures var list := RemoveFrom(s.portList, p);
            !Warns(ClearBackups(Lowered(s.(portList := list), p).ports, list, p), p)
  {
    var left := s.(portList := RemoveFrom(s.portList, p));
    LoweredIsOk(s, p, left);
    var t := Lowered(left, p);
    ClearedLinks(s, p, t);
    ClearedHeadroom(t, p);
    ClearedNumbers(s, p, t);
    var c := t.(ports := ClearBackups(t.ports, t.portList, p));
    DeleteRecounts(s, p, t, c);
    RecountKeepsRest(c);
    DeleteFinish(s, p, c, Recount(c));
  }

  /** Freeing the record of the deleted port. */
  lemma DeleteFinish(s: State, p: PortId, c: State, r: State)
    requires s.ports.Keys == Members(s.portList) && p in s.portList && c.ports.Keys == s.ports.Keys
    requires Members(c.portList) == Members(s.portList) - {p} && LinksCleared(s.ports, c.ports - {p}, p)
    requires r.portList == c.portList && SameLinks(c.ports, r.ports)
    requires NumbersOk(r.ports, r.portList) && Refs(r.ports, Members(r.portList)) && Counted(r) && HeadroomOk(r)
    ensures Inv(r.(ports := r.ports - {p})) && LinksCleared(s.ports, r.ports - {p}, p)
  {
    assert p in Members(s.portList);
    assert p !in Members(r.portList);
    DropFreed(r, p);
    assert forall q <- r.ports - {p} :: q in c.ports - {p};
  }

  // ---------- Changing flags and backups ----------

  /** Two ports that agree on number, link and counter. */
  ghost predicate SameIdentity(a: Port, b: Port) {
    a.portNo == b.portNo && a.backup == b.backup && a.redirected == b.redirected
  }

  lemma SameIdentityKeeps(a: Ports, b: Ports, list: seq<PortId>)
    requires a.Keys == b.Keys && forall q <- a :: SameIdentity(a[q], b[q])
    requires NumbersOk(a, list) && Refs(a, Members(list))
    ensures NumbersOk(b, list) && Refs(b, Members(list))
  {
    var all := Members(list);
    forall q | q in all ensures RefOk(b, all, q) {
      assert RefOk(a, all, q);
      assert Backers(b, all, q) == Backers(a, all, q);
    }
  }

  lemma ChangeFlagsKeepsInv(s: State, p: PortId, learning: bool, flood: bool)
    requires Inv(s) && p in s.portList
    ensures Inv(ChangeFlagsStep(s, p, learning, flood).0)
  {
    assert p in Members(s.portList);
    var port := s.ports[p].(learning := learning, flood := flood);
    var t := s.(ports := s.ports[p := port]);
    SameIdentityKeeps(s.ports, t.ports, s.portList);
    FlagsKeepHeadroom(s, t, p);
    FlagsRecount(s, p, port, t);
    RecountKeepsRest(t);
  }

  lemma FlagsRecount(s: State, p: PortId, port: Port, t: State)
    requires Counted(s) && p in s.portList
    requires port.promisc == s.ports[p].promisc && port.unicastFlt == s.ports[p].unicastFlt
    requires t == s.(ports := s.ports[p := port])
    ensures Counted(Recount(t))
    ensures port.Auto() == s.ports[p].Auto() ==> Counted(t)
  {
    if port.Auto() == s.ports[p].Auto() {
      assert AutoPorts(t.ports, t.portList) == AutoPorts(s.ports, s.portList);
      RecountRestores(s, t);
    } else {
      FlagsChangeCount(s.ports, s.portList, p, port);
      RecountIsCounted(t);
    }
  }

  lemma FlagsChangeCount(ports: Ports, list: seq<PortId>, p: PortId, port: Port)
    requires p in list && p in ports && port.Auto() != ports[p].Auto()
    ensures |AutoPorts(ports[p := port], list)| != |AutoPorts(ports, list)|
  {
    var before, after := AutoPorts(ports, list), AutoPorts(ports[p := port], list);
    if port.Auto() {
      assert after == before + {p} && p !in before;
    } else {
      assert after == before - {p} && p in before;
    }
  }

  lemma FlagsKeepHeadroom(s: State, t: State, p: PortId)
    requires HeadroomOk(s)
    requires t.neededHeadroom == s.neededHeadroom && t.portList == s.portList && s.ports.Keys == t.ports.Keys
    requires forall q <- s.ports ::
      t.ports[q].fwdHeadroom == s.ports[q].fwdHeadroom && t.ports[q].rxHeadroom == s.ports[q].rxHeadroom
    ensures HeadroomOk(t)
  {
    if s.neededHeadroom != 0 {
      var q :| q in s.portList && q in s.ports && s.ports[q].fwdHeadroom == s.neededHeadroom;
      assert q in t.ports;
    }
  }

  /** A link changes exactly when the device is no port's own and belongs to this bridge, or is none. */
  lemma ChangeBackupKeepsInv(s: State, p: PortId, device: BackupDevice)
    requires Inv(s) && p in s.portList
    ensures var (t, err) := ChangeBackupStep(s, p, device);
      && Inv(t) && p in s.ports && p in t.ports
      && (err != 0 <==> device.NotABridgePort? || (device.PortOf? && (device.port !in s.portList || device.port == p)))
      && (err != 0 ==> t == s)
      && (err == 0 ==> t.ports[p].backup == if device.PortOf? then Some(device.port) else None)
      && (forall q <- s.portList :: q != p ==> q in s.ports && q in t.ports && t.ports[q].backup == s.ports[q].backup)
  {
    AtMost1023(s.ports, s.portList);
    var all := Members(s.portList);
    assert p in all;
    var (t, err) := ChangeBackupStep(s, p, device);
    if err == 0 {
      var target := if device.PortOf? then Some(device.port) else None;
      RedirectKeepsRefs(s.ports, all, p, target);
      RedirectSame(s.ports, p, target);
      SameButLinksKeep(s.ports, t.ports, s.portList);
      assert forall q <- s.portList :: q in all;
      forall q | q in s.portList ensures PromiscOk(t.ports[q], s.setAll, s.autoCnt) {
        assert PromiscOk(s.ports[q], s.setAll, s.autoCnt) && SameButLink(s.ports[q], t.ports[q]);
      }
    }
    assert forall q <- s.portList :: q in s.ports;
  }

  // ---------- Every run ----------

  function Start(setAll: bool): State { State(map[], [], 0, 0, setAll) }

  ghost function Run(setAll: bool, events: seq<Event>): (s: State)
    ensures Inv(s)
    decreases |events|
  {
    if events == [] then Start(setAll)
    else
      var before := Run(setAll, events[..|events| - 1]);
      StepKeepsInv(before, events[|events| - 1]);
      Step(before, events[|events| - 1]).0
  }

  lemma StepKeepsInv(s: State, e: Event)
    requires Inv(s)
    ensures forall q <- s.portList :: q in s.ports
    ensures Inv(Step(s, e).0)
  {
    assert forall q <- s.portList :: q in Members(s.portList);
    match e
    case Add(p, dev) => AddKeepsInv(s, p, dev);
    case Delete(p) => DeleteStepKeepsInv(s, p);
    case ChangeBackup(p, device) => ChangeBackupStepKeepsInv(s, p, device);
    case ChangeFlags(p, learning, flood) => if p in s.portList { ChangeFlagsKeepsInv(s, p, learning, flood); }
  }

  lemma DeleteStepKeepsInv(s: State, p: PortId)
    requires Inv(s)
    ensures Inv(DeleteStep(s, p).0)
  {
    if p in s.portList && p in s.ports { DeleteKeepsInv(s, p); }
  }

  lemma ChangeBackupStepKeepsInv(s: State, p: PortId, device: BackupDevice)
    requires Inv(s)
    ensures Inv(ChangeBackupStep(s, p, device).0)
  {
    if p in s.portList { ChangeBackupKeepsInv(s, p, device); }
  }

  /** In every run each counter is the number of links to its port, below 1023, and no port backs itself. */
  lemma EveryRunCountsLinks(setAll: bool, events: seq<Event>, q: PortId)
    requires q in Run(setAll, events).portList
    ensures var s := Run(setAll, events);
      && q in s.ports && s.ports[q].backup != Some(q)
      && (s.ports[q].backup.Some? ==> s.ports[q].backup.value in s.portList)
      && s.ports[q].redirected == |set r <- s.portList | r in s.ports && s.ports[r].backup == Some(q)| < 1023
  {
    var s := Run(setAll, events);
    AtMost1023(s.ports, s.portList);
    var all := Members(s.portList);
    assert q in all && RefOk(s.ports, all, q);
    var backers := set r <- s.portList | r in s.ports && s.ports[r].backup == Some(q);
    assert backers == Backers(s.ports, all, q);
    assert backers <= all - {q};
    SubsetSize(backers, all - {q});
  }

  /** In every run the derived values are what a recomputation from the ports would give. */
  lemma EveryRunIsDerived(setAll: bool, events: seq<Event>, q: PortId)
    requires q in Run(setAll, events).portList
    ensures var s := Run(setAll, events);
      && q in s.ports
      && s.autoCnt == |set r <- s.portList | r in s.ports && (s.ports[r].learning || s.ports[r].flood)|
      && (s.setAll || s.autoCnt > 1 || (s.autoCnt == 1 && !s.ports[q].learning && !s.ports[q].flood) ==>
            s.ports[q].promisc)
      && (!s.setAll && s.ports[q].unicastFlt
          && (s.autoCnt == 0 || (s.autoCnt == 1 && (s.ports[q].learning || s.ports[q].flood))) ==>
            !s.ports[q].promisc)
      && s.ports[q].fwdHeadroom <= s.neededHeadroom == s.ports[q].rxHeadroom == MaxHeadroom(s.ports, s.portList)
  {
    var s := Run(setAll, events);
    assert AutoPorts(s.ports, s.portList) ==
      set r <- s.portList | r in s.ports && (s.ports[r].learning || s.ports[r].flood);
    assert forall r <- s.portList :: r in s.ports;
    MaxHeadroomIsMax(s.ports, s.portList);
    OneMaximum(s.neededHeadroom, MaxHeadroom(s.ports, s.portList), s.ports, s.portList);
    assert PromiscOk(s.ports[q], s.setAll, s.autoCnt);
  }

  lemma OneMaximum(m: nat, n: nat, ports: Ports, list: seq<PortId>)
    requires IsMaxHeadroom(m, ports, list) && IsMaxHeadroom(n, ports, list)
    ensures m == n
  {
  }

  /** In every run a fitting device that is no port yet can be added unless 1023 ports are there. */
  lemma AddSucceedsIff(setAll: bool, events: seq<Event>, p: PortId, dev: Device)
    ensures var s := Run(setAll, events);
      && (forall q <- s.portList :: q in s.ports)
      && (AddStep(s, p, dev).1 == 0 <==> dev.Bridgeable() && p !in s.portList && |s.portList| < 1023)
      && (AddStep(s, p, dev).1 == -EXFULL <==> dev.Bridgeable() && p !in s.portList && |s.portList| == 1023)
      && (AddStep(s, p, dev).1 != 0 ==> AddStep(s, p, dev).0 == s)
  {
    var s := Run(setAll, events);
    AtMost1023(s.ports, s.portList);
    FirstFreeIsLeast(NumbersIn(s.ports, s.portList), 1);
  }

  // ---------- What each operation does ----------

  /** A port of which at most promiscuity and headroom, the derived values, have changed. */
  ghost predicate SameButDerived(a: Port, b: Port) {
    && a.portNo == b.portNo && a.fwdHeadroom == b.fwdHeadroom && a.unicastFlt == b.unicastFlt
    && a.learning == b.learning && a.flood == b.flood && a.backup == b.backup && a.redirected == b.redirected
  }

  lemma RecountEffect(s: State)
    ensures var t := Recount(s);
      && t.ports.Keys == s.ports.Keys && (forall q <- s.ports :: SameButDerived(s.ports[q], t.ports[q]))
      && t.portList == s.portList && t.setAll == s.setAll && t.neededHeadroom == s.neededHeadroom
  {
  }

  lemma RaiseHeadroomEffect(s: State, p: PortId)
    requires p in s.ports
    ensures var t := RaiseHeadroom(s, p);
      && t.ports.Keys == s.ports.Keys && (forall q <- s.ports :: SameButDerived(s.ports[q], t.ports[q]))
      && t.portList == s.portList && t.setAll == s.setAll && t.autoCnt == s.autoCnt
      && t.neededHeadroom ==
           if s.neededHeadroom < s.ports[p].fwdHeadroom then s.ports[p].fwdHeadroom else s.neededHeadroom
  {
  }

  lemma JoinCounts(s: State, p: PortId, port: Port)
    requires Counted(s) && s.ports.Keys == Members(s.portList) && p !in s.portList && port.Auto()
    ensures Recount(Link(s, p, port)).autoCnt == s.autoCnt + 1
  {
    LinkAddsAuto(s, p, port);
    assert p !in AutoPorts(s.ports, s.portList);
  }

  lemma JoinEffect(s: State, p: PortId, port: Port, t: State)
    requires s.ports.Keys == Members(s.portList) && p !in s.portList
    requires p in Recount(Link(s, p, port)).ports && t == RaiseHeadroom(Recount(Link(s, p, port)), p)
    ensures t.portList == [p] + s.portList && t.setAll == s.setAll && p in t.ports && SameButDerived(port, t.ports[p])
    ensures forall q <- s.portList :: q in s.ports && q in t.ports && SameButDerived(s.ports[q], t.ports[q])
    ensures t.neededHeadroom == if s.neededHeadroom < port.fwdHeadroom then port.fwdHeadroom else s.neededHeadroom
    ensures t.autoCnt == Recount(Link(s, p, port)).autoCnt
  {
    assert forall q <- s.portList :: q in Members(s.portList);
    RecountEffect(Link(s, p, port));
    RaiseHeadroomEffect(Recount(Link(s, p, port)), p);
  }

  ghost predicate Taken(ports: Ports, list: seq<PortId>, n: nat) {
    exists q <- list :: q in ports && ports[q].portNo == n
  }

  /** A free number, and the least. */
  ghost predicate LeastFree(ports: Ports, list: seq<PortId>, n: nat) {
    && 1 <= n <= 1023
    && !Taken(ports, list, n)
    && (forall m :: 1 <= m < n ==> Taken(ports, list, m))
  }

  lemma FirstFreeIsLeastFree(s: State, n: nat)
    requires forall q <- s.portList :: q in s.ports
    requires n == FirstFree(NumbersIn(s.ports, s.portList), 1) < BR_MAX_PORTS
    ensures LeastFree(s.ports, s.portList, n)
  {
    var used := NumbersIn(s.ports, s.portList);
    FirstFreeIsLeast(used, 1);
    forall m: nat ensures Taken(s.ports, s.portList, m) <==> m in used {}
  }

  lemma LeastFreeIs(ports: Ports, list: seq<PortId>, n: nat, m: nat)
    requires LeastFree(ports, list, n) && LeastFree(ports, list, m)
    ensures n == m
  {
  }

  /**
    The device has become the first port of the list, with the least free number, its own headroom and
    filter, learning and flooding on, and no backup; every other port stays as it was.
   */
  ghost predicate Added(s: State, p: PortId, dev: Device, t: State) {
    && t.portList == [p] + s.portList && t.setAll == s.setAll && p in t.ports
    && LeastFree(s.ports, s.portList, t.ports[p].portNo)
    && t.ports[p].fwdHeadroom == dev.fwdHeadroom && t.ports[p].unicastFlt == dev.unicastFlt
    && t.ports[p].learning && t.ports[p].flood && t.ports[p].backup == None && t.ports[p].redirected == 0
    && (forall q <- s.portList :: q in s.ports && q in t.ports && SameButDerived(s.ports[q], t.ports[q]))
    && t.autoCnt == s.autoCnt + 1
    && t.neededHeadroom == if s.neededHeadroom < dev.fwdHeadroom then dev.fwdHeadroom else s.neededHeadroom
  }

  /** An accepted device is added; a refusal changes nothing, and its code names the first check that failed. */
  lemma AddEffect(s: State, p: PortId, dev: Device)
    requires Inv(s)
    ensures forall q <- s.portList :: q in s.ports
    ensures var (t, err) := Step(s, Add(p, dev));
      && (err != 0 ==> t == s) && (err == 0 ==> Added(s, p, dev, t))
      && (err == -22 <==> !dev.ethernet)
      && (err == -40 <==> dev.ethernet && dev.isBridge)
      && (err == -16 <==> dev.ethernet && !dev.isBridge && (dev.otherMaster || p in s.portList))
      && (err == -95 <==> dev.ethernet && !dev.isBridge && !dev.otherMaster && p !in s.portList && dev.dontBridge)
  {
    assert forall q <- s.portList :: q in Members(s.portList);
    var n := FirstFree(NumbersIn(s.ports, s.portList), 1);
    FirstFreeIsLeast(NumbersIn(s.ports, s.portList), 1);
    if Refusal(s, p, dev) == 0 && n < BR_MAX_PORTS {
      FirstFreeIsLeastFree(s, n);
      var port := NewPort(n, dev.fwdHeadroom, dev.unicastFlt);
      JoinCounts(s, p, port);
      JoinEffect(s, p, port, AddStep(s, p, dev).0);
    }
  }

  lemma {:induction false} RemoveFromAt(list: seq<PortId>, p: PortId) returns (i: nat)
    requires p in list
    ensures i < |list| && list[i] == p && RemoveFrom(list, p) == list[..i] + list[i + 1..]
  {
    if list[0] == p {
      i := 0;
    } else {
      i := RemoveFromAt(list[1..], p);
      assert list[1..][..i] == list[1..i + 1] && list[1..][i + 1..] == list[i + 2..];
      i := i + 1;
    }
  }

  /** Number, device and flags. */
  ghost predicate SameIdentityOf(a: Port, b: Port) {
    && a.portNo == b.portNo && a.fwdHeadroom == b.fwdHeadroom && a.unicastFlt == b.unicastFlt
    && a.learning == b.learning && a.flood == b.flood
  }

  lemma UnlinkEffect(s: State, p: PortId, q: PortId)
    requires p in s.ports && q in s.ports && q != p
    ensures q in Unlink(s, p).ports && SameIdentityOf(s.ports[q], Unlink(s, p).ports[q])
  {
    var lowered := Lowered(s, p);
    LoweredSame(s, p);
    var cleared := lowered.(ports := ClearBackups(lowered.ports, s.portList, p));
    ClearBackupsSame(lowered.ports, s.portList, p);
    assert SameButLink(lowered.ports[q], cleared.ports[q]);
    RecountEffect(cleared);
    assert SameButDerived(cleared.ports[q], Recount(cleared).ports[q]);
  }

  /** A deleted port is gone, and no other; the others keep number, device and flags, and lose links to it only. */
  lemma DeleteEffect(s: State, p: PortId) returns (i: nat)
    requires Inv(s)
    ensures forall q <- s.portList :: q in s.ports
    ensures var (t, err) := Step(s, Delete(p));
      && (err == 0 <==> p in s.portList) && (err != 0 ==> t == s)
      && (err == 0 ==>
            && i < |s.portList| && s.portList[i] == p && t.portList == s.portList[..i] + s.portList[i + 1..]
            && t.setAll == s.setAll && p !in t.portList && p !in t.ports
            && forall q <- t.portList :: q in s.ports && q in t.ports && SameIdentityOf(s.ports[q], t.ports[q])
                 && t.ports[q].backup == if s.ports[q].backup == Some(p) then None else s.ports[q].backup)
  {
    assert forall q <- s.portList :: q in Members(s.portList);
    i := 0;
    if p in s.portList {
      i := RemoveFromAt(s.portList, p);
      DistinctList(s);
      RemoveFromMembers(s.portList, p);
      DeleteKeepsInv(s, p);
      var t := DeleteStep(s, p).0;
      forall q | q in t.portList ensures q in s.ports && q in t.ports && SameIdentityOf(s.ports[q], t.ports[q]) {
        assert q in Members(t.portList);
        UnlinkEffect(s.(portList := RemoveFrom(s.portList, p)), p, q);
      }
      UnlinkDrops(s, p);
    }
  }

  lemma UnlinkDrops(s: State, p: PortId)
    requires p in s.ports && p in s.portList
    ensures p !in DeleteStep(s, p).0.ports && DeleteStep(s, p).0.setAll == s.setAll
  {
    var left := s.(portList := RemoveFrom(s.portList, p));
    LoweredSame(left, p);
    RecountEffect(Lowered(left, p).(ports := ClearBackups(Lowered(left, p).ports, left.portList, p)));
  }

  /** The flags of a listed port take the values given; nothing else changes but derived values. */
  lemma ChangeFlagsEffect(s: State, p: PortId, learning: bool, flood: bool)
    requires Inv(s)
    ensures forall q <- s.portList :: q in s.ports
    ensures var (t, err) := Step(s, ChangeFlags(p, learning, flood));
      && (err == 0 <==> p in s.portList) && (err != 0 ==> t == s)
      && t.portList == s.portList && t.setAll == s.setAll && t.neededHeadroom == s.neededHeadroom
      && t.ports.Keys == s.ports.Keys
      && (err == 0 ==> p in t.ports && SameButDerived(s.ports[p].(learning := learning, flood := flood), t.ports[p]))
      && forall q <- s.ports :: q != p ==> SameButDerived(s.ports[q], t.ports[q])
  {
    assert forall q <- s.portList :: q in Members(s.portList);
    if p in s.portList {
      FlagsEffect(s, p, s.ports[p].(learning := learning, flood := flood));
    }
  }

  lemma FlagsEffect(s: State, p: PortId, port: Port)
    requires p in s.ports
    ensures forall t <- [s.(ports := s.ports[p := port]), Recount(s.(ports := s.ports[p := port]))] ::
      && t.portList == s.portList && t.setAll == s.setAll && t.neededHeadroom == s.neededHeadroom
      && t.ports.Keys == s.ports.Keys && SameButDerived(port, t.ports[p])
      && forall q <- s.ports :: q != p ==> SameButDerived(s.ports[q], t.ports[q])
  {
    RecountEffect(s.(ports := s.ports[p := port]));
  }

  /** A change of backup touches links and counters only, and fails with the code of its cause. */
  lemma ChangeBackupEffect(s: State, p: PortId, device: BackupDevice)
    requires Inv(s)
    ensures forall q <- s.portList :: q in s.ports
    ensures var (t, err) := Step(s, ChangeBackup(p, device));
      && t == s.(ports := t.ports) && SameButLinks(s.ports, t.ports)
      && (err == -2 <==> p in s.portList && device.NotABridgePort?)
      && (err == -22 <==>
            p !in s.portList || (device.PortOf? && (device.port !in s.portList || device.port == p)))
  {
    assert forall q <- s.portList :: q in Members(s.portList);
    if p in s.ports {
      RedirectSame(s.ports, p, if device.PortOf? then Some(device.port) else None);
    }
  }

  lemma NextState(setAll: bool, events: seq<Event>, e: Event)
    ensures forall q <- Run(setAll, events).portList :: q in Run(setAll, events).ports
    ensures Run(setAll, events + [e]) == Step(Run(setAll, events), e).0
  {
    assert (events + [e])[..|events|] == events;
    assert forall q <- Run(setAll, events).portList :: q in Members(Run(setAll, events).portList);
  }

  /** Promiscuity goes on only by the rule, and off only on a device that can filter. */
  ghost predicate PromiscMoved(a: Port, b: Port, t: State) {
    && a.unicastFlt == b.unicastFlt
    && (!a.promisc && b.promisc ==> WantsPromisc(t.setAll, t.autoCnt, b.Auto()))
    && (a.promisc && !b.promisc ==> b.unicastFlt)
  }

  lemma RecountMoves(a: Port, s: State, q: PortId)
    requires q in s.portList && q in s.ports
    requires a.promisc == s.ports[q].promisc && a.unicastFlt == s.ports[q].unicastFlt
    ensures q in Recount(s).ports && PromiscMoved(a, Recount(s).ports[q], Recount(s))
  {
  }

  lemma RaiseHeadroomMoves(a: Port, s: State, p: PortId, q: PortId)
    requires p in s.ports && q in s.ports && PromiscMoved(a, s.ports[q], s)
    ensures q in RaiseHeadroom(s, p).ports && PromiscMoved(a, RaiseHeadroom(s, p).ports[q], RaiseHeadroom(s, p))
  {
  }

  lemma JoinMoves(s: State, p: PortId, port: Port, q: PortId)
    requires q in s.portList && q in s.ports && q != p
    ensures var r := Recount(Link(s, p, port));
      && p in r.ports && q in RaiseHeadroom(r, p).ports
      && PromiscMoved(s.ports[q], RaiseHeadroom(r, p).ports[q], RaiseHeadroom(r, p))
  {
    RecountMoves(s.ports[q], Link(s, p, port), q);
    RecountEffect(Link(s, p, port));
    RaiseHeadroomMoves(s.ports[q], Recount(Link(s, p, port)), p, q);
  }

  lemma AddMoves(s: State, p: PortId, dev: Device, q: PortId)
    requires q in s.portList && forall r <- s.portList :: r in s.ports
    ensures var t := AddStep(s, p, dev).0;
      q in t.ports && PromiscMoved(s.ports[q], t.ports[q], t)
  {
    var n := FirstFree(NumbersIn(s.ports, s.portList), 1);
    if Refusal(s, p, dev) == 0 && n < BR_MAX_PORTS {
      JoinMoves(s, p, NewPort(n, dev.fwdHeadroom, dev.unicastFlt), q);
    }
  }

  lemma UnlinkMoves(s: State, p: PortId, q: PortId)
    requires p in s.ports && q in s.ports && q != p && q in s.portList
    ensures q in Unlink(s, p).ports && PromiscMoved(s.ports[q], Unlink(s, p).ports[q], Unlink(s, p))
  {
    var lowered := Lowered(s, p);
    LoweredSame(s, p);
    var cleared := lowered.(ports := ClearBackups(lowered.ports, s.portList, p));
    ClearBackupsSame(lowered.ports, s.portList, p);
    assert SameButLink(lowered.ports[q], cleared.ports[q]);
    RecountMoves(s.ports[q], cleared, q);
  }

  lemma FlagsMove(s: State, p: PortId, learning: bool, flood: bool, q: PortId)
    requires q in s.portList && q in s.ports
    ensures var t := ChangeFlagsStep(s, p, learning, flood).0;
      q in t.ports && PromiscMoved(s.ports[q], t.ports[q], t)
  {
    if p in s.portList && p in s.ports {
      var port := s.ports[p].(learning := learning, flood := flood);
      RecountMoves(s.ports[q], s.(ports := s.ports[p := port]), q);
    }
  }

  lemma BackupMoves(s: State, p: PortId, device: BackupDevice, q: PortId)
    requires q in s.ports
    ensures var t := ChangeBackupStep(s, p, device).0;
      q in t.ports && PromiscMoved(s.ports[q], t.ports[q], t)
  {
    if p in s.portList && p in s.ports {
      var target := if device.PortOf? then Some(device.port) else None;
      RedirectSame(s.ports, p, target);
      assert SameButLink(s.ports[q], Redirect(s.ports, p, target)[q]);
    }
  }

  lemma StepMoves(s: State, e: Event, q: PortId)
    requires Inv(s) && q in s.portList && q in s.ports && forall r <- s.portList :: r in s.ports
    ensures var t := Step(s, e).0;
      q in t.portList ==> q in t.ports && PromiscMoved(s.ports[q], t.ports[q], t)
  {
    match e
    case Add(p, dev) => AddMoves(s, p, dev, q);
    case Delete(p) =>
      if p in s.portList {
        var left := s.(portList := RemoveFrom(s.portList, p));
        DistinctList(s);
        RemoveFromMembers(s.portList, p);
        if q in left.portList {
          assert q in Members(left.portList);
          UnlinkMoves(left, p, q);
        }
        UnlinkKeepsList(left, p);
      }
    case ChangeBackup(p, device) => BackupMoves(s, p, device, q);
    case ChangeFlags(p, learning, flood) => FlagsMove(s, p, learning, flood, q);
  }

  lemma UnlinkKeepsList(s: State, p: PortId)
    requires p in s.ports
    ensures Unlink(s, p).portList == s.portList
  {
    LoweredSame(s, p);
    RecountEffect(Lowered(s, p).(ports := ClearBackups(Lowered(s, p).ports, s.portList, p)));
  }

  /**
    After every operation a port is promiscuous exactly if the rule asks for it, or it was before and its
    device cannot filter unicast.
   */
  lemma PromiscExact(s: State, e: Event, q: PortId)
    requires Inv(s)
    ensures forall r <- s.portList :: r in s.ports
    ensures var t := Step(s, e).0;
      q in s.portList && q in t.portList ==>
        && q in t.ports
        && (t.ports[q].promisc <==>
              || t.setAll || t.autoCnt > 1 || (t.autoCnt == 1 && !t.ports[q].learning && !t.ports[q].flood)
              || (s.ports[q].promisc && !s.ports[q].unicastFlt))
  {
    StepKeepsInv(s, e);
    var t := Step(s, e).0;
    if q in s.portList && q in t.portList {
      StepMoves(s, e, q);
      assert PromiscOk(t.ports[q], t.setAll, t.autoCnt);
    }
  }

  /** One more port, as a step of a run. */
  lemma AddOne(setAll: bool, events: seq<Event>, p: PortId, dev: Device)
    requires dev.Bridgeable() && p !in Run(setAll, events).portList && |Run(setAll, events).portList| < 1023
    ensures Added(Run(setAll, events), p, dev, Run(setAll, events + [Add(p, dev)]))
  {
    NextState(setAll, events, Add(p, dev));
    AddEffect(Run(setAll, events), p, dev);
    AddSucceedsIff(setAll, events, p, dev);
  }

  lemma FirstIsOne(s: State, p: PortId, dev: Device, t: State)
    requires s.portList == [] && Added(s, p, dev, t)
    ensures t.portList == [p] && t.ports[p].portNo == 1
  {
    assert LeastFree(s.ports, s.portList, 1);
    LeastFreeIs(s.ports, s.portList, t.ports[p].portNo, 1);
  }

  lemma SecondIsTwo(s: State, p: PortId, q: PortId, dev: Device, t: State)
    requires s.portList == [p] && p in s.ports && s.ports[p].portNo == 1 && Added(s, q, dev, t)
    ensures t.portList == [q, p] && p in t.ports && t.ports[p].portNo == 1 && t.ports[q].portNo == 2
  {
    assert Taken(s.ports, s.portList, 1);
    assert LeastFree(s.ports, s.portList, 2);
    LeastFreeIs(s.ports, s.portList, t.ports[q].portNo, 2);
  }

  /** A run that holds two ports. */
  lemma TwoPortsRun(setAll: bool, p: PortId, q: PortId, dev: Device)
    requires p != q && dev.Bridgeable()
    ensures var s := Run(setAll, [] + [Add(p, dev)] + [Add(q, dev)]);
      s.portList == [q, p] && p in s.ports && q in s.ports && s.ports[p].portNo == 1 && s.ports[q].portNo == 2
  {
    var e1 := [] + [Add(p, dev)];
    assert Run(setAll, []) == Start(setAll);
    AddOne(setAll, [], p, dev);
    FirstIsOne(Run(setAll, []), p, dev, Run(setAll, e1));
    AddOne(setAll, e1, q, dev);
    SecondIsTwo(Run(setAll, e1), p, q, dev, Run(setAll, e1 + [Add(q, dev)]));
  }

  lemma OneBacker(s: State, p: PortId, q: PortId)
    requires Inv(s) && s.portList == [q, p] && p in s.ports && s.ports[p].backup == Some(q)
    ensures q in s.ports && s.ports[q].redirected == 1
  {
    assert p in Members(s.portList) && q in Members(s.portList);
    assert RefOk(s.ports, Members(s.portList), q);
    assert Backers(s.ports, Members(s.portList), q) == {p};
  }

  /** And then backs one by the other. */
  lemma BackedPortRun(setAll: bool, p: PortId, q: PortId, dev: Device)
    requires p != q && dev.Bridgeable()
    ensures var s := Run(setAll, [] + [Add(p, dev)] + [Add(q, dev)] + [ChangeBackup(p, PortOf(q))]);
      p in s.ports && q in s.ports && s.ports[p].backup == Some(q) && s.ports[q].redirected == 1
  {
    TwoPortsRun(setAll, p, q, dev);
    var events := [] + [Add(p, dev)] + [Add(q, dev)];
    NextState(setAll, events, ChangeBackup(p, PortOf(q)));
    ChangeBackupKeepsInv(Run(setAll, events), p, PortOf(q));
    OneBacker(Run(setAll, events + [ChangeBackup(p, PortOf(q))]), p, q);
  }
}
