/** The bridge as an object: its operations walk the port list and change the port records step by step. */
module BridgeDevice {
  import opened Wrappers
  import opened Bridge

  class NetBridge {
    const setAll: bool
    var ports: Ports
    var portList: seq<PortId>
    var autoCnt: nat
    var neededHeadroom: nat

    ghost function View(): State
      reads this
    {
      State(ports, portList, autoCnt, neededHeadroom, setAll)
    }

    ghost predicate Valid()
      reads this
    {
      Inv(View())
    }

    constructor (setAll: bool)
      ensures Valid() && View() == Start(setAll)
    {
      this.setAll := setAll;
      ports, portList, autoCnt, neededHeadroom := map[], [], 0, 0;
      new;
      assert View() == Run(setAll, []);
    }

    /** Every listed port has a record, and no port is listed twice. */
    ghost predicate Listed()
      reads this`ports, this`portList
    {
      && (forall i :: 0 <= i < |portList| ==> portList[i] in ports)
      && (forall i, j :: 0 <= i < j < |portList| ==> portList[i] != portList[j])
    }

    /** The lowest free port number, or -EXFULL when all are in use. */
    method FindPortNo() returns (index: int)
      requires NumbersOk(ports, portList)
      ensures var n := FirstFree(NumbersIn(ports, portList), 1);
              index == if n >= BR_MAX_PORTS then -EXFULL else n
    {
      var used := NumbersIn(ports, portList);
      var inuse := new bool[BR_MAX_PORTS](_ => false);
      inuse[0] := true;
      for i := 0 to |portList|
        invariant forall n :: 0 <= n < BR_MAX_PORTS ==>
          (inuse[n] <==> n == 0 || exists j :: 0 <= j < i && ports[portList[j]].portNo == n)
      {
        assert portList[i] in portList;
        inuse[ports[portList[i]].portNo] := true;
      }
      index := 0;
      while index < BR_MAX_PORTS && inuse[index]
        invariant 0 <= index <= BR_MAX_PORTS
        invariant forall n :: 0 <= n < index ==> inuse[n]
      {
        index := index + 1;
      }
      forall n: nat | 1 <= n < index ensures n in used {
        assert inuse[n];
        var j :| 0 <= j < |portList| && ports[portList[j]].portNo == n;
        assert portList[j] in portList;
      }
      LeastIsFirstFree(used, 1, index);
      if index >= BR_MAX_PORTS {
        index := -EXFULL;
      }
    }

    method ManagePromisc()
      requires Listed()
      modifies this`ports
      ensures ports == Manage(old(ports), portList, setAll, autoCnt)
    {
      for i := 0 to |portList|
        invariant ports == Manage(old(ports), portList[..i], setAll, autoCnt)
      {
        var q := portList[i];
        assert q !in portList[..i];
        var p := ports[q];
        if setAll {
          p := p.(promisc := true);
        } else if autoCnt == 0 || (autoCnt == 1 && p.Auto()) {
          if p.promisc && p.unicastFlt {
            p := p.(promisc := false);
          }
        } else {
          p := p.(promisc := true);
        }
        ports := ports[q := p];
        assert portList[..i + 1] == portList[..i] + [q];
      }
      assert portList[..|portList|] == portList;
    }

    method UpdatePortCount()
      requires Listed()
      modifies this`ports, this`autoCnt
      ensures View() == Recount(old(View()))
    {
      var cnt := 0;
      for i := 0 to |portList|
        invariant cnt == |AutoPorts(ports, portList[..i])|
      {
        var q := portList[i];
        assert q !in portList[..i];
        assert portList[..i + 1] == portList[..i] + [q];
        assert AutoPorts(ports, portList[..i + 1])
            == AutoPorts(ports, portList[..i]) + (if ports[q].Auto() then {q} else {});
        if ports[q].Auto() {
          cnt := cnt + 1;
        }
      }
      assert portList[..|portList|] == portList;
      if autoCnt != cnt {
        autoCnt := cnt;
        ManagePromisc();
      }
    }

    method GetMaxHeadroom() returns (m: nat)
      requires Listed()
      ensures m == MaxHeadroom(ports, portList)
    {
      m := 0;
      for i := 0 to |portList|
        invariant m == MaxHeadroom(ports, portList[..i])
      {
        assert portList[..i + 1][..i] == portList[..i];
        var hr := ports[portList[i]].fwdHeadroom;
        if hr > m {
          m := hr;
        }
      }
      assert portList[..|portList|] == portList;
    }

    method UpdateHeadroom(newHr: nat)
      requires Listed()
      modifies this`ports, this`neededHeadroom
      ensures View() == SetHeadroom(old(View()), newHr)
    {
      for i := 0 to |portList|
        invariant ports == map q <- old(ports) ::
          if q in portList[..i] then old(ports)[q].(rxHeadroom := newHr) else old(ports)[q]
      {
        var q := portList[i];
        assert q !in portList[..i];
        ports := ports[q := ports[q].(rxHeadroom := newHr)];
        assert portList[..i + 1] == portList[..i] + [q];
      }
      assert portList[..|portList|] == portList;
      neededHeadroom := newHr;
    }

    method ChangeBackup(p: PortId, device: BackupDevice) returns (err: int)
      requires p in ports
      modifies this`ports
      ensures (ports, err) == BackupChange(old(ports), portList, p, device)
    {
      var backup: Option<PortId> := None;
      if device.NotABridgePort? {
        return -ENOENT;
      } else if device.PortOf? {
        backup := Some(device.port);
        if device.port !in portList { return -EINVAL; }
      }
      if backup == Some(p) { return -EINVAL; }
      var oldBackup := ports[p].backup;
      if oldBackup == backup { return 0; }
      ports := AddToCount(ports, oldBackup, false);
      ports := AddToCount(ports, backup, true);
      ports := ports[p := ports[p].(backup := backup)];
      return 0;
    }

    method BackupClear(p: PortId)
      requires p in ports
      modifies this`ports
      ensures ports == ClearBackups(old(ports), portList, p)
    {
      var _ := ChangeBackup(p, NoDevice);
      if ports[p].redirected != 0 {
        ghost var own := ports;
        for i := 0 to |portList|
          invariant ports == DropLinks(own, portList[..i], p)
        {
          assert portList[..i + 1][..i] == portList[..i];
          var cur := portList[i];
          if cur in ports && ports[cur].backup == Some(p) {
            var _ := ChangeBackup(cur, NoDevice);
          }
        }
        assert portList[..|portList|] == portList;
      }
    }

    lemma ValidIsListed()
      requires Valid()
      ensures Listed() && NumbersOk(ports, portList) && forall q <- portList :: q in ports
    {
      DistinctList(View());
      assert forall i :: 0 <= i < |portList| ==> portList[i] in portList;
    }

    method Join(p: PortId, port: Port)
      requires Listed() && p !in portList
      modifies this
      ensures View() == RaiseHeadroom(Recount(Link(old(View()), p, port)), p)
    {
      portList := [p] + portList;
      ports := ports[p := port];
      UpdatePortCount();
      if neededHeadroom < ports[p].fwdHeadroom {
        UpdateHeadroom(ports[p].fwdHeadroom);
      } else {
        ports := ports[p := ports[p].(rxHeadroom := neededHeadroom)];
      }
    }

    /** br_add_if: the checks, then number, list, auto ports, headroom. */
    method AddIf(p: PortId, dev: Device) returns (err: int)
      requires Valid()
      modifies this
      ensures Valid() && (forall q <- old(portList) :: q in old(ports))
      ensures (View(), err) == Step(old(View()), Add(p, dev))
      ensures err == 0 ==> portList == [p] + old(portList) && p in ports && autoCnt == old(autoCnt) + 1
      ensures err != 0 ==> View() == old(View())
    {
      ghost var before := View();
      ValidIsListed();
      if !dev.ethernet {
        err := -EINVAL;
      } else if dev.isBridge {
        err := -ELOOP;
      } else if dev.otherMaster || p in portList {
        err := -EBUSY;
      } else if dev.dontBridge {
        err := -EOPNOTSUPP;
      } else {
        var index := FindPortNo();
        if index < 0 {
          err := index;
        } else {
          Join(p, NewPort(index, dev.fwdHeadroom, dev.unicastFlt));
          err := 0;
        }
      }
      assert (View(), err) == AddStep(before, p, dev);
      StepKeepsInv(before, Add(p, dev));
      assert View() == Step(before, Add(p, dev)).0;
      AddEffect(before, p, dev);
    }

    method Leave(p: PortId)
      requires Listed() && p in ports && p !in portList
      modifies this
      ensures View() == Unlink(old(View()), p)
    {
      if ports[p].fwdHeadroom == neededHeadroom {
        var m := GetMaxHeadroom();
        UpdateHeadroom(m);
      }
      ghost var lowered := ports;
      BackupClear(p);
      ClearBackupsSame(lowered, portList, p);
      UpdatePortCount();
      ports := ports - {p};
    }

    /** del_nbp: leave the list, recompute the headroom if it was the largest, clear the backups, recount. */
    method DelNbp(p: PortId) returns (err: int)
      requires Valid()
      modifies this
      ensures Valid() && (forall q <- old(portList) :: q in old(ports))
      ensures (View(), err) == Step(old(View()), Delete(p))
    {
      ghost var before := View();
      ValidIsListed();
      if p !in portList {
        err := -EINVAL;
      } else {
        RemoveFromMembers(portList, p);
        portList := RemoveFrom(portList, p);
        assert forall i :: 0 <= i < |portList| ==> portList[i] in portList;
        Leave(p);
        err := 0;
      }
      assert (View(), err) == DeleteStep(before, p);
      StepKeepsInv(before, Delete(p));
    }

    method ChangeFlags(p: PortId, learning: bool, flood: bool) returns (err: int)
      requires Valid()
      modifies this
      ensures Valid() && (forall q <- old(portList) :: q in old(ports))
      ensures (View(), err) == Step(old(View()), Event.ChangeFlags(p, learning, flood))
    {
      ghost var state := View();
      ValidIsListed();
      if p !in portList {
        err := -EINVAL;
      } else {
        var before := ports[p];
        ports := ports[p := before.(learning := learning, flood := flood)];
        ghost var flagged := state.(ports := ports);
        assert View() == flagged;
        if before.learning != learning || before.flood != flood {
          UpdatePortCount();
          assert View() == Recount(flagged);
        }
        err := 0;
      }
      assert (View(), err) == ChangeFlagsStep(state, p, learning, flood);
      StepKeepsInv(state, Event.ChangeFlags(p, learning, flood));
      assert View() == Step(state, Event.ChangeFlags(p, learning, flood)).0;
    }

    /** nbp_backup_change on a port of this bridge. */
    method SetBackup(p: PortId, device: BackupDevice) returns (err: int)
      requires Valid()
      modifies this
      ensures Valid() && (forall q <- old(portList) :: q in old(ports))
      ensures (View(), err) == Step(old(View()), Event.ChangeBackup(p, device))
    {
      ghost var before := View();
      ValidIsListed();
      if p !in portList {
        err := -EINVAL;
      } else {
        err := ChangeBackup(p, device);
      }
      assert (View(), err) == ChangeBackupStep(before, p, device);
      StepKeepsInv(before, Event.ChangeBackup(p, device));
    }
  }

  lemma {:induction false} LeastIsFirstFree(used: set<nat>, from: nat, index: nat)
    requires from <= index <= BR_MAX_PORTS
    requires forall n :: from <= n < index ==> n in used
    requires index < BR_MAX_PORTS ==> index !in used
    ensures FirstFree(used, from) == index
    decreases index - from
  {
    if from < index { LeastIsFirstFree(used, from + 1, index); }
  }
}
