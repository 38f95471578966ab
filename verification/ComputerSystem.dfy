/** Request dispatch and the recorded "reqstate" of src/Virt_ComputerSystem.c, a
    client of the infostore. */
module ComputerSystem {
  import opened Prelude
  import opened Decimal
  import opened Infostore
  import opened Libvirt

  const CIM_STATE_ENABLED := 2
  const CIM_STATE_DISABLED := 3
  const CIM_STATE_SHUTDOWN := 4
  const CIM_STATE_PAUSED := 9
  const CIM_STATE_REBOOT := 10
  const CIM_STATE_RESET := 11
  const REQSTATE := "reqstate"

  datatype Call = DoCreate | DoResume | DoDestroy | DoShutdown | DoSuspend | DoReboot | DoReset

  datatype Status = StatusOk | StatusFailed | StatusNotSupported

  /** A domain as __state_change finds it.  `state` is info->state, which the
      state_change functions adjust in place. */
  datatype Domain = Domain(path: string, uuid: string, isXen: bool, saved: bool, state: VirState)

  function Adjusted(dom: Domain): VirState {
    if dom.state == NoState && dom.isXen then Running else dom.state
  }

  /** The hypervisor call a request leads to, if any. */
  function Decision(dom: Domain, request: nat): Option<Call> {
    var active := Adjusted(dom) == Running || Adjusted(dom) == Blocked;
    if request == CIM_STATE_ENABLED then
      if dom.state == Shutoff && !dom.saved then Some(DoCreate)
      else if dom.state == VirPaused then Some(DoResume)
      else None
    else if request == CIM_STATE_DISABLED && active then Some(DoDestroy)
    else if request == CIM_STATE_SHUTDOWN && active then Some(DoShutdown)
    else if request == CIM_STATE_PAUSED && active then Some(DoSuspend)
    else if request == CIM_STATE_REBOOT && (active || Adjusted(dom) == VirPaused) then Some(DoReboot)
    else if request == CIM_STATE_RESET && (active || Adjusted(dom) == VirPaused) then Some(DoReset)
    else None
  }

  /** A domain that runs; an idle one of Xen's is taken for one. */
  predicate Active(dom: Domain) {
    dom.state == Running || dom.state == Blocked || (dom.state == NoState && dom.isXen)
  }

  /** Each call is made for exactly one request, from exactly these states. */
  lemma CallsExactly(dom: Domain, request: nat)
    ensures var call := Decision(dom, request);
            && (call == Some(DoCreate) <==> request == 2 && dom.state == Shutoff && !dom.saved)
            && (call == Some(DoResume) <==> request == 2 && dom.state == VirPaused)
            && (call == Some(DoDestroy) <==> request == 3 && Active(dom))
            && (call == Some(DoShutdown) <==> request == 4 && Active(dom))
            && (call == Some(DoSuspend) <==> request == 9 && Active(dom))
            && (call == Some(DoReboot) <==> request == 10 && (Active(dom) || dom.state == VirPaused))
            && (call == Some(DoReset) <==> request == 11 && (Active(dom) || dom.state == VirPaused))
  {
  }

  /** What a call that succeeds makes of a domain, as libvirt documents it. */
  function After(call: Call): VirState {
    match call
    case DoCreate | DoResume | DoReboot | DoReset => Running
    case DoDestroy => Shutoff
    case DoShutdown => Shutdown
    case DoSuspend => VirPaused
  }

  /** The state that a request which is granted asks for. */
  lemma GrantedLeadsTo(dom: Domain, request: nat)
    ensures var call := Decision(dom, request);
            call.Some? ==>
              match After(call.value)
              case Running => request == 2 || request == 10 || request == 11
              case Shutoff => request == 3
              case Shutdown => request == 4
              case VirPaused => request == 9
              case _ => false
  {
  }

  /** Requests undo each other: what is enabled can be disabled, shut down and paused,
      what is paused can be enabled again, and what is off is only ever enabled. */
  lemma RequestsFollow(dom: Domain, request: nat, next: nat)
    requires Decision(dom, request).Some?
    ensures var now := dom.(state := After(Decision(dom, request).value));
            Decision(now, next).Some? <==>
              match request
              case 2 => next in {3, 4, 9, 10, 11}
              case 3 => next == 2 && !dom.saved
              case 4 => false
              case 9 => next in {2, 10, 11}
              case _ => next in {3, 4, 9, 10, 11}
  {
  }

  function Start(dom: Domain): Event {
    Session(Some(dom.uuid), true, [Read("weight")])
  }

  function Record(dom: Domain, request: nat): Event {
    Session(Some(dom.uuid), true, [Write(REQSTATE, Digits(request))])
  }

  /** What a request does to the domain's store: a successful start reads the
      scheduling weight, and the request is recorded whatever came of it. */
  function RequestEvents(dom: Domain, request: nat, started: bool): seq<Event> {
    (if started then [Start(dom)] else []) + [Record(dom, request)]
  }

  /** state_change_enable and start_domain, up to the hypervisor call. */
  method StateChangeEnable(dom: Domain) returns (call: Option<Call>, s: Status)
    ensures call == Decision(dom, CIM_STATE_ENABLED)
    ensures call.Some? <==> s == StatusOk
    ensures s == StatusNotSupported <==> dom.state == Shutoff && dom.saved
  {
    match dom.state {
      case Shutoff =>
        if dom.saved {
          return None, StatusNotSupported;
        }
        return Some(DoCreate), StatusOk;
      case VirPaused => return Some(DoResume), StatusOk;
      case _ => return None, StatusFailed;
    }
  }

  /** The other state_change functions: adjust the state, then test it. */
  method StateChangeActive(dom: Domain, call: Call, alsoPaused: bool) returns (made: Option<Call>, s: Status)
    ensures made
            == if Adjusted(dom) == Running || Adjusted(dom) == Blocked || (alsoPaused && Adjusted(dom) == VirPaused)
               then Some(call) else None
    ensures s == if made.Some? then StatusOk else StatusFailed
  {
    var state := Adjusted(dom);
    match state {
      case Running => return Some(call), StatusOk;
      case Blocked => return Some(call), StatusOk;
      case VirPaused =>
        if alsoPaused {
          return Some(call), StatusOk;
        }
        return None, StatusFailed;
      case _ => return None, StatusFailed;
    }
  }

  /** set_scheduler_params after a start, then the reqstate session. */
  method RecordRequest(disk: Disk, dom: Domain, request: nat, started: bool)
    modifies disk
    ensures disk.At(dom.path) == RunAll(old(disk.At(dom.path)), RequestEvents(dom, request, started))
    ensures forall p :: p != dom.path ==> disk.At(p) == old(disk.At(p))
  {
    ghost var f := disk.At(dom.path);
    ghost var events := RequestEvents(dom, request, started);
    ghost var last := |events| - 1;
    if started {
      var _ := UseStore(disk, dom.path, Some(dom.uuid), true, [Read("weight")]);
      assert events[..last] == [Start(dom)] && events[..last][..0] == [];
    } else {
      assert events[..last] == [];
    }
    assert disk.At(dom.path) == RunAll(f, events[..last]);
    var _ := UseStore(disk, dom.path, Some(dom.uuid), true, [Write(REQSTATE, Digits(request))]);
    assert events[last] == Record(dom, request);
  }

  /** __state_change.  `callOk` is the hypervisor's answer. */
  method StateChange(disk: Disk, dom: Domain, request: nat, callOk: bool) returns (call: Option<Call>, s: Status)
    modifies disk
    ensures call == Decision(dom, request)
    ensures s == StatusOk <==> call.Some? && callOk
    ensures s == StatusNotSupported <==>
              request !in {2, 3, 4, 9, 10, 11} || (request == 2 && dom.state == Shutoff && dom.saved)
    ensures disk.At(dom.path)
            == RunAll(old(disk.At(dom.path)), RequestEvents(dom, request, call == Some(DoCreate) && callOk))
    ensures forall p :: p != dom.path ==> disk.At(p) == old(disk.At(p))
  {
    if request == CIM_STATE_ENABLED {
      call, s := StateChangeEnable(dom);
    } else if request == CIM_STATE_DISABLED {
      call, s := StateChangeActive(dom, DoDestroy, false);
    } else if request == CIM_STATE_SHUTDOWN {
      call, s := StateChangeActive(dom, DoShutdown, false);
    } else if request == CIM_STATE_PAUSED {
      call, s := StateChangeActive(dom, DoSuspend, false);
    } else if request == CIM_STATE_REBOOT {
      call, s := StateChangeActive(dom, DoReboot, true);
    } else if request == CIM_STATE_RESET {
      call, s := StateChangeActive(dom, DoReset, true);
    } else {
      call, s := None, StatusNotSupported;
    }
    if call.Some? {
      s := if callOk then StatusOk else StatusFailed;
    }
    RecordRequest(disk, dom, request, call == Some(DoCreate) && callOk);
  }

  /** An event that leaves the recorded request alone: another client's session
      for the same domain. */
  predicate Quiet(e: Event, u: string) {
    && Proper(e) && e.Session? && e.uuid == Some(u)
    && forall op :: op in e.ops ==> !(op.Write? && op.key == REQSTATE)
  }

  lemma {:induction false} OpsKeepKey(m: map<string, string>, ops: seq<Op>, key: string)
    requires forall op :: op in ops ==> !(op.Write? && op.key == key)
    ensures var m' := ApplyOps(m, ops).0;
            (key in m' <==> key in m) && (key in m ==> m'[key] == m[key])
    decreases |ops|
  {
    if ops != [] {
      assert ops[0] in ops && forall op :: op in ops[1..] ==> op in ops;
      match ops[0]
      case Read(_) => OpsKeepKey(m, ops[1..], key);
      case Write(k, v) => OpsKeepKey(m[k := v], ops[1..], key);
    }
  }

  lemma {:induction false} QuietKeepsRequest(before: seq<Event>, dom: Domain, request: nat, after: seq<Event>)
    requires forall e :: e in after ==> Quiet(e, dom.uuid)
    ensures var a := ApplyEvents(before + [Record(dom, request)] + after);
            a.owner == Some(dom.uuid) && REQSTATE in a.m && a.m[REQSTATE] == Digits(request)
    decreases |after|
  {
    var all := before + [Record(dom, request)] + after;
    if after == [] {
      assert all[..|all| - 1] == before && all[|all| - 1] == Record(dom, request);
      var m := if ApplyEvents(before).owner == Some(dom.uuid) then ApplyEvents(before).m else map[];
      assert ApplyOps(m, [Write(REQSTATE, Digits(request))]).0 == m[REQSTATE := Digits(request)];
    } else {
      var rest, e := after[..|after| - 1], after[|after| - 1];
      assert e in after && Quiet(e, dom.uuid) && forall x :: x in rest ==> x in after;
      assert all[..|all| - 1] == before + [Record(dom, request)] + rest && all[|all| - 1] == e;
      QuietKeepsRequest(before, dom, request, rest);
      OpsKeepKey(ApplyEvents(before + [Record(dom, request)] + rest).m, e.ops, REQSTATE);
    }
  }

  /** set_state_from_dom: the RequestedState property. */
  function RequestedState(d: Doc): nat {
    GetU64(d, REQSTATE) % 0x1_0000
  }

  lemma ReportFromMap(f: File, a: Owned, u: string, request: nat)
    requires Represents(f, a) && request < 0x1_0000
    requires a.owner == Some(u) && REQSTATE in a.m && a.m[REQSTATE] == Digits(request)
    ensures var isc := OpenSpec(f, Some(u), true).1;
            isc.Some? && RequestedState(isc.value) == request
  {
    OpenAgrees(f, a, u);
    PrintScan(request);
  }

  /** The RequestedState a domain reports is its last request, granted or
      refused, after any proper history and any later sessions of other clients
      for the same domain. */
  lemma LastRequestIsReported(before: seq<Event>, dom: Domain, request: nat, started: bool, after: seq<Event>)
    requires request < 0x1_0000
    requires forall e :: e in before ==> Proper(e)
    requires forall e :: e in after ==> Quiet(e, dom.uuid)
    ensures var f := RunAll(Absent, before + RequestEvents(dom, request, started) + after);
            var isc := OpenSpec(f, Some(dom.uuid), true).1;
            isc.Some? && RequestedState(isc.value) == request
  {
    var first := before + if started then [Start(dom)] else [];
    var all := first + [Record(dom, request)] + after;
    assert before + RequestEvents(dom, request, started) + after == all;
    forall e | e in all ensures Proper(e) {
      if e !in before && e != Record(dom, request) && e != Start(dom) {
        assert Quiet(e, dom.uuid);
      }
    }
    StoreRefinesOwnedMap(all);
    QuietKeepsRequest(first, dom, request, after);
    ReportFromMap(RunAll(Absent, all), ApplyEvents(all), dom.uuid, request);
  }
}
