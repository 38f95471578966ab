/** Console redirection access points of KVM guests: src/Virt_KVMRedirectionSAP.c
    matches the guests' VNC ports against the kernel's two tables of TCP sockets. */
module KvmSap {
  import opened Prelude
  import Decimal
  import opened Devices
  import G = GraphicsXml

  type Word32 = n: int | 0 <= n < 0x1_0000_0000

  /** A table line as sscanf sees it: local and remote port, or not three values. */
  datatype Line = Row(lport: Word32, rport: Word32) | Garbled

  /** A table that cannot be opened, or its heading and the lines below. */
  datatype Table = Unreadable | Table(heading: bool, lines: seq<Line>)

  /** struct vnc_port as a value. */
  datatype Guest = Guest(name: string, port: int, remote: int)

  /** An instance of the access point class. */
  datatype Sap = Sap(name: string, port: int, remote: int)

  /** The comparison of an unsigned with an int. */
  function Unsigned(port: int): Word32 {
    port % 0x1_0000_0000
  }

  predicate Hits(row: Line, g: Guest) {
    row.Row? && row.lport == Unsigned(g.port)
  }

  function SapOf(g: Guest): Sap {
    Sap(g.name, g.port, g.remote)
  }

  // ----- what a table does to the guests

  function AfterRow(g: Guest, row: Line): Guest {
    if Hits(row, g) then g.(remote := Decimal.ToInt32(row.rport)) else g
  }

  function AllAfterRow(gs: seq<Guest>, row: Line): (r: seq<Guest>)
    ensures |r| == |gs| && forall i :: 0 <= i < |gs| ==> r[i] == AfterRow(gs[i], row)
  {
    seq(|gs|, i requires 0 <= i < |gs| => AfterRow(gs[i], row))
  }

  /** One instance for every guest that a line hits. */
  function RowSaps(gs: seq<Guest>, row: Line): seq<Sap> {
    if gs == [] then []
    else (if Hits(row, gs[0]) then [SapOf(AfterRow(gs[0], row))] else []) + RowSaps(gs[1..], row)
  }

  datatype Pass = Pass(guests: seq<Guest>, saps: seq<Sap>, ok: bool)

  /** Reading stops at the first line that makes no sense. */
  function RunLines(gs: seq<Guest>, lines: seq<Line>): Pass
    decreases |lines|
  {
    if lines == [] then Pass(gs, [], true)
    else if lines[0].Garbled? then Pass(gs, [], false)
    else
      var rest := RunLines(AllAfterRow(gs, lines[0]), lines[1..]);
      rest.(saps := RowSaps(gs, lines[0]) + rest.saps)
  }

  function RunTable(gs: seq<Guest>, t: Table): Pass {
    if t.Unreadable? || !t.heading then Pass(gs, [], false) else RunLines(gs, t.lines)
  }

  /** The guests that no line hit, going by their remote port. */
  function MissedSaps(gs: seq<Guest>): seq<Sap> {
    if gs == [] then []
    else (if gs[0].remote == -1 then [SapOf(gs[0])] else []) + MissedSaps(gs[1..])
  }

  datatype Outcome = Outcome(ok: bool, saps: seq<Sap>)

  /** get_vnc_sessions.  The status of the second table is still in force when the
      missed guests are added, and ends the call at the first of them. */
  function Sessions(gs: seq<Guest>, t4: Table, t6: Table): Outcome {
    var p4 := RunTable(gs, t4);
    var p6 := RunTable(p4.guests, t6);
    var missed := MissedSaps(p6.guests);
    if !p6.ok && missed != [] then Outcome(false, p4.saps + p6.saps)
    else Outcome(p4.ok || p6.ok, p4.saps + p6.saps + missed)
  }

  // ----- the guests

  /** What the hypervisor tells about a domain; None when it tells nothing. */
  datatype Dom = Dom(name: string, graphics: Option<seq<Dev<G.Graphics>>>)

  /** check_graphics: the first VNC device. */
  function FirstVnc(devs: seq<Dev<G.Graphics>>): Option<G.Graphics> {
    if devs == [] then None
    else if G.IsVnc(devs[0].dev.kind) then Some(devs[0].dev)
    else FirstVnc(devs[1..])
  }

  /** One VNC port per guest that has one; None when a port is no number. */
  function GuestsOf(doms: seq<Dom>): Option<seq<Guest>> {
    if doms == [] then Some([])
    else
      match FirstVnc(doms[0].graphics.GetOr([]))
      case None => GuestsOf(doms[1..])
      case Some(vnc) =>
        match Decimal.ScanInt(vnc.port.GetOr(""), false)
        case None => None
        case Some(port) =>
          match GuestsOf(doms[1..])
          case None => None
          case Some(rest) => Some([Guest(doms[0].name, port, -1)] + rest)
  }

  /** enum_console_sap, for the domains the hypervisor lists if it does. */
  function Enumerated(doms: Option<seq<Dom>>, t4: Table, t6: Table): Outcome {
    match doms
    case None => Outcome(false, [])
    case Some(ds) =>
      if ds == [] then Outcome(true, [])
      else match GuestsOf(ds) case None => Outcome(false, []) case Some(gs) => Sessions(gs, t4, t6)
  }

  // ----- the code

  class VncPort {
    const name: string
    const port: int
    var remotePort: int
    ghost const pos: nat  // index in the port list

    constructor (name: string, port: int, ghost pos: nat)
      ensures this.name == name && this.port == port && remotePort == -1 && this.pos == pos
    {
      this.name, this.port, this.remotePort := name, port, -1;
      this.pos := pos;
    }

    function Value(): Guest
      reads this
    {
      Guest(name, port, remotePort)
    }
  }

  /** The list's entries, in order and distinct, stand for these guests. */
  ghost predicate Stands(ports: seq<VncPort>, gs: seq<Guest>)
    reads ports
  {
    && |ports| == |gs|
    && forall i :: 0 <= i < |ports| ==> ports[i].pos == i && ports[i].Value() == gs[i]
  }

  /** One table line against all guests. */
  method MatchRow(ports: seq<VncPort>, row: Line, list: seq<Sap>, ghost gs: seq<Guest>) returns (r: seq<Sap>)
    requires row.Row? && Stands(ports, gs)
    modifies ports
    ensures Stands(ports, AllAfterRow(gs, row))
    ensures r == list + RowSaps(gs, row)
  {
    r := list;
    for i := 0 to |ports|
      invariant forall j :: 0 <= j < i ==> ports[j].Value() == AfterRow(gs[j], row)
      invariant forall j :: i <= j < |ports| ==> ports[j].Value() == gs[j]
      invariant list + RowSaps(gs, row) == r + RowSaps(gs[i..], row)
    {
      assert gs[i..][1..] == gs[i + 1..];
      if row.lport != Unsigned(ports[i].port) {
        continue;
      }
      ports[i].remotePort := Decimal.ToInt32(row.rport);
      r := r + [SapOf(ports[i].Value())];
    }
  }

  /** read_tcp_file, once the file is open. */
  method ReadTcpFile(ports: seq<VncPort>, t: Table, list: seq<Sap>,
                     ghost gs: seq<Guest>) returns (ok: bool, r: seq<Sap>)
    requires t.Table? && Stands(ports, gs)
    modifies ports
    ensures var p := RunTable(gs, t); Stands(ports, p.guests) && ok == p.ok && r == list + p.saps
  {
    r := list;
    if !t.heading {
      return false, r + [];
    }
    ghost var now := gs;
    for i := 0 to |t.lines|
      invariant Stands(ports, now)
      invariant var p, rest := RunLines(gs, t.lines), RunLines(now, t.lines[i..]);
                p.guests == rest.guests && p.ok == rest.ok && list + p.saps == r + rest.saps
    {
      assert t.lines[i..][1..] == t.lines[i + 1..];
      if t.lines[i].Garbled? {
        return false, r;
      }
      r := MatchRow(ports, t.lines[i], r, now);
      now := AllAfterRow(now, t.lines[i]);
    }
    return true, r;
  }

  method AddMissed(ports: seq<VncPort>, list: seq<Sap>, statusOk: bool, ghost gs: seq<Guest>)
    returns (ok: bool, r: seq<Sap>)
    requires Stands(ports, gs)
    ensures ok == (statusOk || MissedSaps(gs) == [])
    ensures r == if ok then list + MissedSaps(gs) else list
  {
    r := list;
    for i := 0 to |ports|
      invariant list + MissedSaps(gs) == r + MissedSaps(gs[i..])
      invariant statusOk || r == list
    {
      assert gs[i..][1..] == gs[i + 1..];
      if ports[i].remotePort != -1 {
        continue;
      }
      if !statusOk {
        assert MissedSaps(gs[i..]) != [];
        return false, list;
      }
      r := r + [SapOf(ports[i].Value())];
    }
    return true, r;
  }

  method GetVncSessions(ports: seq<VncPort>, t4: Table, t6: Table, ghost gs: seq<Guest>)
    returns (ok: bool, list: seq<Sap>)
    requires Stands(ports, gs)
    modifies ports
    ensures Outcome(ok, list) == Sessions(gs, t4, t6)
  {
    var errors := 0;
    var status := false;
    list := [];
    if t4.Unreadable? {
      errors := errors + 1;
    } else {
      status, list := ReadTcpFile(ports, t4, list, gs);
      if !status {
        errors := errors + 1;
      }
    }
    ghost var p4 := RunTable(gs, t4);
    assert list == p4.saps && status == p4.ok by { assert [] + p4.saps == p4.saps; }
    if t6.Unreadable? {
      status := false;
      errors := errors + 1;
    } else {
      status, list := ReadTcpFile(ports, t6, list, p4.guests);
      if !status {
        errors := errors + 1;
      }
    }
    ghost var p6 := RunTable(p4.guests, t6);
    assert list == p4.saps + p6.saps && status == p6.ok by { assert p4.saps + [] == p4.saps; }
    ok, list := AddMissed(ports, list, status, p6.guests);
    if ok {
      ok := errors != 2;
    }
  }

  method CheckGraphics(dom: Dom) returns (vnc: Option<G.Graphics>)
    ensures vnc == FirstVnc(dom.graphics.GetOr([]))
  {
    if dom.graphics.None? {
      return None;
    }
    var devs := dom.graphics.value;
    for i := 0 to |devs|
      invariant FirstVnc(devs) == FirstVnc(devs[i..])
    {
      assert devs[i..][1..] == devs[i + 1..];
      if G.IsVnc(devs[i].dev.kind) {
        return Some(devs[i].dev);
      }
    }
    return None;
  }

  /** What is still to be listed after the first `i` domains. */
  ghost predicate ListedSoFar(doms: seq<Dom>, i: nat, gs: seq<Guest>)
    requires i <= |doms|
  {
    var whole, rest := GuestsOf(doms), GuestsOf(doms[i..]);
    whole.Some? == rest.Some? && (whole.Some? ==> whole.value == gs + rest.value)
  }

  lemma ListedNext(doms: seq<Dom>, i: nat, gs: seq<Guest>)
    requires i < |doms| && ListedSoFar(doms, i, gs)
    ensures var vnc := FirstVnc(doms[i].graphics.GetOr([]));
            && (vnc.None? ==> ListedSoFar(doms, i + 1, gs))
            && (vnc.Some? ==>
                  match Decimal.ScanInt(vnc.value.port.GetOr(""), false)
                  case None => GuestsOf(doms).None?
                  case Some(port) => ListedSoFar(doms, i + 1, gs + [Guest(doms[i].name, port, -1)]))
  {
    assert doms[i..][1..] == doms[i + 1..];
    var rest := GuestsOf(doms[i + 1..]);
    if rest.Some? && GuestsOf(doms[i..]).Some? && |GuestsOf(doms[i..]).value| > |rest.value| {
      Associative(gs, [GuestsOf(doms[i..]).value[0]], rest.value);
    }
  }

  method AddPort(ports: seq<VncPort>, name: string, lport: int, ghost gs: seq<Guest>) returns (r: seq<VncPort>)
    requires Stands(ports, gs)
    ensures Stands(r, gs + [Guest(name, lport, -1)])
    ensures |r| == |ports| + 1 && r[..|ports|] == ports && fresh(r[|ports|])
  {
    var port := new VncPort(name, lport, |ports|);
    r := ports + [port];
  }

  method PortList(doms: seq<Dom>) returns (ok: bool, ports: seq<VncPort>, ghost gs: seq<Guest>)
    ensures ok == GuestsOf(doms).Some?
    ensures ok ==> gs == GuestsOf(doms).value && Stands(ports, gs)
    ensures forall i :: 0 <= i < |ports| ==> fresh(ports[i])
  {
    ports, gs := [], [];
    for i := 0 to |doms|
      invariant Stands(ports, gs) && ListedSoFar(doms, i, gs)
      invariant forall j :: 0 <= j < |ports| ==> fresh(ports[j])
    {
      ListedNext(doms, i, gs);
      var vnc := CheckGraphics(doms[i]);
      if vnc.None? {
        continue;
      }
      var lport := Decimal.ScanInt(vnc.value.port.GetOr(""), false);
      if lport.None? {
        return false, ports, gs;
      }
      ports := AddPort(ports, doms[i].name, lport.value, gs);
      gs := gs + [Guest(doms[i].name, lport.value, -1)];
    }
    return true, ports, gs;
  }

  method EnumConsoleSap(doms: Option<seq<Dom>>, t4: Table, t6: Table) returns (ok: bool, list: seq<Sap>)
    ensures Outcome(ok, list) == Enumerated(doms, t4, t6)
  {
    if doms.None? {
      return false, [];
    }
    if |doms.value| == 0 {
      return true, [];
    }
    ghost var gs;
    var ports;
    ok, ports, gs := PortList(doms.value);
    if !ok {
      return false, [];
    }
    ok, list := GetVncSessions(ports, t4, t6, gs);
  }

  // ----- what is counted

  /** Inactive instances are those with a negative remote port. */
  predicate Counts(sap: Sap, name: string, idle: bool) {
    sap.name == name && (idle ==> sap.remote < 0)
  }

  /** How many instances a guest has, or how many inactive ones. */
  function CountFor(saps: seq<Sap>, name: string, idle: bool): nat {
    if saps == [] then 0 else (if Counts(saps[0], name, idle) then 1 else 0) + CountFor(saps[1..], name, idle)
  }

  lemma {:induction false} CountConcat(a: seq<Sap>, b: seq<Sap>, name: string, idle: bool)
    ensures CountFor(a + b, name, idle) == CountFor(a, name, idle) + CountFor(b, name, idle)
    decreases |a|
  {
    if a == [] {
      assert a + b == b;
    } else {
      assert (a + b)[0] == a[0] && (a + b)[1..] == a[1..] + b;
      CountConcat(a[1..], b, name, idle);
    }
  }

  predicate HitsAs(row: Line, g: Guest, idle: bool) {
    Hits(row, g) && (idle ==> row.rport >= 0x8000_0000)
  }

  /** The lines that have a guest's port as their local one, or those of them with
      a remote port that reads as negative. */
  function Matches(lines: seq<Line>, g: Guest, idle: bool): nat {
    if lines == [] then 0 else (if HitsAs(lines[0], g, idle) then 1 else 0) + Matches(lines[1..], g, idle)
  }

  /** The remote port on the last line with a guest's port. */
  function LastRemote(lines: seq<Line>, g: Guest): Option<Word32> {
    if lines == [] then None
    else OrElse(LastRemote(lines[1..], g), if Hits(lines[0], g) then Some(lines[0].rport) else None)
  }

  predicate Clean(lines: seq<Line>) {
    forall i :: 0 <= i < |lines| ==> lines[i].Row?
  }

  predicate Parses(t: Table) {
    t.Table? && t.heading && Clean(t.lines)
  }

  function CleanPrefix(lines: seq<Line>): (r: seq<Line>)
    ensures Clean(r)
    ensures r == lines <==> Clean(lines)
  {
    if lines == [] || lines[0].Garbled? then []
    else
      assert lines == [lines[0]] + lines[1..];
      [lines[0]] + CleanPrefix(lines[1..])
  }

  /** The lines that are read before anything goes wrong. */
  function LinesRead(t: Table): (r: seq<Line>)
    ensures Clean(r)
  {
    if t.Unreadable? || !t.heading then [] else CleanPrefix(t.lines)
  }

  lemma {:induction false} RunPrefix(gs: seq<Guest>, lines: seq<Line>)
    ensures var p, q := RunLines(gs, lines), RunLines(gs, CleanPrefix(lines));
            p.guests == q.guests && p.saps == q.saps && (p.ok <==> Clean(lines))
    decreases |lines|
  {
    if lines != [] && lines[0].Row? {
      RunPrefix(AllAfterRow(gs, lines[0]), lines[1..]);
      assert CleanPrefix(lines)[1..] == CleanPrefix(lines[1..]);
      assert lines == [lines[0]] + lines[1..];
    }
  }

  /** Guests of different names. */
  predicate Apart(gs: seq<Guest>) {
    forall i, j :: 0 <= i < j < |gs| ==> gs[i].name != gs[j].name
  }

  lemma MinusOne(rport: Word32)
    ensures Decimal.ToInt32(rport) == -1 <==> rport == 0xFFFF_FFFF
    ensures Decimal.ToInt32(rport) < 0 <==> rport >= 0x8000_0000
  {
  }

  lemma RowFirst(g: Guest, row: Line, name: string, idle: bool)
    ensures CountFor(if Hits(row, g) then [SapOf(AfterRow(g, row))] else [], name, idle)
            == if HitsAs(row, g, idle) && g.name == name then 1 else 0
  {
    if Hits(row, g) {
      MinusOne(row.rport);
      assert [SapOf(AfterRow(g, row))][1..] == [];
    }
  }

  lemma {:induction false} RowCount(gs: seq<Guest>, row: Line, k: nat, idle: bool)
    requires Apart(gs) && k < |gs|
    ensures CountFor(RowSaps(gs, row), gs[k].name, idle) == if HitsAs(row, gs[k], idle) then 1 else 0
    decreases |gs|
  {
    CountConcat(if Hits(row, gs[0]) then [SapOf(AfterRow(gs[0], row))] else [], RowSaps(gs[1..], row),
                 gs[k].name, idle);
    RowFirst(gs[0], row, gs[k].name, idle);
    if k == 0 {
      RowCountNone(gs[1..], row, gs[0].name, idle);
    } else {
      assert gs[1..][k - 1] == gs[k];
      RowCount(gs[1..], row, k - 1, idle);
    }
  }

  lemma {:induction false} RowCountNone(gs: seq<Guest>, row: Line, name: string, idle: bool)
    requires forall i :: 0 <= i < |gs| ==> gs[i].name != name
    ensures CountFor(RowSaps(gs, row), name, idle) == 0
    decreases |gs|
  {
    if gs != [] {
      CountConcat(if Hits(row, gs[0]) then [SapOf(AfterRow(gs[0], row))] else [], RowSaps(gs[1..], row), name, idle);
      RowFirst(gs[0], row, name, idle);
      RowCountNone(gs[1..], row, name, idle);
    }
  }

  lemma MissedFirst(g: Guest, name: string, idle: bool)
    ensures CountFor(if g.remote == -1 then [SapOf(g)] else [], name, idle)
            == if g.remote == -1 && g.name == name then 1 else 0
  {
    if g.remote == -1 {
      assert [SapOf(g)][1..] == [];
    }
  }

  lemma {:induction false} MissedCount(gs: seq<Guest>, k: nat, idle: bool)
    requires Apart(gs) && k < |gs|
    ensures CountFor(MissedSaps(gs), gs[k].name, idle) == if gs[k].remote == -1 then 1 else 0
    decreases |gs|
  {
    CountConcat(if gs[0].remote == -1 then [SapOf(gs[0])] else [], MissedSaps(gs[1..]), gs[k].name, idle);
    MissedFirst(gs[0], gs[k].name, idle);
    if k == 0 {
      MissedCountNone(gs[1..], gs[0].name, idle);
    } else {
      assert gs[1..][k - 1] == gs[k];
      MissedCount(gs[1..], k - 1, idle);
    }
  }

  lemma {:induction false} MissedCountNone(gs: seq<Guest>, name: string, idle: bool)
    requires forall i :: 0 <= i < |gs| ==> gs[i].name != name
    ensures CountFor(MissedSaps(gs), name, idle) == 0
    decreases |gs|
  {
    if gs != [] {
      CountConcat(if gs[0].remote == -1 then [SapOf(gs[0])] else [], MissedSaps(gs[1..]), name, idle);
      MissedFirst(gs[0], name, idle);
      MissedCountNone(gs[1..], name, idle);
    }
  }

  lemma {:induction false} NoneMissed(gs: seq<Guest>)
    ensures MissedSaps(gs) == [] <==> forall i :: 0 <= i < |gs| ==> gs[i].remote != -1
    decreases |gs|
  {
    if gs != [] {
      NoneMissed(gs[1..]);
      assert forall i :: 0 < i < |gs| ==> gs[i] == gs[1..][i - 1];
      assert (forall i :: 0 <= i < |gs[1..]| ==> gs[1..][i].remote != -1) ==>
          forall i :: 0 < i < |gs| ==> gs[i].remote != -1;
      if forall i :: 0 <= i < |gs| ==> gs[i].remote != -1 {
        assert forall i :: 0 <= i < |gs[1..]| ==> gs[1..][i] == gs[i + 1];
      }
    }
  }

  /** Matching goes by the port alone. */
  lemma {:induction false} PortOnly(g: Guest, h: Guest, lines: seq<Line>, idle: bool)
    requires g.port == h.port
    ensures Matches(lines, g, idle) == Matches(lines, h, idle) && LastRemote(lines, g) == LastRemote(lines, h)
    decreases |lines|
  {
    if lines != [] {
      PortOnly(g, h, lines[1..], idle);
    }
  }

  lemma {:induction false} MatchesConcat(a: seq<Line>, b: seq<Line>, g: Guest, idle: bool)
    ensures Matches(a + b, g, idle) == Matches(a, g, idle) + Matches(b, g, idle)
    ensures LastRemote(a + b, g) == OrElse(LastRemote(b, g), LastRemote(a, g))
    decreases |a|
  {
    if a == [] {
      assert a + b == b;
    } else {
      assert (a + b)[0] == a[0] && (a + b)[1..] == a[1..] + b;
      MatchesConcat(a[1..], b, g, idle);
    }
  }

  lemma {:induction false} LastOfMatches(lines: seq<Line>, g: Guest)
    ensures LastRemote(lines, g).None? <==> Matches(lines, g, false) == 0
    decreases |lines|
  {
    if lines != [] {
      LastOfMatches(lines[1..], g);
    }
  }

  function RemoteAfter(lines: seq<Line>, g: Guest): int {
    match LastRemote(lines, g) case None => g.remote case Some(rport) => Decimal.ToInt32(rport)
  }

  /** What reading clean lines does to one guest, and what it lists for it. */
  lemma {:induction false} LinesExactly(gs: seq<Guest>, lines: seq<Line>, k: nat, idle: bool)
    requires Apart(gs) && Clean(lines) && k < |gs|
    ensures var p := RunLines(gs, lines);
            && |p.guests| == |gs| && Apart(p.guests)
            && CountFor(p.saps, gs[k].name, idle) == Matches(lines, gs[k], idle)
            && p.guests[k] == gs[k].(remote := RemoteAfter(lines, gs[k]))
    decreases |lines|
  {
    if lines != [] {
      var row, now := lines[0], AllAfterRow(gs, lines[0]);
      LinesExactly(now, lines[1..], k, idle);
      PortOnly(now[k], gs[k], lines[1..], idle);
      RowCount(gs, row, k, idle);
      CountConcat(RowSaps(gs, row), RunLines(now, lines[1..]).saps, gs[k].name, idle);
    }
  }

  lemma TableExactly(gs: seq<Guest>, t: Table, k: nat, idle: bool)
    requires Apart(gs) && k < |gs|
    ensures var p := RunTable(gs, t);
            && (p.ok <==> Parses(t)) && |p.guests| == |gs| && Apart(p.guests)
            && CountFor(p.saps, gs[k].name, idle) == Matches(LinesRead(t), gs[k], idle)
            && p.guests[k] == gs[k].(remote := RemoteAfter(LinesRead(t), gs[k]))
  {
    if t.Table? && t.heading {
      RunPrefix(gs, t.lines);
      LinesExactly(gs, LinesRead(t), k, idle);
    }
  }

  lemma {:induction false} LinesKeepCount(gs: seq<Guest>, lines: seq<Line>)
    ensures |RunLines(gs, lines).guests| == |gs|
    decreases |lines|
  {
    if lines != [] && lines[0].Row? {
      LinesKeepCount(AllAfterRow(gs, lines[0]), lines[1..]);
    }
  }

  lemma TableStatus(gs: seq<Guest>, t: Table)
    ensures (RunTable(gs, t).ok <==> Parses(t)) && |RunTable(gs, t).guests| == |gs|
  {
    if t.Table? && t.heading {
      RunPrefix(gs, t.lines);
      LinesKeepCount(gs, t.lines);
    }
  }

  /** All lines read from both tables. */
  function AllLines(t4: Table, t6: Table): seq<Line> {
    LinesRead(t4) + LinesRead(t6)
  }

  /** A guest is taken for missed when no line has its port, or the last that does
      shows the remote port FFFFFFFF, which reads as minus one. */
  predicate Missed(g: Guest, t4: Table, t6: Table) {
    Matches(AllLines(t4, t6), g, false) == 0 || LastRemote(AllLines(t4, t6), g) == Some(0xFFFF_FFFF)
  }

  lemma BothTables(gs: seq<Guest>, t4: Table, t6: Table, k: nat, idle: bool)
    requires Apart(gs) && k < |gs| && gs[k].remote == -1
    ensures var p4 := RunTable(gs, t4);
            var p6 := RunTable(p4.guests, t6);
            && |p6.guests| == |gs| && Apart(p6.guests) && (p4.ok <==> Parses(t4)) && (p6.ok <==> Parses(t6))
            && CountFor(p4.saps + p6.saps, gs[k].name, idle) == Matches(AllLines(t4, t6), gs[k], idle)
            && p6.guests[k].name == gs[k].name
            && (p6.guests[k].remote == -1 <==> Missed(gs[k], t4, t6))
  {
    var p4 := RunTable(gs, t4);
    TableExactly(gs, t4, k, idle);
    TableExactly(p4.guests, t6, k, idle);
    PortOnly(p4.guests[k], gs[k], LinesRead(t6), idle);
    MatchesConcat(LinesRead(t4), LinesRead(t6), gs[k], idle);
    CountConcat(p4.saps, RunTable(p4.guests, t6).saps, gs[k].name, idle);
    LastOfMatches(AllLines(t4, t6), gs[k]);
    MinusOne(LastRemote(AllLines(t4, t6), gs[k]).GetOr(0));
  }

  /** Whenever the call succeeds, whatever became of the tables, each guest has one
      instance per line read with its port, and an inactive one more exactly when it
      was taken for missed; and the inactive ones among them are those of lines whose
      remote port reads as negative. */
  lemma SapCount(gs: seq<Guest>, t4: Table, t6: Table, k: nat, idle: bool)
    requires Apart(gs) && k < |gs| && gs[k].remote == -1 && Sessions(gs, t4, t6).ok
    ensures CountFor(Sessions(gs, t4, t6).saps, gs[k].name, idle)
            == Matches(AllLines(t4, t6), gs[k], idle) + if Missed(gs[k], t4, t6) then 1 else 0
  {
    var p4 := RunTable(gs, t4);
    var p6 := RunTable(p4.guests, t6);
    BothTables(gs, t4, t6, k, idle);
    MissedCount(p6.guests, k, idle);
    CountConcat(p4.saps + p6.saps, MissedSaps(p6.guests), gs[k].name, idle);
    if MissedSaps(p6.guests) == [] {
      NoneMissed(p6.guests);
    }
  }

  /** For any tables, those the kernel never writes included: a guest has one instance
      per line, and at least one, exactly when its last line does not show the remote
      port FFFFFFFF; and it has an inactive one exactly
      when no line has its port or one that does has a negative remote port. */
  lemma AtLeastOne(gs: seq<Guest>, t4: Table, t6: Table, k: nat)
    requires Apart(gs) && k < |gs| && gs[k].remote == -1 && Sessions(gs, t4, t6).ok
    ensures var n := Matches(AllLines(t4, t6), gs[k], false);
            CountFor(Sessions(gs, t4, t6).saps, gs[k].name, false) == (if n == 0 then 1 else n)
            <==> LastRemote(AllLines(t4, t6), gs[k]) != Some(0xFFFF_FFFF)
    ensures CountFor(Sessions(gs, t4, t6).saps, gs[k].name, true) > 0
            <==> Matches(AllLines(t4, t6), gs[k], false) == 0 || Matches(AllLines(t4, t6), gs[k], true) > 0
  {
    SapCount(gs, t4, t6, k, false);
    SapCount(gs, t4, t6, k, true);
    LastOfMatches(AllLines(t4, t6), gs[k]);
    LastIsIdle(AllLines(t4, t6), gs[k]);
  }

  lemma {:induction false} LastIsIdle(lines: seq<Line>, g: Guest)
    ensures LastRemote(lines, g) == Some(0xFFFF_FFFF) ==> Matches(lines, g, true) > 0
    decreases |lines|
  {
    if lines != [] {
      LastIsIdle(lines[1..], g);
    }
  }

  /** The kernel's tables show ports of 16 bits.  With those a guest has one instance
      per line with its port and one inactive instance if there is no such line. */
  lemma KernelPorts(gs: seq<Guest>, t4: Table, t6: Table, k: nat)
    requires Apart(gs) && k < |gs| && gs[k].remote == -1 && Sessions(gs, t4, t6).ok
    requires ShowsPorts(AllLines(t4, t6))
    ensures var n := Matches(AllLines(t4, t6), gs[k], false);
            && CountFor(Sessions(gs, t4, t6).saps, gs[k].name, false) == (if n == 0 then 1 else n)
            && CountFor(Sessions(gs, t4, t6).saps, gs[k].name, true) == (if n == 0 then 1 else 0)
  {
    SapCount(gs, t4, t6, k, false);
    SapCount(gs, t4, t6, k, true);
    PortsAreActive(AllLines(t4, t6), gs[k]);
    LastOfMatches(AllLines(t4, t6), gs[k]);
  }

  predicate ShowsPorts(lines: seq<Line>) {
    forall i :: 0 <= i < |lines| && lines[i].Row? ==> lines[i].rport < 0x1_0000
  }

  lemma {:induction false} PortsAreActive(lines: seq<Line>, g: Guest)
    requires ShowsPorts(lines)
    ensures Matches(lines, g, true) == 0 && LastRemote(lines, g) != Some(0xFFFF_FFFF)
    decreases |lines|
  {
    if lines != [] {
      PortsAreActive(lines[1..], g);
    }
  }

  predicate NoneIsMissed(gs: seq<Guest>, t4: Table, t6: Table) {
    forall k :: 0 <= k < |gs| ==> !Missed(gs[k], t4, t6)
  }

  /** The call succeeds exactly when the second table parses, or the first does and
      no guest is taken for missed: a host without the second table fails as soon as
      one guest has no session. */
  lemma StatusExactly(gs: seq<Guest>, t4: Table, t6: Table)
    requires Apart(gs) && forall k :: 0 <= k < |gs| ==> gs[k].remote == -1
    ensures Sessions(gs, t4, t6).ok
            <==> Parses(t6) || (Parses(t4) && NoneIsMissed(gs, t4, t6))
  {
    var p6 := RunTable(RunTable(gs, t4).guests, t6);
    forall k | 0 <= k < |gs|
      ensures |p6.guests| == |gs|
      ensures p6.guests[k].remote == -1 <==> Missed(gs[k], t4, t6)
    {
      BothTables(gs, t4, t6, k, false);
    }
    TableStatus(gs, t4);
    TableStatus(RunTable(gs, t4).guests, t6);
    NoneMissed(p6.guests);
  }

  /** The guests listed are new to the tables, and apart when the domains are. */
  lemma {:induction false} GuestsAreNew(doms: seq<Dom>)
    requires NamesDiffer(doms) && GuestsOf(doms).Some?
    ensures var gs := GuestsOf(doms).value;
            && Apart(gs) && (forall k :: 0 <= k < |gs| ==> gs[k].remote == -1)
            && forall k :: 0 <= k < |gs| ==> exists i :: 0 <= i < |doms| && doms[i].name == gs[k].name
    decreases |doms|
  {
    if doms != [] {
      var vnc := FirstVnc(doms[0].graphics.GetOr([]));
      GuestsAreNew(doms[1..]);
      var rest := GuestsOf(doms[1..]).value;
      var gs := GuestsOf(doms).value;
      forall k | 0 <= k < |rest|
        ensures rest[k].name != doms[0].name
        ensures exists i :: 0 <= i < |doms| && doms[i].name == rest[k].name
      {
        var i :| 0 <= i < |doms[1..]| && doms[1..][i].name == rest[k].name;
        assert doms[i + 1].name == rest[k].name;
      }
      if vnc.Some? {
        assert gs == [gs[0]] + rest && gs[0].name == doms[0].name;
      }
    }
  }

  // ----- the whole enumeration

  /** The entry of a domain that has VNC on a port that is a number. */
  function VncGuest(dom: Dom): Option<Guest> {
    match FirstVnc(dom.graphics.GetOr([]))
    case None => None
    case Some(vnc) =>
      match Decimal.ScanInt(vnc.port.GetOr(""), false)
      case None => None
      case Some(port) => Some(Guest(dom.name, port, -1))
  }

  /** No domain has VNC on a port that is no number. */
  predicate PortsAreNumbers(doms: seq<Dom>) {
    forall i :: 0 <= i < |doms| ==> FirstVnc(doms[i].graphics.GetOr([])).None? || VncGuest(doms[i]).Some?
  }

  predicate NamesDiffer(doms: seq<Dom>) {
    forall i, j :: 0 <= i < j < |doms| ==> doms[i].name != doms[j].name
  }

  lemma {:induction false} GuestsGiven(doms: seq<Dom>)
    ensures GuestsOf(doms).Some? <==> PortsAreNumbers(doms)
    ensures GuestsOf(doms).Some? ==>
              forall g :: g in GuestsOf(doms).value <==> exists i :: 0 <= i < |doms| && VncGuest(doms[i]) == Some(g)
    decreases |doms|
  {
    if doms != [] {
      GuestsGiven(doms[1..]);
      var first := FirstVnc(doms[0].graphics.GetOr([])).None? || VncGuest(doms[0]).Some?;
      assert PortsAreNumbers(doms) <==> first && PortsAreNumbers(doms[1..]) by {
        assert forall i :: 0 < i < |doms| ==> doms[i] == doms[1..][i - 1];
      }
      if GuestsOf(doms).Some? {
        GuestsGivenNext(doms);
      }
    }
  }

  lemma GuestsGivenNext(doms: seq<Dom>)
    requires doms != [] && GuestsOf(doms).Some?
    requires forall g :: g in GuestsOf(doms[1..]).value
                         <==> exists i :: 0 <= i < |doms[1..]| && VncGuest(doms[1..][i]) == Some(g)
    ensures forall g :: g in GuestsOf(doms).value <==> exists i :: 0 <= i < |doms| && VncGuest(doms[i]) == Some(g)
  {
    var rest := GuestsOf(doms[1..]).value;
    forall g ensures g in GuestsOf(doms).value <==> exists i :: 0 <= i < |doms| && VncGuest(doms[i]) == Some(g) {
      assert g in GuestsOf(doms).value <==> VncGuest(doms[0]) == Some(g) || g in rest;
      if i :| 0 <= i < |doms| && VncGuest(doms[i]) == Some(g) {
        assert i > 0 ==> doms[1..][i - 1] == doms[i];
      }
      if i :| 0 <= i < |doms[1..]| && VncGuest(doms[1..][i]) == Some(g) {
        assert doms[i + 1] == doms[1..][i];
      }
    }
  }

  lemma {:induction false} LinesNone(gs: seq<Guest>, lines: seq<Line>, name: string)
    requires forall i :: 0 <= i < |gs| ==> gs[i].name != name
    ensures var p := RunLines(gs, lines);
            CountFor(p.saps, name, false) == 0 && forall i :: 0 <= i < |p.guests| ==> p.guests[i].name != name
    decreases |lines|
  {
    if lines != [] && lines[0].Row? {
      var now := AllAfterRow(gs, lines[0]);
      RowCountNone(gs, lines[0], name, false);
      LinesNone(now, lines[1..], name);
      CountConcat(RowSaps(gs, lines[0]), RunLines(now, lines[1..]).saps, name, false);
    }
  }

  /** A name that no guest has is listed nowhere. */
  lemma NotListed(gs: seq<Guest>, t4: Table, t6: Table, name: string)
    requires forall i :: 0 <= i < |gs| ==> gs[i].name != name
    ensures CountFor(Sessions(gs, t4, t6).saps, name, false) == 0
  {
    var p4 := RunTable(gs, t4);
    var p6 := RunTable(p4.guests, t6);
    if t4.Table? {
      LinesNone(gs, t4.lines, name);
    }
    if t6.Table? {
      LinesNone(p4.guests, t6.lines, name);
    }
    MissedCountNone(p6.guests, name, false);
    CountConcat(p4.saps, p6.saps, name, false);
    CountConcat(p4.saps + p6.saps, MissedSaps(p6.guests), name, false);
  }

  /** How many lines have the port of a domain with VNC. */
  function LinesOf(dom: Dom, t4: Table, t6: Table): nat {
    match VncGuest(dom) case None => 0 case Some(g) => Matches(AllLines(t4, t6), g, false)
  }

  /** Every domain with VNC has a session. */
  predicate AllBusy(doms: seq<Dom>, t4: Table, t6: Table) {
    forall i :: 0 <= i < |doms| && VncGuest(doms[i]).Some? ==> LinesOf(doms[i], t4, t6) > 0
  }

  lemma MissedIsIdle(g: Guest, t4: Table, t6: Table)
    requires ShowsPorts(AllLines(t4, t6))
    ensures Missed(g, t4, t6) <==> Matches(AllLines(t4, t6), g, false) == 0
  {
    PortsAreActive(AllLines(t4, t6), g);
  }

  lemma BusyGuests(doms: seq<Dom>, t4: Table, t6: Table)
    requires GuestsOf(doms).Some? && ShowsPorts(AllLines(t4, t6))
    ensures AllBusy(doms, t4, t6) <==> NoneIsMissed(GuestsOf(doms).value, t4, t6)
  {
    var gs := GuestsOf(doms).value;
    GuestsGiven(doms);
    if AllBusy(doms, t4, t6) {
      forall k | 0 <= k < |gs| ensures !Missed(gs[k], t4, t6) {
        assert gs[k] in gs;
        MissedIsIdle(gs[k], t4, t6);
      }
    } else {
      var i :| 0 <= i < |doms| && VncGuest(doms[i]).Some? && LinesOf(doms[i], t4, t6) == 0;
      var g := VncGuest(doms[i]).value;
      MissedIsIdle(g, t4, t6);
      assert g in gs;
    }
  }

  /** The whole enumeration, with the ports that the kernel writes: it succeeds
      exactly when there is no domain, or every VNC port is a number and the second
      table parses, or the first does and every domain with VNC has a session. */
  lemma EnumerationSucceeds(doms: seq<Dom>, t4: Table, t6: Table)
    requires NamesDiffer(doms) && ShowsPorts(AllLines(t4, t6))
    ensures Enumerated(Some(doms), t4, t6).ok
            <==> doms == [] || (PortsAreNumbers(doms) && (Parses(t6) || (Parses(t4) && AllBusy(doms, t4, t6))))
  {
    GuestsGiven(doms);
    if PortsAreNumbers(doms) {
      GuestsAreNew(doms);
      StatusExactly(GuestsOf(doms).value, t4, t6);
      BusyGuests(doms, t4, t6);
    }
  }

  /** And then every domain with VNC has one instance per line with its port, or one
      inactive instance if there is no such line; no other domain has any. */
  lemma EnumerationCounts(doms: seq<Dom>, t4: Table, t6: Table, i: nat)
    requires i < |doms| && NamesDiffer(doms) && ShowsPorts(AllLines(t4, t6))
    requires Enumerated(Some(doms), t4, t6).ok
    ensures var (saps, name, n) := (Enumerated(Some(doms), t4, t6).saps, doms[i].name, LinesOf(doms[i], t4, t6));
            if FirstVnc(doms[i].graphics.GetOr([])).None? then CountFor(saps, name, false) == 0
            else CountFor(saps, name, false) == (if n == 0 then 1 else n)
                 && CountFor(saps, name, true) == (if n == 0 then 1 else 0)
  {
    var gs := GuestsOf(doms).value;
    GuestsGiven(doms);
    GuestsAreNew(doms);
    if FirstVnc(doms[i].graphics.GetOr([])).None? {
      forall k | 0 <= k < |gs| ensures gs[k].name != doms[i].name {
        assert gs[k] in gs;
        var j :| 0 <= j < |doms| && VncGuest(doms[j]) == Some(gs[k]);
        assert j != i;
      }
      NotListed(gs, t4, t6, doms[i].name);
    } else {
      var g := VncGuest(doms[i]).value;
      assert g in gs;
      var k :| 0 <= k < |gs| && gs[k] == g;
      KernelPorts(gs, t4, t6, k);
    }
  }

  // ----- the instances themselves

  /** A guest's port as the tables show it. */
  predicate Shows(lport: Word32, port: int) {
    if port >= 0 then lport == port else lport == port + 0x1_0000_0000
  }

  /** A table's number read as an int. */
  function AsInt(n: Word32): int {
    if n < 0x8000_0000 then n else n - 0x1_0000_0000
  }

  /** One instance per guest whose port a line shows, with its name, its port and the
      line's remote port. */
  function LineSaps(gs: seq<Guest>, row: Line): seq<Sap>
    requires row.Row?
  {
    if gs == [] then []
    else
      (if Shows(row.lport, gs[0].port) then [Sap(gs[0].name, gs[0].port, AsInt(row.rport))] else [])
      + LineSaps(gs[1..], row)
  }

  function LinesSaps(gs: seq<Guest>, lines: seq<Line>): seq<Sap>
    requires Clean(lines)
    decreases |lines|
  {
    if lines == [] then [] else LineSaps(gs, lines[0]) + LinesSaps(gs, lines[1..])
  }

  /** One instance without a remote port for each guest that was missed. */
  function IdleSaps(gs: seq<Guest>, t4: Table, t6: Table): seq<Sap> {
    if gs == [] then []
    else (if Missed(gs[0], t4, t6) then [Sap(gs[0].name, gs[0].port, -1)] else []) + IdleSaps(gs[1..], t4, t6)
  }

  /** Ports are ints. */
  predicate Ints(gs: seq<Guest>) {
    forall i :: 0 <= i < |gs| ==> -0x8000_0000 <= gs[i].port < 0x8000_0000
  }

  /** The same guests, whatever their remote ports. */
  predicate Same(gs: seq<Guest>, hs: seq<Guest>) {
    |gs| == |hs| && forall i :: 0 <= i < |gs| ==> gs[i].name == hs[i].name && gs[i].port == hs[i].port
  }

  lemma {:induction false} RowSapsAre(gs: seq<Guest>, hs: seq<Guest>, row: Line)
    requires row.Row? && Ints(gs) && Same(gs, hs)
    ensures RowSaps(hs, row) == LineSaps(gs, row)
    decreases |gs|
  {
    if gs != [] {
      assert forall i :: 0 <= i < |gs[1..]| ==> gs[1..][i] == gs[i + 1] && hs[1..][i] == hs[i + 1];
      RowSapsAre(gs[1..], hs[1..], row);
      assert Unsigned(gs[0].port) == if gs[0].port >= 0 then gs[0].port else gs[0].port + 0x1_0000_0000;
    }
  }

  lemma {:induction false} LinesSapsAre(gs: seq<Guest>, hs: seq<Guest>, lines: seq<Line>)
    requires Clean(lines) && Ints(gs) && Same(gs, hs)
    ensures RunLines(hs, lines).saps == LinesSaps(gs, lines) && Same(gs, RunLines(hs, lines).guests)
    decreases |lines|
  {
    if lines != [] {
      RowSapsAre(gs, hs, lines[0]);
      LinesSapsAre(gs, AllAfterRow(hs, lines[0]), lines[1..]);
    }
  }

  lemma TableSapsAre(gs: seq<Guest>, hs: seq<Guest>, t: Table)
    requires Ints(gs) && Same(gs, hs)
    ensures RunTable(hs, t).saps == LinesSaps(gs, LinesRead(t)) && Same(gs, RunTable(hs, t).guests)
  {
    if t.Table? && t.heading {
      RunPrefix(hs, t.lines);
      LinesSapsAre(gs, hs, LinesRead(t));
    }
  }

  lemma {:induction false} LinesSapsConcat(gs: seq<Guest>, a: seq<Line>, b: seq<Line>)
    requires Clean(a) && Clean(b)
    ensures Clean(a + b) && LinesSaps(gs, a + b) == LinesSaps(gs, a) + LinesSaps(gs, b)
    decreases |a|
  {
    if a == [] {
      assert a + b == b && [] + LinesSaps(gs, b) == LinesSaps(gs, b);
    } else {
      assert (a + b)[0] == a[0] && (a + b)[1..] == a[1..] + b;
      LinesSapsConcat(gs, a[1..], b);
      Associative(LineSaps(gs, a[0]), LinesSaps(gs, a[1..]), LinesSaps(gs, b));
    }
  }

  lemma {:induction false} MissedSapsAre(gs: seq<Guest>, hs: seq<Guest>, t4: Table, t6: Table)
    requires Same(gs, hs)
    requires forall i :: 0 <= i < |gs| ==> (hs[i].remote == -1 <==> Missed(gs[i], t4, t6))
    ensures MissedSaps(hs) == IdleSaps(gs, t4, t6)
    decreases |gs|
  {
    if gs != [] {
      assert forall i :: 0 <= i < |gs[1..]| ==> gs[1..][i] == gs[i + 1] && hs[1..][i] == hs[i + 1];
      MissedSapsAre(gs[1..], hs[1..], t4, t6);
    }
  }

  /** All instances, in order: line by line those of the guests with the line's port,
      and then, unless the call fails, those of the guests that were missed. */
  lemma SapsExactly(gs: seq<Guest>, t4: Table, t6: Table)
    requires Apart(gs) && Ints(gs) && forall k :: 0 <= k < |gs| ==> gs[k].remote == -1
    ensures Clean(AllLines(t4, t6))
    ensures Sessions(gs, t4, t6).saps
            == LinesSaps(gs, AllLines(t4, t6)) + if Sessions(gs, t4, t6).ok then IdleSaps(gs, t4, t6) else []
  {
    var p4 := RunTable(gs, t4);
    var p6 := RunTable(p4.guests, t6);
    TableSapsAre(gs, gs, t4);
    TableSapsAre(gs, p4.guests, t6);
    LinesSapsConcat(gs, LinesRead(t4), LinesRead(t6));
    forall i | 0 <= i < |gs| ensures p6.guests[i].remote == -1 <==> Missed(gs[i], t4, t6) {
      BothTables(gs, t4, t6, i, false);
    }
    MissedSapsAre(gs, p6.guests, t4, t6);
    assert p4.saps + p6.saps + [] == p4.saps + p6.saps;
  }

  /** Without domains there is nothing to list; when they cannot be had the call fails. */
  lemma NoDomains(t4: Table, t6: Table)
    ensures Enumerated(None, t4, t6) == Outcome(false, []) && Enumerated(Some([]), t4, t6) == Outcome(true, [])
  {
  }

  /** The lines read from a table are those before the first that makes no sense. */
  lemma {:induction false} PrefixExactly(lines: seq<Line>)
    ensures var n := |CleanPrefix(lines)|;
            && n <= |lines| && CleanPrefix(lines) == lines[..n]
            && (n < |lines| ==> lines[n].Garbled?)
    decreases |lines|
  {
    if lines != [] && lines[0].Row? {
      PrefixExactly(lines[1..]);
      var n := |CleanPrefix(lines[1..])|;
      assert lines[..n + 1] == [lines[0]] + lines[1..][..n];
    }
  }

  /** A guest's port is that of its first VNC device. */
  lemma {:induction false} FirstVncExactly(devs: seq<Dev<G.Graphics>>, i: nat)
    requires forall j :: 0 <= j < i && j < |devs| ==> !EqNoCase(devs[j].dev.kind, "vnc")
    ensures i < |devs| && EqNoCase(devs[i].dev.kind, "vnc") ==> FirstVnc(devs) == Some(devs[i].dev)
    ensures |devs| <= i ==> FirstVnc(devs).None?
    decreases |devs|
  {
    if devs != [] && i > 0 {
      assert forall j :: 0 <= j < |devs[1..]| ==> devs[1..][j] == devs[j + 1];
      FirstVncExactly(devs[1..], i - 1);
    }
  }
}
