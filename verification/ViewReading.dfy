/** What the parsers of consoles, graphics, controllers and the plain devices of
    libxkutil/device_parsing.c find in an element, told for every element and field by
    field, without their loops. */
module ViewReading {
  import opened Prelude
  import opened Decimal
  import opened Xml
  import opened XPath
  import opened Devices
  import C = ConsoleXml
  import G = GraphicsXml
  import L = ControllerXml
  import P = PlainXml

  // ----- consoles

  /** The types of console that are known, ignoring case. */
  lemma SourceTypes(name: string)
    ensures C.SourceOf(name).NullDev? <==> EqNoCase(name, "null")
    ensures C.SourceOf(name).Vc? <==> EqNoCase(name, "vc")
    ensures C.SourceOf(name) == C.Pty(None) <==> EqNoCase(name, "pty")
    ensures C.SourceOf(name) == C.HostDev(None) <==> EqNoCase(name, "dev")
    ensures C.SourceOf(name) == C.File(None) <==> EqNoCase(name, "file")
    ensures C.SourceOf(name) == C.Pipe(None) <==> EqNoCase(name, "pipe")
  {
    assert Lower("null") == "null" && Lower("vc") == "vc" && Lower("pty") == "pty" && Lower("dev") == "dev";
    assert Lower("file") == "file" && Lower("pipe") == "pipe";
  }

  lemma MoreSourceTypes(name: string)
    ensures C.SourceOf(name).Stdio? <==> EqNoCase(name, "stdio")
    ensures C.SourceOf(name) == C.Udp(None, None, None, None) <==> EqNoCase(name, "udp")
    ensures C.SourceOf(name) == C.Tcp(None, None, None, None) <==> EqNoCase(name, "tcp")
    ensures C.SourceOf(name) == C.UnixSock(None, None) <==> EqNoCase(name, "unix")
    ensures C.SourceOf(name).SpiceVmc? <==> EqNoCase(name, "spicevmc")
  {
    assert Lower("stdio") == "stdio" && Lower("udp") == "udp";
    assert Lower("tcp") == "tcp" && Lower("unix") == "unix" && Lower("spicevmc") == "spicevmc";
  }

  predicate Binds(k: Tree) {
    Name(k) == "source" && GetAttr(k, "mode").Some? && EqNoCase(GetAttr(k, "mode").value, "bind")
  }

  predicate Connects(k: Tree) {
    Name(k) == "source" && GetAttr(k, "mode").Some? && !Binds(k) && EqNoCase(GetAttr(k, "mode").value, "connect")
  }

  /** An attribute of the last child with a property. */
  function AttrWith(kids: seq<Tree>, p: Tree -> bool, key: string, was: Option<string>): Option<string> {
    match LastWith(kids, p) case None => was case Some(k) => GetAttr(k, key)
  }

  /** What the children say of a console of each type. */
  function SourceFound(s: C.Source, kids: seq<Tree>): C.Source {
    match s
    case Pty(path) => C.Pty(LastAttr(kids, "source", "path", path))
    case HostDev(path) => C.HostDev(LastAttr(kids, "source", "path", path))
    case File(path) => C.File(LastAttr(kids, "source", "path", path))
    case Pipe(path) => C.Pipe(LastAttr(kids, "source", "path", path))
    case UnixSock(mode, path) =>
      C.UnixSock(LastAttr(kids, "source", "mode", mode), LastAttr(kids, "source", "path", path))
    case Udp(bh, bs, ch, cs) =>
      C.Udp(AttrWith(kids, Binds, "host", bh), AttrWith(kids, Binds, "service", bs),
            AttrWith(kids, Connects, "host", ch), AttrWith(kids, Connects, "service", cs))
    case Tcp(mode, host, service, protocol) =>
      C.Tcp(LastAttr(kids, "source", "mode", mode), LastAttr(kids, "source", "host", host),
            LastAttr(kids, "source", "service", service), LastAttr(kids, "protocol", "type", protocol))
    case _ => s
  }

  /** The sources of a UDP console bind or connect. */
  predicate SourcesAccepted(s: C.Source, kids: seq<Tree>) {
    s.Udp? ==> forall i :: 0 <= i < |kids| && Name(kids[i]) == "source" ==> Binds(kids[i]) || Connects(kids[i])
  }

  /** The first target, if it comes first, has a port. */
  predicate TargetAccepted(port: Option<string>, kids: seq<Tree>) {
    port.None? && FirstNode(kids, "target").Some? ==> GetAttr(FirstNode(kids, "target").value, "port").Some?
  }

  function ConsoleFound(p: C.Partial, kids: seq<Tree>): C.Partial {
    var target := FirstNode(kids, "target");
    var here := p.port.None? && target.Some?;
    C.Partial(C.Console(SourceFound(p.console.source, kids),
                        if here then GetAttr(target.value, "type") else p.console.targetType),
              if here then GetAttr(target.value, "port") else p.port)
  }

  lemma SourceNext(s: C.Source, kids: seq<Tree>)
    requires kids != [] && Name(kids[0]) == "source" && C.SourceStep(s, kids[0]).Some?
    ensures SourceFound(s, kids) == SourceFound(C.SourceStep(s, kids[0]).value, kids[1..])
  {
    match s
    case Pty(path) => LastAttrNext(kids, "source", "path", path);
    case HostDev(path) => LastAttrNext(kids, "source", "path", path);
    case File(path) => LastAttrNext(kids, "source", "path", path);
    case Pipe(path) => LastAttrNext(kids, "source", "path", path);
    case UnixSock(mode, path) =>
      LastAttrNext(kids, "source", "mode", mode);
      LastAttrNext(kids, "source", "path", path);
    case Udp(_, _, _, _) =>
    case Tcp(mode, host, service, protocol) =>
      LastAttrNext(kids, "source", "mode", mode);
      LastAttrNext(kids, "source", "host", host);
      LastAttrNext(kids, "source", "service", service);
      LastAttrNext(kids, "protocol", "type", protocol);
    case _ =>
  }

  lemma OtherNext(s: C.Source, kids: seq<Tree>)
    requires kids != [] && Name(kids[0]) != "source"
    ensures var here := Name(kids[0]) == "protocol" && s.Tcp?;
            SourceFound(s, kids)
            == SourceFound(if here then s.(protocol := GetAttr(kids[0], "type")) else s, kids[1..])
  {
    LastNodeNext(kids, "source");
    match s
    case Udp(_, _, _, _) =>
    case Tcp(_, _, _, _) => LastNodeNext(kids, "protocol");
    case _ =>
  }

  lemma SourcesAcceptedNext(s: C.Source, kids: seq<Tree>)
    requires kids != []
    ensures SourcesAccepted(s, kids)
            <==> (Name(kids[0]) == "source" ==> C.SourceStep(s, kids[0]).Some?) && SourcesAccepted(s, kids[1..])
  {
    assert forall i :: 0 < i < |kids| ==> kids[i] == kids[1..][i - 1];
    assert forall i :: 0 <= i < |kids[1..]| ==> kids[1..][i] == kids[i + 1];
  }

  lemma SameAccepted(s: C.Source, t: C.Source, kids: seq<Tree>)
    requires s.Udp? <==> t.Udp?
    ensures SourcesAccepted(s, kids) <==> SourcesAccepted(t, kids)
  {
  }

  lemma ConsoleNext(p: C.Partial, kids: seq<Tree>)
    requires kids != []
    ensures SourcesAccepted(p.console.source, kids) && TargetAccepted(p.port, kids)
            <==> C.ConsoleStep(p, kids[0]).Some?
                 && SourcesAccepted(C.ConsoleStep(p, kids[0]).value.console.source, kids[1..])
                 && TargetAccepted(C.ConsoleStep(p, kids[0]).value.port, kids[1..])
    ensures C.ConsoleStep(p, kids[0]).Some? ==>
              ConsoleFound(p, kids) == ConsoleFound(C.ConsoleStep(p, kids[0]).value, kids[1..])
  {
    var s := p.console.source;
    FirstNodeNext(kids, "target");
    SourcesAcceptedNext(s, kids);
    if Name(kids[0]) == "source" {
      if C.SourceStep(s, kids[0]).Some? {
        SourceNext(s, kids);
        SameAccepted(s, C.SourceStep(s, kids[0]).value, kids[1..]);
      }
    } else {
      OtherNext(s, kids);
      if s.Tcp? {
        SameAccepted(s, s.(protocol := GetAttr(kids[0], "type")), kids[1..]);
      }
    }
  }

  lemma {:induction false} ConsoleLoop(p: C.Partial, kids: seq<Tree>)
    ensures Fold(C.ConsoleStep, p, kids)
            == if SourcesAccepted(p.console.source, kids) && TargetAccepted(p.port, kids)
               then Some(ConsoleFound(p, kids)) else None
    decreases |kids|
  {
    if kids == [] {
      assert ConsoleFound(p, kids) == p;
    } else {
      ConsoleNext(p, kids);
      var next := C.ConsoleStep(p, kids[0]);
      if next.Some? {
        ConsoleLoop(next.value, kids[1..]);
      }
    }
  }

  /** A <console> is read exactly when it has a type that is known, its first target, if
      any, has a port, and for UDP every source binds or connects.  The first target and
      the last source count. */
  lemma ConsoleRead(x: Tree)
    requires x.Element?
    ensures C.ConsoleDevice(x)
            == if GetAttr(x, "type").None? || C.SourceOf(GetAttr(x, "type").value).Unsupported?
                  || !SourcesAccepted(C.SourceOf(GetAttr(x, "type").value), x.kids) || !TargetAccepted(None, x.kids)
               then None
               else
                 var target := FirstNode(x.kids, "target");
                 var port := if target.None? then None else GetAttr(target.value, "port");
                 Some(Dev(RES_CONSOLE,
                          C.Console(SourceFound(C.SourceOf(GetAttr(x, "type").value), x.kids),
                                    if target.None? then None else GetAttr(target.value, "type")),
                          Some("charconsole:" + if port.None? then "(null)" else port.value)))
  {
    if GetAttr(x, "type").Some? {
      ConsoleLoop(C.ConsoleStart(C.SourceOf(GetAttr(x, "type").value)), x.kids);
    }
  }

  // ----- graphics

  lemma {:induction false} PtyLoop(g: G.Graphics, kids: seq<Tree>)
    ensures Fold(G.PtyStep, g, kids)
            == Some(g.(host := LastAttr(kids, "source", "path", g.host),
                       port := LastAttr(kids, "target", "port", g.port)))
    decreases |kids|
  {
    if kids != [] {
      LastAttrNext(kids, "source", "path", g.host);
      LastAttrNext(kids, "target", "port", g.port);
      PtyLoop(G.PtyStep(g, kids[0]).value, kids[1..]);
    }
  }

  /** A <graphics> or <console> read as graphics: VNC with its defaults, SDL, or a pty
      under the name of its element; anything else is none. */
  lemma GraphicsRead(x: Tree, kind: string)
    requires x.Element? && (x.name == "graphics" || x.name == "console") && GetAttr(x, "type") == Some(kind)
    ensures EqNoCase(kind, "vnc") ==>
              G.GraphicsDevice(x)
              == Some(Dev(RES_GRAPHICS,
                          G.Graphics(kind, if GetAttr(x, "port").None? then Some("-1") else GetAttr(x, "port"),
                                     if GetAttr(x, "listen").None? then Some("127.0.0.1") else GetAttr(x, "listen"),
                                     GetAttr(x, "keymap"), GetAttr(x, "passwd")),
                          Some(kind)))
    ensures EqNoCase(kind, "sdl") ==>
              G.GraphicsDevice(x)
              == Some(Dev(RES_GRAPHICS,
                          G.Graphics(kind, GetAttr(x, "display"), GetAttr(x, "xauth"), GetAttr(x, "fullscreen"), None),
                          Some(kind + ":" + if GetAttr(x, "display").None? then "(null)"
                                            else GetAttr(x, "display").value)))
    ensures EqNoCase(kind, "pty") ==>
              var port := LastAttr(x.kids, "target", "port", None);
              G.GraphicsDevice(x)
              == Some(Dev(RES_GRAPHICS,
                          G.Graphics(x.name, port, LastAttr(x.kids, "source", "path", None), None, None),
                          Some(x.name + ":" + if port.None? then "(null)" else port.value)))
    ensures !EqNoCase(kind, "vnc") && !EqNoCase(kind, "sdl") && !EqNoCase(kind, "pty") ==>
              G.GraphicsDevice(x).None?
  {
    assert Lower("vnc")[0] == 'v' && Lower("sdl")[0] == 's' && Lower("pty")[0] == 'p';
    assert |Lower("graphics")| == 8 && |Lower("console")| == 7 && |Lower("vnc")| == 3;
    PtyLoop(G.Graphics(x.name, None, None, None, None), x.kids);
  }

  // ----- controllers

  /** The types of controller that are known, ignoring case. */
  lemma ProtocolTypes(name: string)
    ensures L.ProtocolOf(name).Ide? <==> EqNoCase(name, "ide")
    ensures L.ProtocolOf(name).Fdc? <==> EqNoCase(name, "fdc")
    ensures L.ProtocolOf(name).Scsi? <==> EqNoCase(name, "scsi")
    ensures L.ProtocolOf(name).Sata? <==> EqNoCase(name, "sata")
    ensures L.ProtocolOf(name).Ccid? <==> EqNoCase(name, "ccid")
    ensures L.ProtocolOf(name).VirtioSerial? <==> EqNoCase(name, "virtio-serial")
    ensures L.ProtocolOf(name).Pci? <==> EqNoCase(name, "pci")
    ensures L.ProtocolOf(name).Usb? <==> EqNoCase(name, "usb")
  {
    assert Lower("ide") == "ide" && Lower("fdc") == "fdc" && Lower("scsi") == "scsi" && Lower("sata") == "sata";
    assert Lower("ccid") == "ccid" && Lower("virtio-serial") == "virtio-serial" && Lower("pci") == "pci";
    assert Lower("usb") == "usb";
  }

  lemma {:induction false} ControllerLoop(c: L.Controller, kids: seq<Tree>)
    ensures Fold(L.ControllerStep, c, kids)
            == Some(c.(queues := LastAttr(kids, "driver", "queues", c.queues),
                       address := c.address + Addresses(kids)))
    decreases |kids|
  {
    if kids == [] {
      assert c.address + [] == c.address;
    } else {
      LastAttrNext(kids, "driver", "queues", c.queues);
      AddressesNext(c.address, kids);
      ControllerLoop(L.ControllerStep(c, kids[0]).value, kids[1..]);
    }
  }

  /** A <controller> is read exactly when it has a type that is known and an index; its
      queues are those that libvirt writes. */
  lemma ControllerRead(x: Tree)
    requires x.Element?
    ensures L.ControllerDevice(x)
            == if GetAttr(x, "type").None? || L.ProtocolOf(GetAttr(x, "type").value).OtherProtocol?
                  || GetAttr(x, "index").None?
               then None
               else
                 var index := ScanU64(GetAttr(x, "index").value).GetOr(0);
                 Some(Dev(RES_CONTROLLER,
                          L.Controller(L.ProtocolOf(GetAttr(x, "type").value), index, GetAttr(x, "model"),
                                       GetAttr(x, "ports"), GetAttr(x, "vectors"),
                                       LastAttr(x.kids, "driver", "queues", None), Addresses(x.kids)),
                          Some("controller:" + GetAttr(x, "type").value + ":" + Digits(index))))
  {
    if GetAttr(x, "type").Some? && GetAttr(x, "index").Some? {
      ControllerLoop(L.ControllerStart(x, GetAttr(x, "type").value, GetAttr(x, "index").value), x.kids);
      assert [] + Addresses(x.kids) == Addresses(x.kids);
    }
  }

  // ----- plain devices

  /** Input devices and the emulator. */
  lemma PlainRead(x: Tree)
    ensures P.InputDevice(x)
            == if GetAttr(x, "type").None? || GetAttr(x, "bus").None? then None
               else Some(Dev(RES_INPUT, P.Input(GetAttr(x, "type"), GetAttr(x, "bus")),
                             Some(GetAttr(x, "type").value + ":" + GetAttr(x, "bus").value)))
    ensures P.EmuDevice(x) == Some(Dev(RES_EMU, P.Emu(Some(Content(x))), None))
  {
  }

  /** The processors are as many as the number says, or one if it cannot be read. */
  lemma VcpuRead(x: Tree, n: nat)
    requires n < I32 && Content(x) == Digits(n)
    ensures P.VcpuDevice(x) == Some(Dev(RES_PROC, P.Vcpu(n, 0, 0), Some("proc")))
  {
    PrintScan(n);
  }

  lemma VcpuUnreadable(x: Tree)
    requires Content(x) == "" || 'g' <= Content(x)[0] <= 'z'
    ensures P.VcpuDevice(x) == Some(Dev(RES_PROC, P.Vcpu(1, 0, 0), Some("proc")))
  {
    NoNumber(Content(x), true);
  }

  /** One memory element counts for both sizes; two make one device, in either order,
      whose dump setting is that of <memory>. */
  lemma MemRead(current: Tree, memory: Tree, size: nat, maxsize: nat)
    requires Name(current) == "currentMemory" && Content(current) == Digits(size) && size < U64
    requires Name(memory) == "memory" && Content(memory) == Digits(maxsize) && maxsize < U64
    ensures var dump := GetAttr(memory, "dumpCore");
            var core := if dump.Some? && EqNoCase(dump.value, "on") then P.DumpCoreOn
                        else if dump.Some? && EqNoCase(dump.value, "off") then P.DumpCoreOff
                        else P.DumpCoreNotSet;
            && P.Coalesced(ParseAll([current, memory], P.MemDevice))
               == [Dev(RES_MEM, P.Mem(size, maxsize, core), Some("mem"))]
            && P.Coalesced(ParseAll([memory, current], P.MemDevice))
               == [Dev(RES_MEM, P.Mem(size, maxsize, core), Some("mem"))]
            && P.Coalesced(ParseAll([memory], P.MemDevice))
               == [Dev(RES_MEM, P.Mem(maxsize, maxsize, core), Some("mem"))]
            && P.Coalesced(ParseAll([current], P.MemDevice))
               == [Dev(RES_MEM, P.Mem(size, size, P.DumpCoreNotSet), Some("mem"))]
  {
    PrintScan(size);
    PrintScan(maxsize);
    var a, b := P.MemDevice(current).value, P.MemDevice(memory).value;
    ParseAllExact([current, memory], P.MemDevice, [a, b]);
    ParseAllExact([memory, current], P.MemDevice, [b, a]);
    ParseAllExact([memory], P.MemDevice, [b]);
    ParseAllExact([current], P.MemDevice, [a]);
  }

  /** With any other number of elements the first one counts alone, for both sizes. */
  lemma FirstMemCounts(halves: seq<P.Mem>)
    requires halves != [] && |halves| != 2
    ensures var m := halves[0];
            var n := if m.size > m.maxsize then m.size else m.maxsize;
            P.Coalesced(halves) == [Dev(RES_MEM, P.Mem(n, n, m.dumpCore), Some("mem"))]
    ensures P.Coalesced([]) == []
  {
  }

  // ----- what is printed and never read back

  /** The port of a VNC device decides whether it is chosen automatically. */
  lemma AutoportPrinted(g: G.Graphics)
    requires EqNoCase(g.kind, "vnc")
    ensures GetAttr(G.GraphicsTree(g), "autoport")
            == if g.port.None? then None else if g.port == Some("-1") then Some("yes") else Some("no")
  {
    var start := Prop("type", g.kind) + G.PortAttrs(g.port) + OptAttr("listen", g.host) + OptAttr("passwd", g.passwd);
    G.Kinds(g.kind);
    G.PortRead(g.port);
    LookupGroups(Prop("type", g.kind), G.PortAttrs(g.port), OptAttr("listen", g.host), OptAttr("passwd", g.passwd));
    LookupConcat(start, OptAttr("keymap", g.keymap), "autoport");
    if g.port.Some? {
      EqNoCaseExactly(g.port.value, "-1");
      assert EqNoCase(g.port.value, "-1") ==> g.port.value[0] == '-' && g.port.value[1] == '1';
      assert EqNoCase(g.port.value, "-1") <==> g.port.value == "-1";
    }
  }

  lemma OptLeafRead(name: string, key: string, v: Option<string>)
    ensures LastAttr(OptLeaf(name, key, v), name, key, None) == v
  {
    if v.Some? {
      var leaf := Leaf(name, Prop(key, v.value));
      assert OptLeaf(name, key, v) == [leaf] && [leaf][1..] == [];
      assert Select([leaf], {name}) == [leaf];
    }
  }

  /** Queues are printed under the misspelt name, */
  lemma QueuesPrinted(c: L.Controller)
    ensures LastAttr(L.ControllerKids(c), "driver", "queueus", None) == c.queues
  {
    SelectConcat(OptLeaf("driver", "queueus", c.queues), AddressKids(c.address), {"driver"});
    SelectNone(AddressKids(c.address), {"driver"});
    OptLeafRead("driver", "queueus", c.queues);
    var nodes := Select(OptLeaf("driver", "queueus", c.queues), {"driver"});
    assert nodes + [] == nodes;
  }

  /** a console's target with nothing but its type, */
  lemma TargetPrinted(c: C.Console)
    ensures LastAttr(C.ConsoleTree(c).kids, "target", "type", None) == c.targetType
    ensures LastAttr(C.ConsoleTree(c).kids, "target", "port", None) == None
  {
    var target := OptLeaf("target", "type", c.targetType);
    SelectConcat(C.SourceKids(c.source), target, {"target"});
    SelectNone(C.SourceKids(c.source), {"target"});
    OptLeafRead("target", "type", c.targetType);
    assert [] + Select(target, {"target"}) == Select(target, {"target"});
    if c.targetType.Some? {
      assert target[1..] == [] && Select(target, {"target"}) == [target[0]];
    }
  }

  /** and the weight of the processors, as an int. */
  lemma WeightPrinted(devs: seq<Dev<P.Vcpu>>)
    requires devs != []
    ensures var (x, weight) := (P.CputuneKids(devs), devs[0].dev.weight);
            && |x| == 1 && Name(x[0]) == "cputune" && Has(x[0].kids, "shares")
            && (weight < I32 ==> Content(x[0]) == Digits(weight))
            && (I32 <= weight < U32 ==> Content(x[0]) == "-" + Digits(U32 - weight))
  {
    var x := P.CputuneKids(devs)[0];
    var text := P.WeightText(devs[0].dev.weight);
    assert x.kids == [TextLeaf("shares", Some(text))] && x.kids[0].name == "shares";
    assert x.kids[1..] == [] && Content(x.kids[0]) == text;
    assert Content(x) == Contents(x.kids) == Content(x.kids[0]) + Contents(x.kids[1..]);
  }

  /** Of several emulators the first is printed. */
  lemma EmuPrinted(devs: seq<Dev<P.Emu>>)
    requires devs != []
    ensures |P.EmuKids(devs)| == 1 && Name(P.EmuKids(devs)[0]) == "emulator"
    ensures Content(P.EmuKids(devs)[0]) == if devs[0].dev.path.Some? then devs[0].dev.path.value else ""
  {
  }

  /** The graphics printed are the VNC and SDL devices that were not removed. */
  lemma ShownExactly(x: Dev<G.Graphics>)
    ensures G.GraphicsKids([x])
            == if x.resType != 1000 && (EqNoCase(x.dev.kind, "vnc") || EqNoCase(x.dev.kind, "sdl"))
               then [G.GraphicsTree(x.dev)] else []
  {
    assert [x][1..] == [];
  }

  lemma {:induction false} GraphicsKidsConcat(a: seq<Dev<G.Graphics>>, b: seq<Dev<G.Graphics>>)
    ensures G.GraphicsKids(a + b) == G.GraphicsKids(a) + G.GraphicsKids(b)
    decreases |a|
  {
    if a == [] {
      assert a + b == b && [] + G.GraphicsKids(b) == G.GraphicsKids(b);
    } else {
      assert (a + b)[0] == a[0] && (a + b)[1..] == a[1..] + b;
      GraphicsKidsConcat(a[1..], b);
    }
  }

  /** Every controller can be printed but those of a type without a name. */
  lemma ControllerPrints(c: L.Controller)
    ensures L.ControllerElement(c).Some? <==> !c.protocol.OtherProtocol?
  {
  }
}
