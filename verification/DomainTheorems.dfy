/** The round trip of whole domains, list by list and all together. */
module DomainTheorems {
  import opened Prelude
  import opened Xml
  import opened Devices
  import opened OsXml
  import opened DomainXml
  import Dec = Decimal
  import R = DomainRoundTrip
  import D = DiskXml
  import N = NetXml
  import C = ConsoleXml
  import G = GraphicsXml
  import L = ControllerXml
  import P = PlainXml

  // ----- when the printed text can be parsed at all

  predicate DiskKeys(d: D.Disk) {
    DistinctKeys(d.address)
  }

  predicate NetKeys(d: N.Net) {
    DistinctKeys(d.address)
  }

  predicate ControllerKeys(c: L.Controller) {
    DistinctKeys(c.address)
  }

  /** No printed device repeats an address key. */
  predicate KeysDistinct(d: DeviceLists) {
    && (forall x :: x in Live(d.disks) ==> DiskKeys(x.dev))
    && (forall x :: x in Live(d.nets) ==> NetKeys(x.dev))
    && (forall x :: x in Live(d.controllers) ==> ControllerKeys(x.dev))
  }

  lemma NameWellFormed(b: Base)
    ensures AllWellFormed(NameKids(b))
  {
    var name, loader := [TextLeaf("name", b.name)], OptText("bootloader", b.bootloader);
    TextLeafWellFormed("name", b.name);
    TextLeafWellFormed("bootloader", b.bootloader);
    TextLeafWellFormed("bootloader_args", b.bootloaderArgs);
    AllWellFormedConcat(name, loader);
    AllWellFormedConcat(name + loader, OptText("bootloader_args", b.bootloaderArgs));
  }

  lemma ActionWellFormed(b: Base)
    ensures AllWellFormed(ActionKids(b)) && AllWellFormed(R.UuidKids(b))
  {
    TextLeafWellFormed("on_poweroff", Some(ActionText(b.onPoweroff)));
    TextLeafWellFormed("on_crash", Some(ActionText(b.onCrash)));
    TextLeafWellFormed("uuid", b.uuid);
    AllWellFormedConcat([TextLeaf("uuid", b.uuid)], OptLeaf("clock", "offset", b.clock));
  }

  lemma BaseWellFormed(b: Base)
    ensures AllWellFormed(BaseKids(b))
  {
    NameWellFormed(b);
    ActionWellFormed(b);
    OsWellFormed(b.system);
    FeaturesWellFormed(b.features);
    var last := [OsTree(b.system), FeatureTree(b.features)];
    assert AllWellFormed(last);
    AllWellFormedConcat(NameKids(b), ActionKids(b));
    AllWellFormedConcat(NameKids(b) + ActionKids(b), R.UuidKids(b));
    AllWellFormedConcat(NameKids(b) + ActionKids(b) + R.UuidKids(b), last);
  }

  lemma FeaturesWellFormed(f: Features)
    ensures WellFormed(FeatureTree(f))
  {
    assert forall k :: k in FeatureTree(f).kids ==> k.Element? && k.attrs == [] && k.kids == [];
  }

  lemma MiddleWellFormed(d: DeviceLists)
    ensures AllWellFormed(MiddleKids(d))
  {
    MemWellFormed(d.mems);
    VcpuWellFormed(d.vcpus);
    AllWellFormedConcat(P.MemKids(d.mems), P.VcpuKids(d.vcpus));
    AllWellFormedConcat(P.MemKids(d.mems) + P.VcpuKids(d.vcpus), P.CputuneKids(d.vcpus));
  }

  lemma MemWellFormed(mems: seq<Dev<P.Mem>>)
    ensures AllWellFormed(P.MemKids(mems))
  {
    if mems != [] {
      var kids := P.MemKids(mems);
      TextLeafWellFormed("currentMemory", Some(Dec.Digits(mems[0].dev.size)));
      assert WellFormed(kids[0]) && WellFormed(kids[1]);
    }
  }

  lemma VcpuWellFormed(vcpus: seq<Dev<P.Vcpu>>)
    ensures AllWellFormed(P.VcpuKids(vcpus)) && AllWellFormed(P.CputuneKids(vcpus))
  {
    if vcpus != [] {
      TextLeafWellFormed("vcpu", Some(Dec.Digits(vcpus[0].dev.quantity)));
      TextLeafWellFormed("shares", Some(P.WeightText(vcpus[0].dev.weight)));
    }
  }

  lemma DisksWellFormed(d: DeviceLists, s: System)
    requires CanPrint(d, s)
    ensures AllWellFormed(DeviceParts(d, s).disks) <==> forall x :: x in Live(d.disks) ==> DiskKeys(x.dev)
  {
    forall t: D.Disk | D.DiskElement(t).Some? ensures WellFormed(D.DiskElement(t).value) <==> DiskKeys(t) {
      D.DiskWellFormed(t);
    }
    PrintAllWellFormed(d.disks, D.DiskElement, DiskKeys);
  }

  lemma NetsWellFormed(d: DeviceLists, s: System)
    requires CanPrint(d, s)
    ensures AllWellFormed(DeviceParts(d, s).nets) <==> forall x :: x in Live(d.nets) ==> NetKeys(x.dev)
  {
    var elem := N.NetPrinter(Xen(s));
    forall t: N.Net | elem(t).Some? ensures WellFormed(elem(t).value) <==> NetKeys(t) {
      N.NetWellFormed(t, Xen(s));
    }
    PrintAllWellFormed(d.nets, elem, NetKeys);
  }

  lemma OneControllerWellFormed(c: L.Controller)
    requires L.ControllerElement(c).Some?
    ensures WellFormed(L.ControllerElement(c).value) <==> ControllerKeys(c)
  {
    L.ControllerWellFormed(c);
  }

  lemma ControllersWellFormed(d: DeviceLists, s: System)
    requires CanPrint(d, s)
    ensures AllWellFormed(DeviceParts(d, s).controllers)
            <==> forall x :: x in Live(d.controllers) ==> ControllerKeys(x.dev)
  {
    forall t: L.Controller | L.ControllerElement(t).Some?
      ensures WellFormed(L.ControllerElement(t).value) <==> ControllerKeys(t)
    {
      OneControllerWellFormed(t);
    }
    PrintAllWellFormed(d.controllers, L.ControllerElement, ControllerKeys);
  }

  lemma InputsWellFormed(d: DeviceLists, s: System)
    ensures AllWellFormed(DeviceParts(d, s).inputs)
  {
    forall t: P.Input ensures WellFormed(P.InputElement(t).value) {
      P.InputWellFormed(t);
    }
    P.AllInputsPrinted(d.inputs);
    PrintAllWellFormed(d.inputs, P.InputElement, (t: P.Input) => true);
  }

  lemma ConsolesWellFormed(d: DeviceLists, s: System)
    ensures AllWellFormed(DeviceParts(d, s).consoles) && AllWellFormed(DeviceParts(d, s).extra)
  {
    forall t: C.Console ensures WellFormed(C.ConsoleElement(t).value) {
      C.ConsoleWellFormed(t);
    }
    C.AllPrinted(d.consoles);
    PrintAllWellFormed(d.consoles, C.ConsoleElement, (t: C.Console) => true);
  }

  lemma {:induction false} GraphicsWellFormed(devs: seq<Dev<G.Graphics>>)
    ensures AllWellFormed(G.GraphicsKids(devs))
    decreases |devs|
  {
    if devs != [] {
      GraphicsWellFormed(devs[1..]);
      if G.Shown(devs[0]) {
        G.GraphicsWellFormed(devs[0].dev);
        AllWellFormedConcat([G.GraphicsTree(devs[0].dev)], G.GraphicsKids(devs[1..]));
      }
    }
  }

  lemma EmusWellFormed(emus: seq<Dev<P.Emu>>)
    ensures AllWellFormed(P.EmuKids(emus))
  {
    if emus != [] {
      TextLeafWellFormed("emulator", emus[0].dev.path);
    }
  }

  lemma PartsWellFormed(p: Parts)
    ensures AllWellFormed(DeviceKids(p))
            <==> (&& AllWellFormed(p.disks) && AllWellFormed(p.nets) && AllWellFormed(p.inputs)
                  && AllWellFormed(p.consoles) && AllWellFormed(p.graphics)
                  && AllWellFormed(p.emus) && AllWellFormed(p.controllers) && AllWellFormed(p.extra))
  {
    AllWellFormedConcat(p.disks, p.nets);
    AllWellFormedConcat(p.disks + p.nets, p.inputs);
    AllWellFormedConcat(p.consoles, p.graphics);
    AllWellFormedConcat(p.emus, p.controllers);
    AllWellFormedConcat(p.emus + p.controllers, p.extra);
    AllWellFormedConcat(p.disks + p.nets + p.inputs, p.consoles + p.graphics);
    AllWellFormedConcat((p.disks + p.nets + p.inputs) + (p.consoles + p.graphics), p.emus + p.controllers + p.extra);
  }

  lemma DevicesWellFormed(d: DeviceLists, s: System)
    requires CanPrint(d, s)
    ensures AllWellFormed(DeviceKids(DeviceParts(d, s))) <==> KeysDistinct(d)
  {
    PartsWellFormed(DeviceParts(d, s));
    DisksWellFormed(d, s);
    NetsWellFormed(d, s);
    InputsWellFormed(d, s);
    ConsolesWellFormed(d, s);
    GraphicsWellFormed(d.graphics);
    EmusWellFormed(d.emus);
    ControllersWellFormed(d, s);
  }

  lemma WellFormedAbove(x: Tree)
    requires x.Element? && DistinctKeys(x.attrs)
    ensures WellFormed(x) <==> AllWellFormed(x.kids)
    ensures AllWellFormed([x]) <==> WellFormed(x)
  {
    assert x in [x];
  }

  lemma RootWellFormed(b: Base, d: DeviceLists, p: Parts)
    ensures WellFormed(DomainTree(b, d, p)) <==> AllWellFormed(DeviceKids(p))
  {
    BaseWellFormed(b);
    MiddleWellFormed(d);
    AllWellFormedConcat(BaseKids(b), MiddleKids(d));
    AllWellFormedConcat(BaseKids(b) + MiddleKids(d), [DevicesTree(p)]);
    WellFormedAbove(DevicesTree(p));
    WellFormedAbove(DomainTree(b, d, p));
  }

  lemma PrintedWellFormed(b: Base, d: DeviceLists)
    requires Printed(b, d).Some?
    ensures WellFormed(Printed(b, d).value) <==> KeysDistinct(d)
  {
    RootWellFormed(b, d, DeviceParts(d, b.system));
    DevicesWellFormed(d, b.system);
  }

  lemma ReadExactly(x: Tree)
    requires x.Element? && x.name == "domain"
    ensures DomainFromXml(x)
            == if WellFormed(x) then Some(Domain(ReadBase(Reparse(x, 0)), ReadDevices(Reparse(x, 0)))) else None
  {
  }

  /** A printed domain can be parsed exactly when no printed device repeats an
      address key. */
  lemma ParsesExactly(b: Base, d: DeviceLists)
    requires Printed(b, d).Some?
    ensures DomainFromXml(Printed(b, d).value).Some? <==> KeysDistinct(d)
  {
    PrintedWellFormed(b, d);
    ReadExactly(Printed(b, d).value);
  }

  // ----- list by list

  /** What parsing the printed domain gives. */
  function Back(b: Base, d: DeviceLists): Domain
    requires Printed(b, d).Some?
  {
    var doc := Reparse(Printed(b, d).value, 0);
    Domain(ReadBase(doc), ReadDevices(doc))
  }

  lemma BackIsParsed(b: Base, d: DeviceLists)
    requires Printed(b, d).Some? && KeysDistinct(d)
    ensures DomainFromXml(Printed(b, d).value) == Some(Back(b, d))
  {
    PrintedWellFormed(b, d);
    ReadExactly(Printed(b, d).value);
  }

  lemma DiskNodes(b: Base, d: DeviceLists)
    requires Printed(b, d).Some?
    ensures var p := DeviceParts(d, b.system);
            DeviceNodes(Reparse(Printed(b, d).value, 0), {"disk", "filesystem"}) == ReparseAll(p.disks, 2)
  {
    var p := DeviceParts(d, b.system);
    R.PartsWellNamed(d, b.system);
    R.SelectDisks(p);
    R.DeviceNodesRead(b, d, p, {"disk", "filesystem"});
  }

  lemma NetNodes(b: Base, d: DeviceLists)
    requires Printed(b, d).Some?
    ensures var p := DeviceParts(d, b.system);
            DeviceNodes(Reparse(Printed(b, d).value, 0), {"interface"}) == ReparseAll(p.nets, 2)
  {
    var p := DeviceParts(d, b.system);
    R.PartsWellNamed(d, b.system);
    R.SelectNets(p);
    R.DeviceNodesRead(b, d, p, {"interface"});
  }

  lemma InputNodes(b: Base, d: DeviceLists)
    requires Printed(b, d).Some?
    ensures var p := DeviceParts(d, b.system);
            DeviceNodes(Reparse(Printed(b, d).value, 0), {"input"}) == ReparseAll(p.inputs, 2)
  {
    var p := DeviceParts(d, b.system);
    R.PartsWellNamed(d, b.system);
    R.SelectInputs(p);
    R.DeviceNodesRead(b, d, p, {"input"});
  }

  lemma EmuNodes(b: Base, d: DeviceLists)
    requires Printed(b, d).Some?
    ensures var p := DeviceParts(d, b.system);
            DeviceNodes(Reparse(Printed(b, d).value, 0), {"emulator"}) == ReparseAll(p.emus, 2)
  {
    var p := DeviceParts(d, b.system);
    R.PartsWellNamed(d, b.system);
    R.SelectEmus(p);
    R.DeviceNodesRead(b, d, p, {"emulator"});
  }

  lemma ControllerNodes(b: Base, d: DeviceLists)
    requires Printed(b, d).Some?
    ensures var p := DeviceParts(d, b.system);
            DeviceNodes(Reparse(Printed(b, d).value, 0), {"controller"}) == ReparseAll(p.controllers, 2)
  {
    var p := DeviceParts(d, b.system);
    R.PartsWellNamed(d, b.system);
    R.SelectControllers(p);
    R.DeviceNodesRead(b, d, p, {"controller"});
  }

  lemma ConsoleNodes(b: Base, d: DeviceLists)
    requires Printed(b, d).Some?
    ensures var p := DeviceParts(d, b.system);
            DeviceNodes(Reparse(Printed(b, d).value, 0), {"console"}) == ReparseAll(p.consoles + p.extra, 2)
  {
    var p := DeviceParts(d, b.system);
    R.PartsWellNamed(d, b.system);
    R.SelectConsoles(p);
    R.DeviceNodesRead(b, d, p, {"console"});
  }

  lemma GraphicsNodes(b: Base, d: DeviceLists)
    requires Printed(b, d).Some?
    ensures var p := DeviceParts(d, b.system);
            DeviceNodes(Reparse(Printed(b, d).value, 0), {"graphics", "console"})
            == ReparseAll(p.consoles + p.graphics + p.extra, 2)
  {
    var p := DeviceParts(d, b.system);
    R.PartsWellNamed(d, b.system);
    R.SelectGraphics(p);
    R.DeviceNodesRead(b, d, p, {"graphics", "console"});
  }

  predicate DiskKept(x: Dev<D.Disk>) {
    D.Printable(x.dev) && x.resType == RES_DISK && x.id == x.dev.virtualDev
  }

  predicate NetKept(x: Dev<N.Net>) {
    N.Printable(x.dev) && x.resType == RES_NET && x.id == x.dev.mac
  }

  predicate InputKept(x: Dev<P.Input>) {
    x.dev.kind.Some? && x.dev.bus.Some? && x.resType == RES_INPUT && x.id == P.InputId(x.dev)
  }

  predicate ControllerKept(x: Dev<L.Controller>) {
    && x.dev.index != L.INDEX_NOT_SET && x.dev.queues.None? && x.resType == RES_CONTROLLER
    && !x.dev.protocol.OtherProtocol?
    && x.id == L.ControllerId(L.ProtocolName(x.dev.protocol).value, x.dev.index)
  }

  predicate ConsoleKept(x: Dev<C.Console>) {
    x.dev.targetType.None? && C.SourcePrintable(x.dev.source) && x.resType == RES_CONSOLE && x.id == C.ConsoleId(None)
  }

  lemma DiskComesBack(x: Dev<D.Disk>)
    requires D.DiskElement(x.dev).Some? && DiskKeys(x.dev) && D.SourceGiven(x.dev)
    ensures D.DiskDevice(Reparse(D.DiskElement(x.dev).value, 2)) == Some(x) <==> DiskKept(x)
  {
    if x.dev.diskType == D.DiskFs {
      D.FileSystemIsLost(x.dev, 2);
    } else {
      D.DiskRoundTrip(x, 2);
    }
  }

  /** Disks, whatever their kind: those that were not removed come back, in order,
      exactly when all of them are block or file disks that lose nothing. */
  lemma DisksComeBack(b: Base, d: DeviceLists)
    requires Printed(b, d).Some? && KeysDistinct(d)
    requires D.SourcesGiven(d.disks)
    ensures Back(b, d).devices.disks == Live(d.disks) <==> forall x :: x in Live(d.disks) ==> DiskKept(x)
  {
    DiskNodes(b, d);
    LiveRoundTrip(d.disks, D.DiskElement, D.DiskDevice, 2);
    forall x | x in Live(d.disks)
      ensures D.DiskDevice(Reparse(D.DiskElement(x.dev).value, 2)) == Some(x) <==> DiskKept(x)
    {
      DiskComesBack(x);
    }
  }

  /** The parser copies an interface's MAC address without looking. */
  predicate MacsGiven(nets: seq<Dev<N.Net>>) {
    forall x :: x in Live(nets) ==> x.dev.mac.Some?
  }

  lemma NetsComeBack(b: Base, d: DeviceLists)
    requires Printed(b, d).Some? && KeysDistinct(d)
    requires MacsGiven(d.nets)
    ensures Back(b, d).devices.nets == Live(d.nets) <==> forall x :: x in Live(d.nets) ==> NetKept(x)
  {
    var elem := N.NetPrinter(Xen(b.system));
    NetNodes(b, d);
    LiveRoundTrip(d.nets, elem, N.NetDevice, 2);
    forall x | x in Live(d.nets)
      ensures N.NetDevice(Reparse(elem(x.dev).value, 2)) == Some(x) <==> NetKept(x)
    {
      assert NetKeys(x.dev) && elem(x.dev).Some?;
      N.NetRoundTrip(x, Xen(b.system), 2);
    }
  }

  lemma InputsComeBack(b: Base, d: DeviceLists)
    requires Printed(b, d).Some?
    ensures Back(b, d).devices.inputs == Live(d.inputs) <==> forall x :: x in Live(d.inputs) ==> InputKept(x)
  {
    InputNodes(b, d);
    P.AllInputsPrinted(d.inputs);
    LiveRoundTrip(d.inputs, P.InputElement, P.InputDevice, 2);
    forall x | x in Live(d.inputs)
      ensures P.InputDevice(Reparse(P.InputElement(x.dev).value, 2)) == Some(x) <==> InputKept(x)
    {
      P.InputRoundTrip(x, 2);
    }
  }

  lemma ControllerComesBack(x: Dev<L.Controller>)
    requires L.ControllerElement(x.dev).Some? && ControllerKeys(x.dev)
    ensures L.ControllerDevice(Reparse(L.ControllerElement(x.dev).value, 2)) == Some(x) <==> ControllerKept(x)
  {
    L.ControllerRoundTrip(x, 2);
  }

  lemma ControllersComeBack(b: Base, d: DeviceLists)
    requires Printed(b, d).Some? && KeysDistinct(d)
    ensures Back(b, d).devices.controllers == Live(d.controllers)
            <==> forall x :: x in Live(d.controllers) ==> ControllerKept(x)
  {
    ControllerNodes(b, d);
    LiveRoundTrip(d.controllers, L.ControllerElement, L.ControllerDevice, 2);
    forall x | x in Live(d.controllers)
      ensures L.ControllerDevice(Reparse(L.ControllerElement(x.dev).value, 2)) == Some(x) <==> ControllerKept(x)
    {
      ControllerComesBack(x);
    }
  }

  /** The console that every print of a container adds, as it is read. */
  function AddedConsole(s: System): seq<Dev<C.Console>> {
    if s.Container? then [Dev(RES_CONSOLE, C.Console(C.Pty(None), None), C.ConsoleId(None))] else []
  }

  lemma ExtraRead(s: System)
    ensures ParseAll(ReparseAll(ExtraConsole(s), 2), C.ConsoleDevice) == AddedConsole(s)
    ensures ParseAll(ReparseAll(ExtraConsole(s), 2), G.GraphicsDevice)
            == if s.Container? then [G.AsGraphics(C.Console(C.Pty(None), None)).value] else []
  {
    if s.Container? {
      var c := C.Console(C.Pty(None), None);
      var x := Leaf("console", Prop("type", "pty"));
      assert C.ConsoleTree(c) == x by {
        assert [] + [] == C.ConsoleTree(c).kids;
      }
      C.ConsoleReadBack(c, 2);
      G.ConsoleAsGraphics(c, 2);
      assert Reparse(x, 2) == x && [x][1..] == [];
      assert ReparseAll([x], 2) == [x];
      ParseAllExact([x], C.ConsoleDevice, AddedConsole(s));
      ParseAllExact([x], G.GraphicsDevice, [G.AsGraphics(c).value]);
    }
  }

  /** Consoles come back exactly when none has a target type or lacks a part of its
      source; a container's print adds one more each time. */
  lemma ConsolesComeBack(b: Base, d: DeviceLists)
    requires Printed(b, d).Some?
    ensures Back(b, d).devices.consoles == Live(d.consoles) + AddedConsole(b.system)
            <==> forall x :: x in Live(d.consoles) ==> ConsoleKept(x)
  {
    var p := DeviceParts(d, b.system);
    ConsoleNodes(b, d);
    C.AllPrinted(d.consoles);
    LiveRoundTrip(d.consoles, C.ConsoleElement, C.ConsoleDevice, 2);
    forall x | x in Live(d.consoles)
      ensures C.ConsoleDevice(Reparse(C.ConsoleElement(x.dev).value, 2)) == Some(x) <==> ConsoleKept(x)
    {
      C.ConsoleRoundTrip(x, 2);
    }
    ReparseAllConcat(p.consoles, p.extra, 2);
    var own := ParseAll(ReparseAll(p.consoles, 2), C.ConsoleDevice);
    ParseAllConcat(ReparseAll(p.consoles, 2), ReparseAll(p.extra, 2), C.ConsoleDevice);
    ExtraRead(b.system);
    SameFront(own, Live(d.consoles), AddedConsole(b.system));
  }

  lemma SameFront<T>(a: seq<T>, b: seq<T>, c: seq<T>)
    ensures a + c == b + c <==> a == b
  {
    if a + c == b + c {
      assert |a| == |b|;
      assert a == (a + c)[..|a|] == (b + c)[..|b|] == b;
    }
  }

  /** What is read as graphics: the pty consoles, then the graphics with their
      defaults, then a container's added console. */
  lemma GraphicsComeBack(b: Base, d: DeviceLists)
    requires Printed(b, d).Some?
    ensures Back(b, d).devices.graphics
            == G.ConsolesAsGraphics(d.consoles) + G.GraphicsReadAll(d.graphics)
               + if b.system.Container? then [G.AsGraphics(C.Console(C.Pty(None), None)).value] else []
  {
    var p := DeviceParts(d, b.system);
    GraphicsNodes(b, d);
    C.AllPrinted(d.consoles);
    G.SelectedGraphics(d.consoles, d.graphics, 2);
    ReparseAllConcat(p.consoles + p.graphics, p.extra, 2);
    ParseAllConcat(ReparseAll(p.consoles + p.graphics, 2), ReparseAll(p.extra, 2), G.GraphicsDevice);
    ExtraRead(b.system);
  }

  /** Graphics that come back as they were. */
  predicate GraphicsKept(x: Dev<G.Graphics>) {
    && G.Anchored(x.dev) && (G.IsSdl(x.dev.kind) ==> x.dev.passwd.None?)
    && x.resType == RES_GRAPHICS && x.id == G.GraphicsId(x.dev)
  }

  /** One graphics device as it is read back. */
  function GraphicsAgain(x: Dev<G.Graphics>): Dev<G.Graphics> {
    Dev(RES_GRAPHICS, G.GraphicsRead(x.dev), G.GraphicsId(G.GraphicsRead(x.dev)))
  }

  lemma OneGraphicsKept(x: Dev<G.Graphics>)
    requires G.Shown(x)
    ensures GraphicsAgain(x) == x <==> GraphicsKept(x)
  {
    G.Kinds(x.dev.kind);
  }

  lemma {:induction false} GraphicsAllKept(devs: seq<Dev<G.Graphics>>)
    requires forall x :: x in Live(devs) ==> G.Shown(x)
    ensures G.GraphicsReadAll(devs) == Live(devs) <==> forall x :: x in Live(devs) ==> GraphicsKept(x)
    decreases |devs|
  {
    if devs != [] {
      var x, rest := devs[0], devs[1..];
      if x.resType == RES_UNKNOWN {
        GraphicsAllKept(rest);
      } else {
        assert Live(devs) == [x] + Live(rest);
        assert x in Live(devs) && forall y :: y in Live(devs) <==> y == x || y in Live(rest);
        GraphicsAllKept(rest);
        OneGraphicsKept(x);
        ConsSame(GraphicsAgain(x), G.GraphicsReadAll(rest), x, Live(rest));
      }
    }
  }

  lemma ConsSame<T>(a: T, s: seq<T>, b: T, t: seq<T>)
    ensures [a] + s == [b] + t <==> a == b && s == t
  {
    if [a] + s == [b] + t {
      assert a == ([a] + s)[0] && s == ([a] + s)[1..] && b == ([b] + t)[0] && t == ([b] + t)[1..];
    }
  }

  lemma EmusComeBack(b: Base, d: DeviceLists)
    requires Printed(b, d).Some?
    ensures Back(b, d).devices.emus == d.emus
            <==> d.emus == [] || (&& |d.emus| == 1 && d.emus[0].resType == RES_EMU && d.emus[0].id.None?
                                  && d.emus[0].dev.path.Some?)
  {
    EmuNodes(b, d);
    P.EmuRoundTrip(d.emus, 2);
  }

  /** Memory always comes back, as one device. */
  lemma MemComesBack(b: Base, d: DeviceLists)
    requires Printed(b, d).Some?
    ensures Back(b, d).devices.mems == if d.mems == [] then [] else [Dev(RES_MEM, d.mems[0].dev, Some("mem"))]
  {
    R.MemNodesRead(b, d, DeviceParts(d, b.system));
    P.MemRoundTrip(d.mems, 1);
  }

  lemma VcpusComeBack(b: Base, d: DeviceLists)
    requires Printed(b, d).Some?
    ensures Back(b, d).devices.vcpus == d.vcpus <==> d.vcpus == [] || (|d.vcpus| == 1 && P.VcpuKept(d.vcpus[0]))
  {
    R.VcpuNodesRead(b, d, DeviceParts(d, b.system));
    P.VcpuListRoundTrip(d.vcpus, 1);
  }

  // ----- the whole domain

  /** The domain's own data: what is not printed is reset, texts that were missing
      are empty, everything else stays. */
  lemma BaseComesBack(b: Base, d: DeviceLists)
    requires Printed(b, d).Some?
    ensures Back(b, d).base == R.BaseRead(b)
  {
    R.BaseReadBack(b, d, DeviceParts(d, b.system));
  }

  /** Domains that printing loses nothing of but the reboot action: no container,
      and every device that was not removed survives. */
  ghost predicate InFragment(b: Base, d: DeviceLists) {
    && !b.system.Container? && OsPrintable(b.system)
    && (forall x :: x in Live(d.disks) ==> DiskKept(x))
    && (forall x :: x in Live(d.nets) ==> NetKept(x))
    && (forall x :: x in Live(d.inputs) ==> InputKept(x))
    && (forall x :: x in Live(d.controllers) ==> ControllerKept(x))
    && (forall x :: x in Live(d.consoles) ==> ConsoleKept(x))
    && (forall x :: x in Live(d.graphics) ==> G.Shown(x) && GraphicsKept(x))
    && (d.emus == [] || (&& |d.emus| == 1 && d.emus[0].resType == RES_EMU && d.emus[0].id.None?
                         && d.emus[0].dev.path.Some?))
    && (d.mems == [] || (|d.mems| == 1 && d.mems[0].resType == RES_MEM && d.mems[0].id == Some("mem")))
    && (d.vcpus == [] || (|d.vcpus| == 1 && P.VcpuKept(d.vcpus[0])))
  }

  /** The device lists without what was removed; read back, the graphics have the
      pty consoles before them. */
  function Settle(d: DeviceLists): DeviceLists {
    DeviceLists(G.ConsolesAsGraphics(d.consoles) + Live(d.graphics), Live(d.consoles), d.emus, Live(d.inputs), d.mems,
                Live(d.nets), Live(d.disks), d.vcpus, Live(d.controllers))
  }

  lemma FrontComesBack(b: Base, d: DeviceLists)
    requires Printed(b, d).Some? && KeysDistinct(d) && InFragment(b, d)
    requires D.SourcesGiven(d.disks)
    requires MacsGiven(d.nets)
    ensures var r := Back(b, d).devices;
            && r.disks == Live(d.disks) && r.nets == Live(d.nets) && r.inputs == Live(d.inputs)
            && r.controllers == Live(d.controllers)
  {
    DisksComeBack(b, d);
    NetsComeBack(b, d);
    InputsComeBack(b, d);
    ControllersComeBack(b, d);
  }

  lemma ViewsComeBack(b: Base, d: DeviceLists)
    requires Printed(b, d).Some? && InFragment(b, d)
    ensures var r := Back(b, d).devices;
            r.consoles == Live(d.consoles) && r.graphics == G.ConsolesAsGraphics(d.consoles) + Live(d.graphics)
  {
    ConsolesComeBack(b, d);
    GraphicsComeBack(b, d);
    GraphicsAllKept(d.graphics);
    assert Live(d.consoles) + [] == Live(d.consoles);
    var views := G.ConsolesAsGraphics(d.consoles) + Live(d.graphics);
    assert views + [] == views;
  }

  lemma OneMemComesBack(b: Base, d: DeviceLists)
    requires Printed(b, d).Some?
    requires d.mems == [] || (|d.mems| == 1 && d.mems[0].resType == RES_MEM && d.mems[0].id == Some("mem"))
    ensures Back(b, d).devices.mems == d.mems
  {
    MemComesBack(b, d);
    if d.mems != [] {
      assert d.mems == [d.mems[0]] && d.mems[0] == Dev(RES_MEM, d.mems[0].dev, Some("mem"));
    }
  }

  lemma SinglesComeBack(b: Base, d: DeviceLists)
    requires Printed(b, d).Some? && InFragment(b, d)
    ensures var r := Back(b, d).devices; r.emus == d.emus && r.mems == d.mems && r.vcpus == d.vcpus
  {
    EmusComeBack(b, d);
    OneMemComesBack(b, d);
    VcpusComeBack(b, d);
  }

  lemma FilledDomain(b: Base, d: DeviceLists)
    requires Printed(b, d).Some? && KeysDistinct(d) && InFragment(b, d) && b.system == Filled(b.system)
    requires D.SourcesGiven(d.disks) && MacsGiven(d.nets)
    ensures Back(b, d).devices == Settle(d)
    ensures Back(b, d).base == R.BaseRead(b) && R.BaseRead(b).system == b.system
  {
    BaseComesBack(b, d);
    SystemKept(b.system);
    FrontComesBack(b, d);
    ViewsComeBack(b, d);
    SinglesComeBack(b, d);
  }

  lemma PreparedIsFilled(b: Base, newUuid: string)
    ensures var p := Prepared(b, newUuid); p.system == Filled(p.system)
  {
    FilledTwice(b.system);
  }

  /** A whole Xen, KVM or QEMU domain in the fragment, whatever of its UUID and OS
      defaults is still to be filled in, printed and parsed: the domain type with its
      OS fields and boot list, the features, and every device list in its order,
      although all devices share one parent element. */
  lemma WholeDomain(b: Base, newUuid: string, d: DeviceLists)
    requires var p := Prepared(b, newUuid); Printed(p, d).Some? && InFragment(p, d)
    requires KeysDistinct(d) && D.SourcesGiven(d.disks) && MacsGiven(d.nets)
    ensures var r := DomainFromXml(Printed(Prepared(b, newUuid), d).value);
            && r.Some? && r.value.devices == Settle(d)
            && r.value.base.system == Filled(b.system) && r.value.base.features == b.features
            && r.value.base.clock == b.clock && r.value.base.bootloader == b.bootloader
            && r.value.base.uuid == OrElse(b.uuid, Some(newUuid))
  {
    var p := Prepared(b, newUuid);
    PreparedIsFilled(b, newUuid);
    BackIsParsed(p, d);
    FilledDomain(p, d);
  }

  // ----- printing again

  lemma BasePrintedAgain(b: Base)
    requires !b.system.OtherSystem? && OsPrintable(b.system) && b.system == Filled(b.system)
    ensures BaseKids(R.BaseRead(b)) == BaseKids(b) && R.BaseRead(b).system == b.system
  {
    SystemKept(b.system);
    var r := R.BaseRead(b);
    assert NameKids(r) == NameKids(b);
    assert ActionKids(r) == ActionKids(b);
    assert R.UuidKids(r) == R.UuidKids(b);
  }

  lemma PartsPrintedAgain(b: Base, d: DeviceLists)
    requires CanPrint(d, b.system) && InFragment(b, d)
    ensures CanPrint(Settle(d), b.system) && DeviceParts(Settle(d), b.system) == DeviceParts(d, b.system)
  {
    LiveIsPrinted(d.disks, D.DiskElement);
    LiveIsPrinted(d.nets, N.NetPrinter(Xen(b.system)));
    LiveIsPrinted(d.inputs, P.InputElement);
    LiveIsPrinted(d.consoles, C.ConsoleElement);
    LiveIsPrinted(d.controllers, L.ControllerElement);
    G.ConsolesAreNotShown(d.consoles, Live(d.graphics));
    GraphicsLive(d.graphics);
  }

  lemma {:induction false} GraphicsLive(devs: seq<Dev<G.Graphics>>)
    ensures G.GraphicsKids(Live(devs)) == G.GraphicsKids(devs)
    decreases |devs|
  {
    if devs != [] {
      GraphicsLive(devs[1..]);
      if devs[0].resType != RES_UNKNOWN {
        assert Live(devs)[1..] == Live(devs[1..]);
      }
    }
  }

  lemma FilledIsFixpoint(b: Base, d: DeviceLists)
    requires Printed(b, d).Some? && KeysDistinct(d) && InFragment(b, d) && b.system == Filled(b.system)
    requires D.SourcesGiven(d.disks) && MacsGiven(d.nets)
    ensures var r := Back(b, d); Printed(r.base, r.devices) == Printed(b, d)
  {
    FilledDomain(b, d);
    BasePrintedAgain(b);
    PartsPrintedAgain(b, d);
    assert MiddleKids(Settle(d)) == MiddleKids(d);
    assert DomainTree(R.BaseRead(b), Settle(d), DeviceParts(d, b.system)) == DomainTree(b, d, DeviceParts(d, b.system));
  }

  /** Printing what was parsed from a print gives that print again; this time there
      is nothing left to fill in. */
  lemma PrintIsFixpoint(b: Base, newUuid: string, d: DeviceLists, otherUuid: string)
    requires var p := Prepared(b, newUuid); Printed(p, d).Some? && InFragment(p, d)
    requires KeysDistinct(d) && D.SourcesGiven(d.disks) && MacsGiven(d.nets)
    ensures var xml := Printed(Prepared(b, newUuid), d);
            var r := DomainFromXml(xml.value);
            r.Some? && Prepared(r.value.base, otherUuid) == r.value.base
            && Printed(Prepared(r.value.base, otherUuid), r.value.devices) == xml
  {
    var p := Prepared(b, newUuid);
    PreparedIsFilled(b, newUuid);
    BackIsParsed(p, d);
    FilledDomain(p, d);
    FilledIsFixpoint(p, d);
  }
}
