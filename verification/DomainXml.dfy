/** Whole domains: system_to_xml of libxkutil/xmlgen.c against
    get_dominfo_from_xml of libxkutil/device_parsing.c. */
module DomainXml {
  import opened Prelude
  import opened Xml
  import opened Devices
  import opened OsXml
  import D = DiskXml
  import N = NetXml
  import C = ConsoleXml
  import G = GraphicsXml
  import L = ControllerXml
  import P = PlainXml

  datatype Features = Features(acpi: bool, apic: bool, pae: bool)

  const NO_FEATURES := Features(false, false, false)

  /** struct domain without its device lists. */
  datatype Base = Base(
    name: Option<string>,
    typestr: Option<string>,
    uuid: Option<string>,
    bootloader: Option<string>,
    bootloaderArgs: Option<string>,
    clock: Option<string>,
    features: Features,
    system: System,
    onPoweroff: nat,
    onReboot: nat,
    onCrash: nat)

  const NO_BASE := Base(None, None, None, None, None, None, NO_FEATURES, OtherSystem(None), 0, 0, 0)

  datatype DeviceLists = DeviceLists(
    graphics: seq<Dev<G.Graphics>>,
    consoles: seq<Dev<C.Console>>,
    emus: seq<Dev<P.Emu>>,
    inputs: seq<Dev<P.Input>>,
    mems: seq<Dev<P.Mem>>,
    nets: seq<Dev<N.Net>>,
    disks: seq<Dev<D.Disk>>,
    vcpus: seq<Dev<P.Vcpu>>,
    controllers: seq<Dev<L.Controller>>)

  datatype Domain = Domain(base: Base, devices: DeviceLists)

  const RECOVERY_NONE := 2
  const RECOVERY_RESTART := 3
  const RECOVERY_PRESERVE := 123

  /** vssd_recovery_action_str */
  function ActionText(action: nat): string {
    if action == RECOVERY_RESTART then "restart" else if action == RECOVERY_PRESERVE then "preserve" else "destroy"
  }

  /** set_action */
  function ActionOf(text: string): nat {
    if text == "preserve" then RECOVERY_PRESERVE else if text == "restart" then RECOVERY_RESTART else RECOVERY_NONE
  }

  // ----- what is printed

  function OptText(name: string, v: Option<string>): seq<Tree> {
    if v.Some? then [TextLeaf(name, v)] else []
  }

  function NameKids(b: Base): seq<Tree> {
    [TextLeaf("name", b.name)] + OptText("bootloader", b.bootloader) + OptText("bootloader_args", b.bootloaderArgs)
  }

  function ActionKids(b: Base): seq<Tree> {
    [TextLeaf("on_poweroff", Some(ActionText(b.onPoweroff))), TextLeaf("on_crash", Some(ActionText(b.onCrash)))]
  }

  function FeatureTree(f: Features): Tree {
    Element("features", [], Flag("acpi", f.acpi) + Flag("apic", f.apic) + Flag("pae", f.pae))
  }

  /** Everything about the domain itself, defaults already filled in. */
  function BaseKids(b: Base): seq<Tree> {
    NameKids(b) + ActionKids(b) + ([TextLeaf("uuid", b.uuid)] + OptLeaf("clock", "offset", b.clock))
    + [OsTree(b.system), FeatureTree(b.features)]
  }

  /** The printed devices, one list per handler. */
  datatype Parts = Parts(
    disks: seq<Tree>,
    nets: seq<Tree>,
    inputs: seq<Tree>,
    consoles: seq<Tree>,
    graphics: seq<Tree>,
    emus: seq<Tree>,
    controllers: seq<Tree>,
    extra: seq<Tree>)

  predicate Xen(s: System) {
    s.XenPv? || s.XenFv?
  }

  /** A console added to every container. */
  function ExtraConsole(s: System): seq<Tree> {
    if s.Container? then [Leaf("console", Prop("type", "pty"))] else []
  }

  /** Unprintable disks, interfaces and controllers make the whole print fail. */
  predicate CanPrint(d: DeviceLists, s: System) {
    && PrintAll(d.disks, D.DiskElement).Some?
    && PrintAll(d.nets, N.NetPrinter(Xen(s))).Some?
    && PrintAll(d.controllers, L.ControllerElement).Some?
  }

  function DeviceParts(d: DeviceLists, s: System): Parts {
    Parts(PrintAll(d.disks, D.DiskElement).GetOr([]),
          PrintAll(d.nets, N.NetPrinter(Xen(s))).GetOr([]),
          PrintAll(d.inputs, P.InputElement).GetOr([]),
          PrintAll(d.consoles, C.ConsoleElement).GetOr([]),
          G.GraphicsKids(d.graphics),
          P.EmuKids(d.emus),
          PrintAll(d.controllers, L.ControllerElement).GetOr([]),
          ExtraConsole(s))
  }

  function DeviceKids(p: Parts): seq<Tree> {
    (p.disks + p.nets + p.inputs) + (p.consoles + p.graphics) + (p.emus + p.controllers + p.extra)
  }

  /** Memory and processors, between the domain itself and its devices. */
  function MiddleKids(d: DeviceLists): seq<Tree> {
    P.MemKids(d.mems) + P.VcpuKids(d.vcpus) + P.CputuneKids(d.vcpus)
  }

  function DevicesTree(p: Parts): Tree {
    Element("devices", [], DeviceKids(p))
  }

  function DomainTree(b: Base, d: DeviceLists, p: Parts): Tree {
    Element("domain", Prop("type", TypeText(b.system)), BaseKids(b) + MiddleKids(d) + [DevicesTree(p)])
  }

  function Printed(b: Base, d: DeviceLists): Option<Tree> {
    if b.system.OtherSystem? || !CanPrint(d, b.system) then None
    else Some(DomainTree(b, d, DeviceParts(d, b.system)))
  }

  /** What printing changes: a missing UUID is made up, OS defaults are filled in. */
  function Prepared(b: Base, newUuid: string): Base {
    b.(uuid := OrElse(b.uuid, Some(newUuid)), system := Filled(b.system))
  }

  // ----- what is read

  function FeatureStep(f: Features, kid: Tree): Option<Features> {
    Some(if Name(kid) == "acpi" then f.(acpi := true)
         else if Name(kid) == "apic" then f.(apic := true)
         else if Name(kid) == "pae" then f.(pae := true)
         else f)
  }

  function ReadFeatures(f: Features, x: Tree): Features {
    Fold(FeatureStep, f, if x.Element? then x.kids else []).GetOr(f)
  }

  function OsTypeOf(s: System): Option<string> {
    match s
    case XenPv(os) => os.osType
    case Container(os) => os.osType
    case OtherSystem(osType) => osType
    case _ => s.fv.osType
  }

  function BaseStep(b: Base, kid: Tree): Option<Base> {
    Some(if Name(kid) == "name" then b.(name := Some(Content(kid)))
         else if Name(kid) == "uuid" then b.(uuid := Some(Content(kid)))
         else if Name(kid) == "bootloader" then b.(bootloader := Some(Content(kid)))
         else if Name(kid) == "bootloader_args" then b.(bootloaderArgs := Some(Content(kid)))
         else if Name(kid) == "os" then b.(system := ReadOs(TextOf(b.typestr), OsTypeOf(b.system), kid))
         else if Name(kid) == "on_poweroff" then b.(onPoweroff := ActionOf(Content(kid)))
         else if Name(kid) == "on_reboot" then b.(onReboot := ActionOf(Content(kid)))
         else if Name(kid) == "on_crash" then b.(onCrash := ActionOf(Content(kid)))
         else if Name(kid) == "clock" then b.(clock := GetAttr(kid, "offset"))
         else if Name(kid) == "features" then b.(features := ReadFeatures(b.features, kid))
         else b)
  }

  function ReadBase(doc: Tree): Base {
    var start := NO_BASE.(typestr := GetAttr(doc, "type"));
    Fold(BaseStep, start, if doc.Element? then doc.kids else []).GetOr(start)
  }

  /** XPath "/domain/devices/x", or several of them joined by "|". */
  function DeviceNodes(doc: Tree, names: set<string>): seq<Tree> {
    KidsOfAll(TopNodes(doc, {"devices"}), names)
  }

  function ReadDevices(doc: Tree): DeviceLists {
    DeviceLists(
      ParseAll(DeviceNodes(doc, {"graphics", "console"}), G.GraphicsDevice),
      ParseAll(DeviceNodes(doc, {"console"}), C.ConsoleDevice),
      ParseAll(DeviceNodes(doc, {"emulator"}), P.EmuDevice),
      ParseAll(DeviceNodes(doc, {"input"}), P.InputDevice),
      P.Coalesced(ParseAll(TopNodes(doc, {"memory", "currentMemory"}), P.MemDevice)),
      ParseAll(DeviceNodes(doc, {"interface"}), N.NetDevice),
      ParseAll(DeviceNodes(doc, {"disk", "filesystem"}), D.DiskDevice),
      ParseAll(TopNodes(doc, {"vcpu"}), P.VcpuDevice),
      ParseAll(DeviceNodes(doc, {"controller"}), L.ControllerDevice))
  }

  /** get_dominfo_from_xml on the text of a tree. */
  function DomainFromXml(xml: Tree): Option<Domain> {
    match ParseMemory(xml)
    case None => None
    case Some(doc) => if Name(doc) == "domain" then Some(Domain(ReadBase(doc), ReadDevices(doc))) else None
  }

  // ----- the code

  class Dominfo {
    var base: Base
    var devices: DeviceLists

    constructor (base: Base, devices: DeviceLists)
      ensures this.base == base && this.devices == devices
    {
      this.base, this.devices := base, devices;
    }

    method NameXml(root: Builder)
      modifies root`kids
      ensures root.kids == old(root.kids) + NameKids(base)
    {
      ghost var was := root.kids;
      root.AddChild(TextLeaf("name", base.name));
      if base.bootloader.Some? {
        root.AddChild(TextLeaf("bootloader", base.bootloader));
      }
      assert root.kids == was + ([TextLeaf("name", base.name)] + OptText("bootloader", base.bootloader));
      if base.bootloaderArgs.Some? {
        root.AddChild(TextLeaf("bootloader_args", base.bootloaderArgs));
      }
      assert root.kids == was + NameKids(base);
    }

    /** system_xml */
    method SystemXml(root: Builder)
      requires root.kids == []
      modifies root`kids
      ensures root.kids == NameKids(base) + ActionKids(base)
                           + ([TextLeaf("uuid", base.uuid)] + OptLeaf("clock", "offset", base.clock))
    {
      NameXml(root);
      assert root.kids == NameKids(base);
      root.AddChild(TextLeaf("on_poweroff", Some(ActionText(base.onPoweroff))));
      root.AddChild(TextLeaf("on_crash", Some(ActionText(base.onCrash))));
      assert root.kids == NameKids(base) + ActionKids(base);
      root.AddChild(TextLeaf("uuid", base.uuid));
      if base.clock.Some? {
        root.AddChild(Leaf("clock", Prop("offset", base.clock.value)));
      }
    }

    /** features_xml */
    method FeaturesXml(root: Builder)
      modifies root`kids
      ensures root.kids == old(root.kids) + [FeatureTree(base.features)]
    {
      var features := new Builder("features");
      if base.features.acpi {
        features.AddChild(Leaf("acpi", []));
      }
      if base.features.apic {
        features.AddChild(Leaf("apic", []));
      }
      if base.features.pae {
        features.AddChild(Leaf("pae", []));
      }
      assert features.kids == FeatureTree(base.features).kids;
      root.AddChild(features.Built());
    }

    method FrontXml(root: Builder) returns (ok: bool)
      requires root.kids == []
      requires D.SourcesGiven(devices.disks)
      modifies root`kids
      ensures ok == (&& PrintAll(devices.disks, D.DiskElement).Some?
                     && PrintAll(devices.nets, N.NetPrinter(Xen(base.system))).Some?)
      ensures ok ==> var p := DeviceParts(devices, base.system); root.kids == p.disks + p.nets + p.inputs
    {
      ok := D.DisksXml(root, devices.disks);
      if !ok {
        return;
      }
      ghost var p := DeviceParts(devices, base.system);
      assert root.kids == p.disks;
      ok := N.NetsXml(root, devices.nets, Xen(base.system));
      if !ok {
        return;
      }
      assert root.kids == p.disks + p.nets;
      P.InputsXml(root, devices.inputs);
    }

    method ViewXml(root: Builder)
      modifies root`kids
      ensures var p := DeviceParts(devices, base.system); root.kids == old(root.kids) + (p.consoles + p.graphics)
    {
      ghost var was, p := root.kids, DeviceParts(devices, base.system);
      C.ConsolesXml(root, devices.consoles);
      assert root.kids == was + p.consoles;
      G.AllGraphicsXml(root, devices.graphics);
      assert root.kids == was + (p.consoles + p.graphics);
    }

    method EmuXml(root: Builder)
      modifies root`kids
      ensures root.kids == old(root.kids) + P.EmuKids(devices.emus)
    {
      if devices.emus == [] {
        assert root.kids == root.kids + [];
      } else {
        root.AddChild(TextLeaf("emulator", devices.emus[0].dev.path));
      }
    }

    method BackXml(root: Builder) returns (ok: bool)
      modifies root`kids
      ensures ok == PrintAll(devices.controllers, L.ControllerElement).Some?
      ensures ok ==> var p := DeviceParts(devices, base.system);
                     root.kids == old(root.kids) + p.emus + p.controllers + p.extra
    {
      EmuXml(root);
      ok := L.ControllersXml(root, devices.controllers);
      if ok {
        ExtraXml(root);
      }
    }

    method ExtraXml(root: Builder)
      modifies root`kids
      ensures root.kids == old(root.kids) + ExtraConsole(base.system)
    {
      if base.system.Container? {
        root.AddChild(Leaf("console", Prop("type", "pty")));
      } else {
        assert root.kids == root.kids + [];
      }
    }

    method MiddleXml(root: Builder)
      modifies root`kids
      ensures root.kids == old(root.kids) + MiddleKids(devices)
    {
      ghost var was := root.kids;
      P.MemXml(root, devices.mems);
      P.VcpuXml(root, devices.vcpus);
      assert root.kids == was + (P.MemKids(devices.mems) + P.VcpuKids(devices.vcpus));
      P.CputuneXml(root, devices.vcpus);
      assert root.kids == was + MiddleKids(devices);
    }

    /** The device handlers in their order. */
    method DevicesXml(root: Builder) returns (ok: bool)
      requires root.kids == []
      requires D.SourcesGiven(devices.disks)
      modifies root`kids
      ensures ok == CanPrint(devices, base.system)
      ensures ok ==> root.kids == DeviceKids(DeviceParts(devices, base.system))
    {
      ok := FrontXml(root);
      if !ok {
        return;
      }
      ViewXml(root);
      ghost var views, p := root.kids, DeviceParts(devices, base.system);
      ok := BackXml(root);
      Regroup(views, p.emus, p.controllers, p.extra);
    }

    /** The domain itself, its defaults filled in on the way. */
    method HeadXml(root: Builder, newUuid: string) returns (ok: bool)
      requires root.kids == []
      modifies root`kids, this`base
      ensures base == Prepared(old(base), newUuid)
      ensures ok == !base.system.OtherSystem?
      ensures ok ==> root.kids == BaseKids(base)
    {
      if base.uuid.None? {
        base := base.(uuid := Some(newUuid));
      }
      SystemXml(root);
      ghost var head := root.kids;
      var system: System;
      ok, system := OsToXml(root, base.system);
      base := base.(system := system);
      if ok {
        FeaturesXml(root);
        assert root.kids == head + [OsTree(base.system), FeatureTree(base.features)];
      }
    }

    method DevicesChildXml(root: Builder) returns (ok: bool)
      requires D.SourcesGiven(devices.disks)
      modifies root`kids
      ensures ok == CanPrint(devices, base.system)
      ensures ok ==> root.kids == old(root.kids) + [DevicesTree(DeviceParts(devices, base.system))]
    {
      var list := new Builder("devices");
      ok := DevicesXml(list);
      if ok {
        root.AddChild(list.Built());
      }
    }

    /** system_to_xml; None is an error message.  The library call that makes up a
        UUID is a parameter. */
    method SystemToXml(newUuid: string) returns (xml: Option<Tree>)
      requires D.SourcesGiven(devices.disks)
      modifies this`base
      ensures base == Prepared(old(base), newUuid)
      ensures xml == Printed(base, devices)
    {
      var root := new Builder("domain");
      var domtype := TypeText(base.system);
      root.NewProp("type", Some(domtype));
      assert root.attrs == Prop("type", domtype) && domtype == TypeText(Prepared(base, newUuid).system);
      var ok := HeadXml(root, newUuid);
      if !ok {
        return None;
      }
      MiddleXml(root);
      assert root.kids == BaseKids(base) + MiddleKids(devices);
      ok := DevicesChildXml(root);
      return if ok then Some(root.Built()) else None;
    }
  }

  method ParseFeatures(f: Features, x: Tree) returns (r: Features)
    requires x.Element?
    ensures r == ReadFeatures(f, x)
  {
    r := f;
    for i := 0 to |x.kids|
      invariant Fold(FeatureStep, f, x.kids) == Fold(FeatureStep, r, x.kids[i..])
    {
      assert x.kids[i..][1..] == x.kids[i + 1..];
      if Name(x.kids[i]) == "acpi" {
        r := r.(acpi := true);
      } else if Name(x.kids[i]) == "apic" {
        r := r.(apic := true);
      } else if Name(x.kids[i]) == "pae" {
        r := r.(pae := true);
      }
    }
  }

  /** One turn of parse_domain's loop. */
  method ParseDomainChild(b: Base, child: Tree) returns (r: Base)
    ensures Some(r) == BaseStep(b, child)
  {
    r := b;
    if Name(child) == "name" {
      r := r.(name := Some(Content(child)));
    } else if Name(child) == "uuid" {
      r := r.(uuid := Some(Content(child)));
    } else if Name(child) == "bootloader" {
      r := r.(bootloader := Some(Content(child)));
    } else if Name(child) == "bootloader_args" {
      r := r.(bootloaderArgs := Some(Content(child)));
    } else if Name(child) == "os" {
      var s := ParseOs(TextOf(r.typestr), OsTypeOf(r.system), child);
      r := r.(system := s);
    } else if Name(child) == "on_poweroff" {
      r := r.(onPoweroff := ActionOf(Content(child)));
    } else if Name(child) == "on_reboot" {
      r := r.(onReboot := ActionOf(Content(child)));
    } else if Name(child) == "on_crash" {
      r := r.(onCrash := ActionOf(Content(child)));
    } else if Name(child) == "clock" {
      r := r.(clock := GetAttr(child, "offset"));
    } else if Name(child) == "features" {
      var f := ParseFeatures(r.features, child);
      r := r.(features := f);
    }
  }

  method ParseDomain(doc: Tree) returns (b: Base)
    requires doc.Element?
    ensures b == ReadBase(doc)
  {
    b := NO_BASE.(typestr := GetAttr(doc, "type"));
    ghost var start := b;
    for i := 0 to |doc.kids|
      invariant Fold(BaseStep, start, doc.kids) == Fold(BaseStep, b, doc.kids[i..])
    {
      assert doc.kids[i..][1..] == doc.kids[i + 1..];
      b := ParseDomainChild(b, doc.kids[i]);
    }
  }

  method GetDominfoFromXml(xml: Tree) returns (r: Option<Domain>)
    ensures r == DomainFromXml(xml)
  {
    var parsed := ParseMemory(xml);
    if parsed.None? || Name(parsed.value) != "domain" {
      return None;
    }
    var doc := parsed.value;
    var base := ParseDomain(doc);
    var emus := DoParse(DeviceNodes(doc, {"emulator"}), P.EmuDevice);
    var graphics := DoParse(DeviceNodes(doc, {"graphics", "console"}), G.GraphicsDevice);
    var consoles := DoParse(DeviceNodes(doc, {"console"}), C.ConsoleDevice);
    var inputs := DoParse(DeviceNodes(doc, {"input"}), P.InputDevice);
    var mems := P.GetMemDevice(TopNodes(doc, {"memory", "currentMemory"}));
    var nets := DoParse(DeviceNodes(doc, {"interface"}), N.NetDevice);
    var disks := DoParse(DeviceNodes(doc, {"disk", "filesystem"}), D.DiskDevice);
    var vcpus := DoParse(TopNodes(doc, {"vcpu"}), P.VcpuDevice);
    var controllers := DoParse(DeviceNodes(doc, {"controller"}), L.ControllerDevice);
    return Some(Domain(base, DeviceLists(graphics, consoles, emus, inputs, mems, nets, disks, vcpus, controllers)));
  }
}
