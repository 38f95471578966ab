/** What get_dominfo_from_xml of libxkutil/device_parsing.c and parse_acl_filter of
    libxkutil/acl_parsing.c find in a document, told for every document and field by
    field, without their loops. */
module DomainReading {
  import opened Prelude
  import opened Decimal
  import opened Xml
  import opened XPath
  import opened Devices
  import opened OsXml
  import opened DomainXml
  import opened DiskReading
  import opened ViewReading
  import N = NetXml
  import L = ControllerXml
  import A = AclFilter
  import D = DiskXml

  // ----- the operating system

  function BootDevs(nodes: seq<Tree>): (r: seq<Option<string>>)
    ensures |r| == |nodes| && forall i :: 0 <= i < |nodes| ==> r[i] == GetAttr(nodes[i], "dev")
  {
    seq(|nodes|, i requires 0 <= i < |nodes| => GetAttr(nodes[i], "dev"))
  }

  function OsFound(p: OsParts, kids: seq<Tree>): OsParts {
    OsParts(LastText(kids, "type", p.osType), OrElse(p.arch, FirstSet(Select(kids, {"type"}), "arch")),
            OrElse(p.machine, FirstSet(Select(kids, {"type"}), "machine")), OrElse(p.kernel, FirstText(kids, "kernel")),
            OrElse(p.initrd, FirstText(kids, "initrd")), OrElse(p.cmdline, FirstText(kids, "cmdline")),
            OrElse(p.loader, FirstText(kids, "loader")), OrElse(p.init, FirstText(kids, "init")),
            p.bootlist + BootDevs(Select(kids, {"boot"})))
  }

  function FirstTextIs(kid: Tree, name: string, was: Option<string>): Option<string> {
    if was.None? && Name(kid) == name then Some(Content(kid)) else was
  }

  /** What one child makes of the parts. */
  predicate OsAfter(p: OsParts, kid: Tree, q: OsParts) {
    && q.osType == (if Name(kid) == "type" then Some(Content(kid)) else p.osType)
    && q.arch == (if Name(kid) == "type" then OrElse(p.arch, GetAttr(kid, "arch")) else p.arch)
    && q.machine == (if Name(kid) == "type" then OrElse(p.machine, GetAttr(kid, "machine")) else p.machine)
    && q.kernel == FirstTextIs(kid, "kernel", p.kernel) && q.initrd == FirstTextIs(kid, "initrd", p.initrd)
    && q.cmdline == FirstTextIs(kid, "cmdline", p.cmdline) && q.loader == FirstTextIs(kid, "loader", p.loader)
    && q.init == FirstTextIs(kid, "init", p.init)
    && q.bootlist == (if Name(kid) == "boot" then p.bootlist + [GetAttr(kid, "dev")] else p.bootlist)
  }

  lemma OsStepAfter(p: OsParts, kid: Tree)
    ensures OsStep(p, kid).Some? && OsAfter(p, kid, OsStep(p, kid).value)
  {
  }

  lemma BootsNext(was: seq<Option<string>>, kids: seq<Tree>)
    requires kids != []
    ensures was + BootDevs(Select(kids, {"boot"}))
            == (if Name(kids[0]) == "boot" then was + [GetAttr(kids[0], "dev")] else was)
               + BootDevs(Select(kids[1..], {"boot"}))
  {
    var rest := Select(kids[1..], {"boot"});
    SelectNext(kids, "boot");
    if Name(kids[0]) == "boot" {
      assert BootDevs([kids[0]] + rest) == [GetAttr(kids[0], "dev")] + BootDevs(rest);
      Associative(was, [GetAttr(kids[0], "dev")], BootDevs(rest));
    } else {
      assert [] + rest == rest;
    }
  }

  lemma OsNext(p: OsParts, kids: seq<Tree>, q: OsParts)
    requires kids != [] && OsAfter(p, kids[0], q)
    ensures OsFound(p, kids) == OsFound(q, kids[1..])
  {
    LastTextNext(kids, "type", p.osType);
    FirstSetNext(kids, "type", "arch", p.arch);
    FirstSetNext(kids, "type", "machine", p.machine);
    FirstTextNext(kids, "kernel", p.kernel);
    FirstTextNext(kids, "initrd", p.initrd);
    FirstTextNext(kids, "cmdline", p.cmdline);
    FirstTextNext(kids, "loader", p.loader);
    FirstTextNext(kids, "init", p.init);
    BootsNext(p.bootlist, kids);
  }

  lemma {:induction false} OsLoop(p: OsParts, kids: seq<Tree>)
    ensures Fold(OsStep, p, kids) == Some(OsFound(p, kids))
    decreases |kids|
  {
    if kids == [] {
      assert p.bootlist + [] == p.bootlist;
    } else {
      OsStepAfter(p, kids[0]);
      OsNext(p, kids, OsStep(p, kids[0]).value);
      OsLoop(OsStep(p, kids[0]).value, kids[1..]);
    }
  }

  /** What is read from an <os>: the domain's type attribute and the text of the last
      <type> decide what kind it is, and that which fields are kept: the first kernel,
      initial disk, command line, loader and init, the first architecture and machine
      among the types, and all boot devices in order. */
  lemma OsRead(typestr: string, was: Option<string>, x: Tree)
    requires x.Element?
    ensures var osType := LastText(x.kids, "type", was);
            var (hvm, linux) := (EqNoCase(TextOf(osType), "hvm"), EqNoCase(TextOf(osType), "linux"));
            var fv := FvOs(osType, FirstSet(Select(x.kids, {"type"}), "arch"),
                           FirstSet(Select(x.kids, {"type"}), "machine"),
                           FirstText(x.kids, "loader"), BootDevs(Select(x.kids, {"boot"})));
            ReadOs(typestr, was, x)
            == if EqNoCase(typestr, "xen") && hvm then XenFv(fv)
               else if EqNoCase(typestr, "kvm") then Kvm(fv)
               else if EqNoCase(typestr, "qemu") then Qemu(fv)
               else if EqNoCase(typestr, "lxc") then Container(LxcOs(osType, FirstText(x.kids, "init")))
               else if linux then
                 XenPv(PvOs(osType, FirstText(x.kids, "kernel"), FirstText(x.kids, "initrd"),
                            FirstText(x.kids, "cmdline")))
               else OtherSystem(osType)
  {
    OsLoop(NO_PARTS.(osType := was), x.kids);
    assert [] + BootDevs(Select(x.kids, {"boot"})) == BootDevs(Select(x.kids, {"boot"}));
  }

  /** The defaults that printing fills in. */
  lemma DefaultsFilled(os: FvOs)
    ensures Filled(XenPv(PvOs(None, None, None, None))) == XenPv(PvOs(Some("linux"), Some("/dev/null"), None, None))
    ensures Filled(XenFv(os.(osType := None, loader := None, bootlist := [])))
            == XenFv(os.(osType := Some("hvm"), loader := Some("/usr/lib/xen/boot/hvmloader"),
                         bootlist := [Some("hd")]))
    ensures Filled(Kvm(os.(osType := None, bootlist := [])))
            == Kvm(os.(osType := Some("hvm"), bootlist := [Some("hd")]))
    ensures Filled(Qemu(os.(osType := None, bootlist := [])))
            == Qemu(os.(osType := Some("hvm"), bootlist := [Some("hd")]))
    ensures Filled(Container(LxcOs(None, None))) == Container(LxcOs(Some("exe"), None))
  {
  }

  /** And nothing that is set is changed by it. */
  lemma SetStays(pv: PvOs, fv: FvOs, lxc: LxcOs)
    ensures pv.osType.Some? && pv.kernel.Some? ==> Filled(XenPv(pv)) == XenPv(pv)
    ensures fv.osType.Some? && fv.bootlist != [] ==>
              && Filled(Kvm(fv)) == Kvm(fv) && Filled(Qemu(fv)) == Qemu(fv)
              && (fv.loader.Some? ==> Filled(XenFv(fv)) == XenFv(fv))
    ensures lxc.osType.Some? ==> Filled(Container(lxc)) == Container(lxc)
  {
  }

  // ----- the domain itself

  /** CIM_VSSD_RECOVERY_PRESERVE, _RESTART and _NONE. */
  function ActionFound(kids: seq<Tree>, name: string, was: nat): nat {
    match LastNode(kids, name)
    case None => was
    case Some(x) => if Content(x) == "preserve" then 123 else if Content(x) == "restart" then 3 else 2
  }

  /** A flag below some <features>. */
  predicate FlagFound(kids: seq<Tree>, flag: string) {
    exists i :: 0 <= i < |kids| && kids[i].Element? && kids[i].name == "features" && Has(kids[i].kids, flag)
  }

  /** All <os> children, one after the other. */
  function SystemFound(typestr: string, was: System, nodes: seq<Tree>): System
    decreases |nodes|
  {
    if nodes == [] then was
    else SystemFound(typestr, ReadOs(typestr, OsTypeOf(was), nodes[0]), nodes[1..])
  }

  function BaseFound(b: Base, kids: seq<Tree>): Base {
    Base(LastText(kids, "name", b.name), b.typestr, LastText(kids, "uuid", b.uuid),
         LastText(kids, "bootloader", b.bootloader), LastText(kids, "bootloader_args", b.bootloaderArgs),
         LastAttr(kids, "clock", "offset", b.clock),
         Features(b.features.acpi || FlagFound(kids, "acpi"), b.features.apic || FlagFound(kids, "apic"),
                  b.features.pae || FlagFound(kids, "pae")),
         SystemFound(TextOf(b.typestr), b.system, Select(kids, {"os"})),
         ActionFound(kids, "on_poweroff", b.onPoweroff), ActionFound(kids, "on_reboot", b.onReboot),
         ActionFound(kids, "on_crash", b.onCrash))
  }

  lemma FlagNext(kids: seq<Tree>, flag: string)
    requires kids != []
    ensures FlagFound(kids, flag) <==> FlagFound([kids[0]], flag) || FlagFound(kids[1..], flag)
  {
    assert forall i :: 0 < i < |kids| ==> kids[i] == kids[1..][i - 1];
    assert forall i :: 0 <= i < |kids[1..]| ==> kids[1..][i] == kids[i + 1];
    if FlagFound([kids[0]], flag) {
      assert [kids[0]][0] == kids[0];
    }
    if FlagFound(kids, flag) && !FlagFound(kids[1..], flag) {
      assert [kids[0]][0] == kids[0];
    }
  }

  lemma {:induction false} FeaturesLoop(f: Features, kids: seq<Tree>)
    ensures Fold(FeatureStep, f, kids)
            == Some(Features(f.acpi || Has(kids, "acpi"), f.apic || Has(kids, "apic"), f.pae || Has(kids, "pae")))
    decreases |kids|
  {
    if kids != [] {
      HasNext(kids, "acpi");
      HasNext(kids, "apic");
      HasNext(kids, "pae");
      FeaturesLoop(FeatureStep(f, kids[0]).value, kids[1..]);
    }
  }

  function LastTextIs(kid: Tree, name: string, was: Option<string>): Option<string> {
    if Name(kid) == name then Some(Content(kid)) else was
  }

  function ActionIs(kid: Tree, name: string, was: nat): nat {
    if Name(kid) != name then was
    else if Content(kid) == "preserve" then 123 else if Content(kid) == "restart" then 3 else 2
  }

  /** What one child makes of the domain's texts and actions, */
  predicate TextsAfter(b: Base, kid: Tree, c: Base) {
    && c.name == LastTextIs(kid, "name", b.name) && c.uuid == LastTextIs(kid, "uuid", b.uuid)
    && c.bootloader == LastTextIs(kid, "bootloader", b.bootloader)
    && c.bootloaderArgs == LastTextIs(kid, "bootloader_args", b.bootloaderArgs)
    && c.clock == (if Name(kid) == "clock" then GetAttr(kid, "offset") else b.clock)
    && c.onPoweroff == ActionIs(kid, "on_poweroff", b.onPoweroff)
    && c.onReboot == ActionIs(kid, "on_reboot", b.onReboot) && c.onCrash == ActionIs(kid, "on_crash", b.onCrash)
    && c.typestr == b.typestr
  }

  /** of its features, and of its operating system. */
  predicate RestAfter(b: Base, kid: Tree, c: Base) {
    && c.features.acpi == (b.features.acpi || FlagFound([kid], "acpi"))
    && c.features.apic == (b.features.apic || FlagFound([kid], "apic"))
    && c.features.pae == (b.features.pae || FlagFound([kid], "pae"))
    && c.system == (if Name(kid) == "os" then ReadOs(TextOf(b.typestr), OsTypeOf(b.system), kid) else b.system)
  }

  lemma StepTexts(b: Base, kid: Tree)
    ensures BaseStep(b, kid).Some? && TextsAfter(b, kid, BaseStep(b, kid).value)
  {
  }

  lemma StepRest(b: Base, kid: Tree)
    ensures RestAfter(b, kid, BaseStep(b, kid).value)
  {
    var one := [kid];
    assert forall flag {:trigger FlagFound(one, flag)} ::
        FlagFound(one, flag) <==> kid.Element? && kid.name == "features" && Has(kid.kids, flag) by {
      assert one[0] == kid;
    }
    if kid.Element? {
      FeaturesLoop(b.features, kid.kids);
    }
  }

  lemma ActionNext(kids: seq<Tree>, name: string, was: nat)
    requires kids != [] && name != "text"
    ensures ActionFound(kids, name, was) == ActionFound(kids[1..], name, ActionIs(kids[0], name, was))
  {
    LastNodeNext(kids, name);
  }

  lemma TextsNext(b: Base, kids: seq<Tree>, c: Base)
    requires kids != [] && TextsAfter(b, kids[0], c)
    ensures LastText(kids, "name", b.name) == LastText(kids[1..], "name", c.name)
    ensures LastText(kids, "uuid", b.uuid) == LastText(kids[1..], "uuid", c.uuid)
    ensures LastText(kids, "bootloader", b.bootloader) == LastText(kids[1..], "bootloader", c.bootloader)
    ensures LastText(kids, "bootloader_args", b.bootloaderArgs)
            == LastText(kids[1..], "bootloader_args", c.bootloaderArgs)
    ensures LastAttr(kids, "clock", "offset", b.clock) == LastAttr(kids[1..], "clock", "offset", c.clock)
  {
    LastTextNext(kids, "name", b.name);
    LastTextNext(kids, "uuid", b.uuid);
    LastTextNext(kids, "bootloader", b.bootloader);
    LastTextNext(kids, "bootloader_args", b.bootloaderArgs);
    LastAttrNext(kids, "clock", "offset", b.clock);
  }

  lemma SystemNext(typestr: string, was: System, kids: seq<Tree>)
    requires kids != []
    ensures SystemFound(typestr, was, Select(kids, {"os"}))
            == SystemFound(typestr, if Name(kids[0]) == "os" then ReadOs(typestr, OsTypeOf(was), kids[0]) else was,
                           Select(kids[1..], {"os"}))
  {
    SelectNext(kids, "os");
    if Name(kids[0]) == "os" {
      assert Select(kids, {"os"})[1..] == Select(kids[1..], {"os"});
    }
  }

  lemma BaseNext(b: Base, kids: seq<Tree>, c: Base)
    requires kids != [] && TextsAfter(b, kids[0], c) && RestAfter(b, kids[0], c)
    ensures BaseFound(b, kids) == BaseFound(c, kids[1..])
  {
    TextsNext(b, kids, c);
    ActionNext(kids, "on_poweroff", b.onPoweroff);
    ActionNext(kids, "on_reboot", b.onReboot);
    ActionNext(kids, "on_crash", b.onCrash);
    FlagNext(kids, "acpi");
    FlagNext(kids, "apic");
    FlagNext(kids, "pae");
    SystemNext(TextOf(b.typestr), b.system, kids);
  }

  lemma {:induction false} BaseLoop(b: Base, kids: seq<Tree>)
    ensures Fold(BaseStep, b, kids) == Some(BaseFound(b, kids))
    decreases |kids|
  {
    if kids != [] {
      StepTexts(b, kids[0]);
      StepRest(b, kids[0]);
      BaseNext(b, kids, BaseStep(b, kids[0]).value);
      BaseLoop(BaseStep(b, kids[0]).value, kids[1..]);
    }
  }

  /** A domain's own data: the last child of each name counts, a feature is on when it
      is anywhere below <features>, and an action that is given is to preserve, to
      restart, or else to destroy. */
  lemma DomainRead(x: Tree)
    requires x.Element?
    ensures ReadBase(x)
            == Base(LastText(x.kids, "name", None), GetAttr(x, "type"), LastText(x.kids, "uuid", None),
                    LastText(x.kids, "bootloader", None), LastText(x.kids, "bootloader_args", None),
                    LastAttr(x.kids, "clock", "offset", None),
                    Features(FlagFound(x.kids, "acpi"), FlagFound(x.kids, "apic"), FlagFound(x.kids, "pae")),
                    SystemFound(TextOf(GetAttr(x, "type")), OtherSystem(None), Select(x.kids, {"os"})),
                    ActionFound(x.kids, "on_poweroff", 0), ActionFound(x.kids, "on_reboot", 0),
                    ActionFound(x.kids, "on_crash", 0))
  {
    BaseLoop(NO_BASE.(typestr := GetAttr(x, "type")), x.kids);
  }

  /** The action words that are printed. */
  lemma ActionsPrinted(action: nat)
    ensures ActionText(123) == "preserve" && ActionText(3) == "restart"
    ensures action != 123 && action != 3 ==> ActionText(action) == "destroy"
  {
  }

  /** A domain can be printed exactly when its type is known and every disk, interface
      and controller that was not removed can be. */
  lemma DomainPrints(b: Base, d: DeviceLists)
    ensures Printed(b, d).Some?
            <==> && !b.system.OtherSystem?
                 && (forall x :: x in Live(d.disks) ==> x.dev.diskType != D.DiskUnknown)
                 && (forall x :: x in Live(d.nets) ==> N.NetElement(x.dev, b.system.XenPv? || b.system.XenFv?).Some?)
                 && (forall x :: x in Live(d.controllers) ==> !x.dev.protocol.OtherProtocol?)
  {
    LiveIsPrinted(d.disks, D.DiskElement);
    LiveIsPrinted(d.nets, N.NetPrinter(Xen(b.system)));
    LiveIsPrinted(d.controllers, L.ControllerElement);
    forall x | x in Live(d.disks) ensures D.DiskElement(x.dev).Some? <==> x.dev.diskType != D.DiskUnknown {
      DiskPrints(x.dev);
    }
    forall x | x in Live(d.controllers)
      ensures L.ControllerElement(x.dev).Some? <==> !x.dev.protocol.OtherProtocol?
    {
      ControllerPrints(x.dev);
    }
  }

  /** The order in which the device handlers write. */
  lemma DevicesInOrder(p: Parts)
    ensures DeviceKids(p)
            == p.disks + p.nets + p.inputs + p.consoles + p.graphics + p.emus + p.controllers + p.extra
  {
    var front := p.disks + p.nets + p.inputs;
    Associative(front, p.consoles, p.graphics);
    Regroup(front + p.consoles + p.graphics, p.emus, p.controllers, p.extra);
  }

  // ----- file systems of a container

  function AllWritten(ds: seq<D.Disk>): (r: seq<Tree>)
    ensures |r| == |ds| && forall i :: 0 <= i < |ds| ==> r[i] == FsWritten(ds[i])
  {
    seq(|ds|, i requires 0 <= i < |ds| => FsWritten(ds[i]))
  }

  function AllDevices(ds: seq<D.Disk>): (r: seq<Dev<D.Disk>>)
    ensures |r| == |ds| && forall i :: 0 <= i < |ds| ==> r[i] == Dev(RES_DISK, ds[i], ds[i].virtualDev)
  {
    seq(|ds|, i requires 0 <= i < |ds| => Dev(RES_DISK, ds[i], ds[i].virtualDev))
  }

  lemma DevicesSelected(head: seq<Tree>, devices: Tree)
    requires !HasText(head) && forall i :: 0 <= i < |head| ==> head[i].name != "devices"
    requires devices.Element? && devices.name == "devices"
    ensures !HasText(head + [devices]) && Select(head + [devices], {"devices"}) == [devices]
  {
    SelectConcat(head, [devices], {"devices"});
    assert forall k :: k in head ==> k.Element? && k.name != "devices";
    SelectNone(head, {"devices"});
    assert [devices][1..] == [] && [] + [devices] == [devices];
  }

  lemma DevicesFound(attrs: seq<Attr>, head: seq<Tree>, kids: seq<Tree>, names: set<string>)
    requires !HasText(head) && !HasText(kids) && forall i :: 0 <= i < |head| ==> head[i].name != "devices"
    ensures DeviceNodes(Reparse(Element("domain", attrs, head + [Element("devices", [], kids)]), 0), names)
            == ReparseAll(Select(kids, names), 2)
  {
    var devices := Element("devices", [], kids);
    DevicesSelected(head, devices);
    TopNodesOf(Element("domain", attrs, head + [devices]), {"devices"});
    OneReparsed(devices);
    KidsOfOne(Reparse(devices, 1), names);
    SelectReparse(devices, 1, names);
  }

  lemma OneReparsed(x: Tree)
    ensures ReparseAll([x], 1) == [Reparse(x, 1)]
  {
  }

  lemma WrittenNamed(ds: seq<D.Disk>)
    ensures forall k :: k in AllWritten(ds) ==> k.Element? && k.name == "filesystem"
  {
  }

  lemma OthersUnnamed(others: seq<Tree>, names: set<string>)
    requires forall i :: 0 <= i < |others| ==> others[i].Element? && others[i].name !in names
    ensures Select(others, names) == []
  {
    assert forall k :: k in others ==> k.Element? && k.name !in names;
    SelectNone(others, names);
  }

  lemma WrittenSelected(ds: seq<D.Disk>, others: seq<Tree>)
    requires forall i :: 0 <= i < |others| ==> others[i].Element? && others[i].name !in {"disk", "filesystem"}
    ensures Select(AllWritten(ds) + others, {"disk", "filesystem"}) == AllWritten(ds)
  {
    var written, names := AllWritten(ds), {"disk", "filesystem"};
    SelectConcat(written, others, names);
    OthersUnnamed(others, names);
    WrittenNamed(ds);
    SelectEvery(written, names);
    assert written + [] == written;
  }

  lemma WrittenParsed(ds: seq<D.Disk>)
    requires forall i :: 0 <= i < |ds| ==> FsCarried(ds[i]) && DistinctKeys(ds[i].address)
    ensures ParseAll(ReparseAll(AllWritten(ds), 2), D.DiskDevice) == AllDevices(ds)
  {
    forall i | 0 <= i < |ds| ensures D.DiskDevice(ReparseAll(AllWritten(ds), 2)[i]) == Some(AllDevices(ds)[i]) {
      FilesystemComesBack(ds[i], 2);
    }
    ParseAllExact(ReparseAll(AllWritten(ds), 2), D.DiskDevice, AllDevices(ds));
  }

  /** The file systems of a container's document, as libvirt writes them, are read in
      order and as they are. */
  lemma ContainerFilesystems(attrs: seq<Attr>, head: seq<Tree>, ds: seq<D.Disk>, others: seq<Tree>)
    requires !HasText(head) && forall i :: 0 <= i < |head| ==> head[i].name != "devices"
    requires forall i :: 0 <= i < |others| ==> others[i].Element? && others[i].name !in {"disk", "filesystem"}
    requires forall i :: 0 <= i < |ds| ==> FsCarried(ds[i]) && DistinctKeys(ds[i].address)
    ensures var devices := Element("devices", [], AllWritten(ds) + others);
            ReadDevices(Reparse(Element("domain", attrs, head + [devices]), 0)).disks == AllDevices(ds)
  {
    assert !HasText(AllWritten(ds) + others);
    DevicesFound(attrs, head, AllWritten(ds) + others, {"disk", "filesystem"});
    WrittenSelected(ds, others);
    WrittenParsed(ds);
  }

  // ----- filters

  /** The names that these references give. */
  function RefNames(nodes: seq<Tree>): (r: seq<string>)
    ensures |r| == |nodes| && forall i :: 0 <= i < |nodes| ==> r[i] == TextOf(GetAttr(nodes[i], "filter"))
  {
    seq(|nodes|, i requires 0 <= i < |nodes| => TextOf(GetAttr(nodes[i], "filter")))
  }

  /** The rules with their ids, numbered from `n`. */
  function Numbered(filter: string, n: nat, nodes: seq<Tree>): seq<A.Rule>
    decreases |nodes|
  {
    if nodes == [] then []
    else [A.Rule(filter + ":" + Digits(n), nodes[0])] + Numbered(filter, n + 1, nodes[1..])
  }

  /** None of these names is there already or given before. */
  predicate Fresh(was: seq<string>, names: seq<string>) {
    forall i :: 0 <= i < |names| ==> names[i] !in was && names[i] !in names[..i]
  }

  predicate FilterAccepted(was: seq<string>, kids: seq<Tree>) {
    && EveryHas(kids, "rule", "action") && EveryHas(kids, "rule", "direction") && EveryHas(kids, "filterref", "filter")
    && Fresh(was, RefNames(Select(kids, {"filterref"})))
  }

  function FilterFound(f: A.FilterValue, kids: seq<Tree>): A.FilterValue {
    f.(uuid := LastText(kids, "uuid", f.uuid),
       rules := f.rules + Numbered(f.name, |f.rules|, Select(kids, {"rule"})),
       refs := f.refs + RefNames(Select(kids, {"filterref"})))
  }

  lemma FreshNext(was: seq<string>, name: string, names: seq<string>)
    ensures Fresh(was, [name] + names) <==> name !in was && Fresh(was + [name], names)
  {
    var all := [name] + names;
    assert forall i :: 0 <= i < |names| ==> all[i + 1] == names[i] && all[..i + 1] == [name] + names[..i];
    if Fresh(was, all) {
      assert all[0] !in was;
      forall i | 0 <= i < |names| ensures names[i] !in was + [name] && names[i] !in names[..i] {
        assert all[i + 1] !in was && all[i + 1] !in all[..i + 1];
      }
    }
    if name !in was && Fresh(was + [name], names) {
      forall i | 0 <= i < |all| ensures all[i] !in was && all[i] !in all[..i] {
        if i > 0 {
          assert names[i - 1] !in was + [name] && names[i - 1] !in names[..i - 1];
        }
      }
    }
  }

  lemma RefsNext(kids: seq<Tree>)
    requires kids != []
    ensures RefNames(Select(kids, {"filterref"}))
            == (if Name(kids[0]) == "filterref" then [TextOf(GetAttr(kids[0], "filter"))] else [])
               + RefNames(Select(kids[1..], {"filterref"}))
  {
    var rest := Select(kids[1..], {"filterref"});
    SelectNext(kids, "filterref");
    if Name(kids[0]) == "filterref" {
      RefNamesFirst(kids[0], rest);
    } else {
      assert [] + rest == rest && [] + RefNames(rest) == RefNames(rest);
    }
  }

  lemma RefNamesFirst(node: Tree, rest: seq<Tree>)
    ensures RefNames([node] + rest) == [TextOf(GetAttr(node, "filter"))] + RefNames(rest)
  {
  }

  lemma RulesNext(filter: string, n: nat, kids: seq<Tree>)
    requires kids != []
    ensures Numbered(filter, n, Select(kids, {"rule"}))
            == (if Name(kids[0]) == "rule" then [A.Rule(filter + ":" + Digits(n), kids[0])] else [])
               + Numbered(filter, if Name(kids[0]) == "rule" then n + 1 else n, Select(kids[1..], {"rule"}))
  {
    var rest := Select(kids[1..], {"rule"});
    SelectNext(kids, "rule");
    if Name(kids[0]) == "rule" {
      NumberedFirst(filter, n, kids[0], rest);
    } else {
      assert [] + rest == rest && [] + Numbered(filter, n, rest) == Numbered(filter, n, rest);
    }
  }

  lemma NumberedFirst(filter: string, n: nat, node: Tree, rest: seq<Tree>)
    ensures Numbered(filter, n, [node] + rest)
            == [A.Rule(filter + ":" + Digits(n), node)] + Numbered(filter, n + 1, rest)
  {
    assert ([node] + rest)[1..] == rest;
  }

  lemma FilterAcceptedNext(f: A.FilterValue, kids: seq<Tree>)
    requires kids != []
    ensures FilterAccepted(f.refs, kids)
            <==> A.FilterStep(f, kids[0]).Some? && FilterAccepted(A.FilterStep(f, kids[0]).value.refs, kids[1..])
  {
    EveryHasNext(kids, "rule", "action");
    EveryHasNext(kids, "rule", "direction");
    EveryHasNext(kids, "filterref", "filter");
    RefsNext(kids);
    var rest := RefNames(Select(kids[1..], {"filterref"}));
    if Name(kids[0]) == "filterref" {
      FreshNext(f.refs, TextOf(GetAttr(kids[0], "filter")), rest);
    } else {
      assert [] + rest == rest;
    }
  }

  lemma FilterNext(f: A.FilterValue, kids: seq<Tree>)
    requires kids != [] && A.FilterStep(f, kids[0]).Some?
    ensures FilterFound(f, kids) == FilterFound(A.FilterStep(f, kids[0]).value, kids[1..])
  {
    LastTextNext(kids, "uuid", f.uuid);
    RulesNext(f.name, |f.rules|, kids);
    RefsNext(kids);
    var rules := Numbered(f.name, |f.rules|, Select(kids[1..], {"rule"}));
    var refs := RefNames(Select(kids[1..], {"filterref"}));
    if Name(kids[0]) == "rule" {
      Associative(f.rules, [A.Rule(f.name + ":" + Digits(|f.rules|), kids[0])],
                  Numbered(f.name, |f.rules| + 1, Select(kids[1..], {"rule"})));
    } else {
      assert [] + rules == rules;
    }
    if Name(kids[0]) == "filterref" {
      Associative(f.refs, [TextOf(GetAttr(kids[0], "filter"))], refs);
    } else {
      assert [] + refs == refs;
    }
  }

  lemma {:induction false} FilterLoop(f: A.FilterValue, kids: seq<Tree>)
    ensures Fold(A.FilterStep, f, kids) == if FilterAccepted(f.refs, kids) then Some(FilterFound(f, kids)) else None
    decreases |kids|
  {
    if kids == [] {
      assert f.rules + [] == f.rules && f.refs + [] == f.refs;
    } else {
      FilterAcceptedNext(f, kids);
      var next := A.FilterStep(f, kids[0]);
      if next.Some? {
        FilterNext(f, kids);
        FilterLoop(next.value, kids[1..]);
      }
    }
  }

  /** A <filter> is read exactly when it has a name, all its rules an action and a
      direction, and all its references a filter, none of them twice.  The rules are
      kept in order under the filter's name and their number. */
  lemma FilterRead(x: Tree)
    requires x.Element?
    ensures A.FilterFrom(x)
            == if GetAttr(x, "name").None? || !EveryHas(x.kids, "rule", "action")
                  || !EveryHas(x.kids, "rule", "direction") || !EveryHas(x.kids, "filterref", "filter")
                  || !Distinct(RefNames(Select(x.kids, {"filterref"})))
               then None
               else Some(A.FilterValue(LastText(x.kids, "uuid", None), GetAttr(x, "name").value, GetAttr(x, "chain"),
                                       GetAttr(x, "priority"),
                                       Numbered(GetAttr(x, "name").value, 0, Select(x.kids, {"rule"})),
                                       RefNames(Select(x.kids, {"filterref"}))))
  {
    var (rules, refs) := (Select(x.kids, {"rule"}), RefNames(Select(x.kids, {"filterref"})));
    FilterLoop(A.FilterStart(x), x.kids);
    assert [] + Numbered(GetAttr(x, "name").GetOr(""), 0, rules) == Numbered(GetAttr(x, "name").GetOr(""), 0, rules);
    assert [] + refs == refs;
    assert Fresh([], refs) <==> Distinct(refs);
  }
}
