/** Operating system information: os_xml of libxkutil/xmlgen.c against parse_os
    of libxkutil/device_parsing.c. */
module OsXml {
  import opened Prelude
  import opened Xml

  datatype PvOs = PvOs(osType: Option<string>, kernel: Option<string>, initrd: Option<string>, cmdline: Option<string>)

  datatype FvOs = FvOs(
    osType: Option<string>,
    arch: Option<string>,
    machine: Option<string>,
    loader: Option<string>,
    bootlist: seq<Option<string>>)

  datatype LxcOs = LxcOs(osType: Option<string>, init: Option<string>)

  /** The domain's type with the member of the os_info union that it selects.
      Unset and unrecognised types are one: neither can be printed. */
  datatype System =
    | XenPv(pv: PvOs)
    | XenFv(fv: FvOs)
    | Kvm(fv: FvOs)
    | Qemu(fv: FvOs)
    | Container(lxc: LxcOs)
    | OtherSystem(osType: Option<string>)

  /** The type attribute of the printed domain. */
  function TypeText(s: System): string {
    match s
    case XenPv(_) => "xen"
    case XenFv(_) => "xen"
    case Kvm(_) => "kvm"
    case Qemu(_) => "qemu"
    case Container(_) => "lxc"
    case OtherSystem(_) => "unknown"
  }

  // ----- what is printed

  function FilledBoots(bootlist: seq<Option<string>>): seq<Option<string>> {
    if bootlist == [] then [Some("hd")] else bootlist
  }

  /** Printing fills the defaults into the structure it prints. */
  function Filled(s: System): System {
    match s
    case XenPv(os) =>
      XenPv(os.(osType := OrElse(os.osType, Some("linux")), kernel := OrElse(os.kernel, Some("/dev/null"))))
    case XenFv(os) =>
      XenFv(os.(osType := OrElse(os.osType, Some("hvm")),
                loader := OrElse(os.loader, Some("/usr/lib/xen/boot/hvmloader")),
                bootlist := FilledBoots(os.bootlist)))
    case Kvm(os) => Kvm(os.(osType := OrElse(os.osType, Some("hvm")), bootlist := FilledBoots(os.bootlist)))
    case Qemu(os) => Qemu(os.(osType := OrElse(os.osType, Some("hvm")), bootlist := FilledBoots(os.bootlist)))
    case Container(os) => Container(os.(osType := OrElse(os.osType, Some("exe"))))
    case OtherSystem(_) => s
  }

  function BootKids(bootlist: seq<Option<string>>): seq<Tree> {
    if bootlist == [] then [] else [Leaf("boot", Prop("dev", TextOf(bootlist[0])))] + BootKids(bootlist[1..])
  }

  function KvmType(os: FvOs): Tree {
    Element("type", OptAttr("arch", os.arch) + OptAttr("machine", os.machine), TextLeaf("type", os.osType).kids)
  }

  function OsKids(s: System): seq<Tree> {
    match s
    case XenPv(os) =>
      [TextLeaf("type", os.osType), TextLeaf("kernel", os.kernel), TextLeaf("initrd", os.initrd),
       TextLeaf("cmdline", os.cmdline)]
    case XenFv(os) => [TextLeaf("type", os.osType), TextLeaf("loader", os.loader)] + BootKids(os.bootlist)
    case Kvm(os) => [KvmType(os)] + BootKids(os.bootlist)
    case Qemu(os) => [KvmType(os)] + BootKids(os.bootlist)
    case Container(os) => [TextLeaf("init", os.init), TextLeaf("type", os.osType)]
    case OtherSystem(_) => []
  }

  function OsTree(s: System): Tree {
    Element("os", [], OsKids(s))
  }

  // ----- what is read

  datatype OsParts = OsParts(
    osType: Option<string>,
    arch: Option<string>,
    machine: Option<string>,
    kernel: Option<string>,
    initrd: Option<string>,
    cmdline: Option<string>,
    loader: Option<string>,
    init: Option<string>,
    bootlist: seq<Option<string>>)

  const NO_PARTS := OsParts(None, None, None, None, None, None, None, None, [])

  /** The last type text counts, but the first arch and machine, kernel, and so on. */
  function OsStep(p: OsParts, kid: Tree): Option<OsParts> {
    Some(
      if Name(kid) == "type" then
        p.(osType := Some(Content(kid)), arch := OrElse(p.arch, GetAttr(kid, "arch")),
           machine := OrElse(p.machine, GetAttr(kid, "machine")))
      else if Name(kid) == "kernel" && p.kernel.None? then p.(kernel := Some(Content(kid)))
      else if Name(kid) == "initrd" && p.initrd.None? then p.(initrd := Some(Content(kid)))
      else if Name(kid) == "cmdline" && p.cmdline.None? then p.(cmdline := Some(Content(kid)))
      else if Name(kid) == "loader" && p.loader.None? then p.(loader := Some(Content(kid)))
      else if Name(kid) == "boot" then p.(bootlist := p.bootlist + [GetAttr(kid, "dev")])
      else if Name(kid) == "init" && p.init.None? then p.(init := Some(Content(kid)))
      else p)
  }

  /** The domain's type follows from its type attribute and the OS type, and
      decides which of the parts are kept. */
  function SystemOf(typestr: string, p: OsParts): System {
    var osType := TextOf(p.osType);
    var fv := FvOs(p.osType, p.arch, p.machine, p.loader, p.bootlist);
    if EqNoCase(osType, "hvm") && EqNoCase(typestr, "xen") then XenFv(fv)
    else if EqNoCase(typestr, "kvm") then Kvm(fv)
    else if EqNoCase(typestr, "qemu") then Qemu(fv)
    else if EqNoCase(typestr, "lxc") then Container(LxcOs(p.osType, p.init))
    else if EqNoCase(osType, "linux") then XenPv(PvOs(p.osType, p.kernel, p.initrd, p.cmdline))
    else OtherSystem(p.osType)
  }

  function ReadOs(typestr: string, was: Option<string>, x: Tree): System {
    match Fold(OsStep, NO_PARTS.(osType := was), if x.Element? then x.kids else [])
    case None => OtherSystem(was)
    case Some(p) => SystemOf(typestr, p)
  }

  // ----- the printing code

  method TextXml(root: Builder, name: string, content: Option<string>)
    modifies root`kids
    ensures root.kids == old(root.kids) + [TextLeaf(name, content)]
  {
    root.AddChild(TextLeaf(name, content));
  }

  method FvBootlistXml(root: Builder, os: FvOs)
    modifies root`kids
    ensures root.kids == old(root.kids) + BootKids(os.bootlist)
  {
    assert root.kids == root.kids + [];
    for i := 0 to |os.bootlist|
      invariant old(root.kids) + BootKids(os.bootlist) == root.kids + BootKids(os.bootlist[i..])
    {
      assert os.bootlist[i..][1..] == os.bootlist[i + 1..];
      var tmp := new Builder("boot");
      tmp.NewProp("dev", os.bootlist[i]);
      assert tmp.attrs == Prop("dev", TextOf(os.bootlist[i]));
      root.AddChild(tmp.Built());
    }
  }

  method XenPvOsXml(root: Builder, os: PvOs) returns (r: PvOs)
    modifies root`kids
    ensures XenPv(r) == Filled(XenPv(os))
    ensures root.kids == old(root.kids) + OsKids(XenPv(r))
  {
    r := os;
    if r.osType.None? {
      r := r.(osType := Some("linux"));
    }
    if r.kernel.None? {
      r := r.(kernel := Some("/dev/null"));
    }
    TextXml(root, "type", r.osType);
    TextXml(root, "kernel", r.kernel);
    TextXml(root, "initrd", r.initrd);
    TextXml(root, "cmdline", r.cmdline);
  }

  method LoaderXml(root: Builder, os: FvOs)
    modifies root`kids
    ensures root.kids == old(root.kids) + [TextLeaf("type", os.osType), TextLeaf("loader", os.loader)]
  {
    TextXml(root, "type", os.osType);
    TextXml(root, "loader", os.loader);
  }

  method XenFvOsXml(root: Builder, os: FvOs) returns (r: FvOs)
    modifies root`kids
    ensures XenFv(r) == Filled(XenFv(os))
    ensures root.kids == old(root.kids) + OsKids(XenFv(r))
  {
    r := os;
    if r.osType.None? {
      r := r.(osType := Some("hvm"));
    }
    if r.loader.None? {
      r := r.(loader := Some("/usr/lib/xen/boot/hvmloader"));
    }
    if |r.bootlist| == 0 {
      r := r.(bootlist := [Some("hd")]);
    }
    assert XenFv(r) == Filled(XenFv(os));
    LoaderXml(root, r);
    FvBootlistXml(root, r);
  }

  method KvmOsXml(root: Builder, os: FvOs) returns (r: FvOs)
    modifies root`kids
    ensures Kvm(r) == Filled(Kvm(os)) && Qemu(r) == Filled(Qemu(os))
    ensures root.kids == old(root.kids) + OsKids(Kvm(r))
  {
    r := os;
    if r.osType.None? {
      r := r.(osType := Some("hvm"));
    }
    if |r.bootlist| == 0 {
      r := r.(bootlist := [Some("hd")]);
    }
    assert Kvm(r) == Filled(Kvm(os));
    var tmp := new Builder("type");
    tmp.kids := TextLeaf("type", r.osType).kids;
    tmp.NewOptProp("arch", r.arch);
    tmp.NewOptProp("machine", r.machine);
    assert tmp.attrs == OptAttr("arch", r.arch) + OptAttr("machine", r.machine);
    root.AddChild(tmp.Built());
    FvBootlistXml(root, r);
  }

  method LxcOsXml(root: Builder, os: LxcOs) returns (r: LxcOs)
    modifies root`kids
    ensures Container(r) == Filled(Container(os))
    ensures root.kids == old(root.kids) + OsKids(Container(r))
  {
    r := os;
    if r.osType.None? {
      r := r.(osType := Some("exe"));
    }
    TextXml(root, "init", r.init);
    TextXml(root, "type", r.osType);
  }

  /** os_xml; false is the message "Unsupported domain type". */
  method OsToXml(root: Builder, s: System) returns (ok: bool, r: System)
    modifies root`kids
    ensures ok == !s.OtherSystem? && r == Filled(s)
    ensures root.kids == old(root.kids) + [OsTree(r)]
  {
    var os := new Builder("os");
    ok := true;
    match s {
      case XenPv(pv) => var pv1 := XenPvOsXml(os, pv); r := XenPv(pv1);
      case XenFv(fv) => var fv1 := XenFvOsXml(os, fv); r := XenFv(fv1);
      case Kvm(fv) => var fv1 := KvmOsXml(os, fv); r := Kvm(fv1);
      case Qemu(fv) => var fv1 := KvmOsXml(os, fv); r := Qemu(fv1);
      case Container(lxc) => var lxc1 := LxcOsXml(os, lxc); r := Container(lxc1);
      case OtherSystem(_) => ok, r := false, s;
    }
    assert os.kids == OsKids(r);
    root.AddChild(os.Built());
  }

  // ----- the parsing code

  method ParseOs(typestr: string, was: Option<string>, x: Tree) returns (r: System)
    requires x.Element?
    ensures r == ReadOs(typestr, was, x)
  {
    var p := NO_PARTS.(osType := was);
    for i := 0 to |x.kids|
      invariant Fold(OsStep, NO_PARTS.(osType := was), x.kids) == Fold(OsStep, p, x.kids[i..])
    {
      var kid := x.kids[i];
      assert x.kids[i..][1..] == x.kids[i + 1..];
      if Name(kid) == "type" {
        p := p.(osType := Some(Content(kid)));
        if p.arch.None? {
          p := p.(arch := GetAttr(kid, "arch"));
        }
        if p.machine.None? {
          p := p.(machine := GetAttr(kid, "machine"));
        }
      } else if Name(kid) == "kernel" && p.kernel.None? {
        p := p.(kernel := Some(Content(kid)));
      } else if Name(kid) == "initrd" && p.initrd.None? {
        p := p.(initrd := Some(Content(kid)));
      } else if Name(kid) == "cmdline" && p.cmdline.None? {
        p := p.(cmdline := Some(Content(kid)));
      } else if Name(kid) == "loader" && p.loader.None? {
        p := p.(loader := Some(Content(kid)));
      } else if Name(kid) == "boot" {
        p := p.(bootlist := p.bootlist + [GetAttr(kid, "dev")]);
      } else if Name(kid) == "init" && p.init.None? {
        p := p.(init := Some(Content(kid)));
      }
    }
    return SystemOf(typestr, p);
  }

  // ----- what survives printing and parsing

  /** What the printed elements of a system are read as. */
  function PartsOf(s: System): OsParts {
    match s
    case XenPv(os) =>
      NO_PARTS.(osType := Some(TextOf(os.osType)), kernel := Some(TextOf(os.kernel)),
                initrd := Some(TextOf(os.initrd)), cmdline := Some(TextOf(os.cmdline)))
    case XenFv(os) =>
      NO_PARTS.(osType := Some(TextOf(os.osType)), loader := Some(TextOf(os.loader)),
                bootlist := BootsRead(os.bootlist))
    case Kvm(os) =>
      NO_PARTS.(osType := Some(TextOf(os.osType)), arch := os.arch, machine := os.machine,
                bootlist := BootsRead(os.bootlist))
    case Qemu(os) =>
      NO_PARTS.(osType := Some(TextOf(os.osType)), arch := os.arch, machine := os.machine,
                bootlist := BootsRead(os.bootlist))
    case Container(os) => NO_PARTS.(osType := Some(TextOf(os.osType)), init := Some(TextOf(os.init)))
    case OtherSystem(_) => NO_PARTS
  }

  function BootsRead(bootlist: seq<Option<string>>): (r: seq<Option<string>>)
    ensures |r| == |bootlist| && forall i :: 0 <= i < |r| ==> r[i] == Some(TextOf(bootlist[i]))
  {
    seq(|bootlist|, i requires 0 <= i < |bootlist| => Some(TextOf(bootlist[i])))
  }

  lemma BootStep(p: OsParts, dev: string)
    ensures OsStep(p, Leaf("boot", Prop("dev", dev))) == Some(p.(bootlist := p.bootlist + [Some(dev)]))
  {
    assert GetAttr(Leaf("boot", Prop("dev", dev)), "dev") == Some(dev);
  }

  lemma {:induction false} BootReadBack(p: OsParts, bootlist: seq<Option<string>>)
    ensures Fold(OsStep, p, BootKids(bootlist)) == Some(p.(bootlist := p.bootlist + BootsRead(bootlist)))
    decreases |bootlist|
  {
    var devs := BootsRead(bootlist);
    if bootlist == [] {
      assert p.bootlist + devs == p.bootlist;
    } else {
      var p1 := p.(bootlist := p.bootlist + [devs[0]]);
      var kids := BootKids(bootlist);
      BootStep(p, TextOf(bootlist[0]));
      assert OsStep(p, kids[0]) == Some(p1);
      assert kids[1..] == BootKids(bootlist[1..]);
      assert Fold(OsStep, p, kids) == Fold(OsStep, p1, kids[1..]);
      BootReadBack(p1, bootlist[1..]);
      assert devs[1..] == BootsRead(bootlist[1..]);
      assert p1.bootlist + devs[1..] == p.bootlist + devs;
    }
  }

  lemma PvReadBack(os: PvOs)
    ensures Fold(OsStep, NO_PARTS, OsKids(XenPv(os))) == Some(PartsOf(XenPv(os)))
  {
    var a, b := TextLeaf("type", os.osType), TextLeaf("kernel", os.kernel);
    var c, e := TextLeaf("initrd", os.initrd), TextLeaf("cmdline", os.cmdline);
    var p1 := NO_PARTS.(osType := Some(TextOf(os.osType)));
    var p2 := p1.(kernel := Some(TextOf(os.kernel)));
    var p3 := p2.(initrd := Some(TextOf(os.initrd)));
    FoldTwo(OsStep, NO_PARTS, p1, p2, a, b);
    FoldTwo(OsStep, p2, p3, PartsOf(XenPv(os)), c, e);
    assert OsKids(XenPv(os)) == [a, b] + [c, e];
    FoldConcat(OsStep, NO_PARTS, [a, b], [c, e]);
  }

  lemma FvReadBack(os: FvOs)
    ensures Fold(OsStep, NO_PARTS, OsKids(XenFv(os))) == Some(PartsOf(XenFv(os)))
  {
    var a, b := TextLeaf("type", os.osType), TextLeaf("loader", os.loader);
    var p1 := NO_PARTS.(osType := Some(TextOf(os.osType)));
    var p2 := p1.(loader := Some(TextOf(os.loader)));
    FoldTwo(OsStep, NO_PARTS, p1, p2, a, b);
    FoldConcat(OsStep, NO_PARTS, [a, b], BootKids(os.bootlist));
    BootReadBack(p2, os.bootlist);
    assert [] + BootsRead(os.bootlist) == BootsRead(os.bootlist);
  }

  lemma KvmReadBack(os: FvOs)
    ensures Fold(OsStep, NO_PARTS, OsKids(Kvm(os))) == Some(PartsOf(Kvm(os)))
  {
    var a := KvmType(os);
    LookupGroups(OptAttr("arch", os.arch), OptAttr("machine", os.machine), [], []);
    assert Content(a) == Content(TextLeaf("type", os.osType));
    var p1 := NO_PARTS.(osType := Some(TextOf(os.osType)), arch := os.arch, machine := os.machine);
    FoldOne(OsStep, NO_PARTS, a);
    FoldConcat(OsStep, NO_PARTS, [a], BootKids(os.bootlist));
    BootReadBack(p1, os.bootlist);
    assert [] + BootsRead(os.bootlist) == BootsRead(os.bootlist);
  }

  lemma PartsReadBack(s: System)
    requires !s.OtherSystem?
    ensures Fold(OsStep, NO_PARTS, OsKids(s)) == Some(PartsOf(s))
  {
    match s
    case XenPv(os) => PvReadBack(os);
    case XenFv(os) => FvReadBack(os);
    case Kvm(os) => KvmReadBack(os);
    case Qemu(os) => KvmReadBack(os);
    case Container(os) =>
      FoldTwo(OsStep, NO_PARTS, NO_PARTS.(init := Some(TextOf(os.init))), PartsOf(s),
              TextLeaf("init", os.init), TextLeaf("type", os.osType));
  }

  lemma {:induction false} BootKidsAgain(bootlist: seq<Option<string>>)
    ensures forall k :: k in BootKids(bootlist) ==> k.Element? && k.kids == [] && WellFormed(k)
    decreases |bootlist|
  {
    if bootlist != [] {
      BootKidsAgain(bootlist[1..]);
      assert WellFormed(Leaf("boot", Prop("dev", TextOf(bootlist[0]))));
    }
  }

  lemma OsSettled(s: System)
    ensures Settled(OsKids(s))
  {
    match s
    case XenPv(os) =>
      TextLeafSettled("type", os.osType);
      TextLeafSettled("kernel", os.kernel);
      TextLeafSettled("initrd", os.initrd);
      TextLeafSettled("cmdline", os.cmdline);
    case XenFv(os) =>
      TextLeafSettled("type", os.osType);
      TextLeafSettled("loader", os.loader);
      BootKidsAgain(os.bootlist);
    case Kvm(os) =>
      TextLeafSettled("type", os.osType);
      BootKidsAgain(os.bootlist);
    case Qemu(os) =>
      TextLeafSettled("type", os.osType);
      BootKidsAgain(os.bootlist);
    case Container(os) =>
      TextLeafSettled("type", os.osType);
      TextLeafSettled("init", os.init);
    case OtherSystem(_) =>
  }

  /** The systems that printing loses nothing of, defaults filled in. */
  predicate OsPrintable(s: System) {
    match s
    case XenPv(os) => EqNoCase(TextOf(os.osType), "linux") && os.initrd.Some? && os.cmdline.Some?
    case XenFv(os) =>
      EqNoCase(TextOf(os.osType), "hvm") && os.arch.None? && os.machine.None? && AllSet(os.bootlist)
    case Kvm(os) => os.loader.None? && AllSet(os.bootlist)
    case Qemu(os) => os.loader.None? && AllSet(os.bootlist)
    case Container(os) => os.init.Some?
    case OtherSystem(_) => false
  }

  predicate AllSet(bootlist: seq<Option<string>>) {
    forall i :: 0 <= i < |bootlist| ==> bootlist[i].Some?
  }

  lemma BootsKept(bootlist: seq<Option<string>>)
    ensures BootsRead(bootlist) == bootlist <==> AllSet(bootlist)
  {
    var again := BootsRead(bootlist);
    if again == bootlist {
      assert forall i :: 0 <= i < |bootlist| ==> again[i].Some?;
    }
  }

  lemma TypeNames()
    ensures EqNoCase("xen", "xen") && EqNoCase("kvm", "kvm") && EqNoCase("qemu", "qemu") && EqNoCase("lxc", "lxc")
    ensures !EqNoCase("xen", "kvm") && !EqNoCase("xen", "qemu") && !EqNoCase("xen", "lxc")
    ensures !EqNoCase("kvm", "xen") && !EqNoCase("qemu", "xen") && !EqNoCase("lxc", "xen")
    ensures !EqNoCase("qemu", "kvm") && !EqNoCase("lxc", "kvm") && !EqNoCase("lxc", "qemu")
    ensures forall s {:trigger EqNoCase(s, "linux")} :: EqNoCase(s, "linux") ==> !EqNoCase(s, "hvm")
  {
    assert Lower("xen") == "xen" && Lower("kvm") == "kvm" && Lower("qemu") == "qemu" && Lower("lxc") == "lxc";
    assert |Lower("linux")| == 5 && |Lower("hvm")| == 3;
  }

  lemma SystemKept(s: System)
    requires !s.OtherSystem?
    requires s == Filled(s)
    ensures SystemOf(TypeText(s), PartsOf(s)) == s <==> OsPrintable(s)
  {
    TypeNames();
    match s
    case XenPv(os) =>
    case XenFv(os) => BootsKept(os.bootlist);
    case Kvm(os) => BootsKept(os.bootlist);
    case Qemu(os) => BootsKept(os.bootlist);
    case Container(os) =>
  }

  /** The printed operating system is read back as it was, type, fields and boot
      list in order, exactly when it is `OsPrintable`. */
  lemma OsRoundTrip(s: System, depth: nat)
    requires !s.OtherSystem? && s == Filled(s)
    ensures ReadOs(TypeText(s), None, Reparse(OsTree(s), depth)) == s <==> OsPrintable(s)
  {
    OsReadBack(s, depth);
    SystemKept(s);
  }

  lemma OsIgnoresText()
    ensures IgnoresText(OsStep)
  {
    assert "text"[0] == 't' && "text"[1] == 'e' && "type"[1] == 'y' && "boot"[0] == 'b' && "init"[0] == 'i';
    forall p, t: string ensures OsStep(p, Text(t)) == Some(p) {
      assert Name(Text(t)) == "text";
    }
  }

  lemma OsReadBack(s: System, depth: nat)
    requires !s.OtherSystem?
    ensures ReadOs(TypeText(s), None, Reparse(OsTree(s), depth)) == SystemOf(TypeText(s), PartsOf(s))
  {
    OsSettled(s);
    OsIgnoresText();
    FoldSettled(OsStep, NO_PARTS, OsTree(s), depth);
    PartsReadBack(s);
  }

  lemma FilledTwice(s: System)
    ensures Filled(Filled(s)) == Filled(s)
  {
  }

  lemma TextLeafWellFormed(name: string, content: Option<string>)
    ensures WellFormed(TextLeaf(name, content))
  {
  }

  lemma FvWellFormed(os: FvOs)
    ensures WellFormed(OsTree(XenFv(os))) && WellFormed(OsTree(Kvm(os)))
  {
    BootKidsAgain(os.bootlist);
    TextLeafWellFormed("type", os.osType);
    TextLeafWellFormed("loader", os.loader);
    DistinctGroups(OptAttr("arch", os.arch), OptAttr("machine", os.machine), [], []);
    assert WellFormed(KvmType(os)) && AllWellFormed(BootKids(os.bootlist));
    AllWellFormedConcat([KvmType(os)], BootKids(os.bootlist));
    AllWellFormedConcat([TextLeaf("type", os.osType), TextLeaf("loader", os.loader)], BootKids(os.bootlist));
    assert AllWellFormed(OsKids(XenFv(os))) && AllWellFormed(OsKids(Kvm(os)));
  }

  lemma OsWellFormed(s: System)
    ensures WellFormed(OsTree(s))
  {
    match s
    case XenPv(os) =>
      TextLeafWellFormed("type", os.osType);
      TextLeafWellFormed("kernel", os.kernel);
      TextLeafWellFormed("initrd", os.initrd);
      TextLeafWellFormed("cmdline", os.cmdline);
    case XenFv(os) => FvWellFormed(os);
    case Kvm(os) => FvWellFormed(os);
    case Qemu(os) =>
      FvWellFormed(os);
      assert OsTree(s) == OsTree(Kvm(os));
    case Container(os) =>
      TextLeafWellFormed("type", os.osType);
      TextLeafWellFormed("init", os.init);
    case OtherSystem(_) =>
  }
}
