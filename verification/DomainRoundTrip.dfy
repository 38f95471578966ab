/** What a domain that was printed, saved and parsed again is: system_to_xml
    followed by get_dominfo_from_xml. */
module DomainRoundTrip {
  import opened Prelude
  import opened Xml
  import opened Devices
  import opened OsXml
  import opened DomainXml
  import D = DiskXml
  import N = NetXml
  import C = ConsoleXml
  import G = GraphicsXml
  import L = ControllerXml
  import P = PlainXml

  // ----- the domain itself

  /** A child that parse_domain reads the same before and after saving. */
  ghost predicate Stable(k: Tree) {
    forall b: Base :: BaseStep(b, Reparse(k, 1)) == BaseStep(b, k)
  }

  ghost predicate AllStable(kids: seq<Tree>) {
    forall k :: k in kids ==> Stable(k)
  }

  lemma AllStableConcat(a: seq<Tree>, b: seq<Tree>)
    ensures AllStable(a + b) <==> AllStable(a) && AllStable(b)
  {
    assert forall k :: k in a || k in b <==> k in a + b;
  }

  lemma SettledStable(kids: seq<Tree>)
    requires Settled(kids)
    ensures AllStable(kids)
  {
    forall k | k in kids ensures Stable(k) {
      assert Reparse(k, 1) == k;
    }
  }

  lemma TextStable(name: string, content: Option<string>)
    ensures AllStable([TextLeaf(name, content)])
  {
    TextLeafSettled(name, content);
    SettledStable([TextLeaf(name, content)]);
  }

  lemma OsReadAgain(s: System, typestr: string, was: Option<string>)
    ensures ReadOs(typestr, was, Reparse(OsTree(s), 1)) == ReadOs(typestr, was, OsTree(s))
  {
    OsSettled(s);
    OsIgnoresText();
    FoldSettled(OsStep, NO_PARTS.(osType := was), OsTree(s), 1);
  }

  lemma OsStable(s: System)
    ensures Stable(OsTree(s))
  {
    var x := OsTree(s);
    assert Name(Reparse(x, 1)) == "os" == Name(x);
    forall b: Base ensures BaseStep(b, Reparse(x, 1)) == BaseStep(b, x) {
      OsReadAgain(s, TextOf(b.typestr), OsTypeOf(b.system));
    }
  }

  lemma FeaturesSettled(f: Features)
    ensures Settled(FeatureTree(f).kids)
  {
  }

  lemma FeaturesIgnoreText()
    ensures IgnoresText(FeatureStep)
  {
    assert "text"[0] == 't' && "acpi"[0] == 'a' && "apic"[0] == 'a';
    forall f, t: string ensures FeatureStep(f, Text(t)) == Some(f) {
      assert Name(Text(t)) == "text";
    }
  }

  lemma FeaturesStable(f: Features)
    ensures Stable(FeatureTree(f))
  {
    var x := FeatureTree(f);
    FeaturesSettled(f);
    FeaturesIgnoreText();
    forall g ensures ReadFeatures(g, Reparse(x, 1)) == ReadFeatures(g, x) {
      FoldSettled(FeatureStep, g, x, 1);
    }
    assert Name(Reparse(x, 1)) == "features" == Name(x);
  }

  predicate Ignored(k: Tree) {
    k.Element? && k.name in {"memory", "currentMemory", "vcpu", "cputune", "devices"}
  }

  lemma IgnoredStep(b: Base, k: Tree)
    requires Ignored(k)
    ensures BaseStep(b, k) == Some(b)
  {
  }

  lemma {:induction false} IgnoredFold(b: Base, kids: seq<Tree>)
    requires forall k :: k in kids ==> Ignored(k)
    ensures Fold(BaseStep, b, kids) == Some(b) && AllStable(kids)
    decreases |kids|
  {
    if kids != [] {
      assert kids[0] in kids && forall k :: k in kids[1..] ==> k in kids;
      IgnoredStep(b, kids[0]);
      IgnoredFold(b, kids[1..]);
      forall c ensures BaseStep(c, Reparse(kids[0], 1)) == BaseStep(c, kids[0]) {
        IgnoredStep(c, kids[0]);
        IgnoredStep(c, Reparse(kids[0], 1));
      }
      assert kids == [kids[0]] + kids[1..];
      AllStableConcat([kids[0]], kids[1..]);
    }
  }

  lemma NameStable(b: Base)
    ensures AllStable(NameKids(b))
  {
    TextStable("name", b.name);
    TextStable("bootloader", b.bootloader);
    TextStable("bootloader_args", b.bootloaderArgs);
    var name, loader := [TextLeaf("name", b.name)], OptText("bootloader", b.bootloader);
    AllStableConcat(name, loader);
    AllStableConcat(name + loader, OptText("bootloader_args", b.bootloaderArgs));
  }

  lemma ActionStable(b: Base)
    ensures AllStable(ActionKids(b))
  {
    TextStable("on_poweroff", Some(ActionText(b.onPoweroff)));
    TextStable("on_crash", Some(ActionText(b.onCrash)));
    assert ActionKids(b) == [ActionKids(b)[0]] + [ActionKids(b)[1]];
    AllStableConcat([ActionKids(b)[0]], [ActionKids(b)[1]]);
  }

  function UuidKids(b: Base): seq<Tree> {
    [TextLeaf("uuid", b.uuid)] + OptLeaf("clock", "offset", b.clock)
  }

  lemma UuidStable(b: Base)
    ensures AllStable(UuidKids(b))
  {
    TextStable("uuid", b.uuid);
    SettledStable(OptLeaf("clock", "offset", b.clock));
    AllStableConcat([TextLeaf("uuid", b.uuid)], OptLeaf("clock", "offset", b.clock));
  }

  lemma BaseStable(b: Base)
    ensures AllStable(BaseKids(b))
  {
    NameStable(b);
    ActionStable(b);
    UuidStable(b);
    OsStable(b.system);
    FeaturesStable(b.features);
    AllStableConcat(NameKids(b), ActionKids(b));
    AllStableConcat(NameKids(b) + ActionKids(b), UuidKids(b));
    AllStableConcat(NameKids(b) + ActionKids(b) + UuidKids(b), [OsTree(b.system), FeatureTree(b.features)]);
  }

  lemma NameReadBack(acc: Base, b: Base)
    ensures Fold(BaseStep, acc, NameKids(b))
            == Some(acc.(name := Some(TextOf(b.name)), bootloader := OrElse(b.bootloader, acc.bootloader),
                         bootloaderArgs := OrElse(b.bootloaderArgs, acc.bootloaderArgs)))
  {
    var name, loader := TextLeaf("name", b.name), OptText("bootloader", b.bootloader);
    var a1 := acc.(name := Some(TextOf(b.name)));
    var a2 := a1.(bootloader := OrElse(b.bootloader, acc.bootloader));
    FoldOne(BaseStep, acc, name);
    FoldConcat(BaseStep, acc, [name], loader);
    FoldOne(BaseStep, a1, TextLeaf("bootloader", b.bootloader));
    FoldConcat(BaseStep, acc, [name] + loader, OptText("bootloader_args", b.bootloaderArgs));
    FoldOne(BaseStep, a2, TextLeaf("bootloader_args", b.bootloaderArgs));
  }

  lemma ActionReadBack(acc: Base, b: Base)
    ensures Fold(BaseStep, acc, ActionKids(b))
            == Some(acc.(onPoweroff := ActionOf(ActionText(b.onPoweroff)), onCrash := ActionOf(ActionText(b.onCrash))))
  {
    var kids := ActionKids(b);
    var a1 := acc.(onPoweroff := ActionOf(ActionText(b.onPoweroff)));
    FoldTwo(BaseStep, acc, a1, a1.(onCrash := ActionOf(ActionText(b.onCrash))), kids[0], kids[1]);
  }

  lemma UuidReadBack(acc: Base, b: Base)
    ensures Fold(BaseStep, acc, UuidKids(b))
            == Some(acc.(uuid := Some(TextOf(b.uuid)), clock := OrElse(b.clock, acc.clock)))
  {
    var uuid := TextLeaf("uuid", b.uuid);
    FoldConcat(BaseStep, acc, [uuid], OptLeaf("clock", "offset", b.clock));
    FoldOne(BaseStep, acc, uuid);
    if b.clock.Some? {
      FoldOne(BaseStep, acc.(uuid := Some(TextOf(b.uuid))), Leaf("clock", Prop("offset", b.clock.value)));
    }
  }

  lemma FeaturesReadBack(f: Features)
    ensures ReadFeatures(NO_FEATURES, FeatureTree(f)) == f
  {
    var acpi, apic, pae := Flag("acpi", f.acpi), Flag("apic", f.apic), Flag("pae", f.pae);
    var f1 := Features(f.acpi, false, false);
    var f2 := Features(f.acpi, f.apic, false);
    FoldConcat(FeatureStep, NO_FEATURES, acpi, apic);
    FoldOne(FeatureStep, NO_FEATURES, Leaf("acpi", []));
    FoldOne(FeatureStep, f1, Leaf("apic", []));
    FoldConcat(FeatureStep, NO_FEATURES, acpi + apic, pae);
    FoldOne(FeatureStep, f2, Leaf("pae", []));
  }

  lemma OsStepBack(acc: Base, s: System)
    requires acc.system == OtherSystem(None) && acc.typestr == Some(TypeText(s)) && !s.OtherSystem?
    ensures BaseStep(acc, OsTree(s)) == Some(acc.(system := SystemOf(TypeText(s), OsXml.PartsOf(s))))
  {
    PartsReadBack(s);
    assert ReadOs(TypeText(s), None, OsTree(s)) == SystemOf(TypeText(s), OsXml.PartsOf(s));
  }

  lemma FeatureStepBack(acc: Base, f: Features)
    requires acc.features == NO_FEATURES
    ensures BaseStep(acc, FeatureTree(f)) == Some(acc.(features := f))
  {
    FeaturesReadBack(f);
  }

  lemma SystemReadBack(acc: Base, b: Base)
    requires acc.system == OtherSystem(None) && acc.features == NO_FEATURES
    requires acc.typestr == Some(TypeText(b.system)) && !b.system.OtherSystem?
    ensures Fold(BaseStep, acc, [OsTree(b.system), FeatureTree(b.features)])
            == Some(acc.(system := SystemOf(TypeText(b.system), OsXml.PartsOf(b.system)), features := b.features))
  {
    var a1 := acc.(system := SystemOf(TypeText(b.system), OsXml.PartsOf(b.system)));
    OsStepBack(acc, b.system);
    FeatureStepBack(a1, b.features);
    FoldTwo(BaseStep, acc, a1, a1.(features := b.features), OsTree(b.system), FeatureTree(b.features));
  }

  /** The domain's own data, read back. */
  function BaseRead(b: Base): Base {
    Base(Some(TextOf(b.name)), Some(TypeText(b.system)), Some(TextOf(b.uuid)), b.bootloader, b.bootloaderArgs, b.clock,
         b.features, SystemOf(TypeText(b.system), OsXml.PartsOf(b.system)),
         ActionOf(ActionText(b.onPoweroff)), 0, ActionOf(ActionText(b.onCrash)))
  }

  lemma BaseKidsReadBack(b: Base)
    requires !b.system.OtherSystem?
    ensures Fold(BaseStep, NO_BASE.(typestr := Some(TypeText(b.system))), BaseKids(b)) == Some(BaseRead(b))
  {
    var a0 := NO_BASE.(typestr := Some(TypeText(b.system)));
    var a1 := a0.(name := Some(TextOf(b.name)), bootloader := b.bootloader, bootloaderArgs := b.bootloaderArgs);
    var a2 := a1.(onPoweroff := ActionOf(ActionText(b.onPoweroff)), onCrash := ActionOf(ActionText(b.onCrash)));
    var a3 := a2.(uuid := Some(TextOf(b.uuid)), clock := b.clock);
    NameReadBack(a0, b);
    FoldConcat(BaseStep, a0, NameKids(b), ActionKids(b));
    ActionReadBack(a1, b);
    FoldConcat(BaseStep, a0, NameKids(b) + ActionKids(b), UuidKids(b));
    UuidReadBack(a2, b);
    FoldConcat(BaseStep, a0, NameKids(b) + ActionKids(b) + UuidKids(b), [OsTree(b.system), FeatureTree(b.features)]);
    SystemReadBack(a3, b);
  }

  lemma MiddleIgnored(d: DeviceLists)
    ensures forall k :: k in MiddleKids(d) ==> Ignored(k)
  {
    assert forall k :: k in P.MemKids(d.mems) ==> Ignored(k);
    assert forall k :: k in P.VcpuKids(d.vcpus) ==> Ignored(k);
    assert forall k :: k in P.CputuneKids(d.vcpus) ==> Ignored(k);
  }

  lemma RestIgnored(d: DeviceLists, p: Parts)
    ensures forall k :: k in MiddleKids(d) + [DevicesTree(p)] ==> Ignored(k)
  {
    MiddleIgnored(d);
  }

  lemma IgnoredBehind(acc: Base, head: seq<Tree>, rest: seq<Tree>)
    requires forall k :: k in rest ==> Ignored(k)
    ensures Fold(BaseStep, acc, head + rest) == Fold(BaseStep, acc, head)
  {
    FoldConcat(BaseStep, acc, head, rest);
    var read := Fold(BaseStep, acc, head);
    if read.Some? {
      IgnoredFold(read.value, rest);
    }
  }

  lemma BaseStableUnder(kids: seq<Tree>)
    requires AllStable(kids)
    ensures StableUnder(BaseStep, kids, 1)
  {
    forall b: Base, k | k in kids ensures BaseStep(b, Reparse(k, 1)) == BaseStep(b, k) {
      assert Stable(k);
    }
  }

  lemma StableFold(acc: Base, x: Tree)
    requires x.Element? && AllStable(x.kids)
    ensures Fold(BaseStep, acc, Reparse(x, 0).kids) == Fold(BaseStep, acc, x.kids)
  {
    BaseIgnoresText();
    BaseStableUnder(x.kids);
    FoldStable(BaseStep, acc, x, 0);
  }

  /** Reading the children of a saved root: what is ignored adds nothing. */
  lemma RootReparse(acc: Base, attrs: seq<Attr>, head: seq<Tree>, rest: seq<Tree>)
    requires AllStable(head) && forall k :: k in rest ==> Ignored(k)
    ensures Fold(BaseStep, acc, Reparse(Element("domain", attrs, head + rest), 0).kids) == Fold(BaseStep, acc, head)
  {
    IgnoredFold(acc, rest);
    AllStableConcat(head, rest);
    StableFold(acc, Element("domain", attrs, head + rest));
    IgnoredBehind(acc, head, rest);
  }

  lemma SplitRoot(b: Base, d: DeviceLists, p: Parts)
    ensures DomainTree(b, d, p)
            == Element("domain", Prop("type", TypeText(b.system)), BaseKids(b) + (MiddleKids(d) + [DevicesTree(p)]))
  {
    Associative(BaseKids(b), MiddleKids(d), [DevicesTree(p)]);
  }

  lemma BaseReadBack(b: Base, d: DeviceLists, p: Parts)
    requires !b.system.OtherSystem?
    ensures ReadBase(Reparse(DomainTree(b, d, p), 0)) == BaseRead(b)
  {
    var a0 := NO_BASE.(typestr := Some(TypeText(b.system)));
    RestIgnored(d, p);
    BaseStable(b);
    RootReparse(a0, Prop("type", TypeText(b.system)), BaseKids(b), MiddleKids(d) + [DevicesTree(p)]);
    SplitRoot(b, d, p);
    BaseKidsReadBack(b);
    var doc := Reparse(DomainTree(b, d, p), 0);
    assert doc.Element? && doc.attrs == Prop("type", TypeText(b.system));
  }

  lemma BaseIgnoresText()
    ensures IgnoresText(BaseStep)
  {
    assert "text"[0] == 't' && "name"[0] == 'n' && "uuid"[0] == 'u';
    forall b, t: string ensures BaseStep(b, Text(t)) == Some(b) {
      assert Name(Text(t)) == "text";
    }
  }

  // ----- selecting the devices

  lemma NoTextConcat(a: seq<Tree>, b: seq<Tree>)
    requires !HasText(a) && !HasText(b)
    ensures !HasText(a + b)
  {
  }

  lemma NamedNoText(kids: seq<Tree>, names: set<string>)
    requires Named(kids, names)
    ensures !HasText(kids)
  {
    assert forall i :: 0 <= i < |kids| ==> kids[i] in kids;
  }

  lemma NamedConcat(a: seq<Tree>, b: seq<Tree>, names: set<string>)
    ensures Named(a + b, names) <==> Named(a, names) && Named(b, names)
  {
    assert forall k :: k in a || k in b <==> k in a + b;
  }

  const TOP_NAMES := {"name", "bootloader", "bootloader_args", "on_poweroff", "on_crash", "uuid", "clock",
               "os", "features"}

  lemma NameNamed(b: Base)
    ensures Named(NameKids(b), TOP_NAMES)
  {
    var name, loader := [TextLeaf("name", b.name)], OptText("bootloader", b.bootloader);
    NamedConcat(name, loader, TOP_NAMES);
    NamedConcat(name + loader, OptText("bootloader_args", b.bootloaderArgs), TOP_NAMES);
  }

  lemma UuidNamed(b: Base)
    ensures Named(ActionKids(b), TOP_NAMES) && Named(UuidKids(b), TOP_NAMES)
  {
    NamedConcat([TextLeaf("uuid", b.uuid)], OptLeaf("clock", "offset", b.clock), TOP_NAMES);
  }

  lemma BaseNamed(b: Base)
    ensures Named(BaseKids(b), TOP_NAMES)
  {
    NameNamed(b);
    UuidNamed(b);
    assert Named([OsTree(b.system), FeatureTree(b.features)], TOP_NAMES);
    NamedConcat(NameKids(b), ActionKids(b), TOP_NAMES);
    NamedConcat(NameKids(b) + ActionKids(b), UuidKids(b), TOP_NAMES);
    NamedConcat(NameKids(b) + ActionKids(b) + UuidKids(b), [OsTree(b.system), FeatureTree(b.features)], TOP_NAMES);
  }

  lemma MiddleNamed(d: DeviceLists)
    ensures Named(P.MemKids(d.mems), {"memory", "currentMemory"})
    ensures Named(P.VcpuKids(d.vcpus), {"vcpu"}) && Named(P.CputuneKids(d.vcpus), {"cputune"})
  {
  }

  function Keep(part: seq<Tree>, name: string, names: set<string>): seq<Tree> {
    if name in names then part else []
  }

  /** A list of one name is kept or dropped whole. */
  lemma SelectOne(part: seq<Tree>, name: string, names: set<string>)
    requires Named(part, {name})
    ensures Select(part, names) == Keep(part, name, names)
  {
    if name in names {
      SelectEvery(part, names);
    } else {
      SelectNone(part, names);
    }
  }

  lemma SelectPair(part: seq<Tree>, name: string, other: string, names: set<string>)
    requires Named(part, {name, other}) && (name in names <==> other in names)
    ensures Select(part, names) == Keep(part, name, names)
  {
    if name in names {
      SelectEvery(part, names);
    } else {
      SelectNone(part, names);
    }
  }

  lemma SelectTop(head: seq<Tree>, mem: seq<Tree>, vcpu: seq<Tree>, tune: seq<Tree>,
                  last: seq<Tree>, names: set<string>)
    requires Named(head, TOP_NAMES) && Named(mem, {"memory", "currentMemory"}) && Named(vcpu, {"vcpu"})
    requires Named(tune, {"cputune"}) && Named(last, {"devices"})
    requires names !! TOP_NAMES && "cputune" !in names && ("memory" in names <==> "currentMemory" in names)
    ensures Select(head + (mem + vcpu + tune) + last, names)
            == Keep(mem, "memory", names) + Keep(vcpu, "vcpu", names) + Keep(last, "devices", names)
  {
    SelectConcatFive(head, mem, vcpu, tune, last, names);
    HeadDropped(head, names);
    SelectPair(mem, "memory", "currentMemory", names);
    SelectOne(vcpu, "vcpu", names);
    SelectOne(tune, "cputune", names);
    SelectOne(last, "devices", names);
    var m, v := Keep(mem, "memory", names), Keep(vcpu, "vcpu", names);
    assert [] + (m + v + []) == m + v;
  }

  lemma HeadDropped(head: seq<Tree>, names: set<string>)
    requires Named(head, TOP_NAMES) && names !! TOP_NAMES
    ensures Select(head, names) == []
  {
    forall k | k in head ensures k.Element? && k.name !in names {
      assert k.name in TOP_NAMES;
    }
    SelectNone(head, names);
  }

  /** The children of a printed root with the names that device parsing asks for. */
  lemma TopSelect(b: Base, d: DeviceLists, p: Parts, names: set<string>)
    requires names !! TOP_NAMES && "cputune" !in names && ("memory" in names <==> "currentMemory" in names)
    ensures Select(DomainTree(b, d, p).kids, names)
            == Keep(P.MemKids(d.mems), "memory", names) + Keep(P.VcpuKids(d.vcpus), "vcpu", names)
               + Keep([DevicesTree(p)], "devices", names)
  {
    BaseNamed(b);
    MiddleNamed(d);
    SelectTop(BaseKids(b), P.MemKids(d.mems), P.VcpuKids(d.vcpus), P.CputuneKids(d.vcpus), [DevicesTree(p)], names);
  }

  lemma IgnoredNoText(kids: seq<Tree>)
    requires forall k :: k in kids ==> Ignored(k)
    ensures !HasText(kids)
  {
    assert forall i :: 0 <= i < |kids| ==> kids[i] in kids;
  }

  lemma RootHasNoText(b: Base, d: DeviceLists, p: Parts)
    ensures !HasText(DomainTree(b, d, p).kids)
  {
    var rest := MiddleKids(d) + [DevicesTree(p)];
    BaseNamed(b);
    NamedNoText(BaseKids(b), TOP_NAMES);
    RestIgnored(d, p);
    IgnoredNoText(rest);
    NoTextConcat(BaseKids(b), rest);
    SplitRoot(b, d, p);
  }

  lemma TopNodesRead(b: Base, d: DeviceLists, p: Parts, names: set<string>)
    ensures TopNodes(Reparse(DomainTree(b, d, p), 0), names) == ReparseAll(Select(DomainTree(b, d, p).kids, names), 1)
  {
    RootHasNoText(b, d, p);
    TopNodesOf(DomainTree(b, d, p), names);
  }

  lemma MemSelected(b: Base, d: DeviceLists, p: Parts)
    ensures Select(DomainTree(b, d, p).kids, {"memory", "currentMemory"}) == P.MemKids(d.mems)
  {
    var names := {"memory", "currentMemory"};
    assert names !! TOP_NAMES && "cputune" !in names && "vcpu" !in names && "devices" !in names;
    TopSelect(b, d, p, names);
    var kids := P.MemKids(d.mems);
    assert kids + [] + [] == kids;
  }

  lemma MemNodesRead(b: Base, d: DeviceLists, p: Parts)
    ensures TopNodes(Reparse(DomainTree(b, d, p), 0), {"memory", "currentMemory"}) == ReparseAll(P.MemKids(d.mems), 1)
  {
    TopNodesRead(b, d, p, {"memory", "currentMemory"});
    MemSelected(b, d, p);
  }

  lemma VcpuSelected(b: Base, d: DeviceLists, p: Parts)
    ensures Select(DomainTree(b, d, p).kids, {"vcpu"}) == P.VcpuKids(d.vcpus)
  {
    var names := {"vcpu"};
    assert names !! TOP_NAMES && "cputune" !in names && "memory" !in names && "currentMemory" !in names
        && "devices" !in names;
    TopSelect(b, d, p, names);
    var kids := P.VcpuKids(d.vcpus);
    assert [] + kids + [] == kids;
  }

  lemma VcpuNodesRead(b: Base, d: DeviceLists, p: Parts)
    ensures TopNodes(Reparse(DomainTree(b, d, p), 0), {"vcpu"}) == ReparseAll(P.VcpuKids(d.vcpus), 1)
  {
    TopNodesRead(b, d, p, {"vcpu"});
    VcpuSelected(b, d, p);
  }

  /** The printed lists, each of its own kind of element. */
  predicate WellNamed(p: Parts) {
    && Named(p.disks, {"disk", "filesystem"}) && Named(p.nets, {"interface"}) && Named(p.inputs, {"input"})
    && Named(p.consoles, {"console"}) && Named(p.graphics, {"graphics"}) && Named(p.emus, {"emulator"})
    && Named(p.controllers, {"controller"}) && Named(p.extra, {"console"})
  }

  lemma {:induction false} GraphicsNamed(devs: seq<Dev<G.Graphics>>)
    ensures Named(G.GraphicsKids(devs), {"graphics"})
    decreases |devs|
  {
    if devs != [] {
      GraphicsNamed(devs[1..]);
    }
  }

  lemma PartsWellNamed(d: DeviceLists, s: System)
    requires CanPrint(d, s)
    ensures WellNamed(DeviceParts(d, s))
  {
    PrintAllNamed(d.disks, D.DiskElement, {"disk", "filesystem"});
    PrintAllNamed(d.nets, N.NetPrinter(Xen(s)), {"interface"});
    P.AllInputsPrinted(d.inputs);
    PrintAllNamed(d.inputs, P.InputElement, {"input"});
    C.AllPrinted(d.consoles);
    PrintAllNamed(d.consoles, C.ConsoleElement, {"console"});
    GraphicsNamed(d.graphics);
    PrintAllNamed(d.controllers, L.ControllerElement, {"controller"});
  }

  lemma DevicesHaveNoText(p: Parts)
    requires WellNamed(p)
    ensures !HasText(DeviceKids(p))
  {
    NamedNoText(p.disks, {"disk", "filesystem"});
    NamedNoText(p.nets, {"interface"});
    NamedNoText(p.inputs, {"input"});
    NamedNoText(p.consoles, {"console"});
    NamedNoText(p.graphics, {"graphics"});
    NamedNoText(p.emus, {"emulator"});
    NamedNoText(p.controllers, {"controller"});
    NamedNoText(p.extra, {"console"});
  }

  /** One selection over all device lists, list by list. */
  lemma SelectConcatAll(p: Parts, names: set<string>)
    ensures Select(DeviceKids(p), names)
            == (Select(p.disks, names) + Select(p.nets, names) + Select(p.inputs, names))
               + (Select(p.consoles, names) + Select(p.graphics, names))
               + (Select(p.emus, names) + Select(p.controllers, names) + Select(p.extra, names))
  {
    SelectConcat((p.disks + p.nets + p.inputs) + (p.consoles + p.graphics), p.emus + p.controllers + p.extra, names);
    SelectConcat(p.disks + p.nets + p.inputs, p.consoles + p.graphics, names);
    SelectConcat(p.disks + p.nets, p.inputs, names);
    SelectConcat(p.disks, p.nets, names);
    SelectConcat(p.consoles, p.graphics, names);
    SelectConcat(p.emus + p.controllers, p.extra, names);
    SelectConcat(p.emus, p.controllers, names);
  }

  lemma SelectDevices(p: Parts, names: set<string>)
    requires WellNamed(p) && ("disk" in names <==> "filesystem" in names)
    ensures Select(DeviceKids(p), names)
            == (Keep(p.disks, "disk", names) + Keep(p.nets, "interface", names) + Keep(p.inputs, "input", names))
               + (Keep(p.consoles, "console", names) + Keep(p.graphics, "graphics", names))
               + (Keep(p.emus, "emulator", names) + Keep(p.controllers, "controller", names)
                  + Keep(p.extra, "console", names))
  {
    SelectConcatAll(p, names);
    SelectPair(p.disks, "disk", "filesystem", names);
    SelectOne(p.nets, "interface", names);
    SelectOne(p.inputs, "input", names);
    SelectOne(p.consoles, "console", names);
    SelectOne(p.graphics, "graphics", names);
    SelectOne(p.emus, "emulator", names);
    SelectOne(p.controllers, "controller", names);
    SelectOne(p.extra, "console", names);
  }

  lemma SelectDisks(p: Parts)
    requires WellNamed(p)
    ensures Select(DeviceKids(p), {"disk", "filesystem"}) == p.disks
  {
    SelectDevices(p, {"disk", "filesystem"});
    assert (p.disks + [] + []) + ([] + []) + ([] + [] + []) == p.disks;
  }

  lemma SelectNets(p: Parts)
    requires WellNamed(p)
    ensures Select(DeviceKids(p), {"interface"}) == p.nets
  {
    SelectDevices(p, {"interface"});
    assert ([] + p.nets + []) + ([] + []) + ([] + [] + []) == p.nets;
  }

  lemma SelectInputs(p: Parts)
    requires WellNamed(p)
    ensures Select(DeviceKids(p), {"input"}) == p.inputs
  {
    SelectDevices(p, {"input"});
    assert ([] + [] + p.inputs) + ([] + []) + ([] + [] + []) == p.inputs;
  }

  lemma SelectEmus(p: Parts)
    requires WellNamed(p)
    ensures Select(DeviceKids(p), {"emulator"}) == p.emus
  {
    SelectDevices(p, {"emulator"});
    assert ([] + [] + []) + ([] + []) + (p.emus + [] + []) == p.emus;
  }

  lemma SelectControllers(p: Parts)
    requires WellNamed(p)
    ensures Select(DeviceKids(p), {"controller"}) == p.controllers
  {
    SelectDevices(p, {"controller"});
    assert ([] + [] + []) + ([] + []) + ([] + p.controllers + []) == p.controllers;
  }

  lemma SelectConsoles(p: Parts)
    requires WellNamed(p)
    ensures Select(DeviceKids(p), {"console"}) == p.consoles + p.extra
  {
    SelectDevices(p, {"console"});
    assert ([] + [] + []) + (p.consoles + []) + ([] + [] + p.extra) == p.consoles + p.extra;
  }

  lemma SelectGraphics(p: Parts)
    requires WellNamed(p)
    ensures Select(DeviceKids(p), {"graphics", "console"}) == p.consoles + p.graphics + p.extra
  {
    SelectDevices(p, {"graphics", "console"});
    assert ([] + [] + []) + (p.consoles + p.graphics) + ([] + [] + p.extra) == p.consoles + p.graphics + p.extra;
  }

  lemma DevicesSelected(b: Base, d: DeviceLists, p: Parts)
    ensures Select(DomainTree(b, d, p).kids, {"devices"}) == [DevicesTree(p)]
  {
    var names := {"devices"};
    assert names !! TOP_NAMES && "cputune" !in names && "vcpu" !in names && "memory" !in names
        && "currentMemory" !in names;
    TopSelect(b, d, p, names);
    assert [] + [] + [DevicesTree(p)] == [DevicesTree(p)];
  }

  lemma DevicesChildRead(b: Base, d: DeviceLists, p: Parts)
    ensures TopNodes(Reparse(DomainTree(b, d, p), 0), {"devices"}) == [Reparse(DevicesTree(p), 1)]
  {
    var x := DevicesTree(p);
    TopNodesRead(b, d, p, {"devices"});
    DevicesSelected(b, d, p);
    assert ReparseAll([x], 1) == [Reparse(x, 1)] + ReparseAll([x][1..], 1);
  }

  /** Selecting devices by name below a saved root finds the saved forms of the
      printed elements with those names. */
  lemma DeviceNodesRead(b: Base, d: DeviceLists, p: Parts, names: set<string>)
    requires WellNamed(p)
    ensures DeviceNodes(Reparse(DomainTree(b, d, p), 0), names) == ReparseAll(Select(DeviceKids(p), names), 2)
  {
    DevicesChildRead(b, d, p);
    KidsOfOne(Reparse(DevicesTree(p), 1), names);
    DevicesHaveNoText(p);
    SelectReparse(DevicesTree(p), 1, names);
  }
}
