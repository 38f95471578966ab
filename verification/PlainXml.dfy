/** The devices without options of their own: input devices, the emulator,
    virtual processors and memory (libxkutil/xmlgen.c, libxkutil/device_parsing.c). */
module PlainXml {
  import opened Prelude
  import opened Decimal
  import opened Xml
  import opened Devices

  // ----- input devices

  datatype Input = Input(kind: Option<string>, bus: Option<string>)

  function InputElement(d: Input): Option<Tree> {
    Some(Leaf("input", Prop("type", TextOf(d.kind)) + Prop("bus", TextOf(d.bus))))
  }

  function InputId(d: Input): Option<string> {
    Some(TextOf(d.kind) + ":" + TextOf(d.bus))
  }

  /** parse_input_device */
  function InputDevice(x: Tree): Option<Dev<Input>> {
    var d := Input(GetAttr(x, "type"), GetAttr(x, "bus"));
    if d.kind.None? || d.bus.None? then None else Some(Dev(RES_INPUT, d, InputId(d)))
  }

  lemma {:induction false} AllInputsPrinted(devs: seq<Dev<Input>>)
    ensures PrintAll(devs, InputElement).Some?
    decreases |devs|
  {
    if devs != [] {
      AllInputsPrinted(devs[1..]);
    }
  }

  /** input_xml */
  method InputsXml(root: Builder, devs: seq<Dev<Input>>)
    modifies root`kids
    ensures PrintAll(devs, InputElement).Some?
    ensures root.kids == old(root.kids) + PrintAll(devs, InputElement).value
  {
    AllInputsPrinted(devs);
    for i := 0 to |devs|
      invariant Printing(PrintAll(devs, InputElement), PrintAll(devs[i..], InputElement), old(root.kids), root.kids)
    {
      PrintNext(devs, i, InputElement, old(root.kids), root.kids);
      if devs[i].resType == RES_UNKNOWN {
        continue;
      }
      var tmp := new Builder("input");
      tmp.NewProp("type", devs[i].dev.kind);
      tmp.NewProp("bus", devs[i].dev.bus);
      assert tmp.attrs == InputElement(devs[i].dev).value.attrs;
      root.AddChild(tmp.Built());
    }
  }

  lemma InputRoundTrip(dev: Dev<Input>, depth: nat)
    ensures InputDevice(Reparse(InputElement(dev.dev).value, depth)) == Some(dev)
            <==> dev.dev.kind.Some? && dev.dev.bus.Some? && dev.resType == RES_INPUT && dev.id == InputId(dev.dev)
  {
    LookupGroups(Prop("type", TextOf(dev.dev.kind)), Prop("bus", TextOf(dev.dev.bus)), [], []);
  }

  lemma InputWellFormed(d: Input)
    ensures WellFormed(InputElement(d).value)
  {
    DistinctGroups(Prop("type", TextOf(d.kind)), Prop("bus", TextOf(d.bus)), [], []);
  }

  // ----- the emulator

  datatype Emu = Emu(path: Option<string>)

  /** emu_xml prints the first emulator there is. */
  function EmuKids(devs: seq<Dev<Emu>>): seq<Tree> {
    if devs == [] then [] else [TextLeaf("emulator", devs[0].dev.path)]
  }

  /** parse_emu_device */
  function EmuDevice(x: Tree): Option<Dev<Emu>> {
    Some(Dev(RES_EMU, Emu(Some(Content(x))), None))
  }

  /** The emulator comes back alone, with its path, and exactly when there was no
      more than one and it had a path. */
  lemma EmuRoundTrip(devs: seq<Dev<Emu>>, depth: nat)
    ensures ParseAll(ReparseAll(EmuKids(devs), depth), EmuDevice) == devs
            <==> devs == [] || (|devs| == 1 && devs[0].resType == RES_EMU && devs[0].id.None? && devs[0].dev.path.Some?)
  {
    if devs != [] {
      var x := TextLeaf("emulator", devs[0].dev.path);
      TextLeafSettled("emulator", devs[0].dev.path);
      assert [x][1..] == [];
      assert ReparseAll([x], depth) == [x];
      var d := Dev(RES_EMU, Emu(Some(TextOf(devs[0].dev.path))), None);
      assert EmuDevice(x) == Some(d);
      assert ParseAll([x], EmuDevice) == [d];
      assert [d] == devs ==> devs[0] == d;
      if |devs| == 1 && devs[0] == d {
        assert devs == [d];
      }
    }
  }

  // ----- virtual processors

  datatype Vcpu = Vcpu(quantity: Word64, weight: nat, limit: Word64)

  /** vcpu_xml and cputune_xml: what is printed of the first entry. */
  function VcpuKids(devs: seq<Dev<Vcpu>>): seq<Tree> {
    if devs == [] then [] else [TextLeaf("vcpu", Some(Digits(devs[0].dev.quantity)))]
  }

  /** The weight is a uint32_t printed as an int. */
  function WeightText(weight: nat): string {
    var n := ToInt32(weight);
    if n < 0 then "-" + Digits(-n) else Digits(n)
  }

  function CputuneKids(devs: seq<Dev<Vcpu>>): seq<Tree> {
    if devs == [] then []
    else [Element("cputune", [], [TextLeaf("shares", Some(WeightText(devs[0].dev.weight)))])]
  }

  /** parse_vcpu_device: an int, one when unreadable, widened to 64 bits. */
  function VcpuDevice(x: Tree): Option<Dev<Vcpu>> {
    var count := ScanInt(Content(x), true).GetOr(1);
    Some(Dev(RES_PROC, Vcpu(count % U64, 0, 0), Some("proc")))
  }

  /** vcpu_xml and cputune_xml */
  method VcpuXml(root: Builder, devs: seq<Dev<Vcpu>>)
    modifies root`kids
    ensures root.kids == old(root.kids) + VcpuKids(devs)
  {
    if devs == [] {
      assert root.kids == root.kids + [];
      return;
    }
    root.AddChild(TextLeaf("vcpu", Some(Digits(devs[0].dev.quantity))));
  }

  method CputuneXml(root: Builder, devs: seq<Dev<Vcpu>>)
    modifies root`kids
    ensures root.kids == old(root.kids) + CputuneKids(devs)
  {
    if devs == [] {
      assert root.kids == root.kids + [];
      return;
    }
    var cputune := new Builder("cputune");
    cputune.AddChild(TextLeaf("shares", Some(WeightText(devs[0].dev.weight))));
    assert cputune.kids == CputuneKids(devs)[0].kids;
    root.AddChild(cputune.Built());
  }

  lemma CountReadBack(q: Word64)
    ensures ToInt32(if q >= I64 then I64 - 1 else q) % U64 == q <==> q < I32 || q == U64 - 1
  {
    var n := if q >= I64 then I64 - 1 else q;
    var count := ToInt32(n);
    if q >= I64 {
      assert (I64 - 1 + I32) % U32 == I32 - 1;
      assert count == -1 && count % U64 == U64 - 1;
    } else if count < 0 {
      assert count % U64 == count + U64;
    } else {
      assert count % U64 == count;
    }
  }

  /** Processor counts below 2^31 come back, and beyond them only the largest
      64-bit number does, which is read as minus one. */
  lemma VcpuRoundTrip(dev: Dev<Vcpu>, depth: nat)
    ensures VcpuDevice(Reparse(VcpuKids([dev])[0], depth)) == Some(dev)
            <==> && (dev.dev.quantity < I32 || dev.dev.quantity == U64 - 1)
                 && dev.dev.weight == 0 && dev.dev.limit == 0
                 && dev.resType == RES_PROC && dev.id == Some("proc")
  {
    TextLeafSettled("vcpu", Some(Digits(dev.dev.quantity)));
    PrintScanInt(dev.dev.quantity);
    CountReadBack(dev.dev.quantity);
  }

  predicate VcpuKept(x: Dev<Vcpu>) {
    && (x.dev.quantity < I32 || x.dev.quantity == U64 - 1)
    && x.dev.weight == 0 && x.dev.limit == 0 && x.resType == RES_PROC && x.id == Some("proc")
  }

  lemma VcpuListRoundTrip(devs: seq<Dev<Vcpu>>, depth: nat)
    ensures ParseAll(ReparseAll(VcpuKids(devs), depth), VcpuDevice) == devs
            <==> devs == [] || (|devs| == 1 && VcpuKept(devs[0]))
  {
    if devs != [] {
      var x := VcpuKids([devs[0]])[0];
      VcpuRoundTrip(devs[0], depth);
      assert VcpuKids(devs) == [x];
      assert ReparseAll([x], depth) == [Reparse(x, depth)] + ReparseAll([x][1..], depth);
      var read := VcpuDevice(Reparse(x, depth)).value;
      ParseAllExact([Reparse(x, depth)], VcpuDevice, [read]);
      assert [read] == devs ==> devs[0] == read;
      if |devs| == 1 && devs[0] == read {
        assert devs == [read];
      }
    }
  }

  // ----- memory

  datatype DumpCore = DumpCoreNotSet | DumpCoreOn | DumpCoreOff

  datatype Mem = Mem(size: Word64, maxsize: Word64, dumpCore: DumpCore)

  function DumpCoreText(d: DumpCore): Option<string> {
    match d
    case DumpCoreOn => Some("on")
    case DumpCoreOff => Some("off")
    case DumpCoreNotSet => None
  }

  /** mem_xml */
  function MemKids(devs: seq<Dev<Mem>>): seq<Tree> {
    if devs == [] then []
    else
      var m := devs[0].dev;
      [TextLeaf("currentMemory", Some(Digits(m.size))),
       Element("memory", OptAttr("dumpCore", DumpCoreText(m.dumpCore)), [Text(Digits(m.maxsize))])]
  }

  function DumpCoreOf(v: Option<string>): DumpCore {
    if v.Some? && EqNoCase(v.value, "on") then DumpCoreOn
    else if v.Some? && EqNoCase(v.value, "off") then DumpCoreOff
    else DumpCoreNotSet
  }

  /** parse_mem_device: half a memory device per element. */
  function MemDevice(x: Tree): Option<Mem> {
    var n := ScanU64(Content(x)).GetOr(0);
    if Name(x) == "currentMemory" then Some(Mem(n, 0, DumpCoreNotSet))
    else if Name(x) == "memory" then Some(Mem(0, n, DumpCoreOf(GetAttr(x, "dumpCore"))))
    else Some(Mem(0, 0, DumpCoreNotSet))
  }

  function Larger(a: Word64, b: Word64): Word64 {
    if a > b then a else b
  }

  /** _get_mem_device: the halves made one.  Anything but two elements counts the
      first one only. */
  function Coalesced(halves: seq<Mem>): seq<Dev<Mem>> {
    if halves == [] then []
    else
      var a := halves[0];
      var m := if |halves| == 2 then
                 Mem(Larger(a.size, halves[1].size), Larger(a.maxsize, halves[1].maxsize),
                     if a.dumpCore != DumpCoreNotSet then a.dumpCore else halves[1].dumpCore)
               else Mem(Larger(a.size, a.maxsize), Larger(a.size, a.maxsize), a.dumpCore);
      [Dev(RES_MEM, m, Some("mem"))]
  }

  method MemXml(root: Builder, devs: seq<Dev<Mem>>)
    modifies root`kids
    ensures root.kids == old(root.kids) + MemKids(devs)
  {
    if devs == [] {
      assert root.kids == root.kids + [];
      return;
    }
    var m := devs[0].dev;
    root.AddChild(TextLeaf("currentMemory", Some(Digits(m.size))));
    var tmp := new Builder("memory");
    tmp.AddChild(Text(Digits(m.maxsize)));
    if m.dumpCore == DumpCoreOn {
      tmp.NewProp("dumpCore", Some("on"));
    } else if m.dumpCore == DumpCoreOff {
      tmp.NewProp("dumpCore", Some("off"));
    }
    assert tmp.Built() == MemKids(devs)[1] by {
      assert tmp.kids == [Text(Digits(m.maxsize))] && tmp.attrs == OptAttr("dumpCore", DumpCoreText(m.dumpCore));
    }
    root.AddChild(tmp.Built());
  }

  method GetMemDevice(nodes: seq<Tree>) returns (list: seq<Dev<Mem>>)
    ensures list == Coalesced(ParseAll(nodes, MemDevice))
  {
    var mdevs := DoParse(nodes, MemDevice);
    if |mdevs| == 0 {
      return [];
    }
    var mem: Mem;
    if |mdevs| == 2 {
      mem := Mem(Larger(mdevs[0].size, mdevs[1].size), Larger(mdevs[0].maxsize, mdevs[1].maxsize), DumpCoreNotSet);
      if mdevs[0].dumpCore != DumpCoreNotSet {
        mem := mem.(dumpCore := mdevs[0].dumpCore);
      } else if mdevs[1].dumpCore != DumpCoreNotSet {
        mem := mem.(dumpCore := mdevs[1].dumpCore);
      }
    } else {
      mem := Mem(Larger(mdevs[0].size, mdevs[0].maxsize), 0, mdevs[0].dumpCore);
      mem := mem.(maxsize := mem.size);
    }
    return [Dev(RES_MEM, mem, Some("mem"))];
  }

  lemma MemReparse(devs: seq<Dev<Mem>>, depth: nat)
    ensures ReparseAll(MemKids(devs), depth) == MemKids(devs)
  {
    if devs != [] {
      var xs := MemKids(devs);
      assert HasText(xs[0].kids) by { assert xs[0].kids[0].Text?; }
      assert HasText(xs[1].kids) by { assert xs[1].kids[0].Text?; }
      assert forall i :: 0 <= i < 2 ==> Reparse(xs[i], depth) == xs[i];
    }
  }

  lemma DumpCoreReadBack(d: DumpCore)
    ensures DumpCoreOf(DumpCoreText(d)) == d
  {
    assert Lower("on") == "on" && Lower("off") == "off";
  }

  /** Memory of any two 64-bit sizes and any dump setting is put together again
      from the two elements it is printed as. */
  lemma MemRoundTrip(devs: seq<Dev<Mem>>, depth: nat)
    ensures Coalesced(ParseAll(ReparseAll(MemKids(devs), depth), MemDevice))
            == if devs == [] then [] else [Dev(RES_MEM, devs[0].dev, Some("mem"))]
  {
    MemReparse(devs, depth);
    if devs != [] {
      var m, xs := devs[0].dev, MemKids(devs);
      var second := TextLeaf("memory", Some(Digits(m.maxsize)));
      assert Content(xs[1]) == Content(second);
      PrintScan(m.size);
      PrintScan(m.maxsize);
      DumpCoreReadBack(m.dumpCore);
      var a, b := Mem(m.size, 0, DumpCoreNotSet), Mem(0, m.maxsize, m.dumpCore);
      assert MemDevice(xs[0]) == Some(a) && MemDevice(xs[1]) == Some(b);
      ParseAllExact(xs, MemDevice, [a, b]);
    }
  }
}
