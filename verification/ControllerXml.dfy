/** Controllers: controller_xml of libxkutil/xmlgen.c against
    parse_controller_device of libxkutil/device_parsing.c. */
module ControllerXml {
  import opened Prelude
  import opened Decimal
  import opened Xml
  import opened Devices

  /** The protocol types that have a libvirt name; anything else is one of the many others. */
  datatype Protocol = Ide | Fdc | Scsi | Sata | Ccid | VirtioSerial | Pci | Usb | OtherProtocol

  datatype Controller = Controller(
    protocol: Protocol,
    index: Word64,
    model: Option<string>,
    ports: Option<string>,
    vectors: Option<string>,
    queues: Option<string>,
    address: seq<Attr>)

  /** (uint64_t) -1 */
  const INDEX_NOT_SET: Word64 := 0xFFFF_FFFF_FFFF_FFFF

  /** controller_protocol_type_IDToStr */
  function ProtocolName(p: Protocol): Option<string> {
    match p
    case Ide => Some("ide")
    case Fdc => Some("fdc")
    case Scsi => Some("scsi")
    case Sata => Some("sata")
    case Ccid => Some("ccid")
    case VirtioSerial => Some("virtio-serial")
    case Pci => Some("pci")
    case Usb => Some("usb")
    case OtherProtocol => None
  }

  function Named(name: string): Protocol {
    if name == "ide" then Ide
    else if name == "fdc" then Fdc
    else if name == "scsi" then Scsi
    else if name == "sata" then Sata
    else if name == "ccid" then Ccid
    else if name == "virtio-serial" then VirtioSerial
    else if name == "pci" then Pci
    else if name == "usb" then Usb
    else OtherProtocol
  }

  /** controller_protocol_type_StrToID ignores case. */
  function ProtocolOf(typeName: string): Protocol {
    Named(Lower(typeName))
  }

  // ----- what is printed

  function IndexText(index: Word64): Option<string> {
    if index == INDEX_NOT_SET then None else Some(Digits(index))
  }

  function ControllerAttrs(name: string, c: Controller): seq<Attr> {
    Prop("type", name) + OptAttr("index", IndexText(c.index)) + OptAttr("model", c.model)
    + OptAttr("ports", c.ports) + OptAttr("vectors", c.vectors)
  }

  /** The driver attribute is misspelt as the source has it. */
  function ControllerKids(c: Controller): seq<Tree> {
    OptLeaf("driver", "queueus", c.queues) + AddressKids(c.address)
  }

  function ControllerElement(c: Controller): Option<Tree> {
    match ProtocolName(c.protocol)
    case None => None
    case Some(name) => Some(Element("controller", ControllerAttrs(name, c), ControllerKids(c)))
  }

  // ----- what is read

  function ControllerStep(c: Controller, kid: Tree): Option<Controller> {
    if Name(kid) == "address" then Some(c.(address := c.address + AddressOf(kid)))
    else if Name(kid) == "driver" then Some(c.(queues := GetAttr(kid, "queues")))
    else Some(c)
  }

  function ControllerId(name: string, index: Word64): Option<string> {
    Some("controller:" + name + ":" + Digits(index))
  }

  /** The attributes; an unreadable index leaves the zero of a fresh struct. */
  function ControllerStart(x: Tree, typeName: string, index: string): Controller {
    Controller(ProtocolOf(typeName), ScanU64(index).GetOr(0),
               GetAttr(x, "model"), GetAttr(x, "ports"), GetAttr(x, "vectors"), None, [])
  }

  /** parse_controller_device */
  function ControllerDevice(x: Tree): Option<Dev<Controller>> {
    if x.Text? || GetAttr(x, "type").None? || ProtocolOf(GetAttr(x, "type").value).OtherProtocol? then None
    else if GetAttr(x, "index").None? then None
    else
      var name := GetAttr(x, "type").value;
      match Fold(ControllerStep, ControllerStart(x, name, GetAttr(x, "index").value), x.kids)
      case None => None
      case Some(c) => Some(Dev(RES_CONTROLLER, c, ControllerId(name, c.index)))
  }

  // ----- the printing code

  method OneControllerXml(root: Builder, c: Controller) returns (ok: bool)
    modifies root`kids
    ensures ok == ControllerElement(c).Some?
    ensures ok ==> root.kids == old(root.kids) + [ControllerElement(c).value]
  {
    var ctlr := new Builder("controller");
    var typeStr := ProtocolName(c.protocol);
    if typeStr.None? {
      return false;
    }
    ctlr.NewProp("type", typeStr);
    if c.index != INDEX_NOT_SET {
      ctlr.NewProp("index", Some(Digits(c.index)));
    }
    assert ctlr.attrs == Prop("type", typeStr.value) + OptAttr("index", IndexText(c.index));
    ctlr.NewOptProp("model", c.model);
    ctlr.NewOptProp("ports", c.ports);
    ctlr.NewOptProp("vectors", c.vectors);
    assert ctlr.attrs == ControllerAttrs(typeStr.value, c);
    AddOptLeaf(ctlr, "driver", "queueus", c.queues);
    assert ctlr.kids == OptLeaf("driver", "queueus", c.queues);
    DeviceAddressXml(ctlr, c.address);
    root.AddChild(ctlr.Built());
    return true;
  }

  /** controller_xml; false is an error message. */
  method ControllersXml(root: Builder, devs: seq<Dev<Controller>>) returns (ok: bool)
    modifies root`kids
    ensures ok == PrintAll(devs, ControllerElement).Some?
    ensures ok ==> root.kids == old(root.kids) + PrintAll(devs, ControllerElement).value
  {
    for i := 0 to |devs|
      invariant Printing(PrintAll(devs, ControllerElement), PrintAll(devs[i..], ControllerElement),
                   old(root.kids), root.kids)
    {
      PrintNext(devs, i, ControllerElement, old(root.kids), root.kids);
      if devs[i].resType == RES_UNKNOWN {
        continue;
      }
      ok := OneControllerXml(root, devs[i].dev);
      if !ok {
        return false;
      }
    }
    return true;
  }

  // ----- the parsing code

  method ParseControllerDevice(x: Tree) returns (r: Option<Dev<Controller>>)
    ensures r == ControllerDevice(x)
  {
    if x.Text? {
      return None;
    }
    var typeStr := GetAttr(x, "type");
    if typeStr.None? || ProtocolOf(typeStr.value).OtherProtocol? {
      return None;
    }
    var index := GetAttr(x, "index");
    if index.None? {
      return None;
    }
    var c := Controller(ProtocolOf(typeStr.value), ScanU64(index.value).GetOr(0),
                        GetAttr(x, "model"), GetAttr(x, "ports"), GetAttr(x, "vectors"), None, []);
    ghost var start := c;
    for i := 0 to |x.kids|
      invariant Fold(ControllerStep, start, x.kids) == Fold(ControllerStep, c, x.kids[i..])
    {
      var kid := x.kids[i];
      assert x.kids[i..][1..] == x.kids[i + 1..];
      if Name(kid) == "address" {
        var address := ParseDeviceAddress(kid, c.address);
        c := c.(address := address);
      } else if Name(kid) == "driver" {
        c := c.(queues := GetAttr(kid, "queues"));
      }
    }
    return Some(Dev(RES_CONTROLLER, c, ControllerId(typeStr.value, c.index)));
  }

  // ----- what survives printing and parsing

  lemma NameReadBack(p: Protocol)
    requires !p.OtherProtocol?
    ensures ProtocolOf(ProtocolName(p).value) == p
  {
    var n := ProtocolName(p).value;
    assert Lower(n) == n;
  }

  lemma AttrRead(name: string, c: Controller, k: string)
    requires k == "type" || k == "index" || k == "model" || k == "ports" || k == "vectors"
    ensures Lookup(ControllerAttrs(name, c), k)
            == if k == "type" then Some(name) else if k == "index" then IndexText(c.index)
               else if k == "model" then c.model else if k == "ports" then c.ports else c.vectors
  {
    var front := Prop("type", name) + OptAttr("index", IndexText(c.index)) + OptAttr("model",
      c.model) + OptAttr("ports", c.ports);
    LookupGroups(Prop("type", name), OptAttr("index", IndexText(c.index)), OptAttr("model", c.model),
                 OptAttr("ports", c.ports));
    LookupConcat(front, OptAttr("vectors", c.vectors), k);
  }

  lemma DriverReadBack(acc: Controller, queues: Option<string>)
    requires acc.queues.None?
    ensures Fold(ControllerStep, acc, OptLeaf("driver", "queueus", queues)) == Some(acc)
  {
    if queues.Some? {
      FoldOne(ControllerStep, acc, Leaf("driver", Prop("queueus", queues.value)));
    }
  }

  lemma AddressReadBack(acc: Controller, a: seq<Attr>)
    requires acc.address == [] && DistinctKeys(a)
    ensures Fold(ControllerStep, acc, AddressKids(a)) == Some(acc.(address := a))
  {
    if a != [] {
      AddressRoundTrip(a);
      FoldOne(ControllerStep, acc, Leaf("address", a));
      assert [] + a == a;
    }
  }

  lemma KidsReadBack(acc: Controller, c: Controller)
    requires acc.address == [] && acc.queues.None? && DistinctKeys(c.address)
    ensures Fold(ControllerStep, acc, ControllerKids(c)) == Some(acc.(address := c.address))
  {
    FoldConcat(ControllerStep, acc, OptLeaf("driver", "queueus", c.queues), AddressKids(c.address));
    DriverReadBack(acc, c.queues);
    AddressReadBack(acc, c.address);
  }

  lemma ControllerLeaves(c: Controller)
    ensures AllLeaves(ControllerKids(c))
  {
  }

  /** Only the queues are lost, and an unset index makes the whole controller be rejected. */
  lemma ControllerReadBack(c: Controller, depth: nat)
    requires !c.protocol.OtherProtocol? && DistinctKeys(c.address)
    ensures ControllerDevice(Reparse(ControllerElement(c).value, depth))
            == if c.index == INDEX_NOT_SET then None
               else Some(Dev(RES_CONTROLLER, c.(queues := None), ControllerId(ProtocolName(c.protocol).value, c.index)))
  {
    var name, x := ProtocolName(c.protocol).value, ControllerElement(c).value;
    NameReadBack(c.protocol);
    AttrRead(name, c, "type");
    AttrRead(name, c, "index");
    AttrRead(name, c, "model");
    AttrRead(name, c, "ports");
    AttrRead(name, c, "vectors");
    if c.index != INDEX_NOT_SET {
      PrintScan(c.index);
      var start := ControllerStart(x, name, Digits(c.index));
      assert ControllerStart(Reparse(x, depth), name, Digits(c.index)) == start == c.(queues := None, address := []);
      ControllerLeaves(c);
      FoldReparse(ControllerStep, start, x, depth);
      KidsReadBack(start, c);
    }
  }

  /** A controller comes back as itself exactly when its index is set and it has no
      queues, which are written under one attribute name and read under another. */
  lemma ControllerRoundTrip(dev: Dev<Controller>, depth: nat)
    requires !dev.dev.protocol.OtherProtocol? && DistinctKeys(dev.dev.address)
    ensures ControllerDevice(Reparse(ControllerElement(dev.dev).value, depth)) == Some(dev)
            <==> dev.dev.index != INDEX_NOT_SET && dev.dev.queues.None? && dev.resType == RES_CONTROLLER
                 && dev.id == ControllerId(ProtocolName(dev.dev.protocol).value, dev.dev.index)
  {
    ControllerReadBack(dev.dev, depth);
  }

  function FrontAttrs(name: string, c: Controller): seq<Attr> {
    Prop("type", name) + OptAttr("index", IndexText(c.index)) + OptAttr("model", c.model) + OptAttr("ports", c.ports)
  }

  lemma FrontDistinct(name: string, c: Controller)
    ensures DistinctKeys(FrontAttrs(name, c))
    ensures forall x :: x in FrontAttrs(name, c) ==> x.key != "vectors"
  {
    DistinctGroups(Prop("type", name), OptAttr("index", IndexText(c.index)), OptAttr("model", c.model),
                   OptAttr("ports", c.ports));
  }

  lemma AttrsDistinct(name: string, c: Controller)
    ensures DistinctKeys(ControllerAttrs(name, c))
  {
    FrontDistinct(name, c);
    DistinctConcat(FrontAttrs(name, c), OptAttr("vectors", c.vectors));
  }

  lemma ControllerWellFormed(c: Controller)
    requires !c.protocol.OtherProtocol?
    ensures WellFormed(ControllerElement(c).value) <==> DistinctKeys(c.address)
  {
    AttrsDistinct(ProtocolName(c.protocol).value, c);
    AllWellFormedConcat(OptLeaf("driver", "queueus", c.queues), AddressKids(c.address));
    AddressWellFormed(c.address);
    assert WellFormed(ControllerElement(c).value) <==> AllWellFormed(ControllerKids(c));
  }
}
