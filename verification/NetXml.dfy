/** Network interfaces: net_xml of libxkutil/xmlgen.c against parse_net_device
    and parse_vsi_device of libxkutil/device_parsing.c. */
module NetXml {
  import opened Prelude
  import opened Decimal
  import opened Xml
  import opened Devices

  datatype Vsi = Vsi(
    vsiType: Option<string>,
    managerId: Option<string>,
    typeId: Option<string>,
    typeIdVersion: Option<string>,
    instanceId: Option<string>,
    filterRef: Option<string>,
    profileId: Option<string>)

  const NO_VSI := Vsi(None, None, None, None, None, None, None)

  datatype Net = Net(
    kind: string,
    mac: Option<string>,
    source: Option<string>,
    poolid: Option<string>,
    model: Option<string>,
    device: Option<string>,
    netMode: Option<string>,
    filterRef: Option<string>,
    reservation: Word64,
    limit: Word64,
    vsi: Vsi,
    address: seq<Attr>)

  function NoNet(kind: string): Net {
    Net(kind, None, None, None, None, None, None, None, 0, 0, NO_VSI, [])
  }

  // ----- what is printed

  function Inbound(d: Net): Tree {
    Leaf("inbound",
         OptAttr("average", if d.reservation != 0 then Some(Digits(d.reservation)) else None)
         + OptAttr("peak", if d.limit != 0 then Some(Digits(d.limit)) else None))
  }

  function Bandwidth(d: Net): seq<Tree> {
    if d.reservation == 0 && d.limit == 0 then [] else [Element("bandwidth", [], [Inbound(d)])]
  }

  function Parameters(v: Vsi): Tree {
    Leaf("parameters",
         if v.vsiType == Some("802.1Qbh") then OptAttr("profileid", v.profileId)
         else OptAttr("managerid", v.managerId) + OptAttr("typeid", v.typeId)
              + OptAttr("typeidversion", v.typeIdVersion) + OptAttr("instanceid", v.instanceId))
  }

  function VirtualPort(v: Vsi): seq<Tree> {
    if v.vsiType.None? then [] else [Element("virtualport", Prop("type", v.vsiType.value), [Parameters(v)])]
  }

  /** set_net_source for "network" and "bridge"; nothing without a source. */
  function NamedSource(key: string, source: Option<string>): seq<Tree> {
    OptLeaf("source", key, source)
  }

  function DirectSource(d: Net): seq<Tree> {
    if d.source.None? then [] else [Leaf("source", Prop("dev", d.source.value) + OptAttr("mode", d.netMode))]
  }

  function Script(xen: bool): seq<Tree> {
    if xen then [Leaf("script", Prop("path", "vif-bridge"))] else []
  }

  /** What the interface's type adds after its address. */
  function TypeKids(d: Net, xen: bool): seq<Tree> {
    if d.kind == "network" then NamedSource("network", d.source)
    else if d.kind == "bridge" then Script(xen) + NamedSource("bridge", d.source)
    else if d.kind == "direct" then DirectSource(d) + VirtualPort(d.vsi)
    else []
  }

  /** A missing source is an error, except that a virtual port's success
      overwrites the message; so is an unknown type. */
  predicate Prints(d: Net) {
    if d.kind == "network" || d.kind == "bridge" then d.source.Some?
    else if d.kind == "direct" then d.source.Some? || d.vsi.vsiType.Some?
    else d.kind == "user"
  }

  function HeadKids(d: Net): seq<Tree> {
    OptLeaf("mac", "address", d.mac) + OptLeaf("target", "dev", d.device)
    + OptLeaf("model", "type", d.model) + OptLeaf("filterref", "filter", d.filterRef)
  }

  function NetTree(d: Net, xen: bool): Tree {
    Element("interface", Prop("type", d.kind),
            HeadKids(d) + (Bandwidth(d) + AddressKids(d.address)) + TypeKids(d, xen))
  }

  function NetElement(d: Net, xen: bool): Option<Tree> {
    if Prints(d) then Some(NetTree(d, xen)) else None
  }

  function NetPrinter(xen: bool): Net -> Option<Tree> {
    d => NetElement(d, xen)
  }

  // ----- what is read

  function FirstNamed(kids: seq<Tree>, name: string): Option<Tree> {
    if kids == [] then None
    else if Name(kids[0]) == name then Some(kids[0])
    else FirstNamed(kids[1..], name)
  }

  /** An absent attribute is 0, an unreadable one leaves what was there. */
  function ScanInto(v: Option<string>, was: Word64): Word64 {
    if v.None? then 0
    else match ScanU64(v.value) case None => was case Some(n) => n
  }

  function ReadBandwidth(d: Net, x: Tree): Net {
    if x.Text? then d
    else
      match FirstNamed(x.kids, "inbound")
      case None => d
      case Some(inbound) =>
        d.(reservation := ScanInto(GetAttr(inbound, "average"), d.reservation),
           limit := ScanInto(GetAttr(inbound, "peak"), d.limit))
  }

  function VsiStep(v: Vsi, kid: Tree): Option<Vsi> {
    if Name(kid) != "parameters" then Some(v)
    else if GetAttr(kid, "managerid").None? || GetAttr(kid, "typeid").None? then None
    else if GetAttr(kid, "typeidversion").None? then None
    else Some(v.(managerId := GetAttr(kid, "managerid"), typeId := GetAttr(kid, "typeid"),
                 typeIdVersion := GetAttr(kid, "typeidversion"), instanceId := GetAttr(kid, "instanceid"),
                 profileId := GetAttr(kid, "profileid")))
  }

  /** parse_vsi_device; the caller ignores its failure and keeps what it had. */
  function ReadVsi(x: Tree): Option<Vsi> {
    if GetAttr(x, "type").None? then None
    else Fold(VsiStep, NO_VSI.(vsiType := GetAttr(x, "type")), x.kids)
  }

  function PoolOf(network: string): string {
    "NetworkPool/" + network
  }

  function SourceStep(d: Net, kid: Tree): Option<Net> {
    if GetAttr(kid, "bridge").Some? then Some(d.(source := GetAttr(kid, "bridge")))
    else if GetAttr(kid, "network").Some? then
      Some(d.(source := GetAttr(kid, "network"), poolid := Some(PoolOf(GetAttr(kid, "network").value))))
    else if GetAttr(kid, "dev").Some? && GetAttr(kid, "mode").Some? then
      Some(d.(source := GetAttr(kid, "dev"), netMode := GetAttr(kid, "mode")))
    else None
  }

  function NetStep(d: Net, kid: Tree): Option<Net> {
    if Name(kid) == "mac" then
      if GetAttr(kid, "address").None? then None else Some(d.(mac := GetAttr(kid, "address")))
    else if Name(kid) == "source" then SourceStep(d, kid)
    else if Name(kid) == "target" then
      if GetAttr(kid, "dev").None? then None else Some(d.(device := GetAttr(kid, "dev")))
    else if Name(kid) == "model" then
      if GetAttr(kid, "type").None? then None else Some(d.(model := GetAttr(kid, "type")))
    else if Name(kid) == "filterref" then Some(d.(filterRef := GetAttr(kid, "filter")))
    else if Name(kid) == "virtualport" then Some(d.(vsi := ReadVsi(kid).GetOr(d.vsi)))
    else if Name(kid) == "address" then Some(d.(address := d.address + AddressOf(kid)))
    else if Name(kid) == "bandwidth" then Some(ReadBandwidth(d, kid))
    else Some(d)
  }

  /** parse_net_device.  The id is a copy of the MAC address. */
  function NetDevice(x: Tree): Option<Dev<Net>> {
    if x.Text? || GetAttr(x, "type").None? then None
    else
      match Fold(NetStep, NoNet(GetAttr(x, "type").value), x.kids)
      case None => None
      case Some(d) => Some(Dev(RES_NET, d, d.mac))
  }

  // ----- the printing code

  method BandwidthXml(nic: Builder, d: Net)
    modifies nic`kids
    ensures nic.kids == old(nic.kids) + Bandwidth(d)
  {
    if d.reservation != 0 || d.limit != 0 {
      var bandwidth := new Builder("bandwidth");
      var tmp := new Builder("inbound");
      if d.reservation != 0 {
        tmp.NewProp("average", Some(Digits(d.reservation)));
      }
      if d.limit != 0 {
        tmp.NewProp("peak", Some(Digits(d.limit)));
      }
      assert tmp.attrs == Inbound(d).attrs;
      bandwidth.AddChild(tmp.Built());
      assert bandwidth.kids == [Inbound(d)];
      nic.AddChild(bandwidth.Built());
    }
  }

  method SetNetVsi(nic: Builder, v: Vsi)
    requires v.vsiType.Some?
    modifies nic`kids
    ensures nic.kids == old(nic.kids) + VirtualPort(v)
  {
    var port := new Builder("virtualport");
    port.NewProp("type", v.vsiType);
    var tmp := new Builder("parameters");
    if v.vsiType.value == "802.1Qbh" {
      tmp.NewOptProp("profileid", v.profileId);
    } else {
      tmp.NewOptProp("managerid", v.managerId);
      tmp.NewOptProp("typeid", v.typeId);
      tmp.NewOptProp("typeidversion", v.typeIdVersion);
      tmp.NewOptProp("instanceid", v.instanceId);
    }
    assert tmp.attrs == Parameters(v).attrs;
    port.AddChild(tmp.Built());
    assert port.kids == [Parameters(v)];
    assert port.attrs == Prop("type", v.vsiType.value);
    nic.AddChild(port.Built());
  }

  method SetNetSource(nic: Builder, d: Net, srcType: string) returns (ok: bool)
    requires srcType == "direct" || srcType == "network" || srcType == "bridge"
    modifies nic`kids
    ensures ok == d.source.Some?
    ensures nic.kids == old(nic.kids)
                        + if srcType == "direct" then DirectSource(d) else NamedSource(srcType, d.source)
  {
    if d.source.None? {
      assert nic.kids == nic.kids + [];
      return false;
    }
    if srcType == "direct" {
      var tmp := new Builder("source");
      tmp.NewProp("dev", d.source);
      tmp.NewOptProp("mode", d.netMode);
      assert tmp.attrs == Prop("dev", d.source.value) + OptAttr("mode", d.netMode);
      nic.AddChild(tmp.Built());
    } else {
      AddOptLeaf(nic, "source", srcType, d.source);
    }
    return true;
  }

  method BridgeNetToXml(nic: Builder, d: Net, xen: bool) returns (ok: bool)
    modifies nic`kids
    ensures ok == d.source.Some?
    ensures nic.kids == old(nic.kids) + (Script(xen) + NamedSource("bridge", d.source))
  {
    if xen {
      AddOptLeaf(nic, "script", "path", Some("vif-bridge"));
    }
    assert nic.kids == old(nic.kids) + Script(xen);
    ok := SetNetSource(nic, d, "bridge");
    assert nic.kids == old(nic.kids) + (Script(xen) + NamedSource("bridge", d.source));
  }

  /** The part that depends on the interface's type. */
  method TypeXml(nic: Builder, d: Net, xen: bool) returns (ok: bool)
    modifies nic`kids
    ensures ok == Prints(d)
    ensures nic.kids == old(nic.kids) + TypeKids(d, xen)
  {
    if d.kind == "network" {
      ok := SetNetSource(nic, d, "network");
    } else if d.kind == "bridge" {
      ok := BridgeNetToXml(nic, d, xen);
    } else if d.kind == "user" {
      ok := true;
    } else if d.kind == "direct" {
      ok := SetNetSource(nic, d, "direct");
      if d.vsi.vsiType.Some? {
        SetNetVsi(nic, d.vsi);
        ok := true;
      }
    } else {
      ok := false;
    }
  }

  method OneNetXml(root: Builder, d: Net, xen: bool) returns (ok: bool)
    modifies root`kids
    ensures ok == NetElement(d, xen).Some?
    ensures ok ==> root.kids == old(root.kids) + [NetElement(d, xen).value]
  {
    var nic := new Builder("interface");
    nic.NewProp("type", Some(d.kind));
    AddOptLeaf(nic, "mac", "address", d.mac);
    AddOptLeaf(nic, "target", "dev", d.device);
    AddOptLeaf(nic, "model", "type", d.model);
    AddOptLeaf(nic, "filterref", "filter", d.filterRef);
    assert nic.kids == HeadKids(d);
    BandwidthXml(nic, d);
    DeviceAddressXml(nic, d.address);
    assert nic.kids == HeadKids(d) + (Bandwidth(d) + AddressKids(d.address));
    ok := TypeXml(nic, d, xen);
    assert nic.attrs == Prop("type", d.kind);
    root.AddChild(nic.Built());
  }

  /** net_xml; false is an error message. */
  method NetsXml(root: Builder, devs: seq<Dev<Net>>, xen: bool) returns (ok: bool)
    modifies root`kids
    ensures ok == PrintAll(devs, NetPrinter(xen)).Some?
    ensures ok ==> root.kids == old(root.kids) + PrintAll(devs, NetPrinter(xen)).value
  {
    ghost var elem := NetPrinter(xen);
    ok := true;
    var i := 0;
    while i < |devs| && ok
      invariant 0 <= i <= |devs|
      invariant !ok ==> PrintAll(devs, elem).None?
      invariant ok ==> Printing(PrintAll(devs, elem), PrintAll(devs[i..], elem), old(root.kids), root.kids)
    {
      PrintNext(devs, i, elem, old(root.kids), root.kids);
      if devs[i].resType != RES_UNKNOWN {
        ok := OneNetXml(root, devs[i].dev, xen);
      }
      i := i + 1;
    }
  }

  // ----- the parsing code

  method ParseVsiDevice(x: Tree, was: Vsi) returns (v: Vsi)
    requires x.Element?
    ensures v == ReadVsi(x).GetOr(was)
  {
    v := NO_VSI.(vsiType := GetAttr(x, "type"));
    if v.vsiType.None? {
      return was;
    }
    for i := 0 to |x.kids|
      invariant ReadVsi(x) == Fold(VsiStep, v, x.kids[i..])
    {
      var kid := x.kids[i];
      assert x.kids[i..][1..] == x.kids[i + 1..];
      if Name(kid) == "parameters" {
        v := v.(managerId := GetAttr(kid, "managerid"));
        if v.managerId.None? {
          return was;
        }
        v := v.(typeId := GetAttr(kid, "typeid"));
        if v.typeId.None? {
          return was;
        }
        v := v.(typeIdVersion := GetAttr(kid, "typeidversion"));
        if v.typeIdVersion.None? {
          return was;
        }
        v := v.(instanceId := GetAttr(kid, "instanceid"), profileId := GetAttr(kid, "profileid"));
      }
    }
  }

  method ParseBandwidth(x: Tree, d: Net) returns (r: Net)
    requires x.Element?
    ensures r == ReadBandwidth(d, x)
  {
    r := d;
    for i := 0 to |x.kids|
      invariant r == d
      invariant FirstNamed(x.kids, "inbound") == FirstNamed(x.kids[i..], "inbound")
    {
      assert x.kids[i..][1..] == x.kids[i + 1..];
      if Name(x.kids[i]) == "inbound" {
        r := r.(reservation := ScanInto(GetAttr(x.kids[i], "average"), r.reservation),
                limit := ScanInto(GetAttr(x.kids[i], "peak"), r.limit));
        break;
      }
    }
  }

  method ParseSource(kid: Tree, d: Net) returns (r: Option<Net>)
    ensures r == SourceStep(d, kid)
  {
    var n := d.(source := GetAttr(kid, "bridge"));
    if n.source.Some? {
      return Some(n);
    }
    n := n.(source := GetAttr(kid, "network"));
    if n.source.Some? {
      return Some(n.(poolid := Some(PoolOf(n.source.value))));
    }
    n := n.(source := GetAttr(kid, "dev"), netMode := GetAttr(kid, "mode"));
    if n.source.Some? && n.netMode.Some? {
      return Some(n);
    }
    return None;
  }

  /** One turn of parse_net_device's loop. */
  method ParseNetChild(kid: Tree, d: Net) returns (r: Option<Net>)
    ensures r == NetStep(d, kid)
  {
    var n := d;
    if Name(kid) == "mac" {
      n := n.(mac := GetAttr(kid, "address"));
      if n.mac.None? {
        return None;
      }
    } else if Name(kid) == "source" {
      r := ParseSource(kid, n);
      return;
    } else if Name(kid) == "target" {
      n := n.(device := GetAttr(kid, "dev"));
      if n.device.None? {
        return None;
      }
    } else if Name(kid) == "model" {
      n := n.(model := GetAttr(kid, "type"));
      if n.model.None? {
        return None;
      }
    } else if Name(kid) == "filterref" {
      n := n.(filterRef := GetAttr(kid, "filter"));
    } else if Name(kid) == "virtualport" {
      var v := ParseVsiDevice(kid, n.vsi);
      n := n.(vsi := v);
    } else if Name(kid) == "address" {
      var a := ParseDeviceAddress(kid, n.address);
      n := n.(address := a);
    } else if Name(kid) == "bandwidth" {
      n := ParseBandwidth(kid, n);
    }
    return Some(n);
  }

  method ParseNetDevice(x: Tree) returns (r: Option<Dev<Net>>)
    ensures r == NetDevice(x)
  {
    if x.Text? || GetAttr(x, "type").None? {
      return None;
    }
    var d := NoNet(GetAttr(x, "type").value);
    ghost var d0 := d;
    for i := 0 to |x.kids|
      invariant Fold(NetStep, d0, x.kids) == Fold(NetStep, d, x.kids[i..])
    {
      assert x.kids[i..][1..] == x.kids[i + 1..];
      var next := ParseNetChild(x.kids[i], d);
      if next.None? {
        return None;
      }
      d := next.value;
    }
    return Some(Dev(RES_NET, d, d.mac));
  }

  // ----- what survives printing and parsing

  lemma OptLeafReadBack(acc: Net, name: string, key: string, v: Option<string>)
    ensures Fold(NetStep, acc, OptLeaf(name, key, v))
            == if v.None? then Some(acc) else NetStep(acc, Leaf(name, Prop(key, v.value)))
  {
    if v.Some? {
      FoldOne(NetStep, acc, Leaf(name, Prop(key, v.value)));
    }
  }

  lemma HeadReadBack(d: Net)
    ensures Fold(NetStep, NoNet(d.kind), HeadKids(d))
            == Some(NoNet(d.kind).(mac := d.mac, device := d.device, model := d.model, filterRef := d.filterRef))
  {
    var a0 := NoNet(d.kind);
    var a1 := a0.(mac := d.mac);
    var a2 := a1.(device := d.device);
    var a3 := a2.(model := d.model);
    var mac, target, model := OptLeaf("mac", "address", d.mac), OptLeaf("target", "dev", d.device),
      OptLeaf("model", "type", d.model);
    OptLeafReadBack(a0, "mac", "address", d.mac);
    FoldConcat(NetStep, a0, mac, target);
    OptLeafReadBack(a1, "target", "dev", d.device);
    FoldConcat(NetStep, a0, mac + target, model);
    OptLeafReadBack(a2, "model", "type", d.model);
    FoldConcat(NetStep, a0, mac + target + model, OptLeaf("filterref", "filter", d.filterRef));
    OptLeafReadBack(a3, "filterref", "filter", d.filterRef);
  }

  lemma InboundReadBack(d: Net)
    ensures ScanInto(GetAttr(Inbound(d), "average"), 0) == d.reservation
    ensures ScanInto(GetAttr(Inbound(d), "peak"), 0) == d.limit
  {
    LookupGroups(OptAttr("average", if d.reservation != 0 then Some(Digits(d.reservation)) else None),
                 OptAttr("peak", if d.limit != 0 then Some(Digits(d.limit)) else None), [], []);
    PrintScan(d.reservation);
    PrintScan(d.limit);
  }

  lemma BandwidthReadBack(acc: Net, d: Net)
    requires acc.reservation == 0 && acc.limit == 0
    ensures Fold(NetStep, acc, Bandwidth(d)) == Some(acc.(reservation := d.reservation, limit := d.limit))
  {
    if Bandwidth(d) != [] {
      var x := Bandwidth(d)[0];
      InboundReadBack(d);
      FoldOne(NetStep, acc, x);
      assert FirstNamed(x.kids, "inbound") == Some(Inbound(d));
    }
  }

  lemma AddressReadBack(acc: Net, a: seq<Attr>)
    requires DistinctKeys(a) && acc.address == []
    ensures Fold(NetStep, acc, AddressKids(a)) == Some(acc.(address := a))
  {
    if a != [] {
      AddressRoundTrip(a);
      FoldOne(NetStep, acc, Leaf("address", a));
      assert [] + a == a;
    }
  }

  /** Virtual ports of the type the printer treats apart always come back empty,
      the others when they carry the three ids their parser requires. */
  function VsiRead(v: Vsi): Vsi {
    if v.vsiType.None? || v.vsiType == Some("802.1Qbh") || v.managerId.None? || v.typeId.None? || v.typeIdVersion.None?
    then NO_VSI
    else v.(filterRef := None, profileId := None)
  }

  lemma ParametersRead(v: Vsi)
    requires v.vsiType != Some("802.1Qbh")
    ensures GetAttr(Parameters(v), "managerid") == v.managerId
    ensures GetAttr(Parameters(v), "typeid") == v.typeId
    ensures GetAttr(Parameters(v), "typeidversion") == v.typeIdVersion
    ensures GetAttr(Parameters(v), "instanceid") == v.instanceId
    ensures GetAttr(Parameters(v), "profileid") == None
  {
    LookupGroups(OptAttr("managerid", v.managerId), OptAttr("typeid", v.typeId),
                 OptAttr("typeidversion", v.typeIdVersion), OptAttr("instanceid", v.instanceId));
  }

  lemma ParametersReadBack(v: Vsi)
    requires v.vsiType.Some?
    ensures VsiStep(NO_VSI.(vsiType := v.vsiType), Parameters(v)).GetOr(NO_VSI) == VsiRead(v)
  {
    if v.vsiType == Some("802.1Qbh") {
      assert GetAttr(Parameters(v), "managerid") == None;
    } else {
      ParametersRead(v);
    }
  }

  lemma VsiReadBack(acc: Net, v: Vsi)
    requires acc.vsi == NO_VSI
    ensures Fold(NetStep, acc, VirtualPort(v)) == Some(acc.(vsi := VsiRead(v)))
  {
    if v.vsiType.Some? {
      var x := VirtualPort(v)[0];
      FoldOne(NetStep, acc, x);
      FoldOne(VsiStep, NO_VSI.(vsiType := v.vsiType), Parameters(v));
      assert ReadVsi(x) == VsiStep(NO_VSI.(vsiType := v.vsiType), Parameters(v));
      ParametersReadBack(v);
    }
  }

  /** What the children that depend on the type add; None is a rejected interface. */
  function TypeRead(acc: Net, d: Net): Option<Net> {
    if d.kind == "network" then Some(acc.(source := d.source, poolid := Some(PoolOf(TextOf(d.source)))))
    else if d.kind == "bridge" then Some(acc.(source := d.source))
    else if d.kind == "user" then Some(acc)
    else if d.source.None? then Some(acc.(vsi := VsiRead(d.vsi)))
    else if d.netMode.None? then None
    else Some(acc.(source := d.source, netMode := d.netMode, vsi := VsiRead(d.vsi)))
  }

  lemma DirectReadBack(acc: Net, d: Net)
    requires acc.vsi == NO_VSI && d.kind == "direct"
    ensures Fold(NetStep, acc, DirectSource(d) + VirtualPort(d.vsi)) == TypeRead(acc, d)
  {
    FoldConcat(NetStep, acc, DirectSource(d), VirtualPort(d.vsi));
    if d.source.None? {
      VsiReadBack(acc, d.vsi);
    } else {
      LookupGroups(Prop("dev", d.source.value), OptAttr("mode", d.netMode), [], []);
      FoldOne(NetStep, acc, DirectSource(d)[0]);
      if d.netMode.Some? {
        VsiReadBack(acc.(source := d.source, netMode := d.netMode), d.vsi);
      }
    }
  }

  lemma BridgeReadBack(acc: Net, d: Net, xen: bool)
    requires d.source.Some?
    ensures Fold(NetStep, acc, Script(xen) + NamedSource("bridge", d.source)) == Some(acc.(source := d.source))
  {
    FoldConcat(NetStep, acc, Script(xen), NamedSource("bridge", d.source));
    if xen {
      FoldOne(NetStep, acc, Script(xen)[0]);
    }
    OptLeafReadBack(acc, "source", "bridge", d.source);
  }

  lemma TypeReadBack(acc: Net, d: Net, xen: bool)
    requires Prints(d) && acc.vsi == NO_VSI
    ensures Fold(NetStep, acc, TypeKids(d, xen)) == TypeRead(acc, d)
  {
    if d.kind == "network" {
      OptLeafReadBack(acc, "source", "network", d.source);
    } else if d.kind == "bridge" {
      BridgeReadBack(acc, d, xen);
    } else if d.kind == "direct" {
      DirectReadBack(acc, d);
    }
  }

  /** Everything but what depends on the type comes back. */
  function CommonRead(d: Net): Net {
    NoNet(d.kind).(mac := d.mac, device := d.device, model := d.model, filterRef := d.filterRef,
                   reservation := d.reservation, limit := d.limit, address := d.address)
  }

  lemma KidsReadBack(d: Net, xen: bool)
    requires Prints(d) && DistinctKeys(d.address)
    ensures Fold(NetStep, NoNet(d.kind), NetTree(d, xen).kids) == TypeRead(CommonRead(d), d)
  {
    var a0, middle := NoNet(d.kind), Bandwidth(d) + AddressKids(d.address);
    FoldConcat(NetStep, a0, HeadKids(d) + middle, TypeKids(d, xen));
    FoldConcat(NetStep, a0, HeadKids(d), middle);
    HeadReadBack(d);
    var a1 := a0.(mac := d.mac, device := d.device, model := d.model, filterRef := d.filterRef);
    FoldConcat(NetStep, a1, Bandwidth(d), AddressKids(d.address));
    BandwidthReadBack(a1, d);
    AddressReadBack(a1.(reservation := d.reservation, limit := d.limit), d.address);
    TypeReadBack(CommonRead(d), d, xen);
  }

  /** A child reads the same after saving: only bandwidth and virtual ports have
      children of their own. */
  lemma ChildReparse(kid: Tree, depth: nat)
    requires Shallow(kid)
    ensures forall d: Net :: NetStep(d, Reparse(kid, depth)) == NetStep(d, kid)
  {
    ShallowReparse(kid, depth);
    if kid.kids != [] {
      var again, leaf := Reparse(kid, depth), kid.kids[0];
      assert again.kids[1..][0] == leaf && again.kids[1..][1..] == [NewLine(depth)];
      assert [NewLine(depth)][1..] == [] && kid.kids[1..] == [];
      assert FirstNamed([NewLine(depth)], "inbound") == None;
      assert FirstNamed(again.kids, "inbound") == FirstNamed(kid.kids, "inbound");
      FoldReparse(VsiStep, NO_VSI.(vsiType := GetAttr(kid, "type")), kid, depth);
      assert ReadVsi(again) == ReadVsi(kid);
    }
  }

  lemma HeadShallow(d: Net)
    ensures AllShallow(HeadKids(d))
  {
    var mac, target, model := OptLeaf("mac", "address", d.mac), OptLeaf("target", "dev", d.device),
      OptLeaf("model", "type", d.model);
    AllShallowConcat(mac, target);
    AllShallowConcat(mac + target, model);
    AllShallowConcat(mac + target + model, OptLeaf("filterref", "filter", d.filterRef));
  }

  lemma TypeShallow(d: Net, xen: bool)
    ensures AllShallow(TypeKids(d, xen))
  {
    AllShallowConcat(Script(xen), NamedSource("bridge", d.source));
    AllShallowConcat(DirectSource(d), VirtualPort(d.vsi));
  }

  lemma NetShallow(d: Net, xen: bool)
    ensures AllShallow(NetTree(d, xen).kids)
  {
    HeadShallow(d);
    TypeShallow(d, xen);
    AllShallowConcat(Bandwidth(d), AddressKids(d.address));
    AllShallowConcat(HeadKids(d), Bandwidth(d) + AddressKids(d.address));
    AllShallowConcat(HeadKids(d) + (Bandwidth(d) + AddressKids(d.address)), TypeKids(d, xen));
  }

  lemma NetReparse(d: Net, xen: bool, depth: nat)
    ensures Fold(NetStep, NoNet(d.kind), Reparse(NetTree(d, xen), depth).kids)
            == Fold(NetStep, NoNet(d.kind), NetTree(d, xen).kids)
  {
    var x := NetTree(d, xen);
    NetShallow(d, xen);
    forall k | k in x.kids ensures forall n: Net :: NetStep(n, Reparse(k, depth + 1)) == NetStep(n, k) {
      ChildReparse(k, depth + 1);
    }
    FoldReparse(NetStep, NoNet(d.kind), x, depth);
  }

  lemma NetReadBack(d: Net, xen: bool, depth: nat)
    requires Prints(d) && DistinctKeys(d.address)
    ensures NetDevice(Reparse(NetTree(d, xen), depth))
            == match TypeRead(CommonRead(d), d)
               case None => None
               case Some(n) => Some(Dev(RES_NET, n, n.mac))
  {
    NetReparse(d, xen, depth);
    KidsReadBack(d, xen);
  }

  /** The interfaces that printing loses nothing of. */
  predicate Printable(d: Net) {
    if d.kind == "network" then
      d.source.Some? && d.poolid == Some(PoolOf(d.source.value)) && d.netMode.None? && d.vsi == NO_VSI
    else if d.kind == "bridge" then d.source.Some? && d.poolid.None? && d.netMode.None? && d.vsi == NO_VSI
    else if d.kind == "user" then d.source.None? && d.poolid.None? && d.netMode.None? && d.vsi == NO_VSI
    else
      && d.kind == "direct" && d.source.Some? == d.netMode.Some? && d.poolid.None?
      && (d.vsi == NO_VSI || PortPrintable(d.vsi))
  }

  predicate PortPrintable(v: Vsi) {
    && v.vsiType.Some? && v.vsiType != Some("802.1Qbh")
    && v.managerId.Some? && v.typeId.Some? && v.typeIdVersion.Some?
    && v.filterRef.None? && v.profileId.None?
  }

  /** An interface that can be printed at all comes back as itself exactly when it
      is `Printable`: a pool id that is not the network's, a source on a user
      interface, a direct source without a mode, and 802.1Qbh ports or ports
      missing an id are what gets lost.  Both bandwidth numbers survive whatever
      their 64-bit values. */
  lemma NetRoundTrip(dev: Dev<Net>, xen: bool, depth: nat)
    requires Prints(dev.dev) && DistinctKeys(dev.dev.address) && dev.dev.mac.Some?
    ensures NetDevice(Reparse(NetTree(dev.dev, xen), depth)) == Some(dev)
            <==> Printable(dev.dev) && dev.resType == RES_NET && dev.id == dev.dev.mac
  {
    NetReadBack(dev.dev, xen, depth);
  }

  lemma HeadWellFormed(d: Net)
    ensures AllWellFormed(HeadKids(d))
  {
    var mac, target, model := OptLeaf("mac", "address", d.mac), OptLeaf("target", "dev", d.device),
      OptLeaf("model", "type", d.model);
    AllWellFormedConcat(mac, target);
    AllWellFormedConcat(mac + target, model);
    AllWellFormedConcat(mac + target + model, OptLeaf("filterref", "filter", d.filterRef));
  }

  lemma BandwidthWellFormed(d: Net)
    ensures AllWellFormed(Bandwidth(d))
  {
    DistinctGroups(OptAttr("average", if d.reservation != 0 then Some(Digits(d.reservation)) else None),
                   OptAttr("peak", if d.limit != 0 then Some(Digits(d.limit)) else None), [], []);
    assert WellFormed(Inbound(d));
  }

  lemma VirtualPortWellFormed(v: Vsi)
    ensures AllWellFormed(VirtualPort(v))
  {
    DistinctGroups(OptAttr("managerid", v.managerId), OptAttr("typeid", v.typeId),
                   OptAttr("typeidversion", v.typeIdVersion), OptAttr("instanceid", v.instanceId));
    assert WellFormed(Parameters(v));
  }

  lemma TypeWellFormed(d: Net, xen: bool)
    ensures AllWellFormed(TypeKids(d, xen))
  {
    AllWellFormedConcat(Script(xen), NamedSource("bridge", d.source));
    AllWellFormedConcat(DirectSource(d), VirtualPort(d.vsi));
    DistinctGroups(Prop("dev", TextOf(d.source)), OptAttr("mode", d.netMode), [], []);
    VirtualPortWellFormed(d.vsi);
  }

  /** A printed interface is well-formed exactly when its address keys differ. */
  lemma NetWellFormed(d: Net, xen: bool)
    ensures WellFormed(NetTree(d, xen)) <==> DistinctKeys(d.address)
  {
    HeadWellFormed(d);
    BandwidthWellFormed(d);
    TypeWellFormed(d, xen);
    AllWellFormedConcat(Bandwidth(d), AddressKids(d.address));
    AllWellFormedConcat(HeadKids(d), Bandwidth(d) + AddressKids(d.address));
    AllWellFormedConcat(HeadKids(d) + (Bandwidth(d) + AddressKids(d.address)), TypeKids(d, xen));
    AddressWellFormed(d.address);
    assert WellFormed(NetTree(d, xen)) <==> AllWellFormed(NetTree(d, xen).kids);
  }
}
