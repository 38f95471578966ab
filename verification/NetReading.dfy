/** What parse_net_device of libxkutil/device_parsing.c finds in an element, told for
    every element and field by field, without its loops. */
module NetReading {
  import opened Prelude
  import opened Decimal
  import opened Xml
  import opened XPath
  import opened Devices
  import N = NetXml

  // ----- virtual ports

  predicate IdsGiven(k: Tree) {
    GetAttr(k, "managerid").Some? && GetAttr(k, "typeid").Some? && GetAttr(k, "typeidversion").Some?
  }

  predicate PortAccepted(kids: seq<Tree>) {
    forall i :: 0 <= i < |kids| && Name(kids[i]) == "parameters" ==> IdsGiven(kids[i])
  }

  function PortFound(v: N.Vsi, kids: seq<Tree>): N.Vsi {
    v.(managerId := LastAttr(kids, "parameters", "managerid", v.managerId),
       typeId := LastAttr(kids, "parameters", "typeid", v.typeId),
       typeIdVersion := LastAttr(kids, "parameters", "typeidversion", v.typeIdVersion),
       instanceId := LastAttr(kids, "parameters", "instanceid", v.instanceId),
       profileId := LastAttr(kids, "parameters", "profileid", v.profileId))
  }

  lemma PortNext(v: N.Vsi, kids: seq<Tree>)
    requires kids != []
    ensures PortAccepted(kids) <==> N.VsiStep(v, kids[0]).Some? && PortAccepted(kids[1..])
    ensures N.VsiStep(v, kids[0]).Some? ==> PortFound(v, kids) == PortFound(N.VsiStep(v, kids[0]).value, kids[1..])
  {
    assert forall i :: 0 < i < |kids| ==> kids[i] == kids[1..][i - 1];
    assert forall i :: 0 <= i < |kids[1..]| ==> kids[1..][i] == kids[i + 1];
    LastAttrNext(kids, "parameters", "managerid", v.managerId);
    LastAttrNext(kids, "parameters", "typeid", v.typeId);
    LastAttrNext(kids, "parameters", "typeidversion", v.typeIdVersion);
    LastAttrNext(kids, "parameters", "instanceid", v.instanceId);
    LastAttrNext(kids, "parameters", "profileid", v.profileId);
  }

  lemma {:induction false} PortLoop(v: N.Vsi, kids: seq<Tree>)
    ensures Fold(N.VsiStep, v, kids) == if PortAccepted(kids) then Some(PortFound(v, kids)) else None
    decreases |kids|
  {
    if kids != [] {
      PortNext(v, kids);
      var next := N.VsiStep(v, kids[0]);
      if next.Some? {
        PortLoop(next.value, kids[1..]);
      }
    }
  }

  /** A <virtualport> is read exactly when it has a type and all its parameters give
      the manager, the type and its version; the last ones count. */
  lemma PortRead(x: Tree)
    requires x.Element?
    ensures N.ReadVsi(x)
            == if GetAttr(x, "type").None?
                  || (exists i :: 0 <= i < |x.kids| && Name(x.kids[i]) == "parameters" && !IdsGiven(x.kids[i]))
               then None
               else Some(N.Vsi(GetAttr(x, "type"), LastAttr(x.kids, "parameters", "managerid", None),
                               LastAttr(x.kids, "parameters", "typeid", None),
                               LastAttr(x.kids, "parameters", "typeidversion", None),
                               LastAttr(x.kids, "parameters", "instanceid", None), None,
                               LastAttr(x.kids, "parameters", "profileid", None)))
  {
    PortLoop(N.NO_VSI.(vsiType := GetAttr(x, "type")), x.kids);
  }

  // ----- interfaces

  /** What a <source> names: a bridge, a network, or a device with its mode. */
  predicate Names(k: Tree) {
    GetAttr(k, "bridge").Some? || GetAttr(k, "network").Some? || (GetAttr(k, "dev").Some? && GetAttr(k, "mode").Some?)
  }

  predicate NamesNetwork(k: Tree) {
    Name(k) == "source" && GetAttr(k, "bridge").None? && GetAttr(k, "network").Some?
  }

  predicate NamesDevice(k: Tree) {
    Name(k) == "source" && GetAttr(k, "bridge").None? && GetAttr(k, "network").None?
  }

  function NamedBy(k: Tree): Option<string> {
    OrElse(GetAttr(k, "bridge"), OrElse(GetAttr(k, "network"), GetAttr(k, "dev")))
  }

  predicate PortReads(k: Tree) {
    Name(k) == "virtualport" && N.ReadVsi(k).Some?
  }

  /** A number from the first <inbound> of each <bandwidth>: 0 when it is absent, what
      was there before when it cannot be read. */
  function Rate(kids: seq<Tree>, key: string, was: Word64): Word64 {
    if kids == [] then was
    else Rate(kids[1..], key, if Name(kids[0]) == "bandwidth" then RateOf(kids[0], key, was) else was)
  }

  function RateOf(x: Tree, key: string, was: Word64): Word64 {
    var nodes := if x.Element? then Select(x.kids, {"inbound"}) else [];
    if nodes == [] then was
    else
      match GetAttr(nodes[0], key)
      case None => 0
      case Some(text) => match ScanU64(text) case None => was case Some(n) => n
  }

  predicate NetAccepted(kids: seq<Tree>) {
    && EveryHas(kids, "mac", "address") && EveryHas(kids, "target", "dev") && EveryHas(kids, "model", "type")
    && forall i :: 0 <= i < |kids| && Name(kids[i]) == "source" ==> Names(kids[i])
  }

  function SourceFound(kids: seq<Tree>, was: Option<string>): Option<string> {
    match LastNode(kids, "source") case None => was case Some(k) => NamedBy(k)
  }

  function PoolFound(kids: seq<Tree>, was: Option<string>): Option<string> {
    match LastWith(kids, NamesNetwork)
    case None => was
    case Some(k) => Some("NetworkPool/" + TextOf(GetAttr(k, "network")))
  }

  function ModeFound(kids: seq<Tree>, was: Option<string>): Option<string> {
    match LastWith(kids, NamesDevice) case None => was case Some(k) => GetAttr(k, "mode")
  }

  function VsiFound(kids: seq<Tree>, was: N.Vsi): N.Vsi {
    match LastWith(kids, PortReads) case None => was case Some(k) => N.ReadVsi(k).GetOr(was)
  }

  function NetFound(d: N.Net, kids: seq<Tree>): N.Net {
    d.(mac := LastAttr(kids, "mac", "address", d.mac), device := LastAttr(kids, "target", "dev", d.device),
       model := LastAttr(kids, "model", "type", d.model),
       filterRef := LastAttr(kids, "filterref", "filter", d.filterRef),
       source := SourceFound(kids, d.source), poolid := PoolFound(kids, d.poolid),
       netMode := ModeFound(kids, d.netMode), vsi := VsiFound(kids, d.vsi),
       reservation := Rate(kids, "average", d.reservation), limit := Rate(kids, "peak", d.limit),
       address := d.address + Addresses(kids))
  }

  lemma NetAcceptedNext(d: N.Net, kids: seq<Tree>)
    requires kids != []
    ensures NetAccepted(kids) <==> N.NetStep(d, kids[0]).Some? && NetAccepted(kids[1..])
  {
    EveryHasNext(kids, "mac", "address");
    EveryHasNext(kids, "target", "dev");
    EveryHasNext(kids, "model", "type");
    assert forall i :: 0 < i < |kids| ==> kids[i] == kids[1..][i - 1];
    assert forall i :: 0 <= i < |kids[1..]| ==> kids[1..][i] == kids[i + 1];
  }

  /** What one child changes. */
  lemma PlainAfter(d: N.Net, kid: Tree)
    requires N.NetStep(d, kid).Some?
    ensures var e := N.NetStep(d, kid).value;
            && e.kind == d.kind
            && e.mac == (if Name(kid) == "mac" then GetAttr(kid, "address") else d.mac)
            && e.device == (if Name(kid) == "target" then GetAttr(kid, "dev") else d.device)
            && e.model == (if Name(kid) == "model" then GetAttr(kid, "type") else d.model)
            && e.filterRef == (if Name(kid) == "filterref" then GetAttr(kid, "filter") else d.filterRef)
            && e.address == (if Name(kid) == "address" then d.address + AddressOf(kid) else d.address)
  {
  }

  lemma SourceAfter(d: N.Net, kid: Tree)
    requires N.NetStep(d, kid).Some?
    ensures var e := N.NetStep(d, kid).value;
            && e.source == (if Name(kid) == "source" then NamedBy(kid) else d.source)
            && e.poolid == (if NamesNetwork(kid) then Some("NetworkPool/" + TextOf(GetAttr(kid, "network")))
                            else d.poolid)
            && e.netMode == (if NamesDevice(kid) then GetAttr(kid, "mode") else d.netMode)
  {
  }

  lemma PortAfter(d: N.Net, kid: Tree)
    requires N.NetStep(d, kid).Some?
    ensures N.NetStep(d, kid).value.vsi == if PortReads(kid) then N.ReadVsi(kid).value else d.vsi
  {
  }

  lemma {:induction false} FirstInbound(kids: seq<Tree>)
    ensures N.FirstNamed(kids, "inbound")
            == var nodes := Select(kids, {"inbound"}); if nodes == [] then None else Some(nodes[0])
    decreases |kids|
  {
    if kids != [] {
      FirstInbound(kids[1..]);
    }
  }

  lemma BandwidthAfter(d: N.Net, x: Tree)
    ensures N.ReadBandwidth(d, x)
            == d.(reservation := RateOf(x, "average", d.reservation), limit := RateOf(x, "peak", d.limit))
  {
    if x.Element? {
      FirstInbound(x.kids);
      var nodes := Select(x.kids, {"inbound"});
      if nodes != [] {
        assert N.FirstNamed(x.kids, "inbound") == Some(nodes[0]);
        assert N.ScanInto(GetAttr(nodes[0], "average"), d.reservation) == RateOf(x, "average", d.reservation);
        assert N.ScanInto(GetAttr(nodes[0], "peak"), d.limit) == RateOf(x, "peak", d.limit);
      }
    }
  }

  lemma RateAfter(d: N.Net, kid: Tree)
    requires N.NetStep(d, kid).Some?
    ensures var (e, here) := (N.NetStep(d, kid).value, Name(kid) == "bandwidth");
            && e.reservation == (if here then RateOf(kid, "average", d.reservation) else d.reservation)
            && e.limit == (if here then RateOf(kid, "peak", d.limit) else d.limit)
  {
    BandwidthAfter(d, kid);
  }

  lemma TextsNext(d: N.Net, kids: seq<Tree>)
    requires kids != [] && N.NetStep(d, kids[0]).Some?
    ensures var e := N.NetStep(d, kids[0]).value;
            && LastAttr(kids, "mac", "address", d.mac) == LastAttr(kids[1..], "mac", "address", e.mac)
            && LastAttr(kids, "target", "dev", d.device) == LastAttr(kids[1..], "target", "dev", e.device)
            && LastAttr(kids, "model", "type", d.model) == LastAttr(kids[1..], "model", "type", e.model)
            && LastAttr(kids, "filterref", "filter", d.filterRef)
               == LastAttr(kids[1..], "filterref", "filter", e.filterRef)
            && d.address + Addresses(kids) == e.address + Addresses(kids[1..])
  {
    PlainAfter(d, kids[0]);
    LastAttrNext(kids, "mac", "address", d.mac);
    LastAttrNext(kids, "target", "dev", d.device);
    LastAttrNext(kids, "model", "type", d.model);
    LastAttrNext(kids, "filterref", "filter", d.filterRef);
    AddressesNext(d.address, kids);
  }

  lemma SourceFoundNext(kids: seq<Tree>, was: Option<string>)
    requires kids != []
    ensures SourceFound(kids, was)
            == SourceFound(kids[1..], if Name(kids[0]) == "source" then NamedBy(kids[0]) else was)
  {
    LastNodeNext(kids, "source");
  }

  lemma PoolNext(kids: seq<Tree>, was: Option<string>)
    requires kids != []
    ensures var named := Some("NetworkPool/" + TextOf(GetAttr(kids[0], "network")));
            PoolFound(kids, was) == PoolFound(kids[1..], if NamesNetwork(kids[0]) then named else was)
  {
  }

  lemma ModeNext(kids: seq<Tree>, was: Option<string>)
    requires kids != []
    ensures ModeFound(kids, was)
            == ModeFound(kids[1..], if NamesDevice(kids[0]) then GetAttr(kids[0], "mode") else was)
  {
  }

  lemma VsiNext(kids: seq<Tree>, was: N.Vsi)
    requires kids != []
    ensures VsiFound(kids, was)
            == VsiFound(kids[1..], if PortReads(kids[0]) then N.ReadVsi(kids[0]).value else was)
  {
    LastWithFits(kids[1..], PortReads);
  }

  lemma SourcesNext(d: N.Net, kids: seq<Tree>)
    requires kids != [] && N.NetStep(d, kids[0]).Some?
    ensures var e := N.NetStep(d, kids[0]).value;
            && SourceFound(kids, d.source) == SourceFound(kids[1..], e.source)
            && PoolFound(kids, d.poolid) == PoolFound(kids[1..], e.poolid)
            && ModeFound(kids, d.netMode) == ModeFound(kids[1..], e.netMode)
            && VsiFound(kids, d.vsi) == VsiFound(kids[1..], e.vsi)
            && Rate(kids, "average", d.reservation) == Rate(kids[1..], "average", e.reservation)
            && Rate(kids, "peak", d.limit) == Rate(kids[1..], "peak", e.limit)
  {
    SourceAfter(d, kids[0]);
    PortAfter(d, kids[0]);
    RateAfter(d, kids[0]);
    SourceFoundNext(kids, d.source);
    PoolNext(kids, d.poolid);
    ModeNext(kids, d.netMode);
    VsiNext(kids, d.vsi);
  }

  lemma NetNext(d: N.Net, kids: seq<Tree>)
    requires kids != [] && N.NetStep(d, kids[0]).Some?
    ensures NetFound(d, kids) == NetFound(N.NetStep(d, kids[0]).value, kids[1..])
  {
    PlainAfter(d, kids[0]);
    TextsNext(d, kids);
    SourcesNext(d, kids);
  }

  lemma {:induction false} NetLoop(d: N.Net, kids: seq<Tree>)
    ensures Fold(N.NetStep, d, kids) == if NetAccepted(kids) then Some(NetFound(d, kids)) else None
    decreases |kids|
  {
    if kids == [] {
      assert d.address + [] == d.address;
    } else {
      NetAcceptedNext(d, kids);
      var next := N.NetStep(d, kids[0]);
      if next.Some? {
        NetNext(d, kids);
        NetLoop(next.value, kids[1..]);
      }
    }
  }

  /** An <interface> is read exactly when it has a type, all its MAC addresses, targets
      and models say what they are, and all its sources name a bridge, a network, or a
      device with its mode.  The last of each counts; a network gives the pool, a device
      the mode, and of the virtual ports the last one that can be read. */
  lemma NetRead(x: Tree)
    requires x.Element?
    ensures N.NetDevice(x)
            == if GetAttr(x, "type").None? || !EveryHas(x.kids, "mac", "address") || !EveryHas(x.kids, "target", "dev")
                  || !EveryHas(x.kids, "model", "type")
                  || (exists i :: 0 <= i < |x.kids| && Name(x.kids[i]) == "source" && !Names(x.kids[i]))
               then None
               else
                 var mac := LastAttr(x.kids, "mac", "address", None);
                 Some(Dev(RES_NET,
                          N.Net(GetAttr(x, "type").value, mac, SourceFound(x.kids, None), PoolFound(x.kids, None),
                                LastAttr(x.kids, "model", "type", None), LastAttr(x.kids, "target", "dev", None),
                                ModeFound(x.kids, None), LastAttr(x.kids, "filterref", "filter", None),
                                Rate(x.kids, "average", 0), Rate(x.kids, "peak", 0),
                                VsiFound(x.kids, N.Vsi(None, None, None, None, None, None, None)), Addresses(x.kids)),
                          mac))
  {
    if GetAttr(x, "type").Some? {
      NetLoop(N.NoNet(GetAttr(x, "type").value), x.kids);
      assert [] + Addresses(x.kids) == Addresses(x.kids);
    }
  }

  // ----- what is printed and never read back

  lemma TypeKidsNamed(d: N.Net, xen: bool)
    ensures forall k :: k in N.TypeKids(d, xen) && Name(k) == "script" ==>
              d.kind == "bridge" && xen && k == Element("script", [Attr("path", "vif-bridge")], [])
    ensures d.kind == "bridge" && xen ==> Element("script", [Attr("path", "vif-bridge")], []) in N.TypeKids(d, xen)
  {
    if d.kind == "bridge" && xen {
      assert N.Script(xen)[0] == Element("script", [Attr("path", "vif-bridge")], []);
    }
  }

  lemma RestNamed(d: N.Net)
    ensures forall k :: k in N.HeadKids(d) ==> Name(k) != "script"
    ensures forall k :: k in N.Bandwidth(d) + AddressKids(d.address) ==> Name(k) != "script"
  {
  }

  /** Bridges of Xen guests, and they alone, are printed with the bridge script. */
  lemma ScriptPrinted(d: N.Net, xen: bool)
    ensures forall k :: k in N.NetTree(d, xen).kids && Name(k) == "script" ==>
              d.kind == "bridge" && xen && k == Element("script", [Attr("path", "vif-bridge")], [])
    ensures d.kind == "bridge" && xen ==>
              Element("script", [Attr("path", "vif-bridge")], []) in N.NetTree(d, xen).kids
  {
    TypeKidsNamed(d, xen);
    RestNamed(d);
  }

  /** A port of the type that is never read back is printed with its profile alone. */
  lemma ProfilePrinted(v: N.Vsi)
    requires v.vsiType == Some("802.1Qbh")
    ensures N.VirtualPort(v)
            == [Element("virtualport", [Attr("type", "802.1Qbh")],
                        [Element("parameters",
                                 if v.profileId.Some? then [Attr("profileid", v.profileId.value)] else [], [])])]
  {
  }

  /** An interface can be printed exactly when it is a network or a bridge with a source,
      a direct one with a source or a virtual port, or a user one. */
  lemma NetPrints(d: N.Net, xen: bool)
    ensures N.NetElement(d, xen).Some?
            <==> || (d.kind in {"network", "bridge"} && d.source.Some?)
                 || (d.kind == "direct" && (d.source.Some? || d.vsi.vsiType.Some?))
                 || d.kind == "user"
  {
  }
}
