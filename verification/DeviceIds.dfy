/** Published device ids and their way back: src/Virt_Device.c with get_fq_devid
    of libxkutil/device_parsing.c. */
module DeviceIds {
  import opened Prelude
  import Decimal
  import opened Devices

  /** What matters of a struct virt_device here. */
  datatype Device = Device(resType: nat, id: string, quantity: nat)

  /** What matters of a device instance: its class, its DeviceID and its SystemName. */
  datatype Instance = Instance(resType: nat, deviceId: string, system: string)

  /** A domain's devices by type, as get_devices returns them. */
  type Lists = map<nat, seq<Device>>

  /** The domains by name. */
  type Host = map<string, Lists>

  function DevicesOf(lists: Lists, resType: nat): seq<Device> {
    if resType in lists then lists[resType] else []
  }

  /** The types that have an instance of their own. */
  predicate Instantiable(resType: nat) {
    resType in {RES_NET, RES_DISK, RES_MEM, RES_GRAPHICS, RES_CONSOLE, RES_INPUT, RES_CONTROLLER}
  }

  /** get_fq_devid */
  function FqDevid(host: string, id: string): string {
    host + "/" + id
  }

  function UntilSlash(s: string): string {
    if s == [] || s[0] == '/' then [] else [s[0]] + UntilSlash(s[1..])
  }

  function UntilSpace(s: string): string {
    if s == [] || Decimal.IsSpace(s[0]) then [] else [s[0]] + UntilSpace(s[1..])
  }

  /** parse_devid: the two conversions of "%m[^/]/%ms". */
  function ParseDevid(devid: string): Option<(string, string)> {
    var dom := UntilSlash(devid);
    if dom == [] || |dom| >= |devid| then None
    else
      var dev := UntilSpace(Decimal.SkipSpace(devid[|dom| + 1..]));
      if dev == [] then None else Some((dom, dev))
  }

  function UntilNewline(s: string): string {
    if s == [] || s[0] == '\n' then [] else [s[0]] + UntilNewline(s[1..])
  }

  /** parse_fq_devid: "%m[^/]/%m[^\n]", for ids that may contain spaces. */
  function ParseFqDevid(devid: string): Option<(string, string)> {
    var dom := UntilSlash(devid);
    if dom == [] || |dom| >= |devid| then None
    else
      var dev := UntilNewline(devid[|dom| + 1..]);
      if dev == [] then None else Some((dom, dev))
  }

  // ----- enumeration

  function ProcInstance(name: string, i: nat): Instance {
    Instance(RES_PROC, FqDevid(name, Decimal.Digits(i)), name)
  }

  function ProcInstances(name: string, n: nat): (r: seq<Instance>)
    ensures |r| == n && forall i :: 0 <= i < n ==> r[i] == ProcInstance(name, i)
  {
    seq(n, i requires 0 <= i < n => ProcInstance(name, i))
  }

  /** The instances listed one per device; an unknown type ends the listing. */
  function Listed(devs: seq<Device>, name: string): seq<Instance> {
    if devs == [] then []
    else if devs[0].resType == RES_PROC then Listed(devs[1..], name)
    else if !Instantiable(devs[0].resType) then []
    else [Instance(devs[0].resType, FqDevid(name, devs[0].id), name)] + Listed(devs[1..], name)
  }

  predicate AllKnown(devs: seq<Device>) {
    forall d :: d in devs ==> d.resType == RES_PROC || Instantiable(d.resType)
  }

  /** The processor count of the last processor device. */
  function ProcCount(devs: seq<Device>): nat {
    if devs == [] then 0
    else if devs[|devs| - 1].resType == RES_PROC then devs[|devs| - 1].quantity
    else ProcCount(devs[..|devs| - 1])
  }

  /** device_instances */
  function Published(devs: seq<Device>, name: string): seq<Instance> {
    Listed(devs, name) + if AllKnown(devs) then ProcInstances(name, ProcCount(devs)) else []
  }

  // ----- looking one up

  /** proc_dev_list: processor entries with nothing but their number. */
  function ProcDevs(quantity: nat): (r: seq<Device>)
    ensures |r| == quantity && forall i :: 0 <= i < quantity ==> r[i] == Device(0, Decimal.Digits(i), 0)
  {
    seq(quantity, i requires 0 <= i < quantity => Device(0, Decimal.Digits(i), 0))
  }

  /** The list that find_dom_dev searches. */
  function Searched(devs: seq<Device>, resType: nat): seq<Device> {
    if resType == RES_PROC && devs != [] then ProcDevs(devs[0].quantity) else devs
  }

  /** The first device whose id is this one, case aside. */
  function FirstLike(devs: seq<Device>, id: string): Option<Device> {
    if devs == [] then None
    else if EqNoCase(id, devs[0].id) then Some(devs[0])
    else FirstLike(devs[1..], id)
  }

  /** get_device_by_name; None is the status for no such instance. */
  function DeviceByName(host: Host, devid: string, resType: nat): Option<Instance> {
    match ParseDevid(devid)
    case None => None
    case Some((dom, device)) =>
      if dom !in host then None
      else
        match FirstLike(Searched(DevicesOf(host[dom], resType), resType), device)
        case None => None
        case Some(dev) =>
          if resType == RES_PROC then
            match Decimal.ScanInt(dev.id, false)
            case None => None
            case Some(n) => if n < 0 then None else Some(ProcInstance(dom, n))
          else if Published([dev], dom) == [] then None else Some(Published([dev], dom)[0])
  }

  // ----- the code

  method VcpuInstances(name: string, procCount: nat, list: seq<Instance>) returns (r: seq<Instance>)
    ensures r == list + ProcInstances(name, procCount)
  {
    r := list;
    for i := 0 to procCount
      invariant |r| == |list| + i
      invariant forall j :: 0 <= j < |list| ==> r[j] == list[j]
      invariant forall j :: 0 <= j < i ==> r[|list| + j] == ProcInstance(name, j)
    {
      r := r + [Instance(RES_PROC, FqDevid(name, Decimal.Digits(i)), name)];
    }
  }

  lemma ListedStep(devs: seq<Device>, i: nat, name: string, list: seq<Instance>)
    requires i < |devs|
    requires Listed(devs, name) == list + Listed(devs[i..], name)
    ensures var d := devs[i];
            Listed(devs, name)
            == if d.resType == RES_PROC then list + Listed(devs[i + 1..], name)
               else if Instantiable(d.resType) then
                 list + [Instance(d.resType, FqDevid(name, d.id), name)] + Listed(devs[i + 1..], name)
               else list
  {
    var d, rest := devs[i], Listed(devs[i + 1..], name);
    assert devs[i..][1..] == devs[i + 1..];
    var one := Instance(d.resType, FqDevid(name, d.id), name);
    assert list + ([one] + rest) == list + [one] + rest;
    assert list + [] == list;
  }

  method DeviceInstances(devs: seq<Device>, name: string) returns (ok: bool, list: seq<Instance>)
    ensures ok == AllKnown(devs)
    ensures list == Published(devs, name)
  {
    var procCount := 0;
    list := [];
    for i := 0 to |devs|
      invariant Listed(devs, name) == list + Listed(devs[i..], name)
      invariant procCount == ProcCount(devs[..i])
      invariant AllKnown(devs[..i])
    {
      var dev := devs[i];
      ListedStep(devs, i, name, list);
      assert devs[..i + 1][..i] == devs[..i];
      if dev.resType == RES_PROC {
        procCount := dev.quantity;
        continue;
      }
      if !Instantiable(dev.resType) {
        assert dev in devs;
        assert list + [] == list;
        return false, list;
      }
      list := list + [Instance(dev.resType, FqDevid(name, dev.id), name)];
    }
    assert devs[..|devs|] == devs && list + [] == list;
    list := VcpuInstances(name, procCount, list);
    return true, list;
  }

  method ProcDevList(quantity: nat) returns (list: seq<Device>)
    ensures list == ProcDevs(quantity)
  {
    list := [];
    for i := 0 to quantity
      invariant |list| == i && forall j :: 0 <= j < i ==> list[j] == Device(0, Decimal.Digits(j), 0)
    {
      list := list + [Device(0, Decimal.Digits(i), 0)];
    }
  }

  method FindDomDev(lists: Lists, device: string, resType: nat) returns (dev: Option<Device>)
    ensures dev == FirstLike(Searched(DevicesOf(lists, resType), resType), device)
  {
    var list := DevicesOf(lists, resType);
    if |list| == 0 {
      return None;
    }
    if resType == RES_PROC {
      list := ProcDevList(list[0].quantity);
    }
    for i := 0 to |list|
      invariant FirstLike(list, device) == FirstLike(list[i..], device)
    {
      assert list[i..][1..] == list[i + 1..];
      if EqNoCase(device, list[i].id) {
        return Some(list[i]);
      }
    }
    return None;
  }

  method GetDeviceByName(host: Host, devid: string, resType: nat) returns (inst: Option<Instance>)
    ensures inst == DeviceByName(host, devid, resType)
  {
    var parsed := ParseDevid(devid);
    if parsed.None? {
      return None;
    }
    var (domain, device) := parsed.value;
    if domain !in host {
      return None;
    }
    var dev := FindDomDev(host[domain], device, resType);
    if dev.None? {
      return None;
    }
    var list := [];
    if resType == RES_PROC {
      var number := Decimal.ScanInt(dev.value.id, false);
      if number.Some? && number.value >= 0 {
        list := [ProcInstance(domain, number.value)];
      }
    } else {
      var ok;
      ok, list := DeviceInstances([dev.value], domain);
    }
    return if list == [] then None else Some(list[0]);
  }

  // ----- every published id resolves

  predicate NoSpace(s: string) {
    forall i :: 0 <= i < |s| ==> !Decimal.IsSpace(s[i])
  }

  lemma {:induction false} SlashFound(name: string, rest: string)
    ensures UntilSlash(name + "/" + rest) == name <==> '/' !in name
    ensures UntilSlash(name + "/" + rest) <= name
    decreases |name|
  {
    var s := name + "/" + rest;
    if name == [] {
      assert s[0] == '/';
    } else if name[0] != '/' {
      assert s[1..] == name[1..] + "/" + rest;
      SlashFound(name[1..], rest);
      assert name == [name[0]] + name[1..];
      assert UntilSlash(s)[1..] == UntilSlash(s[1..]);
    } else {
      assert s[0] == '/';
    }
  }

  lemma {:induction false} SpaceFound(s: string)
    ensures UntilSpace(s) == s <==> NoSpace(s)
    ensures NoSpace(UntilSpace(s)) && |UntilSpace(s)| <= |s|
    decreases |s|
  {
    if s != [] && !Decimal.IsSpace(s[0]) {
      SpaceFound(s[1..]);
      assert s == [s[0]] + s[1..];
      assert UntilSpace(s)[1..] == UntilSpace(s[1..]);
      assert forall i :: 0 < i < |s| ==> s[i] == s[1..][i - 1];
    }
  }

  lemma {:induction false} SkipShortens(s: string)
    ensures |Decimal.SkipSpace(s)| <= |s|
    ensures s == [] || !Decimal.IsSpace(s[0]) ==> Decimal.SkipSpace(s) == s
    ensures s != [] && Decimal.IsSpace(s[0]) ==> |Decimal.SkipSpace(s)| < |s|
    decreases |s|
  {
    if s != [] && Decimal.IsSpace(s[0]) {
      SkipShortens(s[1..]);
    }
  }

  /** An id is split into the names it was put together from exactly when neither
      is empty, the domain's has no slash and the device's no white space. */
  lemma DevidRoundTrip(name: string, id: string)
    ensures ParseDevid(FqDevid(name, id)) == Some((name, id)) <==> name != "" && '/' !in name && id != "" && NoSpace(id)
  {
    var s := FqDevid(name, id);
    SlashFound(name, id);
    if UntilSlash(s) == name {
      assert s[|name| + 1..] == id;
      SkipShortens(id);
      SpaceFound(Decimal.SkipSpace(id));
      SpaceFound(id);
    }
  }

  /** White space before a device's part is skipped, and what follows it is cut off. */
  lemma SpacesAreSkipped(name: string, id: string, rest: string)
    requires name != "" && '/' !in name && id != "" && NoSpace(id)
    ensures ParseDevid(FqDevid(name, " " + id + " " + rest)) == Some((name, id))
  {
    var s := " " + id + " " + rest;
    SlashFound(name, s);
    assert FqDevid(name, s)[|name| + 1..] == s;
    assert s[1..] == id + " " + rest && !Decimal.IsSpace(s[1]) by { assert s[1] == id[0]; }
    assert Decimal.SkipSpace(s) == Decimal.SkipSpace(s[1..]) == id + " " + rest;
    CutAtSpace(id, rest);
  }

  lemma {:induction false} CutAtSpace(id: string, rest: string)
    requires NoSpace(id)
    ensures UntilSpace(id + " " + rest) == id
    decreases |id|
  {
    var s := id + " " + rest;
    if id == "" {
      assert s[0] == ' ';
    } else {
      assert s[0] == id[0] && s[1..] == id[1..] + " " + rest;
      CutAtSpace(id[1..], rest);
      assert id == [id[0]] + id[1..];
    }
  }

  lemma {:induction false} NewlineFound(s: string)
    ensures UntilNewline(s) == s <==> '\n' !in s
    decreases |s|
  {
    if s != [] && s[0] != '\n' {
      NewlineFound(s[1..]);
      assert s == [s[0]] + s[1..];
      assert UntilNewline(s)[1..] == UntilNewline(s[1..]);
    }
  }

  /** The other parser splits exactly the ids whose device part is on one line. */
  lemma FqDevidRoundTrip(name: string, id: string)
    ensures ParseFqDevid(FqDevid(name, id)) == Some((name, id))
            <==> name != "" && '/' !in name && id != "" && '\n' !in id
  {
    var s := FqDevid(name, id);
    SlashFound(name, id);
    if UntilSlash(s) == name {
      assert s[|name| + 1..] == id;
      NewlineFound(id);
    }
  }

  /** The device part found is never longer, and if as long then the same. */
  lemma SplitDevice(name: string, id: string)
    requires UntilSlash(FqDevid(name, id)) == name
    ensures ParseDevid(FqDevid(name, id)).Some? ==>
              var p := ParseDevid(FqDevid(name, id)).value;
              p.0 == name && |p.1| <= |id| && (|p.1| == |id| ==> p.1 == id)
  {
    assert FqDevid(name, id)[|name| + 1..] == id;
    SkipShortens(id);
    SpaceFound(Decimal.SkipSpace(id));
    SpaceSame(Decimal.SkipSpace(id));
    if id != [] && Decimal.IsSpace(id[0]) {
      assert |Decimal.SkipSpace(id)| < |id|;
    }
  }

  lemma {:induction false} SpaceSame(s: string)
    ensures |UntilSpace(s)| == |s| ==> UntilSpace(s) == s
    decreases |s|
  {
    if s != [] && !Decimal.IsSpace(s[0]) {
      SpaceSame(s[1..]);
      assert s == [s[0]] + s[1..];
    }
  }

  lemma {:induction false} FirstLikeIsListed(devs: seq<Device>, id: string)
    ensures var f := FirstLike(devs, id); f.Some? ==> f.value in devs && EqNoCase(id, f.value.id)
    ensures FirstLike(devs, id).None? ==> forall d :: d in devs ==> !EqNoCase(id, d.id)
    decreases |devs|
  {
    if devs != [] {
      FirstLikeIsListed(devs[1..], id);
      assert forall d :: d in devs <==> d == devs[0] || d in devs[1..];
    }
  }

  /** Devices are listed under their own type. */
  predicate Typed(lists: Lists, resType: nat) {
    forall d :: d in DevicesOf(lists, resType) ==> d.resType == resType
  }

  lemma SameSuffix(name: string, a: string, b: string)
    ensures FqDevid(name, a) == FqDevid(name, b) <==> a == b
  {
    assert FqDevid(name, a)[|name| + 1..] == a && FqDevid(name, b)[|name| + 1..] == b;
  }

  lemma PublishedOne(d: Device, name: string)
    requires Instantiable(d.resType)
    ensures Published([d], name) == [Instance(d.resType, FqDevid(name, d.id), name)]
  {
    assert [d][1..] == [] && [d][..0] == [];
    assert ProcCount([d]) == 0;
    assert Listed([d], name) == [Instance(d.resType, FqDevid(name, d.id), name)];
  }

  /** What a lookup under a domain's own name finds. */
  lemma FoundInDomain(host: Host, name: string, resType: nat, id: string, dev: Device)
    requires name in host && Instantiable(resType) && Typed(host[name], resType)
    requires ParseDevid(FqDevid(name, id)).Some? && ParseDevid(FqDevid(name, id)).value.0 == name
    requires FirstLike(DevicesOf(host[name], resType), ParseDevid(FqDevid(name, id)).value.1) == Some(dev)
    ensures DeviceByName(host, FqDevid(name, id), resType) == Some(Instance(resType, FqDevid(name, dev.id), name))
  {
    FirstLikeIsListed(DevicesOf(host[name], resType), ParseDevid(FqDevid(name, id)).value.1);
    PublishedOne(dev, name);
  }

  lemma LookupStaysInDomain(host: Host, devid: string, resType: nat)
    requires DeviceByName(host, devid, resType).Some?
    ensures ParseDevid(devid).Some? && ParseDevid(devid).value.0 in host
    ensures Instantiable(resType) && (forall d :: d in host ==> Typed(host[d], resType)) ==>
              DeviceByName(host, devid, resType).value.system == ParseDevid(devid).value.0
  {
    var (dom, device) := ParseDevid(devid).value;
    FirstLikeIsListed(DevicesOf(host[dom], resType), device);
    if Instantiable(resType) && forall d :: d in host ==> Typed(host[d], resType) {
      PublishedOne(FirstLike(DevicesOf(host[dom], resType), device).value, dom);
    }
  }

  lemma SameLength(a: string, b: string)
    ensures EqNoCase(a, b) ==> |a| == |b|
  {
    assert |Lower(a)| == |a| && |Lower(b)| == |b|;
  }

  /** A device's published id leads back to its instance exactly when the id can be
      split again and the first device of that id, case aside, has it exactly. */
  lemma DeviceResolves(host: Host, name: string, resType: nat, k: nat)
    requires name in host && Instantiable(resType) && forall d :: d in host ==> Typed(host[d], resType)
    requires k < |DevicesOf(host[name], resType)|
    ensures var devs := DevicesOf(host[name], resType);
            var inst := Instance(resType, FqDevid(name, devs[k].id), name);
            FirstLike(devs, devs[k].id).Some?
            && (DeviceByName(host, inst.deviceId, resType) == Some(inst)
                <==> && name != "" && '/' !in name && devs[k].id != "" && NoSpace(devs[k].id)
                     && FirstLike(devs, devs[k].id).value.id == devs[k].id)
  {
    var devs := DevicesOf(host[name], resType);
    var id := devs[k].id;
    var inst := Instance(resType, FqDevid(name, id), name);
    FirstLikeIsListed(devs, id);
    assert devs[k] in devs;
    DevidRoundTrip(name, id);
    if ParseDevid(inst.deviceId) == Some((name, id)) {
      FoundInDomain(host, name, resType, id, FirstLike(devs, id).value);
      SameSuffix(name, FirstLike(devs, id).value.id, id);
    } else if DeviceByName(host, inst.deviceId, resType) == Some(inst) {
      LookupStaysInDomain(host, inst.deviceId, resType);
      SplitDevice(name, id);
      var p := ParseDevid(inst.deviceId).value.1;
      FirstLikeIsListed(devs, p);
      var found := FirstLike(devs, p).value;
      FoundInDomain(host, name, resType, id, found);
      SameSuffix(name, found.id, id);
      SameLength(p, id);
      assert false;
    }
  }

  lemma LowerDigits(n: nat)
    ensures Lower(Decimal.Digits(n)) == Decimal.Digits(n) && NoSpace(Decimal.Digits(n))
  {
    var s := Decimal.Digits(n);
    assert forall i :: 0 <= i < |s| ==> LowerChar(s[i]) == s[i];
  }

  lemma {:induction false} FirstProc(quantity: nat, i: nat, j: nat)
    requires j <= i < quantity
    ensures FirstLike(ProcDevs(quantity)[j..], Decimal.Digits(i)) == Some(ProcDevs(quantity)[i])
    decreases i - j
  {
    var devs := ProcDevs(quantity);
    assert devs[j..][1..] == devs[j + 1..] && devs[j..][0] == Device(0, Decimal.Digits(j), 0);
    LowerDigits(i);
    LowerDigits(j);
    if j < i {
      FirstProc(quantity, i, j + 1);
      if Decimal.Digits(i) == Decimal.Digits(j) {
        Decimal.DigitsInjective(i, j);
      }
    }
  }

  /** Processors 0 to quantity - 1 all lead back to their instances, for every
      domain name that can be split off. */
  lemma ProcessorResolves(host: Host, name: string, i: nat)
    requires name in host && DevicesOf(host[name], RES_PROC) != []
    requires i < DevicesOf(host[name], RES_PROC)[0].quantity && i < Decimal.I32
    requires name != "" && '/' !in name
    ensures DeviceByName(host, FqDevid(name, Decimal.Digits(i)), RES_PROC) == Some(ProcInstance(name, i))
  {
    var quantity := DevicesOf(host[name], RES_PROC)[0].quantity;
    LowerDigits(i);
    DevidRoundTrip(name, Decimal.Digits(i));
    FirstProc(quantity, i, 0);
    assert ProcDevs(quantity)[0..] == ProcDevs(quantity);
    Decimal.PrintScan(i);
  }

  /** The ids of a list can be told apart and split again. */
  predicate GoodIds(devs: seq<Device>) {
    && (forall d :: d in devs ==> d.id != "" && NoSpace(d.id))
    && (forall i, j :: 0 <= i < j < |devs| ==> !EqNoCase(devs[i].id, devs[j].id))
  }

  lemma {:induction false} ListedIsOf(devs: seq<Device>, name: string, inst: Instance)
    requires inst in Listed(devs, name)
    ensures exists k :: 0 <= k < |devs| && Instantiable(devs[k].resType)
                        && inst == Instance(devs[k].resType, FqDevid(name, devs[k].id), name)
    decreases |devs|
  {
    if Instantiable(devs[0].resType) && inst == Instance(devs[0].resType, FqDevid(name, devs[0].id), name) {
      assert 0 < |devs|;
    } else {
      ListedIsOf(devs[1..], name, inst);
      var k :| 0 <= k < |devs[1..]| && Instantiable(devs[1..][k].resType)
               && inst == Instance(devs[1..][k].resType, FqDevid(name, devs[1..][k].id), name);
      assert devs[1..][k] == devs[k + 1];
    }
  }

  lemma {:induction false} GoodFirst(devs: seq<Device>, k: nat)
    requires GoodIds(devs) && k < |devs|
    ensures FirstLike(devs, devs[k].id) == Some(devs[k])
    decreases |devs|
  {
    if k > 0 {
      assert GoodIds(devs[1..]) by {
        assert forall d :: d in devs[1..] ==> d in devs;
        assert forall i :: 0 <= i < |devs[1..]| ==> devs[1..][i] == devs[i + 1];
      }
      assert devs[1..][k - 1] == devs[k];
      GoodFirst(devs[1..], k - 1);
    }
  }

  /** Every instance that an enumeration of a type publishes is found again under its
      DeviceID, when domain names have no slash and device ids no white space and
      are distinct ignoring case. */
  lemma PublishedResolves(host: Host, name: string, resType: nat, inst: Instance)
    requires name in host && name != "" && '/' !in name
    requires forall d :: d in host ==> Typed(host[d], resType)
    requires var devs := DevicesOf(host[name], resType);
             if resType == RES_PROC then |devs| == 1 && devs[0].quantity <= Decimal.I32 else GoodIds(devs)
    requires inst in Published(DevicesOf(host[name], resType), name)
    ensures DeviceByName(host, inst.deviceId, resType) == Some(inst)
  {
    var devs := DevicesOf(host[name], resType);
    if resType == RES_PROC {
      assert devs[1..] == [] && Listed(devs, name) == [];
      assert ProcCount(devs) == devs[0].quantity;
      var i :| 0 <= i < devs[0].quantity && inst == ProcInstance(name, i);
      ProcessorResolves(host, name, i);
    } else {
      NoProcessors(devs);
      assert inst in Listed(devs, name);
      ListedIsOf(devs, name, inst);
      var k :| 0 <= k < |devs| && Instantiable(devs[k].resType)
               && inst == Instance(devs[k].resType, FqDevid(name, devs[k].id), name);
      assert devs[k] in devs;
      GoodFirst(devs, k);
      DeviceResolves(host, name, resType, k);
    }
  }

  lemma {:induction false} NoProcessors(devs: seq<Device>)
    requires forall d :: d in devs ==> d.resType != RES_PROC
    ensures ProcCount(devs) == 0
    decreases |devs|
  {
    if devs != [] {
      assert devs[|devs| - 1] in devs && forall d :: d in devs[..|devs| - 1] ==> d in devs;
      NoProcessors(devs[..|devs| - 1]);
    }
  }

  /** And nothing is found that an enumeration does not publish: for any DeviceID and
      any type, processors of whatever number included, which a domain has in one
      entry. */
  lemma FoundWasPublished(host: Host, devid: string, resType: nat)
    requires forall d :: d in host ==> Typed(host[d], resType)
    requires resType == RES_PROC ==> forall d :: d in host ==> |DevicesOf(host[d], RES_PROC)| <= 1
    requires DeviceByName(host, devid, resType).Some?
    ensures var inst := DeviceByName(host, devid, resType).value;
            inst.system in host && inst in Published(DevicesOf(host[inst.system], resType), inst.system)
  {
    var (dom, device) := ParseDevid(devid).value;
    var devs := DevicesOf(host[dom], resType);
    if resType == RES_PROC {
      ProcessorFound(host, devid);
    } else {
      FirstLikeIsListed(devs, device);
      var dev := FirstLike(devs, device).value;
      UnknownNotPublished(dev, dom);
      PublishedOne(dev, dom);
      ListedHas(devs, dom, resType, dev);
    }
  }

  lemma UnknownNotPublished(d: Device, name: string)
    requires d.resType != RES_PROC
    ensures Published([d], name) != [] ==> Instantiable(d.resType)
  {
    assert d in [d];
  }

  /** A number too large for an int is read as another one, but never as a number that
      no processor has. */
  lemma NumberRead(i: nat)
    ensures var n := Decimal.ScanInt(Decimal.Digits(i), false); n.Some? && n.value <= i
  {
    Decimal.PrintScanInt(i);
  }

  lemma EntryFound(quantity: nat, device: string)
    requires FirstLike(ProcDevs(quantity), device).Some?
    ensures exists i :: 0 <= i < quantity && FirstLike(ProcDevs(quantity), device).value.id == Decimal.Digits(i)
  {
    var list := ProcDevs(quantity);
    FirstLikeIsListed(list, device);
    var i :| 0 <= i < quantity && FirstLike(list, device).value == list[i];
  }

  lemma ProcessorFound(host: Host, devid: string)
    requires forall d :: d in host ==> |DevicesOf(host[d], RES_PROC)| <= 1 && Typed(host[d], RES_PROC)
    requires DeviceByName(host, devid, RES_PROC).Some?
    ensures var inst := DeviceByName(host, devid, RES_PROC).value;
            inst.system in host && inst in Published(DevicesOf(host[inst.system], RES_PROC), inst.system)
  {
    var (dom, device) := ParseDevid(devid).value;
    var devs := DevicesOf(host[dom], RES_PROC);
    assert devs == [devs[0]] && devs[0] in devs;
    OneEntry(devs[0], dom);
    NumberFound(devs[0].quantity, dom, device);
  }

  lemma NumberFound(quantity: nat, name: string, device: string)
    ensures var dev := FirstLike(ProcDevs(quantity), device);
            dev.Some? ==>
              var n := Decimal.ScanInt(dev.value.id, false);
              n.Some? && (n.value >= 0 ==> ProcInstance(name, n.value) in ProcInstances(name, quantity))
  {
    var dev := FirstLike(ProcDevs(quantity), device);
    if dev.Some? {
      EntryFound(quantity, device);
      var i :| 0 <= i < quantity && dev.value.id == Decimal.Digits(i);
      NumberRead(i);
      var n := Decimal.ScanInt(dev.value.id, false).value;
      if n >= 0 {
        assert ProcInstances(name, quantity)[n] == ProcInstance(name, n);
      }
    }
  }

  lemma OneEntry(d: Device, name: string)
    requires d.resType == RES_PROC
    ensures Published([d], name) == ProcInstances(name, d.quantity)
  {
    assert [d][1..] == [] && Listed([d], name) == [];
  }

  lemma {:induction false} ListedHas(devs: seq<Device>, name: string, resType: nat, d: Device)
    requires Instantiable(resType) && (forall e :: e in devs ==> e.resType == resType) && d in devs
    ensures Instance(resType, FqDevid(name, d.id), name) in Listed(devs, name)
    decreases |devs|
  {
    assert devs[0] in devs && forall e :: e in devs <==> e == devs[0] || e in devs[1..];
    if d != devs[0] {
      ListedHas(devs[1..], name, resType, d);
    }
  }

  // ----- what is published and found, in plain terms

  /** The types with an instance of their own, by number. */
  lemma TypesExactly(resType: nat)
    ensures Instantiable(resType) <==> resType in {4, 10, 13, 17, 24, 32769, 32771}
  {
  }

  function OneEach(devs: seq<Device>, name: string): (r: seq<Instance>)
    ensures |r| == |devs|
    ensures forall i :: 0 <= i < |devs| ==> r[i] == Instance(devs[i].resType, name + "/" + devs[i].id, name)
  {
    seq(|devs|, i requires 0 <= i < |devs| => Instance(devs[i].resType, name + "/" + devs[i].id, name))
  }

  function Numbered(name: string, n: nat): (r: seq<Instance>)
    ensures |r| == n
    ensures forall i :: 0 <= i < n ==> r[i] == Instance(3, name + "/" + Decimal.Digits(i), name)
  {
    seq(n, i requires 0 <= i < n => Instance(3, name + "/" + Decimal.Digits(i), name))
  }

  predicate AllInstantiable(devs: seq<Device>) {
    forall i :: 0 <= i < |devs| ==> Instantiable(devs[i].resType)
  }

  lemma {:induction false} ListedConcat(a: seq<Device>, b: seq<Device>, name: string)
    requires AllInstantiable(a)
    ensures Listed(a + b, name) == OneEach(a, name) + Listed(b, name)
    decreases |a|
  {
    if a == [] {
      assert a + b == b && [] + Listed(b, name) == Listed(b, name);
    } else {
      assert Instantiable(a[0].resType) && forall i :: 0 <= i < |a[1..]| ==> a[1..][i] == a[i + 1];
      assert (a + b)[0] == a[0] && (a + b)[1..] == a[1..] + b;
      ListedConcat(a[1..], b, name);
      var one := [Instance(a[0].resType, name + "/" + a[0].id, name)];
      assert OneEach(a, name) == one + OneEach(a[1..], name);
      Associative(one, OneEach(a[1..], name), Listed(b, name));
    }
  }

  lemma {:induction false} CountOfLast(a: seq<Device>, p: Device, b: seq<Device>)
    requires AllInstantiable(b) && p.resType == RES_PROC
    ensures ProcCount(a + [p] + b) == p.quantity
    decreases |b|
  {
    var all := a + [p] + b;
    if b == [] {
      assert all[|all| - 1] == p;
    } else {
      var rest := b[..|b| - 1];
      assert all[|all| - 1] == b[|b| - 1] && all[..|all| - 1] == a + [p] + rest;
      assert Instantiable(b[|b| - 1].resType);
      CountOfLast(a, p, rest);
    }
  }

  /** Devices give one instance each, in order, under the domain's name and their id;
      the processor entry among them as many as it counts, after all others. */
  lemma PublishedExactly(a: seq<Device>, p: Device, b: seq<Device>, name: string)
    requires AllInstantiable(a) && AllInstantiable(b) && p.resType == 3
    ensures Published(a + [p] + b, name) == OneEach(a, name) + OneEach(b, name) + Numbered(name, p.quantity)
    ensures Published(a, name) == OneEach(a, name)
  {
    var all := a + [p] + b;
    assert all == a + ([p] + b) && ([p] + b)[1..] == b && b + [] == b && a + [] == a;
    ListedConcat(a, [p] + b, name);
    ListedConcat(b, [], name);
    ListedConcat(a, [], name);
    assert OneEach(b, name) + [] == OneEach(b, name) && OneEach(a, name) + [] == OneEach(a, name);
    CountOfLast(a, p, b);
    NoProcessors(a);
    assert AllKnown(all);
    assert ProcInstances(name, p.quantity) == Numbered(name, p.quantity);
  }

  /** A device of unknown type ends the enumeration, processors included. */
  lemma UnknownEnds(a: seq<Device>, u: Device, b: seq<Device>, name: string)
    requires AllInstantiable(a) && !Instantiable(u.resType) && u.resType != 3
    ensures Published(a + [u] + b, name) == OneEach(a, name)
  {
    var all := a + [u] + b;
    assert all == a + ([u] + b) && u in all;
    ListedConcat(a, [u] + b, name);
    assert OneEach(a, name) + [] == OneEach(a, name);
  }

  /** The device found is the first whose id is the one asked for but for the case. */
  lemma {:induction false} FirstLikeExactly(devs: seq<Device>, id: string, i: nat)
    requires forall j :: 0 <= j < i && j < |devs| ==> !EqNoCase(id, devs[j].id)
    ensures i < |devs| && EqNoCase(id, devs[i].id) ==> FirstLike(devs, id) == Some(devs[i])
    ensures |devs| <= i ==> FirstLike(devs, id).None?
    decreases |devs|
  {
    if devs != [] && i > 0 {
      assert forall j :: 0 <= j < |devs[1..]| ==> devs[1..][j] == devs[j + 1];
      FirstLikeExactly(devs[1..], id, i - 1);
    }
  }
}
