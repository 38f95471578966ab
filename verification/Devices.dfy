/** Virtual devices (libxkutil/device_parsing.h) and what printing and parsing
    them has in common. */
module Devices {
  import opened Prelude
  import opened Xml

  const RES_PROC := 3
  const RES_MEM := 4
  const RES_NET := 10
  const RES_INPUT := 13
  const RES_DISK := 17
  const RES_GRAPHICS := 24
  const RES_UNKNOWN := 1000
  const RES_CONSOLE := 32769
  const RES_EMU := 32770
  const RES_CONTROLLER := 32771

  /** struct virt_device with one member of its union. */
  datatype Dev<T> = Dev(resType: nat, dev: T, id: Option<string>)

  // ----- device addresses: key/value lists kept as attributes

  function AddressKids(a: seq<Attr>): seq<Tree> {
    if a == [] then [] else [Leaf("address", a)]
  }

  /** parse_device_address: each attribute's name, and the value found for that name. */
  function ReadAddress(attrs: seq<Attr>, rest: seq<Attr>): seq<Attr> {
    if rest == [] then []
    else [Attr(rest[0].key, Lookup(attrs, rest[0].key).GetOr(""))] + ReadAddress(attrs, rest[1..])
  }

  function AddressOf(x: Tree): seq<Attr> {
    if x.Element? then ReadAddress(x.attrs, x.attrs) else []
  }

  lemma {:induction false} LookupFirst(a: seq<Attr>, i: nat)
    requires DistinctKeys(a) && i < |a|
    ensures Lookup(a, a[i].key) == Some(a[i].val)
    decreases |a|
  {
    if i > 0 {
      assert a[1..][i - 1] == a[i];
      LookupFirst(a[1..], i - 1);
    }
  }

  lemma {:induction false} ReadAddressFrom(a: seq<Attr>, k: nat)
    requires DistinctKeys(a) && k <= |a|
    ensures ReadAddress(a, a[k..]) == a[k..]
    decreases |a| - k
  {
    if k < |a| {
      LookupFirst(a, k);
      ReadAddressFrom(a, k + 1);
      assert a[k..][1..] == a[k + 1..];
    }
  }

  /** An address with distinct keys is read back in order. */
  lemma AddressRoundTrip(a: seq<Attr>)
    requires DistinctKeys(a)
    ensures AddressOf(Leaf("address", a)) == a
  {
    ReadAddressFrom(a, 0);
    assert a[0..] == a;
  }

  lemma AddressWellFormed(a: seq<Attr>)
    ensures AllWellFormed(AddressKids(a)) <==> DistinctKeys(a)
  {
    if a != [] {
      assert Leaf("address", a) in AddressKids(a);
    }
  }

  /** device_address_xml */
  method DeviceAddressXml(root: Builder, addr: seq<Attr>)
    modifies root`kids
    ensures root.kids == old(root.kids) + AddressKids(addr)
  {
    if |addr| == 0 {
      return;
    }
    var address := new Builder("address");
    for i := 0 to |addr|
      invariant address.attrs == addr[..i] && address.kids == [] && root.kids == old(root.kids)
    {
      address.NewProp(addr[i].key, Some(addr[i].val));
    }
    assert addr[..|addr|] == addr;
    root.AddChild(address.Built());
  }

  /** parse_device_address on an <address> element. */
  method ParseDeviceAddress(x: Tree, addr: seq<Attr>) returns (r: seq<Attr>)
    ensures r == addr + AddressOf(x)
  {
    r := addr;
    if x.Text? {
      return;
    }
    for i := 0 to |x.attrs|
      invariant addr + AddressOf(x) == r + ReadAddress(x.attrs, x.attrs[i..])
    {
      assert x.attrs[i..][1..] == x.attrs[i + 1..];
      var value := GetAttr(x, x.attrs[i].key);
      r := r + [Attr(x.attrs[i].key, value.GetOr(""))];
    }
    assert x.attrs[|x.attrs|..] == [] && r + [] == r;
  }

  // ----- lists of devices

  /** The printing loops: devices marked unknown are skipped, an unprintable one
      makes the whole print fail. */
  function PrintAll<T>(devs: seq<Dev<T>>, elem: T -> Option<Tree>): Option<seq<Tree>> {
    if devs == [] then Some([])
    else if devs[0].resType == RES_UNKNOWN then PrintAll(devs[1..], elem)
    else
      var x := elem(devs[0].dev);
      var rest := PrintAll(devs[1..], elem);
      if x.None? || rest.None? then None else Some([x.value] + rest.value)
  }

  /** Where a printing loop stands: with the rest printed, the parent's children
      will be those it had and everything printed. */
  ghost predicate Printing(all: Option<seq<Tree>>, rest: Option<seq<Tree>>, was: seq<Tree>, kids: seq<Tree>) {
    all.Some? == rest.Some? && (all.Some? ==> was + all.value == kids + rest.value)
  }

  lemma PrintNext<T>(devs: seq<Dev<T>>, i: nat, elem: T -> Option<Tree>, was: seq<Tree>, kids: seq<Tree>)
    requires i < |devs|
    requires Printing(PrintAll(devs, elem), PrintAll(devs[i..], elem), was, kids)
    ensures devs[i].resType == RES_UNKNOWN ==>
              Printing(PrintAll(devs, elem), PrintAll(devs[i + 1..], elem), was, kids)
    ensures devs[i].resType != RES_UNKNOWN ==>
              match elem(devs[i].dev)
              case None => PrintAll(devs, elem).None?
              case Some(x) => Printing(PrintAll(devs, elem), PrintAll(devs[i + 1..], elem), was, kids + [x])
  {
    assert devs[i..][1..] == devs[i + 1..];
    var x, rest := elem(devs[i].dev), PrintAll(devs[i + 1..], elem);
    if devs[i].resType != RES_UNKNOWN && x.Some? && rest.Some? {
      assert kids + ([x.value] + rest.value) == kids + [x.value] + rest.value;
    }
  }

  /** A list nothing of which is skipped or unprintable gives one element each. */
  lemma {:induction false} PrintAllEach<T>(devs: seq<Dev<T>>, elem: T -> Option<Tree>)
    requires forall d :: d in devs ==> d.resType != RES_UNKNOWN && elem(d.dev).Some?
    ensures PrintAll(devs, elem).Some? && |PrintAll(devs, elem).value| == |devs|
    ensures forall i :: 0 <= i < |devs| ==> PrintAll(devs, elem).value[i] == elem(devs[i].dev).value
    decreases |devs|
  {
    if devs != [] {
      assert devs[0] in devs && forall d :: d in devs[1..] ==> d in devs;
      PrintAllEach(devs[1..], elem);
      var rest := PrintAll(devs[1..], elem).value;
      assert PrintAll(devs, elem) == Some([elem(devs[0].dev).value] + rest);
      forall i | 0 < i < |devs| ensures PrintAll(devs, elem).value[i] == elem(devs[i].dev).value {
        assert devs[i] == devs[1..][i - 1] && PrintAll(devs, elem).value[i] == rest[i - 1];
      }
    }
  }

  /** Printing a list and parsing the re-read elements gives the list back
      exactly when it does so for every single device. */
  lemma ListRoundTrip<T>(devs: seq<Dev<T>>, elem: T -> Option<Tree>, parse: Tree -> Option<Dev<T>>, depth: nat)
    requires forall d :: d in devs ==> d.resType != RES_UNKNOWN && elem(d.dev).Some?
    ensures PrintAll(devs, elem).Some?
    ensures ParseAll(ReparseAll(PrintAll(devs, elem).value, depth), parse) == devs
            <==> forall d :: d in devs ==> parse(Reparse(elem(d.dev).value, depth)) == Some(d)
  {
    PrintAllEach(devs, elem);
    var nodes := ReparseAll(PrintAll(devs, elem).value, depth);
    ParseAllExact(nodes, parse, devs);
    if ParseAll(nodes, parse) == devs {
      forall d | d in devs ensures parse(Reparse(elem(d.dev).value, depth)) == Some(d) {
        var i :| 0 <= i < |devs| && devs[i] == d;
        assert parse(nodes[i]) == Some(devs[i]);
      }
    }
  }

  /** The devices that are not marked unknown, the mark of a removed one. */
  function Live<T>(devs: seq<Dev<T>>): (r: seq<Dev<T>>)
    ensures forall d :: d in r ==> d.resType != RES_UNKNOWN
    ensures forall d :: d in r ==> d in devs
  {
    if devs == [] then []
    else if devs[0].resType == RES_UNKNOWN then Live(devs[1..])
    else [devs[0]] + Live(devs[1..])
  }

  lemma {:induction false} LiveHas<T>(devs: seq<Dev<T>>, i: nat)
    requires i < |devs| && devs[i].resType != RES_UNKNOWN
    ensures devs[i] in Live(devs)
    decreases |devs|
  {
    if i > 0 {
      assert devs[1..][i - 1] == devs[i];
      LiveHas(devs[1..], i - 1);
    }
  }

  lemma {:induction false} LiveIsPrinted<T>(devs: seq<Dev<T>>, elem: T -> Option<Tree>)
    ensures PrintAll(devs, elem) == PrintAll(Live(devs), elem)
    ensures PrintAll(devs, elem).Some? <==> forall d :: d in Live(devs) ==> elem(d.dev).Some?
    decreases |devs|
  {
    if devs != [] {
      LiveIsPrinted(devs[1..], elem);
      if devs[0].resType != RES_UNKNOWN {
        var rest := Live(devs[1..]);
        assert Live(devs)[0] == devs[0] && Live(devs)[1..] == rest;
        assert forall d :: d in Live(devs) <==> d == devs[0] || d in rest;
      }
    }
  }

  /** Whatever was removed is gone, and the rest of the list comes back exactly
      when every device in it does. */
  lemma LiveRoundTrip<T>(devs: seq<Dev<T>>, elem: T -> Option<Tree>, parse: Tree -> Option<Dev<T>>, depth: nat)
    requires PrintAll(devs, elem).Some?
    ensures forall d :: d in Live(devs) ==> elem(d.dev).Some?
    ensures ParseAll(ReparseAll(PrintAll(devs, elem).value, depth), parse) == Live(devs)
            <==> forall d :: d in Live(devs) ==> parse(Reparse(elem(d.dev).value, depth)) == Some(d)
  {
    LiveIsPrinted(devs, elem);
    ListRoundTrip(Live(devs), elem, parse, depth);
  }

  predicate Named(kids: seq<Tree>, names: set<string>) {
    forall k :: k in kids ==> k.Element? && k.name in names
  }

  lemma {:induction false} PrintAllNamed<T(!new)>(devs: seq<Dev<T>>, elem: T -> Option<Tree>, names: set<string>)
    requires forall t: T :: elem(t).Some? ==> elem(t).value.Element? && elem(t).value.name in names
    requires PrintAll(devs, elem).Some?
    ensures Named(PrintAll(devs, elem).value, names)
    decreases |devs|
  {
    if devs != [] {
      PrintAllNamed(devs[1..], elem, names);
    }
  }

  lemma {:induction false} PrintAllWellFormed<T(!new)>(devs: seq<Dev<T>>, elem: T -> Option<Tree>, good: T -> bool)
    requires forall t: T :: elem(t).Some? ==> (WellFormed(elem(t).value) <==> good(t))
    requires PrintAll(devs, elem).Some?
    ensures AllWellFormed(PrintAll(devs, elem).value) <==> forall d :: d in Live(devs) ==> good(d.dev)
    decreases |devs|
  {
    if devs != [] {
      PrintAllWellFormed(devs[1..], elem, good);
      if devs[0].resType != RES_UNKNOWN {
        var rest, x := PrintAll(devs[1..], elem).value, elem(devs[0].dev).value;
        AllWellFormedConcat([x], rest);
        assert AllWellFormed([x]) <==> WellFormed(x) by { assert x in [x]; }
        assert forall d :: d in Live(devs) <==> d == devs[0] || d in Live(devs[1..]);
      }
    }
  }
}
