/** libxkutil/capability_parsing.c: reading libvirt's capabilities, merging each
    architecture's defaults into its domains, and looking defaults up. */
module Capabilities {
  import opened Prelude
  import opened Decimal
  import opened Xml

  datatype Machine = Machine(name: string, canonical: Option<string>)

  datatype Info = Info(emulator: Option<string>, loader: Option<string>, machines: seq<Machine>)

  datatype Domain = Domain(typestr: Option<string>, info: Info)

  datatype Arch = Arch(name: Option<string>, wordsize: nat, defaults: Info, domains: seq<Domain>)

  datatype Guest = Guest(ostype: Option<string>, arch: Arch)

  const NO_INFO := Info(None, None, [])

  // ----- parsing

  function InfoStep(info: Info, kid: Tree): Info {
    if Name(kid) == "emulator" then info.(emulator := Some(Content(kid)))
    else if Name(kid) == "loader" then info.(loader := Some(Content(kid)))
    else if Name(kid) == "machine" then
      info.(machines := info.machines + [Machine(Content(kid), GetAttr(kid, "canonical"))])
    else info
  }

  function InfoFrom(info: Info, kids: seq<Tree>): Info
    decreases |kids|
  {
    if kids == [] then info else InfoFrom(InfoStep(info, kids[0]), kids[1..])
  }

  function ParseDomain(x: Tree): Domain {
    Domain(GetAttr(x, "type"), if x.Element? then InfoFrom(NO_INFO, x.kids) else NO_INFO)
  }

  /** "%i" into an unsigned int, 0 for garbage. */
  function ParseWordsize(x: Tree): nat {
    ScanInt(Content(x), true).GetOr(0) % U32
  }

  function ArchStep(arch: Arch, kid: Tree): Arch {
    if Name(kid) == "wordsize" then arch.(wordsize := ParseWordsize(kid))
    else if Name(kid) == "domain" then arch.(domains := arch.domains + [ParseDomain(kid)])
    else arch.(defaults := InfoStep(arch.defaults, kid))
  }

  function ArchFrom(arch: Arch, kids: seq<Tree>): Arch
    decreases |kids|
  {
    if kids == [] then arch else ArchFrom(ArchStep(arch, kids[0]), kids[1..])
  }

  /** extend_cap_machines and the branches of parse_cap_domain_info. */
  method ParseDomainInfo(info: Info, kid: Tree) returns (r: Info)
    ensures r == InfoStep(info, kid)
  {
    r := info;
    if Name(kid) == "emulator" {
      r := r.(emulator := Some(Content(kid)));
    } else if Name(kid) == "loader" {
      r := r.(loader := Some(Content(kid)));
    } else if Name(kid) == "machine" {
      r := r.(machines := r.machines + [Machine(Content(kid), GetAttr(kid, "canonical"))]);
    }
  }

  method ParseCapDomain(x: Tree) returns (r: Domain)
    requires x.Element?
    ensures r == ParseDomain(x)
  {
    r := Domain(GetAttr(x, "type"), NO_INFO);
    for i := 0 to |x.kids|
      invariant r.typestr == GetAttr(x, "type")
      invariant InfoFrom(NO_INFO, x.kids) == InfoFrom(r.info, x.kids[i..])
    {
      assert x.kids[i..][1..] == x.kids[i + 1..];
      var info := ParseDomainInfo(r.info, x.kids[i]);
      r := r.(info := info);
    }
  }

  /** parse_cap_arch */
  method ParseCapArch(arch: Arch, x: Tree) returns (r: Arch)
    requires x.Element?
    ensures r == ArchFrom(arch.(name := GetAttr(x, "name")), x.kids)
  {
    r := arch.(name := GetAttr(x, "name"));
    ghost var r0 := r;
    for i := 0 to |x.kids|
      invariant ArchFrom(r0, x.kids) == ArchFrom(r, x.kids[i..])
    {
      var kid := x.kids[i];
      assert x.kids[i..][1..] == x.kids[i + 1..];
      if Name(kid) == "wordsize" {
        r := r.(wordsize := ParseWordsize(kid));
      } else if Name(kid) == "domain" {
        var d := ParseCapDomain(kid);
        r := r.(domains := r.domains + [d]);
      } else {
        var info := ParseDomainInfo(r.defaults, kid);
        r := r.(defaults := info);
      }
    }
  }

  /** The children that describe the architecture's own defaults. */
  function DefaultKids(kids: seq<Tree>): seq<Tree> {
    if kids == [] then []
    else if Name(kids[0]) == "wordsize" || Name(kids[0]) == "domain" then DefaultKids(kids[1..])
    else [kids[0]] + DefaultKids(kids[1..])
  }

  function ParseDomains(nodes: seq<Tree>): seq<Domain> {
    if nodes == [] then [] else [ParseDomain(nodes[0])] + ParseDomains(nodes[1..])
  }

  function LastWordsize(nodes: seq<Tree>, w: nat): nat {
    if nodes == [] then w else LastWordsize(nodes[1..], ParseWordsize(nodes[0]))
  }

  lemma DomainFirst(kids: seq<Tree>)
    requires kids != [] && Name(kids[0]) == "domain"
    ensures ParseDomains(Select(kids, {"domain"}))
            == [ParseDomain(kids[0])] + ParseDomains(Select(kids[1..], {"domain"}))
  {
    assert Select(kids, {"domain"})[1..] == Select(kids[1..], {"domain"});
  }

  /** The one loop over mixed children computes three independent results. */
  lemma {:induction false} ArchIsSorted(arch: Arch, kids: seq<Tree>)
    ensures ArchFrom(arch, kids)
            == Arch(arch.name, LastWordsize(Select(kids, {"wordsize"}), arch.wordsize),
                    InfoFrom(arch.defaults, DefaultKids(kids)), arch.domains + ParseDomains(Select(kids, {"domain"})))
    decreases |kids|
  {
    if kids == [] {
      assert arch.domains + [] == arch.domains;
    } else {
      ArchIsSorted(ArchStep(arch, kids[0]), kids[1..]);
      if Name(kids[0]) == "domain" {
        DomainFirst(kids);
        Associative(arch.domains, [ParseDomain(kids[0])], ParseDomains(Select(kids[1..], {"domain"})));
      } else if Name(kids[0]) == "wordsize" {
        assert Select(kids, {"wordsize"})[1..] == Select(kids[1..], {"wordsize"});
      }
    }
  }

  /** How defaults, word size and domain elements interleave below <arch> makes
      no difference. */
  lemma InterleavingIrrelevant(arch: Arch, a: seq<Tree>, b: seq<Tree>)
    requires Select(a, {"domain"}) == Select(b, {"domain"})
    requires Select(a, {"wordsize"}) == Select(b, {"wordsize"})
    requires DefaultKids(a) == DefaultKids(b)
    ensures ArchFrom(arch, a) == ArchFrom(arch, b)
  {
    ArchIsSorted(arch, a);
    ArchIsSorted(arch, b);
  }

  // ----- what the children say, name by name

  function LastContent(nodes: seq<Tree>): Option<string> {
    if nodes == [] then None else Some(Content(nodes[|nodes| - 1]))
  }

  lemma {:induction false} ContentsExactly(info: Info, kids: seq<Tree>)
    ensures var r := InfoFrom(info, kids);
            && r.emulator == OrElse(LastContent(Select(kids, {"emulator"})), info.emulator)
            && r.loader == OrElse(LastContent(Select(kids, {"loader"})), info.loader)
    decreases |kids|
  {
    if kids != [] {
      ContentsExactly(InfoStep(info, kids[0]), kids[1..]);
      LastFirst(kids, "emulator");
      LastFirst(kids, "loader");
    }
  }

  function Machines(nodes: seq<Tree>): (r: seq<Machine>)
    ensures |r| == |nodes|
    ensures forall i :: 0 <= i < |nodes| ==> r[i] == Machine(Content(nodes[i]), GetAttr(nodes[i], "canonical"))
  {
    seq(|nodes|, i requires 0 <= i < |nodes| => Machine(Content(nodes[i]), GetAttr(nodes[i], "canonical")))
  }

  lemma {:induction false} MachinesExactly(info: Info, kids: seq<Tree>)
    ensures InfoFrom(info, kids).machines == info.machines + Machines(Select(kids, {"machine"}))
    decreases |kids|
  {
    if kids == [] {
      assert info.machines + [] == info.machines;
    } else {
      MachinesExactly(InfoStep(info, kids[0]), kids[1..]);
      MachinesFirst(info, kids);
      var rest := Select(kids[1..], {"machine"});
      if Name(kids[0]) == "machine" {
        assert Machines([kids[0]] + rest) == Machines([kids[0]]) + Machines(rest);
        Associative(info.machines, Machines([kids[0]]), Machines(rest));
      } else {
        assert [] + rest == rest && info.machines + [] == info.machines;
      }
    }
  }

  lemma LastFirst(kids: seq<Tree>, name: string)
    requires kids != []
    ensures LastContent(Select(kids, {name}))
            == OrElse(LastContent(Select(kids[1..], {name})),
                      if Name(kids[0]) == name && kids[0].Element? then Some(Content(kids[0])) else None)
  {
    var rest := Select(kids[1..], {name});
    if Name(kids[0]) == name && kids[0].Element? {
      assert Select(kids, {name}) == [kids[0]] + rest;
    }
  }

  lemma MachinesFirst(info: Info, kids: seq<Tree>)
    requires kids != []
    ensures Select(kids, {"machine"})
            == (if Name(kids[0]) == "machine" then [kids[0]] else []) + Select(kids[1..], {"machine"})
    ensures InfoStep(info, kids[0]).machines
            == info.machines + if Name(kids[0]) == "machine"
                               then Machines([kids[0]]) else []
  {
  }

  /** A <domain> element: its type, the content of its last emulator and its last
      loader, and all its machines in order, with their canonical names; nothing else
      below it counts. */
  lemma DomainExactly(x: Tree)
    requires x.Element?
    ensures ParseDomain(x)
            == Domain(GetAttr(x, "type"),
                      Info(LastContent(Select(x.kids, {"emulator"})), LastContent(Select(x.kids, {"loader"})),
                           Machines(Select(x.kids, {"machine"}))))
  {
    ContentsExactly(NO_INFO, x.kids);
    MachinesExactly(NO_INFO, x.kids);
    assert [] + Machines(Select(x.kids, {"machine"})) == Machines(Select(x.kids, {"machine"}));
  }

  /** The same of an architecture's defaults, whatever stands between them. */
  lemma DefaultsExactly(arch: Arch, kids: seq<Tree>)
    requires arch.defaults == NO_INFO
    ensures ArchFrom(arch, kids).defaults
            == Info(LastContent(Select(kids, {"emulator"})), LastContent(Select(kids, {"loader"})),
                    Machines(Select(kids, {"machine"})))
  {
    ArchIsSorted(arch, kids);
    ContentsExactly(NO_INFO, DefaultKids(kids));
    MachinesExactly(NO_INFO, DefaultKids(kids));
    DefaultKidsKeep(kids, "emulator");
    DefaultKidsKeep(kids, "loader");
    DefaultKidsKeep(kids, "machine");
    assert [] + Machines(Select(kids, {"machine"})) == Machines(Select(kids, {"machine"}));
  }

  lemma {:induction false} DefaultKidsKeep(kids: seq<Tree>, name: string)
    requires name != "wordsize" && name != "domain"
    ensures Select(DefaultKids(kids), {name}) == Select(kids, {name})
    decreases |kids|
  {
    if kids != [] {
      DefaultKidsKeep(kids[1..], name);
      if Name(kids[0]) != "wordsize" && Name(kids[0]) != "domain" {
        assert DefaultKids(kids)[1..] == DefaultKids(kids[1..]);
      }
    }
  }

  /** The word size is the number written, or 0 for garbage. */
  lemma WordsizeExactly(x: Tree, n: nat)
    ensures n < I32 && Content(x) == Digits(n) ==> ParseWordsize(x) == n
    ensures Content(x) == "" || ('g' <= Content(x)[0] <= 'z') ==> ParseWordsize(x) == 0
  {
    PrintScan(n);
  }

  // ----- merging defaults

  predicate Known(name: string, machines: seq<Machine>) {
    exists i :: 0 <= i < |machines| && EqNoCase(name, machines[i].name)
  }

  /** The defaults whose names, ignoring case, `own` lacks, in order. */
  function Missing(own: seq<Machine>, defaults: seq<Machine>): seq<Machine> {
    if defaults == [] then []
    else if Known(defaults[0].name, own) then Missing(own, defaults[1..])
    else [defaults[0]] + Missing(own, defaults[1..])
  }

  function MergeInfo(defaults: Info, own: Info): Info {
    Info(OrElse(own.emulator, defaults.emulator), OrElse(own.loader, defaults.loader),
         own.machines + Missing(own.machines, defaults.machines))
  }

  function MergeDomains(defaults: Info, ds: seq<Domain>): (r: seq<Domain>)
    ensures |r| == |ds|
    ensures forall i :: 0 <= i < |ds| ==> r[i] == ds[i].(info := MergeInfo(defaults, ds[i].info))
  {
    if ds == [] then []
    else [ds[0].(info := MergeInfo(defaults, ds[0].info))] + MergeDomains(defaults, ds[1..])
  }

  function MergeGuest(g: Guest): Guest {
    g.(arch := g.arch.(domains := MergeDomains(g.arch.defaults, g.arch.domains)))
  }

  /** compare_copy_domain_info_machines: two nested searches over the machines
      `own` had at the start. */
  method CompareCopyMachines(defaults: Info, own: Info) returns (r: Info)
    ensures r == own.(machines := own.machines + Missing(own.machines, defaults.machines))
  {
    r := own;
    var orgL := |own.machines|;
    var defs := defaults.machines;
    for i := 0 to |defs|
      invariant r == own.(machines := r.machines) && own.machines <= r.machines
      invariant own.machines + Missing(own.machines, defs) == r.machines + Missing(own.machines, defs[i..])
    {
      var found := false;
      for j := 0 to orgL
        invariant found <==> exists k :: 0 <= k < j && EqNoCase(defs[i].name, own.machines[k].name)
      {
        if EqNoCase(defs[i].name, r.machines[j].name) {
          found := true;
        }
      }
      assert defs[i..][1..] == defs[i + 1..];
      if !found {
        r := r.(machines := r.machines + [defs[i]]);
      }
    }
  }

  /** struct capabilities */
  class Capabilities {
    var cpuArch: Option<string>
    var guests: array<Guest>

    constructor (cpuArch: Option<string>, guests: seq<Guest>)
      ensures this.cpuArch == cpuArch && fresh(this.guests) && this.guests[..] == guests
    {
      this.cpuArch := cpuArch;
      this.guests := new Guest[|guests|](i requires 0 <= i < |guests| => guests[i]);
    }

    /** extend_defaults_cap_guests, in place */
    method ExtendDefaults()
      modifies guests
      ensures forall i :: 0 <= i < guests.Length ==> guests[i] == MergeGuest(old(guests[i]))
    {
      for i := 0 to guests.Length
        invariant forall k :: 0 <= k < i ==> guests[k] == MergeGuest(old(guests[k]))
        invariant forall k :: i <= k < guests.Length ==> guests[k] == old(guests[k])
      {
        var ds := ExtendArch(guests[i].arch);
        guests[i] := guests[i].(arch := guests[i].arch.(domains := ds));
      }
    }

    /** findDomainInfo */
    method FindDomainInfo(ostype: Option<string>, arch: Option<string>,
                          domtype: Option<string>) returns (r: Option<Info>)
      ensures r == FindInfo(guests[..], ostype, arch, domtype)
    {
      for i := 0 to guests.Length
        invariant FindInfo(guests[..], ostype, arch, domtype) == FindInfo(guests[i..], ostype, arch, domtype)
      {
        assert guests[i..][1..] == guests[i + 1..];
        if Selects(ostype, guests[i].ostype) {
          var ar := guests[i].arch;
          if Selects(arch, ar.name) {
            for j := 0 to |ar.domains|
              invariant FindDomain(ar.domains, domtype) == FindDomain(ar.domains[j..], domtype)
            {
              assert ar.domains[j..][1..] == ar.domains[j + 1..];
              if Selects(domtype, ar.domains[j].typestr) {
                return Some(ar.domains[j].info);
              }
            }
          }
        }
      }
      return None;
    }

    /** _findDefArch */
    method FindDefArch(ostype: string, hostArch: Option<string>) returns (r: Option<string>)
      ensures r == FirstArch(guests[..], ostype, hostArch)
    {
      for i := 0 to guests.Length
        invariant FirstArch(guests[..], ostype, hostArch) == FirstArch(guests[i..], ostype, hostArch)
      {
        assert guests[i..][1..] == guests[i + 1..];
        if Selects(Some(ostype), guests[i].ostype) && Selects(hostArch, guests[i].arch.name) {
          return guests[i].arch.name;
        }
      }
      return None;
    }

    /** get_default_arch: the host's own architecture first. */
    method GetDefaultArch(ostype: Option<string>) returns (r: Option<string>)
      ensures ostype.None? ==> r == None
      ensures ostype.Some? ==>
                r == OrElse(FirstArch(guests[..], ostype.value, cpuArch), FirstArch(guests[..], ostype.value, None))
    {
      r := None;
      if ostype.Some? {
        r := FindDefArch(ostype.value, cpuArch);
        if r.None? {
          r := FindDefArch(ostype.value, None);
        }
      }
    }

    /** get_default_machine: the canonical name where there is one. */
    method GetDefaultMachine(ostype: Option<string>, arch: Option<string>,
                             domtype: Option<string>) returns (r: Option<string>)
      ensures var info := FindInfo(guests[..], ostype, arch, domtype);
              r == if info.None? || info.value.machines == [] then None
                   else OrElse(info.value.machines[0].canonical, Some(info.value.machines[0].name))
    {
      r := None;
      var di := FindDomainInfo(ostype, arch, domtype);
      if di.Some? && |di.value.machines| > 0 {
        var m := di.value.machines[0];
        r := if m.canonical.Some? then m.canonical else Some(m.name);
      }
    }

    /** get_default_emulator */
    method GetDefaultEmulator(ostype: Option<string>, arch: Option<string>,
                              domtype: Option<string>) returns (r: Option<string>)
      ensures r == EmulatorOf(FindInfo(guests[..], ostype, arch, domtype))
    {
      r := None;
      var di := FindDomainInfo(ostype, arch, domtype);
      if di.Some? {
        r := di.value.emulator;
      }
    }
  }

  /** The inner loop of extend_defaults_cap_guests. */
  method ExtendArch(arch: Arch) returns (ds: seq<Domain>)
    ensures ds == MergeDomains(arch.defaults, arch.domains)
  {
    ds := arch.domains;
    for j := 0 to |ds|
      invariant |ds| == |arch.domains|
      invariant forall k :: 0 <= k < j ==> ds[k] == MergeDomains(arch.defaults, arch.domains)[k]
      invariant forall k :: j <= k < |ds| ==> ds[k] == arch.domains[k]
    {
      var info := ds[j].info;
      if info.emulator.None? && arch.defaults.emulator.Some? {
        info := info.(emulator := arch.defaults.emulator);
      }
      if info.loader.None? && arch.defaults.loader.Some? {
        info := info.(loader := arch.defaults.loader);
      }
      info := CompareCopyMachines(arch.defaults, info);
      ds := ds[j := ds[j].(info := info)];
    }
  }

  // ----- looking up

  /** STREQC against what is asked for, where nothing asked for fits everything.  An
      absent name, which libvirt never sends, fits nothing else. */
  predicate Selects(wanted: Option<string>, name: Option<string>) {
    wanted.None? || (name.Some? && EqNoCase(name.value, wanted.value))
  }

  function FindDomain(ds: seq<Domain>, domtype: Option<string>): Option<Info> {
    if ds == [] then None
    else if Selects(domtype, ds[0].typestr) then Some(ds[0].info)
    else FindDomain(ds[1..], domtype)
  }

  function FindInGuest(g: Guest, ostype: Option<string>, arch: Option<string>, domtype: Option<string>): Option<Info> {
    if Selects(ostype, g.ostype) && Selects(arch, g.arch.name) then FindDomain(g.arch.domains, domtype) else None
  }

  function FindInfo(guests: seq<Guest>, ostype: Option<string>, arch: Option<string>,
                    domtype: Option<string>): Option<Info> {
    if guests == [] then None
    else
      var here := FindInGuest(guests[0], ostype, arch, domtype);
      if here.Some? then here else FindInfo(guests[1..], ostype, arch, domtype)
  }

  function FirstArch(guests: seq<Guest>, ostype: string, hostArch: Option<string>): Option<string> {
    if guests == [] then None
    else if Selects(Some(ostype), guests[0].ostype) && Selects(hostArch, guests[0].arch.name) then guests[0].arch.name
    else FirstArch(guests[1..], ostype, hostArch)
  }

  /** What was asked for, where anything was, is there but for the case. */
  predicate Fits(guests: seq<Guest>, i: nat, j: nat, ostype: Option<string>, arch: Option<string>,
                 domtype: Option<string>) {
    && i < |guests| && j < |guests[i].arch.domains|
    && (ostype.Some? ==> guests[i].ostype.Some? && EqNoCase(guests[i].ostype.value, ostype.value))
    && (arch.Some? ==> guests[i].arch.name.Some? && EqNoCase(guests[i].arch.name.value, arch.value))
    && (domtype.Some? ==>
          && guests[i].arch.domains[j].typestr.Some?
          && EqNoCase(guests[i].arch.domains[j].typestr.value, domtype.value))
  }

  ghost predicate FirstFit(guests: seq<Guest>, i: nat, j: nat, ostype: Option<string>, arch: Option<string>,
                           domtype: Option<string>) {
    && Fits(guests, i, j, ostype, arch, domtype)
    && forall k: nat, l: nat :: Fits(guests, k, l, ostype, arch, domtype) ==> i < k || (i == k && j <= l)
  }

  lemma {:induction false} FirstDomain(ds: seq<Domain>, domtype: Option<string>)
    ensures FindDomain(ds, domtype).None? ==> forall j :: 0 <= j < |ds| ==> !Selects(domtype, ds[j].typestr)
    ensures FindDomain(ds, domtype).Some? ==>
              exists j :: 0 <= j < |ds| && FindDomain(ds, domtype).value == ds[j].info
                          && Selects(domtype, ds[j].typestr)
                          && forall l :: 0 <= l < j ==> !Selects(domtype, ds[l].typestr)
    decreases |ds|
  {
    if ds != [] {
      FirstDomain(ds[1..], domtype);
      if !Selects(domtype, ds[0].typestr) {
        assert forall j :: 0 < j < |ds| ==> ds[j] == ds[1..][j - 1];
        if FindDomain(ds, domtype).Some? {
          var j :| 0 <= j < |ds[1..]| && FindDomain(ds, domtype).value == ds[1..][j].info
                   && Selects(domtype, ds[1..][j].typestr)
                   && forall l :: 0 <= l < j ==> !Selects(domtype, ds[1..][l].typestr);
          assert ds[j + 1] == ds[1..][j];
        }
      }
    }
  }

  /** What a look-up gives is what this domain and its architecture have. */
  ghost predicate IsAt(guests: seq<Guest>, i: nat, j: nat, info: Option<Info>, defaults: Option<Info>) {
    && i < |guests| && j < |guests[i].arch.domains|
    && info == Some(guests[i].arch.domains[j].info) && defaults == Some(guests[i].arch.defaults)
  }

  lemma FirstInGuest(guests: seq<Guest>, ostype: Option<string>, arch: Option<string>, domtype: Option<string>)
    requires guests != [] && FindInGuest(guests[0], ostype, arch, domtype).Some?
    ensures exists j: nat :: FirstFit(guests, 0, j, ostype, arch, domtype)
                             && IsAt(guests, 0, j, FindInfo(guests, ostype, arch, domtype),
                                     FindDefaults(guests, ostype, arch, domtype))
  {
    var g := guests[0];
    FirstDomain(g.arch.domains, domtype);
    var j :| 0 <= j < |g.arch.domains|
             && FindInGuest(g, ostype, arch, domtype).value == g.arch.domains[j].info
             && Selects(domtype, g.arch.domains[j].typestr)
             && forall l :: 0 <= l < j ==> !Selects(domtype, g.arch.domains[l].typestr);
    assert FirstFit(guests, 0, j, ostype, arch, domtype);
  }

  lemma {:induction false} FirstInfo(guests: seq<Guest>, ostype: Option<string>, arch: Option<string>,
                                     domtype: Option<string>)
    ensures var r := FindInfo(guests, ostype, arch, domtype);
            && (r.None? ==> forall i: nat, j: nat :: !Fits(guests, i, j, ostype, arch, domtype))
            && (r.Some? ==>
                  exists i: nat, j: nat :: FirstFit(guests, i, j, ostype, arch, domtype)
                                           && IsAt(guests, i, j, r, FindDefaults(guests, ostype, arch, domtype)))
    decreases |guests|
  {
    if guests != [] {
      if FindInGuest(guests[0], ostype, arch, domtype).Some? {
        FirstInGuest(guests, ostype, arch, domtype);
      } else {
        FirstInfo(guests[1..], ostype, arch, domtype);
        FitsLater(guests, ostype, arch, domtype);
        if FindInfo(guests, ostype, arch, domtype).Some? {
          var i: nat, j: nat :| FirstFit(guests[1..], i, j, ostype, arch, domtype)
                                && IsAt(guests[1..], i, j, FindInfo(guests, ostype, arch, domtype),
                                        FindDefaults(guests, ostype, arch, domtype));
          assert FirstFit(guests, i + 1, j, ostype, arch, domtype);
        }
      }
    }
  }

  lemma FitsLater(guests: seq<Guest>, ostype: Option<string>, arch: Option<string>, domtype: Option<string>)
    requires guests != [] && FindInGuest(guests[0], ostype, arch, domtype).None?
    ensures forall j: nat :: !Fits(guests, 0, j, ostype, arch, domtype)
    ensures forall i: nat, j: nat {:trigger Fits(guests, i, j, ostype, arch, domtype)} :: i > 0 ==>
              (Fits(guests, i, j, ostype, arch, domtype) <==> Fits(guests[1..], i - 1, j, ostype, arch, domtype))
    ensures forall i: nat, j: nat {:trigger Fits(guests[1..], i, j, ostype, arch, domtype)} ::
              Fits(guests[1..], i, j, ostype, arch, domtype) <==> Fits(guests, i + 1, j, ostype, arch, domtype)
  {
    FirstDomain(guests[0].arch.domains, domtype);
    assert forall i :: 0 < i < |guests| ==> guests[i] == guests[1..][i - 1];
  }

  /** A look-up finds the first domain, in the order of guests and of their domains,
      that fits in OS type, architecture and type, and nothing exactly when no domain
      fits.  The defaults that go with it are those of its own architecture. */
  lemma FindsFirst(guests: seq<Guest>, ostype: Option<string>, arch: Option<string>, domtype: Option<string>,
                   i: nat, j: nat)
    ensures FindInfo(guests, ostype, arch, domtype).None?
            <==> forall k: nat, l: nat :: !Fits(guests, k, l, ostype, arch, domtype)
    ensures FirstFit(guests, i, j, ostype, arch, domtype) ==>
              && FindInfo(guests, ostype, arch, domtype) == Some(guests[i].arch.domains[j].info)
              && FindDefaults(guests, ostype, arch, domtype) == Some(guests[i].arch.defaults)
  {
    FirstInfo(guests, ostype, arch, domtype);
    if FindInfo(guests, ostype, arch, domtype).Some? {
      var k: nat, l: nat :| FirstFit(guests, k, l, ostype, arch, domtype)
                            && IsAt(guests, k, l, FindInfo(guests, ostype, arch, domtype),
                                    FindDefaults(guests, ostype, arch, domtype));
      assert Fits(guests, k, l, ostype, arch, domtype);
      if FirstFit(guests, i, j, ostype, arch, domtype) {
        assert Fits(guests, i, j, ostype, arch, domtype);
      }
    }
  }

  /** A guest of the OS type and, where one is asked for, the architecture. */
  predicate FitsArch(g: Guest, ostype: string, hostArch: Option<string>) {
    && g.ostype.Some? && EqNoCase(g.ostype.value, ostype)
    && (hostArch.Some? ==> g.arch.name.Some? && EqNoCase(g.arch.name.value, hostArch.value))
  }

  /** The architecture found is that of the first such guest. */
  lemma {:induction false} ArchOfFirst(guests: seq<Guest>, ostype: string, hostArch: Option<string>, i: nat)
    requires forall k :: 0 <= k < i && k < |guests| ==> !FitsArch(guests[k], ostype, hostArch)
    ensures i < |guests| && FitsArch(guests[i], ostype, hostArch) ==>
              FirstArch(guests, ostype, hostArch) == guests[i].arch.name
    ensures |guests| <= i ==> FirstArch(guests, ostype, hostArch).None?
    decreases |guests|
  {
    if guests != [] && i > 0 {
      assert forall k :: 0 <= k < |guests[1..]| ==> guests[1..][k] == guests[k + 1];
      ArchOfFirst(guests[1..], ostype, hostArch, i - 1);
    }
  }

  function EmulatorOf(info: Option<Info>): Option<string> {
    if info.None? then None else info.value.emulator
  }

  // ----- what the merge achieves

  /** Own machines first, then a selection of the defaults; after the merge every
      default is known, and nothing else was added. */
  lemma {:induction false} MergeIsExact(own: seq<Machine>, defaults: seq<Machine>)
    ensures forall m :: m in Missing(own, defaults) <==> m in defaults && !Known(m.name, own)
    ensures forall d :: d in defaults ==> Known(d.name, own + Missing(own, defaults))
    decreases |defaults|
  {
    if defaults != [] {
      var rest := Missing(own, defaults[1..]);
      MergeIsExact(own, defaults[1..]);
      assert defaults == [defaults[0]] + defaults[1..];
      forall d | d in defaults ensures Known(d.name, own + Missing(own, defaults)) {
        if Known(d.name, own) {
          var i :| 0 <= i < |own| && EqNoCase(d.name, own[i].name);
          assert (own + Missing(own, defaults))[i] == own[i];
        } else {
          assert d in Missing(own, defaults);
          var i :| 0 <= i < |Missing(own, defaults)| && Missing(own, defaults)[i] == d;
          assert (own + Missing(own, defaults))[|own| + i] == d;
        }
      }
    }
  }

  lemma {:induction false} NothingMissing(own: seq<Machine>, defaults: seq<Machine>)
    requires forall d :: d in defaults ==> Known(d.name, own)
    ensures Missing(own, defaults) == []
    decreases |defaults|
  {
    if defaults != [] {
      assert defaults[0] in defaults && forall d :: d in defaults[1..] ==> d in defaults;
      NothingMissing(own, defaults[1..]);
    }
  }

  /** A second merge changes nothing. */
  lemma MergeIsIdempotent(g: Guest)
    ensures MergeGuest(MergeGuest(g)) == MergeGuest(g)
  {
    var (defs, ds) := (g.arch.defaults, g.arch.domains);
    var once := MergeDomains(defs, ds);
    forall i | 0 <= i < |ds| ensures MergeDomains(defs, once)[i] == once[i] {
      MergeIsExact(ds[i].info.machines, defs.machines);
      NothingMissing(once[i].info.machines, defs.machines);
      assert once[i].info.machines + [] == once[i].info.machines;
    }
    assert MergeDomains(defs, once) == once;
  }

  function MergeAll(guests: seq<Guest>): (r: seq<Guest>)
    ensures |r| == |guests| && forall i :: 0 <= i < |guests| ==> r[i] == MergeGuest(guests[i])
  {
    if guests == [] then [] else [MergeGuest(guests[0])] + MergeAll(guests[1..])
  }

  /** The defaults of the architecture in which the look-up finds its domain. */
  function FindDefaults(guests: seq<Guest>, ostype: Option<string>, arch: Option<string>,
                        domtype: Option<string>): Option<Info> {
    if guests == [] then None
    else if FindInGuest(guests[0], ostype, arch, domtype).Some? then Some(guests[0].arch.defaults)
    else FindDefaults(guests[1..], ostype, arch, domtype)
  }

  lemma {:induction false} FindDomainMerged(defaults: Info, ds: seq<Domain>, domtype: Option<string>)
    ensures FindDomain(MergeDomains(defaults, ds), domtype)
            == match FindDomain(ds, domtype) case None => None case Some(i) => Some(MergeInfo(defaults, i))
    decreases |ds|
  {
    if ds != [] {
      FindDomainMerged(defaults, ds[1..], domtype);
    }
  }

  lemma FindInGuestMerged(g: Guest, ostype: Option<string>, arch: Option<string>, domtype: Option<string>)
    ensures FindInGuest(MergeGuest(g), ostype, arch, domtype)
            == match FindInGuest(g, ostype, arch, domtype)
               case None => None
               case Some(i) => Some(MergeInfo(g.arch.defaults, i))
  {
    FindDomainMerged(g.arch.defaults, g.arch.domains, domtype);
  }

  /** After the merge a look-up finds the same domain as before, with its
      architecture's defaults merged in. */
  lemma {:induction false} FindInfoMerged(guests: seq<Guest>, ostype: Option<string>,
                                          arch: Option<string>, domtype: Option<string>)
    ensures var info := FindInfo(guests, ostype, arch, domtype);
            var defs := FindDefaults(guests, ostype, arch, domtype);
            && (info.Some? <==> defs.Some?)
            && FindInfo(MergeAll(guests), ostype, arch, domtype)
               == if info.Some? then Some(MergeInfo(defs.value, info.value)) else None
    decreases |guests|
  {
    if guests != [] {
      FindInfoMerged(guests[1..], ostype, arch, domtype);
      FindInGuestMerged(guests[0], ostype, arch, domtype);
      assert MergeAll(guests)[1..] == MergeAll(guests[1..]);
    }
  }

  /** get_default_emulator is non-NULL exactly when the look-up finds a domain
      and that domain or its architecture names an emulator. */
  lemma EmulatorExactly(guests: seq<Guest>, ostype: Option<string>, arch: Option<string>, domtype: Option<string>)
    ensures EmulatorOf(FindInfo(MergeAll(guests), ostype, arch, domtype))
            == OrElse(EmulatorOf(FindInfo(guests, ostype, arch, domtype)),
                      EmulatorOf(FindDefaults(guests, ostype, arch, domtype)))
  {
    FindInfoMerged(guests, ostype, arch, domtype);
  }

  /** So after the merge the default loader is the domain's own, else its
      architecture's, and the default machine is the first of its own, else the
      first of its architecture's. */
  lemma DefaultsReach(guests: seq<Guest>, ostype: Option<string>, arch: Option<string>, domtype: Option<string>,
                      i: nat, j: nat)
    requires FirstFit(guests, i, j, ostype, arch, domtype)
    ensures var merged := FindInfo(MergeAll(guests), ostype, arch, domtype);
            var (own, defaults) := (guests[i].arch.domains[j].info, guests[i].arch.defaults);
            && merged.Some?
            && merged.value.emulator == (if own.emulator.Some? then own.emulator else defaults.emulator)
            && merged.value.loader == (if own.loader.Some? then own.loader else defaults.loader)
            && own.machines <= merged.value.machines
            && (own.machines == [] && defaults.machines != [] ==>
                  merged.value.machines != [] && merged.value.machines[0] == defaults.machines[0])
            && forall m :: m in merged.value.machines[|own.machines|..]
                           <==> m in defaults.machines && !Known(m.name, own.machines)
  {
    FindsFirst(guests, ostype, arch, domtype, i, j);
    FindInfoMerged(guests, ostype, arch, domtype);
    var (own, defaults) := (guests[i].arch.domains[j].info, guests[i].arch.defaults);
    MergeIsExact(own.machines, defaults.machines);
    assert (own.machines + Missing(own.machines, defaults.machines))[|own.machines|..]
        == Missing(own.machines, defaults.machines);
  }
}
