/** Consoles: console_xml of libxkutil/xmlgen.c against parse_console_device of
    libxkutil/device_parsing.c. */
module ConsoleXml {
  import opened Prelude
  import opened Xml
  import opened Devices

  /** source_type with the member of the union that it selects. */
  datatype Source =
    | NullDev | Vc | Stdio | SpiceVmc
    | Pty(path: Option<string>)
    | HostDev(path: Option<string>)
    | File(path: Option<string>)
    | Pipe(path: Option<string>)
    | UnixSock(sockMode: Option<string>, sockPath: Option<string>)
    | Udp(bindHost: Option<string>, bindService: Option<string>,
          connectHost: Option<string>, connectService: Option<string>)
    | Tcp(mode: Option<string>, host: Option<string>, service: Option<string>, protocol: Option<string>)
    | Unsupported

  datatype Console = Console(source: Source, targetType: Option<string>)

  /** chardev_source_type_IDToStr */
  function SourceName(s: Source): Option<string> {
    match s
    case NullDev => Some("null")
    case Vc => Some("vc")
    case Stdio => Some("stdio")
    case SpiceVmc => Some("spicevmc")
    case Pty(_) => Some("pty")
    case HostDev(_) => Some("dev")
    case File(_) => Some("file")
    case Pipe(_) => Some("pipe")
    case UnixSock(_, _) => Some("unix")
    case Udp(_, _, _, _) => Some("udp")
    case Tcp(_, _, _, _) => Some("tcp")
    case Unsupported => None
  }

  /** A zeroed source of the type with this lower-case name. */
  function Blank(name: string): Source {
    if name == "null" then NullDev
    else if name == "vc" then Vc
    else if name == "pty" then Pty(None)
    else if name == "dev" then HostDev(None)
    else if name == "file" then File(None)
    else if name == "pipe" then Pipe(None)
    else if name == "stdio" then Stdio
    else if name == "udp" then Udp(None, None, None, None)
    else if name == "tcp" then Tcp(None, None, None, None)
    else if name == "unix" then UnixSock(None, None)
    else if name == "spicevmc" then SpiceVmc
    else Unsupported
  }

  /** chardev_source_type_StrToID ignores case. */
  function SourceOf(typeName: string): Source {
    Blank(Lower(typeName))
  }

  // ----- what is printed

  function Endpoint(mode: string, host: Option<string>, service: Option<string>): Tree {
    Leaf("source", Prop("mode", mode) + Prop("host", TextOf(host)) + OptAttr("service", service))
  }

  function SourceKids(s: Source): seq<Tree> {
    match s
    case Pty(path) => OptLeaf("source", "path", path)
    case HostDev(path) => [Leaf("source", Prop("path", TextOf(path)))]
    case File(path) => [Leaf("source", Prop("path", TextOf(path)))]
    case Pipe(path) => [Leaf("source", Prop("path", TextOf(path)))]
    case UnixSock(mode, path) => [Leaf("source", Prop("mode", TextOf(mode)) + Prop("path", TextOf(path)))]
    case Udp(bh, bs, ch, cs) => [Endpoint("bind", bh, bs), Endpoint("connect", ch, cs)]
    case Tcp(mode, host, service, protocol) =>
      [Endpoint(TextOf(mode), host, service)] + OptLeaf("protocol", "type", protocol)
    case _ => []
  }

  function ConsoleTree(c: Console): Tree {
    Element("console", Prop("type", TextOf(SourceName(c.source))),
            SourceKids(c.source) + OptLeaf("target", "type", c.targetType))
  }

  function ConsoleElement(c: Console): Option<Tree> {
    Some(ConsoleTree(c))
  }

  // ----- what is read

  function UdpStep(s: Source, kid: Tree): Option<Source>
    requires s.Udp?
  {
    match GetAttr(kid, "mode")
    case None => None
    case Some(mode) =>
      if EqNoCase(mode, "bind") then
        Some(s.(bindHost := GetAttr(kid, "host"), bindService := GetAttr(kid, "service")))
      else if EqNoCase(mode, "connect") then
        Some(s.(connectHost := GetAttr(kid, "host"), connectService := GetAttr(kid, "service")))
      else None
  }

  function SourceStep(s: Source, kid: Tree): Option<Source> {
    match s
    case Pty(_) => Some(Pty(GetAttr(kid, "path")))
    case HostDev(_) => Some(HostDev(GetAttr(kid, "path")))
    case File(_) => Some(File(GetAttr(kid, "path")))
    case Pipe(_) => Some(Pipe(GetAttr(kid, "path")))
    case UnixSock(_, _) => Some(UnixSock(GetAttr(kid, "mode"), GetAttr(kid, "path")))
    case Udp(_, _, _, _) => UdpStep(s, kid)
    case Tcp(_, _, _, protocol) =>
      Some(Tcp(GetAttr(kid, "mode"), GetAttr(kid, "host"), GetAttr(kid, "service"), protocol))
    case _ => Some(s)
  }

  /** The console being filled in and the target port found so far. */
  datatype Partial = Partial(console: Console, port: Option<string>)

  function ConsoleStep(p: Partial, kid: Tree): Option<Partial> {
    if Name(kid) == "target" && p.port.None? then
      if GetAttr(kid, "port").None? then None
      else Some(Partial(p.console.(targetType := GetAttr(kid, "type")), GetAttr(kid, "port")))
    else if Name(kid) == "source" then
      match SourceStep(p.console.source, kid)
      case None => None
      case Some(s) => Some(p.(console := p.console.(source := s)))
    else if Name(kid) == "protocol" && p.console.source.Tcp? then
      Some(p.(console := p.console.(source := p.console.source.(protocol := GetAttr(kid, "type")))))
    else Some(p)
  }

  function ConsoleId(port: Option<string>): Option<string> {
    Some("charconsole:" + port.GetOr("(null)"))
  }

  function ConsoleStart(s: Source): Partial {
    Partial(Console(s, None), None)
  }

  /** parse_console_device */
  function ConsoleDevice(x: Tree): Option<Dev<Console>> {
    if x.Text? || GetAttr(x, "type").None? then None
    else
      var s := SourceOf(GetAttr(x, "type").value);
      if s.Unsupported? then None
      else
        match Fold(ConsoleStep, ConsoleStart(s), x.kids)
        case None => None
        case Some(p) => Some(Dev(RES_CONSOLE, p.console, ConsoleId(p.port)))
  }

  // ----- the printing code

  method PathXml(console: Builder, path: Option<string>)
    modifies console`kids
    ensures console.kids == old(console.kids) + [Leaf("source", Prop("path", TextOf(path)))]
  {
    var tmp := new Builder("source");
    tmp.NewProp("path", path);
    assert tmp.attrs == Prop("path", TextOf(path));
    console.AddChild(tmp.Built());
  }

  method EndXml(console: Builder, mode: Option<string>, host: Option<string>, service: Option<string>)
    modifies console`kids
    ensures console.kids == old(console.kids) + [Endpoint(TextOf(mode), host, service)]
  {
    var tmp := new Builder("source");
    tmp.NewProp("mode", mode);
    tmp.NewProp("host", host);
    tmp.NewOptProp("service", service);
    assert tmp.attrs == Endpoint(TextOf(mode), host, service).attrs;
    console.AddChild(tmp.Built());
  }

  method UnixXml(console: Builder, mode: Option<string>, path: Option<string>)
    modifies console`kids
    ensures console.kids == old(console.kids) + SourceKids(UnixSock(mode, path))
  {
    var tmp := new Builder("source");
    tmp.NewProp("mode", mode);
    tmp.NewProp("path", path);
    assert tmp.attrs == Prop("mode", TextOf(mode)) + Prop("path", TextOf(path));
    console.AddChild(tmp.Built());
  }

  method SourceXml(console: Builder, s: Source)
    modifies console`kids
    ensures console.kids == old(console.kids) + SourceKids(s)
  {
    match s
    case Pty(path) => AddOptLeaf(console, "source", "path", path);
    case HostDev(path) => PathXml(console, path);
    case File(path) => PathXml(console, path);
    case Pipe(path) => PathXml(console, path);
    case UnixSock(mode, path) => UnixXml(console, mode, path);
    case Udp(bh, bs, ch, cs) =>
      EndXml(console, Some("bind"), bh, bs);
      EndXml(console, Some("connect"), ch, cs);
    case Tcp(mode, host, service, protocol) =>
      EndXml(console, mode, host, service);
      AddOptLeaf(console, "protocol", "type", protocol);
    case _ => assert console.kids == console.kids + [];
  }

  /** console_xml never fails. */
  method ConsolesXml(root: Builder, devs: seq<Dev<Console>>)
    modifies root`kids
    ensures PrintAll(devs, ConsoleElement).Some?
    ensures root.kids == old(root.kids) + PrintAll(devs, ConsoleElement).value
  {
    AllPrinted(devs);
    for i := 0 to |devs|
      invariant Printing(PrintAll(devs, ConsoleElement), PrintAll(devs[i..], ConsoleElement), old(root.kids), root.kids)
    {
      PrintNext(devs, i, ConsoleElement, old(root.kids), root.kids);
      if devs[i].resType == RES_UNKNOWN {
        continue;
      }
      var cdev := devs[i].dev;
      var console := new Builder("console");
      console.NewProp("type", SourceName(cdev.source));
      SourceXml(console, cdev.source);
      AddOptLeaf(console, "target", "type", cdev.targetType);
      assert console.Built() == ConsoleTree(cdev) by {
        assert console.attrs == Prop("type", TextOf(SourceName(cdev.source)));
      }
      root.AddChild(console.Built());
    }
  }

  lemma {:induction false} AllPrinted(devs: seq<Dev<Console>>)
    ensures PrintAll(devs, ConsoleElement).Some?
    decreases |devs|
  {
    if devs != [] {
      AllPrinted(devs[1..]);
    }
  }

  // ----- the parsing code

  method ParseUdpSource(kid: Tree, s: Source) returns (r: Option<Source>)
    requires s.Udp?
    ensures r == UdpStep(s, kid)
  {
    var mode := GetAttr(kid, "mode");
    if mode.None? {
      return None;
    }
    if EqNoCase(mode.value, "bind") {
      return Some(s.(bindHost := GetAttr(kid, "host"), bindService := GetAttr(kid, "service")));
    } else if EqNoCase(mode.value, "connect") {
      return Some(s.(connectHost := GetAttr(kid, "host"), connectService := GetAttr(kid, "service")));
    }
    return None;
  }

  /** The switch over the source type, on a <source> child. */
  method ParseConsoleSource(kid: Tree, s: Source) returns (r: Option<Source>)
    ensures r == SourceStep(s, kid)
  {
    match s
    case Pty(_) => return Some(s.(path := GetAttr(kid, "path")));
    case HostDev(_) => return Some(s.(path := GetAttr(kid, "path")));
    case File(_) => return Some(s.(path := GetAttr(kid, "path")));
    case Pipe(_) => return Some(s.(path := GetAttr(kid, "path")));
    case UnixSock(_, _) => return Some(s.(sockMode := GetAttr(kid, "mode"), sockPath := GetAttr(kid, "path")));
    case Udp(_, _, _, _) => r := ParseUdpSource(kid, s);
    case Tcp(_, _, _, _) =>
      return Some(s.(mode := GetAttr(kid, "mode"), host := GetAttr(kid, "host"), service := GetAttr(kid, "service")));
    case _ => return Some(s);
  }

  method ParseConsoleDevice(x: Tree) returns (r: Option<Dev<Console>>)
    ensures r == ConsoleDevice(x)
  {
    if x.Text? || GetAttr(x, "type").None? {
      return None;
    }
    var c := Console(SourceOf(GetAttr(x, "type").value), None);
    if c.source.Unsupported? {
      return None;
    }
    var port: Option<string> := None;
    ghost var start := Partial(c, port);
    for i := 0 to |x.kids|
      invariant Fold(ConsoleStep, start, x.kids) == Fold(ConsoleStep, Partial(c, port), x.kids[i..])
    {
      var kid := x.kids[i];
      assert x.kids[i..][1..] == x.kids[i + 1..];
      if Name(kid) == "target" && port.None? {
        c := c.(targetType := GetAttr(kid, "type"));
        port := GetAttr(kid, "port");
        if port.None? {
          return None;
        }
      }
      if Name(kid) == "source" {
        var s := ParseConsoleSource(kid, c.source);
        if s.None? {
          return None;
        }
        c := c.(source := s.value);
      }
      if c.source.Tcp? && Name(kid) == "protocol" {
        c := c.(source := c.source.(protocol := GetAttr(kid, "type")));
      }
    }
    return Some(Dev(RES_CONSOLE, c, ConsoleId(port)));
  }

  // ----- what survives printing and parsing

  /** Printed type names are read back as the same type, emptied. */
  lemma NameReadBack(s: Source)
    requires !s.Unsupported?
    ensures SourceOf(SourceName(s).value) == Blank(SourceName(s).value)
  {
    var n := SourceName(s).value;
    assert Lower(n) == n;
  }

  /** The source read back from its own elements. */
  function SourceRead(s: Source): Source {
    match s
    case HostDev(path) => HostDev(Some(TextOf(path)))
    case File(path) => File(Some(TextOf(path)))
    case Pipe(path) => Pipe(Some(TextOf(path)))
    case UnixSock(mode, path) => UnixSock(Some(TextOf(mode)), Some(TextOf(path)))
    case Udp(bh, bs, ch, cs) => Udp(Some(TextOf(bh)), bs, Some(TextOf(ch)), cs)
    case Tcp(mode, host, service, protocol) => Tcp(Some(TextOf(mode)), Some(TextOf(host)), service, protocol)
    case _ => s
  }

  lemma PathReadBack(acc: Source, path: string)
    requires acc.Pty? || acc.HostDev? || acc.File? || acc.Pipe?
    ensures Fold(ConsoleStep, ConsoleStart(acc), [Leaf("source", Prop("path", path))])
            == Some(ConsoleStart(acc.(path := Some(path))))
  {
    FoldOne(ConsoleStep, ConsoleStart(acc), Leaf("source", Prop("path", path)));
  }

  lemma EndAttrs(mode: string, host: Option<string>, service: Option<string>)
    ensures GetAttr(Endpoint(mode, host, service), "mode") == Some(mode)
    ensures GetAttr(Endpoint(mode, host, service), "host") == Some(TextOf(host))
    ensures GetAttr(Endpoint(mode, host, service), "service") == service
  {
    LookupGroups(Prop("mode", mode), Prop("host", TextOf(host)), OptAttr("service", service), []);
  }

  lemma UdpReadBack(s: Source)
    requires s.Udp?
    ensures Fold(ConsoleStep, ConsoleStart(Udp(None, None, None, None)), SourceKids(s))
            == Some(ConsoleStart(SourceRead(s)))
  {
    var bind, connect := Endpoint("bind", s.bindHost, s.bindService), Endpoint("connect", s.connectHost,
      s.connectService);
    var s0 := ConsoleStart(Udp(None, None, None, None));
    assert SourceKids(s) == [bind] + [connect];
    FoldConcat(ConsoleStep, s0, [bind], [connect]);
    EndAttrs("bind", s.bindHost, s.bindService);
    EndAttrs("connect", s.connectHost, s.connectService);
    assert EqNoCase("bind", "bind") && !EqNoCase("connect", "bind");
    FoldOne(ConsoleStep, s0, bind);
    FoldOne(ConsoleStep, ConsoleStart(Udp(Some(TextOf(s.bindHost)), s.bindService, None, None)), connect);
  }

  lemma TcpReadBack(s: Source)
    requires s.Tcp?
    ensures Fold(ConsoleStep, ConsoleStart(Tcp(None, None, None, None)), SourceKids(s))
            == Some(ConsoleStart(SourceRead(s)))
  {
    var end := Endpoint(TextOf(s.mode), s.host, s.service);
    var s0 := ConsoleStart(Tcp(None, None, None, None));
    EndAttrs(TextOf(s.mode), s.host, s.service);
    FoldConcat(ConsoleStep, s0, [end], OptLeaf("protocol", "type", s.protocol));
    FoldOne(ConsoleStep, s0, end);
    if s.protocol.Some? {
      FoldOne(ConsoleStep, ConsoleStart(Tcp(Some(TextOf(s.mode)), Some(TextOf(s.host)), s.service, None)),
              Leaf("protocol", Prop("type", s.protocol.value)));
    }
  }

  lemma UnixReadBack(s: Source)
    requires s.UnixSock?
    ensures Fold(ConsoleStep, ConsoleStart(UnixSock(None, None)), SourceKids(s)) == Some(ConsoleStart(SourceRead(s)))
  {
    LookupGroups(Prop("mode", TextOf(s.sockMode)), Prop("path", TextOf(s.sockPath)), [], []);
    FoldOne(ConsoleStep, ConsoleStart(UnixSock(None, None)), SourceKids(s)[0]);
  }

  lemma PathSourceReadBack(s: Source)
    requires s.Pty? || s.HostDev? || s.File? || s.Pipe?
    ensures Fold(ConsoleStep, ConsoleStart(s.(path := None)), SourceKids(s)) == Some(ConsoleStart(SourceRead(s)))
  {
    if !s.Pty? || s.path.Some? {
      PathReadBack(s.(path := None), TextOf(s.path));
    }
  }

  lemma BlankOfName(s: Source)
    requires !s.Unsupported?
    ensures Blank(SourceName(s).value)
            == match s
               case UnixSock(_, _) => UnixSock(None, None)
               case Udp(_, _, _, _) => Udp(None, None, None, None)
               case Tcp(_, _, _, _) => Tcp(None, None, None, None)
               case _ => if s.Pty? || s.HostDev? || s.File? || s.Pipe? then s.(path := None) else s
  {
  }

  lemma SourceReadBack(s: Source)
    requires !s.Unsupported?
    ensures Fold(ConsoleStep, ConsoleStart(Blank(SourceName(s).value)), SourceKids(s))
            == Some(ConsoleStart(SourceRead(s)))
  {
    BlankOfName(s);
    if s.Pty? || s.HostDev? || s.File? || s.Pipe? {
      PathSourceReadBack(s);
    } else if s.UnixSock? {
      UnixReadBack(s);
    } else if s.Udp? {
      UdpReadBack(s);
    } else if s.Tcp? {
      TcpReadBack(s);
    }
  }

  lemma TargetReadBack(p: Partial, targetType: Option<string>)
    requires p.port.None?
    ensures Fold(ConsoleStep, p, OptLeaf("target", "type", targetType)) == if targetType.None? then Some(p) else None
  {
    if targetType.Some? {
      FoldOne(ConsoleStep, p, Leaf("target", Prop("type", targetType.value)));
    }
  }

  lemma ConsoleLeaves(c: Console)
    ensures AllLeaves(ConsoleTree(c).kids)
  {
  }

  lemma KidsReadBack(c: Console, depth: nat)
    requires !c.source.Unsupported?
    ensures var p := ConsoleStart(Blank(SourceName(c.source).value));
            Fold(ConsoleStep, p, Reparse(ConsoleTree(c), depth).kids)
            == if c.targetType.Some? then None else Some(ConsoleStart(SourceRead(c.source)))
  {
    var p := ConsoleStart(Blank(SourceName(c.source).value));
    ConsoleLeaves(c);
    FoldReparse(ConsoleStep, p, ConsoleTree(c), depth);
    FoldConcat(ConsoleStep, p, SourceKids(c.source), OptLeaf("target", "type", c.targetType));
    SourceReadBack(c.source);
    TargetReadBack(ConsoleStart(SourceRead(c.source)), c.targetType);
  }

  /** The type read from a printed console. */
  lemma TypeReadBack(s: Source)
    ensures SourceOf(TextOf(SourceName(s))).Unsupported? == s.Unsupported?
    ensures !s.Unsupported? ==> SourceOf(TextOf(SourceName(s))) == Blank(SourceName(s).value)
  {
    if s.Unsupported? {
      assert Lower("") == "";
    } else {
      NameReadBack(s);
      BlankOfName(s);
    }
  }

  lemma ConsoleReadBack(c: Console, depth: nat)
    ensures ConsoleDevice(Reparse(ConsoleTree(c), depth))
            == if c.source.Unsupported? || c.targetType.Some? then None
               else Some(Dev(RES_CONSOLE, Console(SourceRead(c.source), None), ConsoleId(None)))
  {
    var x := Reparse(ConsoleTree(c), depth);
    assert GetAttr(x, "type") == Some(TextOf(SourceName(c.source)));
    TypeReadBack(c.source);
    if !c.source.Unsupported? {
      KidsReadBack(c, depth);
    }
  }

  /** The sources that printing loses nothing of: only a pty's path and the
      services and protocol are optional. */
  predicate SourcePrintable(s: Source) {
    match s
    case HostDev(path) => path.Some?
    case File(path) => path.Some?
    case Pipe(path) => path.Some?
    case UnixSock(mode, path) => mode.Some? && path.Some?
    case Udp(bindHost, _, connectHost, _) => bindHost.Some? && connectHost.Some?
    case Tcp(mode, host, _, _) => mode.Some? && host.Some?
    case Unsupported => false
    case _ => true
  }

  /** A console comes back as itself exactly when it has no target type: a target
      is printed without the port that the parser demands, and so rejected. */
  lemma ConsoleRoundTrip(dev: Dev<Console>, depth: nat)
    ensures ConsoleDevice(Reparse(ConsoleTree(dev.dev), depth)) == Some(dev)
            <==> dev.dev.targetType.None? && SourcePrintable(dev.dev.source)
                 && dev.resType == RES_CONSOLE && dev.id == ConsoleId(None)
  {
    ConsoleReadBack(dev.dev, depth);
  }

  /** Printing what was read from a print gives the same element again, whether
      or not the console itself came back. */
  lemma ConsolePrintIsStable(c: Console, depth: nat)
    requires c.targetType.None? && !c.source.Unsupported?
    ensures ConsoleDevice(Reparse(ConsoleTree(c), depth)).Some?
    ensures var again := ConsoleTree(ConsoleDevice(Reparse(ConsoleTree(c), depth)).value.dev); again == ConsoleTree(c)
  {
    ConsoleReadBack(c, depth);
    assert SourceKids(SourceRead(c.source)) == SourceKids(c.source);
  }

  lemma ConsoleWellFormed(c: Console)
    ensures WellFormed(ConsoleTree(c))
  {
    AllWellFormedConcat(SourceKids(c.source), OptLeaf("target", "type", c.targetType));
    SourceWellFormed(c.source);
    assert AllWellFormed(ConsoleTree(c).kids);
  }

  lemma EndpointWellFormed(mode: string, host: Option<string>, service: Option<string>)
    ensures WellFormed(Endpoint(mode, host, service))
  {
    DistinctGroups(Prop("mode", mode), Prop("host", TextOf(host)), OptAttr("service", service), []);
  }

  lemma SourceWellFormed(s: Source)
    ensures AllWellFormed(SourceKids(s))
  {
    match s
    case UnixSock(mode, path) => DistinctGroups(Prop("mode", TextOf(mode)), Prop("path", TextOf(path)), [], []);
    case Udp(bh, bs, ch, cs) =>
      EndpointWellFormed("bind", bh, bs);
      EndpointWellFormed("connect", ch, cs);
    case Tcp(mode, host, service, protocol) =>
      EndpointWellFormed(TextOf(mode), host, service);
      AllWellFormedConcat([Endpoint(TextOf(mode), host, service)], OptLeaf("protocol", "type", protocol));
    case _ =>
  }
}
