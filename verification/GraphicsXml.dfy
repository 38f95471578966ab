/** Graphics: graphics_xml of libxkutil/xmlgen.c against parse_graphics_device of
    libxkutil/device_parsing.c, which is also run over the consoles. */
module GraphicsXml {
  import opened Prelude
  import opened Xml
  import opened Devices
  import C = ConsoleXml

  /** The union is kept as its four slots: an SDL display, xauth and fullscreen
      share theirs with a VNC port, host and keymap. */
  datatype Graphics = Graphics(
    kind: string,
    port: Option<string>,
    host: Option<string>,
    keymap: Option<string>,
    passwd: Option<string>)

  predicate IsVnc(kind: string) {
    EqNoCase(kind, "vnc")
  }

  predicate IsSdl(kind: string) {
    EqNoCase(kind, "sdl")
  }

  lemma Kinds(kind: string)
    ensures !(IsVnc(kind) && IsSdl(kind))
    ensures !IsVnc("console") && !IsSdl("console")
  {
    assert Lower("vnc")[0] == 'v' && Lower("sdl")[0] == 's' && |Lower("console")| == 7;
  }

  // ----- what is printed

  function PortAttrs(port: Option<string>): seq<Attr> {
    if port.None? then []
    else Prop("port", port.value) + Prop("autoport", if EqNoCase(port.value, "-1") then "yes" else "no")
  }

  function SdlAttrs(g: Graphics): seq<Attr> {
    Prop("type", g.kind) + OptAttr("display", g.port) + OptAttr("xauth", g.host) + OptAttr("fullscreen", g.keymap)
  }

  function VncAttrs(g: Graphics): seq<Attr> {
    Prop("type", g.kind) + PortAttrs(g.port) + OptAttr("listen", g.host) + OptAttr("passwd", g.passwd)
    + OptAttr("keymap", g.keymap)
  }

  function GraphicsTree(g: Graphics): Tree {
    Leaf("graphics", if IsSdl(g.kind) then SdlAttrs(g) else VncAttrs(g))
  }

  predicate Shown(d: Dev<Graphics>) {
    d.resType != RES_UNKNOWN && (IsVnc(d.dev.kind) || IsSdl(d.dev.kind))
  }

  /** Anything but VNC and SDL is passed over. */
  function GraphicsKids(devs: seq<Dev<Graphics>>): seq<Tree> {
    if devs == [] then []
    else if Shown(devs[0]) then [GraphicsTree(devs[0].dev)] + GraphicsKids(devs[1..])
    else GraphicsKids(devs[1..])
  }

  // ----- what is read

  function PtyStep(g: Graphics, kid: Tree): Option<Graphics> {
    if Name(kid) == "source" then Some(g.(host := GetAttr(kid, "path")))
    else if Name(kid) == "target" then Some(g.(port := GetAttr(kid, "port")))
    else Some(g)
  }

  function GraphicsId(g: Graphics): Option<string> {
    Some(if IsVnc(g.kind) then g.kind else g.kind + ":" + g.port.GetOr("(null)"))
  }

  function ReadKind(kind: string, x: Tree): Option<Graphics> {
    if x.Text? then None
    else if IsVnc(kind) then
      Some(Graphics(kind, Some(GetAttr(x, "port").GetOr("-1")), Some(GetAttr(x, "listen").GetOr("127.0.0.1")),
                    GetAttr(x, "keymap"), GetAttr(x, "passwd")))
    else if IsSdl(kind) then
      Some(Graphics(kind, GetAttr(x, "display"), GetAttr(x, "xauth"), GetAttr(x, "fullscreen"), None))
    else if EqNoCase(kind, "pty") then Fold(PtyStep, Graphics(Name(x), None, None, None, None), x.kids)
    else None
  }

  /** parse_graphics_device: a pty's kind becomes the name of its element. */
  function GraphicsDevice(x: Tree): Option<Dev<Graphics>> {
    match GetAttr(x, "type")
    case None => None
    case Some(kind) =>
      match ReadKind(kind, x)
      case None => None
      case Some(g) => Some(Dev(RES_GRAPHICS, g, GraphicsId(g)))
  }

  // ----- the printing code

  method GraphicsVncXml(root: Builder, g: Graphics)
    modifies root`kids
    ensures root.kids == old(root.kids) + [GraphicsTree(g)]
  {
    var tmp := new Builder("graphics");
    tmp.NewProp("type", Some(g.kind));
    if IsSdl(g.kind) {
      tmp.NewOptProp("display", g.port);
      tmp.NewOptProp("xauth", g.host);
      tmp.NewOptProp("fullscreen", g.keymap);
      assert tmp.attrs == SdlAttrs(g);
      root.AddChild(tmp.Built());
      return;
    }
    if g.port.Some? {
      tmp.NewProp("port", g.port);
      if EqNoCase(g.port.value, "-1") {
        tmp.NewProp("autoport", Some("yes"));
      } else {
        tmp.NewProp("autoport", Some("no"));
      }
    }
    assert tmp.attrs == Prop("type", g.kind) + PortAttrs(g.port);
    tmp.NewOptProp("listen", g.host);
    tmp.NewOptProp("passwd", g.passwd);
    tmp.NewOptProp("keymap", g.keymap);
    assert tmp.attrs == VncAttrs(g);
    root.AddChild(tmp.Built());
  }

  /** graphics_xml */
  method AllGraphicsXml(root: Builder, devs: seq<Dev<Graphics>>)
    modifies root`kids
    ensures root.kids == old(root.kids) + GraphicsKids(devs)
  {
    assert root.kids == root.kids + [];
    for i := 0 to |devs|
      invariant old(root.kids) + GraphicsKids(devs) == root.kids + GraphicsKids(devs[i..])
    {
      assert devs[i..][1..] == devs[i + 1..];
      if devs[i].resType == RES_UNKNOWN {
        continue;
      }
      var dev := devs[i].dev;
      if IsVnc(dev.kind) || IsSdl(dev.kind) {
        GraphicsVncXml(root, dev);
      } else {
        continue;
      }
    }
  }

  // ----- the parsing code

  method ParsePty(x: Tree) returns (g: Graphics)
    requires x.Element?
    ensures Fold(PtyStep, Graphics(Name(x), None, None, None, None), x.kids) == Some(g)
  {
    g := Graphics(Name(x), None, None, None, None);
    for i := 0 to |x.kids|
      invariant Fold(PtyStep, Graphics(Name(x), None, None, None, None), x.kids) == Fold(PtyStep, g, x.kids[i..])
    {
      var kid := x.kids[i];
      assert x.kids[i..][1..] == x.kids[i + 1..];
      if Name(kid) == "source" {
        g := g.(host := GetAttr(kid, "path"));
      } else if Name(kid) == "target" {
        g := g.(port := GetAttr(kid, "port"));
      }
    }
  }

  method ParseGraphicsDevice(x: Tree) returns (r: Option<Dev<Graphics>>)
    ensures r == GraphicsDevice(x)
  {
    var kind := GetAttr(x, "type");
    if kind.None? {
      return None;
    }
    Kinds(kind.value);
    var g := Graphics(kind.value, None, None, None, None);
    if IsVnc(g.kind) {
      g := g.(port := Some(GetAttr(x, "port").GetOr("-1")), host := Some(GetAttr(x, "listen").GetOr("127.0.0.1")));
      g := g.(keymap := GetAttr(x, "keymap"), passwd := GetAttr(x, "passwd"));
    } else if IsSdl(g.kind) {
      g := g.(port := GetAttr(x, "display"), host := GetAttr(x, "xauth"), keymap := GetAttr(x, "fullscreen"));
    } else if EqNoCase(g.kind, "pty") {
      g := ParsePty(x);
    } else {
      return None;
    }
    return Some(Dev(RES_GRAPHICS, g, GraphicsId(g)));
  }

  // ----- what survives printing and parsing

  /** A printed VNC or SDL device, read back: VNC gets a port and a host. */
  function GraphicsRead(g: Graphics): Graphics {
    if IsSdl(g.kind) then g.(passwd := None)
    else g.(port := Some(g.port.GetOr("-1")), host := Some(g.host.GetOr("127.0.0.1")))
  }

  lemma PortRead(port: Option<string>)
    ensures forall k :: Lookup(PortAttrs(port), k)
                        == if k == "port" then port
                           else if k == "autoport" && port.Some? then
                             Some(if EqNoCase(port.value, "-1") then "yes" else "no")
                           else None
  {
    if port.Some? {
      var auto := if EqNoCase(port.value, "-1") then "yes" else "no";
      LookupGroups(Prop("port", port.value), Prop("autoport", auto), [], []);
    }
  }

  lemma VncRead(g: Graphics, k: string)
    requires k == "type" || k == "port" || k == "listen" || k == "passwd" || k == "keymap"
    ensures Lookup(VncAttrs(g), k)
            == if k == "type" then Some(g.kind) else if k == "port" then g.port
               else if k == "listen" then g.host else if k == "passwd" then g.passwd else g.keymap
  {
    var start := Prop("type", g.kind) + PortAttrs(g.port) + OptAttr("listen", g.host) + OptAttr("passwd", g.passwd);
    PortRead(g.port);
    LookupGroups(Prop("type", g.kind), PortAttrs(g.port), OptAttr("listen", g.host), OptAttr("passwd", g.passwd));
    LookupConcat(start, OptAttr("keymap", g.keymap), k);
  }

  lemma SdlRead(g: Graphics)
    ensures Lookup(SdlAttrs(g), "type") == Some(g.kind) && Lookup(SdlAttrs(g), "display") == g.port
    ensures Lookup(SdlAttrs(g), "xauth") == g.host && Lookup(SdlAttrs(g), "fullscreen") == g.keymap
  {
    LookupGroups(Prop("type", g.kind), OptAttr("display", g.port), OptAttr("xauth", g.host),
                 OptAttr("fullscreen", g.keymap));
  }

  lemma GraphicsReadBack(g: Graphics, depth: nat)
    requires IsVnc(g.kind) || IsSdl(g.kind)
    ensures GraphicsDevice(Reparse(GraphicsTree(g), depth))
            == Some(Dev(RES_GRAPHICS, GraphicsRead(g), GraphicsId(GraphicsRead(g))))
  {
    Kinds(g.kind);
    if IsSdl(g.kind) {
      SdlRead(g);
    } else {
      VncRead(g, "type");
      VncRead(g, "port");
      VncRead(g, "listen");
      VncRead(g, "passwd");
      VncRead(g, "keymap");
    }
  }

  predicate Anchored(g: Graphics) {
    IsVnc(g.kind) ==> g.port.Some? && g.host.Some?
  }

  /** A VNC or SDL device comes back as itself exactly when VNC has its port and
      host, SDL nothing in the password slot, and the id follows from the rest. */
  lemma GraphicsRoundTrip(dev: Dev<Graphics>, depth: nat)
    requires IsVnc(dev.dev.kind) || IsSdl(dev.dev.kind)
    ensures GraphicsDevice(Reparse(GraphicsTree(dev.dev), depth)) == Some(dev)
            <==> Anchored(dev.dev) && (IsSdl(dev.dev.kind) ==> dev.dev.passwd.None?)
                 && dev.resType == RES_GRAPHICS && dev.id == GraphicsId(dev.dev)
  {
    Kinds(dev.dev.kind);
    GraphicsReadBack(dev.dev, depth);
  }

  lemma PortDistinct(port: Option<string>)
    ensures DistinctKeys(PortAttrs(port))
    ensures forall y :: y in PortAttrs(port) ==> y.key == "port" || y.key == "autoport"
  {
  }

  lemma VncAttrsDistinct(g: Graphics)
    ensures DistinctKeys(VncAttrs(g))
  {
    var front := Prop("type", g.kind) + PortAttrs(g.port);
    PortDistinct(g.port);
    DistinctConcat(Prop("type", g.kind), PortAttrs(g.port));
    assert forall y :: y in front ==> y.key == "type" || y.key == "port" || y.key == "autoport";
    DistinctConcat(front, OptAttr("listen", g.host));
    DistinctConcat(front + OptAttr("listen", g.host), OptAttr("passwd", g.passwd));
    DistinctConcat(front + OptAttr("listen", g.host) + OptAttr("passwd", g.passwd), OptAttr("keymap", g.keymap));
  }

  lemma GraphicsWellFormed(g: Graphics)
    ensures WellFormed(GraphicsTree(g))
  {
    DistinctGroups(Prop("type", g.kind), OptAttr("display", g.port), OptAttr("xauth", g.host),
                 OptAttr("fullscreen", g.keymap));
    VncAttrsDistinct(g);
  }

  /** What the second print shows is the element of the first exactly when a VNC
      device had both a port and a host. */
  lemma GraphicsPrintIsStable(g: Graphics)
    requires IsVnc(g.kind) || IsSdl(g.kind)
    ensures GraphicsTree(GraphicsRead(g)) == GraphicsTree(g) <==> Anchored(g)
  {
    Kinds(g.kind);
    if IsVnc(g.kind) {
      VncRead(g, "port");
      VncRead(g, "listen");
      VncRead(GraphicsRead(g), "port");
      VncRead(GraphicsRead(g), "listen");
      assert GraphicsRead(g) == g <==> Anchored(g);
    } else {
      assert SdlAttrs(GraphicsRead(g)) == SdlAttrs(g);
    }
  }

  // ----- consoles seen as graphics

  /** The graphics selection also finds the consoles; pty ones become graphics. */
  function AsGraphics(c: C.Console): Option<Dev<Graphics>> {
    if !c.source.Pty? then None
    else Some(Dev(RES_GRAPHICS, Graphics("console", None, c.source.path, None, None), Some("console:(null)")))
  }

  lemma NotGraphics(s: C.Source)
    requires !s.Pty?
    ensures var n := TextOf(C.SourceName(s)); !IsVnc(n) && !IsSdl(n) && !EqNoCase(n, "pty")
  {
    var n := TextOf(C.SourceName(s));
    assert Lower(n) == n && Lower("vnc") == "vnc" && Lower("sdl") == "sdl" && Lower("pty") == "pty";
  }

  lemma PtyReadBack(c: C.Console, depth: nat)
    requires c.source.Pty?
    ensures Fold(PtyStep, Graphics("console", None, None, None, None), Reparse(C.ConsoleTree(c), depth).kids)
            == Some(Graphics("console", None, c.source.path, None, None))
  {
    var g0, path := Graphics("console", None, None, None, None), c.source.path;
    C.ConsoleLeaves(c);
    FoldReparse(PtyStep, g0, C.ConsoleTree(c), depth);
    var source, target := OptLeaf("source", "path", path), OptLeaf("target", "type", c.targetType);
    FoldConcat(PtyStep, g0, source, target);
    if path.Some? {
      FoldOne(PtyStep, g0, source[0]);
    }
    if c.targetType.Some? {
      FoldOne(PtyStep, g0.(host := path), target[0]);
    }
  }

  lemma PtyKind(x: Tree)
    requires x.Element?
    ensures ReadKind("pty", x) == Fold(PtyStep, Graphics(x.name, None, None, None, None), x.kids)
  {
    assert Lower("pty")[0] == 'p' && Lower("vnc")[0] == 'v' && Lower("sdl")[0] == 's';
  }

  lemma ConsoleAsGraphics(c: C.Console, depth: nat)
    ensures GraphicsDevice(Reparse(C.ConsoleTree(c), depth)) == AsGraphics(c)
  {
    var x := Reparse(C.ConsoleTree(c), depth);
    var n := TextOf(C.SourceName(c.source));
    assert GetAttr(x, "type") == Some(n);
    if c.source.Pty? {
      PtyKind(x);
      PtyReadBack(c, depth);
      Kinds("console");
      assert "console" + ":" + "(null)" == "console:(null)";
    } else {
      NotGraphics(c.source);
    }
  }

  function ConsolesAsGraphics(consoles: seq<Dev<C.Console>>): seq<Dev<Graphics>> {
    if consoles == [] then []
    else
      var rest := ConsolesAsGraphics(consoles[1..]);
      if consoles[0].resType == RES_UNKNOWN then rest
      else match AsGraphics(consoles[0].dev) case None => rest case Some(g) => [g] + rest
  }

  function GraphicsReadAll(devs: seq<Dev<Graphics>>): seq<Dev<Graphics>> {
    if devs == [] then []
    else if !Shown(devs[0]) then GraphicsReadAll(devs[1..])
    else
      var g := GraphicsRead(devs[0].dev);
      [Dev(RES_GRAPHICS, g, GraphicsId(g))] + GraphicsReadAll(devs[1..])
  }

  lemma {:induction false} ConsolesReadAsGraphics(consoles: seq<Dev<C.Console>>, depth: nat)
    ensures PrintAll(consoles, C.ConsoleElement).Some?
    ensures ParseAll(ReparseAll(PrintAll(consoles, C.ConsoleElement).value, depth), GraphicsDevice)
            == ConsolesAsGraphics(consoles)
    decreases |consoles|
  {
    if consoles != [] {
      ConsolesReadAsGraphics(consoles[1..], depth);
      if consoles[0].resType != RES_UNKNOWN {
        ConsoleAsGraphics(consoles[0].dev, depth);
        var rest := PrintAll(consoles[1..], C.ConsoleElement).value;
        var x := C.ConsoleTree(consoles[0].dev);
        assert ([x] + rest)[1..] == rest;
        assert ReparseAll([x] + rest, depth)[1..] == ReparseAll(rest, depth);
      }
    }
  }

  lemma {:induction false} GraphicsReadAllBack(devs: seq<Dev<Graphics>>, depth: nat)
    ensures ParseAll(ReparseAll(GraphicsKids(devs), depth), GraphicsDevice) == GraphicsReadAll(devs)
    decreases |devs|
  {
    if devs != [] {
      GraphicsReadAllBack(devs[1..], depth);
      if Shown(devs[0]) {
        GraphicsReadBack(devs[0].dev, depth);
        var rest := GraphicsKids(devs[1..]);
        var x := GraphicsTree(devs[0].dev);
        assert ([x] + rest)[1..] == rest;
        assert ReparseAll([x] + rest, depth)[1..] == ReparseAll(rest, depth);
      }
    }
  }

  /** Everything selected as graphics from a printed device list: first the pty
      consoles, then the graphics with their defaults filled in. */
  lemma SelectedGraphics(consoles: seq<Dev<C.Console>>, devs: seq<Dev<Graphics>>, depth: nat)
    ensures PrintAll(consoles, C.ConsoleElement).Some?
    ensures ParseAll(ReparseAll(PrintAll(consoles, C.ConsoleElement).value + GraphicsKids(devs), depth), GraphicsDevice)
            == ConsolesAsGraphics(consoles) + GraphicsReadAll(devs)
  {
    ConsolesReadAsGraphics(consoles, depth);
    GraphicsReadAllBack(devs, depth);
    var a, b := PrintAll(consoles, C.ConsoleElement).value, GraphicsKids(devs);
    ReparseAllConcat(a, b, depth);
    ParseAllConcat(ReparseAll(a, depth), ReparseAll(b, depth), GraphicsDevice);
  }

  lemma {:induction false} ConsolesAreNotShown(consoles: seq<Dev<C.Console>>, more: seq<Dev<Graphics>>)
    ensures GraphicsKids(ConsolesAsGraphics(consoles) + more) == GraphicsKids(more)
    decreases |consoles|
  {
    var rest := if consoles == [] then [] else ConsolesAsGraphics(consoles[1..]);
    if consoles == [] {
      assert [] + more == more;
    } else {
      ConsolesAreNotShown(consoles[1..], more);
      if consoles[0].resType != RES_UNKNOWN && consoles[0].dev.source.Pty? {
        Kinds("console");
        var all := [AsGraphics(consoles[0].dev).value] + rest + more;
        assert all[1..] == rest + more && !Shown(all[0]);
      }
    }
  }

  lemma {:induction false} ShownAgain(devs: seq<Dev<Graphics>>)
    ensures GraphicsKids(GraphicsReadAll(devs)) == GraphicsKids(devs)
            <==> forall d :: d in devs && Shown(d) ==> Anchored(d.dev)
    decreases |devs|
  {
    if devs != [] {
      ShownAgain(devs[1..]);
      var d, rest := devs[0], GraphicsReadAll(devs[1..]);
      assert forall e :: e in devs <==> e == d || e in devs[1..];
      if Shown(d) {
        GraphicsPrintIsStable(d.dev);
        var g := GraphicsRead(d.dev);
        var all := [Dev(RES_GRAPHICS, g, GraphicsId(g))] + rest;
        assert all[1..] == rest;
        assert GraphicsKids(all) == [GraphicsTree(g)] + GraphicsKids(rest);
        assert GraphicsKids(all)[1..] == GraphicsKids(rest) && GraphicsKids(devs)[1..] == GraphicsKids(devs[1..]);
      }
    }
  }

  /** Although the pty consoles come back as graphics too, printing the graphics
      that were read gives the first print's graphics elements again, exactly when
      every VNC device had a port and a host. */
  lemma PrintParsePrint(consoles: seq<Dev<C.Console>>, devs: seq<Dev<Graphics>>, depth: nat)
    ensures PrintAll(consoles, C.ConsoleElement).Some?
    ensures var xs := PrintAll(consoles, C.ConsoleElement).value + GraphicsKids(devs);
            GraphicsKids(ParseAll(ReparseAll(xs, depth), GraphicsDevice)) == GraphicsKids(devs)
            <==> forall d :: d in devs && Shown(d) ==> Anchored(d.dev)
  {
    SelectedGraphics(consoles, devs, depth);
    ConsolesAreNotShown(consoles, GraphicsReadAll(devs));
    ShownAgain(devs);
  }

  lemma OneConsolePrintParsePrint(c: Dev<C.Console>, rest: seq<Tree>, depth: nat)
    requires c.dev.targetType.None? && !c.dev.source.Unsupported?
    requires PrintAll(ParseAll(ReparseAll(rest, depth), C.ConsoleDevice), C.ConsoleElement) == Some(rest)
    ensures var xs := [C.ConsoleTree(c.dev)] + rest;
            PrintAll(ParseAll(ReparseAll(xs, depth), C.ConsoleDevice), C.ConsoleElement) == Some(xs)
  {
    var x := C.ConsoleTree(c.dev);
    C.ConsolePrintIsStable(c.dev, depth);
    C.ConsoleReadBack(c.dev, depth);
    assert ReparseAll([x] + rest, depth) == [Reparse(x, depth)] + ReparseAll(rest, depth);
    var d, ds := C.ConsoleDevice(Reparse(x, depth)).value, ParseAll(ReparseAll(rest, depth), C.ConsoleDevice);
    assert ParseAll(ReparseAll([x] + rest, depth), C.ConsoleDevice) == [d] + ds;
    assert ([d] + ds)[1..] == ds;
  }

  /** The consoles themselves, printed, read and printed again. */
  lemma {:induction false} ConsolesPrintParsePrint(consoles: seq<Dev<C.Console>>, depth: nat)
    requires forall c :: c in consoles ==> c.dev.targetType.None? && !c.dev.source.Unsupported?
    ensures PrintAll(consoles, C.ConsoleElement).Some?
    ensures var xs := PrintAll(consoles, C.ConsoleElement).value;
            PrintAll(ParseAll(ReparseAll(xs, depth), C.ConsoleDevice), C.ConsoleElement) == Some(xs)
    decreases |consoles|
  {
    if consoles != [] {
      assert consoles[0] in consoles && forall c :: c in consoles[1..] ==> c in consoles;
      ConsolesPrintParsePrint(consoles[1..], depth);
      if consoles[0].resType != RES_UNKNOWN {
        OneConsolePrintParsePrint(consoles[0], PrintAll(consoles[1..], C.ConsoleElement).value, depth);
      }
    }
  }
}
