/** What repeated printing and parsing does to a container: system_to_xml adds a
    console to whatever consoles it has, and get_dominfo_from_xml keeps it. */
module ContainerRounds {
  import opened Prelude
  import opened Xml
  import opened Devices
  import opened OsXml
  import opened DomainXml
  import opened DomainTheorems
  import R = DomainRoundTrip
  import D = DiskXml
  import N = NetXml
  import C = ConsoleXml
  import L = ControllerXml

  /** One round; the UUID is the one made up when there is none. */
  function Round(x: Domain, newUuid: string): Option<Domain> {
    match Printed(Prepared(x.base, newUuid), x.devices)
    case None => None
    case Some(xml) => DomainFromXml(xml)
  }

  /** A step repeated, once for each input. */
  function Iterated<T>(step: (T, string) -> Option<T>, x: T, inputs: seq<string>): Option<T>
    decreases |inputs|
  {
    if inputs == [] then Some(x)
    else
      match step(x, inputs[0])
      case None => None
      case Some(y) => Iterated(step, y, inputs[1..])
  }

  function Rounds(x: Domain, newUuids: seq<string>): Option<Domain> {
    Iterated(Round, x, newUuids)
  }

  ghost predicate DiskStays(x: Dev<D.Disk>) {
    && DiskKeys(x.dev)
    && (x.dev.diskType == D.DiskFs || (DiskKept(x) && D.SourceGiven(x.dev)))
  }

  ghost predicate NetStays(x: Dev<N.Net>) {
    NetKeys(x.dev) && NetKept(x) && x.dev.mac.Some?
  }

  ghost predicate ControllerStays(x: Dev<L.Controller>) {
    ControllerKeys(x.dev) && ControllerKept(x)
  }

  /** A container that can be printed, and whose devices then survive the parser
      or, like file systems, are lost for good.  Nothing is asked of its processors,
      memory, graphics, inputs and OS data. */
  ghost predicate Steady(x: Domain) {
    && x.base.system.Container? && CanPrint(x.devices, x.base.system)
    && (forall y :: y in Live(x.devices.disks) ==> DiskStays(y))
    && (forall y :: y in Live(x.devices.nets) ==> NetStays(y))
    && (forall y :: y in Live(x.devices.controllers) ==> ControllerStays(y))
    && (forall y :: y in Live(x.devices.consoles) ==> ConsoleKept(y))
  }

  /** Every device read is what the parser makes of some printed one. */
  lemma {:induction false} ParsedIsOf<T(!new)>(devs: seq<Dev<T>>, elem: T -> Option<Tree>,
                                               parse: Tree -> Option<Dev<T>>, depth: nat, y: Dev<T>)
    requires PrintAll(devs, elem).Some?
    requires y in ParseAll(ReparseAll(PrintAll(devs, elem).value, depth), parse)
    ensures exists x :: x in Live(devs) && elem(x.dev).Some? && parse(Reparse(elem(x.dev).value, depth)) == Some(y)
    decreases |devs|
  {
    if devs[0].resType == RES_UNKNOWN {
      ParsedIsOf(devs[1..], elem, parse, depth, y);
    } else {
      var x, rest := elem(devs[0].dev).value, PrintAll(devs[1..], elem).value;
      var nodes := ReparseAll([x] + rest, depth);
      assert nodes[1..] == ReparseAll(rest, depth);
      if parse(nodes[0]) != Some(y) {
        ParsedIsOf(devs[1..], elem, parse, depth, y);
      }
    }
  }

  lemma OneDiskStays(x: Dev<D.Disk>, y: Dev<D.Disk>)
    requires DiskStays(x) && D.DiskElement(x.dev).Some?
    requires D.DiskDevice(Reparse(D.DiskElement(x.dev).value, 2)) == Some(y)
    ensures y == x
  {
    if x.dev.diskType == D.DiskFs {
      D.FileSystemIsLost(x.dev, 2);
    } else {
      D.DiskRoundTrip(x, 2);
    }
  }

  lemma DisksStay(b: Base, d: DeviceLists)
    requires Printed(b, d).Some? && forall y :: y in Live(d.disks) ==> DiskStays(y)
    ensures forall y :: y in Back(b, d).devices.disks ==> y in Live(d.disks)
  {
    DiskNodes(b, d);
    forall y | y in Back(b, d).devices.disks ensures y in Live(d.disks) {
      ParsedIsOf(d.disks, D.DiskElement, D.DiskDevice, 2, y);
      var x :| x in Live(d.disks) && D.DiskElement(x.dev).Some?
               && D.DiskDevice(Reparse(D.DiskElement(x.dev).value, 2)) == Some(y);
      OneDiskStays(x, y);
    }
  }

  lemma NetsStay(b: Base, d: DeviceLists)
    requires Printed(b, d).Some? && forall y :: y in Live(d.nets) ==> NetStays(y)
    ensures forall y :: y in Back(b, d).devices.nets ==> y in Live(d.nets)
  {
    var elem := N.NetPrinter(Xen(b.system));
    NetNodes(b, d);
    forall y | y in Back(b, d).devices.nets ensures y in Live(d.nets) {
      ParsedIsOf(d.nets, elem, N.NetDevice, 2, y);
      var x :| x in Live(d.nets) && elem(x.dev).Some? && N.NetDevice(Reparse(elem(x.dev).value, 2)) == Some(y);
      N.NetRoundTrip(x, Xen(b.system), 2);
    }
  }

  lemma ControllersStay(b: Base, d: DeviceLists)
    requires Printed(b, d).Some? && forall y :: y in Live(d.controllers) ==> ControllerStays(y)
    ensures forall y :: y in Back(b, d).devices.controllers ==> y in Live(d.controllers)
  {
    ControllerNodes(b, d);
    forall y | y in Back(b, d).devices.controllers ensures y in Live(d.controllers) {
      ParsedIsOf(d.controllers, L.ControllerElement, L.ControllerDevice, 2, y);
      var x :| x in Live(d.controllers) && L.ControllerElement(x.dev).Some?
               && L.ControllerDevice(Reparse(L.ControllerElement(x.dev).value, 2)) == Some(y);
      ControllerComesBack(x);
    }
  }

  lemma StaysPrintable<T>(devs: seq<Dev<T>>, back: seq<Dev<T>>, elem: T -> Option<Tree>)
    requires PrintAll(devs, elem).Some? && forall y :: y in back ==> y in Live(devs)
    ensures PrintAll(back, elem).Some?
  {
    LiveIsPrinted(devs, elem);
    LiveIsPrinted(back, elem);
  }

  lemma {:induction false} AllLive<T>(devs: seq<Dev<T>>)
    requires forall d :: d in devs ==> d.resType != RES_UNKNOWN
    ensures Live(devs) == devs
    decreases |devs|
  {
    if devs != [] {
      assert devs[0] in devs && forall d :: d in devs[1..] ==> d in devs;
      AllLive(devs[1..]);
    }
  }

  lemma ContainerStays(b: Base)
    requires b.system.Container?
    ensures R.BaseRead(b).system.Container?
  {
    TypeNames();
  }

  lemma KeysStayDistinct(x: Domain)
    requires Steady(x)
    ensures KeysDistinct(x.devices)
  {
  }

  lemma ListsStay(b: Base, d: DeviceLists)
    requires Printed(b, d).Some? && Steady(Domain(b, d))
    ensures var r := Back(b, d);
            && r.base.system.Container? && CanPrint(r.devices, r.base.system)
            && (forall y :: y in Live(r.devices.disks) ==> DiskStays(y))
            && (forall y :: y in Live(r.devices.nets) ==> NetStays(y))
            && (forall y :: y in Live(r.devices.controllers) ==> ControllerStays(y))
  {
    BaseComesBack(b, d);
    ContainerStays(b);
    DisksStay(b, d);
    NetsStay(b, d);
    ControllersStay(b, d);
    var r := Back(b, d).devices;
    StaysPrintable(d.disks, r.disks, D.DiskElement);
    StaysPrintable(d.nets, r.nets, N.NetPrinter(Xen(b.system)));
    StaysPrintable(d.controllers, r.controllers, L.ControllerElement);
  }

  lemma ConsolesStay(b: Base, d: DeviceLists)
    requires Printed(b, d).Some? && forall y :: y in Live(d.consoles) ==> ConsoleKept(y)
    ensures var consoles := Back(b, d).devices.consoles;
            && Live(consoles) == Live(d.consoles) + AddedConsole(b.system)
            && forall y :: y in Live(consoles) ==> ConsoleKept(y)
  {
    ConsolesComeBack(b, d);
    var added, consoles := AddedConsole(b.system), Back(b, d).devices.consoles;
    forall y | y in consoles ensures ConsoleKept(y) {
      assert y in Live(d.consoles) || y in added;
    }
    AllLive(consoles);
  }

  lemma RoundIsBack(x: Domain, newUuid: string)
    requires Steady(x)
    ensures var b := Prepared(x.base, newUuid);
            && Steady(Domain(b, x.devices)) && Printed(b, x.devices).Some?
            && Round(x, newUuid) == Some(Back(b, x.devices))
  {
    var b, d := Prepared(x.base, newUuid), x.devices;
    assert b.system.Container? && Xen(b.system) == Xen(x.base.system);
    KeysStayDistinct(x);
    BackIsParsed(b, d);
  }

  /** One round adds one console. */
  lemma OneMore(x: Domain, newUuid: string)
    requires Steady(x)
    ensures var y := Round(x, newUuid);
            && y.Some? && Steady(y.value)
            && Live(y.value.devices.consoles) == Live(x.devices.consoles) + AddedConsole(x.base.system)
  {
    var b := Prepared(x.base, newUuid);
    RoundIsBack(x, newUuid);
    ListsStay(b, x.devices);
    ConsolesStay(b, x.devices);
  }

  // ----- any number of rounds

  /** From anything good a step succeeds, stays good and appends `one` to the view. */
  ghost predicate Adds<T(!new), V>(step: (T, string) -> Option<T>, good: T -> bool, view: T -> seq<V>, one: V) {
    forall x: T, input: string {:trigger step(x, input)} :: good(x) ==>
      var y := step(x, input);
      y.Some? && good(y.value) && view(y.value) == view(x) + [one]
  }

  function Times<V>(one: V, n: nat): seq<V> {
    if n == 0 then [] else [one] + Times(one, n - 1)
  }

  lemma {:induction false} IteratedAdds<T(!new), V>(step: (T, string) -> Option<T>, good: T -> bool,
                                                    view: T -> seq<V>, one: V, x: T, inputs: seq<string>)
    requires Adds(step, good, view, one) && good(x)
    ensures var y := Iterated(step, x, inputs);
            y.Some? && good(y.value) && view(y.value) == view(x) + Times(one, |inputs|)
    decreases |inputs|
  {
    if inputs == [] {
      assert view(x) + [] == view(x);
    } else {
      IteratedAdds(step, good, view, one, step(x, inputs[0]).value, inputs[1..]);
      Associative(view(x), [one], Times(one, |inputs| - 1));
    }
  }

  /** The console a container is given. */
  const ADDED := Dev(RES_CONSOLE, C.Console(C.Pty(None), None), C.ConsoleId(None))

  function LiveConsoles(x: Domain): seq<Dev<C.Console>> {
    Live(x.devices.consoles)
  }

  lemma RoundAdds()
    ensures Adds(Round, x => Steady(x), LiveConsoles, ADDED)
  {
    forall x: Domain, newUuid: string {:trigger Round(x, newUuid)} | Steady(x)
      ensures var y := Round(x, newUuid);
              y.Some? && Steady(y.value) && LiveConsoles(y.value) == LiveConsoles(x) + [ADDED]
    {
      OneMore(x, newUuid);
    }
  }

  /** Printing and parsing a container never comes to rest: after any number of
      rounds it can still be printed, its own consoles are still there in order, and
      behind them is one more for every round. */
  lemma ContainerGrows(x: Domain, newUuids: seq<string>)
    requires Steady(x)
    ensures var y := Rounds(x, newUuids);
            && y.Some? && Steady(y.value)
            && LiveConsoles(y.value) == LiveConsoles(x) + Times(ADDED, |newUuids|)
  {
    RoundAdds();
    IteratedAdds(Round, x => Steady(x), LiveConsoles, ADDED, x, newUuids);
  }
}
