/** Disks: disk_xml of libxkutil/xmlgen.c against parse_disk_device of
    libxkutil/device_parsing.c. */
module DiskXml {
  import opened Prelude
  import opened Xml
  import opened Devices

  datatype DiskType = DiskUnknown | DiskPhy | DiskFile | DiskFs

  datatype Disk = Disk(
    kind: Option<string>,
    device: Option<string>,
    driver: Option<string>,
    driverType: Option<string>,
    source: Option<string>,
    virtualDev: Option<string>,
    rawio: Option<string>,
    sgio: Option<string>,
    diskType: DiskType,
    readonly: bool,
    shareable: bool,
    busType: Option<string>,
    cache: Option<string>,
    accessMode: Option<string>,
    address: seq<Attr>)

  /** A calloc'ed struct disk_device. */
  const NO_DISK := Disk(None, None, None, None, None, None, None, None, DiskUnknown, false, false, None, None, None, [])

  // ----- what is printed

  function DriverKids(d: Disk): seq<Tree> {
    if d.driver.None? then []
    else [Leaf("driver", Prop("name", d.driver.value) + OptAttr("type", d.driverType) + OptAttr("cache", d.cache))]
  }

  function BlockSource(d: Disk): seq<Tree> {
    if d.source.Some? && d.source.value != "/dev/null" then [Leaf("source", Prop("dev", d.source.value))] else []
  }

  predicate EmptyCdrom(d: Disk) {
    d.device == Some("cdrom") && d.source == Some("")
  }

  function FileSource(d: Disk): seq<Tree> {
    if EmptyCdrom(d) then [] else [Leaf("source", Prop("file", TextOf(d.source)))]
  }

  function Target(d: Disk): Tree {
    Leaf("target", Prop("dev", TextOf(d.virtualDev)) + OptAttr("bus", d.busType))
  }

  function TailKids(d: Disk): seq<Tree> {
    [Target(d)] + Flag("readonly", d.readonly) + Flag("shareable", d.shareable) + AddressKids(d.address)
  }

  function DiskKids(d: Disk, source: seq<Tree>): seq<Tree> {
    DriverKids(d) + source + TailKids(d)
  }

  function BlockElement(d: Disk): Tree {
    Element("disk",
            Prop("type", "block") + OptAttr("device", d.device) + OptAttr("rawio", d.rawio) + OptAttr("sgio", d.sgio),
            DiskKids(d, BlockSource(d)))
  }

  function FileElement(d: Disk): Tree {
    Element("disk", Prop("type", "file") + OptAttr("device", d.device), DiskKids(d, FileSource(d)))
  }

  function FsElement(d: Disk): Tree {
    Element("filesystem", OptAttr("accessmode", d.accessMode),
            OptLeaf("driver", "type", d.driverType)
            + [Leaf("source", Prop("dir", TextOf(d.source))), Leaf("target", Prop("dir", TextOf(d.virtualDev)))]
            + AddressKids(d.address))
  }

  function DiskElement(d: Disk): Option<Tree> {
    match d.diskType
    case DiskPhy => Some(BlockElement(d))
    case DiskFile => Some(FileElement(d))
    case DiskFs => Some(FsElement(d))
    case DiskUnknown => None
  }

  // ----- what is read

  function BlockStep(d: Disk, kid: Tree): Option<Disk> {
    if Name(kid) == "driver" then
      if GetAttr(kid, "name").None? then None
      else Some(d.(driver := GetAttr(kid, "name"), driverType := GetAttr(kid, "type"), cache := GetAttr(kid, "cache")))
    else if Name(kid) == "source" then
      if GetAttr(kid, "file").Some? then Some(d.(source := GetAttr(kid, "file"), diskType := DiskFile))
      else if GetAttr(kid, "dev").Some? then Some(d.(source := GetAttr(kid, "dev"), diskType := DiskPhy))
      else None
    else if Name(kid) == "target" then
      if GetAttr(kid, "dev").None? then None
      else Some(d.(virtualDev := GetAttr(kid, "dev"), busType := GetAttr(kid, "bus")))
    else if Name(kid) == "readonly" then Some(d.(readonly := true))
    else if Name(kid) == "shareable" then Some(d.(shareable := true))
    else if Name(kid) == "address" then Some(d.(address := d.address + AddressOf(kid)))
    else Some(d)
  }

  /** The attributes parse_block_device reads before its loop. */
  function BlockStart(x: Tree): Disk {
    NO_DISK.(kind := GetAttr(x, "type"), device := GetAttr(x, "device"),
             rawio := GetAttr(x, "rawio"), sgio := GetAttr(x, "sgio"))
  }

  function BlockFinish(d: Disk): Option<Dev<Disk>> {
    var d1 := if d.device == Some("cdrom") && d.source.None? then d.(source := Some(""), diskType := DiskFile) else d;
    if d1.source.None? || d1.virtualDev.None? then None else Some(Dev(RES_DISK, d1, d1.virtualDev))
  }

  function BlockDevice(x: Tree): Option<Dev<Disk>> {
    if x.Text? || GetAttr(x, "type").None? || GetAttr(x, "device").None? then None
    else
      match Fold(BlockStep, BlockStart(x), x.kids)
      case None => None
      case Some(d) => BlockFinish(d)
  }

  function FsStep(d: Disk, kid: Tree): Option<Disk> {
    if Name(kid) == "source" then
      if GetAttr(kid, "dir").None? then None else Some(d.(source := GetAttr(kid, "dir")))
    else if Name(kid) == "target" then
      if GetAttr(kid, "dir").None? then None else Some(d.(virtualDev := GetAttr(kid, "dir")))
    else if Name(kid) == "driver" then Some(d.(driverType := GetAttr(kid, "type")))
    else if Name(kid) == "address" then Some(d.(address := d.address + AddressOf(kid)))
    else Some(d)
  }

  function FsDevice(x: Tree): Option<Dev<Disk>> {
    if x.Text? || GetAttr(x, "type").None? then None
    else
      match Fold(FsStep, NO_DISK.(kind := GetAttr(x, "type"), accessMode := GetAttr(x, "accessmode")), x.kids)
      case None => None
      case Some(d) =>
        if d.source.None? || d.virtualDev.None? then None
        else Some(Dev(RES_DISK, d.(diskType := DiskFs), d.virtualDev))
  }

  /** parse_disk_device */
  function DiskDevice(x: Tree): Option<Dev<Disk>> {
    if Name(x) == "disk" then BlockDevice(x)
    else if Name(x) == "filesystem" then FsDevice(x)
    else None
  }

  // ----- the printing code

  method DriverXml(disk: Builder, d: Disk)
    modifies disk`kids
    ensures disk.kids == old(disk.kids) + DriverKids(d)
  {
    if d.driver.Some? {
      var tmp := new Builder("driver");
      tmp.NewProp("name", d.driver);
      tmp.NewOptProp("type", d.driverType);
      tmp.NewOptProp("cache", d.cache);
      assert tmp.attrs == Prop("name", d.driver.value) + OptAttr("type", d.driverType) + OptAttr("cache", d.cache);
      disk.AddChild(tmp.Built());
    }
  }

  /** The part disk_block_xml and disk_file_xml end with. */
  method TargetXml(disk: Builder, d: Disk)
    modifies disk`kids
    ensures disk.kids == old(disk.kids) + TailKids(d)
  {
    var tmp := new Builder("target");
    tmp.NewProp("dev", d.virtualDev);
    tmp.NewOptProp("bus", d.busType);
    assert tmp.attrs == Prop("dev", TextOf(d.virtualDev)) + OptAttr("bus", d.busType);
    disk.AddChild(tmp.Built());
    if d.readonly {
      disk.AddChild(Leaf("readonly", []));
    }
    if d.shareable {
      disk.AddChild(Leaf("shareable", []));
    }
    DeviceAddressXml(disk, d.address);
    assert disk.kids == old(disk.kids) + TailKids(d);
  }

  method BlockSourceXml(disk: Builder, d: Disk)
    modifies disk`kids
    ensures disk.kids == old(disk.kids) + BlockSource(d)
  {
    if d.source.Some? && d.source.value != "/dev/null" {
      var tmp := new Builder("source");
      tmp.NewProp("dev", d.source);
      assert tmp.attrs == Prop("dev", d.source.value);
      disk.AddChild(tmp.Built());
    }
  }

  method DiskBlockXml(root: Builder, d: Disk)
    modifies root`kids
    ensures root.kids == old(root.kids) + [BlockElement(d)]
  {
    var disk := new Builder("disk");
    disk.NewProp("type", Some("block"));
    disk.NewOptProp("device", d.device);
    disk.NewOptProp("rawio", d.rawio);
    disk.NewOptProp("sgio", d.sgio);
    DriverXml(disk, d);
    assert disk.kids == DriverKids(d);
    BlockSourceXml(disk, d);
    TargetXml(disk, d);
    assert disk.attrs == BlockElement(d).attrs;
    root.AddChild(disk.Built());
  }

  /** Every file cdrom that is printed has a source, "" at least. */
  predicate SourceGiven(d: Disk) {
    d.diskType == DiskFile && d.device == Some("cdrom") ==> d.source.Some?
  }

  predicate SourcesGiven(devs: seq<Dev<Disk>>) {
    forall x :: x in Live(devs) ==> SourceGiven(x.dev)
  }

  /** disk_file_xml compares a cdrom's source with "" and so needs it non-NULL. */
  method DiskFileXml(root: Builder, d: Disk)
    requires d.device == Some("cdrom") ==> d.source.Some?
    modifies root`kids
    ensures root.kids == old(root.kids) + [FileElement(d)]
  {
    var disk := new Builder("disk");
    disk.NewProp("type", Some("file"));
    disk.NewOptProp("device", d.device);
    DriverXml(disk, d);
    assert disk.kids == DriverKids(d);
    if d.device == Some("cdrom") && d.source.value == "" {
    } else {
      var tmp := new Builder("source");
      tmp.NewProp("file", d.source);
      assert tmp.attrs == Prop("file", TextOf(d.source));
      disk.AddChild(tmp.Built());
    }
    assert disk.kids == DriverKids(d) + FileSource(d);
    TargetXml(disk, d);
    assert disk.attrs == FileElement(d).attrs;
    root.AddChild(disk.Built());
  }

  method DirXml(fs: Builder, name: string, dir: Option<string>)
    modifies fs`kids
    ensures fs.kids == old(fs.kids) + [Leaf(name, Prop("dir", TextOf(dir)))]
  {
    var tmp := new Builder(name);
    tmp.NewProp("dir", dir);
    assert tmp.attrs == Prop("dir", TextOf(dir));
    fs.AddChild(tmp.Built());
  }

  method DiskFsXml(root: Builder, d: Disk)
    modifies root`kids
    ensures root.kids == old(root.kids) + [FsElement(d)]
  {
    var fs := new Builder("filesystem");
    fs.NewOptProp("accessmode", d.accessMode);
    assert fs.attrs == FsElement(d).attrs;
    AddOptLeaf(fs, "driver", "type", d.driverType);
    assert fs.kids == OptLeaf("driver", "type", d.driverType);
    DirXml(fs, "source", d.source);
    DirXml(fs, "target", d.virtualDev);
    DeviceAddressXml(fs, d.address);
    assert fs.kids == FsElement(d).kids;
    root.AddChild(fs.Built());
  }

  method OneDiskXml(root: Builder, d: Disk) returns (ok: bool)
    requires SourceGiven(d)
    modifies root`kids
    ensures ok == DiskElement(d).Some?
    ensures ok ==> root.kids == old(root.kids) + [DiskElement(d).value]
  {
    ok := true;
    if d.diskType == DiskPhy {
      DiskBlockXml(root, d);
    } else if d.diskType == DiskFile {
      DiskFileXml(root, d);
    } else if d.diskType == DiskFs {
      DiskFsXml(root, d);
    } else {
      ok := false;
    }
  }

  /** disk_xml: false is the message "Unknown disk type". */
  method DisksXml(root: Builder, devs: seq<Dev<Disk>>) returns (ok: bool)
    requires SourcesGiven(devs)
    modifies root`kids
    ensures ok == PrintAll(devs, DiskElement).Some?
    ensures ok ==> root.kids == old(root.kids) + PrintAll(devs, DiskElement).value
  {
    ghost var all := PrintAll(devs, DiskElement);
    ok := true;
    var i := 0;
    while i < |devs| && ok
      invariant 0 <= i <= |devs|
      invariant !ok ==> all.None?
      invariant ok ==> Printing(all, PrintAll(devs[i..], DiskElement), old(root.kids), root.kids)
    {
      PrintNext(devs, i, DiskElement, old(root.kids), root.kids);
      if devs[i].resType != RES_UNKNOWN {
        LiveHas(devs, i);
        ok := OneDiskXml(root, devs[i].dev);
      }
      i := i + 1;
    }
  }

  // ----- the parsing code

  method ParseBlockDevice(x: Tree) returns (r: Option<Dev<Disk>>)
    requires x.Element?
    ensures r == BlockDevice(x)
  {
    var d := NO_DISK;
    d := d.(kind := GetAttr(x, "type"));
    if d.kind.None? {
      return None;
    }
    d := d.(device := GetAttr(x, "device"));
    if d.device.None? {
      return None;
    }
    d := d.(rawio := GetAttr(x, "rawio"), sgio := GetAttr(x, "sgio"));
    for i := 0 to |x.kids|
      invariant d.device.Some?
      invariant Fold(BlockStep, BlockStart(x), x.kids) == Fold(BlockStep, d, x.kids[i..])
    {
      var kid := x.kids[i];
      assert x.kids[i..][1..] == x.kids[i + 1..];
      if Name(kid) == "driver" {
        d := d.(driver := GetAttr(kid, "name"));
        if d.driver.None? {
          return None;
        }
        d := d.(driverType := GetAttr(kid, "type"), cache := GetAttr(kid, "cache"));
      } else if Name(kid) == "source" {
        if GetAttr(kid, "file").Some? {
          d := d.(source := GetAttr(kid, "file"), diskType := DiskFile);
          continue;
        }
        if GetAttr(kid, "dev").Some? {
          d := d.(source := GetAttr(kid, "dev"), diskType := DiskPhy);
          continue;
        }
        return None;
      } else if Name(kid) == "target" {
        d := d.(virtualDev := GetAttr(kid, "dev"));
        if d.virtualDev.None? {
          return None;
        }
        d := d.(busType := GetAttr(kid, "bus"));
      } else if Name(kid) == "readonly" {
        d := d.(readonly := true);
      } else if Name(kid) == "shareable" {
        d := d.(shareable := true);
      } else if Name(kid) == "address" {
        var address := ParseDeviceAddress(kid, d.address);
        d := d.(address := address);
      }
    }
    if d.device.value == "cdrom" && d.source.None? {
      d := d.(source := Some(""), diskType := DiskFile);
    }
    if d.source.None? || d.virtualDev.None? {
      return None;
    }
    return Some(Dev(RES_DISK, d, d.virtualDev));
  }

  method ParseFsDevice(x: Tree) returns (r: Option<Dev<Disk>>)
    requires x.Element?
    ensures r == FsDevice(x)
  {
    var d := NO_DISK.(kind := GetAttr(x, "type"));
    if d.kind.None? {
      return None;
    }
    d := d.(accessMode := GetAttr(x, "accessmode"));
    ghost var d0 := d;
    for i := 0 to |x.kids|
      invariant Fold(FsStep, d0, x.kids) == Fold(FsStep, d, x.kids[i..])
    {
      var kid := x.kids[i];
      assert x.kids[i..][1..] == x.kids[i + 1..];
      if Name(kid) == "source" {
        d := d.(source := GetAttr(kid, "dir"));
        if d.source.None? {
          return None;
        }
      } else if Name(kid) == "target" {
        d := d.(virtualDev := GetAttr(kid, "dir"));
        if d.virtualDev.None? {
          return None;
        }
      } else if Name(kid) == "driver" {
        d := d.(driverType := GetAttr(kid, "type"));
      } else if Name(kid) == "address" {
        var address := ParseDeviceAddress(kid, d.address);
        d := d.(address := address);
      }
    }
    if d.source.None? || d.virtualDev.None? {
      return None;
    }
    d := d.(diskType := DiskFs);
    return Some(Dev(RES_DISK, d, d.virtualDev));
  }

  // ----- what survives printing and parsing

  function Driven(acc: Disk, d: Disk): Disk {
    if d.driver.None? then acc else acc.(driver := d.driver, driverType := d.driverType, cache := d.cache)
  }

  lemma DriverReadBack(acc: Disk, d: Disk)
    ensures Fold(BlockStep, acc, DriverKids(d)) == Some(Driven(acc, d))
  {
    if d.driver.Some? {
      LookupGroups(Prop("name", d.driver.value), OptAttr("type", d.driverType), OptAttr("cache", d.cache), []);
      var kid := DriverKids(d)[0];
      assert DriverKids(d) == [kid];
      FoldOne(BlockStep, acc, kid);
    }
  }

  lemma FlagsReadBack(acc: Disk, d: Disk)
    ensures Fold(BlockStep, acc, Flag("readonly", d.readonly) + Flag("shareable", d.shareable))
            == Some(acc.(readonly := acc.readonly || d.readonly, shareable := acc.shareable || d.shareable))
  {
    FoldConcat(BlockStep, acc, Flag("readonly", d.readonly), Flag("shareable", d.shareable));
    var acc1 := acc.(readonly := acc.readonly || d.readonly);
    FoldOne(BlockStep, acc, Leaf("readonly", []));
    FoldOne(BlockStep, acc1, Leaf("shareable", []));
  }

  lemma AddressReadBack(acc: Disk, a: seq<Attr>)
    requires DistinctKeys(a)
    ensures Fold(BlockStep, acc, AddressKids(a)) == Some(acc.(address := acc.address + a))
  {
    if a == [] {
      assert acc.address + a == acc.address;
    } else {
      AddressRoundTrip(a);
      FoldOne(BlockStep, acc, Leaf("address", a));
    }
  }

  lemma TargetReadBack(acc: Disk, d: Disk)
    ensures Fold(BlockStep, acc, [Target(d)])
            == Some(acc.(virtualDev := Some(TextOf(d.virtualDev)), busType := d.busType))
  {
    LookupGroups(Prop("dev", TextOf(d.virtualDev)), OptAttr("bus", d.busType), [], []);
    FoldOne(BlockStep, acc, Target(d));
  }

  lemma EndReadBack(acc: Disk, d: Disk)
    requires DistinctKeys(d.address)
    ensures Fold(BlockStep, acc, Flag("readonly", d.readonly) + Flag("shareable", d.shareable) + AddressKids(d.address))
            == Some(acc.(readonly := acc.readonly || d.readonly, shareable := acc.shareable || d.shareable,
                         address := acc.address + d.address))
  {
    var flags := Flag("readonly", d.readonly) + Flag("shareable", d.shareable);
    FoldConcat(BlockStep, acc, flags, AddressKids(d.address));
    FlagsReadBack(acc, d);
    AddressReadBack(acc.(readonly := acc.readonly || d.readonly, shareable := acc.shareable || d.shareable),
                 d.address);
  }

  lemma TailReadBack(acc: Disk, d: Disk)
    requires DistinctKeys(d.address)
    ensures Fold(BlockStep, acc, TailKids(d)) == Some(Ended(acc, d))
  {
    var rest := Flag("readonly", d.readonly) + Flag("shareable", d.shareable) + AddressKids(d.address);
    assert TailKids(d) == [Target(d)] + rest;
    FoldConcat(BlockStep, acc, [Target(d)], rest);
    TargetReadBack(acc, d);
    EndReadBack(acc.(virtualDev := Some(TextOf(d.virtualDev)), busType := d.busType), d);
  }

  /** What the children after the source add. */
  function Ended(acc: Disk, d: Disk): Disk {
    acc.(virtualDev := Some(TextOf(d.virtualDev)), busType := d.busType,
         readonly := acc.readonly || d.readonly, shareable := acc.shareable || d.shareable,
         address := acc.address + d.address)
  }

  lemma KidsReadBack(acc: Disk, d: Disk, source: seq<Tree>, sourced: Disk)
    requires DistinctKeys(d.address)
    requires Fold(BlockStep, Driven(acc, d), source) == Some(sourced)
    ensures Fold(BlockStep, acc, DiskKids(d, source)) == Some(Ended(sourced, d))
  {
    FoldConcat(BlockStep, acc, DriverKids(d) + source, TailKids(d));
    FoldConcat(BlockStep, acc, DriverKids(d), source);
    DriverReadBack(acc, d);
    TailReadBack(sourced, d);
  }

  lemma TailLeaves(d: Disk)
    ensures AllLeaves(DriverKids(d)) && AllLeaves(TailKids(d))
  {
  }

  lemma BlockLeaves(d: Disk)
    ensures AllLeaves(BlockElement(d).kids)
  {
    TailLeaves(d);
    assert AllLeaves(BlockSource(d));
  }

  lemma FileLeaves(d: Disk)
    ensures AllLeaves(FileElement(d).kids)
  {
    TailLeaves(d);
    assert AllLeaves(FileSource(d));
  }

  lemma ReparsedBlockDevice(x: Tree, depth: nat)
    requires x.Element? && AllLeaves(x.kids)
    ensures BlockDevice(Reparse(x, depth)) == BlockDevice(x)
  {
    FoldReparse(BlockStep, BlockStart(x), x, depth);
  }

  lemma SourceReadBack(acc: Disk, source: seq<Tree>, key: string, value: string)
    requires source == [Leaf("source", Prop(key, value))] && (key == "file" || key == "dev")
    ensures Fold(BlockStep, acc, source)
            == Some(acc.(source := Some(value), diskType := if key == "file" then DiskFile else DiskPhy))
  {
    FoldOne(BlockStep, acc, Leaf("source", Prop(key, value)));
  }

  function BlockAttrs(d: Disk): Disk {
    NO_DISK.(kind := Some("block"), device := d.device, rawio := d.rawio, sgio := d.sgio)
  }

  function FileAttrs(d: Disk): Disk {
    NO_DISK.(kind := Some("file"), device := d.device)
  }

  lemma AttrsReadBack(d: Disk)
    ensures BlockStart(BlockElement(d)) == BlockAttrs(d) && BlockStart(FileElement(d)) == FileAttrs(d)
  {
    LookupGroups(Prop("type", "block"), OptAttr("device", d.device), OptAttr("rawio", d.rawio),
                 OptAttr("sgio", d.sgio));
    LookupGroups(Prop("type", "file"), OptAttr("device", d.device), [], []);
  }

  /** The disk read from a printed block disk, before the final checks. */
  function BlockRead(d: Disk): Disk {
    var driven := Driven(BlockAttrs(d), d);
    Ended(if BlockSource(d) == [] then driven else driven.(source := d.source, diskType := DiskPhy), d)
  }

  function FileRead(d: Disk): Disk {
    var driven := Driven(FileAttrs(d), d);
    Ended(if EmptyCdrom(d) then driven else driven.(source := Some(TextOf(d.source)), diskType := DiskFile), d)
  }

  lemma BlockKidsReadBack(d: Disk)
    requires DistinctKeys(d.address)
    ensures Fold(BlockStep, BlockAttrs(d), BlockElement(d).kids) == Some(BlockRead(d))
  {
    var driven := Driven(BlockAttrs(d), d);
    if BlockSource(d) != [] {
      SourceReadBack(driven, BlockSource(d), "dev", d.source.value);
    }
    KidsReadBack(BlockAttrs(d), d, BlockSource(d),
                 if BlockSource(d) == [] then driven else driven.(source := d.source, diskType := DiskPhy));
  }

  lemma BlockReadBack(d: Disk, depth: nat)
    requires DistinctKeys(d.address)
    ensures BlockDevice(Reparse(BlockElement(d), depth)) == if d.device.None? then None else BlockFinish(BlockRead(d))
  {
    var x := BlockElement(d);
    BlockLeaves(d);
    ReparsedBlockDevice(x, depth);
    AttrsReadBack(d);
    assert GetAttr(x, "type") == BlockStart(x).kind && GetAttr(x, "device") == BlockStart(x).device;
    BlockKidsReadBack(d);
  }

  lemma FileKidsReadBack(d: Disk)
    requires DistinctKeys(d.address)
    ensures Fold(BlockStep, FileAttrs(d), FileElement(d).kids) == Some(FileRead(d))
  {
    var driven := Driven(FileAttrs(d), d);
    if FileSource(d) != [] {
      SourceReadBack(driven, FileSource(d), "file", TextOf(d.source));
    }
    KidsReadBack(FileAttrs(d), d, FileSource(d),
                 if EmptyCdrom(d) then driven else driven.(source := Some(TextOf(d.source)), diskType := DiskFile));
  }

  lemma FileReadBack(d: Disk, depth: nat)
    requires DistinctKeys(d.address)
    ensures BlockDevice(Reparse(FileElement(d), depth)) == if d.device.None? then None else BlockFinish(FileRead(d))
  {
    var x := FileElement(d);
    FileLeaves(d);
    ReparsedBlockDevice(x, depth);
    AttrsReadBack(d);
    assert GetAttr(x, "type") == BlockStart(x).kind && GetAttr(x, "device") == BlockStart(x).device;
    FileKidsReadBack(d);
  }

  /** The disks that printing loses nothing of. */
  predicate Printable(d: Disk) {
    && d.device.Some? && d.source.Some? && d.virtualDev.Some? && d.accessMode.None?
    && (d.driver.None? ==> d.driverType.None? && d.cache.None?)
    && (if d.diskType == DiskPhy then d.kind == Some("block") && d.source != Some("/dev/null")
        else d.diskType == DiskFile && d.kind == Some("file") && d.rawio.None? && d.sgio.None?)
  }

  lemma DriverKidsWellFormed(d: Disk)
    ensures forall k :: k in DriverKids(d) ==> WellFormed(k)
  {
    if d.driver.Some? {
      DistinctGroups(Prop("name", d.driver.value), OptAttr("type", d.driverType), OptAttr("cache", d.cache), []);
    }
  }

  lemma TailKidsWellFormed(d: Disk)
    ensures (forall k :: k in TailKids(d) ==> WellFormed(k)) <==> DistinctKeys(d.address)
  {
    DistinctGroups(Prop("dev", TextOf(d.virtualDev)), OptAttr("bus", d.busType), [], []);
    assert WellFormed(Target(d)) && WellFormed(Leaf("readonly", [])) && WellFormed(Leaf("shareable", []));
    if d.address != [] {
      assert Leaf("address", d.address) in TailKids(d);
    }
  }

  lemma DiskAttrsWellFormed(d: Disk)
    ensures DistinctKeys(BlockElement(d).attrs) && DistinctKeys(FileElement(d).attrs)
  {
    DistinctGroups(Prop("type", "block"), OptAttr("device", d.device), OptAttr("rawio", d.rawio),
                 OptAttr("sgio", d.sgio));
    DistinctGroups(Prop("type", "file"), OptAttr("device", d.device), [], []);
  }

  lemma DiskKidsWellFormed(d: Disk, source: seq<Tree>)
    requires forall k :: k in source ==> WellFormed(k)
    ensures (forall k :: k in DiskKids(d, source) ==> WellFormed(k)) <==> DistinctKeys(d.address)
  {
    DriverKidsWellFormed(d);
    TailKidsWellFormed(d);
    assert forall k :: k in TailKids(d) ==> k in DiskKids(d, source);
  }

  lemma FsKidsWellFormed(d: Disk)
    ensures AllWellFormed(FsElement(d).kids) <==> DistinctKeys(d.address)
  {
    var dirs := [Leaf("source", Prop("dir", TextOf(d.source))), Leaf("target", Prop("dir", TextOf(d.virtualDev)))];
    OptLeafWellFormed("driver", "type", d.driverType);
    AddressWellFormed(d.address);
    assert AllWellFormed(dirs);
    AllWellFormedConcat(OptLeaf("driver", "type", d.driverType), dirs);
    AllWellFormedConcat(OptLeaf("driver", "type", d.driverType) + dirs, AddressKids(d.address));
  }

  /** A printed disk is well-formed exactly when its address keys differ. */
  lemma DiskWellFormed(d: Disk)
    requires DiskElement(d).Some?
    ensures WellFormed(DiskElement(d).value) <==> DistinctKeys(d.address)
  {
    if d.diskType == DiskFs {
      FsKidsWellFormed(d);
    } else {
      DiskAttrsWellFormed(d);
      DiskKidsWellFormed(d, if d.diskType == DiskPhy then BlockSource(d) else FileSource(d));
    }
  }

  lemma BlockReadUnchanged(d: Disk)
    requires d.diskType == DiskPhy && BlockSource(d) != []
    ensures BlockRead(d) == d
            <==> d.virtualDev.Some? && d.accessMode.None? && d.kind == Some("block")
                 && (d.driver.None? ==> d.driverType.None? && d.cache.None?)
  {
    assert [] + d.address == d.address;
  }

  lemma BlockRoundTrip(dev: Dev<Disk>, depth: nat)
    requires dev.dev.diskType == DiskPhy && DistinctKeys(dev.dev.address)
    ensures BlockDevice(Reparse(BlockElement(dev.dev), depth)) == Some(dev)
            <==> Printable(dev.dev) && dev.resType == RES_DISK && dev.id == dev.dev.virtualDev
  {
    var d := dev.dev;
    BlockReadBack(d, depth);
    if BlockSource(d) != [] {
      BlockReadUnchanged(d);
      assert BlockFinish(BlockRead(d)) == Some(Dev(RES_DISK, BlockRead(d), BlockRead(d).virtualDev));
    } else {
      assert BlockFinish(BlockRead(d)) != Some(dev);
    }
  }

  lemma FileRoundTrip(dev: Dev<Disk>, depth: nat)
    requires dev.dev.diskType == DiskFile && DistinctKeys(dev.dev.address)
    requires dev.dev.device == Some("cdrom") ==> dev.dev.source.Some?
    ensures BlockDevice(Reparse(FileElement(dev.dev), depth)) == Some(dev)
            <==> Printable(dev.dev) && dev.resType == RES_DISK && dev.id == dev.dev.virtualDev
  {
    assert [] + dev.dev.address == dev.dev.address;
    FileReadBack(dev.dev, depth);
  }

  /** A block or file disk comes back as itself exactly when it is `Printable`
      and its address keys differ: raw I/O settings of file disks, driver details
      without a driver, "/dev/null" and missing fields are what gets lost. */
  lemma DiskRoundTrip(dev: Dev<Disk>, depth: nat)
    requires dev.dev.diskType == DiskPhy || dev.dev.diskType == DiskFile
    requires DistinctKeys(dev.dev.address) && SourceGiven(dev.dev)
    ensures DiskDevice(Reparse(DiskElement(dev.dev).value, depth)) == Some(dev)
            <==> Printable(dev.dev) && dev.resType == RES_DISK && dev.id == dev.dev.virtualDev
  {
    if dev.dev.diskType == DiskPhy {
      BlockRoundTrip(dev, depth);
    } else {
      FileRoundTrip(dev, depth);
    }
  }

  /** A file system is printed without the type its parser insists on. */
  lemma FileSystemIsLost(d: Disk, depth: nat)
    requires d.diskType == DiskFs
    ensures DiskDevice(Reparse(DiskElement(d).value, depth)) == None
  {
  }
}
