/** What parse_disk_device of libxkutil/device_parsing.c finds in an element, told for
    every element and field by field, without its loops; and file systems, which
    libvirt writes with a type and the printer without one. */
module DiskReading {
  import opened Prelude
  import opened Xml
  import opened XPath
  import opened Devices
  import D = DiskXml

  // ----- file systems

  function FsFound(d: D.Disk, kids: seq<Tree>): D.Disk {
    d.(source := LastAttr(kids, "source", "dir", d.source), virtualDev := LastAttr(kids, "target", "dir", d.virtualDev),
       driverType := LastAttr(kids, "driver", "type", d.driverType), address := d.address + Addresses(kids))
  }

  predicate FsAccepted(kids: seq<Tree>) {
    EveryHas(kids, "source", "dir") && EveryHas(kids, "target", "dir")
  }

  lemma FsNext(d: D.Disk, kids: seq<Tree>)
    requires kids != []
    ensures FsAccepted(kids) <==> D.FsStep(d, kids[0]).Some? && FsAccepted(kids[1..])
    ensures D.FsStep(d, kids[0]).Some? ==> FsFound(d, kids) == FsFound(D.FsStep(d, kids[0]).value, kids[1..])
  {
    EveryHasNext(kids, "source", "dir");
    EveryHasNext(kids, "target", "dir");
    LastAttrNext(kids, "source", "dir", d.source);
    LastAttrNext(kids, "target", "dir", d.virtualDev);
    LastAttrNext(kids, "driver", "type", d.driverType);
    AddressesNext(d.address, kids);
  }

  lemma {:induction false} FsLoop(d: D.Disk, kids: seq<Tree>)
    ensures Fold(D.FsStep, d, kids) == if FsAccepted(kids) then Some(FsFound(d, kids)) else None
    decreases |kids|
  {
    if kids == [] {
      assert d.address + [] == d.address;
    } else {
      FsNext(d, kids);
      var next := D.FsStep(d, kids[0]);
      if next.Some? {
        FsLoop(next.value, kids[1..]);
      }
    }
  }

  /** A <filesystem> is a disk exactly when it has a type, a source and a target, and
      all its sources and targets name a directory.  The last of each counts. */
  lemma FilesystemRead(x: Tree)
    requires x.Element?
    ensures D.FsDevice(x)
            == if GetAttr(x, "type").None? || !EveryHas(x.kids, "source", "dir") || !EveryHas(x.kids, "target", "dir")
                  || !Has(x.kids, "source") || !Has(x.kids, "target")
               then None
               else
                 var target := LastAttr(x.kids, "target", "dir", None);
                 Some(Dev(RES_DISK,
                          D.NO_DISK.(kind := GetAttr(x, "type"), accessMode := GetAttr(x, "accessmode"),
                                     diskType := D.DiskFs, source := LastAttr(x.kids, "source", "dir", None),
                                     virtualDev := target, driverType := LastAttr(x.kids, "driver", "type", None),
                                     address := Addresses(x.kids)),
                          target))
  {
    FsLoop(D.NO_DISK.(kind := GetAttr(x, "type"), accessMode := GetAttr(x, "accessmode")), x.kids);
    assert [] + Addresses(x.kids) == Addresses(x.kids);
    if FsAccepted(x.kids) {
      LastAttrFound(x.kids, "source", "dir");
      LastAttrFound(x.kids, "target", "dir");
    }
  }

  /** A file system as libvirt writes it: with the type that the printer leaves out. */
  function FsWritten(d: D.Disk): Tree {
    Element("filesystem", Prop("type", TextOf(d.kind)) + OptAttr("accessmode", d.accessMode), D.FsElement(d).kids)
  }

  function FsFront(d: D.Disk): seq<Tree> {
    OptLeaf("driver", "type", d.driverType)
    + [Leaf("source", Prop("dir", TextOf(d.source))), Leaf("target", Prop("dir", TextOf(d.virtualDev)))]
  }

  lemma FsFrontFolded(d0: D.Disk, d: D.Disk)
    requires d0.driverType.None?
    ensures Fold(D.FsStep, d0, FsFront(d))
            == Some(d0.(driverType := d.driverType, source := Some(TextOf(d.source)),
                        virtualDev := Some(TextOf(d.virtualDev))))
  {
    var driver := OptLeaf("driver", "type", d.driverType);
    var source := Leaf("source", Prop("dir", TextOf(d.source)));
    var target := Leaf("target", Prop("dir", TextOf(d.virtualDev)));
    FoldConcat(D.FsStep, d0, driver, [source, target]);
    if d.driverType.Some? {
      FoldOne(D.FsStep, d0, driver[0]);
    }
    var d1 := d0.(driverType := d.driverType);
    var d2 := d1.(source := Some(TextOf(d.source)));
    FoldTwo(D.FsStep, d1, d2, d2.(virtualDev := Some(TextOf(d.virtualDev))), source, target);
  }

  lemma FsKidsFolded(d0: D.Disk, d: D.Disk)
    requires d0.driverType.None? && d0.address == [] && DistinctKeys(d.address)
    ensures Fold(D.FsStep, d0, D.FsElement(d).kids)
            == Some(d0.(driverType := d.driverType, source := Some(TextOf(d.source)),
                        virtualDev := Some(TextOf(d.virtualDev)), address := d.address))
  {
    FsFrontFolded(d0, d);
    FoldConcat(D.FsStep, d0, FsFront(d), AddressKids(d.address));
    assert D.FsElement(d).kids == FsFront(d) + AddressKids(d.address);
    if d.address != [] {
      AddressRoundTrip(d.address);
      var d1 := d0.(driverType := d.driverType, source := Some(TextOf(d.source)),
                    virtualDev := Some(TextOf(d.virtualDev)));
      FoldOne(D.FsStep, d1, Leaf("address", d.address));
      assert [] + d.address == d.address;
    }
  }

  /** What of a file system its element carries. */
  predicate FsCarried(d: D.Disk) {
    && d.diskType == D.DiskFs && d.kind.Some? && d.source.Some? && d.virtualDev.Some?
    && d.device.None? && d.driver.None? && d.rawio.None? && d.sgio.None? && d.busType.None? && d.cache.None?
    && !d.readonly && !d.shareable
  }

  /** The printer writes the same but for the type. */
  lemma FsPrinted(d: D.Disk)
    ensures D.FsElement(d)
            == Element("filesystem", if d.accessMode.Some? then [Attr("accessmode", d.accessMode.value)] else [],
                       FsWritten(d).kids)
  {
  }

  /** Every disk can be printed but those of unknown kind. */
  lemma DiskPrints(d: D.Disk)
    ensures D.DiskElement(d).Some? <==> d.diskType != D.DiskUnknown
  {
  }

  lemma FsLeaves(d: D.Disk)
    ensures AllLeaves(FsWritten(d).kids)
  {
  }

  lemma FsIgnoresText()
    ensures IgnoresText(D.FsStep)
  {
  }

  lemma FsReparsed(x: Tree, depth: nat)
    requires x.Element? && AllLeaves(x.kids)
    ensures D.FsDevice(Reparse(x, depth)) == D.FsDevice(x)
  {
    FsIgnoresText();
    FoldSettled(D.FsStep, D.NO_DISK.(kind := GetAttr(x, "type"), accessMode := GetAttr(x, "accessmode")), x, depth);
  }

  lemma FsWrittenRead(d: D.Disk, depth: nat)
    requires d.kind.Some? && DistinctKeys(d.address)
    ensures D.FsDevice(Reparse(FsWritten(d), depth))
            == Some(Dev(RES_DISK,
                        D.NO_DISK.(kind := d.kind, accessMode := d.accessMode, diskType := D.DiskFs,
                                   driverType := d.driverType, source := Some(TextOf(d.source)),
                                   virtualDev := Some(TextOf(d.virtualDev)), address := d.address),
                        Some(TextOf(d.virtualDev))))
  {
    var x := FsWritten(d);
    var d0 := D.NO_DISK.(kind := d.kind, accessMode := d.accessMode);
    LookupGroups(Prop("type", TextOf(d.kind)), OptAttr("accessmode", d.accessMode), [], []);
    FsLeaves(d);
    FsReparsed(x, depth);
    FsKidsFolded(d0, d);
  }

  /** What libvirt writes of a file system is read as it is, exactly when the fields
      that the element does not carry are unset. */
  lemma FilesystemComesBack(d: D.Disk, depth: nat)
    requires d.diskType == D.DiskFs && d.kind.Some? && d.source.Some? && d.virtualDev.Some? && DistinctKeys(d.address)
    ensures D.DiskDevice(Reparse(FsWritten(d), depth)) == Some(Dev(RES_DISK, d, d.virtualDev)) <==> FsCarried(d)
  {
    FsWrittenRead(d, depth);
  }

  // ----- block and file disks

  predicate HasSource(k: Tree) {
    GetAttr(k, "file").Some? || GetAttr(k, "dev").Some?
  }

  predicate DiskAccepted(kids: seq<Tree>) {
    && EveryHas(kids, "driver", "name") && EveryHas(kids, "target", "dev")
    && forall i :: 0 <= i < |kids| && Name(kids[i]) == "source" ==> HasSource(kids[i])
  }

  /** The file of the last source, or else its device. */
  function SourceFound(kids: seq<Tree>, was: Option<string>): Option<string> {
    match LastNode(kids, "source") case None => was case Some(k) => OrElse(GetAttr(k, "file"), GetAttr(k, "dev"))
  }

  function TypeFound(kids: seq<Tree>, was: D.DiskType): D.DiskType {
    match LastNode(kids, "source")
    case None => was
    case Some(k) => if GetAttr(k, "file").Some? then D.DiskFile else D.DiskPhy
  }

  function DiskFound(d: D.Disk, kids: seq<Tree>): D.Disk {
    d.(driver := LastAttr(kids, "driver", "name", d.driver),
       driverType := LastAttr(kids, "driver", "type", d.driverType),
       cache := LastAttr(kids, "driver", "cache", d.cache), source := SourceFound(kids, d.source),
       diskType := TypeFound(kids, d.diskType), virtualDev := LastAttr(kids, "target", "dev", d.virtualDev),
       busType := LastAttr(kids, "target", "bus", d.busType), readonly := d.readonly || Has(kids, "readonly"),
       shareable := d.shareable || Has(kids, "shareable"), address := d.address + Addresses(kids))
  }

  lemma DiskAcceptedNext(d: D.Disk, kids: seq<Tree>)
    requires kids != []
    ensures DiskAccepted(kids) <==> D.BlockStep(d, kids[0]).Some? && DiskAccepted(kids[1..])
  {
    EveryHasNext(kids, "driver", "name");
    EveryHasNext(kids, "target", "dev");
    assert forall i :: 0 < i < |kids| ==> kids[i] == kids[1..][i - 1];
    assert forall i :: 0 <= i < |kids[1..]| ==> kids[1..][i] == kids[i + 1];
  }

  lemma DriverNext(d: D.Disk, kids: seq<Tree>)
    requires kids != [] && D.BlockStep(d, kids[0]).Some?
    ensures var e := D.BlockStep(d, kids[0]).value;
            && LastAttr(kids, "driver", "name", d.driver) == LastAttr(kids[1..], "driver", "name", e.driver)
            && LastAttr(kids, "driver", "type", d.driverType) == LastAttr(kids[1..], "driver", "type", e.driverType)
            && LastAttr(kids, "driver", "cache", d.cache) == LastAttr(kids[1..], "driver", "cache", e.cache)
  {
    LastAttrNext(kids, "driver", "name", d.driver);
    LastAttrNext(kids, "driver", "type", d.driverType);
    LastAttrNext(kids, "driver", "cache", d.cache);
  }

  lemma TargetNext(d: D.Disk, kids: seq<Tree>)
    requires kids != [] && D.BlockStep(d, kids[0]).Some?
    ensures var e := D.BlockStep(d, kids[0]).value;
            && LastAttr(kids, "target", "dev", d.virtualDev) == LastAttr(kids[1..], "target", "dev", e.virtualDev)
            && LastAttr(kids, "target", "bus", d.busType) == LastAttr(kids[1..], "target", "bus", e.busType)
  {
    LastAttrNext(kids, "target", "dev", d.virtualDev);
    LastAttrNext(kids, "target", "bus", d.busType);
  }

  lemma SourceNext(d: D.Disk, kids: seq<Tree>)
    requires kids != [] && D.BlockStep(d, kids[0]).Some?
    ensures var e := D.BlockStep(d, kids[0]).value;
            && SourceFound(kids, d.source) == SourceFound(kids[1..], e.source)
            && TypeFound(kids, d.diskType) == TypeFound(kids[1..], e.diskType)
  {
    LastNodeNext(kids, "source");
  }

  lemma FlagsAfter(d: D.Disk, kid: Tree)
    requires D.BlockStep(d, kid).Some?
    ensures var e := D.BlockStep(d, kid).value;
            && e.readonly == (d.readonly || Name(kid) == "readonly")
            && e.shareable == (d.shareable || Name(kid) == "shareable")
  {
  }

  lemma AddressAfter(d: D.Disk, kid: Tree)
    requires D.BlockStep(d, kid).Some?
    ensures D.BlockStep(d, kid).value.address
            == if Name(kid) == "address" then d.address + AddressOf(kid) else d.address
  {
  }

  lemma FlagsNext(d: D.Disk, kids: seq<Tree>)
    requires kids != [] && D.BlockStep(d, kids[0]).Some?
    ensures var e := D.BlockStep(d, kids[0]).value;
            && (d.readonly || Has(kids, "readonly")) == (e.readonly || Has(kids[1..], "readonly"))
            && (d.shareable || Has(kids, "shareable")) == (e.shareable || Has(kids[1..], "shareable"))
            && d.address + Addresses(kids) == e.address + Addresses(kids[1..])
  {
    FlagsAfter(d, kids[0]);
    AddressAfter(d, kids[0]);
    HasNext(kids, "readonly");
    HasNext(kids, "shareable");
    AddressesNext(d.address, kids);
  }

  /** No child touches what the attributes give. */
  lemma OthersNext(d: D.Disk, kid: Tree)
    requires D.BlockStep(d, kid).Some?
    ensures var e := D.BlockStep(d, kid).value;
            && e.kind == d.kind && e.device == d.device && e.rawio == d.rawio && e.sgio == d.sgio
            && e.accessMode == d.accessMode
  {
  }

  lemma DiskNext(d: D.Disk, kids: seq<Tree>)
    requires kids != [] && D.BlockStep(d, kids[0]).Some?
    ensures DiskFound(d, kids) == DiskFound(D.BlockStep(d, kids[0]).value, kids[1..])
  {
    DriverNext(d, kids);
    TargetNext(d, kids);
    SourceNext(d, kids);
    FlagsNext(d, kids);
    OthersNext(d, kids[0]);
  }

  lemma {:induction false} DiskLoop(d: D.Disk, kids: seq<Tree>)
    ensures Fold(D.BlockStep, d, kids) == if DiskAccepted(kids) then Some(DiskFound(d, kids)) else None
    decreases |kids|
  {
    if kids == [] {
      assert d.address + [] == d.address;
    } else {
      DiskAcceptedNext(d, kids);
      var next := D.BlockStep(d, kids[0]);
      if next.Some? {
        DiskNext(d, kids);
        DiskLoop(next.value, kids[1..]);
      }
    }
  }

  lemma SourceIsFound(kids: seq<Tree>)
    requires DiskAccepted(kids)
    ensures SourceFound(kids, None).Some? <==> Has(kids, "source")
  {
    HasIsSelected(kids, "source");
    SelectedAreKids(kids, "source");
  }

  /** A <disk> is a disk exactly when it has a type, a device and a target, and a source
      unless it is a cdrom, and all its drivers are named, its sources and targets name
      something.  The last driver, source and target count; a file is preferred to a
      device, and a cdrom without a source is a file with an empty one. */
  lemma DiskRead(x: Tree)
    requires x.Element?
    ensures D.BlockDevice(x)
            == if GetAttr(x, "type").None? || GetAttr(x, "device").None?
                  || !EveryHas(x.kids, "driver", "name") || !EveryHas(x.kids, "target", "dev")
                  || (exists i :: 0 <= i < |x.kids| && Name(x.kids[i]) == "source" && !HasSource(x.kids[i]))
                  || !Has(x.kids, "target") || (!Has(x.kids, "source") && GetAttr(x, "device") != Some("cdrom"))
               then None
               else
                 var source := LastNode(x.kids, "source");
                 var target := LastAttr(x.kids, "target", "dev", None);
                 Some(Dev(RES_DISK,
                          D.Disk(GetAttr(x, "type"), GetAttr(x, "device"), LastAttr(x.kids, "driver", "name", None),
                                 LastAttr(x.kids, "driver", "type", None),
                                 if source.None? then Some("")
                                 else OrElse(GetAttr(source.value, "file"), GetAttr(source.value, "dev")),
                                 target, GetAttr(x, "rawio"), GetAttr(x, "sgio"),
                                 if source.None? || GetAttr(source.value, "file").Some? then D.DiskFile else D.DiskPhy,
                                 Has(x.kids, "readonly"), Has(x.kids, "shareable"),
                                 LastAttr(x.kids, "target", "bus", None), LastAttr(x.kids, "driver", "cache", None),
                                 None, Addresses(x.kids)),
                          target))
  {
    var kids := x.kids;
    DiskLoop(D.BlockStart(x), kids);
    assert [] + Addresses(kids) == Addresses(kids);
    if DiskAccepted(kids) {
      SourceIsFound(kids);
      HasIsSelected(kids, "source");
      LastAttrFound(kids, "target", "dev");
    }
  }
}
