# libvirt-cim in Dafny

libvirt-cim presents libvirt's domains, devices and network filters as CIM
instances. This project models the parts of it that hold state, loops and
inverse functions, and proves what they promise:

- `RingList`: the circular doubly linked list, on the heap. A ghost sequence of
  nodes ties pointers, counter and contents together.
- `Snapshots`, `Lifecycle`, `LifecycleProvider`: the native lifecycle indication
  provider. Snapshot comparison raises CREATED, DELETED and MODIFIED; the
  start/stop protocol is a state machine whose steps interleave freely, and
  `ActivateFilter` and `DeActivateFilter` are code proved to be chains of its steps.
- `Xml`, `Devices`, `DiskXml`, `NetXml`, `ConsoleXml`, `GraphicsXml`,
  `ControllerXml`, `PlainXml`, `OsXml`, `DomainXml`, `DomainRoundTrip`,
  `DomainTheorems`, `ContainerRounds`: printing a domain as XML and parsing it
  again, device kind by device kind, for whole domains, and round after round.
- `XPath`, `DiskReading`, `NetReading`, `ViewReading`, `DomainReading`: what the
  parsers find in any element at all, field by field and without their loops, as
  XPath would put it; and what is printed that no parser reads.
- `Capabilities`: libvirt's capabilities read, merged and searched.
- `Infostore`, `ComputerSystem`: the XML-backed key/value store with its UUID
  guard, and the recorded state request as its client.
- `AclFilter`, `NestedFilter`: filters with their reference lists on the ring,
  printed, parsed and walked in both association directions.
- `KvmSap`: VNC ports matched against two tables of TCP sockets.
- `DeviceIds`: published device ids and their way back.
- `Prelude`, `Libvirt`, `Decimal`: optional values and string comparison,
  libvirt's domain states, and numbers as printf prints and sscanf scans them.

Loops that change variables are methods with loop invariants, proved against
specification functions; what the code promises is then proved about those
functions. Objects that the code updates in place are classes: the list and its
nodes, the provider's slots, XML nodes under construction, `Dominfo`,
`Capabilities`, the infostore's directory and context, filters, the hypervisor's
filter definitions, and the VNC port entries.

An XML document is a tree of elements with ordered attributes and children. A
document that is saved and parsed again is the tree with indentation text between
the children of elements that have only elements (`Xml.Reparse`), and is rejected
when an element repeats an attribute name (`Xml.WellFormed`). XPath expressions are
selections by element name.

Where a round trip does not hold for every value, the lemma says exactly for
which it does. The findings, each with its lemma:

- Filesystem disks are printed without the type their parser requires
  (`DiskXml.FileSystemIsLost`); block disks with source "/dev/null", driver
  details without a driver, and raw I/O settings of file disks are lost
  (`DiskXml.DiskRoundTrip`).
- 802.1Qbh virtual ports, and ports missing a required id, come back empty
  (`NetXml.NetRoundTrip`).
- Controller queues are printed as "queueus" and read as "queues"
  (`ControllerXml.ControllerReadBack`).
- Consoles with a target type are printed without the port that the parser
  demands, and rejected (`ConsoleXml.ConsoleRoundTrip`).
- Each print of a container adds a console (`ContainerRounds.ContainerGrows`).
- Processor counts from 2^31 on do not survive, except 2^64-1
  (`PlainXml.VcpuRoundTrip`).
- An activation can be reported as successful and wiped without any monitor having
  seen it: exactly when the monitor it finds or starts is past its loop already
  (`Lifecycle.ActivationCanBeLost`), finds no class prefix or cannot connect
  (`Lifecycle.ActivationCanBeLostEarly`). `Lifecycle.ActivationIsSeen` is the exact
  condition over runs.
- A store opened while the UUID look-up fails carries no identity, and the next
  domain of that name takes it over (`Infostore.FailedLookupLeaks`).
- Creating or deleting a nested filter drops the parent's rules and priority
  (`NestedFilter.CreateExactly`, `NestedFilter.DeleteExactly`).
- When the second TCP table cannot be read, the console enumeration fails as soon
  as one guest has no session, although one readable table is meant to be enough
  (`KvmSap.StatusExactly`, `KvmSap.EnumerationSucceeds`).

The kernel's socket tables show 16-bit ports, for which `KvmSap.KernelPorts` and
`KvmSap.EnumerationCounts` count the instances. The scan accepts eight digits; `KvmSap.SapCount` and
`KvmSap.AtLeastOne` say what any such table leads to, of which FFFFFFFF, a value that
is never written, is the only one to be taken for "no session".

## Model

| member | source | states |
|---|---|---|
| RingList.List.constructor | libxkutil/list_util.c:42-51 | an empty list: no head, count 0, no contents |
| RingList.Append | libxkutil/list_util.c:74-102 | the ring stays well linked and its contents become the old ones followed by the new element; nothing happens without a list |
| RingList.Prepend | libxkutil/list_util.c:104-108 | append and stepping the head back put the new element before the old contents |
| RingList.FindNode | libxkutil/list_util.c:116-132 | the node found is the one at the first position where the comparison answers 0; NULL exactly when there is none, no list, no head or no callback |
| RingList.RemoveNode | libxkutil/list_util.c:140-160 | exactly the element at the node's position disappears, it is what the free callback gets, and contents plus freed data are conserved as a multiset; nothing happens without a list or a node |
| RingList.Remove | libxkutil/list_util.c:134-138 | the first matching element, and only that, is removed; nothing happens without a list |
| RingList.RemovesFirst | libxkutil/list_util.c:134-138 | removal takes exactly the first element that compares equal, and none without a comparison |
| RingList.Foreach | libxkutil/list_util.c:162-178 | the walk over the ring computes the fold of the callback over the contents in order, stopping after the first false; a NULL or empty list answers true |
| RingList.ForeachStopsAtFirstFalse | libxkutil/list_util.c:170-175 | the callback sees a prefix of the contents in order, ending exactly with the first element it refuses |
| RingList.Free | libxkutil/list_util.c:53-72 | every node is released exactly once and the callback gets every datum in order, although the exit test compares with the stale head; the list itself is freed exactly when it was not empty |
| RingList.OneTurn | libxkutil/list_util.c:235-254 | following next from the head visits as many distinct live nodes as there are elements, with their data in order, prev undoes next at each, and the walk is back at the head |
| RingList.Run | libxkutil/list_util.c:74-160 | any sequence of append, prepend, remove and remove_node from list_new gives the contents the same operations give on a plain sequence, and nothing is lost or duplicated |
| Snapshots.DomsToXml | src/Virt_ComputerSystemIndication.c:424-467 | the array describes all domains, or the call fails because one of them could not be read |
| Snapshots.DomInList | src/Virt_ComputerSystemIndication.c:512-523 | true exactly when an entry has the UUID |
| Snapshots.DomChanged | src/Virt_ComputerSystemIndication.c:469-495 | the first entry with the same UUID decides: XML or state differs |
| Snapshots.Pass | src/Virt_ComputerSystemIndication.c:669-693 | the two comparison loops raise the specified sequence of indications |
| Snapshots.EventLoop | src/Virt_ComputerSystemIndication.c:650-706 | over any run until the counter is at most zero, the indications raised and the snapshot held are those of the good passes in order |
| Snapshots.DiffReplays | src/Virt_ComputerSystemIndication.c:671-693 | replaying one pass's CREATED and DELETED on the old UUID set gives the new one, each legal where it is raised |
| Snapshots.RunReplays | src/Virt_ComputerSystemIndication.c:637-706 | replaying everything raised over any mix of failed and good passes gives the last good UUID set |
| Snapshots.RunAlternates | src/Virt_ComputerSystemIndication.c:637-706 | per UUID, CREATED and DELETED strictly alternate, starting with DELETED exactly when the domain was there at the start |
| Snapshots.FailedPassesAreSilent | src/Virt_ComputerSystemIndication.c:659-697 | failed passes anywhere in a run leave no trace: what is raised and the snapshot held are those of the run without them |
| Snapshots.DescribeExactly | src/Virt_ComputerSystemIndication.c:424-467 | a snapshot succeeds exactly when every domain gives UUID and XML, and has them in order |
| Snapshots.AnswersDecide | src/Virt_ComputerSystemIndication.c:397-495 | from the hypervisor's answers alone: CREATED or DELETED when only one listing has the UUID, MODIFIED when the XML differs or the states are not alike, where running, idle and blocked are alike, and so are shutting down, suspended and a failed call |
| Snapshots.NextGoodPassTells | src/Virt_ComputerSystemIndication.c:650-706 | over a run: whatever fails in between, the next good pass raises exactly that; a pause is one MODIFIED |
| Snapshots.FailedListingDeletesAll | src/Virt_ComputerSystemIndication.c:430-433 | a listing that fails altogether is taken for an empty host: every domain is reported deleted, in order |
| Snapshots.PassOrder | src/Virt_ComputerSystemIndication.c:671-693 | a pass first raises CREATED in the order of the new snapshot, then the others in the order of the old one |
| Snapshots.TurnsExactly | src/Virt_ComputerSystemIndication.c:649-652 | passes are made while the counter is positive, and none from the first turn on at which it is not |
| Snapshots.PassIsExact | src/Virt_ComputerSystemIndication.c:671-693 | each UUID gets at most one indication: CREATED iff only new, DELETED iff only old, MODIFIED iff in both with different XML or state |
| Lifecycle.StepKeepsInv | src/Virt_ComputerSystemIndication.c:599-862 | every step of any thread or call keeps the invariant tying slots, handles, argument blocks, mutex and counters together |
| Lifecycle.SafeAtAllTimes | src/Virt_ComputerSystemIndication.c:599-862 | in every reachable state of every interleaving: at most one live monitor per platform, its handle stored and non-zero whenever the mutex is free, its arguments allocated, the counter equal to the successful activations minus the deactivations among the steps taken since the last reset, the flag as last switched |
| Lifecycle.PassIsUndisturbed | src/Virt_ComputerSystemIndication.c:669-702 | while a monitor holds the mutex nobody else changes a counter, a handle, an argument pointer or the enabled flag |
| Lifecycle.ArgsLastUntilExit | src/Virt_ComputerSystemIndication.c:609-612 | no step but its own exit section replaces or frees a live monitor's arguments |
| Lifecycle.LeavesOnlyWhenIdle | src/Virt_ComputerSystemIndication.c:649-652 | over any run, a connected monitor that is later past its loop left it at a moment when the steps taken since its platform's last reset held at most as many successful activations of it as deactivations |
| Lifecycle.RunCounts | src/Virt_ComputerSystemIndication.c:782-862 | over any run a platform's counter is the number of activations that found or started a thread minus the deactivations since its last exit section, counted from the steps, and one more while an activation is under way |
| Lifecycle.ConsultsExactly | src/Virt_ComputerSystemIndication.c:649-652 | a monitor leaves its loop exactly when that number is at most zero, and makes a pass exactly when it is positive |
| Lifecycle.NothingLeaks | src/Virt_ComputerSystemIndication.c:735-823 | in every reachable state an allocated argument block is a live monitor's or about to become one's, however activations fail |
| Lifecycle.NeverStuck | src/Virt_ComputerSystemIndication.c:599-862 | in every reachable state whoever holds the mutex can go on, and when nobody does every live monitor can |
| Lifecycle.StaysPastLoop | src/Virt_ComputerSystemIndication.c:715-736 | a monitor past its loop goes on to reset its slot, whatever anyone else does |
| Lifecycle.NoPassAfterLeaving | src/Virt_ComputerSystemIndication.c:715-736 | once past its loop a monitor never makes another pass |
| Lifecycle.ActivationIsSeen | src/Virt_ComputerSystemIndication.c:609-736 | over any run up to the exit section that wipes the slot, the monitor an activation found or started looks at the counter again exactly when it was not past its loop, finds its class prefix and connects |
| Lifecycle.WipedOnlyUnseen | src/Virt_ComputerSystemIndication.c:609-736 | an activation that no deactivation undoes is wiped only by a monitor that was past its loop, found no prefix or could not connect |
| Lifecycle.ActivationFate | src/Virt_ComputerSystemIndication.c:782-796 | step by step: an activation that finds the monitor past its loop is wiped by its exit section; one that finds it waiting, with a positive counter, leads to another pass |
| Lifecycle.ActivationCanBeLost | src/Virt_ComputerSystemIndication.c:718-728 | a concrete run: an activation between the monitor's two critical sections at its end succeeds, and the run ends with no deactivation after it, counter zero and no monitor alive |
| Lifecycle.ActivationCanBeLostEarly | src/Virt_ComputerSystemIndication.c:613-633 | a concrete run: an activation that finds the monitor about to connect succeeds and is wiped when the connection fails |
| LifecycleProvider.Provider.ActivateFilter | src/Virt_ComputerSystemIndication.c:744-831 | the call changes the slots as its chain of protocol steps does; which failures set the status and which do not |
| LifecycleProvider.Provider.DeActivateFilter | src/Virt_ComputerSystemIndication.c:833-862 | the counter of the class's platform goes down by one and nothing else changes; an unknown class is refused |
| LifecycleProvider.PlatformsOfClasses | src/Virt_ComputerSystemIndication.c:291-302 | the classes whose names start with Xen, KVM and LXC belong to the three platforms, and no others to any |
| LifecycleProvider.ActivatedSlots | src/Virt_ComputerSystemIndication.c:782-828 | what the steps of an activation come to: one more filter, or a thread with its arguments, or nothing, or arguments left behind when no thread could be created |
| LifecycleProvider.Provider.ExitThread | src/Virt_ComputerSystemIndication.c:726-736 | the exit section leaves handle, counter and arguments reset |
| LifecycleProvider.ActivateCallKeepsInv | src/Virt_ComputerSystemIndication.c:744-831 | a whole call keeps the protocol invariant and frees the mutex |
| LifecycleProvider.OnlySuccessCounts | src/Virt_ComputerSystemIndication.c:782-828 | the counter goes up by one exactly when the platform ends with a handle; failed starts contribute nothing; other platforms are untouched |
| Decimal.PrintScan | libxkutil/device_parsing.c:732-750 | printing and scanning give back all of 0..2^64-1 as uint64_t and all of 0..2^31-1 as int |
| Decimal.PrintScanInt | libxkutil/device_parsing.c:779-783 | a larger number scanned with "%i" is clamped to 64 bits and cut to 32 |
| Decimal.DigitsAreDecimal | libxkutil/xmlgen.c:587-589 | what is printed is the decimal notation of the number |
| Decimal.SignedScan | src/Virt_KVMRedirectionSAP.c:359-394 | a minus sign and leading white space are scanned |
| Decimal.DigitsInjective | libxkutil/xmlgen.c:587-589 | different numbers print differently |
| Xml.FoldReparse | libxkutil/xmlgen.c:1094-1132 | a loop over children that ignores text reads the same from a tree and from its saved, indented and parsed form |
| Xml.SelectReparse | libxkutil/device_parsing.c:1277-1364 | selecting children by name finds the saved forms of the same children |
| Xml.DoParse | libxkutil/device_parsing.c:1222-1269 | the list holds the results of the nodes that parse, in order |
| Xml.ParseAllExact | libxkutil/device_parsing.c:1222-1269 | parsing gives a list as long as the nodes exactly when every node parses to its element |
| Devices.DeviceAddressXml | libxkutil/xmlgen.c:185-202 | the address is added as one element with its keys in order, or not at all when empty |
| Devices.ParseDeviceAddress | libxkutil/device_parsing.c:441-462 | the attributes are appended as key and value pairs |
| Devices.AddressRoundTrip | libxkutil/xmlgen.c:185-202 | an address with distinct keys comes back in order |
| Devices.LiveRoundTrip | libxkutil/device_parsing.c:1222-1269 | for any kind of device: what was not removed comes back as a list exactly when every device in it does |
| DiskXml.DiskBlockXml | libxkutil/xmlgen.c:204-256 | adds the block disk element; no source for "/dev/null" |
| DiskXml.DiskFileXml | libxkutil/xmlgen.c:258-313 | adds the file disk element; no source for an empty cdrom |
| DiskXml.DiskFsXml | libxkutil/xmlgen.c:315-353 | adds the filesystem element, without a type attribute |
| DiskXml.DisksXml | libxkutil/xmlgen.c:355-383 | all disks but the removed ones in order, or failure at the first of unknown kind |
| DiskXml.ParseBlockDevice | libxkutil/device_parsing.c:526-604 | fills a disk from attributes and children, with the cdrom default |
| DiskXml.ParseFsDevice | libxkutil/device_parsing.c:464-524 | fills a filesystem disk; the type attribute is mandatory |
| DiskXml.DiskRoundTrip | libxkutil/device_parsing.c:526-618 | a block or file disk, saved and parsed, is itself exactly when it is Printable: driver fields only with a driver, no rawio or sgio on file disks, no "/dev/null", nothing missing; the empty cdrom included |
| DiskXml.FileSystemIsLost | libxkutil/xmlgen.c:315-353 | a printed filesystem is always rejected by its parser |
| DiskXml.DiskWellFormed | libxkutil/xmlgen.c:185-202 | a printed disk can be parsed as XML exactly when its address keys differ |
| NetXml.NetsXml | libxkutil/xmlgen.c:466-576 | all interfaces but the removed ones in order, or failure at the first that cannot be printed; a virtual port's success hides a missing source |
| NetXml.BandwidthXml | libxkutil/xmlgen.c:510-549 | bandwidth appears exactly when a number is not zero, each number only when it is not |
| NetXml.SetNetVsi | libxkutil/xmlgen.c:385-417 | the virtual port with the parameters of its kind |
| NetXml.SetNetSource | libxkutil/xmlgen.c:419-441 | the source element, or failure without a source |
| NetXml.ParseNetDevice | libxkutil/device_parsing.c:666-771 | fills an interface from its children |
| NetXml.ParseVsiDevice | libxkutil/device_parsing.c:620-664 | a port missing a required id leaves what was there |
| NetXml.NetRoundTrip | libxkutil/device_parsing.c:666-771 | an interface, saved and parsed, is itself exactly when it is Printable: pool id the network's, mode exactly with a direct source, port absent or on direct with all ids and not 802.1Qbh; any 64-bit bandwidth numbers |
| NetXml.NetWellFormed | libxkutil/xmlgen.c:466-576 | a printed interface can be parsed as XML exactly when its address keys differ |
| ConsoleXml.ConsolesXml | libxkutil/xmlgen.c:45-183 | one element per console not removed, with the source its type asks for |
| ConsoleXml.ParseConsoleDevice | libxkutil/device_parsing.c:885-1017 | fills a console; a target without a port and an unknown UDP mode reject it |
| ConsoleXml.ConsoleRoundTrip | libxkutil/device_parsing.c:885-1017 | a console, saved and parsed, is itself exactly when it has no target type and its source lacks no mandatory part |
| ConsoleXml.ConsolePrintIsStable | libxkutil/xmlgen.c:45-183 | printing what was read gives the same console element again |
| GraphicsXml.AllGraphicsXml | libxkutil/xmlgen.c:754-776 | one element per VNC or SDL device not removed; all others are passed over |
| GraphicsXml.GraphicsVncXml | libxkutil/xmlgen.c:707-752 | the element with the attributes of its kind, autoport following the port |
| GraphicsXml.ParseGraphicsDevice | libxkutil/device_parsing.c:1019-1101 | fills a graphics device with the VNC defaults; a pty takes its element's name as kind |
| GraphicsXml.GraphicsRoundTrip | libxkutil/device_parsing.c:1019-1101 | a VNC or SDL device comes back as itself exactly when VNC has port and host and SDL no password |
| GraphicsXml.ConsoleAsGraphics | libxkutil/device_parsing.c:49-50 | a printed console, read as graphics, is a device exactly when it is a pty |
| GraphicsXml.SelectedGraphics | libxkutil/device_parsing.c:49-50 | the graphics selection yields the pty consoles followed by the graphics with defaults filled in |
| GraphicsXml.PrintParsePrint | libxkutil/xmlgen.c:707-776 | the second print shows the graphics of the first exactly when every VNC device had port and host |
| GraphicsXml.ConsolesPrintParsePrint | libxkutil/xmlgen.c:45-183 | for target-less consoles the second print is the first |
| ControllerXml.ControllersXml | libxkutil/xmlgen.c:801-865 | all controllers but the removed ones, or failure at a type without a name |
| ControllerXml.ParseControllerDevice | libxkutil/device_parsing.c:1139-1206 | fills a controller; type and index are mandatory |
| ControllerXml.ControllerReadBack | libxkutil/xmlgen.c:852 | only the queues are lost, written under one attribute name and read under another; an unset index loses the controller |
| ControllerXml.ControllerRoundTrip | libxkutil/device_parsing.c:1139-1206 | a controller comes back as itself exactly when its index is set and it has no queues |
| PlainXml.InputsXml | libxkutil/xmlgen.c:778-799 | one element per input device not removed |
| PlainXml.InputRoundTrip | libxkutil/device_parsing.c:1103-1137 | an input device comes back exactly when type and bus are set |
| PlainXml.EmuRoundTrip | libxkutil/device_parsing.c:805-830 | the emulator list comes back exactly when there is at most one, with a path |
| PlainXml.VcpuRoundTrip | libxkutil/device_parsing.c:773-803 | a processor count printed as 64 bits and read as an int comes back exactly below 2^31 or as 2^64-1 |
| PlainXml.MemXml | libxkutil/xmlgen.c:641-689 | current and maximum memory, with the dump attribute if set |
| PlainXml.GetMemDevice | libxkutil/device_parsing.c:1472-1526 | the halves found are made one device; one half alone counts for both sizes |
| PlainXml.MemRoundTrip | libxkutil/device_parsing.c:832-872 | any two 64-bit sizes and any dump setting are put together again |
| OsXml.OsToXml | libxkutil/xmlgen.c:1054-1072 | the os element of the type, defaults filled into the structure, or failure for an unknown type |
| OsXml.XenPvOsXml | libxkutil/xmlgen.c:924-952 | type and kernel defaults and the four elements |
| OsXml.XenFvOsXml | libxkutil/xmlgen.c:970-1001 | type, loader and boot defaults and their elements |
| OsXml.KvmOsXml | libxkutil/xmlgen.c:1003-1033 | type and boot defaults, arch and machine as attributes |
| OsXml.FvBootlistXml | libxkutil/xmlgen.c:954-968 | one boot element per entry, in order |
| OsXml.ParseOs | libxkutil/device_parsing.c:1610-1714 | type, fields and boot list from the children; type attribute and OS type decide what kind of domain it is |
| OsXml.OsRoundTrip | libxkutil/device_parsing.c:1610-1714 | the operating system, defaults filled, comes back exactly when it is OsPrintable: each kind prints only its own fields and every boot entry is set |
| DomainXml.Dominfo.SystemToXml | libxkutil/xmlgen.c:1224-1337 | the whole document, or failure for an unknown type or an unprintable device; a UUID and OS defaults are filled in on the way |
| DomainXml.Dominfo.SystemXml | libxkutil/xmlgen.c:867-922 | name, boot loader, actions, UUID and clock; the reboot action is not printed |
| DomainXml.Dominfo.FeaturesXml | libxkutil/xmlgen.c:1074-1092 | one flag element per feature that is on |
| DomainXml.Dominfo.DevicesXml | libxkutil/xmlgen.c:1296-1323 | all device lists below one parent in handler order, a console more for containers |
| DomainXml.ParseDomain | libxkutil/device_parsing.c:1750-1781 | the domain's own data from the root's children |
| DomainXml.GetDominfoFromXml | libxkutil/device_parsing.c:1815-1859 | the domain's data and every device list, each selected by element name |
| DomainRoundTrip.BaseReadBack | libxkutil/device_parsing.c:1750-1781 | what the root's children give back: everything printed, the reboot action reset |
| DomainRoundTrip.SelectDevices | libxkutil/device_parsing.c:44-53 | selecting by names below the common parent finds whole printed lists and nothing else |
| DomainRoundTrip.DeviceNodesRead | libxkutil/device_parsing.c:1277-1364 | the nodes found in the saved document are the saved forms of the selected elements |
| DomainTheorems.ParsesExactly | libxkutil/xmlgen.c:1224-1337 | the printed document is parsed exactly when no printed device repeats an address key |
| DomainTheorems.DisksComeBack | libxkutil/xmlgen.c:204-383 | the disk list comes back in order exactly when every disk not removed is kept |
| DomainTheorems.NetsComeBack | libxkutil/xmlgen.c:385-576 | the interface list comes back in order exactly when every interface not removed is kept |
| DomainTheorems.InputsComeBack | libxkutil/xmlgen.c:778-799 | the input list comes back exactly when every device is kept |
| DomainTheorems.ControllersComeBack | libxkutil/xmlgen.c:801-865 | the controller list comes back exactly when every controller is kept |
| DomainTheorems.ConsolesComeBack | libxkutil/xmlgen.c:45-183 | the consoles come back exactly when every console is kept, with one more for a container |
| DomainTheorems.GraphicsComeBack | libxkutil/device_parsing.c:49-50 | the graphics list read is the pty consoles, the graphics with defaults and a container's console |
| DomainTheorems.EmusComeBack | libxkutil/xmlgen.c:691-705 | the emulator comes back exactly when there is at most one with a path |
| DomainTheorems.MemComesBack | libxkutil/device_parsing.c:1472-1526 | memory always comes back, whatever the sizes |
| DomainTheorems.VcpusComeBack | libxkutil/xmlgen.c:578-601 | the processors come back exactly when there is one entry with a count the parser can hold and no weight |
| DomainTheorems.WholeDomain | libxkutil/device_parsing.c:1815-1859 | for Xen, KVM and QEMU domains in the fragment, UUID and OS defaults filled in or not: type, OS fields with their defaults, boot list, features and every device list come back although all devices share one parent |
| DomainTheorems.PrintIsFixpoint | libxkutil/xmlgen.c:1224-1337 | printing what was parsed from a print gives that print again, with nothing left to fill in |
| ContainerRounds.ContainerGrows | libxkutil/xmlgen.c:1314-1323 | after any number of rounds of printing and parsing a container can still be printed, has its own consoles in order, and one more for every round |
| ContainerRounds.OneMore | libxkutil/xmlgen.c:1224-1337 | one whole round, defaults filled in, of a container whose devices survive or, like file systems, are lost for good |
| Capabilities.ParseCapArch | libxkutil/capability_parsing.c:169-213 | the loop over mixed children builds the architecture |
| Capabilities.ArchIsSorted | libxkutil/capability_parsing.c:169-213 | the one loop computes word size, defaults and domains independently |
| Capabilities.InterleavingIrrelevant | libxkutil/capability_parsing.c:169-213 | how default and domain elements interleave makes no difference |
| Capabilities.CompareCopyMachines | libxkutil/capability_parsing.c:266-301 | the domain's own machines followed, in order, by the defaults it lacked |
| Capabilities.Capabilities.ExtendDefaults | libxkutil/capability_parsing.c:303-332 | every guest is merged in place, each on its own |
| Capabilities.MergeIsExact | libxkutil/capability_parsing.c:266-301 | exactly the defaults whose names, ignoring case, were unknown are added; afterwards all are known |
| Capabilities.MergeIsIdempotent | libxkutil/capability_parsing.c:303-332 | a second merge changes nothing |
| Capabilities.Capabilities.FindDomainInfo | libxkutil/capability_parsing.c:436-458 | the first domain that matches OS type, architecture and type, each where asked for |
| Capabilities.Capabilities.GetDefaultArch | libxkutil/capability_parsing.c:478-490 | the host's architecture first, then any |
| Capabilities.Capabilities.GetDefaultMachine | libxkutil/capability_parsing.c:492-510 | the first machine, under its canonical name if it has one |
| Capabilities.FindInfoMerged | libxkutil/capability_parsing.c:436-458 | after the merge a look-up finds the same domain with its architecture's defaults merged in |
| Capabilities.FindsFirst | libxkutil/capability_parsing.c:436-458 | a look-up finds the first domain, in the order of guests and their domains, that fits in OS type, architecture and type, ignoring case and where asked for; nothing exactly when none fits |
| Capabilities.ArchOfFirst | libxkutil/capability_parsing.c:460-476 | the architecture found is that of the first guest of the OS type and, where asked for, the architecture |
| Capabilities.DefaultsReach | libxkutil/capability_parsing.c:303-332 | after the merge emulator, loader and first machine are the domain's own, else its architecture's, and the machines added are exactly the defaults it lacked |
| Capabilities.DomainExactly | libxkutil/capability_parsing.c:137-167 | a domain has the last emulator and loader below it and all machines in order, with their canonical names |
| Capabilities.DefaultsExactly | libxkutil/capability_parsing.c:169-213 | so have an architecture's defaults, whatever stands between them |
| Capabilities.WordsizeExactly | libxkutil/capability_parsing.c:179-188 | the word size is the number written, or 0 for garbage |
| Capabilities.EmulatorExactly | libxkutil/capability_parsing.c:512-526 | the default emulator is the domain's own, else its architecture's: non-NULL exactly when one of them is |
| Infostore.Open | libxkutil/infostore.c:280-309 | the file and the document after opening, for every file content, UUID look-up and unlink outcome |
| Infostore.DeleteAndOpen | libxkutil/infostore.c:259-278 | the store starts over, unless the unlink failed |
| Infostore.Close | libxkutil/infostore.c:311-323 | the document replaces the file's content |
| Infostore.Context.SetStr | libxkutil/infostore.c:374-400 | the first child of that name, or a new one, gets the text |
| Infostore.UseStore | libxkutil/infostore.c:280-400 | a session of reads and writes leaves the file and returns the values the specification says |
| Infostore.GetIsLookup | libxkutil/infostore.c:338-372 | a get is a look-up in the map of the entries, where the first of several under a key counts |
| Infostore.GetAfterSet | libxkutil/infostore.c:374-400 | a set is seen by the next get and by no other key, and no key is kept twice |
| Infostore.SetIsUpdate | libxkutil/infostore.c:374-400 | a set is a map update |
| Infostore.TypedRoundTrip | libxkutil/infostore.c:402-477 | every uint64_t and both truth values come back as set |
| Infostore.UnsetValues | libxkutil/infostore.c:402-465 | a value never set reads as 0 and false; only "true", in any case, is true |
| Infostore.RefusedExactly | libxkutil/infostore.c:224-257 | a file is refused, and left alone, exactly when it is no document or has another root; an empty or missing one is a new store |
| Infostore.StoreRefinesMap | libxkutil/infostore.c:259-400 | from no file, over every history whatsoever, the store leaves and reads what a plain map does: UUID look-ups and unlinks that fail and clients that touch the reserved key included |
| Infostore.StoreRefinesOwnedMap | libxkutil/infostore.c:259-318 | over histories whose look-ups and unlinks succeed and that leave the reserved key alone, the store is a map owned by one domain at a time |
| Infostore.ReadsOwnWritesOnly | libxkutil/infostore.c:259-318 | after any such history, every value read at any place in a session under a UUID was written in a session of that UUID |
| Infostore.OpenVisibility | libxkutil/infostore.c:280-309 | an existing store's values stay visible exactly when it carries the own UUID or none, or could not be unlinked |
| Infostore.FailedLookupLeaks | libxkutil/infostore.c:290-295 | after a failed UUID look-up the next domain reads another's value |
| ComputerSystem.StateChange | src/Virt_ComputerSystem.c:1209-1268 | which hypervisor call a request leads to, and that it is recorded whatever came of it |
| ComputerSystem.StateChangeEnable | src/Virt_ComputerSystem.c:1057-1082 | create or resume, or which failure |
| ComputerSystem.StateChangeActive | src/Virt_ComputerSystem.c:1084-1207 | the call only for an active domain, for reboot and reset also a paused one |
| ComputerSystem.CallsExactly | src/Virt_ComputerSystem.c:1057-1248 | each hypervisor call is made for exactly one request number and from exactly the states named |
| ComputerSystem.GrantedLeadsTo | src/Virt_ComputerSystem.c:1057-1207 | a request that is granted leads to the state it asks for |
| ComputerSystem.RequestsFollow | src/Virt_ComputerSystem.c:1057-1207 | which requests can follow which: what is paused can be enabled, rebooted or reset, what is off only enabled, and a domain that is shutting down takes none |
| ComputerSystem.LastRequestIsReported | src/Virt_ComputerSystem.c:1240-1261 | the requested state reported is the last request, granted or refused, after any history |
| AclFilter.Filter.AppendRef | libxkutil/acl_parsing.c:617-633 | the name is appended unless it is there; the answer says which |
| AclFilter.Filter.RemoveRef | libxkutil/acl_parsing.c:635-643 | the name is removed; an absent name is no error, a missing list is |
| AclFilter.Filter.ToXml | libxkutil/xmlgen.c:1743-1800 | name, chain, UUID and the references by a walk of the ring; no rules, no priority |
| AclFilter.ParseAclFilter | libxkutil/acl_parsing.c:334-379 | fills a filter and its ring; a repeated reference, a reference without a name or a bad rule fails it |
| AclFilter.PlusThenMinus | libxkutil/acl_parsing.c:617-643 | adding a new reference and removing it restores the list |
| AclFilter.MinusDistinct | libxkutil/acl_parsing.c:635-643 | removal keeps the list duplicate-free and removes just that name |
| AclFilter.RemoveIsMinus | libxkutil/acl_parsing.c:635-643 | removal on the ring is removal from the sequence of names |
| AclFilter.FilterReadBack | libxkutil/acl_parsing.c:334-379 | printing and parsing loses exactly the rules and the priority |
| AclFilter.FilterRoundTrip | libxkutil/acl_parsing.c:334-379 | a filter comes back as itself exactly when it has neither, references in order |
| AclFilter.ParsedRefsDistinct | libxkutil/acl_parsing.c:617-633 | no filter that parses has a repeated reference |
| NestedFilter.Hypervisor.ParentToChild | src/Virt_NestedFilterList.c:113-182 | the do-while walk lists the references that exist |
| NestedFilter.Hypervisor.ChildToParent | src/Virt_NestedFilterList.c:187-242 | the search lists the filters that refer to the name |
| NestedFilter.Hypervisor.GetFilters | libxkutil/acl_parsing.c:476-519 | all filters up to the first that cannot be read |
| NestedFilter.Hypervisor.CreateInstance | src/Virt_NestedFilterList.c:303-411 | the parent is redefined with the new reference, or nothing changes |
| NestedFilter.Hypervisor.DeleteInstance | src/Virt_NestedFilterList.c:413-502 | the parent is redefined without the reference, or nothing changes |
| NestedFilter.Symmetric | src/Virt_NestedFilterList.c:143-234 | a filter is a listed child of another exactly when it exists and the other is its listed parent |
| NestedFilter.ParentsExactly | src/Virt_NestedFilterList.c:210-234 | in any case the parents found are those before the first unreadable filter |
| NestedFilter.CreateExactly | src/Virt_NestedFilterList.c:369-385 | success gives the parent one more reference, drops its rules and priority and touches no other filter |
| NestedFilter.DeleteExactly | src/Virt_NestedFilterList.c:478-491 | success removes the reference, drops rules and priority and touches no other filter |
| NestedFilter.CreateSucceeds | src/Virt_NestedFilterList.c:303-402 | a reference is created exactly when both filters exist, the parent does not have it and the hypervisor accepts |
| NestedFilter.DeleteSucceeds | src/Virt_NestedFilterList.c:404-502 | a reference is deleted exactly when both filters exist, the parent has any and the hypervisor accepts |
| NestedFilter.ChildrenAre | src/Virt_NestedFilterList.c:113-180 | where all references exist the children listed are the references in order |
| NestedFilter.ParentsAre | src/Virt_NestedFilterList.c:182-240 | where all filters can be read the parents listed are those that refer to the filter, in the hypervisor's order |
| NestedFilter.CreateThenDelete | src/Virt_NestedFilterList.c:303-502 | creating and deleting restores all references, and the parent completely exactly when it had no rules and no priority |
| NestedFilter.AlwaysSymmetric | src/Virt_NestedFilterList.c:113-502 | after any run of creations and deletions both directions agree for all pairs and no reference is repeated |
| KvmSap.ReadTcpFile | src/Virt_KVMRedirectionSAP.c:148-209 | the guests' remote ports and the instances after the lines that could be read |
| KvmSap.GetVncSessions | src/Virt_KVMRedirectionSAP.c:211-265 | both tables, then the missed guests; the second table's status ends the call at the first of them |
| KvmSap.PortList | src/Virt_KVMRedirectionSAP.c:359-394 | one entry per guest with VNC, or failure at a port that is no number |
| KvmSap.EnumConsoleSap | src/Virt_KVMRedirectionSAP.c:317-421 | the whole enumeration, its failures included |
| KvmSap.SapCount | src/Virt_KVMRedirectionSAP.c:148-265 | each guest gets one instance per line read with its port, and one more exactly when it counts as missed; the same count for inactive instances |
| KvmSap.SapsExactly | src/Virt_KVMRedirectionSAP.c:148-261 | all instances in order: line by line one for each guest whose port the line shows, with its name, port and the line's remote port, then one without for each guest that was missed, unless the call fails |
| KvmSap.PrefixExactly | src/Virt_KVMRedirectionSAP.c:171-186 | the lines read are those before the first that makes no sense |
| KvmSap.FirstVncExactly | src/Virt_KVMRedirectionSAP.c:267-292 | a guest's port is that of its first VNC device |
| KvmSap.AtLeastOne | src/Virt_KVMRedirectionSAP.c:238-251 | for any tables: one instance per line and at least one exactly when its last line does not show FFFFFFFF; inactive exactly when no line matches or one has a negative remote port |
| KvmSap.KernelPorts | src/Virt_KVMRedirectionSAP.c:148-265 | with the 16-bit ports that the kernel writes: one instance per line with the guest's port, and a single inactive one exactly when there is no such line |
| KvmSap.EnumerationSucceeds | src/Virt_KVMRedirectionSAP.c:317-421 | the whole enumeration, with 16-bit ports and domains of different names: it succeeds exactly when there is no domain, or every VNC port is a number and the second table parses, or the first does and every domain with VNC has a session |
| KvmSap.EnumerationCounts | src/Virt_KVMRedirectionSAP.c:317-421 | then every domain with VNC has one instance per line with its port, or a single inactive one if there is no such line, and no other domain has any |
| KvmSap.StatusExactly | src/Virt_KVMRedirectionSAP.c:221-261 | the call succeeds exactly when the second table parses, or the first does and no guest is missed |
| KvmSap.GuestsAreNew | src/Virt_KVMRedirectionSAP.c:359-394 | every entry starts with remote port -1 and belongs to its own domain |
| DeviceIds.DeviceInstances | src/Virt_Device.c:532-602 | one instance per device up to an unknown type, then one per processor |
| DeviceIds.VcpuInstances | src/Virt_Device.c:514-530 | processors 0 to count-1 |
| DeviceIds.ProcDevList | src/Virt_Device.c:773-795 | entries numbered 0 to quantity-1 |
| DeviceIds.FindDomDev | src/Virt_Device.c:797-835 | the first device with that id, case aside |
| DeviceIds.GetDeviceByName | src/Virt_Device.c:837-913 | the instance found by domain and device part, or none |
| DeviceIds.PublishedExactly | src/Virt_Device.c:532-602 | one instance per device in order, under the domain's name and the device's id, then as many processors as the processor entry counts |
| DeviceIds.UnknownEnds | src/Virt_Device.c:532-602 | a device of unknown type ends the enumeration, processors included |
| DeviceIds.FirstLikeExactly | src/Virt_Device.c:797-835 | the device found is the first whose id is the one asked for, case aside |
| DeviceIds.SpacesAreSkipped | src/Virt_Device.c:759-771 | white space before the device part of an id is skipped, and what follows it is cut off |
| DeviceIds.DevidRoundTrip | src/Virt_Device.c:759-771 | an id is split into the names it was made of exactly when neither is empty, the domain has no slash and the device no white space |
| DeviceIds.FqDevidRoundTrip | libxkutil/device_parsing.c:1574-1600 | the other parser splits exactly the ids whose device part is on one line |
| DeviceIds.DeviceResolves | src/Virt_Device.c:797-913 | a published id leads back to its instance exactly when it can be split and the first device of that id, case aside, has it exactly |
| DeviceIds.ProcessorResolves | src/Virt_Device.c:773-913 | processors 0 to quantity-1 all lead back |
| DeviceIds.PublishedResolves | src/Virt_Device.c:463-602 | every published instance is found again under its DeviceID |
| DeviceIds.FoundWasPublished | src/Virt_Device.c:837-913 | for any DeviceID and type, processors included, nothing is found that is not published |
| OsXml.FilledTwice | libxkutil/xmlgen.c:924-1052 | filling in OS defaults a second time changes nothing |
| OsXml.LxcOsXml | libxkutil/xmlgen.c:1035-1052 | the container type default, init and type |
| Snapshots.RaiseCreated | src/Virt_ComputerSystemIndication.c:671-680 | one CREATED per entry that is only in the new snapshot, in order |
| Snapshots.RaiseDeletedOrModified | src/Virt_ComputerSystemIndication.c:682-693 | DELETED or MODIFIED or nothing per old entry, in order |
| LifecycleProvider.Provider.StartThread | src/Virt_ComputerSystemIndication.c:790-828 | the slots after a start that runs out of memory, of contexts or of threads, or succeeds; a thread that cannot be created sets no status |
| LifecycleProvider.StartCallKeepsInv | src/Virt_ComputerSystemIndication.c:790-828 | a start, whatever its outcome, keeps the protocol invariant |
| DiskXml.OneDiskXml | libxkutil/xmlgen.c:368-379 | the printer of the disk's kind, failure for an unknown one |
| NetXml.BridgeNetToXml | libxkutil/xmlgen.c:444-464 | the script for Xen guests, then the source |
| NetXml.OneNetXml | libxkutil/xmlgen.c:478-572 | one interface element with its children in order |
| NetXml.ParseSource | libxkutil/device_parsing.c:687-704 | bridge first, then network with the pool id, else device and mode, both needed |
| NetXml.ParseBandwidth | libxkutil/device_parsing.c:722-752 | the first inbound child decides; absent numbers are zero |
| ConsoleXml.SourceXml | libxkutil/xmlgen.c:63-169 | the source children of the console's type |
| ConsoleXml.ParseConsoleSource | libxkutil/device_parsing.c:921-991 | what a source child sets for each type |
| GraphicsXml.ParsePty | libxkutil/device_parsing.c:1061-1077 | a pty's path and port, under its element's name |
| ControllerXml.OneControllerXml | libxkutil/xmlgen.c:808-861 | one controller element, or failure for a type without a name |
| PlainXml.VcpuXml | libxkutil/xmlgen.c:578-601 | the count of the first entry |
| PlainXml.CputuneXml | libxkutil/xmlgen.c:604-638 | the weight of the first entry, as an int |
| DomainXml.ParseFeatures | libxkutil/device_parsing.c:1716-1730 | the flags found among the children |
| DomainXml.Dominfo.HeadXml | libxkutil/xmlgen.c:1254-1280 | the domain's own elements and the structure with its defaults filled in |
| Capabilities.ParseDomainInfo | libxkutil/capability_parsing.c:113-154 | emulator, loader or one more machine |
| Capabilities.ParseCapDomain | libxkutil/capability_parsing.c:156-167 | the loop over a domain's children |
| Capabilities.ExtendArch | libxkutil/capability_parsing.c:303-332 | every domain gets the missing emulator, loader and machines |
| Capabilities.Capabilities.FindDefArch | libxkutil/capability_parsing.c:460-476 | the first guest of the OS type, and of the host's architecture if asked |
| Capabilities.Capabilities.GetDefaultEmulator | libxkutil/capability_parsing.c:512-526 | the emulator of the domain found |
| Infostore.OpenContext | libxkutil/infostore.c:224-257 | the file is created if absent; a document with another root or no document is refused |
| Infostore.Disk.Delete | libxkutil/infostore.c:325-336 | the file goes, if it can be unlinked |
| Infostore.Context.SetU64 | libxkutil/infostore.c:421-436 | the number's digits under the key |
| Infostore.Context.SetBool | libxkutil/infostore.c:467-477 | "true" or "false" under the key |
| ComputerSystem.RecordRequest | src/Virt_ComputerSystem.c:917-960 | a start reads the weight, then the request is recorded in the store |
| AclFilter.ParseFilterChild | libxkutil/acl_parsing.c:347-370 | one child's effect on the filter and its ring, or failure |
| AclFilter.GetFilterFromXml | libxkutil/acl_parsing.c:387-416 | a fresh filter, or none when the text or the filter does not parse |
| NestedFilter.Hypervisor.GetFilterByName | libxkutil/acl_parsing.c:418-445 | the filter defined under the name, if it can be read |
| NestedFilter.Hypervisor.UpdateFilter | libxkutil/acl_parsing.c:521-552 | the printed filter replaces the definition, if accepted |
| NestedFilter.Hypervisor.WalkRefs | src/Virt_NestedFilterList.c:143-172 | the nodes' names looked up in ring order |
| NestedFilter.Hypervisor.SearchAll | src/Virt_NestedFilterList.c:214-229 | the filters in whose lists the name is found, in order |
| KvmSap.MatchRow | src/Virt_KVMRedirectionSAP.c:188-202 | every guest with the line's port gets its remote port and an instance |
| KvmSap.AddMissed | src/Virt_KVMRedirectionSAP.c:246-257 | an instance for every guest still at -1, or a stop at the first when the status is bad |
| KvmSap.CheckGraphics | src/Virt_KVMRedirectionSAP.c:267-292 | the first VNC device, if any |
| DiskReading.FilesystemRead | libxkutil/device_parsing.c:464-524 | for every element: a file system exactly when it has a type, a source and a target and all of these name a directory; the last of each counts |
| DiskReading.FilesystemComesBack | libxkutil/device_parsing.c:464-524 | a file system as libvirt writes it, with its type, is read as it is exactly when the fields the element does not carry are unset |
| DiskReading.DiskRead | libxkutil/device_parsing.c:526-604 | for every element: a disk exactly when type, device, target and, unless a cdrom, source are there; file before device, the last driver, source and target |
| DiskReading.FsPrinted | libxkutil/xmlgen.c:315-353 | the printer writes a file system as libvirt does but for the type |
| DiskReading.DiskPrints | libxkutil/xmlgen.c:368-379 | every disk can be printed but those of unknown kind |
| NetReading.NetRead | libxkutil/device_parsing.c:666-771 | for every element: which interfaces are read, and each field by the last child that gives it; the pool follows from the network, the mode from a direct source |
| NetReading.PortRead | libxkutil/device_parsing.c:620-664 | for every element: a virtual port exactly when it has a type and all its parameters give manager, type and version |
| NetReading.NetPrints | libxkutil/xmlgen.c:466-576 | exactly which interfaces can be printed |
| NetReading.ScriptPrinted | libxkutil/xmlgen.c:444-464 | bridges of Xen guests, and they alone, are printed with the bridge script |
| NetReading.ProfilePrinted | libxkutil/xmlgen.c:385-417 | a 802.1Qbh port is printed with its profile alone |
| ViewReading.ConsoleRead | libxkutil/device_parsing.c:885-1017 | for every element: a console exactly when its type is known, its first target has a port and its UDP sources bind or connect; the source by type |
| ViewReading.SourceTypes | src/svpc_types.h:197-228 | the console types by name, ignoring case (first half) |
| ViewReading.MoreSourceTypes | src/svpc_types.h:197-228 | the console types by name, ignoring case (second half) |
| ViewReading.GraphicsRead | libxkutil/device_parsing.c:1019-1101 | for every element: VNC with port -1 and address 127.0.0.1 where none is given, SDL, a pty under its element's name, or nothing |
| ViewReading.ControllerRead | libxkutil/device_parsing.c:1139-1206 | for every element: a controller exactly when its type is known and an index is there; the queues are those libvirt writes |
| ViewReading.ProtocolTypes | src/svpc_types.h:334-361 | the controller types by name, ignoring case |
| ViewReading.PlainRead | libxkutil/device_parsing.c:805-830 | for every element: input devices and the emulator |
| ViewReading.VcpuRead | libxkutil/device_parsing.c:773-803 | the processors are as many as the number says |
| ViewReading.VcpuUnreadable | libxkutil/device_parsing.c:773-803 | and one if it cannot be read |
| ViewReading.MemRead | libxkutil/device_parsing.c:1472-1526 | one memory element counts for both sizes; two make one device, in either order |
| ViewReading.FirstMemCounts | libxkutil/device_parsing.c:1472-1526 | any other number of elements than two: the first counts alone |
| ViewReading.AutoportPrinted | libxkutil/xmlgen.c:728-735 | autoport is yes exactly for port -1, no for any other, absent without one |
| ViewReading.QueuesPrinted | libxkutil/xmlgen.c:848-854 | queues are printed under the misspelt name |
| ViewReading.TargetPrinted | libxkutil/xmlgen.c:170-178 | a console's target is printed with its type and no port |
| ViewReading.WeightPrinted | libxkutil/xmlgen.c:604-638 | the first entry's weight is printed as an int |
| ViewReading.ShownExactly | libxkutil/xmlgen.c:754-776 | exactly which graphics devices are printed |
| DomainReading.OsRead | libxkutil/device_parsing.c:1610-1714 | for every element: which kind of domain, and of its parts the last type, the first kernel, loader, init and so on, and all boot devices in order |
| DomainReading.DefaultsFilled | libxkutil/xmlgen.c:924-1052 | the defaults themselves: OS types, "/dev/null", the loader, "hd" |
| DomainReading.SetStays | libxkutil/xmlgen.c:924-1052 | what is set is not changed by filling in defaults |
| DomainReading.DomainRead | libxkutil/device_parsing.c:1716-1781 | for every document: name, UUID, boot loader, clock, features and the three actions, each by the last child that gives it |
| DomainReading.ActionsPrinted | libxkutil/xmlgen.c:867-922 | the words printed for the actions |
| DomainReading.DomainPrints | libxkutil/xmlgen.c:1224-1337 | a domain can be printed exactly when its type is known and every disk, interface and controller not removed can be |
| DomainReading.ContainerFilesystems | libxkutil/device_parsing.c:1277-1364 | the file systems of a container's document are read in order and as they are |
| DomainReading.FilterRead | libxkutil/acl_parsing.c:334-379 | for every element: a filter exactly when it has a name, its rules an action and a direction, its references a filter and none twice; the rules numbered in order |

## Left out

Whole parts:

- The USE_LIBVIRT_EVENT half of the indication provider: its domain list is not kept in step with undefines.
- `make_rule_id` with `parse_rule_id` as a pair: the scan format does not split at ':' as written.
- Filter rules as data: a rule is kept as the element it was read from, since filters are printed without them.
- `xen_scheduler_params` and the other scheduler calls: only the infostore session of a start is modelled.
- Pools, volumes, association tables, capability and profile providers, property copying into CIM instances and the constant tables `state_lv_to_cim*` and `res_type_from_device_classname`: plumbing or finite tables.
- `device_to_xml`, `virt_device_dup`, attaching and detaching devices: they reuse the printers modelled here on one device.
- Delivery of indications (`async_ind_native`) and the class check in front of it: raising an indication is recorded as an event.
- Liveness and wake-up timing of the monitors: waits are timed and share one condition variable.

Simplifications:

- Allocation always succeeds, except where a failed allocation is one of the outcomes of an activation. `list_prepend` would rotate the list after a failed append.
- Memory ownership of strings and structures is not tracked, apart from the nodes and data of the ring list.
- Snapshots.EventLoop: starts from a good first snapshot. A failed one leaves an entry with a NULL description, which the first good pass hands to strcmp or strstr, so the source defines nothing beyond passes that fail, and those raise nothing.
- Lifecycle.SafeAtAllTimes: thread handles and argument blocks are numbered, and a number is never given out twice, so reuse of an address is not captured.
- Lifecycle.NothingLeaks: about argument blocks; the thread context that a failed start leaves behind is not tracked.
- Lifecycle.ActivationIsSeen: about the runs in which the monitor comes to its exit section; whether and when it does is left to the scheduler and the timed waits.
- Infostore.Open: sessions on one name are sequential; the file lock between processes is not modelled.
- Infostore.StoreRefinesOwnedMap: for sessions whose UUID look-up and unlink succeed and that leave the "uuid" key alone; all other histories are in Infostore.StoreRefinesMap.
- Xml documents: character escaping, entities, comments and processing instructions belong to libxml2 and are not modelled; libxml2 is assumed to return the text it was given.
- DiskXml.DiskFileXml: requires a source on a file cdrom that is printed, since the source compares it without a NULL check.
- NetXml.NetRoundTrip: requires a MAC address, since the parser copies it without a NULL check.
- OsXml.ParseOs: a missing OS type or domain type attribute reads as empty text; the source hands NULL to a string comparison.
- OsXml.System: the source's values 0 and -1 for no known type are one value here, since neither can be printed.
- PlainXml.VcpuRoundTrip: the processor weight and limit are never read back, so they have to be zero.
- DomainXml.Dominfo.SystemToXml: the UUID that the library makes up is a parameter, and the result is the tree; turning it into text and back is `Xml.ParseMemory`.
- DomainXml.GetDominfoFromXml: a document whose root is not named "domain" gives no domain; the source takes the first of no nodes without a check.
- DomainTheorems.WholeDomain: the reboot action is not printed, so it is not claimed; containers are treated in ContainerRounds.ContainerGrows.
- Capabilities.Capabilities.FindDomainInfo: a guest, architecture or domain without a name, which libvirt never sends, fits no name asked for; the source compares it without a NULL check.
- ComputerSystem.GrantedLeadsTo: what a call that succeeds makes of a domain is taken from libvirt's documentation.
- ComputerSystem.StateChange: the hypervisor's answer is a parameter; the reset and suspend helpers are single calls.
- AclFilter.Filter.AppendRef: `filter_ref_cmp` is only ever compared with 0, so the sign of `strcmp` is not modelled.
- NestedFilter.Hypervisor.CreateInstance: connecting and reading the two names from the request are taken to succeed; the hypervisor keeps the XML it accepts unchanged.
- KvmSap.ReadTcpFile: a table line is given as the two ports that sscanf finds, or as unreadable; creating an instance succeeds.
- DeviceIds.GetDeviceByName: creating an instance succeeds, and a device without an instance of its own gives no result where the source would read an empty list.
- DeviceIds.PublishedResolves: processor counts up to 2^31, beyond which the source's int counter overflows.
