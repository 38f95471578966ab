/** libxkutil/infostore.c: a key/value store kept in one XML file per domain
    name, guarded by the UUID of the domain that wrote it. */
module Infostore {
  import opened Prelude
  import opened Decimal

  /** One child element of the root and its text. */
  datatype Entry = Entry(key: string, val: string)

  datatype Doc = Doc(root: string, entries: seq<Entry>)

  datatype File = Absent | Empty | Stored(doc: Doc) | Garbage

  const ROOT := "dominfo"
  const UUID := "uuid"

  // ----- documents as maps

  /** xpath_query "/dominfo/key[1]": the position of the first such child. */
  function IndexOf(es: seq<Entry>, key: string): (i: nat)
    ensures i <= |es|
    ensures i < |es| ==> es[i].key == key
    ensures forall j :: 0 <= j < i ==> es[j].key != key
  {
    if es == [] || es[0].key == key then 0 else 1 + IndexOf(es[1..], key)
  }

  function Get(d: Doc, key: string): Option<string> {
    var i := IndexOf(d.entries, key);
    if i < |d.entries| then Some(d.entries[i].val) else None
  }

  function Set(d: Doc, key: string, val: string): Doc {
    var i := IndexOf(d.entries, key);
    d.(entries := if i < |d.entries| then d.entries[i := Entry(key, val)] else d.entries + [Entry(key, val)])
  }

  ghost predicate UniqueKeys(d: Doc) {
    forall i, j :: 0 <= i < j < |d.entries| ==> d.entries[i].key != d.entries[j].key
  }

  /** The entries as a map, where of several with one key the first counts. */
  function MapOf(es: seq<Entry>): map<string, string> {
    if es == [] then map[] else MapOf(es[1..])[es[0].key := es[0].val]
  }

  function View(d: Doc): map<string, string> {
    MapOf(d.entries)
  }

  lemma {:induction false} FirstCounts(es: seq<Entry>, key: string)
    ensures key in MapOf(es) <==> IndexOf(es, key) < |es|
    ensures key in MapOf(es) ==> MapOf(es)[key] == es[IndexOf(es, key)].val
    decreases |es|
  {
    if es != [] {
      FirstCounts(es[1..], key);
    }
  }

  /** The store is a string map: a get is a look-up, a set is an update of that
      key and no other, and no key is ever kept twice. */
  lemma GetIsLookup(d: Doc, key: string)
    ensures Get(d, key) == if key in View(d) then Some(View(d)[key]) else None
  {
    FirstCounts(d.entries, key);
  }

  lemma GetAfterSet(d: Doc, key: string, val: string, k: string)
    ensures Get(Set(d, key, val), k) == if k == key then Some(val) else Get(d, k)
    ensures UniqueKeys(d) ==> UniqueKeys(Set(d, key, val))
    ensures Set(d, key, val).root == d.root
  {
    var i := IndexOf(d.entries, key);
    if k == key {
      FirstIs(Set(d, key, val).entries, key, i);
    } else {
      OtherKeyStays(d, key, val, k);
    }
    if UniqueKeys(d) && i < |d.entries| {
      SetKeepsKeys(d, key, val);
    }
  }

  lemma OtherKeyStays(d: Doc, key: string, val: string, k: string)
    requires k != key
    ensures Get(Set(d, key, val), k) == Get(d, k)
  {
    var es, es' := d.entries, Set(d, key, val).entries;
    var n := IndexOf(es, k);
    if n < |es| {
      FirstIs(es', k, n);
    } else {
      assert forall j :: 0 <= j < |es'| ==> es'[j].key != k;
    }
  }

  lemma SetKeepsKeys(d: Doc, key: string, val: string)
    requires UniqueKeys(d) && IndexOf(d.entries, key) < |d.entries|
    ensures UniqueKeys(Set(d, key, val))
  {
    var es' := Set(d, key, val).entries;
    assert forall j :: 0 <= j < |es'| ==> es'[j].key == d.entries[j].key;
  }

  lemma FirstIs(es: seq<Entry>, key: string, i: nat)
    requires i < |es| && es[i].key == key && forall j :: 0 <= j < i ==> es[j].key != key
    ensures IndexOf(es, key) == i
  {
  }

  lemma SetIsUpdate(d: Doc, key: string, val: string)
    ensures View(Set(d, key, val)) == View(d)[key := val]
  {
    var d' := Set(d, key, val);
    forall k: string
      ensures k in View(d') <==> k in View(d)[key := val]
      ensures k in View(d') ==> View(d')[k] == View(d)[key := val][k]
    {
      GetIsLookup(d', k);
      GetIsLookup(d, k);
      GetAfterSet(d, key, val, k);
    }
  }

  // ----- typed values

  function GetU64(d: Doc, key: string): nat {
    var v := Get(d, key);
    if v.None? then 0 else ScanU64(v.value).GetOr(0)
  }

  function GetBool(d: Doc, key: string): bool {
    var v := Get(d, key);
    v.Some? && EqNoCase(v.value, "true")
  }

  /** Every uint64_t and both truth values come back as they were set. */
  lemma TypedRoundTrip(d: Doc, key: string, n: nat, b: bool)
    requires n < U64
    ensures GetU64(Set(d, key, Digits(n)), key) == n
    ensures GetBool(Set(d, key, if b then "true" else "false"), key) == b
  {
    GetAfterSet(d, key, Digits(n), key);
    GetAfterSet(d, key, if b then "true" else "false", key);
    PrintScan(n);
    assert Lower("true") == "true";
    assert Lower("false")[0] == 'f' && Lower("true")[0] == 't';
  }

  /** A value that was never set reads as 0 and as false; of texts only "true", in any
      case, is true. */
  lemma UnsetValues(d: Doc, key: string, val: string)
    ensures key !in View(d) ==> Get(d, key).None? && GetU64(d, key) == 0 && !GetBool(d, key)
    ensures GetBool(Set(d, key, val), key) <==> EqNoCase(val, "true")
  {
    GetIsLookup(d, key);
    GetAfterSet(d, key, val, key);
  }

  // ----- opening: what the file and the context become

  function LoadFile(f: File): Option<Doc> {
    match f
    case Absent | Empty => Some(Doc(ROOT, []))
    case Stored(d) => if d.root == ROOT then Some(d) else None
    case Garbage => None
  }

  function Touched(f: File): File {
    if f.Absent? then Empty else f
  }

  /** The file once infostore_open has returned, and the document it opened.
      `uuid` is the look-up's answer, None for a failed one. */
  function OpenSpec(f: File, uuid: Option<string>, unlinkOk: bool): (File, Option<Doc>) {
    match LoadFile(f)
    case None => (Touched(f), None)
    case Some(d) =>
      var f2 := if unlinkOk then Empty else Stored(d);
      var d2 := if unlinkOk then Doc(ROOT, []) else d;
      match uuid
      case None => (f2, Some(d2))
      case Some(u) =>
        if Get(d, UUID).None? || Get(d, UUID).value == u then (Touched(f), Some(Set(d, UUID, u)))
        else (f2, Some(Set(d2, UUID, u)))
  }

  /** A file is refused, and left alone, exactly when it is no document or one with
      another root; an empty or a missing one is a new store. */
  lemma RefusedExactly(f: File, uuid: Option<string>, unlinkOk: bool)
    ensures OpenSpec(f, uuid, unlinkOk).1.None? <==> f.Garbage? || (f.Stored? && f.doc.root != "dominfo")
    ensures OpenSpec(f, uuid, unlinkOk).1.None? ==> OpenSpec(f, uuid, unlinkOk).0 == f
    ensures f.Absent? || f.Empty? ==>
              OpenSpec(f, uuid, unlinkOk).1
              == Some(Doc("dominfo", if uuid.None? then [] else [Entry("uuid", uuid.value)]))
  {
    if uuid.Some? {
      assert [] + [Entry("uuid", uuid.value)] == [Entry("uuid", uuid.value)];
    }
  }

  // ----- the code

  /** The directory of stores. */
  class Disk {
    var files: map<string, File>

    constructor ()
      ensures files == map[]
    {
      files := map[];
    }

    function At(path: string): File
      reads this
    {
      if path in files then files[path] else Absent
    }

    /** infostore_delete */
    method Delete(path: string, unlinkOk: bool)
      modifies this
      ensures files == if unlinkOk then old(files) - {path} else old(files)
    {
      if unlinkOk {
        files := files - {path};
      }
    }
  }

  /** struct infostore_ctx */
  class Context {
    const path: string
    var doc: Doc

    constructor (path: string, doc: Doc)
      ensures this.path == path && this.doc == doc
    {
      this.path, this.doc := path, doc;
    }

    /** xpath_set_string */
    method SetStr(key: string, val: string)
      modifies this
      ensures doc == Set(old(doc), key, val)
    {
      var i := IndexOf(doc.entries, key);
      if i == |doc.entries| {
        doc := doc.(entries := doc.entries + [Entry(key, "")]);
      }
      doc := doc.(entries := doc.entries[i := Entry(key, val)]);
    }

    method SetU64(key: string, val: nat)
      modifies this
      ensures doc == Set(old(doc), key, Digits(val))
    {
      SetStr(key, Digits(val));
    }

    method SetBool(key: string, val: bool)
      modifies this
      ensures doc == Set(old(doc), key, if val then "true" else "false")
    {
      if val { SetStr(key, "true"); } else { SetStr(key, "false"); }
    }
  }

  /** _infostore_open: create the file if need be, read it, check the root. */
  method OpenContext(disk: Disk, path: string) returns (isc: Context?)
    modifies disk
    ensures disk.files == old(disk.files)[path := Touched(old(disk.At(path)))]
    ensures isc == null <==> LoadFile(old(disk.At(path))).None?
    ensures isc != null ==> fresh(isc) && isc.path == path && isc.doc == LoadFile(old(disk.At(path))).value
  {
    var f := disk.At(path);
    disk.files := disk.files[path := Touched(f)];
    match f {
      case Absent => isc := new Context(path, Doc(ROOT, []));
      case Empty => isc := new Context(path, Doc(ROOT, []));
      case Garbage => isc := null;
      case Stored(d) =>
        if d.root != ROOT {
          return null;
        }
        isc := new Context(path, d);
    }
  }

  /** infostore_close: save over the old content. */
  method Close(disk: Disk, ctx: Context?)
    modifies disk
    ensures disk.files == if ctx == null then old(disk.files) else old(disk.files)[ctx.path := Stored(ctx.doc)]
  {
    if ctx != null {
      disk.files := disk.files[ctx.path := Stored(ctx.doc)];
    }
  }

  method DeleteAndOpen(disk: Disk, path: string, unlinkOk: bool) returns (isc: Context?)
    modifies disk
    ensures var f := if unlinkOk then Absent else old(disk.At(path));
            && disk.files == old(disk.files)[path := Touched(f)]
            && (isc == null <==> LoadFile(f).None?)
            && (isc != null ==> fresh(isc) && isc.path == path && isc.doc == LoadFile(f).value)
  {
    disk.Delete(path, unlinkOk);
    isc := OpenContext(disk, path);
  }

  /** infostore_open */
  method Open(disk: Disk, path: string, uuid: Option<string>, unlinkOk: bool) returns (isc: Context?)
    modifies disk
    ensures var (f, d) := OpenSpec(old(disk.At(path)), uuid, unlinkOk);
            && disk.files == old(disk.files)[path := f]
            && (isc == null <==> d.None?)
            && (isc != null ==> fresh(isc) && isc.path == path && isc.doc == d.value)
  {
    isc := OpenContext(disk, path);
    if isc == null {
      return;
    }
    if uuid.None? {
      Close(disk, isc);
      isc := DeleteAndOpen(disk, path, unlinkOk);
      return;
    }
    var stored := Get(isc.doc, UUID);
    if stored.Some? && uuid.value != stored.value {
      Close(disk, isc);
      isc := DeleteAndOpen(disk, path, unlinkOk);
    }
    isc.SetStr(UUID, uuid.value);
  }

  // ----- sequences of sessions on one name

  datatype Op = Read(key: string) | Write(key: string, val: string)

  datatype Event =
    | Session(uuid: Option<string>, unlinkOk: bool, ops: seq<Op>)  // open, ops, close
    | Deleted                                                     // infostore_delete that succeeds

  function RunOps(d: Doc, ops: seq<Op>): (r: (Doc, seq<Option<string>>))
    decreases |ops|
  {
    if ops == [] then (d, [])
    else
      match ops[0]
      case Read(k) => (RunOps(d, ops[1..]).0, [Get(d, k)] + RunOps(d, ops[1..]).1)
      case Write(k, v) => RunOps(Set(d, k, v), ops[1..])
  }

  /** The file after an event, and the values its reads returned. */
  function RunEvent(f: File, e: Event): (File, seq<Option<string>>) {
    match e
    case Deleted => (Absent, [])
    case Session(uuid, unlinkOk, ops) =>
      var (f2, d) := OpenSpec(f, uuid, unlinkOk);
      if d.None? then (f2, []) else (Stored(RunOps(d.value, ops).0), RunOps(d.value, ops).1)
  }

  function RunAll(f: File, events: seq<Event>): File {
    if events == [] then f else RunEvent(RunAll(f, events[..|events| - 1]), events[|events| - 1]).0
  }

  /** Running a session with the real calls. */
  method UseStore(disk: Disk, path: string, uuid: Option<string>, unlinkOk: bool, ops: seq<Op>)
    returns (got: seq<Option<string>>)
    modifies disk
    ensures var (f, rs) := RunEvent(old(disk.At(path)), Session(uuid, unlinkOk, ops));
            disk.files == old(disk.files)[path := f] && got == rs
  {
    got := [];
    var isc := Open(disk, path, uuid, unlinkOk);
    if isc == null {
      return;
    }
    ghost var d0, files := isc.doc, disk.files;
    for i := 0 to |ops|
      invariant disk.files == files
      invariant RunOps(d0, ops).0 == RunOps(isc.doc, ops[i..]).0
      invariant RunOps(d0, ops).1 == got + RunOps(isc.doc, ops[i..]).1
    {
      assert ops[i..][1..] == ops[i + 1..];
      match ops[i] {
        case Read(k) => got := got + [Get(isc.doc, k)];
        case Write(k, v) => isc.SetStr(k, v);
      }
    }
    assert got + [] == got;
    Close(disk, isc);
  }

  // ----- any history: the store as a plain map

  /** What opening makes of the map.  A failed unlink keeps the old values, a
      failed UUID look-up (None) keeps them only then and sets no UUID. */
  function OpenMap(m: map<string, string>, uuid: Option<string>, unlinkOk: bool): map<string, string> {
    var emptied := if unlinkOk then map[] else m;
    match uuid
    case None => emptied
    case Some(u) => (if UUID !in m || m[UUID] == u then m else emptied)[UUID := u]
  }

  function MapEvent(m: map<string, string>, e: Event): (map<string, string>, seq<Option<string>>) {
    match e
    case Deleted => (map[], [])
    case Session(uuid, unlinkOk, ops) => ApplyOps(OpenMap(m, uuid, unlinkOk), ops)
  }

  function MapEvents(events: seq<Event>): map<string, string> {
    if events == [] then map[] else MapEvent(MapEvents(events[..|events| - 1]), events[|events| - 1]).0
  }

  /** No file is the empty map; a file holds the map in a document of unique keys. */
  ghost predicate IsMap(f: File, m: map<string, string>) {
    match f
    case Absent => m == map[]
    case Stored(d) => d.root == ROOT && UniqueKeys(d) && View(d) == m
    case _ => false
  }

  lemma {:induction false} OpsOnMap(d: Doc, ops: seq<Op>)
    requires d.root == ROOT && UniqueKeys(d)
    ensures var (d', got) := RunOps(d, ops);
            d'.root == ROOT && UniqueKeys(d') && (View(d'), got) == ApplyOps(View(d), ops)
    decreases |ops|
  {
    if ops != [] {
      match ops[0]
      case Read(k) =>
        OpsOnMap(d, ops[1..]);
        GetIsLookup(d, k);
      case Write(k, v) =>
        GetAfterSet(d, k, v, k);
        SetIsUpdate(d, k, v);
        OpsOnMap(Set(d, k, v), ops[1..]);
    }
  }

  lemma OpenOnMap(f: File, m: map<string, string>, uuid: Option<string>, unlinkOk: bool)
    requires IsMap(f, m)
    ensures var d := OpenSpec(f, uuid, unlinkOk).1;
            d.Some? && d.value.root == ROOT && UniqueKeys(d.value) && View(d.value) == OpenMap(m, uuid, unlinkOk)
  {
    var d, fresh0 := LoadFile(f).value, Doc(ROOT, []);
    assert View(fresh0) == map[];
    GetIsLookup(d, UUID);
    if uuid.Some? {
      SetIsUpdate(d, UUID, uuid.value);
      SetIsUpdate(fresh0, UUID, uuid.value);
      GetAfterSet(d, UUID, uuid.value, UUID);
      GetAfterSet(fresh0, UUID, uuid.value, UUID);
    }
  }

  /** From no file, every history whatsoever, with look-ups and unlinks that fail
      and clients that touch any key, leaves and reads exactly what the map does:
      saving and opening again keep everything that the guard does not drop. */
  lemma {:induction false} StoreRefinesMap(events: seq<Event>)
    ensures IsMap(RunAll(Absent, events), MapEvents(events))
    ensures forall e :: RunEvent(RunAll(Absent, events), e).1 == MapEvent(MapEvents(events), e).1
    decreases |events|
  {
    if events != [] {
      var rest, e := events[..|events| - 1], events[|events| - 1];
      StoreRefinesMap(rest);
      EventOnMap(RunAll(Absent, rest), MapEvents(rest), e);
    }
    forall e ensures RunEvent(RunAll(Absent, events), e).1 == MapEvent(MapEvents(events), e).1 {
      EventOnMap(RunAll(Absent, events), MapEvents(events), e);
    }
  }

  lemma EventOnMap(f: File, m: map<string, string>, e: Event)
    requires IsMap(f, m)
    ensures IsMap(RunEvent(f, e).0, MapEvent(m, e).0) && RunEvent(f, e).1 == MapEvent(m, e).1
  {
    if e.Session? {
      OpenOnMap(f, m, e.uuid, e.unlinkOk);
      OpsOnMap(OpenSpec(f, e.uuid, e.unlinkOk).1.value, e.ops);
    }
  }

  // ----- one domain at a time

  /** The conditions under which the store keeps domains apart: the UUID look-up
      and the unlink succeed and no client touches the reserved key. */
  predicate Proper(e: Event) {
    e.Session? ==> e.uuid.Some? && e.unlinkOk && forall op :: op in e.ops ==> op.key != UUID
  }

  /** The store a client would like to have: a map that belongs to one domain. */
  datatype Owned = Owned(owner: Option<string>, m: map<string, string>)

  function ApplyOps(m: map<string, string>, ops: seq<Op>): (r: (map<string, string>, seq<Option<string>>))
    decreases |ops|
  {
    if ops == [] then (m, [])
    else
      match ops[0]
      case Read(k) =>
        var (m2, got) := ApplyOps(m, ops[1..]);
        (m2, [if k in m then Some(m[k]) else None] + got)
      case Write(k, v) => ApplyOps(m[k := v], ops[1..])
  }

  function ApplyEvent(a: Owned, e: Event): (Owned, seq<Option<string>>) {
    match e
    case Deleted => (Owned(None, map[]), [])
    case Session(uuid, _, ops) =>
      var (m, got) := ApplyOps(if a.owner == uuid then a.m else map[], ops);
      (Owned(uuid, m), got)
  }

  function ApplyEvents(events: seq<Event>): Owned {
    if events == [] then Owned(None, map[])
    else ApplyEvent(ApplyEvents(events[..|events| - 1]), events[|events| - 1]).0
  }

  ghost predicate Agrees(d: Doc, u: string, m: map<string, string>) {
    && d.root == ROOT && UniqueKeys(d) && Get(d, UUID) == Some(u)
    && forall k :: k != UUID ==> Get(d, k) == if k in m then Some(m[k]) else None
  }

  ghost predicate Represents(f: File, a: Owned) {
    match f
    case Absent => a == Owned(None, map[])
    case Stored(d) => a.owner.Some? && Agrees(d, a.owner.value, a.m)
    case _ => false
  }

  lemma {:induction false} OpsAgree(d: Doc, u: string, m: map<string, string>, ops: seq<Op>)
    requires Agrees(d, u, m) && forall op :: op in ops ==> op.key != UUID
    ensures Agrees(RunOps(d, ops).0, u, ApplyOps(m, ops).0)
    ensures RunOps(d, ops).1 == ApplyOps(m, ops).1
    decreases |ops|
  {
    if ops != [] {
      assert ops[0] in ops && forall op :: op in ops[1..] ==> op in ops;
      match ops[0]
      case Read(k) => OpsAgree(d, u, m, ops[1..]);
      case Write(k, v) =>
        forall k' { GetAfterSet(d, k, v, k'); }
        OpsAgree(Set(d, k, v), u, m[k := v], ops[1..]);
    }
  }

  lemma OpenAgrees(f: File, a: Owned, u: string)
    requires Represents(f, a)
    ensures var d := OpenSpec(f, Some(u), true).1;
            d.Some? && Agrees(d.value, u, if a.owner == Some(u) then a.m else map[])
  {
    var d := LoadFile(f).value;
    var kept := f.Stored? && a.owner == Some(u);
    var base := if kept then d else Doc(ROOT, []);
    assert OpenSpec(f, Some(u), true).1 == Some(Set(base, UUID, u));
    forall k { GetAfterSet(base, UUID, u, k); }
  }

  lemma EventAgrees(f: File, a: Owned, e: Event)
    requires Represents(f, a) && Proper(e)
    ensures Represents(RunEvent(f, e).0, ApplyEvent(a, e).0)
    ensures RunEvent(f, e).1 == ApplyEvent(a, e).1
  {
    if e.Session? {
      OpenAgrees(f, a, e.uuid.value);
      OpsAgree(OpenSpec(f, e.uuid, true).1.value, e.uuid.value, if a.owner == e.uuid then a.m else map[], e.ops);
    }
  }

  /** From no file, any history of proper sessions reads and leaves exactly what
      a map owned by one domain at a time would. */
  lemma {:induction false} StoreRefinesOwnedMap(events: seq<Event>)
    requires forall e :: e in events ==> Proper(e)
    ensures Represents(RunAll(Absent, events), ApplyEvents(events))
  {
    if events != [] {
      var rest, e := events[..|events| - 1], events[|events| - 1];
      StoreRefinesOwnedMap(rest);
      EventAgrees(RunAll(Absent, rest), ApplyEvents(rest), e);
    }
  }

  /** Some session of domain `u` among `events` wrote `v` under `k`. */
  ghost predicate WroteIn(events: seq<Event>, u: string, k: string, v: string) {
    exists i :: 0 <= i < |events| && events[i].Session? && events[i].uuid == Some(u) && Write(k, v) in events[i].ops
  }

  lemma {:induction false} OpsProvenance(m: map<string, string>, ops: seq<Op>)
    ensures var m' := ApplyOps(m, ops).0;
            forall k :: k in m' ==> (k in m && m'[k] == m[k]) || Write(k, m'[k]) in ops
    decreases |ops|
  {
    if ops != [] {
      OpsProvenance(match ops[0] case Read(_) => m case Write(k, v) => m[k := v], ops[1..]);
      assert ops == [ops[0]] + ops[1..];
    }
  }

  lemma {:induction false} OwnedProvenance(events: seq<Event>)
    ensures var a := ApplyEvents(events);
            a.owner.Some? ==> forall k :: k in a.m ==> WroteIn(events, a.owner.value, k, a.m[k])
  {
    if events != [] {
      var rest, e := events[..|events| - 1], events[|events| - 1];
      OwnedProvenance(rest);
      var before, a := ApplyEvents(rest), ApplyEvents(events);
      assert a == ApplyEvent(before, e).0;
      if e.Session? && e.uuid.Some? {
        OpsProvenance(if before.owner == e.uuid then before.m else map[], e.ops);
        forall k | k in a.m ensures WroteIn(events, e.uuid.value, k, a.m[k]) {
          if before.owner == e.uuid && k in before.m && before.m[k] == a.m[k] {
            assert WroteIn(rest, before.owner.value, k, before.m[k]);
            var i :| 0 <= i < |rest| && rest[i].Session? && rest[i].uuid == e.uuid && Write(k, a.m[k]) in rest[i].ops;
            assert events[i] == rest[i];
          } else {
            assert Write(k, a.m[k]) in events[|events| - 1].ops;
          }
        }
      }
    }
  }

  lemma RunOpsNext(d: Doc, op: Op, ops: seq<Op>)
    ensures var d' := if op.Read? then d else Set(d, op.key, op.val);
            var got := if op.Read? then [Get(d, op.key)] else [];
            RunOps(d, [op] + ops) == (RunOps(d', ops).0, got + RunOps(d', ops).1)
  {
    assert ([op] + ops)[1..] == ops;
    assert [] + RunOps(d, [op] + ops).1 == RunOps(d, [op] + ops).1;
  }

  lemma {:induction false} RunOpsConcat(d: Doc, a: seq<Op>, b: seq<Op>)
    ensures RunOps(d, a + b) == (RunOps(RunOps(d, a).0, b).0, RunOps(d, a).1 + RunOps(RunOps(d, a).0, b).1)
    decreases |a|
  {
    if a == [] {
      assert a + b == b && [] + RunOps(d, b).1 == RunOps(d, b).1;
    } else {
      var op, ops := a[0], a[1..];
      assert a == [op] + ops && a + b == [op] + (ops + b);
      RunOpsNext(d, op, ops);
      RunOpsNext(d, op, ops + b);
      var d' := if op.Read? then d else Set(d, op.key, op.val);
      var got := if op.Read? then [Get(d, op.key)] else [];
      RunOpsConcat(d', ops, b);
      Associative(got, RunOps(d', ops).1, RunOps(RunOps(d', ops).0, b).1);
    }
  }

  /** After any history of proper sessions and deletions from no file, every value
      read at any place in a session of domain `u` was written in a session of
      `u`, earlier in this one or in a previous one, even when domains come and go
      under the same name. */
  lemma ReadsOwnWritesOnly(events: seq<Event>, u: string, before: seq<Op>, key: string, after: seq<Op>)
    requires forall e :: e in events ==> Proper(e)
    requires Proper(Session(Some(u), true, before + [Read(key)] + after)) && key != UUID
    ensures var got := RunEvent(RunAll(Absent, events), Session(Some(u), true, before + [Read(key)] + after)).1;
            && ReadCount(before) < |got|
            && var value := got[ReadCount(before)];
            value.Some? ==> WroteIn(events + [Session(Some(u), true, before)], u, key, value.value)
  {
    var whole, own := before + [Read(key)] + after, Session(Some(u), true, before);
    assert forall op :: op in before ==> op in whole;
    var all := events + [own];
    StoreRefinesOwnedMap(events);
    ReadIsOwn(RunAll(Absent, events), ApplyEvents(events), u, before, key, after);
    assert all[..|events|] == events;
    assert ApplyEvents(all) == ApplyEvent(ApplyEvents(events), all[|events|]).0;
    OwnedProvenance(all);
  }

  /** The reads among some operations. */
  function ReadCount(ops: seq<Op>): nat {
    if ops == [] then 0 else (if ops[0].Read? then 1 else 0) + ReadCount(ops[1..])
  }

  lemma {:induction false} OneValuePerRead(d: Doc, ops: seq<Op>)
    ensures |RunOps(d, ops).1| == ReadCount(ops)
    decreases |ops|
  {
    if ops != [] {
      match ops[0]
      case Read(_) => OneValuePerRead(d, ops[1..]);
      case Write(k, v) => OneValuePerRead(Set(d, k, v), ops[1..]);
    }
  }

  /** The value a read returns, with anything after it. */
  lemma ReadValue(d: Doc, before: seq<Op>, key: string, after: seq<Op>)
    ensures var got := RunOps(d, before + [Read(key)] + after).1;
            ReadCount(before) < |got| && got[ReadCount(before)] == Get(RunOps(d, before).0, key)
  {
    RunOpsConcat(d, before + [Read(key)], after);
    RunOpsConcat(d, before, [Read(key)]);
    OneValuePerRead(d, before);
    assert RunOps(RunOps(d, before).0, [Read(key)]).1 == [Get(RunOps(d, before).0, key)];
  }

  lemma ReadIsOwn(f: File, a: Owned, u: string, before: seq<Op>, key: string, after: seq<Op>)
    requires Represents(f, a) && key != UUID
    requires Proper(Session(Some(u), true, before))
    ensures var got := RunEvent(f, Session(Some(u), true, before + [Read(key)] + after)).1;
            && ReadCount(before) < |got|
            && var m := ApplyEvent(a, Session(Some(u), true, before)).0.m;
            got[ReadCount(before)] == if key in m then Some(m[key]) else None
  {
    OpenAgrees(f, a, u);
    var d := OpenSpec(f, Some(u), true).1.value;
    OpsAgree(d, u, if a.owner == Some(u) then a.m else map[], before);
    ReadValue(d, before, key, after);
  }

  /** What one open lets a domain see of an existing store: its values are kept
      exactly when the store carries the domain's own UUID or none, or when the
      stale file could not be unlinked. */
  lemma OpenVisibility(d: Doc, u: string, unlinkOk: bool, key: string)
    requires d.root == ROOT && key != UUID
    ensures var isc := OpenSpec(Stored(d), Some(u), unlinkOk).1;
            && isc.Some? && Get(isc.value, UUID) == Some(u)
            && Get(isc.value, key)
               == if Get(d, UUID) == None || Get(d, UUID) == Some(u) || !unlinkOk then Get(d, key) else None
  {
    GetAfterSet(d, UUID, u, key);
    GetAfterSet(d, UUID, u, UUID);
    GetAfterSet(Doc(ROOT, []), UUID, u, key);
    GetAfterSet(Doc(ROOT, []), UUID, u, UUID);
  }

  /** The guard does need its conditions.  A session whose UUID look-up fails
      leaves a store without identity, which the next domain takes over. */
  lemma FailedLookupLeaks(u: string, v: string)
    ensures var history := [Session(None, true, [Write("weight", v)])];
            RunEvent(RunAll(Absent, history), Session(Some(u), true, [Read("weight")])).1 == [Some(v)]
  {
    var history := [Session(None, true, [Write("weight", v)])];
    assert history[..0] == [];
    var d := Set(Doc(ROOT, []), "weight", v);
    assert RunOps(Doc(ROOT, []), [Write("weight", v)]).0 == d;
    assert RunAll(Absent, history) == RunEvent(Absent, history[0]).0 == Stored(d);
    GetAfterSet(Doc(ROOT, []), "weight", v, "weight");
    GetAfterSet(Doc(ROOT, []), "weight", v, UUID);
    OpenVisibility(d, u, true, "weight");
    var isc := OpenSpec(Stored(d), Some(u), true).1.value;
    assert RunOps(isc, [Read("weight")]).1 == [Get(isc, "weight")];
  }
}
