/** Which filters nest in which: src/Virt_NestedFilterList.c over the filters
    that the hypervisor has defined. */
module NestedFilter {
  import opened Prelude
  import opened Xml
  import opened AclFilter
  import R = RingList

  /** The defined filters: their XML by name. */
  type Defs = map<string, Tree>

  /** get_filter_by_name */
  function LookupFilter(defs: Defs, name: string): Option<FilterValue> {
    if name in defs then FilterFromXml(defs[name]) else None
  }

  /** The names that the hypervisor lists, in its order, are the defined filters,
      each defined under the name its XML carries. */
  ghost predicate Consistent(names: seq<string>, defs: Defs) {
    && Distinct(names)
    && (forall n :: n in names <==> n in defs)
    && (forall n :: n in defs ==> GetAttr(defs[n], "name") == Some(n))
  }

  function Listed(defs: Defs, refs: seq<string>): seq<string> {
    if refs == [] then []
    else
      match LookupFilter(defs, refs[0])
      case None => Listed(defs, refs[1..])
      case Some(child) => [child.name] + Listed(defs, refs[1..])
  }

  /** parent_to_child: the filters that a filter refers to, as far as they exist. */
  function Children(defs: Defs, name: string): seq<string> {
    match LookupFilter(defs, name)
    case None => []
    case Some(parent) => Listed(defs, parent.refs)
  }

  /** get_filters gives up at the first filter it cannot read. */
  function Readable(names: seq<string>, defs: Defs): seq<string> {
    if names == [] || LookupFilter(defs, names[0]).None? then []
    else [names[0]] + Readable(names[1..], defs)
  }

  function Referring(filters: seq<FilterValue>, name: string): seq<string> {
    if filters == [] then []
    else (if name in filters[0].refs then [filters[0].name] else []) + Referring(filters[1..], name)
  }

  function Filters(names: seq<string>, defs: Defs): seq<FilterValue> {
    if names == [] then []
    else
      match LookupFilter(defs, names[0])
      case None => []
      case Some(f) => [f] + Filters(names[1..], defs)
  }

  function ReferringWith(list: seq<string>, f: FilterValue, name: string): seq<string> {
    if name in f.refs then list + [f.name] else list
  }

  lemma ReferringNext(filters: seq<FilterValue>, i: nat, name: string, list: seq<string>)
    requires i < |filters|
    requires Referring(filters, name) == list + Referring(filters[i..], name)
    ensures Referring(filters, name) == ReferringWith(list, filters[i], name) + Referring(filters[i + 1..], name)
  {
    assert filters[i..][1..] == filters[i + 1..];
    var f, rest := filters[i], Referring(filters[i + 1..], name);
    if name in f.refs {
      assert list + ([f.name] + rest) == list + [f.name] + rest;
    } else {
      assert [] + rest == rest;
    }
  }

  /** The list after one more reference. */
  function ListedWith(defs: Defs, list: seq<string>, ref: string): seq<string> {
    match LookupFilter(defs, ref) case None => list case Some(child) => list + [child.name]
  }

  lemma ListedNext(defs: Defs, refs: seq<string>, k: nat, list: seq<string>)
    requires k < |refs|
    requires Listed(defs, refs) == list + Listed(defs, refs[k..])
    ensures Listed(defs, refs) == ListedWith(defs, list, refs[k]) + Listed(defs, refs[k + 1..])
  {
    assert refs[k..][1..] == refs[k + 1..];
    var rest := Listed(defs, refs[k + 1..]);
    match LookupFilter(defs, refs[k])
    case None =>
    case Some(child) => assert list + ([child.name] + rest) == list + [child.name] + rest;
  }

  /** The array that get_filters fills, element by element. */
  ghost predicate ReadSoFar(names: seq<string>, defs: Defs, read: seq<FilterValue>) {
    |read| <= |names| && forall j :: 0 <= j < |read| ==> LookupFilter(defs, names[j]) == Some(read[j])
  }

  lemma {:induction false} FiltersAre(names: seq<string>, defs: Defs, read: seq<FilterValue>)
    requires ReadSoFar(names, defs, read)
    requires |read| < |names| ==> LookupFilter(defs, names[|read|]).None?
    ensures Filters(names, defs) == read
    decreases |names|
  {
    if read != [] {
      assert forall j :: 0 <= j < |read| - 1 ==> LookupFilter(defs, names[1..][j]) == Some(read[1..][j]);
      FiltersAre(names[1..], defs, read[1..]);
      assert read == [read[0]] + read[1..];
    }
  }

  lemma ReadSoFarNext(names: seq<string>, defs: Defs, read: seq<FilterValue>)
    requires ReadSoFar(names, defs, read) && |read| < |names|
    ensures match LookupFilter(defs, names[|read|])
            case None => Filters(names, defs) == read
            case Some(f) => ReadSoFar(names, defs, read + [f])
  {
    if LookupFilter(defs, names[|read|]).None? {
      FiltersAre(names, defs, read);
    }
  }

  /** child_to_parent: the filters that refer to a filter, whether or not it exists. */
  function Parents(names: seq<string>, defs: Defs, name: string): seq<string> {
    Referring(Filters(names, defs), name)
  }

  /** What defining the printed form of a filter leaves of it. */
  function Redefined(f: FilterValue): FilterValue {
    f.(priority := None, rules := [])
  }

  /** CreateInstance; None is a failure.  `accepted` is the hypervisor's answer. */
  function Created(defs: Defs, parent: string, child: string, accepted: bool): Option<Defs> {
    match LookupFilter(defs, parent)
    case None => None
    case Some(f) =>
      if LookupFilter(defs, child).None? || child in f.refs || !accepted then None
      else Some(defs[f.name := FilterTree(f.(refs := f.refs + [child]))])
  }

  /** DeleteInstance: a parent without any reference is a failure, one without this
      reference is rewritten all the same. */
  function Deleted(defs: Defs, parent: string, child: string, accepted: bool): Option<Defs> {
    match LookupFilter(defs, parent)
    case None => None
    case Some(f) =>
      if LookupFilter(defs, child).None? || f.refs == [] || !accepted then None
      else Some(defs[f.name := FilterTree(f.(refs := Minus(f.refs, child)))])
  }

  // ----- the code

  class Hypervisor {
    var names: seq<string>
    var defs: Defs

    constructor (names: seq<string>, defs: Defs)
      ensures this.names == names && this.defs == defs
    {
      this.names, this.defs := names, defs;
    }

    method GetFilterByName(name: string) returns (f: Filter?)
      ensures (f == null) == LookupFilter(defs, name).None?
      ensures f != null ==> fresh(f) && f.Valid() && f.Value() == LookupFilter(defs, name).value
      ensures f != null ==> (f.refs == null <==> f.Refs() == []) && (f.refs == null || fresh(f.refs))
      ensures f != null ==> forall i :: 0 <= i < |f.Nodes()| ==> fresh(f.Nodes()[i])
    {
      if name !in defs {
        return null;
      }
      f := GetFilterFromXml(defs[name]);
    }

    /** One turn of the walk over a reference list. */
    method ListOne(ref: string, list: seq<string>) returns (more: seq<string>)
      ensures more == ListedWith(defs, list, ref)
    {
      var child := GetFilterByName(ref);
      if child == null {
        return list;
      }
      return list + [child.name];
    }

    /** The do-while walk over the nodes of a reference list. */
    method WalkRefs(refs: R.List<string>) returns (list: seq<string>)
      requires refs.Valid() && refs.head != null
      ensures list == Listed(defs, refs.Contents)
    {
      list := [];
      var node := refs.head;
      ghost var k, all := 0, refs.Contents;
      while true
        invariant 0 <= k < |refs.Nodes| && node == refs.Nodes[k]
        invariant Listed(defs, all) == list + Listed(defs, all[k..])
        decreases |refs.Nodes| - k
      {
        ListedNext(defs, all, k, list);
        list := ListOne(node.data, list);
        node := node.next;
        if node == refs.head {
          break;
        }
        k := k + 1;
      }
      assert list + [] == list;
    }

    /** parent_to_child */
    method ParentToChild(name: string) returns (list: seq<string>)
      ensures list == Children(defs, name)
    {
      var parent := GetFilterByName(name);
      if parent == null || parent.refs == null || parent.refs.head == null {
        return [];
      }
      list := WalkRefs(parent.refs);
    }

    /** One more filter for the array, if it can be read; if not, the array has them all. */
    method ReadNext(filters: seq<Filter>, ghost read: seq<FilterValue>)
      returns (ok: bool, more: seq<Filter>, ghost nowRead: seq<FilterValue>)
      requires |read| == |filters| < |names| && ReadSoFar(names, defs, read)
      requires forall j :: 0 <= j < |filters| ==> filters[j].Valid() && filters[j].Value() == read[j]
      ensures if ok then ReadSoFar(names, defs, nowRead) && |nowRead| == |read| + 1 else nowRead == Filters(names, defs)
      ensures |nowRead| == |more|
      ensures forall j :: 0 <= j < |more| ==> more[j].Valid() && more[j].Value() == nowRead[j]
    {
      ReadSoFarNext(names, defs, read);
      var f := GetFilterByName(names[|filters|]);
      ok := f != null;
      more := if ok then filters + [f] else filters;
      nowRead := if ok then read + [f.Value()] else read;
    }

    method GetFilters() returns (filters: seq<Filter>, ghost read: seq<FilterValue>)
      ensures read == Filters(names, defs) && |read| == |filters|
      ensures forall i :: 0 <= i < |filters| ==> filters[i].Valid() && filters[i].Value() == read[i]
    {
      filters, read := [], [];
      for i := 0 to |names|
        invariant |read| == |filters| == i && ReadSoFar(names, defs, read)
        invariant forall j :: 0 <= j < i ==> filters[j].Valid() && filters[j].Value() == read[j]
      {
        var ok;
        ok, filters, read := ReadNext(filters, read);
        if !ok {
          return;
        }
      }
      FiltersAre(names, defs, read);
    }

    /** One turn of the search over all filters. */
    method SearchOne(f: Filter, name: string, list: seq<string>) returns (more: seq<string>)
      requires f.Valid()
      ensures more == ReferringWith(list, f.Value(), name)
    {
      FoundExactly(f.Refs(), name);
      var node := R.FindNode(f.refs, name);
      if node != null {
        return list + [f.name];
      }
      return list;
    }

    method SearchAll(filters: seq<Filter>, ghost read: seq<FilterValue>, name: string) returns (list: seq<string>)
      requires |read| == |filters|
      requires forall j :: 0 <= j < |filters| ==> filters[j].Valid() && filters[j].Value() == read[j]
      ensures list == Referring(read, name)
    {
      list := [];
      for i := 0 to |filters|
        invariant Referring(read, name) == list + Referring(read[i..], name)
      {
        ReferringNext(read, i, name, list);
        list := SearchOne(filters[i], name, list);
      }
      assert list + [] == list;
    }

    /** child_to_parent: a search in every filter's reference list. */
    method ChildToParent(name: string) returns (list: seq<string>)
      ensures list == Parents(names, defs, name)
    {
      ghost var read;
      var filters;
      filters, read := GetFilters();
      list := SearchAll(filters, read, name);
    }

    /** virNWFilterDefineXML on filter_to_xml; the hypervisor may refuse. */
    method UpdateFilter(f: Filter, accepted: bool) returns (ok: bool)
      requires f.Valid()
      modifies this`defs
      ensures ok == accepted
      ensures defs == if accepted then old(defs)[f.name := FilterTree(f.Value())] else old(defs)
    {
      var xml := f.ToXml();
      if accepted {
        defs := defs[f.name := xml];
      }
      return accepted;
    }

    method AddRef(f: Filter, child: string, accepted: bool) returns (ok: bool)
      requires f.Valid()
      modifies this`defs, f`refs, f.refs, f.Nodes()
      ensures ok == (child !in old(f.Refs()) && accepted)
      ensures defs == if ok then old(defs)[f.name := FilterTree(old(f.Value()).(refs := old(f.Refs()) + [child]))]
                      else old(defs)
    {
      ok := f.AppendRef(Some(child));
      if ok {
        ok := UpdateFilter(f, accepted);
      }
    }

    method CreateInstance(parent: string, child: string, accepted: bool) returns (ok: bool)
      modifies this`defs
      ensures ok == Created(old(defs), parent, child, accepted).Some?
      ensures defs == Created(old(defs), parent, child, accepted).GetOr(old(defs))
    {
      var f := GetFilterByName(parent);
      if f == null {
        return false;
      }
      var dependent := GetFilterByName(child);
      if dependent == null {
        return false;
      }
      ok := AddRef(f, child, accepted);
    }

    method DropRef(f: Filter, child: string, accepted: bool) returns (ok: bool)
      requires f.Valid()
      modifies this`defs, f.refs, f.Nodes()
      ensures ok == (f.refs != null && accepted)
      ensures defs == if ok then old(defs)[f.name := FilterTree(old(f.Value()).(refs := Minus(old(f.Refs()), child)))]
                      else old(defs)
    {
      ok := f.RemoveRef(Some(child));
      if ok {
        ok := UpdateFilter(f, accepted);
      }
    }

    method DeleteInstance(parent: string, child: string, accepted: bool) returns (ok: bool)
      modifies this`defs
      ensures ok == Deleted(old(defs), parent, child, accepted).Some?
      ensures defs == Deleted(old(defs), parent, child, accepted).GetOr(old(defs))
    {
      var f := GetFilterByName(parent);
      if f == null {
        return false;
      }
      var dependent := GetFilterByName(child);
      if dependent == null {
        return false;
      }
      ok := DropRef(f, child, accepted);
    }
  }

  // ----- both directions agree

  lemma LookupName(names: seq<string>, defs: Defs, name: string)
    requires Consistent(names, defs) && LookupFilter(defs, name).Some?
    ensures LookupFilter(defs, name).value.name == name && Distinct(LookupFilter(defs, name).value.refs)
  {
    ParsedRefsDistinct(defs[name]);
  }

  lemma {:induction false} ListedExactly(names: seq<string>, defs: Defs, refs: seq<string>, b: string)
    requires Consistent(names, defs)
    ensures b in Listed(defs, refs) <==> b in refs && LookupFilter(defs, b).Some?
    decreases |refs|
  {
    if refs != [] {
      ListedExactly(names, defs, refs[1..], b);
      assert b in refs <==> b == refs[0] || b in refs[1..];
      if LookupFilter(defs, refs[0]).Some? {
        LookupName(names, defs, refs[0]);
      }
    }
  }

  predicate RefersToIn(defs: Defs, a: string, b: string) {
    match LookupFilter(defs, a)
    case None => false
    case Some(f) => b in f.refs
  }

  lemma {:induction false} ReferringExactly(names: seq<string>, defs: Defs, all: seq<string>, b: string, a: string)
    requires Consistent(all, defs)
    ensures a in Referring(Filters(names, defs), b)
            <==> a in Readable(names, defs) && RefersToIn(defs, a, b)
    ensures forall n :: n in Readable(names, defs) ==> LookupFilter(defs, n).Some?
    decreases |names|
  {
    if names != [] && LookupFilter(defs, names[0]).Some? {
      LookupName(all, defs, names[0]);
      var f, rest := LookupFilter(defs, names[0]).value, Filters(names[1..], defs);
      ReferringExactly(names[1..], defs, all, b, a);
      assert ([f] + rest)[1..] == rest;
      assert forall n :: n in Readable(names, defs) <==> n == names[0] || n in Readable(names[1..], defs);
    }
  }

  /** Every filter can be read. */
  ghost predicate AllReadable(defs: Defs) {
    forall n :: n in defs ==> LookupFilter(defs, n).Some?
  }

  lemma FirstReadable(names: seq<string>, defs: Defs)
    requires AllReadable(defs) && names != [] && names[0] in defs
    ensures Readable(names, defs) == [names[0]] + Readable(names[1..], defs)
  {
  }

  lemma {:induction false} ReadableAll(names: seq<string>, defs: Defs)
    requires AllReadable(defs) && forall n :: n in names ==> n in defs
    ensures Readable(names, defs) == names
    decreases |names|
  {
    if names != [] {
      assert names[0] in names && forall n :: n in names[1..] ==> n in names;
      FirstReadable(names, defs);
      ReadableAll(names[1..], defs);
      assert names == [names[0]] + names[1..];
    }
  }

  /** Where nothing fails to be read, a filter is listed as a child of another
      exactly when it exists and the other is listed as its parent. */
  lemma Symmetric(names: seq<string>, defs: Defs, a: string, b: string)
    requires Consistent(names, defs) && AllReadable(defs)
    ensures b in Children(defs, a) <==> b in defs && a in Parents(names, defs, b)
  {
    ReadableAll(names, defs);
    ReferringExactly(names, defs, names, b, a);
    if LookupFilter(defs, a).Some? {
      ListedExactly(names, defs, LookupFilter(defs, a).value.refs, b);
    }
  }

  /** In any case, the parents found are those before the first unreadable filter. */
  lemma ParentsExactly(names: seq<string>, defs: Defs, a: string, b: string)
    requires Consistent(names, defs)
    ensures a in Parents(names, defs, b) <==> a in Readable(names, defs) && RefersToIn(defs, a, b)
    ensures forall n :: n in Readable(names, defs) ==> LookupFilter(defs, n).Some?
  {
    ReferringExactly(names, defs, names, b, a);
  }

  // ----- updates

  /** Success redefines the parent with one more reference, without its rules and
      its priority, and touches no other filter. */
  lemma CreateExactly(names: seq<string>, defs: Defs, parent: string, child: string)
    requires Consistent(names, defs) && Created(defs, parent, child, true).Some?
    ensures var now := Created(defs, parent, child, true).value;
            var f := LookupFilter(defs, parent).value;
            && Consistent(names, now)
            && LookupFilter(now, parent) == Some(Redefined(f.(refs := f.refs + [child])))
            && forall n :: n != parent ==> LookupFilter(now, n) == LookupFilter(defs, n)
  {
    var f := LookupFilter(defs, parent).value;
    LookupName(names, defs, parent);
    PlusDistinct(f.refs, child);
    NamePrinted(f.(refs := f.refs + [child]));
    FilterReadBack(f.(refs := f.refs + [child]));
  }

  lemma NamePrinted(f: FilterValue)
    ensures GetAttr(FilterTree(f), "name") == Some(f.name)
  {
    LookupGroups(Prop("name", f.name), OptAttr("chain", f.chain), [], []);
  }

  lemma DeleteExactly(names: seq<string>, defs: Defs, parent: string, child: string)
    requires Consistent(names, defs) && Deleted(defs, parent, child, true).Some?
    ensures var now := Deleted(defs, parent, child, true).value;
            var f := LookupFilter(defs, parent).value;
            && Consistent(names, now)
            && LookupFilter(now, parent) == Some(Redefined(f.(refs := Minus(f.refs, child))))
            && forall n :: n != parent ==> LookupFilter(now, n) == LookupFilter(defs, n)
  {
    var f := LookupFilter(defs, parent).value;
    LookupName(names, defs, parent);
    MinusDistinct(f.refs, child);
    NamePrinted(f.(refs := Minus(f.refs, child)));
    FilterReadBack(f.(refs := Minus(f.refs, child)));
  }

  /** Creating a nesting and deleting it again succeeds, gives every filter its
      references back, and restores the parent completely exactly when it had
      neither rules nor a priority. */
  lemma CreateThenDelete(names: seq<string>, defs: Defs, parent: string, child: string)
    requires Consistent(names, defs) && Created(defs, parent, child, true).Some?
    ensures var mid := Created(defs, parent, child, true).value;
            && Deleted(mid, parent, child, true).Some?
            && var end := Deleted(mid, parent, child, true).value;
               var f := LookupFilter(defs, parent).value;
               && LookupFilter(end, parent) == Some(Redefined(f))
               && (LookupFilter(end, parent) == Some(f) <==> f.rules == [] && f.priority.None?)
               && forall n :: n != parent ==> LookupFilter(end, n) == LookupFilter(defs, n)
  {
    var mid := Created(defs, parent, child, true).value;
    var f := LookupFilter(defs, parent).value;
    CreateExactly(names, defs, parent, child);
    assert LookupFilter(mid, child).Some?;
    DeleteExactly(names, mid, parent, child);
    PlusThenMinus(f.refs, child);
  }

  datatype Op =
    | Create(parent: string, child: string, accepted: bool)
    | Delete(parent: string, child: string, accepted: bool)

  function Apply(defs: Defs, op: Op): Defs {
    match op
    case Create(p, c, ok) => Created(defs, p, c, ok).GetOr(defs)
    case Delete(p, c, ok) => Deleted(defs, p, c, ok).GetOr(defs)
  }

  function ApplyAll(defs: Defs, ops: seq<Op>): Defs
    decreases |ops|
  {
    if ops == [] then defs else Apply(ApplyAll(defs, ops[..|ops| - 1]), ops[|ops| - 1])
  }

  /** Every reference names a filter that exists. */
  ghost predicate Closed(defs: Defs) {
    forall n :: LookupFilter(defs, n).Some? ==> forall r :: r in LookupFilter(defs, n).value.refs ==> r in defs
  }

  ghost predicate Sound(names: seq<string>, defs: Defs) {
    Consistent(names, defs) && AllReadable(defs) && Closed(defs)
  }

  /** Redefining one filter with references that exist keeps everything sound. */
  lemma RedefinedSound(names: seq<string>, defs: Defs, now: Defs, parent: string)
    requires Sound(names, defs) && Consistent(names, now)
    requires LookupFilter(now, parent).Some? && forall r :: r in LookupFilter(now, parent).value.refs ==> r in defs
    requires forall n :: n != parent ==> LookupFilter(now, n) == LookupFilter(defs, n)
    ensures Sound(names, now)
  {
    assert forall n :: n in now <==> n in defs;
  }

  lemma ApplyKeepsSound(names: seq<string>, defs: Defs, op: Op)
    requires Sound(names, defs)
    ensures Sound(names, Apply(defs, op))
  {
    if op.Create? && Created(defs, op.parent, op.child, op.accepted).Some? {
      CreateExactly(names, defs, op.parent, op.child);
      assert LookupFilter(defs, op.child).Some?;
      RedefinedSound(names, defs, Apply(defs, op), op.parent);
    } else if op.Delete? && Deleted(defs, op.parent, op.child, op.accepted).Some? {
      LookupName(names, defs, op.parent);
      MinusDistinct(LookupFilter(defs, op.parent).value.refs, op.child);
      DeleteExactly(names, defs, op.parent, op.child);
      RedefinedSound(names, defs, Apply(defs, op), op.parent);
    }
  }

  lemma {:induction false} RunKeepsSound(names: seq<string>, defs: Defs, ops: seq<Op>)
    requires Sound(names, defs)
    ensures Sound(names, ApplyAll(defs, ops))
    decreases |ops|
  {
    if ops != [] {
      RunKeepsSound(names, defs, ops[..|ops| - 1]);
      ApplyKeepsSound(names, ApplyAll(defs, ops[..|ops| - 1]), ops[|ops| - 1]);
    }
  }

  /** After any run of creations and deletions the two directions agree for every
      pair of filters, and no filter refers to another twice. */
  lemma AlwaysSymmetric(names: seq<string>, defs: Defs, ops: seq<Op>, a: string, b: string)
    requires Sound(names, defs)
    ensures var now := ApplyAll(defs, ops);
            && (b in Children(now, a) <==> a in Parents(names, now, b))
            && (LookupFilter(now, a).Some? ==> Distinct(LookupFilter(now, a).value.refs))
  {
    var now := ApplyAll(defs, ops);
    RunKeepsSound(names, defs, ops);
    Symmetric(names, now, a, b);
    ParentsExactly(names, now, a, b);
    if a in now {
      LookupName(names, now, a);
    }
  }

  // ----- when the operations succeed, and what the directions list

  /** The hypervisor has a filter of this name, and it can be read. */
  predicate Exists(defs: Defs, name: string) {
    name in defs && FilterFromXml(defs[name]).Some?
  }

  /** A reference is created exactly when both filters exist, the parent does not have
      it yet and the hypervisor accepts the new definition, whatever rules it had. */
  lemma CreateSucceeds(defs: Defs, parent: string, child: string, accepted: bool)
    ensures Created(defs, parent, child, accepted).Some?
            <==> && Exists(defs, parent) && Exists(defs, child) && accepted
                 && child !in FilterFromXml(defs[parent]).value.refs
  {
  }

  /** A reference is deleted exactly when both filters exist, the parent has any
      reference and the hypervisor accepts the new definition. */
  lemma DeleteSucceeds(defs: Defs, parent: string, child: string, accepted: bool)
    ensures Deleted(defs, parent, child, accepted).Some?
            <==> && Exists(defs, parent) && Exists(defs, child) && accepted
                 && FilterFromXml(defs[parent]).value.refs != []
  {
  }

  lemma {:induction false} ListedAre(names: seq<string>, defs: Defs, refs: seq<string>)
    requires Consistent(names, defs) && forall r :: r in refs ==> Exists(defs, r)
    ensures Listed(defs, refs) == refs
    decreases |refs|
  {
    if refs != [] {
      assert refs[0] in refs && forall r :: r in refs[1..] ==> r in refs;
      LookupName(names, defs, refs[0]);
      ListedAre(names, defs, refs[1..]);
      assert refs == [refs[0]] + refs[1..];
    }
  }

  /** Where all references exist, the children listed are the references, in order. */
  lemma ChildrenAre(names: seq<string>, defs: Defs, name: string)
    requires Consistent(names, defs) && Exists(defs, name)
    requires forall r :: r in FilterFromXml(defs[name]).value.refs ==> Exists(defs, r)
    ensures Children(defs, name) == FilterFromXml(defs[name]).value.refs
  {
    ListedAre(names, defs, FilterFromXml(defs[name]).value.refs);
  }

  /** The names whose filters refer to a filter, in order. */
  function Refers(names: seq<string>, defs: Defs, name: string): seq<string>
    requires forall n :: n in names ==> Exists(defs, n)
  {
    if names == [] then []
    else
      assert Exists(defs, names[0]) && forall n :: n in names[1..] ==> n in names;
      (if name in FilterFromXml(defs[names[0]]).value.refs then [names[0]] else []) + Refers(names[1..], defs, name)
  }

  lemma {:induction false} ReferringAre(all: seq<string>, names: seq<string>, defs: Defs, name: string)
    requires Consistent(all, defs) && forall n :: n in names ==> Exists(defs, n)
    ensures Referring(Filters(names, defs), name) == Refers(names, defs, name)
    decreases |names|
  {
    if names != [] {
      assert names[0] in names && forall n :: n in names[1..] ==> n in names;
      LookupName(all, defs, names[0]);
      ReferringAre(all, names[1..], defs, name);
      var f := FilterFromXml(defs[names[0]]).value;
      assert Filters(names, defs) == [f] + Filters(names[1..], defs);
    }
  }

  /** Where all filters can be read, the parents listed are those that refer to the
      filter, in the hypervisor's order. */
  lemma ParentsAre(names: seq<string>, defs: Defs, name: string)
    requires Consistent(names, defs) && forall n :: n in names ==> Exists(defs, n)
    ensures Parents(names, defs, name) == Refers(names, defs, name)
  {
    ReferringAre(names, names, defs, name);
  }
}
