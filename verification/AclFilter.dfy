/** Network filters and their references to other filters: libxkutil/acl_parsing.c
    and filter_to_xml of libxkutil/xmlgen.c, on top of the ring list. */
module AclFilter {
  import opened Prelude
  import Decimal
  import opened Xml
  import R = RingList

  /** A rule is kept as the element it was read from. */
  datatype Rule = Rule(id: string, node: Tree)

  /** A filter as a value; `refs` are the names on its reference list. */
  datatype FilterValue = FilterValue(
    uuid: Option<string>,
    name: string,
    chain: Option<string>,
    priority: Option<string>,
    rules: seq<Rule>,
    refs: seq<string>)

  /** filter_ref_cmp; callers only ever compare the result with 0. */
  function StrCmp(a: string, b: string): int {
    if a == b then 0 else 1
  }

  const STR_CMP: (string, string) -> int := StrCmp

  // ----- reference lists as sequences

  function Plus(refs: seq<string>, name: string): seq<string> {
    if name in refs then refs else refs + [name]
  }

  function Minus(refs: seq<string>, name: string): seq<string> {
    if refs == [] then []
    else if refs[0] == name then refs[1..]
    else [refs[0]] + Minus(refs[1..], name)
  }

  lemma PlusDistinct(refs: seq<string>, name: string)
    requires Distinct(refs)
    ensures Distinct(Plus(refs, name))
    ensures forall x :: x in Plus(refs, name) <==> x in refs || x == name
  {
  }

  lemma {:induction false} MinusDistinct(refs: seq<string>, name: string)
    requires Distinct(refs)
    ensures Distinct(Minus(refs, name))
    ensures forall x :: x in Minus(refs, name) <==> x in refs && x != name
    decreases |refs|
  {
    if refs != [] {
      var rest := refs[1..];
      assert forall x :: x in refs <==> x == refs[0] || x in rest;
      assert refs[0] !in rest by {
        assert forall i :: 0 <= i < |rest| ==> rest[i] == refs[i + 1];
      }
      MinusDistinct(rest, name);
      if refs[0] != name {
        var m := Minus(rest, name);
        assert forall x :: x in [refs[0]] + m <==> x == refs[0] || x in m;
      }
    }
  }

  lemma {:induction false} MinusAbsent(refs: seq<string>, name: string)
    requires name !in refs
    ensures Minus(refs, name) == refs
    decreases |refs|
  {
    if refs != [] {
      assert refs[0] in refs && forall x :: x in refs[1..] ==> x in refs;
      MinusAbsent(refs[1..], name);
      assert refs == [refs[0]] + refs[1..];
    }
  }

  /** Adding a new reference and removing it again restores the list. */
  lemma {:induction false} PlusThenMinus(refs: seq<string>, name: string)
    requires name !in refs
    ensures Minus(Plus(refs, name), name) == refs
    decreases |refs|
  {
    if refs == [] {
      assert [name][1..] == [];
    } else {
      assert refs[0] in refs && forall x :: x in refs[1..] ==> x in refs;
      PlusThenMinus(refs[1..], name);
      assert (refs + [name])[0] == refs[0] && (refs + [name])[1..] == refs[1..] + [name];
      assert refs == [refs[0]] + refs[1..];
    }
  }

  /** list_remove on the names is removal from the sequence. */
  lemma {:induction false} RemoveIsMinus(refs: seq<string>, name: string)
    ensures R.RemoveSpec(Some(STR_CMP), refs, name) == Minus(refs, name)
    decreases |refs|
  {
    var k := R.FirstMatch(STR_CMP, refs, name);
    if refs == [] {
    } else if refs[0] == name {
      assert k == 0 && R.Without(refs, 0) == refs[1..];
    } else {
      RemoveIsMinus(refs[1..], name);
      var rest := R.FirstMatch(STR_CMP, refs[1..], name);
      assert k == 1 + rest;
      if k < |refs| {
        assert R.Without(refs, k) == [refs[0]] + R.Without(refs[1..], rest);
      } else {
        assert refs == [refs[0]] + refs[1..];
      }
    }
  }

  lemma {:induction false} FoundExactly(refs: seq<string>, name: string)
    ensures R.FirstMatch(STR_CMP, refs, name) < |refs| <==> name in refs
    decreases |refs|
  {
    if refs != [] && refs[0] != name {
      FoundExactly(refs[1..], name);
      assert forall x :: x in refs <==> x == refs[0] || x in refs[1..];
    }
  }

  // ----- printing and parsing

  function RefKids(refs: seq<string>): seq<Tree> {
    if refs == [] then [] else [Leaf("filterref", Prop("filter", refs[0]))] + RefKids(refs[1..])
  }

  function UuidKids(uuid: Option<string>): seq<Tree> {
    if uuid.Some? then [TextLeaf("uuid", uuid)] else []
  }

  /** No rules are printed, and no priority. */
  function FilterTree(f: FilterValue): Tree {
    Element("filter", Prop("name", f.name) + OptAttr("chain", f.chain), UuidKids(f.uuid) + RefKids(f.refs))
  }

  /** parse_acl_rule fails without an action or a direction. */
  predicate RuleParses(kid: Tree) {
    GetAttr(kid, "action").Some? && GetAttr(kid, "direction").Some?
  }

  /** make_rule_id */
  function RuleId(filter: string, index: nat): string {
    filter + ":" + Decimal.Digits(index)
  }

  function FilterStep(f: FilterValue, kid: Tree): Option<FilterValue> {
    if Name(kid) == "uuid" then Some(f.(uuid := Some(Content(kid))))
    else if Name(kid) == "rule" then
      if RuleParses(kid) then Some(f.(rules := f.rules + [Rule(RuleId(f.name, |f.rules|), kid)])) else None
    else if Name(kid) == "filterref" then
      match GetAttr(kid, "filter")
      case None => None
      case Some(name) => if name in f.refs then None else Some(f.(refs := f.refs + [name]))
    else Some(f)
  }

  function FilterStart(x: Tree): FilterValue {
    FilterValue(None, GetAttr(x, "name").GetOr(""), GetAttr(x, "chain"), GetAttr(x, "priority"), [], [])
  }

  /** parse_acl_filter: a repeated reference makes the whole filter fail. */
  function FilterFrom(x: Tree): Option<FilterValue> {
    if x.Text? || GetAttr(x, "name").None? then None else Fold(FilterStep, FilterStart(x), x.kids)
  }

  /** get_filter_from_xml on the text of a tree. */
  function FilterFromXml(xml: Tree): Option<FilterValue> {
    match ParseMemory(xml)
    case None => None
    case Some(doc) => FilterFrom(doc)
  }

  // ----- the code

  class Filter {
    var uuid: Option<string>
    var name: string
    var chain: Option<string>
    var priority: Option<string>
    var rules: seq<Rule>
    var refs: R.List?<string>

    ghost function Nodes(): seq<R.Node<string>>
      reads this, refs
    {
      if refs == null then [] else refs.Nodes
    }

    ghost predicate Valid()
      reads this, refs, Nodes()
    {
      refs != null ==>
        refs.Valid() && refs.hasFreeCb && refs.cmpCb == Some(STR_CMP) && Distinct(refs.Contents)
    }

    ghost function Refs(): seq<string>
      reads this, refs
    {
      if refs == null then [] else refs.Contents
    }

    ghost function Value(): FilterValue
      reads this, refs
    {
      FilterValue(uuid, name, chain, priority, rules, Refs())
    }

    constructor (name: string, chain: Option<string>, priority: Option<string>)
      ensures Valid() && Value() == FilterValue(None, name, chain, priority, [], []) && refs == null
    {
      this.uuid, this.name, this.chain, this.priority := None, name, chain, priority;
      this.rules, this.refs := [], null;
    }

    /** append_filter_ref: a NULL name and a name that is already there are refused. */
    method AppendRef(name: Option<string>) returns (ok: bool)
      requires Valid()
      modifies this`refs, refs, Nodes()
      ensures Valid()
      ensures refs == old(refs) || fresh(refs)
      ensures forall i :: 0 <= i < |Nodes()| ==> Nodes()[i] in old(Nodes()) || fresh(Nodes()[i])
      ensures ok == (name.Some? && name.value !in old(Refs()))
      ensures name.Some? ==> refs != null
      ensures Refs() == if name.None? then old(Refs()) else Plus(old(Refs()), name.value)
    {
      if name.None? {
        return false;
      }
      if refs == null {
        refs := new R.List(true, Some(STR_CMP));
      }
      FoundExactly(refs.Contents, name.value);
      var found := R.FindNode(refs, name.value);
      if found != null {
        return false;
      }
      R.Append(refs, name.value);
      return true;
    }

    /** remove_filter_ref: an absent name is no error. */
    method RemoveRef(name: Option<string>) returns (ok: bool)
      requires Valid()
      modifies refs, Nodes()
      ensures Valid()
      ensures ok == (name.Some? && refs != null)
      ensures Refs() == if name.None? then old(Refs()) else Minus(old(Refs()), name.value)
    {
      if refs == null || name.None? {
        return false;
      }
      MinusDistinct(refs.Contents, name.value);
      RemoveIsMinus(refs.Contents, name.value);
      var freed := R.Remove(refs, name.value);
      return true;
    }

    /** The part of filter_to_xml before the references. */
    method HeadXml() returns (root: Builder)
      ensures fresh(root) && root.name == "filter" && root.kids == UuidKids(uuid)
      ensures root.attrs == Prop("name", name) + OptAttr("chain", chain)
    {
      root := new Builder("filter");
      root.NewProp("name", Some(name));
      root.NewOptProp("chain", chain);
      if uuid.Some? {
        root.AddChild(TextLeaf("uuid", uuid));
      }
    }

    /** filter_to_xml: the references are printed by a walk of the ring. */
    method ToXml() returns (xml: Tree)
      requires Valid()
      ensures xml == FilterTree(Value())
    {
      var root := HeadXml();
      var ok, kids := R.Foreach(refs, RefPrinter, root.kids);
      PrintedRefs(Refs(), root.kids);
      assert UuidKids(uuid) + [] == UuidKids(uuid);
      root.kids := kids;
      return root.Built();
    }
  }

  /** filter_ref_foreach, the callback; the root's children are its state. */
  function RefPrinter(name: string, kids: seq<Tree>): (bool, seq<Tree>) {
    (true, kids + [Leaf("filterref", Prop("filter", name))])
  }

  lemma {:induction false} PrintedRefs(refs: seq<string>, kids: seq<Tree>)
    ensures R.ForeachSpec(RefPrinter, refs, kids) == (true, kids + RefKids(refs))
    decreases |refs|
  {
    if refs == [] {
      assert kids + [] == kids;
    } else {
      var first := Leaf("filterref", Prop("filter", refs[0]));
      PrintedRefs(refs[1..], kids + [first]);
      assert kids + [first] + RefKids(refs[1..]) == kids + RefKids(refs);
    }
  }

  /** One turn of parse_acl_filter's loop. */
  method ParseFilterChild(f: Filter, kid: Tree) returns (ok: bool)
    requires f.Valid()
    modifies f`uuid, f`rules, f`refs, f.refs, f.Nodes()
    ensures f.Valid()
    ensures f.refs == old(f.refs) || fresh(f.refs)
    ensures forall i :: 0 <= i < |f.Nodes()| ==> f.Nodes()[i] in old(f.Nodes()) || fresh(f.Nodes()[i])
    ensures ok == FilterStep(old(f.Value()), kid).Some?
    ensures ok ==> f.Value() == FilterStep(old(f.Value()), kid).value
    ensures ok && (old(f.refs) == null <==> old(f.Refs()) == []) ==> (f.refs == null <==> f.Refs() == [])
  {
    ok := true;
    if Name(kid) == "uuid" {
      f.uuid := Some(Content(kid));
    } else if Name(kid) == "rule" {
      ok := RuleParses(kid);
      if ok {
        f.rules := f.rules + [Rule(RuleId(f.name, |f.rules|), kid)];
      }
    } else if Name(kid) == "filterref" {
      ok := f.AppendRef(GetAttr(kid, "filter"));
    }
  }

  method ParseAclFilter(x: Tree) returns (f: Filter?)
    ensures (f == null) == FilterFrom(x).None?
    ensures f != null ==> fresh(f) && f.Valid() && f.Value() == FilterFrom(x).value
    ensures f != null ==> (f.refs == null <==> f.Refs() == []) && (f.refs == null || fresh(f.refs))
    ensures f != null ==> forall i :: 0 <= i < |f.Nodes()| ==> fresh(f.Nodes()[i])
  {
    if x.Text? || GetAttr(x, "name").None? {
      return null;
    }
    var g := new Filter(GetAttr(x, "name").value, GetAttr(x, "chain"), GetAttr(x, "priority"));
    for i := 0 to |x.kids|
      invariant fresh(g) && g.Valid() && (g.refs == null || fresh(g.refs))
      invariant forall i :: 0 <= i < |g.Nodes()| ==> fresh(g.Nodes()[i])
      invariant g.refs == null <==> g.Refs() == []
      invariant FilterFrom(x) == Fold(FilterStep, g.Value(), x.kids[i..])
    {
      assert x.kids[i..][1..] == x.kids[i + 1..];
      var ok := ParseFilterChild(g, x.kids[i]);
      if !ok {
        return null;
      }
    }
    return g;
  }

  method GetFilterFromXml(xml: Tree) returns (f: Filter?)
    ensures (f == null) == FilterFromXml(xml).None?
    ensures f != null ==> fresh(f) && f.Valid() && f.Value() == FilterFromXml(xml).value
    ensures f != null ==> (f.refs == null <==> f.Refs() == []) && (f.refs == null || fresh(f.refs))
    ensures f != null ==> forall i :: 0 <= i < |f.Nodes()| ==> fresh(f.Nodes()[i])
  {
    var doc := ParseMemory(xml);
    if doc.None? {
      return null;
    }
    f := ParseAclFilter(doc.value);
  }

  // ----- what survives printing and parsing

  lemma RefStep(f: FilterValue, name: string)
    ensures FilterStep(f, Leaf("filterref", Prop("filter", name)))
            == if name in f.refs then None else Some(f.(refs := f.refs + [name]))
  {
  }

  lemma RefsNext(f: FilterValue, refs: seq<string>)
    requires refs != []
    ensures Fold(FilterStep, f, RefKids(refs))
            == if refs[0] in f.refs then None else Fold(FilterStep, f.(refs := f.refs + [refs[0]]), RefKids(refs[1..]))
  {
    RefStep(f, refs[0]);
    assert RefKids(refs)[1..] == RefKids(refs[1..]);
  }

  lemma {:induction false} RefsReadBack(f: FilterValue, refs: seq<string>)
    ensures Fold(FilterStep, f, RefKids(refs))
            == if Distinct(refs) && (forall x :: x in refs ==> x !in f.refs)
               then Some(f.(refs := f.refs + refs)) else None
    decreases |refs|
  {
    if refs == [] {
      assert f.refs + refs == f.refs;
    } else {
      var name, rest := refs[0], refs[1..];
      assert refs == [name] + rest;
      RefsNext(f, refs);
      DistinctSplit(name, rest);
      if name !in f.refs {
        var g := f.(refs := f.refs + [name]);
        RefsReadBack(g, rest);
        StillNew(f.refs, name, rest);
        Associative(f.refs, [name], rest);
      }
    }
  }

  lemma StillNew(was: seq<string>, name: string, rest: seq<string>)
    requires name !in was
    ensures (forall x :: x in rest ==> x !in was + [name])
            <==> name !in rest && forall x :: x in [name] + rest ==> x !in was
  {
    assert forall x :: x in [name] + rest <==> x == name || x in rest;
    assert forall x :: x in was + [name] <==> x in was || x == name;
  }

  lemma DistinctSplit(x: string, rest: seq<string>)
    ensures Distinct([x] + rest) <==> x !in rest && Distinct(rest)
  {
    var all := [x] + rest;
    assert forall i :: 0 <= i < |rest| ==> rest[i] == all[i + 1];
    if Distinct(all) {
      forall i | 0 <= i < |rest| ensures rest[i] != x {
        assert all[0] != all[i + 1];
      }
    }
  }

  lemma FilterIgnoresText()
    ensures IgnoresText(FilterStep)
  {
    assert "text"[0] == 't' && "uuid"[0] == 'u' && "rule"[0] == 'r';
    forall f, t: string ensures FilterStep(f, Text(t)) == Some(f) {
      assert Name(Text(t)) == "text";
    }
  }

  lemma {:induction false} RefKidsPlain(refs: seq<string>)
    ensures Settled(RefKids(refs)) && AllWellFormed(RefKids(refs))
    decreases |refs|
  {
    if refs != [] {
      RefKidsPlain(refs[1..]);
    }
  }

  lemma FilterKidsReadBack(f: FilterValue)
    ensures Fold(FilterStep, FilterStart(FilterTree(f)), FilterTree(f).kids)
            == if Distinct(f.refs) then Some(f.(priority := None, rules := [])) else None
  {
    var start := FilterValue(None, f.name, f.chain, None, [], []);
    LookupGroups(Prop("name", f.name), OptAttr("chain", f.chain), [], []);
    assert FilterStart(FilterTree(f)) == start;
    FoldConcat(FilterStep, start, UuidKids(f.uuid), RefKids(f.refs));
    if f.uuid.Some? {
      FoldOne(FilterStep, start, TextLeaf("uuid", f.uuid));
    }
    RefsReadBack(start.(uuid := f.uuid), f.refs);
    assert [] + f.refs == f.refs;
  }

  /** Printing and parsing a filter loses exactly its rules and its priority. */
  lemma FilterReadBack(f: FilterValue)
    ensures FilterFromXml(FilterTree(f)) == if Distinct(f.refs) then Some(f.(priority := None, rules := [])) else None
  {
    var x := FilterTree(f);
    RefKidsPlain(f.refs);
    TextLeafSettled("uuid", f.uuid);
    DistinctGroups(Prop("name", f.name), OptAttr("chain", f.chain), [], []);
    AllWellFormedConcat(UuidKids(f.uuid), RefKids(f.refs));
    assert WellFormed(x);
    FilterIgnoresText();
    FoldSettled(FilterStep, FilterStart(x), x, 0);
    LookupGroups(Prop("name", f.name), OptAttr("chain", f.chain), [], []);
    FilterKidsReadBack(f);
  }

  /** A filter comes back as itself, references in order, exactly when it has no
      rules, no priority and no repeated reference. */
  lemma FilterRoundTrip(f: FilterValue)
    ensures FilterFromXml(FilterTree(f)) == Some(f) <==> f.rules == [] && f.priority.None? && Distinct(f.refs)
  {
    FilterReadBack(f);
  }

  lemma {:induction false} FoldKeepsDistinct(f: FilterValue, kids: seq<Tree>)
    requires Distinct(f.refs)
    ensures Fold(FilterStep, f, kids).Some? ==> Distinct(Fold(FilterStep, f, kids).value.refs)
    ensures Fold(FilterStep, f, kids).Some? ==> Fold(FilterStep, f, kids).value.name == f.name
    decreases |kids|
  {
    if kids != [] && FilterStep(f, kids[0]).Some? {
      FoldKeepsDistinct(FilterStep(f, kids[0]).value, kids[1..]);
    }
  }

  /** Whatever the hypervisor hands over, a filter that parses has no repeated reference. */
  lemma ParsedRefsDistinct(xml: Tree)
    ensures FilterFromXml(xml).Some? ==> Distinct(FilterFromXml(xml).value.refs)
    ensures FilterFromXml(xml).Some? ==> Some(FilterFromXml(xml).value.name) == GetAttr(xml, "name")
  {
    var doc := ParseMemory(xml);
    if doc.Some? && doc.value.Element? {
      FoldKeepsDistinct(FilterStart(doc.value), doc.value.kids);
    }
  }
}
