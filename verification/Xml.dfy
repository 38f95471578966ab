/** XML documents as libxml2 hands them over: trees of elements with ordered
    attributes and children, text nodes among the children. */
module Xml {
  import opened Prelude

  datatype Attr = Attr(key: string, val: string)

  datatype Tree =
    | Element(name: string, attrs: seq<Attr>, kids: seq<Tree>)
    | Text(content: string)

  /** node->name */
  function Name(x: Tree): string {
    if x.Element? then x.name else "text"
  }

  function Lookup(attrs: seq<Attr>, key: string): Option<string> {
    if attrs == [] then None
    else if attrs[0].key == key then Some(attrs[0].val)
    else Lookup(attrs[1..], key)
  }

  lemma {:induction false} LookupConcat(a: seq<Attr>, b: seq<Attr>, key: string)
    ensures Lookup(a + b, key) == OrElse(Lookup(a, key), Lookup(b, key))
    decreases |a|
  {
    if a == [] {
      assert a + b == b;
    } else {
      assert (a + b)[0] == a[0] && (a + b)[1..] == a[1..] + b;
      LookupConcat(a[1..], b, key);
    }
  }

  /** Attributes written one group after the other. */
  lemma LookupGroups(a: seq<Attr>, b: seq<Attr>, c: seq<Attr>, d: seq<Attr>)
    ensures forall key {:trigger Lookup(a + b, key)} :: Lookup(a + b, key) == OrElse(Lookup(a, key), Lookup(b, key))
    ensures forall key {:trigger Lookup(a + b + c, key)} ::
              Lookup(a + b + c, key) == OrElse(Lookup(a, key), OrElse(Lookup(b, key), Lookup(c, key)))
    ensures forall key {:trigger Lookup(a + b + c + d, key)} ::
              Lookup(a + b + c + d, key)
              == OrElse(Lookup(a, key), OrElse(Lookup(b, key), OrElse(Lookup(c, key), Lookup(d, key))))
  {
    forall key: string
      ensures Lookup(a + b, key) == OrElse(Lookup(a, key), Lookup(b, key))
      ensures Lookup(a + b + c, key) == OrElse(Lookup(a + b, key), Lookup(c, key))
      ensures Lookup(a + b + c + d, key) == OrElse(Lookup(a + b + c, key), Lookup(d, key))
    {
      LookupConcat(a, b, key);
      LookupConcat(a + b, c, key);
      LookupConcat(a + b + c, d, key);
    }
  }

  /** get_attr_value */
  function GetAttr(x: Tree, key: string): Option<string> {
    if x.Element? then Lookup(x.attrs, key) else None
  }

  /** get_node_content: all text below, in order. */
  function Content(x: Tree): string {
    match x
    case Text(s) => s
    case Element(_, _, ks) => Contents(ks)
  }

  function Contents(ks: seq<Tree>): string {
    if ks == [] then "" else Content(ks[0]) + Contents(ks[1..])
  }

  // ----- building

  function Prop(key: string, val: string): (r: seq<Attr>)
    ensures r == [Attr(key, val)] && forall k :: Lookup(r, k) == if k == key then Some(val) else None
  {
    assert forall k :: Lookup([Attr(key, val)][1..], k) == None;
    [Attr(key, val)]
  }

  function OptAttr(key: string, v: Option<string>): (r: seq<Attr>)
    ensures r == [] || (|r| == 1 && r[0].key == key)
    ensures forall k :: Lookup(r, k) == if k == key then v else None
  {
    if v.Some? then Prop(key, v.value) else []
  }

  function Leaf(name: string, attrs: seq<Attr>): Tree {
    Element(name, attrs, [])
  }

  function OptLeaf(name: string, key: string, v: Option<string>): seq<Tree> {
    if v.Some? then [Leaf(name, Prop(key, v.value))] else []
  }

  function Flag(name: string, on: bool): seq<Tree> {
    if on then [Leaf(name, [])] else []
  }

  /** xmlNewChild with content; NULL and "" leave the element empty. */
  function TextLeaf(name: string, content: Option<string>): (x: Tree)
    ensures Content(x) == TextOf(content)
    ensures x.Element? && x.name == name && x.attrs == []
  {
    assert TextOf(content) != "" ==> Contents([Text(content.value)]) == content.value + "";
    Element(name, [], if TextOf(content) == "" then [] else [Text(content.value)])
  }

  /** A node under construction. */
  class Builder {
    const name: string
    var attrs: seq<Attr>
    var kids: seq<Tree>

    constructor (name: string)
      ensures this.name == name && attrs == [] && kids == []
    {
      this.name := name;
      attrs, kids := [], [];
    }

    function Built(): Tree
      reads this
    {
      Element(name, attrs, kids)
    }

    /** xmlNewProp: a NULL value makes an empty attribute. */
    method NewProp(key: string, val: Option<string>)
      modifies this`attrs
      ensures attrs == old(attrs) + Prop(key, TextOf(val))
    {
      attrs := attrs + Prop(key, TextOf(val));
    }

    /** The guarded form, for optional attributes. */
    method NewOptProp(key: string, val: Option<string>)
      modifies this`attrs
      ensures attrs == old(attrs) + OptAttr(key, val)
    {
      if val.Some? {
        NewProp(key, val);
      }
    }

    method AddChild(kid: Tree)
      modifies this`kids
      ensures kids == old(kids) + [kid]
    {
      kids := kids + [kid];
    }
  }

  /** A child with one attribute, for a value that is set. */
  method AddOptLeaf(parent: Builder, name: string, key: string, val: Option<string>)
    modifies parent`kids
    ensures parent.kids == old(parent.kids) + OptLeaf(name, key, val)
  {
    if val.Some? {
      var tmp := new Builder(name);
      tmp.NewProp(key, val);
      assert tmp.attrs == Prop(key, val.value);
      parent.AddChild(tmp.Built());
    }
  }

  // ----- reading: loops over children

  /** A loop over the children that updates an accumulator and may give up. */
  function Fold<A>(step: (A, Tree) -> Option<A>, acc: A, kids: seq<Tree>): Option<A>
    decreases |kids|
  {
    if kids == [] then Some(acc)
    else
      match step(acc, kids[0])
      case None => None
      case Some(a) => Fold(step, a, kids[1..])
  }

  lemma {:induction false} FoldConcat<A>(step: (A, Tree) -> Option<A>, acc: A, a: seq<Tree>, b: seq<Tree>)
    ensures Fold(step, acc, a + b)
            == (match Fold(step, acc, a) case None => None case Some(m) => Fold(step, m, b))
    decreases |a|
  {
    if a == [] {
      assert a + b == b;
    } else {
      assert (a + b)[0] == a[0] && (a + b)[1..] == a[1..] + b;
      var r := step(acc, a[0]);
      if r.Some? {
        FoldConcat(step, r.value, a[1..], b);
      }
    }
  }

  lemma FoldOne<A>(step: (A, Tree) -> Option<A>, acc: A, kid: Tree)
    ensures Fold(step, acc, [kid]) == step(acc, kid)
  {
    assert [kid][1..] == [];
    assert step(acc, kid).Some? ==> Fold(step, step(acc, kid).value, []) == step(acc, kid);
  }

  lemma FoldTwo<A>(step: (A, Tree) -> Option<A>, acc: A, mid: A, last: A, a: Tree, b: Tree)
    requires step(acc, a) == Some(mid) && step(mid, b) == Some(last)
    ensures Fold(step, acc, [a, b]) == Some(last)
  {
    assert [a, b] == [a] + [b];
    FoldConcat(step, acc, [a], [b]);
    FoldOne(step, acc, a);
    FoldOne(step, mid, b);
  }

  /** The children with one of these names, in document order. */
  function Select(kids: seq<Tree>, names: set<string>): seq<Tree> {
    if kids == [] then []
    else if kids[0].Element? && kids[0].name in names then [kids[0]] + Select(kids[1..], names)
    else Select(kids[1..], names)
  }

  lemma {:induction false} SelectConcat(a: seq<Tree>, b: seq<Tree>, names: set<string>)
    ensures Select(a + b, names) == Select(a, names) + Select(b, names)
    decreases |a|
  {
    if a == [] {
      assert a + b == b;
    } else {
      assert (a + b)[0] == a[0] && (a + b)[1..] == a[1..] + b;
      SelectConcat(a[1..], b, names);
    }
  }

  lemma SelectConcatFive(a: seq<Tree>, b: seq<Tree>, c: seq<Tree>, d: seq<Tree>, e: seq<Tree>, names: set<string>)
    ensures Select(a + (b + c + d) + e, names)
            == Select(a, names) + (Select(b, names) + Select(c, names) + Select(d, names)) + Select(e, names)
  {
    SelectConcat(a + (b + c + d), e, names);
    SelectConcat(a, b + c + d, names);
    SelectConcat(b + c, d, names);
    SelectConcat(b, c, names);
  }

  lemma {:induction false} SelectNone(kids: seq<Tree>, names: set<string>)
    requires forall k :: k in kids ==> k.Text? || k.name !in names
    ensures Select(kids, names) == []
    decreases |kids|
  {
    if kids != [] {
      assert kids[0] in kids && forall k :: k in kids[1..] ==> k in kids;
      SelectNone(kids[1..], names);
    }
  }

  lemma {:induction false} SelectEvery(kids: seq<Tree>, names: set<string>)
    requires forall k :: k in kids ==> k.Element? && k.name in names
    ensures Select(kids, names) == kids
    decreases |kids|
  {
    if kids != [] {
      assert kids[0] in kids && forall k :: k in kids[1..] ==> k in kids;
      SelectEvery(kids[1..], names);
    }
  }

  /** Parsing every node of a list, keeping what parses (do_parse). */
  function ParseAll<D>(nodes: seq<Tree>, parse: Tree -> Option<D>): seq<D> {
    if nodes == [] then []
    else
      match parse(nodes[0])
      case None => ParseAll(nodes[1..], parse)
      case Some(d) => [d] + ParseAll(nodes[1..], parse)
  }

  lemma {:induction false} ParseAllShort<D>(nodes: seq<Tree>, parse: Tree -> Option<D>)
    ensures |ParseAll(nodes, parse)| <= |nodes|
    decreases |nodes|
  {
    if nodes != [] {
      ParseAllShort(nodes[1..], parse);
    }
  }

  /** As many results as nodes means that every node parsed, each to its result. */
  lemma {:induction false} ParseAllExact<D>(nodes: seq<Tree>, parse: Tree -> Option<D>, ds: seq<D>)
    requires |nodes| == |ds|
    ensures ParseAll(nodes, parse) == ds <==> forall i :: 0 <= i < |ds| ==> parse(nodes[i]) == Some(ds[i])
    decreases |nodes|
  {
    if nodes != [] {
      ParseAllExact(nodes[1..], parse, ds[1..]);
      ParseAllShort(nodes[1..], parse);
      var first := parse(nodes[0]);
      if first.Some? {
        assert ParseAll(nodes, parse) == [first.value] + ParseAll(nodes[1..], parse);
        assert ds == [ds[0]] + ds[1..];
        assert ParseAll(nodes, parse)[1..] == ParseAll(nodes[1..], parse);
      }
      assert forall i :: 0 < i < |ds| ==> nodes[i] == nodes[1..][i - 1] && ds[i] == ds[1..][i - 1];
      if forall i :: 0 <= i < |ds| ==> parse(nodes[i]) == Some(ds[i]) {
        assert parse(nodes[0]) == Some(ds[0]);
        assert forall i :: 0 <= i < |ds[1..]| ==> parse(nodes[1..][i]) == Some(ds[1..][i]);
      }
    }
  }

  method DoParse<D>(nodes: seq<Tree>, parse: Tree -> Option<D>) returns (list: seq<D>)
    ensures list == ParseAll(nodes, parse)
  {
    list := [];
    for i := 0 to |nodes|
      invariant ParseAll(nodes, parse) == list + ParseAll(nodes[i..], parse)
    {
      assert nodes[i..][1..] == nodes[i + 1..];
      var d := parse(nodes[i]);
      if d.Some? {
        list := list + [d.value];
      }
    }
  }

  // ----- saving with indentation and parsing again

  function NewLine(depth: nat): Tree {
    Text("\n" + seq(2 * depth, _ => ' '))
  }

  predicate HasText(kids: seq<Tree>) {
    exists i :: 0 <= i < |kids| && kids[i].Text?
  }

  function Indented(kids: seq<Tree>, depth: nat): seq<Tree> {
    if kids == [] then [NewLine(depth)]
    else [NewLine(depth + 1), kids[0]] + Indented(kids[1..], depth)
  }

  /** What reading back a tree saved with XML_SAVE_FORMAT gives: white space text
      appears between the children of every element that has only elements. */
  function Reparse(x: Tree, depth: nat): (r: Tree)
    ensures x.Element? ==> r.Element? && r.name == x.name && r.attrs == x.attrs
  {
    match x
    case Text(_) => x
    case Element(n, a, ks) =>
      if ks == [] || HasText(ks) then x
      else Element(n, a, Indented(ReparseAll(ks, depth + 1), depth))
  }

  function ReparseAll(ks: seq<Tree>, depth: nat): (r: seq<Tree>)
    ensures |r| == |ks|
    ensures forall i :: 0 <= i < |ks| ==> r[i] == Reparse(ks[i], depth)
  {
    if ks == [] then [] else [Reparse(ks[0], depth)] + ReparseAll(ks[1..], depth)
  }

  lemma ReparseAllConcat(a: seq<Tree>, b: seq<Tree>, depth: nat)
    ensures ReparseAll(a + b, depth) == ReparseAll(a, depth) + ReparseAll(b, depth)
  {
    var whole, parts := ReparseAll(a + b, depth), ReparseAll(a, depth) + ReparseAll(b, depth);
    forall i | 0 <= i < |whole| ensures whole[i] == parts[i] {
      assert (a + b)[i] == if i < |a| then a[i] else b[i - |a|];
    }
  }

  /** No element repeats an attribute name; the parser accepts nothing else. */
  predicate WellFormed(x: Tree) {
    x.Text? ||
    (&& DistinctKeys(x.attrs)
     && forall k :: k in x.kids ==> WellFormed(k))
  }

  predicate AllWellFormed(kids: seq<Tree>) {
    forall k :: k in kids ==> WellFormed(k)
  }

  lemma AllWellFormedConcat(a: seq<Tree>, b: seq<Tree>)
    ensures AllWellFormed(a + b) <==> AllWellFormed(a) && AllWellFormed(b)
  {
    assert forall k :: k in a || k in b <==> k in a + b;
  }

  lemma OptLeafWellFormed(name: string, key: string, v: Option<string>)
    ensures AllWellFormed(OptLeaf(name, key, v))
  {
  }

  predicate DistinctKeys(a: seq<Attr>) {
    forall i, j :: 0 <= i < j < |a| ==> a[i].key != a[j].key
  }

  lemma DistinctConcat(a: seq<Attr>, b: seq<Attr>)
    requires DistinctKeys(a) && DistinctKeys(b)
    requires forall x, y :: x in a && y in b ==> x.key != y.key
    ensures DistinctKeys(a + b)
  {
    forall i, j | 0 <= i < j < |a + b| ensures (a + b)[i].key != (a + b)[j].key {
      if i < |a| <= j {
        assert a[i] in a && b[j - |a|] in b;
      }
    }
  }

  /** Groups of at most one attribute each, with names in the order given. */
  lemma DistinctGroups(a: seq<Attr>, b: seq<Attr>, c: seq<Attr>, d: seq<Attr>)
    requires |a| <= 1 && |b| <= 1 && |c| <= 1 && |d| <= 1
    requires forall x, y :: x in a && y in b + c + d ==> x.key != y.key
    requires forall x, y :: x in b && y in c + d ==> x.key != y.key
    requires forall x, y :: x in c && y in d ==> x.key != y.key
    ensures DistinctKeys(a + b) && DistinctKeys(a + b + c) && DistinctKeys(a + b + c + d)
  {
  }

  /** xmlParseMemory of tree_to_xml. */
  function ParseMemory(x: Tree): Option<Tree> {
    if WellFormed(x) then Some(Reparse(x, 0)) else None
  }

  ghost predicate IgnoresText<A(!new)>(step: (A, Tree) -> Option<A>) {
    forall a: A, s: string :: step(a, Text(s)) == Some(a)
  }

  lemma {:induction false} FoldIndented<A(!new)>(step: (A, Tree) -> Option<A>, acc: A, kids: seq<Tree>, depth: nat)
    requires IgnoresText(step)
    ensures Fold(step, acc, Indented(kids, depth)) == Fold(step, acc, kids)
    decreases |kids|
  {
    var ks := Indented(kids, depth);
    assert step(acc, Text(ks[0].content)) == Some(acc);
    if kids == [] {
      assert ks[1..] == [];
    } else {
      assert ks[1..][0] == kids[0] && ks[1..][1..] == Indented(kids[1..], depth);
      var r := step(acc, kids[0]);
      if r.Some? {
        FoldIndented(step, r.value, kids[1..], depth);
      }
    }
  }

  lemma {:induction false} FoldReparseAll<A(!new)>(step: (A, Tree) -> Option<A>, acc: A, kids: seq<Tree>, depth: nat)
    requires forall a: A, k :: k in kids ==> step(a, Reparse(k, depth)) == step(a, k)
    ensures Fold(step, acc, ReparseAll(kids, depth)) == Fold(step, acc, kids)
    decreases |kids|
  {
    if kids != [] {
      assert kids[0] in kids && forall k :: k in kids[1..] ==> k in kids;
      assert ReparseAll(kids, depth)[1..] == ReparseAll(kids[1..], depth);
      var r := step(acc, kids[0]);
      if r.Some? {
        FoldReparseAll(step, r.value, kids[1..], depth);
      }
    }
  }

  /** A loop that ignores text reads the same from the tree and from its saved
      and re-read form, provided its step does for each child. */
  lemma FoldReparse<A(!new)>(step: (A, Tree) -> Option<A>, acc: A, x: Tree, depth: nat)
    requires x.Element? && IgnoresText(step)
    requires forall a: A, k :: k in x.kids ==> step(a, Reparse(k, depth + 1)) == step(a, k)
    ensures Fold(step, acc, Reparse(x, depth).kids) == Fold(step, acc, x.kids)
  {
    if x.kids != [] && !HasText(x.kids) {
      FoldIndented(step, acc, ReparseAll(x.kids, depth + 1), depth);
      FoldReparseAll(step, acc, x.kids, depth + 1);
    }
  }

  predicate AllLeaves(kids: seq<Tree>) {
    forall k :: k in kids ==> k.Element? && k.kids == []
  }

  /** Children that saving does not touch: empty, or with text of their own. */
  predicate Settled(kids: seq<Tree>) {
    forall k :: k in kids ==> k.Element? && (k.kids == [] || HasText(k.kids))
  }

  lemma TextLeafSettled(name: string, content: Option<string>)
    ensures Settled([TextLeaf(name, content)])
    ensures forall depth: nat :: Reparse(TextLeaf(name, content), depth) == TextLeaf(name, content)
  {
    var x := TextLeaf(name, content);
    assert x.kids != [] ==> x.kids[0].Text? && HasText(x.kids);
  }

  lemma FoldSettled<A(!new)>(step: (A, Tree) -> Option<A>, acc: A, x: Tree, depth: nat)
    requires x.Element? && IgnoresText(step) && Settled(x.kids)
    ensures Fold(step, acc, Reparse(x, depth).kids) == Fold(step, acc, x.kids)
  {
    assert forall k :: k in x.kids ==> Reparse(k, depth + 1) == k;
    FoldReparse(step, acc, x, depth);
  }

  lemma {:induction false} SelectIndented(kids: seq<Tree>, depth: nat, names: set<string>)
    ensures Select(Indented(kids, depth), names) == Select(kids, names)
    decreases |kids|
  {
    var ks := Indented(kids, depth);
    assert ks[0].Text? && Select(ks, names) == Select(ks[1..], names);
    if kids != [] {
      assert ks[1..][0] == kids[0] && ks[1..][1..] == Indented(kids[1..], depth);
      SelectIndented(kids[1..], depth, names);
    }
  }

  lemma {:induction false} SelectReparseAll(kids: seq<Tree>, depth: nat, names: set<string>)
    ensures Select(ReparseAll(kids, depth), names) == ReparseAll(Select(kids, names), depth)
    decreases |kids|
  {
    if kids != [] {
      assert ReparseAll(kids, depth)[1..] == ReparseAll(kids[1..], depth);
      SelectReparseAll(kids[1..], depth, names);
    }
  }

  /** Selection by name finds the re-read forms of the same children. */
  lemma SelectReparse(x: Tree, depth: nat, names: set<string>)
    requires x.Element? && !HasText(x.kids)
    ensures Select(Reparse(x, depth).kids, names) == ReparseAll(Select(x.kids, names), depth + 1)
  {
    if x.kids != [] {
      SelectIndented(ReparseAll(x.kids, depth + 1), depth, names);
      SelectReparseAll(x.kids, depth + 1, names);
    }
  }

  ghost predicate StableUnder<A(!new)>(step: (A, Tree) -> Option<A>, kids: seq<Tree>, depth: nat) {
    forall a: A, k :: k in kids ==> step(a, Reparse(k, depth)) == step(a, k)
  }

  lemma FoldStable<A(!new)>(step: (A, Tree) -> Option<A>, acc: A, x: Tree, depth: nat)
    requires x.Element? && IgnoresText(step) && StableUnder(step, x.kids, depth + 1)
    ensures Fold(step, acc, Reparse(x, depth).kids) == Fold(step, acc, x.kids)
  {
    FoldReparse(step, acc, x, depth);
  }

  /** At most one child, and that one empty. */
  predicate Shallow(x: Tree) {
    && x.Element?
    && (x.kids == [] || (|x.kids| == 1 && x.kids[0].Element? && x.kids[0].kids == []))
  }

  predicate AllShallow(kids: seq<Tree>) {
    forall k :: k in kids ==> Shallow(k)
  }

  lemma AllShallowConcat(a: seq<Tree>, b: seq<Tree>)
    ensures AllShallow(a + b) <==> AllShallow(a) && AllShallow(b)
  {
    assert forall k :: k in a || k in b <==> k in a + b;
  }

  lemma ShallowReparse(x: Tree, depth: nat)
    requires Shallow(x)
    ensures Reparse(x, depth) == if x.kids == [] then x
                                 else Element(x.name, x.attrs, [NewLine(depth + 1), x.kids[0], NewLine(depth)])
  {
    if x.kids != [] {
      var leaf := x.kids[0];
      assert x.kids[1..] == [] && Reparse(leaf, depth + 1) == leaf;
      assert ReparseAll(x.kids, depth + 1) == [leaf];
      assert [leaf][1..] == [];
      assert Indented([leaf], depth) == [NewLine(depth + 1), leaf] + [NewLine(depth)];
    }
  }

  /** Parsing re-read nodes one by one, when each parses as before. */
  lemma {:induction false} ParseAllReparse<D>(nodes: seq<Tree>, depth: nat, parse: Tree -> Option<D>)
    requires forall x :: x in nodes ==> parse(Reparse(x, depth)) == parse(x)
    ensures ParseAll(ReparseAll(nodes, depth), parse) == ParseAll(nodes, parse)
    decreases |nodes|
  {
    if nodes != [] {
      assert nodes[0] in nodes && forall x :: x in nodes[1..] ==> x in nodes;
      assert ReparseAll(nodes, depth)[1..] == ReparseAll(nodes[1..], depth);
      ParseAllReparse(nodes[1..], depth, parse);
    }
  }

  lemma {:induction false} ParseAllConcat<D>(a: seq<Tree>, b: seq<Tree>, parse: Tree -> Option<D>)
    ensures ParseAll(a + b, parse) == ParseAll(a, parse) + ParseAll(b, parse)
    decreases |a|
  {
    if a == [] {
      assert a + b == b;
    } else {
      assert (a + b)[0] == a[0] && (a + b)[1..] == a[1..] + b;
      ParseAllConcat(a[1..], b, parse);
    }
  }

  // ----- XPath

  /** XPath "/domain/x": the children of the root with one of these names. */
  function TopNodes(doc: Tree, names: set<string>): seq<Tree> {
    if doc.Element? && doc.name == "domain" then Select(doc.kids, names) else []
  }

  function KidsOfAll(nodes: seq<Tree>, names: set<string>): seq<Tree> {
    if nodes == [] then []
    else (if nodes[0].Element? then Select(nodes[0].kids, names) else []) + KidsOfAll(nodes[1..], names)
  }

  lemma TopNodesOf(x: Tree, names: set<string>)
    requires x.Element? && x.name == "domain" && !HasText(x.kids)
    ensures TopNodes(Reparse(x, 0), names) == ReparseAll(Select(x.kids, names), 1)
  {
    SelectReparse(x, 0, names);
  }

  lemma KidsOfOne(x: Tree, names: set<string>)
    requires x.Element?
    ensures KidsOfAll([x], names) == Select(x.kids, names)
  {
    assert [x][1..] == [];
    assert KidsOfAll([x], names) == Select(x.kids, names) + [];
  }
}
