/** What a loop over children is to find, said without the loop: the last or the
    first child of a name, and its attribute or its text. */
module XPath {
  import opened Prelude
  import opened Xml
  import opened Devices

  /** name[last()] */
  function LastNode(kids: seq<Tree>, name: string): Option<Tree> {
    var nodes := Select(kids, {name});
    if nodes == [] then None else Some(nodes[|nodes| - 1])
  }

  /** name[last()]/@key, or what was there before when there is no such child. */
  function LastAttr(kids: seq<Tree>, name: string, key: string, was: Option<string>): Option<string> {
    match LastNode(kids, name) case None => was case Some(x) => GetAttr(x, key)
  }

  /** The text of name[last()]. */
  function LastText(kids: seq<Tree>, name: string, was: Option<string>): Option<string> {
    match LastNode(kids, name) case None => was case Some(x) => Some(Content(x))
  }

  /** The text of name[1]. */
  function FirstText(kids: seq<Tree>, name: string): Option<string> {
    var nodes := Select(kids, {name});
    if nodes == [] then None else Some(Content(nodes[0]))
  }

  /** The first of these nodes to have the attribute, and its value. */
  function FirstSet(nodes: seq<Tree>, key: string): Option<string> {
    if nodes == [] then None
    else if GetAttr(nodes[0], key).Some? then GetAttr(nodes[0], key)
    else FirstSet(nodes[1..], key)
  }

  /** The last child with a property. */
  function LastWith(kids: seq<Tree>, p: Tree -> bool): Option<Tree> {
    if kids == [] then None else OrElse(LastWith(kids[1..], p), if p(kids[0]) then Some(kids[0]) else None)
  }

  /** name[1] */
  function FirstNode(kids: seq<Tree>, name: string): Option<Tree> {
    var nodes := Select(kids, {name});
    if nodes == [] then None else Some(nodes[0])
  }

  /** There is a child of this name. */
  predicate Has(kids: seq<Tree>, name: string) {
    exists i :: 0 <= i < |kids| && kids[i].Element? && kids[i].name == name
  }

  /** Every child of this name has the attribute. */
  predicate EveryHas(kids: seq<Tree>, name: string, key: string) {
    forall i :: 0 <= i < |kids| && Name(kids[i]) == name ==> GetAttr(kids[i], key).Some?
  }

  /** The attributes of all <address> children, one after the other. */
  function Addresses(kids: seq<Tree>): seq<Attr> {
    if kids == [] then []
    else (if Name(kids[0]) == "address" then AddressOf(kids[0]) else []) + Addresses(kids[1..])
  }

  lemma HasIsSelected(kids: seq<Tree>, name: string)
    ensures Has(kids, name) <==> Select(kids, {name}) != []
  {
    if Has(kids, name) {
      var i :| 0 <= i < |kids| && kids[i].Element? && kids[i].name == name;
      SelectFinds(kids, name, i);
    } else {
      assert forall k :: k in kids ==> k.Text? || k.name != name;
      SelectNone(kids, {name});
    }
  }

  lemma {:induction false} SelectFinds(kids: seq<Tree>, name: string, i: nat)
    requires i < |kids| && kids[i].Element? && kids[i].name == name
    ensures kids[i] in Select(kids, {name})
    decreases |kids|
  {
    if i > 0 {
      assert kids[1..][i - 1] == kids[i];
      SelectFinds(kids[1..], name, i - 1);
    }
  }

  lemma SelectNext(kids: seq<Tree>, name: string)
    requires kids != [] && name != "text"
    ensures Select(kids, {name}) == (if Name(kids[0]) == name then [kids[0]] else []) + Select(kids[1..], {name})
  {
  }

  lemma LastNodeNext(kids: seq<Tree>, name: string)
    requires kids != [] && name != "text"
    ensures LastNode(kids, name)
            == OrElse(LastNode(kids[1..], name), if Name(kids[0]) == name then Some(kids[0]) else None)
  {
    var rest := Select(kids[1..], {name});
    SelectNext(kids, name);
    assert rest != [] ==> ([kids[0]] + rest)[|rest|] == rest[|rest| - 1];
  }

  lemma LastAttrNext(kids: seq<Tree>, name: string, key: string, was: Option<string>)
    requires kids != [] && name != "text"
    ensures LastAttr(kids, name, key, was)
            == LastAttr(kids[1..], name, key, if Name(kids[0]) == name then GetAttr(kids[0], key) else was)
  {
    LastNodeNext(kids, name);
  }

  lemma LastTextNext(kids: seq<Tree>, name: string, was: Option<string>)
    requires kids != [] && name != "text"
    ensures LastText(kids, name, was)
            == LastText(kids[1..], name, if Name(kids[0]) == name then Some(Content(kids[0])) else was)
  {
    LastNodeNext(kids, name);
  }

  lemma FirstTextNext(kids: seq<Tree>, name: string, was: Option<string>)
    requires kids != [] && name != "text"
    ensures OrElse(was, FirstText(kids, name))
            == OrElse(if was.None? && Name(kids[0]) == name then Some(Content(kids[0])) else was,
                      FirstText(kids[1..], name))
  {
    SelectNext(kids, name);
  }

  lemma FirstSetNext(kids: seq<Tree>, name: string, key: string, was: Option<string>)
    requires kids != [] && name != "text"
    ensures OrElse(was, FirstSet(Select(kids, {name}), key))
            == OrElse(if Name(kids[0]) == name then OrElse(was, GetAttr(kids[0], key)) else was,
                      FirstSet(Select(kids[1..], {name}), key))
  {
    SelectNext(kids, name);
    if Name(kids[0]) == name {
      assert Select(kids, {name})[1..] == Select(kids[1..], {name});
    }
  }

  lemma EveryHasNext(kids: seq<Tree>, name: string, key: string)
    requires kids != []
    ensures EveryHas(kids, name, key)
            <==> (Name(kids[0]) == name ==> GetAttr(kids[0], key).Some?) && EveryHas(kids[1..], name, key)
  {
    assert forall i :: 0 < i < |kids| ==> kids[i] == kids[1..][i - 1];
    assert forall i :: 0 <= i < |kids[1..]| ==> kids[1..][i] == kids[i + 1];
  }

  lemma HasNext(kids: seq<Tree>, name: string)
    requires kids != [] && name != "text"
    ensures Has(kids, name) <==> Name(kids[0]) == name || Has(kids[1..], name)
  {
    assert forall i :: 0 < i < |kids| ==> kids[i] == kids[1..][i - 1];
    assert forall i :: 0 <= i < |kids[1..]| ==> kids[1..][i] == kids[i + 1];
  }

  /** What is found is there. */
  lemma LastAttrFound(kids: seq<Tree>, name: string, key: string)
    requires name != "text" && EveryHas(kids, name, key)
    ensures LastAttr(kids, name, key, None).Some? <==> Has(kids, name)
  {
    HasIsSelected(kids, name);
    SelectedAreKids(kids, name);
  }

  lemma {:induction false} SelectedAreKids(kids: seq<Tree>, name: string)
    ensures forall k :: k in Select(kids, {name}) ==> k in kids && k.Element? && k.name == name
    decreases |kids|
  {
    if kids != [] {
      SelectedAreKids(kids[1..], name);
    }
  }

  lemma AddressesNext(was: seq<Attr>, kids: seq<Tree>)
    requires kids != []
    ensures was + Addresses(kids)
            == (if Name(kids[0]) == "address" then was + AddressOf(kids[0]) else was) + Addresses(kids[1..])
  {
    if Name(kids[0]) == "address" {
      Associative(was, AddressOf(kids[0]), Addresses(kids[1..]));
    } else {
      assert [] + Addresses(kids[1..]) == Addresses(kids[1..]);
    }
  }

  lemma {:induction false} LastWithFits(kids: seq<Tree>, p: Tree -> bool)
    ensures LastWith(kids, p).Some? ==> p(LastWith(kids, p).value)
    decreases |kids|
  {
    if kids != [] {
      LastWithFits(kids[1..], p);
    }
  }

  lemma FirstNodeNext(kids: seq<Tree>, name: string)
    requires kids != [] && name != "text"
    ensures FirstNode(kids, name) == if Name(kids[0]) == name then Some(kids[0]) else FirstNode(kids[1..], name)
  {
    SelectNext(kids, name);
  }
}
