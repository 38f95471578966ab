/** The circular doubly linked list of libxkutil/list_util.c.

    A list owns a ring of heap nodes.  The ghost sequence `Nodes` names them in
    list order and `Contents` their data; everything the module proves is about
    how the pointers, the 32-bit counter and these two stay in step.  `live`
    marks nodes that have not been given to free(); every dereference in this
    file is of a live node. */
module RingList {
  import opened Prelude

  const COUNT_RANGE: nat := 0x1_0000_0000

  class Node<Data> {
    var prev: Node?<Data>
    var next: Node?<Data>
    var data: Data
    ghost var live: bool
    ghost var pos: int  // index in the owning list's `Nodes`

    constructor (data: Data)
      ensures this.data == data && this.prev == null && this.next == null && live
    {
      this.data := data;
      prev, next := null, null;
      live := true;
    }
  }

  /** `nodes` are allocated, carry their index (so they are distinct) and the
      data `ds`, are linked in this order both ways, and the ends meet. */
  ghost predicate Ring<Data>(nodes: seq<Node<Data>>, ds: seq<Data>)
    reads nodes
  {
    && |ds| == |nodes|
    && (forall i :: 0 <= i < |nodes| ==> nodes[i].live && nodes[i].pos == i && nodes[i].data == ds[i])
    && (forall i {:trigger nodes[i].next} :: 0 <= i < |nodes| - 1 ==> nodes[i].next == nodes[i + 1])
    && (forall i {:trigger nodes[i].prev} :: 0 < i < |nodes| ==> nodes[i].prev == nodes[i - 1])
    && (nodes != [] ==> nodes[|nodes| - 1].next == nodes[0] && nodes[0].prev == nodes[|nodes| - 1])
  }

  class List<Data(==)> {
    var count: nat
    var head: Node?<Data>
    const hasFreeCb: bool
    const cmpCb: Option<(Data, Data) -> int>
    ghost var Nodes: seq<Node<Data>>
    ghost var Contents: seq<Data>

    ghost predicate Valid()
      reads this, Nodes
    {
      && (head == null <==> Nodes == [])
      && (head != null ==> head == Nodes[0])
      && count == |Nodes| % COUNT_RANGE
      && Ring(Nodes, Contents)
    }

    /** list_new */
    constructor (hasFreeCb: bool, cmpCb: Option<(Data, Data) -> int>)
      ensures Valid() && Contents == [] && Nodes == []
      ensures this.hasFreeCb == hasFreeCb && this.cmpCb == cmpCb
    {
      count := 0;
      head := null;
      this.hasFreeCb := hasFreeCb;
      this.cmpCb := cmpCb;
      Nodes, Contents := [], [];
    }
  }

  ghost function Without<T>(s: seq<T>, k: nat): (r: seq<T>)
    requires k < |s|
    ensures |r| == |s| - 1
    ensures forall i :: 0 <= i < k ==> r[i] == s[i]
    ensures forall i :: k <= i < |r| ==> r[i] == s[i + 1]
  {
    s[..k] + s[k + 1..]
  }

  /** Linking a fresh node before the head of a non-empty ring. */
  method LinkAtEnd<Data>(head: Node<Data>, n: Node<Data>, ghost nodes: seq<Node<Data>>, ghost ds: seq<Data>)
    requires Ring(nodes, ds) && nodes != [] && head == nodes[0] && n !in nodes && n.live
    modifies nodes, n
    ensures Ring(nodes + [n], ds + [old(n.data)])
  {
    n.pos := |nodes|;
    n.next := head;
    n.prev := head.prev;
    head.prev.next := n;
    head.prev := n;
  }

  /** The list takes over a ring its head and counter already agree with. */
  ghost method Adopt<Data>(list: List<Data>, nodes: seq<Node<Data>>, ds: seq<Data>)
    requires Ring(nodes, ds)
    requires list.count == |nodes| % COUNT_RANGE
    requires list.head == if nodes == [] then null else nodes[0]
    modifies list`Nodes, list`Contents
    ensures list.Valid() && list.Nodes == nodes && list.Contents == ds
  {
    list.Nodes, list.Contents := nodes, ds;
  }

  /** The pointer part of list_append. */
  method Attach<Data(==)>(list: List<Data>, n: Node<Data>)
    requires list.Valid() && n.live && n !in list.Nodes
    modifies list`head, list.Nodes, n
    ensures Ring(list.Nodes + [n], list.Contents + [old(n.data)])
    ensures list.head == (list.Nodes + [n])[0]
  {
    if list.head == null {
      n.next, n.prev, n.pos := n, n, 0;
      list.head := n;
    } else {
      LinkAtEnd(list.head, n, list.Nodes, list.Contents);
    }
  }

  method CountUp<Data(==)>(list: List<Data>, ghost n: nat)
    requires list.count == n % COUNT_RANGE
    modifies list`count
    ensures list.count == (n + 1) % COUNT_RANGE
  {
    list.count := (list.count + 1) % COUNT_RANGE;
  }

  /** list_append; like every operation but prepend it accepts a missing list. */
  method Append<Data(==)>(list: List?<Data>, data: Data)
    requires list != null ==> list.Valid()
    modifies list, if list == null then [] else list.Nodes
    ensures list != null ==> list.Valid() && list.Contents == old(list.Contents) + [data]
    ensures list != null ==>
              forall i :: 0 <= i < |list.Nodes| ==> list.Nodes[i] in old(list.Nodes) || fresh(list.Nodes[i])
  {
    if list == null {
      return;
    }
    var n := new Node(data);
    Attach(list, n);
    CountUp(list, |list.Nodes|);
    Adopt(list, list.Nodes + [n], list.Contents + [data]);
  }

  /** The same ring, read from its last node. */
  ghost method TurnBack<Data>(nodes: seq<Node<Data>>, ds: seq<Data>)
    requires Ring(nodes, ds) && nodes != []
    modifies nodes
    ensures Ring([nodes[|nodes| - 1]] + nodes[..|nodes| - 1], [ds[|nodes| - 1]] + ds[..|nodes| - 1])
  {
    var k := |nodes| - 1;
    forall i | 0 <= i <= k {
      nodes[i].pos := if i == k then 0 else i + 1;
    }
    var all := [nodes[k]] + nodes[..k];
    assert forall i :: 0 <= i <= k ==> all[i] == if i == 0 then nodes[k] else nodes[i - 1];
  }

  /** list->head = list->head->prev on a non-empty list. */
  method SpinBack<Data(==)>(list: List<Data>)
    requires list.Valid() && list.Nodes != []
    modifies list, list.Nodes
    ensures list.Valid()
    ensures var k := |old(list.Nodes)| - 1;
            && list.Nodes == [old(list.Nodes)[k]] + old(list.Nodes)[..k]
            && list.Contents == [old(list.Contents)[k]] + old(list.Contents)[..k]
  {
    ghost var k := |list.Nodes| - 1;
    list.head := list.head.prev;
    TurnBack(list.Nodes, list.Contents);
    Adopt(list, [list.Nodes[k]] + list.Nodes[..k], [list.Contents[k]] + list.Contents[..k]);
  }

  /** list_prepend: append, then turn the ring back by one. */
  method Prepend<Data(==)>(list: List<Data>, data: Data)
    requires list.Valid()
    modifies list, list.Nodes
    ensures list.Valid()
    ensures list.Contents == [data] + old(list.Contents)
    ensures forall i :: 0 <= i < |list.Nodes| ==> list.Nodes[i] in old(list.Nodes) || fresh(list.Nodes[i])
  {
    Append(list, data);
    SpinBack(list);
  }

  /** node->prev->next = node->next; node->next->prev = node->prev.  Exactly two
      pointers change: the predecessor's next and the successor's prev. */
  method Bridge<Data>(node: Node<Data>, ghost nodes: seq<Node<Data>>, ghost ds: seq<Data>, ghost k: nat)
    requires Ring(nodes, ds) && |nodes| > 1 && k < |nodes| && node == nodes[k]
    modifies nodes
    ensures forall i :: 0 <= i < |nodes| ==> nodes[i].live && nodes[i].pos == i && nodes[i].data == ds[i]
    ensures forall i {:trigger nodes[i].next} :: 0 <= i < |nodes| && i != k - 1 && (k == 0 ==> i != |nodes| - 1) ==>
              nodes[i].next == old(nodes[i].next)
    ensures forall i {:trigger nodes[i].prev} :: 0 <= i < |nodes| && i != k + 1 && (k == |nodes| - 1 ==> i != 0) ==>
              nodes[i].prev == old(nodes[i].prev)
    ensures (if k == 0 then nodes[|nodes| - 1] else nodes[k - 1]).next == old(node.next)
    ensures (if k == |nodes| - 1 then nodes[0] else nodes[k + 1]).prev == old(node.prev)
  {
    node.prev.next := node.next;
    node.next.prev := node.prev;
  }

  /** Closing the gap that node `k` leaves in the numbering. */
  ghost method Renumber<Data>(nodes: seq<Node<Data>>, ds: seq<Data>, k: nat)
    requires k < |nodes| == |ds|
    requires forall i :: 0 <= i < |nodes| ==> nodes[i].live && nodes[i].pos == i && nodes[i].data == ds[i]
    modifies nodes
    ensures forall i :: 0 <= i < |nodes| ==>
              nodes[i].live && nodes[i].pos == (if i <= k then i else i - 1) && nodes[i].data == ds[i]
    ensures forall i {:trigger nodes[i].next} :: 0 <= i < |nodes| ==> nodes[i].next == old(nodes[i].next)
    ensures forall i {:trigger nodes[i].prev} :: 0 <= i < |nodes| ==> nodes[i].prev == old(nodes[i].prev)
  {
    forall i | k < i < |nodes| {
      nodes[i].pos := i - 1;
    }
  }

  lemma NextsMended<Data>(nodes: seq<Node<Data>>, k: nat)
    requires |nodes| > 1 && k < |nodes|
    requires forall i {:trigger nodes[i].next} :: 0 <= i < |nodes| - 1 && i != k && i != k - 1 ==>
               nodes[i].next == nodes[i + 1]
    requires 0 < k < |nodes| - 1 ==> nodes[k - 1].next == nodes[k + 1]
    requires nodes[if k == |nodes| - 1 then k - 1 else |nodes| - 1].next == nodes[if k == 0 then 1 else 0]
    ensures var rest := Without(nodes, k);
            && (forall i {:trigger rest[i].next} :: 0 <= i < |rest| - 1 ==> rest[i].next == rest[i + 1])
            && rest[|rest| - 1].next == rest[0]
  {
    var rest := Without(nodes, k);
    forall i | 0 <= i < |rest| - 1 ensures rest[i].next == rest[i + 1] {
      assert rest[i] == if i < k then nodes[i] else nodes[i + 1];
    }
  }

  lemma PrevsMended<Data>(nodes: seq<Node<Data>>, k: nat)
    requires |nodes| > 1 && k < |nodes|
    requires forall i {:trigger nodes[i].prev} :: 0 < i < |nodes| && i != k && i != k + 1 ==>
               nodes[i].prev == nodes[i - 1]
    requires 0 < k < |nodes| - 1 ==> nodes[k + 1].prev == nodes[k - 1]
    requires nodes[if k == 0 then 1 else 0].prev == nodes[if k == |nodes| - 1 then k - 1 else |nodes| - 1]
    ensures var rest := Without(nodes, k);
            && (forall i {:trigger rest[i].prev} :: 0 < i < |rest| ==> rest[i].prev == rest[i - 1])
            && rest[0].prev == rest[|rest| - 1]
  {
    var rest := Without(nodes, k);
    forall i | 0 < i < |rest| ensures rest[i].prev == rest[i - 1] {
      assert rest[i] == if i < k then nodes[i] else nodes[i + 1];
    }
  }

  /** Taking one node out of a ring of at least two. */
  method Unlink<Data>(node: Node<Data>, ghost nodes: seq<Node<Data>>, ghost ds: seq<Data>, ghost k: nat)
    requires Ring(nodes, ds) && |nodes| > 1 && k < |nodes| && node == nodes[k]
    modifies nodes
    ensures Ring(Without(nodes, k), Without(ds, k))
    ensures node !in Without(nodes, k) && node.data == ds[k]
  {
    assert node.prev == if k == 0 then nodes[|nodes| - 1] else nodes[k - 1];
    assert node.next == if k == |nodes| - 1 then nodes[0] else nodes[k + 1];
    Bridge(node, nodes, ds, k);
    Renumber(nodes, ds, k);
    NextsMended(nodes, k);
    PrevsMended(nodes, k);
  }

  /** The pointer part of list_remove_node. */
  method Detach<Data(==)>(list: List<Data>, node: Node<Data>, ghost k: nat)
    requires list.Valid() && k < |list.Nodes| && node == list.Nodes[k]
    modifies list`head, list.Nodes
    ensures Ring(Without(list.Nodes, k), Without(list.Contents, k))
    ensures node !in Without(list.Nodes, k) && node.data == list.Contents[k]
    ensures list.head == var rest := Without(list.Nodes, k); if rest == [] then null else rest[0]
  {
    if node.next == node {
      list.head := null;
    } else {
      if node == list.head {
        list.head := node.next;
      }
      Unlink(node, list.Nodes, list.Contents, k);
    }
  }

  method CountDown<Data(==)>(list: List<Data>, ghost n: nat)
    requires n > 0 && list.count == n % COUNT_RANGE
    modifies list`count
    ensures list.count == (n - 1) % COUNT_RANGE
  {
    list.count := (list.count + COUNT_RANGE - 1) % COUNT_RANGE;
  }

  /** list_remove_node on a node of the list, all but the freeing. */
  method Drop<Data(==)>(list: List<Data>, node: Node<Data>, ghost k: nat)
    requires list.Valid() && k < |list.Nodes| && node == list.Nodes[k]
    modifies list, list.Nodes
    ensures list.Valid()
    ensures list.Nodes == Without(old(list.Nodes), k) && node !in list.Nodes
    ensures list.Contents == Without(old(list.Contents), k) && node.data == old(list.Contents)[k]
  {
    Detach(list, node, k);
    CountDown(list, |list.Nodes|);
    Adopt(list, Without(list.Nodes, k), Without(list.Contents, k));
  }

  lemma WithoutMultiset<T>(s: seq<T>, k: nat)
    requires k < |s|
    ensures multiset(Without(s, k)) + multiset([s[k]]) == multiset(s)
  {
    assert s == s[..k] + ([s[k]] + s[k + 1..]);
  }

  /** list_remove_node on a node of the list: take it out, then free it. */
  method DropAndFree<Data(==)>(list: List<Data>, node: Node<Data>, ghost k: nat) returns (freed: seq<Data>)
    requires list.Valid() && k < |list.Nodes| && node == list.Nodes[k]
    modifies list, list.Nodes
    ensures list.Valid() && !node.live
    ensures list.Nodes == Without(old(list.Nodes), k) && list.Contents == Without(old(list.Contents), k)
    ensures freed == if list.hasFreeCb then [old(list.Contents)[k]] else []
  {
    Drop(list, node, k);
    freed := if list.hasFreeCb then [node.data] else [];
    node.live := false;
  }

  /** list_remove_node.  `freed` lists the arguments given to the free callback. */
  method RemoveNode<Data(==)>(list: List?<Data>, node: Node?<Data>) returns (freed: seq<Data>)
    requires list != null ==> list.Valid() && (node != null ==> node in list.Nodes)
    modifies list, if list == null then [] else list.Nodes
    ensures list == null || node == null ==> freed == []
    ensures list != null ==> list.Valid() && forall i :: 0 <= i < |list.Nodes| ==> list.Nodes[i] in old(list.Nodes)
    ensures list != null && node == null ==> list.Contents == old(list.Contents)
    ensures list != null && node != null ==>
              && 0 <= old(node.pos) < |old(list.Contents)|
              && list.Contents == Without(old(list.Contents), old(node.pos))
              && freed == (if list.hasFreeCb then [old(list.Contents)[old(node.pos)]] else [])
              && !node.live
    ensures list != null && list.hasFreeCb ==>
              multiset(list.Contents) + multiset(freed) == multiset(old(list.Contents))
  {
    freed := [];
    if list == null || list.head == null || node == null {
      return;
    }
    WithoutMultiset(list.Contents, node.pos);
    freed := DropAndFree(list, node, node.pos);
  }

  /** The index of the first element the comparison callback calls equal, or
      the length when there is none. */
  ghost function FirstMatch<Data>(cmp: (Data, Data) -> int, s: seq<Data>, key: Data): (k: nat)
    ensures k <= |s|
    ensures forall i :: 0 <= i < k ==> cmp(s[i], key) != 0
    ensures k < |s| ==> cmp(s[k], key) == 0
  {
    if s == [] || cmp(s[0], key) == 0 then 0 else 1 + FirstMatch(cmp, s[1..], key)
  }

  /** list_find_node: the do-while walk from the head. */
  method FindNode<Data(==)>(list: List?<Data>, key: Data) returns (n: Node?<Data>)
    requires list != null ==> list.Valid()
    ensures n != null ==>
              && list != null && list.cmpCb.Some?
              && n in list.Nodes && n.live
              && n.pos == FirstMatch(list.cmpCb.value, list.Contents, key) < |list.Contents|
    ensures n == null && list != null && list.cmpCb.Some? ==>
              FirstMatch(list.cmpCb.value, list.Contents, key) == |list.Contents|
  {
    if list == null || list.head == null || list.cmpCb.None? {
      return null;
    }
    n := list.head;
    ghost var k := 0;
    while true
      invariant 0 <= k < |list.Nodes| && n == list.Nodes[k]
      invariant forall i :: 0 <= i < k ==> list.cmpCb.value(list.Contents[i], key) != 0
      decreases |list.Nodes| - k
    {
      if list.cmpCb.value(n.data, key) == 0 {
        return n;
      }
      n := n.next;
      if n == list.head {
        break;
      }
      k := k + 1;
    }
    n := null;
  }

  /** list_remove: drop the first match, if any. */
  method Remove<Data(==)>(list: List?<Data>, key: Data) returns (freed: seq<Data>)
    requires list != null ==> list.Valid()
    modifies list, if list == null then [] else list.Nodes
    ensures list == null ==> freed == []
    ensures list != null ==> list.Valid() && forall i :: 0 <= i < |list.Nodes| ==> list.Nodes[i] in old(list.Nodes)
    ensures list != null ==> list.Contents == RemoveSpec(list.cmpCb, old(list.Contents), key)
    ensures list != null && list.hasFreeCb ==>
              multiset(list.Contents) + multiset(freed) == multiset(old(list.Contents))
  {
    var n := FindNode(list, key);
    freed := RemoveNode(list, n);
  }

  ghost function RemoveSpec<Data>(cmp: Option<(Data, Data) -> int>, s: seq<Data>, key: Data): (r: seq<Data>)
  {
    if cmp.None? then s
    else
      var k := FirstMatch(cmp.value, s, key);
      if k == |s| then s else Without(s, k)
  }

  /** Removal takes the first element the comparison calls equal, and none without a
      comparison or a match. */
  lemma {:induction false} RemovesFirst<Data>(cmp: (Data, Data) -> int, s: seq<Data>, key: Data, i: nat)
    requires forall j :: 0 <= j < i && j < |s| ==> cmp(s[j], key) != 0
    ensures i < |s| && cmp(s[i], key) == 0 ==> RemoveSpec(Some(cmp), s, key) == s[..i] + s[i + 1..]
    ensures |s| <= i ==> RemoveSpec(Some(cmp), s, key) == s
    ensures RemoveSpec(None, s, key) == s
  {
    var k := FirstMatch(cmp, s, key);
    if i < |s| && cmp(s[i], key) == 0 {
      assert k == i;
    }
  }

  /** What list_foreach does to the state its callback owns: the elements in
      order, stopping after the first that answers false. */
  ghost function ForeachSpec<Data, S>(cb: (Data, S) -> (bool, S), ds: seq<Data>, s: S): (bool, S)
    decreases |ds|
  {
    if ds == [] then (true, s)
    else
      var (go, s') := cb(ds[0], s);
      if go then ForeachSpec(cb, ds[1..], s') else (false, s')
  }

  /** list_foreach */
  method Foreach<Data(==), S>(list: List?<Data>, cb: (Data, S) -> (bool, S), user: S) returns (ok: bool, s: S)
    requires list != null ==> list.Valid()
    ensures list == null ==> ok && s == user
    ensures list != null ==> (ok, s) == ForeachSpec(cb, list.Contents, user)
  {
    if list == null || list.head == null {
      return true, user;
    }
    var node := list.head;
    s := user;
    ghost var k := 0;
    while true
      invariant 0 <= k < |list.Nodes| && node == list.Nodes[k]
      invariant ForeachSpec(cb, list.Contents, user) == ForeachSpec(cb, list.Contents[k..], s)
      decreases |list.Nodes| - k
    {
      var (go, s') := cb(node.data, s);
      s := s';
      if !go {
        return false, s;
      }
      assert list.Contents[k..][1..] == list.Contents[k + 1..];
      node := node.next;
      if node == list.head {
        break;
      }
      k := k + 1;
    }
    return true, s;
  }

  /** A callback that answers with `p` and keeps a log of what it was shown. */
  ghost function Recorder<Data>(p: Data -> bool): (Data, seq<Data>) -> (bool, seq<Data>) {
    (d, seen) => (p(d), seen + [d])
  }

  /** The walk visits a prefix in order and stops exactly at the first false. */
  lemma {:induction false} ForeachStopsAtFirstFalse<Data>(p: Data -> bool, ds: seq<Data>, log: seq<Data>, k: nat)
    requires k <= |ds|
    requires forall i :: 0 <= i < k ==> p(ds[i])
    requires k < |ds| ==> !p(ds[k])
    ensures ForeachSpec(Recorder(p), ds, log) == (k == |ds|, log + if k < |ds| then ds[..k + 1] else ds)
    decreases |ds|
  {
    if ds == [] {
      assert log + [] == log;
    } else if k == 0 {
      assert ds[..1] == [ds[0]];
    } else {
      ForeachStopsAtFirstFalse(p, ds[1..], log + [ds[0]], k - 1);
      assert log + [ds[0]] + ds[1..] == log + ds;
      assert k < |ds| ==> log + [ds[0]] + ds[1..][..k] == log + ds[..k + 1];
    }
  }

  /** list_free.  Each node is read before it is freed and never after, although
      the loop keeps comparing with the stale head pointer; `nodes` and `data`
      log the calls of free() and of the callback, `header` whether the list itself
      is freed, which an empty one is not. */
  method Free<Data(==)>(list: List?<Data>) returns (ghost nodes: seq<Node<Data>>, data: seq<Data>, header: bool)
    requires list != null ==> list.Valid()
    modifies (if list == null then [] else list.Nodes)`live
    ensures header <==> list != null && list.Contents != []
    ensures list != null ==> nodes == list.Nodes && data == (if list.hasFreeCb then list.Contents else [])
    ensures forall n :: n in nodes ==> !n.live
  {
    nodes, data, header := [], [], false;
    if list == null || list.head == null {
      return;
    }
    var n := list.head;
    ghost var k := 0;
    while true
      invariant 0 <= k < |list.Nodes| && n == list.Nodes[k]
      invariant nodes == list.Nodes[..k]
      invariant data == if list.hasFreeCb then list.Contents[..k] else []
      invariant forall i :: 0 <= i < |list.Nodes| ==> list.Nodes[i].live == (k <= i)
      decreases |list.Nodes| - k
    {
      assert n.live;
      if list.hasFreeCb {
        data := data + [n.data];
      }
      var next := n.next;
      n.live := false;
      nodes := nodes + [n];
      n := next;
      if n == list.head {
        break;
      }
      k := k + 1;
    }
    header := true;
  }

  /** Following `next` from a node, as a client of list_node_next_node does. */
  ghost function Walk<Data>(n: Node<Data>, steps: nat): Node?<Data>
    reads *
  {
    if steps == 0 then n
    else
      var m := Walk(n, steps - 1);
      if m == null then null else m.next
  }

  lemma {:induction false} WalkFollowsNodes<Data>(list: List<Data>, k: nat)
    requires list.Valid() && list.head != null && k <= |list.Nodes|
    ensures Walk(list.head, k) == if k == |list.Nodes| then list.head else list.Nodes[k]
  {
    if k > 0 {
      WalkFollowsNodes(list, k - 1);
    }
  }

  /** One turn around a valid ring: count distinct live nodes carrying exactly
      the contents in order, prev undoing next at each of them, back at the head. */
  lemma OneTurn<Data>(list: List<Data>)
    requires list.Valid() && list.head != null
    ensures Walk(list.head, |list.Contents|) == list.head
    ensures list.count == |list.Contents| % 0x1_0000_0000
    ensures forall k {:trigger Walk(list.head, k)} :: 0 <= k < |list.Contents| ==>
              var n := Walk(list.head, k);
              n != null && n.live && n.data == list.Contents[k]
              && n.next != null && n.next.prev == n && n.prev != null && n.prev.next == n
    ensures forall j, k {:trigger Walk(list.head, j), Walk(list.head, k)} ::
              0 <= j < k < |list.Contents| ==> Walk(list.head, j) != Walk(list.head, k)
  {
    forall k: nat | k <= |list.Nodes| {
      WalkFollowsNodes(list, k);
    }
  }

  /** What a client can ask of a list. */
  datatype Op<Data> =
    | DoAppend(data: Data)
    | DoPrepend(data: Data)
    | DoRemove(key: Data)
    | DoRemoveAt(index: nat)

  /** The same request on a plain sequence. */
  ghost function Apply<Data>(cmp: Option<(Data, Data) -> int>, op: Op<Data>, s: seq<Data>): seq<Data> {
    match op
    case DoAppend(d) => s + [d]
    case DoPrepend(d) => [d] + s
    case DoRemove(key) => RemoveSpec(cmp, s, key)
    case DoRemoveAt(i) => if i < |s| then Without(s, i) else s
  }

  ghost function ApplyAll<Data>(cmp: Option<(Data, Data) -> int>, ops: seq<Op<Data>>): seq<Data> {
    if ops == [] then []
    else Apply(cmp, ops[|ops| - 1], ApplyAll(cmp, ops[..|ops| - 1]))
  }

  /** Everything ever handed to the list. */
  ghost function Added<Data>(ops: seq<Op<Data>>): multiset<Data> {
    if ops == [] then multiset{} else Added(ops[..|ops| - 1]) + Gain(ops[|ops| - 1])
  }

  ghost function Gain<Data>(op: Op<Data>): multiset<Data> {
    if op.DoAppend? || op.DoPrepend? then multiset{op.data} else multiset{}
  }

  /** The node `index` steps after the head, or NULL past the last one. */
  method NodeAt<Data(==)>(list: List<Data>, index: nat) returns (n: Node?<Data>)
    requires list.Valid()
    ensures n == if index < |list.Nodes| then list.Nodes[index] else null
  {
    n := list.head;
    if n == null {
      return;
    }
    var i := 0;
    while i < index
      invariant 0 <= i <= index && i < |list.Nodes| && n == list.Nodes[i]
    {
      n := n.next;
      if n == list.head {
        return null;
      }
      i := i + 1;
    }
  }

  method RemoveAt<Data(==)>(list: List<Data>, index: nat) returns (freed: seq<Data>)
    requires list.Valid()
    modifies list, list.Nodes
    ensures list.Valid()
    ensures list.Contents == var s := old(list.Contents); if index < |s| then Without(s, index) else s
    ensures forall i :: 0 <= i < |list.Nodes| ==> list.Nodes[i] in old(list.Nodes)
    ensures list.hasFreeCb ==> multiset(list.Contents) + multiset(freed) == multiset(old(list.Contents))
  {
    var n := NodeAt(list, index);
    freed := RemoveNode(list, n);
  }

  method Step<Data(==)>(list: List<Data>, op: Op<Data>) returns (freed: seq<Data>)
    requires list.Valid()
    modifies list, list.Nodes
    ensures list.Valid()
    ensures list.Contents == Apply(list.cmpCb, op, old(list.Contents))
    ensures forall i :: 0 <= i < |list.Nodes| ==> list.Nodes[i] in old(list.Nodes) || fresh(list.Nodes[i])
    ensures list.hasFreeCb ==>
              multiset(list.Contents) + multiset(freed) == multiset(old(list.Contents)) + Gain(op)
  {
    freed := [];
    match op {
      case DoAppend(d) => Append(list, d);
      case DoPrepend(d) => Prepend(list, d);
      case DoRemove(key) => freed := Remove(list, key);
      case DoRemoveAt(i) => freed := RemoveAt(list, i);
    }
  }

  lemma Balance<Data>(before: seq<Data>, after: seq<Data>, freed: seq<Data>, now: seq<Data>, gain: multiset<Data>)
    requires multiset(after) + multiset(now) == multiset(before) + gain
    ensures multiset(after) + multiset(freed + now) == multiset(before) + multiset(freed) + gain
  {
    var a, n, b, f := multiset(after), multiset(now), multiset(before), multiset(freed);
    assert multiset(freed + now) == f + n;
    assert a + (f + n) == (a + n) + f;
    assert (b + gain) + f == b + f + gain;
  }

  /** Any run of requests from list_new: the ring stays well formed, holds what
      the same run leaves in a plain sequence, and with a free callback every
      element ever added is either still in the list or was freed exactly once. */
  method Run<Data(==)>(ops: seq<Op<Data>>, hasFreeCb: bool, cmp: Option<(Data, Data) -> int>)
    returns (list: List<Data>, freed: seq<Data>)
    ensures list.Valid() && fresh(list)
    ensures list.Contents == ApplyAll(cmp, ops)
    ensures hasFreeCb ==> multiset(list.Contents) + multiset(freed) == Added(ops)
  {
    list := new List(hasFreeCb, cmp);
    freed := [];
    for i := 0 to |ops|
      invariant list.Valid() && fresh(list) && fresh(list.Nodes)
      invariant list.hasFreeCb == hasFreeCb && list.cmpCb == cmp
      invariant list.Contents == ApplyAll(cmp, ops[..i])
      invariant hasFreeCb ==> Added(ops[..i]) == multiset(list.Contents) + multiset(freed)
    {
      assert ops[..i + 1][..i] == ops[..i];
      assert Added(ops[..i + 1]) == Added(ops[..i]) + Gain(ops[i]);
      assert ApplyAll(cmp, ops[..i + 1]) == Apply(cmp, ops[i], ApplyAll(cmp, ops[..i]));
      ghost var before := list.Contents;
      var now := Step(list, ops[i]);
      if hasFreeCb {
        Balance(before, list.Contents, freed, now, Gain(ops[i]));
      }
      freed := freed + now;
    }
    assert ops[..|ops|] == ops;
  }
}
