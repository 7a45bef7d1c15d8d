/**
 The doubly linked list of utils_list.c and its prefetching iterator. A list carries, as
 ghost state, the sequence of its nodes; validity ties every pointer to that sequence.
 */
module LinkedList {

  class Node<V> {
    var prev: Node?<V>
    var next: Node?<V>
    var val: V

    constructor (v: V)
      ensures prev == null && next == null && val == v
    {
      prev, next, val := null, null, v;
    }
  }

  datatype Direction = FromHead | FromTail

  datatype Matcher<!V> = Identity | Match(f: (V, V) -> bool)

  /** The node at position i, or null outside the sequence. */
  ghost function At<V>(nodes: seq<Node<V>>, i: int): Node?<V> {
    if 0 <= i < |nodes| then nodes[i] else null
  }

  /** The links of node i agree with its neighbours in the sequence. */
  ghost predicate Linked<V>(nodes: seq<Node<V>>, i: nat)
    requires i < |nodes|
    reads nodes[i]
  {
    nodes[i].next == At(nodes, i + 1) && nodes[i].prev == At(nodes, i - 1)
  }

  ghost predicate Distinct<V>(nodes: seq<Node<V>>) {
    forall i, j :: 0 <= i < j < |nodes| ==> nodes[i] != nodes[j]
  }

  class List<V(==)> {
    var head: Node?<V>
    var tail: Node?<V>
    var len: nat
    var matcher: Matcher<V>
    ghost var nodes: seq<Node<V>>

    ghost predicate Valid()
      reads this, nodes
    {
      && len == |nodes| && Distinct(nodes)
      && head == At(nodes, 0) && tail == At(nodes, |nodes| - 1)
      && forall i :: 0 <= i < |nodes| ==> Linked(nodes, i)
    }

    constructor New()
      ensures Valid() && nodes == [] && matcher == Identity
    {
      head, tail, len, matcher, nodes := null, null, 0, Identity, [];
    }

    method RPush(node: Node?<V>) returns (r: Node?<V>)
      requires Valid() && (node != null ==> node !in nodes)
      modifies this, nodes, node
      ensures Valid() && r == node && matcher == old(matcher)
      ensures nodes == if node == null then old(nodes) else old(nodes) + [node]
      ensures forall n :: n in nodes ==> n.val == old(n.val)
    {
      if node == null { return null; }
      if len != 0 {
        node.prev := tail;
        node.next := null;
        tail.next := node;
        tail := node;
      } else {
        head, tail := node, node;
        node.prev, node.next := null, null;
      }
      nodes := nodes + [node];
      len := len + 1;
      r := node;
      forall i | 0 <= i < |nodes| ensures Linked(nodes, i) {
        if i < |nodes| - 1 { assert old(Linked(nodes, i)); }
      }
    }

    method LPush(node: Node?<V>) returns (r: Node?<V>)
      requires Valid() && (node != null ==> node !in nodes)
      modifies this, nodes, node
      ensures Valid() && r == node && matcher == old(matcher)
      ensures nodes == if node == null then old(nodes) else [node] + old(nodes)
      ensures forall n :: n in nodes ==> n.val == old(n.val)
    {
      if node == null { return null; }
      if len != 0 {
        node.next := head;
        node.prev := null;
        head.prev := node;
        head := node;
      } else {
        head, tail := node, node;
        node.prev, node.next := null, null;
      }
      nodes := [node] + nodes;
      len := len + 1;
      r := node;
      forall i | 0 <= i < |nodes| ensures Linked(nodes, i) {
        if i > 0 { assert old(Linked(nodes, i - 1)); }
      }
    }

    method RPop() returns (r: Node?<V>)
      requires Valid()
      modifies this, nodes
      ensures Valid() && matcher == old(matcher)
      ensures old(nodes) == [] ==> r == null && nodes == []
      ensures old(nodes) != [] ==>
        r == old(nodes)[|old(nodes)| - 1] && r.prev == null && r.next == null && nodes == old(nodes)[..|old(nodes)| - 1]
      ensures forall n :: n in old(nodes) ==> n.val == old(n.val)
    {
      if len == 0 { return null; }
      r := tail;
      assert Linked(nodes, |nodes| - 1);
      len := len - 1;
      nodes := nodes[..|nodes| - 1];
      if len != 0 {
        tail := r.prev;
        tail.next := null;
      } else {
        tail, head := null, null;
      }
      r.next, r.prev := null, null;
      forall i | 0 <= i < |nodes| ensures Linked(nodes, i) { assert old(Linked(nodes, i)); }
    }

    method LPop() returns (r: Node?<V>)
      requires Valid()
      modifies this, nodes
      ensures Valid() && matcher == old(matcher)
      ensures old(nodes) == [] ==> r == null && nodes == []
      ensures old(nodes) != [] ==>
        r == old(nodes)[0] && r.prev == null && r.next == null && nodes == old(nodes)[1..]
      ensures forall n :: n in old(nodes) ==> n.val == old(n.val)
    {
      if len == 0 { return null; }
      r := head;
      assert Linked(nodes, 0);
      len := len - 1;
      nodes := nodes[1..];
      if len != 0 {
        head := r.next;
        head.prev := null;
      } else {
        head, tail := null, null;
      }
      r.next, r.prev := null, null;
      forall i | 0 <= i < |nodes| ensures Linked(nodes, i) { assert old(Linked(nodes, i + 1)); }
    }

    /** Unlinks a node of the list; the caller may release it. */
    method Remove(node: Node<V>, ghost k: nat)
      requires Valid() && k < |nodes| && nodes[k] == node
      modifies this, nodes
      ensures Valid() && matcher == old(matcher)
      ensures nodes == old(nodes)[..k] + old(nodes)[k + 1..]
      ensures forall n :: n in old(nodes) ==> n.val == old(n.val)
    {
      assert Linked(nodes, k);
      ghost var was := nodes;
      if node.prev != null { node.prev.next := node.next; } else { head := node.next; }
      if node.next != null { node.next.prev := node.prev; } else { tail := node.prev; }
      nodes := nodes[..k] + nodes[k + 1..];
      if len != 0 { len := len - 1; }
      forall i | 0 <= i < |nodes| ensures Linked(nodes, i) {
        var j := if i < k then i else i + 1;
        Without(was, k, i);
        assert old(Linked(nodes, j));
        assert was[j] != node;
        assert j != k + 1 ==> was[j].prev == At(was, j - 1);
        assert j != k - 1 ==> was[j].next == At(was, j + 1);
      }
    }
  }

  /** The neighbours after a node was taken out. */
  lemma Without<V>(was: seq<Node<V>>, k: nat, i: nat)
    requires k < |was| && i < |was| - 1
    ensures var (now, j) := (was[..k] + was[k + 1..], if i < k then i else i + 1);
            && At(now, i) == was[j]
            && At(now, i + 1) == (if j == k - 1 then At(was, k + 1) else At(was, j + 1))
            && At(now, i - 1) == (if j == k + 1 then At(was, k - 1) else At(was, j - 1))
  {
  }

  /** The position that an iterator reaches after k steps. */
  function Position(d: Direction, n: nat, k: int): int { if d.FromHead? then k else n - 1 - k }

  class Iterator<V> {
    var next: Node?<V>
    const direction: Direction

    constructor (node: Node?<V>, d: Direction)
      ensures next == node && direction == d
    {
      next, direction := node, d;
    }

    /** Returns the current node and fetches its neighbour before the caller can touch it. */
    method Next() returns (curr: Node?<V>)
      modifies this
      ensures curr == old(next)
      ensures next == if curr == null then null else if direction.FromHead? then curr.next else curr.prev
    {
      curr := next;
      if curr != null { next := if direction.FromHead? then curr.next else curr.prev; }
    }
  }

  /** list_iterator_new: starts at either end. */
  method IteratorOf<V>(list: List<V>, d: Direction) returns (it: Iterator<V>)
    requires list.Valid()
    ensures fresh(it) && it.direction == d && it.next == At(list.nodes, Position(d, |list.nodes|, 0))
  {
    it := new Iterator(if d.FromHead? then list.head else list.tail, d);
  }

  lemma NeighbourIs<V>(list: List<V>, d: Direction, k: nat)
    requires list.Valid() && k < |list.nodes|
    ensures var node := list.nodes[Position(d, |list.nodes|, k)];
            (if d.FromHead? then node.next else node.prev) == At(list.nodes, Position(d, |list.nodes|, k + 1))
  {
    assert Linked(list.nodes, Position(d, |list.nodes|, k));
  }

  /** list_at: counts from the head for an index of zero or more, from the tail for a negative one. */
  method ListAt<V>(list: List<V>, index: int) returns (r: Node?<V>)
    requires list.Valid()
    ensures r == At(list.nodes, if index >= 0 then index else |list.nodes| + index)
  {
    var d := if index < 0 then FromTail else FromHead;
    var i := if index < 0 then -index - 1 else index;
    if i >= list.len { return null; }
    var it := IteratorOf(list, d);
    NeighbourIs(list, d, 0);
    r := it.Next();
    ghost var k := 0;
    while i > 0
      invariant 0 <= i && k + i == (if index < 0 then -index - 1 else index) && 0 <= k < |list.nodes|
      invariant r == At(list.nodes, Position(d, |list.nodes|, k))
      invariant it.direction == d && it.next == At(list.nodes, Position(d, |list.nodes|, k + 1))
    {
      NeighbourIs(list, d, k + 1);
      r := it.Next();
      i, k := i - 1, k + 1;
    }
  }

  predicate Matches<V(==)>(m: Matcher<V>, wanted: V, v: V) {
    match m
    case Identity => wanted == v
    case Match(f) => f(wanted, v)
  }

  /** list_find: the first node from the head whose value matches, or null. */
  method Find<V(==)>(list: List<V>, wanted: V) returns (r: Node?<V>)
    requires list.Valid()
    ensures r == null ==> forall i :: 0 <= i < |list.nodes| ==> !Matches(list.matcher, wanted, list.nodes[i].val)
    ensures r != null ==> exists k :: 0 <= k < |list.nodes| && list.nodes[k] == r && Matches(list.matcher, wanted, r.val)
                                   && forall i :: 0 <= i < k ==> !Matches(list.matcher, wanted, list.nodes[i].val)
    ensures r != null ==> if list.matcher.Match? then list.matcher.f(wanted, r.val) else wanted == r.val
  {
    var it := IteratorOf(list, FromHead);
    ghost var k := 0;
    if list.nodes != [] { NeighbourIs(list, FromHead, 0); }
    r := it.Next();
    while r != null
      invariant 0 <= k <= |list.nodes| && r == At(list.nodes, k)
      invariant it.direction == FromHead && it.next == At(list.nodes, k + 1)
      invariant forall i :: 0 <= i < k ==> !Matches(list.matcher, wanted, list.nodes[i].val)
      decreases |list.nodes| - k
    {
      if Matches(list.matcher, wanted, r.val) { return; }
      if k + 1 < |list.nodes| { NeighbourIs(list, FromHead, k + 1); }
      r := it.Next();
      k := k + 1;
    }
  }

  // ---------------------------------------------------------------- removing while iterating

  /** The nodes that are not dropped, in order. */
  ghost function Kept<V>(nodes: seq<Node<V>>, drop: set<Node<V>>): seq<Node<V>> {
    if nodes == [] then []
    else Kept(nodes[..|nodes| - 1], drop) + if nodes[|nodes| - 1] in drop then [] else [nodes[|nodes| - 1]]
  }

  lemma {:induction false} KeptAppend<V>(a: seq<Node<V>>, b: seq<Node<V>>, drop: set<Node<V>>)
    ensures Kept(a + b, drop) == Kept(a, drop) + Kept(b, drop)
  {
    if b == [] {
      assert a + b == a;
    } else {
      var (front, last) := (b[..|b| - 1], b[|b| - 1]);
      assert (a + b)[..|a + b| - 1] == a + front && (a + b)[|a + b| - 1] == last;
      KeptAppend(a, front, drop);
    }
  }

  /** Exactly the nodes that are not dropped are kept. */
  lemma {:induction false} KeptMembers<V>(nodes: seq<Node<V>>, drop: set<Node<V>>, n: Node<V>)
    ensures n in Kept(nodes, drop) <==> n in nodes && n !in drop
  {
    if nodes != [] { KeptMembers(nodes[..|nodes| - 1], drop, n); }
  }

  /** The nodes in the order of an iteration. */
  ghost function Ordered<V>(d: Direction, nodes: seq<Node<V>>): seq<Node<V>> {
    seq(|nodes|, k requires 0 <= k < |nodes| => nodes[Position(d, |nodes|, k)])
  }

  /** From the head the nodes as they are, from the tail back to front. */
  lemma OrderedNodes<V>(nodes: seq<Node<V>>, k: nat)
    requires k < |nodes|
    ensures Ordered(FromHead, nodes)[k] == nodes[k] && Ordered(FromTail, nodes)[k] == nodes[|nodes| - 1 - k]
  {
  }

  /** The list after k nodes were visited: the kept ones of those, and the rest untouched. */
  ghost function Swept<V>(d: Direction, all: seq<Node<V>>, drop: set<Node<V>>, k: nat): seq<Node<V>>
    requires k <= |all|
  {
    if d.FromHead? then Kept(all[..k], drop) + all[k..] else all[..|all| - k] + Kept(all[|all| - k..], drop)
  }

  /** Where the next node stands in the partly swept list. */
  ghost function Place<V>(d: Direction, all: seq<Node<V>>, drop: set<Node<V>>, k: nat): int
    requires k <= |all|
  {
    if d.FromHead? then |Kept(all[..k], drop)| else |all| - k - 1
  }

  lemma SweptStart<V>(d: Direction, all: seq<Node<V>>, drop: set<Node<V>>)
    ensures Swept(d, all, drop, 0) == all && Swept(d, all, drop, |all|) == Kept(all, drop)
  {
    assert all[..0] == [] && all[|all|..] == [] && all[..|all|] == all && all[0..] == all;
  }

  lemma SweptNext<V>(d: Direction, all: seq<Node<V>>, drop: set<Node<V>>, k: nat)
    requires k < |all|
    ensures var (now, i, node) := (Swept(d, all, drop, k), Place(d, all, drop, k), all[Position(d, |all|, k)]);
            && 0 <= i < |now| && now[i] == node
            && At(now, if d.FromHead? then i + 1 else i - 1) == At(all, Position(d, |all|, k + 1))
            && Swept(d, all, drop, k + 1) == if node in drop then now[..i] + now[i + 1..] else now
  {
    if d.FromHead? { SweptForward(all, drop, k); } else { SweptBackward(all, drop, k); }
  }

  lemma SweptForward<V>(all: seq<Node<V>>, drop: set<Node<V>>, k: nat)
    requires k < |all|
    ensures var (now, i) := (Swept(FromHead, all, drop, k), Place(FromHead, all, drop, k));
            && 0 <= i < |now| && now[i] == all[k] && At(now, i + 1) == At(all, k + 1)
            && Swept(FromHead, all, drop, k + 1) == if all[k] in drop then now[..i] + now[i + 1..] else now
  {
    assert all[..k + 1] == all[..k] + [all[k]];
    KeptAppend(all[..k], [all[k]], drop);
    KeptOne(all[k], drop);
    assert all[k..] == [all[k]] + all[k + 1..];
    hide Kept;
    Between(Kept(all[..k], drop), all[k], all[k + 1..], all, k);
  }

  /** A node between two parts of the list. */
  lemma Between<V>(front: seq<Node<V>>, node: Node<V>, back: seq<Node<V>>, all: seq<Node<V>>, k: nat)
    requires k < |all| && back == all[k + 1..]
    ensures var (now, i) := (front + ([node] + back), |front|);
            && now[i] == node && At(now, i + 1) == At(all, k + 1)
            && now[..i] + now[i + 1..] == front + back && now == (front + [node]) + back
  {
  }

  lemma SweptBackward<V>(all: seq<Node<V>>, drop: set<Node<V>>, k: nat)
    requires k < |all|
    ensures var (now, i, node) := (Swept(FromTail, all, drop, k), Place(FromTail, all, drop, k), all[|all| - 1 - k]);
            && 0 <= i < |now| && now[i] == node && At(now, i - 1) == At(all, |all| - 2 - k)
            && Swept(FromTail, all, drop, k + 1) == if node in drop then now[..i] + now[i + 1..] else now
  {
    var j := |all| - k;
    assert all[j - 1..] == [all[j - 1]] + all[j..];
    KeptAppend([all[j - 1]], all[j..], drop);
    KeptOne(all[j - 1], drop);
    assert Swept(FromTail, all, drop, k) == all[..j] + Kept(all[j..], drop);
    assert Swept(FromTail, all, drop, k + 1) == all[..j - 1] + Kept(all[j - 1..], drop);
    hide Kept, Swept;
    Before(all, j - 1, Kept(all[j..], drop));
  }

  lemma Before<V>(all: seq<Node<V>>, i: nat, kept: seq<Node<V>>)
    requires i < |all|
    ensures var now := all[..i + 1] + kept;
            && now[i] == all[i] && At(now, i - 1) == At(all, i - 1)
            && now[..i] + now[i + 1..] == all[..i] + kept && now == all[..i] + ([all[i]] + kept)
  {
  }

  lemma {:induction false} KeptWithin<V>(nodes: seq<Node<V>>, drop: set<Node<V>>)
    ensures forall i :: 0 <= i < |Kept(nodes, drop)| ==> Kept(nodes, drop)[i] in nodes
  {
    if nodes != [] { KeptWithin(nodes[..|nodes| - 1], drop); }
  }

  lemma SweptWithin<V>(d: Direction, all: seq<Node<V>>, drop: set<Node<V>>, k: nat)
    requires k <= |all|
    ensures forall i :: 0 <= i < |Swept(d, all, drop, k)| ==> Swept(d, all, drop, k)[i] in all
  {
    KeptWithin(all[..k], drop);
    KeptWithin(all[|all| - k..], drop);
    hide Kept;
  }

  lemma KeptOne<V>(node: Node<V>, drop: set<Node<V>>)
    ensures Kept([node], drop) == if node in drop then [] else [node]
  {
    assert [node][..0] == [];
  }

  /** The list and the iterator after k nodes were visited. */
  ghost predicate Sweeping<V>(list: List<V>, it: Iterator<V>, all: seq<Node<V>>, drop: set<Node<V>>, k: nat)
    reads list, list.nodes, it
  {
    && k <= |all| && list.Valid() && list.nodes == Swept(it.direction, all, drop, k)
    && it.next == At(all, Position(it.direction, |all|, k))
  }

  /** Yields one node and removes it if it was chosen. */
  method SweepOne<V>(list: List<V>, it: Iterator<V>, ghost all: seq<Node<V>>, drop: set<Node<V>>, ghost k: nat)
    returns (node: Node?<V>)
    requires Sweeping(list, it, all, drop, k)
    modifies list, all, it
    ensures node == At(all, Position(it.direction, |all|, k))
    ensures k == |all| ==> Sweeping(list, it, all, drop, k)
    ensures k < |all| ==> Sweeping(list, it, all, drop, k + 1)
  {
    hide Kept, Swept, Place;
    ghost var d := it.direction;
    if k < |all| { SweptNext(d, all, drop, k); Neighbour(list, d, Place(d, all, drop, k)); }
    node := it.Next();
    if node != null && node in drop {
      ghost var i := Place(d, all, drop, k);
      SweptWithin(d, all, drop, k);
      list.Remove(node, i);
    }
  }

  /**
   Iterates in either direction and removes the chosen nodes as they are yielded: every original
   node is visited once, in order, and the others stay in order.
   */
  method Sweep<V>(list: List<V>, d: Direction, drop: set<Node<V>>) returns (ghost visited: seq<Node<V>>)
    requires list.Valid()
    modifies list, list.nodes
    ensures list.Valid() && list.nodes == Kept(old(list.nodes), drop)
    ensures visited == Ordered(d, old(list.nodes))
  {
    ghost var all := list.nodes;
    SweptStart(d, all, drop);
    hide Kept, Swept, Ordered;
    var it := IteratorOf(list, d);
    visited := SweepRest(list, it, all, drop);
    SweptAll(list, it, all, drop);
  }

  method SweepRest<V>(list: List<V>, it: Iterator<V>, ghost all: seq<Node<V>>, drop: set<Node<V>>)
    returns (ghost visited: seq<Node<V>>)
    requires Sweeping(list, it, all, drop, 0)
    modifies list, all, it
    ensures Sweeping(list, it, all, drop, |all|)
    ensures visited == Ordered(it.direction, all)
  {
    hide *;
    ghost var d := it.direction;
    ghost var k := 0;
    visited := [];
    Yielded(d, all, 0);
    var node := SweepOne(list, it, all, drop, 0);
    while node != null
      invariant it.direction == d
      invariant k <= |all| && node == At(all, Position(d, |all|, k))
      invariant visited == Ordered(d, all)[..k]
      invariant Sweeping(list, it, all, drop, if k < |all| then k + 1 else k)
      decreases |all| - k
    {
      Yielded(d, all, k);
      visited := visited + [node];
      k := k + 1;
      node := SweepOne(list, it, all, drop, k);
    }
    Yielded(d, all, k);
  }

  /** What an iteration yields at its k-th step. */
  lemma Yielded<V>(d: Direction, all: seq<Node<V>>, k: nat)
    requires k <= |all|
    ensures |Ordered(d, all)| == |all| && Ordered(d, all)[..|all|] == Ordered(d, all)
    ensures Ordered(d, all)[..0] == []
    ensures At(all, Position(d, |all|, k)) == null <==> k == |all|
    ensures k < |all| ==> Ordered(d, all)[..k + 1] == Ordered(d, all)[..k] + [At(all, Position(d, |all|, k))]
  {
  }

  lemma SweptAll<V>(list: List<V>, it: Iterator<V>, all: seq<Node<V>>, drop: set<Node<V>>)
    requires Sweeping(list, it, all, drop, |all|)
    ensures list.Valid() && list.nodes == Kept(all, drop)
  {
    SweptStart(it.direction, all, drop);
  }

  lemma Neighbour<V>(list: List<V>, d: Direction, i: nat)
    requires list.Valid() && i < |list.nodes|
    ensures (if d.FromHead? then list.nodes[i].next else list.nodes[i].prev)
         == At(list.nodes, if d.FromHead? then i + 1 else i - 1)
  {
    assert Linked(list.nodes, i);
  }
}
