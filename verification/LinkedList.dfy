/** The doubly linked list every device table is kept in. */
module LinkedList {
  datatype Option<+T> = None | Some(value: T)

  class Node<T> {
    var prev: Node?<T>
    var next: Node?<T>
    const value: T

    constructor (value: T)
      ensures this.value == value
    {
      this.value := value;
      prev, next := null, null;
    }
  }

  datatype Direction = FromHead | FromTail

  class Iter<T> {
    var next: Node?<T>
    var direction: Direction

    constructor ()
    {
      next, direction := null, FromHead;
    }
  }

  ghost function Values<T>(nodes: seq<Node<T>>): (values: seq<T>)
    ensures |values| == |nodes|
    ensures forall i :: 0 <= i < |nodes| ==> values[i] == nodes[i].value
  {
    seq(|nodes|, i requires 0 <= i < |nodes| => nodes[i].value)
  }

  /** Distinct nodes, each linked both ways with its neighbour. */
  ghost predicate Segment<T>(nodes: seq<Node<T>>)
    reads nodes
  {
    forall i, j :: 0 <= i < j < |nodes| ==>
      nodes[i] != nodes[j] && (j == i + 1 ==> nodes[i].next == nodes[j] && nodes[j].prev == nodes[i])
  }

  /** A whole list: a segment closed at both ends. */
  ghost predicate Linked<T>(nodes: seq<Node<T>>)
    reads nodes
  {
    Segment(nodes) && (nodes != [] ==> nodes[0].prev == null && nodes[|nodes| - 1].next == null)
  }

  ghost predicate Apart<T>(a: seq<Node<T>>, b: seq<Node<T>>) {
    forall i, j :: 0 <= i < |a| && 0 <= j < |b| ==> a[i] != b[j]
  }

  /** Two segments whose ends point at each other make one. */
  lemma SegmentJoin<T>(a: seq<Node<T>>, b: seq<Node<T>>)
    requires Segment(a) && Segment(b) && Apart(a, b)
    requires a != [] && b != [] ==> a[|a| - 1].next == b[0] && b[0].prev == a[|a| - 1]
    ensures Segment(a + b)
  {
    forall i, j | 0 <= i < j < |a + b|
      ensures (a + b)[i] != (a + b)[j]
      ensures j == i + 1 ==> (a + b)[i].next == (a + b)[j] && (a + b)[j].prev == (a + b)[i]
    {
      if j < |a| {
        assert a[i] != a[j];
      } else if i < |a| {
        assert a[i] != b[j - |a|];
      } else {
        assert b[i - |a|] != b[j - |a|];
      }
    }
  }

  lemma SegmentSplice<T>(a: seq<Node<T>>, n: Node<T>, b: seq<Node<T>>)
    requires Segment(a) && Segment(b) && Apart(a, b) && n !in a && n !in b
    requires a != [] ==> a[|a| - 1].next == n && n.prev == a[|a| - 1]
    requires b != [] ==> n.next == b[0] && b[0].prev == n
    ensures Segment(a + [n] + b)
  {
    SegmentJoin(a, [n]);
    SegmentJoin(a + [n], b);
  }

  /** The node at position i, null outside the list. */
  ghost function At<T>(nodes: seq<Node<T>>, i: int): Node?<T> {
    if 0 <= i < |nodes| then nodes[i] else null
  }

  function Rotated<T>(xs: seq<T>): seq<T> {
    if |xs| <= 1 then xs else xs[1..] + [xs[0]]
  }

  function RotatedBack<T>(xs: seq<T>): seq<T> {
    if |xs| <= 1 then xs else [xs[|xs| - 1]] + xs[..|xs| - 1]
  }

  /** Each rotation moves every element by one place, cyclically. */
  lemma RotatedAt<T>(xs: seq<T>, k: nat)
    requires k < |xs|
    ensures |Rotated(xs)| == |RotatedBack(xs)| == |xs|
    ensures Rotated(xs)[k] == xs[if k == |xs| - 1 then 0 else k + 1]
    ensures RotatedBack(xs)[k] == xs[if k == 0 then |xs| - 1 else k - 1]
  {
  }

  /** The two rotations undo each other. */
  lemma RotationsInverse<T>(xs: seq<T>)
    ensures Rotated(RotatedBack(xs)) == xs && RotatedBack(Rotated(xs)) == xs
  {
    if |xs| > 1 {
      var first, last := xs[0], xs[|xs| - 1];
      RotatedParts(xs[..|xs| - 1], last);
      RotatedParts(xs[1..], first);
      assert xs == xs[..|xs| - 1] + [last] == [first] + xs[1..];
    }
  }

  lemma RotatedParts<T>(rest: seq<T>, x: T)
    requires rest != []
    ensures Rotated([x] + rest) == rest + [x] && RotatedBack(rest + [x]) == [x] + rest
  {
    assert ([x] + rest)[1..] == rest && (rest + [x])[..|rest|] == rest;
  }

  /** listNext: the element the iterator stands at, after moving it on. */
  method Next<T>(iter: Iter<T>) returns (current: Node?<T>)
    modifies iter
    ensures current == old(iter.next) && iter.direction == old(iter.direction)
    ensures iter.next == if current == null then null
                         else if iter.direction.FromHead? then current.next else current.prev
  {
    current := iter.next;
    if current != null {
      if iter.direction == FromHead {
        iter.next := current.next;
      } else {
        iter.next := current.prev;
      }
    }
  }

  /** The nodes that are not doomed, in order. */
  ghost function Kept<T>(nodes: seq<Node<T>>, doomed: Node<T> -> bool): seq<Node<T>>
  {
    if nodes == [] then []
    else
      var n := |nodes| - 1;
      Kept(nodes[..n], doomed) + if doomed(nodes[n]) then [] else [nodes[n]]
  }

  lemma {:induction false} KeptAreNodes<T>(nodes: seq<Node<T>>, doomed: Node<T> -> bool, n: Node<T>)
    ensures n in Kept(nodes, doomed) <==> n in nodes && !doomed(n)
  {
    if nodes != [] {
      var k := |nodes| - 1;
      KeptAreNodes(nodes[..k], doomed, n);
      assert nodes == nodes[..k] + [nodes[k]];
    }
  }

  lemma {:induction false} KeptFront<T>(n: Node<T>, nodes: seq<Node<T>>, doomed: Node<T> -> bool)
    ensures Kept([n] + nodes, doomed) == (if doomed(n) then [] else [n]) + Kept(nodes, doomed)
  {
    if nodes == [] {
      assert [n] + nodes == [n];
      assert [n][..0] == [];
    } else {
      var k := |nodes| - 1;
      KeptFront(n, nodes[..k], doomed);
      assert ([n] + nodes)[..k + 1] == [n] + nodes[..k];
    }
  }

  /** The list after a sweep from the head has dealt with its first i nodes. */
  ghost function SweptTo<T>(all: seq<Node<T>>, i: nat, doomed: Node<T> -> bool): seq<Node<T>>
    requires i <= |all|
  {
    Kept(all[..i], doomed) + all[i..]
  }

  /** The list after a sweep from the tail has dealt with the nodes from position i on. */
  ghost function SweptFrom<T>(all: seq<Node<T>>, i: nat, doomed: Node<T> -> bool): seq<Node<T>>
    requires i <= |all|
  {
    all[..i] + Kept(all[i..], doomed)
  }

  /** The node at position k, gone when it is doomed. */
  ghost function Decided<T>(nodes: seq<Node<T>>, k: nat, doomed: Node<T> -> bool): seq<Node<T>>
    requires k < |nodes|
  {
    if doomed(nodes[k]) then nodes[..k] + nodes[k + 1..] else nodes
  }

  /** What is still ahead of a sweep stands behind the nodes it kept. */
  lemma SweepAhead<T>(all: seq<Node<T>>, i: nat, doomed: Node<T> -> bool)
    requires i <= |all|
    ensures At(SweptTo(all, i, doomed), |Kept(all[..i], doomed)|) == At(all, i)
    ensures At(SweptTo(all, i, doomed), |Kept(all[..i], doomed)| + 1) == At(all, i + 1)
  {
  }

  lemma SweepStep<T>(all: seq<Node<T>>, i: nat, doomed: Node<T> -> bool)
    requires i < |all|
    ensures var before, k := SweptTo(all, i, doomed), |Kept(all[..i], doomed)|;
            && k < |before| && before[k] == all[i]
            && SweptTo(all, i + 1, doomed) == Decided(before, k, doomed)
  {
    assert all[..i + 1][..i] == all[..i];
    assert all[i..] == [all[i]] + all[i + 1..];
  }

  lemma SweepBackStep<T>(all: seq<Node<T>>, i: nat, doomed: Node<T> -> bool)
    requires i < |all|
    ensures var before := SweptFrom(all, i + 1, doomed);
            && i < |before| && before[i] == all[i]
            && SweptFrom(all, i, doomed) == Decided(before, i, doomed)
  {
    hide Kept;
    assert all[i..] == [all[i]] + all[i + 1..];
    KeptFront(all[i], all[i + 1..], doomed);
    assert all[..i + 1] == all[..i] + [all[i]];
    CutOut(all[..i], all[i], Kept(all[i + 1..], doomed));
  }

  lemma CutOut<T>(a: seq<T>, x: T, b: seq<T>)
    ensures var xs := a + [x] + b; |a| < |xs| && xs[|a|] == x && xs[..|a|] + xs[|a| + 1..] == a + b
    ensures a + [x] + b == a + ([x] + b) && a + ([] + b) == a + b
  {
    assert (a + [x] + b)[..|a|] == a && (a + [x] + b)[|a| + 1..] == b;
  }

  /** What is still ahead of a sweep from the tail has not moved. */
  lemma SweepBackAhead<T>(all: seq<Node<T>>, i: nat, doomed: Node<T> -> bool)
    requires i <= |all|
    ensures At(SweptFrom(all, i, doomed), i - 1) == At(all, i - 1)
    ensures At(SweptFrom(all, i, doomed), i - 2) == At(all, i - 2)
  {
  }

  lemma SweptAreNodes<T>(all: seq<Node<T>>, i: nat, doomed: Node<T> -> bool)
    requires i <= |all|
    ensures forall n :: n in SweptTo(all, i, doomed) || n in SweptFrom(all, i, doomed) ==> n in all
  {
    forall n | n in SweptTo(all, i, doomed) || n in SweptFrom(all, i, doomed) ensures n in all {
      KeptAreNodes(all[..i], doomed, n);
      KeptAreNodes(all[i..], doomed, n);
    }
  }

  lemma SweepEnds<T>(all: seq<Node<T>>, doomed: Node<T> -> bool)
    ensures SweptTo(all, 0, doomed) == SweptFrom(all, |all|, doomed) == all
    ensures SweptTo(all, |all|, doomed) == SweptFrom(all, 0, doomed) == Kept(all, doomed)
  {
    assert all[..|all|] == all;
  }

  /** The nodes in the order in which an iterator from the tail meets them. */
  ghost function Reversed<T>(nodes: seq<Node<T>>): (r: seq<Node<T>>)
    ensures |r| == |nodes|
    ensures forall k :: 0 <= k < |r| ==> r[k] == nodes[|nodes| - 1 - k]
  {
    seq(|nodes|, k requires 0 <= k < |nodes| => nodes[|nodes| - 1 - k])
  }

  ghost function ReversedFrom<T>(nodes: seq<Node<T>>, i: nat): seq<Node<T>>
    requires i <= |nodes|
  {
    Reversed(nodes[i..])
  }

  lemma ReversedNext<T>(nodes: seq<Node<T>>, i: nat)
    requires i < |nodes|
    ensures ReversedFrom(nodes, i) == ReversedFrom(nodes, i + 1) + [nodes[i]]
  {
  }

  lemma ReversedEnds<T>(nodes: seq<Node<T>>)
    ensures ReversedFrom(nodes, |nodes|) == [] && ReversedFrom(nodes, 0) == Reversed(nodes)
  {
  }

  class List<T(==)> {
    var head: Node?<T>
    var tail: Node?<T>
    var len: int
    var dup: Option<T -> Option<T>>
    var matches: Option<(T, T) -> bool>
    ghost var nodes: seq<Node<T>>

    ghost predicate Valid()
      reads this, nodes
    {
      && len == |nodes|
      && Linked(nodes)
      && head == At(nodes, 0)
      && tail == At(nodes, |nodes| - 1)
    }

    constructor ()
      ensures Valid() && nodes == [] && dup == None && matches == None
    {
      head, tail, len, nodes := null, null, 0, [];
      dup, matches := None, None;
    }

    method AddNodeHead(value: T)
      requires Valid()
      modifies `head, `tail, `len, `nodes, nodes
      ensures Valid()
      ensures |nodes| == |old(nodes)| + 1 && nodes == [nodes[0]] + old(nodes)
      ensures fresh(nodes[0]) && nodes[0].value == value
    {
      var node := new Node(value);
      if len == 0 {
        head, tail := node, node;
        node.prev, node.next := null, null;
      } else {
        node.prev := null;
        node.next := head;
        head.prev := node;
        head := node;
      }
      len := len + 1;
      nodes := [node] + nodes;
    }

    method AddNodeTail(value: T)
      requires Valid()
      modifies `head, `tail, `len, `nodes, nodes
      ensures Valid()
      ensures |nodes| == |old(nodes)| + 1 && nodes == old(nodes) + [nodes[|old(nodes)|]]
      ensures fresh(nodes[|old(nodes)|]) && nodes[|old(nodes)|].value == value
    {
      var node := new Node(value);
      if len == 0 {
        head, tail := node, node;
        node.prev, node.next := null, null;
      } else {
        node.prev := tail;
        node.next := null;
        tail.next := node;
        tail := node;
      }
      len := len + 1;
      nodes := nodes + [node];
    }

    /** What the links of the node at position k say. */
    lemma Neighbours(k: nat)
      requires Valid() && k < |nodes|
      ensures nodes[k].prev == At(nodes, k - 1) && nodes[k].next == At(nodes, k + 1)
      ensures head == nodes[k] <==> k == 0
      ensures tail == nodes[k] <==> k == |nodes| - 1
    {
      assert k > 0 ==> nodes[k - 1].next == nodes[k];
      assert k + 1 < |nodes| ==> nodes[k].next == nodes[k + 1];
      assert nodes[|nodes| - 1].next == null;
    }

    /** The second half of listInsertNode: the neighbours take the new node in. */
    method LinkNeighbours(node: Node<T>, ghost p: nat)
      requires Linked(nodes) && node !in nodes && p <= |nodes| && len == |nodes|
      requires node.prev == At(nodes, p - 1) && node.next == At(nodes, p)
      requires head == if p == 0 then node else nodes[0]
      requires tail == if p == |nodes| then node else nodes[|nodes| - 1]
      modifies `len, `nodes, nodes
      ensures Valid() && |nodes| == |old(nodes)| + 1 && nodes[p] == node
      ensures nodes == old(nodes)[..p] + [node] + old(nodes)[p..]
    {
      if node.prev != null {
        node.prev.next := node;
      }
      if node.next != null {
        node.next.prev := node;
      }
      assert Segment(nodes[..p]);
      assert Segment(nodes[p..]);
      SegmentSplice(nodes[..p], node, nodes[p..]);
      len := len + 1;
      nodes := nodes[..p] + [node] + nodes[p..];
    }

    /** The new node lands at position k + 1 (after) or k (before) of the old node's k. */
    method InsertNode(oldNode: Node<T>, value: T, after: bool, ghost k: nat)
      requires Valid() && k < |nodes| && nodes[k] == oldNode
      modifies `head, `tail, `len, `nodes, nodes
      ensures Valid() && |nodes| == |old(nodes)| + 1
      ensures var p := if after then k + 1 else k;
              && nodes == old(nodes)[..p] + [nodes[p]] + old(nodes)[p..]
              && fresh(nodes[p]) && nodes[p].value == value
    {
      Neighbours(k);
      var node := new Node(value);
      ghost var p := if after then k + 1 else k;
      if after {
        node.prev := oldNode;
        node.next := oldNode.next;
        if tail == oldNode {
          tail := node;
        }
      } else {
        node.next := oldNode;
        node.prev := oldNode.prev;
        if head == oldNode {
          head := node;
        }
      }
      assert node.prev == At(nodes, p - 1) && node.next == At(nodes, p);
      assert head == if p == 0 then node else nodes[0];
      assert tail == if p == |nodes| then node else nodes[|nodes| - 1];
      LinkNeighbours(node, p);
    }

    method DelNode(node: Node<T>, ghost k: nat)
      requires Valid() && k < |nodes| && nodes[k] == node
      modifies `head, `tail, `len, `nodes, nodes
      ensures Valid()
      ensures nodes == old(nodes)[..k] + old(nodes)[k + 1..]
    {
      Neighbours(k);
      if node.prev != null {
        node.prev.next := node.next;
      } else {
        head := node.next;
      }
      if node.next != null {
        node.next.prev := node.prev;
      } else {
        tail := node.prev;
      }
      len := len - 1;
      nodes := nodes[..k] + nodes[k + 1..];
    }

    method RotateTailToHead()
      requires Valid()
      modifies `head, `tail, `len, `nodes, nodes
      ensures Valid() && nodes == RotatedBack(old(nodes))
    {
      if len <= 1 {
        return;
      }
      var t := tail;
      assert t.prev == nodes[|nodes| - 2];
      tail := t.prev;
      tail.next := null;
      head.prev := t;
      t.prev := null;
      t.next := head;
      head := t;
      nodes := [nodes[|nodes| - 1]] + nodes[..|nodes| - 1];
    }

    method RotateHeadToTail()
      requires Valid()
      modifies `head, `tail, `len, `nodes, nodes
      ensures Valid() && nodes == Rotated(old(nodes))
    {
      if len <= 1 {
        return;
      }
      var h := head;
      assert h.next == nodes[1];
      head := h.next;
      head.prev := null;
      tail.next := h;
      h.next := null;
      h.prev := tail;
      tail := h;
      nodes := nodes[1..] + [nodes[0]];
    }

    /** The links of a join: the end of this list and the start of the other meet. */
    method Couple(o: List<T>)
      requires Valid() && o.Valid() && o != this && o.nodes != []
      requires Apart(nodes, o.nodes)
      modifies `head, nodes, o.nodes
      ensures Linked(nodes + o.nodes) && head == (nodes + o.nodes)[0]
    {
      o.head.prev := tail;
      if tail != null {
        tail.next := o.head;
      } else {
        head := o.head;
      }
      assert Segment(nodes) && Segment(o.nodes);
      SegmentJoin(nodes, o.nodes);
    }

    /** All nodes of o move to the end of this list; o is left empty. */
    method Join(o: List<T>)
      requires Valid() && o.Valid() && o != this
      requires Apart(nodes, o.nodes)
      modifies `head, `tail, `len, `nodes, nodes, o`head, o`tail, o`len, o`nodes, o.nodes
      ensures Valid() && o.Valid() && o.nodes == []
      ensures nodes == old(nodes) + old(o.nodes)
    {
      hide Linked, Apart;
      if o.len == 0 {
        return;
      }
      Couple(o);
      tail := o.tail;
      len := len + o.len;
      nodes := nodes + o.nodes;
      o.Clear();
    }

    /** The last lines of listEmpty and listJoin: the nodes are no longer this list's. */
    method Clear()
      modifies `head, `tail, `len, `nodes
      ensures Valid() && nodes == []
    {
      head, tail := null, null;
      len := 0;
      nodes := [];
    }

    /** listEmpty; the result lists the values in the order they are let go. */
    method Empty() returns (freed: seq<T>)
      requires Valid()
      modifies `head, `tail, `len, `nodes
      ensures Valid() && nodes == [] && freed == old(Values(nodes))
    {
      var current := head;
      var left := len;
      freed := [];
      while left > 0
        invariant Valid() && nodes == old(nodes)
        invariant 0 <= left <= |nodes| && |freed| == |nodes| - left
        invariant current == At(nodes, |nodes| - left)
        invariant freed == Values(nodes)[..|freed|]
      {
        Neighbours(|freed|);
        freed := freed + [current.value];
        current := current.next;
        left := left - 1;
      }
      Clear();
    }

    /** Zero-based from the head; negative indices count from the tail; null out of range. */
    method Index(index: int) returns (n: Node?<T>)
      requires Valid()
      ensures n == At(nodes, if index < 0 then |nodes| + index else index)
    {
      if index < 0 {
        var i := -index - 1;
        n := tail;
        while i != 0 && n != null
          invariant 0 <= i <= -index - 1
          invariant n == At(nodes, |nodes| + index + i)
          decreases i
        {
          Neighbours(|nodes| + index + i);
          n := n.prev;
          i := i - 1;
        }
      } else {
        var i := index;
        n := head;
        while i != 0 && n != null
          invariant 0 <= i <= index
          invariant n == At(nodes, index - i)
          decreases i
        {
          Neighbours(index - i);
          n := n.next;
          i := i - 1;
        }
      }
    }

    method Rewind(iter: Iter<T>)
      requires Valid()
      modifies iter
      ensures iter.next == head == At(nodes, 0) && iter.direction == FromHead
    {
      iter.next := head;
      iter.direction := FromHead;
    }

    method RewindTail(iter: Iter<T>)
      requires Valid()
      modifies iter
      ensures iter.next == tail == At(nodes, |nodes| - 1) && iter.direction == FromTail
    {
      iter.next := tail;
      iter.direction := FromTail;
    }

    /** The element is a hit for the key: by the match function, or by being equal. */
    predicate Hit(value: T, key: T)
      reads `matches
    {
      match matches
      case Some(m) => m(value, key)
      case None => key == value
    }

    /** The first element from the head that the match function accepts for the key, or that
        equals the key without a match function; null if and only if there is none. */
    method SearchKey(key: T) returns (node: Node?<T>)
      requires Valid()
      ensures matches.Some? ==>
                if node == null then forall i :: 0 <= i < |nodes| ==> !matches.value(nodes[i].value, key)
                else exists k :: 0 <= k < |nodes| && node == nodes[k] && matches.value(nodes[k].value, key) &&
                       forall i :: 0 <= i < k ==> !matches.value(nodes[i].value, key)
      ensures matches.None? ==>
                if node == null then forall i :: 0 <= i < |nodes| ==> nodes[i].value != key
                else exists k :: 0 <= k < |nodes| && node == nodes[k] && nodes[k].value == key &&
                       forall i :: 0 <= i < k ==> nodes[i].value != key
    {
      node := FirstHit(key);
    }

    /** The loop of the search. */
    method FirstHit(key: T) returns (node: Node?<T>)
      requires Valid()
      ensures if node == null then forall i :: 0 <= i < |nodes| ==> !Hit(nodes[i].value, key)
              else exists k :: 0 <= k < |nodes| && node == nodes[k] && Hit(nodes[k].value, key) &&
                     forall i :: 0 <= i < k ==> !Hit(nodes[i].value, key)
    {
      var iter := new Iter();
      Rewind(iter);
      ghost var k := 0;
      node := Step(iter, 0);
      while node != null
        invariant 0 <= k <= |nodes| && node == At(nodes, k) && iter.direction == FromHead
        invariant iter.next == if node == null then null else At(nodes, k + 1)
        invariant forall i :: 0 <= i < k ==> !Hit(nodes[i].value, key)
        decreases |nodes| - k
      {
        if Hit(node.value, key) {
          return;
        }
        k := k + 1;
        node := Step(iter, k);
      }
    }

    /** listNext on an iterator standing at position k. */
    method Step(iter: Iter<T>, ghost k: int) returns (current: Node?<T>)
      requires Valid() && iter.next == At(nodes, k)
      modifies iter
      ensures iter.direction == old(iter.direction) && current == At(nodes, k)
      ensures iter.next == if current == null then null
                           else At(nodes, if iter.direction.FromHead? then k + 1 else k - 1)
    {
      if 0 <= k < |nodes| {
        Neighbours(k);
      }
      current := Next(iter);
    }

    /** The value a copy of the list holds for v, if there is one. */
    function CopyOf(v: T): Option<T>
      reads `dup
    {
      match dup
      case Some(f) => f(v)
      case None => Some(v)
    }

    /** An empty list with the same functions. */
    method EmptyCopy() returns (copy: List<T>)
      ensures fresh(copy) && copy.Valid() && copy.nodes == []
      ensures copy.dup == dup && copy.matches == matches
    {
      copy := new List();
      copy.dup := dup;
      copy.matches := matches;
    }

    /** One turn of a copy: the value is copied to the end, unless that fails. */
    method AddCopy(v: T) returns (ok: bool)
      requires Valid()
      modifies `head, `tail, `len, `nodes, nodes
      ensures Valid() && ok == CopyOf(v).Some?
      ensures ok ==> |nodes| == |old(nodes)| + 1 && nodes == old(nodes) + [nodes[|old(nodes)|]]
      ensures ok ==> fresh(nodes[|old(nodes)|]) && Some(nodes[|old(nodes)|].value) == CopyOf(v)
    {
      var value := CopyOf(v);
      if value.None? {
        return false;
      }
      AddNodeTail(value.value);
      return true;
    }

    /** The copies are those of the first nodes. */
    ghost predicate Copied(copies: seq<Node<T>>)
      reads `dup, `nodes
    {
      && |copies| <= |nodes|
      && forall i :: 0 <= i < |copies| ==> Some(copies[i].value) == CopyOf(nodes[i].value)
    }

    lemma CopiedNext(copies: seq<Node<T>>, copy: Node<T>)
      requires Copied(copies) && |copies| < |nodes|
      requires Some(copy.value) == CopyOf(nodes[|copies|].value)
      ensures Copied(copies + [copy])
    {
    }

    /** A copy of the list, or null when the dup function fails for some value. */
    method Dup() returns (copy: List?<T>)
      requires Valid()
      ensures copy == null <==> dup.Some? && exists i :: 0 <= i < |nodes| && dup.value(nodes[i].value) == None
      ensures copy != null ==>
                && fresh(copy) && fresh(copy.nodes) && copy.Valid() && |copy.nodes| == |nodes|
                && copy.dup == dup && copy.matches == matches
                && (dup.None? ==> forall i :: 0 <= i < |nodes| ==> copy.nodes[i].value == nodes[i].value)
                && (dup.Some? ==>
                      forall i :: 0 <= i < |nodes| ==> dup.value(nodes[i].value) == Some(copy.nodes[i].value))
    {
      copy := DupLoop();
      assert copy != null ==> forall i :: 0 <= i < |nodes| ==> Some(copy.nodes[i].value) == CopyOf(nodes[i].value);
    }

    method DupLoop() returns (copy: List?<T>)
      requires Valid()
      ensures copy == null ==> exists i :: 0 <= i < |nodes| && CopyOf(nodes[i].value).None?
      ensures copy != null ==>
                && fresh(copy) && fresh(copy.nodes) && copy.Valid() && |copy.nodes| == |nodes|
                && copy.dup == dup && copy.matches == matches && Copied(copy.nodes)
    {
      hide Valid, Copied;
      copy := EmptyCopy();
      var iter := new Iter();
      Rewind(iter);
      var node := Step(iter, 0);
      NoneCopied();
      while node != null
        invariant fresh(copy) && fresh(copy.nodes) && copy.Valid() && |copy.nodes| <= |nodes|
        invariant copy.dup == dup && copy.matches == matches && Copied(copy.nodes)
        invariant node == At(nodes, |copy.nodes|) && iter.direction == FromHead
        invariant iter.next == if node == null then null else At(nodes, |copy.nodes| + 1)
        decreases |nodes| - |copy.nodes|
      {
        ghost var done := copy.nodes;
        var ok := copy.AddCopy(node.value);
        if !ok {
          assert CopyOf(nodes[|done|].value).None?;
          return null;
        }
        CopiedNext(done, copy.nodes[|done|]);
        node := Step(iter, |done| + 1);
      }
    }

    lemma NoneCopied()
      ensures Copied([])
    {
    }

    /** One turn of a sweep: the node at position k is deleted or stays. */
    method VisitOne(node: Node<T>, doomed: Node<T> -> bool, ghost k: nat, ghost all: seq<Node<T>>)
      requires Valid() && k < |nodes| && node == nodes[k]
      requires forall n :: n in nodes ==> n in all
      modifies `head, `tail, `len, `nodes, all
      ensures Valid() && nodes == old(Decided(nodes, k, doomed))
    {
      assert forall j :: 0 <= j < |nodes| ==> nodes[j] in nodes;
      if doomed(node) {
        DelNode(node, k);
      }
    }

    method VisitForward(node: Node<T>, doomed: Node<T> -> bool, ghost all: seq<Node<T>>, ghost i: nat)
      requires Valid() && i < |all| && node == all[i] && nodes == SweptTo(all, i, doomed)
      modifies `head, `tail, `len, `nodes, all
      ensures Valid() && nodes == SweptTo(all, i + 1, doomed)
    {
      hide SweptTo, SweptFrom, Kept, Linked;
      SweepStep(all, i, doomed);
      SweptAreNodes(all, i, doomed);
      VisitOne(node, doomed, |Kept(all[..i], doomed)|, all);
    }

    method VisitBackward(node: Node<T>, doomed: Node<T> -> bool, ghost all: seq<Node<T>>, ghost i: nat)
      requires Valid() && i < |all| && node == all[i] && nodes == SweptFrom(all, i + 1, doomed)
      modifies `head, `tail, `len, `nodes, all
      ensures Valid() && nodes == SweptFrom(all, i, doomed)
    {
      hide SweptTo, SweptFrom, Kept, Linked;
      SweepBackStep(all, i, doomed);
      SweptAreNodes(all, i + 1, doomed);
      VisitOne(node, doomed, i, all);
    }

    /** The loop the iterators are made for, from the head, deleting any of the nodes it is
        given: it sees every node once, in order, and the others stay. */
    method Sweep(doomed: Node<T> -> bool) returns (visited: seq<Node<T>>)
      requires Valid()
      modifies `head, `tail, `len, `nodes, nodes
      ensures Valid() && visited == old(nodes) && nodes == Kept(old(nodes), doomed)
    {
      hide SweptTo, SweptFrom, Kept, Linked, Segment, Reversed, Valid;
      var iter := new Iter();
      Rewind(iter);
      visited := [];
      ghost var all, i := nodes, 0;
      SweepEnds(all, doomed);
      var node := Step(iter, 0);
      while node != null
        invariant Valid() && i <= |all| && nodes == SweptTo(all, i, doomed)
        invariant visited == all[..i] && iter.direction == FromHead
        invariant node == At(all, i) && iter.next == if node == null then null else At(all, i + 1)
        decreases |all| - i
      {
        visited := visited + [node];
        VisitForward(node, doomed, all, i);
        i := i + 1;
        SweepAhead(all, i, doomed);
        node := Step(iter, |Kept(all[..i], doomed)|);
      }
    }

    /** The same from the tail. */
    method SweepBack(doomed: Node<T> -> bool) returns (visited: seq<Node<T>>)
      requires Valid()
      modifies `head, `tail, `len, `nodes, nodes
      ensures Valid() && visited == Reversed(old(nodes)) && nodes == Kept(old(nodes), doomed)
    {
      hide SweptTo, SweptFrom, Kept, Linked, Segment, Reversed, ReversedFrom, Valid;
      var iter := new Iter();
      RewindTail(iter);
      ReversedEnds(nodes);
      visited := [];
      ghost var all, i := nodes, |nodes|;
      SweepEnds(all, doomed);
      var node := Step(iter, |nodes| - 1);
      while node != null
        invariant Valid() && 0 <= i <= |all| && nodes == SweptFrom(all, i, doomed)
        invariant visited == ReversedFrom(all, i) && iter.direction == FromTail
        invariant node == At(all, i - 1) && iter.next == if node == null then null else At(all, i - 2)
        decreases i
      {
        visited := visited + [node];
        ReversedNext(all, i - 1);
        VisitBackward(node, doomed, all, i - 1);
        i := i - 1;
        SweepBackAhead(all, i, doomed);
        node := Step(iter, i - 1);
      }
    }
  }
}
