/**
 * The doubly linked list of src/list.c: real `next` and `prev` pointers, refining a sequence.
 * `Heap` keeps the set of live allocations, so a double free or a lost node shows in a contract.
 */
module LinkedList {

  const FRONT := 0
  const BACK := 1

  /** A block of memory holding one value: the caller's buffer or a node's copy of it. */
  class Box<T> {
    var value: T
    constructor (v: T)
      ensures value == v
    {
      value := v;
    }
  }

  class Node<T> {
    var data: Box<T>
    var next: Node?<T>
    var prev: Node?<T>
    constructor (d: Box<T>)
      ensures data == d && next == null && prev == null
    {
      data, next, prev := d, null, null;
    }
  }

  /** malloc and free. What a freed block holds afterwards is unknown. */
  class Heap {
    ghost var live: set<object>

    constructor ()
      ensures live == {}
    {
      live := {};
    }

    ghost method Allocate(o: object)
      modifies this
      ensures live == old(live) + {o}
    {
      live := live + {o};
    }

    method FreeNode<T>(n: Node<T>)
      requires n in live
      modifies this, n
      ensures live == old(live) - {n}
    {
      n.next, n.prev := null, null;
      live := live - {n};
    }

    method FreeBox<T>(b: Box<T>)
      requires b in live
      modifies this, b
      ensures live == old(live) - {b}
    {
      live := live - {b};
    }

    method FreeList<T>(l: List<T>)
      requires l in live
      modifies this, l
      ensures live == old(live) - {l}
    {
      l.first, l.last := null, null;
      live := live - {l};
    }
  }

  ghost predicate Distinct<X>(s: seq<X>) {
    forall i, j :: 0 <= i < j < |s| ==> s[i] != s[j]
  }

  /** `next` leads from each node to the following one and `prev` back; both end in null. */
  ghost predicate Threaded<T>(s: seq<Node<T>>)
    reads s
  {
    && (s != [] ==> s[0].prev == null && s[|s| - 1].next == null)
    && (forall i {:trigger s[i].next} :: 0 <= i < |s| - 1 ==> s[i].next == s[i + 1])
    && (forall i {:trigger s[i].prev} :: 1 <= i < |s| ==> s[i].prev == s[i - 1])
  }

  ghost predicate Owns<T>(s: seq<Node<T>>, b: seq<Box<T>>)
    requires |s| == |b|
    reads s
  {
    forall i {:trigger s[i].data} :: 0 <= i < |s| ==> s[i].data == b[i]
  }

  function Without<X>(s: seq<X>, i: nat): (r: seq<X>)
    requires i < |s|
    ensures |r| == |s| - 1
  {
    s[..i] + s[i + 1..]
  }

  function With<X>(s: seq<X>, i: nat, x: X): (r: seq<X>)
    requires i <= |s|
    ensures |r| == |s| + 1 && r[i] == x
  {
    s[..i] + [x] + s[i..]
  }

  /** Everything else keeps its order. */
  lemma {:induction false} WithAt<X>(s: seq<X>, i: nat, x: X, k: nat)
    requires i <= |s| && k < |s|
    ensures With(s, i, x)[i] == x && With(s, i, x)[if k < i then k else k + 1] == s[k]
  {
  }

  lemma {:induction false} WithoutAt<X>(s: seq<X>, i: nat, k: nat)
    requires i < |s| && k < |s| && k != i
    ensures Without(s, i)[if k < i then k else k - 1] == s[k]
  {
  }

  lemma {:induction false} WithEnd<X>(s: seq<X>, x: X)
    ensures With(s, |s|, x) == s + [x]
  {
  }

  /** The values held by a sequence of blocks. */
  ghost function Values<T>(b: seq<Box<T>>): (s: seq<T>)
    reads b
    ensures |s| == |b|
  {
    seq(|b|, i requires 0 <= i < |b| reads b => b[i].value)
  }

  lemma {:induction false} ValuesWithout<T>(b: seq<Box<T>>, i: nat)
    requires i < |b|
    ensures Values(Without(b, i)) == Without(Values(b), i)
  {
  }

  lemma {:induction false} ValuesWith<T>(b: seq<Box<T>>, i: nat, x: Box<T>)
    requires i <= |b|
    ensures Values(With(b, i, x)) == With(Values(b), i, x.value)
  {
  }

  lemma {:induction false} DistinctWithout<X>(s: seq<X>, i: nat)
    requires i < |s| && Distinct(s)
    ensures Distinct(Without(s, i)) && s[i] !in Without(s, i)
  {
  }

  lemma {:induction false} DistinctWith<X>(s: seq<X>, i: nat, x: X)
    requires i <= |s| && Distinct(s) && x !in s
    ensures Distinct(With(s, i, x))
  {
  }

  lemma {:induction false} OwnsWithout<T>(s: seq<Node<T>>, b: seq<Box<T>>, i: nat)
    requires |s| == |b| && i < |s| && Owns(s, b)
    ensures Owns(Without(s, i), Without(b, i))
  {
  }

  lemma {:induction false} OwnsWith<T>(s: seq<Node<T>>, b: seq<Box<T>>, i: nat, n: Node<T>)
    requires |s| == |b| && i <= |s| && Owns(s, b)
    ensures Owns(With(s, i, n), With(b, i, n.data))
  {
  }

  /** The links of `s` once node i was bypassed. */
  ghost predicate Bypassed<T>(s: seq<Node<T>>, i: nat)
    requires i < |s|
    reads s
  {
    && (forall k {:trigger s[k].next} :: 0 <= k < |s| - 1 && k != i && k + 1 != i ==> s[k].next == s[k + 1])
    && (forall k {:trigger s[k].prev} :: 1 <= k < |s| && k != i && k != i + 1 ==> s[k].prev == s[k - 1])
    && (i > 0 ==> s[0].prev == null && s[i - 1].next == if i + 1 < |s| then s[i + 1] else null)
    && (i + 1 < |s| ==> s[|s| - 1].next == null && s[i + 1].prev == if i > 0 then s[i - 1] else null)
  }

  lemma {:induction false} BypassedIsThreaded<T>(s: seq<Node<T>>, i: nat)
    requires i < |s| && Bypassed(s, i)
    ensures Threaded(Without(s, i))
  {
    var r := Without(s, i);
    forall k | 0 <= k < |r| - 1 ensures r[k].next == r[k + 1] {
      var j := if k < i then k else k + 1;
      assert r[k] == s[j];
    }
    forall k | 1 <= k < |r| ensures r[k].prev == r[k - 1] {
      var j := if k < i then k else k + 1;
      assert r[k] == s[j];
    }
  }

  /** The links of `s` once node `n` was put at place i. */
  ghost predicate Spliced<T>(s: seq<Node<T>>, i: nat, n: Node<T>)
    requires i <= |s|
    reads s, n
  {
    && (forall k {:trigger s[k].next} :: 0 <= k < |s| - 1 && k + 1 != i ==> s[k].next == s[k + 1])
    && (forall k {:trigger s[k].prev} :: 1 <= k < |s| && k != i ==> s[k].prev == s[k - 1])
    && (i > 0 ==> s[0].prev == null && s[i - 1].next == n)
    && (i < |s| ==> s[|s| - 1].next == null && s[i].prev == n)
    && n.prev == (if i > 0 then s[i - 1] else null)
    && n.next == (if i < |s| then s[i] else null)
  }

  lemma {:induction false} SplicedIsThreaded<T>(s: seq<Node<T>>, i: nat, n: Node<T>)
    requires i <= |s| && Spliced(s, i, n)
    ensures Threaded(With(s, i, n))
  {
    var r := With(s, i, n);
    forall k | 0 <= k < |r| - 1 ensures r[k].next == r[k + 1] {
      assert k != i ==> r[k] == s[if k < i then k else k - 1];
    }
    forall k | 1 <= k < |r| ensures r[k].prev == r[k - 1] {
      assert k != i ==> r[k] == s[if k < i then k else k - 1];
    }
  }

  class List<T> {
    var length: int
    var first: Node?<T>
    var last: Node?<T>
    ghost var nodes: seq<Node<T>>
    ghost var boxes: seq<Box<T>>

    /** The pointers thread exactly `s`, both ways, and node i owns box i. */
    ghost predicate LinkedAs(s: seq<Node<T>>, b: seq<Box<T>>)
      reads this`length, this`first, this`last, s
    {
      && length == |s| == |b|
      && first == (if s == [] then null else s[0])
      && last == (if s == [] then null else s[|s| - 1])
      && Owns(s, b) && Threaded(s) && Distinct(s) && Distinct(b)
    }

    /** Every node and every copy is allocated. */
    static ghost predicate AllLive(s: seq<Node<T>>, b: seq<Box<T>>, live: set<object>) {
      && (forall n :: n in s ==> n in live)
      && (forall x :: x in b ==> x in live)
    }

    ghost predicate Valid(h: Heap)
      reads this, nodes, h
    {
      LinkedAs(nodes, boxes) && this in h.live && AllLive(nodes, boxes, h.live)
    }

    /** The sequence the list stands for. */
    ghost function Contents(): (s: seq<T>)
      reads this`boxes, boxes
      ensures |s| == |boxes|
    {
      Values(boxes)
    }

    /** create_list */
    constructor (h: Heap)
      modifies h
      ensures Valid(h) && Contents() == [] && nodes == []
      ensures h.live == old(h.live) + {this}
    {
      length, first, last := 0, null, null;
      nodes, boxes := [], [];
      new;
      h.Allocate(this);
    }

    /** A node owning a fresh copy of the caller's data. */
    method NewNode(h: Heap, data: Box<T>) returns (node: Node<T>)
      modifies h
      ensures fresh(node) && fresh(node.data) && node.data.value == data.value
      ensures node.next == null && node.prev == null
      ensures h.live == old(h.live) + {node, node.data}
    {
      var copy := new Box(data.value);
      h.Allocate(copy);
      node := new Node(copy);
      h.Allocate(node);
    }

    /** list_add */
    method Add(h: Heap, data: Box<T>)
      requires Valid(h)
      modifies this, nodes, h
      ensures Valid(h)
      ensures Contents() == old(Contents()) + [data.value]
      ensures Joined(h, old(|nodes|))
    {
      var node := NewNode(h, data);
      assert LinkedAs(nodes, boxes) && AllLive(nodes, boxes, h.live);
      Append(node);
      assert Contents() == old(Contents());
      length := length + 1;
      ghost var at := |nodes|;
      WithEnd(Contents(), data.value);
      Join(h, node, at);
    }

    /** A node and its copy, both newly allocated, joined the list at place `at`. */
    twostate predicate Joined(h: Heap, at: int)
      reads this, h
    {
      && |nodes| == |boxes| && 0 <= at < |nodes|
      && at <= old(|nodes|) && nodes == With(old(nodes), at, nodes[at]) && fresh(nodes[at])
      && at <= old(|boxes|) && boxes == With(old(boxes), at, boxes[at]) && fresh(boxes[at])
      && h.live == old(h.live) + {nodes[at], boxes[at]}
    }

    method Append(node: Node<T>)
      requires LinkedAs(nodes, boxes) && node !in nodes
      modifies this`first, this`last, node, nodes
      ensures Spliced(nodes, |nodes|, node) && Owns(nodes, boxes) && node.data == old(node.data)
      ensures first == (if nodes == [] then node else nodes[0]) && last == node
    {
      if first == null {
        node.prev := null;
        node.next := null;
        first := node;
        last := node;
      } else {
        last.next := node;
        node.prev := last;
        node.next := null;
        last := node;
      }
    }

    /** The ghost side of an insertion: the spliced node joins the sequence. */
    ghost method Join(h: Heap, node: Node<T>, at: nat)
      requires |nodes| == |boxes| && at <= |nodes| && Spliced(nodes, at, node) && Owns(nodes, boxes)
      requires Distinct(nodes) && Distinct(boxes) && node !in nodes && node.data !in boxes
      requires length == |nodes| + 1
      requires first == if at == 0 then node else nodes[0]
      requires last == if at == |nodes| then node else nodes[|nodes| - 1]
      requires this in h.live && node in h.live && node.data in h.live && AllLive(nodes, boxes, h.live)
      modifies this`nodes, this`boxes
      ensures nodes == With(old(nodes), at, node) && boxes == With(old(boxes), at, node.data)
      ensures Valid(h) && nodes[at] == node && boxes[at] == node.data
      ensures Contents() == With(old(Contents()), at, node.data.value)
    {
      SplicedIsThreaded(nodes, at, node);
      OwnsWith(nodes, boxes, at, node);
      DistinctWith(nodes, at, node);
      DistinctWith(boxes, at, node.data);
      ValuesWith(boxes, at, node.data);
      nodes, boxes := With(nodes, at, node), With(boxes, at, node.data);
    }

    /** list_insert: after `before`, which is node `at - 1`, or at the front when it is null. */
    method Insert(h: Heap, before: Node?<T>, data: Box<T>, ghost at: nat)
      requires Valid(h)
      requires if before == null then at == 0 else 1 <= at <= |nodes| && nodes[at - 1] == before
      modifies this, nodes, h
      ensures Valid(h)
      ensures Contents() == With(old(Contents()), at, data.value)
      ensures Joined(h, at)
    {
      if first == null {
        Add(h, data);
      } else if before == last {
        AtLast(before, at);
        Add(h, data);
      } else {
        InsertInside(h, before, data, at);
      }
    }

    lemma {:induction false} AtLast(before: Node?<T>, at: nat)
      requires LinkedAs(nodes, boxes) && 1 <= at <= |nodes| && nodes[at - 1] == before == last
      ensures at == |nodes|
    {
    }

    method InsertInside(h: Heap, before: Node?<T>, data: Box<T>, ghost at: nat)
      requires Valid(h) && nodes != [] && before != last
      requires if before == null then at == 0 else 1 <= at <= |nodes| && nodes[at - 1] == before
      modifies this, nodes, h
      ensures Valid(h)
      ensures Contents() == With(old(Contents()), at, data.value)
      ensures Joined(h, at)
    {
      var node := NewNode(h, data);
      assert LinkedAs(nodes, boxes) && AllLive(nodes, boxes, h.live);
      Splice(before, node, at);
      assert Contents() == old(Contents());
      length := length + 1;
      Join(h, node, at);
    }

    method Splice(before: Node?<T>, node: Node<T>, ghost at: nat)
      requires LinkedAs(nodes, boxes) && node !in nodes && nodes != [] && before != last
      requires if before == null then at == 0 else 1 <= at <= |nodes| && nodes[at - 1] == before
      modifies this`first, node, nodes
      ensures at < |nodes| && Spliced(nodes, at, node) && Owns(nodes, boxes) && node.data == old(node.data)
      ensures first == (if at == 0 then node else nodes[0]) && last == nodes[|nodes| - 1]
    {
      if before == null {
        SpliceFront(node);
      } else {
        SpliceAfter(before, at - 1, node);
      }
    }

    method SpliceFront(node: Node<T>)
      requires LinkedAs(nodes, boxes) && node !in nodes && first != null
      modifies this`first, node, first
      ensures Spliced(nodes, 0, node) && Owns(nodes, boxes) && node.data == old(node.data)
      ensures first == node
    {
      node.next := first;
      node.prev := null;
      node.next.prev := node;
      first := node;
    }

    method SpliceAfter(before: Node<T>, ghost i: nat, node: Node<T>)
      requires LinkedAs(nodes, boxes) && node !in nodes && i + 1 < |nodes| && nodes[i] == before
      modifies node, nodes
      ensures Spliced(nodes, i + 1, node) && Owns(nodes, boxes) && node.data == old(node.data)
    {
      node.next := before.next;
      node.prev := before;
      before.next := node;
      node.next.prev := node;
    }

    /** list_pluck: unlink any node, here node `at`, free it, and hand its data to the caller. */
    method Pluck(h: Heap, removed: Node?<T>, ghost at: nat) returns (data: Box?<T>)
      requires Valid(h)
      requires removed != null ==> at < |nodes| && nodes[at] == removed
      modifies this, nodes, h
      ensures Valid(h)
      ensures removed == null ==>
        && data == null && Contents() == old(Contents()) && nodes == old(nodes) && boxes == old(boxes)
        && h.live == old(h.live)
      ensures removed != null ==>
        && data == old(boxes)[at] && data.value == old(Contents())[at]
        && Contents() == Without(old(Contents()), at)
        && nodes == Without(old(nodes), at) && boxes == Without(old(boxes), at)
        && h.live == old(h.live) - {removed}
    {
      if removed == null {
        return null;
      }
      Unlink(h, removed, at);
      data := removed.data;
      h.FreeNode(removed);
    }

    method Unlink(h: Heap, removed: Node<T>, ghost at: nat)
      requires Valid(h) && at < |nodes| && nodes[at] == removed
      modifies this, nodes
      ensures LinkedAs(nodes, boxes) && AllLive(nodes, boxes, h.live - {removed})
      ensures nodes == Without(old(nodes), at) && boxes == Without(old(boxes), at)
      ensures removed !in nodes && removed.data == old(boxes)[at]
      ensures Contents() == Without(old(Contents()), at)
    {
      Bypass(removed, at);
      assert Contents() == old(Contents());
      Leave(h, removed, at);
      length := length - 1;
    }

    /** The ghost side of a removal. */
    ghost method Leave(h: Heap, removed: Node<T>, at: nat)
      requires AllLive(nodes, boxes, h.live)
      requires |nodes| == |boxes| && at < |nodes| && nodes[at] == removed && Bypassed(nodes, at) && Owns(nodes, boxes)
      requires Distinct(nodes) && Distinct(boxes)
      modifies this`nodes, this`boxes
      ensures nodes == Without(old(nodes), at) && boxes == Without(old(boxes), at)
      ensures Owns(nodes, boxes) && Threaded(nodes) && Distinct(nodes) && Distinct(boxes) && removed !in nodes
      ensures AllLive(nodes, boxes, h.live - {removed})
      ensures Contents() == Without(old(Contents()), at)
    {
      BypassedIsThreaded(nodes, at);
      OwnsWithout(nodes, boxes, at);
      DistinctWithout(nodes, at);
      DistinctWithout(boxes, at);
      ValuesWithout(boxes, at);
      nodes, boxes := Without(nodes, at), Without(boxes, at);
    }

    /** The four cases of list_pluck. */
    method Bypass(removed: Node<T>, ghost i: nat)
      requires LinkedAs(nodes, boxes) && i < |nodes| && nodes[i] == removed
      modifies this`first, this`last
      modifies if removed.prev == null then {} else {removed.prev}, if removed.next == null then {} else {removed.next}
      ensures Bypassed(nodes, i) && Owns(nodes, boxes)
      ensures first == (if i > 0 then nodes[0] else if |nodes| == 1 then null else nodes[1])
      ensures last ==
        if i < |nodes| - 1 then nodes[|nodes| - 1] else if |nodes| == 1 then null else nodes[|nodes| - 2]
    {
      if first == removed && last == removed {
        first := null;
        last := null;
      } else if first == removed {
        first := removed.next;
        removed.next.prev := null;
      } else if last == removed {
        last := removed.prev;
        removed.prev.next := null;
      } else {
        removed.prev.next := removed.next;
        removed.next.prev := removed.prev;
      }
    }

    /** list_pop */
    method Pop(h: Heap) returns (data: Box?<T>)
      requires Valid(h)
      modifies this, nodes, h
      ensures Valid(h)
      ensures old(Contents()) == [] ==> data == null && Contents() == [] && h.live == old(h.live)
      ensures old(Contents()) != [] ==> var n := |old(Contents())| - 1;
        && data == old(boxes)[n] && data.value == old(Contents())[n] && data in h.live
        && Contents() == Without(old(Contents()), n)
        && nodes == Without(old(nodes), n) && boxes == Without(old(boxes), n)
        && h.live == old(h.live) - {old(nodes)[n]}
    {
      var node := last;
      if node == null {
        return null;
      }
      UnlinkEnd(h, node, true, |nodes| - 1);
      data := node.data;
      h.FreeNode(node);
    }

    method UnlinkEnd(h: Heap, node: Node<T>, back: bool, ghost at: nat)
      requires Valid(h) && nodes != []
      requires if back then node == last && at == |nodes| - 1 else node == first && at == 0
      modifies this, nodes
      ensures LinkedAs(nodes, boxes) && AllLive(nodes, boxes, h.live - {node})
      ensures nodes == Without(old(nodes), at) && boxes == Without(old(boxes), at)
      ensures node !in nodes && node.data == old(boxes)[at]
      ensures Contents() == Without(old(Contents()), at)
    {
      if back {
        DropLast(node);
      } else {
        DropFirst(node);
      }
      assert Contents() == old(Contents());
      Leave(h, node, at);
      length := length - 1;
    }

    method DropLast(node: Node<T>)
      requires LinkedAs(nodes, boxes) && node == last
      modifies this`first, this`last, if node.prev == null then {} else {node.prev}
      ensures Bypassed(nodes, |nodes| - 1) && Owns(nodes, boxes)
      ensures first == if |nodes| == 1 then null else nodes[0]
      ensures last == if |nodes| == 1 then null else nodes[|nodes| - 2]
    {
      if first == last {
        first := null;
        last := null;
      } else {
        last := node.prev;
        node.prev.next := null;
      }
    }

    /** list_poll */
    method Poll(h: Heap) returns (data: Box?<T>)
      requires Valid(h)
      modifies this, nodes, h
      ensures Valid(h)
      ensures old(Contents()) == [] ==> data == null && Contents() == [] && h.live == old(h.live)
      ensures old(Contents()) != [] ==>
        && data == old(boxes)[0] && data.value == old(Contents())[0] && data in h.live
        && Contents() == Without(old(Contents()), 0)
        && nodes == Without(old(nodes), 0) && boxes == Without(old(boxes), 0)
        && h.live == old(h.live) - {old(nodes)[0]}
    {
      var node := first;
      if node == null {
        return null;
      }
      UnlinkEnd(h, node, false, 0);
      data := node.data;
      h.FreeNode(node);
    }

    method DropFirst(node: Node<T>)
      requires LinkedAs(nodes, boxes) && node == first
      modifies this`first, this`last, if node.next == null then {} else {node.next}
      ensures Bypassed(nodes, 0) && Owns(nodes, boxes)
      ensures first == if |nodes| == 1 then null else nodes[1]
      ensures last == if |nodes| == 1 then null else nodes[|nodes| - 1]
    {
      if first == last {
        first := null;
        last := null;
      } else {
        first := node.next;
        node.next.prev := null;
      }
    }

    /** list_remove: poll or pop, then destroy the data; any other `end` does nothing. */
    method Remove(h: Heap, end: int)
      requires Valid(h)
      modifies this, nodes, boxes, h
      ensures Valid(h)
      ensures Contents() == (if old(Contents()) == [] then [] else if end == FRONT then old(Contents())[1..]
                             else if end == BACK then old(Contents())[..|old(Contents())| - 1] else old(Contents()))
      ensures (end == FRONT || end == BACK) && old(Contents()) != [] ==>
        var gone := if end == FRONT then 0 else |old(boxes)| - 1;
        h.live == old(h.live) - {old(nodes)[gone], old(boxes)[gone]}
      ensures (end != FRONT && end != BACK) || old(Contents()) == [] ==>
        h.live == old(h.live) && nodes == old(nodes) && boxes == old(boxes)
    {
      var data;
      if Contents() != [] {
        WithoutEnd(Contents());
        WithoutFront(Contents());
      }
      if end == FRONT {
        data := Poll(h);
      } else if end == BACK {
        data := Pop(h);
      } else {
        return;
      }
      if data != null {
        h.FreeBox(data);
      }
    }

    /** list_first and list_last read through the end pointer, so the list must not be empty. */
    method First() returns (data: Box<T>)
      requires LinkedAs(nodes, boxes) && first != null
      ensures data == boxes[0] && data.value == Contents()[0]
    {
      data := first.data;
    }

    method Last() returns (data: Box<T>)
      requires LinkedAs(nodes, boxes) && last != null
      ensures data == boxes[|boxes| - 1] && data.value == Contents()[|boxes| - 1]
    {
      data := last.data;
    }

    /** destroy_list: every node, every copy and the list itself are freed, each exactly once. */
    method Destroy(h: Heap)
      requires Valid(h)
      modifies this, nodes, boxes, h
      ensures h.live == old(h.live) - {this} - (set n | n in old(nodes)) - (set b | b in old(boxes))
    {
      var cur := first;
      ghost var k, ns, bs := 0, nodes, boxes;
      while cur != null
        invariant 0 <= k <= |ns| && cur == (if k < |ns| then ns[k] else null)
        invariant forall i {:trigger ns[i].data} :: k <= i < |ns| ==> ns[i].data == bs[i]
        invariant forall i {:trigger ns[i].next} :: k <= i < |ns| ==>
          ns[i].next == if i + 1 < |ns| then ns[i + 1] else null
        invariant forall i :: k <= i < |ns| ==> ns[i] in h.live
        invariant forall i :: k <= i < |bs| ==> bs[i] in h.live
        invariant this in h.live
        invariant h.live == old(h.live) - (set n | n in ns[..k]) - (set b | b in bs[..k])
        decreases |ns| - k
      {
        var next := cur.next;
        h.FreeBox(cur.data);
        h.FreeNode(cur);
        cur := next;
        assert ns[..k + 1] == ns[..k] + [ns[k]] && bs[..k + 1] == bs[..k] + [bs[k]];
        k := k + 1;
      }
      assert ns[..k] == ns && bs[..k] == bs;
      h.FreeList(this);
    }

    /** list_iterator; an unknown starting end yields null. */
    method Iterator(h: Heap, init: int) returns (iter: Iter?<T>)
      requires Valid(h)
      modifies h
      ensures Valid(h)
      ensures fresh(h.live - old(h.live)) && old(h.live) <= h.live
      ensures iter == null <==> init != FRONT && init != BACK
      ensures iter != null ==> fresh(iter) && iter.At(this, Cursor(if init == FRONT then 0 else |nodes| - 1, false))
    {
      iter := new Iter<T>();
      h.Allocate(iter);
      if init == FRONT {
        iter.current := first;
      } else if init == BACK {
        iter.current := last;
      } else {
        return null;
      }
      iter.started := false;
    }
  }

  /**
   * The search idiom of the registries: a front iterator, list_next until it returns null, and a
   * test on list_current. The iterator is left standing on the match.
   */
  method Search<T>(l: List<T>, h: Heap, p: T -> bool) returns (found: Box?<T>, iter: Iter<T>, ghost k: nat)
    requires l.Valid(h)
    modifies h
    ensures l.Valid(h) && fresh(h.live - old(h.live)) && old(h.live) <= h.live
    ensures k <= |l.nodes| && forall j :: 0 <= j < k ==> !p(l.Contents()[j])
    ensures if k < |l.nodes| then found == l.boxes[k] && p(found.value) && iter.current == l.nodes[k]
            else found == null && iter.current == null
  {
    iter := l.Iterator(h, FRONT);
    k := 0;
    ghost var n := |l.nodes|;
    found := iter.Next(l, Cursor(0, false));
    while found != null
      invariant 0 <= k <= n
      invariant iter.At(l, if n == 0 then Cursor(0, false) else Cursor(k, true))
      invariant found == if k < n then l.boxes[k] else null
      invariant forall j :: 0 <= j < k ==> !p(l.boxes[j].value)
      decreases n - k
      modifies iter
    {
      var current := iter.Current(l, Cursor(k, true));
      if p(current.value) {
        return;
      }
      found := iter.Next(l, Cursor(k, true));
      k := k + 1;
    }
  }

  lemma {:induction false} WithoutEnd<X>(s: seq<X>)
    requires s != []
    ensures Without(s, |s| - 1) == s[..|s| - 1]
  {
  }

  lemma {:induction false} WithoutFront<X>(s: seq<X>)
    requires s != []
    ensures Without(s, 0) == s[1..]
  {
  }

  // ------------------------------------------------------------- iterators

  /** Where an iterator stands: off the list at either end, or on node `pos`. */
  datatype Cursor = Cursor(pos: int, started: bool)

  /** A first call only starts the iterator; later ones move it, and off the end it stays. */
  function Advance(n: nat, c: Cursor, step: int): Cursor {
    if 0 <= c.pos < n then (if c.started then Cursor(c.pos + step, true) else Cursor(c.pos, true)) else c
  }

  /** The index whose data is current, or -1. */
  function Here(n: nat, c: Cursor): int {
    if c.started && 0 <= c.pos < n then c.pos else -1
  }

  /** Off the end an iterator gives nothing and stays. */
  lemma {:induction false} OffTheEnd(n: nat, c: Cursor, step: int)
    requires c.pos < 0 || c.pos >= n
    ensures Advance(n, c, step) == c && Here(n, c) == -1
  {
  }

  class Iter<T> {
    var current: Node?<T>
    var started: bool

    constructor ()
      ensures current == null && !started
    {
      current, started := null, false;
    }

    ghost predicate At(l: List<T>, c: Cursor)
      reads this, l
    {
      && -1 <= c.pos <= |l.nodes|
      && current == (if 0 <= c.pos < |l.nodes| then l.nodes[c.pos] else null)
      && started == c.started
    }

    /** list_current */
    method Current(ghost l: List<T>, ghost c: Cursor) returns (data: Box?<T>)
      requires l.LinkedAs(l.nodes, l.boxes) && At(l, c)
      ensures data == if Here(|l.nodes|, c) >= 0 then l.boxes[c.pos] else null
    {
      if started && current != null {
        return current.data;
      }
      return null;
    }

    /** list_next */
    method Next(ghost l: List<T>, ghost c: Cursor) returns (data: Box?<T>)
      requires l.LinkedAs(l.nodes, l.boxes) && At(l, c)
      modifies this
      ensures At(l, Advance(|l.nodes|, c, 1))
      ensures data == var k := Here(|l.nodes|, Advance(|l.nodes|, c, 1)); if k >= 0 then l.boxes[k] else null
    {
      if !started && current != null {
        started := true;
        return current.data;
      }
      if current != null {
        current := current.next;
        data := Current(l, Advance(|l.nodes|, c, 1));
        return data;
      }
      return null;
    }

    /** list_prev */
    method Prev(ghost l: List<T>, ghost c: Cursor) returns (data: Box?<T>)
      requires l.LinkedAs(l.nodes, l.boxes) && At(l, c)
      modifies this
      ensures At(l, Advance(|l.nodes|, c, -1))
      ensures data == var k := Here(|l.nodes|, Advance(|l.nodes|, c, -1)); if k >= 0 then l.boxes[k] else null
    {
      if !started && current != null {
        started := true;
        return current.data;
      }
      if current != null {
        current := current.prev;
        data := Current(l, Advance(|l.nodes|, c, -1));
        return data;
      }
      return null;
    }
  }

  /** What repeated calls in one direction return before the first null. */
  function Visit<X>(s: seq<X>, c: Cursor, step: int): seq<X>
    requires step == 1 || step == -1
    decreases if 0 <= c.pos < |s| then (if step == 1 then |s| - c.pos else c.pos + 1) else 0, if c.started then 0 else 1
  {
    var next := Advance(|s|, c, step);
    var k := Here(|s|, next);
    if k == -1 then [] else [s[k]] + Visit(s, next, step)
  }

  /** A front iterator driven by list_next yields the sequence. */
  lemma {:induction false} FrontTraversal<X>(s: seq<X>)
    ensures Visit(s, Cursor(0, false), 1) == s
  {
    if s != [] {
      VisitForward(s, 0);
    }
  }

  lemma {:induction false} VisitForward<X>(s: seq<X>, i: nat)
    requires i < |s|
    ensures [s[i]] + Visit(s, Cursor(i, true), 1) == s[i..]
    decreases |s| - i
  {
    if i + 1 < |s| {
      VisitForward(s, i + 1);
    }
  }

  function Reversed<X>(s: seq<X>): seq<X> {
    seq(|s|, i requires 0 <= i < |s| => s[|s| - 1 - i])
  }

  /** A back iterator driven by list_prev yields it reversed. */
  lemma {:induction false} BackTraversal<X>(s: seq<X>)
    ensures Visit(s, Cursor(|s| - 1, false), -1) == Reversed(s)
  {
    if s != [] {
      VisitBackward(s, |s| - 1);
      assert s[..|s|] == s;
    }
  }

  lemma {:induction false} VisitBackward<X>(s: seq<X>, i: nat)
    requires i < |s|
    ensures [s[i]] + Visit(s, Cursor(i, true), -1) == Reversed(s[..i + 1])
  {
    if i > 0 {
      VisitBackward(s, i - 1);
      assert Reversed(s[..i + 1]) == [s[i]] + Reversed(s[..i]);
    }
  }
}
