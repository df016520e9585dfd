/**
 * The server's doubly linked list with a sentinel head node: values are
 * pushed at the tail or unshifted at the front in constant time, and a
 * pushed node can later be unlinked on its own (the remover function `push`
 * returns), or the whole list cleared.
 */
module LinkedList {
  import opened Common


  /** `ListNode`: a value between two links; `prev` is null exactly when the node is not in a list or is the head. */
  class Node<T(0)> {
    var value: T
    var next: Node?<T>
    var prev: Node?<T>

    constructor (v: T)
      ensures value == v && next == null && prev == null
    {
      value := v;
      next := null;
      prev := null;
    }

    /** The head sentinel, `new ListNode(null)`: its value is never read. */
    constructor Sentinel()
      ensures next == null && prev == null
    {
      next := null;
      prev := null;
    }
  }

  /** The call log of `iterate`: the callback's (index, value) arguments, up to and including the call that returned false. */
  function Visits<T>(values: seq<T>, halts: (nat, T) -> bool, from: nat): (r: seq<(nat, T)>)
    requires from <= |values|
    ensures |r| <= |values| - from
    ensures forall j :: 0 <= j < |r| ==> r[j] == (from + j, values[from + j])
    decreases |values| - from
  {
    if from == |values| then []
    else if halts(from, values[from]) then [(from, values[from])]
    else [(from, values[from])] + Visits(values, halts, from + 1)
  }

  /** Whether no callback call returns false from `from` on. */
  predicate Completes<T>(values: seq<T>, halts: (nat, T) -> bool, from: nat)
    requires from <= |values|
  {
    forall i :: from <= i < |values| ==> !halts(i, values[i])
  }

  /** The callback is called on every value, in order, until it first returns false. */
  lemma {:induction false} VisitsMeaning<T>(values: seq<T>, halts: (nat, T) -> bool, from: nat)
    requires from <= |values|
    ensures Completes(values, halts, from) ==> |Visits(values, halts, from)| == |values| - from
    ensures !Completes(values, halts, from) ==>
      var r := Visits(values, halts, from);
      r != [] && halts(r[|r| - 1].0, r[|r| - 1].1)
      && forall j :: 0 <= j < |r| - 1 ==> !halts(r[j].0, r[j].1)
    decreases |values| - from
  {
    if from < |values| && !halts(from, values[from]) {
      VisitsMeaning(values, halts, from + 1);
    }
  }

  /** The call log ends at the first call that returned false, or runs to the end. */
  lemma {:induction false} VisitsLength<T>(values: seq<T>, halts: (nat, T) -> bool, from: nat, n: nat)
    requires from <= n <= |values|
    requires forall j :: from <= j < n ==> !halts(j, values[j])
    requires n == |values| || halts(n, values[n])
    ensures |Visits(values, halts, from)| == if n == |values| then n - from else n - from + 1
    decreases n - from
  {
    if from < n {
      VisitsLength(values, halts, from + 1, n);
    }
  }

  /** `s` without its `k`-th element, index by index. */
  lemma RemoveAt<U>(s: seq<U>, k: nat, r: seq<U>)
    requires k < |s| && r == s[..k] + s[k + 1..]
    ensures |r| == |s| - 1
    ensures forall i :: 0 <= i < k ==> r[i] == s[i]
    ensures forall i :: k <= i < |s| - 1 ==> r[i] == s[i + 1]
  {
  }

  lemma DistinctRemoveAt<U>(s: seq<U>, k: nat)
    requires k < |s| && Distinct(s)
    ensures Distinct(s[..k] + s[k + 1..])
  {
    var r := s[..k] + s[k + 1..];
    RemoveAt(s, k, r);
    forall i, j | 0 <= i < j < |r|
      ensures r[i] != r[j]
    {
      var i' := if i < k then i else i + 1;
      var j' := if j < k then j else j + 1;
      assert r[i] == s[i'] && r[j] == s[j'] && i' < j';
    }
  }

  /**
   * The list the links spell out: `h` is the sentinel, then the nodes `ns`,
   * forwards by `next` and backwards by `prev`, with `t` the last; `cs` are
   * their values.
   */
  ghost predicate Chain<T(0)>(h: Node<T>, t: Node<T>, ns: seq<Node<T>>, cs: seq<T>)
    reads h, set i | 0 <= i < |ns| :: ns[i]
  {
    h !in ns
    && Distinct(ns)
    && |cs| == |ns|
    && (forall i :: 0 <= i < |ns| ==> ns[i].value == cs[i])
    && h.prev == null
    && h.next == (if ns == [] then null else ns[0])
    && t == (if ns == [] then h else ns[|ns| - 1])
    && (ns != [] ==> ns[0].prev == h && ns[|ns| - 1].next == null)
    && (forall i {:trigger ns[i].prev} :: 0 < i < |ns| ==> ns[i].prev == ns[i - 1])
    && (forall i {:trigger ns[i].next} :: 0 <= i < |ns| - 1 ==> ns[i].next == ns[i + 1])
  }

  /** Taking out the `k`-th of the nodes `n0` and joining its neighbours leaves a chain. */
  lemma RemovedChain<T(0)>(h: Node<T>, t: Node<T>, n0: seq<Node<T>>, c0: seq<T>, k: nat)
    requires k < |n0| && |c0| == |n0|
    requires h !in n0 && Distinct(n0)
    requires forall i :: 0 <= i < |n0| && i != k ==> n0[i].value == c0[i]
    requires h.prev == null
    requires h.next == (if k == 0 then (if |n0| > 1 then n0[1] else null) else n0[0])
    requires t == (if k == |n0| - 1 then (if k == 0 then h else n0[k - 1]) else n0[|n0| - 1])
    requires k + 1 < |n0| ==> n0[k + 1].prev == (if k == 0 then h else n0[k - 1])
    requires 0 < k ==> n0[k - 1].next == (if k + 1 < |n0| then n0[k + 1] else null)
    requires k != 0 ==> n0[0].prev == h
    requires k != |n0| - 1 ==> n0[|n0| - 1].next == null
    requires forall i :: 0 < i < |n0| && i != k && i != k + 1 ==> n0[i].prev == n0[i - 1]
    requires forall i :: 0 <= i < |n0| - 1 && i != k && i + 1 != k ==> n0[i].next == n0[i + 1]
    ensures Chain(h, t, n0[..k] + n0[k + 1..], c0[..k] + c0[k + 1..])
  {
    var ns := n0[..k] + n0[k + 1..];
    var cs := c0[..k] + c0[k + 1..];
    RemoveAt(n0, k, ns);
    RemoveAt(c0, k, cs);
    DistinctRemoveAt(n0, k);
    forall i | 0 <= i < |ns|
      ensures ns[i].value == cs[i] && ns[i] != h
    {
      if i >= k {
        assert ns[i] == n0[i + 1];
      }
    }
    forall i | 0 < i < |ns|
      ensures ns[i].prev == ns[i - 1]
    {
      if i > k {
        assert ns[i] == n0[i + 1] && ns[i - 1] == n0[i];
      }
    }
    forall i | 0 <= i < |ns| - 1
      ensures ns[i].next == ns[i + 1]
    {
      if i + 1 > k {
        assert ns[i] == n0[i + 1] && ns[i + 1] == n0[i + 2];
      }
    }
  }

  class DoublyLinkedList<T(0)> {
    /** `_head`: the sentinel. */
    var head: Node<T>
    /** `_tail`: the last node, the head when the list is empty. */
    var tail: Node<T>
    /** The nodes after the head, in order. */
    ghost var nodes: seq<Node<T>>
    /** The values of `nodes`. */
    ghost var contents: seq<T>
    ghost var Repr: set<object>

    ghost predicate Valid()
      reads this, Repr
    {
      this in Repr && head in Repr
      && (forall i :: 0 <= i < |nodes| ==> nodes[i] in Repr)
      && Chain(head, tail, nodes, contents)
    }

    /** The node before `nodes[k]`: the head for the first one. */
    ghost function Before(k: nat): Node<T>
      reads this
      requires k < |nodes|
    {
      if k == 0 then head else nodes[k - 1]
    }

    lemma PrevIsBefore(k: nat)
      requires Valid() && k < |nodes|
      ensures nodes[k].prev == Before(k) && Before(k) in Repr
      ensures k + 1 < |nodes| ==> nodes[k].next == nodes[k + 1]
      ensures k + 1 == |nodes| ==> nodes[k].next == null && tail == nodes[k]
    {
    }

    /** A new list is the sentinel alone, and it is its own tail. */
    constructor ()
      ensures Valid() && fresh(Repr)
      ensures contents == [] && tail == head
    {
      var h := new Node<T>.Sentinel();
      head := h;
      tail := h;
      nodes := [];
      contents := [];
      Repr := {this, h};
    }

    /** `push`: append `v` at the tail; the returned node is what the returned remover unlinks. */
    method Push(v: T) returns (node: Node<T>)
      requires Valid()
      modifies Repr
      ensures Valid() && fresh(Repr - old(Repr))
      ensures contents == old(contents) + [v]
      ensures nodes == old(nodes) + [node] && fresh(node) && tail == node
    {
      node := new Node(v);
      tail.next := node;
      node.prev := tail;
      tail := node;
      nodes := nodes + [node];
      contents := contents + [v];
      Repr := Repr + {node};
      PushKeepsValid(node, v);
    }

    /** The links `push` sets leave a valid list. */
    twostate lemma PushKeepsValid(new node: Node<T>, v: T)
      requires old(Valid()) && !old(allocated(node))
      requires head == old(head) && tail == node && Repr == old(Repr) + {node}
      requires nodes == old(nodes) + [node] && contents == old(contents) + [v]
      requires node.value == v && node.prev == old(tail) && node.next == null && old(tail).next == node
      requires forall o: Node<T> :: o in old(Repr) ==> o.value == old(o.value) && o.prev == old(o.prev)
      requires forall o: Node<T> :: o in old(Repr) && o != old(tail) ==> o.next == old(o.next)
      ensures Valid()
    {
      ghost var n0 := old(nodes);
      ghost var c0 := old(contents);
      assert forall i :: 0 <= i < |n0| ==> n0[i] in old(Repr);
      forall i | 0 <= i < |nodes|
        ensures nodes[i].value == contents[i] && nodes[i] != head
      {
        if i < |n0| {
          assert nodes[i] == n0[i];
        }
      }
      forall i | 0 < i < |nodes|
        ensures nodes[i].prev == nodes[i - 1]
      {
        if i < |n0| {
          assert nodes[i] == n0[i] && nodes[i - 1] == n0[i - 1];
        }
      }
      forall i | 0 <= i < |nodes| - 1
        ensures nodes[i].next == nodes[i + 1]
      {
        assert nodes[i] == n0[i] && nodes[i + 1] == if i + 1 < |n0| then n0[i + 1] else node;
      }
      assert Distinct(nodes);
    }

    /** `unshift`: put `v` in front of every other value; it becomes the tail when the list was empty. */
    method Unshift(v: T)
      requires Valid()
      modifies Repr
      ensures Valid() && fresh(Repr - old(Repr))
      ensures contents == [v] + old(contents)
      ensures old(nodes) == [] ==> tail == nodes[0]
      ensures old(nodes) != [] ==> tail == old(tail)
    {
      var node := new Node(v);
      node.next := head.next;
      node.prev := head;
      head.next := node;
      if node.next != null {
        node.next.prev := node;
      } else {
        tail := node;
      }
      nodes := [node] + nodes;
      contents := [v] + contents;
      Repr := Repr + {node};
      UnshiftKeepsValid(node, v);
    }

    /** The links `unshift` sets leave a valid list. */
    twostate lemma UnshiftKeepsValid(new node: Node<T>, v: T)
      requires old(Valid()) && !old(allocated(node))
      requires head == old(head) && Repr == old(Repr) + {node}
      requires tail == (if old(nodes) == [] then node else old(tail))
      requires nodes == [node] + old(nodes) && contents == [v] + old(contents)
      requires node.value == v && node.prev == head && node.next == old(head.next) && head.next == node
      requires old(nodes) != [] ==> old(nodes)[0].prev == node
      requires forall o: Node<T> :: o in old(Repr) ==> o.value == old(o.value)
      requires forall o: Node<T> :: o in old(Repr) && o != old(head.next) ==> o.prev == old(o.prev)
      requires forall o: Node<T> :: o in old(Repr) && o != head ==> o.next == old(o.next)
      ensures Valid()
    {
      ghost var n0 := old(nodes);
      assert forall i :: 0 <= i < |n0| ==> n0[i] in old(Repr) && n0[i] != head;
      forall i | 0 <= i < |nodes|
        ensures nodes[i].value == contents[i] && nodes[i] != head
      {
        if i > 0 {
          assert nodes[i] == n0[i - 1];
        }
      }
      forall i | 0 < i < |nodes|
        ensures nodes[i].prev == nodes[i - 1]
      {
        assert nodes[i] == n0[i - 1];
        if i > 1 {
          assert nodes[i - 1] == n0[i - 2];
        }
      }
      forall i | 0 <= i < |nodes| - 1
        ensures nodes[i].next == nodes[i + 1]
      {
        assert nodes[i + 1] == n0[i];
        if i > 0 {
          assert nodes[i] == n0[i - 1];
        }
      }
      assert Distinct(nodes) by {
        forall i, j | 0 <= i < j < |nodes|
          ensures nodes[i] != nodes[j]
        {
          assert nodes[j] == n0[j - 1];
          if i > 0 {
            assert nodes[i] == n0[i - 1];
          }
        }
      }
    }

    /**
     * `_remove`: unlink `node` and clear its links; a node whose `prev` is
     * already null (removed before, or the head) is left alone.
     */
    method Remove(node: Node<T>)
      requires Valid()
      requires node.prev == null || node in nodes
      modifies Repr
      ensures Valid() && Repr <= old(Repr)
      ensures old(node.prev) == null ==> nodes == old(nodes) && contents == old(contents)
      ensures old(node.prev) != null ==>
        exists k :: 0 <= k < |old(nodes)| && old(nodes)[k] == node && Unlinked(old(nodes), old(contents), k)
      ensures node.prev == null && node !in nodes
    {
      if node.prev == null {
        if node in nodes {
          ghost var k :| 0 <= k < |nodes| && nodes[k] == node;
          PrevIsBefore(k);
          assert false;
        }
        return;
      }
      ghost var k :| 0 <= k < |nodes| && nodes[k] == node;
      Unlink(node, k);
    }

    /** The list without its `k`-th node. */
    ghost predicate Unlinked(nodes0: seq<Node<T>>, contents0: seq<T>, k: nat)
      reads this
      requires k < |nodes0| && |contents0| == |nodes0|
    {
      nodes == nodes0[..k] + nodes0[k + 1..] && contents == contents0[..k] + contents0[k + 1..]
    }

    /** The unlinking of `_remove` for the node at index `k`; the tail's predecessor becomes the tail. */
    method Unlink(node: Node<T>, ghost k: nat)
      requires Valid() && k < |nodes| && nodes[k] == node
      modifies Repr
      ensures Valid() && Repr <= old(Repr)
      ensures Unlinked(old(nodes), old(contents), k)
      ensures old(tail) == node ==> tail == old(node.prev)
      ensures node.prev == null && node !in nodes
    {
      PrevIsBefore(k);
      ghost var before := Before(k);
      ghost var after := node.next;
      nodes := nodes[..k] + nodes[k + 1..];
      contents := contents[..k] + contents[k + 1..];
      Repr := Repr - {node};
      node.prev.next := node.next;
      if node.next != null {
        node.next.prev := node.prev;
      } else {
        tail := node.prev;
      }
      node.prev := null;
      node.next := null;
      UnlinkKeepsValid(k, node, before, after);
    }

    /** The links `_remove` sets leave a valid list without the `k`-th node. */
    twostate lemma UnlinkKeepsValid(k: nat, new node: Node<T>, new before: Node<T>, new after: Node?<T>)
      requires old(Valid()) && k < |old(nodes)| && node == old(nodes)[k]
      requires before == (if k == 0 then old(head) else old(nodes)[k - 1])
      requires after == (if k + 1 < |old(nodes)| then old(nodes)[k + 1] else null)
      requires head == old(head) && Repr == old(Repr) - {node}
      requires nodes == old(nodes)[..k] + old(nodes)[k + 1..] && contents == old(contents)[..k] + old(contents)[k + 1..]
      requires tail == (if after == null then before else old(tail))
      requires before.next == after && (after != null ==> after.prev == before)
      requires forall o: Node<T> :: o in old(Repr) ==> o.value == old(o.value)
      requires forall o: Node<T> :: o in old(Repr) ==> o == node || o == after || o.prev == old(o.prev)
      requires forall o: Node<T> :: o in old(Repr) ==> o == node || o == before || o.next == old(o.next)
      ensures Valid() && nodes == old(nodes)[..k] + old(nodes)[k + 1..]
    {
      ghost var n0 := old(nodes);
      ghost var c0 := old(contents);
      assert forall i :: 0 <= i < |n0| ==> n0[i] in old(Repr) && n0[i] != head;
      forall i | 0 < i < |n0| && i != k && i != k + 1
        ensures n0[i].prev == n0[i - 1]
      {
        assert n0[i] != node && n0[i] != after;
        assert old(n0[i].prev) == n0[i - 1];
      }
      forall i | 0 <= i < |n0| - 1 && i != k && i + 1 != k
        ensures n0[i].next == n0[i + 1]
      {
        assert n0[i] != node && n0[i] != before;
        assert old(n0[i].next) == n0[i + 1];
      }
      assert forall i :: 0 <= i < |n0| && i != k ==> n0[i].value == c0[i];
      RemovedChain(head, tail, n0, c0, k);
      RemoveAt(n0, k, nodes);
    }

    /** `clear`: remove the tail until the tail is the head again. */
    method Clear()
      requires Valid()
      modifies Repr
      ensures Valid() && Repr <= old(Repr)
      ensures contents == [] && tail == head
    {
      while tail != head
        invariant Valid() && Repr <= old(Repr)
        decreases |nodes|
      {
        Remove(tail);
      }
    }

    /**
     * `iterate(func)`: call the callback with each index and value in order;
     * `halts(i, v)` stands for the callback returning `false` (no other value
     * stops it). True iff every call let it go on; `calls` is the call log.
     */
    method Iterate(halts: (nat, T) -> bool) returns (completed: bool, ghost calls: seq<(nat, T)>)
      requires Valid()
      ensures completed <==> Completes(contents, halts, 0)
      ensures calls == Visits(contents, halts, 0)
    {
      var node := head.next;
      var i: nat := 0;
      calls := [];
      while node != null
        invariant i <= |nodes|
        invariant node == (if i < |nodes| then nodes[i] else null)
        invariant forall j :: 0 <= j < i ==> !halts(j, contents[j])
        invariant |calls| == i && forall j :: 0 <= j < i ==> calls[j] == (j, contents[j])
        decreases |nodes| - i
      {
        calls := calls + [(i, node.value)];
        if halts(i, node.value) {
          VisitsLength(contents, halts, 0, i);
          return false, calls;
        }
        node := node.next;
        i := i + 1;
      }
      VisitsLength(contents, halts, 0, i);
      return true, calls;
    }
  }
}
