/**
 * The singly linked list of cbuilder/cbuilder_list.h. A list is a chain of heap nodes; each
 * node holds an opaque data pointer (here a value of the type parameter) and a link to the
 * next node. The chain a pointer starts is described by a ghost "spine": the sequence of its
 * nodes in link order.
 */
module CBuilderList {

  /** MAX_ITERATION: the most links pushBack follows before giving up. */
  const MaxIteration: nat := 1000000

  /** One node: its payload and the link to the next node, NULL at the end of the list. */
  class ListNode<T> {
    var data: T
    var next: ListNode?<T>

    /** CBuilder_List_init: a fresh one-node list. */
    constructor Init(data: T)
      ensures this.data == data && next == null
      ensures IsSpine([this])
    {
      this.data := data;
      next := null;
    }
  }

  /**
   * `spine` is a walk along the links: every node links to the one after it. Nodes may
   * repeat when the links form a cycle.
   */
  ghost predicate IsChain<T>(spine: seq<ListNode<T>>)
    reads spine
  {
    |spine| > 0 && forall i :: 0 <= i < |spine| - 1 ==> spine[i].next == spine[i + 1]
  }

  /** `spine` is a whole list: a walk along the links that ends at a node whose link is NULL. */
  ghost predicate IsSpine<T>(spine: seq<ListNode<T>>)
    reads spine
  {
    IsChain(spine) && spine[|spine| - 1].next == null
  }

  /** The list a (possibly NULL) pointer starts: NULL is the empty list. */
  ghost predicate IsList<T>(root: ListNode?<T>, spine: seq<ListNode<T>>)
    reads spine
  {
    if root == null then spine == [] else IsSpine(spine) && spine[0] == root
  }

  /** The payloads of a list, in link order. */
  ghost function Values<T>(spine: seq<ListNode<T>>): (vs: seq<T>)
    reads spine
    ensures |vs| == |spine|
    ensures forall i :: 0 <= i < |spine| ==> vs[i] == spine[i].data
  {
    if spine == [] then [] else [spine[0].data] + Values(spine[1..])
  }

  /**
   * Only the last node of a list has a NULL link, so a list has no cycle: no node appears
   * twice, and walking the links from the first node visits each node exactly once.
   */
  lemma {:induction false} SpineDistinct<T>(spine: seq<ListNode<T>>)
    requires IsSpine(spine)
    ensures forall i, j :: 0 <= i < j < |spine| ==> spine[i] != spine[j]
  {
    forall i, j | 0 <= i < j < |spine|
      ensures spine[i] != spine[j]
    {
      SpineDistinctAt(spine, i, j);
    }
  }

  lemma {:induction false} SpineDistinctAt<T>(spine: seq<ListNode<T>>, i: nat, j: nat)
    requires IsSpine(spine) && i < j < |spine|
    ensures spine[i] != spine[j]
    decreases |spine| - j
  {
    assert spine[i].next == spine[i + 1];
    if j < |spine| - 1 {
      SpineDistinctAt(spine, i + 1, j + 1);
      assert spine[j].next == spine[j + 1];
    }
  }

  /** The only node of a list whose link is NULL is its last one. */
  lemma OnlyLastEndsSpine<T>(spine: seq<ListNode<T>>, k: nat)
    requires IsSpine(spine) && k < |spine|
    ensures spine[k].next == null <==> k == |spine| - 1
  {
    if k < |spine| - 1 {
      assert spine[k].next == spine[k + 1];
    }
  }

  /**
   * CBuilder_List_pushBack: walks to the last node, following at most MaxIteration links,
   * and links a fresh node holding `data` after it. The counter is tested before it is
   * incremented, so a list of MaxIteration nodes still accepts a push and a longer one is
   * refused, untouched, with the NULL result. The walk the call may take is given as
   * `spine`: the whole list, or, when the links do not reach NULL within MaxIteration of
   * them (a longer list, or a cycle), a walk of more than MaxIteration nodes, which the
   * call gives up on.
   */
  method PushBack<T>(root: ListNode<T>, data: T, ghost spine: seq<ListNode<T>>) returns (r: ListNode?<T>)
    requires IsChain(spine) && spine[0] == root
    requires spine[|spine| - 1].next == null || |spine| > MaxIteration
    modifies spine[|spine| - 1]
    ensures r == null <==> |spine| > MaxIteration
    ensures r == null ==> unchanged(spine[|spine| - 1])
    ensures r != null ==> old(IsSpine(spine))
    ensures r != null ==> fresh(r) && r.data == data && r.next == null
    ensures r != null ==> spine[|spine| - 1].next == r && IsSpine(spine + [r])
    ensures r != null ==> Values(spine + [r]) == old(Values(spine)) + [data]
  {
    var i := 0;
    var node := root;
    ghost var k := 0;
    while true
      invariant 0 <= k < |spine| && node == spine[k]
      invariant i == k <= MaxIteration
      decreases MaxIteration - i
    {
      var below := i < MaxIteration;
      i := i + 1;
      if !below {
        break;
      }
      if k < |spine| - 1 {
        assert spine[k].next == spine[k + 1];
      }
      if node.next == null {
        break;
      }
      node := node.next;
      k := k + 1;
    }
    if i > MaxIteration {
      return null;
    }
    ghost var values := Values(spine);
    r := new ListNode.Init(data);
    node.next := r;
    assert forall j :: 0 <= j < |spine| ==> (spine + [r])[j] == spine[j];
    assert Values(spine + [r]) == values + [data];
  }

  /**
   * A node whose link points back to itself: walking it MaxIteration times gives a chain of
   * MaxIteration + 1 nodes, so PushBack accepts it and gives up with NULL.
   */
  lemma SelfLoopIsLongChain<T>(node: ListNode<T>)
    requires node.next == node
    ensures IsChain(seq(MaxIteration + 1, _ => node))
    ensures |seq(MaxIteration + 1, _ => node)| > MaxIteration
  {
    var walk := seq(MaxIteration + 1, _ => node);
    forall i | 0 <= i < |walk| - 1
      ensures walk[i].next == walk[i + 1]
    {
      assert walk[i] == node && walk[i + 1] == node;
    }
  }

  /**
   * CBuilder_List_deinit: walks the list from `root`, freeing each node after reading its
   * link. The nodes handed to free are returned in order: every node of the list, each
   * exactly once.
   */
  method Deinit<T>(root: ListNode?<T>, ghost spine: seq<ListNode<T>>) returns (freed: seq<ListNode<T>>)
    requires IsList(root, spine)
    ensures freed == spine
    ensures forall i, j :: 0 <= i < j < |freed| ==> freed[i] != freed[j]
  {
    freed := [];
    var node := root;
    ghost var k := 0;
    while node != null
      invariant 0 <= k <= |spine| && freed == spine[..k]
      invariant if k < |spine| then node == spine[k] else node == null
      decreases |spine| - k
    {
      var f := node;
      node := node.next;
      freed := freed + [f];
      k := k + 1;
    }
    assert spine[..k] == spine;
    if spine != [] {
      SpineDistinct(spine);
    }
  }
}
