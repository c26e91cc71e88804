/** The intrusive doubly linked list of memory blocks: linked nodes that stand for a sequence of distinct
    blocks. */
module MemList {

  class MemoryBlock {
    var next: MemoryBlock?
    var prev: MemoryBlock?

    constructor ()
      ensures next == null && prev == null
    {
      next, prev := null, null;
    }

    predicate Detached()
      reads this
    {
      next == null && prev == null
    }
  }

  predicate Distinct<T(==)>(s: seq<T>) { forall i, j :: 0 <= i < j < |s| ==> s[i] != s[j] }

  /** The sequence with every occurrence of x left out. */
  function Without<T(==)>(s: seq<T>, x: T): seq<T> {
    if s == [] then [] else (if s[0] == x then [] else [s[0]]) + Without(s[1..], x)
  }

  lemma {:induction false} WithoutAbsent<T>(s: seq<T>, x: T)
    requires x !in s
    ensures Without(s, x) == s
  {
    if s != [] {
      WithoutAbsent(s[1..], x);
    }
  }

  /** Taking a block out of distinct blocks closes the gap and keeps the others in order. */
  lemma {:induction false} WithoutAt<T>(s: seq<T>, k: nat)
    requires Distinct(s) && k < |s|
    ensures Without(s, s[k]) == s[..k] + s[k + 1..]
  {
    if k == 0 {
      WithoutAbsent(s[1..], s[0]);
    } else {
      WithoutAt(s[1..], k - 1);
      assert s[1..][k - 1] == s[k] && s[1..][k - 1 + 1..] == s[k + 1..];
      assert [s[0]] + s[1..][..k - 1] == s[..k];
    }
  }

  lemma {:induction false} WithoutElements<T>(s: seq<T>, x: T)
    ensures forall y :: y in Without(s, x) <==> y in s && y != x
    ensures Distinct(s) ==> Distinct(Without(s, x))
  {
    if s != [] {
      WithoutElements(s[1..], x);
      var t := Without(s[1..], x);
      if Distinct(s) && s[0] != x {
        assert Without(s, x) == [s[0]] + t && s[0] !in t;
      }
    }
  }

  lemma WithoutCons<T>(z: T, s: seq<T>, x: T)
    ensures Without([z] + s, x) == (if z == x then [] else [z]) + Without(s, x)
  {
    assert ([z] + s)[1..] == s;
  }

  /** The order of deletions does not matter. */
  lemma {:induction false} DeletionsCommute<T>(s: seq<T>, x: T, y: T)
    ensures Without(Without(s, x), y) == Without(Without(s, y), x)
  {
    if s != [] {
      DeletionsCommute(s[1..], x, y);
      var a, b := Without(s[1..], x), Without(s[1..], y);
      WithoutCons(s[0], a, y);
      WithoutCons(s[0], b, x);
      assert [] + a == a && [] + b == b;
    }
  }

  /** Deleting what has just been pushed gives back the list. */
  lemma PushThenDelete<T>(s: seq<T>, x: T)
    requires x !in s
    ensures Without([x] + s, x) == s
  {
    assert ([x] + s)[1..] == s;
    WithoutAbsent(s, x);
  }

  class MemList {
    var head: MemoryBlock?
    ghost var nodes: seq<MemoryBlock>

    /** The links of the nodes are exactly those of the sequence, in both directions. */
    ghost predicate Valid()
      reads this, nodes
    {
      && Distinct(nodes)
      && head == (if nodes == [] then null else nodes[0])
      && (forall i {:trigger nodes[i].prev} :: 0 <= i < |nodes| ==>
            nodes[i].prev == if i == 0 then null else nodes[i - 1])
      && (forall i {:trigger nodes[i].next} :: 0 <= i < |nodes| ==>
            nodes[i].next == if i + 1 == |nodes| then null else nodes[i + 1])
    }

    constructor ()
      ensures Valid() && nodes == []
    {
      head, nodes := null, [];
    }

    method Push(newItem: MemoryBlock)
      requires Valid() && newItem !in nodes
      modifies this, newItem, head
      ensures Valid() && nodes == [newItem] + old(nodes)
    {
      if head == null {
        head := newItem;
        newItem.next := null;
        newItem.prev := null;
        nodes := [newItem];
        return;
      }
      var temp := head;
      head := newItem;
      head.next := temp;
      head.prev := null;
      temp.prev := head;
      nodes := [newItem] + nodes;
    }

    method Front() returns (front: MemoryBlock?)
      requires Valid()
      ensures front == if nodes == [] then null else nodes[0]
    {
      return head;
    }

    method Pop() returns (item: MemoryBlock?)
      requires Valid()
      modifies this, nodes
      ensures Valid()
      ensures if old(nodes) == [] then item == null && nodes == []
              else item == old(nodes)[0] && nodes == old(nodes)[1..] && item.Detached()
    {
      if head == null {
        return null;
      }
      var temp := head;
      head := head.next;
      if head != null {
        head.prev := null;
      }
      temp.next := null;
      temp.prev := null;
      nodes := nodes[1..];
      return temp;
    }

    /** Join the neighbours of a block that is not the head, if it has any, and detach it. Its position is
        `k`, or negative when it is in no list. */
    method Unlink(item: MemoryBlock, ghost k: int)
      requires Valid() && k < |nodes|
      requires if k < 0 then item !in nodes && item.Detached() else 0 < k && nodes[k] == item
      modifies this, nodes, item
      ensures Valid() && nodes == (if k < 0 then old(nodes) else old(nodes)[..k] + old(nodes)[k + 1..])
      ensures item.Detached()
    {
      var prev, next := item.prev, item.next;
      if prev != null {
        prev.next := next;
      }
      if next != null {
        next.prev := prev;
      }
      item.next := null;
      item.prev := null;
      nodes := if k < 0 then nodes else nodes[..k] + nodes[k + 1..];
    }

    /** Take out a block of the list, or leave the list as it is for a block that is in no list. */
    method Delete(item: MemoryBlock)
      requires Valid() && (item in nodes || item.Detached())
      modifies this, nodes, item
      ensures Valid() && nodes == Without(old(nodes), item) && item.Detached()
    {
      hide Without;
      if head == item {
        WithoutAt(nodes, 0);
        var temp := head;
        head := head.next;
        if head != null {
          head.prev := null;
        }
        temp.next := null;
        temp.prev := null;
        nodes := nodes[1..];
        return;
      }
      ghost var k: int := -1;
      if item in nodes {
        k :| 0 <= k < |nodes| && nodes[k] == item;
        WithoutAt(nodes, k);
      } else {
        WithoutAbsent(nodes, item);
      }
      Unlink(item, k);
    }

    /** Delete the head until there is none; every block ends up detached. */
    method Reset()
      requires Valid()
      modifies this, nodes
      ensures Valid() && nodes == []
      ensures forall n :: n in old(nodes) ==> n.Detached()
    {
      ghost var before, i := nodes, 0;
      while head != null
        invariant 0 <= i <= |before| && Valid() && nodes == before[i..]
        invariant forall k :: 0 <= k < i ==> before[k].Detached()
        decreases |nodes|
      {
        WithoutAt(nodes, 0);
        forall n | n in nodes ensures n in before {}
        Delete(head);
        i := i + 1;
      }
    }
  }
}
