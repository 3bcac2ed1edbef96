// The intrusive doubly linked queue.  A head and the links of the elements form one ring; what is
// queued is the sequence of elements met on the way round.

module Queue {

  class Link {
    var next: Link?
    var prev: Link?

    constructor ()
    {
      next, prev := null, null;
    }
  }

  class Queue {
    const head: Link
    ghost var elems: seq<Link>

    // Position i of the ring; the head is both before the first element and after the last.
    ghost function At(i: int): Link
      requires -1 <= i <= |elems|
      reads this
    {
      if 0 <= i < |elems| then elems[i] else head
    }

    ghost predicate Linked(i: int)
      requires -1 <= i < |elems|
      reads this, head, elems
    {
      At(i).next == At(i + 1) && At(i + 1).prev == At(i)
    }

    ghost predicate Distinct()
      reads this
    {
      head !in elems && forall i, j :: 0 <= i < j < |elems| ==> elems[i] != elems[j]
    }

    ghost predicate Valid()
      reads this, head, elems
    {
      Distinct() && forall i :: -1 <= i < |elems| ==> Linked(i)
    }

    // queue_init
    constructor ()
      ensures Valid() && elems == [] && fresh(head)
    {
      head := new Link();
      elems := [];
      new;
      head.next, head.prev := head, head;
    }

    // queue_empty
    method IsEmpty() returns (empty: bool)
      requires Valid()
      ensures empty <==> elems == []
    {
      assert Linked(-1);
      empty := head.next == head;
    }

    // queue_enter: append.
    method Enter(elt: Link)
      requires Valid() && elt != head && elt !in elems
      modifies this, head, elems, elt
      ensures Valid() && elems == old(elems) + [elt]
    {
      ghost var n := |elems|;
      assert Linked(n - 1) && Linked(-1);
      var prev := head.prev;
      if head == prev {
        head.next := elt;
      } else {
        prev.next := elt;
      }
      elt.prev := prev;
      elt.next := head;
      head.prev := elt;
      elems := elems + [elt];
      forall i | -1 <= i < |elems| ensures Linked(i) {
        assert i < n ==> old(Linked(i));
      }
    }

    // queue_enter_first: prepend.
    method EnterFirst(elt: Link)
      requires Valid() && elt != head && elt !in elems
      modifies this, head, elems, elt
      ensures Valid() && elems == [elt] + old(elems)
    {
      ghost var n := |elems|;
      assert Linked(n - 1) && Linked(-1);
      var next := head.next;
      if head == next {
        head.prev := elt;
      } else {
        next.prev := elt;
      }
      elt.next := next;
      elt.prev := head;
      head.next := elt;
      elems := [elt] + elems;
      forall i | -1 <= i < |elems| ensures Linked(i) {
        assert i > 0 ==> old(Linked(i - 1));
      }
    }

    // queue_remove: take out element k, wherever it is.
    method Remove(elt: Link, ghost k: nat)
      requires Valid() && k < |elems| && elems[k] == elt
      modifies this, head, elems
      ensures Valid() && elems == old(elems[..k] + elems[k + 1..])
    {
      assert Linked(k) && Linked(k - 1);
      var next, prev := elt.next, elt.prev;
      if head == next {
        head.prev := prev;
      } else {
        next.prev := prev;
      }
      if head == prev {
        head.next := next;
      } else {
        prev.next := next;
      }
      elems := elems[..k] + elems[k + 1..];
      forall i | -1 <= i < |elems| ensures Linked(i) {
        assert old(Linked(if i < k then i else i + 1));
      }
    }

    // queue_remove_first
    method RemoveFirst() returns (entry: Link)
      requires Valid() && elems != []
      modifies this, head, elems
      ensures Valid() && [entry] + elems == old(elems)
    {
      assert Linked(-1) && Linked(0);
      entry := head.next;
      var next := entry.next;
      if head == next {
        head.prev := head;
      } else {
        next.prev := head;
      }
      head.next := next;
      elems := elems[1..];
      forall i | -1 <= i < |elems| ensures Linked(i) {
        assert old(Linked(i + 1));
      }
    }

    // queue_remove_last
    method RemoveLast() returns (entry: Link)
      requires Valid() && elems != []
      modifies this, head, elems
      ensures Valid() && elems + [entry] == old(elems)
    {
      ghost var n := |elems|;
      assert Linked(n - 1) && Linked(n - 2);
      entry := head.prev;
      var prev := entry.prev;
      if head == prev {
        head.next := head;
      } else {
        prev.next := head;
      }
      head.prev := prev;
      elems := elems[..n - 1];
      forall i | -1 <= i < |elems| ensures Linked(i) {
        assert old(Linked(i));
      }
    }

    // queue_iterate visits the elements in order, each once.
    method Iterate() returns (visited: seq<Link>)
      requires Valid()
      ensures visited == elems
    {
      visited := [];
      assert Linked(-1);
      var elt := head.next;
      while elt != head
        invariant |visited| <= |elems| && visited == elems[..|visited|] && elt == At(|visited|)
        decreases |elems| - |visited|
      {
        assert Linked(|visited|);
        visited := visited + [elt];
        elt := elt.next;
      }
    }

    // The walk by queue_last and queue_prev is the same one backwards.
    method IterateBack() returns (visited: seq<Link>)
      requires Valid()
      ensures |visited| == |elems| && forall k :: 0 <= k < |elems| ==> visited[k] == elems[|elems| - 1 - k]
    {
      visited := [];
      assert Linked(|elems| - 1);
      var elt := head.prev;
      while elt != head
        invariant |visited| <= |elems| && elt == At(|elems| - 1 - |visited|)
        invariant forall k :: 0 <= k < |visited| ==> visited[k] == elems[|elems| - 1 - k]
        decreases |elems| - |visited|
      {
        assert Linked(|elems| - 2 - |visited|);
        visited := visited + [elt];
        elt := elt.prev;
      }
    }
  }

  // The list of all objects of the pager, with its count.
  class VstructList {
    const queue: Queue
    var count: nat

    ghost predicate Valid()
      reads this, queue, queue.head, queue.elems
    {
      queue.Valid() && count == |queue.elems|
    }

    constructor ()
      ensures Valid() && queue.elems == [] && fresh(queue) && fresh(queue.head)
    {
      queue := new Queue();
      count := 0;
    }

    // vstruct_list_insert
    method Insert(vs: Link)
      requires Valid() && vs != queue.head && vs !in queue.elems
      modifies this, queue, queue.head, queue.elems, vs
      ensures Valid() && queue.elems == old(queue.elems) + [vs]
    {
      queue.Enter(vs);
      count := count + 1;
    }

    // vstruct_list_delete
    method Delete(vs: Link, ghost k: nat)
      requires Valid() && k < |queue.elems| && queue.elems[k] == vs
      modifies this, queue, queue.head, queue.elems
      ensures Valid() && queue.elems == old(queue.elems[..k] + queue.elems[k + 1..])
    {
      queue.Remove(vs, k);
      count := count - 1;
    }
  }
}
