// The intrusive doubly linked list of pre-allocated links that the session
// pool and the rooms are built from (server/pecas/lista.go).
//
// A Go panic is modelled by an out-parameter `panicked`; the fields then hold
// what the panic leaves behind, because gin recovers a panic of an accept and
// the server goes on with that state.
module LinkedList {
  import opened Sequences

  class Link<T> {
    var prev: Link?<T>
    var next: Link?<T>
    var list: List?<T>
    const Value: T

    constructor (value: T)
      ensures prev == null && next == null && list == null && Value == value
    {
      prev, next, list, Value := null, null, null, value;
    }

    /** Unlinks this link from whatever list owns it; fails when none does. */
    method RemoveFromList() returns (failed: bool)
      requires list != null ==> list.Valid() && this in list.links
      modifies this, if list == null then {} else {list} + Elems(list.links)
      ensures failed <==> old(list) == null
      ensures failed ==> unchanged(this)
      ensures !failed ==> this.Detached() && old(list).Valid()
      ensures !failed ==> old(list).links == Without(old(list.links), this)
    {
      if list == null {
        return true;
      }
      var panicked := list.RemoveLink(this);
      failed := false;
    }

    ghost predicate Detached()
      reads this
    {
      prev == null && next == null && list == null
    }
  }

  class List<T> {
    var head: Link?<T>
    var tail: Link?<T>
    var size: int

    // The chain from head to tail.
    ghost var links: seq<Link<T>>

    /** The next chain, the prev chain, the size and the ownership marks agree. */
    ghost predicate Valid()
      reads this, links
    {
      && size == |links|
      && Distinct(links)
      && (if links == [] then head == null && tail == null
          else head == links[0] && tail == links[|links| - 1])
      && (forall i {:trigger links[i].list} :: 0 <= i < |links| ==> links[i].list == this)
      && (forall i {:trigger links[i].prev} :: 0 <= i < |links| ==> links[i].prev == if i == 0 then null else links[i - 1])
      && (forall i {:trigger links[i].next} :: 0 <= i < |links| ==> links[i].next == if i == |links| - 1 then null else links[i + 1])
    }

    /** What TakeLink leaves of a list of one link: the tail is lost, the rest is not. */
    ghost predicate Wedged()
      reads this, links
    {
      && size == 1 == |links| && head == links[0] && tail == null
      && links[0].list == this && links[0].prev == null && links[0].next == null
    }

    lemma Owns()
      requires Valid() || Wedged()
      ensures forall l :: l in links ==> l.list == this
      ensures tail != null ==> tail in links
    {
    }

    lemma NotBoth()
      ensures !(Valid() && Wedged())
    {
    }

    constructor ()
      ensures Valid() && links == []
    {
      head, tail, size, links := null, null, 0, [];
    }

    /** Appends a link that is in no chain; on a wedged list the missing tail is dereferenced. */
    method AddLink(link: Link<T>) returns (panicked: bool)
      requires Valid() || Wedged()
      requires link !in links
      modifies this, link, if tail == null then {} else {tail}
      ensures panicked <==> !old(Valid())
      ensures !panicked ==> Valid() && links == old(links) + [link]
    {
      size := size + 1;
      link.list := this;
      if head == null && tail == null {
        head := link;
        tail := link;
        link.prev := null;
        link.next := null;
        links := [link];
        return false;
      }
      link.prev := tail;
      link.next := null;
      if tail == null {
        return true;
      }
      tail.next := link;
      tail := link;
      links := links + [link];
      panicked := false;
    }

    /** Deletes a link from the chain wherever it stands; panics on a link it does not own. */
    method RemoveLink(link: Link<T>) returns (panicked: bool)
      requires Valid()
      requires link.list == this <==> link in links
      modifies this, links
      ensures panicked <==> old(link.list) != this
      ensures panicked ==> unchanged(this)
      ensures Valid() && links == Without(old(links), link)
      ensures !panicked ==> link.Detached()
    {
      hide Without, Wedged;
      if link.list != this {
        WithoutAbsent(links, link);
        return true;
      }
      ghost var k, rest := Deletion(links, link);
      assert link.prev == if k == 0 then null else links[k - 1];
      assert link.next == if k == size - 1 then null else links[k + 1];
      if head == link {
        head := link.next;
      }
      if tail == link {
        tail := link.prev;
      }
      var prev := link.prev;
      var next := link.next;
      link.prev := null;
      link.next := null;
      link.list := null;
      if prev != null {
        prev.next := next;
      }
      if next != null {
        next.prev := prev;
      }
      size := size - 1;
      links := rest;
      panicked := false;
    }

    /** Pops the last link. With one link left the new tail is nil and is dereferenced:
        the list is left wedged. */
    method TakeLink() returns (panicked: bool, link: Link?<T>)
      requires Valid() || Wedged()
      modifies this, links
      ensures panicked <==> |old(links)| <= 1
      ensures panicked ==> link == null && links == old(links)
      ensures |old(links)| == 1 ==> Wedged()
      ensures |old(links)| == 0 ==> Valid()
      ensures !panicked ==> Valid() && link != null && link.Detached()
      ensures !panicked ==> links == old(links)[..|old(links)| - 1] && link == old(links)[|links|]
    {
      if size == 0 {
        return true, null;
      }
      if tail == null {
        return true, null;
      }
      var prev := tail.prev;
      link := tail;
      tail := prev;
      if prev == null {
        return true, null;
      }
      prev.next := null;
      link.prev := null;
      link.next := null;
      link.list := null;
      size := size - 1;
      links := links[..|links| - 1];
      panicked := false;
    }

    /** Calls a visitor on every value in chain order; the visits are collected. */
    method ForEach() returns (visited: seq<T>)
      requires Valid()
      ensures |visited| == |links|
      ensures forall i :: 0 <= i < |links| ==> visited[i] == links[i].Value
    {
      visited := [];
      var current := head;
      while current != null
        invariant |visited| <= |links|
        invariant |visited| < |links| ==> current == links[|visited|]
        invariant |visited| == |links| ==> current == null
        invariant forall i :: 0 <= i < |visited| ==> visited[i] == links[i].Value
        decreases |links| - |visited|
      {
        visited := visited + [current.Value];
        current := current.next;
      }
    }
  }
}
