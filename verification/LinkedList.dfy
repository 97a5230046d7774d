/** The doubly linked list of Go's container/list: a ring of elements closed by a
    sentinel, as the cache uses it. */
module LinkedList {
  import opened MessageObjects

  class CacheEntry {
    const key: string
    var msg: Message
    var expiry: int

    constructor (key: string, msg: Message, expiry: int)
      ensures this.key == key && this.msg == msg && this.expiry == expiry
    {
      this.key, this.msg, this.expiry := key, msg, expiry;
    }

    /** Overwrites message and expiry in place, storing a copy of the message. */
    method Overwrite(r: Message, expiry: int)
      modifies this
      ensures fresh(msg) && msg.value == old(r.value) && this.expiry == expiry
    {
      msg := r.Copy();
      this.expiry := expiry;
    }
  }

  class Element {
    var next: Element?
    var prev: Element?
    const value: CacheEntry?

    constructor (value: CacheEntry?)
      ensures this.value == value
    {
      next, prev, this.value := null, null, value;
    }
  }

  /** A list without one of its elements. */
  ghost function Minus(s: seq<Element>, e: Element): seq<Element> {
    if s == [] then [] else if s[0] == e then s[1..] else [s[0]] + Minus(s[1..], e)
  }

  lemma {:induction false} MinusAt(s: seq<Element>, i: nat)
    requires i < |s| && forall j :: 0 <= j < i ==> s[j] != s[i]
    ensures Minus(s, s[i]) == s[..i] + s[i + 1..]
  {
    if i > 0 {
      var t := s[1..];
      forall j | 0 <= j < i - 1 ensures t[j] != t[i - 1] {
        assert t[j] == s[j + 1];
      }
      MinusAt(t, i - 1);
      assert s[..i] == [s[0]] + t[..i - 1] && t[i..] == s[i + 1..];
    }
  }

  ghost predicate NoRepeats(s: seq<Element>) {
    forall i, j :: 0 <= i < j < |s| ==> s[i] != s[j]
  }

  lemma MinusPosition(s: seq<Element>, e: Element) returns (i: nat)
    requires e in s && NoRepeats(s)
    ensures i < |s| && s[i] == e && Minus(s, e) == s[..i] + s[i + 1..]
    ensures |Minus(s, e)| == |s| - 1
    ensures e !in Minus(s, e)
  {
    i :| 0 <= i < |s| && s[i] == e;
    MinusAt(s, i);
  }

  class List {
    const root: Element
    var len: nat
    ghost var elems: seq<Element>     // the elements in list order
    ghost var nodes: set<Element>     // the sentinel and every element ever linked

    ghost predicate Valid()
      reads this, nodes
    {
      len == |elems| && Shape()
    }

    ghost predicate Shape()
      reads this, nodes
    {
      && root in nodes
      && (forall i :: 0 <= i < |elems| ==> elems[i] in nodes && elems[i] != root)
      && NoRepeats(elems)
      && Linked()
    }

    /** The ring: the sentinel, then the elements in order, then the sentinel again. */
    ghost predicate Linked()
      requires root in nodes && forall i :: 0 <= i < |elems| ==> elems[i] in nodes
      reads this, nodes
    {
      var n := |elems|;
      && root.next == (if n == 0 then root else elems[0])
      && root.prev == (if n == 0 then root else elems[n - 1])
      && (n > 0 ==> elems[0].prev == root && elems[n - 1].next == root)
      && (forall i {:trigger elems[i].next} :: 0 <= i < n - 1 ==> elems[i].next == elems[i + 1])
      && (forall i {:trigger elems[i].prev} :: 1 <= i < n ==> elems[i].prev == elems[i - 1])
    }

    constructor ()
      ensures Valid() && elems == [] && fresh(nodes)
    {
      var r := new Element(null);
      r.next, r.prev := r, r;
      root, len, elems, nodes := r, 0, [], {r};
    }

    /** Takes the i-th element out of the ring, leaving its own links alone. */
    method Unlink(e: Element, ghost i: nat)
      requires Shape() && i < |elems| && elems[i] == e
      modifies this`elems, nodes`next, nodes`prev
      ensures Shape()
      ensures elems == old(elems)[..i] + old(elems)[i + 1..]
    {
      e.prev.next := e.next;
      e.next.prev := e.prev;
      elems := elems[..i] + elems[i + 1..];
    }

    /** The same, the element found by identity. */
    method Take(e: Element)
      requires Shape() && e in elems
      modifies this`elems, nodes`next, nodes`prev
      ensures Shape() && e in nodes && e != root && e !in elems
      ensures elems == Minus(old(elems), e) && |elems| == |old(elems)| - 1
    {
      ghost var i := MinusPosition(elems, e);
      Unlink(e, i);
    }

    /** Clears the links of an element that is not in the ring. */
    method Detach(e: Element)
      requires Shape() && e in nodes && e != root && e !in elems
      modifies e`next, e`prev
      ensures Shape()
    {
      e.next := null;
      e.prev := null;
    }

    /** Puts an element that is not in the ring right after the sentinel. */
    method LinkFront(e: Element)
      requires Shape() && e != root && e !in elems
      modifies this`elems, this`nodes, nodes`next, nodes`prev, e`next, e`prev
      ensures Shape()
      ensures elems == [e] + old(elems) && nodes == old(nodes) + {e}
    {
      nodes := nodes + {e};
      e.prev := root;
      e.next := root.next;
      e.prev.next := e;
      e.next.prev := e;
      elems := [e] + elems;
    }

    method PushFront(v: CacheEntry) returns (e: Element)
      requires Valid()
      modifies this`len, this`elems, this`nodes, nodes`next, nodes`prev
      ensures Valid() && fresh(e) && e.value == v
      ensures elems == [e] + old(elems) && nodes == old(nodes) + {e}
    {
      e := new Element(v);
      LinkFront(e);
      len := len + 1;
    }

    method Remove(e: Element)
      requires Valid() && e in elems
      modifies this`len, this`elems, nodes`next, nodes`prev
      ensures Valid()
      ensures elems == Minus(old(elems), e)
    {
      Take(e);
      Detach(e);
      len := len - 1;
    }

    method MoveToFront(e: Element)
      requires Valid() && e in elems
      modifies this`elems, this`nodes, nodes`next, nodes`prev
      ensures Valid() && nodes == old(nodes)
      ensures elems == [e] + Minus(old(elems), e)
    {
      if root.next == e {
        assert elems == [e] + elems[1..];
        return;
      }
      Take(e);
      LinkFront(e);
      assert nodes == old(nodes);
    }

    method Back() returns (e: Element?)
      requires Valid()
      ensures e == if elems == [] then null else elems[|elems| - 1]
    {
      if len == 0 {
        return null;
      }
      e := root.prev;
    }
  }
}
