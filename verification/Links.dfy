/** Intrusive doubly linked lists, as the slab headers (src/tlh/tlh.c:25-34, 45-56, 146-158) and the span headers
    (src/engines/span.c:96-101, 158-161) are linked. */
module Links {
  import opened Common

  /** The link fields of a header; `body` is the rest of it. */
  class Node<T> {
    const body: T
    var next: Node?<T>
    var prev: Node?<T>

    constructor (body: T)
      ensures this.body == body && next == null && prev == null
    {
      this.body := body;
      next, prev := null, null;
    }
  }

  ghost function ItemAt<T>(items: seq<Node<T>>, k: int): Node?<T> {
    if 0 <= k < |items| then items[k] else null
  }

  /** Following `next` from `head` visits `items`, and `prev` leads back. */
  ghost predicate Linked<T>(head: Node?<T>, items: seq<Node<T>>)
    reads items
  {
    && NoDup(items)
    && head == ItemAt(items, 0)
    && (forall k {:trigger items[k].next} :: 0 <= k < |items| ==> items[k].next == ItemAt(items, k + 1))
    && (forall k {:trigger items[k].prev} :: 0 <= k < |items| ==> items[k].prev == ItemAt(items, k - 1))
  }

  ghost predicate Bodies<T>(items: seq<Node<T>>, bodies: seq<T>) {
    |bodies| == |items| && forall k :: 0 <= k < |items| ==> items[k].body == bodies[k]
  }

  /** A list head; `bodies` is what the list holds, in order. */
  class List<T> {
    var head: Node?<T>
    ghost var items: seq<Node<T>>
    ghost var bodies: seq<T>

    ghost predicate Valid()
      reads this, items
    {
      Linked(head, items) && Bodies(items, bodies)
    }

    constructor ()
      ensures Valid() && head == null && items == [] && bodies == []
    {
      head, items, bodies := null, [], [];
    }

    /** `x` goes in front of the list. */
    method PushFront(x: Node<T>)
      requires Valid() && x !in items
      modifies this`head, this`items, this`bodies, x`next, x`prev, items`prev
      ensures Valid() && items == [x] + old(items) && bodies == [x.body] + old(bodies)
    {
      x.prev := null;
      x.next := head;
      if head != null { head.prev := x; }
      head := x;
      items, bodies := [x] + items, [x.body] + bodies;
    }

    /** The first node leaves the list. */
    method PopFront() returns (x: Node<T>)
      requires Valid() && head != null
      modifies this`head, this`items, this`bodies, items`next, items`prev
      ensures old(items) != [] && x == old(head) == old(items)[0] && x.body == old(bodies)[0]
      ensures Valid() && items == old(items)[1..] && bodies == old(bodies)[1..] && x.next == null && x.prev == null
    {
      ghost var was := items;
      x := head;
      head := x.next;
      if head != null { head.prev := null; }
      x.next, x.prev := null, null;
      items, bodies := items[1..], bodies[1..];
      forall k | 0 <= k < |items| ensures items[k].next == ItemAt(items, k + 1) && items[k].prev == ItemAt(items, k - 1) {
        assert items[k] == was[k + 1];
        assert was[k + 1] == ItemAt(was, 1) <==> k == 0;
      }
    }

    /** Node number `at` leaves the list. */
    method Remove(x: Node<T>, ghost at: nat)
      requires Valid() && at < |items| && x == items[at]
      modifies this`head, this`items, this`bodies, items`next, items`prev
      ensures Valid() && items == old(items[..at] + items[at + 1..]) && bodies == old(bodies[..at] + bodies[at + 1..])
    {
      BodiesWithout(items, bodies, at);
      ghost var was := items;
      items, bodies := was[..at] + was[at + 1..], bodies[..at] + bodies[at + 1..];
      head := Unhook(head, x, was, at);
    }
  }

  /** Node number `at` of `l`, one of the two lists, leaves it.  The code does not know which of the two that is: it
      updates the head that points to the node, if one does. */
  method RemoveFrom<T>(x: Node<T>, a: List<T>, b: List<T>, ghost l: List<T>, ghost at: nat)
    requires a != b && (l == a || l == b) && l.Valid() && at < |l.items| && x == l.items[at]
    requires (l != a ==> a.head != x) && (l != b ==> b.head != x)
    modifies l`items, l`bodies, a`head, b`head, l.items`next, l.items`prev
    ensures l.Valid() && (l != a ==> a.head == old(a.head)) && (l != b ==> b.head == old(b.head))
    ensures l.items == old(l.items[..at] + l.items[at + 1..]) && l.bodies == old(l.bodies[..at] + l.bodies[at + 1..])
  {
    BodiesWithout(l.items, l.bodies, at);
    ghost var was := l.items;
    l.items, l.bodies := was[..at] + was[at + 1..], l.bodies[..at] + l.bodies[at + 1..];
    var next, first := x.next, x.prev == null;
    Bypass(x, l.head, was, at);
    if first {
      if a.head == x { a.head := next; } else if b.head == x { b.head := next; }
    }
    Unlinked(l.head, was, at);
  }

  lemma BodiesWithout<T>(items: seq<Node<T>>, bodies: seq<T>, at: nat)
    requires Bodies(items, bodies) && at < |items|
    ensures Bodies(items[..at] + items[at + 1..], bodies[..at] + bodies[at + 1..])
  {}

  method Unhook<T>(head: Node?<T>, x: Node<T>, ghost items: seq<Node<T>>, ghost at: nat) returns (first: Node?<T>)
    requires Linked(head, items) && at < |items| && x == items[at]
    modifies items`next, items`prev
    ensures Linked(first, items[..at] + items[at + 1..])
  {
    first := if x.prev == null then x.next else head;
    Bypass(x, head, items, at);
    Unlinked(first, items, at);
  }

  /** The neighbours of a node are linked to each other. */
  method Bypass<T>(x: Node<T>, ghost head: Node?<T>, ghost items: seq<Node<T>>, ghost at: nat)
    requires Linked(head, items) && at < |items| && x == items[at]
    modifies items`next, items`prev
    ensures forall j :: 0 <= j < |items| && j != at ==> PassesOver(items, at, j)
  {
    if x.prev != null { x.prev.next := x.next; }
    if x.next != null { x.next.prev := x.prev; }
    forall j | 0 <= j < |items| && j != at ensures PassesOver(items, at, j) {
      assert items[j] == ItemAt(items, at - 1) <==> j == at - 1;
      assert items[j] == ItemAt(items, at + 1) <==> j == at + 1;
    }
  }

  ghost predicate PassesOver<T>(items: seq<Node<T>>, at: nat, j: int)
    requires 0 <= j < |items|
    reads items[j]
  {
    && items[j].next == ItemAt(items, if j == at - 1 then at + 1 else j + 1)
    && items[j].prev == ItemAt(items, if j == at + 1 then at - 1 else j - 1)
  }

  /** A list whose links pass over number `at` is the list without it. */
  lemma Unlinked<T>(head: Node?<T>, items: seq<Node<T>>, at: nat)
    requires NoDup(items) && at < |items| && head == ItemAt(items, if at == 0 then 1 else 0)
    requires forall j :: 0 <= j < |items| && j != at ==> PassesOver(items, at, j)
    ensures Linked(head, items[..at] + items[at + 1..])
  {
    var rest := items[..at] + items[at + 1..];
    ItemWithout(items, at, 0);
    forall k | 0 <= k < |rest| ensures rest[k].next == ItemAt(rest, k + 1) && rest[k].prev == ItemAt(rest, k - 1) {
      var j := if k < at then k else k + 1;
      ItemWithout(items, at, k - 1);
      ItemWithout(items, at, k);
      ItemWithout(items, at, k + 1);
      assert rest[k] == items[j] && PassesOver(items, at, j);
    }
    forall i, k | 0 <= i < k < |rest| ensures rest[i] != rest[k] {
      ItemWithout(items, at, i);
      ItemWithout(items, at, k);
    }
  }

  lemma MembersWithout<T>(items: seq<Node<T>>, at: nat)
    requires NoDup(items) && at < |items|
    ensures forall x :: x in items[..at] + items[at + 1..] ==> x in items && x != items[at]
  {}

  lemma ItemWithout<T>(items: seq<Node<T>>, at: nat, k: int)
    requires at < |items|
    ensures ItemAt(items[..at] + items[at + 1..], k) == ItemAt(items, if k < at then k else k + 1)
  {}
}
