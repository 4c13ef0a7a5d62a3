/** The doubly linked list: insertion after an element, removal, emptying from the tail. */
module LinkedList {
  import opened Subsequences

  class Node<T> {
    var ptr: T
    var prev: Node?<T>
    var next: Node?<T>

    /** The list the element is made for. */
    ghost const owner: object

    constructor (ptr: T, ghost owner: object)
      ensures this.ptr == ptr && prev == null && next == null && this.owner == owner
    {
      this.ptr := ptr;
      this.owner := owner;
      prev, next := null, null;
    }
  }

  function At<T>(nodes: seq<Node<T>>, i: int): Node?<T> {
    if 0 <= i < |nodes| then nodes[i] else null
  }

  /** The element at position i is linked to its neighbours. */
  ghost predicate Linked<T>(nodes: seq<Node<T>>, i: nat, o: object)
    requires i < |nodes|
    reads nodes
  {
    nodes[i].prev == At(nodes, i - 1) && nodes[i].next == At(nodes, i + 1) && nodes[i].owner == o
  }

  function With<T>(s: seq<T>, k: nat, x: T): seq<T>
    requires k <= |s|
  {
    s[..k] + [x] + s[k..]
  }

  function Without<T>(s: seq<T>, k: nat): seq<T>
    requires k < |s|
  {
    s[..k] + s[k + 1..]
  }

  /** What a chain of elements holds, in order. */
  ghost function Ptrs<T>(nodes: seq<Node<T>>): (s: seq<T>)
    reads nodes
    ensures |s| == |nodes| && forall i :: 0 <= i < |s| ==> s[i] == nodes[i].ptr
  {
    seq(|nodes|, i requires 0 <= i < |nodes| reads nodes => nodes[i].ptr)
  }

  /** The links agree with the order in both directions. */
  ghost predicate Chain<T>(nodes: seq<Node<T>>, o: object)
    reads nodes
  {
    forall i :: 0 <= i < |nodes| ==> Linked(nodes, i, o)
  }

  lemma {:induction false} Differ<T>(nodes: seq<Node<T>>, i: nat, j: nat, o: object)
    requires Chain(nodes, o) && i < j < |nodes|
    ensures nodes[i] != nodes[j]
  {
    assert Linked(nodes, i, o) && Linked(nodes, j, o);
    if i > 0 {
      Differ(nodes, i - 1, j - 1, o);
    }
  }

  /** A chain holds no element twice. */
  lemma DifferFrom<T>(nodes: seq<Node<T>>, k: nat, o: object)
    requires Chain(nodes, o) && k < |nodes|
    ensures forall i :: 0 <= i < |nodes| && i != k ==> nodes[i] != nodes[k]
  {
    forall i | 0 <= i < |nodes| && i != k ensures nodes[i] != nodes[k] {
      if i < k {
        Differ(nodes, i, k, o);
      } else {
        Differ(nodes, k, i, o);
      }
    }
  }

  /** The links are those of a chain, except that at position k they lead to a new element. */
  ghost predicate Opened<T>(nodes: seq<Node<T>>, k: nat, n: Node<T>, o: object)
    reads nodes
  {
    forall i :: 0 <= i < |nodes| ==> OpenedAt(nodes, k, n, i, o)
  }

  ghost predicate OpenedAt<T>(nodes: seq<Node<T>>, k: nat, n: Node<T>, i: nat, o: object)
    requires i < |nodes|
    reads nodes
  {
    && nodes[i].owner == o && nodes[i].prev == (if i == k then n else At(nodes, i - 1))
    && nodes[i].next == (if i == k - 1 then n else At(nodes, i + 1))
  }

  /** The links are those of a chain, except that they lead around position k. */
  ghost predicate Bypassed<T>(nodes: seq<Node<T>>, k: nat, o: object)
    reads nodes
  {
    forall i :: 0 <= i < |nodes| && i != k ==> BypassedAt(nodes, k, i, o)
  }

  ghost predicate BypassedAt<T>(nodes: seq<Node<T>>, k: nat, i: nat, o: object)
    requires i < |nodes|
    reads nodes
  {
    && nodes[i].owner == o && nodes[i].prev == At(nodes, if i == k + 1 then k - 1 else i - 1)
    && nodes[i].next == At(nodes, if i == k - 1 then k + 1 else i + 1)
  }

  lemma ChainWith<T>(nodes: seq<Node<T>>, k: nat, n: Node<T>, o: object)
    requires k <= |nodes| && Opened(nodes, k, n, o)
    requires n.owner == o && n.prev == At(nodes, k - 1) && n.next == At(nodes, k)
    ensures Chain(With(nodes, k, n), o)
  {
    var all := With(nodes, k, n);
    forall i | 0 <= i < |all| ensures Linked(all, i, o) {
      if i < k {
        assert OpenedAt(nodes, k, n, i, o);
      } else if i > k {
        assert OpenedAt(nodes, k, n, i - 1, o);
      }
    }
  }

  lemma ChainWithout<T>(nodes: seq<Node<T>>, k: nat, o: object)
    requires k < |nodes| && Bypassed(nodes, k, o)
    ensures Chain(Without(nodes, k), o)
  {
    var rest := Without(nodes, k);
    forall i | 0 <= i < |rest| ensures Linked(rest, i, o) {
      if i < k {
        assert BypassedAt(nodes, k, i, o);
      } else {
        assert BypassedAt(nodes, k, i + 1, o);
      }
    }
  }

  lemma WithParts<T>(nodes: seq<Node<T>>, k: nat, n: Node<T>)
    requires k <= |nodes|
    ensures var all := With(nodes, k, n);
            && |all| == |nodes| + 1
            && Ptrs(all) == With(Ptrs(nodes), k, n.ptr)
            && At(all, 0) == (if k == 0 then n else At(nodes, 0))
            && At(all, |all| - 1) == (if k == |nodes| then n else At(nodes, |nodes| - 1))
  {
  }

  lemma WithoutParts<T>(nodes: seq<Node<T>>, k: nat)
    requires k < |nodes|
    ensures var rest := Without(nodes, k);
            && |rest| == |nodes| - 1
            && Ptrs(rest) == Without(Ptrs(nodes), k)
            && At(rest, 0) == At(nodes, if k == 0 then 1 else 0)
            && At(rest, |rest| - 1) == At(nodes, if k == |nodes| - 1 then |nodes| - 2 else |nodes| - 1)
  {
  }

  class List<T> {
    var head: Node?<T>
    var tail: Node?<T>
    var size: nat
    /** The elements in order. */
    ghost var nodes: seq<Node<T>>

    ghost predicate Valid()
      reads this, nodes
    {
      size == |nodes| && head == At(nodes, 0) && tail == At(nodes, |nodes| - 1) && Chain(nodes, this)
    }

    ghost function Values(): (s: seq<T>)
      reads this, nodes
    {
      Ptrs(nodes)
    }

    constructor ()
      ensures Valid() && nodes == [] && Values() == []
    {
      head, tail, size := null, null, 0;
      nodes := [];
    }

    /** Sets the pointers to and from a new element. */
    method Link(at: Node?<T>, n: Node<T>, ghost k: nat)
      requires Valid() && k <= |nodes| && at == At(nodes, k - 1) && n !in nodes
      requires nodes == [] ==> n.prev == null && n.next == null
      requires at == null ==> nodes == []
      modifies `head, `tail, nodes, n
      ensures Opened(nodes, k, n, this) && n.prev == At(nodes, k - 1) && n.next == At(nodes, k)
      ensures head == if k == 0 then n else At(nodes, 0)
      ensures tail == if k == |nodes| then n else At(nodes, |nodes| - 1)
      ensures n.ptr == old(n.ptr) && Ptrs(nodes) == old(Ptrs(nodes))
    {
      if size == 0 {
        head := n;
        tail := n;
      } else {
        assert Linked(nodes, k - 1, this);
        DifferFrom(nodes, k - 1, this);
        if k < |nodes| {
          assert Linked(nodes, k, this);
          DifferFrom(nodes, k, this);
        }
        n.next := at.next;
        n.prev := at;
        if at.next != null {
          at.next.prev := n;
        } else {
          tail := n;
        }
        at.next := n;
      }
      forall i | 0 <= i < |nodes| ensures OpenedAt(nodes, k, n, i, this) {
        assert old(Linked(nodes, i, this));
      }
    }

    /** Keeps the count once the pointers have been set. */
    method Recount(count: nat, ghost all: seq<Node<T>>)
      requires count == |all| && head == At(all, 0) && tail == At(all, |all| - 1) && Chain(all, this)
      modifies `size, `nodes
      ensures Valid() && nodes == all && Values() == old(Ptrs(all))
    {
      size := count;
      nodes := all;
    }

    method Place(at: Node?<T>, n: Node<T>, ghost k: nat)
      requires Valid() && k <= |nodes| && at == At(nodes, k - 1) && n !in nodes && n.owner == this
      requires n.prev == null && n.next == null && (at == null ==> nodes == [])
      modifies this, nodes, n
      ensures Valid() && nodes == With(old(nodes), k, n)
      ensures Values() == With(old(Values()), k, old(n.ptr))
    {
      Link(at, n, k);
      ghost var all := With(nodes, k, n);
      ChainWith(nodes, k, n, this);
      WithParts(nodes, k, n);
      Recount(size + 1, all);
    }

    /** Puts a value right after an element (or after the tail, if none is given). */
    method InsertNext(e: Node?<T>, p: T, ghost k: nat) returns (ghost ne: Node<T>)
      requires Valid() && k <= |nodes| && (if e == null then k == |nodes| else At(nodes, k - 1) == e)
      modifies this, nodes
      ensures Valid() && fresh(ne) && nodes == With(old(nodes), k, ne)
      ensures Values() == With(old(Values()), k, p)
    {
      var n := new Node(p, this);
      ne := n;
      Place(if e == null then tail else e, n, k);
    }

    /** Sets the pointers around an element. */
    method Unlink(e: Node<T>, ghost k: nat)
      requires Valid() && k < |nodes| && nodes[k] == e
      modifies `head, `tail, nodes
      ensures Bypassed(nodes, k, this)
      ensures head == At(nodes, if k == 0 then 1 else 0)
      ensures tail == At(nodes, if k == |nodes| - 1 then |nodes| - 2 else |nodes| - 1)
      ensures Ptrs(nodes) == old(Ptrs(nodes))
    {
      assert Linked(nodes, k, this) && (k > 0 ==> Linked(nodes, k - 1, this));
      assert k + 1 < |nodes| ==> Linked(nodes, k + 1, this);
      DifferFrom(nodes, k, this);
      if k > 0 {
        DifferFrom(nodes, k - 1, this);
      }
      if k + 1 < |nodes| {
        DifferFrom(nodes, k + 1, this);
      }
      if e == head {
        head := e.next;
        if head == null {
          tail := null;
        } else {
          e.next.prev := null;
        }
      } else {
        e.prev.next := e.next;
        if e.next == null {
          tail := e.prev;
        } else {
          e.next.prev := e.prev;
        }
      }
      forall i | 0 <= i < |nodes| && i != k ensures BypassedAt(nodes, k, i, this) {
        assert old(Linked(nodes, i, this));
      }
    }

    /** Takes an element out; its value is what the destructor is given. */
    method Remove(e: Node<T>, ghost k: nat) returns (dropped: T)
      requires Valid() && k < |nodes| && nodes[k] == e
      modifies this, nodes
      ensures Valid() && nodes == Without(old(nodes), k)
      ensures dropped == old(Values())[k] && Values() == Without(old(Values()), k)
    {
      Unlink(e, k);
      dropped := e.ptr;
      ghost var rest := Without(nodes, k);
      ChainWithout(nodes, k, this);
      WithoutParts(nodes, k);
      Recount(size - 1, rest);
    }

    /** Removes from the tail until nothing is left; the values leave in reverse order. */
    method Empty() returns (dropped: seq<T>)
      requires Valid()
      modifies this, nodes
      ensures Valid() && nodes == [] && dropped == Reverse(old(Values()))
    {
      dropped := [];
      ghost var rest := Values();
      while size > 0 && tail != null
        invariant Valid() && rest == Values() && nodes <= old(nodes)
        invariant dropped + Reverse(rest) == Reverse(old(Values()))
        decreases size
      {
        var p := Remove(tail, |nodes| - 1);
        OneMoreReversed(dropped, rest, p);
        assert Values() == Front(rest);
        dropped := dropped + [p];
        rest := Values();
      }
    }
  }

  lemma OneMoreReversed<T>(done: seq<T>, rest: seq<T>, p: T)
    requires rest != [] && p == Last(rest)
    ensures done + [p] + Reverse(Front(rest)) == done + Reverse(rest)
  {
    ReverseConcat(Front(rest), [p]);
    assert rest == Front(rest) + [p];
    Assoc(done, [p], Reverse(Front(rest)));
  }
}
