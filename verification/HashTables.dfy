/** The chained hash table: an array of doubly linked lists, one per slot. */
module HashTables {
  import opened Wrappers
  import opened Subsequences
  import opened HashSpec
  import L = LinkedList

  /** The element at the position of a key in a list, found by walking it; null if there is none. */
  method Walk<V>(l: L.List<Entry<V>>, key: Key) returns (le: L.Node?<Entry<V>>, ghost i: nat)
    requires l.Valid()
    ensures i == IndexOf(l.Values(), key) && le == L.At(l.nodes, i)
  {
    le := l.head;
    i := 0;
    while le != null
      invariant 0 <= i <= |l.nodes| && le == L.At(l.nodes, i)
      invariant forall j :: 0 <= j < i ==> l.nodes[j].ptr.key != key
      decreases |l.nodes| - i
    {
      assert L.Linked(l.nodes, i, l);
      if le.ptr.key == key {
        IndexIs(l.Values(), key, i);
        return;
      }
      le := le.next;
      i := i + 1;
    }
    NotIn(l.Values(), key);
  }

  /** Stores a new value in an element of a list. */
  method Overwrite<V>(l: L.List<Entry<V>>, le: L.Node<Entry<V>>, e: Entry<V>, ghost i: nat)
    requires l.Valid() && i < |l.nodes| && l.nodes[i] == le
    modifies le
    ensures l.Valid() && l.Values() == old(l.Values())[i := e]
  {
    L.DifferFrom(l.nodes, i, l);
    le.ptr := e;
    forall j | 0 <= j < |l.nodes| ensures L.Linked(l.nodes, j, l) {
      assert old(L.Linked(l.nodes, j, l));
    }
  }

  /** Replaces the value at a key, or puts a new element at the tail; gives what is destroyed. */
  method PutIn<V>(l: L.List<Entry<V>>, key: Key, p: V) returns (lost: seq<V>)
    requires l.Valid()
    modifies l, l.nodes
    ensures l.Valid()
    ensures l.Values() == Put(old(l.Values()), key, p) && lost == Lost(old(l.Values()), key)
    ensures forall n :: n in l.nodes ==> n in old(l.nodes) || fresh(n)
  {
    var le, i := Walk(l, key);
    if le != null {
      lost := [le.ptr.value];
      Overwrite(l, le, Entry(key, p), i);
    } else {
      lost := [];
      ghost var n := l.InsertNext(l.tail, Entry(key, p), |l.nodes|);
      assert l.Values() == old(l.Values()) + [Entry(key, p)];
    }
  }

  /** Removes the element at a key, if there is one. */
  method TakeFrom<V>(l: L.List<Entry<V>>, key: Key) returns (lost: seq<V>)
    requires l.Valid()
    modifies l, l.nodes
    ensures l.Valid()
    ensures l.Values() == Take(old(l.Values()), key) && lost == Lost(old(l.Values()), key)
  {
    var le, i := Walk(l, key);
    if le == null {
      return [];
    }
    var dropped := l.Remove(le, i);
    return [dropped.value];
  }

  lemma OwnerOf<V>(l: L.List<Entry<V>>, n: L.Node<Entry<V>>)
    requires l.Valid() && n in l.nodes
    ensures n.owner == l
  {
    var k :| 0 <= k < |l.nodes| && l.nodes[k] == n;
    assert L.Linked(l.nodes, k, l);
  }

  lemma {:induction false} ReverseValues<V>(slot: seq<Entry<V>>)
    ensures ValuesOf(Reverse(slot)) == Reverse(ValuesOf(slot))
  {
    if slot != [] {
      ReverseValues(slot[1..]);
      assert ValuesOf(slot)[1..] == ValuesOf(slot[1..]);
      assert ValuesOf(Reverse(slot[1..]) + [slot[0]]) == ValuesOf(Reverse(slot[1..])) + [slot[0].value];
    }
  }

  lemma DrainedNext<V>(slots: seq<seq<Entry<V>>>, i: nat)
    requires i < |slots|
    ensures Drained(slots[..i + 1]) == Drained(slots[..i]) + Reverse(ValuesOf(slots[i]))
  {
    assert Front(slots[..i + 1]) == slots[..i];
  }

  twostate lemma Unchanged<V>(l: L.List<Entry<V>>)
    requires old(l.Valid()) && unchanged(l) && forall n :: n in l.nodes ==> unchanged(n)
    ensures l.Valid() && l.Values() == old(l.Values())
  {
    forall i | 0 <= i < |l.nodes| ensures L.Linked(l.nodes, i, l) && l.nodes[i].ptr == old(l.nodes[i].ptr) {
      assert l.nodes[i] in l.nodes && old(L.Linked(l.nodes, i, l));
    }
  }

  class HashTable<V> {
    const table: seq<L.List<Entry<V>>>
    const hash: Hash
    var size: int
    /** What the destructor has been given. */
    var destroyed: seq<V>

    ghost function Elements(): (all: set<object>)
      reads table
      ensures forall i, n :: 0 <= i < |table| && n in table[i].nodes ==> n in all
    {
      set i, n | 0 <= i < |table| && n in table[i].nodes :: n
    }

    ghost predicate Valid()
      reads table, Elements()
    {
      table != [] && (forall i, j :: 0 <= i < j < |table| ==> table[i] != table[j])
      && forall i :: 0 <= i < |table| ==> table[i].Valid()
    }

    ghost function Slots(): (s: seq<seq<Entry<V>>>)
      reads table, Elements()
      ensures |s| == |table| && forall i :: 0 <= i < |s| ==> s[i] == table[i].Values()
    {
      seq(|table|, i requires 0 <= i < |table| reads table, Elements() => table[i].Values())
    }

    ghost function View(): Table<V>
      reads this, table, Elements()
    {
      Table(Slots(), size, destroyed)
    }

    constructor (slots: nat, hash: Hash)
      requires slots > 0
      ensures Valid() && View() == Create(slots) && this.hash == hash
      ensures fresh(Elements()) && forall l :: l in table ==> fresh(l)
    {
      var lists: seq<L.List<Entry<V>>> := [];
      for i := 0 to slots
        invariant |lists| == i && forall j :: 0 <= j < i ==> fresh(lists[j]) && lists[j].Valid() && lists[j].nodes == []
        invariant forall j, k :: 0 <= j < k < i ==> lists[j] != lists[k]
      {
        var l := new L.List<Entry<V>>();
        lists := lists + [l];
      }
      table := lists;
      this.hash := hash;
      size, destroyed := 0, [];
    }

    method ExtendedFind(key: Key) returns (found: Option<V>)
      requires Valid()
      ensures found == Find(View(), hash, key)
    {
      var slot := SlotOf(hash, key, |table|);
      var le, i := Walk(table[slot], key);
      found := if le == null then None else Some(le.ptr.value);
    }

    /** The lists and their elements do not overlap. */
    lemma Separate(s: nat)
      requires Valid() && s < |table|
      ensures forall j :: 0 <= j < |table| && j != s ==> table[j] != table[s]
      ensures forall j, n :: 0 <= j < |table| && j != s && n in table[j].nodes ==> n !in table[s].nodes
    {
      forall j, n | 0 <= j < |table| && j != s && n in table[j].nodes ensures n !in table[s].nodes {
        OwnerOf(table[j], n);
        if n in table[s].nodes {
          OwnerOf(table[s], n);
        }
      }
    }

    /** The list of one slot is changed; the others are not. */
    twostate lemma OneSlot(s: nat)
      requires old(Valid()) && s < |table| && table[s].Valid()
      requires forall j :: 0 <= j < |table| && j != s ==>
                 table[j].Valid() && table[j].Values() == old(table[j].Values())
      ensures Valid() && Slots() == old(Slots())[s := table[s].Values()]
    {
    }

    method PutInSlot(s: nat, key: Key, p: V) returns (lost: seq<V>)
      requires Valid() && s < |table|
      modifies table[s], table[s].nodes
      ensures Valid() && Slots() == old(Slots())[s := Put(old(Slots()[s]), key, p)]
      ensures lost == Lost(old(Slots()[s]), key)
      ensures fresh(Elements() - old(Elements()))
    {
      Separate(s);
      ghost var its := table[s].nodes;
      lost := PutIn(table[s], key, p);
      forall j | 0 <= j < |table| && j != s
        ensures table[j].Valid() && table[j].Values() == old(table[j].Values())
      {
        assert forall n :: n in old(table[j].nodes) ==> n !in its;
        Unchanged(table[j]);
      }
      OneSlot(s);
    }

    method TakeFromSlot(s: nat, key: Key) returns (lost: seq<V>)
      requires Valid() && s < |table|
      modifies table[s], table[s].nodes
      ensures Valid() && Slots() == old(Slots())[s := Take(old(Slots()[s]), key)]
      ensures lost == Lost(old(Slots()[s]), key)
    {
      Separate(s);
      ghost var its := table[s].nodes;
      lost := TakeFrom(table[s], key);
      forall j | 0 <= j < |table| && j != s
        ensures table[j].Valid() && table[j].Values() == old(table[j].Values())
      {
        assert forall n :: n in old(table[j].nodes) ==> n !in its;
        Unchanged(table[j]);
      }
      OneSlot(s);
    }

    method DrainSlot(s: nat) returns (lost: seq<V>)
      requires Valid() && s < |table|
      modifies table[s], table[s].nodes
      ensures Valid() && Slots() == old(Slots())[s := []] && lost == Reverse(ValuesOf(old(Slots()[s])))
      ensures forall j :: 0 <= j < |table| && j != s ==> table[j].nodes == old(table[j].nodes)
    {
      Separate(s);
      ghost var its := table[s].nodes;
      var dropped := table[s].Empty();
      forall j | 0 <= j < |table| && j != s
        ensures table[j].Valid() && table[j].Values() == old(table[j].Values())
      {
        assert forall n :: n in old(table[j].nodes) ==> n !in its;
        Unchanged(table[j]);
      }
      OneSlot(s);
      lost := ValuesOf(dropped);
      ReverseValues(old(Slots()[s]));
    }

    /** Every list is emptied; the table holds nothing afterwards. */
    method Destroy()
      requires Valid()
      modifies this, table, Elements()
      ensures destroyed == old(destroyed) + Drained(old(Slots()))
    {
      ghost var was := Slots();
      for i := 0 to |table|
        invariant Valid() && forall j :: i <= j < |table| ==> Slots()[j] == was[j]
        invariant forall j :: i <= j < |table| ==> table[j].nodes == old(table[j].nodes)
        invariant destroyed == old(destroyed) + Drained(was[..i])
      {
        var lost := DrainSlot(i);
        DrainedNext(was, i);
        Assoc(old(destroyed), Drained(was[..i]), lost);
        Account(0, lost);
      }
      assert was[..|table|] == was;
    }

    /** Keeping the counts changes nothing else. */
    method Account(change: int, lost: seq<V>)
      requires Valid()
      modifies this
      ensures Valid() && View() == Table(old(Slots()), old(size) + change, old(destroyed) + lost)
      ensures Elements() == old(Elements())
    {
      destroyed := destroyed + lost;
      size := size + change;
    }

    method PutEntry(s: nat, key: Key, p: V) returns (lost: seq<V>)
      requires Valid() && s < |table|
      modifies this, table, Elements()
      ensures Valid() && Slots() == old(Slots())[s := Put(old(Slots()[s]), key, p)]
      ensures lost == Lost(old(Slots()[s]), key)
      ensures size == old(size) + 1 - |lost| && destroyed == old(destroyed) + lost
      ensures fresh(Elements() - old(Elements()))
    {
      lost := PutInSlot(s, key, p);
      Account(1 - |lost|, lost);
    }

    method AddOrUpdateKey(key: Key, p: V)
      requires Valid()
      modifies this, table, Elements()
      ensures Valid() && View() == AddOrUpdate(old(View()), hash, key, p)
      ensures fresh(Elements() - old(Elements()))
    {
      var lost := PutEntry(SlotOf(hash, key, |table|), key, p);
    }

    method ExtendedDelete(key: Key) returns (found: bool)
      requires Valid()
      modifies this, table, Elements()
      ensures Valid() && View() == Delete(old(View()), hash, key)
      ensures found <==> old(Find(View(), hash, key)).Some?
    {
      var slot := SlotOf(hash, key, |table|);
      var lost := TakeFromSlot(slot, key);
      Account(-|lost|, lost);
      found := lost != [];
    }
  }
}
