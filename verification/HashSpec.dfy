/** What the hash table means: its slots as lists of entries, the operations on them, and the
    finite map they refine. The hash function is arbitrary. */
module HashSpec {
  import opened Wrappers
  import opened Subsequences
  import G = Gathering

  datatype Key = Str(text: string) | Num(number: nat)

  datatype Entry<+V> = Entry(key: Key, value: V)

  /** `destroyed` is what the destructor has been given so far. */
  datatype Table<+V> = Table(slots: seq<seq<Entry<V>>>, size: int, destroyed: seq<V>)

  type Hash = Key -> nat

  function SlotOf(hash: Hash, key: Key, slots: nat): (i: nat)
    requires slots > 0
    ensures i < slots
  {
    hash(key) % slots
  }

  /** Where a key first occurs in a slot; past the end if it does not. */
  function IndexOf<V>(slot: seq<Entry<V>>, key: Key): (i: nat)
    ensures i <= |slot| && (i < |slot| ==> slot[i].key == key)
    ensures forall j :: 0 <= j < i ==> slot[j].key != key
  {
    if slot == [] || slot[0].key == key then 0
    else
      var i := 1 + IndexOf(slot[1..], key);
      assert forall j :: 1 <= j < i ==> slot[j] == slot[1..][j - 1];
      i
  }

  // ---------- The operations ----------

  function FindIn<V>(slot: seq<Entry<V>>, key: Key): Option<V> {
    var i := IndexOf(slot, key);
    if i < |slot| then Some(slot[i].value) else None
  }

  /** The slot with an entry replaced, or a new one at its end. */
  function Put<V>(slot: seq<Entry<V>>, key: Key, value: V): seq<Entry<V>> {
    var i := IndexOf(slot, key);
    if i < |slot| then slot[i := Entry(key, value)] else slot + [Entry(key, value)]
  }

  function Take<V>(slot: seq<Entry<V>>, key: Key): seq<Entry<V>> {
    var i := IndexOf(slot, key);
    if i < |slot| then slot[..i] + slot[i + 1..] else slot
  }

  /** The value that is replaced or removed, if any. */
  function Lost<V>(slot: seq<Entry<V>>, key: Key): seq<V> {
    var i := IndexOf(slot, key);
    if i < |slot| then [slot[i].value] else []
  }

  function Find<V>(t: Table<V>, hash: Hash, key: Key): Option<V>
    requires t.slots != []
  {
    FindIn(t.slots[SlotOf(hash, key, |t.slots|)], key)
  }

  function AddOrUpdate<V>(t: Table<V>, hash: Hash, key: Key, value: V): Table<V>
    requires t.slots != []
  {
    var s := SlotOf(hash, key, |t.slots|);
    var lost := Lost(t.slots[s], key);
    Table(t.slots[s := Put(t.slots[s], key, value)], t.size + 1 - |lost|, t.destroyed + lost)
  }

  function Delete<V>(t: Table<V>, hash: Hash, key: Key): Table<V>
    requires t.slots != []
  {
    var s := SlotOf(hash, key, |t.slots|);
    var lost := Lost(t.slots[s], key);
    Table(t.slots[s := Take(t.slots[s], key)], t.size - |lost|, t.destroyed + lost)
  }

  function ValuesOf<V>(slot: seq<Entry<V>>): (r: seq<V>)
    ensures |r| == |slot| && forall i :: 0 <= i < |r| ==> r[i] == slot[i].value
  {
    seq(|slot|, i requires 0 <= i < |slot| => slot[i].value)
  }

  /** Every slot is emptied from its end. */
  function Drained<V>(slots: seq<seq<Entry<V>>>): seq<V> {
    if slots == [] then [] else Drained(Front(slots)) + Reverse(ValuesOf(Last(slots)))
  }

  function Emptied<V>(n: nat): (slots: seq<seq<Entry<V>>>)
    ensures |slots| == n && forall i :: 0 <= i < n ==> slots[i] == []
  {
    seq(n, _ => [])
  }

  function Create<V>(slots: nat): Table<V> {
    Table(Emptied(slots), 0, [])
  }

  // ---------- What every operation keeps ----------

  /** A key sits in its own slot, once. */
  ghost predicate Placed<V>(t: Table<V>, hash: Hash) {
    && t.slots != []
    && (forall s, i :: 0 <= s < |t.slots| && 0 <= i < |t.slots[s]| ==> SlotOf(hash, t.slots[s][i].key, |t.slots|) == s)
    && forall s :: 0 <= s < |t.slots| ==> DistinctKeys(t.slots[s])
  }

  ghost predicate DistinctKeys<V>(slot: seq<Entry<V>>) {
    forall i, j :: 0 <= i < j < |slot| ==> slot[i].key != slot[j].key
  }

  /** The values in the table, as often as they are stored. */
  function Held<V>(slots: seq<seq<Entry<V>>>): multiset<V> {
    if slots == [] then multiset{} else Held(Front(slots)) + multiset(ValuesOf(Last(slots)))
  }

  /** The table holds exactly the map, and counts its keys. */
  ghost predicate Holds<V>(t: Table<V>, hash: Hash, m: map<Key, V>) {
    t.slots != [] && t.size == |m|
    && forall k :: Find(t, hash, k) == if k in m then Some(m[k]) else None
  }

  // ---------- One slot ----------

  lemma IndexIs<V>(slot: seq<Entry<V>>, key: Key, i: nat)
    requires i < |slot| && slot[i].key == key && forall j :: 0 <= j < i ==> slot[j].key != key
    ensures IndexOf(slot, key) == i
  {
  }

  lemma NotIn<V>(slot: seq<Entry<V>>, key: Key)
    requires forall j :: 0 <= j < |slot| ==> slot[j].key != key
    ensures IndexOf(slot, key) == |slot|
  {
  }

  lemma PutFinds<V>(slot: seq<Entry<V>>, key: Key, value: V, k: Key)
    ensures FindIn(Put(slot, key, value), k) == if k == key then Some(value) else FindIn(slot, k)
  {
    var next, i := Put(slot, key, value), IndexOf(slot, k);
    if k == key || i < |slot| {
      IndexIs(next, k, i);
    } else {
      NotIn(next, k);
    }
  }

  /** What is left keeps its order around the gap. */
  lemma TakeAt<V>(slot: seq<Entry<V>>, key: Key)
    ensures var rest, a := Take(slot, key), IndexOf(slot, key);
            if a == |slot| then rest == slot
            else |rest| == |slot| - 1 && forall j :: 0 <= j < |rest| ==> rest[j] == slot[if j < a then j else j + 1]
  {
  }

  lemma TakeFinds<V>(slot: seq<Entry<V>>, key: Key, k: Key)
    requires DistinctKeys(slot)
    ensures FindIn(Take(slot, key), k) == if k == key then None else FindIn(slot, k)
  {
    var rest, a, i := Take(slot, key), IndexOf(slot, key), IndexOf(slot, k);
    TakeAt(slot, key);
    if a < |slot| {
      if k == key || i == |slot| {
        NotIn(rest, k);
      } else {
        var j := if a < i then i - 1 else i;
        assert rest[j] == slot[i];
        IndexIs(rest, k, j);
      }
    }
  }

  lemma PutAccounts<V>(slot: seq<Entry<V>>, key: Key, value: V)
    ensures multiset(ValuesOf(Put(slot, key, value))) + multiset(Lost(slot, key))
         == multiset(ValuesOf(slot)) + multiset{value}
  {
    var i, v := IndexOf(slot, key), ValuesOf(slot);
    if i < |slot| {
      assert ValuesOf(Put(slot, key, value)) == v[i := value];
    } else {
      assert ValuesOf(Put(slot, key, value)) == v + [value];
    }
  }

  lemma TakeAccounts<V>(slot: seq<Entry<V>>, key: Key)
    ensures multiset(ValuesOf(Take(slot, key))) + multiset(Lost(slot, key)) == multiset(ValuesOf(slot))
  {
    var i := IndexOf(slot, key);
    if i < |slot| {
      TakeValues(slot, key);
      OneOut(ValuesOf(Take(slot, key)), Lost(slot, key), ValuesOf(slot), i);
    } else {
      assert Take(slot, key) == slot && Lost(slot, key) == [];
    }
  }

  lemma TakeValues<V>(slot: seq<Entry<V>>, key: Key)
    requires IndexOf(slot, key) < |slot|
    ensures var i, v := IndexOf(slot, key), ValuesOf(slot);
            ValuesOf(Take(slot, key)) == v[..i] + v[i + 1..] && Lost(slot, key) == [v[i]]
  {
  }

  lemma OneOut<V>(rest: seq<V>, out: seq<V>, v: seq<V>, i: nat)
    requires i < |v| && rest == v[..i] + v[i + 1..] && out == [v[i]]
    ensures multiset(rest) + multiset(out) == multiset(v)
  {
    var x, y := v[..i], v[i + 1..];
    assert v == x + out + y;
    G.SwapLast(multiset(x), multiset(y), multiset(out));
  }

  // ---------- The whole table ----------

  lemma {:induction false} HeldUpdate<V>(slots: seq<seq<Entry<V>>>, s: nat, slot: seq<Entry<V>>)
    requires s < |slots|
    ensures Held(slots[s := slot]) + multiset(ValuesOf(slots[s])) == Held(slots) + multiset(ValuesOf(slot))
    decreases |slots|
  {
    var next := slots[s := slot];
    if s == |slots| - 1 {
      assert Front(next) == Front(slots);
      G.SwapLast(Held(Front(slots)), multiset(ValuesOf(slot)), multiset(ValuesOf(slots[s])));
    } else {
      assert Front(next) == Front(slots)[s := slot] && Last(next) == Last(slots);
      HeldUpdate(Front(slots), s, slot);
      G.SwapLast(Held(Front(next)), multiset(ValuesOf(Last(slots))), multiset(ValuesOf(slots[s])));
      G.SwapLast(Held(Front(slots)), multiset(ValuesOf(slot)), multiset(ValuesOf(Last(slots))));
    }
  }

  /** What one slot loses and gains, the destroyed values make up for. */
  lemma Balance<V>(d: multiset<V>, h: multiset<V>, h2: multiset<V>, a: multiset<V>, a2: multiset<V>,
                   lost: multiset<V>, gained: multiset<V>)
    requires h2 + a == h + a2 && a2 + lost == a + gained
    ensures d + lost + h2 == d + h + gained
  {
    forall v ensures (d + lost + h2)[v] == (d + h + gained)[v] {
      assert (h2 + a)[v] == (h + a2)[v] && (a2 + lost)[v] == (a + gained)[v];
    }
  }

  lemma SlotAccounts<V>(t: Table<V>, s: nat, next: seq<Entry<V>>, lost: seq<V>, gained: multiset<V>)
    requires s < |t.slots| && multiset(ValuesOf(next)) + multiset(lost) == multiset(ValuesOf(t.slots[s])) + gained
    ensures multiset(t.destroyed + lost) + Held(t.slots[s := next]) == multiset(t.destroyed) + Held(t.slots) + gained
  {
    HeldUpdate(t.slots, s, next);
    Balance(multiset(t.destroyed), Held(t.slots), Held(t.slots[s := next]),
            multiset(ValuesOf(t.slots[s])), multiset(ValuesOf(next)), multiset(lost), gained);
    assert multiset(t.destroyed + lost) == multiset(t.destroyed) + multiset(lost);
  }

  lemma AddPlaced<V>(t: Table<V>, hash: Hash, key: Key, value: V)
    requires Placed(t, hash)
    ensures Placed(AddOrUpdate(t, hash, key, value), hash)
  {
  }

  lemma DeletePlaced<V>(t: Table<V>, hash: Hash, key: Key)
    requires Placed(t, hash)
    ensures Placed(Delete(t, hash, key), hash)
  {
  }

  lemma LostIff<V>(t: Table<V>, hash: Hash, m: map<Key, V>, key: Key)
    requires Holds(t, hash, m)
    ensures |Lost(t.slots[SlotOf(hash, key, |t.slots|)], key)| == if key in m then 1 else 0
  {
    assert Find(t, hash, key).Some? <==> key in m;
  }

  lemma UpdateSize<V>(m: map<Key, V>, key: Key, value: V)
    ensures |m[key := value]| == |m| + if key in m then 0 else 1
  {
    assert m[key := value].Keys == m.Keys + {key};
    assert |m[key := value].Keys| == |m[key := value]| && |m.Keys| == |m|;
  }

  lemma RemoveSize<V>(m: map<Key, V>, key: Key)
    ensures |m - {key}| == |m| - if key in m then 1 else 0
  {
    assert (m - {key}).Keys == m.Keys - {key};
    assert |(m - {key}).Keys| == |m - {key}| && |m.Keys| == |m|;
  }

  lemma AddFinds<V>(t: Table<V>, hash: Hash, key: Key, value: V, k: Key)
    requires t.slots != []
    ensures Find(AddOrUpdate(t, hash, key, value), hash, k) == if k == key then Some(value) else Find(t, hash, k)
  {
    PutFinds(t.slots[SlotOf(hash, key, |t.slots|)], key, value, k);
  }

  lemma DeleteFinds<V>(t: Table<V>, hash: Hash, key: Key, k: Key)
    requires Placed(t, hash)
    ensures Find(Delete(t, hash, key), hash, k) == if k == key then None else Find(t, hash, k)
  {
    TakeFinds(t.slots[SlotOf(hash, key, |t.slots|)], key, k);
  }

  lemma AddSize<V>(t: Table<V>, hash: Hash, m: map<Key, V>, key: Key, value: V)
    requires Holds(t, hash, m)
    ensures AddOrUpdate(t, hash, key, value).size == |m[key := value]|
  {
    LostIff(t, hash, m, key);
    UpdateSize(m, key, value);
  }

  lemma DeleteSize<V>(t: Table<V>, hash: Hash, m: map<Key, V>, key: Key)
    requires Holds(t, hash, m)
    ensures Delete(t, hash, key).size == |m - {key}|
  {
    LostIff(t, hash, m, key);
    RemoveSize(m, key);
  }

  lemma AddHolds<V>(t: Table<V>, hash: Hash, m: map<Key, V>, key: Key, value: V)
    requires Holds(t, hash, m)
    ensures Holds(AddOrUpdate(t, hash, key, value), hash, m[key := value])
  {
    AddSize(t, hash, m, key, value);
    var u, n := AddOrUpdate(t, hash, key, value), m[key := value];
    forall k ensures Find(u, hash, k) == if k in n then Some(n[k]) else None {
      AddFinds(t, hash, key, value, k);
    }
  }

  /** Adding changes the map at the key, and accounts for every value. */
  lemma AddAccounts<V>(t: Table<V>, hash: Hash, key: Key, value: V)
    requires t.slots != []
    ensures var u := AddOrUpdate(t, hash, key, value);
            multiset(u.destroyed) + Held(u.slots) == multiset(t.destroyed) + Held(t.slots) + multiset{value}
  {
    var s := SlotOf(hash, key, |t.slots|);
    PutAccounts(t.slots[s], key, value);
    SlotAccounts(t, s, Put(t.slots[s], key, value), Lost(t.slots[s], key), multiset{value});
  }

  lemma DeleteHolds<V>(t: Table<V>, hash: Hash, m: map<Key, V>, key: Key)
    requires Placed(t, hash) && Holds(t, hash, m)
    ensures Holds(Delete(t, hash, key), hash, m - {key})
  {
    DeleteSize(t, hash, m, key);
    var u, n := Delete(t, hash, key), m - {key};
    forall k ensures Find(u, hash, k) == if k in n then Some(n[k]) else None {
      DeleteFinds(t, hash, key, k);
    }
  }

  lemma DeleteAccounts<V>(t: Table<V>, hash: Hash, key: Key)
    requires t.slots != []
    ensures var u := Delete(t, hash, key);
            multiset(u.destroyed) + Held(u.slots) == multiset(t.destroyed) + Held(t.slots)
  {
    var s := SlotOf(hash, key, |t.slots|);
    TakeAccounts(t.slots[s], key);
    SlotAccounts(t, s, Take(t.slots[s], key), Lost(t.slots[s], key), multiset{});
  }

  // ---------- Every sequence of operations ----------

  datatype Op<+V> = Add(key: Key, value: V) | Del(key: Key)

  function Run<V>(slots: nat, hash: Hash, ops: seq<Op<V>>): (t: Table<V>)
    requires slots > 0
    ensures |t.slots| == slots
  {
    if ops == [] then Create(slots)
    else
      match Last(ops)
      case Add(key, value) => AddOrUpdate(Run(slots, hash, Front(ops)), hash, key, value)
      case Del(key) => Delete(Run(slots, hash, Front(ops)), hash, key)
  }

  function MapAfter<V>(ops: seq<Op<V>>): map<Key, V> {
    if ops == [] then map[]
    else
      match Last(ops)
      case Add(key, value) => MapAfter(Front(ops))[key := value]
      case Del(key) => MapAfter(Front(ops)) - {key}
  }

  function Stored<V>(ops: seq<Op<V>>): multiset<V> {
    if ops == [] then multiset{}
    else Stored(Front(ops)) + if Last(ops).Add? then multiset{Last(ops).value} else multiset{}
  }

  /** After any sequence of operations the table is the finite map they describe; every key is
      in its own slot once; and every value ever stored is either still in the table or has
      been given to the destructor, exactly once. */
  lemma {:induction false} RefinesMap<V>(slots: nat, hash: Hash, ops: seq<Op<V>>)
    requires slots > 0
    ensures var t := Run(slots, hash, ops);
            Placed(t, hash) && Holds(t, hash, MapAfter(ops))
            && multiset(t.destroyed) + Held(t.slots) == Stored(ops)
  {
    if ops == [] {
      HeldNothing<V>(slots);
    } else {
      RefinesMap(slots, hash, Front(ops));
      var t := Run(slots, hash, Front(ops));
      match Last(ops)
      case Add(key, value) =>
        AddPlaced(t, hash, key, value);
        AddHolds(t, hash, MapAfter(Front(ops)), key, value);
        AddAccounts(t, hash, key, value);
      case Del(key) =>
        DeletePlaced(t, hash, key);
        DeleteHolds(t, hash, MapAfter(Front(ops)), key);
        DeleteAccounts(t, hash, key);
    }
  }

  lemma {:induction false} HeldNothing<V>(n: nat)
    ensures Held(Emptied<V>(n)) == multiset{}
  {
    if n > 0 {
      assert Front(Emptied<V>(n)) == Emptied<V>(n - 1);
      HeldNothing<V>(n - 1);
    }
  }

  lemma {:induction false} DrainedHeld<V>(slots: seq<seq<Entry<V>>>)
    ensures multiset(Drained(slots)) == Held(slots)
  {
    if slots != [] {
      DrainedHeld(Front(slots));
      ReverseMultiset(ValuesOf(Last(slots)));
    }
  }

  /** Destroying the table in the end gives the destructor every value that is left: over the
      whole life of a table, each stored value is destroyed exactly once. */
  lemma DestroyAccountsForAll<V>(slots: nat, hash: Hash, ops: seq<Op<V>>)
    requires slots > 0
    ensures var t := Run(slots, hash, ops);
            multiset(t.destroyed + Drained(t.slots)) == Stored(ops)
  {
    RefinesMap(slots, hash, ops);
    DrainedHeld(Run(slots, hash, ops).slots);
  }
}
