/** The multiset of everything held in the lists of a map, however the keys are laid out. */
module Gathering {

  ghost function Gather<K(!new), T>(m: map<K, seq<T>>): multiset<T>
    decreases |m|
  {
    if m == map[] then multiset{}
    else
      var k :| k in m;
      multiset(m[k]) + Gather(m - {k})
  }

  lemma {:induction false} GatherRemove<K(!new), T>(m: map<K, seq<T>>, k: K)
    requires k in m
    ensures Gather(m) == multiset(m[k]) + Gather(m - {k})
    decreases |m|
  {
    var c :| c in m && Gather(m) == multiset(m[c]) + Gather(m - {c});
    if c != k {
      GatherRemove(m - {c}, k);
      GatherRemove(m - {k}, c);
      assert (m - {c}) - {k} == (m - {k}) - {c};
    }
  }

  lemma GatherUpdate<K(!new), T>(m: map<K, seq<T>>, k: K, s: seq<T>)
    ensures Gather(m[k := s]) == multiset(s) + Gather(m - {k})
  {
    GatherRemove(m[k := s], k);
    assert m[k := s] - {k} == m - {k};
  }

  /** If every list is empty, so is the gathering. */
  lemma {:induction false} GatherEmpty<K(!new), T>(m: map<K, seq<T>>)
    requires forall k :: k in m ==> m[k] == []
    ensures Gather(m) == multiset{}
    decreases |m|
  {
    if m != map[] {
      var c :| c in m && Gather(m) == multiset(m[c]) + Gather(m - {c});
      GatherEmpty(m - {c});
    }
  }

  // ---------- Rearranging sums ----------

  lemma Append<T>(s: seq<T>, t: T)
    ensures multiset(s + [t]) == multiset(s) + multiset{t}
  {
  }

  lemma SwapLast<T>(a: multiset<T>, b: multiset<T>, c: multiset<T>)
    ensures a + b + c == a + c + b
  {
  }

  lemma Assoc<T>(a: multiset<T>, b: multiset<T>, c: multiset<T>)
    ensures a + (b + c) == a + b + c
  {
  }

  /** Putting one more element in one of the lists. */
  lemma GatherPut<K(!new), T>(m: map<K, seq<T>>, k: K, s: seq<T>, t: T)
    requires s == if k in m then m[k] else []
    ensures Gather(m[k := s + [t]]) == Gather(m) + multiset{t}
  {
    GatherUpdate(m, k, s + [t]);
    Append(s, t);
    if k in m {
      GatherRemove(m, k);
    } else {
      assert m - {k} == m;
    }
    SwapLast(multiset(s), multiset{t}, Gather(m - {k}));
  }
}
