/** Common subsequences: the vocabulary in which the diff engine is specified.
    `LcsLength` is the recurrence the length table fills in; the lemmas of this module
    tie it to its meaning, the length of a longest common subsequence. */
module Subsequences {

  /** `s` can be obtained from `a` by deleting elements. */
  ghost predicate IsSubsequence<T>(s: seq<T>, a: seq<T>)
    decreases |a|
  {
    s == [] ||
    (a != [] && ((s[0] == a[0] && IsSubsequence(s[1..], a[1..])) || IsSubsequence(s, a[1..])))
  }

  ghost predicate IsCommon<T>(s: seq<T>, a: seq<T>, b: seq<T>) {
    IsSubsequence(s, a) && IsSubsequence(s, b)
  }

  /** `s` is a common subsequence of `a` and `b`, and none is longer. */
  ghost predicate IsLongestCommon<T(!new)>(s: seq<T>, a: seq<T>, b: seq<T>) {
    IsCommon(s, a, b) && forall t :: IsCommon(t, a, b) ==> |t| <= |s|
  }

  function Front<T>(s: seq<T>): seq<T>
    requires s != []
  {
    s[..|s| - 1]
  }

  function Last<T>(s: seq<T>): T
    requires s != []
  {
    s[|s| - 1]
  }

  function Reverse<T>(s: seq<T>): (r: seq<T>)
    ensures |r| == |s|
  {
    if s == [] then [] else Reverse(s[1..]) + [s[0]]
  }

  function Max(x: int, y: int): int {
    if x >= y then x else y
  }

  /** The recurrence of the length table, on the last elements of both sequences. */
  ghost function LcsLength<T>(a: seq<T>, b: seq<T>): nat
    decreases |a| + |b|
  {
    if a == [] || b == [] then 0
    else if Last(a) == Last(b) then LcsLength(Front(a), Front(b)) + 1
    else Max(LcsLength(a, Front(b)), LcsLength(Front(a), b))
  }

  lemma Assoc<T>(a: seq<T>, b: seq<T>, c: seq<T>)
    ensures (a + b) + c == a + (b + c)
  {
  }

  lemma TakeNext<T>(s: seq<T>, i: nat)
    requires i < |s|
    ensures s[..i] + [s[i]] == s[..i + 1]
  {
  }

  // ---------- Subsequence ----------

  lemma {:induction false} SubsequenceLength<T>(s: seq<T>, a: seq<T>)
    requires IsSubsequence(s, a)
    ensures |s| <= |a|
    decreases |a|
  {
    if s != [] {
      if s[0] == a[0] && IsSubsequence(s[1..], a[1..]) {
        SubsequenceLength(s[1..], a[1..]);
      } else {
        SubsequenceLength(s, a[1..]);
      }
    }
  }

  lemma {:induction false} SubsequenceTail<T>(s: seq<T>, a: seq<T>)
    requires s != [] && IsSubsequence(s, a)
    ensures a != [] && IsSubsequence(s[1..], a[1..])
    decreases |a|
  {
    if !(s[0] == a[0] && IsSubsequence(s[1..], a[1..])) {
      SubsequenceTail(s, a[1..]);
      SubsequencePrepend(s[1..], a[1..][1..], a[1..][..1]);
      assert a[1..] == a[1..][..1] + a[1..][1..];
    }
  }

  lemma {:induction false} SubsequencePrepend<T>(s: seq<T>, a: seq<T>, pre: seq<T>)
    requires IsSubsequence(s, a)
    ensures IsSubsequence(s, pre + a)
    decreases |pre|
  {
    if pre == [] {
      assert pre + a == a;
    } else {
      SubsequencePrepend(s, a, pre[1..]);
      assert (pre + a)[1..] == pre[1..] + a;
    }
  }

  lemma {:induction false} SubsequenceRefl<T>(a: seq<T>)
    ensures IsSubsequence(a, a)
    decreases |a|
  {
    if a != [] {
      SubsequenceRefl(a[1..]);
    }
  }

  /** Subsequences of two halves concatenate to a subsequence of the whole. */
  lemma {:induction false} SubsequenceConcat<T>(s1: seq<T>, a1: seq<T>, s2: seq<T>, a2: seq<T>)
    requires IsSubsequence(s1, a1) && IsSubsequence(s2, a2)
    ensures IsSubsequence(s1 + s2, a1 + a2)
    decreases |a1|
  {
    if s1 == [] {
      assert s1 + s2 == s2;
      SubsequencePrepend(s2, a2, a1);
    } else {
      assert (a1 + a2)[1..] == a1[1..] + a2;
      if s1[0] == a1[0] && IsSubsequence(s1[1..], a1[1..]) {
        SubsequenceConcat(s1[1..], a1[1..], s2, a2);
        assert (s1 + s2)[1..] == s1[1..] + s2;
      } else {
        SubsequenceConcat(s1, a1[1..], s2, a2);
      }
    }
  }

  /** A subsequence of a concatenation splits where the concatenation does. */
  lemma {:induction false} SplitByHost<T>(s: seq<T>, a1: seq<T>, a2: seq<T>) returns (k: nat)
    requires IsSubsequence(s, a1 + a2)
    ensures k <= |s| && IsSubsequence(s[..k], a1) && IsSubsequence(s[k..], a2)
    decreases |a1|
  {
    if a1 == [] {
      assert a1 + a2 == a2;
      k := 0;
      assert s[..0] == [] && s[0..] == s;
    } else if s == [] {
      k := 0;
    } else {
      assert (a1 + a2)[1..] == a1[1..] + a2;
      if s[0] == a1[0] && IsSubsequence(s[1..], (a1 + a2)[1..]) {
        var k' := SplitByHost(s[1..], a1[1..], a2);
        k := k' + 1;
        assert s[..k][1..] == s[1..][..k'] && s[k..] == s[1..][k'..];
      } else {
        k := SplitByHost(s, a1[1..], a2);
        if k > 0 {
          assert s[..k] != [];
        }
      }
    }
  }

  /** A concatenation that is a subsequence splits its host. */
  lemma {:induction false} SplitHost<T>(s1: seq<T>, s2: seq<T>, b: seq<T>) returns (j: nat)
    requires IsSubsequence(s1 + s2, b)
    ensures j <= |b| && IsSubsequence(s1, b[..j]) && IsSubsequence(s2, b[j..])
    decreases |b|
  {
    if s1 == [] {
      assert s1 + s2 == s2 && b[0..] == b;
      j := 0;
    } else {
      assert (s1 + s2)[1..] == s1[1..] + s2;
      var j';
      if s1[0] == b[0] && IsSubsequence(s1[1..] + s2, b[1..]) {
        j' := SplitHost(s1[1..], s2, b[1..]);
      } else {
        j' := SplitHost(s1, s2, b[1..]);
      }
      j := j' + 1;
      assert b[..j][1..] == b[1..][..j'] && b[j..] == b[1..][j'..];
    }
  }

  lemma {:induction false} SubsequenceReverse<T>(s: seq<T>, a: seq<T>)
    requires IsSubsequence(s, a)
    ensures IsSubsequence(Reverse(s), Reverse(a))
    decreases |a|
  {
    if s != [] {
      assert IsSubsequence([], [a[0]]);
      if s[0] == a[0] && IsSubsequence(s[1..], a[1..]) {
        SubsequenceReverse(s[1..], a[1..]);
        SubsequenceRefl([a[0]]);
        SubsequenceConcat(Reverse(s[1..]), Reverse(a[1..]), [s[0]], [a[0]]);
      } else {
        SubsequenceReverse(s, a[1..]);
        SubsequenceConcat(Reverse(s), Reverse(a[1..]), [], [a[0]]);
        assert Reverse(s) + [] == Reverse(s);
      }
    }
  }

  lemma {:induction false} ReverseConcat<T>(a: seq<T>, b: seq<T>)
    ensures Reverse(a + b) == Reverse(b) + Reverse(a)
  {
    if a == [] {
      assert a + b == b;
    } else {
      assert (a + b)[1..] == a[1..] + b;
      ReverseConcat(a[1..], b);
    }
  }

  lemma {:induction false} ReverseReverse<T>(s: seq<T>)
    ensures Reverse(Reverse(s)) == s
  {
    if s != [] {
      ReverseReverse(s[1..]);
      ReverseConcat(Reverse(s[1..]), [s[0]]);
    }
  }

  lemma {:induction false} ReverseMultiset<T>(s: seq<T>)
    ensures multiset(Reverse(s)) == multiset(s)
    ensures forall t :: t in Reverse(s) <==> t in s
  {
    if s != [] {
      ReverseMultiset(s[1..]);
      assert s == [s[0]] + s[1..];
    }
  }

  // ---------- LcsLength means what its name says ----------

  /** A subsequence of `a` either does not use the last element of `a`, or ends with it. */
  lemma {:induction false} SubsequenceLast<T>(s: seq<T>, a: seq<T>)
    requires s != [] && a != [] && IsSubsequence(s, a)
    ensures IsSubsequence(Front(s), Front(a))
    ensures Last(s) != Last(a) ==> IsSubsequence(s, Front(a))
  {
    assert a == Front(a) + [Last(a)];
    var k := SplitByHost(s, Front(a), [Last(a)]);
    SubsequenceLength(s[k..], [Last(a)]);
    if k == |s| {
      assert s[..k] == s && s == Front(s) + [Last(s)];
      var j := SplitHost(Front(s), [Last(s)], Front(a));
      SubsequenceConcat(Front(s), Front(a)[..j], [], Front(a)[j..]);
      assert Front(s) + [] == Front(s) && Front(a)[..j] + Front(a)[j..] == Front(a);
    } else {
      assert s[..k] == Front(s) && s[k..] == [Last(s)];
    }
  }

  lemma {:induction false} SubsequenceAppendLast<T>(s: seq<T>, a: seq<T>, x: T)
    requires IsSubsequence(s, a)
    ensures IsSubsequence(s, a + [x]) && IsSubsequence(s + [x], a + [x])
  {
    SubsequenceRefl([x]);
    SubsequenceConcat(s, a, [x], [x]);
    SubsequenceConcat(s, a, [], [x]);
    assert s + [] == s;
  }

  /** No common subsequence is longer than `LcsLength`. */
  lemma {:induction false} LcsIsUpperBound<T>(s: seq<T>, a: seq<T>, b: seq<T>)
    requires IsCommon(s, a, b)
    ensures |s| <= LcsLength(a, b)
    decreases |a| + |b|
  {
    if s != [] {
      SubsequenceLength(s, a);
      SubsequenceLength(s, b);
      SubsequenceLast(s, a);
      SubsequenceLast(s, b);
      if Last(a) == Last(b) {
        LcsIsUpperBound(Front(s), Front(a), Front(b));
      } else if Last(s) != Last(a) {
        LcsIsUpperBound(s, Front(a), b);
      } else {
        LcsIsUpperBound(s, a, Front(b));
      }
    }
  }

  /** Some common subsequence is that long. */
  lemma {:induction false} LcsIsAttained<T>(a: seq<T>, b: seq<T>) returns (s: seq<T>)
    ensures IsCommon(s, a, b) && |s| == LcsLength(a, b)
    decreases |a| + |b|
  {
    if a == [] || b == [] {
      s := [];
    } else {
      assert a == Front(a) + [Last(a)] && b == Front(b) + [Last(b)];
      if Last(a) == Last(b) {
        var s' := LcsIsAttained(Front(a), Front(b));
        SubsequenceAppendLast(s', Front(a), Last(a));
        SubsequenceAppendLast(s', Front(b), Last(a));
        s := s' + [Last(a)];
      } else if LcsLength(a, Front(b)) >= LcsLength(Front(a), b) {
        s := LcsIsAttained(a, Front(b));
        SubsequenceAppendLast(s, Front(b), Last(b));
      } else {
        s := LcsIsAttained(Front(a), b);
        SubsequenceAppendLast(s, Front(a), Last(a));
      }
    }
  }

  /** A common subsequence is a longest one exactly when its length is `LcsLength`. */
  lemma LongestCommonIff<T(!new)>(s: seq<T>, a: seq<T>, b: seq<T>)
    ensures IsLongestCommon(s, a, b) <==> IsCommon(s, a, b) && |s| == LcsLength(a, b)
  {
    var best := LcsIsAttained(a, b);
    forall t | IsCommon(t, a, b) ensures |t| <= LcsLength(a, b) {
      LcsIsUpperBound(t, a, b);
    }
  }

  // ---------- The three facts the divide-and-conquer step rests on ----------

  /** Reversal: the lengths computed on reversed halves are lengths on the halves. */
  lemma LcsReverse<T>(a: seq<T>, b: seq<T>)
    ensures LcsLength(Reverse(a), Reverse(b)) == LcsLength(a, b)
  {
    var s := LcsIsAttained(a, b);
    SubsequenceReverse(s, a);
    SubsequenceReverse(s, b);
    LcsIsUpperBound(Reverse(s), Reverse(a), Reverse(b));
    var r := LcsIsAttained(Reverse(a), Reverse(b));
    SubsequenceReverse(r, Reverse(a));
    SubsequenceReverse(r, Reverse(b));
    ReverseReverse(a);
    ReverseReverse(b);
    LcsIsUpperBound(Reverse(r), a, b);
  }

  /** Splitting: every cut of `b` gives a lower bound ... */
  lemma LcsSplitLower<T>(a1: seq<T>, a2: seq<T>, b: seq<T>, j: nat)
    requires j <= |b|
    ensures LcsLength(a1, b[..j]) + LcsLength(a2, b[j..]) <= LcsLength(a1 + a2, b)
  {
    var s1 := LcsIsAttained(a1, b[..j]);
    var s2 := LcsIsAttained(a2, b[j..]);
    SubsequenceConcat(s1, a1, s2, a2);
    SubsequenceConcat(s1, b[..j], s2, b[j..]);
    assert b[..j] + b[j..] == b;
    LcsIsUpperBound(s1 + s2, a1 + a2, b);
  }

  /** ... and some cut attains the length of the whole. */
  lemma LcsSplitUpper<T>(a1: seq<T>, a2: seq<T>, b: seq<T>) returns (j: nat)
    ensures j <= |b|
    ensures LcsLength(a1, b[..j]) + LcsLength(a2, b[j..]) >= LcsLength(a1 + a2, b)
  {
    var s := LcsIsAttained(a1 + a2, b);
    var k := SplitByHost(s, a1, a2);
    assert s[..k] + s[k..] == s;
    j := SplitHost(s[..k], s[k..], b);
    LcsIsUpperBound(s[..k], a1, b[..j]);
    LcsIsUpperBound(s[k..], a2, b[j..]);
  }

  /** Trimming: a shared prefix and a shared suffix belong to some longest common subsequence. */
  lemma LcsTrim<T>(p: seq<T>, a: seq<T>, b: seq<T>, q: seq<T>)
    ensures LcsLength(p + a + q, p + b + q) == |p| + LcsLength(a, b) + |q|
  {
    LcsTrimSuffix(p + a, p + b, q);
    LcsReverse(p + a, p + b);
    LcsReverse(a, b);
    ReverseConcat(p, a);
    ReverseConcat(p, b);
    LcsTrimSuffix(Reverse(a), Reverse(b), Reverse(p));
  }

  lemma {:induction false} LcsTrimSuffix<T>(a: seq<T>, b: seq<T>, q: seq<T>)
    ensures LcsLength(a + q, b + q) == LcsLength(a, b) + |q|
    decreases |q|
  {
    if q == [] {
      assert a + q == a && b + q == b;
    } else {
      LcsTrimSuffix(a, b, Front(q));
      assert Front(a + q) == a + Front(q) && Front(b + q) == b + Front(q);
    }
  }
}
