/** The diff engine of the test runner: trimming, Hirschberg's linear-space longest common
    subsequence, and the walk that turns it into a numbered edit script.
    Tokens are compared with true equality, the non-regex callback. */
module Differ {
  import opened Subsequences

  /** One entry of the script; `line` is the 1-based line in the side the token belongs to. */
  datatype Edit<T> = Old(token: T) | Removed(token: T, line: nat) | Added(token: T, line: nat)

  // ---------- What a script means ----------

  /** The text a script reads as when the ADDED entries are dropped. */
  function FromSide<T>(diff: seq<Edit<T>>): seq<T> {
    if diff == [] then []
    else FromSide(Front(diff)) + if Last(diff).Added? then [] else [Last(diff).token]
  }

  /** The text a script reads as when the REMOVED entries are dropped. */
  function ToSide<T>(diff: seq<Edit<T>>): seq<T> {
    if diff == [] then []
    else ToSide(Front(diff)) + if Last(diff).Removed? then [] else [Last(diff).token]
  }

  function OldTokens<T>(diff: seq<Edit<T>>): seq<T> {
    if diff == [] then []
    else OldTokens(Front(diff)) + if Last(diff).Old? then [Last(diff).token] else []
  }

  /** The number of entries that are not OLD. */
  function Changes<T>(diff: seq<Edit<T>>): nat {
    if diff == [] then 0
    else Changes(Front(diff)) + if Last(diff).Old? then 0 else 1
  }

  /** Every number is the line at which the token stands in its own side. */
  ghost predicate Numbered<T>(diff: seq<Edit<T>>) {
    forall k :: 0 <= k < |diff| ==>
      (diff[k].Removed? ==> diff[k].line == |FromSide(diff[..k])| + 1) &&
      (diff[k].Added? ==> diff[k].line == |ToSide(diff[..k])| + 1)
  }

  /** Within a gap between OLD entries, removals come before additions. */
  ghost predicate RemovalsFirst<T>(diff: seq<Edit<T>>) {
    forall k :: 0 < k < |diff| && diff[k].Removed? ==> !diff[k - 1].Added?
  }

  lemma ExtendScript<T>(diff: seq<Edit<T>>, e: Edit<T>)
    ensures FromSide(diff + [e]) == FromSide(diff) + if e.Added? then [] else [e.token]
    ensures ToSide(diff + [e]) == ToSide(diff) + if e.Removed? then [] else [e.token]
    ensures OldTokens(diff + [e]) == OldTokens(diff) + if e.Old? then [e.token] else []
  {
    assert Front(diff + [e]) == diff;
  }

  lemma ExtendNumbered<T>(diff: seq<Edit<T>>, e: Edit<T>)
    requires Numbered(diff)
    requires e.Removed? ==> e.line == |FromSide(diff)| + 1
    requires e.Added? ==> e.line == |ToSide(diff)| + 1
    ensures Numbered(diff + [e])
  {
    forall k | 0 <= k < |diff| ensures (diff + [e])[..k] == diff[..k] {
    }
    assert (diff + [e])[..|diff|] == diff;
  }

  // ---------- Trimming ----------

  /** Cuts off the common prefix and, from what remains, the common suffix. */
  method GetArrayDiffParted<T(==)>(from0: seq<T>, to0: seq<T>)
    returns (from: seq<T>, to: seq<T>, start: seq<T>, end: seq<T>)
    ensures from0 == start + from + end && to0 == start + to + end
    ensures from != [] && to != [] ==> from[0] != to[0] && Last(from) != Last(to)
  {
    from, to, start, end := from0, to0, [], [];
    while |start| < |from0|
      invariant from0 == start + from && to0 == start + to
      invariant |start| == |from0| ==> from == []
    {
      if to == [] || from[0] != to[0] {
        break;
      }
      start, from, to := start + [from[0]], from[1..], to[1..];
    }
    while true
      invariant from0 == start + from + end && to0 == start + to + end
      invariant from != [] && to != [] && end == [] ==> from[0] != to[0]
      invariant from != [] && to != [] ==> from[0] != to[0]
      decreases |from|
    {
      if from == [] || to == [] || Last(from) != Last(to) {
        break;
      }
      end, from, to := [Last(from)] + end, Front(from), Front(to);
    }
  }

  // ---------- Longest common subsequence ----------

  /** One row of the length table, kept in place: entry `j` is the length against `to[..j]`. */
  method CommonSubsequenceLength<T(==)>(from: seq<T>, to: seq<T>) returns (current: seq<nat>)
    ensures |current| == |to| + 1
    ensures forall j :: 0 <= j <= |to| ==> current[j] == LcsLength(from, to[..j])
  {
    current := seq(|to| + 1, _ => 0);
    for i := 0 to |from|
      invariant |current| == |to| + 1
      invariant forall j :: 0 <= j <= |to| ==> current[j] == LcsLength(from[..i], to[..j])
    {
      var prev := current;
      assert Front(from[..i + 1]) == from[..i];
      for j := 0 to |to|
        invariant |current| == |to| + 1
        invariant forall k :: 0 <= k <= j ==> current[k] == LcsLength(from[..i + 1], to[..k])
      {
        assert Front(to[..j + 1]) == to[..j];
        if from[i] == to[j] {
          current := current[j + 1 := prev[j] + 1];
        } else {
          current := current[j + 1 := Max(current[j], prev[j + 1])];
        }
      }
    }
    assert from[..|from|] == from;
  }

  /** What cutting `to` at `j` promises. */
  ghost function SplitScore<T>(fromStart: seq<T>, fromEnd: seq<T>, to: seq<T>, j: nat): nat
    requires j <= |to|
  {
    LcsLength(fromStart, to[..j]) + LcsLength(fromEnd, to[j..])
  }

  /** Among the cuts `0..n`, the last one with the highest score. */
  ghost function LastBestCut<T>(fromStart: seq<T>, fromEnd: seq<T>, to: seq<T>, n: nat): (j: nat)
    requires n <= |to|
    ensures j <= n
    ensures forall i :: 0 <= i <= n ==>
              SplitScore(fromStart, fromEnd, to, i) <= SplitScore(fromStart, fromEnd, to, j)
    ensures forall i :: j < i <= n ==>
              SplitScore(fromStart, fromEnd, to, i) < SplitScore(fromStart, fromEnd, to, j)
  {
    if n == 0 then 0
    else
      var j := LastBestCut(fromStart, fromEnd, to, n - 1);
      if SplitScore(fromStart, fromEnd, to, n) >= SplitScore(fromStart, fromEnd, to, j) then n else j
  }

  /** The subsequence the divide and conquer settles on. */
  ghost function Hirschberg<T>(from: seq<T>, to: seq<T>): seq<T>
    decreases |from|
  {
    if from == [] then []
    else if |from| == 1 then if from[0] in to then from else []
    else
      var i := |from| / 2;
      var j := LastBestCut(from[..i], from[i..], to, |to|);
      Hirschberg(from[..i], to[..j]) + Hirschberg(from[i..], to[j..])
  }

  lemma HirschbergSingle<T>(x: T, to: seq<T>)
    ensures IsCommon(Hirschberg([x], to), [x], to)
    ensures |Hirschberg([x], to)| == LcsLength([x], to)
  {
    SubsequenceRefl([x]);
    var s := LcsIsAttained([x], to);
    SubsequenceLength(s, [x]);
    if x in to {
      MemberIsSubsequence(x, to);
      LcsIsUpperBound([x], [x], to);
    } else if s != [] {
      SubsequenceIsMember(s, [x]);
      SubsequenceIsMember(s, to);
    }
  }

  /** Gluing longest common subsequences at a best cut gives one for the whole. */
  lemma GlueAtBestCut<T>(a1: seq<T>, a2: seq<T>, to: seq<T>, j: nat, s1: seq<T>, s2: seq<T>)
    requires j == LastBestCut(a1, a2, to, |to|)
    requires IsCommon(s1, a1, to[..j]) && |s1| == LcsLength(a1, to[..j])
    requires IsCommon(s2, a2, to[j..]) && |s2| == LcsLength(a2, to[j..])
    ensures IsCommon(s1 + s2, a1 + a2, to) && |s1 + s2| == LcsLength(a1 + a2, to)
  {
    assert to[..j] + to[j..] == to;
    SubsequenceConcat(s1, a1, s2, a2);
    SubsequenceConcat(s1, to[..j], s2, to[j..]);
    BestCutScore(a1, a2, to, j);
  }

  lemma BestCutScore<T>(a1: seq<T>, a2: seq<T>, to: seq<T>, j: nat)
    requires j == LastBestCut(a1, a2, to, |to|)
    ensures SplitScore(a1, a2, to, j) == LcsLength(a1 + a2, to)
  {
    LcsSplitLower(a1, a2, to, j);
    var best := LcsSplitUpper(a1, a2, to);
    assert SplitScore(a1, a2, to, best) <= SplitScore(a1, a2, to, j);
  }

  lemma {:induction false} HirschbergIsCommon<T>(from: seq<T>, to: seq<T>)
    ensures IsCommon(Hirschberg(from, to), from, to)
    ensures |Hirschberg(from, to)| == LcsLength(from, to)
    decreases |from|
  {
    if |from| == 1 {
      assert from == [from[0]];
      HirschbergSingle(from[0], to);
    } else if |from| > 1 {
      var a1, a2 := from[..|from| / 2], from[|from| / 2..];
      assert a1 + a2 == from;
      var j := LastBestCut(a1, a2, to, |to|);
      HirschbergIsCommon(a1, to[..j]);
      HirschbergIsCommon(a2, to[j..]);
      var s1, s2 := Hirschberg(a1, to[..j]), Hirschberg(a2, to[j..]);
      GlueAtBestCut(a1, a2, to, j, s1, s2);
      assert Hirschberg(from, to) == s1 + s2;
    }
  }

  lemma {:induction false} MemberIsSubsequence<T>(x: T, a: seq<T>)
    requires x in a
    ensures IsSubsequence([x], a)
    decreases |a|
  {
    if a[0] != x {
      MemberIsSubsequence(x, a[1..]);
    }
  }

  lemma {:induction false} SubsequenceIsMember<T>(s: seq<T>, a: seq<T>)
    requires s != [] && IsSubsequence(s, a)
    ensures s[0] in a
    decreases |a|
  {
    if !(s[0] == a[0] && IsSubsequence(s[1..], a[1..])) {
      SubsequenceIsMember(s, a[1..]);
    }
  }

  /** The headline: the divide and conquer returns a longest common subsequence. */
  lemma HirschbergIsLongest<T(!new)>(from: seq<T>, to: seq<T>)
    ensures IsLongestCommon(Hirschberg(from, to), from, to)
  {
    HirschbergIsCommon(from, to);
    LongestCommonIff(Hirschberg(from, to), from, to);
  }

  lemma ReversedPrefix<T>(s: seq<T>, j: nat)
    requires j <= |s|
    ensures Reverse(s)[..|s| - j] == Reverse(s[j..])
  {
    assert s[..j] + s[j..] == s;
    ReverseConcat(s[..j], s[j..]);
  }

  /** The table of the reversed texts, read from its end, has the lengths against the suffixes. */
  lemma ReversedTable<T>(a: seq<T>, to: seq<T>, j: nat)
    requires j <= |to|
    ensures LcsLength(Reverse(a), Reverse(to)[..|to| - j]) == LcsLength(a, to[j..])
  {
    ReversedPrefix(to, j);
    LcsReverse(a, to[j..]);
  }

  /** Both tables hold the lengths against every prefix of their texts. */
  ghost predicate IsTable<T>(table: seq<nat>, a: seq<T>, to: seq<T>) {
    |table| == |to| + 1 && forall j :: 0 <= j <= |to| ==> table[j] == LcsLength(a, to[..j])
  }

  lemma CutScore<T>(a1: seq<T>, a2: seq<T>, to: seq<T>, start: seq<nat>, end: seq<nat>, j: nat)
    requires IsTable(start, a1, to) && IsTable(end, Reverse(a2), Reverse(to)) && j <= |to|
    ensures start[j] + end[|to| - j] == SplitScore(a1, a2, to, j)
  {
    ReversedTable(a2, to, j);
  }

  /** The last position at which one table and the other from its end add up to the most. */
  method LastHighest(llB: seq<nat>, llE: seq<nat>) returns (jMax: nat)
    requires |llB| == |llE| > 0
    ensures jMax < |llB|
    ensures forall j :: 0 <= j < |llB| ==>
              var best, m := llB[jMax] + llE[|llE| - 1 - jMax], llB[j] + llE[|llE| - 1 - j];
              m <= best && (j > jMax ==> m < best)
  {
    var cTo := |llB| - 1;
    var max := 0;
    jMax := 0;
    for j := 0 to cTo + 1
      invariant jMax <= cTo && (j == 0 ==> jMax == 0 && max == 0)
      invariant j > 0 ==> jMax < j && max == llB[jMax] + llE[cTo - jMax]
      invariant forall i :: 0 <= i < j ==> llB[i] + llE[cTo - i] <= max && (i > jMax ==> llB[i] + llE[cTo - i] < max)
    {
      var m := llB[j] + llE[cTo - j];
      if m >= max {
        max := m;
        jMax := j;
      }
    }
  }

  lemma BestCutIsUnique<T>(a1: seq<T>, a2: seq<T>, to: seq<T>, j: nat)
    requires j <= |to|
    requires forall i :: 0 <= i <= |to| ==>
               SplitScore(a1, a2, to, i) <= SplitScore(a1, a2, to, j)
               && (i > j ==> SplitScore(a1, a2, to, i) < SplitScore(a1, a2, to, j))
    ensures j == LastBestCut(a1, a2, to, |to|)
  {
  }

  /** The split point: the last cut of `to` at which the two length tables add up to the most. */
  method BestCut<T(==)>(fromStart: seq<T>, fromEnd: seq<T>, to: seq<T>) returns (jMax: nat)
    ensures jMax == LastBestCut(fromStart, fromEnd, to, |to|)
  {
    var llB := CommonSubsequenceLength(fromStart, to);
    var llE := CommonSubsequenceLength(Reverse(fromEnd), Reverse(to));
    jMax := LastHighest(llB, llE);
    forall j | 0 <= j <= |to| ensures llB[j] + llE[|to| - j] == SplitScore(fromStart, fromEnd, to, j) {
      CutScore(fromStart, fromEnd, to, llB, llE, j);
    }
    BestCutIsUnique(fromStart, fromEnd, to, jMax);
  }

  method CalculateCommonSubsequence<T(==, !new)>(from: seq<T>, to: seq<T>) returns (common: seq<T>)
    ensures common == Hirschberg(from, to) && IsLongestCommon(common, from, to)
    decreases |from|
  {
    HirschbergIsLongest(from, to);
    var cFrom := |from|;
    if cFrom == 0 {
      return [];
    }
    if cFrom == 1 {
      for k := 0 to |to|
        invariant from[0] !in to[..k]
      {
        if from[0] == to[k] {
          return [to[k]];
        }
      }
      return [];
    }
    var i := cFrom / 2;
    var jMax := BestCut(from[..i], from[i..], to);
    var head := CalculateCommonSubsequence(from[..i], to[..jMax]);
    var tail := CalculateCommonSubsequence(from[i..], to[jMax..]);
    common := head + tail;
  }

  // ---------- The edit script ----------

  /** The walk so far: `diff` accounts for everything but what is left of both sides. */
  ghost predicate Walking<T>(diff: seq<Edit<T>>, from: seq<T>, to: seq<T>, kept: seq<T>,
                             fromAll: seq<T>, toAll: seq<T>, fromLine: nat, toLine: nat) {
    && FromSide(diff) + from == fromAll && ToSide(diff) + to == toAll
    && OldTokens(diff) == kept
    && Numbered(diff) && RemovalsFirst(diff)
    && fromLine == |FromSide(diff)| + 1 && toLine == |ToSide(diff)| + 1
  }

  lemma StepRemoved<T>(diff: seq<Edit<T>>, from: seq<T>, to: seq<T>, kept: seq<T>,
                       fromAll: seq<T>, toAll: seq<T>, fromLine: nat, toLine: nat)
    requires Walking(diff, from, to, kept, fromAll, toAll, fromLine, toLine)
    requires from != [] && (diff != [] ==> !Last(diff).Added?)
    ensures Walking(diff + [Removed(from[0], fromLine)], from[1..], to, kept, fromAll, toAll, fromLine + 1, toLine)
  {
    ExtendScript(diff, Removed(from[0], fromLine));
    ExtendNumbered(diff, Removed(from[0], fromLine));
  }

  lemma StepAdded<T>(diff: seq<Edit<T>>, from: seq<T>, to: seq<T>, kept: seq<T>,
                     fromAll: seq<T>, toAll: seq<T>, fromLine: nat, toLine: nat)
    requires Walking(diff, from, to, kept, fromAll, toAll, fromLine, toLine)
    requires to != []
    ensures Walking(diff + [Added(to[0], toLine)], from, to[1..], kept, fromAll, toAll, fromLine, toLine + 1)
  {
    ExtendScript(diff, Added(to[0], toLine));
    ExtendNumbered(diff, Added(to[0], toLine));
  }

  lemma StepOld<T>(diff: seq<Edit<T>>, from: seq<T>, to: seq<T>, kept: seq<T>,
                   fromAll: seq<T>, toAll: seq<T>, fromLine: nat, toLine: nat, token: T)
    requires Walking(diff, from, to, kept, fromAll, toAll, fromLine, toLine)
    requires from != [] && to != [] && from[0] == token == to[0]
    ensures Walking(diff + [Old(token)], from[1..], to[1..], kept + [token], fromAll, toAll, fromLine + 1, toLine + 1)
  {
    ExtendScript(diff, Old(token));
    ExtendNumbered(diff, Old(token));
  }

  /** Emits a run of lines both sides share: the trimmed start, and later the trimmed end. */
  method EmitShared<T>(diff0: seq<Edit<T>>, tokens: seq<T>, ghost kept: seq<T>,
                       ghost fromAll: seq<T>, ghost toAll: seq<T>) returns (diff: seq<Edit<T>>)
    requires Walking(diff0, tokens, tokens, kept, fromAll, toAll, |FromSide(diff0)| + 1, |ToSide(diff0)| + 1)
    ensures Walking(diff, [], [], kept + tokens, fromAll, toAll, |fromAll| + 1, |toAll| + 1)
    ensures diff0 == [] && diff != [] ==> Last(diff).Old?
  {
    diff := diff0;
    for i := 0 to |tokens|
      invariant Walking(diff, tokens[i..], tokens[i..], kept + tokens[..i], fromAll, toAll,
                        |FromSide(diff)| + 1, |ToSide(diff)| + 1)
      invariant diff0 == [] && diff != [] ==> Last(diff).Old?
    {
      StepOld(diff, tokens[i..], tokens[i..], kept + tokens[..i], fromAll, toAll,
              |FromSide(diff)| + 1, |ToSide(diff)| + 1, tokens[i]);
      diff := diff + [Old(tokens[i])];
      TakeNext(tokens, i);
      Assoc(kept, tokens[..i], [tokens[i]]);
    }
    assert tokens[..|tokens|] == tokens;
  }

  /** Emits removals until the next common token heads `from`. */
  method RemoveUntil<T(==)>(diff0: seq<Edit<T>>, from0: seq<T>, fromLine0: nat, token: T,
                            ghost rest: seq<T>, ghost kept: seq<T>, ghost to: seq<T>, ghost toLine: nat,
                            ghost fromAll: seq<T>, ghost toAll: seq<T>)
    returns (diff: seq<Edit<T>>, from: seq<T>, fromLine: nat)
    requires Walking(diff0, from0, to, kept, fromAll, toAll, fromLine0, toLine)
    requires IsSubsequence([token] + rest, from0)
    requires diff0 != [] ==> !Last(diff0).Added?
    ensures Walking(diff, from, to, kept, fromAll, toAll, fromLine, toLine)
    ensures from != [] && from[0] == token && IsSubsequence(rest, from[1..])
  {
    diff, from, fromLine := diff0, from0, fromLine0;
    while from != [] && from[0] != token
      invariant Walking(diff, from, to, kept, fromAll, toAll, fromLine, toLine)
      invariant IsSubsequence([token] + rest, from)
      invariant diff != [] ==> !Last(diff).Added?
      decreases |from|
    {
      StepRemoved(diff, from, to, kept, fromAll, toAll, fromLine, toLine);
      diff := diff + [Removed(from[0], fromLine)];
      from, fromLine := from[1..], fromLine + 1;
    }
    SubsequenceTail([token] + rest, from);
    assert ([token] + rest)[1..] == rest;
  }

  /** Emits additions until the next common token heads `to`. */
  method AddUntil<T(==)>(diff0: seq<Edit<T>>, to0: seq<T>, toLine0: nat, token: T,
                         ghost rest: seq<T>, ghost kept: seq<T>, ghost from: seq<T>, ghost fromLine: nat,
                         ghost fromAll: seq<T>, ghost toAll: seq<T>)
    returns (diff: seq<Edit<T>>, to: seq<T>, toLine: nat)
    requires Walking(diff0, from, to0, kept, fromAll, toAll, fromLine, toLine0)
    requires IsSubsequence([token] + rest, to0)
    ensures Walking(diff, from, to, kept, fromAll, toAll, fromLine, toLine)
    ensures to != [] && to[0] == token && IsSubsequence(rest, to[1..])
  {
    diff, to, toLine := diff0, to0, toLine0;
    while to != [] && to[0] != token
      invariant Walking(diff, from, to, kept, fromAll, toAll, fromLine, toLine)
      invariant IsSubsequence([token] + rest, to)
      decreases |to|
    {
      StepAdded(diff, from, to, kept, fromAll, toAll, fromLine, toLine);
      diff := diff + [Added(to[0], toLine)];
      to, toLine := to[1..], toLine + 1;
    }
    SubsequenceTail([token] + rest, to);
    assert ([token] + rest)[1..] == rest;
  }

  /** Emits the gaps before the next common token, and then that token. */
  method EmitCommon<T(==)>(diff0: seq<Edit<T>>, from0: seq<T>, to0: seq<T>, token: T, fromLine0: nat, toLine0: nat,
                           ghost rest: seq<T>, ghost kept: seq<T>, ghost fromAll: seq<T>, ghost toAll: seq<T>)
    returns (diff: seq<Edit<T>>, from: seq<T>, to: seq<T>, fromLine: nat, toLine: nat)
    requires Walking(diff0, from0, to0, kept, fromAll, toAll, fromLine0, toLine0)
    requires IsCommon([token] + rest, from0, to0)
    requires diff0 != [] ==> Last(diff0).Old?
    ensures Walking(diff, from, to, kept + [token], fromAll, toAll, fromLine, toLine)
    ensures IsCommon(rest, from, to) && diff != [] && Last(diff).Old?
  {
    diff, from, fromLine := RemoveUntil(diff0, from0, fromLine0, token, rest, kept, to0, toLine0, fromAll, toAll);
    diff, to, toLine := AddUntil(diff, to0, toLine0, token, rest, kept, from, fromLine, fromAll, toAll);
    StepOld(diff, from, to, kept, fromAll, toAll, fromLine, toLine, token);
    diff := diff + [Old(token)];
    from, to, fromLine, toLine := from[1..], to[1..], fromLine + 1, toLine + 1;
  }

  /** Emits the untrimmed middle: gaps around the common tokens, then what is left over. */
  method EmitMiddle<T(==)>(diff0: seq<Edit<T>>, from0: seq<T>, to0: seq<T>, common: seq<T>,
                           fromLine0: nat, toLine0: nat, ghost kept: seq<T>,
                           ghost fromAll: seq<T>, ghost toAll: seq<T>) returns (diff: seq<Edit<T>>)
    requires Walking(diff0, from0, to0, kept, fromAll, toAll, fromLine0, toLine0)
    requires IsCommon(common, from0, to0)
    requires diff0 != [] ==> Last(diff0).Old?
    ensures Walking(diff, [], [], kept + common, fromAll, toAll, |fromAll| + 1, |toAll| + 1)
  {
    var from, to, fromLine, toLine := from0, to0, fromLine0, toLine0;
    diff := diff0;
    ghost var soFar := kept;
    for i := 0 to |common|
      invariant soFar == kept + common[..i] && Walking(diff, from, to, soFar, fromAll, toAll, fromLine, toLine)
      invariant IsCommon(common[i..], from, to)
      invariant diff != [] ==> Last(diff).Old?
    {
      assert common[i..] == [common[i]] + common[i + 1..];
      diff, from, to, fromLine, toLine := EmitCommon(diff, from, to, common[i], fromLine, toLine,
                                                     common[i + 1..], soFar, fromAll, toAll);
      TakeNext(common, i);
      Assoc(kept, common[..i], [common[i]]);
      soFar := soFar + [common[i]];
    }
    assert common[..|common|] == common;
    diff := EmitLeftovers(diff, from, to, fromLine, toLine, soFar, fromAll, toAll);
  }

  method EmitLeftovers<T>(diff0: seq<Edit<T>>, from0: seq<T>, to0: seq<T>, fromLine0: nat, toLine0: nat,
                          ghost kept: seq<T>, ghost fromAll: seq<T>, ghost toAll: seq<T>)
    returns (diff: seq<Edit<T>>)
    requires Walking(diff0, from0, to0, kept, fromAll, toAll, fromLine0, toLine0)
    requires diff0 != [] ==> Last(diff0).Old?
    ensures Walking(diff, [], [], kept, fromAll, toAll, |fromAll| + 1, |toAll| + 1)
  {
    var from, to, fromLine, toLine := from0, to0, fromLine0, toLine0;
    diff := diff0;
    while from != []
      invariant Walking(diff, from, to, kept, fromAll, toAll, fromLine, toLine)
      invariant diff != [] ==> !Last(diff).Added?
      decreases |from|
    {
      StepRemoved(diff, from, to, kept, fromAll, toAll, fromLine, toLine);
      diff := diff + [Removed(from[0], fromLine)];
      from, fromLine := from[1..], fromLine + 1;
    }
    while to != []
      invariant Walking(diff, [], to, kept, fromAll, toAll, fromLine, toLine)
      decreases |to|
    {
      StepAdded(diff, [], to, kept, fromAll, toAll, fromLine, toLine);
      diff := diff + [Added(to[0], toLine)];
      to, toLine := to[1..], toLine + 1;
    }
  }

  method DiffToArray<T(==, !new)>(from0: seq<T>, to0: seq<T>) returns (diff: seq<Edit<T>>)
    ensures FromSide(diff) == from0 && ToSide(diff) == to0
    ensures Numbered(diff) && RemovalsFirst(diff)
    ensures |OldTokens(diff)| == LcsLength(from0, to0)
  {
    var from, to, start, end := GetArrayDiffParted(from0, to0);
    var common := CalculateCommonSubsequence(from, to);
    HirschbergIsCommon(from, to);
    diff := EmitShared([], start, [], start, start);
    Rebase(diff, start, start, start, from, to);
    diff := EmitMiddle(diff, from, to, common, |start| + 1, |start| + 1, start, start + from, start + to);
    Rebase(diff, start + common, start + from, start + to, end, end);
    diff := EmitShared(diff, end, start + common, from0, to0);
    assert |OldTokens(diff)| == LcsLength(from0, to0) by {
      LcsTrim(start, from, to, end);
    }
  }

  /** When both sides are used up, a longer pair of texts can be walked on with. */
  lemma Rebase<T>(diff: seq<Edit<T>>, kept: seq<T>, a: seq<T>, b: seq<T>, from: seq<T>, to: seq<T>)
    requires Walking(diff, [], [], kept, a, b, |a| + 1, |b| + 1)
    ensures Walking(diff, from, to, kept, a + from, b + to, |FromSide(diff)| + 1, |ToSide(diff)| + 1)
    ensures |FromSide(diff)| == |a| && |ToSide(diff)| == |b|
  {
  }

  // ---------- No script is shorter ----------

  lemma {:induction false} OldTokensAreCommon<T>(diff: seq<Edit<T>>)
    ensures IsCommon(OldTokens(diff), FromSide(diff), ToSide(diff))
    ensures Changes(diff) + 2 * |OldTokens(diff)| == |FromSide(diff)| + |ToSide(diff)|
  {
    if diff != [] {
      var d, e := Front(diff), Last(diff);
      OldTokensAreCommon(d);
      SubsequenceAppendLast(OldTokens(d), FromSide(d), e.token);
      SubsequenceAppendLast(OldTokens(d), ToSide(d), e.token);
      assert OldTokens(d) + [] == OldTokens(d);
      assert FromSide(d) + [] == FromSide(d) && ToSide(d) + [] == ToSide(d);
    }
  }

  /** A script for two texts has the fewest changes exactly when it keeps as many OLD
      entries as the longest common subsequence has; the engine's script does. */
  lemma ScriptIsMinimalIff<T(!new)>(diff: seq<Edit<T>>)
    ensures |OldTokens(diff)| == LcsLength(FromSide(diff), ToSide(diff)) <==>
            (forall other: seq<Edit<T>> :: FromSide(other) == FromSide(diff) && ToSide(other) == ToSide(diff) ==>
              Changes(diff) <= Changes(other))
  {
    var a, b := FromSide(diff), ToSide(diff);
    OldTokensAreCommon(diff);
    LcsIsUpperBound(OldTokens(diff), a, b);
    forall other: seq<Edit<T>> | FromSide(other) == a && ToSide(other) == b
      ensures Changes(other) >= |a| + |b| - 2 * LcsLength(a, b)
    {
      OldTokensAreCommon(other);
      LcsIsUpperBound(OldTokens(other), a, b);
    }
    var s := LcsIsAttained(a, b);
    var best := ScriptFor(s, a, b);
    OldTokensAreCommon(best);
  }

  ghost predicate IsScript<T>(diff: seq<Edit<T>>, s: seq<T>, a: seq<T>, b: seq<T>) {
    FromSide(diff) == a && ToSide(diff) == b && OldTokens(diff) == s
  }

  /** A script for both texts without their last lines is one entry short of a script for them. */
  lemma OneMoreEntry<T>(d: seq<Edit<T>>, s: seq<T>, a: seq<T>, b: seq<T>, t: T)
    requires IsScript(d, s, a, b)
    ensures IsScript(d + [Removed(t, 0)], s, a + [t], b)
    ensures IsScript(d + [Added(t, 0)], s, a, b + [t])
    ensures IsScript(d + [Old(t)], s + [t], a + [t], b + [t])
  {
    ExtendScript(d, Removed(t, 0));
    ExtendScript(d, Added(t, 0));
    ExtendScript(d, Old(t));
  }

  /** Every common subsequence is what some script keeps. */
  lemma {:induction false} ScriptFor<T>(s: seq<T>, a: seq<T>, b: seq<T>) returns (diff: seq<Edit<T>>)
    requires IsCommon(s, a, b)
    ensures IsScript(diff, s, a, b)
    decreases |a| + |b|
  {
    if a != [] && (s == [] || Last(s) != Last(a)) {
      WithoutLast(s, a);
      var d := ScriptFor(s, Front(a), b);
      OneMoreEntry(d, s, Front(a), b, Last(a));
      diff := d + [Removed(Last(a), 0)];
    } else if b != [] && (s == [] || Last(s) != Last(b)) {
      WithoutLast(s, b);
      var d := ScriptFor(s, a, Front(b));
      OneMoreEntry(d, s, a, Front(b), Last(b));
      diff := d + [Added(Last(b), 0)];
    } else if s != [] {
      SubsequenceLast(s, a);
      SubsequenceLast(s, b);
      var d := ScriptFor(Front(s), Front(a), Front(b));
      OneMoreEntry(d, Front(s), Front(a), Front(b), Last(s));
      diff := d + [Old(Last(s))];
    } else {
      diff := [];
    }
    FrontLast(s);
    FrontLast(a);
    FrontLast(b);
  }

  lemma FrontLast<T>(s: seq<T>)
    ensures s != [] ==> Front(s) + [Last(s)] == s
  {
  }

  lemma WithoutLast<T>(s: seq<T>, a: seq<T>)
    requires a != [] && IsSubsequence(s, a) && (s == [] || Last(s) != Last(a))
    ensures IsSubsequence(s, Front(a))
  {
    if s != [] {
      SubsequenceLast(s, a);
    }
  }
}
