/** Translating file positions between the server's and the editor's view of the source:
    exact entries, directory rules and line ranges. */
module PathMaps {
  import opened Wrappers

  /** Lines `from` map to lines `to`; without a path, the range is skipped. */
  datatype Range = Range(from: Span, to: Span, path: Option<string>)

  datatype Span = Span(begin: nat, end: nat)

  /** What a map holds for a path; the paths inside are those of the other side. */
  datatype Mapping = Skip | Directory(target: string) | File(target: string) | Lines(ranges: Option<seq<Range>>)

  type Map = map<string, Mapping>

  datatype Kind = IsDirectory | IsFile | IsLines

  datatype Result = Unknown | Skipped | Found(kind: Kind, path: string, line: nat)

  // ---------- Line ranges ----------

  predicate Covers(r: Range, line: nat) {
    r.from.begin <= line <= r.from.end
  }

  function Translate(r: Range, line: nat): nat
    requires Covers(r, line)
  {
    if r.to.begin == r.to.end then r.to.begin else line - r.from.begin + r.to.begin
  }

  /** Where a line of a range goes: to the single line there is, or as far from the first line of
      the other side as it is from its own. */
  ghost predicate IsImage(r: Range, line: nat, image: nat) {
    Covers(r, line) &&
    if r.to.begin == r.to.end then image == r.to.begin
    else image - r.to.begin == line - r.from.begin
  }

  /** The first range, in order, that covers the line. */
  function FirstCover(ranges: seq<Range>, line: nat): (i: nat)
    ensures i <= |ranges|
    ensures i < |ranges| ==> Covers(ranges[i], line)
    ensures forall k :: 0 <= k < i ==> !Covers(ranges[k], line)
  {
    if ranges == [] || Covers(ranges[0], line) then 0
    else
      var i := 1 + FirstCover(ranges[1..], line);
      assert forall k :: 1 <= k < i ==> ranges[k] == ranges[1..][k - 1];
      i
  }

  predicate Sorted(ranges: seq<Range>) {
    && (forall i :: 0 <= i < |ranges| ==> ranges[i].from.begin <= ranges[i].from.end)
    && (forall i, j :: 0 <= i < j < |ranges| ==> ranges[i].from.end < ranges[j].from.begin)
  }

  /** The range the search ends at, if any, between two positions. */
  function Probe(ranges: seq<Range>, line: nat, low: int, high: int): (i: Option<nat>)
    requires 0 <= low <= high + 1 <= |ranges|
    ensures i.Some? ==> low <= i.value <= high && Covers(ranges[i.value], line)
    decreases high - low
  {
    if low > high then None
    else
      var mid := low + (high - low) / 2;
      if Covers(ranges[mid], line) then Some(mid)
      else if line < ranges[mid].from.begin then Probe(ranges, line, low, mid - 1)
      else Probe(ranges, line, mid + 1, high)
  }

  function Find(ranges: seq<Range>, line: nat): Option<nat> {
    Probe(ranges, line, 0, |ranges| - 1)
  }

  /** What was found is what one of the ranges around the line gives. */
  ghost predicate SomeCover(ranges: seq<Range>, line: nat, found: Option<(Option<string>, nat)>) {
    exists i: nat :: i < |ranges| && Covers(ranges[i], line)
                     && found == Some((ranges[i].path, Translate(ranges[i], line)))
  }

  lemma {:induction false} SortedIsFound(ranges: seq<Range>, line: nat, low: int, high: int, k: nat)
    requires 0 <= low <= k <= high < |ranges| && Sorted(ranges) && Covers(ranges[k], line)
    ensures Probe(ranges, line, low, high) == Some(k)
    decreases high - low
  {
    var mid := low + (high - low) / 2;
    if k < mid {
      assert ranges[k].from.end < ranges[mid].from.begin;
      SortedIsFound(ranges, line, low, mid - 1, k);
    } else if mid < k {
      assert ranges[mid].from.end < ranges[k].from.begin;
      SortedIsFound(ranges, line, mid + 1, high, k);
    }
  }

  /** In sorted ranges the first cover is found. */
  lemma FindsFirst(ranges: seq<Range>, line: nat)
    ensures Sorted(ranges) ==>
              Find(ranges, line) == var i := FirstCover(ranges, line); if i < |ranges| then Some(i) else None
  {
    var i := FirstCover(ranges, line);
    if Sorted(ranges) && i < |ranges| {
      SortedIsFound(ranges, line, 0, |ranges| - 1, i);
    }
  }

  /** What the range at a position gives. */
  function Given(ranges: seq<Range>, line: nat, i: Option<nat>): Option<(Option<string>, nat)>
    requires i.Some? ==> i.value < |ranges| && Covers(ranges[i.value], line)
  {
    if i.None? then None else Some((ranges[i.value].path, Translate(ranges[i.value], line)))
  }

  /** The binary search, with its three ways to match. */
  method BinarySearch(ranges: seq<Range>, from: int, to: int, line: nat) returns (found: Option<(Option<string>, nat)>)
    requires 0 <= from <= to + 1 <= |ranges|
    ensures found == Given(ranges, line, Probe(ranges, line, from, to))
  {
    var low, high := from, to;
    while low <= high
      invariant 0 <= low <= high + 1 <= |ranges|
      invariant Probe(ranges, line, from, to) == Probe(ranges, line, low, high)
      decreases high - low
    {
      var mid := low + (high - low) / 2;
      var r := ranges[mid];
      if r.from.begin == r.from.end && r.to.begin == r.to.end && line == r.from.begin {
        return Some((r.path, r.to.begin));
      }
      if r.to.begin == r.to.end && line >= r.from.begin && line <= r.from.end {
        return Some((r.path, r.to.begin));
      }
      if line >= r.from.begin && line <= r.from.end {
        return Some((r.path, line - r.from.begin + r.to.begin));
      }
      if line < r.from.begin {
        high := mid - 1;
      } else {
        low := mid + 1;
      }
    }
    return None;
  }

  /** In ranges that are sorted and disjoint the search finds what a linear scan finds; in others it
      still never finds a range that is not there. */
  method Search(ranges: seq<Range>, line: nat) returns (found: Option<(Option<string>, nat)>)
    ensures found == Given(ranges, line, Find(ranges, line))
    ensures found == None || SomeCover(ranges, line, found)
    ensures found.Some? ==>
              exists r :: r in ranges && IsImage(r, line, found.value.1) && found.value.0 == r.path
    ensures Sorted(ranges) ==>
              var i := FirstCover(ranges, line);
              found == if i < |ranges| then Some((ranges[i].path, Translate(ranges[i], line))) else None
  {
    found := BinarySearch(ranges, 0, |ranges| - 1, line);
    FindsFirst(ranges, line);
  }

  lemma OnlyCover(ranges: seq<Range>, line: nat, i: nat)
    requires i < |ranges| && Covers(ranges[i], line)
    ensures Sorted(ranges) ==> FirstCover(ranges, line) == i
  {
    assert FirstCover(ranges, line) <= i;
  }

  // ---------- When every line is found ----------

  /** No range is empty, and no line is in two of them. */
  predicate Disjoint(ranges: seq<Range>) {
    && (forall i :: 0 <= i < |ranges| ==> ranges[i].from.begin <= ranges[i].from.end)
    && (forall i, j :: 0 <= i < j < |ranges| ==>
          ranges[i].from.end < ranges[j].from.begin || ranges[j].from.end < ranges[i].from.begin)
  }

  /** Two lines that the same search finds in different ranges are in the order of these. */
  lemma {:induction false} FoundInOrder(ranges: seq<Range>, a: nat, b: nat, low: int, high: int, i: nat, j: nat)
    requires 0 <= low <= high + 1 <= |ranges| && i < j
    requires Probe(ranges, a, low, high) == Some(i) && Probe(ranges, b, low, high) == Some(j)
    ensures a < b
    decreases high - low
  {
    var mid := low + (high - low) / 2;
    if i < j < mid {
      FoundInOrder(ranges, a, b, low, mid - 1, i, j);
    } else if mid < i {
      FoundInOrder(ranges, a, b, mid + 1, high, i, j);
    }
  }

  /** Over ranges that do not overlap, every line of a range is found if and only if they are sorted. */
  lemma FindsAllIff(ranges: seq<Range>)
    requires Disjoint(ranges)
    ensures (forall line: nat, k: nat :: k < |ranges| && Covers(ranges[k], line) ==> Find(ranges, line) == Some(k))
            <==> Sorted(ranges)
  {
    if Sorted(ranges) {
      forall line: nat, k: nat | k < |ranges| && Covers(ranges[k], line) ensures Find(ranges, line) == Some(k) {
        SortedIsFound(ranges, line, 0, |ranges| - 1, k);
      }
    } else {
      var i, j :| 0 <= i < j < |ranges| && ranges[i].from.end >= ranges[j].from.begin;
      var a, b := ranges[i].from.end, ranges[j].from.begin;
      assert Covers(ranges[i], a) && Covers(ranges[j], b);
      if Find(ranges, a) == Some(i) && Find(ranges, b) == Some(j) {
        FoundInOrder(ranges, a, b, 0, |ranges| - 1, i, j);
      }
    }
  }

  /** Two ranges out of order: no line of the second one is found. */
  lemma OutOfOrderMisses(first: Range, second: Range, line: nat)
    requires Covers(second, line) && line < first.from.begin
    ensures Find([first, second], line) == None
  {
  }

  // ---------- Directory rules ----------

  const SLASH := '/'

  /** The last slash among the first n characters, found from the left. */
  method StrRNChr(s: string, c: char, n: nat) returns (last: Option<nat>)
    requires n <= |s|
    ensures last.Some? ==> last.value < n && s[last.value] == c && forall k :: last.value < k < n ==> s[k] != c
    ensures last.None? ==> forall k :: 0 <= k < n ==> s[k] != c
  {
    last := None;
    for i := 0 to n
      invariant last.Some? ==> last.value < i && s[last.value] == c && forall k :: last.value < k < i ==> s[k] != c
      invariant last.None? ==> forall k :: 0 <= k < i ==> s[k] != c
    {
      if s[i] == c {
        last := Some(i);
      }
    }
  }

  /** The first n characters are a directory that has a rule. */
  predicate IsRule(m: Map, s: string, n: nat, skips: bool) {
    0 < n <= |s| && s[n - 1] == SLASH && s[..n] in m
    && (m[s[..n]].Directory? || (skips && m[s[..n]].Skip?))
  }

  /** The longest directory, of at most n characters, that has a rule. */
  ghost predicate IsLongestRule(m: Map, s: string, n: nat, skips: bool, e: nat) {
    e <= n && (e > 0 ==> IsRule(m, s, e, skips)) && forall k: nat :: e < k <= n ==> !IsRule(m, s, k, skips)
  }

  /** The walk over ever shorter directories of the path; 0 if none of them has a rule. */
  method FindRule(m: Map, path: string, skips: bool) returns (e: nat)
    ensures IsLongestRule(m, path, |path|, skips, e)
  {
    var slash := StrRNChr(path, SLASH, |path|);
    if slash.None? {
      return 0;
    }
    var directory := path[..slash.value + 1];
    slash := StrRNChr(directory, SLASH, |directory|);
    while slash.Some?
      invariant |directory| <= |path| && directory == path[..|directory|]
      invariant slash.Some? ==> 0 <= slash.value < |directory| && directory[slash.value] == SLASH
      invariant var n := if slash.Some? then slash.value + 1 else 0;
                forall k: nat :: n < k <= |path| ==> !IsRule(m, path, k, skips)
      decreases if slash.Some? then slash.value + 1 else 0
    {
      var n := slash.value + 1;
      assert directory[..n] == path[..n] && path[n - 1] == SLASH;
      if directory[..n] in m {
        var rule := m[directory[..n]];
        if rule.Directory? || (skips && rule.Skip?) {
          return n;
        }
      }
      slash := StrRNChr(directory, SLASH, n - 1);
    }
    return 0;
  }

  // ---------- The lookups ----------

  /** What the entry of the path itself gives. */
  function Exact(entry: Mapping, line: nat): Result {
    match entry
    case Skip => Skipped
    case Directory(target) => Found(IsDirectory, target, line)
    case File(target) => Found(IsFile, target, line)
    case Lines(ranges) =>
      if ranges.None? then Unknown
      else
        var i := FirstCover(ranges.value, line);
        if i == |ranges.value| then Unknown
        else if ranges.value[i].path.None? then Skipped
        else Found(IsLines, ranges.value[i].path.value, Translate(ranges.value[i], line))
  }

  /** What the longest rule for a directory of the path gives. */
  function ByRule(m: Map, path: string, line: nat, skips: bool, e: nat): Result
    requires e > 0 ==> IsRule(m, path, e, skips)
  {
    if e == 0 then Unknown
    else
      var rule := m[path[..e]];
      if rule.Skip? then Skipped else Found(IsDirectory, rule.target + path[e..], line)
  }

  /** The ranges of an entry, if it has any, are sorted and disjoint. */
  predicate SortedEntry(entry: Mapping) {
    entry.Lines? && entry.ranges.Some? ==> Sorted(entry.ranges.value)
  }

  function AtRange(r: Range, line: nat): Result
    requires Covers(r, line)
  {
    if r.path.None? then Skipped else Found(IsLines, r.path.value, Translate(r, line))
  }

  /** The exact entry if there is one, else the longest directory rule, else nothing. An entry
      whose ranges are not sorted may give any range around the line, or none. */
  ghost predicate IsLookup(m: Map, path: string, line: nat, skips: bool, r: Result) {
    if path in m then
      if SortedEntry(m[path]) then r == Exact(m[path], line)
      else
        var ranges := m[path].ranges.value;
        r == Unknown || exists i: nat :: i < |ranges| && Covers(ranges[i], line) && r == AtRange(ranges[i], line)
    else exists e: nat :: IsLongestRule(m, path, |path|, skips, e) && r == ByRule(m, path, line, skips, e)
  }

  /** The specification determines the result. */
  lemma LookupIsUnique(m: Map, path: string, line: nat, skips: bool, r: Result, q: Result)
    requires path in m ==> SortedEntry(m[path])
    requires IsLookup(m, path, line, skips, r) && IsLookup(m, path, line, skips, q)
    ensures r == q
  {
    if path !in m {
      var e: nat :| IsLongestRule(m, path, |path|, skips, e) && r == ByRule(m, path, line, skips, e);
      var d: nat :| IsLongestRule(m, path, |path|, skips, d) && q == ByRule(m, path, line, skips, d);
      assert !(d < e) && !(e < d);
    }
  }

  /** A directory of the map whose rule can be used: one to skip only where skipping is known. */
  predicate Usable(entry: Mapping, skips: bool) {
    entry.Directory? || (skips && entry.Skip?)
  }

  /** A path without an entry of its own, under a directory that has a rule, with no rule for a
      directory between the two: it is skipped, or its directory is exchanged and the line kept. */
  lemma RuleApplies(m: Map, dir: string, tail: string, line: nat, skips: bool, r: Result)
    requires dir != [] && dir[|dir| - 1] == SLASH && dir in m && Usable(m[dir], skips)
    requires dir + tail !in m && IsLookup(m, dir + tail, line, skips, r)
    requires forall k: nat :: k < |tail| && tail[k] == SLASH && dir + tail[..k + 1] in m ==>
               !Usable(m[dir + tail[..k + 1]], skips)
    ensures r == if m[dir].Skip? then Skipped else Found(IsDirectory, m[dir].target + tail, line)
  {
    var path := dir + tail;
    assert path[..|dir|] == dir && path[|dir|..] == tail;
    forall k: nat | |dir| < k <= |path| ensures !IsRule(m, path, k, skips) {
      assert path[..k] == dir + tail[..k - |dir| - 1 + 1];
      assert path[k - 1] == tail[k - |dir| - 1];
    }
    LookupIsUnique(m, path, line, skips, r, ByRule(m, path, line, skips, |dir|)) by {
      assert IsLongestRule(m, path, |path|, skips, |dir|);
    }
  }

  /** Without an entry or a rule for any of its directories a path is unknown. */
  lemma NoRuleApplies(m: Map, path: string, line: nat, skips: bool, r: Result)
    requires path !in m && IsLookup(m, path, line, skips, r)
    requires forall k: nat :: 0 < k <= |path| && path[k - 1] == SLASH && path[..k] in m ==> !Usable(m[path[..k]], skips)
    ensures r == Unknown
  {
    var e: nat :| IsLongestRule(m, path, |path|, skips, e) && r == ByRule(m, path, line, skips, e);
    assert e > 0 ==> IsRule(m, path, e, skips);
  }

  /** A range of several lines keeps them in order and in step: its first line goes to the first
      line of the other side, the last to the last if there are as many, the next to the next. */
  lemma LinesKeepStep(r: Range, line: nat)
    requires Covers(r, line) && r.path.Some? && r.to.begin < r.to.end
    ensures AtRange(r, r.from.begin) == Found(IsLines, r.path.value, r.to.begin)
    ensures SpansFit(r) ==> AtRange(r, r.from.end) == Found(IsLines, r.path.value, r.to.end)
    ensures AtRange(r, line).Found? && (SpansFit(r) ==> r.to.begin <= AtRange(r, line).line <= r.to.end)
    ensures line < r.from.end ==> AtRange(r, line + 1) == AtRange(r, line).(line := AtRange(r, line).line + 1)
  {
  }

  /** The same of the lookups, in either direction: consecutive lines of a range stay consecutive,
      and the ends of a range are the ends of its image. */
  lemma LookupsKeepStep(m: Map, path: string, ranges: seq<Range>, k: nat, line: nat, skips: bool,
                        first: Result, last: Result, here: Result, next: Result)
    requires path in m && m[path] == Lines(Some(ranges)) && Sorted(ranges) && k < |ranges|
    requires Covers(ranges[k], line) && line < ranges[k].from.end
    requires ranges[k].path.Some? && ranges[k].to.begin < ranges[k].to.end && SpansFit(ranges[k])
    requires IsLookup(m, path, ranges[k].from.begin, skips, first) && IsLookup(m, path, ranges[k].from.end, skips, last)
    requires IsLookup(m, path, line, skips, here) && IsLookup(m, path, line + 1, skips, next)
    ensures var r := ranges[k];
            && first == Found(IsLines, r.path.value, r.to.begin) && last == Found(IsLines, r.path.value, r.to.end)
            && here.Found? && next == here.(line := here.line + 1)
            && r.to.begin <= here.line < r.to.end
  {
    var r := ranges[k];
    OnlyCover(ranges, r.from.begin, k);
    OnlyCover(ranges, r.from.end, k);
    OnlyCover(ranges, line, k);
    OnlyCover(ranges, line + 1, k);
    LinesKeepStep(r, line);
  }

  /** Every line of a range that maps to a single line is found there. */
  lemma LookupsMeet(m: Map, path: string, ranges: seq<Range>, k: nat, line: nat, skips: bool, r: Result)
    requires path in m && m[path] == Lines(Some(ranges)) && Sorted(ranges) && k < |ranges|
    requires Covers(ranges[k], line) && ranges[k].path.Some? && ranges[k].to.begin == ranges[k].to.end
    requires IsLookup(m, path, line, skips, r)
    ensures r == Found(IsLines, ranges[k].path.value, ranges[k].to.begin)
  {
    OnlyCover(ranges, line, k);
  }

  method RemoteToLocal(m: Map, path: string, line: nat) returns (r: Result)
    ensures IsLookup(m, path, line, true, r)
  {
    if path !in m {
      var e := FindRule(m, path, true);
      if e == 0 {
        return Unknown;
      }
      var rule := m[path[..e]];
      if rule.Skip? {
        return Skipped;
      }
      return Found(IsDirectory, rule.target + path[e..], line);
    }
    match m[path]
    case Skip => return Skipped;
    case Directory(target) => return Found(IsDirectory, target, line);
    case File(target) => return Found(IsFile, target, line);
    case Lines(ranges) =>
      if ranges.None? {
        return Unknown;
      }
      var found := Search(ranges.value, line);
      if found.None? {
        return Unknown;
      }
      if found.value.0.None? {
        return Skipped;
      }
      return Found(IsLines, found.value.0.value, found.value.1);
  }

  /** The reverse map holds no skip rules, and its ranges all have a path. */
  ghost predicate ValidReverse(m: Map) {
    forall p :: p in m ==> !m[p].Skip? && (m[p].Lines? ==> m[p].ranges.Some? && HavePaths(m[p].ranges.value))
  }

  predicate HavePaths(ranges: seq<Range>) {
    forall i :: 0 <= i < |ranges| ==> ranges[i].path.Some?
  }

  method LocalToRemote(m: Map, path: string, line: nat) returns (r: Result)
    requires ValidReverse(m)
    ensures IsLookup(m, path, line, false, r) && r != Skipped
  {
    if path !in m {
      var e := FindRule(m, path, false);
      if e == 0 {
        return Unknown;
      }
      return Found(IsDirectory, m[path[..e]].target + path[e..], line);
    }
    match m[path]
    case Skip => assert false;
    case Directory(target) => return Found(IsDirectory, target, line);
    case File(target) => return Found(IsFile, target, line);
    case Lines(ranges) =>
      var found := Search(ranges.value, line);
      if found.None? {
        return Unknown;
      }
      return Found(IsLines, found.value.0.value, found.value.1);
  }

  // ---------- There and back ----------

  /** The ranges of the reverse map: those not skipped, with the sides exchanged. */
  function Reversed(ranges: seq<Range>, path: string): seq<Range> {
    if ranges == [] then []
    else if ranges[0].path.None? then Reversed(ranges[1..], path)
    else [Flip(ranges[0], path)] + Reversed(ranges[1..], path)
  }

  function Flip(r: Range, path: string): Range {
    Range(r.to, r.from, Some(path))
  }

  /** What the map files allow: several lines only map to as many; any lines map to one. */
  predicate SpansFit(r: Range) {
    r.path.Some? ==> r.to.begin == r.to.end || r.from.end - r.from.begin == r.to.end - r.to.begin
  }

  /** All ranges that are not skipped fit and name this local file. */
  predicate AllFit(ranges: seq<Range>, local: string) {
    forall k :: 0 <= k < |ranges| ==> SpansFit(ranges[k]) && (ranges[k].path == None || ranges[k].path == Some(local))
  }

  lemma {:induction false} ReversedOrigin(ranges: seq<Range>, path: string, i: nat) returns (k: nat)
    requires i < |Reversed(ranges, path)|
    ensures k < |ranges| && ranges[k].path.Some? && Reversed(ranges, path)[i] == Flip(ranges[k], path)
  {
    if ranges[0].path.None? {
      k := ReversedOrigin(ranges[1..], path, i);
      k := k + 1;
    } else if i == 0 {
      k := 0;
    } else {
      k := ReversedOrigin(ranges[1..], path, i - 1);
      k := k + 1;
    }
  }

  /** Whichever reverse range around a local line is found, its remote position leads back. */
  lemma LinesRoundTrip(ranges: seq<Range>, remote: string, local: string, line: nat, i: nat)
    requires Sorted(ranges) && AllFit(ranges, local)
    requires i < |Reversed(ranges, remote)| && Covers(Reversed(ranges, remote)[i], line)
    ensures var there := AtRange(Reversed(ranges, remote)[i], line);
            there.Found? && there.path == remote
            && Exact(Lines(Some(ranges)), there.line) == Found(IsLines, local, line)
  {
    var back := Reversed(ranges, remote);
    var k := ReversedOrigin(ranges, remote, i);
    var r := ranges[k];
    var far := Translate(back[i], line);
    assert SpansFit(r) && Covers(r, far) && Translate(r, far) == line;
    OnlyCover(ranges, far, k);
  }

  /** The reverse map mirrors the forward one for the files named in it. */
  ghost predicate Mirrors(forward: Map, reverse: Map, local: string) {
    local in reverse &&
    match reverse[local]
    case File(remote) => remote in forward && forward[remote] == File(local)
    case Lines(ranges) => exists remote, there: seq<Range> :: MirrorsLines(forward, ranges, local, remote, there)
    case _ => false
  }

  ghost predicate MirrorsLines(forward: Map, ranges: Option<seq<Range>>, local: string, remote: string,
                               there: seq<Range>) {
    && remote in forward && forward[remote] == Lines(Some(there)) && Sorted(there) && AllFit(there, local)
    && ranges == Some(Reversed(there, remote))
  }

  /** The two lookups one after the other give back every position that maps at all. */
  method ThereAndBack(forward: Map, reverse: Map, local: string, line: nat) returns (there: Result, back: Result)
    requires ValidReverse(reverse) && Mirrors(forward, reverse, local)
    ensures there == Unknown || (there.Found? && back == Found(there.kind, local, line))
  {
    there := LocalToRemote(reverse, local, line);
    back := there;
    if there.Found? {
      if reverse[local].Lines? {
        LinesLeadBack(forward, reverse[local].ranges, local, line, there);
      }
      back := RemoteToLocal(forward, there.path, there.line);
    }
  }

  lemma LinesLeadBack(forward: Map, ranges: Option<seq<Range>>, local: string, line: nat, there: Result)
    requires exists remote: string, f: seq<Range> :: MirrorsLines(forward, ranges, local, remote, f)
    requires there == Exact(Lines(ranges), line)
             || exists i: nat :: i < |ranges.value| && Covers(ranges.value[i], line)
                                 && there == AtRange(ranges.value[i], line)
    requires there.Found?
    ensures there.kind == IsLines && there.path in forward && SortedEntry(forward[there.path])
    ensures Exact(forward[there.path], there.line) == Found(IsLines, local, line)
  {
    var remote: string, f: seq<Range> :| MirrorsLines(forward, ranges, local, remote, f);
    var i: nat;
    if there == Exact(Lines(ranges), line) {
      i := FirstCover(ranges.value, line);
    } else {
      i :| i < |ranges.value| && Covers(ranges.value[i], line) && there == AtRange(ranges.value[i], line);
    }
    LinesRoundTrip(f, remote, local, line, i);
  }

  // ---------- There and back by directory rules ----------

  /** A local path under a rule, in a reverse map that mirrors the forward one for that rule. */
  ghost predicate UnderRule(forward: Map, reverse: Map, local: string, e: nat, remote: string) {
    && local !in reverse && e > 0 && IsLongestRule(reverse, local, |local|, false, e)
    && reverse[local[..e]] == Directory(remote) && |remote| > 0 && remote[|remote| - 1] == SLASH
    && remote in forward && forward[remote] == Directory(local[..e])
  }

  /** What the forward map says of a remote path is what the local path asks for: its own entry,
      or else the longest rule for it, leads to the same place as the shorter rule would. */
  ghost predicate Agrees(forward: Map, remote: string, local: string) {
    if remote in forward then forward[remote] == Directory(local)
    else forall d: nat :: d > 0 && IsLongestRule(forward, remote, |remote|, true, d) ==>
           |remote| - d <= |local| && forward[remote[..d]] == Directory(local[..|local| - (|remote| - d)])
  }

  /** What the longest rule makes of a remote path is the local path exactly if its target is the
      local path without the same tail. */
  lemma RuleAgreesIff(forward: Map, remote: string, local: string, line: nat, d: nat)
    requires IsRule(forward, remote, d, true) && |remote| - d <= |local|
    requires remote[d..] == local[|local| - (|remote| - d)..]
    ensures ByRule(forward, remote, line, true, d) == Found(IsDirectory, local, line)
            <==> forward[remote[..d]] == Directory(local[..|local| - (|remote| - d)])
  {
    var cut := |local| - (|remote| - d);
    var rule := forward[remote[..d]];
    assert local == local[..cut] + local[cut..];
    if rule.Directory? && rule.target + local[cut..] == local {
      assert rule.target == (rule.target + local[cut..])[..cut];
    }
  }

  lemma LongestIsUnique(m: Map, s: string, d: nat, c: nat)
    requires IsLongestRule(m, s, |s|, true, d) && IsLongestRule(m, s, |s|, true, c)
    ensures d == c
  {
    assert !(d < c) && !(c < d);
  }

  /** Without an entry of its own, the remote path is looked up by a rule at least as long. */
  lemma LongerRuleApplies(forward: Map, dir: string, tail: string, line: nat, back: Result) returns (d: nat)
    requires dir != [] && dir[|dir| - 1] == SLASH && dir in forward && forward[dir].Directory?
    requires dir + tail !in forward && IsLookup(forward, dir + tail, line, true, back)
    ensures |dir| <= d && IsLongestRule(forward, dir + tail, |dir + tail|, true, d)
    ensures back == ByRule(forward, dir + tail, line, true, d)
  {
    var remote := dir + tail;
    d :| IsLongestRule(forward, remote, |remote|, true, d) && back == ByRule(forward, remote, line, true, d);
    assert remote[..|dir|] == dir && IsRule(forward, remote, |dir|, true);
  }

  /** A local path under a rule comes back exactly if the forward map agrees; and it does agree
      when it has no entry for the remote path and no longer rule than the one used. */
  lemma RuleComesBackIff(forward: Map, reverse: Map, local: string, line: nat, e: nat, dir: string,
                         there: Result, back: Result)
    requires UnderRule(forward, reverse, local, e, dir) && IsLookup(reverse, local, line, false, there)
    requires there.Found? ==> IsLookup(forward, there.path, there.line, true, back)
    ensures var remote := dir + local[e..];
            && there == Found(IsDirectory, remote, line)
            && (back == Found(IsDirectory, local, line) <==> Agrees(forward, remote, local))
            && (remote !in forward && (forall d: nat :: |dir| < d <= |remote| ==> !IsRule(forward, remote, d, true)) ==>
                  back == Found(IsDirectory, local, line))
  {
    var tail := local[e..];
    var remote := dir + tail;
    LookupIsUnique(reverse, local, line, false, there, ByRule(reverse, local, line, false, e));
    if remote !in forward {
      var d := LongerRuleApplies(forward, dir, tail, line, back);
      var cut := |local| - (|remote| - d);
      assert remote[d..] == tail[d - |dir|..] == local[cut..];
      RuleAgreesIff(forward, remote, local, line, d);
      forall c: nat | IsLongestRule(forward, remote, |remote|, true, c) ensures c == d {
        LongestIsUnique(forward, remote, d, c);
      }
      if d == |dir| {
        assert remote[..d] == dir && cut == e;
      }
    }
  }
}
