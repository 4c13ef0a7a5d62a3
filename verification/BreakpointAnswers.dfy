/** From the source of a file to the answer for a line: which functions the list of a file holds
    and in which order, and what the answer means in terms of them. */
module BreakpointAnswers {
  import opened Wrappers
  import opened BitSets
  import opened Breakpoints
  import Subsequences

  // ---------- Which functions are listed ----------

  /** A function contains itself and whatever the functions declared in it contain. */
  ghost predicate Contains(f: OpArray, g: OpArray) {
    g == f || exists h :: h in f.nested && Contains(h, g)
  }

  ghost predicate OneContains(fs: seq<OpArray>, g: OpArray) {
    exists f :: f in fs && Contains(f, g)
  }

  /** A function of a file: at any depth of a function, of a method or property hook of a class,
      or of the code of the file itself, in any of its compilations. */
  ghost predicate InFile(file: seq<Compiled>, g: OpArray) {
    exists c :: c in file && InCompiled(c, g)
  }

  ghost predicate InCompiled(c: Compiled, g: OpArray) {
    || OneContains(c.functions, g)
    || (exists d :: d in c.classes && InClass(d, g))
    || Contains(c.main, g)
  }

  ghost predicate InClass(d: Class, g: OpArray) {
    OneContains(d.methods, g) || OneContains(d.hooks, g)
  }

  lemma OneMore(fs: seq<OpArray>, g: OpArray)
    requires fs != []
    ensures OneContains(fs, g) <==> OneContains(fs[..|fs| - 1], g) || Contains(fs[|fs| - 1], g)
  {
    var front, last := fs[..|fs| - 1], fs[|fs| - 1];
    assert fs == front + [last];
  }

  /** The list of a sequence of functions holds exactly what they contain. */
  lemma {:induction false} FlattenHolds(fs: seq<OpArray>, g: OpArray)
    ensures g in FlattenAll(fs) <==> OneContains(fs, g)
    decreases fs
  {
    if fs != [] {
      var front, last := fs[..|fs| - 1], fs[|fs| - 1];
      FlattenHolds(front, g);
      FlattenHolds(last.nested, g);
      OneMore(fs, g);
      assert Contains(last, g) <==> g == last || OneContains(last.nested, g);
      assert FlattenAll(fs) == FlattenAll(front) + Flatten(last);
      assert g in Flatten(last) <==> g == last || g in FlattenAll(last.nested);
    }
  }

  lemma OneOfBoth(fs: seq<OpArray>, more: seq<OpArray>, g: OpArray)
    ensures OneContains(fs + more, g) <==> OneContains(fs, g) || OneContains(more, g)
  {
  }

  lemma {:induction false} MembersHold(classes: seq<Class>, g: OpArray)
    ensures OneContains(Members(classes), g) <==> exists d :: d in classes && InClass(d, g)
  {
    if classes != [] {
      var front, last := classes[..|classes| - 1], classes[|classes| - 1];
      MembersHold(front, g);
      OneOfBoth(Members(front), last.methods, g);
      OneOfBoth(Members(front) + last.methods, last.hooks, g);
      LastToo(classes, g);
    }
  }

  lemma LastToo(classes: seq<Class>, g: OpArray)
    requires classes != []
    ensures (exists d :: d in classes && InClass(d, g))
       <==> (exists d :: d in classes[..|classes| - 1] && InClass(d, g)) || InClass(classes[|classes| - 1], g)
  {
    assert classes == classes[..|classes| - 1] + [classes[|classes| - 1]];
  }

  lemma InOrderHolds(c: Compiled, g: OpArray)
    ensures OneContains(InOrder(c), g) <==> InCompiled(c, g)
  {
    var functions, classes := Subsequences.Reverse(c.functions), Subsequences.Reverse(c.classes);
    SameMembers(c.functions);
    SameMembers(c.classes);
    MembersHold(classes, g);
    OneOfBoth(functions, Members(classes), g);
    OneOfBoth(functions + Members(classes), [c.main], g);
    assert OneContains([c.main], g) <==> Contains(c.main, g) by {
      assert c.main in [c.main];
    }
  }

  lemma {:induction false} InOrderAllHolds(file: seq<Compiled>, g: OpArray)
    ensures OneContains(InOrderAll(file), g) <==> InFile(file, g)
  {
    if file != [] {
      var front, last := file[..|file| - 1], file[|file| - 1];
      InOrderAllHolds(front, g);
      InOrderHolds(last, g);
      OneOfBoth(InOrderAll(front), InOrder(last), g);
      assert file == front + [last];
    }
  }

  /** The list of a file holds exactly the functions of the file, at any depth. */
  lemma ListHolds(file: seq<Compiled>, g: OpArray)
    ensures g in FlattenAll(InOrderAll(file)) <==> InFile(file, g)
  {
    FlattenHolds(InOrderAll(file), g);
    InOrderAllHolds(file, g);
  }

  // ---------- How often, and in which order ----------

  /** A function and everything in it, counted. */
  function Size(f: OpArray): nat {
    1 + SizeAll(f.nested)
  }

  function SizeAll(fs: seq<OpArray>): nat {
    if fs == [] then 0 else Size(fs[0]) + SizeAll(fs[1..])
  }

  lemma FlattenSplit(before: seq<OpArray>, f: OpArray, after: seq<OpArray>)
    ensures FlattenAll(before + [f] + after) == FlattenAll(before) + Flatten(f) + FlattenAll(after)
  {
    FlattenOne([], before, f);
    FlattenMore([], before + [f], after);
    Nothing(FlattenAll(before));
    Nothing(FlattenAll(before + [f]));
    Nothing(FlattenAll(before + [f] + after));
  }

  lemma Nothing(s: seq<OpArray>)
    ensures [] + s == s
  {
  }

  lemma {:induction false} SizeOf(fs: seq<OpArray>)
    ensures |FlattenAll(fs)| == SizeAll(fs)
    decreases fs
  {
    if fs != [] {
      var f, after := fs[0], fs[1..];
      assert fs == [] + [f] + after;
      FlattenSplit([], f, after);
      SizeOf(after);
      SizeOf(f.nested);
    }
  }

  lemma {:induction false} SizesAdd(before: seq<OpArray>, f: OpArray, after: seq<OpArray>)
    ensures SizeAll(before + [f] + after) == SizeAll(before) + Size(f) + SizeAll(after)
  {
    var all := before + [f] + after;
    if before == [] {
      assert all[0] == f && all[1..] == after;
    } else {
      SizesAdd(before[1..], f, after);
      assert all[0] == before[0] && all[1..] == before[1..] + [f] + after;
    }
  }

  /** The lists of a sequence of functions follow each other: that of each function starts after as
      many entries as the ones before it have functions. */
  lemma ListsFollow(fs: seq<OpArray>, i: nat)
    requires i < |fs|
    ensures var start, all := SizeAll(fs[..i]), FlattenAll(fs);
            && |all| == SizeAll(fs) && start + Size(fs[i]) <= |all|
            && all[start..start + Size(fs[i])] == Flatten(fs[i])
  {
    var before, f, after := fs[..i], fs[i], fs[i + 1..];
    assert fs == before + [f] + after;
    FlattenSplit(before, f, after);
    SizeOf(before);
    SizeOf(f.nested);
    SizeOf(after);
    SizesAdd(before, f, after);
    Middle(FlattenAll(before), Flatten(f), FlattenAll(after));
  }

  lemma Middle(a: seq<OpArray>, b: seq<OpArray>, c: seq<OpArray>)
    ensures (a + b + c)[|a|..|a| + |b|] == b
  {
  }

  /** A function comes before everything inside it, and what is inside it follows in the order of
      declaration, each with everything inside it. */
  lemma OuterFirst(f: OpArray, i: nat)
    requires i < |f.nested|
    ensures var start := 1 + SizeAll(f.nested[..i]);
            && |Flatten(f)| == Size(f) && Flatten(f)[0] == f && start + Size(f.nested[i]) <= Size(f)
            && Flatten(f)[start..start + Size(f.nested[i])] == Flatten(f.nested[i])
  {
    ListsFollow(f.nested, i);
    var all, start := FlattenAll(f.nested), SizeAll(f.nested[..i]);
    assert Flatten(f)[1..] == all;
    assert Flatten(f)[1 + start..1 + start + Size(f.nested[i])] == all[start..start + Size(f.nested[i])];
  }

  lemma {:induction false} ReverseMore<T>(s: seq<T>, x: T)
    ensures Subsequences.Reverse(s + [x]) == [x] + Subsequences.Reverse(s)
  {
    if s != [] {
      ReverseMore(s[1..], x);
      assert (s + [x])[1..] == s[1..] + [x];
    }
  }

  lemma {:induction false} MembersFirst(d: Class, classes: seq<Class>)
    ensures Members([d] + classes) == d.methods + d.hooks + Members(classes)
  {
    var all := [d] + classes;
    if classes == [] {
      assert all[..0] == [] && [] + d.methods == d.methods;
      assert d.methods + d.hooks + [] == d.methods + d.hooks;
    } else {
      var front, last := classes[..|classes| - 1], classes[|classes| - 1];
      MembersFirst(d, front);
      assert all[..|all| - 1] == [d] + front;
      Subsequences.Assoc(d.methods + d.hooks, Members(front), last.methods);
      Subsequences.Assoc(d.methods + d.hooks, Members(front) + last.methods, last.hooks);
    }
  }

  /** The function compiled last is listed first. */
  lemma LatestFunctionFirst(functions: seq<OpArray>, f: OpArray, classes: seq<Class>, main: OpArray)
    ensures InOrder(Compiled(functions + [f], classes, main)) == [f] + InOrder(Compiled(functions, classes, main))
  {
    ReverseMore(functions, f);
    var rest := Members(Subsequences.Reverse(classes));
    Subsequences.Assoc([f], Subsequences.Reverse(functions), rest);
    Subsequences.Assoc([f], Subsequences.Reverse(functions) + rest, [main]);
  }

  /** After the functions, the methods and then the hooks of the class compiled last come first,
      and the file itself is at the end. */
  lemma LatestClassFirst(classes: seq<Class>, d: Class, main: OpArray)
    ensures InOrder(Compiled([], classes + [d], main)) == d.methods + d.hooks + InOrder(Compiled([], classes, main))
    ensures InOrder(Compiled([], [], main)) == [main]
  {
    var before := Subsequences.Reverse(classes);
    ReverseMore(classes, d);
    MembersFirst(d, before);
    Nothing(Members(before));
    Nothing(Members([d] + before));
    Subsequences.Assoc(d.methods + d.hooks, Members(before), [main]);
  }

  // ---------- The answer ----------

  lemma {:induction false} FlattenWellFormed(fs: seq<OpArray>, g: OpArray)
    requires AllWellFormed(fs) && g in FlattenAll(fs)
    ensures WellFormed(g)
    decreases fs
  {
    var last := fs[|fs| - 1];
    if g in FlattenAll(fs[..|fs| - 1]) {
      FlattenWellFormed(fs[..|fs| - 1], g);
    } else if g != last {
      assert WellFormed(last);
      FlattenWellFormed(last.nested, g);
    }
  }

  lemma {:induction false} MembersWellFormed(cs: seq<Class>)
    requires forall d :: d in cs ==> AllWellFormed(d.methods) && AllWellFormed(d.hooks)
    ensures AllWellFormed(Members(cs))
  {
    if cs != [] {
      MembersWellFormed(cs[..|cs| - 1]);
      assert cs[|cs| - 1] in cs;
    }
  }

  lemma {:induction false} InOrderWellFormed(cs: seq<Compiled>)
    requires forall c :: c in cs ==> CompiledWell(c)
    ensures AllWellFormed(InOrderAll(cs))
  {
    if cs != [] {
      var c := cs[|cs| - 1];
      InOrderWellFormed(cs[..|cs| - 1]);
      assert CompiledWell(c);
      SameMembers(c.functions);
      SameMembers(c.classes);
      MembersWellFormed(Subsequences.Reverse(c.classes));
    }
  }

  lemma {:induction false} SameMembers<T>(s: seq<T>)
    ensures forall x :: x in Subsequences.Reverse(s) <==> x in s
  {
    if s != [] {
      SameMembers(s[1..]);
      assert s == [s[0]] + s[1..];
    }
  }

  /** The answer for a list of functions: nothing if no function is around the line, else the
      resolution in the first of the narrowest ones. */
  ghost predicate IsAnswer(items: seq<Item>, line: nat, r: Option<nat>) {
    && ((forall i: nat :: !IsSmallest(items, line, i)) ==> r == None)
    && forall i: nat :: IsSmallest(items, line, i) ==> IsResolution(items[i], line, r)
  }

  /** It does not depend on how the lines of the statements are stored. */
  lemma AnswerIsUnique(fs: seq<OpArray>, items: seq<Item>, others: seq<Item>, line: nat, r: Option<nat>, q: Option<nat>)
    requires DescribesAll(items, fs) && DescribesAll(others, fs)
    requires IsAnswer(items, line, r) && IsAnswer(others, line, q)
    ensures r == q
  {
    forall i | 0 <= i < |fs| ensures SameItem(items[i], others[i]) {
      assert Describes(items[i], fs[i]) && Describes(others[i], fs[i]);
    }
    if i: nat :| IsSmallest(items, line, i) {
      SameSmallest(items, others, line, i);
      SameResolution(items[i], others[i], line, q);
      ResolutionIsUnique(items[i], line, r, q);
    } else {
      forall i: nat | IsSmallest(others, line, i) ensures IsSmallest(items, line, i) {
        SameSmallest(others, items, line, i);
      }
    }
  }

  ghost predicate SameItem(a: Item, b: Item) {
    && a.lineStart == b.lineStart && a.lineEnd == b.lineEnd && a.lineSpan == b.lineSpan
    && forall p: nat :: In(a.breakable, p) <==> In(b.breakable, p)
  }

  lemma SameSmallest(items: seq<Item>, others: seq<Item>, line: nat, i: nat)
    requires |items| == |others| && forall k :: 0 <= k < |items| ==> SameItem(items[k], others[k])
    requires IsSmallest(items, line, i)
    ensures IsSmallest(others, line, i)
  {
    assert SameItem(items[i], others[i]);
    forall j | 0 <= j < |others| && Around(others[j], line)
      ensures others[i].lineSpan <= others[j].lineSpan && (j < i ==> others[i].lineSpan < others[j].lineSpan)
    {
      assert SameItem(items[j], others[j]);
    }
  }

  lemma SameResolution(a: Item, b: Item, line: nat, r: Option<nat>)
    requires SameItem(a, b) && IsResolution(b, line, r)
    ensures IsResolution(a, line, r)
  {
    forall from: int, to: int ensures Free(a.breakable, from, to) <==> Free(b.breakable, from, to) {
    }
  }

  lemma OnlySmallest(items: seq<Item>, line: nat, found: Option<nat>)
    requires found.Some? ==> IsSmallest(items, line, found.value)
    requires found.None? ==> forall j :: 0 <= j < |items| && Around(items[j], line) ==> items[j].lineSpan >= SPAN_MAX
    ensures forall i: nat :: IsSmallest(items, line, i) <==> found == Some(i)
  {
    forall i: nat ensures IsSmallest(items, line, i) <==> found == Some(i) {
      if found.Some? && IsSmallest(items, line, i) {
        assert !(i < found.value) && !(found.value < i);
      }
    }
  }

  lemma EntryInside(items: seq<Item>, fs: seq<OpArray>, i: nat)
    requires AllWellFormed(fs) && DescribesAll(items, FlattenAll(fs)) && i < |items|
    ensures Inside(items[i])
  {
    var g := FlattenAll(fs)[i];
    FlattenWellFormed(fs, g);
    assert Describes(items[i], g);
    forall p: nat | In(items[i].breakable, p) ensures items[i].lineStart <= p <= items[i].lineEnd {
      assert IsStmtLine(g.opcodes, p);
    }
  }

  // ---------- What the answer means ----------

  /** A function around the line that can be chosen at all. */
  predicate MayHold(g: OpArray, line: nat) {
    g.lineStart <= line <= g.lineEnd && g.lineEnd - g.lineStart < SPAN_MAX
  }

  /** No function of the file around the line is narrower. */
  ghost predicate Narrowest(file: seq<Compiled>, g: OpArray, line: nat) {
    && InFile(file, g) && MayHold(g, line)
    && forall h :: InFile(file, h) && MayHold(h, line) ==> g.lineEnd - g.lineStart <= h.lineEnd - h.lineStart
  }

  /** No statement of a function in a range of lines. */
  ghost predicate NoStmt(g: OpArray, from: int, to: int) {
    forall p: nat :: from <= p <= to ==> !IsStmtLine(g.opcodes, p)
  }

  /** The line of a statement of the function, at most five lines away: none lies between, and an
      earlier line is taken only if there is no later one. */
  ghost predicate ResolvesTo(g: OpArray, line: nat, r: Option<nat>) {
    match r
    case None => NoStmt(g, line - 5, line + 5)
    case Some(p) =>
      && IsStmtLine(g.opcodes, p) && line - 5 <= p <= line + 5
      && NoStmt(g, line, p - 1)
      && (p < line ==> NoStmt(g, p + 1, line + 5))
  }

  lemma {:induction false} SmallestExists(items: seq<Item>, line: nat, j: nat) returns (i: nat)
    requires j < |items| && Around(items[j], line) && items[j].lineSpan < SPAN_MAX
    ensures IsSmallest(items, line, i)
    decreases |items|
  {
    var front, n := items[..|items| - 1], |items| - 1;
    if k: nat :| k < n && Around(items[k], line) && items[k].lineSpan < SPAN_MAX {
      i := SmallestExists(front, line, k);
      if Around(items[n], line) && items[n].lineSpan < items[i].lineSpan {
        i := n;
      }
    } else {
      i := n;
    }
    forall k | 0 <= k < |items| && Around(items[k], line)
      ensures items[i].lineSpan <= items[k].lineSpan && (k < i ==> items[i].lineSpan < items[k].lineSpan)
    {
      assert k < n ==> items[k] == front[k];
    }
  }

  lemma ResolutionMeans(item: Item, g: OpArray, line: nat, r: Option<nat>)
    requires Describes(item, g) && WellFormed(g) && Around(item, line) && IsResolution(item, line, r)
    ensures ResolvesTo(g, line, r)
  {
    forall from: int, to: int ensures NoStmt(g, from, to) <==> Free(item.breakable, from, to) {
    }
    forall p: nat | IsStmtLine(g.opcodes, p) ensures g.lineStart <= p <= g.lineEnd {
    }
  }

  lemma AnswerMeans(file: seq<Compiled>, items: seq<Item>, line: nat, r: Option<nat>)
    requires forall c :: c in file ==> CompiledWell(c)
    requires DescribesAll(items, FlattenAll(InOrderAll(file))) && IsAnswer(items, line, r)
    ensures if exists g :: InFile(file, g) && MayHold(g, line)
            then exists g :: Narrowest(file, g, line) && ResolvesTo(g, line, r)
            else r == None
  {
    var fs := FlattenAll(InOrderAll(file));
    if g :| InFile(file, g) && MayHold(g, line) {
      var j := EntryOf(file, items, g);
      var i := SmallestExists(items, line, j);
      SmallestIsNarrowest(file, items, line, i);
      InOrderWellFormed(file);
      FlattenWellFormed(InOrderAll(file), fs[i]);
      ResolutionMeans(items[i], fs[i], line, r);
    } else {
      forall i: nat ensures !IsSmallest(items, line, i) {
        if IsSmallest(items, line, i) {
          SmallestIsNarrowest(file, items, line, i);
        }
      }
    }
  }

  /** A function of the file has an entry. */
  lemma EntryOf(file: seq<Compiled>, items: seq<Item>, h: OpArray) returns (j: nat)
    requires DescribesAll(items, FlattenAll(InOrderAll(file))) && InFile(file, h)
    ensures j < |items| && Describes(items[j], h)
  {
    var fs := FlattenAll(InOrderAll(file));
    ListHolds(file, h);
    j :| 0 <= j < |fs| && fs[j] == h;
  }

  lemma SmallestIsNarrowest(file: seq<Compiled>, items: seq<Item>, line: nat, i: nat)
    requires DescribesAll(items, FlattenAll(InOrderAll(file))) && IsSmallest(items, line, i)
    ensures Narrowest(file, FlattenAll(InOrderAll(file))[i], line)
  {
    var g := FlattenAll(InOrderAll(file))[i];
    ListHolds(file, g);
    assert Describes(items[i], g);
    forall h | InFile(file, h) && MayHold(h, line) ensures g.lineEnd - g.lineStart <= h.lineEnd - h.lineStart {
      var j := EntryOf(file, items, h);
      assert Around(items[j], line);
    }
  }

  /** A breakpoint set in a file that has been compiled, any number of times. No function of the
      file around the line, at any depth, is narrower than the one it is resolved in, and that one's
      statements decide; of several such functions it is the first one in the order of the list. */
  method ResolveLine(file: seq<Compiled>, line: nat) returns (resolved: Option<nat>)
    requires line >= 1 && forall c :: c in file ==> CompiledWell(c)
    ensures exists items: seq<Item> ::
              DescribesAll(items, FlattenAll(InOrderAll(file))) && IsAnswer(items, line, resolved)
    ensures if exists g :: InFile(file, g) && MayHold(g, line)
            then exists g :: Narrowest(file, g, line) && ResolvesTo(g, line, resolved)
            else resolved == None
  {
    var list := CompileAll(file);
    ghost var fs := InOrderAll(file);
    ghost var items := list.Items();
    var found := FindSmallestRange(list.functions[..list.count], line);
    OnlySmallest(items, line, found);
    resolved := None;
    if found.Some? {
      InOrderWellFormed(file);
      EntryInside(items, fs, found.value);
      resolved := ResolveIn(list.functions[found.value], line);
    }
    assert DescribesAll(items, FlattenAll(fs)) && IsAnswer(items, line, resolved);
    AnswerMeans(file, items, line, resolved);
  }
}
