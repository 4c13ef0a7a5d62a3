/** Resolving a line breakpoint: the functions of a file are listed with their breakable lines,
    the smallest one around the line is chosen, and the nearest breakable line in it is taken. */
module Breakpoints {
  import opened Wrappers
  import opened BitSets
  import Subsequences

  const SCAN_RANGE := 5
  const SPAN_MAX := 2147483647

  /** An opcode: whether it marks a statement, and its line. */
  datatype Opcode = Opcode(isStmt: bool, line: nat)

  /** A compiled function with the functions declared inside it. */
  datatype OpArray = OpArray(lineStart: nat, lineEnd: nat, opcodes: seq<Opcode>, nested: seq<OpArray>)

  /** A class: its methods and its property hooks that are user code of the file. */
  datatype Class = Class(methods: seq<OpArray>, hooks: seq<OpArray>)

  /** What compiling a file once makes known: functions and classes in the order of the engine's
      tables, and the code of the file itself. */
  datatype Compiled = Compiled(functions: seq<OpArray>, classes: seq<Class>, main: OpArray)

  /** An entry of the list of functions of a file. */
  datatype Item = Item(lineStart: nat, lineEnd: nat, lineSpan: nat, breakable: Bits)

  // ---------- Collecting the functions of a file ----------

  ghost predicate IsStmtLine(ops: seq<Opcode>, line: nat) {
    exists i :: 0 <= i < |ops| && ops[i] == Opcode(true, line)
  }

  /** Every statement of a function is on a line of that function. */
  ghost predicate WellFormed(f: OpArray) {
    && f.lineStart <= f.lineEnd
    && (forall i :: 0 <= i < |f.opcodes| && f.opcodes[i].isStmt ==> f.lineStart <= f.opcodes[i].line <= f.lineEnd)
    && forall g :: g in f.nested ==> WellFormed(g)
  }

  /** A function and all those inside it, outer ones first. */
  function Flatten(f: OpArray): seq<OpArray> {
    [f] + FlattenAll(f.nested)
  }

  function FlattenAll(fs: seq<OpArray>): seq<OpArray> {
    if fs == [] then [] else FlattenAll(fs[..|fs| - 1]) + Flatten(fs[|fs| - 1])
  }

  function Members(classes: seq<Class>): seq<OpArray> {
    if classes == [] then []
    else Members(classes[..|classes| - 1]) + Subsequences.Last(classes).methods + Subsequences.Last(classes).hooks
  }

  /** The order of the list: the latest functions first, then the latest classes first, the file last. */
  function InOrder(c: Compiled): seq<OpArray> {
    Subsequences.Reverse(c.functions) + Members(Subsequences.Reverse(c.classes)) + [c.main]
  }

  function InOrderAll(cs: seq<Compiled>): seq<OpArray> {
    if cs == [] then [] else InOrderAll(cs[..|cs| - 1]) + InOrder(cs[|cs| - 1])
  }

  ghost predicate AllWellFormed(fs: seq<OpArray>) {
    forall f :: f in fs ==> WellFormed(f)
  }

  ghost predicate CompiledWell(c: Compiled) {
    && AllWellFormed(c.functions) && WellFormed(c.main)
    && forall d :: d in c.classes ==> AllWellFormed(d.methods) && AllWellFormed(d.hooks)
  }

  /** The entry of a function: its lines, and exactly its statements as breakable lines. */
  ghost predicate Describes(item: Item, f: OpArray) {
    && item.lineStart == f.lineStart && item.lineEnd == f.lineEnd && item.lineSpan == f.lineEnd - f.lineStart
    && forall p: nat :: In(item.breakable, p) <==> IsStmtLine(f.opcodes, p)
  }

  ghost predicate DescribesAll(items: seq<Item>, fs: seq<OpArray>) {
    |items| == |fs| && forall i :: 0 <= i < |fs| ==> Describes(items[i], fs[i])
  }

  method BreakableLines(f: OpArray) returns (lines: Bits)
    requires WellFormed(f)
    ensures forall p: nat :: In(lines, p) <==> IsStmtLine(f.opcodes, p)
  {
    var tmp := new BitSet(f.lineEnd + 1, false);
    for i := 0 to |f.opcodes|
      invariant fresh(tmp) && fresh(tmp.bytes) && tmp.Valid() && tmp.size == f.lineEnd + 1
      invariant forall p: nat :: In(tmp.View(), p) <==> IsStmtLine(f.opcodes[..i], p)
    {
      StmtLinesNext(f.opcodes, i);
      if f.opcodes[i].isStmt {
        tmp.Add(f.opcodes[i].line);
      }
    }
    assert f.opcodes[..|f.opcodes|] == f.opcodes;
    lines := Bits(tmp.size, tmp.bytes[..]);
  }

  lemma StmtLinesNext(ops: seq<Opcode>, i: nat)
    requires i < |ops|
    ensures forall p: nat :: IsStmtLine(ops[..i + 1], p) <==> IsStmtLine(ops[..i], p) || ops[i] == Opcode(true, p)
  {
    forall p: nat ensures IsStmtLine(ops[..i + 1], p) <==> IsStmtLine(ops[..i], p) || ops[i] == Opcode(true, p) {
      if IsStmtLine(ops[..i], p) {
        var k :| 0 <= k < i && ops[..i][k] == Opcode(true, p);
        assert ops[..i + 1][k] == Opcode(true, p);
      }
      if ops[i] == Opcode(true, p) {
        assert ops[..i + 1][i] == Opcode(true, p);
      }
    }
  }

  /** The list of functions of one file: an array that doubles when full. */
  class LinesList {
    var count: nat
    var functions: array<Item>

    constructor ()
      ensures count == 0 && functions.Length == 0 && fresh(functions)
    {
      count := 0;
      functions := new Item[0];
    }

    ghost predicate Valid()
      reads this
    {
      count <= functions.Length
    }

    ghost function Items(): seq<Item>
      requires Valid()
      reads this, functions
    {
      functions[..count]
    }

    method Append(item: Item)
      requires Valid()
      modifies this, functions
      ensures Valid() && Items() == old(Items()) + [item]
      ensures functions == old(functions) || fresh(functions)
    {
      if count >= functions.Length {
        var size := if functions.Length == 0 then 16 else functions.Length * 2;
        var grown := new Item[size](i requires 0 <= i < size reads this, functions =>
          if i < functions.Length then functions[i] else item);
        assert grown[..count] == functions[..count];
        functions := grown;
      }
      functions[count] := item;
      count := count + 1;
    }

    /** Adds a function and, after it, everything inside it. */
    method AddFunction(f: OpArray, ghost before: seq<OpArray>)
      requires Valid() && WellFormed(f) && DescribesAll(Items(), before)
      modifies this, functions
      ensures Valid() && DescribesAll(Items(), before + Flatten(f))
      ensures functions == old(functions) || fresh(functions)
      decreases f
    {
      var breakable := BreakableLines(f);
      Append(Item(f.lineStart, f.lineEnd, f.lineEnd - f.lineStart, breakable));
      ghost var base := before + [f];
      for i := 0 to |f.nested|
        invariant Valid() && (functions == old(functions) || fresh(functions))
        invariant DescribesAll(Items(), base + FlattenAll(f.nested[..i]))
      {
        assert f.nested[i] in f.nested;
        AddFunction(f.nested[i], base + FlattenAll(f.nested[..i]));
        FlattenNext(base, f.nested, i);
      }
      assert f.nested[..|f.nested|] == f.nested;
      assert base + FlattenAll(f.nested) == before + Flatten(f);
    }

    method AddAll(fs: seq<OpArray>, ghost before: seq<OpArray>)
      requires Valid() && AllWellFormed(fs) && DescribesAll(Items(), before)
      modifies this, functions
      ensures Valid() && DescribesAll(Items(), before + FlattenAll(fs))
      ensures functions == old(functions) || fresh(functions)
    {
      for i := 0 to |fs|
        invariant Valid() && (functions == old(functions) || fresh(functions))
        invariant DescribesAll(Items(), before + FlattenAll(fs[..i]))
      {
        AddFunction(fs[i], before + FlattenAll(fs[..i]));
        FlattenNext(before, fs, i);
      }
      assert fs[..|fs|] == fs;
    }

    method AddFunctions(fs: seq<OpArray>, ghost before: seq<OpArray>)
      requires Valid() && AllWellFormed(fs) && DescribesAll(Items(), before)
      modifies this, functions
      ensures Valid() && DescribesAll(Items(), before + FlattenAll(Subsequences.Reverse(fs)))
      ensures functions == old(functions) || fresh(functions)
    {
      for i := |fs| downto 0
        invariant Valid() && (functions == old(functions) || fresh(functions))
        invariant DescribesAll(Items(), before + FlattenAll(Subsequences.Reverse(fs[i..])))
      {
        ghost var done := Subsequences.Reverse(fs[i + 1..]);
        AddFunction(fs[i], before + FlattenAll(done));
        FlattenOne(before, done, fs[i]);
        assert fs[i..][1..] == fs[i + 1..];
      }
      assert fs[0..] == fs;
    }

    method AddClasses(classes: seq<Class>, ghost before: seq<OpArray>, ghost fs: seq<OpArray>)
      requires Valid() && (forall d :: d in classes ==> AllWellFormed(d.methods) && AllWellFormed(d.hooks))
      requires DescribesAll(Items(), before + FlattenAll(fs))
      modifies this, functions
      ensures Valid() && DescribesAll(Items(), before + FlattenAll(fs + Members(Subsequences.Reverse(classes))))
      ensures functions == old(functions) || fresh(functions)
    {
      ghost var soFar := fs;
      assert fs + Members([]) == fs;
      for i := |classes| downto 0
        invariant Valid() && (functions == old(functions) || fresh(functions))
        invariant soFar == fs + Members(Subsequences.Reverse(classes[i..]))
        invariant DescribesAll(Items(), before + FlattenAll(soFar))
      {
        ghost var d := classes[i];
        AddAll(classes[i].methods, before + FlattenAll(soFar));
        FlattenMore(before, soFar, d.methods);
        AddAll(classes[i].hooks, before + FlattenAll(soFar + d.methods));
        FlattenMore(before, soFar + d.methods, d.hooks);
        soFar := soFar + d.methods + d.hooks;
        MembersNext(fs, classes, i);
      }
      assert classes[0..] == classes;
    }

    /** Compiling a file adds what is new in the engine's tables since the last time, from their
        ends, and the file itself. */
    method CompileFile(c: Compiled, ghost before: seq<OpArray>)
      requires Valid() && CompiledWell(c) && DescribesAll(Items(), before)
      modifies this, functions
      ensures Valid() && DescribesAll(Items(), before + FlattenAll(InOrder(c)))
      ensures functions == old(functions) || fresh(functions)
    {
      ghost var fs := Subsequences.Reverse(c.functions);
      AddFunctions(c.functions, before);
      AddClasses(c.classes, before, fs);
      fs := fs + Members(Subsequences.Reverse(c.classes));
      AddFunction(c.main, before + FlattenAll(fs));
      FlattenOne(before, fs, c.main);
    }
  }

  /** A file that is compiled any number of times. */
  method CompileAll(file: seq<Compiled>) returns (list: LinesList)
    requires forall c :: c in file ==> CompiledWell(c)
    ensures fresh(list) && list.Valid() && DescribesAll(list.Items(), FlattenAll(InOrderAll(file)))
  {
    list := new LinesList();
    for i := 0 to |file|
      invariant fresh(list) && fresh(list.functions) && list.Valid()
      invariant DescribesAll(list.Items(), FlattenAll(InOrderAll(file[..i])))
    {
      ghost var fs, before := InOrderAll(file[..i]), FlattenAll(InOrderAll(file[..i]));
      list.CompileFile(file[i], before);
      FlattenMore([], fs, InOrder(file[i]));
      assert [] + before == before && [] + FlattenAll(fs + InOrder(file[i])) == FlattenAll(fs + InOrder(file[i]));
      assert file[..i + 1][..i] == file[..i];
    }
    assert file[..|file|] == file;
  }

  lemma FlattenOne(before: seq<OpArray>, fs: seq<OpArray>, f: OpArray)
    ensures before + FlattenAll(fs) + Flatten(f) == before + FlattenAll(fs + [f])
  {
    assert (fs + [f])[..|fs|] == fs;
    Subsequences.Assoc(before, FlattenAll(fs), Flatten(f));
  }

  lemma FlattenNext(before: seq<OpArray>, fs: seq<OpArray>, i: nat)
    requires i < |fs|
    ensures before + FlattenAll(fs[..i]) + Flatten(fs[i]) == before + FlattenAll(fs[..i + 1])
  {
    FlattenOne(before, fs[..i], fs[i]);
    Subsequences.TakeNext(fs, i);
  }

  lemma {:induction false} FlattenMore(before: seq<OpArray>, fs: seq<OpArray>, more: seq<OpArray>)
    ensures before + FlattenAll(fs) + FlattenAll(more) == before + FlattenAll(fs + more)
  {
    if more == [] {
      assert fs + more == fs;
      assert before + FlattenAll(fs) + [] == before + FlattenAll(fs);
    } else {
      var front, last := more[..|more| - 1], more[|more| - 1];
      FlattenMore(before, fs, front);
      FlattenOne(before, fs + front, last);
      Subsequences.Assoc(before + FlattenAll(fs), FlattenAll(front), Flatten(last));
      assert fs + front + [last] == fs + more;
    }
  }

  lemma MembersNext(fs: seq<OpArray>, classes: seq<Class>, i: nat)
    requires i < |classes|
    ensures fs + Members(Subsequences.Reverse(classes[i + 1..])) + classes[i].methods + classes[i].hooks
         == fs + Members(Subsequences.Reverse(classes[i..]))
  {
    var done, d := Subsequences.Reverse(classes[i + 1..]), classes[i];
    assert classes[i..][1..] == classes[i + 1..];
    assert (done + [d])[..|done|] == done;
    Subsequences.Assoc(fs, Members(done), d.methods);
    Subsequences.Assoc(fs, Members(done) + d.methods, d.hooks);
  }

  // ---------- The smallest function around a line ----------

  predicate Around(item: Item, line: nat) {
    item.lineStart <= line <= item.lineEnd
  }

  /** The first of the narrowest entries around the line. */
  ghost predicate IsSmallest(items: seq<Item>, line: nat, i: nat) {
    && i < |items| && Around(items[i], line) && items[i].lineSpan < SPAN_MAX
    && forall j :: 0 <= j < |items| && Around(items[j], line) ==>
         items[i].lineSpan <= items[j].lineSpan && (j < i ==> items[i].lineSpan < items[j].lineSpan)
  }

  method FindSmallestRange(items: seq<Item>, line: nat) returns (found: Option<nat>)
    ensures found.Some? ==> IsSmallest(items, line, found.value)
    ensures found.None? ==> forall j :: 0 <= j < |items| && Around(items[j], line) ==> items[j].lineSpan >= SPAN_MAX
  {
    found := None;
    var foundSpan := SPAN_MAX;
    for i := 0 to |items|
      invariant found.None? ==> foundSpan == SPAN_MAX
      invariant found.Some? ==> found.value < i && IsSmallest(items[..i], line, found.value)
                                && foundSpan == items[found.value].lineSpan
      invariant forall j :: 0 <= j < i && Around(items[j], line) ==> foundSpan <= items[j].lineSpan
    {
      if line < items[i].lineStart || line > items[i].lineEnd {
        continue;
      }
      if items[i].lineSpan < foundSpan {
        found := Some(i);
        foundSpan := items[i].lineSpan;
      }
    }
    assert items[..|items|] == items;
  }

  // ---------- The nearest breakable line ----------

  /** No breakable line in a range of lines. */
  ghost predicate Free(lines: Bits, from: int, to: int) {
    forall p: nat :: from <= p <= to ==> !In(lines, p)
  }

  /** The line itself; else the nearest later one in reach and in the function; else the
      nearest earlier one; else nothing. */
  ghost predicate IsResolution(item: Item, line: nat, r: Option<nat>) {
    if In(item.breakable, line) then r == Some(line)
    else if !Free(item.breakable, line, Min(item.lineEnd, line + SCAN_RANGE)) then
      r.Some? && line < r.value <= Min(item.lineEnd, line + SCAN_RANGE)
      && In(item.breakable, r.value) && Free(item.breakable, line, r.value - 1)
    else if !Free(item.breakable, Max(item.lineStart, line - SCAN_RANGE), line) then
      r.Some? && Max(item.lineStart, line - SCAN_RANGE) <= r.value < line
      && In(item.breakable, r.value) && Free(item.breakable, r.value + 1, line)
    else r == None
  }

  function Min(a: int, b: int): int {
    if a < b then a else b
  }

  function Max(a: int, b: int): int {
    if a > b then a else b
  }

  lemma ResolutionIsUnique(item: Item, line: nat, r: Option<nat>, q: Option<nat>)
    requires IsResolution(item, line, r) && IsResolution(item, line, q)
    ensures r == q
  {
    if r.Some? && q.Some? {
      assert In(item.breakable, r.value) && In(item.breakable, q.value);
    }
  }

  /** Breakable lines lie inside their function. */
  ghost predicate Inside(item: Item) {
    forall p: nat :: In(item.breakable, p) ==> item.lineStart <= p <= item.lineEnd
  }

  /** The scan looks at one line before it tests its limits. */
  method ScanForward(item: Item, line: nat) returns (found: Option<nat>)
    requires Around(item, line) && Inside(item) && !In(item.breakable, line)
    ensures var limit := Min(item.lineEnd, line + SCAN_RANGE);
            if found.None? then Free(item.breakable, line, limit)
            else
              line < found.value <= limit && In(item.breakable, found.value)
              && Free(item.breakable, line, found.value - 1)
  {
    var tmp := line;
    while true
      invariant line <= tmp && Free(item.breakable, line, tmp)
      invariant tmp == line || tmp < Min(item.lineEnd, line + SCAN_RANGE)
      decreases line + SCAN_RANGE - tmp
    {
      tmp := tmp + 1;
      if In(item.breakable, tmp) {
        return Some(tmp);
      }
      if !(tmp < item.lineEnd && tmp < line + SCAN_RANGE) {
        return None;
      }
    }
  }

  method ScanBackward(item: Item, line: nat) returns (found: Option<nat>)
    requires line >= 1 && Around(item, line) && Inside(item) && !In(item.breakable, line)
    ensures var limit := Max(item.lineStart, line - SCAN_RANGE);
            if found.None? then Free(item.breakable, limit, line)
            else
              limit <= found.value < line && In(item.breakable, found.value)
              && Free(item.breakable, found.value + 1, line)
  {
    var tmp := line;
    while true
      invariant 1 <= tmp <= line && Free(item.breakable, tmp, line)
      invariant tmp == line || tmp > Max(item.lineStart, line - SCAN_RANGE)
      decreases tmp
    {
      tmp := tmp - 1;
      if In(item.breakable, tmp) {
        return Some(tmp);
      }
      if !(tmp > item.lineStart && tmp > line - SCAN_RANGE) {
        return None;
      }
    }
  }

  method ResolveIn(item: Item, line: nat) returns (resolved: Option<nat>)
    requires line >= 1 && Around(item, line) && Inside(item)
    ensures IsResolution(item, line, resolved)
  {
    if In(item.breakable, line) {
      return Some(line);
    }
    resolved := ScanForward(item, line);
    if resolved.None? {
      resolved := ScanBackward(item, line);
    }
  }
}
