/** Command lines as a client writes them, and what the parser makes of them. */
module CommandRoundTrip {
  import opened Wrappers
  import opened Subsequences
  import opened Escapes
  import opened CommandParser

  /** An option as written: a bare value, or the raw text between two quotes. */
  datatype Arg = Bare(letter: char, value: string) | InQuotes(letter: char, raw: string)

  predicate IsQuotable(raw: string) {
    Enclosed(raw, '"') && NUL !in raw
  }

  /** A bare value is not empty, does not start with a quote and holds no space after its start. */
  predicate IsBareValue(value: string) {
    value != [] && value[0] != '"' && NUL !in value && ' ' !in value[1..]
  }

  predicate IsArg(a: Arg) {
    IsLetter(a.letter) && if a.Bare? then IsBareValue(a.value) else IsQuotable(a.raw)
  }

  function Value(a: Arg): string {
    if a.Bare? then a.value else Strip(a.raw)
  }

  /** An option from its hyphen on. */
  function ArgText(a: Arg): string {
    ['-', a.letter, ' '] + if a.Bare? then a.value else ['"'] + a.raw + ['"']
  }

  /** All options, each with a space before it, and the value for "--" if there is one. */
  function ArgsText(args: seq<Arg>, rest: Option<string>): string {
    if args == [] then (if rest.Some? then " -- " + rest.value else [])
    else [' '] + ArgText(args[0]) + ArgsText(args[1..], rest)
  }

  function CommandLine(cmd: string, args: seq<Arg>, rest: Option<string>): string {
    cmd + ArgsText(args, rest)
  }

  /** The slots after the given options, or none if a letter repeats. */
  function Slots(slots: Args, args: seq<Arg>): Option<Args>
    decreases |args|
  {
    if args == [] then Some(slots)
    else if args[0].letter in slots then None
    else Slots(slots[args[0].letter := Value(args[0])], args[1..])
  }

  function WithRest(slots: Args, rest: Option<string>): Args {
    if rest.Some? then slots['-' := rest.value] else slots
  }

  predicate DistinctLetters(args: seq<Arg>) {
    forall i, j :: 0 <= i < j < |args| ==> args[i].letter != args[j].letter
  }

  // ---------- Reading one option ----------

  /** About to read an option's hyphen, with nothing wrong so far. */
  ghost predicate Ready(p: Parser) {
    p.mode == Normal && p.code == Ok
  }

  lemma RunHead(p: Parser, c: char, rest: string)
    requires p.code == Ok
    ensures Run(p, [c] + rest) == Run(Next(p, c), rest)
  {
    assert ([c] + rest)[1..] == rest;
  }

  lemma RunOption(p: Parser, letter: char, rest: string)
    requires Ready(p) && (IsLetter(letter) || letter == '-')
    ensures Run(p, ['-', letter, ' '] + rest)
         == Run(p.(mode := ValueFollowsFirstChar, opt := letter, value := []), rest)
  {
    assert ['-', letter, ' '] + rest == ['-'] + ([letter] + ([' '] + rest));
    RunHead(p, '-', [letter] + ([' '] + rest));
    var p1 := p.(mode := OptFollows);
    RunHead(p1, letter, [' '] + rest);
    RunHead(p1.(mode := SepFollows, opt := letter), ' ', rest);
  }

  lemma {:induction false} RunBare(p: Parser, s: string, rest: string)
    requires p.mode == ValueFollows && p.code == Ok && NUL !in s && (p.opt != '-' ==> ' ' !in s)
    ensures Run(p, s + rest) == Run(p.(value := p.value + s), rest)
    decreases |s|
  {
    if s == [] {
      assert s + rest == rest && p.value + s == p.value;
    } else {
      assert s[0] in s && s + rest == [s[0]] + (s[1..] + rest);
      RunHead(p, s[0], s[1..] + rest);
      RunBare(p.(value := p.value + [s[0]]), s[1..], rest);
      assert p.value + [s[0]] + s[1..] == p.value + s;
    }
  }

  lemma {:induction false} RunQuoted(p: Parser, raw: string, rest: string)
    requires p.mode == Quoted && p.code == Ok && IsQuotable(raw)
    ensures Run(p, raw + rest) == Run(p.(value := p.value + raw), rest)
    decreases |raw|
  {
    if raw == [] {
      assert raw + rest == rest && p.value + raw == p.value;
    } else if raw[0] == '\\' {
      var tail := raw[2..] + rest;
      assert raw + rest == ['\\'] + ([raw[1]] + tail);
      RunHead(p, '\\', [raw[1]] + tail);
      RunHead(p.(mode := EscapedCharFollows, value := p.value + ['\\']), raw[1], tail);
      RunQuoted(p.(value := p.value + ['\\'] + [raw[1]]), raw[2..], rest);
      assert p.value + ['\\'] + [raw[1]] + raw[2..] == p.value + raw;
    } else {
      assert raw + rest == [raw[0]] + (raw[1..] + rest);
      RunHead(p, raw[0], raw[1..] + rest);
      RunQuoted(p.(value := p.value + [raw[0]]), raw[1..], rest);
      assert p.value + [raw[0]] + raw[1..] == p.value + raw;
    }
  }

  /** After the value and whatever ends it: one more slot filled, or an error. */
  function Stored(p: Parser, letter: char, value: string): Parser {
    if letter in p.args then p.(code := DuplicateArg)
    else p.(mode := Normal, opt := letter, value := [], args := p.args[letter := value])
  }

  lemma RunBareValue(p: Parser, value: string, sep: char, rest: string)
    requires p.mode == ValueFollowsFirstChar && p.code == Ok && p.value == [] && value != [] && NUL !in value
    requires if p.opt == '-' then sep == NUL else IsBareValue(value) && (sep == ' ' || sep == NUL)
    ensures var q := Run(p, value + ([sep] + rest));
            if p.opt in p.args then q.code == DuplicateArg
            else q == Run(Stored(p, p.opt, value), rest)
  {
    assert value + ([sep] + rest) == [value[0]] + (value[1..] + ([sep] + rest));
    RunHead(p, value[0], value[1..] + ([sep] + rest));
    var p1 := p.(mode := ValueFollows, value := [value[0]]);
    assert [] + [value[0]] == [value[0]] && [value[0]] + value[1..] == value;
    RunBare(p1, value[1..], [sep] + rest);
    RunHead(p1.(value := value), sep, rest);
  }

  lemma RunQuotedValue(p: Parser, raw: string, sep: char, rest: string)
    requires p.mode == ValueFollowsFirstChar && p.code == Ok && p.opt != '-' && IsQuotable(raw)
    ensures var q := Run(p, ['"'] + raw + ['"'] + ([sep] + rest));
            if p.opt in p.args then q.code == DuplicateArg
            else q == Run(Stored(p, p.opt, Strip(raw)), rest)
  {
    var tail := ['"'] + ([sep] + rest);
    assert ['"'] + raw + ['"'] + ([sep] + rest) == ['"'] + (raw + tail);
    RunHead(p, '"', raw + tail);
    var p1 := p.(mode := Quoted, value := []);
    assert [] + raw == raw;
    RunQuoted(p1, raw, tail);
    var p2 := Next(p1.(value := raw), '"');
    RunHead(p1.(value := raw), '"', [sep] + rest);
    if p.opt !in p.args {
      RunHead(p2, sep, rest);
    }
  }

  /** One option and the space or terminator after it. */
  lemma RunArg(p: Parser, a: Arg, sep: char, rest: string)
    requires Ready(p) && IsArg(a) && (sep == ' ' || sep == NUL)
    ensures var q := Run(p, ArgText(a) + ([sep] + rest));
            if a.letter in p.args then q.code == DuplicateArg
            else q == Run(Stored(p, a.letter, Value(a)), rest)
  {
    var shown := if a.Bare? then a.value else ['"'] + a.raw + ['"'];
    Assoc(['-', a.letter, ' '], shown, [sep] + rest);
    RunOption(p, a.letter, shown + ([sep] + rest));
    var p1 := p.(mode := ValueFollowsFirstChar, opt := a.letter, value := []);
    if a.Bare? {
      RunBareValue(p1, a.value, sep, rest);
    } else {
      RunQuotedValue(p1, a.raw, sep, rest);
    }
  }

  // ---------- Reading all of them ----------

  lemma RunRest(p: Parser, rest: string)
    requires Ready(p) && rest != [] && NUL !in rest && '-' !in p.args
    ensures Run(p, "-- " + rest + [NUL]).code == Ok && Run(p, "-- " + rest + [NUL]).args == p.args['-' := rest]
  {
    assert "-- " + rest + [NUL] == ['-', '-', ' '] + (rest + ([NUL] + []));
    RunOption(p, '-', rest + ([NUL] + []));
    RunBareValue(p.(mode := ValueFollowsFirstChar, opt := '-', value := []), rest, NUL, []);
  }

  /** What follows the space after a command name or an option. */
  function AfterSpace(args: seq<Arg>, rest: Option<string>): string
    requires args != [] || rest.Some?
  {
    if args == [] then "-- " + rest.value else ArgText(args[0]) + ArgsText(args[1..], rest)
  }

  lemma SpaceFirst(args: seq<Arg>, rest: Option<string>)
    requires args != [] || rest.Some?
    ensures ArgsText(args, rest) == [' '] + AfterSpace(args, rest)
  {
    if args == [] {
      assert " -- " + rest.value == [' '] + ("-- " + rest.value);
    } else {
      Assoc([' '], ArgText(args[0]), ArgsText(args[1..], rest));
    }
  }

  lemma {:induction false} RunArgs(p: Parser, args: seq<Arg>, rest: Option<string>)
    requires Ready(p) && '-' !in p.args && (args != [] || rest.Some?)
    requires forall i :: 0 <= i < |args| ==> IsArg(args[i])
    requires rest.Some? ==> rest.value != [] && NUL !in rest.value
    ensures var q := Run(p, AfterSpace(args, rest) + [NUL]);
            match Slots(p.args, args)
            case None => q.code == DuplicateArg
            case Some(slots) => q.code == Ok && q.args == WithRest(slots, rest)
    decreases |args|
  {
    if args == [] {
      RunRest(p, rest.value);
    } else {
      var a, more := args[0], args[1..];
      var last := more == [] && rest.None?;
      var tail := if last then [] else AfterSpace(more, rest) + [NUL];
      var sep := if last then NUL else ' ';
      assert AfterSpace(args, rest) + [NUL] == ArgText(a) + ([sep] + tail) by {
        if last {
          assert ArgsText(more, rest) == [] && [NUL] + [] == [NUL];
        } else {
          SpaceFirst(more, rest);
        }
      }
      RunArg(p, a, sep, tail);
      if a.letter !in p.args {
        var p' := Stored(p, a.letter, Value(a));
        if last {
          assert Slots(p'.args, more) == Some(p'.args);
        } else {
          RunArgs(p', more, rest);
        }
      }
    }
  }

  function Letters(args: seq<Arg>): set<char> {
    set i | 0 <= i < |args| :: args[i].letter
  }

  lemma LettersHead(args: seq<Arg>)
    requires args != []
    ensures Letters(args) == {args[0].letter} + Letters(args[1..])
    ensures DistinctLetters(args) <==> args[0].letter !in Letters(args[1..]) && DistinctLetters(args[1..])
  {
    var more := args[1..];
    assert forall i :: 0 <= i < |more| ==> more[i] == args[i + 1];
    assert forall i :: 0 < i < |args| ==> args[i] == more[i - 1];
  }

  /** Slots fill up exactly when no letter is used twice or already taken. */
  lemma {:induction false} SlotsFill(slots: Args, args: seq<Arg>)
    ensures Slots(slots, args).Some? <==> DistinctLetters(args) && slots.Keys !! Letters(args)
    ensures Slots(slots, args).Some? ==> Slots(slots, args).value.Keys == slots.Keys + Letters(args)
    decreases |args|
  {
    if args != [] {
      var slots' := slots[args[0].letter := Value(args[0])];
      LettersHead(args);
      SlotsFill(slots', args[1..]);
      assert slots'.Keys == slots.Keys + {args[0].letter};
    }
  }

  /** Each slot holds its option's value, and slots filled before are left alone. */
  lemma {:induction false} SlotsHold(slots: Args, args: seq<Arg>)
    requires Slots(slots, args).Some?
    ensures var r := Slots(slots, args).value;
            && (forall c :: c in slots ==> c in r && r[c] == slots[c])
            && (forall i :: 0 <= i < |args| ==> args[i].letter in r && r[args[i].letter] == Value(args[i]))
    decreases |args|
  {
    if args != [] {
      var more := args[1..];
      SlotsHold(slots[args[0].letter := Value(args[0])], more);
      assert forall i :: 0 < i < |args| ==> args[i] == more[i - 1];
    }
  }

  /** The parser fills the slots one option after the other. */
  lemma ParsesToSlots(cmd: string, args: seq<Arg>, rest: Option<string>)
    requires ' ' !in cmd && (cmd != [] || args != [] || rest.Some?)
    requires forall i :: 0 <= i < |args| ==> IsArg(args[i])
    requires rest.Some? ==> rest.value != [] && NUL !in rest.value
    ensures var r := Parse(CommandLine(cmd, args, rest));
            r.cmd == Some(cmd) &&
            match Slots(map[], args)
            case None => r.code == DuplicateArg
            case Some(slots) => r.code == Ok && r.args == WithRest(slots, rest)
  {
    if args == [] && rest.None? {
      assert CommandLine(cmd, args, rest) == cmd;
      NoSpace(cmd);
    } else {
      var text := AfterSpace(args, rest);
      SpaceFirst(args, rest);
      ParsesFromSpace(cmd, text);
      RunArgs(CommandParser.INITIAL, args, rest);
    }
  }

  lemma ParsesFromSpace(cmd: string, text: string)
    requires ' ' !in cmd
    ensures var p := Run(CommandParser.INITIAL, text + [NUL]);
            Parse(cmd + ([' '] + text)) == Parsed(p.code, Some(cmd), p.args)
  {
    var line := cmd + ([' '] + text);
    SpaceAfter(cmd, text);
    assert line[|cmd| + 1..] == text && line[..|cmd|] == cmd;
  }

  /** The headline. For any command name, any list of well-formed options and an optional last
      value: if no letter repeats, the parser answers OK with exactly those values in exactly
      those slots; if one does, it answers with the duplicate-argument error. */
  lemma ParsesCommandLine(cmd: string, args: seq<Arg>, rest: Option<string>)
    requires ' ' !in cmd && (cmd != [] || args != [] || rest.Some?)
    requires forall i :: 0 <= i < |args| ==> IsArg(args[i])
    requires rest.Some? ==> rest.value != [] && NUL !in rest.value
    ensures var r := Parse(CommandLine(cmd, args, rest));
            && r.cmd == Some(cmd)
            && (r.code == Ok <==> DistinctLetters(args))
            && (r.code != Ok ==> r.code == DuplicateArg)
            && (r.code == Ok ==>
                  && r.args.Keys == Letters(args) + (if rest.Some? then {'-'} else {})
                  && (forall i :: 0 <= i < |args| ==> r.args[args[i].letter] == Value(args[i]))
                  && (rest.Some? ==> r.args['-'] == rest.value))
  {
    ParsesToSlots(cmd, args, rest);
    SlotsFill(map[], args);
    var slots := Slots(map[], args);
    if slots.Some? {
      SlotsHold(map[], args);
      assert forall i :: 0 <= i < |args| ==> args[i].letter != '-';
      assert WithRest(slots.value, rest).Keys == slots.value.Keys + if rest.Some? then {'-'} else {};
    }
  }

  lemma {:induction false} NoSpace(s: string)
    requires ' ' !in s
    ensures FirstSpace(s) == |s|
  {
    if s != [] {
      assert s[0] in s;
      NoSpace(s[1..]);
    }
  }

  lemma {:induction false} SpaceAfter(s: string, text: string)
    requires ' ' !in s
    ensures FirstSpace(s + ([' '] + text)) == |s|
  {
    if s == [] {
      assert s + ([' '] + text) == [' '] + text;
    } else {
      assert s[0] in s && (s + ([' '] + text))[1..] == s[1..] + ([' '] + text);
      SpaceAfter(s[1..], text);
    }
  }

  // ---------- Any value can be sent ----------

  /** A way to write any value between quotes; a NUL takes three digits, so that no digit of
      the value can run into it. */
  function Escaped(value: string): string {
    if value == [] then [] else EscapedChar(value[0]) + Escaped(value[1..])
  }

  function EscapedChar(c: char): string {
    if c == NUL then ['\\', '0', '0', '0'] else if c == '"' || c == '\\' then ['\\', c] else [c]
  }

  lemma StripThreeZeros(rest: string)
    ensures Strip(['\\', '0', '0', '0'] + rest) == [NUL] + Strip(rest)
  {
    var s := ['\\', '0', '0', '0'] + rest;
    var digits := s[1..];
    assert digits[1..][1..] == ['0'] + rest && digits[0] == digits[1..][0] == '0';
    assert OctalRun(digits[1..][1..], 1) == 1;
    assert OctalRun(digits[1..], 2) == 2;
    assert OctalRun(digits, 3) == 3;
    var z := digits[..3];
    assert Front(z) == ['0', '0'] && Front(['0', '0']) == ['0'] && Front(['0']) == [];
    assert OctalValue(['0']) == 0;
    assert OctalValue(['0', '0']) == 0;
    assert OctalValue(z) == 0;
    assert s[4..] == rest;
  }

  lemma StripTwo(c: char, rest: string)
    requires c == '"' || c == '\\'
    ensures Strip(['\\', c] + rest) == [c] + Strip(rest)
  {
    var s := ['\\', c] + rest;
    assert OctalRun(s[1..], 3) == 0;
    assert s[2..] == rest;
  }

  lemma ThreeZerosQuotable(rest: string)
    requires IsQuotable(rest)
    ensures IsQuotable(['\\', '0', '0', '0'] + rest)
  {
    var s := ['\\', '0', '0', '0'] + rest;
    assert s[2..] == ['0', '0'] + rest && s[2..][1..] == ['0'] + rest && s[2..][1..][1..] == rest;
    assert Enclosed(s[2..][1..], '"') && Enclosed(s[2..], '"');
  }

  /** One character more, at the head. */
  lemma OneMoreEscaped(c: char, rest: string)
    requires IsQuotable(rest)
    ensures IsQuotable(EscapedChar(c) + rest) && Strip(EscapedChar(c) + rest) == [c] + Strip(rest)
  {
    if c == NUL {
      StripThreeZeros(rest);
      ThreeZerosQuotable(rest);
    } else if c == '"' || c == '\\' {
      StripTwo(c, rest);
      assert (['\\', c] + rest)[2..] == rest;
    } else {
      assert ([c] + rest)[1..] == rest;
    }
  }

  /** Every value, of whatever characters, reaches its slot when it is written that way. */
  lemma {:induction false} AnyValueCanBeSent(value: string)
    ensures IsQuotable(Escaped(value)) && Strip(Escaped(value)) == value
  {
    if value != [] {
      AnyValueCanBeSent(value[1..]);
      OneMoreEscaped(value[0], Escaped(value[1..]));
      assert [value[0]] + value[1..] == value;
    }
  }
}
