/** The lines the command parser accepts, as a grammar of whole options and values. */
module CommandGrammar {
  import opened Wrappers
  import opened Escapes
  import opened CommandParser
  import opened CommandRoundTrip

  datatype Reading = Reading(code: Code, args: Args)

  /** An option must start here: a hyphen, a letter or another hyphen, and a space. */
  predicate StartsOption(text: string) {
    |text| >= 3 && text[0] == '-' && ('a' <= text[1] <= 'z' || text[1] == '-') && text[2] == ' '
  }

  predicate StartsQuoted(letter: char, text: string) {
    text != [] && text[0] == '"' && letter != '-'
  }

  /** The length of a bare value: up to a space after its first character; all of it after "--". */
  function BareLength(letter: char, text: string): (n: nat)
    requires text != []
    ensures 1 <= n <= |text|
  {
    if letter == '-' then |text| else 1 + FirstSpace(text[1..])
  }

  function ReadOptions(text: string, slots: Args): Reading
    decreases |text|
  {
    if StartsOption(text) then ReadValue(text[1], text[3..], slots) else Reading(ParseError, slots)
  }

  /** A missing value and one whose quote is never closed are passed over without an error; after
      a closing quote one character, whatever it is, is skipped. */
  function ReadValue(letter: char, text: string, slots: Args): Reading
    decreases |text|
  {
    if text == [] then Reading(Ok, slots)
    else if StartsQuoted(letter, text) then
      var n := Closing(text[1..], '"');
      if n == |text| - 1 then Reading(Ok, slots)
      else if letter in slots then Reading(DuplicateArg, slots)
      else
        var more := slots[letter := Strip(text[1..][..n])];
        if n + 2 == |text| then Reading(Ok, more) else ReadOptions(text[n + 3..], more)
    else
      var n := BareLength(letter, text);
      if letter in slots then Reading(DuplicateArg, slots)
      else
        var more := slots[letter := text[..n]];
        if n == |text| then Reading(Ok, more) else ReadOptions(text[n + 1..], more)
  }

  /** The name goes up to the first space. */
  function ReadLine(line: string): Parsed {
    var n := FirstSpace(line);
    if line == [] then Parsed(ParseError, None, map[])
    else if n == |line| then Parsed(Ok, Some(line), map[])
    else
      var r := ReadOptions(line[n + 1..], map[]);
      Parsed(r.code, Some(line[..n]), r.args)
  }

  // ---------- The parser accepts it ----------

  ghost predicate Gives(p: Parser, r: Reading) {
    p.code == r.code && p.args == r.args
  }

  lemma SplitAt(text: string, n: nat, rest: string)
    requires n < |text|
    ensures text + rest == text[..n] + ([text[n]] + (text[n + 1..] + rest))
  {
  }

  lemma RunThroughQuote(p: Parser, raw: string, after: string)
    requires p.mode == Quoted && p.code == Ok && p.value == [] && IsQuotable(raw)
    ensures Run(p, raw + (['"'] + after)) == Run(Next(p.(value := raw), '"'), after)
  {
    RunQuoted(p, raw, ['"'] + after);
    assert [] + raw == raw;
    RunHead(p.(value := raw), '"', after);
  }

  lemma RunToClosing(p: Parser, text: string, rest: string)
    requires p.mode == Quoted && p.code == Ok && p.value == [] && NUL !in text && Closing(text, '"') < |text|
    ensures var n := Closing(text, '"');
            Run(p, text + rest) == Run(Next(p.(value := text[..n]), '"'), text[n + 1..] + rest)
  {
    var n := Closing(text, '"');
    ClosingEncloses(text, '"');
    SplitAt(text, n, rest);
    RunThroughQuote(p, text[..n], text[n + 1..] + rest);
  }

  lemma {:induction false} RunUnclosed(p: Parser, text: string)
    requires p.mode == Quoted && p.code == Ok && Closing(text, '"') == |text|
    ensures Gives(Run(p, text + [NUL]), Reading(Ok, p.args))
    decreases |text|
  {
    if text == [] {
      assert text + [NUL] == [NUL] + [];
      RunHead(p, NUL, []);
    } else if text[0] == '\\' {
      assert text + [NUL] == ['\\'] + (text[1..] + [NUL]);
      RunHead(p, '\\', text[1..] + [NUL]);
      var p' := p.(mode := EscapedCharFollows, value := p.value + ['\\']);
      if |text| == 1 {
        assert text[1..] + [NUL] == [NUL] + [];
        RunHead(p', NUL, []);
      } else {
        assert text[1..] + [NUL] == [text[1]] + (text[2..] + [NUL]);
        RunHead(p', text[1], text[2..] + [NUL]);
        RunUnclosed(p.(value := p.value + ['\\'] + [text[1]]), text[2..]);
      }
    } else {
      assert text + [NUL] == [text[0]] + (text[1..] + [NUL]);
      RunHead(p, text[0], text[1..] + [NUL]);
      RunUnclosed(p.(value := p.value + [text[0]]), text[1..]);
    }
  }

  /** Where an option must start, anything else is an error, whatever follows. */
  lemma NoOption(p: Parser, text: string)
    requires Ready(p) && !StartsOption(text)
    ensures Gives(Run(p, text + [NUL]), Reading(ParseError, p.args))
  {
    var all := text + [NUL];
    assert all == [all[0]] + all[1..];
    RunHead(p, all[0], all[1..]);
    if all[0] == '-' {
      assert all[1..] == [all[1]] + all[2..];
      RunHead(p.(mode := OptFollows), all[1], all[2..]);
      if IsLetter(all[1]) || all[1] == '-' {
        assert all[2..] == [all[2]] + all[3..];
        RunHead(p.(mode := SepFollows, opt := all[1]), all[2], all[3..]);
      }
    }
  }

  /** About to read the value of an option. */
  ghost predicate AtValue(p: Parser) {
    p.mode == ValueFollowsFirstChar && p.code == Ok && p.value == []
  }

  lemma QuotedReads(p: Parser, text: string)
    requires AtValue(p) && StartsQuoted(p.opt, text) && NUL !in text
    ensures Gives(Run(p, text + [NUL]), ReadValue(p.opt, text, p.args))
    decreases |text|, 0
  {
    var body, q := text[1..], p.(mode := Quoted, value := []);
    var n := Closing(body, '"');
    assert text + [NUL] == ['"'] + (body + [NUL]);
    RunHead(p, '"', body + [NUL]);
    if n == |body| {
      RunUnclosed(q, body);
    } else {
      RunToClosing(q, body, [NUL]);
      var raw := q.(value := body[..n]);
      if p.opt !in p.args {
        var more := p.args[p.opt := Strip(body[..n])];
        var q' := raw.(mode := SkipChar, value := [], args := more);
        assert Next(raw, '"') == q';
        SkipsOne(q', body[n + 1..]);
        if n + 1 < |body| {
          assert body[n + 1..][1..] == text[n + 3..];
          OptionsRead(q'.(mode := Normal), text[n + 3..]);
        }
      }
    }
  }

  lemma SkipsOne(p: Parser, text: string)
    requires p.mode == SkipChar && p.code == Ok
    ensures Run(p, text + [NUL])
         == if text == [] then p.(mode := Normal) else Run(p.(mode := Normal), text[1..] + [NUL])
  {
    if text == [] {
      assert text + [NUL] == [NUL] + [];
      RunHead(p, NUL, []);
    } else {
      assert text + [NUL] == [text[0]] + (text[1..] + [NUL]);
      RunHead(p, text[0], text[1..] + [NUL]);
    }
  }

  lemma BareReads(p: Parser, text: string)
    requires AtValue(p) && text != [] && !StartsQuoted(p.opt, text) && NUL !in text
    ensures Gives(Run(p, text + [NUL]), ReadValue(p.opt, text, p.args))
    decreases |text|, 0
  {
    var n := BareLength(p.opt, text);
    var rest := if n == |text| then [] else text[n + 1..] + [NUL];
    var sep := if n == |text| then NUL else ' ';
    BareSplits(p.opt, text);
    assert text + [NUL] == text[..n] + ([sep] + rest);
    RunBareText(p, text[..n], sep, rest);
    if p.opt !in p.args && n < |text| {
      OptionsRead(Stored(p, p.opt, text[..n]), text[n + 1..]);
    }
  }

  lemma BareSplits(letter: char, text: string)
    requires text != [] && NUL !in text
    ensures var n := BareLength(letter, text);
            && text[..n] != [] && NUL !in text[..n]
            && (letter != '-' ==> ' ' !in text[..n][1..])
            && (n < |text| ==> letter != '-' && text[n] == ' ')
  {
    var n := BareLength(letter, text);
    assert letter != '-' ==> text[..n][1..] == text[1..][..n - 1];
  }

  lemma RunBareText(p: Parser, value: string, sep: char, rest: string)
    requires AtValue(p) && value != [] && NUL !in value && !StartsQuoted(p.opt, value)
    requires p.opt != '-' ==> ' ' !in value[1..]
    requires sep == NUL || (sep == ' ' && p.opt != '-')
    ensures var q := Run(p, value + ([sep] + rest));
            if p.opt in p.args then Gives(q, Reading(DuplicateArg, p.args))
            else q == Run(Stored(p, p.opt, value), rest)
  {
    assert value + ([sep] + rest) == [value[0]] + (value[1..] + ([sep] + rest));
    RunHead(p, value[0], value[1..] + ([sep] + rest));
    var p1 := p.(mode := ValueFollows, value := [value[0]]);
    assert [] + [value[0]] == [value[0]] && [value[0]] + value[1..] == value;
    RunBare(p1, value[1..], [sep] + rest);
    RunHead(p1.(value := value), sep, rest);
  }

  lemma ValueReads(p: Parser, text: string)
    requires AtValue(p) && NUL !in text
    ensures Gives(Run(p, text + [NUL]), ReadValue(p.opt, text, p.args))
    decreases |text|, 1
  {
    if text == [] {
      assert text + [NUL] == [NUL] + [];
      RunHead(p, NUL, []);
    } else if StartsQuoted(p.opt, text) {
      QuotedReads(p, text);
    } else {
      BareReads(p, text);
    }
  }

  lemma OptionsRead(p: Parser, text: string)
    requires Ready(p) && NUL !in text
    ensures Gives(Run(p, text + [NUL]), ReadOptions(text, p.args))
    decreases |text|, 2
  {
    if StartsOption(text) {
      assert text + [NUL] == ['-', text[1], ' '] + (text[3..] + [NUL]);
      RunOption(p, text[1], text[3..] + [NUL]);
      ValueReads(p.(mode := ValueFollowsFirstChar, opt := text[1], value := []), text[3..]);
    } else {
      NoOption(p, text);
    }
  }

  /** The parser answers every line as the grammar reads it: the code, the name and the slots. */
  lemma ParsesAsRead(line: string)
    requires NUL !in line
    ensures Parse(line) == ReadLine(line)
  {
    var n := FirstSpace(line);
    if n < |line| {
      OptionsRead(CommandParser.INITIAL, line[n + 1..]);
    }
  }

  // ---------- What is rejected ----------

  /** What follows the space after the name: options, each with a space after it, then a text. */
  function OptionsThen(args: seq<Arg>, text: string): string {
    if args == [] then text else ArgText(args[0]) + ([' '] + OptionsThen(args[1..], text))
  }

  lemma {:induction false} HeadThenMalformed(p: Parser, args: seq<Arg>, text: string)
    requires Ready(p) && Slots(p.args, args).Some? && !StartsOption(text)
    requires forall i :: 0 <= i < |args| ==> IsArg(args[i])
    ensures Gives(Run(p, OptionsThen(args, text) + [NUL]), Reading(ParseError, Slots(p.args, args).value))
    decreases |args|
  {
    if args == [] {
      NoOption(p, text);
    } else {
      var head, more := ArgText(args[0]), OptionsThen(args[1..], text);
      assert head + ([' '] + more) + [NUL] == head + ([' '] + (more + [NUL]));
      RunArg(p, args[0], ' ', more + [NUL]);
      HeadThenMalformed(Stored(p, args[0].letter, Value(args[0])), args[1..], text);
    }
  }

  /** After a name and any number of well-formed options with different letters, a text that does
      not start an option makes the line malformed, whatever comes later. */
  lemma MalformedIsRejected(cmd: string, args: seq<Arg>, text: string)
    requires ' ' !in cmd && DistinctLetters(args)
    requires forall i :: 0 <= i < |args| ==> IsArg(args[i])
    requires !StartsOption(text)
    ensures var r := Parse(cmd + ([' '] + OptionsThen(args, text)));
            r.code == ParseError && r.cmd == Some(cmd) && Slots(map[], args) == Some(r.args)
  {
    SlotsFill(map[], args);
    HeadThenMalformed(CommandParser.INITIAL, args, text);
    ParsesFromSpace(cmd, OptionsThen(args, text));
  }
}
