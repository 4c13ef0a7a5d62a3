/** Variable paths as a grammar of whole names, numbers and quoted texts, and what the state
    machine makes of every text. */
module PathGrammar {
  import opened Wrappers
  import opened Subsequences
  import opened Escapes
  import opened Symbols

  // ---------- The grammar ----------

  /** How many characters come before the first of the given ones. */
  function Until(text: string, ends: set<char>): (n: nat)
    ensures n <= |text| && (n < |text| ==> text[n] in ends)
    ensures forall i :: 0 <= i < n ==> text[i] !in ends
  {
    if text == [] || text[0] in ends then 0 else 1 + Until(text[1..], ends)
  }

  const STOPS := {'[', '-', ':'}
  const DIGITS := {'0', '1', '2', '3', '4', '5', '6', '7', '8', '9'}
  const QUOTES := {'\'', '"'}

  /** A path: a root after any number of sigils, or something that starts with a colon. */
  function ReadPath(text: string, inClass: bool): seq<Step>
    decreases |text|, 2
  {
    if text == [] then []
    else if text[0] == '$' then if |text| == 1 then [Step(Root, [])] else ReadPath(text[1..], inClass)
    else if text[0] == ':' then ReadSpecial(text[1..], inClass)
    else ReadName(Root, [], text)
  }

  /** Two colons in a class start a static property of the class; otherwise the text up to the
      next colon is passed over, and looked up only if there is no such colon. */
  function ReadSpecial(text: string, inClass: bool): seq<Step>
    decreases |text|, 1
  {
    var n := Until(text, {':'});
    if n == |text| then [Step(Root, [':'] + text)]
    else if n == 0 && inClass then ReadName(StaticRoot, [], text[1..])
    else ReadNext(Root, text[n + 1..])
  }

  /** A name goes on up to a bracket, a hyphen or a colon. */
  function ReadName(kind: Kind, head: string, text: string): seq<Step>
    decreases |text|, 1
  {
    var n := Until(text, STOPS);
    [Step(kind, head + text[..n])] + ReadNext(kind, text[n..])
  }

  /** The next element; whatever comes before it is passed over. */
  function ReadNext(kind: Kind, text: string): seq<Step>
    decreases |text|, 0
  {
    var n := Until(text, STOPS);
    if n == |text| then [] else ReadElement(kind, text[n], text[n + 1..])
  }

  function ReadElement(kind: Kind, stop: char, text: string): seq<Step>
    requires stop in STOPS
    decreases |text|, 2
  {
    if stop == '[' then ReadBracket(kind, text) else if stop == '-' then ReadMember(text) else ReadStatic(text)
  }

  /** Inside brackets. */
  function ReadBracket(kind: Kind, text: string): seq<Step>
    decreases |text|, 1
  {
    var n := Until(text, QUOTES + DIGITS + {'-'});
    if n == |text| then [] else ReadKey(kind, text[n], text[n + 1..])
  }

  /** A quoted key, or a number with or without a sign. */
  function ReadKey(kind: Kind, first: char, text: string): seq<Step>
    decreases |text|, 3
  {
    if first in QUOTES then ReadQuoted(ArrayIndexAssoc, first, text, ']')
    else if first in DIGITS then ReadNumber([first], text)
    else ReadSigned(kind, text)
  }

  /** Everything up to the closing bracket. */
  function ReadNumber(head: string, text: string): seq<Step>
    decreases |text|, 1
  {
    var n := Until(text, {']'});
    [Step(ArrayIndexNum, head + text[..n])] + if n == |text| then [] else ReadNext(ArrayIndexNum, text[n + 1..])
  }

  /** After a minus sign: it is a number once there is a digit. */
  function ReadSigned(kind: Kind, text: string): seq<Step>
    decreases |text|, 2
  {
    var n := Until(text, DIGITS);
    if n == |text| then [Step(kind, ['-'] + text)]
    else ReadNumber(['-'] + text[..n] + [text[n]], text[n + 1..])
  }

  /** Up to the closing quote. */
  function ReadQuoted(kind: Kind, quote: char, text: string, close: char): seq<Step>
    decreases |text|, 1
  {
    var n := Closing(text, quote);
    if n == |text| then [Step(kind, text)]
    else [Step(kind, text[..n])] + AfterQuote(kind, text[n + 1..], close)
  }

  /** On to the closing bracket or brace. */
  function AfterQuote(kind: Kind, rest: string, close: char): seq<Step>
    decreases |rest|, 1
  {
    var k := Until(rest, {close});
    if k == |rest| then [] else ReadNext(kind, rest[k + 1..])
  }

  /** After a hyphen: the arrow's head, then a brace or a name. */
  function ReadMember(text: string): seq<Step>
    decreases |text|, 1
  {
    if text == [] then []
    else if text[0] == '>' then ReadMember(text[1..])
    else if text[0] == '{' then ReadBrace(text[1..])
    else ReadName(ObjProperty, [text[0]], text[1..])
  }

  function ReadBrace(text: string): seq<Step>
    decreases |text|, 1
  {
    var n := Until(text, QUOTES);
    if n == |text| then [] else ReadQuoted(EscapedObjProperty, text[n], text[n + 1..], '}')
  }

  /** After a colon: any more of them, then a name. */
  function ReadStatic(text: string): seq<Step>
    decreases |text|, 1
  {
    if text == [] then []
    else if text[0] == ':' then ReadStatic(text[1..])
    else ReadName(StaticProperty, [text[0]], text[1..])
  }

  // ---------- Stretches of text that leave the state as it is ----------

  /** The lookups requested if the text is read from here and the path ends. */
  function Ends(m: Machine, text: string, inClass: bool): seq<Step> {
    Flush(Feed(m, text, inClass)).steps
  }

  /** The characters that take the machine out of a state; quoted text is read apart. */
  function Exits(mode: Mode): set<char>
    requires mode in {Plain, Bracket, InNumber, MinusNumber, Special, Brace, AfterKey, AfterBrace}
  {
    match mode
    case Plain => STOPS
    case Bracket => QUOTES + DIGITS + {'-'}
    case InNumber | AfterKey => {']'}
    case MinusNumber => DIGITS
    case Special => {':'}
    case Brace => QUOTES
    case AfterBrace => {'}'}
  }

  predicate Loops(mode: Mode) {
    mode in {Plain, Bracket, InNumber, MinusNumber, Special, Brace, AfterKey, AfterBrace}
  }

  lemma Stays(m: Machine, c: char, inClass: bool)
    requires Loops(m.mode) && c !in Exits(m.mode)
    ensures Next(m, c, inClass) == Keep(m, c)
  {
    assert IsDigit(c) <==> c in DIGITS;
  }

  lemma {:induction false} FeedStays(m: Machine, s: string, rest: string, inClass: bool)
    requires Loops(m.mode) && forall i :: 0 <= i < |s| ==> s[i] !in Exits(m.mode)
    ensures Feed(m, s + rest, inClass) == Feed(KeepAll(m, s), rest, inClass)
    decreases |s|
  {
    if s == [] {
      assert s + rest == rest;
      assert m.keyword.Some? ==> m.keyword.value + s == m.keyword.value;
    } else {
      assert (s + rest)[1..] == s[1..] + rest;
      Stays(m, s[0], inClass);
      FeedStays(Keep(m, s[0]), s[1..], rest, inClass);
      assert m.keyword.Some? ==> m.keyword.value + [s[0]] + s[1..] == m.keyword.value + s;
    }
  }

  /** Up to the first character that matters, and one transition on it. */
  lemma FeedUntil(m: Machine, text: string, inClass: bool)
    requires Loops(m.mode)
    ensures var n := Until(text, Exits(m.mode));
            Feed(m, text, inClass) ==
              (if n == |text| then KeepAll(m, text)
              else Feed(Next(KeepAll(m, text[..n]), text[n], inClass), text[n + 1..], inClass))
  {
    var n := Until(text, Exits(m.mode));
    assert text == text[..n] + text[n..];
    FeedStays(m, text[..n], text[n..], inClass);
    if n == |text| {
      assert text[..n] == text && text[n..] == [];
    } else {
      assert text[n..][1..] == text[n + 1..];
    }
  }

  /** The same without a keyword to extend. */
  lemma SkipUntil(m: Machine, text: string, inClass: bool)
    requires Loops(m.mode) && m.keyword == None
    ensures var n := Until(text, Exits(m.mode));
            Feed(m, text, inClass) ==
              if n == |text| then m else Feed(Next(m, text[n], inClass), text[n + 1..], inClass)
  {
    FeedUntil(m, text, inClass);
  }

  /** The text ends within an escape. */
  lemma FeedCutOff(m: Machine, raw: string, inClass: bool)
    requires InQuotes(m) && Enclosed(raw, m.quote)
    ensures Ends(m, raw + ['\\'], inClass) == m.steps + [Step(m.kind, m.keyword.value + (raw + ['\\']))]
  {
    FeedEnclosed(m, raw, ['\\'], inClass);
    var m' := KeepAll(m, raw);
    assert ['\\'] == ['\\'] + [];
    FeedHead(m', '\\', [], inClass);
    Assoc(m.keyword.value, raw, ['\\']);
  }

  lemma FeedWhole(m: Machine, raw: string, inClass: bool)
    requires InQuotes(m) && Enclosed(raw, m.quote)
    ensures Ends(m, raw, inClass) == m.steps + [Step(m.kind, m.keyword.value + raw)]
  {
    FeedEnclosed(m, raw, [], inClass);
    assert raw + [] == raw;
  }

  lemma FeedUnclosed(m: Machine, text: string, inClass: bool)
    requires InQuotes(m) && Closing(text, m.quote) == |text|
    ensures Ends(m, text, inClass) == m.steps + [Step(m.kind, m.keyword.value + text)]
  {
    var raw := UnclosedEncloses(text, m.quote);
    if text == raw {
      FeedWhole(m, raw, inClass);
    } else {
      FeedCutOff(m, raw, inClass);
    }
  }

  // ---------- The machine reads by the grammar ----------

  lemma AfterQuoteReads(m: Machine, rest: string, inClass: bool)
    requires (m.mode == AfterKey || m.mode == AfterBrace) && m.keyword == None
    ensures Ends(m, rest, inClass) == m.steps + AfterQuote(m.kind, rest, if m.mode == AfterKey then ']' else '}')
    decreases |rest|, 1
  {
    var k := Until(rest, Exits(m.mode));
    SkipUntil(m, rest, inClass);
    if k < |rest| {
      NextReads(m.(mode := Plain), rest[k + 1..], inClass);
    }
  }

  function Close(mode: Mode): char {
    if mode == InKey then ']' else '}'
  }

  /** At the closing quote. */
  lemma ClosedReads(m: Machine, raw: string, rest: string, inClass: bool)
    requires InQuotes(m) && m.keyword == Some([]) && Enclosed(raw, m.quote)
    ensures Ends(m, raw + ([m.quote] + rest), inClass)
         == m.steps + ([Step(m.kind, raw)] + AfterQuote(m.kind, rest, Close(m.mode)))
    decreases |raw| + |rest|, 2
  {
    FeedEnclosed(m, raw, [m.quote] + rest, inClass);
    assert [] + raw == raw;
    FeedHead(KeepAll(m, raw), m.quote, rest, inClass);
    var closed := if m.mode == InKey then AfterKey else AfterBrace;
    var m' := Machine(closed, None, m.kind, NUL, m.steps + [Step(m.kind, raw)]);
    AfterQuoteReads(m', rest, inClass);
    Assoc(m.steps, [Step(m.kind, raw)], AfterQuote(m.kind, rest, Close(m.mode)));
  }

  lemma QuotedReads(m: Machine, text: string, inClass: bool)
    requires InQuotes(m) && m.keyword == Some([])
    ensures Ends(m, text, inClass) == m.steps + ReadQuoted(m.kind, m.quote, text, Close(m.mode))
    decreases |text|, 1
  {
    var n := Closing(text, m.quote);
    if n == |text| {
      FeedUnclosed(m, text, inClass);
      assert [] + text == text;
    } else {
      ClosingEncloses(text, m.quote);
      assert text == text[..n] + ([m.quote] + text[n + 1..]);
      ClosedReads(m, text[..n], text[n + 1..], inClass);
    }
  }

  lemma NumberReads(m: Machine, text: string, inClass: bool)
    requires m.mode == InNumber && m.keyword.Some? && m.kind == ArrayIndexNum
    ensures Ends(m, text, inClass) == m.steps + ReadNumber(m.keyword.value, text)
    decreases |text|, 1
  {
    var n := Until(text, {']'});
    var step := Step(ArrayIndexNum, m.keyword.value + text[..n]);
    FeedUntil(m, text, inClass);
    if n == |text| {
      assert text[..n] == text;
    } else {
      NextReads(m.(mode := Plain, keyword := None, steps := m.steps + [step]), text[n + 1..], inClass);
    }
    Assoc(m.steps, [step], if n == |text| then [] else ReadNext(ArrayIndexNum, text[n + 1..]));
  }

  lemma FirstDigitReads(m: Machine, skipped: string, digit: char, text: string, inClass: bool)
    requires m.mode == MinusNumber && m.keyword == Some(['-']) && digit in DIGITS
    requires forall i :: 0 <= i < |skipped| ==> skipped[i] !in DIGITS
    ensures Ends(m, skipped + ([digit] + text), inClass) == m.steps + ReadNumber(['-'] + skipped + [digit], text)
    decreases |text|, 2
  {
    var head := ['-'] + skipped;
    FeedStays(m, skipped, [digit] + text, inClass);
    FeedHead(m.(keyword := Some(head)), digit, text, inClass);
    assert IsDigit(digit);
    NumberReads(m.(mode := InNumber, kind := ArrayIndexNum, keyword := Some(head + [digit])), text, inClass);
  }

  lemma SignedReads(m: Machine, text: string, inClass: bool)
    requires m.mode == MinusNumber && m.keyword == Some(['-'])
    ensures Ends(m, text, inClass) == m.steps + ReadSigned(m.kind, text)
    decreases |text|, 2
  {
    var n := Until(text, DIGITS);
    if n == |text| {
      FeedUntil(m, text, inClass);
    } else {
      assert text == text[..n] + ([text[n]] + text[n + 1..]);
      FirstDigitReads(m, text[..n], text[n], text[n + 1..], inClass);
    }
  }

  lemma KeyReads(m: Machine, c: char, text: string, inClass: bool)
    requires m.mode == Bracket && m.keyword == None && c in Exits(Bracket)
    ensures Ends(Next(m, c, inClass), text, inClass) == m.steps + ReadKey(m.kind, c, text)
    decreases |text|, 3
  {
    if c in QUOTES {
      QuotedReads(m.(mode := InKey, keyword := Some([]), quote := c, kind := ArrayIndexAssoc), text, inClass);
    } else if c in DIGITS {
      assert IsDigit(c);
      NumberReads(m.(mode := InNumber, keyword := Some([c]), kind := ArrayIndexNum), text, inClass);
    } else {
      SignedReads(m.(mode := MinusNumber, keyword := Some([c])), text, inClass);
    }
  }

  lemma BracketReads(m: Machine, text: string, inClass: bool)
    requires m.mode == Bracket && m.keyword == None
    ensures Ends(m, text, inClass) == m.steps + ReadBracket(m.kind, text)
    decreases |text|, 1
  {
    var n := Until(text, Exits(Bracket));
    SkipUntil(m, text, inClass);
    if n < |text| {
      KeyReads(m, text[n], text[n + 1..], inClass);
    }
  }

  lemma BraceReads(m: Machine, text: string, inClass: bool)
    requires m.mode == Brace && m.keyword == None
    ensures Ends(m, text, inClass) == m.steps + ReadBrace(text)
    decreases |text|, 1
  {
    var n := Until(text, QUOTES);
    SkipUntil(m, text, inClass);
    if n < |text| {
      QuotedReads(m.(mode := InBrace, keyword := Some([]), quote := text[n], kind := EscapedObjProperty),
                  text[n + 1..], inClass);
    }
  }

  lemma MemberReads(m: Machine, text: string, inClass: bool)
    requires m.mode == AfterMinus && m.keyword == None && m.kind == ObjProperty
    ensures Ends(m, text, inClass) == m.steps + ReadMember(text)
    decreases |text|, 1
  {
    if text != [] {
      if text[0] == '>' {
        MemberReads(m, text[1..], inClass);
      } else if text[0] == '{' {
        BraceReads(m.(mode := Brace), text[1..], inClass);
      } else {
        NameReads(m.(mode := Plain, keyword := Some([text[0]])), text[1..], inClass);
      }
    }
  }

  lemma StaticReads(m: Machine, text: string, inClass: bool)
    requires m.mode == AfterColon && m.keyword == None && m.kind == StaticProperty
    ensures Ends(m, text, inClass) == m.steps + ReadStatic(text)
    decreases |text|, 1
  {
    if text != [] {
      if text[0] == ':' {
        StaticReads(m, text[1..], inClass);
      } else {
        NameReads(m.(mode := Plain, keyword := Some([text[0]])), text[1..], inClass);
      }
    }
  }

  lemma ElementReads(m: Machine, stop: char, text: string, inClass: bool)
    requires m.mode == Plain && m.keyword == None && stop in STOPS
    ensures Ends(Next(m, stop, inClass), text, inClass) == m.steps + ReadElement(m.kind, stop, text)
    decreases |text|, 2
  {
    if stop == '[' {
      BracketReads(m.(mode := Bracket), text, inClass);
    } else if stop == '-' {
      MemberReads(m.(mode := AfterMinus, kind := ObjProperty), text, inClass);
    } else {
      StaticReads(m.(mode := AfterColon, kind := StaticProperty), text, inClass);
    }
  }

  lemma NextReads(m: Machine, text: string, inClass: bool)
    requires m.mode == Plain && m.keyword == None
    ensures Ends(m, text, inClass) == m.steps + ReadNext(m.kind, text)
    decreases |text|, 0
  {
    var n := Until(text, STOPS);
    SkipUntil(m, text, inClass);
    if n < |text| {
      ElementReads(m, text[n], text[n + 1..], inClass);
    }
  }

  /** A pending keyword is looked up as soon as its name ends; from there it is as if there had
      been none. */
  lemma NameReads(m: Machine, text: string, inClass: bool)
    requires m.mode == Plain && m.keyword.Some?
    ensures Ends(m, text, inClass) == m.steps + ReadName(m.kind, m.keyword.value, text)
    decreases |text|, 1
  {
    var n := Until(text, STOPS);
    var step := Step(m.kind, m.keyword.value + text[..n]);
    var m' := m.(keyword := None, steps := m.steps + [step]);
    FeedUntil(m, text, inClass);
    NextReads(m', text[n..], inClass);
    if n == |text| {
      assert text[..n] == text && text[n..] == [];
    } else {
      assert text[n..][1..] == text[n + 1..];
      assert Next(KeepAll(m, text[..n]), text[n], inClass) == Next(m', text[n], inClass);
    }
    Assoc(m.steps, [step], ReadNext(m.kind, text[n..]));
  }

  lemma SpecialReads(m: Machine, text: string, inClass: bool)
    requires m.mode == Special && m.keyword == Some([':']) && m.kind == Root
    ensures Ends(m, text, inClass) == m.steps + ReadSpecial(text, inClass)
  {
    var n := Until(text, {':'});
    FeedUntil(m, text, inClass);
    if n < |text| {
      assert [':'] + text[..n] == [':'] <==> n == 0;
      if n == 0 && inClass {
        NameReads(m.(mode := Plain, keyword := Some([]), kind := StaticRoot), text[1..], inClass);
      } else {
        NextReads(m.(mode := Plain, keyword := None), text[n + 1..], inClass);
      }
    }
  }

  lemma {:induction false} PathReads(m: Machine, text: string, inClass: bool)
    requires m.mode == Start && (m.keyword == None || (m.keyword == Some([]) && text != [])) && m.kind == Root
    ensures Ends(m, text, inClass) == m.steps + ReadPath(text, inClass)
    decreases |text|
  {
    if text != [] {
      if text[0] == '$' {
        assert Next(m, '$', inClass) == m.(keyword := Some([]));
        if |text| == 1 {
          assert text == ['$'] + [];
          FeedHead(m, '$', [], inClass);
        } else {
          PathReads(m.(keyword := Some([])), text[1..], inClass);
        }
      } else if text[0] == ':' {
        SpecialReads(m.(mode := Special, keyword := Some([':'])), text[1..], inClass);
      } else {
        var m' := m.(mode := Plain, keyword := Some([]));
        assert Next(m, text[0], inClass) == Next(m', text[0], inClass);
        NameReads(m', text, inClass);
      }
    }
  }

  /** Every name, well-formed or not, is read by the grammar: the same lookups with the same
      keywords in the same order. */
  lemma ReadsByGrammar(name: string, inClass: bool)
    ensures Steps(name, inClass) == ReadPath(name, inClass)
  {
    PathReads(Symbols.INITIAL, name, inClass);
  }
}
