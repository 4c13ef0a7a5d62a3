/** The state machine that reads a variable path: `xdebug_get_php_symbol`, up to the list of
    lookups it performs. */
module Symbols {
  import opened Wrappers
  import opened Subsequences
  import opened Escapes

  /** The kinds of lookup, and one lookup as the machine requests it. */
  datatype Kind =
    | Root | ArrayIndexNum | ArrayIndexAssoc | ObjProperty | StaticRoot | StaticProperty | EscapedObjProperty
  datatype Step = Step(kind: Kind, keyword: string)

  /** The machine's states, 0 to 14. */
  datatype Mode =
    | Start | Plain | AfterMinus | Bracket | InKey | AfterKey | InNumber | Special
    | AfterColon | MinusNumber | KeyEscape | Brace | InBrace | BraceEscape | AfterBrace

  /** `keyword` is the text from the keyword pointer up to the current character. */
  datatype Machine = Machine(mode: Mode, keyword: Option<string>, kind: Kind, quote: char, steps: seq<Step>)

  const INITIAL := Machine(Start, None, Root, NUL, [])

  function Keep(m: Machine, c: char): Machine {
    if m.keyword.Some? then m.(keyword := Some(m.keyword.value + [c])) else m
  }

  /** Requests the lookup of a pending keyword. */
  function Flush(m: Machine): Machine {
    if m.keyword.Some? then m.(keyword := None, steps := m.steps + [Step(m.kind, m.keyword.value)]) else m
  }

  predicate IsStop(c: char) {
    c == '[' || c == '-' || c == ':'
  }

  function NextPlain(m: Machine, c: char): Machine {
    if c == '[' then Flush(m).(mode := Bracket)
    else if c == '-' then Flush(m).(mode := AfterMinus, kind := ObjProperty)
    else if c == ':' then Flush(m).(mode := AfterColon, kind := StaticProperty)
    else Keep(m, c)
  }

  function NextStart(m: Machine, c: char): Machine {
    if c == '$' then m.(keyword := Some([]))
    else if c == ':' then m.(keyword := Some([c]), mode := Special)
    else NextPlain(m.(keyword := Some([]), mode := Plain), c)
  }

  function NextBracket(m: Machine, c: char): Machine {
    if c == '\'' || c == '"' then m.(mode := InKey, keyword := Some([]), quote := c, kind := ArrayIndexAssoc)
    else if IsDigit(c) then m.(mode := InNumber, keyword := Some([c]), kind := ArrayIndexNum)
    else if c == '-' then m.(mode := MinusNumber, keyword := Some([c]))
    else Keep(m, c)
  }

  /** Inside quotes: an escape, the closing quote, or one more character. */
  function NextQuoted(m: Machine, c: char, escape: Mode, closed: Mode): Machine {
    if c == '\\' then Keep(m, c).(mode := escape)
    else if c == m.quote then Flush(m).(mode := closed, quote := NUL)
    else Keep(m, c)
  }

  /** `inClass`: whether the active stack entry has an object class. */
  function Next(m: Machine, c: char, inClass: bool): Machine {
    match m.mode
    case Start => NextStart(m, c)
    case Plain => NextPlain(m, c)
    case AfterMinus =>
      if c == '>' then Keep(m, c)
      else if c == '{' then Keep(m, c).(mode := Brace)
      else m.(keyword := Some([c]), mode := Plain)
    case AfterColon => if c == ':' then Keep(m, c) else m.(keyword := Some([c]), mode := Plain)
    case Bracket => NextBracket(m, c)
    case MinusNumber => if IsDigit(c) then Keep(m, c).(mode := InNumber, kind := ArrayIndexNum) else Keep(m, c)
    case InKey => NextQuoted(m, c, KeyEscape, AfterKey)
    case KeyEscape => Keep(m, c).(mode := InKey)
    case AfterKey => if c == ']' then Keep(m, c).(mode := Plain) else Keep(m, c)
    case InNumber => if c == ']' then Flush(m).(mode := Plain) else Keep(m, c)
    case Special =>
      if c == ':' then
        if m.keyword == Some([':']) && inClass then m.(mode := Plain, keyword := Some([]), kind := StaticRoot)
        else m.(mode := Plain, keyword := None)
      else Keep(m, c)
    case Brace =>
      if c == '\'' || c == '"' then m.(mode := InBrace, keyword := Some([]), quote := c, kind := EscapedObjProperty)
      else Keep(m, c)
    case InBrace => NextQuoted(m, c, BraceEscape, AfterBrace)
    case BraceEscape => Keep(m, c).(mode := InBrace)
    case AfterBrace => if c == '}' then Keep(m, c).(mode := Plain) else Keep(m, c)
  }

  /** Reading a text from a given state. */
  function Feed(m: Machine, text: string, inClass: bool): Machine
    decreases |text|
  {
    if text == [] then m else Feed(Next(m, text[0], inClass), text[1..], inClass)
  }

  /** The lookups requested for a name; a keyword still pending at the end is looked up too. */
  function Steps(name: string, inClass: bool): seq<Step> {
    Flush(Feed(INITIAL, name, inClass)).steps
  }

  lemma {:induction false} FeedConcat(m: Machine, s: string, t: string, inClass: bool)
    ensures Feed(m, s + t, inClass) == Feed(Feed(m, s, inClass), t, inClass)
    decreases |s|
  {
    if s == [] {
      assert s + t == t;
    } else {
      assert (s + t)[1..] == s[1..] + t;
      FeedConcat(Next(m, s[0], inClass), s[1..], t, inClass);
    }
  }

  lemma FeedHead(m: Machine, c: char, rest: string, inClass: bool)
    ensures Feed(m, [c] + rest, inClass) == Feed(Next(m, c, inClass), rest, inClass)
  {
    assert ([c] + rest)[1..] == rest;
  }

  lemma FeedTwo(m: Machine, c1: char, c2: char, rest: string, inClass: bool)
    ensures Feed(m, [c1] + ([c2] + rest), inClass) == Feed(Next(Next(m, c1, inClass), c2, inClass), rest, inClass)
  {
    FeedHead(m, c1, [c2] + rest, inClass);
    FeedHead(Next(m, c1, inClass), c2, rest, inClass);
  }

  /** Two more characters, one at a time. */
  lemma FeedClose(m: Machine, c1: char, c2: char, inClass: bool)
    ensures Feed(m, [c1, c2], inClass) == Next(Next(m, c1, inClass), c2, inClass)
  {
    assert [c1, c2] == [c1] + [c2] && [c2] == [c2] + [];
    FeedHead(m, c1, [c2], inClass);
    FeedHead(Next(m, c1, inClass), c2, [], inClass);
  }

  lemma FeedNext(name: string, i: nat, inClass: bool)
    requires i < |name|
    ensures Feed(INITIAL, name[..i + 1], inClass) == Next(Feed(INITIAL, name[..i], inClass), name[i], inClass)
  {
    TakeNext(name, i);
    FeedConcat(INITIAL, name[..i], [name[i]], inClass);
    var m := Feed(INITIAL, name[..i], inClass);
    assert [name[i]][1..] == [];
    assert Feed(m, [name[i]], inClass) == Feed(Next(m, name[i], inClass), [], inClass);
  }

  // ---------- Quoted text ----------

  function KeepAll(m: Machine, s: string): Machine {
    if m.keyword.Some? then m.(keyword := Some(m.keyword.value + s)) else m
  }

  /** Inside quotes. */
  ghost predicate InQuotes(m: Machine) {
    (m.mode == InKey || m.mode == InBrace) && m.keyword.Some? && m.quote != '\\'
  }

  lemma FeedEscape(m: Machine, c: char, rest: string, inClass: bool)
    requires InQuotes(m)
    ensures Feed(m, ['\\'] + ([c] + rest), inClass) == Feed(KeepAll(m, ['\\', c]), rest, inClass)
  {
    FeedTwo(m, '\\', c, rest, inClass);
    assert m.keyword.value + ['\\'] + [c] == m.keyword.value + ['\\', c];
  }

  lemma {:induction false} FeedEnclosed(m: Machine, raw: string, rest: string, inClass: bool)
    requires InQuotes(m) && Enclosed(raw, m.quote)
    ensures Feed(m, raw + rest, inClass) == Feed(KeepAll(m, raw), rest, inClass)
    decreases |raw|
  {
    var k := m.keyword.value;
    if raw == [] {
      assert raw + rest == rest && k + raw == k;
    } else if raw[0] == '\\' {
      assert raw + rest == ['\\'] + ([raw[1]] + (raw[2..] + rest));
      FeedEscape(m, raw[1], raw[2..] + rest, inClass);
      FeedEnclosed(KeepAll(m, ['\\', raw[1]]), raw[2..], rest, inClass);
      assert k + ['\\', raw[1]] + raw[2..] == k + raw;
    } else {
      assert raw + rest == [raw[0]] + (raw[1..] + rest);
      FeedHead(m, raw[0], raw[1..] + rest, inClass);
      FeedEnclosed(KeepAll(m, [raw[0]]), raw[1..], rest, inClass);
      assert k + [raw[0]] + raw[1..] == k + raw;
    }
  }

  // ---------- The loop ----------

  /** The machine as the loop holds it: the keyword is an index into the name, or none. */
  class SymbolReader {
    const name: string
    const inClass: bool
    var state: Mode
    var keyword: Option<nat>
    var kind: Kind
    var quotechar: char
    var steps: seq<Step>

    constructor (name: string, inClass: bool)
      ensures this.name == name && this.inClass == inClass
      ensures state == Start && keyword == None && kind == Root && quotechar == NUL && steps == []
    {
      this.name, this.inClass := name, inClass;
      state, keyword, kind, quotechar, steps := Start, None, Root, NUL, [];
    }

    /** What the loop holds before it looks at character `ctr`. */
    ghost function View(ctr: nat): Machine
      requires ctr <= |name| && (keyword.Some? ==> keyword.value <= ctr)
      reads this
    {
      Machine(state, if keyword.Some? then Some(name[keyword.value..ctr]) else None, kind, quotechar, steps)
    }

    ghost predicate At(ctr: nat, m: Machine)
      reads this
    {
      ctr <= |name| && (keyword.Some? ==> keyword.value <= ctr) && View(ctr) == m
    }

    lemma Kept(ctr: nat)
      requires ctr < |name| && (keyword.Some? ==> keyword.value <= ctr)
      ensures View(ctr + 1) == Keep(View(ctr), name[ctr])
      ensures name[ctr..ctr] == [] && name[ctr..ctr + 1] == [name[ctr]] && name[ctr + 1..ctr + 1] == []
    {
      if keyword.Some? {
        assert name[keyword.value..ctr + 1] == name[keyword.value..ctr] + [name[ctr]];
      }
    }

    /** The lookup of the keyword, if there is one, up to the current character. */
    method Fetch(ctr: nat)
      requires ctr <= |name| && (keyword.Some? ==> keyword.value <= ctr)
      modifies this`keyword, this`steps
      ensures keyword == None && View(ctr) == Flush(old(View(ctr)))
    {
      if keyword.Some? {
        steps := steps + [Step(kind, name[keyword.value..ctr])];
        keyword := None;
      }
    }

    method OnPlain(ctr: nat)
      requires ctr < |name| && (keyword.Some? ==> keyword.value <= ctr)
      modifies this
      ensures At(ctr + 1, NextPlain(old(View(ctr)), name[ctr]))
    {
      Kept(ctr);
      if name[ctr] == '[' {
        Fetch(ctr);
        state := Bracket;
      } else if name[ctr] == '-' {
        Fetch(ctr);
        state, kind := AfterMinus, ObjProperty;
      } else if name[ctr] == ':' {
        Fetch(ctr);
        state, kind := AfterColon, StaticProperty;
      }
    }

    method OnBracket(ctr: nat)
      requires ctr < |name| && (keyword.Some? ==> keyword.value <= ctr)
      modifies this
      ensures At(ctr + 1, NextBracket(old(View(ctr)), name[ctr]))
    {
      Kept(ctr);
      if name[ctr] == '\'' || name[ctr] == '"' {
        state, keyword, quotechar, kind := InKey, Some(ctr + 1), name[ctr], ArrayIndexAssoc;
      }
      if IsDigit(name[ctr]) {
        state, keyword, kind := InNumber, Some(ctr), ArrayIndexNum;
      }
      if name[ctr] == '-' {
        state, keyword := MinusNumber, Some(ctr);
      }
    }

    method OnQuoted(ctr: nat, escape: Mode, closed: Mode)
      requires ctr < |name| && (keyword.Some? ==> keyword.value <= ctr)
      modifies this
      ensures At(ctr + 1, NextQuoted(old(View(ctr)), name[ctr], escape, closed))
    {
      ghost var m := View(ctr);
      if name[ctr] == '\\' {
        Kept(ctr);
        state := escape;
      } else if name[ctr] == quotechar {
        Fetch(ctr);
        quotechar, state := NUL, closed;
        assert View(ctr + 1) == Flush(m).(mode := closed, quote := NUL);
      } else {
        Kept(ctr);
      }
    }

    method OnSpecial(ctr: nat)
      requires ctr < |name| && (keyword.Some? ==> keyword.value <= ctr) && state == Special
      modifies this
      ensures At(ctr + 1, Next(old(View(ctr)), name[ctr], inClass))
    {
      Kept(ctr);
      if name[ctr] == ':' {
        state := Plain;
        if keyword.Some? {
          DoubleColon(name[keyword.value..ctr]);
        }
        if keyword.Some? && name[keyword.value..ctr + 1] == "::" && inClass {
          keyword, kind := Some(ctr + 1), StaticRoot;
        } else {
          keyword := None;
        }
      }
    }

    /** The switch. */
    method OnCharacter(ctr: nat)
      requires ctr < |name| && (keyword.Some? ==> keyword.value <= ctr)
      modifies this
      ensures At(ctr + 1, Next(old(View(ctr)), name[ctr], inClass))
    {
      Kept(ctr);
      var c := name[ctr];
      match state
      case Start =>
        if c == '$' {
          keyword := Some(ctr + 1);
        } else if c == ':' {
          keyword, state := Some(ctr), Special;
        } else {
          keyword, state := Some(ctr), Plain;
          OnPlain(ctr);
        }
      case Plain => OnPlain(ctr);
      case AfterMinus =>
        if c != '>' {
          if c == '{' {
            state := Brace;
          } else {
            keyword, state := Some(ctr), Plain;
          }
        }
      case AfterColon =>
        if c != ':' {
          keyword, state := Some(ctr), Plain;
        }
      case Bracket => OnBracket(ctr);
      case MinusNumber =>
        if IsDigit(c) {
          state, kind := InNumber, ArrayIndexNum;
        }
      case InKey => OnQuoted(ctr, KeyEscape, AfterKey);
      case KeyEscape => state := InKey;
      case AfterKey =>
        if c == ']' {
          state := Plain;
        }
      case InNumber =>
        if c == ']' {
          state := Plain;
          Fetch(ctr);
        }
      case Special => OnSpecial(ctr);
      case Brace =>
        if c == '\'' || c == '"' {
          state, keyword, quotechar, kind := InBrace, Some(ctr + 1), c, EscapedObjProperty;
        }
      case InBrace => OnQuoted(ctr, BraceEscape, AfterBrace);
      case BraceEscape => state := InBrace;
      case AfterBrace =>
        if c == '}' {
          state := Plain;
        }
    }
  }

  lemma DoubleColon(s: string)
    ensures s + [':'] == "::" <==> s == [':']
  {
    if s + [':'] == "::" {
      assert s == (s + [':'])[..|s|];
    }
  }

  method GetPhpSymbol(name: string, inClass: bool) returns (steps: seq<Step>)
    ensures steps == Steps(name, inClass)
  {
    var reader := new SymbolReader(name, inClass);
    for ctr := 0 to |name|
      invariant reader.At(ctr, Feed(INITIAL, name[..ctr], inClass))
    {
      FeedNext(name, ctr, inClass);
      reader.OnCharacter(ctr);
    }
    assert name[..|name|] == name;
    reader.Fetch(|name|);
    steps := reader.steps;
  }
}
