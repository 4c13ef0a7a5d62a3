/** The DBGp command line parser: a command name, then options `-x value`, `-x "value"` and
    finally `-- value`. */
module CommandParser {
  import opened Wrappers
  import opened Escapes

  datatype Code = Ok | ParseError | DuplicateArg

  datatype Mode =
    | Normal | Quoted | OptFollows | SepFollows | ValueFollowsFirstChar | ValueFollows | SkipChar | EscapedCharFollows

  /** The slots, one per letter and one for "-", by their option; an absent key is an empty slot. */
  type Args = map<char, string>

  predicate IsLetter(c: char) {
    'a' <= c <= 'z'
  }

  /** `value` is the text of the value read so far; an error stops the parser. */
  datatype Parser = Parser(mode: Mode, opt: char, value: string, args: Args, code: Code)

  const INITIAL := Parser(Normal, '-', [], map[], Ok)

  function Store(p: Parser, value: string, mode: Mode): Parser {
    if p.opt !in p.args then p.(mode := mode, value := [], args := p.args[p.opt := value])
    else p.(code := DuplicateArg)
  }

  function Next(p: Parser, c: char): Parser {
    match p.mode
    case Normal => if c == '-' then p.(mode := OptFollows) else p.(code := ParseError)
    case OptFollows =>
      if IsLetter(c) || c == '-' then p.(mode := SepFollows, opt := c) else p.(code := ParseError)
    case SepFollows =>
      if c == ' ' then p.(mode := ValueFollowsFirstChar, value := []) else p.(code := ParseError)
    case ValueFollowsFirstChar =>
      if c == '"' && p.opt != '-' then p.(mode := Quoted, value := [])
      else p.(mode := ValueFollows, value := p.value + [c])
    case ValueFollows =>
      if (c == ' ' && p.opt != '-') || c == NUL then Store(p, p.value, Normal) else p.(value := p.value + [c])
    case Quoted =>
      if c == '\\' then p.(mode := EscapedCharFollows, value := p.value + [c])
      else if c == '"' then Store(p, Strip(p.value), SkipChar)
      else p.(value := p.value + [c])
    case SkipChar => p.(mode := Normal)
    case EscapedCharFollows => p.(mode := Quoted, value := p.value + [c])
  }

  /** Reads a text up to its end or the first error. */
  function Run(p: Parser, text: string): Parser
    decreases |text|
  {
    if text == [] || p.code != Ok then p else Run(Next(p, text[0]), text[1..])
  }

  datatype Parsed = Parsed(code: Code, cmd: Option<string>, args: Args)

  function FirstSpace(line: string): (i: nat)
    ensures i <= |line| && (i < |line| ==> line[i] == ' ') && ' ' !in line[..i]
  {
    if line == [] || line[0] == ' ' then 0
    else
      var i := 1 + FirstSpace(line[1..]);
      assert line[..i] == [line[0]] + line[1..][..i - 1];
      i
  }

  /** The whole line; the terminating NUL is read like any other character. */
  function Parse(line: string): Parsed {
    var i := FirstSpace(line);
    if i == |line| then
      if line == [] then Parsed(ParseError, None, map[]) else Parsed(Ok, Some(line), map[])
    else
      var p := Run(INITIAL, line[i + 1..] + [NUL]);
      Parsed(p.code, Some(line[..i]), p.args)
  }

  lemma {:induction false} RunConcat(p: Parser, s: string, t: string)
    ensures Run(p, s + t) == Run(Run(p, s), t)
    decreases |s|
  {
    if s == [] {
      assert s + t == t;
    } else if p.code == Ok {
      assert (s + t)[1..] == s[1..] + t;
      RunConcat(Next(p, s[0]), s[1..], t);
    } else {
      assert Run(p, s + t) == p;
    }
  }

  // ---------- The loop ----------

  class CommandReader {
    const line: string
    var state: Mode
    var opt: char
    var valueBegin: nat
    var args: Args

    constructor (line: string)
      ensures this.line == line && state == Normal && opt == '-' && args == map[]
    {
      this.line := line;
      state, opt, valueBegin, args := Normal, '-', 0, map[];
    }

    function At(ptr: nat): char
      requires ptr <= |line|
      reads this
    {
      if ptr < |line| then line[ptr] else NUL
    }

    ghost predicate InValue()
      reads this
    {
      state == Quoted || state == ValueFollowsFirstChar || state == ValueFollows || state == EscapedCharFollows
    }

    ghost predicate Valid(ptr: nat)
      reads this
    {
      ptr <= |line| && (InValue() ==> valueBegin <= ptr)
    }

    /** What the loop holds before it looks at the character `ptr`. */
    ghost function View(ptr: nat): Parser
      requires Valid(ptr)
      reads this
    {
      Parser(state, opt, if InValue() then line[valueBegin..ptr] else [], args, Ok)
    }

    lemma ValueNext(ptr: nat)
      requires Valid(ptr) && ptr < |line|
      ensures InValue() ==> line[valueBegin..ptr + 1] == line[valueBegin..ptr] + [line[ptr]]
      ensures line[ptr + 1..ptr + 1] == []
    {
    }

    /** The switch; a code other than `Ok` is one of the two jumps out of the loop. */
    method OnCharacter(ptr: nat) returns (code: Code)
      requires Valid(ptr)
      modifies this
      ensures code == Next(old(View(ptr)), old(At(ptr))).code
      ensures code == Ok && ptr < |line| ==> Valid(ptr + 1) && View(ptr + 1) == Next(old(View(ptr)), old(At(ptr)))
      ensures args == Next(old(View(ptr)), old(At(ptr))).args
    {
      var c := At(ptr);
      code := Ok;
      if ptr < |line| {
        ValueNext(ptr);
      }
      match state
      case Normal =>
        if c != '-' {
          return ParseError;
        }
        state := OptFollows;
      case OptFollows =>
        if !IsLetter(c) && c != '-' {
          return ParseError;
        }
        opt, state := c, SepFollows;
      case SepFollows =>
        if c != ' ' {
          return ParseError;
        }
        state, valueBegin := ValueFollowsFirstChar, ptr + 1;
      case ValueFollowsFirstChar =>
        code := OnFirstChar(ptr);
      case ValueFollows =>
        if (c == ' ' && opt != '-') || c == NUL {
          if opt in args {
            return DuplicateArg;
          }
          args := args[opt := line[valueBegin..ptr]];
          state := Normal;
        }
      case Quoted =>
        if c == '\\' {
          state := EscapedCharFollows;
        } else if c == '"' {
          if opt in args {
            return DuplicateArg;
          }
          var value := Unescape(line[valueBegin..ptr]);
          args := args[opt := value];
          state := SkipChar;
        }
      case SkipChar => state := Normal;
      case EscapedCharFollows => state := Quoted;
    }

    method OnFirstChar(ptr: nat) returns (code: Code)
      requires Valid(ptr) && state == ValueFollowsFirstChar
      modifies this
      ensures code == Ok && args == old(args)
      ensures ptr < |line| ==> Valid(ptr + 1) && View(ptr + 1) == Next(old(View(ptr)), old(At(ptr)))
    {
      code := Ok;
      if At(ptr) == '"' && opt != '-' {
        valueBegin, state := ptr + 1, Quoted;
      } else {
        state := ValueFollows;
      }
    }
  }

  /** Copies a value and strips its escapes in place. */
  method Unescape(raw: string) returns (value: string)
    ensures value == Strip(raw)
  {
    var buffer := new char[|raw| + 1](i => if 0 <= i < |raw| then raw[i] else NUL);
    assert buffer[..|raw|] == raw;
    var len := StripInPlace(buffer, |raw|);
    value := buffer[..len];
  }

  /** The loop over the command name. */
  method FindSpace(line: string) returns (ptr: nat)
    ensures ptr == FirstSpace(line)
  {
    ptr := 0;
    while ptr < |line| && line[ptr] != ' '
      invariant ptr <= |line|
      invariant FirstSpace(line) == ptr + FirstSpace(line[ptr..])
    {
      assert line[ptr..][1..] == line[ptr + 1..];
      ptr := ptr + 1;
    }
  }

  /** The loop over the options, from one position on. */
  method ParseOptions(line: string, begin: nat) returns (code: Code, args: Args)
    requires NUL !in line && begin <= |line|
    ensures var p := Run(INITIAL, line[begin..] + [NUL]); code == p.code && args == p.args
  {
    var reader := new CommandReader(line);
    var ptr := begin;
    code := Ok;
    ghost var goal := Run(INITIAL, line[begin..] + [NUL]);
    while true
      invariant ptr <= |line| && reader.line == line && reader.Valid(ptr)
      invariant goal == Run(reader.View(ptr), line[ptr..] + [NUL])
      decreases |line| - ptr
    {
      ghost var rest := line[ptr..] + [NUL];
      assert rest[0] == reader.At(ptr) && (ptr < |line| ==> rest[1..] == line[ptr + 1..] + [NUL]);
      code := reader.OnCharacter(ptr);
      if code != Ok || ptr == |line| {
        break;
      }
      ptr := ptr + 1;
    }
    args := reader.args;
  }

  method CmdParse(line: string) returns (r: Parsed)
    requires NUL !in line
    ensures r == Parse(line)
  {
    var ptr := FindSpace(line);
    if ptr == |line| {
      if |line| > 0 {
        return Parsed(Ok, Some(line), map[]);
      }
      return Parsed(ParseError, None, map[]);
    }
    var code, args := ParseOptions(line, ptr + 1);
    r := Parsed(code, Some(line[..ptr]), args);
  }
}
