/** Reading back a printed fullname: which lookups the parser performs, and exactly when
    they are the path that was printed. */
module FullnameRoundTrip {
  import opened Wrappers
  import opened Subsequences
  import opened Escapes
  import opened Numbers
  import opened Symbols
  import opened Fullname

  /** A lookup after its keyword has been decoded the way the symbol table lookup does. */
  datatype Lookup =
    | Variable(name: string) | Element(key: string) | Index(index: nat)
    | Member(name: string) | StaticMember(name: string) | OwnStaticMember(name: string)

  function Decode(s: Step): Lookup {
    match s.kind
    case Root => Variable(Strip(s.keyword))
    case ArrayIndexNum => Index(StrToUnsigned(s.keyword))
    case ArrayIndexAssoc => Element(Strip(s.keyword))
    case ObjProperty => Member(s.keyword)
    case EscapedObjProperty => Member(Strip(s.keyword))
    case StaticProperty => StaticMember(s.keyword)
    case StaticRoot => OwnStaticMember(s.keyword)
  }

  function DecodeAll(steps: seq<Step>): (r: seq<Lookup>)
    ensures |r| == |steps|
    ensures forall i :: 0 <= i < |steps| ==> r[i] == Decode(steps[i])
  {
    seq(|steps|, i requires 0 <= i < |steps| => Decode(steps[i]))
  }

  /** The lookups a machine would have performed if the name ended here. */
  function Lookups(m: Machine): seq<Lookup> {
    DecodeAll(Flush(m).steps)
  }

  function Named(isStatic: bool, name: string): Lookup {
    if isStatic then StaticMember(name) else Member(name)
  }

  /** The lookup an element stands for. */
  function Meaning(s: Segment): Lookup {
    match s
    case StringKey(key) => Element(key)
    case IntKey(index) => Index(index)
    case Property(isStatic, name) => Named(isStatic, name)
    case ForeignPrivate(isStatic, className, name) => Named(isStatic, Starred(className, name))
  }

  function Meanings(segments: seq<Segment>): seq<Lookup> {
    if segments == [] then [] else [Meaning(segments[0])] + Meanings(segments[1..])
  }

  // ---------- When an element survives ----------

  predicate NoStops(s: string) {
    forall i :: 0 <= i < |s| ==> !IsStop(s[i])
  }

  /** Escaped text survives when no NUL is followed by an octal digit. A bare property name must
      not start with '>' nor hold a ':' after its first character; a static one must be bare and
      hold no ':' at all; a foreign private one must hold no character that ends a name. */
  predicate Survives(s: Segment) {
    match s
    case StringKey(key) => NulSafe(key)
    case IntKey(_) => true
    case Property(isStatic, name) =>
      if isStatic then IsBare(name) && ':' !in name
      else if IsBare(name) then name[0] != '>' && ':' !in name[1..]
      else NulSafe(name)
    case ForeignPrivate(_, className, name) => NoStops(Starred(className, name))
  }

  predicate SurviveAll(segments: seq<Segment>) {
    forall i :: 0 <= i < |segments| ==> Survives(segments[i])
  }

  predicate IsIdentifierChar(c: char) {
    'a' <= c <= 'z' || 'A' <= c <= 'Z' || c == '_' || IsDigit(c) || c >= 0x80 as char
  }

  predicate IsIdentifier(s: string) {
    s != [] && !IsDigit(s[0]) && forall i :: 0 <= i < |s| ==> IsIdentifierChar(s[i])
  }

  // ---------- Reading stretches of text ----------

  /** Steps once requested stay requested. */
  lemma {:induction false} FeedOnlyAdds(m: Machine, text: string, inClass: bool)
    ensures m.steps <= Feed(m, text, inClass).steps
    decreases |text|
  {
    if text != [] {
      FeedOnlyAdds(Next(m, text[0], inClass), text[1..], inClass);
    }
  }

  lemma {:induction false} FeedRaw(m: Machine, text: string, inClass: bool)
    requires m.mode == Plain && m.keyword.Some? && NoStops(text)
    ensures Feed(m, text, inClass) == m.(keyword := Some(m.keyword.value + text))
    decreases |text|
  {
    if text == [] {
      assert m.keyword.value + text == m.keyword.value;
    } else {
      FeedRaw(Next(m, text[0], inClass), text[1..], inClass);
      assert m.keyword.value + [text[0]] + text[1..] == m.keyword.value + text;
    }
  }

  lemma {:induction false} FeedDigits(m: Machine, text: string, inClass: bool)
    requires m.mode == InNumber && m.keyword.Some? && forall i :: 0 <= i < |text| ==> IsDigit(text[i])
    ensures Feed(m, text, inClass) == m.(keyword := Some(m.keyword.value + text))
    decreases |text|
  {
    if text == [] {
      assert m.keyword.value + text == m.keyword.value;
    } else {
      FeedDigits(Next(m, text[0], inClass), text[1..], inClass);
      assert m.keyword.value + [text[0]] + text[1..] == m.keyword.value + text;
    }
  }

  predicate IsQuote(c: char) {
    c == '\'' || c == '"'
  }

  lemma FeedSlashedOn(m: Machine, s: string, rest: string, inClass: bool)
    requires (m.mode == InKey || m.mode == InBrace) && m.keyword == Some([]) && IsQuote(m.quote)
    ensures Feed(m, AddSlashes(s) + rest, inClass) == Feed(m.(keyword := Some(AddSlashes(s))), rest, inClass)
  {
    SlashedIsEnclosed(s, m.quote);
    FeedEnclosed(m, AddSlashes(s), rest, inClass);
    assert [] + AddSlashes(s) == AddSlashes(s);
  }

  lemma CloseQuoted(m: Machine, close: char, inClass: bool)
    requires (m.mode == InKey && close == ']') || (m.mode == InBrace && close == '}')
    requires m.keyword.Some? && IsQuote(m.quote)
    ensures Next(Next(m, m.quote, inClass), close, inClass)
         == Machine(Plain, None, m.kind, NUL, m.steps + [Step(m.kind, m.keyword.value)])
  {
  }

  /** From just after an opening quote through the closing quote and bracket or brace. */
  lemma FeedQuotedRest(m: Machine, s: string, close: char, inClass: bool)
    requires (m.mode == InKey && close == ']') || (m.mode == InBrace && close == '}')
    requires m.keyword == Some([]) && IsQuote(m.quote)
    ensures Feed(m, AddSlashes(s) + [m.quote, close], inClass)
         == Machine(Plain, None, m.kind, NUL, m.steps + [Step(m.kind, AddSlashes(s))])
  {
    FeedSlashedOn(m, s, [m.quote, close], inClass);
    FeedClose(m.(keyword := Some(AddSlashes(s))), m.quote, close, inClass);
    CloseQuoted(m.(keyword := Some(AddSlashes(s))), close, inClass);
  }

  // ---------- Elements with delimiters ----------

  /** The machine after an element whose end is marked: everything is in `steps`. */
  function Done(m: Machine, step: Step): Machine {
    Machine(Plain, None, step.kind, NUL, Flush(m).steps + [step])
  }

  /** A key between either kind of quotes, in brackets. */
  function QuotedKey(key: string, quote: char): string {
    ['['] + ([quote] + (AddSlashes(key) + [quote, ']']))
  }

  /** A property name between either kind of quotes, in braces. */
  function QuotedName(name: string, quote: char): string {
    ['{'] + ([quote] + (AddSlashes(name) + [quote, '}']))
  }

  lemma FeedQuotedKey(m: Machine, key: string, quote: char, inClass: bool)
    requires m.mode == Plain && IsQuote(quote)
    ensures Feed(m, QuotedKey(key, quote), inClass) == Done(m, Step(ArrayIndexAssoc, AddSlashes(key)))
  {
    var m1 := Flush(m).(mode := Bracket);
    FeedTwo(m, '[', quote, AddSlashes(key) + [quote, ']'], inClass);
    FeedQuotedRest(m1.(mode := InKey, keyword := Some([]), quote := quote, kind := ArrayIndexAssoc), key, ']', inClass);
  }

  lemma FeedStringKey(m: Machine, key: string, inClass: bool)
    requires m.mode == Plain
    ensures Feed(m, Text(StringKey(key)), inClass) == Done(m, Step(ArrayIndexAssoc, AddSlashes(key)))
  {
    assert Text(StringKey(key)) == QuotedKey(key, '"');
    FeedQuotedKey(m, key, '"', inClass);
  }

  lemma FeedIntKey(m: Machine, index: ULong, inClass: bool)
    requires m.mode == Plain
    ensures Feed(m, Text(IntKey(index)), inClass).(quote := NUL) == Done(m, Step(ArrayIndexNum, PrintSigned(index)))
    ensures Feed(m, Text(IntKey(index)), inClass).mode == Plain
  {
    var t := PrintSigned(index);
    var m1 := Flush(m).(mode := Bracket);
    var m2 := m1.(mode := InNumber, keyword := Some(t), kind := ArrayIndexNum);
    assert Text(IntKey(index)) == ['['] + (t + "]");
    FeedHead(m, '[', t + "]", inClass);
    FeedConcat(m1, t, "]", inClass);
    FeedPrinted(m1, index, inClass);
    assert "]" == [']'] + [];
    FeedHead(m2, ']', [], inClass);
  }

  lemma FeedPrinted(m: Machine, index: ULong, inClass: bool)
    requires m.mode == Bracket
    ensures Feed(m, PrintSigned(index), inClass)
         == m.(mode := InNumber, keyword := Some(PrintSigned(index)), kind := ArrayIndexNum)
  {
    var t := PrintSigned(index);
    if index < TWO_63 {
      assert t == [t[0]] + t[1..];
      FeedHead(m, t[0], t[1..], inClass);
      FeedDigits(Next(m, t[0], inClass), t[1..], inClass);
    } else {
      var d := Decimal(TWO_64 - index);
      assert t == ['-'] + ([d[0]] + d[1..]);
      FeedHead(m, '-', [d[0]] + d[1..], inClass);
      var m1 := Next(m, '-', inClass);
      FeedHead(m1, d[0], d[1..], inClass);
      FeedDigits(Next(m1, d[0], inClass), d[1..], inClass);
      assert ['-'] + [d[0]] + d[1..] == t;
    }
  }

  lemma FeedArrow(m: Machine, isStatic: bool, rest: string, inClass: bool)
    requires m.mode == Plain
    ensures Feed(m, Arrow(isStatic) + rest, inClass) == Feed(AfterArrow(m, isStatic), rest, inClass)
  {
    FeedConcat(m, Arrow(isStatic), rest, inClass);
    if isStatic {
      FeedClose(m, ':', ':', inClass);
    } else {
      FeedClose(m, '-', '>', inClass);
    }
  }

  function AfterArrow(m: Machine, isStatic: bool): Machine {
    if isStatic then Flush(m).(mode := AfterColon, kind := StaticProperty)
    else Flush(m).(mode := AfterMinus, kind := ObjProperty)
  }

  lemma FeedBraces(m: Machine, name: string, quote: char, inClass: bool)
    requires m.mode == AfterMinus && m.keyword == None && IsQuote(quote)
    ensures Feed(m, QuotedName(name, quote), inClass)
         == Machine(Plain, None, EscapedObjProperty, NUL, m.steps + [Step(EscapedObjProperty, AddSlashes(name))])
  {
    var m' := m.(mode := InBrace, keyword := Some([]), quote := quote, kind := EscapedObjProperty);
    FeedTwo(m, '{', quote, AddSlashes(name) + [quote, '}'], inClass);
    OpenBrace(m, quote, inClass);
    FeedQuotedRest(m', name, '}', inClass);
  }

  lemma OpenBrace(m: Machine, quote: char, inClass: bool)
    requires m.mode == AfterMinus && m.keyword == None && IsQuote(quote)
    ensures Next(Next(m, '{', inClass), quote, inClass)
         == m.(mode := InBrace, keyword := Some([]), quote := quote, kind := EscapedObjProperty)
  {
  }

  lemma FeedQuotedName(m: Machine, name: string, quote: char, inClass: bool)
    requires m.mode == Plain && IsQuote(quote)
    ensures Feed(m, Arrow(false) + QuotedName(name, quote), inClass)
         == Done(m, Step(EscapedObjProperty, AddSlashes(name)))
  {
    FeedArrow(m, false, QuotedName(name, quote), inClass);
    FeedBraces(AfterArrow(m, false), name, quote, inClass);
  }

  lemma FeedBraced(m: Machine, name: string, inClass: bool)
    requires m.mode == Plain
    ensures Feed(m, Arrow(false) + Braced(name), inClass) == Done(m, Step(EscapedObjProperty, AddSlashes(name)))
  {
    assert Braced(name) == QuotedName(name, '"');
    FeedQuotedName(m, name, '"', inClass);
  }

  // ---------- Elements without: the keyword stays pending ----------

  /** The head of a text up to the first character that ends a name. */
  function Raw(text: string): (r: string)
    ensures NoStops(r) && |r| <= |text|
  {
    if text == [] || IsStop(text[0]) then [] else [text[0]] + Raw(text[1..])
  }

  lemma {:induction false} RawStopsIn(s: string, rest: string)
    requires !NoStops(s)
    ensures |Raw(s + rest)| < |s|
  {
    assert (s + rest)[1..] == s[1..] + rest;
    if !IsStop(s[0]) {
      assert !NoStops(s[1..]) by {
        var i :| 0 <= i < |s| && IsStop(s[i]);
        assert s[1..][i - 1] == s[i];
      }
      RawStopsIn(s[1..], rest);
    }
  }

  lemma {:induction false} RawRunsThrough(s: string, rest: string)
    requires NoStops(s)
    ensures |Raw(s + rest)| >= |s|
  {
    if s != [] {
      assert (s + rest)[1..] == s[1..] + rest;
      RawRunsThrough(s[1..], rest);
    }
  }

  /** Whatever follows, a pending keyword ends up extended to the next stop, and looked up. */
  lemma {:induction false} PendingFate(m: Machine, text: string, inClass: bool)
    requires m.mode == Plain && m.keyword.Some?
    ensures var end := Lookups(Feed(m, text, inClass));
            |end| > |m.steps| && end[|m.steps|] == Decode(Step(m.kind, m.keyword.value + Raw(text)))
    decreases |text|
  {
    var k := m.keyword.value;
    if text == [] {
      assert k + [] == k;
    } else if IsStop(text[0]) {
      assert k + [] == k;
      FeedOnlyAdds(Next(m, text[0], inClass), text[1..], inClass);
    } else {
      PendingFate(Next(m, text[0], inClass), text[1..], inClass);
      assert k + [text[0]] + Raw(text[1..]) == k + Raw(text);
    }
  }

  /** After an arrow: leading repetitions of its last character are skipped, and what starts
      the keyword is never that character. */
  lemma {:induction false} ArrowFate(m: Machine, isStatic: bool, text: string, inClass: bool)
    requires m.mode == (if isStatic then AfterColon else AfterMinus) && m.keyword == None
    requires m.kind == if isStatic then StaticProperty else ObjProperty
    requires !isStatic && Skipped(false, text) < |text| ==> text[Skipped(false, text)] != '{'
    ensures var end, n, k := Lookups(Feed(m, text, inClass)), |m.steps|, Skipped(isStatic, text);
            if k == |text| then |end| == n
            else |end| > n && end[n] == Decode(Step(m.kind, [text[k]] + Raw(text[k + 1..])))
    decreases |text|
  {
    if text != [] {
      var m' := Next(m, text[0], inClass);
      if text[0] == (if isStatic then ':' else '>') {
        var rest, j := text[1..], Skipped(isStatic, text[1..]);
        ArrowFate(m', isStatic, rest, inClass);
        if j < |rest| {
          assert rest[j] == text[j + 1] && rest[j + 1..] == text[j + 2..];
        }
      } else {
        PendingFate(m', text[1..], inClass);
      }
    }
  }

  function Skipped(isStatic: bool, text: string): (k: nat)
    ensures k <= |text| && (k < |text| ==> text[k] != if isStatic then ':' else '>')
    ensures forall i :: 0 <= i < k ==> text[i] == if isStatic then ':' else '>'
  {
    if text != [] && text[0] == (if isStatic then ':' else '>') then 1 + Skipped(isStatic, text[1..]) else 0
  }

  // ---------- One element ----------

  lemma LookupsDone(m: Machine, step: Step)
    ensures Lookups(Done(m, step)) == Lookups(m) + [Decode(step)]
  {
  }

  lemma LookupsPending(m: Machine, isStatic: bool, keyword: string)
    ensures Lookups(AfterArrow(m, isStatic).(mode := Plain, keyword := Some(keyword)))
         == Lookups(m) + [Named(isStatic, keyword)]
  {
  }

  /** What is done stays, whatever follows. */
  lemma DoneFate(m: Machine, step: Step, rest: string, inClass: bool)
    ensures var end, n := Lookups(Feed(Done(m, step), rest, inClass)), |Lookups(m)|;
            |end| > n && end[n] == Decode(step)
  {
    FeedOnlyAdds(Done(m, step), rest, inClass);
  }

  /** A name that starts as a keyword and holds no stop after that is pending as a whole. */
  lemma FeedName(m: Machine, isStatic: bool, name: string, inClass: bool)
    requires m.mode == Plain && name != [] && NoStops(name[1..])
    requires if isStatic then name[0] != ':' else name[0] != '>' && name[0] != '{'
    ensures Feed(m, Arrow(isStatic) + name, inClass)
         == AfterArrow(m, isStatic).(mode := Plain, keyword := Some(name))
  {
    var m1 := AfterArrow(m, isStatic);
    FeedArrow(m, isStatic, name, inClass);
    assert name == [name[0]] + name[1..];
    FeedHead(m1, name[0], name[1..], inClass);
    FeedRaw(Next(m1, name[0], inClass), name[1..], inClass);
  }

  lemma NameIsRead(m: Machine, isStatic: bool, name: string, inClass: bool)
    requires m.mode == Plain && name != [] && NoStops(name[1..])
    requires if isStatic then name[0] != ':' else name[0] != '>' && name[0] != '{'
    ensures var m' := Feed(m, Arrow(isStatic) + name, inClass);
            && m'.mode == Plain
            && Lookups(m') == Lookups(m) + [Named(isStatic, name)]
  {
    FeedName(m, isStatic, name, inClass);
    LookupsPending(m, isStatic, name);
  }

  lemma BracedIsRead(m: Machine, name: string, inClass: bool)
    requires m.mode == Plain
    ensures var m' := Feed(m, Arrow(false) + Braced(name), inClass);
            m'.mode == Plain && Lookups(m') == Lookups(m) + [Member(Strip(AddSlashes(name)))]
  {
    FeedBraced(m, name, inClass);
    LookupsDone(m, Step(EscapedObjProperty, AddSlashes(name)));
  }

  lemma KeyIsRead(m: Machine, s: Segment, inClass: bool)
    requires m.mode == Plain && (s.StringKey? || s.IntKey?)
    ensures var m' := Feed(m, Text(s), inClass);
            && m'.mode == Plain
            && Lookups(m') == Lookups(m) +
                 [if s.StringKey? then Element(Strip(AddSlashes(s.key))) else Index(s.index)]
  {
    match s
    case StringKey(key) =>
      FeedStringKey(m, key, inClass);
      LookupsDone(m, Step(ArrayIndexAssoc, AddSlashes(key)));
    case IntKey(index) =>
      FeedIntKey(m, index, inClass);
      LookupsDone(m, Step(ArrayIndexNum, PrintSigned(index)));
      KeyRoundTrip(index);
  }

  lemma SurvivorIsRead(m: Machine, s: Segment, inClass: bool)
    requires m.mode == Plain && Survives(s)
    ensures var m' := Feed(m, Text(s), inClass);
            m'.mode == Plain && Lookups(m') == Lookups(m) + [Meaning(s)]
  {
    match s
    case StringKey(key) =>
      KeyIsRead(m, s, inClass);
      RoundTripIff(key);
    case IntKey(index) =>
      KeyIsRead(m, s, inClass);
    case Property(isStatic, name) =>
      if IsBare(name) {
        assert NoStops(name[1..]);
        NameIsRead(m, isStatic, name, inClass);
      } else {
        BracedIsRead(m, name, inClass);
        RoundTripIff(name);
      }
    case ForeignPrivate(isStatic, className, name) =>
      NameIsRead(m, isStatic, Starred(className, name), inClass);
  }

  /** The lookup at the place of the element is missing or a different one. */
  ghost predicate Misread(m: Machine, s: Segment, end: seq<Lookup>) {
    var n := |Lookups(m)|;
    |end| <= n || end[n] != Meaning(s)
  }

  lemma ArrowKind(m: Machine, isStatic: bool)
    ensures var m' := AfterArrow(m, isStatic);
            && m'.mode == (if isStatic then AfterColon else AfterMinus) && m'.keyword == None
            && m'.kind == (if isStatic then StaticProperty else ObjProperty)
            && |m'.steps| == |Lookups(m)|
  {
  }

  /** `ArrowFate`, with the keyword decoded. */
  lemma FateIsNamed(m: Machine, isStatic: bool, text: string, inClass: bool)
    requires m.mode == (if isStatic then AfterColon else AfterMinus) && m.keyword == None
    requires m.kind == if isStatic then StaticProperty else ObjProperty
    requires !isStatic && Skipped(false, text) < |text| ==> text[Skipped(false, text)] != '{'
    ensures var end, n, k := Lookups(Feed(m, text, inClass)), |m.steps|, Skipped(isStatic, text);
            if k == |text| then |end| == n
            else |end| > n && end[n] == Named(isStatic, [text[k]] + Raw(text[k + 1..]))
  {
    ArrowFate(m, isStatic, text, inClass);
  }

  /** `ArrowFate`, seen from before the arrow. */
  lemma NameFate(m: Machine, isStatic: bool, text: string, inClass: bool)
    requires m.mode == Plain
    requires !isStatic && Skipped(false, text) < |text| ==> text[Skipped(false, text)] != '{'
    ensures var end, n := Lookups(Feed(m, Arrow(isStatic) + text, inClass)), |Lookups(m)|;
            var k := Skipped(isStatic, text);
            if k == |text| then |end| == n
            else |end| > n && end[n] == Named(isStatic, [text[k]] + Raw(text[k + 1..]))
  {
    FeedArrow(m, isStatic, text, inClass);
    ArrowKind(m, isStatic);
    FateIsNamed(AfterArrow(m, isStatic), isStatic, text, inClass);
  }

  /** A name with a stop in it, after a first character that starts a keyword, is cut short. */
  lemma CutShort(m: Machine, isStatic: bool, name: string, rest: string, inClass: bool)
    requires m.mode == Plain && name != [] && !NoStops(name[1..])
    requires if isStatic then name[0] != ':' else name[0] != '>' && name[0] != '{'
    ensures var end, n := Lookups(Feed(m, Arrow(isStatic) + (name + rest), inClass)), |Lookups(m)|;
            |end| > n && end[n] != Named(isStatic, name)
  {
    var t := name + rest;
    assert t[1..] == name[1..] + rest;
    NameFate(m, isStatic, t, inClass);
    RawStopsIn(name[1..], rest);
  }

  /** The run of skipped characters ends within the name or right after it. */
  lemma SkippedWithin(isStatic: bool, name: string, rest: string)
    requires !isStatic && (rest != [] ==> IsStop(rest[0]))
    ensures var t, k := name + rest, Skipped(isStatic, name + rest);
            k <= |name| && (k < |name| ==> t[k] == name[k]) && (k == |name| < |t| ==> IsStop(t[k]))
  {
    var t := name + rest;
    assert |name| < |t| ==> t[|name|] == rest[0];
  }

  /** A name that starts with the arrow's own last character loses it. */
  lemma LosesItsHead(m: Machine, isStatic: bool, name: string, rest: string, inClass: bool)
    requires m.mode == Plain && name != [] && name[0] == if isStatic then ':' else '>'
    requires !isStatic ==> IsBare(name) && (rest != [] ==> IsStop(rest[0]))
    ensures var end, n := Lookups(Feed(m, Arrow(isStatic) + (name + rest), inClass)), |Lookups(m)|;
            |end| <= n || end[n] != Named(isStatic, name)
  {
    if !isStatic {
      SkippedWithin(isStatic, name, rest);
    }
    var t := name + rest;
    NameFate(m, isStatic, t, inClass);
    KeywordStartsLater(isStatic, t, name);
  }

  /** What is read after the repetitions of an arrow's last character does not start with it. */
  lemma KeywordStartsLater(isStatic: bool, text: string, name: string)
    requires name != [] && name[0] == if isStatic then ':' else '>'
    ensures var k := Skipped(isStatic, text); k < |text| ==> [text[k]] + Raw(text[k + 1..]) != name
  {
  }

  lemma {:induction false} SlashesHaveNoStops(s: string)
    requires NoStops(s)
    ensures NoStops(AddSlashes(s))
  {
    if s != [] {
      assert NoStops(s[1..]);
      SlashesHaveNoStops(s[1..]);
    }
  }

  /** What is read of a braced name after a double colon. */
  lemma BracedIsRaw(m: Machine, name: string, rest: string, inClass: bool)
    requires m.mode == Plain && !IsBare(name)
    ensures var quoted := "\"" + AddSlashes(name) + "\"}";
            var end, n := Lookups(Feed(m, Arrow(true) + (Braced(name) + rest), inClass)), |Lookups(m)|;
            |end| > n && end[n] == StaticMember(['{'] + Raw(quoted + rest))
  {
    var t := Braced(name) + rest;
    var quoted := "\"" + AddSlashes(name) + "\"}";
    assert t[0] == '{' && t[1..] == quoted + rest;
    NameFate(m, true, t, inClass);
  }

  /** It has no stop in it, and is longer than the name unless the name has one. */
  lemma RawIsAnother(name: string, rest: string)
    ensures var quoted := "\"" + AddSlashes(name) + "\"}";
            ['{'] + Raw(quoted + rest) != name
  {
    var quoted := "\"" + AddSlashes(name) + "\"}";
    var w := ['{'] + Raw(quoted + rest);
    if NoStops(name) {
      SlashesHaveNoStops(name);
      assert NoStops(quoted);
      RawRunsThrough(quoted, rest);
      assert |w| > |name|;
    } else {
      var i :| 0 <= i < |name| && IsStop(name[i]);
      assert i < |w| ==> !IsStop(w[i]);
    }
  }

  /** Braces mean nothing after a double colon: they are read as part of the name. */
  lemma BracesAreNotStatic(m: Machine, name: string, rest: string, inClass: bool)
    requires m.mode == Plain && !IsBare(name)
    ensures var end, n := Lookups(Feed(m, Arrow(true) + (Braced(name) + rest), inClass)), |Lookups(m)|;
            |end| > n && end[n] != StaticMember(name)
  {
    BracedIsRaw(m, name, rest, inClass);
    RawIsAnother(name, rest);
  }

  lemma MisreadBare(m: Machine, s: Segment, rest: string, inClass: bool)
    requires m.mode == Plain && !Survives(s) && s.Property? && IsBare(s.name)
    requires rest != [] ==> IsStop(rest[0])
    ensures Misread(m, s, Lookups(Feed(m, Arrow(s.isStatic) + (s.name + rest), inClass)))
  {
    if s.name[0] == if s.isStatic then ':' else '>' {
      LosesItsHead(m, s.isStatic, s.name, rest, inClass);
    } else {
      assert ':' in s.name[1..] by {
        if s.isStatic {
          var i :| 0 <= i < |s.name| && s.name[i] == ':';
          assert s.name[1..][i - 1] == ':';
        }
      }
      CutShort(m, s.isStatic, s.name, rest, inClass);
    }
  }

  lemma MisreadStarred(m: Machine, s: Segment, rest: string, inClass: bool)
    requires m.mode == Plain && !Survives(s) && s.ForeignPrivate?
    ensures Misread(m, s, Lookups(Feed(m, Arrow(s.isStatic) + (Starred(s.className, s.name) + rest), inClass)))
  {
    var w := Starred(s.className, s.name);
    assert w[0] == '*';
    assert !NoStops(w[1..]) by {
      var i :| 0 <= i < |w| && IsStop(w[i]);
      assert w[1..][i - 1] == w[i];
    }
    CutShort(m, s.isStatic, w, rest, inClass);
  }

  lemma MisreadKey(m: Machine, s: Segment, rest: string, inClass: bool)
    requires m.mode == Plain && !Survives(s) && s.StringKey?
    ensures Misread(m, s, Lookups(Feed(m, Text(s) + rest, inClass)))
  {
    var step := Step(ArrayIndexAssoc, AddSlashes(s.key));
    FeedConcat(m, Text(s), rest, inClass);
    FeedStringKey(m, s.key, inClass);
    DoneFate(m, step, rest, inClass);
    RoundTripIff(s.key);
    assert Decode(step) == Element(Strip(AddSlashes(s.key)));
  }

  lemma MisreadBraced(m: Machine, s: Segment, rest: string, inClass: bool)
    requires m.mode == Plain && !Survives(s) && s.Property? && !IsBare(s.name)
    ensures Misread(m, s, Lookups(Feed(m, Arrow(s.isStatic) + (Braced(s.name) + rest), inClass)))
  {
    if s.isStatic {
      BracesAreNotStatic(m, s.name, rest, inClass);
    } else {
      var step := Step(EscapedObjProperty, AddSlashes(s.name));
      Assoc(Arrow(false), Braced(s.name), rest);
      FeedConcat(m, Arrow(false) + Braced(s.name), rest, inClass);
      FeedBraced(m, s.name, inClass);
      DoneFate(m, step, rest, inClass);
      RoundTripIff(s.name);
      assert Decode(step) == Member(Strip(AddSlashes(s.name)));
    }
  }

  lemma OthersAreMisread(m: Machine, s: Segment, rest: string, inClass: bool)
    requires m.mode == Plain && !Survives(s)
    requires rest != [] ==> IsStop(rest[0])
    ensures Misread(m, s, Lookups(Feed(m, Text(s) + rest, inClass)))
  {
    match s
    case StringKey(key) =>
      MisreadKey(m, s, rest, inClass);
    case Property(isStatic, name) =>
      Assoc(Arrow(isStatic), if IsBare(name) then name else Braced(name), rest);
      if IsBare(name) {
        MisreadBare(m, s, rest, inClass);
      } else {
        MisreadBraced(m, s, rest, inClass);
      }
    case ForeignPrivate(isStatic, className, name) =>
      Assoc(Arrow(isStatic), Starred(className, name), rest);
      MisreadStarred(m, s, rest, inClass);
  }

  // ---------- Whole paths ----------

  lemma TextStartsWithStop(segments: seq<Segment>)
    ensures TextAll(segments) != [] ==> IsStop(TextAll(segments)[0])
  {
    if segments != [] {
      assert TextAll(segments)[0] == Text(segments[0])[0];
    }
  }

  lemma {:induction false} PathRoundTrip(m: Machine, segments: seq<Segment>, inClass: bool)
    requires m.mode == Plain
    ensures Lookups(Feed(m, TextAll(segments), inClass)) == Lookups(m) + Meanings(segments) <==> SurviveAll(segments)
    decreases |segments|
  {
    if segments != [] {
      var s, rest := segments[0], segments[1..];
      assert SurviveAll(segments) <==> Survives(s) && SurviveAll(rest) by {
        assert segments == [s] + rest;
      }
      var end := Lookups(Feed(m, TextAll(segments), inClass));
      if Survives(s) {
        var m' := Feed(m, Text(s), inClass);
        SurvivorIsRead(m, s, inClass);
        FeedConcat(m, Text(s), TextAll(rest), inClass);
        PathRoundTrip(m', rest, inClass);
        Assoc(Lookups(m), [Meaning(s)], Meanings(rest));
      } else {
        TextStartsWithStop(rest);
        OthersAreMisread(m, s, TextAll(rest), inClass);
        assert (Lookups(m) + Meanings(segments))[|Lookups(m)|] == Meaning(s);
      }
    }
  }

  lemma {:induction false} StripPlain(s: string)
    requires '\\' !in s
    ensures Strip(s) == s
  {
    if s != [] {
      assert s[0] in s;
      StripPlain(s[1..]);
    }
  }

  /** An identifier with its sigil leaves one pending root keyword. */
  lemma FeedRoot(root: string, inClass: bool)
    requires IsIdentifier(root)
    ensures Feed(INITIAL, "$" + root, inClass) == Machine(Plain, Some(root), Root, NUL, [])
  {
    var m1 := INITIAL.(keyword := Some([]));
    assert root == [root[0]] + root[1..] && [] + [root[0]] == [root[0]];
    assert "$" + root == ['$'] + ([root[0]] + root[1..]);
    assert IsIdentifierChar(root[0]);
    FeedTwo(INITIAL, '$', root[0], root[1..], inClass);
    assert NoStops(root[1..]) by {
      forall i | 0 <= i < |root[1..]| ensures !IsStop(root[1..][i]) {
        assert IsIdentifierChar(root[i + 1]);
      }
    }
    FeedRaw(m1.(mode := Plain, keyword := Some([root[0]])), root[1..], inClass);
  }

  /** The machine after a root. */
  function Rooted(root: string): Machine {
    Machine(Plain, Some(root), Root, NUL, [])
  }

  lemma RootedLookup(root: string)
    requires IsIdentifier(root)
    ensures Lookups(Rooted(root)) == [Variable(root)]
  {
    IdentifiersArePlain(root);
    StripPlain(root);
    assert Flush(Rooted(root)).steps == [Step(Root, root)];
  }

  /** The headline: reading a printed fullname performs exactly the lookups of the path that
      was printed if and only if every element of the path is one that survives. */
  lemma FullnameRoundTripIff(root: string, segments: seq<Segment>, inClass: bool)
    requires IsIdentifier(root)
    ensures DecodeAll(Steps(FullnameOf(root, segments), inClass)) == [Variable(root)] + Meanings(segments)
            <==> SurviveAll(segments)
  {
    var m := Rooted(root);
    FeedConcat(INITIAL, "$" + root, TextAll(segments), inClass);
    FeedRoot(root, inClass);
    PathRoundTrip(m, segments, inClass);
    RootedLookup(root);
  }

  lemma ReadColon(m: Machine, b: string, c: string, inClass: bool)
    requires m.mode == Plain
    requires b != [] && c != [] && NoStops(b) && NoStops(c) && b[0] != '>' && b[0] != '{'
    ensures Lookups(Feed(m, Arrow(false) + (b + ([':'] + c)), inClass)) == Lookups(m) + [Member(b), StaticMember(c)]
  {
    var m1 := AfterArrow(m, false).(mode := Plain, keyword := Some(b));
    var m2 := Flush(m1).(mode := AfterColon, kind := StaticProperty);
    assert Arrow(false) + (b + ([':'] + c)) == (Arrow(false) + b) + ([':'] + c);
    FeedConcat(m, Arrow(false) + b, [':'] + c, inClass);
    FeedName(m, false, b, inClass);
    FeedHead(m1, ':', c, inClass);
    assert c == [c[0]] + c[1..];
    FeedHead(m2, c[0], c[1..], inClass);
    FeedRaw(m2.(mode := Plain, keyword := Some([c[0]])), c[1..], inClass);
    LookupsPending(m, false, b);
  }

  lemma TextOfOne(s: Segment)
    ensures TextAll([s]) == Text(s)
  {
    assert [s][1..] == [];
    assert Text(s) + [] == Text(s);
  }

  lemma ColonIsBare(b: string, c: string)
    requires IsIdentifier(b) && IsIdentifier(c)
    ensures IsBare(b + ([':'] + c))
  {
    IdentifiersArePlain(b);
    IdentifiersArePlain(c);
    var name := b + ([':'] + c);
    forall i | 0 <= i < |name| ensures name[i] != '-' && name[i] != '[' && name[i] != '{' {
      assert i < |b| ==> !IsStop(b[i]);
      assert i > |b| ==> name[i] == c[i - |b| - 1] && !IsStop(c[i - |b| - 1]);
    }
  }

  /** Paths that do not come back: a bare property name with a colon in it, as in `$a->b:c`,
      is read as a property of the object and then a static property. */
  lemma ColonSplitsName(root: string, b: string, c: string, inClass: bool)
    requires IsIdentifier(root) && IsIdentifier(b) && IsIdentifier(c)
    ensures DecodeAll(Steps(FullnameOf(root, [Property(false, b + ([':'] + c))]), inClass))
         == [Variable(root)] + [Member(b), StaticMember(c)]
  {
    var name := b + ([':'] + c);
    IdentifiersArePlain(b);
    IdentifiersArePlain(c);
    ColonIsBare(b, c);
    TextOfOne(Property(false, name));
    FeedConcat(INITIAL, "$" + root, Arrow(false) + name, inClass);
    FeedRoot(root, inClass);
    ReadColon(Rooted(root), b, c, inClass);
    RootedLookup(root);
  }

  lemma IdentifiersArePlain(s: string)
    requires IsIdentifier(s)
    ensures NoStops(s) && '\\' !in s && '{' !in s && s[0] != '>' && s[0] != '{'
  {
    forall i | 0 <= i < |s| ensures !IsStop(s[i]) && s[i] != '\\' && s[i] != '{' && s[i] != '>' {
      assert IsIdentifierChar(s[i]);
    }
  }
}
