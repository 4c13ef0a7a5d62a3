/** Every way to write an escape, and the character each one stands for. */
module EscapeForms {
  import opened Subsequences
  import opened Escapes

  /** A digit by its value; those above nine can be written in either case. */
  datatype Digit = Digit(value: nat, upper: bool)

  /** A character as it is; a backslash with a letter that names a control character or with a
      second backslash; one or two hexadecimal digits; one to three octal digits; or a backslash
      with any other character, which stands for itself. */
  datatype Form = Verbatim(c: char) | Named(letter: char) | Hex(digits: seq<Digit>) | Octal(digits: seq<Digit>)
    | Other(c: char)

  const NAMES: map<char, char> := map[
    'a' := 7 as char, 'b' := 8 as char, 't' := 9 as char, 'n' := 10 as char, 'v' := 11 as char,
    'f' := 12 as char, 'r' := 13 as char, '\\' := '\\'
  ]

  function DigitText(d: Digit): char
    requires d.value < 16
  {
    if d.value < 10 then ('0' as nat + d.value) as char
    else if d.upper then ('A' as nat + d.value - 10) as char
    else ('a' as nat + d.value - 10) as char
  }

  function DigitTexts(digits: seq<Digit>): (s: string)
    requires forall i :: 0 <= i < |digits| ==> digits[i].value < 16
    ensures |s| == |digits| && forall i :: 0 <= i < |s| ==> s[i] == DigitText(digits[i])
  {
    seq(|digits|, i requires 0 <= i < |digits| => DigitText(digits[i]))
  }

  predicate AllBelow(digits: seq<Digit>, base: nat) {
    forall i :: 0 <= i < |digits| ==> digits[i].value < base
  }

  predicate IsForm(f: Form) {
    match f
    case Verbatim(_) => true
    case Named(letter) => letter in NAMES
    case Hex(digits) => 1 <= |digits| <= 2 && AllBelow(digits, 16)
    case Octal(digits) => 1 <= |digits| <= 3 && AllBelow(digits, 8)
    case Other(c) => c !in NAMES && !('0' <= c <= '7')
  }

  function TextOf(f: Form): string
    requires IsForm(f)
  {
    match f
    case Verbatim(c) => [c]
    case Named(letter) => ['\\', letter]
    case Hex(digits) => ['\\', 'x'] + DigitTexts(digits)
    case Octal(digits) => ['\\'] + DigitTexts(digits)
    case Other(c) => ['\\', c]
  }

  function Number(digits: seq<Digit>, base: nat): nat {
    if digits == [] then 0 else base * Number(Front(digits), base) + Last(digits).value
  }

  /** Octal numbers above 255 wrap around. */
  function CharOf(f: Form): char
    requires IsForm(f)
  {
    match f
    case Verbatim(c) => c
    case Named(letter) => NAMES[letter]
    case Hex(digits) => (Number(digits, 16) % 256) as char
    case Octal(digits) => (Number(digits, 8) % 256) as char
    case Other(c) => c
  }

  /** What may come next: no digit that would still belong to a number, and nothing after a bare
      backslash. */
  predicate MayPrecede(f: Form, rest: string) {
    match f
    case Verbatim(c) => c == '\\' ==> rest == []
    case Named(_) => true
    case Hex(digits) => |digits| == 1 && rest != [] ==> !IsHex(rest[0])
    case Octal(digits) => |digits| < 3 && rest != [] ==> !IsOctal(rest[0])
    case Other(c) => c == 'x' && rest != [] ==> !IsHex(rest[0])
  }

  function TextOfAll(forms: seq<Form>): string
    requires forall i :: 0 <= i < |forms| ==> IsForm(forms[i])
  {
    if forms == [] then [] else TextOf(forms[0]) + TextOfAll(forms[1..])
  }

  function CharsOf(forms: seq<Form>): (s: string)
    requires forall i :: 0 <= i < |forms| ==> IsForm(forms[i])
    ensures |s| == |forms| && forall i :: 0 <= i < |s| ==> s[i] == CharOf(forms[i])
  {
    seq(|forms|, i requires 0 <= i < |forms| => CharOf(forms[i]))
  }

  predicate Readable(forms: seq<Form>) {
    forms != [] ==>
      && (forall i :: 0 <= i < |forms| ==> IsForm(forms[i]))
      && MayPrecede(forms[0], TextOfAll(forms[1..]))
      && Readable(forms[1..])
  }

  // ---------- One escape ----------

  lemma NamedIsRead(letter: char, rest: string)
    requires letter in NAMES
    ensures Strip(['\\', letter] + rest) == [NAMES[letter]] + Strip(rest)
  {
    var s := ['\\', letter] + rest;
    assert Letter(letter) == [NAMES[letter]];
    assert s[2..] == rest;
  }

  lemma OtherIsRead(c: char, rest: string)
    requires IsForm(Other(c)) && MayPrecede(Other(c), rest)
    ensures Strip(['\\', c] + rest) == [c] + Strip(rest)
  {
    var s := ['\\', c] + rest;
    assert Letter(c) == [] by {
      assert c !in NAMES;
    }
    assert OctalRun(s[1..], 3) == 0;
    assert s[2..] == rest && (rest != [] ==> s[2] == rest[0]);
  }

  lemma HexDigitIsRead(d: Digit)
    requires d.value < 16
    ensures IsHex(DigitText(d)) && DigitValue(DigitText(d)) == d.value
  {
  }

  lemma HexNumber(digits: seq<Digit>)
    requires 1 <= |digits| <= 2
    ensures Number(digits, 16) == if |digits| == 1 then digits[0].value else 16 * digits[0].value + digits[1].value
  {
    if |digits| == 1 {
      assert Front(digits) == [];
    } else {
      assert Front(digits) == [digits[0]] && Front([digits[0]]) == [];
      assert Number([digits[0]], 16) == digits[0].value;
    }
  }

  lemma HexIsRead(digits: seq<Digit>, rest: string)
    requires IsForm(Hex(digits)) && MayPrecede(Hex(digits), rest)
    ensures Strip(['\\', 'x'] + DigitTexts(digits) + rest) == [CharOf(Hex(digits))] + Strip(rest)
  {
    var s := ['\\', 'x'] + DigitTexts(digits) + rest;
    var n := |digits|;
    assert s[2] == DigitText(digits[0]) && s[2 + n..] == rest;
    HexDigitIsRead(digits[0]);
    HexNumber(digits);
    if n == 1 {
      assert |s| > 3 ==> s[3] == rest[0];
    } else {
      assert s[3] == DigitText(digits[1]);
      HexDigitIsRead(digits[1]);
    }
    assert HeadEscape(s) == Escape(2 + n, CharOf(Hex(digits)));
  }

  /** The run of octal digits ends with them, or after three. */
  lemma {:induction false} RunEnds(digits: seq<Digit>, rest: string, limit: nat)
    requires AllBelow(digits, 8) && |digits| <= limit
    requires |digits| < limit && rest != [] ==> !IsOctal(rest[0])
    ensures OctalRun(DigitTexts(digits) + rest, limit) == |digits|
    decreases |digits|
  {
    var s := DigitTexts(digits) + rest;
    if digits == [] {
      assert s == rest;
    } else {
      assert s[0] == DigitText(digits[0]) && IsOctal(s[0]);
      assert s[1..] == DigitTexts(digits[1..]) + rest;
      RunEnds(digits[1..], rest, limit - 1);
    }
  }

  lemma {:induction false} OctalNumber(digits: seq<Digit>)
    requires AllBelow(digits, 8)
    ensures OctalValue(DigitTexts(digits)) == Number(digits, 8)
    decreases |digits|
  {
    if digits != [] {
      var s := DigitTexts(digits);
      OctalNumber(Front(digits));
      assert Front(s) == DigitTexts(Front(digits)) && Last(s) == DigitText(Last(digits));
    }
  }

  lemma HeadOctal(s: string, digits: seq<Digit>, rest: string)
    requires IsForm(Octal(digits)) && MayPrecede(Octal(digits), rest)
    requires s != [] && s[0] == '\\' && s[1..] == DigitTexts(digits) + rest
    ensures HeadEscape(s) == Escape(1 + |digits|, CharOf(Octal(digits)))
  {
    var t := DigitTexts(digits);
    assert s[1] == s[1..][0] == DigitText(digits[0]) && IsOctal(s[1]);
    assert Letter(s[1]) == [] && s[1] != 'x';
    RunEnds(digits, rest, 3);
    OctalNumber(digits);
    assert s[1..][..|t|] == t;
  }

  lemma OctalIsRead(digits: seq<Digit>, rest: string)
    requires IsForm(Octal(digits)) && MayPrecede(Octal(digits), rest)
    ensures Strip(['\\'] + DigitTexts(digits) + rest) == [CharOf(Octal(digits))] + Strip(rest)
  {
    var s := ['\\'] + DigitTexts(digits) + rest;
    assert s[1..] == DigitTexts(digits) + rest;
    HeadOctal(s, digits, rest);
    assert s[1 + |digits|..] == rest;
  }

  lemma FormIsRead(f: Form, rest: string)
    requires IsForm(f) && MayPrecede(f, rest)
    ensures Strip(TextOf(f) + rest) == [CharOf(f)] + Strip(rest)
  {
    match f
    case Verbatim(c) => assert ([c] + rest)[1..] == rest;
    case Named(letter) => NamedIsRead(letter, rest);
    case Hex(digits) => HexIsRead(digits, rest);
    case Octal(digits) => OctalIsRead(digits, rest);
    case Other(c) => OtherIsRead(c, rest);
  }

  /** However a text is written, stripping gives the characters that its forms stand for. */
  lemma {:induction false} StripReads(forms: seq<Form>)
    requires forall i :: 0 <= i < |forms| ==> IsForm(forms[i])
    requires Readable(forms)
    ensures Strip(TextOfAll(forms)) == CharsOf(forms)
    decreases |forms|
  {
    if forms != [] {
      FormIsRead(forms[0], TextOfAll(forms[1..]));
      StripReads(forms[1..]);
      assert [CharOf(forms[0])] + CharsOf(forms[1..]) == CharsOf(forms);
    }
  }

  // ---------- Every text ----------

  function DigitOf(c: char): (d: Digit)
    requires IsHex(c)
    ensures d.value < 16 && DigitText(d) == c && (IsOctal(c) ==> d.value < 8)
  {
    if IsDigit(c) then Digit(c as nat - '0' as nat, false)
    else if 'A' <= c <= 'F' then Digit(c as nat - 'A' as nat + 10, true)
    else Digit(c as nat - 'a' as nat + 10, false)
  }

  /** The digits at the head of a text, as many as belong together. */
  lemma {:induction false} LeadingDigits(s: string, octal: bool, limit: nat) returns (digits: seq<Digit>)
    ensures |digits| <= limit && |digits| <= |s| && AllBelow(digits, if octal then 8 else 16)
    ensures DigitTexts(digits) == s[..|digits|]
    ensures |digits| < limit && |digits| < |s| ==> !(if octal then IsOctal(s[|digits|]) else IsHex(s[|digits|]))
  {
    if limit == 0 || s == [] || !(if octal then IsOctal(s[0]) else IsHex(s[0])) {
      digits := [];
    } else {
      var more := LeadingDigits(s[1..], octal, limit - 1);
      digits := [DigitOf(s[0])] + more;
      assert s[..|digits|] == [s[0]] + s[1..][..|more|];
    }
  }

  /** The form at the head of a text. */
  lemma FirstForm(s: string) returns (f: Form, rest: string)
    requires s != []
    ensures IsForm(f) && MayPrecede(f, rest) && s == TextOf(f) + rest && |rest| < |s|
  {
    if s[0] != '\\' || |s| == 1 {
      f, rest := Verbatim(s[0]), s[1..];
    } else {
      f, rest := EscapeForm(s);
    }
  }

  lemma EscapeForm(s: string) returns (f: Form, rest: string)
    requires |s| > 1 && s[0] == '\\'
    ensures IsForm(f) && MayPrecede(f, rest) && s == TextOf(f) + rest && |rest| < |s|
  {
    var c := s[1];
    var octal := LeadingDigits(s[1..], true, 3);
    var hex := LeadingDigits(s[2..], false, 2);
    if octal != [] {
      f, rest := Octal(octal), s[1 + |octal|..];
      assert s == ['\\'] + s[1..][..|octal|] + rest;
    } else if c == 'x' && hex != [] {
      f, rest := Hex(hex), s[2 + |hex|..];
      assert s == ['\\', 'x'] + s[2..][..|hex|] + rest;
    } else {
      f, rest := if c in NAMES then Named(c) else Other(c), s[2..];
      assert s == ['\\', c] + rest;
    }
  }

  /** Every text is written in such forms, so that stripping is pinned for all of them. */
  lemma {:induction false} EveryTextHasForms(s: string) returns (forms: seq<Form>)
    ensures (forall i :: 0 <= i < |forms| ==> IsForm(forms[i])) && Readable(forms)
    ensures TextOfAll(forms) == s && Strip(s) == CharsOf(forms)
    decreases |s|
  {
    if s == [] {
      forms := [];
    } else {
      var f, rest := FirstForm(s);
      var more := EveryTextHasForms(rest);
      forms := [f] + more;
      assert forms[1..] == more;
    }
    StripReads(forms);
  }
}
