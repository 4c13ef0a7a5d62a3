/** Backslash escaping and its undoing: `xdebug_addslashes` and `xdebug_stripcslashes`. */
module Escapes {
  import opened Subsequences

  const NUL: char := '\0'

  predicate IsOctal(c: char) {
    '0' <= c <= '7'
  }

  predicate IsDigit(c: char) {
    '0' <= c <= '9'
  }

  predicate IsHex(c: char) {
    IsDigit(c) || 'a' <= c <= 'f' || 'A' <= c <= 'F'
  }

  function DigitValue(c: char): (v: nat)
    requires IsHex(c)
    ensures v < 16
  {
    if IsDigit(c) then c as nat - '0' as nat
    else if 'a' <= c <= 'f' then c as nat - 'a' as nat + 10
    else c as nat - 'A' as nat + 10
  }

  /** A number cast to the 8-bit `char` of the source. */
  function ToChar(v: nat): char {
    (v % 256) as char
  }

  // ---------- Adding slashes ----------

  predicate NeedsSlash(c: char) {
    c == NUL || c == '\'' || c == '"' || c == '\\'
  }

  function Slashed(c: char): (r: string)
    ensures 1 <= |r| <= 2
  {
    if c == NUL then ['\\', '0'] else if NeedsSlash(c) then ['\\', c] else [c]
  }

  function AddSlashes(s: string): (r: string)
    ensures |s| <= |r| <= 2 * |s|
  {
    if s == [] then [] else Slashed(s[0]) + AddSlashes(s[1..])
  }

  lemma {:induction false} AddSlashesConcat(s: string, t: string)
    ensures AddSlashes(s + t) == AddSlashes(s) + AddSlashes(t)
  {
    if s == [] {
      assert s + t == t;
    } else {
      assert (s + t)[1..] == s[1..] + t;
      AddSlashesConcat(s[1..], t);
    }
  }

  lemma {:induction false} AddSlashesPlain(s: string)
    requires forall i :: 0 <= i < |s| ==> !NeedsSlash(s[i])
    ensures AddSlashes(s) == s
  {
    if s != [] {
      AddSlashesPlain(s[1..]);
    }
  }

  /** A text stays as it is if and only if it holds none of the four characters. */
  lemma {:induction false} EscapedIff(s: string)
    ensures AddSlashes(s) == s <==> forall i :: 0 <= i < |s| ==> s[i] !in {'\0', '\'', '"', '\\'}
  {
    if s != [] {
      EscapedIff(s[1..]);
      if s[0] !in {'\0', '\'', '"', '\\'} {
        assert [s[0]] + AddSlashes(s[1..]) == s <==> AddSlashes(s[1..]) == s[1..] by {
          assert ([s[0]] + AddSlashes(s[1..]))[1..] == AddSlashes(s[1..]);
        }
        assert forall i :: 0 < i < |s| ==> s[i] == s[1..][i - 1];
      } else {
        assert |AddSlashes(s)| > |s|;
      }
    }
  }

  lemma AddSlashesNext(s: string, i: nat)
    requires i < |s|
    ensures AddSlashes(s[..i + 1]) == AddSlashes(s[..i]) + Slashed(s[i])
  {
    TakeNext(s, i);
    AddSlashesConcat(s[..i], [s[i]]);
    assert AddSlashes([s[i]]) == Slashed(s[i]) + AddSlashes([]);
  }

  /** The two passes of the source: a scan for the first character to escape, then a copy into
      a buffer that is large enough for the worst case and a terminator. */
  method AddSlashesToBuffer(str: string) returns (r: string)
    ensures r == AddSlashes(str)
  {
    var offset := 0;
    while offset < |str| && !NeedsSlash(str[offset])
      invariant offset <= |str|
      invariant forall i :: 0 <= i < offset ==> !NeedsSlash(str[i])
    {
      offset := offset + 1;
    }
    AddSlashesPlain(str[..offset]);
    if offset == |str| {
      assert str[..offset] == str;
      return str;
    }
    r := EscapeFrom(str, offset);
  }

  /** The copy from the first character to escape on. */
  method EscapeFrom(str: string, offset: nat) returns (r: string)
    requires offset <= |str| && AddSlashes(str[..offset]) == str[..offset]
    ensures r == AddSlashes(str)
  {
    var buffer := new char[offset + 2 * (|str| - offset) + 1];
    Put(buffer, 0, str[..offset]);
    assert buffer[..offset] == str[..offset];
    var target := EscapeInto(buffer, str, offset);
    r := buffer[..target];
    buffer[target] := NUL;
  }

  method EscapeInto(buffer: array<char>, str: string, offset: nat) returns (target: nat)
    requires offset <= |str| && buffer.Length == offset + 2 * (|str| - offset) + 1
    requires buffer[..offset] == AddSlashes(str[..offset])
    modifies buffer
    ensures target < buffer.Length && buffer[..target] == AddSlashes(str)
  {
    target := offset;
    for source := offset to |str|
      invariant target + 2 * (|str| - source) < buffer.Length
      invariant buffer[..target] == AddSlashes(str[..source])
    {
      AddSlashesNext(str, source);
      target := PutSlashed(buffer, target, str[source]);
    }
    assert str[..|str|] == str;
  }

  method PutSlashed(buffer: array<char>, at: nat, c: char) returns (target: nat)
    requires at + 2 < buffer.Length
    modifies buffer
    ensures at < target <= at + 2 && buffer[..target] == old(buffer[..at]) + Slashed(c)
  {
    var piece := Slashed(c);
    Put(buffer, at, piece);
    target := at + |piece|;
  }

  /** Writes characters from `at` on, leaving what is before them alone. */
  method Put(buffer: array<char>, at: nat, s: string)
    requires at + |s| <= buffer.Length
    modifies buffer
    ensures buffer[..at + |s|] == old(buffer[..at]) + s
  {
    for i := 0 to |s|
      invariant buffer[..at] == old(buffer[..at]) && buffer[at..at + i] == s[..i]
    {
      buffer[at + i] := s[i];
    }
    assert buffer[..at + |s|] == buffer[..at] + buffer[at..at + |s|];
  }

  // ---------- Stripping slashes ----------

  /** How many of the first `limit` characters are octal digits, counting from the start. */
  function OctalRun(s: string, limit: nat): (k: nat)
    ensures k <= |s| && k <= limit
  {
    if limit == 0 || s == [] || !IsOctal(s[0]) then 0 else 1 + OctalRun(s[1..], limit - 1)
  }

  lemma {:induction false} OctalRunMeaning(s: string, limit: nat)
    ensures forall i :: 0 <= i < OctalRun(s, limit) ==> IsOctal(s[i])
    decreases limit
  {
    if limit > 0 && s != [] && IsOctal(s[0]) {
      OctalRunMeaning(s[1..], limit - 1);
      forall i | 1 <= i < OctalRun(s, limit) ensures IsOctal(s[i]) {
        assert s[i] == s[1..][i - 1];
      }
    }
  }

  function OctalValue(s: string): nat {
    if s == [] then 0
    else 8 * OctalValue(Front(s)) + if IsOctal(Last(s)) then Last(s) as nat - '0' as nat else 0
  }

  /** The single-letter escapes. */
  function Letter(c: char): string {
    if c == 'n' then [10 as char] else if c == 'r' then [13 as char] else if c == 'a' then [7 as char]
    else if c == 't' then [9 as char] else if c == 'v' then [11 as char] else if c == 'b' then [8 as char]
    else if c == 'f' then [12 as char] else if c == '\\' then ['\\'] else []
  }

  /** What one escape at the head of `s` reads (`used` characters) and stands for. */
  datatype Escape = Escape(used: nat, value: char)

  function HeadEscape(s: string): (e: Escape)
    requires |s| >= 2 && s[0] == '\\'
    ensures 2 <= e.used <= |s|
  {
    var c := s[1];
    if Letter(c) != [] then Escape(2, Letter(c)[0])
    else if c == 'x' && |s| > 2 && IsHex(s[2]) then
      if |s| > 3 && IsHex(s[3]) then Escape(4, ToChar(16 * DigitValue(s[2]) + DigitValue(s[3])))
      else Escape(3, ToChar(DigitValue(s[2])))
    else
      var k := OctalRun(s[1..], 3);
      if k > 0 then Escape(1 + k, ToChar(OctalValue(s[1..][..k]))) else Escape(2, c)
  }

  function Strip(s: string): (r: string)
    ensures |r| <= |s|
    decreases |s|
  {
    if s == [] then []
    else if s[0] == '\\' && |s| > 1 then
      var e := HeadEscape(s);
      [e.value] + Strip(s[e.used..])
    else [s[0]] + Strip(s[1..])
  }

  /** In place; a terminator follows the result unless the result is empty. */
  method StripInPlace(str: array<char>, len: nat) returns (nlen: nat)
    requires len < str.Length
    modifies str
    ensures nlen <= len && str[..nlen] == Strip(old(str[..len]))
    ensures nlen != 0 ==> str[nlen] == NUL
    ensures str[len + 1..] == old(str[len + 1..])
  {
    assert str[0..len] == str[..len] && [] + Strip(str[..len]) == Strip(str[..len]);
    nlen := StripLoop(str, len, Strip(str[..len]));
    if nlen != 0 {
      str[nlen] := NUL;
    }
  }

  /** The target index never overtakes the source index, and the length that is counted down
      by each escape ends up as the number of characters written. */
  method StripLoop(str: array<char>, len: nat, ghost goal: string) returns (nlen: nat)
    requires len < str.Length && Stripping([], goal, goal, str[0..len])
    modifies str
    ensures nlen <= len && str[..nlen] == goal
    ensures str[len..] == old(str[len..])
  {
    nlen := len;
    var source, target: nat := 0, 0;
    ghost var done, todo, rest := [], goal, str[0..len];
    while source < len
      invariant target <= source <= len && nlen == target + (len - source) && rest == str[source..len]
      invariant str[..target] == done && Stripping(done, todo, goal, rest)
      invariant str[len..] == old(str[len..])
    {
      var used;
      used, done, todo, rest := Turn(str, source, target, len, done, todo, goal, rest);
      nlen := nlen - (used - 1);
      source := source + used;
      target := target + 1;
    }
    assert rest == [] && done + [] == done;
  }

  /** What is written and what is still to come make up the goal. */
  ghost predicate Stripping(done: string, todo: string, goal: string, rest: string) {
    todo == Strip(rest) && done + todo == goal
  }

  lemma StripMore(done: string, todo: string, goal: string, rest: string)
    requires todo != [] && done + todo == goal && todo[1..] == Strip(rest)
    ensures Stripping(done + [todo[0]], todo[1..], goal, rest)
  {
    assert done + [todo[0]] + todo[1..] == done + todo;
  }

  method Turn(str: array<char>, source: nat, target: nat, len: nat,
              ghost done: string, ghost todo: string, ghost goal: string, ghost rest: string)
    returns (used: nat, ghost done': string, ghost todo': string, ghost rest': string)
    requires target <= source < len <= str.Length && rest == str[source..len]
    requires str[..target] == done && Stripping(done, todo, goal, rest)
    modifies str
    ensures 1 <= used <= len - source && rest' == str[source + used..len]
    ensures str[..target + 1] == done' && Stripping(done', todo', goal, rest')
    ensures str[len..] == old(str[len..])
  {
    used := StripOne(str, source, target, len, todo);
    rest' := str[source + used..len];
    StripMore(done, todo, goal, rest');
    done', todo' := done + [todo[0]], todo[1..];
  }

  /** One turn of the loop: reads a character or an escape at `source`, writes at `target`. */
  method StripOne(str: array<char>, source: nat, target: nat, len: nat, ghost todo: string) returns (used: nat)
    requires target <= source < len <= str.Length && todo == Strip(str[source..len])
    modifies str
    ensures 1 <= used <= len - source
    ensures todo != [] && str[..target + 1] == old(str[..target]) + [todo[0]]
    ensures todo[1..] == Strip(str[source + used..len])
    ensures str[len..] == old(str[len..])
  {
    ghost var s := str[source..len];
    var value;
    used, value := ReadNext(str, source, len);
    assert todo == [value] + Strip(s[used..]);
    str[target] := value;
    assert str[source + used..len] == s[used..];
  }

  /** What the head of a non-empty string reads, escape or not. */
  function Head(s: string): (e: Escape)
    requires s != []
    ensures 1 <= e.used <= |s|
  {
    if s[0] == '\\' && |s| > 1 then HeadEscape(s) else Escape(1, s[0])
  }

  method ReadNext(str: array<char>, source: nat, len: nat) returns (used: nat, value: char)
    requires source < len <= str.Length
    ensures Escape(used, value) == Head(str[source..len])
  {
    if str[source] == '\\' && source + 1 < len {
      used, value := ReadEscape(str, source, len);
    } else {
      return 1, str[source];
    }
  }

  /** The switch over the character after a backslash. */
  method ReadEscape(str: array<char>, source: nat, len: nat) returns (used: nat, value: char)
    requires source + 1 < len <= str.Length && str[source] == '\\'
    ensures Escape(used, value) == HeadEscape(str[source..len])
  {
    ghost var s := str[source..len];
    var c := str[source + 1];
    if Letter(c) != [] {
      return 2, Letter(c)[0];
    }
    if c == 'x' && source + 2 < len && IsHex(str[source + 2]) {
      if source + 3 < len && IsHex(str[source + 3]) {
        return 4, ToChar(16 * DigitValue(str[source + 2]) + DigitValue(str[source + 3]));
      }
      return 3, ToChar(DigitValue(str[source + 2]));
    }
    var i, v := 0, 0;
    while source + 1 + i < len && IsOctal(str[source + 1 + i]) && i < 3
      invariant i <= 3 && source + 1 + i <= len
      invariant v == OctalValue(s[1..][..i])
      invariant OctalRun(s[1..], 3) == i + OctalRun(s[1..][i..], 3 - i)
    {
      assert Front(s[1..][..i + 1]) == s[1..][..i];
      assert s[1..][i..][1..] == s[1..][i + 1..];
      v := 8 * v + (str[source + 1 + i] as nat - '0' as nat);
      i := i + 1;
    }
    if i > 0 {
      return 1 + i, ToChar(v);
    }
    return 2, c;
  }

  // ---------- Stripping undoes adding, exactly when ... ----------

  /** No NUL is directly followed by an octal digit. */
  predicate NulSafe(s: string) {
    forall i :: 0 <= i < |s| - 1 && s[i] == NUL ==> !IsOctal(s[i + 1])
  }

  lemma StripSlashed(c: char, rest: string)
    requires c != NUL
    ensures Strip(Slashed(c) + rest) == [c] + Strip(rest)
  {
    var s := Slashed(c) + rest;
    if NeedsSlash(c) {
      assert OctalRun(s[1..], 3) == 0;
      assert s[2..] == rest;
    } else {
      assert s[1..] == rest;
    }
  }

  /** The escape of a NUL goes on through up to two octal digits that happen to follow. */
  lemma NulEscape(rest: string)
    ensures HeadEscape(Slashed(NUL) + rest).used == 2 + OctalRun(rest, 2)
    ensures OctalRun(rest, 2) == 0 ==> HeadEscape(Slashed(NUL) + rest).value == NUL
  {
    var s := Slashed(NUL) + rest;
    assert s[1] == '0' && s[1..] == ['0'] + rest;
    assert s[1..][1..] == rest;
    if OctalRun(rest, 2) == 0 {
      assert s[1..][..1] == ['0'] && Front(['0']) == [];
    }
  }

  lemma StripNul(rest: string)
    ensures var k := OctalRun(rest, 2);
            && |Strip(Slashed(NUL) + rest)| == 1 + |Strip(rest[k..])|
            && (k == 0 ==> Strip(Slashed(NUL) + rest) == [NUL] + Strip(rest))
  {
    var s, k := Slashed(NUL) + rest, OctalRun(rest, 2);
    NulEscape(rest);
    assert s[2 + k..] == rest[k..];
    assert k == 0 ==> rest[k..] == rest;
  }

  /** Whatever is swallowed by a NUL's octal run are digits of the original. */
  lemma {:induction false} StripNeverLonger(s: string)
    ensures |Strip(AddSlashes(s))| <= |s|
    ensures !NulSafe(s) ==> |Strip(AddSlashes(s))| < |s|
    decreases |s|
  {
    if s != [] {
      var rest := AddSlashes(s[1..]);
      assert !NulSafe(s) ==> !NulSafe(s[1..]) || (s[0] == NUL && |s| > 1 && IsOctal(s[1])) by {
        NulSafeTail(s);
      }
      StripNeverLonger(s[1..]);
      if s[0] != NUL {
        StripSlashed(s[0], rest);
      } else {
        StripNul(rest);
        var k := OctalRun(rest, 2);
        OctalRunMeaning(rest, 2);
        DigitsSurvive(s[1..], k);
        StripNeverLonger(s[1..][k..]);
        if k == 0 {
          FirstCharacter(s[1..]);
        }
      }
    }
  }

  /** Slashing does not make or unmake a leading octal digit. */
  lemma FirstCharacter(s: string)
    ensures OctalRun(AddSlashes(s), 2) == 0 <==> s == [] || !IsOctal(s[0])
  {
    if s != [] {
      assert AddSlashes(s)[0] == Slashed(s[0])[0];
    }
  }

  lemma NulSafeTail(s: string)
    requires s != []
    ensures NulSafe(s) <==> NulSafe(s[1..]) && (s[0] == NUL && |s| > 1 ==> !IsOctal(s[1]))
  {
    if NulSafe(s[1..]) && (s[0] == NUL && |s| > 1 ==> !IsOctal(s[1])) {
      forall i | 0 <= i < |s| - 1 && s[i] == NUL ensures !IsOctal(s[i + 1]) {
        if i > 0 {
          assert s[1..][i - 1] == s[i] && s[1..][i] == s[i + 1];
        }
      }
    }
    if NulSafe(s) {
      forall i | 0 <= i < |s[1..]| - 1 && s[1..][i] == NUL ensures !IsOctal(s[1..][i + 1]) {
        assert s[i + 1] == NUL;
      }
    }
  }

  /** Leading octal digits of a slashed string are the leading characters of the string. */
  lemma {:induction false} DigitsSurvive(s: string, k: nat)
    requires k <= |AddSlashes(s)| && forall i :: 0 <= i < k ==> IsOctal(AddSlashes(s)[i])
    ensures k <= |s| && AddSlashes(s)[k..] == AddSlashes(s[k..])
    decreases k
  {
    if k > 0 {
      assert AddSlashes(s)[0] == Slashed(s[0])[0];
      assert AddSlashes(s) == [s[0]] + AddSlashes(s[1..]);
      forall i | 0 <= i < k - 1 ensures IsOctal(AddSlashes(s[1..])[i]) {
        assert AddSlashes(s)[i + 1] == AddSlashes(s[1..])[i];
      }
      DigitsSurvive(s[1..], k - 1);
    }
  }

  /** The round trip holds exactly for the strings in which no NUL is followed by an octal digit. */
  lemma {:induction false} RoundTripIff(s: string)
    ensures Strip(AddSlashes(s)) == s <==> NulSafe(s)
    decreases |s|
  {
    StripNeverLonger(s);
    if NulSafe(s) && s != [] {
      NulSafeTail(s);
      RoundTripIff(s[1..]);
      var rest := AddSlashes(s[1..]);
      if s[0] != NUL {
        StripSlashed(s[0], rest);
      } else {
        StripNul(rest);
        FirstCharacter(s[1..]);
      }
    }
  }

  /** A string that does not come back: a NUL and the digit 1 read as one octal escape. */
  lemma RoundTripFails()
    ensures Strip(AddSlashes([NUL, '1'])) == [1 as char]
  {
    var s := ['\\', '0', '1'];
    assert AddSlashes(['1']) == ['1'] && AddSlashes([NUL, '1']) == s by {
      assert [NUL, '1'][1..] == ['1'] && ['1'][1..] == [];
    }
    assert s[1..] == ['0', '1'] && s[1..][1..] == ['1'] && ['1'][1..] == [];
    assert OctalRun(s[1..], 3) == 2;
    assert s[1..][..2] == ['0', '1'] && Front(['0', '1']) == ['0'] && Front(['0']) == [];
    assert OctalValue(['0', '1']) == 1;
    assert s[3..] == [];
  }

  // ---------- Text between quotes ----------

  /** The place of the first quote that is not escaped, or the end of the text. */
  function Closing(text: string, quote: char): (n: nat)
    ensures n <= |text| && (n < |text| ==> text[n] == quote)
  {
    if text == [] || text[0] == quote then 0
    else if text[0] != '\\' then 1 + Closing(text[1..], quote)
    else if |text| == 1 then 1
    else 2 + Closing(text[2..], quote)
  }

  /** Raw text that a closing quote after it really closes: escapes are complete, quotes escaped. */
  predicate Enclosed(raw: string, quote: char) {
    if raw == [] then true
    else if raw[0] == '\\' then |raw| >= 2 && Enclosed(raw[2..], quote)
    else raw[0] != quote && Enclosed(raw[1..], quote)
  }

  lemma {:induction false} ClosingEncloses(text: string, quote: char)
    requires quote != '\\' && Closing(text, quote) < |text|
    ensures Enclosed(text[..Closing(text, quote)], quote)
    decreases |text|
  {
    var n := Closing(text, quote);
    var raw := text[..n];
    if n > 0 {
      assert raw[0] == text[0];
      if text[0] == '\\' {
        ClosingEncloses(text[2..], quote);
        assert raw[2..] == text[2..][..n - 2];
      } else {
        ClosingEncloses(text[1..], quote);
        assert raw[1..] == text[1..][..n - 1];
      }
    }
  }

  /** Text that is never closed is complete, or complete up to a last backslash. */
  lemma {:induction false} UnclosedEncloses(text: string, quote: char) returns (raw: string)
    requires quote != '\\' && Closing(text, quote) == |text|
    ensures Enclosed(raw, quote) && (text == raw || text == raw + ['\\'])
    decreases |text|
  {
    if text == [] {
      raw := [];
    } else if text[0] != '\\' {
      var rest := UnclosedEncloses(text[1..], quote);
      raw := [text[0]] + rest;
      assert raw[1..] == rest && text == [text[0]] + text[1..];
    } else if |text| == 1 {
      raw := [];
      assert text == raw + ['\\'];
    } else {
      var rest := UnclosedEncloses(text[2..], quote);
      raw := [text[0], text[1]] + rest;
      assert raw[2..] == rest && text == [text[0], text[1]] + text[2..];
    }
  }

  /** What is escaped can stand between either kind of quotes. */
  lemma {:induction false} SlashedIsEnclosed(s: string, quote: char)
    requires quote == '\'' || quote == '"'
    ensures Enclosed(AddSlashes(s), quote)
  {
    if s != [] {
      var head, rest := Slashed(s[0]), AddSlashes(s[1..]);
      SlashedIsEnclosed(s[1..], quote);
      assert (head + rest)[|head|..] == rest;
    }
  }
}
