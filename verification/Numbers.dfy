/** Numbers as the printer writes them (`%ld`) and as the parser reads them back (`strtoull`). */
module Numbers {
  import opened Subsequences
  import opened Escapes

  const TWO_64: nat := 0x1_0000_0000_0000_0000
  const TWO_63: nat := 0x8000_0000_0000_0000

  function DigitChar(d: nat): (c: char)
    requires d < 10
    ensures IsDigit(c)
  {
    ('0' as nat + d) as char
  }

  function Decimal(n: nat): (s: string)
    ensures s != [] && forall i :: 0 <= i < |s| ==> IsDigit(s[i])
  {
    if n < 10 then [DigitChar(n)] else Decimal(n / 10) + [DigitChar(n % 10)]
  }

  /** An unsigned 64-bit key printed as a signed number. */
  function PrintSigned(key: nat): string
    requires key < TWO_64
  {
    if key < TWO_63 then Decimal(key) else ['-'] + Decimal(TWO_64 - key)
  }

  /** The digits at the head of a string. */
  function DigitPrefix(s: string): string {
    if s == [] || !IsDigit(s[0]) then [] else [s[0]] + DigitPrefix(s[1..])
  }

  function DigitsValue(s: string): nat {
    if s == [] then 0
    else 10 * DigitsValue(Front(s)) + if IsDigit(Last(s)) then Last(s) as nat - '0' as nat else 0
  }

  /** `strtoull` in base 10: an optional sign, digits, saturation, and negation modulo 2^64. */
  function StrToUnsigned(s: string): (n: nat)
    ensures n < TWO_64
  {
    var negative := s != [] && s[0] == '-';
    var v := DigitsValue(DigitPrefix(if negative then s[1..] else s));
    if v >= TWO_64 then TWO_64 - 1
    else if negative && v > 0 then TWO_64 - v
    else v
  }

  lemma {:induction false} DigitPrefixAll(s: string)
    requires forall i :: 0 <= i < |s| ==> IsDigit(s[i])
    ensures DigitPrefix(s) == s
  {
    if s != [] {
      DigitPrefixAll(s[1..]);
    }
  }

  lemma {:induction false} DecimalValue(n: nat)
    ensures DigitsValue(Decimal(n)) == n
  {
    var s := Decimal(n);
    if n < 10 {
      assert Front(s) == [];
    } else {
      DecimalValue(n / 10);
      assert Front(s) == Decimal(n / 10);
    }
  }

  /** Every 64-bit key survives being printed signed and read unsigned. */
  lemma KeyRoundTrip(key: nat)
    requires key < TWO_64
    ensures StrToUnsigned(PrintSigned(key)) == key
  {
    var n := if key < TWO_63 then key else TWO_64 - key;
    DigitPrefixAll(Decimal(n));
    DecimalValue(n);
    if key >= TWO_63 {
      assert PrintSigned(key)[1..] == Decimal(n);
    } else {
      assert IsDigit(Decimal(n)[0]);
    }
  }

  lemma {:induction false} PrefixStops(s: string, rest: string)
    requires forall i :: 0 <= i < |s| ==> IsDigit(s[i])
    requires rest == [] || !IsDigit(rest[0])
    ensures DigitPrefix(s + rest) == s
  {
    if s == [] {
      assert s + rest == rest;
    } else {
      assert (s + rest)[1..] == s[1..] + rest;
      PrefixStops(s[1..], rest);
    }
  }

  lemma {:induction false} ZerosCountNothing(zeros: string, s: string)
    requires forall i :: 0 <= i < |zeros| ==> zeros[i] == '0'
    ensures DigitsValue(zeros + s) == DigitsValue(s)
    decreases |s|, |zeros|
  {
    if s != [] {
      ZerosCountNothing(zeros, Front(s));
      assert Front(zeros + s) == zeros + Front(s);
    } else if zeros != [] {
      ZerosCountNothing(Front(zeros), s);
      assert Front(zeros + s) == Front(zeros) + s;
    }
  }

  /** Any number, with or without leading zeros and whatever follows its digits: what does not fit
      is cut to the largest value, and a sign counts down from zero. */
  lemma NumberIsRead(zeros: string, n: nat, rest: string)
    requires forall i :: 0 <= i < |zeros| ==> zeros[i] == '0'
    requires rest == [] || !IsDigit(rest[0])
    ensures var digits := zeros + Decimal(n);
            && StrToUnsigned(digits + rest) == (if n < TWO_64 then n else TWO_64 - 1)
            && StrToUnsigned(['-'] + (digits + rest)) == (if n < TWO_64 then (TWO_64 - n) % TWO_64 else TWO_64 - 1)
  {
    var digits := zeros + Decimal(n);
    PrefixStops(digits, rest);
    ZerosCountNothing(zeros, Decimal(n));
    DecimalValue(n);
    assert IsDigit((digits + rest)[0]);
    assert (['-'] + (digits + rest))[1..] == digits + rest;
  }

  /** The integer a text of an optional sign and digits denotes. */
  function SignedValue(s: string): int {
    var digits: int := DigitsValue(if s != [] && s[0] == '-' then s[1..] else s);
    if s != [] && s[0] == '-' then 0 - digits else digits
  }

  /** A 64-bit key is printed as the signed number with the same bits, without leading zeros. */
  lemma PrintsSigned(key: nat)
    requires key < TWO_64
    ensures var v := SignedValue(PrintSigned(key));
            if key < TWO_63 then v == key else v + TWO_64 == key
    ensures var s := PrintSigned(key);
            s == "0" || (s[0] != '0' && (s[0] == '-' ==> |s| > 1 && s[1] != '0'))
  {
    var n := if key < TWO_63 then key else TWO_64 - key;
    DecimalValue(n);
    NoLeadingZero(n);
    if key >= TWO_63 {
      assert PrintSigned(key)[1..] == Decimal(n);
    } else {
      assert IsDigit(Decimal(n)[0]);
    }
  }

  lemma {:induction false} NoLeadingZero(n: nat)
    ensures n == 0 ==> Decimal(n) == "0"
    ensures n > 0 ==> Decimal(n)[0] != '0'
  {
    if n >= 10 {
      NoLeadingZero(n / 10);
    }
  }
}
