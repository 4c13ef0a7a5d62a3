/** What the letters of an encoding are: the digits of the message in base 64. */
module Base64Digits {
  import opened Subsequences
  import opened Base64

  /** So many characters in a row, from a given one on. */
  function Run(first: char, n: nat): (r: string)
    requires first as nat + n < 128
    ensures |r| == n && forall i :: 0 <= i < n ==> r[i] as nat == first as nat + i
  {
    seq(n, i requires 0 <= i < n => (first as nat + i) as char)
  }

  /** The alphabet in table 1 of RFC 4648. */
  const ALPHABET: string := Run('A', 26) + Run('a', 26) + Run('0', 10) + ['+', '/']

  lemma LetterIsInAlphabet(v: Sextet)
    ensures |ALPHABET| == 64 && Letter(v) == ALPHABET[v] as nat && PAD == '=' as nat
  {
  }

  /** The number a sequence of digits stands for, the first one being the highest. */
  function Number(digits: seq<nat>, base: nat): nat {
    if digits == [] then 0 else Number(Front(digits), base) * base + Last(digits)
  }

  /** What the bits missing from the last group multiply a message by: they are zeros. */
  function Scale(n: nat): nat {
    if n % 3 == 0 then 1 else if n % 3 == 1 then 16 else 4
  }

  lemma NumberNext(digits: seq<nat>, d: nat, base: nat)
    ensures Number(digits + [d], base) == Number(digits, base) * base + d
  {
    assert Front(digits + [d]) == digits;
  }

  lemma NumberNextTwo(digits: seq<nat>, d: nat, e: nat, base: nat)
    ensures Number(digits + [d, e], base) == (Number(digits, base) * base + d) * base + e
  {
    NumberNext(digits, d, base);
    NumberNext(digits + [d], e, base);
    assert digits + [d] + [e] == digits + [d, e];
  }

  lemma OneMore(front: seq<Byte>, x: seq<Sextet>, a: Byte)
    requires Number(x, 64) == Number(front, 256)
    ensures Number(x + [Sextet0(a), Sextet1(a, 0)], 64) == Number(front + [a], 256) * 16
  {
    NumberNext(front, a, 256);
    NumberNextTwo(x, Sextet0(a), Sextet1(a, 0), 64);
  }

  lemma TwoMore(front: seq<Byte>, x: seq<Sextet>, a: Byte, b: Byte)
    requires Number(x, 64) == Number(front, 256)
    ensures Number(x + [Sextet0(a), Sextet1(a, b), Sextet2(b, 0)], 64) == Number(front + [a, b], 256) * 4
  {
    var y := [Sextet0(a), Sextet1(a, b)];
    NumberNextTwo(front, a, b, 256);
    NumberNextTwo(x, Sextet0(a), Sextet1(a, b), 64);
    NumberNext(x + y, Sextet2(b, 0), 64);
    assert x + y + [Sextet2(b, 0)] == x + [Sextet0(a), Sextet1(a, b), Sextet2(b, 0)];
  }

  lemma ThreeMore(front: seq<Byte>, x: seq<Sextet>, a: Byte, b: Byte, c: Byte)
    requires Number(x, 64) == Number(front, 256)
    ensures Number(x + Group(a, b, c), 64) == Number(front + [a, b, c], 256)
  {
    var y := [Sextet0(a), Sextet1(a, b)];
    NumberNextTwo(front, a, b, 256);
    NumberNext(front + [a, b], c, 256);
    NumberNextTwo(x, Sextet0(a), Sextet1(a, b), 64);
    NumberNextTwo(x + y, Sextet2(b, c), Sextet3(c), 64);
    assert front + [a, b] + [c] == front + [a, b, c];
    assert x + y + [Sextet2(b, c), Sextet3(c)] == x + Group(a, b, c);
  }

  /** A last group of one, two or three bytes. */
  lemma TailNumber(front: seq<Byte>, tail: seq<Byte>, a: Byte, b: Byte, c: Byte)
    requires |front| % 3 == 0 && (tail == [a] || tail == [a, b] || tail == [a, b, c])
    requires Number(SextetsOf(front), 64) == Number(front, 256)
    ensures Number(SextetsOf(front + tail), 64) == Number(front + tail, 256) * Scale(|tail|)
  {
    var x := SextetsOf(front);
    SextetsConcat(front, tail);
    ShortSextets(a, b);
    FullSextets(a, b, c);
    if tail == [a] {
      OneMore(front, x, a);
    } else if tail == [a, b] {
      TwoMore(front, x, a, b);
    } else {
      ThreeMore(front, x, a, b, c);
    }
  }

  lemma FullSextets(a: Byte, b: Byte, c: Byte)
    ensures SextetsOf([a, b, c]) == Group(a, b, c)
  {
    assert [a, b, c][3..] == [];
  }

  lemma ScaleOfTail(n: nat, k: nat)
    requires n % 3 == 0
    ensures Scale(n + k) == Scale(k)
  {
  }

  /** A message that is not empty is whole groups and a last one of one, two or three bytes. */
  lemma CutLastGroup(d: seq<Byte>) returns (front: seq<Byte>, tail: seq<Byte>, a: Byte, b: Byte, c: Byte)
    requires d != []
    ensures d == front + tail && |front| % 3 == 0 && |front| < |d| && Scale(|d|) == Scale(|tail|)
    ensures tail == [a] || tail == [a, b] || tail == [a, b, c]
  {
    var n := (|d| - 1) / 3 * 3;
    front, tail := d[..n], d[n..];
    a, b, c := tail[0], if |tail| > 1 then tail[1] else 0, if |tail| > 2 then tail[2] else 0;
    ScaleOfTail(n, |tail|);
  }

  /** The letters of an encoding, read as digits in base 64, are the same number as the bytes of the
      message, read as digits in base 256, with zeros for the bits that are missing at the end. */
  lemma {:induction false} SameNumber(d: seq<Byte>)
    ensures Number(SextetsOf(d), 64) == Number(d, 256) * Scale(|d|)
    decreases |d|
  {
    if d != [] {
      var front, tail, a, b, c := CutLastGroup(d);
      SameNumber(front);
      TailNumber(front, tail, a, b, c);
    }
  }

  /** There are as many letters as the message has groups of six bits, the last one completed. */
  lemma LetterCount(d: seq<Byte>)
    ensures 6 * |SextetsOf(d)| >= 8 * |d| > 6 * |SextetsOf(d)| - 6
  {
    SextetsLength(d);
  }
}
