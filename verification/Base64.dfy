/** Base64 as the debugger encodes and strictly decodes it, after section 4 of RFC 4648. Bytes
    are numbers below 256; where the source combines bits with `|`, the bits are disjoint and
    the model adds. */
module Base64 {
  import opened Subsequences

  type Byte = n: nat | n < 256
  type Sextet = n: nat | n < 64

  const PAD: Byte := 61

  // ---------- The tables ----------

  function Letter(v: Sextet): Byte {
    if v < 26 then 65 + v else if v < 52 then 97 + (v - 26) else if v < 62 then 48 + (v - 52)
    else if v == 62 then 43 else 47
  }

  /** -1 for whitespace, -2 for anything else outside the alphabet. */
  function ValueOf(c: Byte): (v: int)
    ensures v < 64 && v >= -2
  {
    if 65 <= c <= 90 then c - 65 else if 97 <= c <= 122 then c - 97 + 26
    else if 48 <= c <= 57 then c - 48 + 52 else if c == 43 then 62 else if c == 47 then 63
    else if c == 9 || c == 10 || c == 13 || c == 32 then -1 else -2
  }

  lemma TablesAgree(v: Sextet, c: Byte)
    ensures ValueOf(Letter(v)) == v && Letter(v) != PAD
    ensures ValueOf(c) >= 0 ==> Letter(ValueOf(c)) == c && c != PAD
  {
  }

  // ---------- Bits ----------

  /** The four groups of six bits in three bytes. */
  function Sextet0(a: Byte): Sextet { a / 4 }

  function Sextet1(a: Byte, b: Byte): Sextet { a % 4 * 16 + b / 16 }

  function Sextet2(b: Byte, c: Byte): Sextet { b % 16 * 4 + c / 64 }

  function Sextet3(c: Byte): Sextet { c % 64 }

  /** The three bytes in four groups of six bits: the upper and the lower part of each. */
  function High0(v: Sextet): Byte { v * 4 }

  function High1(v: Sextet): Byte { v % 16 * 16 }

  function High2(v: Sextet): Byte { v % 4 * 64 }

  function Byte0(v: Sextet, w: Sextet): Byte { High0(v) + w / 16 }

  function Byte1(v: Sextet, w: Sextet): Byte { High1(v) + w / 4 }

  function Byte2(v: Sextet, w: Sextet): Byte { High2(v) + w }

  lemma BitsAgree(a: Byte, b: Byte, c: Byte)
    ensures Byte0(Sextet0(a), Sextet1(a, b)) == a
    ensures Byte1(Sextet1(a, b), Sextet2(b, c)) == b
    ensures Byte2(Sextet2(b, c), Sextet3(c)) == c
  {
  }

  // ---------- What encoding means ----------

  /** The message cut into six-bit groups. */
  function SextetsOf(d: seq<Byte>): seq<Sextet> {
    if d == [] then []
    else if |d| == 1 then [Sextet0(d[0]), Sextet1(d[0], 0)]
    else if |d| == 2 then [Sextet0(d[0]), Sextet1(d[0], d[1]), Sextet2(d[1], 0)]
    else Group(d[0], d[1], d[2]) + SextetsOf(d[3..])
  }

  function Group(a: Byte, b: Byte, c: Byte): seq<Sextet> {
    [Sextet0(a), Sextet1(a, b), Sextet2(b, c), Sextet3(c)]
  }

  function Letters(x: seq<Sextet>): (r: seq<Byte>)
    ensures |r| == |x| && forall i :: 0 <= i < |x| ==> r[i] == Letter(x[i])
  {
    seq(|x|, i requires 0 <= i < |x| => Letter(x[i]))
  }

  function Pads(n: nat): (r: seq<Byte>)
    ensures |r| == n && forall i :: 0 <= i < n ==> r[i] == PAD
  {
    seq(n, _ => PAD)
  }

  /** How many padding characters complete the last group. */
  function Missing(n: nat): nat {
    if n % 3 == 0 then 0 else 3 - n % 3
  }

  function Encode(d: seq<Byte>): seq<Byte> {
    Letters(SextetsOf(d)) + Pads(Missing(|d|))
  }

  lemma {:induction false} SextetsLength(d: seq<Byte>)
    ensures |SextetsOf(d)| + Missing(|d|) == (|d| + 2) / 3 * 4
  {
    if |d| > 2 {
      SextetsLength(d[3..]);
      assert (|d| + 2) / 3 == (|d[3..]| + 2) / 3 + 1 && Missing(|d|) == Missing(|d[3..]|);
    }
  }

  lemma {:induction false} SextetsConcat(s: seq<Byte>, t: seq<Byte>)
    requires |s| % 3 == 0
    ensures SextetsOf(s + t) == SextetsOf(s) + SextetsOf(t)
    decreases |s|
  {
    if s == [] {
      assert s + t == t;
    } else {
      SextetsConcat(s[3..], t);
      assert (s + t)[3..] == s[3..] + t;
      Assoc(Group(s[0], s[1], s[2]), SextetsOf(s[3..]), SextetsOf(t));
    }
  }

  lemma LettersConcat(x: seq<Sextet>, y: seq<Sextet>)
    ensures Letters(x + y) == Letters(x) + Letters(y)
  {
  }

  // ---------- The encoder's loop ----------

  /** The output buffer and how far it is written. */
  class Writer {
    const buffer: array<Byte>
    var used: nat

    constructor (size: nat)
      ensures fresh(buffer) && buffer.Length == size && used == 0
    {
      buffer := new Byte[size];
      used := 0;
    }

    ghost function Written(): seq<Byte>
      requires used <= buffer.Length
      reads this, buffer
    {
      buffer[..used]
    }

    method Put(c: Byte)
      requires used < buffer.Length
      modifies this, buffer
      ensures used == old(used) + 1 && Written() == old(Written()) + [c]
    {
      buffer[used] := c;
      used := used + 1;
    }

    method PutFour(a: Byte, b: Byte, c: Byte, d: Byte)
      requires used + 4 <= buffer.Length
      modifies this, buffer
      ensures used == old(used) + 4 && Written() == old(Written()) + [a, b, c, d]
    {
      Put(a);
      Put(b);
      Put(c);
      Put(d);
    }
  }

  /** The allocation is large enough for the text and the terminator; the result is what was written. */
  method EncodeToBuffer(data: seq<Byte>) returns (r: seq<Byte>)
    ensures r == Encode(data)
    ensures |r| == (|data| + 2) / 3 * 4
  {
    var out := new Writer(((|data| + 2) / 3 + 1) * 4);
    var i := 0;
    while |data| - i > 2
      invariant 0 <= i <= |data| && i % 3 == 0
      invariant fresh(out) && fresh(out.buffer) && out.buffer.Length == ((|data| + 2) / 3 + 1) * 4
      invariant out.used == i / 3 * 4 && out.Written() == Letters(SextetsOf(data[..i]))
    {
      GroupNext(data, i);
      out.PutFour(Letter(Sextet0(data[i])), Letter(Sextet1(data[i], data[i + 1])),
                  Letter(Sextet2(data[i + 1], data[i + 2])), Letter(Sextet3(data[i + 2])));
      i := i + 3;
    }
    PutTail(data, i, out);
    SextetsLength(data);
    r := out.buffer[..out.used];
    out.buffer[out.used] := 0;
  }

  /** The last one or two bytes, if any, with their padding. */
  method PutTail(data: seq<Byte>, i: nat, out: Writer)
    requires i % 3 == 0 && i <= |data| <= i + 2 && out.used + 4 <= out.buffer.Length
    requires out.Written() == Letters(SextetsOf(data[..i]))
    modifies out, out.buffer
    ensures out.used <= old(out.used) + 4 && out.Written() == Encode(data)
  {
    ghost var front := data[..i];
    if |data| != i {
      if |data| - i > 1 {
        EncodeTail(front, [data[i], data[i + 1]]);
        assert data == front + [data[i], data[i + 1]];
        TailText2(data[i], data[i + 1]);
        out.PutFour(Letter(Sextet0(data[i])), Letter(Sextet1(data[i], data[i + 1])),
                    Letter(Sextet2(data[i + 1], 0)), PAD);
      } else {
        EncodeTail(front, [data[i]]);
        assert data == front + [data[i]];
        TailText1(data[i]);
        out.PutFour(Letter(Sextet0(data[i])), Letter(Sextet1(data[i], 0)), PAD, PAD);
      }
    } else {
      EncodeTail(front, []);
      assert data == front + [];
    }
  }

  lemma GroupNext(data: seq<Byte>, i: nat)
    requires i % 3 == 0 && i + 2 < |data|
    ensures Letters(SextetsOf(data[..i + 3])) == Letters(SextetsOf(data[..i]))
              + [Letter(Sextet0(data[i])), Letter(Sextet1(data[i], data[i + 1])),
                 Letter(Sextet2(data[i + 1], data[i + 2])), Letter(Sextet3(data[i + 2]))]
  {
    var g := data[i..i + 3];
    assert data[..i + 3] == data[..i] + g;
    SextetsConcat(data[..i], g);
    assert g[3..] == [];
    assert SextetsOf(g) == Group(g[0], g[1], g[2]);
    LettersConcat(SextetsOf(data[..i]), SextetsOf(g));
  }

  /** What the last, short group and the padding add. */
  lemma EncodeTail(front: seq<Byte>, tail: seq<Byte>)
    requires |front| % 3 == 0
    ensures Encode(front + tail) == Letters(SextetsOf(front)) + (Letters(SextetsOf(tail)) + Pads(Missing(|tail|)))
  {
    SextetsConcat(front, tail);
    LettersConcat(SextetsOf(front), SextetsOf(tail));
    MissingTail(|front|, |tail|);
    Assoc(Letters(SextetsOf(front)), Letters(SextetsOf(tail)), Pads(Missing(|tail|)));
  }

  lemma MissingTail(n: nat, m: nat)
    requires n % 3 == 0
    ensures Missing(n + m) == Missing(m)
  {
  }

  lemma TailText1(a: Byte)
    ensures Letters(SextetsOf([a])) + Pads(2) == [Letter(Sextet0(a)), Letter(Sextet1(a, 0)), PAD, PAD]
  {
    ShortSextets(a, 0);
    LettersPads(Sextet0(a), Sextet1(a, 0), 0);
  }

  lemma TailText2(a: Byte, b: Byte)
    ensures Letters(SextetsOf([a, b])) + Pads(1)
         == [Letter(Sextet0(a)), Letter(Sextet1(a, b)), Letter(Sextet2(b, 0)), PAD]
  {
    ShortSextets(a, b);
    LettersPads(Sextet0(a), Sextet1(a, b), Sextet2(b, 0));
  }

  lemma ShortSextets(a: Byte, b: Byte)
    ensures SextetsOf([a]) == [Sextet0(a), Sextet1(a, 0)]
    ensures SextetsOf([a, b]) == [Sextet0(a), Sextet1(a, b), Sextet2(b, 0)]
  {
  }

  lemma LettersPads(a: Sextet, b: Sextet, c: Sextet)
    ensures Letters([a, b]) + Pads(2) == [Letter(a), Letter(b), PAD, PAD]
    ensures Letters([a, b, c]) + Pads(1) == [Letter(a), Letter(b), Letter(c), PAD]
  {
  }

  // ---------- What strict decoding means ----------

  predicate IsSpace(c: Byte) {
    c != PAD && ValueOf(c) == -1
  }

  /** The text without its whitespace. */
  function Clean(s: seq<Byte>): seq<Byte> {
    if s == [] then [] else Clean(Front(s)) + if IsSpace(Last(s)) then [] else [Last(s)]
  }

  /** Whitespace aside, the text is these letters followed by this much padding. */
  ghost predicate Spells(s: seq<Byte>, x: seq<Sextet>, padding: nat) {
    Clean(s) == Letters(x) + Pads(padding)
  }

  /** No group of one letter; and padding, if any, is at most two and completes the last group. */
  predicate LegalEnd(letters: nat, padding: nat) {
    letters % 4 != 1 && (padding == 0 || (padding <= 2 && (letters + padding) % 4 == 0))
  }

  ghost predicate Legal(s: seq<Byte>, x: seq<Sextet>, padding: nat) {
    Spells(s, x, padding) && LegalEnd(|x|, padding)
  }

  /** Four items give three: what each next one completes with the one before it. */
  function Join<T, U>(x: seq<T>, f: (T, T) -> U, g: (T, T) -> U, h: (T, T) -> U): seq<U> {
    if |x| < 2 then []
    else if |x| == 2 then [f(x[0], x[1])]
    else if |x| == 3 then [f(x[0], x[1]), g(x[1], x[2])]
    else [f(x[0], x[1]), g(x[1], x[2]), h(x[2], x[3])] + Join(x[4..], f, g, h)
  }

  /** The whole bytes in a sequence of six-bit groups. */
  function BytesOf(x: seq<Sextet>): seq<Byte> {
    Join(x, Byte0, Byte1, Byte2)
  }

  /** What one more item completes: nothing, if it is the first of four. */
  function Completed<T, U>(x: seq<T>, v: T, f: (T, T) -> U, g: (T, T) -> U, h: (T, T) -> U): seq<U> {
    var r := |x| % 4;
    if r == 0 then [] else if r == 1 then [f(Last(x), v)] else if r == 2 then [g(Last(x), v)] else [h(Last(x), v)]
  }

  lemma SameCompleted<T, U>(x: seq<T>, v: T, f: (T, T) -> U, g: (T, T) -> U, h: (T, T) -> U)
    requires |x| >= 4
    ensures Completed(x[4..], v, f, g, h) == Completed(x, v, f, g, h)
  {
    var y := x[4..];
    assert |y| % 4 == |x| % 4 && (y != [] ==> Last(y) == Last(x));
  }

  lemma {:induction false} JoinNext<T, U>(x: seq<T>, v: T, f: (T, T) -> U, g: (T, T) -> U, h: (T, T) -> U)
    ensures Join(x + [v], f, g, h) == Join(x, f, g, h) + Completed(x, v, f, g, h)
    decreases |x|
  {
    if |x| >= 4 {
      var y, z, head := x[4..], x + [v], [f(x[0], x[1]), g(x[1], x[2]), h(x[2], x[3])];
      JoinNext(y, v, f, g, h);
      assert Join(x, f, g, h) == head + Join(y, f, g, h);
      assert Join(z, f, g, h) == head + Join(y + [v], f, g, h) by { assert z[4..] == y + [v]; }
      SameCompleted(x, v, f, g, h);
      Assoc(head, Join(y, f, g, h), Completed(x, v, f, g, h));
    } else if |x| == 3 {
      assert (x + [v])[4..] == [];
    }
  }

  /** The bits of the last group that do not fill a byte yet, in place at the top of one. */
  function Partial(last: Sextet, r: nat): Byte {
    if r == 1 then High0(last) else if r == 2 then High1(last) else High2(last)
  }

  lemma SpelledAt(s: seq<Byte>, x: seq<Sextet>, padding: nat, i: nat)
    requires Spells(s, x, padding)
    ensures |Clean(s)| == |x| + padding
    ensures i < |x| ==> Clean(s)[i] == Letter(x[i]) && Clean(s)[i] != PAD && ValueOf(Clean(s)[i]) == x[i]
    ensures |x| <= i < |x| + padding ==> Clean(s)[i] == PAD
  {
    if i < |x| {
      TablesAgree(x[i], 0);
    }
  }

  /** A text spells at most one sequence of letters and one amount of padding. */
  lemma SpellingIsUnique(s: seq<Byte>, x: seq<Sextet>, p: nat, y: seq<Sextet>, q: nat)
    requires Spells(s, x, p) && Spells(s, y, q)
    ensures x == y && p == q
  {
    forall i: nat ensures i < |x| && i < |y| ==> x[i] == y[i] {
      SpelledAt(s, x, p, i);
      SpelledAt(s, y, q, i);
    }
    SpelledAt(s, x, p, |y|);
    SpelledAt(s, y, q, |x|);
  }

  /** Once a character is out of place, no continuation makes the text legal. */
  lemma BadCharacter(s: seq<Byte>, k: nat, x: seq<Sextet>, p: nat, y: seq<Sextet>, q: nat)
    requires k < |s| && Spells(s[..k], x, p) && Spells(s, y, q)
    requires !IsSpace(s[k]) && s[k] != PAD
    ensures ValueOf(s[k]) >= 0 && p == 0
  {
    var m := |x| + p;
    CleanNext(s, k);
    CleanPrefix(s, k + 1);
    SpelledAt(s, y, q, m);
    if p > 0 {
      SpelledAt(s[..k], x, p, m - 1);
      SpelledAt(s, y, q, m - 1);
    }
  }

  lemma CleanNext(s: seq<Byte>, k: nat)
    requires k < |s|
    ensures Clean(s[..k + 1]) == Clean(s[..k]) + if IsSpace(s[k]) then [] else [s[k]]
  {
    assert Front(s[..k + 1]) == s[..k];
  }

  lemma {:induction false} CleanPrefix(s: seq<Byte>, k: nat)
    requires k <= |s|
    ensures Clean(s[..k]) <= Clean(s)
    decreases |s| - k
  {
    if k < |s| {
      CleanNext(s, k);
      CleanPrefix(s, k + 1);
    } else {
      assert s[..k] == s;
    }
  }

  // ---------- The decoder's loop ----------

  /** The strict decoder, writing into a buffer one longer than its input. It answers true
      exactly for the legal texts, and then has written the bytes their letters stand for. */
  method DecodeStrict(input: seq<Byte>, out: array<Byte>) returns (ok: bool, len: nat)
    requires out.Length == |input| + 1
    modifies out
    ensures ok <==> exists x, p: nat :: Legal(input, x, p)
    ensures ok ==> len < out.Length && out[len] == 0
                   && forall x, p: nat :: Legal(input, x, p) ==> out[..len] == BytesOf(x)
  {
    var i: nat, padding: nat, j: nat := 0, 0, 0;
    ghost var x: seq<Sextet> := [];
    len := 0;
    for k := 0 to |input|
      invariant i == |x| <= k && Spells(input[..k], x, padding) && Loaded(out, j, x)
    {
      var ch := input[k];
      if ch == PAD {
        SpellPad(input, k, x, padding);
        padding := padding + 1;
        continue;
      }
      var v := ValueOf(ch);
      if v == -1 {
        CleanNext(input, k);
        continue;
      }
      if v == -2 || padding > 0 {
        NeverLegal(input, k, x, padding);
        return false, 0;
      }
      SpellLetter(input, k, x);
      j := StoreSextet(out, i, j, v, x);
      x := x + [v];
      i := i + 1;
    }
    assert input[..|input|] == input;
    OnlyThisSpelling(input, x, padding);
    if i % 4 == 1 {
      return false, 0;
    }
    if padding > 0 && (padding > 2 || (i + padding) % 4 != 0) {
      return false, 0;
    }
    assert Legal(input, x, padding);
    out[j] := 0;
    return true, j;
  }

  lemma OnlyThisSpelling(s: seq<Byte>, x: seq<Sextet>, p: nat)
    requires Spells(s, x, p)
    ensures forall y, q: nat :: Legal(s, y, q) ==> y == x && q == p && LegalEnd(|x|, p)
  {
    forall y, q: nat | Legal(s, y, q) ensures y == x && q == p {
      SpellingIsUnique(s, x, p, y, q);
    }
  }

  lemma NeverLegal(s: seq<Byte>, k: nat, x: seq<Sextet>, p: nat)
    requires k < |s| && Spells(s[..k], x, p) && s[k] != PAD
    requires ValueOf(s[k]) == -2 || (ValueOf(s[k]) >= 0 && p > 0)
    ensures forall y, q: nat :: !Legal(s, y, q)
  {
    forall y, q: nat ensures !Legal(s, y, q) {
      if Legal(s, y, q) {
        BadCharacter(s, k, x, p, y, q);
      }
    }
  }

  lemma SpellPad(s: seq<Byte>, k: nat, x: seq<Sextet>, p: nat)
    requires k < |s| && Spells(s[..k], x, p) && s[k] == PAD
    ensures Spells(s[..k + 1], x, p + 1)
  {
    CleanNext(s, k);
    assert Pads(p + 1) == Pads(p) + [PAD];
    Assoc(Letters(x), Pads(p), [PAD]);
  }

  lemma SpellLetter(s: seq<Byte>, k: nat, x: seq<Sextet>)
    requires k < |s| && Spells(s[..k], x, 0) && s[k] != PAD && ValueOf(s[k]) >= 0
    ensures Spells(s[..k + 1], x + [ValueOf(s[k])], 0)
  {
    CleanNext(s, k);
    TablesAgree(0, s[k]);
    LettersConcat(x, [ValueOf(s[k])]);
    assert Letters([ValueOf(s[k])]) == [s[k]];
  }

  /** The buffer holds the whole bytes so far and, if a byte is begun, its first bits. */
  ghost predicate Loaded(out: array<Byte>, j: nat, x: seq<Sextet>)
    reads out
  {
    j == Whole(|x|) && j < out.Length && out[..j] == BytesOf(x)
    && (|x| % 4 != 0 ==> out[j] == Partial(Last(x), |x| % 4))
  }

  /** How many bytes are complete after n letters. */
  function Whole(n: nat): nat {
    n / 4 * 3 + if n % 4 == 0 then 0 else n % 4 - 1
  }

  lemma Positions(n: nat)
    ensures Whole(n + 1) == Whole(n) + if n % 4 == 0 then 0 else 1
    ensures (n + 1) % 4 == if n % 4 == 3 then 0 else n % 4 + 1
    ensures Whole(n) <= n
  {
    var q, r := n / 4, n % 4;
    assert n == 4 * q + r;
    assert (n + 1) / 4 == if r == 3 then q + 1 else q;
  }

  /** The switch over the position within the group of four; the bits that `|=` joins are disjoint. */
  method StoreSextet(out: array<Byte>, i: nat, j0: nat, v: Sextet, ghost x: seq<Sextet>) returns (j: nat)
    requires i == |x| && i + 1 < out.Length && Loaded(out, j0, x)
    modifies out
    ensures Loaded(out, j, x + [v])
  {
    JoinNext(x, v, Byte0, Byte1, Byte2);
    Positions(i);
    assert Last(x + [v]) == v;
    j := j0;
    var r := i % 4;
    if r == 0 {
      out[j] := High0(v);
    } else if r == 1 {
      j := Fill(out, j, v / 16, High1(v), Byte0(Last(x), v));
    } else if r == 2 {
      j := Fill(out, j, v / 4, High2(v), Byte1(Last(x), v));
    } else {
      j := Fill(out, j, v, out[j + 1], Byte2(Last(x), v));
    }
  }

  /** Completes the byte begun and begins the next one. */
  method Fill(out: array<Byte>, j0: nat, low: nat, high: Byte, ghost byte: Byte) returns (j: nat)
    requires j0 + 1 < out.Length && out[j0] + low == byte
    modifies out
    ensures j == j0 + 1 && out[..j] == old(out[..j0]) + [byte] && out[j] == high
  {
    out[j0] := out[j0] + low;
    j := j0 + 1;
    out[j] := high;
  }

  // ---------- Round trip ----------

  lemma {:induction false} SpellsItself(x: seq<Sextet>, padding: nat)
    ensures Spells(Letters(x) + Pads(padding), x, padding)
    decreases |x| + padding
  {
    var s := Letters(x) + Pads(padding);
    if padding > 0 {
      assert Front(s) == Letters(x) + Pads(padding - 1);
      SpellsItself(x, padding - 1);
      assert s == Front(s) + [PAD];
    } else if x != [] {
      assert Front(s) == Letters(Front(x)) + Pads(0);
      SpellsItself(Front(x), 0);
      TablesAgree(Last(x), 0);
      assert s == Front(s) + [Letter(Last(x))];
    }
  }

  lemma JoinGroup<T, U>(a: T, b: T, c: T, d: T, x: seq<T>, f: (T, T) -> U, g: (T, T) -> U, h: (T, T) -> U)
    ensures Join([a, b, c, d] + x, f, g, h) == [f(a, b), g(b, c), h(c, d)] + Join(x, f, g, h)
  {
    assert ([a, b, c, d] + x)[4..] == x;
  }

  lemma {:induction false} BytesOfSextets(d: seq<Byte>)
    ensures BytesOf(SextetsOf(d)) == d
  {
    if |d| > 2 {
      BytesOfSextets(d[3..]);
      BitsAgree(d[0], d[1], d[2]);
      JoinGroup(Sextet0(d[0]), Sextet1(d[0], d[1]), Sextet2(d[1], d[2]), Sextet3(d[2]), SextetsOf(d[3..]),
                Byte0, Byte1, Byte2);
      assert d == [d[0], d[1], d[2]] + d[3..];
    } else if |d| == 2 {
      BytesOfTwo(d);
    } else if |d| == 1 {
      BytesOfOne(d);
    }
  }

  lemma JoinShort<T, U>(a: T, b: T, c: T, f: (T, T) -> U, g: (T, T) -> U, h: (T, T) -> U)
    ensures Join([a, b], f, g, h) == [f(a, b)]
    ensures Join([a, b, c], f, g, h) == [f(a, b), g(b, c)]
  {
  }

  lemma BytesOfOne(d: seq<Byte>)
    requires |d| == 1
    ensures BytesOf(SextetsOf(d)) == d
  {
    BytesOf1(d[0]);
    assert d == [d[0]];
  }

  lemma BytesOfTwo(d: seq<Byte>)
    requires |d| == 2
    ensures BytesOf(SextetsOf(d)) == d
  {
    BytesOf2(d[0], d[1]);
    assert d == [d[0], d[1]];
  }

  lemma BytesOf1(a: Byte)
    ensures BytesOf(SextetsOf([a])) == [a]
  {
    ShortSextets(a, a);
    assert Byte0(Sextet0(a), Sextet1(a, 0)) == a;
    JoinShort(Sextet0(a), Sextet1(a, 0), Sextet0(a), Byte0, Byte1, Byte2);
  }

  lemma BytesOf2(a: Byte, b: Byte)
    ensures BytesOf(SextetsOf([a, b])) == [a, b]
  {
    ShortSextets(a, b);
    BitsAgree(a, b, 0);
    JoinShort(Sextet0(a), Sextet1(a, b), Sextet2(b, 0), Byte0, Byte1, Byte2);
  }

  lemma EncodingEnds(d: seq<Byte>)
    ensures LegalEnd(|SextetsOf(d)|, Missing(|d|))
  {
    SextetsLength(d);
    var n, p, k := |SextetsOf(d)|, Missing(|d|), (|d| + 2) / 3;
    assert n + p == k * 4 && p <= 2;
  }

  /** Every message comes back: its encoding is legal, and whatever it spells stands for the message. */
  lemma DecodeEncode(d: seq<Byte>)
    ensures exists x, p: nat :: Legal(Encode(d), x, p)
    ensures forall x, p: nat :: Legal(Encode(d), x, p) ==> BytesOf(x) == d
  {
    var x, p := SextetsOf(d), Missing(|d|);
    SpellsItself(x, p);
    EncodingEnds(d);
    BytesOfSextets(d);
    assert Legal(Encode(d), x, p);
    OnlyThisSpelling(Encode(d), x, p);
  }

  /** The two loops run one after the other return every message. */
  method EncodeThenDecode(data: seq<Byte>) returns (ok: bool, back: seq<Byte>)
    ensures ok && back == data
  {
    var text := EncodeToBuffer(data);
    var out := new Byte[|text| + 1];
    var len;
    ok, len := DecodeStrict(text, out);
    DecodeEncode(data);
    ghost var x, p: nat :| Legal(text, x, p);
    back := out[..len];
  }
}
