/** Cutting the byte stream from the client into lines: `xdebug_fd_read_line_delim`. */
module LineReader {
  import opened Wrappers
  import opened Subsequences

  type Bytes = seq<char>

  const MAX_PACKET_SIZE := 64 * 1024

  /** The most that one call to `recv` gives. */
  const READ_BUFFER_SIZE := 128

  /** What a call to `recv` gives: some bytes (none means the peer closed), an interruption, or an error. */
  datatype Recv = Data(bytes: Bytes) | Interrupted | Failed

  datatype Outcome = Line(line: Bytes) | Ended | Overflow

  /** The result of one read: what is returned, what stays buffered, what is still to come. */
  datatype Read = Read(outcome: Outcome, buffer: Bytes, input: seq<Recv>)

  function FirstIndex(s: Bytes, delim: char): (i: nat)
    ensures i <= |s| && delim !in s[..i] && (i < |s| ==> s[i] == delim)
  {
    if s == [] || s[0] == delim then 0
    else
      var i := 1 + FirstIndex(s[1..], delim);
      assert s[..i] == [s[0]] + s[1..][..i - 1];
      i
  }

  /** Bytes are gathered until the buffer ends with a delimiter; then its first line is cut off. */
  function ReadLine(buffer: Bytes, input: seq<Recv>, delim: char): Read
    decreases |input|
  {
    if buffer != [] && Last(buffer) == delim then
      var i := FirstIndex(buffer, delim);
      Read(Line(buffer[..i]), if i < |buffer| then buffer[i + 1..] else [], input)
    else if input == [] then Read(Ended, [], [])
    else
      match input[0]
      case Interrupted => ReadLine(buffer, input[1..], delim)
      case Failed => Read(Ended, [], input[1..])
      case Data(bytes) =>
        if bytes == [] then Read(Ended, [], input[1..])
        else if |buffer| + |bytes| + 1 > MAX_PACKET_SIZE then Read(Overflow, [], input[1..])
        else ReadLine(buffer + bytes, input[1..], delim)
  }

  /** The receive buffer of a connection, and what the socket will deliver. */
  class Connection {
    var buffer: Option<Bytes>
    var input: seq<Recv>

    constructor (input: seq<Recv>)
      ensures buffer == None && this.input == input
    {
      buffer := None;
      this.input := input;
    }

    ghost function Buffered(): Bytes
      reads this
    {
      if buffer.Some? then buffer.value else []
    }

    method ReadLineDelim(delim: char) returns (line: Outcome)
      modifies this
      ensures Read(line, Buffered(), input) == ReadLine(old(Buffered()), old(input), delim)
    {
      if buffer.None? {
        buffer := Some([]);
      }
      while buffer.Some? && (|buffer.value| < 1 || buffer.value[|buffer.value| - 1] != delim)
        invariant buffer.Some?
        invariant ReadLine(buffer.value, input, delim) == ReadLine(old(Buffered()), old(input), delim)
        decreases |input|
      {
        if input == [] {
          buffer := None;
          return Ended;
        }
        var next := input[0];
        input := input[1..];
        if next.Data? && next.bytes != [] {
          if |buffer.value| + |next.bytes| + 1 > MAX_PACKET_SIZE {
            buffer := None;
            return Overflow;
          }
          buffer := Some(buffer.value + next.bytes);
        } else if next.Interrupted? {
        } else {
          buffer := None;
          return Ended;
        }
      }
      var size := FirstIndex(buffer.value, delim);
      var tmp := buffer.value[..size];
      var left := |buffer.value| - size - 1;
      buffer := if left > 0 then Some(buffer.value[size + 1..]) else None;
      return Line(tmp);
    }
  }

  // ---------- What the stream consists of ----------

  /** All bytes that are delivered before the peer closes or fails. */
  function Stream(input: seq<Recv>): Bytes {
    if input == [] then []
    else
      match input[0]
      case Interrupted => Stream(input[1..])
      case Failed => []
      case Data(bytes) => if bytes == [] then [] else bytes + Stream(input[1..])
  }

  predicate Open(input: seq<Recv>) {
    forall i :: 0 <= i < |input| ==> !input[i].Failed? && input[i] != Data([])
  }

  /** The complete lines of a text, without their delimiters. */
  function Lines(s: Bytes, delim: char): seq<Bytes>
    decreases |s|
  {
    var i := FirstIndex(s, delim);
    if i == |s| then [] else [s[..i]] + Lines(s[i + 1..], delim)
  }

  /** One read that returns a line takes exactly that line and its delimiter off the stream. */
  lemma {:induction false} ReadConserves(buffer: Bytes, input: seq<Recv>, delim: char)
    ensures var r := ReadLine(buffer, input, delim);
            r.outcome.Line? ==>
              && buffer + Stream(input) == r.outcome.line + [delim] + (r.buffer + Stream(r.input))
              && delim !in r.outcome.line
              && (r.buffer != [] ==> Last(r.buffer) == delim)
              && (Open(input) ==> Open(r.input))
              && |r.input| <= |input|
    decreases |input|
  {
    if buffer != [] && Last(buffer) == delim {
      CutConserves(buffer, Stream(input), delim);
    } else if input != [] {
      var next := input[0];
      assert Open(input) ==> Open(input[1..]);
      if next.Interrupted? {
        ReadConserves(buffer, input[1..], delim);
      } else if next.Data? && next.bytes != [] {
        ReadConserves(buffer + next.bytes, input[1..], delim);
        Assoc(buffer, next.bytes, Stream(input[1..]));
      }
    }
  }

  lemma CutConserves(buffer: Bytes, more: Bytes, delim: char)
    requires buffer != [] && Last(buffer) == delim
    ensures var i := FirstIndex(buffer, delim);
            && i < |buffer|
            && buffer + more == buffer[..i] + [delim] + (buffer[i + 1..] + more)
            && (buffer[i + 1..] != [] ==> Last(buffer[i + 1..]) == delim)
  {
    assert FirstIndex(buffer, delim) < |buffer| by { assert buffer[|buffer| - 1] == delim; }
    var i := FirstIndex(buffer, delim);
    var line, rest := buffer[..i], buffer[i + 1..];
    assert buffer == line + [delim] + rest;
    Assoc(line + [delim], rest, more);
  }

  lemma {:induction false} IndexAfter(line: Bytes, delim: char, rest: Bytes)
    requires delim !in line
    ensures FirstIndex(line + [delim] + rest, delim) == |line|
  {
    var s := line + [delim] + rest;
    if line == [] {
      assert s[0] == delim;
    } else {
      assert line[0] in line && s[1..] == line[1..] + [delim] + rest;
      IndexAfter(line[1..], delim, rest);
    }
  }

  lemma LinesHead(line: Bytes, delim: char, rest: Bytes)
    requires delim !in line
    ensures Lines(line + [delim] + rest, delim) == [line] + Lines(rest, delim)
  {
    var s := line + [delim] + rest;
    IndexAfter(line, delim, rest);
    assert s[..|line|] == line && s[|line| + 1..] == rest;
  }

  // ---------- Reading again and again ----------

  datatype Session = Session(lines: seq<Bytes>, end: Outcome)

  /** All lines handed out until a read returns none, and why it did. */
  function ReadAll(buffer: Bytes, input: seq<Recv>, delim: char): Session
    decreases |buffer| + |Stream(input)|
  {
    var r := ReadLine(buffer, input, delim);
    ReadConserves(buffer, input, delim);
    if r.outcome.Line? then
      assert |buffer + Stream(input)| == |r.outcome.line + [delim] + (r.buffer + Stream(r.input))|;
      var s := ReadAll(r.buffer, r.input, delim);
      s.(lines := [r.outcome.line] + s.lines)
    else Session([], r.outcome)
  }

  // ---------- Which bytes are handed out ----------

  /** The bytes that will leave in lines: up to the last point at which what has been gathered
      ends with a delimiter, before the peer closes, the connection fails, or too much has been
      gathered since such a point for one packet. */
  function Settled(pending: Bytes, input: seq<Recv>, delim: char): Bytes
    decreases |input|, |pending|
  {
    if pending != [] && Last(pending) == delim then pending + Settled([], input, delim)
    else if input == [] then []
    else
      match input[0]
      case Interrupted => Settled(pending, input[1..], delim)
      case Failed => []
      case Data(bytes) =>
        if bytes == [] || |pending| + |bytes| + 1 > MAX_PACKET_SIZE then []
        else Settled(pending + bytes, input[1..], delim)
  }

  /** Every chunk, with what has been gathered since the last delimiter at the end of a chunk,
      is within the packet limit. */
  predicate Fits(pending: Bytes, input: seq<Recv>, delim: char)
    decreases |input|, |pending|
  {
    if pending != [] && Last(pending) == delim then Fits([], input, delim)
    else if input == [] then true
    else
      match input[0]
      case Interrupted => Fits(pending, input[1..], delim)
      case Failed => true
      case Data(bytes) =>
        bytes == [] || (|pending| + |bytes| + 1 <= MAX_PACKET_SIZE && Fits(pending + bytes, input[1..], delim))
  }

  /** Made of whole lines. */
  predicate Whole(s: Bytes, delim: char) {
    s == [] || Last(s) == delim
  }

  /** The text that such lines make up. */
  function Joined(lines: seq<Bytes>, delim: char): Bytes {
    if lines == [] then [] else lines[0] + [delim] + Joined(lines[1..], delim)
  }

  ghost predicate AreLines(lines: seq<Bytes>, delim: char) {
    forall i :: 0 <= i < |lines| ==> delim !in lines[i]
  }

  lemma {:induction false} LinesOfJoined(lines: seq<Bytes>, delim: char)
    requires AreLines(lines, delim)
    ensures Lines(Joined(lines, delim), delim) == lines
  {
    if lines != [] {
      LinesOfJoined(lines[1..], delim);
      LinesHead(lines[0], delim, Joined(lines[1..], delim));
    }
  }

  /** A buffer that ends with a delimiter gives up its first line. */
  lemma CutSession(buffer: Bytes, input: seq<Recv>, delim: char) returns (line: Bytes, rest: Bytes)
    requires buffer != [] && Last(buffer) == delim
    ensures buffer == line + [delim] + rest && delim !in line && Whole(rest, delim)
    ensures ReadAll(buffer, input, delim) == var s := ReadAll(rest, input, delim); s.(lines := [line] + s.lines)
  {
    CutConserves(buffer, [], delim);
    CutConserves(buffer, Stream(input), delim);
    var i := FirstIndex(buffer, delim);
    line, rest := buffer[..i], buffer[i + 1..];
  }

  lemma CutSettled(line: Bytes, rest: Bytes, input: seq<Recv>, delim: char)
    requires Whole(rest, delim)
    ensures var buffer := line + [delim] + rest;
            && Settled(buffer, input, delim) == line + [delim] + Settled(rest, input, delim)
            && Fits(buffer, input, delim) == Fits(rest, input, delim)
  {
    var buffer := line + [delim] + rest;
    if rest == [] {
      assert buffer == line + [delim];
    } else {
      assert Last(buffer) == Last(rest);
      Assoc(line + [delim], rest, Settled([], input, delim));
    }
  }

  /** A chunk that is taken goes to the end of the buffer. */
  lemma TakesChunk(buffer: Bytes, input: seq<Recv>, delim: char)
    requires buffer == [] || Last(buffer) != delim
    requires input != [] && input[0].Data? && input[0].bytes != []
    requires |buffer| + |input[0].bytes| + 1 <= MAX_PACKET_SIZE
    ensures var more := buffer + input[0].bytes;
            && ReadAll(buffer, input, delim) == ReadAll(more, input[1..], delim)
            && Settled(buffer, input, delim) == Settled(more, input[1..], delim)
            && Fits(buffer, input, delim) == Fits(more, input[1..], delim)
            && |more| + |Stream(input[1..])| == |buffer| + |Stream(input)|
  {
    assert ReadLine(buffer, input, delim) == ReadLine(buffer + input[0].bytes, input[1..], delim);
  }

  lemma EndsSession(buffer: Bytes, input: seq<Recv>, delim: char)
    requires buffer == [] || Last(buffer) != delim
    requires input == [] || input[0].Failed? || input[0] == Data([])
             || (input[0].Data? && |buffer| + |input[0].bytes| + 1 > MAX_PACKET_SIZE)
    ensures ReadAll(buffer, input, delim) == Session([], if Fits(buffer, input, delim) then Ended else Overflow)
    ensures Settled(buffer, input, delim) == []
  {
  }

  lemma {:induction false} SessionJoins(buffer: Bytes, input: seq<Recv>, delim: char)
    ensures var s := ReadAll(buffer, input, delim);
            && AreLines(s.lines, delim) && Joined(s.lines, delim) == Settled(buffer, input, delim)
            && s.end == if Fits(buffer, input, delim) then Ended else Overflow
    decreases |buffer| + |Stream(input)|, |input|
  {
    if buffer != [] && Last(buffer) == delim {
      var line, rest := CutSession(buffer, input, delim);
      CutSettled(line, rest, input, delim);
      SessionJoins(rest, input, delim);
    } else if input != [] && input[0].Interrupted? {
      SessionJoins(buffer, input[1..], delim);
    } else if input != [] && input[0].Data? && input[0].bytes != []
              && |buffer| + |input[0].bytes| + 1 <= MAX_PACKET_SIZE {
      TakesChunk(buffer, input, delim);
      SessionJoins(buffer + input[0].bytes, input[1..], delim);
    } else {
      EndsSession(buffer, input, delim);
    }
  }

  /** A session hands out exactly the lines of what settles, and fails exactly if too much has
      been gathered for one packet. */
  lemma SessionReadsSettled(buffer: Bytes, input: seq<Recv>, delim: char)
    ensures ReadAll(buffer, input, delim)
         == Session(Lines(Settled(buffer, input, delim), delim), if Fits(buffer, input, delim) then Ended else Overflow)
  {
    SessionJoins(buffer, input, delim);
    LinesOfJoined(ReadAll(buffer, input, delim).lines, delim);
  }

  /** What settles is made of whole lines, at the head of the stream. */
  lemma {:induction false} SettledHead(pending: Bytes, input: seq<Recv>, delim: char)
    ensures var settled := Settled(pending, input, delim);
            settled <= pending + Stream(input) && Whole(settled, delim)
    decreases |input|, |pending|
  {
    if pending != [] && Last(pending) == delim {
      SettledHead([], input, delim);
      assert [] + Stream(input) == Stream(input);
    } else if input != [] {
      var next := input[0];
      if next.Interrupted? {
        SettledHead(pending, input[1..], delim);
      } else if next.Data? && next.bytes != [] && |pending| + |next.bytes| + 1 <= MAX_PACKET_SIZE {
        SettledHead(pending + next.bytes, input[1..], delim);
        Assoc(pending, next.bytes, Stream(input[1..]));
      }
    }
  }

  lemma {:induction false} LinesConcat(a: Bytes, b: Bytes, delim: char)
    requires Whole(a, delim)
    ensures Lines(a + b, delim) == Lines(a, delim) + Lines(b, delim)
    decreases |a|
  {
    if a == [] {
      assert a + b == b;
    } else {
      CutConserves(a, b, delim);
      var i := FirstIndex(a, delim);
      var line, rest := a[..i], a[i + 1..];
      LinesHead(line, delim, rest + b);
      LinesConcat(rest, b, delim);
      Assoc([line], Lines(rest, delim), Lines(b, delim));
    }
  }

  lemma NoLinesIff(s: Bytes, delim: char)
    ensures Lines(s, delim) == [] <==> delim !in s
  {
    var i := FirstIndex(s, delim);
    if i == |s| {
      assert s[..i] == s;
    } else {
      assert s[i] in s;
    }
  }

  lemma SettledLines(buffer: Bytes, input: seq<Recv>, delim: char)
    ensures Settled(buffer, input, delim) <= buffer + Stream(input)
    ensures var total := buffer + Stream(input);
            Lines(total, delim)
            == ReadAll(buffer, input, delim).lines + Lines(total[|Settled(buffer, input, delim)|..], delim)
  {
    var settled, total := Settled(buffer, input, delim), buffer + Stream(input);
    SettledHead(buffer, input, delim);
    SessionReadsSettled(buffer, input, delim);
    TakeLines(settled, total, delim);
  }

  lemma TakeLines(a: Bytes, b: Bytes, delim: char)
    requires a <= b && Whole(a, delim)
    ensures Lines(b, delim) == Lines(a, delim) + Lines(b[|a|..], delim)
  {
    assert a + b[|a|..] == b;
    LinesConcat(a, b[|a|..], delim);
  }

  /** The lines handed out are always the first lines of the stream. */
  lemma SessionReadsLines(buffer: Bytes, input: seq<Recv>, delim: char)
    ensures ReadAll(buffer, input, delim).lines <= Lines(buffer + Stream(input), delim)
  {
    SettledLines(buffer, input, delim);
  }

  /** They are all of them exactly if what does not settle holds no delimiter. */
  lemma AllLinesAreReadIff(buffer: Bytes, input: seq<Recv>, delim: char)
    ensures Settled(buffer, input, delim) <= buffer + Stream(input)
    ensures var total := buffer + Stream(input);
            ReadAll(buffer, input, delim).lines == Lines(total, delim)
            <==> delim !in total[|Settled(buffer, input, delim)|..]
  {
    var total := buffer + Stream(input);
    SettledLines(buffer, input, delim);
    NoLinesIff(total[|Settled(buffer, input, delim)|..], delim);
  }

  /** Of two ways to cut the same bytes into chunks, one hands out the first lines of the other;
      both hand out the same lines exactly if the same number of bytes settles. */
  lemma ChunkingIsInvisible(input1: seq<Recv>, input2: seq<Recv>, delim: char)
    requires Stream(input1) == Stream(input2)
    ensures var a, b := ReadAll([], input1, delim).lines, ReadAll([], input2, delim).lines;
            && (a <= b || b <= a)
            && (a == b <==> |Settled([], input1, delim)| == |Settled([], input2, delim)|)
  {
    var s1, s2 := Settled([], input1, delim), Settled([], input2, delim);
    SessionReadsLines([], input1, delim);
    SessionReadsLines([], input2, delim);
    SettledHead([], input1, delim);
    SettledHead([], input2, delim);
    SessionReadsSettled([], input1, delim);
    SessionReadsSettled([], input2, delim);
    var total := [] + Stream(input1);
    assert s1 <= total && s2 <= total;
    if |s1| <= |s2| {
      PrefixesAgree(s1, s2, total);
      MoreSettles(s1, s2, delim);
    } else {
      PrefixesAgree(s2, s1, total);
      MoreSettles(s2, s1, delim);
    }
  }

  lemma PrefixesAgree(a: Bytes, b: Bytes, total: Bytes)
    requires a <= total && b <= total && |a| <= |b|
    ensures a <= b
  {
    assert total[..|a|] == a && total[..|b|] == b;
  }

  lemma MoreSettles(a: Bytes, b: Bytes, delim: char)
    requires a <= b && Whole(a, delim) && Whole(b, delim)
    ensures Lines(a, delim) == Lines(b, delim) <==> |a| == |b|
  {
    if |a| < |b| {
      TakeLines(a, b, delim);
      EndsInLine(b[|a|..], delim);
    } else {
      assert b == a;
    }
  }

  lemma EndsInLine(s: Bytes, delim: char)
    requires s != [] && Last(s) == delim
    ensures |Lines(s, delim)| > 0
  {
    NoLinesIff(s, delim);
    assert s[|s| - 1] in s;
  }

  lemma SamePrefix(p: Bytes, a: Bytes, b: Bytes, delim: char)
    requires Whole(p, delim)
    ensures p + a == p + b <==> a == b
    ensures Whole(p + b, delim) <==> Whole(b, delim)
  {
    assert (p + a)[|p|..] == a && (p + b)[|p|..] == b;
    if b == [] {
      assert p + b == p;
    }
  }

  /** On a connection that stays open everything settles exactly if the stream is made of whole
      lines and every line fits. */
  lemma {:induction false} AllSettlesIff(pending: Bytes, input: seq<Recv>, delim: char)
    requires Open(input)
    ensures Settled(pending, input, delim) == pending + Stream(input)
            <==> Fits(pending, input, delim) && Whole(pending + Stream(input), delim)
    decreases |input|, |pending|
  {
    var total := pending + Stream(input);
    SettledHead(pending, input, delim);
    if pending != [] && Last(pending) == delim {
      AllSettlesIff([], input, delim);
      assert [] + Stream(input) == Stream(input);
      SamePrefix(pending, Settled([], input, delim), Stream(input), delim);
    } else if input == [] {
      assert total == pending;
    } else {
      var next := input[0];
      assert next != Data([]);
      assert Open(input[1..]);
      if next.Interrupted? {
        AllSettlesIff(pending, input[1..], delim);
      } else {
        AllSettlesIff(pending + next.bytes, input[1..], delim);
        Assoc(pending, next.bytes, Stream(input[1..]));
      }
    }
  }

  /** A stream of whole lines on a connection that stays open is handed out completely if and
      only if every chunk is within the packet limit, whatever the chunks. */
  lemma WholeLinesAreReadIff(input: seq<Recv>, delim: char)
    requires Open(input) && Whole(Stream(input), delim)
    ensures Fits([], input, delim) ==> ReadAll([], input, delim) == Session(Lines(Stream(input), delim), Ended)
    ensures ReadAll([], input, delim).lines == Lines(Stream(input), delim) <==> Fits([], input, delim)
  {
    var settled, total := Settled([], input, delim), Stream(input);
    assert [] + total == total;
    SessionReadsSettled([], input, delim);
    SettledHead([], input, delim);
    AllSettlesIff([], input, delim);
    MoreSettles(settled, total, delim);
    assert |settled| == |total| ==> settled == total;
  }

  /** A complete line is lost when its chunk goes on and the connection then closes: lines are
      only cut off once the buffer ends with a delimiter. The chunk can be received in one call. */
  lemma UnfinishedChunkHidesLine(line: Bytes, more: Bytes, delim: char, input: seq<Recv>)
    requires delim !in line && delim !in more && more != [] && |line| + 1 + |more| <= READ_BUFFER_SIZE
    requires input == [Data(line + [delim] + more), Data([])]
    ensures Lines(Stream(input), delim) == [line] && ReadAll([], input, delim).lines == []
  {
    var chunk := line + [delim] + more;
    ReadsNothing(chunk, delim, input);
    LinesHead(line, delim, more);
    assert more[..|more|] == more;
    assert Lines(more, delim) == [];
  }

  lemma ReadsNothing(chunk: Bytes, delim: char, input: seq<Recv>)
    requires input == [Data(chunk), Data([])]
    requires chunk != [] && Last(chunk) != delim && |chunk| < MAX_PACKET_SIZE
    ensures Stream(input) == chunk && ReadAll([], input, delim).lines == []
  {
    var closing := input[1..];
    assert closing == [Data([])] && [] + chunk == chunk && chunk + [] == chunk;
    assert ReadLine(chunk, closing, delim).outcome == Ended;
  }

  /** As long as all that is received fits in one packet, nothing is too large. */
  lemma {:induction false} SmallStreamsFit(buffer: Bytes, input: seq<Recv>, delim: char)
    requires |buffer| + |Stream(input)| < MAX_PACKET_SIZE
    ensures ReadLine(buffer, input, delim).outcome != Overflow
    ensures Fits(buffer, input, delim)
    decreases |input|, |buffer|
  {
    if buffer != [] && Last(buffer) == delim {
      SmallStreamsFit([], input, delim);
    } else if input != [] {
      var next := input[0];
      if next.Interrupted? {
        SmallStreamsFit(buffer, input[1..], delim);
      } else if next.Data? && next.bytes != [] {
        SmallStreamsFit(buffer + next.bytes, input[1..], delim);
      }
    }
  }
}
