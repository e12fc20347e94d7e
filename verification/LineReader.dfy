/**
 Lines of a byte stream under a limit. Text is a sequence of decoded code points, each some bytes of UTF-8; the decoder
 never cuts one. The lines do not depend on how the stream is cut into reads, and neither does the failure.
 */
module LineReader {
  import opened Sequences

  type CodePoint = c: int | 0 <= c < 0x11_0000

  type Line = seq<CodePoint>

  const LF: CodePoint := 0x0A

  /** The bytes of a code point in UTF-8. */
  function Width(c: CodePoint): (n: nat)
    ensures 1 <= n <= 4
  {
    if c < 0x80 then 1 else if c < 0x800 then 2 else if c < 0x1_0000 then 3 else 4
  }

  function Size(s: Line): nat {
    if s == [] then 0 else Size(s[..|s| - 1]) + Width(s[|s| - 1])
  }

  lemma {:induction false} SizeJoin(a: Line, b: Line)
    ensures Size(a + b) == Size(a) + Size(b)
    decreases |b|
  {
    if b == [] {
      assert a + b == a;
    } else {
      var n := |b| - 1;
      assert (a + b)[..|a| + n] == a + b[..n] && (a + b)[|a| + n] == b[n];
      SizeJoin(a, b[..n]);
    }
  }

  // ----- The whole text

  /** The lines that a newline ends. */
  function Lines(s: Line): seq<Line> {
    LinesFrom([], s)
  }

  /** The lines of `s` when the first of them begins with `line`. */
  function LinesFrom(line: Line, s: Line): seq<Line>
    decreases |s|
  {
    if s == [] then []
    else if s[0] == LF then [line] + LinesFrom([], s[1..])
    else LinesFrom(line + [s[0]], s[1..])
  }

  /** What follows the last newline. */
  function Tail(s: Line): Line {
    TailFrom([], s)
  }

  function TailFrom(line: Line, s: Line): Line
    decreases |s|
  {
    if s == [] then line else if s[0] == LF then TailFrom([], s[1..]) else TailFrom(line + [s[0]], s[1..])
  }

  predicate AllFit(maximum: nat, lines: seq<Line>) {
    forall i :: 0 <= i < |lines| ==> Size(lines[i]) <= maximum
  }

  /** Every line and the unterminated tail are within the limit. */
  predicate Fits(maximum: nat, line: Line, s: Line) {
    AllFit(maximum, LinesFrom(line, s)) && Size(TailFrom(line, s)) <= maximum
  }

  datatype Pushed = Lines(lines: seq<Line>, pending: Line) | Oversized

  /** One push after an unterminated line, as the whole text says. */
  function PushedOf(maximum: nat, pending: Line, chunk: Line): Pushed {
    if Fits(maximum, pending, chunk) then Pushed.Lines(LinesFrom(pending, chunk), TailFrom(pending, chunk)) else Oversized
  }

  lemma {:induction false} FitsNext(maximum: nat, line: Line, s: Line)
    requires s != []
    ensures Fits(maximum, line, s) <==>
      if s[0] == LF then Size(line) <= maximum && Fits(maximum, [], s[1..]) else Fits(maximum, line + [s[0]], s[1..])
  {
    if s[0] == LF {
      var rest := LinesFrom([], s[1..]);
      assert LinesFrom(line, s) == [line] + rest;
      AllFitFirst(maximum, line, rest);
    }
  }

  lemma {:induction false} AllFitFirst(maximum: nat, line: Line, rest: seq<Line>)
    ensures AllFit(maximum, [line] + rest) <==> Size(line) <= maximum && AllFit(maximum, rest)
  {
    assert ([line] + rest)[0] == line;
    assert forall i :: 0 <= i < |rest| ==> ([line] + rest)[i + 1] == rest[i];
  }

  /** A line that is already too long never fits, whatever follows. */
  lemma {:induction false} TooLongNeverFits(maximum: nat, line: Line, s: Line)
    requires Size(line) > maximum
    ensures !Fits(maximum, line, s)
    decreases |s|
  {
    if s != [] {
      FitsNext(maximum, line, s);
      if s[0] != LF {
        SizeJoin(line, [s[0]]);
        TooLongNeverFits(maximum, line + [s[0]], s[1..]);
      }
    }
  }

  /** Units without a newline lengthen the first line. */
  lemma {:induction false} Segment(line: Line, segment: Line, rest: Line)
    requires LF !in segment
    ensures LinesFrom(line, segment + rest) == LinesFrom(line + segment, rest)
    ensures TailFrom(line, segment + rest) == TailFrom(line + segment, rest)
    decreases |segment|
  {
    if segment == [] {
      assert segment + rest == rest && line + segment == line;
    } else {
      assert segment[0] in segment;
      assert (segment + rest)[1..] == segment[1..] + rest;
      assert (line + [segment[0]]) + segment[1..] == line + segment;
      Segment(line + [segment[0]], segment[1..], rest);
    }
  }

  // ----- The reader

  class Reader {
    const maximum: nat
    var pending: Line

    constructor (maximum: nat)
      ensures this.maximum == maximum && pending == []
    {
      this.maximum := maximum;
      pending := [];
    }

    /** Adds a segment to the pending line, unless the line would be too long. */
    method Write(segment: Line) returns (ok: bool)
      modifies this
      ensures ok == (Size(old(pending) + segment) <= maximum)
      ensures pending == if ok then old(pending) + segment else old(pending)
    {
      SizeJoin(pending, segment);
      ok := Size(pending) + Size(segment) <= maximum;
      if ok { pending := pending + segment; }
    }

    method Push(chunk: Line) returns (r: Pushed)
      requires Size(pending) <= maximum
      modifies this
      ensures r == PushedOf(maximum, old(pending), chunk)
      ensures r.Lines? ==> pending == r.pending && Size(pending) <= maximum
    {
      var lines: seq<Line> := [];
      var start := 0;
      ghost var target := PushedOf(maximum, pending, chunk);
      assert chunk[0..] == chunk;
      for index := 0 to |chunk|
        invariant start <= index && LF !in chunk[start..index] && Size(pending) <= maximum
        invariant target == Joined(lines, PushedOf(maximum, pending, chunk[start..]))
      {
        if chunk[index] != LF {
          assert chunk[start..index + 1] == chunk[start..index] + [chunk[index]];
          continue;
        }
        ghost var before := pending;
        EndsLine(maximum, pending, chunk, start, index);
        var ok := Write(chunk[start..index]);
        if !ok { return Oversized; }
        JoinedMore(lines, pending, PushedOf(maximum, [], chunk[index + 1..]));
        lines := lines + [pending];
        pending := [];
        start := index + 1;
      }
      assert chunk[start..|chunk|] == chunk[start..];
      EndsChunk(maximum, pending, chunk[start..]);
      var ok := Write(chunk[start..]);
      if !ok { return Oversized; }
      assert lines + [] == lines;
      return Pushed.Lines(lines, pending);
    }

    /** At the end of the input an unterminated line is discarded. */
    method Finish()
      modifies this
      ensures pending == []
    {
      pending := [];
    }
  }

  /** More lines in front. */
  function Joined(lines: seq<Line>, r: Pushed): Pushed {
    match r
    case Lines(more, pending) => Pushed.Lines(lines + more, pending)
    case Oversized => Oversized
  }

  lemma {:induction false} JoinedMore(lines: seq<Line>, line: Line, r: Pushed)
    ensures Joined(lines, Joined([line], r)) == Joined(lines + [line], r)
  {
    if r.Lines? {
      assert lines + ([line] + r.lines) == (lines + [line]) + r.lines;
    }
  }

  /** What a push comes to at a newline: too long a line, or that line and then the rest. */
  lemma {:induction false} EndsLine(maximum: nat, pending: Line, chunk: Line, start: nat, index: nat)
    requires start <= index < |chunk| && LF !in chunk[start..index] && chunk[index] == LF
    ensures var line := pending + chunk[start..index];
      PushedOf(maximum, pending, chunk[start..])
        == if Size(line) > maximum then Oversized
           else Joined([line], PushedOf(maximum, [], chunk[index + 1..]))
  {
    var segment, rest := chunk[start..index], chunk[index..];
    assert chunk[start..] == segment + rest;
    assert rest[1..] == chunk[index + 1..];
    Segment(pending, segment, rest);
    FitsNext(maximum, pending + segment, rest);
  }

  lemma {:induction false} EndsChunk(maximum: nat, pending: Line, segment: Line)
    requires LF !in segment
    ensures PushedOf(maximum, pending, segment)
         == if Size(pending + segment) > maximum then Oversized else Pushed.Lines([], pending + segment)
  {
    assert segment + [] == segment;
    Segment(pending, segment, []);
  }

  // ----- Any way of cutting the stream

  /** Pushes one after another, up to a failure. */
  function PushAll(maximum: nat, pending: Line, chunks: seq<Line>): Pushed
    decreases |chunks|
  {
    if chunks == [] then Pushed.Lines([], pending)
    else match PushedOf(maximum, pending, chunks[0])
      case Oversized => Oversized
      case Lines(lines, pending') => Joined(lines, PushAll(maximum, pending', chunks[1..]))
  }

  lemma {:induction false} LinesJoin(line: Line, a: Line, b: Line)
    ensures LinesFrom(line, a + b) == LinesFrom(line, a) + LinesFrom(TailFrom(line, a), b)
    ensures TailFrom(line, a + b) == TailFrom(TailFrom(line, a), b)
    decreases |a|
  {
    if a == [] {
      assert a + b == b;
      assert [] + LinesFrom(line, b) == LinesFrom(line, b);
    } else {
      assert (a + b)[1..] == a[1..] + b;
      if a[0] == LF {
        LinesJoin([], a[1..], b);
        assert [line] + (LinesFrom([], a[1..]) + LinesFrom(TailFrom([], a[1..]), b))
            == ([line] + LinesFrom([], a[1..])) + LinesFrom(TailFrom([], a[1..]), b);
      } else {
        LinesJoin(line + [a[0]], a[1..], b);
      }
    }
  }

  lemma {:induction false} AllFitJoin(maximum: nat, a: seq<Line>, b: seq<Line>)
    ensures AllFit(maximum, a + b) <==> AllFit(maximum, a) && AllFit(maximum, b)
  {
    assert forall i :: 0 <= i < |a| ==> (a + b)[i] == a[i];
    assert forall i :: 0 <= i < |b| ==> (a + b)[|a| + i] == b[i];
  }

  /** Pushing two chunks is pushing their join. */
  lemma {:induction false} PushTwo(maximum: nat, pending: Line, a: Line, b: Line)
    ensures PushedOf(maximum, pending, a + b)
         == match PushedOf(maximum, pending, a)
            case Oversized => Oversized
            case Lines(lines, pending') => Joined(lines, PushedOf(maximum, pending', b))
  {
    LinesJoin(pending, a, b);
    AllFitJoin(maximum, LinesFrom(pending, a), LinesFrom(TailFrom(pending, a), b));
    if Size(TailFrom(pending, a)) > maximum {
      TooLongNeverFits(maximum, TailFrom(pending, a), b);
    }
  }

  /** However a stream is cut, the lines are those of the whole text, and the reader fails exactly when some line or the
      unterminated tail of the whole text is over the limit. */
  lemma {:induction false} AnyCutIsWhole(maximum: nat, pending: Line, chunks: seq<Line>)
    requires Size(pending) <= maximum
    ensures PushAll(maximum, pending, chunks) == PushedOf(maximum, pending, Concat(chunks))
    decreases |chunks|
  {
    if chunks != [] {
      var first, rest := chunks[0], chunks[1..];
      PushTwo(maximum, pending, first, Concat(rest));
      if PushedOf(maximum, pending, first).Lines? {
        AnyCutIsWhole(maximum, PushedOf(maximum, pending, first).pending, rest);
      }
    }
  }

  /** From the start: the same text gives the same lines, or the same failure, for any two ways of cutting it. */
  lemma {:induction false} CutsDoNotMatter(maximum: nat, a: seq<Line>, b: seq<Line>)
    requires Concat(a) == Concat(b)
    ensures PushAll(maximum, [], a) == PushAll(maximum, [], b)
    ensures PushAll(maximum, [], a).Oversized? <==>
            !AllFit(maximum, Lines(Concat(a))) || Size(Tail(Concat(a))) > maximum
  {
    AnyCutIsWhole(maximum, [], a);
    AnyCutIsWhole(maximum, [], b);
  }

  // ----- The lines are the text

  function Terminated(lines: seq<Line>): Line {
    if lines == [] then [] else lines[0] + ([LF] + Terminated(lines[1..]))
  }

  /** The lines, each with its newline, and the tail are the text, and none of them holds a newline. */
  lemma {:induction false} LinesAreText(line: Line, s: Line)
    requires LF !in line
    ensures Terminated(LinesFrom(line, s)) + TailFrom(line, s) == line + s
    ensures LF !in TailFrom(line, s) && forall i :: 0 <= i < |LinesFrom(line, s)| ==> LF !in LinesFrom(line, s)[i]
    decreases |s|
  {
    if s == [] {
      assert [] + line == line && line + s == line;
    } else if s[0] == LF {
      var rest := LinesFrom([], s[1..]);
      LinesAreText([], s[1..]);
      assert ([line] + rest)[1..] == rest;
      assert s == [LF] + s[1..] && [] + s[1..] == s[1..];
      assert (line + ([LF] + Terminated(rest))) + TailFrom([], s[1..])
          == line + ([LF] + (Terminated(rest) + TailFrom([], s[1..])));
    } else {
      LinesAreText(line + [s[0]], s[1..]);
      assert (line + [s[0]]) + s[1..] == line + s;
    }
  }
}
