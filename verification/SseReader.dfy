/**
 Server-sent events from a stream of decoded reads. Blocks end at blank lines; as long as no read ends between a carriage
 return and its line feed, the frames are those of the whole text, however it is cut into reads. Whether the reads keep the
 limits does depend on the cut, because the buffer is measured before its blocks are taken off.
 */
module SseReader {
  import opened Utf16
  import opened Wrappers
  import opened Sequences
  import Utf8

  const MAX_EVENT_BYTES := 1024 * 1024
  const MAX_STREAM_BYTES := 8 * 1024 * 1024
  const MAX_EVENTS := 10000
  const READ_BYTES := 64 * 1024
  const BYTE_ORDER_MARK: Unit := 0xFEFF

  datatype Frame = Frame(name: Option<Text>, data: Text)

  // ----- Line endings

  /** How many units the first unit or line ending takes. */
  function First(s: Text): (k: nat)
    requires s != []
    ensures 1 <= k <= |s|
  {
    if s[0] == CR && |s| > 1 && s[1] == LF then 2 else 1
  }

  /** Replace("\r\n", "\n") and then Replace('\r', '\n'). */
  function Newlines(s: Text): Text
    decreases |s|
  {
    if s == [] then [] else [if s[0] == CR then LF else s[0]] + Newlines(s[First(s)..])
  }

  /** The join of two texts has a line ending across the cut. */
  predicate CutsLineEnding(a: Text, b: Text) {
    a != [] && b != [] && a[|a| - 1] == CR && b[0] == LF
  }

  lemma {:induction false} FirstJoin(a: Text, b: Text)
    requires a != [] && !CutsLineEnding(a, b)
    ensures First(a + b) == First(a) && (a + b)[0] == a[0] && (a + b)[First(a)..] == a[First(a)..] + b
    ensures !CutsLineEnding(a[First(a)..], b)
  {
    var s := a + b;
    assert |s| > 1 ==> s[1] == if |a| > 1 then a[1] else b[0];
  }

  lemma {:induction false} NewlinesJoin(a: Text, b: Text)
    requires !CutsLineEnding(a, b)
    ensures Newlines(a + b) == Newlines(a) + Newlines(b)
    decreases |a|
  {
    if a == [] {
      assert a + b == b;
      assert [] + Newlines(b) == Newlines(b);
    } else {
      FirstJoin(a, b);
      NewlinesJoin(a[First(a)..], b);
      PutFirst(if a[0] == CR then LF else a[0], Newlines(a[First(a)..]), Newlines(b));
    }
  }

  lemma {:induction false} PutFirst(u: Unit, a: Text, b: Text)
    ensures ([u] + a) + b == [u] + (a + b)
  {
  }

  lemma {:induction false} NewlinesFixed(s: Text)
    requires CR !in s
    ensures Newlines(s) == s
  {
    if s != [] {
      assert s[0] in s;
      assert s == [s[0]] + s[1..];
      assert CR !in s[1..];
      NewlinesFixed(s[1..]);
    }
  }

  /** A carriage return, with its line feed if it has one, becomes a line feed; every other unit stays. */
  lemma {:induction false} LineEndingsBecomeFeeds(u: Unit, s: Text)
    ensures CR !in Newlines(s)
    ensures Newlines(Units("\r\n") + s) == Units("\n") + Newlines(s)
    ensures s == [] || s[0] != '\n' as int ==> Newlines(Units("\r") + s) == Units("\n") + Newlines(s)
    ensures u != '\r' as int ==> Newlines([u] + s) == [u] + Newlines(s)
    decreases |s|
  {
    if s != [] {
      LineEndingsBecomeFeeds(u, s[First(s)..]);
    }
    assert (Units("\r\n") + s)[2..] == s && (Units("\r") + s)[1..] == s && ([u] + s)[1..] == s;
  }

  // ----- Blocks

  /** Where the first blank line begins. */
  function FindBlank(s: Text): (r: Option<nat>)
    ensures r.Some? ==> r.value + 1 < |s| && s[r.value] == LF && s[r.value + 1] == LF
  {
    if |s| < 2 then None
    else if s[0] == LF && s[1] == LF then Some(0)
    else match FindBlank(s[1..])
      case None => None
      case Some(i) => Some(i + 1)
  }

  function Blocks(s: Text): seq<Text>
    decreases |s|
  {
    match FindBlank(s)
    case None => []
    case Some(i) => [s[..i]] + Blocks(s[i + 2..])
  }

  /** What follows the last block. */
  function Rest(s: Text): Text
    decreases |s|
  {
    match FindBlank(s)
    case None => s
    case Some(i) => Rest(s[i + 2..])
  }

  lemma {:induction false} FindBlankJoin(a: Text, b: Text)
    requires FindBlank(a).Some?
    ensures FindBlank(a + b) == FindBlank(a)
  {
    assert (a + b)[0] == a[0] && (a + b)[1] == a[1];
    if !(a[0] == LF && a[1] == LF) {
      assert (a + b)[1..] == a[1..] + b;
      FindBlankJoin(a[1..], b);
    }
  }

  lemma {:induction false} BlocksStep(s: Text, i: nat)
    requires FindBlank(s) == Some(i)
    ensures Blocks(s) == [s[..i]] + Blocks(s[i + 2..]) && Rest(s) == Rest(s[i + 2..])
  {
  }

  /** A block that ends in the first text ends at the same place in the join. */
  lemma {:induction false} BlocksJoin(a: Text, b: Text)
    ensures Blocks(a + b) == Blocks(a) + Blocks(Rest(a) + b) && Rest(a + b) == Rest(Rest(a) + b)
    decreases |a|
  {
    if FindBlank(a).None? {
      assert [] + Blocks(a + b) == Blocks(a + b);
    } else {
      var i := FindBlank(a).value;
      var left := a[i + 2..];
      FindBlankJoin(a, b);
      assert (a + b)[..i] == a[..i] && (a + b)[i + 2..] == left + b;
      BlocksStep(a, i);
      BlocksStep(a + b, i);
      BlocksJoin(left, b);
      PutBlock(a[..i], Blocks(left), Blocks(Rest(left) + b));
    }
  }

  lemma {:induction false} PutBlock(block: Text, a: seq<Text>, b: seq<Text>)
    ensures ([block] + a) + b == [block] + (a + b)
  {
  }

  predicate NoBlank(s: Text) {
    forall i :: 0 <= i < |s| - 1 ==> !(s[i] == LF && s[i + 1] == LF)
  }

  /** Blocks, each before its blank line. */
  function Marked(blocks: seq<Text>): Text {
    if blocks == [] then [] else (blocks[0] + [LF, LF]) + Marked(blocks[1..])
  }

  lemma {:induction false} FindBlankIsFirst(s: Text)
    ensures FindBlank(s).None? ==> NoBlank(s)
    ensures FindBlank(s).Some? ==> NoBlank(s[..FindBlank(s).value + 1])
  {
    if |s| >= 2 && !(s[0] == LF && s[1] == LF) {
      var rest := s[1..];
      FindBlankIsFirst(rest);
      assert forall i :: 1 <= i < |s| ==> s[i] == rest[i - 1];
    }
  }

  /** No blank line begins within or at the end of a block. */
  ghost predicate AllClosed(blocks: seq<Text>) {
    forall i :: 0 <= i < |blocks| ==> NoBlank(blocks[i] + [LF])
  }

  lemma {:induction false} CutAtBlank(s: Text, i: nat)
    requires i + 1 < |s| && s[i] == LF && s[i + 1] == LF
    ensures s[..i] + [LF] == s[..i + 1] && s == (s[..i] + [LF, LF]) + s[i + 2..]
  {
  }

  lemma {:induction false} MarkedFirst(block: Text, blocks: seq<Text>, rest: Text)
    ensures Marked([block] + blocks) + rest == (block + [LF, LF]) + (Marked(blocks) + rest)
    ensures AllClosed([block] + blocks) <==> NoBlank(block + [LF]) && AllClosed(blocks)
  {
    var all := [block] + blocks;
    assert all[1..] == blocks && all[0] == block;
    Associate(block + [LF, LF], Marked(blocks), rest);
    assert forall i :: 0 <= i < |blocks| ==> blocks[i] == all[i + 1];
    assert forall i :: 0 < i < |all| ==> all[i] == blocks[i - 1];
  }

  /** The blocks with their blank lines and then the rest are the text, and no blank line is within them. */
  lemma {:induction false} BlocksAreText(s: Text)
    ensures s == Marked(Blocks(s)) + Rest(s) && NoBlank(Rest(s)) && AllClosed(Blocks(s))
    decreases |s|
  {
    FindBlankIsFirst(s);
    if FindBlank(s).None? {
      assert [] + s == s;
    } else {
      var i := FindBlank(s).value;
      CutAtBlank(s, i);
      BlocksStep(s, i);
      BlocksAreText(s[i + 2..]);
      MarkedFirst(s[..i], Blocks(s[i + 2..]), Rest(s));
    }
  }

  // ----- One block

  /** ECMAScript white space and line terminators. */
  predicate IsWhite(u: Unit) {
    || 0x09 <= u <= 0x0D || u == SPACE || u == 0xA0 || u == 0x1680 || 0x2000 <= u <= 0x200A || u == 0x2028 || u == 0x2029
    || u == 0x202F || u == 0x205F || u == 0x3000 || u == 0xFEFF
  }

  function TrimStart(s: Text): Text {
    if s != [] && IsWhite(s[0]) then TrimStart(s[1..]) else s
  }

  function TrimEnd(s: Text): Text {
    if s != [] && IsWhite(s[|s| - 1]) then TrimEnd(s[..|s| - 1]) else s
  }

  function Trim(s: Text): Text {
    TrimEnd(TrimStart(s))
  }

  function SplitLines(s: Text): (lines: seq<Text>)
    ensures lines != []
  {
    if s == [] then [[]]
    else
      var rest := SplitLines(s[1..]);
      if s[0] == LF then [[]] + rest else [[s[0]] + rest[0]] + rest[1..]
  }

  const EVENT: Text := [0x65, 0x76, 0x65, 0x6E, 0x74, COLON]
  const DATA: Text := [0x64, 0x61, 0x74, 0x61, COLON]

  /** The event's name and the data lines after reading some lines. */
  datatype Fields = Fields(name: Option<Text>, data: Option<seq<Text>>)

  function Read(f: Fields, line: Text): Fields {
    if EVENT <= line then f.(name := Some(Trim(line[|EVENT|..])))
    else if DATA <= line then
      f.(data := Some((match f.data case Some(lines) => lines case None => []) + [TrimStart(line[|DATA|..])]))
    else f
  }

  function ReadAll(f: Fields, lines: seq<Text>): Fields
    decreases |lines|
  {
    if lines == [] then f else ReadAll(Read(f, lines[0]), lines[1..])
  }

  function JoinLines(lines: seq<Text>): Text {
    if lines == [] then [] else if |lines| == 1 then lines[0] else lines[0] + ([LF] + JoinLines(lines[1..]))
  }

  function FrameOf(raw: Text): Option<Frame> {
    var f := ReadAll(Fields(None, None), SplitLines(raw));
    match f.data
    case None => None
    case Some(lines) => Some(Frame(f.name, JoinLines(lines)))
  }

  method Parse(raw: Text) returns (frame: Option<Frame>)
    ensures frame == FrameOf(raw)
  {
    var name: Option<Text> := None;
    var data: Option<seq<Text>> := None;
    var lines := SplitLines(raw);
    assert lines[0..] == lines;
    for i := 0 to |lines|
      invariant ReadAll(Fields(name, data), lines[i..]) == ReadAll(Fields(None, None), lines)
    {
      var line := lines[i];
      assert lines[i..][1..] == lines[i + 1..];
      if EVENT <= line {
        name := Some(Trim(line[|EVENT|..]));
      } else if DATA <= line {
        data := Some((match data case Some(d) => d case None => []) + [TrimStart(line[|DATA|..])]);
      }
    }
    assert lines[|lines|..] == [];
    match data
    case None => return None;
    case Some(d) => return Some(Frame(name, JoinLines(d)));
  }

  // ----- What a frame is, by the lines of its block

  lemma {:induction false} LinesAreText(s: Text)
    ensures JoinLines(SplitLines(s)) == s && forall i :: 0 <= i < |SplitLines(s)| ==> LF !in SplitLines(s)[i]
  {
    if s != [] {
      var rest := SplitLines(s[1..]);
      LinesAreText(s[1..]);
      assert s == [s[0]] + s[1..];
      if s[0] == LF {
        assert ([[]] + rest)[1..] == rest;
      } else {
        var lines := [[s[0]] + rest[0]] + rest[1..];
        if |rest| > 1 {
          Associate([s[0]], rest[0], [LF] + JoinLines(rest[1..]));
          assert lines[1..] == rest[1..];
        }
      }
    }
  }

  /** All of it is white space. */
  predicate AllWhite(s: Text) {
    forall i :: 0 <= i < |s| ==> IsWhite(s[i])
  }

  /** `t` is `s` without the white space around it. */
  ghost predicate IsTrimmed(t: Text, s: Text) {
    exists k, m :: 0 <= k <= m <= |s| && IsCore(t, s, k, m)
  }

  predicate IsCore(t: Text, s: Text, k: nat, m: nat)
    requires k <= m <= |s|
  {
    t == s[k..m] && AllWhite(s[..k]) && AllWhite(s[m..]) && (t != [] ==> !IsWhite(t[0]) && !IsWhite(t[|t| - 1]))
  }

  lemma {:induction false} TrimStartIs(s: Text) returns (k: nat)
    ensures k <= |s| && TrimStart(s) == s[k..] && AllWhite(s[..k]) && (k < |s| ==> !IsWhite(s[k]))
  {
    k := 0;
    if s != [] && IsWhite(s[0]) {
      var more := TrimStartIs(s[1..]);
      k := more + 1;
      assert s[1..][more..] == s[k..];
      assert forall i :: 1 <= i < k ==> s[i] == s[1..][..more][i - 1];
    }
  }

  lemma {:induction false} TrimEndIs(s: Text)
    ensures var t := TrimEnd(s);
      |t| <= |s| && t == s[..|t|] && AllWhite(s[|t|..]) && (t != [] ==> !IsWhite(t[|t| - 1]))
  {
    if s != [] && IsWhite(s[|s| - 1]) {
      var n := |s| - 1;
      var t := TrimEnd(s[..n]);
      TrimEndIs(s[..n]);
      assert s[|t|..] == s[..n][|t|..] + [s[n]];
    }
  }

  lemma {:induction false} TrimIs(s: Text)
    ensures IsTrimmed(Trim(s), s)
  {
    var started := TrimStart(s);
    var t := TrimEnd(started);
    var k := TrimStartIs(s);
    TrimEndIs(started);
    var m := k + |t|;
    assert s[k..m] == t && s[m..] == started[|t|..];
    assert IsCore(t, s, k, m);
  }

  /** Line `k` is the last that names the event. */
  predicate NamesEvent(lines: seq<Text>, k: nat)
    requires k < |lines|
  {
    Units("event:") <= lines[k] && forall j :: k < j < |lines| ==> !(Units("event:") <= lines[j])
  }

  /** The name that lines give an event, if any does. */
  ghost predicate IsNameOf(name: Option<Text>, lines: seq<Text>) {
    && ((forall k :: 0 <= k < |lines| ==> !(Units("event:") <= lines[k])) ==> name == None)
    && forall k :: 0 <= k < |lines| && NamesEvent(lines, k) ==> name.Some? && IsTrimmed(name.value, lines[k][6..])
  }

  /** What follows "data:" on the lines that begin with it. */
  function DataLines(lines: seq<Text>): seq<Text> {
    if lines == [] then []
    else (if Units("data:") <= lines[0] then [TrimStart(lines[0][5..])] else []) + DataLines(lines[1..])
  }

  lemma {:induction false} PrefixesAre(line: Text)
    ensures Units("event:") == EVENT && Units("data:") == DATA
    ensures !(EVENT <= line && DATA <= line)
  {
    assert EVENT[0] == 0x65 && DATA[0] == 0x64;
  }

  lemma {:induction false} DataRead(f: Fields, lines: seq<Text>)
    ensures ReadAll(f, lines).data ==
            if DataLines(lines) == [] then f.data
            else Some((match f.data case Some(d) => d case None => []) + DataLines(lines))
    decreases |lines|
  {
    if lines != [] {
      PrefixesAre(lines[0]);
      DataRead(Read(f, lines[0]), lines[1..]);
      if DATA <= lines[0] {
        Associate(match f.data case Some(d) => d case None => [], [TrimStart(lines[0][5..])], DataLines(lines[1..]));
        assert [TrimStart(lines[0][5..])] + [] == [TrimStart(lines[0][5..])];
      } else {
        assert [] + DataLines(lines[1..]) == DataLines(lines[1..]);
      }
    }
  }

  /** A name that a line gives is the last one's, and without such a line the name stays. */
  lemma {:induction false} NameRead(f: Fields, lines: seq<Text>)
    ensures forall k :: 0 <= k < |lines| && NamesEvent(lines, k) ==> ReadAll(f, lines).name == Some(Trim(lines[k][6..]))
    ensures (forall k :: 0 <= k < |lines| ==> !(Units("event:") <= lines[k])) ==> ReadAll(f, lines).name == f.name
    decreases |lines|
  {
    if lines != [] {
      var next, rest := Read(f, lines[0]), lines[1..];
      PrefixesAre(lines[0]);
      NameRead(next, rest);
      assert forall k :: 0 < k < |lines| ==> lines[k] == rest[k - 1];
      forall k | 0 <= k < |lines| && NamesEvent(lines, k)
        ensures ReadAll(f, lines).name == Some(Trim(lines[k][6..]))
      {
        if k > 0 {
          assert NamesEvent(rest, k - 1);
        } else {
          assert forall j :: 0 <= j < |rest| ==> rest[j] == lines[j + 1];
        }
      }
    }
  }

  /** A block is a frame exactly when it has a data line. Its data are what its data lines hold, one under another, and its
      name is what follows "event:" on the last line that begins so, without the white space around it. */
  lemma {:induction false} FrameIsItsLines(raw: Text)
    ensures FrameOf(raw).Some? <==> DataLines(SplitLines(raw)) != []
    ensures FrameOf(raw).Some? ==> FrameOf(raw).value.data == JoinLines(DataLines(SplitLines(raw)))
    ensures FrameOf(raw).Some? ==> IsNameOf(FrameOf(raw).value.name, SplitLines(raw))
  {
    var lines := SplitLines(raw);
    DataRead(Fields(None, None), lines);
    NameRead(Fields(None, None), lines);
    assert [] + DataLines(lines) == DataLines(lines);
    forall k | 0 <= k < |lines| && NamesEvent(lines, k)
      ensures IsTrimmed(Trim(lines[k][6..]), lines[k][6..])
    {
      TrimIs(lines[k][6..]);
    }
  }

  /** The frames of the blocks that have data. */
  function Frames(blocks: seq<Text>): seq<Frame> {
    if blocks == [] then []
    else (match FrameOf(blocks[0]) case Some(frame) => [frame] case None => []) + Frames(blocks[1..])
  }

  lemma {:induction false} FramesOne(raw: Text)
    ensures Frames([raw]) == match FrameOf(raw) case Some(frame) => [frame] case None => []
  {
    assert [raw][1..] == [];
  }

  lemma {:induction false} FramesJoin(a: seq<Text>, b: seq<Text>)
    ensures Frames(a + b) == Frames(a) + Frames(b)
  {
    if a == [] {
      assert a + b == b;
      assert [] + Frames(b) == Frames(b);
    } else {
      assert a + b != [] && (a + b)[0] == a[0] && (a + b)[1..] == a[1..] + b;
      FramesJoin(a[1..], b);
      Associate(match FrameOf(a[0]) case Some(frame) => [frame] case None => [], Frames(a[1..]), Frames(b));
    }
  }

  // ----- Reading

  /** One read: how many bytes it had, and the text they decoded to. */
  datatype Chunk = Chunk(bytes: nat, text: Text)

  datatype State = State(buffer: Text, total: nat, events: nat, started: bool)

  const START := State([], 0, 0, false)

  /** The frames a read delivers, and the state after it or no state when a limit is exceeded. */
  datatype Delivery = Delivery(frames: seq<Frame>, next: Option<State>)

  function WithoutMark(started: bool, text: Text): Text {
    if !started && text != [] && text[0] == BYTE_ORDER_MARK then text[1..] else text
  }

  /** The frames split off a buffer, and the rest of it with the count of events, unless that exceeds its limit. */
  datatype Taken = Taken(frames: seq<Frame>, left: Option<Left>)

  datatype Left = Left(buffer: Text, events: nat)

  /** Splits off blocks, up to the limit of events. */
  function TakeBlocks(buffer: Text, events: nat): Taken
    requires events <= MAX_EVENTS
  {
    var blocks := Blocks(buffer);
    if events + |blocks| <= MAX_EVENTS then Taken(Frames(blocks), Some(Left(Rest(buffer), events + |blocks|)))
    else Taken(Frames(blocks[..MAX_EVENTS - events]), None)
  }

  function DeliveryOf(s: State, chunk: Chunk): Delivery
    requires s.events <= MAX_EVENTS
  {
    var total := s.total + chunk.bytes;
    var buffer := s.buffer + Newlines(WithoutMark(s.started, chunk.text));
    if total > MAX_STREAM_BYTES || Utf8.Size(buffer) > MAX_EVENT_BYTES then Delivery([], None)
    else
      var taken := TakeBlocks(buffer, s.events);
      match taken.left
      case None => Delivery(taken.frames, None)
      case Some(left) =>
        Delivery(taken.frames, Some(State(left.buffer, total, left.events, s.started || chunk.text != [])))
  }

  class Reader {
    var state: State

    constructor ()
      ensures state == START
    {
      state := START;
    }

    /** One turn of the outer loop. */
    method Feed(chunk: Chunk) returns (frames: seq<Frame>, ok: bool)
      requires state.events <= MAX_EVENTS
      modifies this`state
      ensures var d := DeliveryOf(old(state), chunk);
        frames == d.frames && ok == d.next.Some? && (ok ==> state == d.next.value && state.events <= MAX_EVENTS)
    {
      frames := [];
      var total := state.total + chunk.bytes;
      if total > MAX_STREAM_BYTES { return frames, false; }
      var text, started := chunk.text, state.started;
      if !started && |text| > 0 {
        started := true;
        if text[0] == BYTE_ORDER_MARK { text := text[1..]; }
      }
      var buffer := state.buffer + Newlines(text);
      if Utf8.Size(buffer) > MAX_EVENT_BYTES { return frames, false; }
      var taken := Split(buffer, state.events);
      frames, ok := taken.frames, taken.left.Some?;
      if ok { state := State(taken.left.value.buffer, total, taken.left.value.events, started); }
    }

    /** One turn of the inner loop: the next block from a position in the buffer, if there is one, after those `done`. */
    method NextBlock(buffer: Text, position: nat, ghost done: seq<Text>)
      returns (block: Option<Text>, position': nat)
      requires position <= |buffer|
      ensures block.None? ==> ViewFrom(buffer, position, done) == View(done, buffer[position..])
      ensures block.Some? ==> position < position' <= |buffer|
      ensures block.Some? ==> ViewFrom(buffer, position', done + [block.value]) == ViewFrom(buffer, position, done)
    {
      var boundary := FindBlank(buffer[position..]);
      if boundary.None? {
        ViewLast(buffer, position, done);
        return None, position;
      }
      ViewMore(buffer, position, done, boundary.value);
      position' := position + boundary.value + 2;
      block := Some(buffer[position..position + boundary.value]);
    }

    /** One turn of the inner loop: the last of the buffer, a block too many, or one more block. */
    method Turn(buffer: Text, ghost before: nat, position: nat, frames: seq<Frame>, events: nat, ghost done: seq<Text>)
      returns (taken: Option<Taken>, position': nat, frames': seq<Frame>, ghost done': seq<Text>)
      requires IsAt(buffer, position, done) && frames == Frames(done) && events == before + |done| <= MAX_EVENTS
      ensures taken.Some? ==> taken.value == TakeBlocks(buffer, before)
      ensures taken.None? ==>
        position < position' && IsAt(buffer, position', done') && frames' == Frames(done')
        && events + 1 == before + |done'| <= MAX_EVENTS
    {
      var block;
      frames', done' := frames, done;
      block, position' := NextBlock(buffer, position, done);
      if block.None? {
        ViewEnds(buffer, before, done, buffer[position..]);
        taken := Some(Taken(frames, Some(Left(buffer[position..], events))));
        return;
      }
      if events + 1 > MAX_EVENTS {
        ViewOver(buffer, before, position', done, block.value);
        taken := Some(Taken(frames, None));
        return;
      }
      FramesMore(done, block.value);
      var frame := Parse(block.value);
      if frame.Some? { frames' := frames + [frame.value]; }
      taken, done' := None, done + [block.value];
    }

    /** The inner loop: block after block. */
    method Split(buffer: Text, before: nat) returns (taken: Taken)
      requires before <= MAX_EVENTS
      ensures taken == TakeBlocks(buffer, before)
    {
      var frames, events, position := [], before, 0;
      ghost var done: seq<Text> := [];
      ViewFirst(buffer);
      while true
        invariant IsAt(buffer, position, done) && frames == Frames(done) && events == before + |done| <= MAX_EVENTS
        decreases |buffer| - position
      {
        var all;
        all, position, frames, done := Turn(buffer, before, position, frames, events, done);
        if all.Some? { return all.value; }
        events := events + 1;
      }
    }
  }

  /** The blocks of the buffer are those done and those from a position. */
  ghost predicate IsAt(buffer: Text, position: nat, done: seq<Text>) {
    position <= |buffer| && ViewFrom(buffer, position, done) == View(Blocks(buffer), Rest(buffer))
  }

  /** Blocks, and what follows them. */
  datatype View = View(blocks: seq<Text>, rest: Text)

  /** The blocks done and those from a position. */
  function ViewFrom(buffer: Text, position: nat, done: seq<Text>): View
    requires position <= |buffer|
  {
    View(done + Blocks(buffer[position..]), Rest(buffer[position..]))
  }

  lemma {:induction false} ViewFirst(buffer: Text)
    ensures ViewFrom(buffer, 0, []) == View(Blocks(buffer), Rest(buffer))
  {
    assert buffer[0..] == buffer && [] + Blocks(buffer) == Blocks(buffer);
  }

  lemma {:induction false} ViewLast(buffer: Text, position: nat, done: seq<Text>)
    requires position <= |buffer| && FindBlank(buffer[position..]).None?
    ensures ViewFrom(buffer, position, done) == View(done, buffer[position..])
  {
    assert done + [] == done;
  }

  lemma {:induction false} ViewMore(buffer: Text, position: nat, done: seq<Text>, i: nat)
    requires position <= |buffer| && FindBlank(buffer[position..]) == Some(i)
    ensures position + i + 2 <= |buffer|
    ensures ViewFrom(buffer, position + i + 2, done + [buffer[position..position + i]]) == ViewFrom(buffer, position, done)
  {
    var rest := buffer[position..];
    BlocksStep(rest, i);
    assert rest[..i] == buffer[position..position + i] && rest[i + 2..] == buffer[position + i + 2..];
    Associate(done, [rest[..i]], Blocks(rest[i + 2..]));
  }

  lemma {:induction false} ViewEnds(buffer: Text, before: nat, done: seq<Text>, left: Text)
    requires View(done, left) == View(Blocks(buffer), Rest(buffer)) && before + |done| <= MAX_EVENTS
    ensures TakeBlocks(buffer, before) == Taken(Frames(done), Some(Left(left, before + |done|)))
  {
  }

  lemma {:induction false} ViewOver(buffer: Text, before: nat, position: nat, done: seq<Text>, block: Text)
    requires position <= |buffer| && ViewFrom(buffer, position, done + [block]) == View(Blocks(buffer), Rest(buffer))
    requires before + |done| == MAX_EVENTS
    ensures TakeBlocks(buffer, before) == Taken(Frames(done), None)
  {
    Associate(done, [block], Blocks(buffer[position..]));
    assert Blocks(buffer)[..|done|] == done;
  }

  lemma {:induction false} FramesMore(done: seq<Text>, block: Text)
    ensures Frames(done + [block]) == match FrameOf(block) case Some(f) => Frames(done) + [f] case None => Frames(done)
  {
    FramesJoin(done, [block]);
    FramesOne(block);
    assert Frames(done) + [] == Frames(done);
  }

  // ----- Any way of cutting the text

  /** Reads one after another, up to a failure: the frames delivered, and whether every read was within the limits. */
  function FeedAll(s: State, chunks: seq<Chunk>): (seq<Frame>, bool)
    requires s.events <= MAX_EVENTS
    decreases |chunks|
  {
    if chunks == [] then ([], true)
    else
      var d := DeliveryOf(s, chunks[0]);
      match d.next
      case None => (d.frames, false)
      case Some(next) => (d.frames + FeedAll(next, chunks[1..]).0, FeedAll(next, chunks[1..]).1)
  }

  function Whole(chunks: seq<Chunk>): Text {
    if chunks == [] then [] else chunks[0].text + Whole(chunks[1..])
  }

  /** The stream's text with its line endings cleaned. */
  function Clean(started: bool, chunks: seq<Chunk>): Text {
    Newlines(WithoutMark(started, Whole(chunks)))
  }

  /** The reads cleaned one by one, as the source cleans them. */
  function CleanReads(started: bool, chunks: seq<Chunk>): Text
    decreases |chunks|
  {
    if chunks == [] then []
    else Newlines(WithoutMark(started, chunks[0].text)) + CleanReads(started || chunks[0].text != [], chunks[1..])
  }

  function BytesOf(chunks: seq<Chunk>): nat {
    if chunks == [] then 0 else chunks[0].bytes + BytesOf(chunks[1..])
  }

  /** Read `k` keeps the limits: the bytes so far, the text not yet delivered with this read, and the blocks so far. */
  predicate KeepsAt(s: State, chunks: seq<Chunk>, k: nat)
    requires k < |chunks|
  {
    var before := s.buffer + CleanReads(s.started, chunks[..k]);
    var read := Newlines(WithoutMark(s.started || Whole(chunks[..k]) != [], chunks[k].text));
    && s.total + BytesOf(chunks[..k + 1]) <= MAX_STREAM_BYTES
    && Utf8.Size(Rest(before) + read) <= MAX_EVENT_BYTES
    && s.events + |Blocks(before + read)| <= MAX_EVENTS
  }

  predicate Keeps(s: State, chunks: seq<Chunk>) {
    forall k :: 0 <= k < |chunks| ==> KeepsAt(s, chunks, k)
  }

  predicate WithinLimits(chunks: seq<Chunk>) {
    Keeps(START, chunks)
  }

  /** Between two reads: no block is left in the buffer, and the events are within their limit. */
  predicate Settled(s: State) {
    FindBlank(s.buffer).None? && s.events <= MAX_EVENTS
  }

  lemma {:induction false} PrefixAfter<T>(head: seq<T>, a: seq<T>, b: seq<T>)
    requires a <= b
    ensures head + a <= head + b
  {
    assert b == a + b[|a|..];
    assert head + b == (head + a) + b[|a|..];
  }

  lemma {:induction false} RestHasNoBlank(s: Text)
    ensures FindBlank(Rest(s)).None?
    decreases |s|
  {
    match FindBlank(s)
    case None =>
    case Some(i) => RestHasNoBlank(s[i + 2..]);
  }

  /** What the first read leaves. */
  function Following(s: State, chunk: Chunk): State {
    var buffer := s.buffer + Newlines(WithoutMark(s.started, chunk.text));
    State(Rest(buffer), s.total + chunk.bytes, s.events + |Blocks(buffer)|, s.started || chunk.text != [])
  }

  /** What one read delivers, of a buffer with it and all that follows. */
  lemma {:induction false} FirstDelivers(s: State, chunk: Chunk, more: Text)
    requires Settled(s)
    ensures var d := DeliveryOf(s, chunk);
            var buffer := s.buffer + Newlines(WithoutMark(s.started, chunk.text));
            var all := Frames(Blocks(buffer + more));
      && d.frames <= all
      && (d.next.Some? ==>
            && d.next.value == Following(s, chunk) && Settled(Following(s, chunk))
            && all == d.frames + Frames(Blocks(Rest(buffer) + more)))
  {
    var buffer := s.buffer + Newlines(WithoutMark(s.started, chunk.text));
    BlocksJoin(buffer, more);
    FramesJoin(Blocks(buffer), Blocks(Rest(buffer) + more));
    FirstTakes(s, chunk);
    PrefixOfJoin(DeliveryOf(s, chunk).frames, Frames(Blocks(buffer)), Frames(Blocks(Rest(buffer) + more)));
  }

  lemma {:induction false} FirstTakes(s: State, chunk: Chunk)
    requires Settled(s)
    ensures var d := DeliveryOf(s, chunk);
            var all := Frames(Blocks(s.buffer + Newlines(WithoutMark(s.started, chunk.text))));
      d.frames <= all
      && (d.next.Some? ==> d.next.value == Following(s, chunk) && Settled(d.next.value) && d.frames == all)
  {
    TakesBlocks(s.buffer + Newlines(WithoutMark(s.started, chunk.text)), s.events);
  }

  /** Blocks taken off a buffer. */
  lemma {:induction false} TakesBlocks(buffer: Text, events: nat)
    requires events <= MAX_EVENTS
    ensures var taken := TakeBlocks(buffer, events);
      && taken.frames <= Frames(Blocks(buffer)) && FindBlank(Rest(buffer)).None?
      && (taken.left.Some? ==>
            && taken.left.value.buffer == Rest(buffer) && taken.left.value.events == events + |Blocks(buffer)| <= MAX_EVENTS
            && taken.frames == Frames(Blocks(buffer)))
  {
    RestHasNoBlank(buffer);
    if events + |Blocks(buffer)| > MAX_EVENTS {
      FramesPrefix(Blocks(buffer), MAX_EVENTS - events);
    }
  }

  lemma {:induction false} FramesPrefix(blocks: seq<Text>, k: nat)
    requires k <= |blocks|
    ensures Frames(blocks[..k]) <= Frames(blocks)
  {
    assert blocks == blocks[..k] + blocks[k..];
    FramesJoin(blocks[..k], blocks[k..]);
  }

  lemma {:induction false} PrefixOfJoin<T>(a: seq<T>, b: seq<T>, c: seq<T>)
    requires a <= b
    ensures a <= b + c
  {
  }

  /** A read succeeds exactly when it keeps the limits. */
  lemma {:induction false} FirstKeeps(s: State, chunks: seq<Chunk>)
    requires chunks != [] && Settled(s)
    ensures DeliveryOf(s, chunks[0]).next.Some? <==> KeepsAt(s, chunks, 0)
  {
    assert chunks[..0] == [] && s.buffer + CleanReads(s.started, []) == s.buffer == Rest(s.buffer);
    assert chunks[..1] == [chunks[0]] && BytesOf([chunks[0]][1..]) == 0;
    assert Whole(chunks[..0]) == [];
  }

  /** Taking blocks off first changes neither how many there are nor what is left. */
  lemma {:induction false} BlocksApart(buffer: Text, first: Text, middle: Text, read: Text)
    ensures var all, next := buffer + first, Rest(buffer + first);
      && Rest(buffer + (first + middle)) == Rest(next + middle)
      && |Blocks((buffer + (first + middle)) + read)| == |Blocks(all)| + |Blocks((next + middle) + read)|
  {
    var all := buffer + first;
    Associate(buffer, first, middle);
    BlocksJoin(all, middle);
    Associate(all, middle, read);
    Associate(Rest(all), middle, read);
    BlocksJoin(all, middle + read);
  }

  /** A later read keeps the limits of the whole exactly when it keeps those of what follows the first. */
  lemma {:induction false} LaterKeeps(s: State, chunks: seq<Chunk>, k: nat)
    requires 0 < k < |chunks|
    ensures KeepsAt(s, chunks, k) <==> KeepsAt(Following(s, chunks[0]), chunks[1..], k - 1)
  {
    var next := Following(s, chunks[0]);
    var first, rest := Newlines(WithoutMark(s.started, chunks[0].text)), chunks[1..];
    var read := Newlines(WithoutMark(s.started || Whole(chunks[..k]) != [], chunks[k].text));
    assert chunks[..k][1..] == rest[..k - 1] && chunks[..k + 1][1..] == rest[..k];
    assert Whole(chunks[..k]) == chunks[0].text + Whole(rest[..k - 1]);
    BlocksApart(s.buffer, first, CleanReads(next.started, rest[..k - 1]), read);
  }

  lemma {:induction false} AllKeep(s: State, chunks: seq<Chunk>)
    requires chunks != []
    ensures Keeps(s, chunks) <==> KeepsAt(s, chunks, 0) && Keeps(Following(s, chunks[0]), chunks[1..])
  {
    var next, rest := Following(s, chunks[0]), chunks[1..];
    if Keeps(s, chunks) {
      forall k | 0 <= k < |rest|
        ensures KeepsAt(next, rest, k)
      {
        LaterKeeps(s, chunks, k + 1);
      }
    }
    if KeepsAt(s, chunks, 0) && Keeps(next, rest) {
      forall k | 0 < k < |chunks|
        ensures KeepsAt(s, chunks, k)
      {
        LaterKeeps(s, chunks, k);
      }
    }
  }

  lemma {:induction false} FeedStep(s: State, chunks: seq<Chunk>)
    requires chunks != [] && Settled(s)
    ensures var d, next := DeliveryOf(s, chunks[0]), Following(s, chunks[0]);
      if d.next.None? then FeedAll(s, chunks) == (d.frames, false)
      else Settled(next) && FeedAll(s, chunks) == (d.frames + FeedAll(next, chunks[1..]).0, FeedAll(next, chunks[1..]).1)
  {
    FirstTakes(s, chunks[0]);
  }

  /** The reading succeeds exactly within the limits. */
  lemma {:induction false} ReadsKeep(s: State, chunks: seq<Chunk>)
    requires Settled(s)
    ensures FeedAll(s, chunks).1 <==> Keeps(s, chunks)
    decreases |chunks|
  {
    if chunks != [] {
      FeedStep(s, chunks);
      FirstKeeps(s, chunks);
      FirstDelivers(s, chunks[0], []);
      AllKeep(s, chunks);
      if DeliveryOf(s, chunks[0]).next.Some? {
        ReadsKeep(Following(s, chunks[0]), chunks[1..]);
      }
    }
  }

  /** However the text is cut, the frames delivered are a prefix of those of the cleaned reads, and all of them when the
      reading succeeds. */
  lemma {:induction false} ReadsDeliver(s: State, chunks: seq<Chunk>)
    requires Settled(s)
    ensures var all := Frames(Blocks(s.buffer + CleanReads(s.started, chunks)));
      FeedAll(s, chunks).0 <= all && (FeedAll(s, chunks).1 ==> FeedAll(s, chunks).0 == all)
    decreases |chunks|
  {
    if chunks == [] {
      assert s.buffer + [] == s.buffer;
    } else {
      var first, next := Newlines(WithoutMark(s.started, chunks[0].text)), Following(s, chunks[0]);
      var more := CleanReads(next.started, chunks[1..]);
      Associate(s.buffer, first, more);
      FirstDelivers(s, chunks[0], more);
      FeedStep(s, chunks);
      if DeliveryOf(s, chunks[0]).next.Some? {
        ReadsDeliver(next, chunks[1..]);
        PrefixAfter(DeliveryOf(s, chunks[0]).frames, FeedAll(next, chunks[1..]).0, Frames(Blocks(next.buffer + more)));
      }
    }
  }

  // ----- Cuts between line endings

  /** No read ends between a carriage return and its line feed. */
  predicate KeepsLineEndings(chunks: seq<Chunk>) {
    chunks == [] || (!CutsLineEnding(chunks[0].text, Whole(chunks[1..])) && KeepsLineEndings(chunks[1..]))
  }

  /** A line ending cut in two is cleaned to two. */
  lemma {:induction false} NewlinesCut(a: Text, b: Text)
    requires CutsLineEnding(a, b)
    ensures |Newlines(a)| + |Newlines(b)| == |Newlines(a + b)| + 1
    decreases |a|
  {
    var s := a + b;
    assert s[0] == a[0];
    if |a| == 1 {
      assert a[1..] == [] && s[2..] == b[1..];
    } else {
      assert s[1] == a[1];
      assert s[First(a)..] == a[First(a)..] + b;
      NewlinesCut(a[First(a)..], b);
    }
  }

  /** The cleaned reads are at least as long as the cleaned text, and they are the same exactly when no line ending is cut. */
  lemma {:induction false} CleanReadsAreClean(started: bool, chunks: seq<Chunk>)
    ensures |CleanReads(started, chunks)| >= |Clean(started, chunks)|
    ensures CleanReads(started, chunks) == Clean(started, chunks) <==> KeepsLineEndings(chunks)
    ensures !KeepsLineEndings(chunks) ==> |CleanReads(started, chunks)| > |Clean(started, chunks)|
    decreases |chunks|
  {
    if chunks != [] {
      var text, rest := chunks[0].text, Whole(chunks[1..]);
      var started' := started || text != [];
      CleanReadsAreClean(started', chunks[1..]);
      CleanFirst(started, text, rest);
    }
  }

  /** Cleaning the first read and the rest apart cleans the whole, when the cut is between line endings. */
  lemma {:induction false} CleanFirst(started: bool, text: Text, rest: Text)
    ensures var apart := Newlines(WithoutMark(started, text)) + Newlines(WithoutMark(started || text != [], rest));
            var whole := Newlines(WithoutMark(started, text + rest));
      if CutsLineEnding(text, rest) then |apart| == |whole| + 1 else apart == whole
  {
    if text == [] {
      assert text + rest == rest;
      assert [] + Newlines(WithoutMark(started, rest)) == Newlines(WithoutMark(started, rest));
    } else {
      var first := WithoutMark(started, text);
      assert WithoutMark(started, text + rest) == first + rest;
      assert first != [] ==> first[|first| - 1] == text[|text| - 1];
      if CutsLineEnding(text, rest) {
        NewlinesCut(first, rest);
      } else {
        NewlinesJoin(first, rest);
      }
    }
  }

  /** Then what was read before read `k`, of which the limits speak, is the cleaned text so far. */
  lemma {:induction false} CleanPrefix(chunks: seq<Chunk>, k: nat)
    requires k <= |chunks| && KeepsLineEndings(chunks)
    ensures CleanReads(false, chunks[..k]) == Clean(false, chunks[..k])
  {
    KeepsPrefix(chunks, k);
    CleanReadsAreClean(false, chunks[..k]);
  }

  lemma {:induction false} KeepsPrefix(chunks: seq<Chunk>, k: nat)
    requires k <= |chunks| && KeepsLineEndings(chunks)
    ensures KeepsLineEndings(chunks[..k]) && Whole(chunks[..k]) <= Whole(chunks)
  {
    if k > 0 {
      assert chunks[..k][1..] == chunks[1..][..k - 1];
      KeepsPrefix(chunks[1..], k - 1);
      PrefixAfter(chunks[0].text, Whole(chunks[1..][..k - 1]), Whole(chunks[1..]));
    }
  }

  /** Cut between line endings, the frames delivered are a prefix of the whole text's, and exactly within the limits all of
      them. */
  lemma {:induction false} AnyCutIsWhole(chunks: seq<Chunk>)
    requires KeepsLineEndings(chunks)
    ensures var (frames, ok) := FeedAll(START, chunks);
            var all := Frames(Blocks(Clean(false, chunks)));
      frames <= all && (ok <==> WithinLimits(chunks)) && (ok ==> frames == all)
  {
    ReadsKeep(START, chunks);
    ReadsDeliver(START, chunks);
    CleanReadsAreClean(false, chunks);
    assert [] + Clean(false, chunks) == Clean(false, chunks);
  }

  /** The frames of a stream without carriage returns, within its limits: those of its text, less a byte order mark, split
      at blank lines. */
  lemma {:induction false} FramesOfWholeText(chunks: seq<Chunk>)
    requires CR !in Whole(chunks)
    ensures var (frames, ok) := FeedAll(START, chunks);
            var all := Frames(Blocks(WithoutMark(false, Whole(chunks))));
      frames <= all && (ok <==> WithinLimits(chunks)) && (ok ==> frames == all)
  {
    NoReturnNoCut(chunks);
    AnyCutIsWhole(chunks);
    NewlinesFixed(WithoutMark(false, Whole(chunks)));
  }

  lemma {:induction false} NoReturnNoCut(chunks: seq<Chunk>)
    requires CR !in Whole(chunks)
    ensures KeepsLineEndings(chunks)
  {
    if chunks != [] {
      var text := chunks[0].text;
      assert forall u :: u in text ==> u in Whole(chunks);
      assert forall u :: u in Whole(chunks[1..]) ==> u in Whole(chunks);
      assert text != [] ==> text[|text| - 1] in text;
      NoReturnNoCut(chunks[1..]);
    }
  }

  /** Two ways of cutting a text between line endings, both within the limits, deliver the same frames. */
  lemma {:induction false} CutsDoNotMatter(a: seq<Chunk>, b: seq<Chunk>)
    requires Whole(a) == Whole(b) && KeepsLineEndings(a) && KeepsLineEndings(b)
    requires WithinLimits(a) && WithinLimits(b)
    ensures FeedAll(START, a) == FeedAll(START, b)
  {
    AnyCutIsWhole(a);
    AnyCutIsWhole(b);
  }

  // ----- Where cuts matter

  /** Where a text has no blank line before two line feeds, the first of them begins its blank line. */
  lemma {:induction false} FindBlankAfter(s: Text, rest: Text)
    requires FindBlank(s + [LF]).None?
    ensures FindBlank(s + ([LF, LF] + rest)) == Some(|s|)
    ensures Blocks(s + ([LF, LF] + rest)) == [s] + Blocks(rest) && Rest(s + ([LF, LF] + rest)) == Rest(rest)
  {
    BlankAt(s, rest);
    var t := s + ([LF, LF] + rest);
    assert t[..|s|] == s && t[|s| + 2..] == rest;
  }

  lemma {:induction false} BlankAt(s: Text, rest: Text)
    requires FindBlank(s + [LF]).None?
    ensures FindBlank(s + ([LF, LF] + rest)) == Some(|s|)
  {
    var t := s + ([LF, LF] + rest);
    if s == [] {
      assert t[0] == LF && t[1] == LF;
    } else {
      assert (s + [LF])[1..] == s[1..] + [LF];
      assert t[1..] == s[1..] + ([LF, LF] + rest);
      assert t[0] == s[0] && t[1] == (s + [LF])[1];
      BlankAt(s[1..], rest);
    }
  }

  lemma {:induction false} OneLine(s: Text)
    requires LF !in s
    ensures FindBlank(s).None? && FindBlank(s + [LF]).None?
  {
    if s != [] {
      assert s[0] in s && (s + [LF])[0] == s[0];
      assert LF !in s[1..] && (s + [LF])[1..] == s[1..] + [LF];
      OneLine(s[1..]);
    }
  }

  lemma {:induction false} TwoLines(s: Text, t: Text)
    requires LF !in s && LF !in t && t != []
    ensures FindBlank((s + ([LF] + t)) + [LF]).None?
  {
    var all := (s + ([LF] + t)) + [LF];
    if s == [] {
      assert all[0] == LF && all[1] == t[0] && t[0] in t && all[1..] == t + [LF];
      OneLine(t);
    } else {
      assert s[0] in s && all[0] == s[0];
      assert LF !in s[1..] && all[1..] == (s[1..] + ([LF] + t)) + [LF];
      TwoLines(s[1..], t);
    }
  }

  /** A line and its blank line. */
  function Ended(line: Text): Text {
    line + [LF, LF]
  }

  /** ASCII text without line endings. */
  predicate IsPlain(s: Text) {
    LF !in s && CR !in s && forall i :: 0 <= i < |s| ==> s[i] < 0x80
  }

  lemma {:induction false} NoBlocks(s: Text)
    requires FindBlank(s).None?
    ensures Blocks(s) == [] && Rest(s) == s
  {
  }

  lemma {:induction false} EndedParts(line: Text, rest: Text)
    ensures line + ([LF, LF] + rest) == Ended(line) + rest
  {
  }

  lemma {:induction false} EndedBlocks(line: Text, rest: Text)
    requires IsPlain(line) && IsPlain(rest)
    ensures Blocks(Ended(line) + rest) == [line] && Rest(Ended(line) + rest) == rest
  {
    OneLine(line);
    OneLine(rest);
    NoBlocks(rest);
    FindBlankAfter(line, rest);
    EndedParts(line, rest);
    assert [line] + [] == [line];
  }

  lemma {:induction false} EndedIsAscii(line: Text, rest: Text)
    requires IsPlain(line) && IsPlain(rest)
    ensures CR !in Ended(line) + rest && forall i :: 0 <= i < |Ended(line) + rest| ==> (Ended(line) + rest)[i] < 0x80
  {
  }

  lemma {:induction false} OneChunk(c: Chunk)
    ensures Whole([c]) == c.text && KeepsLineEndings([c])
  {
    assert c.text + [] == c.text && [c][1..] == [] && Whole([]) == [];
  }

  lemma {:induction false} TwoChunks(c: Chunk, d: Chunk)
    ensures Whole([c, d]) == c.text + d.text && BytesOf([c, d]) == c.bytes + d.bytes && BytesOf([c]) == c.bytes
    ensures [c, d][..1] == [c] && [c, d][..0] == [] && [c, d][..2] == [c, d]
  {
    assert [c, d][1..] == [d] && BytesOf([]) == 0 && [c][1..] == [] && [d][1..] == [];
    OneChunk(d);
  }

  /** Reads of ASCII text, a byte for each unit. */
  predicate AreAscii(chunks: seq<Chunk>) {
    forall k :: 0 <= k < |chunks| ==> chunks[k].bytes == |chunks[k].text|
  }

  lemma {:induction false} WholeJoin(a: seq<Chunk>, b: seq<Chunk>)
    ensures Whole(a + b) == Whole(a) + Whole(b)
  {
    if a == [] {
      assert a + b == b;
    } else {
      assert (a + b)[1..] == a[1..] + b;
      WholeJoin(a[1..], b);
      Associate(a[0].text, Whole(a[1..]), Whole(b));
    }
  }

  /** The text before read `k` and the read's own are the text up to the next, which begins the whole. */
  lemma {:induction false} WholeUpto(chunks: seq<Chunk>, k: nat)
    requires k < |chunks|
    ensures Whole(chunks[..k]) + chunks[k].text == Whole(chunks[..k + 1]) <= Whole(chunks)
  {
    OneChunk(chunks[k]);
    WholeJoin(chunks[..k], [chunks[k]]);
    assert chunks[..k + 1] == chunks[..k] + [chunks[k]];
    WholeJoin(chunks[..k + 1], chunks[k + 1..]);
    assert chunks == chunks[..k + 1] + chunks[k + 1..];
  }

  lemma {:induction false} BytesAreUnits(chunks: seq<Chunk>)
    requires AreAscii(chunks)
    ensures BytesOf(chunks) == |Whole(chunks)|
  {
    if chunks != [] {
      BytesAreUnits(chunks[1..]);
    }
  }

  /** What begins a line, its blank line and one unit: nothing is delivered of less than the blank line, and the rest of
      more is what follows it. */
  lemma {:induction false} BeginningBlocks(line: Text, u: Unit, s: Text)
    requires IsPlain(line) && IsPlain([u]) && s <= Ended(line) + [u]
    ensures |Blocks(s)| <= 1 && |Rest(s)| == if |s| < |line| + 2 then |s| else |s| - (|line| + 2)
  {
    if |s| <= |line| {
      assert s == line[..|s|];
      OneLine(s);
    } else if |s| == |line| + 1 {
      assert s == line + [LF];
      OneLine(line);
    } else {
      var rest := s[|line| + 2..];
      assert s == Ended(line) + rest;
      EndedBlocks(line, rest);
    }
  }

  /** Of a line that just fits with its blank line, and a unit after it, a read keeps the limits unless it ends the text and
      begins within the line or its blank line. */
  lemma {:induction false} EndedKeepsAt(chunks: seq<Chunk>, line: Text, u: Unit, k: nat)
    requires |line| == MAX_EVENT_BYTES - 2 && IsPlain(line) && IsPlain([u])
    requires Whole(chunks) == Ended(line) + [u] && AreAscii(chunks) && k < |chunks|
    ensures KeepsAt(START, chunks, k) <==>
            !(|Whole(chunks[..k])| < MAX_EVENT_BYTES < |Whole(chunks[..k + 1])|)
  {
    var before, read, after := Whole(chunks[..k]), chunks[k].text, Whole(chunks[..k + 1]);
    WholeUpto(chunks, k);
    BytesAreUnits(chunks[..k + 1]);
    EndedIsAscii(line, [u]);
    assert forall i :: 0 <= i < |after| ==> after[i] == (Ended(line) + [u])[i];
    assert before <= after;
    NoReturnNoCut(chunks);
    BeginningBlocks(line, u, before);
    BeginningBlocks(line, u, after);
    ReadKeeps(chunks, k, before, read);
  }

  lemma {:induction false} WholeGrows(chunks: seq<Chunk>, k: nat, n: nat)
    requires k <= n <= |chunks|
    ensures |Whole(chunks[..k])| <= |Whole(chunks[..n])|
  {
    assert chunks[..n] == chunks[..k] + chunks[k..n];
    WholeJoin(chunks[..k], chunks[k..n]);
  }

  /** Lengths that grow to more than a limit either meet it or pass over it. */
  lemma {:induction false} MeetsOrPasses(chunks: seq<Chunk>, n: nat, limit: nat) returns (k: nat)
    requires n <= |chunks| && |Whole(chunks[..n])| > limit
    ensures k < n && (|Whole(chunks[..k])| == limit || |Whole(chunks[..k])| < limit < |Whole(chunks[..k + 1])|)
  {
    assert chunks[..0] == [] && Whole([]) == [];
    if |Whole(chunks[..n - 1])| > limit {
      k := MeetsOrPasses(chunks, n - 1, limit);
    } else {
      k := n - 1;
    }
  }

  lemma {:induction false} EndedIsMet(chunks: seq<Chunk>, line: Text, u: Unit, k: nat)
    requires Whole(chunks) == Ended(line) + [u] && k <= |chunks|
    ensures |Whole(chunks[..k])| == |line| + 2 <==> k < |chunks| && Whole(chunks[..k]) == Ended(line)
  {
    assert chunks[..|chunks|] == chunks;
    if k < |chunks| {
      WholeUpto(chunks, k);
      assert Whole(chunks[..k]) <= Whole(chunks);
      assert |Whole(chunks[..k])| == |line| + 2 ==> Whole(chunks[..k]) == (Ended(line) + [u])[..|line| + 2] == Ended(line);
    }
  }

  /** A line that just fits the limit with its blank line, and a unit after it, cut anyhow: the reads keep the limits exactly
      when one of them begins after the blank line. */
  lemma {:induction false} LimitsDependOnTheCut(chunks: seq<Chunk>, line: Text, u: Unit)
    requires |line| == MAX_EVENT_BYTES - 2 && IsPlain(line) && IsPlain([u])
    requires Whole(chunks) == Ended(line) + [u] && AreAscii(chunks)
    ensures WithinLimits(chunks) <==> exists k :: 0 <= k < |chunks| && Whole(chunks[..k]) == Ended(line)
  {
    assert chunks[..|chunks|] == chunks;
    var m := MeetsOrPasses(chunks, |chunks|, MAX_EVENT_BYTES);
    EndedKeepsAt(chunks, line, u, m);
    EndedIsMet(chunks, line, u, m);
    if k :| 0 <= k < |chunks| && Whole(chunks[..k]) == Ended(line) {
      forall j | 0 <= j < |chunks|
        ensures KeepsAt(START, chunks, j)
      {
        EndedKeepsAt(chunks, line, u, j);
        if j < k {
          WholeGrows(chunks, j + 1, k);
        } else {
          WholeGrows(chunks, k, j);
        }
      }
    }
  }

  /** Text in reads as large as the source's buffer, but for the last. */
  function Pieces(s: Text): seq<Chunk> {
    if |s| <= READ_BYTES then [Chunk(|s|, s)]
    else [Chunk(READ_BYTES, s[..READ_BYTES])] + Pieces(s[READ_BYTES..])
  }

  /** Reads that the source's buffer can hold. */
  predicate FitBuffer(chunks: seq<Chunk>) {
    forall k :: 0 <= k < |chunks| ==> chunks[k].bytes <= READ_BYTES
  }

  lemma {:induction false} PiecesAreText(s: Text)
    ensures Whole(Pieces(s)) == s && AreAscii(Pieces(s)) && FitBuffer(Pieces(s))
    decreases |s|
  {
    if |s| <= READ_BYTES {
      OneChunk(Chunk(|s|, s));
    } else {
      PiecesAreText(s[READ_BYTES..]);
      assert Pieces(s)[1..] == Pieces(s[READ_BYTES..]);
    }
  }

  /** Pieces of a text, and one more read. */
  lemma {:induction false} PiecesAndOne(s: Text, c: Chunk)
    requires c.bytes == |c.text| <= READ_BYTES
    ensures var chunks, n := Pieces(s) + [c], |Pieces(s)|;
      && Whole(chunks) == s + c.text && AreAscii(chunks) && FitBuffer(chunks)
      && |chunks| == n + 1 && Whole(chunks[..n]) == s
  {
    PiecesAreText(s);
    OneChunk(c);
    WholeJoin(Pieces(s), [c]);
    assert (Pieces(s) + [c])[..|Pieces(s)|] == Pieces(s);
  }

  /** So the same text is accepted in reads of at most 64 KiB of which the last begins after the blank line, and refused in
      such reads of which the last begins before it. */
  lemma {:induction false} SmallReadsAreAcceptedOrRefused(line: Text, u: Unit)
    requires |line| == MAX_EVENT_BYTES - 2 && IsPlain(line) && IsPlain([u])
    ensures var after, before := Pieces(Ended(line)) + [Chunk(1, [u])], Pieces(line) + [Chunk(3, [LF, LF, u])];
      && FitBuffer(after) && FitBuffer(before) && KeepsLineEndings(after) && KeepsLineEndings(before)
      && Whole(after) == Whole(before) == Ended(line) + [u]
      && FeedAll(START, after).1 && !FeedAll(START, before).1
  {
    EndedIsAscii(line, [u]);
    var after, n := Pieces(Ended(line)) + [Chunk(1, [u])], |Pieces(Ended(line))|;
    PiecesAndOne(Ended(line), Chunk(1, [u]));
    NoReturnNoCut(after);
    LimitsDependOnTheCut(after, line, u);
    assert 0 <= n < |after| && Whole(after[..n]) == Ended(line);
    ReadsKeep(START, after);
    LastIsRefused(line, u);
  }

  lemma {:induction false} LastIsRefused(line: Text, u: Unit)
    requires |line| == MAX_EVENT_BYTES - 2 && IsPlain(line) && IsPlain([u])
    ensures var before := Pieces(line) + [Chunk(3, [LF, LF, u])];
      && FitBuffer(before) && KeepsLineEndings(before) && Whole(before) == Ended(line) + [u] && !FeedAll(START, before).1
  {
    var before, n := Pieces(line) + [Chunk(3, [LF, LF, u])], |Pieces(line)|;
    EndedIsAscii(line, [u]);
    PiecesAndOne(line, Chunk(3, [LF, LF, u]));
    assert line + [LF, LF, u] == Ended(line) + [u];
    NoReturnNoCut(before);
    forall k | 0 <= k < |before|
      ensures Whole(before[..k]) != Ended(line)
    {
      WholeGrows(before, k, n);
    }
    LimitsDependOnTheCut(before, line, u);
    ReadsKeep(START, before);
  }

  /** The limits of a first read. */
  lemma {:induction false} FirstReadKeeps(chunks: seq<Chunk>, clean: Text)
    requires chunks != [] && chunks[0].bytes <= MAX_STREAM_BYTES && chunks[0].text != []
    requires chunks[0].text[0] != BYTE_ORDER_MARK && Newlines(chunks[0].text) == clean
    requires Utf8.Size(clean) <= MAX_EVENT_BYTES && |Blocks(clean)| <= MAX_EVENTS
    ensures KeepsAt(START, chunks, 0)
  {
    assert chunks[..0] == [] && chunks[..1] == [chunks[0]] && Whole([]) == [] && CleanReads(false, []) == [];
    assert [] + clean == clean && Rest([]) == [];
    OneByte(chunks[0]);
    KeepsFor(chunks, 0, [], clean);
  }

  lemma {:induction false} OneByte(c: Chunk)
    ensures BytesOf([c]) == c.bytes
  {
    assert BytesOf([c][1..]) == 0;
  }

  /** A read's limits from the clean ASCII text before it and its own. */
  lemma {:induction false} ReadKeeps(chunks: seq<Chunk>, k: nat, before: Text, read: Text)
    requires k < |chunks| && Whole(chunks[..k]) == before && chunks[k].text == read && CR !in Whole(chunks)
    requires KeepsLineEndings(chunks) && forall i :: 0 <= i < |before + read| ==> (before + read)[i] < 0x80
    ensures KeepsAt(START, chunks, k) <==>
            && BytesOf(chunks[..k + 1]) <= MAX_STREAM_BYTES
            && |Rest(before) + read| <= MAX_EVENT_BYTES && |Blocks(before + read)| <= MAX_EVENTS
  {
    var all := before + read;
    assert CleanReads(false, chunks[..k]) == before by {
      assert before != [] ==> before[0] == all[0];
      CleanPrefix(chunks, k);
      PartsOf(chunks, k);
      NewlinesFixed(before);
    }
    assert Newlines(WithoutMark(before != [], read)) == read by {
      assert read != [] ==> read[0] == all[|before|];
      PartsOf(chunks, k);
      NewlinesFixed(read);
    }
    KeepsFor(chunks, k, before, read);
    AsciiSize(before, read);
  }

  lemma {:induction false} KeepsFor(chunks: seq<Chunk>, k: nat, before: Text, read: Text)
    requires k < |chunks| && CleanReads(false, chunks[..k]) == before
    requires Newlines(WithoutMark(Whole(chunks[..k]) != [], chunks[k].text)) == read
    ensures KeepsAt(START, chunks, k) <==>
            && BytesOf(chunks[..k + 1]) <= MAX_STREAM_BYTES
            && Utf8.Size(Rest(before) + read) <= MAX_EVENT_BYTES && |Blocks(before + read)| <= MAX_EVENTS
  {
    assert [] + before == before;
  }

  lemma {:induction false} AsciiSize(before: Text, read: Text)
    requires forall i :: 0 <= i < |before + read| ==> (before + read)[i] < 0x80
    ensures Utf8.Size(Rest(before) + read) == |Rest(before) + read|
  {
    var rest := Rest(before);
    RestIsPart(before);
    forall i | 0 <= i < |rest + read|
      ensures (rest + read)[i] < 0x80
    {
      if i < |rest| {
        assert rest[i] in before;
        var k :| 0 <= k < |before| && before[k] == rest[i];
        assert (before + read)[k] == rest[i];
      } else {
        assert (rest + read)[i] == read[i - |rest|] == (before + read)[|before| + i - |rest|];
      }
    }
    Utf8.EncodeAscii(rest + read);
  }

  lemma {:induction false} PartsOf(chunks: seq<Chunk>, k: nat)
    requires k < |chunks|
    ensures forall u :: u in Whole(chunks[..k]) || u in chunks[k].text ==> u in Whole(chunks)
  {
    if k > 0 {
      assert chunks[..k][1..] == chunks[1..][..k - 1] && chunks[k] == chunks[1..][k - 1];
      PartsOf(chunks[1..], k - 1);
    }
  }

  lemma {:induction false} RestIsPart(s: Text)
    ensures forall u :: u in Rest(s) ==> u in s
    decreases |s|
  {
    match FindBlank(s)
    case None =>
    case Some(i) => RestIsPart(s[i + 2..]);
  }

  // ----- A cut inside a line ending

  lemma {:induction false} SplitOneLine(s: Text)
    requires LF !in s
    ensures SplitLines(s) == [s]
  {
    if s != [] {
      assert s[0] in s && LF !in s[1..] && s == [s[0]] + s[1..];
      SplitOneLine(s[1..]);
    }
  }

  lemma {:induction false} SplitTwoLines(s: Text, t: Text)
    requires LF !in s && LF !in t
    ensures SplitLines(s + ([LF] + t)) == [s, t]
  {
    var all := s + ([LF] + t);
    if s == [] {
      assert all[0] == LF && all[1..] == t;
      SplitOneLine(t);
    } else {
      assert s[0] in s && LF !in s[1..] && s == [s[0]] + s[1..];
      assert all[0] == s[0] && all[1..] == s[1..] + ([LF] + t);
      SplitTwoLines(s[1..], t);
    }
  }

  /** A line of data without leading white space is read as its data. */
  lemma {:induction false} ReadsData(f: Fields, data: Text)
    requires data != [] && !IsWhite(data[0])
    ensures Read(f, DATA + data) == f.(data := Some((match f.data case Some(lines) => lines case None => []) + [data]))
  {
    assert (DATA + data)[0] == DATA[0] && (DATA + data)[|DATA|..] == data;
  }

  lemma {:induction false} FrameOfData(data: Text)
    requires data != [] && !IsWhite(data[0]) && LF !in data
    ensures FrameOf(DATA + data) == Some(Frame(None, data))
  {
    var lines: seq<Text> := [DATA + data];
    assert LF !in DATA;
    SplitOneLine(DATA + data);
    ReadsData(Fields(None, None), data);
    assert [] + [data] == [data];
    assert ReadAll(Fields(None, None), lines) == ReadAll(Fields(None, Some([data])), lines[1..]);
  }

  lemma {:induction false} FrameOfTwo(a: Text, b: Text)
    requires a != [] && !IsWhite(a[0]) && LF !in a && b != [] && !IsWhite(b[0]) && LF !in b
    ensures FrameOf((DATA + a) + ([LF] + (DATA + b))) == Some(Frame(None, a + ([LF] + b)))
  {
    var lines: seq<Text> := [DATA + a, DATA + b];
    assert LF !in DATA && LF !in DATA + a && LF !in DATA + b;
    SplitTwoLines(DATA + a, DATA + b);
    assert SplitLines((DATA + a) + ([LF] + (DATA + b))) == lines;
    ReadsData(Fields(None, None), a);
    ReadsData(Fields(None, Some([a])), b);
    assert lines[1..] == [DATA + b] && [] + [a] == [a] && [a] + [b] == [a, b];
    var last: seq<Text> := [DATA + b];
    assert ReadAll(Fields(None, None), lines) == ReadAll(Fields(None, Some([a])), last);
    assert ReadAll(Fields(None, Some([a])), last) == ReadAll(Fields(None, Some([a, b])), last[1..]);
    assert JoinLines([a, b]) == a + ([LF] + JoinLines([b])) by {
      assert [a, b][1..] == [b];
    }
  }

  /** Data that is one line of ASCII text and does not begin with white space. */
  predicate IsData(data: Text) {
    IsPlain(data) && data != [] && !IsWhite(data[0]) && |data| < 1000
  }

  /** Two lines of data, each ended by a carriage return and a line feed, and a blank line. */
  function HeadOf(a: Text): Text {
    (DATA + a) + [CR]
  }

  function TailOf(b: Text): Text {
    [LF] + ((DATA + b) + [CR, LF, CR, LF])
  }

  /** Read at once, two lines of data are one event, as with "data:a" and "data:b"; cut between the first carriage return
      and its line feed, they are two. */
  lemma {:induction false} CutsMatterInsideLineEndings(a: Text, b: Text, m: nat, n: nat)
    requires IsData(a) && IsData(b) && m + n <= MAX_STREAM_BYTES
    ensures var cut, whole := [Chunk(m, HeadOf(a)), Chunk(n, TailOf(b))], [Chunk(m + n, HeadOf(a) + TailOf(b))];
      && Whole(cut) == Whole(whole) && !KeepsLineEndings(cut) && KeepsLineEndings(whole)
      && FeedAll(START, cut) == ([Frame(None, a), Frame(None, b)], true)
      && FeedAll(START, whole) == ([Frame(None, a + ([LF] + b))], true)
  {
    DataIsPlain(a);
    DataIsPlain(b);
    CutReads(m, n, DATA + a, DATA + b);
    WholeReads(m + n, DATA + a, DATA + b);
    FramesOfTwo(a, b);
  }

  lemma {:induction false} DataIsPlain(data: Text)
    requires IsPlain(data)
    ensures IsPlain(DATA + data) && |DATA + data| == 5 + |data|
  {
    assert IsPlain(DATA);
  }

  lemma {:induction false} FramesOfTwo(a: Text, b: Text)
    requires IsData(a) && IsData(b)
    ensures Frames([DATA + a, DATA + b]) == [Frame(None, a), Frame(None, b)]
    ensures Frames([(DATA + a) + ([LF] + (DATA + b))]) == [Frame(None, a + ([LF] + b))]
  {
    FrameOfData(a);
    FrameOfData(b);
    FrameOfTwo(a, b);
    FramesOne(DATA + a);
    FramesOne(DATA + b);
    FramesOne((DATA + a) + ([LF] + (DATA + b)));
    FramesJoin([DATA + a], [DATA + b]);
    assert [DATA + a] + [DATA + b] == [DATA + a, DATA + b];
  }

  /** Two short lines. */
  predicate AreLines(x: Text, y: Text) {
    IsPlain(x) && IsPlain(y) && x != [] && y != [] && |x| + |y| < 3000 && x[0] != BYTE_ORDER_MARK
  }

  lemma {:induction false} NewlinesOfEnd(y: Text)
    requires CR !in y
    ensures Newlines(y + [CR, LF, CR, LF]) == y + [LF, LF]
  {
    NewlinesJoin(y, [CR, LF, CR, LF]);
    NewlinesFixed(y);
    assert [CR, LF, CR, LF][2..] == [CR, LF] && [CR, LF][2..] == [];
    assert Newlines([CR, LF]) == [LF];
  }

  lemma {:induction false} CleanHead(x: Text)
    requires CR !in x
    ensures Newlines(x + [CR]) == x + [LF]
  {
    NewlinesJoin(x, [CR]);
    NewlinesFixed(x);
    assert [CR][1..] == [];
  }

  lemma {:induction false} CleanTail(y: Text)
    requires CR !in y
    ensures Newlines([LF] + (y + [CR, LF, CR, LF])) == [LF] + (y + [LF, LF])
  {
    NewlinesOfEnd(y);
    assert ([LF] + (y + [CR, LF, CR, LF]))[1..] == y + [CR, LF, CR, LF];
  }

  /** Two reads cleaned one by one. */
  lemma {:induction false} CleanTwo(c: Chunk, d: Chunk)
    requires c.text != [] && c.text[0] != BYTE_ORDER_MARK
    ensures CleanReads(false, [c, d]) == Newlines(c.text) + Newlines(d.text) && CleanReads(false, [c]) == Newlines(c.text)
  {
    assert [c, d][1..] == [d] && [d][1..] == [] && [c][1..] == [];
    assert Newlines(d.text) + [] == Newlines(d.text) && Newlines(c.text) + [] == Newlines(c.text);
    assert CleanReads(true, [d]) == Newlines(d.text) + CleanReads(true, [d][1..]);
    assert CleanReads(false, [c]) == Newlines(c.text) + CleanReads(true, [c][1..]);
  }

  /** The sizes of short ASCII texts. */
  lemma {:induction false} ShortSize(s: Text)
    requires |s| <= 4000 && forall i :: 0 <= i < |s| ==> s[i] < 0x80
    ensures Utf8.Size(s) <= MAX_EVENT_BYTES
  {
    Utf8.EncodeAscii(s);
  }

  lemma {:induction false} CutReads(m: nat, n: nat, x: Text, y: Text)
    requires AreLines(x, y) && m + n <= MAX_STREAM_BYTES
    ensures var head, tail := x + [CR], [LF] + (y + [CR, LF, CR, LF]);
            var cut := [Chunk(m, head), Chunk(n, tail)];
      Whole(cut) == head + tail && !KeepsLineEndings(cut) && FeedAll(START, cut) == (Frames([x, y]), true)
  {
    var c, d := Chunk(m, x + [CR]), Chunk(n, [LF] + (y + [CR, LF, CR, LF]));
    var first, second := x + [LF], [LF] + Ended(y);
    assert c.text[0] == x[0];
    TwoChunks(c, d);
    OneChunk(c);
    OneChunk(d);
    CleanHead(x);
    CleanTail(y);
    CleanTwo(c, d);
    BlocksOfCut(x, y);
    SizesOfCut(x, y);
    CutKeeps(c, d, first, second);
    ReadsKeep(START, [c, d]);
    ReadsDeliver(START, [c, d]);
    assert [] + (first + second) == first + second;
    assert [c, d][1..] == [d];
  }

  lemma {:induction false} SizesOfCut(x: Text, y: Text)
    requires AreLines(x, y)
    ensures Utf8.Size(x + [LF]) <= MAX_EVENT_BYTES && Utf8.Size((x + [LF]) + ([LF] + Ended(y))) <= MAX_EVENT_BYTES
  {
    EndedIsAscii(y, []);
    assert Ended(y) + [] == Ended(y);
    ShortSize(x + [LF]);
    ShortSize((x + [LF]) + ([LF] + Ended(y)));
  }

  lemma {:induction false} BlocksOfCut(x: Text, y: Text)
    requires AreLines(x, y)
    ensures FindBlank(x + [LF]).None? && Blocks((x + [LF]) + ([LF] + Ended(y))) == [x, y]
  {
    OneLine(x);
    EndedBlocks(y, []);
    assert Ended(y) + [] == Ended(y);
    FindBlankAfter(x, Ended(y));
    Regroup(x, Ended(y));
    assert [x] + [y] == [x, y];
  }

  lemma {:induction false} Regroup(x: Text, y: Text)
    ensures (x + [LF]) + ([LF] + y) == x + ([LF, LF] + y)
  {
  }

  lemma {:induction false} CutKeeps(c: Chunk, d: Chunk, first: Text, second: Text)
    requires c.text != [] && c.text[0] != BYTE_ORDER_MARK && Newlines(c.text) == first && Newlines(d.text) == second
    requires FindBlank(first).None? && |Blocks(first + second)| == 2 && c.bytes + d.bytes <= MAX_STREAM_BYTES
    requires Utf8.Size(first) <= MAX_EVENT_BYTES && Utf8.Size(first + second) <= MAX_EVENT_BYTES
    ensures Keeps(START, [c, d])
  {
    FirstReadKeeps([c, d], first);
    SecondReadKeeps(c, d, first, second);
    TwoKeep([c, d]);
  }

  lemma {:induction false} SecondReadKeeps(c: Chunk, d: Chunk, first: Text, second: Text)
    requires c.text != [] && c.text[0] != BYTE_ORDER_MARK && Newlines(c.text) == first && Newlines(d.text) == second
    requires Rest(first) == first && |Blocks(first + second)| <= MAX_EVENTS && c.bytes + d.bytes <= MAX_STREAM_BYTES
    requires Utf8.Size(first + second) <= MAX_EVENT_BYTES
    ensures KeepsAt(START, [c, d], 1)
  {
    TwoChunks(c, d);
    OneChunk(c);
    CleanTwo(c, d);
    KeepsFor([c, d], 1, first, second);
  }

  lemma {:induction false} TwoKeep(chunks: seq<Chunk>)
    requires |chunks| == 2 && KeepsAt(START, chunks, 0) && KeepsAt(START, chunks, 1)
    ensures WithinLimits(chunks)
  {
  }

  lemma {:induction false} OneKeeps(chunks: seq<Chunk>)
    requires |chunks| == 1 && KeepsAt(START, chunks, 0)
    ensures WithinLimits(chunks)
  {
  }

  lemma {:induction false} WholeReads(m: nat, x: Text, y: Text)
    requires AreLines(x, y) && m <= MAX_STREAM_BYTES
    ensures var text := (x + [CR]) + ([LF] + (y + [CR, LF, CR, LF]));
            var whole := [Chunk(m, text)];
      Whole(whole) == text && KeepsLineEndings(whole) && FeedAll(START, whole) == (Frames([x + ([LF] + y)]), true)
  {
    var text := (x + [CR]) + ([LF] + (y + [CR, LF, CR, LF]));
    var c, line := Chunk(m, text), x + ([LF] + y);
    assert text[0] == x[0];
    OneChunk(c);
    CleanWhole(x, y);
    BlocksOfWhole(x, y);
    ShortSize(Ended(line));
    WholeKeeps(c, Ended(line));
    AnyCutIsWhole([c]);
  }

  lemma {:induction false} BlocksOfWhole(x: Text, y: Text)
    requires AreLines(x, y)
    ensures Blocks(Ended(x + ([LF] + y))) == [x + ([LF] + y)]
  {
    var line := x + ([LF] + y);
    TwoLines(x, y);
    FindBlankAfter(line, []);
    assert line + ([LF, LF] + []) == Ended(line) && [line] + [] == [line];
  }

  lemma {:induction false} CleanWhole(x: Text, y: Text)
    requires CR !in x && CR !in y
    ensures Newlines((x + [CR]) + ([LF] + (y + [CR, LF, CR, LF]))) == Ended(x + ([LF] + y))
  {
    var end := y + [CR, LF, CR, LF];
    assert (x + [CR]) + ([LF] + end) == x + ([CR, LF] + end);
    NewlinesJoin(x, [CR, LF] + end);
    NewlinesFixed(x);
    assert ([CR, LF] + end)[2..] == end;
    NewlinesOfEnd(y);
    assert x + ([LF] + (y + [LF, LF])) == Ended(x + ([LF] + y));
  }

  lemma {:induction false} WholeKeeps(c: Chunk, clean: Text)
    requires c.text != [] && c.text[0] != BYTE_ORDER_MARK && Newlines(c.text) == clean
    requires |Blocks(clean)| == 1 && Utf8.Size(clean) <= MAX_EVENT_BYTES && c.bytes <= MAX_STREAM_BYTES
    ensures WithinLimits([c])
  {
    FirstReadKeeps([c], clean);
    OneKeeps([c]);
  }
}
