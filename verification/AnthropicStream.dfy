/**
 An Anthropic message from its stream of content blocks. The source gathers appended text in builders and writes it back
 when the stream has ended; that gives the blocks that appending each delta to its block's field would have given, with
 the fields in the same order.
 */
module AnthropicStream {
  import opened Utf16
  import opened Wrappers
  import opened Sequences
  import opened IntOrder
  import opened JsonText
  import opened ProviderCalls

  type Block = seq<Entry<Json>>

  datatype Delta = TextDelta(part: Text) | ThinkingDelta(part: Text) | SignatureDelta(part: Text) | JsonDelta(part: Text)
                 | BadDelta

  /** A frame by its type; an index that is not an integer, or a block that is not an object, is absent. */
  datatype Frame =
    | Unreadable
    | BlockStart(index: Option<int>, block: Option<Block>)
    | BlockDelta(index: Option<int>, delta: Delta)
    | BlockStop(index: Option<int>)
    | MessageDelta(reason: Reason)
    | MessageStop
    | Ping
    | ErrorFrame
    | OtherFrame

  datatype Reason = EndTurn | ToolUse | OtherReason

  datatype Event = TextEvent(text: Text) | CallEvent(call: Call) | DoneEvent(content: seq<Block>, calls: seq<Call>)

  const TEXT: Text := [0x74, 0x65, 0x78, 0x74]
  const THINKING: Text := [0x74, 0x68, 0x69, 0x6E, 0x6B, 0x69, 0x6E, 0x67]
  const SIGNATURE: Text := [0x73, 0x69, 0x67, 0x6E, 0x61, 0x74, 0x75, 0x72, 0x65]
  const PARTIAL_JSON: Text := [0x5F, 0x5F, 0x6A, 0x73, 0x6F, 0x6E]
  const TYPE: Text := [0x74, 0x79, 0x70, 0x65]
  const TOOL_USE: Text := [0x74, 0x6F, 0x6F, 0x6C, 0x5F, 0x75, 0x73, 0x65]
  const INPUT: Text := [0x69, 0x6E, 0x70, 0x75, 0x74]

  lemma {:induction false} FieldsDiffer()
    ensures TEXT != THINKING && TEXT != SIGNATURE && TEXT != PARTIAL_JSON
    ensures THINKING != SIGNATURE && THINKING != PARTIAL_JSON && SIGNATURE != PARTIAL_JSON
  {
    assert |TEXT| == 4 && |THINKING| == 8 && |SIGNATURE| == 9 && |PARTIAL_JSON| == 6;
  }

  /** The field that a delta appends to, if it appends. */
  function FieldOf(delta: Delta): Option<Text> {
    match delta
    case TextDelta(_) => Some(TEXT)
    case ThinkingDelta(_) => Some(THINKING)
    case JsonDelta(_) => Some(PARTIAL_JSON)
    case _ => None
  }

  /** A field's text, or none of it when the field is absent or no text. */
  function StringOf(block: Block, field: Text): Text {
    match Lookup(block, field)
    case Some(String(text)) => text
    case _ => []
  }

  predicate Has(block: Block, field: Text) {
    Lookup(block, field).Some?
  }

  // ----- Appending to the blocks themselves

  /** The blocks, those stopped, whether the message has stopped, its reason, and the text delivered. */
  datatype State = State(blocks: map<int, Block>, stopped: set<int>, done: bool, reason: Option<Reason>, failed: bool,
                         events: seq<Event>)

  const START := State(map[], {}, false, None, false, [])

  /** block[field] = (its text, or "") + part. */
  function Appended(block: Block, field: Text, part: Text): Block {
    Put(block, field, String(StringOf(block, field) + part))
  }

  function Applied(block: Block, delta: Delta): Block
    requires !delta.BadDelta?
  {
    if delta.SignatureDelta? then Put(block, SIGNATURE, String(delta.part))
    else Appended(block, FieldOf(delta).value, delta.part)
  }

  function TextEventsOf(delta: Delta): seq<Event> {
    if delta.TextDelta? && delta.part != [] then [TextEvent(delta.part)] else []
  }

  /** One frame; nothing where the source throws. */
  function FrameRead(s: State, f: Frame): Option<State> {
    if f.Unreadable? || (s.done && !f.Ping?) then None
    else match f
      case BlockStart(index, block) =>
        if index.None? || block.None? || index.value in s.blocks then None
        else Some(s.(blocks := s.blocks[index.value := block.value]))
      case BlockDelta(index, delta) =>
        if index.None? || index.value !in s.blocks || delta.BadDelta? then None
        else Some(s.(blocks := s.blocks[index.value := Applied(s.blocks[index.value], delta)],
                     events := s.events + TextEventsOf(delta)))
      case BlockStop(index) =>
        if index.None? || index.value !in s.blocks || index.value in s.stopped then None
        else Some(s.(stopped := s.stopped + {index.value}))
      case MessageDelta(reason) =>
        if reason.OtherReason? then Some(s.(failed := true)) else Some(s.(reason := Some(reason)))
      case MessageStop => Some(s.(done := true))
      case ErrorFrame => None
      case _ => Some(s)
  }

  function FramesRead(frames: seq<Frame>): Option<State> {
    if frames == [] then Some(START)
    else match FramesRead(frames[..|frames| - 1])
      case None => None
      case Some(s) => FrameRead(s, frames[|frames| - 1])
  }

  // ----- Appending to builders

  /** The state with its builders, by block and field. */
  datatype Deferred = Deferred(state: State, builders: map<(int, Text), Text>)

  /** A builder's text written into its block. */
  function Written(block: Block, index: int, builders: map<(int, Text), Text>, field: Text): Block {
    if (index, field) in builders then Put(block, field, String(builders[(index, field)])) else block
  }

  /** All the builders of a block written back. */
  function WrittenBack(block: Block, index: int, builders: map<(int, Text), Text>): Block {
    Written(Written(Written(block, index, builders, TEXT), index, builders, THINKING), index, builders, PARTIAL_JSON)
  }

  function Finished(d: Deferred): State {
    d.state.(blocks := map index | index in d.state.blocks :: WrittenBack(d.state.blocks[index], index, d.builders))
  }

  /** Builders are for fields that their blocks have. */
  ghost predicate Placed(d: Deferred) {
    forall index, field :: (index, field) in d.builders ==>
      index in d.state.blocks && Has(d.state.blocks[index], field) && IsText(field)
  }

  lemma {:induction false} PutTwice(block: Block, field: Text, x: Json, y: Json)
    ensures Put(Put(block, field, x), field, y) == Put(block, field, y)
    ensures Lookup(Put(block, field, x), field) == Some(x)
  {
    if block != [] && block[0].key != field {
      PutTwice(block[1..], field, x, y);
      assert Put(block, field, x)[1..] == Put(block[1..], field, x);
    }
  }

  lemma {:induction false} PutOther(block: Block, field: Text, x: Json, other: Text)
    requires field != other
    ensures Lookup(Put(block, field, x), other) == Lookup(block, other)
  {
    if block != [] && block[0].key != field {
      PutOther(block[1..], field, x, other);
      assert Put(block, field, x)[1..] == Put(block[1..], field, x);
    }
  }

  /** Replacing a field that is there commutes with setting another. */
  lemma {:induction false} PutCommutes(block: Block, field: Text, x: Json, other: Text, y: Json)
    requires field != other && Has(block, field)
    ensures Put(Put(block, field, x), other, y) == Put(Put(block, other, y), field, x)
  {
    if block[0].key == field {
      assert Put(block, field, x) == [Entry(field, x)] + block[1..];
      assert Put(block, field, x)[1..] == block[1..];
      assert Put(block, other, y) == [block[0]] + Put(block[1..], other, y);
      assert Put(block, other, y)[1..] == Put(block[1..], other, y);
    } else if block[0].key == other {
      assert Put(block, other, y)[1..] == block[1..];
      assert Put(block, field, x) == [block[0]] + Put(block[1..], field, x);
      assert Put(block, field, x)[1..] == Put(block[1..], field, x);
    } else {
      PutCommutes(block[1..], field, x, other, y);
      assert Put(block, field, x)[1..] == Put(block[1..], field, x);
      assert Put(block, other, y)[1..] == Put(block[1..], other, y);
    }
  }

  /** Writing one builder back commutes with setting another field. */
  lemma {:induction false} WrittenCommutes(block: Block, index: int, builders: map<(int, Text), Text>, field: Text,
                                           other: Text, y: Json)
    requires (index, field) in builders ==> field != other && Has(block, field)
    ensures Written(Put(block, other, y), index, builders, field) == Put(Written(block, index, builders, field), other, y)
    ensures (index, field) in builders ==> Has(Put(block, other, y), field)
  {
    if (index, field) in builders {
      PutCommutes(block, field, String(builders[(index, field)]), other, y);
      PutOther(block, other, y, field);
    }
  }

  lemma {:induction false} WrittenHas(block: Block, index: int, builders: map<(int, Text), Text>, field: Text, other: Text)
    ensures Has(block, other) ==> Has(Written(block, index, builders, field), other)
    ensures field != other ==> Lookup(Written(block, index, builders, field), other) == Lookup(block, other)
  {
    if (index, field) in builders {
      PutTwice(block, field, String(builders[(index, field)]), Null);
      if field != other {
        PutOther(block, field, String(builders[(index, field)]), other);
      }
    }
  }

  /** Setting a field without a builder commutes with writing back. */
  lemma {:induction false} BackCommutes(block: Block, index: int, builders: map<(int, Text), Text>, other: Text, y: Json)
    requires (index, other) !in builders && forall field :: (index, field) in builders ==> Has(block, field)
    ensures WrittenBack(Put(block, other, y), index, builders) == Put(WrittenBack(block, index, builders), other, y)
  {
    var one := Written(block, index, builders, TEXT);
    var two := Written(one, index, builders, THINKING);
    WrittenCommutes(block, index, builders, TEXT, other, y);
    WrittenHas(block, index, builders, TEXT, THINKING);
    WrittenHas(block, index, builders, TEXT, PARTIAL_JSON);
    WrittenCommutes(one, index, builders, THINKING, other, y);
    WrittenHas(one, index, builders, THINKING, PARTIAL_JSON);
    WrittenCommutes(two, index, builders, PARTIAL_JSON, other, y);
  }

  predicate IsText(field: Text) {
    field == TEXT || field == THINKING || field == PARTIAL_JSON
  }

  /** With another text in one builder, writing back sets that field after all. */
  lemma {:induction false} BackSets(block: Block, index: int, builders: map<(int, Text), Text>, field: Text, v: Text)
    requires IsText(field) && Has(block, field) && forall f :: (index, f) in builders ==> Has(block, f)
    ensures WrittenBack(block, index, builders[(index, field) := v])
         == Put(WrittenBack(block, index, builders), field, String(v))
  {
    var more := builders[(index, field) := v];
    var one, two := Written(block, index, builders, TEXT), Written(Written(block, index, builders, TEXT), index, builders, THINKING);
    FieldsDiffer();
    WrittenHas(block, index, builders, TEXT, THINKING);
    WrittenHas(block, index, builders, TEXT, PARTIAL_JSON);
    WrittenHas(one, index, builders, THINKING, PARTIAL_JSON);
    if field == PARTIAL_JSON {
      WrittenSets(two, index, builders, field, v);
    } else if field == THINKING {
      WrittenSets(one, index, builders, field, v);
      WrittenCommutes(two, index, builders, PARTIAL_JSON, field, String(v));
    } else {
      WrittenSets(block, index, builders, field, v);
      WrittenCommutes(one, index, builders, THINKING, field, String(v));
      WrittenCommutes(two, index, builders, PARTIAL_JSON, field, String(v));
    }
  }

  lemma {:induction false} WrittenSets(block: Block, index: int, builders: map<(int, Text), Text>, field: Text, v: Text)
    ensures Written(block, index, builders[(index, field) := v], field)
         == Put(Written(block, index, builders, field), field, String(v))
  {
    if (index, field) in builders {
      PutTwice(block, field, String(builders[(index, field)]), String(v));
    }
  }

  /** What a field holds once its block is written back. */
  lemma {:induction false} BackHolds(block: Block, index: int, builders: map<(int, Text), Text>, field: Text)
    requires IsText(field)
    ensures StringOf(WrittenBack(block, index, builders), field)
         == if (index, field) in builders then builders[(index, field)] else StringOf(block, field)
  {
    var one := Written(block, index, builders, TEXT);
    var two := Written(one, index, builders, THINKING);
    FieldsDiffer();
    WrittenHolds(block, index, builders, TEXT, field);
    WrittenHolds(one, index, builders, THINKING, field);
    WrittenHolds(two, index, builders, PARTIAL_JSON, field);
  }

  lemma {:induction false} WrittenHolds(block: Block, index: int, builders: map<(int, Text), Text>, field: Text, other: Text)
    ensures StringOf(Written(block, index, builders, field), other)
         == if field == other && (index, field) in builders then builders[(index, field)] else StringOf(block, other)
  {
    WrittenHas(block, index, builders, field, other);
    if (index, field) in builders {
      PutTwice(block, field, String(builders[(index, field)]), Null);
    }
  }

  // ----- The reader

  method Append(d: Deferred, index: int, field: Text, part: Text) returns (r: Deferred)
    requires index in d.state.blocks
    ensures r == DeferredAppend(d, index, field, part)
  {
    var blocks, builders := d.state.blocks, d.builders;
    if (index, field) !in builders {
      builders := builders[(index, field) := StringOf(blocks[index], field)];
      blocks := blocks[index := Put(blocks[index], field, String([]))];
    }
    builders := builders[(index, field) := builders[(index, field)] + part];
    return Deferred(d.state.(blocks := blocks), builders);
  }

  function DeferredAppend(d: Deferred, index: int, field: Text, part: Text): Deferred
    requires index in d.state.blocks
  {
    if (index, field) in d.builders then d.(builders := d.builders[(index, field) := d.builders[(index, field)] + part])
    else
      var block := d.state.blocks[index];
      Deferred(d.state.(blocks := d.state.blocks[index := Put(block, field, String([]))]),
               d.builders[(index, field) := StringOf(block, field)][(index, field) := StringOf(block, field) + part])
  }

  /** Appending to a builder is appending to its block's field, once the builders are written back. */
  lemma {:induction false} AppendDefers(d: Deferred, index: int, field: Text, part: Text)
    requires Placed(d) && index in d.state.blocks && IsText(field)
    ensures var r := DeferredAppend(d, index, field, part);
      && WrittenBack(r.state.blocks[index], index, r.builders)
         == Appended(WrittenBack(d.state.blocks[index], index, d.builders), field, part)
  {
    var block := d.state.blocks[index];
    var back := WrittenBack(block, index, d.builders);
    var v := StringOf(back, field) + part;
    BackHolds(block, index, d.builders, field);
    if (index, field) in d.builders {
      BackSets(block, index, d.builders, field, v);
    } else {
      var placed := Put(block, field, String([]));
      HasAfterPut(block, field);
      BackCommutes(block, index, d.builders, field, String([]));
      BackSets(placed, index, d.builders, field, v);
      PutTwice(back, field, String([]), String(v));
      assert d.builders[(index, field) := StringOf(block, field)][(index, field) := v] == d.builders[(index, field) := v];
    }
  }

  lemma {:induction false} HasAfterPut(block: Block, field: Text)
    ensures forall f :: Has(block, f) || f == field ==> Has(Put(block, field, String([])), f)
  {
    forall f | Has(block, f) || f == field
      ensures Has(Put(block, field, String([])), f)
    {
      PutTwice(block, field, String([]), Null);
      if f != field {
        PutOther(block, field, String([]), f);
      }
    }
  }

  /** Other blocks stay as they are. */
  lemma {:induction false} OthersStay(block: Block, index: int, other: int, builders: map<(int, Text), Text>, field: Text,
                                      v: Text)
    requires index != other
    ensures WrittenBack(block, other, builders[(index, field) := v]) == WrittenBack(block, other, builders)
  {
  }

  lemma {:induction false} AppendKeepsPlaced(d: Deferred, index: int, field: Text, part: Text)
    requires Placed(d) && index in d.state.blocks && IsText(field)
    ensures Placed(DeferredAppend(d, index, field, part))
  {
    HasAfterPut(d.state.blocks[index], field);
  }

  /** One frame read with builders; the rest of the state is read alike. */
  function DeferredRead(d: Deferred, f: Frame): Option<Deferred> {
    match FrameRead(d.state, f)
    case None => None
    case Some(s) =>
      if f.BlockDelta? && !f.delta.SignatureDelta? then
        var r := DeferredAppend(d, f.index.value, FieldOf(f.delta).value, f.delta.part);
        Some(r.(state := r.state.(events := s.events)))
      else Some(d.(state := s))
  }

  /** A delta applied to its block, by builder or, for a signature, in place; and the text it delivers. */
  method Apply(d: Deferred, index: Option<int>, delta: Delta) returns (r: Option<Deferred>)
    requires !d.state.done
    ensures r == DeferredRead(d, BlockDelta(index, delta))
  {
    var s := d.state;
    if index.None? || index.value !in s.blocks { return None; }
    assert s.events + [] == s.events;
    match delta
    case TextDelta(text) =>
      var appended := Append(d, index.value, TEXT, text);
      if |text| > 0 { appended := appended.(state := appended.state.(events := s.events + [TextEvent(text)])); }
      return Some(appended);
    case ThinkingDelta(thinking) =>
      var appended := Append(d, index.value, THINKING, thinking);
      return Some(appended);
    case JsonDelta(partial) =>
      var appended := Append(d, index.value, PARTIAL_JSON, partial);
      return Some(appended);
    case SignatureDelta(signature) =>
      var block := Put(s.blocks[index.value], SIGNATURE, String(signature));
      return Some(d.(state := s.(blocks := s.blocks[index.value := block])));
    case BadDelta => return None;
  }

  method ReadFrame(d: Deferred, f: Frame) returns (r: Option<Deferred>)
    ensures r == DeferredRead(d, f)
  {
    var s := d.state;
    if f.Unreadable? { return None; }
    if s.done && !f.Ping? { return None; }
    match f
    case BlockStart(index, block) =>
      if index.None? || block.None? { return None; }
      if index.value in s.blocks { return None; }
      return Some(d.(state := s.(blocks := s.blocks[index.value := block.value])));
    case BlockDelta(index, delta) =>
      r := Apply(d, index, delta);
    case BlockStop(index) =>
      if index.None? || index.value !in s.blocks || index.value in s.stopped { return None; }
      return Some(d.(state := s.(stopped := s.stopped + {index.value})));
    case MessageDelta(reason) =>
      if reason.OtherReason? { return Some(d.(state := s.(failed := true))); }
      return Some(d.(state := s.(reason := Some(reason))));
    case MessageStop => return Some(d.(state := s.(done := true)));
    case ErrorFrame => return None;
    case _ => return Some(d);
  }

  // ----- The builders make no difference

  /** The state with the builders written back is the state of appending in place. */
  ghost predicate Stands(d: Deferred, s: State) {
    && Placed(d) && d.state.blocks.Keys == s.blocks.Keys && d.state == s.(blocks := d.state.blocks)
    && forall index :: index in s.blocks ==> WrittenBack(d.state.blocks[index], index, d.builders) == s.blocks[index]
  }

  /** A block that has only just started has no builder. */
  lemma {:induction false} StartStands(d: Deferred, s: State, f: Frame)
    requires Stands(d, s) && f.BlockStart? && FrameRead(s, f).Some?
    ensures DeferredRead(d, f).Some? && Stands(DeferredRead(d, f).value, FrameRead(s, f).value)
  {
    var index := f.index.value;
    assert forall field :: (index, field) !in d.builders;
  }

  /** What an append leaves of the other blocks, written back. */
  lemma {:induction false} OthersStand(d: Deferred, index: int, field: Text, part: Text, other: int)
    requires index in d.state.blocks && other in d.state.blocks && other != index
    ensures var r := DeferredAppend(d, index, field, part);
      && other in r.state.blocks
      && WrittenBack(r.state.blocks[other], other, r.builders) == WrittenBack(d.state.blocks[other], other, d.builders)
  {
    var r := DeferredAppend(d, index, field, part);
    OthersStay(d.state.blocks[other], index, other, d.builders, field, r.builders[(index, field)]);
    assert r.builders == d.builders[(index, field) := r.builders[(index, field)]];
  }

  lemma {:induction false} AppendKeepsState(d: Deferred, index: int, field: Text, part: Text)
    requires index in d.state.blocks
    ensures var r := DeferredAppend(d, index, field, part);
      r.state.blocks.Keys == d.state.blocks.Keys && r.state == d.state.(blocks := r.state.blocks)
  {
  }

  lemma {:induction false} AppendStands(d: Deferred, s: State, f: Frame)
    requires Stands(d, s) && f.BlockDelta? && !f.delta.SignatureDelta? && FrameRead(s, f).Some?
    ensures DeferredRead(d, f).Some? && Stands(DeferredRead(d, f).value, FrameRead(s, f).value)
  {
    var index, field, part := f.index.value, FieldOf(f.delta).value, f.delta.part;
    AppendDefers(d, index, field, part);
    AppendKeepsPlaced(d, index, field, part);
    AppendKeepsState(d, index, field, part);
    forall other | other in s.blocks && other != index
      ensures var r := DeferredAppend(d, index, field, part);
        other in r.state.blocks && WrittenBack(r.state.blocks[other], other, r.builders) == s.blocks[other]
    {
      OthersStand(d, index, field, part, other);
    }
  }

  lemma {:induction false} SignatureStands(d: Deferred, s: State, f: Frame)
    requires Stands(d, s) && f.BlockDelta? && f.delta.SignatureDelta? && FrameRead(s, f).Some?
    ensures DeferredRead(d, f).Some? && Stands(DeferredRead(d, f).value, FrameRead(s, f).value)
  {
    var index := f.index.value;
    var block, signature := d.state.blocks[index], String(f.delta.part);
    FieldsDiffer();
    assert (index, SIGNATURE) !in d.builders;
    BackCommutes(block, index, d.builders, SIGNATURE, signature);
    forall field | (index, field) in d.builders
      ensures Has(Put(block, SIGNATURE, signature), field)
    {
      PutOther(block, SIGNATURE, signature, field);
    }
  }

  lemma {:induction false} FrameStands(d: Deferred, s: State, f: Frame)
    requires Stands(d, s)
    ensures DeferredRead(d, f).Some? <==> FrameRead(s, f).Some?
    ensures FrameRead(s, f).Some? ==> Stands(DeferredRead(d, f).value, FrameRead(s, f).value)
  {
    if FrameRead(s, f).Some? {
      if f.BlockStart? {
        StartStands(d, s, f);
      } else if f.BlockDelta? {
        if f.delta.SignatureDelta? {
          SignatureStands(d, s, f);
        } else {
          AppendStands(d, s, f);
        }
      }
    }
  }

  lemma {:induction false} FinishedStands(d: Deferred, s: State)
    requires Stands(d, s)
    ensures Finished(d) == s
  {
    assert Finished(d).blocks == s.blocks;
  }

  lemma {:induction false} ReadMore(frames: seq<Frame>, f: Frame)
    ensures FramesRead(frames + [f]) == match FramesRead(frames) case None => None case Some(s) => FrameRead(s, f)
  {
    assert (frames + [f])[..|frames|] == frames;
  }

  lemma {:induction false} NoneStaysNone(frames: seq<Frame>, k: nat)
    requires k <= |frames| && FramesRead(frames[..k]).None?
    ensures FramesRead(frames).None?
    decreases |frames| - k
  {
    if k < |frames| {
      assert frames[..k + 1] == frames[..k] + [frames[k]];
      ReadMore(frames[..k], frames[k]);
      NoneStaysNone(frames, k + 1);
    } else {
      assert frames[..k] == frames;
    }
  }

  /** All the frames, with builders: the result is that of appending in place. */
  method ReadFrames(frames: seq<Frame>) returns (r: Option<State>)
    ensures r == FramesRead(frames)
  {
    var d := Deferred(START, map[]);
    for i := 0 to |frames|
      invariant FramesRead(frames[..i]).Some? && Stands(d, FramesRead(frames[..i]).value)
    {
      assert frames[..i + 1] == frames[..i] + [frames[i]];
      ReadMore(frames[..i], frames[i]);
      FrameStands(d, FramesRead(frames[..i]).value, frames[i]);
      var next := ReadFrame(d, frames[i]);
      if next.None? {
        NoneStaysNone(frames, i + 1);
        return None;
      }
      d := next.value;
    }
    assert frames[..|frames|] == frames;
    FinishedStands(d, FramesRead(frames).value);
    return Some(Finished(d));
  }

  // ----- What a field holds

  /** The block that a stream starts under an index. */
  function StartOf(frames: seq<Frame>, index: int): Option<Block> {
    if frames == [] then None
    else
      var f := frames[|frames| - 1];
      if f.BlockStart? && f.index == Some(index) then f.block else StartOf(frames[..|frames| - 1], index)
  }

  /** The text that the deltas of an index append to a field, in order. */
  function PartsOf(frames: seq<Frame>, index: int, field: Text): Text {
    if frames == [] then []
    else
      var f := frames[|frames| - 1];
      PartsOf(frames[..|frames| - 1], index, field) + PartOf(f, index, field)
  }

  lemma {:induction false} AppendedHolds(block: Block, field: Text, part: Text, other: Text)
    ensures StringOf(Appended(block, field, part), other)
         == if field == other then StringOf(block, field) + part else StringOf(block, other)
  {
    PutTwice(block, field, String(StringOf(block, field) + part), Null);
    if field != other {
      PutOther(block, field, String(StringOf(block, field) + part), other);
    }
  }

  /** What a frame makes of a text field of a block that was there before it. */
  lemma {:induction false} FrameHolds(s: State, f: Frame, index: int, field: Text)
    requires FrameRead(s, f).Some? && index in s.blocks && IsText(field)
    ensures index in FrameRead(s, f).value.blocks && !(f.BlockStart? && f.index == Some(index))
    ensures StringOf(FrameRead(s, f).value.blocks[index], field)
         == StringOf(s.blocks[index], field) + PartOf(f, index, field)
  {
    assert StringOf(s.blocks[index], field) + [] == StringOf(s.blocks[index], field);
    if f.BlockDelta? && f.index == Some(index) {
      DeltaHolds(s.blocks[index], f.delta, field);
    }
  }

  /** The text that one frame appends to a field of a block. */
  function PartOf(f: Frame, index: int, field: Text): Text {
    if f.BlockDelta? && f.index == Some(index) && FieldOf(f.delta) == Some(field) then f.delta.part else []
  }

  lemma {:induction false} FieldGathers(frames: seq<Frame>, index: int, field: Text)
    requires FramesRead(frames).Some? && index in FramesRead(frames).value.blocks && IsText(field)
    ensures StartOf(frames, index).Some?
    ensures StringOf(FramesRead(frames).value.blocks[index], field)
         == StringOf(StartOf(frames, index).value, field) + PartsOf(frames, index, field)
  {
    var f, front := frames[|frames| - 1], frames[..|frames| - 1];
    var s := FramesRead(front).value;
    if index in s.blocks {
      FrameHolds(s, f, index, field);
      FieldGathers(front, index, field);
      Associate(StringOf(StartOf(front, index).value, field), PartsOf(front, index, field), PartOf(f, index, field));
    } else {
      NoPartsBefore(front, index, field);
      assert PartsOf(frames, index, field) == [];
      assert StringOf(f.block.value, field) + [] == StringOf(f.block.value, field);
    }
  }

  lemma {:induction false} DeltaHolds(block: Block, delta: Delta, field: Text)
    requires !delta.BadDelta? && IsText(field)
    ensures StringOf(Applied(block, delta), field)
         == if FieldOf(delta) == Some(field) then StringOf(block, field) + delta.part else StringOf(block, field)
  {
    FieldsDiffer();
    if delta.SignatureDelta? {
      PutOther(block, SIGNATURE, String(delta.part), field);
    } else {
      AppendedHolds(block, FieldOf(delta).value, delta.part, field);
    }
  }

  lemma {:induction false} NoPartsBefore(frames: seq<Frame>, index: int, field: Text)
    requires FramesRead(frames).Some? && index !in FramesRead(frames).value.blocks
    ensures PartsOf(frames, index, field) == []
  {
    if frames != [] {
      NoPartsBefore(frames[..|frames| - 1], index, field);
    }
  }

  // ----- The calls

  /** Removes a key. */
  function Removed(block: Block, field: Text): Block {
    if block == [] then [] else if block[0].key == field then block[1..] else [block[0]] + Removed(block[1..], field)
  }

  predicate IsToolUse(block: Block) {
    Lookup(block, TYPE) == Some(String(TOOL_USE))
  }

  predicate HasText(block: Block, field: Text) {
    match Lookup(block, field)
    case Some(String(text)) => text != []
    case _ => false
  }

  /** Assembled tool JSON becomes the block's input; a tool use needs an id, a name and an input. */
  function Finalized(num: Text -> Double, block: Block): Option<Block> {
    var parsed := match Lookup(block, PARTIAL_JSON)
      case Some(String(json)) =>
        (match ParseText(num, json)
         case Bad(_) => None
         case Ok(input, _) => Some(Removed(Put(block, INPUT, input), PARTIAL_JSON)))
      case _ => Some(block);
    if parsed.Some? && IsToolUse(parsed.value)
       && !(HasText(parsed.value, ID) && HasText(parsed.value, NAME) && Has(parsed.value, INPUT)) then None
    else parsed
  }

  function CallOfBlock(block: Block): seq<Call> {
    if IsToolUse(block) then [Call(StringOf(block, ID), StringOf(block, NAME), LookupOr(block, INPUT))] else []
  }

  function CallsOfBlocks(content: seq<Block>): seq<Call> {
    if content == [] then [] else CallOfBlock(content[0]) + CallsOfBlocks(content[1..])
  }

  function FinalizedAll(num: Text -> Double, blocks: map<int, Block>, keys: seq<int>): Option<seq<Block>>
    requires forall i :: 0 <= i < |keys| ==> keys[i] in blocks
  {
    if keys == [] then Some([])
    else match (Finalized(num, blocks[keys[0]]), FinalizedAll(num, blocks, keys[1..]))
      case (Some(block), Some(rest)) => Some([block] + rest)
      case _ => None
  }

  method FinalizeAll(num: Text -> Double, blocks: map<int, Block>, keys: seq<int>) returns (r: Option<seq<Block>>)
    requires forall i :: 0 <= i < |keys| ==> keys[i] in blocks
    ensures r == FinalizedAll(num, blocks, keys)
  {
    var content: seq<Block> := [];
    assert keys[0..] == keys;
    assert FinalizedAll(num, blocks, keys).Some? ==>
        [] + FinalizedAll(num, blocks, keys).value == FinalizedAll(num, blocks, keys).value;
    for i := 0 to |keys|
      invariant FinalizedAll(num, blocks, keys)
             == match FinalizedAll(num, blocks, keys[i..]) case None => None case Some(rest) => Some(content + rest)
    {
      assert keys[i..][1..] == keys[i + 1..];
      var block := Finalized(num, blocks[keys[i]]);
      if block.None? { return None; }
      if FinalizedAll(num, blocks, keys[i + 1..]).Some? {
        assert content + ([block.value] + FinalizedAll(num, blocks, keys[i + 1..]).value)
            == (content + [block.value]) + FinalizedAll(num, blocks, keys[i + 1..]).value;
      }
      content := content + [block.value];
    }
    assert keys[|keys|..] == [] && content + [] == content;
    return Some(content);
  }

  // ----- What frames say

  /** The indices of the blocks that start. */
  function Started(frames: seq<Frame>): set<int> {
    set f | f in frames && f.BlockStart? && f.index.Some? && f.block.Some? :: f.index.value
  }

  /** The indices of the blocks that stop. */
  function Ceased(frames: seq<Frame>): set<int> {
    set f | f in frames && f.BlockStop? && f.index.Some? :: f.index.value
  }

  /** A frame may come after others: a block starts once, before its deltas and its one stop, and only pings follow the end
      of the message. */
  predicate Fits(before: seq<Frame>, f: Frame) {
    match f
    case Ping => true
    case Unreadable => false
    case ErrorFrame => false
    case BlockStart(index, block) =>
      MessageStop !in before && index.Some? && block.Some? && index.value !in Started(before)
    case BlockDelta(index, delta) =>
      MessageStop !in before && index.Some? && index.value in Started(before) && !delta.BadDelta?
    case BlockStop(index) =>
      MessageStop !in before && index.Some? && index.value in Started(before) && index.value !in Ceased(before)
    case _ => MessageStop !in before
  }

  predicate AllFit(frames: seq<Frame>) {
    forall k :: 0 <= k < |frames| ==> Fits(frames[..k], frames[k])
  }

  /** The last reason that ends a message well. */
  function LastReason(frames: seq<Frame>): Option<Reason> {
    if frames == [] then None
    else
      var f := frames[|frames| - 1];
      if f.MessageDelta? && !f.reason.OtherReason? then Some(f.reason) else LastReason(frames[..|frames| - 1])
  }

  function DeltasOf(frames: seq<Frame>, index: int): seq<Delta> {
    if frames == [] then []
    else
      var f := frames[|frames| - 1];
      DeltasOf(frames[..|frames| - 1], index) + if f.BlockDelta? && f.index == Some(index) then [f.delta] else []
  }

  /** A block with deltas applied one after another. */
  function AppliedAll(block: Block, deltas: seq<Delta>): Block {
    if deltas == [] then block
    else
      var n := |deltas| - 1;
      if deltas[n].BadDelta? then AppliedAll(block, deltas[..n]) else Applied(AppliedAll(block, deltas[..n]), deltas[n])
  }

  /** A block as the frames leave it: what starts it, with its own deltas applied in order. */
  function BlockOf(frames: seq<Frame>, index: int): Block {
    match StartOf(frames, index)
    case None => []
    case Some(block) => AppliedAll(block, DeltasOf(frames, index))
  }

  function BlocksOf(frames: seq<Frame>): (blocks: map<int, Block>)
    ensures blocks.Keys == Started(frames)
  {
    map index | index in Started(frames) :: BlockOf(frames, index)
  }

  /** The texts of the text deltas, but empty ones. */
  function TextsOf(frames: seq<Frame>): seq<Event> {
    if frames == [] then []
    else
      var f := frames[|frames| - 1];
      TextsOf(frames[..|frames| - 1]) + if f.BlockDelta? then TextEventsOf(f.delta) else []
  }

  /** The state holds what the frames say. */
  ghost predicate Holds(s: State, frames: seq<Frame>) {
    && s.blocks == BlocksOf(frames) && s.stopped == Ceased(frames) && s.events == TextsOf(frames)
    && (s.done <==> MessageStop in frames) && (s.failed <==> MessageDelta(OtherReason) in frames)
    && s.reason == LastReason(frames)
  }

  lemma {:induction false} InMore(frames: seq<Frame>, f: Frame)
    ensures (frames + [f])[..|frames|] == frames && (frames + [f])[|frames|] == f
    ensures forall g :: g in frames + [f] <==> g in frames || g == f
  {
  }

  lemma {:induction false} FitsMore(frames: seq<Frame>, f: Frame)
    ensures AllFit(frames + [f]) <==> AllFit(frames) && Fits(frames, f)
  {
    var more := frames + [f];
    InMore(frames, f);
    assert forall k :: 0 <= k < |frames| ==> more[..k] == frames[..k] && more[k] == frames[k];
    if AllFit(more) {
      forall k | 0 <= k < |frames|
        ensures Fits(frames[..k], frames[k])
      {
        assert Fits(more[..k], more[k]);
      }
      assert Fits(more[..|frames|], more[|frames|]);
    }
  }

  lemma {:induction false} StartedMore(frames: seq<Frame>, f: Frame)
    ensures Started(frames + [f])
         == Started(frames) + if f.BlockStart? && f.index.Some? && f.block.Some? then {f.index.value} else {}
  {
    InMore(frames, f);
  }

  lemma {:induction false} CeasedMore(frames: seq<Frame>, f: Frame)
    ensures Ceased(frames + [f]) == Ceased(frames) + if f.BlockStop? && f.index.Some? then {f.index.value} else {}
  {
    InMore(frames, f);
  }

  /** No delta comes before its block. */
  lemma {:induction false} NoDeltasBefore(frames: seq<Frame>, index: int)
    requires AllFit(frames) && index !in Started(frames)
    ensures DeltasOf(frames, index) == []
  {
    if frames != [] {
      var front, f := frames[..|frames| - 1], frames[|frames| - 1];
      assert frames == front + [f];
      FitsMore(front, f);
      StartedMore(front, f);
      NoDeltasBefore(front, index);
    }
  }

  lemma {:induction false} AppliedMore(block: Block, deltas: seq<Delta>, delta: Delta)
    requires !delta.BadDelta?
    ensures AppliedAll(block, deltas + [delta]) == Applied(AppliedAll(block, deltas), delta)
  {
    assert (deltas + [delta])[..|deltas|] == deltas;
  }

  lemma {:induction false} StartFound(frames: seq<Frame>, index: int)
    requires AllFit(frames) && index in Started(frames)
    ensures StartOf(frames, index).Some?
  {
    var front, f := frames[..|frames| - 1], frames[|frames| - 1];
    assert frames == front + [f];
    FitsMore(front, f);
    StartedMore(front, f);
    if !(f.BlockStart? && f.index == Some(index)) {
      StartFound(front, index);
    }
  }

  /** One block after one more frame. */
  lemma {:induction false} BlockMore(frames: seq<Frame>, f: Frame, index: int)
    requires AllFit(frames) && Fits(frames, f) && index in Started(frames + [f])
    ensures BlockOf(frames + [f], index)
         == if f.BlockStart? && f.index == Some(index) then f.block.value
            else if f.BlockDelta? && f.index == Some(index) then Applied(BlockOf(frames, index), f.delta)
            else BlockOf(frames, index)
  {
    InMore(frames, f);
    StartedMore(frames, f);
    if f.BlockStart? && f.index == Some(index) {
      NoDeltasBefore(frames, index);
    } else {
      StartFound(frames, index);
      if f.BlockDelta? && f.index == Some(index) {
        AppliedMore(StartOf(frames, index).value, DeltasOf(frames, index), f.delta);
      } else {
        assert DeltasOf(frames, index) + [] == DeltasOf(frames, index);
      }
    }
  }

  /** A frame is read exactly when it fits, and what it does to one block. */
  lemma {:induction false} FrameFits(s: State, frames: seq<Frame>, f: Frame)
    requires s.blocks.Keys == Started(frames) && s.stopped == Ceased(frames)
    requires s.done <==> MessageStop in frames
    ensures FrameRead(s, f).Some? <==> Fits(frames, f)
    ensures FrameRead(s, f).Some? ==> FrameRead(s, f).value.blocks.Keys == Started(frames + [f])
  {
    StartedMore(frames, f);
  }

  lemma {:induction false} FrameMakes(s: State, f: Frame, index: int)
    requires FrameRead(s, f).Some? && index in FrameRead(s, f).value.blocks
    ensures if f.BlockStart? && f.index == Some(index) then FrameRead(s, f).value.blocks[index] == f.block.value
            else
              && index in s.blocks
              && FrameRead(s, f).value.blocks[index]
                 == if f.BlockDelta? && f.index == Some(index) then Applied(s.blocks[index], f.delta) else s.blocks[index]
  {
  }

  lemma {:induction false} BlockStays(s: State, frames: seq<Frame>, f: Frame, index: int)
    requires AllFit(frames) && Fits(frames, f) && s.blocks == BlocksOf(frames)
    requires FrameRead(s, f).Some? && index in FrameRead(s, f).value.blocks && index in Started(frames + [f])
    ensures FrameRead(s, f).value.blocks[index] == BlockOf(frames + [f], index)
  {
    FrameMakes(s, f, index);
    BlockMore(frames, f, index);
  }

  /** The blocks after one more frame. */
  lemma {:induction false} BlocksMore(s: State, frames: seq<Frame>, f: Frame)
    requires AllFit(frames) && s.blocks == BlocksOf(frames) && s.stopped == Ceased(frames)
    requires s.done <==> MessageStop in frames
    ensures FrameRead(s, f).Some? <==> Fits(frames, f)
    ensures FrameRead(s, f).Some? ==> FrameRead(s, f).value.blocks == BlocksOf(frames + [f])
  {
    FrameFits(s, frames, f);
    if FrameRead(s, f).Some? {
      var t, more := FrameRead(s, f).value, BlocksOf(frames + [f]);
      forall index | index in t.blocks
        ensures t.blocks[index] == more[index]
      {
        BlockStays(s, frames, f, index);
      }
    }
  }

  lemma {:induction false} HoldsMore(s: State, frames: seq<Frame>, f: Frame)
    requires AllFit(frames) && Holds(s, frames) && FrameRead(s, f).Some?
    ensures Holds(FrameRead(s, f).value, frames + [f])
  {
    BlocksMore(s, frames, f);
    InMore(frames, f);
    CeasedMore(frames, f);
    assert TextsOf(frames) + [] == TextsOf(frames);
  }

  /** The frames are read to their end exactly when each fits those before it, and the state then holds what they say. */
  lemma {:induction false} FramesHold(frames: seq<Frame>)
    ensures FramesRead(frames).Some? <==> AllFit(frames)
    ensures FramesRead(frames).Some? ==> Holds(FramesRead(frames).value, frames)
  {
    if frames == [] {
      assert BlocksOf(frames) == map[];
    } else {
      var front, f := frames[..|frames| - 1], frames[|frames| - 1];
      assert frames == front + [f];
      FramesHold(front);
      FitsMore(front, f);
      if AllFit(front) {
        BlocksMore(FramesRead(front).value, front, f);
        if Fits(front, f) {
          HoldsMore(FramesRead(front).value, front, f);
        }
      }
    }
  }

  /** Each text field of a block holds its first text and then the concatenation of its own deltas, whatever other deltas
      come between them. */
  lemma {:induction false} FieldIsConcatenated(frames: seq<Frame>, index: int, field: Text)
    requires AllFit(frames) && index in Started(frames) && IsText(field)
    ensures StartOf(frames, index).Some?
    ensures StringOf(BlockOf(frames, index), field)
         == StringOf(StartOf(frames, index).value, field) + PartsOf(frames, index, field)
  {
    FramesHold(frames);
    FieldGathers(frames, index, field);
  }

  /** The assistant's blocks in the order of their indices, if every one is complete. */
  function ContentOf(num: Text -> Double, frames: seq<Frame>): Option<seq<Block>> {
    AscendingIs(Started(frames));
    FinalizedAll(num, BlocksOf(frames), Ascending(Started(frames)))
  }

  /** The stream ends well: each frame fits those before it, the message stops, the blocks that start are those that stop,
      there is a good reason and no bad one, and the reason agrees with the calls, which are complete and valid. */
  predicate EndsWell(num: Text -> Double, frames: seq<Frame>, advertised: set<Text>) {
    && AllFit(frames) && MessageStop in frames && MessageDelta(OtherReason) !in frames && LastReason(frames).Some?
    && Started(frames) == Ceased(frames) && ContentOf(num, frames).Some?
    && var calls := CallsOfBlocks(ContentOf(num, frames).value);
       AreValid(calls, advertised) && (LastReason(frames) == Some(ToolUse) <==> calls != [])
  }

  lemma {:induction false} StoppedWithin(frames: seq<Frame>)
    requires FramesRead(frames).Some?
    ensures FramesRead(frames).value.stopped <= FramesRead(frames).value.blocks.Keys
  {
    if frames != [] {
      StoppedWithin(frames[..|frames| - 1]);
    }
  }

  function CallEvents(calls: seq<Call>): (events: seq<Event>)
    ensures |events| == |calls| && forall i :: 0 <= i < |calls| ==> events[i] == CallEvent(calls[i])
  {
    seq(|calls|, i requires 0 <= i < |calls| => CallEvent(calls[i]))
  }

  method CollectCalls(content: seq<Block>) returns (calls: seq<Call>)
    ensures calls == CallsOfBlocks(content)
  {
    calls := [];
    assert content[0..] == content;
    for i := 0 to |content|
      invariant calls + CallsOfBlocks(content[i..]) == CallsOfBlocks(content)
    {
      assert content[i..][1..] == content[i + 1..];
      assert calls + (CallOfBlock(content[i]) + CallsOfBlocks(content[i + 1..]))
          == (calls + CallOfBlock(content[i])) + CallsOfBlocks(content[i + 1..]);
      calls := calls + CallOfBlock(content[i]);
    }
    assert content[|content|..] == [] && calls + [] == calls;
  }

  /** A message is delivered exactly when the stream ends well: its text, then its calls, then its content and calls. */
  method Read(num: Text -> Double, frames: seq<Frame>, advertised: set<Text>) returns (events: Option<seq<Event>>)
    ensures events.Some? <==> EndsWell(num, frames, advertised)
    ensures events.Some? ==>
      var content := ContentOf(num, frames).value; var calls := CallsOfBlocks(content);
      events.value == TextsOf(frames) + CallEvents(calls) + [DoneEvent(content, calls)]
  {
    FramesHold(frames);
    var read := ReadFrames(frames);
    if read.None? { return None; }
    var s := read.value;
    if s.failed || !s.done || s.reason.None? { return None; }
    StoppedWithin(frames);
    SameSize(s.stopped, s.blocks.Keys);
    if |s.stopped| != |s.blocks| { return None; }
    AscendingIs(s.blocks.Keys);
    var content := FinalizeAll(num, s.blocks, Ascending(s.blocks.Keys));
    if content.None? { return None; }
    var calls := CollectCalls(content.value);
    if (s.reason == Some(ToolUse)) != (|calls| > 0) { return None; }
    var valid := ValidateCalls(calls, advertised);
    if !valid { return None; }
    return Some(s.events + CallEvents(calls) + [DoneEvent(content.value, calls)]);
  }

  lemma {:induction false} RemovedOther(block: Block, field: Text, other: Text)
    requires field != other
    ensures Lookup(Removed(block, field), other) == Lookup(block, other)
  {
    if block != [] && block[0].key != field {
      RemovedOther(block[1..], field, other);
      assert Removed(block, field)[1..] == Removed(block[1..], field);
    }
  }

  /** A finalized tool use makes one call, with a non-empty id and name, whose arguments are read from its assembled JSON. */
  lemma {:induction false} CallHasInput(num: Text -> Double, block: Block)
    requires Finalized(num, block).Some? && IsToolUse(Finalized(num, block).value)
    ensures var calls := CallOfBlock(Finalized(num, block).value);
      && |calls| == 1 && calls[0].id != [] && calls[0].name != []
      && (match Lookup(block, PARTIAL_JSON)
          case Some(String(json)) => ParseText(num, json) == Ok(calls[0].arguments, [])
          case _ => Lookup(block, INPUT) == Some(calls[0].arguments))
  {
    match Lookup(block, PARTIAL_JSON)
    case Some(String(json)) =>
      var input := ParseText(num, json).value;
      assert |INPUT| == 5 && |PARTIAL_JSON| == 6;
      PutTwice(block, INPUT, input, Null);
      RemovedOther(Put(block, INPUT, input), PARTIAL_JSON, INPUT);
    case _ =>
  }
}
