/**
 A chat completion from its stream of deltas. A call's id, name and argument text arrive in fragments that name it by
 index, in any interleaving; when the stream ends well, the calls are those the fragments spell, in the order of indices.
 */
module ChatCompletionsStream {
  import opened Utf16
  import opened Wrappers
  import opened Sequences
  import opened IntOrder
  import opened JsonText
  import opened ProviderCalls

  /** A tool-call fragment, or one that is not an object with an integer index. */
  datatype Fragment = Fragment(index: int, id: Option<Text>, name: Option<Text>, arguments: Option<Text>) | BadFragment

  /** The finish reason: absent or null, another falsy value, "tool_calls", "stop", or any other. */
  datatype Finish = Absent | Falsy | ToolCalls | Stop | OtherFinish

  datatype Choice = Choice(content: Option<Text>, unsupported: bool, fragments: Option<seq<Fragment>>, finish: Finish)

  /** A frame: the end mark, one that cannot be read, an error, or choices. */
  datatype Frame = DoneMark | Unreadable | ErrorFrame | Choices(choices: seq<Choice>)

  datatype Event = TextEvent(text: Text) | CallEvent(call: Call) | DoneEvent(content: Option<Text>, calls: seq<Call>)

  datatype Part = Part(id: Option<Text>, name: Option<Text>, arguments: Text)

  // ----- What a stream spells

  /** All the choices before the end mark. */
  function AllChoices(frames: seq<Frame>): seq<Choice> {
    if frames == [] then []
    else (match frames[0] case Choices(choices) => choices case _ => []) + AllChoices(frames[1..])
  }

  function AllFragments(choices: seq<Choice>): seq<Fragment> {
    if choices == [] then []
    else (match choices[0].fragments case Some(fragments) => fragments case None => []) + AllFragments(choices[1..])
  }

  function Texts(choices: seq<Choice>): seq<Text> {
    if choices == [] then []
    else (match choices[0].content case Some(text) => [text] case None => []) + Texts(choices[1..])
  }

  /** The finish reasons that end a completion. */
  function Finishes(choices: seq<Choice>): seq<Finish> {
    if choices == [] then []
    else (if choices[0].finish.ToolCalls? || choices[0].finish.Stop? then [choices[0].finish] else []) + Finishes(choices[1..])
  }

  /** The fragments of one call, whatever comes between them. */
  function Of(fragments: seq<Fragment>, index: int): seq<Fragment> {
    if fragments == [] then []
    else (if fragments[0].Fragment? && fragments[0].index == index then [fragments[0]] else []) + Of(fragments[1..], index)
  }

  /** The last id given, the last name given, and all the argument text. */
  function PartOf(fragments: seq<Fragment>): Part {
    if fragments == [] then Part(None, None, [])
    else
      var n := |fragments| - 1;
      Extended(PartOf(fragments[..n]), fragments[n])
  }

  function Extended(part: Part, f: Fragment): Part {
    if f.BadFragment? then part
    else Part(if f.id.Some? then f.id else part.id, if f.name.Some? then f.name else part.name,
              part.arguments + match f.arguments case Some(text) => text case None => [])
  }

  function Indices(fragments: seq<Fragment>): set<int> {
    set i | 0 <= i < |fragments| && fragments[i].Fragment? :: fragments[i].index
  }

  // ----- Assembling

  function CallFrom(num: Text -> Double, part: Part): Option<Call> {
    if part.id.None? || part.id.value == [] || part.name.None? || part.name.value == [] then None
    else match ParseText(num, part.arguments)
      case Bad(_) => None
      case Ok(arguments, _) => Some(Call(part.id.value, part.name.value, arguments))
  }

  function Assembled(num: Text -> Double, parts: map<int, Part>, keys: seq<int>): Option<seq<Call>>
    requires forall i :: 0 <= i < |keys| ==> keys[i] in parts
  {
    if keys == [] then Some([])
    else match (CallFrom(num, parts[keys[0]]), Assembled(num, parts, keys[1..]))
      case (Some(call), Some(rest)) => Some([call] + rest)
      case _ => None
  }

  /** The parts that fragments spell. */
  function Spelled(fragments: seq<Fragment>): (parts: map<int, Part>)
    ensures parts.Keys == Indices(fragments)
  {
    map index | index in Indices(fragments) :: PartOf(Of(fragments, index))
  }

  lemma {:induction false} OfJoin(a: seq<Fragment>, b: seq<Fragment>, index: int)
    ensures Of(a + b, index) == Of(a, index) + Of(b, index)
  {
    if a == [] {
      assert a + b == b;
      assert [] + Of(b, index) == Of(b, index);
    } else {
      assert (a + b)[1..] == a[1..] + b && (a + b)[0] == a[0];
      OfJoin(a[1..], b, index);
      Associate(if a[0].Fragment? && a[0].index == index then [a[0]] else [], Of(a[1..], index), Of(b, index));
    }
  }

  lemma {:induction false} OfOne(f: Fragment, index: int)
    ensures Of([f], index) == if f.Fragment? && f.index == index then [f] else []
  {
  }

  lemma {:induction false} OfNone(fragments: seq<Fragment>, index: int)
    requires index !in Indices(fragments)
    ensures Of(fragments, index) == []
  {
    if fragments != [] {
      assert fragments[0].Fragment? ==> fragments[0].index in Indices(fragments);
      forall i | i in Indices(fragments[1..])
        ensures i in Indices(fragments)
      {
        var k :| 0 <= k < |fragments[1..]| && fragments[1..][k].Fragment? && fragments[1..][k].index == i;
        assert fragments[k + 1].index == i;
      }
      OfNone(fragments[1..], index);
    }
  }

  function NewPart(): Part {
    Part(None, None, [])
  }

  /** The parts after one more fragment. */
  function WithFragment(parts: map<int, Part>, f: Fragment): map<int, Part>
    requires f.Fragment?
  {
    parts[f.index := Extended(if f.index in parts then parts[f.index] else NewPart(), f)]
  }

  lemma {:induction false} IndicesMore(fragments: seq<Fragment>, f: Fragment)
    requires f.Fragment?
    ensures Indices(fragments + [f]) == Indices(fragments) + {f.index}
  {
    var more := fragments + [f];
    assert more[|fragments|] == f;
    forall i
      ensures i in Indices(more) <==> i in Indices(fragments) + {f.index}
    {
      if i in Indices(fragments) {
        var k :| 0 <= k < |fragments| && fragments[k].Fragment? && fragments[k].index == i;
        assert more[k].index == i;
      }
      if i in Indices(more) && i != f.index {
        var k :| 0 <= k < |more| && more[k].Fragment? && more[k].index == i;
        assert fragments[k].index == i;
      }
    }
  }

  lemma {:induction false} PartMore(fragments: seq<Fragment>, f: Fragment)
    ensures PartOf(fragments + [f]) == Extended(PartOf(fragments), f)
  {
    assert (fragments + [f])[..|fragments|] == fragments;
  }

  /** One index's part after one more fragment. */
  lemma {:induction false} SpelledAt(fragments: seq<Fragment>, f: Fragment, index: int)
    requires f.Fragment?
    ensures PartOf(Of(fragments + [f], index))
         == if index == f.index then Extended(PartOf(Of(fragments, index)), f) else PartOf(Of(fragments, index))
  {
    OfJoin(fragments, [f], index);
    OfOne(f, index);
    if index == f.index {
      PartMore(Of(fragments, index), f);
    } else {
      assert Of(fragments, index) + [] == Of(fragments, index);
    }
  }

  lemma {:induction false} SpelledKeys(fragments: seq<Fragment>, f: Fragment)
    requires f.Fragment?
    ensures Spelled(fragments + [f]).Keys == WithFragment(Spelled(fragments), f).Keys
  {
    IndicesMore(fragments, f);
  }

  lemma {:induction false} SpelledOne(fragments: seq<Fragment>, f: Fragment, index: int)
    requires f.Fragment? && index in Spelled(fragments + [f]) && index in WithFragment(Spelled(fragments), f)
    ensures Spelled(fragments + [f])[index] == WithFragment(Spelled(fragments), f)[index]
  {
    if index !in Indices(fragments) {
      OfNone(fragments, index);
    }
    SpelledAt(fragments, f, index);
  }

  /** Adding fragments one at a time gives what they spell together. */
  lemma {:induction false} SpelledMore(fragments: seq<Fragment>, f: Fragment)
    requires f.Fragment?
    ensures Spelled(fragments + [f]) == WithFragment(Spelled(fragments), f)
  {
    var a, b := Spelled(fragments + [f]), WithFragment(Spelled(fragments), f);
    SpelledKeys(fragments, f);
    forall index | index in a.Keys
      ensures a[index] == b[index]
    {
      SpelledOne(fragments, f, index);
    }
  }

  /** Where the loop is: the parts, the content, whether the end mark came, and the finish reasons so far. */
  datatype State = State(parts: map<int, Part>, content: Text, done: bool, terminal: Option<Finish>, failed: bool,
                         events: seq<Event>)

  function TextEvents(texts: seq<Text>): (events: seq<Event>)
    ensures |events| == |texts| && forall i :: 0 <= i < |texts| ==> events[i] == TextEvent(texts[i])
  {
    seq(|texts|, i requires 0 <= i < |texts| => TextEvent(texts[i]))
  }

  /** The state is what the choices read so far spell. */
  ghost predicate Reads(s: State, choices: seq<Choice>) {
    && s.parts == Spelled(AllFragments(choices))
    && s.content == Concat(Texts(choices)) && s.events == TextEvents(Texts(choices))
    && Finishes(choices) == (match s.terminal case None => [] case Some(finish) => [finish])
    && (s.terminal.Some? ==> s.terminal.value.ToolCalls? || s.terminal.value.Stop?)
  }

  method Add(parts: map<int, Part>, f: Fragment) returns (r: Option<map<int, Part>>)
    ensures r == if f.BadFragment? then None else Some(WithFragment(parts, f))
  {
    if f.BadFragment? { return None; }
    var part := if f.index in parts then parts[f.index] else Part(None, None, []);
    if f.id.Some? { part := part.(id := f.id); }
    if f.name.Some? { part := part.(name := f.name); }
    if f.arguments.Some? { part := part.(arguments := part.arguments + f.arguments.value); }
    assert f.arguments.None? ==> part.arguments + [] == part.arguments;
    return Some(parts[f.index := part]);
  }

  predicate AllGood(fragments: seq<Fragment>) {
    forall i :: 0 <= i < |fragments| ==> fragments[i].Fragment?
  }

  function AddedTo(parts: map<int, Part>, fragments: seq<Fragment>): map<int, Part>
    requires AllGood(fragments)
    decreases |fragments|
  {
    if fragments == [] then parts else AddedTo(WithFragment(parts, fragments[0]), fragments[1..])
  }

  method AddAll(parts: map<int, Part>, fragments: seq<Fragment>) returns (r: Option<map<int, Part>>)
    ensures r == if AllGood(fragments) then Some(AddedTo(parts, fragments)) else None
  {
    var added := parts;
    assert fragments[0..] == fragments;
    for i := 0 to |fragments|
      invariant AllGood(fragments[..i])
      invariant AllGood(fragments) ==> AddedTo(added, fragments[i..]) == AddedTo(parts, fragments)
    {
      var next := Add(added, fragments[i]);
      if next.None? { return None; }
      assert fragments[i..][1..] == fragments[i + 1..];
      added := next.value;
    }
    assert fragments[..|fragments|] == fragments;
    return Some(added);
  }

  /** Adding to what some fragments spell. */
  lemma {:induction false} AddedIsSpelled(parts: map<int, Part>, before: seq<Fragment>, fragments: seq<Fragment>)
    requires AllGood(fragments) && parts == Spelled(before)
    ensures AddedTo(parts, fragments) == Spelled(before + fragments)
    decreases |fragments|
  {
    if fragments == [] {
      assert before + [] == before;
    } else {
      SpelledMore(before, fragments[0]);
      AddedIsSpelled(WithFragment(parts, fragments[0]), before + [fragments[0]], fragments[1..]);
      JoinFirst(before, fragments);
    }
  }

  lemma {:induction false} ConcatMore(texts: seq<Text>, text: Text)
    ensures Concat(texts + [text]) == Concat(texts) + text
  {
    if texts == [] {
      assert [text][1..] == [];
      assert text + [] == text && [] + text == text;
    } else {
      assert (texts + [text])[1..] == texts[1..] + [text];
      ConcatMore(texts[1..], text);
      assert texts[0] + (Concat(texts[1..]) + text) == (texts[0] + Concat(texts[1..])) + text;
    }
  }

  lemma {:induction false} HeadOfMore(choices: seq<Choice>, c: Choice)
    requires choices != []
    ensures (choices + [c])[0] == choices[0] && (choices + [c])[1..] == choices[1..] + [c]
  {
  }

  function ContentOf(c: Choice): seq<Text> {
    match c.content case Some(text) => [text] case None => []
  }

  lemma {:induction false} TextsMore(choices: seq<Choice>, c: Choice)
    ensures Texts(choices + [c]) == Texts(choices) + ContentOf(c)
  {
    if choices == [] {
      assert [c][1..] == [] && choices + [c] == [c];
      assert ContentOf(c) + [] == [] + ContentOf(c);
    } else {
      HeadOfMore(choices, c);
      TextsMore(choices[1..], c);
      Associate(ContentOf(choices[0]), Texts(choices[1..]), ContentOf(c));
    }
  }

  function FinishOf(c: Choice): seq<Finish> {
    if c.finish.ToolCalls? || c.finish.Stop? then [c.finish] else []
  }

  lemma {:induction false} FinishesMore(choices: seq<Choice>, c: Choice)
    ensures Finishes(choices + [c]) == Finishes(choices) + FinishOf(c)
  {
    if choices == [] {
      assert [c][1..] == [] && choices + [c] == [c];
      assert FinishOf(c) + [] == [] + FinishOf(c);
    } else {
      HeadOfMore(choices, c);
      FinishesMore(choices[1..], c);
      Associate(FinishOf(choices[0]), Finishes(choices[1..]), FinishOf(c));
    }
  }

  function FragmentsOf(c: Choice): seq<Fragment> {
    match c.fragments case Some(fragments) => fragments case None => []
  }

  lemma {:induction false} FragmentsMore(choices: seq<Choice>, c: Choice)
    ensures AllFragments(choices + [c]) == AllFragments(choices) + FragmentsOf(c)
  {
    if choices == [] {
      assert [c][1..] == [] && choices + [c] == [c];
      assert FragmentsOf(c) + [] == [] + FragmentsOf(c);
    } else {
      HeadOfMore(choices, c);
      FragmentsMore(choices[1..], c);
      Associate(FragmentsOf(choices[0]), AllFragments(choices[1..]), FragmentsOf(c));
    }
  }

  /** Content, the fragments' parts and the finish reason each follow what has been read. */
  lemma {:induction false} ReadsMore(s: State, choices: seq<Choice>, c: Choice, t: State)
    requires Reads(s, choices)
    requires t.parts == Spelled(AllFragments(choices) + FragmentsOf(c))
    requires match c.content
      case Some(text) => t.content == s.content + text && t.events == s.events + [TextEvent(text)]
      case None => t.content == s.content && t.events == s.events
    requires if FinishOf(c) == [] then t.terminal == s.terminal else s.terminal == None && t.terminal == Some(c.finish)
    ensures Reads(t, choices + [c])
  {
    TextsMore(choices, c);
    FinishesMore(choices, c);
    FragmentsMore(choices, c);
    match c.content
    case Some(text) =>
      ConcatMore(Texts(choices), text);
      assert TextEvents(Texts(choices) + [text]) == TextEvents(Texts(choices)) + [TextEvent(text)];
    case None => assert Texts(choices) + [] == Texts(choices);
  }

  /** A choice that may follow the finish reason. */
  predicate Quiet(c: Choice) {
    c.content.None? && c.fragments.None? && c.finish.Absent?
  }

  predicate IsTerminal(finish: Finish) {
    finish.ToolCalls? || finish.Stop?
  }

  /** One choice's content, refusal check, fragments and finish reason; nothing where the source throws. */
  function ChoiceRead(s: State, c: Choice): Option<State> {
    if (s.terminal.Some? && !Quiet(c)) || c.unsupported || !AllGood(FragmentsOf(c)) then None
    else
      Some(State(if c.fragments.Some? then AddedTo(s.parts, c.fragments.value) else s.parts,
                 if c.content.Some? then s.content + c.content.value else s.content,
                 s.done,
                 if IsTerminal(c.finish) then Some(c.finish) else s.terminal,
                 s.failed || c.finish.OtherFinish?,
                 if c.content.Some? then s.events + [TextEvent(c.content.value)] else s.events))
  }

  method ReadChoice(s: State, c: Choice) returns (r: Option<State>)
    ensures r == ChoiceRead(s, c)
  {
    if s.terminal.Some? && (c.content.Some? || c.fragments.Some? || !c.finish.Absent?) { return None; }
    var next := s;
    if c.content.Some? {
      var text := c.content.value;
      next := next.(content := next.content + text, events := next.events + [TextEvent(text)]);
    }
    if c.unsupported { return None; }
    if c.fragments.Some? {
      var parts := AddAll(next.parts, c.fragments.value);
      if parts.None? { return None; }
      next := next.(parts := parts.value);
    }
    if c.finish.ToolCalls? || c.finish.Stop? {
      if next.terminal.Some? { return None; }
      next := next.(terminal := Some(c.finish));
    } else if c.finish.OtherFinish? {
      next := next.(failed := true);
    }
    return Some(next);
  }

  function ChoicesRead(s: State, choices: seq<Choice>): Option<State>
    decreases |choices|
  {
    if choices == [] then Some(s)
    else match ChoiceRead(s, choices[0])
      case None => None
      case Some(next) => ChoicesRead(next, choices[1..])
  }

  /** A frame; data after the end mark, or a second mark, fails. */
  function FrameRead(s: State, f: Frame): Option<State> {
    if s.done then None
    else match f
      case DoneMark => Some(s.(done := true))
      case Unreadable => None
      case ErrorFrame => None
      case Choices(choices) => ChoicesRead(s, choices)
  }

  function FramesRead(s: State, frames: seq<Frame>): Option<State>
    decreases |frames|
  {
    if frames == [] then Some(s)
    else match FrameRead(s, frames[0])
      case None => None
      case Some(next) => FramesRead(next, frames[1..])
  }

  const START := State(map[], [], false, None, false, [])

  method ReadChoices(s: State, choices: seq<Choice>) returns (r: Option<State>)
    ensures r == ChoicesRead(s, choices)
  {
    var next := s;
    assert choices[0..] == choices;
    for i := 0 to |choices|
      invariant ChoicesRead(next, choices[i..]) == ChoicesRead(s, choices)
    {
      assert choices[i..][1..] == choices[i + 1..];
      var read := ReadChoice(next, choices[i]);
      if read.None? { return None; }
      next := read.value;
    }
    return Some(next);
  }

  method ReadFrames(frames: seq<Frame>) returns (r: Option<State>)
    ensures r == FramesRead(START, frames)
  {
    var s := START;
    assert frames[0..] == frames;
    for i := 0 to |frames|
      invariant FramesRead(s, frames[i..]) == FramesRead(START, frames)
    {
      assert frames[i..][1..] == frames[i + 1..];
      if s.done { return None; }
      match frames[i]
      case DoneMark => s := s.(done := true);
      case Unreadable => return None;
      case ErrorFrame => return None;
      case Choices(choices) =>
        var next := ReadChoices(s, choices);
        if next.None? { return None; }
        s := next.value;
    }
    return Some(s);
  }

  // ----- What has been read

  /** A choice read after others leaves what all of them spell. */
  lemma {:induction false} ChoiceReads(s: State, choices: seq<Choice>, c: Choice)
    requires Reads(s, choices) && ChoiceRead(s, c).Some?
    ensures Reads(ChoiceRead(s, c).value, choices + [c])
  {
    var t := ChoiceRead(s, c).value;
    if c.fragments.Some? {
      AddedIsSpelled(s.parts, AllFragments(choices), c.fragments.value);
    } else {
      assert AllFragments(choices) + [] == AllFragments(choices);
    }
    ReadsMore(s, choices, c, t);
  }

  lemma {:induction false} ChoicesReads(s: State, before: seq<Choice>, choices: seq<Choice>)
    requires Reads(s, before) && ChoicesRead(s, choices).Some?
    ensures Reads(ChoicesRead(s, choices).value, before + choices)
    decreases |choices|
  {
    if choices == [] {
      assert before + [] == before;
    } else {
      ChoiceReads(s, before, choices[0]);
      ChoicesReads(ChoiceRead(s, choices[0]).value, before + [choices[0]], choices[1..]);
      JoinFirst(before, choices);
    }
  }

  lemma {:induction false} JoinFirst<T>(a: seq<T>, b: seq<T>)
    requires b != []
    ensures (a + [b[0]]) + b[1..] == a + b
  {
  }

  /** The choices of a well-ended stream: all supported, their fragments good, one finish reason, and nothing after it. */
  ghost predicate Ends(choices: seq<Choice>) {
    && (forall i :: 0 <= i < |choices| ==> !choices[i].unsupported && AllGood(FragmentsOf(choices[i])))
    && exists k :: 0 <= k < |choices| && EndsAt(choices, k)
  }

  predicate EndsAt(choices: seq<Choice>, k: nat)
    requires k < |choices|
  {
    && IsTerminal(choices[k].finish)
    && (forall i :: 0 <= i < k ==> choices[i].finish.Absent? || choices[i].finish.Falsy?)
    && (forall i :: k < i < |choices| ==> Quiet(choices[i]))
  }

  predicate Succeeded(r: Option<State>) {
    r.Some? && r.value.terminal.Some? && !r.value.failed
  }

  lemma {:induction false} AfterTerminal(s: State, choices: seq<Choice>)
    requires s.terminal.Some? && !s.failed
    ensures Succeeded(ChoicesRead(s, choices)) <==>
            forall i :: 0 <= i < |choices| ==> Quiet(choices[i]) && !choices[i].unsupported
    decreases |choices|
  {
    if choices != [] {
      var c := choices[0];
      if Quiet(c) && !c.unsupported {
        AfterTerminal(ChoiceRead(s, c).value, choices[1..]);
      }
      assert choices == [c] + choices[1..];
    }
  }

  lemma {:induction false} FailedStaysFailed(s: State, choices: seq<Choice>)
    requires s.failed
    ensures !Succeeded(ChoicesRead(s, choices))
    decreases |choices|
  {
    if choices != [] && ChoiceRead(s, choices[0]).Some? {
      FailedStaysFailed(ChoiceRead(s, choices[0]).value, choices[1..]);
    }
  }

  lemma {:induction false} EndsFirst(choices: seq<Choice>)
    requires choices != [] && IsTerminal(choices[0].finish)
    ensures Ends(choices) <==>
      !choices[0].unsupported && AllGood(FragmentsOf(choices[0]))
      && forall i :: 0 <= i < |choices[1..]| ==> Quiet(choices[1..][i]) && !choices[1..][i].unsupported
  {
    var rest := choices[1..];
    assert forall i :: 0 < i < |choices| ==> choices[i] == rest[i - 1];
    if forall i :: 0 <= i < |rest| ==> Quiet(rest[i]) && !rest[i].unsupported {
      assert EndsAt(choices, 0);
    }
    if Ends(choices) {
      var k :| 0 <= k < |choices| && EndsAt(choices, k);
    }
  }

  lemma {:induction false} EndsLater(choices: seq<Choice>)
    requires choices != [] && !IsTerminal(choices[0].finish)
    ensures Ends(choices) <==>
      && !choices[0].unsupported && AllGood(FragmentsOf(choices[0])) && !choices[0].finish.OtherFinish?
      && Ends(choices[1..])
  {
    var rest := choices[1..];
    assert forall i :: 0 < i < |choices| ==> choices[i] == rest[i - 1];
    if Ends(choices) {
      var k :| 0 <= k < |choices| && EndsAt(choices, k);
      assert EndsAt(rest, k - 1);
    }
    if !choices[0].finish.OtherFinish? && Ends(rest) {
      var k :| 0 <= k < |rest| && EndsAt(rest, k);
      assert EndsAt(choices, k + 1);
    }
  }

  /** The choices are read to a good end exactly when they end well. */
  lemma {:induction false} ChoicesSucceed(s: State, choices: seq<Choice>)
    requires s.terminal.None? && !s.failed
    ensures Succeeded(ChoicesRead(s, choices)) <==> Ends(choices)
    decreases |choices|
  {
    if choices != [] {
      var c := choices[0];
      if IsTerminal(c.finish) {
        EndsFirst(choices);
        if ChoiceRead(s, c).Some? {
          AfterTerminal(ChoiceRead(s, c).value, choices[1..]);
        }
      } else {
        EndsLater(choices);
        if ChoiceRead(s, c).Some? {
          if c.finish.OtherFinish? {
            FailedStaysFailed(ChoiceRead(s, c).value, choices[1..]);
          } else {
            ChoicesSucceed(ChoiceRead(s, c).value, choices[1..]);
          }
        }
      }
    }
  }

  /** The end mark comes last, and choices before it. */
  predicate IsMarked(frames: seq<Frame>) {
    && frames != [] && frames[|frames| - 1].DoneMark?
    && forall i :: 0 <= i < |frames| - 1 ==> frames[i].Choices?
  }

  lemma {:induction false} ChoicesJoin(s: State, a: seq<Choice>, b: seq<Choice>)
    ensures ChoicesRead(s, a + b) == match ChoicesRead(s, a) case None => None case Some(next) => ChoicesRead(next, b)
    decreases |a|
  {
    if a == [] {
      assert a + b == b;
    } else {
      assert (a + b)[1..] == a[1..] + b && (a + b)[0] == a[0];
      if ChoiceRead(s, a[0]).Some? {
        ChoicesJoin(ChoiceRead(s, a[0]).value, a[1..], b);
      }
    }
  }

  lemma {:induction false} StillReading(s: State, choices: seq<Choice>)
    requires ChoicesRead(s, choices).Some?
    ensures ChoicesRead(s, choices).value.done == s.done
    decreases |choices|
  {
    if choices != [] {
      StillReading(ChoiceRead(s, choices[0]).value, choices[1..]);
    }
  }

  /** Frames are read to their mark exactly when they are marked and all their choices are read. */
  lemma {:induction false} FramesMarked(s: State, frames: seq<Frame>)
    requires !s.done
    ensures (FramesRead(s, frames).Some? && FramesRead(s, frames).value.done) <==>
            IsMarked(frames) && ChoicesRead(s, AllChoices(frames)).Some?
    ensures FramesRead(s, frames).Some? && FramesRead(s, frames).value.done ==>
      FramesRead(s, frames).value == ChoicesRead(s, AllChoices(frames)).value.(done := true)
    decreases |frames|
  {
    if frames != [] {
      var rest := frames[1..];
      assert frames == [frames[0]] + rest;
      assert rest != [] ==> rest[|rest| - 1] == frames[|frames| - 1];
      match frames[0]
      case DoneMark =>
        assert [] + AllChoices(rest) == AllChoices(rest);
        if rest == [] {
          assert ChoicesRead(s, []) == Some(s);
        } else {
          assert FrameRead(s.(done := true), rest[0]) == None;
          assert !IsMarked(frames);
        }
      case Choices(choices) =>
        ChoicesJoin(s, choices, AllChoices(rest));
        MarkedLater(frames);
        if ChoicesRead(s, choices).Some? {
          StillReading(s, choices);
          FramesMarked(ChoicesRead(s, choices).value, rest);
        }
      case _ => NotMarked(frames);
    }
  }

  lemma {:induction false} MarkedLater(frames: seq<Frame>)
    requires frames != [] && frames[0].Choices?
    ensures IsMarked(frames) <==> IsMarked(frames[1..])
  {
    var rest := frames[1..];
    assert forall i :: 0 < i < |frames| ==> frames[i] == rest[i - 1];
    assert rest != [] ==> rest[|rest| - 1] == frames[|frames| - 1];
    assert forall i :: 0 <= i < |rest| ==> rest[i] == frames[i + 1];
  }

  lemma {:induction false} NotMarked(frames: seq<Frame>)
    requires frames != [] && (frames[0].Unreadable? || frames[0].ErrorFrame?)
    ensures !IsMarked(frames)
  {
  }

  lemma {:induction false} StartReads()
    ensures Reads(START, [])
  {
    assert Spelled([]) == map[];
  }

  /** What a well-ended stream delivers: the text, then the calls, then the completion that holds both. */
  ghost predicate Delivers(num: Text -> Double, frames: seq<Frame>, advertised: set<Text>, events: seq<Event>,
                           calls: seq<Call>)
  {
    var choices := AllChoices(frames);
    var fragments := AllFragments(choices);
    var keys := Ascending(Indices(fragments));
    && events == TextEvents(Texts(choices)) + CallEvents(calls)
                 + [DoneEvent(if Concat(Texts(choices)) == [] then None else Some(Concat(Texts(choices))), calls)]
    && |calls| == |keys| && AreValid(calls, advertised)
    && (forall i :: 0 <= i < |keys| ==> CallFrom(num, PartOf(Of(fragments, keys[i]))) == Some(calls[i]))
    && (Finishes(choices) == [ToolCalls] <==> calls != []) && (Finishes(choices) == [Stop] <==> calls == [])
  }

  function CallEvents(calls: seq<Call>): (events: seq<Event>)
    ensures |events| == |calls| && forall i :: 0 <= i < |calls| ==> events[i] == CallEvent(calls[i])
  {
    seq(|calls|, i requires 0 <= i < |calls| => CallEvent(calls[i]))
  }

  lemma {:induction false} AssembledAt(num: Text -> Double, parts: map<int, Part>, keys: seq<int>)
    requires (forall i :: 0 <= i < |keys| ==> keys[i] in parts) && Assembled(num, parts, keys).Some?
    ensures var calls := Assembled(num, parts, keys).value;
      |calls| == |keys| && forall i :: 0 <= i < |keys| ==> CallFrom(num, parts[keys[i]]) == Some(calls[i])
  {
    if keys != [] {
      AssembledAt(num, parts, keys[1..]);
    }
  }

  /** What the checks at the end of the stream come to. */
  lemma {:induction false} Completes(num: Text -> Double, frames: seq<Frame>, advertised: set<Text>, s: State,
                                     calls: seq<Call>)
    requires Reads(s, AllChoices(frames)) && s.terminal.Some?
    requires forall i :: 0 <= i < |Ascending(s.parts.Keys)| ==> Ascending(s.parts.Keys)[i] in s.parts
    requires var keys := Ascending(s.parts.Keys);
      |calls| == |keys| && forall i :: 0 <= i < |keys| ==> CallFrom(num, s.parts[keys[i]]) == Some(calls[i])
    requires (s.terminal == Some(ToolCalls) <==> calls != []) && AreValid(calls, advertised)
    ensures Delivers(num, frames, advertised,
                     s.events + CallEvents(calls) + [DoneEvent(if s.content == [] then None else Some(s.content), calls)],
                     calls)
  {
    var fragments := AllFragments(AllChoices(frames));
    var keys := Ascending(s.parts.Keys);
    forall i | 0 <= i < |keys|
      ensures CallFrom(num, PartOf(Of(fragments, keys[i]))) == Some(calls[i])
    {
      assert s.parts[keys[i]] == PartOf(Of(fragments, keys[i]));
    }
  }

  /** The calls that fragments spell, in the order of their indices, if all are complete. */
  function CallsOf(num: Text -> Double, fragments: seq<Fragment>): Option<seq<Call>> {
    AscendingIs(Indices(fragments));
    Assembled(num, Spelled(fragments), Ascending(Indices(fragments)))
  }

  /** The stream ends well: its frames are marked, its choices end, and its calls are complete, valid, and there exactly when
      the finish reason says so. */
  ghost predicate EndsWell(num: Text -> Double, frames: seq<Frame>, advertised: set<Text>) {
    var choices := AllChoices(frames);
    var calls := CallsOf(num, AllFragments(choices));
    && IsMarked(frames) && Ends(choices) && calls.Some? && AreValid(calls.value, advertised)
    && (Finishes(choices) == [ToolCalls] <==> calls.value != [])
  }

  /** The events of a stream: none unless it ends well. */
  ghost function Outcome(num: Text -> Double, frames: seq<Frame>, advertised: set<Text>): Option<seq<Event>> {
    if !EndsWell(num, frames, advertised) then None
    else
      var choices := AllChoices(frames);
      var calls, content := CallsOf(num, AllFragments(choices)).value, Concat(Texts(choices));
      Some(TextEvents(Texts(choices)) + CallEvents(calls) + [DoneEvent(if content == [] then None else Some(content), calls)])
  }

  /** The state at the end of the frames, when nothing has failed. */
  lemma {:induction false} FramesReads(frames: seq<Frame>)
    ensures (Succeeded(FramesRead(START, frames)) && FramesRead(START, frames).value.done) <==>
            IsMarked(frames) && Ends(AllChoices(frames))
    ensures Succeeded(FramesRead(START, frames)) && FramesRead(START, frames).value.done ==>
      Reads(FramesRead(START, frames).value, AllChoices(frames))
  {
    var choices := AllChoices(frames);
    FramesMarked(START, frames);
    ChoicesSucceed(START, choices);
    if ChoicesRead(START, choices).Some? {
      StartReads();
      ChoicesReads(START, [], choices);
      assert [] + choices == choices;
    }
  }

  /** A completion is delivered exactly when the stream ends well, and then it is what the stream spells. */
  method Read(num: Text -> Double, frames: seq<Frame>, advertised: set<Text>) returns (events: Option<seq<Event>>)
    ensures events == Outcome(num, frames, advertised) && (events.Some? <==> EndsWell(num, frames, advertised))
    ensures events.Some? ==>
      Delivers(num, frames, advertised, events.value, CallsOf(num, AllFragments(AllChoices(frames))).value)
  {
    FramesReads(frames);
    var read := ReadFrames(frames);
    if read.None? { return None; }
    var s := read.value;
    if s.failed || !s.done || s.terminal.None? { return None; }
    var keys := Ascending(s.parts.Keys);
    AscendingIs(s.parts.Keys);
    var assembled := Assembled(num, s.parts, keys);
    assert assembled == CallsOf(num, AllFragments(AllChoices(frames)));
    if assembled.None? { return None; }
    var calls := assembled.value;
    AssembledAt(num, s.parts, keys);
    if (s.terminal == Some(ToolCalls)) != (|calls| > 0) { return None; }
    var valid := ValidateCalls(calls, advertised);
    if !valid { return None; }
    Completes(num, frames, advertised, s, calls);
    var content := if s.content == [] then None else Some(s.content);
    return Some(s.events + CallEvents(calls) + [DoneEvent(content, calls)]);
  }

  /** The text of the completion is the concatenation of the text events, and the argument text of each call the
      concatenation of its fragments', however they are interleaved. */
  lemma {:induction false} ArgumentsAreConcatenated(fragments: seq<Fragment>)
    requires forall i :: 0 <= i < |fragments| ==> fragments[i].Fragment?
    ensures PartOf(fragments).arguments == Concat(ArgumentTexts(fragments))
  {
    if fragments != [] {
      var n := |fragments| - 1;
      ArgumentsAreConcatenated(fragments[..n]);
      assert fragments == fragments[..n] + [fragments[n]];
      ArgumentTextsMore(fragments[..n], fragments[n]);
      if fragments[n].arguments.Some? {
        ConcatMore(ArgumentTexts(fragments[..n]), fragments[n].arguments.value);
      } else {
        assert ArgumentTexts(fragments[..n]) + [] == ArgumentTexts(fragments[..n]);
        assert Concat(ArgumentTexts(fragments[..n])) + [] == Concat(ArgumentTexts(fragments[..n]));
      }
    } else {
      assert ArgumentTexts(fragments) == [];
    }
  }

  function ArgumentTexts(fragments: seq<Fragment>): seq<Text> {
    if fragments == [] then []
    else (if fragments[0].Fragment? && fragments[0].arguments.Some? then [fragments[0].arguments.value] else [])
         + ArgumentTexts(fragments[1..])
  }

  lemma {:induction false} ArgumentTextsMore(fragments: seq<Fragment>, f: Fragment)
    requires f.Fragment?
    ensures ArgumentTexts(fragments + [f])
         == ArgumentTexts(fragments) + match f.arguments case Some(text) => [text] case None => []
  {
    if fragments == [] {
      assert [f][1..] == [];
    } else {
      assert (fragments + [f])[1..] == fragments[1..] + [f] && (fragments + [f])[0] == fragments[0];
      ArgumentTextsMore(fragments[1..], f);
    }
  }

  lemma {:induction false} OfSome(fragments: seq<Fragment>, index: int)
    ensures Of(fragments, index) != [] <==> index in Indices(fragments)
  {
    if index !in Indices(fragments) {
      OfNone(fragments, index);
    } else {
      var k :| 0 <= k < |fragments| && fragments[k].Fragment? && fragments[k].index == index;
      if k > 0 {
        assert fragments[1..][k - 1] == fragments[k];
        OfSome(fragments[1..], index);
      }
    }
  }

  /** Fragments of other calls between a call's own change nothing of what is spelled. */
  lemma {:induction false} SpelledApart(a: seq<Fragment>, b: seq<Fragment>)
    requires forall index :: Of(a, index) == Of(b, index)
    ensures Indices(a) == Indices(b) && Spelled(a) == Spelled(b)
  {
    forall index
      ensures index in Indices(a) <==> index in Indices(b)
    {
      assert Of(a, index) == Of(b, index);
      OfSome(a, index);
      OfSome(b, index);
    }
    forall index | index in Indices(a)
      ensures Spelled(a)[index] == Spelled(b)[index]
    {
      assert Of(a, index) == Of(b, index);
    }
  }

  /** Two streams that are marked and end alike, with the same texts, the same finish reasons and the same fragments of each
      call, have the same outcome: how fragments of different calls interleave, and which frames bring them, does not
      matter. */
  lemma {:induction false} InterleavingDoesNotMatter(num: Text -> Double, a: seq<Frame>, b: seq<Frame>,
                                                     advertised: set<Text>)
    requires IsMarked(a) && Ends(AllChoices(a)) <==> IsMarked(b) && Ends(AllChoices(b))
    requires Texts(AllChoices(a)) == Texts(AllChoices(b)) && Finishes(AllChoices(a)) == Finishes(AllChoices(b))
    requires forall index :: Of(AllFragments(AllChoices(a)), index) == Of(AllFragments(AllChoices(b)), index)
    ensures Outcome(num, a, advertised) == Outcome(num, b, advertised)
  {
    SpelledApart(AllFragments(AllChoices(a)), AllFragments(AllChoices(b)));
  }

  // ----- What a call is, by its fragments

  predicate Belongs(f: Fragment, index: int) {
    f.Fragment? && f.index == index
  }

  /** Fragment `k` gives the index its last id. */
  predicate GivesId(fragments: seq<Fragment>, index: int, k: nat, id: Text)
    requires k < |fragments|
  {
    && Belongs(fragments[k], index) && fragments[k].id == Some(id)
    && forall j :: k < j < |fragments| && Belongs(fragments[j], index) ==> fragments[j].id.None?
  }

  predicate GivesName(fragments: seq<Fragment>, index: int, k: nat, name: Text)
    requires k < |fragments|
  {
    && Belongs(fragments[k], index) && fragments[k].name == Some(name)
    && forall j :: k < j < |fragments| && Belongs(fragments[j], index) ==> fragments[j].name.None?
  }

  ghost predicate IsLastId(fragments: seq<Fragment>, index: int, id: Text) {
    exists k :: 0 <= k < |fragments| && GivesId(fragments, index, k, id)
  }

  ghost predicate IsLastName(fragments: seq<Fragment>, index: int, name: Text) {
    exists k :: 0 <= k < |fragments| && GivesName(fragments, index, k, name)
  }

  /** All the argument text of an index, in order. */
  function ArgumentsOf(fragments: seq<Fragment>, index: int): Text {
    if fragments == [] then []
    else
      var last := fragments[|fragments| - 1];
      ArgumentsOf(fragments[..|fragments| - 1], index)
        + if Belongs(last, index) && last.arguments.Some? then last.arguments.value else []
  }

  /** One index's part after its last fragment. */
  lemma {:induction false} PartStep(fragments: seq<Fragment>, index: int)
    requires fragments != []
    ensures var n := |fragments| - 1;
      PartOf(Of(fragments, index)) ==
        if Belongs(fragments[n], index) then Extended(PartOf(Of(fragments[..n], index)), fragments[n])
        else PartOf(Of(fragments[..n], index))
  {
    var n := |fragments| - 1;
    assert fragments == fragments[..n] + [fragments[n]];
    if fragments[n].Fragment? {
      SpelledAt(fragments[..n], fragments[n], index);
    } else {
      OfJoin(fragments[..n], [fragments[n]], index);
      OfOne(fragments[n], index);
      assert Of(fragments[..n], index) + [] == Of(fragments[..n], index);
    }
  }

  lemma {:induction false} LastIdStep(fragments: seq<Fragment>, index: int, id: Text)
    requires fragments != []
    ensures var n := |fragments| - 1; var last := fragments[n];
      IsLastId(fragments, index, id) <==>
        if Belongs(last, index) && last.id.Some? then last.id == Some(id) else IsLastId(fragments[..n], index, id)
  {
    var n := |fragments| - 1;
    var front, last := fragments[..n], fragments[n];
    if Belongs(last, index) && last.id == Some(id) {
      assert GivesId(fragments, index, n, id);
    }
    if IsLastId(fragments, index, id) && !(Belongs(last, index) && last.id.Some?) {
      var k :| 0 <= k < |fragments| && GivesId(fragments, index, k, id);
      assert GivesId(front, index, k, id);
    }
    if IsLastId(front, index, id) && !(Belongs(last, index) && last.id.Some?) {
      var k :| 0 <= k < n && GivesId(front, index, k, id);
      assert GivesId(fragments, index, k, id);
    }
  }

  lemma {:induction false} LastNameStep(fragments: seq<Fragment>, index: int, name: Text)
    requires fragments != []
    ensures var n := |fragments| - 1; var last := fragments[n];
      IsLastName(fragments, index, name) <==>
        if Belongs(last, index) && last.name.Some? then last.name == Some(name) else IsLastName(fragments[..n], index, name)
  {
    var n := |fragments| - 1;
    var front, last := fragments[..n], fragments[n];
    if Belongs(last, index) && last.name == Some(name) {
      assert GivesName(fragments, index, n, name);
    }
    if IsLastName(fragments, index, name) && !(Belongs(last, index) && last.name.Some?) {
      var k :| 0 <= k < |fragments| && GivesName(fragments, index, k, name);
      assert GivesName(front, index, k, name);
    }
    if IsLastName(front, index, name) && !(Belongs(last, index) && last.name.Some?) {
      var k :| 0 <= k < n && GivesName(front, index, k, name);
      assert GivesName(fragments, index, k, name);
    }
  }

  /** A part has the last id and the last name that its index is given, and all its argument text. */
  lemma {:induction false} PartIsSpelled(fragments: seq<Fragment>, index: int, id: Text, name: Text)
    ensures var part := PartOf(Of(fragments, index));
      && (part.id == Some(id) <==> IsLastId(fragments, index, id))
      && (part.name == Some(name) <==> IsLastName(fragments, index, name))
      && part.arguments == ArgumentsOf(fragments, index)
  {
    if fragments != [] {
      PartIsSpelled(fragments[..|fragments| - 1], index, id, name);
      PartStep(fragments, index);
      LastIdStep(fragments, index, id);
      LastNameStep(fragments, index, name);
      assert ArgumentsOf(fragments[..|fragments| - 1], index) + [] == ArgumentsOf(fragments[..|fragments| - 1], index);
    }
  }

  /** The call of an index has its last id and its last name, neither of them empty, and what all its argument text is read
      as. */
  lemma {:induction false} CallIsSpelled(num: Text -> Double, fragments: seq<Fragment>, index: int, call: Call)
    ensures CallFrom(num, PartOf(Of(fragments, index))) == Some(call) <==>
            && IsLastId(fragments, index, call.id) && call.id != []
            && IsLastName(fragments, index, call.name) && call.name != []
            && ParseText(num, ArgumentsOf(fragments, index)) == Ok(call.arguments, [])
  {
    PartIsSpelled(fragments, index, call.id, call.name);
  }
}
