/**
 The explicit-stack reader of JSON text. The class carries the reader's position and its stack of open containers; its
 loops are those of the source, and `Parse` returns what the recursive reading of JsonText returns.
 */
module ProviderJson {
  import opened Utf16
  import opened Wrappers
  import opened JsonText

  /** An open container, with the key its next value takes when it is an object. */
  datatype Frame = ItemsFrame(items: seq<Json>) | MembersFrame(members: seq<Entry<Json>>, key: Text)

  function Attached(frame: Frame, value: Json): Frame {
    match frame
    case ItemsFrame(items) => ItemsFrame(items + [value])
    case MembersFrame(members, key) => MembersFrame(Put(members, key, value), key)
  }

  function Container(frame: Frame): Json {
    match frame
    case ItemsFrame(items) => Array(items)
    case MembersFrame(members, _) => Object(members)
  }

  /** The recursive reading of what is left of an open container. */
  function Rest(num: Text -> Double, frame: Frame, s: Text, depth: nat): Res<Json> {
    match frame
    case ItemsFrame(items) => ItemsRest(num, s, depth, items)
    case MembersFrame(members, _) => MembersRest(num, s, depth, members)
  }

  /** The same, from the next key or item of the container. */
  function From(num: Text -> Double, frame: Frame, s: Text, depth: nat): Res<Json> {
    match frame
    case ItemsFrame(items) => ItemsFrom(num, s, depth, items)
    case MembersFrame(members, _) => MembersFrom(num, s, depth, members)
  }

  /** What the recursive reading returns when `r` is read inside `stack`. */
  function Resumed(num: Text -> Double, stack: seq<Frame>, r: Res<Json>): Res<Json>
    decreases |stack|
  {
    if r.Bad? then r
    else if stack == [] then Whole(r)
    else
      var top := |stack| - 1;
      Resumed(num, stack[..top], Rest(num, Attached(stack[top], r.value), r.rest, |stack|))
  }

  /** The same, once the value has been attached: `root` is the value when no container is open. */
  function AfterValue(num: Text -> Double, stack: seq<Frame>, root: Json, s: Text): Res<Json> {
    if stack == [] then Whole(Ok(root, s))
    else Resumed(num, stack[..|stack| - 1], Rest(num, stack[|stack| - 1], s, |stack|))
  }

  class Reader {
    const text: Text
    const num: Text -> Double
    var index: nat
    var stack: seq<Frame>
    var root: Json

    constructor (text: Text, num: Text -> Double)
      ensures this.text == text && this.num == num && index == 0 && stack == []
    {
      this.text, this.num := text, num;
      index, stack, root := 0, [], Null;
    }

    ghost predicate Valid()
      reads this
    {
      index <= |text|
    }

    ghost function Left(): Text
      requires Valid()
      reads this
    {
      text[index..]
    }

    method SkipSpace()
      requires Valid()
      modifies this`index
      ensures Valid() && Left() == Skip(old(Left())) && old(index) <= index
    {
      while index < |text| && IsSpace(text[index])
        invariant Valid() && old(index) <= index
        invariant Skip(Left()) == Skip(old(Left()))
      {
        Step();
      }
    }

    method Attach(value: Json)
      modifies this`stack, this`root
      ensures old(stack) == [] ==> stack == [] && root == value
      ensures old(stack) != [] ==>
                stack == old(stack)[..|old(stack)| - 1] + [Attached(old(stack)[|old(stack)| - 1], value)]
    {
      if |stack| == 0 {
        root := value;
      } else {
        var top := |stack| - 1;
        stack := stack[..top] + [Attached(stack[top], value)];
      }
    }

    method ReadString() returns (r: Option<Text>)
      requires Valid() && index < |text|
      modifies this`index
      ensures r.Some? ==> Valid() && old(index) < index && StringBody(old(Left())[1..]) == Ok(r.value, Left())
      ensures r.None? ==> StringBody(old(Left())[1..]) == Bad(Invalid)
    {
      ghost var body := StringBody(Left()[1..]);
      Step();
      var output: Text := [];
      PrependNothing(body);
      while true
        invariant Valid() && old(index) < index
        invariant body == Prepend(output, StringBody(Left()))
        decreases |text| - index
      {
        if index >= |text| { return None; }
        if text[index] == QUOTE {
          Step();
          assert output + [] == output;
          return Some(output);
        }
        var unit := ReadUnit();
        if unit.None? { return None; }
        PrependTwice(output, [unit.value], StringBody(Left()));
        output := output + [unit.value];
      }
    }

    method ReadUnit() returns (r: Option<Unit>)
      requires Valid() && index < |text| && text[index] != QUOTE
      modifies this`index
      ensures r.None? <==> NextUnit(old(Left())).None?
      ensures r.Some? ==>
                && Valid() && old(index) < index && r.value == NextUnit(old(Left())).value.0
                && Left() == old(Left())[NextUnit(old(Left())).value.1..]
    {
      ghost var left := Left();
      var c := text[index];
      index := index + 1;
      if c < SPACE { return None; }
      if c != BACKSLASH {
        assert Left() == left[1..];
        return Some(c);
      }
      if index >= |text| { return None; }
      var escape := text[index];
      assert left[1] == escape;
      index := index + 1;
      if escape != 0x75 {
        assert Left() == left[2..];
        return Unescaped(escape);
      }
      if index + 4 > |text| { return None; }
      r := HexUnit(text[index], text[index + 1], text[index + 2], text[index + 3]);
      assert left[2] == text[index] && left[3] == text[index + 1] && left[4] == text[index + 2] && left[5] == text[index + 3];
      index := index + 4;
      assert Left() == left[6..];
    }

    method ReadDigits()
      requires Valid()
      modifies this`index
      ensures Valid() && Left() == SkipDigits(old(Left())) && old(index) <= index
    {
      while index < |text| && IsDigit(text[index])
        invariant Valid() && old(index) <= index
        invariant SkipDigits(Left()) == SkipDigits(old(Left()))
      {
        Step();
      }
    }

    /** Passes over one unit. */
    method Step()
      requires Valid() && index < |text|
      modifies this`index
      ensures Valid() && index == old(index) + 1 && Left() == old(Left())[1..]
    {
      assert Left()[1..] == text[index + 1..];
      index := index + 1;
    }

    method ReadInteger() returns (ok: bool)
      requires Valid()
      modifies this`index
      ensures ok == IntegerRest(old(Left())).Some?
      ensures ok ==> Valid() && old(index) < index && Left() == IntegerRest(old(Left())).value
    {
      if index < |text| && text[index] == MINUS { Step(); }
      if index >= |text| { return false; }
      if text[index] == ZERO {
        Step();
        return true;
      }
      if !IsDigit(text[index]) { return false; }
      Step();
      ReadDigits();
      return true;
    }

    method ReadFraction() returns (ok: bool)
      requires Valid()
      modifies this`index
      ensures ok == FractionRest(old(Left())).Some?
      ensures ok ==> Valid() && old(index) <= index && Left() == FractionRest(old(Left())).value
    {
      if index < |text| && text[index] == DOT {
        Step();
        if index >= |text| || !IsDigit(text[index]) { return false; }
        ReadDigits();
      }
      return true;
    }

    method ReadExponent() returns (ok: bool)
      requires Valid()
      modifies this`index
      ensures ok == ExponentRest(old(Left())).Some?
      ensures ok ==> Valid() && old(index) <= index && Left() == ExponentRest(old(Left())).value
    {
      if index < |text| && IsExponentMark(text[index]) {
        Step();
        if index < |text| && (text[index] == PLUS || text[index] == MINUS) { Step(); }
        if index >= |text| || !IsDigit(text[index]) { return false; }
        ReadDigits();
      }
      return true;
    }

    method ReadNumber() returns (r: Option<Json>)
      requires Valid()
      modifies this`index
      ensures r.Some? ==> Valid() && old(index) < index && NumberValue(num, old(Left())) == Ok(r.value, Left())
      ensures r.None? ==> NumberValue(num, old(Left())) == Bad(Invalid)
    {
      var start := index;
      ghost var s := Left();
      var ok := ReadInteger();
      if !ok { return None; }
      ghost var t := Left();
      ok := ReadFraction();
      if !ok { return None; }
      ghost var u := Left();
      ok := ReadExponent();
      if !ok { return None; }
      NumberParts(num, s, t, u, Left());
      assert s[..|s| - |Left()|] == text[start..index];
      return Some(Number(num(text[start..index])));
    }

    method Literal(word: Text, value: Json) returns (r: Option<Json>)
      requires Valid() && word != []
      modifies this`index
      ensures r.Some? ==> Valid() && Word(old(Left()), word, value) == Ok(r.value, Left())
      ensures r.None? ==> Word(old(Left()), word, value) == Bad(Invalid)
    {
      if index + |word| > |text| || text[index..index + |word|] != word { return None; }
      assert Left()[|word|..] == text[index + |word|..];
      index := index + |word|;
      return Some(value);
    }

    method ReadKeyText() returns (key: Option<Text>)
      requires Valid()
      modifies this`index
      ensures key.Some? ==> Valid() && old(index) < index && Key(old(Left())) == Ok(key.value, Left())
      ensures key.None? ==> Key(old(Left())) == Bad(Invalid)
    {
      SkipSpace();
      if index >= |text| || text[index] != QUOTE { return None; }
      key := ReadString();
      if key.None? { return; }
      SkipSpace();
      if index >= |text| || text[index] != COLON { return None; }
      Step();
    }

    /** Reads a key and its colon, and gives the key to the open object. */
    method ReadKey() returns (ok: bool)
      requires Valid() && stack != [] && stack[|stack| - 1].MembersFrame?
      modifies this`index, this`stack
      ensures ok ==>
                && Valid() && old(index) < index && Key(old(Left())).Ok? && Key(old(Left())).rest == Left()
                && stack == old(stack)[..|old(stack)| - 1]
                            + [MembersFrame(old(stack)[|old(stack)| - 1].members, Key(old(Left())).value)]
      ensures !ok ==> Key(old(Left())) == Bad(Invalid)
    {
      var key := ReadKeyText();
      if key.None? { return false; }
      var top := stack[|stack| - 1];
      stack := stack[..|stack| - 1] + [MembersFrame(top.members, key.value)];
      return true;
    }

    method ReadScalar() returns (r: Option<Json>)
      requires Valid() && index < |text|
      modifies this`index
      ensures r.Some? ==> Valid() && old(index) < index && Scalar(num, old(Left())) == Ok(r.value, Left())
      ensures r.None? ==> Scalar(num, old(Left())) == Bad(Invalid)
    {
      var c := text[index];
      r := None;
      if c == QUOTE {
        var s := ReadString();
        r := if s.None? then None else Some(String(s.value));
      } else if c == 0x74 {
        r := Literal(TRUE, Bool(true));
      } else if c == 0x66 {
        r := Literal(FALSE, Bool(false));
      } else if c == 0x6E {
        r := Literal(NULL, Null);
      } else if c == MINUS || IsDigit(c) {
        r := ReadNumber();
      }
    }

    /** How the recursive reading that gives `goal` stands after a turn. */
    ghost predicate Reached(goal: Res<Json>, turn: Turn)
      reads this
    {
      match turn
      case Failed(error) => goal == Bad(error)
      case Done => goal == Ok(root, [])
      case Next => Valid() && goal == Resumed(num, stack, Value(num, Left(), |stack|))
      case Again => Valid() && goal == AfterValue(num, stack, root, Left())
    }

    /** The first half of the source's loop: reads a scalar or an empty container and attaches it, or opens a container. */
    method ReadValue(ghost goal: Res<Json>) returns (turn: Turn)
      requires Reached(goal, Next)
      modifies this
      ensures Reached(goal, turn) && !turn.Done?
      ensures !turn.Failed? ==> old(index) < index
    {
      SkipSpace();
      if index >= |text| { return Failed(Invalid); }
      var c := text[index];
      if c == OPEN_BRACE || c == OPEN_BRACKET {
        if |stack| >= MAX_DEPTH { return Failed(TooDeep); }
        turn := ReadContainer(goal, c == OPEN_BRACE);
        return;
      }
      assert goal == Resumed(num, stack, Scalar(num, Left()));
      var value := ReadScalar();
      if value.None? { return Failed(Invalid); }
      ResumeAttached(num, stack, value.value, Left());
      Attach(value.value);
      return Again;
    }

    method ReadContainer(ghost goal: Res<Json>, isObject: bool) returns (turn: Turn)
      requires Reached(goal, Next) && |stack| < MAX_DEPTH && index < |text|
      requires text[index] == if isObject then OPEN_BRACE else OPEN_BRACKET
      modifies this
      ensures Reached(goal, turn) && !turn.Done?
      ensures !turn.Failed? ==> old(index) < index
    {
      ValueOpens(num, Left(), |stack|, isObject);
      Step();
      SkipSpace();
      if index < |text| && text[index] == (if isObject then CLOSE_BRACE else CLOSE_BRACKET) {
        Step();
        ResumeAttached(num, stack, if isObject then Object([]) else Array([]), Left());
        Attach(if isObject then Object([]) else Array([]));
        return Again;
      }
      turn := EnterFrame(goal, if isObject then MembersFrame([], []) else ItemsFrame([]));
    }

    /** Goes on inside an open container, at its next key or item. */
    method EnterFrame(ghost goal: Res<Json>, frame: Frame) returns (turn: Turn)
      requires Valid() && goal == Resumed(num, stack, From(num, frame, Left(), |stack| + 1))
      modifies this
      ensures Reached(goal, turn) && (turn.Failed? || turn.Next?)
      ensures !turn.Failed? ==> old(index) <= index
    {
      ghost var outer := stack;
      ghost var left := Left();
      stack := stack + [frame];
      if frame.MembersFrame? {
        var ok := ReadKey();
        if !ok { return Failed(Invalid); }
        assert stack == outer + [MembersFrame(frame.members, Key(left).value)];
        ResumeMember(num, outer, frame.members, left);
      } else {
        ResumeItem(num, outer, frame.items, left);
      }
      return Next;
    }

    /** One turn of the source's inner loop, after a value: closes a container, goes on to the next member, or ends. */
    method CloseOrContinue(ghost goal: Res<Json>) returns (turn: Turn)
      requires Reached(goal, Again)
      modifies this
      ensures Reached(goal, turn)
      ensures turn.Next? || turn.Again? ==> old(index) < index
    {
      ghost var from := Left();
      SkipSpace();
      if |stack| == 0 {
        return if index != |text| then Failed(Invalid) else Done;
      }
      FrameGoesOn(num, stack[|stack| - 1], from, |stack|);
      if index >= |text| { return Failed(Invalid); }
      turn := LeaveValue(goal);
    }

    method LeaveValue(ghost goal: Res<Json>) returns (turn: Turn)
      requires Valid() && index < |text| && stack != []
      requires goal == Resumed(num, stack[..|stack| - 1], GoesOn(num, stack[|stack| - 1], Left(), |stack|))
      modifies this
      ensures Reached(goal, turn)
      ensures turn.Next? || turn.Again? ==> old(index) < index
    {
      var top := stack[|stack| - 1];
      var outer := stack[..|stack| - 1];
      var c := text[index];
      Step();
      stack := outer;
      if c == (if top.ItemsFrame? then CLOSE_BRACKET else CLOSE_BRACE) {
        ResumeAttached(num, outer, Container(top), Left());
        Attach(Container(top));
        turn := Again;
      } else if c == COMMA {
        turn := EnterFrame(goal, top);
      } else {
        turn := Failed(Invalid);
      }
    }

    /** JSON.parse over the text, or the error of the first place where it fails. */
    method Parse() returns (r: Res<Json>)
      requires index == 0 && stack == []
      modifies this
      ensures r == ParseText(num, text)
    {
      ghost var goal := ParseText(num, text);
      assert Left() == text;
      while true
        invariant Reached(goal, Next)
        decreases |text| - index
      {
        ghost var start := index;
        var turn := ReadValue(goal);
        if turn.Failed? { return Bad(turn.error); }
        while turn.Again?
          invariant Reached(goal, turn)
          invariant turn.Next? || turn.Again? ==> start < index
          decreases turn.Again?, |text| - index
        {
          turn := CloseOrContinue(goal);
        }
        if turn.Failed? { return Bad(turn.error); }
        if turn.Done? { return Ok(root, []); }
      }
    }
  }

  /** How a turn of the loop ends: with an error, with the whole value, at the next value, or after a value. */
  datatype Turn = Failed(error: Error) | Done | Next | Again

  /** A number read part by part. */
  lemma NumberParts(num: Text -> Double, s: Text, t: Text, u: Text, rest: Text)
    requires IntegerRest(s) == Some(t) && FractionRest(t) == Some(u) && ExponentRest(u) == Some(rest)
    ensures NumberRest(s) == Some(rest) && |rest| <= |s|
    ensures NumberValue(num, s) == Ok(Number(num(s[..|s| - |rest|])), rest)
  {
  }

  /** How an opening unit begins a container. */
  lemma ValueOpens(num: Text -> Double, s: Text, depth: nat, isObject: bool)
    requires depth < MAX_DEPTH && Skip(s) != [] && Skip(s)[0] == if isObject then OPEN_BRACE else OPEN_BRACKET
    ensures var u := Skip(Skip(s)[1..]);
      Value(num, s, depth) ==
        if u != [] && u[0] == (if isObject then CLOSE_BRACE else CLOSE_BRACKET)
        then Ok(if isObject then Object([]) else Array([]), u[1..])
        else From(num, if isObject then MembersFrame([], []) else ItemsFrame([]), u, depth + 1)
  {
  }

  /** How an open container goes on at the first unit after a value and its white space. */
  function GoesOn(num: Text -> Double, frame: Frame, t: Text, depth: nat): Res<Json>
    requires t != []
  {
    if t[0] == (if frame.ItemsFrame? then CLOSE_BRACKET else CLOSE_BRACE) then Ok(Container(frame), t[1..])
    else if t[0] == COMMA then From(num, frame, t[1..], depth)
    else Bad(Invalid)
  }

  lemma FrameGoesOn(num: Text -> Double, frame: Frame, s: Text, depth: nat)
    ensures Rest(num, frame, s, depth) == if Skip(s) == [] then Bad(Invalid) else GoesOn(num, frame, Skip(s), depth)
  {
  }

  /** Attaching a value and going on is what the recursive reading does with it. */
  lemma ResumeAttached(num: Text -> Double, stack: seq<Frame>, value: Json, s: Text)
    ensures Resumed(num, stack, Ok(value, s)) ==
            AfterValue(num, if stack == [] then [] else stack[..|stack| - 1] + [Attached(stack[|stack| - 1], value)], value, s)
  {
  }

  /** Reading a member's value inside its object. */
  lemma ResumeMember(num: Text -> Double, stack: seq<Frame>, members: seq<Entry<Json>>, s: Text)
    requires Key(s).Ok?
    ensures Resumed(num, stack, MembersFrom(num, s, |stack| + 1, members)) ==
            Resumed(num, stack + [MembersFrame(members, Key(s).value)], Value(num, Key(s).rest, |stack| + 1))
  {
    var inner := stack + [MembersFrame(members, Key(s).value)];
    assert inner[..|stack|] == stack;
  }

  /** Reading an item inside its array. */
  lemma ResumeItem(num: Text -> Double, stack: seq<Frame>, items: seq<Json>, s: Text)
    ensures Resumed(num, stack, ItemsFrom(num, s, |stack| + 1, items)) ==
            Resumed(num, stack + [ItemsFrame(items)], Value(num, s, |stack| + 1))
  {
    var inner := stack + [ItemsFrame(items)];
    assert inner[..|stack|] == stack;
  }

  lemma PrependNothing(r: Res<Text>)
    ensures Prepend([], r) == r
  {
    if r.Ok? {
      assert [] + r.value == r.value;
    }
  }

  lemma PrependTwice(a: Text, b: Text, r: Res<Text>)
    ensures Prepend(a, Prepend(b, r)) == Prepend(a + b, r)
  {
    if r.Ok? {
      assert a + (b + r.value) == (a + b) + r.value;
    }
  }
}
