/**
 The grammar of RFC 8259, sections 2 to 7, as parse trees. A tree gives the text it stands for and the value it denotes;
 the reader accepts exactly the texts of trees whose containers nest at most MAX_DEPTH deep, and returns their values.

 Every text function takes the text that follows, so `NodeText(n, tail)` is the text of `n` and then `tail`.
 */
module JsonGrammar {
  import opened Utf16
  import opened Wrappers
  import opened JsonNumber
  import opened JsonText
  import ProviderJson

  /** One element of a string: a unit as itself, a one-letter escape, or a \u escape. */
  datatype Chunk = Raw(unit: Unit) | Short(letter: Unit) | Hex(a: Unit, b: Unit, c: Unit, d: Unit)

  /** A value. White space belongs to the items and members around it. */
  datatype Node =
    | NullNode
    | BoolNode(flag: bool)
    | NumberNode(numeral: Numeral)
    | StringNode(chunks: seq<Chunk>)
    | EmptyArray(space: Text)
    | ArrayNode(items: Items)
    | EmptyObject(space: Text)
    | ObjectNode(members: Members)

  datatype Items =
    | LastItem(before: Text, node: Node, after: Text)
    | NextItem(before: Text, node: Node, after: Text, rest: Items)

  datatype Members =
    | LastMember(before: Text, key: seq<Chunk>, middle: Text, space: Text, node: Node, after: Text)
    | NextMember(before: Text, key: seq<Chunk>, middle: Text, space: Text, node: Node, after: Text, rest: Members)

  // ----- Texts

  function ChunkText(c: Chunk): Text {
    match c
    case Raw(unit) => [unit]
    case Short(letter) => [BACKSLASH, letter]
    case Hex(a, b, c, d) => [BACKSLASH, 0x75, a, b, c, d]
  }

  function ChunksText(chunks: seq<Chunk>, tail: Text): Text {
    if chunks == [] then tail else ChunkText(chunks[0]) + ChunksText(chunks[1..], tail)
  }

  function StringText(chunks: seq<Chunk>, tail: Text): Text {
    [QUOTE] + ChunksText(chunks, [QUOTE] + tail)
  }

  function NodeText(n: Node, tail: Text): Text {
    match n
    case NullNode => NULL + tail
    case BoolNode(flag) => (if flag then TRUE else FALSE) + tail
    case NumberNode(numeral) => NumeralText(numeral, tail)
    case StringNode(chunks) => StringText(chunks, tail)
    case EmptyArray(space) => [OPEN_BRACKET] + (space + ([CLOSE_BRACKET] + tail))
    case ArrayNode(items) => [OPEN_BRACKET] + ItemsText(items, [CLOSE_BRACKET] + tail)
    case EmptyObject(space) => [OPEN_BRACE] + (space + ([CLOSE_BRACE] + tail))
    case ObjectNode(members) => [OPEN_BRACE] + MembersText(members, [CLOSE_BRACE] + tail)
  }

  function ItemsText(items: Items, tail: Text): Text {
    items.before + NodeText(items.node, items.after +
      (match items
       case LastItem(_, _, _) => tail
       case NextItem(_, _, _, rest) => [COMMA] + ItemsText(rest, tail)))
  }

  function MembersText(members: Members, tail: Text): Text {
    members.before + StringText(members.key, members.middle + ([COLON] + (members.space +
      NodeText(members.node, members.after +
        (match members
         case LastMember(_, _, _, _, _, _) => tail
         case NextMember(_, _, _, _, _, _, rest) => [COMMA] + MembersText(rest, tail))))))
  }

  // ----- Well-formedness

  predicate AllSpace(s: Text) {
    forall i :: 0 <= i < |s| ==> IsSpace(s[i])
  }

  /** RFC 8259 section 7 when `strict`; otherwise a \u escape may also be what HexUnit accepts. */
  predicate ChunkOk(strict: bool, c: Chunk) {
    match c
    case Raw(unit) => SPACE <= unit && unit != QUOTE && unit != BACKSLASH
    case Short(letter) => Unescaped(letter).Some?
    case Hex(a, b, c, d) =>
      if strict then IsHex(a) && IsHex(b) && IsHex(c) && IsHex(d) else HexUnit(a, b, c, d).Some?
  }

  predicate ChunksOk(strict: bool, chunks: seq<Chunk>) {
    forall i :: 0 <= i < |chunks| ==> ChunkOk(strict, chunks[i])
  }

  predicate NodeOk(strict: bool, n: Node) {
    match n
    case NullNode => true
    case BoolNode(_) => true
    case NumberNode(numeral) => NumeralOk(numeral)
    case StringNode(chunks) => ChunksOk(strict, chunks)
    case EmptyArray(space) => AllSpace(space)
    case ArrayNode(items) => ItemsOk(strict, items)
    case EmptyObject(space) => AllSpace(space)
    case ObjectNode(members) => MembersOk(strict, members)
  }

  predicate ItemsOk(strict: bool, items: Items) {
    && AllSpace(items.before) && NodeOk(strict, items.node) && AllSpace(items.after)
    && (items.NextItem? ==> ItemsOk(strict, items.rest))
  }

  predicate MembersOk(strict: bool, members: Members) {
    && AllSpace(members.before) && ChunksOk(strict, members.key) && AllSpace(members.middle) && AllSpace(members.space)
    && NodeOk(strict, members.node) && AllSpace(members.after)
    && (members.NextMember? ==> MembersOk(strict, members.rest))
  }

  function Max(a: nat, b: nat): nat {
    if a < b then b else a
  }

  /** How deep containers nest. */
  function Depth(n: Node): nat {
    match n
    case EmptyArray(_) => 1
    case EmptyObject(_) => 1
    case ArrayNode(items) => 1 + ItemsDepth(items)
    case ObjectNode(members) => 1 + MembersDepth(members)
    case _ => 0
  }

  function ItemsDepth(items: Items): nat {
    if items.LastItem? then Depth(items.node) else Max(Depth(items.node), ItemsDepth(items.rest))
  }

  function MembersDepth(members: Members): nat {
    if members.LastMember? then Depth(members.node) else Max(Depth(members.node), MembersDepth(members.rest))
  }

  // ----- Values

  function ChunkValue(c: Chunk): Unit
    requires ChunkOk(false, c)
  {
    match c
    case Raw(unit) => unit
    case Short(letter) => Unescaped(letter).value
    case Hex(a, b, c, d) => HexUnit(a, b, c, d).value
  }

  function ChunksValue(chunks: seq<Chunk>): Text
    requires ChunksOk(false, chunks)
  {
    if chunks == [] then [] else [ChunkValue(chunks[0])] + ChunksValue(chunks[1..])
  }

  function NodeValue(num: Text -> Double, n: Node): Json
    requires NodeOk(false, n)
  {
    match n
    case NullNode => Null
    case BoolNode(flag) => Bool(flag)
    case NumberNode(numeral) => Number(num(NumeralText(numeral, [])))
    case StringNode(chunks) => String(ChunksValue(chunks))
    case EmptyArray(_) => Array([])
    case ArrayNode(items) => Array(ItemsValue(num, items))
    case EmptyObject(_) => Object([])
    case ObjectNode(members) => Object(MembersValue(num, [], members))
  }

  function ItemsValue(num: Text -> Double, items: Items): seq<Json>
    requires ItemsOk(false, items)
  {
    [NodeValue(num, items.node)] + if items.LastItem? then [] else ItemsValue(num, items.rest)
  }

  /** The members added to `before` in order, a repeated key replacing the value it has. */
  function MembersValue(num: Text -> Double, before: seq<Entry<Json>>, members: Members): seq<Entry<Json>>
    requires MembersOk(false, members)
    decreases members
  {
    var with := Put(before, ChunksValue(members.key), NodeValue(num, members.node));
    if members.LastMember? then with else MembersValue(num, with, members.rest)
  }

  // ----- The reader accepts every tree

  /** What may follow a value: nothing, white space, or the punctuation of a container. */
  predicate Delimited(tail: Text) {
    tail == [] || IsSpace(tail[0]) || tail[0] == COMMA || tail[0] == CLOSE_BRACKET || tail[0] == CLOSE_BRACE
  }

  lemma {:induction false} SkipSpaces(space: Text, s: Text)
    requires AllSpace(space)
    ensures Skip(space + s) == Skip(s)
  {
    if space == [] {
      assert space + s == s;
    } else {
      assert (space + s)[1..] == space[1..] + s;
      SkipSpaces(space[1..], s);
    }
  }

  lemma {:induction false} ReadsChunk(c: Chunk, tail: Text)
    requires ChunkOk(false, c)
    ensures var s := ChunkText(c) + tail;
      s[0] != QUOTE && NextUnit(s) == Some((ChunkValue(c), |ChunkText(c)|)) && s[|ChunkText(c)|..] == tail
  {
  }

  lemma {:induction false} ReadsChunks(chunks: seq<Chunk>, tail: Text)
    requires ChunksOk(false, chunks)
    ensures StringBody(ChunksText(chunks, [QUOTE] + tail)) == Ok(ChunksValue(chunks), tail)
    decreases |chunks|
  {
    if chunks == [] {
      assert ([QUOTE] + tail)[1..] == tail;
    } else {
      ReadsChunks(chunks[1..], tail);
      ReadsChunk(chunks[0], ChunksText(chunks[1..], [QUOTE] + tail));
    }
  }

  /** A node's text begins with a unit that is not white space, and not with a closing bracket. */
  lemma {:induction false} NodeStarts(n: Node, tail: Text)
    requires NodeOk(false, n)
    ensures var s := NodeText(n, tail);
      s != [] && !IsSpace(s[0]) && s[0] != CLOSE_BRACKET && s[0] != CLOSE_BRACE
  {
    if n.NumberNode? {
      NumeralStarts(n.numeral, tail);
    }
  }

  lemma {:induction false} SkipNothing(s: Text)
    requires s != [] && !IsSpace(s[0])
    ensures Skip(s) == s
  {
  }

  lemma {:induction false} ReadsWord(num: Text -> Double, n: Node, tail: Text)
    requires n.NullNode? || n.BoolNode?
    ensures Scalar(num, NodeText(n, tail)) == Ok(NodeValue(num, n), tail)
  {
    var word := match n case NullNode => NULL case BoolNode(flag) => (if flag then TRUE else FALSE);
    assert (word + tail)[|word|..] == tail;
  }

  lemma {:induction false} ReadsString(num: Text -> Double, chunks: seq<Chunk>, tail: Text)
    requires ChunksOk(false, chunks)
    ensures Scalar(num, StringText(chunks, tail)) == Ok(String(ChunksValue(chunks)), tail)
  {
    var s := StringText(chunks, tail);
    assert s[1..] == ChunksText(chunks, [QUOTE] + tail);
    ReadsChunks(chunks, tail);
  }

  lemma {:induction false} ReadsScalar(num: Text -> Double, n: Node, tail: Text)
    requires NodeOk(false, n) && Delimited(tail) && Depth(n) == 0
    ensures NodeText(n, tail) != [] && Scalar(num, NodeText(n, tail)) == Ok(NodeValue(num, n), tail)
  {
    if n.StringNode? {
      ReadsString(num, n.chunks, tail);
    } else if n.NumberNode? {
      ReadsNumber(num, n.numeral, tail);
    } else {
      ReadsWord(num, n, tail);
    }
  }

  lemma {:induction false} ReadsNode(num: Text -> Double, space: Text, n: Node, tail: Text, depth: nat)
    requires AllSpace(space) && NodeOk(false, n) && Delimited(tail) && depth + Depth(n) <= MAX_DEPTH
    ensures Value(num, space + NodeText(n, tail), depth) == Ok(NodeValue(num, n), tail)
    decreases n, 1
  {
    var s := NodeText(n, tail);
    NodeStarts(n, tail);
    SkipSpaces(space, s);
    SkipNothing(s);
    if n.ArrayNode? {
      ReadsArrayNode(num, space + s, n.items, tail, depth);
    } else if n.ObjectNode? {
      ReadsObjectNode(num, space + s, n.members, tail, depth);
    } else if n.EmptyArray? || n.EmptyObject? {
      ReadsEmpty(num, n.EmptyObject?, n.space, space + s, tail, depth);
    } else {
      ReadsScalar(num, n, tail);
      ValueIsScalar(num, space + s, depth);
    }
  }

  lemma {:induction false} ReadsArrayNode(num: Text -> Double, s: Text, items: Items, tail: Text, depth: nat)
    requires ItemsOk(false, items) && depth + 1 + ItemsDepth(items) <= MAX_DEPTH
    requires Skip(s) == [OPEN_BRACKET] + ItemsText(items, [CLOSE_BRACKET] + tail)
    ensures Value(num, s, depth) == Ok(Array(ItemsValue(num, items)), tail)
    decreases items, 1
  {
    ReadsItems(num, items, tail, depth + 1, []);
    ReadsArray(num, s, ItemsText(items, [CLOSE_BRACKET] + tail), depth);
    assert [] + ItemsValue(num, items) == ItemsValue(num, items);
  }

  lemma {:induction false} ReadsObjectNode(num: Text -> Double, s: Text, members: Members, tail: Text, depth: nat)
    requires MembersOk(false, members) && depth + 1 + MembersDepth(members) <= MAX_DEPTH
    requires Skip(s) == [OPEN_BRACE] + MembersText(members, [CLOSE_BRACE] + tail)
    ensures Value(num, s, depth) == Ok(Object(MembersValue(num, [], members)), tail)
    decreases members, 1
  {
    ReadsMembers(num, members, tail, depth + 1, []);
    ReadsObject(num, s, MembersText(members, [CLOSE_BRACE] + tail), depth);
  }

  lemma {:induction false} ReadsArray(num: Text -> Double, s: Text, inner: Text, depth: nat)
    requires depth < MAX_DEPTH && Skip(s) == [OPEN_BRACKET] + inner
    requires Skip(inner) != [] && Skip(inner)[0] != CLOSE_BRACKET
    ensures Value(num, s, depth) == ItemsFrom(num, Skip(inner), depth + 1, [])
  {
    assert Skip(s)[1..] == inner;
    ProviderJson.ValueOpens(num, s, depth, false);
  }

  lemma {:induction false} ReadsObject(num: Text -> Double, s: Text, inner: Text, depth: nat)
    requires depth < MAX_DEPTH && Skip(s) == [OPEN_BRACE] + inner
    requires Skip(inner) != [] && Skip(inner)[0] != CLOSE_BRACE
    ensures Value(num, s, depth) == MembersFrom(num, Skip(inner), depth + 1, [])
  {
    assert Skip(s)[1..] == inner;
    ProviderJson.ValueOpens(num, s, depth, true);
  }

  lemma {:induction false} ValueIsScalar(num: Text -> Double, s: Text, depth: nat)
    requires Skip(s) != [] && Skip(s)[0] != OPEN_BRACE && Skip(s)[0] != OPEN_BRACKET
    ensures Value(num, s, depth) == Scalar(num, Skip(s))
  {
  }

  lemma {:induction false} ReadsEmpty(num: Text -> Double, isObject: bool, inner: Text, s: Text, tail: Text, depth: nat)
    requires AllSpace(inner) && depth < MAX_DEPTH
    requires Skip(s) == [if isObject then OPEN_BRACE else OPEN_BRACKET]
                        + (inner + ([if isObject then CLOSE_BRACE else CLOSE_BRACKET] + tail))
    ensures Value(num, s, depth) == Ok(if isObject then Object([]) else Array([]), tail)
  {
    var rest := [if isObject then CLOSE_BRACE else CLOSE_BRACKET] + tail;
    assert Skip(s)[1..] == inner + rest;
    SkipSpaces(inner, rest);
    SkipNothing(rest);
    assert rest[1..] == tail;
    ProviderJson.ValueOpens(num, s, depth, isObject);
  }

  lemma {:induction false} ItemsStep(num: Text -> Double, s: Text, depth: nat, done: seq<Json>, value: Json, after: Text,
                                     next: Text)
    requires Value(num, s, depth) == Ok(value, after + next) && AllSpace(after)
    requires next != [] && (next[0] == CLOSE_BRACKET || next[0] == COMMA)
    ensures ItemsFrom(num, s, depth, done) ==
            if next[0] == CLOSE_BRACKET then Ok(Array(done + [value]), next[1..])
            else ItemsFrom(num, next[1..], depth, done + [value])
  {
    SkipSpaces(after, next);
    SkipNothing(next);
  }

  lemma {:induction false} MembersStep(num: Text -> Double, s: Text, depth: nat, done: seq<Entry<Json>>, key: Text,
                                       middle: Text, value: Json, after: Text, next: Text)
    requires Key(s) == Ok(key, middle) && Value(num, middle, depth) == Ok(value, after + next) && AllSpace(after)
    requires next != [] && (next[0] == CLOSE_BRACE || next[0] == COMMA)
    ensures MembersFrom(num, s, depth, done) ==
            if next[0] == CLOSE_BRACE then Ok(Object(Put(done, key, value)), next[1..])
            else MembersFrom(num, next[1..], depth, Put(done, key, value))
  {
    SkipSpaces(after, next);
    SkipNothing(next);
  }

  /** Reading does not depend on white space before the first item or key. */
  lemma {:induction false} SkipTwice(num: Text -> Double, s: Text, depth: nat, done: seq<Json>, members: seq<Entry<Json>>)
    ensures ItemsFrom(num, Skip(s), depth, done) == ItemsFrom(num, s, depth, done)
    ensures MembersFrom(num, Skip(s), depth, members) == MembersFrom(num, s, depth, members)
  {
    assert Skip(Skip(s)) == Skip(s);
  }

  lemma {:induction false} ReadsItems(num: Text -> Double, items: Items, tail: Text, depth: nat, done: seq<Json>)
    requires ItemsOk(false, items) && depth + ItemsDepth(items) <= MAX_DEPTH
    ensures var s := ItemsText(items, [CLOSE_BRACKET] + tail);
      && ItemsFrom(num, Skip(s), depth, done) == Ok(Array(done + ItemsValue(num, items)), tail)
      && Skip(s) != [] && Skip(s)[0] != CLOSE_BRACKET
    decreases items, 0
  {
    var end := [CLOSE_BRACKET] + tail;
    var s := ItemsText(items, end);
    var value := NodeValue(num, items.node);
    var next := match items case LastItem(_, _, _) => end case NextItem(_, _, _, rest) => [COMMA] + ItemsText(rest, end);
    var rest := items.after + next;
    assert Delimited(rest);
    SkipSpaces(items.before, NodeText(items.node, rest));
    NodeStarts(items.node, rest);
    ReadsNode(num, items.before, items.node, rest, depth);
    ItemsStep(num, s, depth, done, value, items.after, next);
    SkipTwice(num, s, depth, done, []);
    match items
    case LastItem(_, _, _) =>
      assert next[1..] == tail;
      assert ItemsValue(num, items) == [value];
    case NextItem(_, _, _, more) =>
      assert next[1..] == ItemsText(more, end);
      ReadsItems(num, more, tail, depth, done + [value]);
      SkipTwice(num, next[1..], depth, done + [value], []);
      assert (done + [value]) + ItemsValue(num, more) == done + ItemsValue(num, items);
  }

  lemma {:induction false} ReadsKey(members: Members, rest: Text)
    requires MembersOk(false, members)
    ensures var s := members.before + StringText(members.key, members.middle + ([COLON] + rest));
      && Key(s) == Ok(ChunksValue(members.key), rest) && Skip(s) != [] && Skip(s)[0] == QUOTE
  {
    var after := members.middle + ([COLON] + rest);
    var t := StringText(members.key, after);
    SkipSpaces(members.before, t);
    SkipNothing(t);
    assert t[1..] == ChunksText(members.key, [QUOTE] + after);
    ReadsChunks(members.key, after);
    SkipSpaces(members.middle, [COLON] + rest);
    SkipNothing([COLON] + rest);
    assert ([COLON] + rest)[1..] == rest;
  }

  lemma {:induction false} ReadsMembers(num: Text -> Double, members: Members, tail: Text, depth: nat,
                                        done: seq<Entry<Json>>)
    requires MembersOk(false, members) && depth + MembersDepth(members) <= MAX_DEPTH
    ensures var s := MembersText(members, [CLOSE_BRACE] + tail);
      && MembersFrom(num, Skip(s), depth, done) == Ok(Object(MembersValue(num, done, members)), tail)
      && Skip(s) != [] && Skip(s)[0] != CLOSE_BRACE
    decreases members, 0
  {
    var end := [CLOSE_BRACE] + tail;
    var s := MembersText(members, end);
    var key, value := ChunksValue(members.key), NodeValue(num, members.node);
    var next := match members
      case LastMember(_, _, _, _, _, _) => end
      case NextMember(_, _, _, _, _, _, rest) => [COMMA] + MembersText(rest, end);
    var rest := members.after + next;
    assert Delimited(rest);
    var middle := members.space + NodeText(members.node, rest);
    ReadsKey(members, middle);
    ReadsNode(num, members.space, members.node, rest, depth);
    MembersStep(num, s, depth, done, key, middle, value, members.after, next);
    SkipTwice(num, s, depth, [], done);
    match members
    case LastMember(_, _, _, _, _, _) =>
      assert next[1..] == tail;
    case NextMember(_, _, _, _, _, _, more) =>
      assert next[1..] == MembersText(more, end);
      ReadsMembers(num, more, tail, depth, Put(done, key, value));
      SkipTwice(num, next[1..], depth, [], Put(done, key, value));
  }

  // ----- Everything the reader accepts is a tree

  lemma {:induction false} SpaceThenRest(s: Text) returns (space: Text)
    ensures AllSpace(space) && s == space + Skip(s)
  {
    if s != [] && IsSpace(s[0]) {
      var more := SpaceThenRest(s[1..]);
      space := [s[0]] + more;
    } else {
      space := [];
    }
  }

  lemma {:induction false} FindChunk(s: Text) returns (c: Chunk)
    requires s != [] && s[0] != QUOTE && NextUnit(s).Some?
    ensures ChunkOk(false, c) && ChunkValue(c) == NextUnit(s).value.0
    ensures s == ChunkText(c) + s[NextUnit(s).value.1..]
  {
    c := if s[0] != BACKSLASH then Raw(s[0])
         else if s[1] == 0x75 then Hex(s[2], s[3], s[4], s[5]) else Short(s[1]);
  }

  lemma {:induction false} FindChunks(s: Text) returns (chunks: seq<Chunk>)
    requires StringBody(s).Ok?
    ensures ChunksOk(false, chunks) && ChunksText(chunks, [QUOTE] + StringBody(s).rest) == s
    ensures ChunksValue(chunks) == StringBody(s).value
    decreases |s|
  {
    if s[0] == QUOTE {
      chunks := [];
    } else {
      var c := FindChunk(s);
      var more := FindChunks(s[NextUnit(s).value.1..]);
      chunks := [c] + more;
      assert chunks[1..] == more;
    }
  }

  lemma {:induction false} FindScalar(num: Text -> Double, s: Text) returns (n: Node)
    requires s != [] && Scalar(num, s).Ok?
    ensures NodeOk(false, n) && Depth(n) == 0 && s == NodeText(n, Scalar(num, s).rest)
    ensures NodeValue(num, n) == Scalar(num, s).value
  {
    if s[0] == QUOTE {
      var chunks := FindChunks(s[1..]);
      n := StringNode(chunks);
      HeadTail(s);
    } else if s[0] == 0x74 {
      n := BoolNode(true);
    } else if s[0] == 0x66 {
      n := BoolNode(false);
    } else if s[0] == 0x6E {
      n := NullNode;
    } else {
      var numeral := FindNumeral(s);
      n := NumberNode(numeral);
    }
  }

  lemma {:induction false} FindNode(num: Text -> Double, s: Text, depth: nat) returns (space: Text, n: Node)
    requires Value(num, s, depth).Ok? && depth <= MAX_DEPTH
    ensures AllSpace(space) && NodeOk(false, n) && depth + Depth(n) <= MAX_DEPTH
    ensures s == space + NodeText(n, Value(num, s, depth).rest) && NodeValue(num, n) == Value(num, s, depth).value
    decreases |s|, 2
  {
    space := SpaceThenRest(s);
    var t := Skip(s);
    if t[0] == OPEN_BRACE || t[0] == OPEN_BRACKET {
      n := FindContainer(num, s, depth);
    } else {
      ValueIsScalar(num, s, depth);
      n := FindScalar(num, t);
    }
  }

  lemma {:induction false} FindContainer(num: Text -> Double, s: Text, depth: nat) returns (n: Node)
    requires Value(num, s, depth).Ok? && depth <= MAX_DEPTH
    requires Skip(s) != [] && (Skip(s)[0] == OPEN_BRACE || Skip(s)[0] == OPEN_BRACKET)
    ensures NodeOk(false, n) && depth + Depth(n) <= MAX_DEPTH
    ensures Skip(s) == NodeText(n, Value(num, s, depth).rest) && NodeValue(num, n) == Value(num, s, depth).value
    decreases |s|, 1
  {
    var t := Skip(s);
    var isObject := t[0] == OPEN_BRACE;
    var inner := SpaceThenRest(t[1..]);
    var u := Skip(t[1..]);
    assert depth < MAX_DEPTH;
    ProviderJson.ValueOpens(num, s, depth, isObject);
    SkipTwice(num, t[1..], depth + 1, [], []);
    if u != [] && u[0] == (if isObject then CLOSE_BRACE else CLOSE_BRACKET) {
      n := if isObject then EmptyObject(inner) else EmptyArray(inner);
      EmptyText(t, inner, u);
    } else if isObject {
      n := FindObject(num, t, depth);
    } else {
      n := FindArray(num, t, depth);
    }
  }

  lemma {:induction false} EmptyText(t: Text, inner: Text, u: Text)
    requires t != [] && u != [] && t[1..] == inner + u
    ensures t == [t[0]] + (inner + ([u[0]] + u[1..]))
  {
    HeadTail(u);
    HeadTail(t);
  }

  lemma {:induction false} FindArray(num: Text -> Double, t: Text, depth: nat) returns (n: Node)
    requires depth < MAX_DEPTH && t != [] && t[0] == OPEN_BRACKET
    requires ItemsFrom(num, t[1..], depth + 1, []).Ok?
    ensures var r := ItemsFrom(num, t[1..], depth + 1, []);
      && NodeOk(false, n) && depth + Depth(n) <= MAX_DEPTH
      && t == NodeText(n, r.rest) && NodeValue(num, n) == r.value
    decreases |t|, 0
  {
    var items := FindItems(num, t[1..], depth + 1, []);
    n := ArrayNode(items);
    assert [] + ItemsValue(num, items) == ItemsValue(num, items);
    HeadTail(t);
  }

  lemma {:induction false} FindObject(num: Text -> Double, t: Text, depth: nat) returns (n: Node)
    requires depth < MAX_DEPTH && t != [] && t[0] == OPEN_BRACE
    requires MembersFrom(num, t[1..], depth + 1, []).Ok?
    ensures var r := MembersFrom(num, t[1..], depth + 1, []);
      && NodeOk(false, n) && depth + Depth(n) <= MAX_DEPTH
      && t == NodeText(n, r.rest) && NodeValue(num, n) == r.value
    decreases |t|, 0
  {
    var members := FindMembers(num, t[1..], depth + 1, []);
    n := ObjectNode(members);
    HeadTail(t);
  }

  lemma {:induction false} FindItems(num: Text -> Double, s: Text, depth: nat, done: seq<Json>) returns (items: Items)
    requires depth <= MAX_DEPTH && ItemsFrom(num, s, depth, done).Ok?
    ensures var r := ItemsFrom(num, s, depth, done);
      && ItemsOk(false, items) && depth + ItemsDepth(items) <= MAX_DEPTH
      && s == ItemsText(items, [CLOSE_BRACKET] + r.rest) && r.value == Array(done + ItemsValue(num, items))
    decreases |s|, 3
  {
    var r := ItemsFrom(num, s, depth, done);
    var v := Value(num, s, depth);
    var before, node := FindNode(num, s, depth);
    var after := SpaceThenRest(v.rest);
    var next := Skip(v.rest);
    ItemsStep(num, s, depth, done, v.value, after, next);
    HeadTail(next);
    if next[0] == CLOSE_BRACKET {
      items := LastItem(before, node, after);
      assert ItemsValue(num, items) == [v.value];
    } else {
      var rest := FindItems(num, next[1..], depth, done + [v.value]);
      items := NextItem(before, node, after, rest);
      JoinItems(num, items, done);
    }
  }

  lemma {:induction false} JoinItems(num: Text -> Double, items: Items, done: seq<Json>)
    requires items.NextItem? && ItemsOk(false, items)
    ensures (done + [NodeValue(num, items.node)]) + ItemsValue(num, items.rest) == done + ItemsValue(num, items)
  {
  }

  lemma {:induction false} FindKey(s: Text) returns (before: Text, key: seq<Chunk>, middle: Text)
    requires Key(s).Ok?
    ensures AllSpace(before) && AllSpace(middle) && ChunksOk(false, key) && ChunksValue(key) == Key(s).value
    ensures s == before + StringText(key, middle + ([COLON] + Key(s).rest))
  {
    before := SpaceThenRest(s);
    var t := Skip(s);
    key := FindChunks(t[1..]);
    var rest := StringBody(t[1..]).rest;
    middle := SpaceThenRest(rest);
    HeadTail(Skip(rest));
    HeadTail(t);
  }

  /** One member, as a tree, and the text after it. */
  lemma {:induction false} FindMember(num: Text -> Double, s: Text, depth: nat) returns (last: Members)
    requires depth <= MAX_DEPTH && Key(s).Ok? && Value(num, Key(s).rest, depth).Ok?
    ensures var v := Value(num, Key(s).rest, depth);
      && last.LastMember? && MembersOk(false, last) && depth + MembersDepth(last) <= MAX_DEPTH
      && s == MembersText(last, Skip(v.rest)) && v.rest == last.after + Skip(v.rest)
      && ChunksValue(last.key) == Key(s).value && NodeValue(num, last.node) == v.value
    decreases |s|, 2
  {
    var rest := Key(s).rest;
    var before, key, middle := FindKey(s);
    var space, node := FindNode(num, rest, depth);
    var after := SpaceThenRest(Value(num, rest, depth).rest);
    last := LastMember(before, key, middle, space, node, after);
  }

  lemma {:induction false} FindMembers(num: Text -> Double, s: Text, depth: nat, done: seq<Entry<Json>>)
    returns (members: Members)
    requires depth <= MAX_DEPTH && MembersFrom(num, s, depth, done).Ok?
    ensures var r := MembersFrom(num, s, depth, done);
      && MembersOk(false, members) && depth + MembersDepth(members) <= MAX_DEPTH
      && s == MembersText(members, [CLOSE_BRACE] + r.rest) && r.value == Object(MembersValue(num, done, members))
    decreases |s|, 3
  {
    var k := Key(s);
    var v := Value(num, k.rest, depth);
    var last := FindMember(num, s, depth);
    var next := Skip(v.rest);
    MembersStep(num, s, depth, done, k.value, k.rest, v.value, last.after, next);
    HeadTail(next);
    if next[0] == CLOSE_BRACE {
      members := last;
    } else {
      var rest := FindMembers(num, next[1..], depth, Put(done, k.value, v.value));
      members := NextMember(last.before, last.key, last.middle, last.space, last.node, last.after, rest);
      NextMemberText(last, rest, next, [CLOSE_BRACE] + MembersFrom(num, s, depth, done).rest);
    }
  }

  lemma {:induction false} NextMemberText(last: Members, rest: Members, next: Text, tail: Text)
    requires last.LastMember? && next == [COMMA] + MembersText(rest, tail)
    ensures MembersText(NextMember(last.before, last.key, last.middle, last.space, last.node, last.after, rest), tail) ==
            MembersText(last, next)
  {
  }

  // ----- The language

  /** A whole text: a tree with white space around it. */
  ghost predicate IsTextOf(strict: bool, text: Text, before: Text, n: Node, after: Text) {
    && AllSpace(before) && AllSpace(after) && NodeOk(strict, n) && Depth(n) <= MAX_DEPTH
    && text == before + NodeText(n, after)
  }

  /** The texts of RFC 8259 whose containers nest at most MAX_DEPTH deep. */
  ghost predicate IsRfcText(text: Text) {
    exists before, n, after :: IsTextOf(true, text, before, n, after)
  }

  /** The reader returns the value of every tree's text. */
  lemma {:induction false} ParseAcceptsTrees(num: Text -> Double, text: Text, before: Text, n: Node, after: Text)
    requires IsTextOf(false, text, before, n, after)
    ensures ParseText(num, text) == Ok(NodeValue(num, n), [])
  {
    assert after + [] == after;
    SkipSpaces(after, []);
    assert Delimited(after) by {
      assert after != [] ==> IsSpace(after[0]);
    }
    ReadsNode(num, before, n, after, 0);
  }

  /** And only those: every accepted text is a tree's, with that tree's value. */
  lemma {:induction false} ParseFindsTree(num: Text -> Double, text: Text) returns (before: Text, n: Node, after: Text)
    requires ParseText(num, text).Ok?
    ensures IsTextOf(false, text, before, n, after) && ParseText(num, text).value == NodeValue(num, n)
  {
    var r := Value(num, text, 0);
    before, n := FindNode(num, text, 0);
    after := r.rest;
    var space := SpaceThenRest(after);
    assert after == space + [] == space;
  }

  /** The accepted texts are those of the grammar, read with HexUnit's rule for \u escapes. */
  lemma {:induction false} ParseAcceptsExactlyTrees(num: Text -> Double, text: Text)
    ensures ParseText(num, text).Ok? <==> exists before, n, after :: IsTextOf(false, text, before, n, after)
  {
    if ParseText(num, text).Ok? {
      var before, n, after := ParseFindsTree(num, text);
    }
    forall before, n, after | IsTextOf(false, text, before, n, after)
      ensures ParseText(num, text).Ok?
    {
      ParseAcceptsTrees(num, text, before, n, after);
    }
  }

  // ----- Where the language differs from RFC 8259

  lemma {:induction false} ChunksNul(chunks: seq<Chunk>, tail: Text)
    requires ChunksOk(false, chunks)
    ensures NUL in ChunksText(chunks, tail) <==> NUL in tail || !ChunksOk(true, chunks)
    decreases |chunks|
  {
    if chunks != [] {
      ChunksNul(chunks[1..], tail);
      assert ChunkOk(false, chunks[0]);
      assert NUL in ChunkText(chunks[0]) <==> !ChunkOk(true, chunks[0]);
      assert ChunksOk(true, chunks) <==> ChunkOk(true, chunks[0]) && ChunksOk(true, chunks[1..]);
    }
  }

  lemma {:induction false} NumeralNul(n: Numeral, tail: Text)
    requires NumeralOk(n)
    ensures NUL in NumeralText(n, tail) <==> NUL in tail
  {
    PartNul(n.fraction);
    PartNul(n.exponent);
  }

  lemma {:induction false} PartNul(s: Text)
    requires FractionOk(s) || ExponentOk(s)
    ensures NUL !in s
  {
    if s != [] {
      assert s == [s[0]] + s[1..];
      assert 1 < |s| ==> s == [s[0], s[1]] + s[2..];
    }
  }

  /** A NUL character can only stand inside a \u escape that the grammar does not have. */
  lemma {:induction false} NodeNul(n: Node, tail: Text)
    requires NodeOk(false, n)
    ensures NUL in NodeText(n, tail) <==> NUL in tail || !NodeOk(true, n)
    decreases n
  {
    match n
    case StringNode(chunks) => ChunksNul(chunks, [QUOTE] + tail);
    case NumberNode(numeral) => NumeralNul(numeral, tail);
    case ArrayNode(items) => ItemsNul(items, [CLOSE_BRACKET] + tail);
    case ObjectNode(members) => MembersNul(members, [CLOSE_BRACE] + tail);
    case _ =>
  }

  lemma {:induction false} ItemsNul(items: Items, tail: Text)
    requires ItemsOk(false, items)
    ensures NUL in ItemsText(items, tail) <==> NUL in tail || !ItemsOk(true, items)
    decreases items
  {
    var next := match items case LastItem(_, _, _) => tail case NextItem(_, _, _, rest) => [COMMA] + ItemsText(rest, tail);
    NodeNul(items.node, items.after + next);
    if items.NextItem? {
      ItemsNul(items.rest, tail);
    }
  }

  lemma {:induction false} KeyNul(before: Text, key: seq<Chunk>, middle: Text, value: Text)
    requires AllSpace(before) && ChunksOk(false, key) && AllSpace(middle)
    ensures NUL in before + StringText(key, middle + ([COLON] + value)) <==> NUL in value || !ChunksOk(true, key)
  {
    ChunksNul(key, [QUOTE] + (middle + ([COLON] + value)));
  }

  lemma {:induction false} MembersNul(members: Members, tail: Text)
    requires MembersOk(false, members)
    ensures NUL in MembersText(members, tail) <==> NUL in tail || !MembersOk(true, members)
    decreases members
  {
    var next := match members
      case LastMember(_, _, _, _, _, _) => tail
      case NextMember(_, _, _, _, _, _, rest) => [COMMA] + MembersText(rest, tail);
    var value := members.space + NodeText(members.node, members.after + next);
    NodeNul(members.node, members.after + next);
    KeyNul(members.before, members.key, members.middle, value);
    if members.NextMember? {
      MembersNul(members.rest, tail);
    }
  }

  lemma {:induction false} StrictIsLax(n: Node)
    requires NodeOk(true, n)
    ensures NodeOk(false, n)
    decreases n
  {
    match n
    case StringNode(chunks) => StrictChunks(chunks);
    case ArrayNode(items) => StrictItems(items);
    case ObjectNode(members) => StrictMembers(members);
    case _ =>
  }

  lemma {:induction false} StrictChunks(chunks: seq<Chunk>)
    requires ChunksOk(true, chunks)
    ensures ChunksOk(false, chunks)
  {
    forall i | 0 <= i < |chunks|
      ensures ChunkOk(false, chunks[i])
    {
      assert ChunkOk(true, chunks[i]);
    }
  }

  lemma {:induction false} StrictItems(items: Items)
    requires ItemsOk(true, items)
    ensures ItemsOk(false, items)
    decreases items
  {
    StrictIsLax(items.node);
    if items.NextItem? {
      StrictItems(items.rest);
    }
  }

  lemma {:induction false} StrictMembers(members: Members)
    requires MembersOk(true, members)
    ensures MembersOk(false, members)
    decreases members
  {
    StrictIsLax(members.node);
    StrictChunks(members.key);
    if members.NextMember? {
      StrictMembers(members.rest);
    }
  }

  /** The reader accepts exactly the texts of RFC 8259 within the depth limit, as long as the text holds no NUL
      character. */
  lemma {:induction false} ParseAcceptsExactlyRfc(num: Text -> Double, text: Text)
    ensures IsRfcText(text) <==> ParseText(num, text).Ok? && NUL !in text
  {
    if ParseText(num, text).Ok? && NUL !in text {
      var before, n, after := ParseFindsTree(num, text);
      NodeNul(n, after);
      assert IsTextOf(true, text, before, n, after);
    }
    forall before, n, after | IsTextOf(true, text, before, n, after)
      ensures ParseText(num, text).Ok? && NUL !in text
    {
      StrictIsLax(n);
      NodeNul(n, after);
      ParseAcceptsTrees(num, text, before, n, after);
    }
  }

  /** The quote, a \u escape of one digit and three NUL characters, the quote. */
  const PADDED_ESCAPE: Text := [QUOTE, BACKSLASH, 0x75, 0x31, NUL, NUL, NUL, QUOTE]

  /** That text is accepted although RFC 8259 does not have it. */
  lemma {:induction false} PaddedEscapeIsAccepted(num: Text -> Double)
    ensures ParseText(num, PADDED_ESCAPE) == Ok(String([0x01]), []) && !IsRfcText(PADDED_ESCAPE)
  {
    var chunks := [Hex(0x31, NUL, NUL, NUL)];
    var n := StringNode(chunks);
    assert chunks[1..] == [];
    assert ChunksText(chunks, [QUOTE]) == ChunkText(chunks[0]) + ChunksText([], [QUOTE]);
    assert [QUOTE] + [] == [QUOTE];
    assert NodeText(n, []) == PADDED_ESCAPE;
    assert [] + NodeText(n, []) == PADDED_ESCAPE;
    assert ChunksValue(chunks) == [0x01] by {
      assert ChunkOk(false, chunks[0]);
      assert ChunksValue([]) == [];
    }
    assert IsTextOf(false, PADDED_ESCAPE, [], n, []);
    ParseAcceptsTrees(num, PADDED_ESCAPE, [], n, []);
    ParseAcceptsExactlyRfc(num, PADDED_ESCAPE);
    assert PADDED_ESCAPE[4] == NUL;
  }
}
