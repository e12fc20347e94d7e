/**
 Writing a value and reading it back. The text JsJson writes for a value is a tree of the JSON grammar, so the reader
 returns what that tree denotes: the value in its normal form.
 */
module JsonRoundTrip {
  import opened Utf16
  import opened Wrappers
  import opened Sequences
  import opened JsonNumber
  import opened JsonText
  import opened JsJson
  import Grammar = JsonGrammar

  // ----- Strings

  function ChunkOf(s: Text, i: nat): Grammar.Chunk
    requires i < |s|
  {
    var u := s[i];
    match ShortEscape(u)
    case Some(letter) => Grammar.Short(letter)
    case None =>
      if u < SPACE || IsLone(s, i) then
        Grammar.Hex(HexDigit(u / 4096), HexDigit(u / 256 % 16), HexDigit(u / 16 % 16), HexDigit(u % 16))
      else Grammar.Raw(u)
  }

  function ChunksOf(s: Text, i: nat): seq<Grammar.Chunk>
    requires i <= |s|
    decreases |s| - i
  {
    if i == |s| then [] else [ChunkOf(s, i)] + ChunksOf(s, i + 1)
  }

  lemma {:induction false} HexDigits(u: Unit)
    ensures var a, b, c, d := u / 4096, u / 256 % 16, u / 16 % 16, u % 16;
      a < 16 && u == a * 4096 + b * 256 + c * 16 + d
  {
    Sixteenths(u);
    Sixteenths(u / 16);
    Sixteenths(u / 256);
  }

  lemma {:induction false} Sixteenths(u: nat)
    ensures u == u / 16 * 16 + u % 16 && u / 16 / 16 == u / 256 && u / 256 / 16 == u / 4096
  {
  }

  lemma {:induction false} HexReadsBack(u: Unit)
    ensures HexUnit(HexText(u)[0], HexText(u)[1], HexText(u)[2], HexText(u)[3]) == Some(u)
  {
    HexDigits(u);
  }

  lemma {:induction false} ChunkIsUnit(s: Text, i: nat)
    requires i < |s|
    ensures Grammar.ChunkOk(true, ChunkOf(s, i)) && Grammar.ChunkOk(false, ChunkOf(s, i))
    ensures Grammar.ChunkText(ChunkOf(s, i)) == QuotedUnit(s, i) && Grammar.ChunkValue(ChunkOf(s, i)) == s[i]
  {
    var u := s[i];
    if ShortEscape(u).Some? {
      assert Unescaped(ShortEscape(u).value) == Some(u);
    } else if u < SPACE || IsLone(s, i) {
      HexReadsBack(u);
    }
  }

  lemma {:induction false} ChunksAreText(s: Text, i: nat, tail: Text)
    requires i <= |s|
    ensures Grammar.ChunksOk(true, ChunksOf(s, i)) && Grammar.ChunksOk(false, ChunksOf(s, i))
    ensures Grammar.ChunksText(ChunksOf(s, i), tail) == QuotedFrom(s, i) + tail
    ensures Grammar.ChunksValue(ChunksOf(s, i)) == s[i..]
    decreases |s| - i
  {
    if i == |s| {
      assert [] + tail == tail;
    } else {
      var chunks := ChunksOf(s, i);
      ChunkIsUnit(s, i);
      ChunksAreText(s, i + 1, tail);
      assert chunks[1..] == ChunksOf(s, i + 1);
      Associate(QuotedUnit(s, i), QuotedFrom(s, i + 1), tail);
      assert s[i..] == [s[i]] + s[i + 1..];
    }
  }

  lemma {:induction false} StringIsQuoted(s: Text, tail: Text)
    ensures Grammar.ChunksOk(true, ChunksOf(s, 0)) && Grammar.ChunksOk(false, ChunksOf(s, 0))
    ensures Grammar.StringText(ChunksOf(s, 0), tail) == Quoted(s) + tail
    ensures Grammar.ChunksValue(ChunksOf(s, 0)) == s
  {
    ChunksAreText(s, 0, [QUOTE] + tail);
    Associate(QuotedFrom(s, 0), [QUOTE], tail);
    Associate([QUOTE], QuotedFrom(s, 0) + [QUOTE], tail);
  }

  // ----- Values

  ghost function NumberNodeOf(s: Text): (n: Grammar.Node)
    requires IsNumeral(s)
    ensures n.NumberNode? && NumeralOk(n.numeral) && NumeralText(n.numeral, []) == s
  {
    NumberIsNumeral(s);
    var n :| NumeralOk(n) && s == NumeralText(n, []);
    Grammar.NumberNode(n)
  }

  ghost function NodeOf(ns: Numbers, v: Json): Grammar.Node
    requires Coherent(ns)
    decreases Size(v), 0
  {
    match v
    case Null => Grammar.NullNode
    case Undefined => Grammar.NullNode
    case Bool(flag) => Grammar.BoolNode(flag)
    case Number(n) => if ns.show(n) == NULL then Grammar.NullNode else NumberNodeOf(ns.show(n))
    case String(text) => Grammar.StringNode(ChunksOf(text, 0))
    case Array(items) => if items == [] then Grammar.EmptyArray([]) else Grammar.ArrayNode(ItemsOf(ns, items))
    case Object(members) =>
      if Written(members) == [] then Grammar.EmptyObject([]) else Grammar.ObjectNode(MembersOf(ns, Written(members)))
  }

  ghost function ItemsOf(ns: Numbers, items: seq<Json>): Grammar.Items
    requires Coherent(ns) && items != []
    decreases ItemsSize(items), 1
  {
    if |items| == 1 then Grammar.LastItem([], NodeOf(ns, items[0]), [])
    else Grammar.NextItem([], NodeOf(ns, items[0]), [], ItemsOf(ns, items[1..]))
  }

  ghost function MembersOf(ns: Numbers, members: seq<Entry<Json>>): Grammar.Members
    requires Coherent(ns) && members != []
    decreases MembersSize(members), 1
  {
    var e := members[0];
    if |members| == 1 then Grammar.LastMember([], ChunksOf(e.key, 0), [], [], NodeOf(ns, e.value), [])
    else Grammar.NextMember([], ChunksOf(e.key, 0), [], [], NodeOf(ns, e.value), [], MembersOf(ns, members[1..]))
  }

  // ----- The text of the tree

  lemma {:induction false} Empty(s: Text)
    ensures [] + s == s && s + [] == s
  {
  }

  lemma {:induction false} Bracketed(open: Unit, s: Text, close: Unit, tail: Text)
    ensures [open] + (s + ([close] + tail)) == ([open] + (s + [close])) + tail
  {
    Associate(s, [close], tail);
    Associate([open], s + [close], tail);
  }

  /** The text written for a value is its tree's. */
  lemma {:induction false} NodeIsText(ns: Numbers, v: Json, tail: Text)
    requires Coherent(ns)
    ensures Grammar.NodeText(NodeOf(ns, v), tail) == WriteText(ns, v) + tail
    decreases Size(v), 0
  {
    match v
    case Number(n) =>
      if ns.show(n) != NULL {
        NumeralThenTail(NumberNodeOf(ns.show(n)).numeral, tail);
      }
    case String(text) => StringIsQuoted(text, tail);
    case Array(items) => ArrayIsText(ns, items, tail);
    case Object(members) => ObjectIsText(ns, Written(members), tail);
    case _ =>
  }

  lemma {:induction false} ArrayIsText(ns: Numbers, items: seq<Json>, tail: Text)
    requires Coherent(ns)
    ensures Grammar.NodeText(if items == [] then Grammar.EmptyArray([]) else Grammar.ArrayNode(ItemsOf(ns, items)), tail)
         == ([OPEN_BRACKET] + (ItemsText(ns, true, items) + [CLOSE_BRACKET])) + tail
    decreases ItemsSize(items), 2
  {
    if items == [] {
      Empty([CLOSE_BRACKET] + tail);
    } else {
      ItemsAreText(ns, true, items, [CLOSE_BRACKET] + tail);
      Empty(Grammar.ItemsText(ItemsOf(ns, items), [CLOSE_BRACKET] + tail));
    }
    Bracketed(OPEN_BRACKET, ItemsText(ns, true, items), CLOSE_BRACKET, tail);
  }

  lemma {:induction false} ObjectIsText(ns: Numbers, members: seq<Entry<Json>>, tail: Text)
    requires Coherent(ns)
    ensures Grammar.NodeText(if members == [] then Grammar.EmptyObject([]) else Grammar.ObjectNode(MembersOf(ns, members)),
                             tail)
         == ([OPEN_BRACE] + (MembersText(ns, true, members) + [CLOSE_BRACE])) + tail
    decreases MembersSize(members), 2
  {
    if members == [] {
      Empty([CLOSE_BRACE] + tail);
    } else {
      MembersAreText(ns, true, members, [CLOSE_BRACE] + tail);
      Empty(Grammar.MembersText(MembersOf(ns, members), [CLOSE_BRACE] + tail));
    }
    Bracketed(OPEN_BRACE, MembersText(ns, true, members), CLOSE_BRACE, tail);
  }

  lemma {:induction false} ItemsAreText(ns: Numbers, first: bool, items: seq<Json>, tail: Text)
    requires Coherent(ns) && items != []
    ensures Separator(first) + Grammar.ItemsText(ItemsOf(ns, items), tail) == ItemsText(ns, first, items) + tail
    decreases ItemsSize(items), 1
  {
    var next := if |items| == 1 then tail else [COMMA] + Grammar.ItemsText(ItemsOf(ns, items[1..]), tail);
    var more := ItemsText(ns, false, items[1..]);
    assert next == more + tail by {
      if |items| == 1 {
        assert items[1..] == [];
        Empty(tail);
      } else {
        ItemsAreText(ns, false, items[1..], tail);
      }
    }
    NodeIsText(ns, items[0], next);
    Empty(next);
    Empty(Grammar.NodeText(NodeOf(ns, items[0]), next));
    Associate(WriteText(ns, items[0]), more, tail);
    Associate(Separator(first), WriteText(ns, items[0]) + more, tail);
  }

  /** A member's key, colon and value. */
  lemma {:induction false} MemberIsText(key: Text, value: Text, more: Text, tail: Text)
    ensures Grammar.StringText(ChunksOf(key, 0), [COLON] + (value + (more + tail)))
         == (Quoted(key) + ([COLON] + (value + more))) + tail
  {
    StringIsQuoted(key, [COLON] + (value + (more + tail)));
    Associate(value, more, tail);
    Associate([COLON], value + more, tail);
    Associate(Quoted(key), [COLON] + (value + more), tail);
  }

  lemma {:induction false} MembersAreText(ns: Numbers, first: bool, members: seq<Entry<Json>>, tail: Text)
    requires Coherent(ns) && members != []
    ensures Separator(first) + Grammar.MembersText(MembersOf(ns, members), tail) == MembersText(ns, first, members) + tail
    decreases MembersSize(members), 1
  {
    var e := members[0];
    var next := if |members| == 1 then tail else [COMMA] + Grammar.MembersText(MembersOf(ns, members[1..]), tail);
    var more := MembersText(ns, false, members[1..]);
    assert next == more + tail by {
      if |members| == 1 {
        assert members[1..] == [];
        Empty(tail);
      } else {
        MembersAreText(ns, false, members[1..], tail);
      }
    }
    var value := WriteText(ns, e.value);
    NodeIsText(ns, e.value, next);
    MemberIsText(e.key, value, more, tail);
    OneMember(ns, members, next, tail);
    Associate(Separator(first), Quoted(e.key) + ([COLON] + (value + more)), tail);
  }

  lemma {:induction false} OneMember(ns: Numbers, members: seq<Entry<Json>>, next: Text, tail: Text)
    requires Coherent(ns) && members != []
    requires next == if |members| == 1 then tail else [COMMA] + Grammar.MembersText(MembersOf(ns, members[1..]), tail)
    ensures Grammar.MembersText(MembersOf(ns, members), tail)
         == Grammar.StringText(ChunksOf(members[0].key, 0), [COLON] + Grammar.NodeText(NodeOf(ns, members[0].value), next))
  {
    var node := NodeOf(ns, members[0].value);
    Empty(next);
    Empty(Grammar.NodeText(node, next));
    Empty([COLON] + Grammar.NodeText(node, next));
    Empty(Grammar.StringText(ChunksOf(members[0].key, 0), [COLON] + Grammar.NodeText(node, next)));
  }

  // ----- What the tree is

  /** What is said of the tree of a value. */
  ghost predicate IsStrict(ns: Numbers, v: Json)
    requires Coherent(ns)
  {
    && Grammar.NodeOk(true, NodeOf(ns, v)) && Grammar.NodeOk(false, NodeOf(ns, v))
    && Grammar.Depth(NodeOf(ns, v)) == Nesting(v)
  }

  lemma {:induction false} LeafIsStrict(ns: Numbers, v: Json)
    requires Coherent(ns) && !v.Array? && !v.Object?
    ensures IsStrict(ns, v)
  {
    if v.String? {
      StringIsQuoted(v.text, []);
    }
  }

  lemma {:induction false} ArrayIsStrict(ns: Numbers, items: seq<Json>)
    requires Coherent(ns)
    requires items != [] ==>
      && Grammar.ItemsOk(true, ItemsOf(ns, items)) && Grammar.ItemsOk(false, ItemsOf(ns, items))
      && Grammar.ItemsDepth(ItemsOf(ns, items)) == ItemsNesting(items)
    ensures IsStrict(ns, Array(items))
  {
  }

  lemma {:induction false} ObjectIsStrict(ns: Numbers, members: seq<Entry<Json>>)
    requires Coherent(ns)
    requires Written(members) != [] ==>
      && Grammar.MembersOk(true, MembersOf(ns, Written(members)))
      && Grammar.MembersOk(false, MembersOf(ns, Written(members)))
      && Grammar.MembersDepth(MembersOf(ns, Written(members))) == MembersNesting(Written(members))
    ensures IsStrict(ns, Object(members))
  {
  }

  lemma {:induction false} NodeIsStrict(ns: Numbers, v: Json)
    requires Coherent(ns)
    ensures IsStrict(ns, v)
    decreases Size(v), 0
  {
    match v
    case Array(items) =>
      if items != [] {
        ItemsAreStrict(ns, items);
      }
      ArrayIsStrict(ns, items);
    case Object(members) =>
      if Written(members) != [] {
        MembersAreStrict(ns, Written(members));
      }
      ObjectIsStrict(ns, members);
    case _ => LeafIsStrict(ns, v);
  }

  lemma {:induction false} ItemsAreStrict(ns: Numbers, items: seq<Json>)
    requires Coherent(ns) && items != []
    ensures Grammar.ItemsOk(true, ItemsOf(ns, items)) && Grammar.ItemsOk(false, ItemsOf(ns, items))
    ensures Grammar.ItemsDepth(ItemsOf(ns, items)) == ItemsNesting(items)
    decreases ItemsSize(items), 1
  {
    NodeIsStrict(ns, items[0]);
    if |items| > 1 {
      ItemsAreStrict(ns, items[1..]);
    } else {
      assert items[1..] == [];
    }
  }

  lemma {:induction false} MembersAreStrict(ns: Numbers, members: seq<Entry<Json>>)
    requires Coherent(ns) && members != []
    ensures Grammar.MembersOk(true, MembersOf(ns, members)) && Grammar.MembersOk(false, MembersOf(ns, members))
    ensures Grammar.MembersDepth(MembersOf(ns, members)) == MembersNesting(members)
    decreases MembersSize(members), 1
  {
    StringIsQuoted(members[0].key, []);
    NodeIsStrict(ns, members[0].value);
    if |members| > 1 {
      MembersAreStrict(ns, members[1..]);
    } else {
      assert members[1..] == [];
    }
  }

  // ----- What the tree denotes

  lemma {:induction false} PutNew<V>(members: seq<Entry<V>>, key: Text, value: V)
    requires forall i :: 0 <= i < |members| ==> members[i].key != key
    ensures Put(members, key, value) == members + [Entry(key, value)]
  {
    if members != [] {
      PutNew(members[1..], key, value);
    }
  }

  lemma {:induction false} PresentKeepsDistinct(members: seq<Entry<Json>>)
    requires DistinctKeys(members)
    ensures DistinctKeys(Present(members))
  {
    if members != [] {
      PresentKeepsDistinct(members[1..]);
      var rest := Present(members[1..]);
      forall i | 0 <= i < |rest|
        ensures rest[i].key != members[0].key
      {
        assert rest[i] in members[1..];
      }
    }
  }

  lemma {:induction false} WrittenIsKeyed(members: seq<Entry<Json>>)
    requires Keyed(Object(members))
    ensures DistinctKeys(Written(members))
    ensures forall i :: 0 <= i < |Written(members)| ==> Keyed(Written(members)[i].value)
  {
    var ordered := Ordered(members);
    OrderedKeepsDistinct(members);
    OrderedIsJavaScriptOrder(members);
    PresentKeepsDistinct(ordered);
    forall i | 0 <= i < |Written(members)|
      ensures Keyed(Written(members)[i].value)
    {
      var e := Written(members)[i];
      assert e in ordered;
      assert e in multiset(members);
    }
  }

  lemma {:induction false} NodeDenotes(ns: Numbers, v: Json)
    requires Coherent(ns) && Keyed(v) && Grammar.NodeOk(false, NodeOf(ns, v))
    ensures Grammar.NodeValue(ns.num, NodeOf(ns, v)) == Normal(ns, v)
    decreases Size(v), 0
  {
    match v
    case String(text) => StringIsQuoted(text, []);
    case Array(items) =>
      if items != [] {
        ItemsDenote(ns, items);
      }
    case Object(members) =>
      if Written(members) != [] {
        WrittenIsKeyed(members);
        MembersDenote(ns, [], Written(members));
        assert [] + NormalMembers(ns, Written(members)) == NormalMembers(ns, Written(members));
      }
    case _ =>
  }

  lemma {:induction false} ItemsDenote(ns: Numbers, items: seq<Json>)
    requires Coherent(ns) && items != [] && Grammar.ItemsOk(false, ItemsOf(ns, items))
    requires forall i :: 0 <= i < |items| ==> Keyed(items[i])
    ensures Grammar.ItemsValue(ns.num, ItemsOf(ns, items)) == NormalItems(ns, items)
    decreases ItemsSize(items), 1
  {
    NodeDenotes(ns, items[0]);
    if |items| > 1 {
      ItemsDenote(ns, items[1..]);
    } else {
      assert items[1..] == [];
    }
  }

  /** No key of `before` is among the members' keys. */
  predicate Apart(before: seq<Entry<Json>>, members: seq<Entry<Json>>) {
    forall i, j :: 0 <= i < |before| && 0 <= j < |members| ==> before[i].key != members[j].key
  }

  lemma {:induction false} ApartStep(before: seq<Entry<Json>>, members: seq<Entry<Json>>, value: Json)
    requires members != [] && Apart(before, members) && DistinctKeys(members)
    ensures Put(before, members[0].key, value) == before + [Entry(members[0].key, value)]
    ensures Apart(before + [Entry(members[0].key, value)], members[1..]) && DistinctKeys(members[1..])
  {
    PutNew(before, members[0].key, value);
  }

  lemma {:induction false} MembersDenote(ns: Numbers, before: seq<Entry<Json>>, members: seq<Entry<Json>>)
    requires Coherent(ns) && members != [] && Grammar.MembersOk(false, MembersOf(ns, members))
    requires DistinctKeys(members) && forall i :: 0 <= i < |members| ==> Keyed(members[i].value)
    requires Apart(before, members)
    ensures Grammar.MembersValue(ns.num, before, MembersOf(ns, members)) == before + NormalMembers(ns, members)
    decreases MembersSize(members), 1
  {
    var e := members[0];
    var head := [Entry(e.key, Normal(ns, e.value))];
    StringIsQuoted(e.key, []);
    NodeDenotes(ns, e.value);
    ApartStep(before, members, Normal(ns, e.value));
    if |members| > 1 {
      MembersDenote(ns, before + head, members[1..]);
      Associate(before, head, NormalMembers(ns, members[1..]));
    } else {
      assert members[1..] == [] && NormalMembers(ns, members) == head;
    }
  }

  // ----- The theorems

  /** What is written is a text of RFC 8259, when its containers nest within the reader's limit. */
  lemma {:induction false} WrittenIsRfc(ns: Numbers, v: Json)
    requires Coherent(ns) && Nesting(v) <= MAX_DEPTH
    ensures Grammar.IsRfcText(WriteText(ns, v))
    ensures Grammar.IsTextOf(false, WriteText(ns, v), [], NodeOf(ns, v), [])
  {
    NodeIsText(ns, v, []);
    NodeIsStrict(ns, v);
    Empty(WriteText(ns, v));
    assert Grammar.IsTextOf(true, WriteText(ns, v), [], NodeOf(ns, v), []);
  }

  /** Reading what was written gives the value in its normal form, lone surrogates and all. */
  lemma {:induction false} RoundTrip(ns: Numbers, v: Json)
    requires Coherent(ns) && Keyed(v) && Nesting(v) <= MAX_DEPTH && !v.Undefined?
    ensures Stringified(ns, v).Some? && ParseText(ns.num, Stringified(ns, v).value) == Ok(Normal(ns, v), [])
  {
    WrittenIsRfc(ns, v);
    NodeDenotes(ns, v);
    Grammar.ParseAcceptsTrees(ns.num, WriteText(ns, v), [], NodeOf(ns, v), []);
  }

  lemma {:induction false} PresentInOrder(members: seq<Entry<Json>>)
    requires InOrder(members)
    ensures InOrder(Present(members))
  {
    if members != [] {
      PresentInOrder(members[1..]);
      var rest := Present(members[1..]);
      forall i | 0 <= i < |rest|
        ensures !Before(rest[i].key, members[0].key)
      {
        assert rest[i] in members[1..];
      }
    }
  }

  lemma {:induction false} NormalMembersAt(ns: Numbers, members: seq<Entry<Json>>)
    ensures |NormalMembers(ns, members)| == |members|
    ensures forall i :: 0 <= i < |members| ==>
      NormalMembers(ns, members)[i] == Entry(members[i].key, Normal(ns, members[i].value))
    decreases |members|
  {
    if members != [] {
      NormalMembersAt(ns, members[1..]);
    }
  }

  predicate NoUndefined(members: seq<Entry<Json>>) {
    forall i :: 0 <= i < |members| ==> !members[i].value.Undefined?
  }

  lemma {:induction false} NoneUndefined(members: seq<Entry<Json>>)
    requires NoUndefined(members)
    ensures Present(members) == members
  {
    if members != [] {
      NoneUndefined(members[1..]);
    }
  }

  lemma {:induction false} NormalStays(ns: Numbers, members: seq<Entry<Json>>)
    requires InOrder(members)
    ensures InOrder(NormalMembers(ns, members)) && NoUndefined(NormalMembers(ns, members))
  {
    NormalMembersAt(ns, members);
  }

  /** The members of a normal form are written as they stand. */
  lemma {:induction false} NormalIsWritten(ns: Numbers, members: seq<Entry<Json>>)
    ensures Written(NormalMembers(ns, Written(members))) == NormalMembers(ns, Written(members))
  {
    OrderedIsJavaScriptOrder(members);
    PresentInOrder(Ordered(members));
    NormalStays(ns, Written(members));
    InOrderIsWritten(NormalMembers(ns, Written(members)));
  }

  lemma {:induction false} InOrderIsWritten(members: seq<Entry<Json>>)
    requires InOrder(members) && NoUndefined(members)
    ensures Written(members) == members
  {
    OrderedFixed(members);
    NoneUndefined(members);
  }

  /** Writing the normal form gives the same text again. */
  lemma {:induction false} NormalWritesTheSame(ns: Numbers, v: Json)
    requires Coherent(ns)
    ensures WriteText(ns, Normal(ns, v)) == WriteText(ns, v)
    decreases Size(v), 0
  {
    match v
    case Array(items) => NormalItemsWriteTheSame(ns, true, items);
    case Object(members) =>
      NormalIsWritten(ns, members);
      NormalMembersWriteTheSame(ns, true, Written(members));
    case _ =>
  }

  lemma {:induction false} NormalItemsWriteTheSame(ns: Numbers, first: bool, items: seq<Json>)
    requires Coherent(ns)
    ensures ItemsText(ns, first, NormalItems(ns, items)) == ItemsText(ns, first, items)
    decreases ItemsSize(items), 1
  {
    if items != [] {
      NormalWritesTheSame(ns, items[0]);
      NormalItemsWriteTheSame(ns, false, items[1..]);
      assert NormalItems(ns, items)[1..] == NormalItems(ns, items[1..]);
    }
  }

  lemma {:induction false} NormalMembersWriteTheSame(ns: Numbers, first: bool, members: seq<Entry<Json>>)
    requires Coherent(ns)
    ensures MembersText(ns, first, NormalMembers(ns, members)) == MembersText(ns, first, members)
    decreases MembersSize(members), 1
  {
    if members != [] {
      NormalWritesTheSame(ns, members[0].value);
      NormalMembersWriteTheSame(ns, false, members[1..]);
      assert NormalMembers(ns, members)[1..] == NormalMembers(ns, members[1..]);
    }
  }

  /** Reading a written text and writing again is a fixed point. */
  lemma {:induction false} StringifyFixedPoint(ns: Numbers, v: Json)
    requires Coherent(ns) && Keyed(v) && Nesting(v) <= MAX_DEPTH && !v.Undefined?
    ensures var r := ParseText(ns.num, Stringified(ns, v).value);
      r.Ok? && Stringified(ns, r.value) == Stringified(ns, v)
  {
    RoundTrip(ns, v);
    NormalWritesTheSame(ns, v);
  }

  // ----- When the value itself comes back

  /** Nothing undefined, and every number finite and read back from its text (as negative zero is not). */
  predicate Plain(ns: Numbers, v: Json)
    decreases v, 0
  {
    match v
    case Undefined => false
    case Number(n) => ns.show(n) != NULL && ns.num(ns.show(n)) == n
    case Array(items) => forall i :: 0 <= i < |items| ==> Plain(ns, items[i])
    case Object(members) => forall i :: 0 <= i < |members| ==> Plain(ns, members[i].value)
    case _ => true
  }

  /** Every object lists its members in JavaScript order. */
  predicate Sorted(v: Json)
    decreases v, 0
  {
    match v
    case Array(items) => forall i :: 0 <= i < |items| ==> Sorted(items[i])
    case Object(members) => InOrder(members) && forall i :: 0 <= i < |members| ==> Sorted(members[i].value)
    case _ => true
  }

  /** The same value, whatever the order of members. */
  predicate Same(v: Json, w: Json)
    decreases v, 0
  {
    match v
    case Array(items) =>
      w.Array? && |w.items| == |items| && forall i :: 0 <= i < |items| ==> Same(items[i], w.items[i])
    case Object(members) =>
      w.Object? && |w.members| == |members| && forall i :: 0 <= i < |members| ==> Found(members[i], w.members)
    case _ => v == w
  }

  /** A member of the same key and value. */
  predicate Found(e: Entry<Json>, members: seq<Entry<Json>>)
    decreases e.value, 1
  {
    exists j :: 0 <= j < |members| && members[j].key == e.key && Same(e.value, members[j].value)
  }

  lemma {:induction false} NormalItemsAt(ns: Numbers, items: seq<Json>)
    ensures |NormalItems(ns, items)| == |items|
    ensures forall i :: 0 <= i < |items| ==> NormalItems(ns, items)[i] == Normal(ns, items[i])
    decreases |items|
  {
    if items != [] {
      NormalItemsAt(ns, items[1..]);
    }
  }

  lemma {:induction false} WrittenIsAll(ns: Numbers, members: seq<Entry<Json>>)
    requires Plain(ns, Object(members))
    ensures Written(members) == Ordered(members)
    ensures multiset(Written(members)) == multiset(members) && InOrder(Written(members))
  {
    OrderedIsJavaScriptOrder(members);
    forall i | 0 <= i < |Ordered(members)|
      ensures !Ordered(members)[i].value.Undefined?
    {
      assert Ordered(members)[i] in multiset(members);
    }
    NoneUndefined(Ordered(members));
  }

  /** The value comes back up to the order of members, and its members are in JavaScript order. */
  lemma {:induction false} PlainComesBack(ns: Numbers, v: Json)
    requires Plain(ns, v)
    ensures Same(v, Normal(ns, v)) && Sorted(Normal(ns, v))
    decreases v
  {
    match v
    case Array(items) =>
      NormalItemsAt(ns, items);
      forall i | 0 <= i < |items|
        ensures Same(items[i], Normal(ns, items[i])) && Sorted(Normal(ns, items[i]))
      {
        PlainComesBack(ns, items[i]);
      }
    case Object(members) =>
      forall i | 0 <= i < |members|
        ensures Same(members[i].value, Normal(ns, members[i].value)) && Sorted(Normal(ns, members[i].value))
      {
        PlainComesBack(ns, members[i].value);
      }
      MembersComeBack(ns, members);
    case _ =>
  }

  lemma {:induction false} MembersComeBack(ns: Numbers, members: seq<Entry<Json>>)
    requires Plain(ns, Object(members))
    requires forall i :: 0 <= i < |members| ==>
      Same(members[i].value, Normal(ns, members[i].value)) && Sorted(Normal(ns, members[i].value))
    ensures Same(Object(members), Normal(ns, Object(members))) && Sorted(Normal(ns, Object(members)))
  {
    var written := Written(members);
    WrittenIsAll(ns, members);
    SameLength(written, members);
    NormalStays(ns, written);
    NormalMembersAt(ns, written);
    forall i | 0 <= i < |members|
      ensures Found(members[i], NormalMembers(ns, written))
    {
      MemberComesBack(ns, members, written, i);
    }
    MembersSorted(ns, members, written);
  }

  lemma {:induction false} SameLength<T>(s: seq<T>, t: seq<T>)
    requires multiset(s) == multiset(t)
    ensures |s| == |t|
  {
    assert |s| == |multiset(s)| && |t| == |multiset(t)|;
  }

  lemma {:induction false} MembersSorted(ns: Numbers, members: seq<Entry<Json>>, written: seq<Entry<Json>>)
    requires multiset(written) == multiset(members)
    requires forall i :: 0 <= i < |members| ==> Sorted(Normal(ns, members[i].value))
    ensures var normal := NormalMembers(ns, written); forall j :: 0 <= j < |normal| ==> Sorted(normal[j].value)
  {
    NormalMembersAt(ns, written);
    forall j | 0 <= j < |written|
      ensures Sorted(Normal(ns, written[j].value))
    {
      assert written[j] in multiset(members);
    }
  }

  lemma {:induction false} MemberComesBack(ns: Numbers, members: seq<Entry<Json>>, written: seq<Entry<Json>>, i: nat)
    requires i < |members| && multiset(written) == multiset(members)
    requires Same(members[i].value, Normal(ns, members[i].value))
    ensures Found(members[i], NormalMembers(ns, written))
  {
    NormalMembersAt(ns, written);
    assert members[i] in multiset(written);
    var j :| 0 <= j < |written| && written[j] == members[i];
    assert NormalMembers(ns, written)[j].key == members[i].key;
  }

  /** A value whose members are already in JavaScript order comes back exactly. */
  lemma {:induction false} SortedComesBack(ns: Numbers, v: Json)
    requires Plain(ns, v) && Sorted(v)
    ensures Normal(ns, v) == v
    decreases v
  {
    match v
    case Array(items) =>
      NormalItemsAt(ns, items);
      forall i | 0 <= i < |items|
        ensures Normal(ns, items[i]) == items[i]
      {
        SortedComesBack(ns, items[i]);
      }
    case Object(members) =>
      WrittenIsAll(ns, members);
      OrderedFixed(members);
      NormalMembersAt(ns, members);
      forall i | 0 <= i < |members|
        ensures Normal(ns, members[i].value) == members[i].value
      {
        SortedComesBack(ns, members[i].value);
      }
      assert NormalMembers(ns, members) == members;
    case _ =>
  }

  // ----- The text is well-formed UTF-16

  lemma {:induction false} WellFormedJoins(a: Text, b: Text)
    requires WellFormed(a) && WellFormed(b)
    ensures WellFormed(a + b)
    decreases |a|
  {
    if a == [] {
      assert a + b == b;
    } else {
      var k := if IsHighSurrogate(a[0]) then 2 else 1;
      assert (a + b)[k..] == a[k..] + b;
      WellFormedJoins(a[k..], b);
    }
  }

  lemma {:induction false} PlainIsWellFormed(s: Text)
    requires forall i :: 0 <= i < |s| ==> !IsSurrogate(s[i])
    ensures WellFormed(s)
  {
    if s != [] {
      PlainIsWellFormed(s[1..]);
    }
  }

  /** Not between the halves of a pair. */
  predicate AtUnit(s: Text, i: nat)
    requires i <= |s|
  {
    !(0 < i < |s| && IsHighSurrogate(s[i - 1]) && IsLowSurrogate(s[i]))
  }

  lemma {:induction false} QuotedIsWellFormed(s: Text, i: nat)
    requires i <= |s| && AtUnit(s, i)
    ensures WellFormed(QuotedFrom(s, i))
    decreases |s| - i
  {
    if i < |s| {
      if IsHighSurrogate(s[i]) && i + 1 < |s| && IsLowSurrogate(s[i + 1]) {
        QuotedIsWellFormed(s, i + 2);
        QuotedPair(s, i);
        PairIsWellFormed(s[i], s[i + 1], QuotedFrom(s, i + 2));
      } else {
        QuotedIsWellFormed(s, i + 1);
        PlainIsWellFormed(QuotedUnit(s, i));
        WellFormedJoins(QuotedUnit(s, i), QuotedFrom(s, i + 1));
      }
    }
  }

  lemma {:induction false} QuotedPair(s: Text, i: nat)
    requires i + 1 < |s| && IsHighSurrogate(s[i]) && IsLowSurrogate(s[i + 1])
    ensures QuotedFrom(s, i) == [s[i]] + ([s[i + 1]] + QuotedFrom(s, i + 2))
  {
    assert QuotedUnit(s, i) == [s[i]] && QuotedUnit(s, i + 1) == [s[i + 1]];
  }

  lemma {:induction false} PairIsWellFormed(high: Unit, low: Unit, s: Text)
    requires IsHighSurrogate(high) && IsLowSurrogate(low) && WellFormed(s)
    ensures WellFormed([high] + ([low] + s))
  {
    assert ([high] + ([low] + s))[2..] == s;
  }

  lemma {:induction false} QuotedStringIsWellFormed(s: Text)
    ensures WellFormed(Quoted(s))
  {
    QuotedIsWellFormed(s, 0);
    PlainIsWellFormed([QUOTE]);
    WellFormedJoins(QuotedFrom(s, 0), [QUOTE]);
    WellFormedJoins([QUOTE], QuotedFrom(s, 0) + [QUOTE]);
  }

  lemma {:induction false} PartIsPlain(s: Text)
    requires FractionOk(s) || ExponentOk(s)
    ensures forall i :: 0 <= i < |s| ==> !IsSurrogate(s[i])
  {
    if s != [] {
      HeadTail(s);
      if |s| > 1 {
        HeadTail(s[1..]);
        assert s[1..][1..] == s[2..];
      }
    }
  }

  lemma {:induction false} NumeralIsWellFormed(s: Text)
    requires IsNumeral(s)
    ensures WellFormed(s)
  {
    var n := FindNumeral(s);
    PartIsPlain(n.fraction);
    PartIsPlain(n.exponent);
    assert n.exponent + [] == n.exponent;
    PlainIsWellFormed(s);
  }

  /** Lone surrogates are written as escapes, so the whole text is well-formed. */
  lemma {:induction false} WrittenIsWellFormed(ns: Numbers, v: Json)
    requires Coherent(ns)
    ensures WellFormed(WriteText(ns, v))
    decreases Size(v), 0
  {
    match v
    case Number(n) =>
      if ns.show(n) != NULL {
        NumeralIsWellFormed(ns.show(n));
      }
    case String(text) => QuotedStringIsWellFormed(text);
    case Array(items) =>
      ItemsAreWellFormed(ns, true, items);
      Enclosed(OPEN_BRACKET, ItemsText(ns, true, items), CLOSE_BRACKET);
    case Object(members) =>
      MembersAreWellFormed(ns, true, Written(members));
      Enclosed(OPEN_BRACE, MembersText(ns, true, Written(members)), CLOSE_BRACE);
    case _ =>
      PlainIsWellFormed(WriteText(ns, v));
  }

  lemma {:induction false} Enclosed(open: Unit, s: Text, close: Unit)
    requires WellFormed(s) && !IsSurrogate(open) && !IsSurrogate(close)
    ensures WellFormed([open] + (s + [close]))
  {
    PlainIsWellFormed([open]);
    PlainIsWellFormed([close]);
    WellFormedJoins(s, [close]);
    WellFormedJoins([open], s + [close]);
  }

  lemma {:induction false} ItemsAreWellFormed(ns: Numbers, first: bool, items: seq<Json>)
    requires Coherent(ns)
    ensures WellFormed(ItemsText(ns, first, items))
    decreases ItemsSize(items), 1
  {
    if items != [] {
      WrittenIsWellFormed(ns, items[0]);
      ItemsAreWellFormed(ns, false, items[1..]);
      PlainIsWellFormed(Separator(first));
      WellFormedJoins(WriteText(ns, items[0]), ItemsText(ns, false, items[1..]));
      WellFormedJoins(Separator(first), WriteText(ns, items[0]) + ItemsText(ns, false, items[1..]));
    }
  }

  lemma {:induction false} MembersAreWellFormed(ns: Numbers, first: bool, members: seq<Entry<Json>>)
    requires Coherent(ns)
    ensures WellFormed(MembersText(ns, first, members))
    decreases MembersSize(members), 1
  {
    if members != [] {
      var e := members[0];
      var value, more := WriteText(ns, e.value), MembersText(ns, false, members[1..]);
      WrittenIsWellFormed(ns, e.value);
      MembersAreWellFormed(ns, false, members[1..]);
      QuotedStringIsWellFormed(e.key);
      PlainIsWellFormed(Separator(first));
      PlainIsWellFormed([COLON]);
      WellFormedJoins(value, more);
      WellFormedJoins([COLON], value + more);
      WellFormedJoins(Quoted(e.key), [COLON] + (value + more));
      WellFormedJoins(Separator(first), Quoted(e.key) + ([COLON] + (value + more)));
    }
  }
}
