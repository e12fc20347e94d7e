/**
 JSON.stringify over the source's values: strings with lone surrogates escaped, and members in JavaScript's key order
 (ECMA-262 section 10.1.11.1: array indices ascending, then insertion order). Reading the text back gives the value with
 its members in that order, and writing that value gives the same text.
 */
module JsJson {
  import opened Utf16
  import opened Wrappers
  import opened Sequences
  import opened JsonText
  import JsonGrammar
  import Decimal

  // ----- Key order

  const MAX_UINT := 0xFFFF_FFFF

  /** The array index a key spells, if it spells one. */
  function ArrayIndex(key: Text): Option<nat> {
    match Decimal.TryParse(key, MAX_UINT)
    case None => None
    case Some(index) => if index != MAX_UINT && Decimal.Digits(index) == key then Some(index) else None
  }

  /** Whether `a` comes before `b` whatever the insertion order. */
  predicate Before(a: Text, b: Text) {
    match (ArrayIndex(a), ArrayIndex(b))
    case (Some(i), Some(j)) => i < j
    case (Some(_), None) => true
    case (None, _) => false
  }

  function Insert<V>(e: Entry<V>, sorted: seq<Entry<V>>): seq<Entry<V>> {
    if sorted == [] || !Before(sorted[0].key, e.key) then [e] + sorted else [sorted[0]] + Insert(e, sorted[1..])
  }

  /** OrderBy and ThenBy: a stable sort. */
  function Ordered<V>(entries: seq<Entry<V>>): seq<Entry<V>> {
    if entries == [] then [] else Insert(entries[0], Ordered(entries[1..]))
  }

  predicate InOrder<V>(entries: seq<Entry<V>>) {
    forall i, j :: 0 <= i < j < |entries| ==> !Before(entries[j].key, entries[i].key)
  }

  predicate DistinctKeys<V>(entries: seq<Entry<V>>) {
    forall i, j :: 0 <= i < j < |entries| ==> entries[i].key != entries[j].key
  }

  /** The entries whose keys are not array indices, in their order. */
  function Named<V>(entries: seq<Entry<V>>): seq<Entry<V>> {
    if entries == [] then []
    else (if ArrayIndex(entries[0].key).None? then [entries[0]] else []) + Named(entries[1..])
  }

  lemma {:induction false} InsertKeeps<V>(e: Entry<V>, sorted: seq<Entry<V>>)
    requires InOrder(sorted)
    ensures InOrder(Insert(e, sorted)) && multiset(Insert(e, sorted)) == multiset([e] + sorted)
    ensures Named(Insert(e, sorted)) == Named([e] + sorted)
  {
    if sorted == [] || !Before(sorted[0].key, e.key) {
      var r := [e] + sorted;
      forall i, j | 0 <= i < j < |r|
        ensures !Before(r[j].key, r[i].key)
      {
        if i == 0 && j > 1 {
          assert !Before(sorted[j - 1].key, sorted[0].key);
        }
      }
    } else {
      var rest := Insert(e, sorted[1..]);
      InsertKeeps(e, sorted[1..]);
      var r := [sorted[0]] + rest;
      assert sorted == [sorted[0]] + sorted[1..];
      assert multiset(rest) == multiset{e} + multiset(sorted[1..]);
      forall i, j | 0 <= i < j < |r|
        ensures !Before(r[j].key, r[i].key)
      {
        if i == 0 {
          assert rest[j - 1] in multiset(rest);
          assert rest[j - 1] == e || rest[j - 1] in sorted[1..];
        }
      }
      NamedSteps(e, sorted, rest);
    }
  }

  lemma {:induction false} NamedSteps<V>(e: Entry<V>, sorted: seq<Entry<V>>, rest: seq<Entry<V>>)
    requires sorted != [] && Before(sorted[0].key, e.key) && Named(rest) == Named([e] + sorted[1..])
    ensures Named([sorted[0]] + rest) == Named([e] + sorted)
  {
    assert ([sorted[0]] + rest)[1..] == rest;
    assert ([e] + sorted)[1..] == sorted && ([e] + sorted[1..])[1..] == sorted[1..];
  }

  /** The order is a permutation of the entries with array indices ascending first and the other keys, in their insertion
      order, after them. */
  lemma {:induction false} OrderedIsJavaScriptOrder<V>(entries: seq<Entry<V>>)
    ensures InOrder(Ordered(entries)) && multiset(Ordered(entries)) == multiset(entries)
    ensures Named(Ordered(entries)) == Named(entries)
  {
    if entries != [] {
      OrderedIsJavaScriptOrder(entries[1..]);
      InsertKeeps(entries[0], Ordered(entries[1..]));
      assert entries == [entries[0]] + entries[1..];
      assert ([entries[0]] + Ordered(entries[1..]))[1..] == Ordered(entries[1..]);
    }
  }

  /** The decimal digits spell `n`. */
  predicate IsDecimal(digits: Text, n: nat) {
    if |digits| == 0 then false
    else if |digits| == 1 then n < 10 && digits[0] == "0123456789"[n] as int
    else
      && digits[|digits| - 1] == "0123456789"[n % 10] as int
      && IsDecimal(digits[..|digits| - 1], n / 10)
  }

  /** The key is an array index: a number below the largest 32-bit one, without needless zeros. */
  predicate IsIndex(key: Text, n: nat) {
    n < 0xFFFF_FFFF && IsDecimal(key, n) && (|key| > 1 ==> key[0] != '0' as int)
  }

  lemma {:induction false} DecimalIsDigits(s: Text, n: nat)
    requires IsDecimal(s, n) && (|s| > 1 ==> s[0] != ZERO)
    ensures Decimal.Digits(n) == s
    ensures |s| > 1 ==> n >= 10
    decreases |s|
  {
    var k := |s| - 1;
    if k == 0 {
      assert s == [s[0]];
    } else {
      var front := s[..k];
      assert front[0] == s[0] && s == front + [s[k]];
      DecimalIsDigits(front, n / 10);
      if k == 1 {
        assert n / 10 != 0;
      }
    }
  }

  lemma {:induction false} DigitsAreDecimal(n: nat)
    ensures IsDecimal(Decimal.Digits(n), n) && (|Decimal.Digits(n)| > 1 ==> Decimal.Digits(n)[0] != ZERO)
    ensures n > 0 ==> Decimal.Digits(n)[0] != ZERO
  {
    if n >= 10 {
      var front := Decimal.Digits(n / 10);
      DigitsAreDecimal(n / 10);
      assert Decimal.Digits(n)[..|front|] == front;
    }
  }

  /** What a key spells. */
  lemma {:induction false} ArrayIndexIs(key: Text, n: nat)
    ensures ArrayIndex(key) == Some(n) <==> IsIndex(key, n)
  {
    DigitsAreDecimal(n);
    if IsIndex(key, n) {
      DecimalIsDigits(key, n);
      Decimal.ValueOfDigits(n);
      Decimal.NoNul(key);
    }
  }

  /** Members are written with the keys that are array indices first, ascending. */
  lemma {:induction false} IndicesComeFirst<V>(entries: seq<Entry<V>>, i: nat, j: nat, n: nat)
    requires i < j < |Ordered(entries)| && IsIndex(Ordered(entries)[j].key, n)
    ensures exists m: nat :: IsIndex(Ordered(entries)[i].key, m) && m <= n
  {
    var ordered := Ordered(entries);
    OrderedIsJavaScriptOrder(entries);
    ArrayIndexIs(ordered[j].key, n);
    assert !Before(ordered[j].key, ordered[i].key);
    var m := ArrayIndex(ordered[i].key).value;
    ArrayIndexIs(ordered[i].key, m);
  }

  /** And the others as they were inserted. */
  lemma {:induction false} NamedAreOthers<V>(entries: seq<Entry<V>>)
    ensures forall e :: e in Named(entries) <==> e in entries && forall n: nat :: !IsIndex(e.key, n)
  {
    if entries != [] {
      NamedAreOthers(entries[1..]);
      assert entries == [entries[0]] + entries[1..];
      var key := entries[0].key;
      forall n: nat
        ensures IsIndex(key, n) <==> ArrayIndex(key) == Some(n)
      {
        ArrayIndexIs(key, n);
      }
      if ArrayIndex(key).Some? {
        assert IsIndex(key, ArrayIndex(key).value);
      }
    }
  }

  /** Entries in order stay as they are. */
  lemma {:induction false} OrderedFixed<V>(entries: seq<Entry<V>>)
    requires InOrder(entries)
    ensures Ordered(entries) == entries
  {
    if entries != [] {
      OrderedFixed(entries[1..]);
      assert 1 < |entries| ==> !Before(entries[1].key, entries[0].key);
    }
  }

  lemma {:induction false} OrderedKeepsDistinct<V>(entries: seq<Entry<V>>)
    requires DistinctKeys(entries)
    ensures DistinctKeys(Ordered(entries))
  {
    if entries != [] {
      var rest := Ordered(entries[1..]);
      OrderedKeepsDistinct(entries[1..]);
      OrderedIsJavaScriptOrder(entries[1..]);
      forall i | 0 <= i < |rest|
        ensures rest[i].key != entries[0].key
      {
        assert rest[i] in multiset(rest);
        assert rest[i] in entries[1..];
      }
      InsertKeepsDistinct(entries[0], rest);
    }
  }

  lemma {:induction false} InsertKeepsDistinct<V>(e: Entry<V>, sorted: seq<Entry<V>>)
    requires DistinctKeys(sorted) && forall i :: 0 <= i < |sorted| ==> sorted[i].key != e.key
    ensures DistinctKeys(Insert(e, sorted))
    ensures forall x :: x in Insert(e, sorted) ==> x == e || x in sorted
  {
    if sorted != [] && Before(sorted[0].key, e.key) {
      InsertKeepsDistinct(e, sorted[1..]);
      assert forall x :: x in Insert(e, sorted[1..]) ==> x.key != sorted[0].key;
    }
  }

  // ----- Strings

  /** A surrogate unit that is not half of a pair. */
  predicate IsLone(s: Text, i: nat)
    requires i < |s|
  {
    && IsSurrogate(s[i])
    && !(IsHighSurrogate(s[i]) && i + 1 < |s| && IsLowSurrogate(s[i + 1]))
    && !(IsLowSurrogate(s[i]) && i > 0 && IsHighSurrogate(s[i - 1]))
  }

  function HexDigit(n: nat): (u: Unit)
    requires n < 16
    ensures IsHex(u) && HexValue(u) == n
  {
    if n < 10 then ZERO + n else 0x61 + n - 10
  }

  /** ToString("x4"). */
  function HexText(u: Unit): Text {
    [HexDigit(u / 4096), HexDigit(u / 256 % 16), HexDigit(u / 16 % 16), HexDigit(u % 16)]
  }

  /** The letter that escapes a unit in two units, if one does. */
  function ShortEscape(u: Unit): Option<Unit> {
    if u == QUOTE || u == BACKSLASH then Some(u)
    else if u == 0x08 then Some(0x62)
    else if u == 0x0C then Some(0x66)
    else if u == 0x0A then Some(0x6E)
    else if u == 0x0D then Some(0x72)
    else if u == 0x09 then Some(0x74)
    else None
  }

  function QuotedUnit(s: Text, i: nat): Text
    requires i < |s|
  {
    var u := s[i];
    match ShortEscape(u)
    case Some(letter) => [BACKSLASH, letter]
    case None => if u < SPACE || IsLone(s, i) then [BACKSLASH, 0x75] + HexText(u) else [u]
  }

  function QuotedFrom(s: Text, i: nat): Text
    requires i <= |s|
    decreases |s| - i
  {
    if i == |s| then [] else QuotedUnit(s, i) + QuotedFrom(s, i + 1)
  }

  function Quoted(s: Text): Text {
    [QUOTE] + (QuotedFrom(s, 0) + [QUOTE])
  }

  // ----- Values

  /** How numbers are read and written. */
  datatype Numbers = Numbers(num: Text -> Double, show: Double -> Text)

  predicate IsNumeral(s: Text) {
    NumberRest(s) == Some([])
  }

  /** A number prints as null when it is not finite, and otherwise as a numeral that stands for what it prints as. */
  ghost predicate Coherent(ns: Numbers) {
    forall n: Double :: ns.show(n) != NULL ==> IsNumeral(ns.show(n)) && ns.show(ns.num(ns.show(n))) == ns.show(n)
  }

  /** The nodes of a value. */
  function Size(v: Json): (n: nat)
    ensures n > 0
    decreases v, 0
  {
    match v
    case Array(items) => 1 + ItemsSize(items)
    case Object(members) => 1 + MembersSize(members)
    case _ => 1
  }

  function ItemsSize(items: seq<Json>): nat
    decreases items, 1
  {
    if items == [] then 0 else Size(items[0]) + ItemsSize(items[1..])
  }

  function MembersSize(members: seq<Entry<Json>>): nat
    decreases members, 1
  {
    if members == [] then 0 else 1 + Size(members[0].value) + MembersSize(members[1..])
  }

  lemma {:induction false} InsertSize(e: Entry<Json>, sorted: seq<Entry<Json>>)
    ensures MembersSize(Insert(e, sorted)) == 1 + Size(e.value) + MembersSize(sorted)
  {
    if sorted == [] || !Before(sorted[0].key, e.key) {
      assert ([e] + sorted)[1..] == sorted;
    } else {
      InsertSize(e, sorted[1..]);
      assert ([sorted[0]] + Insert(e, sorted[1..]))[1..] == Insert(e, sorted[1..]);
    }
  }

  lemma {:induction false} OrderedSize(members: seq<Entry<Json>>)
    ensures MembersSize(Ordered(members)) == MembersSize(members)
  {
    if members != [] {
      OrderedSize(members[1..]);
      InsertSize(members[0], Ordered(members[1..]));
    }
  }

  /** The members in JavaScript order without those that are undefined. */
  function Written(members: seq<Entry<Json>>): (kept: seq<Entry<Json>>)
    ensures MembersSize(kept) <= MembersSize(members)
  {
    OrderedSize(members);
    Present(Ordered(members))
  }

  function Present(members: seq<Entry<Json>>): (kept: seq<Entry<Json>>)
    ensures MembersSize(kept) <= MembersSize(members)
    ensures forall e :: e in kept ==> e in members && !e.value.Undefined?
  {
    if members == [] then []
    else if members[0].value.Undefined? then Present(members[1..])
    else
      assert ([members[0]] + Present(members[1..]))[1..] == Present(members[1..]);
      [members[0]] + Present(members[1..])
  }

  /** What Write appends. */
  function WriteText(ns: Numbers, v: Json): Text
    decreases Size(v), 0
  {
    match v
    case Null => NULL
    case Undefined => NULL
    case Bool(flag) => if flag then TRUE else FALSE
    case Number(n) => ns.show(n)
    case String(text) => Quoted(text)
    case Array(items) => [OPEN_BRACKET] + (ItemsText(ns, true, items) + [CLOSE_BRACKET])
    case Object(members) => [OPEN_BRACE] + (MembersText(ns, true, Written(members)) + [CLOSE_BRACE])
  }

  /** A comma stands before every item but the first. */
  function Separator(first: bool): Text {
    if first then [] else [COMMA]
  }

  function ItemsText(ns: Numbers, first: bool, items: seq<Json>): Text
    decreases ItemsSize(items), 1
  {
    if items == [] then [] else Separator(first) + (WriteText(ns, items[0]) + ItemsText(ns, false, items[1..]))
  }

  function MembersText(ns: Numbers, first: bool, members: seq<Entry<Json>>): Text
    decreases MembersSize(members), 1
  {
    if members == [] then []
    else
      var e := members[0];
      Separator(first) + (Quoted(e.key) + ([COLON] + (WriteText(ns, e.value) + MembersText(ns, false, members[1..]))))
  }

  // ----- The writer

  class StringBuilder {
    var text: Text

    constructor ()
      ensures text == []
    {
      text := [];
    }

    method Append(s: Text)
      modifies this
      ensures text == old(text) + s
    {
      text := text + s;
    }
  }

  method Quote(output: StringBuilder, value: Text)
    modifies output
    ensures output.text == old(output.text) + Quoted(value)
  {
    ghost var target := output.text + Quoted(value);
    Associate(output.text, [QUOTE], QuotedFrom(value, 0) + [QUOTE]);
    output.Append([QUOTE]);
    for index := 0 to |value|
      invariant output.text + (QuotedFrom(value, index) + [QUOTE]) == target
    {
      var u := value[index];
      ghost var more := QuotedFrom(value, index + 1) + [QUOTE];
      Associate(QuotedUnit(value, index), QuotedFrom(value, index + 1), [QUOTE]);
      Associate(output.text, QuotedUnit(value, index), more);
      if u == QUOTE { output.Append([BACKSLASH, QUOTE]); }
      else if u == BACKSLASH { output.Append([BACKSLASH, BACKSLASH]); }
      else if u == 0x08 { output.Append([BACKSLASH, 0x62]); }
      else if u == 0x0C { output.Append([BACKSLASH, 0x66]); }
      else if u == 0x0A { output.Append([BACKSLASH, 0x6E]); }
      else if u == 0x0D { output.Append([BACKSLASH, 0x72]); }
      else if u == 0x09 { output.Append([BACKSLASH, 0x74]); }
      else if || u < 32
              || (IsSurrogate(u)
                  && !(IsHighSurrogate(u) && index + 1 < |value| && IsLowSurrogate(value[index + 1]))
                  && !(IsLowSurrogate(u) && index > 0 && IsHighSurrogate(value[index - 1])))
      {
        output.Append([BACKSLASH, 0x75] + HexText(u));
      }
      else { output.Append([u]); }
    }
    assert QuotedFrom(value, |value|) + [QUOTE] == [QUOTE];
    output.Append([QUOTE]);
  }

  method Write(ns: Numbers, output: StringBuilder, v: Json)
    modifies output
    ensures output.text == old(output.text) + WriteText(ns, v)
    decreases Size(v), 0
  {
    match v
    case Null => output.Append(NULL);
    case Undefined => output.Append(NULL);
    case Bool(flag) => output.Append(if flag then TRUE else FALSE);
    case Number(n) => output.Append(ns.show(n));
    case String(text) => Quote(output, text);
    case Array(items) => WriteItems(ns, output, items);
    case Object(members) => WriteMembers(ns, output, members);
  }

  method WriteItems(ns: Numbers, output: StringBuilder, items: seq<Json>)
    modifies output
    ensures output.text == old(output.text) + WriteText(ns, Array(items))
    decreases ItemsSize(items), 1
  {
    ghost var target := output.text + WriteText(ns, Array(items));
    Associate(output.text, [OPEN_BRACKET], ItemsText(ns, true, items) + [CLOSE_BRACKET]);
    output.Append([OPEN_BRACKET]);
    var first := true;
    assert items[0..] == items;
    for i := 0 to |items|
      invariant output.text + (ItemsText(ns, first, items[i..]) + [CLOSE_BRACKET]) == target
      invariant ItemsSize(items[i..]) <= ItemsSize(items)
    {
      assert items[i..][1..] == items[i + 1..];
      WriteSeparator(output, first, WriteText(ns, items[i]), ItemsText(ns, false, items[i + 1..]), CLOSE_BRACKET);
      first := false;
      Associate(output.text, WriteText(ns, items[i]), ItemsText(ns, false, items[i + 1..]) + [CLOSE_BRACKET]);
      Write(ns, output, items[i]);
    }
    assert items[|items|..] == [];
    output.Append([CLOSE_BRACKET]);
  }

  /** if (!first) output.Append(',') before what is still to come. */
  method WriteSeparator(output: StringBuilder, first: bool, ghost part: Text, ghost more: Text, ghost close: Unit)
    modifies output
    ensures output.text == old(output.text) + Separator(first)
    ensures output.text + (part + (more + [close]))
         == old(output.text) + ((Separator(first) + (part + more)) + [close])
  {
    Associate(part, more, [close]);
    Associate(Separator(first), part + more, [close]);
    Associate(output.text, Separator(first), (part + more) + [close]);
    assert output.text + [] == output.text;
    if !first { output.Append([COMMA]); }
  }

  method WriteMembers(ns: Numbers, output: StringBuilder, members: seq<Entry<Json>>)
    modifies output
    ensures output.text == old(output.text) + WriteText(ns, Object(members))
    decreases MembersSize(members), 1
  {
    ghost var target := output.text + WriteText(ns, Object(members));
    Associate(output.text, [OPEN_BRACE], MembersText(ns, true, Written(members)) + [CLOSE_BRACE]);
    output.Append([OPEN_BRACE]);
    var first := true;
    var ordered := Ordered(members);
    OrderedSize(members);
    assert ordered[0..] == ordered;
    for i := 0 to |ordered|
      invariant output.text + (MembersText(ns, first, Present(ordered[i..])) + [CLOSE_BRACE]) == target
      invariant MembersSize(ordered[i..]) <= MembersSize(members)
    {
      var e := ordered[i];
      assert ordered[i..][1..] == ordered[i + 1..];
      if e.value.Undefined? { continue; }
      ghost var more := MembersText(ns, false, Present(ordered[i + 1..]));
      ghost var part := Quoted(e.key) + ([COLON] + WriteText(ns, e.value));
      MembersTextStep(ns, first, e, Present(ordered[i + 1..]));
      WriteSeparator(output, first, part, more, CLOSE_BRACE);
      first := false;
      Associate(output.text, part, more + [CLOSE_BRACE]);
      Associate(output.text, Quoted(e.key), [COLON] + WriteText(ns, e.value));
      Quote(output, e.key);
      Associate(output.text, [COLON], WriteText(ns, e.value));
      output.Append([COLON]);
      Write(ns, output, e.value);
    }
    assert ordered[|ordered|..] == [];
    output.Append([CLOSE_BRACE]);
  }

  lemma {:induction false} MembersTextStep(ns: Numbers, first: bool, e: Entry<Json>, rest: seq<Entry<Json>>)
    ensures MembersText(ns, first, [e] + rest)
         == Separator(first) + ((Quoted(e.key) + ([COLON] + WriteText(ns, e.value))) + MembersText(ns, false, rest))
  {
    var value, more := WriteText(ns, e.value), MembersText(ns, false, rest);
    assert ([e] + rest)[1..] == rest;
    Associate([COLON], value, more);
    Associate(Quoted(e.key), [COLON] + value, more);
  }

  /** JSON.stringify: nothing for undefined. */
  function Stringified(ns: Numbers, v: Json): Option<Text> {
    if v.Undefined? then None else Some(WriteText(ns, v))
  }

  method Stringify(ns: Numbers, v: Json) returns (text: Option<Text>)
    ensures text == Stringified(ns, v)
  {
    if v.Undefined? { return None; }
    var output := new StringBuilder();
    Write(ns, output, v);
    assert [] + WriteText(ns, v) == WriteText(ns, v);
    return Some(output.text);
  }

  /** What JSON keeps of a value: its members in JavaScript order, without undefined, and its numbers as they read back. */
  function Normal(ns: Numbers, v: Json): Json
    decreases Size(v), 0
  {
    match v
    case Undefined => Null
    case Number(n) => if ns.show(n) == NULL then Null else Number(ns.num(ns.show(n)))
    case Array(items) => Array(NormalItems(ns, items))
    case Object(members) => Object(NormalMembers(ns, Written(members)))
    case _ => v
  }

  function NormalItems(ns: Numbers, items: seq<Json>): seq<Json>
    decreases ItemsSize(items), 1
  {
    if items == [] then [] else [Normal(ns, items[0])] + NormalItems(ns, items[1..])
  }

  function NormalMembers(ns: Numbers, members: seq<Entry<Json>>): seq<Entry<Json>>
    decreases MembersSize(members), 1
  {
    if members == [] then []
    else [Entry(members[0].key, Normal(ns, members[0].value))] + NormalMembers(ns, members[1..])
  }

  /** How deep the written containers nest. */
  function Nesting(v: Json): nat
    decreases Size(v), 0
  {
    match v
    case Array(items) => 1 + ItemsNesting(items)
    case Object(members) => 1 + MembersNesting(Written(members))
    case _ => 0
  }

  function ItemsNesting(items: seq<Json>): nat
    decreases ItemsSize(items), 1
  {
    if items == [] then 0 else JsonGrammar.Max(Nesting(items[0]), ItemsNesting(items[1..]))
  }

  function MembersNesting(members: seq<Entry<Json>>): nat
    decreases MembersSize(members), 1
  {
    if members == [] then 0 else JsonGrammar.Max(Nesting(members[0].value), MembersNesting(members[1..]))
  }

  /** Every object in the value, at any depth, has each key once, as a dictionary does. */
  predicate Keyed(v: Json)
    decreases v, 0
  {
    match v
    case Array(items) => forall i :: 0 <= i < |items| ==> Keyed(items[i])
    case Object(members) => DistinctKeys(members) && forall i :: 0 <= i < |members| ==> Keyed(members[i].value)
    case _ => true
  }
}
