/**
 What the characters of JSON text mean, by the alphabets themselves: RFC 8259, sections 2, 3, 6 and 7, written with
 character literals, and the reader held against them.
 */
module JsonAlphabet {
  import opened Utf16
  import opened Wrappers
  import opened Sequences
  import opened JsonText
  import opened JsonNumber
  import opened JsonGrammar
  import ProviderJson
  import JsJson

  const LOWER := "0123456789abcdef"
  const UPPER := "0123456789ABCDEF"

  /** The letters of the one-letter escapes, and the units they stand for. */
  const LETTERS := "\"\\/bfnrt"
  const UNITS: Text := [0x22, 0x5C, 0x2F, 0x08, 0x0C, 0x0A, 0x0D, 0x09]

  /** The hexadecimal digit `u` stands for `v`. */
  predicate IsHexDigit(u: Unit, v: int) {
    0 <= v < 16 && (u == LOWER[v] as int || u == UPPER[v] as int)
  }

  /** The hexadecimal digits, each in either case, stand for `v`. */
  predicate IsNumeral(digits: Text, v: int) {
    if digits == [] then v == 0
    else IsHexDigit(digits[|digits| - 1], v % 16) && IsNumeral(digits[..|digits| - 1], v / 16)
  }

  /** A \u escape of `count` digits and NUL characters up to four. */
  predicate IsEscape(count: nat, element: Text, unit: Unit) {
    && 1 <= count <= 4 && |element| == 6
    && element[0] == '\\' as int && element[1] == 'u' as int
    && IsNumeral(element[2..2 + count], unit)
    && forall i :: 2 + count <= i < 6 ==> element[i] == 0
  }

  predicate IsLetterEscape(element: Text, unit: Unit) {
    && |element| == 2 && element[0] == '\\' as int
    && exists k :: 0 <= k < |LETTERS| && element[1] == LETTERS[k] as int && unit == UNITS[k]
  }

  predicate IsPlain(element: Text, unit: Unit) {
    element == [unit] && unit >= ' ' as int && unit != '"' as int && unit != '\\' as int
  }

  /** The element of a string spells the unit. RFC 8259 has the escapes of four digits alone. */
  predicate Spells(strict: bool, element: Text, unit: Unit) {
    || IsPlain(element, unit) || IsLetterEscape(element, unit)
    || IsEscape(4, element, unit)
    || (!strict && (IsEscape(3, element, unit) || IsEscape(2, element, unit) || IsEscape(1, element, unit)))
  }

  /** The elements of a string spell its units. */
  predicate SpellsAll(strict: bool, elements: seq<Text>, units: Text) {
    |elements| == |units| && forall i :: 0 <= i < |units| ==> Spells(strict, elements[i], units[i])
  }

  // ----- One digit, and four

  lemma {:induction false} DigitIsRead(u: Unit, v: int)
    ensures IsHexDigit(u, v) <==> IsHex(u) && HexValue(u) == v
  {
  }

  lemma {:induction false} NumeralOfOne(a: Unit, n: int)
    ensures IsNumeral([a], n) <==> IsHex(a) && n == HexValue(a)
  {
    DigitIsRead(a, n % 16);
    assert [a][..0] == [];
  }

  lemma {:induction false} NumeralExtends(digits: Text, d: Unit, n: int)
    ensures IsNumeral(digits + [d], n) <==> IsHex(d) && n % 16 == HexValue(d) && IsNumeral(digits, n / 16)
  {
    DigitIsRead(d, n % 16);
    assert (digits + [d])[..|digits|] == digits;
  }

  lemma {:induction false} NumeralOfTwo(a: Unit, b: Unit, n: int)
    ensures IsNumeral([a, b], n) <==> IsHex(a) && IsHex(b) && n == HexValue(a) * 16 + HexValue(b)
  {
    NumeralOfOne(a, n / 16);
    NumeralExtends([a], b, n);
    assert [a] + [b] == [a, b];
  }

  lemma {:induction false} NumeralOfThree(a: Unit, b: Unit, c: Unit, n: int)
    ensures IsNumeral([a, b, c], n) <==>
            IsHex(a) && IsHex(b) && IsHex(c) && n == HexValue(a) * 256 + HexValue(b) * 16 + HexValue(c)
  {
    NumeralOfTwo(a, b, n / 16);
    NumeralExtends([a, b], c, n);
    assert [a, b] + [c] == [a, b, c];
  }

  lemma {:induction false} NumeralOfFour(a: Unit, b: Unit, c: Unit, d: Unit, n: int)
    ensures IsNumeral([a, b, c, d], n) <==>
            && IsHex(a) && IsHex(b) && IsHex(c) && IsHex(d)
            && n == HexValue(a) * 4096 + HexValue(b) * 256 + HexValue(c) * 16 + HexValue(d)
  {
    NumeralOfThree(a, b, c, n / 16);
    NumeralExtends([a, b, c], d, n);
    assert [a, b, c] + [d] == [a, b, c, d];
  }

  /** The four units after \u stand for `n`: as four digits, or as fewer and NUL characters. */
  lemma {:induction false} HexUnitMeans(a: Unit, b: Unit, c: Unit, d: Unit, n: Unit)
    ensures HexUnit(a, b, c, d) == Some(n) <==>
            || IsNumeral([a, b, c, d], n)
            || (IsNumeral([a, b, c], n) && d == 0)
            || (IsNumeral([a, b], n) && c == 0 && d == 0)
            || (IsNumeral([a], n) && b == 0 && c == 0 && d == 0)
  {
    NumeralOfOne(a, n);
    NumeralOfTwo(a, b, n);
    NumeralOfThree(a, b, c, n);
    NumeralOfFour(a, b, c, d, n);
  }

  // ----- One element

  lemma {:induction false} EscapeIs(element: Text, n: Unit)
    requires |element| == 6 && element[0] == BACKSLASH && element[1] == 0x75
    ensures HexUnit(element[2], element[3], element[4], element[5]) == Some(n) <==>
            IsEscape(4, element, n) || IsEscape(3, element, n) || IsEscape(2, element, n) || IsEscape(1, element, n)
  {
    HexUnitMeans(element[2], element[3], element[4], element[5], n);
    assert element[2..6] == [element[2], element[3], element[4], element[5]];
    assert element[2..5] == [element[2], element[3], element[4]];
    assert element[2..4] == [element[2], element[3]];
    assert element[2..3] == [element[2]];
  }

  lemma {:induction false} LetterIs(letter: Unit, n: Unit)
    ensures Unescaped(letter) == Some(n) <==> IsLetterEscape([BACKSLASH, letter], n)
  {
    var s := [BACKSLASH, letter];
    if Unescaped(letter) == Some(n) {
      var k := if letter == 0x22 then 0 else if letter == 0x5C then 1 else if letter == 0x2F then 2
               else if letter == 0x62 then 3 else if letter == 0x66 then 4 else if letter == 0x6E then 5
               else if letter == 0x72 then 6 else 7;
      assert s[1] == LETTERS[k] as int && n == UNITS[k];
    }
  }

  /** The reader takes `element` off the front of a text as `n`. */
  ghost predicate IsTaken(element: Text, tail: Text, n: Unit) {
    var s := element + tail;
    s != [] && s[0] != QUOTE && NextUnit(s) == Some((n, |element|))
  }

  lemma {:induction false} TakesSix(element: Text, tail: Text, n: Unit)
    requires |element| == 6 && element[0] == BACKSLASH && element[1] == 0x75
    ensures IsTaken(element, tail, n) <==> HexUnit(element[2], element[3], element[4], element[5]) == Some(n)
  {
    var s := element + tail;
    assert forall i :: 0 <= i < 6 ==> s[i] == element[i];
  }

  /** An element in front of any text is read as `n` exactly when it spells `n`. */
  lemma {:induction false} ElementIsRead(element: Text, tail: Text, n: Unit)
    requires |element| in {1, 2, 6}
    ensures IsTaken(element, tail, n) <==> Spells(false, element, n)
  {
    var s := element + tail;
    assert s[0] == element[0];
    if |element| == 6 && element[0] == BACKSLASH && element[1] == 0x75 {
      TakesSix(element, tail, n);
      EscapeIs(element, n);
    } else if |element| == 2 && element[0] == BACKSLASH && element[1] != 0x75 {
      assert s[1] == element[1] && element == [BACKSLASH, element[1]];
      LetterIs(element[1], n);
    } else if |element| == 2 && element[0] == BACKSLASH {
      assert s[1] == element[1];
      assert forall k :: 0 <= k < |LETTERS| ==> LETTERS[k] != 'u';
    } else if |element| == 1 {
      assert element == [element[0]];
    } else if |element| > 1 {
      assert s[1] == element[1];
    }
  }

  // ----- Strings

  /** The text of a string after its opening quote, and then `rest`. */
  function Quoted(elements: seq<Text>, rest: Text): Text {
    Concat(elements) + (Units("\"") + rest)
  }

  lemma {:induction false} QuotedSplits(elements: seq<Text>, rest: Text)
    requires elements != []
    ensures Quoted(elements, rest) == elements[0] + Quoted(elements[1..], rest)
  {
    Associate(elements[0], Concat(elements[1..]), [QUOTE] + rest);
  }

  lemma {:induction false} StringStops(rest: Text)
    ensures StringBody([QUOTE] + rest) == Ok([], rest)
  {
    assert ([QUOTE] + rest)[1..] == rest;
  }

  lemma {:induction false} StringGoesOn(element: Text, tail: Text, n: Unit)
    requires IsTaken(element, tail, n)
    ensures StringBody(element + tail) == Prepend([n], StringBody(tail))
  {
    assert (element + tail)[|element|..] == tail;
  }

  lemma {:induction false} SpellingLength(strict: bool, element: Text, n: Unit)
    requires Spells(strict, element, n)
    ensures |element| in {1, 2, 6} && Spells(false, element, n)
  {
  }

  lemma {:induction false} SpelledElementIsRead(strict: bool, element: Text, tail: Text, n: Unit, more: Text, rest: Text)
    requires Spells(strict, element, n) && StringBody(tail) == Ok(more, rest)
    ensures StringBody(element + tail) == Ok([n] + more, rest)
  {
    SpellingLength(strict, element, n);
    ElementIsRead(element, tail, n);
    StringGoesOn(element, tail, n);
  }

  lemma {:induction false} SpellsTail(strict: bool, elements: seq<Text>, units: Text)
    requires SpellsAll(strict, elements, units) && units != []
    ensures SpellsAll(strict, elements[1..], units[1..]) && Spells(strict, elements[0], units[0])
    ensures [units[0]] + units[1..] == units
  {
  }

  /** A string whose elements spell some units is read as those units. */
  lemma {:induction false} SpelledStringIsRead(strict: bool, elements: seq<Text>, units: Text, rest: Text)
    requires SpellsAll(strict, elements, units)
    ensures StringBody(Quoted(elements, rest)) == Ok(units, rest)
    decreases |units|
  {
    if units == [] {
      assert Quoted(elements, rest) == [QUOTE] + rest;
      StringStops(rest);
    } else {
      SpellsTail(strict, elements, units);
      SpelledStringIsRead(strict, elements[1..], units[1..], rest);
      SpelledElementIsRead(strict, elements[0], Quoted(elements[1..], rest), units[0], units[1..], rest);
      QuotedSplits(elements, rest);
    }
  }

  lemma {:induction false} TakenFromFront(s: Text) returns (element: Text, n: Unit)
    requires s != [] && s[0] != QUOTE && NextUnit(s).Some?
    ensures |element| in {1, 2, 6} && |element| <= |s| && s == element + s[|element|..]
    ensures IsTaken(element, s[|element|..], n) && NextUnit(s) == Some((n, |element|))
  {
    var (unit, k) := NextUnit(s).value;
    element, n := s[..k], unit;
    assert s == element + s[k..];
  }

  /** Each string that is read consists of elements that spell its units. */
  lemma {:induction false} ReadStringIsSpelled(s: Text) returns (elements: seq<Text>)
    requires StringBody(s).Ok?
    ensures SpellsAll(false, elements, StringBody(s).value) && s == Quoted(elements, StringBody(s).rest)
    decreases |s|
  {
    if s[0] == QUOTE {
      elements := [];
      assert s == [QUOTE] + s[1..];
    } else {
      var element, n := TakenFromFront(s);
      var tail := s[|element|..];
      ElementIsRead(element, tail, n);
      StringGoesOn(element, tail, n);
      var more := ReadStringIsSpelled(tail);
      elements := [element] + more;
      QuotedSplits(elements, StringBody(s).rest);
      assert elements[1..] == more;
    }
  }

  /** A text is read as a string of the units exactly when elements that spell them stand before its closing quote. */
  lemma {:induction false} StringsAreSpellings(s: Text, units: Text, rest: Text)
    ensures StringBody(s) == Ok(units, rest) <==>
            exists elements :: SpellsAll(false, elements, units) && s == Quoted(elements, rest)
  {
    if StringBody(s) == Ok(units, rest) {
      var elements := ReadStringIsSpelled(s);
    }
    forall elements | SpellsAll(false, elements, units) && s == Quoted(elements, rest)
      ensures StringBody(s) == Ok(units, rest)
    {
      SpelledStringIsRead(false, elements, units, rest);
    }
  }

  // ----- The other terminals

  predicate IsOneOf(alphabet: string, u: Unit) {
    exists k :: 0 <= k < |alphabet| && u == alphabet[k] as int
  }

  predicate AllOf(alphabet: string, s: Text) {
    forall i :: 0 <= i < |s| ==> IsOneOf(alphabet, s[i])
  }

  const DIGITS := "0123456789"
  const SPACES := " \t\n\r"

  predicate IsDigits(s: Text) {
    s != [] && AllOf(DIGITS, s)
  }

  predicate IsInteger(s: Text) {
    IsDigits(s) && (s[0] == '0' as int ==> |s| == 1)
  }

  predicate IsFraction(s: Text) {
    s == [] || (s[0] == '.' as int && IsDigits(s[1..]))
  }

  predicate IsExponent(s: Text) {
    || s == []
    || (IsOneOf("eE", s[0]) && (IsDigits(s[1..]) || (1 < |s| && IsOneOf("+-", s[1]) && IsDigits(s[2..]))))
  }

  /** The parts make a number of RFC 8259, section 6. */
  predicate IsNumberOf(n: Numeral) {
    (n.minus == [] || n.minus == ['-' as int]) && IsInteger(n.integer) && IsFraction(n.fraction) && IsExponent(n.exponent)
  }

  lemma {:induction false} TerminalsAre(u: Unit)
    ensures IsOneOf(DIGITS, u) <==> IsDigit(u)
    ensures IsOneOf(SPACES, u) <==> IsSpace(u)
    ensures IsOneOf("eE", u) <==> IsExponentMark(u)
    ensures IsOneOf("+-", u) <==> u == PLUS || u == MINUS
  {
    if IsDigit(u) {
      assert u == DIGITS[u - ZERO] as int;
    }
    if IsSpace(u) {
      assert u == SPACES[if u == SPACE then 0 else if u == TAB then 1 else if u == LF then 2 else 3] as int;
    }
    if IsExponentMark(u) {
      assert u == "eE"[if u == 0x65 then 0 else 1] as int;
    }
    if u == PLUS || u == MINUS {
      assert u == "+-"[if u == PLUS then 0 else 1] as int;
    }
  }

  lemma {:induction false} DigitsAre(s: Text)
    ensures AllDigits(s) <==> IsDigits(s)
    ensures AllSpace(s) <==> AllOf(SPACES, s)
  {
    forall i | 0 <= i < |s|
      ensures IsDigit(s[i]) <==> IsOneOf(DIGITS, s[i])
      ensures IsSpace(s[i]) <==> IsOneOf(SPACES, s[i])
    {
      TerminalsAre(s[i]);
    }
  }

  lemma {:induction false} NumeralIsNumber(n: Numeral)
    ensures NumeralOk(n) <==> IsNumberOf(n)
  {
    DigitsAre(n.integer);
    if n.fraction != [] {
      DigitsAre(n.fraction[1..]);
    }
    if n.exponent != [] {
      TerminalsAre(n.exponent[0]);
      DigitsAre(n.exponent[1..]);
    }
    if |n.exponent| > 1 {
      TerminalsAre(n.exponent[1]);
      DigitsAre(n.exponent[2..]);
    }
  }

  // ----- Whole texts

  /** A text without its white space stands for a value that is no container. */
  ghost predicate IsScalarText(num: Text -> Double, body: Text, value: Json) {
    match value
    case Null => body == Units("null")
    case Bool(flag) => body == if flag then Units("true") else Units("false")
    case Number(number) => exists n :: IsNumberOf(n) && body == NumeralText(n, []) && number == num(body)
    case String(text) => exists elements :: SpellsAll(false, elements, text) && body == Units("\"") + Quoted(elements, [])
    case _ => false
  }

  lemma {:induction false} LiteralsAre()
    ensures Units("\"") == [QUOTE]
    ensures Units("null") == NULL && Units("true") == TRUE && Units("false") == FALSE
  {
  }

  lemma {:induction false} ScalarOfTree(num: Text -> Double, n: Node)
    requires NodeOk(false, n) && Depth(n) == 0
    ensures IsScalarText(num, NodeText(n, []), NodeValue(num, n))
  {
    LiteralsAre();
    match n {
      case NullNode => assert NULL + [] == NULL;
      case BoolNode(flag) => assert TRUE + [] == TRUE && FALSE + [] == FALSE;
      case NumberNode(numeral) => NumeralIsNumber(numeral);
      case StringNode(chunks) =>
        ReadsChunks(chunks, []);
        var elements := ReadStringIsSpelled(ChunksText(chunks, [QUOTE] + []));
    }
  }

  lemma {:induction false} ChunksThenTail(chunks: seq<Chunk>, tail: Text)
    ensures ChunksText(chunks, tail) == ChunksText(chunks, []) + tail
    decreases |chunks|
  {
    if chunks != [] {
      ChunksThenTail(chunks[1..], tail);
      Associate(ChunkText(chunks[0]), ChunksText(chunks[1..], []), tail);
    }
  }

  lemma {:induction false} StringThenTail(chunks: seq<Chunk>, tail: Text)
    ensures StringText(chunks, tail) == StringText(chunks, []) + tail
  {
    ChunksThenTail(chunks, [QUOTE] + tail);
    ChunksThenTail(chunks, [QUOTE] + []);
    assert [QUOTE] + [] == [QUOTE];
    Associate(ChunksText(chunks, []), [QUOTE], tail);
    Associate([QUOTE], ChunksText(chunks, [QUOTE]), tail);
  }

  lemma {:induction false} ScalarThenTail(n: Node, tail: Text)
    requires Depth(n) == 0
    ensures NodeText(n, tail) == NodeText(n, []) + tail
  {
    match n {
      case NullNode => assert NULL + [] == NULL;
      case BoolNode(flag) => assert TRUE + [] == TRUE && FALSE + [] == FALSE;
      case NumberNode(numeral) => NumeralThenTail(numeral, tail);
      case StringNode(chunks) => StringThenTail(chunks, tail);
    }
  }

  /** The number `n` is read before white space. */
  lemma {:induction false} NumberIsRead(num: Text -> Double, n: Numeral, after: Text)
    requires IsNumberOf(n) && AllSpace(after)
    ensures var body := NumeralText(n, []);
      body != [] && !IsSpace(body[0]) && body[0] != OPEN_BRACE && body[0] != OPEN_BRACKET
      && Scalar(num, body + after) == Ok(Number(num(body)), after)
  {
    NumeralIsNumber(n);
    NumeralStarts(n, []);
    assert after != [] ==> IsSpace(after[0]);
    ReadsNumber(num, n, after);
    NumeralThenTail(n, after);
  }

  lemma {:induction false} QuotedThen(elements: seq<Text>, after: Text)
    ensures ([QUOTE] + Quoted(elements, [])) + after == [QUOTE] + Quoted(elements, after)
  {
    LiteralsAre();
    assert [QUOTE] + [] == [QUOTE];
    Associate(Concat(elements), [QUOTE], after);
    Associate([QUOTE], Quoted(elements, []), after);
  }

  lemma {:induction false} ScalarIsString(num: Text -> Double, s: Text, units: Text, after: Text)
    requires StringBody(s) == Ok(units, after)
    ensures Scalar(num, [QUOTE] + s) == Ok(String(units), after)
  {
    assert ([QUOTE] + s)[1..] == s;
  }

  /** The string is read before any text. */
  lemma {:induction false} StringIsRead(num: Text -> Double, elements: seq<Text>, units: Text, after: Text)
    requires SpellsAll(false, elements, units)
    ensures var body := Units("\"") + Quoted(elements, []);
      body != [] && !IsSpace(body[0]) && body[0] != OPEN_BRACE && body[0] != OPEN_BRACKET
      && Scalar(num, body + after) == Ok(String(units), after)
  {
    LiteralsAre();
    SpelledStringIsRead(false, elements, units, after);
    QuotedThen(elements, after);
    ScalarIsString(num, Quoted(elements, after), units, after);
  }

  /** A word is read before any text. */
  lemma {:induction false} WordIsRead(num: Text -> Double, n: Node, after: Text)
    requires n.NullNode? || n.BoolNode?
    ensures var body := NodeText(n, []);
      body != [] && !IsSpace(body[0]) && body[0] != OPEN_BRACE && body[0] != OPEN_BRACKET
      && Scalar(num, body + after) == Ok(NodeValue(num, n), after)
  {
    ReadsWord(num, n, after);
    ScalarThenTail(n, after);
  }

  lemma {:induction false} ScalarIsRead(num: Text -> Double, body: Text, value: Json, after: Text)
    requires IsScalarText(num, body, value) && AllSpace(after)
    ensures body != [] && !IsSpace(body[0]) && body[0] != OPEN_BRACE && body[0] != OPEN_BRACKET
    ensures Scalar(num, body + after) == Ok(value, after)
  {
    LiteralsAre();
    match value {
      case Null =>
        assert NULL + [] == NULL;
        WordIsRead(num, NullNode, after);
      case Bool(flag) =>
        assert TRUE + [] == TRUE && FALSE + [] == FALSE;
        WordIsRead(num, BoolNode(flag), after);
      case Number(number) =>
        var n :| IsNumberOf(n) && body == NumeralText(n, []) && number == num(body);
        NumberIsRead(num, n, after);
      case String(text) =>
        var elements :| SpellsAll(false, elements, text) && body == Units("\"") + Quoted(elements, []);
        StringIsRead(num, elements, text, after);
    }
  }

  predicate IsContainer(value: Json) {
    value.Array? || value.Object?
  }

  /** `text` is `body` with white space around it. */
  predicate IsPadded(text: Text, before: Text, body: Text, after: Text) {
    AllOf(SPACES, before) && AllOf(SPACES, after) && text == before + (body + after)
  }

  lemma {:induction false} PaddedIsRead(num: Text -> Double, text: Text, before: Text, body: Text, after: Text, value: Json)
    requires IsPadded(text, before, body, after) && IsScalarText(num, body, value)
    ensures ParseText(num, text) == Ok(value, [])
  {
    DigitsAre(before);
    DigitsAre(after);
    ScalarIsRead(num, body, value, after);
    assert (body + after)[0] == body[0];
    SkipSpaces(before, body + after);
    SkipNothing(body + after);
    ValueIsScalar(num, text, 0);
    SkipSpaces(after, []);
    assert after + [] == after;
  }

  lemma {:induction false} ReadIsPadded(num: Text -> Double, text: Text, value: Json)
    returns (before: Text, body: Text, after: Text)
    requires ParseText(num, text) == Ok(value, []) && !IsContainer(value)
    ensures IsPadded(text, before, body, after) && IsScalarText(num, body, value)
  {
    var n;
    before, n, after := ParseFindsTree(num, text);
    body := NodeText(n, []);
    DigitsAre(before);
    DigitsAre(after);
    ScalarOfTree(num, n);
    ScalarThenTail(n, after);
  }

  /** A text is read as a value that is no container exactly when it is that value's text, by the alphabets, with white
      space around it. */
  lemma {:induction false} ScalarsAreRead(num: Text -> Double, text: Text, value: Json)
    requires !IsContainer(value)
    ensures ParseText(num, text) == Ok(value, []) <==>
            exists before, body, after :: IsPadded(text, before, body, after) && IsScalarText(num, body, value)
  {
    if ParseText(num, text) == Ok(value, []) {
      var before, body, after := ReadIsPadded(num, text, value);
    }
    forall before, body, after | IsPadded(text, before, body, after) && IsScalarText(num, body, value)
      ensures ParseText(num, text) == Ok(value, [])
    {
      PaddedIsRead(num, text, before, body, after, value);
    }
  }

  /** In particular every spelling of a unit by four hexadecimal digits, each letter in either case, is read as it. */
  lemma {:induction false} EscapesAreRead(num: Text -> Double, digits: Text, n: Unit)
    requires |digits| == 4 && IsNumeral(digits, n)
    ensures ParseText(num, Units("\"\\u") + digits + Units("\"")) == Ok(String([n]), [])
  {
    var element := Units("\\u") + digits;
    var text := Units("\"\\u") + digits + Units("\"");
    assert element[2..6] == digits;
    assert Concat([element]) == element + Concat([]) == element;
    assert SpellsAll(false, [element], [n]);
    var body := Units("\"") + Quoted([element], []);
    assert body == text;
    assert IsPadded(text, [], body, []);
    PaddedIsRead(num, text, [], body, [], String([n]));
  }

  /** The punctuation of containers. */
  lemma {:induction false} ContainersAreWritten(items: Items, members: Members, space: Text, tail: Text)
    ensures NodeText(EmptyArray(space), []) == Units("[") + (space + Units("]"))
    ensures NodeText(EmptyObject(space), []) == Units("{") + (space + Units("}"))
    ensures NodeText(ArrayNode(items), []) == Units("[") + ItemsText(items, Units("]"))
    ensures NodeText(ObjectNode(members), []) == Units("{") + MembersText(members, Units("}"))
    ensures items.NextItem? ==>
      ItemsText(items, tail) == items.before + NodeText(items.node, items.after + (Units(",") + ItemsText(items.rest, tail)))
    ensures members.NextMember? ==>
      MembersText(members, tail) == members.before + StringText(members.key, members.middle + (Units(":") + (members.space
        + NodeText(members.node, members.after + (Units(",") + MembersText(members.rest, tail))))))
    ensures members.LastMember? ==>
      MembersText(members, tail) == members.before + StringText(members.key, members.middle + (Units(":") + (members.space
        + NodeText(members.node, members.after + tail))))
  {
    assert Units(",") == [COMMA] && Units(":") == [COLON];
    assert Units("[") == [OPEN_BRACKET] && Units("]") == [CLOSE_BRACKET] + [];
    assert Units("{") == [OPEN_BRACE] && Units("}") == [CLOSE_BRACE] + [];
  }

  /** So many opening brackets. */
  function Brackets(n: nat): Text {
    if n == 0 then [] else Units("[") + Brackets(n - 1)
  }

  lemma {:induction false} BracketsBegin(n: nat, rest: Text)
    requires n > 0
    ensures var s := Brackets(n) + rest; s != [] && s[0] == OPEN_BRACKET && s[1..] == Brackets(n - 1) + rest && Skip(s) == s
  {
    assert Units("[") == [OPEN_BRACKET];
    SkipNothing(Brackets(n) + rest);
  }

  lemma {:induction false} FullIsRefused(num: Text -> Double, s: Text)
    requires s != [] && Skip(s) == s && s[0] == OPEN_BRACKET
    ensures Value(num, s, 256) == Bad(TooDeep)
  {
  }

  lemma {:induction false} ItemIsRefused(num: Text -> Double, s: Text, depth: nat)
    requires Value(num, s, depth) == Bad(TooDeep)
    ensures ItemsFrom(num, s, depth, []) == Bad(TooDeep)
  {
  }

  lemma {:induction false} DeepIsRefused(num: Text -> Double, depth: nat, n: nat, rest: Text)
    requires depth <= 256 && n == 257 - depth
    ensures Value(num, Brackets(n) + rest, depth) == Bad(TooDeep)
    decreases n
  {
    var s, more := Brackets(n) + rest, Brackets(n - 1) + rest;
    BracketsBegin(n, rest);
    if depth == 256 {
      FullIsRefused(num, s);
    } else {
      BracketsBegin(n - 1, rest);
      DeepIsRefused(num, depth + 1, n - 1, rest);
      ItemIsRefused(num, more, depth + 1);
      assert s == [OPEN_BRACKET] + more;
      ReadsArray(num, s, more, depth);
    }
  }

  /** A text that opens more than 256 containers before anything else is refused as too deep, whatever follows. */
  lemma {:induction false} TooDeepIsRefused(num: Text -> Double, rest: Text)
    ensures ParseText(num, Brackets(257) + rest) == Bad(TooDeep)
  {
    DeepIsRefused(num, 0, 257, rest);
  }

  // ----- What is written

  predicate IsHigh(s: Text, i: int) {
    0 <= i < |s| && 0xD800 <= s[i] <= 0xDBFF
  }

  predicate IsLow(s: Text, i: int) {
    0 <= i < |s| && 0xDC00 <= s[i] <= 0xDFFF
  }

  /** A surrogate with the other half beside it. */
  predicate IsPaired(s: Text, i: nat) {
    (IsHigh(s, i) && IsLow(s, i + 1)) || (IsLow(s, i) && IsHigh(s, i - 1))
  }

  /** A control unit or a surrogate without its other half. */
  predicate MustEscape(s: Text, i: nat)
    requires i < |s|
  {
    s[i] < 0x20 || ((IsHigh(s, i) || IsLow(s, i)) && !IsPaired(s, i))
  }

  /** The escape of four hexadecimal digits, letters in lower case. */
  function LongEscape(u: Unit): Text {
    Units("\\u") + [LOWER[u / 4096] as int, LOWER[u / 256 % 16] as int, LOWER[u / 16 % 16] as int, LOWER[u % 16] as int]
  }

  /** How a unit of a string is written: by the letter that escapes it, but for the slash, which none does; by four digits
      when it must be escaped; as itself otherwise. */
  ghost predicate IsWritten(element: Text, s: Text, i: nat)
    requires i < |s|
  {
    && (forall k :: 0 <= k < |LETTERS| && s[i] == UNITS[k] && k != 2 ==> element == [0x5C, LETTERS[k] as int])
    && ((forall k :: 0 <= k < |LETTERS| && k != 2 ==> s[i] != UNITS[k]) ==>
          element == if MustEscape(s, i) then LongEscape(s[i]) else [s[i]])
  }

  lemma {:induction false} LongEscapeIs(u: Unit)
    ensures [BACKSLASH, 0x75] + JsJson.HexText(u) == LongEscape(u)
  {
    assert forall n :: 0 <= n < 16 ==> JsJson.HexDigit(n) == LOWER[n] as int;
  }

  lemma {:induction false} ShortEscapeIs(u: Unit)
    ensures JsJson.ShortEscape(u).None? <==> forall k :: 0 <= k < |LETTERS| && k != 2 ==> u != UNITS[k]
    ensures forall k :: 0 <= k < |LETTERS| && u == UNITS[k] && k != 2 ==> JsJson.ShortEscape(u) == Some(LETTERS[k] as int)
  {
    if JsJson.ShortEscape(u).Some? {
      var k := if u == 0x22 then 0 else if u == 0x5C then 1 else if u == 0x08 then 3 else if u == 0x0C then 4
               else if u == 0x0A then 5 else if u == 0x0D then 6 else 7;
      assert u == UNITS[k];
    }
  }

  lemma {:induction false} UnitIsWritten(s: Text, i: nat)
    requires i < |s|
    ensures IsWritten(JsJson.QuotedUnit(s, i), s, i)
  {
    ShortEscapeIs(s[i]);
    LongEscapeIs(s[i]);
  }

  /** The units of a string from `i`, as they are written. */
  function Elements(s: Text, i: nat): (elements: seq<Text>)
    requires i <= |s|
    ensures |elements| == |s| - i
    ensures forall k :: 0 <= k < |elements| ==> elements[k] == JsJson.QuotedUnit(s, i + k)
    decreases |s| - i
  {
    if i == |s| then [] else [JsJson.QuotedUnit(s, i)] + Elements(s, i + 1)
  }

  lemma {:induction false} QuotedIsElements(s: Text, i: nat)
    requires i <= |s|
    ensures JsJson.QuotedFrom(s, i) == Concat(Elements(s, i))
    decreases |s| - i
  {
    if i < |s| {
      var more := Elements(s, i + 1);
      QuotedIsElements(s, i + 1);
      assert ([JsJson.QuotedUnit(s, i)] + more)[1..] == more;
    }
  }

  /** A written string is its units between quotes, each written so. */
  lemma {:induction false} StringIsWritten(s: Text)
    ensures JsJson.Quoted(s) == Units("\"") + (Concat(Elements(s, 0)) + Units("\""))
    ensures forall i :: 0 <= i < |s| ==> IsWritten(Elements(s, 0)[i], s, i)
  {
    LiteralsAre();
    QuotedIsElements(s, 0);
    forall i | 0 <= i < |s|
      ensures IsWritten(Elements(s, 0)[i], s, i)
    {
      UnitIsWritten(s, i);
    }
  }
}
