/** Values, and the recursive reading of JSON text that the explicit-stack parser refines. */
module JsonText {
  import opened Utf16
  import opened Wrappers

  const MAX_DEPTH := 256

  const OPEN_BRACE: Unit := 0x7B
  const CLOSE_BRACE: Unit := 0x7D
  const OPEN_BRACKET: Unit := 0x5B
  const CLOSE_BRACKET: Unit := 0x5D

  const NULL: Text := [0x6E, 0x75, 0x6C, 0x6C]
  const TRUE: Text := [0x74, 0x72, 0x75, 0x65]
  const FALSE: Text := [0x66, 0x61, 0x6C, 0x73, 0x65]

  /** A 64-bit floating-point number, by its bits. */
  type Double = bits: int | 0 <= bits < 0x1_0000_0000_0000_0000

  datatype Entry<V> = Entry(key: Text, value: V)

  /** A JavaScript value as the source holds it. Objects list their members in insertion order, each key once. */
  datatype Json =
    | Null
    | Undefined
    | Bool(flag: bool)
    | Number(number: Double)
    | String(text: Text)
    | Array(items: seq<Json>)
    | Object(members: seq<Entry<Json>>)

  datatype Error = Invalid | TooDeep

  datatype Res<+T> = Ok(value: T, rest: Text) | Bad(error: Error)

  /** Dictionary assignment: a repeated key keeps its position and takes the new value. */
  function Put<V>(members: seq<Entry<V>>, key: Text, value: V): seq<Entry<V>> {
    if members == [] then [Entry(key, value)]
    else if members[0].key == key then [Entry(key, value)] + members[1..]
    else [members[0]] + Put(members[1..], key, value)
  }

  // ----- Lexical reading

  predicate IsSpace(u: Unit) {
    u == SPACE || u == TAB || u == LF || u == CR
  }

  function Skip(s: Text): (t: Text)
    ensures |t| <= |s|
    ensures t != [] ==> !IsSpace(t[0])
  {
    if s != [] && IsSpace(s[0]) then Skip(s[1..]) else s
  }

  predicate IsHex(u: Unit) {
    IsDigit(u) || 0x41 <= u <= 0x46 || 0x61 <= u <= 0x66
  }

  function HexValue(u: Unit): (v: nat)
    requires IsHex(u)
    ensures v < 16
  {
    if IsDigit(u) then u - ZERO else if u <= 0x46 then u - 0x41 + 10 else u - 0x61 + 10
  }

  /** ushort.TryParse with AllowHexSpecifier on four units. .NET passes over trailing NUL characters after at least one
      digit, so fewer than four digits are accepted when NULs fill the span. */
  function HexUnit(a: Unit, b: Unit, c: Unit, d: Unit): Option<Unit> {
    if !IsHex(a) then None
    else if IsHex(b) then
      if IsHex(c) then
        if IsHex(d) then Some(HexValue(a) * 4096 + HexValue(b) * 256 + HexValue(c) * 16 + HexValue(d))
        else if d == NUL then Some(HexValue(a) * 256 + HexValue(b) * 16 + HexValue(c)) else None
      else if c == NUL && d == NUL then Some(HexValue(a) * 16 + HexValue(b)) else None
    else if b == NUL && c == NUL && d == NUL then Some(HexValue(a)) else None
  }

  /** The unit a one-character escape stands for. */
  function Unescaped(u: Unit): Option<Unit> {
    if u == QUOTE || u == BACKSLASH || u == SLASH then Some(u)
    else if u == 0x62 then Some(0x08)
    else if u == 0x66 then Some(0x0C)
    else if u == 0x6E then Some(0x0A)
    else if u == 0x72 then Some(0x0D)
    else if u == 0x74 then Some(0x09)
    else None
  }

  function Prepend(prefix: Text, r: Res<Text>): Res<Text> {
    match r
    case Ok(value, rest) => Ok(prefix + value, rest)
    case Bad(_) => r
  }

  /** The unit that the next element of a string stands for, and that element's length. */
  function NextUnit(s: Text): (r: Option<(Unit, nat)>)
    requires s != []
    ensures r.Some? ==> 0 < r.value.1 <= |s|
  {
    if s[0] < SPACE then None
    else if s[0] != BACKSLASH then Some((s[0], 1))
    else if |s| < 2 then None
    else if s[1] == 0x75 then
      if |s| < 6 then None
      else match HexUnit(s[2], s[3], s[4], s[5])
        case None => None
        case Some(unit) => Some((unit, 6))
    else match Unescaped(s[1])
      case None => None
      case Some(unit) => Some((unit, 2))
  }

  /** The characters of a string after its opening quote, up to and past its closing quote. */
  function StringBody(s: Text): (r: Res<Text>)
    ensures r.Ok? ==> |r.rest| < |s|
    decreases |s|
  {
    if s == [] then Bad(Invalid)
    else if s[0] == QUOTE then Ok([], s[1..])
    else match NextUnit(s)
      case None => Bad(Invalid)
      case Some((unit, k)) => Prepend([unit], StringBody(s[k..]))
  }

  /** What follows the digits `s` starts with. */
  function SkipDigits(s: Text): (t: Text)
    ensures |t| <= |s|
    ensures t == [] || !IsDigit(t[0])
  {
    if s != [] && IsDigit(s[0]) then SkipDigits(s[1..]) else s
  }

  predicate StartsWithDigit(s: Text) {
    s != [] && IsDigit(s[0])
  }

  /** What follows the integer part of a number, its sign included. */
  function IntegerRest(s: Text): (rest: Option<Text>)
    ensures rest.Some? ==> |rest.value| < |s|
  {
    var u := if s != [] && s[0] == MINUS then s[1..] else s;
    if u == [] then None
    else if u[0] == ZERO then Some(u[1..])
    else if IsDigit(u[0]) then Some(SkipDigits(u[1..]))
    else None
  }

  function FractionRest(s: Text): (rest: Option<Text>)
    ensures rest.Some? ==> |rest.value| <= |s|
  {
    if s == [] || s[0] != DOT then Some(s)
    else if StartsWithDigit(s[1..]) then Some(SkipDigits(s[1..]))
    else None
  }

  predicate IsExponentMark(u: Unit) {
    u == 0x65 || u == 0x45
  }

  function SkipSign(s: Text): (t: Text)
    ensures |t| <= |s|
  {
    if s != [] && (s[0] == PLUS || s[0] == MINUS) then s[1..] else s
  }

  function ExponentRest(s: Text): (rest: Option<Text>)
    ensures rest.Some? ==> |rest.value| <= |s|
  {
    if s == [] || !IsExponentMark(s[0]) then Some(s)
    else if StartsWithDigit(SkipSign(s[1..])) then Some(SkipDigits(SkipSign(s[1..])))
    else None
  }

  /** What follows the fraction and the exponent. */
  function TailRest(s: Text): (rest: Option<Text>)
    ensures rest.Some? ==> |rest.value| <= |s|
  {
    match FractionRest(s)
    case None => None
    case Some(t) => ExponentRest(t)
  }

  /** What follows the number `s` starts with. */
  function NumberRest(s: Text): (rest: Option<Text>)
    ensures rest.Some? ==> |rest.value| < |s|
  {
    match IntegerRest(s)
    case None => None
    case Some(t) => TailRest(t)
  }

  // ----- The recursive reading

  function Key(s: Text): (r: Res<Text>)
    ensures r.Ok? ==> |r.rest| < |s|
  {
    var t := Skip(s);
    if t == [] || t[0] != QUOTE then Bad(Invalid)
    else match StringBody(t[1..])
      case Bad(e) => Bad(e)
      case Ok(key, rest) =>
        var u := Skip(rest);
        if u == [] || u[0] != COLON then Bad(Invalid) else Ok(key, u[1..])
  }

  function Word(s: Text, word: Text, value: Json): (r: Res<Json>)
    requires word != []
    ensures r.Ok? ==> |r.rest| < |s|
  {
    if word <= s then Ok(value, s[|word|..]) else Bad(Invalid)
  }

  function StringValue(s: Text): (r: Res<Json>)
    requires s != []
    ensures r.Ok? ==> |r.rest| < |s|
  {
    match StringBody(s[1..])
    case Bad(e) => Bad(e)
    case Ok(text, rest) => Ok(String(text), rest)
  }

  function NumberValue(num: Text -> Double, s: Text): (r: Res<Json>)
    ensures r.Ok? ==> |r.rest| < |s|
  {
    match NumberRest(s)
    case None => Bad(Invalid)
    case Some(rest) => Ok(Number(num(s[..|s| - |rest|])), rest)
  }

  /** A value that opens no container, from its first unit. */
  function Scalar(num: Text -> Double, s: Text): (r: Res<Json>)
    requires s != []
    ensures r.Ok? ==> |r.rest| < |s|
  {
    if s[0] == QUOTE then StringValue(s)
    else if s[0] == 0x74 then Word(s, TRUE, Bool(true))
    else if s[0] == 0x66 then Word(s, FALSE, Bool(false))
    else if s[0] == 0x6E then Word(s, NULL, Null)
    else if s[0] == MINUS || IsDigit(s[0]) then NumberValue(num, s)
    else Bad(Invalid)
  }

  /** A value with `depth` containers open around it. `num` reads a number's text. */
  function Value(num: Text -> Double, s: Text, depth: nat): (r: Res<Json>)
    ensures r.Ok? ==> |r.rest| < |s|
    decreases |s|, 2
  {
    var t := Skip(s);
    if t == [] then Bad(Invalid)
    else if t[0] == OPEN_BRACE then
      if depth >= MAX_DEPTH then Bad(TooDeep)
      else
        var u := Skip(t[1..]);
        if u != [] && u[0] == CLOSE_BRACE then Ok(Object([]), u[1..]) else MembersFrom(num, u, depth + 1, [])
    else if t[0] == OPEN_BRACKET then
      if depth >= MAX_DEPTH then Bad(TooDeep)
      else
        var u := Skip(t[1..]);
        if u != [] && u[0] == CLOSE_BRACKET then Ok(Array([]), u[1..]) else ItemsFrom(num, u, depth + 1, [])
    else Scalar(num, t)
  }

  /** The rest of an object from a key, after `members`. */
  function MembersFrom(num: Text -> Double, s: Text, depth: nat, members: seq<Entry<Json>>): (r: Res<Json>)
    ensures r.Ok? ==> |r.rest| < |s|
    decreases |s|, 3
  {
    match Key(s)
    case Bad(e) => Bad(e)
    case Ok(key, rest) =>
      match Value(num, rest, depth)
      case Bad(e) => Bad(e)
      case Ok(value, rest') => MembersRest(num, rest', depth, Put(members, key, value))
  }

  /** The rest of an object after a member. */
  function MembersRest(num: Text -> Double, s: Text, depth: nat, members: seq<Entry<Json>>): (r: Res<Json>)
    ensures r.Ok? ==> |r.rest| < |s|
    decreases |s|, 1
  {
    var t := Skip(s);
    if t == [] then Bad(Invalid)
    else if t[0] == CLOSE_BRACE then Ok(Object(members), t[1..])
    else if t[0] == COMMA then MembersFrom(num, t[1..], depth, members)
    else Bad(Invalid)
  }

  /** The rest of an array from an item, after `items`. */
  function ItemsFrom(num: Text -> Double, s: Text, depth: nat, items: seq<Json>): (r: Res<Json>)
    ensures r.Ok? ==> |r.rest| < |s|
    decreases |s|, 3
  {
    match Value(num, s, depth)
    case Bad(e) => Bad(e)
    case Ok(value, rest) => ItemsRest(num, rest, depth, items + [value])
  }

  /** The rest of an array after an item. */
  function ItemsRest(num: Text -> Double, s: Text, depth: nat, items: seq<Json>): (r: Res<Json>)
    ensures r.Ok? ==> |r.rest| < |s|
    decreases |s|, 1
  {
    var t := Skip(s);
    if t == [] then Bad(Invalid)
    else if t[0] == CLOSE_BRACKET then Ok(Array(items), t[1..])
    else if t[0] == COMMA then ItemsFrom(num, t[1..], depth, items)
    else Bad(Invalid)
  }

  /** A whole text: one value, with nothing but white space around it. */
  function Whole(r: Res<Json>): Res<Json> {
    match r
    case Bad(_) => r
    case Ok(value, rest) => if Skip(rest) == [] then Ok(value, []) else Bad(Invalid)
  }

  function ParseText(num: Text -> Double, text: Text): Res<Json> {
    Whole(Value(num, text, 0))
  }
}
