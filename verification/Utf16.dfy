/** UTF-16 text as the source's strings hold it: any sequence of 16-bit units, lone surrogates included. */
module Utf16 {
  type Unit = x: int | 0 <= x < 0x1_0000
  type Text = seq<Unit>

  const NUL: Unit := 0x00
  const TAB: Unit := 0x09
  const LF: Unit := 0x0A
  const CR: Unit := 0x0D
  const SPACE: Unit := 0x20
  const QUOTE: Unit := 0x22
  const PLUS: Unit := 0x2B
  const COMMA: Unit := 0x2C
  const MINUS: Unit := 0x2D
  const DOT: Unit := 0x2E
  const SLASH: Unit := 0x2F
  const ZERO: Unit := 0x30
  const NINE: Unit := 0x39
  const COLON: Unit := 0x3A
  const BACKSLASH: Unit := 0x5C

  /** The UTF-16 text of a literal. */
  function Units(s: string): Text
    requires forall i :: 0 <= i < |s| ==> s[i] as int < 0x1_0000
  {
    seq(|s|, i requires 0 <= i < |s| => s[i] as int)
  }

  predicate IsDigit(u: Unit) {
    ZERO <= u <= NINE
  }

  predicate IsHighSurrogate(u: Unit) {
    0xD800 <= u < 0xDC00
  }

  predicate IsLowSurrogate(u: Unit) {
    0xDC00 <= u < 0xE000
  }

  predicate IsSurrogate(u: Unit) {
    IsHighSurrogate(u) || IsLowSurrogate(u)
  }

  /** A text begins with a surrogate pair. */
  predicate StartsWithPair(s: Text) {
    |s| > 1 && IsHighSurrogate(s[0]) && IsLowSurrogate(s[1])
  }

  /** The code point of a surrogate pair. */
  function Pair(high: Unit, low: Unit): int {
    0x10000 + (high - 0xD800) * 0x400 + (low - 0xDC00)
  }

  /** Every surrogate is half of a pair. */
  predicate WellFormed(s: Text) {
    if s == [] then true
    else if IsHighSurrogate(s[0]) then |s| > 1 && IsLowSurrogate(s[1]) && WellFormed(s[2..])
    else !IsLowSurrogate(s[0]) && WellFormed(s[1..])
  }
}
