/** The number grammar of RFC 8259, section 6, and the reader's NumberRest: each finds the parts of the other. */
module JsonNumber {
  import opened Utf16
  import opened Wrappers
  import opened Sequences
  import opened JsonText

  /** The parts of a number; the fraction and the exponent are empty when absent. */
  datatype Numeral = Numeral(minus: Text, integer: Text, fraction: Text, exponent: Text)

  /** A number's text, and then `tail`. */
  function NumeralText(n: Numeral, tail: Text): Text {
    n.minus + (n.integer + (n.fraction + (n.exponent + tail)))
  }

  predicate AllDigits(s: Text) {
    s != [] && forall i :: 0 <= i < |s| ==> IsDigit(s[i])
  }

  predicate IntegerOk(s: Text) {
    AllDigits(s) && (s[0] == ZERO ==> |s| == 1)
  }

  predicate FractionOk(s: Text) {
    s == [] || (s[0] == DOT && AllDigits(s[1..]))
  }

  predicate ExponentOk(s: Text) {
    || s == []
    || (IsExponentMark(s[0]) && (AllDigits(s[1..]) || (1 < |s| && (s[1] == PLUS || s[1] == MINUS) && AllDigits(s[2..]))))
  }

  /** RFC 8259 section 6. */
  predicate NumeralOk(n: Numeral) {
    && (n.minus == [] || n.minus == [MINUS])
    && IntegerOk(n.integer) && FractionOk(n.fraction) && ExponentOk(n.exponent)
  }

  /** What may follow the parts of a number: no digit, no point, no exponent mark. */
  predicate EndsNumber(tail: Text) {
    tail == [] || !(IsDigit(tail[0]) || tail[0] == DOT || IsExponentMark(tail[0]))
  }

  lemma {:induction false} HeadTail(s: Text)
    requires s != []
    ensures s == [s[0]] + s[1..]
  {
  }

  // ----- The reader accepts every numeral

  lemma {:induction false} SkipsDigits(digits: Text, tail: Text)
    requires forall i :: 0 <= i < |digits| ==> IsDigit(digits[i])
    requires tail == [] || !IsDigit(tail[0])
    ensures SkipDigits(digits + tail) == tail
  {
    if digits == [] {
      assert digits + tail == tail;
    } else {
      assert (digits + tail)[1..] == digits[1..] + tail;
      SkipsDigits(digits[1..], tail);
    }
  }

  lemma {:induction false} ReadsExponent(x: Text, tail: Text)
    requires ExponentOk(x) && EndsNumber(tail)
    ensures ExponentRest(x + tail) == Some(tail)
  {
    if x == [] {
      assert x + tail == tail;
    } else {
      var from := if AllDigits(x[1..]) then 1 else 2;
      var s := x + tail;
      assert x[from] == x[from..][0];
      assert s[1] == x[1];
      assert s[1..][from - 1..] == x[from..] + tail;
      assert SkipSign(s[1..]) == x[from..] + tail;
      SkipsDigits(x[from..], tail);
    }
  }

  lemma {:induction false} ReadsFraction(f: Text, rest: Text)
    requires FractionOk(f) && (rest == [] || !(IsDigit(rest[0]) || rest[0] == DOT))
    ensures FractionRest(f + rest) == Some(rest)
  {
    if f == [] {
      assert f + rest == rest;
    } else {
      assert (f + rest)[1..] == f[1..] + rest;
      SkipsDigits(f[1..], rest);
    }
  }

  lemma {:induction false} ReadsInteger(minus: Text, integer: Text, rest: Text)
    requires minus == [] || minus == [MINUS]
    requires IntegerOk(integer) && (rest == [] || !IsDigit(rest[0]))
    ensures IntegerRest(minus + (integer + rest)) == Some(rest)
  {
    var s, u, more := minus + (integer + rest), integer + rest, integer[1..];
    assert (if s[0] == MINUS then s[1..] else s) == u;
    assert u[0] == integer[0] && u[1..] == more + rest;
    if integer[0] == ZERO {
      assert more == [] && more + rest == rest;
    } else {
      SkipsDigits(more, rest);
    }
  }

  lemma {:induction false} ReadsTail(fraction: Text, exponent: Text, tail: Text)
    requires FractionOk(fraction) && ExponentOk(exponent) && EndsNumber(tail)
    ensures TailRest(fraction + (exponent + tail)) == Some(tail)
    ensures fraction + (exponent + tail) == [] || !IsDigit((fraction + (exponent + tail))[0])
  {
    var x := exponent + tail;
    ReadsExponent(exponent, tail);
    assert x == [] || x[0] == if exponent == [] then tail[0] else exponent[0];
    ReadsFraction(fraction, x);
  }

  lemma {:induction false} ReadsNumeral(n: Numeral, tail: Text)
    requires NumeralOk(n) && EndsNumber(tail)
    ensures NumberRest(NumeralText(n, tail)) == Some(tail)
  {
    var f := n.fraction + (n.exponent + tail);
    ReadsTail(n.fraction, n.exponent, tail);
    ReadsInteger(n.minus, n.integer, f);
  }

  /** A numeral's text before `tail` is its own text. */
  lemma {:induction false} NumeralThenTail(n: Numeral, tail: Text)
    ensures NumeralText(n, tail) == NumeralText(n, []) + tail
  {
    assert n.exponent + [] == n.exponent;
    Associate(n.fraction, n.exponent, tail);
    Associate(n.integer, n.fraction + n.exponent, tail);
    Associate(n.minus, n.integer + (n.fraction + n.exponent), tail);
  }

  lemma {:induction false} TakeFirst(a: Text, b: Text)
    ensures (a + b)[..|a + b| - |b|] == a
  {
  }

  lemma {:induction false} NumeralStarts(n: Numeral, tail: Text)
    requires NumeralOk(n)
    ensures var s := NumeralText(n, tail); s != [] && (s[0] == MINUS || IsDigit(s[0]))
  {
  }

  lemma {:induction false} ScalarIsNumber(num: Text -> Double, s: Text, tail: Text)
    requires s != [] && (s[0] == MINUS || IsDigit(s[0])) && NumberRest(s) == Some(tail)
    ensures Scalar(num, s) == Ok(Number(num(s[..|s| - |tail|])), tail)
  {
  }

  lemma {:induction false} ReadsNumber(num: Text -> Double, n: Numeral, tail: Text)
    requires NumeralOk(n) && EndsNumber(tail)
    ensures NumeralText(n, tail) != []
    ensures Scalar(num, NumeralText(n, tail)) == Ok(Number(num(NumeralText(n, []))), tail)
  {
    NumeralStarts(n, tail);
    ReadsNumeral(n, tail);
    ScalarIsNumber(num, NumeralText(n, tail), tail);
    NumeralThenTail(n, tail);
    TakeFirst(NumeralText(n, []), tail);
  }

  // ----- Everything the reader accepts as a number is a numeral

  lemma {:induction false} DigitsThenRest(s: Text) returns (digits: Text)
    ensures s == digits + SkipDigits(s) && forall i :: 0 <= i < |digits| ==> IsDigit(digits[i])
    ensures StartsWithDigit(s) ==> digits != []
  {
    if s != [] && IsDigit(s[0]) {
      var more := DigitsThenRest(s[1..]);
      digits := [s[0]] + more;
    } else {
      digits := [];
    }
  }

  lemma {:induction false} FindInteger(s: Text) returns (minus: Text, integer: Text)
    requires IntegerRest(s).Some?
    ensures (minus == [] || minus == [MINUS]) && IntegerOk(integer)
    ensures s == minus + (integer + IntegerRest(s).value)
  {
    var u := if s[0] == MINUS then s[1..] else s;
    minus := if s[0] == MINUS then [MINUS] else [];
    if u[0] == ZERO {
      integer := [ZERO];
    } else {
      var digits := DigitsThenRest(u[1..]);
      integer := [u[0]] + digits;
    }
    assert u == integer + IntegerRest(s).value;
  }

  lemma {:induction false} FindFraction(s: Text) returns (fraction: Text)
    requires FractionRest(s).Some?
    ensures FractionOk(fraction) && s == fraction + FractionRest(s).value
  {
    if s == [] || s[0] != DOT {
      fraction := [];
    } else {
      var digits := DigitsThenRest(s[1..]);
      fraction := [DOT] + digits;
      assert fraction[1..] == digits;
    }
  }

  lemma {:induction false} FindExponent(s: Text) returns (exponent: Text)
    requires ExponentRest(s).Some?
    ensures ExponentOk(exponent) && s == exponent + ExponentRest(s).value
  {
    if s == [] || !IsExponentMark(s[0]) {
      exponent := [];
    } else {
      var u := SkipSign(s[1..]);
      var digits := DigitsThenRest(u);
      var mark := if u == s[1..] then [s[0]] else [s[0], s[1]];
      assert s == mark + u;
      Associate(mark, digits, SkipDigits(u));
      exponent := mark + digits;
      assert exponent[|mark|..] == digits;
    }
  }

  lemma {:induction false} FindTail(s: Text) returns (fraction: Text, exponent: Text)
    requires TailRest(s).Some?
    ensures FractionOk(fraction) && ExponentOk(exponent) && s == fraction + (exponent + TailRest(s).value)
  {
    fraction := FindFraction(s);
    exponent := FindExponent(FractionRest(s).value);
  }

  lemma {:induction false} FindNumeral(s: Text) returns (n: Numeral)
    requires NumberRest(s).Some?
    ensures NumeralOk(n) && s == NumeralText(n, NumberRest(s).value)
    ensures NumeralText(n, []) == s[..|s| - |NumberRest(s).value|]
  {
    var tail := NumberRest(s).value;
    var minus, integer := FindInteger(s);
    var fraction, exponent := FindTail(IntegerRest(s).value);
    n := Numeral(minus, integer, fraction, exponent);
    NumeralThenTail(n, tail);
    TakeFirst(NumeralText(n, []), tail);
  }

  /** The texts the reader takes for a number are those of the grammar. */
  lemma {:induction false} NumberIsNumeral(s: Text)
    ensures NumberRest(s) == Some([]) <==> exists n :: NumeralOk(n) && s == NumeralText(n, [])
  {
    if NumberRest(s) == Some([]) {
      var n := FindNumeral(s);
    }
    forall n | NumeralOk(n) && s == NumeralText(n, [])
      ensures NumberRest(s) == Some([])
    {
      ReadsNumeral(n, []);
    }
  }
}
