/**
 UTF-8 as Encoding.UTF8 writes it: a surrogate pair is one code point, and a lone surrogate is replaced by U+FFFD. Texts
 are encoded alike exactly when they are the same after that replacement.
 */
module Utf8 {
  import opened Utf16
  import opened Sequences

  type Byte = b: int | 0 <= b < 0x100
  type Bytes = seq<Byte>

  const REPLACEMENT: Unit := 0xFFFD

  // ----- Encoding

  /** How many units the first code point takes. */
  function Width(s: Text): (k: nat)
    requires s != []
    ensures 1 <= k <= |s|
  {
    if StartsWithPair(s) then 2 else 1
  }

  /** The first code point, with a lone surrogate replaced. */
  function Scalar(s: Text): (c: int)
    requires s != []
    ensures 0 <= c < 0x11_0000
  {
    if StartsWithPair(s) then Pair(s[0], s[1]) else if IsSurrogate(s[0]) then REPLACEMENT else s[0]
  }

  function EncodeScalar(c: int): (b: Bytes)
    requires 0 <= c < 0x11_0000
    ensures 1 <= |b| <= 4 && b[0] < 0xF8
    ensures if c < 0x80 then b == [c] else forall i :: 0 <= i < |b| ==> b[i] >= 0x80
  {
    if c < 0x80 then [c]
    else if c < 0x800 then [0xC0 + c / 0x40, 0x80 + c % 0x40]
    else if c < 0x1_0000 then [0xE0 + c / 0x1000, 0x80 + c / 0x40 % 0x40, 0x80 + c % 0x40]
    else [0xF0 + c / 0x4_0000, 0x80 + c / 0x1000 % 0x40, 0x80 + c / 0x40 % 0x40, 0x80 + c % 0x40]
  }

  function Encode(s: Text): Bytes
    decreases |s|
  {
    if s == [] then [] else EncodeScalar(Scalar(s)) + Encode(s[Width(s)..])
  }

  /** Encoding.UTF8.GetByteCount. */
  function Size(s: Text): nat {
    |Encode(s)|
  }

  /** Six more bits. */
  function Six(high: int, b: Byte): int {
    high * 64 + (b as int - 0x80)
  }

  /** The bits of a code point in its bytes, by RFC 3629, section 3: the length by the leading byte, and six bits in each byte
      after it. */
  lemma {:induction false} BytesOfScalar(c: int)
    requires 0 <= c < 0x11_0000
    ensures var b := EncodeScalar(c);
      && (forall i :: 1 <= i < |b| ==> 0x80 <= b[i] <= 0xBF)
      && (c <= 0x7F <==> |b| == 1) && (0x80 <= c <= 0x7FF <==> |b| == 2) && (0x800 <= c <= 0xFFFF <==> |b| == 3)
      && (|b| == 1 ==> c == b[0])
      && (|b| == 2 ==> 0xC0 <= b[0] <= 0xDF && c == Six(b[0] as int - 0xC0, b[1]))
      && (|b| == 3 ==> 0xE0 <= b[0] <= 0xEF && c == Six(Six(b[0] as int - 0xE0, b[1]), b[2]))
      && (|b| == 4 ==> 0xF0 <= b[0] <= 0xF7 && c == Six(Six(Six(b[0] as int - 0xF0, b[1]), b[2]), b[3]))
  {
    assert c / 0x1000 == c / 0x40 / 0x40 && c / 0x4_0000 == c / 0x40 / 0x40 / 0x40;
  }

  // ----- Encoding in parts

  /** The join of two texts has a surrogate pair across the cut. */
  predicate CutsPair(a: Text, b: Text) {
    a != [] && b != [] && IsHighSurrogate(a[|a| - 1]) && IsLowSurrogate(b[0])
  }

  lemma {:induction false} FirstOfJoin(a: Text, b: Text)
    requires a != [] && !CutsPair(a, b)
    ensures Width(a + b) == Width(a) && Scalar(a + b) == Scalar(a) && (a + b)[Width(a)..] == a[Width(a)..] + b
    ensures !CutsPair(a[Width(a)..], b)
  {
    var s := a + b;
    assert |s| > 1 ==> s[1] == if |a| > 1 then a[1] else b[0];
    assert s[0] == a[0];
  }

  lemma {:induction false} EncodeJoin(a: Text, b: Text)
    requires !CutsPair(a, b)
    ensures Encode(a + b) == Encode(a) + Encode(b)
    decreases |a|
  {
    if a == [] {
      assert a + b == b && [] + Encode(b) == Encode(b);
    } else {
      FirstOfJoin(a, b);
      EncodeJoin(a[Width(a)..], b);
      Associate(EncodeScalar(Scalar(a)), Encode(a[Width(a)..]), Encode(b));
    }
  }

  lemma {:induction false} EncodeUnit(u: Unit)
    requires u < 0x80
    ensures Encode([u]) == [u]
  {
    assert Encode([u]) == [u] + Encode([u][1..]);
  }

  /** A text with an ASCII unit in it is encoded around that unit. */
  lemma {:induction false} EncodeAround(a: Text, u: Unit, b: Text)
    requires u < 0x80
    ensures Encode(a + ([u] + b)) == Encode(a) + ([u] + Encode(b))
  {
    EncodeJoin(a, [u] + b);
    EncodeJoin([u], b);
    EncodeUnit(u);
  }

  /** ASCII text is encoded as it is. */
  lemma {:induction false} EncodeAscii(s: Text)
    requires forall i :: 0 <= i < |s| ==> s[i] < 0x80
    ensures Encode(s) == s && Size(s) == |s|
  {
    if s != [] {
      EncodeAscii(s[1..]);
      assert s == [s[0]] + s[1..];
    }
  }

  /** An ASCII byte stands in the encoding exactly when its unit stands in the text. */
  lemma {:induction false} EncodeLacks(s: Text, u: Unit)
    requires u < 0x80
    ensures u in Encode(s) <==> u in s
    decreases |s|
  {
    if s != [] {
      var k := Width(s);
      EncodeLacks(s[k..], u);
      assert s == s[..k] + s[k..];
      assert u in s[..k] <==> s[0] == u;
      assert u in EncodeScalar(Scalar(s)) <==> s[0] == u;
    }
  }

  // ----- What the encoding tells

  /** One code point can be read off the front of a byte string in one way only. */
  lemma {:induction false} OneScalar(c: int, d: int, x: Bytes, y: Bytes)
    requires 0 <= c < 0x11_0000 && 0 <= d < 0x11_0000
    requires EncodeScalar(c) + x == EncodeScalar(d) + y
    ensures c == d && x == y
  {
    var a, b := EncodeScalar(c), EncodeScalar(d);
    var s := a + x;
    assert s == b + y && s[0] == a[0] == b[0];
    SameLength(c, d);
    assert a == s[..|a|] && b == s[..|b|] && x == s[|a|..] && y == s[|b|..];
    SameScalar(c, d);
  }

  lemma {:induction false} SameLength(c: int, d: int)
    requires 0 <= c < 0x11_0000 && 0 <= d < 0x11_0000 && EncodeScalar(c)[0] == EncodeScalar(d)[0]
    ensures |EncodeScalar(c)| == |EncodeScalar(d)|
  {
  }

  lemma {:induction false} SameScalar(c: int, d: int)
    requires 0 <= c < 0x11_0000 && 0 <= d < 0x11_0000 && EncodeScalar(c) == EncodeScalar(d)
    ensures c == d
  {
    assert FromBytes(EncodeScalar(c)) == c by { Sixes(c); }
    assert FromBytes(EncodeScalar(d)) == d by { Sixes(d); }
  }

  function FromBytes(b: seq<int>): int
    requires 1 <= |b| <= 4
  {
    if |b| == 1 then b[0]
    else if |b| == 2 then (b[0] - 0xC0) * 0x40 + (b[1] - 0x80)
    else if |b| == 3 then (b[0] - 0xE0) * 0x1000 + (b[1] - 0x80) * 0x40 + (b[2] - 0x80)
    else (b[0] - 0xF0) * 0x4_0000 + (b[1] - 0x80) * 0x1000 + (b[2] - 0x80) * 0x40 + (b[3] - 0x80)
  }

  lemma {:induction false} Sixes(c: int)
    requires 0 <= c
    ensures c / 0x1000 == c / 0x40 / 0x40 && c / 0x4_0000 == c / 0x1000 / 0x40
  {
  }

  /** The text that a decoder gives back: every lone surrogate replaced by U+FFFD. */
  function Replaced(s: Text): Text
    decreases |s|
  {
    if s == [] then []
    else Head(s) + Replaced(s[Width(s)..])
  }

  lemma {:induction false} ReplacedIsWellFormed(s: Text)
    ensures WellFormed(Replaced(s))
    decreases |s|
  {
    if s != [] {
      var rest := Replaced(s[Width(s)..]);
      ReplacedIsWellFormed(s[Width(s)..]);
      assert Replaced(s)[Width(s)..] == rest;
    }
  }

  lemma {:induction false} ReplacedOfWellFormed(s: Text)
    requires WellFormed(s)
    ensures Replaced(s) == s
    decreases |s|
  {
    if s != [] {
      var k := Width(s);
      ReplacedOfWellFormed(s[k..]);
      assert s == s[..k] + s[k..];
    }
  }

  /** Texts have the same encoding exactly when they are the same with lone surrogates replaced. */
  lemma {:induction false} EncodedAlike(a: Text, b: Text)
    ensures Encode(a) == Encode(b) <==> Replaced(a) == Replaced(b)
    decreases |a|
  {
    if a != [] && b != [] {
      EncodedAlike(a[Width(a)..], b[Width(b)..]);
      if Encode(a) == Encode(b) {
        OneScalar(Scalar(a), Scalar(b), Encode(a[Width(a)..]), Encode(b[Width(b)..]));
        SameHead(a, b);
      }
      if Replaced(a) == Replaced(b) {
        SameReplacedHead(a, b);
      }
    }
  }

  /** The units of the first code point, with a lone surrogate replaced. */
  function Head(s: Text): Text
    requires s != []
  {
    if StartsWithPair(s) then s[..2] else [Scalar(s)]
  }

  lemma {:induction false} SameHead(a: Text, b: Text)
    requires a != [] && b != [] && Scalar(a) == Scalar(b)
    ensures Head(a) == Head(b)
  {
  }

  lemma {:induction false} SameReplacedHead(a: Text, b: Text)
    requires a != [] && b != [] && Replaced(a) == Replaced(b)
    ensures Scalar(a) == Scalar(b) && Replaced(a[Width(a)..]) == Replaced(b[Width(b)..])
  {
    var s := Replaced(a);
    assert s[0] == Head(a)[0] == Head(b)[0];
    assert StartsWithPair(a) <==> IsHighSurrogate(s[0]);
    assert StartsWithPair(b) <==> IsHighSurrogate(s[0]);
    assert Head(a) == s[..|Head(a)|] && Head(b) == s[..|Head(b)|];
    assert Replaced(a[Width(a)..]) == s[|Head(a)|..] && Replaced(b[Width(b)..]) == s[|Head(b)|..];
  }
}
