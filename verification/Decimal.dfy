/** Decimal digits: invariant-culture ToString and the .NET TryParse with NumberStyles.None. */
module Decimal {
  import opened Utf16
  import opened Wrappers

  function Digit(n: nat): Unit
    requires n < 10
  {
    ZERO + n
  }

  /** ToString() of a natural number. */
  function Digits(n: nat): (s: Text)
    ensures s != [] && forall u :: u in s ==> IsDigit(u)
  {
    if n < 10 then [Digit(n)] else Digits(n / 10) + [Digit(n % 10)]
  }

  /** ToString("Dk"): at least `width` digits, zeros first. */
  function Padded(n: nat, width: nat): (s: Text)
    ensures forall u :: u in s ==> IsDigit(u)
  {
    if n < 10 && width <= 1 then [Digit(n)]
    else Padded(n / 10, if width == 0 then 0 else width - 1) + [Digit(n % 10)]
  }

  predicate AllDigits(s: Text) {
    forall u :: u in s ==> IsDigit(u)
  }

  function Value(s: Text): nat
    requires AllDigits(s)
  {
    if s == [] then 0
    else
      var last := s[|s| - 1];
      assert last in s;
      Value(s[..|s| - 1]) * 10 + (last - ZERO)
  }

  /** Without NUL characters at the end. */
  function Unpadded(s: Text): (t: Text)
    ensures |t| <= |s|
    ensures NUL !in s ==> t == s
  {
    if s != [] && s[|s| - 1] == NUL then Unpadded(s[..|s| - 1]) else s
  }

  /** TryParse with NumberStyles.None, for a type that holds values up to `maximum`. .NET passes over NUL characters after
      the digits. */
  function TryParse(s: Text, maximum: nat): Option<nat> {
    var t := Unpadded(s);
    if t == [] || !AllDigits(t) || Value(t) > maximum then None else Some(Value(t))
  }

  lemma {:induction false} ValueAppend(s: Text, u: Unit)
    requires AllDigits(s) && IsDigit(u)
    ensures AllDigits(s + [u]) && Value(s + [u]) == Value(s) * 10 + (u - ZERO)
  {
    assert (s + [u])[..|s|] == s;
  }

  lemma {:induction false} ValueOfDigits(n: nat)
    ensures Value(Digits(n)) == n
  {
    if n < 10 {
      ValueAppend([], Digit(n));
      assert [] + [Digit(n)] == [Digit(n)];
    } else {
      ValueOfDigits(n / 10);
      ValueAppend(Digits(n / 10), Digit(n % 10));
    }
  }

  lemma {:induction false} ValueOfPadded(n: nat, width: nat)
    ensures Value(Padded(n, width)) == n
    decreases n, width
  {
    if n < 10 && width <= 1 {
      ValueAppend([], Digit(n));
      assert [] + [Digit(n)] == [Digit(n)];
    } else {
      var w := if width == 0 then 0 else width - 1;
      ValueOfPadded(n / 10, w);
      ValueAppend(Padded(n / 10, w), Digit(n % 10));
    }
  }

  function Power(k: nat): nat {
    if k == 0 then 1 else 10 * Power(k - 1)
  }

  lemma {:induction false} PaddedLength(n: nat, width: nat)
    requires 0 < width && n < Power(width)
    ensures |Padded(n, width)| == width
  {
    if width == 1 {
      assert Power(1) == 10 * Power(0);
    } else {
      PaddedLength(n / 10, width - 1);
    }
  }

  lemma {:induction false} DigitsInjective(m: nat, n: nat)
    requires Digits(m) == Digits(n)
    ensures m == n
  {
    ValueOfDigits(m);
    ValueOfDigits(n);
  }

  /** Digits are the padded form of their value. */
  lemma {:induction false} PaddedOfValue(s: Text)
    requires AllDigits(s) && s != []
    ensures Padded(Value(s), |s|) == s && Value(s) < Power(|s|)
  {
    var n := |s| - 1;
    var head, last := s[..n], s[n];
    assert last in s && s == head + [last];
    ValueAppend(head, last);
    if n == 0 {
      assert head == [] && s == [last];
      assert Power(1) == 10 * Power(0);
    } else {
      PaddedOfValue(head);
      PaddedAppend(Value(head), n, last);
    }
  }

  lemma {:induction false} PowerGrows(k: nat, n: nat)
    requires k <= n
    ensures 0 < Power(k) <= Power(n)
    decreases n
  {
    if k < n {
      PowerGrows(k, n - 1);
    } else if n > 0 {
      PowerGrows(n - 1, n - 1);
    }
  }

  /** What so many units parse to. */
  lemma {:induction false} ParsedBelow(s: Text, maximum: nat)
    requires TryParse(s, maximum).Some?
    ensures TryParse(s, maximum).value < Power(|s|)
  {
    PaddedOfValue(Unpadded(s));
    PowerGrows(|Unpadded(s)|, |s|);
  }

  lemma {:induction false} PaddedAppend(n: nat, width: nat, u: Unit)
    requires 0 < width && IsDigit(u)
    ensures Padded(n * 10 + (u - ZERO), width + 1) == Padded(n, width) + [u]
  {
    assert (n * 10 + (u - ZERO)) / 10 == n && (n * 10 + (u - ZERO)) % 10 == u - ZERO;
  }

  /** Digits parse to their value. */
  lemma {:induction false} ParseOfPadded(n: nat, width: nat, maximum: nat)
    requires n <= maximum
    ensures TryParse(Padded(n, width), maximum) == Some(n)
  {
    var s := Padded(n, width);
    ValueOfPadded(n, width);
    NoNul(s);
    assert s != [];
  }

  lemma {:induction false} NoNul(s: Text)
    requires AllDigits(s)
    ensures NUL !in s
  {
  }

  /** Ordinal order of texts. */
  predicate Below(a: Text, b: Text) {
    b != [] && (a == [] || a[0] < b[0] || (a[0] == b[0] && Below(a[1..], b[1..])))
  }

  lemma {:induction false} BelowJoined(a: Text, b: Text, x: Text, y: Text)
    requires |a| == |b|
    ensures Below(a + x, b + y) <==> Below(a, b) || (a == b && Below(x, y))
  {
    if a == [] {
      assert a + x == x && b + y == y;
    } else {
      assert (a + x)[1..] == a[1..] + x && (b + y)[1..] == b[1..] + y;
      BelowJoined(a[1..], b[1..], x, y);
      assert a == b <==> a[0] == b[0] && a[1..] == b[1..] by {
        assert a == [a[0]] + a[1..] && b == [b[0]] + b[1..];
      }
    }
  }

  lemma {:induction false} BelowOne(u: Unit, v: Unit)
    ensures Below([u], [v]) <==> u < v
  {
  }

  /** Numbers padded to the same width are ordered as their texts. */
  lemma {:induction false} PaddedInOrder(m: nat, n: nat, width: nat)
    requires 0 < width && m < Power(width) && n < Power(width)
    ensures Below(Padded(m, width), Padded(n, width)) <==> m < n
    ensures Padded(m, width) == Padded(n, width) <==> m == n
  {
    ValueOfPadded(m, width);
    ValueOfPadded(n, width);
    if width == 1 {
      assert Power(1) == 10 * Power(0);
      BelowOne(Digit(m), Digit(n));
    } else {
      PaddedLength(m / 10, width - 1);
      PaddedLength(n / 10, width - 1);
      PaddedInOrder(m / 10, n / 10, width - 1);
      BelowJoined(Padded(m / 10, width - 1), Padded(n / 10, width - 1), [Digit(m % 10)], [Digit(n % 10)]);
      BelowOne(Digit(m % 10), Digit(n % 10));
    }
  }
}
