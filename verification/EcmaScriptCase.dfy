/**
 String.prototype.toLowerCase over given Unicode tables. Lowering is context-sensitive because of the final sigma, but its
 scans never cross a backslash, so a path is lowered segment by segment.
 */
module EcmaScriptCase {
  import opened Utf16
  import opened Sequences
  import opened WindowsPath

  const CAPITAL_SIGMA := 0x03A3
  const SMALL_SIGMA: Unit := 0x03C3
  const FINAL_SIGMA: Unit := 0x03C2

  datatype Tables = Tables(lower: map<int, Text>, casedStarts: seq<int>, casedEnds: seq<int>,
                           ignorableStarts: seq<int>, ignorableEnds: seq<int>)

  // ----- Ranges

  /** Sorted, disjoint inclusive ranges. */
  predicate AreRanges(starts: seq<int>, ends: seq<int>) {
    && |starts| == |ends|
    && (forall k :: 0 <= k < |starts| ==> starts[k] <= ends[k])
    && (forall k, l :: 0 <= k < l < |starts| ==> ends[k] < starts[l])
  }

  predicate InRanges(starts: seq<int>, ends: seq<int>, codePoint: int)
    requires |starts| == |ends|
  {
    exists k :: 0 <= k < |starts| && starts[k] <= codePoint <= ends[k]
  }

  /** Array.BinarySearch: the index of `value`, or the complement of the first larger element's. */
  method BinarySearch(values: seq<int>, value: int) returns (index: int)
    requires forall k, l :: 0 <= k < l < |values| ==> values[k] < values[l]
    ensures index >= 0 ==> index < |values| && values[index] == value
    ensures index < 0 ==> -1 - index <= |values|
    ensures index < 0 ==> forall k :: 0 <= k < |values| ==> if k < -1 - index then values[k] < value else value < values[k]
  {
    var low, high := 0, |values|;
    while low < high
      invariant 0 <= low <= high <= |values|
      invariant forall k :: 0 <= k < low ==> values[k] < value
      invariant forall k :: high <= k < |values| ==> value < values[k]
    {
      var mid := (low + high) / 2;
      if values[mid] == value { return mid; }
      if values[mid] < value { low := mid + 1; } else { high := mid; }
    }
    index := -1 - low;
  }

  method Contains(starts: seq<int>, ends: seq<int>, codePoint: int) returns (found: bool)
    requires AreRanges(starts, ends)
    ensures found == InRanges(starts, ends, codePoint)
  {
    var index := BinarySearch(starts, codePoint);
    if index < 0 { index := (-1 - index) - 1; }
    if index >= 0 {
      assert forall k :: 0 <= k < index ==> ends[k] < starts[index] <= codePoint;
    }
    found := index >= 0 && codePoint <= ends[index];
  }

  predicate IsCased(t: Tables, codePoint: int)
    requires |t.casedStarts| == |t.casedEnds|
  {
    InRanges(t.casedStarts, t.casedEnds, codePoint)
  }

  predicate IsCaseIgnorable(t: Tables, codePoint: int)
    requires |t.ignorableStarts| == |t.ignorableEnds|
  {
    InRanges(t.ignorableStarts, t.ignorableEnds, codePoint)
  }

  predicate AreTables(t: Tables) {
    AreRanges(t.casedStarts, t.casedEnds) && AreRanges(t.ignorableStarts, t.ignorableEnds)
  }

  /** What the Unicode tables say of separators: a backslash is neither cased nor case-ignorable and lowers to itself, and
      no character lowers to nothing or to a text with a separator. */
  predicate KeepsSeparators(t: Tables) {
    && AreTables(t)
    && !IsCased(t, BACKSLASH) && !IsCaseIgnorable(t, BACKSLASH) && BACKSLASH !in t.lower
    && forall codePoint :: codePoint in t.lower ==> t.lower[codePoint] != [] && Whole(t.lower[codePoint])
  }

  // ----- Code points

  datatype CodePoint = CodePoint(value: int, width: nat)

  /** The code point at an index; an unpaired surrogate stands for itself. */
  function At(s: Text, i: nat): (c: CodePoint)
    requires i < |s|
    ensures 0 < c.width <= |s| - i
  {
    if IsHighSurrogate(s[i]) && i + 1 < |s| && IsLowSurrogate(s[i + 1]) then CodePoint(Pair(s[i], s[i + 1]), 2)
    else CodePoint(s[i], 1)
  }

  function Before(s: Text, i: nat): (c: CodePoint)
    requires 0 < i <= |s|
    ensures 0 < c.width <= i
  {
    if IsLowSurrogate(s[i - 1]) && i >= 2 && IsHighSurrogate(s[i - 2]) then CodePoint(Pair(s[i - 2], s[i - 1]), 2)
    else CodePoint(s[i - 1], 1)
  }

  // ----- Final sigma

  /** The first code point before `i` that is not case-ignorable is cased. */
  predicate CasedBefore(t: Tables, s: Text, i: nat)
    requires AreTables(t) && i <= |s|
    decreases i
  {
    if i == 0 then false
    else
      var c := Before(s, i);
      if IsCaseIgnorable(t, c.value) then CasedBefore(t, s, i - c.width) else IsCased(t, c.value)
  }

  predicate CasedAfter(t: Tables, s: Text, i: nat)
    requires AreTables(t) && i <= |s|
    decreases |s| - i
  {
    if i == |s| then false
    else
      var c := At(s, i);
      if IsCaseIgnorable(t, c.value) then CasedAfter(t, s, i + c.width) else IsCased(t, c.value)
  }

  method IsFinalSigma(t: Tables, value: Text, index: nat, width: nat) returns (final: bool)
    requires AreTables(t) && index + width <= |value|
    ensures final == (CasedBefore(t, value, index) && !CasedAfter(t, value, index + width))
  {
    var before := index;
    var precededByCased := false;
    while before > 0
      invariant 0 <= before <= index && !precededByCased
      invariant CasedBefore(t, value, before) == CasedBefore(t, value, index)
    {
      var c := Before(value, before);
      before := before - c.width;
      var ignorable := Contains(t.ignorableStarts, t.ignorableEnds, c.value);
      if !ignorable {
        precededByCased := Contains(t.casedStarts, t.casedEnds, c.value);
        break;
      }
    }
    if !precededByCased { return false; }
    var after := index + width;
    while after < |value|
      invariant index + width <= after <= |value|
      invariant CasedAfter(t, value, after) == CasedAfter(t, value, index + width)
    {
      var c := At(value, after);
      after := after + c.width;
      var ignorable := Contains(t.ignorableStarts, t.ignorableEnds, c.value);
      if !ignorable {
        var cased := Contains(t.casedStarts, t.casedEnds, c.value);
        return !cased;
      }
    }
    return true;
  }

  // ----- Lowering

  /** What the code point at `i` lowers to. */
  function LowerAt(t: Tables, s: Text, i: nat): Text
    requires AreTables(t) && i < |s|
  {
    var c := At(s, i);
    if c.value == CAPITAL_SIGMA then
      [if CasedBefore(t, s, i) && !CasedAfter(t, s, i + c.width) then FINAL_SIGMA else SMALL_SIGMA]
    else if c.value in t.lower then t.lower[c.value]
    else s[i..i + c.width]
  }

  function LowerFrom(t: Tables, s: Text, i: nat): Text
    requires AreTables(t) && i <= |s|
    decreases |s| - i
  {
    if i == |s| then [] else LowerAt(t, s, i) + LowerFrom(t, s, i + At(s, i).width)
  }

  function Lower(t: Tables, s: Text): Text
    requires AreTables(t)
  {
    LowerFrom(t, s, 0)
  }

  lemma {:induction false} LowerStep(t: Tables, s: Text, i: nat, result: Text)
    requires AreTables(t) && i < |s|
    ensures (result + LowerAt(t, s, i)) + LowerFrom(t, s, i + At(s, i).width) == result + LowerFrom(t, s, i)
  {
    Associate(result, LowerAt(t, s, i), LowerFrom(t, s, i + At(s, i).width));
  }

  method AppendLower(t: Tables, value: Text, index: nat, result: Text) returns (r: Text)
    requires AreTables(t) && index < |value|
    ensures r == result + LowerAt(t, value, index)
  {
    var c := At(value, index);
    if c.value == CAPITAL_SIGMA {
      var final := IsFinalSigma(t, value, index, c.width);
      r := result + [if final then FINAL_SIGMA else SMALL_SIGMA];
    } else if c.value in t.lower {
      r := result + t.lower[c.value];
    } else {
      r := result + value[index..index + c.width];
    }
  }

  method ToLower(t: Tables, value: Text) returns (result: Text)
    requires AreTables(t)
    ensures result == Lower(t, value)
  {
    result := [];
    var index := 0;
    while index < |value|
      invariant 0 <= index <= |value|
      invariant result + LowerFrom(t, value, index) == Lower(t, value)
    {
      LowerStep(t, value, index, result);
      result := AppendLower(t, value, index, result);
      index := index + At(value, index).width;
    }
  }

  // ----- What decides the final sigma

  /** No surrogates: every unit is a code point. */
  predicate IsBasic(s: Text) {
    forall k :: 0 <= k < |s| ==> !IsSurrogate(s[k])
  }

  /** Between `i` and `j` all is case-ignorable. */
  predicate IgnorableWithin(t: Tables, s: Text, i: nat, j: nat)
    requires AreTables(t) && j <= |s|
  {
    forall k :: i <= k < j ==> IsCaseIgnorable(t, s[k])
  }

  /** The nearest unit before `i` that is not case-ignorable is cased. */
  ghost predicate FollowsCased(t: Tables, s: Text, i: nat)
    requires AreTables(t) && i <= |s|
  {
    exists k :: 0 <= k < i && IsCased(t, s[k]) && !IsCaseIgnorable(t, s[k]) && IgnorableWithin(t, s, k + 1, i)
  }

  /** And the nearest after it. */
  ghost predicate PrecedesCased(t: Tables, s: Text, i: nat)
    requires AreTables(t) && i <= |s|
  {
    exists k :: i <= k < |s| && IsCased(t, s[k]) && !IsCaseIgnorable(t, s[k]) && IgnorableWithin(t, s, i, k)
  }

  /** A case-ignorable unit decides nothing. */
  lemma {:induction false} PassesBack(t: Tables, s: Text, n: nat)
    requires AreTables(t) && n < |s| && IsCaseIgnorable(t, s[n])
    ensures FollowsCased(t, s, n + 1) <==> FollowsCased(t, s, n)
  {
    if FollowsCased(t, s, n) {
      var k :| 0 <= k < n && IsCased(t, s[k]) && !IsCaseIgnorable(t, s[k]) && IgnorableWithin(t, s, k + 1, n);
      assert IgnorableWithin(t, s, k + 1, n + 1);
    }
    if FollowsCased(t, s, n + 1) {
      var k :| 0 <= k < n + 1 && IsCased(t, s[k]) && !IsCaseIgnorable(t, s[k]) && IgnorableWithin(t, s, k + 1, n + 1);
      assert IgnorableWithin(t, s, k + 1, n);
    }
  }

  /** And any other unit decides alone. */
  lemma {:induction false} DecidesBack(t: Tables, s: Text, n: nat)
    requires AreTables(t) && n < |s| && !IsCaseIgnorable(t, s[n])
    ensures FollowsCased(t, s, n + 1) <==> IsCased(t, s[n])
  {
    if IsCased(t, s[n]) {
      assert IgnorableWithin(t, s, n + 1, n + 1);
    }
  }

  lemma {:induction false} CasedBeforeIs(t: Tables, s: Text, i: nat)
    requires AreTables(t) && i <= |s| && IsBasic(s)
    ensures CasedBefore(t, s, i) <==> FollowsCased(t, s, i)
    decreases i
  {
    if i > 0 {
      var n := i - 1;
      assert !IsSurrogate(s[n]);
      assert Before(s, i) == CodePoint(s[n], 1);
      if IsCaseIgnorable(t, s[n]) {
        CasedBeforeIs(t, s, n);
        PassesBack(t, s, n);
      } else {
        DecidesBack(t, s, n);
      }
    }
  }

  lemma {:induction false} PassesOn(t: Tables, s: Text, i: nat)
    requires AreTables(t) && i < |s| && IsCaseIgnorable(t, s[i])
    ensures PrecedesCased(t, s, i) <==> PrecedesCased(t, s, i + 1)
  {
    if PrecedesCased(t, s, i + 1) {
      var k :| i + 1 <= k < |s| && IsCased(t, s[k]) && !IsCaseIgnorable(t, s[k]) && IgnorableWithin(t, s, i + 1, k);
      assert IgnorableWithin(t, s, i, k);
    }
    if PrecedesCased(t, s, i) {
      var k :| i <= k < |s| && IsCased(t, s[k]) && !IsCaseIgnorable(t, s[k]) && IgnorableWithin(t, s, i, k);
      assert IgnorableWithin(t, s, i + 1, k);
    }
  }

  lemma {:induction false} DecidesOn(t: Tables, s: Text, i: nat)
    requires AreTables(t) && i < |s| && !IsCaseIgnorable(t, s[i])
    ensures PrecedesCased(t, s, i) <==> IsCased(t, s[i])
  {
    if IsCased(t, s[i]) {
      assert IgnorableWithin(t, s, i, i);
    }
  }

  lemma {:induction false} CasedAfterIs(t: Tables, s: Text, i: nat)
    requires AreTables(t) && i <= |s| && IsBasic(s)
    ensures CasedAfter(t, s, i) <==> PrecedesCased(t, s, i)
    decreases |s| - i
  {
    if i < |s| {
      assert !IsSurrogate(s[i]);
      assert At(s, i) == CodePoint(s[i], 1);
      if IsCaseIgnorable(t, s[i]) {
        CasedAfterIs(t, s, i + 1);
        PassesOn(t, s, i);
      } else {
        DecidesOn(t, s, i);
      }
    }
  }

  lemma {:induction false} LowerAtIs(t: Tables, s: Text, i: nat)
    requires AreTables(t) && IsBasic(s) && i < |s|
    ensures s[i] == '\U{03A3}' as int ==>
      LowerAt(t, s, i) ==
        if FollowsCased(t, s, i) && !PrecedesCased(t, s, i + 1) then ['\U{03C2}' as int] else ['\U{03C3}' as int]
    ensures s[i] != '\U{03A3}' as int ==> LowerAt(t, s, i) == if s[i] in t.lower then t.lower[s[i]] else [s[i]]
  {
    assert !IsSurrogate(s[i]);
    CasedBeforeIs(t, s, i);
    CasedAfterIs(t, s, i + 1);
  }

  /** In a text of single-unit code points, each lowers at its place; a capital sigma lowers to the final form exactly when
      the nearest unit before it that is not case-ignorable is cased, and the nearest after it is not. */
  lemma {:induction false} SigmaByItsNeighbours(t: Tables, s: Text, i: nat)
    requires AreTables(t) && IsBasic(s) && i < |s|
    ensures Lower(t, s) == LowerBasic(t, s, 0, i) + LowerAt(t, s, i) + LowerBasic(t, s, i + 1, |s|)
    ensures s[i] == '\U{03A3}' as int ==>
      LowerAt(t, s, i) ==
        if FollowsCased(t, s, i) && !PrecedesCased(t, s, i + 1) then ['\U{03C2}' as int] else ['\U{03C3}' as int]
    ensures s[i] != '\U{03A3}' as int ==> LowerAt(t, s, i) == if s[i] in t.lower then t.lower[s[i]] else [s[i]]
  {
    LowerAtIs(t, s, i);
    LowerIsBasic(t, s, 0);
    LowerBasicSplits(t, s, 0, i);
  }

  /** What the units from `i` up to `j` lower to, one after another. */
  function LowerBasic(t: Tables, s: Text, i: nat, j: nat): Text
    requires AreTables(t) && i <= j <= |s|
    decreases j - i
  {
    if i == j then [] else LowerAt(t, s, i) + LowerBasic(t, s, i + 1, j)
  }

  lemma {:induction false} LowerIsBasic(t: Tables, s: Text, i: nat)
    requires AreTables(t) && IsBasic(s) && i <= |s|
    ensures LowerFrom(t, s, i) == LowerBasic(t, s, i, |s|)
    decreases |s| - i
  {
    if i < |s| {
      assert !IsSurrogate(s[i]);
      LowerIsBasic(t, s, i + 1);
    }
  }

  lemma {:induction false} LowerBasicSplits(t: Tables, s: Text, i: nat, j: nat)
    requires AreTables(t) && i <= j < |s|
    ensures LowerBasic(t, s, i, |s|) == LowerBasic(t, s, i, j) + LowerAt(t, s, j) + LowerBasic(t, s, j + 1, |s|)
    decreases j - i
  {
    var one, last := LowerAt(t, s, j), LowerBasic(t, s, j + 1, |s|);
    if i == j {
      assert [] + one == one;
    } else {
      LowerBasicSplits(t, s, i + 1, j);
      var first, middle := LowerAt(t, s, i), LowerBasic(t, s, i + 1, j);
      Associate(first, middle + one, last);
      Associate(first, middle, one);
    }
  }

  // ----- Lowering and separators

  /** Scans within the part before a backslash see only that part. */
  lemma {:induction false} FirstPart(t: Tables, a: Text, b: Text, i: nat)
    requires KeepsSeparators(t) && i <= |a|
    ensures var s := a + ([BACKSLASH] + b);
      && (i < |a| ==> At(s, i) == At(a, i))
      && CasedAfter(t, s, i) == CasedAfter(t, a, i)
    decreases |a| - i
  {
    var s := a + ([BACKSLASH] + b);
    assert s[|a|] == BACKSLASH;
    if i < |a| {
      assert At(s, i) == At(a, i);
      FirstPart(t, a, b, i + At(a, i).width);
    }
  }

  lemma {:induction false} FirstPartBefore(t: Tables, a: Text, b: Text, i: nat)
    requires KeepsSeparators(t) && i <= |a|
    ensures CasedBefore(t, a + ([BACKSLASH] + b), i) == CasedBefore(t, a, i)
    decreases i
  {
    if i > 0 {
      assert Before(a + ([BACKSLASH] + b), i) == Before(a, i);
      FirstPartBefore(t, a, b, i - Before(a, i).width);
    }
  }

  /** Scans within the part after a backslash see only that part. */
  lemma {:induction false} SecondPart(t: Tables, a: Text, b: Text, j: nat)
    requires KeepsSeparators(t) && j <= |b|
    ensures var s := a + ([BACKSLASH] + b);
      && (j < |b| ==> At(s, |a| + 1 + j) == At(b, j))
      && CasedAfter(t, s, |a| + 1 + j) == CasedAfter(t, b, j)
    decreases |b| - j
  {
    var s := a + ([BACKSLASH] + b);
    assert forall k :: 0 <= k < |b| ==> s[|a| + 1 + k] == b[k];
    if j < |b| {
      assert At(s, |a| + 1 + j) == At(b, j);
      SecondPart(t, a, b, j + At(b, j).width);
    }
  }

  lemma {:induction false} SecondPartBefore(t: Tables, a: Text, b: Text, j: nat)
    requires KeepsSeparators(t) && j <= |b|
    ensures CasedBefore(t, a + ([BACKSLASH] + b), |a| + 1 + j) == CasedBefore(t, b, j)
    decreases j
  {
    SecondBefore(a, b, j);
    if j > 0 {
      SecondPartBefore(t, a, b, j - Before(b, j).width);
    }
  }

  lemma {:induction false} SecondBefore(a: Text, b: Text, j: nat)
    requires j <= |b|
    ensures Before(a + ([BACKSLASH] + b), |a| + 1 + j) == if j > 0 then Before(b, j) else CodePoint(BACKSLASH, 1)
  {
    var s := a + ([BACKSLASH] + b);
    assert s[|a|] == BACKSLASH;
    assert forall k :: 0 <= k < |b| ==> s[|a| + 1 + k] == b[k];
  }

  lemma {:induction false} SameLower(t: Tables, s: Text, i: nat, part: Text, j: nat)
    requires AreTables(t) && i < |s| && j < |part| && At(s, i) == At(part, j)
    requires var w := At(part, j).width;
      && CasedBefore(t, s, i) == CasedBefore(t, part, j) && CasedAfter(t, s, i + w) == CasedAfter(t, part, j + w)
      && s[i..i + w] == part[j..j + w]
    ensures LowerAt(t, s, i) == LowerAt(t, part, j)
  {
  }

  lemma {:induction false} SameSlice(a: Text, b: Text, j: nat, w: nat)
    requires j + w <= |b|
    ensures (a + ([BACKSLASH] + b))[|a| + 1 + j..|a| + 1 + j + w] == b[j..j + w]
  {
  }

  lemma {:induction false} FirstPartStep(t: Tables, a: Text, b: Text, i: nat)
    requires KeepsSeparators(t) && i < |a|
    ensures var s := a + ([BACKSLASH] + b); At(s, i) == At(a, i) && LowerAt(t, s, i) == LowerAt(t, a, i)
  {
    var s, w := a + ([BACKSLASH] + b), At(a, i).width;
    FirstPart(t, a, b, i);
    FirstPart(t, a, b, i + w);
    FirstPartBefore(t, a, b, i);
    assert s[i..i + w] == a[i..i + w];
    SameLower(t, s, i, a, i);
  }

  /** The code point at `k` of one text is, and lowers, as the one `offset` further on in another. */
  predicate Alike(t: Tables, s: Text, b: Text, offset: nat, k: nat)
    requires AreTables(t)
  {
    k < |b| && offset + k < |s| && At(s, offset + k) == At(b, k) && LowerAt(t, s, offset + k) == LowerAt(t, b, k)
  }

  lemma {:induction false} LowerNext(t: Tables, s: Text, b: Text, offset: nat, k: nat, rest: Text)
    requires AreTables(t) && Alike(t, s, b, offset, k)
    requires var w := At(b, k).width;
      offset + k + w <= |s| && LowerFrom(t, s, offset + k + w) == LowerFrom(t, b, k + w) + rest
    ensures LowerFrom(t, s, offset + k) == LowerFrom(t, b, k) + rest
  {
    Associate(LowerAt(t, b, k), LowerFrom(t, b, k + At(b, k).width), rest);
  }

  lemma {:induction false} LowerEnds(t: Tables, b: Text, rest: Text)
    requires AreTables(t)
    ensures LowerFrom(t, b, |b|) + rest == rest
  {
  }

  /** A text lowers as it does within another, where its code points do. */
  lemma {:induction false} LowerWithin(t: Tables, s: Text, b: Text, offset: nat, k: nat)
    requires AreTables(t) && k <= |b| && offset + |b| <= |s|
    requires forall m :: k <= m < |b| ==> Alike(t, s, b, offset, m)
    ensures LowerFrom(t, s, offset + k) == LowerFrom(t, b, k) + LowerFrom(t, s, offset + |b|)
    decreases |b| - k
  {
    if k < |b| {
      assert Alike(t, s, b, offset, k);
      LowerWithin(t, s, b, offset, k + At(b, k).width);
      LowerNext(t, s, b, offset, k, LowerFrom(t, s, offset + |b|));
    } else {
      LowerEnds(t, b, LowerFrom(t, s, offset + |b|));
    }
  }

  lemma {:induction false} LowerFirstPart(t: Tables, a: Text, b: Text)
    requires KeepsSeparators(t)
    ensures var s := a + ([BACKSLASH] + b); Lower(t, s) == Lower(t, a) + LowerFrom(t, s, |a|)
  {
    var s := a + ([BACKSLASH] + b);
    forall k | 0 <= k < |a|
      ensures Alike(t, s, a, 0, k)
    {
      FirstPartStep(t, a, b, k);
    }
    LowerWithin(t, s, a, 0, 0);
  }

  lemma {:induction false} SecondPartStep(t: Tables, a: Text, b: Text, j: nat)
    requires KeepsSeparators(t) && j < |b|
    ensures var s, i := a + ([BACKSLASH] + b), |a| + 1 + j; At(s, i) == At(b, j) && LowerAt(t, s, i) == LowerAt(t, b, j)
  {
    var w := At(b, j).width;
    SecondPart(t, a, b, j);
    SecondPart(t, a, b, j + w);
    SecondPartBefore(t, a, b, j);
    SameSlice(a, b, j, w);
    SameLower(t, a + ([BACKSLASH] + b), |a| + 1 + j, b, j);
  }

  lemma {:induction false} LowerSecondPart(t: Tables, a: Text, b: Text)
    requires KeepsSeparators(t)
    ensures LowerFrom(t, a + ([BACKSLASH] + b), |a| + 1) == Lower(t, b)
  {
    var s, offset := a + ([BACKSLASH] + b), |a| + 1;
    forall k | 0 <= k < |b|
      ensures Alike(t, s, b, offset, k)
    {
      SecondPartStep(t, a, b, k);
    }
    LowerWithin(t, s, b, offset, 0);
    assert Lower(t, b) + [] == Lower(t, b);
  }

  /** The parts around a backslash are lowered apart. */
  lemma {:induction false} LowerAroundBackslash(t: Tables, a: Text, b: Text)
    requires KeepsSeparators(t)
    ensures Lower(t, a + ([BACKSLASH] + b)) == Lower(t, a) + ([BACKSLASH] + Lower(t, b))
  {
    var s := a + ([BACKSLASH] + b);
    LowerFirstPart(t, a, b);
    LowerSecondPart(t, a, b);
    assert s[|a|] == BACKSLASH && s[|a|..|a| + 1] == [BACKSLASH];
    assert At(s, |a|) == CodePoint(BACKSLASH, 1);
    assert LowerAt(t, s, |a|) == [BACKSLASH];
    assert LowerFrom(t, s, |a|) == [BACKSLASH] + LowerFrom(t, s, |a| + 1);
  }

  lemma {:induction false} LowerIsWhole(t: Tables, s: Text, i: nat)
    requires KeepsSeparators(t) && Whole(s) && i <= |s|
    ensures Whole(LowerFrom(t, s, i)) && (i < |s| ==> LowerFrom(t, s, i) != [])
    decreases |s| - i
  {
    if i < |s| {
      LowerIsWhole(t, s, i + At(s, i).width);
      assert Whole(LowerAt(t, s, i)) && LowerAt(t, s, i) != [];
    }
  }

  function LowerAll(t: Tables, segments: seq<Text>): (lowered: seq<Text>)
    requires AreTables(t)
    ensures |lowered| == |segments|
    ensures forall i :: 0 <= i < |segments| ==> lowered[i] == Lower(t, segments[i])
  {
    if segments == [] then []
    else LowerAll(t, segments[..|segments| - 1]) + [Lower(t, segments[|segments| - 1])]
  }

  /** A joined path is lowered segment by segment. */
  lemma {:induction false} LowerOfJoin(t: Tables, segments: seq<Text>)
    requires KeepsSeparators(t)
    ensures Lower(t, Join(segments, BACKSLASH)) == Join(LowerAll(t, segments), BACKSLASH)
  {
    var n := |segments| - 1;
    if n == 0 {
      assert LowerAll(t, segments)[0] == Lower(t, segments[0]);
    } else if n > 0 {
      LowerOfJoin(t, segments[..n]);
      LowerAroundBackslash(t, Join(segments[..n], BACKSLASH), segments[n]);
      JoinMore(LowerAll(t, segments[..n]), Lower(t, segments[n]), BACKSLASH);
    }
  }
}
