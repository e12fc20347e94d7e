/** NodeWin32Path.Normalize: Node's normalizeString with the Windows separator, and the places of drive-absolute paths. */
module FinalPath {
  import opened Utf16
  import opened WindowsPath

  function LastLength(stack: seq<Text>): nat {
    if stack == [] then 0 else |stack[|stack| - 1]|
  }

  /** The result and the last segment's length, as the loop keeps them for a segment stack. */
  ghost predicate Holds(stack: seq<Text>, above: bool, result: Text, lastSegmentLength: int) {
    IsNormal(stack, above) && result == Join(stack, BACKSLASH) && lastSegmentLength == LastLength(stack)
  }

  lemma {:induction false} NormalSegment(stack: seq<Text>, above: bool)
    requires IsNormal(stack, above) && stack != []
    ensures var last := stack[|stack| - 1]; last != [] && Whole(last) && (IsName(last) || last == UP)
    ensures IsNormal(stack[..|stack| - 1], above)
  {
  }

  lemma {:induction false} JoinLast(stack: seq<Text>, above: bool)
    requires IsNormal(stack, above) && stack != []
    ensures var n, s := |stack| - 1, Join(stack, BACKSLASH);
      && s[|s| - |stack[n]|..] == stack[n]
      && |s| == (if n == 0 then 0 else |Join(stack[..n], BACKSLASH)| + 1) + |stack[n]|
      && (n > 0 ==> s[..|s| - |stack[n]| - 1] == Join(stack[..n], BACKSLASH) && s[|s| - |stack[n]| - 1] == BACKSLASH)
      && (n > 0 ==> Join(stack[..n], BACKSLASH) != [])
  {
    NormalSegment(stack, above);
    if |stack| > 1 {
      NormalSegment(stack[..|stack| - 1], above);
    }
  }

  /** Scans back over one segment only. */
  method LastSeparator(builder: Text) returns (index: int)
    ensures -1 <= index < |builder| && (index >= 0 ==> builder[index] == BACKSLASH)
    ensures forall k :: index < k < |builder| ==> builder[k] != BACKSLASH
  {
    index := |builder| - 1;
    while index >= 0
      invariant -1 <= index < |builder|
      invariant forall k :: index < k < |builder| ==> builder[k] != BACKSLASH
    {
      if builder[index] == BACKSLASH { return; }
      index := index - 1;
    }
  }

  lemma {:induction false} LastSeparatorFound(stack: seq<Text>, above: bool, s: Text, index: int)
    requires IsNormal(stack, above) && s == Join(stack, BACKSLASH)
    requires -1 <= index < |s| && (index >= 0 ==> s[index] == BACKSLASH)
    requires forall k :: index < k < |s| ==> s[k] != BACKSLASH
    ensures |s| - 1 - index == LastLength(stack)
  {
    if stack != [] {
      var last := stack[|stack| - 1];
      JoinLast(stack, above);
      NormalSegment(stack, above);
      assert forall k :: |s| - |last| <= k < |s| ==> s[k] == last[k - (|s| - |last|)];
    }
  }

  /** A ".." segment: drops the last segment, or is kept when allowed above the root. */
  method Up(result: Text, lastSegmentLength: int, allowAboveRoot: bool, ghost stack: seq<Text>)
    returns (r: Text, length: int)
    requires Holds(stack, allowAboveRoot, result, lastSegmentLength)
    ensures Holds(Push(stack, UP, allowAboveRoot), allowAboveRoot, r, length)
  {
    PushKeepsNormal(stack, UP, allowAboveRoot);
    if stack != [] {
      JoinLast(stack, allowAboveRoot);
      NormalSegment(stack, allowAboveRoot);
      LastIsUp(stack[|stack| - 1], result);
    }
    if |result| < 2 || lastSegmentLength != 2 || result[|result| - 1] != DOT || result[|result| - 2] != DOT {
      if |result| > 2 {
        var lastSlashIndex := |result| - lastSegmentLength - 1;
        if lastSlashIndex == -1 { return [], 0; }
        r := result[..lastSlashIndex];
        var index := LastSeparator(r);
        LastSeparatorFound(stack[..|stack| - 1], allowAboveRoot, r, index);
        length := |r| - 1 - index;
        return;
      }
      if |result| != 0 { return [], 0; }
    }
    r, length := result, lastSegmentLength;
    if allowAboveRoot {
      JoinMore(stack, UP, BACKSLASH);
      r := result + (if |result| > 0 then [BACKSLASH, DOT, DOT] else UP);
      length := 2;
    }
  }

  /** The loop's test for a last segment "..". */
  lemma {:induction false} LastIsUp(last: Text, result: Text)
    requires |last| <= |result| && result[|result| - |last|..] == last
    ensures |last| == 2 && result[|result| - 1] == DOT && result[|result| - 2] == DOT <==> last == UP
  {
    if |last| == 2 {
      assert last[0] == result[|result| - 2] && last[1] == result[|result| - 1];
    }
  }

  /** `dots` counts the units of a segment that is all dots, and is -1 for any other. */
  predicate Counts(segment: Text, dots: int) {
    if dots >= 0 then |segment| == dots && forall k :: 0 <= k < dots ==> segment[k] == DOT
    else dots == -1 && exists k :: 0 <= k < |segment| && segment[k] != DOT
  }

  lemma {:induction false} CountsTell(segment: Text, dots: int)
    requires Counts(segment, dots)
    ensures dots == 1 <==> segment == HERE
    ensures dots == 2 <==> segment == UP
  {
  }

  lemma {:induction false} CountsMore(segment: Text, dots: int, u: Unit)
    requires Counts(segment, dots)
    ensures Counts(segment + [u], if u == DOT && dots != -1 then dots + 1 else -1)
  {
    var more := segment + [u];
    if u != DOT {
      assert more[|segment|] == u;
    } else if dots == -1 {
      var k :| 0 <= k < |segment| && segment[k] != DOT;
      assert more[k] != DOT;
    }
  }

  /** The text from `start` to `i` belongs to one segment, whose dots are counted. */
  ghost predicate Scanned(path: Text, start: nat, i: nat, dots: int) {
    start <= i <= |path| && Whole(path[start..i]) && Counts(path[start..i], dots)
  }

  /** Folding the text from `start` completes the fold over the path. */
  ghost predicate Folded(path: Text, above: bool, start: nat, stack: seq<Text>)
    requires start <= |path|
  {
    Fold(stack, Split(path[start..]), above) == Fold([], Split(path), above)
  }

  lemma {:induction false} FoldStarts(path: Text, above: bool)
    ensures Folded(path, above, 0, []) && Scanned(path, 0, 0, 0)
  {
    assert path[0..] == path;
  }

  lemma {:induction false} SegmentEnds(path: Text, start: nat, i: nat)
    requires start <= i < |path| && Whole(path[start..i]) && IsSeparator(path[i])
    ensures Split(path[start..]) == [path[start..i]] + Split(path[i + 1..])
  {
    SplitOne(path[start..i]);
    SplitAt(path[start..i], path[i], path[i + 1..]);
    assert path[start..] == path[start..i] + ([path[i]] + path[i + 1..]);
  }

  lemma {:induction false} FoldFirst(stack: seq<Text>, segment: Text, rest: seq<Text>, above: bool)
    ensures Fold(stack, [segment] + rest, above) == Fold(Push(stack, segment, above), rest, above)
  {
    assert ([segment] + rest)[1..] == rest;
  }

  lemma {:induction false} ScansUnit(path: Text, start: nat, i: nat, dots: int)
    requires i < |path| && Scanned(path, start, i, dots) && !IsSeparator(path[i])
    ensures Scanned(path, start, i + 1, if path[i] == DOT && dots != -1 then dots + 1 else -1)
  {
    CountsMore(path[start..i], dots, path[i]);
    assert path[start..i + 1] == path[start..i] + [path[i]];
  }

  lemma {:induction false} ScansSeparator(path: Text, above: bool, start: nat, i: nat, dots: int, stack: seq<Text>)
    requires i < |path| && Scanned(path, start, i, dots) && IsSeparator(path[i]) && Folded(path, above, start, stack)
    ensures Folded(path, above, i + 1, Push(stack, path[start..i], above)) && Scanned(path, i + 1, i + 1, 0)
  {
    SegmentEnds(path, start, i);
    FoldFirst(stack, path[start..i], Split(path[i + 1..]), above);
  }

  lemma {:induction false} ScansEnd(path: Text, above: bool, start: nat, dots: int, stack: seq<Text>)
    requires Scanned(path, start, |path|, dots) && Folded(path, above, start, stack)
    ensures Push(stack, path[start..], above) == Fold([], Split(path), above)
    ensures path != [] && IsSeparator(path[|path| - 1]) ==> path[start..] == []
  {
    assert path[start..|path|] == path[start..];
    SplitOne(path[start..]);
    FoldFirst(stack, path[start..], [], above);
    assert [path[start..]] + [] == [path[start..]];
    if start < |path| {
      assert path[start..][|path| - 1 - start] == path[|path| - 1];
    }
  }

  /** A segment ends: the result takes it in. */
  method Take(result: Text, lastSegmentLength: int, segment: Text, dots: int, allowAboveRoot: bool, ghost stack: seq<Text>)
    returns (r: Text, length: int)
    requires Holds(stack, allowAboveRoot, result, lastSegmentLength) && Whole(segment) && Counts(segment, dots)
    ensures Holds(Push(stack, segment, allowAboveRoot), allowAboveRoot, r, length)
  {
    CountsTell(segment, dots);
    if |segment| == 0 || dots == 1 {
      return result, lastSegmentLength;
    }
    if dots == 2 {
      r, length := Up(result, lastSegmentLength, allowAboveRoot, stack);
      return;
    }
    r := result;
    if |r| > 0 { r := r + [BACKSLASH]; }
    r := r + segment;
    length := |segment|;
    HoldsName(stack, allowAboveRoot, result, lastSegmentLength, segment, r);
  }

  /** A name joined to a path is joined to its segments. */
  lemma {:induction false} JoinName(stack: seq<Text>, above: bool, result: Text, segment: Text, r: Text)
    requires IsNormal(stack, above) && result == Join(stack, BACKSLASH)
    requires r == (if |result| > 0 then result + [BACKSLASH] else result) + segment
    ensures r == Join(stack + [segment], BACKSLASH)
  {
    JoinMore(stack, segment, BACKSLASH);
    if stack == [] {
      assert result + segment == segment;
    } else {
      JoinLast(stack, above);
      NormalSegment(stack, above);
      assert (result + [BACKSLASH]) + segment == result + ([BACKSLASH] + segment);
    }
  }

  lemma {:induction false} HoldsName(stack: seq<Text>, above: bool, result: Text, lastSegmentLength: int, segment: Text,
                                     r: Text)
    requires Holds(stack, above, result, lastSegmentLength) && IsName(segment)
    requires r == (if |result| > 0 then result + [BACKSLASH] else result) + segment
    ensures Holds(Push(stack, segment, above), above, r, |segment|)
  {
    PushKeepsNormal(stack, segment, above);
    JoinName(stack, above, result, segment, r);
  }

  /** What the loop keeps after `i` units. */
  ghost predicate Progress(path: Text, above: bool, lastSlash: int, i: nat, dots: int, result: Text,
                           lastSegmentLength: int, stack: seq<Text>)
  {
    && -1 <= lastSlash <= |path| - 1 && Scanned(path, lastSlash + 1, i, dots) && Folded(path, above, lastSlash + 1, stack)
    && Holds(stack, above, result, lastSegmentLength)
  }

  /** The segment from after the last slash to `i` ends. */
  method EndSegment(path: Text, i: nat, allowAboveRoot: bool, lastSlash: int, dots: int, result: Text,
                    lastSegmentLength: int, ghost stack: seq<Text>)
    returns (r: Text, length: int, ghost stack': seq<Text>)
    requires Progress(path, allowAboveRoot, lastSlash, i, dots, result, lastSegmentLength, stack)
    requires i < |path| ==> IsSeparator(path[i])
    ensures i < |path| ==> Progress(path, allowAboveRoot, i, i + 1, 0, r, length, stack')
    ensures i == |path| ==> r == Normalized(path, allowAboveRoot)
  {
    ghost var start := lastSlash + 1;
    stack' := Push(stack, path[start..i], allowAboveRoot);
    r, length := Take(result, lastSegmentLength, path[lastSlash + 1..i], dots, allowAboveRoot, stack);
    if i < |path| {
      ScansSeparator(path, allowAboveRoot, start, i, dots, stack);
    } else {
      assert path[start..i] == path[start..];
      ScansEnd(path, allowAboveRoot, start, dots, stack);
    }
  }

  lemma {:induction false} EndsAtSeparator(path: Text, above: bool, lastSlash: int, dots: int, result: Text,
                                           lastSegmentLength: int, stack: seq<Text>)
    requires Progress(path, above, lastSlash, |path|, dots, result, lastSegmentLength, stack)
    requires path != [] && IsSeparator(path[|path| - 1])
    ensures result == Normalized(path, above)
  {
    ScansEnd(path, above, lastSlash + 1, dots, stack);
  }

  lemma {:induction false} ProgressStarts(path: Text, above: bool)
    ensures Progress(path, above, -1, 0, 0, [], 0, [])
  {
    FoldStarts(path, above);
  }

  lemma {:induction false} ProgressUnit(path: Text, above: bool, lastSlash: int, i: nat, dots: int, result: Text,
                                        lastSegmentLength: int, stack: seq<Text>)
    requires Progress(path, above, lastSlash, i, dots, result, lastSegmentLength, stack)
    requires i < |path| && !IsSeparator(path[i])
    ensures Progress(path, above, lastSlash, i + 1, if path[i] == DOT && dots != -1 then dots + 1 else -1, result,
                     lastSegmentLength, stack)
  {
    ScansUnit(path, lastSlash + 1, i, dots);
  }

  /** One turn of the loop: `code` is the unit at `i`, or a slash after the last. */
  method Turn(path: Text, i: nat, code: Unit, allowAboveRoot: bool, lastSlash: int, dots: int, result: Text,
              lastSegmentLength: int, ghost stack: seq<Text>)
    returns (lastSlash': int, dots': int, r: Text, length: int, ghost stack': seq<Text>)
    requires Progress(path, allowAboveRoot, lastSlash, i, dots, result, lastSegmentLength, stack)
    requires code == if i < |path| then path[i] else SLASH
    ensures i < |path| ==> Progress(path, allowAboveRoot, lastSlash', i + 1, dots', r, length, stack')
    ensures i == |path| ==> r == Normalized(path, allowAboveRoot)
  {
    r, length, stack', lastSlash', dots' := result, lastSegmentLength, stack, lastSlash, dots;
    if IsSeparator(code) {
      r, length, stack' := EndSegment(path, i, allowAboveRoot, lastSlash, dots, result, lastSegmentLength, stack);
      lastSlash' := i;
      dots' := 0;
    } else {
      ProgressUnit(path, allowAboveRoot, lastSlash, i, dots, result, lastSegmentLength, stack);
      if code == DOT && dots != -1 { dots' := dots + 1; } else { dots' := -1; }
    }
  }

  method Normalize(path: Text, allowAboveRoot: bool) returns (result: Text)
    ensures result == Normalized(path, allowAboveRoot)
  {
    var lastSegmentLength, lastSlash, dots, code := 0, -1, 0, NUL;
    result := [];
    ghost var stack: seq<Text> := [];
    ProgressStarts(path, allowAboveRoot);
    var i := 0;
    while i < |path|
      invariant i <= |path|
      invariant Progress(path, allowAboveRoot, lastSlash, i, dots, result, lastSegmentLength, stack)
      invariant code == if i == 0 then NUL else path[i - 1]
    {
      code := path[i];
      lastSlash, dots, result, lastSegmentLength, stack :=
        Turn(path, i, code, allowAboveRoot, lastSlash, dots, result, lastSegmentLength, stack);
      i := i + 1;
    }
    if IsSeparator(code) {
      EndsAtSeparator(path, allowAboveRoot, lastSlash, dots, result, lastSegmentLength, stack);
    } else {
      lastSlash, dots, result, lastSegmentLength, stack :=
        Turn(path, i, SLASH, allowAboveRoot, lastSlash, dots, result, lastSegmentLength, stack);
    }
  }

  // ----- Resolving a drive-absolute path

  predicate IsAsciiLetter(u: Unit) {
    0x41 <= u <= 0x5A || 0x61 <= u <= 0x7A
  }

  /** A drive letter, a colon and a separator. */
  predicate IsDriveAbsolute(path: Text) {
    |path| > 2 && IsAsciiLetter(path[0]) && path[1] == COLON && IsSeparator(path[2])
  }

  /** The names a drive-absolute path leads through, below its drive's root. */
  function Names(path: Text): seq<Text>
    requires IsDriveAbsolute(path)
  {
    Fold([], Split(path[3..]), false)
  }

  function Resolved(path: Text): Text
    requires IsDriveAbsolute(path)
  {
    path[..2] + ([BACKSLASH] + Join(Names(path), BACKSLASH))
  }

  lemma {:induction false} NamesAreNames(path: Text)
    requires IsDriveAbsolute(path)
    ensures AllNames(Names(path)) && AllWhole(Names(path))
  {
    SplitsWhole(path[3..]);
    FoldIsNormal([], Split(path[3..]), false);
  }

  lemma {:induction false} ResolvedNames(path: Text)
    requires IsDriveAbsolute(path)
    ensures IsDriveAbsolute(Resolved(path)) && Resolved(path)[..2] == path[..2] && Names(Resolved(path)) == Names(path)
  {
    var names := Names(path);
    assert Resolved(path)[3..] == Join(names, BACKSLASH);
    assert Resolved(path)[2] == BACKSLASH;
    NormalizedSegments(path[3..], false);
    if names == [] {
      assert Fold([], [[]], false) == Fold(Push([], [], false), [], false);
    } else {
      FoldNormal([], names, false);
      assert [] + names == names;
    }
  }

  /** A resolved path resolves to itself. */
  lemma {:induction false} ResolveIdempotent(path: Text)
    requires IsDriveAbsolute(path)
    ensures IsDriveAbsolute(Resolved(path)) && Resolved(Resolved(path)) == Resolved(path)
  {
    ResolvedNames(path);
  }

  /** A path below another resolves by walking on from where the first leads. */
  lemma {:induction false} ResolveBelow(root: Text, separator: Unit, path: Text)
    requires IsDriveAbsolute(root) && IsSeparator(separator)
    ensures var joined := root + ([separator] + path);
      && IsDriveAbsolute(joined) && joined[..2] == root[..2] && Names(joined) == Fold(Names(root), Split(path), false)
  {
    var joined := root + ([separator] + path);
    assert joined[3..] == root[3..] + ([separator] + path);
    SplitAt(root[3..], separator, path);
    FoldTwice([], Split(root[3..]), Split(path), false);
  }

  /** A root that ends with its separator takes the path directly. */
  lemma {:induction false} ResolveBeside(root: Text, path: Text)
    requires IsDriveAbsolute(root) && IsSeparator(root[|root| - 1])
    ensures IsDriveAbsolute(root + path) && (root + path)[..2] == root[..2]
    ensures Names(root + path) == Fold(Names(root), Split(path), false)
  {
    var n := |root| - 1;
    if n == 2 {
      assert (root + path)[3..] == path && root[3..] == [];
      assert Fold([], [[]], false) == Fold(Push([], [], false), [], false);
    } else {
      var head := root[3..n];
      assert (root + path)[3..] == head + ([root[n]] + path);
      assert root[3..] == head + ([root[n]] + []);
      SplitAt(head, root[n], path);
      SplitAt(head, root[n], []);
      FoldTwice([], Split(head), Split(path), false);
      FoldTwice([], Split(head), [[]], false);
      assert Fold(Fold([], Split(head), false), [[]], false)
          == Fold(Push(Fold([], Split(head), false), [], false), [], false);
    }
  }
}
