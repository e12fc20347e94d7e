/**
 Windows path normalization. The meaning of a path is the list of steps its segments take through folders; the source's
 one-pass Normalize computes a normal form that keeps that meaning and is the same for two paths exactly when they take
 every starting folder to the same place.
 */
module WindowsPath {
  import opened Utf16

  predicate IsSeparator(u: Unit) {
    u == SLASH || u == BACKSLASH
  }

  // ----- Segments

  /** The parts of `s` between separators of either kind. */
  function Split(s: Text): (segments: seq<Text>)
    ensures segments != []
  {
    if s == [] then [[]] else Attach(s[0], Split(s[1..]))
  }

  /** A unit before a split text: a separator ends a segment, and another unit begins the first. */
  function Attach(u: Unit, segments: seq<Text>): (r: seq<Text>)
    requires segments != []
    ensures r != []
  {
    if IsSeparator(u) then [[]] + segments else [[u] + segments[0]] + segments[1..]
  }

  lemma {:induction false} AttachFirst(u: Unit, a: seq<Text>, b: seq<Text>)
    requires a != []
    ensures Attach(u, a + b) == Attach(u, a) + b
  {
    assert (a + b)[1..] == a[1..] + b;
  }

  function Join(segments: seq<Text>, separator: Unit): Text {
    if segments == [] then []
    else if |segments| == 1 then segments[0]
    else Join(segments[..|segments| - 1], separator) + ([separator] + segments[|segments| - 1])
  }

  predicate Whole(segment: Text) {
    forall i :: 0 <= i < |segment| ==> !IsSeparator(segment[i])
  }

  predicate AllWhole(segments: seq<Text>) {
    forall i :: 0 <= i < |segments| ==> Whole(segments[i])
  }

  lemma {:induction false} SplitsWhole(s: Text)
    ensures AllWhole(Split(s))
  {
    if s != [] {
      SplitsWhole(s[1..]);
    }
  }

  lemma {:induction false} SplitOne(segment: Text)
    requires Whole(segment)
    ensures Split(segment) == [segment]
  {
    if segment != [] {
      SplitOne(segment[1..]);
      assert segment == [segment[0]] + segment[1..];
    }
  }

  /** Splitting at a separator anywhere. */
  lemma {:induction false} SplitAt(a: Text, separator: Unit, b: Text)
    requires IsSeparator(separator)
    ensures Split(a + ([separator] + b)) == Split(a) + Split(b)
  {
    var s := a + ([separator] + b);
    if a == [] {
      assert s[1..] == b;
    } else {
      assert s[1..] == a[1..] + ([separator] + b);
      SplitAt(a[1..], separator, b);
      AttachFirst(a[0], Split(a[1..]), Split(b));
    }
  }

  lemma {:induction false} JoinMore(segments: seq<Text>, segment: Text, separator: Unit)
    ensures Join(segments + [segment], separator)
         == if segments == [] then segment else Join(segments, separator) + ([separator] + segment)
  {
    assert (segments + [segment])[..|segments|] == segments;
  }

  lemma {:induction false} SplitOfJoin(segments: seq<Text>, separator: Unit)
    requires segments != [] && AllWhole(segments) && IsSeparator(separator)
    ensures Split(Join(segments, separator)) == segments
  {
    var n := |segments| - 1;
    if n == 0 {
      SplitOne(segments[0]);
    } else {
      SplitOfJoin(segments[..n], separator);
      SplitAt(Join(segments[..n], separator), separator, segments[n]);
      SplitOne(segments[n]);
      assert segments == segments[..n] + [segments[n]];
    }
  }

  // ----- The fold over a segment stack

  const HERE: Text := [DOT]
  const UP: Text := [DOT, DOT]

  /** One segment: empty and "." do nothing, ".." drops the last name, and anything else is a name. A ".." with no name to
      drop is kept when `above`, and dropped otherwise. */
  function Push(stack: seq<Text>, segment: Text, above: bool): seq<Text> {
    if segment == [] || segment == HERE then stack
    else if segment != UP then stack + [segment]
    else if stack != [] && stack[|stack| - 1] != UP then stack[..|stack| - 1]
    else if above then stack + [UP]
    else stack
  }

  function Fold(stack: seq<Text>, segments: seq<Text>, above: bool): seq<Text>
    decreases |segments|
  {
    if segments == [] then stack else Fold(Push(stack, segments[0], above), segments[1..], above)
  }

  function Normalized(path: Text, above: bool): Text {
    Join(Fold([], Split(path), above), BACKSLASH)
  }

  lemma {:induction false} FoldTwice(stack: seq<Text>, a: seq<Text>, b: seq<Text>, above: bool)
    ensures Fold(stack, a + b, above) == Fold(Fold(stack, a, above), b, above)
    decreases |a|
  {
    if a == [] {
      assert a + b == b;
    } else {
      assert (a + b)[1..] == a[1..] + b;
      FoldTwice(Push(stack, a[0], above), a[1..], b, above);
    }
  }

  predicate IsName(segment: Text) {
    Whole(segment) && segment != [] && segment != HERE && segment != UP
  }

  /** Some ".." segments, none unless `above`, and then names. */
  predicate IsNormal(stack: seq<Text>, above: bool) {
    && (forall i :: 0 <= i < |stack| ==> IsName(stack[i]) || (above && stack[i] == UP))
    && (forall i, j :: 0 <= i < j < |stack| && stack[j] == UP ==> stack[i] == UP)
  }

  lemma {:induction false} PushKeepsNormal(stack: seq<Text>, segment: Text, above: bool)
    requires IsNormal(stack, above) && Whole(segment)
    ensures IsNormal(Push(stack, segment, above), above)
  {
  }

  lemma {:induction false} FoldIsNormal(stack: seq<Text>, segments: seq<Text>, above: bool)
    requires IsNormal(stack, above) && AllWhole(segments)
    ensures IsNormal(Fold(stack, segments, above), above)
    decreases |segments|
  {
    if segments != [] {
      PushKeepsNormal(stack, segments[0], above);
      FoldIsNormal(Push(stack, segments[0], above), segments[1..], above);
    }
  }

  lemma {:induction false} NormalIsWhole(stack: seq<Text>, above: bool)
    requires IsNormal(stack, above)
    ensures AllWhole(stack)
  {
  }

  /** What a result's segments are: nothing, or the folded stack. */
  lemma {:induction false} NormalizedSegments(path: Text, above: bool)
    ensures var stack := Fold([], Split(path), above);
      IsNormal(stack, above) && Split(Normalized(path, above)) == if stack == [] then [[]] else stack
  {
    var stack := Fold([], Split(path), above);
    SplitsWhole(path);
    FoldIsNormal([], Split(path), above);
    NormalIsWhole(stack, above);
    if stack != [] {
      SplitOfJoin(stack, BACKSLASH);
    }
  }

  /** Below a root, no empty, "." or ".." segment is left. */
  lemma {:induction false} RootedHasOnlyNames(path: Text)
    requires Normalized(path, false) != []
    ensures forall i :: 0 <= i < |Split(Normalized(path, false))| ==> IsName(Split(Normalized(path, false))[i])
  {
    NormalizedSegments(path, false);
  }

  lemma {:induction false} PushNormal(stack: seq<Text>, segment: Text, above: bool)
    requires IsNormal(stack + [segment], above)
    ensures Push(stack, segment, above) == stack + [segment]
  {
    var more := stack + [segment];
    assert more[|stack|] == segment;
    if segment == UP && stack != [] {
      assert more[|stack| - 1] == stack[|stack| - 1];
    }
  }

  lemma {:induction false} FoldNormal(stack: seq<Text>, segments: seq<Text>, above: bool)
    requires IsNormal(stack + segments, above)
    ensures Fold(stack, segments, above) == stack + segments
    decreases |segments|
  {
    if segments == [] {
      assert stack + segments == stack;
    } else {
      var more := stack + [segments[0]];
      assert more + segments[1..] == stack + segments;
      assert forall i :: 0 <= i < |more| ==> more[i] == (stack + segments)[i];
      PushNormal(stack, segments[0], above);
      FoldNormal(more, segments[1..], above);
    }
  }

  /** Normalizing twice is normalizing once. */
  lemma {:induction false} NormalizeIdempotent(path: Text, above: bool)
    ensures Normalized(Normalized(path, above), above) == Normalized(path, above)
  {
    var stack := Fold([], Split(path), above);
    NormalizedSegments(path, above);
    if stack != [] {
      assert [] + stack == stack;
      FoldNormal([], stack, above);
    } else {
      assert Fold([], [[]], above) == Fold(Push([], [], above), [], above);
    }
  }

  /** Normalizing the first of two joined paths changes nothing. */
  lemma {:induction false} NormalizeInParts(a: Text, b: Text, above: bool)
    ensures Normalized(Normalized(a, above) + ([BACKSLASH] + b), above) == Normalized(a + ([BACKSLASH] + b), above)
  {
    var stack := Fold([], Split(a), above);
    SplitAt(a, BACKSLASH, b);
    SplitAt(Normalized(a, above), BACKSLASH, b);
    FoldTwice([], Split(a), Split(b), above);
    NormalizedSegments(a, above);
    FoldTwice([], Split(Normalized(a, above)), Split(b), above);
    if stack != [] {
      assert [] + stack == stack;
      FoldNormal([], stack, above);
    } else {
      assert Fold([], [[]], above) == Fold(Push([], [], above), [], above);
    }
  }

  // ----- Meaning

  /** Where segments lead from a folder, given by the names on the way to it; the root's parent is the root. */
  function Walk(folder: seq<Text>, segments: seq<Text>): seq<Text>
    decreases |segments|
  {
    if segments == [] then folder else Walk(Move(folder, segments[0]), segments[1..])
  }

  function Move(folder: seq<Text>, segment: Text): seq<Text> {
    if segment == [] || segment == HERE then folder
    else if segment != UP then folder + [segment]
    else if folder == [] then folder
    else folder[..|folder| - 1]
  }

  lemma {:induction false} WalkTwice(folder: seq<Text>, a: seq<Text>, b: seq<Text>)
    ensures Walk(folder, a + b) == Walk(Walk(folder, a), b)
    decreases |a|
  {
    if a == [] {
      assert a + b == b;
    } else {
      assert (a + b)[1..] == a[1..] + b;
      WalkTwice(Move(folder, a[0]), a[1..], b);
    }
  }

  lemma {:induction false} WalkOne(folder: seq<Text>, segment: Text)
    ensures Walk(folder, [segment]) == Move(folder, segment)
  {
  }

  lemma {:induction false} PushMoves(folder: seq<Text>, stack: seq<Text>, segment: Text)
    requires IsNormal(stack, true)
    ensures Walk(folder, Push(stack, segment, true)) == Move(Walk(folder, stack), segment)
  {
    if segment == UP && stack != [] && stack[|stack| - 1] != UP {
      var shorter, last := stack[..|stack| - 1], stack[|stack| - 1];
      assert stack == shorter + [last];
      WalkTwice(folder, shorter, [last]);
      WalkOne(Walk(folder, shorter), last);
      assert IsName(last);
    } else if segment != [] && segment != HERE {
      WalkTwice(folder, stack, [segment]);
      WalkOne(Walk(folder, stack), segment);
    }
  }

  lemma {:induction false} FoldMoves(folder: seq<Text>, stack: seq<Text>, segments: seq<Text>)
    requires IsNormal(stack, true) && AllWhole(segments)
    ensures Walk(folder, Fold(stack, segments, true)) == Walk(Walk(folder, stack), segments)
    decreases |segments|
  {
    if segments != [] {
      PushKeepsNormal(stack, segments[0], true);
      PushMoves(folder, stack, segments[0]);
      FoldMoves(folder, Push(stack, segments[0], true), segments[1..]);
    }
  }

  /** A relative path leads from every folder to where its normal form leads. */
  lemma {:induction false} NormalizeKeepsMeaning(folder: seq<Text>, path: Text)
    ensures Walk(folder, Split(Normalized(path, true))) == Walk(folder, Split(path))
  {
    SplitsWhole(path);
    FoldMoves(folder, [], Split(path));
    NormalizedSegments(path, true);
    if Fold([], Split(path), true) == [] {
      WalkOne(folder, []);
    }
  }

  lemma {:induction false} RootedFoldWalks(stack: seq<Text>, segments: seq<Text>)
    requires IsNormal(stack, false) && AllWhole(segments)
    ensures Fold(stack, segments, false) == Walk(stack, segments)
    decreases |segments|
  {
    if segments != [] {
      PushKeepsNormal(stack, segments[0], false);
      RootedFoldWalks(Push(stack, segments[0], false), segments[1..]);
    }
  }

  /** A rooted path's normal form names the folders from the root to where the path leads. */
  lemma {:induction false} RootedNormalIsPlace(path: Text)
    ensures Normalized(path, false) == Join(Walk([], Split(path)), BACKSLASH)
  {
    SplitsWhole(path);
    RootedFoldWalks([], Split(path));
  }

  // ----- The normal form is the only one

  predicate AllUp(segments: seq<Text>) {
    forall i :: 0 <= i < |segments| ==> segments[i] == UP
  }

  predicate AllNames(segments: seq<Text>) {
    forall i :: 0 <= i < |segments| ==> IsName(segments[i])
  }

  /** How many ".." segments come first. */
  function Ups(stack: seq<Text>): (ups: nat)
    ensures ups <= |stack|
  {
    if stack == [] || stack[0] != UP then 0 else 1 + Ups(stack[1..])
  }

  lemma {:induction false} NormalParts(stack: seq<Text>)
    requires IsNormal(stack, true)
    ensures AllUp(stack[..Ups(stack)]) && AllNames(stack[Ups(stack)..])
  {
    if stack != [] && stack[0] == UP {
      NormalParts(stack[1..]);
      var ups := Ups(stack[1..]);
      assert stack[..ups + 1] == [UP] + stack[1..][..ups];
      assert stack[ups + 1..] == stack[1..][ups..];
    }
  }

  lemma {:induction false} WalkUps(folder: seq<Text>, ups: seq<Text>)
    requires AllUp(ups) && |ups| <= |folder|
    ensures Walk(folder, ups) == folder[..|folder| - |ups|]
    decreases |ups|
  {
    if ups != [] {
      WalkUps(folder[..|folder| - 1], ups[1..]);
    }
  }

  lemma {:induction false} WalkNames(folder: seq<Text>, names: seq<Text>)
    requires AllNames(names)
    ensures Walk(folder, names) == folder + names
    decreases |names|
  {
    if names != [] {
      WalkNames(folder + [names[0]], names[1..]);
    }
  }

  lemma {:induction false} WalkNormal(folder: seq<Text>, ups: seq<Text>, names: seq<Text>)
    requires |ups| <= |folder| && AllUp(ups) && AllNames(names)
    ensures Walk(folder, ups + names) == folder[..|folder| - |ups|] + names
  {
    WalkTwice(folder, ups, names);
    WalkUps(folder, ups);
    WalkNames(folder[..|folder| - |ups|], names);
  }

  /** A text longer than every name. */
  function Fresh(names: seq<Text>): (t: Text)
    ensures forall i :: 0 <= i < |names| ==> |names[i]| < |t|
  {
    if names == [] then [ZERO]
    else
      var t := Fresh(names[1..]);
      if |names[0]| < |t| then t else names[0] + [ZERO]
  }

  function Copies(t: Text, n: nat): (folder: seq<Text>)
    ensures |folder| == n && forall i :: 0 <= i < n ==> folder[i] == t
  {
    if n == 0 then [] else Copies(t, n - 1) + [t]
  }

  lemma {:induction false} SplitDiffer(x: Text, n: nat, i: nat, a: seq<Text>, j: nat, b: seq<Text>)
    requires i < j <= n && x !in b
    ensures Copies(x, n)[..n - i] + a != Copies(x, n)[..n - j] + b
  {
    var left, right := Copies(x, n)[..n - i] + a, Copies(x, n)[..n - j] + b;
    if |left| == |right| {
      assert left[n - j] == x;
      assert right[n - j] == b[0] && b[0] in b;
    }
  }

  lemma {:induction false} SplitEqual(x: Text, n: nat, i: nat, a: seq<Text>, j: nat, b: seq<Text>)
    requires i <= j <= n && x !in a && x !in b
    requires Copies(x, n)[..n - i] + a == Copies(x, n)[..n - j] + b
    ensures i == j && a == b
  {
    var left, right := Copies(x, n)[..n - i] + a, Copies(x, n)[..n - j] + b;
    if i < j {
      SplitDiffer(x, n, i, a, j, b);
    }
    assert left[n - i..] == a && right[n - j..] == b;
  }

  /** A folder from which different normal stacks lead to different places. */
  function Probe(a: seq<Text>, b: seq<Text>): seq<Text> {
    Copies(Fresh(a + b), Ups(a) + Ups(b))
  }

  lemma {:induction false} FreshIsFresh(a: seq<Text>, b: seq<Text>)
    ensures Fresh(a + b) !in a && Fresh(a + b) !in b
  {
    assert forall k :: 0 <= k < |a| ==> a[k] == (a + b)[k];
    assert forall k :: 0 <= k < |b| ==> b[k] == (a + b)[|a| + k];
  }

  lemma {:induction false} PartsEqual(x: Text, n: nat, up: seq<Text>, a: seq<Text>, up': seq<Text>, b: seq<Text>)
    requires AllUp(up) && AllUp(up') && AllNames(a) && AllNames(b)
    requires |up| <= n && |up'| <= n && x !in a && x !in b
    requires Walk(Copies(x, n), up + a) == Walk(Copies(x, n), up' + b)
    ensures up == up' && a == b
  {
    WalkNormal(Copies(x, n), up, a);
    WalkNormal(Copies(x, n), up', b);
    if |up| <= |up'| {
      SplitEqual(x, n, |up|, a, |up'|, b);
    } else {
      SplitEqual(x, n, |up'|, b, |up|, a);
    }
    UpsEqual(up, up');
  }

  lemma {:induction false} NotInPart(x: Text, a: seq<Text>, i: nat)
    requires x !in a && i <= |a|
    ensures x !in a[i..] && a == a[..i] + a[i..]
  {
  }

  /** Two normal stacks that lead from the probe to the same place are the same. */
  lemma {:induction false} NormalIsUnique(a: seq<Text>, b: seq<Text>)
    requires IsNormal(a, true) && IsNormal(b, true) && Walk(Probe(a, b), a) == Walk(Probe(a, b), b)
    ensures a == b
  {
    var i, j := Ups(a), Ups(b);
    var x := Fresh(a + b);
    NormalParts(a);
    NormalParts(b);
    FreshIsFresh(a, b);
    NotInPart(x, a, i);
    NotInPart(x, b, j);
    PartsEqual(x, i + j, a[..i], a[i..], b[..j], b[j..]);
  }

  lemma {:induction false} UpsEqual(a: seq<Text>, b: seq<Text>)
    requires |a| == |b| && AllUp(a) && AllUp(b)
    ensures a == b
  {
  }

  lemma {:induction false} FoldsUnique(a: seq<Text>, b: seq<Text>)
    requires AllWhole(a) && AllWhole(b)
    ensures var folder := Probe(Fold([], a, true), Fold([], b, true));
      Walk(folder, a) == Walk(folder, b) ==> Fold([], a, true) == Fold([], b, true)
  {
    var folder := Probe(Fold([], a, true), Fold([], b, true));
    FoldIsNormal([], a, true);
    FoldIsNormal([], b, true);
    FoldMoves(folder, [], a);
    FoldMoves(folder, [], b);
    if Walk(folder, a) == Walk(folder, b) {
      NormalIsUnique(Fold([], a, true), Fold([], b, true));
    }
  }

  /** The paths lead from every folder to the same place. */
  ghost predicate SameMeaning(p: Text, q: Text) {
    forall folder :: Walk(folder, Split(p)) == Walk(folder, Split(q))
  }

  lemma {:induction false} SameFormSameMeaning(p: Text, q: Text)
    requires Normalized(p, true) == Normalized(q, true)
    ensures SameMeaning(p, q)
  {
    forall folder
      ensures Walk(folder, Split(p)) == Walk(folder, Split(q))
    {
      NormalizeKeepsMeaning(folder, p);
      NormalizeKeepsMeaning(folder, q);
    }
  }

  lemma {:induction false} SameMeaningSameForm(p: Text, q: Text)
    requires SameMeaning(p, q)
    ensures Normalized(p, true) == Normalized(q, true)
  {
    SplitsWhole(p);
    SplitsWhole(q);
    FoldsUnique(Split(p), Split(q));
  }

  /** Relative paths have the same normal form exactly when they have the same meaning. */
  lemma {:induction false} NormalFormIsMeaning(p: Text, q: Text)
    ensures Normalized(p, true) == Normalized(q, true) <==> SameMeaning(p, q)
  {
    if SameMeaning(p, q) {
      SameMeaningSameForm(p, q);
    }
    if Normalized(p, true) == Normalized(q, true) {
      SameFormSameMeaning(p, q);
    }
  }
}
