/** The repository's lexical path rules: which relative paths are admitted, and when one path is inside another. */
module RepositoryPaths {
  import opened Utf16
  import opened Wrappers
  import opened WindowsPath
  import opened FinalPath
  import opened EcmaScriptCase
  import NodePath

  // ----- Prefixes of joined segments

  lemma {:induction false} JoinTwo(a: seq<Text>, b: seq<Text>, separator: Unit)
    requires a != [] && b != []
    ensures Join(a + b, separator) == Join(a, separator) + ([separator] + Join(b, separator))
    decreases |b|
  {
    var n := |b| - 1;
    assert (a + b)[..|a| + n] == a + b[..n] && (a + b)[|a| + n] == b[n];
    if n == 0 {
      assert a + b[..n] == a;
    } else {
      JoinTwo(a, b[..n], separator);
      Regroup(Join(a, separator), [separator], Join(b[..n], separator), [separator] + b[n]);
    }
  }

  lemma {:induction false} Regroup(a: Text, b: Text, c: Text, d: Text)
    ensures (a + (b + c)) + d == a + (b + (c + d))
  {
  }

  /** A text that continues a joined path after a separator splits into its segments and more. */
  lemma {:induction false} SplitContinues(a: seq<Text>, rest: Text)
    requires a != [] && AllWhole(a)
    ensures Split(Join(a, BACKSLASH) + ([BACKSLASH] + rest)) == a + Split(rest)
  {
    SplitOfJoin(a, BACKSLASH);
    SplitAt(Join(a, BACKSLASH), BACKSLASH, rest);
  }

  lemma {:induction false} JoinContinues(a: seq<Text>, b: seq<Text>)
    requires a != [] && a < b
    ensures Join(a, BACKSLASH) + [BACKSLASH] <= Join(b, BACKSLASH)
  {
    var rest := b[|a|..];
    assert b == a + rest;
    JoinTwo(a, rest, BACKSLASH);
    assert Join(b, BACKSLASH) == (Join(a, BACKSLASH) + [BACKSLASH]) + Join(rest, BACKSLASH);
  }

  /** A joined path continues another after a separator exactly when its segments do. */
  lemma {:induction false} PrefixOfJoin(a: seq<Text>, b: seq<Text>)
    requires a != [] && b != [] && AllWhole(a) && AllWhole(b)
    ensures Join(a, BACKSLASH) + [BACKSLASH] <= Join(b, BACKSLASH) <==> a < b
  {
    var p, s := Join(a, BACKSLASH), Join(b, BACKSLASH);
    if p + [BACKSLASH] <= s {
      var rest := s[|p| + 1..];
      assert s == p + ([BACKSLASH] + rest);
      SplitContinues(a, rest);
      SplitOfJoin(b, BACKSLASH);
    }
    if a < b {
      JoinContinues(a, b);
    }
  }

  lemma {:induction false} JoinInjective(a: seq<Text>, b: seq<Text>)
    requires a != [] && b != [] && AllWhole(a) && AllWhole(b) && Join(a, BACKSLASH) == Join(b, BACKSLASH)
    ensures a == b
  {
    SplitOfJoin(a, BACKSLASH);
    SplitOfJoin(b, BACKSLASH);
  }

  // ----- Inside

  /** The drive and the names of a drive-absolute path. */
  function Place(path: Text): (place: seq<Text>)
    requires IsDriveAbsolute(path)
    ensures place != []
  {
    [path[..2]] + Names(path)
  }

  /** The segments of the resolved path: a drive's root ends with an empty one. */
  function Segments(place: seq<Text>): (segments: seq<Text>)
    requires place != []
    ensures segments != []
  {
    if |place| == 1 then place + [[]] else place
  }

  lemma {:induction false} ResolvedIsPlace(path: Text)
    requires IsDriveAbsolute(path)
    ensures Resolved(path) == Join(Segments(Place(path)), BACKSLASH) && AllWhole(Segments(Place(path)))
    ensures forall i :: 0 <= i < |Place(path)| ==> Place(path)[i] != []
  {
    var names := Names(path);
    NamesAreNames(path);
    if names == [] {
      JoinMore([path[..2]], [], BACKSLASH);
      assert Join([path[..2]], BACKSLASH) == path[..2];
    } else {
      JoinTwo([path[..2]], names, BACKSLASH);
    }
  }

  /** The key IsInside compares: the resolved path, lowered. */
  function Key(t: Tables, path: Text): Text
    requires AreTables(t) && IsDriveAbsolute(path)
  {
    Lower(t, Resolved(path))
  }

  /** The same of any path, resolved from a setting. */
  function KeyFrom(s: NodePath.Setting, path: Text): Text
    requires AreTables(s.tables)
  {
    Lower(s.tables, NodePath.Resolution(s, path))
  }

  method FindKey(s: NodePath.Setting, value: Text) returns (key: Text)
    requires AreTables(s.tables)
    ensures key == KeyFrom(s, value)
  {
    key := NodePath.Resolve(s, value);
    key := ToLower(s.tables, key);
  }

  method IsInside(s: NodePath.Setting, root: Text, candidate: Text) returns (inside: bool)
    requires AreTables(s.tables)
    ensures inside == KeyInside(KeyFrom(s, root), KeyFrom(s, candidate))
  {
    var parent := FindKey(s, root);
    var child := FindKey(s, candidate);
    if child == parent { return true; }
    var prefix := if EndsWithBackslash(parent) then parent else parent + [BACKSLASH];
    return prefix <= child;
  }

  predicate KeyInside(parent: Text, child: Text) {
    child == parent || (if EndsWithBackslash(parent) then parent else parent + [BACKSLASH]) <= child
  }

  predicate EndsWithBackslash(s: Text) {
    s != [] && s[|s| - 1] == BACKSLASH
  }

  predicate Inside(t: Tables, root: Text, candidate: Text)
    requires AreTables(t) && IsDriveAbsolute(root) && IsDriveAbsolute(candidate)
  {
    KeyInside(Key(t, root), Key(t, candidate))
  }

  /** The drive and the names, lowered one by one. */
  function LowerPlace(t: Tables, path: Text): seq<Text>
    requires AreTables(t) && IsDriveAbsolute(path)
  {
    LowerAll(t, Place(path))
  }

  lemma {:induction false} LowerEmpty(t: Tables)
    requires AreTables(t)
    ensures Lower(t, []) == []
  {
  }

  lemma {:induction false} LowerSegments(t: Tables, place: seq<Text>)
    requires KeepsSeparators(t) && place != []
    ensures LowerAll(t, Segments(place)) == Segments(LowerAll(t, place))
  {
    if |place| == 1 {
      LowerEmpty(t);
      assert LowerAll(t, place + [[]]) == LowerAll(t, place) + [[]];
    }
  }

  lemma {:induction false} KeyIsLowered(t: Tables, path: Text)
    requires KeepsSeparators(t) && IsDriveAbsolute(path)
    ensures var lowered := LowerPlace(t, path);
      && lowered != [] && Key(t, path) == Join(Segments(lowered), BACKSLASH) && AllWhole(Segments(lowered))
      && forall i :: 0 <= i < |lowered| ==> lowered[i] != []
  {
    var place := Place(path);
    ResolvedIsPlace(path);
    LowerOfJoin(t, Segments(place));
    LowerSegments(t, place);
    forall i | 0 <= i < |place|
      ensures LowerAll(t, place)[i] != [] && Whole(LowerAll(t, place)[i])
    {
      assert place[i] == Segments(place)[i];
      LowerIsWhole(t, place[i], 0);
    }
  }

  /** Comparing keys by prefix compares places by prefix. */
  lemma {:induction false} KeysByPlace(a: seq<Text>, b: seq<Text>)
    requires a != [] && b != [] && AllWhole(Segments(a)) && AllWhole(Segments(b))
    requires (forall i :: 0 <= i < |a| ==> a[i] != []) && (forall i :: 0 <= i < |b| ==> b[i] != [])
    ensures var parent, child := Join(Segments(a), BACKSLASH), Join(Segments(b), BACKSLASH);
      (child == parent || (if EndsWithBackslash(parent) then parent else parent + [BACKSLASH]) <= child) <==> a <= b
  {
    var parent, child := Join(Segments(a), BACKSLASH), Join(Segments(b), BACKSLASH);
    assert AllWhole(a) by {
      assert forall i :: 0 <= i < |a| ==> a[i] == Segments(a)[i];
    }
    if child == parent {
      JoinInjective(Segments(a), Segments(b));
    }
    if |a| == 1 {
      JoinMore(a, [], BACKSLASH);
      assert parent == Join(a, BACKSLASH) + [BACKSLASH];
      assert parent[|parent| - 1] == BACKSLASH;
      PrefixOfJoin(a, Segments(b));
    } else {
      EndsWithName(a);
      PrefixOfJoin(a, Segments(b));
      assert Segments(a) == a;
      PrefixCases(a, Segments(b));
      assert a <= Segments(b) <==> a <= b by {
        assert |b| == 1 ==> Segments(b)[1] == [] && a[1] != [];
      }
    }
  }

  lemma {:induction false} PrefixCases(a: seq<Text>, b: seq<Text>)
    ensures a <= b <==> a == b || a < b
  {
    if a <= b && |a| == |b| {
      assert a == b;
    }
  }

  lemma {:induction false} EndsWithName(a: seq<Text>)
    requires |a| > 1 && AllWhole(a) && a[|a| - 1] != []
    ensures !EndsWithBackslash(Join(a, BACKSLASH))
  {
    var s, last := Join(a, BACKSLASH), a[|a| - 1];
    assert s[|s| - 1] == last[|last| - 1];
  }

  /** For drive-absolute paths, one is inside another exactly when the other's lowered drive and names are a prefix of
      its own: a sibling whose name merely begins with the root's name is outside. */
  lemma {:induction false} InsideIsPrefix(t: Tables, root: Text, candidate: Text)
    requires KeepsSeparators(t) && IsDriveAbsolute(root) && IsDriveAbsolute(candidate)
    ensures Inside(t, root, candidate) <==> LowerPlace(t, root) <= LowerPlace(t, candidate)
  {
    KeyIsLowered(t, root);
    KeyIsLowered(t, candidate);
    KeysByPlace(LowerPlace(t, root), LowerPlace(t, candidate));
  }

  /** Being inside is a partial order on places up to case: reflexive, transitive, and antisymmetric. */
  lemma {:induction false} InsideIsOrder(t: Tables, a: Text, b: Text, c: Text)
    requires KeepsSeparators(t) && IsDriveAbsolute(a) && IsDriveAbsolute(b) && IsDriveAbsolute(c)
    ensures Inside(t, a, a)
    ensures Inside(t, a, b) && Inside(t, b, c) ==> Inside(t, a, c)
    ensures Inside(t, a, b) && Inside(t, b, a) ==> LowerPlace(t, a) == LowerPlace(t, b)
  {
    InsideIsPrefix(t, a, a);
    InsideIsPrefix(t, a, b);
    InsideIsPrefix(t, b, c);
    InsideIsPrefix(t, a, c);
    InsideIsPrefix(t, b, a);
  }

  // ----- Relative paths

  function Slashed(s: Text): (r: Text)
    ensures |r| == |s|
  {
    if s == [] then [] else [if s[0] == BACKSLASH then SLASH else s[0]] + Slashed(s[1..])
  }

  lemma {:induction false} SlashedTwo(a: Text, b: Text)
    ensures Slashed(a + b) == Slashed(a) + Slashed(b)
  {
    if a == [] {
      assert a + b == b;
    } else {
      assert (a + b)[1..] == a[1..] + b;
      SlashedTwo(a[1..], b);
    }
  }

  lemma {:induction false} SlashedWhole(s: Text)
    requires Whole(s)
    ensures Slashed(s) == s
  {
    if s != [] {
      SlashedWhole(s[1..]);
      assert s == [s[0]] + s[1..];
    }
  }

  lemma {:induction false} SlashedJoin(segments: seq<Text>)
    requires AllWhole(segments)
    ensures Slashed(Join(segments, BACKSLASH)) == Join(segments, SLASH)
  {
    var n := |segments| - 1;
    if n == 0 {
      SlashedWhole(segments[0]);
    } else if n > 0 {
      SlashedJoin(segments[..n]);
      SlashedTwo(Join(segments[..n], BACKSLASH), [BACKSLASH] + segments[n]);
      SlashedTwo([BACKSLASH], segments[n]);
      SlashedWhole(segments[n]);
      assert Slashed([BACKSLASH]) == [SLASH] + Slashed([BACKSLASH][1..]);
    }
  }

  /** A text with "/" separators is the join of its segments. */
  lemma {:induction false} SlashedIsJoin(s: Text)
    ensures Slashed(s) == Join(Split(s), SLASH)
  {
    if s != [] {
      SlashedIsJoin(s[1..]);
      var rest := Split(s[1..]);
      if IsSeparator(s[0]) {
        JoinTwo([[]], rest, SLASH);
        assert [] + ([SLASH] + Join(rest, SLASH)) == [SLASH] + Join(rest, SLASH);
      } else {
        JoinAttach(s[0], rest);
      }
    }
  }

  lemma {:induction false} JoinAttach(u: Unit, segments: seq<Text>)
    requires segments != [] && !IsSeparator(u)
    ensures Join(Attach(u, segments), SLASH) == [u] + Join(segments, SLASH)
  {
    var rest := segments[1..];
    assert segments == [segments[0]] + rest;
    if rest != [] {
      JoinTwo([segments[0]], rest, SLASH);
      JoinTwo([[u] + segments[0]], rest, SLASH);
    }
  }

  /** path.relative with "/" separators, of resolved paths and their keys; nothing when the cut would lie past the end,
      where the source throws. */
  function RelativeOf(parent: Text, child: Text, sameKey: bool): Option<Text> {
    var length := if EndsWithBackslash(parent) then |parent| else |parent| + 1;
    if sameKey then Some([]) else if length > |child| then None else Some(Slashed(child[length..]))
  }

  function Relative(t: Tables, root: Text, target: Text): Option<Text>
    requires AreTables(t) && IsDriveAbsolute(root) && IsDriveAbsolute(target)
  {
    RelativeOf(Resolved(root), Resolved(target), Key(t, target) == Key(t, root))
  }

  function RelativeFrom(s: NodePath.Setting, root: Text, target: Text): Option<Text>
    requires AreTables(s.tables)
  {
    var parent, child := NodePath.Resolution(s, root), NodePath.Resolution(s, target);
    RelativeOf(parent, child, KeyFrom(s, child) == KeyFrom(s, parent))
  }

  method PortableRelative(s: NodePath.Setting, root: Text, target: Text) returns (r: Option<Text>)
    requires AreTables(s.tables)
    ensures r == RelativeFrom(s, root, target)
  {
    var parent := NodePath.Resolve(s, root);
    var child := NodePath.Resolve(s, target);
    var left := FindKey(s, child);
    var right := FindKey(s, parent);
    if left == right { return Some([]); }
    var length := if EndsWithBackslash(parent) then |parent| else |parent| + 1;
    if length > |child| { return None; }
    return Some(Slashed(child[length..]));
  }

  // ----- The methods and drive-absolute paths

  /** For drive-absolute paths the methods compare and cut as Inside and Relative do, in any setting. */
  lemma {:induction false} DriveAbsoluteCompare(s: NodePath.Setting, root: Text, candidate: Text)
    requires AreTables(s.tables) && IsDriveAbsolute(root) && IsDriveAbsolute(candidate)
    ensures KeyInside(KeyFrom(s, root), KeyFrom(s, candidate)) <==> Inside(s.tables, root, candidate)
    ensures RelativeFrom(s, root, candidate) == Relative(s.tables, root, candidate)
  {
    ResolveIdempotent(root);
    ResolveIdempotent(candidate);
    NodePath.DriveAbsoluteAlone(s, root);
    NodePath.DriveAbsoluteAlone(s, candidate);
    NodePath.DriveAbsoluteAlone(s, Resolved(root));
    NodePath.DriveAbsoluteAlone(s, Resolved(candidate));
  }

  // ----- Paths that lead to drives

  /** A path leads to a place on a drive. */
  predicate LandsOnDrive(s: NodePath.Setting, path: Text)
    requires AreTables(s.tables)
  {
    && NodePath.IsRooted(s.current) && !NodePath.IsFast(s, path)
    && (var folder := s.drives(NodePath.RootOf(path).device); folder == [] || NodePath.IsRooted(folder))
    && (var spot := NodePath.Landing(s, path); spot.Some? && NodePath.IsDrive(spot.value.device))
  }

  /** That place, as a drive-absolute path. */
  function Landed(s: NodePath.Setting, path: Text): Text
    requires AreTables(s.tables) && LandsOnDrive(s, path)
  {
    NodePath.Show(NodePath.Landing(s, path).value)
  }

  lemma {:induction false} LandedIsResolved(s: NodePath.Setting, path: Text)
    requires AreTables(s.tables) && LandsOnDrive(s, path)
    ensures IsDriveAbsolute(Landed(s, path))
    ensures NodePath.Resolution(s, path) == Landed(s, path) == Resolved(Landed(s, path))
    ensures Place(Landed(s, path)) == [NodePath.Landing(s, path).value.device] + NodePath.Landing(s, path).value.names
  {
    var spot := NodePath.Landing(s, path).value;
    NodePath.ResolvesToLanding(s, path);
    NodePath.LandingIsSpot(s, path);
    NodePath.DriveDevice(spot.device);
    NodePath.ShowReadsBack(spot);
    NodePath.DriveAbsoluteAlone(s, NodePath.Show(spot));
  }

  /** Paths that lead to drives are compared, and made relative, as the drive-absolute paths of the places they lead to. */
  lemma {:induction false} LandedCompare(s: NodePath.Setting, root: Text, candidate: Text)
    requires AreTables(s.tables) && LandsOnDrive(s, root) && LandsOnDrive(s, candidate)
    ensures IsDriveAbsolute(Landed(s, root)) && IsDriveAbsolute(Landed(s, candidate))
    ensures KeyInside(KeyFrom(s, root), KeyFrom(s, candidate)) <==> Inside(s.tables, Landed(s, root), Landed(s, candidate))
    ensures RelativeFrom(s, root, candidate) == Relative(s.tables, Landed(s, root), Landed(s, candidate))
  {
    LandedIsResolved(s, root);
    LandedIsResolved(s, candidate);
    NodePath.DriveAbsoluteAlone(s, Landed(s, root));
    NodePath.DriveAbsoluteAlone(s, Landed(s, candidate));
  }

  /** For paths that lead to drives, one is inside another exactly when the other's lowered drive and names are a prefix of
      its own. */
  lemma {:induction false} LandedInsideIsPrefix(s: NodePath.Setting, root: Text, candidate: Text)
    requires KeepsSeparators(s.tables) && LandsOnDrive(s, root) && LandsOnDrive(s, candidate)
    ensures IsDriveAbsolute(Landed(s, root)) && IsDriveAbsolute(Landed(s, candidate))
    ensures KeyInside(KeyFrom(s, root), KeyFrom(s, candidate)) <==>
            LowerPlace(s.tables, Landed(s, root)) <= LowerPlace(s.tables, Landed(s, candidate))
  {
    LandedCompare(s, root, candidate);
    InsideIsPrefix(s.tables, Landed(s, root), Landed(s, candidate));
  }

  /** The names of a target below a root it is inside of. */
  function Below(root: Text, target: Text): seq<Text>
    requires IsDriveAbsolute(root) && IsDriveAbsolute(target) && |Place(root)| <= |Place(target)|
  {
    Place(target)[|Place(root)|..]
  }

  /** How long a place's spelling is up to and with the separator that follows it. */
  function Spelled(place: seq<Text>): nat {
    if place == [] then 0 else Spelled(place[..|place| - 1]) + |place[|place| - 1]| + 1
  }

  lemma {:induction false} JoinLength(segments: seq<Text>)
    requires segments != []
    ensures |Join(segments, BACKSLASH)| + 1 == Spelled(segments)
  {
    var n := |segments| - 1;
    if n > 0 {
      JoinLength(segments[..n]);
    } else {
      assert segments[..0] == [];
    }
  }

  /** Where the source cuts: after the root's spelling and one separator. */
  lemma {:induction false} CutLength(root: Text)
    requires IsDriveAbsolute(root)
    ensures var parent := Resolved(root);
      (if EndsWithBackslash(parent) then |parent| else |parent| + 1) == Spelled(Place(root))
  {
    var place, parent := Place(root), Resolved(root);
    ResolvedIsPlace(root);
    if |place| == 1 {
      JoinMore(place, [], BACKSLASH);
      assert parent == Join(place, BACKSLASH) + [BACKSLASH];
      JoinLength(place);
    } else {
      assert forall i :: 0 <= i < |place| ==> place[i] == Segments(place)[i];
      EndsWithName(place);
      JoinLength(place);
    }
  }

  /** The resolved target after so many of its names. */
  lemma {:induction false} SpelledAfter(target: Text, n: nat)
    requires IsDriveAbsolute(target) && 0 < n < |Place(target)|
    ensures var child, head, rest := Resolved(target), Place(target)[..n], Place(target)[n..];
      Spelled(head) <= |child| && child[Spelled(head)..] == Join(rest, BACKSLASH) && AllWhole(rest)
  {
    var place := Place(target);
    var head, rest := place[..n], place[n..];
    ResolvedIsPlace(target);
    assert forall i :: 0 <= i < |place| ==> place[i] == Segments(place)[i];
    assert place == head + rest;
    JoinTwo(head, rest, BACKSLASH);
    JoinLength(head);
  }

  /** Where the source cuts a path that has some names left after `m` units: they come out exactly when it cuts there. */
  lemma {:induction false} CutsExactly(parent: Text, child: Text, m: nat, rest: seq<Text>)
    requires m <= |child| && child[m..] == Join(rest, BACKSLASH) && AllWhole(rest)
    ensures RelativeOf(parent, child, false) == Some(Join(rest, SLASH)) <==>
            m == if EndsWithBackslash(parent) then |parent| else |parent| + 1
  {
    SlashedJoin(rest);
  }

  /** For a target strictly inside the root, the relative path is right exactly when the root's names are spelled as long
      in the target as in the root. Lowering can change a name's length, so that is not always so. */
  lemma {:induction false} RelativeIsExact(t: Tables, root: Text, target: Text)
    requires KeepsSeparators(t) && IsDriveAbsolute(root) && IsDriveAbsolute(target)
    requires Inside(t, root, target) && |Place(root)| < |Place(target)|
    ensures Relative(t, root, target) == Some(Join(Below(root, target), SLASH)) <==>
            Spelled(Place(target)[..|Place(root)|]) == Spelled(Place(root))
  {
    DifferentKeys(t, root, target);
    BelowIsExact(root, target);
  }

  lemma {:induction false} BelowIsExact(root: Text, target: Text)
    requires IsDriveAbsolute(root) && IsDriveAbsolute(target) && |Place(root)| < |Place(target)|
    ensures RelativeOf(Resolved(root), Resolved(target), false) == Some(Join(Below(root, target), SLASH)) <==>
            Spelled(Place(target)[..|Place(root)|]) == Spelled(Place(root))
  {
    var n := |Place(root)|;
    CutLength(root);
    SpelledAfter(target, n);
    CutsExactly(Resolved(root), Resolved(target), Spelled(Place(target)[..n]), Place(target)[n..]);
  }

  lemma {:induction false} DifferentKeys(t: Tables, root: Text, target: Text)
    requires KeepsSeparators(t) && IsDriveAbsolute(root) && IsDriveAbsolute(target) && |Place(root)| != |Place(target)|
    ensures Key(t, target) != Key(t, root)
  {
    KeyIsLowered(t, root);
    KeyIsLowered(t, target);
    SegmentsDiffer(LowerPlace(t, root), LowerPlace(t, target));
    if Key(t, target) == Key(t, root) {
      JoinInjective(Segments(LowerPlace(t, root)), Segments(LowerPlace(t, target)));
    }
  }

  lemma {:induction false} SegmentsDiffer(a: seq<Text>, b: seq<Text>)
    requires a != [] && b != [] && |a| != |b|
    requires (forall i :: 0 <= i < |a| ==> a[i] != []) && (forall i :: 0 <= i < |b| ==> b[i] != [])
    ensures Segments(a) != Segments(b)
  {
    if |a| == 1 && |b| == 2 {
      assert Segments(a)[1] == [] && Segments(b)[1] == b[1];
    }
    if |b| == 1 && |a| == 2 {
      assert Segments(b)[1] == [] && Segments(a)[1] == a[1];
    }
  }

  // ----- Admitted relative paths

  datatype Refusal = Required | Absolute | Forbidden

  /** A name the rules deny; `listed` stands for the reserved device names and the names of secrets. */
  predicate IsDeniedName(t: Tables, listed: Text -> bool, name: Text)
    requires AreTables(t)
  {
    || Lower(t, name) == [DOT, 0x67, 0x69, 0x74]
    || COLON in name
    || (name != [] && (name[|name| - 1] == DOT || name[|name| - 1] == SPACE))
    || listed(name)
  }

  predicate IsForbidden(t: Tables, listed: Text -> bool, segment: Text)
    requires AreTables(t)
  {
    segment == [] || segment == HERE || segment == UP || IsDeniedName(t, listed, segment)
  }

  predicate IsRooted(path: Text)
    requires path != []
  {
    IsSeparator(path[0]) || (|path| >= 2 && IsAsciiLetter(path[0]) && path[1] == COLON)
  }

  /** What a path is refused for, if anything. */
  function Refused(t: Tables, listed: Text -> bool, path: Text, allowEmpty: bool): Option<Refusal>
    requires AreTables(t)
  {
    if path == [] then if allowEmpty then None else Some(Required)
    else if NUL in path then Some(Forbidden)
    else if IsRooted(path) then Some(Absolute)
    else if exists i :: 0 <= i < |Split(path)| && IsForbidden(t, listed, Split(path)[i]) then Some(Forbidden)
    else None
  }

  method ValidateRelative(t: Tables, listed: Text -> bool, relativePath: Text, allowEmpty: bool)
    returns (refusal: Option<Refusal>)
    requires AreTables(t)
    ensures refusal == Refused(t, listed, relativePath, allowEmpty)
  {
    if !allowEmpty && |relativePath| == 0 { return Some(Required); }
    if |relativePath| == 0 { return None; }
    if NUL in relativePath { return Some(Forbidden); }
    if IsRooted(relativePath) { return Some(Absolute); }
    var segments := Split(relativePath);
    for i := 0 to |segments|
      invariant forall k :: 0 <= k < i ==> !IsForbidden(t, listed, segments[k])
    {
      if IsForbidden(t, listed, segments[i]) { return Some(Forbidden); }
    }
    return None;
  }

  /** A segment that no rule forbids. */
  predicate IsAllowed(t: Tables, listed: Text -> bool, segment: Text)
    requires AreTables(t)
  {
    && segment != Units("") && segment != Units(".") && segment != Units("..")
    && Lower(t, segment) != Units(".git") && !listed(segment)
    && ':' as int !in segment
    && segment[|segment| - 1] != '.' as int && segment[|segment| - 1] != ' ' as int
  }

  /** It begins with a separator or with a drive. */
  predicate BeginsAtRoot(path: Text) {
    || Units("/") <= path || Units("\\") <= path
    || (|path| >= 2 && path[1] == ':' as int
        && ('a' as int <= path[0] <= 'z' as int || 'A' as int <= path[0] <= 'Z' as int))
  }

  lemma {:induction false} ForbiddenIs(t: Tables, listed: Text -> bool, segment: Text)
    requires AreTables(t)
    ensures IsForbidden(t, listed, segment) <==> !IsAllowed(t, listed, segment)
  {
    assert Units(".git") == [DOT, 0x67, 0x69, 0x74];
    assert Units(".") == HERE && Units("..") == UP && Units("") == [];
  }

  predicate AreAllowed(t: Tables, listed: Text -> bool, segments: seq<Text>)
    requires AreTables(t)
  {
    forall i :: 0 <= i < |segments| ==> IsAllowed(t, listed, segments[i])
  }

  lemma {:induction false} SegmentsAllowed(t: Tables, listed: Text -> bool, segments: seq<Text>)
    requires AreTables(t)
    ensures AreAllowed(t, listed, segments) <==> !exists i :: 0 <= i < |segments| && IsForbidden(t, listed, segments[i])
  {
    forall i | 0 <= i < |segments|
      ensures IsForbidden(t, listed, segments[i]) <==> !IsAllowed(t, listed, segments[i])
    {
      ForbiddenIs(t, listed, segments[i]);
    }
  }

  lemma {:induction false} RootedIs(path: Text)
    requires path != []
    ensures IsRooted(path) <==> BeginsAtRoot(path)
  {
    assert Units("/") == [SLASH] && Units("\\") == [BACKSLASH];
    assert [SLASH] <= path <==> path[0] == SLASH;
    assert [BACKSLASH] <= path <==> path[0] == BACKSLASH;
  }

  /** Exactly which relative paths are refused, and for what. */
  lemma {:induction false} RefusedExactly(t: Tables, listed: Text -> bool, path: Text, allowEmpty: bool)
    requires AreTables(t)
    ensures var refusal := Refused(t, listed, path, allowEmpty);
      && (refusal == Some(Required) <==> path == [] && !allowEmpty)
      && (refusal == Some(Absolute) <==> path != [] && 0 !in path && BeginsAtRoot(path))
      && (refusal == None <==>
            if path == [] then allowEmpty
            else 0 !in path && !BeginsAtRoot(path) && AreAllowed(t, listed, Split(path)))
  {
    SegmentsAllowed(t, listed, Split(path));
    if path != [] {
      RootedIs(path);
    }
  }

  /** The tables lower the letters of ".git", and leave its dot. */
  predicate LowersGit(t: Tables) {
    && 0x47 in t.lower && t.lower[0x47] == Units("g") && 0x67 !in t.lower
    && 0x49 in t.lower && t.lower[0x49] == Units("i") && 0x69 !in t.lower
    && 0x54 in t.lower && t.lower[0x54] == Units("t") && 0x74 !in t.lower
    && 0x2E !in t.lower
  }

  /** Such a spelling of ".git". */
  predicate IsGit(name: Text) {
    && |name| == 4 && name[0] == '.' as int
    && (name[1] == 'g' as int || name[1] == 'G' as int)
    && (name[2] == 'i' as int || name[2] == 'I' as int)
    && (name[3] == 't' as int || name[3] == 'T' as int)
  }

  lemma {:induction false} LowerOfGit(t: Tables, name: Text)
    requires AreTables(t) && LowersGit(t) && IsGit(name)
    ensures Lower(t, name) == Units(".git")
  {
    assert name[0..1] == Units(".");
    assert name[1..2] == [name[1]] && name[2..3] == [name[2]] && name[3..4] == [name[3]];
    assert LowerAt(t, name, 0) == Units(".") && LowerAt(t, name, 1) == Units("g");
    assert LowerAt(t, name, 2) == Units("i") && LowerAt(t, name, 3) == Units("t");
    assert LowerFrom(t, name, 4) == [];
    assert LowerFrom(t, name, 3) == Units("t");
    assert LowerFrom(t, name, 2) == Units("it");
    assert LowerFrom(t, name, 1) == Units("git");
  }

  /** No path with ".git" among its segments, in either case of each letter, is admitted. */
  lemma {:induction false} GitIsRefused(t: Tables, listed: Text -> bool, path: Text, allowEmpty: bool, i: nat)
    requires AreTables(t) && LowersGit(t) && path != [] && i < |Split(path)| && IsGit(Split(path)[i])
    ensures Refused(t, listed, path, allowEmpty).Some?
  {
    LowerOfGit(t, Split(path)[i]);
    RefusedExactly(t, listed, path, allowEmpty);
  }

  /** System.IO.Path.Join with an admitted relative path, or with "." for the empty one. */
  function Joined(root: Text, relativePath: Text): Text {
    var path := if relativePath == [] then HERE else relativePath;
    if root != [] && IsSeparator(root[|root| - 1]) then root + path else root + ([BACKSLASH] + path)
  }

  lemma {:induction false} JoinedPlace(root: Text, path: Text)
    requires IsDriveAbsolute(root)
    ensures IsDriveAbsolute(Joined(root, path))
    ensures var segments := Split(if path == [] then HERE else path);
      Joined(root, path)[..2] == root[..2] && Names(Joined(root, path)) == Fold(Names(root), segments, false)
  {
    var p := if path == [] then HERE else path;
    if IsSeparator(root[|root| - 1]) {
      ResolveBeside(root, p);
    } else {
      ResolveBelow(root, BACKSLASH, p);
    }
  }

  lemma {:induction false} AdmittedAreNames(t: Tables, listed: Text -> bool, path: Text, allowEmpty: bool)
    requires AreTables(t) && path != [] && Refused(t, listed, path, allowEmpty) == None
    ensures AllNames(Split(path))
  {
    SplitsWhole(path);
    forall i | 0 <= i < |Split(path)|
      ensures IsName(Split(path)[i])
    {
      assert !IsForbidden(t, listed, Split(path)[i]);
    }
  }

  lemma {:induction false} FoldNames(stack: seq<Text>, names: seq<Text>)
    requires AllNames(names)
    ensures Fold(stack, names, false) == stack + names
    decreases |names|
  {
    if names == [] {
      assert stack + names == stack;
    } else {
      FoldNames(stack + [names[0]], names[1..]);
      assert (stack + [names[0]]) + names[1..] == stack + names;
    }
  }

  /** An admitted path joined to the root leads to the root's place and then through the path's own segments. */
  lemma {:induction false} AdmittedPlace(t: Tables, listed: Text -> bool, root: Text, path: Text, allowEmpty: bool)
    requires AreTables(t) && IsDriveAbsolute(root) && Refused(t, listed, path, allowEmpty) == None
    ensures IsDriveAbsolute(Joined(root, path))
    ensures Place(Joined(root, path)) == Place(root) + if path == [] then [] else Split(path)
  {
    JoinedPlace(root, path);
    if path == [] {
      SplitOne(HERE);
      assert Fold(Names(root), [HERE], false) == Fold(Push(Names(root), HERE, false), [], false);
    } else {
      AdmittedAreNames(t, listed, path, allowEmpty);
      FoldNames(Names(root), Split(path));
    }
  }

  lemma {:induction false} LowerAllTwo(t: Tables, a: seq<Text>, b: seq<Text>)
    requires AreTables(t)
    ensures LowerAll(t, a) <= LowerAll(t, a + b)
  {
    forall i | 0 <= i < |a|
      ensures LowerAll(t, a + b)[i] == LowerAll(t, a)[i]
    {
      assert (a + b)[i] == a[i];
    }
  }

  /** Every admitted path joins to a place inside the root, and its relative path is the one given, with "/". */
  lemma {:induction false} AdmittedIsInside(t: Tables, listed: Text -> bool, root: Text, path: Text, allowEmpty: bool)
    requires KeepsSeparators(t) && IsDriveAbsolute(root) && Refused(t, listed, path, allowEmpty) == None
    ensures IsDriveAbsolute(Joined(root, path)) && Inside(t, root, Resolved(Joined(root, path)))
    ensures Relative(t, root, Resolved(Joined(root, path))) == Some(Slashed(path))
  {
    var candidate := Joined(root, path);
    var target := Resolved(candidate);
    AdmittedPlace(t, listed, root, path, allowEmpty);
    ResolvedNames(candidate);
    assert Place(target) == Place(candidate);
    LowerAllTwo(t, Place(root), if path == [] then [] else Split(path));
    InsideIsPrefix(t, root, target);
    if path == [] {
      SamePlaceSameKey(t, root, target);
    } else {
      assert Place(target)[..|Place(root)|] == Place(root);
      assert Below(root, target) == Split(path);
      RelativeIsExact(t, root, target);
      SlashedIsJoin(path);
    }
  }

  /** So the methods find every admitted path inside a drive-absolute root and give it back, in any setting. */
  lemma {:induction false} AdmittedIsInsideFrom(s: NodePath.Setting, listed: Text -> bool, root: Text, path: Text,
                                                allowEmpty: bool)
    requires KeepsSeparators(s.tables) && IsDriveAbsolute(root) && Refused(s.tables, listed, path, allowEmpty) == None
    ensures KeyInside(KeyFrom(s, root), KeyFrom(s, Joined(root, path)))
    ensures RelativeFrom(s, root, Joined(root, path)) == Some(Slashed(path))
  {
    var candidate := Joined(root, path);
    AdmittedIsInside(s.tables, listed, root, path, allowEmpty);
    ResolveIdempotent(candidate);
    DriveAbsoluteCompare(s, root, candidate);
  }

  lemma {:induction false} SamePlaceSameKey(t: Tables, a: Text, b: Text)
    requires AreTables(t) && IsDriveAbsolute(a) && IsDriveAbsolute(b) && Place(a) + [] == Place(b)
    ensures Key(t, a) == Key(t, b)
  {
    ResolvedIsPlace(a);
    ResolvedIsPlace(b);
    assert Place(a) + [] == Place(a);
  }

  // ----- Where the relative path goes wrong

  const DOTTED_I: Unit := 0x0130
  const SMALL_I: Unit := 0x69
  const DOT_ABOVE: Unit := 0x0307

  /** Some rows of the tables. */
  predicate LowersDottedI(t: Tables) {
    && DOTTED_I in t.lower && t.lower[DOTTED_I] == [SMALL_I, DOT_ABOVE]
    && SMALL_I !in t.lower && DOT_ABOVE !in t.lower
  }

  lemma {:induction false} LowerDottedI(t: Tables)
    requires AreTables(t) && LowersDottedI(t)
    ensures Lower(t, [DOTTED_I]) == [SMALL_I, DOT_ABOVE] == Lower(t, [SMALL_I, DOT_ABOVE])
  {
    var s: Text := [SMALL_I, DOT_ABOVE];
    assert LowerAt(t, [DOTTED_I], 0) == s && LowerFrom(t, [DOTTED_I], 1) == [];
    assert s[0..1] == [SMALL_I] && s[1..2] == [DOT_ABOVE];
    assert LowerFrom(t, s, 2) == [];
    assert LowerFrom(t, s, 1) == [DOT_ABOVE];
  }

  /** Two spellings of one name, up to case, whose lengths differ: the target is inside, and its relative path is wrong. */
  lemma {:induction false} RelativeGoesWrong(t: Tables, drive: Unit, name: Text)
    requires KeepsSeparators(t) && LowersDottedI(t) && IsAsciiLetter(drive) && IsName(name)
    ensures var root: Text := [drive, COLON, BACKSLASH, DOTTED_I];
            var target: Text := [drive, COLON, BACKSLASH, SMALL_I, DOT_ABOVE] + ([BACKSLASH] + name);
      && IsDriveAbsolute(root) && IsDriveAbsolute(target) && Inside(t, root, target)
      && |Place(root)| == 2 && |Place(target)| == 3
      && Relative(t, root, target) != Some(Join(Below(root, target), SLASH))
  {
    var root: Text := [drive, COLON, BACKSLASH, DOTTED_I];
    var folder: Text := [SMALL_I, DOT_ABOVE];
    var target: Text := [drive, COLON, BACKSLASH, SMALL_I, DOT_ABOVE] + ([BACKSLASH] + name);
    OneName(root, [DOTTED_I]);
    assert target[3..] == folder + ([BACKSLASH] + name);
    FolderAndName(target, folder, name);
    LowerDottedI(t);
    TwoNames(t, root, target, [DOTTED_I], folder, name);
  }

  lemma {:induction false} OneName(path: Text, name: Text)
    requires IsDriveAbsolute(path) && path[3..] == name && IsName(name)
    ensures Names(path) == [name]
  {
    SplitOne(name);
    FoldNames([], [name]);
    assert [] + [name] == [name];
  }

  lemma {:induction false} FolderAndName(path: Text, folder: Text, name: Text)
    requires IsDriveAbsolute(path) && path[3..] == folder + ([BACKSLASH] + name) && IsName(folder) && IsName(name)
    ensures Names(path) == [folder, name]
  {
    SplitAt(folder, BACKSLASH, name);
    SplitOne(folder);
    SplitOne(name);
    FoldNames([], [folder, name]);
    assert [folder] + [name] == [folder, name] && [] + [folder, name] == [folder, name];
  }

  lemma {:induction false} TwoNames(t: Tables, root: Text, target: Text, a: Text, b: Text, name: Text)
    requires KeepsSeparators(t) && IsDriveAbsolute(root) && IsDriveAbsolute(target) && root[..2] == target[..2]
    requires Names(root) == [a] && Names(target) == [b, name] && Lower(t, a) == Lower(t, b) && |a| != |b|
    ensures Inside(t, root, target) && |Place(root)| == 2 && |Place(target)| == 3
    ensures Relative(t, root, target) != Some(Join(Below(root, target), SLASH))
  {
    var left, right := Place(root), Place(target);
    InsideIsPrefix(t, root, target);
    assert left == [root[..2], a] && right == [root[..2], b, name];
    assert right[..2] == [root[..2], b];
    assert left[..1] == right[..2][..1];
    RelativeIsExact(t, root, target);
  }
}
