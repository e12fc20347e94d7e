/**
 NodeWin32Path.Resolve: path.win32.resolve of one path against the current directory and the directories that drives
 remember. A path resolves to where it leads from its root, or from the folder it stands in.
 */
module NodePath {
  import opened Utf16
  import opened Wrappers
  import opened WindowsPath
  import opened FinalPath
  import opened EcmaScriptCase

  const QUESTION: Unit := 0x3F

  // ----- The root of a path

  /** A path's device, where its folders begin, and whether they begin at the root. */
  datatype Root = Root(device: Text, rootEnd: nat, isAbsolute: bool)

  /** Where the next separator is, or the end. */
  function NameEnd(path: Text, i: nat): (end: nat)
    requires i <= |path|
    ensures i <= end <= |path|
    decreases |path| - i
  {
    if i < |path| && !IsSeparator(path[i]) then NameEnd(path, i + 1) else i
  }

  /** Where the separators from here end. */
  function SeparatorsEnd(path: Text, i: nat): (end: nat)
    requires i <= |path|
    ensures i <= end <= |path|
    decreases |path| - i
  {
    if i < |path| && IsSeparator(path[i]) then SeparatorsEnd(path, i + 1) else i
  }

  predicate IsDrive(path: Text) {
    |path| >= 2 && IsAsciiLetter(path[0]) && path[1] == COLON
  }

  /** A path that begins with two separators: a server and a share, a device, or no root that has a name. */
  function NetworkRoot(path: Text): (r: Root)
    requires |path| >= 2
    ensures r.rootEnd <= |path|
  {
    var first := NameEnd(path, 2);
    var second := SeparatorsEnd(path, first);
    if first == 2 || first == |path| || second == |path| then Root([], 0, true)
    else
      var host := path[2..first];
      if host == HERE || host == [QUESTION] then Root([BACKSLASH, BACKSLASH] + host, 4, true)
      else
        var end := NameEnd(path, second);
        Root([BACKSLASH, BACKSLASH] + host + ([BACKSLASH] + path[second..end]), end, true)
  }

  function RootOf(path: Text): (r: Root)
    ensures r.rootEnd <= |path|
  {
    if path == [] then Root([], 0, false)
    else if IsSeparator(path[0]) then
      if |path| > 1 && IsSeparator(path[1]) then NetworkRoot(path) else Root([], 1, true)
    else if IsDrive(path) then
      if |path| > 2 && IsSeparator(path[2]) then Root(path[..2], 3, true) else Root(path[..2], 2, false)
    else Root([], 0, false)
  }

  lemma {:induction false} NameEndFrom(path: Text, i: nat, k: nat)
    requires i <= k <= |path| && forall m :: i <= m < k ==> !IsSeparator(path[m])
    ensures NameEnd(path, i) == NameEnd(path, k)
    decreases k - i
  {
    if i < k {
      NameEndFrom(path, i + 1, k);
    }
  }

  lemma {:induction false} SeparatorsEndFrom(path: Text, i: nat, k: nat)
    requires i <= k <= |path| && forall m :: i <= m < k ==> IsSeparator(path[m])
    ensures SeparatorsEnd(path, i) == SeparatorsEnd(path, k)
    decreases k - i
  {
    if i < k {
      SeparatorsEndFrom(path, i + 1, k);
    }
  }

  method SkipName(path: Text, i: nat) returns (j: nat)
    requires i <= |path|
    ensures j == NameEnd(path, i)
  {
    j := i;
    while j < |path| && !IsSeparator(path[j])
      invariant i <= j <= |path| && NameEnd(path, j) == NameEnd(path, i)
    {
      j := j + 1;
    }
  }

  method SkipSeparators(path: Text, i: nat) returns (j: nat)
    requires i <= |path|
    ensures j == SeparatorsEnd(path, i)
  {
    j := i;
    while j < |path| && IsSeparator(path[j])
      invariant i <= j <= |path| && SeparatorsEnd(path, j) == SeparatorsEnd(path, i)
    {
      j := j + 1;
    }
  }

  /** Where a scan stops, and that it moves when it can. */
  lemma {:induction false} Stops(path: Text, i: nat)
    requires i <= |path|
    ensures forall m :: i <= m < NameEnd(path, i) ==> !IsSeparator(path[m])
    ensures NameEnd(path, i) < |path| ==> IsSeparator(path[NameEnd(path, i)])
    ensures forall m :: i <= m < SeparatorsEnd(path, i) ==> IsSeparator(path[m])
    ensures SeparatorsEnd(path, i) < |path| ==> !IsSeparator(path[SeparatorsEnd(path, i)])
    decreases |path| - i
  {
    if i < |path| {
      Stops(path, i + 1);
    }
  }

  method FindRoot(path: Text) returns (r: Root)
    ensures r == RootOf(path)
  {
    var length := |path|;
    if length == 0 { return Root([], 0, false); }
    if length == 1 {
      return if IsSeparator(path[0]) then Root([], 1, true) else Root([], 0, false);
    }
    if IsSeparator(path[0]) {
      if !IsSeparator(path[1]) { return Root([], 1, true); }
      var last := 2;
      var j := SkipName(path, last);
      if j < length && j != last {
        var firstPart := path[last..j];
        last := j;
        Stops(path, 2);
        j := SkipSeparators(path, last);
        Stops(path, last);
        if j < length && j != last {
          last := j;
          j := SkipName(path, last);
          if j == length || j != last {
            if firstPart != HERE && firstPart != [QUESTION] {
              return Root([BACKSLASH, BACKSLASH] + firstPart + ([BACKSLASH] + path[last..j]), j, true);
            }
            return Root([BACKSLASH, BACKSLASH] + firstPart, 4, true);
          }
        }
      }
      return Root([], 0, true);
    }
    if IsAsciiLetter(path[0]) && path[1] == COLON {
      return if length > 2 && IsSeparator(path[2]) then Root(path[..2], 3, true) else Root(path[..2], 2, false);
    }
    return Root([], 0, false);
  }

  // ----- Resolving

  /** The case tables, the current directory, and the directory that each drive remembers, if any. */
  datatype Setting = Setting(tables: Tables, current: Text, drives: Text -> Text)

  predicate Same(t: Tables, left: Text, right: Text)
    requires AreTables(t)
  {
    Lower(t, left) == Lower(t, right)
  }

  /** The folder that a path on a device, or on none, is resolved against. */
  function Base(s: Setting, device: Text): Text
    requires AreTables(s.tables)
  {
    if device == [] then s.current
    else
      var base := if s.drives(device) != [] then s.drives(device) else s.current;
      if |base| > 2 && !Same(s.tables, base[..2], device) && base[2] == BACKSLASH then device + [BACKSLASH] else base
  }

  function Shown(device: Text, tail: Text, isAbsolute: bool): Text {
    if isAbsolute then device + ([BACKSLASH] + Normalized(tail, false))
    else
      var relative := device + Normalized(tail, true);
      if relative == [] then HERE else relative
  }

  predicate IsFast(s: Setting, path: Text) {
    (path == [] || path == HERE) && s.current != [] && IsSeparator(s.current[0])
  }

  /** What is left of a path after its root, with a separator. */
  function TailOf(path: Text): Text {
    if path == [] then [] else path[RootOf(path).rootEnd..] + [BACKSLASH]
  }

  /** The path first, and then the folder it is resolved against unless the path is rooted. */
  function Resolution(s: Setting, path: Text): Text
    requires AreTables(s.tables)
  {
    var root, tail := RootOf(path), TailOf(path);
    if IsFast(s, path) then s.current
    else if root.isAbsolute && root.device != [] then Shown(root.device, tail, true)
    else
      var base := Base(s, root.device);
      var under := RootOf(base);
      if root.device != [] && under.device != [] && !Same(s.tables, under.device, root.device) then
        Shown(root.device, tail, root.isAbsolute)
      else
        var device := if root.device != [] then root.device else under.device;
        if root.isAbsolute then Shown(device, tail, true)
        else Shown(device, base[under.rootEnd..] + ([BACKSLASH] + tail), under.isAbsolute)
  }

  method SameDevice(t: Tables, left: Text, right: Text) returns (same: bool)
    requires AreTables(t)
    ensures same == Same(t, left, right)
  {
    var a := ToLower(t, left);
    var b := ToLower(t, right);
    return a == b;
  }

  method FindBase(s: Setting, resolvedDevice: Text) returns (current: Text)
    requires AreTables(s.tables)
    ensures current == Base(s, resolvedDevice)
  {
    if |resolvedDevice| == 0 { return s.current; }
    var driveDirectory := s.drives(resolvedDevice);
    current := if |driveDirectory| > 0 then driveDirectory else s.current;
    if |current| > 2 {
      var same := SameDevice(s.tables, current[..2], resolvedDevice);
      if !same && current[2] == BACKSLASH { current := resolvedDevice + [BACKSLASH]; }
    }
  }

  method Resolve(s: Setting, path: Text) returns (r: Text)
    requires AreTables(s.tables)
    ensures r == Resolution(s, path)
  {
    if (path == [] || path == HERE) && |s.current| > 0 && IsSeparator(s.current[0]) { return s.current; }
    var resolvedDevice: Text, resolvedTail: Text, resolvedAbsolute := [], [], false;
    var candidates := [Some(path), None];
    for i := 0 to |candidates|
      invariant i == 0 ==> resolvedDevice == [] && resolvedTail == [] && !resolvedAbsolute
      invariant i == 1 ==>
        && resolvedDevice == RootOf(path).device && resolvedTail == TailOf(path)
        && resolvedAbsolute == RootOf(path).isAbsolute && !(resolvedAbsolute && resolvedDevice != [])
      invariant i == 2 ==> Shown(resolvedDevice, resolvedTail, resolvedAbsolute) == Resolution(s, path)
    {
      var current;
      if candidates[i].Some? {
        current := candidates[i].value;
        if |current| == 0 { continue; }
      } else {
        current := FindBase(s, resolvedDevice);
      }
      var root := FindRoot(current);
      if |root.device| > 0 {
        if |resolvedDevice| > 0 {
          var same := SameDevice(s.tables, root.device, resolvedDevice);
          if !same { continue; }
        } else {
          resolvedDevice := root.device;
        }
      }
      if resolvedAbsolute {
        if |resolvedDevice| > 0 { break; }
      } else {
        assert i == 0 ==> current[root.rootEnd..] + ([BACKSLASH] + resolvedTail) == TailOf(path);
        resolvedTail := current[root.rootEnd..] + ([BACKSLASH] + resolvedTail);
        resolvedAbsolute := root.isAbsolute;
        if root.isAbsolute && |resolvedDevice| > 0 { break; }
      }
    }
    var tail := Normalize(resolvedTail, !resolvedAbsolute);
    if resolvedAbsolute { return resolvedDevice + ([BACKSLASH] + tail); }
    var relative := resolvedDevice + tail;
    return if |relative| > 0 then relative else HERE;
  }

  // ----- Where paths lead

  /** A place: a device, and the names of the folders below its root. */
  datatype Spot = Spot(device: Text, names: seq<Text>)

  function Show(spot: Spot): Text {
    spot.device + ([BACKSLASH] + Join(spot.names, BACKSLASH))
  }

  /** A path that says its device and begins at the root. */
  predicate IsRooted(path: Text) {
    RootOf(path).isAbsolute && RootOf(path).device != []
  }

  /** The segments of a path after its root. */
  function StepsOf(path: Text): seq<Text> {
    Split(path[RootOf(path).rootEnd..])
  }

  function SpotOf(path: Text): Spot
    requires IsRooted(path)
  {
    Spot(RootOf(path).device, Fold([], StepsOf(path), false))
  }

  /** Where a path leads: from its own root, from the root of the current directory, or from a folder. A path that names a
      drive alone leads on from the folder the drive is in; it leads nowhere when that folder is on another device. */
  function Landing(s: Setting, path: Text): Option<Spot>
    requires AreTables(s.tables) && IsRooted(s.current)
  {
    var root, steps, current := RootOf(path), StepsOf(path), SpotOf(s.current);
    if root.isAbsolute then Some(Spot(if root.device != [] then root.device else current.device, Fold([], steps, false)))
    else if root.device == [] then Some(current.(names := Fold(current.names, steps, false)))
    else
      var base := Base(s, root.device);
      if IsRooted(base) && Same(s.tables, RootOf(base).device, root.device) then
        Some(Spot(root.device, Fold(SpotOf(base).names, steps, false)))
      else None
  }

  /** A separator at the end adds no step. */
  lemma {:induction false} NoStepAtEnd(stack: seq<Text>, path: Text, above: bool)
    ensures Fold(stack, Split(path + [BACKSLASH]), above) == Fold(stack, Split(path), above)
  {
    assert path + [BACKSLASH] == path + ([BACKSLASH] + []);
    SplitAt(path, BACKSLASH, []);
    FoldTwice(stack, Split(path), [[]], above);
    var there := Fold(stack, Split(path), above);
    assert Fold(there, [[]], above) == Fold(Push(there, [], above), [], above);
  }

  lemma {:induction false} TailSteps(stack: seq<Text>, path: Text, above: bool)
    ensures Fold(stack, Split(TailOf(path)), above) == Fold(stack, StepsOf(path), above)
  {
    if path != [] {
      NoStepAtEnd(stack, path[RootOf(path).rootEnd..], above);
    }
  }

  /** A path joined to a folder walks on from the folder. */
  lemma {:induction false} TailBelow(base: Text, path: Text)
    requires IsRooted(base)
    ensures Normalized(base[RootOf(base).rootEnd..] + ([BACKSLASH] + TailOf(path)), false)
         == Join(Fold(SpotOf(base).names, StepsOf(path), false), BACKSLASH)
  {
    var tail := base[RootOf(base).rootEnd..];
    SplitAt(tail, BACKSLASH, TailOf(path));
    FoldTwice([], Split(tail), Split(TailOf(path)), false);
    TailSteps(SpotOf(base).names, path, false);
  }

  lemma {:induction false} DeviceIsDrive(path: Text)
    requires RootOf(path).device != [] && !RootOf(path).isAbsolute
    ensures IsDrive(path) && RootOf(path) == Root(path[..2], 2, false)
  {
  }

  lemma {:induction false} BaseIsRooted(s: Setting, path: Text)
    requires AreTables(s.tables) && IsRooted(s.current)
    requires s.drives(RootOf(path).device) == [] || IsRooted(s.drives(RootOf(path).device))
    requires RootOf(path).device != [] && !RootOf(path).isAbsolute
    ensures IsRooted(Base(s, RootOf(path).device))
  {
    var device := RootOf(path).device;
    DeviceIsDrive(path);
    assert RootOf(device + [BACKSLASH]) == Root((device + [BACKSLASH])[..2], 3, true);
  }

  /** A path resolves to the place it leads to. A drive's path that leads nowhere stays on its drive and relative; and the
      empty path and "." are the current directory as it is spelled, when that begins with a separator. */
  lemma {:induction false} ResolvesToLanding(s: Setting, path: Text)
    requires AreTables(s.tables) && IsRooted(s.current)
    requires s.drives(RootOf(path).device) == [] || IsRooted(s.drives(RootOf(path).device))
    ensures Resolution(s, path)
         == if IsFast(s, path) then s.current
            else match Landing(s, path)
              case Some(spot) => Show(spot)
              case None => path[..2] + Normalized(path[2..], true)
  {
    var root := RootOf(path);
    TailSteps([], path, false);
    if !root.isAbsolute {
      if root.device == [] {
        TailBelow(s.current, path);
      } else {
        DeviceIsDrive(path);
        BaseIsRooted(s, path);
        TailBelow(Base(s, root.device), path);
        TailSteps([], path, true);
      }
    }
  }

  /** A drive-absolute path resolves to its own place, whatever the current directory and the drives' directories are. */
  lemma {:induction false} DriveAbsoluteAlone(s: Setting, path: Text)
    requires AreTables(s.tables) && IsDriveAbsolute(path)
    ensures IsRooted(path) && SpotOf(path) == Spot(path[..2], Names(path))
    ensures Resolution(s, path) == Resolved(path) == Show(SpotOf(path))
  {
    TailSteps([], path, false);
  }

  // ----- Resolving what has been resolved

  /** The devices that roots have: a drive, a server and a share, or "\\." and "\\?". */
  predicate IsPlainDevice(device: Text) {
    device == [BACKSLASH, BACKSLASH] + HERE || device == [BACKSLASH, BACKSLASH] + [QUESTION]
  }

  predicate IsPart(part: Text) {
    part != [] && Whole(part)
  }

  ghost predicate IsShare(device: Text, host: Text, share: Text) {
    && IsPart(host) && IsPart(share) && host != HERE && host != [QUESTION]
    && device == [BACKSLASH, BACKSLASH] + host + ([BACKSLASH] + share)
  }

  ghost predicate IsDevice(device: Text) {
    (|device| == 2 && IsDrive(device)) || IsPlainDevice(device) || exists host, share :: IsShare(device, host, share)
  }

  lemma {:induction false} NoShareIsDrive(device: Text, host: Text, share: Text)
    requires IsShare(device, host, share)
    ensures !IsDrive(device)
  {
    assert device[0] == BACKSLASH;
  }

  lemma {:induction false} DriveDevice(device: Text)
    requires IsDevice(device)
    ensures IsDrive(device) ==> |device| == 2
  {
    forall host, share | IsShare(device, host, share)
      ensures !IsDrive(device)
    {
      NoShareIsDrive(device, host, share);
    }
  }

  lemma {:induction false} NetworkDevice(path: Text)
    requires |path| >= 2 && NetworkRoot(path).device != []
    ensures IsDevice(NetworkRoot(path).device)
  {
    var first := NameEnd(path, 2);
    var second := SeparatorsEnd(path, first);
    var end := NameEnd(path, second);
    Stops(path, 2);
    Stops(path, first);
    Stops(path, second);
    var host, share := path[2..first], path[second..end];
    assert Whole(host) && Whole(share);
    if host != HERE && host != [QUESTION] {
      NameEndMoves(path, second);
      assert IsShare(NetworkRoot(path).device, host, share);
    }
  }

  lemma {:induction false} NameEndMoves(path: Text, i: nat)
    requires i < |path| && !IsSeparator(path[i])
    ensures NameEnd(path, i) > i
  {
  }

  lemma {:induction false} RootHasDevice(path: Text)
    requires RootOf(path).device != []
    ensures IsDevice(RootOf(path).device)
  {
    if IsSeparator(path[0]) {
      NetworkDevice(path);
    }
  }

  /** A spot that can be reached: a device, and names. */
  ghost predicate IsSpot(spot: Spot) {
    IsDevice(spot.device) && AllNames(spot.names) && AllWhole(spot.names)
  }

  lemma {:induction false} FoldsToNames(stack: seq<Text>, path: Text)
    requires AllNames(stack) && AllWhole(stack)
    ensures AllNames(Fold(stack, Split(path), false)) && AllWhole(Fold(stack, Split(path), false))
  {
    SplitsWhole(path);
    FoldIsNormal(stack, Split(path), false);
  }

  lemma {:induction false} SpotOfIsSpot(path: Text)
    requires IsRooted(path)
    ensures IsSpot(SpotOf(path))
  {
    RootHasDevice(path);
    FoldsToNames([], path[RootOf(path).rootEnd..]);
  }

  lemma {:induction false} LandingIsSpot(s: Setting, path: Text)
    requires AreTables(s.tables) && IsRooted(s.current) && Landing(s, path).Some?
    ensures IsSpot(Landing(s, path).value)
  {
    var root := RootOf(path);
    var rest := path[root.rootEnd..];
    SpotOfIsSpot(s.current);
    FoldsToNames([], rest);
    if root.device != [] {
      RootHasDevice(path);
    }
    if !root.isAbsolute {
      if root.device == [] {
        FoldsToNames(SpotOf(s.current).names, rest);
      } else {
        SpotOfIsSpot(Base(s, root.device));
        FoldsToNames(SpotOf(Base(s, root.device)).names, rest);
      }
    }
  }

  lemma {:induction false} NameEndIs(path: Text, i: nat, k: nat)
    requires i <= k <= |path| && (forall m :: i <= m < k ==> !IsSeparator(path[m])) && (k < |path| ==> IsSeparator(path[k]))
    ensures NameEnd(path, i) == k
  {
    NameEndFrom(path, i, k);
  }

  lemma {:induction false} ShareRoot(path: Text, device: Text, host: Text, share: Text, rest: Text)
    requires IsShare(device, host, share) && path == device + ([BACKSLASH] + rest)
    ensures RootOf(path) == Root(device, |device|, true)
  {
    var first, second := 2 + |host|, 3 + |host|;
    assert forall m :: 2 <= m < first ==> path[m] == host[m - 2];
    assert path[first] == BACKSLASH && path[second] == share[0];
    assert forall m :: second <= m < |device| ==> path[m] == share[m - second];
    assert path[|device|] == BACKSLASH;
    NameEndIs(path, 2, first);
    assert SeparatorsEnd(path, first) == second;
    NameEndIs(path, second, |device|);
    assert path[2..first] == host && path[second..|device|] == share;
  }

  lemma {:induction false} PlainRoot(path: Text, device: Text, rest: Text)
    requires IsPlainDevice(device) && path == device + ([BACKSLASH] + rest)
    requires rest != [] ==> !IsSeparator(rest[0])
    ensures RootOf(path) == if rest == [] then Root([], 0, true) else Root(device, 4, true)
  {
    assert path[2] == device[2] && path[3] == BACKSLASH;
    NameEndIs(path, 2, 3);
    assert path[2..3] == [device[2]];
    if rest == [] {
      assert SeparatorsEnd(path, 3) == 4;
    } else {
      assert path[4] == rest[0];
      assert SeparatorsEnd(path, 3) == 4;
    }
  }

  lemma {:induction false} NamesShown(names: seq<Text>)
    requires AllNames(names) && AllWhole(names)
    ensures Fold([], Split(Join(names, BACKSLASH)), false) == names
    ensures Join(names, BACKSLASH) != [] <==> names != []
    ensures names != [] ==> !IsSeparator(Join(names, BACKSLASH)[0])
  {
    if names == [] {
      assert Fold([], [[]], false) == Fold(Push([], [], false), [], false);
    } else {
      SplitOfJoin(names, BACKSLASH);
      FoldNormal([], names, false);
      assert [] + names == names;
      JoinBegins(names);
    }
  }

  lemma {:induction false} JoinBegins(names: seq<Text>)
    requires names != [] && AllNames(names) && AllWhole(names)
    ensures Join(names, BACKSLASH) != [] && Join(names, BACKSLASH)[0] == names[0][0] && !IsSeparator(names[0][0])
  {
    assert IsName(names[0]) && Whole(names[0]);
    if |names| > 1 {
      JoinBegins(names[..|names| - 1]);
    }
  }

  /** The place of a shown spot is the spot, unless it is the root of "\\." or "\\?", which is read as no device's. */
  lemma {:induction false} ShowReadsBack(spot: Spot)
    requires IsSpot(spot)
    ensures var path := Show(spot);
      if IsPlainDevice(spot.device) && spot.names == [] then RootOf(path) == Root([], 0, true)
      else IsRooted(path) && SpotOf(path) == spot
  {
    var rest := Join(spot.names, BACKSLASH);
    var path := Show(spot);
    NamesShown(spot.names);
    if IsPlainDevice(spot.device) {
      PlainRoot(path, spot.device, rest);
      assert rest != [] ==> path[4..] == rest;
    } else if |spot.device| == 2 && IsDrive(spot.device) {
      assert path[..2] == spot.device && path[3..] == rest;
    } else {
      var host, share :| IsShare(spot.device, host, share);
      ShareRoot(path, spot.device, host, share, rest);
      assert path[|spot.device|..] == [BACKSLASH] + rest;
      assert Split([BACKSLASH] + rest) == [[]] + Split(rest) by {
        assert ([BACKSLASH] + rest)[1..] == rest;
      }
      assert ([[]] + Split(rest))[1..] == Split(rest);
      assert Fold([], [[]] + Split(rest), false) == Fold(Push([], [], false), Split(rest), false);
    }
  }

  /** A shown spot resolves to itself, unless it is the root of "\\." or "\\?": that is read as a path without a device,
      and becomes one on the device of the current directory. */
  lemma {:induction false} ShowSettled(s: Setting, spot: Spot)
    requires IsSpot(spot) && AreTables(s.tables) && IsRooted(s.current)
    ensures Resolution(s, Show(spot)) == Show(spot) <==>
            !(IsPlainDevice(spot.device) && spot.names == [])
            || spot.device == SpotOf(s.current).device == [BACKSLASH, BACKSLASH] + HERE
  {
    var path := Show(spot);
    ShowReadsBack(spot);
    assert path != [] && path != HERE;
    if IsPlainDevice(spot.device) && spot.names == [] {
      PlainRootLands(s, path, spot.device);
      var rest: Text := if spot.device[2] == DOT then [] else [QUESTION];
      EndsApart(SpotOf(s.current).device, spot.device, rest);
    } else {
      TailSteps([], path, false);
    }
  }

  lemma {:induction false} EndsApart(a: Text, b: Text, rest: Text)
    requires rest == [] || rest == [QUESTION]
    ensures a + ([BACKSLASH] + rest) == b + [BACKSLASH] <==> a == b && rest == []
  {
    var x, y := a + ([BACKSLASH] + rest), b + [BACKSLASH];
    assert y[|y| - 1] == BACKSLASH;
    if rest == [QUESTION] {
      assert x[|x| - 1] == QUESTION;
    } else {
      assert x == a + [BACKSLASH] && x[..|x| - 1] == a && y[..|y| - 1] == b;
    }
  }

  lemma {:induction false} PlainRootLands(s: Setting, path: Text, device: Text)
    requires AreTables(s.tables) && IsRooted(s.current) && IsPlainDevice(device) && path == device + [BACKSLASH]
    requires RootOf(path) == Root([], 0, true)
    ensures Resolution(s, path)
         == SpotOf(s.current).device + ([BACKSLASH] + if device[2] == DOT then [] else [QUESTION])
  {
    var part := [device[2]];
    TailSteps([], path, false);
    PlainParts(path, part);
    PlainSteps(part);
  }

  lemma {:induction false} PlainParts(path: Text, part: Text)
    requires path == [BACKSLASH, BACKSLASH] + part + [BACKSLASH] && Whole(part)
    ensures Split(path) == [[], [], part, []]
  {
    assert path == [] + ([BACKSLASH] + ([] + ([BACKSLASH] + (part + ([BACKSLASH] + [])))));
    SplitOne(part);
    SplitAt(part, BACKSLASH, []);
    SplitAt([], BACKSLASH, part + ([BACKSLASH] + []));
    SplitAt([], BACKSLASH, [] + ([BACKSLASH] + (part + ([BACKSLASH] + []))));
  }

  lemma {:induction false} PlainSteps(part: Text)
    requires part == HERE || part == [QUESTION]
    ensures Fold([], [[], [], part, []], false) == if part == HERE then [] else [part]
  {
    var none: Text := [];
    assert [none] == [none] + [];
    FoldFirst([], [], [[], part, []], false);
    FoldFirst([], [], [part, []], false);
    FoldFirst([], part, [[]], false);
    FoldFirst(Push([], part, false), [], [], false);
    assert [[], [], part, []] == [[]] + [[], part, []] && [[], part, []] == [[]] + [part, []];
    assert [part, []] == [part] + [[]];
  }

  /** What a path that leads somewhere resolves to resolves to itself, from any current directory, but for those roots. */
  lemma {:induction false} ResolveIdempotent(s: Setting, again: Setting, path: Text)
    requires AreTables(s.tables) && IsRooted(s.current) && Landing(s, path).Some? && !IsFast(s, path)
    requires s.drives(RootOf(path).device) == [] || IsRooted(s.drives(RootOf(path).device))
    requires AreTables(again.tables) && IsRooted(again.current)
    ensures var r, spot := Resolution(s, path), Landing(s, path).value;
      Resolution(again, r) == r <==>
      !(IsPlainDevice(spot.device) && spot.names == [])
      || spot.device == SpotOf(again.current).device == [BACKSLASH, BACKSLASH] + HERE
  {
    ResolvesToLanding(s, path);
    LandingIsSpot(s, path);
    ShowSettled(again, Landing(s, path).value);
  }

  /** "\\.\.." resolves to "\\.\", and that to the root of the current directory's device. */
  lemma {:induction false} DeviceRootMoves(s: Setting)
    requires AreTables(s.tables) && IsRooted(s.current)
    ensures Resolution(s, [BACKSLASH, BACKSLASH, DOT, BACKSLASH, DOT, DOT]) == [BACKSLASH, BACKSLASH, DOT, BACKSLASH]
    ensures Resolution(s, [BACKSLASH, BACKSLASH, DOT, BACKSLASH]) == SpotOf(s.current).device + [BACKSLASH]
  {
    var device: Text := [BACKSLASH, BACKSLASH] + HERE;
    var path: Text := [BACKSLASH, BACKSLASH, DOT, BACKSLASH, DOT, DOT];
    PlainRoot(path, device, UP);
    SplitOne(UP);
    assert path[4..] == UP && StepsOf(path) == [UP];
    assert Fold([], [UP], false) == Fold(Push([], UP, false), [], false);
    TailSteps([], path, false);
    var root: Text := [BACKSLASH, BACKSLASH, DOT, BACKSLASH];
    assert root == device + [BACKSLASH] && [BACKSLASH] == [BACKSLASH] + [];
    PlainRoot(root, device, []);
    PlainRootLands(s, root, device);
  }

  const C_DRIVE: Text := [0x43, COLON]
  const SHARE: Text := [BACKSLASH, BACKSLASH, 0x61, BACKSLASH, 0x62]

  lemma {:induction false} DriveLeadsNowhere(s: Setting, path: Text)
    requires KeepsSeparators(s.tables) && s.current == SHARE && s.drives(C_DRIVE) == []
    requires path == C_DRIVE + [0x78]
    ensures IsRooted(s.current) && RootOf(path) == Root(C_DRIVE, 2, false) && Landing(s, path) == None
  {
    SharesRoot();
    DifferentDevice(s.tables);
    assert path[..2] == C_DRIVE;
    assert Base(s, C_DRIVE) == SHARE;
  }

  lemma {:induction false} OneStep()
    ensures Normalized([0x78], true) == [0x78]
  {
    SplitOne([0x78]);
    assert Fold([], [[0x78]], true) == Fold(Push([], [0x78], true), [], true);
    assert [] + [[0x78 as Unit]] == [[0x78]];
  }

  /** With the current directory on the share \\a\b, and none remembered for the drive, "C:x" resolves to itself: to no
      place at all. */
  lemma {:induction false} DriveStaysRelative(s: Setting, path: Text)
    requires KeepsSeparators(s.tables) && s.current == SHARE && s.drives(C_DRIVE) == []
    requires path == C_DRIVE + [0x78]
    ensures IsRooted(s.current) && Resolution(s, path) == path
  {
    DriveLeadsNowhere(s, path);
    ResolvesToLanding(s, path);
    OneStep();
    assert path[..2] == C_DRIVE && path[2..] == [0x78];
  }

  lemma {:induction false} SharesRoot()
    ensures RootOf(SHARE) == Root(SHARE, 5, true)
  {
    NameEndIs(SHARE, 2, 3);
    assert SeparatorsEnd(SHARE, 3) == 4;
    NameEndIs(SHARE, 4, 5);
    assert SHARE[2..3] == [0x61] && SHARE[4..5] == [0x62];
    assert [BACKSLASH, BACKSLASH] + [0x61] + ([BACKSLASH] + [0x62]) == SHARE;
  }

  lemma {:induction false} DifferentDevice(t: Tables)
    requires KeepsSeparators(t)
    ensures !Same(t, SHARE, C_DRIVE)
  {
    LowerIsWhole(t, C_DRIVE, 0);
    assert LowerAt(t, SHARE, 0) == [BACKSLASH];
    assert Lower(t, SHARE)[0] == BACKSLASH;
  }
}
