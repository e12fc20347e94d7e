/**
 What the content digest tells: the walk succeeds exactly within its limits, and the byte string it hashes can be decoded,
 so it is the same for two trees exactly when the trees are the same outside ".git" and device entries, with the lone
 surrogates of their names and link targets replaced.
 */
module ContentTree {
  import opened Utf16
  import opened Sequences
  import opened Utf8
  import opened ContentState
  import Decimal

  // ----- The visible tree

  datatype Shape =
    | FolderShape(name: Text, shapes: seq<Shape>)
    | LinkShape(name: Text, target: Text)
    | FileShape(name: Text, bytes: Bytes)

  /** Everything the walk would meet can be read. */
  predicate Readable(entries: seq<Entry>)
    decreases entries, 1
  {
    entries == [] || (ReadableOne(entries[0]) && Readable(entries[1..]))
  }

  predicate ReadableOne(e: Entry)
    decreases e, 0
  {
    e.name == GIT
    || match e
       case Folder(_, listing) => listing.Listed? && Readable(listing.entries)
       case Link(_, target) => target.Target?
       case Device(_) => true
       case File(_, opening) => opening.Opened? && |opening.bytes| == opening.length && !opening.changed
  }

  function Visible(entries: seq<Entry>): seq<Shape>
    requires Readable(entries)
    decreases entries, 1
  {
    if entries == [] then [] else VisibleOne(entries[0]) + Visible(entries[1..])
  }

  function VisibleOne(e: Entry): seq<Shape>
    requires ReadableOne(e)
    decreases e, 0
  {
    if e.name == GIT then []
    else match e
      case Folder(name, listing) => [FolderShape(name, Visible(listing.entries))]
      case Link(name, target) => [LinkShape(name, target.path)]
      case Device(_) => []
      case File(name, opening) => [FileShape(name, opening.bytes)]
  }

  // ----- Limits

  datatype Sum = Sum(files: nat, folders: nat, bytes: nat)

  function Plus(a: Sum, b: Sum): Sum {
    Sum(a.files + b.files, a.folders + b.folders, a.bytes + b.bytes)
  }

  function SumOf(entries: seq<Entry>): Sum
    requires Readable(entries)
    decreases entries, 1
  {
    if entries == [] then Sum(0, 0, 0) else Plus(SumOfOne(entries[0]), SumOf(entries[1..]))
  }

  function SumOfOne(e: Entry): Sum
    requires ReadableOne(e)
    decreases e, 0
  {
    if e.name == GIT then Sum(0, 0, 0)
    else match e
      case Folder(_, listing) => Plus(Sum(0, 1, 0), SumOf(listing.entries))
      case Link(_, _) => Sum(0, 1, 0)
      case Device(_) => Sum(0, 0, 0)
      case File(_, opening) => Sum(1, 0, opening.length)
  }

  predicate Within(t: Tally, s: Sum) {
    && t.files + s.files <= MAXIMUM_FILES && t.folders + s.folders <= MAXIMUM_FOLDERS
    && t.bytes + s.bytes <= MAXIMUM_BYTES
  }

  /** The tally with more counted, whatever is hashed. */
  predicate Adds(t: Tally, s: Sum, t': Tally) {
    t'.files == t.files + s.files && t'.folders == t.folders + s.folders && t'.bytes == t.bytes + s.bytes
  }

  const NOTHING := Sum(0, 0, 0)

  lemma {:induction false} VisitLimits(t: Tally, prefix: Text, e: Entry)
    requires Within(t, NOTHING)
    ensures Visit(t, prefix, e).Ok? <==> ReadableOne(e) && Within(t, SumOfOne(e))
    ensures Visit(t, prefix, e).Ok? ==> Adds(t, SumOfOne(e), Visit(t, prefix, e).tally)
    decreases e, 0
  {
    if e.Folder? && e.name != GIT && e.listing.Listed? && t.folders + 1 <= MAXIMUM_FOLDERS {
      var path := Relative(prefix, e.name);
      WalkLimits(t.(folders := t.folders + 1, digest := t.digest + FolderRecord(path)), path, e.listing.entries);
    }
  }

  /** The walk succeeds exactly when everything is readable and the counts stay within the limits. */
  lemma {:induction false} WalkLimits(t: Tally, prefix: Text, entries: seq<Entry>)
    requires Within(t, NOTHING)
    ensures WalkFrom(t, prefix, entries).Ok? <==> Readable(entries) && Within(t, SumOf(entries))
    ensures WalkFrom(t, prefix, entries).Ok? ==> Adds(t, SumOf(entries), WalkFrom(t, prefix, entries).tally)
    decreases entries, 1
  {
    if entries == [] { return; }
    var e, rest := entries[0], entries[1..];
    var r := Visit(t, prefix, e);
    VisitLimits(t, prefix, e);
    assert WalkFrom(t, prefix, entries) == if r.Ok? then WalkFrom(r.tally, prefix, rest) else r;
    if r.Ok? {
      WalkLimits(r.tally, prefix, rest);
    }
    if ReadableOne(e) && Readable(rest) {
      LimitsJoin(t, SumOfOne(e), SumOf(rest), r, WalkFrom(t, prefix, entries));
    }
  }

  /** Counting one entry and then the rest is counting their sum. */
  lemma {:induction false} LimitsJoin(t: Tally, a: Sum, b: Sum, r: Outcome, r': Outcome)
    requires (r.Ok? <==> Within(t, a)) && (r.Ok? ==> Adds(t, a, r.tally))
    requires if r.Ok? then (r'.Ok? <==> Within(r.tally, b)) && (r'.Ok? ==> Adds(r.tally, b, r'.tally)) else r' == r
    ensures (r'.Ok? <==> Within(t, Plus(a, b))) && (r'.Ok? ==> Adds(t, Plus(a, b), r'.tally))
  {
  }

  lemma {:induction false} DigestLimits(root: Listing)
    ensures WalkRoot(root).Ok? <==>
            root.Listed? && Readable(root.entries) && Within(Tally(0, 0, 0, []), SumOf(root.entries))
  {
    if root.Listed? {
      WalkLimits(Tally(0, 0, 0, []), [], root.entries);
    }
  }

  // ----- Records

  datatype Record =
    | FolderAt(path: seq<Bytes>)
    | LinkAt(path: seq<Bytes>, target: Bytes)
    | FileAt(path: seq<Bytes>, bytes: Bytes)

  function Under(prefix: Bytes, name: Bytes): Bytes {
    if prefix == [] then name else prefix + ([SLASH] + name)
  }

  function PathBytes(path: seq<Bytes>): Bytes {
    if path == [] then [] else Under(PathBytes(path[..|path| - 1]), path[|path| - 1])
  }

  function LengthBytes(n: nat): Bytes {
    Encode(Decimal.Digits(n))
  }

  function EncodeRecord(r: Record): Bytes {
    match r
    case FolderAt(path) => [D, NUL] + (PathBytes(path) + [NUL])
    case LinkAt(path, target) => [L, NUL] + (PathBytes(path) + ([NUL] + (target + [NUL])))
    case FileAt(path, bytes) => [F, NUL] + (PathBytes(path) + ([NUL] + (LengthBytes(|bytes|) + ([NUL] + bytes))))
  }

  function EncodeAll(records: seq<Record>): Bytes {
    if records == [] then [] else EncodeRecord(records[0]) + EncodeAll(records[1..])
  }

  /** The records of a tree below `path`, each folder before its entries. */
  function Flatten(path: seq<Bytes>, shapes: seq<Shape>): seq<Record>
    decreases shapes, 1
  {
    if shapes == [] then [] else FlattenOne(path, shapes[0]) + Flatten(path, shapes[1..])
  }

  function FlattenOne(path: seq<Bytes>, s: Shape): seq<Record>
    decreases s, 0
  {
    match s
    case FolderShape(name, shapes) => [FolderAt(path + [Encode(name)])] + Flatten(path + [Encode(name)], shapes)
    case LinkShape(name, target) => [LinkAt(path + [Encode(name)], Encode(target))]
    case FileShape(name, bytes) => [FileAt(path + [Encode(name)], bytes)]
  }

  lemma {:induction false} FlattenJoin(path: seq<Bytes>, a: seq<Shape>, b: seq<Shape>)
    ensures Flatten(path, a + b) == Flatten(path, a) + Flatten(path, b)
    decreases |a|
  {
    if a == [] {
      assert a + b == b;
    } else {
      assert (a + b)[1..] == a[1..] + b;
      FlattenJoin(path, a[1..], b);
    }
  }

  lemma {:induction false} RecordsJoin(a: seq<Record>, b: seq<Record>)
    ensures EncodeAll(a + b) == EncodeAll(a) + EncodeAll(b)
  {
    if a == [] {
      assert a + b == b && [] + EncodeAll(b) == EncodeAll(b);
    } else {
      assert a + b != [] && (a + b)[0] == a[0] && (a + b)[1..] == a[1..] + b;
      assert EncodeAll(a + b) == EncodeRecord(a[0]) + EncodeAll(a[1..] + b);
      RecordsJoin(a[1..], b);
      Associate(EncodeRecord(a[0]), EncodeAll(a[1..]), EncodeAll(b));
    }
  }

  lemma {:induction false} PathStep(prefix: Text, path: seq<Bytes>, name: Text)
    requires Encode(prefix) == PathBytes(path)
    ensures Encode(Relative(prefix, name)) == PathBytes(path + [Encode(name)])
  {
    assert (path + [Encode(name)])[..|path|] == path;
    if prefix != [] {
      EncodeAround(prefix, SLASH, name);
    }
  }

  lemma {:induction false} EncodeKind(kind: Unit, rest: Text)
    requires kind < 0x80
    ensures Encode([kind, NUL] + rest) == [kind, NUL] + Encode(rest)
  {
    EncodeAround([kind], NUL, rest);
    EncodeUnit(kind);
    Associate([kind], [NUL], rest);
    Associate(Encode([kind]), [NUL], Encode(rest));
    assert [kind] + [NUL] == [kind, NUL];
  }

  lemma {:induction false} EncodeEnd(s: Text)
    ensures Encode(s + [NUL]) == Encode(s) + [NUL]
  {
    EncodeAround(s, NUL, []);
    assert [NUL] + [] == [NUL];
  }

  /** The source encodes whole texts of names, which is encoding the names. */
  lemma {:induction false} FolderEncodes(prefix: Text, path: seq<Bytes>)
    requires Encode(prefix) == PathBytes(path)
    ensures FolderRecord(prefix) == EncodeRecord(FolderAt(path))
  {
    EncodeKind(D, prefix + [NUL]);
    EncodeEnd(prefix);
  }

  lemma {:induction false} LinkEncodes(prefix: Text, path: seq<Bytes>, target: Text)
    requires Encode(prefix) == PathBytes(path)
    ensures LinkRecord(prefix, target) == EncodeRecord(LinkAt(path, Encode(target)))
  {
    EncodeKind(L, prefix + ([NUL] + (target + [NUL])));
    EncodeAround(prefix, NUL, target + [NUL]);
    EncodeEnd(target);
  }

  lemma {:induction false} FileEncodes(prefix: Text, path: seq<Bytes>, bytes: Bytes)
    requires Encode(prefix) == PathBytes(path)
    ensures FileRecord(prefix, bytes) == EncodeRecord(FileAt(path, bytes))
  {
    var digits, length := Decimal.Digits(|bytes|), LengthBytes(|bytes|);
    EncodeKind(F, prefix + ([NUL] + (digits + [NUL])));
    EncodeAround(prefix, NUL, digits + [NUL]);
    EncodeEnd(digits);
    Associate([F, NUL], PathBytes(path) + ([NUL] + (length + [NUL])), bytes);
    Associate(PathBytes(path), [NUL] + (length + [NUL]), bytes);
    Associate([NUL], length + [NUL], bytes);
    Associate(length, [NUL], bytes);
  }

  lemma {:induction false} EncodeOne(r: Record)
    ensures EncodeAll([r]) == EncodeRecord(r)
  {
    assert EncodeRecord(r) + [] == EncodeRecord(r);
  }

  lemma {:induction false} FlattenSingle(path: seq<Bytes>, s: Shape)
    ensures Flatten(path, [s]) == FlattenOne(path, s)
  {
    assert FlattenOne(path, s) + [] == FlattenOne(path, s);
  }

  lemma {:induction false} EncodeFirst(digest: Bytes, r: Record, records: seq<Record>)
    ensures digest + EncodeAll([r] + records) == (digest + EncodeRecord(r)) + EncodeAll(records)
  {
    assert ([r] + records)[1..] == records;
    Associate(digest, EncodeRecord(r), EncodeAll(records));
  }

  lemma {:induction false} VisitHashes(t: Tally, prefix: Text, path: seq<Bytes>, e: Entry)
    requires Visit(t, prefix, e).Ok? && ReadableOne(e) && Encode(prefix) == PathBytes(path)
    ensures Visit(t, prefix, e).tally.digest == t.digest + EncodeAll(Flatten(path, VisibleOne(e)))
    decreases e, 1
  {
    if e.name == GIT || e.Device? {
      assert VisibleOne(e) == [] && EncodeAll(Flatten(path, [])) == [];
      assert t.digest + [] == t.digest;
    } else if e.Folder? {
      FolderHashes(t, prefix, path, e);
    } else {
      LeafHashes(t, prefix, path, e);
    }
  }

  lemma {:induction false} LeafHashes(t: Tally, prefix: Text, path: seq<Bytes>, e: Entry)
    requires Visit(t, prefix, e).Ok? && ReadableOne(e) && e.name != GIT && (e.Link? || e.File?)
    requires Encode(prefix) == PathBytes(path)
    ensures Visit(t, prefix, e).tally.digest == t.digest + EncodeAll(Flatten(path, VisibleOne(e)))
  {
    var place, inner := Relative(prefix, e.name), path + [Encode(e.name)];
    PathStep(prefix, path, e.name);
    FlattenSingle(path, VisibleOne(e)[0]);
    match e
    case Link(name, target) =>
      LinkEncodes(place, inner, target.path);
      EncodeOne(LinkAt(inner, Encode(target.path)));
    case File(name, opening) =>
      FileEncodes(place, inner, opening.bytes);
      EncodeOne(FileAt(inner, opening.bytes));
  }

  lemma {:induction false} FolderHashes(t: Tally, prefix: Text, path: seq<Bytes>, e: Entry)
    requires Visit(t, prefix, e).Ok? && ReadableOne(e) && e.name != GIT && e.Folder?
    requires Encode(prefix) == PathBytes(path)
    ensures Visit(t, prefix, e).tally.digest == t.digest + EncodeAll(Flatten(path, VisibleOne(e)))
    decreases e, 0
  {
    var place, inner, entries := Relative(prefix, e.name), path + [Encode(e.name)], e.listing.entries;
    PathStep(prefix, path, e.name);
    FolderEncodes(place, inner);
    FlattenSingle(path, VisibleOne(e)[0]);
    WalkHashes(t.(folders := t.folders + 1, digest := t.digest + FolderRecord(place)), place, inner, entries);
    EncodeFirst(t.digest, FolderAt(inner), Flatten(inner, Visible(entries)));
  }

  /** What the walk hashes is the records of the visible tree. */
  lemma {:induction false} WalkHashes(t: Tally, prefix: Text, path: seq<Bytes>, entries: seq<Entry>)
    requires WalkFrom(t, prefix, entries).Ok? && Readable(entries) && Encode(prefix) == PathBytes(path)
    ensures WalkFrom(t, prefix, entries).tally.digest == t.digest + EncodeAll(Flatten(path, Visible(entries)))
    decreases entries, 1
  {
    if entries == [] {
      assert t.digest + [] == t.digest;
    } else {
      var t' := Visit(t, prefix, entries[0]).tally;
      var first, rest := Flatten(path, VisibleOne(entries[0])), Flatten(path, Visible(entries[1..]));
      VisitHashes(t, prefix, path, entries[0]);
      WalkHashes(t', prefix, path, entries[1..]);
      FlattenJoin(path, VisibleOne(entries[0]), Visible(entries[1..]));
      RecordsJoin(first, rest);
      Associate(t.digest, EncodeAll(first), EncodeAll(rest));
    }
  }

  // ----- Decoding one record

  predicate Lacks(s: Bytes, u: Byte) {
    forall i :: 0 <= i < |s| ==> s[i] != u
  }

  /** A name or target ends at the first mark after it. */
  lemma {:induction false} EndsAtMark(a: Bytes, b: Bytes, mark: Byte, x: Bytes, y: Bytes)
    requires Lacks(a, mark) && Lacks(b, mark) && a + ([mark] + x) == b + ([mark] + y)
    ensures a == b && x == y
  {
    var s, t := a + ([mark] + x), b + ([mark] + y);
    assert s[|a|] == mark && t[|b|] == mark;
    SameEnd(a, b, mark, s);
    assert a == s[..|a|] && b == t[..|b|];
    assert s[|a| + 1..] == x && t[|b| + 1..] == y;
  }

  lemma {:induction false} SameEnd(a: Bytes, b: Bytes, mark: Byte, s: Bytes)
    requires Lacks(a, mark) && Lacks(b, mark) && a <= s && b <= s
    requires |a| < |s| && s[|a|] == mark && |b| < |s| && s[|b|] == mark
    ensures |a| == |b|
  {
    assert forall i :: 0 <= i < |a| ==> s[i] == a[i];
    assert forall i :: 0 <= i < |b| ==> s[i] == b[i];
  }

  /** The last name of a path begins after its last slash. */
  lemma {:induction false} LastName(a: Bytes, b: Bytes, x: Bytes, y: Bytes)
    requires Lacks(x, SLASH) && Lacks(y, SLASH) && a + ([SLASH] + x) == b + ([SLASH] + y)
    ensures a == b && x == y
  {
    var s, t := a + ([SLASH] + x), b + ([SLASH] + y);
    assert |a| == |b| by {
      NotLonger(a, b, x, y);
      NotLonger(b, a, y, x);
    }
    assert a == s[..|a|] && b == t[..|b|];
    assert s[|a| + 1..] == x && t[|b| + 1..] == y;
  }

  lemma {:induction false} LongerDiffers(a: Bytes, b: Bytes, x: Bytes, y: Bytes)
    requires Lacks(y, SLASH) && |a| > |b|
    ensures a + ([SLASH] + x) != b + ([SLASH] + y)
  {
    var s, t := a + ([SLASH] + x), b + ([SLASH] + y);
    if |s| == |t| {
      assert s[|a|] == SLASH;
      assert t[|a|] == y[|a| - |b| - 1];
    }
  }

  lemma {:induction false} NotLonger(a: Bytes, b: Bytes, x: Bytes, y: Bytes)
    requires Lacks(y, SLASH) && a + ([SLASH] + x) == b + ([SLASH] + y)
    ensures |a| <= |b|
  {
    if |a| > |b| {
      LongerDiffers(a, b, x, y);
    }
  }

  predicate GoodName(name: Bytes) {
    name != [] && Lacks(name, SLASH) && Lacks(name, NUL)
  }

  predicate GoodPath(path: seq<Bytes>) {
    forall i :: 0 <= i < |path| ==> GoodName(path[i])
  }

  lemma {:induction false} PathLacksNul(path: seq<Bytes>)
    requires GoodPath(path)
    ensures Lacks(PathBytes(path), NUL) && (path != [] ==> PathBytes(path) != [])
  {
    if path != [] {
      PathLacksNul(path[..|path| - 1]);
    }
  }

  lemma {:induction false} ManyNames(path: seq<Bytes>)
    requires GoodPath(path) && |path| > 1
    ensures !Lacks(PathBytes(path), SLASH)
  {
    var head := PathBytes(path[..|path| - 1]);
    PathLacksNul(path[..|path| - 1]);
    assert PathBytes(path)[|head|] == SLASH;
  }

  lemma {:induction false} OneName(path: seq<Bytes>, name: Bytes)
    requires GoodPath(path) && path != [] && Lacks(name, SLASH) && PathBytes(path) == name
    ensures path == [name]
  {
    if |path| > 1 {
      ManyNames(path);
    }
    assert PathBytes(path[..0]) == [];
    assert path == [path[0]];
  }

  lemma {:induction false} PathBytesInjective(a: seq<Bytes>, b: seq<Bytes>)
    requires GoodPath(a) && GoodPath(b) && a != [] && b != [] && PathBytes(a) == PathBytes(b)
    ensures a == b
  {
    var m, n := |a| - 1, |b| - 1;
    if m == 0 {
      assert PathBytes(a[..0]) == [];
      OneName(b, a[0]);
    } else if n == 0 {
      assert PathBytes(b[..0]) == [];
      OneName(a, b[0]);
    } else {
      PathLacksNul(a[..m]);
      PathLacksNul(b[..n]);
      LastName(PathBytes(a[..m]), PathBytes(b[..n]), a[m], b[n]);
      PathBytesInjective(a[..m], b[..n]);
      assert a == a[..m] + [a[m]] && b == b[..n] + [b[n]];
    }
  }

  predicate GoodRecord(r: Record) {
    r.path != [] && GoodPath(r.path) && (r.LinkAt? ==> Lacks(r.target, NUL))
  }

  lemma {:induction false} DigitsAreBytes(n: nat)
    ensures LengthBytes(n) == Decimal.Digits(n) && Lacks(LengthBytes(n), NUL)
  {
    var digits := Decimal.Digits(n);
    forall i | 0 <= i < |digits|
      ensures digits[i] != NUL && digits[i] < 0x80
    {
      assert digits[i] in digits;
    }
    EncodeAscii(digits);
  }

  /** A record's bytes after its kind and path. */
  function Body(r: Record): Bytes {
    match r
    case FolderAt(_) => []
    case LinkAt(_, target) => target + [NUL]
    case FileAt(_, bytes) => LengthBytes(|bytes|) + ([NUL] + bytes)
  }

  function Kind(r: Record): Byte {
    match r
    case FolderAt(_) => D
    case LinkAt(_, _) => L
    case FileAt(_, _) => F
  }

  lemma {:induction false} EncodeParts(r: Record, rest: Bytes)
    ensures EncodeRecord(r) + rest == [Kind(r), NUL] + (PathBytes(r.path) + ([NUL] + (Body(r) + rest)))
  {
    var p := PathBytes(r.path);
    Associate([NUL], Body(r), rest);
    Associate(p, [NUL] + Body(r), rest);
    Associate([Kind(r), NUL], p + ([NUL] + Body(r)), rest);
    assert [NUL] + [] == [NUL];
  }

  lemma {:induction false} SameHead(a: Byte, b: Byte, x: Bytes, y: Bytes)
    requires [a, NUL] + x == [b, NUL] + y
    ensures a == b && x == y
  {
    assert ([a, NUL] + x)[0] == a && ([b, NUL] + y)[0] == b;
    assert ([a, NUL] + x)[2..] == x && ([b, NUL] + y)[2..] == y;
  }

  lemma {:induction false} SameBody(r: Record, s: Record, x: Bytes, y: Bytes)
    requires GoodRecord(r) && GoodRecord(s) && Kind(r) == Kind(s) && r.path == s.path && Body(r) + x == Body(s) + y
    ensures r == s && x == y
  {
    match r
    case FolderAt(_) =>
      assert [] + x == x && [] + y == y;
    case LinkAt(_, target) =>
      Associate(target, [NUL], x);
      Associate(s.target, [NUL], y);
      EndsAtMark(target, s.target, NUL, x, y);
    case FileAt(_, bytes) => SameFile(bytes, s.bytes, x, y);
  }

  lemma {:induction false} SameFile(a: Bytes, b: Bytes, x: Bytes, y: Bytes)
    requires (LengthBytes(|a|) + ([NUL] + a)) + x == (LengthBytes(|b|) + ([NUL] + b)) + y
    ensures a == b && x == y
  {
    var c, d := LengthBytes(|a|), LengthBytes(|b|);
    Associate(c, [NUL] + a, x);
    Associate(d, [NUL] + b, y);
    Associate([NUL], a, x);
    Associate([NUL], b, y);
    DigitsAreBytes(|a|);
    DigitsAreBytes(|b|);
    EndsAtMark(c, d, NUL, a + x, b + y);
    Decimal.DigitsInjective(|a|, |b|);
    assert a == (a + x)[..|a|] && b == (b + y)[..|b|];
    assert x == (a + x)[|a|..] && y == (b + y)[|b|..];
  }

  /** A record can be read off the front of a byte string in one way only. */
  lemma {:induction false} OneRecord(r: Record, s: Record, x: Bytes, y: Bytes)
    requires GoodRecord(r) && GoodRecord(s) && EncodeRecord(r) + x == EncodeRecord(s) + y
    ensures r == s && x == y
  {
    EncodeParts(r, x);
    EncodeParts(s, y);
    SameHead(Kind(r), Kind(s), PathBytes(r.path) + ([NUL] + (Body(r) + x)), PathBytes(s.path) + ([NUL] + (Body(s) + y)));
    PathLacksNul(r.path);
    PathLacksNul(s.path);
    EndsAtMark(PathBytes(r.path), PathBytes(s.path), NUL, Body(r) + x, Body(s) + y);
    PathBytesInjective(r.path, s.path);
    SameBody(r, s, x, y);
  }

  predicate GoodRecords(records: seq<Record>) {
    forall i :: 0 <= i < |records| ==> GoodRecord(records[i])
  }

  /** A byte string is the encoding of one list of records at most. */
  lemma {:induction false} DecodesOnce(a: seq<Record>, b: seq<Record>)
    requires GoodRecords(a) && GoodRecords(b) && EncodeAll(a) == EncodeAll(b)
    ensures a == b
  {
    if a == [] || b == [] {
      NotEmpty(a);
      NotEmpty(b);
    } else {
      OneRecord(a[0], b[0], EncodeAll(a[1..]), EncodeAll(b[1..]));
      DecodesOnce(a[1..], b[1..]);
      SameList(a, b);
    }
  }

  lemma {:induction false} SameList(a: seq<Record>, b: seq<Record>)
    requires a != [] && b != [] && a[0] == b[0] && a[1..] == b[1..]
    ensures a == b
  {
    assert a == [a[0]] + a[1..] && b == [b[0]] + b[1..];
  }

  lemma {:induction false} NotEmpty(records: seq<Record>)
    ensures EncodeAll(records) == [] <==> records == []
  {
    if records != [] {
      EncodeParts(records[0], EncodeAll(records[1..]));
    }
  }

  // ----- Rebuilding the tree

  /** Names as a file system has them, and targets without NUL characters. */
  predicate GoodShapes(shapes: seq<Shape>)
    decreases shapes, 1
  {
    shapes == [] || (GoodShape(shapes[0]) && GoodShapes(shapes[1..]))
  }

  predicate GoodShape(s: Shape)
    decreases s, 0
  {
    && s.name != [] && SLASH !in s.name && NUL !in s.name
    && (s.LinkShape? ==> NUL !in s.target)
    && (s.FolderShape? ==> GoodShapes(s.shapes))
  }

  lemma {:induction false} NameIsGood(s: Shape)
    requires GoodShape(s)
    ensures GoodName(Encode(s.name)) && (s.LinkShape? ==> Lacks(Encode(s.target), NUL))
  {
    EncodeLacks(s.name, SLASH);
    EncodeLacks(s.name, NUL);
    if s.LinkShape? {
      EncodeLacks(s.target, NUL);
    }
  }

  /** Every record lies at least so deep. */
  predicate Deep(records: seq<Record>, depth: nat) {
    forall i :: 0 <= i < |records| ==> |records[i].path| >= depth
  }

  lemma {:induction false} FlattenIsGood(path: seq<Bytes>, shapes: seq<Shape>)
    requires GoodPath(path) && GoodShapes(shapes)
    ensures GoodRecords(Flatten(path, shapes)) && Deep(Flatten(path, shapes), |path| + 1)
    ensures shapes != [] ==> Flatten(path, shapes) != [] && |Flatten(path, shapes)[0].path| == |path| + 1
    decreases shapes, 1
  {
    if shapes != [] {
      FlattenOneIsGood(path, shapes[0]);
      FlattenIsGood(path, shapes[1..]);
    }
  }

  lemma {:induction false} FlattenOneIsGood(path: seq<Bytes>, s: Shape)
    requires GoodPath(path) && GoodShape(s)
    ensures GoodRecords(FlattenOne(path, s)) && Deep(FlattenOne(path, s), |path| + 1)
    ensures FlattenOne(path, s) != [] && |FlattenOne(path, s)[0].path| == |path| + 1
    ensures Deep(FlattenOne(path, s)[1..], |path| + 2)
    decreases s, 0
  {
    NameIsGood(s);
    if s.FolderShape? {
      FlattenIsGood(path + [Encode(s.name)], s.shapes);
      assert FlattenOne(path, s)[1..] == Flatten(path + [Encode(s.name)], s.shapes);
    }
  }

  /** The records of a folder's entries end where the depth falls back. */
  lemma {:induction false} SplitByDepth(a: seq<Record>, r: seq<Record>, b: seq<Record>, s: seq<Record>, depth: nat)
    requires a + r == b + s && Deep(a, depth) && Deep(b, depth)
    requires (r != [] ==> |r[0].path| < depth) && (s != [] ==> |s[0].path| < depth)
    ensures a == b && r == s
  {
    assert |a| == |b| by {
      DepthNotLonger(a, r, b, s, depth);
      DepthNotLonger(b, s, a, r, depth);
    }
    assert a == (a + r)[..|a|] && b == (b + s)[..|b|];
    assert r == (a + r)[|a|..] && s == (b + s)[|b|..];
  }

  lemma {:induction false} DepthNotLonger(a: seq<Record>, r: seq<Record>, b: seq<Record>, s: seq<Record>, depth: nat)
    requires a + r == b + s && Deep(a, depth) && (s != [] ==> |s[0].path| < depth)
    ensures |a| <= |b|
  {
    if |a| > |b| {
      DeeperDiffers(a, r, b, s, depth);
    }
  }

  lemma {:induction false} DeeperDiffers(a: seq<Record>, r: seq<Record>, b: seq<Record>, s: seq<Record>, depth: nat)
    requires |a| > |b| && Deep(a, depth) && (s != [] ==> |s[0].path| < depth)
    ensures a + r != b + s
  {
    if |a + r| == |b + s| {
      assert (a + r)[|b|] == a[|b|];
      assert (b + s)[|b|] == s[0];
    }
  }

  /** The tree with the lone surrogates of its names and link targets replaced, as a reader of the bytes sees it. */
  function Shown(shapes: seq<Shape>): seq<Shape>
    decreases shapes, 1
  {
    if shapes == [] then [] else [ShownOne(shapes[0])] + Shown(shapes[1..])
  }

  function ShownOne(s: Shape): Shape
    decreases s, 0
  {
    match s
    case FolderShape(name, shapes) => FolderShape(Replaced(name), Shown(shapes))
    case LinkShape(name, target) => LinkShape(Replaced(name), Replaced(target))
    case FileShape(name, bytes) => FileShape(Replaced(name), bytes)
  }

  /** Trees that are shown alike have the same records. */
  lemma {:induction false} ShownFlattens(path: seq<Bytes>, a: seq<Shape>, b: seq<Shape>)
    requires Shown(a) == Shown(b)
    ensures Flatten(path, a) == Flatten(path, b)
    decreases a, 1
  {
    if a != [] {
      assert Shown(a)[0] == ShownOne(a[0]) && Shown(b)[0] == ShownOne(b[0]);
      assert Shown(a)[1..] == Shown(a[1..]) && Shown(b)[1..] == Shown(b[1..]);
      ShownOneFlattens(path, a[0], b[0]);
      ShownFlattens(path, a[1..], b[1..]);
    }
  }

  lemma {:induction false} ShownOneFlattens(path: seq<Bytes>, a: Shape, b: Shape)
    requires ShownOne(a) == ShownOne(b)
    ensures FlattenOne(path, a) == FlattenOne(path, b)
    decreases a, 0
  {
    EncodedAlike(a.name, b.name);
    match a
    case FolderShape(name, shapes) => ShownFlattens(path + [Encode(name)], shapes, b.shapes);
    case LinkShape(_, target) => EncodedAlike(target, b.target);
    case FileShape(_, _) =>
  }

  /** A list of records is that of one tree as it is shown. */
  lemma {:induction false} SameFlatten(path: seq<Bytes>, a: seq<Shape>, b: seq<Shape>)
    requires GoodPath(path) && GoodShapes(a) && GoodShapes(b) && Flatten(path, a) == Flatten(path, b)
    ensures Shown(a) == Shown(b)
    decreases a, 1
  {
    FlattenIsGood(path, a);
    FlattenIsGood(path, b);
    if a != [] && b != [] {
      FlattenOneIsGood(path, a[0]);
      FlattenOneIsGood(path, b[0]);
      FlattenIsGood(path, a[1..]);
      FlattenIsGood(path, b[1..]);
      SameHeads(FlattenOne(path, a[0]), Flatten(path, a[1..]), FlattenOne(path, b[0]), Flatten(path, b[1..]), |path| + 2);
      SameFlattenOne(path, a[0], b[0]);
      SameFlatten(path, a[1..], b[1..]);
    }
  }

  lemma {:induction false} SameHeads(a: seq<Record>, r: seq<Record>, b: seq<Record>, s: seq<Record>, depth: nat)
    requires a != [] && b != [] && a + r == b + s && Deep(a[1..], depth) && Deep(b[1..], depth)
    requires (r != [] ==> |r[0].path| < depth) && (s != [] ==> |s[0].path| < depth)
    ensures a == b && r == s
  {
    assert (a + r)[0] == a[0] && (b + s)[0] == b[0];
    assert (a + r)[1..] == a[1..] + r && (b + s)[1..] == b[1..] + s;
    SplitByDepth(a[1..], r, b[1..], s, depth);
    assert a == [a[0]] + a[1..] && b == [b[0]] + b[1..];
  }

  lemma {:induction false} SameFlattenOne(path: seq<Bytes>, a: Shape, b: Shape)
    requires GoodPath(path) && GoodShape(a) && GoodShape(b) && FlattenOne(path, a) == FlattenOne(path, b)
    ensures ShownOne(a) == ShownOne(b)
    decreases a, 0
  {
    assert FlattenOne(path, a)[0].path[|path|] == Encode(a.name) && FlattenOne(path, b)[0].path[|path|] == Encode(b.name);
    EncodedAlike(a.name, b.name);
    var inner := path + [Encode(a.name)];
    NameIsGood(a);
    match a
    case FolderShape(_, shapes) =>
      assert FlattenOne(path, a)[0] == FolderAt(inner);
      assert b.FolderShape?;
      assert FlattenOne(path, a)[1..] == Flatten(inner, shapes);
      assert FlattenOne(path, b)[1..] == Flatten(inner, b.shapes);
      SameFlatten(inner, shapes, b.shapes);
    case LinkShape(_, target) =>
      assert FlattenOne(path, b)[0].LinkAt?;
      EncodedAlike(target, b.target);
    case FileShape(_, bytes) => assert FlattenOne(path, b)[0].FileAt?;
  }

  /** Two trees within the limits hash the same bytes exactly when they are shown alike outside ".git" and devices: the
      same names, link targets and file contents in the same places, with lone surrogates replaced. */
  lemma {:induction false} DigestIsShown(a: Listing, b: Listing)
    requires WalkRoot(a).Ok? && WalkRoot(b).Ok?
    requires a.Listed? && Readable(a.entries) && GoodShapes(Visible(a.entries))
    requires b.Listed? && Readable(b.entries) && GoodShapes(Visible(b.entries))
    ensures WalkRoot(a).tally.digest == WalkRoot(b).tally.digest <==> Shown(Visible(a.entries)) == Shown(Visible(b.entries))
  {
    var t := Tally(0, 0, 0, []);
    var x, y := Visible(a.entries), Visible(b.entries);
    WalkHashes(t, [], [], a.entries);
    WalkHashes(t, [], [], b.entries);
    assert forall s: Bytes :: [] + s == s;
    FlattenIsGood([], x);
    FlattenIsGood([], y);
    if WalkRoot(a).tally.digest == WalkRoot(b).tally.digest {
      DecodesOnce(Flatten([], x), Flatten([], y));
      SameFlatten([], x, y);
    }
    if Shown(x) == Shown(y) {
      ShownFlattens([], x, y);
    }
  }

  /** Names and link targets without lone surrogates. */
  predicate WellNamed(shapes: seq<Shape>)
    decreases shapes, 1
  {
    shapes == [] || (WellNamedOne(shapes[0]) && WellNamed(shapes[1..]))
  }

  predicate WellNamedOne(s: Shape)
    decreases s, 0
  {
    && WellFormed(s.name)
    && (s.LinkShape? ==> WellFormed(s.target))
    && (s.FolderShape? ==> WellNamed(s.shapes))
  }

  lemma {:induction false} ShownIsItself(shapes: seq<Shape>)
    requires WellNamed(shapes)
    ensures Shown(shapes) == shapes
    decreases shapes, 1
  {
    if shapes != [] {
      ShownOneIsItself(shapes[0]);
      ShownIsItself(shapes[1..]);
      assert shapes == [shapes[0]] + shapes[1..];
    }
  }

  lemma {:induction false} ShownOneIsItself(s: Shape)
    requires WellNamedOne(s)
    ensures ShownOne(s) == s
    decreases s, 0
  {
    ReplacedOfWellFormed(s.name);
    match s
    case FolderShape(_, shapes) => ShownIsItself(shapes);
    case LinkShape(_, target) => ReplacedOfWellFormed(target);
    case FileShape(_, _) =>
  }

  /** Without lone surrogates, two trees hash the same bytes exactly when they are the same outside ".git" and devices. */
  lemma {:induction false} DigestIsTree(a: Listing, b: Listing)
    requires WalkRoot(a).Ok? && WalkRoot(b).Ok?
    requires a.Listed? && Readable(a.entries) && GoodShapes(Visible(a.entries)) && WellNamed(Visible(a.entries))
    requires b.Listed? && Readable(b.entries) && GoodShapes(Visible(b.entries)) && WellNamed(Visible(b.entries))
    ensures WalkRoot(a).tally.digest == WalkRoot(b).tally.digest <==> Visible(a.entries) == Visible(b.entries)
  {
    DigestIsShown(a, b);
    ShownIsItself(Visible(a.entries));
    ShownIsItself(Visible(b.entries));
  }

  // ----- Where two trees collide

  /** A tree of one empty file. */
  function OneFile(name: Text): Listing {
    Listed([File(name, Opened(0, [], false))])
  }

  /** The names U+D800 and U+D801 are different, and the trees of one file so named hash the same bytes. */
  lemma {:induction false} LoneSurrogatesCollide()
    ensures Visible(OneFile([0xD800]).entries) != Visible(OneFile([0xD801]).entries)
    ensures GoodShapes(Visible(OneFile([0xD800]).entries)) && GoodShapes(Visible(OneFile([0xD801]).entries))
    ensures WalkRoot(OneFile([0xD800])).Ok? && WalkRoot(OneFile([0xD801])).Ok?
    ensures WalkRoot(OneFile([0xD800])).tally.digest == WalkRoot(OneFile([0xD801])).tally.digest
  {
    var a, b: Text := [0xD800], [0xD801];
    OneFileWalks(a);
    OneFileWalks(b);
    assert Replaced(a) == [REPLACEMENT] + Replaced([]) == Replaced(b);
    DigestIsShown(OneFile(a), OneFile(b));
  }

  lemma {:induction false} OneFileWalks(name: Text)
    requires name != [] && SLASH !in name && NUL !in name && name != GIT
    ensures var root := OneFile(name);
      && WalkRoot(root).Ok? && Readable(root.entries) && Visible(root.entries) == [FileShape(name, [])]
      && GoodShapes(Visible(root.entries)) && Shown(Visible(root.entries)) == [FileShape(Replaced(name), [])]
  {
    OneEntry(OneFile(name).entries[0]);
    OneShape(FileShape(name, []));
    DigestLimits(OneFile(name));
  }

  lemma {:induction false} OneEntry(e: Entry)
    requires ReadableOne(e)
    ensures Readable([e]) && Visible([e]) == VisibleOne(e) && SumOf([e]) == SumOfOne(e)
  {
    assert [e][1..] == [] && Readable([]);
    assert Visible([e]) == VisibleOne(e) + [] && SumOf([e]) == Plus(SumOfOne(e), Sum(0, 0, 0));
  }

  lemma {:induction false} OneShape(s: Shape)
    ensures GoodShapes([s]) == GoodShape(s) && Shown([s]) == [ShownOne(s)]
  {
    assert [s][1..] == [] && GoodShapes([]) && Shown([]) == [];
  }
}
