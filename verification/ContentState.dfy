/**
 The digest of a worktree's content. The source walks the tree with its own stack under three limits and hashes one record
 for each entry it meets; here the digest is the byte string that is hashed. Names and link targets are UTF-16 texts, of
 which the UTF-8 encoding is hashed.
 */
module ContentState {
  import opened Utf16
  import opened Sequences
  import opened Utf8
  import Decimal

  const MAXIMUM_FILES := 50_000
  const MAXIMUM_FOLDERS := 10_000
  const MAXIMUM_BYTES := 0x4000_0000

  /** What reading a file meets: its length when it was opened, the bytes it then holds, and whether it changed. */
  datatype Opening = Refused | Opened(length: nat, bytes: Bytes, changed: bool)

  datatype Listing = Unlisted | Listed(entries: seq<Entry>)

  /** The entries of a folder in the order of the walk; a link's target and a folder's listing may be unreadable. */
  datatype Entry =
    | Folder(name: Text, listing: Listing)
    | Link(name: Text, target: Target)
    | Device(name: Text)
    | File(name: Text, opening: Opening)

  datatype Target = Unresolved | Target(path: Text)

  datatype Failure = TooLarge | Unreadable

  /** What the walk has counted and hashed. */
  datatype Tally = Tally(files: nat, folders: nat, bytes: nat, digest: Bytes)

  datatype Outcome = Ok(tally: Tally) | Failed(failure: Failure)

  const GIT: Text := [DOT, 0x67, 0x69, 0x74]
  const D: Unit := 0x44
  const F: Unit := 0x46
  const L: Unit := 0x4C

  function Relative(prefix: Text, name: Text): Text {
    if prefix == [] then name else prefix + ([SLASH] + name)
  }

  function FolderRecord(path: Text): Bytes {
    Encode([D, NUL] + (path + [NUL]))
  }

  function LinkRecord(path: Text, target: Text): Bytes {
    Encode([L, NUL] + (path + ([NUL] + (target + [NUL]))))
  }

  function FileHeader(path: Text, length: nat): Bytes {
    Encode([F, NUL] + (path + ([NUL] + (Decimal.Digits(length) + [NUL]))))
  }

  function FileRecord(path: Text, bytes: Bytes): Bytes {
    FileHeader(path, |bytes|) + bytes
  }

  /** The layout of the records: a letter for the kind, and a NUL character after each part before a file's bytes. */
  lemma {:induction false} RecordsAre(path: Text, target: Text, bytes: Bytes)
    ensures FolderRecord(path) == Encode(Units("D\0") + (path + Units("\0")))
    ensures LinkRecord(path, target) == Encode(Units("L\0") + (path + (Units("\0") + (target + Units("\0")))))
    ensures FileRecord(path, bytes) ==
            Encode(Units("F\0") + (path + (Units("\0") + (Decimal.Digits(|bytes|) + Units("\0"))))) + bytes
  {
    assert Units("D\0") == [D, NUL] && Units("L\0") == [L, NUL] && Units("F\0") == [F, NUL] && Units("\0") == [NUL];
  }

  // ----- The recursive walk

  function Visit(t: Tally, prefix: Text, e: Entry): Outcome
    decreases e, 0
  {
    var path := Relative(prefix, e.name);
    if e.name == GIT then Ok(t)
    else match e
      case Folder(_, listing) =>
        if t.folders + 1 > MAXIMUM_FOLDERS then Failed(TooLarge)
        else if listing.Unlisted? then Failed(Unreadable)
        else WalkFrom(t.(folders := t.folders + 1, digest := t.digest + FolderRecord(path)), path, listing.entries)
      case Link(_, target) =>
        if t.folders + 1 > MAXIMUM_FOLDERS then Failed(TooLarge)
        else if target.Unresolved? then Failed(Unreadable)
        else Ok(t.(folders := t.folders + 1, digest := t.digest + LinkRecord(path, target.path)))
      case Device(_) => Ok(t)
      case File(_, opening) => VisitFile(t, path, opening)
  }

  function VisitFile(t: Tally, path: Text, opening: Opening): Outcome {
    if opening.Refused? then Failed(Unreadable)
    else if t.files + 1 > MAXIMUM_FILES || opening.length > MAXIMUM_BYTES - t.bytes then Failed(TooLarge)
    else if |opening.bytes| != opening.length || opening.changed then Failed(Unreadable)
    else Ok(Tally(t.files + 1, t.folders, t.bytes + opening.length, t.digest + FileRecord(path, opening.bytes)))
  }

  function WalkFrom(t: Tally, prefix: Text, entries: seq<Entry>): Outcome
    decreases entries, 1
  {
    if entries == [] then Ok(t)
    else match Visit(t, prefix, entries[0])
      case Failed(_) => Visit(t, prefix, entries[0])
      case Ok(t') => WalkFrom(t', prefix, entries[1..])
  }

  function WalkRoot(root: Listing): Outcome {
    if root.Unlisted? then Failed(Unreadable) else WalkFrom(Tally(0, 0, 0, []), [], root.entries)
  }

  // ----- The walk with a stack

  /** A folder of the walk: its entries and the next one to visit. */
  class Cursor {
    const prefix: Text
    const entries: seq<Entry>
    var next: nat

    constructor (prefix: Text, entries: seq<Entry>)
      ensures this.prefix == prefix && this.entries == entries && next == 0
    {
      this.prefix := prefix;
      this.entries := entries;
      next := 0;
    }
  }

  /** What is left of a folder. */
  datatype Left = Left(prefix: Text, entries: seq<Entry>)

  /** The walk of what is left of every folder on the stack, the top folder first. */
  function Resume(t: Tally, stack: seq<Left>): Outcome
    decreases |stack|
  {
    if stack == [] then Ok(t)
    else
      var top := stack[|stack| - 1];
      match WalkFrom(t, top.prefix, top.entries)
      case Failed(failure) => Failed(failure)
      case Ok(t') => Resume(t', stack[..|stack| - 1])
  }

  /** The entries of a tree, at every depth. */
  function Count(entries: seq<Entry>): nat
    decreases entries, 1
  {
    if entries == [] then 0 else 1 + Inner(entries[0]) + Count(entries[1..])
  }

  function Inner(e: Entry): nat
    decreases e, 0
  {
    if e.Folder? && e.listing.Listed? then 1 + Count(e.listing.entries) else 0
  }

  function StackCount(stack: seq<Left>): nat {
    if stack == [] then 0 else StackCount(stack[..|stack| - 1]) + 1 + Count(stack[|stack| - 1].entries)
  }

  /** The cursors are what the ghost stack says, each at its own place. */
  ghost predicate Mirrors(pending: seq<Cursor>, stack: seq<Left>)
    reads pending
  {
    && |pending| == |stack|
    && (forall i, j :: 0 <= i < j < |pending| ==> pending[i] != pending[j])
    && (forall i :: 0 <= i < |pending| ==>
          pending[i].next <= |pending[i].entries| && pending[i].prefix == stack[i].prefix
          && pending[i].entries[pending[i].next..] == stack[i].entries)
  }

  lemma {:induction false} ResumePop(t: Tally, stack: seq<Left>)
    requires stack != [] && stack[|stack| - 1].entries == []
    ensures Resume(t, stack) == Resume(t, stack[..|stack| - 1])
    ensures StackCount(stack[..|stack| - 1]) < StackCount(stack)
  {
  }

  /** The stack with the top folder's next entry taken. */
  function Taken(stack: seq<Left>): seq<Left>
    requires stack != [] && stack[|stack| - 1].entries != []
  {
    var n := |stack| - 1;
    stack[..n] + [Left(stack[n].prefix, stack[n].entries[1..])]
  }

  lemma {:induction false} ResumeNext(t: Tally, stack: seq<Left>)
    requires stack != [] && stack[|stack| - 1].entries != []
    ensures var top := stack[|stack| - 1];
      && (match Visit(t, top.prefix, top.entries[0])
          case Failed(failure) => Resume(t, stack) == Failed(failure)
          case Ok(t') => Resume(t, stack) == Resume(t', Taken(stack)))
      && StackCount(stack) == StackCount(Taken(stack)) + 1 + Inner(top.entries[0])
  {
    var n := |stack| - 1;
    assert Taken(stack)[..n] == stack[..n];
  }

  lemma {:induction false} ResumeInto(t: Tally, stack: seq<Left>, prefix: Text, entries: seq<Entry>)
    ensures var more := stack + [Left(prefix, entries)];
      && (match WalkFrom(t, prefix, entries)
          case Failed(failure) => Resume(t, more) == Failed(failure)
          case Ok(t') => Resume(t, more) == Resume(t', stack))
      && StackCount(more) == StackCount(stack) + 1 + Count(entries)
  {
    assert (stack + [Left(prefix, entries)])[..|stack|] == stack;
  }

  /** ExistingEntry.AppendToHash: reads blocks of any size up to 64 KiB, and one byte beyond the captured length. */
  method AppendToHash(digest: Bytes, opening: Opening) returns (r: Bytes, settled: bool)
    requires opening.Opened?
    ensures settled == (|opening.bytes| == opening.length && !opening.changed)
    ensures settled ==> r == digest + opening.bytes
  {
    var total := 0;
    r := digest;
    while true
      invariant 0 <= total <= opening.length && total <= |opening.bytes| && r == digest + opening.bytes[..total]
      decreases |opening.bytes| - total
    {
      var remaining := opening.length - total;
      var count := if remaining == 0 then 1 else if remaining < 0x1_0000 then remaining else 0x1_0000;
      if total == |opening.bytes| { break; }
      var read :| 0 < read <= count && read <= |opening.bytes| - total;
      if read > remaining { return r, false; }
      r := r + opening.bytes[total..total + read];
      assert opening.bytes[..total + read] == opening.bytes[..total] + opening.bytes[total..total + read];
      total := total + read;
    }
    assert opening.bytes[..total] == opening.bytes;
    settled := total == opening.length && !opening.changed;
  }

  method HashFile(t: Tally, path: Text, opening: Opening) returns (r: Outcome)
    ensures r == VisitFile(t, path, opening)
  {
    if opening.Refused? { return Failed(Unreadable); }
    var files := t.files + 1;
    if files > MAXIMUM_FILES || opening.length > MAXIMUM_BYTES - t.bytes { return Failed(TooLarge); }
    var header := FileHeader(path, opening.length);
    var digest, settled := AppendToHash(t.digest + header, opening);
    if !settled { return Failed(Unreadable); }
    Associate(t.digest, header, opening.bytes);
    return Ok(Tally(files, t.folders, t.bytes + opening.length, digest));
  }

  /** Takes the next entry of the folder on top. */
  method Advance(pending: seq<Cursor>, ghost stack: seq<Left>) returns (e: Entry)
    requires Mirrors(pending, stack) && stack != [] && stack[|stack| - 1].entries != []
    modifies pending[|pending| - 1]
    ensures Mirrors(pending, Taken(stack)) && e == stack[|stack| - 1].entries[0]
  {
    var folder := pending[|pending| - 1];
    e := folder.entries[folder.next];
    folder.next := folder.next + 1;
    ghost var n := |stack| - 1;
    assert folder.entries[folder.next..] == stack[n].entries[1..];
    assert forall i :: 0 <= i < n ==> Taken(stack)[i] == stack[i];
  }

  /** Opens a folder on top of the stack. */
  method Enter(pending: seq<Cursor>, path: Text, entries: seq<Entry>, ghost stack: seq<Left>)
    returns (pending': seq<Cursor>)
    requires Mirrors(pending, stack)
    ensures Mirrors(pending', stack + [Left(path, entries)])
    ensures forall c :: c in pending' ==> c in pending || fresh(c)
  {
    var inner := new Cursor(path, entries);
    assert entries[0..] == entries;
    pending' := pending + [inner];
  }

  /** Counts an entry and adds its record; a folder's entries are still to come. */
  method Add(t: Tally, ghost prefix: Text, path: Text, e: Entry) returns (r: Outcome)
    requires e.name != GIT && path == Relative(prefix, e.name)
    ensures match e
      case Folder(_, listing) =>
        r == if t.folders + 1 > MAXIMUM_FOLDERS then Failed(TooLarge)
             else if listing.Unlisted? then Failed(Unreadable)
             else Ok(t.(folders := t.folders + 1, digest := t.digest + FolderRecord(path)))
      case _ => r == Visit(t, prefix, e)
  {
    var folders := t.folders + if e.Link? || e.Folder? then 1 else 0;
    if (e.Link? || e.Folder?) && folders > MAXIMUM_FOLDERS { return Failed(TooLarge); }
    match e
    case Link(_, target) =>
      if target.Unresolved? { return Failed(Unreadable); }
      return Ok(t.(folders := folders, digest := t.digest + LinkRecord(path, target.path)));
    case Folder(_, listing) =>
      r := Ok(t.(folders := folders, digest := t.digest + FolderRecord(path)));
      if listing.Unlisted? { return Failed(Unreadable); }
    case Device(_) => return Ok(t);
    case File(_, opening) => r := HashFile(t, path, opening);
  }

  /** One turn at an entry of the folder on top. */
  method Turn(t: Tally, pending: seq<Cursor>, ghost stack: seq<Left>)
    returns (r: Outcome, pending': seq<Cursor>, ghost stack': seq<Left>)
    requires Mirrors(pending, stack) && stack != [] && stack[|stack| - 1].entries != []
    modifies pending[|pending| - 1]
    ensures r.Failed? ==> Resume(t, stack) == r
    ensures r.Ok? ==> Mirrors(pending', stack') && Resume(r.tally, stack') == Resume(t, stack)
    ensures r.Ok? ==> StackCount(stack') < StackCount(stack)
    ensures forall c :: c in pending' ==> c in pending || fresh(c)
  {
    var prefix := pending[|pending| - 1].prefix;
    var e := Advance(pending, stack);
    pending' := pending;
    stack' := Taken(stack);
    var path := Relative(prefix, e.name);
    if e.name == GIT {
      r := Ok(t);
      ResumeNext(t, stack);
      return;
    }
    r := Add(t, prefix, path, e);
    if !e.Folder? {
      ResumeNext(t, stack);
    } else if r.Failed? {
      ResumeRefused(t, stack, e, path, r);
    } else {
      pending' := Enter(pending, path, e.listing.entries, stack');
      ResumeFolder(t, stack, e, path);
      stack' := stack' + [Left(path, e.listing.entries)];
    }
  }

  lemma {:induction false} ResumeRefused(t: Tally, stack: seq<Left>, e: Entry, path: Text, r: Outcome)
    requires stack != [] && e.Folder? && e.name != GIT
    requires stack[|stack| - 1].entries != [] && e == stack[|stack| - 1].entries[0]
    requires path == Relative(stack[|stack| - 1].prefix, e.name)
    requires t.folders + 1 > MAXIMUM_FOLDERS || e.listing.Unlisted?
    requires r == Failed(if t.folders + 1 > MAXIMUM_FOLDERS then TooLarge else Unreadable)
    ensures Resume(t, stack) == r
  {
    ResumeNext(t, stack);
  }

  /** What is left after the top folder's next entry, when that entry is a folder. */
  lemma {:induction false} ResumeFolder(t: Tally, stack: seq<Left>, e: Entry, path: Text)
    requires stack != [] && e.Folder? && e.name != GIT && e.listing.Listed? && t.folders + 1 <= MAXIMUM_FOLDERS
    requires stack[|stack| - 1].entries != [] && e == stack[|stack| - 1].entries[0]
    requires path == Relative(stack[|stack| - 1].prefix, e.name)
    ensures var more := Taken(stack) + [Left(path, e.listing.entries)];
      && Resume(t, stack) == Resume(t.(folders := t.folders + 1, digest := t.digest + FolderRecord(path)), more)
      && StackCount(more) < StackCount(stack)
  {
    ResumeNext(t, stack);
    ResumeInto(t.(folders := t.folders + 1, digest := t.digest + FolderRecord(path)), Taken(stack), path,
               e.listing.entries);
  }

  /** folder.Next == folder.Entries.Count. */
  method IsDone(pending: seq<Cursor>, ghost stack: seq<Left>) returns (done: bool)
    requires Mirrors(pending, stack) && pending != []
    ensures done == (stack[|stack| - 1].entries == [])
  {
    var folder := pending[|pending| - 1];
    done := folder.next == |folder.entries|;
  }

  /** Pops a folder with no entry left. */
  method Leave(ghost t: Tally, pending: seq<Cursor>, ghost stack: seq<Left>) returns (pending': seq<Cursor>)
    requires Mirrors(pending, stack) && stack != [] && stack[|stack| - 1].entries == []
    ensures Mirrors(pending', stack[..|stack| - 1]) && forall c :: c in pending' ==> c in pending
    ensures Resume(t, stack[..|stack| - 1]) == Resume(t, stack) && StackCount(stack[..|stack| - 1]) < StackCount(stack)
  {
    ResumePop(t, stack);
    pending' := pending[..|pending| - 1];
  }

  method Digest(root: Listing) returns (r: Outcome)
    ensures r == WalkRoot(root)
  {
    if root.Unlisted? { return Failed(Unreadable); }
    var t := Tally(0, 0, 0, []);
    ghost var stack: seq<Left> := [];
    ResumeInto(t, stack, [], root.entries);
    var pending := Enter([], [], root.entries, stack);
    stack := stack + [Left([], root.entries)];
    while |pending| > 0
      invariant Mirrors(pending, stack) && forall c :: c in pending ==> fresh(c)
      invariant Resume(t, stack) == WalkRoot(root)
      decreases StackCount(stack)
    {
      var done := IsDone(pending, stack);
      if done {
        pending := Leave(t, pending, stack);
        stack := stack[..|stack| - 1];
        continue;
      }
      assert pending[|pending| - 1] in pending;
      r, pending, stack := Turn(t, pending, stack);
      if r.Failed? { return; }
      t := r.tally;
    }
    return Ok(t);
  }
}
