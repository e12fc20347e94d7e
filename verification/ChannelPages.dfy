/** Pages of a project's messages: at most twenty messages and 64 KiB each, forward from a cursor or backward before it. */
module ChannelPages {
  import opened Utf16
  import opened Wrappers
  import opened Sequences
  import opened ChannelIndex
  import Decimal

  /** Who reads, and whether it is the task's inbox. */
  datatype Reader = Reader(taskId: Text, createdAt: Text, inbox: bool)

  /** Whether a reader may see a message: direct messages are its own, and the inbox leaves out the task's own agent
      messages and anything older than the task. */
  predicate Sees(reader: Reader, m: Indexed) {
    && !(m.recipient.Some? && m.recipient.value != [] && m.recipient.value != reader.taskId
         && (reader.inbox || m.sender != reader.taskId))
    && !(reader.inbox
         && ((m.sender == reader.taskId && m.actor == AGENT) || Decimal.Below(m.createdAt, reader.createdAt)))
  }

  const AGENT: Text := [0x61, 0x67, 0x65, 0x6E, 0x74]

  predicate IsSorted(messages: seq<Indexed>) {
    forall i, j :: 0 <= i < j < |messages| ==> messages[i].sequence < messages[j].sequence
  }

  // ----- What may be read, by a linear filter

  function Visible(reader: Reader, messages: seq<Indexed>): (kept: seq<Indexed>)
    ensures |kept| <= |messages|
  {
    if messages == [] then []
    else (if Sees(reader, messages[0]) then [messages[0]] else []) + Visible(reader, messages[1..])
  }

  function After(messages: seq<Indexed>, cursor: int): (kept: seq<Indexed>)
    ensures |kept| <= |messages|
  {
    if messages == [] then []
    else (if messages[0].sequence > cursor then [messages[0]] else []) + After(messages[1..], cursor)
  }

  function Prior(messages: seq<Indexed>, cursor: int): (kept: seq<Indexed>)
    ensures |kept| <= |messages|
  {
    if messages == [] then []
    else (if messages[0].sequence < cursor then [messages[0]] else []) + Prior(messages[1..], cursor)
  }

  function Reversed<T>(s: seq<T>): (r: seq<T>)
    ensures |r| == |s| && forall i :: 0 <= i < |s| ==> r[i] == s[|s| - 1 - i]
  {
    if s == [] then [] else Reversed(s[1..]) + [s[0]]
  }

  /** The messages a page is filled from, in the order it takes them. */
  function Candidates(reader: Reader, messages: seq<Indexed>, cursor: int, backwards: bool): seq<Indexed> {
    if backwards then Reversed(Visible(reader, Prior(messages, cursor))) else Visible(reader, After(messages, cursor))
  }

  // ----- One page

  /** A page, or the failure of a page whose first message alone is over the limit, which the source does not survive. */
  datatype Page = Page(messages: seq<Indexed>, nextCursor: Option<nat>) | Crash

  function SizeOf(size: nat -> nat, messages: seq<Indexed>): nat {
    if messages == [] then 0 else SizeOf(size, messages[..|messages| - 1]) + size(messages[|messages| - 1].sequence)
  }

  /** How many of the candidates a page takes: at most twenty, while their JSON fits the limit. */
  function Fit(size: nat -> nat, candidates: seq<Indexed>, taken: nat): (n: nat)
    requires taken <= |candidates|
    ensures taken <= n <= |candidates|
    decreases |candidates| - taken
  {
    if taken == |candidates| || taken >= PAGE_SIZE || SizeOf(size, candidates[..taken + 1]) > PAGE_BYTES then taken
    else Fit(size, candidates, taken + 1)
  }

  function PageOf(size: nat -> nat, candidates: seq<Indexed>, backwards: bool): Page {
    var n := Fit(size, candidates, 0);
    var messages := if backwards then Reversed(candidates[..n]) else candidates[..n];
    if |candidates| <= n then Page(messages, None)
    else if n == 0 then Crash
    else Page(messages, Some(candidates[n - 1].sequence))
  }

  lemma {:induction false} VisibleJoin(reader: Reader, a: seq<Indexed>, b: seq<Indexed>)
    ensures Visible(reader, a + b) == Visible(reader, a) + Visible(reader, b)
  {
    if a == [] {
      assert a + b == b;
      assert [] + Visible(reader, b) == Visible(reader, b);
    } else {
      assert (a + b)[1..] == a[1..] + b;
      VisibleJoin(reader, a[1..], b);
    }
  }

  lemma {:induction false} VisibleOne(reader: Reader, m: Indexed)
    ensures Visible(reader, [m]) == if Sees(reader, m) then [m] else []
  {
  }

  lemma {:induction false} AfterFrom(messages: seq<Indexed>, cursor: int, low: nat)
    requires low <= |messages|
    requires forall i :: 0 <= i < |messages| ==> (i < low <==> messages[i].sequence <= cursor)
    ensures After(messages, cursor) == messages[low..]
  {
    if messages != [] {
      if low == 0 {
        AfterFrom(messages[1..], cursor, 0);
        assert messages == [messages[0]] + messages[1..];
      } else {
        AfterFrom(messages[1..], cursor, low - 1);
        assert messages[1..][low - 1..] == messages[low..];
      }
    }
  }

  lemma {:induction false} PriorUpto(messages: seq<Indexed>, cursor: int, low: nat)
    requires low <= |messages|
    requires forall i :: 0 <= i < |messages| ==> (i < low <==> messages[i].sequence < cursor)
    ensures Prior(messages, cursor) == messages[..low]
  {
    if messages != [] {
      if low == 0 {
        PriorUpto(messages[1..], cursor, 0);
      } else {
        PriorUpto(messages[1..], cursor, low - 1);
        assert messages[..low] == [messages[0]] + messages[1..][..low - 1];
      }
    }
  }

  /** The binary search: the first message after the cursor, or the first not before it. */
  method Find(messages: seq<Indexed>, cursor: int, backwards: bool) returns (low: nat)
    requires IsSorted(messages)
    ensures low <= |messages|
    ensures forall i :: 0 <= i < |messages| ==>
      (i < low <==> messages[i].sequence < cursor || (!backwards && messages[i].sequence == cursor))
  {
    var high := |messages|;
    low := 0;
    while low < high
      invariant low <= high <= |messages|
      invariant forall i :: 0 <= i < low ==>
        messages[i].sequence < cursor || (!backwards && messages[i].sequence == cursor)
      invariant forall i :: high <= i < |messages| ==>
        !(messages[i].sequence < cursor || (!backwards && messages[i].sequence == cursor))
    {
      var middle := (low + high) / 2;
      if messages[middle].sequence < cursor || (!backwards && messages[middle].sequence == cursor) {
        low := middle + 1;
      } else {
        high := middle;
      }
    }
  }

  /** What is left to look at from an index, in the direction of the page. */
  function Remaining(reader: Reader, messages: seq<Indexed>, index: int, backwards: bool): seq<Indexed>
    requires -1 <= index <= |messages|
  {
    if backwards then if index == |messages| then [] else Reversed(Visible(reader, messages[..index + 1]))
    else if index < 0 then [] else Visible(reader, messages[index..])
  }

  lemma {:induction false} RemainingStep(reader: Reader, messages: seq<Indexed>, index: nat, backwards: bool)
    requires index < |messages|
    ensures Remaining(reader, messages, index, backwards)
         == (if Sees(reader, messages[index]) then [messages[index]] else [])
            + Remaining(reader, messages, if backwards then index - 1 else index + 1, backwards)
  {
    if backwards {
      var head := messages[..index];
      assert messages[..index + 1] == head + [messages[index]];
      VisibleJoin(reader, head, [messages[index]]);
      VisibleOne(reader, messages[index]);
      ReversedLast(Visible(reader, head), messages[index]);
      assert Visible(reader, head) + [] == Visible(reader, head);
      assert [] + Reversed(Visible(reader, head)) == Reversed(Visible(reader, head));
    } else {
      assert messages[index..][1..] == messages[index + 1..];
    }
  }

  lemma {:induction false} ReversedLast<T>(s: seq<T>, x: T)
    ensures Reversed(s + [x]) == [x] + Reversed(s)
  {
    var a, b := Reversed(s + [x]), [x] + Reversed(s);
    forall i | 0 <= i < |a|
      ensures a[i] == b[i]
    {
      assert a[i] == (s + [x])[|s| - i];
    }
  }

  /** Up to one candidate more than a page holds, which tells whether there are more. */
  method Gather(reader: Reader, messages: seq<Indexed>, low: nat, backwards: bool) returns (page: seq<Indexed>)
    requires low <= |messages|
    ensures var all := Remaining(reader, messages, if backwards then low - 1 else low, backwards);
      page == if |all| <= PAGE_SIZE then all else all[..PAGE_SIZE + 1]
  {
    page := [];
    var index: int := if backwards then low - 1 else low;
    ghost var all := Remaining(reader, messages, index, backwards);
    while 0 <= index < |messages|
      invariant -1 <= index <= |messages| && |page| <= PAGE_SIZE
      invariant page + Remaining(reader, messages, index, backwards) == all
      decreases if backwards then index + 1 else |messages| - index
    {
      var message := messages[index];
      RemainingStep(reader, messages, index, backwards);
      var next := if backwards then index - 1 else index + 1;
      ghost var rest := Remaining(reader, messages, next, backwards);
      if Sees(reader, message) {
        assert page + ([message] + rest) == (page + [message]) + rest;
        page := page + [message];
        if |page| > PAGE_SIZE {
          assert all[..PAGE_SIZE + 1] == page;
          return;
        }
      } else {
        assert [] + rest == rest;
      }
      index := next;
    }
    assert Remaining(reader, messages, index, backwards) == [] by {
      if backwards && index == -1 {
        assert messages[..0] == [];
      }
      if !backwards && index == |messages| {
        assert messages[|messages|..] == [];
      }
    }
    assert page + [] == page;
  }

  lemma {:induction false} FitPrefix(size: nat -> nat, candidates: seq<Indexed>, page: seq<Indexed>, taken: nat)
    requires page == if |candidates| <= PAGE_SIZE then candidates else candidates[..PAGE_SIZE + 1]
    requires taken <= |page| && taken <= PAGE_SIZE
    ensures Fit(size, candidates, taken) == Fit(size, page, taken) <= PAGE_SIZE
    decreases PAGE_SIZE - taken
  {
    if taken < |page| && taken < PAGE_SIZE {
      assert candidates[..taken + 1] == page[..taken + 1];
      if SizeOf(size, page[..taken + 1]) <= PAGE_BYTES {
        FitPrefix(size, candidates, page, taken + 1);
      }
    }
  }

  lemma {:induction false} PageOfPrefix(size: nat -> nat, candidates: seq<Indexed>, page: seq<Indexed>, backwards: bool)
    requires page == if |candidates| <= PAGE_SIZE then candidates else candidates[..PAGE_SIZE + 1]
    ensures PageOf(size, candidates, backwards) == PageOf(size, page, backwards)
  {
    FitPrefix(size, candidates, page, 0);
    var n := Fit(size, page, 0);
    assert candidates[..n] == page[..n];
  }

  lemma {:induction false} CandidatesFrom(reader: Reader, messages: seq<Indexed>, cursor: int, backwards: bool, low: nat)
    requires low <= |messages|
    requires forall i :: 0 <= i < |messages| ==>
      (i < low <==> messages[i].sequence < cursor || (!backwards && messages[i].sequence == cursor))
    ensures Remaining(reader, messages, if backwards then low - 1 else low, backwards)
         == Candidates(reader, messages, cursor, backwards)
  {
    if backwards {
      PriorUpto(messages, cursor, low);
    } else {
      AfterFrom(messages, cursor, low);
    }
  }

  method ReadPage(reader: Reader, messages: seq<Indexed>, cursor: int, backwards: bool, size: nat -> nat)
    returns (r: Page)
    requires IsSorted(messages)
    ensures r == PageOf(size, Candidates(reader, messages, cursor, backwards), backwards)
  {
    var low := Find(messages, cursor, backwards);
    CandidatesFrom(reader, messages, cursor, backwards, low);
    var page := Gather(reader, messages, low, backwards);
    PageOfPrefix(size, Candidates(reader, messages, cursor, backwards), page, backwards);
    var selected := Select(page, size);
    if |page| > |selected| {
      if |selected| == 0 { return Crash; }
      return Page(if backwards then Reversed(selected) else selected, Some(selected[|selected| - 1].sequence));
    }
    return Page(if backwards then Reversed(selected) else selected, None);
  }

  method Select(page: seq<Indexed>, size: nat -> nat) returns (selected: seq<Indexed>)
    ensures selected == page[..Fit(size, page, 0)]
  {
    selected := [];
    var bytes := 0;
    while |selected| < |page| && |selected| < PAGE_SIZE
      invariant |selected| <= |page| && |selected| <= PAGE_SIZE && selected == page[..|selected|]
      invariant bytes == SizeOf(size, selected) && Fit(size, page, |selected|) == Fit(size, page, 0)
      decreases |page| - |selected|
    {
      var item := page[|selected|];
      assert page[..|selected| + 1] == selected + [item];
      assert (selected + [item])[..|selected|] == selected;
      if bytes + size(item.sequence) > PAGE_BYTES { break; }
      bytes := bytes + size(item.sequence);
      selected := selected + [item];
    }
  }

  // ----- Following pages

  /** A message that a page can hold alone. */
  predicate FitsAlone(size: nat -> nat, m: Indexed) {
    size(m.sequence) <= PAGE_BYTES
  }

  predicate AllFitAlone(size: nat -> nat, messages: seq<Indexed>) {
    forall i :: 0 <= i < |messages| ==> FitsAlone(size, messages[i])
  }

  /** The messages before the first that no page can hold. */
  function FirstThatFit(size: nat -> nat, messages: seq<Indexed>): seq<Indexed> {
    if messages == [] || !FitsAlone(size, messages[0]) then [] else [messages[0]] + FirstThatFit(size, messages[1..])
  }

  lemma {:induction false} AllThatFit(size: nat -> nat, messages: seq<Indexed>)
    ensures FirstThatFit(size, messages) == messages <==> AllFitAlone(size, messages)
  {
    if messages != [] {
      var rest := messages[1..];
      AllThatFit(size, rest);
      assert messages == [messages[0]] + rest;
      if FirstThatFit(size, messages) == messages {
        assert FirstThatFit(size, messages)[1..] == FirstThatFit(size, rest);
        assert forall i :: 0 < i < |messages| ==> messages[i] == rest[i - 1];
      }
    }
  }

  lemma {:induction false} FitJoin(size: nat -> nat, a: seq<Indexed>, b: seq<Indexed>)
    requires AllFitAlone(size, a)
    ensures FirstThatFit(size, a + b) == a + FirstThatFit(size, b)
  {
    if a == [] {
      assert a + b == b;
    } else {
      assert (a + b)[1..] == a[1..] + b;
      FitJoin(size, a[1..], b);
    }
  }

  lemma {:induction false} PartsFit(size: nat -> nat, messages: seq<Indexed>)
    requires SizeOf(size, messages) <= PAGE_BYTES
    ensures AllFitAlone(size, messages)
  {
    if messages != [] {
      PartsFit(size, messages[..|messages| - 1]);
    }
  }

  /** What a page takes fits, and of messages whose first fits it takes some. */
  lemma {:induction false} TakenFit(size: nat -> nat, candidates: seq<Indexed>, taken: nat)
    requires taken <= |candidates| && SizeOf(size, candidates[..taken]) <= PAGE_BYTES
    ensures SizeOf(size, candidates[..Fit(size, candidates, taken)]) <= PAGE_BYTES
    decreases |candidates| - taken
  {
    if Fit(size, candidates, taken) > taken {
      TakenFit(size, candidates, taken + 1);
    }
  }

  lemma {:induction false} PageTakes(size: nat -> nat, candidates: seq<Indexed>)
    ensures var n := Fit(size, candidates, 0);
      && AllFitAlone(size, candidates[..n])
      && (n == 0 <==> candidates == [] || !FitsAlone(size, candidates[0]))
  {
    var n := Fit(size, candidates, 0);
    assert candidates[..0] == [];
    TakenFit(size, candidates, 0);
    PartsFit(size, candidates[..n]);
    if candidates != [] {
      var first := candidates[..1];
      assert first[..0] == [] && SizeOf(size, first) == size(first[0].sequence);
    }
  }

  lemma {:induction false} VisibleSorted(reader: Reader, messages: seq<Indexed>)
    requires IsSorted(messages)
    ensures IsSorted(Visible(reader, messages))
    ensures forall m :: m in Visible(reader, messages) ==> m in messages
  {
    if messages != [] {
      VisibleSorted(reader, messages[1..]);
      forall m | m in Visible(reader, messages[1..])
        ensures messages[0].sequence < m.sequence
      {
        assert m in messages[1..];
      }
    }
  }

  /** A page fails exactly when its first message alone is over the limit. */
  lemma {:induction false} CrashesWhen(size: nat -> nat, candidates: seq<Indexed>, backwards: bool)
    ensures PageOf(size, candidates, backwards).Crash? <==> candidates != [] && size(candidates[0].sequence) > PAGE_BYTES
  {
    if candidates != [] {
      var first := candidates[..1];
      assert first[..0] == [];
      assert SizeOf(size, first) == size(first[0].sequence);
    }
  }

  /** Filtering by reader and by cursor may be done in either order. */
  lemma {:induction false} VisibleAfter(reader: Reader, messages: seq<Indexed>, cursor: int)
    ensures Visible(reader, After(messages, cursor)) == After(Visible(reader, messages), cursor)
  {
    if messages != [] {
      VisibleAfter(reader, messages[1..], cursor);
      assert [] + After(messages[1..], cursor) == After(messages[1..], cursor);
      assert [] + Visible(reader, messages[1..]) == Visible(reader, messages[1..]);
      FirstOf(messages[0], After(messages[1..], cursor));
      FirstOf(messages[0], Visible(reader, messages[1..]));
    }
  }

  lemma {:induction false} VisiblePrior(reader: Reader, messages: seq<Indexed>, cursor: int)
    ensures Visible(reader, Prior(messages, cursor)) == Prior(Visible(reader, messages), cursor)
  {
    if messages != [] {
      VisiblePrior(reader, messages[1..], cursor);
      assert [] + Prior(messages[1..], cursor) == Prior(messages[1..], cursor);
      assert [] + Visible(reader, messages[1..]) == Visible(reader, messages[1..]);
      FirstOf(messages[0], Prior(messages[1..], cursor));
      FirstOf(messages[0], Visible(reader, messages[1..]));
    }
  }

  lemma {:induction false} FirstOf(m: Indexed, rest: seq<Indexed>)
    ensures ([m] + rest)[0] == m && ([m] + rest)[1..] == rest
  {
  }

  /** Where the messages after a cursor begin in a sorted list. */
  lemma {:induction false} AfterIsSuffix(visible: seq<Indexed>, cursor: int) returns (k: nat)
    requires IsSorted(visible)
    ensures k <= |visible| && After(visible, cursor) == visible[k..]
    ensures forall i :: 0 <= i < |visible| ==> (i < k <==> visible[i].sequence <= cursor)
  {
    k := 0;
    while k < |visible| && visible[k].sequence <= cursor
      invariant k <= |visible| && forall i :: 0 <= i < k ==> visible[i].sequence <= cursor
    {
      k := k + 1;
    }
    AfterFrom(visible, cursor, k);
  }

  /** A cursor cuts a sorted list in two. */
  lemma {:induction false} CutByCursor(visible: seq<Indexed>, cursor: int) returns (k: nat)
    requires IsSorted(visible)
    ensures k <= |visible| && After(visible, cursor) == visible[k..] && Prior(visible, cursor + 1) == visible[..k]
  {
    k := AfterIsSuffix(visible, cursor);
    PriorUpto(visible, cursor + 1, k);
  }

  /** And a cursor at a message cuts after it. */
  lemma {:induction false} CutAt(visible: seq<Indexed>, j: nat)
    requires IsSorted(visible) && 0 < j <= |visible|
    ensures Prior(visible, visible[j - 1].sequence + 1) == visible[..j]
    ensures After(visible, visible[j - 1].sequence) == visible[j..]
  {
    PriorUpto(visible, visible[j - 1].sequence + 1, j);
    AfterFrom(visible, visible[j - 1].sequence, j);
  }

  lemma {:induction false} PriorIsPrefix(visible: seq<Indexed>, cursor: int) returns (k: nat)
    requires IsSorted(visible)
    ensures k <= |visible| && Prior(visible, cursor) == visible[..k]
    ensures forall i :: 0 <= i < |visible| ==> (i < k <==> visible[i].sequence < cursor)
  {
    k := 0;
    while k < |visible| && visible[k].sequence < cursor
      invariant k <= |visible| && forall i :: 0 <= i < k ==> visible[i].sequence < cursor
    {
      k := k + 1;
    }
    PriorUpto(visible, cursor, k);
  }

  /** After the last message taken, the rest of the candidates is left. */
  lemma {:induction false} NextForward(reader: Reader, messages: seq<Indexed>, cursor: int, n: nat)
    requires IsSorted(messages) && 0 < n <= |Candidates(reader, messages, cursor, false)|
    ensures var all := Candidates(reader, messages, cursor, false);
      Candidates(reader, messages, all[n - 1].sequence, false) == all[n..]
  {
    var visible := Visible(reader, messages);
    VisibleSorted(reader, messages);
    VisibleAfter(reader, messages, cursor);
    var k := AfterIsSuffix(visible, cursor);
    var last := visible[k + n - 1];
    assert Candidates(reader, messages, cursor, false)[n - 1] == last;
    VisibleAfter(reader, messages, last.sequence);
    AfterFrom(visible, last.sequence, k + n);
    assert visible[k..][n..] == visible[k + n..];
  }

  lemma {:induction false} NextPrior(visible: seq<Indexed>, cursor: int, n: nat)
    requires IsSorted(visible) && 0 < n <= |Prior(visible, cursor)|
    ensures var all := Reversed(Prior(visible, cursor)); Reversed(Prior(visible, all[n - 1].sequence)) == all[n..]
  {
    var k := PriorIsPrefix(visible, cursor);
    ReversedRest(visible, k, n);
    PriorUpto(visible, visible[k - n].sequence, k - n);
  }

  lemma {:induction false} NextBackward(reader: Reader, messages: seq<Indexed>, cursor: int, n: nat)
    requires IsSorted(messages) && 0 < n <= |Candidates(reader, messages, cursor, true)|
    ensures var all := Candidates(reader, messages, cursor, true);
      Candidates(reader, messages, all[n - 1].sequence, true) == all[n..]
  {
    VisibleSorted(reader, messages);
    VisiblePrior(reader, messages, cursor);
    NextPrior(Visible(reader, messages), cursor, n);
    VisiblePrior(reader, messages, Candidates(reader, messages, cursor, true)[n - 1].sequence);
  }

  lemma {:induction false} ReversedRest<T>(s: seq<T>, k: nat, n: nat)
    requires 0 < n <= k <= |s|
    ensures Reversed(s[..k])[n - 1] == s[k - n] && Reversed(s[..k])[n..] == Reversed(s[..k - n])
  {
    var rest, tail := Reversed(s[..k - n]), Reversed(s[..k])[n..];
    forall i | 0 <= i < |rest|
      ensures rest[i] == tail[i]
    {
      assert rest[i] == s[k - n - 1 - i] && tail[i] == s[k - 1 - (n + i)];
    }
  }

  lemma {:induction false} NextPage(reader: Reader, messages: seq<Indexed>, cursor: int, backwards: bool, n: nat)
    requires IsSorted(messages) && 0 < n <= |Candidates(reader, messages, cursor, backwards)|
    ensures var all := Candidates(reader, messages, cursor, backwards);
      Candidates(reader, messages, all[n - 1].sequence, backwards) == all[n..]
  {
    if backwards {
      NextBackward(reader, messages, cursor, n);
    } else {
      NextForward(reader, messages, cursor, n);
    }
  }

  /** Every page from a cursor on, following each page's own cursor to the next, up to the end or a failure. */
  ghost function Follow(reader: Reader, messages: seq<Indexed>, cursor: int, backwards: bool, size: nat -> nat):
    seq<seq<Indexed>>
    requires IsSorted(messages)
    decreases |Candidates(reader, messages, cursor, backwards)|
  {
    var all := Candidates(reader, messages, cursor, backwards);
    match PageOf(size, all, backwards)
    case Crash => []
    case Page(page, None) => [page]
    case Page(page, Some(next)) =>
      NextPage(reader, messages, cursor, backwards, Fit(size, all, 0));
      [page] + Follow(reader, messages, next, backwards, size)
  }

  /** The pages of a backward walk, the last read first. */
  function ConcatBack<T>(lists: seq<seq<T>>): seq<T> {
    if lists == [] then [] else ConcatBack(lists[1..]) + lists[0]
  }

  lemma {:induction false} FollowStep(reader: Reader, messages: seq<Indexed>, cursor: int, backwards: bool,
                                      size: nat -> nat, n: nat)
    requires IsSorted(messages) && n == Fit(size, Candidates(reader, messages, cursor, backwards), 0)
    ensures var all := Candidates(reader, messages, cursor, backwards);
            var page := if backwards then Reversed(all[..n]) else all[..n];
      Follow(reader, messages, cursor, backwards, size)
        == if |all| <= n then [page]
           else if n == 0 then []
           else [page] + Follow(reader, messages, all[n - 1].sequence, backwards, size)
  {
  }

  /** Pages that hold some messages, as they come in the walk. */
  predicate Hold(pages: seq<seq<Indexed>>, messages: seq<Indexed>, backwards: bool) {
    if backwards then ConcatBack(pages) == Reversed(messages) else Concat(pages) == messages
  }

  lemma {:induction false} LastPageHolds(size: nat -> nat, all: seq<Indexed>, backwards: bool)
    requires |all| <= Fit(size, all, 0)
    ensures Hold([if backwards then Reversed(all) else all], FirstThatFit(size, all), backwards)
  {
    PageTakes(size, all);
    AllThatFit(size, all);
    ConcatOne(if backwards then Reversed(all) else all);
  }

  lemma {:induction false} PagesHold(size: nat -> nat, all: seq<Indexed>, n: nat, rest: seq<seq<Indexed>>, backwards: bool)
    requires n == Fit(size, all, 0) && Hold(rest, FirstThatFit(size, all[n..]), backwards)
    ensures Hold([if backwards then Reversed(all[..n]) else all[..n]] + rest, FirstThatFit(size, all), backwards)
  {
    PageTakes(size, all);
    FitJoin(size, all[..n], all[n..]);
    assert all[..n] + all[n..] == all;
    JoinPages(all[..n], FirstThatFit(size, all[n..]), rest, backwards);
  }

  /** The pages hold the candidates up to the first that no page can hold. */
  lemma {:induction false} FollowsAll(reader: Reader, messages: seq<Indexed>, cursor: int, backwards: bool,
                                      size: nat -> nat)
    requires IsSorted(messages)
    ensures Hold(Follow(reader, messages, cursor, backwards, size),
                 FirstThatFit(size, Candidates(reader, messages, cursor, backwards)), backwards)
    decreases |Candidates(reader, messages, cursor, backwards)|
  {
    var all := Candidates(reader, messages, cursor, backwards);
    var n := Fit(size, all, 0);
    FollowStep(reader, messages, cursor, backwards, size, n);
    if |all| <= n {
      assert all[..n] == all;
      LastPageHolds(size, all, backwards);
    } else if n == 0 {
      PageTakes(size, all);
    } else {
      var next := all[n - 1].sequence;
      NextPage(reader, messages, cursor, backwards, n);
      FollowsAll(reader, messages, next, backwards, size);
      PagesHold(size, all, n, Follow(reader, messages, next, backwards, size), backwards);
    }
  }

  lemma {:induction false} JoinPages(page: seq<Indexed>, more: seq<Indexed>, rest: seq<seq<Indexed>>, backwards: bool)
    requires Hold(rest, more, backwards)
    ensures Hold([if backwards then Reversed(page) else page] + rest, page + more, backwards)
  {
    if backwards {
      ConcatFirst(Reversed(page), rest);
      ReversedJoin(page, more);
    } else {
      ConcatFirst(page, rest);
    }
  }

  lemma {:induction false} ConcatOne<T>(s: seq<T>)
    ensures Concat([s]) == s && ConcatBack([s]) == s
  {
    assert [s][1..] == [];
    assert s + [] == s && [] + s == s;
  }

  lemma {:induction false} ConcatFirst<T>(s: seq<T>, lists: seq<seq<T>>)
    ensures Concat([s] + lists) == s + Concat(lists) && ConcatBack([s] + lists) == ConcatBack(lists) + s
  {
    assert ([s] + lists)[1..] == lists;
  }

  /** Following the cursors forward reads the visible messages after the first cursor, in order and once, up to one that no
      page can hold: all of them exactly when each fits a page alone. */
  lemma {:induction false} FollowsForward(reader: Reader, messages: seq<Indexed>, cursor: int, size: nat -> nat)
    requires IsSorted(messages)
    ensures var all, pages := After(Visible(reader, messages), cursor), Follow(reader, messages, cursor, false, size);
      && Concat(pages) == FirstThatFit(size, all)
      && (Concat(pages) == all <==> AllFitAlone(size, all))
  {
    FollowsAll(reader, messages, cursor, false, size);
    VisibleAfter(reader, messages, cursor);
    AllThatFit(size, After(Visible(reader, messages), cursor));
  }

  /** Following the cursors backward reads the visible messages before the first cursor, each page in order, down to one that
      no page can hold: all of them exactly when each fits a page alone. */
  lemma {:induction false} FollowsBackward(reader: Reader, messages: seq<Indexed>, cursor: int, size: nat -> nat)
    requires IsSorted(messages)
    ensures var all, pages := Prior(Visible(reader, messages), cursor), Follow(reader, messages, cursor, true, size);
      && ConcatBack(pages) == Reversed(FirstThatFit(size, Reversed(all)))
      && (ConcatBack(pages) == all <==> AllFitAlone(size, all))
  {
    var all := Prior(Visible(reader, messages), cursor);
    FollowsAll(reader, messages, cursor, true, size);
    VisiblePrior(reader, messages, cursor);
    AllThatFit(size, Reversed(all));
    ReversedTwice(all);
    ReversedTwice(FirstThatFit(size, Reversed(all)));
    if AllFitAlone(size, all) {
      ReversedFits(size, all);
    }
    if AllFitAlone(size, Reversed(all)) {
      ReversedFits(size, Reversed(all));
    }
  }

  lemma {:induction false} ReversedFits(size: nat -> nat, all: seq<Indexed>)
    requires AllFitAlone(size, all)
    ensures AllFitAlone(size, Reversed(all))
  {
    forall i | 0 <= i < |all|
      ensures FitsAlone(size, Reversed(all)[i])
    {
      assert FitsAlone(size, all[|all| - 1 - i]);
    }
  }

  lemma {:induction false} BigMessageAhead(reader: Reader, messages: seq<Indexed>, k: nat)
    requires IsSorted(messages) && k < |messages| && Sees(reader, messages[k])
    ensures var all := Candidates(reader, messages, messages[k].sequence as int - 1, false); all != [] && all[0] == messages[k]
  {
    AfterFrom(messages, messages[k].sequence as int - 1, k);
    FirstOf(messages[k], messages[k + 1..]);
    assert messages[k..] == [messages[k]] + messages[k + 1..];
  }

  lemma {:induction false} BigMessageBehind(reader: Reader, messages: seq<Indexed>, k: nat)
    requires IsSorted(messages) && k < |messages| && Sees(reader, messages[k])
    ensures var all := Candidates(reader, messages, messages[k].sequence + 1, true); all != [] && all[0] == messages[k]
  {
    PriorUpto(messages, messages[k].sequence + 1, k + 1);
    assert messages[..k + 1] == messages[..k] + [messages[k]];
    VisibleJoin(reader, messages[..k], [messages[k]]);
    VisibleOne(reader, messages[k]);
    LastIsFirst(Visible(reader, messages[..k]), messages[k]);
  }

  lemma {:induction false} LastIsFirst<T>(s: seq<T>, x: T)
    ensures Reversed(s + [x])[0] == x
  {
    assert (s + [x])[|s|] == x;
  }

  /** A visible message over the limit, wherever it stands, fails the pages that begin at it, forward and backward. */
  lemma {:induction false} BigMessageCrashes(reader: Reader, messages: seq<Indexed>, k: nat, size: nat -> nat)
    requires IsSorted(messages) && k < |messages| && Sees(reader, messages[k]) && !FitsAlone(size, messages[k])
    ensures var n: int := messages[k].sequence;
      && PageOf(size, Candidates(reader, messages, n - 1, false), false) == Crash
      && PageOf(size, Candidates(reader, messages, n + 1, true), true) == Crash
  {
    var n: int := messages[k].sequence;
    BigMessageAhead(reader, messages, k);
    BigMessageBehind(reader, messages, k);
    CrashesWhen(size, Candidates(reader, messages, n - 1, false), false);
    CrashesWhen(size, Candidates(reader, messages, n + 1, true), true);
  }

  lemma {:induction false} ReversedTwice<T>(s: seq<T>)
    ensures Reversed(Reversed(s)) == s
  {
  }

  lemma {:induction false} ReversedJoin<T>(a: seq<T>, b: seq<T>)
    ensures Reversed(a + b) == Reversed(b) + Reversed(a)
  {
    var r, s := Reversed(a + b), Reversed(b) + Reversed(a);
    forall i | 0 <= i < |r|
      ensures r[i] == s[i]
    {
      assert r[i] == (a + b)[|a| + |b| - 1 - i];
    }
  }

  /** A project's messages in the index are sorted. */
  lemma {:induction false} ProjectIsSorted(log: seq<Event>, project: Text)
    requires IsLog(log)
    ensures IsSorted(MessagesOf(log, project))
    ensures forall m :: m in MessagesOf(log, project) ==> 0 < m.sequence <= Maximum(log)
  {
    if log != [] {
      var front := log[..|log| - 1];
      ProjectIsSorted(front, project);
      assert front != [] ==> front[|front| - 1] == log[|log| - 2];
    }
  }
}
