/**
 The project channel's index over an append-only event log, and pages of it. The index is brought up to date in batches;
 pages are found by binary search; both give what a plain reading of the whole log gives.
 */
module ChannelIndex {
  import opened Utf16
  import opened Wrappers

  const PAGE_SIZE := 20
  const PAGE_BYTES := 64 * 1024
  const SCAN_BATCH := 2000

  // ----- The log

  /** What the channel reads of an event: a message, a receipt, an event of those types it cannot read, or another type. */
  datatype Body =
    | Message(project: Text, actor: Text, recipient: Option<Text>, callId: Option<Text>, content: Text)
    | Receipt(cursor: int)
    | Damaged
    | Other

  datatype Event = Event(sequence: nat, taskId: Text, createdAt: Text, body: Body)

  datatype Indexed = Indexed(sequence: nat, sender: Text, recipient: Option<Text>, actor: Text, createdAt: Text)

  datatype Request = Request(taskId: Text, actor: Text, callId: Option<Text>)

  predicate IsLog(log: seq<Event>) {
    && (forall i :: 0 <= i < |log| ==> 0 < log[i].sequence)
    && (forall i, j :: 0 <= i < j < |log| ==> log[i].sequence < log[j].sequence)
  }

  function Maximum(log: seq<Event>): nat {
    if log == [] then 0 else log[|log| - 1].sequence
  }

  // ----- Reading the log

  function IndexedOf(e: Event): Indexed
    requires e.body.Message?
  {
    Indexed(e.sequence, e.taskId, e.body.recipient, e.body.actor, e.createdAt)
  }

  /** A project's messages, in order. */
  function MessagesOf(log: seq<Event>, project: Text): seq<Indexed> {
    if log == [] then []
    else
      var e := log[|log| - 1];
      MessagesOf(log[..|log| - 1], project)
        + if e.body.Message? && e.body.project == project then [IndexedOf(e)] else []
  }

  /** How many messages a task has sent. */
  function CountOf(log: seq<Event>, taskId: Text): nat {
    if log == [] then 0
    else
      var e := log[|log| - 1];
      CountOf(log[..|log| - 1], taskId) + if e.body.Message? && e.taskId == taskId then 1 else 0
  }

  /** A task's last receipt. */
  function ReceiptOf(log: seq<Event>, taskId: Text): Option<int> {
    if log == [] then None
    else
      var e := log[|log| - 1];
      if e.body.Receipt? && e.taskId == taskId then Some(e.body.cursor) else ReceiptOf(log[..|log| - 1], taskId)
  }

  function RequestOf(e: Event): Request
    requires e.body.Message?
  {
    Request(e.taskId, e.body.actor, e.body.callId)
  }

  /** The last message sent for a request. */
  function SentFor(log: seq<Event>, request: Request): Option<nat> {
    if log == [] then None
    else
      var e := log[|log| - 1];
      if e.body.Message? && RequestOf(e) == request then Some(e.sequence) else SentFor(log[..|log| - 1], request)
  }

  // ----- The index

  datatype Tables = Tables(projects: map<Text, seq<Indexed>>, requests: map<Request, nat>, counts: map<Text, nat>,
                           receipts: map<Text, int>)

  const EMPTY := Tables(map[], map[], map[], map[])

  function GetOr<K, V>(m: map<K, V>, key: K, otherwise: V): V {
    if key in m then m[key] else otherwise
  }

  function Take(t: Tables, e: Event): Tables {
    match e.body
    case Message(project, actor, recipient, callId, content) =>
      Tables(t.projects[project := GetOr(t.projects, project, []) + [IndexedOf(e)]],
             t.requests[RequestOf(e) := e.sequence],
             t.counts[e.taskId := GetOr(t.counts, e.taskId, 0) + 1],
             t.receipts)
    case Receipt(cursor) => t.(receipts := t.receipts[e.taskId := cursor])
    case Damaged => t
    case Other => t
  }

  /** The index after taking events one by one. */
  function Fold(events: seq<Event>): Tables {
    if events == [] then EMPTY else Take(Fold(events[..|events| - 1]), events[|events| - 1])
  }

  function TakeAll(t: Tables, events: seq<Event>): Tables
    decreases |events|
  {
    if events == [] then t else TakeAll(Take(t, events[0]), events[1..])
  }

  lemma {:induction false} FoldMore(log: seq<Event>, more: seq<Event>)
    ensures Fold(log + more) == TakeAll(Fold(log), more)
    decreases |more|
  {
    if more == [] {
      assert log + more == log;
    } else {
      var next := log + [more[0]];
      assert next[..|log|] == log;
      assert log + more == next + more[1..];
      FoldMore(next, more[1..]);
    }
  }

  /** The index answers what reading the whole log answers. */
  lemma {:induction false} FoldAnswers(log: seq<Event>, project: Text, taskId: Text, request: Request)
    ensures GetOr(Fold(log).projects, project, []) == MessagesOf(log, project)
    ensures GetOr(Fold(log).counts, taskId, 0) == CountOf(log, taskId)
    ensures (if taskId in Fold(log).receipts then Some(Fold(log).receipts[taskId]) else None) == ReceiptOf(log, taskId)
    ensures (if request in Fold(log).requests then Some(Fold(log).requests[request]) else None) == SentFor(log, request)
  {
    if log != [] {
      FoldAnswers(log[..|log| - 1], project, taskId, request);
    }
  }

  // ----- Batches

  /** The events a batch reads: messages and receipts after `low` and up to `high`. */
  function Selected(log: seq<Event>, low: nat, high: nat): seq<Event> {
    if log == [] then []
    else SelectedOne(log[0], low, high) + Selected(log[1..], low, high)
  }

  function SelectedOne(e: Event, low: nat, high: nat): seq<Event> {
    if low < e.sequence <= high && !e.body.Other? then [e] else []
  }

  /** The query's rows: the first `limit` of them. */
  function Rows(log: seq<Event>, low: nat, high: nat, limit: nat): seq<Event> {
    var all := Selected(log, low, high);
    if |all| <= limit then all else all[..limit]
  }

  /** How many events lie up to a sequence. */
  function Upto(log: seq<Event>, n: nat): (k: nat)
    ensures k <= |log|
  {
    if log == [] then 0 else if log[|log| - 1].sequence <= n then |log| else Upto(log[..|log| - 1], n)
  }

  lemma {:induction false} UptoSplits(log: seq<Event>, n: nat)
    requires IsLog(log)
    ensures forall i :: 0 <= i < |log| ==> (i < Upto(log, n) <==> log[i].sequence <= n)
  {
    if log != [] {
      UptoSplits(log[..|log| - 1], n);
    }
  }

  lemma {:induction false} UptoIs(log: seq<Event>, n: nat, k: nat)
    requires IsLog(log) && k <= |log| && forall i :: 0 <= i < |log| ==> (i < k <==> log[i].sequence <= n)
    ensures Upto(log, n) == k
  {
    UptoSplits(log, n);
    var m := if Upto(log, n) < k then Upto(log, n) else k;
    if m < |log| {
      var sequence := log[m].sequence;
    }
  }

  /** Events of other types change nothing, so taking the rows takes the events. */
  lemma {:induction false} TakesSelected(t: Tables, events: seq<Event>, low: nat, high: nat)
    requires forall i :: 0 <= i < |events| ==> low < events[i].sequence <= high
    ensures TakeAll(t, Selected(events, low, high)) == TakeAll(t, events)
    decreases |events|
  {
    if events != [] {
      var rest := Selected(events[1..], low, high);
      TakesSelected(Take(t, events[0]), events[1..], low, high);
      if !events[0].body.Other? {
        assert ([events[0]] + rest)[1..] == rest;
      } else {
        assert [] + rest == rest;
      }
    }
  }

  lemma {:induction false} SelectedSkips(log: seq<Event>, k: nat, low: nat, high: nat)
    requires k <= |log| && forall i :: 0 <= i < k ==> log[i].sequence <= low
    ensures Selected(log, low, high) == Selected(log[k..], low, high)
    decreases k
  {
    if k == 0 {
      assert log[0..] == log;
    } else {
      SelectedSkips(log[1..], k - 1, low, high);
      assert log[1..][k - 1..] == log[k..];
      assert [] + Selected(log[1..], low, high) == Selected(log[1..], low, high);
    }
  }

  lemma {:induction false} SelectedNone(log: seq<Event>, low: nat, high: nat)
    requires forall i :: 0 <= i < |log| ==> high < log[i].sequence
    ensures Selected(log, low, high) == []
  {
    if log != [] {
      SelectedNone(log[1..], low, high);
    }
  }

  lemma {:induction false} SelectedJoin(a: seq<Event>, b: seq<Event>, low: nat, high: nat)
    ensures Selected(a + b, low, high) == Selected(a, low, high) + Selected(b, low, high)
  {
    if a == [] {
      assert a + b == b;
      assert [] + Selected(b, low, high) == Selected(b, low, high);
    } else {
      assert (a + b)[1..] == a[1..] + b;
      SelectedJoin(a[1..], b, low, high);
    }
  }

  lemma {:induction false} SelectedFirst(e: Event, more: seq<Event>, low: nat, high: nat)
    ensures Selected([e] + more, low, high) == SelectedOne(e, low, high) + Selected(more, low, high)
  {
    assert ([e] + more)[1..] == more;
  }

  lemma {:induction false} TakeAfter(a: seq<Event>, b: seq<Event>, n: nat)
    requires |a| <= n <= |a| + |b|
    ensures (a + b)[..n] == a + b[..n - |a|]
    ensures n > |a| ==> (a + b)[n - 1] == b[n - |a| - 1]
  {
  }

  /** The first `n` selected events end at some event of the list. */
  lemma {:induction false} SelectedPrefix(events: seq<Event>, low: nat, high: nat, n: nat) returns (k: nat)
    requires 0 < n <= |Selected(events, low, high)|
    ensures 0 < k <= |events| && Selected(events[..k], low, high) == Selected(events, low, high)[..n]
    ensures events[k - 1] == Selected(events, low, high)[n - 1]
  {
    var e, more := events[0], events[1..];
    var one, rest := SelectedOne(e, low, high), Selected(more, low, high);
    if n <= |one| {
      k := 1;
      assert events[..1] == [e] + [];
      SelectedFirst(e, [], low, high);
      assert (one + rest)[..1] == one + [];
    } else {
      var j := SelectedPrefix(more, low, high, n - |one|);
      k := j + 1;
      assert events[..k] == [e] + more[..j];
      SelectedFirst(e, more[..j], low, high);
      TakeAfter(one, rest, n);
    }
  }

  predicate Between(events: seq<Event>, low: nat, high: nat) {
    forall i :: 0 <= i < |events| ==> low < events[i].sequence <= high
  }

  lemma {:induction false} TakesRows(head: seq<Event>, events: seq<Event>, low: nat, high: nat)
    requires Between(events, low, high)
    ensures TakeAll(Fold(head), Selected(events, low, high)) == Fold(head + events)
  {
    TakesSelected(Fold(head), events, low, high);
    FoldMore(head, events);
  }

  lemma {:induction false} RestBetween(log: seq<Event>, k: nat, low: nat)
    requires IsLog(log) && k <= |log| && forall i :: k <= i < |log| ==> low < log[i].sequence
    ensures Between(log[k..], low, Maximum(log))
  {
  }

  /** The last batch takes every event that is left. */
  lemma {:induction false} LastBatch(log: seq<Event>, k: nat, low: nat, high: nat)
    requires k <= |log| && Between(log[k..], low, high)
    ensures TakeAll(Fold(log[..k]), Selected(log[k..], low, high)) == Fold(log)
  {
    TakesRows(log[..k], log[k..], low, high);
    assert log == log[..k] + log[k..];
  }

  lemma {:induction false} HeadOf(log: seq<Event>, k: nat, m: nat)
    requires k + m <= |log|
    ensures log[..k] + log[k..][..m] == log[..k + m]
    ensures m > 0 ==> log[k..][m - 1] == log[k + m - 1]
  {
  }

  /** A full batch takes the events up to its last row. */
  lemma {:induction false} FirstRows(head: seq<Event>, events: seq<Event>, low: nat, high: nat, n: nat) returns (m: nat)
    requires Between(events, low, high) && 0 < n <= |Selected(events, low, high)|
    ensures 0 < m <= |events| && events[m - 1] == Selected(events, low, high)[n - 1]
    ensures TakeAll(Fold(head), Selected(events, low, high)[..n]) == Fold(head + events[..m])
  {
    m := SelectedPrefix(events, low, high, n);
    TakesRows(head, events[..m], low, high);
  }

  lemma {:induction false} RowsFrom(log: seq<Event>, k: nat, low: nat, high: nat, limit: nat)
    requires k <= |log| && forall i :: 0 <= i < k ==> log[i].sequence <= low
    ensures var all := Selected(log[k..], low, high);
      Rows(log, low, high, limit) == if |all| <= limit then all else all[..limit]
  {
    SelectedSkips(log, k, low, high);
  }

  lemma {:induction false} UptoOf(log: seq<Event>, j: nat)
    requires IsLog(log) && 0 < j <= |log|
    ensures Upto(log, log[j - 1].sequence) == j && log[j - 1].sequence <= Maximum(log)
  {
    UptoIs(log, log[j - 1].sequence, j);
  }

  /** Where a batch that takes all the rows left, or `limit` of them, ends. */
  lemma {:induction false} BatchEnds(log: seq<Event>, k: nat, low: nat, limit: nat) returns (j: nat)
    requires IsLog(log) && k < |log| && 0 < limit && Between(log[k..], low, Maximum(log))
    ensures var all := Selected(log[k..], low, Maximum(log));
      && k < j <= |log|
      && (if |all| < limit then j == |log| else log[j - 1] == all[limit - 1])
      && TakeAll(Fold(log[..k]), if |all| <= limit then all else all[..limit]) == Fold(log[..j])
  {
    var all := Selected(log[k..], low, Maximum(log));
    if |all| < limit {
      j := |log|;
      LastBatch(log, k, low, Maximum(log));
      assert log[..j] == log;
    } else {
      var m := FirstRows(log[..k], log[k..], low, Maximum(log), limit);
      j := k + m;
      HeadOf(log, k, m);
      assert |all| == limit ==> all[..limit] == all;
    }
  }

  /** One batch: taking its rows brings the index to the sequence the source records. */
  lemma {:induction false} BatchAdvances(log: seq<Event>, low: nat, limit: nat) returns (through: nat)
    requires IsLog(log) && low < Maximum(log) && 0 < limit
    ensures var rows := Rows(log, low, Maximum(log), limit);
      && through == (if |rows| < limit then Maximum(log) else rows[|rows| - 1].sequence)
      && low < through <= Maximum(log)
      && TakeAll(Fold(log[..Upto(log, low)]), rows) == Fold(log[..Upto(log, through)])
  {
    var k := Upto(log, low);
    UptoSplits(log, low);
    RestBetween(log, k, low);
    RowsFrom(log, k, low, Maximum(log), limit);
    var j := BatchEnds(log, k, low, limit);
    through := log[j - 1].sequence;
    UptoOf(log, j);
  }

  lemma {:induction false} AllUpto(log: seq<Event>)
    requires IsLog(log)
    ensures Upto(log, Maximum(log)) == |log| && log[..|log|] == log
  {
    UptoIs(log, Maximum(log), |log|);
  }

  class AgentChannel {
    var indexedThrough: nat
    var tables: Tables

    constructor ()
      ensures indexedThrough == 0 && tables == EMPTY
      ensures forall log :: IsLog(log) ==> Current(log)
    {
      indexedThrough := 0;
      tables := EMPTY;
      new;
      forall log | IsLog(log)
        ensures Current(log)
      {
        UptoIs(log, 0, 0);
        assert log[..0] == [];
      }
    }

    /** The index holds the events up to the sequence it has reached. */
    ghost predicate Current(log: seq<Event>)
      reads this
    {
      IsLog(log) && indexedThrough <= Maximum(log) && tables == Fold(log[..Upto(log, indexedThrough)])
    }

    /** Batches until the index has reached the log's end; nothing inside a transaction. */
    method RefreshIndex(log: seq<Event>, inTransaction: bool)
      requires Current(log)
      modifies this
      ensures Current(log)
      ensures inTransaction ==> tables == old(tables) && indexedThrough == old(indexedThrough)
      ensures !inTransaction ==> tables == Fold(log) && indexedThrough == Maximum(log)
    {
      if inTransaction { return; }
      var maximum := Maximum(log);
      while indexedThrough < maximum
        invariant Current(log)
        decreases maximum - indexedThrough
      {
        var rows := Rows(log, indexedThrough, maximum, SCAN_BATCH);
        ghost var before := tables;
        label L:
        ghost var through := BatchAdvances(log, indexedThrough, SCAN_BATCH);
        assert rows[0..] == rows;
        for i := 0 to |rows|
          invariant indexedThrough == old@L(indexedThrough) && TakeAll(tables, rows[i..]) == TakeAll(before, rows)
        {
          assert rows[i..][1..] == rows[i + 1..];
          tables := Take(tables, rows[i]);
        }
        assert rows[|rows|..] == [];
        indexedThrough := if |rows| < SCAN_BATCH then maximum else rows[|rows| - 1].sequence;
      }
      UptoSplits(log, maximum);
      AllUpto(log);
    }
  }

  /** Appending leaves the index current, so each refresh reads only what is new. */
  lemma {:induction false} AppendKeepsCurrent(channel: AgentChannel, log: seq<Event>, more: seq<Event>)
    requires channel.Current(log) && IsLog(log + more)
    ensures channel.Current(log + more)
  {
    var n, k := channel.indexedThrough, Upto(log, channel.indexedThrough);
    UptoSplits(log, n);
    forall i | 0 <= i < |log + more|
      ensures i < k <==> (log + more)[i].sequence <= n
    {
      if i >= |log| {
        if log != [] {
          assert (log + more)[|log| - 1].sequence < (log + more)[i].sequence;
        }
      }
    }
    UptoIs(log + more, n, k);
    assert (log + more)[..k] == log[..k];
    if more != [] && log != [] {
      assert (log + more)[|log| - 1].sequence < (log + more)[|log + more| - 1].sequence;
    }
  }
}
