/**
 Delivering channel messages to a task's model. Each request carries the first messages the task has not acknowledged; a
 successful response acknowledges them by a receipt, and a failed one leaves them pending.
 */
module ChannelDelivery {
  import opened Utf16
  import opened Wrappers
  import opened Sequences
  import opened ChannelIndex
  import opened ChannelPages

  // ----- What one request includes

  /** A message as a request carries it: whole, or cut after so many code points. */
  datatype Delivered = Whole(message: Indexed) | Cut(message: Indexed, length: nat)

  function Wholes(messages: seq<Indexed>): (delivered: seq<Delivered>)
    ensures |delivered| == |messages| && forall i :: 0 <= i < |messages| ==> delivered[i] == Whole(messages[i])
  {
    if messages == [] then [] else Wholes(messages[..|messages| - 1]) + [Whole(messages[|messages| - 1])]
  }

  /** How many of the pending messages fit whole. `wire` is the size of what is sent. */
  function FitWhole(pending: seq<Indexed>, wire: seq<Delivered> -> nat, limit: nat, k: nat): (n: nat)
    requires k <= |pending|
    ensures k <= n <= |pending|
    decreases |pending| - k
  {
    if k < |pending| && wire(Wholes(pending[..k + 1])) <= limit then FitWhole(pending, wire, limit, k + 1) else k
  }

  /** A longer cut is never smaller on the wire. */
  ghost predicate Grows(wire: seq<Delivered> -> nat) {
    forall m: Indexed, i: nat, j: nat :: i <= j ==> wire([Cut(m, i)]) <= wire([Cut(m, j)])
  }

  /** The longest cut that fits, or none of the text. */
  ghost predicate IsLongestCut(m: Indexed, wire: seq<Delivered> -> nat, limit: nat, points: nat, length: nat) {
    && length <= points && (length > 0 ==> wire([Cut(m, length)]) <= limit)
    && forall j: nat :: length < j <= points ==> wire([Cut(m, j)]) > limit
  }

  method LongestCut(m: Indexed, wire: seq<Delivered> -> nat, limit: nat, points: nat) returns (length: nat)
    requires Grows(wire)
    ensures IsLongestCut(m, wire, limit, points, length)
  {
    var low, high := 0, points;
    while low < high
      invariant 0 <= low <= high <= points
      invariant low > 0 ==> wire([Cut(m, low)]) <= limit
      invariant forall j: nat :: high < j <= points ==> wire([Cut(m, j)]) > limit
    {
      var middle := (low + high + 1) / 2;
      if wire([Cut(m, middle)]) <= limit { low := middle; } else { high := middle - 1; }
    }
    return low;
  }

  /** The messages a request includes: as many as fit whole, or the first one cut. */
  method Include(pending: seq<Indexed>, wire: seq<Delivered> -> nat, limit: nat, points: nat -> nat)
    returns (included: seq<Delivered>)
    requires pending != [] && Grows(wire)
    ensures var n := FitWhole(pending, wire, limit, 0);
      if n > 0 then included == Wholes(pending[..n])
      else |included| == 1 && included[0].Cut? && included[0].message == pending[0]
           && IsLongestCut(pending[0], wire, limit, points(pending[0].sequence), included[0].length)
  {
    included := [];
    for i := 0 to |pending|
      invariant included == Wholes(pending[..i]) && FitWhole(pending, wire, limit, i) == FitWhole(pending, wire, limit, 0)
    {
      assert pending[..i + 1][..i] == pending[..i];
      if wire(included + [Whole(pending[i])]) <= limit {
        included := included + [Whole(pending[i])];
        continue;
      }
      if |included| > 0 { return; }
      var length := LongestCut(pending[i], wire, limit, points(pending[i].sequence));
      return [Cut(pending[i], length)];
    }
  }

  // ----- Deliveries over a whole run

  /** A task as a reader of its inbox, in its project. */
  datatype Inbox = Inbox(taskId: Text, createdAt: Text, project: Text)

  function ReaderOf(inbox: Inbox): Reader {
    Reader(inbox.taskId, inbox.createdAt, true)
  }

  function InboxOf(inbox: Inbox, log: seq<Event>): seq<Indexed> {
    Visible(ReaderOf(inbox), MessagesOf(log, inbox.project))
  }

  /** receipts.GetValueOrDefault(task). */
  function LastReceipt(inbox: Inbox, log: seq<Event>): int {
    match ReceiptOf(log, inbox.taskId)
    case Some(cursor) => cursor
    case None => 0
  }

  /** The messages not yet acknowledged. */
  function Pending(inbox: Inbox, log: seq<Event>): seq<Indexed> {
    After(InboxOf(inbox, log), LastReceipt(inbox, log))
  }

  /** The log, the messages that the task's open request carries, and those that successful requests have carried. */
  datatype World = World(log: seq<Event>, open: seq<Indexed>, acknowledged: seq<Indexed>)

  /** An event of another kind or task; a request for the first `k` pending messages; its failure; its success. */
  datatype Step = Appends(event: Event) | Enriches(k: nat) | Fails | Acknowledges(sequence: nat, createdAt: Text)

  predicate CanDo(inbox: Inbox, w: World, step: Step) {
    match step
    case Appends(event) =>
      event.sequence > Maximum(w.log) && !(event.body.Receipt? && event.taskId == inbox.taskId)
    case Enriches(k) => k <= |Pending(inbox, w.log)| && (Pending(inbox, w.log) != [] ==> k > 0)
    case Fails => true
    case Acknowledges(sequence, _) => sequence > Maximum(w.log)
  }

  function Do(inbox: Inbox, w: World, step: Step): World
    requires CanDo(inbox, w, step)
  {
    match step
    case Appends(event) => w.(log := w.log + [event])
    case Enriches(k) => w.(open := Pending(inbox, w.log)[..k])
    case Fails => w.(open := [])
    case Acknowledges(sequence, createdAt) =>
      if w.open == [] then w
      else World(w.log + [Event(sequence, inbox.taskId, createdAt, Receipt(w.open[|w.open| - 1].sequence))], [],
                 w.acknowledged + w.open)
  }

  predicate IsRun(inbox: Inbox, worlds: seq<World>, steps: seq<Step>) {
    && |worlds| == |steps| + 1 && worlds[0] == World([], [], [])
    && forall i :: 0 <= i < |steps| ==> CanDo(inbox, worlds[i], steps[i]) && worlds[i + 1] == Do(inbox, worlds[i], steps[i])
  }

  /** What every step keeps. */
  ghost predicate Inv(inbox: Inbox, w: World) {
    && IsLog(w.log) && LastReceipt(inbox, w.log) <= Maximum(w.log)
    && w.acknowledged == Prior(InboxOf(inbox, w.log), LastReceipt(inbox, w.log) + 1)
    && w.open <= Pending(inbox, w.log)
  }

  lemma {:induction false} InboxSorted(inbox: Inbox, log: seq<Event>)
    requires IsLog(log)
    ensures IsSorted(InboxOf(inbox, log))
    ensures forall i :: 0 <= i < |InboxOf(inbox, log)| ==> InboxOf(inbox, log)[i].sequence <= Maximum(log)
  {
    ProjectIsSorted(log, inbox.project);
    VisibleSorted(ReaderOf(inbox), MessagesOf(log, inbox.project));
    forall i | 0 <= i < |InboxOf(inbox, log)|
      ensures InboxOf(inbox, log)[i].sequence <= Maximum(log)
    {
      assert InboxOf(inbox, log)[i] in InboxOf(inbox, log);
    }
  }

  lemma {:induction false} LogGrows(log: seq<Event>, event: Event)
    requires IsLog(log) && event.sequence > Maximum(log)
    ensures IsLog(log + [event]) && Maximum(log + [event]) == event.sequence
  {
    assert forall i :: 0 <= i < |log| ==> log[i].sequence <= Maximum(log);
  }

  /** An appended event adds at most itself to the inbox. */
  lemma {:induction false} InboxGrows(inbox: Inbox, log: seq<Event>, event: Event) returns (more: seq<Indexed>)
    ensures InboxOf(inbox, log + [event]) == InboxOf(inbox, log) + more
    ensures forall i :: 0 <= i < |more| ==> more[i].sequence == event.sequence
    ensures !event.body.Message? ==> more == []
    ensures !(event.body.Receipt? && event.taskId == inbox.taskId) ==>
      LastReceipt(inbox, log + [event]) == LastReceipt(inbox, log)
  {
    assert (log + [event])[..|log|] == log;
    var m := MessagesOf(log, inbox.project);
    if event.body.Message? && event.body.project == inbox.project {
      VisibleJoin(ReaderOf(inbox), m, [IndexedOf(event)]);
      more := Visible(ReaderOf(inbox), [IndexedOf(event)]);
    } else {
      assert m + [] == m;
      more := [];
      assert InboxOf(inbox, log) + more == InboxOf(inbox, log);
    }
  }

  lemma {:induction false} AfterMore(a: seq<Indexed>, b: seq<Indexed>, cursor: int)
    ensures After(a + b, cursor) == After(a, cursor) + After(b, cursor)
  {
    if a == [] {
      assert a + b == b;
      assert [] + After(b, cursor) == After(b, cursor);
    } else {
      assert (a + b)[1..] == a[1..] + b;
      AfterMore(a[1..], b, cursor);
    }
  }

  lemma {:induction false} PriorMore(a: seq<Indexed>, b: seq<Indexed>, cursor: int)
    requires forall i :: 0 <= i < |b| ==> b[i].sequence >= cursor
    ensures Prior(a + b, cursor) == Prior(a, cursor)
  {
    if a == [] {
      assert a + b == b;
      PriorNone(b, cursor);
    } else {
      assert (a + b)[1..] == a[1..] + b;
      PriorMore(a[1..], b, cursor);
    }
  }

  lemma {:induction false} PriorNone(b: seq<Indexed>, cursor: int)
    requires forall i :: 0 <= i < |b| ==> b[i].sequence >= cursor
    ensures Prior(b, cursor) == []
  {
    if b != [] {
      PriorNone(b[1..], cursor);
    }
  }

  /** An appended event leaves what is pending in front. */
  lemma {:induction false} AppendKeepsPending(inbox: Inbox, log: seq<Event>, event: Event)
    requires IsLog(log) && event.sequence > Maximum(log) && LastReceipt(inbox, log) <= Maximum(log)
    requires !(event.body.Receipt? && event.taskId == inbox.taskId)
    ensures Pending(inbox, log) <= Pending(inbox, log + [event])
    ensures var n := LastReceipt(inbox, log);
      && LastReceipt(inbox, log + [event]) == n
      && Prior(InboxOf(inbox, log + [event]), n + 1) == Prior(InboxOf(inbox, log), n + 1)
  {
    var more := InboxGrows(inbox, log, event);
    AfterMore(InboxOf(inbox, log), more, LastReceipt(inbox, log));
    PriorMore(InboxOf(inbox, log), more, LastReceipt(inbox, log) + 1);
  }

  lemma {:induction false} SuffixPrefix(visible: seq<Indexed>, k: nat, batch: seq<Indexed>)
    requires k <= |visible| && batch != [] && batch <= visible[k..]
    ensures k + |batch| <= |visible| && batch[|batch| - 1] == visible[k + |batch| - 1]
    ensures visible[..k + |batch|] == visible[..k] + batch && visible[k + |batch|..] == visible[k..][|batch|..]
  {
    assert batch == visible[k..][..|batch|];
  }

  /** Acknowledging the first pending messages moves them to those before the receipt. */
  lemma {:induction false} PriorThenAfter(visible: seq<Indexed>, cursor: int, batch: seq<Indexed>)
    requires IsSorted(visible) && batch != [] && batch <= After(visible, cursor)
    ensures Prior(visible, batch[|batch| - 1].sequence + 1) == Prior(visible, cursor + 1) + batch
    ensures After(visible, batch[|batch| - 1].sequence) == After(visible, cursor)[|batch|..]
    ensures batch[|batch| - 1] in visible
  {
    var k := CutByCursor(visible, cursor);
    SuffixPrefix(visible, k, batch);
    CutAt(visible, k + |batch|);
  }

  lemma {:induction false} ReceiptAppended(inbox: Inbox, log: seq<Event>, event: Event)
    requires event.body.Receipt? && event.taskId == inbox.taskId
    ensures InboxOf(inbox, log + [event]) == InboxOf(inbox, log) && LastReceipt(inbox, log + [event]) == event.body.cursor
  {
    var more := InboxGrows(inbox, log, event);
    assert (log + [event])[..|log|] == log;
    assert InboxOf(inbox, log) + [] == InboxOf(inbox, log);
  }

  /** A success moves the request's messages from pending to acknowledged. */
  lemma {:induction false} AcknowledgeKeepsInv(inbox: Inbox, w: World, step: Step)
    requires Inv(inbox, w) && step.Acknowledges? && CanDo(inbox, w, step) && w.open != []
    ensures Inv(inbox, Do(inbox, w, step))
    ensures Pending(inbox, Do(inbox, w, step).log) == Pending(inbox, w.log)[|w.open|..]
  {
    var cursor := w.open[|w.open| - 1].sequence;
    var event := Event(step.sequence, inbox.taskId, step.createdAt, Receipt(cursor));
    var visible := InboxOf(inbox, w.log);
    LogGrows(w.log, event);
    InboxSorted(inbox, w.log);
    ReceiptAppended(inbox, w.log, event);
    PriorThenAfter(visible, LastReceipt(inbox, w.log), w.open);
  }

  lemma {:induction false} StepKeepsInv(inbox: Inbox, w: World, step: Step)
    requires Inv(inbox, w) && CanDo(inbox, w, step)
    ensures Inv(inbox, Do(inbox, w, step))
  {
    match step
    case Appends(event) =>
      LogGrows(w.log, event);
      AppendKeepsPending(inbox, w.log, event);
    case Enriches(k) =>
    case Fails =>
    case Acknowledges(_, _) =>
      if w.open != [] {
        AcknowledgeKeepsInv(inbox, w, step);
      }
  }

  /** Over any run, the batches of the acknowledged requests are exactly the task's inbox up to its last receipt, in order
      and each message once; and the open request carries the first messages still pending. */
  lemma {:induction false} RunsDeliverOnce(inbox: Inbox, worlds: seq<World>, steps: seq<Step>)
    requires IsRun(inbox, worlds, steps)
    ensures var w := worlds[|steps|];
      && IsLog(w.log)
      && w.acknowledged == Prior(InboxOf(inbox, w.log), LastReceipt(inbox, w.log) + 1)
      && w.acknowledged + Pending(inbox, w.log) == InboxOf(inbox, w.log)
      && w.open <= Pending(inbox, w.log)
    decreases |steps|
  {
    RunKeepsInv(inbox, worlds, steps);
    var w := worlds[|steps|];
    InboxSorted(inbox, w.log);
    var n, visible := LastReceipt(inbox, w.log), InboxOf(inbox, w.log);
    var k := CutByCursor(visible, n);
  }

  lemma {:induction false} RunKeepsInv(inbox: Inbox, worlds: seq<World>, steps: seq<Step>)
    requires IsRun(inbox, worlds, steps)
    ensures Inv(inbox, worlds[|steps|])
    decreases |steps|
  {
    if steps != [] {
      var n := |steps| - 1;
      assert IsRun(inbox, worlds[..n + 1], steps[..n]);
      RunKeepsInv(inbox, worlds[..n + 1], steps[..n]);
      StepKeepsInv(inbox, worlds[n], steps[n]);
    }
  }

  /** A failed request's messages come first in the next request, whatever other events come between. */
  lemma {:induction false} FailureLeavesPending(inbox: Inbox, w: World, events: seq<Event>)
    requires Inv(inbox, w)
    requires IsLog(w.log + events)
    requires forall i :: 0 <= i < |events| ==> !(events[i].body.Receipt? && events[i].taskId == inbox.taskId)
    ensures w.open <= Pending(inbox, w.log + events)
    decreases |events|
  {
    if events == [] {
      assert w.log + events == w.log;
    } else {
      var first, rest := events[0], events[1..];
      var log := w.log + [first];
      assert w.log + events == log + rest;
      assert (w.log + events)[|w.log|] == first;
      assert w.log != [] ==> (w.log + events)[|w.log| - 1] == w.log[|w.log| - 1];
      assert CanDo(inbox, w, Appends(first));
      StepKeepsInv(inbox, w, Appends(first));
      FailureLeavesPending(inbox, w.(log := log), rest);
    }
  }

  /** The inbox page holds the first pending messages, unless the first of all is one that no page can hold, which fails
      it. */
  lemma {:induction false} PageOfPending(inbox: Inbox, log: seq<Event>, size: nat -> nat)
    ensures var page := PageOf(size, Candidates(ReaderOf(inbox), MessagesOf(log, inbox.project),
                                                LastReceipt(inbox, log), false), false);
      && (page.Page? <==> Pending(inbox, log) == [] || FitsAlone(size, Pending(inbox, log)[0]))
      && (page.Page? ==> page.messages <= Pending(inbox, log))
      && (page.Page? ==> (page.messages == [] <==> Pending(inbox, log) == []))
  {
    var all := Pending(inbox, log);
    VisibleAfter(ReaderOf(inbox), MessagesOf(log, inbox.project), LastReceipt(inbox, log));
    assert all == Candidates(ReaderOf(inbox), MessagesOf(log, inbox.project), LastReceipt(inbox, log), false);
    CrashesWhen(size, all, false);
    PageTakes(size, all);
  }

  /** What Enrich delivers is such a request: the first messages of a page of the pending ones. */
  lemma {:induction false} PageIsPending(inbox: Inbox, log: seq<Event>, size: nat -> nat, wire: seq<Delivered> -> nat,
                                         limit: nat)
    ensures var page := PageOf(size, Candidates(ReaderOf(inbox), MessagesOf(log, inbox.project),
                                                LastReceipt(inbox, log), false), false);
      && (page.Page? <==> Pending(inbox, log) == [] || FitsAlone(size, Pending(inbox, log)[0]))
      && (page.Page? ==>
            && page.messages <= Pending(inbox, log) && (page.messages == [] <==> Pending(inbox, log) == [])
            && var n := FitWhole(page.messages, wire, limit, 0);
               page.messages != [] ==> CanDo(inbox, World(log, [], []), Enriches(if n > 0 then n else 1)))
  {
    PageOfPending(inbox, log, size);
  }

  // ----- Sending

  const MESSAGES_PER_TASK := 1000
  const LONGEST_ID := 200

  /** A message to send, and what the store and the task lists say of its sender and recipient. */
  datatype Letter = Letter(taskId: Text, callId: Text, actor: Text, project: Text, recipient: Option<Text>, content: Text,
                           available: bool, recipientAvailable: bool, secret: bool)

  datatype Sending = Sent(sequence: nat) | InvalidIdentity | Secret | Stopped | DifferentContent | NoRecipient | LimitReached

  function RequestFor(letter: Letter): Request {
    Request(letter.taskId, letter.actor, Some(letter.callId))
  }

  function BodyOf(letter: Letter): Body {
    Message(letter.project, letter.actor, letter.recipient, Some(letter.callId), letter.content)
  }

  /** The event of a sequence. */
  function EventAt(log: seq<Event>, sequence: nat): Option<Event> {
    if log == [] then None
    else if log[|log| - 1].sequence == sequence then Some(log[|log| - 1])
    else EventAt(log[..|log| - 1], sequence)
  }

  predicate SameLetter(e: Event, letter: Letter) {
    e.body.Message? && e.body.project == letter.project && e.body.content == letter.content
    && e.body.recipient == letter.recipient
  }

  /** The answer to a send, and whether it appends the message. */
  function SendingOf(log: seq<Event>, letter: Letter, sequence: nat): (Sending, bool) {
    if letter.callId == [] || |letter.callId| > LONGEST_ID then (InvalidIdentity, false)
    else if letter.secret then (Secret, false)
    else if !letter.available then (Stopped, false)
    else match SentFor(log, RequestFor(letter))
      case Some(earlier) =>
        var e := EventAt(log, earlier);
        if e.Some? && SameLetter(e.value, letter) then (Sent(earlier), false) else (DifferentContent, false)
      case None =>
        if letter.recipient.Some? && !letter.recipientAvailable then (NoRecipient, false)
        else if CountOf(log, letter.taskId) >= MESSAGES_PER_TASK then (LimitReached, false)
        else (Sent(sequence), true)
  }

  function LogAfter(log: seq<Event>, letter: Letter, sequence: nat, createdAt: Text): seq<Event> {
    if SendingOf(log, letter, sequence).1 then log + [Event(sequence, letter.taskId, createdAt, BodyOf(letter))] else log
  }

  method Send(channel: AgentChannel, log: seq<Event>, letter: Letter, sequence: nat, createdAt: Text)
    returns (sending: Sending, log': seq<Event>)
    requires channel.Current(log) && sequence > Maximum(log)
    modifies channel
    ensures sending == SendingOf(log, letter, sequence).0 && log' == LogAfter(log, letter, sequence, createdAt)
    ensures channel.Current(log')
  {
    log' := log;
    if |letter.callId| == 0 || |letter.callId| > LONGEST_ID { return InvalidIdentity, log; }
    if letter.secret { return Secret, log; }
    channel.RefreshIndex(log, false);
    FoldAnswers(log, letter.project, letter.taskId, RequestFor(letter));
    assert (RequestFor(letter) in channel.tables.requests) == SentFor(log, RequestFor(letter)).Some?;
    if !letter.available { return Stopped, log; }
    if RequestFor(letter) in channel.tables.requests {
      var earlier := channel.tables.requests[RequestFor(letter)];
      var e := EventAt(log, earlier);
      sending := if e.Some? && SameLetter(e.value, letter) then Sent(earlier) else DifferentContent;
      return;
    }
    if letter.recipient.Some? && !letter.recipientAvailable { return NoRecipient, log; }
    if GetOr(channel.tables.counts, letter.taskId, 0) >= MESSAGES_PER_TASK { return LimitReached, log; }
    log' := Record(channel, log, letter, sequence, createdAt);
    sending := Sent(sequence);
  }

  /** Appends the message's event and brings the index up to it. */
  method Record(channel: AgentChannel, log: seq<Event>, letter: Letter, sequence: nat, createdAt: Text)
    returns (log': seq<Event>)
    requires channel.Current(log) && sequence > Maximum(log)
    modifies channel
    ensures log' == log + [Event(sequence, letter.taskId, createdAt, BodyOf(letter))]
    ensures channel.Current(log')
  {
    var event := Event(sequence, letter.taskId, createdAt, BodyOf(letter));
    LogGrows(log, event);
    AppendKeepsCurrent(channel, log, [event]);
    log' := log + [event];
    channel.RefreshIndex(log', false);
  }

  /** Every request of a log has one message, and every task is within its limit. */
  ghost predicate SentOnce(log: seq<Event>) {
    && (forall i, j :: 0 <= i < j < |log| && log[i].body.Message? && log[j].body.Message? ==>
          RequestOf(log[i]) != RequestOf(log[j]))
    && forall taskId :: CountOf(log, taskId) <= MESSAGES_PER_TASK
  }

  lemma {:induction false} SentForNone(log: seq<Event>, request: Request)
    requires SentFor(log, request) == None
    ensures forall i :: 0 <= i < |log| && log[i].body.Message? ==> RequestOf(log[i]) != request
  {
    if log != [] {
      SentForNone(log[..|log| - 1], request);
    }
  }

  lemma {:induction false} CountMore(log: seq<Event>, e: Event, taskId: Text)
    ensures CountOf(log + [e], taskId) == CountOf(log, taskId) + if e.body.Message? && e.taskId == taskId then 1 else 0
  {
    assert (log + [e])[..|log|] == log;
  }

  /** Sends keep one message for each request and at most a thousand for each task. */
  lemma {:induction false} SendKeepsOnce(log: seq<Event>, letter: Letter, sequence: nat, createdAt: Text)
    requires SentOnce(log)
    ensures SentOnce(LogAfter(log, letter, sequence, createdAt))
  {
    if SendingOf(log, letter, sequence).1 {
      var e := Event(sequence, letter.taskId, createdAt, BodyOf(letter));
      SentForNone(log, RequestFor(letter));
      forall taskId
        ensures CountOf(log + [e], taskId) <= MESSAGES_PER_TASK
      {
        CountMore(log, e, taskId);
      }
    }
  }

  lemma {:induction false} EventAtLast(log: seq<Event>, e: Event)
    ensures EventAt(log + [e], e.sequence) == Some(e)
  {
  }

  /** Later events do not change what is at an earlier sequence. */
  lemma {:induction false} EventAtMore(log: seq<Event>, more: seq<Event>, sequence: nat)
    requires IsLog(log + more) && EventAt(log, sequence).Some?
    ensures EventAt(log + more, sequence) == EventAt(log, sequence)
  {
    if more == [] {
      assert log + more == log;
    } else {
      var n := |more| - 1;
      var k := EventIndex(log, sequence);
      assert (log + more)[..|log| + n] == log + more[..n] && (log + more)[k] == log[k];
      assert (log + more)[|log| + n] == more[n];
      EventAtMore(log, more[..n], sequence);
    }
  }

  lemma {:induction false} EventIndex(log: seq<Event>, sequence: nat) returns (k: nat)
    requires EventAt(log, sequence).Some?
    ensures k < |log| && log[k].sequence == sequence && log[k] == EventAt(log, sequence).value
  {
    k := |log| - 1;
    if log[k].sequence != sequence {
      k := EventIndex(log[..k], sequence);
    }
  }

  lemma {:induction false} SentForIndex(log: seq<Event>, request: Request) returns (k: nat)
    requires SentFor(log, request).Some?
    ensures k < |log| && log[k].body.Message? && RequestOf(log[k]) == request && SentFor(log, request) == Some(log[k].sequence)
  {
    k := |log| - 1;
    if !(log[k].body.Message? && RequestOf(log[k]) == request) {
      k := SentForIndex(log[..k], request);
    }
  }

  /** Nor, while each request has one message, which message a request has. */
  lemma {:induction false} SentForMore(log: seq<Event>, more: seq<Event>, request: Request)
    requires SentOnce(log + more) && SentFor(log, request).Some?
    ensures SentFor(log + more, request) == SentFor(log, request)
  {
    var k := SentForIndex(log, request);
    assert (log + more)[k] == log[k];
    var j := MessageFound(log + more, k);
    assert j == k;
  }

  /** A message in a log is found for its request, or one after it is. */
  lemma {:induction false} MessageFound(log: seq<Event>, k: nat) returns (j: nat)
    requires k < |log| && log[k].body.Message?
    ensures k <= j < |log| && log[j].body.Message? && RequestOf(log[j]) == RequestOf(log[k])
    ensures SentFor(log, RequestOf(log[k])) == Some(log[j].sequence)
  {
    j := |log| - 1;
    if !(log[j].body.Message? && RequestOf(log[j]) == RequestOf(log[k])) {
      assert log[..j][k] == log[k];
      j := MessageFound(log[..j], k);
    }
  }

  /** A repeated send gives the first one's message and appends no message, whatever other events have come between; with
      other content it is refused. */
  lemma {:induction false} SendIsIdempotent(log: seq<Event>, letter: Letter, n: nat, createdAt: Text, more: seq<Event>,
                                            again: Letter, next: nat)
    requires SendingOf(log, letter, n).0.Sent?
    requires var now := LogAfter(log, letter, n, createdAt) + more; IsLog(now) && SentOnce(now)
    requires RequestFor(again) == RequestFor(letter) && again.available && !again.secret
    ensures SendingOf(LogAfter(log, letter, n, createdAt) + more, again, next)
         == if again.project == letter.project && again.content == letter.content && again.recipient == letter.recipient
            then (SendingOf(log, letter, n).0, false) else (DifferentContent, false)
  {
    var log' := LogAfter(log, letter, n, createdAt);
    SentIsFound(log, letter, n, createdAt);
    SentForMore(log', more, RequestFor(letter));
    EventAtMore(log', more, SendingOf(log, letter, n).0.sequence);
  }

  /** What a successful send leaves: its request has its message, with its content. */
  lemma {:induction false} SentIsFound(log: seq<Event>, letter: Letter, n: nat, createdAt: Text)
    requires SendingOf(log, letter, n).0.Sent?
    ensures var log', m := LogAfter(log, letter, n, createdAt), SendingOf(log, letter, n).0.sequence;
      && SentFor(log', RequestFor(letter)) == Some(m)
      && EventAt(log', m).Some? && SameLetter(EventAt(log', m).value, letter)
  {
    if SendingOf(log, letter, n).1 {
      var e := Event(n, letter.taskId, createdAt, BodyOf(letter));
      EventAtLast(log, e);
      assert RequestOf(e) == RequestFor(letter);
    }
  }

  // ----- Sending over a whole run

  /** A send, whether it is answered or refused, or another event of the log, as the one that follows every send. */
  datatype Traffic = Sends(letter: Letter, sequence: nat, createdAt: Text) | Records(event: Event)

  function LogOf(steps: seq<Traffic>): seq<Event> {
    if steps == [] then []
    else
      var log := LogOf(steps[..|steps| - 1]);
      match steps[|steps| - 1]
      case Sends(letter, sequence, createdAt) => LogAfter(log, letter, sequence, createdAt)
      case Records(event) => log + [event]
  }

  /** Sequences grow, and only sends append messages. */
  predicate IsTraffic(steps: seq<Traffic>) {
    steps == []
    || (var log := LogOf(steps[..|steps| - 1]);
        && IsTraffic(steps[..|steps| - 1])
        && match steps[|steps| - 1]
           case Sends(_, sequence, _) => sequence > Maximum(log)
           case Records(event) => event.sequence > Maximum(log) && !event.body.Message?)
  }

  /** In every run of sends and other events, each request has one message, and no task has sent more than its limit. */
  lemma {:induction false} TrafficSendsOnce(steps: seq<Traffic>)
    requires IsTraffic(steps)
    ensures IsLog(LogOf(steps)) && SentOnce(LogOf(steps))
  {
    if steps == [] { return; }
    var n := |steps| - 1;
    var log := LogOf(steps[..n]);
    TrafficSendsOnce(steps[..n]);
    match steps[n]
    case Sends(letter, sequence, createdAt) =>
      LogGrows(log, Event(sequence, letter.taskId, createdAt, BodyOf(letter)));
      SendKeepsOnce(log, letter, sequence, createdAt);
    case Records(event) =>
      LogGrows(log, event);
      OtherKeepsOnce(log, event);
  }

  lemma {:induction false} OtherKeepsOnce(log: seq<Event>, event: Event)
    requires SentOnce(log) && !event.body.Message?
    ensures SentOnce(log + [event])
  {
    forall taskId
      ensures CountOf(log + [event], taskId) <= MESSAGES_PER_TASK
    {
      CountMore(log, event, taskId);
    }
  }

  /** A run's log continues the log of each of its beginnings. */
  lemma {:induction false} LogContinues(steps: seq<Traffic>, k: nat) returns (more: seq<Event>)
    requires k <= |steps|
    ensures LogOf(steps) == LogOf(steps[..k]) + more
  {
    if k == |steps| {
      assert steps[..k] == steps;
      more := [];
      assert LogOf(steps) + [] == LogOf(steps);
    } else {
      var n := |steps| - 1;
      assert steps[..n][..k] == steps[..k];
      more := LogContinues(steps[..n], k);
      var log := LogOf(steps[..n]);
      var last := match steps[n]
        case Sends(letter, sequence, createdAt) =>
          if SendingOf(log, letter, sequence).1 then [Event(sequence, letter.taskId, createdAt, BodyOf(letter))] else []
        case Records(event) => [event];
      assert log + [] == log;
      Associate(LogOf(steps[..k]), more, last);
      more := more + last;
    }
  }

  /** A send answered at any step of a run is answered alike whenever it is repeated later in the run. */
  lemma {:induction false} TrafficIsIdempotent(steps: seq<Traffic>, k: nat, again: Letter, next: nat)
    requires IsTraffic(steps) && k < |steps| && steps[k].Sends?
    requires SendingOf(LogOf(steps[..k]), steps[k].letter, steps[k].sequence).0.Sent?
    requires RequestFor(again) == RequestFor(steps[k].letter) && again.available && !again.secret
    ensures var letter := steps[k].letter;
      SendingOf(LogOf(steps), again, next)
        == if again.project == letter.project && again.content == letter.content && again.recipient == letter.recipient
           then (SendingOf(LogOf(steps[..k]), letter, steps[k].sequence).0, false) else (DifferentContent, false)
  {
    var step := steps[k];
    var more := LogContinues(steps, k + 1);
    assert steps[..k + 1][..k] == steps[..k];
    assert LogOf(steps[..k + 1]) == LogAfter(LogOf(steps[..k]), step.letter, step.sequence, step.createdAt);
    TrafficSendsOnce(steps);
    SendIsIdempotent(LogOf(steps[..k]), step.letter, step.sequence, step.createdAt, more, again, next);
  }
}
