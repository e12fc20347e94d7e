/**
 What the channel's answers mean in terms of the events of its log: when a message is sent and what is then in the log, over
 one send and over whole runs; and which events a reader is shown.
 */
module ChannelLaws {
  import opened Utf16
  import opened Wrappers
  import opened ChannelIndex
  import opened ChannelPages
  import opened ChannelDelivery
  import Decimal

  // ----- One send

  /** The event is a message of the letter's request. */
  predicate OfRequest(e: Event, letter: Letter) {
    e.body.Message? && e.taskId == letter.taskId && e.body.actor == letter.actor && e.body.callId == Some(letter.callId)
  }

  ghost predicate IsRepeat(log: seq<Event>, letter: Letter) {
    exists k :: 0 <= k < |log| && OfRequest(log[k], letter)
  }

  /** Where the messages of a task are. */
  function SentBy(log: seq<Event>, taskId: Text): set<nat> {
    set k: nat | k < |log| && log[k].body.Message? && log[k].taskId == taskId
  }

  /** The request is well named, its content is not secret-like, and its sender may send. */
  predicate MayAsk(letter: Letter) {
    1 <= |letter.callId| <= 200 && !letter.secret && letter.available
  }

  predicate MayReach(letter: Letter) {
    letter.recipient.Some? ==> letter.recipientAvailable
  }

  ghost predicate MaySend(log: seq<Event>, letter: Letter) {
    MayAsk(letter) && !IsRepeat(log, letter) && MayReach(letter) && |SentBy(log, letter.taskId)| < 1000
  }

  /** The message as it is recorded. */
  function EventOf(letter: Letter, sequence: nat, createdAt: Text): Event {
    Event(sequence, letter.taskId, createdAt,
          Message(letter.project, letter.actor, letter.recipient, Some(letter.callId), letter.content))
  }

  /** A message that the letter would repeat. */
  predicate IsSame(e: Event, letter: Letter) {
    && e.body.Message? && e.body.project == letter.project && e.body.content == letter.content
    && e.body.recipient == letter.recipient
  }

  lemma {:induction false} CountIsSent(log: seq<Event>, taskId: Text)
    ensures CountOf(log, taskId) == |SentBy(log, taskId)|
  {
    if log != [] {
      var n := |log| - 1;
      var front := log[..n];
      CountIsSent(front, taskId);
      if log[n].body.Message? && log[n].taskId == taskId {
        assert SentBy(log, taskId) == SentBy(front, taskId) + {n};
      } else {
        assert SentBy(log, taskId) == SentBy(front, taskId);
      }
    }
  }

  lemma {:induction false} RepeatIsSent(log: seq<Event>, letter: Letter)
    ensures IsRepeat(log, letter) <==> SentFor(log, RequestFor(letter)).Some?
  {
    if SentFor(log, RequestFor(letter)).Some? {
      var k := SentForIndex(log, RequestFor(letter));
      assert OfRequest(log[k], letter);
    } else {
      SentForNone(log, RequestFor(letter));
    }
  }

  /** A send appends its message exactly when it may be sent, and nothing else ever. */
  lemma {:induction false} SendsExactlyWhen(log: seq<Event>, letter: Letter, sequence: nat, createdAt: Text)
    ensures LogAfter(log, letter, sequence, createdAt) ==
            if MaySend(log, letter) then log + [EventOf(letter, sequence, createdAt)] else log
  {
    CountIsSent(log, letter.taskId);
    RepeatIsSent(log, letter);
  }

  /** The first test that fails decides the refusal, in this order. */
  lemma {:induction false} FirstFailureDecides(log: seq<Event>, letter: Letter, sequence: nat)
    ensures var answer := SendingOf(log, letter, sequence).0;
      && (answer == InvalidIdentity <==> |letter.callId| == 0 || |letter.callId| > 200)
      && (answer == Secret <==> 1 <= |letter.callId| <= 200 && letter.secret)
      && (answer == Stopped <==> 1 <= |letter.callId| <= 200 && !letter.secret && !letter.available)
      && (answer == NoRecipient <==> MayAsk(letter) && !IsRepeat(log, letter) && !MayReach(letter))
      && (answer == LimitReached <==>
            MayAsk(letter) && !IsRepeat(log, letter) && MayReach(letter) && |SentBy(log, letter.taskId)| >= 1000)
      && (MaySend(log, letter) ==> answer == Sent(sequence))
      && (answer == DifferentContent || answer.Sent? ==> MayAsk(letter) && (IsRepeat(log, letter) || MaySend(log, letter)))
  {
    CountIsSent(log, letter.taskId);
    RepeatIsSent(log, letter);
  }

  /** A repeat is answered with the message its request has, if that has the same content. */
  lemma {:induction false} RepeatsAreAnswered(log: seq<Event>, letter: Letter, sequence: nat, k: nat)
    requires IsLog(log) && SentOnce(log) && MayAsk(letter) && k < |log| && OfRequest(log[k], letter)
    ensures SendingOf(log, letter, sequence) ==
            (if IsSame(log[k], letter) then Sent(log[k].sequence) else DifferentContent, false)
  {
    RepeatIsSent(log, letter);
    assert RequestOf(log[k]) == RequestFor(letter);
    var j := MessageFound(log, k);
    assert j == k;
    var i := SentForIndex(log, RequestFor(letter));
    EventIsAt(log, k);
  }

  lemma {:induction false} EventIsAt(log: seq<Event>, k: nat)
    requires IsLog(log) && k < |log|
    ensures EventAt(log, log[k].sequence) == Some(log[k])
  {
    var n := |log| - 1;
    if k < n {
      assert log[..n][k] == log[k];
      EventIsAt(log[..n], k);
    }
  }

  // ----- Whole runs

  /** The step is a send whose message this event is, and it may be sent. */
  predicate IsSendOf(step: Traffic, e: Event) {
    && step.Sends? && e == EventOf(step.letter, step.sequence, step.createdAt)
    && MayAsk(step.letter) && MayReach(step.letter)
  }

  /** Every message in the log of a run comes from a send of that run whose content is not secret-like, whose sender may send
      and whose recipient, if it names one, can be reached. */
  lemma {:induction false} MessagesComeFromSends(steps: seq<Traffic>, i: nat) returns (k: nat)
    requires IsTraffic(steps) && i < |LogOf(steps)| && LogOf(steps)[i].body.Message?
    ensures k < |steps| && IsSendOf(steps[k], LogOf(steps)[i])
  {
    var n := |steps| - 1;
    var log := LogOf(steps[..n]);
    if steps[n].Sends? {
      SendsExactlyWhen(log, steps[n].letter, steps[n].sequence, steps[n].createdAt);
    }
    if i < |log| {
      k := MessagesComeFromSends(steps[..n], i);
    } else {
      k := n;
    }
  }

  /** And each send of a run that may be sent when it is made has its message in the log ever after. */
  lemma {:induction false} SendsStayInLog(steps: seq<Traffic>, k: nat) returns (i: nat)
    requires k < |steps| && steps[k].Sends? && MaySend(LogOf(steps[..k]), steps[k].letter)
    ensures i < |LogOf(steps)| && LogOf(steps)[i] == EventOf(steps[k].letter, steps[k].sequence, steps[k].createdAt)
  {
    var step := steps[k];
    var log := LogOf(steps[..k]);
    var more := LogContinues(steps, k + 1);
    assert steps[..k + 1][..k] == steps[..k];
    SendsExactlyWhen(log, step.letter, step.sequence, step.createdAt);
    i := |log|;
    assert LogOf(steps[..k + 1])[i] == EventOf(step.letter, step.sequence, step.createdAt);
  }

  // ----- What a reader is shown

  /** The index's entry stands for the event. */
  predicate StandsFor(m: Indexed, e: Event) {
    && e.body.Message? && m.sequence == e.sequence && m.sender == e.taskId && m.recipient == e.body.recipient
    && m.actor == e.body.actor && m.createdAt == e.createdAt
  }

  /** The messages of a project stand for its message events, in their order. */
  lemma {:induction false} MessagesStandForEvents(log: seq<Event>, project: Text) returns (at: seq<nat>)
    ensures |at| == |MessagesOf(log, project)|
    ensures forall i :: 0 <= i < |at| ==> at[i] < |log| && StandsFor(MessagesOf(log, project)[i], log[at[i]])
    ensures forall i :: 0 <= i < |at| ==> log[at[i]].body.Message? && log[at[i]].body.project == project
    ensures forall i, j :: 0 <= i < j < |at| ==> at[i] < at[j]
    ensures forall k :: 0 <= k < |log| && log[k].body.Message? && log[k].body.project == project ==> k in at
  {
    at := [];
    if log != [] {
      var n := |log| - 1;
      var front := log[..n];
      at := MessagesStandForEvents(front, project);
      assert forall k :: 0 <= k < n ==> front[k] == log[k];
      if log[n].body.Message? && log[n].body.project == project {
        var before := at;
        at := before + [n];
        forall k | 0 <= k < |log| && log[k].body.Message? && log[k].body.project == project
          ensures k in at
        {
          if k < n {
            assert front[k] == log[k];
            assert k in before;
          } else {
            assert at[|before|] == n;
          }
        }
      }
    }
  }

  /** Whom a message event is for: everyone when it names nobody. */
  predicate IsFor(e: Event, taskId: Text) {
    e.body.Message? && (e.body.recipient.None? || e.body.recipient.value == [] || e.body.recipient.value == taskId)
  }

  /** A task's inbox shows what is for it, is not of its own agent, and is not older than the task; the conversation shows
      what is for it or was sent by it. */
  lemma {:induction false} SeesItsMessages(reader: Reader, m: Indexed, e: Event)
    requires StandsFor(m, e)
    ensures reader.inbox ==>
      (Sees(reader, m) <==>
         && IsFor(e, reader.taskId) && !(e.taskId == reader.taskId && e.body.actor == Units("agent"))
         && !Decimal.Below(e.createdAt, reader.createdAt))
    ensures !reader.inbox ==> (Sees(reader, m) <==> IsFor(e, reader.taskId) || e.taskId == reader.taskId)
  {
    assert AGENT == Units("agent");
  }
}
