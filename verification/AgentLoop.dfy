/**
 A turn of the agent: provider requests under reservations, and the tool calls between them. What the provider, the
 tools, the store and the user do is given as a script of outcomes. Every reservation is settled once, unless the commit
 of its response is rolled back after the source has let go of it; none is held while a tool runs; and no call id is
 executed twice in a task's whole history.
 */
module AgentLoop {
  import opened Utf16
  import opened Wrappers
  import opened Sequences

  const MAXIMUM_ITERATIONS := 51
  const MAXIMUM_TOOLS := 50
  const CALLS_PER_RESPONSE := 16
  const MAXIMUM_SEEN := 1000
  const OUTPUT_BYTES := 256 * 1024

  /** What a turn does to the store and the tools, in order. */
  datatype Action =
    | Admit(reservation: nat)
    | Attempt(reservation: nat)
    | Settle(reservation: nat, completed: bool)
    | Save(state: ProviderState)
    | Execute(id: Text)
    | Complete
    | Stop(reason: Reason)

  datatype Reason = StreamFailed | Cancelled | Unfinished | BadContinuation | ReusedId | HistoryLimit | TooLong
                  | CommitRefused | CommitLost | ToolLimit | ToolFailed | UnknownOutcome | AdmissionFailed | IterationLimit

  /** The provider state kept for a task: the pending calls' ids, how many have results, and the ids ever seen, which
      older state does not have. */
  datatype ProviderState = ProviderState(pending: seq<Text>, results: nat, seen: Option<seq<Text>>)

  // ----- What may happen

  datatype Item = Measure | Words(bytes: nat) | ToolCall(id: Text) | Done | Odd

  /** How the transaction of a good response ends: it commits; it is refused before the settlement in it; or it is rolled
      back after that, when the source's handle is already null. */
  datatype Commitment = Commits | Refused | RolledBack

  datatype ToolOutcome = ToolOutcome(cancelledBefore: bool, fails: bool, unknown: bool)

  /** One iteration's outcomes: whether the wait for a slot ends with one; the stream's items, each arriving cancelled or
      not, and whether the stream then breaks; the checks of the response; the commit; the tools; the next admission. */
  datatype Iteration = Iteration(
    slot: bool, items: seq<(Item, bool)>, breaks: bool, cancelledAfter: bool, continuationFits: bool, transcriptFits: bool,
    commitment: Commitment, tools: nat -> ToolOutcome, cancelledLast: bool, admission: Option<nat>)

  // ----- Seen ids

  /** Adding to a set that keeps its order. */
  function Add(seen: seq<Text>, id: Text): seq<Text> {
    if id in seen then seen else seen + [id]
  }

  function AddAll(seen: seq<Text>, ids: seq<Text>): seq<Text>
    decreases |ids|
  {
    if ids == [] then seen else AddAll(Add(seen, ids[0]), ids[1..])
  }

  /** The ids a task's state has seen: its own list, or its pending calls when it has none. */
  function SeenIds(state: Option<ProviderState>): seq<Text> {
    match state
    case None => []
    case Some(s) => AddAll([], match s.seen case Some(ids) => ids case None => s.pending)
  }

  lemma {:induction false} AddAllKeeps(seen: seq<Text>, ids: seq<Text>)
    requires NoDuplicates(seen)
    ensures NoDuplicates(AddAll(seen, ids))
    ensures forall id :: id in AddAll(seen, ids) <==> id in seen || id in ids
    decreases |ids|
  {
    if ids != [] {
      AddAllKeeps(Add(seen, ids[0]), ids[1..]);
      assert ids == [ids[0]] + ids[1..];
    }
  }

  lemma {:induction false} AddAllFresh(seen: seq<Text>, ids: seq<Text>)
    requires NoDuplicates(seen + ids)
    ensures AddAll(seen, ids) == seen + ids
    decreases |ids|
  {
    if ids == [] {
      assert seen + ids == seen;
    } else {
      assert (seen + ids)[|seen|] == ids[0];
      assert forall i :: 0 <= i < |seen| ==> (seen + ids)[i] == seen[i];
      assert seen + ids == (seen + [ids[0]]) + ids[1..];
      AddAllFresh(seen + [ids[0]], ids[1..]);
    }
  }

  lemma {:induction false} AddAllTwice(seen: seq<Text>, a: seq<Text>, b: seq<Text>)
    ensures AddAll(AddAll(seen, a), b) == AddAll(seen, a + b)
    decreases |a|
  {
    if a == [] {
      assert a + b == b;
    } else {
      assert (a + b)[1..] == a[1..] + b;
      AddAllTwice(Add(seen, a[0]), a[1..], b);
    }
  }

  // ----- Properties of a trace

  /** The reservations held after a trace. */
  function Held(trace: seq<Action>): multiset<nat> {
    if trace == [] then multiset{}
    else
      var held := Held(trace[..|trace| - 1]);
      match trace[|trace| - 1]
      case Admit(reservation) => held + multiset{reservation}
      case Settle(reservation, _) => held - multiset{reservation}
      case _ => held
  }

  /** Only held reservations are settled or attempted, and none is held when a tool is executed. */
  predicate Proper(trace: seq<Action>) {
    trace == []
    || (var front := trace[..|trace| - 1];
        && Proper(front)
        && match trace[|trace| - 1]
           case Settle(reservation, _) => reservation in Held(front)
           case Attempt(reservation) => reservation in Held(front)
           case Execute(_) => Held(front) == multiset{}
           case _ => true)
  }

  function Admissions(trace: seq<Action>, reservation: nat): nat {
    if trace == [] then 0
    else Admissions(trace[..|trace| - 1], reservation) + if trace[|trace| - 1] == Admit(reservation) then 1 else 0
  }

  function Settlements(trace: seq<Action>, reservation: nat): nat {
    if trace == [] then 0
    else
      var last := trace[|trace| - 1];
      Settlements(trace[..|trace| - 1], reservation) + if last.Settle? && last.reservation == reservation then 1 else 0
  }

  function Executed(trace: seq<Action>): seq<Text> {
    if trace == [] then []
    else
      var last := trace[|trace| - 1];
      Executed(trace[..|trace| - 1]) + if last.Execute? then [last.id] else []
  }

  /** What a trace does with reservations, and the states of responses it saves: those without results yet. */
  predicate IsBooked(action: Action) {
    action.Admit? || action.Attempt? || action.Settle? || (action.Save? && action.state.results == 0)
  }

  function Ledger(trace: seq<Action>): seq<Action> {
    if trace == [] then []
    else
      var last := trace[|trace| - 1];
      Ledger(trace[..|trace| - 1]) + if IsBooked(last) then [last] else []
  }

  lemma {:induction false} LedgerMore(trace: seq<Action>, action: Action)
    ensures Ledger(trace + [action]) == Ledger(trace) + if IsBooked(action) then [action] else []
  {
    assert (trace + [action])[..|trace|] == trace;
  }

  /** The provider state that a trace has saved last. */
  function Saved(trace: seq<Action>): Option<ProviderState> {
    if trace == [] then None
    else match trace[|trace| - 1] case Save(state) => Some(state) case _ => Saved(trace[..|trace| - 1])
  }

  /** The saved state has `id` as the first of its calls without a result. */
  predicate AwaitsFirst(saved: Option<ProviderState>, id: Text) {
    saved.Some? && saved.value.results < |saved.value.pending| && saved.value.pending[saved.value.results] == id
  }

  /** A state may be saved after a trace: it has no results yet, or it has one more than the state saved before, for the
      call executed last. */
  predicate MaySave(trace: seq<Action>, state: ProviderState) {
    || state.results == 0
    || (trace != [] && trace[|trace| - 1].Execute? && Saved(trace) == Some(state.(results := state.results - 1)))
  }

  /** Every tool is executed when the state saved last has its call as the first one without a result, and a state with
      results is saved for nothing else. */
  predicate Recorded(trace: seq<Action>) {
    trace == []
    || (var front := trace[..|trace| - 1];
        && Recorded(front)
        && match trace[|trace| - 1]
           case Execute(id) => AwaitsFirst(Saved(front), id)
           case Save(state) => MaySave(front, state)
           case _ => true)
  }

  lemma {:induction false} RecordedMore(trace: seq<Action>, action: Action)
    requires Recorded(trace)
    requires action.Execute? ==> AwaitsFirst(Saved(trace), action.id)
    requires action.Save? ==> MaySave(trace, action.state)
    ensures Recorded(trace + [action])
    ensures Saved(trace + [action]) == if action.Save? then Some(action.state) else Saved(trace)
  {
    assert (trace + [action])[..|trace|] == trace;
  }

  /** At every execution within such a trace the saved state has its call as the first one without a result. */
  lemma {:induction false} RecordedExecutions(trace: seq<Action>, i: nat)
    requires Recorded(trace) && i < |trace| && trace[i].Execute?
    ensures AwaitsFirst(Saved(trace[..i]), trace[i].id)
    decreases |trace|
  {
    var front := trace[..|trace| - 1];
    if i == |trace| - 1 {
      assert trace[..i] == front;
    } else {
      RecordedExecutions(front, i);
      assert front[..i] == trace[..i];
    }
  }

  /** In a proper trace, a reservation is settled as often as it is admitted, but for the times it is still held. */
  lemma {:induction false} ProperCounts(trace: seq<Action>, reservation: nat)
    requires Proper(trace)
    ensures Admissions(trace, reservation) == Settlements(trace, reservation) + Held(trace)[reservation]
  {
    if trace != [] {
      ProperCounts(trace[..|trace| - 1], reservation);
    }
  }

  /** And at every execution within it, all the reservations admitted so far are settled. */
  lemma {:induction false} ProperExecutions(trace: seq<Action>, i: nat, reservation: nat)
    requires Proper(trace) && i < |trace| && trace[i].Execute?
    ensures Admissions(trace[..i], reservation) == Settlements(trace[..i], reservation)
    decreases |trace|
  {
    var front := trace[..|trace| - 1];
    if i == |trace| - 1 {
      ProperCounts(front, reservation);
      assert trace[..i] == front;
    } else {
      ProperExecutions(front, i, reservation);
      assert front[..i] == trace[..i];
    }
  }

  lemma {:induction false} TraceMore(trace: seq<Action>, action: Action)
    ensures var more := trace + [action];
      && Held(more) == (match action
                        case Admit(reservation) => Held(trace) + multiset{reservation}
                        case Settle(reservation, _) => Held(trace) - multiset{reservation}
                        case _ => Held(trace))
      && Executed(more) == Executed(trace) + (if action.Execute? then [action.id] else [])
      && (Proper(more) <==> Proper(trace)
                            && match action
                               case Settle(reservation, _) => reservation in Held(trace)
                               case Attempt(reservation) => reservation in Held(trace)
                               case Execute(_) => Held(trace) == multiset{}
                               case _ => true)
  {
    assert (trace + [action])[..|trace|] == trace;
  }

  // ----- The turn

  /** The ids of a response's calls: at most sixteen, none empty, none twice. */
  predicate AreCalls(tooling: bool, calls: seq<Text>) {
    && |calls| <= CALLS_PER_RESPONSE && NoDuplicates(calls) && (calls != [] ==> tooling)
    && forall i :: 0 <= i < |calls| ==> calls[i] != []
  }

  /** The calls of a stream's items, in order. */
  function CallIds(items: seq<(Item, bool)>): seq<Text> {
    if items == [] then []
    else
      var last := items[|items| - 1].0;
      CallIds(items[..|items| - 1]) + if last.ToolCall? then [last.id] else []
  }

  function WordBytes(items: seq<(Item, bool)>): nat {
    if items == [] then 0
    else
      var last := items[|items| - 1].0;
      WordBytes(items[..|items| - 1]) + if last.Words? then last.bytes else 0
  }

  predicate HasDone(items: seq<(Item, bool)>) {
    items != [] && (HasDone(items[..|items| - 1]) || items[|items| - 1].0.Done?)
  }

  /** When an item may come after others: not cancelled, not unexpected, not after the end, its text within the limit, or
      its call acceptable. */
  predicate MayFollow(tooling: bool, items: seq<(Item, bool)>, item: (Item, bool)) {
    && !item.1 && !item.0.Odd? && !HasDone(items)
    && (item.0.Words? ==> WordBytes(items) + item.0.bytes <= OUTPUT_BYTES)
    && (item.0.ToolCall? ==>
          tooling && |CallIds(items)| < CALLS_PER_RESPONSE && item.0.id != [] && item.0.id !in CallIds(items))
  }

  predicate AreItems(tooling: bool, items: seq<(Item, bool)>) {
    items == [] || (var n := |items| - 1; AreItems(tooling, items[..n]) && MayFollow(tooling, items[..n], items[n]))
  }

  /** What that says of the whole stream. */
  lemma {:induction false} ItemsMean(tooling: bool, items: seq<(Item, bool)>)
    requires AreItems(tooling, items)
    ensures AreCalls(tooling, CallIds(items)) && WordBytes(items) <= OUTPUT_BYTES
    ensures forall i :: 0 <= i < |items| ==> !items[i].1 && !items[i].0.Odd?
    ensures forall i :: 0 <= i < |items| - 1 ==> !items[i].0.Done?
    ensures HasDone(items) <==> items != [] && items[|items| - 1].0.Done?
  {
    if items != [] {
      var n := |items| - 1;
      ItemsMean(tooling, items[..n]);
      assert forall i :: 0 <= i < n ==> items[..n][i] == items[i];
    }
  }

  lemma {:induction false} ItemsMore(items: seq<(Item, bool)>, item: (Item, bool))
    ensures var more := items + [item];
      && CallIds(more) == CallIds(items) + (if item.0.ToolCall? then [item.0.id] else [])
      && WordBytes(more) == WordBytes(items) + (if item.0.Words? then item.0.bytes else 0)
      && (HasDone(more) <==> HasDone(items) || item.0.Done?)
  {
    var more := items + [item];
    assert more[..|items|] == items && more[|items|] == item;
  }

  /** Items that may not be are not made so by what follows. */
  lemma {:induction false} ItemsPrefix(tooling: bool, items: seq<(Item, bool)>, k: nat)
    requires k <= |items| && AreItems(tooling, items)
    ensures AreItems(tooling, items[..k])
    decreases |items|
  {
    if k < |items| {
      ItemsPrefix(tooling, items[..|items| - 1], k);
      assert items[..|items| - 1][..k] == items[..k];
    } else {
      assert items[..k] == items;
    }
  }

  lemma {:induction false} MayFollowIs(tooling: bool, items: seq<(Item, bool)>, item: (Item, bool))
    requires AreItems(tooling, items)
    ensures MayFollow(tooling, items, item) <==> AreItems(tooling, items + [item])
  {
    assert (items + [item])[..|items|] == items;
  }

  /** What has been read of a stream. */
  datatype Reading = Reading(calls: seq<Text>, bytes: nat, finished: bool)

  function ReadingOf(items: seq<(Item, bool)>): Reading {
    Reading(CallIds(items), WordBytes(items), HasDone(items))
  }

  /** One item of the stream. */
  method ReceiveItem(tooling: bool, r: Reading, item: Item, cancelled: bool, ghost read: seq<(Item, bool)>)
    returns (r': Reading, failure: Option<Reason>)
    requires r == ReadingOf(read)
    ensures failure.None? <==> MayFollow(tooling, read, (item, cancelled))
    ensures failure.None? ==> r' == ReadingOf(read + [(item, cancelled)])
    ensures failure != Some(IterationLimit) && failure != Some(CommitLost)
  {
    ItemsMore(read, (item, cancelled));
    assert r.calls + [] == r.calls;
    r', failure := r, None;
    if r.finished { return r, Some(StreamFailed); }
    if cancelled { return r, Some(Cancelled); }
    match item
    case Measure =>
    case Words(n) =>
      if r.bytes + n > OUTPUT_BYTES { return r, Some(StreamFailed); }
      r' := r.(bytes := r.bytes + n);
    case ToolCall(id) =>
      if !tooling || |r.calls| >= CALLS_PER_RESPONSE || |id| == 0 || id in r.calls { return r, Some(StreamFailed); }
      r' := r.(calls := r.calls + [id]);
    case Done => r' := r.(finished := true);
    case Odd => return r, Some(StreamFailed);
  }

  lemma {:induction false} StopsAt(tooling: bool, items: seq<(Item, bool)>, i: nat)
    requires i < |items| && AreItems(tooling, items[..i])
    ensures items[..i + 1] == items[..i] + [items[i]]
    ensures MayFollow(tooling, items[..i], items[i]) ==> AreItems(tooling, items[..i + 1])
    ensures !MayFollow(tooling, items[..i], items[i]) ==> !AreItems(tooling, items)
  {
    MayFollowIs(tooling, items[..i], items[i]);
    assert items[..i + 1] == items[..i] + [items[i]];
    if AreItems(tooling, items) {
      ItemsPrefix(tooling, items, i + 1);
    }
  }

  /** Reads a stream to its end: its calls in order and whether it finished, or a failure, exactly when its items are not
      what they have to be or the stream breaks. */
  method Receive(tooling: bool, iteration: Iteration) returns (calls: seq<Text>, finished: bool, failure: Option<Reason>)
    ensures failure != Some(IterationLimit) && failure != Some(CommitLost)
    ensures failure.None? <==> AreItems(tooling, iteration.items) && !iteration.breaks
    ensures failure.None? ==> calls == CallIds(iteration.items) && finished == HasDone(iteration.items)
    ensures failure.None? ==> AreCalls(tooling, calls)
  {
    var r := Reading([], 0, false);
    for i := 0 to |iteration.items|
      invariant AreItems(tooling, iteration.items[..i]) && r == ReadingOf(iteration.items[..i])
    {
      StopsAt(tooling, iteration.items, i);
      r, failure := ReceiveItem(tooling, r, iteration.items[i].0, iteration.items[i].1, iteration.items[..i]);
      if failure.Some? { return r.calls, r.finished, failure; }
    }
    assert iteration.items[..|iteration.items|] == iteration.items;
    ItemsMean(tooling, iteration.items);
    return r.calls, r.finished, if iteration.breaks then Some(StreamFailed) else None;
  }

  /** The ids executed were not seen before, are distinct, and are seen now. */
  ghost predicate IsNew(before: seq<Text>, executed: seq<Text>, now: seq<Text>) {
    NoDuplicates(before + executed) && forall id :: id in before || id in executed ==> id in now
  }

  lemma {:induction false} SeenIdsDistinct(state: Option<ProviderState>)
    ensures NoDuplicates(SeenIds(state))
  {
    match state
    case None =>
    case Some(s) => AddAllKeeps([], match s.seen case Some(ids) => ids case None => s.pending);
  }

  /** State saved with its own distinct list gives that list back. */
  lemma {:induction false} SavedIdsComeBack(pending: seq<Text>, results: nat, seen: seq<Text>)
    requires NoDuplicates(seen)
    ensures SeenIds(Some(ProviderState(pending, results, Some(seen)))) == seen
  {
    assert [] + seen == seen;
    AddAllFresh([], seen);
  }

  /** A response's calls, none of them seen, may be executed after what has been. */
  lemma {:induction false} CallsAreNew(before: seq<Text>, executed: seq<Text>, now: seq<Text>, calls: seq<Text>)
    requires IsNew(before, executed, now) && NoDuplicates(calls) && NoDuplicates(now)
    requires forall id :: id in calls ==> id !in now
    ensures IsNew(before, executed, AddAll(now, calls)) && NoDuplicates(AddAll(now, calls))
    ensures NoDuplicates(before + executed + calls) && forall id :: id in calls ==> id in AddAll(now, calls)
  {
    AddAllKeeps(now, calls);
    forall i | 0 <= i < |before + executed|
      ensures (before + executed)[i] in now
    {
      assert (before + executed)[i] in before || (before + executed)[i] in executed;
    }
  }

  /** Where a turn is: its open reservation; the reservation, if any, whose settlement was rolled back; its task's
      provider state; its count of tools; and what it has done. */
  datatype Turn = Turn(handle: Option<nat>, lost: Option<nat>, state: Option<ProviderState>, toolCount: nat,
                       trace: seq<Action>)

  /** A turn with its first reservation admitted. */
  function Start(initial: nat, state: Option<ProviderState>): Turn {
    Turn(Some(initial), None, state, 0, [Admit(initial)])
  }

  function Open(reservation: Option<nat>): multiset<nat> {
    match reservation
    case None => multiset{}
    case Some(r) => multiset{r}
  }

  /** The trace holds the handle and what was lost, and the tool count bounds what it has executed. */
  ghost predicate Keeps(t: Turn) {
    && Proper(t.trace) && Held(t.trace) == Open(t.handle) + Open(t.lost)
    && |Executed(t.trace)| <= t.toolCount && |Executed(t.trace)| <= MAXIMUM_TOOLS
  }

  /** What the turn has executed is new since `before`. */
  ghost predicate Follows(before: seq<Text>, t: Turn) {
    IsNew(before, Executed(t.trace), SeenIds(t.state)) && StaysBounded(before, SeenIds(t.state))
  }

  /** A turn does not take the ids seen over the limit. */
  predicate StaysBounded(before: seq<Text>, now: seq<Text>) {
    |before| <= MAXIMUM_SEEN ==> |now| <= MAXIMUM_SEEN
  }

  /** These calls may be executed next. */
  ghost predicate Ready(before: seq<Text>, t: Turn, calls: seq<Text>) {
    && NoDuplicates(before + Executed(t.trace) + calls) && (forall id :: id in calls ==> id in SeenIds(t.state))
    && (calls != [] ==> t.state.Some? && t.state.value.seen.Some?)
  }

  function Did(t: Turn, action: Action): Turn {
    t.(trace := t.trace + [action])
  }

  lemma {:induction false} Starts(initial: nat, state: Option<ProviderState>)
    ensures Keeps(Start(initial, state)) && Follows(SeenIds(state), Start(initial, state))
    ensures Executed(Start(initial, state).trace) == [] && Ledger(Start(initial, state).trace) == [Admit(initial)]
    ensures Writes(Start(initial, state))
  {
    assert [Admit(initial)] == [] + [Admit(initial)];
    LedgerMore([], Admit(initial));
    RecordedMore([], Admit(initial));
    TraceMore([], Admit(initial));
    SeenIdsDistinct(state);
    assert SeenIds(state) + [] == SeenIds(state);
  }

  /** An action that neither holds, settles nor executes. */
  lemma {:induction false} DidQuietly(before: seq<Text>, t: Turn, action: Action)
    requires Keeps(t)
    requires action.Save? || action.Complete? || action.Stop? || (action.Attempt? && t.handle == Some(action.reservation))
    ensures Keeps(Did(t, action)) && Executed(Did(t, action).trace) == Executed(t.trace)
    ensures Follows(before, t) ==> Follows(before, Did(t, action))
  {
    TraceMore(t.trace, action);
    assert Executed(t.trace) + [] == Executed(t.trace);
  }

  /** The ledger once the open request, if there is one, is settled as not completed. */
  function Closed(t: Turn): seq<Action> {
    Ledger(t.trace) + match t.handle case None => [] case Some(r) => [Settle(r, false)]
  }

  /** The state that a response's commit saves, in a task that has seen these ids. */
  function StateOf(tooling: bool, calls: seq<Text>, seen: seq<Text>): Option<ProviderState> {
    if tooling then Some(ProviderState(calls, 0, Some(AddAll(seen, calls)))) else None
  }

  /** How a response is booked: with the state it saves when it is committed, and with its settlement unless that is
      lost. */
  function Outcome(reservation: nat, kept: Option<ProviderState>, lost: bool, completed: bool): seq<Action> {
    (if completed && kept.Some? then [Save(kept.value)] else []) + if lost then [] else [Settle(reservation, completed)]
  }

  /** All that becomes of a reservation that is held, its attempt before the rest if there is a slot. */
  function Entry(reservation: nat, slot: bool, kept: Option<ProviderState>, lost: bool, completed: bool): seq<Action> {
    (if slot then [Attempt(reservation)] else []) + Outcome(reservation, kept, lost, completed)
  }

  /** All that becomes of the reservation that `t` holds, once `t'` is closed. */
  ghost predicate Booked(t: Turn, t': Turn, slot: bool, kept: Option<ProviderState>, lost: bool, completed: bool) {
    t.handle.Some? && Closed(t') == Ledger(t.trace) + Entry(t.handle.value, slot, kept, lost, completed)
  }

  lemma {:induction false} BookedWithout(t: Turn, t': Turn, kept: Option<ProviderState>)
    requires t.handle.Some? && t'.handle.None? && Ledger(t'.trace) == Ledger(t.trace) + [Settle(t.handle.value, false)]
    ensures Booked(t, t', false, kept, false, false)
  {
  }

  lemma {:induction false} BookedOpen(t: Turn, t': Turn, kept: Option<ProviderState>)
    requires t.handle.Some? && t'.handle == t.handle && Ledger(t'.trace) == Ledger(t.trace) + [Attempt(t.handle.value)]
    ensures Booked(t, t', true, kept, false, false)
    ensures Booked(t, t'.(handle := None, lost := t'.handle), true, kept, true, false)
  {
  }

  lemma {:induction false} BookedSettled(t: Turn, u: Turn, t': Turn, kept: Option<ProviderState>, completed: bool)
    requires t.handle.Some? && t'.handle.None? && Ledger(u.trace) == Ledger(t.trace) + [Attempt(t.handle.value)]
    requires Ledger(t'.trace) == Ledger(u.trace) + Outcome(t.handle.value, kept, false, completed)
    ensures Booked(t, t', true, kept, false, completed)
  {
    Associate(Ledger(t.trace), [Attempt(t.handle.value)], Outcome(t.handle.value, kept, false, completed));
    assert Ledger(t'.trace) + [] == Ledger(t'.trace);
  }

  lemma {:induction false} BookedStill(t: Turn, u: Turn, t': Turn, slot: bool, kept: Option<ProviderState>, completed: bool)
    requires Booked(t, u, slot, kept, false, completed) && u.handle.None? && t'.handle.None?
    requires Ledger(t'.trace) == Ledger(u.trace)
    ensures Booked(t, t', slot, kept, false, completed)
  {
  }

  lemma {:induction false} DidUnbooked(t: Turn, action: Action)
    requires !IsBooked(action)
    ensures Ledger(Did(t, action).trace) == Ledger(t.trace)
  {
    LedgerMore(t.trace, action);
    assert Ledger(t.trace) + [] == Ledger(t.trace);
  }

  /** The trace is recorded, and what it has saved last is the task's state. */
  ghost predicate Writes(t: Turn) {
    Recorded(t.trace) && (Saved(t.trace).Some? ==> t.state == Saved(t.trace))
  }

  /** The saved state has these calls without results. */
  ghost predicate Awaits(t: Turn, calls: seq<Text>) {
    && Writes(t) && Saved(t.trace).Some? && Saved(t.trace).value.results <= |Saved(t.trace).value.pending|
    && Saved(t.trace).value.pending[Saved(t.trace).value.results..] == calls
  }

  lemma {:induction false} WritesMore(t: Turn, action: Action)
    requires Writes(t) && !action.Save? && !action.Execute?
    ensures Writes(Did(t, action)) && Saved(Did(t, action).trace) == Saved(t.trace)
  {
    RecordedMore(t.trace, action);
  }

  lemma {:induction false} WritesResponse(t: Turn, calls: seq<Text>, seen: seq<Text>)
    requires Writes(t)
    ensures var saved := ProviderState(calls, 0, Some(seen)); Awaits(Did(t.(state := Some(saved)), Save(saved)), calls)
  {
    var saved := ProviderState(calls, 0, Some(seen));
    RecordedMore(t.trace, Save(saved));
    assert calls[0..] == calls;
  }

  lemma {:induction false} WritesExecution(t: Turn, calls: seq<Text>)
    requires Awaits(t, calls) && calls != []
    ensures Awaits(Did(t, Execute(calls[0])), calls)
  {
    var s := Saved(t.trace).value;
    assert s.pending[s.results..][0] == s.pending[s.results];
    RecordedMore(t.trace, Execute(calls[0]));
  }

  lemma {:induction false} WritesResult(t: Turn, calls: seq<Text>)
    requires Awaits(t, calls) && calls != [] && t.trace != [] && t.trace[|t.trace| - 1].Execute? && t.state.Some?
    ensures var saved := t.state.value.(results := t.state.value.results + 1);
      Awaits(Did(t.(state := Some(saved)), Save(saved)), calls[1..])
  {
    var saved := t.state.value.(results := t.state.value.results + 1);
    RecordedMore(t.trace, Save(saved));
    assert saved.pending[saved.results..] == calls[1..];
  }

  /** Settles the open request, if there is one. */
  method SettleOpen(t: Turn, completed: bool, ghost before: seq<Text>) returns (t': Turn)
    requires Keeps(t) && Follows(before, t)
    ensures Keeps(t') && Follows(before, t') && t'.handle == None
    ensures t'.lost == t.lost && t'.state == t.state && t'.toolCount == t.toolCount
    ensures Executed(t'.trace) == Executed(t.trace)
    ensures Ledger(t'.trace) ==
            Ledger(t.trace) + match t.handle case None => [] case Some(r) => [Settle(r, completed)]
    ensures Writes(t) ==> Writes(t') && Saved(t'.trace) == Saved(t.trace)
  {
    if t.handle.None? {
      assert Ledger(t.trace) + [] == Ledger(t.trace);
      return t;
    }
    TraceMore(t.trace, Settle(t.handle.value, completed));
    LedgerMore(t.trace, Settle(t.handle.value, completed));
    if Writes(t) {
      WritesMore(t, Settle(t.handle.value, completed));
    }
    assert Executed(t.trace) + [] == Executed(t.trace);
    t' := Did(t, Settle(t.handle.value, completed)).(handle := None);
  }

  /** Saving a response's calls, none of them seen before, makes them ready. */
  lemma {:induction false} SavesCalls(before: seq<Text>, t: Turn, calls: seq<Text>, next: seq<Text>)
    requires Keeps(t) && Follows(before, t) && NoDuplicates(calls) && next == AddAll(SeenIds(t.state), calls)
    requires |next| <= MAXIMUM_SEEN && forall i :: 0 <= i < |calls| ==> calls[i] !in SeenIds(t.state)
    ensures var saved := ProviderState(calls, 0, Some(next)); var t' := Did(t.(state := Some(saved)), Save(saved));
      && Keeps(t') && Follows(before, t') && Ready(before, t', calls) && Executed(t'.trace) == Executed(t.trace)
      && SeenIds(t'.state) == next
  {
    var saved := ProviderState(calls, 0, Some(next));
    SeenIdsDistinct(t.state);
    CallsAreNew(before, Executed(t.trace), SeenIds(t.state), calls);
    SavedIdsComeBack(calls, 0, next);
    DidQuietly(before, t.(state := Some(saved)), Save(saved));
  }

  lemma {:induction false} NothingReady(before: seq<Text>, t: Turn)
    requires Follows(before, t)
    ensures Ready(before, t, [])
  {
    assert before + Executed(t.trace) + [] == before + Executed(t.trace);
  }

  /** What a response has to be for its tools to run. */
  predicate IsGood(tooling: bool, iteration: Iteration, calls: seq<Text>, finished: bool, seen: seq<Text>,
                   next: seq<Text>)
  {
    && !iteration.cancelledAfter && finished && iteration.transcriptFits
    && (tooling ==> iteration.continuationFits && |next| <= MAXIMUM_SEEN
                    && forall i :: 0 <= i < |calls| ==> calls[i] !in seen)
  }

  /** When an iteration's response reaches its commit, in a task that has seen these ids. */
  predicate Passes(tooling: bool, iteration: Iteration, seen: seq<Text>) {
    var calls := CallIds(iteration.items);
    && iteration.slot && AreItems(tooling, iteration.items) && !iteration.breaks
    && IsGood(tooling, iteration, calls, HasDone(iteration.items), seen, AddAll(seen, calls))
  }

  /** And when that commit is rolled back with its settlement. */
  predicate Loses(tooling: bool, iteration: Iteration, seen: seq<Text>) {
    Passes(tooling, iteration, seen) && iteration.commitment.RolledBack?
  }

  /** And when it is committed and has no calls, which completes the turn. */
  predicate Completes(tooling: bool, iteration: Iteration, seen: seq<Text>) {
    Passes(tooling, iteration, seen) && iteration.commitment.Commits? && CallIds(iteration.items) == []
  }

  predicate ToolRuns(outcome: ToolOutcome) {
    !outcome.cancelledBefore && !outcome.fails && !outcome.unknown
  }

  /** When all of a response's tools run, after `count` of them in the turn. */
  predicate ToolsRun(iteration: Iteration, calls: nat, count: nat) {
    count + calls <= MAXIMUM_TOOLS && forall i :: 0 <= i < calls ==> ToolRuns(iteration.tools(i))
  }

  /** How many of a response's calls are executed, if those before `i` run: up to the first tool that does not run, and that
      one too unless the turn is cancelled before it or over its limit. */
  function ExecutedOf(iteration: Iteration, calls: nat, count: nat, i: nat): (n: nat)
    requires i <= calls
    ensures i <= n <= calls
    decreases calls - i
  {
    if i == calls then i
    else if iteration.tools(i).cancelledBefore || count + i + 1 > MAXIMUM_TOOLS then i
    else if ToolRuns(iteration.tools(i)) then ExecutedOf(iteration, calls, count, i + 1)
    else i + 1
  }

  /** Those before the last one executed all run; the last one does not when calls are left over, unless the turn stops before
      the next. */
  lemma {:induction false} ExecutedRun(iteration: Iteration, calls: nat, count: nat, i: nat)
    requires i <= calls
    ensures var n := ExecutedOf(iteration, calls, count, i);
      && (forall k :: i <= k < n - 1 ==> ToolRuns(iteration.tools(k)))
      && (forall k :: i <= k < n ==> !iteration.tools(k).cancelledBefore && count + k + 1 <= 50)
      && (n < calls ==>
            iteration.tools(n).cancelledBefore || count + n + 1 > 50 || (n > i && !ToolRuns(iteration.tools(n - 1))))
    decreases calls - i
  {
    if i < calls && !iteration.tools(i).cancelledBefore && count + i + 1 <= 50 && ToolRuns(iteration.tools(i)) {
      ExecutedRun(iteration, calls, count, i + 1);
      assert ExecutedOf(iteration, calls, count, i) == ExecutedOf(iteration, calls, count, i + 1);
    }
  }

  /** How many of an iteration's calls are executed: none without a commit. */
  function ExecutedIn(tooling: bool, iteration: Iteration, seen: seq<Text>, count: nat): (n: nat)
    ensures n <= |CallIds(iteration.items)|
  {
    if Passes(tooling, iteration, seen) && iteration.commitment.Commits? then
      ExecutedOf(iteration, |CallIds(iteration.items)|, count, 0)
    else 0
  }

  /** When the turn goes on after an iteration: its response is committed with calls, its tools all run, and the next
      request is admitted. */
  predicate GoesOn(tooling: bool, iteration: Iteration, seen: seq<Text>, count: nat) {
    && Passes(tooling, iteration, seen) && iteration.commitment.Commits? && CallIds(iteration.items) != []
    && ToolsRun(iteration, |CallIds(iteration.items)|, count) && !iteration.cancelledLast && iteration.admission.Some?
  }

  /** What comes of an iteration: the turn goes on, completes, loses its reservation, stops after its response is committed,
      or fails before that. */
  datatype Fate = Continued | Completed | Lost | Stopped | Failed

  /** The fate of an iteration whose turn has run `count` tools, in a task that has seen these ids. */
  function FateOf(tooling: bool, iteration: Iteration, seen: seq<Text>, count: nat): Fate {
    if Loses(tooling, iteration, seen) then Lost
    else if Completes(tooling, iteration, seen) then Completed
    else if GoesOn(tooling, iteration, seen, count) then Continued
    else if Passes(tooling, iteration, seen) && iteration.commitment.Commits? then Stopped
    else Failed
  }

  /** The stream is read to its completion: every item is expected, at most sixteen calls have distinct non-empty ids, and
      the text stays within its limit. */
  ghost predicate IsReadWell(tooling: bool, iteration: Iteration) {
    iteration.slot && !iteration.breaks && AreItems(tooling, iteration.items) && iteration.items != []
    && iteration.items[|iteration.items| - 1].0.Done?
  }

  /** The response keeps the limits, and none of its calls has an id seen before. */
  predicate KeepsLimits(tooling: bool, iteration: Iteration, seen: seq<Text>) {
    && !iteration.cancelledAfter && iteration.transcriptFits
    && (tooling ==>
          && iteration.continuationFits && |AddAll(seen, CallIds(iteration.items))| <= 1000
          && forall id :: id in CallIds(iteration.items) ==> id !in seen)
  }

  /** Each tool of the response runs, with no more than fifty in the turn. */
  predicate RunsTools(iteration: Iteration, count: nat) {
    && count + |CallIds(iteration.items)| <= 50
    && forall i :: 0 <= i < |CallIds(iteration.items)| ==>
         var tool := iteration.tools(i); !tool.cancelledBefore && !tool.fails && !tool.unknown
  }

  lemma {:induction false} PassesExactly(tooling: bool, iteration: Iteration, seen: seq<Text>)
    ensures Passes(tooling, iteration, seen) <==> IsReadWell(tooling, iteration) && KeepsLimits(tooling, iteration, seen)
  {
    var calls := CallIds(iteration.items);
    if AreItems(tooling, iteration.items) {
      ItemsMean(tooling, iteration.items);
    }
    assert (forall i :: 0 <= i < |calls| ==> calls[i] !in seen) <==> forall id :: id in calls ==> id !in seen;
  }

  /** Exactly when an iteration has each fate. */
  lemma {:induction false} FatesExactly(tooling: bool, iteration: Iteration, seen: seq<Text>, count: nat)
    ensures var fate := FateOf(tooling, iteration, seen, count);
      var good := IsReadWell(tooling, iteration) && KeepsLimits(tooling, iteration, seen);
      var committed := good && iteration.commitment.Commits?;
      var continues := RunsTools(iteration, count) && !iteration.cancelledLast && iteration.admission.Some?;
      && (fate == Lost <==> good && iteration.commitment.RolledBack?)
      && (fate == Completed <==> committed && CallIds(iteration.items) == [])
      && (fate == Continued <==> committed && CallIds(iteration.items) != [] && continues)
      && (fate == Stopped <==> committed && CallIds(iteration.items) != [] && !continues)
      && (fate == Failed <==> !good || iteration.commitment.Refused?)
  {
    PassesExactly(tooling, iteration, seen);
  }

  /** The checks of a response, in the source's order. */
  method Check(tooling: bool, iteration: Iteration, calls: seq<Text>, finished: bool, seen: seq<Text>, next: seq<Text>)
    returns (failure: Option<Reason>)
    ensures failure.None? <==> IsGood(tooling, iteration, calls, finished, seen, next)
    ensures failure == Some(Cancelled) <==> iteration.cancelledAfter
    ensures failure == Some(Unfinished) <==> !iteration.cancelledAfter && !finished
    ensures failure == Some(ReusedId) ==> exists i :: 0 <= i < |calls| && calls[i] in seen
    ensures failure == Some(HistoryLimit) ==> tooling && |next| > MAXIMUM_SEEN
    ensures failure == Some(TooLong) ==> !iteration.transcriptFits
    ensures failure != Some(IterationLimit) && failure != Some(CommitLost)
  {
    if iteration.cancelledAfter { return Some(Cancelled); }
    if !finished { return Some(Unfinished); }
    if tooling {
      if !iteration.continuationFits { return Some(BadContinuation); }
      if exists i :: 0 <= i < |calls| && calls[i] in seen { return Some(ReusedId); }
      if |next| > MAXIMUM_SEEN { return Some(HistoryLimit); }
    }
    if !iteration.transcriptFits { return Some(TooLong); }
    return None;
  }

  /** The transaction: the calls' state and the settlement together. */
  method Commit(t: Turn, tooling: bool, calls: seq<Text>, next: seq<Text>, ghost before: seq<Text>) returns (t': Turn)
    requires Writes(t) && Keeps(t) && Follows(before, t) && AreCalls(tooling, calls)
    requires next == AddAll(SeenIds(t.state), calls)
    requires tooling ==> |next| <= MAXIMUM_SEEN && forall i :: 0 <= i < |calls| ==> calls[i] !in SeenIds(t.state)
    ensures Keeps(t') && Follows(before, t') && Ready(before, t', calls) && SeenIds(t'.state) == next
    ensures t'.toolCount == t.toolCount && t'.handle == None && t'.lost == t.lost
    ensures Executed(t'.trace) == Executed(t.trace)
    ensures t.handle.Some? ==>
      Ledger(t'.trace) == Ledger(t.trace) + Outcome(t.handle.value, StateOf(tooling, calls, SeenIds(t.state)), false, true)
    ensures Writes(t') && (calls != [] ==> Awaits(t', calls))
  {
    t' := t;
    if tooling {
      SavesCalls(before, t, calls, next);
      var saved := ProviderState(calls, 0, Some(next));
      LedgerMore(t.trace, Save(saved));
      WritesResponse(t, calls, next);
      t' := Did(t.(state := Some(saved)), Save(saved));
    } else {
      NothingReady(before, t);
    }
    t' := SettleOpen(t', true, before);
    if t.handle.Some? {
      var r, saves := t.handle.value, if tooling then [Save(ProviderState(calls, 0, Some(next)))] else [];
      assert Ledger(t.trace) + [] == Ledger(t.trace);
      Associate(Ledger(t.trace), saves, [Settle(r, true)]);
    }
  }

  /** How a turn that held a reservation for this iteration has it booked, once it is closed. */
  ghost predicate BookedBy(t: Turn, t': Turn, tooling: bool, iteration: Iteration, lost: bool, completed: bool) {
    Booked(t, t', iteration.slot, StateOf(tooling, CallIds(iteration.items), SeenIds(t.state)), lost, completed)
  }

  /** The provider's stream, while a slot is held. */
  method Converse(t: Turn, tooling: bool, iteration: Iteration, ghost before: seq<Text>)
    returns (t': Turn, calls: seq<Text>, finished: bool, failure: Option<Reason>)
    requires Writes(t) && Keeps(t) && Follows(before, t) && t.handle.Some? && t.lost == None
    ensures Writes(t') && Keeps(t') && Follows(before, t') && t'.toolCount == t.toolCount
    ensures t'.state == t.state && t'.lost == None && Executed(t'.trace) == Executed(t.trace)
    ensures failure != Some(IterationLimit) && failure != Some(CommitLost)
    ensures failure.None? <==> iteration.slot && AreItems(tooling, iteration.items) && !iteration.breaks
    ensures failure.None? ==>
      && calls == CallIds(iteration.items) && finished == HasDone(iteration.items) && AreCalls(tooling, calls)
      && t'.handle == t.handle && Ledger(t'.trace) == Ledger(t.trace) + [Attempt(t.handle.value)]
    ensures failure.Some? ==> BookedBy(t, t', tooling, iteration, false, false)
  {
    calls, finished := [], false;
    ghost var kept := StateOf(tooling, CallIds(iteration.items), SeenIds(t.state));
    if !iteration.slot {
      t' := SettleOpen(t, false, before);
      BookedWithout(t, t', kept);
      failure := Some(Cancelled);
      return;
    }
    DidQuietly(before, t, Attempt(t.handle.value));
    LedgerMore(t.trace, Attempt(t.handle.value));
    WritesMore(t, Attempt(t.handle.value));
    t' := Did(t, Attempt(t.handle.value));
    ghost var open := t';
    calls, finished, failure := Receive(tooling, iteration);
    if failure.Some? {
      t' := SettleOpen(t', false, before);
      BookedSettled(t, open, t', kept, false);
    }
  }

  /** One provider response: its stream, its checks, and the commit of its state with the settlement. */
  method Respond(t: Turn, tooling: bool, iteration: Iteration, ghost before: seq<Text>)
    returns (t': Turn, calls: seq<Text>, failure: Option<Reason>)
    requires Writes(t) && Keeps(t) && Follows(before, t) && t.handle.Some? && t.lost == None
    ensures Writes(t') && (failure.None? && calls != [] ==> Awaits(t', calls))
    ensures Keeps(t') && Follows(before, t') && t'.toolCount == t.toolCount && failure != Some(IterationLimit)
    ensures Executed(t'.trace) == Executed(t.trace)
    ensures failure.None? <==> Passes(tooling, iteration, SeenIds(t.state)) && iteration.commitment.Commits?
    ensures failure == Some(CommitLost) <==> Loses(tooling, iteration, SeenIds(t.state))
    ensures t'.lost == if failure == Some(CommitLost) then t.handle else None
    ensures failure.None? ==>
      t'.handle == None && Ready(before, t', calls) && calls == CallIds(iteration.items)
      && SeenIds(t'.state) == AddAll(SeenIds(t.state), calls)
    ensures BookedBy(t, t', tooling, iteration, failure == Some(CommitLost), failure.None?)
  {
    var finished;
    t', calls, finished, failure := Converse(t, tooling, iteration, before);
    if failure.Some? { return; }
    ghost var open, kept := t', StateOf(tooling, calls, SeenIds(t.state));
    BookedOpen(t, open, kept);
    var seen := SeenIds(t'.state);
    var next := AddAll(seen, calls);
    failure := Check(tooling, iteration, calls, finished, seen, next);
    if failure.Some? { return; }
    match iteration.commitment
    case Commits =>
      t' := Commit(t', tooling, calls, next, before);
      BookedSettled(t, open, t', kept, true);
    case Refused => failure := Some(CommitRefused);
    case RolledBack => t', failure := t'.(handle := None, lost := t'.handle), Some(CommitLost);
  }

  /** Executing the next of the calls that are ready. */
  lemma {:induction false} ExecutesNext(before: seq<Text>, t: Turn, calls: seq<Text>)
    requires Keeps(t) && Follows(before, t) && Ready(before, t, calls) && calls != []
    requires t.handle == None && t.lost == None && |Executed(t.trace)| < t.toolCount <= MAXIMUM_TOOLS
    ensures var t' := Did(t, Execute(calls[0])); Keeps(t') && Follows(before, t') && Ready(before, t', calls[1..])
    ensures Executed(Did(t, Execute(calls[0])).trace) == Executed(t.trace) + [calls[0]]
  {
    TraceMore(t.trace, Execute(calls[0]));
    ReadyShifts(before, Executed(t.trace), calls);
  }

  lemma {:induction false} ReadyShifts(before: seq<Text>, executed: seq<Text>, calls: seq<Text>)
    requires calls != [] && NoDuplicates(before + executed + calls)
    ensures NoDuplicates(before + (executed + [calls[0]])) && NoDuplicates(before + (executed + [calls[0]]) + calls[1..])
  {
    var all, some := before + executed + calls, before + (executed + [calls[0]]);
    assert all == some + calls[1..];
    assert forall k :: 0 <= k < |some| ==> some[k] == all[k];
  }

  /** Saving a result changes neither the ids seen nor what is ready. */
  lemma {:induction false} SavesResult(before: seq<Text>, t: Turn, calls: seq<Text>)
    requires Keeps(t) && Follows(before, t) && Ready(before, t, calls) && t.state.Some? && t.state.value.seen.Some?
    ensures var saved := t.state.value.(results := t.state.value.results + 1);
            var t' := Did(t.(state := Some(saved)), Save(saved));
      && Keeps(t') && Follows(before, t') && Ready(before, t', calls) && Executed(t'.trace) == Executed(t.trace)
      && SeenIds(t'.state) == SeenIds(t.state)
  {
    var saved := t.state.value.(results := t.state.value.results + 1);
    assert SeenIds(Some(saved)) == SeenIds(t.state);
    DidQuietly(before, t.(state := Some(saved)), Save(saved));
  }

  lemma {:induction false} UptoNext(executed: seq<Text>, calls: seq<Text>, i: nat)
    requires i < |calls|
    ensures (executed + calls[..i]) + [calls[i]] == executed + calls[..i + 1]
    ensures executed <= executed + calls[..i] <= executed + calls && executed + calls[..i + 1] <= executed + calls
    ensures calls[i..] != [] && calls[i..][0] == calls[i] && calls[i..][1..] == calls[i + 1..]
  {
  }

  /** One call of those that are ready. */
  method RunTool(t: Turn, call: Text, outcome: ToolOutcome, ghost before: seq<Text>, ghost calls: seq<Text>)
    returns (t': Turn, failure: Option<Reason>)
    requires Keeps(t) && Follows(before, t) && Ready(before, t, calls) && t.handle == None && t.lost == None
    requires calls != [] && calls[0] == call && t.toolCount <= MAXIMUM_TOOLS && Awaits(t, calls)
    ensures Writes(t') && (failure.None? ==> Awaits(t', calls[1..]))
    ensures Keeps(t') && Follows(before, t') && t'.handle == None && t'.lost == None
    ensures failure != Some(IterationLimit) && failure != Some(CommitLost)
    ensures failure.None? ==>
      && Ready(before, t', calls[1..]) && t'.toolCount == t.toolCount + 1
      && SeenIds(t'.state) == SeenIds(t.state) && Executed(t'.trace) == Executed(t.trace) + [call]
    ensures failure.None? <==> ToolRuns(outcome) && t.toolCount + 1 <= MAXIMUM_TOOLS
    ensures Executed(t'.trace) ==
            if outcome.cancelledBefore || t.toolCount + 1 > MAXIMUM_TOOLS then Executed(t.trace)
            else Executed(t.trace) + [call]
    ensures Ledger(t'.trace) == Ledger(t.trace)
  {
    t' := t;
    if outcome.cancelledBefore { return t', Some(Cancelled); }
    t' := t'.(toolCount := t'.toolCount + 1);
    if t'.toolCount > MAXIMUM_TOOLS { return t', Some(ToolLimit); }
    ExecutesNext(before, t', calls);
    DidUnbooked(t', Execute(call));
    WritesExecution(t', calls);
    t' := Did(t', Execute(call));
    if outcome.fails { return t', Some(ToolFailed); }
    SavesResult(before, t', calls[1..]);
    var saved := t'.state.value.(results := t'.state.value.results + 1);
    DidUnbooked(t'.(state := Some(saved)), Save(saved));
    WritesResult(t', calls);
    t' := Did(t'.(state := Some(saved)), Save(saved));
    return t', if outcome.unknown then Some(UnknownOutcome) else None;
  }

  /** After the first `i` calls of a response. */
  ghost predicate Ran(t: Turn, t': Turn, calls: seq<Text>, i: nat, iteration: Iteration, before: seq<Text>) {
    && i <= |calls| && Executed(t'.trace) == Executed(t.trace) + calls[..i]
    && Keeps(t') && Follows(before, t') && Ready(before, t', calls[i..]) && t'.handle == None && t'.lost == None
    && t'.toolCount == t.toolCount + i && SeenIds(t'.state) == SeenIds(t.state)
    && ToolsRun(iteration, i, t.toolCount) && Ledger(t'.trace) == Ledger(t.trace) && Awaits(t', calls[i..])
  }

  lemma {:induction false} RanNone(t: Turn, calls: seq<Text>, iteration: Iteration, before: seq<Text>)
    requires Keeps(t) && Follows(before, t) && Ready(before, t, calls) && t.handle == None && t.lost == None
    requires t.toolCount <= MAXIMUM_TOOLS && Awaits(t, calls)
    ensures Ran(t, t, calls, 0, iteration, before)
  {
    assert calls[0..] == calls && Executed(t.trace) + calls[..0] == Executed(t.trace);
  }

  lemma {:induction false} RanMore(t: Turn, t': Turn, next: Turn, calls: seq<Text>, i: nat, iteration: Iteration,
                                   before: seq<Text>)
    requires i < |calls| && Ran(t, t', calls, i, iteration, before) && ToolRuns(iteration.tools(i))
    requires Keeps(next) && Follows(before, next) && next.handle == None && next.lost == None
    requires Ready(before, next, calls[i..][1..]) && next.toolCount == t'.toolCount + 1 <= MAXIMUM_TOOLS
    requires SeenIds(next.state) == SeenIds(t'.state) && Executed(next.trace) == Executed(t'.trace) + [calls[i]]
    requires Ledger(next.trace) == Ledger(t'.trace) && Awaits(next, calls[i..][1..])
    ensures Ran(t, next, calls, i + 1, iteration, before)
  {
    UptoNext(Executed(t.trace), calls, i);
  }

  /** The calls of a response, one after another, with no reservation held. */
  method RunTools(t: Turn, calls: seq<Text>, iteration: Iteration, ghost before: seq<Text>)
    returns (t': Turn, failure: Option<Reason>)
    requires Keeps(t) && Follows(before, t) && Ready(before, t, calls) && t.handle == None && t.lost == None
    requires t.toolCount <= MAXIMUM_TOOLS && Awaits(t, calls)
    ensures Writes(t') && Keeps(t') && Follows(before, t') && t'.handle == None && t'.lost == None
    ensures failure != Some(IterationLimit) && failure != Some(CommitLost)
    ensures failure.None? <==> ToolsRun(iteration, |calls|, t.toolCount)
    ensures failure.None? ==> t'.toolCount == t.toolCount + |calls|
    ensures failure.None? ==> SeenIds(t'.state) == SeenIds(t.state)
    ensures Executed(t'.trace) == Executed(t.trace) + calls[..ExecutedOf(iteration, |calls|, t.toolCount, 0)]
    ensures failure.None? ==> ExecutedOf(iteration, |calls|, t.toolCount, 0) == |calls|
    ensures Ledger(t'.trace) == Ledger(t.trace)
  {
    t' := t;
    RanNone(t, calls, iteration, before);
    for i := 0 to |calls|
      invariant Ran(t, t', calls, i, iteration, before)
      invariant ExecutedOf(iteration, |calls|, t.toolCount, 0) == ExecutedOf(iteration, |calls|, t.toolCount, i)
    {
      UptoNext(Executed(t.trace), calls, i);
      var next;
      next, failure := RunTool(t', calls[i], iteration.tools(i), before, calls[i..]);
      if failure.Some? { return next, failure; }
      RanMore(t, t', next, calls, i, iteration, before);
      t' := next;
    }
    assert calls[..|calls|] == calls;
    return t', None;
  }

  lemma {:induction false} Admits(before: seq<Text>, t: Turn, reservation: nat)
    requires Writes(t) && Keeps(t) && Follows(before, t) && t.handle == None
    ensures var t' := Did(t, Admit(reservation)).(handle := Some(reservation));
      Keeps(t') && Follows(before, t') && Executed(t'.trace) == Executed(t.trace)
      && Ledger(t'.trace) == Ledger(t.trace) + [Admit(reservation)] && Writes(t')
  {
    WritesMore(t, Admit(reservation));
    TraceMore(t.trace, Admit(reservation));
    LedgerMore(t.trace, Admit(reservation));
    assert Executed(t.trace) + [] == Executed(t.trace);
  }

  /** The calls of the first responses, in order. */
  function CallsUpto(script: nat -> Iteration, n: nat): seq<Text> {
    if n == 0 then [] else CallsUpto(script, n - 1) + CallIds(script(n - 1).items)
  }

  lemma {:induction false} CallsUptoNext(script: nat -> Iteration, n: nat)
    ensures CallsUpto(script, n + 1) == CallsUpto(script, n) + CallIds(script(n).items)
    ensures CallsUpto(script, n) <= CallsUpto(script, n + 1)
  {
  }

  /** It is booked as completed, and the next one is held. */
  ghost predicate BookedOn(t: Turn, t': Turn, tooling: bool, iteration: Iteration) {
    && t.handle.Some? && t'.handle.Some? && t'.handle == iteration.admission
    && Ledger(t'.trace) ==
       Ledger(t.trace)
       + Entry(t.handle.value, iteration.slot, StateOf(tooling, CallIds(iteration.items), SeenIds(t.state)), false, true)
       + [Admit(t'.handle.value)]
  }

  lemma {:induction false} BooksNext(t: Turn, u: Turn, t': Turn, tooling: bool, iteration: Iteration)
    requires BookedBy(t, u, tooling, iteration, false, true) && u.handle.None? && t'.handle.Some?
    requires t'.handle == iteration.admission && Ledger(t'.trace) == Ledger(u.trace) + [Admit(t'.handle.value)]
    ensures BookedOn(t, t', tooling, iteration)
  {
  }

  /** One iteration: the response and its tools, and the next admission unless the response has no calls. */
  method Iterate(t: Turn, tooling: bool, iteration: Iteration, ghost before: seq<Text>)
    returns (t': Turn, done: bool, failure: Option<Reason>)
    requires Writes(t) && Keeps(t) && Follows(before, t) && t.toolCount <= MAXIMUM_TOOLS && t.handle.Some? && t.lost == None
    ensures Writes(t') && Keeps(t') && Follows(before, t') && failure != Some(IterationLimit)
    ensures t'.lost.Some? <==> Loses(tooling, iteration, SeenIds(t.state))
    ensures t'.lost.Some? <==> failure == Some(CommitLost)
    ensures Executed(t'.trace) ==
            Executed(t.trace) + CallIds(iteration.items)[..ExecutedIn(tooling, iteration, SeenIds(t.state), t.toolCount)]
    ensures failure.None? && done <==> Completes(tooling, iteration, SeenIds(t.state))
    ensures failure.None? && !done <==> GoesOn(tooling, iteration, SeenIds(t.state), t.toolCount)
    ensures failure.None? ==>
      && ExecutedIn(tooling, iteration, SeenIds(t.state), t.toolCount) == |CallIds(iteration.items)|
      && SeenIds(t'.state) == AddAll(SeenIds(t.state), CallIds(iteration.items))
      && t'.toolCount == t.toolCount + |CallIds(iteration.items)|
    ensures failure.None? && done ==> t'.handle == None
    ensures failure.None? && !done ==> BookedOn(t, t', tooling, iteration)
    ensures failure.Some? || done ==>
      BookedBy(t, t', tooling, iteration, failure == Some(CommitLost),
               Passes(tooling, iteration, SeenIds(t.state)) && iteration.commitment.Commits?)
  {
    var calls;
    assert Executed(t.trace) + [] == Executed(t.trace);
    t', calls, failure := Respond(t, tooling, iteration, before);
    done := |calls| == 0;
    if failure.Some? || done { return; }
    ghost var committed := t';
    t', failure := RunTools(t', calls, iteration, before);
    BookedStill(t, committed, t', iteration.slot, StateOf(tooling, calls, SeenIds(t.state)), true);
    ghost var ran := t';
    if failure.Some? { return; }
    if iteration.cancelledLast { return t', done, Some(Cancelled); }
    match iteration.admission
    case None => return t', done, Some(AdmissionFailed);
    case Some(reservation) =>
      Admits(before, t', reservation);
      t' := Did(t', Admit(reservation)).(handle := Some(reservation));
      BooksNext(t, ran, t', tooling, iteration);
  }

  /** The ids seen after the first responses. */
  function SeenUpto(before: seq<Text>, script: nat -> Iteration, n: nat): seq<Text> {
    AddAll(before, CallsUpto(script, n))
  }

  /** The fate of each iteration of a script, were those before it to go on. */
  function Fates(before: seq<Text>, tooling: bool, script: nat -> Iteration): nat -> Fate {
    (k: nat) => FateOf(tooling, script(k), SeenUpto(before, script, k), |CallsUpto(script, k)|)
  }

  /** The calls executed up to the end of iteration `last`: those of the iterations before it, and of its own as many as its
      tools allow. */
  function ExecutedUpto(before: seq<Text>, tooling: bool, script: nat -> Iteration, last: nat): seq<Text> {
    CallsUpto(script, last)
    + CallIds(script(last).items)
        [..ExecutedIn(tooling, script(last), SeenUpto(before, script, last), |CallsUpto(script, last)|)]
  }

  /** Iteration `k` begins when the turn goes on after every earlier one. */
  predicate Begins(fates: nat -> Fate, k: nat) {
    k == 0 || (Begins(fates, k - 1) && fates(k - 1) == Continued)
  }

  /** Iteration `k` is the last that begins. */
  predicate EndsAt(fates: nat -> Fate, k: nat) {
    Begins(fates, k) && fates(k) != Continued
  }

  /** Some iteration begins and meets this fate. */
  ghost predicate Meets(fates: nat -> Fate, fate: Fate) {
    exists k: nat :: Begins(fates, k) && fates(k) == fate
  }

  /** The reservation that iteration `k` begins with. */
  function ReservationOf(initial: nat, script: nat -> Iteration, k: nat): nat {
    if k == 0 then initial
    else match script(k - 1).admission case Some(reservation) => reservation case None => initial
  }

  /** How an iteration of this fate is booked: a lost reservation is not settled, a failed one is settled as not completed,
      and every other as completed, with the state of its response saved. */
  function Page(reservation: nat, slot: bool, kept: Option<ProviderState>, fate: Fate): seq<Action> {
    [Admit(reservation)] + Entry(reservation, slot, kept, fate.Lost?, !fate.Lost? && !fate.Failed?)
  }

  function PageOf(initial: nat, before: seq<Text>, tooling: bool, script: nat -> Iteration, fates: nat -> Fate)
    : nat -> seq<Action>
  {
    (k: nat) => Page(ReservationOf(initial, script, k), script(k).slot,
                     StateOf(tooling, CallIds(script(k).items), SeenUpto(before, script, k)), fates(k))
  }

  /** The first `n` pages. */
  function Pages(page: nat -> seq<Action>, n: nat): seq<Action> {
    if n == 0 then [] else Pages(page, n - 1) + page(n - 1)
  }

  /** Before iteration `n` its reservation is held, and every earlier one is booked as its iteration's fate says. */
  ghost predicate Booking(t: Turn, initial: nat, before: seq<Text>, tooling: bool, script: nat -> Iteration,
                          fates: nat -> Fate, n: nat)
  {
    && t.handle == Some(ReservationOf(initial, script, n))
    && Ledger(t.trace) ==
       Pages(PageOf(initial, before, tooling, script, fates), n) + [Admit(ReservationOf(initial, script, n))]
  }

  lemma {:induction false} BooksPage(t: Turn, t': Turn, initial: nat, before: seq<Text>, tooling: bool,
                                     script: nat -> Iteration, fates: nat -> Fate, n: nat)
    requires Booking(t, initial, before, tooling, script, fates, n) && SeenIds(t.state) == SeenUpto(before, script, n)
    requires BookedBy(t, t', tooling, script(n), fates(n).Lost?, !fates(n).Lost? && !fates(n).Failed?)
    ensures Closed(t') == Pages(PageOf(initial, before, tooling, script, fates), n + 1)
  {
    var r, fate := ReservationOf(initial, script, n), fates(n);
    var kept := StateOf(tooling, CallIds(script(n).items), SeenUpto(before, script, n));
    Associate(Pages(PageOf(initial, before, tooling, script, fates), n), [Admit(r)],
              Entry(r, script(n).slot, kept, fate.Lost?, !fate.Lost? && !fate.Failed?));
  }

  lemma {:induction false} BooksOn(t: Turn, t': Turn, initial: nat, before: seq<Text>, tooling: bool,
                                   script: nat -> Iteration, fates: nat -> Fate, n: nat)
    requires Booking(t, initial, before, tooling, script, fates, n) && fates(n).Continued?
    requires SeenIds(t.state) == SeenUpto(before, script, n) && BookedOn(t, t', tooling, script(n))
    ensures Booking(t', initial, before, tooling, script, fates, n + 1)
  {
    var r := ReservationOf(initial, script, n);
    var kept := StateOf(tooling, CallIds(script(n).items), SeenUpto(before, script, n));
    Associate(Pages(PageOf(initial, before, tooling, script, fates), n), [Admit(r)],
              Entry(r, script(n).slot, kept, false, true));
  }

  /** Before iteration `n`: it has run the tools of the responses so far, at least `n`, and holds a reservation. */
  ghost predicate Going(t: Turn, initial: nat, before: seq<Text>, tooling: bool, script: nat -> Iteration, n: nat) {
    && Writes(t) && Keeps(t) && Follows(before, t) && n <= t.toolCount <= MAXIMUM_TOOLS
    && Executed(t.trace) == CallsUpto(script, n)
    && t.handle.Some? && t.lost == None && SeenIds(t.state) == SeenUpto(before, script, n)
    && t.toolCount == |CallsUpto(script, n)| && Begins(Fates(before, tooling, script), n)
    && Booking(t, initial, before, tooling, script, Fates(before, tooling, script), n)
  }

  /** At the end of the iterations, of which `n` have begun. */
  ghost predicate Ended(t: Turn, initial: nat, before: seq<Text>, tooling: bool, script: nat -> Iteration, n: nat,
                        completed: bool)
  {
    && Writes(t) && Keeps(t) && Follows(before, t) && 0 < n <= MAXIMUM_ITERATIONS
    && Executed(t.trace) == ExecutedUpto(before, tooling, script, n - 1)
    && EndsAt(Fates(before, tooling, script), n - 1)
    && (t.lost.Some? <==> Fates(before, tooling, script)(n - 1) == Lost)
    && (completed <==> Fates(before, tooling, script)(n - 1) == Completed)
    && (completed ==> t.handle == None && Executed(t.trace) == CallsUpto(script, n))
    && Closed(t) == Pages(PageOf(initial, before, tooling, script, Fates(before, tooling, script)), n)
  }

  lemma {:induction false} WholeCalls(executed: seq<Text>, calls: seq<Text>)
    ensures executed + calls[..|calls|] == executed + calls
  {
    assert calls[..|calls|] == calls;
  }

  /** The next iteration. The last one cannot go on: each that goes on has run a tool, and the tools run out first. */
  method Next(t: Turn, tooling: bool, script: nat -> Iteration, n: nat, ghost initial: nat, ghost before: seq<Text>)
    returns (t': Turn, ends: bool, failure: Option<Reason>)
    requires Going(t, initial, before, tooling, script, n) && n < MAXIMUM_ITERATIONS
    ensures ends ==> Ended(t', initial, before, tooling, script, n + 1, failure.None?)
    ensures !ends ==> Going(t', initial, before, tooling, script, n + 1) && n + 1 < MAXIMUM_ITERATIONS
    ensures failure != Some(IterationLimit) && (failure.Some? ==> ends)
  {
    CallsUptoNext(script, n);
    AddAllTwice(before, CallsUpto(script, n), CallIds(script(n).items));
    t', ends, failure := Iterate(t, tooling, script(n), before);
    if failure.Some? { ends := true; }
    assert Executed(t'.trace) == ExecutedUpto(before, tooling, script, n);
    if failure.None? {
      WholeCalls(CallsUpto(script, n), CallIds(script(n).items));
      assert Executed(t'.trace) == CallsUpto(script, n + 1);
    }
    if ends {
      BooksPage(t, t', initial, before, tooling, script, Fates(before, tooling, script), n);
    } else {
      BooksOn(t, t', initial, before, tooling, script, Fates(before, tooling, script), n);
    }
  }

  /** The iterations, up to the failure that ends them; `n` of them have begun. */
  method RunIterations(t: Turn, tooling: bool, script: nat -> Iteration, ghost initial: nat, ghost before: seq<Text>)
    returns (t': Turn, failure: Option<Reason>, ghost n: nat)
    requires Going(t, initial, before, tooling, script, 0)
    ensures Ended(t', initial, before, tooling, script, n, failure.None?)
    ensures failure != Some(IterationLimit)
  {
    t', n := t, 0;
    var iteration := 0;
    while iteration < MAXIMUM_ITERATIONS
      invariant Going(t', initial, before, tooling, script, iteration) && iteration < MAXIMUM_ITERATIONS
    {
      var ends;
      t', ends, failure := Next(t', tooling, script, iteration, initial, before);
      iteration := iteration + 1;
      n := iteration;
      if ends { return; }
    }
    assert false;
    failure := Some(IterationLimit);
  }

  lemma {:induction false} BeginsEarlier(fates: nat -> Fate, k: nat, n: nat)
    requires k < n && Begins(fates, n)
    ensures Begins(fates, k) && fates(k) == Continued
  {
    if k < n - 1 {
      BeginsEarlier(fates, k, n - 1);
    }
  }

  /** The iterations that begin are those up to the last. */
  lemma {:induction false} BeginsUpToLast(fates: nat -> Fate, k: nat, last: nat)
    requires EndsAt(fates, last)
    ensures Begins(fates, k) <==> k <= last
  {
    if k < last {
      BeginsEarlier(fates, k, last);
    } else if k > last && Begins(fates, k) {
      BeginsEarlier(fates, last, k);
    }
  }

  /** So some iteration that begins meets a fate that ends the turn exactly when the last one does. */
  lemma {:induction false} LastDecides(fates: nat -> Fate, last: nat, fate: Fate)
    requires EndsAt(fates, last) && !fate.Continued?
    ensures Meets(fates, fate) <==> fates(last) == fate
  {
    forall k: nat | Begins(fates, k) && fates(k) == fate
      ensures k == last
    {
      BeginsUpToLast(fates, k, last);
      if k < last {
        BeginsEarlier(fates, k, last);
      }
    }
  }

  /** The end of the turn: a request still open is settled, and the terminal record is written. */
  method Close(t: Turn, failure: Option<Reason>, ghost before: seq<Text>) returns (t': Turn)
    requires Writes(t) && Keeps(t) && Follows(before, t) && (failure.None? ==> t.handle == None)
    ensures Keeps(t') && Follows(before, t') && t'.handle == None && t'.lost == t.lost
    ensures Executed(t'.trace) == Executed(t.trace)
    ensures t'.trace != [] && t'.trace[|t'.trace| - 1] == match failure case None => Complete case Some(reason) => Stop(reason)
    ensures Ledger(t'.trace) == Closed(t) && Recorded(t'.trace)
  {
    t' := t;
    if failure.Some? { t' := SettleOpen(t, false, before); }
    var last := match failure case None => Complete case Some(reason) => Stop(reason);
    DidQuietly(before, t', last);
    DidUnbooked(t', last);
    WritesMore(t', last);
    t' := Did(t', last);
  }

  /** The turn from its admitted request to its terminal record. The script alone says which iterations begin, how the last
      of them ends the turn, and whether it leaves a reservation open; the calls executed are those of the responses, in
      order. */
  method Run(initial: nat, state: Option<ProviderState>, tooling: bool, script: nat -> Iteration)
    returns (t: Turn, failure: Option<Reason>, ghost n: nat)
    ensures 0 < n <= MAXIMUM_ITERATIONS
    ensures EndsAt(Fates(SeenIds(state), tooling, script), n - 1)
    ensures Proper(t.trace) && Held(t.trace) == Open(t.lost)
    ensures t.lost.Some? <==> Fates(SeenIds(state), tooling, script)(n - 1) == Lost
    ensures failure.None? <==> Fates(SeenIds(state), tooling, script)(n - 1) == Completed
    ensures failure != Some(IterationLimit)
    ensures |Executed(t.trace)| <= MAXIMUM_TOOLS && IsPast(Past(state, t.state, Executed(t.trace)))
    ensures t.trace != [] && t.trace[|t.trace| - 1] == match failure case None => Complete case Some(reason) => Stop(reason)
    ensures Executed(t.trace) == ExecutedUpto(SeenIds(state), tooling, script, n - 1)
    ensures failure.None? ==> Executed(t.trace) == CallsUpto(script, n)
    ensures Ledger(t.trace) ==
            Pages(PageOf(initial, SeenIds(state), tooling, script, Fates(SeenIds(state), tooling, script)), n)
    ensures Recorded(t.trace)
  {
    Starts(initial, state);
    t, failure, n := RunIterations(Start(initial, state), tooling, script, initial, SeenIds(state));
    t := Close(t, failure, SeenIds(state));
  }

  /** What that says of a whole turn: each reservation but the one lost is settled as often as it is admitted, and none is
      open when a tool is executed. */
  lemma {:induction false} TurnSettlesAll(trace: seq<Action>, lost: Option<nat>, reservation: nat, i: nat)
    requires Proper(trace) && Held(trace) == Open(lost) && i < |trace|
    ensures Admissions(trace, reservation) == Settlements(trace, reservation) + if lost == Some(reservation) then 1 else 0
    ensures trace[i].Execute? ==> Admissions(trace[..i], reservation) == Settlements(trace[..i], reservation)
  {
    ProperCounts(trace, reservation);
    if trace[i].Execute? {
      ProperExecutions(trace, i, reservation);
    }
  }

  /** The reservations admitted in a trace, in order, and its settlements. */
  function Admitted(trace: seq<Action>): seq<nat> {
    if trace == [] then []
    else
      var last := trace[|trace| - 1];
      Admitted(trace[..|trace| - 1]) + if last.Admit? then [last.reservation] else []
  }

  function Settled(trace: seq<Action>): seq<Action> {
    if trace == [] then []
    else
      var last := trace[|trace| - 1];
      Settled(trace[..|trace| - 1]) + if last.Settle? then [last] else []
  }

  lemma {:induction false} BooksOf(trace: seq<Action>)
    ensures Admitted(Ledger(trace)) == Admitted(trace) && Settled(Ledger(trace)) == Settled(trace)
  {
    if trace != [] {
      var n := |trace| - 1;
      BooksOf(trace[..n]);
      BooksMore(Ledger(trace[..n]), trace[n]);
      assert Ledger(trace[..n]) + [] == Ledger(trace[..n]);
    }
  }

  lemma {:induction false} BooksMore(trace: seq<Action>, action: Action)
    ensures Admitted(trace + [action]) == Admitted(trace) + if action.Admit? then [action.reservation] else []
    ensures Settled(trace + [action]) == Settled(trace) + if action.Settle? then [action] else []
  {
    assert (trace + [action])[..|trace|] == trace;
  }

  lemma {:induction false} BooksJoin(a: seq<Action>, b: seq<Action>)
    ensures Admitted(a + b) == Admitted(a) + Admitted(b) && Settled(a + b) == Settled(a) + Settled(b)
    decreases |b|
  {
    if b == [] {
      assert a + b == a;
    } else {
      var n := |b| - 1;
      assert a + b == (a + b[..n]) + [b[n]];
      BooksJoin(a, b[..n]);
      BooksMore(a + b[..n], b[n]);
      assert b == b[..n] + [b[n]];
      BooksMore(b[..n], b[n]);
    }
  }

  /** A reservation is settled as completed when its iteration's response was committed. */
  predicate IsCommitted(fate: Fate) {
    fate.Continued? || fate.Completed? || fate.Stopped?
  }

  lemma {:induction false} BooksOfEntry(r: nat, slot: bool, kept: Option<ProviderState>, lost: bool, completed: bool)
    ensures Admitted(Entry(r, slot, kept, lost, completed)) == []
    ensures Settled(Entry(r, slot, kept, lost, completed)) == if lost then [] else [Settle(r, completed)]
  {
    var attempt := if slot then [Attempt(r)] else [];
    var saves := if completed && kept.Some? then [Save(kept.value)] else [];
    var settles := if lost then [] else [Settle(r, completed)];
    if slot { BooksMore([], Attempt(r)); }
    if completed && kept.Some? { BooksMore([], Save(kept.value)); }
    if !lost { BooksMore([], Settle(r, completed)); }
    BooksJoin(saves, settles);
    BooksJoin(attempt, saves + settles);
  }

  lemma {:induction false} BooksOfPage(r: nat, slot: bool, kept: Option<ProviderState>, fate: Fate)
    ensures Admitted(Page(r, slot, kept, fate)) == [r]
    ensures Settled(Page(r, slot, kept, fate)) == if fate.Lost? then [] else [Settle(r, IsCommitted(fate))]
  {
    BooksOfEntry(r, slot, kept, fate.Lost?, !fate.Lost? && !fate.Failed?);
    BooksMore([], Admit(r));
    BooksJoin([Admit(r)], Entry(r, slot, kept, fate.Lost?, !fate.Lost? && !fate.Failed?));
  }

  /** The reservations of the first `n` iterations. */
  function ReservationsUpto(initial: nat, script: nat -> Iteration, n: nat): seq<nat> {
    if n == 0 then [] else ReservationsUpto(initial, script, n - 1) + [ReservationOf(initial, script, n - 1)]
  }

  /** One settlement for each of the first `n` iterations, as completed exactly when its response was committed. */
  function SettlementsUpto(initial: nat, script: nat -> Iteration, fates: nat -> Fate, n: nat): seq<Action> {
    if n == 0 then []
    else
      SettlementsUpto(initial, script, fates, n - 1)
      + [Settle(ReservationOf(initial, script, n - 1), IsCommitted(fates(n - 1)))]
  }

  lemma {:induction false} SettlementsAre(initial: nat, script: nat -> Iteration, fates: nat -> Fate, n: nat)
    ensures |ReservationsUpto(initial, script, n)| == |SettlementsUpto(initial, script, fates, n)| == n
    ensures forall k :: 0 <= k < n ==> ReservationsUpto(initial, script, n)[k] == ReservationOf(initial, script, k)
    ensures forall k :: 0 <= k < n ==>
      SettlementsUpto(initial, script, fates, n)[k] == Settle(ReservationOf(initial, script, k), IsCommitted(fates(k)))
  {
    if n > 0 {
      SettlementsAre(initial, script, fates, n - 1);
    }
  }

  lemma {:induction false} BooksOfPages(page: nat -> seq<Action>, initial: nat, script: nat -> Iteration, fates: nat -> Fate,
                                        n: nat)
    requires forall k :: 0 <= k < n ==>
      && Admitted(page(k)) == [ReservationOf(initial, script, k)]
      && Settled(page(k)) == [Settle(ReservationOf(initial, script, k), IsCommitted(fates(k)))]
    ensures Admitted(Pages(page, n)) == ReservationsUpto(initial, script, n)
    ensures Settled(Pages(page, n)) == SettlementsUpto(initial, script, fates, n)
  {
    if n > 0 {
      BooksOfPages(page, initial, script, fates, n - 1);
      BooksJoin(Pages(page, n - 1), page(n - 1));
    }
  }

  lemma {:induction false} BooksOfLast(page: nat -> seq<Action>, initial: nat, script: nat -> Iteration, fates: nat -> Fate,
                                       last: nat)
    requires forall k :: 0 <= k < last ==>
      && Admitted(page(k)) == [ReservationOf(initial, script, k)]
      && Settled(page(k)) == [Settle(ReservationOf(initial, script, k), IsCommitted(fates(k)))]
    requires Admitted(page(last)) == [ReservationOf(initial, script, last)]
    requires Settled(page(last)) ==
             if fates(last).Lost? then [] else [Settle(ReservationOf(initial, script, last), IsCommitted(fates(last)))]
    ensures Admitted(Pages(page, last + 1)) == ReservationsUpto(initial, script, last + 1)
    ensures Settled(Pages(page, last + 1)) ==
            SettlementsUpto(initial, script, fates, if fates(last).Lost? then last else last + 1)
  {
    var pages := Pages(page, last);
    BooksOfPages(page, initial, script, fates, last);
    BooksJoin(pages, page(last));
    assert Pages(page, last + 1) == pages + page(last);
    assert Settled(pages) + [] == Settled(pages);
  }

  lemma {:induction false} BooksOfPageOf(initial: nat, before: seq<Text>, tooling: bool, script: nat -> Iteration,
                                         fates: nat -> Fate, k: nat)
    ensures var page := PageOf(initial, before, tooling, script, fates)(k);
      var r := ReservationOf(initial, script, k);
      Admitted(page) == [r] && Settled(page) == if fates(k).Lost? then [] else [Settle(r, IsCommitted(fates(k)))]
  {
    BooksOfPage(ReservationOf(initial, script, k), script(k).slot,
                StateOf(tooling, CallIds(script(k).items), SeenUpto(before, script, k)), fates(k));
  }

  /** What the ledger says of a whole turn, for the fates of its iterations: one reservation is admitted for each iteration
      that begins, and the one of iteration `k` is settled as completed exactly when that iteration's response was
      committed. Only the last can be lost, and only a lost one is not settled. */
  lemma {:induction false} SettledByFate(trace: seq<Action>, initial: nat, before: seq<Text>, tooling: bool,
                                         script: nat -> Iteration, fates: nat -> Fate, last: nat)
    requires EndsAt(fates, last) && Ledger(trace) == Pages(PageOf(initial, before, tooling, script, fates), last + 1)
    ensures Admitted(trace) == ReservationsUpto(initial, script, last + 1)
    ensures Settled(trace) == SettlementsUpto(initial, script, fates, if fates(last).Lost? then last else last + 1)
  {
    var page := PageOf(initial, before, tooling, script, fates);
    forall k: nat | k <= last
      ensures Admitted(page(k)) == [ReservationOf(initial, script, k)]
      ensures Settled(page(k)) ==
              if fates(k).Lost? then [] else [Settle(ReservationOf(initial, script, k), IsCommitted(fates(k)))]
      ensures k < last ==> !fates(k).Lost?
    {
      BooksOfPageOf(initial, before, tooling, script, fates, k);
      if k < last {
        BeginsEarlier(fates, k, last);
      }
    }
    BooksOfLast(page, initial, script, fates, last);
    BooksOf(trace);
  }

  /** A committed response stays settled as completed when its first tool then fails and the turn with it. */
  lemma {:induction false} FailedToolStaysCompleted(before: seq<Text>, script: nat -> Iteration, id: Text)
    requires script(0).slot && script(0).items == [(ToolCall(id), false), (Done, false)] && !script(0).breaks
    requires !script(0).cancelledAfter && script(0).transcriptFits && script(0).continuationFits
    requires script(0).commitment.Commits? && script(0).tools(0).fails
    requires id != [] && id !in before && |before| < MAXIMUM_SEEN
    ensures Fates(before, true, script)(0) == Stopped
  {
    var items := script(0).items;
    assert items[..1] == [items[0]] && items[..1][..0] == [];
    assert AreItems(true, []) && AreItems(true, items[..1]) && AreItems(true, items);
    assert CallIds(items[..1]) == [id] && CallIds(items) == [id];
    assert AddAll(before, [id]) == AddAll(before + [id], []) == before + [id];
    assert CallsUpto(script, 0) == [] && SeenUpto(before, script, 0) == before;
    assert !ToolRuns(script(0).tools(0));
  }

  /** A first response whose commit is rolled back loses its reservation. */
  lemma {:induction false} RolledBackCommitLoses(before: seq<Text>, script: nat -> Iteration)
    requires script(0).slot && script(0).items == [(Done, false)] && !script(0).breaks
    requires !script(0).cancelledAfter && script(0).transcriptFits && script(0).commitment.RolledBack?
    ensures Meets(Fates(before, false, script), Lost)
  {
    assert script(0).items[..0] == [];
    assert AreItems(false, script(0).items[..0]);
    assert script(0).items[0].0.Done?;
    assert Begins(Fates(before, false, script), 0) && Fates(before, false, script)(0) == Lost;
  }

  // ----- The whole history of a task

  /** What a turn leaves of its task's provider state, and the ids it executed. */
  datatype Past = Past(before: Option<ProviderState>, after: Option<ProviderState>, executed: seq<Text>)

  ghost predicate IsPast(p: Past) {
    IsNew(SeenIds(p.before), p.executed, SeenIds(p.after)) && StaysBounded(SeenIds(p.before), SeenIds(p.after))
  }

  /** Turns of one task, each beginning with the state the last one left. */
  ghost predicate IsHistory(history: seq<Past>) {
    && (forall i :: 0 <= i < |history| ==> IsPast(history[i]))
    && (forall i :: 0 < i < |history| ==> history[i].before == history[i - 1].after)
  }

  function AllExecuted(history: seq<Past>): seq<Text> {
    if history == [] then [] else AllExecuted(history[..|history| - 1]) + history[|history| - 1].executed
  }

  /** No call id is executed twice in the whole history of a task. */
  lemma {:induction false} HistoryNeverRepeats(history: seq<Past>)
    requires IsHistory(history)
    ensures NoDuplicates(AllExecuted(history))
    ensures history != [] ==>
      forall id :: id in AllExecuted(history) ==> id in SeenIds(history[|history| - 1].after)
  {
    if history != [] {
      var n := |history| - 1;
      var front, last := history[..n], history[n];
      HistoryNeverRepeats(front);
      if front != [] {
        assert front[n - 1] == history[n - 1];
        assert last.before == front[n - 1].after;
      }
      JoinNew(AllExecuted(front), last);
    }
  }

  lemma {:induction false} IndexOf(s: seq<Text>, x: Text) returns (k: nat)
    requires x in s
    ensures k < |s| && s[k] == x
  {
    k :| 0 <= k < |s| && s[k] == x;
  }

  lemma {:induction false} JoinNew(earlier: seq<Text>, last: Past)
    requires IsPast(last) && NoDuplicates(earlier)
    requires forall id :: id in earlier ==> id in SeenIds(last.before)
    ensures NoDuplicates(earlier + last.executed)
    ensures forall id :: id in earlier + last.executed ==> id in SeenIds(last.after)
  {
    var before, all := SeenIds(last.before), earlier + last.executed;
    var both := before + last.executed;
    forall i, j | 0 <= i < j < |all|
      ensures all[i] != all[j]
    {
      if j >= |earlier| {
        assert both[|before| + j - |earlier|] == all[j];
        if i < |earlier| {
          var k := IndexOf(before, earlier[i]);
          assert both[k] == all[i];
        } else {
          assert both[|before| + i - |earlier|] == all[i];
        }
      }
    }
  }

  lemma {:induction false} HistoryStaysBounded(history: seq<Past>)
    requires IsHistory(history) && history != [] && |SeenIds(history[0].before)| <= MAXIMUM_SEEN
    ensures |SeenIds(history[|history| - 1].after)| <= MAXIMUM_SEEN
  {
    var n := |history| - 1;
    if n > 0 {
      assert history[..n][n - 1] == history[n - 1];
      HistoryStaysBounded(history[..n]);
      assert IsPast(history[n]) && history[n].before == history[n - 1].after;
    }
  }

  /** And a task that begins within its limit of seen ids executes at most so many in all its turns. */
  lemma {:induction false} HistoryIsBounded(history: seq<Past>)
    requires IsHistory(history) && history != [] && |SeenIds(history[0].before)| <= MAXIMUM_SEEN
    ensures |AllExecuted(history)| <= MAXIMUM_SEEN
  {
    HistoryNeverRepeats(history);
    HistoryStaysBounded(history);
    FewerThanSeen(AllExecuted(history), SeenIds(history[|history| - 1].after));
  }

  lemma {:induction false} FewerThanSeen(s: seq<Text>, seen: seq<Text>)
    requires NoDuplicates(s) && forall id :: id in s ==> id in seen
    ensures |s| <= |seen|
  {
    if s != [] {
      var n := |s| - 1;
      var id := s[n];
      var k := IndexOf(seen, id);
      var rest := seen[..k] + seen[k + 1..];
      forall x | x in s[..n]
        ensures x in rest
      {
        var i := IndexOf(s[..n], x);
        assert s[i] in s && s[i] != s[n];
        var j := IndexOf(seen, x);
        assert rest[if j < k then j else j - 1] == x;
      }
      FewerThanSeen(s[..n], rest);
    }
  }
}
