/**
 What becomes of each call of the runtime's owner loop. The owner takes what was inserted in the order of insertion, and
 every admitted call, of Invoke or of Post, inserts its one item: so it runs once, and before the loop drains.
 */
module RuntimeOrder {
  import opened Wrappers
  import opened RuntimeLoop

  /** The item of a call of Invoke or Post. */
  function ItemFor(invoke: bool, call: Call): Item {
    if invoke then Handler(call) else Posted(call)
  }

  // ----- The order of turns

  /** The item that an event says was taken off the queue. */
  function ItemOf(e: Event): seq<Item> {
    match e
    case Ran(item) => [item]
    case Dropped(work) => [Continuation(work)]
    case Rejected(call) => [Handler(call)]
    case _ => []
  }

  /** The items taken, in the order of the trace. */
  function Taken(trace: seq<Event>): seq<Item> {
    if trace == [] then [] else Taken(trace[..|trace| - 1]) + ItemOf(trace[|trace| - 1])
  }

  /** Items without the close marker. */
  function Unmarked(items: seq<Item>): seq<Item> {
    if items == [] then []
    else
      var last := items[|items| - 1];
      Unmarked(items[..|items| - 1]) + if last.Close? then [] else [last]
  }

  /** What has been taken is what was inserted first, in that order. */
  ghost predicate OrderInv(s: State) {
    |s.f.queue| <= |s.log| && Taken(s.trace) == Unmarked(s.log[..|s.log| - |s.f.queue|])
  }

  lemma {:induction false} TakenMore(trace: seq<Event>, e: Event)
    ensures Taken(trace + [e]) == Taken(trace) + ItemOf(e)
  {
    assert (trace + [e])[..|trace|] == trace;
  }

  lemma {:induction false} TakenSame(trace: seq<Event>, e: Event)
    requires ItemOf(e) == []
    ensures Taken(trace + [e]) == Taken(trace)
  {
    TakenMore(trace, e);
    assert Taken(trace) + [] == Taken(trace);
  }

  lemma {:induction false} CompletionTakesNothing(trace: seq<Event>, f: Fields)
    ensures Taken(trace + CompletionEvents(f)) == Taken(trace)
  {
    assert trace + [] == trace;
    if IsDrained(f) {
      TakenSame(trace, Drained);
      if f.finalizer.Some? {
        var cleaned := trace + [CleanedUp(f.finalizer.value)];
        TakenSame(trace, CleanedUp(f.finalizer.value));
        TakenSame(cleaned, Drained);
        assert cleaned + [Drained] == trace + CompletionEvents(f);
      } else {
        assert trace + CompletionEvents(f) == trace + [Drained];
      }
    }
  }

  lemma {:induction false} UnmarkedMore(items: seq<Item>, item: Item)
    ensures Unmarked(items + [item]) == Unmarked(items) + if item.Close? then [] else [item]
  {
    assert (items + [item])[..|items|] == items;
  }

  /** Taking the head of the queue. */
  lemma {:induction false} HeadIsNext(log: seq<Item>, queue: seq<Item>)
    requires |queue| <= |log| && queue == log[|log| - |queue|..] && queue != []
    ensures Unmarked(log[..|log| - |queue[1..]|])
         == Unmarked(log[..|log| - |queue|]) + if queue[0].Close? then [] else [queue[0]]
  {
    var start := |log| - |queue|;
    assert log[..start + 1] == log[..start] + [queue[0]];
    UnmarkedMore(log[..start], queue[0]);
  }

  lemma {:induction false} PushKeepsOrder(s: State, item: Item, log: seq<Item>, queue: seq<Item>)
    requires OrderInv(s) && log == s.log + [item] && queue == s.f.queue + [item]
    ensures Taken(s.trace) == Unmarked(log[..|log| - |queue|])
  {
    assert log[..|log| - |queue|] == s.log[..|s.log| - |s.f.queue|];
  }

  lemma {:induction false} AdvanceKeepsOrder(s: State, call: Call)
    requires Inv(s) && OrderInv(s) && Enabled(s, Advance(call))
    ensures OrderInv(Do(s, Advance(call)))
  {
    var t := Do(s, Advance(call));
    AdvancePushes(s, call);
    if s.pcs[call].Admitted? || s.pcs[call].MustInsertClose? {
      PushKeepsOrder(s, t.log[|s.log|], t.log, t.f.queue);
    }
  }

  /** A step of a call inserts its own item, or the marker, or nothing. */
  lemma {:induction false} AdvancePushes(s: State, call: Call)
    requires Inv(s) && Enabled(s, Advance(call))
    ensures var t := Do(s, Advance(call));
      && t.trace == s.trace
      && if s.pcs[call].Admitted? || s.pcs[call].MustInsertClose? then
           var item := if s.pcs[call].Admitted? then ItemFor(s.pcs[call].invoke, call) else Close;
           t.log == s.log + [item] && t.f.queue == s.f.queue + [item]
         else t.log == s.log && t.f.queue == s.f.queue
  {
    if s.pcs[call].Admitted? || s.pcs[call].MustInsertClose? {
      InserterFindsLoopOpen(s, call);
    }
  }

  lemma {:induction false} BegunTakesHead(s: State, extra: set<Work>, observed: set<Work>, work: Work)
    requires s.f.queue != []
    ensures Taken(Begun(s, extra, observed).trace) == Taken(s.trace) + [s.f.queue[0]]
    ensures Taken(Complete(Ended(Begun(s, extra, observed), work)).trace) == Taken(s.trace) + [s.f.queue[0]]
  {
    TakenMore(s.trace, Ran(s.f.queue[0]));
    FinishTakesNothing(Begun(s, extra, observed), work);
  }

  lemma {:induction false} CloseTakesNothing(s: State)
    requires s.f.queue != []
    ensures Taken(Complete(s.(f := s.f.(queue := s.f.queue[1..], closing := true))).trace) == Taken(s.trace) + []
  {
    CompletionTakesNothing(s.trace, s.f.(queue := s.f.queue[1..], closing := true));
  }

  /** A turn takes the head off the queue and says so, unless it is the marker. */
  ghost predicate TakesHead(s: State, t: State)
    requires s.f.queue != []
  {
    && t.log == s.log && t.f.queue == s.f.queue[1..]
    && Taken(t.trace) == Taken(s.trace) + if s.f.queue[0].Close? then [] else [s.f.queue[0]]
  }

  lemma {:induction false} WorkTakesHead(s: State, extra: set<Work>, observed: set<Work>, work: Work)
    requires s.f.queue != [] && !s.f.queue[0].Close?
    ensures TakesHead(s, Begun(s, extra, observed)) && TakesHead(s, Complete(Ended(Begun(s, extra, observed), work)))
  {
    BegunTakesHead(s, extra, observed, work);
  }

  lemma {:induction false} EventTakesHead(s: State, e: Event)
    requires s.f.queue != [] && !s.f.queue[0].Close? && ItemOf(e) == [s.f.queue[0]]
    ensures TakesHead(s, s.(f := s.f.(queue := s.f.queue[1..]), trace := s.trace + [e]))
  {
    TakenMore(s.trace, e);
  }

  lemma {:induction false} HandlerTakesHead(s: State, call: Call, observed: set<Work>, finishes: bool)
    requires s.f.queue != [] && s.f.queue[0] == Handler(call)
    ensures TakesHead(s, Turned(s, observed, finishes))
  {
    EventTakesHead(s, Rejected(call));
    WorkTakesHead(s, {Handled(call)}, observed, Handled(call));
  }

  lemma {:induction false} ContinuationTakesHead(s: State, work: Work, observed: set<Work>, finishes: bool)
    requires s.f.queue != [] && s.f.queue[0] == Continuation(work)
    ensures TakesHead(s, Turned(s, observed, finishes))
  {
    EventTakesHead(s, Dropped(work));
    WorkTakesHead(s, {}, observed, work);
  }

  lemma {:induction false} TurnTakesHead(s: State, observed: set<Work>, finishes: bool)
    requires s.f.queue != []
    ensures TakesHead(s, Turned(s, observed, finishes))
  {
    match s.f.queue[0]
    case Close => CloseTakesNothing(s);
    case Handler(call) => HandlerTakesHead(s, call, observed, finishes);
    case Posted(_) => WorkTakesHead(s, {}, observed, Task(0));
    case Continuation(work) => ContinuationTakesHead(s, work, observed, finishes);
  }

  lemma {:induction false} FinishTakesNothing(begun: State, work: Work)
    ensures Taken(Complete(Ended(begun, work)).trace) == Taken(begun.trace)
  {
    TakenSame(begun.trace, Finished(work));
    CompletionTakesNothing(Ended(begun, work).trace, Ended(begun, work).f);
  }

  lemma {:induction false} PostKeepsOrder(s: State, work: Work)
    requires OrderInv(s)
    ensures OrderInv(Do(s, PostContinuation(work)))
  {
    if !s.f.completed {
      PushKeepsOrder(s, Continuation(work), s.log + [Continuation(work)], s.f.queue + [Continuation(work)]);
    }
  }

  lemma {:induction false} HeadKeepsOrder(s: State, t: State)
    requires LogInv(s.log, s.f.queue, s.f.closing) && OrderInv(s) && s.f.queue != [] && TakesHead(s, t)
    ensures OrderInv(t)
  {
    HeadIsNext(s.log, s.f.queue);
  }

  lemma {:induction false} TurnKeepsOrder(s: State, observed: set<Work>, finishes: bool)
    requires Inv(s) && OrderInv(s) && Enabled(s, Turn(observed, finishes))
    ensures OrderInv(Turned(s, observed, finishes))
  {
    TurnTakesHead(s, observed, finishes);
    HeadKeepsOrder(s, Turned(s, observed, finishes));
  }

  lemma {:induction false} StepKeepsOrder(s: State, step: Step)
    requires Inv(s) && OrderInv(s) && Enabled(s, step)
    ensures OrderInv(Do(s, step))
  {
    match step
    case Begin(_, _) =>
    case Advance(call) => AdvanceKeepsOrder(s, call);
    case PostContinuation(work) => PostKeepsOrder(s, work);
    case Turn(observed, finishes) => TurnKeepsOrder(s, observed, finishes);
  }

  /** In every run the owner takes the items in the order in which they were inserted. */
  lemma {:induction false} TurnsFollowInsertions(states: seq<State>, steps: seq<Step>, n: nat)
    requires IsRun(states, steps) && n < |states|
    ensures OrderInv(states[n])
  {
    if n > 0 {
      TurnsFollowInsertions(states, steps, n - 1);
      RunsKeepInv(states, steps, n - 1);
      StepKeepsOrder(states[n - 1], steps[n - 1]);
    }
  }

  // ----- What each call inserts

  /** How each call began. */
  function Starts(steps: seq<Step>): map<Call, Pc> {
    if steps == [] then map[]
    else
      var before := Starts(steps[..|steps| - 1]);
      match steps[|steps| - 1]
      case Begin(call, pc) => before[call := pc]
      case _ => before
  }

  /** Where a call may be that began so. */
  predicate Comes(start: Pc, pc: Pc) {
    match start
    case Ready(invoke) =>
      (match pc
       case Ready(i) => i == invoke
       case Seen(i, _) => i == invoke
       case Admitted(i) => i == invoke
       case Inserted => true
       case Refused => true
       case Overflow => true
       case MustClose => true
       case MustInsertClose => true
       case Returned => true
       case _ => false)
    case DrainReady(cleanup) =>
      (match pc
       case DrainReady(c) => c == cleanup
       case DrainWon(c) => c == cleanup
       case DrainStored => true
       case MustClose => true
       case MustInsertClose => true
       case Returned => true
       case _ => false)
    case _ => false
  }

  /** A call of Invoke or Post that has not been admitted, or has not inserted its item yet. */
  predicate Before(pc: Pc) {
    pc.Ready? || pc.Seen? || pc.Admitted? || pc.Refused? || pc.Overflow?
  }

  /** What a call has inserted. */
  function Due(start: Pc, pc: Pc, call: Call): seq<Item> {
    if start.Ready? && !Before(pc) then [ItemFor(start.invoke, call)] else []
  }

  /** The items of a call among others. */
  function ItemsOf(items: seq<Item>, call: Call): seq<Item> {
    if items == [] then []
    else
      var last := items[|items| - 1];
      ItemsOf(items[..|items| - 1], call) + if last == Handler(call) || last == Posted(call) then [last] else []
  }

  /** Every call is where it may be and has inserted what is due; the drain that was accepted began with its cleanup, and
      whoever was refused, or has tried to drain, came after it or is it. */
  ghost predicate CallInv(s: State, starts: map<Call, Pc>) {
    && s.pcs.Keys == starts.Keys
    && (forall c :: c in starts ==> Comes(starts[c], s.pcs[c]) && ItemsOf(s.log, c) == Due(starts[c], s.pcs[c], c))
    && (forall c :: c !in starts ==> ItemsOf(s.log, c) == [])
    && (s.accepted.Some? ==> s.accepted.value.call in starts
                             && starts[s.accepted.value.call] == DrainReady(s.accepted.value.cleanup))
    && (forall c :: c in starts && (s.pcs[c].Refused? || (starts[c].DrainReady? && !s.pcs[c].DrainReady?)) ==>
          s.accepted.Some?)
  }

  lemma {:induction false} ItemsMore(items: seq<Item>, item: Item, call: Call)
    ensures ItemsOf(items + [item], call)
         == ItemsOf(items, call) + if item == Handler(call) || item == Posted(call) then [item] else []
  {
    assert (items + [item])[..|items|] == items;
  }

  lemma {:induction false} OthersKeepItems(items: seq<Item>, item: Item, call: Call)
    requires item != Handler(call) && item != Posted(call)
    ensures ItemsOf(items + [item], call) == ItemsOf(items, call)
  {
    ItemsMore(items, item, call);
    assert ItemsOf(items, call) + [] == ItemsOf(items, call);
  }

  /** A step of a call moves it alone; it inserts once it has been admitted. */
  lemma {:induction false} AdvanceMovesOn(s: State, call: Call, start: Pc)
    requires Enabled(s, Advance(call)) && Comes(start, s.pcs[call])
    ensures var t := Do(s, Advance(call));
      && call in t.pcs && t.pcs == s.pcs[call := t.pcs[call]] && Comes(start, t.pcs[call])
      && (Before(t.pcs[call]) <==> Before(s.pcs[call]) && !s.pcs[call].Admitted?)
  {
  }

  /** What the log holds of a call after another's step, or its own. */
  lemma {:induction false} AdvanceLogs(s: State, call: Call, c: Call)
    requires Inv(s) && Enabled(s, Advance(call))
    ensures ItemsOf(Do(s, Advance(call)).log, c)
         == ItemsOf(s.log, c) + if c == call && s.pcs[call].Admitted? then [ItemFor(s.pcs[call].invoke, call)] else []
  {
    AdvancePushes(s, call);
    assert ItemsOf(s.log, c) + [] == ItemsOf(s.log, c);
    if s.pcs[call].Admitted? {
      ItemsMore(s.log, ItemFor(s.pcs[call].invoke, call), c);
    } else if s.pcs[call].MustInsertClose? {
      OthersKeepItems(s.log, Close, c);
    }
  }

  lemma {:induction false} DueMore(start: Pc, pc: Pc, next: Pc, call: Call)
    requires Comes(start, pc) && Comes(start, next) && (Before(next) <==> Before(pc) && !pc.Admitted?)
    ensures Due(start, next, call) == Due(start, pc, call) + if pc.Admitted? then [ItemFor(pc.invoke, call)] else []
  {
  }

  lemma {:induction false} AdvanceKeepsItems(s: State, call: Call, starts: map<Call, Pc>, c: Call)
    requires Inv(s) && CallInv(s, starts) && Enabled(s, Advance(call))
    ensures var t := Do(s, Advance(call));
      if c in starts then c in t.pcs && Comes(starts[c], t.pcs[c]) && ItemsOf(t.log, c) == Due(starts[c], t.pcs[c], c)
      else ItemsOf(t.log, c) == []
  {
    AdvanceMovesOn(s, call, starts[call]);
    AdvanceLogs(s, call, c);
    if c == call {
      DueMore(starts[c], s.pcs[c], Do(s, Advance(call)).pcs[c], c);
    }
  }

  lemma {:induction false} AdvanceKeepsDrain(s: State, call: Call, starts: map<Call, Pc>)
    requires Inv(s) && CallInv(s, starts) && Enabled(s, Advance(call))
    ensures var t := Do(s, Advance(call));
      && (s.accepted.Some? ==> t.accepted == s.accepted)
      && (t.accepted.Some? ==> t.accepted.value.call in starts
                               && starts[t.accepted.value.call] == DrainReady(t.accepted.value.cleanup))
      && (t.pcs[call].Refused? || (starts[call].DrainReady? && !t.pcs[call].DrainReady?) ==> t.accepted.Some?)
  {
    AdvanceShape(s, call);
  }

  lemma {:induction false} AdvanceKeepsCalls(s: State, call: Call, starts: map<Call, Pc>)
    requires Inv(s) && CallInv(s, starts) && Enabled(s, Advance(call))
    ensures CallInv(Do(s, Advance(call)), starts)
  {
    var t := Do(s, Advance(call));
    AdvanceMovesOn(s, call, starts[call]);
    AdvanceKeepsDrain(s, call, starts);
    forall c: Call
      ensures if c in starts then c in t.pcs && Comes(starts[c], t.pcs[c]) && ItemsOf(t.log, c) == Due(starts[c], t.pcs[c], c)
              else ItemsOf(t.log, c) == []
    {
      AdvanceKeepsItems(s, call, starts, c);
    }
  }

  lemma {:induction false} TurnKeepsCalls(s: State, observed: set<Work>, finishes: bool)
    requires Enabled(s, Turn(observed, finishes))
    ensures var t := Do(s, Turn(observed, finishes)); t.pcs == s.pcs && t.log == s.log && t.accepted == s.accepted
  {
  }

  lemma {:induction false} BeginKeepsCalls(s: State, call: Call, pc: Pc, starts: map<Call, Pc>)
    requires CallInv(s, starts) && Enabled(s, Begin(call, pc))
    ensures CallInv(Do(s, Begin(call, pc)), starts[call := pc])
  {
  }

  lemma {:induction false} PostKeepsCalls(s: State, work: Work, starts: map<Call, Pc>)
    requires CallInv(s, starts)
    ensures CallInv(Do(s, PostContinuation(work)), starts)
  {
    forall c: Call
      ensures ItemsOf(s.log + [Continuation(work)], c) == ItemsOf(s.log, c)
    {
      OthersKeepItems(s.log, Continuation(work), c);
    }
  }

  lemma {:induction false} StepKeepsCalls(s: State, step: Step, starts: map<Call, Pc>)
    requires Inv(s) && CallInv(s, starts) && Enabled(s, step)
    ensures CallInv(Do(s, step), match step case Begin(call, pc) => starts[call := pc] case _ => starts)
  {
    match step
    case Begin(call, pc) => BeginKeepsCalls(s, call, pc, starts);
    case Advance(call) => AdvanceKeepsCalls(s, call, starts);
    case PostContinuation(work) => PostKeepsCalls(s, work, starts);
    case Turn(observed, finishes) => TurnKeepsCalls(s, observed, finishes);
  }

  lemma {:induction false} StartsMore(steps: seq<Step>, n: nat)
    requires 0 < n <= |steps|
    ensures Starts(steps[..n]) == match steps[n - 1]
              case Begin(call, pc) => Starts(steps[..n - 1])[call := pc]
              case _ => Starts(steps[..n - 1])
  {
    assert steps[..n][..n - 1] == steps[..n - 1];
  }

  /** In every run each call is where it may be and has inserted exactly what is due. */
  lemma {:induction false} CallsInsertTheirItems(states: seq<State>, steps: seq<Step>, n: nat)
    requires IsRun(states, steps) && n < |states|
    ensures CallInv(states[n], Starts(steps[..n]))
  {
    if n > 0 {
      CallsInsertTheirItems(states, steps, n - 1);
      RunsKeepInv(states, steps, n - 1);
      StartsMore(steps, n);
      StepKeepsCalls(states[n - 1], steps[n - 1], Starts(steps[..n - 1]));
    }
  }

  // ----- Each admitted call runs once

  /** How often something comes in a list. */
  function Times<T(==)>(s: seq<T>, x: T): nat {
    if s == [] then 0 else Times(s[..|s| - 1], x) + if s[|s| - 1] == x then 1 else 0
  }

  lemma {:induction false} TimesJoin<T>(a: seq<T>, b: seq<T>, x: T)
    ensures Times(a + b, x) == Times(a, x) + Times(b, x)
    decreases |b|
  {
    if b == [] {
      assert a + b == a;
    } else {
      var n := |b| - 1;
      assert (a + b)[..|a| + n] == a + b[..n] && (a + b)[|a| + n] == b[n];
      TimesJoin(a, b[..n], x);
    }
  }

  lemma {:induction false} TimesOne<T>(x: T, y: T)
    ensures Times([x], y) == if x == y then 1 else 0
  {
    assert [x][..0] == [];
  }

  lemma {:induction false} TimesNone<T>(s: seq<T>, x: T)
    requires x !in s
    ensures Times(s, x) == 0
  {
    if s != [] {
      TimesNone(s[..|s| - 1], x);
    }
  }

  lemma {:induction false} UnmarkedCounts(items: seq<Item>, item: Item)
    requires !item.Close?
    ensures Times(Unmarked(items), item) == Times(items, item)
  {
    if items != [] {
      var n := |items| - 1;
      UnmarkedCounts(items[..n], item);
      TimesJoin(Unmarked(items[..n]), if items[n].Close? then [] else [items[n]], item);
      TimesOne(items[n], item);
    }
  }

  /** The events that say an item was taken. */
  lemma {:induction false} TakenCounts(trace: seq<Event>, invoke: bool, call: Call)
    ensures Times(Taken(trace), ItemFor(invoke, call))
         == Times(trace, Ran(ItemFor(invoke, call))) + if invoke then Times(trace, Rejected(call)) else 0
  {
    if trace != [] {
      var n := |trace| - 1;
      TakenCounts(trace[..n], invoke, call);
      TimesJoin(Taken(trace[..n]), ItemOf(trace[n]), ItemFor(invoke, call));
      ItemOfCounts(trace[n], invoke, call);
    }
  }

  lemma {:induction false} ItemOfCounts(e: Event, invoke: bool, call: Call)
    ensures Times(ItemOf(e), ItemFor(invoke, call))
         == if e == Ran(ItemFor(invoke, call)) || (invoke && e == Rejected(call)) then 1 else 0
  {
    if ItemOf(e) != [] {
      TimesOne(ItemOf(e)[0], ItemFor(invoke, call));
    }
  }

  lemma {:induction false} ItemsCount(items: seq<Item>, invoke: bool, call: Call)
    ensures Times(items, ItemFor(invoke, call)) == Times(ItemsOf(items, call), ItemFor(invoke, call))
  {
    if items != [] {
      var n := |items| - 1;
      var own := items[n] == Handler(call) || items[n] == Posted(call);
      ItemsCount(items[..n], invoke, call);
      TimesJoin(ItemsOf(items[..n], call), if own then [items[n]] else [], ItemFor(invoke, call));
      TimesOne(items[n], ItemFor(invoke, call));
    }
  }

  /** What was inserted is in the queue or has been taken. */
  lemma {:induction false} InsertedIsQueuedOrTaken(s: State, item: Item)
    requires LogInv(s.log, s.f.queue, s.f.closing) && OrderInv(s) && !item.Close?
    ensures Times(s.log, item) == Times(s.f.queue, item) + Times(Taken(s.trace), item)
  {
    var start := |s.log| - |s.f.queue|;
    UnmarkedCounts(s.log[..start], item);
    assert s.log == s.log[..start] + s.f.queue;
    TimesJoin(s.log[..start], s.f.queue, item);
  }

  /** The turns in which a call's item ran. */
  function Runs(trace: seq<Event>, invoke: bool, call: Call): nat {
    Times(trace, Ran(ItemFor(invoke, call)))
  }

  /** A call that has been admitted: past its compare-and-swap. */
  predicate WasAdmitted(pc: Pc) {
    pc.Admitted? || !Before(pc)
  }

  /** Each call of Invoke or Post that has been admitted is at its insertion, or has its item in the queue once, or has run
      once; one that has not been admitted has done none of it. */
  lemma {:induction false} EachCallRunsOnce(states: seq<State>, steps: seq<Step>, n: nat, call: Call, invoke: bool)
    requires IsRun(states, steps) && n < |states|
    requires call in Starts(steps[..n]) && Starts(steps[..n])[call] == Ready(invoke)
    ensures call in states[n].pcs
    ensures var s := states[n]; var pc := s.pcs[call];
      (if pc == Pc.Admitted(invoke) then 1 else 0) + Times(s.f.queue, ItemFor(invoke, call)) + Runs(s.trace, invoke, call)
      == if WasAdmitted(pc) then 1 else 0
  {
    var s := states[n];
    RunsKeepInv(states, steps, n);
    TurnsFollowInsertions(states, steps, n);
    CallsInsertTheirItems(states, steps, n);
    InsertedIsQueuedOrTaken(s, ItemFor(invoke, call));
    TakenCounts(s.trace, invoke, call);
    TimesNone(s.trace, Rejected(call));
    ItemsCount(s.log, invoke, call);
    TimesOne(ItemFor(invoke, call), ItemFor(invoke, call));
  }

  lemma {:induction false} NothingDueWhenDrained(s: State, invoke: bool, call: Call)
    requires Inv(s) && Drained in s.trace && call in s.pcs
    ensures Times(s.f.queue, ItemFor(invoke, call)) == 0 && !s.pcs[call].Admitted?
  {
    assert Close in s.log;
    ClosingLeavesContinuations(s.log, s.f.queue);
    TimesNone(s.f.queue, ItemFor(invoke, call));
    assert s.pcs[call].Admitted? ==> call in InFlight(s.pcs);
  }

  lemma {:induction false} RunsBeforeMark(s: State, k: nat, invoke: bool, call: Call)
    requires Inv(s) && k < |s.trace| && s.trace[k] == Drained
    ensures Runs(s.trace[..k], invoke, call) == Runs(s.trace, invoke, call)
  {
    RunsBefore(s.trace, k, invoke, call);
  }

  /** When the loop has drained, every admitted call has run, once and before. */
  lemma {:induction false} DrainedHasRunEachCall(states: seq<State>, steps: seq<Step>, n: nat, k: nat, call: Call,
                                                 invoke: bool)
    requires IsRun(states, steps) && n < |states| && k < |states[n].trace| && states[n].trace[k] == Drained
    requires call in Starts(steps[..n]) && Starts(steps[..n])[call] == Ready(invoke)
    ensures call in states[n].pcs
    ensures WasAdmitted(states[n].pcs[call]) ==>
      Runs(states[n].trace[..k], invoke, call) == Runs(states[n].trace, invoke, call) == 1
  {
    EachCallRunsOnce(states, steps, n, call, invoke);
    RunsKeepInv(states, steps, n);
    NothingDueWhenDrained(states[n], invoke, call);
    RunsBeforeMark(states[n], k, invoke, call);
  }

  lemma {:induction false} RunsBefore(trace: seq<Event>, k: nat, invoke: bool, call: Call)
    requires k < |trace| && forall i :: k <= i < |trace| ==> !trace[i].Ran?
    ensures Runs(trace[..k], invoke, call) == Runs(trace, invoke, call)
  {
    assert trace == trace[..k] + trace[k..];
    TimesJoin(trace[..k], trace[k..], Ran(ItemFor(invoke, call)));
    TimesNone(trace[k..], Ran(ItemFor(invoke, call)));
  }

  // ----- Who is admitted

  /** A call is refused only once a drain has been accepted, and a drain call that goes on finds one accepted: itself or an
      earlier one, with the cleanup it began with. */
  lemma {:induction false} RefusedAfterDrain(states: seq<State>, steps: seq<Step>, n: nat, call: Call)
    requires IsRun(states, steps) && n < |states| && call in Starts(steps[..n])
    ensures call in states[n].pcs
    ensures states[n].pcs[call].Refused? ==> states[n].accepted.Some?
    ensures Starts(steps[..n])[call].DrainReady? && !states[n].pcs[call].DrainReady? ==> states[n].accepted.Some?
    ensures states[n].accepted.Some? ==>
      var winner := states[n].accepted.value;
      winner.call in Starts(steps[..n]) && Starts(steps[..n])[winner.call] == DrainReady(winner.cleanup)
  {
    CallsInsertTheirItems(states, steps, n);
  }

  /** While no drain has been accepted and there is room, a call that reads the count and finds it unchanged is admitted. */
  lemma {:induction false} OpenLoopAdmits(states: seq<State>, steps: seq<Step>, n: nat, call: Call, invoke: bool)
    requires IsRun(states, steps) && n < |states|
    requires states[n].accepted == None && |InFlight(states[n].pcs)| < MAX_VALUE
    requires call in states[n].pcs && states[n].pcs[call] == Ready(invoke)
    ensures Enabled(states[n], Advance(call))
    ensures var read := Do(states[n], Advance(call));
      Enabled(read, Advance(call)) && var tried := Do(read, Advance(call));
      call in tried.pcs && tried.pcs[call] == Pc.Admitted(invoke)
  {
    RunsKeepInv(states, steps, n);
  }

  /** With no drain accepted, the first drain call to try is accepted, and its cleanup stored. */
  lemma {:induction false} FirstDrainIsAccepted(states: seq<State>, steps: seq<Step>, n: nat, call: Call, cleanup: bool)
    requires IsRun(states, steps) && n < |states| && states[n].accepted == None
    requires call in states[n].pcs && states[n].pcs[call] == DrainReady(cleanup)
    ensures Enabled(states[n], Advance(call))
    ensures Do(states[n], Advance(call)).accepted == Some(Accepted(call, cleanup))
  {
    RunsKeepInv(states, steps, n);
  }

  // ----- What a turn starts and finishes

  lemma {:induction false} Removes(running: set<Work>, observed: set<Work>, work: Work)
    requires work !in running && work !in observed
    ensures ((running + {work}) + observed) - {work} == running + observed
  {
  }

  lemma {:induction false} HandlerStarts(s: State, call: Call, observed: set<Work>, finishes: bool)
    requires Inv(s) && Enabled(s, Turn(observed, finishes)) && s.f.queue[0] == Handler(call)
    ensures var t := Do(s, Turn(observed, finishes));
      && t.running == (if finishes then s.running + observed else s.running + {Handled(call)} + observed)
      && (finishes ==> Finished(Handled(call)) in t.trace)
  {
    OnlyContinuationsWhenClosing(s);
    assert Handled(call) !in observed;
    Removes(s.running, observed, Handled(call));
    FinishedIsIn(Begun(s, {Handled(call)}, observed), Handled(call));
  }

  lemma {:induction false} ContinuationFinishes(s: State, work: Work, observed: set<Work>, finishes: bool)
    requires Inv(s) && Enabled(s, Turn(observed, finishes)) && s.f.queue[0] == Continuation(work) && !s.f.completed
    ensures var t := Do(s, Turn(observed, finishes));
      && t.running == (s.running + observed) - (if finishes then {work} * s.running else {})
      && (finishes && work in s.running ==> Finished(work) in t.trace)
  {
    assert (s.running + {}) + observed == s.running + observed;
    FinishedIsIn(Begun(s, {}, observed), work);
  }

  /** A handler's turn starts its work, and finishes it when its body does; the work of a continuation that comes back is
      finished when the continuation's body finishes it. The tasks that the body observes run on. */
  lemma {:induction false} TurnsStartAndFinish(states: seq<State>, steps: seq<Step>, n: nat, observed: set<Work>,
                                               finishes: bool)
    requires IsRun(states, steps) && n < |states| && Enabled(states[n], Turn(observed, finishes))
    ensures var s := states[n]; var t := Do(s, Turn(observed, finishes));
      match s.f.queue[0]
      case Handler(call) =>
        && t.running == (if finishes then s.running + observed else s.running + {Handled(call)} + observed)
        && (finishes ==> Finished(Handled(call)) in t.trace)
      case Posted(_) => t.running == s.running + observed
      case Continuation(work) =>
        if s.f.completed then t.running == s.running
        else
          && t.running == (s.running + observed) - (if finishes then {work} * s.running else {})
          && (finishes && work in s.running ==> Finished(work) in t.trace)
      case Close => t.running == s.running && t.f.closing
  {
    var s := states[n];
    RunsKeepInv(states, steps, n);
    match s.f.queue[0]
    case Handler(call) => HandlerStarts(s, call, observed, finishes);
    case Continuation(work) =>
      if !s.f.completed {
        ContinuationFinishes(s, work, observed, finishes);
      }
    case _ =>
  }

  lemma {:induction false} FinishedIsIn(begun: State, work: Work)
    ensures Finished(work) in Complete(Ended(begun, work)).trace
  {
    var trace := begun.trace + [Finished(work)];
    assert trace[|begun.trace|] == Finished(work);
    assert Finished(work) in trace;
  }
}
