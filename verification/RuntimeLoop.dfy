/**
 The owner loop of the runtime: a lock-free admission counter whose sign bit closes admission, a FIFO queue that one
 thread drains, and a cleanup that runs when the last admitted handler has finished.

 `Fields` holds the object's fields and each atomic section of the source is one function on them. The class
 `RuntimeLoop` performs the same sections by assignment. `State` adds the threads: each call of Invoke, Post or Drain
 has a program counter, every interlocked operation and every insertion is one step, and the owner thread runs one queue
 item per step. A run is any sequence of enabled steps, so the theorems range over every interleaving.
 */
module RuntimeLoop {
  import opened Wrappers

  const MIN_VALUE: int := -0x8000_0000
  const MAX_VALUE: int := 0x7fff_ffff

  /** One call of Invoke, Post or Drain. */
  type Call = nat

  /** What `active` counts: handlers started by the owner, and rejected tasks it observes. */
  datatype Work = Handled(call: Call) | Task(id: nat)

  datatype Item =
    | Handler(call: Call)
    | Posted(call: Call)
    | Continuation(work: Work)
    | Close

  datatype Fields = Fields(
    admissions: int,
    drainRequested: bool,
    closeQueued: bool,
    finalizer: Option<Call>,
    queue: seq<Item>,
    completed: bool,
    active: int,
    closing: bool)

  const Fresh := Fields(0, false, false, None, [], false, 0, false)

  // ----- Atomic sections

  /** Interlocked.Decrement wraps at 32 bits. */
  function Decremented(value: int): int {
    if value == MIN_VALUE then MAX_VALUE else value - 1
  }

  /** Interlocked.Or with the sign bit. */
  function Closed(value: int): int {
    if value >= 0 then value + MIN_VALUE else value
  }

  /** queue.Add, which refuses items once adding has completed. */
  function Enqueued(f: Fields, item: Item): Fields {
    if f.completed then f else f.(queue := f.queue + [item])
  }

  predicate IsDrained(f: Fields) {
    f.closing && f.active == 0
  }

  function Settled(f: Fields): Fields {
    if IsDrained(f) then f.(finalizer := None, completed := true) else f
  }

  // ----- The object

  class RuntimeLoop {
    var admissions: int
    var drainRequested: bool
    var closeQueued: bool
    var finalizer: Option<Call>
    var queue: seq<Item>
    var completed: bool
    var active: int
    var closing: bool

    ghost function View(): Fields
      reads this
    {
      Fields(admissions, drainRequested, closeQueued, finalizer, queue, completed, active, closing)
    }

    constructor ()
      ensures View() == Fresh
    {
      admissions, drainRequested, closeQueued, finalizer := 0, false, false, None;
      queue, completed, active, closing := [], false, 0, false;
    }

    /** The compare-and-swap of BeginAdmission, after a read of `seen`. */
    method TryAdmit(seen: int) returns (admitted: bool)
      modifies this
      ensures admitted == (old(admissions) == seen)
      ensures View() == if admitted then old(View()).(admissions := seen + 1) else old(View())
    {
      admitted := admissions == seen;
      if admitted {
        admissions := seen + 1;
      }
    }

    /** The decrement of EndAdmission: true when the caller must queue the close marker. */
    method EndAdmission() returns (mustClose: bool)
      modifies this
      ensures View() == old(View()).(admissions := Decremented(old(admissions)))
      ensures mustClose == (admissions == MIN_VALUE)
    {
      admissions := if admissions == MIN_VALUE then MAX_VALUE else admissions - 1;
      mustClose := admissions == MIN_VALUE;
    }

    /** The two interlocked operations of Drain. */
    method RequestDrain() returns (won: bool)
      modifies this
      ensures won == !old(drainRequested) && View() == old(View()).(drainRequested := true)
    {
      won := !drainRequested;
      drainRequested := true;
    }

    method CloseAdmission() returns (mustClose: bool)
      modifies this
      ensures mustClose == (old(admissions) == 0)
      ensures View() == old(View()).(admissions := Closed(old(admissions)))
    {
      mustClose := admissions == 0;
      if admissions >= 0 {
        admissions := admissions + MIN_VALUE;
      }
    }

    /** The compare-and-swap of QueueClose. */
    method ClaimClose() returns (won: bool)
      modifies this
      ensures won == !old(closeQueued) && View() == old(View()).(closeQueued := true)
    {
      won := !closeQueued;
      closeQueued := true;
    }

    method Enqueue(item: Item) returns (ok: bool)
      modifies this
      ensures ok == !old(completed) && View() == Enqueued(old(View()), item)
    {
      ok := !completed;
      if ok {
        queue := queue + [item];
      }
    }

    /** Returns the drain call whose cleanup runs, if one does. */
    method CompleteIfDrained() returns (cleanup: Option<Call>)
      modifies this
      ensures View() == Settled(old(View()))
      ensures cleanup == if IsDrained(old(View())) then old(finalizer) else None
    {
      cleanup := None;
      if closing && active == 0 {
        cleanup := finalizer;
        finalizer := None;
        completed := true;
      }
    }

    /** One turn of Run: the head item is taken off and run. Its body observes `observed` rejected tasks and either
        finishes counted work or does not. */
    method RunNext(observed: nat, finishes: bool) returns (cleanup: Option<Call>)
      requires queue != []
      modifies this
      ensures View() == AfterTurn(old(View()), observed, finishes)
      ensures cleanup == if finalizer == old(finalizer) then None else old(finalizer)
    {
      var item := queue[0];
      queue := queue[1..];
      cleanup := None;
      match item
      case Handler(_) =>
        if !closing {
          active := active + 1;
          active := active + observed;
          if finishes {
            active := active - 1;
            cleanup := CompleteIfDrained();
          }
        }
      case Posted(_) =>
        active := active + observed;
      case Continuation(_) =>
        if !(closing && active == 0) {
          active := active + observed;
          if finishes {
            active := active - 1;
            cleanup := CompleteIfDrained();
          }
        }
      case Close =>
        closing := true;
        cleanup := CompleteIfDrained();
    }
  }

  function AfterBody(f: Fields, observed: nat, finishes: bool): Fields {
    var ran := f.(active := f.active + observed);
    if finishes then Settled(ran.(active := ran.active - 1)) else ran
  }

  function AfterTurn(f: Fields, observed: nat, finishes: bool): Fields
    requires f.queue != []
  {
    var taken := f.(queue := f.queue[1..]);
    match f.queue[0]
    case Handler(_) => if f.closing then taken else AfterBody(taken.(active := taken.active + 1), observed, finishes)
    case Posted(_) => AfterBody(taken, observed, false)
    case Continuation(_) => if IsDrained(f) then taken else AfterBody(taken, observed, finishes)
    case Close => Settled(taken.(closing := true))
  }

  // ----- The machine

  datatype Pc =
    | Ready(invoke: bool)               // before the read of BeginAdmission
    | Seen(invoke: bool, value: int)    // read a count, before its compare-and-swap
    | Admitted(invoke: bool)            // counted, before the insertion
    | Inserted                          // before the decrement of EndAdmission
    | Refused
    | Overflow
    | DrainReady(cleanup: bool)         // before the compare-and-swap on drainRequested
    | DrainWon(cleanup: bool)           // before the store to finalizer
    | DrainStored                       // before the Or
    | MustClose                         // before the compare-and-swap of QueueClose
    | MustInsertClose                   // before the insertion of the close marker
    | Returned

  datatype Event =
    | InsertFailed(call: Call)
    | Rejected(call: Call)
    | Ran(item: Item)
    | Finished(work: Work)
    | Dropped(work: Work)
    | CleanedUp(call: Call)
    | Drained

  datatype Accepted = Accepted(call: Call, cleanup: bool)

  /** `log` lists every item ever inserted, `admitted` the Invoke calls past their compare-and-swap, `tasks` every
      observed task, `running` the work `active` counts, and `accepted` the Drain call that won. */
  datatype State = State(
    f: Fields,
    pcs: map<Call, Pc>,
    running: set<Work>,
    log: seq<Item>,
    admitted: set<Call>,
    tasks: set<Work>,
    accepted: Option<Accepted>,
    trace: seq<Event>)

  const Init := State(Fresh, map[], {}, [], {}, {}, None, [])

  datatype Step =
    | Begin(call: Call, pc: Pc)
    | Advance(call: Call)
    | PostContinuation(work: Work)
    | Turn(observed: set<Work>, finishes: bool)

  predicate Final(pc: Pc) {
    pc.Refused? || pc.Overflow? || pc.Returned?
  }

  ghost predicate Enabled(s: State, step: Step) {
    match step
    case Begin(call, pc) => call !in s.pcs && (pc.Ready? || pc.DrainReady?)
    case Advance(call) => call in s.pcs && !Final(s.pcs[call])
    case PostContinuation(_) => true
    case Turn(observed, _) => s.f.queue != [] && observed !! s.tasks && forall w :: w in observed ==> w.Task?
  }

  function Insert(s: State, call: Call, item: Item, next: Pc): State {
    if s.f.completed then s.(pcs := s.pcs[call := next], trace := s.trace + [InsertFailed(call)])
    else s.(f := Enqueued(s.f, item), pcs := s.pcs[call := next], log := s.log + [item])
  }

  function Advanced(s: State, call: Call): State
    requires call in s.pcs
  {
    match s.pcs[call]
    case Ready(invoke) =>
      s.(pcs := s.pcs[call :=
        if s.f.admissions < 0 then Refused
        else if s.f.admissions == MAX_VALUE then Overflow
        else Seen(invoke, s.f.admissions)])
    case Seen(invoke, value) =>
      if s.f.admissions == value then
        s.(f := s.f.(admissions := value + 1), pcs := s.pcs[call := Admitted(invoke)],
           admitted := if invoke then s.admitted + {call} else s.admitted)
      else s.(pcs := s.pcs[call := Ready(invoke)])
    case Admitted(invoke) => Insert(s, call, if invoke then Handler(call) else Posted(call), Inserted)
    case Inserted =>
      var left := Decremented(s.f.admissions);
      s.(f := s.f.(admissions := left), pcs := s.pcs[call := if left == MIN_VALUE then MustClose else Returned])
    case DrainReady(cleanup) =>
      if s.f.drainRequested then s.(pcs := s.pcs[call := Returned])
      else s.(f := s.f.(drainRequested := true), pcs := s.pcs[call := DrainWon(cleanup)],
              accepted := Some(Accepted(call, cleanup)))
    case DrainWon(cleanup) =>
      s.(f := s.f.(finalizer := if cleanup then Some(call) else None), pcs := s.pcs[call := DrainStored])
    case DrainStored =>
      s.(f := s.f.(admissions := Closed(s.f.admissions)),
         pcs := s.pcs[call := if s.f.admissions == 0 then MustClose else Returned])
    case MustClose =>
      s.(f := s.f.(closeQueued := true), pcs := s.pcs[call := if s.f.closeQueued then Returned else MustInsertClose])
    case MustInsertClose => Insert(s, call, Close, Returned)
    case _ => s
  }

  function CompletionEvents(f: Fields): seq<Event> {
    if !IsDrained(f) then [] else (if f.finalizer.Some? then [CleanedUp(f.finalizer.value)] else []) + [Drained]
  }

  function Complete(s: State): State {
    s.(f := Settled(s.f), trace := s.trace + CompletionEvents(s.f))
  }

  /** The head item is taken and its body runs: `extra` is the handler it starts, if any. */
  function Begun(s: State, extra: set<Work>, observed: set<Work>): State
    requires s.f.queue != []
  {
    s.(f := s.f.(queue := s.f.queue[1..], active := s.f.active + |extra| + |observed|),
       running := s.running + extra + observed, tasks := s.tasks + observed, trace := s.trace + [Ran(s.f.queue[0])])
  }

  function Ended(s: State, work: Work): State {
    s.(f := s.f.(active := s.f.active - 1), running := s.running - {work}, trace := s.trace + [Finished(work)])
  }

  function Turned(s: State, observed: set<Work>, finishes: bool): State
    requires s.f.queue != []
  {
    var taken := s.(f := s.f.(queue := s.f.queue[1..]));
    match s.f.queue[0]
    case Handler(call) =>
      if s.f.closing then taken.(trace := s.trace + [Rejected(call)])
      else
        var begun := Begun(s, {Handled(call)}, observed);
        if finishes then Complete(Ended(begun, Handled(call))) else begun
    case Posted(_) => Begun(s, {}, observed)
    case Continuation(work) =>
      if IsDrained(s.f) then taken.(trace := s.trace + [Dropped(work)])
      else
        var begun := Begun(s, {}, observed);
        if finishes && work in s.running then Complete(Ended(begun, work)) else begun
    case Close => Complete(taken.(f := taken.f.(closing := true)))
  }

  function Do(s: State, step: Step): State
    requires Enabled(s, step)
  {
    match step
    case Begin(call, pc) => s.(pcs := s.pcs[call := pc])
    case Advance(call) => Advanced(s, call)
    case PostContinuation(work) =>
      if s.f.completed then s
      else s.(f := Enqueued(s.f, Continuation(work)), log := s.log + [Continuation(work)])
    case Turn(observed, finishes) => Turned(s, observed, finishes)
  }

  /** A run: the states of the machine under `steps`, from the fresh object. */
  ghost predicate IsRun(states: seq<State>, steps: seq<Step>) {
    && |states| == |steps| + 1
    && states[0] == Init
    && forall i :: 0 <= i < |steps| ==> Enabled(states[i], steps[i]) && states[i + 1] == Do(states[i], steps[i])
  }

  lemma {:induction false} HandlerTurnMatches(s: State, observed: set<Work>, finishes: bool)
    requires s.f.queue != [] && s.f.queue[0].Handler?
    ensures Turned(s, observed, finishes).f == AfterTurn(s.f, |observed|, finishes)
  {
    assert |{Handled(s.f.queue[0].call)}| == 1;
  }

  lemma {:induction false} ContinuationTurnMatches(s: State, observed: set<Work>, finishes: bool)
    requires s.f.queue != [] && s.f.queue[0].Continuation?
    ensures Turned(s, observed, finishes).f ==
            AfterTurn(s.f, |observed|, finishes && s.f.queue[0].work in s.running)
  {
  }

  /** The machine's turn changes the object's fields as the class method RunNext does. */
  lemma {:induction false} TurnMatchesRunNext(s: State, observed: set<Work>, finishes: bool)
    requires s.f.queue != []
    ensures Turned(s, observed, finishes).f ==
            AfterTurn(s.f, |observed|,
                      finishes && (s.f.queue[0].Continuation? ==> s.f.queue[0].work in s.running))
  {
    match s.f.queue[0]
    case Handler(_) => HandlerTurnMatches(s, observed, finishes);
    case Posted(_) =>
    case Continuation(_) => ContinuationTurnMatches(s, observed, finishes);
    case Close =>
  }

  // ----- The invariant

  /** Calls between their compare-and-swap and their decrement. */
  ghost function InFlight(pcs: map<Call, Pc>): set<Call> {
    set call | call in pcs && (pcs[call].Admitted? || pcs[call].Inserted?)
  }

  ghost predicate OnDuty(pcs: map<Call, Pc>, call: Call) {
    call in pcs && (pcs[call].MustClose? || pcs[call].MustInsertClose?)
  }

  ghost predicate Draining(pcs: map<Call, Pc>, call: Call) {
    call in pcs && (pcs[call].DrainWon? || pcs[call].DrainStored?)
  }

  /** The admission word counts the calls in flight; its sign bit records that a drain has closed admission. */
  ghost predicate CountInv(admissions: int, pcs: map<Call, Pc>) {
    && admissions == (if admissions < 0 then MIN_VALUE else 0) + |InFlight(pcs)|
    && |InFlight(pcs)| <= MAX_VALUE
    && (forall c :: c in pcs && pcs[c].Seen? ==> 0 <= pcs[c].value < MAX_VALUE)
  }

  /** Once a drain is requested, exactly one call is on its way to close admission until it has. */
  ghost predicate DrainInv(admissions: int, drainRequested: bool, pcs: map<Call, Pc>) {
    && (forall c, d :: Draining(pcs, c) && Draining(pcs, d) ==> c == d)
    && (forall c :: Draining(pcs, c) ==> drainRequested && admissions >= 0)
    && (admissions < 0 ==> drainRequested)
    && (drainRequested && admissions >= 0 ==> exists c :: Draining(pcs, c))
  }

  /** Who owes the close marker: nobody before the last admitted call ends, exactly one call from then until the marker is
      in the queue, nobody after. */
  ghost predicate CloseInv(admissions: int, closeQueued: bool, pcs: map<Call, Pc>, marked: bool) {
    && (forall c :: OnDuty(pcs, c) ==> admissions == MIN_VALUE && !marked)
    && (forall c, d :: OnDuty(pcs, c) && OnDuty(pcs, d) ==> c == d)
    && (forall c :: c in pcs && pcs[c].MustClose? ==> !closeQueued)
    && (forall c :: c in pcs && pcs[c].MustInsertClose? ==> closeQueued)
    && (closeQueued || marked ==> admissions == MIN_VALUE)
    && (marked ==> closeQueued)
    && (admissions == MIN_VALUE && !marked ==> exists c :: OnDuty(pcs, c))
  }

  /** The queue is what is left of the log, and only continuations follow the marker. */
  ghost predicate LogInv(log: seq<Item>, queue: seq<Item>, closing: bool) {
    && |queue| <= |log|
    && queue == log[|log| - |queue|..]
    && (forall i, j :: 0 <= i < j < |log| && log[i].Close? ==> log[j].Continuation?)
    && (closing <==> Close in log[..|log| - |queue|])
  }

  ghost predicate Past(pcs: map<Call, Pc>, call: Call) {
    call in pcs && !pcs[call].Ready? && !pcs[call].Seen? && !pcs[call].Admitted?
  }

  /** Each handler is in the queue at most once, and not once it runs. */
  ghost predicate HandlerInv(pcs: map<Call, Pc>, queue: seq<Item>, running: set<Work>) {
    && (forall c :: Handler(c) in queue ==> Past(pcs, c))
    && (forall i, j :: 0 <= i < j < |queue| && queue[i].Handler? ==> queue[i] != queue[j])
    && (forall c :: Handled(c) in running ==> Past(pcs, c) && Handler(c) !in queue)
  }

  /** An admitted handler is waiting for its insertion, in the queue, running, or finished. */
  ghost predicate Tracked(pcs: map<Call, Pc>, queue: seq<Item>, running: set<Work>, trace: seq<Event>, call: Call) {
    || (call in pcs && pcs[call] == Pc.Admitted(true))
    || Handler(call) in queue
    || Handled(call) in running
    || Finished(Handled(call)) in trace
  }

  /** `active` counts the running work, and an observed task is running or finished. */
  ghost predicate ActiveInv(active: int, running: set<Work>, tasks: set<Work>, trace: seq<Event>) {
    && active == |running|
    && (forall w :: w in running && w.Task? ==> w in tasks)
    && (forall w :: w in tasks ==> w.Task? && (w in running || Finished(w) in trace))
  }

  /** The trace ends with the cleanup, the mark that adding is complete, and drops; nothing was refused. */
  ghost predicate TraceInv(completed: bool, trace: seq<Event>) {
    && (completed <==> Drained in trace)
    && (forall c :: InsertFailed(c) !in trace && Rejected(c) !in trace)
    && (forall i, j :: 0 <= i < j < |trace| && trace[i].Drained? ==> trace[j].Dropped?)
    && (forall i :: 0 <= i < |trace| && trace[i].CleanedUp? ==> i + 1 < |trace| && trace[i + 1].Drained?)
  }

  /** The cleanup of the winning drain call is stored before admission closes and taken when the loop drains. */
  ghost predicate CleanupInv(f: Fields, pcs: map<Call, Pc>, accepted: Option<Accepted>, trace: seq<Event>) {
    && (f.drainRequested <==> accepted.Some?)
    && (forall c :: c in pcs && pcs[c].DrainWon? ==> accepted == Some(Accepted(c, pcs[c].cleanup)))
    && (forall c :: CleanedUp(c) in trace ==> f.completed && accepted == Some(Accepted(c, true)))
    && (f.completed && accepted.Some? && accepted.value.cleanup ==> CleanedUp(accepted.value.call) in trace)
    && (StoredFinalizer(f.admissions, pcs) && !f.completed ==>
          accepted.Some? && f.finalizer == if accepted.value.cleanup then Some(accepted.value.call) else None)
  }

  ghost predicate StoredFinalizer(admissions: int, pcs: map<Call, Pc>) {
    admissions < 0 || exists c :: c in pcs && pcs[c].DrainStored?
  }

  ghost predicate Inv(s: State) {
    && CountInv(s.f.admissions, s.pcs) && DrainInv(s.f.admissions, s.f.drainRequested, s.pcs)
    && CloseInv(s.f.admissions, s.f.closeQueued, s.pcs, Close in s.log)
    && LogInv(s.log, s.f.queue, s.f.closing)
    && HandlerInv(s.pcs, s.f.queue, s.running)
    && (forall c :: c in s.admitted ==> Tracked(s.pcs, s.f.queue, s.running, s.trace, c))
    && ActiveInv(s.f.active, s.running, s.tasks, s.trace)
    && (s.f.completed <==> IsDrained(s.f))
    && TraceInv(s.f.completed, s.trace)
    && CleanupInv(s.f, s.pcs, s.accepted, s.trace)
  }

  lemma InFlightUpdate(pcs: map<Call, Pc>, call: Call, pc: Pc)
    ensures InFlight(pcs[call := pc]) ==
            if pc.Admitted? || pc.Inserted? then InFlight(pcs) + {call} else InFlight(pcs) - {call}
  {
  }

  /** The admission word after one step of a call, as `Advanced` computes it. */
  function NextAdmissions(admissions: int, pc: Pc): int {
    match pc
    case Seen(_, value) => if admissions == value then value + 1 else admissions
    case Inserted => Decremented(admissions)
    case DrainStored => Closed(admissions)
    case _ => admissions
  }

  lemma AdvanceShape(s: State, call: Call)
    requires call in s.pcs
    ensures var t := Advanced(s, call);
      && t.f.admissions == NextAdmissions(s.f.admissions, s.pcs[call])
      && call in t.pcs && t.pcs == s.pcs[call := t.pcs[call]]
      && t.f.drainRequested == (s.f.drainRequested || s.pcs[call].DrainReady?)
      && t.f.closeQueued == (s.f.closeQueued || s.pcs[call].MustClose?)
      && t.admitted == (if s.pcs[call].Seen? && t.pcs[call] == Pc.Admitted(true) then s.admitted + {call} else s.admitted)
      && t.accepted == (if s.pcs[call].DrainReady? && !s.f.drainRequested
                        then Some(Accepted(call, s.pcs[call].cleanup)) else s.accepted)
      && t.f.finalizer == (if s.pcs[call].DrainWon? then (if s.pcs[call].cleanup then Some(call) else None)
                           else s.f.finalizer)
  {
    match s.pcs[call]
    case Ready(_) =>
    case Seen(_, _) =>
    case Admitted(_) =>
    case Inserted =>
    case DrainReady(_) =>
    case DrainWon(_) =>
    case DrainStored =>
    case MustClose =>
    case MustInsertClose =>
    case _ =>
  }

  /** What one step may do to a call's program counter, given the fields the choice depends on. */
  predicate Moves(f: Fields, pc: Pc, next: Pc) {
    match pc
    case Ready(invoke) =>
      next == if f.admissions < 0 then Refused
              else if f.admissions == MAX_VALUE then Overflow else Seen(invoke, f.admissions)
    case Seen(invoke, value) => next == if f.admissions == value then Pc.Admitted(invoke) else Ready(invoke)
    case Admitted(_) => next == Inserted
    case Inserted => next == if f.admissions == MIN_VALUE + 1 then MustClose else Returned
    case DrainReady(cleanup) => next == if f.drainRequested then Returned else DrainWon(cleanup)
    case DrainWon(_) => next == DrainStored
    case DrainStored => next == if f.admissions == 0 then MustClose else Returned
    case MustClose => next == if f.closeQueued then Returned else MustInsertClose
    case MustInsertClose => next == Returned
    case _ => next == pc
  }

  lemma AdvanceMoves(s: State, call: Call)
    requires call in s.pcs && s.f.admissions <= MAX_VALUE
    ensures Moves(s.f, s.pcs[call], Advanced(s, call).pcs[call])
  {
  }

  lemma MoveKeepsCount(f: Fields, pcs: map<Call, Pc>, call: Call, next: Pc)
    requires CountInv(f.admissions, pcs) && DrainInv(f.admissions, f.drainRequested, pcs)
    requires call in pcs && Moves(f, pcs[call], next)
    ensures CountInv(NextAdmissions(f.admissions, pcs[call]), pcs[call := next])
  {
    InFlightUpdate(pcs, call, next);
    var before, after := InFlight(pcs), InFlight(pcs[call := next]);
    assert pcs[call].Admitted? || pcs[call].Inserted? <==> call in before;
    assert next.Admitted? || next.Inserted? <==> call in after;
    assert |after| == |before - {call}| + if call in after then 1 else 0;
    assert |before| == |before - {call}| + if call in before then 1 else 0;
    assert pcs[call].DrainStored? ==> Draining(pcs, call);
  }

  lemma MoveKeepsDrain(f: Fields, pcs: map<Call, Pc>, call: Call, next: Pc)
    requires CountInv(f.admissions, pcs) && DrainInv(f.admissions, f.drainRequested, pcs)
    requires call in pcs && Moves(f, pcs[call], next)
    ensures DrainInv(NextAdmissions(f.admissions, pcs[call]), f.drainRequested || pcs[call].DrainReady?, pcs[call := next])
  {
    var after := pcs[call := next];
    assert pcs[call].Inserted? ==> call in InFlight(pcs);
    assert forall c :: c != call ==> (Draining(after, c) <==> Draining(pcs, c));
    assert Draining(pcs, call) <==> pcs[call].DrainWon? || pcs[call].DrainStored?;
    assert Draining(after, call) <==> next.DrainWon? || next.DrainStored?;
  }

  lemma MoveKeepsClose(f: Fields, pcs: map<Call, Pc>, call: Call, next: Pc, marked: bool)
    requires CountInv(f.admissions, pcs) && DrainInv(f.admissions, f.drainRequested, pcs)
    requires CloseInv(f.admissions, f.closeQueued, pcs, marked)
    requires call in pcs && Moves(f, pcs[call], next)
    ensures CloseInv(NextAdmissions(f.admissions, pcs[call]), f.closeQueued || pcs[call].MustClose?, pcs[call := next],
                     marked || pcs[call].MustInsertClose?)
  {
    var after := pcs[call := next];
    assert forall c :: c != call ==> (OnDuty(after, c) <==> OnDuty(pcs, c));
    assert OnDuty(pcs, call) <==> pcs[call].MustClose? || pcs[call].MustInsertClose?;
    assert OnDuty(after, call) <==> next.MustClose? || next.MustInsertClose?;
    assert forall c :: c in after && c != call && (after[c].MustClose? || after[c].MustInsertClose?) ==> OnDuty(pcs, c);
    if !OnDuty(pcs, call) {
      assert pcs[call].Admitted? || pcs[call].Inserted? <==> call in InFlight(pcs);
      assert pcs[call].DrainStored? ==> Draining(pcs, call);
      assert next.MustClose? <==> f.admissions != MIN_VALUE && NextAdmissions(f.admissions, pcs[call]) == MIN_VALUE;
    }
  }

  // ----- Insertion

  lemma PushKeepsLog(log: seq<Item>, queue: seq<Item>, closing: bool, item: Item)
    requires LogInv(log, queue, closing) && (item.Continuation? || Close !in log)
    ensures LogInv(log + [item], queue + [item], closing)
  {
    var start := |log| - |queue|;
    assert (log + [item])[..start] == log[..start];
    assert (log + [item])[start..] == log[start..] + [item];
  }

  lemma PopKeepsLog(log: seq<Item>, queue: seq<Item>, closing: bool)
    requires LogInv(log, queue, closing) && queue != []
    ensures LogInv(log, queue[1..], closing || queue[0].Close?)
  {
    var start := |log| - |queue|;
    assert log[..start + 1] == log[..start] + [queue[0]];
    assert log[start + 1..] == queue[1..];
  }

  /** After the marker has been taken, only continuations are left. */
  lemma ClosingLeavesContinuations(log: seq<Item>, queue: seq<Item>)
    requires LogInv(log, queue, true)
    ensures forall item :: item in queue ==> item.Continuation?
  {
    var start := |log| - |queue|;
    var i :| 0 <= i < start && log[i] == Close;
    assert forall k :: 0 <= k < |queue| ==> queue[k] == log[start + k];
  }

  /** A call that must still insert finds the loop open: its insertion cannot fail. */
  lemma InserterFindsLoopOpen(s: State, call: Call)
    requires Inv(s) && call in s.pcs && (s.pcs[call].Admitted? || s.pcs[call].MustInsertClose?)
    ensures Close !in s.log && !s.f.closing && !s.f.completed
  {
    assert s.pcs[call].Admitted? ==> call in InFlight(s.pcs);
    assert s.pcs[call].MustInsertClose? ==> OnDuty(s.pcs, call);
  }

  lemma MoveKeepsPast(f: Fields, pcs: map<Call, Pc>, call: Call, next: Pc)
    requires call in pcs && Moves(f, pcs[call], next)
    ensures forall c :: Past(pcs, c) ==> Past(pcs[call := next], c)
  {
  }

  lemma PushKeepsHandlers(pcs: map<Call, Pc>, queue: seq<Item>, running: set<Work>, item: Item)
    requires HandlerInv(pcs, queue, running)
    requires item.Handler? ==> item !in queue && Past(pcs, item.call) && Handled(item.call) !in running
    ensures HandlerInv(pcs, queue + [item], running)
  {
  }

  lemma PopKeepsHandlers(pcs: map<Call, Pc>, queue: seq<Item>, running: set<Work>, more: set<Work>, less: set<Work>)
    requires HandlerInv(pcs, queue, running) && queue != []
    requires forall w :: w in more && w.Handled? ==> queue[0] == Handler(w.call)
    ensures HandlerInv(pcs, queue[1..], (running + more) - less)
  {
    forall c | Handled(c) in (running + more) - less
      ensures Past(pcs, c) && Handler(c) !in queue[1..]
    {
      assert Handled(c) in running || Handled(c) in more;
    }
  }

  lemma InsertKeepsQueue(s: State, call: Call)
    requires Inv(s) && call in s.pcs && (s.pcs[call].Admitted? || s.pcs[call].MustInsertClose?)
    ensures var t := Advanced(s, call);
      && LogInv(t.log, t.f.queue, t.f.closing) && HandlerInv(t.pcs, t.f.queue, t.running)
      && (Close in t.log <==> Close in s.log || s.pcs[call].MustInsertClose?)
  {
    InserterFindsLoopOpen(s, call);
    AdvanceMoves(s, call);
    var t := Advanced(s, call);
    MoveKeepsPast(s.f, s.pcs, call, t.pcs[call]);
    var item := t.log[|s.log|];
    PushKeepsLog(s.log, s.f.queue, s.f.closing, item);
    assert HandlerInv(t.pcs, s.f.queue, s.running);
    PushKeepsHandlers(t.pcs, s.f.queue, s.running, item);
  }

  /** A call's step keeps what the queue, the log and the handlers say of each other. */
  ghost predicate KeepsQueue(s: State, call: Call, t: State)
    requires call in s.pcs
  {
    && LogInv(t.log, t.f.queue, t.f.closing) && HandlerInv(t.pcs, t.f.queue, t.running)
    && (Close in t.log <==> Close in s.log || s.pcs[call].MustInsertClose?)
    && t.trace == s.trace && t.f.completed == s.f.completed && t.f.closing == s.f.closing && t.f.active == s.f.active
    && t.running == s.running && t.tasks == s.tasks
    && (forall item :: item in s.f.queue ==> item in t.f.queue)
  }

  lemma MoveKeepsQueue(s: State, call: Call)
    requires Inv(s) && Enabled(s, Advance(call)) && !s.pcs[call].Admitted? && !s.pcs[call].MustInsertClose?
    ensures KeepsQueue(s, call, Advanced(s, call))
  {
    AdvanceMoves(s, call);
    AdvanceShape(s, call);
    MoveKeepsPast(s.f, s.pcs, call, Advanced(s, call).pcs[call]);
  }

  lemma AdvanceKeepsQueue(s: State, call: Call)
    requires Inv(s) && Enabled(s, Advance(call))
    ensures KeepsQueue(s, call, Advanced(s, call))
  {
    if s.pcs[call].Admitted? || s.pcs[call].MustInsertClose? {
      InserterFindsLoopOpen(s, call);
      InsertKeepsQueue(s, call);
    } else {
      MoveKeepsQueue(s, call);
    }
  }

  lemma MoveKeepsCleanup(f: Fields, pcs: map<Call, Pc>, accepted: Option<Accepted>, trace: seq<Event>, call: Call,
                         next: Pc, f': Fields, accepted': Option<Accepted>)
    requires DrainInv(f.admissions, f.drainRequested, pcs) && CleanupInv(f, pcs, accepted, trace)
    requires call in pcs && Moves(f, pcs[call], next)
    requires f'.admissions == NextAdmissions(f.admissions, pcs[call]) && f'.completed == f.completed
    requires f'.drainRequested == (f.drainRequested || pcs[call].DrainReady?)
    requires accepted' == if pcs[call].DrainReady? && !f.drainRequested
                          then Some(Accepted(call, pcs[call].cleanup)) else accepted
    requires f'.finalizer == if pcs[call].DrainWon? then (if pcs[call].cleanup then Some(call) else None) else f.finalizer
    requires f.completed ==> f.admissions < 0
    requires f.admissions < 0 || pcs[call].DrainStored? <==> f'.admissions < 0
    ensures CleanupInv(f', pcs[call := next], accepted', trace)
  {
    var after := pcs[call := next];
    assert forall c :: c in pcs && (pcs[c].DrainWon? || pcs[c].DrainStored?) ==> Draining(pcs, c);
    assert forall c :: c in after && c != call && (after[c].DrainWon? || after[c].DrainStored?) ==> Draining(pcs, c);
    assert pcs[call].DrainStored? ==> StoredFinalizer(f.admissions, pcs);
    assert StoredFinalizer(f'.admissions, after) ==> StoredFinalizer(f.admissions, pcs) || pcs[call].DrainWon? by {
      if c :| c in after && after[c].DrainStored? {
        assert c in pcs;
      }
    }
  }

  lemma AdvanceKeepsCleanup(s: State, call: Call)
    requires Inv(s) && Enabled(s, Advance(call))
    ensures var t := Advanced(s, call); CleanupInv(t.f, t.pcs, t.accepted, t.trace)
  {
    AdvanceKeepsQueue(s, call);
    AdvanceShape(s, call);
    AdvanceMoves(s, call);
    var t := Advanced(s, call);
    assert s.pcs[call].Inserted? ==> call in InFlight(s.pcs);
    assert s.pcs[call].DrainStored? ==> Draining(s.pcs, call);
    assert s.f.completed ==> s.f.closing;
    MoveKeepsCleanup(s.f, s.pcs, s.accepted, s.trace, call, t.pcs[call], t.f, t.accepted);
  }

  lemma AdvanceKeepsTracked(s: State, call: Call, c: Call)
    requires Inv(s) && Enabled(s, Advance(call)) && c in Advanced(s, call).admitted
    ensures var t := Advanced(s, call); Tracked(t.pcs, t.f.queue, t.running, t.trace, c)
  {
    AdvanceKeepsQueue(s, call);
    AdvanceShape(s, call);
    AdvanceMoves(s, call);
    if c == call && s.pcs[call] == Pc.Admitted(true) {
      InserterFindsLoopOpen(s, call);
      assert Advanced(s, call).f.queue == s.f.queue + [Handler(call)];
    }
  }

  lemma AdvanceKeepsInv(s: State, call: Call)
    requires Inv(s) && Enabled(s, Advance(call))
    ensures Inv(Advanced(s, call))
  {
    AdvanceKeepsQueue(s, call);
    AdvanceShape(s, call);
    AdvanceMoves(s, call);
    var t := Advanced(s, call);
    MoveKeepsCount(s.f, s.pcs, call, t.pcs[call]);
    MoveKeepsDrain(s.f, s.pcs, call, t.pcs[call]);
    MoveKeepsClose(s.f, s.pcs, call, t.pcs[call], Close in s.log);
    AdvanceKeepsCleanup(s, call);
    forall c | c in t.admitted
      ensures Tracked(t.pcs, t.f.queue, t.running, t.trace, c)
    {
      AdvanceKeepsTracked(s, call, c);
    }
  }

  lemma BeginKeepsWords(f: Fields, pcs: map<Call, Pc>, call: Call, pc: Pc, marked: bool)
    requires CountInv(f.admissions, pcs) && DrainInv(f.admissions, f.drainRequested, pcs)
    requires CloseInv(f.admissions, f.closeQueued, pcs, marked)
    requires call !in pcs && (pc.Ready? || pc.DrainReady?)
    ensures var after := pcs[call := pc];
      && CountInv(f.admissions, after) && DrainInv(f.admissions, f.drainRequested, after)
      && CloseInv(f.admissions, f.closeQueued, after, marked)
  {
    var after := pcs[call := pc];
    InFlightUpdate(pcs, call, pc);
    assert InFlight(after) == InFlight(pcs);
    assert forall c :: (Draining(after, c) <==> Draining(pcs, c)) && (OnDuty(after, c) <==> OnDuty(pcs, c));
  }

  lemma BeginKeepsInv(s: State, call: Call, pc: Pc)
    requires Inv(s) && Enabled(s, Begin(call, pc))
    ensures Inv(Do(s, Begin(call, pc)))
  {
    var after := s.pcs[call := pc];
    BeginKeepsWords(s.f, s.pcs, call, pc, Close in s.log);
    assert StoredFinalizer(s.f.admissions, after) ==> StoredFinalizer(s.f.admissions, s.pcs);
  }

  lemma PostKeepsInv(s: State, work: Work)
    requires Inv(s)
    ensures Inv(Do(s, PostContinuation(work)))
  {
    PushKeepsLog(s.log, s.f.queue, s.f.closing, Continuation(work));
    PushKeepsHandlers(s.pcs, s.f.queue, s.running, Continuation(work));
  }

  // ----- Turns of the owner

  /** The invariant inside a turn, before the drain test of its last section. */
  ghost predicate Open(s: State) {
    && CountInv(s.f.admissions, s.pcs) && DrainInv(s.f.admissions, s.f.drainRequested, s.pcs)
    && CloseInv(s.f.admissions, s.f.closeQueued, s.pcs, Close in s.log)
    && LogInv(s.log, s.f.queue, s.f.closing)
    && HandlerInv(s.pcs, s.f.queue, s.running)
    && (forall c :: c in s.admitted ==> Tracked(s.pcs, s.f.queue, s.running, s.trace, c))
    && ActiveInv(s.f.active, s.running, s.tasks, s.trace)
    && !s.f.completed && TraceInv(false, s.trace)
    && CleanupInv(s.f, s.pcs, s.accepted, s.trace)
  }

  lemma RanKeepsTrace(trace: seq<Event>, e: Event)
    requires TraceInv(false, trace) && (e.Ran? || e.Finished?)
    ensures TraceInv(false, trace + [e])
  {
  }

  lemma DropKeepsTrace(trace: seq<Event>, work: Work)
    requires TraceInv(true, trace)
    ensures TraceInv(true, trace + [Dropped(work)])
  {
    var longer := trace + [Dropped(work)];
    assert Drained in longer by {
      assert Drained in trace;
    }
  }

  lemma CompletionKeepsTrace(trace: seq<Event>, f: Fields)
    requires TraceInv(false, trace) && IsDrained(f)
    ensures TraceInv(true, trace + CompletionEvents(f))
  {
    var longer := trace + CompletionEvents(f);
    assert longer[|longer| - 1] == Drained;
  }

  lemma CompleteRestoresInv(s: State)
    requires Open(s)
    ensures Inv(Complete(s))
  {
    var t := Complete(s);
    if IsDrained(s.f) {
      CompletionKeepsTrace(s.trace, s.f);
      assert Close in s.log;
      assert StoredFinalizer(s.f.admissions, s.pcs);
      assert forall e :: e in s.trace ==> e in t.trace;
      assert forall c: Call :: CleanedUp(c) in t.trace ==> CleanedUp(c) in s.trace || s.f.finalizer == Some(c);
      assert s.f.finalizer.Some? ==> CompletionEvents(s.f)[0] == CleanedUp(s.f.finalizer.value);
    } else {
      assert t == s.(trace := s.trace + []);
      assert s.trace + [] == s.trace;
    }
  }

  lemma RunKeepsActive(active: int, running: set<Work>, tasks: set<Work>, trace: seq<Event>, extra: set<Work>,
                       observed: set<Work>, e: Event)
    requires ActiveInv(active, running, tasks, trace)
    requires extra !! running && (forall w :: w in extra ==> w.Handled?)
    requires observed !! tasks && (forall w :: w in observed ==> w.Task?)
    ensures ActiveInv(active + |extra| + |observed|, running + extra + observed, tasks + observed, trace + [e])
  {
    assert observed !! running + extra;
    assert |running + extra + observed| == |running + extra| + |observed|;
    assert |running + extra| == |running| + |extra|;
  }

  lemma RunKeepsTracked(pcs: map<Call, Pc>, queue: seq<Item>, running: set<Work>, trace: seq<Event>, extra: set<Work>,
                        observed: set<Work>, e: Event, c: Call)
    requires queue != [] && Tracked(pcs, queue, running, trace, c)
    requires queue[0] == Handler(c) ==> Handled(c) in extra
    ensures Tracked(pcs, queue[1..], running + extra + observed, trace + [e], c)
  {
  }

  lemma RanKeepsCleanup(f: Fields, pcs: map<Call, Pc>, accepted: Option<Accepted>, trace: seq<Event>, f': Fields, e: Event)
    requires CleanupInv(f, pcs, accepted, trace) && !f.completed && (e.Ran? || e.Finished?)
    requires f' == f.(queue := f'.queue, active := f'.active)
    ensures CleanupInv(f', pcs, accepted, trace + [e])
  {
    assert forall c: Call :: CleanedUp(c) in trace + [e] ==> CleanedUp(c) in trace;
  }

  lemma BegunKeepsOpen(s: State, extra: set<Work>, observed: set<Work>)
    requires Inv(s) && !s.f.completed && s.f.queue != [] && !s.f.queue[0].Close?
    requires extra == if s.f.queue[0].Handler? then {Handled(s.f.queue[0].call)} else {}
    requires observed !! s.tasks && forall w :: w in observed ==> w.Task?
    ensures Open(Begun(s, extra, observed))
  {
    BegunKeepsQueue(s, extra, observed);
    BegunKeepsWork(s, extra, observed);
    RanKeepsTrace(s.trace, Ran(s.f.queue[0]));
    RanKeepsCleanup(s.f, s.pcs, s.accepted, s.trace, Begun(s, extra, observed).f, Ran(s.f.queue[0]));
  }

  lemma BegunKeepsQueue(s: State, extra: set<Work>, observed: set<Work>)
    requires LogInv(s.log, s.f.queue, s.f.closing) && HandlerInv(s.pcs, s.f.queue, s.running)
    requires s.f.queue != [] && !s.f.queue[0].Close?
    requires extra == if s.f.queue[0].Handler? then {Handled(s.f.queue[0].call)} else {}
    requires forall w :: w in observed ==> w.Task?
    ensures var t := Begun(s, extra, observed);
            LogInv(t.log, t.f.queue, t.f.closing) && HandlerInv(t.pcs, t.f.queue, t.running)
  {
    PopKeepsLog(s.log, s.f.queue, s.f.closing);
    PopKeepsHandlers(s.pcs, s.f.queue, s.running, extra + observed, {});
    assert (s.running + (extra + observed)) - {} == s.running + extra + observed;
  }

  lemma BegunKeepsWork(s: State, extra: set<Work>, observed: set<Work>)
    requires HandlerInv(s.pcs, s.f.queue, s.running) && ActiveInv(s.f.active, s.running, s.tasks, s.trace)
    requires forall c :: c in s.admitted ==> Tracked(s.pcs, s.f.queue, s.running, s.trace, c)
    requires s.f.queue != []
    requires extra == if s.f.queue[0].Handler? then {Handled(s.f.queue[0].call)} else {}
    requires observed !! s.tasks && forall w :: w in observed ==> w.Task?
    ensures var t := Begun(s, extra, observed);
            && ActiveInv(t.f.active, t.running, t.tasks, t.trace)
            && (forall c :: c in t.admitted ==> Tracked(t.pcs, t.f.queue, t.running, t.trace, c))
  {
    var ran := Ran(s.f.queue[0]);
    RunKeepsActive(s.f.active, s.running, s.tasks, s.trace, extra, observed, ran);
    forall c | c in s.admitted
      ensures Tracked(s.pcs, s.f.queue[1..], s.running + extra + observed, s.trace + [ran], c)
    {
      RunKeepsTracked(s.pcs, s.f.queue, s.running, s.trace, extra, observed, ran, c);
    }
  }

  lemma EndedKeepsOpen(s: State, work: Work)
    requires Open(s) && work in s.running
    ensures Open(Ended(s, work))
  {
    var t := Ended(s, work);
    RanKeepsTrace(s.trace, Finished(work));
    forall c | c in s.admitted
      ensures Tracked(t.pcs, t.f.queue, t.running, t.trace, c)
    {
      assert Tracked(s.pcs, s.f.queue, s.running, s.trace, c);
    }
    RanKeepsCleanup(s.f, s.pcs, s.accepted, s.trace, t.f, Finished(work));
    assert |s.running - {work}| == |s.running| - 1;
  }

  lemma EndedThenCompleteKeepsInv(s: State, work: Work)
    requires Open(s) && work in s.running
    ensures Inv(Complete(Ended(s, work)))
  {
    EndedKeepsOpen(s, work);
    CompleteRestoresInv(Ended(s, work));
  }

  lemma HandlerTurnKeepsInv(s: State, call: Call, observed: set<Work>, finishes: bool)
    requires Inv(s) && Enabled(s, Turn(observed, finishes)) && s.f.queue[0] == Handler(call)
    ensures Inv(Turned(s, observed, finishes)) && !s.f.closing
  {
    OnlyContinuationsWhenClosing(s);
    var begun := Begun(s, {Handled(call)}, observed);
    BegunKeepsOpen(s, {Handled(call)}, observed);
    if finishes {
      EndedThenCompleteKeepsInv(begun, Handled(call));
    } else {
      assert !IsDrained(begun.f);
    }
  }

  lemma PostedTurnKeepsInv(s: State, observed: set<Work>, finishes: bool)
    requires Inv(s) && Enabled(s, Turn(observed, finishes)) && s.f.queue[0].Posted?
    ensures Inv(Turned(s, observed, finishes))
  {
    OnlyContinuationsWhenClosing(s);
    BegunKeepsOpen(s, {}, observed);
    assert !IsDrained(Begun(s, {}, observed).f);
  }

  lemma ContinuationTurnKeepsInv(s: State, work: Work, observed: set<Work>, finishes: bool)
    requires Inv(s) && Enabled(s, Turn(observed, finishes)) && s.f.queue[0] == Continuation(work) && !s.f.completed
    ensures Inv(Turned(s, observed, finishes))
  {
    var begun := Begun(s, {}, observed);
    BegunKeepsOpen(s, {}, observed);
    if finishes && work in s.running {
      EndedThenCompleteKeepsInv(begun, work);
    } else {
      assert !IsDrained(begun.f);
    }
  }

  lemma TurnKeepsInv(s: State, observed: set<Work>, finishes: bool)
    requires Inv(s) && Enabled(s, Turn(observed, finishes))
    ensures Inv(Turned(s, observed, finishes))
  {
    match s.f.queue[0]
    case Handler(call) => HandlerTurnKeepsInv(s, call, observed, finishes);
    case Posted(_) => PostedTurnKeepsInv(s, observed, finishes);
    case Continuation(work) =>
      if s.f.completed {
        DropKeepsInv(s, work);
      } else {
        ContinuationTurnKeepsInv(s, work, observed, finishes);
      }
    case Close => CloseKeepsInv(s);
  }

  lemma OnlyContinuationsWhenClosing(s: State)
    requires Inv(s) && s.f.queue != [] && !s.f.queue[0].Continuation?
    ensures !s.f.closing && !s.f.completed
  {
    if s.f.closing {
      ClosingLeavesContinuations(s.log, s.f.queue);
    }
  }

  lemma DropKeepsInv(s: State, work: Work)
    requires Inv(s) && s.f.completed && s.f.queue != [] && s.f.queue[0] == Continuation(work)
    ensures Inv(s.(f := s.f.(queue := s.f.queue[1..]), trace := s.trace + [Dropped(work)]))
  {
    PopKeepsLog(s.log, s.f.queue, s.f.closing);
    PopKeepsHandlers(s.pcs, s.f.queue, s.running, {}, {});
    assert (s.running + {}) - {} == s.running;
    DropKeepsTrace(s.trace, work);
    var trace := s.trace + [Dropped(work)];
    forall c | c in s.admitted
      ensures Tracked(s.pcs, s.f.queue[1..], s.running, trace, c)
    {
      assert Tracked(s.pcs, s.f.queue, s.running, s.trace, c);
    }
    assert forall c: Call :: CleanedUp(c) in trace <==> CleanedUp(c) in s.trace;
  }

  lemma CloseKeepsInv(s: State)
    requires Inv(s) && s.f.queue != [] && s.f.queue[0].Close?
    ensures Inv(Complete(s.(f := s.f.(queue := s.f.queue[1..], closing := true))))
  {
    OnlyContinuationsWhenClosing(s);
    var t := s.(f := s.f.(queue := s.f.queue[1..], closing := true));
    PopKeepsLog(s.log, s.f.queue, s.f.closing);
    PopKeepsHandlers(s.pcs, s.f.queue, s.running, {}, {});
    assert (s.running + {}) - {} == s.running;
    forall c | c in s.admitted
      ensures Tracked(s.pcs, t.f.queue, s.running, s.trace, c)
    {
      assert Tracked(s.pcs, s.f.queue, s.running, s.trace, c);
    }
    CompleteRestoresInv(t);
  }

  lemma StepKeepsInv(s: State, step: Step)
    requires Inv(s) && Enabled(s, step)
    ensures Inv(Do(s, step))
  {
    match step
    case Begin(call, pc) => BeginKeepsInv(s, call, pc);
    case Advance(call) => AdvanceKeepsInv(s, call);
    case PostContinuation(work) => PostKeepsInv(s, work);
    case Turn(observed, finishes) => TurnKeepsInv(s, observed, finishes);
  }

  /** Every state of every run, whatever the interleaving, satisfies the invariant. */
  lemma {:induction false} RunsKeepInv(states: seq<State>, steps: seq<Step>, n: nat)
    requires IsRun(states, steps) && n < |states|
    ensures Inv(states[n])
  {
    if n == 0 {
      assert InFlight(Init.pcs) == {};
    } else {
      RunsKeepInv(states, steps, n - 1);
      StepKeepsInv(states[n - 1], steps[n - 1]);
    }
  }

  // ----- What holds in every run

  /** No admitted call is refused: its insertion never fails and its handler never meets the closing test. */
  lemma AdmittedCallsAreServed(states: seq<State>, steps: seq<Step>, n: nat, call: Call)
    requires IsRun(states, steps) && n < |states|
    ensures InsertFailed(call) !in states[n].trace && Rejected(call) !in states[n].trace
    ensures call in states[n].admitted ==>
              Tracked(states[n].pcs, states[n].f.queue, states[n].running, states[n].trace, call)
  {
    RunsKeepInv(states, steps, n);
  }

  /** The close marker is inserted at most once, when no call is between admission and its decrement, and everything
      behind it is a continuation. */
  lemma MarkerFollowsEveryAdmittedItem(states: seq<State>, steps: seq<Step>, n: nat, k: nat)
    requires IsRun(states, steps) && n < |states|
    requires k < |states[n].log| && states[n].log[k] == Close
    ensures InFlight(states[n].pcs) == {} && states[n].f.admissions == MIN_VALUE
    ensures forall i :: 0 <= i < |states[n].log| && i != k ==> states[n].log[i] != Close
    ensures forall i :: k < i < |states[n].log| ==> states[n].log[i].Continuation?
  {
    RunsKeepInv(states, steps, n);
    assert Close in states[n].log;
  }

  /** Once a drain is accepted and every call has returned, the marker is in the log: no call leaves its duty undone. */
  lemma ReturnedCallsLeaveTheMarker(states: seq<State>, steps: seq<Step>, n: nat)
    requires IsRun(states, steps) && n < |states|
    requires states[n].accepted.Some?
    requires forall c :: c in states[n].pcs ==> Final(states[n].pcs[c])
    ensures Close in states[n].log
    ensures states[n].f.queue == [] && states[n].running == {} ==> states[n].f.completed
  {
    RunsKeepInv(states, steps, n);
    var s := states[n];
    assert InFlight(s.pcs) == {};
    assert forall c :: !Draining(s.pcs, c) && !OnDuty(s.pcs, c);
    assert s.f.admissions == MIN_VALUE;
    assert s.log[..|s.log|] == s.log;
  }

  /** The loop drains once, after all admitted handlers and observed tasks have finished. The winning call's cleanup runs
      immediately before, exactly once if it gave one, and only drops follow. */
  lemma DrainIsLast(states: seq<State>, steps: seq<Step>, n: nat, k: nat)
    requires IsRun(states, steps) && n < |states|
    requires k < |states[n].trace| && states[n].trace[k] == Drained
    ensures forall i :: k < i < |states[n].trace| ==> states[n].trace[i].Dropped?
    ensures forall c :: c in states[n].admitted ==> Finished(Handled(c)) in states[n].trace[..k]
    ensures forall w :: w in states[n].tasks ==> Finished(w) in states[n].trace[..k]
    ensures forall i :: 0 <= i < |states[n].trace| && states[n].trace[i].CleanedUp? ==> i == k - 1
    ensures states[n].accepted.Some?
    ensures states[n].accepted.value.cleanup <==> k > 0 && states[n].trace[k - 1] == CleanedUp(states[n].accepted.value.call)
  {
    RunsKeepInv(states, steps, n);
    var s := states[n];
    assert Drained in s.trace;
    NothingLeftWhenDrained(s);
    EventsBeforeMark(s.trace, k);
  }

  lemma NothingLeftWhenDrained(s: State)
    requires Inv(s) && s.f.completed
    ensures s.accepted.Some?
    ensures forall c :: c in s.admitted ==> Finished(Handled(c)) in s.trace
    ensures forall w :: w in s.tasks ==> Finished(w) in s.trace
  {
    assert Close in s.log;
    assert s.running == {};
    ClosingLeavesContinuations(s.log, s.f.queue);
    forall c | c in s.admitted
      ensures Finished(Handled(c)) in s.trace
    {
      assert Tracked(s.pcs, s.f.queue, s.running, s.trace, c);
      assert c in s.pcs && s.pcs[c] == Pc.Admitted(true) ==> c in InFlight(s.pcs);
    }
  }

  lemma EventsBeforeMark(trace: seq<Event>, k: nat)
    requires TraceInv(true, trace) && k < |trace| && trace[k] == Drained
    ensures forall e :: e in trace && e.Finished? ==> e in trace[..k]
    ensures forall i :: 0 <= i < |trace| && trace[i].CleanedUp? ==> i == k - 1
    ensures forall e :: e in trace && e.CleanedUp? ==> k > 0 && trace[k - 1] == e
  {
    forall i | 0 <= i < |trace| && trace[i].CleanedUp?
      ensures i == k - 1
    {
      assert trace[i + 1].Drained?;
    }
    forall e | e in trace && e.Finished?
      ensures e in trace[..k]
    {
      var i :| 0 <= i < |trace| && trace[i] == e;
      assert i < k;
      assert trace[..k][i] == e;
    }
  }

  /** Before the loop drains, no cleanup has run. */
  lemma NoCleanupBeforeDrain(states: seq<State>, steps: seq<Step>, n: nat, call: Call)
    requires IsRun(states, steps) && n < |states| && Drained !in states[n].trace
    ensures CleanedUp(call) !in states[n].trace
  {
    RunsKeepInv(states, steps, n);
  }
}
