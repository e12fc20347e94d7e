/**
 A bounded pool of execution slots. Callers that find no slot wait; a finished caller wakes every waiter, and each looks
 again. The sections of Use between its awaits are the steps, in any order, of any number of callers.
 */
module ExecutionSlots {
  import opened Sequences

  /** What the object keeps: how many slots are taken, the listed waiters by their callers, and which of them have been
      signalled. */
  datatype Slots = Slots(active: nat, waiters: seq<nat>, signalled: set<nat>)

  datatype Outcome = Entered | Waits | Refused

  function Without(s: seq<nat>, caller: nat): (r: seq<nat>)
    ensures caller in s ==> |r| == |s| - 1
    ensures forall c :: c in r ==> c in s
  {
    if s == [] then [] else if s[0] == caller then s[1..] else [s[0]] + Without(s[1..], caller)
  }

  /** From the loop's test to the next await, or to a refusal. */
  function Tried(limit: nat, s: Slots, caller: nat, cancelled: bool): (Slots, Outcome) {
    if cancelled then (s, Refused)
    else if s.active >= limit then (Slots(s.active, s.waiters + [caller], s.signalled - {caller}), Waits)
    else (s.(active := s.active + 1), Entered)
  }

  /** After a wait: the waiter is taken off the list, and the loop tests again. */
  function Woken(limit: nat, s: Slots, caller: nat, cancelled: bool): (Slots, Outcome) {
    Tried(limit, s.(waiters := Without(s.waiters, caller)), caller, cancelled)
  }

  /** A finished action gives up its slot and signals every waiter. */
  function Finished(s: Slots): Slots
    requires s.active > 0
  {
    Slots(s.active - 1, s.waiters, s.signalled + set c | c in s.waiters)
  }

  class Pool {
    const limit: nat
    var active: nat
    var waiters: seq<nat>
    var signalled: set<nat>

    constructor (limit: nat)
      ensures this.limit == limit && Value() == Slots(0, [], {})
    {
      this.limit := limit;
      active, waiters, signalled := 0, [], {};
    }

    function Value(): Slots
      reads this
    {
      Slots(active, waiters, signalled)
    }

    method Try(caller: nat, cancelled: bool) returns (outcome: Outcome)
      modifies this
      ensures (Value(), outcome) == Tried(limit, old(Value()), caller, cancelled)
    {
      if active >= limit {
        if cancelled { return Refused; }
        waiters := waiters + [caller];
        signalled := signalled - {caller};
        return Waits;
      }
      if cancelled { return Refused; }
      active := active + 1;
      return Entered;
    }

    method Wake(caller: nat, cancelled: bool) returns (outcome: Outcome)
      modifies this
      ensures (Value(), outcome) == Woken(limit, old(Value()), caller, cancelled)
    {
      waiters := Without(waiters, caller);
      outcome := Try(caller, cancelled);
    }

    method Finish()
      requires active > 0
      modifies this
      ensures Value() == Finished(old(Value()))
    {
      active := active - 1;
      for i := 0 to |waiters|
        invariant active == old(active) - 1 && waiters == old(waiters)
        invariant signalled == old(signalled) + set c | c in waiters[..i]
      {
        assert waiters[..i + 1] == waiters[..i] + [waiters[i]];
        signalled := signalled + {waiters[i]};
      }
      assert waiters[..|waiters|] == waiters;
    }
  }

  // ----- Runs

  /** The pool, the callers inside their actions, those waiting, and those whose tokens are cancelled. */
  datatype State = State(slots: Slots, inside: set<nat>, waiting: set<nat>, cancelled: set<nat>)

  datatype Step = Calls(caller: nat) | Cancels(caller: nat) | Wakes(caller: nat) | Leaves(caller: nat)

  predicate CanDo(s: State, step: Step) {
    match step
    case Calls(c) => c !in s.inside && c !in s.waiting
    case Cancels(_) => true
    case Wakes(c) => c in s.waiting && c in s.slots.signalled
    case Leaves(c) => c in s.inside && s.slots.active > 0
  }

  function Placed(s: State, caller: nat, slots: Slots, outcome: Outcome): State {
    State(slots,
          s.inside + (if outcome.Entered? then {caller} else {}),
          (s.waiting - {caller}) + (if outcome.Waits? then {caller} else {}),
          s.cancelled)
  }

  function Do(limit: nat, s: State, step: Step): State
    requires CanDo(s, step)
  {
    match step
    case Calls(c) => var (slots, outcome) := Tried(limit, s.slots, c, c in s.cancelled); Placed(s, c, slots, outcome)
    case Cancels(c) =>
      State(if c in s.waiting then s.slots.(signalled := s.slots.signalled + {c}) else s.slots, s.inside, s.waiting,
            s.cancelled + {c})
    case Wakes(c) => var (slots, outcome) := Woken(limit, s.slots, c, c in s.cancelled); Placed(s, c, slots, outcome)
    case Leaves(c) => State(Finished(s.slots), s.inside - {c}, s.waiting, s.cancelled)
  }

  const START := State(Slots(0, [], {}), {}, {}, {})

  predicate IsRun(limit: nat, states: seq<State>, steps: seq<Step>) {
    && |states| == |steps| + 1 && states[0] == START
    && forall i :: 0 <= i < |steps| ==> CanDo(states[i], steps[i]) && states[i + 1] == Do(limit, states[i], steps[i])
  }

  ghost predicate Inv(limit: nat, s: State) {
    && s.slots.active == |s.inside| <= limit
    && NoDuplicates(s.slots.waiters) && (forall c :: c in s.slots.waiters <==> c in s.waiting)
    && s.inside !! s.waiting
    && (s.slots.active < limit ==> forall c :: c in s.waiting ==> c in s.slots.signalled)
    && (forall c :: c in s.waiting && c in s.cancelled ==> c in s.slots.signalled)
  }

  lemma {:induction false} WithoutRemoves(s: seq<nat>, caller: nat)
    requires NoDuplicates(s)
    ensures NoDuplicates(Without(s, caller))
    ensures forall c :: c in Without(s, caller) <==> c in s && c != caller
  {
    if s != [] {
      assert s == [s[0]] + s[1..];
      if s[0] == caller {
        assert forall i :: 0 < i < |s| ==> s[i] != caller;
      } else {
        var rest := Without(s[1..], caller);
        WithoutRemoves(s[1..], caller);
        forall i | 0 <= i < |rest|
          ensures rest[i] != s[0]
        {
          assert rest[i] in rest;
          assert rest[i] in s[1..];
        }
      }
    }
  }

  lemma {:induction false} WaitsKeepsInv(limit: nat, s: State, c: nat)
    requires Inv(limit, s) && c !in s.inside && c !in s.waiting && c !in s.cancelled && s.slots.active >= limit
    ensures Inv(limit, State(Slots(s.slots.active, s.slots.waiters + [c], s.slots.signalled - {c}), s.inside,
                             s.waiting + {c}, s.cancelled))
  {
    assert forall d :: d in s.slots.waiters + [c] <==> d in s.slots.waiters || d == c;
  }

  lemma {:induction false} EntersKeepsInv(limit: nat, s: State, c: nat)
    requires Inv(limit, s) && c !in s.inside && c !in s.waiting && s.slots.active < limit
    ensures Inv(limit, State(s.slots.(active := s.slots.active + 1), s.inside + {c}, s.waiting, s.cancelled))
  {
  }

  lemma {:induction false} TriedKeepsInv(limit: nat, s: State, c: nat)
    requires Inv(limit, s) && c !in s.inside && c !in s.waiting
    ensures var (slots, outcome) := Tried(limit, s.slots, c, c in s.cancelled); Inv(limit, Placed(s, c, slots, outcome))
  {
    assert s.waiting - {c} == s.waiting && s.waiting + {} == s.waiting && s.inside + {} == s.inside;
    if c !in s.cancelled {
      if s.slots.active >= limit {
        WaitsKeepsInv(limit, s, c);
      } else {
        EntersKeepsInv(limit, s, c);
      }
    }
  }

  lemma {:induction false} LeavesKeepsInv(limit: nat, s: State, c: nat)
    requires Inv(limit, s) && c in s.inside
    ensures s.slots.active > 0 && Inv(limit, Do(limit, s, Leaves(c)))
  {
    assert s.inside == (s.inside - {c}) + {c};
  }

  lemma {:induction false} StepKeepsInv(limit: nat, s: State, step: Step)
    requires Inv(limit, s) && CanDo(s, step)
    ensures Inv(limit, Do(limit, s, step))
  {
    match step
    case Calls(c) => TriedKeepsInv(limit, s, c);
    case Cancels(_) =>
    case Wakes(c) =>
      WithoutRemoves(s.slots.waiters, c);
      var left := State(s.slots.(waiters := Without(s.slots.waiters, c)), s.inside, s.waiting - {c}, s.cancelled);
      TriedKeepsInv(limit, left, c);
      assert left.waiting - {c} == left.waiting;
    case Leaves(c) => LeavesKeepsInv(limit, s, c);
  }

  /** In every run, the taken slots are the callers inside and never more than the limit, and whenever a slot is free every
      listed waiter has been signalled: no wakeup is lost. */
  lemma {:induction false} RunsKeepInv(limit: nat, states: seq<State>, steps: seq<Step>)
    requires IsRun(limit, states, steps)
    ensures var s := states[|steps|];
      && Inv(limit, s) && s.slots.active == |s.inside| <= limit
      && (s.slots.active < limit ==> forall c :: c in s.slots.waiters ==> c in s.slots.signalled)
    decreases |steps|
  {
    if steps != [] {
      var n := |steps| - 1;
      assert IsRun(limit, states[..n + 1], steps[..n]);
      RunsKeepInv(limit, states[..n + 1], steps[..n]);
      StepKeepsInv(limit, states[n], steps[n]);
    }
  }

  lemma {:induction false} RefusedLeaves(s: State, c: nat, slots: Slots)
    requires c !in s.inside && slots.active == s.slots.active && c !in slots.waiters
    ensures var t := Placed(s, c, slots, Refused);
      t.slots.active == s.slots.active && t.inside == s.inside && c !in t.waiting && c !in t.slots.waiters
  {
  }

  /** A caller whose token is cancelled takes no slot: whether it calls or wakes, it leaves the slots as they are and waits
      no more. */
  lemma {:induction false} CancelledTakesNoSlot(limit: nat, s: State, step: Step)
    requires Inv(limit, s) && CanDo(s, step) && (step.Calls? || step.Wakes?) && step.caller in s.cancelled
    ensures var t := Do(limit, s, step);
      && t.slots.active == s.slots.active && t.inside == s.inside && step.caller !in t.waiting
      && step.caller !in t.slots.waiters
  {
    var c := step.caller;
    WithoutRemoves(s.slots.waiters, c);
    if step.Calls? {
      RefusedLeaves(s, c, s.slots);
    } else {
      RefusedLeaves(s, c, s.slots.(waiters := Without(s.slots.waiters, c)));
    }
  }

  /** A waiter that wakes while a slot is free takes it, and one that wakes too late waits again. */
  lemma {:induction false} WakingTakesFreeSlot(limit: nat, s: State, c: nat)
    requires Inv(limit, s) && c in s.waiting && c !in s.cancelled
    requires s.slots.active < limit || c in s.slots.signalled
    ensures CanDo(s, Wakes(c))
    ensures var t := Do(limit, s, Wakes(c));
      if s.slots.active < limit then c in t.inside && t.slots.active == s.slots.active + 1
      else c in t.waiting && c in t.slots.waiters && t.slots.active == s.slots.active
  {
  }
}
