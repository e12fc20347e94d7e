/**
 RepositoryService.Serialize: operations with one key run one at a time, in arrival order. An operation is registered under
 its key, waits for the one registered before it however that ends, runs, and releases its key if it is still the last.
 */
module SerialQueue {
  import opened Utf16
  import opened Wrappers

  datatype Phase = Queued | Running | Settled(failed: bool)

  /** An operation, by arrival: its key, the operation it waits for, how far it is, and whether its caller has finished. */
  datatype Operation = Operation(key: Text, previous: Option<nat>, phase: Phase, released: bool)

  class Creating {
    var creating: map<Text, nat>

    constructor ()
      ensures creating == map[]
    {
      creating := map[];
    }

    /** Registers an operation under its key and gives the one it has to wait for. */
    method Register(key: Text, operation: nat) returns (previous: Option<nat>)
      modifies this
      ensures previous == Registered(old(creating), key) && creating == old(creating)[key := operation]
    {
      previous := if key in creating then Some(creating[key]) else None;
      creating := creating[key := operation];
    }

    /** Releases the key, unless a later operation has taken it. */
    method Release(key: Text, operation: nat)
      modifies this
      ensures creating == Released(old(creating), key, operation)
    {
      if key in creating && creating[key] == operation { creating := creating - {key}; }
    }
  }

  function Registered(creating: map<Text, nat>, key: Text): Option<nat> {
    if key in creating then Some(creating[key]) else None
  }

  function Released(creating: map<Text, nat>, key: Text, operation: nat): map<Text, nat> {
    if key in creating && creating[key] == operation then creating - {key} else creating
  }

  // ----- Runs

  datatype State = State(creating: map<Text, nat>, operations: seq<Operation>)

  datatype Step = Calls(key: Text) | Starts(operation: nat) | Settles(operation: nat, failed: bool) | Releases(operation: nat)

  predicate IsSettled(s: State, i: nat)
    requires i < |s.operations|
  {
    s.operations[i].phase.Settled?
  }

  /** An operation starts once the one before it has settled, in failure or not. */
  predicate MayStart(s: State, i: nat) {
    && i < |s.operations| && s.operations[i].phase.Queued?
    && match s.operations[i].previous
       case None => true
       case Some(p) => p < |s.operations| && IsSettled(s, p)
  }

  predicate CanDo(s: State, step: Step) {
    match step
    case Calls(_) => true
    case Starts(i) => MayStart(s, i)
    case Settles(i, _) => i < |s.operations| && s.operations[i].phase.Running?
    case Releases(i) => i < |s.operations| && IsSettled(s, i) && !s.operations[i].released
  }

  function Do(s: State, step: Step): State
    requires CanDo(s, step)
  {
    match step
    case Calls(key) =>
      State(s.creating[key := |s.operations|],
            s.operations + [Operation(key, Registered(s.creating, key), Queued, false)])
    case Starts(i) => s.(operations := s.operations[i := s.operations[i].(phase := Running)])
    case Settles(i, failed) => s.(operations := s.operations[i := s.operations[i].(phase := Settled(failed))])
    case Releases(i) =>
      State(Released(s.creating, s.operations[i].key, i), s.operations[i := s.operations[i].(released := true)])
  }

  predicate IsRun(states: seq<State>, steps: seq<Step>) {
    && |states| == |steps| + 1 && states[0] == State(map[], [])
    && forall i :: 0 <= i < |steps| ==> CanDo(states[i], steps[i]) && states[i + 1] == Do(states[i], steps[i])
  }

  predicate SameKey(s: State, i: nat, j: nat)
    requires i < |s.operations| && j < |s.operations|
  {
    s.operations[i].key == s.operations[j].key
  }

  /** Of two operations with one key, the later one leaves its queue only after the earlier one has settled; and it waits
      for the earlier one or for one after it, or for none when the earlier one had settled. */
  predicate PairOk(operations: seq<Operation>, i: nat, j: nat) {
    i < j < |operations| && operations[i].key == operations[j].key ==>
      && (!operations[j].phase.Queued? ==> operations[i].phase.Settled?)
      && match operations[j].previous
         case None => operations[i].phase.Settled?
         case Some(p) => i <= p
  }

  /** An operation waits for an earlier one of its key. */
  predicate PreviousOk(operations: seq<Operation>, j: nat) {
    j < |operations| && operations[j].previous.Some? ==>
      var p := operations[j].previous.value; p < j && operations[p].key == operations[j].key
  }

  /** The map holds the last operation of a key, and a key it lacks has only settled operations. */
  predicate KeyOk(creating: map<Text, nat>, operations: seq<Operation>, i: nat) {
    i < |operations| ==>
      if operations[i].key in creating then i <= creating[operations[i].key] else operations[i].phase.Settled?
  }

  /** What the map holds for a key is an operation of that key whose caller has not finished. */
  predicate EntryOk(creating: map<Text, nat>, operations: seq<Operation>, key: Text) {
    key in creating ==>
      creating[key] < |operations| && operations[creating[key]].key == key && !operations[creating[key]].released
  }

  ghost predicate Inv(s: State) {
    && (forall i: nat, j: nat :: PairOk(s.operations, i, j))
    && (forall j: nat :: PreviousOk(s.operations, j))
    && (forall i: nat :: KeyOk(s.creating, s.operations, i))
    && (forall key :: EntryOk(s.creating, s.operations, key))
  }

  lemma {:induction false} CallKeepsInv(s: State, key: Text)
    requires Inv(s)
    ensures Inv(Do(s, Calls(key)))
  {
    var t, n := Do(s, Calls(key)), |s.operations|;
    assert EntryOk(s.creating, s.operations, key);
    forall i: nat, j: nat
      ensures PairOk(t.operations, i, j)
    {
      assert PairOk(s.operations, i, j) && KeyOk(s.creating, s.operations, i);
    }
    forall j: nat
      ensures PreviousOk(t.operations, j)
    {
      assert PreviousOk(s.operations, j);
    }
    forall i: nat
      ensures KeyOk(t.creating, t.operations, i)
    {
      assert KeyOk(s.creating, s.operations, i);
    }
    forall k
      ensures EntryOk(t.creating, t.operations, k)
    {
      assert EntryOk(s.creating, s.operations, k);
    }
  }

  /** The next phase of an operation, and nothing else. */
  function Moved(operations: seq<Operation>, i: nat, phase: Phase): seq<Operation>
    requires i < |operations|
  {
    operations[i := operations[i].(phase := phase)]
  }

  lemma {:induction false} MoveKeepsRest(s: State, n: nat, phase: Phase)
    requires Inv(s) && n < |s.operations| && !s.operations[n].phase.Settled?
    ensures var operations := Moved(s.operations, n, phase);
      && (forall j: nat :: PreviousOk(operations, j))
      && (forall i: nat :: KeyOk(s.creating, operations, i))
      && (forall key :: EntryOk(s.creating, operations, key))
  {
    var operations := Moved(s.operations, n, phase);
    forall j: nat
      ensures PreviousOk(operations, j)
    {
      assert PreviousOk(s.operations, j);
    }
    forall i: nat
      ensures KeyOk(s.creating, operations, i)
    {
      assert KeyOk(s.creating, s.operations, i);
    }
    forall key
      ensures EntryOk(s.creating, operations, key)
    {
      assert EntryOk(s.creating, s.operations, key);
    }
  }

  /** An operation that may start has every earlier one of its key settled. */
  lemma {:induction false} MayStartInTurn(s: State, i: nat, j: nat)
    requires Inv(s) && MayStart(s, j) && i < j && SameKey(s, i, j)
    ensures IsSettled(s, i)
  {
    assert PairOk(s.operations, i, j) && PreviousOk(s.operations, j);
    if s.operations[j].previous.Some? {
      assert PairOk(s.operations, i, s.operations[j].previous.value);
    }
  }

  lemma {:induction false} StartKeepsInv(s: State, n: nat)
    requires Inv(s) && CanDo(s, Starts(n))
    ensures Inv(Do(s, Starts(n)))
  {
    var operations := Moved(s.operations, n, Running);
    MoveKeepsRest(s, n, Running);
    forall i: nat, j: nat
      ensures PairOk(operations, i, j)
    {
      assert PairOk(s.operations, i, j);
      if i < j == n && SameKey(s, i, j) {
        MayStartInTurn(s, i, j);
      }
    }
  }

  lemma {:induction false} SettleKeepsInv(s: State, n: nat, failed: bool)
    requires Inv(s) && CanDo(s, Settles(n, failed))
    ensures Inv(Do(s, Settles(n, failed)))
  {
    var operations := Moved(s.operations, n, Settled(failed));
    MoveKeepsRest(s, n, Settled(failed));
    forall i: nat, j: nat
      ensures PairOk(operations, i, j)
    {
      assert PairOk(s.operations, i, j);
    }
  }

  lemma {:induction false} ReleaseKeepsInv(s: State, n: nat)
    requires Inv(s) && CanDo(s, Releases(n))
    ensures Inv(Do(s, Releases(n)))
  {
    var t := Do(s, Releases(n));
    forall i: nat, j: nat
      ensures PairOk(t.operations, i, j)
    {
      assert PairOk(s.operations, i, j);
    }
    forall j: nat
      ensures PreviousOk(t.operations, j)
    {
      assert PreviousOk(s.operations, j);
    }
    forall i: nat
      ensures KeyOk(t.creating, t.operations, i)
    {
      assert KeyOk(s.creating, s.operations, i) && PairOk(s.operations, i, n);
    }
    forall key
      ensures EntryOk(t.creating, t.operations, key)
    {
      assert EntryOk(s.creating, s.operations, key);
    }
  }

  lemma {:induction false} StepKeepsInv(s: State, step: Step)
    requires Inv(s) && CanDo(s, step)
    ensures Inv(Do(s, step))
  {
    match step
    case Calls(key) => CallKeepsInv(s, key);
    case Starts(j) => StartKeepsInv(s, j);
    case Settles(j, failed) => SettleKeepsInv(s, j, failed);
    case Releases(j) => ReleaseKeepsInv(s, j);
  }

  lemma {:induction false} RunKeepsInv(states: seq<State>, steps: seq<Step>)
    requires IsRun(states, steps)
    ensures Inv(states[|steps|])
    decreases |steps|
  {
    if steps != [] {
      var n := |steps| - 1;
      assert IsRun(states[..n + 1], steps[..n]);
      RunKeepsInv(states[..n + 1], steps[..n]);
      StepKeepsInv(states[n], steps[n]);
    }
  }

  /** In every run, when an operation runs or has settled, every earlier operation of its key has settled: at most one of a
      key runs at a time, and they start in arrival order. */
  lemma {:induction false} OneAtATimeInOrder(states: seq<State>, steps: seq<Step>, i: nat, j: nat)
    requires IsRun(states, steps)
    requires var s := states[|steps|]; i < j < |s.operations| && SameKey(s, i, j)
    ensures var s := states[|steps|];
      && (!s.operations[j].phase.Queued? ==> IsSettled(s, i))
      && !(s.operations[i].phase.Running? && s.operations[j].phase.Running?)
  {
    RunKeepsInv(states, steps);
    assert PairOk(states[|steps|].operations, i, j);
  }

  /** In every run, a key that the map lacks has only settled operations. */
  lemma {:induction false} AbsentKeyIsIdle(states: seq<State>, steps: seq<Step>, i: nat)
    requires IsRun(states, steps) && i < |states[|steps|].operations|
    requires states[|steps|].operations[i].key !in states[|steps|].creating
    ensures IsSettled(states[|steps|], i)
  {
    RunKeepsInv(states, steps);
    assert KeyOk(states[|steps|].creating, states[|steps|].operations, i);
  }

  /** In every run, the first operation of a key that has not settled is running or may start, whether those before it
      failed or not. */
  lemma {:induction false} NeverBlocked(states: seq<State>, steps: seq<Step>, j: nat)
    requires IsRun(states, steps) && j < |states[|steps|].operations| && !IsSettled(states[|steps|], j)
    requires var s := states[|steps|]; forall i :: 0 <= i < j && SameKey(s, i, j) ==> IsSettled(s, i)
    ensures states[|steps|].operations[j].phase.Running? || MayStart(states[|steps|], j)
  {
    RunKeepsInv(states, steps);
    var s := states[|steps|];
    assert PreviousOk(s.operations, j);
    match s.operations[j].previous
    case None =>
      if !s.operations[j].phase.Running? {
        assert MayStart(s, j);
      }
    case Some(p) => assert SameKey(s, p, j);
  }

  /** In every run, once every caller has finished, the map is empty. */
  lemma {:induction false} MapEmpties(states: seq<State>, steps: seq<Step>)
    requires IsRun(states, steps)
    requires forall i :: 0 <= i < |states[|steps|].operations| ==> states[|steps|].operations[i].released
    ensures states[|steps|].creating == map[]
  {
    RunKeepsInv(states, steps);
    var s := states[|steps|];
    forall key
      ensures key !in s.creating
    {
      assert EntryOk(s.creating, s.operations, key);
    }
    assert s.creating == map[];
  }
}
