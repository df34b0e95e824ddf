/**
 Properties of the vanilla engine over whole sequences of driver calls: the
 trace it produces explains the stack (replaying the trace rebuilds it, and
 every callback observes exactly the replayed stack), only active states are
 ever called, depth is pushes minus effective pops, and stacks of distinct
 state objects stay distinct.
 */
module Protocol {
  import opened Lifecycle
  import opened StateEngine

  /** The trace of `t`, run from stack `s`, accounts for the stack `after`. */
  predicate Explains(s: seq<StateId>, t: Trace, after: seq<StateId>) {
    && Coherent(s, t)
    && AllAddressed(t)
    && Replay(s, t) == after
  }

  /** A trace of one call explains the stack it leaves behind when that call
      observes the stack it starts from. */
  lemma OneCall(s: seq<StateId>, c: Call)
    requires c.seen == s
    ensures Coherent(s, [c])
    ensures Replay(s, [c]) == Effect(s, c)
    ensures Entered([c]) == (if c.hook.Enter? then 1 else 0)
    ensures Exited([c]) == (if c.hook.Exit? then 1 else 0)
  {
  }

  /** A pop that leaves a state to restore: exit, then restore, explain the removal. */
  lemma PopRestoreExplained(e: Engine)
    requires |e.states| >= 2
    ensures Explains(e.states, Pop(e).trace, Pop(e).after.states)
    ensures Entered(Pop(e).trace) == 0
    ensures Exited(Pop(e).trace) == 1
  {
    var r := Pop(e);
    var below := r.after.states;
    var exit := Call(Top(e), Exit, e.states);
    var restore := Call(Top(r.after), Restore, below);
    assert r.trace == [exit] + [restore];
    OneCall(e.states, exit);
    assert Effect(e.states, exit) == below;
    OneCall(below, restore);
    CoherentAppend(e.states, [exit], [restore]);
    ReplayAppend(e.states, [exit], [restore]);
    EnteredAppend([exit], [restore]);
  }

  lemma PopExplained(e: Engine)
    ensures Explains(e.states, Pop(e).trace, Pop(e).after.states)
    ensures Entered(Pop(e).trace) == 0
    ensures Exited(Pop(e).trace) == if e.states != [] then 1 else 0
  {
    if |e.states| == 1 {
      OneCall(e.states, Pop(e).trace[0]);
    } else if |e.states| >= 2 {
      PopRestoreExplained(e);
    }
  }

  /** Each single call is explained by its own trace, and enters or exits as many
      states as it pushes or effectively pops. */
  lemma StepExplained(e: Engine, c: Command)
    ensures Explains(e.states, Apply(e, c).trace, Apply(e, c).after.states)
    ensures Entered(Apply(e, c).trace) == if c.PushState? then 1 else 0
    ensures Exited(Apply(e, c).trace) == if c.PopState? && e.states != [] then 1 else 0
  {
    var r := Apply(e, c);
    match c
    case PushState(id) =>
      OneCall(e.states, r.trace[0]);
    case PopState =>
      PopExplained(e);
    case Dispatch(ch) =>
      if e.states != [] {
        OneCall(e.states, r.trace[0]);
      }
  }

  /** Whatever the driver does, the concatenated trace explains the final stack. */
  lemma {:induction false} RunExplained(e: Engine, cmds: seq<Command>)
    ensures Explains(e.states, Run(e, cmds).trace, Run(e, cmds).after.states)
    decreases |cmds|
  {
    if cmds != [] {
      var first := Apply(e, cmds[0]);
      var rest := Run(first.after, cmds[1..]);
      StepExplained(e, cmds[0]);
      RunExplained(first.after, cmds[1..]);
      CoherentAppend(e.states, first.trace, rest.trace);
      ReplayAppend(e.states, first.trace, rest.trace);
      forall k | 0 <= k < |first.trace + rest.trace|
        ensures Addressed((first.trace + rest.trace)[k])
      {
        if k >= |first.trace| {
          assert (first.trace + rest.trace)[k] == rest.trace[k - |first.trace|];
        }
      }
    }
  }

  /** Depth accounting: after any sequence of calls the depth is the initial
      depth plus the states entered minus the states exited; every push enters
      exactly one state, and a pop exits at most one, so exits never outnumber
      what was there plus what was entered. */
  lemma {:induction false} RunDepth(e: Engine, cmds: seq<Command>)
    ensures Size(Run(e, cmds).after) + Exited(Run(e, cmds).trace) == Size(e) + Entered(Run(e, cmds).trace)
    ensures Entered(Run(e, cmds).trace) == Pushes(cmds)
    ensures Exited(Run(e, cmds).trace) <= Pops(cmds)
    decreases |cmds|
  {
    if cmds != [] {
      var first := Apply(e, cmds[0]);
      var rest := Run(first.after, cmds[1..]);
      StepExplained(e, cmds[0]);
      RunDepth(first.after, cmds[1..]);
      EnteredAppend(first.trace, rest.trace);
    }
  }

  /** The pops in `cmds` that find a non-empty stack when run from `e`. */
  function EffectivePops(e: Engine, cmds: seq<Command>): nat
    decreases |cmds|
  {
    if cmds == [] then 0
    else
      (if cmds[0].PopState? && e.states != [] then 1 else 0)
      + EffectivePops(Apply(e, cmds[0]).after, cmds[1..])
  }

  /** The depth law in full: exactly the effective pops exit a state, and the
      final depth is the initial depth plus the pushes minus the effective pops. */
  lemma {:induction false} RunDepthExact(e: Engine, cmds: seq<Command>)
    ensures Exited(Run(e, cmds).trace) == EffectivePops(e, cmds)
    ensures Size(Run(e, cmds).after) == Size(e) + Pushes(cmds) - EffectivePops(e, cmds)
    decreases |cmds|
  {
    RunDepth(e, cmds);
    if cmds != [] {
      var first := Apply(e, cmds[0]);
      var rest := Run(first.after, cmds[1..]);
      StepExplained(e, cmds[0]);
      RunDepthExact(first.after, cmds[1..]);
      EnteredAppend(first.trace, rest.trace);
    }
  }

  /** A pop directly after a push gives back the engine as it was: the pushed
      state is entered, then exited while still on top, and the previously
      active state, if any, is restored. */
  lemma PushThenPop(e: Engine, id: StateId)
    ensures Pop(Push(e, id).after).after == e
    ensures Push(e, id).trace + Pop(Push(e, id).after).trace ==
              [Call(id, Enter, e.states), Call(id, Exit, e.states + [id])]
              + (if e.states == [] then [] else [Call(Top(e), Restore, e.states)])
  {
  }

  /** `push` calls nothing but the new state: no state already on the stack,
      in particular none below the new top, is called. */
  lemma PushCallsOnlyNewState(e: Engine, id: StateId)
    requires id !in e.states
    ensures forall k, i :: 0 <= k < |Push(e, id).trace| && 0 <= i < |e.states| ==>
              Push(e, id).trace[k].target != e.states[i]
  {
  }

  /** `pop` calls only the removed state and the one that becomes active; the
      states below those two are not called. */
  lemma PopSparesSuspended(e: Engine)
    requires Distinct(e.states)
    ensures forall k, i :: 0 <= k < |Pop(e).trace| && 0 <= i < |e.states| - 2 ==>
              Pop(e).trace[k].target != e.states[i]
  {
  }

  /** `handle_input` reaches the active state only, never a suspended one. */
  lemma InputSparesSuspended(e: Engine, ch: Int32)
    requires Distinct(e.states)
    ensures forall k, i :: 0 <= k < |HandleInput(e, ch).trace| && 0 <= i < |e.states| - 1 ==>
              HandleInput(e, ch).trace[k].target != e.states[i]
  {
  }

  /** Every state the driver pushes is a new object: not on the starting stack
      and not pushed twice. */
  predicate FreshPushes(s: seq<StateId>, cmds: seq<Command>) {
    && (forall i :: 0 <= i < |cmds| && cmds[i].PushState? ==> cmds[i].id !in s)
    && (forall i, j :: 0 <= i < j < |cmds| && cmds[i].PushState? && cmds[j].PushState? ==>
          cmds[i].id != cmds[j].id)
  }

  /** A step links no state but the one it pushes. */
  lemma StepLinksOnlyPushed(e: Engine, c: Command)
    ensures forall x :: x in Apply(e, c).after.states ==>
              x in e.states || (c.PushState? && x == c.id)
  {
  }

  /** Pushing new objects keeps every state on the stack distinct. */
  lemma {:induction false} RunKeepsDistinct(e: Engine, cmds: seq<Command>)
    requires Distinct(e.states)
    requires FreshPushes(e.states, cmds)
    ensures Distinct(Run(e, cmds).after.states)
    decreases |cmds|
  {
    if cmds != [] {
      var first := Apply(e, cmds[0]);
      var s := first.after.states;
      StepLinksOnlyPushed(e, cmds[0]);
      match cmds[0] {
        case PushState(id) =>
          assert id !in e.states;
          assert s == e.states + [id];
        case PopState =>
          if e.states != [] {
            assert e.states == s + [Top(e)];
            assert forall i :: 0 <= i < |s| ==> s[i] == e.states[i];
          }
        case Dispatch(_) =>
      }
      assert Distinct(s);
      forall i | 0 <= i < |cmds[1..]| && cmds[1..][i].PushState?
        ensures cmds[1..][i].id !in s
      {
        assert cmds[1..][i] == cmds[i + 1];
        assert cmds[i + 1].id !in e.states;
        if cmds[0].PushState? {
          assert cmds[0].id != cmds[i + 1].id;
        }
      }
      assert FreshPushes(s, cmds[1..]);
      RunKeepsDistinct(first.after, cmds[1..]);
    }
  }

  /** Push A, push B, pop: A entered, B entered (still seeing only A linked),
      B exited while on top, A restored once B is gone; one state remains. */
  lemma ScenarioPushPushPop()
    ensures Run(Initial(), [PushState(1), PushState(2), PopState]).trace ==
              [Call(1, Enter, []), Call(2, Enter, [1]), Call(2, Exit, [1, 2]), Call(1, Restore, [1])]
    ensures Size(Run(Initial(), [PushState(1), PushState(2), PopState]).after) == 1
  {
    var cmds := [PushState(1), PushState(2), PopState];
    var e1 := Engine([1]);
    var e2 := Engine([1, 2]);
    var popped := Pop(e2);
    assert e2.states[..1] == [1];
    assert popped.after == e1;
    assert popped.trace == [Call(2, Exit, [1, 2]), Call(1, Restore, [1])];
    assert [PopState][1..] == [];
    assert Run(e2, [PopState]) == popped;
    assert Push(e1, 2).after == e2;
    assert [PushState(2), PopState][1..] == [PopState];
    assert Run(e1, [PushState(2), PopState]) == Step(e1, [Call(2, Enter, [1])] + popped.trace);
    assert Push(Initial(), 1).after == e1;
    assert cmds[1..] == [PushState(2), PopState];
    assert Run(Initial(), cmds) == Step(e1, [Call(1, Enter, [])] + ([Call(2, Enter, [1])] + popped.trace));
  }

  /** On an empty engine, a pop and an input event call nothing and change nothing. */
  lemma ScenarioEmptyEngine()
    ensures Run(Initial(), [PopState, Dispatch(5)]) == Step(Initial(), [])
  {
  }
}
