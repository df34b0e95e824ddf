/**
 The vanilla state engine `mobius::engine`: an ordered stack of state objects,
 the last one active, and the lifecycle protocol its operations drive.

 Every operation is a pure transition returning the new engine together with
 the trace of callbacks it invoked, in order. Each callback is recorded with
 the stack as it stands at the moment of the call, so the order in which the
 source calls a state and links or unlinks it is part of the result.
 */
module StateEngine {
  import opened Lifecycle

  datatype Engine = Engine(states: seq<StateId>)

  /** The outcome of one operation: the engine afterwards and the callbacks invoked. */
  datatype Step = Step(after: Engine, trace: Trace)

  /** The implicitly defaulted constructor: `states_` starts as an empty vector. */
  function Initial(): (e: Engine)
    ensures Empty(e)
    ensures Size(e) == 0
  {
    Engine([])
  }

  /** The active state; only meaningful on a non-empty stack. */
  function Top(e: Engine): StateId
    requires |e.states| > 0
  {
    e.states[|e.states| - 1]
  }

  /** `push<state_t>()`: the new state is entered first and linked on top after. */
  function Push(e: Engine, id: StateId): (r: Step)
    ensures |r.after.states| == |e.states| + 1
    ensures Top(r.after) == id
    ensures r.after.states[..|e.states|] == e.states
    ensures r.trace == [Call(id, Enter, e.states)]
  {
    var entered := Invoke([], e.states, id, Enter);
    var linked := Engine(e.states + [id]);
    Step(linked, entered)
  }

  /** `pop()`: exit the top while it is still linked, unlink it, then restore
      the state that became active, if there is one. */
  function Pop(e: Engine): (r: Step)
    ensures e.states == [] ==> r.after == e && r.trace == []
    ensures e.states != [] ==> |r.after.states| == |e.states| - 1
    ensures e.states != [] ==> e.states == r.after.states + [Top(e)]
    ensures |e.states| == 1 ==> r.trace == [Call(Top(e), Exit, e.states)]
    ensures |e.states| >= 2 ==>
              r.trace == [Call(Top(e), Exit, e.states), Call(Top(r.after), Restore, r.after.states)]
  {
    if e.states == [] then
      Step(e, [])
    else
      var exited := Invoke([], e.states, Top(e), Exit);
      var unlinked := Engine(e.states[..|e.states| - 1]);
      if unlinked.states == [] then
        Step(unlinked, exited)
      else
        Step(unlinked, Invoke(exited, unlinked.states, Top(unlinked), Restore))
  }

  /** `handle_input(ch)`: forward the event, unchanged, to the active state only. */
  function HandleInput(e: Engine, ch: Int32): (r: Step)
    ensures r.after == e
    ensures r.trace == [] <==> e.states == []
    ensures forall k :: 0 <= k < |r.trace| ==> r.trace[k] == Call(Top(e), Input(ch), e.states)
    ensures |r.trace| <= 1
  {
    if e.states == [] then Step(e, [])
    else Step(e, Invoke([], e.states, Top(e), Input(ch)))
  }

  /** `size()`: the number of states held; it is positive exactly when some
      state is active. */
  function Size(e: Engine): (n: nat)
    ensures n == |e.states|
    ensures n > 0 <==> exists id :: IsTop(e.states, id)
  {
    assert e.states != [] ==> IsTop(e.states, Top(e));
    |e.states|
  }

  /** `empty()`: holds exactly when the depth is zero, that is, when no state is active. */
  function Empty(e: Engine): (b: bool)
    ensures b <==> Size(e) == 0
    ensures b <==> !exists id :: IsTop(e.states, id)
  {
    assert e.states != [] ==> IsTop(e.states, Top(e));
    e.states == []
  }

  /** One driver call. */
  function Apply(e: Engine, c: Command): Step {
    match c
    case PushState(id) => Push(e, id)
    case PopState => Pop(e)
    case Dispatch(ch) => HandleInput(e, ch)
  }

  /** A sequence of driver calls, the traces concatenated in order. */
  function Run(e: Engine, cmds: seq<Command>): Step
    decreases |cmds|
  {
    if cmds == [] then
      Step(e, [])
    else
      var first := Apply(e, cmds[0]);
      var rest := Run(first.after, cmds[1..]);
      Step(rest.after, first.trace + rest.trace)
  }
}
