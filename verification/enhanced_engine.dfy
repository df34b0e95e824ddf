/**
 The enhanced state engine `mobius::enhanced_engine<logic_t>`: the same stack
 protocol as the vanilla engine, written out again as the source does, plus an
 owned `logic` value of a caller-chosen type that the states share.

 The engine's own operations never write `logic`; only a caller holding the
 reference `logic()` returns does, modelled by `SetLogic`.
 */
module EnhancedStateEngine {
  import opened Lifecycle

  datatype EnhancedEngine<T> = EnhancedEngine(logic: T, states: seq<StateId>)

  datatype Step<T> = Step(after: EnhancedEngine<T>, trace: Trace)

  /** `enhanced_engine(logic_object)`: the logic starts as the given value, the stack empty. */
  function WithLogic<T>(logicObject: T): (e: EnhancedEngine<T>)
    ensures Logic(e) == logicObject
    ensures Empty(e)
  {
    EnhancedEngine(logicObject, [])
  }

  /** `enhanced_engine() = default`: the stack is empty. The logic is whatever
      construction gives `logic_t`: its own default constructor for a class
      type, zero for a scalar under value-initialisation (as `make_shared`
      does), an indeterminate value under default-initialisation. The model
      leaves it unspecified to cover all three. */
  method NewDefault<T(0)>() returns (e: EnhancedEngine<T>)
    ensures Empty(e)
  {
    var logicObject: T := *;
    e := EnhancedEngine(logicObject, []);
  }

  /** `logic()`, read side: the value read is the engine's current one, so
      writing it straight back changes nothing. */
  function Logic<T>(e: EnhancedEngine<T>): (r: T)
    ensures SetLogic(e, r) == e
  {
    e.logic
  }

  /** A caller writing through the reference `logic()` returns: the value
      changes, the stack and every state on it do not. */
  function SetLogic<T>(e: EnhancedEngine<T>, v: T): (r: EnhancedEngine<T>)
    ensures r.logic == v
    ensures r.states == e.states
  {
    e.(logic := v)
  }

  function Top<T>(e: EnhancedEngine<T>): StateId
    requires |e.states| > 0
  {
    e.states[|e.states| - 1]
  }

  /** `push<state_t>()`: enter first, link on top after; logic untouched. */
  function Push<T>(e: EnhancedEngine<T>, id: StateId): (r: Step<T>)
    ensures Logic(r.after) == Logic(e)
    ensures |r.after.states| == |e.states| + 1
    ensures Top(r.after) == id
    ensures r.after.states[..|e.states|] == e.states
    ensures r.trace == [Call(id, Enter, e.states)]
  {
    var entered := Invoke([], e.states, id, Enter);
    var linked := e.(states := e.states + [id]);
    Step(linked, entered)
  }

  /** `pop()`: exit the linked top, unlink it, restore the new top if any; logic untouched. */
  function Pop<T>(e: EnhancedEngine<T>): (r: Step<T>)
    ensures Logic(r.after) == Logic(e)
    ensures e.states == [] ==> r.after == e && r.trace == []
    ensures e.states != [] ==> |r.after.states| == |e.states| - 1
    ensures e.states != [] ==> e.states == r.after.states + [Top(e)]
    ensures |e.states| == 1 ==> r.trace == [Call(Top(e), Exit, e.states)]
    ensures |e.states| >= 2 ==>
              r.trace == [Call(Top(e), Exit, e.states), Call(Top(r.after), Restore, r.after.states)]
  {
    if e.states == [] then
      Step(e, [])
    else
      var exited := Invoke([], e.states, Top(e), Exit);
      var unlinked := e.(states := e.states[..|e.states| - 1]);
      if unlinked.states == [] then
        Step(unlinked, exited)
      else
        Step(unlinked, Invoke(exited, unlinked.states, Top(unlinked), Restore))
  }

  /** `handle_input(ch)`: forward the event, unchanged, to the active state only. */
  function HandleInput<T>(e: EnhancedEngine<T>, ch: Int32): (r: Step<T>)
    ensures r.after == e
    ensures r.trace == [] <==> e.states == []
    ensures forall k :: 0 <= k < |r.trace| ==> r.trace[k] == Call(Top(e), Input(ch), e.states)
    ensures |r.trace| <= 1
  {
    if e.states == [] then Step(e, [])
    else Step(e, Invoke([], e.states, Top(e), Input(ch)))
  }

  /** `empty()`: holds exactly when no state is active (this class has no `size()`). */
  function Empty<T>(e: EnhancedEngine<T>): (b: bool)
    ensures b <==> |e.states| == 0
    ensures b <==> !exists id :: IsTop(e.states, id)
  {
    assert e.states != [] ==> IsTop(e.states, Top(e));
    e.states == []
  }

  function Apply<T>(e: EnhancedEngine<T>, c: Command): Step<T> {
    match c
    case PushState(id) => Push(e, id)
    case PopState => Pop(e)
    case Dispatch(ch) => HandleInput(e, ch)
  }

  function Run<T>(e: EnhancedEngine<T>, cmds: seq<Command>): Step<T>
    decreases |cmds|
  {
    if cmds == [] then
      Step(e, [])
    else
      var first := Apply(e, cmds[0]);
      var rest := Run(first.after, cmds[1..]);
      Step(rest.after, first.trace + rest.trace)
  }

  /** No sequence of push, pop and input calls changes the shared logic value. */
  lemma {:induction false} RunKeepsLogic<T>(e: EnhancedEngine<T>, cmds: seq<Command>)
    ensures Logic(Run(e, cmds).after) == Logic(e)
    decreases |cmds|
  {
    if cmds != [] {
      RunKeepsLogic(Apply(e, cmds[0]).after, cmds[1..]);
    }
  }
}
