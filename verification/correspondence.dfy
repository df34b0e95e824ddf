/**
 The two engines of the source carry separate copies of the same push, pop and
 input bodies. This module proves the copies agree: the enhanced engine, seen
 without its logic, makes exactly the vanilla engine's transitions and traces,
 and the vanilla engine is the enhanced one carrying a unit logic value.
 */
module Correspondence {
  import opened Lifecycle
  import P = StateEngine
  import E = EnhancedStateEngine

  /** The enhanced engine with its logic value dropped. */
  function Forget<T>(e: E.EnhancedEngine<T>): P.Engine {
    P.Engine(e.states)
  }

  /** The vanilla engine given a logic value. */
  function Attach<T>(e: P.Engine, logic: T): E.EnhancedEngine<T> {
    E.EnhancedEngine(logic, e.states)
  }

  /** One call agrees: same stack afterwards, same callbacks, logic untouched. */
  lemma ApplyAgrees<T>(e: E.EnhancedEngine<T>, c: Command)
    ensures Forget(E.Apply(e, c).after) == P.Apply(Forget(e), c).after
    ensures E.Apply(e, c).trace == P.Apply(Forget(e), c).trace
    ensures E.Apply(e, c).after.logic == e.logic
  {
  }

  /** Any sequence of calls agrees, and leaves the logic as it was. */
  lemma {:induction false} RunAgrees<T>(e: E.EnhancedEngine<T>, cmds: seq<Command>)
    ensures E.Run(e, cmds) == E.Step(Attach(P.Run(Forget(e), cmds).after, e.logic), P.Run(Forget(e), cmds).trace)
    decreases |cmds|
  {
    if cmds != [] {
      ApplyAgrees(e, cmds[0]);
      RunAgrees(E.Apply(e, cmds[0]).after, cmds[1..]);
    }
  }

  /** The vanilla engine is the enhanced engine over the unit type: running it
      and then attaching `()` is running the enhanced engine from `()`. */
  lemma PlainIsUnitEnhanced(e: P.Engine, cmds: seq<Command>)
    ensures Forget(E.Run(Attach(e, ()), cmds).after) == P.Run(e, cmds).after
    ensures E.Run(Attach(e, ()), cmds).trace == P.Run(e, cmds).trace
  {
    RunAgrees(Attach(e, ()), cmds);
  }

  /** With logic 0: push A, the caller sets the logic to 5 through `logic()`,
      push B; B is entered with A linked and the logic reads 5 afterwards. */
  lemma ScenarioSharedLogic()
    ensures E.Push(E.SetLogic(E.Push(E.WithLogic(0), 1).after, 5), 2).trace == [Call(2, Enter, [1])]
    ensures E.Logic(E.Push(E.SetLogic(E.Push(E.WithLogic(0), 1).after, 5), 2).after) == 5
  {
  }
}
