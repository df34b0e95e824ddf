# Mobius state engine, modelled in Dafny

Mobius is a header-only C++ state-stack engine. An engine owns an ordered
stack of state objects. The last one pushed is the active state. The engine
drives a lifecycle protocol around that stack:

- `push` creates a state, calls its `enter()`, and links it on top.
- `pop` calls `exit()` on the top, unlinks it, and calls `restore()` on the
  state that becomes active, if there is one.
- `handle_input(ch)` forwards an event to the active state only.
- `size()` and `empty()` observe the stack.

There are two engine classes. `mobius::engine` is the plain one.
`mobius::enhanced_engine<logic_t>` repeats the same bodies and also owns a
`logic_t` value that its states share through `logic()`.

The model is functional. A stack is a `seq<StateId>`. Each operation is a pure
transition that returns the new engine and the trace of callbacks it invoked.
Each trace entry (`Lifecycle.Call`) records three things: the state called,
the callback, and the stack as it stood during the call. So the order in
which the code calls a state and links or unlinks it is part of the result.

Modules:

- `Lifecycle` (lifecycle.dfy): state identities, callbacks, driver commands,
  and the reference meaning of a trace. `Replay` rebuilds a stack from a trace
  alone. `Coherent` says each call observed exactly the replayed stack.
- `StateEngine` (state_engine.dfy): `mobius::engine`.
- `EnhancedStateEngine` (enhanced_engine.dfy): `mobius::enhanced_engine<logic_t>`,
  generic over `T`. Its push, pop and input bodies are written separately, as
  in the source.
- `Protocol` (protocol.dfy): properties of the plain engine over whole
  sequences of calls.
- `Correspondence` (correspondence.dfy): the enhanced engine agrees with the
  plain one, and the plain one is the enhanced one with unit logic.

Because `enter()` (include/state_engine.hpp:28) runs before `push_back` (:30),
and likewise :93 before :95, a state cannot see itself on the stack from
inside `enter()`. While a state is being entered, the state below it is still
the top. `Protocol.ScenarioPushPushPop` shows this: B's `Enter` observes `[1]`,
not `[1, 2]`.

## Model

| member | source | states |
|---|---|---|
| StateEngine.Push | include/state_engine.hpp:24-31 | the stack grows by exactly one, the new state is the top, the states below are unchanged, and the only callback is one `Enter` on the new state, which observes the pre-push stack |
| StateEngine.Pop | include/state_engine.hpp:33-45 | on an empty stack nothing changes and nothing is called; otherwise exactly the last state is removed and the prefix is kept; the trace is `Exit` on the old top (observing it still linked), then `Restore` on the new top (observing the shortened stack) exactly when one remains |
| StateEngine.HandleInput | include/state_engine.hpp:47-53 | the stack never changes; on a non-empty stack the only call is `Input(ch)` on the top, with `ch` unmodified; on an empty stack nothing is called |
| StateEngine.Initial | include/state_engine.hpp:17-20 | the implicitly defaulted constructor leaves `states_` empty: `empty()` holds and `size()` is zero |
| StateEngine.Size | include/state_engine.hpp:55-58 | `size()` is the number of states held; it is positive exactly when some state is active (the active state being, by definition, the last one held). What the depth is after a sequence of calls is stated by `Protocol.RunDepth` |
| StateEngine.Empty | include/state_engine.hpp:55-63 | `empty()` holds exactly when `size()` is zero, and exactly when no state is active |
| Protocol.OneCall | include/state_engine.hpp:28-51 | a single callback that observes the current stack is a coherent trace, and replaying it applies that callback's effect on the stack; this is the step for the enter at :28, the exit at :37, the restore at :42 and the input at :51 |
| Protocol.PopRestoreExplained | include/state_engine.hpp:37-43 | a pop that leaves a state to restore: exit-then-restore is coherent, replays to the shortened stack, and exits exactly one state |
| Protocol.PopExplained | include/state_engine.hpp:33-45 | every pop's trace is coherent, addressed to active states, replays to the new stack, enters nothing, and exits one state exactly when the stack was non-empty |
| Protocol.StepExplained | include/state_engine.hpp:24-53 | for each single operation: the trace explains the new stack, every non-`Enter` call goes to the active state, and the Enter/Exit counts match the push or effective pop |
| Protocol.RunExplained | include/state_engine.hpp:24-53 | for any sequence of push/pop/input calls, replaying the trace alone rebuilds the final stack, every callback observes exactly the stack the calls before it left, and only active states receive exit, restore and input |
| Protocol.RunDepth | include/state_engine.hpp:24-58 | after any sequence of calls, size = initial size + states entered − states exited; states entered = number of pushes; states exited ≤ number of pops |
| Protocol.RunDepthExact | include/state_engine.hpp:24-58 | after any sequence of calls, the states exited are exactly the pops that found a non-empty stack, and size = initial size + pushes − those effective pops |
| Protocol.PushThenPop | include/state_engine.hpp:24-45 | `pop` undoes `push`: the engine is as before, and the combined trace is Enter(new), Exit(new) and then Restore on the old top when there is one |
| Protocol.PushCallsOnlyNewState | include/state_engine.hpp:24-31 | a push of a new object calls no state already on the stack |
| Protocol.PopSparesSuspended | include/state_engine.hpp:33-45 | on a stack of distinct states, a pop calls no state below the removed one and the one it restores |
| Protocol.InputSparesSuspended | include/state_engine.hpp:47-53 | on a stack of distinct states, input reaches no suspended state |
| Protocol.StepLinksOnlyPushed | include/state_engine.hpp:24-45 | no operation links any state except the one it pushes |
| Protocol.RunKeepsDistinct | include/state_engine.hpp:26-38 | if every pushed state is a new object (as `make_unique` creates), the stack never holds the same state twice |
| Protocol.ScenarioPushPushPop | include/state_engine.hpp:24-45 | push A, push B, pop gives the calls A.enter, B.enter, B.exit, A.restore, and size 1 |
| Protocol.ScenarioEmptyEngine | include/state_engine.hpp:33-53 | on an empty engine, pop and then input 5 call nothing and leave the engine empty |
| EnhancedStateEngine.WithLogic | include/state_engine.hpp:79-81 | the constructor taking a logic object makes `logic()` that object and starts with an empty stack |
| EnhancedStateEngine.NewDefault | include/state_engine.hpp:76 | the default constructor starts with an empty stack |
| EnhancedStateEngine.Logic | include/state_engine.hpp:83-86 | the read side of `logic()`: the value read is the engine's current logic, so writing it straight back leaves the engine unchanged |
| EnhancedStateEngine.SetLogic | include/state_engine.hpp:83-86 | a caller writing through the `logic()` reference changes the logic value and nothing on the stack |
| EnhancedStateEngine.Push | include/state_engine.hpp:88-96 | same as the plain push, and the logic value is unchanged |
| EnhancedStateEngine.Pop | include/state_engine.hpp:98-110 | same as the plain pop, and the logic value is unchanged |
| EnhancedStateEngine.HandleInput | include/state_engine.hpp:112-118 | same as the plain input dispatch; the engine, logic included, is unchanged |
| EnhancedStateEngine.Empty | include/state_engine.hpp:120-123 | `empty()` holds exactly when the stack has no states, and exactly when no state is active |
| EnhancedStateEngine.RunKeepsLogic | include/state_engine.hpp:88-118 | no sequence of push, pop and input calls changes the logic value |
| Correspondence.ApplyAgrees | include/state_engine.hpp:88-118 | one enhanced call, with the logic dropped, gives the plain engine's new stack and trace, and keeps the logic |
| Correspondence.RunAgrees | include/state_engine.hpp:88-118 | any sequence of enhanced calls gives exactly the plain engine's stack and trace, with the original logic attached |
| Correspondence.PlainIsUnitEnhanced | include/state_engine.hpp:17-64 | the plain engine behaves as the enhanced engine carrying a unit logic value |
| Correspondence.ScenarioSharedLogic | include/state_engine.hpp:79-96 | with logic 0: push A, the caller sets logic to 5, push B; B's `Enter` sees A linked, and `logic()` reads 5 |

## Left out

- `std::enable_shared_from_this`, `shared_from_this()` and `std::unique_ptr` ownership (include/state_engine.hpp:17, 26, 69, 91): these are C++ memory management. A pushed state is represented by a `StateId`, chosen by the caller.
- What concrete states do in `enter`, `exit`, `restore` and `handle_input`: `state.hpp` is not part of this model. Callbacks are opaque, and the model only records them in the trace.
- Exceptions: the model assumes that allocation, the back-reference and every state callback return normally, so every operation completes. The source behaves as follows when one of them throws:
  - Line 26 can throw in three ways: `shared_from_this()` throws `std::bad_weak_ptr` (since C++17) when no `shared_ptr` owns the engine, allocation can fail, or the state's constructor can throw. In each case no complete state object exists, `enter()` (:28) is never called, and the stack is unchanged.
  - A throwing `enter()` (:28) skips the `push_back` at :30. The stack is unchanged, and the new state, already constructed, is destroyed with `state_ptr` without ever being linked.
  - A throwing `exit()` (:37) skips the `pop_back` at :38, so the top stays linked.
  - A throwing `restore()` (:42) leaves the pop already done.
  - The enhanced engine behaves the same way at :91-107.
- Reentrant `push` or `pop` from inside a state's callback: the model's callbacks are opaque and only recorded, so they cannot call back into the engine, and every operation is atomic. In the source, such calls are well-defined in some cases and not in others:
  - A pop from inside the active state's `handle_input` (:51) destroys the object that is still running.
  - A push from inside `enter()` is well-defined. `state_ptr` still owns the entering state (:26-28), and the nested push links its child at :30 before the outer :30 runs. So the entering state ends up *above* the child it pushed.
  - A pop from inside `enter()` is well-defined too. It exits and removes the state that was already active, not the one being entered, which is not yet linked.
  - The last two both follow from the enter-before-link order described above.
- The compile-time `enable_if_t<is_base_of_v<...>>` constraint on `push`: it is a type-level check with no runtime behaviour.
- Destruction: the destructors are defaulted, so teardown calls no `exit()`. The model has no teardown transition.
- States mutating `logic_t` through the reference from inside a callback: that is aliasing. Only a caller-side write (`SetLogic`) between operations is modelled.
- EnhancedStateEngine.NewDefault: states nothing about the logic value. What `enhanced_engine() = default` gives `logic_` depends on how the engine is created and on `logic_t`. Value-initialisation (as `std::make_shared<enhanced_engine<int>>()` does) zero-initialises a scalar. Plain default-initialisation leaves a scalar indeterminate. A class type runs its own default constructor. The model leaves the value arbitrary so that it covers all three.
- `size()` returns `std::size_t`. The model uses an unbounded `nat`, because a stack of 2^64 states cannot exist.
