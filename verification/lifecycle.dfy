/**
 The vocabulary shared by both state engines: identities of state objects,
 the four lifecycle callbacks an engine invokes on a state, the record of one
 such invocation, and the calls a driver makes on an engine.

 A trace of invocations is given a reference meaning here (`Replay`,
 `Coherent`): reading the trace alone tells how the stack evolved and what
 every callback could observe of it.
 */
module Lifecycle {

  /** The C++ `int` an input event is carried in: a 32-bit signed value. */
  newtype Int32 = x: int | -0x8000_0000 <= x < 0x8000_0000

  /** Identity of one state object, the one `push` creates with `make_unique`. */
  type StateId = nat

  /** The lifecycle callbacks of a state. `Input` carries the forwarded event. */
  datatype Hook = Enter | Exit | Restore | Input(ch: Int32)

  /** One callback invocation: `hook` is called on `target` while the engine's
      stack is `seen` — what the state would observe if it queried its engine
      from inside the callback. */
  datatype Call = Call(target: StateId, hook: Hook, seen: seq<StateId>)

  type Trace = seq<Call>

  /** The operations a driver (or a state, through its back-reference) calls. */
  datatype Command = PushState(id: StateId) | PopState | Dispatch(ch: Int32)

  /** `id` is the active (topmost) state of `s`. */
  predicate IsTop(s: seq<StateId>, id: StateId) {
    |s| > 0 && s[|s| - 1] == id
  }

  /** No state object occurs twice on the stack. */
  predicate Distinct(s: seq<StateId>) {
    forall i, j :: 0 <= i < j < |s| ==> s[i] != s[j]
  }

  /** Appends to `t` the invocation of `hook` on `target` while the stack is `stack`. */
  function Invoke(t: Trace, stack: seq<StateId>, target: StateId, hook: Hook): Trace {
    t + [Call(target, hook, stack)]
  }

  /** Every callback other than `Enter` reaches the active state of the stack it
      runs against. `Enter` is not constrained here: that the entered state is a
      new object is a hypothesis (`Protocol.FreshPushes`), not a trace property. */
  predicate Addressed(c: Call) {
    if c.hook.Enter? then true else IsTop(c.seen, c.target)
  }

  predicate AllAddressed(t: Trace) {
    forall k :: 0 <= k < |t| ==> Addressed(t[k])
  }

  /** What one invocation says about the stack once it has returned: the entered
      state is now linked on top, the exited state is now gone, and restoring or
      handling input leaves the stack as it was. */
  function Effect(s: seq<StateId>, c: Call): seq<StateId> {
    match c.hook
    case Enter => s + [c.target]
    case Exit => if |s| > 0 then s[..|s| - 1] else s
    case Restore => s
    case Input(_) => s
  }

  /** The stack reconstructed from `s` and a trace alone. */
  function Replay(s: seq<StateId>, t: Trace): seq<StateId>
    decreases |t|
  {
    if t == [] then s else Replay(Effect(s, t[0]), t[1..])
  }

  /** Every invocation in `t` observes exactly the stack that the invocations
      before it leave behind, starting from `s`. */
  predicate Coherent(s: seq<StateId>, t: Trace)
    decreases |t|
  {
    t == [] || (t[0].seen == s && Coherent(Effect(s, t[0]), t[1..]))
  }

  /** The number of invocations of a given kind in a trace. */
  function Entered(t: Trace): nat
    decreases |t|
  {
    if t == [] then 0 else (if t[0].hook.Enter? then 1 else 0) + Entered(t[1..])
  }

  function Exited(t: Trace): nat
    decreases |t|
  {
    if t == [] then 0 else (if t[0].hook.Exit? then 1 else 0) + Exited(t[1..])
  }

  function Pushes(cmds: seq<Command>): nat
    decreases |cmds|
  {
    if cmds == [] then 0 else (if cmds[0].PushState? then 1 else 0) + Pushes(cmds[1..])
  }

  function Pops(cmds: seq<Command>): nat
    decreases |cmds|
  {
    if cmds == [] then 0 else (if cmds[0].PopState? then 1 else 0) + Pops(cmds[1..])
  }

  /** Replaying a concatenation replays its parts one after the other. */
  lemma {:induction false} ReplayAppend(s: seq<StateId>, t1: Trace, t2: Trace)
    ensures Replay(s, t1 + t2) == Replay(Replay(s, t1), t2)
    decreases |t1|
  {
    if t1 == [] {
      assert t1 + t2 == t2;
    } else {
      assert (t1 + t2)[1..] == t1[1..] + t2;
      ReplayAppend(Effect(s, t1[0]), t1[1..], t2);
    }
  }

  /** A concatenation is coherent exactly when its first part is, and its second
      part is from where the first part leaves the stack. */
  lemma {:induction false} CoherentAppend(s: seq<StateId>, t1: Trace, t2: Trace)
    ensures Coherent(s, t1 + t2) <==> Coherent(s, t1) && Coherent(Replay(s, t1), t2)
    decreases |t1|
  {
    if t1 == [] {
      assert t1 + t2 == t2;
    } else {
      assert (t1 + t2)[0] == t1[0];
      assert (t1 + t2)[1..] == t1[1..] + t2;
      CoherentAppend(Effect(s, t1[0]), t1[1..], t2);
    }
  }

  lemma {:induction false} EnteredAppend(t1: Trace, t2: Trace)
    ensures Entered(t1 + t2) == Entered(t1) + Entered(t2)
    ensures Exited(t1 + t2) == Exited(t1) + Exited(t2)
    decreases |t1|
  {
    if t1 == [] {
      assert t1 + t2 == t2;
    } else {
      assert (t1 + t2)[0] == t1[0];
      assert (t1 + t2)[1..] == t1[1..] + t2;
      EnteredAppend(t1[1..], t2);
    }
  }
}
