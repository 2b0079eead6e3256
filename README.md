# Finex state machine, modelled in Dafny

Finex is a Godot add-on whose `FSM` node keeps a *stack* of states (index 0
is the current state) and a registry `StateMap` from names to states. The
host engine calls `_Input` once per input event, `_Process` once per frame
and `_PhysicsProcess` once per physics tick, and the FSM forwards each call
to the current state. States ask the FSM to
`ChangeState(name)` (overwrite the top), `PushState(name)` (insert a new top)
or `PopState()` (remove the top). Each of these calls `Exit` on the state that
was current, mutates the stack, and calls `Enter` on the state that is current
afterwards.

The project has three modules:

- `FsmSpec` (`fsm_spec.dfy`) is a value model. A `Machine` holds the stack,
  the registry and the trace of hook calls. Each operation is a function
  from the machine before to a `Step`: the machine after, plus an `Outcome`
  that is either `Done` or `Failed` with the exception the C# code raises.
  `Exec` runs a sequence of requests and stops at the first exception.
- `FsmProperties` (`fsm_properties.dfy`) proves lemmas about those
  functions. A push followed by a pop restores the stack. A run of requests
  that ends normally changes the depth by pushes minus pops. Every successful run keeps the
  hook trace in exit-before-enter pairs. A failed transition breaks that
  pairing.
- `Fsm` (`fsm.dfy`) is class `FSM`. It has fields `stack` and `stateMap` and
  a ghost `trace`. Its methods perform the same straight-line steps as the
  C# methods. The `CurrentState` getter and setter, the three transitions
  and the three dispatchers are each proved equal to the matching `FsmSpec`
  function. `Register`, the configuration write, exists only on the class.

States are opaque identities (`StateId`). A hook call only appends an
`Event` (`Enter`, `Exit`, `Input`, `Update`, `Physics`) to the trace.

Error paths are modelled as the code behaves, not excluded by
preconditions:

- Reading `CurrentState` on an empty stack raises `ArgumentOutOfRange`
  before any hook runs.
- `ChangeState`/`PushState` with an unknown name run `Exit`, then raise
  `KeyNotFound` with the stack unchanged.
- `PopState` on a one-element stack runs `Exit` and empties the stack. It
  then raises `ArgumentOutOfRange` when it reads `CurrentState` again,
  before any `Enter`.

### Behaviour of the code to note

- A failing transition is not atomic. `Exit` has already run when the
  lookup fails (finex/FSM.cs:101-102, 122-123), and on a one-element stack
  `PopState` removes the last state and then fails re-reading
  `CurrentState` (finex/FSM.cs:141-143), leaving the stack empty.
  `FsmProperties.FailedTransitionUnpairs` states the consequence for the
  hook trace.
- Nothing seeds the stack. `stateStack` starts empty and is private
  (finex/FSM.cs:6), the `CurrentState` setter is private (finex/FSM.cs:25),
  `Configure` only fills `StateMap` (finex/FSM.cs:58-67), and every
  operation that writes the list reads `stateStack[0]` first
  (finex/FSM.cs:101, 122, 141). So an FSM object as written raises
  `ArgumentOutOfRange` on every dispatch and every transition.
  `Fsm.FSM.Unseeded` is that object, and `FsmProperties.FromEmpty` proves
  that every run from an empty stack fails at its first request and
  changes nothing. The other constructor, which takes a non-empty initial
  stack, is a hypothetical seeding. It lets the model state what the
  transitions do once a state is current. Its trace starts empty, with no
  `Enter` for the initial state.
- finex/FSM.cs emits no lifecycle signals, so none are modelled.
- A doc comment on `ChangeState` says it removes the current state from
  `StateMap` (finex/FSM.cs:96). No operation writes the registry; every
  transition's contract says the map is unchanged.
- Names are looked up exactly as given, with no case normalisation.

## Model

| member | source | states |
|---|---|---|
| FsmSpec.WithTop | finex/FSM.cs:25 | Writing `CurrentState` keeps the stack length. Index 0 becomes the new state. Every other index, the registry and the trace are unchanged. |
| FsmSpec.ChangeState | finex/FSM.cs:99-104 | Empty stack: `ArgumentOutOfRange`, nothing changes. Unknown name: `KeyNotFound`, stack unchanged, trace gains only `Exit(top)`. Known name: same length, index 0 is `StateMap[name]`, indices 1.. unchanged, trace gains exactly `[Exit(oldTop), Enter(StateMap[name])]`, also when it names the current state. The registry never changes. |
| FsmSpec.PushState | finex/FSM.cs:120-125 | Empty stack: `ArgumentOutOfRange`, nothing changes. Unknown name: `KeyNotFound` after `Exit(top)`, stack unchanged. Known name: stack is `[StateMap[name]] + oldStack`, trace gains exactly `[Exit(oldTop), Enter(StateMap[name])]`. Registry unchanged. |
| FsmSpec.PopState | finex/FSM.cs:139-144 | Empty stack: `ArgumentOutOfRange`, nothing changes. One element: trace gains `Exit(top)`, stack becomes empty, then `ArgumentOutOfRange` with no `Enter`. Two or more: stack is `oldStack[1..]`, trace gains exactly `[Exit(oldStack[0]), Enter(oldStack[1])]`. Registry unchanged. |
| FsmSpec.Dispatch | finex/FSM.cs:74-87 | Each per-frame phase leaves the stack and registry unchanged. On a non-empty stack it appends exactly one per-frame event for `stack[0]`. On an empty stack it raises `ArgumentOutOfRange` and records nothing. |
| FsmSpec.Apply | finex/FSM.cs:74-144 | No request writes the registry. The trace only grows, by appending hook calls. |
| FsmSpec.Exec | finex/FSM.cs:74-144 | Over any sequence of requests, including ones ending in an exception, the registry is identical at the end and the old trace is a prefix of the new one. |
| FsmProperties.PushThenPop | finex/FSM.cs:120-144 | `PushState(n)` then `PopState()` both succeed and restore the original stack and registry. The trace gains `[Exit(top), Enter(n), Exit(n), Enter(top)]`, so the original top is entered again. |
| FsmProperties.PushPushPopPop | finex/FSM.cs:120-144 | Two pushes deepen the stack by one each. Two pops then return it to its original contents, and the last hook call is `Enter` on the original top. |
| FsmProperties.ChangeToCurrent | finex/FSM.cs:99-104 | A self-transition leaves the stack identical. It still records `Exit` and then `Enter` on the same state. |
| FsmProperties.ExecDepth | finex/FSM.cs:99-144 | A run that ends normally changes the stack depth by exactly the number of pushes minus the number of pops. |
| FsmProperties.ApplyKeepsHooksPaired | finex/FSM.cs:74-144 | Suppose the lifecycle events so far are exit/enter pairs leading from the origin state to the current top. Then any request that ends normally keeps this true, and the stack stays non-empty. |
| FsmProperties.ExecKeepsHooksPaired | finex/FSM.cs:74-144 | Exit before enter over a whole normal run: each transition exits exactly the state that was current, then enters exactly the state that becomes current. |
| FsmProperties.ExecFromSeedIsPaired | finex/FSM.cs:74-144 | From a seeded machine with an empty trace, a normal run leaves a non-empty stack. Its complete lifecycle trace is a chain of exit/enter pairs from the initial top to the final top. |
| FsmProperties.FailedTransitionUnpairs | finex/FSM.cs:99-144 | A transition that fails on a non-empty stack adds exactly one lifecycle event, `Exit(top)`. The lifecycle trace is then, for every state, not a chain of exit/enter pairs. |
| FsmProperties.JumpOntoWalk | finex/FSM.cs:61-144 | An example. The registry is {Idle, Walk, Run, Jump} and the stack is [Walk]. Pushing Jump gives stack [Jump, Walk] and trace [Exit(Walk), Enter(Jump)]. Popping gives [Walk] and adds [Exit(Jump), Enter(Walk)]. Changing to Run gives [Run] and adds [Exit(Walk), Enter(Run)]. All three steps end normally, and the registry never changes. |
| FsmProperties.FromEmpty | finex/FSM.cs:6-144 | On the empty stack the class starts with, every non-empty run fails at its first request with `ArgumentOutOfRange`. The stack, registry and trace are left exactly as they were. |
| Fsm.FSM.Unseeded | finex/FSM.cs:6-8 | The object as the field initialisers leave it: empty stack, empty `StateMap`, empty trace, not `Valid()`. |
| FsmProperties.PairedExtend | finex/FSM.cs:101-103 | Appending one transition's `[Exit(current), Enter(next)]` to a chain of pairs gives a chain ending at the next state. |
| Fsm.FSM.constructor | finex/FSM.cs:6-8 | A hypothetical seeding. The object starts with the given registry, the given non-empty stack and an empty trace. |
| Fsm.FSM.Register | finex/FSM.cs:45-49 | Configuration writes one registry entry, `StateMap[name] = state`, and touches neither the stack nor the trace. |
| Fsm.FSM.CurrentState | finex/FSM.cs:22-24 | The getter returns exactly `stack[0]`, or `ArgumentOutOfRange` when the stack is empty. This equals `FsmSpec.Top` of the object's state. |
| Fsm.FSM.SetCurrentState | finex/FSM.cs:25 | The setter overwrites index 0 and leaves every other entry of the stack unchanged. |
| Fsm.FSM.ChangeState | finex/FSM.cs:99-104 | The object's new state and outcome equal `FsmSpec.ChangeState` of its old state. The registry is unchanged, and a non-empty stack stays non-empty. |
| Fsm.FSM.PushState | finex/FSM.cs:120-125 | The object's new state and outcome equal `FsmSpec.PushState` of its old state. The registry is unchanged, and a non-empty stack stays non-empty. |
| Fsm.FSM.PopState | finex/FSM.cs:139-144 | The object's new state and outcome equal `FsmSpec.PopState` of its old state. The stack is non-empty afterwards exactly when it held at least two states before. |
| Fsm.FSM.HandleInput | finex/FSM.cs:74-77 | `_Input`: equals `FsmSpec.Dispatch` for the input phase. The stack and registry are unchanged. |
| Fsm.FSM.Process | finex/FSM.cs:79-82 | `_Process`: equals `FsmSpec.Dispatch` for the update phase. The stack and registry are unchanged. |
| Fsm.FSM.PhysicsProcess | finex/FSM.cs:84-87 | `_PhysicsProcess`: equals `FsmSpec.Dispatch` for the physics phase. The stack and registry are unchanged. |
| Fsm.JumpAndLand | finex/FSM.cs:99-144 | A client of the class. It pushes Jump onto [Idle] and pops it back, with the stated stacks and trace. Changing to an unknown name then fails with `KeyNotFound`. |

## Left out

- Godot plumbing is not modelled: `Node` inheritance, `_Ready` calling the abstract `Configure`, and `GetNode` discovery of states. Configuration appears only as `Register`, the indexer write that `Configure` implementations perform.
- The protected `StateMap` setter, which replaces the whole dictionary, is not modelled. No code in the core calls it.
- Other writes to the registry are not modelled: the public `StateMap` getter (finex/FSM.cs:45-47) hands out the live dictionary, so outside code could also `Remove` or `Clear` entries. Only the indexer write (`Register`) is modelled.
- Seeding the stack: no code in finex/FSM.cs can ever make the stack non-empty. The constructor that takes a non-empty initial stack is a hypothetical seeding, not something the C# class does. `Fsm.FSM.Unseeded` and `FsmProperties.FromEmpty` model the class as written.
- Null names and null states are not modelled: `StateMap[null]` raises ArgumentNullException, and a null registry entry raises NullReferenceException at `.Exit()`/`.Enter()`. Dafny strings and `StateId` values cannot be null.
- The `InputEvent` payload of `_Input` and the `double delta` of `_Process`/`_PhysicsProcess` are dropped. They are only forwarded, and `delta` is floating point.
- Hook bodies are user code behind virtual calls. The model records each call and gives it no other effect. Transitions requested reentrantly from inside a hook body are not modelled.
- Fsm.FSM.SetCurrentState: requires a non-empty stack rather than modelling the setter's own out-of-range exception. Its only caller, `ChangeState`, reaches it only after the getter has succeeded on the same stack.
- finex/IState.cs and finex/State.cs are not part of this model. They hold only the hook names (captured by `Event`) and unwired signal declarations.
- script_templates/State/DefaultState.cs, an editor template with empty bodies, is not part of this model.
- Lifecycle broadcasts (Entered/Exited/Changed/Pushed/Popped) are not modelled, because finex/FSM.cs emits none of them.
