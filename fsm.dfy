/**
  The FSM class of finex/FSM.cs: a transition stack and a registry that its
  methods update in place, each transition being a straight-line sequence of
  an Exit hook call, one mutation of the stack and an Enter hook call. Hook
  calls are recorded in the ghost `trace`. The getter, the setter, the
  transitions and the dispatchers are proved equal to the corresponding
  functions of FsmSpec, so the lemmas of FsmProperties apply to the object;
  Register exists only on the class.
 */
module Fsm {
  import opened FsmSpec

  class FSM {
    /** stateStack: index 0 is the current state. */
    var stack: seq<StateId>
    /** StateMap: state names to state objects. */
    var stateMap: map<string, StateId>
    /** The hook calls made so far, in order. */
    ghost var trace: seq<Event>

    ghost function Snapshot(): (m: Machine)
      reads this
    {
      Machine(stack, stateMap, trace)
    }

    /** The stack holds a current state. */
    ghost predicate Valid()
      reads this
    {
      |stack| > 0
    }

    /**
      The object as the C# field initialisers leave it: an empty stack and an
      empty StateMap. By FsmProperties.FromEmpty every dispatch and every
      transition on it fails until something seeds the stack, and nothing in
      the class can.
     */
    constructor Unseeded()
      ensures stack == [] && stateMap == map[] && trace == []
      ensures !Valid()
    {
      stack := [];
      stateMap := map[];
      trace := [];
    }

    /**
      A hypothetical seeding: the caller supplies a non-empty initial stack,
      which the C# class has no way to obtain, since its stack and the
      CurrentState setter are private and every writer reads stack[0] first.
     */
    constructor (registry: map<string, StateId>, initial: seq<StateId>)
      requires |initial| > 0
      ensures Valid()
      ensures stack == initial && stateMap == registry && trace == []
    {
      stack := initial;
      stateMap := registry;
      trace := [];
    }

    /** Inserting or overwriting one entry of StateMap, as Configure does. */
    method Register(name: string, state: StateId)
      modifies this
      ensures stateMap == old(stateMap)[name := state]
      ensures stack == old(stack) && trace == old(trace)
    {
      stateMap := stateMap[name := state];
    }

    /** The CurrentState getter: exactly stack[0], or an exception on an empty stack. */
    function CurrentState(): (r: Result<StateId>)
      reads this
      ensures r.Ok? <==> |stack| > 0
      ensures r.Ok? ==> r.value == stack[0]
      ensures r.Err? ==> r.fault == ArgumentOutOfRange
      ensures r == Top(Snapshot())
    {
      if |stack| == 0 then Err(ArgumentOutOfRange) else Ok(stack[0])
    }

    /** The CurrentState setter: overwrites index 0 and no other entry. */
    method SetCurrentState(state: StateId)
      requires |stack| > 0
      modifies this
      ensures Snapshot() == WithTop(old(Snapshot()), state)
      ensures |stack| == |old(stack)| && stack[0] == state && stack[1..] == old(stack)[1..]
    {
      stack := stack[0 := state];
    }

    /** `CurrentState.Enter()`. */
    method EnterCurrent() returns (outcome: Outcome)
      modifies this
      ensures Step(Snapshot(), outcome) == EnterTop(old(Snapshot()))
    {
      var top := CurrentState();
      if top.Err? {
        return Failed(top.fault);
      }
      trace := trace + [Enter(top.value)];
      return Done;
    }

    method ChangeState(newState: string) returns (outcome: Outcome)
      modifies this
      ensures Step(Snapshot(), outcome) == FsmSpec.ChangeState(old(Snapshot()), newState)
      ensures stateMap == old(stateMap)
      ensures old(Valid()) ==> Valid()
    {
      var top := CurrentState();
      if top.Err? {
        return Failed(top.fault);
      }
      trace := trace + [Exit(top.value)];
      if newState !in stateMap {
        return Failed(KeyNotFound(newState));
      }
      SetCurrentState(stateMap[newState]);
      outcome := EnterCurrent();
    }

    method PushState(newState: string) returns (outcome: Outcome)
      modifies this
      ensures Step(Snapshot(), outcome) == FsmSpec.PushState(old(Snapshot()), newState)
      ensures stateMap == old(stateMap)
      ensures old(Valid()) ==> Valid()
    {
      var top := CurrentState();
      if top.Err? {
        return Failed(top.fault);
      }
      trace := trace + [Exit(top.value)];
      if newState !in stateMap {
        return Failed(KeyNotFound(newState));
      }
      stack := [stateMap[newState]] + stack;
      outcome := EnterCurrent();
    }

    method PopState() returns (outcome: Outcome)
      modifies this
      ensures Step(Snapshot(), outcome) == FsmSpec.PopState(old(Snapshot()))
      ensures stateMap == old(stateMap)
      ensures Valid() <==> |old(stack)| >= 2
    {
      var top := CurrentState();
      if top.Err? {
        return Failed(top.fault);
      }
      trace := trace + [Exit(top.value)];
      stack := stack[1..];
      outcome := EnterCurrent();
    }

    /** `_Input`: forwards HandleInput to the current state. */
    method HandleInput() returns (outcome: Outcome)
      modifies this
      ensures Step(Snapshot(), outcome) == Dispatch(old(Snapshot()), InputPhase)
      ensures stack == old(stack) && stateMap == old(stateMap)
    {
      outcome := Forward(InputPhase);
    }

    /** `_Process`: forwards Update to the current state. */
    method Process() returns (outcome: Outcome)
      modifies this
      ensures Step(Snapshot(), outcome) == Dispatch(old(Snapshot()), ProcessPhase)
      ensures stack == old(stack) && stateMap == old(stateMap)
    {
      outcome := Forward(ProcessPhase);
    }

    /** `_PhysicsProcess`: forwards UpdatePhysics to the current state. */
    method PhysicsProcess() returns (outcome: Outcome)
      modifies this
      ensures Step(Snapshot(), outcome) == Dispatch(old(Snapshot()), PhysicsPhase)
      ensures stack == old(stack) && stateMap == old(stateMap)
    {
      outcome := Forward(PhysicsPhase);
    }

    /** Reads CurrentState and makes the phase's hook call on it. */
    method Forward(phase: Phase) returns (outcome: Outcome)
      modifies this
      ensures Step(Snapshot(), outcome) == Dispatch(old(Snapshot()), phase)
    {
      var top := CurrentState();
      if top.Err? {
        return Failed(top.fault);
      }
      trace := trace + [PhaseEvent(phase, top.value)];
      return Done;
    }
  }

  /**
    A client of the class: Jump pushed onto Idle and popped on landing, as the
    PushState documentation describes. The pop returns the machine to Idle
    with the registry untouched; an unknown name then exits the current state
    before failing.
   */
  method JumpAndLand() returns (outcome: Outcome)
    ensures outcome == Failed(KeyNotFound("Fly"))
  {
    var idle, jump := 0, 1;
    var fsm := new FSM(map["Idle" := idle, "Jump" := jump], [idle]);
    var o1 := fsm.PushState("Jump");
    assert o1 == Done && fsm.stack == [jump, idle];
    var o2 := fsm.PopState();
    assert o2 == Done && fsm.stack == [idle];
    assert fsm.trace == [Exit(idle), Enter(jump), Exit(jump), Enter(idle)];
    outcome := fsm.ChangeState("Fly");
    assert fsm.stack == [idle];
    assert fsm.trace[|fsm.trace| - 1] == Exit(idle);
  }
}
