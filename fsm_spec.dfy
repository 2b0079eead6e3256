/**
  A value model of the stack-based state machine of Finex (finex/FSM.cs).

  A machine is its transition stack (index 0 is the current state), its
  registry of named states, and the ordered trace of the hook calls it has
  made on states. States are opaque identities; their hook bodies are user
  code and are modelled only by the event they record. Every operation is
  given as a function from the machine before to the machine after together
  with how the call ended, including the exceptions the C# code raises.
 */
module FsmSpec {

  /** The identity of a state object held in the registry and on the stack. */
  type StateId = nat

  /** One call of a hook on a state. */
  datatype Event =
    | Enter(state: StateId)
    | Exit(state: StateId)
    | Input(state: StateId)
    | Update(state: StateId)
    | Physics(state: StateId)
  {
    /** Enter and Exit are the lifecycle hooks; the other three are per-frame. */
    predicate IsLifecycle() {
      Enter? || Exit?
    }
  }

  /** The exceptions the .NET collections raise inside the FSM. */
  datatype Fault =
    | KeyNotFound(name: string)   // Dictionary indexer on a missing key
    | ArgumentOutOfRange          // List indexer on index 0 of an empty list

  datatype Result<T> = Ok(value: T) | Err(fault: Fault)

  /** How an operation ended: normally, or by an exception after some effects. */
  datatype Outcome = Done | Failed(fault: Fault)

  datatype Machine = Machine(stack: seq<StateId>, stateMap: map<string, StateId>, trace: seq<Event>)

  datatype Step = Step(after: Machine, outcome: Outcome)

  /** The three per-frame entry points the host engine calls. */
  datatype Phase = InputPhase | ProcessPhase | PhysicsPhase

  /** The hook event a per-frame phase forwards to state `s`. */
  function PhaseEvent(phase: Phase, s: StateId): (e: Event)
    ensures !e.IsLifecycle() && e.state == s
  {
    match phase
    case InputPhase => Input(s)
    case ProcessPhase => Update(s)
    case PhysicsPhase => Physics(s)
  }

  /** Reading the CurrentState property: stack[0], or an exception on an empty stack. */
  function Top(m: Machine): (r: Result<StateId>) {
    if |m.stack| == 0 then Err(ArgumentOutOfRange) else Ok(m.stack[0])
  }

  /** Calling a hook: it only records itself. */
  function Record(m: Machine, e: Event): (r: Machine) {
    m.(trace := m.trace + [e])
  }

  /** Writing the CurrentState property: only index 0 of the stack is overwritten. */
  function WithTop(m: Machine, s: StateId): (r: Machine)
    requires |m.stack| > 0
    ensures |r.stack| == |m.stack| && r.stack[0] == s
    ensures forall i :: 1 <= i < |m.stack| ==> r.stack[i] == m.stack[i]
    ensures r.stateMap == m.stateMap && r.trace == m.trace
  {
    m.(stack := m.stack[0 := s])
  }

  /** `CurrentState.Enter()`: re-reads the top of the stack and enters it. */
  function EnterTop(m: Machine): (r: Step) {
    match Top(m)
    case Err(f) => Step(m, Failed(f))
    case Ok(top) => Step(Record(m, Enter(top)), Done)
  }

  /**
    ChangeState: exit the current state, look the name up, overwrite the top
    of the stack with it, enter it. Exit has already run when the lookup
    fails; a self-transition exits and re-enters the same state.
   */
  function ChangeState(m: Machine, name: string): (r: Step)
    ensures r.after.stateMap == m.stateMap
    ensures |m.stack| == 0 ==> r == Step(m, Failed(ArgumentOutOfRange))
    ensures |m.stack| > 0 && name !in m.stateMap ==>
              && r.outcome == Failed(KeyNotFound(name))
              && r.after.stack == m.stack
              && r.after.trace == m.trace + [Exit(m.stack[0])]
    ensures |m.stack| > 0 && name in m.stateMap ==>
              && r.outcome == Done
              && |r.after.stack| == |m.stack|
              && r.after.stack[0] == m.stateMap[name]
              && r.after.stack[1..] == m.stack[1..]
              && r.after.trace == m.trace + [Exit(m.stack[0]), Enter(m.stateMap[name])]
  {
    match Top(m)
    case Err(f) => Step(m, Failed(f))
    case Ok(top) =>
      var exited := Record(m, Exit(top));
      if name !in exited.stateMap then Step(exited, Failed(KeyNotFound(name)))
      else EnterTop(WithTop(exited, exited.stateMap[name]))
  }

  /**
    PushState: exit the current state, look the name up, insert it at index
    0 (the old top becomes index 1), enter it.
   */
  function PushState(m: Machine, name: string): (r: Step)
    ensures r.after.stateMap == m.stateMap
    ensures |m.stack| == 0 ==> r == Step(m, Failed(ArgumentOutOfRange))
    ensures |m.stack| > 0 && name !in m.stateMap ==>
              && r.outcome == Failed(KeyNotFound(name))
              && r.after.stack == m.stack
              && r.after.trace == m.trace + [Exit(m.stack[0])]
    ensures |m.stack| > 0 && name in m.stateMap ==>
              && r.outcome == Done
              && r.after.stack == [m.stateMap[name]] + m.stack
              && r.after.trace == m.trace + [Exit(m.stack[0]), Enter(m.stateMap[name])]
  {
    match Top(m)
    case Err(f) => Step(m, Failed(f))
    case Ok(top) =>
      var exited := Record(m, Exit(top));
      if name !in exited.stateMap then Step(exited, Failed(KeyNotFound(name)))
      else EnterTop(exited.(stack := [exited.stateMap[name]] + exited.stack))
  }

  /**
    PopState: exit the current state, remove index 0, enter the new top. On a
    one-element stack the removal leaves the stack empty and the final read
    of CurrentState fails, after Exit and before any Enter.
   */
  function PopState(m: Machine): (r: Step)
    ensures r.after.stateMap == m.stateMap
    ensures |m.stack| == 0 ==> r == Step(m, Failed(ArgumentOutOfRange))
    ensures |m.stack| == 1 ==>
              && r.outcome == Failed(ArgumentOutOfRange)
              && r.after.stack == []
              && r.after.trace == m.trace + [Exit(m.stack[0])]
    ensures |m.stack| >= 2 ==>
              && r.outcome == Done
              && r.after.stack == m.stack[1..]
              && r.after.trace == m.trace + [Exit(m.stack[0]), Enter(m.stack[1])]
  {
    match Top(m)
    case Err(f) => Step(m, Failed(f))
    case Ok(top) =>
      var exited := Record(m, Exit(top));
      EnterTop(exited.(stack := exited.stack[1..]))
  }

  /**
    The per-frame entry points (_Input, _Process, _PhysicsProcess): forward
    exactly one hook call to the current state and change nothing else.
   */
  function Dispatch(m: Machine, phase: Phase): (r: Step)
    ensures r.after.stack == m.stack && r.after.stateMap == m.stateMap
    ensures |m.stack| == 0 ==> r == Step(m, Failed(ArgumentOutOfRange))
    ensures |m.stack| > 0 ==>
              && r.outcome == Done
              && r.after.trace == m.trace + [PhaseEvent(phase, m.stack[0])]
  {
    match Top(m)
    case Err(f) => Step(m, Failed(f))
    case Ok(top) => Step(Record(m, PhaseEvent(phase, top)), Done)
  }

  /** A request made of the machine: one transition or one frame phase. */
  datatype Request =
    | Change(name: string)
    | Push(name: string)
    | Pop
    | Frame(phase: Phase)

  function Apply(m: Machine, q: Request): (r: Step)
    ensures r.after.stateMap == m.stateMap
    ensures m.trace <= r.after.trace
  {
    match q
    case Change(name) => ChangeState(m, name)
    case Push(name) => PushState(m, name)
    case Pop => PopState(m)
    case Frame(phase) => Dispatch(m, phase)
  }

  /**
    Runs the requests in order; the first exception ends the run, leaving the
    machine as that request left it.
   */
  function Exec(m: Machine, qs: seq<Request>): (r: Step)
    ensures r.after.stateMap == m.stateMap
    ensures m.trace <= r.after.trace
    decreases |qs|
  {
    if |qs| == 0 then Step(m, Done)
    else
      var s := Apply(m, qs[0]);
      if s.outcome.Failed? then s else Exec(s.after, qs[1..])
  }

  /** The net change in stack depth that a run of requests asks for. */
  function Depth(qs: seq<Request>): (d: int)
    decreases |qs|
  {
    if |qs| == 0 then 0
    else (match qs[0]
          case Push(_) => 1
          case Pop => -1
          case _ => 0) + Depth(qs[1..])
  }

  /** The Enter and Exit events of a trace, in order. */
  function Lifecycle(t: seq<Event>): (l: seq<Event>)
    decreases |t|
  {
    if |t| == 0 then []
    else Lifecycle(t[..|t| - 1]) + (if t[|t| - 1].IsLifecycle() then [t[|t| - 1]] else [])
  }

  /**
    `l` is a run of transitions starting at state `from` and ending at `to`:
    pairs Exit(x), Enter(y) in which each Exit leaves the state the previous
    Enter entered.
   */
  predicate Paired(l: seq<Event>, from: StateId, to: StateId)
    decreases |l|
  {
    if |l| == 0 then from == to
    else |l| >= 2 && l[0] == Exit(from) && l[1].Enter? && Paired(l[2..], l[1].state, to)
  }
}
