/**
  Properties of the value model in FsmSpec: how transitions compose, what a
  run of requests does to the stack depth, and the exit-before-enter
  discipline of the hook trace, together with how the error paths break it.
 */
module FsmProperties {
  import opened FsmSpec

  /** PushState followed by PopState restores the stack, and the old top is entered again. */
  lemma PushThenPop(m: Machine, name: string)
    requires |m.stack| > 0 && name in m.stateMap
    ensures var pushed := PushState(m, name);
            var popped := PopState(pushed.after);
            && pushed.outcome == Done
            && popped.outcome == Done
            && popped.after.stack == m.stack
            && popped.after.stateMap == m.stateMap
            && popped.after.trace == m.trace + [Exit(m.stack[0]), Enter(m.stateMap[name]),
                                                Exit(m.stateMap[name]), Enter(m.stack[0])]
  {
    var pushed := PushState(m, name);
    assert pushed.after.stack[1..] == m.stack;
  }

  /**
    Two pushes followed by two pops return to the original stack; each push
    deepens the stack by exactly one, and the original top is entered last.
   */
  lemma PushPushPopPop(m: Machine, a: string, b: string)
    requires |m.stack| > 0 && a in m.stateMap && b in m.stateMap
    ensures var s1 := PushState(m, a);
            var s2 := PushState(s1.after, b);
            var s3 := PopState(s2.after);
            var s4 := PopState(s3.after);
            && s1.outcome == Done && |s1.after.stack| == |m.stack| + 1
            && s2.outcome == Done && |s2.after.stack| == |m.stack| + 2
            && s3.outcome == Done && s3.after.stack == s1.after.stack
            && s4.outcome == Done && s4.after.stack == m.stack
            && s4.after.trace[|s4.after.trace| - 1] == Enter(m.stack[0])
  {
    var s1 := PushState(m, a);
    PushThenPop(m, a);
    PushThenPop(s1.after, b);
  }

  /** A self-transition keeps the stack but still exits and re-enters the current state. */
  lemma ChangeToCurrent(m: Machine, name: string)
    requires |m.stack| > 0 && name in m.stateMap && m.stateMap[name] == m.stack[0]
    ensures ChangeState(m, name) ==
            Step(m.(trace := m.trace + [Exit(m.stack[0]), Enter(m.stack[0])]), Done)
  {
    var r := ChangeState(m, name);
    assert r.after.stack == [m.stack[0]] + m.stack[1..];
    assert m.stack == [m.stack[0]] + m.stack[1..];
  }

  /** A successful run changes the stack depth by exactly the pushes minus the pops. */
  lemma {:induction false} ExecDepth(m: Machine, qs: seq<Request>)
    requires Exec(m, qs).outcome == Done
    ensures |Exec(m, qs).after.stack| == |m.stack| + Depth(qs)
    decreases |qs|
  {
    if |qs| > 0 {
      var s := Apply(m, qs[0]);
      ExecDepth(s.after, qs[1..]);
    }
  }

  /** Appending one event extends the lifecycle view by that event if it is Enter or Exit. */
  lemma LifecycleSnoc(t: seq<Event>, e: Event)
    ensures Lifecycle(t + [e]) == Lifecycle(t) + (if e.IsLifecycle() then [e] else [])
  {
    assert (t + [e])[..|t|] == t;
  }

  lemma {:induction false} PairedExtend(l: seq<Event>, a: StateId, b: StateId, c: StateId)
    requires Paired(l, a, b)
    ensures Paired(l + [Exit(b), Enter(c)], a, c)
    decreases |l|
  {
    if |l| == 0 {
      assert [Exit(b), Enter(c)][2..] == [];
    } else {
      PairedExtend(l[2..], l[1].state, b, c);
      assert (l + [Exit(b), Enter(c)])[2..] == l[2..] + [Exit(b), Enter(c)];
    }
  }

  lemma {:induction false} PairedEven(l: seq<Event>, a: StateId, b: StateId)
    requires Paired(l, a, b)
    ensures |l| % 2 == 0
    decreases |l|
  {
    if |l| > 0 {
      PairedEven(l[2..], l[1].state, b);
    }
  }

  /**
    The hook discipline of a machine whose first current state was `origin`:
    the stack is non-empty and its lifecycle events are exit/enter pairs
    leading from `origin` to the current state.
   */
  ghost predicate HooksPaired(m: Machine, origin: StateId) {
    |m.stack| > 0 && Paired(Lifecycle(m.trace), origin, m.stack[0])
  }

  lemma TransitionPairs(m: Machine, r: Machine, origin: StateId)
    requires HooksPaired(m, origin)
    requires |r.stack| > 0 && r.trace == m.trace + [Exit(m.stack[0]), Enter(r.stack[0])]
    ensures HooksPaired(r, origin)
  {
    LifecycleSnoc(m.trace, Exit(m.stack[0]));
    LifecycleSnoc(m.trace + [Exit(m.stack[0])], Enter(r.stack[0]));
    assert m.trace + [Exit(m.stack[0]), Enter(r.stack[0])]
        == m.trace + [Exit(m.stack[0])] + [Enter(r.stack[0])];
    assert Lifecycle(r.trace) == Lifecycle(m.trace) + [Exit(m.stack[0]), Enter(r.stack[0])];
    PairedExtend(Lifecycle(m.trace), origin, m.stack[0], r.stack[0]);
  }

  /** Every request that ends normally keeps the hook discipline. */
  lemma ApplyKeepsHooksPaired(m: Machine, q: Request, origin: StateId)
    requires HooksPaired(m, origin)
    requires Apply(m, q).outcome == Done
    ensures HooksPaired(Apply(m, q).after, origin)
  {
    var r := Apply(m, q).after;
    match q
    case Frame(phase) =>
      var e := PhaseEvent(phase, m.stack[0]);
      assert r.trace == m.trace + [e] && r.stack == m.stack;
      LifecycleSnoc(m.trace, e);
      assert Lifecycle(r.trace) == Lifecycle(m.trace) + [] == Lifecycle(m.trace);
    case Change(name) =>
      TransitionPairs(m, r, origin);
    case Push(name) =>
      TransitionPairs(m, r, origin);
    case Pop =>
      TransitionPairs(m, r, origin);
  }

  /**
    Exit before enter: in a run that ends normally, every transition exits
    exactly the state that was current and enters exactly the state that
    becomes current, and the stack is never left empty.
   */
  lemma {:induction false} ExecKeepsHooksPaired(m: Machine, qs: seq<Request>, origin: StateId)
    requires HooksPaired(m, origin)
    requires Exec(m, qs).outcome == Done
    ensures HooksPaired(Exec(m, qs).after, origin)
    decreases |qs|
  {
    if |qs| > 0 {
      var s := Apply(m, qs[0]);
      ApplyKeepsHooksPaired(m, qs[0], origin);
      ExecKeepsHooksPaired(s.after, qs[1..], origin);
    }
  }

  /** From a freshly seeded machine, a normal run leaves the whole lifecycle trace paired. */
  lemma ExecFromSeedIsPaired(stack: seq<StateId>, registry: map<string, StateId>, qs: seq<Request>)
    requires |stack| > 0
    requires Exec(Machine(stack, registry, []), qs).outcome == Done
    ensures var r := Exec(Machine(stack, registry, []), qs).after;
            |r.stack| > 0 && Paired(Lifecycle(r.trace), stack[0], r.stack[0])
  {
    ExecKeepsHooksPaired(Machine(stack, registry, []), qs, stack[0]);
  }

  /** The request is one of the three transitions rather than a frame phase. */
  predicate IsTransition(q: Request) {
    q.Change? || q.Push? || q.Pop?
  }

  /**
    The error paths are not atomic: a transition that fails on a non-empty
    stack has already run Exit on the current state and never reaches an
    Enter, so the lifecycle trace is no longer a sequence of exit/enter pairs
    from any state to any state.
   */
  lemma FailedTransitionUnpairs(m: Machine, q: Request, origin: StateId)
    requires HooksPaired(m, origin)
    requires IsTransition(q) && Apply(m, q).outcome.Failed?
    ensures Lifecycle(Apply(m, q).after.trace) == Lifecycle(m.trace) + [Exit(m.stack[0])]
    ensures forall s :: !Paired(Lifecycle(Apply(m, q).after.trace), origin, s)
  {
    var r := Apply(m, q).after;
    assert r.trace == m.trace + [Exit(m.stack[0])];
    LifecycleSnoc(m.trace, Exit(m.stack[0]));
    PairedEven(Lifecycle(m.trace), origin, m.stack[0]);
    forall s
      ensures !Paired(Lifecycle(r.trace), origin, s)
    {
      if Paired(Lifecycle(r.trace), origin, s) {
        PairedEven(Lifecycle(r.trace), origin, s);
      }
    }
  }

  /**
    An example with the states of the Configure example (Idle, Walk, Run)
    and Jump, current state Walk. Pushing Jump gives [Jump, Walk]; popping
    it on landing returns to [Walk]; changing to Run keeps the depth at one.
   */
  lemma JumpOntoWalk()
    ensures var idle, walk, run, jump := 0, 1, 2, 3;
            var m := Machine([walk], map["Idle" := idle, "Walk" := walk, "Run" := run, "Jump" := jump], []);
            var pushed := PushState(m, "Jump");
            var popped := PopState(pushed.after);
            var changed := ChangeState(popped.after, "Run");
            && pushed == Step(Machine([jump, walk], m.stateMap, [Exit(walk), Enter(jump)]), Done)
            && popped == Step(Machine([walk], m.stateMap, [Exit(walk), Enter(jump), Exit(jump), Enter(walk)]), Done)
            && changed == Step(Machine([run], m.stateMap,
                                       [Exit(walk), Enter(jump), Exit(jump), Enter(walk), Exit(walk), Enter(run)]), Done)
  {
  }

  /**
    As written, nothing ever puts a state on the stack: it starts empty and
    every operation reads stack[0] before it writes the list. From an empty
    stack the first request of any run fails with ArgumentOutOfRange and
    leaves the machine exactly as it was.
   */
  lemma FromEmpty(registry: map<string, StateId>, t: seq<Event>, qs: seq<Request>)
    requires |qs| > 0
    ensures Exec(Machine([], registry, t), qs) == Step(Machine([], registry, t), Failed(ArgumentOutOfRange))
  {
  }
}
