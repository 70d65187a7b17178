/** Finite stretches of a protocol run, for the code that performs several steps in a row. */
module Traces {
  import opened Protocol
  import opened ProtocolInvariant
  import opened ProtocolExchange

  /** The steps can be taken one after the other from `s`. */
  ghost predicate Possible(s: System, steps: seq<Action>)
    decreases |steps|, 0
  {
    steps == [] ||
    (Possible(s, steps[..|steps| - 1]) && Enabled(After(s, steps[..|steps| - 1]), steps[|steps| - 1]))
  }

  ghost function After(s: System, steps: seq<Action>): System
    requires Possible(s, steps)
    decreases |steps|, 1
  {
    if steps == [] then s else Next(After(s, steps[..|steps| - 1]), steps[|steps| - 1])
  }

  /** `t` is reached from `s` by the steps. */
  ghost predicate Reaches(s: System, steps: seq<Action>, t: System) {
    Possible(s, steps) && After(s, steps) == t
  }

  lemma ReachesItself(s: System)
    ensures Reaches(s, [], s)
  {
  }

  lemma OneMoreStep(s: System, steps: seq<Action>, t: System, a: Action)
    requires Reaches(s, steps, t) && Enabled(t, a)
    ensures Reaches(s, steps + [a], Next(t, a))
  {
  }

  lemma {:induction false} StepsCompose(s: System, first: seq<Action>, t: System, second: seq<Action>, u: System)
    requires Reaches(s, first, t) && Reaches(t, second, u)
    ensures Reaches(s, first + second, u)
    decreases |second|
  {
    if second == [] {
      assert first + second == first;
    } else {
      var init, last := second[..|second| - 1], second[|second| - 1];
      StepsCompose(s, first, t, init, After(t, init));
      OneMoreStep(s, first + init, After(t, init), last);
      assert first + init + [last] == first + second;
    }
  }

  lemma {:induction false} ReachedStatesHaveInv(s: System, steps: seq<Action>, t: System)
    requires Inv(s) && Reaches(s, steps, t)
    ensures Inv(t)
    decreases |steps|
  {
    if steps != [] {
      var init := steps[..|steps| - 1];
      ReachedStatesHaveInv(s, init, After(s, init));
      StepKeepsInv(After(s, init), steps[|steps| - 1]);
    }
  }

  /** `longer` is a run with these actions that begins with `states` and ends in `t`. */
  ghost predicate Continues(states: seq<System>, longer: seq<System>, actions: seq<Action>, t: System) {
    IsRun(longer, actions) && states <= longer && longer[|actions|] == t
  }

  /** Steps taken from a state of a run continue the run, so every theorem about runs covers them. */
  lemma {:induction false} StepsContinueTheRun(states: seq<System>, actions: seq<Action>, steps: seq<Action>, t: System)
    requires IsRun(states, actions) && Reaches(states[|actions|], steps, t)
    ensures exists longer :: Continues(states, longer, actions + steps, t)
    decreases |steps|
  {
    if steps == [] {
      assert actions + steps == actions;
      assert Continues(states, states, actions, t);
    } else {
      var init, last := steps[..|steps| - 1], steps[|steps| - 1];
      var before := After(states[|actions|], init);
      StepsContinueTheRun(states, actions, init, before);
      var longer :| Continues(states, longer, actions + init, before);
      RunGrows(states, longer, actions + init, before, last);
      assert actions + init + [last] == actions + steps;
    }
  }

  lemma RunGrows(states: seq<System>, longer: seq<System>, actions: seq<Action>, t: System, last: Action)
    requires Continues(states, longer, actions, t) && Enabled(t, last)
    ensures Continues(states, longer + [Next(t, last)], actions + [last], Next(t, last))
  {
    ExtendRun(longer, actions, last);
  }

  lemma ExtendRun(states: seq<System>, actions: seq<Action>, a: Action)
    requires IsRun(states, actions) && Enabled(states[|actions|], a)
    ensures IsRun(states + [Next(states[|actions|], a)], actions + [a])
  {
    var longer, all := states + [Next(states[|actions|], a)], actions + [a];
    forall i: nat | i < |all|
      ensures StepAt(longer, all, i)
    {
      assert i < |actions| ==> StepAt(states, actions, i);
    }
  }

  ghost predicate EndsIn(states: seq<System>, actions: seq<Action>, s: System) {
    IsRun(states, actions) && states[|actions|] == s
  }

  /** Some run of the protocol ends in `s`. */
  ghost predicate Reachable(s: System) {
    exists states, actions :: EndsIn(states, actions, s)
  }

  lemma StartIsReachable(s: System)
    requires Init(s)
    ensures Reachable(s)
  {
    assert EndsIn([s], [], s);
  }

  lemma ReachableHasInv(s: System)
    requires Reachable(s)
    ensures Inv(s)
  {
    var states, actions :| EndsIn(states, actions, s);
    RunKeepsInv(states, actions, |actions|);
  }

  lemma StepsStayReachable(s: System, steps: seq<Action>, t: System)
    requires Reachable(s) && Reaches(s, steps, t)
    ensures Reachable(t)
  {
    var states, actions :| EndsIn(states, actions, s);
    StepsContinueTheRun(states, actions, steps, t);
    var longer :| Continues(states, longer, actions + steps, t);
    assert EndsIn(longer, actions + steps, t);
  }
}
