// A pass run from start to end against a script: what everyone else does
// before each of its calls, and what becomes of the call.
module ScriptedPass {
  import opened Names
  import opened Desired
  import opened ApiStore
  import opened ReconcilePass
  import opened SoloRuns

  datatype Turn = Turn(meanwhile: seq<EnvAction>, choice: Choice)

  // An exhausted script means an undisturbed, fault-free rest.
  datatype Config = Config(store: Store, script: seq<Turn>, agent: Agent)

  function ApplyAll(st: Store, es: seq<EnvAction>): Store
    decreases |es|
  {
    if es == [] then st else ApplyAll(ApplyEnv(st, es[0]), es[1..])
  }

  function StoreAtCall(st: Store, script: seq<Turn>): Store {
    if script == [] then st else ApplyAll(st, script[0].meanwhile)
  }

  function ChoiceAtCall(script: seq<Turn>): Choice {
    if script == [] then CLEAN else script[0].choice
  }

  function RestOf(script: seq<Turn>): seq<Turn> {
    if script == [] then [] else script[1..]
  }

  ghost function StepConfig(g: Config): (h: Config)
    ensures Rank(g.agent.pass.pc) < FINISHED ==> Rank(g.agent.pass.pc) < Rank(h.agent.pass.pc)
    ensures h.agent.pass.request == g.agent.pass.request
  {
    if NextCall(g.agent.pass).None? then g.(agent := AgentStep(g.store, g.agent, CLEAN))
    else
      var st, ch := StoreAtCall(g.store, g.script), ChoiceAtCall(g.script);
      Config(StoreStep(st, g.agent, ch), RestOf(g.script), AgentStep(st, g.agent, ch))
  }

  // Up to the first state whose rank reaches the bound.
  ghost function RunTo(g: Config, bound: nat): (h: Config)
    requires bound <= FINISHED
    ensures h.agent.pass.request == g.agent.pass.request
    ensures bound <= Rank(h.agent.pass.pc)
    decreases bound - Rank(g.agent.pass.pc)
  {
    if bound <= Rank(g.agent.pass.pc) then g else RunTo(StepConfig(g), bound)
  }

  lemma {:induction false} RunSplits(g: Config, mid: nat, bound: nat)
    requires mid <= bound <= FINISHED
    ensures RunTo(RunTo(g, mid), bound) == RunTo(g, bound)
    decreases bound - Rank(g.agent.pass.pc)
  {
    hide StepConfig;
    if mid <= Rank(g.agent.pass.pc) {
    } else {
      RunSplits(StepConfig(g), mid, bound);
    }
  }

  // ---- A scripted pass is a run ----

  function Environs(es: seq<EnvAction>): seq<Action>
    decreases |es|
  {
    if es == [] then [] else [Environ(es[0])] + Environs(es[1..])
  }

  ghost function StepActions(g: Config): seq<Action> {
    if NextCall(g.agent.pass).None? || g.script == [] then [Advance(CLEAN)]
    else Environs(g.script[0].meanwhile) + [Advance(g.script[0].choice)]
  }

  ghost function ActionsOf(g: Config, bound: nat): seq<Action>
    requires bound <= FINISHED
    decreases bound - Rank(g.agent.pass.pc)
  {
    if bound <= Rank(g.agent.pass.pc) then [] else StepActions(g) + ActionsOf(StepConfig(g), bound)
  }

  function World(g: Config): Solo {
    Solo(g.store, g.agent)
  }

  lemma {:induction false} EnvironsRun(x: Solo, es: seq<EnvAction>, rest: seq<Action>)
    ensures Exec(x, Environs(es) + rest) == Exec(x.(store := ApplyAll(x.store, es)), rest)
    decreases |es|
  {
    hide ApplyEnv;
    if es == [] {
      assert Environs(es) + rest == rest;
    } else {
      var acts := Environs(es) + rest;
      assert acts[0] == Environ(es[0]) && acts[1..] == Environs(es[1..]) + rest;
      EnvironsRun(Apply(x, acts[0]), es[1..], rest);
    }
  }

  lemma StepIsRun(g: Config, rest: seq<Action>)
    ensures Exec(World(g), StepActions(g) + rest) == Exec(World(StepConfig(g)), rest)
  {
    hide StoreStep, AgentStep, NextCall, ApplyAll;
    if NextCall(g.agent.pass).None? || g.script == [] {
      var acts := [Advance(CLEAN)] + rest;
      assert acts[0] == Advance(CLEAN) && acts[1..] == rest;
      if NextCall(g.agent.pass).None? {
        SilentStep(g.store, g.agent);
      }
    } else {
      var t := g.script[0];
      var acts := [Advance(t.choice)] + rest;
      assert acts[0] == Advance(t.choice) && acts[1..] == rest;
      assert Environs(t.meanwhile) + [Advance(t.choice)] + rest == Environs(t.meanwhile) + acts;
      EnvironsRun(World(g), t.meanwhile, acts);
    }
  }

  lemma SilentStep(st: Store, a: Agent)
    requires NextCall(a.pass).None?
    ensures StoreStep(st, a, CLEAN) == st
  {
  }

  // What is true of every run is true of every scripted pass.
  lemma {:induction false} ScriptedPassIsRun(g: Config, bound: nat)
    requires bound <= FINISHED
    ensures World(RunTo(g, bound)) == Exec(World(g), ActionsOf(g, bound))
    decreases bound - Rank(g.agent.pass.pc)
  {
    hide StepConfig, StepActions, World;
    if bound <= Rank(g.agent.pass.pc) {
    } else {
      ScriptedPassIsRun(StepConfig(g), bound);
      StepIsRun(g, ActionsOf(StepConfig(g), bound));
    }
  }

  // ---- When inspection succeeds ----

  predicate FaultWithin(script: seq<Turn>, n: nat) {
    exists i :: 0 <= i < n && i < |script| && !script[i].choice.fault.NoFault?
  }

  // Inspection ends in an error exactly when one of its reads fails; an
  // object that is not found is no error.
  lemma {:induction false} InspectionFailsOnlyOnFaults(g: Config)
    requires Rank(g.agent.pass.pc) <= DRIVING
    ensures RunTo(g, DRIVING).agent.pass.pc == Finished(Failed)
            <==> FaultWithin(g.script, DRIVING - Rank(g.agent.pass.pc))
    decreases DRIVING - Rank(g.agent.pass.pc)
  {
    hide DesiredState, ChildKey;
    if DRIVING <= Rank(g.agent.pass.pc) {
    } else {
      var h := StepConfig(g);
      var n := DRIVING - Rank(g.agent.pass.pc);
      ReadingStep(g);
      hide StepConfig;
      if g.script == [] || g.script[0].choice.fault.NoFault? {
        InspectionFailsOnlyOnFaults(h);
        FaultLater(g.script, n);
      } else {
        assert !g.script[0].choice.fault.NoFault?;
      }
    }
  }

  lemma FaultLater(script: seq<Turn>, n: nat)
    requires n > 0 && (script == [] || script[0].choice.fault.NoFault?)
    ensures FaultWithin(script, n) <==> FaultWithin(RestOf(script), n - 1)
  {
    if FaultWithin(script, n) {
      var i :| 0 <= i < n && i < |script| && !script[i].choice.fault.NoFault?;
      assert RestOf(script)[i - 1] == script[i];
    }
    if FaultWithin(RestOf(script), n - 1) {
      var i :| 0 <= i < n - 1 && i < |RestOf(script)| && !RestOf(script)[i].choice.fault.NoFault?;
      assert script[i + 1] == RestOf(script)[i];
    }
  }

  lemma ReadingStep(g: Config)
    requires Rank(g.agent.pass.pc) < DRIVING
    ensures var h := StepConfig(g);
      && h.script == RestOf(g.script)
      && if ChoiceAtCall(g.script).fault.NoFault? then Rank(h.agent.pass.pc) == Rank(g.agent.pass.pc) + 1
         else h.agent.pass.pc == Finished(Failed)
  {
    hide DesiredState, ChildKey, StoreAtCall;
  }
}
