// One undisturbed, fault-free pass finishes the job from any state, and the
// states in which such a pass writes nothing are exactly the finished ones.
module Convergence {
  import opened Kubernetes
  import opened Names
  import opened Desired
  import opened ApiStore
  import opened ReconcilePass
  import opened SoloRuns
  import opened Completion
  import opened Work
  import opened ScriptedPass

  // A pass from its start to its end with nothing in its way.
  ghost function CleanPass(st: Store, a: Agent): Solo {
    World(RunTo(Config(st, [], Restart(a)), FINISHED))
  }

  // The finished job: the CR exists, every child exists, both Deployments have
  // the wanted replicas, and the status is the workers' availability.
  ghost predicate Converged(st: Store, c: Request) {
    var o := Current(st, ClusterKey(c));
    && o.Some? && o.value.PrestoCluster?
    && (forall r :: Need(st, c, o.value.cluster.spec, r) == 0)
    && o.value.cluster.availableWorkers == AvailableOf(Current(st, ChildKey(c, WorkerDeployment)))
  }

  // What a child's address holds after the drive step has dealt with it.
  ghost function Settled(st: Store, c: Request, cl: Cluster, r: Role): seq<Option<Object>> {
    var k := ChildKey(c, r);
    var o := Current(st, k);
    if Need(st, c, cl.spec, r) == 0 then History(st, k)
    else if o.None? then History(st, k) + [Some(DesiredChild(cl, r))]
    else History(st, k) + [Some(KeepStatus(DesiredChild(cl, r), o.value))]
  }

  ghost predicate IsCluster(st: Store, c: Request, cl: Cluster) {
    Current(st, ClusterKey(c)) == Some(PrestoCluster(cl))
  }

  // ---- Reading ----

  // The pass has read the CR and the children before its next one.
  ghost predicate Reading(st: Store, c: Request, cl: Cluster, g: Config) {
    var p := g.agent.pass;
    && g.store == st && g.script == [] && p.request == c
    && p.pc.ReadChild? && p.inspected.cluster == Some(cl) && !p.driveFailed
    && forall r :: ReadPosition(r) < ReadPosition(p.pc.role) ==>
         p.inspected.children.Child(r) == Current(st, ChildKey(c, r))
  }

  ghost predicate IsChild(c: Request, k: Key) {
    exists r :: k == ChildKey(c, r)
  }

  // The children before the next one are settled, the rest untouched.
  ghost predicate Driving(st: Store, c: Request, cl: Cluster, g: Config) {
    var p := g.agent.pass;
    && g.script == [] && p.request == c && p.inspected.cluster == Some(cl) && !p.driveFailed
    && p.desired == DesiredState(Some(cl))
    && (p.pc.Drive? || p.pc.ReadWorker?)
    && (forall r :: p.inspected.children.Child(r) == Current(st, ChildKey(c, r)))
    && (forall r :: History(g.store, ChildKey(c, r)) ==
          if Rank(p.pc) <= DRIVING + Position(r) then History(st, ChildKey(c, r)) else Settled(st, c, cl, r))
    && (forall k :: !IsChild(c, k) ==> History(g.store, k) == History(st, k))
  }

  lemma FirstRead(st: Store, c: Request, cl: Cluster, g: Config)
    requires g.store == st && g.script == [] && g.agent.pass == StartPass(c) && IsCluster(st, c, cl)
    ensures Reading(st, c, cl, StepConfig(g)) && Rank(StepConfig(g).agent.pass.pc) == 1
  {
    hide DesiredState, ChildKey, History;
  }

  lemma NextRead(st: Store, c: Request, cl: Cluster, g: Config)
    requires Reading(st, c, cl, g)
    ensures var h := StepConfig(g);
      (Reading(st, c, cl, h) || Driving(st, c, cl, h)) && Rank(h.agent.pass.pc) == Rank(g.agent.pass.pc) + 1
  {
    hide DesiredState, ChildKey, History, Settled;
  }

  lemma {:induction false} CleanInspection(st: Store, c: Request, cl: Cluster, g: Config)
    requires (Reading(st, c, cl, g) || Driving(st, c, cl, g)) && Rank(g.agent.pass.pc) <= DRIVING
    ensures Driving(st, c, cl, RunTo(g, DRIVING)) && Rank(RunTo(g, DRIVING).agent.pass.pc) == DRIVING
    decreases DRIVING - Rank(g.agent.pass.pc)
  {
    hide DesiredState, ChildKey, StepConfig, Settled, History;
    if DRIVING <= Rank(g.agent.pass.pc) {
    } else {
      NextRead(st, c, cl, g);
      CleanInspection(st, c, cl, StepConfig(g));
    }
  }

  // ---- Driving ----

  // The drive step's one call brings its child to the settled state.
  lemma DriveSettles(st: Store, c: Request, cl: Cluster, g: Config)
    requires Driving(st, c, cl, g) && g.agent.pass.pc.Drive? && IsCluster(st, c, cl) && WellKeyed(st)
    ensures var h := StepConfig(g); var q := g.agent.pass.pc.role;
      && h.agent.pass == g.agent.pass.(pc := AfterDrive(q)) && h.script == []
      && History(h.store, ChildKey(c, q)) == Settled(st, c, cl, q)
      && OnlyAt(g.store, h.store, ChildKey(c, q))
  {
    hide DesiredState, DesiredChild, ChildKey, KeyOf;
    var p := g.agent.pass;
    var q := p.pc.role;
    var k := ChildKey(c, q);
    DesiredRole(Some(cl), q);
    DesiredShape(cl, q);
    OwnName(st, c, cl);
    assert Current(g.store, k) == Current(st, k);
    var call := NextCall(p);
    if call.Some? {
      assert CallKey(call.value) == k;
      var v := NewValue(g.store, call.value);
      RecordFacts(g.store, k, Some(Stamp(v.value, |History(g.store, k)|)));
    }
  }

  lemma OwnName(st: Store, c: Request, cl: Cluster)
    requires IsCluster(st, c, cl) && WellKeyed(st)
    ensures Request(cl.namespace, cl.name) == c && cl.resourceVersion == |History(st, ClusterKey(c))| - 1
  {
    var h := History(st, ClusterKey(c));
    assert Fits(h[|h| - 1].value, ClusterKey(c), |h| - 1);
  }

  lemma NextDrive(st: Store, c: Request, cl: Cluster, g: Config)
    requires Driving(st, c, cl, g) && g.agent.pass.pc.Drive? && IsCluster(st, c, cl) && WellKeyed(st)
    ensures Driving(st, c, cl, StepConfig(g))
    ensures Rank(StepConfig(g).agent.pass.pc) == Rank(g.agent.pass.pc) + 1
  {
    hide DesiredState, ChildKey, History, Settled, StepConfig, WellKeyed, IsCluster, IsChild, Owns;
    DriveSettles(st, c, cl, g);
    AddressKinds(c);
    var h := StepConfig(g);
    var q := g.agent.pass.pc.role;
    assert Rank(h.agent.pass.pc) == DRIVING + Position(q) + 1;
    forall r
      ensures History(h.store, ChildKey(c, r)) ==
        if Rank(h.agent.pass.pc) <= DRIVING + Position(r) then History(st, ChildKey(c, r)) else Settled(st, c, cl, r)
    {
      SamePosition(r, q);
      RolesApart(c, r, q);
      if r != q {
        assert History(h.store, ChildKey(c, r)) == History(g.store, ChildKey(c, r));
      }
    }
  }

  lemma SamePosition(r: Role, q: Role)
    ensures Position(r) == Position(q) <==> r == q
  {
  }

  lemma {:induction false} CleanDrive(st: Store, c: Request, cl: Cluster, g: Config, bound: nat)
    requires Driving(st, c, cl, g) && IsCluster(st, c, cl) && WellKeyed(st)
    requires Rank(g.agent.pass.pc) <= bound <= REPORTING
    ensures Driving(st, c, cl, RunTo(g, bound)) && Rank(RunTo(g, bound).agent.pass.pc) == bound
    decreases bound - Rank(g.agent.pass.pc)
  {
    hide DesiredState, ChildKey, StepConfig, Settled, History, IsCluster, WellKeyed;
    if bound <= Rank(g.agent.pass.pc) {
    } else {
      NextDrive(st, c, cl, g);
      CleanDrive(st, c, cl, StepConfig(g), bound);
    }
  }

  // ---- Reporting ----

  // How the pass leaves the store and what it returns.
  ghost predicate Concluded(st: Store, c: Request, cl: Cluster, z: Solo) {
    var n := AvailableOf(Current(z.store, ChildKey(c, WorkerDeployment)));
    var h := History(st, ClusterKey(c));
    && z.Pass().pc == Finished(Result(n != cl.spec.workers)) && !z.Pass().driveFailed
    && (forall r :: History(z.store, ChildKey(c, r)) == Settled(st, c, cl, r))
    && History(z.store, ClusterKey(c)) ==
         (if n == cl.availableWorkers then h
          else h + [Some(PrestoCluster(cl.(availableWorkers := n, resourceVersion := |h|)))])
    && (forall k :: !Owns(c, k) ==> History(z.store, k) == History(st, k))
  }

  lemma CleanStatusWrite(st: Store, c: Request, cl: Cluster, n: int32)
    requires Current(st, ClusterKey(c)) == Some(PrestoCluster(cl))
    requires Request(cl.namespace, cl.name) == c
    ensures var call := UpdateStatus(cl.(availableWorkers := n)); var h := History(st, ClusterKey(c));
      && ReplyTo(st, call, CLEAN) == Done
      && OnlyAt(st, StoreAfter(st, call, CLEAN), ClusterKey(c))
      && History(StoreAfter(st, call, CLEAN), ClusterKey(c))
         == h + [Some(PrestoCluster(cl.(availableWorkers := n, resourceVersion := |h|)))]
  {
  }

  lemma ReportStep(st: Store, c: Request, cl: Cluster, g: Config)
    requires Driving(st, c, cl, g) && g.agent.pass.pc.ReadWorker?
    ensures var h := StepConfig(g); var n := AvailableOf(Current(g.store, ChildKey(c, WorkerDeployment)));
      && h.store == g.store && h.script == [] && h.agent.pass == g.agent.pass.(pc := h.agent.pass.pc)
      && h.agent.pass.pc == if n == cl.availableWorkers then Finished(Result(n != cl.spec.workers)) else WriteStatus(n)
  {
    hide DesiredState, ChildKey, History, Settled;
  }

  lemma WriteStep(g: Config, cl: Cluster)
    requires g.agent.pass.pc.WriteStatus? && g.agent.pass.inspected.cluster == Some(cl) && g.script == []
    requires ReplyTo(g.store, UpdateStatus(cl.(availableWorkers := g.agent.pass.pc.count)), CLEAN) == Done
    ensures var h := StepConfig(g);
      && h.store == StoreAfter(g.store, UpdateStatus(cl.(availableWorkers := g.agent.pass.pc.count)), CLEAN)
      && h.agent.pass == g.agent.pass.(pc := Finished(Result(g.agent.pass.pc.count != cl.spec.workers)))
  {
    hide ChildKey, DesiredState;
  }

  // The store in terms of the one the pass started from.
  lemma StoreBeforeReport(st: Store, c: Request, cl: Cluster, g: Config)
    requires Driving(st, c, cl, g) && g.agent.pass.pc.ReadWorker?
    ensures forall r :: History(g.store, ChildKey(c, r)) == Settled(st, c, cl, r)
    ensures History(g.store, ClusterKey(c)) == History(st, ClusterKey(c))
    ensures forall k :: !Owns(c, k) ==> History(g.store, k) == History(st, k)
  {
    hide DesiredState, ChildKey, History, Settled, Owns, IsChild;
    AddressKinds(c);
  }

  lemma AddressKinds(c: Request)
    ensures !IsChild(c, ClusterKey(c)) && Owns(c, ClusterKey(c))
    ensures forall r :: IsChild(c, ChildKey(c, r)) && ChildKey(c, r) != ClusterKey(c)
    ensures forall k :: !Owns(c, k) ==> !IsChild(c, k)
  {
    hide ChildKey;
    forall r ensures ClusterKey(c) != ChildKey(c, r) { ClusterIsNoChild(c, c, r); }
  }

  lemma SilentReport(st: Store, c: Request, cl: Cluster, g: Config)
    requires Driving(st, c, cl, g) && g.agent.pass.pc.ReadWorker? && StepConfig(g).agent.pass.pc.Finished?
    ensures Concluded(st, c, cl, World(StepConfig(g)))
  {
    hide DesiredState, ChildKey, Settled, Owns, IsChild;
    ReportStep(st, c, cl, g);
    StoreBeforeReport(st, c, cl, g);
    hide StepConfig, History;
  }

  lemma WrittenReport(st: Store, c: Request, cl: Cluster, g: Config)
    requires Driving(st, c, cl, g) && g.agent.pass.pc.ReadWorker? && StepConfig(g).agent.pass.pc.WriteStatus?
    requires IsCluster(st, c, cl) && WellKeyed(st)
    ensures Concluded(st, c, cl, World(StepConfig(StepConfig(g))))
  {
    hide DesiredState, ChildKey, Settled, Owns, IsChild, StepConfig, StoreAfter, ReplyTo, Driving, WellKeyed, History;
    AddressKinds(c);
    StoreBeforeReport(st, c, cl, g);
    OwnName(st, c, cl);
    ReportStep(st, c, cl, g);
    CurrentOfSame(st, g.store, ClusterKey(c));
    var h := StepConfig(g);
    CleanStatusWrite(h.store, c, cl, h.agent.pass.pc.count);
    WriteStep(h, cl) by { DrivenCluster(st, c, cl, g); }
    DrivenCluster(st, c, cl, g);
    assert forall r :: History(StepConfig(h).store, ChildKey(c, r)) == History(g.store, ChildKey(c, r));
  }

  lemma CurrentOfSame(st: Store, st': Store, k: Key)
    requires History(st, k) == History(st', k)
    ensures Current(st, k) == Current(st', k)
  {
  }

  lemma DrivenCluster(st: Store, c: Request, cl: Cluster, g: Config)
    requires Driving(st, c, cl, g)
    ensures g.agent.pass.inspected.cluster == Some(cl) && g.agent.pass.request == c && !g.agent.pass.driveFailed
  {
  }

  lemma CleanReport(st: Store, c: Request, cl: Cluster, g: Config)
    requires Driving(st, c, cl, g) && g.agent.pass.pc.ReadWorker? && IsCluster(st, c, cl) && WellKeyed(st)
    ensures Concluded(st, c, cl, World(RunTo(g, FINISHED)))
  {
    hide StepConfig, Driving, IsCluster, WellKeyed, Concluded;
    ReportStep(st, c, cl, g);
    var h := StepConfig(g);
    if h.agent.pass.pc.WriteStatus? {
      WrittenReport(st, c, cl, g);
      StepFinishes(h);
      assert RunTo(g, FINISHED) == RunTo(h, FINISHED) == StepConfig(h);
    } else {
      SilentReport(st, c, cl, g);
      assert RunTo(g, FINISHED) == h;
    }
  }

  lemma StepFinishes(g: Config)
    requires g.agent.pass.pc.WriteStatus?
    ensures StepConfig(g).agent.pass.pc.Finished?
  {
    hide DesiredState, ChildKey, ReplyTo, StoreAtCall, StoreAfter;
  }

  // ---- The theorems ----

  // From any set of children with any replica counts: afterwards the missing
  // children are created, the wrong replica counts corrected with the rest of
  // the Deployment's status kept, the status reported, all else untouched.
  lemma CleanPassConcludes(st: Store, a: Agent, cl: Cluster)
    requires WellKeyed(st) && IsCluster(st, a.pass.request, cl)
    ensures Concluded(st, a.pass.request, cl, CleanPass(st, a))
  {
    hide DesiredState, DesiredChild, ChildKey, StepConfig, WellKeyed, IsCluster, Driving, Reading, Concluded;
    var c := a.pass.request;
    var g := Config(st, [], Restart(a));
    FirstRead(st, c, cl, g);
    var f := StepConfig(g);
    CleanInspection(st, c, cl, f);
    CleanDrive(st, c, cl, RunTo(f, DRIVING), REPORTING);
    RunSplits(f, DRIVING, REPORTING);
    RunSplits(f, REPORTING, FINISHED);
    AtReadWorker(st, c, cl, RunTo(f, REPORTING));
    CleanReport(st, c, cl, RunTo(f, REPORTING));
    assert RunTo(g, FINISHED) == RunTo(f, FINISHED);
  }

  lemma AtReadWorker(st: Store, c: Request, cl: Cluster, g: Config)
    requires Driving(st, c, cl, g) && REPORTING <= Rank(g.agent.pass.pc)
    ensures g.agent.pass.pc.ReadWorker?
  {
    hide DesiredState, ChildKey, Settled, History;
  }

  lemma SettledIsRight(st: Store, st': Store, c: Request, cl: Cluster, r: Role)
    requires History(st', ChildKey(c, r)) == Settled(st, c, cl, r)
    ensures Need(st', c, cl.spec, r) == 0
    ensures History(st', ChildKey(c, r)) == History(st, ChildKey(c, r)) <==> Need(st, c, cl.spec, r) == 0
  {
    hide ChildKey, DesiredChild;
    DesiredShape(cl, r);
  }

  lemma ConcludedStatus(st: Store, c: Request, cl: Cluster, z: Solo)
    requires Concluded(st, c, cl, z) && IsCluster(st, c, cl)
    ensures var o := Current(z.store, ClusterKey(c));
      && o.Some? && o.value.PrestoCluster? && o.value.cluster.spec == cl.spec
      && o.value.cluster.availableWorkers == AvailableOf(Current(z.store, ChildKey(c, WorkerDeployment)))
  {
    hide ChildKey, Settled;
  }

  // A clean pass ends with the job finished.
  lemma CleanPassConverges(st: Store, a: Agent, cl: Cluster)
    requires WellKeyed(st) && IsCluster(st, a.pass.request, cl)
    ensures Converged(CleanPass(st, a).store, a.pass.request)
    ensures AllPresent(CleanPass(st, a).store, a.pass.request)
    ensures ReplicasAt(CleanPass(st, a).store, a.pass.request, CoordinatorDeployment) == 1
    ensures ReplicasAt(CleanPass(st, a).store, a.pass.request, WorkerDeployment) == cl.spec.workers
  {
    hide DesiredState, DesiredChild, ChildKey, CleanPass, WellKeyed, Settled, IsCluster, History;
    var c, z := a.pass.request, CleanPass(st, a);
    CleanPassConcludes(st, a, cl);
    ConcludedStatus(st, c, cl, z);
    forall r ensures Need(z.store, c, cl.spec, r) == 0 {
      SettledIsRight(st, z.store, c, cl, r);
    }
    forall r ensures Present(z.store, c, r) {
      assert Need(z.store, c, cl.spec, r) == 0;
    }
    NoNeedReplicas(z.store, c, cl.spec);
  }

  ghost predicate WritesNothing(st: Store, a: Agent) {
    forall k :: History(CleanPass(st, a).store, k) == History(st, k)
  }

  // The fixpoints: a clean pass writes nothing exactly when the job is done.
  lemma CleanPassFixpoints(st: Store, a: Agent, cl: Cluster)
    requires WellKeyed(st) && IsCluster(st, a.pass.request, cl)
    ensures WritesNothing(st, a) <==> Converged(st, a.pass.request)
  {
    hide DesiredState, DesiredChild, ChildKey, CleanPass, WellKeyed, Settled, Need;
    var c, z := a.pass.request, CleanPass(st, a);
    CleanPassConcludes(st, a, cl);
    forall r ensures History(z.store, ChildKey(c, r)) == History(st, ChildKey(c, r)) <==> Need(st, c, cl.spec, r) == 0 {
      SettledIsRight(st, z.store, c, cl, r);
    }
    if Converged(st, c) {
      forall k ensures History(z.store, k) == History(st, k) {
        if Owns(c, k) && k != ClusterKey(c) {
          var r :| k == ChildKey(c, r);
        }
      }
    }
    if WritesNothing(st, a) {
      assert History(z.store, ClusterKey(c)) == History(st, ClusterKey(c));
      assert History(z.store, ChildKey(c, WorkerDeployment)) == History(st, ChildKey(c, WorkerDeployment));
    }
  }

  // So a second clean pass has nothing left to do.
  lemma SecondPassWritesNothing(st: Store, a: Agent, cl: Cluster)
    requires WellKeyed(st) && AgentSane(st, Restart(a)) && IsCluster(st, a.pass.request, cl)
    ensures WritesNothing(CleanPass(st, a).store, CleanPass(st, a).agent)
  {
    hide DesiredState, DesiredChild, ChildKey, Settled, Need, AgentSane, WritesNothing;
    var c, z := a.pass.request, CleanPass(st, a);
    CleanPassConverges(st, a, cl);
    RunsAreSane(Config(st, [], Restart(a)), FINISHED);
    hide CleanPass;
    CleanPassFixpoints(z.store, z.agent, Current(z.store, ClusterKey(c)).value.cluster);
  }

  lemma RunsAreSane(g: Config, bound: nat)
    requires bound <= FINISHED && Sane(World(g))
    ensures Sane(World(RunTo(g, bound)))
  {
    hide Sane, Apply;
    ScriptedPassIsRun(g, bound);
    forall y: Solo, a: Action | Sane(y) ensures Sane(Apply(y, a)) {
      ActionsKeepSane(y, a);
    }
    AllPermitted(World(g), ActionsOf(g, bound), (y, a) => true);
    RunsKeep(World(g), ActionsOf(g, bound), (y, a) => true, y => Sane(y));
  }
}
