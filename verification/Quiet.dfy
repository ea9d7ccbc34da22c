// What a pass that returns neither an error nor a requeue leaves undone: the
// exact condition under which it leaves nothing.
module QuietPasses {
  import opened Kubernetes
  import opened Names
  import opened Desired
  import opened ApiStore
  import opened ReconcilePass
  import opened SoloRuns
  import opened Completion
  import opened Provenance
  import opened Work
  import opened ScriptedPass
  import opened Convergence
  import opened SpecEdits

  // No child is missing and no replica count wrong.
  ghost predicate AllDone(st: Store, c: Request, spec: ClusterSpec) {
    forall r :: Need(st, c, spec, r) == 0
  }

  // ---- When the worker Deployment is the last thing missing ----

  // The worker Deployment is only there when everything is, and only once it
  // is there can a pass have seen a worker.
  ghost predicate WorkersLast(c: Request, spec: ClusterSpec, x: Solo) {
    var p := x.Pass();
    && Delivering(c, spec, x)
    && (Rank(p.pc) < REPORTING ==> !p.driveFailed)
    && (Present(x.store, c, WorkerDeployment) ==> AllDone(x.store, c, spec))
    && ((p.pc.WriteStatus? && p.pc.count != 0) || (Quiet(p) && spec.workers != 0) ==>
          Present(x.store, c, WorkerDeployment))
  }

  lemma NeedNeverGrows(c: Request, spec: ClusterSpec, x: Solo, act: Action, r: Role)
    requires Accurate(c, spec, x) && Steady(c, act)
    ensures Need(Apply(x, act).store, c, spec, r) <= Need(x.store, c, spec, r)
  {
    hide Accurate, Steady, Apply, Need;
    Balances(c, spec, x, act, r);
    WritesOnlyGrow(x, act);
    WritesOfPrefix(x.agent.writes, Apply(x, act).agent.writes, r);
  }

  // The worker Deployment is created last.
  lemma CreatedLast(c: Request, spec: ClusterSpec, x: Solo, ch: Choice)
    requires WorkersLast(c, spec, x) && ch.read.Latest?
    requires Present(Apply(x, Advance(ch)).store, c, WorkerDeployment)
    ensures AllDone(Apply(x, Advance(ch)).store, c, spec)
  {
    hide ChildKey, Accurate, Apply, Need, Present, NextCall, Applies;
    AccurateFacts(c, spec, x);
    var y := Apply(x, Advance(ch));
    forall r ensures Need(y.store, c, spec, r) == 0 {
      NeedNeverGrows(c, spec, x, Advance(ch), r);
      if !Present(x.store, c, WorkerDeployment) {
        OnlyDriveCreates(x, ch);
        if r == WorkerDeployment {
          CreatedWorkers(c, spec, x, ch);
        } else {
          assert Handled(x.Pass(), r) by { WorkersAreLast(r); }
        }
      }
    }
  }

  lemma WorkersAreLast(r: Role)
    ensures Position(r) <= Position(WorkerDeployment) <= 4
    ensures r != WorkerDeployment ==> Position(r) < Position(WorkerDeployment)
  {
  }

  lemma CreatedWorkers(c: Request, spec: ClusterSpec, x: Solo, ch: Choice)
    requires Accurate(c, spec, x) && x.Pass().pc == Drive(WorkerDeployment)
    requires !Present(x.store, c, WorkerDeployment) && Present(Apply(x, Advance(ch)).store, c, WorkerDeployment)
    ensures Need(Apply(x, Advance(ch)).store, c, spec, WorkerDeployment) == 0
  {
    hide ChildKey, Accurate, Apply, Need, Present, NextCall, Applies;
    var call := NextCall(x.Pass());
    if call.Some? && Applies(x.store, call.value, ch) {
      AppliedDrive(c, spec, x, ch);
    } else {
      IdleDrive(c, spec, x, ch);
    }
  }

  // A worker that is counted belongs to a Deployment that is there.
  lemma ReadWorkers(x: Solo, ch: Choice)
    requires x.Pass().pc.ReadWorker? && ch.read.Latest?
    ensures var y := Apply(x, Advance(ch)); var p := y.Pass();
      && p.inspected == x.Pass().inspected
      && (p.pc.WriteStatus? && p.pc.count != 0 ==> Present(x.store, x.Id(), WorkerDeployment))
      && (Quiet(p) && p.inspected.cluster.value.spec.workers != 0 ==> Present(x.store, x.Id(), WorkerDeployment))
  {
    hide ChildKey, DesiredState, History;
  }

  lemma CountedWorkers(c: Request, spec: ClusterSpec, x: Solo, ch: Choice)
    requires WorkersLast(c, spec, x) && ch.read.Latest?
    ensures var y := Apply(x, Advance(ch)); var p := y.Pass();
      (p.pc.WriteStatus? && p.pc.count != 0) || (Quiet(p) && spec.workers != 0) ==>
        Present(x.store, c, WorkerDeployment)
  {
    hide ChildKey, DesiredState, Need, Sane, Specified, Mirrors, Present, StoreStep, ReplyTo, Applies, AllDone;
    if x.Pass().pc.ReadWorker? {
      ReadWorkers(x, ch);
      hide Apply;
    } else {
      hide NextCall;
    }
  }

  lemma FailureEndsDriving(x: Solo, ch: Choice)
    requires Rank(x.Pass().pc) < REPORTING ==> !x.Pass().driveFailed
    ensures var p := Apply(x, Advance(ch)).Pass(); Rank(p.pc) < REPORTING ==> !p.driveFailed
  {
    hide ChildKey, DesiredState, StoreStep, NextCall, ReplyTo, Applies;
  }

  lemma AdvanceKeepsLast(c: Request, spec: ClusterSpec, x: Solo, ch: Choice)
    requires WorkersLast(c, spec, x) && ch.read.Latest?
    ensures WorkersLast(c, spec, Apply(x, Advance(ch)))
  {
    hide ChildKey, Delivering, Need, Present, AllDone, Apply, KeepsChildren, NothingLost, Sane;
    KeepsDelivering(c, spec, x, Advance(ch));
    DeliveringFacts(c, spec, x);
    hide Accurate;
    OwnHand(c, x, ch);
    ChildrenStay(x, Advance(ch));
    CountedWorkers(c, spec, x, ch);
    FailureEndsDriving(x, ch);
    if Present(Apply(x, Advance(ch)).store, c, WorkerDeployment) {
      CreatedLast(c, spec, x, ch);
    }
  }

  lemma OwnHand(c: Request, x: Solo, ch: Choice)
    ensures KeepsChildren(c, x, Advance(ch))
  {
  }

  lemma DeliveringFacts(c: Request, spec: ClusterSpec, x: Solo)
    requires Delivering(c, spec, x)
    ensures Accurate(c, spec, x) && Sane(x) && x.Id() == c
  {
  }

  lemma OthersKeepLast(c: Request, spec: ClusterSpec, x: Solo, act: Action)
    requires WorkersLast(c, spec, x) && Steady(c, act) && !act.Advance?
    ensures WorkersLast(c, spec, Apply(x, act))
  {
    hide ChildKey, Delivering, Need, Steady, ApplyEnv;
    KeepsDelivering(c, spec, x, act);
    DeliveringFacts(c, spec, x);
    if act.Environ? {
      forall r { EnvBalances(c, spec, x, act.env, r); }
      forall r ensures Need(x.store, c, spec, r) == Need(Apply(x, act).store, c, spec, r) {
        SameNeed(x.store, Apply(x, act).store, c, spec, r);
      }
    }
  }

  // With workers wanted and their Deployment missing, a quiet pass must have
  // seen it created, after everything else.
  lemma QuietAfterWorkers(c: Request, spec: ClusterSpec, x: Solo, acts: seq<Action>)
    requires Pends(c, spec, x) && SteadyRun(c, x, acts)
    requires spec.workers != 0 && !Present(x.store, c, WorkerDeployment)
    ensures var y := Exec(Apply(x, Begin), acts); Quiet(y.Pass()) ==> AllDone(y.store, c, spec)
  {
    hide Steady, Apply, Pends, Delivering, Exec, AllDone, Present;
    BegunDelivers(c, spec, x);
    assert WorkersLast(c, spec, Apply(x, Begin));
    hide WorkersLast;
    forall y: Solo, a: Action | WorkersLast(c, spec, y) && Steady(c, a) ensures WorkersLast(c, spec, Apply(y, a)) {
      SteadyKeepsLast(c, spec, y, a);
    }
    RunsKeep(Apply(x, Begin), acts, (y, a) => Steady(c, a), y => WorkersLast(c, spec, y));
    LastIsDone(c, spec, Exec(Apply(x, Begin), acts));
  }

  lemma SteadyKeepsLast(c: Request, spec: ClusterSpec, x: Solo, act: Action)
    requires WorkersLast(c, spec, x) && Steady(c, act)
    ensures WorkersLast(c, spec, Apply(x, act))
  {
    hide WorkersLast, Apply;
    if act.Advance? {
      AdvanceKeepsLast(c, spec, x, act.choice);
    } else {
      OthersKeepLast(c, spec, x, act);
    }
  }

  lemma LastIsDone(c: Request, spec: ClusterSpec, x: Solo)
    requires WorkersLast(c, spec, x) && spec.workers != 0
    ensures Quiet(x.Pass()) ==> AllDone(x.store, c, spec)
  {
    hide Delivering, AllDone, Present;
  }

  // What is done stays done.
  lemma DoneStaysDone(c: Request, spec: ClusterSpec, x: Solo, acts: seq<Action>)
    requires Pends(c, spec, x) && SteadyRun(c, x, acts) && AllDone(x.store, c, spec)
    ensures AllDone(Exec(Apply(x, Begin), acts).store, c, spec)
  {
    hide Steady, Apply, Pends, Delivering, Exec, Need, AtRest, Conserved;
    BegunDelivers(c, spec, x);
    var z := Apply(x, Begin);
    WorkIsConserved(c, spec, z, acts);
    forall r ensures Need(Exec(z, acts).store, c, spec, r) == 0 { OneRole(c, spec, z, Exec(z, acts), r); }
  }

  // ---- A rejected call that nobody hears of ----

  lemma ReachesRole(st: Store, c: Request, cl: Cluster, g: Config, q: Role)
    requires g.store == st && g.script == [] && g.agent.pass == StartPass(c) && IsCluster(st, c, cl) && WellKeyed(st)
    ensures var h := RunTo(g, DRIVING + Position(q)); Driving(st, c, cl, h) && h.agent.pass.pc == Drive(q)
  {
    hide StepConfig, Reading, Driving, WellKeyed, IsCluster, Position;
    var before := DRIVING + Position(q);
    assert before <= REPORTING by { WorkersAreLast(q); }
    FirstRead(st, c, cl, g);
    var f := StepConfig(g);
    CleanInspection(st, c, cl, f);
    CleanDrive(st, c, cl, RunTo(f, DRIVING), before);
    RunSplits(f, DRIVING, before);
    assert RunTo(g, before) == RunTo(f, before);
    AtRole(st, c, cl, RunTo(f, before), q);
  }

  lemma AtRole(st: Store, c: Request, cl: Cluster, g: Config, q: Role)
    requires Driving(st, c, cl, g) && Rank(g.agent.pass.pc) == DRIVING + Position(q)
    ensures g.agent.pass.pc == Drive(q)
  {
    hide DesiredState, ChildKey, History, Settled;
    if g.agent.pass.pc.Drive? {
      SamePosition(g.agent.pass.pc.role, q);
    }
  }

  // The call is rejected; the child and the workers are as before the pass.
  lemma RejectedStep(st: Store, c: Request, cl: Cluster, g: Config, q: Role)
    requires Driving(st, c, cl, g) && g.agent.pass.pc == Drive(q) && Need(st, c, cl.spec, q) == 1
    ensures var z := Apply(World(g), Advance(REJECT));
      && z.store == g.store && z.Pass() == g.agent.pass.(driveFailed := true, pc := ReadWorker)
  {
    hide DesiredState, DesiredChild, ChildKey, KeyOf, Accepts, History;
    DesiredRole(Some(cl), q);
    DesiredShape(cl, q);
  }

  lemma NotYetDriven(st: Store, c: Request, cl: Cluster, g: Config, q: Role)
    requires Driving(st, c, cl, g) && g.agent.pass.pc == Drive(q)
    ensures History(g.store, ChildKey(c, q)) == History(st, ChildKey(c, q))
    ensures History(g.store, ChildKey(c, WorkerDeployment)) == History(st, ChildKey(c, WorkerDeployment))
    ensures History(g.store, ClusterKey(c)) == History(st, ClusterKey(c))
  {
    hide DesiredState, ChildKey, History, Settled;
    WorkersAreLast(q);
    AddressKinds(c);
  }

  // The pass reads the workers and finds as many as wanted.
  lemma ContentRead(z: Solo, c: Request, cl: Cluster)
    requires z.Id() == c && z.Pass().pc == ReadWorker && z.Pass().inspected.cluster == Some(cl)
    requires AvailableOf(Current(z.store, ChildKey(c, WorkerDeployment))) == cl.spec.workers
    ensures var y := Apply(z, Advance(CLEAN));
      && y.store == z.store && y.Pass() == z.Pass().(pc := y.Pass().pc)
      && y.Pass().pc == if cl.spec.workers == cl.availableWorkers then Finished(Result(false))
                        else WriteStatus(cl.spec.workers)
  {
    hide DesiredState, ChildKey, History;
  }

  // It puts the number into the status, if that is not there already.
  lemma ContentWrite(z: Solo, c: Request, cl: Cluster)
    requires z.Id() == c && z.Pass().inspected.cluster == Some(cl)
    requires IsCluster(z.store, c, cl) && Request(cl.namespace, cl.name) == c
    requires z.Pass().pc == Finished(Result(false)) || z.Pass().pc == WriteStatus(cl.spec.workers)
    ensures var y := Apply(z, Advance(CLEAN));
      OnlyAt(z.store, y.store, ClusterKey(c)) && y.Pass() == z.Pass().(pc := Finished(Result(false)))
  {
    hide DesiredState, ChildKey, KeyOf, Accepts, Effect, History;
    if z.Pass().pc.WriteStatus? {
      CleanStatusWrite(z.store, c, cl, cl.spec.workers);
      hide ReplyTo, StoreAfter;
    }
  }

  // The children are dealt with up to q, whose create or update is rejected;
  // if the workers available are as wanted, the pass returns neither an error
  // nor a requeue.
  lemma LateRejection(c: Request, x: Solo, cl: Cluster, q: Role) returns (acts: seq<Action>)
    requires x.Id() == c && Sane(x) && IsCluster(x.store, c, cl) && Need(x.store, c, cl.spec, q) == 1
    requires AvailableOf(Current(x.store, ChildKey(c, WorkerDeployment))) == cl.spec.workers
    ensures forall a <- acts :: !a.Environ? && Steady(c, a)
    ensures var y := Exec(x, acts);
      && Quiet(y.Pass()) && y.Pass().driveFailed && y.Pass().inspected.cluster == Some(cl)
      && Need(y.store, c, cl.spec, q) == 1
  {
    hide DesiredState, DesiredChild, ChildKey, StepConfig, AgentSane, Steady, Apply, WholePass;
    var before := DRIVING + Position(q);
    var begun := WholePass(x, before);
    WholePassIsRun(x, before);
    var g := Config(x.store, [], Restart(x.agent));
    ReachesRole(x.store, c, cl, g, q);
    acts := begun + [Advance(REJECT)] + [Advance(CLEAN)] + [Advance(CLEAN)];
    ExecSnoc(x, begun, Advance(REJECT));
    ExecSnoc(x, begun + [Advance(REJECT)], Advance(CLEAN));
    ExecSnoc(x, begun + [Advance(REJECT)] + [Advance(CLEAN)], Advance(CLEAN));
    RejectedQuietly(x.store, c, cl, RunTo(g, before), q);
    forall a <- acts ensures !a.Environ? && Steady(c, a) { SmoothIsSteady(c, a); }
  }

  lemma SmoothIsSteady(c: Request, a: Action)
    ensures Smooth(a) || a == Advance(REJECT) ==> Steady(c, a) && !a.Environ?
  {
  }

  lemma RejectedQuietly(st: Store, c: Request, cl: Cluster, g: Config, q: Role)
    requires Driving(st, c, cl, g) && g.agent.pass.pc == Drive(q) && Need(st, c, cl.spec, q) == 1
    requires IsCluster(st, c, cl) && WellKeyed(st)
    requires AvailableOf(Current(st, ChildKey(c, WorkerDeployment))) == cl.spec.workers
    ensures var y := Apply(Apply(Apply(World(g), Advance(REJECT)), Advance(CLEAN)), Advance(CLEAN));
      && Quiet(y.Pass()) && y.Pass().driveFailed && y.Pass().inspected.cluster == Some(cl)
      && Need(y.store, c, cl.spec, q) == 1
  {
    hide DesiredState, DesiredChild, ChildKey, History, Need, Driving, Apply, Current, WellKeyed;
    RejectedStep(st, c, cl, g, q);
    DrivenCluster(st, c, cl, g);
    NotYetDriven(st, c, cl, g, q);
    OwnName(st, c, cl);
    CurrentOfSame(st, g.store, ClusterKey(c));
    CurrentOfSame(st, g.store, ChildKey(c, WorkerDeployment));
    var z := Apply(World(g), Advance(REJECT));
    ContentRead(z, c, cl);
    var w := Apply(z, Advance(CLEAN));
    ContentWrite(w, c, cl);
    ClusterIsNoChild(c, c, q);
    SameHistoryNeed(st, Apply(w, Advance(CLEAN)).store, c, cl.spec, q);
  }

  // The deployment controller reports n available workers; without a worker
  // Deployment there is nobody to report on.
  lemma WorkersReported(c: Request, x: Solo, cl: Cluster, n: int32)
    requires x.Id() == c && Sane(x) && IsCluster(x.store, c, cl)
    ensures var z := Apply(x, Environ(SetAvailable(ChildKey(c, WorkerDeployment), n)));
      && Sane(z) && z.agent == x.agent && IsCluster(z.store, c, cl)
      && (forall r :: Need(z.store, c, cl.spec, r) == Need(x.store, c, cl.spec, r))
      && AvailableOf(Current(z.store, ChildKey(c, WorkerDeployment)))
         == if Present(x.store, c, WorkerDeployment) then n else 0
  {
    hide DesiredState, AgentSane;
    var e := SetAvailable(ChildKey(c, WorkerDeployment), n);
    ActionsKeepSane(x, Environ(e));
    EnvFacts(x.store, e);
    DeploymentsAreDeployments(x, WorkerDeployment);
    ClusterIsNoChild(c, c, WorkerDeployment);
    forall r { RolesApart(c, r, WorkerDeployment); }
    hide ChildKey;
  }

  // With the workers there, or none wanted, any child that needs a write can
  // be passed over in silence.
  lemma PassedOver(c: Request, spec: ClusterSpec, x: Solo, q: Role) returns (acts: seq<Action>)
    requires Pends(c, spec, x) && Need(x.store, c, spec, q) == 1
    requires spec.workers == 0 || Present(x.store, c, WorkerDeployment)
    ensures SteadyRun(c, x, acts)
    ensures var y := Exec(Apply(x, Begin), acts); Quiet(y.Pass()) && Need(y.store, c, spec, q) == 1
  {
    hide ChildKey, AgentSane, Need, Current, Apply, AtRest, Delivering, Steady, Present;
    BegunDelivers(c, spec, x);
    var z := Apply(x, Begin);
    var cl := Current(x.store, ClusterKey(c)).value.cluster;
    assert Sane(z) && z.Id() == c by { AtRestFacts(c, spec, z); }
    var report := Environ(SetAvailable(ChildKey(c, WorkerDeployment), spec.workers));
    WorkersReported(c, z, cl, spec.workers);
    var rest := LateRejection(c, Apply(z, report), cl, q);
    acts := [report] + rest;
    assert acts[0] == report && acts[1..] == rest;
    assert Steady(c, report) by { ReportIsSteady(c, report); }
    AllPermitted(z, acts, (y, a) => Steady(c, a));
  }

  lemma AtRestFacts(c: Request, spec: ClusterSpec, x: Solo)
    requires AtRest(c, spec, x)
    ensures x.Id() == c && Sane(x)
  {
  }

  lemma ReportIsSteady(c: Request, report: Action)
    requires report.Environ? && report.env.SetAvailable?
    ensures Steady(c, report)
  {
  }

  // ---- The exact condition ----

  ghost predicate QuietMeansDone(c: Request, spec: ClusterSpec, x: Solo) {
    forall acts :: SteadyRun(c, x, acts) ==>
      var y := Exec(Apply(x, Begin), acts); Quiet(y.Pass()) ==> AllDone(y.store, c, spec)
  }

  // From the store as it is, does a quiet pass always mean that the work is
  // done? Exactly if it is done already, or workers are wanted and their
  // Deployment is missing.
  lemma QuietMeansDoneExactly(c: Request, spec: ClusterSpec, x: Solo)
    requires Pends(c, spec, x)
    ensures QuietMeansDone(c, spec, x)
            <==> AllDone(x.store, c, spec) || (spec.workers != 0 && !Present(x.store, c, WorkerDeployment))
  {
    hide Pends, SteadyRun, Apply, Exec, Present, Need;
    if AllDone(x.store, c, spec) {
      forall acts | SteadyRun(c, x, acts) ensures AllDone(Exec(Apply(x, Begin), acts).store, c, spec) {
        DoneStaysDone(c, spec, x, acts);
      }
    } else if spec.workers != 0 && !Present(x.store, c, WorkerDeployment) {
      forall acts | SteadyRun(c, x, acts)
        ensures var y := Exec(Apply(x, Begin), acts); Quiet(y.Pass()) ==> AllDone(y.store, c, spec)
      {
        QuietAfterWorkers(c, spec, x, acts);
      }
    } else {
      var q :| Need(x.store, c, spec, q) != 0;
      NeedIsOneOrZero(x.store, c, spec, q);
      var acts := PassedOver(c, spec, x, q);
      assert !AllDone(Exec(Apply(x, Begin), acts).store, c, spec);
    }
  }

  lemma DoneIsPresent(st: Store, c: Request, spec: ClusterSpec, r: Role)
    requires Need(st, c, spec, r) == 0
    ensures Present(st, c, r)
  {
  }

  lemma NeedIsOneOrZero(st: Store, c: Request, spec: ClusterSpec, r: Role)
    ensures Need(st, c, spec, r) == 0 || Need(st, c, spec, r) == 1
  {
  }

  // ---- It happens in a cluster that the operator built ----

  // The deployment controller reports n available workers, and a pass puts
  // the number into the status.
  lemma ReportedWorkers(c: Request, x: Solo, cl: Cluster, n: int32) returns (y: Solo, acts: seq<Action>, cur: Cluster)
    requires x.Id() == c && Sane(x) && IsCluster(x.store, c, cl)
    requires forall r :: Need(x.store, c, cl.spec, r) == 0
    ensures y == Exec(x, acts)
    ensures forall a <- acts :: Smooth(a) || a == Environ(SetAvailable(ChildKey(c, WorkerDeployment), n))
    ensures y.Id() == c && Sane(y) && IsCluster(y.store, c, cur) && cur.spec == cl.spec
    ensures cur.availableWorkers == n == AvailableOf(Current(y.store, ChildKey(c, WorkerDeployment)))
    ensures forall r :: Need(y.store, c, cl.spec, r) == 0
  {
    hide DesiredState, ChildKey, CleanPass, WholePass, Sane, ApplyEnv, Settled, Need, Current;
    var report := Environ(SetAvailable(ChildKey(c, WorkerDeployment), n));
    var z := Apply(x, report);
    assert Need(x.store, c, cl.spec, WorkerDeployment) == 0;
    DoneIsPresent(x.store, c, cl.spec, WorkerDeployment);
    WorkersReported(c, x, cl, n);
    var rest := WholePass(z, FINISHED);
    CleanPassIsRun(z);
    acts := [report] + rest;
    assert acts[0] == report && acts[1..] == rest;
    y := CleanPass(z.store, z.agent);
    PassKeepsSane(z);
    CleanPassConcludes(z.store, z.agent, cl) by { SaneParts(z); }
    ConcludedStatus(z.store, c, cl, y);
    cur := Current(y.store, ClusterKey(c)).value.cluster;
    forall r
      ensures Need(y.store, c, cl.spec, r) == 0
      ensures Current(y.store, ChildKey(c, r)) == Current(z.store, ChildKey(c, r))
    {
      SettledIsRight(z.store, y.store, c, cl, r);
      CurrentOfSame(z.store, y.store, ChildKey(c, r));
    }
  }

  // So complete does not mean as wanted: with workers wanted, nobody else
  // creating or deleting a child, and every child in place, a pass returns
  // neither an error nor a requeue although the worker Deployment still has
  // the replicas of the old spec. One call has failed.
  lemma QuietWithWrongReplicas(c: Request, replicas: int32, n: int32) returns (x: Solo, acts: seq<Action>)
    requires n != replicas && n != 0
    ensures Undisturbed(c, x, acts) && forall r :: !Present(x.store, c, r)
    ensures var y := Exec(x, acts);
      && Quiet(y.Pass()) && y.Pass().driveFailed && y.Pass().inspected.cluster.value.spec.workers == n
      && AllPresent(y.store, c)
      && Need(y.store, c, y.Pass().inspected.cluster.value.spec, WorkerDeployment) == 1
  {
    hide DesiredState, ChildKey, CleanPass, Sane, Need, Current, Apply, LonelyStart, IsCluster, InOrder, NothingLost;
    hide AllPresent, Idle, Present, Steady, KeepsChildren, Standing, Acknowledged, WholePass;
    var cl := LonelyCluster(c, replicas, 0);
    x := LonelyStart(c, cl);
    LonelyIsLegal(c, cl);
    LonelyIsThere(c, cl);
    var made := WholePass(x, FINISHED);
    CleanPassIsRun(x);
    var a := CleanPass(x.store, x.agent);
    var first := FirstPassStands(c, x, cl);
    StandingFacts(c, a, cl, cl, first);
    var b, reported, cur := ReportedWorkers(c, a, first, n);
    var edit := Environ(EditSpec(c, cur.spec.(workers := n)));
    var next := Edited(c, b, cur.spec.(workers := n), cur);
    var d := Apply(b, edit);
    RescaledNeed(c, b, d, cur.spec, n);
    var failing := LateRejection(c, d, next, WorkerDeployment);
    acts := made + reported + [edit] + failing;
    ExecConcat(x, made, reported);
    ExecSnoc(x, made + reported, edit);
    ExecConcat(x, made + reported + [edit], failing);
    forall act <- acts, y ensures KeepsChildren(c, y, act) { NoForeignHand(c, y, act); }
    AllPermitted(x, acts, (y, act) => KeepsChildren(c, y, act));
    QuiescenceMeansComplete(c, x, acts);
  }

  lemma RescaledNeed(c: Request, b: Solo, d: Solo, spec: ClusterSpec, n: int32)
    requires forall r :: Need(b.store, c, spec, r) == 0
    requires History(d.store, ChildKey(c, WorkerDeployment)) == History(b.store, ChildKey(c, WorkerDeployment))
    requires spec.workers != n
    ensures Need(d.store, c, spec.(workers := n), WorkerDeployment) == 1
    ensures Current(d.store, ChildKey(c, WorkerDeployment)) == Current(b.store, ChildKey(c, WorkerDeployment))
  {
    hide ChildKey;
    assert Need(b.store, c, spec, WorkerDeployment) == 0;
  }

  lemma NoForeignHand(c: Request, y: Solo, act: Action)
    requires !act.Environ? || act.env.EditSpec? || act.env.SetAvailable?
    ensures KeepsChildren(c, y, act)
  {
  }
}
