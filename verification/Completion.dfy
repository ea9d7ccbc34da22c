// Over whole runs: the operator deletes nothing, creates children in order,
// and does not fall silent before the cluster is complete.
module Completion {
  import opened Kubernetes
  import opened Names
  import opened Desired
  import opened ApiStore
  import opened ReconcilePass
  import opened SoloRuns

  // ---- No deletion ----

  ghost predicate DesiredReady(x: Solo) {
    DRIVING <= Rank(x.Pass().pc) < FINISHED ==> x.Pass().desired == DesiredState(x.Pass().inspected.cluster)
  }

  lemma ReadyNeverDeletes(x: Solo)
    requires DesiredReady(x)
    ensures NextCall(x.Pass()).Some? ==> !NextCall(x.Pass()).value.Delete?
  {
    hide DesiredChild, ChildKey;
    if x.Pass().pc.Drive? {
      DesiredRole(x.Pass().inspected.cluster, x.Pass().pc.role);
    }
  }

  lemma IdleIsReady(x: Solo)
    requires Between(x)
    ensures DesiredReady(x)
  {
  }

  lemma ActionsKeepReady(x: Solo, act: Action)
    requires DesiredReady(x)
    ensures DesiredReady(Apply(x, act))
  {
    hide DesiredState, ReplyTo, Applies, NextCall, StoreStep, ApplyEnv;
  }

  // From any store whatever, under any interference, faults and stale reads,
  // no run reaches a point where the operator is about to delete something.
  lemma OperatorNeverDeletes(x: Solo, acts: seq<Action>)
    requires Between(x)
    ensures var p := Exec(x, acts).Pass(); NextCall(p).Some? ==> !NextCall(p).value.Delete?
  {
    hide DesiredReady, Apply;
    forall y: Solo, a: Action | DesiredReady(y) ensures DesiredReady(Apply(y, a)) {
      ActionsKeepReady(y, a);
    }
    AllPermitted(x, acts, (y, a) => true);
    assert DesiredReady(x) by { IdleIsReady(x); }
    RunsKeep(x, acts, (y, a) => true, y => DesiredReady(y));
    ReadyNeverDeletes(Exec(x, acts));
  }

  // ---- Creation order ----

  ghost predicate Present(st: Store, c: Request, r: Role) {
    Current(st, ChildKey(c, r)).Some?
  }

  ghost predicate AllPresent(st: Store, c: Request) {
    forall r :: Present(st, c, r)
  }

  // The children that exist come in this order, without a gap.
  ghost predicate InOrder(st: Store, c: Request) {
    && (Present(st, c, CatalogConfigMap) ==> Present(st, c, PrestoConfigMap))
    && (Present(st, c, CoordinatorDeployment) ==> Present(st, c, CatalogConfigMap))
    && (Present(st, c, CoordinatorService) ==> Present(st, c, CoordinatorDeployment))
    && (Present(st, c, WorkerDeployment) ==> Present(st, c, CoordinatorService))
  }

  // A child that has ever existed exists.
  ghost predicate NothingLost(st: Store, c: Request) {
    forall r, j :: 0 <= j < |History(st, ChildKey(c, r))| && History(st, ChildKey(c, r))[j].Some? ==> Present(st, c, r)
  }

  // Nobody else deletes a child of c, or creates one that is not there.
  // Overwriting a child that exists is allowed.
  ghost predicate KeepsChildren(c: Request, x: Solo, act: Action) {
    act.Environ? ==> forall r :: EnvKey(act.env) == ChildKey(c, r) ==>
      && (act.env.ForeignPut? ==> Present(x.store, c, r))
      && (act.env.ForeignDelete? ==> !Present(x.store, c, r))
  }

  // The history is the old one, or has one more value, which is an object.
  ghost predicate GrowsByObject(h: seq<Option<Object>>, h': seq<Option<Object>>) {
    h' == h || (|h'| == |h| + 1 && h'[..|h|] == h && h'[|h|].Some?)
  }

  lemma ChildrenStay(x: Solo, act: Action)
    requires Sane(x) && KeepsChildren(x.Id(), x, act)
    ensures forall r :: Present(x.store, x.Id(), r) ==> Present(Apply(x, act).store, x.Id(), r)
    ensures NothingLost(x.store, x.Id()) ==> NothingLost(Apply(x, act).store, x.Id())
  {
    hide DesiredState, ChildKey, Apply, Sane, KeepsChildren, History;
    forall r
      ensures GrowsByObject(History(x.store, ChildKey(x.Id(), r)), History(Apply(x, act).store, ChildKey(x.Id(), r)))
    {
      ChildHistoryStep(x, act, r);
    }
  }

  lemma ChildHistoryStep(x: Solo, act: Action, r: Role)
    requires Sane(x) && KeepsChildren(x.Id(), x, act)
    ensures GrowsByObject(History(x.store, ChildKey(x.Id(), r)), History(Apply(x, act).store, ChildKey(x.Id(), r)))
  {
    hide DesiredState, ChildKey, KeyOf;
    var k := ChildKey(x.Id(), r);
    match act
    case Begin =>
    case Environ(e) =>
      EnvFacts(x.store, e);
    case Advance(ch) =>
      var call := NextCall(x.Pass());
      if call.Some? {
        ReadyNeverDeletes(x);
        hide NextCall, Sane;
        CallFacts(x.store, call.value, ch) by { SaneParts(x); }
      }
  }

  lemma SaneParts(x: Solo)
    requires Sane(x)
    ensures WellKeyed(x.store) && AgentSane(x.store, x.agent)
  {
  }

  // Past the drive step, unless the pass ended in an error.
  predicate Reporting(p: Pass) {
    p.pc.ReadWorker? || p.pc.WriteStatus? || (p.pc.Finished? && p.pc.outcome.Result?)
  }

  ghost predicate Driven(x: Solo) {
    var p := x.Pass();
    && (Rank(p.pc) < REPORTING ==> !p.driveFailed)
    && (p.pc.Drive? && p.inspected.cluster.Some? ==>
          forall q :: Position(q) < Position(p.pc.role) ==> Present(x.store, x.Id(), q))
    && (Reporting(p) && p.inspected.cluster.Some? && !p.driveFailed ==> AllPresent(x.store, x.Id()))
  }

  ghost predicate Orderly(c: Request, x: Solo) {
    x.Id() == c && Sane(x) && InOrder(x.store, c) && NothingLost(x.store, c) && Driven(x)
  }

  // An advance of the drive step either leaves its child in place or fails.
  lemma DriveLeavesChild(x: Solo, ch: Choice)
    requires Sane(x) && NothingLost(x.store, x.Id()) && x.Pass().pc.Drive? && x.Pass().inspected.cluster.Some?
    ensures var y := Apply(x, Advance(ch)); y.Pass().driveFailed || Present(y.store, x.Id(), x.Pass().pc.role)
  {
    hide DesiredState, ChildKey, KeyOf, DesiredChild;
    var p := x.Pass();
    DesiredRole(p.inspected.cluster, p.pc.role);
    InspectedIsPresent(x, p.pc.role);
    if NextCall(p).Some? {
      CallsStayHome(x);
    }
    hide Sane, NothingLost, History;
  }

  lemma InspectedIsPresent(x: Solo, r: Role)
    requires Sane(x) && NothingLost(x.store, x.Id())
    ensures x.Pass().inspected.children.Child(r).Some? ==> Present(x.store, x.Id(), r)
  {
    hide ChildKey, DesiredState;
    var o := x.Pass().inspected.children.Child(r);
    assert o.Some? ==> WasThere(x.store, ChildKey(x.Id(), r), o.value);
  }

  lemma ActionsKeepOrder(c: Request, x: Solo, act: Action)
    requires Orderly(c, x) && KeepsChildren(c, x, act)
    ensures Orderly(c, Apply(x, act))
  {
    hide DesiredState, ChildKey, Apply, Sane, NothingLost, InOrder, Driven, KeepsChildren;
    ActionsKeepSane(x, act);
    ChildrenStay(x, act);
    if act.Advance? {
      AdvanceKeepsOrder(c, x, act.choice);
      AdvanceKeepsDriven(c, x, act.choice);
    } else {
      OthersKeepOrder(c, x, act);
    }
  }

  lemma OthersKeepOrder(c: Request, x: Solo, act: Action)
    requires Orderly(c, x) && KeepsChildren(c, x, act) && !act.Advance?
    ensures InOrder(Apply(x, act).store, c) && Driven(Apply(x, act))
  {
    hide DesiredState, ChildKey, ApplyEnv, Sane, NothingLost, Present;
    ChildrenStay(x, act);
    OthersCreateNothing(x, act);
  }

  lemma AdvanceKeepsOrder(c: Request, x: Solo, ch: Choice)
    requires Orderly(c, x)
    ensures InOrder(Apply(x, Advance(ch)).store, c)
  {
    hide DesiredState, ChildKey, Apply, Sane, NothingLost, Present;
    ChildrenStay(x, Advance(ch));
    OnlyDriveCreates(x, ch);
  }

  lemma AdvanceKeepsDriven(c: Request, x: Solo, ch: Choice)
    requires Orderly(c, x)
    ensures Driven(Apply(x, Advance(ch)))
  {
    hide DesiredState, DesiredChild, ChildKey, Applies, ReplyTo, StoreAfter, Sane, NothingLost, Present, InOrder;
    ChildrenStay(x, Advance(ch));
    if x.Pass().pc.Drive? && x.Pass().inspected.cluster.Some? {
      DriveLeavesChild(x, ch);
    }
    hide StoreStep, NextCall;
  }

  // A child can only appear while the drive step is at its role.
  lemma OnlyDriveCreates(x: Solo, ch: Choice)
    requires Sane(x)
    ensures forall r :: Present(Apply(x, Advance(ch)).store, x.Id(), r) && !Present(x.store, x.Id(), r) ==>
      x.Pass().pc == Drive(r) && x.Pass().inspected.cluster.Some?
  {
    hide DesiredState, KeyOf, Accepts, DesiredChild;
    AdvanceWritesAtHome(x, ch);
    forall r, q { RolesApart(x.Id(), r, q); }
    hide ChildKey;
  }

  lemma OthersCreateNothing(x: Solo, act: Action)
    requires Sane(x) && KeepsChildren(x.Id(), x, act) && !act.Advance?
    ensures forall r :: Present(Apply(x, act).store, x.Id(), r) ==> Present(x.store, x.Id(), r)
  {
    hide DesiredState, ChildKey, KeyOf;
    if act.Environ? {
      EnvFacts(x.store, act.env);
    }
  }

  // A run that starts between passes, with the children forming a prefix of
  // the drive order (none of them, say), in which nobody else creates or
  // deletes a child. CR edits, hand edits of children, scaling, status reports,
  // faults and stale reads are all allowed.
  ghost predicate Undisturbed(c: Request, x: Solo, acts: seq<Action>) {
    && x.Id() == c && Idle(x) && Sane(x) && InOrder(x.store, c) && NothingLost(x.store, c)
    && Permitted(x, acts, (y, a) => KeepsChildren(c, y, a))
  }

  // In every run, through any faults and stale reads, even mid-pass.
  lemma ChildrenAppearInOrder(c: Request, x: Solo, acts: seq<Action>)
    requires Undisturbed(c, x, acts)
    ensures InOrder(Exec(x, acts).store, c) && NothingLost(Exec(x, acts).store, c)
  {
    hide DesiredState, ChildKey;
    forall y: Solo, a: Action | Orderly(c, y) && KeepsChildren(c, y, a) ensures Orderly(c, Apply(y, a)) {
      ActionsKeepOrder(c, y, a);
    }
    RunsKeep(x, acts, (y, a) => KeepsChildren(c, y, a), y => Orderly(c, y));
  }

  // ---- Quiescence ----

  // The stored status was, at the inspected version or the next one, equal to
  // the wanted number of workers of the inspected version.
  ghost predicate Acknowledged(st: Store, c: Request, cl: Cluster) {
    exists i :: cl.resourceVersion <= i <= cl.resourceVersion + 1 &&
      IsVersion(st, c, cl.(availableWorkers := cl.spec.workers, resourceVersion := i))
  }

  // The pass returned neither an error nor a requeue, on an existing cluster.
  predicate Quiet(p: Pass) {
    p.pc == Finished(Result(false)) && p.inspected.cluster.Some?
  }

  ghost predicate Honest(c: Request, x: Solo) {
    var p := x.Pass();
    && Orderly(c, x)
    && (p.pc.WriteStatus? && p.pc.count != 0 ==> Present(x.store, c, WorkerDeployment))
    && (Quiet(p) ==>
          && Acknowledged(x.store, c, p.inspected.cluster.value)
          && (p.inspected.cluster.value.spec.workers != 0 ==> Present(x.store, c, WorkerDeployment)))
  }

  lemma AcknowledgedPersists(st: Store, st': Store, c: Request, cl: Cluster)
    requires Acknowledged(st, c, cl) && Extends(st, st')
    ensures Acknowledged(st', c, cl)
  {
    assert History(st, ClusterKey(c)) <= History(st', ClusterKey(c));
    var i :| cl.resourceVersion <= i <= cl.resourceVersion + 1 &&
      IsVersion(st, c, cl.(availableWorkers := cl.spec.workers, resourceVersion := i));
    assert IsVersion(st', c, cl.(availableWorkers := cl.spec.workers, resourceVersion := i));
  }

  // Available workers can only be read off a worker Deployment that exists.
  lemma WorkersComeFromDeployment(x: Solo, ch: Choice)
    requires Sane(x) && NothingLost(x.store, x.Id()) && x.Pass().pc.ReadWorker? && x.Pass().inspected.cluster.Some?
    ensures var r := ReplyTo(x.store, Get(ChildKey(x.Id(), WorkerDeployment)), ch);
      r.Found? ==> Present(x.store, x.Id(), WorkerDeployment)
  {
    hide ChildKey, DesiredState;
    if ReplyTo(x.store, Get(ChildKey(x.Id(), WorkerDeployment)), ch).Found? {
      ReadsAreHistory(x.store, ChildKey(x.Id(), WorkerDeployment), ch);
    }
  }

  lemma ReportIsHonest(c: Request, x: Solo, ch: Choice)
    requires Honest(c, x) && (x.Pass().pc.ReadWorker? || x.Pass().pc.WriteStatus?)
    ensures var y := Apply(x, Advance(ch)); var p := y.Pass();
      && (p.pc.WriteStatus? && p.pc.count != 0 ==> Present(x.store, c, WorkerDeployment))
      && (Quiet(p) ==>
            && Acknowledged(y.store, c, p.inspected.cluster.value)
            && (p.inspected.cluster.value.spec.workers != 0 ==> Present(x.store, c, WorkerDeployment)))
  {
    hide DesiredState, ChildKey, Orderly;
    assert Sane(x) && NothingLost(x.store, x.Id()) && x.Id() == c by { HonestFacts(c, x); }
    var p := x.Pass();
    var y := Apply(x, Advance(ch));
    if p.inspected.cluster.Some? {
      var cl := p.inspected.cluster.value;
      if p.pc.ReadWorker? {
        WorkersComeFromDeployment(x, ch);
        if Quiet(y.Pass()) {
          assert cl == cl.(availableWorkers := cl.spec.workers, resourceVersion := cl.resourceVersion);
          assert IsVersion(y.store, c, cl.(availableWorkers := cl.spec.workers, resourceVersion := cl.resourceVersion));
        }
      } else if Quiet(y.Pass()) {
        StatusWrite(x.store, c, cl, p.pc.count, ch);
        assert IsVersion(y.store, c,
                         cl.(availableWorkers := cl.spec.workers, resourceVersion := cl.resourceVersion + 1));
      }
    }
  }

  lemma HonestFacts(c: Request, x: Solo)
    requires Orderly(c, x)
    ensures Sane(x) && NothingLost(x.store, c) && x.Id() == c
  {
  }

  lemma ActionsKeepHonesty(c: Request, x: Solo, act: Action)
    requires Honest(c, x) && KeepsChildren(c, x, act)
    ensures Honest(c, Apply(x, act))
  {
    hide DesiredState, ChildKey, Sane, InOrder, NothingLost, Driven, StoreAfter, ApplyEnv, Acknowledged;
    var p, y := x.Pass(), Apply(x, act);
    ActionsKeepOrder(c, x, act);
    ActionsKeepSane(x, act);
    ChildrenStay(x, act);
    if Quiet(p) {
      AcknowledgedPersists(x.store, y.store, c, p.inspected.cluster.value);
    }
    if act.Advance? && (p.pc.ReadWorker? || p.pc.WriteStatus?) {
      ReportIsHonest(c, x, act.choice);
    }
  }

  lemma QuietRuns(c: Request, x: Solo, acts: seq<Action>)
    requires Undisturbed(c, x, acts)
    ensures Honest(c, Exec(x, acts))
  {
    hide DesiredState, ChildKey;
    forall y: Solo, a: Action | Honest(c, y) && KeepsChildren(c, y, a) ensures Honest(c, Apply(y, a)) {
      ActionsKeepHonesty(c, y, a);
    }
    RunsKeep(x, acts, (y, a) => KeepsChildren(c, y, a), y => Honest(c, y));
  }

  // Although an error of the drive step is only logged, a pass that ends with
  // neither error nor requeue leaves all five children in place and the status
  // acknowledged, if it wants any worker at all or if no drive write failed.
  lemma QuiescenceMeansComplete(c: Request, x: Solo, acts: seq<Action>)
    requires Undisturbed(c, x, acts)
    ensures var y := Exec(x, acts); var p := y.Pass();
      Quiet(p) && (p.inspected.cluster.value.spec.workers != 0 || !p.driveFailed) ==>
        AllPresent(y.store, c) && Acknowledged(y.store, c, p.inspected.cluster.value)
  {
    hide DesiredState, ChildKey, Sane, Acknowledged;
    QuietRuns(c, x, acts);
    HonestQuiet(c, Exec(x, acts));
  }

  lemma HonestQuiet(c: Request, x: Solo)
    requires Honest(c, x)
    ensures var p := x.Pass();
      Quiet(p) && (p.inspected.cluster.value.spec.workers != 0 || !p.driveFailed) ==>
        AllPresent(x.store, c) && Acknowledged(x.store, c, p.inspected.cluster.value)
  {
    hide DesiredState, ChildKey, Sane, Acknowledged;
    if Present(x.store, c, WorkerDeployment) {
      forall r ensures Present(x.store, c, r) {
        assert r == WorkerDeployment || Position(r) < Position(WorkerDeployment);
      }
    }
  }

  // ---- Exactly when silence can be trusted ----

  ghost predicate SilenceMeansComplete(workers: int32) {
    forall c, x, acts :: Undisturbed(c, x, acts) ==>
      var y := Exec(x, acts);
      Quiet(y.Pass()) && y.Pass().inspected.cluster.value.spec.workers == workers ==> AllPresent(y.store, c)
  }

  const REJECT: Choice := Choice(Rejected, Latest)

  // A CR with its wanted and available workers, and nothing else in the store.
  function LonelyCluster(c: Request, workers: int32, available: int32): Cluster {
    Cluster(c.namespace, c.name, 1, ClusterSpec("", "", workers, map[], map[], map[], map[]), available)
  }

  ghost function LonelyStart(c: Request, cl: Cluster): Solo {
    Solo(map[ClusterKey(c) := [None, Some(PrestoCluster(cl))]],
         Agent(StartPass(c).(pc := Finished(Result(false))), [], [], 0))
  }

  // Stored at the address c as its first version.
  predicate FirstOf(c: Request, cl: Cluster) {
    cl.namespace == c.namespace && cl.name == c.name && cl.resourceVersion == 1
  }

  // Read the CR, then find the five children missing.
  lemma LonelyInspection(c: Request, cl: Cluster) returns (acts: seq<Action>)
    ensures forall a <- acts :: !a.Environ?
    ensures var y := Exec(LonelyStart(c, cl), acts);
      && y.store == LonelyStart(c, cl).store && y.agent.events == []
      && y.agent.pass ==
           Pass(c, Inspected(Some(cl), NO_CHILDREN), DesiredState(Some(cl)), false, Drive(PrestoConfigMap))
  {
    hide DesiredState, ChildKey;
    var x := LonelyStart(c, cl);
    acts := [Begin];
    ExecSnoc(x, [], Begin);
    assert [] + acts == acts;
    var y := Apply(x, Begin);
    for i := 0 to 6
      invariant forall a <- acts :: !a.Environ?
      invariant y == Exec(x, acts) && y.store == x.store && y.agent.events == []
      invariant y.agent.pass == Pass(c, Inspected(if i == 0 then None else Some(cl), NO_CHILDREN),
        if i < 6 then NO_CHILDREN else DesiredState(Some(cl)), false, y.Pass().pc)
      invariant Rank(y.Pass().pc) == i
    {
      ExecSnoc(x, acts, Advance(CLEAN));
      LonelyRead(c, cl, y, i);
      acts := acts + [Advance(CLEAN)];
      y := Apply(y, Advance(CLEAN));
    }
  }

  lemma LonelyRead(c: Request, cl: Cluster, y: Solo, i: nat)
    requires i < 6 && y.store == LonelyStart(c, cl).store && Rank(y.Pass().pc) == i
    requires y.agent.pass == Pass(c, Inspected(if i == 0 then None else Some(cl), NO_CHILDREN),
                                  NO_CHILDREN, false, y.Pass().pc)
    ensures var z := Apply(y, Advance(CLEAN));
      && z.store == y.store && Rank(z.Pass().pc) == i + 1 && z.agent.events == y.agent.events
      && z.agent.pass == Pass(c, Inspected(Some(cl), NO_CHILDREN),
           if i < 5 then NO_CHILDREN else DesiredState(Some(cl)), false, z.Pass().pc)
  {
    hide DesiredState;
    assert forall r :: ChildKey(c, r) != ClusterKey(c);
    hide ChildKey;
  }

  // The create is rejected, and no worker Deployment is found.
  lemma LonelyFailure(c: Request, cl: Cluster, y: Solo)
    requires y.store == LonelyStart(c, cl).store && cl.namespace == c.namespace && cl.name == c.name
    requires y.agent.pass ==
      Pass(c, Inspected(Some(cl), NO_CHILDREN), DesiredState(Some(cl)), false, Drive(PrestoConfigMap))
    ensures var z := Apply(Apply(y, Advance(REJECT)), Advance(CLEAN));
      && z.store == y.store && z.agent.events == y.agent.events && z.Pass().inspected == y.Pass().inspected
      && z.Id() == c
      && z.Pass().pc == if cl.availableWorkers != 0 then WriteStatus(0) else Finished(Result(cl.spec.workers != 0))
  {
    hide DesiredState, DesiredChild;
    assert ChildKey(c, WorkerDeployment) != ClusterKey(c);
    hide ChildKey, KeyOf;
    DesiredRole(Some(cl), PrestoConfigMap);
    var z := Apply(y, Advance(REJECT));
    assert z.Pass().pc == ReadWorker && z.store == y.store;
  }

  lemma LonelyIsLegal(c: Request, cl: Cluster)
    requires FirstOf(c, cl)
    ensures var x := LonelyStart(c, cl);
      && x.Id() == c && Idle(x) && Sane(x) && InOrder(x.store, c) && NothingLost(x.store, c)
      && Current(x.store, ClusterKey(c)) == Some(PrestoCluster(cl)) && forall r :: !Present(x.store, c, r)
  {
    hide DesiredState;
    assert forall r :: ChildKey(c, r) != ClusterKey(c);
    hide ChildKey;
  }

  // A run whose first create is rejected, up to the reading of the workers.
  lemma LonelyRun(c: Request, cl: Cluster) returns (acts: seq<Action>)
    requires FirstOf(c, cl)
    ensures forall a <- acts :: !a.Environ?
    ensures var x, y := LonelyStart(c, cl), Exec(LonelyStart(c, cl), acts);
      && y.store == x.store && y.agent.events == [] && y.Id() == c && y.Pass().inspected.cluster == Some(cl)
      && y.Pass().pc == if cl.availableWorkers != 0 then WriteStatus(0) else Finished(Result(cl.spec.workers != 0))
  {
    hide DesiredState, Apply, LonelyStart;
    var x := LonelyStart(c, cl);
    var looked := LonelyInspection(c, cl);
    acts := looked + [Advance(REJECT), Advance(CLEAN)];
    assert acts == looked + [Advance(REJECT)] + [Advance(CLEAN)];
    ExecSnoc(x, looked, Advance(REJECT));
    ExecSnoc(x, looked + [Advance(REJECT)], Advance(CLEAN));
    LonelyFailure(c, cl, Exec(x, looked));
  }

  // The first create is rejected, the error is logged, and as no worker is
  // wanted and none is available the pass reports success.
  lemma SilentFailure(c: Request) returns (x: Solo, acts: seq<Action>)
    ensures Undisturbed(c, x, acts)
    ensures var y := Exec(x, acts);
      && Quiet(y.Pass()) && y.Pass().inspected.cluster.value.spec.workers == 0
      && forall r :: !Present(y.store, c, r)
  {
    hide DesiredState, Apply, Sane, InOrder, NothingLost, Idle, Present, LonelyStart;
    var cl := LonelyCluster(c, 0, 0);
    x := LonelyStart(c, cl);
    LonelyIsLegal(c, cl);
    acts := LonelyRun(c, cl);
    AllPermitted(x, acts, (y, a) => KeepsChildren(c, y, a));
  }

  // For which numbers of workers does a quiet pass always mean a complete
  // cluster? For every number but zero.
  lemma SilenceTrustedUnlessZero(workers: int32)
    ensures SilenceMeansComplete(workers) <==> workers != 0
  {
    if workers != 0 {
      forall c, x, acts | Undisturbed(c, x, acts)
        ensures var y := Exec(x, acts);
          Quiet(y.Pass()) && y.Pass().inspected.cluster.value.spec.workers == workers ==> AllPresent(y.store, c)
      {
        QuiescenceMeansComplete(c, x, acts);
      }
    } else {
      var c := Request("", "");
      var x, acts := SilentFailure(c);
      assert !Present(Exec(x, acts).store, c, PrestoConfigMap);
    }
  }
}
