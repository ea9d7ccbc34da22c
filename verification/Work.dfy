// For a fixed CR, current reads and no foreign edits of children: the work
// left to do and the writes made add up to a constant, so a run makes at most
// one write per child however many calls fail, and no write conflicts.
module Work {
  import opened Kubernetes
  import opened Names
  import opened Desired
  import opened ApiStore
  import opened ReconcilePass
  import opened SoloRuns
  import opened Completion
  import opened Provenance

  // Only availability reports touch the cluster's addresses; reads are current.
  ghost predicate Steady(c: Request, act: Action) {
    match act
    case Begin => true
    case Advance(ch) => ch.read.Latest?
    case Environ(e) => Owns(c, EnvKey(e)) ==> e.SetAvailable?
  }

  ghost predicate Specified(st: Store, c: Request, spec: ClusterSpec) {
    var o := Current(st, ClusterKey(c));
    o.Some? && o.value.PrestoCluster? && o.value.cluster.spec == spec
  }

  // One for a missing child or a Deployment with the wrong replicas.
  ghost function Need(st: Store, c: Request, spec: ClusterSpec, r: Role): nat {
    var o := Current(st, ChildKey(c, r));
    if o.None? || (IsDeployment(r) && ReplicasOf(o.value) != WantedReplicas(spec, r)) then 1 else 0
  }

  function ReplicasAt(st: Store, c: Request, r: Role): int32 {
    var o := Current(st, ChildKey(c, r));
    if o.Some? then ReplicasOf(o.value) else 0
  }

  // Where nothing is needed, one coordinator and the wanted workers run.
  lemma NoNeedReplicas(st: Store, c: Request, spec: ClusterSpec)
    requires forall r :: Need(st, c, spec, r) == 0
    ensures ReplicasAt(st, c, CoordinatorDeployment) == 1 && ReplicasAt(st, c, WorkerDeployment) == spec.workers
  {
    hide ChildKey;
    assert Need(st, c, spec, CoordinatorDeployment) == 0 && Need(st, c, spec, WorkerDeployment) == 0;
  }

  function WritesOf(writes: seq<ChildWrite>, r: Role): nat {
    if writes == [] then 0
    else WritesOf(writes[..|writes| - 1], r) + if writes[|writes| - 1].role == r then 1 else 0
  }

  lemma WritesOfSnoc(w: seq<ChildWrite>, q: Role, v: nat, r: Role)
    ensures WritesOf(w + [ChildWrite(q, v)], r) == WritesOf(w, r) + if q == r then 1 else 0
  {
    assert (w + [ChildWrite(q, v)])[..|w|] == w;
  }

  // The inspected child agrees with the stored one where the drive step looks.
  predicate Mirrors(seen: Option<Object>, stored: Option<Object>) {
    (seen.Some? <==> stored.Some?) && (seen.Some? ==> ReplicasOf(seen.value) == ReplicasOf(stored.value))
  }

  // The child has been read by this pass and not yet driven.
  predicate Pending(pc: Pc, r: Role) {
    match pc
    case ReadChild(q) => ReadPosition(r) < ReadPosition(q)
    case Drive(q) => Position(q) <= Position(r)
    case _ => false
  }

  ghost predicate Accurate(c: Request, spec: ClusterSpec, x: Solo) {
    var p := x.Pass();
    && x.Id() == c && Sane(x) && Specified(x.store, c, spec)
    && (0 < Rank(p.pc) < FINISHED ==> p.inspected.cluster.Some? && p.inspected.cluster.value.spec == spec)
    && (forall r :: Pending(p.pc, r) ==> Mirrors(p.inspected.children.Child(r), Current(x.store, ChildKey(c, r))))
  }

  // ---- One drive step ----

  // What the call for a child is for: had the inspector seen the child as it
  // is, afterwards it exists exactly if desired, with the desired replicas,
  // and there is no call where that is so already.
  lemma DriveCallConforms(st: Store, k: Key, desired: Option<Object>, inspected: Option<Object>)
    requires WellKeyed(st) && Current(st, k) == inspected
    requires desired.Some? ==> KeyOf(desired.value) == k && !desired.value.PrestoCluster?
    ensures var call := DriveCall(desired, inspected);
      var after := Current(if call.None? then st else StoreAfter(st, call.value, CLEAN), k);
      && (after.Some? <==> desired.Some?)
      && (desired.Some? ==> ReplicasOf(after.value) == ReplicasOf(desired.value))
      && (call.None? <==> (inspected.Some? <==> desired.Some?)
                          && (desired.Some? ==> ReplicasOf(inspected.value) == ReplicasOf(desired.value)))
  {
    assert inspected.Some? ==> Fits(inspected.value, k, |History(st, k)| - 1);
  }


  // The drive step calls exactly when there is work, and the server accepts.
  lemma DriveMeetsNeed(c: Request, spec: ClusterSpec, x: Solo)
    requires Accurate(c, spec, x) && x.Pass().pc.Drive?
    ensures NextCall(x.Pass()).Some? <==> Need(x.store, c, spec, x.Pass().pc.role) == 1
    ensures NextCall(x.Pass()).Some? ==> Accepts(x.store, NextCall(x.Pass()).value)
  {
    hide ChildKey, DesiredState, DesiredChild;
    var p := x.Pass();
    DesiredRole(p.inspected.cluster, p.pc.role);
    DesiredShape(p.inspected.cluster.value, p.pc.role);
    assert Pending(p.pc, p.pc.role);
    if NextCall(p).Some? {
      CallsStayHome(x);
    }
  }

  lemma AppliedDrive(c: Request, spec: ClusterSpec, x: Solo, ch: Choice)
    requires Accurate(c, spec, x) && x.Pass().pc.Drive?
    requires NextCall(x.Pass()).Some? && Applies(x.store, NextCall(x.Pass()).value, ch)
    ensures var y := Apply(x, Advance(ch)); var r := x.Pass().pc.role;
      && Need(y.store, c, spec, r) == 0
      && y.agent.writes == x.agent.writes + [ChildWrite(r, x.Pass().inspected.cluster.value.resourceVersion)]
  {
    hide ChildKey, DesiredState, DesiredChild, KeyOf;
    var p := x.Pass();
    DesiredRole(p.inspected.cluster, p.pc.role);
    DesiredShape(p.inspected.cluster.value, p.pc.role);
    CallsStayHome(x);
    ReadyNeverDeletes(x);
    var call := NextCall(p).value;
    RecordFacts(x.store, CallKey(call), Some(Stamp(NewValue(x.store, call).value, |History(x.store, CallKey(call))|)));
  }

  lemma IdleDrive(c: Request, spec: ClusterSpec, x: Solo, ch: Choice)
    requires Accurate(c, spec, x) && x.Pass().pc.Drive?
    requires NextCall(x.Pass()).None? || !Applies(x.store, NextCall(x.Pass()).value, ch)
    ensures var y := Apply(x, Advance(ch)); y.store == x.store && y.agent.writes == x.agent.writes
  {
    hide ChildKey, DesiredState, DesiredChild, Accurate, NextCall;
  }

  // ---- Conservation, one action at a time ----

  ghost predicate Balance(c: Request, spec: ClusterSpec, x: Solo, y: Solo, r: Role) {
    WritesOf(y.agent.writes, r) + Need(y.store, c, spec, r) == WritesOf(x.agent.writes, r) + Need(x.store, c, spec, r)
  }

  lemma DrivenBalances(c: Request, spec: ClusterSpec, x: Solo, ch: Choice)
    requires Accurate(c, spec, x) && x.Pass().pc.Drive?
    ensures Balance(c, spec, x, Apply(x, Advance(ch)), x.Pass().pc.role)
  {
    hide ChildKey, DesiredState, DesiredChild, Apply, Accurate, NextCall, Applies, Current;
    var p := x.Pass();
    DriveMeetsNeed(c, spec, x);
    ElsewhereUnchanged(c, spec, x, ch, p.pc.role);
    if NextCall(p).Some? && Applies(x.store, NextCall(p).value, ch) {
      AppliedDrive(c, spec, x, ch);
      WritesOfSnoc(x.agent.writes, p.pc.role, p.inspected.cluster.value.resourceVersion, p.pc.role);
    } else {
      IdleDrive(c, spec, x, ch);
    }
  }

  lemma OthersBalance(c: Request, spec: ClusterSpec, x: Solo, ch: Choice, r: Role)
    requires Accurate(c, spec, x) && x.Pass().pc.Drive? && r != x.Pass().pc.role
    ensures Balance(c, spec, x, Apply(x, Advance(ch)), r)
  {
    hide ChildKey, DesiredState, DesiredChild, Apply, Accurate, NextCall, Applies, History;
    var p := x.Pass();
    ElsewhereUnchanged(c, spec, x, ch, r);
    if NextCall(p).Some? && Applies(x.store, NextCall(p).value, ch) {
      AppliedDrive(c, spec, x, ch);
      WritesOfSnoc(x.agent.writes, p.pc.role, p.inspected.cluster.value.resourceVersion, r);
    } else {
      IdleDrive(c, spec, x, ch);
    }
  }

  lemma DriveBalances(c: Request, spec: ClusterSpec, x: Solo, ch: Choice, r: Role)
    requires Accurate(c, spec, x) && x.Pass().pc.Drive?
    ensures Balance(c, spec, x, Apply(x, Advance(ch)), r)
  {
    hide *;
    if r == x.Pass().pc.role {
      DrivenBalances(c, spec, x, ch);
    } else {
      OthersBalance(c, spec, x, ch, r);
    }
  }

  // Driving one child leaves the others alone.
  lemma ElsewhereUnchanged(c: Request, spec: ClusterSpec, x: Solo, ch: Choice, r: Role)
    requires Accurate(c, spec, x) && x.Pass().pc.Drive?
    ensures x.Pass().inspected.cluster.Some? && x.Id() == c
    ensures r != x.Pass().pc.role ==>
      History(Apply(x, Advance(ch)).store, ChildKey(c, r)) == History(x.store, ChildKey(c, r))
  {
    hide DesiredState, DesiredChild, Apply, Sane;
    AdvanceWritesAtHome(x, ch);
    RolesApart(c, r, x.Pass().pc.role);
  }

  lemma EnvMirrors(c: Request, x: Solo, e: EnvAction, r: Role)
    requires Sane(x) && x.Id() == c && Steady(c, Environ(e))
    ensures Mirrors(Current(x.store, ChildKey(c, r)), Current(Apply(x, Environ(e)).store, ChildKey(c, r)))
  {
    assert Owns(c, ChildKey(c, r));
    hide ChildKey, DesiredState, Owns, AgentSane;
    EnvFacts(x.store, e);
  }

  lemma EnvKeepsSpec(c: Request, spec: ClusterSpec, x: Solo, e: EnvAction)
    requires Sane(x) && x.Id() == c && Steady(c, Environ(e)) && Specified(x.store, c, spec)
    ensures Specified(Apply(x, Environ(e)).store, c, spec)
  {
    assert Owns(c, ClusterKey(c));
    hide ChildKey, DesiredState, Owns, AgentSane;
    EnvFacts(x.store, e);
  }

  lemma EnvBalances(c: Request, spec: ClusterSpec, x: Solo, e: EnvAction, r: Role)
    requires Sane(x) && x.Id() == c && Steady(c, Environ(e))
    ensures var y := Apply(x, Environ(e));
      && Mirrors(Current(x.store, ChildKey(c, r)), Current(y.store, ChildKey(c, r)))
      && (Specified(x.store, c, spec) ==> Specified(y.store, c, spec))
  {
    hide Sane, Steady, Specified, Mirrors, Apply;
    EnvMirrors(c, x, e, r);
    if Specified(x.store, c, spec) {
      EnvKeepsSpec(c, spec, x, e);
    }
  }

  lemma Balances(c: Request, spec: ClusterSpec, x: Solo, act: Action, r: Role)
    requires Accurate(c, spec, x) && Steady(c, act)
    ensures Balance(c, spec, x, Apply(x, act), r)
  {
    hide ChildKey, DesiredState, DesiredChild, Sane, NextCall, StoreStep;
    match act
    case Begin =>
    case Environ(e) => EnvBalances(c, spec, x, e, r);
    case Advance(ch) =>
      if x.Pass().pc.Drive? {
        DriveBalances(c, spec, x, ch, r);
      } else {
        OnlyReadsElsewhere(x, ch, r);
      }
  }

  // ---- Accuracy, one action at a time ----

  // No pass changes what the user wrote into the CR.
  lemma PassesKeepSpec(x: Solo, ch: Choice)
    requires Sane(x)
    ensures var o, o' := Current(x.store, ClusterKey(x.Id())), Current(Apply(x, Advance(ch)).store, ClusterKey(x.Id()));
      && (o.Some? <==> o'.Some?)
      && (o.Some? && o.value.PrestoCluster? ==>
            o'.value.PrestoCluster? && o'.value.cluster.spec == o.value.cluster.spec)
  {
    hide DesiredState, ChildKey, Accepts, AgentStep, Sane;
    var p := x.Pass();
    if p.pc.WriteStatus? && p.inspected.cluster.Some? && Applies(x.store, NextCall(p).value, ch) {
      assert WellKeyed(x.store) && IsVersion(x.store, x.Id(), p.inspected.cluster.value) by { SaneCluster(x); }
      StatusWrite(x.store, x.Id(), p.inspected.cluster.value, p.pc.count, ch);
    } else {
      ClusterUntouched(x, ch);
      hide Apply;
    }
  }

  lemma SpecKept(c: Request, spec: ClusterSpec, x: Solo, ch: Choice)
    requires Sane(x) && x.Id() == c && Specified(x.store, c, spec)
    ensures Specified(Apply(x, Advance(ch)).store, c, spec)
  {
    hide Sane, Apply, Current;
    PassesKeepSpec(x, ch);
  }

  lemma ClusterReadIsCurrent(c: Request, spec: ClusterSpec, x: Solo, ch: Choice)
    requires Accurate(c, spec, x) && x.Pass().pc.ReadCluster? && ch.read.Latest?
    ensures var p := Apply(x, Advance(ch)).Pass();
      p.pc.Finished? || (p.inspected.cluster.Some? && p.inspected.cluster.value.spec == spec)
  {
    hide ChildKey, DesiredState, Sane;
  }

  lemma ChildReadIsCurrent(x: Solo, ch: Choice)
    requires x.Pass().pc.ReadChild? && ch.read.Latest?
    ensures var y := Apply(x, Advance(ch)); var r := x.Pass().pc.role;
      y.store == x.store && y.Pass().inspected.cluster == x.Pass().inspected.cluster &&
      (y.Pass().pc == Finished(Failed) ||
        (y.Pass().pc == AfterRead(r) &&
         forall q :: y.Pass().inspected.children.Child(q) ==
           if q == r then Current(x.store, ChildKey(x.Id(), r)) else x.Pass().inspected.children.Child(q)))
  {
    hide ChildKey, DesiredState;
  }

  lemma DriveKeepsPass(x: Solo, ch: Choice)
    requires x.Pass().pc.Drive? && x.Pass().inspected.cluster.Some?
    ensures var y := Apply(x, Advance(ch));
      && y.Pass().inspected == x.Pass().inspected
      && (y.Pass().pc == AfterDrive(x.Pass().pc.role) || y.Pass().pc == ReadWorker)
  {
    hide ChildKey, DesiredState, StoreStep, ReplyTo, Applies;
  }

  lemma AdvanceStaysAccurate(c: Request, spec: ClusterSpec, x: Solo, ch: Choice)
    requires Accurate(c, spec, x) && ch.read.Latest?
    ensures Accurate(c, spec, Apply(x, Advance(ch)))
  {
    hide ChildKey, DesiredState, DesiredChild, Sane, Specified, StoreStep, Applies, ReplyTo;
    ActionsKeepSane(x, Advance(ch));
    SpecKept(c, spec, x, ch);
    match x.Pass().pc
    case ReadCluster => ClusterReadIsCurrent(c, spec, x, ch);
    case ReadChild(_) =>
      ChildReadIsCurrent(x, ch);
      hide Apply;
    case Drive(q) =>
      DriveKeepsPass(x, ch);
      hide Apply;
      forall r | Position(q) < Position(r)
        ensures Current(Apply(x, Advance(ch)).store, ChildKey(c, r)) == Current(x.store, ChildKey(c, r))
      {
        ElsewhereUnchanged(c, spec, x, ch, r);
      }
    case _ =>
  }

  lemma EnvStaysAccurate(c: Request, spec: ClusterSpec, x: Solo, e: EnvAction)
    requires Accurate(c, spec, x) && Steady(c, Environ(e))
    ensures Accurate(c, spec, Apply(x, Environ(e)))
  {
    hide ChildKey, DesiredState, Sane, Specified, ApplyEnv, Steady;
    ActionsKeepSane(x, Environ(e));
    var y := Apply(x, Environ(e));
    EnvBalances(c, spec, x, e, PrestoConfigMap);
    forall r ensures Mirrors(Current(x.store, ChildKey(c, r)), Current(y.store, ChildKey(c, r))) {
      EnvBalances(c, spec, x, e, r);
    }
  }

  lemma StaysAccurate(c: Request, spec: ClusterSpec, x: Solo, act: Action)
    requires Accurate(c, spec, x) && Steady(c, act)
    ensures Accurate(c, spec, Apply(x, act))
  {
    hide ChildKey, DesiredState, Specified, StoreStep, AgentStep, ApplyEnv;
    match act
    case Begin => ActionsKeepSane(x, Begin);
    case Environ(e) => EnvStaysAccurate(c, spec, x, e);
    case Advance(ch) => AdvanceStaysAccurate(c, spec, x, ch);
  }

  // ---- Whole runs ----

  ghost predicate Conserved(c: Request, spec: ClusterSpec, x: Solo, y: Solo) {
    && Accurate(c, spec, y)
    && x.agent.writes <= y.agent.writes
    && forall r :: Balance(c, spec, x, y, r)
  }

  // Between passes, with the CR present and its children in any state.
  ghost predicate AtRest(c: Request, spec: ClusterSpec, x: Solo) {
    x.Id() == c && Between(x) && Sane(x) && Specified(x.store, c, spec)
  }

  lemma WritesOnlyGrow(x: Solo, act: Action)
    ensures x.agent.writes <= Apply(x, act).agent.writes
  {
    hide DesiredState, ChildKey, StoreStep, NextCall, Resume, ReplyTo;
  }

  lemma {:induction false} WritesOfPrefix(w: seq<ChildWrite>, w': seq<ChildWrite>, r: Role)
    requires w <= w'
    ensures WritesOf(w, r) <= WritesOf(w', r)
  {
    if |w| < |w'| {
      WritesOfPrefix(w, w'[..|w'| - 1], r);
    } else {
      assert w == w';
    }
  }

  lemma ConservationStep(c: Request, spec: ClusterSpec, x: Solo, y: Solo, act: Action)
    requires Conserved(c, spec, x, y) && Steady(c, act)
    ensures Conserved(c, spec, x, Apply(y, act))
  {
    hide Accurate, Apply, Steady, Need;
    StaysAccurate(c, spec, y, act);
    WritesOnlyGrow(y, act);
    forall r ensures Balance(c, spec, x, Apply(y, act), r) {
      assert Balance(c, spec, x, y, r);
      Balances(c, spec, y, act, r);
    }
  }

  // Writes made and work left: their sum never changes, child by child.
  lemma WorkIsConserved(c: Request, spec: ClusterSpec, x: Solo, acts: seq<Action>)
    requires AtRest(c, spec, x) && Permitted(x, acts, (y, a) => Steady(c, a))
    ensures Conserved(c, spec, x, Exec(x, acts))
  {
    hide Steady, Sane, Specified, Need, ChildKey, Apply;
    assert Conserved(c, spec, x, x);
    hide Conserved;
    forall y: Solo, a: Action | Conserved(c, spec, x, y) && Steady(c, a) ensures Conserved(c, spec, x, Apply(y, a)) {
      ConservationStep(c, spec, x, y, a);
    }
    RunsKeep(x, acts, (y, a) => Steady(c, a), y => Conserved(c, spec, x, y));
  }

  lemma {:induction false} WritesAddUp(w: seq<ChildWrite>)
    ensures |w| == WritesOf(w, PrestoConfigMap) + WritesOf(w, CatalogConfigMap) + WritesOf(w, CoordinatorDeployment)
                   + WritesOf(w, CoordinatorService) + WritesOf(w, WorkerDeployment)
  {
    if w == [] {
    } else {
      WritesAddUp(w[..|w| - 1]);
    }
  }

  lemma OneRole(c: Request, spec: ClusterSpec, x: Solo, y: Solo, r: Role)
    requires Conserved(c, spec, x, y)
    ensures WritesOf(x.agent.writes, r) <= WritesOf(y.agent.writes, r) <= WritesOf(x.agent.writes, r) + 1
    ensures Need(y.store, c, spec, r) <= Need(x.store, c, spec, r)
  {
    hide Accurate, ChildKey;
    assert Balance(c, spec, x, y, r);
    WritesOfPrefix(x.agent.writes, y.agent.writes, r);
  }

  // At most one write per child, five in all, and never more work than before.
  lemma BoundedWork(c: Request, spec: ClusterSpec, x: Solo, acts: seq<Action>)
    requires AtRest(c, spec, x) && Permitted(x, acts, (y, a) => Steady(c, a))
    ensures var y := Exec(x, acts);
      && |y.agent.writes| <= |x.agent.writes| + 5
      && forall r :: WritesOf(y.agent.writes, r) <= WritesOf(x.agent.writes, r) + 1
                     && Need(y.store, c, spec, r) <= Need(x.store, c, spec, r)
  {
    hide AtRest, Conserved, Steady, Exec, Permitted, Need;
    WorkIsConserved(c, spec, x, acts);
    var y := Exec(x, acts);
    forall r
      ensures WritesOf(y.agent.writes, r) <= WritesOf(x.agent.writes, r) + 1
      ensures Need(y.store, c, spec, r) <= Need(x.store, c, spec, r)
    {
      OneRole(c, spec, x, y, r);
    }
    WritesAddUp(x.agent.writes);
    WritesAddUp(y.agent.writes);
  }

  // In such runs the server never refuses a drive write: no Create meets an
  // existing child and no Update a missing one; only a fault makes it fail.
  lemma DriveWritesAreAccepted(c: Request, spec: ClusterSpec, x: Solo, acts: seq<Action>)
    requires AtRest(c, spec, x) && Permitted(x, acts, (y, a) => Steady(c, a))
    ensures var y := Exec(x, acts);
      y.Pass().pc.Drive? && NextCall(y.Pass()).Some? ==> Accepts(y.store, NextCall(y.Pass()).value)
  {
    hide AtRest, Accurate, Steady, Exec, Permitted, NextCall, Accepts;
    WorkIsConserved(c, spec, x, acts);
    if Exec(x, acts).Pass().pc.Drive? {
      DriveMeetsNeed(c, spec, Exec(x, acts));
    }
  }

  // ---- What a quiet pass leaves undone ----

  // The pass has dealt with the child, and no drive error has been logged.
  predicate Handled(p: Pass, r: Role) {
    && p.inspected.cluster.Some? && !p.driveFailed
    && if p.pc.Drive? then Position(r) < Position(p.pc.role) else Reporting(p)
  }

  ghost predicate Delivering(c: Request, spec: ClusterSpec, x: Solo) {
    Accurate(c, spec, x) && forall r :: Handled(x.Pass(), r) ==> Need(x.store, c, spec, r) == 0
  }

  lemma DriveDelivers(c: Request, spec: ClusterSpec, x: Solo, ch: Choice)
    requires Accurate(c, spec, x) && x.Pass().pc.Drive?
    ensures var y := Apply(x, Advance(ch)); y.Pass().driveFailed || Need(y.store, c, spec, x.Pass().pc.role) == 0
  {
    hide ChildKey, DesiredState, DesiredChild, Accurate, NextCall, Accepts, Current;
    DriveMeetsNeed(c, spec, x);
    var call := NextCall(x.Pass());
    assert x.Pass().inspected.cluster.Some? by { ElsewhereUnchanged(c, spec, x, ch, x.Pass().pc.role); }
    if call.Some? && Applies(x.store, call.value, ch) {
      AppliedDrive(c, spec, x, ch);
    } else if call.Some? {
      assert x.Pass().pc.Drive? && !call.value.Get? && !call.value.Delete? by { DriveCallWrites(c, spec, x); }
    }
  }

  lemma DriveCallWrites(c: Request, spec: ClusterSpec, x: Solo)
    requires Accurate(c, spec, x) && x.Pass().pc.Drive? && NextCall(x.Pass()).Some?
    ensures !NextCall(x.Pass()).value.Get? && !NextCall(x.Pass()).value.Delete?
  {
    hide ChildKey, DesiredState, DesiredChild;
    ReadyNeverDeletes(x);
  }

  lemma SameNeed(st: Store, st': Store, c: Request, spec: ClusterSpec, r: Role)
    requires Mirrors(Current(st, ChildKey(c, r)), Current(st', ChildKey(c, r)))
    ensures Need(st, c, spec, r) == Need(st', c, spec, r)
  {
  }

  lemma AdvanceDelivers(c: Request, spec: ClusterSpec, x: Solo, ch: Choice, r: Role)
    requires Delivering(c, spec, x) && Handled(Apply(x, Advance(ch)).Pass(), r)
    ensures Need(Apply(x, Advance(ch)).store, c, spec, r) == 0
  {
    hide ChildKey, DesiredState, DesiredChild, Need, Current, Accurate, StoreStep, NextCall, ReplyTo;
    assert x.Id() == c && Sane(x) by { AccurateFacts(c, spec, x); }
    if x.Pass().pc.Drive? {
      DriveDelivers(c, spec, x, ch);
      ElsewhereUnchanged(c, spec, x, ch, r);
      SameHistoryNeed(x.store, Apply(x, Advance(ch)).store, c, spec, r);
    } else {
      OnlyReadsElsewhere(x, ch, r);
      SameHistoryNeed(x.store, Apply(x, Advance(ch)).store, c, spec, r);
    }
  }

  lemma AccurateFacts(c: Request, spec: ClusterSpec, x: Solo)
    requires Accurate(c, spec, x)
    ensures x.Id() == c && Sane(x)
  {
  }

  lemma SameHistoryNeed(st: Store, st': Store, c: Request, spec: ClusterSpec, r: Role)
    ensures History(st, ChildKey(c, r)) == History(st', ChildKey(c, r)) ==>
      Need(st, c, spec, r) == Need(st', c, spec, r)
  {
  }

  lemma KeepsDelivering(c: Request, spec: ClusterSpec, x: Solo, act: Action)
    requires Delivering(c, spec, x) && Steady(c, act)
    ensures Delivering(c, spec, Apply(x, act))
  {
    hide ChildKey, Need, Accurate, Steady, StoreStep, AgentStep, ApplyEnv;
    StaysAccurate(c, spec, x, act);
    AccurateFacts(c, spec, x);
    forall r | Handled(Apply(x, act).Pass(), r) ensures Need(Apply(x, act).store, c, spec, r) == 0 {
      match act
      case Begin =>
      case Environ(e) =>
        EnvBalances(c, spec, x, e, r);
        SameNeed(x.store, Apply(x, act).store, c, spec, r);
      case Advance(ch) => AdvanceDelivers(c, spec, x, ch, r);
    }
  }

  // A pass can begin on the CR: any state of the operator and the children.
  ghost predicate Pends(c: Request, spec: ClusterSpec, x: Solo) {
    x.Id() == c && Sane(x) && Specified(x.store, c, spec)
  }

  // From there on: a run that begins with a new pass, for a fixed CR and with
  // current reads.
  ghost predicate SteadyRun(c: Request, x: Solo, acts: seq<Action>) {
    Permitted(Apply(x, Begin), acts, (y, a) => Steady(c, a))
  }

  lemma BegunDelivers(c: Request, spec: ClusterSpec, x: Solo)
    requires Pends(c, spec, x)
    ensures var y := Apply(x, Begin);
      AtRest(c, spec, y) && Delivering(c, spec, y) && y.store == x.store && y.Pass() == StartPass(c)
  {
    hide DesiredState, ChildKey, AgentSane, Specified;
    ActionsKeepSane(x, Begin);
  }

  // A pass that ends with neither error nor requeue and logged no drive error
  // leaves no child missing and no replica count wrong, whatever failed in the
  // passes before it.
  lemma QuietWorkIsDone(c: Request, spec: ClusterSpec, x: Solo, acts: seq<Action>)
    requires Pends(c, spec, x) && SteadyRun(c, x, acts)
    ensures var y := Exec(Apply(x, Begin), acts);
      Quiet(y.Pass()) && !y.Pass().driveFailed ==> forall r :: Need(y.store, c, spec, r) == 0
  {
    hide Steady, Need, Apply, Pends, Accurate, Exec;
    BegunDelivers(c, spec, x);
    forall y: Solo, a: Action | Delivering(c, spec, y) && Steady(c, a) ensures Delivering(c, spec, Apply(y, a)) {
      KeepsDelivering(c, spec, y, a);
    }
    RunsKeep(Apply(x, Begin), acts, (y, a) => Steady(c, a), y => Delivering(c, spec, y));
  }
}
