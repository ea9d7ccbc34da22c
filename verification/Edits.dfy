// CR edits with an undisturbed pass after each: which spec the containers are
// left with.
module SpecEdits {
  import opened Kubernetes
  import opened Names
  import opened Desired
  import opened Files
  import opened Manifests
  import opened ApiStore
  import opened ReconcilePass
  import opened SoloRuns
  import opened Completion
  import opened MountsResolve
  import opened Work
  import opened ScriptedPass
  import opened Convergence

  // ---- An undisturbed pass as part of a run ----

  // The pass starts or moves on; no call fails and reads are current.
  predicate Smooth(a: Action) {
    a == Begin || a == Advance(CLEAN)
  }

  lemma {:induction false} CleanActions(g: Config, bound: nat)
    requires bound <= FINISHED && g.script == []
    ensures forall a <- ActionsOf(g, bound) :: Smooth(a)
    decreases bound - Rank(g.agent.pass.pc)
  {
    hide NextCall, StoreStep, AgentStep;
    if bound <= Rank(g.agent.pass.pc) {
    } else {
      CleanActions(StepConfig(g), bound);
    }
  }

  // A pass started now and left alone up to the bound.
  ghost function WholePass(x: Solo, bound: nat): seq<Action>
    requires bound <= FINISHED
  {
    [Begin] + ActionsOf(Config(x.store, [], Restart(x.agent)), bound)
  }

  lemma WholePassIsRun(x: Solo, bound: nat)
    requires bound <= FINISHED
    ensures forall a <- WholePass(x, bound) :: Smooth(a)
    ensures Exec(x, WholePass(x, bound)) == World(RunTo(Config(x.store, [], Restart(x.agent)), bound))
  {
    hide StepConfig, RunTo, ActionsOf;
    var g := Config(x.store, [], Restart(x.agent));
    CleanActions(g, bound);
    ScriptedPassIsRun(g, bound);
    var acts := [Begin] + ActionsOf(g, bound);
    assert acts[0] == Begin && acts[1..] == ActionsOf(g, bound);
    assert Apply(x, Begin) == World(g);
  }

  lemma CleanPassIsRun(x: Solo)
    ensures forall a <- WholePass(x, FINISHED) :: Smooth(a)
    ensures Exec(x, WholePass(x, FINISHED)) == CleanPass(x.store, x.agent)
  {
    hide RunTo, WholePass;
    WholePassIsRun(x, FINISHED);
  }

  // ---- A series of edits ----

  // The user edits the CR, and a pass runs undisturbed.
  ghost function EditThenPass(x: Solo, spec: ClusterSpec): Solo {
    CleanPass(ApplyEnv(x.store, EditSpec(x.Id(), spec)), x.agent)
  }

  ghost function EditAll(x: Solo, specs: seq<ClusterSpec>): Solo
    decreases |specs|
  {
    if specs == [] then x else EditAll(EditThenPass(x, specs[0]), specs[1..])
  }

  // The last of the specs that changed the number of workers.
  function LastRescaling(built: ClusterSpec, workers: int32, specs: seq<ClusterSpec>): ClusterSpec
    decreases |specs|
  {
    if specs == [] then built
    else LastRescaling(if specs[0].workers == workers then built else specs[0], specs[0].workers, specs[1..])
  }

  // The job is done for the CR cur: the workers are built from built,
  // everything else still from first.
  ghost predicate Standing(c: Request, x: Solo, first: Cluster, built: Cluster, cur: Cluster) {
    && x.Id() == c && Sane(x) && IsCluster(x.store, c, cur)
    && Assembled(x.store, c, CoordinatorDeployment, first, first, first)
    && Assembled(x.store, c, WorkerDeployment, built, first, first)
    && forall r :: Need(x.store, c, cur.spec, r) == 0
  }

  // The CR after an edit, and what else the edit leaves.
  lemma Edited(c: Request, x: Solo, spec: ClusterSpec, cur: Cluster) returns (next: Cluster)
    requires x.Id() == c && Sane(x) && IsCluster(x.store, c, cur)
    ensures var y := Apply(x, Environ(EditSpec(c, spec)));
      && IsCluster(y.store, c, next) && next.spec == spec && Request(next.namespace, next.name) == c
      && next.availableWorkers == cur.availableWorkers
      && Sane(y) && y.agent == x.agent
      && forall r :: History(y.store, ChildKey(c, r)) == History(x.store, ChildKey(c, r))
  {
    hide DesiredState, AgentSane;
    var e := EditSpec(c, spec);
    next := cur.(spec := spec, resourceVersion := |History(x.store, ClusterKey(c))|);
    ActionsKeepSane(x, Environ(e));
    EnvFacts(x.store, e);
    forall r { ClusterIsNoChild(c, c, r); }
    hide ChildKey;
    OwnName(x.store, c, cur);
    RecordFacts(x.store, ClusterKey(c), Some(PrestoCluster(next)));
  }

  lemma PassKeepsSane(x: Solo)
    requires Sane(x)
    ensures Sane(CleanPass(x.store, x.agent)) && CleanPass(x.store, x.agent).Id() == x.Id()
  {
    hide AgentSane, StepConfig;
    ActionsKeepSane(x, Begin);
    RunsAreSane(Config(x.store, [], Restart(x.agent)), FINISHED);
  }

  // The first pass builds everything from the CR as it is.
  lemma FirstPassStands(c: Request, x: Solo, cl: Cluster) returns (cur: Cluster)
    requires x.Id() == c && Sane(x) && IsCluster(x.store, c, cl)
    requires forall r :: !Present(x.store, c, r)
    ensures Standing(c, CleanPass(x.store, x.agent), cl, cl, cur) && cur.spec == cl.spec
  {
    hide DesiredState, DesiredChild, ChildKey, CleanPass, AgentSane, SameBuild;
    var z := CleanPass(x.store, x.agent);
    PassKeepsSane(x);
    CleanPassConcludes(x.store, x.agent, cl);
    ConcludedStatus(x.store, c, cl, z);
    OwnName(x.store, c, cl);
    cur := Current(z.store, ClusterKey(c)).value.cluster;
    forall r ensures StoredAs(z.store, c, r, cl) && Need(z.store, c, cl.spec, r) == 0 {
      assert !Present(x.store, c, r);
      SettledIsRight(x.store, z.store, c, cl, r);
      SettledBuild(x.store, z.store, c, cl, r);
    }
  }

  // The drive step rebuilds a child that needs it and leaves the others.
  lemma SettledBuild(st: Store, st': Store, c: Request, cl: Cluster, r: Role)
    requires History(st', ChildKey(c, r)) == Settled(st, c, cl, r) && Request(cl.namespace, cl.name) == c
    ensures Need(st, c, cl.spec, r) == 0 ==> Current(st', ChildKey(c, r)) == Current(st, ChildKey(c, r))
    ensures Need(st, c, cl.spec, r) != 0 ==> StoredAs(st', c, r, cl)
  {
    hide ChildKey, DesiredChild;
    DesiredShape(cl, r);
  }

  // What an edit and an undisturbed pass do to each child.
  lemma EditedChildren(c: Request, x: Solo, cur: Cluster, spec: ClusterSpec) returns (next: Cluster, cur': Cluster)
    requires x.Id() == c && Sane(x) && IsCluster(x.store, c, cur)
    requires forall r :: Need(x.store, c, cur.spec, r) == 0
    ensures var z := EditThenPass(x, spec);
      && next.spec == cur'.spec == spec && IsCluster(z.store, c, cur')
      && (forall r :: Need(z.store, c, spec, r) == 0)
      && (forall r :: if r == WorkerDeployment && spec.workers != cur.spec.workers then StoredAs(z.store, c, r, next)
                      else Current(z.store, ChildKey(c, r)) == Current(x.store, ChildKey(c, r)))
  {
    hide DesiredState, DesiredChild, ChildKey, CleanPass, SameBuild, ApplyEnv, Sane, StoredAs, Current;
    var y, z := Apply(x, Environ(EditSpec(c, spec))), EditThenPass(x, spec);
    next := Edited(c, x, spec, cur);
    CleanPassConcludes(y.store, y.agent, next) by { SaneParts(y); }
    ConcludedStatus(y.store, c, next, z);
    cur' := Current(z.store, ClusterKey(c)).value.cluster;
    forall r
      ensures Need(z.store, c, spec, r) == 0
      ensures if r == WorkerDeployment && spec.workers != cur.spec.workers then StoredAs(z.store, c, r, next)
              else Current(z.store, ChildKey(c, r)) == Current(x.store, ChildKey(c, r))
    {
      SettledIsRight(y.store, z.store, c, next, r);
      SettledBuild(y.store, z.store, c, next, r);
      EditedNeed(x.store, y.store, c, cur.spec, spec, r);
      CurrentOfSame(x.store, y.store, ChildKey(c, r));
    }
  }

  lemma NextPassStands(c: Request, x: Solo, first: Cluster, built: Cluster, cur: Cluster, spec: ClusterSpec)
    returns (built': Cluster, cur': Cluster)
    requires Standing(c, x, first, built, cur)
    ensures Standing(c, EditThenPass(x, spec), first, built', cur') && cur'.spec == spec
    ensures built'.spec == if spec.workers == cur.spec.workers then built.spec else spec
  {
    hide DesiredState, DesiredChild, ChildKey, CleanPass, SameBuild, ApplyEnv, Sane, Need, Current, IsCluster;
    var next;
    next, cur' := EditedChildren(c, x, cur, spec);
    built' := if spec.workers == cur.spec.workers then built else next;
    var y := Apply(x, Environ(EditSpec(c, spec)));
    ActionsKeepSane(x, Environ(EditSpec(c, spec)));
    PassKeepsSane(y);
  }

  lemma EditedNeed(st: Store, st': Store, c: Request, was: ClusterSpec, spec: ClusterSpec, r: Role)
    requires Need(st, c, was, r) == 0 && History(st', ChildKey(c, r)) == History(st, ChildKey(c, r))
    ensures Need(st', c, spec, r) == 0 <==> !r.WorkerDeployment? || spec.workers == was.workers
  {
    hide ChildKey;
  }

  lemma {:induction false} EditsStand(c: Request, x: Solo, first: Cluster, built: Cluster, cur: Cluster,
                                      specs: seq<ClusterSpec>)
    returns (built': Cluster, cur': Cluster)
    requires Standing(c, x, first, built, cur)
    ensures Standing(c, EditAll(x, specs), first, built', cur')
    ensures built'.spec == LastRescaling(built.spec, cur.spec.workers, specs)
    ensures cur'.spec == if specs == [] then cur.spec else specs[|specs| - 1]
    decreases |specs|
  {
    hide Standing, EditThenPass;
    if specs == [] {
      built', cur' := built, cur;
    } else {
      built', cur' := NextPassStands(c, x, first, built, cur, specs[0]);
      built', cur' := EditsStand(c, EditThenPass(x, specs[0]), first, built', cur', specs[1..]);
    }
  }

  lemma StandingFacts(c: Request, x: Solo, first: Cluster, built: Cluster, cur: Cluster)
    requires Standing(c, x, first, built, cur)
    ensures x.Id() == c && Sane(x) && IsCluster(x.store, c, cur)
    ensures forall r :: Need(x.store, c, cur.spec, r) == 0
  {
  }

  // ---- What the containers are left with ----

  // The Deployment of role r is what its manifest says for spec; which of its
  // mounts are in place, and the files its container sees, follow from the two
  // specs.
  ghost predicate LeftWith(st: Store, c: Request, r: Role, spec: ClusterSpec, first: ClusterSpec) {
    && Present(st, c, r) && Manifest(c, r, spec, Current(st, ChildKey(c, r)).value)
    && (MountsInPlace(st, c, r) <==> Covered(r, spec, first, first))
    && (forall path, content :: StoredShows(st, c, r, path, content) <==> Served(r, spec, first, first, path, content))
  }

  lemma AssembledLeaves(st: Store, c: Request, r: Role, cl: Cluster, first: Cluster)
    requires Assembled(st, c, r, cl, first, first)
    ensures LeftWith(st, c, r, cl.spec, first.spec)
  {
    hide MountsInPlace, Covered, StoredShows, Served, StoredAs, Manifest, Present;
    assert Present(st, c, r) by { BuiltIsPresent(st, c, r, cl); }
    StoredManifest(st, c, r, cl);
    AssembledMounts(st, c, r, cl, first, first);
    forall path, content
      ensures StoredShows(st, c, r, path, content) <==> Served(r, cl.spec, first.spec, first.spec, path, content)
    {
      StoredFiles(st, c, r, cl, first, first, path, content);
    }
  }

  lemma BuiltIsPresent(st: Store, c: Request, r: Role, cl: Cluster)
    requires StoredAs(st, c, r, cl)
    ensures Present(st, c, r)
  {
    hide DesiredChild, ChildKey;
  }

  // A new cluster, then any edits with an undisturbed pass after each. The
  // ConfigMaps and the coordinator stay as the first spec made them; the
  // workers follow the last spec that changed their number, image and all, and
  // their number follows the last one. So the coordinator's mounts are always
  // in place, and the workers' exactly when that spec asks for no config key
  // that the first one lacks.
  lemma AfterEdits(c: Request, x: Solo, cl: Cluster, specs: seq<ClusterSpec>)
    requires x.Id() == c && Sane(x) && IsCluster(x.store, c, cl)
    requires forall r :: !Present(x.store, c, r)
    ensures var st := EditAll(CleanPass(x.store, x.agent), specs).store;
      var workers := LastRescaling(cl.spec, cl.spec.workers, specs);
      && LeftWith(st, c, CoordinatorDeployment, cl.spec, cl.spec) && MountsInPlace(st, c, CoordinatorDeployment)
      && LeftWith(st, c, WorkerDeployment, workers, cl.spec)
      && ReplicasAt(st, c, CoordinatorDeployment) == 1
      && ReplicasAt(st, c, WorkerDeployment) == if specs == [] then cl.spec.workers else specs[|specs| - 1].workers
  {
    hide CleanPass, EditAll, Sane, IsCluster, Assembled, LastRescaling, LeftWith, Present;
    var z := CleanPass(x.store, x.agent);
    var cur := FirstPassStands(c, x, cl);
    var built, last := EditsStand(c, z, cl, cl, cur, specs);
    AssembledLeaves(EditAll(z, specs).store, c, CoordinatorDeployment, cl, cl);
    AssembledLeaves(EditAll(z, specs).store, c, WorkerDeployment, built, cl);
    OwnSpecCovers(EditAll(z, specs).store, c, CoordinatorDeployment, cl.spec);
    NoNeedReplicas(EditAll(z, specs).store, c, last.spec) by { StandingFacts(c, EditAll(z, specs), cl, built, last); }
  }

  lemma OwnSpecCovers(st: Store, c: Request, r: Role, spec: ClusterSpec)
    requires LeftWith(st, c, r, spec, spec)
    ensures MountsInPlace(st, c, r)
  {
    hide MountsInPlace, StoredShows, Served, Manifest;
  }

  // One edit: whether it breaks the workers, and whether they then see what
  // the new spec asks for, can be told from the two specs.
  lemma AfterOneEdit(c: Request, x: Solo, cl: Cluster, spec: ClusterSpec)
    requires x.Id() == c && Sane(x) && IsCluster(x.store, c, cl)
    requires forall r :: !Present(x.store, c, r)
    ensures var st := EditThenPass(CleanPass(x.store, x.agent), spec).store;
      && (MountsInPlace(st, c, WorkerDeployment)
          <==> spec.workers == cl.spec.workers || Covered(WorkerDeployment, spec, cl.spec, cl.spec))
      && (spec.workers != cl.spec.workers && NoClash(WorkerDeployment, spec) ==>
            ((forall path, content :: StoredShows(st, c, WorkerDeployment, path, content)
                                      <==> Wanted(WorkerDeployment, spec, path, content))
             <==> UpToDate(WorkerDeployment, spec, cl.spec, cl.spec)))
  {
    hide CleanPass, EditThenPass, Sane, IsCluster, Present;
    hide MountsInPlace, StoredShows, Served, NoClash, Wanted, UpToDate, Manifest, ReplicasAt;
    AfterEdits(c, x, cl, [spec]);
    var z := CleanPass(x.store, x.agent);
    assert [spec][1..] == [];
    assert EditAll(z, [spec]) == EditAll(EditThenPass(z, spec), []) == EditThenPass(z, spec);
    ServedAsWanted(WorkerDeployment, spec, cl.spec, cl.spec);
  }

  // It does happen: a catalog file is added, the number of workers changed,
  // no call fails, and the workers' new mount finds no key.
  lemma AddedKeyBreaksMounts(c: Request) returns (x: Solo, spec: ClusterSpec, acts: seq<Action>)
    ensures x.Id() == c && Idle(x) && Sane(x) && forall r :: !Present(x.store, c, r)
    ensures forall a <- acts :: Smooth(a) || a == Environ(EditSpec(c, spec))
    ensures !MountsInPlace(Exec(x, acts).store, c, WorkerDeployment)
  {
    hide CleanPass, Sane, Present, MountsInPlace, LonelyStart, UpToDate, Apply;
    var cl := LonelyCluster(c, 1, 0);
    x := LonelyStart(c, cl);
    LonelyIsLegal(c, cl);
    LonelyIsThere(c, cl);
    spec := cl.spec.(workers := 2, catalog := map["hive.properties" := ""]);
    AfterOneEdit(c, x, cl, spec);
    assert "hive.properties" in spec.catalog.Keys && "hive.properties" !in cl.spec.catalog.Keys + cl.spec.coresite.Keys;
    acts := EditedRun(x, spec);
  }

  lemma LonelyIsThere(c: Request, cl: Cluster)
    requires FirstOf(c, cl)
    ensures IsCluster(LonelyStart(c, cl).store, c, cl)
  {
    hide DesiredState;
    LonelyIsLegal(c, cl);
  }

  lemma EditedRun(x: Solo, spec: ClusterSpec) returns (acts: seq<Action>)
    requires Sane(x)
    ensures forall a <- acts :: Smooth(a) || a == Environ(EditSpec(x.Id(), spec))
    ensures Exec(x, acts) == EditThenPass(CleanPass(x.store, x.agent), spec)
  {
    hide Sane, ApplyEnv, WholePass, CleanPass;
    PassKeepsSane(x);
    var first := WholePass(x, FINISHED);
    CleanPassIsRun(x);
    var z := CleanPass(x.store, x.agent);
    var edit := Environ(EditSpec(x.Id(), spec));
    var second := WholePass(Apply(z, edit), FINISHED);
    CleanPassIsRun(Apply(z, edit));
    acts := first + [edit] + second;
    ExecSnoc(x, first, edit);
    ExecConcat(x, first + [edit], second);
  }
}
