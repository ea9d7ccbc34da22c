// One cluster's operator against the API server and everyone else: runs, and
// what every run keeps.
module SoloRuns {
  import opened Kubernetes
  import opened Names
  import opened Desired
  import opened ApiStore
  import opened ReconcilePass

  datatype Solo = Solo(store: Store, agent: Agent)
  {
    function Id(): Request { agent.pass.request }
    function Pass(): Pass { agent.pass }
  }

  // A pass begins: the work queue starts one, or the operator was restarted
  // and forgot the one it was in. A pass makes its next move. Someone else
  // changes the store.
  datatype Action = Begin | Advance(choice: Choice) | Environ(env: EnvAction)

  ghost function Apply(x: Solo, act: Action): (y: Solo)
    ensures y.Id() == x.Id()
  {
    match act
    case Begin => x.(agent := Restart(x.agent))
    case Advance(ch) => Solo(StoreStep(x.store, x.agent, ch), AgentStep(x.store, x.agent, ch))
    case Environ(e) => x.(store := ApplyEnv(x.store, e))
  }

  ghost function Exec(x: Solo, acts: seq<Action>): Solo
    decreases |acts|
  {
    if acts == [] then x else Exec(Apply(x, acts[0]), acts[1..])
  }

  // Every action of the run meets ok in the state in which it is taken.
  ghost predicate Permitted(x: Solo, acts: seq<Action>, ok: (Solo, Action) -> bool)
    decreases |acts|
  {
    acts == [] || (ok(x, acts[0]) && Permitted(Apply(x, acts[0]), acts[1..], ok))
  }

  lemma {:induction false} AllPermitted(x: Solo, acts: seq<Action>, ok: (Solo, Action) -> bool)
    requires forall y: Solo, a: Action :: a in acts ==> ok(y, a)
    ensures Permitted(x, acts, ok)
    decreases |acts|
  {
    if acts == [] {
    } else {
      AllPermitted(Apply(x, acts[0]), acts[1..], ok);
    }
  }

  // What every permitted action keeps, every permitted run keeps.
  lemma {:induction false} RunsKeep(x: Solo, acts: seq<Action>, ok: (Solo, Action) -> bool, inv: Solo -> bool)
    requires inv(x) && Permitted(x, acts, ok)
    requires forall y: Solo, a: Action :: inv(y) && ok(y, a) ==> inv(Apply(y, a))
    ensures inv(Exec(x, acts))
    decreases |acts|
  {
    if acts == [] {
    } else {
      RunsKeep(Apply(x, acts[0]), acts[1..], ok, inv);
    }
  }

  lemma {:induction false} ExecConcat(y: Solo, a: seq<Action>, b: seq<Action>)
    ensures Exec(y, a + b) == Exec(Exec(y, a), b)
    decreases |a|
  {
    hide Apply;
    if a == [] {
      assert a + b == b;
    } else {
      assert (a + b)[1..] == a[1..] + b;
      ExecConcat(Apply(y, a[0]), a[1..], b);
    }
  }

  lemma ExecSnoc(x: Solo, acts: seq<Action>, a: Action)
    ensures Exec(x, acts + [a]) == Apply(Exec(x, acts), a)
  {
    hide Apply;
    ExecConcat(x, acts, [a]);
    assert [a][1..] == [];
  }

  // ---- Sanity: what the agent remembers was true of the store ----

  ghost predicate IsVersion(st: Store, c: Request, cl: Cluster) {
    var h := History(st, ClusterKey(c));
    cl.resourceVersion < |h| && h[cl.resourceVersion] == Some(PrestoCluster(cl))
  }

  ghost predicate WasThere(st: Store, k: Key, o: Object) {
    exists j :: 0 <= j < |History(st, k)| && History(st, k)[j] == Some(o)
  }

  ghost predicate AgentSane(st: Store, a: Agent) {
    var p := a.pass;
    var c := p.request;
    && a.seen < |History(st, ClusterKey(c))|
    && (p.inspected.cluster.Some? ==>
          && IsVersion(st, c, p.inspected.cluster.value)
          && a.seen == p.inspected.cluster.value.resourceVersion)
    && (p.pc.ReadCluster? ==> p.inspected.cluster.None?)
    && (DRIVING <= Rank(p.pc) < FINISHED ==> p.desired == DesiredState(p.inspected.cluster))
    && (forall r :: p.inspected.children.Child(r).Some? ==>
          WasThere(st, ChildKey(c, r), p.inspected.children.Child(r).value))
  }

  ghost predicate Sane(x: Solo) {
    WellKeyed(x.store) && AgentSane(x.store, x.agent)
  }

  lemma SaneCluster(x: Solo)
    requires Sane(x) && x.Pass().inspected.cluster.Some?
    ensures WellKeyed(x.store) && IsVersion(x.store, x.Id(), x.Pass().inspected.cluster.value)
  {
  }

  // The address of the call that a pass makes at each point.
  function PlaceOf(c: Request, pc: Pc): Key {
    match pc
    case ReadChild(r) => ChildKey(c, r)
    case Drive(r) => ChildKey(c, r)
    case ReadWorker => ChildKey(c, WorkerDeployment)
    case _ => ClusterKey(c)
  }

  lemma ClusterIsItself(st: Store, c: Request, cl: Cluster)
    requires WellKeyed(st) && IsVersion(st, c, cl)
    ensures Request(cl.namespace, cl.name) == c
  {
    var h := History(st, ClusterKey(c));
    assert Fits(h[cl.resourceVersion].value, ClusterKey(c), cl.resourceVersion);
  }

  // The drive step writes each role's object at the very address that the
  // inspector read it from, and no pass calls outside its cluster.
  lemma CallsStayHome(x: Solo)
    requires Sane(x) && NextCall(x.Pass()).Some?
    ensures CallKey(NextCall(x.Pass()).value) == PlaceOf(x.Id(), x.Pass().pc)
    ensures Owns(x.Id(), PlaceOf(x.Id(), x.Pass().pc))
  {
    hide DesiredChild, DesiredState, ChildKey;
    var p := x.Pass();
    if p.inspected.cluster.Some? {
      var cl := p.inspected.cluster.value;
      ClusterIsItself(x.store, p.request, cl);
      if p.pc.Drive? {
        DesiredRole(p.inspected.cluster, p.pc.role);
      }
    }
  }

  lemma SanityPersists(st: Store, st': Store, a: Agent)
    requires AgentSane(st, a) && Extends(st, st')
    ensures AgentSane(st', a)
  {
    hide DesiredState, ChildKey;
    var p := a.pass;
    assert History(st, ClusterKey(p.request)) <= History(st', ClusterKey(p.request));
    forall r | p.inspected.children.Child(r).Some?
      ensures WasThere(st', ChildKey(p.request, r), p.inspected.children.Child(r).value)
    {
      var k := ChildKey(p.request, r);
      assert History(st, k) <= History(st', k);
      var j :| 0 <= j < |History(st, k)| && History(st, k)[j] == Some(p.inspected.children.Child(r).value);
      assert History(st', k)[j] == Some(p.inspected.children.Child(r).value);
    }
  }

  // A read returns what the address holds or once held.
  lemma ReadsAreHistory(st: Store, k: Key, ch: Choice)
    requires ReplyTo(st, Get(k), ch).Found?
    ensures WasThere(st, k, ReplyTo(st, Get(k), ch).obj)
  {
    var h := History(st, k);
    assert h[|h| - 1] == Current(st, k);
  }

  lemma FoundClusterIsVersion(st: Store, c: Request, ch: Choice)
    requires WellKeyed(st)
    requires ReplyTo(st, Get(ClusterKey(c)), ch).Found?
    ensures var o := ReplyTo(st, Get(ClusterKey(c)), ch).obj; o.PrestoCluster? && IsVersion(st, c, o.cluster)
  {
    ReadsAreHistory(st, ClusterKey(c), ch);
    var o := ReplyTo(st, Get(ClusterKey(c)), ch).obj;
    var h := History(st, ClusterKey(c));
    var j :| 0 <= j < |h| && h[j] == Some(o);
    assert Fits(h[j].value, ClusterKey(c), j);
  }

  lemma ChildReadIsSane(x: Solo, ch: Choice)
    requires Sane(x) && x.Pass().pc.ReadChild?
    ensures AgentSane(x.store, AgentStep(x.store, x.agent, ch))
  {
    hide DesiredState, ChildKey, KeyOf, IsVersion, History;
    var k := ChildKey(x.Id(), x.Pass().pc.role);
    if ReplyTo(x.store, Get(k), ch).Found? {
      ReadsAreHistory(x.store, k, ch);
    }
    hide WasThere, ReplyTo, StoreStep;
  }

  lemma AdvanceIsSane(x: Solo, ch: Choice)
    requires Sane(x)
    ensures AgentSane(x.store, AgentStep(x.store, x.agent, ch))
  {
    hide DesiredState, ChildKey, KeyOf, Accepts, WasThere;
    var p := x.Pass();
    match p.pc
    case ReadCluster =>
      if ReplyTo(x.store, Get(ClusterKey(p.request)), ch).Found? {
        FoundClusterIsVersion(x.store, p.request, ch);
      }
    case ReadChild(r) => ChildReadIsSane(x, ch);
    case _ =>
      hide ReplyTo, IsVersion, NextCall;
  }

  lemma ActionsKeepSane(x: Solo, act: Action)
    requires Sane(x)
    ensures Sane(Apply(x, act))
    ensures Extends(x.store, Apply(x, act).store)
  {
    hide DesiredState, ChildKey, Accepts, Effect, Write, ApplyEnv;
    match act
    case Begin =>
    case Environ(e) =>
      EnvFacts(x.store, e);
      SanityPersists(x.store, Apply(x, act).store, x.agent);
    case Advance(ch) =>
      AdvanceIsSane(x, ch);
      var call := NextCall(x.Pass());
      if call.Some? {
        CallFacts(x.store, call.value, ch);
      }
      SanityPersists(x.store, StoreStep(x.store, x.agent, ch), AgentStep(x.store, x.agent, ch));
  }

  // A status update that reaches the server finds the very version that was
  // inspected, and appends it with the new count.
  lemma StatusWrite(st: Store, c: Request, cl: Cluster, n: int32, ch: Choice)
    requires WellKeyed(st) && IsVersion(st, c, cl)
    requires Applies(st, UpdateStatus(cl.(availableWorkers := n)), ch)
    ensures var h := History(st, ClusterKey(c));
      && |h| == cl.resourceVersion + 1
      && History(StoreAfter(st, UpdateStatus(cl.(availableWorkers := n)), ch), ClusterKey(c))
         == h + [Some(PrestoCluster(cl.(availableWorkers := n, resourceVersion := |h|)))]
  {
    ClusterIsItself(st, c, cl);
    var h := History(st, ClusterKey(c));
    assert Fits(h[|h| - 1].value, ClusterKey(c), |h| - 1);
  }

  // A pass only ever writes its own cluster's addresses, one at a time.
  lemma AdvanceWritesAtHome(x: Solo, ch: Choice)
    requires Sane(x)
    ensures OnlyAt(x.store, Apply(x, Advance(ch)).store, PlaceOf(x.Id(), x.Pass().pc))
  {
    hide DesiredState, DesiredChild, ChildKey, Accepts, Effect, Write;
    var call := NextCall(x.Pass());
    if call.Some? {
      CallFacts(x.store, call.value, ch);
      CallsStayHome(x);
    }
  }

  // Only an applied status update changes the CR's address.
  lemma ClusterUntouched(x: Solo, ch: Choice)
    requires Sane(x)
    requires x.Pass().pc.WriteStatus? && x.Pass().inspected.cluster.Some? ==>
               !Applies(x.store, NextCall(x.Pass()).value, ch)
    ensures History(Apply(x, Advance(ch)).store, ClusterKey(x.Id())) == History(x.store, ClusterKey(x.Id()))
  {
    hide DesiredState, DesiredChild, ChildKey, KeyOf, Sane, History, AgentStep;
    AdvanceWritesAtHome(x, ch);
    if x.Pass().pc.ReadChild? || x.Pass().pc.Drive? {
      ClusterIsNoChild(x.Id(), x.Id(), x.Pass().pc.role);
    }
    ClusterIsNoChild(x.Id(), x.Id(), WorkerDeployment);
  }

  // No pass runs, or one is about to make its first call.
  ghost predicate Between(x: Solo) {
    x.Pass().pc.Finished? || x.Pass().pc.ReadCluster?
  }

  // Between passes with nothing remembered.
  ghost predicate Idle(x: Solo) {
    && Between(x) && x.Pass().inspected == Inspected(None, NO_CHILDREN)
    && (x.Pass().pc.ReadCluster? ==> !x.Pass().driveFailed)
  }

  // The same, before anything was done.
  ghost predicate Fresh(x: Solo) {
    Idle(x) && WellKeyed(x.store) && x.agent.events == [] && x.agent.writes == [] && x.agent.seen == 0
  }
}
