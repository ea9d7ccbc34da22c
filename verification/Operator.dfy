// The operator itself: the inspector, the reconciler, the status updater and
// the controller, each issuing calls one after another. What a whole Reconcile
// does to the server, returns and announces is what the automaton of a pass
// does under the same script.
module Operator {
  import opened Kubernetes
  import opened Names
  import opened Desired
  import opened Builders
  import opened ApiStore
  import opened ReconcilePass
  import opened SoloRuns
  import opened Completion
  import opened ScriptedPass
  import opened Conversation
  import opened Convergence

  // The API server together with everyone else who uses it.
  class ApiServer {
    var store: Store
    var script: seq<Turn>

    constructor (store: Store, script: seq<Turn>)
      ensures this.store == store && this.script == script
    {
      this.store, this.script := store, script;
    }

    method Serve(call: Call) returns (reply: Reply)
      modifies this
      ensures var st, ch := StoreAtCall(old(store), old(script)), ChoiceAtCall(old(script));
        store == StoreAfter(st, call, ch) && script == RestOf(old(script)) && reply == ReplyTo(st, call, ch)
    {
      hide KeyOf, Accepts, Effect;
      var st, ch := StoreAtCall(store, script), ChoiceAtCall(script);
      store, script, reply := StoreAfter(st, call, ch), RestOf(script), ReplyTo(st, call, ch);
    }
  }

  class EventRecorder {
    var events: seq<Event>

    constructor (events: seq<Event>)
      ensures this.events == events
    {
      this.events := events;
    }

    method Record(e: Event)
      modifies this
      ensures events == old(events) + [e]
    {
      events := events + [e];
    }
  }

  class InspectedClusterState {
    var cluster: Option<Cluster>
    var prestoConfigMap: Option<Object>
    var catalogConfigMap: Option<Object>
    var coordinatorDeployment: Option<Object>
    var coordinatorService: Option<Object>
    var workerDeployment: Option<Object>

    constructor ()
      ensures Value() == Inspected(None, NO_CHILDREN)
    {
      cluster, prestoConfigMap, catalogConfigMap := None, None, None;
      coordinatorDeployment, coordinatorService, workerDeployment := None, None, None;
    }

    function Value(): Inspected
      reads this
    {
      Inspected(cluster,
                Children(prestoConfigMap, catalogConfigMap, coordinatorDeployment, coordinatorService,
                         workerDeployment))
    }
  }

  // The server and a pass, as the automaton sees them.
  ghost function ConfigOf(server: ApiServer, a: Agent): Config
    reads server
  {
    Config(server.store, server.script, a)
  }

  lemma AtBound(g: Config, bound: nat)
    requires bound <= FINISHED && bound <= Rank(g.agent.pass.pc)
    ensures RunTo(g, bound) == g
  {
  }

  lemma BelowBound(g: Config, bound: nat)
    requires Rank(g.agent.pass.pc) < bound <= FINISHED
    ensures RunTo(g, bound) == RunTo(StepConfig(g), bound)
  {
  }

  // The rank of a pass that has read the CR and the two ConfigMaps.
  const WORKLOADS: nat := 3

  // ---- What the parts of a pass say to the server ----

  lemma InspectionTalks(g: Config)
    requires g.agent.pass == StartPass(g.agent.pass.request)
    ensures CarriedOut(Reads(g.agent.pass.request), Log(g, DRIVING))
    ensures RunTo(g, DRIVING).agent.pass.pc == Finished(Failed) <==> Failing(Log(g, DRIVING))
  {
    hide Log, RunTo, Reads, CarriedOut, Failing;
    Inspecting(g);
    assert Reads(g.agent.pass.request)[0..] == Reads(g.agent.pass.request);
  }

  lemma DriveTalks(g: Config)
    requires g.agent.pass.pc == Drive(PrestoConfigMap) && !g.agent.pass.driveFailed
    requires g.agent.pass.desired == DesiredState(g.agent.pass.inspected.cluster)
    ensures var p, log := g.agent.pass, Log(g, REPORTING);
      if p.inspected.cluster.None? then log == []
      else
        && CarriedOut(Todo(DRIVE_ORDER, p.inspected.cluster.value, p.inspected.children), log)
        && (RunTo(g, REPORTING).agent.pass.driveFailed <==> Failing(log))
  {
    hide DesiredState, Log, RunTo, CarriedOut, Todo, Failing;
    if g.agent.pass.inspected.cluster.None? {
      NothingSaid(g);
    } else {
      DrivingOn(g, g.agent.pass.inspected.cluster.value);
    }
  }

  lemma ReportTalks(g: Config, cl: Cluster)
    requires g.agent.pass.pc == ReadWorker && g.agent.pass.inspected.cluster == Some(cl)
    ensures var h := RunTo(g, FINISHED);
      && h.agent.pass.pc.Finished? && g.agent.events <= h.agent.events
      && Reports(g.agent.pass.request, cl, Log(g, FINISHED), h.agent.pass.pc.outcome,
                 h.agent.events[|g.agent.events|..])
  {
    hide Log, RunTo, Reports;
    var outcome, news := ReportMade(g, cl);
    assert (g.agent.events + news)[|g.agent.events|..] == news;
  }

  lemma PassTalks(g: Config)
    requires g.agent.pass == StartPass(g.agent.pass.request)
    ensures var h := RunTo(g, FINISHED);
      && h.agent.pass.pc.Finished? && g.agent.events <= h.agent.events
      && Converses(g.agent.pass.request, Log(g, DRIVING), Log(RunTo(g, DRIVING), REPORTING),
                   Log(RunTo(g, REPORTING), FINISHED), h.agent.pass.pc.outcome, h.agent.events[|g.agent.events|..])
      && (h.agent.pass.pc == Finished(Failed) <==> Failing(Log(g, DRIVING)) || StatusRefused(Log(g, FINISHED)))
  {
    hide Log, RunTo, Converses, Failing, StatusRefused;
    var outcome, news := PassConverses(g);
    PassFailsExactly(g);
    assert (g.agent.events + news)[|g.agent.events|..] == news;
  }

  // ---- controllers/inspector.go ----

  class ClusterStateInspector {
    const server: ApiServer
    const request: Request

    constructor (server: ApiServer, request: Request)
      ensures this.server == server && this.request == request
    {
      this.server, this.request := server, request;
    }

    // The Get of the CR: one step of the pass, which fails exactly when the
    // Get does; h is the pass after it.
    method InspectCluster(ghost a: Agent) returns (failed: bool, found: Option<Cluster>, ghost h: Config)
      requires a.pass == StartPass(request)
      modifies server
      ensures h == StepConfig(old(ConfigOf(server, a))) && h == ConfigOf(server, h.agent)
      ensures var st, ch := StoreAtCall(old(server.store), old(server.script)), ChoiceAtCall(old(server.script));
        var reply := ReplyTo(st, Get(ClusterKey(request)), ch);
        && (failed <==> reply.Error?)
        && found == if reply.Found? && reply.obj.PrestoCluster? then Some(reply.obj.cluster) else None
      ensures h.agent.pass ==
        if failed then a.pass.(pc := Finished(Failed))
        else a.pass.(inspected := Inspected(found, NO_CHILDREN), pc := ReadChild(CatalogConfigMap))
    {
      hide DesiredState, ChildKey, ReplyTo, StoreAfter, StoreAtCall;
      var reply := server.Serve(Get(ClusterKey(request)));
      h := StepConfig(old(ConfigOf(server, a)));
      failed := reply.Error?;
      found := if reply.Found? && reply.obj.PrestoCluster? then Some(reply.obj.cluster) else None;
    }

    // One Get of a child: one step of the pass, which fails exactly when the
    // Get does; g and h are the pass before and after it.
    method InspectChild(r: Role, ghost g: Config) returns (failed: bool, found: Option<Object>, ghost h: Config)
      requires g == ConfigOf(server, g.agent) && g.agent.pass.request == request && g.agent.pass.pc == ReadChild(r)
      modifies server
      ensures h == StepConfig(g) && h == ConfigOf(server, h.agent) && h.agent.pass.request == request
      ensures var st, ch := StoreAtCall(old(server.store), old(server.script)), ChoiceAtCall(old(server.script));
        var reply := ReplyTo(st, Get(ChildKey(request, r)), ch);
        (failed <==> reply.Error?) && found == if reply.Found? then Some(reply.obj) else None
      ensures failed ==> h.agent.pass == g.agent.pass.(pc := Finished(Failed))
      ensures !failed ==>
        && h.agent.pass.pc == AfterRead(r)
        && h.agent.pass.inspected ==
             Inspected(g.agent.pass.inspected.cluster, g.agent.pass.inspected.children.With(r, found))
    {
      hide DesiredState, ChildKey, ReplyTo, StoreAfter, StoreAtCall;
      var reply := server.Serve(Get(ChildKey(request, r)));
      h := StepConfig(g);
      failed := reply.Error?;
      found := if reply.Found? then Some(reply.obj) else None;
    }

    // The two ConfigMaps, the catalog's first: the pass up to the workloads,
    // or to its end on the first error.
    method InspectConfigMaps(inspected: InspectedClusterState, ghost g: Config)
      returns (failed: bool, ghost h: Config)
      requires g == ConfigOf(server, g.agent) && g.agent.pass.request == request
      requires g.agent.pass.pc == ReadChild(CatalogConfigMap) && g.agent.pass.inspected == inspected.Value()
      requires inspected.Value().children == NO_CHILDREN
      modifies server, inspected
      ensures h == RunTo(g, WORKLOADS) && h == ConfigOf(server, h.agent) && h.agent.pass.request == request
      ensures h.agent.pass.inspected == inspected.Value()
      ensures h.agent.pass.pc == if failed then Finished(Failed) else ReadChild(CoordinatorDeployment)
      ensures inspected.coordinatorDeployment == inspected.coordinatorService == inspected.workerDeployment == None
    {
      hide DesiredState, ChildKey, StepConfig, RunTo, ReplyTo, StoreAtCall;
      BelowBound(g, WORKLOADS);
      failed, inspected.catalogConfigMap, h := InspectChild(CatalogConfigMap, g);
      if failed {
        AtBound(h, WORKLOADS);
        return;
      }
      assert h.agent.pass.inspected == inspected.Value();
      BelowBound(h, WORKLOADS);
      failed, inspected.prestoConfigMap, h := InspectChild(PrestoConfigMap, h);
      AtBound(h, WORKLOADS);
    }

    // The coordinator Deployment, the Service and the worker Deployment: the
    // pass up to the drive step, or to its end on the first error.
    method InspectWorkloads(inspected: InspectedClusterState, ghost g: Config)
      returns (failed: bool, ghost h: Config)
      requires g == ConfigOf(server, g.agent) && g.agent.pass.request == request
      requires g.agent.pass.pc == ReadChild(CoordinatorDeployment) && g.agent.pass.inspected == inspected.Value()
      requires inspected.coordinatorDeployment == inspected.coordinatorService == inspected.workerDeployment == None
      modifies server, inspected
      ensures h == RunTo(g, DRIVING) && h == ConfigOf(server, h.agent)
      ensures h.agent.pass.inspected == inspected.Value()
      ensures h.agent.pass.pc == if failed then Finished(Failed) else Drive(PrestoConfigMap)
    {
      hide DesiredState, ChildKey, StepConfig, RunTo, ReplyTo, StoreAtCall;
      BelowBound(g, DRIVING);
      failed, inspected.coordinatorDeployment, h := InspectChild(CoordinatorDeployment, g);
      if failed {
        AtBound(h, DRIVING);
        return;
      }
      assert h.agent.pass.inspected == inspected.Value();
      BelowBound(h, DRIVING);
      failed, inspected.coordinatorService, h := InspectChild(CoordinatorService, h);
      if failed {
        AtBound(h, DRIVING);
        return;
      }
      assert h.agent.pass.inspected == inspected.Value();
      BelowBound(h, DRIVING);
      failed, inspected.workerDeployment, h := InspectChild(WorkerDeployment, h);
      AtBound(h, DRIVING);
    }

    // Reads the CR, then the five children; not found leaves the field nil,
    // any other error ends the inspection.
    method Inspect(inspected: InspectedClusterState, ghost a: Agent) returns (failed: bool)
      requires a.pass == StartPass(request) && inspected.Value() == Inspected(None, NO_CHILDREN)
      modifies server, inspected
      ensures var h := RunTo(old(ConfigOf(server, a)), DRIVING);
        && server.store == h.store && server.script == h.script
        && inspected.Value() == h.agent.pass.inspected
        && h.agent.pass.pc == if failed then Finished(Failed) else Drive(PrestoConfigMap)
      ensures var log := Log(old(ConfigOf(server, a)), DRIVING);
        CarriedOut(Reads(request), log) && (failed <==> Failing(log))
    {
      hide Reads, CarriedOut, Failing, Log;
      InspectionTalks(ConfigOf(server, a));
      hide DesiredState, ChildKey, StepConfig, RunTo, ReplyTo, StoreAtCall;
      BelowBound(ConfigOf(server, a), DRIVING);
      ghost var g;
      failed, inspected.cluster, g := InspectCluster(a);
      if failed {
        AtBound(g, DRIVING);
        return;
      }
      RunSplits(g, WORKLOADS, DRIVING);
      failed, g := InspectConfigMaps(inspected, g);
      if failed {
        AtBound(g, DRIVING);
        return;
      }
      failed, g := InspectWorkloads(inspected, g);
    }
  }

  // ---- controllers/reconciler.go ----

  class ClusterReconciler {
    const server: ApiServer
    const inspected: Inspected
    const desired: Children

    constructor (server: ApiServer, inspected: Inspected, desired: Children)
      ensures this.server == server && this.inspected == inspected && this.desired == desired
    {
      this.server, this.inspected, this.desired := server, inspected, desired;
    }

    method CreateObject(o: Object) returns (failed: bool)
      modifies server
      ensures var st, ch := StoreAtCall(old(server.store), old(server.script)), ChoiceAtCall(old(server.script));
        && server.store == StoreAfter(st, Create(o), ch) && server.script == RestOf(old(server.script))
        && (failed <==> ReplyTo(st, Create(o), ch).Error?)
    {
      hide ReplyTo, StoreAfter, StoreAtCall;
      var reply := server.Serve(Create(o));
      failed := reply.Error?;
    }

    method UpdateDeployment(o: Object) returns (failed: bool)
      modifies server
      ensures var st, ch := StoreAtCall(old(server.store), old(server.script)), ChoiceAtCall(old(server.script));
        && server.store == StoreAfter(st, Update(o), ch) && server.script == RestOf(old(server.script))
        && (failed <==> ReplyTo(st, Update(o), ch).Error?)
    {
      hide ReplyTo, StoreAfter, StoreAtCall;
      var reply := server.Serve(Update(o));
      failed := reply.Error?;
    }

    // An object that is already gone is no error.
    method DeleteObject(o: Object) returns (failed: bool)
      modifies server
      ensures var st, ch := StoreAtCall(old(server.store), old(server.script)), ChoiceAtCall(old(server.script));
        && server.store == StoreAfter(st, Delete(KeyOf(o)), ch) && server.script == RestOf(old(server.script))
        && (failed <==> ReplyTo(st, Delete(KeyOf(o)), ch).Error?)
    {
      hide ReplyTo, StoreAfter, StoreAtCall;
      var reply := server.Serve(Delete(KeyOf(o)));
      failed := reply.Error? && !reply.NotFound?;
    }

    // The server after the call that the drive step makes for one child, if
    // it makes one.
    ghost predicate Drove(call: Option<Call>, st: Store, script: seq<Turn>, failed: bool)
      reads server
    {
      if call.None? then server.store == st && server.script == script && !failed
      else
        var at, ch := StoreAtCall(st, script), ChoiceAtCall(script);
        && server.store == StoreAfter(at, call.value, ch) && server.script == RestOf(script)
        && (failed <==> ReplyTo(at, call.value, ch).Error?)
    }

    method ReconcileDeployment(desiredDeployment: Option<Object>, inspectedDeployment: Option<Object>)
      returns (failed: bool)
      requires desiredDeployment.Some? ==> desiredDeployment.value.Deployment?
      modifies server
      ensures Drove(DriveCall(desiredDeployment, inspectedDeployment), old(server.store), old(server.script), failed)
    {
      hide ReplyTo, StoreAfter, StoreAtCall;
      if desiredDeployment.Some? && inspectedDeployment.None? {
        failed := CreateObject(desiredDeployment.value);
        return;
      }
      if desiredDeployment.Some? && inspectedDeployment.Some? {
        if ReplicasOf(desiredDeployment.value) != ReplicasOf(inspectedDeployment.value) {
          failed := UpdateDeployment(desiredDeployment.value);
          return;
        }
      }
      if desiredDeployment.None? && inspectedDeployment.Some? {
        failed := DeleteObject(inspectedDeployment.value);
        return;
      }
      failed := false;
    }

    // ConfigMaps and the Service are created or deleted, never updated.
    method ReconcileFixed(desiredObject: Option<Object>, inspectedObject: Option<Object>) returns (failed: bool)
      requires desiredObject.Some? ==> !desiredObject.value.Deployment?
      modifies server
      ensures Drove(DriveCall(desiredObject, inspectedObject), old(server.store), old(server.script), failed)
    {
      hide ReplyTo, StoreAfter, StoreAtCall;
      if desiredObject.Some? && inspectedObject.None? {
        failed := CreateObject(desiredObject.value);
        return;
      }
      if desiredObject.Some? && inspectedObject.Some? {
        return false;
      }
      if desiredObject.None? && inspectedObject.Some? {
        failed := DeleteObject(inspectedObject.value);
        return;
      }
      failed := false;
    }

    // One child of the drive order: one step of the pass, which jumps past the
    // others when it fails; g and h are the pass before and after it.
    method ReconcileChild(r: Role, ghost g: Config) returns (failed: bool, ghost h: Config)
      requires g == ConfigOf(server, g.agent) && g.agent.pass.pc == Drive(r)
      requires g.agent.pass.inspected == inspected && g.agent.pass.desired == desired && inspected.cluster.Some?
      requires desired == DesiredState(inspected.cluster)
      modifies server
      ensures h == StepConfig(g) && h == ConfigOf(server, h.agent)
      ensures Drove(DriveCall(desired.Child(r), inspected.children.Child(r)),
                    old(server.store), old(server.script), failed)
      ensures h.agent.pass == if failed then g.agent.pass.(driveFailed := true, pc := ReadWorker)
                              else g.agent.pass.(pc := AfterDrive(r))
    {
      hide DesiredChild, ChildKey, ReplyTo, StoreAfter, StoreAtCall, KeyOf;
      DesiredRole(inspected.cluster, r);
      DesiredShape(inspected.cluster.value, r);
      hide DesiredState;
      h := StepConfig(g);
      if IsDeployment(r) {
        failed := ReconcileDeployment(desired.Child(r), inspected.children.Child(r));
      } else {
        failed := ReconcileFixed(desired.Child(r), inspected.children.Child(r));
      }
    }

    // Drives the children in order and stops at the first error.
    method Reconcile(ghost a: Agent) returns (failed: bool)
      requires a.pass.pc == Drive(PrestoConfigMap) && !a.pass.driveFailed
      requires a.pass.inspected == inspected && a.pass.desired == desired
      requires desired == DesiredState(inspected.cluster)
      modifies server
      ensures var h := RunTo(old(ConfigOf(server, a)), REPORTING);
        && server.store == h.store && server.script == h.script
        && h.agent.pass == a.pass.(driveFailed := failed, pc := ReadWorker)
        && h.agent.events == a.events
      ensures var log := Log(old(ConfigOf(server, a)), REPORTING);
        if inspected.cluster.None? then log == []
        else
          && CarriedOut(Todo(DRIVE_ORDER, inspected.cluster.value, inspected.children), log)
          && (failed <==> Failing(log))
    {
      hide CarriedOut, Todo, Failing, Log;
      hide DesiredState, ChildKey, StepConfig, RunTo, Drove;
      ghost var g := ConfigOf(server, a);
      EventsUnchanged(g);
      DriveTalks(g);
      if inspected.cluster.None? {
        NothingToDrive(g);
        return false;
      }
      BelowBound(g, REPORTING);
      failed, g := ReconcileChild(PrestoConfigMap, g);
      if failed {
        AtBound(g, REPORTING);
        return;
      }
      BelowBound(g, REPORTING);
      failed, g := ReconcileChild(CatalogConfigMap, g);
      if failed {
        AtBound(g, REPORTING);
        return;
      }
      BelowBound(g, REPORTING);
      failed, g := ReconcileChild(CoordinatorDeployment, g);
      if failed {
        AtBound(g, REPORTING);
        return;
      }
      BelowBound(g, REPORTING);
      failed, g := ReconcileChild(CoordinatorService, g);
      if failed {
        AtBound(g, REPORTING);
        return;
      }
      BelowBound(g, REPORTING);
      failed, g := ReconcileChild(WorkerDeployment, g);
      AtBound(g, REPORTING);
    }
  }

  // Without a CR the drive step returns at once.
  lemma NothingToDrive(g: Config)
    requires g.agent.pass.pc == Drive(PrestoConfigMap) && g.agent.pass.inspected.cluster.None?
    ensures RunTo(g, REPORTING).store == g.store && RunTo(g, REPORTING).script == g.script
    ensures RunTo(g, REPORTING).agent.pass == g.agent.pass.(pc := ReadWorker)
  {
    hide DesiredState, ChildKey;
    AtBound(StepConfig(g), REPORTING);
  }

  // Nothing is announced before the status is written.
  lemma {:induction false} EventsUnchanged(g: Config)
    ensures RunTo(g, REPORTING).agent.events == g.agent.events
    decreases REPORTING - Rank(g.agent.pass.pc)
  {
    hide DesiredState, ChildKey, Resume, ReplyTo, NextCall;
    if REPORTING <= Rank(g.agent.pass.pc) {
    } else {
      EventsUnchanged(StepConfig(g));
    }
  }

  // ---- controllers/status.go ----

  class ClusterStatusUpdater {
    const server: ApiServer
    const recorder: EventRecorder
    const inspected: Inspected

    constructor (server: ApiServer, recorder: EventRecorder, inspected: Inspected)
      ensures this.server == server && this.recorder == recorder && this.inspected == inspected
    {
      this.server, this.recorder, this.inspected := server, recorder, inspected;
    }

    // The Deployment at the key, or nothing on any error: the caller's
    // out-object then keeps its zero value.
    method CurrentDeployment(key: Key) returns (found: Option<Object>)
      modifies server
      ensures var st, ch := StoreAtCall(old(server.store), old(server.script)), ChoiceAtCall(old(server.script));
        && server.store == StoreAfter(st, Get(key), ch) && server.script == RestOf(old(server.script))
        && var reply := ReplyTo(st, Get(key), ch); found == if reply.Found? then Some(reply.obj) else None
    {
      hide ReplyTo, StoreAfter, StoreAtCall;
      var reply := server.Serve(Get(key));
      found := if reply.Found? then Some(reply.obj) else None;
    }

    method DeriveClusterStatus(request: Request) returns (availableWorkers: int32)
      modifies server
      ensures var st, ch := StoreAtCall(old(server.store), old(server.script)), ChoiceAtCall(old(server.script));
        var call := Get(ChildKey(request, WorkerDeployment));
        && server.store == StoreAfter(st, call, ch) && server.script == RestOf(old(server.script))
        && var reply := ReplyTo(st, call, ch);
           availableWorkers == if reply.Found? then AvailableOf(Some(reply.obj)) else 0
    {
      hide ReplyTo, StoreAfter, StoreAtCall, ChildKey;
      var current := CurrentDeployment(ChildKey(request, WorkerDeployment));
      availableWorkers := AvailableOf(current);
    }

    // Status().Update of the inspected object with the new status.
    method UpdateClusterStatus(availableWorkers: int32) returns (failed: bool)
      requires inspected.cluster.Some?
      modifies server
      ensures var st, ch := StoreAtCall(old(server.store), old(server.script)), ChoiceAtCall(old(server.script));
        var call := UpdateStatus(inspected.cluster.value.(availableWorkers := availableWorkers));
        && server.store == StoreAfter(st, call, ch) && server.script == RestOf(old(server.script))
        && (failed <==> ReplyTo(st, call, ch).Error?)
    {
      hide ReplyTo, StoreAfter, StoreAtCall;
      var cluster := inspected.cluster.value.(availableWorkers := availableWorkers);
      var reply := server.Serve(UpdateStatus(cluster));
      failed := reply.Error?;
    }

    // Writes the status if it changed and then announces it; asks for a
    // requeue while the workers are not all available.
    method UpdatePrestoClusterStatus(request: Request, ghost a: Agent) returns (outcome: Outcome)
      requires a.pass.pc == ReadWorker && a.pass.request == request && a.pass.inspected == inspected
      requires inspected.cluster.Some? && recorder.events == a.events
      modifies server, recorder
      ensures var h := RunTo(old(ConfigOf(server, a)), FINISHED);
        && server.store == h.store && server.script == h.script
        && recorder.events == h.agent.events && h.agent.pass.pc == Finished(outcome)
      ensures |old(recorder.events)| <= |recorder.events|
      ensures Reports(request, inspected.cluster.value, Log(old(ConfigOf(server, a)), FINISHED), outcome,
                      recorder.events[|old(recorder.events)|..])
    {
      hide DesiredState, ChildKey, ReplyTo, StoreAfter, StoreAtCall, Log, Reports;
      var cl := inspected.cluster.value;
      ghost var start := ConfigOf(server, a);
      ReportTalks(start, cl);
      var newWorkers := DeriveClusterStatus(request);
      ghost var g := StepConfig(start);
      assert g == ConfigOf(server, g.agent) && g.agent.events == recorder.events;
      assert RunTo(g, FINISHED) == RunTo(start, FINISHED);
      if newWorkers != cl.availableWorkers {
        assert g.agent.pass == a.pass.(pc := WriteStatus(newWorkers));
        ghost var h := StepConfig(g);
        assert RunTo(g, FINISHED) == RunTo(h, FINISHED);
        var failed := UpdateClusterStatus(newWorkers);
        AtBound(h, FINISHED);
        if failed {
          return Failed;
        }
        recorder.Record(WorkersChanged(cl.availableWorkers, newWorkers));
      } else {
        AtBound(g, FINISHED);
      }
      outcome := Result(newWorkers != cl.spec.workers);
    }
  }

  // ---- controllers/controller.go ----

  class PrestoClusterController {
    const server: ApiServer
    const recorder: EventRecorder
    const request: Request
    const inspected: InspectedClusterState
    var desired: Children

    constructor (server: ApiServer, recorder: EventRecorder, request: Request)
      ensures this.server == server && this.recorder == recorder && this.request == request
      ensures fresh(inspected) && inspected.Value() == Inspected(None, NO_CHILDREN)
    {
      this.server, this.recorder, this.request := server, recorder, request;
      this.inspected := new InspectedClusterState();
      this.desired := NO_CHILDREN;
    }

    // The whole pass: an inspection error is returned, a drive error is only
    // logged, and what the status step returns is the result.
    method Reconcile(ghost a: Agent) returns (outcome: Outcome)
      requires a.pass == StartPass(request) && a.events == recorder.events
      requires inspected.Value() == Inspected(None, NO_CHILDREN)
      modifies server, recorder, inspected, this
      ensures var h := RunTo(old(ConfigOf(server, a)), FINISHED);
        && server.store == h.store && server.script == h.script
        && recorder.events == h.agent.events && h.agent.pass.pc == Finished(outcome)
      ensures forall cl :: IsCluster(old(server.store), request, cl) ==>
                old(server.script) == [] && WellKeyed(old(server.store)) ==> Converged(server.store, request)
      ensures Honest(request, Solo(old(server.store), a)) && ScriptKeepsChildren(old(ConfigOf(server, a))) ==>
                InOrder(server.store, request)
      ensures Honest(request, Solo(old(server.store), a)) && ScriptKeepsChildren(old(ConfigOf(server, a))) ==>
                outcome == Result(false) && inspected.cluster.Some? && inspected.cluster.value.spec.workers != 0 ==>
                  AllPresent(server.store, request)
      ensures |old(recorder.events)| <= |recorder.events|
      ensures var g := old(ConfigOf(server, a));
        && Converses(request, Log(g, DRIVING), Log(RunTo(g, DRIVING), REPORTING), Log(RunTo(g, REPORTING), FINISHED),
                     outcome, recorder.events[|old(recorder.events)|..])
        && (outcome == Failed <==> Failing(Log(g, DRIVING)) || StatusRefused(Log(g, FINISHED)))
    {
      hide Converses, Log, Failing, StatusRefused;
      hide DesiredState, ChildKey, StepConfig, RunTo, WellKeyed, IsCluster, Converged, Honest, ScriptKeepsChildren;
      hide InOrder, AllPresent;
      ghost var start := ConfigOf(server, a);
      PassTalks(start);
      HonestReconcile(start);
      UndisturbedConverges(start);
      RunSplits(start, DRIVING, REPORTING);
      RunSplits(start, DRIVING, FINISHED);
      RunSplits(start, REPORTING, FINISHED);
      InspectionAnnouncesNothing(start);

      var inspector := new ClusterStateInspector(server, request);
      var failed := inspector.Inspect(inspected, a);
      ghost var looked := RunTo(start, DRIVING);
      if failed {
        AtBound(looked, FINISHED);
        return Failed;
      }

      desired := GetDesiredClusterState(inspected.cluster);

      var reconciler := new ClusterReconciler(server, inspected.Value(), desired);
      failed := reconciler.Reconcile(looked.agent);
      ghost var driven := RunTo(start, REPORTING);
      ReportingKeepsInspected(driven);

      if inspected.cluster.None? {
        NothingToReport(driven);
        return Result(false);
      }
      var updater := new ClusterStatusUpdater(server, recorder, inspected.Value());
      outcome := updater.UpdatePrestoClusterStatus(request, driven.agent);
    }
  }

  // Whatever happens between the calls of the pass, nobody else creates or
  // deletes a child.
  ghost predicate ScriptKeepsChildren(g: Config) {
    Permitted(World(g), ActionsOf(g, FINISHED), (y, a) => KeepsChildren(g.agent.pass.request, y, a))
  }

  // A pass that starts in an honest state, as every undisturbed run leaves
  // it, ends in one.
  lemma HonestReconcile(g: Config)
    ensures var c, z := g.agent.pass.request, World(RunTo(g, FINISHED));
      Honest(c, World(g)) && ScriptKeepsChildren(g) ==>
        && InOrder(z.store, c)
        && (Quiet(z.Pass()) && z.Pass().inspected.cluster.value.spec.workers != 0 ==> AllPresent(z.store, c))
  {
    hide ChildKey, Sane, NothingLost, Driven, Apply, KeepsChildren, RunTo, ActionsOf, AllPresent, InOrder;
    var c := g.agent.pass.request;
    if Honest(c, World(g)) && ScriptKeepsChildren(g) {
      var acts := ActionsOf(g, FINISHED);
      ScriptedPassIsRun(g, FINISHED);
      forall y: Solo, a: Action | Honest(c, y) && KeepsChildren(c, y, a) ensures Honest(c, Apply(y, a)) {
        ActionsKeepHonesty(c, y, a);
      }
      RunsKeep(World(g), acts, (y, a) => KeepsChildren(c, y, a), y => Honest(c, y));
      HonestQuiet(c, World(RunTo(g, FINISHED)));
    }
  }

  lemma {:induction false} ReportingKeepsInspected(g: Config)
    requires REPORTING <= Rank(g.agent.pass.pc)
    ensures RunTo(g, FINISHED).agent.pass.inspected == g.agent.pass.inspected
    decreases FINISHED - Rank(g.agent.pass.pc)
  {
    hide DesiredState, ChildKey, ReplyTo, StoreAfter, StoreAtCall;
    if FINISHED <= Rank(g.agent.pass.pc) {
    } else {
      ReportingKeepsInspected(StepConfig(g));
    }
  }

  lemma NothingToReport(g: Config)
    requires g.agent.pass.pc == ReadWorker && g.agent.pass.inspected.cluster.None?
    ensures var h := RunTo(g, FINISHED);
      && h.store == g.store && h.script == g.script && h.agent.events == g.agent.events
      && h.agent.pass.pc == Finished(Result(false))
  {
    hide DesiredState, ChildKey;
    AtBound(StepConfig(g), FINISHED);
  }

  // After a successful inspection the desired state is that of the inspected
  // cluster; nothing has been announced.
  lemma {:induction false} InspectionLeaves(g: Config)
    requires Rank(g.agent.pass.pc) < DRIVING
    ensures var h := RunTo(g, DRIVING);
      && h.agent.events == g.agent.events
      && (h.agent.pass.pc.Drive? ==> h.agent.pass.driveFailed == g.agent.pass.driveFailed
                                     && h.agent.pass.desired == DesiredState(h.agent.pass.inspected.cluster))
    decreases DRIVING - Rank(g.agent.pass.pc)
  {
    hide DesiredState, ChildKey, ReplyTo, StoreAfter, StoreAtCall;
    var h := StepConfig(g);
    if Rank(h.agent.pass.pc) < DRIVING {
      InspectionLeaves(h);
    } else {
      AtBound(h, DRIVING);
    }
  }

  lemma InspectionAnnouncesNothing(g: Config)
    requires g.agent.pass == StartPass(g.agent.pass.request)
    ensures var h := RunTo(g, DRIVING);
      && h.agent.events == g.agent.events
      && (h.agent.pass.pc.Drive? ==> !h.agent.pass.driveFailed
                                     && h.agent.pass.desired == DesiredState(h.agent.pass.inspected.cluster))
  {
    hide DesiredState, RunTo;
    InspectionLeaves(g);
  }

  lemma UndisturbedConverges(g: Config)
    requires g.agent.pass == StartPass(g.agent.pass.request)
    ensures forall cl :: IsCluster(g.store, g.agent.pass.request, cl) ==>
              g.script == [] && WellKeyed(g.store) ==> Converged(RunTo(g, FINISHED).store, g.agent.pass.request)
  {
    hide DesiredState, RunTo, WellKeyed, IsCluster, Converged;
    forall cl | g.script == [] && WellKeyed(g.store) && IsCluster(g.store, g.agent.pass.request, cl)
      ensures Converged(RunTo(g, FINISHED).store, g.agent.pass.request)
    {
      CleanPassConverges(g.store, g.agent, cl);
      assert g == Config(g.store, [], Restart(g.agent));
    }
  }
}
