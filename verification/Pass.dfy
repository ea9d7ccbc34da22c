// One reconcile pass as an automaton: which call it makes next, and what it
// does with the reply. Inspect the CR and the five children, drive the
// children in a fixed order, read the worker Deployment again, update status.
module ReconcilePass {
  import opened Kubernetes
  import opened Names
  import opened Desired
  import opened ApiStore

  // ctrl.Result and error: Failed carries an error, Result does not.
  datatype Outcome = Result(requeue: bool) | Failed

  datatype Pc =
    | ReadCluster
    | ReadChild(role: Role)
    | Drive(role: Role)
    | ReadWorker
    | WriteStatus(count: int32)
    | Finished(outcome: Outcome)

  // The order in which the inspector reads, and the order of the drive step.
  function ReadPosition(r: Role): nat {
    match r
    case CatalogConfigMap => 0
    case PrestoConfigMap => 1
    case CoordinatorDeployment => 2
    case CoordinatorService => 3
    case WorkerDeployment => 4
  }

  function Position(r: Role): nat {
    match r
    case PrestoConfigMap => 0
    case CatalogConfigMap => 1
    case CoordinatorDeployment => 2
    case CoordinatorService => 3
    case WorkerDeployment => 4
  }

  function AfterRead(r: Role): Pc {
    match r
    case CatalogConfigMap => ReadChild(PrestoConfigMap)
    case PrestoConfigMap => ReadChild(CoordinatorDeployment)
    case CoordinatorDeployment => ReadChild(CoordinatorService)
    case CoordinatorService => ReadChild(WorkerDeployment)
    case WorkerDeployment => Drive(PrestoConfigMap)
  }

  function AfterDrive(r: Role): Pc {
    match r
    case PrestoConfigMap => Drive(CatalogConfigMap)
    case CatalogConfigMap => Drive(CoordinatorDeployment)
    case CoordinatorDeployment => Drive(CoordinatorService)
    case CoordinatorService => Drive(WorkerDeployment)
    case WorkerDeployment => ReadWorker
  }

  const DRIVING: nat := 6
  const REPORTING: nat := 11
  const FINISHED: nat := 13

  function Rank(pc: Pc): nat {
    match pc
    case ReadCluster => 0
    case ReadChild(r) => 1 + ReadPosition(r)
    case Drive(r) => DRIVING + Position(r)
    case ReadWorker => REPORTING
    case WriteStatus(_) => REPORTING + 1
    case Finished(_) => FINISHED
  }

  datatype Inspected = Inspected(cluster: Option<Cluster>, children: Children)

  datatype Pass = Pass(request: Request, inspected: Inspected, desired: Children, driveFailed: bool, pc: Pc)

  function StartPass(c: Request): Pass {
    Pass(c, Inspected(None, NO_CHILDREN), NO_CHILDREN, false, ReadCluster)
  }

  // What the drive step does about one child: create, update, delete, nothing.
  function DriveCall(desired: Option<Object>, inspected: Option<Object>): Option<Call> {
    if desired.Some? && inspected.None? then Some(Create(desired.value))
    else if desired.Some? && inspected.Some? then
      if desired.value.Deployment? && ReplicasOf(desired.value) != ReplicasOf(inspected.value)
      then Some(Update(desired.value)) else None
    else if inspected.Some? then Some(Delete(KeyOf(inspected.value)))
    else None
  }

  function NextCall(p: Pass): Option<Call> {
    match p.pc
    case ReadCluster => Some(Get(ClusterKey(p.request)))
    case ReadChild(r) => Some(Get(ChildKey(p.request, r)))
    case Drive(r) =>
      if p.inspected.cluster.None? then None
      else DriveCall(p.desired.Child(r), p.inspected.children.Child(r))
    case ReadWorker =>
      if p.inspected.cluster.None? then None else Some(Get(ChildKey(p.request, WorkerDeployment)))
    case WriteStatus(n) =>
      if p.inspected.cluster.None? then None
      else Some(UpdateStatus(p.inspected.cluster.value.(availableWorkers := n)))
    case Finished(_) => None
  }

  // The pass after the reply to its call; Done when it made none.
  ghost function Resume(p: Pass, reply: Reply): (p': Pass)
    ensures p'.request == p.request
    ensures Rank(p.pc) < FINISHED ==> Rank(p.pc) < Rank(p'.pc)
  {
    hide DesiredState;
    match p.pc
    case ReadCluster =>
      if reply.Error? then p.(pc := Finished(Failed))
      else
        var cl := if reply.Found? && reply.obj.PrestoCluster? then Some(reply.obj.cluster) else None;
        p.(inspected := p.inspected.(cluster := cl), pc := ReadChild(CatalogConfigMap))
    case ReadChild(r) =>
      if reply.Error? then p.(pc := Finished(Failed))
      else
        var o := if reply.Found? then Some(reply.obj) else None;
        p.(inspected := p.inspected.(children := p.inspected.children.With(r, o)),
           desired := if r.WorkerDeployment? then DesiredState(p.inspected.cluster) else p.desired,
           pc := AfterRead(r))
    case Drive(r) =>
      if p.inspected.cluster.None? then p.(pc := ReadWorker)
      else if reply.Error? then p.(driveFailed := true, pc := ReadWorker)
      else p.(pc := AfterDrive(r))
    case ReadWorker =>
      if p.inspected.cluster.None? then p.(pc := Finished(Result(false)))
      else
        var n := if reply.Found? then AvailableOf(Some(reply.obj)) else 0;
        if n != p.inspected.cluster.value.availableWorkers then p.(pc := WriteStatus(n))
        else p.(pc := Verdict(p, n))
    case WriteStatus(n) =>
      if p.inspected.cluster.None? || reply.Error? then p.(pc := Finished(Failed)) else p.(pc := Verdict(p, n))
    case Finished(_) => p
  }

  // Requeue while the available workers are not the wanted ones.
  function Verdict(p: Pass, n: int32): Pc
    requires p.inspected.cluster.Some?
  {
    Finished(Result(n != p.inspected.cluster.value.spec.workers))
  }

  // ---- The operator working on one cluster ----

  datatype Event = WorkersChanged(before: int32, after: int32)

  // A child write that took effect, and the CR version it was derived from.
  datatype ChildWrite = ChildWrite(role: Role, version: nat)

  // seen is the CR version the latest inspection found.
  datatype Agent = Agent(pass: Pass, events: seq<Event>, writes: seq<ChildWrite>, seen: nat)

  ghost function Note(a: Agent, applied: bool, reply: Reply): (a': Agent)
    ensures a'.pass == Resume(a.pass, reply)
  {
    var p := a.pass;
    var cl := p.inspected.cluster;
    a.(pass := Resume(p, reply),
       events := if p.pc.WriteStatus? && cl.Some? && !reply.Error?
                 then a.events + [WorkersChanged(cl.value.availableWorkers, p.pc.count)] else a.events,
       writes := if p.pc.Drive? && cl.Some? && applied
                 then a.writes + [ChildWrite(p.pc.role, cl.value.resourceVersion)] else a.writes,
       seen := if p.pc.ReadCluster? && reply.Found? && reply.obj.PrestoCluster?
               then reply.obj.cluster.resourceVersion else a.seen)
  }

  ghost function StoreStep(st: Store, a: Agent, ch: Choice): Store {
    var call := NextCall(a.pass);
    if call.None? then st else StoreAfter(st, call.value, ch)
  }

  ghost function AgentStep(st: Store, a: Agent, ch: Choice): (a': Agent)
    ensures a'.pass.request == a.pass.request
    ensures Rank(a.pass.pc) < FINISHED ==> Rank(a.pass.pc) < Rank(a'.pass.pc)
  {
    var call := NextCall(a.pass);
    if call.None? then Note(a, false, Done)
    else Note(a, Applies(st, call.value, ch), ReplyTo(st, call.value, ch))
  }

  ghost function Restart(a: Agent): Agent {
    a.(pass := StartPass(a.pass.request))
  }
}
