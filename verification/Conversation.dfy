// A whole pass as the conversation it holds with the server: which calls, in
// which order, and what is returned and announced, all told by the replies.
module Conversation {
  import opened Kubernetes
  import opened Names
  import opened Desired
  import opened ApiStore
  import opened ReconcilePass
  import opened ScriptedPass

  datatype Exchange = Exchange(call: Call, reply: Reply)

  predicate Failing(log: seq<Exchange>) {
    exists e <- log :: e.reply.Error?
  }

  // These calls, one after the other; the first error is the end.
  predicate CarriedOut(todo: seq<Call>, log: seq<Exchange>) {
    if todo == [] then log == []
    else
      && log != [] && log[0].call == todo[0]
      && if log[0].reply.Error? then |log| == 1 else CarriedOut(todo[1..], log[1..])
  }

  // ---- Inspecting ----

  // The inspection: the CR, then the five children.
  function Reads(c: Request): seq<Call> {
    [Get(Key(PrestoClusterKind, c.namespace, c.name)),
     Get(Key(ConfigMapKind, c.namespace, c.name + "-catalog-configmap")),
     Get(Key(ConfigMapKind, c.namespace, c.name + "-presto-configmap")),
     Get(Key(DeploymentKind, c.namespace, c.name + "-coordinator")),
     Get(Key(ServiceKind, c.namespace, c.name)),
     Get(Key(DeploymentKind, c.namespace, c.name + "-worker"))]
  }

  function ClusterIn(reply: Reply): Option<Cluster> {
    if reply.Found? && reply.obj.PrestoCluster? then Some(reply.obj.cluster) else None
  }

  function ObjectIn(reply: Reply): Option<Object> {
    if reply.Found? then Some(reply.obj) else None
  }

  // The children as the six reads found them.
  function ChildrenIn(gets: seq<Exchange>): Children
    requires |gets| == 6
  {
    Children(
      ObjectIn(gets[2].reply),
      ObjectIn(gets[1].reply),
      ObjectIn(gets[3].reply),
      ObjectIn(gets[4].reply),
      ObjectIn(gets[5].reply))
  }

  // ---- Driving ----

  const DRIVE_ORDER: seq<Role> :=
    [PrestoConfigMap, CatalogConfigMap, CoordinatorDeployment, CoordinatorService, WorkerDeployment]

  // A child that is missing is created, a Deployment with other replicas
  // updated, anything else left alone.
  function CallFor(desired: Object, found: Option<Object>): seq<Call> {
    if found.None? then [Create(desired)]
    else if desired.Deployment? && desired.replicas != ReplicasOf(found.value) then [Update(desired)]
    else []
  }

  ghost function Todo(roles: seq<Role>, cl: Cluster, found: Children): seq<Call> {
    if roles == [] then []
    else CallFor(DesiredChild(cl, roles[0]), found.Child(roles[0])) + Todo(roles[1..], cl, found)
  }

  // ---- Reporting ----

  // The worker Deployment is read again, and nothing found counts as no
  // worker. A changed number is written, and announced once written; a failed
  // write fails the pass. A requeue is asked for while workers are missing.
  predicate Reports(c: Request, cl: Cluster, log: seq<Exchange>, outcome: Outcome, news: seq<Event>) {
    && log != [] && log[0].call == Get(Key(DeploymentKind, c.namespace, c.name + "-worker"))
    && var n := AvailableOf(ObjectIn(log[0].reply));
       if n == cl.availableWorkers then |log| == 1 && outcome == Result(n != cl.spec.workers) && news == []
       else
         && |log| == 2 && log[1].call == UpdateStatus(cl.(availableWorkers := n))
         && if log[1].reply.Error? then outcome == Failed && news == []
            else outcome == Result(n != cl.spec.workers) && news == [WorkersChanged(cl.availableWorkers, n)]
  }

  // ---- The whole pass ----

  lemma {:induction false} CarriedOutWhole(todo: seq<Call>, log: seq<Exchange>)
    requires CarriedOut(todo, log) && !Failing(log)
    ensures |log| == |todo|
  {
    if todo == [] {
    } else {
      assert log[0] in log;
      CarriedOutWhole(todo[1..], log[1..]);
    }
  }

  // What is read, what is written, what is reported, returned and announced.
  ghost predicate Converses(c: Request, gets: seq<Exchange>, writes: seq<Exchange>, rest: seq<Exchange>,
                            outcome: Outcome, news: seq<Event>)
  {
    && CarriedOut(Reads(c), gets)
    && if Failing(gets) then writes == [] && rest == [] && outcome == Failed && news == []
       else
         CarriedOutWhole(Reads(c), gets);
         match ClusterIn(gets[0].reply)
         case None => writes == [] && rest == [] && outcome == Result(false) && news == []
         case Some(cl) =>
           && CarriedOut(Todo(DRIVE_ORDER, cl, ChildrenIn(gets)), writes)
           && Reports(c, cl, rest, outcome, news)
  }

  // ---- The conversation of a scripted pass ----

  ghost function ThisExchange(g: Config): seq<Exchange> {
    var call := NextCall(g.agent.pass);
    if call.None? then []
    else [Exchange(call.value, ReplyTo(StoreAtCall(g.store, g.script), call.value, ChoiceAtCall(g.script)))]
  }

  // The calls of a pass up to the bound, and the replies they get.
  ghost function Log(g: Config, bound: nat): seq<Exchange>
    requires bound <= FINISHED
    decreases bound - Rank(g.agent.pass.pc)
  {
    if bound <= Rank(g.agent.pass.pc) then [] else ThisExchange(g) + Log(StepConfig(g), bound)
  }

  lemma {:induction false} LogSplits(g: Config, mid: nat, bound: nat)
    requires mid <= bound <= FINISHED
    ensures Log(g, bound) == Log(g, mid) + Log(RunTo(g, mid), bound)
    decreases bound - Rank(g.agent.pass.pc)
  {
    hide StepConfig, ThisExchange;
    if mid <= Rank(g.agent.pass.pc) {
    } else {
      LogSplits(StepConfig(g), mid, bound);
    }
  }

  // The role that is read in this place.
  function ReadRole(k: nat): Role
    requires 1 <= k <= 5
  {
    match k
    case 1 => CatalogConfigMap
    case 2 => PrestoConfigMap
    case 3 => CoordinatorDeployment
    case 4 => CoordinatorService
    case _ => WorkerDeployment
  }

  lemma ReadExchange(g: Config)
    requires Rank(g.agent.pass.pc) < DRIVING
    ensures var k, p, h := Rank(g.agent.pass.pc), g.agent.pass, StepConfig(g);
      && |ThisExchange(g)| == 1 && ThisExchange(g)[0].call == Reads(p.request)[k]
      && h.agent.events == g.agent.events
      && var reply := ThisExchange(g)[0].reply;
         if reply.Error? then h.agent.pass.pc == Finished(Failed)
         else
           && Rank(h.agent.pass.pc) == k + 1
           && h.agent.pass.inspected ==
                (if k == 0 then p.inspected.(cluster := ClusterIn(reply))
                 else p.inspected.(children := p.inspected.children.With(ReadRole(k), ObjectIn(reply))))
           && (k == 5 ==> h.agent.pass.desired == DesiredState(h.agent.pass.inspected.cluster))
           && h.agent.pass.driveFailed == p.driveFailed
  {
    hide DesiredState, ReplyTo, StoreAtCall, StoreAfter;
  }

  // What the rest of the inspection, from its k-th read on, adds.
  ghost predicate Looked(p: Pass, log: seq<Exchange>, q: Pass)
    requires Rank(p.pc) <= DRIVING
  {
    var k := Rank(p.pc);
    && |log| == DRIVING - k && q.pc == Drive(PrestoConfigMap) && q.driveFailed == p.driveFailed
    && q.inspected.cluster == (if k == 0 then ClusterIn(log[0].reply) else p.inspected.cluster)
    && (k < DRIVING ==> q.desired == DesiredState(q.inspected.cluster))
    && forall j :: 1 <= j <= 5 ==>
         q.inspected.children.Child(ReadRole(j)) ==
           if j < k then p.inspected.children.Child(ReadRole(j)) else ObjectIn(log[j - k].reply)
  }

  lemma {:induction false} Inspecting(g: Config)
    requires Rank(g.agent.pass.pc) <= DRIVING
    ensures var p, h, log := g.agent.pass, RunTo(g, DRIVING), Log(g, DRIVING);
      && CarriedOut(Reads(p.request)[Rank(p.pc)..], log) && h.agent.events == g.agent.events
      && if Failing(log) then h.agent.pass.pc == Finished(Failed) else Looked(p, log, h.agent.pass)
    decreases DRIVING - Rank(g.agent.pass.pc)
  {
    hide DesiredState, StepConfig, ThisExchange, Reads;
    var p, k := g.agent.pass, Rank(g.agent.pass.pc);
    assert |Reads(p.request)| == 6 by { SixReads(p.request); }
    if k == DRIVING {
      OnlyPrestoFirst(p.pc);
    } else {
      var h, log := StepConfig(g), Log(g, DRIVING);
      ReadExchange(g);
      var e := ThisExchange(g)[0];
      assert log == [e] + Log(h, DRIVING);
      assert Reads(p.request)[k..][1..] == Reads(p.request)[k + 1..];
      if e.reply.Error? {
        assert log == [e] && e in log;
      } else {
        Inspecting(h);
        assert Failing(log) <==> Failing(Log(h, DRIVING)) by { FailingTail(e, Log(h, DRIVING)); }
        if !Failing(log) {
          LookedOn(p, e.reply, h.agent.pass, Log(h, DRIVING), RunTo(h, DRIVING).agent.pass, log);
        }
      }
    }
  }

  lemma SixReads(c: Request)
    ensures |Reads(c)| == 6
  {
  }

  lemma OnlyPrestoFirst(pc: Pc)
    requires Rank(pc) == DRIVING
    ensures pc == Drive(PrestoConfigMap)
  {
  }

  lemma FailingTail(e: Exchange, log: seq<Exchange>)
    requires !e.reply.Error?
    ensures Failing([e] + log) <==> Failing(log)
  {
    assert forall x :: x in [e] + log <==> x == e || x in log;
  }

  lemma LookedOn(p: Pass, reply: Reply, q: Pass, rest: seq<Exchange>, end: Pass, log: seq<Exchange>)
    requires Rank(p.pc) < DRIVING && Rank(q.pc) == Rank(p.pc) + 1 && q.driveFailed == p.driveFailed
    requires q.inspected ==
      if Rank(p.pc) == 0 then p.inspected.(cluster := ClusterIn(reply))
      else p.inspected.(children := p.inspected.children.With(ReadRole(Rank(p.pc)), ObjectIn(reply)))
    requires Rank(p.pc) == 5 ==> q.desired == DesiredState(q.inspected.cluster)
    requires Looked(q, rest, end) && (Rank(q.pc) == DRIVING ==> end == q)
    requires |log| == |rest| + 1 && log[0].reply == reply && log[1..] == rest
    ensures Looked(p, log, end)
  {
    hide DesiredState;
    var k := Rank(p.pc);
    forall j | 1 <= j <= 5
      ensures end.inspected.children.Child(ReadRole(j)) ==
        if j < k then p.inspected.children.Child(ReadRole(j)) else ObjectIn(log[j - k].reply)
    {
      if j > k { assert log[j - k] == rest[j - k - 1]; }
      if j != k && k > 0 { assert ReadRole(j) != ReadRole(k); }
    }
  }

  // ---- The drive step's part ----

  lemma DriveExchange(g: Config, cl: Cluster)
    requires g.agent.pass.pc.Drive? && g.agent.pass.inspected.cluster == Some(cl)
    requires g.agent.pass.desired == DesiredState(Some(cl))
    ensures var p, h := g.agent.pass, StepConfig(g);
      && (ThisExchange(g) == [] <==> CallFor(DesiredChild(cl, p.pc.role), p.inspected.children.Child(p.pc.role)) == [])
      && (ThisExchange(g) != [] ==>
            && |ThisExchange(g)| == 1
            && [ThisExchange(g)[0].call] == CallFor(DesiredChild(cl, p.pc.role),
                                                    p.inspected.children.Child(p.pc.role)))
      && h.agent.events == g.agent.events
      && h.agent.pass.inspected == p.inspected && h.agent.pass.desired == p.desired
      && h.agent.pass.driveFailed == (p.driveFailed || Failing(ThisExchange(g)))
      && h.agent.pass.pc == if Failing(ThisExchange(g)) then ReadWorker else AfterDrive(p.pc.role)
  {
    hide DesiredChild, ChildKey, ReplyTo, StoreAtCall, StoreAfter;
    DesiredRole(Some(cl), g.agent.pass.pc.role);
    hide DesiredState;
    if ThisExchange(g) != [] {
      assert ThisExchange(g)[0] in ThisExchange(g);
    }
  }

  // The roles still to be driven.
  function RolesFrom(pc: Pc): seq<Role> {
    match pc
    case Drive(PrestoConfigMap) => DRIVE_ORDER
    case Drive(CatalogConfigMap) => DRIVE_ORDER[1..]
    case Drive(CoordinatorDeployment) => DRIVE_ORDER[2..]
    case Drive(CoordinatorService) => DRIVE_ORDER[3..]
    case Drive(WorkerDeployment) => DRIVE_ORDER[4..]
    case _ => []
  }

  lemma RolesToDrive(r: Role)
    ensures var roles := RolesFrom(Drive(r)); roles != [] && roles[0] == r && roles[1..] == RolesFrom(AfterDrive(r))
  {
  }

  lemma {:induction false} DrivingOn(g: Config, cl: Cluster)
    requires g.agent.pass.pc.Drive? || g.agent.pass.pc.ReadWorker?
    requires g.agent.pass.inspected.cluster == Some(cl) && g.agent.pass.desired == DesiredState(Some(cl))
    ensures var p, h, log := g.agent.pass, RunTo(g, REPORTING), Log(g, REPORTING);
      && CarriedOut(Todo(RolesFrom(p.pc), cl, p.inspected.children), log)
      && h.agent.pass.pc == ReadWorker && h.agent.pass.inspected == p.inspected && h.agent.events == g.agent.events
      && h.agent.pass.driveFailed == (p.driveFailed || Failing(log))
    decreases REPORTING - Rank(g.agent.pass.pc)
  {
    hide DesiredState, DesiredChild, StepConfig, ThisExchange, CallFor, RolesFrom, Todo;
    var p, found := g.agent.pass, g.agent.pass.inspected.children;
    if p.pc.ReadWorker? {
      NothingToDo(cl, found);
    } else {
      var h := StepConfig(g);
      DriveExchange(g, cl);
      DrivingOn(h, cl);
      DriveAdds(ThisExchange(g), Log(h, REPORTING), p.pc.role, cl, found) by {
        if Failing(ThisExchange(g)) { assert Log(h, REPORTING) == []; }
      }
      assert forall e :: e in ThisExchange(g) + Log(h, REPORTING) <==> e in ThisExchange(g) || e in Log(h, REPORTING);
    }
  }

  lemma NothingToDo(cl: Cluster, found: Children)
    ensures Todo(RolesFrom(ReadWorker), cl, found) == []
  {
  }

  // The exchange over one child, before those over the children after it.
  lemma DriveAdds(first: seq<Exchange>, log: seq<Exchange>, r: Role, cl: Cluster, found: Children)
    requires var call := CallFor(DesiredChild(cl, r), found.Child(r));
      (first == [] <==> call == []) && (first != [] ==> |first| == 1 && [first[0].call] == call)
    requires if Failing(first) then log == [] else CarriedOut(Todo(RolesFrom(AfterDrive(r)), cl, found), log)
    ensures CarriedOut(Todo(RolesFrom(Drive(r)), cl, found), first + log)
  {
    hide DesiredChild, RolesFrom;
    RolesToDrive(r);
    var call, rest := CallFor(DesiredChild(cl, r), found.Child(r)), Todo(RolesFrom(AfterDrive(r)), cl, found);
    assert Todo(RolesFrom(Drive(r)), cl, found) == call + rest;
    hide CallFor, Todo;
    if first == [] {
      assert call + rest == rest && first + log == log;
    } else {
      var e := first[0];
      assert first == [e] && (call + rest)[1..] == rest && (first + log)[1..] == log;
      assert e in first;
    }
  }

  // ---- The report ----

  ghost predicate Announced(before: seq<Event>, news: seq<Event>, after: seq<Event>) {
    after == before + news
  }

  lemma ReportRead(g: Config, cl: Cluster)
    requires g.agent.pass.pc == ReadWorker && g.agent.pass.inspected.cluster == Some(cl)
    ensures var c, h := g.agent.pass.request, StepConfig(g);
      && |ThisExchange(g)| == 1
      && ThisExchange(g)[0].call == Get(Key(DeploymentKind, c.namespace, c.name + "-worker"))
      && h.agent.events == g.agent.events && h.agent.pass.inspected == g.agent.pass.inspected
      && var n := AvailableOf(ObjectIn(ThisExchange(g)[0].reply));
         h.agent.pass.pc == if n == cl.availableWorkers then Finished(Result(n != cl.spec.workers)) else WriteStatus(n)
  {
    hide DesiredState, ReplyTo, StoreAtCall, StoreAfter;
  }

  lemma ReportWrite(g: Config, cl: Cluster)
    requires g.agent.pass.pc.WriteStatus? && g.agent.pass.inspected.cluster == Some(cl)
    ensures var n, h := g.agent.pass.pc.count, StepConfig(g);
      && |ThisExchange(g)| == 1 && ThisExchange(g)[0].call == UpdateStatus(cl.(availableWorkers := n))
      && if ThisExchange(g)[0].reply.Error? then h.agent.pass.pc == Finished(Failed) && h.agent.events == g.agent.events
         else
           && h.agent.pass.pc == Finished(Result(n != cl.spec.workers))
           && h.agent.events == g.agent.events + [WorkersChanged(cl.availableWorkers, n)]
  {
    hide DesiredState, ReplyTo, StoreAtCall, StoreAfter;
  }

  // The last calls of the pass, and what comes of them.
  lemma ReportMade(g: Config, cl: Cluster) returns (outcome: Outcome, news: seq<Event>)
    requires g.agent.pass.pc == ReadWorker && g.agent.pass.inspected.cluster == Some(cl)
    ensures var h := RunTo(g, FINISHED);
      && h.agent.pass.pc == Finished(outcome) && h.agent.events == g.agent.events + news
      && Reports(g.agent.pass.request, cl, Log(g, FINISHED), outcome, news)
  {
    hide StepConfig, ThisExchange;
    var h := StepConfig(g);
    ReportRead(g, cl);
    assert Log(g, FINISHED) == ThisExchange(g) + Log(h, FINISHED);
    assert RunTo(g, FINISHED) == RunTo(h, FINISHED);
    news := [];
    if h.agent.pass.pc.WriteStatus? {
      ReportWrite(h, cl);
      assert RunTo(h, FINISHED) == StepConfig(h);
      assert Log(StepConfig(h), FINISHED) == [];
      assert Log(h, FINISHED) == ThisExchange(h) + Log(StepConfig(h), FINISHED);
      news := if ThisExchange(h)[0].reply.Error? then []
              else [WorkersChanged(cl.availableWorkers, h.agent.pass.pc.count)];
    } else {
      assert RunTo(h, FINISHED) == h && Log(h, FINISHED) == [];
    }
    outcome := RunTo(g, FINISHED).agent.pass.pc.outcome;
  }

  // Without a CR nothing is driven and nothing reported.
  lemma NothingSaid(g: Config)
    requires g.agent.pass.pc == Drive(PrestoConfigMap) && g.agent.pass.inspected.cluster.None?
    ensures var h := RunTo(g, REPORTING);
      && Log(g, REPORTING) == [] && Log(h, FINISHED) == []
      && RunTo(g, FINISHED).agent.pass.pc == Finished(Result(false))
      && RunTo(g, FINISHED).agent.events == g.agent.events
  {
    hide DesiredState, ChildKey, DesiredChild;
    var h := StepConfig(g);
    assert h.agent.pass == g.agent.pass.(pc := ReadWorker) && RunTo(g, REPORTING) == h;
    assert StepConfig(h).agent.pass.pc == Finished(Result(false));
    assert RunTo(h, FINISHED) == StepConfig(h) && RunTo(g, FINISHED) == RunTo(h, FINISHED);
    assert Log(h, REPORTING) == [] && Log(StepConfig(h), FINISHED) == [];
    assert Log(h, FINISHED) == ThisExchange(h) + Log(StepConfig(h), FINISHED);
    assert Log(g, REPORTING) == ThisExchange(g) + Log(h, REPORTING);
  }

  // Every pass, under every script of interference, faults and stale reads,
  // holds this conversation and no other.
  lemma PassConverses(g: Config) returns (outcome: Outcome, news: seq<Event>)
    requires g.agent.pass == StartPass(g.agent.pass.request)
    ensures RunTo(g, FINISHED).agent.pass.pc == Finished(outcome)
    ensures RunTo(g, FINISHED).agent.events == g.agent.events + news
    ensures Converses(g.agent.pass.request, Log(g, DRIVING), Log(RunTo(g, DRIVING), REPORTING),
                      Log(RunTo(g, REPORTING), FINISHED), outcome, news)
    ensures Log(g, FINISHED) ==
      Log(g, DRIVING) + Log(RunTo(g, DRIVING), REPORTING) + Log(RunTo(g, REPORTING), FINISHED)
  {
    hide DesiredState, StepConfig, ThisExchange, Reads, Todo, Reports, Log, RunTo;
    var c, gets, looked := g.agent.pass.request, Log(g, DRIVING), RunTo(g, DRIVING);
    Inspecting(g);
    assert Reads(c)[0..] == Reads(c);
    RunSplits(g, DRIVING, REPORTING);
    RunSplits(g, DRIVING, FINISHED);
    RunSplits(g, REPORTING, FINISHED);
    LogSplits(g, DRIVING, REPORTING);
    LogSplits(g, REPORTING, FINISHED);
    outcome, news := RunTo(g, FINISHED).agent.pass.pc.outcome, [];
    if Failing(gets) {
      SilentEnd(looked);
    } else {
      CarriedOutWhole(Reads(c), gets);
      match looked.agent.pass.inspected.cluster
      case None => NothingSaid(looked);
      case Some(cl) =>
        assert looked.agent.pass.inspected.children == ChildrenIn(gets) by {
          ChildrenLooked(g.agent.pass, gets, looked.agent.pass);
        }
        DrivingOn(looked, cl);
        outcome, news := ReportMade(RunTo(g, REPORTING), cl);
    }
  }

  lemma ChildrenLooked(p: Pass, gets: seq<Exchange>, q: Pass)
    requires Rank(p.pc) == 0 && Looked(p, gets, q)
    ensures q.inspected.children == ChildrenIn(gets)
  {
    hide DesiredState;
    assert forall j :: 1 <= j <= 5 ==> q.inspected.children.Child(ReadRole(j)) == ObjectIn(gets[j].reply);
    assert ReadRole(1) == CatalogConfigMap && ReadRole(2) == PrestoConfigMap && ReadRole(3) == CoordinatorDeployment;
    assert ReadRole(4) == CoordinatorService && ReadRole(5) == WorkerDeployment;
  }

  lemma SilentEnd(g: Config)
    requires g.agent.pass.pc.Finished?
    ensures RunTo(g, REPORTING) == RunTo(g, FINISHED) == g && Log(g, REPORTING) == Log(g, FINISHED) == []
  {
  }

  // ---- When a pass fails ----

  lemma {:induction false} OnlyWrites(roles: seq<Role>, cl: Cluster, found: Children, log: seq<Exchange>)
    requires CarriedOut(Todo(roles, cl, found), log)
    ensures forall e <- log :: !e.call.UpdateStatus?
  {
    WritesAreCreatesAndUpdates(roles, cl, found);
    CarriedCalls(Todo(roles, cl, found), log);
  }

  lemma {:induction false} WritesAreCreatesAndUpdates(roles: seq<Role>, cl: Cluster, found: Children)
    ensures forall call <- Todo(roles, cl, found) :: call.Create? || call.Update?
  {
    if roles == [] {
    } else {
      WritesAreCreatesAndUpdates(roles[1..], cl, found);
    }
  }

  lemma {:induction false} CarriedCalls(todo: seq<Call>, log: seq<Exchange>)
    requires CarriedOut(todo, log)
    ensures forall e <- log :: e.call in todo
  {
    if todo == [] || log[0].reply.Error? {
    } else {
      CarriedCalls(todo[1..], log[1..]);
    }
  }

  predicate StatusRefused(log: seq<Exchange>) {
    exists e <- log :: e.call.UpdateStatus? && e.reply.Error?
  }

  // A pass fails exactly when one of the reads of its inspection fails, or the
  // status update that it makes: through a fault, or as its version is stale.
  // An error of the drive step or of the last read does not fail it.
  lemma PassFailsExactly(g: Config)
    requires g.agent.pass == StartPass(g.agent.pass.request)
    ensures RunTo(g, FINISHED).agent.pass.pc == Finished(Failed)
            <==> Failing(Log(g, DRIVING)) || StatusRefused(Log(g, FINISHED))
  {
    hide DesiredState, Log, RunTo, Reads, Todo;
    var outcome, news := PassConverses(g);
    var c := g.agent.pass.request;
    var gets, writes, rest := Log(g, DRIVING), Log(RunTo(g, DRIVING), REPORTING), Log(RunTo(g, REPORTING), FINISHED);
    ReadsOnlyGet(c, gets);
    if !Failing(gets) {
      CarriedOutWhole(Reads(c), gets);
      if ClusterIn(gets[0].reply).Some? {
        OnlyWrites(DRIVE_ORDER, ClusterIn(gets[0].reply).value, ChildrenIn(gets), writes);
      }
    }
    assert forall e :: e in Log(g, FINISHED) <==> e in gets || e in writes || e in rest;
    RefusedInRest(gets, writes, rest);
  }

  lemma ReadsOnlyGet(c: Request, gets: seq<Exchange>)
    requires CarriedOut(Reads(c), gets)
    ensures forall e <- gets :: !e.call.UpdateStatus?
    ensures |Reads(c)| == 6
  {
    CarriedCalls(Reads(c), gets);
  }

  lemma RefusedInRest(gets: seq<Exchange>, writes: seq<Exchange>, rest: seq<Exchange>)
    requires forall e <- gets + writes :: !e.call.UpdateStatus?
    ensures StatusRefused(gets + writes + rest) <==> StatusRefused(rest)
  {
    assert forall e :: e in gets + writes + rest <==> e in gets + writes || e in rest;
  }
}
