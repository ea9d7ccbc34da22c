// Where the stored children come from, over whole runs: each one is the
// translation of a CR version that the operator inspected, the versions are
// ordered, and so every mount of a stored Deployment resolves.
module Provenance {
  import opened Kubernetes
  import opened Names
  import opened Desired
  import opened ApiStore
  import opened ReconcilePass
  import opened SoloRuns
  import opened Completion

  // The CR version that the latest write of a role was derived from.
  function LastVersion(writes: seq<ChildWrite>, r: Role): Option<nat> {
    if writes == [] then None
    else
      var w := writes[|writes| - 1];
      if w.role == r then Some(w.version) else LastVersion(writes[..|writes| - 1], r)
  }

  // The child of role r is what CR version v asks for.
  ghost predicate BuiltFrom(st: Store, c: Request, r: Role, v: nat) {
    var h := History(st, ClusterKey(c));
    var o := Current(st, ChildKey(c, r));
    && v < |h| && h[v].Some? && h[v].value.PrestoCluster?
    && o.Some? && SameBuild(o.value, DesiredChild(h[v].value.cluster, r))
  }

  // Nobody else creates, overwrites or deletes a child of c.
  ghost predicate LeavesChildren(c: Request, act: Action) {
    act.Environ? && (act.env.ForeignPut? || act.env.ForeignDelete?) ==>
      forall r :: EnvKey(act.env) != ChildKey(c, r)
  }

  lemma LeavingKeeps(c: Request, x: Solo, act: Action)
    requires LeavesChildren(c, act)
    ensures KeepsChildren(c, x, act)
  {
    hide ChildKey, Present;
  }

  // The ways in which one action can affect the child of role r.
  datatype Change = Same | Adjusted | Built

  ghost predicate Changes(x: Solo, y: Solo, r: Role, how: Change) {
    var k := ChildKey(x.Id(), r);
    var h, h', o := History(x.store, k), History(y.store, k), Current(x.store, k);
    var w, w', cl := x.agent.writes, y.agent.writes, x.Pass().inspected.cluster;
    match how
    case Same => h' == h && LastVersion(w', r) == LastVersion(w, r)
    case Adjusted =>
      && |h'| == |h| + 1 && h'[..|h|] == h && h'[|h|].Some? && LastVersion(w', r) == LastVersion(w, r)
      && o.Some? && o.value.Deployment? && SameBuild(h'[|h|].value, o.value)
    case Built =>
      && |h'| == |h| + 1 && h'[..|h|] == h && h'[|h|].Some? && cl.Some?
      && x.Pass().pc == Drive(r) && w' == w + [ChildWrite(r, cl.value.resourceVersion)]
      && SameBuild(h'[|h|].value, DesiredChild(cl.value, r))
      && (o.Some? ==> IsDeployment(r))
  }

  lemma LastOfSnoc(w: seq<ChildWrite>, q: Role, v: nat, r: Role)
    ensures LastVersion(w + [ChildWrite(q, v)], r) == if q == r then Some(v) else LastVersion(w, r)
  {
    assert (w + [ChildWrite(q, v)])[..|w|] == w;
  }

  lemma EnvChange(x: Solo, e: EnvAction, r: Role) returns (how: Change)
    requires Sane(x) && LeavesChildren(x.Id(), Environ(e))
    ensures !how.Built? && Changes(x, Apply(x, Environ(e)), r, how)
  {
    hide ChildKey, DesiredState, DesiredChild;
    var k := ChildKey(x.Id(), r);
    EnvFacts(x.store, e);
    var o := Current(x.store, k);
    if EnvKey(e) == k && o.Some? && o.value.Deployment? && !e.EditSpec? {
      how := Adjusted;
    } else {
      if EnvKey(e) == k && e.EditSpec? && o.Some? {
        assert Fits(o.value, k, |History(x.store, k)| - 1);
        ClusterIsNoChild(x.Id(), e.request, r);
      }
      how := Same;
    }
  }

  // A call of the drive step creates its child, or updates a Deployment.
  lemma DriveCallBuilds(x: Solo)
    requires Sane(x) && x.Pass().pc.Drive? && x.Pass().inspected.cluster.Some? && NextCall(x.Pass()).Some?
    ensures var r := x.Pass().pc.role; var d := DesiredChild(x.Pass().inspected.cluster.value, r);
      && KeyOf(d) == ChildKey(x.Id(), r) && !d.PrestoCluster?
      && (NextCall(x.Pass()).value == Create(d) || (NextCall(x.Pass()).value == Update(d) && IsDeployment(r)))
  {
    hide ChildKey, DesiredState, DesiredChild, KeyOf;
    CallsStayHome(x);
    DesiredRole(x.Pass().inspected.cluster, x.Pass().pc.role);
    DesiredShape(x.Pass().inspected.cluster.value, x.Pass().pc.role);
  }

  // Such a call, when it takes effect, builds the child anew.
  lemma AppliedBuild(x: Solo, ch: Choice)
    requires Sane(x) && x.Pass().pc.Drive? && x.Pass().inspected.cluster.Some?
    requires NextCall(x.Pass()).Some? && Applies(x.store, NextCall(x.Pass()).value, ch)
    ensures Changes(x, Apply(x, Advance(ch)), x.Pass().pc.role, Built)
  {
    hide ChildKey, DesiredState, DesiredChild, KeyOf, Sane, DriveCall;
    DriveCallBuilds(x);
    var call := NextCall(x.Pass()).value;
    RecordFacts(x.store, CallKey(call), Some(Stamp(NewValue(x.store, call).value, |History(x.store, CallKey(call))|)));
    hide NextCall, History;
  }

  lemma DriveChange(x: Solo, ch: Choice) returns (how: Change)
    requires Sane(x) && x.Pass().pc.Drive? && x.Pass().inspected.cluster.Some?
    ensures !how.Adjusted? && Changes(x, Apply(x, Advance(ch)), x.Pass().pc.role, how)
    ensures how.Same? ==> Apply(x, Advance(ch)).agent.writes == x.agent.writes
  {
    hide ChildKey, DesiredState, DesiredChild, NextCall, Accepts, Effect, Sane;
    how := Same;
    var call := NextCall(x.Pass());
    if call.Some? && Applies(x.store, call.value, ch) {
      AppliedBuild(x, ch);
      how := Built;
    }
  }

  lemma AdvanceChange(x: Solo, ch: Choice, r: Role) returns (how: Change)
    requires Sane(x)
    ensures !how.Adjusted? && Changes(x, Apply(x, Advance(ch)), r, how)
  {
    hide DesiredState, DesiredChild, Accepts, StoreAfter;
    var p, y := x.Pass(), Apply(x, Advance(ch));
    AdvanceWritesAtHome(x, ch);
    RolesApart(x.Id(), r, if p.pc.Drive? then p.pc.role else WorkerDeployment);
    ClusterIsNoChild(x.Id(), x.Id(), r);
    hide ChildKey;
    if p.pc.Drive? && p.inspected.cluster.Some? {
      how := DriveChange(x, ch);
      if p.pc.role != r {
        if how.Built? { LastOfSnoc(x.agent.writes, p.pc.role, p.inspected.cluster.value.resourceVersion, r); }
        how := Same;
      }
    } else {
      how := Same;
      OnlyReadsElsewhere(x, ch, r);
    }
  }

  // Outside the drive step no child's history moves.
  lemma OnlyReadsElsewhere(x: Solo, ch: Choice, r: Role)
    requires Sane(x) && !(x.Pass().pc.Drive? && x.Pass().inspected.cluster.Some?)
    ensures History(Apply(x, Advance(ch)).store, ChildKey(x.Id(), r)) == History(x.store, ChildKey(x.Id(), r))
    ensures Apply(x, Advance(ch)).agent.writes == x.agent.writes
  {
    hide DesiredState, DesiredChild;
    ClusterIsNoChild(x.Id(), x.Id(), r);
    AdvanceWritesAtHome(x, ch);
    hide ChildKey;
  }

  lemma AnyChange(x: Solo, act: Action, r: Role) returns (how: Change)
    requires Sane(x) && LeavesChildren(x.Id(), act)
    ensures Changes(x, Apply(x, act), r, how)
  {
    hide DesiredState, DesiredChild, ChildKey;
    match act
    case Begin => how := Same;
    case Environ(e) => how := EnvChange(x, e, r);
    case Advance(ch) => how := AdvanceChange(x, ch, r);
  }

  // ---- The invariant ----

  ghost predicate KnownSource(c: Request, x: Solo, r: Role) {
    var v := LastVersion(x.agent.writes, r);
    && (Present(x.store, c, r) <==> v.Some?)
    && (v.Some? ==> v.value <= x.agent.seen && BuiltFrom(x.store, c, r, v.value))
  }

  // An address that is not a Deployment's has held nothing, or one object
  // from its creation on.
  ghost predicate WrittenOnce(c: Request, x: Solo, r: Role) {
    !IsDeployment(r) ==>
      |History(x.store, ChildKey(c, r))| == if Present(x.store, c, r) then 2 else 1
  }

  // What a child may depend on is no newer than the child.
  ghost predicate VersionsOrdered(x: Solo) {
    forall r, q :: !IsDeployment(r) && Position(r) < Position(q) ==>
      var v, u := LastVersion(x.agent.writes, r), LastVersion(x.agent.writes, q);
      v.Some? && u.Some? ==> v.value <= u.value
  }

  ghost predicate Traced(c: Request, x: Solo) {
    && Orderly(c, x)
    && (forall r :: KnownSource(c, x, r))
    && (forall r :: WrittenOnce(c, x, r))
    && VersionsOrdered(x)
  }

  // The CR is never read at an older version than the operator has already
  // seen: a cache does not go back in time. A current read satisfies this.
  ghost predicate ForwardReads(x: Solo, act: Action) {
    act.Advance? && x.Pass().pc.ReadCluster? && act.choice.read.Version? ==> x.agent.seen <= act.choice.read.index
  }

  ghost predicate Traceable(c: Request, x: Solo, act: Action) {
    LeavesChildren(c, act) && ForwardReads(x, act)
  }

  lemma SeenGrows(x: Solo, act: Action)
    requires Sane(x) && ForwardReads(x, act)
    ensures x.agent.seen <= Apply(x, act).agent.seen
  {
    hide DesiredState, ChildKey;
    if act.Advance? && x.Pass().pc.ReadCluster? {
      var k := ClusterKey(x.Id());
      var h := History(x.store, k);
      forall j | 0 <= j < |h| && h[j].Some? ensures Fits(h[j].value, k, j) {
      }
    }
  }

  lemma OnceKept(c: Request, x: Solo, act: Action, r: Role)
    requires Sane(x) && x.Id() == c && WrittenOnce(c, x, r) && Traceable(c, x, act)
    ensures WrittenOnce(c, Apply(x, act), r)
  {
    hide ChildKey, DesiredState, DesiredChild, Apply, Sane, SameBuild;
    var how := AnyChange(x, act, r);
    DeploymentsAreDeployments(x, r);
  }

  lemma VersionKept(st: Store, st': Store, c: Request, r: Role, v: nat)
    requires BuiltFrom(st, c, r, v) && History(st, ClusterKey(c)) <= History(st', ClusterKey(c))
    requires Current(st', ChildKey(c, r)).Some?
    requires SameBuild(Current(st', ChildKey(c, r)).value, Current(st, ChildKey(c, r)).value)
    ensures BuiltFrom(st', c, r, v)
  {
    hide ChildKey, DesiredChild;
  }

  lemma SourceRenewed(c: Request, x: Solo, y: Solo, r: Role)
    requires AgentSane(x.store, x.agent) && x.Id() == c && Changes(x, y, r, Built)
    requires Extends(x.store, y.store) && x.agent.seen <= y.agent.seen
    ensures KnownSource(c, y, r)
  {
    hide ChildKey, DesiredState, DesiredChild, SameBuild;
    var cl := x.Pass().inspected.cluster.value;
    assert History(x.store, ClusterKey(c)) <= History(y.store, ClusterKey(c));
    assert IsVersion(x.store, c, cl) && x.agent.seen == cl.resourceVersion;
    LastOfSnoc(x.agent.writes, r, cl.resourceVersion, r);
  }

  lemma SourceUndisturbed(c: Request, x: Solo, y: Solo, r: Role, how: Change)
    requires KnownSource(c, x, r) && x.Id() == c && Changes(x, y, r, how) && !how.Built?
    requires Extends(x.store, y.store) && x.agent.seen <= y.agent.seen
    ensures KnownSource(c, y, r)
  {
    hide ChildKey, DesiredState, DesiredChild;
    assert History(x.store, ClusterKey(c)) <= History(y.store, ClusterKey(c));
    var v := LastVersion(x.agent.writes, r);
    hide LastVersion;
    if v.Some? {
      VersionKept(x.store, y.store, c, r, v.value);
    }
  }

  lemma SourceKept(c: Request, x: Solo, act: Action, r: Role)
    requires Sane(x) && x.Id() == c && KnownSource(c, x, r) && Traceable(c, x, act)
    ensures KnownSource(c, Apply(x, act), r)
  {
    hide ChildKey, DesiredState, DesiredChild, AgentSane, Changes, KnownSource, Extends, Apply;
    var how := AnyChange(x, act, r);
    SeenGrows(x, act);
    ActionsKeepSane(x, act);
    if how.Built? {
      SourceRenewed(c, x, Apply(x, act), r);
    } else {
      SourceUndisturbed(c, x, Apply(x, act), r, how);
    }
  }

  // Only the two Deployment roles have Deployments at their addresses.
  lemma DeploymentsAreDeployments(x: Solo, r: Role)
    requires Sane(x)
    ensures var o := Current(x.store, ChildKey(x.Id(), r)); o.Some? ==> (o.value.Deployment? <==> IsDeployment(r))
  {
    var k := ChildKey(x.Id(), r);
    var o := Current(x.store, k);
    if o.Some? {
      assert Fits(o.value, k, |History(x.store, k)| - 1);
    }
  }

  lemma OrderKept(c: Request, x: Solo, act: Action)
    requires Traced(c, x) && Traceable(c, x, act)
    ensures VersionsOrdered(Apply(x, act))
  {
    hide ChildKey, DesiredState, DesiredChild, Orderly;
    assert Sane(x) && InOrder(x.store, c) && x.Id() == c by { OrderlyFacts(c, x); }
    var y := Apply(x, act);
    forall r, q | !IsDeployment(r) && Position(r) < Position(q)
      ensures var v, u := LastVersion(y.agent.writes, r), LastVersion(y.agent.writes, q);
        v.Some? && u.Some? ==> v.value <= u.value
    {
      var how := AnyChange(x, act, r);
      var how' := AnyChange(x, act, q);
      assert KnownSource(c, x, r) && KnownSource(c, x, q);
      if how.Built? {
        LastOfSnoc(x.agent.writes, r, x.Pass().inspected.cluster.value.resourceVersion, q);
      } else if how'.Built? {
        LastOfSnoc(x.agent.writes, q, x.Pass().inspected.cluster.value.resourceVersion, q);
      }
    }
  }

  lemma OrderlyFacts(c: Request, x: Solo)
    requires Orderly(c, x)
    ensures Sane(x) && InOrder(x.store, c) && x.Id() == c
  {
  }

  lemma ActionsKeepTrace(c: Request, x: Solo, act: Action)
    requires Traced(c, x) && Traceable(c, x, act)
    ensures Traced(c, Apply(x, act))
  {
    hide ChildKey, DesiredState, Orderly, KnownSource, WrittenOnce, VersionsOrdered, Apply;
    OrderlyFacts(c, x);
    LeavingKeeps(c, x, act);
    ActionsKeepOrder(c, x, act);
    OrderKept(c, x, act);
    forall r ensures KnownSource(c, Apply(x, act), r) && WrittenOnce(c, Apply(x, act), r) {
      SourceKept(c, x, act, r);
      OnceKept(c, x, act, r);
    }
  }

  // No child has ever existed and the operator has done nothing yet.
  ghost predicate Untouched(c: Request, x: Solo) {
    Fresh(x) && x.Id() == c && forall r :: History(x.store, ChildKey(c, r)) == [None]
  }

  // In every state of every run, mid-pass and after failed calls too: each
  // child is the translation of a CR version the operator has inspected, the
  // ConfigMaps and the Service are as first created, and no child is older
  // than a ConfigMap or Service before it in the drive order.
  lemma ChildrenAreTraced(c: Request, x: Solo, acts: seq<Action>)
    requires Untouched(c, x)
    requires Permitted(x, acts, (y, a) => Traceable(c, y, a))
    ensures Traced(c, Exec(x, acts))
  {
    hide ChildKey, DesiredState;
    forall y: Solo, a: Action | Traced(c, y) && Traceable(c, y, a) ensures Traced(c, Apply(y, a)) {
      ActionsKeepTrace(c, y, a);
    }
    RunsKeep(x, acts, (y, a) => Traceable(c, y, a), y => Traced(c, y));
  }
}
