// What holds of one cluster's runs holds with every other cluster's passes
// interleaved call by call.
module Interleavings {
  import opened Kubernetes
  import opened Names
  import opened Desired
  import opened ApiStore
  import opened ReconcilePass
  import opened SoloRuns
  import opened Completion
  import opened Provenance
  import opened MountsResolve
  import opened Work
  import opened Convergence
  import opened SpecEdits
  import opened EventChain
  import opened Isolation

  // ---- No deletion, order and quiescence ----

  predicate NotDeleting(p: Pass) {
    NextCall(p).Some? ==> !NextCall(p).value.Delete?
  }

  lemma AlwaysPermitted(c: Request, s: System, moves: seq<Move>)
    ensures MovesPermitted(c, s, moves, (y, a) => true)
    decreases |moves|
  {
    hide SystemApply;
    if moves == [] {
    } else {
      AlwaysPermitted(c, SystemApply(s, moves[0]), moves[1..]);
    }
  }

  lemma NobodyDeletes(c: Request, s: System, moves: seq<Move>)
    requires SystemSane(s) && Between(Part(s, c))
    ensures NotDeleting(AgentOf(SystemExec(s, moves), c).pass)
  {
    hide AgentSane, Sane, NextCall, SystemExec;
    AlwaysPermitted(c, s, moves);
    forall acts ensures NotDeleting(Exec(Part(s, c), acts).Pass()) {
      OperatorNeverDeletes(Part(s, c), acts);
    }
    EveryInterleaving(c, s, moves, (y, a) => true, (y: Solo) => NotDeleting(y.Pass()));
  }

  lemma SameChildren(c: Request, x: Solo, y: Solo)
    requires SameFor(c, x, y)
    ensures forall r :: History(x.store, ChildKey(c, r)) == History(y.store, ChildKey(c, r))
    ensures History(x.store, ClusterKey(c)) == History(y.store, ClusterKey(c))
  {
    forall r ensures History(x.store, ChildKey(c, r)) == History(y.store, ChildKey(c, r)) {
      assert Owns(c, ChildKey(c, r));
    }
    assert Owns(c, ClusterKey(c));
  }

  lemma SamePresence(c: Request, x: Solo, y: Solo)
    requires SameFor(c, x, y)
    ensures x.agent == y.agent
    ensures forall r :: Present(x.store, c, r) <==> Present(y.store, c, r)
    ensures NothingLost(x.store, c) ==> NothingLost(y.store, c)
    ensures forall cl :: Acknowledged(x.store, c, cl) ==> Acknowledged(y.store, c, cl)
  {
    SameChildren(c, x, y);
    hide ChildKey, Owns, History;
  }

  lemma KeepsChildrenIsLocal(c: Request)
    ensures LocalRule(c, (y, a) => KeepsChildren(c, y, a))
  {
    hide Sane, ChildKey, History, Owns;
    forall x: Solo, y: Solo, a: Action | SameFor(c, x, y) && KeepsChildren(c, x, a) ensures KeepsChildren(c, y, a) {
      SameChildren(c, x, y);
      hide SameFor;
    }
  }

  // In order, nothing lost, and complete where a quiet pass says so.
  ghost predicate Trustworthy(c: Request, x: Solo) {
    var p := x.Pass();
    && InOrder(x.store, c) && NothingLost(x.store, c)
    && (Quiet(p) && (p.inspected.cluster.value.spec.workers != 0 || !p.driveFailed) ==>
          AllPresent(x.store, c) && Acknowledged(x.store, c, p.inspected.cluster.value))
  }

  lemma TrustworthyIsLocal(c: Request)
    ensures LocalClaim(c, y => Trustworthy(c, y))
  {
    hide Sane;
    forall x: Solo, y: Solo | SameFor(c, x, y) && Trustworthy(c, x) ensures Trustworthy(c, y) {
      SamePresence(c, x, y);
      hide SameFor, Present, NothingLost, Acknowledged;
    }
  }

  // For every interleaving in which nobody but the operator creates or deletes
  // a child of c: its children appear in order, and its quiet passes can be
  // trusted unless no worker is wanted.
  lemma QuietAmongOthers(c: Request, s: System, moves: seq<Move>)
    requires SystemSane(s) && Idle(Part(s, c)) && InOrder(s.store, c) && NothingLost(s.store, c)
    requires MovesPermitted(c, s, moves, (y, a) => KeepsChildren(c, y, a))
    ensures Trustworthy(c, Part(SystemExec(s, moves), c))
  {
    hide Apply, AgentSane, InOrder, NothingLost, KeepsChildren, Idle, Acknowledged, SystemExec, AllPresent;
    KeepsChildrenIsLocal(c);
    TrustworthyIsLocal(c);
    forall acts | Permitted(Part(s, c), acts, (y, a) => KeepsChildren(c, y, a))
      ensures Trustworthy(c, Exec(Part(s, c), acts))
    {
      ChildrenAppearInOrder(c, Part(s, c), acts);
      QuiescenceMeansComplete(c, Part(s, c), acts);
    }
    EveryInterleaving(c, s, moves, (y, a) => KeepsChildren(c, y, a), y => Trustworthy(c, y));
  }

  // ---- Provenance and mounts ----

  lemma TraceableIsLocal(c: Request)
    ensures LocalRule(c, (y, a) => Traceable(c, y, a))
  {
    hide Sane, LeavesChildren, Owns;
  }

  lemma KnownSourceIsLocal(c: Request, x: Solo, y: Solo, r: Role)
    requires SameFor(c, x, y)
    ensures KnownSource(c, x, r) ==> KnownSource(c, y, r)
    ensures WrittenOnce(c, x, r) ==> WrittenOnce(c, y, r)
  {
    SameChildren(c, x, y);
    SamePresence(c, x, y);
    CurrentOfSame(x.store, y.store, ChildKey(c, r));
    hide ChildKey, DesiredChild, SameBuild, LastVersion, SameFor, History, Present, Current;
  }

  lemma OrderlyIsLocal(c: Request, x: Solo, y: Solo)
    requires Sane(y) && SameFor(c, x, y) && Orderly(c, x)
    ensures Orderly(c, y)
  {
    SamePresence(c, x, y);
    hide SameFor, Present, NothingLost, Sane;
  }

  lemma TracedIsLocal(c: Request)
    ensures LocalClaim(c, y => Traced(c, y))
  {
    hide Sane, SameFor, Orderly, KnownSource, WrittenOnce;
    forall x: Solo, y: Solo | Sane(y) && SameFor(c, x, y) && Traced(c, x) ensures Traced(c, y) {
      OrderlyIsLocal(c, x, y);
      forall r ensures KnownSource(c, y, r) && WrittenOnce(c, y, r) { KnownSourceIsLocal(c, x, y, r); }
      SamePresence(c, x, y);
    }
  }

  // Every child of c is the translation of a CR version inspected by c's own
  // passes, and, if no edit has added a key, every mount of c resolves.
  lemma TracedAmongOthers(c: Request, s: System, moves: seq<Move>)
    requires SystemSane(s) && Untouched(c, Part(s, c))
    requires MovesPermitted(c, s, moves, (y, a) => Traceable(c, y, a))
    ensures var t := SystemExec(s, moves);
      && Traced(c, Part(t, c))
      && (KeysNeverAdded(t.store, c) ==>
            MountsInPlace(t.store, c, CoordinatorDeployment) && MountsInPlace(t.store, c, WorkerDeployment))
  {
    hide AgentSane, Sane, Untouched, Traceable, Traced, KeysNeverAdded, MountsInPlace, SystemExec;
    TraceableIsLocal(c);
    TracedIsLocal(c);
    forall acts | Permitted(Part(s, c), acts, (y, a) => Traceable(c, y, a)) ensures Traced(c, Exec(Part(s, c), acts)) {
      ChildrenAreTraced(c, Part(s, c), acts);
    }
    EveryInterleaving(c, s, moves, (y, a) => Traceable(c, y, a), y => Traced(c, y));
    var z := Part(SystemExec(s, moves), c);
    if KeysNeverAdded(z.store, c) {
      TracedMounts(c, z, CoordinatorDeployment);
      TracedMounts(c, z, WorkerDeployment);
    }
  }

  // ---- Bounded work ----

  lemma SteadyIsLocal(c: Request)
    ensures LocalRule(c, (y, a) => Steady(c, a))
  {
    hide Sane, Steady, Owns;
  }

  ghost predicate Bounded(c: Request, spec: ClusterSpec, x: Solo, y: Solo) {
    && |y.agent.writes| <= |x.agent.writes| + 5
    && forall r :: Balance(c, spec, x, y, r) && WritesOf(y.agent.writes, r) <= WritesOf(x.agent.writes, r) + 1
  }

  lemma BoundedIsLocal(c: Request, spec: ClusterSpec, x: Solo)
    ensures LocalClaim(c, y => Bounded(c, spec, x, y))
  {
    hide Sane, WritesOf;
    forall y: Solo, z: Solo | SameFor(c, y, z) && Bounded(c, spec, x, y) ensures Bounded(c, spec, x, z) {
      SameChildren(c, y, z);
      forall r { SameHistoryNeed(y.store, z.store, c, spec, r); }
      hide ChildKey, Owns, History, Need;
      assert forall r :: Balance(c, spec, x, y, r);
    }
  }

  // Writes made and work left add up to a constant for each child of c,
  // however the other clusters' passes and failures fall between.
  lemma BoundedAmongOthers(c: Request, spec: ClusterSpec, s: System, moves: seq<Move>)
    requires SystemSane(s) && AtRest(c, spec, Part(s, c))
    requires MovesPermitted(c, s, moves, (y, a) => Steady(c, a))
    ensures Bounded(c, spec, Part(s, c), Part(SystemExec(s, moves), c))
  {
    hide AgentSane, Sane, Steady, SystemExec, Accurate, Specified, Balance;
    var x := Part(s, c);
    SteadyIsLocal(c);
    BoundedIsLocal(c, spec, x);
    forall acts | Permitted(x, acts, (y, a) => Steady(c, a)) ensures Bounded(c, spec, x, Exec(x, acts)) {
      WorkIsConserved(c, spec, x, acts);
      BoundedWork(c, spec, x, acts);
    }
    EveryInterleaving(c, s, moves, (y, a) => Steady(c, a), y => Bounded(c, spec, x, y));
  }

  // ---- Events ----

  lemma LinkedIsLocal(c: Request, m: int32, x: Solo, y: Solo)
    requires Linked(c, m, x) && Sane(y) && SameFor(c, x, y)
    ensures Linked(c, m, y)
  {
    SameChildren(c, x, y);
    hide Sane, Chain, ChildKey, Owns, History;
  }

  // The actions of one move that concern c, on c's own part of the system.
  lemma OwnPart(c: Request, s: System, mv: Move)
    requires SystemSane(s)
    ensures Own(c, mv) == [] ==> SameFor(c, Part(s, c), Part(SystemApply(s, mv), c))
    ensures Own(c, mv) != [] ==> Part(SystemApply(s, mv), c) == Apply(Part(s, c), Own(c, mv)[0]) && |Own(c, mv)| == 1
    ensures SystemSane(SystemApply(s, mv))
  {
    hide AgentSane, Owns, ApplyEnv, StoreStep, AgentStep;
    MovesKeepSane(s, mv);
    match mv
    case Starts(d) => if d != c { OthersDoNotTouch(s, d, Begin, c); }
    case Steps(d, ch) => if d != c { OthersDoNotTouch(s, d, Advance(ch), c); }
    case Outside(e) => EnvFacts(s.store, e);
  }

  // One move keeps the account of c unless it loses c an applied status reply.
  lemma MoveAccounted(c: Request, m: int32, s: System, mv: Move)
    requires SystemSane(s) && Linked(c, m, Part(s, c))
    requires forall a <- Own(c, mv) :: OnlySpecEdits(c, a)
    ensures var y := Part(SystemApply(s, mv), c);
      && OnlyWritesChanges(c, y)
      && (Accounted(c, m, y) <==> forall a <- Own(c, mv) :: !LosesStatusReply(Part(s, c), a))
  {
    hide AgentSane, Own, SystemApply, Apply, OnlyWritesChanges, Accounted, OnlySpecEdits, LosesStatusReply, SameFor;
    OwnPart(c, s, mv);
    var own := Own(c, mv);
    if own == [] {
      assert Linked(c, m, Part(SystemApply(s, mv), c)) by {
        LinkedIsLocal(c, m, Part(s, c), Part(SystemApply(s, mv), c));
      }
    } else {
      assert own[0] in own;
      LinkedUnlessLost(c, m, Part(s, c), own[0]);
    }
  }

  // In every state that the system passes through.
  ghost predicate AlwaysAccountedAmong(c: Request, m: int32, s: System, moves: seq<Move>) {
    forall i :: 0 <= i <= |moves| ==> Accounted(c, m, Part(SystemExec(s, moves[..i]), c))
  }

  // The first state apart, an interleaving is accounted for when its rest is.
  lemma LaterMoves(c: Request, m: int32, s: System, moves: seq<Move>)
    requires moves != [] && Accounted(c, m, Part(s, c))
    ensures AlwaysAccountedAmong(c, m, s, moves) <==> AlwaysAccountedAmong(c, m, SystemApply(s, moves[0]), moves[1..])
  {
    hide Accounted, SystemApply;
    var t, rest := SystemApply(s, moves[0]), moves[1..];
    forall i | 1 <= i <= |moves| ensures SystemExec(s, moves[..i]) == SystemExec(t, rest[..i - 1]) {
      assert moves[..i][0] == moves[0] && moves[..i][1..] == rest[..i - 1];
    }
    if AlwaysAccountedAmong(c, m, s, moves) {
      forall i | 0 <= i <= |rest| ensures Accounted(c, m, Part(SystemExec(t, rest[..i]), c)) {
        assert Accounted(c, m, Part(SystemExec(s, moves[..i + 1]), c));
      }
    }
    assert SystemExec(s, moves[..0]) == s;
  }

  // With c's operator as the only writer of c's status, and whatever the other
  // clusters do: the events of c account for its status all along, if and only
  // if no reply to an applied status update of c is lost.
  lemma {:induction false} EventsAmongOthers(c: Request, m: int32, s: System, moves: seq<Move>)
    requires SystemSane(s) && Linked(c, m, Part(s, c))
    requires MovesPermitted(c, s, moves, (y, a) => OnlySpecEdits(c, a))
    ensures AlwaysAccountedAmong(c, m, s, moves)
            <==> MovesPermitted(c, s, moves, (y, a) => !LosesStatusReply(y, a))
    decreases |moves|
  {
    hide AgentSane, Own, SystemApply, OnlySpecEdits, LosesStatusReply, OnlyWritesChanges, Accounted;
    if moves == [] {
      assert SystemExec(s, moves[..0]) == s;
    } else {
      var t, rest := SystemApply(s, moves[0]), moves[1..];
      MoveAccounted(c, m, s, moves[0]);
      MovesKeepSane(s, moves[0]);
      LaterMoves(c, m, s, moves);
      if Accounted(c, m, Part(t, c)) {
        EventsAmongOthers(c, m, t, rest);
      } else {
        assert SystemExec(t, rest[..0]) == t;
      }
    }
  }

  // ---- Convergence ----

  lemma ConvergedIsLocal(c: Request, x: Solo, y: Solo)
    requires SameFor(c, x, y) && Converged(x.store, c)
    ensures Converged(y.store, c)
  {
    SameChildren(c, x, y);
    forall r { SameHistoryNeed(x.store, y.store, c, Current(x.store, ClusterKey(c)).value.cluster.spec, r); }
    CurrentOfSame(x.store, y.store, ClusterKey(c));
    CurrentOfSame(x.store, y.store, ChildKey(c, WorkerDeployment));
    hide ChildKey, Owns, History, SameFor, Need;
  }

  // A pass of c from start to end, none of whose calls fails or reads an old
  // value, finishes the job whatever the other clusters' passes do in between.
  lemma ConvergesAmongOthers(c: Request, s: System, moves: seq<Move>, cl: Cluster)
    requires SystemSane(s) && IsCluster(s.store, c, cl)
    requires OwnMoves(c, moves) == WholePass(Part(s, c), FINISHED)
    ensures Converged(SystemExec(s, moves).store, c)
  {
    hide AgentSane, SystemExec, WholePass, IsCluster, Converged, SameFor;
    var x := Part(s, c);
    assert SameFor(c, x, x) by { SameAsItself(c, x); }
    ClustersAreIsolated(c, s, moves, x);
    CleanPassIsRun(x);
    CleanPassConverges(s.store, x.agent, cl);
    ConvergedIsLocal(c, CleanPass(s.store, x.agent), Part(SystemExec(s, moves), c)) by {
      SameEitherWay(c, Part(SystemExec(s, moves), c), CleanPass(s.store, x.agent));
    }
  }

  lemma SameAsItself(c: Request, x: Solo)
    ensures SameFor(c, x, x)
  {
  }

  lemma SameEitherWay(c: Request, x: Solo, y: Solo)
    requires SameFor(c, x, y)
    ensures SameFor(c, y, x)
  {
  }
}
