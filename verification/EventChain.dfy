// The "workers counts changed" events of one CR's life link up, and account
// for every change of the stored status.
module EventChain {
  import opened Kubernetes
  import opened Names
  import opened Desired
  import opened ApiStore
  import opened ReconcilePass
  import opened SoloRuns
  import opened Completion

  // The events lead from count m to count n, each from where the one before
  // it ended, and none announces a change that is not one.
  ghost predicate Chain(m: int32, events: seq<Event>, n: int32) {
    if events == [] then m == n
    else
      var e := events[|events| - 1];
      e.after == n && e.before != e.after && Chain(m, events[..|events| - 1], e.before)
  }

  function Total(events: seq<Event>): int {
    if events == [] then 0
    else Total(events[..|events| - 1]) + events[|events| - 1].after - events[|events| - 1].before
  }

  // What a chain says about its events and their differences.
  lemma {:induction false} ChainsLinkUp(m: int32, events: seq<Event>, n: int32)
    requires Chain(m, events, n)
    ensures m + Total(events) == n
    ensures forall i :: 0 <= i < |events| ==> events[i].before != events[i].after
    ensures forall i :: 0 <= i < |events| - 1 ==> events[i].after == events[i + 1].before
    ensures events != [] ==> events[0].before == m && events[|events| - 1].after == n
  {
    if events == [] {
    } else {
      var rest := events[..|events| - 1];
      ChainsLinkUp(m, rest, events[|events| - 1].before);
      assert forall i :: 0 <= i < |rest| ==> rest[i] == events[i];
    }
  }

  lemma ChainSnoc(m: int32, events: seq<Event>, n: int32, k: int32)
    requires Chain(m, events, n)
    ensures Chain(m, events + [WorkersChanged(n, k)], k) <==> n != k
  {
    assert (events + [WorkersChanged(n, k)])[..|events|] == events;
  }

  // The CR exists and its status is n.
  ghost predicate Reports(st: Store, c: Request, n: int) {
    var o := Current(st, ClusterKey(c));
    o.Some? && o.value.PrestoCluster? && o.value.cluster.availableWorkers == n
  }

  // The events account for the stored status, which was m at first.
  ghost predicate Accounted(c: Request, m: int32, x: Solo) {
    var o := Current(x.store, ClusterKey(c));
    o.Some? && o.value.PrestoCluster? && Chain(m, x.agent.events, o.value.cluster.availableWorkers)
  }

  // The CR exists, and a pass only writes a status that is a change.
  ghost predicate OnlyWritesChanges(c: Request, x: Solo) {
    var o := Current(x.store, ClusterKey(c));
    && x.Id() == c && Sane(x) && o.Some? && o.value.PrestoCluster?
    && (x.Pass().pc.WriteStatus? && x.Pass().inspected.cluster.Some? ==>
          x.Pass().pc.count != x.Pass().inspected.cluster.value.availableWorkers)
  }

  ghost predicate Linked(c: Request, m: int32, x: Solo) {
    OnlyWritesChanges(c, x) && Accounted(c, m, x)
  }

  // Nobody else creates, overwrites or deletes the CR; the user may edit it.
  ghost predicate OnlySpecEdits(c: Request, act: Action) {
    act.Environ? && EnvKey(act.env) == ClusterKey(c) ==> !act.env.ForeignPut? && !act.env.ForeignDelete?
  }

  // The server applies a status update and its reply gets lost.
  ghost predicate LosesStatusReply(x: Solo, act: Action) {
    && act.Advance? && act.choice.fault.ReplyLost?
    && x.Pass().pc.WriteStatus? && NextCall(x.Pass()).Some?
    && Accepts(x.store, NextCall(x.Pass()).value)
  }

  lemma ReportingStep(c: Request, m: int32, x: Solo, ch: Choice)
    requires Linked(c, m, x) && x.Pass().pc.WriteStatus? && x.Pass().inspected.cluster.Some?
    requires Applies(x.store, NextCall(x.Pass()).value, ch)
    ensures var y := Apply(x, Advance(ch)); var cl := x.Pass().inspected.cluster.value;
      && Reports(x.store, c, cl.availableWorkers) && Reports(y.store, c, x.Pass().pc.count)
      && y.agent.events == x.agent.events
           + if ch.fault.ReplyLost? then [] else [WorkersChanged(cl.availableWorkers, x.Pass().pc.count)]
  {
    hide ChildKey, DesiredState, Chain, KeyOf, AgentSane;
    var cl := x.Pass().inspected.cluster.value;
    assert IsVersion(x.store, c, cl) by { SaneCluster(x); }
    StatusWrite(x.store, c, cl, x.Pass().pc.count, ch);
  }

  // Every other move of a pass leaves status and events alone.
  lemma OtherSteps(c: Request, x: Solo, ch: Choice)
    requires Sane(x) && x.Id() == c
    requires x.Pass().pc.WriteStatus? && x.Pass().inspected.cluster.Some? ==>
               !Applies(x.store, NextCall(x.Pass()).value, ch)
    ensures var y := Apply(x, Advance(ch));
      && History(y.store, ClusterKey(c)) == History(x.store, ClusterKey(c)) && y.agent.events == x.agent.events
      && (y.Pass().pc.WriteStatus? && y.Pass().inspected.cluster.Some? ==>
            y.Pass().pc.count != y.Pass().inspected.cluster.value.availableWorkers)
  {
    hide DesiredState, DesiredChild, ChildKey, KeyOf, Sane, History;
    ClusterUntouched(x, ch);
    hide StoreStep, Accepts;
  }

  lemma EnvKeepsStatus(c: Request, x: Solo, e: EnvAction)
    requires Sane(x) && x.Id() == c && OnlySpecEdits(c, Environ(e))
    ensures forall n: int :: Reports(x.store, c, n) ==> Reports(ApplyEnv(x.store, e), c, n)
  {
    hide ChildKey, DesiredState;
    EnvFacts(x.store, e);
  }

  // The exact condition, one action at a time: the account stays complete
  // unless the reply to an applied status update is lost.
  lemma LinkedUnlessLost(c: Request, m: int32, x: Solo, act: Action)
    requires Linked(c, m, x) && OnlySpecEdits(c, act)
    ensures OnlyWritesChanges(c, Apply(x, act))
    ensures Accounted(c, m, Apply(x, act)) <==> !LosesStatusReply(x, act)
  {
    hide DesiredState, Sane, Applies, Accepts, StoreStep, ApplyEnv, Chain;
    var y := Apply(x, act);
    ActionsKeepSane(x, act);
    match act
    case Begin =>
    case Environ(e) =>
      assert Reports(x.store, c, Current(x.store, ClusterKey(c)).value.cluster.availableWorkers);
      EnvKeepsStatus(c, x, e);
    case Advance(ch) => AdvanceLinked(c, m, x, ch);
  }

  lemma AdvanceLinked(c: Request, m: int32, x: Solo, ch: Choice)
    requires Linked(c, m, x)
    ensures OnlyWritesChanges(c, Apply(x, Advance(ch)))
    ensures Accounted(c, m, Apply(x, Advance(ch))) <==> !LosesStatusReply(x, Advance(ch))
  {
    hide DesiredState, Sane, Accepts, Chain, History, ChildKey, ReplyTo, StoreAfter;
    var y := Apply(x, Advance(ch));
    ActionsKeepSane(x, Advance(ch));
    var p := x.Pass();
    if p.pc.WriteStatus? && p.inspected.cluster.Some? && Applies(x.store, NextCall(p).value, ch) {
      var n := p.inspected.cluster.value.availableWorkers;
      ReportingStep(c, m, x, ch);
      ChainSnoc(m, x.agent.events, n, p.pc.count);
      if ch.fault.ReplyLost? { ChainEnds(m, x.agent.events, n, p.pc.count); }
    } else {
      OtherSteps(c, x, ch);
    }
  }

  lemma ChainEnds(m: int32, events: seq<Event>, n: int32, k: int32)
    requires Chain(m, events, n) && n != k
    ensures !Chain(m, events, k)
  {
  }

  // ---- Over one CR's life ----

  ghost predicate NoReplyLost(x: Solo, acts: seq<Action>) {
    Permitted(x, acts, (y, a) => !LosesStatusReply(y, a))
  }

  // In every state that the run passes through.
  ghost predicate AlwaysAccounted(c: Request, m: int32, x: Solo, acts: seq<Action>) {
    forall i :: 0 <= i <= |acts| ==> Accounted(c, m, Exec(x, acts[..i]))
  }

  // With the operator as the only status writer, through faults and stale
  // reads: the events account for the status all along, if and only if no
  // reply to an applied status update is lost.
  lemma {:induction false} AccountedExactly(c: Request, m: int32, x: Solo, acts: seq<Action>)
    requires Linked(c, m, x) && Permitted(x, acts, (y, a) => OnlySpecEdits(c, a))
    ensures AlwaysAccounted(c, m, x, acts) <==> NoReplyLost(x, acts)
    decreases |acts|
  {
    hide OnlySpecEdits, LosesStatusReply, OnlyWritesChanges, Accounted, Apply;
    if acts == [] {
      assert Exec(x, acts[..0]) == x;
    } else {
      var y, rest := Apply(x, acts[0]), acts[1..];
      LinkedUnlessLost(c, m, x, acts[0]);
      LaterAccounted(c, m, x, acts);
      if LosesStatusReply(x, acts[0]) {
        assert Exec(y, rest[..0]) == y;
      } else {
        AccountedExactly(c, m, y, rest);
      }
    }
  }

  // The first state apart, a run is accounted for when its rest is.
  lemma LaterAccounted(c: Request, m: int32, x: Solo, acts: seq<Action>)
    requires acts != [] && Accounted(c, m, x)
    ensures AlwaysAccounted(c, m, x, acts) <==> AlwaysAccounted(c, m, Apply(x, acts[0]), acts[1..])
  {
    hide Accounted, Apply;
    var y, rest := Apply(x, acts[0]), acts[1..];
    forall i | 1 <= i <= |acts| ensures Exec(x, acts[..i]) == Exec(y, rest[..i - 1]) {
      assert acts[..i][0] == acts[0] && acts[..i][1..] == rest[..i - 1];
    }
    if AlwaysAccounted(c, m, x, acts) {
      forall i | 0 <= i <= |rest| ensures Accounted(c, m, Exec(y, rest[..i])) {
        assert Accounted(c, m, Exec(x, acts[..i + 1]));
      }
    }
    assert Exec(x, acts[..0]) == x;
  }

  // What the account says: the events link up from the initial count, and
  // their differences add up to the stored status.
  lemma EventsAccountForStatus(c: Request, m: int32, x: Solo, acts: seq<Action>)
    requires x.Id() == c && Sane(x) && Between(x) && x.agent.events == [] && Reports(x.store, c, m)
    requires Permitted(x, acts, (y, a) => OnlySpecEdits(c, a)) && NoReplyLost(x, acts)
    ensures var y := Exec(x, acts); var events := y.agent.events;
      && Reports(y.store, c, m + Total(events))
      && (forall i :: 0 <= i < |events| ==> events[i].before != events[i].after)
      && (forall i :: 0 <= i < |events| - 1 ==> events[i].after == events[i + 1].before)
      && (events != [] ==> events[0].before == m)
  {
    hide OnlySpecEdits, NoReplyLost, Sane, Apply;
    assert Linked(c, m, x);
    AccountedExactly(c, m, x, acts);
    assert acts[..|acts|] == acts;
    AccountAddsUp(c, m, Exec(x, acts));
  }

  lemma AccountAddsUp(c: Request, m: int32, x: Solo)
    requires Accounted(c, m, x)
    ensures var events := x.agent.events;
      && Reports(x.store, c, m + Total(events))
      && (forall i :: 0 <= i < |events| ==> events[i].before != events[i].after)
      && (forall i :: 0 <= i < |events| - 1 ==> events[i].after == events[i + 1].before)
      && (events != [] ==> events[0].before == m)
  {
    ChainsLinkUp(m, x.agent.events, Current(x.store, ClusterKey(c)).value.cluster.availableWorkers);
  }

  const LOST: Choice := Choice(ReplyLost, Latest)

  // It does happen: the workers are gone, the status is set to zero, the reply
  // is lost, and no event tells.
  lemma ChangeGoesUntold(c: Request, m: int32) returns (x: Solo, acts: seq<Action>)
    requires m != 0
    ensures Linked(c, m, x) && Idle(x) && x.agent.events == [] && Permitted(x, acts, (y, a) => OnlySpecEdits(c, a))
    ensures var y := Exec(x, acts);
      Reports(y.store, c, 0) && y.agent.events == [] && !Accounted(c, m, y) && !NoReplyLost(x, acts)
  {
    hide DesiredState, Sane, Idle, LonelyStart, Apply, NoReplyLost;
    var cl := LonelyCluster(c, 0, m);
    x := LonelyStart(c, cl);
    LonelyIsLegal(c, cl);
    assert Linked(c, m, x) && x.agent.events == [] by { LonelyIsLinked(c, cl); }
    var looked := LonelyRun(c, cl);
    acts := looked + [Advance(LOST)];
    ExecSnoc(x, looked, Advance(LOST));
    LostUpdate(c, cl, Exec(x, looked));
    AllPermitted(x, acts, (y, a) => OnlySpecEdits(c, a));
    assert acts[..|acts|] == acts;
    AccountedExactly(c, m, x, acts);
  }

  lemma LonelyIsLinked(c: Request, cl: Cluster)
    requires FirstOf(c, cl)
    ensures Linked(c, cl.availableWorkers, LonelyStart(c, cl)) && LonelyStart(c, cl).agent.events == []
  {
    hide DesiredState, Sane;
    LonelyIsLegal(c, cl);
  }

  lemma LostUpdate(c: Request, cl: Cluster, y: Solo)
    requires y.store == LonelyStart(c, cl).store && FirstOf(c, cl) && y.Id() == c && y.agent.events == []
    requires y.Pass().inspected.cluster == Some(cl) && y.Pass().pc == WriteStatus(0) && cl.availableWorkers != 0
    ensures var z := Apply(y, Advance(LOST));
      Reports(z.store, c, 0) && z.agent.events == [] && !Accounted(c, cl.availableWorkers, z)
  {
    hide DesiredState, ChildKey;
  }
}
