// Passes of different clusters interleave call by call; none of them can tell.
module Isolation {
  import opened Kubernetes
  import opened Names
  import opened Desired
  import opened ApiStore
  import opened ReconcilePass
  import opened SoloRuns

  // One store, and one agent per cluster: a cluster has at most one pass.
  datatype System = System(store: Store, agents: map<Request, Agent>)

  datatype Move = Starts(c: Request) | Steps(c: Request, choice: Choice) | Outside(env: EnvAction)

  function NewAgent(c: Request): Agent {
    Agent(StartPass(c).(pc := Finished(Result(false))), [], [], 0)
  }

  function AgentOf(s: System, c: Request): Agent {
    if c in s.agents then s.agents[c] else NewAgent(c)
  }

  // The system as cluster c's operator sees it.
  function Part(s: System, c: Request): Solo {
    Solo(s.store, AgentOf(s, c))
  }

  ghost function ActAs(s: System, c: Request, act: Action): System {
    var y := Apply(Part(s, c), act);
    System(y.store, s.agents[c := y.agent])
  }

  ghost function SystemApply(s: System, m: Move): System {
    match m
    case Starts(c) => ActAs(s, c, Begin)
    case Steps(c, ch) => ActAs(s, c, Advance(ch))
    case Outside(e) => s.(store := ApplyEnv(s.store, e))
  }

  ghost function SystemExec(s: System, moves: seq<Move>): System
    decreases |moves|
  {
    if moves == [] then s else SystemExec(SystemApply(s, moves[0]), moves[1..])
  }

  // The actions of one move that concern cluster c.
  ghost function Own(c: Request, m: Move): seq<Action> {
    match m
    case Starts(d) => if d == c then [Begin] else []
    case Steps(d, ch) => if d == c then [Advance(ch)] else []
    case Outside(e) => if Owns(c, EnvKey(e)) then [Environ(e)] else []
  }

  ghost function OwnMoves(c: Request, moves: seq<Move>): seq<Action>
    decreases |moves|
  {
    if moves == [] then [] else Own(c, moves[0]) + OwnMoves(c, moves[1..])
  }

  ghost predicate SystemSane(s: System) {
    WellKeyed(s.store) && forall c :: AgentOf(s, c).pass.request == c && AgentSane(s.store, AgentOf(s, c))
  }

  // Two worlds agree on everything that belongs to c.
  ghost predicate SameFor(c: Request, x: Solo, y: Solo) {
    x.agent == y.agent && forall k :: Owns(c, k) ==> History(x.store, k) == History(y.store, k)
  }

  lemma CallsAreLocal(st: Store, st': Store, call: Call, ch: Choice)
    requires History(st, CallKey(call)) == History(st', CallKey(call))
    ensures Applies(st, call, ch) == Applies(st', call, ch) && ReplyTo(st, call, ch) == ReplyTo(st', call, ch)
    ensures History(StoreAfter(st, call, ch), CallKey(call)) == History(StoreAfter(st', call, ch), CallKey(call))
  {
    hide KeyOf;
    if Applies(st, call, ch) {
      assert NewValue(st, call) == NewValue(st', call);
    }
  }

  lemma EnvIsLocal(st: Store, st': Store, e: EnvAction)
    requires History(st, EnvKey(e)) == History(st', EnvKey(e))
    ensures History(ApplyEnv(st, e), EnvKey(e)) == History(ApplyEnv(st', e), EnvKey(e))
  {
    hide KeyOf, ClusterKey;
  }

  lemma ActionsAreLocal(c: Request, x: Solo, y: Solo, act: Action)
    requires Sane(x) && Sane(y) && x.Id() == c && SameFor(c, x, y)
    requires act.Environ? ==> Owns(c, EnvKey(act.env))
    ensures SameFor(c, Apply(x, act), Apply(y, act))
  {
    hide DesiredState, ChildKey, Owns, ReplyTo, Applies, StoreAfter, ApplyEnv, AgentSane;
    match act
    case Begin =>
    case Environ(e) =>
      EnvIsLocal(x.store, y.store, e);
      EnvFacts(x.store, e);
      EnvFacts(y.store, e);
    case Advance(ch) =>
      var call := NextCall(x.Pass());
      if call.Some? {
        CallsStayHome(x);
        CallsAreLocal(x.store, y.store, call.value, ch);
        CallFacts(x.store, call.value, ch);
        CallFacts(y.store, call.value, ch);
      }
  }

  // What a move by d does to the addresses and the agent of another cluster.
  lemma OthersDoNotTouch(s: System, d: Request, act: Action, c: Request)
    requires SystemSane(s) && c != d && !act.Environ?
    ensures SameFor(c, Part(s, c), Part(ActAs(s, d, act), c))
  {
    hide DesiredState, ChildKey, Owns, StoreStep, AgentStep, AgentSane;
    if act.Advance? {
      var x := Part(s, d);
      AdvanceWritesAtHome(x, act.choice);
      PlacesAreOwned(d, x.Pass().pc);
      forall k | Owns(c, k) && k == PlaceOf(d, x.Pass().pc) ensures false {
        OwnersAreUnique(c, d, k);
      }
    }
  }

  lemma PlacesAreOwned(c: Request, pc: Pc)
    ensures Owns(c, PlaceOf(c, pc))
  {
    hide ChildKey;
  }

  lemma MovesKeepSane(s: System, m: Move)
    requires SystemSane(s)
    ensures SystemSane(SystemApply(s, m))
  {
    hide Apply, AgentSane, ApplyEnv;
    match m
    case Starts(c) => ActorsKeepSane(s, c, Begin);
    case Steps(c, ch) => ActorsKeepSane(s, c, Advance(ch));
    case Outside(e) =>
      EnvFacts(s.store, e);
      var t := SystemApply(s, m);
      forall d ensures AgentOf(t, d).pass.request == d && AgentSane(t.store, AgentOf(t, d)) {
        assert AgentOf(t, d) == AgentOf(s, d);
        SanityPersists(s.store, t.store, AgentOf(s, d));
      }
  }

  lemma ActorsKeepSane(s: System, c: Request, act: Action)
    requires SystemSane(s)
    ensures SystemSane(ActAs(s, c, act))
  {
    hide Apply, AgentSane;
    ActionsKeepSane(Part(s, c), act);
    var t := ActAs(s, c, act);
    forall d ensures AgentOf(t, d).pass.request == d && AgentSane(t.store, AgentOf(t, d)) {
      if d != c {
        SanityPersists(s.store, t.store, AgentOf(s, d));
      }
    }
  }

  lemma OneMove(c: Request, s: System, m: Move, y: Solo)
    requires SystemSane(s) && Sane(y) && y.Id() == c && SameFor(c, Part(s, c), y)
    ensures var y' := Exec(y, Own(c, m));
      SystemSane(SystemApply(s, m)) && Sane(y') && y'.Id() == c && SameFor(c, Part(SystemApply(s, m), c), y')
  {
    hide Apply, AgentSane, ApplyEnv, Owns;
    MovesKeepSane(s, m);
    assert forall a: Action :: Exec(y, [a]) == Apply(y, a) by {
      assert forall a: Action :: [a][1..] == [];
    }
    match m
    case Starts(d) =>
      if d == c {
        ActionsAreLocal(c, Part(s, c), y, Begin);
        ActionsKeepSane(y, Begin);
      } else {
        OthersDoNotTouch(s, d, Begin, c);
      }
    case Steps(d, ch) =>
      if d == c {
        ActionsAreLocal(c, Part(s, c), y, Advance(ch));
        ActionsKeepSane(y, Advance(ch));
      } else {
        OthersDoNotTouch(s, d, Advance(ch), c);
      }
    case Outside(e) =>
      OutsideMove(c, s, e, y);
  }

  lemma OutsideMove(c: Request, s: System, e: EnvAction, y: Solo)
    requires SystemSane(s) && Sane(y) && y.Id() == c && SameFor(c, Part(s, c), y)
    ensures SameFor(c, Part(SystemApply(s, Outside(e)), c), if Owns(c, EnvKey(e)) then Apply(y, Environ(e)) else y)
    ensures Sane(Apply(y, Environ(e)))
  {
    hide AgentSane, ApplyEnv, Owns;
    EnvFacts(s.store, e);
    ActionsKeepSane(y, Environ(e));
    if Owns(c, EnvKey(e)) {
      ActionsAreLocal(c, Part(s, c), y, Environ(e));
    }
  }

  // For every call-by-call interleaving of the passes of all clusters, with
  // any faults, stale reads and interference: cluster c's addresses, results
  // and events are those of a run of its own passes alone.
  lemma {:induction false} ClustersAreIsolated(c: Request, s: System, moves: seq<Move>, y: Solo)
    requires SystemSane(s) && Sane(y) && y.Id() == c && SameFor(c, Part(s, c), y)
    ensures SameFor(c, Part(SystemExec(s, moves), c), Exec(y, OwnMoves(c, moves)))
    ensures SystemSane(SystemExec(s, moves)) && Sane(Exec(y, OwnMoves(c, moves)))
    decreases |moves|
  {
    hide Apply, SystemApply, Sane, SystemSane, SameFor, Own;
    if moves == [] {
    } else {
      OneMove(c, s, moves[0], y);
      ExecConcat(y, Own(c, moves[0]), OwnMoves(c, moves[1..]));
      ClustersAreIsolated(c, SystemApply(s, moves[0]), moves[1..], Exec(y, Own(c, moves[0])));
    }
  }

  // ---- What is true of every run is true of every interleaving ----

  // Whether the claim holds is decided by what belongs to c.
  ghost predicate LocalClaim(c: Request, claim: Solo -> bool) {
    forall x: Solo, y: Solo :: Sane(x) && Sane(y) && x.Id() == c && SameFor(c, x, y) && claim(x) ==> claim(y)
  }

  ghost predicate LocalRule(c: Request, ok: (Solo, Action) -> bool) {
    forall x: Solo, y: Solo, a: Action :: Sane(x) && Sane(y) && x.Id() == c && SameFor(c, x, y) && ok(x, a) ==> ok(y, a)
  }

  // Every move that concerns cluster c meets ok when it is made; the others'
  // moves are free.
  ghost predicate MovesPermitted(c: Request, s: System, moves: seq<Move>, ok: (Solo, Action) -> bool)
    decreases |moves|
  {
    moves == [] ||
    ((forall a <- Own(c, moves[0]) :: ok(Part(s, c), a)) && MovesPermitted(c, SystemApply(s, moves[0]), moves[1..], ok))
  }

  lemma {:induction false} OwnMovesPermitted(c: Request, s: System, moves: seq<Move>, y: Solo,
                                             ok: (Solo, Action) -> bool)
    requires SystemSane(s) && Sane(y) && y.Id() == c && SameFor(c, Part(s, c), y)
    requires LocalRule(c, ok) && MovesPermitted(c, s, moves, ok)
    ensures Permitted(y, OwnMoves(c, moves), ok)
    decreases |moves|
  {
    hide Apply, SystemApply, AgentSane, SameFor;
    if moves == [] {
    } else {
      var own, rest := Own(c, moves[0]), OwnMoves(c, moves[1..]);
      OneMove(c, s, moves[0], y);
      OwnMovesPermitted(c, SystemApply(s, moves[0]), moves[1..], Exec(y, own), ok);
      if own == [] {
        assert own + rest == rest;
      } else {
        assert (own + rest)[0] == own[0] && (own + rest)[1..] == rest && own[1..] == [];
        assert own[0] in own;
      }
    }
  }

  // A claim about c that every run of its own passes establishes holds after
  // every interleaving.
  lemma EveryInterleaving(c: Request, s: System, moves: seq<Move>, ok: (Solo, Action) -> bool, claim: Solo -> bool)
    requires SystemSane(s) && LocalRule(c, ok) && LocalClaim(c, claim) && MovesPermitted(c, s, moves, ok)
    requires forall acts :: Permitted(Part(s, c), acts, ok) ==> claim(Exec(Part(s, c), acts))
    ensures claim(Part(SystemExec(s, moves), c))
  {
    hide AgentSane, Apply, SystemApply;
    var y := Part(s, c);
    ClustersAreIsolated(c, s, moves, y);
    OwnMovesPermitted(c, s, moves, y, ok);
    var t, z := Part(SystemExec(s, moves), c), Exec(y, OwnMoves(c, moves));
    assert SameFor(c, z, t) && z.Id() == c;
  }
}
