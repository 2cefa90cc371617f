/** Several agents at work on one cluster, in any interleaving: one for each InitTarget, each
    with the initializer of the target's WorkspaceType. Every one of them takes the steps of
    the protocol; what they do to the list of initializers is a play of reads and writes
    (internal/controller/initcontroller/reconciler.go,
    internal/controller/targetcontroller/controller.go). */
module Agents {
  import opened Manifests
  import opened Slices
  import opened Protocol
  import opened Safety
  import opened Initializers

  datatype Worker = Worker(own: string, agent: Agent)

  /** The workers go by the names of their InitTargets. */
  datatype World = World(cluster: Cluster, workers: map<string, Worker>)

  datatype WorldAction =
    /** The agent's cache serves the LogicalCluster as it was before step number `version`. */
    | Fetch(who: string, version: nat)
    | Work(who: string, a: Action)
    | Others(e: EnvAction)

  function Local(w: World, who: string): State
    requires who in w.workers
  {
    State(w.workers[who].own, w.cluster, w.workers[who].agent)
  }

  /** The step of the protocol that this is. */
  function ActionOf(worlds: seq<World>, x: WorldAction): Action
    requires x.Fetch? ==> x.version < |worlds|
  {
    match x
    case Fetch(_, version) => ReadCluster(worlds[version].cluster.initializers)
    case Work(_, a) => a
    case Others(e) => Env(e)
  }

  ghost predicate WorldEnabled(worlds: seq<World>, n: nat, x: WorldAction)
    requires n < |worlds|
  {
    match x
    case Fetch(who, version) =>
      version <= n && who in worlds[n].workers && Enabled(Local(worlds[n], who), ActionOf(worlds, x))
    case Work(who, a) =>
      who in worlds[n].workers && !a.ReadCluster? && !a.Env? && Enabled(Local(worlds[n], who), a)
    case Others(_) => true
  }

  ghost function WorldStep(worlds: seq<World>, n: nat, x: WorldAction): World
    requires n < |worlds| && WorldEnabled(worlds, n, x)
  {
    match x
    case Others(e) => worlds[n].(cluster := EnvStep(worlds[n].cluster, e))
    case _ =>
      var s := Step(Local(worlds[n], x.who), ActionOf(worlds, x));
      World(s.cluster, worlds[n].workers[x.who := Worker(s.own, s.agent)])
  }

  ghost predicate IsWorldRun(worlds: seq<World>, acts: seq<WorldAction>) {
    |worlds| == |acts| + 1 && (forall a :: a in worlds[0].workers ==> worlds[0].workers[a].agent == Idle) &&
    forall i {:trigger acts[i]} :: 0 <= i < |acts| ==>
      WorldEnabled(worlds, i, acts[i]) && worlds[i + 1] == WorldStep(worlds, i, acts[i])
  }

  /** Between two passes, an agent may read the list of any earlier moment, and works from what it read. */
  lemma AnyVersionIsRead(worlds: seq<World>, acts: seq<WorldAction>, who: string, version: nat) returns (w: World)
    requires IsWorldRun(worlds, acts) && version <= |acts|
    requires who in worlds[|acts|].workers && worlds[|acts|].workers[who].agent == Idle
    ensures IsWorldRun(worlds + [w], acts + [Fetch(who, version)]) && w.cluster == worlds[|acts|].cluster
    ensures who in w.workers && w.workers[who].agent ==
      if worlds[|acts|].workers[who].own in worlds[version].cluster.initializers
      then Read(worlds[version].cluster.initializers) else Idle
  {
    var n, x := |acts|, Fetch(who, version);
    w := WorldStep(worlds, n, x);
    var worlds', acts' := worlds + [w], acts + [x];
    forall i | 0 <= i < |acts'|
      ensures WorldEnabled(worlds', i, acts'[i]) && worlds'[i + 1] == WorldStep(worlds', i, acts'[i])
    {
      if i < n {
        assert acts'[i] == acts[i] && worlds'[i] == worlds[i] && worlds'[i + 1] == worlds[i + 1];
        SameInLonger(worlds, w, i, acts[i]);
      } else {
        SameInLonger(worlds, w, n, x);
      }
    }
  }

  lemma SameInLonger(worlds: seq<World>, w: World, i: nat, x: WorldAction)
    requires i < |worlds| && WorldEnabled(worlds, i, x)
    ensures WorldEnabled(worlds + [w], i, x) && WorldStep(worlds + [w], i, x) == WorldStep(worlds, i, x)
  {
  }

  // -------------------------------------------------------- the list of initializers

  /** An agent that is in a pass works from the copy that it read. */
  function Views(workers: map<string, Worker>): map<string, seq<string>> {
    map a | a in workers && !workers[a].agent.Idle? :: workers[a].agent.snapshot
  }

  function Project(w: World): Shared {
    Shared(w.cluster.initializers, Views(w.workers))
  }

  function Lists(worlds: seq<World>): (shared: seq<Shared>)
    ensures |shared| == |worlds| && forall i :: 0 <= i < |worlds| ==> shared[i] == Project(worlds[i])
  {
    seq(|worlds|, i requires 0 <= i < |worlds| => Project(worlds[i]))
  }

  predicate PutsBack(a: Action) {
    a.Patch? && a.fault != Rejected
  }

  /** What a step is to the list: a read, a write, the end of a pass without one, or nothing. */
  function MoveOf(x: WorldAction, after: World): Move {
    match x
    case Fetch(who, version) => if who in after.workers then Get(who, after.workers[who].own, version) else Stay
    case Work(who, a) =>
      if who !in after.workers then Stay
      else if PutsBack(a) then Put(who, after.workers[who].own)
      else if after.workers[who].agent.Idle? then Drop(who)
      else Stay
    case Others(e) => if e.SetInitializers? then Set(e.list) else Stay
  }

  function Moves(worlds: seq<World>, acts: seq<WorldAction>): (moves: seq<Move>)
    requires |worlds| == |acts| + 1
    ensures |moves| == |acts| && forall i :: 0 <= i < |acts| ==> moves[i] == MoveOf(acts[i], worlds[i + 1])
  {
    seq(|acts|, i requires 0 <= i < |acts| => MoveOf(acts[i], worlds[i + 1]))
  }

  /** Whoever is in a pass has its own initializer in the copy that it read. */
  ghost predicate OwnInViews(w: World) {
    forall a :: a in w.workers && !w.workers[a].agent.Idle? ==> w.workers[a].own in w.workers[a].agent.snapshot
  }

  lemma {:induction false} ViewsHoldOwn(worlds: seq<World>, acts: seq<WorldAction>, n: nat)
    requires IsWorldRun(worlds, acts) && n <= |acts|
    ensures OwnInViews(worlds[n])
  {
    if n == 0 {
    } else {
      ViewsHoldOwn(worlds, acts, n - 1);
      assert WorldEnabled(worlds, n - 1, acts[n - 1]) && worlds[n - 1 + 1] == WorldStep(worlds, n - 1, acts[n - 1]);
    }
  }

  lemma ViewsStep(workers: map<string, Worker>, who: string, w: Worker)
    ensures Views(workers[who := w]) ==
      if w.agent.Idle? then Views(workers) - {who} else Views(workers)[who := w.agent.snapshot]
  {
  }

  lemma FetchIsMove(worlds: seq<World>, n: nat, who: string, version: nat)
    requires n < |worlds| && WorldEnabled(worlds, n, Fetch(who, version))
    ensures var w' := WorldStep(worlds, n, Fetch(who, version));
      who in w'.workers && Project(w') == MoveStep(Lists(worlds), n, Get(who, w'.workers[who].own, version))
  {
    var w, s := worlds[n], Step(Local(worlds[n], who), ActionOf(worlds, Fetch(who, version)));
    ViewsStep(w.workers, who, Worker(s.own, s.agent));
  }

  lemma WorkIsMove(worlds: seq<World>, n: nat, who: string, a: Action)
    requires n < |worlds| && WorldEnabled(worlds, n, Work(who, a)) && OwnInViews(worlds[n])
    ensures var w' := WorldStep(worlds, n, Work(who, a));
      Possible(Lists(worlds), n, MoveOf(Work(who, a), w')) &&
      Project(w') == MoveStep(Lists(worlds), n, MoveOf(Work(who, a), w'))
  {
    var w, s := worlds[n], Step(Local(worlds[n], who), a);
    ViewsStep(w.workers, who, Worker(s.own, s.agent));
    if !s.agent.Idle? {
      assert Views(w.workers)[who := s.agent.snapshot] == Views(w.workers);
    }
  }

  lemma StepIsMove(worlds: seq<World>, n: nat, x: WorldAction)
    requires n < |worlds| && WorldEnabled(worlds, n, x) && OwnInViews(worlds[n])
    ensures Possible(Lists(worlds), n, MoveOf(x, WorldStep(worlds, n, x)))
    ensures Project(WorldStep(worlds, n, x)) == MoveStep(Lists(worlds), n, MoveOf(x, WorldStep(worlds, n, x)))
  {
    match x
    case Fetch(who, version) => FetchIsMove(worlds, n, who, version);
    case Work(who, a) => WorkIsMove(worlds, n, who, a);
    case Others(_) =>
  }

  /** In any interleaving of the agents' passes, what happens to the list is a play. */
  lemma RunIsPlay(worlds: seq<World>, acts: seq<WorldAction>)
    requires IsWorldRun(worlds, acts)
    ensures IsPlay(Lists(worlds), Moves(worlds, acts))
  {
    var shared, moves := Lists(worlds), Moves(worlds, acts);
    assert Views(worlds[0].workers) == map[];
    forall i | 0 <= i < |moves|
      ensures Possible(shared, i, moves[i]) && shared[i + 1] == MoveStep(shared, i, moves[i])
    {
      assert WorldEnabled(worlds, i, acts[i]) && worlds[i + 1] == WorldStep(worlds, i, acts[i]);
      ViewsHoldOwn(worlds, acts, i);
      StepIsMove(worlds, i, acts[i]);
    }
  }

  ghost predicate IntendedAt(worlds: seq<World>, moves: seq<Move>, n: nat)
    requires n <= |moves| < |worlds|
  {
    worlds[n].cluster.initializers == Intended(worlds[0].cluster.initializers, moves, n)
  }

  ghost predicate ConservedAt(worlds: seq<World>, moves: seq<Move>, n: nat)
    requires n <= |moves| < |worlds|
  {
    worlds[n].cluster.initializers == WithoutAll(worlds[0].cluster.initializers, Done(moves, n))
  }

  lemma ListsAt(worlds: seq<World>, moves: seq<Move>, n: nat)
    requires IsPlay(Lists(worlds), moves) && n <= |moves|
    ensures AsIntended(Lists(worlds), moves, n) <==> IntendedAt(worlds, moves, n)
    ensures Conserved(Lists(worlds), moves, n) <==> ConservedAt(worlds, moves, n)
  {
  }

  lemma PlayIntendedIff(worlds: seq<World>, moves: seq<Move>)
    requires IsPlay(Lists(worlds), moves)
    ensures (forall n :: 0 <= n <= |moves| ==> IntendedAt(worlds, moves, n)) <==>
      forall j :: 0 <= j < |moves| ==> Unchanged(worlds[0].cluster.initializers, moves, j)
  {
    AsIntendedIff(Lists(worlds), moves);
    forall n | 0 <= n <= |moves| ensures AsIntended(Lists(worlds), moves, n) <==> IntendedAt(worlds, moves, n) {
      ListsAt(worlds, moves, n);
    }
  }

  lemma PlayConservesIff(worlds: seq<World>, moves: seq<Move>)
    requires IsPlay(Lists(worlds), moves) && AgentsOnly(moves)
    ensures (forall n :: 0 <= n <= |moves| ==> ConservedAt(worlds, moves, n)) <==> Exclusive(moves)
  {
    ConservedIffExclusive(Lists(worlds), moves);
    forall n | 0 <= n <= |moves| ensures Conserved(Lists(worlds), moves, n) <==> ConservedAt(worlds, moves, n) {
      ListsAt(worlds, moves, n);
    }
  }

  /** Over any run of several agents, with caches of any age and others writing the list, too: every removal has its
      intended effect and no other, exactly if nothing but the own entry changes between the version that an agent
      read and its patch. */
  lemma AgentsAsIntendedIff(worlds: seq<World>, acts: seq<WorldAction>)
    requires IsWorldRun(worlds, acts)
    ensures (forall n :: 0 <= n <= |acts| ==> IntendedAt(worlds, Moves(worlds, acts), n)) <==>
      forall j :: 0 <= j < |acts| ==> Unchanged(worlds[0].cluster.initializers, Moves(worlds, acts), j)
  {
    RunIsPlay(worlds, acts);
    PlayIntendedIff(worlds, Moves(worlds, acts));
  }

  /** If nobody but the agents writes the list, it is at all times the first one minus the initializers of those who
      patched it, exactly if no other one is removed between the version that an agent read and its patch. */
  lemma AgentsConserveIff(worlds: seq<World>, acts: seq<WorldAction>)
    requires IsWorldRun(worlds, acts) && AgentsOnly(Moves(worlds, acts))
    ensures (forall n :: 0 <= n <= |acts| ==> ConservedAt(worlds, Moves(worlds, acts), n)) <==>
      Exclusive(Moves(worlds, acts))
  {
    RunIsPlay(worlds, acts);
    PlayConservesIff(worlds, Moves(worlds, acts));
  }

  // ---------------------------------------------------------- as one agent sees it

  /** What a step is to one agent: its own step, a step of others, or nothing at all. */
  function SeenBy(worlds: seq<World>, n: nat, x: WorldAction, me: string): seq<Action>
    requires n < |worlds| && (x.Fetch? ==> x.version < |worlds|)
  {
    match x
    case Others(e) => [Env(e)]
    case Fetch(who, _) => if who == me then [ActionOf(worlds, x)] else []
    case Work(who, a) =>
      if who == me then [a]
      else if who in worlds[n].workers then Effect(Local(worlds[n], who), a)
      else []
  }

  /** The step of another agent, as a step of the environment. */
  function Effect(s: State, a: Action): seq<Action> {
    if a.Create? && a.fault != Rejected && s.agent.Working? && s.agent.queue != [] &&
        Respond(s.cluster, s.agent.queue[0]) == Created then
      [Env(Write(KeyOf(s.agent.queue[0]), s.agent.queue[0].content))]
    else if PutsBack(a) && !s.agent.Idle? then [Env(SetInitializers(Without(s.agent.snapshot, s.own)))]
    else []
  }

  lemma EffectOnCluster(s: State, a: Action)
    requires Enabled(s, a) && !a.Env?
    ensures var e := Effect(s, a);
      Step(s, a).cluster == if e == [] then s.cluster else EnvStep(s.cluster, e[0].e)
    ensures |Effect(s, a)| <= 1
  {
  }

  ghost function StepsSeenBy(worlds: seq<World>, acts: seq<WorldAction>, me: string, n: nat): seq<Action>
    requires IsWorldRun(worlds, acts) && n <= |acts|
  {
    if n == 0 then []
    else
      assert WorldEnabled(worlds, n - 1, acts[n - 1]);
      StepsSeenBy(worlds, acts, me, n - 1) + SeenBy(worlds, n - 1, acts[n - 1], me)
  }

  lemma StepSeenBy(worlds: seq<World>, acts: seq<WorldAction>, me: string, n: nat)
    requires IsWorldRun(worlds, acts) && n < |acts| && me in worlds[n].workers
    ensures me in worlds[n + 1].workers && WorldEnabled(worlds, n, acts[n])
    ensures var s, s', seen := Local(worlds[n], me), Local(worlds[n + 1], me), SeenBy(worlds, n, acts[n], me);
      |seen| <= 1 && if seen == [] then s' == s else Enabled(s, seen[0]) && s' == Step(s, seen[0])
    ensures StepsSeenBy(worlds, acts, me, n + 1)
         == StepsSeenBy(worlds, acts, me, n) + SeenBy(worlds, n, acts[n], me)
  {
    var x := acts[n];
    assert WorldEnabled(worlds, n, x) && worlds[n + 1] == WorldStep(worlds, n, x);
    if x.Work? && x.who != me {
      EffectOnCluster(Local(worlds[n], x.who), x.a);
    }
  }

  lemma SeenNext(states: seq<State>, before: seq<Action>, seen: seq<Action>, s: State) returns (states': seq<State>)
    requires IsHistory(states, before) && |seen| <= 1
    requires seen == [] ==> s == states[|before|]
    requires seen != [] ==> Enabled(states[|before|], seen[0]) && s == Step(states[|before|], seen[0])
    ensures IsHistory(states', before + seen) && states'[0] == states[0] && states'[|states'| - 1] == s
  {
    if seen == [] {
      assert before + seen == before;
      states' := states;
    } else {
      assert seen == [seen[0]];
      OneMoreStep(states, before, seen[0], s);
      states' := states + [s];
    }
  }

  /** The run `states` of the protocol is what one agent has seen of the first n steps. */
  ghost predicate Sees(worlds: seq<World>, acts: seq<WorldAction>, me: string, n: nat, states: seq<State>)
    requires IsWorldRun(worlds, acts) && n <= |acts|
  {
    IsHistory(states, StepsSeenBy(worlds, acts, me, n)) &&
    me in worlds[0].workers && states[0] == Local(worlds[0], me) &&
    me in worlds[n].workers && states[|states| - 1] == Local(worlds[n], me)
  }

  lemma SeesFirst(worlds: seq<World>, acts: seq<WorldAction>, me: string)
    requires IsWorldRun(worlds, acts) && me in worlds[0].workers
    ensures Sees(worlds, acts, me, 0, [Local(worlds[0], me)])
  {
  }

  lemma SeesNext(worlds: seq<World>, acts: seq<WorldAction>, me: string, n: nat, states: seq<State>)
      returns (states': seq<State>)
    requires IsWorldRun(worlds, acts) && n < |acts| && Sees(worlds, acts, me, n, states)
    ensures Sees(worlds, acts, me, n + 1, states')
  {
    StepSeenBy(worlds, acts, me, n);
    states' := SeenNext(states, StepsSeenBy(worlds, acts, me, n), SeenBy(worlds, n, acts[n], me),
      Local(worlds[n + 1], me));
  }

  /** To each agent the others are part of the environment: its own steps, and what the others do to the
      cluster in between, form a run of the protocol. So all that holds of such runs holds of each agent. */
  lemma {:induction false} RunOfOne(worlds: seq<World>, acts: seq<WorldAction>, me: string, n: nat)
      returns (states: seq<State>)
    requires IsWorldRun(worlds, acts) && n <= |acts| && me in worlds[0].workers
    ensures Sees(worlds, acts, me, n, states)
  {
    if n == 0 {
      SeesFirst(worlds, acts, me);
      states := [Local(worlds[0], me)];
    } else {
      var before := RunOfOne(worlds, acts, me, n - 1);
      states := SeesNext(worlds, acts, me, n - 1, before);
    }
  }

  // ------------------------------------------------- InitTargets of one WorkspaceType

  /** The agent is at the end of a pass that leaves nothing to do. */
  predicate Ready(w: World, who: string) {
    who in w.workers && AtEnd(w.workers[who].agent) && !w.workers[who].agent.requeue
  }

  /** Every manifest of that pass is stored then, unless somebody deleted it. */
  lemma ReadyHasApplied(worlds: seq<World>, acts: seq<WorldAction>, who: string, n: nat)
      returns (states: seq<State>, b: nat)
    requires IsWorldRun(worlds, acts) && n <= |acts| && who in worlds[0].workers && Ready(worlds[n], who)
    ensures var steps := StepsSeenBy(worlds, acts, who, n);
      IsHistory(states, steps) && InPass(states, steps, b, |steps|) &&
      states[|steps|].cluster == worlds[n].cluster &&
      forall m :: Among(m, Renderings(steps, b, |steps|)) ==> Kept(states, steps, b, |steps|, |steps|, m)
  {
    states := RunOfOne(worlds, acts, who, n);
    var steps := StepsSeenBy(worlds, acts, who, n);
    b := PassHasBegun(states, steps, |steps|);
    PassAccounts(states, steps, b, |steps|);
  }

  ghost predicate HasBeenReady(worlds: seq<World>, who: string, n: nat)
    requires n < |worlds|
  {
    exists k :: 0 <= k <= n && Ready(worlds[k], who)
  }

  /** Whenever an agent patches the list, all agents that have its initializer are through with a pass. */
  ghost predicate AllReady(worlds: seq<World>, acts: seq<WorldAction>)
    requires IsWorldRun(worlds, acts)
  {
    forall n, who :: 0 <= n < |acts| && Removes(worlds[n], acts[n], who) ==> HasBeenReady(worlds, who, n)
  }

  /** The patch takes off the initializer of `who`. */
  predicate Removes(w: World, x: WorldAction, who: string) {
    x.Work? && PutsBack(x.a) && x.who in w.workers && who in w.workers && w.workers[who].own == w.workers[x.who].own
  }

  function Owners(w: World): map<string, string> {
    map who | who in w.workers :: w.workers[who].own
  }

  ghost predicate Distinct(owners: map<string, string>) {
    forall a, b :: a in owners && b in owners && a != b ==> owners[a] != owners[b]
  }

  lemma {:induction false} SameOwners(worlds: seq<World>, acts: seq<WorldAction>, n: nat)
    requires IsWorldRun(worlds, acts) && n <= |acts|
    ensures Owners(worlds[n]) == Owners(worlds[0])
  {
    if n == 0 {
    } else {
      SameOwners(worlds, acts, n - 1);
      assert WorldEnabled(worlds, n - 1, acts[n - 1]) && worlds[n - 1 + 1] == WorldStep(worlds, n - 1, acts[n - 1]);
    }
  }

  lemma DistinctAllReady(worlds: seq<World>, acts: seq<WorldAction>)
    requires IsWorldRun(worlds, acts) && Distinct(Owners(worlds[0]))
    ensures AllReady(worlds, acts)
  {
    forall n, who | 0 <= n < |acts| && Removes(worlds[n], acts[n], who) ensures HasBeenReady(worlds, who, n) {
      SameOwners(worlds, acts, n);
      assert WorldEnabled(worlds, n, acts[n]);
      assert Owners(worlds[n])[who] == Owners(worlds[n])[acts[n].who];
      assert Ready(worlds[n], who);
    }
  }

  /** Of two InitTargets of one WorkspaceType, the first, which has no sources, removes the initializer of both
      before the second has read anything. */
  lemma SharedIsLost(owners: map<string, string>, a: string, b: string)
      returns (worlds: seq<World>, acts: seq<WorldAction>)
    requires a in owners && b in owners && a != b && owners[a] == owners[b]
    ensures IsWorldRun(worlds, acts) && Owners(worlds[0]) == owners
    ensures acts == [Fetch(a, 0), Work(a, ReadTarget(0)), Work(a, Patch(NoFault))]
    ensures b in worlds[2].workers && worlds[2].workers[b].agent == Idle && owners[b] !in worlds[3].cluster.initializers
    ensures !AllReady(worlds, acts)
  {
    var own := owners[a];
    var c := Cluster(map[], {}, [own]);
    var idle := map who | who in owners :: Worker(owners[who], Idle);
    var w0 := World(c, idle);
    var w1 := World(c, idle[a := Worker(own, Read([own]))]);
    var w2 := World(c, idle[a := Worker(own, Working([own], 0, 0, [], false))]);
    var w3 := World(c.(initializers := Without([own], own)), idle[a := Worker(own, Idle)]);
    worlds := [w0, w1, w2, w3];
    acts := [Fetch(a, 0), Work(a, ReadTarget(0)), Work(a, Patch(NoFault))];
    assert Removes(w2, acts[2], b);
  }

  /** In all runs all agents of a removed initializer have been through with a pass, exactly if no two InitTargets
      have the same WorkspaceType. */
  lemma AllReadyIffDistinct(owners: map<string, string>)
    ensures (forall worlds, acts ::
        IsWorldRun(worlds, acts) && Owners(worlds[0]) == owners ==> AllReady(worlds, acts)) <==>
      Distinct(owners)
  {
    if Distinct(owners) {
      forall worlds, acts | IsWorldRun(worlds, acts) && Owners(worlds[0]) == owners ensures AllReady(worlds, acts) {
        DistinctAllReady(worlds, acts);
      }
    } else {
      var a, b :| a in owners && b in owners && a != b && owners[a] == owners[b];
      var worlds, acts := SharedIsLost(owners, a, b);
    }
  }
}
