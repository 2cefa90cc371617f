/** Many clusters and a pool of workers, each reconciling one cluster at a time; the
    work queue never hands the same cluster to two workers
    (internal/controller/initcontroller/reconciler.go, controller.go). */
module Fleet {
  import opened Protocol
  import opened Safety

  datatype Worker = Free | On(name: string, agent: Agent)

  datatype FleetState = FleetState(own: string, clusters: map<string, Cluster>, workers: seq<Worker>)

  datatype FleetAction =
    | Take(w: nat, name: string)
    | Work(w: nat, a: Action)
    | Leave(w: nat)
    | Outside(name: string, e: EnvAction)

  predicate Busy(workers: seq<Worker>, name: string) {
    exists w :: 0 <= w < |workers| && workers[w].On? && workers[w].name == name
  }

  function Local(f: FleetState, w: nat): State
    requires w < |f.workers| && f.workers[w].On? && f.workers[w].name in f.clusters
  {
    State(f.own, f.clusters[f.workers[w].name], f.workers[w].agent)
  }

  ghost predicate FleetEnabled(f: FleetState, a: FleetAction) {
    match a
    case Take(w, name) =>
      w < |f.workers| && f.workers[w].Free? && name in f.clusters && !Busy(f.workers, name)
    case Work(w, x) =>
      w < |f.workers| && f.workers[w].On? && f.workers[w].name in f.clusters && !x.Env? && Enabled(Local(f, w), x)
    case Leave(w) => w < |f.workers| && f.workers[w].On? && f.workers[w].agent.Idle?
    case Outside(name, _) => name in f.clusters
  }

  ghost function FleetStep(f: FleetState, a: FleetAction): FleetState
    requires FleetEnabled(f, a)
  {
    match a
    case Take(w, name) => f.(workers := f.workers[w := On(name, Idle)])
    case Work(w, x) =>
      var s := Step(Local(f, w), x);
      f.(clusters := f.clusters[f.workers[w].name := s.cluster],
         workers := f.workers[w := On(f.workers[w].name, s.agent)])
    case Leave(w) => f.(workers := f.workers[w := Free])
    case Outside(name, e) => f.(clusters := f.clusters[name := EnvStep(f.clusters[name], e)])
  }

  ghost predicate IsFleetRun(fleet: seq<FleetState>, acts: seq<FleetAction>) {
    |fleet| == |acts| + 1 && (forall w :: 0 <= w < |fleet[0].workers| ==> fleet[0].workers[w] == Free) &&
    forall i {:trigger acts[i]} :: 0 <= i < |acts| ==>
      FleetEnabled(fleet[i], acts[i]) && fleet[i + 1] == FleetStep(fleet[i], acts[i])
  }

  /** No two workers are on the same cluster. */
  ghost predicate OnePerCluster(f: FleetState) {
    forall w, w' :: 0 <= w < w' < |f.workers| && f.workers[w].On? && f.workers[w'].On? ==>
      f.workers[w].name != f.workers[w'].name
  }

  lemma {:induction false} StaysOnePerCluster(fleet: seq<FleetState>, acts: seq<FleetAction>, n: nat)
    requires IsFleetRun(fleet, acts) && n <= |acts|
    ensures OnePerCluster(fleet[n]) && fleet[n].own == fleet[0].own
    ensures fleet[n].clusters.Keys == fleet[0].clusters.Keys
  {
    if n == 0 {
    } else {
      StaysOnePerCluster(fleet, acts, n - 1);
      assert FleetEnabled(fleet[n - 1], acts[n - 1]) && fleet[n - 1 + 1] == FleetStep(fleet[n - 1], acts[n - 1]);
    }
  }

  /** The pass that is going on over a cluster, whichever worker is at it. */
  ghost predicate AgentOn(workers: seq<Worker>, name: string, agent: Agent) {
    if Busy(workers, name) then exists w :: 0 <= w < |workers| && workers[w] == On(name, agent) else agent == Idle
  }

  ghost predicate ShowsOn(f: FleetState, name: string, s: State) {
    name in f.clusters && s.own == f.own && s.cluster == f.clusters[name] && AgentOn(f.workers, name, s.agent)
  }

  /** The steps that were taken on one cluster, by whatever worker, and by others there. */
  function StepsOn(fleet: seq<FleetState>, acts: seq<FleetAction>, name: string, n: nat): seq<Action>
    requires |fleet| == |acts| + 1 && n <= |acts|
  {
    if n == 0 then []
    else
      var before, f := StepsOn(fleet, acts, name, n - 1), fleet[n - 1];
      match acts[n - 1]
      case Work(w, a) =>
        if w < |f.workers| && f.workers[w].On? && f.workers[w].name == name then before + [a] else before
      case Outside(at, e) => if at == name then before + [Env(e)] else before
      case _ => before
  }

  /** A step elsewhere changes nothing on this cluster; a step here is a step of the protocol. */
  lemma StepOnCluster(f: FleetState, a: FleetAction, name: string, s: State) returns (s': State)
    requires FleetEnabled(f, a) && OnePerCluster(f) && ShowsOn(f, name, s)
    ensures ShowsOn(FleetStep(f, a), name, s')
    ensures match a
      case Work(w, x) => if f.workers[w].name == name then Enabled(s, x) && s' == Step(s, x) else s' == s
      case Outside(at, e) => s' == if at == name then Step(s, Env(e)) else s
      case _ => s' == s
  {
    var f' := FleetStep(f, a);
    s' := s;
    match a {
      case Outside(at, e) =>
        if at == name {
          s' := Step(s, Env(e));
        }
      case Work(w, x) =>
        if f.workers[w].name == name {
          OnlyAgent(f, w, name, s.agent);
          s' := Step(s, x);
          assert f'.workers[w] == On(name, s'.agent);
        } else {
          SameElsewhere(f.workers, f'.workers, w, name, s.agent);
        }
      case Take(w, at) =>
        if at == name {
          assert s.agent == Idle;
          assert f'.workers[w] == On(name, Idle);
        } else {
          SameElsewhere(f.workers, f'.workers, w, name, s.agent);
        }
      case Leave(w) =>
        if f.workers[w].name == name {
          OnlyAgent(f, w, name, s.agent);
          assert !Busy(f'.workers, name);
        } else {
          SameElsewhere(f.workers, f'.workers, w, name, s.agent);
        }
    }
  }

  lemma OnlyAgent(f: FleetState, w: nat, name: string, agent: Agent)
    requires OnePerCluster(f) && AgentOn(f.workers, name, agent)
    requires w < |f.workers| && f.workers[w].On? && f.workers[w].name == name
    ensures f.workers[w].agent == agent
    ensures forall v :: 0 <= v < |f.workers| && v != w && f.workers[v].On? ==> f.workers[v].name != name
  {
    assert Busy(f.workers, name);
    var v :| 0 <= v < |f.workers| && f.workers[v] == On(name, agent);
    assert v == w;
  }

  lemma SameElsewhere(workers: seq<Worker>, workers': seq<Worker>, w: nat, name: string, agent: Agent)
    requires w < |workers| == |workers'| && forall v :: 0 <= v < |workers| && v != w ==> workers'[v] == workers[v]
    requires workers[w].On? ==> workers[w].name != name
    requires workers'[w].On? ==> workers'[w].name != name
    requires AgentOn(workers, name, agent)
    ensures AgentOn(workers', name, agent)
  {
    if v :| 0 <= v < |workers| && workers[v] == On(name, agent) {
      assert workers'[v] == workers[v];
    }
    if v :| 0 <= v < |workers| && workers'[v].On? && workers'[v].name == name {
      assert workers[v].On? && workers[v].name == name;
    }
  }

  /** What one more step of the fleet adds to the steps on a cluster: nothing, or one step. */
  lemma OneMoreStepOn(fleet: seq<FleetState>, acts: seq<FleetAction>, name: string, n: nat, s: State)
      returns (a: Action, s': State)
    requires IsFleetRun(fleet, acts) && n < |acts| && ShowsOn(fleet[n], name, s)
    ensures ShowsOn(fleet[n + 1], name, s')
    ensures var before, after := StepsOn(fleet, acts, name, n), StepsOn(fleet, acts, name, n + 1);
      (after == before && s' == s) || (after == before + [a] && Enabled(s, a) && s' == Step(s, a))
  {
    StaysOnePerCluster(fleet, acts, n);
    assert FleetEnabled(fleet[n], acts[n]) && fleet[n + 1] == FleetStep(fleet[n], acts[n]);
    s' := StepOnCluster(fleet[n], acts[n], name, s);
    a := match acts[n] case Work(_, x) => x case Outside(_, e) => Env(e) case _ => Abort;
  }

  /** Seen from one cluster, any interleaving of all workers on all clusters is a run
      of that cluster alone, made up of exactly the steps that were taken on it. */
  lemma {:induction false} RunOnCluster(fleet: seq<FleetState>, acts: seq<FleetAction>, name: string, n: nat)
      returns (states: seq<State>)
    requires IsFleetRun(fleet, acts) && n <= |acts| && name in fleet[0].clusters
    ensures IsHistory(states, StepsOn(fleet, acts, name, n))
    ensures ShowsOn(fleet[n], name, states[|states| - 1])
    ensures states[0] == State(fleet[0].own, fleet[0].clusters[name], Idle)
  {
    if n == 0 {
      states := [State(fleet[0].own, fleet[0].clusters[name], Idle)];
      assert !Busy(fleet[0].workers, name);
    } else {
      states := RunOnCluster(fleet, acts, name, n - 1);
      var a, s' := OneMoreStepOn(fleet, acts, name, n - 1, states[|states| - 1]);
      if StepsOn(fleet, acts, name, n) != StepsOn(fleet, acts, name, n - 1) {
        OneMoreStep(states, StepsOn(fleet, acts, name, n - 1), a, s');
        states := states + [s'];
      }
    }
  }

  // ------------------------------------------------------------------- and back

  /** A step on a cluster, taken by worker 0 or by others. */
  function Played(name: string, a: Action): FleetAction {
    match a
    case Env(e) => Outside(name, e)
    case _ => Work(0, a)
  }

  ghost predicate LedTo(fleet: seq<FleetState>, acts: seq<FleetAction>, f: FleetState,
                        name: string, steps: seq<Action>)
  {
    IsFleetRun(fleet, acts) && fleet[|acts|] == f && StepsOn(fleet, acts, name, |acts|) == steps
  }

  lemma {:induction false} StepsOnPrefix(fleet: seq<FleetState>, acts: seq<FleetAction>, f: FleetState, a: FleetAction,
                                         name: string, n: nat)
    requires |fleet| == |acts| + 1 && n <= |acts|
    ensures StepsOn(fleet + [f], acts + [a], name, n) == StepsOn(fleet, acts, name, n)
  {
    if n == 0 {
    } else {
      StepsOnPrefix(fleet, acts, f, a, name, n - 1);
    }
  }

  lemma OneMoreFleetStep(fleet: seq<FleetState>, acts: seq<FleetAction>, f: FleetState, name: string,
                         steps: seq<Action>, a: FleetAction)
    requires LedTo(fleet, acts, f, name, steps) && FleetEnabled(f, a)
    ensures LedTo(fleet + [FleetStep(f, a)], acts + [a], FleetStep(f, a), name,
              match a
              case Work(w, x) => if f.workers[w].name == name then steps + [x] else steps
              case Outside(at, e) => if at == name then steps + [Env(e)] else steps
              case _ => steps)
  {
    StepsOnPrefix(fleet, acts, FleetStep(f, a), a, name, |acts|);
    assert (fleet + [FleetStep(f, a)])[..|fleet|] == fleet;
  }

  /** The fleet as it is when worker 0 is at one cluster in this state. */
  function At(f: FleetState, name: string, s: State): FleetState
    requires f.workers != []
  {
    f.(clusters := f.clusters[name := s.cluster], workers := f.workers[0 := On(name, s.agent)])
  }

  lemma PlayedStep(f: FleetState, name: string, s: State, a: Action)
    requires f.workers != [] && s.own == f.own && Enabled(s, a)
    requires forall w :: 0 < w < |f.workers| ==> f.workers[w] == Free
    ensures FleetEnabled(At(f, name, s), Played(name, a))
    ensures FleetStep(At(f, name, s), Played(name, a)) == At(f, name, Step(s, a))
  {
    assert a.Env? || Local(At(f, name, s), 0) == s;
  }

  lemma PlayedFirst(f: FleetState, name: string, s: State)
    requires f.workers != [] && forall w :: 0 <= w < |f.workers| ==> f.workers[w] == Free
    requires name in f.clusters && f.clusters[name] == s.cluster && s.agent == Idle
    ensures LedTo([f, At(f, name, s)], [Take(0, name)], At(f, name, s), name, [])
  {
    OneMoreFleetStep([f], [], f, name, [], Take(0, name));
    assert f.clusters[name := s.cluster] == f.clusters;
    assert [f] + [At(f, name, s)] == [f, At(f, name, s)];
    assert [] + [Take(0, name)] == [Take(0, name)];
  }

  lemma PlayedOn(f: FleetState, name: string, s: State, steps: seq<Action>, a: Action,
                 fleet: seq<FleetState>, acts: seq<FleetAction>)
    requires f.workers != [] && forall w :: 0 <= w < |f.workers| ==> f.workers[w] == Free
    requires s.own == f.own && Enabled(s, a) && LedTo(fleet, acts, At(f, name, s), name, steps)
    ensures LedTo(fleet + [At(f, name, Step(s, a))], acts + [Played(name, a)],
                  At(f, name, Step(s, a)), name, steps + [a])
  {
    PlayedStep(f, name, s, a);
    OneMoreFleetStep(fleet, acts, At(f, name, s), name, steps, Played(name, a));
  }

  lemma PlayedNext(f: FleetState, name: string, states: seq<State>, steps: seq<Action>, n: nat,
                   fleet: seq<FleetState>, acts: seq<FleetAction>)
    requires IsHistory(states, steps) && n < |steps| && states[0].own == f.own
    requires f.workers != [] && forall w :: 0 <= w < |f.workers| ==> f.workers[w] == Free
    requires LedTo(fleet, acts, At(f, name, states[n]), name, steps[..n])
    ensures LedTo(fleet + [At(f, name, states[n + 1])], acts + [Played(name, steps[n])],
                  At(f, name, states[n + 1]), name, steps[..n + 1])
  {
    assert Enabled(states[n], steps[n]) && states[n + 1] == Step(states[n], steps[n]);
    SameOwner(states, steps, n);
    PlayedOn(f, name, states[n], steps[..n], steps[n], fleet, acts);
    assert steps[..n + 1] == steps[..n] + [steps[n]];
  }

  lemma {:induction false} PlayedUpTo(f: FleetState, name: string, states: seq<State>, steps: seq<Action>, n: nat)
      returns (fleet: seq<FleetState>, acts: seq<FleetAction>)
    requires IsHistory(states, steps) && n <= |steps| && states[0].own == f.own
    requires f.workers != [] && forall w :: 0 <= w < |f.workers| ==> f.workers[w] == Free
    requires name in f.clusters && f.clusters[name] == states[0].cluster
    ensures fleet != [] && fleet[0] == f && LedTo(fleet, acts, At(f, name, states[n]), name, steps[..n])
  {
    if n == 0 {
      PlayedFirst(f, name, states[0]);
      fleet, acts := [f, At(f, name, states[0])], [Take(0, name)];
    } else {
      var fleet', acts' := PlayedUpTo(f, name, states, steps, n - 1);
      PlayedNext(f, name, states, steps, n - 1, fleet', acts');
      fleet, acts := fleet' + [At(f, name, states[n])], acts' + [Played(name, steps[n - 1])];
    }
  }

  /** Every history of a cluster that ends between two passes is what some run of any fleet does there, after which
      all workers are free again and all other clusters as they were. */
  lemma EveryHistoryIsPlayed(f: FleetState, name: string, states: seq<State>, steps: seq<Action>)
      returns (fleet: seq<FleetState>, acts: seq<FleetAction>)
    requires IsHistory(states, steps) && states[|steps|].agent.Idle? && states[0].own == f.own
    requires f.workers != [] && forall w :: 0 <= w < |f.workers| ==> f.workers[w] == Free
    requires name in f.clusters && f.clusters[name] == states[0].cluster
    ensures fleet != [] && fleet[0] == f
    ensures LedTo(fleet, acts, f.(clusters := f.clusters[name := states[|steps|].cluster]), name, steps)
  {
    fleet, acts := PlayedUpTo(f, name, states, steps, |steps|);
    var now := At(f, name, states[|steps|]);
    OneMoreFleetStep(fleet, acts, now, name, steps[..|steps|], Leave(0));
    fleet, acts := fleet + [FleetStep(now, Leave(0))], acts + [Leave(0)];
    assert f.workers[0 := On(name, Idle)][0 := Free] == f.workers;
    assert steps[..|steps|] == steps;
  }
}
