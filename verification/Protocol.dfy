/** One cluster being initialized, at the granularity of single API calls: what
    the agent may do next, and what everybody else may do in between
    (internal/controller/initcontroller/reconciler.go, internal/manifest/applier.go). */
module Protocol {
  import opened Manifests
  import opened Slices

  /** What the API server of one cluster holds. `served` are the kinds that the
      client can map to a resource at the moment. */
  datatype Cluster = Cluster(
    objects: map<ObjectKey, string>,
    served: set<GroupVersionKind>,
    initializers: seq<string>)

  datatype Response = Created | AlreadyExists | NoKindMatch | Refused

  /** The server's answer to a create call that nothing disturbs. */
  function Respond(c: Cluster, m: Manifest): Response {
    if m.gvk !in c.served then NoKindMatch
    else if m.namespace != "" && NamespaceKey(m.namespace) !in c.objects then Refused
    else if KeyOf(m) in c.objects then AlreadyExists
    else Created
  }

  /** A call may fail before it has any effect, or after, when its reply is lost. */
  datatype Fault = NoFault | Rejected | ReplyLost

  /** Where the agent is in its pass over this cluster. A pass that is Working
      has rendered `next` of `total` sources; `queue` is what is left of the last. */
  datatype Agent =
    | Idle
    | Read(snapshot: seq<string>)
    | Working(snapshot: seq<string>, total: nat, next: nat, queue: seq<Manifest>, requeue: bool)

  datatype State = State(own: string, cluster: Cluster, agent: Agent)

  /** The steps of everybody else: API discovery, other writers, the workspace's owner. */
  datatype EnvAction =
    | Serve(gvk: GroupVersionKind)
    | Withdraw(gvk: GroupVersionKind)
    | Write(key: ObjectKey, content: string)
    | Delete(key: ObjectKey)
    | SetInitializers(list: seq<string>)

  datatype Action =
    /** The LogicalCluster as the client's cache returned it, possibly out of date. */
    | ReadCluster(snapshot: seq<string>)
    | ReadTarget(total: nat)
    | Render(ms: seq<Manifest>, sorted: seq<Manifest>)
    | Create(fault: Fault)
    /** The pass ends with a request to run again. */
    | Requeue
    /** The pass ends with the patch of the initializer list. */
    | Patch(fault: Fault)
    /** A failed read or rendering, a panic, or the end of the process. */
    | Abort
    | Env(e: EnvAction)

  predicate AtEnd(agent: Agent) {
    agent.Working? && agent.queue == [] && agent.next == agent.total
  }

  ghost predicate Enabled(s: State, a: Action) {
    match a
    case ReadCluster(_) => s.agent.Idle?
    case ReadTarget(_) => s.agent.Read?
    case Render(ms, sorted) =>
      s.agent.Working? && s.agent.queue == [] && s.agent.next < s.agent.total && IsArrangement(sorted, ms)
    case Create(fault) =>
      s.agent.Working? && s.agent.queue != [] &&
      (fault == ReplyLost ==> Respond(s.cluster, s.agent.queue[0]) == Created)
    case Requeue => AtEnd(s.agent) && s.agent.requeue
    case Patch(_) => AtEnd(s.agent) && !s.agent.requeue
    case Abort => true
    case Env(_) => true
  }

  function EnvStep(c: Cluster, e: EnvAction): Cluster {
    match e
    case Serve(gvk) => c.(served := c.served + {gvk})
    case Withdraw(gvk) => c.(served := c.served - {gvk})
    case Write(key, content) => c.(objects := c.objects[key := content])
    case Delete(key) => c.(objects := c.objects - {key})
    case SetInitializers(list) => c.(initializers := list)
  }

  function Insert(objects: map<ObjectKey, string>, m: Manifest): map<ObjectKey, string> {
    objects[KeyOf(m) := m.content]
  }

  function CreateStep(s: State, fault: Fault): State
    requires s.agent.Working? && s.agent.queue != []
  {
    var m := s.agent.queue[0];
    match fault
    case Rejected => s.(agent := Idle)
    case ReplyLost => s.(cluster := s.cluster.(objects := Insert(s.cluster.objects, m)), agent := Idle)
    case NoFault =>
      match Respond(s.cluster, m)
      case Created =>
        s.(cluster := s.cluster.(objects := Insert(s.cluster.objects, m)),
           agent := s.agent.(queue := s.agent.queue[1..]))
      case AlreadyExists => s.(agent := s.agent.(queue := s.agent.queue[1..]))
      case NoKindMatch => s.(agent := s.agent.(queue := [], requeue := true))
      case Refused => s.(agent := Idle)
  }

  ghost function Step(s: State, a: Action): State
    requires Enabled(s, a)
  {
    match a
    case ReadCluster(snapshot) => if s.own in snapshot then s.(agent := Read(snapshot)) else s
    case ReadTarget(total) => s.(agent := Working(s.agent.snapshot, total, 0, [], false))
    case Render(_, sorted) => s.(agent := s.agent.(next := s.agent.next + 1, queue := sorted))
    case Create(fault) => CreateStep(s, fault)
    case Requeue => s.(agent := Idle)
    case Patch(Rejected) => s.(agent := Idle)
    case Patch(_) =>
      s.(cluster := s.cluster.(initializers := Without(s.agent.snapshot, s.own)), agent := Idle)
    case Abort => s.(agent := Idle)
    case Env(e) => s.(cluster := EnvStep(s.cluster, e))
  }

  // ------------------------------------------------------------------- runs

  /** The agent and its environment have taken the steps acts, in any interleaving. */
  ghost predicate IsRun(states: seq<State>, acts: seq<Action>) {
    |states| == |acts| + 1 &&
    forall i {:trigger acts[i]} :: 0 <= i < |acts| ==>
      Enabled(states[i], acts[i]) && states[i + 1] == Step(states[i], acts[i])
  }

  /** A run from the moment at which the agent was started. */
  ghost predicate IsHistory(states: seq<State>, acts: seq<Action>) {
    IsRun(states, acts) && states[0].agent.Idle?
  }

  lemma OneMoreStep(states: seq<State>, acts: seq<Action>, a: Action, s: State)
    requires IsHistory(states, acts) && Enabled(states[|acts|], a) && s == Step(states[|acts|], a)
    ensures IsHistory(states + [s], acts + [a])
  {
  }

  /** Action b began the pass that is still going on in state e. */
  ghost predicate InPass(states: seq<State>, acts: seq<Action>, b: nat, e: nat)
    requires IsRun(states, acts)
  {
    b < e <= |acts| && acts[b].ReadCluster? && forall i :: b < i <= e ==> !states[i].agent.Idle?
  }

  lemma {:induction false} PassHasBegun(states: seq<State>, acts: seq<Action>, e: nat) returns (b: nat)
    requires IsHistory(states, acts) && e <= |acts| && !states[e].agent.Idle?
    ensures InPass(states, acts, b, e)
  {
    if states[e - 1].agent.Idle? {
      assert Enabled(states[e - 1], acts[e - 1]) && states[e - 1 + 1] == Step(states[e - 1], acts[e - 1]);
      b := e - 1;
    } else {
      b := PassHasBegun(states, acts, e - 1);
    }
  }

  /** Somebody deleted the object under key by a step in [i, j). */
  ghost predicate DeletedIn(acts: seq<Action>, i: nat, j: nat, key: ObjectKey)
    requires j <= |acts|
  {
    exists d :: i <= d < j && acts[d] == Env(Delete(key))
  }

  lemma {:induction false} ObjectsStay(states: seq<State>, acts: seq<Action>, i: nat, j: nat, key: ObjectKey)
    requires IsRun(states, acts) && i <= j <= |acts|
    requires key in states[i].cluster.objects
    ensures key in states[j].cluster.objects || DeletedIn(acts, i, j, key)
  {
    if i == j {
    } else {
      ObjectsStay(states, acts, i, j - 1, key);
      assert Enabled(states[j - 1], acts[j - 1]) && states[j - 1 + 1] == Step(states[j - 1], acts[j - 1]);
    }
  }

  /** What the sources were rendered to by the steps in (b, e), source by source. */
  function Renderings(acts: seq<Action>, b: nat, e: nat): seq<seq<Manifest>>
    requires b < e <= |acts|
  {
    if e == b + 1 then []
    else if acts[e - 1].Render? then Renderings(acts, b, e - 1) + [acts[e - 1].ms]
    else Renderings(acts, b, e - 1)
  }

  /** The same sources in the order in which their manifests are created. */
  function Arrangements(acts: seq<Action>, b: nat, e: nat): seq<seq<Manifest>>
    requires b < e <= |acts|
  {
    if e == b + 1 then []
    else if acts[e - 1].Render? then Arrangements(acts, b, e - 1) + [acts[e - 1].sorted]
    else Arrangements(acts, b, e - 1)
  }

  ghost predicate Among(m: Manifest, sources: seq<seq<Manifest>>) {
    exists i :: 0 <= i < |sources| && m in sources[i]
  }

  lemma AmongSnoc(m: Manifest, sources: seq<seq<Manifest>>, last: seq<Manifest>)
    ensures Among(m, sources + [last]) <==> Among(m, sources) || m in last
  {
    if Among(m, sources) {
      var i :| 0 <= i < |sources| && m in sources[i];
      assert (sources + [last])[i] == sources[i];
    }
    if m in last {
      assert (sources + [last])[|sources|] == last;
    }
  }
}
