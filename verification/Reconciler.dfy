/** The reconciler as it is written - loops over in-place slices with early exits -
    against a client whose cluster others change between any two calls. Every
    method is proved to take only steps of the protocol, so that whatever holds of
    all runs of the protocol holds of this code
    (internal/controller/initcontroller/reconciler.go, internal/manifest/applier.go). */
module Reconciler {
  import opened Manifests
  import opened Slices
  import opened Protocol
  import opened Safety

  /** What the outside world does around one API call: the steps others take before it,
      the fault that hits it, and, for a read, the list that the cache still holds. */
  datatype Tick = Tick(env: seq<EnvAction>, fault: Fault, cached: seq<string>)

  function EnvActions(env: seq<EnvAction>): (acts: seq<Action>)
    ensures |acts| == |env| && forall i :: 0 <= i < |env| ==> acts[i] == Env(env[i])
  {
    seq(|env|, i requires 0 <= i < |env| => Env(env[i]))
  }

  lemma {:induction false} RenderingsOfPrefix(acts: seq<Action>, more: seq<Action>, b: nat, e: nat)
    requires b < e <= |acts|
    ensures Renderings(acts + more, b, e) == Renderings(acts, b, e)
  {
    if e == b + 1 {
    } else {
      RenderingsOfPrefix(acts, more, b, e - 1);
    }
  }

  /** A step that begins a pass or keeps it going. */
  lemma PassGoesOn(states: seq<State>, acts: seq<Action>, a: Action, s: State, b: nat)
    requires IsHistory(states, acts) && Enabled(states[|acts|], a) && s == Step(states[|acts|], a) && !s.agent.Idle?
    requires IsHistory(states + [s], acts + [a])
    requires if a.ReadCluster? then b == |acts| else !states[|acts|].agent.Idle? ==> InPass(states, acts, b, |acts|)
    ensures InPass(states + [s], acts + [a], b, |acts| + 1)
    ensures a.ReadCluster? ==> Renderings(acts + [a], b, |acts| + 1) == []
    ensures !a.ReadCluster? ==>
      b < |acts| &&
      Renderings(acts + [a], b, |acts| + 1) ==
        if a.Render? then Renderings(acts, b, |acts|) + [a.ms] else Renderings(acts, b, |acts|)
  {
    if !a.ReadCluster? {
      RenderingsOfPrefix(acts, [a], b, |acts|);
    }
  }

  lemma HandledEarlier(was: seq<State>, before: seq<Action>, states: seq<State>, acts: seq<Action>,
                       b: nat, e: nat, m: Manifest)
    requires IsRun(was, before) && IsRun(states, acts) && was <= states && before <= acts
    requires e == |before| && HandledIn(was, before, b, e, m)
    ensures HandledIn(states, acts, b, |acts|, m)
  {
    var c :| b < c < e && HandledAt(was, before, c, m);
    assert HandledAt(states, acts, c, m);
  }

  /** What a create call does to the cluster, and what its answer does to the agent. */
  function Effect(c: Cluster, m: Manifest, fault: Fault): Cluster {
    if fault == ReplyLost || (fault == NoFault && Respond(c, m) == Created) then c.(objects := Insert(c.objects, m))
    else c
  }

  function AgentAfter(agent: Agent, r: Response): Agent
    requires agent.Working? && agent.queue != []
  {
    match r
    case Refused => Idle
    case NoKindMatch => agent.(queue := [], requeue := true)
    case _ => agent.(queue := agent.queue[1..])
  }

  lemma CreateStepIs(s: State, fault: Fault)
    requires s.agent.Working? && s.agent.queue != []
    requires fault == ReplyLost ==> Respond(s.cluster, s.agent.queue[0]) == Created
    ensures Enabled(s, Create(fault))
    ensures Step(s, Create(fault)) ==
      State(s.own, Effect(s.cluster, s.agent.queue[0], fault),
        AgentAfter(s.agent, if fault == NoFault then Respond(s.cluster, s.agent.queue[0]) else Refused))
  {
  }

  lemma AllKept(was: seq<State>, before: seq<Action>, states: seq<State>, acts: seq<Action>, b: nat)
    requires IsRun(was, before) && IsRun(states, acts) && was <= states && before <= acts
    requires b < |before| && was[|before|].agent.Working? && was[|before|].agent.queue == []
    requires Accounted(was, before, b, |before|)
    ensures forall m :: Among(m, Renderings(before, b, |before|)) ==> Kept(states, acts, b, |acts|, |acts|, m)
  {
    forall m | Among(m, Renderings(before, b, |before|)) ensures Kept(states, acts, b, |acts|, |acts|, m) {
      HandledEarlier(was, before, states, acts, b, |before|, m);
      HandledIsKept(states, acts, b, |acts|, |acts|, m);
    }
  }

  // ------------------------------------------------------------------ the client

  class Client {
    const own: string
    var cluster: Cluster
    /** What is going to happen around the coming calls; any schedule is possible. */
    var schedule: seq<Tick>

    ghost var agent: Agent
    ghost var states: seq<State>
    ghost var acts: seq<Action>
    /** Where the current pass began and what it has rendered so far. */
    ghost var began: nat
    ghost var rendered: seq<seq<Manifest>>

    ghost predicate Valid() reads this {
      IsHistory(states, acts) && states[|acts|] == State(own, cluster, agent) &&
      (!agent.Idle? ==>
        InPass(states, acts, began, |acts|) && rendered == Renderings(acts, began, |acts|))
    }

    /** Every manifest rendered by the latest pass was created or found by one of its calls, and is stored unless
        somebody deleted it since. */
    ghost predicate Delivered() reads this {
      IsRun(states, acts) && forall m :: Among(m, rendered) ==> Kept(states, acts, began, |acts|, |acts|, m)
    }

    ghost function Last(): Action
      requires acts != []
      reads this
    {
      acts[|acts| - 1]
    }

    /** What the schedule has for the next call; when it has run out, nothing happens any more. */
    function Due(): Tick reads this {
      if schedule == [] then Tick([], NoFault, cluster.initializers) else schedule[0]
    }

    /** The steps that the others take before the next call, and then the call. */
    ghost predicate CalledOnce(before: seq<Action>, tick: Tick)
      reads this
    {
      acts != [] && acts == before + EnvActions(tick.env) + [Last()]
    }

    /** The last step was a call that failed, or a create call that was refused. */
    ghost predicate CallFailed() reads this {
      acts != [] && |states| == |acts| + 1 &&
      ((Last().Create? && Last().fault != NoFault) || RefusedAt(states, acts, |acts| - 1) ||
       (Last().Patch? && Last().fault != NoFault))
    }

    constructor (own: string, cluster: Cluster, schedule: seq<Tick>)
      ensures Valid() && agent == Idle && acts == []
      ensures this.own == own && this.cluster == cluster && this.schedule == schedule
    {
      this.own, this.cluster, this.schedule := own, cluster, schedule;
      agent, states, acts := Idle, [State(own, cluster, Idle)], [];
      began, rendered := 0, [];
    }

    /** Records a step that has led to the present cluster and agent. */
    ghost method Log(a: Action)
      requires IsHistory(states, acts) && Enabled(states[|acts|], a)
      requires Step(states[|acts|], a) == State(own, cluster, agent)
      requires !states[|acts|].agent.Idle? ==>
        InPass(states, acts, began, |acts|) && rendered == Renderings(acts, began, |acts|)
      modifies this`states, this`acts, this`began, this`rendered
      ensures Valid() && acts == old(acts) + [a] && states == old(states) + [State(own, cluster, agent)]
      ensures a.ReadCluster? ==> began == |old(acts)| && rendered == []
      ensures !a.ReadCluster? ==>
        began == old(began) && rendered == if a.Render? then old(rendered) + [a.ms] else old(rendered)
    {
      OneMoreStep(states, acts, a, State(own, cluster, agent));
      if !agent.Idle? {
        PassGoesOn(states, acts, a, State(own, cluster, agent), if a.ReadCluster? then |acts| else began);
      }
      if a.ReadCluster? {
        began, rendered := |acts|, [];
      } else if a.Render? {
        rendered := rendered + [a.ms];
      }
      states, acts := states + [State(own, cluster, agent)], acts + [a];
    }

    /** The agent takes a step without an API call to this cluster. */
    ghost method Advance(a: Action)
      requires Valid() && Enabled(State(own, cluster, agent), a)
      requires a.ReadTarget? || a.Render? || a.Requeue? || a.Abort?
      modifies this`agent, this`states, this`acts, this`began, this`rendered
      ensures Valid() && acts == old(acts) + [a] && old(states) <= states && began == old(began)
      ensures agent == match a
        case ReadTarget(total) => Working(old(agent).snapshot, total, 0, [], false)
        case Render(_, sorted) => old(agent).(next := old(agent).next + 1, queue := sorted)
        case _ => Idle
      ensures rendered == if a.Render? then old(rendered) + [a.ms] else old(rendered)
    {
      agent := Step(State(own, cluster, agent), a).agent;
      Log(a);
    }

    /** Lets the others take their steps, up to the next call. */
    method Interfere() returns (tick: Tick)
      requires Valid()
      modifies this
      ensures Valid() && agent == old(agent) && tick == old(Due())
      ensures acts == old(acts) + EnvActions(tick.env) && old(states) <= states
      ensures schedule == if old(schedule) == [] then [] else old(schedule)[1..]
      ensures began == old(began) && rendered == old(rendered)
    {
      if schedule == [] {
        assert EnvActions([]) == [];
        return Tick([], NoFault, cluster.initializers);
      }
      tick, schedule := schedule[0], schedule[1..];
      var i := 0;
      while i < |tick.env|
        invariant 0 <= i <= |tick.env|
        invariant Valid() && agent == old(agent) && schedule == old(schedule)[1..]
        invariant acts == old(acts) + EnvActions(tick.env[..i]) && old(states) <= states
        invariant began == old(began) && rendered == old(rendered)
      {
        cluster := EnvStep(cluster, tick.env[i]);
        Log(Env(tick.env[i]));
        assert EnvActions(tick.env[..i + 1]) == EnvActions(tick.env[..i]) + [Env(tick.env[i])];
        i := i + 1;
      }
      assert tick.env[..i] == tick.env;
    }

    /** Reads the LogicalCluster; one that does not exist has no initializers. */
    method Get() returns (lc: LogicalCluster?)
      requires Valid() && agent == Idle
      modifies this
      ensures Valid() && old(acts) < acts && old(states) < states && CalledOnce(old(acts), old(Due()))
      ensures lc == null <==> old(Due()).fault != NoFault
      ensures lc == null ==> agent == Idle && Last() == Abort
      ensures lc != null ==>
        lc.Valid() && fresh(lc) && fresh(lc.items) && Last() == ReadCluster(lc.Contents()) &&
        agent == (if own in lc.Contents() then Read(lc.Contents()) else Idle) &&
        lc.Contents() == old(Due()).cached && began == |acts| - 1 && rendered == []
    {
      var tick := Interfere();
      if tick.fault != NoFault {
        Log(Abort);
        return null;
      }
      lc := new LogicalCluster(tick.cached);
      agent := if own in tick.cached then Read(tick.cached) else Idle;
      Log(ReadCluster(tick.cached));
    }

    /** The server's side of a create call. */
    method Answer(m: Manifest, fate: Fault) returns (r: Response, ghost fault: Fault)
      requires Valid() && agent.Working? && agent.queue != [] && agent.queue[0] == m
      modifies this`cluster, this`agent, this`states, this`acts, this`began, this`rendered
      ensures Valid() && began == old(began) && rendered == old(rendered)
      ensures acts == old(acts) + [Action.Create(fault)] && states == old(states) + [State(own, cluster, agent)]
      ensures fault == fate || (fate == ReplyLost && fault == NoFault)
      ensures r == if fault == NoFault then Respond(old(cluster), m) else Refused
      ensures agent == AgentAfter(old(agent), r)
    {
      var hit := if fate == ReplyLost && Respond(cluster, m) != Created then NoFault else fate;
      fault := hit;
      r := if hit == NoFault then Respond(cluster, m) else Refused;
      CreateStepIs(states[|acts|], hit);
      cluster := Effect(cluster, m, hit);
      agent := AgentAfter(agent, r);
      Log(Action.Create(hit));
    }

    method Create(m: Manifest) returns (r: Response)
      requires Valid() && agent.Working? && agent.queue != [] && agent.queue[0] == m
      modifies this
      ensures Valid() && old(acts) < acts && old(states) < states && Last().Create?
      ensures CalledOnce(old(acts), old(Due()))
      ensures Last().fault == old(Due()).fault || (old(Due()).fault == ReplyLost && Last().fault == NoFault)
      ensures r == Refused <==> CallFailed()
      ensures r == if Last().fault == NoFault then Respond(states[|acts| - 1].cluster, m) else Refused
      ensures began == old(began) && rendered == old(rendered)
      ensures match r
        case Refused => agent == Idle
        case NoKindMatch => agent == old(agent).(queue := [], requeue := true)
        case _ => agent == old(agent).(queue := old(agent).queue[1..])
    {
      var tick := Interfere();
      ghost var fault;
      r, fault := Answer(m, tick.fault);
    }

    /** Sends what changed between the two versions of the LogicalCluster. */
    method Patch(changed: LogicalCluster, original: LogicalCluster) returns (ok: bool)
      requires Valid() && AtEnd(agent) && !agent.requeue
      requires changed.Valid() && original.Valid() && original.Contents() == agent.snapshot
      requires changed.Contents() == Without(agent.snapshot, own) != original.Contents()
      modifies this
      ensures Valid() && agent == Idle && old(acts) < acts && old(states) < states && Last().Patch?
      ensures CalledOnce(old(acts), old(Due())) && Last() == Action.Patch(old(Due()).fault)
      ensures ok <==> !CallFailed()
      ensures ok <==> Last() == Action.Patch(NoFault)
      ensures ok ==> cluster.initializers == changed.Contents()
      ensures began == old(began) && rendered == old(rendered) && Delivered()
    {
      var tick := Interfere();
      PassHandles(states, acts, began, |acts|);
      assert Accounted(states, acts, began, |acts|);
      ghost var before, was := acts, states;
      if tick.fault != Rejected && changed.Contents() != original.Contents() {
        cluster := cluster.(initializers := changed.Contents());
      }
      agent := Idle;
      Log(Action.Patch(tick.fault));
      ok := tick.fault == NoFault;
      AllKept(was, before, states, acts, began);
    }
  }

  /** The part of a LogicalCluster that is edited in place: a slice of initializers. */
  class LogicalCluster {
    var items: array<string>
    var count: nat

    ghost predicate Valid() reads this { count <= items.Length }

    function Contents(): seq<string>
      requires Valid()
      reads this, items
    {
      items[..count]
    }

    constructor (list: seq<string>)
      ensures Valid() && fresh(items) && Contents() == list
    {
      items := new string[|list|](i requires 0 <= i < |list| => list[i]);
      count := |list|;
    }

    method DeepCopy() returns (copy: LogicalCluster)
      requires Valid()
      ensures copy.Valid() && fresh(copy) && fresh(copy.items) && copy.Contents() == Contents()
    {
      copy := new LogicalCluster(Contents());
    }
  }

  // ----------------------------------------------------------------- the applier

  method ApplyObject(client: Client, m: Manifest) returns (err: Response)
    requires client.Valid() && client.agent.Working? && client.agent.queue != [] && client.agent.queue[0] == m
    modifies client
    ensures client.Valid() && old(client.acts) < client.acts && client.Last().Create?
    ensures old(client.states) < client.states
    ensures client.began == old(client.began) && client.rendered == old(client.rendered)
    ensures err != AlreadyExists
    ensures err == Refused ==> client.agent == Idle
    ensures err == Refused <==> client.CallFailed()
    ensures err == NoKindMatch ==> client.agent == old(client.agent).(queue := [], requeue := true)
    ensures err == Created ==> client.agent == old(client.agent).(queue := old(client.agent).queue[1..])
  {
    err := client.Create(m);
    if err == AlreadyExists {
      err := Created;
    }
  }

  /** One turn of the loop over the sorted objects. */
  method ApplyNext(client: Client, objects: array<Manifest>, i: nat) returns (err: Response)
    requires client.Valid() && client.agent.Working? && i < objects.Length && client.agent.queue == objects[i..]
    modifies client
    ensures client.Valid() && old(client.acts) < client.acts && old(client.states) < client.states
    ensures client.began == old(client.began) && client.rendered == old(client.rendered)
    ensures err != AlreadyExists
    ensures err == Refused ==> client.agent == Idle && client.Last().Create? && client.CallFailed()
    ensures err == NoKindMatch ==> client.agent == old(client.agent).(queue := [], requeue := true)
    ensures err == Created ==> client.agent == old(client.agent).(queue := objects[i + 1..])
  {
    assert objects[i..][1..] == objects[i + 1..];
    err := ApplyObject(client, objects[i]);
  }

  /** The loop over the sorted objects, left at the first that cannot be created. */
  method ApplyInOrder(client: Client, objects: array<Manifest>) returns (requeue: bool, failed: bool)
    requires client.Valid() && client.agent.Working? && client.agent.queue == objects[..]
    modifies client
    ensures client.Valid() && old(client.acts) <= client.acts && old(client.states) <= client.states
    ensures client.began == old(client.began) && client.rendered == old(client.rendered)
    ensures failed ==> !requeue && client.agent == Idle && client.Last().Create? && client.CallFailed()
    ensures !failed ==>
      client.agent == old(client.agent).(queue := [], requeue := old(client.agent).requeue || requeue)
  {
    var i := 0;
    while i < objects.Length
      invariant 0 <= i <= objects.Length
      invariant client.Valid() && old(client.acts) <= client.acts && old(client.states) <= client.states
      invariant client.agent == old(client.agent).(queue := objects[i..])
      invariant client.began == old(client.began) && client.rendered == old(client.rendered)
    {
      var err := ApplyNext(client, objects, i);
      if err == NoKindMatch {
        return true, false;
      }
      if err == Refused {
        return false, true;
      }
      i := i + 1;
    }
    return false, false;
  }

  method Apply(client: Client, objects: array<Manifest>) returns (requeue: bool, failed: bool)
    requires client.Valid() && client.agent.Working? && client.agent.queue == []
    requires client.agent.next < client.agent.total
    modifies client, objects
    ensures client.Valid() && old(client.acts) < client.acts && old(client.states) < client.states
    ensures IsArrangement(objects[..], old(objects[..]))
    ensures client.began == old(client.began) && client.rendered == old(client.rendered) + [old(objects[..])]
    ensures failed ==> !requeue && client.agent == Idle && client.Last().Create? && client.CallFailed()
    ensures !failed ==>
      client.agent ==
        old(client.agent).(next := old(client.agent).next + 1, requeue := old(client.agent).requeue || requeue)
  {
    ghost var given := objects[..];
    SortObjectsByHierarchy(objects);
    client.Advance(Render(given, objects[..]));
    requeue, failed := ApplyInOrder(client, objects);
  }

  // -------------------------------------------------------------- the reconciler

  datatype Rendering = Rendered(ms: seq<Manifest>) | NotRendered

  datatype InitTarget = Target(sources: seq<Rendering>) | NoTarget

  datatype Result = Finished(requeueAfter: bool) | Failed

  ghost predicate RenderedAll(sources: seq<Rendering>, rendered: seq<seq<Manifest>>) {
    |rendered| == |sources| && forall i :: 0 <= i < |sources| ==> sources[i] == Rendered(rendered[i])
  }

  /** There is no InitTarget, or one of its sources, after those that were rendered, cannot be. */
  ghost predicate Unrenderable(target: InitTarget, rendered: seq<seq<Manifest>>) {
    target.Target? ==>
      |rendered| < |target.sources| && target.sources[|rendered|].NotRendered? &&
      RenderedAll(target.sources[..|rendered|], rendered)
  }

  /** Removes the own initializer from lc in place, and from the cluster if that made a difference. What
      lc held is kept in a copy of its own, so that the two can be compared. */
  method RemoveInitializer(client: Client, lc: LogicalCluster) returns (ok: bool, ghost kept: LogicalCluster)
    requires client.Valid() && AtEnd(client.agent) && !client.agent.requeue
    requires lc.Valid() && lc.Contents() == client.agent.snapshot
    modifies client, lc, lc.items
    ensures client.Valid() && lc.Valid() && lc.Contents() == Without(old(lc.Contents()), client.own)
    ensures fresh(kept) && kept.Valid() && fresh(kept.items) && kept.Contents() == old(lc.Contents())
    ensures client.rendered == old(client.rendered) && client.began == old(client.began)
    ensures old(client.states) <= client.states
    ensures client.own !in old(lc.Contents()) ==> ok && client.acts == old(client.acts)
    ensures client.own in old(lc.Contents()) ==>
      client.agent == Idle && old(client.acts) < client.acts && client.Last().Patch? &&
      (ok <==> client.Last() == Patch(NoFault)) && (ok <==> !client.CallFailed()) &&
      (ok ==> client.cluster.initializers == lc.Contents()) && client.Delivered()
  {
    var oldCluster := lc.DeepCopy();
    kept := oldCluster;
    var count := DeleteFunc(lc.items, lc.count, client.own, "");
    lc.count := count;
    WithoutAbsent(oldCluster.Contents(), client.own);
    if lc.count != oldCluster.count {
      ok := client.Patch(lc, oldCluster);
    } else {
      ok := true;
    }
  }

  /** Renders and applies one source. */
  method ReconcileSource(client: Client, source: Rendering) returns (srcNeedRequeue: bool, failed: bool)
    requires client.Valid() && client.agent.Working? && client.agent.queue == []
    requires client.agent.next < client.agent.total
    modifies client
    ensures client.Valid() && old(client.acts) < client.acts && client.began == old(client.began)
    ensures old(client.states) < client.states
    ensures failed ==> client.agent == Idle
    ensures source.NotRendered? ==> failed && client.Last() == Abort && client.rendered == old(client.rendered)
    ensures source.Rendered? && failed ==> client.Last().Create? && client.CallFailed()
    ensures !failed ==> source.Rendered? && client.rendered == old(client.rendered) + [source.ms]
    ensures !failed ==>
      client.agent ==
        old(client.agent).(next := old(client.agent).next + 1, requeue := old(client.agent).requeue || srcNeedRequeue)
  {
    if source == NotRendered {
      client.Advance(Abort);
      return false, true;
    }
    var ms := source.ms;
    var objects := new Manifest[|ms|](i requires 0 <= i < |ms| => ms[i]);
    assert objects[..] == ms;
    srcNeedRequeue, failed := Apply(client, objects);
  }

  lemma RenderedNext(sources: seq<Rendering>, idx: nat, rendered: seq<seq<Manifest>>)
    requires idx < |sources| && RenderedAll(sources[..idx], rendered) && sources[idx].Rendered?
    ensures RenderedAll(sources[..idx + 1], rendered + [sources[idx].ms])
  {
  }

  /** The loop over the sources, left at the first that fails. */
  method ReconcileEach(client: Client, sources: seq<Rendering>) returns (requeue: bool, failed: bool)
    requires client.Valid() && client.agent.Working? && client.agent.queue == [] && client.rendered == []
    requires client.agent.total == |sources| && client.agent.next == 0 && !client.agent.requeue
    modifies client
    ensures client.Valid() && old(client.acts) <= client.acts && old(client.states) <= client.states
    ensures client.began == old(client.began)
    ensures !failed ==> client.agent == old(client.agent).(next := |sources|, requeue := requeue)
    ensures !failed ==> RenderedAll(sources, client.rendered)
    ensures failed ==> client.agent == Idle && client.acts != []
    ensures failed && client.Last() == Abort ==> Unrenderable(Target(sources), client.rendered)
    ensures failed && client.Last() != Abort ==> client.Last().Create? && client.CallFailed()
  {
    requeue := false;
    var idx := 0;
    while idx < |sources|
      invariant 0 <= idx <= |sources|
      invariant client.Valid() && old(client.acts) <= client.acts && old(client.states) <= client.states
      invariant client.began == old(client.began)
      invariant client.agent == old(client.agent).(next := idx, requeue := requeue)
      invariant RenderedAll(sources[..idx], client.rendered)
    {
      ghost var before := client.rendered;
      var srcNeedRequeue;
      srcNeedRequeue, failed := ReconcileSource(client, sources[idx]);
      if failed {
        return requeue, true;
      }
      RenderedNext(sources, idx, before);
      if srcNeedRequeue {
        requeue := true;
      }
      idx := idx + 1;
    }
    assert sources[..idx] == sources;
    failed := false;
  }

  /** The pass over the sources of the InitTarget as it is now. */
  method ReconcileSources(client: Client, lc: LogicalCluster, target: InitTarget) returns (requeue: bool, failed: bool)
    requires client.Valid() && lc.Valid() && client.agent == Read(lc.Contents())
    requires client.own in lc.Contents() && client.rendered == []
    modifies client, lc, lc.items
    ensures client.Valid() && client.agent == Idle && old(client.acts) < client.acts
    ensures old(client.states) < client.states
    ensures client.began == old(client.began)
    ensures !failed && requeue <==> client.Last() == Requeue
    ensures !failed && !requeue <==> client.Last() == Patch(NoFault)
    ensures failed <==> client.Last() == Abort || client.CallFailed()
    ensures client.Last() == Abort ==> Unrenderable(target, client.rendered)
    ensures !failed ==> target.Target? && RenderedAll(target.sources, client.rendered)
    ensures !failed && !requeue ==> client.own !in client.cluster.initializers && client.Delivered()
    ensures !client.Last().ReadCluster?
  {
    requeue := false;
    if target == NoTarget {
      client.Advance(Abort);
      return requeue, true;
    }
    client.Advance(ReadTarget(|target.sources|));
    requeue, failed := ReconcileEach(client, target.sources);
    if failed {
      return requeue, true;
    }
    if requeue {
      client.Advance(Requeue);
      return requeue, false;
    }
    ghost var kept;
    var ok;
    ok, kept := RemoveInitializer(client, lc);
    return false, !ok;
  }

  /** One reconciliation, from the first read to the result. When it reports to be finished
      for good, either the initializer was not there, or it is gone now and every manifest
      of every source is stored, unless somebody deleted it meanwhile. */
  method Reconcile(client: Client, target: InitTarget) returns (result: Result)
    requires client.Valid() && client.agent == Idle
    modifies client
    ensures client.Valid() && client.agent == Idle && old(client.acts) < client.acts
    ensures old(client.states) < client.states
    ensures result == Finished(true) <==> client.Last() == Requeue
    ensures result == Finished(false) <==>
      client.Last() == Patch(NoFault) ||
      (client.Last().ReadCluster? && client.own !in client.Last().snapshot)
    ensures result == Failed <==> client.Last() == Abort || client.CallFailed()
    ensures old(client.Due()).fault != NoFault ==> result == Failed && client.Last() == Abort
    ensures old(client.Due()).fault == NoFault && client.Last() == Abort ==> Unrenderable(target, client.rendered)
    ensures client.Last() == Requeue ==> target.Target? && RenderedAll(target.sources, client.rendered)
    ensures client.Last() == Patch(NoFault) ==>
      target.Target? && RenderedAll(target.sources, client.rendered) &&
      client.own !in client.cluster.initializers && |old(client.acts)| <= client.began && client.Delivered()
  {
    var lc := client.Get();
    if lc == null {
      return Failed;
    }
    if client.own !in lc.Contents() {
      return Finished(false);
    }
    var requeue, failed := ReconcileSources(client, lc, target);
    return if failed then Failed else Finished(requeue);
  }
}
