/** Runs whose sources render to the same manifests in every pass: how many passes
    they take, and what they leave in the cluster. */
module Convergence {
  import opened Manifests
  import opened Slices
  import opened Protocol
  import opened Safety
  import opened Hierarchy

  type Sources = seq<seq<Manifest>>

  ghost predicate Deterministic(states: seq<State>, acts: seq<Action>, sources: Sources)
    requires IsRun(states, acts)
  {
    forall i {:trigger acts[i]} :: 0 <= i < |acts| ==>
      (acts[i].ReadTarget? ==> acts[i].total == |sources|) &&
      (acts[i].Render? && states[i].agent.Working? ==>
        states[i].agent.next < |sources| && acts[i].ms == sources[states[i].agent.next])
  }

  lemma {:induction false} RendersPrefix(states: seq<State>, acts: seq<Action>, b: nat, e: nat, sources: Sources)
    requires IsRun(states, acts) && InPass(states, acts, b, e) && Deterministic(states, acts, sources)
    ensures states[e].agent.Read? ==> Renderings(acts, b, e) == []
    ensures states[e].agent.Working? ==>
      states[e].agent.total == |sources| && states[e].agent.next <= |sources| &&
      Renderings(acts, b, e) == sources[..states[e].agent.next]
  {
    var s, a := states[e - 1], acts[e - 1];
    assert Enabled(s, a) && states[e - 1 + 1] == Step(s, a);
    if b == e - 1 {
    } else {
      RendersPrefix(states, acts, b, e - 1, sources);
      if a.Render? {
        RendersNext(sources, s.agent.next);
      }
    }
  }

  lemma RendersNext(sources: Sources, n: nat)
    requires n < |sources|
    ensures sources[..n] + [sources[n]] == sources[..n + 1]
  {
  }

  lemma QueueFromSources(states: seq<State>, acts: seq<Action>, e: nat, sources: Sources, m: Manifest)
    requires IsHistory(states, acts) && Deterministic(states, acts, sources)
    requires e <= |acts| && states[e].agent.Working? && m in states[e].agent.queue
    ensures Among(m, sources)
  {
    var b := PassHasBegun(states, acts, e);
    QueueStaysInOrder(states, acts, b, e);
    RenderedInIsAmong(acts, b, e, m);
    RendersPrefix(states, acts, b, e, sources);
    var i :| 0 <= i < |Renderings(acts, b, e)| && m in Renderings(acts, b, e)[i];
    assert m in sources[i];
  }

  // ------------------------------------------------------------------ confluence

  /** In the first k steps nobody else writes or deletes the object under this key. */
  ghost predicate Untouched(acts: seq<Action>, k: nat, key: ObjectKey)
    requires k <= |acts|
  {
    !WrittenIn(acts, 0, k, key) && !DeletedIn(acts, 0, k, key)
  }

  /** All manifests for this key have the same content. */
  ghost predicate ContentFixed(sources: Sources, key: ObjectKey) {
    forall m, m' :: Among(m, sources) && Among(m', sources) && KeyOf(m) == KeyOf(m') == key ==> m.content == m'.content
  }

  /** From the removal of the initializer on, a key that others leave alone is there exactly if it was there at
      first or some manifest has it; it holds its first object untouched, or that of a manifest. */
  lemma CompletedKeys(states: seq<State>, acts: seq<Action>, p: nat, k: nat, sources: Sources, key: ObjectKey)
    requires IsHistory(states, acts) && Deterministic(states, acts, sources)
    requires p < |acts| && acts[p].Patch? && p <= k <= |acts| && Untouched(acts, k, key)
    ensures key in states[k].cluster.objects <==>
      key in states[0].cluster.objects || exists m :: Among(m, sources) && KeyOf(m) == key
    ensures key in states[0].cluster.objects ==> states[k].cluster.objects[key] == states[0].cluster.objects[key]
    ensures key in states[k].cluster.objects && key !in states[0].cluster.objects ==>
      exists m :: Among(m, sources) && KeyOf(m) == key && m.content == states[k].cluster.objects[key]
  {
    if key in states[0].cluster.objects {
      FirstWriterWins(states, acts, 0, k, key);
    } else if key in states[k].cluster.objects {
      var c := NewObjectsAreManifests(states, acts, 0, k, key);
      QueueFromSources(states, acts, c, sources, states[c].agent.queue[0]);
    }
    if m :| Among(m, sources) && KeyOf(m) == key {
      ManifestsStored(states, acts, p, k, sources, m);
    }
  }

  lemma ManifestsStored(states: seq<State>, acts: seq<Action>, p: nat, k: nat, sources: Sources, m: Manifest)
    requires IsHistory(states, acts) && Deterministic(states, acts, sources) && Among(m, sources)
    requires p < |acts| && acts[p].Patch? && p <= k <= |acts| && !DeletedIn(acts, 0, k, KeyOf(m))
    ensures Stored(states[k].cluster, m)
  {
    var b := RemovalIsSafe(states, acts, p);
    assert Enabled(states[p], acts[p]);
    RendersPrefix(states, acts, b, p, sources);
    assert Renderings(acts, b, p) == sources;
    assert Kept(states, acts, b, p, k, m);
  }

  /** Any two completed runs over the same sources agree on every key that others touch in neither of them and
      that both found the same: whatever happens to other keys, and whatever the ties, crashes, faults, requeues
      and the moments at which kinds became served. */
  lemma Confluent(states: seq<State>, acts: seq<Action>, p: nat, k: nat,
                  states': seq<State>, acts': seq<Action>, p': nat, k': nat, sources: Sources, key: ObjectKey)
    requires IsHistory(states, acts) && Deterministic(states, acts, sources)
    requires IsHistory(states', acts') && Deterministic(states', acts', sources)
    requires p < |acts| && acts[p].Patch? && p <= k <= |acts| && Untouched(acts, k, key)
    requires p' < |acts'| && acts'[p'].Patch? && p' <= k' <= |acts'| && Untouched(acts', k', key)
    requires key in states[0].cluster.objects <==> key in states'[0].cluster.objects
    requires key in states[0].cluster.objects ==>
      states[0].cluster.objects[key] == states'[0].cluster.objects[key]
    ensures key in states[k].cluster.objects <==> key in states'[k'].cluster.objects
    ensures ContentFixed(sources, key) && key in states[k].cluster.objects ==>
      states[k].cluster.objects[key] == states'[k'].cluster.objects[key]
  {
    CompletedKeys(states, acts, p, k, sources, key);
    CompletedKeys(states', acts', p', k', sources, key);
  }

  /** If others touch no object at all, the runs end with the same objects. */
  lemma ConfluentObjects(states: seq<State>, acts: seq<Action>, p: nat,
                         states': seq<State>, acts': seq<Action>, p': nat, sources: Sources)
    requires IsHistory(states, acts) && Deterministic(states, acts, sources)
    requires IsHistory(states', acts') && Deterministic(states', acts', sources)
    requires p < |acts| && acts[p].Patch? && forall key :: Untouched(acts, |acts|, key)
    requires p' < |acts'| && acts'[p'].Patch? && forall key :: Untouched(acts', |acts'|, key)
    requires states[0].cluster.objects == states'[0].cluster.objects
    ensures states[|acts|].cluster.objects.Keys == states'[|acts'|].cluster.objects.Keys
    ensures (forall key :: ContentFixed(sources, key)) ==>
      states[|acts|].cluster.objects == states'[|acts'|].cluster.objects
  {
    var objects, objects' := states[|acts|].cluster.objects, states'[|acts'|].cluster.objects;
    forall key: ObjectKey
      ensures key in objects <==> key in objects'
      ensures ContentFixed(sources, key) && key in objects ==> objects[key] == objects'[key]
    {
      Confluent(states, acts, p, |acts|, states', acts', p', |acts'|, sources, key);
    }
  }

  // ------------------------------------------------------ namespaces of the sources

  ghost predicate DeclaredUpTo(sources: Sources, j: nat, namespace: string) {
    exists d: nat, x :: d <= j && d < |sources| && x in sources[d] && KeyOf(x) == NamespaceKey(namespace)
  }

  /** Source j holds m, whose namespace is not there and not declared by this source or an earlier one. */
  ghost predicate LacksNamespace(objects: map<ObjectKey, string>, sources: Sources, j: nat, m: Manifest) {
    j < |sources| && m in sources[j] && m.namespace != "" &&
    NamespaceKey(m.namespace) !in objects && !DeclaredUpTo(sources, j, m.namespace)
  }

  ghost predicate Closed(objects: map<ObjectKey, string>, sources: Sources) {
    forall j: nat, m :: !LacksNamespace(objects, sources, j, m)
  }

  /** Nobody deletes a namespace that the sources use; others may well create some. */
  ghost predicate NamespacesStay(acts: seq<Action>, sources: Sources) {
    forall m :: Among(m, sources) && m.namespace != "" ==> !DeletedIn(acts, 0, |acts|, NamespaceKey(m.namespace))
  }

  /** Nobody else creates one either. */
  ghost predicate NoneProvided(acts: seq<Action>, sources: Sources) {
    forall m :: Among(m, sources) && m.namespace != "" ==> !WrittenIn(acts, 0, |acts|, NamespaceKey(m.namespace))
  }

  ghost predicate ScopedRight(sources: Sources) {
    forall m :: Among(m, sources) && Ranked(m) ==> m.namespace == ""
  }

  ghost predicate RankedAlwaysServed(states: seq<State>, sources: Sources) {
    forall i, m :: 0 <= i < |states| && Among(m, sources) && Ranked(m) ==> m.gvk in states[i].cluster.served
  }

  /** Rendering j of a pass is of the source that the loop has come to. */
  lemma RenderedSource(states: seq<State>, acts: seq<Action>, j: nat, sources: Sources, m: Manifest) returns (idx: nat)
    requires IsRun(states, acts) && Deterministic(states, acts, sources) && j < |acts| && RenderedAt(acts, j, m)
    ensures states[j].agent.Working? && idx == states[j].agent.next < |sources|
    ensures m in sources[idx] && Among(m, sources)
  {
    assert Enabled(states[j], acts[j]);
    idx := states[j].agent.next;
  }

  /** Every source that the loop has passed was rendered in this pass. */
  lemma {:induction false} PassedWasRendered(states: seq<State>, acts: seq<Action>, b: nat, e: nat,
                                             sources: Sources, d: nat) returns (r: nat)
    requires IsRun(states, acts) && InPass(states, acts, b, e) && Deterministic(states, acts, sources)
    requires states[e].agent.Working? && d < states[e].agent.next
    ensures b < r < e && acts[r].Render? && d < |sources| && acts[r].ms == sources[d]
  {
    var s, a := states[e - 1], acts[e - 1];
    assert Enabled(s, a) && states[e - 1 + 1] == Step(s, a);
    if a.Render? && d == s.agent.next {
      r := e - 1;
    } else {
      r := PassedWasRendered(states, acts, b, e - 1, sources, d);
    }
  }

  lemma ClosedPass(states: seq<State>, acts: seq<Action>, b: nat, e: nat, sources: Sources)
    requires IsHistory(states, acts) && InPass(states, acts, b, e) && Deterministic(states, acts, sources)
    requires Closed(states[0].cluster.objects, sources) && NamespacesStay(acts, sources)
    ensures NamespacesClosed(states, acts, b, e)
  {
    forall j, m | b < j < e && RenderedAt(acts, j, m) && m.namespace != ""
      ensures NamespaceKey(m.namespace) in states[b].cluster.objects || DeclaredBy(acts, b, j, m.namespace)
      ensures !DeletedIn(acts, b, e, NamespaceKey(m.namespace))
    {
      NamespaceInTime(states, acts, b, j, sources, m);
      assert !DeletedIn(acts, 0, |acts|, NamespaceKey(m.namespace));
    }
  }

  lemma NamespaceInTime(states: seq<State>, acts: seq<Action>, b: nat, j: nat, sources: Sources, m: Manifest)
    requires IsHistory(states, acts) && j < |acts| && Deterministic(states, acts, sources)
    requires InPass(states, acts, b, j + 1) && b < j && RenderedAt(acts, j, m) && m.namespace != ""
    requires Closed(states[0].cluster.objects, sources) && NamespacesStay(acts, sources)
    ensures Among(m, sources)
    ensures NamespaceKey(m.namespace) in states[b].cluster.objects || DeclaredBy(acts, b, j, m.namespace)
  {
    var idx := RenderedSource(states, acts, j, sources, m);
    assert !LacksNamespace(states[0].cluster.objects, sources, idx, m);
    if NamespaceKey(m.namespace) in states[0].cluster.objects {
      ObjectsStay(states, acts, 0, b, NamespaceKey(m.namespace));
      assert !DeletedIn(acts, 0, |acts|, NamespaceKey(m.namespace));
    } else {
      var d: nat, x :| d <= idx && x in sources[d] && KeyOf(x) == NamespaceKey(m.namespace);
      assert Enabled(states[j], acts[j]) && states[j + 1] == Step(states[j], acts[j]);
      var r := PassedWasRendered(states, acts, b, j + 1, sources, d);
      assert RenderedAt(acts, r, x);
    }
  }

  /** With closed sources no create call of any run is refused for want of a namespace. */
  lemma ClosedNeverRefused(states: seq<State>, acts: seq<Action>, e: nat, sources: Sources)
    requires IsHistory(states, acts) && Deterministic(states, acts, sources)
    requires e <= |acts| && states[e].agent.Working? && states[e].agent.queue != []
    requires RankedAlwaysServed(states, sources) && ScopedRight(sources) && NamespacesStay(acts, sources)
    requires Closed(states[0].cluster.objects, sources)
    ensures Respond(states[e].cluster, states[e].agent.queue[0]) != Refused
  {
    var b := PassHasBegun(states, acts, e);
    ClosedPass(states, acts, b, e, sources);
    forall m | RenderedIn(acts, b, e, m) ensures Among(m, sources) {
      var j :| b < j < e && RenderedAt(acts, j, m);
      var _ := RenderedSource(states, acts, j, sources, m);
    }
    NamespacesAreThere(states, acts, b, e);
  }

  ghost predicate SourceServed(states: seq<State>, source: seq<Manifest>) {
    forall i, x :: 0 <= i < |states| && x in source ==> x.gvk in states[i].cluster.served
  }

  /** The agent is not past m in source j. */
  ghost predicate BeforeManifest(agent: Agent, sources: Sources, j: nat, m: Manifest) {
    agent.Working? ==>
      agent.total == |sources| && agent.next <= j + 1 && (agent.next == j + 1 ==> m in agent.queue) &&
      forall x :: x in agent.queue ==> 0 < agent.next <= |sources| && x in sources[agent.next - 1]
  }

  lemma BeforeStep(s: State, a: Action, sources: Sources, j: nat, m: Manifest)
    requires Enabled(s, a) && BeforeManifest(s.agent, sources, j, m)
    requires LacksNamespace(s.cluster.objects, sources, j, m)
    requires forall x :: x in sources[j] ==> x.gvk in s.cluster.served
    requires a.ReadTarget? ==> a.total == |sources|
    requires a.Render? ==> s.agent.next < |sources| && a.ms == sources[s.agent.next]
    requires !(a.Env? && a.e.Write? && a.e.key == NamespaceKey(m.namespace))
    ensures BeforeManifest(Step(s, a).agent, sources, j, m)
    ensures NamespaceKey(m.namespace) !in Step(s, a).cluster.objects
  {
    if a.Render? {
      ArrangementMembers(a.sorted, a.ms);
    } else if a.Create? {
      BeforeCreate(s, a.fault, sources, j, m);
    }
  }

  lemma BeforeCreate(s: State, fault: Fault, sources: Sources, j: nat, m: Manifest)
    requires s.agent.Working? && s.agent.queue != [] && BeforeManifest(s.agent, sources, j, m)
    requires fault == ReplyLost ==> Respond(s.cluster, s.agent.queue[0]) == Created
    requires LacksNamespace(s.cluster.objects, sources, j, m)
    requires forall x :: x in sources[j] ==> x.gvk in s.cluster.served
    ensures BeforeManifest(CreateStep(s, fault).agent, sources, j, m)
    ensures NamespaceKey(m.namespace) !in CreateStep(s, fault).cluster.objects
  {
    var head := s.agent.queue[0];
    assert head in s.agent.queue && head in sources[s.agent.next - 1];
    assert s.agent.queue == [head] + s.agent.queue[1..];
    assert forall x :: x in s.agent.queue[1..] ==> x in s.agent.queue;
    assert KeyOf(head) == NamespaceKey(m.namespace) ==> DeclaredUpTo(sources, j, m.namespace);
  }

  lemma {:induction false} StaysBefore(states: seq<State>, acts: seq<Action>, n: nat,
                                       sources: Sources, j: nat, m: Manifest)
    requires IsHistory(states, acts) && n <= |acts| && Deterministic(states, acts, sources)
    requires LacksNamespace(states[0].cluster.objects, sources, j, m) && SourceServed(states, sources[j])
    requires !WrittenIn(acts, 0, |acts|, NamespaceKey(m.namespace))
    ensures BeforeManifest(states[n].agent, sources, j, m)
    ensures NamespaceKey(m.namespace) !in states[n].cluster.objects
  {
    if n == 0 {
    } else {
      StaysBefore(states, acts, n - 1, sources, j, m);
      assert Enabled(states[n - 1], acts[n - 1]) && states[n - 1 + 1] == Step(states[n - 1], acts[n - 1]);
      BeforeStep(states[n - 1], acts[n - 1], sources, j, m);
    }
  }

  /** A source that lacks the namespace of one of its manifests keeps every pass of every run from getting
      past it: later sources are never rendered, even if one of them declares the namespace, and the
      initializer is never removed. */
  lemma NamespaceDeclaredTooLate(states: seq<State>, acts: seq<Action>, i: nat, sources: Sources, j: nat, m: Manifest)
    requires IsHistory(states, acts) && i < |acts| && Deterministic(states, acts, sources)
    requires LacksNamespace(states[0].cluster.objects, sources, j, m) && SourceServed(states, sources[j])
    requires !WrittenIn(acts, 0, |acts|, NamespaceKey(m.namespace))
    ensures !acts[i].Patch? && !acts[i].Requeue?
    ensures acts[i].Render? ==> states[i].agent.Working? && states[i].agent.next <= j
  {
    StaysBefore(states, acts, i, sources, j, m);
    assert Enabled(states[i], acts[i]);
  }

  ghost predicate EndsPass(states: seq<State>, i: nat)
    requires i + 1 < |states|
  {
    !states[i].agent.Idle? && states[i + 1].agent.Idle?
  }

  /** A failed read or rendering, a crash, or a call that went wrong: not for anything that is in the sources. */
  predicate Interrupts(a: Action) {
    a.Abort? || (a.Create? && a.fault != NoFault) || a == Patch(Rejected)
  }

  lemma PassEnd(states: seq<State>, acts: seq<Action>, i: nat)
    requires IsRun(states, acts) && i < |acts| && EndsPass(states, i) && !Interrupts(acts[i])
    ensures acts[i].Requeue? || acts[i].Patch? || RefusedAt(states, acts, i)
  {
    assert Enabled(states[i], acts[i]) && states[i + 1] == Step(states[i], acts[i]);
  }

  /** With all kinds of the sources served, a pass that nothing interrupts removes the initializer exactly
      if the sources are closed under namespaces; else it ends with a create call that is refused. */
  lemma PassCompletesIffClosed(states: seq<State>, acts: seq<Action>, i: nat, sources: Sources)
    requires IsHistory(states, acts) && Deterministic(states, acts, sources)
    requires forall n :: 0 <= n < |states| ==> Missing(states[n].cluster, sources) == {}
    requires ScopedRight(sources) && NamespacesStay(acts, sources) && NoneProvided(acts, sources)
    requires i < |acts| && EndsPass(states, i) && !Interrupts(acts[i])
    ensures acts[i].Patch? <==> Closed(states[0].cluster.objects, sources)
    ensures RefusedAt(states, acts, i) <==> !Closed(states[0].cluster.objects, sources)
  {
    PassEnd(states, acts, i);
    var b := PassHasBegun(states, acts, i);
    NothingMissingNoRequeue(states, acts, b, i, sources);
    assert Enabled(states[i], acts[i]);
    AllServed(states, sources);
    if Closed(states[0].cluster.objects, sources) {
      if acts[i].Create? {
        ClosedNeverRefused(states, acts, i, sources);
      }
    } else {
      var j: nat, m :| LacksNamespace(states[0].cluster.objects, sources, j, m);
      assert Among(m, sources);
      NamespaceDeclaredTooLate(states, acts, i, sources, j, m);
    }
  }

  lemma AllServed(states: seq<State>, sources: Sources)
    requires forall n :: 0 <= n < |states| ==> Missing(states[n].cluster, sources) == {}
    ensures RankedAlwaysServed(states, sources)
    ensures forall j :: 0 <= j < |sources| ==> SourceServed(states, sources[j])
  {
    forall i, m | 0 <= i < |states| && Among(m, sources) ensures m.gvk in states[i].cluster.served {
      KindsOfAmong(m, sources);
      assert m.gvk !in Missing(states[i].cluster, sources);
    }
    forall j | 0 <= j < |sources| ensures SourceServed(states, sources[j]) {
      assert forall x :: x in sources[j] ==> Among(x, sources);
    }
  }

  const CONFIG_MAP := Manifest(GroupVersionKind("", "v1", "ConfigMap"), "ns", "cm", "")
  const NAMESPACE := Manifest(GroupVersionKind("", "v1", "Namespace"), "", "ns", "")

  const TOO_LATE: Sources := [[CONFIG_MAP], [NAMESPACE]]

  /** A ConfigMap in the first source, its namespace in the second: the pass fails at its first create call. */
  lemma TooLateExample() returns (states: seq<State>, acts: seq<Action>)
    ensures IsHistory(states, acts) && Deterministic(states, acts, TOO_LATE)
    ensures forall n :: 0 <= n < |states| ==> states[n].cluster.served == {CONFIG_MAP.gvk, NAMESPACE.gvk}
    ensures acts == [ReadCluster(["own"]), ReadTarget(2), Render([CONFIG_MAP], [CONFIG_MAP]), Create(NoFault)]
    ensures states[0].cluster.objects == map[] && states[4] == states[0]
    ensures Respond(states[3].cluster, CONFIG_MAP) == Refused
  {
    var c := Cluster(map[], {CONFIG_MAP.gvk, NAMESPACE.gvk}, ["own"]);
    acts := [ReadCluster(["own"]), ReadTarget(2), Render([CONFIG_MAP], [CONFIG_MAP]), Create(NoFault)];
    states := [
      State("own", c, Idle),
      State("own", c, Read(["own"])),
      State("own", c, Working(["own"], 2, 0, [], false)),
      State("own", c, Working(["own"], 2, 1, [CONFIG_MAP], false)),
      State("own", c, Idle)];
  }

  lemma TooLateLacks()
    ensures LacksNamespace(map[], TOO_LATE, 0, CONFIG_MAP) && DeclaredUpTo(TOO_LATE, 1, CONFIG_MAP.namespace)
  {
    assert 1 < |TOO_LATE| && NAMESPACE in TOO_LATE[1] && KeyOf(NAMESPACE) == NamespaceKey(CONFIG_MAP.namespace);
  }

  // ----------------------------------------------------------------- convergence

  function Kinds(sources: Sources): set<GroupVersionKind> {
    set i, j | 0 <= i < |sources| && 0 <= j < |sources[i]| :: sources[i][j].gvk
  }

  function Missing(c: Cluster, sources: Sources): set<GroupVersionKind> {
    Kinds(sources) - c.served
  }

  lemma KindsOfAmong(m: Manifest, sources: Sources)
    requires Among(m, sources)
    ensures m.gvk in Kinds(sources)
  {
    var i :| 0 <= i < |sources| && m in sources[i];
    var j :| 0 <= j < |sources[i]| && sources[i][j] == m;
    assert sources[i][j].gvk in Kinds(sources);
  }

  ghost predicate NoneWithdrawn(acts: seq<Action>) {
    forall i :: 0 <= i < |acts| ==> !(acts[i].Env? && acts[i].e.Withdraw?)
  }

  ghost predicate StartsPass(states: seq<State>, acts: seq<Action>, b: nat)
    requires IsRun(states, acts)
  {
    b < |acts| && acts[b].ReadCluster? && states[b].own in acts[b].snapshot
  }

  /** The pass that action b began asked at q to run again. */
  ghost predicate Requeued(states: seq<State>, acts: seq<Action>, b: nat, q: nat)
    requires IsRun(states, acts)
  {
    q < |acts| && InPass(states, acts, b, q) && acts[q].Requeue?
  }

  /** From the start of a pass that asks to run again to the start of any later one, at least one more
      needed kind is served, if any is missing. */
  ghost predicate KindsArrive(states: seq<State>, acts: seq<Action>, sources: Sources)
    requires IsRun(states, acts)
  {
    forall b: nat, q: nat, b': nat :: q < b' && Requeued(states, acts, b, q) && StartsPass(states, acts, b') ==>
      Missing(states[b'].cluster, sources) < Missing(states[b].cluster, sources) ||
      Missing(states[b].cluster, sources) == {}
  }

  lemma {:induction false} MissingShrinks(states: seq<State>, acts: seq<Action>, i: nat, j: nat, sources: Sources)
    requires IsRun(states, acts) && NoneWithdrawn(acts) && i <= j <= |acts|
    ensures Missing(states[j].cluster, sources) <= Missing(states[i].cluster, sources)
  {
    if i == j {
    } else {
      MissingShrinks(states, acts, i, j - 1, sources);
      assert Enabled(states[j - 1], acts[j - 1]) && states[j - 1 + 1] == Step(states[j - 1], acts[j - 1]);
    }
  }

  lemma {:induction false} NothingMissingNoRequeue(states: seq<State>, acts: seq<Action>, b: nat, e: nat,
                                                   sources: Sources)
    requires IsHistory(states, acts) && InPass(states, acts, b, e) && Deterministic(states, acts, sources)
    requires forall n :: b <= n <= e ==> Missing(states[n].cluster, sources) == {}
    ensures states[e].agent.Working? ==> !states[e].agent.requeue
  {
    var s, a := states[e - 1], acts[e - 1];
    assert Enabled(s, a) && states[e - 1 + 1] == Step(s, a);
    if b == e - 1 {
    } else {
      NothingMissingNoRequeue(states, acts, b, e - 1, sources);
      if a.Create? {
        QueueFromSources(states, acts, e - 1, sources, s.agent.queue[0]);
        KindsOfAmong(s.agent.queue[0], sources);
        assert s.agent.queue[0].gvk !in Missing(s.cluster, sources);
      }
    }
  }

  /** A pass that asks to run again began with a needed kind missing. */
  lemma RequeueMeansMissing(states: seq<State>, acts: seq<Action>, b: nat, q: nat, sources: Sources)
    requires IsHistory(states, acts) && Deterministic(states, acts, sources) && NoneWithdrawn(acts)
    requires Requeued(states, acts, b, q)
    ensures Missing(states[b].cluster, sources) != {}
  {
    assert Enabled(states[q], acts[q]);
    if Missing(states[b].cluster, sources) == {} {
      forall n | b <= n <= q ensures Missing(states[n].cluster, sources) == {} {
        MissingShrinks(states, acts, b, n, sources);
      }
      NothingMissingNoRequeue(states, acts, b, q, sources);
    }
  }

  function Requeues(acts: seq<Action>, e: nat): nat
    requires e <= |acts|
  {
    if e == 0 then 0 else Requeues(acts, e - 1) + if acts[e - 1].Requeue? then 1 else 0
  }

  /** The measure after e steps, the latest pass that asked to run again being the one from b to q. */
  ghost predicate Budget(states: seq<State>, acts: seq<Action>, b: nat, q: nat, e: nat, sources: Sources)
    requires IsRun(states, acts) && e <= |acts|
  {
    q < e && Requeued(states, acts, b, q) && Missing(states[b].cluster, sources) != {} &&
    Requeues(acts, e) + |Missing(states[b].cluster, sources)| <= |Missing(states[0].cluster, sources)| + 1
  }

  lemma Smaller<T>(a: set<T>, b: set<T>)
    requires a <= b
    ensures |a| <= |b| && (a != b ==> |a| < |b|)
  {
    assert b == a + (b - a);
    assert a != b ==> b - a != {};
  }

  lemma {:induction false} BudgetHolds(states: seq<State>, acts: seq<Action>, e: nat, sources: Sources)
      returns (b: nat, q: nat)
    requires IsHistory(states, acts) && e <= |acts| && Deterministic(states, acts, sources)
    requires NoneWithdrawn(acts) && KindsArrive(states, acts, sources)
    ensures Requeues(acts, e) == 0 || Budget(states, acts, b, q, e, sources)
  {
    if e == 0 {
      b, q := 0, 0;
    } else {
      b, q := BudgetHolds(states, acts, e - 1, sources);
      if acts[e - 1].Requeue? {
        b := RequeueSpends(states, acts, b, q, e - 1, sources);
        q := e - 1;
      }
    }
  }

  lemma RequeueSpends(states: seq<State>, acts: seq<Action>, b: nat, q: nat, e: nat, sources: Sources) returns (b': nat)
    requires IsHistory(states, acts) && e < |acts| && Deterministic(states, acts, sources)
    requires NoneWithdrawn(acts) && KindsArrive(states, acts, sources)
    requires acts[e].Requeue? && (Requeues(acts, e) == 0 || Budget(states, acts, b, q, e, sources))
    ensures Budget(states, acts, b', e, e + 1, sources)
  {
    b' := PassWasStarted(states, acts, e);
    RequeueMeansMissing(states, acts, b', e, sources);
    MissingShrinks(states, acts, 0, b', sources);
    Smaller(Missing(states[b'].cluster, sources), Missing(states[0].cluster, sources));
    if Requeues(acts, e) != 0 {
      LaterPass(states, acts, b, q, b', e);
      Smaller(Missing(states[b'].cluster, sources), Missing(states[b].cluster, sources));
    }
  }

  lemma PassWasStarted(states: seq<State>, acts: seq<Action>, q: nat) returns (b: nat)
    requires IsHistory(states, acts) && q < |acts| && acts[q].Requeue?
    ensures Requeued(states, acts, b, q) && StartsPass(states, acts, b)
  {
    assert Enabled(states[q], acts[q]);
    b := PassHasBegun(states, acts, q);
    assert Enabled(states[b], acts[b]) && states[b + 1] == Step(states[b], acts[b]);
  }

  lemma LaterPass(states: seq<State>, acts: seq<Action>, b: nat, q: nat, b': nat, e: nat)
    requires IsRun(states, acts) && q < e && Requeued(states, acts, b, q) && Requeued(states, acts, b', e)
    ensures q < b'
  {
    assert Enabled(states[q], acts[q]) && states[q + 1] == Step(states[q], acts[q]);
    assert states[q + 1].agent.Idle?;
    assert Enabled(states[b'], acts[b']);
  }

  /** With k needed kinds missing at first, at most k passes ever ask to run again. */
  lemma RequeuesBounded(states: seq<State>, acts: seq<Action>, e: nat, sources: Sources)
    requires IsHistory(states, acts) && e <= |acts| && Deterministic(states, acts, sources)
    requires NoneWithdrawn(acts) && KindsArrive(states, acts, sources)
    ensures Requeues(acts, e) <= |Missing(states[0].cluster, sources)|
  {
    var b, q := BudgetHolds(states, acts, e, sources);
    if Requeues(acts, e) != 0 {
      assert |Missing(states[b].cluster, sources)| > 0;
    }
  }

  /** Passes that came to an end by themselves. */
  ghost function Passes(states: seq<State>, acts: seq<Action>, e: nat): nat
    requires IsRun(states, acts) && e <= |acts|
  {
    if e == 0 then 0
    else Passes(states, acts, e - 1) + if EndsPass(states, e - 1) && !Interrupts(acts[e - 1]) then 1 else 0
  }

  ghost predicate NeverRefused(states: seq<State>, acts: seq<Action>)
    requires |states| == |acts| + 1
  {
    forall i :: 0 <= i < |acts| ==> !RefusedAt(states, acts, i)
  }

  lemma {:induction false} SomePatch(states: seq<State>, acts: seq<Action>, e: nat) returns (p: nat)
    requires IsRun(states, acts) && e <= |acts| && NeverRefused(states, acts)
    requires Passes(states, acts, e) > Requeues(acts, e)
    ensures p < e && acts[p].Patch? && acts[p].fault != Rejected
  {
    if EndsPass(states, e - 1) && !Interrupts(acts[e - 1]) {
      PassEnd(states, acts, e - 1);
    }
    if acts[e - 1].Patch? && acts[e - 1].fault != Rejected {
      p := e - 1;
    } else {
      p := SomePatch(states, acts, e - 1);
    }
  }

  /** With k needed kinds missing at first and no create call refused, no matter how many passes crash or are hit
      by faults in between: among any k + 1 passes that are not interrupted one removes the initializer. */
  lemma ConvergesUnlessRefused(states: seq<State>, acts: seq<Action>, e: nat, sources: Sources)
    requires IsHistory(states, acts) && e <= |acts| && Deterministic(states, acts, sources)
    requires NoneWithdrawn(acts) && KindsArrive(states, acts, sources) && NeverRefused(states, acts)
    ensures Passes(states, acts, e) > |Missing(states[0].cluster, sources)| ==>
      exists p :: 0 <= p < e && acts[p].Patch? && states[p].own !in states[p + 1].cluster.initializers
  {
    RequeuesBounded(states, acts, e, sources);
    if Passes(states, acts, e) > |Missing(states[0].cluster, sources)| {
      var p := SomePatch(states, acts, e);
      assert Enabled(states[p], acts[p]) && states[p + 1] == Step(states[p], acts[p]);
    }
  }

  /** And with closed sources none is refused. */
  lemma Converges(states: seq<State>, acts: seq<Action>, e: nat, sources: Sources)
    requires IsHistory(states, acts) && e <= |acts| && Deterministic(states, acts, sources)
    requires NoneWithdrawn(acts) && KindsArrive(states, acts, sources)
    requires RankedAlwaysServed(states, sources) && ScopedRight(sources) && NamespacesStay(acts, sources)
    requires Closed(states[0].cluster.objects, sources)
    ensures Passes(states, acts, e) > |Missing(states[0].cluster, sources)| ==>
      exists p :: 0 <= p < e && acts[p].Patch? && states[p].own !in states[p + 1].cluster.initializers
  {
    forall i | 0 <= i < |acts| ensures !RefusedAt(states, acts, i) {
      if RefusedAt(states, acts, i) {
        ClosedNeverRefused(states, acts, i, sources);
      }
    }
    ConvergesUnlessRefused(states, acts, e, sources);
  }
}
