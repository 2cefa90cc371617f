/** A pass that nobody disturbs, as one function of the cluster it found: the
    reference the step-by-step protocol is proved against. */
module PassFold {
  import opened Manifests
  import opened Slices
  import opened Protocol
  import opened Safety
  import opened Hierarchy

  type Objects = map<ObjectKey, string>

  /** What one source gets done: its manifests up to the first unserved kind. */
  function ServedPrefix(served: set<GroupVersionKind>, ms: seq<Manifest>): seq<Manifest> {
    if ms == [] || ms[0].gvk !in served then [] else [ms[0]] + ServedPrefix(served, ms[1..])
  }

  function InsertAbsent(objects: Objects, ms: seq<Manifest>): Objects
    decreases |ms|
  {
    if ms == [] then objects
    else InsertAbsent(if KeyOf(ms[0]) in objects then objects else Insert(objects, ms[0]), ms[1..])
  }

  /** One source after the other, each adding what is missing of its served prefix. */
  function Fold(objects: Objects, served: set<GroupVersionKind>, sources: seq<seq<Manifest>>): Objects {
    if sources == [] then objects
    else
      var last := |sources| - 1;
      InsertAbsent(Fold(objects, served, sources[..last]), ServedPrefix(served, sources[last]))
  }

  ghost predicate HasUnserved(served: set<GroupVersionKind>, ms: seq<Manifest>) {
    exists m :: m in ms && m.gvk !in served
  }

  ghost predicate SomeUnserved(served: set<GroupVersionKind>, sources: seq<seq<Manifest>>) {
    exists m :: Among(m, sources) && m.gvk !in served
  }

  // ------------------------------------------------- what the reference means

  /** The served prefix is the longest prefix of served kinds. */
  lemma {:induction false} ServedPrefixIsLongest(served: set<GroupVersionKind>, ms: seq<Manifest>)
    ensures var p := ServedPrefix(served, ms);
      p <= ms && (forall m :: m in p ==> m.gvk in served) &&
      (|p| < |ms| ==> ms[|p|].gvk !in served) &&
      (p == ms <==> !HasUnserved(served, ms))
  {
    if ms == [] || ms[0].gvk !in served {
    } else {
      ServedPrefixIsLongest(served, ms[1..]);
      assert ms == [ms[0]] + ms[1..];
    }
  }

  ghost predicate FirstFor(ms: seq<Manifest>, i: nat, key: ObjectKey) {
    i < |ms| && KeyOf(ms[i]) == key && forall j :: 0 <= j < i ==> KeyOf(ms[j]) != key
  }

  /** What was there stays as it is; a new key holds the first manifest for it. */
  lemma {:induction false} InsertAbsentMeaning(objects: Objects, ms: seq<Manifest>, key: ObjectKey)
    ensures var r := InsertAbsent(objects, ms);
      (key in objects ==> key in r && r[key] == objects[key]) &&
      (key !in objects ==>
        (key in r <==> exists i: nat :: FirstFor(ms, i, key)) &&
        (forall i: nat :: FirstFor(ms, i, key) ==> key in r && r[key] == ms[i].content))
    decreases |ms|
  {
    if ms == [] {
    } else {
      var objects' := if KeyOf(ms[0]) in objects then objects else Insert(objects, ms[0]);
      InsertAbsentMeaning(objects', ms[1..], key);
      if KeyOf(ms[0]) == key {
        assert FirstFor(ms, 0, key);
      } else {
        forall i: nat | FirstFor(ms[1..], i, key) ensures FirstFor(ms, i + 1, key) {
          assert forall j :: 0 < j < i + 1 ==> ms[j] == ms[1..][j - 1];
        }
        forall i: nat | FirstFor(ms, i, key) ensures 0 < i && FirstFor(ms[1..], i - 1, key) {
          assert forall j :: 0 <= j < i - 1 ==> ms[1..][j] == ms[j + 1];
        }
      }
    }
  }

  // ------------------------------------------------------------- the requeue flag

  /** From state b to state e the same kinds are served. */
  ghost predicate ServedFixed(states: seq<State>, b: nat, e: nat)
    requires e < |states|
  {
    forall i :: b <= i <= e ==> states[i].cluster.served == states[b].cluster.served
  }

  /** A requeue is due, or will be once the queue is worked off. */
  ghost predicate WillRequeue(agent: Agent, served: set<GroupVersionKind>)
    requires agent.Working?
  {
    agent.requeue || HasUnserved(served, agent.queue)
  }

  lemma CreateRequeues(s: State, fault: Fault)
    requires s.agent.Working? && s.agent.queue != [] && CreateStep(s, fault).agent.Working?
    ensures WillRequeue(CreateStep(s, fault).agent, s.cluster.served) <==> WillRequeue(s.agent, s.cluster.served)
  {
    assert s.agent.queue == [s.agent.queue[0]] + s.agent.queue[1..];
  }

  lemma {:induction false} RequeueComing(states: seq<State>, acts: seq<Action>, b: nat, e: nat)
    requires IsRun(states, acts) && InPass(states, acts, b, e) && ServedFixed(states, b, e)
    ensures states[e].agent.Read? ==> Renderings(acts, b, e) == []
    ensures states[e].agent.Working? ==>
      (WillRequeue(states[e].agent, states[b].cluster.served) <==>
        SomeUnserved(states[b].cluster.served, Renderings(acts, b, e)))
  {
    var s, a, served := states[e - 1], acts[e - 1], states[b].cluster.served;
    assert Enabled(s, a) && states[e - 1 + 1] == Step(s, a);
    if b == e - 1 {
      assert Renderings(acts, b, e) == [];
    } else {
      RequeueComing(states, acts, b, e - 1);
      if a.Create? {
        CreateRequeues(s, a.fault);
      } else if a.Render? {
        UnservedSnoc(served, Renderings(acts, b, e - 1), a.ms, a.sorted);
      }
    }
  }

  /** Whatever others write, delete or patch meanwhile: over a fixed set of served kinds, a pass that
      reaches its end asks to run again exactly when some source holds a kind that is not served. */
  lemma RequeueIffUnserved(states: seq<State>, acts: seq<Action>, b: nat, e: nat)
    requires IsRun(states, acts) && InPass(states, acts, b, e) && ServedFixed(states, b, e)
    requires AtEnd(states[e].agent)
    ensures states[e].agent.requeue <==> SomeUnserved(states[b].cluster.served, Renderings(acts, b, e))
  {
    RequeueComing(states, acts, b, e);
  }

  // ------------------------------------------------------------- the refinement

  ghost predicate Undisturbed(acts: seq<Action>, b: nat, e: nat)
    requires e <= |acts|
  {
    forall i :: b <= i < e ==> !acts[i].Env?
  }

  /** Working off the queue from here leads to `goal`. */
  ghost predicate Leads(s: State, served: set<GroupVersionKind>, goal: Objects)
    requires s.agent.Working?
  {
    s.cluster.served == served && InsertAbsent(s.cluster.objects, ServedPrefix(served, s.agent.queue)) == goal
  }

  lemma CreateLeads(s: State, fault: Fault, goal: Objects)
    requires s.agent.Working? && s.agent.queue != [] && Leads(s, s.cluster.served, goal)
    requires CreateStep(s, fault).agent.Working?
    ensures Leads(CreateStep(s, fault), s.cluster.served, goal)
  {
  }

  lemma StepLeads(s: State, a: Action, objects: Objects, served: set<GroupVersionKind>, sources: seq<seq<Manifest>>)
    requires s.agent.Working? && Leads(s, served, Fold(objects, served, sources))
    requires Enabled(s, a) && !a.Env? && Step(s, a).agent.Working?
    ensures Leads(Step(s, a), served, Fold(objects, served, if a.Render? then sources + [a.sorted] else sources))
  {
    if a.Create? {
      CreateLeads(s, a.fault, Fold(objects, served, sources));
    } else {
      FoldSnoc(objects, served, sources, a.sorted);
    }
  }

  /** Until it has read the InitTarget, a pass changes nothing. */
  lemma ReadingPass(states: seq<State>, acts: seq<Action>, b: nat, e: nat)
    requires IsRun(states, acts) && InPass(states, acts, b, e) && Undisturbed(acts, b, e) && states[e].agent.Read?
    ensures e == b + 1 && states[e].cluster == states[b].cluster
  {
    assert Enabled(states[e - 1], acts[e - 1]) && states[e - 1 + 1] == Step(states[e - 1], acts[e - 1]);
  }

  lemma WorkBegins(states: seq<State>, acts: seq<Action>, b: nat, e: nat)
    requires IsRun(states, acts) && InPass(states, acts, b, e) && Undisturbed(acts, b, e)
    requires states[e].agent.Working? && !states[e - 1].agent.Working?
    ensures states[e].cluster == states[b].cluster && states[e].agent.queue == [] && Arrangements(acts, b, e) == []
  {
    assert Enabled(states[e - 1], acts[e - 1]) && states[e - 1 + 1] == Step(states[e - 1], acts[e - 1]);
    ReadingPass(states, acts, b, e - 1);
    assert Arrangements(acts, b, e - 1) == [];
  }

  lemma {:induction false} UndisturbedPass(states: seq<State>, acts: seq<Action>, b: nat, e: nat)
    requires IsRun(states, acts) && InPass(states, acts, b, e) && Undisturbed(acts, b, e) && states[e].agent.Working?
    ensures Leads(states[e], states[b].cluster.served,
              Fold(states[b].cluster.objects, states[b].cluster.served, Arrangements(acts, b, e)))
  {
    if !states[e - 1].agent.Working? {
      WorkBegins(states, acts, b, e);
    } else {
      UndisturbedPass(states, acts, b, e - 1);
      LeadsOn(states, acts, b, e);
    }
  }

  lemma LeadsOn(states: seq<State>, acts: seq<Action>, b: nat, e: nat)
    requires IsRun(states, acts) && b < e - 1 < |acts| && !acts[e - 1].Env?
    requires states[e - 1].agent.Working? && states[e].agent.Working?
    requires Leads(states[e - 1], states[b].cluster.served,
               Fold(states[b].cluster.objects, states[b].cluster.served, Arrangements(acts, b, e - 1)))
    ensures Leads(states[e], states[b].cluster.served,
              Fold(states[b].cluster.objects, states[b].cluster.served, Arrangements(acts, b, e)))
  {
    assert Enabled(states[e - 1], acts[e - 1]) && states[e - 1 + 1] == Step(states[e - 1], acts[e - 1]);
    StepLeads(states[e - 1], acts[e - 1], states[b].cluster.objects, states[b].cluster.served,
      Arrangements(acts, b, e - 1));
  }

  lemma {:induction false} UndisturbedServed(states: seq<State>, acts: seq<Action>, b: nat, e: nat)
    requires IsRun(states, acts) && b <= e <= |acts| && Undisturbed(acts, b, e)
    ensures ServedFixed(states, b, e)
  {
    if b == e {
    } else {
      UndisturbedServed(states, acts, b, e - 1);
      assert Enabled(states[e - 1], acts[e - 1]) && states[e - 1 + 1] == Step(states[e - 1], acts[e - 1]);
    }
  }

  lemma FoldSnoc(objects: Objects, served: set<GroupVersionKind>, sources: seq<seq<Manifest>>, last: seq<Manifest>)
    ensures Fold(objects, served, sources + [last])
         == InsertAbsent(Fold(objects, served, sources), ServedPrefix(served, last))
  {
    assert (sources + [last])[..|sources|] == sources;
  }

  lemma UnservedSnoc(served: set<GroupVersionKind>, sources: seq<seq<Manifest>>,
                     ms: seq<Manifest>, sorted: seq<Manifest>)
    requires IsArrangement(sorted, ms)
    ensures SomeUnserved(served, sources + [ms]) <==> SomeUnserved(served, sources) || HasUnserved(served, sorted)
  {
    ArrangementMembers(sorted, ms);
    forall m ensures Among(m, sources + [ms]) <==> Among(m, sources) || m in ms {
      AmongSnoc(m, sources, ms);
    }
    if SomeUnserved(served, sources) {
      var m :| Among(m, sources) && m.gvk !in served;
      assert Among(m, sources + [ms]);
    }
    if HasUnserved(served, sorted) {
      var m :| m in sorted && m.gvk !in served;
      assert Among(m, sources + [ms]);
    }
    if SomeUnserved(served, sources + [ms]) {
      var m :| Among(m, sources + [ms]) && m.gvk !in served;
      assert Among(m, sources) || m in sorted;
    }
  }

  /** A pass that reaches its end leaves the cluster as the fold over its sources does, and
      asks to run again exactly when some source holds a kind that is not served. */
  lemma PassIsFold(states: seq<State>, acts: seq<Action>, b: nat, e: nat)
    requires IsRun(states, acts) && InPass(states, acts, b, e) && Undisturbed(acts, b, e)
    requires AtEnd(states[e].agent)
    ensures states[e].cluster.objects
         == Fold(states[b].cluster.objects, states[b].cluster.served, Arrangements(acts, b, e))
    ensures states[e].agent.requeue <==> SomeUnserved(states[b].cluster.served, Renderings(acts, b, e))
  {
    UndisturbedPass(states, acts, b, e);
    UndisturbedServed(states, acts, b, e);
    RequeueIffUnserved(states, acts, b, e);
  }

  // ------------------------------------------------------------- repeated passes

  /** When the pass began, m was stored, and nobody has deleted its object since. */
  ghost predicate StillThere(states: seq<State>, acts: seq<Action>, b: nat, e: nat, m: Manifest)
    requires IsRun(states, acts) && b <= e <= |acts|
  {
    Stored(states[b].cluster, m) && !DeletedIn(acts, b, e, KeyOf(m))
  }

  /** Repeating a pass whose manifests were all there when it began, and are not deleted meanwhile, changes no
      object by any of its own steps, whatever others do in between. */
  lemma RepeatChangesNothing(states: seq<State>, acts: seq<Action>, b: nat, e: nat, i: nat)
    requires IsRun(states, acts) && InPass(states, acts, b, e) && b <= i <= e && i < |acts| && !acts[i].Env?
    requires forall m :: Among(m, Renderings(acts, b, e)) ==> StillThere(states, acts, b, e, m)
    ensures states[i + 1].cluster.objects == states[i].cluster.objects
  {
    assert Enabled(states[i], acts[i]) && states[i + 1] == Step(states[i], acts[i]);
    if acts[i].Create? {
      var head := states[i].agent.queue[0];
      HeadWasRendered(states, acts, b, i, e);
      assert StillThere(states, acts, b, e, head);
      ObjectsStay(states, acts, b, i, KeyOf(head));
    }
  }

  lemma HeadWasRendered(states: seq<State>, acts: seq<Action>, b: nat, i: nat, e: nat)
    requires IsRun(states, acts) && InPass(states, acts, b, e) && b < i <= e
    requires states[i].agent.Working? && states[i].agent.queue != []
    ensures Among(states[i].agent.queue[0], Renderings(acts, b, e))
  {
    var head := states[i].agent.queue[0];
    QueueStaysInOrder(states, acts, b, i);
    assert RenderedIn(acts, b, i, head);
    var j :| b < j < i && RenderedAt(acts, j, head);
    assert RenderedIn(acts, b, e, head);
    RenderedInIsAmong(acts, b, e, head);
  }

  /** An undisturbed one leaves all objects as they were. */
  lemma RepeatKeepsObjects(states: seq<State>, acts: seq<Action>, b: nat, e: nat)
    requires IsRun(states, acts) && InPass(states, acts, b, e) && Undisturbed(acts, b, e)
    requires forall m :: Among(m, Renderings(acts, b, e)) ==> Stored(states[b].cluster, m)
    ensures states[e].cluster.objects == states[b].cluster.objects
  {
    forall m | Among(m, Renderings(acts, b, e)) ensures StillThere(states, acts, b, e, m) {
      assert !DeletedIn(acts, b, e, KeyOf(m));
    }
    UnchangedUpTo(states, acts, b, e, e);
  }

  lemma {:induction false} UnchangedUpTo(states: seq<State>, acts: seq<Action>, b: nat, e: nat, i: nat)
    requires IsRun(states, acts) && InPass(states, acts, b, e) && Undisturbed(acts, b, e) && b <= i <= e
    requires forall m :: Among(m, Renderings(acts, b, e)) ==> StillThere(states, acts, b, e, m)
    ensures states[i].cluster.objects == states[b].cluster.objects
  {
    if i == b {
    } else {
      UnchangedUpTo(states, acts, b, e, i - 1);
      RepeatChangesNothing(states, acts, b, e, i - 1);
    }
  }
}
