/** What holds of every run of the initialization protocol, whatever the
    interleaving, the faults and the crashes. */
module Safety {
  import opened Manifests
  import opened Slices
  import opened Protocol

  // -------------------------------------------------------------- single calls

  ghost predicate Stored(c: Cluster, m: Manifest) { KeyOf(m) in c.objects }

  /** The server refuses a create call. */
  ghost predicate RefusedAt(states: seq<State>, acts: seq<Action>, i: nat)
    requires i < |acts| && |states| == |acts| + 1
  {
    acts[i] == Create(NoFault) && states[i].agent.Working? && states[i].agent.queue != [] &&
    Respond(states[i].cluster, states[i].agent.queue[0]) == Refused
  }

  /** The four outcomes of a create call, and what each leaves behind. An unserved kind gives up the source but not
      the pass, whatever else is missing; a missing namespace ends the pass; an existing object is left as it is. */
  lemma CreateOutcomes(states: seq<State>, acts: seq<Action>, i: nat)
    requires IsRun(states, acts) && i < |acts| && acts[i] == Create(NoFault)
    requires states[i].agent.Working? && states[i].agent.queue != []
    ensures var s, t, m := states[i], states[i + 1], states[i].agent.queue[0];
      if m.gvk !in s.cluster.served then
        t == s.(agent := s.agent.(queue := [], requeue := true))
      else if m.namespace != "" && ObjectKey("", "Namespace", "", m.namespace) !in s.cluster.objects then
        t == s.(agent := Idle) && RefusedAt(states, acts, i)
      else if KeyOf(m) in s.cluster.objects then
        t == s.(agent := s.agent.(queue := s.agent.queue[1..]))
      else
        t == s.(cluster := s.cluster.(objects := s.cluster.objects[KeyOf(m) := m.content]),
                agent := s.agent.(queue := s.agent.queue[1..]))
  {
    assert Enabled(states[i], acts[i]) && states[i + 1] == Step(states[i], acts[i]);
  }

  /** A call that fails ends the pass. It has had no effect, unless its reply was lost: then it has had all of it. */
  lemma FaultOutcomes(states: seq<State>, acts: seq<Action>, i: nat)
    requires IsRun(states, acts) && i < |acts| && (acts[i].Create? || acts[i].Patch?) && acts[i].fault != NoFault
    ensures states[i + 1].agent == Idle
    ensures acts[i].fault == Rejected ==> states[i + 1].cluster == states[i].cluster
    ensures acts[i] == Create(ReplyLost) ==>
      states[i].agent.Working? && states[i].agent.queue != [] &&
      var m := states[i].agent.queue[0];
      KeyOf(m) !in states[i].cluster.objects &&
      states[i + 1].cluster == states[i].cluster.(objects := states[i].cluster.objects[KeyOf(m) := m.content])
    ensures acts[i] == Patch(ReplyLost) ==>
      states[i].agent.Working? &&
      states[i + 1].cluster == states[i].cluster.(initializers := Without(states[i].agent.snapshot, states[i].own))
  {
    assert Enabled(states[i], acts[i]) && states[i + 1] == Step(states[i], acts[i]);
  }

  /** Two manifests that differ in their namespace only are two objects: creating one leaves the other to be created. */
  lemma NamespacesSeparate(states: seq<State>, acts: seq<Action>, i: nat, m: Manifest)
    requires IsRun(states, acts) && i < |acts| && acts[i] == Create(NoFault)
    requires states[i].agent.Working? && states[i].agent.queue != []
    requires var head := states[i].agent.queue[0];
      m == head.(namespace := m.namespace) && m.namespace != head.namespace
    requires Respond(states[i].cluster, m) == Created && Respond(states[i].cluster, states[i].agent.queue[0]) == Created
    ensures Respond(states[i + 1].cluster, m) == Created && Stored(states[i + 1].cluster, states[i].agent.queue[0])
  {
    assert Enabled(states[i], acts[i]) && states[i + 1] == Step(states[i], acts[i]);
    SameObjectIff(m, states[i].agent.queue[0]);
  }

  // -------------------------------------------------------- what others may do

  function EnvSteps(c: Cluster, es: seq<EnvAction>): Cluster {
    if es == [] then c else EnvStep(EnvSteps(c, es[..|es| - 1]), es[|es| - 1])
  }

  lemma EnvStepsSnoc(c: Cluster, es: seq<EnvAction>, e: EnvAction)
    ensures EnvSteps(c, es + [e]) == EnvStep(EnvSteps(c, es), e)
  {
    assert (es + [e])[..|es|] == es;
  }

  lemma {:induction false} WithdrawAll(c: Cluster, kinds: set<GroupVersionKind>) returns (es: seq<EnvAction>)
    ensures EnvSteps(c, es) == c.(served := c.served - kinds)
  {
    if kinds == {} {
      es := [];
    } else {
      var gvk :| gvk in kinds;
      es := WithdrawAll(c, kinds - {gvk});
      EnvStepsSnoc(c, es, Withdraw(gvk));
      assert c.served - (kinds - {gvk}) - {gvk} == c.served - kinds;
      es := es + [Withdraw(gvk)];
    }
  }

  lemma {:induction false} ServeAll(c: Cluster, first: seq<EnvAction>, kinds: set<GroupVersionKind>)
      returns (es: seq<EnvAction>)
    ensures EnvSteps(c, es) == EnvSteps(c, first).(served := EnvSteps(c, first).served + kinds)
  {
    if kinds == {} {
      es := first;
    } else {
      var gvk :| gvk in kinds;
      es := ServeAll(c, first, kinds - {gvk});
      EnvStepsSnoc(c, es, Serve(gvk));
      assert EnvSteps(c, first).served + (kinds - {gvk}) + {gvk} == EnvSteps(c, first).served + kinds;
      es := es + [Serve(gvk)];
    }
  }

  lemma {:induction false} DeleteAll(c: Cluster, first: seq<EnvAction>, keys: set<ObjectKey>)
      returns (es: seq<EnvAction>)
    ensures EnvSteps(c, es) == EnvSteps(c, first).(objects := EnvSteps(c, first).objects - keys)
  {
    if keys == {} {
      es := first;
    } else {
      var key :| key in keys;
      es := DeleteAll(c, first, keys - {key});
      EnvStepsSnoc(c, es, Delete(key));
      assert EnvSteps(c, first).objects - (keys - {key}) - {key} == EnvSteps(c, first).objects - keys;
      es := es + [Delete(key)];
    }
  }

  lemma OneMoreObject(before: map<ObjectKey, string>, objects: map<ObjectKey, string>, key: ObjectKey)
    requires key in objects
    ensures (before + (objects - {key}))[key := objects[key]] == before + objects
  {
  }

  lemma {:induction false} WriteAll(c: Cluster, first: seq<EnvAction>, objects: map<ObjectKey, string>)
      returns (es: seq<EnvAction>)
    ensures EnvSteps(c, es) == EnvSteps(c, first).(objects := EnvSteps(c, first).objects + objects)
    decreases |objects|
  {
    if objects == map[] {
      es := first;
      assert EnvSteps(c, first).objects + objects == EnvSteps(c, first).objects;
    } else {
      var key :| key in objects;
      es := WriteAll(c, first, objects - {key});
      EnvStepsSnoc(c, es, Write(key, objects[key]));
      OneMoreObject(EnvSteps(c, first).objects, objects, key);
      es := es + [Write(key, objects[key])];
    }
  }

  /** Between any two steps of the agent, others can turn any cluster into any other. */
  lemma OthersCanDoAnything(c: Cluster, d: Cluster) returns (es: seq<EnvAction>)
    ensures EnvSteps(c, es) == d
  {
    es := WithdrawAll(c, c.served);
    es := ServeAll(c, es, d.served);
    es := DeleteAll(c, es, c.objects.Keys);
    es := WriteAll(c, es, d.objects);
    EnvStepsSnoc(c, es, SetInitializers(d.initializers));
    es := es + [SetInitializers(d.initializers)];
    assert c.served - c.served + d.served == d.served;
    assert c.objects - c.objects.Keys + d.objects == d.objects;
  }

  // -------------------------------------------------- removing the initializer

  /** An object that was deleted by somebody was really gone for a moment. */
  lemma DeletedWasGone(states: seq<State>, acts: seq<Action>, i: nat, j: nat, key: ObjectKey) returns (d: nat)
    requires IsRun(states, acts) && j <= |acts| && DeletedIn(acts, i, j, key)
    ensures i < d <= j && key !in states[d].cluster.objects
  {
    var k :| i <= k < j && acts[k] == Env(Delete(key));
    assert Enabled(states[k], acts[k]) && states[k + 1] == Step(states[k], acts[k]);
    d := k + 1;
  }

  /** Step c created m, or found an object under its key. */
  ghost predicate HandledAt(states: seq<State>, acts: seq<Action>, c: nat, m: Manifest)
    requires IsRun(states, acts) && c < |acts|
  {
    acts[c] == Create(NoFault) && states[c].agent.Working? && states[c].agent.queue != [] &&
    states[c].agent.queue[0] == m &&
    (Respond(states[c].cluster, m) == Created || Respond(states[c].cluster, m) == AlreadyExists)
  }

  ghost predicate HandledIn(states: seq<State>, acts: seq<Action>, b: nat, e: nat, m: Manifest)
    requires IsRun(states, acts) && e <= |acts|
  {
    exists c :: b < c < e && HandledAt(states, acts, c, m)
  }

  /** A step in (b, e) handled m, and its object is stored in state k unless somebody deleted it after that step. */
  ghost predicate Kept(states: seq<State>, acts: seq<Action>, b: nat, e: nat, k: nat, m: Manifest)
    requires IsRun(states, acts) && e <= k <= |acts|
  {
    exists c :: b < c < e && HandledAt(states, acts, c, m) &&
      (Stored(states[k].cluster, m) || DeletedIn(acts, c + 1, k, KeyOf(m)))
  }

  lemma HandledIsKept(states: seq<State>, acts: seq<Action>, b: nat, e: nat, k: nat, m: Manifest)
    requires IsRun(states, acts) && e <= k <= |acts| && HandledIn(states, acts, b, e, m)
    ensures Kept(states, acts, b, e, k, m)
  {
    var c :| b < c < e && HandledAt(states, acts, c, m);
    assert Enabled(states[c], acts[c]) && states[c + 1] == Step(states[c], acts[c]);
    ObjectsStay(states, acts, c + 1, k, KeyOf(m));
  }

  /** A pass works on one snapshot that holds the own initializer, and has rendered as many sources as its loop
      has passed. */
  lemma {:induction false} PassProgress(states: seq<State>, acts: seq<Action>, b: nat, e: nat)
    requires IsRun(states, acts) && InPass(states, acts, b, e)
    ensures states[e].agent.snapshot == acts[b].snapshot && states[e].own in acts[b].snapshot
    ensures states[e].agent.Read? ==> Renderings(acts, b, e) == []
    ensures states[e].agent.Working? ==>
      |Renderings(acts, b, e)| == states[e].agent.next <= states[e].agent.total &&
      exists t :: b < t < e && acts[t] == ReadTarget(states[e].agent.total)
  {
    assert Enabled(states[e - 1], acts[e - 1]) && states[e - 1 + 1] == Step(states[e - 1], acts[e - 1]);
    if b == e - 1 {
    } else {
      PassProgress(states, acts, b, e - 1);
      if acts[e - 1].ReadTarget? {
        assert acts[e - 1] == ReadTarget(states[e].agent.total);
      }
    }
  }

  /** While no requeue is due, a rendered manifest was handled in this pass, or is still queued. */
  ghost predicate Accounted(states: seq<State>, acts: seq<Action>, b: nat, e: nat)
    requires IsRun(states, acts) && b < e <= |acts| && states[e].agent.Working?
  {
    forall m :: Among(m, Renderings(acts, b, e)) ==> HandledIn(states, acts, b, e, m) || m in states[e].agent.queue
  }

  lemma {:induction false} PassHandles(states: seq<State>, acts: seq<Action>, b: nat, e: nat)
    requires IsRun(states, acts) && InPass(states, acts, b, e)
    requires states[e].agent.Working? && !states[e].agent.requeue
    ensures Accounted(states, acts, b, e)
  {
    PassProgress(states, acts, b, e);
    assert Enabled(states[e - 1], acts[e - 1]) && states[e - 1 + 1] == Step(states[e - 1], acts[e - 1]);
    if states[e - 1].agent.Read? {
      assert Renderings(acts, b, e) == [];
    } else {
      PassHandles(states, acts, b, e - 1);
      forall m | Among(m, Renderings(acts, b, e))
        ensures HandledIn(states, acts, b, e, m) || m in states[e].agent.queue
      {
        HandledStep(states, acts, b, e, m);
      }
    }
  }

  lemma HandledStep(states: seq<State>, acts: seq<Action>, b: nat, e: nat, m: Manifest)
    requires IsRun(states, acts) && InPass(states, acts, b, e) && b < e - 1
    requires states[e - 1].agent.Working? && Accounted(states, acts, b, e - 1)
    requires states[e].agent.Working? && !states[e].agent.requeue
    requires Among(m, Renderings(acts, b, e))
    ensures HandledIn(states, acts, b, e, m) || m in states[e].agent.queue
  {
    var s, a := states[e - 1], acts[e - 1];
    assert Enabled(s, a) && states[e - 1 + 1] == Step(s, a);
    if a.Render? {
      AmongSnoc(m, Renderings(acts, b, e - 1), a.ms);
      ArrangementMembers(a.sorted, a.ms);
    }
    if a.Create? && m in s.agent.queue {
      assert s.agent.queue == [s.agent.queue[0]] + s.agent.queue[1..];
      assert HandledAt(states, acts, e - 1, s.agent.queue[0]);
    }
  }

  lemma PassAccounts(states: seq<State>, acts: seq<Action>, b: nat, e: nat)
    requires IsRun(states, acts) && InPass(states, acts, b, e)
    requires states[e].agent.Working? && !states[e].agent.requeue
    ensures forall m :: Among(m, Renderings(acts, b, e)) ==>
      Kept(states, acts, b, e, e, m) || m in states[e].agent.queue
  {
    PassHandles(states, acts, b, e);
    forall m | Among(m, Renderings(acts, b, e)) && m !in states[e].agent.queue ensures Kept(states, acts, b, e, e, m) {
      HandledIsKept(states, acts, b, e, e, m);
    }
  }

  /** The initializer is removed only when every source that the InitTarget had was rendered
      and every manifest of every source was created or found by a call of this pass; and they
      stay stored from that call on, unless somebody else deletes them. */
  lemma RemovalIsSafe(states: seq<State>, acts: seq<Action>, e: nat) returns (b: nat)
    requires IsHistory(states, acts) && e < |acts| && acts[e].Patch?
    ensures InPass(states, acts, b, e) && states[e].own in acts[b].snapshot
    ensures exists t :: b < t < e && acts[t] == ReadTarget(|Renderings(acts, b, e)|)
    ensures forall m, k :: Among(m, Renderings(acts, b, e)) && e <= k <= |acts| ==> Kept(states, acts, b, e, k, m)
  {
    assert Enabled(states[e], acts[e]);
    b := PassHasBegun(states, acts, e);
    PassProgress(states, acts, b, e);
    PassHandles(states, acts, b, e);
    forall m, k | Among(m, Renderings(acts, b, e)) && e <= k <= |acts| ensures Kept(states, acts, b, e, k, m) {
      HandledIsKept(states, acts, b, e, k, m);
    }
  }

  /** An initializer that was there and is gone was taken off by the agent's patch, or by others who wrote a list
      without it. */
  lemma {:induction false} RemovedByPatch(states: seq<State>, acts: seq<Action>, i: nat, j: nat) returns (p: nat)
    requires IsRun(states, acts) && i <= j <= |acts|
    requires states[i].own in states[i].cluster.initializers && states[j].own !in states[j].cluster.initializers
    ensures i <= p < j
    ensures states[p].own in states[p].cluster.initializers && states[p + 1].own !in states[p + 1].cluster.initializers
    ensures acts[p].Patch? || (acts[p].Env? && acts[p].e.SetInitializers? && states[i].own !in acts[p].e.list)
  {
    SameOwner(states, acts, j - 1);
    SameOwner(states, acts, i);
    assert Enabled(states[j - 1], acts[j - 1]) && states[j - 1 + 1] == Step(states[j - 1], acts[j - 1]);
    if states[j - 1].own in states[j - 1].cluster.initializers {
      p := j - 1;
    } else {
      p := RemovedByPatch(states, acts, i, j - 1);
    }
  }

  lemma {:induction false} SameOwner(states: seq<State>, acts: seq<Action>, n: nat)
    requires IsRun(states, acts) && n <= |acts|
    ensures states[n].own == states[0].own
  {
    if n == 0 {
    } else {
      SameOwner(states, acts, n - 1);
      assert Enabled(states[n - 1], acts[n - 1]) && states[n - 1 + 1] == Step(states[n - 1], acts[n - 1]);
    }
  }

  // --------------------------------------------------------------- create-only

  ghost predicate WrittenIn(acts: seq<Action>, i: nat, j: nat, key: ObjectKey)
    requires j <= |acts|
  {
    exists d :: i <= d < j && acts[d].Env? && acts[d].e.Write? && acts[d].e.key == key
  }

  /** An object is changed or removed by others only: the agent never touches one that is there. */
  lemma {:induction false} FirstWriterWins(states: seq<State>, acts: seq<Action>, i: nat, j: nat, key: ObjectKey)
    requires IsRun(states, acts) && i <= j <= |acts| && key in states[i].cluster.objects
    requires !DeletedIn(acts, i, j, key) && !WrittenIn(acts, i, j, key)
    ensures key in states[j].cluster.objects && states[j].cluster.objects[key] == states[i].cluster.objects[key]
  {
    if i == j {
    } else {
      var s, a := states[j - 1], acts[j - 1];
      assert !DeletedIn(acts, i, j - 1, key) && !WrittenIn(acts, i, j - 1, key);
      FirstWriterWins(states, acts, i, j - 1, key);
      assert Enabled(s, a) && states[j - 1 + 1] == Step(s, a);
      assert a != Env(Delete(key)) && !(a.Env? && a.e.Write? && a.e.key == key);
    }
  }

  /** An object that appears without another writer was created by the agent from a
      manifest at the head of its queue, at a time when the key was free. */
  lemma {:induction false} NewObjectsAreManifests(states: seq<State>, acts: seq<Action>, i: nat, j: nat, key: ObjectKey)
      returns (c: nat)
    requires IsRun(states, acts) && i <= j <= |acts| && !WrittenIn(acts, i, j, key)
    requires key !in states[i].cluster.objects && key in states[j].cluster.objects
    ensures i <= c < j && acts[c].Create? && states[c].agent.Working? && states[c].agent.queue != []
    ensures Respond(states[c].cluster, states[c].agent.queue[0]) == Created
    ensures KeyOf(states[c].agent.queue[0]) == key
    ensures states[c].agent.queue[0].content == states[j].cluster.objects[key]
  {
    var s, a := states[j - 1], acts[j - 1];
    assert Enabled(s, a) && states[j - 1 + 1] == Step(s, a);
    assert !WrittenIn(acts, i, j - 1, key);
    assert !(a.Env? && a.e.Write? && a.e.key == key);
    if key in s.cluster.objects {
      c := NewObjectsAreManifests(states, acts, i, j - 1, key);
    } else {
      c := j - 1;
    }
  }

  // ------------------------------------------------------------- after removal

  /** From step i on, what the agent reads is what the cluster holds. */
  ghost predicate ReadsAreFresh(states: seq<State>, acts: seq<Action>, i: nat)
    requires IsRun(states, acts)
  {
    forall k {:trigger acts[k]} :: i <= k < |acts| && acts[k].ReadCluster? ==>
      acts[k].snapshot == states[k].cluster.initializers
  }

  ghost predicate NeverReadded(own: string, acts: seq<Action>, i: nat) {
    forall k :: i <= k < |acts| && acts[k].Env? && acts[k].e.SetInitializers? ==> own !in acts[k].e.list
  }

  /** The pass that is going on in state k was already going on in state i. */
  ghost predicate InFlight(states: seq<State>, i: nat, k: nat)
    requires k < |states|
  {
    forall x :: i <= x <= k ==> !states[x].agent.Idle?
  }

  /** Once the initializer is gone, whoever removed it, it stays gone and the agent never begins another pass: what
      it still creates or patches belongs to the pass that was in flight when the initializer disappeared. */
  lemma {:induction false} QuietAfterRemoval(states: seq<State>, acts: seq<Action>, i: nat, j: nat)
    requires IsRun(states, acts) && i <= j <= |acts| && states[i].own !in states[i].cluster.initializers
    requires ReadsAreFresh(states, acts, i) && NeverReadded(states[i].own, acts, i)
    ensures states[j].own == states[i].own && states[j].own !in states[j].cluster.initializers
    ensures states[j].agent.Idle? || InFlight(states, i, j)
    ensures forall k :: i <= k < j && (acts[k].Create? || acts[k].Patch?) ==> InFlight(states, i, k)
  {
    if i == j {
    } else {
      QuietAfterRemoval(states, acts, i, j - 1);
      assert Enabled(states[j - 1], acts[j - 1]) && states[j - 1 + 1] == Step(states[j - 1], acts[j - 1]);
    }
  }
}
