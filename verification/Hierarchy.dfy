/** What creating manifests in hierarchy order buys: CRDs, APIExports, APIBindings
    and Namespaces are never held up by a kind that is not served yet, and
    namespaced objects find their namespace (internal/manifest/sort.go, applier.go). */
module Hierarchy {
  import opened Manifests
  import opened Slices
  import opened Protocol
  import opened Safety

  ghost predicate RenderedAt(acts: seq<Action>, j: nat, m: Manifest)
    requires j < |acts|
  {
    acts[j].Render? && m in acts[j].ms
  }

  ghost predicate RenderedIn(acts: seq<Action>, b: nat, e: nat, m: Manifest)
    requires e <= |acts|
  {
    exists j :: b < j < e && RenderedAt(acts, j, m)
  }

  lemma {:induction false} RenderedInIsAmong(acts: seq<Action>, b: nat, e: nat, m: Manifest)
    requires b < e <= |acts|
    ensures RenderedIn(acts, b, e, m) <==> Among(m, Renderings(acts, b, e))
  {
    if e == b + 1 {
    } else {
      RenderedInIsAmong(acts, b, e - 1, m);
      if acts[e - 1].Render? {
        AmongSnoc(m, Renderings(acts, b, e - 1), acts[e - 1].ms);
      }
      if RenderedIn(acts, b, e, m) && !RenderedIn(acts, b, e - 1, m) {
        assert RenderedAt(acts, e - 1, m);
      }
      if RenderedAt(acts, e - 1, m) {
        assert RenderedIn(acts, b, e, m);
      }
    }
  }

  /** From state b to state e, every ranked manifest rendered in between is of a served kind. */
  ghost predicate RankedServed(states: seq<State>, acts: seq<Action>, b: nat, e: nat)
    requires IsRun(states, acts) && e <= |acts|
  {
    forall i, m :: b <= i <= e && RenderedIn(acts, b, e, m) && Ranked(m) ==> m.gvk in states[i].cluster.served
  }

  ghost predicate QueueInOrder(agent: Agent, acts: seq<Action>, b: nat, e: nat)
    requires agent.Working? && e <= |acts|
  {
    SortedBy(agent.queue, ObjectWeight) && forall m :: m in agent.queue ==> RenderedIn(acts, b, e, m)
  }

  /** The queue is what is left of the arrangement of one rendered source. */
  ghost predicate LeftOf(queue: seq<Manifest>, acts: seq<Action>, b: nat, e: nat)
    requires e <= |acts|
  {
    queue == [] || exists j, k :: b < j < e && TailAt(queue, acts, j, k)
  }

  predicate TailAt(queue: seq<Manifest>, acts: seq<Action>, j: nat, k: nat)
    requires j < |acts|
  {
    acts[j].Render? && k <= |acts[j].sorted| && queue == acts[j].sorted[k..]
  }

  lemma TailMoves(queue: seq<Manifest>, acts: seq<Action>, b: nat, e: nat)
    requires e < |acts| && LeftOf(queue, acts, b, e)
    ensures LeftOf(queue, acts, b, e + 1)
    ensures queue != [] ==> LeftOf(queue[1..], acts, b, e + 1)
  {
    if queue != [] {
      var j: nat, k: nat :| b < j < e && TailAt(queue, acts, j, k);
      assert TailAt(queue[1..], acts, j, k + 1);
    }
  }

  lemma QueueStep(states: seq<State>, acts: seq<Action>, i: nat)
    requires IsRun(states, acts) && i < |acts| && states[i + 1].agent.Working?
    ensures var queue' := states[i + 1].agent.queue;
      queue' == [] || (acts[i].Render? && queue' == acts[i].sorted) ||
      (states[i].agent.Working? &&
        (queue' == states[i].agent.queue || (states[i].agent.queue != [] && queue' == states[i].agent.queue[1..])))
  {
    assert Enabled(states[i], acts[i]) && states[i + 1] == Step(states[i], acts[i]);
  }

  lemma {:induction false} QueueIsLeftOver(states: seq<State>, acts: seq<Action>, b: nat, e: nat)
    requires IsRun(states, acts) && InPass(states, acts, b, e) && states[e].agent.Working?
    ensures LeftOf(states[e].agent.queue, acts, b, e)
  {
    QueueStep(states, acts, e - 1);
    if b == e - 1 || !states[e - 1].agent.Working? {
      RenderFollowsWork(states, acts, e - 1);
    } else {
      QueueIsLeftOver(states, acts, b, e - 1);
      TailMoves(states[e - 1].agent.queue, acts, b, e - 1);
      if acts[e - 1].Render? {
        assert acts[e - 1].sorted == acts[e - 1].sorted[0..];
        assert TailAt(acts[e - 1].sorted, acts, e - 1, 0);
      }
    }
  }

  lemma RenderFollowsWork(states: seq<State>, acts: seq<Action>, i: nat)
    requires IsRun(states, acts) && i < |acts| && (acts[i].ReadCluster? || !states[i].agent.Working?)
    ensures states[i + 1].agent.Working? ==> states[i + 1].agent.queue == []
  {
    assert Enabled(states[i], acts[i]) && states[i + 1] == Step(states[i], acts[i]);
  }

  lemma QueueStaysInOrder(states: seq<State>, acts: seq<Action>, b: nat, e: nat)
    requires IsRun(states, acts) && InPass(states, acts, b, e) && states[e].agent.Working?
    ensures QueueInOrder(states[e].agent, acts, b, e)
  {
    QueueIsLeftOver(states, acts, b, e);
    if states[e].agent.queue != [] {
      var j, k :| b < j < e && TailAt(states[e].agent.queue, acts, j, k);
      assert Enabled(states[j], acts[j]);
      SortedSuffix(acts[j].sorted, ObjectWeight, k);
      ArrangementMembers(acts[j].sorted, acts[j].ms);
      assert forall m :: m in states[e].agent.queue ==> RenderedAt(acts, j, m);
    }
  }

  /** A ranked manifest rendered so far was handled in this pass, or is still queued. */
  ghost predicate RankedAccounted(states: seq<State>, acts: seq<Action>, b: nat, e: nat)
    requires IsRun(states, acts) && e <= |acts| && states[e].agent.Working?
  {
    forall m :: RenderedIn(acts, b, e, m) && Ranked(m) ==>
      HandledIn(states, acts, b, e, m) || m in states[e].agent.queue
  }

  lemma {:induction false} RankedAccounts(states: seq<State>, acts: seq<Action>, b: nat, e: nat)
    requires IsRun(states, acts) && InPass(states, acts, b, e) && states[e].agent.Working?
    requires RankedServed(states, acts, b, e)
    ensures RankedAccounted(states, acts, b, e)
  {
    if !states[e - 1].agent.Working? {
      NothingRenderedYet(states, acts, b, e);
    } else {
      ServedEarlier(states, acts, b, e);
      RankedAccounts(states, acts, b, e - 1);
      QueueStaysInOrder(states, acts, b, e - 1);
      forall m | RenderedIn(acts, b, e, m) && Ranked(m)
        ensures HandledIn(states, acts, b, e, m) || m in states[e].agent.queue
      {
        RankedAccountsOne(states, acts, b, e, m);
      }
    }
  }

  lemma NothingRenderedYet(states: seq<State>, acts: seq<Action>, b: nat, e: nat)
    requires IsRun(states, acts) && InPass(states, acts, b, e)
    requires states[e].agent.Working? && !states[e - 1].agent.Working?
    ensures forall m :: !RenderedIn(acts, b, e, m)
  {
    assert Enabled(states[e - 1], acts[e - 1]) && states[e - 1 + 1] == Step(states[e - 1], acts[e - 1]);
    PassProgress(states, acts, b, e);
    forall m ensures !RenderedIn(acts, b, e, m) {
      RenderedInIsAmong(acts, b, e, m);
    }
  }

  lemma ServedEarlier(states: seq<State>, acts: seq<Action>, b: nat, e: nat)
    requires IsRun(states, acts) && b < e <= |acts| && RankedServed(states, acts, b, e)
    ensures RankedServed(states, acts, b, e - 1)
  {
    forall i, m | b <= i <= e - 1 && RenderedIn(acts, b, e - 1, m) && Ranked(m)
      ensures m.gvk in states[i].cluster.served
    {
      assert RenderedIn(acts, b, e, m);
    }
  }

  lemma RankedAccountsOne(states: seq<State>, acts: seq<Action>, b: nat, e: nat, m: Manifest)
    requires IsRun(states, acts) && b < e - 1 < |acts| && RankedServed(states, acts, b, e)
    requires states[e - 1].agent.Working? && states[e].agent.Working?
    requires RankedAccounted(states, acts, b, e - 1) && QueueInOrder(states[e - 1].agent, acts, b, e - 1)
    requires RenderedIn(acts, b, e, m) && Ranked(m)
    ensures HandledIn(states, acts, b, e, m) || m in states[e].agent.queue
  {
    if !RenderedAt(acts, e - 1, m) {
      assert RenderedIn(acts, b, e - 1, m);
      if m in states[e - 1].agent.queue {
        HeadIsServed(states, acts, b, e, m);
      }
    }
    RankedStep(states, acts, b, e, m);
  }

  /** What a step does to a manifest that it renders, that was handled before, or that is queued behind a served
      head. */
  lemma RankedStep(states: seq<State>, acts: seq<Action>, b: nat, e: nat, m: Manifest)
    requires IsRun(states, acts) && b < e - 1 < |acts|
    requires states[e - 1].agent.Working? && states[e].agent.Working?
    requires RenderedAt(acts, e - 1, m) || HandledIn(states, acts, b, e - 1, m) || m in states[e - 1].agent.queue
    requires !RenderedAt(acts, e - 1, m) && m in states[e - 1].agent.queue ==>
      states[e - 1].agent.queue[0].gvk in states[e - 1].cluster.served
    ensures HandledIn(states, acts, b, e, m) || m in states[e].agent.queue
  {
    if RenderedAt(acts, e - 1, m) {
      RenderedIsQueued(states, acts, e - 1, m);
    } else if m in states[e - 1].agent.queue {
      QueuedStep(states, acts, e - 1, m);
    }
  }

  lemma RenderedIsQueued(states: seq<State>, acts: seq<Action>, i: nat, m: Manifest)
    requires IsRun(states, acts) && i < |acts| && RenderedAt(acts, i, m)
    ensures states[i + 1].agent.Working? && m in states[i + 1].agent.queue
  {
    assert Enabled(states[i], acts[i]) && states[i + 1] == Step(states[i], acts[i]);
    ArrangementMembers(acts[i].sorted, acts[i].ms);
  }

  lemma HeadIsRanked(agent: Agent, acts: seq<Action>, b: nat, e: nat, m: Manifest)
    requires e <= |acts| && agent.Working? && QueueInOrder(agent, acts, b, e)
    requires m in agent.queue && Ranked(m)
    ensures Ranked(agent.queue[0]) && RenderedIn(acts, b, e, agent.queue[0])
  {
    var i :| 0 <= i < |agent.queue| && agent.queue[i] == m;
    if 0 < i {
      assert ObjectWeight(agent.queue[0]) <= ObjectWeight(agent.queue[i]);
    }
  }

  lemma HeadIsServed(states: seq<State>, acts: seq<Action>, b: nat, e: nat, m: Manifest)
    requires IsRun(states, acts) && b < e - 1 < |acts| && RankedServed(states, acts, b, e)
    requires states[e - 1].agent.Working? && QueueInOrder(states[e - 1].agent, acts, b, e - 1)
    requires m in states[e - 1].agent.queue && Ranked(m)
    ensures states[e - 1].agent.queue[0].gvk in states[e - 1].cluster.served
  {
    var head := states[e - 1].agent.queue[0];
    HeadIsRanked(states[e - 1].agent, acts, b, e - 1, m);
    var j :| b < j < e - 1 && RenderedAt(acts, j, head);
    assert RenderedIn(acts, b, e, head);
  }

  /** Behind a served head nothing is given up. */
  lemma QueuedStep(states: seq<State>, acts: seq<Action>, i: nat, m: Manifest)
    requires IsRun(states, acts) && i < |acts| && states[i].agent.Working? && states[i + 1].agent.Working?
    requires m in states[i].agent.queue && states[i].agent.queue[0].gvk in states[i].cluster.served
    ensures HandledAt(states, acts, i, m) || m in states[i + 1].agent.queue
  {
    assert Enabled(states[i], acts[i]) && states[i + 1] == Step(states[i], acts[i]);
    assert states[i].agent.queue == [states[i].agent.queue[0]] + states[i].agent.queue[1..];
  }

  /** Whenever a source has been worked off - and so at the end of a pass - every ranked
      manifest rendered so far is stored, no matter how many other kinds are unserved. */
  lemma RankedFirst(states: seq<State>, acts: seq<Action>, b: nat, e: nat)
    requires IsRun(states, acts) && InPass(states, acts, b, e)
    requires states[e].agent.Working? && states[e].agent.queue == []
    requires RankedServed(states, acts, b, e)
    ensures forall m :: Among(m, Renderings(acts, b, e)) && Ranked(m) ==> Kept(states, acts, b, e, e, m)
  {
    RankedAccounts(states, acts, b, e);
    forall m | Among(m, Renderings(acts, b, e)) && Ranked(m) ensures Kept(states, acts, b, e, e, m) {
      RenderedInIsAmong(acts, b, e, m);
      HandledIsKept(states, acts, b, e, e, m);
    }
  }

  // ---------------------------------------------------------------- namespaces

  ghost predicate DeclaredBy(acts: seq<Action>, b: nat, j: nat, namespace: string)
    requires j < |acts|
  {
    exists d, m :: b < d <= j && RenderedAt(acts, d, m) && KeyOf(m) == NamespaceKey(namespace)
  }

  /** A manifest's namespace was there when the pass began, or is declared by the same or an earlier source. */
  ghost predicate NamespacesClosed(states: seq<State>, acts: seq<Action>, b: nat, e: nat)
    requires IsRun(states, acts) && b <= e <= |acts|
  {
    forall j, m :: b < j < e && RenderedAt(acts, j, m) && m.namespace != "" ==>
      (NamespaceKey(m.namespace) in states[b].cluster.objects || DeclaredBy(acts, b, j, m.namespace)) &&
      !DeletedIn(acts, b, e, NamespaceKey(m.namespace))
  }

  /** The four ranked kinds are cluster-scoped. */
  ghost predicate RankedClusterScoped(acts: seq<Action>, b: nat, e: nat)
    requires e <= |acts|
  {
    forall m :: RenderedIn(acts, b, e, m) && Ranked(m) ==> m.namespace == ""
  }

  /** A namespace that was rendered is no longer queued when the head of the queue is not a ranked manifest. */
  lemma NamespaceStored(states: seq<State>, acts: seq<Action>, b: nat, e: nat, m: Manifest, namespace: string)
    requires IsRun(states, acts) && InPass(states, acts, b, e)
    requires states[e].agent.Working? && states[e].agent.queue != [] && !Ranked(states[e].agent.queue[0])
    requires RankedServed(states, acts, b, e) && RenderedIn(acts, b, e, m)
    requires KeyOf(m) == NamespaceKey(namespace) && !DeletedIn(acts, b, e, KeyOf(m))
    ensures NamespaceKey(namespace) in states[e].cluster.objects
  {
    NamespaceIsRanked(m, namespace);
    RankedAccounts(states, acts, b, e);
    QueueStaysInOrder(states, acts, b, e);
    if m in states[e].agent.queue {
      HeadIsRanked(states[e].agent, acts, b, e, m);
      assert false;
    }
    HandledIsKept(states, acts, b, e, e, m);
  }

  /** No create call of such a pass is refused for want of a namespace. */
  lemma NamespacesAreThere(states: seq<State>, acts: seq<Action>, b: nat, e: nat)
    requires IsRun(states, acts) && InPass(states, acts, b, e)
    requires states[e].agent.Working? && states[e].agent.queue != []
    requires RankedServed(states, acts, b, e) && RankedClusterScoped(acts, b, e)
    requires NamespacesClosed(states, acts, b, e)
    ensures Respond(states[e].cluster, states[e].agent.queue[0]) != Refused
  {
    var head := states[e].agent.queue[0];
    QueueStaysInOrder(states, acts, b, e);
    assert RenderedIn(acts, b, e, head);
    if head.namespace != "" {
      var j :| b < j < e && RenderedAt(acts, j, head);
      if NamespaceKey(head.namespace) in states[b].cluster.objects {
        ObjectsStay(states, acts, b, e, NamespaceKey(head.namespace));
      } else {
        var m := Declaration(acts, b, j, e, head.namespace);
        NamespaceStored(states, acts, b, e, m, head.namespace);
      }
    }
  }

  lemma Declaration(acts: seq<Action>, b: nat, j: nat, e: nat, namespace: string) returns (m: Manifest)
    requires j < e <= |acts| && DeclaredBy(acts, b, j, namespace)
    ensures RenderedIn(acts, b, e, m) && KeyOf(m) == NamespaceKey(namespace)
  {
    var d: nat, x :| b < d <= j && RenderedAt(acts, d, x) && KeyOf(x) == NamespaceKey(namespace);
    m := x;
  }
}
