/** Several agents, one list of initializers. Each reads the whole list, perhaps an old
    version of it, and later replaces the whole list by what it read minus its own entry
    (internal/controller/initcontroller/reconciler.go, removeInitializer). */
module Initializers {
  import opened Slices

  /** The list in the LogicalCluster, and the copies that agents are working from. */
  datatype Shared = Shared(list: seq<string>, views: map<string, seq<string>>)

  /** Agents have names of their own: two of them may be after the same initializer. */
  datatype Move =
    /** The cache serves the list as it was before move number `version`. */
    | Get(agent: string, own: string, version: nat)
    | Put(agent: string, own: string)
    | Drop(agent: string)
    /** Somebody who is not an agent writes the list. */
    | Set(list: seq<string>)
    | Stay

  ghost predicate Possible(shared: seq<Shared>, n: nat, m: Move)
    requires n < |shared|
  {
    match m
    case Get(_, _, version) => version <= n
    case Put(a, own) => a in shared[n].views && own in shared[n].views[a]
    case _ => true
  }

  ghost function MoveStep(shared: seq<Shared>, n: nat, m: Move): Shared
    requires n < |shared| && Possible(shared, n, m)
  {
    var s := shared[n];
    match m
    case Get(a, own, version) =>
      if own in shared[version].list then s.(views := s.views[a := shared[version].list])
      else s.(views := s.views - {a})
    case Put(a, own) => Shared(Without(s.views[a], own), s.views - {a})
    case Drop(a) => s.(views := s.views - {a})
    case Set(list) => s.(list := list)
    case Stay => s
  }

  ghost predicate IsPlay(shared: seq<Shared>, moves: seq<Move>) {
    |shared| == |moves| + 1 && shared[0].views == map[] &&
    forall i {:trigger moves[i]} :: 0 <= i < |moves| ==>
      Possible(shared, i, moves[i]) && shared[i + 1] == MoveStep(shared, i, moves[i])
  }

  predicate By(m: Move, a: string) {
    (m.Get? || m.Put? || m.Drop?) && m.agent == a
  }

  /** The copy that agent a works from after n moves was made by move i. */
  ghost predicate Window(moves: seq<Move>, i: nat, n: nat, a: string)
    requires n <= |moves|
  {
    i < n && moves[i].Get? && moves[i].agent == a && moves[i].version <= i && forall k :: i < k < n ==> !By(moves[k], a)
  }

  lemma {:induction false} ViewHasWindow(shared: seq<Shared>, moves: seq<Move>, n: nat, a: string) returns (i: nat)
    requires IsPlay(shared, moves) && n <= |moves| && a in shared[n].views
    ensures Window(moves, i, n, a) && shared[n].views[a] == shared[moves[i].version].list
  {
    var m := moves[n - 1];
    assert Possible(shared, n - 1, m) && shared[n - 1 + 1] == MoveStep(shared, n - 1, m);
    if By(m, a) {
      i := n - 1;
    } else {
      i := ViewHasWindow(shared, moves, n - 1, a);
    }
  }

  lemma OneWindow(moves: seq<Move>, i: nat, i': nat, n: nat, a: string)
    requires n <= |moves| && Window(moves, i, n, a) && Window(moves, i', n, a)
    ensures i == i'
  {
    assert i < i' ==> By(moves[i'], a);
    assert i' < i ==> By(moves[i], a);
  }

  /** What a write puts in place of the list: the version that was read, without the own entry. */
  lemma PutWrites(shared: seq<Shared>, moves: seq<Move>, i: nat, j: nat)
    requires IsPlay(shared, moves) && j < |moves| && moves[j].Put? && Window(moves, i, j, moves[j].agent)
    ensures shared[j + 1].list == Without(shared[moves[i].version].list, moves[j].own)
    ensures moves[j].own in shared[moves[i].version].list
  {
    assert Possible(shared, j, moves[j]) && shared[j + 1] == MoveStep(shared, j, moves[j]);
    var i' := ViewHasWindow(shared, moves, j, moves[j].agent);
    OneWindow(moves, i, i', j, moves[j].agent);
  }

  lemma WindowOf(shared: seq<Shared>, moves: seq<Move>, j: nat) returns (i: nat)
    requires IsPlay(shared, moves) && j < |moves| && moves[j].Put?
    ensures Window(moves, i, j, moves[j].agent)
  {
    assert Possible(shared, j, moves[j]);
    i := ViewHasWindow(shared, moves, j, moves[j].agent);
  }

  lemma OtherKeepsList(shared: seq<Shared>, moves: seq<Move>, j: nat)
    requires IsPlay(shared, moves) && j < |moves| && !moves[j].Put?
    ensures shared[j + 1].list == if moves[j].Set? then moves[j].list else shared[j].list
  {
    assert Possible(shared, j, moves[j]) && shared[j + 1] == MoveStep(shared, j, moves[j]);
  }

  // ------------------------------------------------------- removals as they are meant

  /** The list after n moves, if each removal took its entry off the list of that moment. */
  function Intended(first: seq<string>, moves: seq<Move>, n: nat): seq<string>
    requires n <= |moves|
  {
    if n == 0 then first
    else
      match moves[n - 1]
      case Put(_, own) => Without(Intended(first, moves, n - 1), own)
      case Set(list) => list
      case _ => Intended(first, moves, n - 1)
  }

  /** Apart from the entry that is removed, the list as it should be is the same at the write as in the version
      that was read. */
  ghost predicate Unchanged(first: seq<string>, moves: seq<Move>, j: nat)
    requires j < |moves|
  {
    moves[j].Put? ==> forall i: nat :: Window(moves, i, j, moves[j].agent) ==>
      Without(Intended(first, moves, moves[i].version), moves[j].own) ==
        Without(Intended(first, moves, j), moves[j].own)
  }

  ghost predicate AsIntended(shared: seq<Shared>, moves: seq<Move>, n: nat)
    requires IsPlay(shared, moves) && n <= |moves|
  {
    shared[n].list == Intended(shared[0].list, moves, n)
  }

  lemma {:induction false} UnchangedIsIntended(shared: seq<Shared>, moves: seq<Move>, n: nat)
    requires IsPlay(shared, moves) && n <= |moves|
    requires forall j :: 0 <= j < n ==> Unchanged(shared[0].list, moves, j)
    ensures AsIntended(shared, moves, n)
  {
    if n == 0 {
    } else if moves[n - 1].Put? {
      var i := WindowOf(shared, moves, n - 1);
      UnchangedIsIntended(shared, moves, moves[i].version);
      PutWrites(shared, moves, i, n - 1);
      assert Unchanged(shared[0].list, moves, n - 1);
    } else {
      UnchangedIsIntended(shared, moves, n - 1);
      OtherKeepsList(shared, moves, n - 1);
    }
  }

  lemma IntendedIsUnchanged(shared: seq<Shared>, moves: seq<Move>, j: nat)
    requires IsPlay(shared, moves) && j < |moves| && forall n :: 0 <= n <= |moves| ==> AsIntended(shared, moves, n)
    ensures Unchanged(shared[0].list, moves, j)
  {
    if moves[j].Put? {
      forall i: nat | Window(moves, i, j, moves[j].agent)
        ensures Without(Intended(shared[0].list, moves, moves[i].version), moves[j].own)
             == Without(Intended(shared[0].list, moves, j), moves[j].own)
      {
        PutWrites(shared, moves, i, j);
        assert AsIntended(shared, moves, moves[i].version) && AsIntended(shared, moves, j + 1);
      }
    }
  }

  /** However old the lists that are read, and whoever else writes the list: every removal has its intended
      effect and no other, exactly when nothing but the own entry changes between the version read and the write. */
  lemma AsIntendedIff(shared: seq<Shared>, moves: seq<Move>)
    requires IsPlay(shared, moves)
    ensures (forall n :: 0 <= n <= |moves| ==> AsIntended(shared, moves, n)) <==>
      forall j :: 0 <= j < |moves| ==> Unchanged(shared[0].list, moves, j)
  {
    if forall j :: 0 <= j < |moves| ==> Unchanged(shared[0].list, moves, j) {
      forall n | 0 <= n <= |moves| ensures AsIntended(shared, moves, n) {
        UnchangedIsIntended(shared, moves, n);
      }
    }
    if forall n :: 0 <= n <= |moves| ==> AsIntended(shared, moves, n) {
      forall j | 0 <= j < |moves| ensures Unchanged(shared[0].list, moves, j) {
        IntendedIsUnchanged(shared, moves, j);
      }
    }
  }

  // ------------------------------------------------- nobody but the agents writes the list

  ghost predicate AgentsOnly(moves: seq<Move>) {
    forall i :: 0 <= i < |moves| ==> !moves[i].Set?
  }

  /** The initializers that were removed by then. */
  function Done(moves: seq<Move>, n: nat): set<string>
    requires n <= |moves|
  {
    set i | 0 <= i < n && moves[i].Put? :: moves[i].own
  }

  lemma DoneSnoc(moves: seq<Move>, n: nat)
    requires n < |moves|
    ensures Done(moves, n + 1) == Done(moves, n) + if moves[n].Put? then {moves[n].own} else {}
  {
    forall x | x in Done(moves, n) ensures x in Done(moves, n + 1) {
      var i :| 0 <= i < n && moves[i].Put? && moves[i].own == x;
    }
  }

  lemma DoneGrows(moves: seq<Move>, i: nat, k: nat)
    requires i <= k <= |moves|
    ensures Done(moves, i) <= Done(moves, k)
  {
    forall x | x in Done(moves, i) ensures x in Done(moves, k) {
      var m :| 0 <= m < i && moves[m].Put? && moves[m].own == x;
    }
  }

  function WithoutAll(list: seq<string>, gone: set<string>): seq<string> {
    if list == [] then []
    else
      var rest := WithoutAll(list[..|list| - 1], gone);
      if list[|list| - 1] in gone then rest else rest + [list[|list| - 1]]
  }

  lemma {:induction false} WithoutAllMembers(list: seq<string>, gone: set<string>, x: string)
    ensures x in WithoutAll(list, gone) <==> x in list && x !in gone
  {
    if list == [] {
    } else {
      WithoutAllMembers(list[..|list| - 1], gone, x);
      assert list == list[..|list| - 1] + [list[|list| - 1]];
    }
  }

  lemma {:induction false} WithoutOneMore(list: seq<string>, gone: set<string>, x: string)
    ensures Without(WithoutAll(list, gone), x) == WithoutAll(list, gone + {x})
  {
    if list == [] {
    } else {
      WithoutOneMore(list[..|list| - 1], gone, x);
      var rest := WithoutAll(list[..|list| - 1], gone);
      assert (rest + [list[|list| - 1]])[..|rest|] == rest;
    }
  }

  lemma {:induction false} WithoutNone(list: seq<string>)
    ensures WithoutAll(list, {}) == list
  {
    if list == [] {
    } else {
      WithoutNone(list[..|list| - 1]);
    }
  }

  lemma WithoutAllStep(first: seq<string>, moves: seq<Move>, n: nat)
    requires n < |moves|
    ensures WithoutAll(first, Done(moves, n + 1)) ==
      if moves[n].Put? then Without(WithoutAll(first, Done(moves, n)), moves[n].own)
      else WithoutAll(first, Done(moves, n))
  {
    DoneSnoc(moves, n);
    if moves[n].Put? {
      WithoutOneMore(first, Done(moves, n), moves[n].own);
    } else {
      assert Done(moves, n + 1) == Done(moves, n);
    }
  }

  lemma IntendedStep(first: seq<string>, moves: seq<Move>, n: nat)
    requires n < |moves| && !moves[n].Set?
    ensures Intended(first, moves, n + 1) ==
      if moves[n].Put? then Without(Intended(first, moves, n), moves[n].own) else Intended(first, moves, n)
  {
  }

  lemma IntendedNext(first: seq<string>, moves: seq<Move>, n: nat)
    requires n < |moves| && !moves[n].Set? && Intended(first, moves, n) == WithoutAll(first, Done(moves, n))
    ensures Intended(first, moves, n + 1) == WithoutAll(first, Done(moves, n + 1))
  {
    IntendedStep(first, moves, n);
    WithoutAllStep(first, moves, n);
  }

  lemma IntendedAtFirst(first: seq<string>, moves: seq<Move>)
    ensures Intended(first, moves, 0) == first == WithoutAll(first, Done(moves, 0))
  {
    WithoutNone(first);
    assert Done(moves, 0) == {};
  }

  lemma {:induction false} IntendedIsWithoutAll(first: seq<string>, moves: seq<Move>, n: nat)
    requires AgentsOnly(moves) && n <= |moves|
    ensures Intended(first, moves, n) == WithoutAll(first, Done(moves, n))
  {
    if n == 0 {
      IntendedAtFirst(first, moves);
    } else {
      IntendedIsWithoutAll(first, moves, n - 1);
      IntendedNext(first, moves, n - 1);
    }
  }

  /** After n moves the list is the first one minus the entries that were removed, in order. */
  ghost predicate Conserved(shared: seq<Shared>, moves: seq<Move>, n: nat)
    requires IsPlay(shared, moves) && n <= |moves|
  {
    shared[n].list == WithoutAll(shared[0].list, Done(moves, n))
  }

  /** No other initializer is removed between the version of the list that an agent read and its write. */
  ghost predicate Undisturbed(moves: seq<Move>, j: nat)
    requires j < |moves|
  {
    moves[j].Put? ==> forall i: nat :: Window(moves, i, j, moves[j].agent) ==>
      Done(moves, j) <= Done(moves, moves[i].version) + {moves[j].own}
  }

  ghost predicate Exclusive(moves: seq<Move>) {
    forall j :: 0 <= j < |moves| ==> Undisturbed(moves, j)
  }

  /** Entries only ever come from the first list. */
  lemma {:induction false} NothingNew(shared: seq<Shared>, moves: seq<Move>, n: nat, x: string)
    requires IsPlay(shared, moves) && AgentsOnly(moves) && n <= |moves| && x in shared[n].list
    ensures x in shared[0].list
  {
    if n == 0 {
    } else if moves[n - 1].Put? {
      var i := WindowOf(shared, moves, n - 1);
      PutWrites(shared, moves, i, n - 1);
      WithoutKeeps(shared[moves[i].version].list, moves[n - 1].own, x);
      NothingNew(shared, moves, moves[i].version, x);
    } else {
      OtherKeepsList(shared, moves, n - 1);
      NothingNew(shared, moves, n - 1, x);
    }
  }

  lemma RemovedWasListed(shared: seq<Shared>, moves: seq<Move>, n: nat, x: string)
    requires IsPlay(shared, moves) && AgentsOnly(moves) && n <= |moves| && x in Done(moves, n)
    ensures x in shared[0].list
  {
    var k :| 0 <= k < n && moves[k].Put? && moves[k].own == x;
    var i := WindowOf(shared, moves, k);
    PutWrites(shared, moves, i, k);
    NothingNew(shared, moves, moves[i].version, x);
  }

  /** For lists without x, to be the same means that the same entries of the first list are gone. */
  lemma SameWithout(first: seq<string>, early: set<string>, late: set<string>, x: string)
    requires early <= late && forall b :: b in late ==> b in first
    ensures Without(WithoutAll(first, early), x) == Without(WithoutAll(first, late), x) <==> late <= early + {x}
  {
    WithoutOneMore(first, early, x);
    WithoutOneMore(first, late, x);
    if late <= early + {x} {
      assert late + {x} == early + {x};
    } else {
      var b :| b in late && b !in early + {x};
      WithoutAllMembers(first, early + {x}, b);
      WithoutAllMembers(first, late + {x}, b);
    }
  }

  lemma UnchangedIffUndisturbed(shared: seq<Shared>, moves: seq<Move>, j: nat)
    requires IsPlay(shared, moves) && AgentsOnly(moves) && j < |moves|
    ensures Unchanged(shared[0].list, moves, j) <==> Undisturbed(moves, j)
  {
    if moves[j].Put? {
      IntendedIsWithoutAll(shared[0].list, moves, j);
      forall b | b in Done(moves, j) ensures b in shared[0].list {
        RemovedWasListed(shared, moves, j, b);
      }
      var i := WindowOf(shared, moves, j);
      var version := moves[i].version;
      IntendedIsWithoutAll(shared[0].list, moves, version);
      DoneGrows(moves, version, j);
      SameWithout(shared[0].list, Done(moves, version), Done(moves, j), moves[j].own);
      forall i': nat | Window(moves, i', j, moves[j].agent) ensures i' == i {
        OneWindow(moves, i, i', j, moves[j].agent);
      }
    }
  }

  /** The list is conserved throughout exactly when no window is disturbed, however old the lists that are read. */
  lemma ConservedIffExclusive(shared: seq<Shared>, moves: seq<Move>)
    requires IsPlay(shared, moves) && AgentsOnly(moves)
    ensures (forall n :: 0 <= n <= |moves| ==> Conserved(shared, moves, n)) <==> Exclusive(moves)
  {
    AsIntendedIff(shared, moves);
    forall n | 0 <= n <= |moves| ensures Conserved(shared, moves, n) <==> AsIntended(shared, moves, n) {
      IntendedIsWithoutAll(shared[0].list, moves, n);
    }
    forall j | 0 <= j < |moves| ensures Unchanged(shared[0].list, moves, j) <==> Undisturbed(moves, j) {
      UnchangedIffUndisturbed(shared, moves, j);
    }
  }

  /** An initializer that is removed between the version another agent read and that agent's write is back. */
  lemma DisturbedBreaks(shared: seq<Shared>, moves: seq<Move>, i: nat, j: nat, b: string)
    requires IsPlay(shared, moves) && AgentsOnly(moves) && j < |moves| && moves[j].Put?
    requires Window(moves, i, j, moves[j].agent) && Conserved(shared, moves, moves[i].version)
    requires b in Done(moves, j) && b !in Done(moves, moves[i].version) && b != moves[j].own
    ensures b in shared[j + 1].list && b in Done(moves, j + 1)
    ensures !Conserved(shared, moves, j + 1)
  {
    PutWrites(shared, moves, i, j);
    RemovedWasListed(shared, moves, j, b);
    WithoutAllMembers(shared[0].list, Done(moves, moves[i].version), b);
    WithoutKeeps(shared[moves[i].version].list, moves[j].own, b);
    DoneSnoc(moves, j);
    WithoutAllMembers(shared[0].list, Done(moves, j + 1), b);
  }

  // -------------------------------------------------------------------- examples

  lemma WithoutOne(x: string, y: string)
    requires x != y
    ensures Without([x, y], y) == [x] && Without([x, y], x) == [y]
  {
    assert [x, y][..1] == [x] && [x][..0] == [];
    WithoutAbsent([x], y);
  }

  /** Two agents that read before either writes: what the first one removed is back on the list. */
  lemma LostRemoval(agent: string, agent': string, x: string, y: string) returns (shared: seq<Shared>, moves: seq<Move>)
    requires agent != agent' && x != y
    ensures IsPlay(shared, moves)
    ensures moves == [Get(agent, x, 0), Get(agent', y, 1), Put(agent, x), Put(agent', y)]
    ensures shared[0].list == [x, y] && shared[4].list == [x]
  {
    var both := [x, y];
    var s0 := Shared(both, map[]);
    var s1 := Shared(both, map[agent := both]);
    var s2 := Shared(both, map[agent := both, agent' := both]);
    var s3 := Shared([y], map[agent' := both]);
    var s4 := Shared([x], map[]);
    WithoutOne(x, y);
    shared, moves := [s0, s1, s2, s3, s4], [Get(agent, x, 0), Get(agent', y, 1), Put(agent, x), Put(agent', y)];
  }

  /** Nobody writes between the read and the patch, but what is read is older than the other's removal. */
  lemma StaleReadRevives(agent: string, agent': string, x: string, y: string)
      returns (shared: seq<Shared>, moves: seq<Move>)
    requires x != y
    ensures IsPlay(shared, moves)
    ensures moves == [Get(agent, x, 0), Put(agent, x), Get(agent', y, 0), Put(agent', y)]
    ensures shared[0].list == [x, y] && shared[4].list == [x]
  {
    var both := [x, y];
    var s0 := Shared(both, map[]);
    var s1 := Shared(both, map[agent := both]);
    var s2 := Shared([y], map[]);
    var s3 := Shared([y], map[agent' := both]);
    var s4 := Shared([x], map[]);
    WithoutOne(x, y);
    shared, moves := [s0, s1, s2, s3, s4], [Get(agent, x, 0), Put(agent, x), Get(agent', y, 0), Put(agent', y)];
  }

  /** An agent that reads a list from before its own removal and removes itself once more does no harm. */
  lemma RepeatIsHarmless(agent: string, x: string, y: string) returns (shared: seq<Shared>, moves: seq<Move>)
    requires x != y
    ensures IsPlay(shared, moves)
    ensures moves == [Get(agent, y, 0), Put(agent, y), Get(agent, y, 0), Put(agent, y)]
    ensures shared[0].list == [x, y] && shared[2].list == shared[4].list == [x]
    ensures Exclusive(moves)
  {
    var both := [x, y];
    var s0 := Shared(both, map[]);
    var s1 := Shared(both, map[agent := both]);
    var s2 := Shared([x], map[]);
    var s3 := Shared([x], map[agent := both]);
    WithoutOne(x, y);
    shared, moves := [s0, s1, s2, s3, s2], [Get(agent, y, 0), Put(agent, y), Get(agent, y, 0), Put(agent, y)];
    forall j | 0 <= j < |moves| ensures Undisturbed(moves, j) {
      assert Done(moves, j) <= {y};
    }
  }
}
