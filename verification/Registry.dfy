/** The registry of per-InitTarget managers: one reconcile worker, one watcher and one
    starter goroutine per manager, all interleaved at the granularity of single
    accesses to the map (internal/controller/targetcontroller/controller.go). */
module Registry {

  /** Managers are numbered in the order in which they are registered. */
  type Manager = nat

  /** The worker is between its look at the map and its entry in it, or it is not. */
  datatype Worker = Waiting | Ensuring(uid: string)

  datatype State = State(
    entries: map<string, Manager>,
    /** The UID that each manager was created for. */
    owners: seq<string>,
    cancelled: set<Manager>,
    /** Managers whose watcher goroutine has not removed the map entry yet. */
    watched: set<Manager>,
    root: bool,
    worker: Worker)

  const INITIAL := State(map[], [], {}, {}, false, Waiting)

  datatype Action =
    /** The worker reads an InitTarget without, or with, a DeletionTimestamp. */
    | SeeLive(uid: string)
    | SeeDeleted(uid: string)
    /** The WorkspaceType or the manager could not be had. */
    | GiveUp
    | Register
    | Watcher(m: Manager)
    | StartFails(m: Manager)
    /** The application's own context ends, and with it every manager's. */
    | Shutdown

  predicate IsDone(s: State, m: Manager) {
    m in s.cancelled || s.root
  }

  predicate Enabled(s: State, a: Action) {
    match a
    case SeeLive(_) => s.worker.Waiting?
    case SeeDeleted(_) => s.worker.Waiting?
    case GiveUp => s.worker.Ensuring?
    case Register => s.worker.Ensuring?
    case Watcher(m) => m in s.watched && m < |s.owners| && IsDone(s, m)
    case StartFails(m) => m < |s.owners|
    case Shutdown => true
  }

  function Step(s: State, a: Action): State
    requires Enabled(s, a)
  {
    match a
    case SeeLive(uid) => if uid in s.entries then s else s.(worker := Ensuring(uid))
    case SeeDeleted(uid) =>
      if uid in s.entries then
        s.(entries := s.entries - {uid}, cancelled := s.cancelled + {s.entries[uid]})
      else s
    case GiveUp => s.(worker := Waiting)
    case Register =>
      s.(entries := s.entries[s.worker.uid := |s.owners|], owners := s.owners + [s.worker.uid],
         watched := s.watched + {|s.owners|}, worker := Waiting)
    case Watcher(m) => s.(entries := s.entries - {s.owners[m]}, watched := s.watched - {m})
    case StartFails(m) => s.(cancelled := s.cancelled + {m})
    case Shutdown => s.(root := true)
  }

  ghost predicate IsRun(states: seq<State>, acts: seq<Action>) {
    |states| == |acts| + 1 && states[0] == INITIAL &&
    forall i {:trigger acts[i]} :: 0 <= i < |acts| ==>
      Enabled(states[i], acts[i]) && states[i + 1] == Step(states[i], acts[i])
  }

  /** A manager that was created for this UID and has not been told to stop. */
  predicate Live(s: State, m: Manager, uid: string) {
    m < |s.owners| && s.owners[m] == uid && !IsDone(s, m)
  }

  ghost predicate SeenDeleted(acts: seq<Action>, n: nat, uid: string)
    requires n <= |acts|
  {
    exists i :: 0 <= i < n && acts[i] == SeeDeleted(uid)
  }

  /** Once this UID was seen with a DeletionTimestamp, it is never again seen without one. */
  ghost predicate DeletionIsFinal(acts: seq<Action>, uid: string) {
    forall i, j :: 0 <= i < j < |acts| && acts[i] == SeeDeleted(uid) ==> acts[j] != SeeLive(uid)
  }

  // -------------------------------------------------------------- no stuck entries

  /** Holds in every run: the manager behind an entry is the entry's own, and its watcher is still to run. */
  ghost predicate EntriesWatched(s: State) {
    (forall m :: m in s.watched ==> m < |s.owners|) &&
    forall uid :: uid in s.entries ==>
      s.entries[uid] in s.watched && s.entries[uid] < |s.owners| && s.owners[s.entries[uid]] == uid
  }

  lemma {:induction false} NoStuckEntries(states: seq<State>, acts: seq<Action>, n: nat)
    requires IsRun(states, acts) && n <= |acts|
    ensures EntriesWatched(states[n])
    ensures states[n].root && states[n].watched == {} ==> states[n].entries == map[]
  {
    if n == 0 {
    } else {
      NoStuckEntries(states, acts, n - 1);
      assert Enabled(states[n - 1], acts[n - 1]) && states[n - 1 + 1] == Step(states[n - 1], acts[n - 1]);
    }
  }

  ghost function After(s: State, acts: seq<Action>): State {
    if acts == [] then s
    else
      var t := After(s, acts[..|acts| - 1]);
      if Enabled(t, acts[|acts| - 1]) then Step(t, acts[|acts| - 1]) else t
  }

  lemma AfterSnoc(s: State, acts: seq<Action>, a: Action)
    requires Enabled(After(s, acts), a)
    ensures After(s, acts + [a]) == Step(After(s, acts), a)
  {
    assert (acts + [a])[..|acts|] == acts;
  }

  /** A manager that failed to start can be removed by its watcher, and the next look at the
      InitTarget starts another. */
  lemma FailedIsRestarted(states: seq<State>, acts: seq<Action>, n: nat, uid: string)
    requires IsRun(states, acts) && n <= |acts| && states[n].worker.Waiting? && !states[n].root
    requires uid in states[n].entries
    ensures var s, m := states[n], states[n].entries[uid];
      var t := After(s, [StartFails(m), Watcher(m), SeeLive(uid), Register]);
      !Live(t, m, uid) && uid in t.entries && t.entries[uid] == |s.owners| && Live(t, |s.owners|, uid) &&
      t.watched == s.watched - {m} + {|s.owners|}
    ensures |states[n].owners| !in states[n].cancelled
  {
    NoStuckEntries(states, acts, n);
    OnlyKnownCancelled(states, acts, n);
    var s, m := states[n], states[n].entries[uid];
    AfterSnoc(s, [], StartFails(m));
    assert [] + [StartFails(m)] == [StartFails(m)];
    AfterSnoc(s, [StartFails(m)], Watcher(m));
    assert [StartFails(m)] + [Watcher(m)] == [StartFails(m), Watcher(m)];
    AfterSnoc(s, [StartFails(m), Watcher(m)], SeeLive(uid));
    assert [StartFails(m), Watcher(m)] + [SeeLive(uid)] == [StartFails(m), Watcher(m), SeeLive(uid)];
    AfterSnoc(s, [StartFails(m), Watcher(m), SeeLive(uid)], Register);
    assert [StartFails(m), Watcher(m), SeeLive(uid)] + [Register]
        == [StartFails(m), Watcher(m), SeeLive(uid), Register];
  }

  lemma {:induction false} OnlyKnownCancelled(states: seq<State>, acts: seq<Action>, n: nat)
    requires IsRun(states, acts) && n <= |acts|
    ensures forall m :: m in states[n].cancelled ==> m < |states[n].owners|
  {
    if n == 0 {
    } else {
      OnlyKnownCancelled(states, acts, n - 1);
      NoStuckEntries(states, acts, n - 1);
      assert Enabled(states[n - 1], acts[n - 1]) && states[n - 1 + 1] == Step(states[n - 1], acts[n - 1]);
    }
  }

  // --------------------------------------------------------------------- uniqueness

  /** A stopped manager of this UID whose watcher has still to run. */
  predicate Pending(s: State, m: Manager, uid: string) {
    m in s.watched && m in s.cancelled && m < |s.owners| && s.owners[m] == uid
  }

  /** The worker registers a manager although the watcher of a stopped one is still going to clear the entry. */
  ghost predicate Overtakes(s: State, a: Action, uid: string) {
    a == Register && s.worker == Ensuring(uid) && !s.root && exists m: Manager :: Pending(s, m, uid)
  }

  ghost predicate OvertakesAt(states: seq<State>, acts: seq<Action>, k: nat, uid: string)
    requires k < |acts| < |states|
  {
    Overtakes(states[k], acts[k], uid)
  }

  ghost predicate NeverOvertakes(states: seq<State>, acts: seq<Action>, i: nat, n: nat, uid: string)
    requires |states| == |acts| + 1 && n <= |acts|
  {
    forall k :: i <= k < n ==> !OvertakesAt(states, acts, k, uid)
  }

  /** Until the application ends, a UID has one manager at most that is still watched, and a live one owns the entry. */
  ghost predicate OneWatched(s: State, uid: string) {
    (s.worker == Ensuring(uid) ==> uid !in s.entries) &&
    (!s.root ==>
      (forall m: Manager, m': Manager :: WatchedFor(s, m, uid) && WatchedFor(s, m', uid) ==> m == m') &&
      (forall m: Manager :: Live(s, m, uid) ==> m in s.watched && uid in s.entries && s.entries[uid] == m))
  }

  predicate WatchedFor(s: State, m: Manager, uid: string) {
    m in s.watched && m < |s.owners| && s.owners[m] == uid
  }

  lemma OneWatchedStep(s: State, a: Action, uid: string)
    requires Enabled(s, a) && EntriesWatched(s) && OneWatched(s, uid) && !Overtakes(s, a, uid)
    requires forall m :: m in s.cancelled ==> m < |s.owners|
    ensures OneWatched(Step(s, a), uid)
  {
    var t := Step(s, a);
    forall m: Manager | Live(t, m, uid) && !t.root ensures m in t.watched && uid in t.entries && t.entries[uid] == m {
      if m < |s.owners| {
        assert Live(s, m, uid) && WatchedFor(s, m, uid);
        assert a.Watcher? && s.owners[a.m] == uid ==> WatchedFor(s, a.m, uid);
      }
    }
    forall m: Manager | WatchedFor(t, m, uid) && !(a == Register && s.worker.uid == uid) ensures WatchedFor(s, m, uid) {
    }
    if a == Register && s.worker.uid == uid && !s.root {
      forall m: Manager ensures !WatchedFor(s, m, uid) {
        assert WatchedFor(s, m, uid) ==> Pending(s, m, uid) || Live(s, m, uid);
      }
      forall m: Manager | WatchedFor(t, m, uid) ensures m == |s.owners| {
        assert m < |s.owners| ==> WatchedFor(s, m, uid);
      }
    }
  }

  lemma {:induction false} OneWatchedHolds(states: seq<State>, acts: seq<Action>, n: nat, uid: string)
    requires IsRun(states, acts) && n <= |acts| && NeverOvertakes(states, acts, 0, n, uid)
    ensures OneWatched(states[n], uid)
  {
    if n == 0 {
    } else {
      OneWatchedHolds(states, acts, n - 1, uid);
      NoStuckEntries(states, acts, n - 1);
      OnlyKnownCancelled(states, acts, n - 1);
      assert !OvertakesAt(states, acts, n - 1, uid);
      assert Enabled(states[n - 1], acts[n - 1]) && states[n - 1 + 1] == Step(states[n - 1], acts[n - 1]);
      OneWatchedStep(states[n - 1], acts[n - 1], uid);
    }
  }

  ghost predicate Unique(s: State, uid: string) {
    forall m: Manager, m': Manager :: Live(s, m, uid) && Live(s, m', uid) ==> m == m'
  }

  /** A run that begins with the first n steps of this one, and in which nothing overtakes a watcher after them. */
  ghost predicate Continues(states: seq<State>, acts: seq<Action>, n: nat,
                            states': seq<State>, acts': seq<Action>, uid: string)
    requires |states| == |acts| + 1 && n <= |acts|
  {
    IsRun(states', acts') && n <= |acts'| && states'[..n + 1] == states[..n + 1] && acts'[..n] == acts[..n] &&
    NeverOvertakes(states', acts', n, |acts'|, uid)
  }

  lemma {:induction false} FirstOvertaking(states: seq<State>, acts: seq<Action>, n: nat, uid: string) returns (i: nat)
    requires IsRun(states, acts) && n <= |acts| && !NeverOvertakes(states, acts, 0, n, uid)
    ensures i < n && Overtakes(states[i], acts[i], uid) && NeverOvertakes(states, acts, 0, i, uid)
  {
    if NeverOvertakes(states, acts, 0, n - 1, uid) {
      i := n - 1;
    } else {
      i := FirstOvertaking(states, acts, n - 1, uid);
    }
  }

  lemma ThreeMore(states: seq<State>, acts: seq<Action>, i: nat, s1: State, s2: State, s3: State,
                  a1: Action, a2: Action, a3: Action)
    requires IsRun(states, acts) && i <= |acts|
    requires Enabled(states[i], a1) && s1 == Step(states[i], a1)
    requires Enabled(s1, a2) && s2 == Step(s1, a2) && Enabled(s2, a3) && s3 == Step(s2, a3)
    ensures IsRun(states[..i + 1] + [s1, s2, s3], acts[..i] + [a1, a2, a3])
  {
    var states', acts' := states[..i + 1] + [s1, s2, s3], acts[..i] + [a1, a2, a3];
    forall k | 0 <= k < |acts'| ensures Enabled(states'[k], acts'[k]) && states'[k + 1] == Step(states'[k], acts'[k]) {
      if k < i {
        assert states'[k] == states[k] && states'[k + 1] == states[k + 1] && acts'[k] == acts[k];
      }
    }
  }

  /** After the first registration that overtakes the watcher of m, that watcher, another look at the
      InitTarget and its registration are enough for two live managers. */
  lemma OvertakingBreaks(states: seq<State>, acts: seq<Action>, i: nat, uid: string, m: Manager)
      returns (states': seq<State>, acts': seq<Action>)
    requires IsRun(states, acts) && i < |acts| && Overtakes(states[i], acts[i], uid) && Pending(states[i], m, uid)
    requires NeverOvertakes(states, acts, 0, i, uid)
    ensures Continues(states, acts, i + 1, states', acts', uid)
    ensures acts' == acts[..i + 1] + [Watcher(m), SeeLive(uid), Register]
    ensures !Unique(states'[|acts'|], uid)
  {
    OneWatchedHolds(states, acts, i, uid);
    OnlyKnownCancelled(states, acts, i);
    assert Enabled(states[i], acts[i]) && states[i + 1] == Step(states[i], acts[i]);
    var s1, s2, s3 := TwoLive(states[i], uid, m);
    ThreeMore(states, acts, i + 1, s1, s2, s3, Watcher(m), SeeLive(uid), Register);
    states', acts' := states[..i + 2] + [s1, s2, s3], acts[..i + 1] + [Watcher(m), SeeLive(uid), Register];
  }

  lemma TwoLive(s: State, uid: string, m: Manager) returns (s1: State, s2: State, s3: State)
    requires Overtakes(s, Register, uid) && Pending(s, m, uid) && OneWatched(s, uid)
    requires forall x :: x in s.cancelled ==> x < |s.owners|
    ensures Enabled(Step(s, Register), Watcher(m)) && s1 == Step(Step(s, Register), Watcher(m))
    ensures Enabled(s1, SeeLive(uid)) && s2 == Step(s1, SeeLive(uid))
    ensures Enabled(s2, Register) && s3 == Step(s2, Register)
    ensures !Unique(s3, uid) && !Overtakes(s2, Register, uid)
  {
    var k := |s.owners|;
    s1 := Step(Step(s, Register), Watcher(m));
    s2 := Step(s1, SeeLive(uid));
    s3 := Step(s2, Register);
    assert WatchedFor(s, m, uid);
    forall x: Manager ensures !Pending(s2, x, uid) {
      if Pending(s2, x, uid) && x < k {
        assert WatchedFor(s, x, uid);
      }
    }
    assert Live(s3, k, uid) && Live(s3, k + 1, uid);
  }

  /** No registration of a run overtakes a watcher, exactly if the UID has at most one live manager at
      all times in every run that agrees with it up to some point and overtakes no watcher from there on. */
  lemma UniqueIffNeverOvertakes(states: seq<State>, acts: seq<Action>, uid: string)
    requires IsRun(states, acts)
    ensures NeverOvertakes(states, acts, 0, |acts|, uid) <==>
      forall n: nat, states', acts' :: n <= |acts| && Continues(states, acts, n, states', acts', uid) ==>
        Unique(states'[|acts'|], uid)
  {
    if NeverOvertakes(states, acts, 0, |acts|, uid) {
      forall n: nat, states', acts' | n <= |acts| && Continues(states, acts, n, states', acts', uid)
        ensures Unique(states'[|acts'|], uid)
      {
        ContinuesUnique(states, acts, n, states', acts', uid);
      }
    } else {
      var i := FirstOvertaking(states, acts, |acts|, uid);
      var m :| Pending(states[i], m, uid);
      var states', acts' := OvertakingBreaks(states, acts, i, uid, m);
      assert Continues(states, acts, i + 1, states', acts', uid);
    }
  }

  lemma ContinuesUnique(states: seq<State>, acts: seq<Action>, n: nat,
                        states': seq<State>, acts': seq<Action>, uid: string)
    requires IsRun(states, acts) && n <= |acts| && NeverOvertakes(states, acts, 0, |acts|, uid)
    requires Continues(states, acts, n, states', acts', uid)
    ensures Unique(states'[|acts'|], uid)
  {
    forall k | 0 <= k < |acts'| ensures !OvertakesAt(states', acts', k, uid) {
      if k < n {
        assert !OvertakesAt(states, acts, k, uid);
        assert states'[k] == states'[..n + 1][k] && acts'[k] == acts'[..n][k];
      }
    }
    OneWatchedHolds(states', acts', |acts'|, uid);
  }

  // ------------------------------------------------- when deletion is final

  ghost predicate LiveOwnsEntry(s: State, uid: string) {
    forall m: Manager :: Live(s, m, uid) ==> uid in s.entries && s.entries[uid] == m
  }

  /** A watcher that is still to run owns its entry, unless its UID is being deleted. */
  ghost predicate WatcherOwnsEntry(s: State, acts: seq<Action>, n: nat, uid: string)
    requires n <= |acts|
  {
    forall m :: WatchedFor(s, m, uid) ==> (uid in s.entries && s.entries[uid] == m) || SeenDeleted(acts, n, uid)
  }

  ghost predicate DeletedHasNoEntry(s: State, acts: seq<Action>, n: nat, uid: string)
    requires n <= |acts|
  {
    (SeenDeleted(acts, n, uid) ==> uid !in s.entries) &&
    (s.worker == Ensuring(uid) ==> uid !in s.entries && !SeenDeleted(acts, n, uid))
  }

  lemma DeletionStep(s: State, a: Action, acts: seq<Action>, n: nat, uid: string)
    requires n < |acts| && acts[n] == a && Enabled(s, a) && DeletionIsFinal(acts, uid)
    requires WatcherOwnsEntry(s, acts, n, uid) && DeletedHasNoEntry(s, acts, n, uid)
    ensures WatcherOwnsEntry(Step(s, a), acts, n + 1, uid) && DeletedHasNoEntry(Step(s, a), acts, n + 1, uid)
  {
    assert SeenDeleted(acts, n + 1, uid) <==> SeenDeleted(acts, n, uid) || a == SeeDeleted(uid);
    var t := Step(s, a);
    forall m: Manager | WatchedFor(t, m, uid) && m < |s.owners|
      ensures (uid in t.entries && t.entries[uid] == m) || SeenDeleted(acts, n + 1, uid)
    {
      assert WatchedFor(s, m, uid);
      assert a.Watcher? && s.owners[a.m] == uid ==> WatchedFor(s, a.m, uid);
    }
  }

  lemma {:induction false} DeletionInvariant(states: seq<State>, acts: seq<Action>, n: nat, uid: string)
    requires IsRun(states, acts) && n <= |acts| && DeletionIsFinal(acts, uid)
    ensures WatcherOwnsEntry(states[n], acts, n, uid) && DeletedHasNoEntry(states[n], acts, n, uid)
  {
    if n == 0 {
    } else {
      DeletionInvariant(states, acts, n - 1, uid);
      assert Enabled(states[n - 1], acts[n - 1]) && states[n - 1 + 1] == Step(states[n - 1], acts[n - 1]);
      DeletionStep(states[n - 1], acts[n - 1], acts, n - 1, uid);
    }
  }

  /** If the deletion of a UID is final, no registration of it ever overtakes a watcher. */
  lemma FinalNeverOvertakes(states: seq<State>, acts: seq<Action>, n: nat, uid: string)
    requires IsRun(states, acts) && n <= |acts| && DeletionIsFinal(acts, uid)
    ensures NeverOvertakes(states, acts, 0, n, uid)
  {
    forall i | 0 <= i < n ensures !Overtakes(states[i], acts[i], uid) {
      DeletionInvariant(states, acts, i, uid);
      assert forall m: Manager :: Pending(states[i], m, uid) ==> WatchedFor(states[i], m, uid);
    }
  }

  lemma RegistryInvariant(states: seq<State>, acts: seq<Action>, n: nat, uid: string)
    requires IsRun(states, acts) && n <= |acts| && DeletionIsFinal(acts, uid)
    ensures LiveOwnsEntry(states[n], uid)
    ensures WatcherOwnsEntry(states[n], acts, n, uid)
    ensures DeletedHasNoEntry(states[n], acts, n, uid)
  {
    DeletionInvariant(states, acts, n, uid);
    FinalNeverOvertakes(states, acts, n, uid);
    OneWatchedHolds(states, acts, n, uid);
  }

  /** If its deletion is final, a UID has at any time at most one live manager, and that is the one in the map. */
  lemma AtMostOneManager(states: seq<State>, acts: seq<Action>, n: nat, uid: string, m: Manager, m': Manager)
    requires IsRun(states, acts) && n <= |acts| && DeletionIsFinal(acts, uid)
    requires Live(states[n], m, uid) && Live(states[n], m', uid)
    ensures m == m' && uid in states[n].entries && states[n].entries[uid] == m
  {
    FinalNeverOvertakes(states, acts, n, uid);
    OneWatchedHolds(states, acts, n, uid);
  }

  /** Once the worker has cleaned up after a deleted InitTarget, it never has a live manager again. */
  lemma StopIsPermanent(states: seq<State>, acts: seq<Action>, i: nat, n: nat, uid: string)
    requires IsRun(states, acts) && i < n <= |acts| && DeletionIsFinal(acts, uid)
    requires acts[i] == SeeDeleted(uid)
    ensures forall m: Manager :: !Live(states[n], m, uid)
    ensures uid !in states[n].entries
  {
    RegistryInvariant(states, acts, n, uid);
    assert SeenDeleted(acts, n, uid);
  }

  // ------------------------------------------------------------- what stops a manager

  /** The step cancels m: its own start fails, the application ends, or the worker finds it in the map under a
      deleted UID. */
  predicate Stops(s: State, a: Action, m: Manager) {
    a == StartFails(m) || a == Shutdown || (a.SeeDeleted? && a.uid in s.entries && s.entries[a.uid] == m)
  }

  lemma StopStep(states: seq<State>, acts: seq<Action>, k: nat, m: Manager, uid: string)
    requires IsRun(states, acts) && k < |acts| && m < |states[k].owners| && states[k].owners[m] == uid
    ensures m < |states[k + 1].owners| && states[k + 1].owners[m] == uid
    ensures Live(states[k + 1], m, uid) <==> Live(states[k], m, uid) && !Stops(states[k], acts[k], m)
  {
    assert Enabled(states[k], acts[k]) && states[k + 1] == Step(states[k], acts[k]);
  }

  /** Exactly these steps stop a manager: an InitTarget that is merely gone keeps it running. */
  lemma {:induction false} StoppedIff(states: seq<State>, acts: seq<Action>, i: nat, n: nat, m: Manager, uid: string)
    requires IsRun(states, acts) && i <= n <= |acts| && Live(states[i], m, uid)
    ensures m < |states[n].owners| && states[n].owners[m] == uid
    ensures Live(states[n], m, uid) <==>
      forall k {:trigger Stops(states[k], acts[k], m)} :: i <= k < n ==> !Stops(states[k], acts[k], m)
  {
    if i == n {
    } else {
      StoppedIff(states, acts, i, n - 1, m, uid);
      StopStep(states, acts, n - 1, m, uid);
    }
  }

  predicate StopsByName(a: Action, m: Manager, uid: string) {
    a == SeeDeleted(uid) || a == StartFails(m) || a == Shutdown
  }

  lemma StopsByNameStep(states: seq<State>, acts: seq<Action>, k: nat, m: Manager, uid: string)
    requires IsRun(states, acts) && k < |acts| && Live(states[k], m, uid) && NeverOvertakes(states, acts, 0, k, uid)
    ensures Stops(states[k], acts[k], m) <==> StopsByName(acts[k], m, uid)
  {
    OneWatchedHolds(states, acts, k, uid);
    NoStuckEntries(states, acts, k);
  }

  /** While no registration overtakes a watcher, seeing the deletion is enough: the live manager is the one in
      the map. */
  lemma {:induction false} OnlyTheseStop(states: seq<State>, acts: seq<Action>, i: nat, n: nat, m: Manager, uid: string)
    requires IsRun(states, acts) && i <= n <= |acts| && Live(states[i], m, uid)
    requires NeverOvertakes(states, acts, 0, n, uid)
    ensures Live(states[n], m, uid) <==> forall k :: i <= k < n ==> !StopsByName(acts[k], m, uid)
  {
    if i == n {
    } else {
      OnlyTheseStop(states, acts, i, n - 1, m, uid);
      StoppedIff(states, acts, i, n - 1, m, uid);
      StopStep(states, acts, n - 1, m, uid);
      if Live(states[n - 1], m, uid) {
        StopsByNameStep(states, acts, n - 1, m, uid);
      }
    }
  }

  // ------------------------------------------------- where uniqueness fails

  /** A stale read after the deletion is enough for two live managers of one UID. */
  lemma StaleReadBreaksUniqueness() returns (states: seq<State>, acts: seq<Action>)
    ensures IsRun(states, acts)
    ensures acts ==
      [SeeLive("u"), Register, SeeDeleted("u"), SeeLive("u"), Register, Watcher(0), SeeLive("u"), Register]
    ensures Live(states[8], 1, "u") && Live(states[8], 2, "u")
  {
    var s1 := Step(INITIAL, SeeLive("u"));
    var s2 := Step(s1, Register);
    var s3 := Step(s2, SeeDeleted("u"));
    var s4 := Step(s3, SeeLive("u"));
    var s5 := Step(s4, Register);
    var s6 := Step(s5, Watcher(0));
    var s7 := Step(s6, SeeLive("u"));
    var s8 := Step(s7, Register);
    states := [INITIAL, s1, s2, s3, s4, s5, s6, s7, s8];
    acts := [SeeLive("u"), Register, SeeDeleted("u"), SeeLive("u"), Register, Watcher(0), SeeLive("u"), Register];
  }
}
