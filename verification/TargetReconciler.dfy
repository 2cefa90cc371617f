/** The target controller's methods and goroutines as they are written, against a map
    that other goroutines change between any two accesses. Every method takes only
    steps of the registry's transition system
    (internal/controller/targetcontroller/controller.go). */
module TargetReconciler {
  import opened Registry

  /** What a goroutine, or the end of the application, may do when it gets to run. */
  datatype Goroutine = WatcherRuns(m: Manager) | StarterReturns(m: Manager, failed: bool) | ContextEnds

  /** What the worker reads of an InitTarget. */
  datatype InitTarget = InitTarget(uid: string, deleting: bool) | NotFound | ReadFails

  function GetInitTargetKey(uid: string): string {
    uid
  }

  /** The turns after the next; when the schedule has run out, nothing runs any more. */
  function Rest<T>(schedule: seq<T>): seq<T> {
    if schedule == [] then [] else schedule[1..]
  }

  class Reconciler {
    var ctrlCancels: map<string, Manager>
    /** The keys captured by the goroutines of each manager, and the state of their contexts. */
    var keys: seq<string>
    var cancelled: set<Manager>
    var watched: set<Manager>
    var ctxDone: bool
    /** Which goroutines get to run before the coming accesses; any schedule is possible. */
    var schedule: seq<seq<Goroutine>>

    ghost var worker: Worker
    ghost var states: seq<State>
    ghost var acts: seq<Action>

    ghost function Now(): State reads this {
      State(ctrlCancels, keys, cancelled, watched, ctxDone, worker)
    }

    ghost predicate Valid() reads this {
      IsRun(states, acts) && states[|acts|] == Now()
    }

    constructor (schedule: seq<seq<Goroutine>>)
      ensures Valid() && worker == Waiting && ctrlCancels == map[] && this.schedule == schedule
    {
      ctrlCancels, keys, cancelled, watched, ctxDone := map[], [], {}, {}, false;
      this.schedule := schedule;
      worker, states, acts := Waiting, [INITIAL], [];
    }

    ghost method Log(a: Action)
      requires IsRun(states, acts) && Enabled(states[|acts|], a) && Step(states[|acts|], a) == Now()
      modifies this`states, this`acts
      ensures Valid() && acts == old(acts) + [a]
    {
      states, acts := states + [Now()], acts + [a];
    }

    /** The goroutine that waits for the manager's context and then clears the entry. */
    method RunWatcher(m: Manager)
      requires Valid() && Enabled(Now(), Watcher(m))
      modifies this`ctrlCancels, this`watched, this`states, this`acts
      ensures Valid() && acts == old(acts) + [Watcher(m)]
      ensures ctrlCancels == old(ctrlCancels) - {keys[m]} && watched == old(watched) - {m}
    {
      ctrlCancels := ctrlCancels - {keys[m]};
      watched := watched - {m};
      Log(Watcher(m));
    }

    /** The goroutine that runs the manager: it cancels the context when that failed. */
    method RunStarter(m: Manager, failed: bool)
      requires Valid() && m < |keys|
      modifies this`cancelled, this`states, this`acts
      ensures Valid() && acts == old(acts) + (if failed then [StartFails(m)] else [])
      ensures cancelled == old(cancelled) + (if failed then {m} else {})
    {
      if failed {
        cancelled := cancelled + {m};
        Log(StartFails(m));
      }
    }

    /** What each goroutine of a turn leads to, if it was able to run when the turn began. */
    ghost predicate HasRun(g: Goroutine, before: State) reads this {
      match g
      case WatcherRuns(m) => Enabled(before, Watcher(m)) ==> m !in watched
      case StarterReturns(m, failed) => failed && m < |before.owners| ==> m in cancelled
      case ContextEnds => ctxDone
    }

    /** Compared with an earlier moment of the same reconciliation, goroutines have only cancelled and cleared. */
    ghost predicate LaterThan(s: State) reads this {
      worker == s.worker && keys == s.owners && (s.root ==> ctxDone) &&
      s.cancelled <= cancelled && watched <= s.watched &&
      forall uid :: uid in ctrlCancels ==> uid in s.entries && ctrlCancels[uid] == s.entries[uid]
    }

    /** Lets one goroutine run, if it can. */
    method RunGoroutine(g: Goroutine)
      requires Valid()
      modifies this`ctrlCancels, this`watched, this`cancelled, this`ctxDone, this`states, this`acts
      ensures Valid() && LaterThan(old(Now())) && HasRun(g, old(Now()))
      ensures old(acts) <= acts
      ensures forall i :: |old(acts)| <= i < |acts| ==> acts[i].Watcher? || acts[i].StartFails? || acts[i].Shutdown?
    {
      match g {
        case WatcherRuns(m) =>
          if m in watched && m < |keys| && (m in cancelled || ctxDone) {
            RunWatcher(m);
          }
        case StarterReturns(m, failed) =>
          if m < |keys| {
            RunStarter(m, failed);
          }
        case ContextEnds =>
          ctxDone := true;
          Log(Shutdown);
      }
    }

    /** Lets the goroutines of the next turn run, as far as they can. */
    method Interfere()
      requires Valid()
      modifies this
      ensures Valid() && LaterThan(old(Now()))
      ensures old(acts) <= acts
      ensures forall i :: |old(acts)| <= i < |acts| ==> acts[i].Watcher? || acts[i].StartFails? || acts[i].Shutdown?
      ensures schedule == Rest(old(schedule))
      ensures old(schedule) != [] ==> forall g :: g in old(schedule)[0] ==> HasRun(g, old(Now()))
    {
      if schedule == [] {
        return;
      }
      var turn := schedule[0];
      schedule := schedule[1..];
      var i := 0;
      while i < |turn|
        invariant Valid() && LaterThan(old(Now())) && schedule == old(schedule)[1..] && 0 <= i <= |turn|
        invariant old(acts) <= acts
        invariant forall i :: |old(acts)| <= i < |acts| ==> acts[i].Watcher? || acts[i].StartFails? || acts[i].Shutdown?
        invariant forall j :: 0 <= j < i ==> HasRun(turn[j], old(Now()))
      {
        RunGoroutine(turn[i]);
        i := i + 1;
      }
    }

    /** Starts a manager unless there is one; `available` tells whether the WorkspaceType,
        the manager and the controller could be had. */
    method EnsureInitController(uid: string, available: bool) returns (ok: bool)
      requires Valid() && worker == Waiting
      modifies this
      ensures Valid() && worker == Waiting && old(acts) < acts && acts[|old(acts)|] == SeeLive(uid)
      ensures forall i :: |old(acts)| <= i < |acts| ==> !acts[i].SeeDeleted?
      ensures ok ==> uid in ctrlCancels
      ensures uid !in old(ctrlCancels) ==>
        if available then keys == old(keys) + [uid] && ok && ctrlCancels[uid] == |old(keys)| else keys == old(keys)
      ensures forall u :: u in ctrlCancels && u != uid ==>
        u in old(ctrlCancels) && ctrlCancels[u] == old(ctrlCancels)[u]
      ensures uid !in old(ctrlCancels) && available && !ctxDone ==> Live(Now(), |old(keys)|, uid)
      ensures schedule == if uid in old(ctrlCancels) then old(schedule) else Rest(old(schedule))
      ensures uid in old(ctrlCancels) ==>
        ok && keys == old(keys) && ctrlCancels == old(ctrlCancels) && acts == old(acts) + [SeeLive(uid)]
      ensures ok <==> available || uid in old(ctrlCancels)
    {
      var key := GetInitTargetKey(uid);
      if key in ctrlCancels {
        Log(SeeLive(uid));
        return true;
      }
      BeginEnsuring(key);
      Interfere();
      if !available {
        worker := Waiting;
        Log(GiveUp);
        return false;
      }
      StartManager(key);
      return true;
    }

    /** The worker has found no entry and goes on to create a manager. */
    ghost method BeginEnsuring(key: string)
      requires Valid() && worker == Waiting && key !in ctrlCancels
      modifies this`worker, this`states, this`acts
      ensures Valid() && worker == Ensuring(key) && acts == old(acts) + [SeeLive(key)]
    {
      worker := Ensuring(key);
      Log(SeeLive(key));
    }

    /** Enters a new manager in the map and starts its two goroutines. */
    method StartManager(key: string)
      requires Valid() && worker == Ensuring(key)
      modifies this`ctrlCancels, this`watched, this`keys, this`worker, this`states, this`acts
      ensures Valid() && worker == Waiting && acts == old(acts) + [Register]
      ensures ctrlCancels == old(ctrlCancels)[key := |old(keys)|] && keys == old(keys) + [key]
      ensures !ctxDone ==> Live(Now(), |old(keys)|, key)
    {
      OnlyKnownCancelled(states, acts, |acts|);
      ctrlCancels := ctrlCancels[key := |keys|];
      watched := watched + {|keys|};
      keys := keys + [key];
      worker := Waiting;
      Log(Register);
    }

    method CleanupController(uid: string)
      requires Valid() && worker == Waiting
      modifies this`ctrlCancels, this`cancelled, this`states, this`acts
      ensures Valid() && acts == old(acts) + [SeeDeleted(uid)]
      ensures ctrlCancels == old(ctrlCancels) - {uid}
      ensures cancelled == old(cancelled) + (if uid in old(ctrlCancels) then {old(ctrlCancels)[uid]} else {})
    {
      var key := GetInitTargetKey(uid);
      if key in ctrlCancels {
        cancelled := cancelled + {ctrlCancels[key]};
        ctrlCancels := ctrlCancels - {key};
      }
      Log(SeeDeleted(uid));
    }

    /** One reconciliation. Afterwards an InitTarget that was seen deleting has no manager in the
        map, and one that was seen alive has, unless its WorkspaceType or a manager could not be had.
        No more than one manager is started, and only for an InitTarget that was seen alive. */
    method Reconcile(target: InitTarget, available: bool) returns (ok: bool)
      requires Valid() && worker == Waiting
      modifies this
      ensures Valid() && worker == Waiting && old(acts) <= acts
      ensures target.InitTarget? && !target.deleting ==>
        (ok ==> target.uid in ctrlCancels) && (available ==> ok) &&
        (keys == old(keys) || (available && keys == old(keys) + [target.uid])) &&
        (target.uid !in old(ctrlCancels) && available ==>
          keys == old(keys) + [target.uid] && ctrlCancels[target.uid] == |old(keys)| &&
          (!ctxDone ==> Live(Now(), |old(keys)|, target.uid))) &&
        (target.uid !in old(ctrlCancels) && !available ==> !ok) &&
        exists i :: |old(acts)| <= i < |acts| && acts[i] == SeeLive(target.uid)
      ensures target.InitTarget? && target.deleting ==>
        ok && target.uid !in ctrlCancels && acts != [] && acts[|acts| - 1] == SeeDeleted(target.uid)
      ensures !(target.InitTarget? && !target.deleting) ==> keys == old(keys) && schedule == Rest(old(schedule))
      ensures schedule == Rest(old(schedule)) || schedule == Rest(Rest(old(schedule)))
      ensures target.NotFound? ==> ok
      ensures target.ReadFails? ==> !ok
      ensures !target.InitTarget? ==>
        forall i :: |old(acts)| <= i < |acts| ==> acts[i].Watcher? || acts[i].StartFails? || acts[i].Shutdown?
      ensures forall i :: |old(acts)| <= i < |acts| && acts[i].SeeDeleted? ==>
        target.InitTarget? && target.deleting && acts[i].uid == target.uid
    {
      Interfere();
      match target {
        case ReadFails => return false;
        case NotFound => return true;
        case InitTarget(uid, deleting) =>
          if deleting {
            CleanupController(uid);
            return true;
          }
          ghost var before := acts;
          ok := EnsureInitController(uid, available);
          assert acts[|before|] == SeeLive(uid);
      }
    }
  }
}
