/** The generated informer factories: a lock-protected table that creates one informer per
    type, runs each once, and refuses to start more after a shutdown
    (sdk/informers/externalversions/factory.go). Every operation holds the lock
    throughout, so operations are atomic steps. */
module Informers {
  import opened Wrappers

  type Type = string
  type Transform = string

  /** The factory over all clusters, and the one scoped to a single workspace. */
  datatype Variant = AllClusters | Scoped

  datatype Entry = Entry(typ: Type, period: int)

  datatype Option =
    /** The configuration is a map keyed by objects. Its entries come in the order in which it is ranged over,
        and several of them may be of one type. */
    | WithCustomResyncConfig(entries: seq<Entry>)
    /** The transform may be nil, which takes back what an earlier option asked for. */
    | WithTransform(transform: Maybe<Transform>)
    | WithOther

  datatype Options = Options(customResync: map<Type, int>, transform: Maybe<Transform>)

  function Store(customResync: map<Type, int>, entries: seq<Entry>): map<Type, int> {
    if entries == [] then customResync
    else
      var last := entries[|entries| - 1];
      Store(customResync, entries[..|entries| - 1])[last.typ := last.period]
  }

  function ApplyOption(opts: Options, option: Option): Options {
    match option
    case WithCustomResyncConfig(entries) => opts.(customResync := Store(opts.customResync, entries))
    case WithTransform(transform) => opts.(transform := transform)
    case WithOther => opts
  }

  function ApplyOptions(options: seq<Option>): Options {
    if options == [] then Options(map[], Nothing)
    else ApplyOption(ApplyOptions(options[..|options| - 1]), options[|options| - 1])
  }

  datatype Config = Config(
    variant: Variant, defaultResync: int, customResync: map<Type, int>, transform: Maybe<Transform>)

  /** The scoped constructor does not forward the transform. */
  function NewConfig(variant: Variant, defaultResync: int, options: seq<Option>): Config {
    var opts := ApplyOptions(options);
    Config(variant, defaultResync, opts.customResync, if variant.Scoped? then Nothing else opts.transform)
  }

  /** An informer object; `id` is its identity. */
  datatype Informer = Informer(id: nat, resyncPeriod: int, transform: Maybe<Transform>)

  function ResyncPeriod(config: Config, typ: Type): int {
    if typ in config.customResync then config.customResync[typ] else config.defaultResync
  }

  /** Only the scoped factory sets a transform on the informers that it makes. */
  function NewInformer(config: Config, id: nat, typ: Type): Informer {
    Informer(id, ResyncPeriod(config, typ), if config.variant.Scoped? then config.transform else Nothing)
  }

  datatype State = State(
    informers: map<Type, Informer>,
    started: set<Type>,
    /** The types whose informers were run so far, in order, and those whose Run has not returned. */
    runs: seq<Type>,
    running: set<Type>,
    /** The wait group's counter, and how many informers were made. */
    wg: nat,
    made: nat,
    shuttingDown: bool)

  const INITIAL := State(map[], {}, [], {}, 0, 0, false)

  datatype Action =
    | InformerFor(typ: Type)
    | Start(order: seq<Type>)
    | RunReturns(typ: Type)
    | Shutdown

  ghost predicate Distinct<T>(s: seq<T>) {
    forall i, j :: 0 <= i < j < |s| ==> s[i] != s[j]
  }

  /** A map is ranged over in any order. */
  ghost predicate IsOrderOf(order: seq<Type>, types: set<Type>) {
    Distinct(order) && forall t :: t in order <==> t in types
  }

  predicate Refuses(config: Config, s: State) {
    config.variant.AllClusters? && s.shuttingDown
  }

  ghost predicate Enabled(config: Config, s: State, a: Action) {
    match a
    case InformerFor(_) => true
    case Start(order) => if Refuses(config, s) then order == [] else IsOrderOf(order, s.informers.Keys - s.started)
    case RunReturns(typ) => typ in s.running
    case Shutdown => config.variant.AllClusters?
  }

  function TypeSet(order: seq<Type>): set<Type> {
    set t | t in order
  }

  ghost function Step(config: Config, s: State, a: Action): State
    requires Enabled(config, s, a)
  {
    match a
    case InformerFor(typ) =>
      if typ in s.informers then s
      else s.(informers := s.informers[typ := NewInformer(config, s.made, typ)], made := s.made + 1)
    case Start(order) =>
      s.(started := s.started + TypeSet(order), runs := s.runs + order,
         running := s.running + TypeSet(order), wg := s.wg + |order|)
    case RunReturns(typ) =>
      s.(running := s.running - {typ}, wg := if s.wg == 0 then 0 else s.wg - 1)
    case Shutdown => s.(shuttingDown := true)
  }

  ghost predicate IsRun(config: Config, states: seq<State>, acts: seq<Action>) {
    |states| == |acts| + 1 && states[0] == INITIAL &&
    forall i {:trigger acts[i]} :: 0 <= i < |acts| ==>
      Enabled(config, states[i], acts[i]) && states[i + 1] == Step(config, states[i], acts[i])
  }

  // ------------------------------------------------------------- start and shutdown

  ghost predicate Sound(s: State) {
    && s.started <= s.informers.Keys
    && Distinct(s.runs) && TypeSet(s.runs) == s.started
    && s.running <= s.started && s.wg == |s.running|
  }

  /** Each informer is an object of its own. */
  ghost predicate OwnInformers(s: State) {
    (forall t :: t in s.informers ==> s.informers[t].id < s.made) &&
    (forall t, u :: t in s.informers && u in s.informers && t != u ==> s.informers[t].id != s.informers[u].id)
  }

  lemma DistinctAppend<T>(a: seq<T>, b: seq<T>)
    requires Distinct(a) && Distinct(b) && forall x :: x in a ==> x !in b
    ensures Distinct(a + b)
  {
    forall i, j | 0 <= i < j < |a + b| ensures (a + b)[i] != (a + b)[j] {
      if i < |a| <= j {
        assert a[i] in a && b[j - |a|] in b;
      }
    }
  }

  lemma {:induction false} DistinctCount(s: seq<Type>)
    requires Distinct(s)
    ensures |TypeSet(s)| == |s|
  {
    if s == [] {
    } else {
      var init, last := s[..|s| - 1], s[|s| - 1];
      DistinctCount(init);
      assert s == init + [last];
      assert TypeSet(s) == TypeSet(init) + {last};
    }
  }

  lemma StartSound(config: Config, s: State, order: seq<Type>)
    requires Sound(s) && Enabled(config, s, Start(order))
    ensures Sound(Step(config, s, Start(order)))
  {
    DistinctAppend(s.runs, order) by {
      assert forall t :: t in s.runs ==> t in TypeSet(s.runs);
    }
    DistinctCount(order);
    assert TypeSet(s.runs + order) == TypeSet(s.runs) + TypeSet(order);
    assert s.running !! TypeSet(order);
    assert TypeSet(order) <= s.informers.Keys;
  }

  /** Started types are registered types and each of them was run just once, and
      the wait group counts exactly the runs that have not returned. */
  lemma {:induction false} RunOnce(config: Config, states: seq<State>, acts: seq<Action>, n: nat)
    requires IsRun(config, states, acts) && n <= |acts|
    ensures Sound(states[n])
  {
    if n == 0 {
    } else {
      RunOnce(config, states, acts, n - 1);
      assert Enabled(config, states[n - 1], acts[n - 1]);
      assert states[n - 1 + 1] == Step(config, states[n - 1], acts[n - 1]);
      if acts[n - 1].Start? {
        StartSound(config, states[n - 1], acts[n - 1].order);
      }
    }
  }

  lemma {:induction false} InformersDiffer(config: Config, states: seq<State>, acts: seq<Action>, n: nat)
    requires IsRun(config, states, acts) && n <= |acts|
    ensures OwnInformers(states[n])
  {
    if n == 0 {
    } else {
      InformersDiffer(config, states, acts, n - 1);
      assert states[n - 1 + 1] == Step(config, states[n - 1], acts[n - 1]);
    }
  }

  /** No informer object is run twice, by whatever sequence of operations. */
  lemma NoInformerRunTwice(config: Config, states: seq<State>, acts: seq<Action>, n: nat, i: nat, j: nat)
    requires IsRun(config, states, acts) && n <= |acts| && i < j < |states[n].runs|
    ensures states[n].runs[i] in states[n].informers && states[n].runs[j] in states[n].informers
    ensures states[n].informers[states[n].runs[i]] != states[n].informers[states[n].runs[j]]
  {
    RunOnce(config, states, acts, n);
    InformersDiffer(config, states, acts, n);
    assert states[n].runs[i] in TypeSet(states[n].runs) && states[n].runs[j] in TypeSet(states[n].runs);
  }

  lemma CountsRunning(config: Config, states: seq<State>, acts: seq<Action>, n: nat)
    requires IsRun(config, states, acts) && n <= |acts|
    ensures states[n].wg == |states[n].running| && states[n].started <= states[n].informers.Keys
  {
    RunOnce(config, states, acts, n);
  }

  lemma RefusedStart(config: Config, s: State)
    requires Refuses(config, s)
    ensures Enabled(config, s, Start([])) && Step(config, s, Start([])) == s
  {
    assert TypeSet([]) == {};
    assert s.runs + [] == s.runs;
  }

  lemma StepAfterShutdown(config: Config, states: seq<State>, acts: seq<Action>, k: nat)
    requires IsRun(config, states, acts) && k < |acts| && states[k].shuttingDown && config.variant.AllClusters?
    ensures states[k + 1].shuttingDown && states[k + 1].started == states[k].started
    ensures states[k + 1].runs == states[k].runs
    ensures states[k + 1].wg <= states[k].wg && states[k + 1].running <= states[k].running
  {
    assert Enabled(config, states[k], acts[k]) && states[k + 1] == Step(config, states[k], acts[k]);
    if acts[k].Start? {
      RefusedStart(config, states[k]);
    }
  }

  /** Start leaves no registered informer out, unless the factory is shutting down. */
  lemma StartStartsAll(config: Config, states: seq<State>, acts: seq<Action>, i: nat)
    requires IsRun(config, states, acts) && i < |acts| && acts[i].Start? && !Refuses(config, states[i])
    ensures states[i + 1].started == states[i].informers.Keys
    ensures forall t :: t in states[i].informers && t !in states[i].started ==> t in states[i + 1].running
  {
    RunOnce(config, states, acts, i);
    assert Enabled(config, states[i], acts[i]) && states[i + 1] == Step(config, states[i], acts[i]);
  }

  /** After Shutdown has set its flag nothing is started any more, and the count never rises. */
  lemma {:induction false} NothingStartsAfterShutdown(config: Config, states: seq<State>, acts: seq<Action>,
                                                      i: nat, n: nat)
    requires IsRun(config, states, acts) && i <= n <= |acts| && states[i].shuttingDown
    ensures states[n].shuttingDown && states[n].started == states[i].started && states[n].runs == states[i].runs
    ensures states[n].wg <= states[i].wg && states[n].running <= states[i].running
  {
    if i == n {
    } else {
      NothingStartsAfterShutdown(config, states, acts, i, n - 1);
      AlwaysAllClusters(config, states, acts, n - 1);
      StepAfterShutdown(config, states, acts, n - 1);
    }
  }

  /** A Shutdown that has seen the count at zero and returned can rely on nothing running for good. */
  lemma ShutdownIsFinal(config: Config, states: seq<State>, acts: seq<Action>, i: nat, n: nat)
    requires IsRun(config, states, acts) && i <= n <= |acts| && states[i].shuttingDown && states[i].wg == 0
    ensures states[n].wg == 0 && states[n].running == {}
  {
    NothingStartsAfterShutdown(config, states, acts, i, n);
    CountsRunning(config, states, acts, n);
  }

  lemma {:induction false} AlwaysAllClusters(config: Config, states: seq<State>, acts: seq<Action>, n: nat)
    requires IsRun(config, states, acts) && n <= |acts| && states[n].shuttingDown
    ensures config.variant.AllClusters?
  {
    if n == 0 {
    } else {
      assert Enabled(config, states[n - 1], acts[n - 1]);
      assert states[n - 1 + 1] == Step(config, states[n - 1], acts[n - 1]);
      if states[n - 1].shuttingDown {
        AlwaysAllClusters(config, states, acts, n - 1);
      }
    }
  }

  // --------------------------------------------------------------------- memoization

  /** What one option says about a type: the last entry that is ranged over. */
  function LastEntry(entries: seq<Entry>, typ: Type): Maybe<int> {
    if entries == [] then Nothing
    else if entries[|entries| - 1].typ == typ then Just(entries[|entries| - 1].period)
    else LastEntry(entries[..|entries| - 1], typ)
  }

  lemma {:induction false} StoreKeepsLast(customResync: map<Type, int>, entries: seq<Entry>, typ: Type)
    ensures var stored, last := Store(customResync, entries), LastEntry(entries, typ);
      if last.Just? then typ in stored && stored[typ] == last.value
      else (typ in stored <==> typ in customResync) && (typ in stored ==> stored[typ] == customResync[typ])
  {
    if entries == [] {
    } else {
      StoreKeepsLast(customResync, entries[..|entries| - 1], typ);
    }
  }

  /** What a sequence of options says about a type: the last one that mentions it. */
  function LastResync(options: seq<Option>, typ: Type, default: int): int {
    if options == [] then default
    else
      var last := options[|options| - 1];
      if last.WithCustomResyncConfig? && LastEntry(last.entries, typ).Just? then LastEntry(last.entries, typ).value
      else LastResync(options[..|options| - 1], typ, default)
  }

  lemma {:induction false} LastOptionWins(variant: Variant, default: int, options: seq<Option>, typ: Type)
    ensures ResyncPeriod(NewConfig(variant, default, options), typ) == LastResync(options, typ, default)
  {
    if options == [] {
    } else {
      var init, last := options[..|options| - 1], options[|options| - 1];
      LastOptionWins(variant, default, init, typ);
      if last.WithCustomResyncConfig? {
        StoreKeepsLast(ApplyOptions(init).customResync, last.entries, typ);
      }
    }
  }

  lemma {:induction false} LastEntryIsOne(entries: seq<Entry>, typ: Type)
    ensures match LastEntry(entries, typ)
      case Just(period) => Entry(typ, period) in entries
      case Nothing => forall e :: e in entries ==> e.typ != typ
  {
    if entries == [] {
    } else {
      LastEntryIsOne(entries[..|entries| - 1], typ);
      assert entries == entries[..|entries| - 1] + [entries[|entries| - 1]];
    }
  }

  ghost predicate OnePeriod(entries: seq<Entry>, typ: Type) {
    forall e, e' :: e in entries && e' in entries && e.typ == e'.typ == typ ==> e.period == e'.period
  }

  lemma LastRanged(entries: seq<Entry>, e: Entry) returns (order: seq<Entry>)
    requires e in entries
    ensures multiset(order) == multiset(entries) && LastEntry(order, e.typ) == Just(e.period)
  {
    var i :| 0 <= i < |entries| && entries[i] == e;
    order := entries[..i] + entries[i + 1..] + [e];
    assert entries == entries[..i] + [e] + entries[i + 1..];
  }

  lemma SameInAnyOrder(entries: seq<Entry>, order: seq<Entry>, typ: Type)
    requires multiset(order) == multiset(entries) && OnePeriod(entries, typ)
    ensures LastEntry(order, typ) == LastEntry(entries, typ)
  {
    LastEntryIsOne(order, typ);
    LastEntryIsOne(entries, typ);
    forall e ensures e in order <==> e in entries {
      assert e in order <==> e in multiset(order);
      assert e in entries <==> e in multiset(entries);
    }
  }

  lemma DiffersInSomeOrder(entries: seq<Entry>, typ: Type) returns (order: seq<Entry>)
    requires !OnePeriod(entries, typ)
    ensures multiset(order) == multiset(entries) && LastEntry(order, typ) != LastEntry(entries, typ)
  {
    var e, e' :| e in entries && e' in entries && e.typ == e'.typ == typ && e.period != e'.period;
    order := LastRanged(entries, if LastEntry(entries, typ) == Just(e.period) then e' else e);
  }

  /** The period that an option gives a type does not depend on the order in which its map is ranged over, exactly if
      all objects of this type have the same period in it. */
  lemma RangeOrderIrrelevantIff(entries: seq<Entry>, typ: Type)
    ensures (forall order :: multiset(order) == multiset(entries) ==> LastEntry(order, typ) == LastEntry(entries, typ))
       <==> OnePeriod(entries, typ)
  {
    if OnePeriod(entries, typ) {
      forall order | multiset(order) == multiset(entries) ensures LastEntry(order, typ) == LastEntry(entries, typ) {
        SameInAnyOrder(entries, order, typ);
      }
    } else {
      var order := DiffersInSomeOrder(entries, typ);
    }
  }

  predicate Mentions(option: Option, typ: Type) {
    option.WithCustomResyncConfig? && exists k :: 0 <= k < |option.entries| && option.entries[k].typ == typ
  }

  /** Entry k is for this type, and none that is ranged over later is. */
  predicate EntryDecides(entries: seq<Entry>, k: nat, typ: Type) {
    k < |entries| && entries[k].typ == typ && forall j :: k < j < |entries| ==> entries[j].typ != typ
  }

  /** Option i mentions this type, in entry k at last, and no later option does. */
  predicate OptionDecides(options: seq<Option>, i: nat, k: nat, typ: Type) {
    i < |options| && options[i].WithCustomResyncConfig? && EntryDecides(options[i].entries, k, typ) &&
    forall j :: i < j < |options| ==> !Mentions(options[j], typ)
  }

  lemma {:induction false} DecidingEntry(entries: seq<Entry>, typ: Type)
    ensures forall k: nat :: EntryDecides(entries, k, typ) ==> LastEntry(entries, typ) == Just(entries[k].period)
    ensures LastEntry(entries, typ).Just? ==> exists k: nat :: EntryDecides(entries, k, typ)
    ensures LastEntry(entries, typ).Just? <==> exists k :: 0 <= k < |entries| && entries[k].typ == typ
  {
    if entries == [] {
    } else {
      var init, last := entries[..|entries| - 1], |entries| - 1;
      DecidingEntry(init, typ);
      if entries[last].typ == typ {
        assert EntryDecides(entries, last, typ);
      } else {
        forall k: nat ensures EntryDecides(entries, k, typ) <==> EntryDecides(init, k, typ) {
          assert forall j :: 0 <= j < |init| ==> init[j] == entries[j];
        }
      }
    }
  }

  lemma DecidesEarlier(options: seq<Option>, last: Option, i: nat, k: nat, typ: Type)
    requires !Mentions(last, typ)
    ensures OptionDecides(options + [last], i, k, typ) <==> OptionDecides(options, i, k, typ)
  {
    assert forall j :: 0 <= j < |options| ==> (options + [last])[j] == options[j];
    assert (options + [last])[|options|] == last;
  }

  lemma {:induction false} ResyncByIndex(options: seq<Option>, typ: Type, default: int)
    ensures forall i: nat, k: nat :: OptionDecides(options, i, k, typ) ==>
      LastResync(options, typ, default) == options[i].entries[k].period
    ensures (forall i :: 0 <= i < |options| ==> !Mentions(options[i], typ)) ==>
      LastResync(options, typ, default) == default
    ensures (exists i :: 0 <= i < |options| && Mentions(options[i], typ)) ==>
      exists i: nat, k: nat :: OptionDecides(options, i, k, typ)
  {
    if options == [] {
    } else {
      var init, last := options[..|options| - 1], options[|options| - 1];
      assert options == init + [last];
      if last.WithCustomResyncConfig? {
        DecidingEntry(last.entries, typ);
      }
      if Mentions(last, typ) {
        LastDecides(init, last, typ);
      } else {
        ResyncByIndex(init, typ, default);
        forall i: nat, k: nat ensures OptionDecides(options, i, k, typ) <==> OptionDecides(init, i, k, typ) {
          DecidesEarlier(init, last, i, k, typ);
        }
      }
    }
  }

  lemma LastDecides(options: seq<Option>, last: Option, typ: Type)
    requires Mentions(last, typ)
    ensures exists k: nat :: OptionDecides(options + [last], |options|, k, typ)
    ensures forall i: nat, k: nat :: OptionDecides(options + [last], i, k, typ) ==>
      i == |options| && EntryDecides(last.entries, k, typ)
  {
    assert (options + [last])[|options|] == last;
    DecidingEntry(last.entries, typ);
    var k: nat :| EntryDecides(last.entries, k, typ);
    assert OptionDecides(options + [last], |options|, k, typ);
  }

  /** The period of a type is that of the last entry for it in the last option that mentions it, or the default. */
  lemma PeriodByIndex(variant: Variant, default: int, options: seq<Option>, typ: Type)
    ensures forall i: nat, k: nat :: OptionDecides(options, i, k, typ) ==>
      ResyncPeriod(NewConfig(variant, default, options), typ) == options[i].entries[k].period
    ensures (forall i :: 0 <= i < |options| ==> !Mentions(options[i], typ)) ==>
      ResyncPeriod(NewConfig(variant, default, options), typ) == default
    ensures (exists i :: 0 <= i < |options| && Mentions(options[i], typ)) ==>
      exists i: nat, k: nat :: OptionDecides(options, i, k, typ)
  {
    LastOptionWins(variant, default, options, typ);
    ResyncByIndex(options, typ, default);
  }

  /** Once there is an informer for a type it stays the same one, with the period that the options gave it. */
  lemma {:induction false} SameInformer(variant: Variant, default: int, options: seq<Option>,
                                        states: seq<State>, acts: seq<Action>, i: nat, n: nat, typ: Type)
    requires IsRun(NewConfig(variant, default, options), states, acts) && i <= n <= |acts|
    requires typ in states[i].informers
    ensures typ in states[n].informers && states[n].informers[typ] == states[i].informers[typ]
    ensures states[i].informers[typ].resyncPeriod == LastResync(options, typ, default)
  {
    var config := NewConfig(variant, default, options);
    if i < n {
      SameInformer(variant, default, options, states, acts, i, n - 1, typ);
      assert states[n - 1 + 1] == Step(config, states[n - 1], acts[n - 1]);
    } else {
      assert states[i - 1 + 1] == Step(config, states[i - 1], acts[i - 1]);
      LastOptionWins(variant, default, options, typ);
      if typ in states[i - 1].informers {
        SameInformer(variant, default, options, states, acts, i - 1, i - 1, typ);
      }
    }
  }

  /** The transform that the options ask for. */
  function Requested(options: seq<Option>): Maybe<Transform> {
    ApplyOptions(options).transform
  }

  lemma {:induction false} NoTransform(variant: Variant, default: int, options: seq<Option>,
                                       states: seq<State>, acts: seq<Action>, n: nat, typ: Type)
    requires IsRun(NewConfig(variant, default, options), states, acts) && n <= |acts|
    requires typ in states[n].informers
    ensures states[n].informers[typ].transform == Nothing
  {
    var config := NewConfig(variant, default, options);
    assert states[n - 1 + 1] == Step(config, states[n - 1], acts[n - 1]);
    if typ in states[n - 1].informers {
      NoTransform(variant, default, options, states, acts, n - 1, typ);
    }
  }

  /** The last WithTransform among the options has a transform. */
  ghost predicate AsksForTransform(options: seq<Option>) {
    exists i :: LastAsked(options, i)
  }

  /** WithTransform is documented to set a transform on all informers. Neither factory does: the
      informers have the requested transform exactly when the options do not ask for any. */
  lemma TransformIffNotRequested(variant: Variant, default: int, options: seq<Option>,
                                 states: seq<State>, acts: seq<Action>, n: nat, typ: Type)
    requires IsRun(NewConfig(variant, default, options), states, acts) && n <= |acts|
    requires typ in states[n].informers
    ensures states[n].informers[typ].transform == Requested(options) <==> !AsksForTransform(options)
  {
    NoTransform(variant, default, options, states, acts, n, typ);
    RequestedIffAsked(options);
  }

  /** Option i asks for a transform, and no later one takes it back. */
  predicate LastAsked(options: seq<Option>, i: nat) {
    i < |options| && options[i].WithTransform? && options[i].transform.Just? &&
    forall j :: i < j < |options| ==> !options[j].WithTransform?
  }

  lemma OtherKeepsAsked(options: seq<Option>, last: Option)
    requires !last.WithTransform?
    ensures AsksForTransform(options + [last]) <==> AsksForTransform(options)
  {
    forall i: nat | i < |options| ensures LastAsked(options + [last], i) <==> LastAsked(options, i) {
      if LastAsked(options + [last], i) {
        assert forall j :: 0 <= j < |options| ==> options[j] == (options + [last])[j];
      }
    }
  }

  lemma TransformDecides(options: seq<Option>, last: Option)
    requires last.WithTransform?
    ensures AsksForTransform(options + [last]) <==> last.transform.Just?
  {
    assert (options + [last])[|options|] == last;
    if last.transform.Just? {
      assert LastAsked(options + [last], |options|);
    }
  }

  lemma {:induction false} RequestedIffAsked(options: seq<Option>)
    ensures Requested(options).Just? <==> AsksForTransform(options)
  {
    if options == [] {
    } else {
      var init, last := options[..|options| - 1], options[|options| - 1];
      RequestedIffAsked(init);
      assert options == init + [last];
      if last.WithTransform? {
        TransformDecides(init, last);
      } else {
        OtherKeepsAsked(init, last);
      }
    }
  }

  /** One option that asks for a transform, one informer, and the informer has none. */
  lemma TransformIsDropped(variant: Variant) returns (states: seq<State>)
    ensures IsRun(NewConfig(variant, 0, [WithTransform(Just("f"))]), states, [InformerFor("t")])
    ensures Requested([WithTransform(Just("f"))]) == Just("f")
    ensures "t" in states[1].informers && states[1].informers["t"].transform == Nothing
  {
    var config := NewConfig(variant, 0, [WithTransform(Just("f"))]);
    states := [INITIAL, Step(config, INITIAL, InformerFor("t"))];
    assert [WithTransform(Just("f"))][..0] == [];
  }

  // ------------------------------------------------------------------ the code itself

  class Factory {
    const config: Config
    var informers: map<Type, Informer>
    var startedInformers: map<Type, bool>
    var wg: nat
    var shuttingDown: bool
    var made: nat

    ghost var runs: seq<Type>
    ghost var running: set<Type>
    ghost var states: seq<State>
    ghost var acts: seq<Action>

    ghost function Started(): set<Type> reads this {
      set t | t in startedInformers && startedInformers[t]
    }

    ghost function Now(): State reads this {
      State(informers, Started(), runs, running, wg, made, shuttingDown)
    }

    ghost predicate Valid() reads this {
      IsRun(config, states, acts) && states[|acts|] == Now()
    }

    constructor (variant: Variant, defaultResync: int, options: seq<Option>)
      ensures Valid() && config == NewConfig(variant, defaultResync, options) && Now() == INITIAL
    {
      config := NewConfig(variant, defaultResync, options);
      informers, startedInformers, wg, shuttingDown, made := map[], map[], 0, false, 0;
      runs, running, states, acts := [], {}, [INITIAL], [];
    }

    ghost method Log(a: Action)
      requires IsRun(config, states, acts) && Enabled(config, states[|acts|], a)
      requires Step(config, states[|acts|], a) == Now()
      modifies this`states, this`acts
      ensures Valid() && acts == old(acts) + [a]
    {
      states, acts := states + [Now()], acts + [a];
    }

    method InformerForType(typ: Type) returns (informer: Informer)
      requires Valid()
      modifies this`informers, this`made, this`states, this`acts
      ensures Valid() && acts == old(acts) + [InformerFor(typ)]
      ensures typ in informers && informers[typ] == informer
      ensures typ in old(informers) ==> informers == old(informers)
      ensures typ !in old(informers) ==>
        informers == old(informers)[typ := informer] && informer.resyncPeriod == ResyncPeriod(config, typ) &&
        forall t :: t in old(informers) ==> informers[t] == old(informers)[t]
    {
      if typ in informers {
        Log(InformerFor(typ));
        return informers[typ];
      }
      var resyncPeriod := if typ in config.customResync then config.customResync[typ] else config.defaultResync;
      informer := Informer(made, resyncPeriod, Nothing);
      if config.variant.Scoped? {
        informer := informer.(transform := config.transform);
      }
      informers := informers[typ := informer];
      made := made + 1;
      Log(InformerFor(typ));
    }

    /** Counts, launches and marks one informer. */
    method Launch(typ: Type)
      requires typ in informers
      modifies this`startedInformers, this`wg, this`runs, this`running
      ensures Started() == old(Started()) + {typ} && wg == old(wg) + 1
      ensures typ in startedInformers && startedInformers[typ]
      ensures runs == old(runs) + [typ] && running == old(running) + {typ}
    {
      wg := wg + 1;
      runs, running := runs + [typ], running + {typ};
      startedInformers := startedInformers[typ := true];
    }

    /** Ranges over the registered informers and launches those that are not marked. */
    method LaunchUnstarted(ghost s: State) returns (ghost order: seq<Type>)
      requires s == Now()
      modifies this`startedInformers, this`wg, this`runs, this`running
      ensures StartedSoFar(s, order, {}, Now())
    {
      order := [];
      NoneStarted(s);
      var todo := informers.Keys;
      while todo != {}
        invariant StartedSoFar(s, order, todo, Now())
      {
        var t :| t in todo;
        if t !in startedInformers || !startedInformers[t] {
          StartsNext(s, order, todo, Now(), t);
          Launch(t);
          order := order + [t];
        } else {
          SkipsNext(s, order, todo, Now(), t);
        }
        todo := todo - {t};
      }
    }

    /** Starts what has not been started yet; returns (as a ghost) the order in which it did. */
    method StartAll() returns (ghost order: seq<Type>)
      requires Valid()
      modifies this`startedInformers, this`wg, this`runs, this`running, this`states, this`acts
      ensures Valid() && acts == old(acts) + [Start(order)]
      ensures !(config.variant.AllClusters? && shuttingDown) ==> Started() == informers.Keys
      ensures config.variant.AllClusters? && shuttingDown ==> wg == old(wg) && Started() == old(Started())
    {
      if config.variant.AllClusters? && shuttingDown {
        order := [];
        RefusedStart(config, Now());
        Log(Start([]));
        return;
      }
      ghost var s := Now();
      CountsRunning(config, states, acts, |acts|);
      order := LaunchUnstarted(s);
      AllStarted(config, s, order, Now());
      Log(Start(order));
    }

    /** The goroutine of one informer ends. */
    method Done(ghost typ: Type)
      requires Valid() && typ in running
      modifies this`wg, this`running, this`states, this`acts
      ensures Valid() && acts == old(acts) + [RunReturns(typ)] && wg == old(wg) - 1
    {
      CountsRunning(config, states, acts, |acts|);
      wg := wg - 1;
      running := running - {typ};
      Log(RunReturns(typ));
    }

    method BeginShutdown()
      requires Valid() && config.variant.AllClusters?
      modifies this`shuttingDown, this`states, this`acts
      ensures Valid() && shuttingDown && acts == old(acts) + [Action.Shutdown]
    {
      shuttingDown := true;
      Log(Action.Shutdown);
    }

    /** Reports, for exactly the types started by now, whether their caches got synced. */
    method WaitForCacheSync(synced: Informer -> bool) returns (res: map<Type, bool>)
      requires Valid()
      ensures res.Keys == Started() * informers.Keys == Started()
      ensures forall t :: t in res ==> res[t] == synced(informers[t])
    {
      CountsRunning(config, states, acts, |acts|);
      var snapshot := map t | t in informers && t in startedInformers && startedInformers[t] :: informers[t];
      res := map[];
      var todo := snapshot.Keys;
      while todo != {}
        invariant todo <= snapshot.Keys && res.Keys == snapshot.Keys - todo
        invariant forall t :: t in res ==> res[t] == synced(informers[t])
      {
        var t :| t in todo;
        res := res[t := synced(snapshot[t])];
        todo := todo - {t};
      }
    }
  }

  // The loop of Start, seen from outside: s is where it began, todo the types it has not come to.

  ghost predicate StartedSoFar(s: State, order: seq<Type>, todo: set<Type>, now: State) {
    todo <= s.informers.Keys && IsOrderOf(order, (s.informers.Keys - todo) - s.started) &&
    now == s.(started := s.started + TypeSet(order), runs := s.runs + order,
              running := s.running + TypeSet(order), wg := s.wg + |order|)
  }

  lemma NoneStarted(s: State)
    ensures StartedSoFar(s, [], s.informers.Keys, s)
  {
    assert TypeSet([]) == {};
    assert s.runs + [] == s.runs;
  }

  lemma SkipsNext(s: State, order: seq<Type>, todo: set<Type>, now: State, t: Type)
    requires StartedSoFar(s, order, todo, now) && t in todo && t in now.started
    ensures StartedSoFar(s, order, todo - {t}, now)
  {
    assert t !in order;
  }

  lemma StartsNext(s: State, order: seq<Type>, todo: set<Type>, now: State, t: Type)
    requires StartedSoFar(s, order, todo, now) && t in todo && t !in now.started
    ensures StartedSoFar(s, order + [t], todo - {t},
              now.(started := now.started + {t}, runs := now.runs + [t],
                   running := now.running + {t}, wg := now.wg + 1))
  {
    assert TypeSet(order + [t]) == TypeSet(order) + {t};
    assert s.running + TypeSet(order + [t]) == now.running + {t};
    assert s.started + TypeSet(order + [t]) == now.started + {t};
    assert s.runs + (order + [t]) == now.runs + [t];
  }

  lemma AllStarted(config: Config, s: State, order: seq<Type>, now: State)
    requires StartedSoFar(s, order, {}, now) && s.started <= s.informers.Keys && !Refuses(config, s)
    ensures Enabled(config, s, Start(order)) && Step(config, s, Start(order)) == now
    ensures now.started == s.informers.Keys
  {
    assert (s.informers.Keys - {}) - s.started == s.informers.Keys - s.started;
    assert s.started + TypeSet(order) == s.informers.Keys;
  }
}
