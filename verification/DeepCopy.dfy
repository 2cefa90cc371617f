/** The generated deep copies of InitTargets and lists of them: structs with slices and
    pointers inside (sdk/apis/initialization/v1alpha1/zz_generated.deepcopy.go). A struct is a
    value here, a slice an array that may be null, and a pointer an object that may be null. */
module DeepCopy {
  import opened Wrappers

  class TemplateInitSource {
    var name: string

    constructor (name: string)
      ensures this.name == name
    {
      this.name := name;
    }

    method DeepCopy() returns (out: TemplateInitSource)
      ensures fresh(out) && out.name == name
    {
      out := new TemplateInitSource(name);
    }
  }

  datatype InitSource = InitSource(template: TemplateInitSource?)

  datatype WorkspaceTypeReference = WorkspaceTypeReference(path: string, name: string)

  datatype InitTargetSpec = InitTargetSpec(workspaceType: WorkspaceTypeReference, sources: array?<InitSource>)

  datatype InitTarget = InitTarget(typeMeta: string, objectMeta: string, spec: InitTargetSpec)

  class InitTargetList {
    var typeMeta: string
    var listMeta: string
    var items: array?<InitTarget>

    constructor (typeMeta: string, listMeta: string, items: array?<InitTarget>)
      ensures this.typeMeta == typeMeta && this.listMeta == listMeta && this.items == items
    {
      this.typeMeta, this.listMeta, this.items := typeMeta, listMeta, items;
    }
  }

  // ---------------------------------------------------- what is meant, and by what objects

  datatype SourceValue = SourceValue(template: Maybe<string>)

  datatype TargetValue = TargetValue(
    typeMeta: string, objectMeta: string, workspaceType: WorkspaceTypeReference, sources: Maybe<seq<SourceValue>>)

  datatype ListValue = ListValue(typeMeta: string, listMeta: string, items: Maybe<seq<TargetValue>>)

  ghost function Templates(sources: seq<InitSource>): set<object> {
    set i | 0 <= i < |sources| && sources[i].template != null :: sources[i].template
  }

  ghost function SourceOf(source: InitSource): SourceValue
    reads source.template
  {
    SourceValue(if source.template == null then Nothing else Just(source.template.name))
  }

  ghost function SourcesOf(sources: seq<InitSource>): seq<SourceValue>
    reads Templates(sources)
  {
    seq(|sources|, i requires 0 <= i < |sources| reads Templates(sources) => SourceOf(sources[i]))
  }

  /** The objects behind a spec: its slice of sources and their templates. */
  ghost function SpecObjects(spec: InitTargetSpec): set<object>
    reads spec.sources
  {
    if spec.sources == null then {} else {spec.sources} + Templates(spec.sources[..])
  }

  ghost function TargetOf(target: InitTarget): TargetValue
    reads target.spec.sources, SpecObjects(target.spec)
  {
    TargetValue(target.typeMeta, target.objectMeta, target.spec.workspaceType,
      if target.spec.sources == null then Nothing else Just(SourcesOf(target.spec.sources[..])))
  }

  ghost function Slices(targets: seq<InitTarget>): set<object> {
    set i | 0 <= i < |targets| && targets[i].spec.sources != null :: targets[i].spec.sources
  }

  ghost function TargetObjects(targets: seq<InitTarget>): set<object>
    reads Slices(targets)
  {
    set i, o | 0 <= i < |targets| && o in SpecObjects(targets[i].spec) :: o
  }

  ghost function TargetsOf(targets: seq<InitTarget>): seq<TargetValue>
    reads Slices(targets), TargetObjects(targets)
  {
    seq(|targets|, i requires 0 <= i < |targets| reads Slices(targets), TargetObjects(targets) => TargetOf(targets[i]))
  }

  /** Every object that can be reached from a list: the list, its items, their sources, their templates. */
  ghost function ListObjects(list: InitTargetList): set<object>
    reads list, list.items, if list.items == null then {} else Slices(list.items[..])
  {
    {list} + if list.items == null then {} else {list.items} + TargetObjects(list.items[..])
  }

  ghost function ListOf(list: InitTargetList): ListValue
    reads list, list.items, if list.items == null then {} else Slices(list.items[..])
    reads ListObjects(list)
  {
    ListValue(list.typeMeta, list.listMeta,
      if list.items == null then Nothing else Just(TargetsOf(list.items[..])))
  }

  // ------------------------------------------------------------- what equal values mean

  ghost predicate SameSource(a: InitSource, b: InitSource)
    reads a.template, b.template
  {
    (a.template == null <==> b.template == null) && (a.template != null ==> a.template.name == b.template.name)
  }

  /** Two sources mean the same exactly if their templates are null together or have one name. */
  lemma SourceMeans(a: InitSource, b: InitSource)
    ensures SourceOf(a) == SourceOf(b) <==> SameSource(a, b)
  {
  }

  lemma SourcesMean(a: seq<InitSource>, b: seq<InitSource>)
    ensures SourcesOf(a) == SourcesOf(b) <==> |a| == |b| && forall i :: 0 <= i < |a| ==> SameSource(a[i], b[i])
  {
    if SourcesOf(a) == SourcesOf(b) {
      assert |SourcesOf(a)| == |a| && |SourcesOf(b)| == |b|;
      forall i | 0 <= i < |a| ensures SameSource(a[i], b[i]) {
        assert SourcesOf(a)[i] == SourceOf(a[i]) && SourcesOf(b)[i] == SourceOf(b[i]);
        SourceMeans(a[i], b[i]);
      }
    }
    if |a| == |b| && forall i :: 0 <= i < |a| ==> SameSource(a[i], b[i]) {
      assert forall i :: 0 <= i < |a| ==> SourcesOf(a)[i] == SourcesOf(b)[i];
    }
  }

  /** All fields agree, slices element by element. */
  ghost predicate SameFields(a: InitTarget, b: InitTarget)
    reads a.spec.sources, SpecObjects(a.spec), b.spec.sources, SpecObjects(b.spec)
  {
    a.typeMeta == b.typeMeta && a.objectMeta == b.objectMeta &&
    a.spec.workspaceType.path == b.spec.workspaceType.path && a.spec.workspaceType.name == b.spec.workspaceType.name &&
    (a.spec.sources == null <==> b.spec.sources == null) &&
    (a.spec.sources != null ==>
      a.spec.sources.Length == b.spec.sources.Length &&
      forall i :: 0 <= i < a.spec.sources.Length ==> SameSource(a.spec.sources[i], b.spec.sources[i]))
  }

  /** Two InitTargets mean the same exactly if all their fields agree. */
  lemma TargetMeans(a: InitTarget, b: InitTarget)
    ensures TargetOf(a) == TargetOf(b) <==> SameFields(a, b)
  {
    if a.spec.sources != null && b.spec.sources != null {
      SourcesMean(a.spec.sources[..], b.spec.sources[..]);
      assert forall i :: 0 <= i < a.spec.sources.Length ==> a.spec.sources[..][i] == a.spec.sources[i];
      assert forall i :: 0 <= i < b.spec.sources.Length ==> b.spec.sources[..][i] == b.spec.sources[i];
    }
  }

  lemma TargetsMean(a: seq<InitTarget>, b: seq<InitTarget>)
    ensures TargetsOf(a) == TargetsOf(b) <==> |a| == |b| && forall i :: 0 <= i < |a| ==> SameFields(a[i], b[i])
  {
    if TargetsOf(a) == TargetsOf(b) {
      assert |TargetsOf(a)| == |a| && |TargetsOf(b)| == |b|;
      forall i | 0 <= i < |a| ensures SameFields(a[i], b[i]) {
        assert TargetsOf(a)[i] == TargetOf(a[i]) && TargetsOf(b)[i] == TargetOf(b[i]);
        TargetMeans(a[i], b[i]);
      }
    }
    if |a| == |b| && forall i :: 0 <= i < |a| ==> SameFields(a[i], b[i]) {
      forall i | 0 <= i < |a| ensures TargetsOf(a)[i] == TargetsOf(b)[i] {
        TargetMeans(a[i], b[i]);
      }
    }
  }

  /** Two lists mean the same exactly if their metadata agree, their items are null together, and the items agree. */
  lemma ListMeans(a: InitTargetList, b: InitTargetList)
    ensures ListOf(a) == ListOf(b) <==>
      a.typeMeta == b.typeMeta && a.listMeta == b.listMeta && (a.items == null <==> b.items == null) &&
      (a.items != null ==>
        a.items.Length == b.items.Length &&
        forall i :: 0 <= i < a.items.Length ==> SameFields(a.items[..][i], b.items[..][i]))
  {
    if a.items != null && b.items != null {
      TargetsMean(a.items[..], b.items[..]);
    }
  }

  /** The objects of a list are the list itself and everything behind its pointers and slices. */
  lemma ListReaches(list: InitTargetList)
    ensures list in ListObjects(list)
    ensures list.items != null ==>
      list.items in ListObjects(list) &&
      forall i :: 0 <= i < list.items.Length && list.items[i].spec.sources != null ==>
        list.items[i].spec.sources in ListObjects(list) &&
        forall j :: 0 <= j < list.items[i].spec.sources.Length && list.items[i].spec.sources[j].template != null ==>
          list.items[i].spec.sources[j].template in ListObjects(list)
  {
    if list.items != null {
      forall i | 0 <= i < list.items.Length ensures SpecObjects(list.items[i].spec) <= TargetObjects(list.items[..]) {
        assert list.items[..][i] == list.items[i];
      }
      forall i | 0 <= i < list.items.Length && list.items[i].spec.sources != null
        ensures Templates(list.items[i].spec.sources[..]) <= TargetObjects(list.items[..])
      {
      }
      forall i, j | 0 <= i < list.items.Length && list.items[i].spec.sources != null &&
          0 <= j < list.items[i].spec.sources.Length && list.items[i].spec.sources[j].template != null
        ensures list.items[i].spec.sources[j].template in Templates(list.items[i].spec.sources[..])
      {
        assert list.items[i].spec.sources[..][j] == list.items[i].spec.sources[j];
      }
    }
  }

  // ------------------------------------------------------------------- the deep copies

  method CopySource(source: InitSource) returns (out: InitSource)
    ensures SourceOf(out) == SourceOf(source)
    ensures out.template != null ==> fresh(out.template)
  {
    out := source;
    if source.template != null {
      var template := source.template.DeepCopy();
      out := InitSource(template);
    }
  }

  method CopySources(sources: array<InitSource>) returns (out: array<InitSource>)
    ensures fresh(out) && fresh(Templates(out[..]))
    ensures SourcesOf(out[..]) == SourcesOf(sources[..])
  {
    out := new InitSource[sources.Length];
    var i := 0;
    while i < sources.Length
      invariant 0 <= i <= sources.Length
      invariant forall j :: 0 <= j < i ==> out[j].template != null ==> fresh(out[j].template)
      invariant forall j :: 0 <= j < i ==> SourceOf(out[j]) == SourceOf(sources[j])
    {
      var source := CopySource(sources[i]);
      out[i] := source;
      i := i + 1;
    }
  }

  method CopyTarget(target: InitTarget) returns (out: InitTarget)
    ensures TargetOf(out) == TargetOf(target)
    ensures fresh(SpecObjects(out.spec))
  {
    out := target;
    if target.spec.sources != null {
      var sources := CopySources(target.spec.sources);
      out := target.(spec := target.spec.(sources := sources));
    }
  }

  twostate lemma SameTarget(target: InitTarget)
    requires forall o :: o in old(SpecObjects(target.spec)) ==> unchanged(o)
    ensures SpecObjects(target.spec) == old(SpecObjects(target.spec)) && TargetOf(target) == old(TargetOf(target))
  {
    if target.spec.sources != null {
      assert target.spec.sources in old(SpecObjects(target.spec));
      assert target.spec.sources[..] == old(target.spec.sources[..]);
    }
  }

  twostate lemma SameTargets(targets: seq<InitTarget>)
    requires forall o :: o in old(TargetObjects(targets)) ==> unchanged(o)
    ensures TargetObjects(targets) == old(TargetObjects(targets)) && TargetsOf(targets) == old(TargetsOf(targets))
  {
    forall i | 0 <= i < |targets|
      ensures SpecObjects(targets[i].spec) == old(SpecObjects(targets[i].spec))
      ensures TargetOf(targets[i]) == old(TargetOf(targets[i]))
    {
      forall o | o in old(SpecObjects(targets[i].spec)) ensures unchanged(o) {
        assert o in old(TargetObjects(targets));
      }
      SameTarget(targets[i]);
    }
  }

  /** Copies one element in place. */
  method CopyTargetInto(target: InitTarget, out: array<InitTarget>, i: nat)
    requires i < out.Length && out !in SpecObjects(target.spec)
    modifies out
    ensures out[..] == old(out[..])[i := out[i]]
    ensures TargetOf(out[i]) == old(TargetOf(target))
    ensures fresh(SpecObjects(out[i].spec))
  {
    var copy := CopyTarget(target);
    label copied:
    out[i] := copy;
    SameTarget@copied(copy);
  }

  method CopyTargets(targets: array<InitTarget>) returns (out: array<InitTarget>)
    ensures fresh(out) && fresh(TargetObjects(out[..])) && out !in TargetObjects(out[..])
    ensures TargetsOf(out[..]) == TargetsOf(targets[..])
  {
    ghost var meant := TargetsOf(targets[..]);
    out := new InitTarget[targets.Length];
    ghost var done: seq<InitTarget> := [];
    var i := 0;
    while i < targets.Length
      invariant 0 <= i <= targets.Length && out[..i] == done
      invariant forall j :: 0 <= j < i ==> fresh(SpecObjects(done[j].spec)) && out !in SpecObjects(done[j].spec)
      invariant forall j :: 0 <= j < i ==> TargetOf(done[j]) == meant[j]
    {
      label before:
      CopyTargetInto(targets[i], out, i);
      assert old@before(TargetOf(targets[i])) == meant[i];
      forall j | 0 <= j < i
        ensures TargetOf(done[j]) == meant[j]
        ensures SpecObjects(done[j].spec) == old@before(SpecObjects(done[j].spec))
      {
        SameTarget@before(done[j]);
      }
      done := done + [out[i]];
      i := i + 1;
    }
    assert out[..i] == out[..];
    SameTargets(targets[..]);
  }

  /** The copy of a list means the same, null slices and pointers included, and
      shares no object with anything that existed before. */
  method CopyList(list: InitTargetList?) returns (out: InitTargetList?)
    ensures out == null <==> list == null
    ensures list != null ==> ListOf(out) == ListOf(list) && fresh(ListObjects(out))
  {
    if list == null {
      return null;
    }
    out := new InitTargetList(list.typeMeta, list.listMeta, list.items);
    if list.items != null {
      var items := CopyTargets(list.items);
      label copied:
      out.items := items;
      SameTargets@copied(items[..]);
      SameTargets(list.items[..]);
      SameTargets@copied(list.items[..]);
    }
  }

  /** So, whatever is written to the objects of one list afterwards, a list that shares
      none of them still means what it meant. */
  twostate lemma WritesStayApart(written: InitTargetList, other: InitTargetList)
    requires old(ListObjects(written)) !! old(ListObjects(other))
    requires forall o: object :: old(allocated(o)) && o !in old(ListObjects(written)) ==> unchanged(o)
    ensures ListOf(other) == old(ListOf(other))
  {
    assert other in old(ListObjects(other));
    if other.items != null {
      assert old(other.items) in old(ListObjects(other));
      assert other.items[..] == old(other.items[..]);
      SameTargets(old(other.items[..]));
    }
  }
}
