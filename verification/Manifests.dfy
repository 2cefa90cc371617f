/** Manifests, the key under which a cluster stores them, and the order in
    which the applier creates them (internal/manifest/sort.go). */
module Manifests {
  import opened Slices

  datatype GroupVersionKind = GroupVersionKind(group: string, version: string, kind: string)

  /** An API server stores at most one object per key; the version is not part of it. */
  datatype ObjectKey = ObjectKey(group: string, kind: string, namespace: string, name: string)

  datatype Manifest = Manifest(gvk: GroupVersionKind, namespace: string, name: string, content: string)

  function KeyOf(m: Manifest): ObjectKey {
    ObjectKey(m.gvk.group, m.gvk.kind, m.namespace, m.name)
  }

  function NamespaceKey(namespace: string): ObjectKey {
    ObjectKey("", "Namespace", "", namespace)
  }

  /** Two manifests are of one object exactly if group, kind, namespace and name agree, whatever their version. */
  lemma SameObjectIff(m: Manifest, m': Manifest)
    ensures KeyOf(m) == KeyOf(m') <==>
      m.gvk.group == m'.gvk.group && m.gvk.kind == m'.gvk.kind && m.namespace == m'.namespace && m.name == m'.name
    ensures KeyOf(m) == NamespaceKey(m'.name) <==>
      m.gvk.group == "" && m.gvk.kind == "Namespace" && m.namespace == "" && m.name == m'.name
  {
  }

  // ---------------------------------------------------------------- weights

  const WEIGHTS: seq<string> := [
    "customresourcedefinition.apiextensions.k8s.io",
    "apiexport.apis.kcp.io",
    "apibinding.apis.kcp.io",
    "namespace"
  ]

  function LowerChar(c: char): char {
    if 'A' <= c <= 'Z' then (c as int + 32) as char else c
  }

  const CAPITALS := "ABCDEFGHIJKLMNOPQRSTUVWXYZ"
  const SMALLS := "abcdefghijklmnopqrstuvwxyz"

  /** Each of the 26 capital letters becomes its small one, every other character stays as it is. */
  lemma LowersLetters(c: char)
    ensures forall i :: 0 <= i < 26 ==> LowerChar(CAPITALS[i]) == SMALLS[i]
    ensures c !in CAPITALS ==> LowerChar(c) == c
  {
    if 'A' <= c <= 'Z' {
      assert CAPITALS[c as int - 'A' as int] == c;
    }
  }

  function ToLower(s: string): string {
    seq(|s|, i requires 0 <= i < |s| => LowerChar(s[i]))
  }

  /** A GroupKind as text: the bare kind in the core group, kind.group elsewhere. */
  function GroupKindString(gvk: GroupVersionKind): string {
    if gvk.group == "" then gvk.kind else gvk.kind + "." + gvk.group
  }

  function Index(texts: seq<string>, text: string): int {
    if text !in texts then -1
    else if texts[0] == text then 0
    else 1 + Index(texts[1..], text)
  }

  function ObjectWeight(m: Manifest): int {
    var weight := Index(WEIGHTS, ToLower(GroupKindString(m.gvk)));
    if weight == -1 then |WEIGHTS| else weight
  }

  /** The kinds that are ordered ahead of everything else. */
  predicate Ranked(m: Manifest) {
    ObjectWeight(m) < |WEIGHTS|
  }

  predicate IsKind(gvk: GroupVersionKind, kind: string, group: string) {
    ToLower(gvk.kind) == kind && ToLower(gvk.group) == group
  }

  lemma WeightIsIndex(m: Manifest)
    ensures 0 <= ObjectWeight(m) <= 4
    ensures forall i :: 0 <= i < 4 ==> (ObjectWeight(m) == i <==> ToLower(GroupKindString(m.gvk)) == WEIGHTS[i])
  {
    var text := ToLower(GroupKindString(m.gvk));
    assert WEIGHTS[1..] == [WEIGHTS[1], WEIGHTS[2], WEIGHTS[3]];
    assert WEIGHTS[1..][1..] == [WEIGHTS[2], WEIGHTS[3]];
    assert WEIGHTS[1..][1..][1..] == [WEIGHTS[3]];
    assert |WEIGHTS[0]| == 45 && |WEIGHTS[1]| == 21 && |WEIGHTS[2]| == 22 && |WEIGHTS[3]| == 9;
  }

  /** Two texts kind.group with dotless kinds are equal only part by part. */
  lemma SplitAtDot(kind: string, group: string, kind': string, group': string)
    requires '.' !in kind && '.' !in kind'
    ensures kind + "." + group == kind' + "." + group' <==> kind == kind' && group == group'
  {
    var text, text' := kind + "." + group, kind' + "." + group';
    if text == text' {
      assert text[|kind|] == '.' && text'[|kind'|] == '.';
      assert forall i :: 0 <= i < |kind| ==> text[i] == kind[i] && text[i] in kind;
      assert forall i :: 0 <= i < |kind'| ==> text'[i] == kind'[i] && text'[i] in kind';
      assert kind == text[..|kind|] && kind' == text'[..|kind'|];
      assert group == text[|kind| + 1..] && group' == text'[|kind'| + 1..];
    }
  }

  lemma LowerHasNoDot(s: string)
    requires '.' !in s
    ensures '.' !in ToLower(s)
  {
    forall i | 0 <= i < |s| ensures ToLower(s)[i] != '.' { assert s[i] in s; }
  }

  lemma LowerText(gvk: GroupVersionKind)
    ensures ToLower(GroupKindString(gvk)) ==
            if gvk.group == "" then ToLower(gvk.kind) else ToLower(gvk.kind) + "." + ToLower(gvk.group)
  {
  }

  lemma TextIsKind(gvk: GroupVersionKind, kind: string, group: string)
    requires '.' !in gvk.kind && '.' !in kind && group != ""
    ensures ToLower(GroupKindString(gvk)) == kind + "." + group <==> IsKind(gvk, kind, group)
  {
    LowerText(gvk);
    LowerHasNoDot(gvk.kind);
    if gvk.group == "" {
      assert (kind + "." + group)[|kind|] == '.';
    } else {
      SplitAtDot(ToLower(gvk.kind), ToLower(gvk.group), kind, group);
    }
  }

  lemma TextIsCoreKind(gvk: GroupVersionKind, kind: string)
    requires '.' !in gvk.kind && '.' !in kind
    ensures ToLower(GroupKindString(gvk)) == kind <==> IsKind(gvk, kind, "")
  {
    LowerText(gvk);
    if gvk.group != "" {
      var text := ToLower(gvk.kind) + "." + ToLower(gvk.group);
      assert text[|gvk.kind|] == '.' && '.' in text;
      assert |ToLower(gvk.group)| > 0;
    }
  }

  /** The weight of a manifest, read off its kind and group without regard to case. A kind that contains a dot
      is weighed by the joined text alone, and is never taken for a Namespace. */
  lemma RankTable(m: Manifest)
    ensures 0 <= ObjectWeight(m) <= 4
    ensures '.' !in m.gvk.kind ==>
      (ObjectWeight(m) == 0 <==> IsKind(m.gvk, "customresourcedefinition", "apiextensions.k8s.io")) &&
      (ObjectWeight(m) == 1 <==> IsKind(m.gvk, "apiexport", "apis.kcp.io")) &&
      (ObjectWeight(m) == 2 <==> IsKind(m.gvk, "apibinding", "apis.kcp.io"))
    ensures ObjectWeight(m) == 3 <==> IsKind(m.gvk, "namespace", "")
  {
    WeightIsIndex(m);
    WeightTexts();
    if '.' !in m.gvk.kind {
      TextIsKind(m.gvk, "customresourcedefinition", "apiextensions.k8s.io");
      TextIsKind(m.gvk, "apiexport", "apis.kcp.io");
      TextIsKind(m.gvk, "apibinding", "apis.kcp.io");
    }
    NamespaceHasNoDot(m.gvk);
  }

  lemma NamespaceHasNoDot(gvk: GroupVersionKind)
    ensures ToLower(GroupKindString(gvk)) == "namespace" <==> IsKind(gvk, "namespace", "")
  {
    LowerText(gvk);
    if '.' in gvk.kind {
      var i :| 0 <= i < |gvk.kind| && gvk.kind[i] == '.';
      assert ToLower(gvk.kind)[i] == '.';
      assert ToLower(GroupKindString(gvk))[i] == '.';
      assert '.' !in "namespace";
    } else {
      TextIsCoreKind(gvk, "namespace");
    }
  }

  /** The kind APIExport.apis of the group kcp.io is weighed like the kind APIExport of the group apis.kcp.io. */
  lemma DottedKindIsRanked(m: Manifest)
    requires ToLower(m.gvk.kind) == "apiexport" + "." + "apis" && ToLower(m.gvk.group) == "kcp.io"
    ensures ObjectWeight(m) == 1 && !IsKind(m.gvk, "apiexport", "apis.kcp.io")
  {
    WeightIsIndex(m);
    LowerText(m.gvk);
    assert |ToLower(m.gvk.group)| == 6;
    DottedText();
  }

  lemma DottedText()
    ensures "apiexport" + "." + "apis" + "." + "kcp.io" == WEIGHTS[1]
  {
  }

  predicate Written(m: Manifest, kind: string, group: string) {
    m.gvk.kind == kind && m.gvk.group == group
  }

  lemma WrittenIsKind(m: Manifest, kind: string, group: string, low: string)
    requires Written(m, kind, group) && ToLower(kind) == low && ToLower(group) == group
    ensures IsKind(m.gvk, low, group)
  {
  }

  lemma LowerAppend(s: string, t: string)
    ensures ToLower(s + t) == ToLower(s) + ToLower(t)
  {
  }

  lemma LowerCrd()
    ensures ToLower("Custom" + "Resource" + "Definition") == "custom" + "resource" + "definition"
  {
    LowerAppend("Custom" + "Resource", "Definition");
    LowerAppend("Custom", "Resource");
    assert ToLower("Custom") == "custom";
    assert ToLower("Resource") == "resource";
    assert ToLower("Definition") == "definition";
  }

  lemma JoinedCrd()
    ensures "CustomResourceDefinition" == "Custom" + "Resource" + "Definition"
    ensures "customresourcedefinition" == "custom" + "resource" + "definition"
  {
  }

  lemma DotlessCrd()
    ensures '.' !in "CustomResourceDefinition"
  {
  }

  lemma LowerCrdGroup()
    ensures ToLower("apiextensions.k8s.io") == "apiextensions.k8s.io"
  {
  }

  lemma LowerExport()
    ensures ToLower("APIExport") == "apiexport" && ToLower("apis.kcp.io") == "apis.kcp.io" && '.' !in "APIExport"
  {
  }

  lemma LowerBinding()
    ensures ToLower("APIBinding") == "apibinding" && ToLower("apis.kcp.io") == "apis.kcp.io" && '.' !in "APIBinding"
  {
  }

  /** The weights of the kinds as they are written in manifests, whatever the version, the names and the content. */
  lemma WrittenKinds(m: Manifest)
    ensures Written(m, "CustomResourceDefinition", "apiextensions.k8s.io") ==> ObjectWeight(m) == 0
    ensures Written(m, "APIExport", "apis.kcp.io") ==> ObjectWeight(m) == 1
    ensures Written(m, "APIBinding", "apis.kcp.io") ==> ObjectWeight(m) == 2
    ensures Written(m, "Namespace", "") ==> ObjectWeight(m) == 3
  {
    RankTable(m);
    if Written(m, "CustomResourceDefinition", "apiextensions.k8s.io") {
      LowerCrd();
      JoinedCrd();
      LowerCrdGroup();
      DotlessCrd();
      WrittenIsKind(m, "CustomResourceDefinition", "apiextensions.k8s.io", "customresourcedefinition");
    } else if Written(m, "APIExport", "apis.kcp.io") {
      LowerExport();
      WrittenIsKind(m, "APIExport", "apis.kcp.io", "apiexport");
    } else if Written(m, "APIBinding", "apis.kcp.io") {
      LowerBinding();
      WrittenIsKind(m, "APIBinding", "apis.kcp.io", "apibinding");
    } else if Written(m, "Namespace", "") {
      assert ToLower("Namespace") == "namespace";
    }
  }

  /** And of two that are not ranked. */
  lemma WrittenOthers(m: Manifest)
    ensures Written(m, "ConfigMap", "") ==> ObjectWeight(m) == 4
    ensures Written(m, "Namespace", "example.com") ==> ObjectWeight(m) == 4
  {
    RankTable(m);
    assert |ToLower(m.gvk.kind)| == |m.gvk.kind| && |ToLower(m.gvk.group)| == |m.gvk.group|;
    if Written(m, "ConfigMap", "") {
      assert '.' !in "ConfigMap" && ToLower("ConfigMap")[0] == 'c' && "apiexport"[0] == 'a' && "namespace"[0] == 'n';
    } else if Written(m, "Namespace", "example.com") {
      assert '.' !in "Namespace" && ToLower("Namespace")[0] == 'n' && "apiexport"[0] == 'a';
    }
  }

  lemma WeightTexts()
    ensures WEIGHTS[0] == "customresourcedefinition" + "." + "apiextensions.k8s.io"
    ensures WEIGHTS[1] == "apiexport" + "." + "apis.kcp.io"
    ensures WEIGHTS[2] == "apibinding" + "." + "apis.kcp.io"
  {
  }

  lemma NamespaceIsRanked(m: Manifest, namespace: string)
    requires KeyOf(m) == NamespaceKey(namespace)
    ensures ObjectWeight(m) == 3
  {
    assert ToLower("Namespace") == "namespace";
    RankTable(m);
  }

  // ---------------------------------------------------------------- sorting

  /** All that is promised of the sort: ties may end up in any order. */
  ghost predicate IsArrangement(sorted: seq<Manifest>, ms: seq<Manifest>) {
    multiset(sorted) == multiset(ms) && SortedBy(sorted, ObjectWeight)
  }

  lemma ArrangementMembers(sorted: seq<Manifest>, ms: seq<Manifest>)
    requires IsArrangement(sorted, ms)
    ensures |sorted| == |ms| && forall m :: m in sorted <==> m in ms
  {
    assert |multiset(sorted)| == |multiset(ms)|;
    forall m ensures m in sorted <==> m in ms {
      assert m in sorted <==> m in multiset(sorted);
      assert m in ms <==> m in multiset(ms);
    }
  }

  /** Whatever the order of the template: CRDs come first, then APIExports, APIBindings and Namespaces, then the
      rest. */
  lemma KindsInOrder(sorted: seq<Manifest>, ms: seq<Manifest>, i: nat, j: nat)
    requires IsArrangement(sorted, ms) && i < j < |sorted|
    ensures Written(sorted[j], "CustomResourceDefinition", "apiextensions.k8s.io") ==> ObjectWeight(sorted[i]) == 0
    ensures Written(sorted[i], "ConfigMap", "") ==> !Written(sorted[j], "Namespace", "")
    ensures Written(sorted[i], "Namespace", "") ==> !Written(sorted[j], "APIBinding", "apis.kcp.io")
    ensures Written(sorted[i], "APIBinding", "apis.kcp.io") ==> !Written(sorted[j], "APIExport", "apis.kcp.io")
    ensures Written(sorted[i], "APIExport", "apis.kcp.io") ==>
      !Written(sorted[j], "CustomResourceDefinition", "apiextensions.k8s.io")
  {
    WrittenKinds(sorted[i]);
    WrittenKinds(sorted[j]);
    WrittenOthers(sorted[i]);
    WeightIsIndex(sorted[i]);
    assert ObjectWeight(sorted[i]) <= ObjectWeight(sorted[j]);
  }

  method SortObjectsByHierarchy(objects: array<Manifest>)
    modifies objects
    ensures IsArrangement(objects[..], old(objects[..]))
  {
    SortFunc(objects, ObjectWeight);
  }
}
