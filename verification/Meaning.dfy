/** What a policy asks for, in the words of its author: selectors and conditions as statements about the object, not as
    the matchers decide them (pkg/controller/shared.go). The matchers are proved to decide exactly this. */
module Meaning {
  import opened Strings
  import opened Cluster
  import opened Matching
  import FieldPath

  ghost predicate Entry(entries: map<string, string>, key: string, value: string) {
    key in entries && entries[key] == value
  }

  /** The object holds this text under the dotted path. */
  ghost predicate Holds(o: Obj, path: string, text: string) {
    var segments := FieldPath.PlainParsed(path);
    segments != [] && segments in o.fields && o.fields[segments] == Text(text)
  }

  ghost predicate Selected(o: Obj, t: Target) {
    && (t.ns in {"", "*"} || o.key.ns == t.ns)
    && (t.labelSelector.Some? ==> t.labelSelector.value.Selector? && t.labelSelector.value.matches(o.labels))
    && (forall path :: path in t.fieldSelector ==> Holds(o, path, t.fieldSelector[path]))
  }

  ghost predicate LabelAsked(o: Obj, l: LabelCondition) {
    || (l.operator == "Exists" && exists value :: Entry(o.labels, l.key, value))
    || (l.operator in {"Equals", ""} && Entry(o.labels, l.key, l.value))
    || (l.operator == "In" && Entry(o.labels, l.key, l.value) && l.value != "")
    || (l.operator == "NotIn" && !Entry(o.labels, l.key, l.value))
  }

  ghost predicate FieldAsked(o: Obj, f: FieldCondition) {
    exists text ::
      && Holds(o, f.fieldPath, text)
      && (|| (f.operator == "Equals" && text == f.value)
          || (f.operator == "NotEquals" && text != f.value)
          || (f.operator == "In" && text in f.values)
          || (f.operator == "NotIn" && text !in f.values))
  }

  /** A policy without conditions asks for nothing, and an empty list of phases for no phase in particular. */
  ghost predicate Asked(o: Obj, conditions: Option<Conditions>) {
    conditions.Some? ==>
      var c := conditions.value;
      && (c.phase != [] ==> exists phase :: phase in c.phase && Holds(o, "status.phase", phase))
      && (forall i :: 0 <= i < |c.hasLabels| ==> LabelAsked(o, c.hasLabels[i]))
      && (forall i :: 0 <= i < |c.hasAnnotations| ==>
            Entry(o.annotations, c.hasAnnotations[i].key, c.hasAnnotations[i].value))
      && (forall i :: 0 <= i < |c.and| ==> FieldAsked(o, c.and[i]))
  }

  lemma HoldsText(o: Obj, path: string, text: string)
    ensures Holds(o, path, text) <==> NestedText(o, FieldPath.PlainParsed(path)) == Some(text)
  {
  }

  lemma StatusPhase()
    ensures FieldPath.PlainParsed("status.phase") == ["status", "phase"]
  {
    assert "status.phase" == "status" + "." + "phase";
    FieldPath.SplitPlain("phase");
    FieldPath.SplitAtDot("status", "phase");
  }

  lemma SelectedExactly(o: Obj, t: Target)
    ensures MatchesSelectors(o, t) <==> Selected(o, t)
  {
    forall path | path in t.fieldSelector
      ensures NestedText(o, FieldPath.PlainParsed(path)) == Some(t.fieldSelector[path]) <==>
              Holds(o, path, t.fieldSelector[path])
    {
      HoldsText(o, path, t.fieldSelector[path]);
    }
  }

  lemma LabelExactly(o: Obj, l: LabelCondition)
    ensures MeetsLabel(o, l) <==> LabelAsked(o, l)
  {
    if l.key in o.labels { assert Entry(o.labels, l.key, o.labels[l.key]); }
  }

  lemma FieldExactly(o: Obj, f: FieldCondition)
    ensures MeetsField(o, f) <==> FieldAsked(o, f)
  {
    var found := NestedText(o, FieldPath.PlainParsed(f.fieldPath));
    if found.Some? { HoldsText(o, f.fieldPath, found.value); }
  }

  lemma PhaseExactly(o: Obj, phases: seq<string>)
    ensures MeetsPhase(o, phases) <==>
            (phases != [] ==> exists phase :: phase in phases && Holds(o, "status.phase", phase))
  {
    StatusPhase();
    var found := NestedText(o, ["status", "phase"]);
    if found.Some? { HoldsText(o, "status.phase", found.value); }
  }

  lemma AskedExactly(o: Obj, conditions: Option<Conditions>)
    ensures MeetsPolicy(o, conditions) <==> Asked(o, conditions)
  {
    hide MeetsPhase, MeetsLabel, MeetsAnnotation, MeetsField, LabelAsked, FieldAsked, Holds, Entry;
    if conditions.Some? {
      var c := conditions.value;
      PhaseExactly(o, c.phase);
      forall l ensures MeetsLabel(o, l) <==> LabelAsked(o, l) { LabelExactly(o, l); }
      forall x ensures MeetsAnnotation(o, x) <==> Entry(o.annotations, x.key, x.value) { AnnotationExactly(o, x); }
      forall f ensures MeetsField(o, f) <==> FieldAsked(o, f) { FieldExactly(o, f); }
      assert forall i :: 0 <= i < |c.hasLabels| ==> c.hasLabels[i] in c.hasLabels;
      assert forall i :: 0 <= i < |c.hasAnnotations| ==> c.hasAnnotations[i] in c.hasAnnotations;
      assert forall i :: 0 <= i < |c.and| ==> c.and[i] in c.and;
    }
  }

  lemma AnnotationExactly(o: Obj, x: AnnotationCondition)
    ensures MeetsAnnotation(o, x) <==> Entry(o.annotations, x.key, x.value)
  {
  }
}
