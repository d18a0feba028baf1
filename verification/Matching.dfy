/** Which objects a policy selects and which of those meet its conditions (pkg/controller/shared.go). */
module Matching {
  import opened Strings
  import opened Cluster
  import FieldPath

  predicate MatchesNamespace(o: Obj, ns: string) {
    ns == "" || ns == "*" || o.key.ns == ns
  }

  predicate MatchesSelectors(o: Obj, t: Target) {
    && MatchesNamespace(o, t.ns)
    && (match t.labelSelector
        case None => true
        case Some(InvalidSelector) => false
        case Some(Selector(matches)) => matches(o.labels))
    && (forall key | key in t.fieldSelector ::
          NestedText(o, FieldPath.PlainParsed(key)) == Some(t.fieldSelector[key]))
  }

  predicate MeetsPhase(o: Obj, phases: seq<string>) {
    phases == [] ||
    var phase := NestedText(o, ["status", "phase"]);
    phase.Some? && phase.value in phases
  }

  predicate MeetsLabel(o: Obj, c: LabelCondition) {
    var exists_ := c.key in o.labels;
    match c.operator
    case "Exists" => exists_
    case "Equals" => exists_ && o.labels[c.key] == c.value
    case "" => exists_ && o.labels[c.key] == c.value
    case "In" => exists_ && c.value != "" && o.labels[c.key] == c.value
    case "NotIn" => !exists_ || o.labels[c.key] != c.value
    case _ => false
  }

  predicate MeetsAnnotation(o: Obj, c: AnnotationCondition) {
    c.key in o.annotations && o.annotations[c.key] == c.value
  }

  predicate MatchesOperator(value: string, c: FieldCondition) {
    match c.operator
    case "Equals" => value == c.value
    case "NotEquals" => value != c.value
    case "In" => value in c.values
    case "NotIn" => value !in c.values
    case _ => false
  }

  predicate MeetsField(o: Obj, c: FieldCondition) {
    var value := NestedText(o, FieldPath.PlainParsed(c.fieldPath));
    value.Some? && MatchesOperator(value.value, c)
  }

  predicate MeetsConditions(o: Obj, c: Conditions) {
    && MeetsPhase(o, c.phase)
    && (forall l | l in c.hasLabels :: MeetsLabel(o, l))
    && (forall a | a in c.hasAnnotations :: MeetsAnnotation(o, a))
    && (forall f | f in c.and :: MeetsField(o, f))
  }

  /** The check around the condition matcher: a policy without conditions asks for nothing. */
  predicate MeetsPolicy(o: Obj, c: Option<Conditions>) {
    c.None? || MeetsConditions(o, c.value)
  }

  // ----- laws of the operators

  function Merge(a: Conditions, b: Conditions): Conditions
    requires a.phase == b.phase
  {
    Conditions(a.phase, a.hasLabels + b.hasLabels, a.hasAnnotations + b.hasAnnotations, a.and + b.and)
  }

  /** Conditions are a conjunction: asking for more never selects more. */
  lemma MergeIsConjunction(o: Obj, a: Conditions, b: Conditions)
    requires a.phase == b.phase
    ensures MeetsConditions(o, Merge(a, b)) <==> MeetsConditions(o, a) && MeetsConditions(o, b)
  {
    hide MeetsLabel, MeetsAnnotation, MeetsField, MeetsPhase;
    var m := Merge(a, b);
    assert forall l :: l in m.hasLabels <==> l in a.hasLabels || l in b.hasLabels;
    assert forall x :: x in m.hasAnnotations <==> x in a.hasAnnotations || x in b.hasAnnotations;
    assert forall f :: f in m.and <==> f in a.and || f in b.and;
  }

  /** A label that is missing meets NotIn and nothing else; a field that is missing meets no condition at all,
      negated ones included. */
  lemma MissingMeets(o: Obj, l: LabelCondition, f: FieldCondition)
    ensures l.key !in o.labels ==> (MeetsLabel(o, l) <==> l.operator == "NotIn")
    ensures NestedText(o, FieldPath.PlainParsed(f.fieldPath)).None? ==> !MeetsField(o, f)
  {
  }

  /** On what is there, the negated operators are exact complements. The label operator In looks at the single
      value, so it is Equals except that it never matches an empty value; an unknown operator matches nothing. */
  lemma OperatorsComplement(o: Obj, key: string, value: string, path: string, values: seq<string>)
    ensures MeetsLabel(o, LabelCondition(key, value, "NotIn")) <==> !MeetsLabel(o, LabelCondition(key, value, "Equals"))
    ensures MeetsLabel(o, LabelCondition(key, value, "In")) <==>
              value != "" && MeetsLabel(o, LabelCondition(key, value, "Equals"))
    ensures NestedText(o, FieldPath.PlainParsed(path)).Some? ==>
              && (MeetsField(o, FieldCondition(path, "NotEquals", value, values)) <==>
                    !MeetsField(o, FieldCondition(path, "Equals", value, values)))
              && (MeetsField(o, FieldCondition(path, "NotIn", value, values)) <==>
                    !MeetsField(o, FieldCondition(path, "In", value, values)))
    ensures forall op :: op !in {"Exists", "Equals", "", "In", "NotIn"} ==>
              !MeetsLabel(o, LabelCondition(key, value, op))
  {
  }
}
