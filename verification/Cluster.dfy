/** The abstract cluster: objects under their (namespace, kind, name), what the environment may do to them, and
    the policies that select them (pkg/api/v1alpha1/types.go). */
module Cluster {
  import opened Strings

  type Int64 = x: int | -0x8000_0000_0000_0000 <= x < 0x8000_0000_0000_0000

  datatype Key = Key(ns: string, kind: string, name: string)

  /** A leaf of an unstructured object; other leaves are as good as absent to every reader. */
  datatype Field = Text(text: string) | Number(number: Int64)

  /** `created` is in nanoseconds after the zero time.Time; `fields` is the object flattened to its leaves. */
  datatype Obj = Obj(
    key: Key,
    uid: string,
    labels: map<string, string>,
    annotations: map<string, string>,
    created: int,
    fields: map<seq<string>, Field>)

  /** unstructured.NestedString: found only for a text leaf. */
  function NestedText(o: Obj, path: seq<string>): Option<string> {
    if path != [] && path in o.fields && o.fields[path].Text? then Some(o.fields[path].text) else None
  }

  /** unstructured.NestedInt64: found only for an integer leaf. */
  function NestedNumber(o: Obj, path: seq<string>): Option<Int64> {
    if path != [] && path in o.fields && o.fields[path].Number? then Some(o.fields[path].number) else None
  }

  type Live = map<Key, Obj>

  /** One action of somebody other than the controller. */
  datatype Act = Put(obj: Obj) | Drop(key: Key)

  function ActKey(a: Act): Key {
    match a
    case Put(o) => o.key
    case Drop(k) => k
  }

  function ApplyOne(live: Live, a: Act): Live {
    match a
    case Put(o) => live[o.key := o]
    case Drop(k) => live - {k}
  }

  function Apply(live: Live, acts: seq<Act>): Live
    decreases |acts|
  {
    if acts == [] then live else Apply(ApplyOne(live, acts[0]), acts[1..])
  }

  /** Every object is stored under its own key. */
  ghost predicate Keyed(live: Live) {
    forall k :: k in live ==> live[k].key == k
  }

  lemma {:induction false} ApplyKeyed(live: Live, acts: seq<Act>)
    requires Keyed(live)
    ensures Keyed(Apply(live, acts))
    decreases |acts|
  {
    if acts != [] { ApplyKeyed(ApplyOne(live, acts[0]), acts[1..]); }
  }

  lemma {:induction false} ApplyConcat(live: Live, a: seq<Act>, b: seq<Act>)
    ensures Apply(live, a + b) == Apply(Apply(live, a), b)
    decreases |a|
  {
    if a == [] {
      assert a + b == b;
    } else {
      ApplyConcat(ApplyOne(live, a[0]), a[1..], b);
      assert (a + b)[1..] == a[1..] + b;
    }
  }

  /** The last thing the acts do at a key. */
  function LastAt(acts: seq<Act>, k: Key): Option<Act> {
    if acts == [] then None
    else
      var rest := LastAt(acts[1..], k);
      if rest.Some? then rest else if ActKey(acts[0]) == k then Some(acts[0]) else None
  }

  lemma {:induction false} ApplyAt(live: Live, acts: seq<Act>, k: Key)
    ensures match LastAt(acts, k)
            case None => (k in Apply(live, acts) <==> k in live) && (k in live ==> Apply(live, acts)[k] == live[k])
            case Some(Drop(_)) => k !in Apply(live, acts)
            case Some(Put(o)) => k in Apply(live, acts) && Apply(live, acts)[k] == o
    decreases |acts|
  {
    if acts != [] { ApplyAt(ApplyOne(live, acts[0]), acts[1..], k); }
  }

  // ----- policies

  datatype LabelSelector = InvalidSelector | Selector(matches: map<string, string> -> bool)

  datatype Target = Target(
    apiVersion: string,
    kind: string,
    ns: string,
    labelSelector: Option<LabelSelector>,
    fieldSelector: map<string, string>)

  datatype TtlSpec = TtlSpec(
    secondsAfterCreation: Option<Int64>,
    fieldPath: string,
    mappings: map<string, Int64>,
    fallback: Option<Int64>,
    relativeTo: string,
    secondsAfter: Option<Int64>)

  datatype LabelCondition = LabelCondition(key: string, value: string, operator: string)
  datatype AnnotationCondition = AnnotationCondition(key: string, value: string)
  datatype FieldCondition = FieldCondition(fieldPath: string, operator: string, value: string, values: seq<string>)

  datatype Conditions = Conditions(
    phase: seq<string>,
    hasLabels: seq<LabelCondition>,
    hasAnnotations: seq<AnnotationCondition>,
    and: seq<FieldCondition>)

  datatype Behavior = Behavior(batchSize: int, dryRun: bool, allowWorkloadDeletion: bool)

  datatype Policy = Policy(
    uid: string,
    target: Target,
    ttl: TtlSpec,
    conditions: Option<Conditions>,
    behavior: Behavior,
    paused: bool)
}
