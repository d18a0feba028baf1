/** The safety gate (pkg/safety/safety.go). */
module Safety {
  import opened Strings
  import opened Cluster

  datatype Refusal =
    | Unknown
    | DeletesDisabled
    | ProtectedNamespace
    | ProtectedKind
    | ExcludedLabel
    | WorkloadManaged
    | ActiveWorkload

  const EXCLUSION_KEY := "zen-cleaner.zen-mesh.io/exclude"

  const PROTECTED_NAMESPACES: set<string> :=
    {"kube-system", "kube-public", "kube-node-lease", "kube-flannel", "kube-registry", "metallb-system"}

  const HARD_PROTECTED_KINDS: set<string> :=
    {"Namespace", "PersistentVolume", "PersistentVolumeClaim", "StorageClass", "CustomResourceDefinition",
     "ValidatingWebhookConfiguration", "MutatingWebhookConfiguration"}

  const WORKLOAD_KINDS: set<string> := {"Pod", "Job", "CronJob"}

  datatype Config = Config(protectedNamespaces: seq<string>, ownNamespace: string, deletesDisabled: bool)

  datatype Gate = Gate(deletesDisabled: bool, protected: set<string>)

  /** unicode.IsSpace. */
  predicate IsSpace(c: char) {
    || '\t' <= c <= '\r' || c == ' ' || c == '\U{85}' || c == '\U{A0}' || c == '\U{1680}'
    || '\U{2000}' <= c <= '\U{200A}' || c == '\U{2028}' || c == '\U{2029}' || c == '\U{202F}' || c == '\U{205F}'
    || c == '\U{3000}'
  }

  /** strings.TrimSpace. */
  function TrimSpace(s: string): string
    decreases |s|
  {
    if s == "" then s
    else if IsSpace(s[0]) then TrimSpace(s[1..])
    else if IsSpace(s[|s| - 1]) then TrimSpace(s[..|s| - 1])
    else s
  }

  /** What the deployment asks to protect on top of the built-in namespaces. */
  ghost predicate Configured(cfg: Config, ns: string) {
    && ns != ""
    && (ns == cfg.ownNamespace ||
        exists i :: 0 <= i < |cfg.protectedNamespaces| && ns == TrimSpace(cfg.protectedNamespaces[i]))
  }

  method NewGate(cfg: Config) returns (g: Gate)
    ensures g.deletesDisabled == cfg.deletesDisabled
    ensures forall ns :: ns in g.protected <==> Infrastructure(ns, "") || Configured(cfg, ns)
  {
    var protected := PROTECTED_NAMESPACES;
    if cfg.ownNamespace != "" {
      protected := protected + {cfg.ownNamespace};
    }
    for i := 0 to |cfg.protectedNamespaces|
      invariant forall ns :: ns in protected <==>
        || ns in PROTECTED_NAMESPACES
        || (ns != "" &&
            (ns == cfg.ownNamespace || exists j :: 0 <= j < i && ns == TrimSpace(cfg.protectedNamespaces[j])))
    {
      var ns := TrimSpace(cfg.protectedNamespaces[i]);
      if ns != "" {
        protected := protected + {ns};
      }
    }
    g := Gate(cfg.deletesDisabled, protected);
  }

  predicate Excluded(o: Obj) {
    || (EXCLUSION_KEY in o.labels && o.labels[EXCLUSION_KEY] == "true")
    || (EXCLUSION_KEY in o.annotations && o.annotations[EXCLUSION_KEY] == "true")
  }

  /** EvaluateObject: None when the object may be deleted. */
  function EvaluateObject(g: Gate, o: Obj, b: Behavior): Option<Refusal> {
    if o.key.name == "" || o.key.kind == "" then Some(Unknown)
    else if g.deletesDisabled then Some(DeletesDisabled)
    else if o.key.ns != "" && o.key.ns in g.protected then Some(ProtectedNamespace)
    else if o.key.kind in HARD_PROTECTED_KINDS then Some(ProtectedKind)
    else if Excluded(o) then Some(ExcludedLabel)
    else if o.key.kind in WORKLOAD_KINDS && !b.allowWorkloadDeletion then Some(WorkloadManaged)
    else if o.key.kind == "Pod" && b.allowWorkloadDeletion then
      match NestedText(o, ["status", "phase"])
      case None => Some(ActiveWorkload)
      case Some(phase) => if phase == "Succeeded" || phase == "Failed" then None else Some(ActiveWorkload)
    else None
  }

  predicate Allows(g: Gate, o: Obj, b: Behavior) {
    EvaluateObject(g, o, b).None?
  }

  function EvaluatePolicyTarget(g: Gate, t: Target): Option<Refusal> {
    if t.kind in HARD_PROTECTED_KINDS then Some(ProtectedKind)
    else if t.ns != "" && t.ns != "*" && t.ns in g.protected then Some(ProtectedNamespace)
    else None
  }

  // ----- the safety laws, spelled out: none of what follows is stated through the code above

  /** The namespaces and kinds the laws name. */
  predicate Infrastructure(ns: string, kind: string) {
    || ns in {"kube-system", "kube-public", "kube-node-lease", "kube-flannel", "kube-registry", "metallb-system"}
    || kind in {"Namespace", "PersistentVolume", "PersistentVolumeClaim", "StorageClass", "CustomResourceDefinition",
                "ValidatingWebhookConfiguration", "MutatingWebhookConfiguration"}
  }

  /** A label or an annotation opts the object out. */
  predicate OptedOut(o: Obj) {
    exists entries :: entries in {o.labels, o.annotations} &&
      "zen-cleaner.zen-mesh.io/exclude" in entries && entries["zen-cleaner.zen-mesh.io/exclude"] == "true"
  }

  /** A workload needs the policy's consent, and a pod a phase that shows it has ended. */
  predicate Consented(o: Obj, b: Behavior) {
    && (o.key.kind in {"Pod", "Job", "CronJob"} ==> b.allowWorkloadDeletion)
    && (o.key.kind == "Pod" ==>
          exists phase :: phase in {"Succeeded", "Failed"} && NestedText(o, ["status", "phase"]) == Some(phase))
  }

  ghost predicate SafeToDelete(o: Obj, b: Behavior) {
    !Infrastructure(o.key.ns, o.key.kind) && !OptedOut(o) && Consented(o, b)
  }

  /** The gate lets through exactly the safe objects, and only while deletes are enabled and the object's name and
      namespace are in order; so the order of its checks decides the reason given, never the answer. */
  lemma AllowsExactly(g: Gate, o: Obj, b: Behavior)
    requires PROTECTED_NAMESPACES <= g.protected
    ensures Allows(g, o, b) <==>
            && SafeToDelete(o, b) && !g.deletesDisabled
            && o.key.name != "" && o.key.kind != "" && o.key.ns !in g.protected - {""}
  {
    assert "" !in PROTECTED_NAMESPACES;
    ExcludedExactly(o);
    ProtectedExactly(o.key.ns, o.key.kind);
  }

  lemma ExcludedExactly(o: Obj)
    ensures Excluded(o) <==> OptedOut(o)
  {
    var key := "zen-cleaner.zen-mesh.io/exclude";
    if Excluded(o) {
      var entries := if key in o.labels && o.labels[key] == "true" then o.labels else o.annotations;
      assert entries in {o.labels, o.annotations};
    }
  }

  lemma ProtectedExactly(ns: string, kind: string)
    ensures ns in PROTECTED_NAMESPACES || kind in HARD_PROTECTED_KINDS <==> Infrastructure(ns, kind)
  {
  }

  /** Whether a reason applies, taken by itself. */
  predicate Applies(g: Gate, o: Obj, b: Behavior, r: Refusal) {
    match r
    case Unknown => o.key.name == "" || o.key.kind == ""
    case DeletesDisabled => g.deletesDisabled
    case ProtectedNamespace => o.key.ns != "" && o.key.ns in g.protected
    case ProtectedKind => Infrastructure("", o.key.kind)
    case ExcludedLabel => OptedOut(o)
    case WorkloadManaged => o.key.kind in {"Pod", "Job", "CronJob"} && !b.allowWorkloadDeletion
    case ActiveWorkload => o.key.kind == "Pod" && !Consented(o, b.(allowWorkloadDeletion := true))
  }

  function Rank(r: Refusal): nat {
    match r
    case Unknown => 0
    case DeletesDisabled => 1
    case ProtectedNamespace => 2
    case ProtectedKind => 3
    case ExcludedLabel => 4
    case WorkloadManaged => 5
    case ActiveWorkload => 6
  }

  /** Of all reasons that apply, the gate gives the first; it lets an object through exactly if none applies. */
  ghost predicate FirstReason(g: Gate, o: Obj, b: Behavior, answer: Option<Refusal>) {
    && (answer.None? ==> forall r :: !Applies(g, o, b, r))
    && (answer.Some? ==>
          Applies(g, o, b, answer.value) && forall r :: Applies(g, o, b, r) ==> Rank(answer.value) <= Rank(r))
  }

  lemma ReasonExactly(g: Gate, o: Obj, b: Behavior)
    ensures FirstReason(g, o, b, EvaluateObject(g, o, b))
    ensures forall answer :: FirstReason(g, o, b, answer) ==> answer == EvaluateObject(g, o, b)
  {
    ExcludedExactly(o);
    ProtectedExactly("", o.key.kind);
    assert forall q, r :: Rank(q) == Rank(r) ==> q == r;
    var answer := EvaluateObject(g, o, b);
    assert answer.Some? ==> Applies(g, o, b, answer.value);
  }

  /** Labels and annotations matter through the exclusion key only: whatever else they say, the answer is the same. */
  lemma OtherEntriesDoNotMatter(g: Gate, o: Obj, b: Behavior, labels: map<string, string>,
                                annotations: map<string, string>)
    requires "zen-cleaner.zen-mesh.io/exclude" !in labels && "zen-cleaner.zen-mesh.io/exclude" !in annotations
    ensures EvaluateObject(g, o.(labels := labels + o.labels, annotations := annotations + o.annotations), b) ==
            EvaluateObject(g, o, b)
  {
    var o' := o.(labels := labels + o.labels, annotations := annotations + o.annotations);
    assert NestedText(o', ["status", "phase"]) == NestedText(o, ["status", "phase"]);
  }

  /** A mark in either map alone is enough. */
  lemma EitherMarkRefuses(g: Gate, o: Obj, b: Behavior)
    ensures !Allows(g, o.(labels := o.labels["zen-cleaner.zen-mesh.io/exclude" := "true"]), b)
    ensures !Allows(g, o.(annotations := o.annotations["zen-cleaner.zen-mesh.io/exclude" := "true"]), b)
  {
  }

  /** The admission-time check refuses exactly the hard-protected kinds and the namespaces the gate protects. */
  lemma TargetRefusedExactly(g: Gate, t: Target)
    ensures EvaluatePolicyTarget(g, t) ==
            if Infrastructure("", t.kind) then Some(ProtectedKind)
            else if t.ns in g.protected - {"", "*"} then Some(ProtectedNamespace)
            else None
  {
    ProtectedExactly("", t.kind);
  }

  /** It is never stricter than the last line: under a refused target the gate refuses every object of that kind and
      namespace. */
  lemma RefusedTargetRefusesObjects(g: Gate, t: Target, o: Obj, b: Behavior)
    requires EvaluatePolicyTarget(g, t).Some?
    requires o.key.kind == t.kind && (t.ns != "" && t.ns != "*" ==> o.key.ns == t.ns)
    ensures !Allows(g, o, b)
  {
  }

  // ----- trimming

  ghost predicate Blank(s: string) {
    forall i :: 0 <= i < |s| ==> IsSpace(s[i])
  }

  lemma BlankConcat(a: string, s: string)
    requires Blank(a) && Blank(s)
    ensures Blank(a + s)
  {
  }

  lemma BlankCons(s: string)
    requires s != ""
    ensures Blank(s) <==> IsSpace(s[0]) && Blank(s[1..])
    ensures Blank(s) <==> IsSpace(s[|s| - 1]) && Blank(s[..|s| - 1])
  {
    assert s == [s[0]] + s[1..] && s == s[..|s| - 1] + [s[|s| - 1]];
    if IsSpace(s[0]) && Blank(s[1..]) { BlankConcat([s[0]], s[1..]); }
    if IsSpace(s[|s| - 1]) && Blank(s[..|s| - 1]) { BlankConcat(s[..|s| - 1], [s[|s| - 1]]); }
  }

  lemma Regrouped(a: string, f: string, mid: string, k: string, z: string)
    ensures a + (f + mid + k) + z == (a + f) + mid + (k + z)
  {
  }

  /** Trimming cuts off blank ends and nothing else, so nothing is left of exactly the blank strings. */
  lemma {:induction false} TrimExactly(s: string) returns (front: string, back: string)
    ensures s == front + TrimSpace(s) + back && Blank(front) && Blank(back)
    ensures var mid := TrimSpace(s); mid != "" ==> !IsSpace(mid[0]) && !IsSpace(mid[|mid| - 1])
    ensures TrimSpace(s) == "" <==> Blank(s)
    decreases |s|
  {
    hide IsSpace, Blank;
    front, back := "", "";
    NothingBlank();
    if s != "" {
      BlankCons(s);
      var n := |s| - 1;
      if IsSpace(s[0]) {
        var f, k := TrimExactly(s[1..]);
        front, back := [s[0]] + f, k;
        assert s == [s[0]] + s[1..] + "";
        Regrouped([s[0]], f, TrimSpace(s), k, "");
        assert k + "" == k;
        BlankCons(front);
        assert front[1..] == f;
      } else if IsSpace(s[n]) {
        var f, k := TrimExactly(s[..n]);
        front, back := f, k + [s[n]];
        assert s == "" + s[..n] + [s[n]];
        Regrouped("", f, TrimSpace(s), k, [s[n]]);
        assert "" + f == f;
        BlankCons(back);
        assert back[..|back| - 1] == k;
      }
    }
  }

  lemma NothingBlank()
    ensures Blank("")
  {
  }

  /** The white space of Unicode. */
  lemma SpacesExactly(c: char)
    ensures IsSpace(c) <==>
            c in {'\t', '\n', '\U{0B}', '\U{0C}', '\r', ' ', '\U{85}', '\U{A0}', '\U{1680}', '\U{2000}', '\U{2001}',
                  '\U{2002}', '\U{2003}', '\U{2004}', '\U{2005}', '\U{2006}', '\U{2007}', '\U{2008}', '\U{2009}',
                  '\U{200A}', '\U{2028}', '\U{2029}', '\U{202F}', '\U{205F}', '\U{3000}'}
  {
  }
}
