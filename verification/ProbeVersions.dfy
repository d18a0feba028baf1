/** What the probe cache forgets: its key holds group, kind and namespace of a target but not the version
    (pkg/controller/target_capability.go). */
module ProbeVersions {
  import opened Strings
  import opened Cluster
  import opened TargetCapability
  import Safety

  /** A grant for t answers lookups of u. */
  predicate Shares(t: Target, u: Target) {
    && u.ns != "*"
    && GroupOf(u.apiVersion) == GroupOf(t.apiVersion) && u.kind == t.kind && Normalize(u.ns) == Normalize(t.ns)
  }

  lemma SameKey(t: Target, u: Target)
    requires CleanTarget(t) && CleanTarget(u)
    ensures GrantKey(t) == GrantKey(u) <==>
            GroupOf(u.apiVersion) == GroupOf(t.apiVersion) && u.kind == t.kind && Normalize(u.ns) == Normalize(t.ns)
  {
    if GrantKey(t) == GrantKey(u) {
      GlueLast(GvkString(t), Normalize(t.ns), GvkString(u), Normalize(u.ns), '|');
      GlueLast(GroupOf(t.apiVersion), t.kind, GroupOf(u.apiVersion), u.kind, '/');
    }
  }

  /** Which targets a granting probe of t newly answers for: exactly those of t's group, kind and normalised namespace,
      spelled without the star, whatever their version. */
  lemma GrantReaches(s: State, t: Target, a: Answers, u: Target, now: int)
    requires CacheSound(s) && CleanTarget(t) && CleanTarget(u) && !Malformed(t)
    requires !CacheHit(s, t, a.now1) && Validate(s, t, a).1.None? && now - a.now2 < 300_000_000_000
    requires !CacheHit(s, u, now)
    ensures CacheHit(Validate(s, t, a).0, u, now) <==> Shares(t, u)
  {
    hide CacheHit, CacheSound, GrantKey;
    ValidateSound(s, t, a);
    HitExactly(s, u, now);
    HitExactly(Validate(s, t, a).0, u, now);
    SameKey(t, u);
    ProbeStores(s, t, a);
  }

  lemma ProbeStores(s: State, t: Target, a: Answers)
    requires !CacheHit(s, t, a.now1) && Validate(s, t, a).1.None?
    ensures Validate(s, t, a).0.probes == s.probes[GrantKey(t) := Probe(true, a.now2)]
  {
  }

  /** So a nil answer says nothing about the version: with the grant of t, u is nil without a question to discovery or
      the API, even if discovery would report its version as not served. */
  lemma VersionNotAsked(s: State, t: Target, a: Answers, u: Target, a': Answers)
    requires Shares(t, u) && !Malformed(u)
    requires !CacheHit(s, t, a.now1) && Validate(s, t, a).1.None? && a'.now1 - a.now2 < 300_000_000_000
    ensures Validate(Validate(s, t, a).0, u, a') == (Validate(s, t, a).0, None)
  {
  }

  /** A grant for one target turns "not served" into "nil" for another that shares it. */
  lemma UnservedIsNil(t: Target, u: Target)
    requires Shares(t, u) && !Malformed(t) && !Malformed(u)
    ensures var (s, first) := Validate(EMPTY, t, Answers(0, 0, Served(true), None, true));
            var unserved := Answers(1, 1, DiscoveryFailed(true), None, true);
            && first.None?
            && Validate(EMPTY, u, unserved).1 == Some(ApiNotFound)
            && Validate(s, u, unserved).1.None?
  {
    hide Malformed, GroupOf;
  }

  /** The failing input: after a grant for batch/v1, a policy on batch/v99, which discovery would not find. */
  lemma UnservedVersionIsNil(kind: string, ns: string)
    requires Safety.TrimSpace(kind) != "" && ns != "*"
    ensures var t := Target("batch/v1", kind, ns, None, map[]);
            var u := Target("batch/v99", kind, ns, None, map[]);
            var s := Validate(EMPTY, t, Answers(0, 0, Served(true), None, true)).0;
            var unserved := Answers(1, 1, DiscoveryFailed(true), None, true);
            && VersionOf(t.apiVersion) == "v1" && VersionOf(u.apiVersion) == "v99"
            && Validate(EMPTY, u, unserved).1 == Some(ApiNotFound)
            && Validate(s, u, unserved).1.None?
  {
    hide GroupOf, VersionOf, Validate, Safety.TrimSpace;
    var t := Target("batch/v1", kind, ns, None, map[]);
    var u := Target("batch/v99", kind, ns, None, map[]);
    ApiVersionExactly("batch", "v1");
    ApiVersionExactly("batch", "v99");
    assert Glue("batch", '/', "v1") == "batch/v1" && Glue("batch", '/', "v99") == "batch/v99";
    Trimmed("batch/v1");
    Trimmed("batch/v99");
    UnservedIsNil(t, u);
  }

  lemma Trimmed(s: string)
    requires s != "" && !Safety.IsSpace(s[0]) && !Safety.IsSpace(s[|s| - 1])
    ensures Safety.TrimSpace(s) == s
  {
  }

  // ----- over whole runs

  const EMPTY: State := State(map[], map[], {}, {}, [])

  /** A grant for t passes for one of u although the versions differ. */
  predicate Confusable(t: Target, u: Target) {
    Shares(t, u) && VersionOf(t.apiVersion) != VersionOf(u.apiVersion)
  }

  /** Every list on record was of the target of some step. */
  ghost predicate Recorded(s: State, steps: seq<Step>) {
    forall i :: 0 <= i < |s.listed| ==> exists j :: 0 <= j < |steps| && ListedFor(s.listed[i], steps[j].target)
  }

  predicate ListedFor(l: Listed, t: Target) {
    ListsKind(l, t) && l.version == VersionOf(t.apiVersion)
  }

  function ListOf(t: Target, a: Answers): Listed {
    Listed(GroupOf(t.apiVersion), VersionOf(t.apiVersion), t.kind, Normalize(t.ns), a.now2)
  }

  lemma ValidateRecords(s: State, t: Target, a: Answers)
    ensures Validate(s, t, a).0.listed in {s.listed, s.listed + [ListOf(t, a)]}
  {
    hide Malformed, CacheHit, GroupOf, VersionOf, Normalize, GvkString, ProbeKey;
  }

  lemma GetInformerRecords(s: State, uid: string, t: Target, a: Answers)
    ensures GetInformer(s, uid, t, a).0.listed in {s.listed, s.listed + [ListOf(t, a)]}
  {
    hide Validate, ListOf;
    ValidateRecords(s, t, a);
  }

  /** What came on record was of this target. */
  ghost predicate Grown(before: seq<Listed>, after: seq<Listed>, t: Target) {
    forall i :: 0 <= i < |after| ==> (i < |before| && after[i] == before[i]) || ListedFor(after[i], t)
  }

  lemma GrownByOne(ls: seq<Listed>, t: Target, a: Answers)
    ensures Grown(ls, ls, t) && Grown(ls, ls + [ListOf(t, a)], t)
  {
  }

  lemma GrownTwice(ls: seq<Listed>, ls1: seq<Listed>, ls2: seq<Listed>, t: Target)
    requires Grown(ls, ls1, t) && Grown(ls1, ls2, t)
    ensures Grown(ls, ls2, t)
  {
    hide ListedFor;
  }

  lemma ReconcileRecords(s: State, st: Step)
    ensures Grown(s.listed, Reconcile(s, st.uid, st.target, st.a1, st.a2, st.ok).0.listed, st.target)
  {
    hide GetInformer, Grown, ListOf;
    var t := st.target;
    var s1 := GetInformer(s, st.uid, t, st.a1).0;
    var s2 := GetInformer(s1, st.uid, t, st.a2).0;
    GetInformerRecords(s, st.uid, t, st.a1);
    GetInformerRecords(s1, st.uid, t, st.a2);
    GrownByOne(s.listed, t, st.a1);
    GrownByOne(s1.listed, t, st.a2);
    GrownTwice(s.listed, s1.listed, s2.listed, t);
  }

  lemma {:induction false} RunRecords(steps: seq<Step>)
    ensures Recorded(StateAfter(EMPTY, steps), steps)
  {
    hide Reconcile, ListedFor;
    if steps != [] {
      var n := |steps| - 1;
      RunRecords(steps[..n]);
      var s, s' := StateAfter(EMPTY, steps[..n]), StateAfter(EMPTY, steps);
      ReconcileRecords(s, steps[n]);
      forall i | 0 <= i < |s'.listed| ensures exists j :: 0 <= j < |steps| && ListedFor(s'.listed[i], steps[j].target) {
        if !ListedFor(s'.listed[i], steps[n].target) {
          var j :| 0 <= j < n && ListedFor(s.listed[i], steps[..n][j].target);
          assert ListedFor(s'.listed[i], steps[j].target);
        }
      }
    }
  }

  /** After the run, a nil answer for u is right about the version too. */
  ghost predicate VersionRight(steps: seq<Step>, u: Target, a: Answers) {
    var (s, err) := Validate(StateAfter(EMPTY, steps), u, a);
    err.None? ==> VersionListed(s, u, a)
  }

  lemma VersionsRight(steps: seq<Step>, u: Target, a: Answers)
    requires CleanTarget(u) && forall i :: 0 <= i < |steps| ==> CleanTarget(steps[i].target)
    requires forall i :: 0 <= i < |steps| ==> !Confusable(steps[i].target, u)
    ensures VersionRight(steps, u, a)
  {
    hide CacheSound, StateAfter, Recent;
    EmptySound();
    RunSound(EMPTY, steps);
    RunRecords(steps);
    var s := StateAfter(EMPTY, steps);
    NilMeansListed(s, u, a);
    if Validate(s, u, a).1.None? && CacheHit(s, u, a.now1) {
      HitChangesNothing(s, u, a);
      var i :| 0 <= i < |s.listed| && ListsKind(s.listed[i], u) && Recent(s.listed[i], a);
      var j :| 0 <= j < |steps| && ListedFor(s.listed[i], steps[j].target);
      assert !Confusable(steps[j].target, u);
    }
  }

  lemma EmptySound()
    ensures CacheSound(EMPTY)
  {
  }

  lemma HitChangesNothing(s: State, u: Target, a: Answers)
    requires CacheHit(s, u, a.now1)
    ensures Validate(s, u, a).0 == s
    ensures CacheSound(s) && CleanTarget(u) ==> u.ns != "*"
  {
    if CacheSound(s) && CleanTarget(u) { HitExactly(s, u, a.now1); }
  }

  /** One reconcile of t, all its questions answered well at instant 0. */
  function Granting(t: Target): Step {
    var a := Answers(0, 0, Served(true), None, true);
    Step("", t, a, a, true)
  }

  lemma ConfusionShows(t: Target, u: Target, a: Answers)
    requires !Malformed(t) && !Malformed(u) && Confusable(t, u)
    requires a == Answers(1, 1, DiscoveryFailed(true), Some(Forbidden), false)
    ensures !VersionRight([Granting(t)], u, a)
  {
    var st := Granting(t);
    var steps := [st];
    assert steps[..0] == [];
    assert StateAfter(EMPTY, steps) == Reconcile(EMPTY, st.uid, t, st.a1, st.a2, true).0;
    var s := StateAfter(EMPTY, steps);
    assert s.probes == map[GrantKey(t) := Probe(true, 0)];
    assert |s.listed| == 1 && s.listed[0].version == VersionOf(t.apiVersion);
    assert CacheHit(s, u, 1);
  }

  /** Nil answers are right about the version, over every run on a set of targets, exactly if no two of them differ in
      the version alone. */
  lemma VersionsRightExactly(targets: seq<Target>)
    requires forall i :: 0 <= i < |targets| ==> CleanTarget(targets[i]) && !Malformed(targets[i])
    ensures (forall steps: seq<Step>, j, a :: Over(steps, targets) && 0 <= j < |targets| ==>
               VersionRight(steps, targets[j], a)) <==>
            (forall i, j :: 0 <= i < |targets| && 0 <= j < |targets| ==> !Confusable(targets[i], targets[j]))
  {
    hide VersionRight, Confusable, Malformed;
    if forall i, j :: 0 <= i < |targets| && 0 <= j < |targets| ==> !Confusable(targets[i], targets[j]) {
      forall steps: seq<Step>, j, a | Over(steps, targets) && 0 <= j < |targets|
        ensures VersionRight(steps, targets[j], a)
      {
        forall k | 0 <= k < |steps| ensures CleanTarget(steps[k].target) && !Confusable(steps[k].target, targets[j]) {
          var i :| 0 <= i < |targets| && steps[k].target == targets[i];
        }
        VersionsRight(steps, targets[j], a);
      }
    }
    forall i, j | 0 <= i < |targets| && 0 <= j < |targets| && Confusable(targets[i], targets[j])
      ensures exists steps: seq<Step>, a :: Over(steps, targets) && !VersionRight(steps, targets[j], a)
    {
      var a := Answers(1, 1, DiscoveryFailed(true), Some(Forbidden), false);
      var steps := [Granting(targets[i])];
      assert steps[0].target == targets[i];
      assert Over(steps, targets);
      ConfusionShows(targets[i], targets[j], a);
      assert !VersionRight(steps, targets[j], a);
    }
  }

  /** Every reconcile of the run is of one of the targets. */
  ghost predicate Over(steps: seq<Step>, targets: seq<Target>) {
    forall k :: 0 <= k < |steps| ==> exists i :: 0 <= i < |targets| && steps[k].target == targets[i]
  }
}
