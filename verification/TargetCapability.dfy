/** Target validation before an informer is created, its probe cache, and the failure counter behind the requeue delay
    (pkg/controller/target_capability.go, with the call sites in reconciler_informer.go, reconciler_evaluation.go and
    reconciler_helpers.go). Durations are nanoseconds. */
module TargetCapability {
  import opened Strings
  import opened Cluster
  import Safety

  const BACKOFF_BASE := 30_000_000_000
  const BACKOFF_CAP := 600_000_000_000
  const PROBE_TTL := 300_000_000_000
  const OTHER_ERROR_DELAY := 30_000_000_000
  const MAX_INT64 := 0x7fff_ffff_ffff_ffff

  // ----- the delay

  function Pow2(n: nat): nat {
    if n == 0 then 1 else 2 * Pow2(n - 1)
  }

  /** min(10m, 30s * 2^(n-1)), and the first value for anything below 1. */
  function BackoffFor(n: int): int {
    var exact := BACKOFF_BASE * Pow2(if n < 1 then 0 else n - 1);
    if exact < BACKOFF_CAP then exact else BACKOFF_CAP
  }

  lemma {:induction false} Pow2Monotone(a: nat, b: nat)
    requires a <= b
    ensures 0 < Pow2(a) <= Pow2(b)
    decreases b
  {
    if a < b { Pow2Monotone(a, b - 1); } else if b > 0 { Pow2Monotone(a - 1, b - 1); }
  }

  /** The doubling loop; it stops at the cap, so no intermediate value leaves int64 however many failures there were. */
  method TargetBackoffFor(consecutiveFailures: int) returns (d: int)
    ensures d == BackoffFor(consecutiveFailures)
  {
    var n := consecutiveFailures;
    if n < 1 {
      n := 1;
    }
    d := BACKOFF_BASE;
    var i := 1;
    while i < n
      invariant 1 <= i <= n && d == BACKOFF_BASE * Pow2(i - 1) && d < BACKOFF_CAP
    {
      assert d * 2 <= MAX_INT64;
      d := d * 2;
      if d >= BACKOFF_CAP {
        assert d == BACKOFF_BASE * Pow2(i);
        Pow2Monotone(i, n - 1);
        return BACKOFF_CAP;
      }
      i := i + 1;
    }
    if d > BACKOFF_CAP {
      return BACKOFF_CAP;
    }
  }

  lemma BackoffMonotone(m: int, n: int)
    requires m <= n
    ensures 30_000_000_000 <= BackoffFor(m) <= BackoffFor(n) <= 600_000_000_000
  {
    Pow2Monotone(if m < 1 then 0 else m - 1, if n < 1 then 0 else n - 1);
    Pow2Monotone(0, if m < 1 then 0 else m - 1);
  }

  /** The delays in seconds: 30, 60, 120, 240, 480 and then ten minutes for ever. */
  lemma BackoffTable(n: int)
    ensures BackoffFor(n) == 1_000_000_000 *
            if n <= 1 then 30 else if n == 2 then 60 else if n == 3 then 120 else if n == 4 then 240
            else if n == 5 then 480 else 600
  {
    assert Pow2(0) == 1 && Pow2(1) == 2 && Pow2(2) == 4 && Pow2(3) == 8 && Pow2(4) == 16 && Pow2(5) == 32;
    if n >= 6 { Pow2Monotone(5, n - 1); }
  }

  // ----- state and answers

  datatype TargetError =
    | ApiNotFound
    | ResourceNotDiscoverable
    | AccessDenied
    | ConfigurationInvalid
    | TemporarilyUnavailable

  datatype Probe = Probe(granted: bool, checkedAt: int)

  /** A one-object list that succeeded. */
  datatype Listed = Listed(group: string, version: string, kind: string, ns: string, at: int)

  datatype Discovery = NoClient | DiscoveryFailed(notFound: bool) | Served(kindFound: bool)

  datatype ListFault = Forbidden | ListNotFound | ListUnavailable

  /** What one attempt meets: two clock readings, discovery, the list probe, and whether the cache syncs in time. */
  datatype Answers = Answers(now1: int, now2: int, discovery: Discovery, list: Option<ListFault>, synced: bool)

  datatype State = State(
    probes: map<string, Probe>,
    failures: map<string, nat>,
    informers: set<string>,
    services: set<string>,
    listed: seq<Listed>)

  function IndexOf(s: string, c: char): (r: int)
    ensures r == -1 <==> c !in s
    ensures r != -1 ==> 0 <= r < |s| && s[r] == c
  {
    if s == "" then -1
    else if s[0] == c then 0
    else
      var r := IndexOf(s[1..], c);
      if r == -1 then -1 else r + 1
  }

  function GroupOf(apiVersion: string): string {
    var i := IndexOf(apiVersion, '/');
    if i >= 0 then apiVersion[..i] else ""
  }

  function VersionOf(apiVersion: string): string {
    var i := IndexOf(apiVersion, '/');
    if i >= 0 then apiVersion[i + 1..] else apiVersion
  }

  /** normalizeNamespace. */
  function Normalize(ns: string): string {
    if ns == "" || ns == "*" then "" else ns
  }

  /** Group and kind only: the version is not part of the key. */
  function GvkString(t: Target): string {
    Glue(GroupOf(t.apiVersion), '/', t.kind)
  }

  function ProbeKey(gvk: string, ns: string): string {
    Glue(gvk, '|', ns)
  }

  /** evaluationServiceKey. */
  function ServiceKey(t: Target): string {
    Glue(Glue(t.apiVersion, '/', t.kind), '/', t.ns)
  }

  function ClassifyList(f: ListFault): TargetError {
    match f
    case Forbidden => AccessDenied
    case ListNotFound => ResourceNotDiscoverable
    case ListUnavailable => TemporarilyUnavailable
  }

  predicate Malformed(t: Target) {
    Safety.TrimSpace(t.apiVersion) == "" || Safety.TrimSpace(t.kind) == "" || VersionOf(t.apiVersion) == ""
  }

  /** A probe young enough to answer for the target. The lookup uses the namespace as the policy spells it. */
  predicate CacheHit(s: State, t: Target, now: int) {
    var k := ProbeKey(GvkString(t), t.ns);
    k in s.probes && now - s.probes[k].checkedAt < PROBE_TTL
  }

  function Validate(s: State, t: Target, a: Answers): (State, Option<TargetError>) {
    if Malformed(t) then (s, Some(ConfigurationInvalid))
    else if CacheHit(s, t, a.now1) then
      (s, if s.probes[ProbeKey(GvkString(t), t.ns)].granted then None else Some(TemporarilyUnavailable))
    else if a.discovery.DiscoveryFailed? then
      (s, Some(if a.discovery.notFound then ApiNotFound else TemporarilyUnavailable))
    else if a.discovery.Served? && !a.discovery.kindFound then (s, Some(ResourceNotDiscoverable))
    else if a.list.Some? then (s, Some(ClassifyList(a.list.value)))
    else
      var ns := Normalize(t.ns);
      (s.(probes := s.probes[ProbeKey(GvkString(t), ns) := Probe(true, a.now2)],
          listed := s.listed + [Listed(GroupOf(t.apiVersion), VersionOf(t.apiVersion), t.kind, ns, a.now2)]), None)
  }

  function FailureCount(s: State, uid: string): nat {
    if uid in s.failures then s.failures[uid] else 0
  }

  datatype Attempt = Ready | CapabilityFailure(error: TargetError) | SyncFailure

  /** getOrCreateResourceInformer. */
  function GetInformer(s: State, uid: string, t: Target, a: Answers): (State, Attempt) {
    var k := ServiceKey(t);
    if k in s.informers then (s, Ready)
    else
      var (s1, err) := Validate(s, t, a);
      if err.Some? then (s1.(failures := s1.failures[uid := FailureCount(s1, uid) + 1]), CapabilityFailure(err.value))
      else
        var s2 := s1.(failures := s1.failures - {uid});
        if a.synced then (s2.(informers := s2.informers + {k}), Ready) else (s2, SyncFailure)
  }

  datatype Outcome = Evaluated | Requeue(delay: int)

  /** What the cycle over an available snapshot ends in: it may fail in its own right, say when the status is
      written. */
  function Cycle(ok: bool): Outcome {
    if ok then Evaluated else Requeue(OTHER_ERROR_DELAY)
  }

  /** evaluatePolicy and handleEvaluationError; `ok` says whether a cycle over an available snapshot succeeds. */
  function Reconcile(s: State, uid: string, t: Target, a1: Answers, a2: Answers, ok: bool): (State, Outcome) {
    var k := ServiceKey(t);
    if k in s.services then (s, Cycle(ok))
    else
      var (s1, first) := GetInformer(s, uid, t, a1);
      if first.Ready? then (s1.(services := s1.services + {k}), Cycle(ok))
      else
        var (s2, second) := GetInformer(s1, uid, t, a2);
        match second
        case Ready => (s2, Cycle(ok))
        case CapabilityFailure(_) => (s2, Requeue(BackoffFor(FailureCount(s2, uid))))
        case SyncFailure => (s2, Requeue(OTHER_ERROR_DELAY))
  }

  // ----- what the answers mean

  /** An apiVersion is cut at its first slash; without one it is all version. */
  lemma ApiVersionExactly(group: string, version: string)
    ensures Free(group, '/') ==>
              GroupOf(Glue(group, '/', version)) == group && VersionOf(Glue(group, '/', version)) == version
    ensures Free(version, '/') ==> GroupOf(version) == "" && VersionOf(version) == version
  {
    if Free(group, '/') {
      IndexOfFirst(group, '/', version);
      assert Glue(group, '/', version)[..|group|] == group;
    }
  }

  lemma {:induction false} IndexOfFirst(a: string, c: char, b: string)
    requires Free(a, c)
    ensures IndexOf(Glue(a, c, b), c) == |a|
  {
    var s := Glue(a, c, b);
    if a != "" {
      assert s[0] == a[0] && a[0] in a && s[1..] == Glue(a[1..], c, b);
      IndexOfFirst(a[1..], c, b);
    }
  }

  /** The namespace a target is probed in: the empty one for the whole cluster, however that is spelled. */
  lemma NormalizeExactly(ns: string)
    ensures Normalize(ns) == if ns in {"", "*"} then "" else ns
  {
  }

  /** A target is malformed exactly if its apiVersion or kind is blank or no version is left behind the slash. */
  lemma MalformedExactly(t: Target)
    ensures Malformed(t) <==> Safety.Blank(t.apiVersion) || Safety.Blank(t.kind) || VersionOf(t.apiVersion) == ""
  {
    var f, k := Safety.TrimExactly(t.apiVersion);
    var f', k' := Safety.TrimExactly(t.kind);
  }

  /** The class of every failure, and what a grant leaves behind, for a target the cache does not answer for. */
  lemma ValidateExactly(s: State, t: Target, a: Answers)
    requires !Malformed(t) && !CacheHit(s, t, a.now1)
    ensures var (s', err) := Validate(s, t, a);
            && (a.discovery == DiscoveryFailed(true) ==> err == Some(ApiNotFound))
            && (a.discovery == DiscoveryFailed(false) ==> err == Some(TemporarilyUnavailable))
            && (a.discovery == Served(false) ==> err == Some(ResourceNotDiscoverable))
            && (a.discovery in {NoClient, Served(true)} ==>
                  && (a.list == Some(Forbidden) ==> err == Some(AccessDenied))
                  && (a.list == Some(ListNotFound) ==> err == Some(ResourceNotDiscoverable))
                  && (a.list == Some(ListUnavailable) ==> err == Some(TemporarilyUnavailable))
                  && (a.list.None? ==> err.None?))
            && (err.Some? ==> s' == s)
            && (err.None? ==>
                  var ns := if t.ns in {"", "*"} then "" else t.ns;
                  && s'.listed ==
                       s.listed + [Listed(GroupOf(t.apiVersion), VersionOf(t.apiVersion), t.kind, ns, a.now2)]
                  && s' == s.(probes := s'.probes, listed := s'.listed))
  {
  }

  /** A malformed target is rejected unasked, and one the cache knows is answered from it: nothing changes. */
  lemma AnsweredUnasked(s: State, t: Target, a: Answers)
    ensures Malformed(t) ==> Validate(s, t, a) == (s, Some(ConfigurationInvalid))
    ensures !Malformed(t) && CacheHit(s, t, a.now1) && s.probes[ProbeKey(GvkString(t), t.ns)].granted ==>
              Validate(s, t, a) == (s, None)
  {
  }

  /** How an attempt ends: ready if the informer is there or the target is granted and the cache syncs. */
  lemma AttemptExactly(s: State, uid: string, t: Target, a: Answers)
    ensures var (s', r), err, k := GetInformer(s, uid, t, a), Validate(s, t, a).1, ServiceKey(t);
            && (r.Ready? <==> k in s.informers || (err.None? && a.synced))
            && (k !in s.informers && err.Some? ==> r == CapabilityFailure(err.value))
            && s'.services == s.services
            && s'.informers == s.informers + if r.Ready? then {k} else {}
  {
    hide Validate;
    ValidateKeeps(s, t, a);
  }

  /** How a reconcile ends: with a cycle if either attempt is ready, and only the first attempt leaves a service
      behind. A cycle that fails and a sync that fails requeue after 30 seconds. */
  lemma ReconcileEnds(s: State, uid: string, t: Target, a1: Answers, a2: Answers, ok: bool)
    ensures var (s', r), k := Reconcile(s, uid, t, a1, a2, ok), ServiceKey(t);
            var (s1, first) := GetInformer(s, uid, t, a1);
            var second := GetInformer(s1, uid, t, a2).1;
            && s'.services == s.services + (if k in s.services || first.Ready? then {k} else {})
            && (if k in s.services || first.Ready? || second.Ready? then
                  r == (if ok then Evaluated else Requeue(30_000_000_000))
                else if second.SyncFailure? then r == Requeue(30_000_000_000)
                else r == Requeue(BackoffFor(FailureCount(s', uid))))
  {
    hide Validate, BackoffFor;
    AttemptExactly(s, uid, t, a1);
    AttemptExactly(GetInformer(s, uid, t, a1).0, uid, t, a2);
  }

  lemma ValidateKeeps(s: State, t: Target, a: Answers)
    ensures var s' := Validate(s, t, a).0;
            s'.failures == s.failures && s'.informers == s.informers && s'.services == s.services
  {
  }

  // ----- the maps as the reconciler keeps them

  class Targets {
    var targetProbes: map<string, Probe>
    var targetFailures: map<string, nat>
    var resourceInformers: set<string>
    var evaluationServices: set<string>
    ghost var listed: seq<Listed>

    ghost function S(): State
      reads this
    {
      State(targetProbes, targetFailures, resourceInformers, evaluationServices, listed)
    }

    constructor ()
      ensures S() == State(map[], map[], {}, {}, [])
    {
      targetProbes, targetFailures, resourceInformers, evaluationServices, listed := map[], map[], {}, {}, [];
    }

    method RecordTargetFailure(uid: string) returns (count: nat)
      modifies this
      ensures S() == old(S()).(failures := old(targetFailures)[uid := FailureCount(old(S()), uid) + 1])
      ensures count == FailureCount(S(), uid)
    {
      count := if uid in targetFailures then targetFailures[uid] + 1 else 1;
      targetFailures := targetFailures[uid := count];
    }

    method ClearTargetFailure(uid: string)
      modifies this
      ensures S() == old(S()).(failures := old(targetFailures) - {uid})
    {
      targetFailures := targetFailures - {uid};
    }

    method ValidateTargetCapability(t: Target, a: Answers) returns (err: Option<TargetError>)
      modifies this
      ensures (S(), err) == Validate(old(S()), t, a)
    {
      if Safety.TrimSpace(t.apiVersion) == "" || Safety.TrimSpace(t.kind) == "" || VersionOf(t.apiVersion) == "" {
        return Some(ConfigurationInvalid);
      }
      var k := ProbeKey(GvkString(t), t.ns);
      if k in targetProbes {
        var entry := targetProbes[k];
        if a.now1 - entry.checkedAt < PROBE_TTL {
          if entry.granted {
            return None;
          }
          return Some(TemporarilyUnavailable);
        }
      }
      match a.discovery {
        case DiscoveryFailed(notFound) => return Some(if notFound then ApiNotFound else TemporarilyUnavailable);
        case Served(kindFound) =>
          if !kindFound {
            return Some(ResourceNotDiscoverable);
          }
        case NoClient =>
      }
      var ns := Normalize(t.ns);
      if a.list.Some? {
        return Some(ClassifyList(a.list.value));
      }
      listed := listed + [Listed(GroupOf(t.apiVersion), VersionOf(t.apiVersion), t.kind, ns, a.now2)];
      targetProbes := targetProbes[ProbeKey(GvkString(t), ns) := Probe(true, a.now2)];
      err := None;
    }

    method GetOrCreateResourceInformer(uid: string, t: Target, a: Answers) returns (r: Attempt)
      modifies this
      ensures (S(), r) == GetInformer(old(S()), uid, t, a)
    {
      hide Validate;
      var k := ServiceKey(t);
      if k in resourceInformers {
        return Ready;
      }
      ValidateKeeps(S(), t, a);
      var err := ValidateTargetCapability(t, a);
      if err.Some? {
        var count := RecordTargetFailure(uid);
        return CapabilityFailure(err.value);
      }
      ClearTargetFailure(uid);
      resourceInformers := resourceInformers + {k};
      if !a.synced {
        resourceInformers := resourceInformers - {k};
        assert resourceInformers == old(resourceInformers);
        return SyncFailure;
      }
      r := Ready;
    }

    method EvaluatePolicy(uid: string, t: Target, a1: Answers, a2: Answers, ok: bool) returns (r: Outcome)
      modifies this
      ensures (S(), r) == Reconcile(old(S()), uid, t, a1, a2, ok)
    {
      hide GetInformer;
      var k := ServiceKey(t);
      if k in evaluationServices {
        return Cycle(ok);
      }
      var first := GetOrCreateResourceInformer(uid, t, a1);
      if first.Ready? {
        evaluationServices := evaluationServices + {k};
        return Cycle(ok);
      }
      var second := GetOrCreateResourceInformer(uid, t, a2);
      match second {
        case Ready => r := Cycle(ok);
        case SyncFailure => r := Requeue(OTHER_ERROR_DELAY);
        case CapabilityFailure(_) =>
          var count := if uid in targetFailures then targetFailures[uid] else 0;
          var delay := TargetBackoffFor(count);
          r := Requeue(delay);
      }
    }
  }

  // ----- the failure counter over whole runs

  /** One reconcile of some policy. */
  datatype Step = Step(uid: string, target: Target, a1: Answers, a2: Answers, ok: bool)

  function StateAfter(s: State, steps: seq<Step>): State {
    if steps == [] then s
    else
      var n := |steps| - 1;
      Reconcile(StateAfter(s, steps[..n]), steps[n].uid, steps[n].target, steps[n].a1, steps[n].a2, steps[n].ok).0
  }

  function OutcomeOf(s: State, steps: seq<Step>, i: nat): Outcome
    requires i < |steps|
  {
    Reconcile(StateAfter(s, steps[..i]), steps[i].uid, steps[i].target, steps[i].a1, steps[i].a2, steps[i].ok).1
  }

  /** Both attempts of the step fail on target capability. */
  predicate FailsTwice(s: State, st: Step) {
    && ServiceKey(st.target) !in s.services
    && var (s1, first) := GetInformer(s, st.uid, st.target, st.a1);
    && first.CapabilityFailure?
    && GetInformer(s1, st.uid, st.target, st.a2).1.CapabilityFailure?
  }

  function StepsOf(steps: seq<Step>, uid: string): nat {
    if steps == [] then 0
    else var n := |steps| - 1; StepsOf(steps[..n], uid) + if steps[n].uid == uid then 1 else 0
  }

  /** One step: a doubly failing reconcile adds two, and no policy touches the counter of another. */
  lemma StepCounts(s: State, st: Step, uid: string)
    ensures var s' := Reconcile(s, st.uid, st.target, st.a1, st.a2, st.ok).0;
            && (st.uid != uid ==> FailureCount(s', uid) == FailureCount(s, uid))
            && (st.uid == uid && FailsTwice(s, st) ==>
                  FailureCount(s', uid) == FailureCount(s, uid) + 2 &&
                  Reconcile(s, st.uid, st.target, st.a1, st.a2, st.ok).1 == Requeue(BackoffFor(FailureCount(s', uid))))
  {
    hide Validate;
    ValidateKeeps(s, st.target, st.a1);
    var s1 := GetInformer(s, st.uid, st.target, st.a1).0;
    ValidateKeeps(s1, st.target, st.a2);
  }

  /** Every reconcile of the policy in the run fails twice; those of other policies may do anything. */
  ghost predicate Stretch(s: State, steps: seq<Step>, uid: string) {
    steps == [] ||
    var n := |steps| - 1;
    Stretch(s, steps[..n], uid) && (steps[n].uid == uid ==> FailsTwice(StateAfter(s, steps[..n]), steps[n]))
  }

  lemma {:induction false} StretchPrefix(s: State, steps: seq<Step>, uid: string, i: nat)
    requires Stretch(s, steps, uid) && i <= |steps|
    ensures Stretch(s, steps[..i], uid)
    decreases |steps|
  {
    if i == |steps| {
      assert steps[..i] == steps;
    } else {
      var n := |steps| - 1;
      StretchPrefix(s, steps[..n], uid, i);
      assert steps[..n][..i] == steps[..i];
    }
  }

  lemma {:induction false} StretchCounts(s: State, steps: seq<Step>, uid: string)
    requires Stretch(s, steps, uid)
    ensures FailureCount(StateAfter(s, steps), uid) == FailureCount(s, uid) + 2 * StepsOf(steps, uid)
  {
    hide Reconcile, FailsTwice;
    if steps != [] {
      var n := |steps| - 1;
      StretchCounts(s, steps[..n], uid);
      StepCounts(StateAfter(s, steps[..n]), steps[n], uid);
    }
  }

  /** In a stretch the k-th reconcile of the policy requeues after BackoffFor(c + 2k), where c is the count the
      stretch began with, however the reconciles of other policies are mixed in. */
  lemma StretchLaw(s: State, steps: seq<Step>, uid: string, i: nat)
    requires Stretch(s, steps, uid) && i < |steps| && steps[i].uid == uid
    ensures OutcomeOf(s, steps, i) == Requeue(BackoffFor(FailureCount(s, uid) + 2 * StepsOf(steps[..i + 1], uid)))
  {
    hide Reconcile, FailsTwice, BackoffFor;
    var upTo := steps[..i + 1];
    StretchPrefix(s, steps, uid, i + 1);
    assert upTo[..i] == steps[..i] && upTo[i] == steps[i];
    StretchCounts(s, upTo, uid);
    StepCounts(StateAfter(s, steps[..i]), steps[i], uid);
  }

  lemma {:induction false} StepsOfMonotone(steps: seq<Step>, uid: string, i: nat, j: nat)
    requires i <= j <= |steps|
    ensures StepsOf(steps[..i], uid) <= StepsOf(steps[..j], uid)
    decreases j
  {
    if i < j {
      StepsOfMonotone(steps, uid, i, j - 1);
      assert steps[..j][..j - 1] == steps[..j - 1];
    }
  }

  /** The delays of a stretch never shrink and never exceed ten minutes. */
  lemma StretchDelays(s: State, steps: seq<Step>, uid: string, i: nat, j: nat)
    requires Stretch(s, steps, uid) && i <= j < |steps| && steps[i].uid == uid && steps[j].uid == uid
    ensures OutcomeOf(s, steps, i).Requeue? && OutcomeOf(s, steps, j).Requeue?
    ensures 30_000_000_000 <= OutcomeOf(s, steps, i).delay <= OutcomeOf(s, steps, j).delay <= 600_000_000_000
  {
    hide OutcomeOf, BackoffFor, Stretch;
    StretchLaw(s, steps, uid, i);
    StretchLaw(s, steps, uid, j);
    StepsOfMonotone(steps, uid, i + 1, j + 1);
    var c := FailureCount(s, uid);
    BackoffMonotone(c + 2 * StepsOf(steps[..i + 1], uid), c + 2 * StepsOf(steps[..j + 1], uid));
  }

  /** From a clean counter the delays of a stretch are one, four and then always ten minutes, because a reconcile
      that fails twice counts twice. */
  lemma FirstDelays(s: State, steps: seq<Step>, uid: string, i: nat)
    requires FailureCount(s, uid) == 0
    requires Stretch(s, steps, uid) && i < |steps| && steps[i].uid == uid
    ensures var k := StepsOf(steps[..i + 1], uid);
            OutcomeOf(s, steps, i) ==
              Requeue(if k == 1 then 60_000_000_000 else if k == 2 then 240_000_000_000 else 600_000_000_000)
  {
    hide OutcomeOf, Stretch;
    StretchLaw(s, steps, uid, i);
    assert steps[..i + 1][..i] == steps[..i];
    var k := StepsOf(steps[..i + 1], uid);
    assert k >= 1;
    assert Pow2(0) == 1 && Pow2(1) == 2 && Pow2(2) == 4 && Pow2(3) == 8 && Pow2(4) == 16 && Pow2(5) == 32;
    if k >= 3 { Pow2Monotone(5, 2 * k - 1); }
  }

  /** The documented 30 seconds of a first failure, exactly: a reconcile that ends in a capability failure requeues
      after them if and only if its first attempt passed validation and its informer did not sync. */
  lemma ThirtySeconds(s: State, st: Step)
    requires ServiceKey(st.target) !in s.services
    requires var (s1, first) := GetInformer(s, st.uid, st.target, st.a1);
             !first.Ready? && GetInformer(s1, st.uid, st.target, st.a2).1.CapabilityFailure?
    ensures Reconcile(s, st.uid, st.target, st.a1, st.a2, st.ok).1 == Requeue(30_000_000_000) <==>
            GetInformer(s, st.uid, st.target, st.a1).1.SyncFailure?
  {
    hide Validate, BackoffFor;
    ResetLaw(s, st);
    OneFailure();
    var s' := Reconcile(s, st.uid, st.target, st.a1, st.a2, st.ok).0;
    if FailureCount(s', st.uid) >= 2 { BackoffMonotone(2, FailureCount(s', st.uid)); }
  }

  lemma OneFailure()
    ensures BackoffFor(1) == 30_000_000_000 && BackoffFor(2) == 60_000_000_000
  {
    assert Pow2(0) == 1 && Pow2(1) == 2;
  }

  /** The counter after any reconcile. A success or a failure behind passed validation clears it, but a success
      served by an informer that another policy created leaves it as it was. */
  lemma ResetLaw(s: State, st: Step)
    ensures var k := ServiceKey(st.target);
            var (s', r) := Reconcile(s, st.uid, st.target, st.a1, st.a2, st.ok);
            var (s1, first) := GetInformer(s, st.uid, st.target, st.a1);
            var second := GetInformer(s1, st.uid, st.target, st.a2).1;
            if k in s.services || k in s.informers then
              r == Cycle(st.ok) && FailureCount(s', st.uid) == FailureCount(s, st.uid)
            else if first.Ready? || !second.CapabilityFailure? then FailureCount(s', st.uid) == 0
            else FailureCount(s', st.uid) == if first.SyncFailure? then 1 else FailureCount(s, st.uid) + 2
  {
    hide Validate;
    ValidateKeeps(s, st.target, st.a1);
    var s1 := GetInformer(s, st.uid, st.target, st.a1).0;
    ValidateKeeps(s1, st.target, st.a2);
  }

  // ----- the probe cache

  /** Separators stay out of kind and namespace. */
  predicate CleanTarget(t: Target) {
    Free(t.kind, '/') && Free(t.ns, '|')
  }

  /** Every entry is a grant recorded for a list probe that succeeded, under a normalised namespace. */
  ghost predicate CacheSound(s: State) {
    && (forall k :: k in s.probes ==> s.probes[k].granted && Backed(s, k))
    && (forall i :: 0 <= i < |s.listed| ==>
          Free(s.listed[i].kind, '/') && Free(s.listed[i].ns, '|') && s.listed[i].ns == Normalize(s.listed[i].ns))
  }

  ghost predicate Backed(s: State, k: string)
    requires k in s.probes
  {
    exists i :: 0 <= i < |s.listed| && s.listed[i].at == s.probes[k].checkedAt &&
      k == ProbeKey(Glue(s.listed[i].group, '/', s.listed[i].kind), s.listed[i].ns)
  }

  lemma ValidateSound(s: State, t: Target, a: Answers)
    requires CacheSound(s) && CleanTarget(t)
    ensures CacheSound(Validate(s, t, a).0)
  {
    var s' := Validate(s, t, a).0;
    if s' != s {
      var n := |s.listed|;
      forall k | k in s'.probes ensures s'.probes[k].granted && Backed(s', k) {
        if k == ProbeKey(GvkString(t), Normalize(t.ns)) {
          assert s'.listed[n].at == s'.probes[k].checkedAt;
        } else {
          var i :| 0 <= i < n && s.listed[i].at == s.probes[k].checkedAt &&
            k == ProbeKey(Glue(s.listed[i].group, '/', s.listed[i].kind), s.listed[i].ns);
          assert s'.listed[i] == s.listed[i];
        }
      }
    }
  }

  /** The list was of the target's group, kind and normalised namespace, in whatever version. */
  predicate ListsKind(l: Listed, t: Target) {
    l.group == GroupOf(t.apiVersion) && l.kind == t.kind && l.ns == Normalize(t.ns)
  }

  predicate Recent(l: Listed, a: Answers) {
    l.at == a.now2 || a.now1 - l.at < 300_000_000_000
  }

  /** The group and kind were listed successfully in the normalised namespace: just now, or less than five minutes
      ago. */
  ghost predicate RecentlyListed(s: State, t: Target, a: Answers) {
    exists i :: 0 <= i < |s.listed| && ListsKind(s.listed[i], t) && Recent(s.listed[i], a)
  }

  /** And so was the version. */
  ghost predicate VersionListed(s: State, t: Target, a: Answers) {
    exists i :: 0 <= i < |s.listed| && ListsKind(s.listed[i], t) && Recent(s.listed[i], a) &&
      s.listed[i].version == VersionOf(t.apiVersion)
  }

  /** The key under which a grant for the target is stored. */
  function GrantKey(t: Target): string {
    ProbeKey(GvkString(t), Normalize(t.ns))
  }

  /** A grant that answers for the target exists and is young enough, wherever the lookup may search for it. */
  predicate GrantStored(s: State, t: Target, now: int) {
    GrantKey(t) in s.probes && now - s.probes[GrantKey(t)].checkedAt < 300_000_000_000
  }

  /** The lookup finds a stored grant exactly for the targets whose namespace is not the star. */
  lemma HitExactly(s: State, t: Target, now: int)
    requires CacheSound(s) && CleanTarget(t)
    ensures CacheHit(s, t, now) <==> t.ns != "*" && GrantStored(s, t, now)
  {
    if t.ns == "*" {
      var k := ProbeKey(GvkString(t), t.ns);
      if k in s.probes {
        assert Backed(s, k);
        var i :| 0 <= i < |s.listed| && s.listed[i].at == s.probes[k].checkedAt &&
          k == ProbeKey(Glue(s.listed[i].group, '/', s.listed[i].kind), s.listed[i].ns);
        var l := s.listed[i];
        GlueLast(GvkString(t), t.ns, Glue(l.group, '/', l.kind), l.ns, '|');
      }
    }
  }

  /** What a nil answer rests on. Only a probe made for this very answer vouches for the version. */
  lemma NilMeansListed(s: State, t: Target, a: Answers)
    requires CacheSound(s) && CleanTarget(t)
    ensures Validate(s, t, a).1.None? ==> RecentlyListed(Validate(s, t, a).0, t, a)
    ensures Validate(s, t, a).1.None? && !CacheHit(s, t, a.now1) ==> VersionListed(Validate(s, t, a).0, t, a)
    ensures t.ns == "*" ==> !CacheHit(s, t, a.now1)
  {
    HitExactly(s, t, a.now1);
    var k := ProbeKey(GvkString(t), t.ns);
    if CacheHit(s, t, a.now1) {
      var i :| 0 <= i < |s.listed| && s.listed[i].at == s.probes[k].checkedAt &&
        k == ProbeKey(Glue(s.listed[i].group, '/', s.listed[i].kind), s.listed[i].ns);
      var l := s.listed[i];
      GlueLast(GvkString(t), t.ns, Glue(l.group, '/', l.kind), l.ns, '|');
      GlueLast(GroupOf(t.apiVersion), t.kind, l.group, l.kind, '/');
    } else if Validate(s, t, a).1.None? {
      assert Recent(Validate(s, t, a).0.listed[|s.listed|], a);
    }
  }

  /** A grant recorded at `since` or later. */
  predicate GrantedSince(s: State, t: Target, since: int) {
    GrantKey(t) in s.probes && s.probes[GrantKey(t)].granted && s.probes[GrantKey(t)].checkedAt >= since
  }

  lemma GetInformerKeepsGrant(s: State, uid: string, u: Target, a: Answers, t: Target, since: int)
    requires GrantedSince(s, t, since) && a.now2 >= since
    ensures GrantedSince(GetInformer(s, uid, u, a).0, t, since)
  {
  }

  /** No later reconcile of any policy takes a grant away or makes it older. */
  lemma {:induction false} RunKeepsGrant(s: State, steps: seq<Step>, t: Target, since: int)
    requires GrantedSince(s, t, since)
    requires forall i :: 0 <= i < |steps| ==> steps[i].a1.now2 >= since && steps[i].a2.now2 >= since
    ensures GrantedSince(StateAfter(s, steps), t, since)
  {
    hide GetInformer;
    if steps != [] {
      var n := |steps| - 1;
      RunKeepsGrant(s, steps[..n], t, since);
      var s0, st := StateAfter(s, steps[..n]), steps[n];
      GetInformerKeepsGrant(s0, st.uid, st.target, st.a1, t, since);
      GetInformerKeepsGrant(GetInformer(s0, st.uid, st.target, st.a1).0, st.uid, st.target, st.a2, t, since);
    }
  }

  /** The steady state of the probe cache: after a probe that granted the target, and any reconciles since, a
      validation less than five minutes later is answered from the cache, without changing anything, if and only if
      the namespace is not the star; what discovery and the list probe would say then does not matter. */
  lemma GrantFoundAgain(s: State, t: Target, a: Answers, steps: seq<Step>, a': Answers)
    requires CacheSound(s) && CleanTarget(t) && forall i :: 0 <= i < |steps| ==> CleanTarget(steps[i].target)
    requires !Malformed(t) && !CacheHit(s, t, a.now1) && Validate(s, t, a).1.None?
    requires forall i :: 0 <= i < |steps| ==> steps[i].a1.now2 >= a.now2 && steps[i].a2.now2 >= a.now2
    requires a'.now1 - a.now2 < 300_000_000_000
    ensures var later := StateAfter(Validate(s, t, a).0, steps);
            && (CacheHit(later, t, a'.now1) <==> t.ns != "*")
            && (t.ns != "*" ==> Validate(later, t, a') == (later, None))
  {
    hide StateAfter, CacheHit, GrantStored, CacheSound;
    var s1 := Validate(s, t, a).0;
    ValidateSound(s, t, a);
    RunSound(s1, steps);
    ProbeGrants(s, t, a);
    RunKeepsGrant(s1, steps, t, a.now2);
    var later := StateAfter(s1, steps);
    HitExactly(later, t, a'.now1);
    YoungGrant(later, t, a.now2, a'.now1);
    if t.ns != "*" { HitAnswers(later, t, a', a.now2); }
  }

  lemma ProbeGrants(s: State, t: Target, a: Answers)
    requires !CacheHit(s, t, a.now1) && Validate(s, t, a).1.None?
    ensures GrantedSince(Validate(s, t, a).0, t, a.now2)
  {
  }

  lemma YoungGrant(s: State, t: Target, since: int, now: int)
    requires GrantedSince(s, t, since) && now - since < 300_000_000_000
    ensures GrantStored(s, t, now)
  {
  }

  lemma HitAnswers(s: State, t: Target, a: Answers, since: int)
    requires !Malformed(t) && t.ns != "*" && CacheHit(s, t, a.now1) && GrantedSince(s, t, since)
    ensures Validate(s, t, a) == (s, None)
  {
  }

  lemma GetInformerSound(s: State, uid: string, t: Target, a: Answers)
    requires CacheSound(s) && CleanTarget(t)
    ensures CacheSound(GetInformer(s, uid, t, a).0)
  {
    hide Validate;
    ValidateSound(s, t, a);
    var s1 := Validate(s, t, a).0;
    assert forall k :: k in s1.probes ==> Backed(s1, k);
    var s' := GetInformer(s, uid, t, a).0;
    forall k | k in s'.probes ensures Backed(s', k) {
      if ServiceKey(t) !in s.informers {
        assert Backed(s1, k);
      }
    }
  }

  /** After any run of reconciles every cached probe is a backed grant, so every nil answer of the run, cached or
      not, rests on a successful list of the right target. */
  lemma {:induction false} RunSound(s: State, steps: seq<Step>)
    requires CacheSound(s) && forall i :: 0 <= i < |steps| ==> CleanTarget(steps[i].target)
    ensures CacheSound(StateAfter(s, steps))
  {
    hide GetInformer, CacheSound;
    if steps != [] {
      var n := |steps| - 1;
      RunSound(s, steps[..n]);
      var s0 := StateAfter(s, steps[..n]);
      var st := steps[n];
      GetInformerSound(s0, st.uid, st.target, st.a1);
      var s1 := GetInformer(s0, st.uid, st.target, st.a1).0;
      GetInformerSound(s1, st.uid, st.target, st.a2);
      ServicesDoNotMatter(s1, s1.services + {ServiceKey(st.target)});
    }
  }

  lemma ServicesDoNotMatter(s: State, services: set<string>)
    requires CacheSound(s)
    ensures CacheSound(s.(services := services))
  {
    var s' := s.(services := services);
    forall k | k in s'.probes ensures Backed(s', k) {
      assert Backed(s, k);
    }
  }
}
