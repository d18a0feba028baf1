/** What the counters and the plan of an evaluation mean, on either path: every verdict is a statement about the
    object, the policy, the gate and the clock (pkg/controller/evaluate_policy_refactored.go,
    evaluate_policy_shared.go). */
module Plans {
  import opened Strings
  import opened Cluster
  import opened Safety
  import opened World
  import opened Evaluation
  import opened Meaning
  import opened Matching
  import opened Arithmetic
  import opened Execution
  import Ttl

  /** The second clock reading of a decision is not before the first. */
  ghost predicate OrderlyClock(c: Context) {
    forall t: nat :: c.oracle(t).now1 <= c.oracle(t).now2
  }

  /** The object is past its due instant at a tick. */
  ghost predicate Overdue(c: Context, pol: Policy, o: Obj, t: nat) {
    var due := Ttl.Due(c.parse, o, pol.ttl);
    && due.Some? && c.oracle(t).now2 > due.value
    && (due.value != 0 || (Ttl.RelativeMode(pol.ttl) && c.oracle(t).now1 > 0))
  }

  /** The primary path leaves refused objects out of its plan; the fallback path leaves them to the choke point. */
  ghost predicate Passes(c: Context, path: Path, pol: Policy, o: Obj) {
    path.Primary? ==> FirstReason(c.gate, o, pol.behavior, None)
  }

  ghost predicate VerdictMeans(c: Context, path: Path, pol: Policy, o: Obj, t: nat, v: Verdict) {
    match v
    case Unmatched => !Selected(o, pol.target)
    case Refused(r) =>
      Selected(o, pol.target) && path.Primary? && FirstReason(c.gate, o, pol.behavior, Some(r))
    case Planned(reason) =>
      && Selected(o, pol.target) && Passes(c, path, pol, o)
      && Asked(o, pol.conditions) && Overdue(c, pol, o, t) && reason == Ttl.TtlExpired
    case Pending =>
      && Selected(o, pol.target) && Passes(c, path, pol, o)
      && !(Asked(o, pol.conditions) && Overdue(c, pol, o, t))
  }

  lemma JudgeMeans(c: Context, path: Path, pol: Policy, o: Obj, t: nat)
    requires OrderlyClock(c)
    ensures VerdictMeans(c, path, pol, o, t, Judge(c, path, pol, o, c.oracle(t).now1, c.oracle(t).now2))
  {
    hide Selected, Asked, FirstReason, EvaluateObject, Ttl.ShouldDelete, Ttl.Due, MatchesSelectors, MeetsPolicy;
    SelectedExactly(o, pol.target);
    AskedExactly(o, pol.conditions);
    ReasonExactly(c.gate, o, pol.behavior);
    assert c.oracle(t).now1 <= c.oracle(t).now2;
    Ttl.DecisionIsOneComparison(c.parse, o, pol.ttl, c.oracle(t).now1, c.oracle(t).now2);
  }

  /** The fallback path tells unmet conditions and TTL apart in the reason it gives. */
  lemma FallbackReason(c: Context, pol: Policy, o: Obj, now1: int, now2: int)
    ensures ShouldDelete(c, pol, o, now1, now2) ==
            if Asked(o, pol.conditions) then Ttl.ShouldDelete(c.parse, o, pol.ttl, now1, now2)
            else (false, Ttl.ConditionNotMet)
  {
    hide Asked, Ttl.ShouldDelete, MeetsPolicy;
    AskedExactly(o, pol.conditions);
  }

  /** The tick of the first object: the primary path checks the context once before. */
  function FirstTick(w: World, path: Path): nat {
    if path.Primary? then w.t + 1 else w.t
  }

  /** The verdicts an evaluation reaches, in snapshot order. */
  function Judged(c: Context, w: World, path: Path, pol: Policy, rs: seq<Obj>): seq<Verdict> {
    var t := FirstTick(w, path);
    var n := StopAt(c, t, |rs|, 0);
    if (path.Primary? && c.oracle(w.t).done) || n > |rs| then [] else Verdicts(c, t, path, pol, rs, n)
  }

  lemma {:induction false} VerdictsMean(c: Context, t: nat, path: Path, pol: Policy, rs: seq<Obj>, n: nat)
    requires OrderlyClock(c) && n <= |rs|
    ensures forall k :: 0 <= k < n ==> VerdictMeans(c, path, pol, rs[k], t + k, Verdicts(c, t, path, pol, rs, n)[k])
  {
    hide VerdictMeans, Judge, OrderlyClock;
    if n > 0 {
      VerdictsMean(c, t, path, pol, rs, n - 1);
      JudgeMeans(c, path, pol, rs[n - 1], t + (n - 1));
    }
  }

  /** The counters count verdicts. */
  ghost predicate Counts(e: Tally, vs: seq<Verdict>) {
    && e.matched == |vs| - multiset(vs)[Unmatched]
    && e.pending == multiset(vs)[Pending]
    && (forall r :: (if r in e.refusals then e.refusals[r] else 0) == multiset(vs)[Refused(r)])
    && (forall uid :: uid in e.reasons ==> e.reasons[uid] == Ttl.TtlExpired)
  }

  lemma AddCounts(e: Tally, o: Obj, vs: seq<Verdict>, v: Verdict)
    requires Counts(e, vs) && (v.Planned? ==> v.reason == Ttl.TtlExpired)
    ensures Counts(Add(e, o, v), vs + [v])
  {
    assert multiset(vs + [v]) == multiset(vs) + multiset{v};
  }

  lemma {:induction false} TallyCounts(rs: seq<Obj>, vs: seq<Verdict>)
    requires |vs| <= |rs| && forall k :: 0 <= k < |vs| && vs[k].Planned? ==> vs[k].reason == Ttl.TtlExpired
    ensures Counts(TallyOf(rs, vs), vs)
    decreases |vs|
  {
    hide Counts, Add;
    if vs == [] {
      NothingCounted();
    } else {
      var n := |vs| - 1;
      TallyCounts(rs, vs[..n]);
      AddCounts(TallyOf(rs, vs[..n]), rs[n], vs[..n], vs[n]);
      assert vs == vs[..n] + [vs[n]];
    }
  }

  lemma NothingCounted()
    ensures Counts(EMPTY, [])
  {
  }

  /** The loop looks at the context at every hundredth object, and stops at the first of them that finds it done. */
  lemma {:induction false} StopsAtHundreds(c: Context, t: nat, n: nat, i: nat)
    requires i <= n
    ensures var stop := StopAt(c, t, n, i);
            && i <= stop <= n
            && (stop < n ==> stop % 100 == 0 && c.oracle(t + stop).done)
            && (forall k :: i <= k < stop && k % 100 == 0 ==> !c.oracle(t + k).done)
    decreases n - i
  {
    if i < n { StopsAtHundreds(c, t, n, i + 1); }
  }

  /** Evaluation, on either path and however it is cancelled. Each object up to the stop gets the verdict that the
      policy, the gate and the clock at its own tick call for; the counters count the verdicts; the plan is the
      filter of the planned ones. The primary path looks at the context before the first object, both at every
      hundredth. */
  lemma EvaluationMeans(c: Context, w: World, path: Path, pol: Policy, rs: seq<Obj>)
    requires OrderlyClock(c)
    ensures var e, vs, t := Evaluate(c, w, path, pol, rs).1, Judged(c, w, path, pol, rs), FirstTick(w, path);
            && |vs| <= |rs|
            && (forall k :: 0 <= k < |vs| ==> VerdictMeans(c, path, pol, rs[k], t + k, vs[k]))
            && Counts(e, vs)
            && Picks(rs, vs, e.plan, PlanIndices(vs)) && Increasing(PlanIndices(vs)) && AllPicked(vs, PlanIndices(vs))
    ensures var vs, t := Judged(c, w, path, pol, rs), FirstTick(w, path);
            && (path.Primary? && c.oracle(w.t).done ==> vs == [])
            && (|vs| < |rs| && !(path.Primary? && c.oracle(w.t).done) ==> |vs| % 100 == 0 && c.oracle(t + |vs|).done)
            && (forall k :: 0 <= k < |vs| && k % 100 == 0 ==> !c.oracle(t + k).done)
  {
    hide VerdictMeans, Counts, Picks, Increasing, AllPicked, TallyOf, Drift;
    var t := FirstTick(w, path);
    var vs := Judged(c, w, path, pol, rs);
    StopsAtHundreds(c, t, |rs|, 0);
    var n := StopAt(c, t, |rs|, 0);
    VerdictsMean(c, t, path, pol, rs, n);
    forall k | 0 <= k < |vs| && vs[k].Planned? ensures vs[k].reason == Ttl.TtlExpired {
      PlannedReason(c, path, pol, rs[k], t + k, vs[k]);
    }
    TallyCounts(rs, vs);
    PlanIsFilter(rs, vs);
    NothingTalliedYet(rs);
  }

  lemma PlannedReason(c: Context, path: Path, pol: Policy, o: Obj, t: nat, v: Verdict)
    requires VerdictMeans(c, path, pol, o, t, v) && v.Planned?
    ensures v.reason == Ttl.TtlExpired
  {
  }

  lemma NothingTalliedYet(rs: seq<Obj>)
    ensures TallyOf(rs, []) == EMPTY
  {
  }

  /** Everything planned is selected, permitted, asked for and past its due instant at its own tick. */
  lemma PlannedOnlyIf(c: Context, w: World, path: Path, pol: Policy, rs: seq<Obj>, i: nat) returns (k: nat)
    requires OrderlyClock(c) && i < |Evaluate(c, w, path, pol, rs).1.plan|
    ensures k < |rs| && rs[k] == Evaluate(c, w, path, pol, rs).1.plan[i]
    ensures Selected(rs[k], pol.target) && Passes(c, path, pol, rs[k]) && Asked(rs[k], pol.conditions)
    ensures Overdue(c, pol, rs[k], FirstTick(w, path) + k)
  {
    hide Selected, Passes, Asked, Overdue, Judged, Evaluate, OrderlyClock, PlanIndices, Increasing, AllPicked, Counts;
    EvaluationMeans(c, w, path, pol, rs);
    var vs := Judged(c, w, path, pol, rs);
    k := PlanIndices(vs)[i];
    assert VerdictMeans(c, path, pol, rs[k], FirstTick(w, path) + k, vs[k]);
  }

  /** And, if the evaluation is not cancelled, everything that is so is planned. */
  lemma PlannedIf(c: Context, w: World, path: Path, pol: Policy, rs: seq<Obj>, k: nat)
    requires OrderlyClock(c) && NeverCancelled(c) && k < |rs|
    requires Selected(rs[k], pol.target) && Passes(c, path, pol, rs[k]) && Asked(rs[k], pol.conditions)
    requires Overdue(c, pol, rs[k], FirstTick(w, path) + k)
    ensures rs[k] in Evaluate(c, w, path, pol, rs).1.plan
  {
    hide Selected, Asked, Overdue, Judged, Evaluate, FirstReason, OrderlyClock, PlanIndices, Increasing, Counts;
    EvaluationMeans(c, w, path, pol, rs);
    assert !c.oracle(w.t).done;
    var e, vs, t := Evaluate(c, w, path, pol, rs).1, Judged(c, w, path, pol, rs), FirstTick(w, path);
    var idx := PlanIndices(vs);
    assert !c.oracle(t + |vs|).done;
    assert VerdictMeans(c, path, pol, rs[k], t + k, vs[k]);
    NotBoth(c, path, pol, rs[k]);
    assert k in idx;
    var i :| 0 <= i < |idx| && idx[i] == k;
    assert e.plan[i] == rs[k];
  }

  /** The plan as a set, for an evaluation that is not cancelled: exactly the selected, permitted objects that meet the
      conditions and are past their due instant. */
  lemma PlannedExactly(c: Context, w: World, path: Path, pol: Policy, rs: seq<Obj>, o: Obj)
    requires OrderlyClock(c) && NeverCancelled(c)
    ensures o in Evaluate(c, w, path, pol, rs).1.plan <==>
            && Selected(o, pol.target) && Passes(c, path, pol, o) && Asked(o, pol.conditions)
            && exists k :: 0 <= k < |rs| && rs[k] == o && Overdue(c, pol, o, FirstTick(w, path) + k)
  {
    hide Selected, Passes, Asked, Overdue, Evaluate, OrderlyClock, NeverCancelled;
    var plan := Evaluate(c, w, path, pol, rs).1.plan;
    if o in plan {
      var i :| 0 <= i < |plan| && plan[i] == o;
      var k := PlannedOnlyIf(c, w, path, pol, rs, i);
    }
    if Selected(o, pol.target) && Passes(c, path, pol, o) && Asked(o, pol.conditions) {
      if k :| 0 <= k < |rs| && rs[k] == o && Overdue(c, pol, o, FirstTick(w, path) + k) {
        PlannedIf(c, w, path, pol, rs, k);
      }
    }
  }

  lemma NotBoth(c: Context, path: Path, pol: Policy, o: Obj)
    ensures Passes(c, path, pol, o) && path.Primary? ==> forall r :: !FirstReason(c.gate, o, pol.behavior, Some(r))
  {
  }

  /** The batches of a cycle: the policy's own size if it is positive, else the controller's, else fifty. All but
      the last are full, so uncancelled there are as many as the plan needs. */
  lemma BatchSizes(c: Context, w: World, path: Path, pol: Policy, store: seq<Obj>, configured: Option<int>)
    requires pol.behavior.batchSize > 0 || configured.None? || configured.value > 0
    ensures var e := EvaluatePolicy(c, w, path, pol, store, configured);
            var size :=
              if pol.behavior.batchSize > 0 then pol.behavior.batchSize
              else if configured.Some? then configured.value
              else 50;
            && BatchesOf(e.swept.batches, e.tally.plan, size)
            && (NeverCancelled(c) ==> |e.swept.batches| == Ceil(|e.tally.plan|, size))
  {
    hide Evaluate, Sweep, BatchesOf, Ceil;
    var rs := if path.Primary? then ListResources(store, pol.target.ns) else store;
    var (w1, tally) := Evaluate(c, w, path, pol, rs);
    var size := ResolveBatchSize(pol.behavior, configured);
    assert tally.plan[0..] == tally.plan;
    assert NeverCancelled(c) ==> !Now(c, w1).done;
    NoBatches(tally.plan, size);
    CeilSteps(|tally.plan|, size);
    SweepBatches(c, w1, tally.plan, size, pol, 0);
    SweepBatches(c, Advance(c, w1), tally.plan, size, pol, 0);
  }

  /** The primary path looks at the context twice before its first batch, the fallback path once. Nothing
      is handed out exactly if one of these looks finds it done. */
  lemma CancelledBeforeFirstBatch(c: Context, w: World, path: Path, plan: seq<Obj>, size: int, pol: Policy)
    requires size > 0 && plan != []
    ensures DeletePlan(c, w, path, plan, size, pol).batches == [] <==>
            c.oracle(w.t).done || (path.Primary? && c.oracle(w.t + 1).done)
  {
    hide Execute;
  }
}
