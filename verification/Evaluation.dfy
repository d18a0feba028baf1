/** One evaluation cycle, on the primary path (pkg/controller/evaluate_policy_refactored.go) and on the fallback path
    (pkg/controller/evaluate_policy_shared.go): snapshot to plan, plan to batches, batches to the executor. */
module Evaluation {
  import opened Strings
  import opened Cluster
  import opened Safety
  import opened Matching
  import opened World
  import opened Deletion
  import opened Receipts
  import opened Execution
  import opened Arithmetic
  import Ttl

  datatype Path = Primary | Fallback

  datatype Verdict = Unmatched | Refused(refusal: Refusal) | Pending | Planned(reason: Ttl.Reason)

  /** The primary path: selectors, gate, conditions, TTL. */
  function PrimaryVerdict(c: Context, pol: Policy, o: Obj, now1: int, now2: int): Verdict {
    if !MatchesSelectors(o, pol.target) then Unmatched
    else
      var refusal := EvaluateObject(c.gate, o, pol.behavior);
      if refusal.Some? then Refused(refusal.value)
      else if !MeetsPolicy(o, pol.conditions) then Pending
      else
        var (yes, reason) := Ttl.ShouldDelete(c.parse, o, pol.ttl, now1, now2);
        if yes then Planned(reason) else Pending
  }

  /** PolicyReconciler.shouldDelete: conditions, then TTL. */
  function ShouldDelete(c: Context, pol: Policy, o: Obj, now1: int, now2: int): (bool, Ttl.Reason) {
    if !MeetsPolicy(o, pol.conditions) then (false, Ttl.ConditionNotMet)
    else Ttl.ShouldDelete(c.parse, o, pol.ttl, now1, now2)
  }

  /** The fallback path: selectors, then conditions and TTL; no gate. */
  function FallbackVerdict(c: Context, pol: Policy, o: Obj, now1: int, now2: int): Verdict {
    if !MatchesSelectors(o, pol.target) then Unmatched
    else
      var (yes, reason) := ShouldDelete(c, pol, o, now1, now2);
      if yes then Planned(reason) else Pending
  }

  function Judge(c: Context, path: Path, pol: Policy, o: Obj, now1: int, now2: int): Verdict {
    match path
    case Primary => PrimaryVerdict(c, pol, o, now1, now2)
    case Fallback => FallbackVerdict(c, pol, o, now1, now2)
  }

  // ----- the tally an evaluation loop keeps

  datatype Tally = Tally(
    matched: nat,
    pending: nat,
    refusals: map<Refusal, nat>,
    plan: seq<Obj>,
    reasons: map<string, Ttl.Reason>)

  const EMPTY: Tally := Tally(0, 0, map[], [], map[])

  function Count(m: map<Refusal, nat>, r: Refusal): nat {
    if r in m then m[r] else 0
  }

  function Add(e: Tally, o: Obj, v: Verdict): Tally {
    match v
    case Unmatched => e
    case Refused(r) => e.(matched := e.matched + 1, refusals := e.refusals[r := Count(e.refusals, r) + 1])
    case Pending => e.(matched := e.matched + 1, pending := e.pending + 1)
    case Planned(reason) => e.(matched := e.matched + 1, plan := e.plan + [o], reasons := e.reasons[o.uid := reason])
  }

  function TallyOf(rs: seq<Obj>, vs: seq<Verdict>): Tally
    requires |vs| <= |rs|
    decreases |vs|
  {
    if vs == [] then EMPTY
    else var n := |vs| - 1; Add(TallyOf(rs, vs[..n]), rs[n], vs[n])
  }

  // ----- the loops

  const EVALUATION_CHECK_INTERVAL := 100

  /** Where the loop stops: before the first checked index that finds the context done. Resource i uses tick t + i. */
  function StopAt(c: Context, t: nat, n: nat, i: nat): nat
    requires i <= n
    decreases n - i
  {
    if i == n then n
    else if i % EVALUATION_CHECK_INTERVAL == 0 && c.oracle(t + i).done then i
    else StopAt(c, t, n, i + 1)
  }

  function Verdicts(c: Context, t: nat, path: Path, pol: Policy, rs: seq<Obj>, n: nat): (vs: seq<Verdict>)
    requires n <= |rs|
    ensures |vs| == n
  {
    if n == 0 then []
    else
      var tick := c.oracle(t + (n - 1));
      Verdicts(c, t, path, pol, rs, n - 1) + [Judge(c, path, pol, rs[n - 1], tick.now1, tick.now2)]
  }

  /** The loop both paths run over their snapshot. */
  function EvaluateLoop(c: Context, w: World, path: Path, pol: Policy, rs: seq<Obj>): (World, Tally) {
    var n := StopAt(c, w.t, |rs|, 0);
    (Drift(c, w, if n < |rs| then n + 1 else n),
     if n <= |rs| then TallyOf(rs, Verdicts(c, w.t, path, pol, rs, n)) else EMPTY)
  }

  lemma LoopStep(c: Context, w: World, path: Path, pol: Policy, rs: seq<Obj>, i: nat)
    requires i < |rs|
    ensures Drift(c, w, i + 1) == Advance(c, Drift(c, w, i))
    ensures TallyOf(rs, Verdicts(c, w.t, path, pol, rs, i + 1)) ==
            Add(TallyOf(rs, Verdicts(c, w.t, path, pol, rs, i)), rs[i],
                Judge(c, path, pol, rs[i], c.oracle(w.t + i).now1, c.oracle(w.t + i).now2))
    ensures StopAt(c, w.t, |rs|, i) ==
            if i % EVALUATION_CHECK_INTERVAL == 0 && c.oracle(w.t + i).done then i else StopAt(c, w.t, |rs|, i + 1)
  {
    hide Judge, Add;
    var vs := Verdicts(c, w.t, path, pol, rs, i + 1);
    assert vs[..i] == Verdicts(c, w.t, path, pol, rs, i);
  }

  /** Where the loop of a method stands that has judged i objects and was not stopped before. */
  ghost predicate LoopAt(c: Context, w: World, path: Path, pol: Policy, rs: seq<Obj>, i: nat, w': World, e: Tally)
    requires i <= |rs|
  {
    && StopAt(c, w.t, |rs|, 0) == StopAt(c, w.t, |rs|, i)
    && w' == Drift(c, w, i) && w'.t == w.t + i
    && e == TallyOf(rs, Verdicts(c, w.t, path, pol, rs, i))
  }

  lemma LoopBegins(c: Context, w: World, path: Path, pol: Policy, rs: seq<Obj>)
    ensures LoopAt(c, w, path, pol, rs, 0, w, EMPTY)
  {
  }

  lemma LoopGoesOn(c: Context, w: World, path: Path, pol: Policy, rs: seq<Obj>, i: nat, w': World, e: Tally)
    requires i < |rs| && LoopAt(c, w, path, pol, rs, i, w', e)
    ensures var tick := Now(c, w');
            if i % EVALUATION_CHECK_INTERVAL == 0 && tick.done then
              (Advance(c, w'), e) == EvaluateLoop(c, w, path, pol, rs)
            else
              var e' := Add(e, rs[i], Judge(c, path, pol, rs[i], tick.now1, tick.now2));
              LoopAt(c, w, path, pol, rs, i + 1, Advance(c, w'), e')
  {
    hide Judge, Add, TallyOf, Verdicts, StopAt, Drift;
    LoopStep(c, w, path, pol, rs, i);
  }

  lemma LoopEnds(c: Context, w: World, path: Path, pol: Policy, rs: seq<Obj>, w': World, e: Tally)
    requires LoopAt(c, w, path, pol, rs, |rs|, w', e)
    ensures (w', e) == EvaluateLoop(c, w, path, pol, rs)
  {
    hide TallyOf, Verdicts, Drift;
  }

  /** evaluateResources checks the context once more at the start; evaluatePolicyResourcesShared does not. */
  function Evaluate(c: Context, w: World, path: Path, pol: Policy, rs: seq<Obj>): (World, Tally) {
    match path
    case Fallback => EvaluateLoop(c, w, path, pol, rs)
    case Primary =>
      var (w1, done) := Done(c, w);
      if done then (w1, EMPTY) else EvaluateLoop(c, w1, path, pol, rs)
  }

  /** InformerStoreResourceLister.ListResources. */
  function ListResources(store: seq<Obj>, ns: string): seq<Obj> {
    if store == [] then []
    else
      var n := |store| - 1;
      ListResources(store[..n], ns) + if MatchesNamespace(store[n], ns) then [store[n]] else []
  }

  const DEFAULT_BATCH_SIZE := 50

  /** resolveBatchSize. */
  function ResolveBatchSize(b: Behavior, configured: Option<int>): int {
    if b.batchSize > 0 then b.batchSize
    else if configured.Some? then configured.value
    else DEFAULT_BATCH_SIZE
  }

  /** What a batching loop did: the batches it handed out, and the sums over them. */
  datatype Swept = Swept(w: World, deleted: nat, errors: nat, batches: seq<seq<Obj>>, receipts: seq<Receipt>)

  function Sweep(c: Context, w: World, plan: seq<Obj>, size: int, pol: Policy, i: nat): Swept
    requires size > 0
    decreases |plan| - i
  {
    if i >= |plan| then Swept(w, 0, 0, [], [])
    else
      var (w1, done) := Done(c, w);
      if done then Swept(w1, 0, 0, [], [])
      else
        var end := if i + size > |plan| then |plan| else i + size;
        var r := Execute(c, w1, plan[i..end], pol.uid, pol.behavior);
        var rest := Sweep(c, r.w, plan, size, pol, i + size);
        Swept(rest.w, r.deleted + rest.deleted, |r.errs| + rest.errors, [plan[i..end]] + rest.batches,
              (if r.receipt.Some? then [r.receipt.value] else []) + rest.receipts)
  }

  /** deleteResourcesInBatches with its extra check at the start, deleteResourcesInBatchesShared without. */
  function DeletePlan(c: Context, w: World, path: Path, plan: seq<Obj>, size: int, pol: Policy): Swept
    requires size > 0
  {
    if plan == [] then Swept(w, 0, 0, [], [])
    else
      match path
      case Fallback => Sweep(c, w, plan, size, pol, 0)
      case Primary =>
        var (w1, done) := Done(c, w);
        if done then Swept(w1, 0, 0, [], []) else Sweep(c, w1, plan, size, pol, 0)
  }

  datatype Cycle = Cycle(w: World, tally: Tally, swept: Swept)

  /** One evaluation of a policy over the informer's store. */
  function EvaluatePolicy(c: Context, w: World, path: Path, pol: Policy, store: seq<Obj>, configured: Option<int>)
    : Cycle
    requires ResolveBatchSize(pol.behavior, configured) > 0
  {
    var rs := if path.Primary? then ListResources(store, pol.target.ns) else store;
    var (w1, tally) := Evaluate(c, w, path, pol, rs);
    var swept := DeletePlan(c, w1, path, tally.plan, ResolveBatchSize(pol.behavior, configured), pol);
    Cycle(swept.w, tally, swept)
  }

  // ----- conservation in evaluation

  function TotalRefusals(m: map<Refusal, nat>): nat {
    Count(m, Unknown) + Count(m, DeletesDisabled) + Count(m, ProtectedNamespace) + Count(m, ProtectedKind) +
    Count(m, ExcludedLabel) + Count(m, WorkloadManaged) + Count(m, ActiveWorkload)
  }

  lemma CountAfterAdd(m: map<Refusal, nat>, r: Refusal, q: Refusal)
    ensures Count(m[r := Count(m, r) + 1], q) == Count(m, q) + if q == r then 1 else 0
  {
  }

  lemma TotalRefusalsAdd(m: map<Refusal, nat>, r: Refusal)
    ensures TotalRefusals(m[r := Count(m, r) + 1]) == TotalRefusals(m) + 1
  {
    hide Count;
    CountAfterAdd(m, r, Unknown);
    CountAfterAdd(m, r, DeletesDisabled);
    CountAfterAdd(m, r, ProtectedNamespace);
    CountAfterAdd(m, r, ProtectedKind);
    CountAfterAdd(m, r, ExcludedLabel);
    CountAfterAdd(m, r, WorkloadManaged);
    CountAfterAdd(m, r, ActiveWorkload);
  }

  /** Every matched object is refused, pending or planned. */
  ghost predicate Balanced(e: Tally) {
    e.matched == TotalRefusals(e.refusals) + e.pending + |e.plan|
  }

  lemma AddKeepsBalance(e: Tally, o: Obj, v: Verdict)
    requires Balanced(e)
    ensures Balanced(Add(e, o, v))
  {
    hide TotalRefusals;
    if v.Refused? { TotalRefusalsAdd(e.refusals, v.refusal); }
  }

  /** Nothing is lost or counted twice. */
  lemma {:induction false} TallyConserves(rs: seq<Obj>, vs: seq<Verdict>)
    requires |vs| <= |rs|
    ensures Balanced(TallyOf(rs, vs))
    decreases |vs|
  {
    hide Add;
    if vs != [] {
      var n := |vs| - 1;
      TallyConserves(rs, vs[..n]);
      AddKeepsBalance(TallyOf(rs, vs[..n]), rs[n], vs[n]);
    }
  }

  /** The same at every exit of either evaluation, cancelled or not. */
  lemma EvaluationConserves(c: Context, w: World, path: Path, pol: Policy, rs: seq<Obj>)
    ensures var e := Evaluate(c, w, path, pol, rs).1;
            e.matched == TotalRefusals(e.refusals) + e.pending + |e.plan|
  {
    hide Verdicts, TallyOf, TotalRefusals;
    var w1 := if path.Primary? then Done(c, w).0 else w;
    var n := StopAt(c, w1.t, |rs|, 0);
    if n <= |rs| { TallyConserves(rs, Verdicts(c, w1.t, path, pol, rs, n)); }
    NothingTallied();
  }

  lemma NothingTallied()
    ensures Balanced(EMPTY)
  {
  }

  /** The indices of the planned objects. */
  function PlanIndices(vs: seq<Verdict>): seq<nat> {
    if vs == [] then []
    else var n := |vs| - 1; PlanIndices(vs[..n]) + if vs[n].Planned? then [n] else []
  }

  /** Position by position, the plan holds the snapshot's objects at these indices, all judged deletable. */
  ghost predicate Picks(rs: seq<Obj>, vs: seq<Verdict>, plan: seq<Obj>, idx: seq<nat>)
    requires |vs| <= |rs|
  {
    |plan| == |idx| && forall i :: 0 <= i < |idx| ==> idx[i] < |vs| && vs[idx[i]].Planned? && plan[i] == rs[idx[i]]
  }

  ghost predicate Increasing(idx: seq<nat>) {
    forall i, j :: 0 <= i < j < |idx| ==> idx[i] < idx[j]
  }

  ghost predicate AllPicked(vs: seq<Verdict>, idx: seq<nat>) {
    forall k :: 0 <= k < |vs| && vs[k].Planned? ==> k in idx
  }

  ghost predicate Explained(e: Tally) {
    forall i :: 0 <= i < |e.plan| ==> e.plan[i].uid in e.reasons
  }

  lemma PicksStep(rs: seq<Obj>, vs: seq<Verdict>, plan: seq<Obj>, idx: seq<nat>)
    requires 0 < |vs| <= |rs|
    requires Picks(rs, vs[..|vs| - 1], plan, idx) && Increasing(idx) && AllPicked(vs[..|vs| - 1], idx)
    ensures var n := |vs| - 1;
            var (plan', idx') := if vs[n].Planned? then (plan + [rs[n]], idx + [n]) else (plan, idx);
            Picks(rs, vs, plan', idx') && Increasing(idx') && AllPicked(vs, idx')
  {
    var n := |vs| - 1;
    var idx' := if vs[n].Planned? then idx + [n] else idx;
    forall k | 0 <= k < |vs| && vs[k].Planned? ensures k in idx' {
      if k == n { assert idx'[|idx|] == n; } else { assert vs[..n][k] == vs[k]; }
    }
  }

  lemma PlanOf(e: Tally, o: Obj, v: Verdict)
    ensures Add(e, o, v).plan == if v.Planned? then e.plan + [o] else e.plan
  {
  }

  lemma AddExplains(e: Tally, o: Obj, v: Verdict)
    requires Explained(e)
    ensures Explained(Add(e, o, v))
  {
  }

  /** The plan is the order-preserving filter of the judged prefix: exactly the planned objects, in snapshot order, each
      with its reason on record. */
  lemma {:induction false} PlanIsFilter(rs: seq<Obj>, vs: seq<Verdict>)
    requires |vs| <= |rs|
    ensures var (e, idx) := (TallyOf(rs, vs), PlanIndices(vs));
            Picks(rs, vs, e.plan, idx) && Increasing(idx) && AllPicked(vs, idx) && Explained(e)
    decreases |vs|
  {
    hide Add, Picks, Increasing, AllPicked, Explained;
    if vs == [] {
      NothingPicked(rs);
    } else {
      var n := |vs| - 1;
      PlanIsFilter(rs, vs[..n]);
      AddExplains(TallyOf(rs, vs[..n]), rs[n], vs[n]);
      PlanOf(TallyOf(rs, vs[..n]), rs[n], vs[n]);
      var idx := PlanIndices(vs[..n]);
      assert PlanIndices(vs) == if vs[n].Planned? then idx + [n] else idx;
      PicksStep(rs, vs, TallyOf(rs, vs[..n]).plan, idx);
    }
  }

  lemma NothingPicked(rs: seq<Obj>)
    ensures Picks(rs, [], [], []) && Increasing([]) && AllPicked([], []) && Explained(EMPTY)
  {
  }

  lemma {:induction false} StopAtRange(c: Context, t: nat, n: nat, i: nat)
    requires i <= n
    ensures i <= StopAt(c, t, n, i) <= n
    ensures NeverCancelled(c) ==> StopAt(c, t, n, i) == n
    ensures StopAt(c, t, n, i) < n ==>
              StopAt(c, t, n, i) % EVALUATION_CHECK_INTERVAL == 0 && c.oracle(t + StopAt(c, t, n, i)).done
    decreases n - i
  {
    if i < n { StopAtRange(c, t, n, i + 1); }
  }

  /** Planned on this path at a clock reading between two positions of the oracle. */
  ghost predicate PlannedIn(c: Context, path: Path, pol: Policy, o: Obj, from: nat, to: nat) {
    exists t: nat :: from <= t < to && Judge(c, path, pol, o, c.oracle(t).now1, c.oracle(t).now2).Planned?
  }

  lemma PlannedNow(c: Context, t: nat, path: Path, pol: Policy, o: Obj, from: nat, to: nat)
    requires from <= t < to && Judge(c, path, pol, o, c.oracle(t).now1, c.oracle(t).now2).Planned?
    ensures PlannedIn(c, path, pol, o, from, to)
  {
  }

  lemma PlannedWider(c: Context, path: Path, pol: Policy, o: Obj, from: nat, to: nat, from': nat, to': nat)
    requires PlannedIn(c, path, pol, o, from, to) && from' <= from && to <= to'
    ensures PlannedIn(c, path, pol, o, from', to')
  {
    hide Judge;
    var t: nat :| from <= t < to && Judge(c, path, pol, o, c.oracle(t).now1, c.oracle(t).now2).Planned?;
    PlannedNow(c, t, path, pol, o, from', to');
  }

  lemma {:induction false} PlanWasJudged(c: Context, t: nat, path: Path, pol: Policy, rs: seq<Obj>, n: nat)
    requires n <= |rs|
    ensures forall o :: o in TallyOf(rs, Verdicts(c, t, path, pol, rs, n)).plan ==>
              o in rs && PlannedIn(c, path, pol, o, t, t + n)
  {
    hide Judge, Add, Explained, PlannedIn;
    if n > 0 {
      PlanWasJudged(c, t, path, pol, rs, n - 1);
      var vs := Verdicts(c, t, path, pol, rs, n);
      var before := Verdicts(c, t, path, pol, rs, n - 1);
      assert vs[..n - 1] == before;
      PlanOf(TallyOf(rs, before), rs[n - 1], vs[n - 1]);
      var plan := TallyOf(rs, before).plan;
      forall o | o in plan ensures PlannedIn(c, path, pol, o, t, t + n) {
        PlannedWider(c, path, pol, o, t, t + (n - 1), t, t + n);
      }
      if vs[n - 1].Planned? { PlannedNow(c, t + (n - 1), path, pol, rs[n - 1], t, t + n); }
    }
  }

  /** Evaluation only moves on in the oracle. */
  lemma EvaluateDrifts(c: Context, w: World, path: Path, pol: Policy, rs: seq<Obj>)
    ensures var w' := Evaluate(c, w, path, pol, rs).0; w'.t >= w.t && w' == Drift(c, w, w'.t - w.t)
  {
    hide TallyOf, Verdicts, StopAt, Apply;
    var w1 := if path.Primary? then Done(c, w).0 else w;
    var n := StopAt(c, w1.t, |rs|, 0);
    var k := if n < |rs| then n + 1 else n;
    DriftTicks(c, w1, k);
    if path.Primary? { DriftFirst(c, w, k + 1); }
  }

  /** Whatever evaluation plans comes from the snapshot and was judged deletable at a clock reading taken while it
      ran. */
  lemma EvaluatePlans(c: Context, w: World, path: Path, pol: Policy, rs: seq<Obj>)
    ensures var (w', e) := Evaluate(c, w, path, pol, rs);
            forall o :: o in e.plan ==> o in rs && PlannedIn(c, path, pol, o, w.t, w'.t)
  {
    hide Judge, PlannedIn, Add, Apply;
    var w1 := if path.Primary? then Done(c, w).0 else w;
    StopAtRange(c, w1.t, |rs|, 0);
    var n := StopAt(c, w1.t, |rs|, 0);
    DriftTicks(c, w1, if n < |rs| then n + 1 else n);
    PlanWasJudged(c, w1.t, path, pol, rs, n);
    var w' := Evaluate(c, w, path, pol, rs).0;
    var plan := TallyOf(rs, Verdicts(c, w1.t, path, pol, rs, n)).plan;
    if w1.t + n <= w'.t {
      forall o | o in plan ensures PlannedIn(c, path, pol, o, w.t, w'.t) {
        PlannedWider(c, path, pol, o, w1.t, w1.t + n, w.t, w'.t);
      }
    }
  }

  lemma {:induction false} ListIsSubset(store: seq<Obj>, ns: string)
    ensures forall o :: o in ListResources(store, ns) <==> o in store && MatchesNamespace(o, ns)
  {
    if store != [] {
      var n := |store| - 1;
      ListIsSubset(store[..n], ns);
      assert store == store[..n] + [store[n]];
    }
  }

  // ----- batching conserves

  function Flatten(batches: seq<seq<Obj>>): seq<Obj> {
    if batches == [] then [] else batches[0] + Flatten(batches[1..])
  }

  /** Batches are never empty and never larger than the size, all but the last are full, and put together they are a
      prefix of what was to be done. */
  ghost predicate BatchesOf(batches: seq<seq<Obj>>, todo: seq<Obj>, size: int) {
    && (forall k :: 0 <= k < |batches| ==> 0 < |batches[k]| <= size)
    && (forall k :: 0 <= k < |batches| - 1 ==> |batches[k]| == size)
    && Flatten(batches) <= todo
  }

  lemma BatchesCons(batch: seq<Obj>, batches: seq<seq<Obj>>, todo: seq<Obj>, size: int)
    requires 0 < |batch| <= size && (batches != [] ==> |batch| == size) && BatchesOf(batches, todo, size)
    ensures Flatten([batch] + batches) == batch + Flatten(batches)
    ensures BatchesOf([batch] + batches, batch + todo, size)
  {
    var all := [batch] + batches;
    assert all[0] == batch && all[1..] == batches;
    assert forall k :: 0 < k < |all| ==> all[k] == batches[k - 1];
  }

  /** The batches of a sweep: together they are the plan, or, when the sweep is cancelled, a prefix of it;
      uncancelled there are ceil(n / size) of them. */
  lemma {:induction false} SweepBatches(c: Context, w: World, plan: seq<Obj>, size: int, pol: Policy, i: nat)
    requires size > 0 && i <= |plan|
    ensures var batches := Sweep(c, w, plan, size, pol, i).batches;
            && BatchesOf(batches, plan[i..], size)
            && (NeverCancelled(c) ==> Flatten(batches) == plan[i..] && |batches| == Ceil(|plan| - i, size))
    decreases |plan| - i
  {
    hide Execute, BatchesOf, Ceil, Flatten;
    NoBatches(plan[i..], size);
    CeilSteps(|plan| - i, size);
    if i < |plan| {
      assert NeverCancelled(c) ==> !Now(c, w).done;
      var w1 := Advance(c, w);
      var end := if i + size > |plan| then |plan| else i + size;
      var batch := plan[i..end];
      var r := Execute(c, w1, batch, pol.uid, pol.behavior);
      if !Now(c, w).done {
        assert plan[i..] == batch + plan[end..];
        var rest := Sweep(c, r.w, plan, size, pol, i + size).batches;
        assert Sweep(c, w, plan, size, pol, i).batches == [batch] + rest;
        if end == i + size {
          SweepBatches(c, r.w, plan, size, pol, end);
        } else {
          assert rest == [] && plan[end..] == [];
          NoBatches([], size);
        }
        BatchesCons(batch, rest, plan[end..], size);
      }
    }
    if i + size >= |plan| { CeilSteps(0, size); }
  }

  lemma NoBatches(todo: seq<Obj>, size: int)
    ensures BatchesOf([], todo, size) && Flatten([]) == []
  {
  }

  lemma FollowsDrift(c: Context, objs: seq<Obj>, b: Behavior, w: World, n: nat)
    requires Keyed(w.live)
    ensures Keyed(Drift(c, w, n).live)
    ensures Follows(c, objs, b, w, Drift(c, w, n)) && Paid(w, Drift(c, w, n))
  {
    DriftTicks(c, w, n);
    FollowsUnlogged(c, objs, b, w, Drift(c, w, n));
  }

  lemma PaidChain(w: World, w1: World, w2: World)
    requires Paid(w, w1) && Paid(w1, w2)
    ensures Paid(w, w2)
  {
  }

  lemma ExecuteFollows(c: Context, w: World, batch: seq<Obj>, policyUid: string, b: Behavior)
    requires Keyed(w.live)
    ensures var w' := Execute(c, w, batch, policyUid, b).w; Follows(c, batch, b, w, w') && Paid(w, w')
  {
    hide DeleteBatch, Follows, Paid;
    BatchFollows(c, w, batch, b, 0);
    if !b.dryRun {
      hide Execute;
      ExecuteIsBatch(c, w, batch, policyUid, b);
      var w1 := Drift(c, w, |batch|);
      FollowsDrift(c, batch, b, w, |batch|);
      BatchFollows(c, w1, batch, b, 0);
      var w2 := DeleteBatch(c, w1, batch, b, 0).w;
      FollowsKeyed(c, batch, b, w1, w2);
      FollowsChain(c, batch, b, w, w1, w2);
      PaidChain(w, w1, w2);
      FollowsDrift(c, batch, b, w2, |batch|);
      FollowsChain(c, batch, b, w, w2, Drift(c, w2, |batch|));
      PaidChain(w, w2, Drift(c, w2, |batch|));
    }
  }

  lemma ExecuteConserves(c: Context, w: World, batch: seq<Obj>, policyUid: string, b: Behavior)
    ensures var r := Execute(c, w, batch, policyUid, b);
            && r.w.processed >= w.processed
            && (if b.dryRun then r.deleted == 0 && r.receipt.None?
                else r.deleted + |r.errs| == r.w.processed - w.processed)
            && (NeverCancelled(c) ==> r.w.processed == w.processed + |batch|)
  {
    hide DeleteBatch;
    BatchConserves(c, w, batch, b, 0);
    if !b.dryRun {
      hide Execute;
      ExecuteIsBatch(c, w, batch, policyUid, b);
      var w1 := Drift(c, w, |batch|);
      DriftTicks(c, w, |batch|);
      BatchConserves(c, w1, batch, b, 0);
      DriftTicks(c, DeleteBatch(c, w1, batch, b, 0).w, |batch|);
    }
  }

  /** A whole sweep: outside dry run, deleted plus errors is the number of objects processed, even when cancelled,
      and the whole plan is processed when not; in dry run nothing is deleted and no receipt exists. */
  lemma {:induction false} SweepConserves(c: Context, w: World, plan: seq<Obj>, size: int, pol: Policy, i: nat)
    requires size > 0 && i <= |plan|
    ensures var s := Sweep(c, w, plan, size, pol, i);
            && s.w.processed >= w.processed
            && (if pol.behavior.dryRun then s.deleted == 0 && s.receipts == []
                else s.deleted + s.errors == s.w.processed - w.processed)
            && (NeverCancelled(c) ==> s.w.processed == w.processed + (|plan| - i))
    decreases |plan| - i
  {
    hide Execute;
    if i < |plan| {
      assert NeverCancelled(c) ==> !Now(c, w).done;
      var w1 := Advance(c, w);
      var end := if i + size > |plan| then |plan| else i + size;
      ExecuteConserves(c, w1, plan[i..end], pol.uid, pol.behavior);
      var r := Execute(c, w1, plan[i..end], pol.uid, pol.behavior);
      if end == i + size { SweepConserves(c, r.w, plan, size, pol, end); }
    }
  }

  /** Every removal of a sweep is a lawful removal of a planned object, and every DELETE has its own token. */
  lemma {:induction false} SweepFollows(c: Context, w: World, plan: seq<Obj>, size: int, pol: Policy, i: nat)
    requires size > 0 && Keyed(w.live)
    ensures var w' := Sweep(c, w, plan, size, pol, i).w; Follows(c, plan, pol.behavior, w, w') && Paid(w, w')
    decreases |plan| - i
  {
    hide Execute, Follows, Apply;
    var b := pol.behavior;
    FollowsUnlogged(c, plan, b, w, w);
    if i < |plan| {
      ApplyKeyed(w.live, Now(c, w).env);
      var w1 := Advance(c, w);
      FollowsUnlogged(c, plan, b, w, w1);
      if !Now(c, w).done {
        var end := if i + size > |plan| then |plan| else i + size;
        var batch := plan[i..end];
        ExecuteFollows(c, w1, batch, pol.uid, b);
        var w2 := Execute(c, w1, batch, pol.uid, b).w;
        FollowsKeyed(c, batch, b, w1, w2);
        FollowsMore(c, batch, plan, b, w1, w2);
        FollowsChain(c, plan, b, w, w1, w2);
        SweepFollows(c, w2, plan, size, pol, i + size);
        FollowsChain(c, plan, b, w, w2, Sweep(c, w2, plan, size, pol, i + size).w);
      }
    }
  }
}
