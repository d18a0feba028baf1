/** The receipts of a whole cycle (pkg/controller/evaluate_policy_refactored.go): every batch gets its own, and put
    together they are as exact about the cycle as each is about its batch. */
module CycleReceipts {
  import opened Strings
  import opened Cluster
  import opened World
  import opened Deletion
  import opened Receipts
  import opened Execution
  import opened Evaluation

  /** The results of all receipts in the order they were issued. */
  function AllResults(receipts: seq<Receipt>): seq<Result> {
    if receipts == [] then [] else receipts[0].results + AllResults(receipts[1..])
  }

  // ----- two stretches of objects with distinct keys

  lemma DistinctParts(p: seq<Obj>, q: seq<Obj>)
    requires DistinctKeys(p + q)
    ensures DistinctKeys(p) && DistinctKeys(q)
    ensures forall i, j :: 0 <= i < |p| && 0 <= j < |q| ==> p[i].key != q[j].key
  {
    var all := p + q;
    assert forall i :: 0 <= i < |p| ==> all[i] == p[i];
    assert forall j :: 0 <= j < |q| ==> all[|p| + j] == q[j];
  }

  /** A key that none of the objects has is left alone. */
  lemma LeftAlone(live: Live, live': Live, objs: seq<Obj>, k: Key)
    requires Shrinks(live, live', objs) && forall i :: 0 <= i < |objs| ==> objs[i].key != k
    ensures k in live' <==> k in live
    ensures k in live ==> live'[k] == live[k]
  {
  }

  /** Results of two stretches in a row, each exact about its own, are exact about both together. */
  lemma ExactInARow(before: Live, mid: Live, after: Live, p: seq<Obj>, q: seq<Obj>, rp: seq<Result>, rq: seq<Result>)
    requires DistinctKeys(p + q) && Shrinks(before, mid, p) && Shrinks(mid, after, q)
    requires |rp| == |p| && ResultsExact(before, mid, p, rp)
    requires |rq| == |q| && ResultsExact(mid, after, q, rq)
    ensures ResultsExact(before, after, p + q, rp + rq)
  {
    hide Shrinks;
    DistinctParts(p, q);
    forall i | 0 <= i < |p| ensures TrueClass(before, after, p[i]) == TrueClass(before, mid, p[i]) {
      LeftAlone(mid, after, q, p[i].key);
    }
    forall j | 0 <= j < |q| ensures TrueClass(before, after, q[j]) == TrueClass(mid, after, q[j]) {
      LeftAlone(before, mid, p, q[j].key);
    }
  }

  // ----- the sweep

  /** The results answer the objects one for one, exactly, and nothing but those objects is gone. */
  ghost predicate AnswersExactly(before: Live, after: Live, objs: seq<Obj>, results: seq<Result>) {
    |results| == |objs| && ResultsExact(before, after, objs, results) && Shrinks(before, after, objs)
  }

  lemma AnswersInARow(before: Live, mid: Live, after: Live, p: seq<Obj>, q: seq<Obj>, rp: seq<Result>, rq: seq<Result>)
    requires DistinctKeys(p + q) && AnswersExactly(before, mid, p, rp) && AnswersExactly(mid, after, q, rq)
    ensures AnswersExactly(before, after, p + q, rp + rq)
  {
    hide Shrinks, ResultsExact;
    ExactInARow(before, mid, after, p, q, rp, rq);
    ShrinksChain(before, mid, after, p, q);
  }

  lemma NothingToAnswer(live: Live)
    ensures AnswersExactly(live, live, [], [])
  {
  }

  lemma OneBatchAnswers(c: Context, w: World, batch: seq<Obj>, pol: Policy)
    requires Quiet(c) && ReadsSucceed(c) && !pol.behavior.dryRun && DistinctKeys(batch) && AllWellNamed(batch)
    ensures var r := Execute(c, w, batch, pol.uid, pol.behavior);
            r.receipt.Some? && AnswersExactly(w.live, r.w.live, batch, r.receipt.value.results)
  {
    hide Execute, Shrinks, ResultsExact;
    ReceiptExact(c, w, batch, pol.uid, pol.behavior);
  }

  lemma FirstReceipt(receipt: Receipt, rest: seq<Receipt>)
    ensures AllResults([receipt] + rest) == receipt.results + AllResults(rest)
  {
    assert ([receipt] + rest)[1..] == rest;
  }

  lemma PrefixDistinct(objs: seq<Obj>, some: seq<Obj>)
    requires DistinctKeys(objs) && some <= objs
    ensures DistinctKeys(some)
  {
    assert forall i :: 0 <= i < |some| ==> some[i] == objs[i];
  }

  lemma SliceFair(objs: seq<Obj>, i: nat, j: nat)
    requires i <= j <= |objs|
    ensures DistinctKeys(objs) ==> DistinctKeys(objs[i..j])
    ensures AllWellNamed(objs) ==> AllWellNamed(objs[i..j])
  {
  }

  /** However the sweep is cancelled: the results of its receipts, in a row, answer the objects of its batches exactly,
      against the cluster before the first and after the last. */
  lemma {:induction false} SweepReceiptsExact(c: Context, w: World, plan: seq<Obj>, size: int, pol: Policy, i: nat)
    requires Quiet(c) && ReadsSucceed(c) && !pol.behavior.dryRun && DistinctKeys(plan) && AllWellNamed(plan)
    requires size > 0
    ensures var s := Sweep(c, w, plan, size, pol, i);
            && |s.receipts| == |s.batches|
            && AnswersExactly(w.live, s.w.live, Flatten(s.batches), AllResults(s.receipts))
    decreases |plan| - i
  {
    hide Execute, AnswersExactly, BatchesOf, AllResults, DistinctKeys, AllWellNamed;
    NothingToAnswer(w.live);
    assert AllResults([]) == [] by { NoResults(); }
    var s := Sweep(c, w, plan, size, pol, i);
    if i < |plan| {
      QuietAdvance(c, w);
      var w1 := Advance(c, w);
      if !Now(c, w).done {
        var end := if i + size > |plan| then |plan| else i + size;
        var batch := plan[i..end];
        SliceFair(plan, i, end);
        OneBatchAnswers(c, w1, batch, pol);
        var r := Execute(c, w1, batch, pol.uid, pol.behavior);
        var rest := Sweep(c, r.w, plan, size, pol, i + size);
        SweepReceiptsExact(c, r.w, plan, size, pol, i + size);
        assert s.receipts == [r.receipt.value] + rest.receipts && s.batches == [batch] + rest.batches;
        FirstReceipt(r.receipt.value, rest.receipts);
        assert Flatten([batch] + rest.batches) == batch + Flatten(rest.batches) by {
          assert ([batch] + rest.batches)[1..] == rest.batches;
        }
        HandedOutDistinct(c, r.w, plan, size, pol, i, end);
        AnswersInARow(w.live, r.w.live, rest.w.live, batch, Flatten(rest.batches), r.receipt.value.results,
                      AllResults(rest.receipts));
      }
    }
  }

  lemma NoResults()
    ensures AllResults([]) == []
  {
  }

  lemma HandedOutDistinct(c: Context, w: World, plan: seq<Obj>, size: int, pol: Policy, i: nat, end: nat)
    requires DistinctKeys(plan) && size > 0 && i <= |plan| && end == (if i + size > |plan| then |plan| else i + size)
    ensures DistinctKeys(plan[i..end] + Flatten(Sweep(c, w, plan, size, pol, i + size).batches))
  {
    hide Execute, DistinctKeys;
    var rest := Sweep(c, w, plan, size, pol, i + size).batches;
    if end == i + size {
      SweepBatches(c, w, plan, size, pol, end);
    } else {
      assert rest == [];
    }
    assert Flatten(rest) <= plan[end..];
    assert plan[i..] == plan[i..end] + plan[end..];
    assert plan[i..|plan|] == plan[i..];
    SliceFair(plan, i, |plan|);
    PrefixDistinct(plan[i..], plan[i..end] + Flatten(rest));
  }

  // ----- the cycle

  lemma {:induction false} ListKeepsDistinct(store: seq<Obj>, ns: string)
    requires DistinctKeys(store) && AllWellNamed(store)
    ensures DistinctKeys(ListResources(store, ns)) && AllWellNamed(ListResources(store, ns))
  {
    if store != [] {
      var n := |store| - 1;
      var rs := ListResources(store[..n], ns);
      ListKeepsDistinct(store[..n], ns);
      ListIsSubset(store[..n], ns);
      forall i | 0 <= i < |rs| ensures rs[i].key != store[n].key {
        assert rs[i] in rs;
        assert rs[i] in store[..n];
      }
    }
  }

  lemma PickedDistinct(rs: seq<Obj>, vs: seq<Verdict>)
    requires |vs| <= |rs| && DistinctKeys(rs) && AllWellNamed(rs)
    ensures DistinctKeys(TallyOf(rs, vs).plan) && AllWellNamed(TallyOf(rs, vs).plan)
  {
    hide TallyOf, PlanIndices;
    PlanIsFilter(rs, vs);
    var plan, idx := TallyOf(rs, vs).plan, PlanIndices(vs);
    forall i, j | 0 <= i < j < |plan| ensures plan[i].key != plan[j].key {
      assert idx[i] < idx[j];
    }
  }

  lemma PlanDistinct(c: Context, w: World, path: Path, pol: Policy, rs: seq<Obj>)
    requires DistinctKeys(rs) && AllWellNamed(rs)
    ensures var plan := Evaluate(c, w, path, pol, rs).1.plan; DistinctKeys(plan) && AllWellNamed(plan)
  {
    hide DistinctKeys, AllWellNamed, TallyOf, StopAt, Verdicts, Drift, Apply;
    var w1 := if path.Primary? then Done(c, w).0 else w;
    var n := StopAt(c, w1.t, |rs|, 0);
    if n <= |rs| { PickedDistinct(rs, Verdicts(c, w1.t, path, pol, rs, n)); }
    NothingFair();
  }

  lemma NothingFair()
    ensures DistinctKeys(EMPTY.plan) && AllWellNamed(EMPTY.plan)
  {
  }

  /** A whole cycle over a snapshot of distinct, well-named objects, nobody else acting and all reads answering,
      whatever the clock, the gate, the waits, the DELETE calls and the cancellations do: its receipts, in a row,
      hold one result for every object it handed out, in the order of the plan, saying what became of it between the
      beginning and the end of the cycle; nothing else is gone; and uncancelled it handed out its whole plan. */
  lemma CycleReceiptsExact(c: Context, w: World, path: Path, pol: Policy, store: seq<Obj>, configured: Option<int>)
    requires Quiet(c) && ReadsSucceed(c) && !pol.behavior.dryRun && DistinctKeys(store) && AllWellNamed(store)
    requires ResolveBatchSize(pol.behavior, configured) > 0
    ensures var e := EvaluatePolicy(c, w, path, pol, store, configured);
            var handedOut := Flatten(e.swept.batches);
            && handedOut <= e.tally.plan
            && AnswersExactly(w.live, e.w.live, handedOut, AllResults(e.swept.receipts))
            && (NeverCancelled(c) ==> handedOut == e.tally.plan)
  {
    hide Evaluate, Sweep, DistinctKeys, AllWellNamed, AnswersExactly;
    var rs := if path.Primary? then ListResources(store, pol.target.ns) else store;
    ListKeepsDistinct(store, pol.target.ns);
    PlanDistinct(c, w, path, pol, rs);
    var (w1, tally) := Evaluate(c, w, path, pol, rs);
    EvaluateDrifts(c, w, path, pol, rs);
    DriftTicks(c, w, w1.t - w.t);
    QuietAdvance(c, w1);
    var w2 := Advance(c, w1);
    assert NeverCancelled(c) ==> !Now(c, w1).done;
    NothingToAnswer(w.live);
    NoResults();
    var size := ResolveBatchSize(pol.behavior, configured);
    assert tally.plan[0..] == tally.plan;
    SweepReceiptsExact(c, w1, tally.plan, size, pol, 0);
    SweepReceiptsExact(c, w2, tally.plan, size, pol, 0);
    SweepBatches(c, w1, tally.plan, size, pol, 0);
    SweepBatches(c, w2, tally.plan, size, pol, 0);
  }
}
