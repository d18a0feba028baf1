/** Where the controller must keep its hands off: under a dry-run policy, and once the context is cancelled. In every
    environment the cluster is then exactly what others alone make of it, tick by tick, and no DELETE is ever called. */
module HandsOff {
  import opened Strings
  import opened Cluster
  import opened World
  import opened Deletion
  import opened Execution
  import opened Evaluation
  import Backoff

  /** From this tick on the context is done. */
  ghost predicate CancelledFrom(c: Context, t: nat) {
    forall u: nat :: u >= t ==> c.oracle(u).done
  }

  ghost predicate MayNotDelete(c: Context, w: World, b: Behavior) {
    b.dryRun || CancelledFrom(c, w.t)
  }

  /** Between w and w' only others acted. */
  ghost predicate Untouched(c: Context, w: World, w': World) {
    && w'.t >= w.t && w'.live == Drift(c, w, w'.t - w.t).live
    && w'.log == w.log && w'.deletes == w.deletes
  }

  lemma UntouchedSame(c: Context, w: World, w': World)
    requires w'.t == w.t && w'.live == w.live && w'.log == w.log && w'.deletes == w.deletes
    ensures Untouched(c, w, w')
  {
  }

  lemma UntouchedTick(c: Context, w: World, w': World)
    requires w'.t == w.t + 1 && w'.live == Advance(c, w).live && w'.log == w.log && w'.deletes == w.deletes
    ensures Untouched(c, w, w')
  {
    assert Drift(c, w, 1) == Advance(c, Drift(c, w, 0));
  }

  lemma UntouchedDrift(c: Context, w: World, n: nat)
    ensures Untouched(c, w, Drift(c, w, n))
  {
    DriftTicks(c, w, n);
  }

  /** What others do next depends on the cluster and the position in the oracle only. */
  lemma {:induction false} DriftElsewhere(c: Context, w: World, w': World, n: nat)
    requires w'.live == w.live && w'.t == w.t
    ensures Drift(c, w', n).live == Drift(c, w, n).live
  {
    if n > 0 {
      DriftElsewhere(c, w, w', n - 1);
      DriftTicks(c, w, n - 1);
      DriftTicks(c, w', n - 1);
    }
  }

  lemma UntouchedChain(c: Context, w: World, w1: World, w2: World)
    requires Untouched(c, w, w1) && Untouched(c, w1, w2)
    ensures Untouched(c, w, w2)
  {
    hide Drift;
    var m := w1.t - w.t;
    DriftTicks(c, w, m);
    DriftElsewhere(c, Drift(c, w, m), w1, w2.t - w1.t);
    DriftOn(c, w, m, w2.t - w1.t);
  }

  lemma UntouchedRenamed(c: Context, w: World, w': World, w'': World)
    requires Untouched(c, w, w')
    requires w''.t == w'.t && w''.live == w'.live && w''.log == w'.log && w''.deletes == w'.deletes
    ensures Untouched(c, w, w'')
  {
  }

  lemma HandsStayOff(c: Context, w: World, w': World, b: Behavior)
    requires MayNotDelete(c, w, b) && Untouched(c, w, w')
    ensures MayNotDelete(c, w', b)
  {
  }

  lemma RetryUntouched(c: Context, cfg: Backoff.Config, w: World, o: Obj, b: Behavior)
    requires MayNotDelete(c, w, b)
    ensures Untouched(c, w, Retry(c, cfg, w, o, b, 0).w)
  {
    hide Untouched, Perform, Apply;
    var w' := Retry(c, cfg, w, o, b, 0).w;
    UntouchedSame(c, w, w);
    var w1 := Advance(c, w);
    UntouchedTick(c, w, w1);
    if !Now(c, w).done && cfg.steps > 0 {
      var w2 := Wait(c, w1).0;
      UntouchedTick(c, w1, w2);
      UntouchedChain(c, w, w1, w2);
      UntouchedRenamed(c, w, w2, w');
    }
  }

  lemma DeleteOneUntouched(c: Context, w: World, o: Obj, b: Behavior)
    requires MayNotDelete(c, w, b)
    ensures Untouched(c, w, DeleteOne(c, w, o, b).w)
  {
    hide Untouched, Retry, Apply;
    var w' := DeleteOne(c, w, o, b).w;
    var (w1, ok) := Wait(c, w);
    UntouchedTick(c, w, w1);
    if ok {
      var w2 := w1.(attempted := w1.attempted + 1);
      UntouchedTick(c, w, w2);
      RetryUntouched(c, Backoff.DefaultConfig(), w2, o, b);
      var w3 := RetryAll(c, w1, o, b).w;
      UntouchedChain(c, w, w2, w3);
      UntouchedRenamed(c, w, w3, w');
    } else {
      UntouchedRenamed(c, w, w1, w');
    }
  }

  lemma {:induction false} BatchUntouched(c: Context, w: World, batch: seq<Obj>, b: Behavior, i: nat)
    requires MayNotDelete(c, w, b) && i <= |batch|
    ensures Untouched(c, w, DeleteBatch(c, w, batch, b, i).w)
    decreases |batch| - i
  {
    hide Untouched, DeleteOne, MayNotDelete, Apply;
    UntouchedSame(c, w, w);
    if i < |batch| {
      UntouchedTick(c, w, Advance(c, w));
      var (w1, done) := if i % BATCH_CHECK_INTERVAL == 0 then Done(c, w) else (w, false);
      if !done {
        HandsStayOff(c, w, w1, b);
        DeleteOneUntouched(c, w1, batch[i], b);
        var w2 := DeleteOne(c, w1, batch[i], b).w;
        UntouchedChain(c, w, w1, w2);
        HandsStayOff(c, w, w2, b);
        BatchUntouched(c, w2, batch, b, i + 1);
        UntouchedChain(c, w, w2, DeleteBatch(c, w2, batch, b, i + 1).w);
      }
    }
  }

  lemma ExecuteUntouched(c: Context, w: World, batch: seq<Obj>, policyUid: string, b: Behavior)
    requires MayNotDelete(c, w, b)
    ensures Untouched(c, w, Execute(c, w, batch, policyUid, b).w)
  {
    hide Untouched, DeleteBatch, MayNotDelete;
    BatchUntouched(c, w, batch, b, 0);
    if !b.dryRun {
      hide Execute, Drift;
      ExecuteIsBatch(c, w, batch, policyUid, b);
      var w1 := Drift(c, w, |batch|);
      UntouchedDrift(c, w, |batch|);
      HandsStayOff(c, w, w1, b);
      BatchUntouched(c, w1, batch, b, 0);
      var w2 := DeleteBatch(c, w1, batch, b, 0).w;
      UntouchedChain(c, w, w1, w2);
      UntouchedDrift(c, w2, |batch|);
      UntouchedChain(c, w, w2, Drift(c, w2, |batch|));
    }
  }

  lemma {:induction false} SweepUntouched(c: Context, w: World, plan: seq<Obj>, size: int, pol: Policy, i: nat)
    requires size > 0 && MayNotDelete(c, w, pol.behavior)
    ensures Untouched(c, w, Sweep(c, w, plan, size, pol, i).w)
    decreases |plan| - i
  {
    hide Untouched, Execute, MayNotDelete, Apply;
    UntouchedSame(c, w, w);
    if i < |plan| {
      var w1 := Advance(c, w);
      UntouchedTick(c, w, w1);
      if !Now(c, w).done {
        var end := if i + size > |plan| then |plan| else i + size;
        HandsStayOff(c, w, w1, pol.behavior);
        ExecuteUntouched(c, w1, plan[i..end], pol.uid, pol.behavior);
        var w2 := Execute(c, w1, plan[i..end], pol.uid, pol.behavior).w;
        UntouchedChain(c, w, w1, w2);
        HandsStayOff(c, w, w2, pol.behavior);
        SweepUntouched(c, w2, plan, size, pol, i + size);
        UntouchedChain(c, w, w2, Sweep(c, w2, plan, size, pol, i + size).w);
      }
    }
  }

  /** Evaluation only looks, whatever the policy. */
  lemma EvaluateUntouched(c: Context, w: World, path: Path, pol: Policy, rs: seq<Obj>)
    ensures Untouched(c, w, Evaluate(c, w, path, pol, rs).0)
  {
    hide Evaluate, Untouched, Drift;
    EvaluateDrifts(c, w, path, pol, rs);
    UntouchedDrift(c, w, Evaluate(c, w, path, pol, rs).0.t - w.t);
  }

  /** A whole cycle, on either path and in every environment: under a dry-run policy, or with the context cancelled
      before it began, nothing is deleted and nothing is even tried; the cluster is what others made of it. A dry
      run also counts nothing as deleted and leaves no receipt. */
  lemma CycleKeepsHandsOff(c: Context, w: World, path: Path, pol: Policy, store: seq<Obj>, configured: Option<int>)
    requires ResolveBatchSize(pol.behavior, configured) > 0 && MayNotDelete(c, w, pol.behavior)
    ensures var e := EvaluatePolicy(c, w, path, pol, store, configured);
            && Untouched(c, w, e.w)
            && (pol.behavior.dryRun ==> e.swept.deleted == 0 && e.swept.receipts == [])
  {
    hide Untouched, Evaluate, Sweep, MayNotDelete, Apply;
    var rs := if path.Primary? then ListResources(store, pol.target.ns) else store;
    var size := ResolveBatchSize(pol.behavior, configured);
    var (w1, tally) := Evaluate(c, w, path, pol, rs);
    EvaluateUntouched(c, w, path, pol, rs);
    HandsStayOff(c, w, w1, pol.behavior);
    var w2 := Advance(c, w1);
    UntouchedTick(c, w1, w2);
    UntouchedChain(c, w, w1, w2);
    HandsStayOff(c, w, w2, pol.behavior);
    SweepUntouched(c, w1, tally.plan, size, pol, 0);
    SweepUntouched(c, w2, tally.plan, size, pol, 0);
    UntouchedChain(c, w, w1, Sweep(c, w1, tally.plan, size, pol, 0).w);
    UntouchedChain(c, w, w2, Sweep(c, w2, tally.plan, size, pol, 0).w);
    SweepConserves(c, w1, tally.plan, size, pol, 0);
    SweepConserves(c, w2, tally.plan, size, pol, 0);
  }
}
