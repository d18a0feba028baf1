/** The deletion engine as it runs: PolicyReconciler and the evaluation service, statement by statement. Each method is
    proved to compute its specification function; what those functions guarantee is proved in the other modules. */
module Reconciler {
  import opened Strings
  import opened Cluster
  import opened Safety
  import opened Matching
  import opened World
  import opened Deletion
  import opened Receipts
  import opened Execution
  import opened Agreement
  import opened Evaluation
  import Backoff
  import Ttl

  /** What earlier batches did, put in front of what the rest of a sweep does. */
  ghost function Onto(deleted: nat, errors: nat, batches: seq<seq<Obj>>, receipts: seq<Receipt>, rest: Swept): Swept {
    Swept(rest.w, deleted + rest.deleted, errors + rest.errors, batches + rest.batches, receipts + rest.receipts)
  }

  lemma NothingOnto(rest: Swept)
    ensures Onto(0, 0, [], [], rest) == rest
  {
  }

  lemma OntoNothing(deleted: nat, errors: nat, batches: seq<seq<Obj>>, receipts: seq<Receipt>, w: World)
    ensures Onto(deleted, errors, batches, receipts, Swept(w, 0, 0, [], [])) ==
            Swept(w, deleted, errors, batches, receipts)
  {
    assert batches + [] == batches && receipts + [] == receipts;
  }

  lemma OntoOnto(d: nat, e: nat, bs: seq<seq<Obj>>, rs: seq<Receipt>,
                 d1: nat, e1: nat, bs1: seq<seq<Obj>>, rs1: seq<Receipt>, rest: Swept)
    ensures Onto(d, e, bs, rs, Onto(d1, e1, bs1, rs1, rest)) == Onto(d + d1, e + e1, bs + bs1, rs + rs1, rest)
  {
    assert bs + (bs1 + rest.batches) == (bs + bs1) + rest.batches;
    assert rs + (rs1 + rest.receipts) == (rs + rs1) + rest.receipts;
  }

  lemma SweepOnto(c: Context, w: World, plan: seq<Obj>, size: int, pol: Policy, i: nat)
    requires size > 0 && i < |plan|
    ensures var w1 := Advance(c, w);
            Sweep(c, w, plan, size, pol, i) ==
            if Now(c, w).done then Swept(w1, 0, 0, [], [])
            else
              var batch := plan[i..if i + size > |plan| then |plan| else i + size];
              var r := Execute(c, w1, batch, pol.uid, pol.behavior);
              var issued := if r.receipt.Some? then [r.receipt.value] else [];
              Onto(r.deleted, |r.errs|, [batch], issued, Sweep(c, r.w, plan, size, pol, i + size))
  {
    hide Execute;
  }

  class PolicyReconciler {
    const c: Context
    var w: World

    constructor (c: Context, w: World)
      ensures this.c == c && this.w == w
    {
      this.c := c;
      this.w := w;
    }

    // ----- the outside world

    method ContextDone() returns (done: bool)
      modifies this
      ensures (w, done) == Done(c, old(w))
    {
      done := Now(c, w).done;
      w := Advance(c, w);
    }

    method RateLimiterWait() returns (ok: bool)
      modifies this
      ensures (w, ok) == Wait(c, old(w))
    {
      ok := Now(c, w).waitOk;
      w := Advance(c, w);
      if ok {
        w := w.(tokens := w.tokens + 1);
      }
    }

    method GetLive(k: Key) returns (read: Read)
      modifies this
      ensures (w, read) == Get(c, old(w), k)
    {
      var fault := Now(c, w).get;
      w := Advance(c, w);
      if fault == Some(NotFound) {
        read := Missing;
      } else if fault.Some? {
        read := ReadError(fault.value);
      } else if k in w.live {
        read := Found(w.live[k]);
      } else {
        read := Missing;
      }
    }

    method DeleteCall(tick: Tick, o: Obj, b: Behavior) returns (err: Option<Error>)
      modifies this
      ensures Outcome(w, err) == Delete(c, old(w), tick, o, b)
    {
      w := w.(live := Apply(w.live, tick.gap), deletes := w.deletes + 1);
      var exists_ := o.key in w.live;
      if exists_ && (tick.del.None? || tick.applied) {
        w := Remove(w, o, b, tick.gap);
      }
      if tick.del.Some? {
        return Some(Api(tick.del.value));
      }
      err := if exists_ then None else Some(Api(NotFound));
    }

    // ----- deleting one object

    method PerformResourceDeletion(o: Obj, b: Behavior) returns (err: Option<Error>)
      modifies this
      ensures Outcome(w, err) == Perform(c, old(w), o, b)
    {
      if EvaluateObject(c.gate, o, b).Some? {
        return None;
      }
      var tick := Now(c, w);
      var read := GetLive(o.key);
      match read {
        case Missing => return None;
        case ReadError(e) => return Some(Api(e));
        case Found(current) =>
          if current.uid != o.uid {
            return None;
          }
      }
      err := DeleteCall(tick, o, b);
      if err == Some(Api(NotFound)) {
        err := None;
      }
    }

    method DeleteResource(o: Obj, b: Behavior) returns (err: Option<Error>)
      modifies this
      ensures Outcome(w, err) == Attempt(c, old(w), o, b)
    {
      var ok := RateLimiterWait();
      if !ok {
        err := Some(WaitFailed);
      } else if b.dryRun {
        err := None;
      } else {
        err := PerformResourceDeletion(o, b);
      }
      w := w.(answers := w.answers + [err]);
    }

    method DeleteResourceWithBackoff(o: Obj, b: Behavior) returns (err: Option<Error>)
      modifies this
      ensures Outcome(w, err) == RetryAll(c, old(w), o, b)
    {
      hide Attempt;
      w := w.(attempted := w.attempted + 1);
      var bo := new Backoff.Backoff(Backoff.DefaultConfig());
      while !bo.IsExhausted()
        invariant RetryAll(c, old(w), o, b) == Retry(c, bo.cfg, w, o, b, bo.step)
        decreases bo.cfg.steps - bo.step
      {
        var done := ContextDone();
        if done {
          return Some(Cancelled);
        }
        err := DeleteResource(o, b);
        if err.None? {
          return None;
        }
        if Retryable(err.value) {
          var duration := bo.Next();
          if duration == 0 {
            break;
          }
          done := ContextDone();
          if done {
            return Some(Cancelled);
          }
          w := w.(slept := w.slept + duration);
          continue;
        }
        if err == Some(Api(NotFound)) {
          return None;
        }
        return err;
      }
      err := Some(Exhausted);
    }

    // ----- deleting a batch

    method DeleteBatchShared(batch: seq<Obj>, b: Behavior) returns (deleted: nat, errs: seq<Error>)
      modifies this
      ensures BatchResult(w, deleted, errs) == DeleteBatch(c, old(w), batch, b, 0)
    {
      hide DeleteOne, RetryAll;
      deleted, errs := 0, [];
      for i := 0 to |batch|
        invariant var rest := DeleteBatch(c, w, batch, b, i);
                  DeleteBatch(c, old(w), batch, b, 0) == BatchResult(rest.w, deleted + rest.deleted, errs + rest.errs)
      {
        if i % BATCH_CHECK_INTERVAL == 0 {
          var done := ContextDone();
          if done {
            return;
          }
        }
        var err := DeleteOnce(batch[i], b);
        if err.Some? {
          assert forall rest: seq<Error> :: (errs + [err.value]) + rest == errs + ([err.value] + rest);
          errs := errs + [err.value];
          continue;
        }
        if b.dryRun {
          continue;
        }
        deleted := deleted + 1;
      }
    }

    /** The body of the batch loop up to the error check. */
    method DeleteOnce(o: Obj, b: Behavior) returns (err: Option<Error>)
      modifies this
      ensures Outcome(w, err) == DeleteOne(c, old(w), o, b)
    {
      hide Retry;
      var ok := RateLimiterWait();
      if ok {
        err := DeleteResourceWithBackoff(o, b);
      } else {
        err := Some(WaitFailed);
      }
      w := w.(processed := w.processed + 1);
    }

    // ----- executing a batch with a receipt

    method ExecuteWithReceipt(batch: seq<Obj>, policyUid: string, b: Behavior)
      returns (deleted: nat, errs: seq<Error>, receipt: Option<Receipt>)
      modifies this
      ensures Executed(w, deleted, errs, receipt) == Execute(c, old(w), batch, policyUid, b)
    {
      hide DeleteBatch;
      if b.dryRun {
        deleted, errs := DeleteBatchShared(batch, b);
        return deleted, errs, None;
      }
      var plannedUid: map<string, string> := map[];
      var prePresent: map<string, bool> := map[];
      for i := 0 to |batch|
        invariant PreRead(c, old(w), batch, 0, map[], map[]) == PreRead(c, w, batch, i, plannedUid, prePresent)
      {
        var o := batch[i];
        plannedUid := plannedUid[ObjectKey(o) := o.uid];
        var read := GetLive(o.key);
        prePresent := prePresent[ObjectKey(o) := read.Found?];
      }
      var digest := PlanDigest(batch);
      deleted, errs := DeleteBatchShared(batch, b);
      var results: seq<Result> := [];
      ghost var before := w;
      for i := 0 to |batch|
        invariant PostRead(c, before, batch, plannedUid, prePresent, 0, []) ==
                  PostRead(c, w, batch, plannedUid, prePresent, i, results)
      {
        var o := batch[i];
        var read := GetLive(o.key);
        var planned := Lookup(plannedUid, ObjectKey(o), "");
        var class_;
        match read {
          case Missing =>
            if Lookup(prePresent, ObjectKey(o), false) {
              class_ := Succeeded;
            } else {
              class_ := AlreadyAbsent;
            }
          case ReadError(_) => class_ := Failed;
          case Found(current) =>
            if planned != "" && current.uid != planned {
              class_ := SkippedMismatch;
            } else {
              class_ := Failed;
            }
        }
        results := results + [Result(o.key, o.uid, class_)];
      }
      var overall := ComputeOverall(results);
      receipt := Some(Receipt(policyUid, digest, results, overall));
    }

    /** The executor without gate, limiter and retries. */
    method DeleteWithReceipt(planned: seq<Obj>) returns (receipt: Receipt)
      modifies this
      ensures (w, receipt) == DirectReceipt(c, old(w), planned)
    {
      var results: seq<Result> := [];
      for i := 0 to |planned|
        invariant Direct(c, old(w), planned, 0, []) == Direct(c, w, planned, i, results)
      {
        var o := planned[i];
        var tick := Now(c, w);
        var read := GetLive(o.key);
        var class_;
        match read {
          case Missing => class_ := AlreadyAbsent;
          case ReadError(_) => class_ := Failed;
          case Found(current) =>
            if o.uid != "" && current.uid != o.uid {
              class_ := SkippedMismatch;
            } else {
              var live := Apply(w.live, tick.gap);
              var live' := if tick.del.None? || tick.applied then live - {o.key} else live;
              w := w.(live := live', deletes := w.deletes + 1);
              if tick.del == Some(NotFound) {
                class_ := AlreadyAbsent;
              } else if tick.del.Some? {
                class_ := Failed;
              } else if o.key !in live {
                class_ := AlreadyAbsent;
              } else {
                class_ := Succeeded;
              }
            }
        }
        results := results + [Result(o.key, o.uid, class_)];
      }
      var digest := PlanDigest(planned);
      var overall := ComputeOverall(results);
      receipt := Receipt("", digest, results, overall);
    }

    // ----- evaluating a snapshot

    /** The start check of evaluateResources, then its loop. */
    method EvaluateResources(pol: Policy, rs: seq<Obj>)
      returns (matched: nat, pending: nat, refusals: map<Refusal, nat>, plan: seq<Obj>,
               reasons: map<string, Ttl.Reason>)
      modifies this
      ensures (w, Tally(matched, pending, refusals, plan, reasons)) == Evaluate(c, old(w), Primary, pol, rs)
    {
      hide MatchesSelectors, MeetsPolicy, EvaluateObject, Ttl.ShouldDelete, LoopAt, EvaluateLoop;
      matched, pending, refusals, plan, reasons := 0, 0, map[], [], map[];
      var done := ContextDone();
      if done {
        return;
      }
      ghost var start := w;
      LoopBegins(c, start, Primary, pol, rs);
      for i := 0 to |rs|
        invariant LoopAt(c, start, Primary, pol, rs, i, w, Tally(matched, pending, refusals, plan, reasons))
      {
        LoopGoesOn(c, start, Primary, pol, rs, i, w, Tally(matched, pending, refusals, plan, reasons));
        var tick := Now(c, w);
        w := Advance(c, w);
        if i % EVALUATION_CHECK_INTERVAL == 0 && tick.done {
          return;
        }
        var o := rs[i];
        if !MatchesSelectors(o, pol.target) {
          continue;
        }
        matched := matched + 1;
        var refusal := EvaluateObject(c.gate, o, pol.behavior);
        if refusal.Some? {
          refusals := refusals[refusal.value := Count(refusals, refusal.value) + 1];
          continue;
        }
        if !MeetsPolicy(o, pol.conditions) {
          pending := pending + 1;
          continue;
        }
        var (yes, reason) := Ttl.ShouldDelete(c.parse, o, pol.ttl, tick.now1, tick.now2);
        if !yes {
          pending := pending + 1;
          continue;
        }
        plan := plan + [o];
        reasons := reasons[o.uid := reason];
      }
      LoopEnds(c, start, Primary, pol, rs, w, Tally(matched, pending, refusals, plan, reasons));
    }

    /** evaluatePolicyResourcesShared. */
    method EvaluatePolicyResourcesShared(pol: Policy, rs: seq<Obj>)
      returns (matched: nat, pending: nat, plan: seq<Obj>, reasons: map<string, Ttl.Reason>)
      modifies this
      ensures (w, Tally(matched, pending, map[], plan, reasons)) == Evaluate(c, old(w), Fallback, pol, rs)
    {
      hide MatchesSelectors, ShouldDelete, LoopAt, EvaluateLoop;
      matched, pending, plan, reasons := 0, 0, [], map[];
      ghost var start := w;
      LoopBegins(c, start, Fallback, pol, rs);
      for i := 0 to |rs|
        invariant LoopAt(c, start, Fallback, pol, rs, i, w, Tally(matched, pending, map[], plan, reasons))
      {
        LoopGoesOn(c, start, Fallback, pol, rs, i, w, Tally(matched, pending, map[], plan, reasons));
        var tick := Now(c, w);
        w := Advance(c, w);
        if i % EVALUATION_CHECK_INTERVAL == 0 && tick.done {
          return;
        }
        var o := rs[i];
        if !MatchesSelectors(o, pol.target) {
          continue;
        }
        matched := matched + 1;
        var (yes, reason) := ShouldDelete(c, pol, o, tick.now1, tick.now2);
        if !yes {
          pending := pending + 1;
          continue;
        }
        plan := plan + [o];
        reasons := reasons[o.uid := reason];
      }
      LoopEnds(c, start, Fallback, pol, rs, w, Tally(matched, pending, map[], plan, reasons));
    }

    /** InformerStoreResourceLister.ListResources. */
    method ListStore(store: seq<Obj>, ns: string) returns (resources: seq<Obj>)
      ensures resources == ListResources(store, ns)
    {
      resources := [];
      for i := 0 to |store|
        invariant resources == ListResources(store[..i], ns)
      {
        assert store[..i + 1][..i] == store[..i];
        if ns != "" && ns != "*" && store[i].key.ns != ns {
          continue;
        }
        resources := resources + [store[i]];
      }
      assert store[..|store|] == store;
    }

    // ----- batching

    /** The batching loop of both paths; the batches and receipts it hands out are recorded for the specification. */
    method DeleteInBatches(pol: Policy, plan: seq<Obj>, size: int)
      returns (deleted: nat, ghost errors: nat, ghost batches: seq<seq<Obj>>, receipts: seq<Receipt>)
      requires size > 0
      modifies this
      ensures Swept(w, deleted, errors, batches, receipts) == Sweep(c, old(w), plan, size, pol, 0)
    {
      hide Execute, Onto;
      deleted, errors, batches, receipts := 0, 0, [], [];
      var i := 0;
      NothingOnto(Sweep(c, w, plan, size, pol, 0));
      while i < |plan|
        invariant 0 <= i
        invariant Sweep(c, old(w), plan, size, pol, 0) ==
                  Onto(deleted, errors, batches, receipts, Sweep(c, w, plan, size, pol, i))
      {
        SweepOnto(c, w, plan, size, pol, i);
        var done := ContextDone();
        if done {
          OntoNothing(deleted, errors, batches, receipts, w);
          return;
        }
        var end := i + size;
        if end > |plan| {
          end := |plan|;
        }
        var batch := plan[i..end];
        var batchDeleted, batchErrors, receipt := ExecuteWithReceipt(batch, pol.uid, pol.behavior);
        var issued := if receipt.Some? then [receipt.value] else [];
        OntoOnto(deleted, errors, batches, receipts,
                 batchDeleted, |batchErrors|, [batch], issued, Sweep(c, w, plan, size, pol, i + size));
        deleted := deleted + batchDeleted;
        errors := errors + |batchErrors|;
        batches := batches + [batch];
        receipts := receipts + issued;
        i := i + size;
      }
      OntoNothing(deleted, errors, batches, receipts, w);
    }

    /** PolicyEvaluationService.EvaluatePolicy. */
    method EvaluatePrimary(pol: Policy, store: seq<Obj>, configured: Option<int>)
      returns (matched: nat, deleted: nat, pending: nat, refusals: map<Refusal, nat>)
      requires ResolveBatchSize(pol.behavior, configured) > 0
      modifies this
      ensures var e := EvaluatePolicy(c, old(w), Primary, pol, store, configured);
              && w == e.w && matched == e.tally.matched && pending == e.tally.pending
              && refusals == e.tally.refusals && deleted == e.swept.deleted
    {
      hide Evaluate, Sweep;
      var resources := ListStore(store, pol.target.ns);
      var plan, reasons;
      matched, pending, refusals, plan, reasons := EvaluateResources(pol, resources);
      deleted := 0;
      if |plan| > 0 {
        var done := ContextDone();
        if !done {
          ghost var errors, batches;
          var receipts;
          deleted, errors, batches, receipts := DeleteInBatches(pol, plan, ResolveBatchSize(pol.behavior, configured));
        }
      }
    }

    /** The fallback half of evaluatePolicy. */
    method EvaluateFallback(pol: Policy, store: seq<Obj>, configured: Option<int>)
      returns (matched: nat, deleted: nat, pending: nat)
      requires ResolveBatchSize(pol.behavior, configured) > 0
      modifies this
      ensures var e := EvaluatePolicy(c, old(w), Fallback, pol, store, configured);
              && w == e.w && matched == e.tally.matched && pending == e.tally.pending && deleted == e.swept.deleted
    {
      hide Evaluate, Sweep;
      var plan, reasons;
      matched, pending, plan, reasons := EvaluatePolicyResourcesShared(pol, store);
      deleted := 0;
      if |plan| > 0 {
        ghost var errors, batches;
        var receipts;
        deleted, errors, batches, receipts := DeleteInBatches(pol, plan, ResolveBatchSize(pol.behavior, configured));
      }
    }
  }
}
