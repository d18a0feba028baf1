/** When nothing goes wrong: what a batch removes in closed form, and why the two executors cannot be told apart. */
module Agreement {
  import opened Cluster
  import opened Safety
  import opened World
  import opened Deletion
  import opened Receipts
  import opened Execution

  /** The objects the gate lets through. */
  function AllowedOf(g: Gate, objs: seq<Obj>, b: Behavior): seq<Obj> {
    if objs == [] then []
    else (if Allows(g, objs[0], b) then [objs[0]] else []) + AllowedOf(g, objs[1..], b)
  }

  lemma CalmDeleteOne(c: Context, w: World, o: Obj, b: Behavior)
    requires Calm(c) && !b.dryRun
    ensures var r := DeleteOne(c, w, o, b);
            r.err.None? && r.w.live == Purge(w.live, AllowedOf(c.gate, [o], b))
  {
    hide DeleteOne;
    assert HonestDeletes(c) by {
      assert forall t: nat :: c.oracle(t).del.None?;
    }
    QuietDeleteOne(c, w, o, b);
    PurgeOne(w.live, o);
    PurgeNothing(w.live);
    assert [o][1..] == [];
    assert AllowedOf(c.gate, [o], b) == if Allows(c.gate, o, b) then [o] else [];
  }

  lemma PurgeNothing(live: Live)
    ensures Purge(live, []) == live
  {
  }

  /** In calm weather a batch removes exactly its allowed standing objects and counts every object as deleted, also
      those the gate refused and those that were not there. */
  lemma {:induction false} CalmBatch(c: Context, w: World, batch: seq<Obj>, b: Behavior, i: nat)
    requires Calm(c) && !b.dryRun && i <= |batch|
    ensures var r := DeleteBatch(c, w, batch, b, i);
            && r.errs == [] && r.deleted == |batch| - i
            && r.w.live == Purge(w.live, AllowedOf(c.gate, batch[i..], b))
    decreases |batch| - i
  {
    hide DeleteOne;
    if i == |batch| {
      PurgeNothing(w.live);
    } else {
      QuietAdvance(c, w);
      assert !Now(c, w).done;
      var w1 := if i % BATCH_CHECK_INTERVAL == 0 then Advance(c, w) else w;
      CalmDeleteOne(c, w1, batch[i], b);
      var r := DeleteOne(c, w1, batch[i], b);
      CalmBatch(c, r.w, batch, b, i + 1);
      var first, rest := AllowedOf(c.gate, [batch[i]], b), AllowedOf(c.gate, batch[i + 1..], b);
      assert batch[i..][1..] == batch[i + 1..];
      assert AllowedOf(c.gate, batch[i..], b) == first + rest;
      PurgeConcat(w.live, first, rest);
    }
  }

  /** The same for the receipt-bearing executor. */
  lemma CalmExecute(c: Context, w: World, batch: seq<Obj>, policyUid: string, b: Behavior)
    requires Calm(c) && !b.dryRun
    ensures var r := Execute(c, w, batch, policyUid, b);
            r.errs == [] && r.deleted == |batch| && r.w.live == Purge(w.live, AllowedOf(c.gate, batch, b))
  {
    hide DeleteBatch;
    PreReadDrifts(c, w, batch, 0, map[], map[]);
    DriftTicks(c, w, |batch|);
    var (w1, uids, present) := PreRead(c, w, batch, 0, map[], map[]);
    CalmBatch(c, w1, batch, b, 0);
    assert batch[0..] == batch;
    var r := DeleteBatch(c, w1, batch, b, 0);
    PostReadDrifts(c, r.w, batch, uids, present, 0, []);
    DriftTicks(c, r.w, |batch|);
  }

  // ----- the two executors agree

  function DirectReceipt(c: Context, w: World, planned: seq<Obj>): (World, Receipt) {
    var (w1, results) := Direct(c, w, planned, 0, []);
    (w1, Receipt("", Sha256(DigestInput(planned)), results, OverallOf(results)))
  }

  lemma {:induction false} AllowedAll(g: Gate, objs: seq<Obj>, b: Behavior)
    requires forall j :: 0 <= j < |objs| ==> Allows(g, objs[j], b)
    ensures AllowedOf(g, objs, b) == objs
  {
    if objs != [] { AllowedAll(g, objs[1..], b); }
  }

  lemma NotStruckByPrefix(batch: seq<Obj>, i: nat, uid: string)
    requires DistinctKeys(batch) && i < |batch|
    ensures !Struck(batch[..i], batch[i].key, uid)
  {
  }

  lemma {:induction false} CalmDirect(c: Context, before: Live, w: World, planned: seq<Obj>, i: nat,
                                      results: seq<Result>)
    requires Calm(c) && DistinctKeys(planned) && AllWellNamed(planned)
    requires i <= |planned| && |results| == i
    requires w.live == Purge(before, planned[..i])
    requires ResultsExact(before, Purge(before, planned), planned, results)
    ensures var (w', results') := Direct(c, w, planned, i, results);
            && w'.live == Purge(before, planned)
            && |results'| == |planned|
            && ResultsExact(before, Purge(before, planned), planned, results')
    decreases |planned| - i
  {
    if i == |planned| {
      assert planned[..i] == planned;
    } else {
      var o := planned[i];
      QuietAdvance(c, w);
      assert Now(c, w).get.None? && Now(c, w).del.None?;
      if o.key in before { NotStruckByPrefix(planned, i, before[o.key].uid); }
      StruckByItself(planned, i, before);
      var (w1, class_) := DirectOne(c, w, o);
      assert w1.live == Purge(w.live, [o]) by { PurgeOne(w.live, o); }
      assert planned[..i + 1] == planned[..i] + [o];
      PurgeConcat(before, planned[..i], [o]);
      assert class_ == TrueClass(before, Purge(before, planned), o);
      CalmDirect(c, before, w1, planned, i + 1, results + [Result(o.key, o.uid, class_)]);
    }
  }

  /** On one cluster, with an allowing gate, distinct keys and calm weather, the two executors leave the same
      cluster and issue the same results, digest and overall status. */
  lemma ExecutorsAgree(c: Context, w: World, batch: seq<Obj>, policyUid: string, b: Behavior)
    requires Calm(c) && !b.dryRun && DistinctKeys(batch) && AllWellNamed(batch)
    requires forall j :: 0 <= j < |batch| ==> Allows(c.gate, batch[j], b)
    ensures var e := Execute(c, w, batch, policyUid, b);
            var (w', d) := DirectReceipt(c, w, batch);
            && e.receipt.Some?
            && e.w.live == w'.live
            && e.receipt.value == d.(policyUid := policyUid)
  {
    hide DeleteBatch;
    CalmExecute(c, w, batch, policyUid, b);
    AllowedAll(c.gate, batch, b);
    ReceiptExact(c, w, batch, policyUid, b);
    assert batch[..0] == [];
    PurgeNothing(w.live);
    CalmDirect(c, w.live, w, batch, 0, []);
    var e := Execute(c, w, batch, policyUid, b);
    assert e.receipt.value.results == Direct(c, w, batch, 0, []).1;
  }
}
