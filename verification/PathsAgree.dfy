/** The primary and the fallback path have the same effect, although one gates before planning and the other only at the
    choke point (pkg/controller/reconciler_evaluation.go). */
module PathsAgree {
  import opened Strings
  import opened Cluster
  import opened Safety
  import opened Matching
  import opened World
  import opened Execution
  import opened Agreement
  import opened Evaluation

  /** Every clock reading is the same instant. */
  ghost predicate FrozenClock(c: Context, now: int) {
    forall t: nat :: c.oracle(t).now1 == now && c.oracle(t).now2 == now
  }

  /** The tally of a whole list at one instant. */
  function TallyAt(c: Context, path: Path, pol: Policy, rs: seq<Obj>, now: int): Tally {
    if rs == [] then EMPTY
    else var n := |rs| - 1; Add(TallyAt(c, path, pol, rs[..n], now), rs[n], Judge(c, path, pol, rs[n], now, now))
  }

  lemma {:induction false} FrozenTally(c: Context, t: nat, path: Path, pol: Policy, rs: seq<Obj>, n: nat, now: int)
    requires FrozenClock(c, now) && n <= |rs|
    ensures TallyOf(rs, Verdicts(c, t, path, pol, rs, n)) == TallyAt(c, path, pol, rs[..n], now)
  {
    hide Judge, Add;
    if n == 0 {
      assert rs[..0] == [];
    } else {
      FrozenTally(c, t, path, pol, rs, n - 1, now);
      var vs := Verdicts(c, t, path, pol, rs, n);
      assert vs[..n - 1] == Verdicts(c, t, path, pol, rs, n - 1);
      assert rs[..n][..n - 1] == rs[..n - 1];
      assert vs[n - 1] == Judge(c, path, pol, rs[n - 1], now, now) by {
        assert c.oracle(t + (n - 1)).now1 == now;
      }
    }
  }

  lemma FrozenEvaluate(c: Context, w: World, path: Path, pol: Policy, rs: seq<Obj>, now: int)
    requires FrozenClock(c, now) && NeverCancelled(c) && Quiet(c)
    ensures var (w', e) := Evaluate(c, w, path, pol, rs); e == TallyAt(c, path, pol, rs, now) && w'.live == w.live
  {
    assert !Now(c, w).done;
    if path.Primary? { QuietAdvance(c, w); }
    var w1 := if path.Primary? then Advance(c, w) else w;
    StopAtRange(c, w1.t, |rs|, 0);
    FrozenTally(c, w1.t, path, pol, rs, |rs|, now);
    assert rs[..|rs|] == rs;
    DriftTicks(c, w1, |rs|);
  }

  // ----- what the gate takes out of the plan

  /** Selected, conditions met and expired. */
  predicate Ready(c: Context, pol: Policy, o: Obj, now: int) {
    ShouldDelete(c, pol, o, now, now).0
  }

  /** The objects the policy really deletes at an instant. */
  predicate Doomed(c: Context, pol: Policy, o: Obj, now: int) {
    MatchesSelectors(o, pol.target) && Ready(c, pol, o, now) && Allows(c.gate, o, pol.behavior)
  }

  /** Selected objects the gate refuses, counted by whether they were ready. */
  function RefusedCount(c: Context, pol: Policy, rs: seq<Obj>, now: int, ready: bool): nat {
    if rs == [] then 0
    else
      var n := |rs| - 1;
      var o := rs[n];
      RefusedCount(c, pol, rs[..n], now, ready) +
      if MatchesSelectors(o, pol.target) && !Allows(c.gate, o, pol.behavior) && Ready(c, pol, o, now) == ready then 1
      else 0
  }

  lemma {:induction false} AllowedSnoc(g: Gate, objs: seq<Obj>, o: Obj, b: Behavior)
    ensures AllowedOf(g, objs + [o], b) == AllowedOf(g, objs, b) + if Allows(g, o, b) then [o] else []
  {
    if objs == [] {
      assert [] + [o] == [o] && [o][1..] == [];
    } else {
      AllowedSnoc(g, objs[1..], o, b);
      assert (objs + [o])[1..] == objs[1..] + [o];
    }
  }

  /** One object: the paths differ only on selected objects the gate refuses. */
  lemma VerdictsCompare(c: Context, pol: Policy, o: Obj, now: int)
    ensures var p, f := Judge(c, Primary, pol, o, now, now), Judge(c, Fallback, pol, o, now, now);
            && (f.Unmatched? || f.Pending? || f.Planned?)
            && (f.Unmatched? <==> !MatchesSelectors(o, pol.target))
            && (!f.Unmatched? ==> (f.Planned? <==> Ready(c, pol, o, now)))
            && (f.Unmatched? || Allows(c.gate, o, pol.behavior) ==> p == f)
            && (!f.Unmatched? && !Allows(c.gate, o, pol.behavior) ==> p.Refused?)
            && (!MatchesNamespace(o, pol.target.ns) ==> f.Unmatched?)
  {
  }

  /** The primary plan is the fallback plan without the refused objects, and the counters differ by just those. */
  lemma {:induction false} TalliesCompare(c: Context, pol: Policy, store: seq<Obj>, now: int)
    ensures var p := TallyAt(c, Primary, pol, ListResources(store, pol.target.ns), now);
            var f := TallyAt(c, Fallback, pol, store, now);
            && p.plan == AllowedOf(c.gate, f.plan, pol.behavior)
            && p.matched == f.matched
            && f.pending == p.pending + RefusedCount(c, pol, store, now, false)
            && |f.plan| == |p.plan| + RefusedCount(c, pol, store, now, true)
  {
    hide Judge, MatchesSelectors, MatchesNamespace, EvaluateObject, Ready;
    if store != [] {
      var n := |store| - 1;
      var o := store[n];
      VerdictsCompare(c, pol, o, now);
      TalliesCompare(c, pol, store[..n], now);
      var rs := ListResources(store[..n], pol.target.ns);
      if MatchesNamespace(o, pol.target.ns) {
        assert ListResources(store, pol.target.ns) == rs + [o];
        assert (rs + [o])[..|rs|] == rs && (rs + [o])[|rs|] == o;
      } else {
        assert ListResources(store, pol.target.ns) == rs;
      }
      AllowedSnoc(c.gate, TallyAt(c, Fallback, pol, store[..n], now).plan, o, pol.behavior);
    }
  }

  lemma {:induction false} FallbackPlanMembers(c: Context, pol: Policy, rs: seq<Obj>, now: int)
    ensures forall o :: o in TallyAt(c, Fallback, pol, rs, now).plan <==>
              o in rs && MatchesSelectors(o, pol.target) && Ready(c, pol, o, now)
  {
    if rs != [] {
      var n := |rs| - 1;
      FallbackPlanMembers(c, pol, rs[..n], now);
      assert rs == rs[..n] + [rs[n]];
    }
  }

  lemma {:induction false} AllowedMembers(g: Gate, objs: seq<Obj>, b: Behavior)
    ensures forall o :: o in AllowedOf(g, objs, b) <==> o in objs && Allows(g, o, b)
  {
    if objs != [] {
      AllowedMembers(g, objs[1..], b);
      assert objs == [objs[0]] + objs[1..];
    }
  }

  // ----- the sweep in calm weather

  lemma {:induction false} AllowedConcat(g: Gate, a: seq<Obj>, d: seq<Obj>, b: Behavior)
    ensures AllowedOf(g, a + d, b) == AllowedOf(g, a, b) + AllowedOf(g, d, b)
  {
    if a == [] {
      assert [] + d == d;
    } else {
      AllowedConcat(g, a[1..], d, b);
      assert (a + d)[1..] == a[1..] + d;
    }
  }

  lemma {:induction false} CalmSweep(c: Context, w: World, plan: seq<Obj>, size: int, pol: Policy, i: nat)
    requires Calm(c) && !pol.behavior.dryRun && size > 0 && i <= |plan|
    ensures var s := Sweep(c, w, plan, size, pol, i);
            && s.deleted == |plan| - i && s.errors == 0
            && s.w.live == Purge(w.live, AllowedOf(c.gate, plan[i..], pol.behavior))
    decreases |plan| - i
  {
    hide Execute;
    PurgeNothing(w.live);
    if i < |plan| {
      QuietAdvance(c, w);
      assert !Now(c, w).done;
      var w1 := Advance(c, w);
      var end := if i + size > |plan| then |plan| else i + size;
      var batch := plan[i..end];
      CalmExecute(c, w1, batch, pol.uid, pol.behavior);
      var r := Execute(c, w1, batch, pol.uid, pol.behavior);
      assert plan[i..] == batch + plan[end..];
      AllowedConcat(c.gate, batch, plan[end..], pol.behavior);
      PurgeConcat(w.live, AllowedOf(c.gate, batch, pol.behavior), AllowedOf(c.gate, plan[end..], pol.behavior));
      if end == i + size {
        CalmSweep(c, r.w, plan, size, pol, end);
      } else {
        assert plan[end..] == [];
        PurgeNothing(r.w.live);
      }
    }
  }

  lemma CalmDeletePlan(c: Context, w: World, path: Path, plan: seq<Obj>, size: int, pol: Policy)
    requires Calm(c) && !pol.behavior.dryRun && size > 0
    ensures var s := DeletePlan(c, w, path, plan, size, pol);
            s.deleted == |plan| && s.w.live == Purge(w.live, AllowedOf(c.gate, plan, pol.behavior))
  {
    hide Sweep;
    QuietAdvance(c, w);
    assert !Now(c, w).done;
    PurgeNothing(w.live);
    assert plan[0..] == plan;
    CalmSweep(c, w, plan, size, pol, 0);
    CalmSweep(c, Advance(c, w), plan, size, pol, 0);
  }

  lemma {:induction false} AllowedTwice(g: Gate, objs: seq<Obj>, b: Behavior)
    ensures AllowedOf(g, AllowedOf(g, objs, b), b) == AllowedOf(g, objs, b)
  {
    if objs != [] {
      AllowedTwice(g, objs[1..], b);
      if Allows(g, objs[0], b) {
        assert ([objs[0]] + AllowedOf(g, objs[1..], b))[1..] == AllowedOf(g, objs[1..], b);
      } else {
        assert [] + AllowedOf(g, objs[1..], b) == AllowedOf(g, objs[1..], b);
      }
    }
  }

  /** One calm cycle: the tally of the whole snapshot, everything planned counted as deleted, and the allowed part
      of the plan purged from the cluster. */
  lemma CalmCycle(c: Context, w: World, path: Path, pol: Policy, store: seq<Obj>, configured: Option<int>, now: int)
    requires Calm(c) && FrozenClock(c, now) && !pol.behavior.dryRun
    requires ResolveBatchSize(pol.behavior, configured) > 0
    ensures var rs := if path.Primary? then ListResources(store, pol.target.ns) else store;
            var e := EvaluatePolicy(c, w, path, pol, store, configured);
            && e.tally == TallyAt(c, path, pol, rs, now)
            && e.swept.deleted == |e.tally.plan|
            && e.w.live == Purge(w.live, AllowedOf(c.gate, e.tally.plan, pol.behavior))
  {
    hide Evaluate, DeletePlan, Purge, TallyAt, AllowedOf;
    var rs := if path.Primary? then ListResources(store, pol.target.ns) else store;
    FrozenEvaluate(c, w, path, pol, rs, now);
    var (w1, tally) := Evaluate(c, w, path, pol, rs);
    CalmDeletePlan(c, w1, path, tally.plan, ResolveBatchSize(pol.behavior, configured), pol);
  }

  ghost predicate DoomedAt(c: Context, pol: Policy, store: seq<Obj>, now: int, k: Key, uid: string) {
    exists o :: o in store && Doomed(c, pol, o, now) && o.key == k && o.uid == uid
  }

  /** What the allowed part of the fallback plan strikes is what is doomed. */
  lemma StruckIsDoomed(c: Context, pol: Policy, store: seq<Obj>, now: int, k: Key, uid: string)
    ensures Struck(AllowedOf(c.gate, TallyAt(c, Fallback, pol, store, now).plan, pol.behavior), k, uid) <==>
            DoomedAt(c, pol, store, now, k, uid)
  {
    hide TallyAt, AllowedOf, MatchesSelectors, EvaluateObject, Ready;
    var plan := TallyAt(c, Fallback, pol, store, now).plan;
    FallbackPlanMembers(c, pol, store, now);
    AllowedMembers(c.gate, plan, pol.behavior);
    var allowed := AllowedOf(c.gate, plan, pol.behavior);
    if Struck(allowed, k, uid) {
      var i :| 0 <= i < |allowed| && allowed[i].key == k && allowed[i].uid == uid;
      assert allowed[i] in allowed;
    }
    if DoomedAt(c, pol, store, now, k, uid) {
      var o :| o in store && Doomed(c, pol, o, now) && o.key == k && o.uid == uid;
      assert o in allowed;
      var i :| 0 <= i < |allowed| && allowed[i] == o;
    }
  }

  /** For one snapshot and one clock reading, with nothing going wrong: both paths remove exactly the doomed objects
      that stand, match the same number, and their pending and deleted counts differ by exactly the refused objects.
      */
  lemma PathsAgree(c: Context, w: World, pol: Policy, store: seq<Obj>, configured: Option<int>, now: int)
    requires Calm(c) && FrozenClock(c, now) && !pol.behavior.dryRun
    requires ResolveBatchSize(pol.behavior, configured) > 0
    ensures var p := EvaluatePolicy(c, w, Primary, pol, store, configured);
            var f := EvaluatePolicy(c, w, Fallback, pol, store, configured);
            && p.w.live == f.w.live
            && (forall k :: k in p.w.live ==> k in w.live && p.w.live[k] == w.live[k])
            && (forall k :: k in w.live ==> (k !in p.w.live <==> DoomedAt(c, pol, store, now, k, w.live[k].uid)))
            && p.tally.matched == f.tally.matched
            && f.tally.pending == p.tally.pending + RefusedCount(c, pol, store, now, false)
            && f.swept.deleted == p.swept.deleted + RefusedCount(c, pol, store, now, true)
  {
    hide EvaluatePolicy, TallyAt, DoomedAt, Struck, AllowedOf, RefusedCount;
    CalmCycle(c, w, Primary, pol, store, configured, now);
    CalmCycle(c, w, Fallback, pol, store, configured, now);
    TalliesCompare(c, pol, store, now);
    var plan := TallyAt(c, Fallback, pol, store, now).plan;
    AllowedTwice(c.gate, plan, pol.behavior);
    forall k | k in w.live
      ensures Struck(AllowedOf(c.gate, plan, pol.behavior), k, w.live[k].uid) <==>
              DoomedAt(c, pol, store, now, k, w.live[k].uid)
    {
      StruckIsDoomed(c, pol, store, now, k, w.live[k].uid);
    }
  }
}
