/** Whole runs: any sequence of policies, snapshots, paths and actions of others, under any oracle. */
module Runs {
  import opened Strings
  import opened Cluster
  import opened Safety
  import opened Matching
  import opened World
  import opened Deletion
  import opened Evaluation
  import opened PathsAgree
  import opened Meaning
  import opened Plans
  import Ttl

  datatype Op =
    | Others(acts: seq<Act>)
    | Reconcile(pol: Policy, store: seq<Obj>, path: Path, configured: Option<int>)

  /** Reconcile evaluates a policy only if its target is acceptable and it is not paused. */
  predicate Evaluates(g: Gate, pol: Policy) {
    EvaluatePolicyTarget(g, pol.target).None? && !pol.paused
  }

  /** The resolved batch size is positive; otherwise the source's batching loop does not advance. */
  predicate Sized(op: Op) {
    op.Reconcile? ==> ResolveBatchSize(op.pol.behavior, op.configured) > 0
  }

  function Step(c: Context, w: World, op: Op): World
    requires Sized(op)
  {
    match op
    case Others(acts) => w.(live := Apply(w.live, acts))
    case Reconcile(pol, store, path, configured) =>
      if Evaluates(c.gate, pol) then EvaluatePolicy(c, w, path, pol, store, configured).w else w
  }

  function Run(c: Context, w: World, ops: seq<Op>): World
    requires forall i :: 0 <= i < |ops| ==> Sized(ops[i])
  {
    if ops == [] then w else var n := |ops| - 1; Step(c, Run(c, w, ops[..n]), ops[n])
  }

  /** A policy that no cycle is run for: paused, or aimed at what the safety laws protect. */
  predicate Idle(g: Gate, pol: Policy) {
    || pol.paused
    || Infrastructure("", pol.target.kind)
    || (pol.target.ns in g.protected && pol.target.ns != "" && pol.target.ns != "*")
  }

  /** Reconciling an idle policy changes nothing at all; reconciling any other is one cycle. */
  lemma ReconcileExactly(c: Context, w: World, pol: Policy, store: seq<Obj>, path: Path, configured: Option<int>)
    requires ResolveBatchSize(pol.behavior, configured) > 0
    ensures Step(c, w, Reconcile(pol, store, path, configured)) ==
            if Idle(c.gate, pol) then w else EvaluatePolicy(c, w, path, pol, store, configured).w
  {
    hide EvaluatePolicy, EvaluatePolicyTarget;
    TargetRefusedExactly(c.gate, pol.target);
  }

  /** A run of idle policies leaves the cluster to the others. */
  lemma {:induction false} IdleRun(c: Context, w: World, ops: seq<Op>)
    requires forall i :: 0 <= i < |ops| ==> Sized(ops[i]) && (ops[i].Reconcile? ==> Idle(c.gate, ops[i].pol))
    ensures Run(c, w, ops) == w.(live := Apply(w.live, OthersOf(ops)))
    decreases |ops|
  {
    hide Idle, EvaluatePolicy, Evaluates;
    if ops != [] {
      var n := |ops| - 1;
      IdleRun(c, w, ops[..n]);
      match ops[n] {
        case Others(acts) => ApplyConcat(w.live, OthersOf(ops[..n]), acts);
        case Reconcile(pol, store, path, configured) =>
          ReconcileExactly(c, Run(c, w, ops[..n]), pol, store, path, configured);
          assert OthersOf(ops) == OthersOf(ops[..n]);
      }
    }
  }

  function OthersOf(ops: seq<Op>): seq<Act> {
    if ops == [] then []
    else var n := |ops| - 1; OthersOf(ops[..n]) + if ops[n].Others? then ops[n].acts else []
  }

  /** A policy asked for the removal: neither paused nor a dry run nor aimed at what the laws protect, it selected the
      planned object in its snapshot, found its conditions met and its TTL expired, at a clock reading of the cycle that
      began at `from`, before the attempt that removed it. */
  ghost predicate AskedFor(c: Context, op: Op, r: Removal, from: nat) {
    && op.Reconcile?
    && !Idle(c.gate, op.pol) && !op.pol.behavior.dryRun
    && r.behavior == op.pol.behavior
    && r.planned in op.store
    && Selected(r.planned, op.pol.target)
    && Asked(r.planned, op.pol.conditions)
    && exists t: nat :: from <= t < r.at - 1 && Expired(c, op.pol, r.planned, t)
  }

  ghost predicate Expired(c: Context, pol: Policy, o: Obj, t: nat) {
    && Ttl.ShouldDelete(c.parse, o, pol.ttl, c.oracle(t).now1, c.oracle(t).now2).0
    && (c.oracle(t).now1 <= c.oracle(t).now2 ==> Overdue(c, pol, o, t))
  }

  /** One operation of the run asked for the removal and its cycle carried it out. */
  ghost predicate Justified(c: Context, w: World, ops: seq<Op>, r: Removal)
    requires forall i :: 0 <= i < |ops| ==> Sized(ops[i])
  {
    exists i :: 0 <= i < |ops| && JustifiedBy(c, w, ops, r, i)
  }

  ghost predicate JustifiedBy(c: Context, w: World, ops: seq<Op>, r: Removal, i: nat)
    requires i < |ops| && forall i :: 0 <= i < |ops| ==> Sized(ops[i])
  {
    AskedFor(c, ops[i], r, Run(c, w, ops[..i]).t) && r.at <= Run(c, w, ops[..i + 1]).t
  }

  predicate Terminal(o: Obj) {
    NestedText(o, ["status", "phase"]) in {Some("Succeeded"), Some("Failed")}
  }

  /** The victim bears the marks the gate looked at in the snapshot. */
  ghost predicate SameMarks(planned: Obj, victim: Obj) {
    && (OptedOut(victim) <==> OptedOut(planned))
    && (planned.key.kind == "Pod" ==> (Terminal(victim) <==> Terminal(planned)))
  }

  /** The safety law for one removal. The planned snapshot was safe to delete. The victim's name, namespace and kind
      always are; its UID is the planned one exactly if the gap kept it; and its marks are safe exactly if they are
      still those of the snapshot. */
  ghost predicate SafeRemoval(c: Context, r: Removal) {
    && !r.behavior.dryRun && !c.gate.deletesDisabled
    && SafeToDelete(r.planned, r.behavior)
    && r.victim.key == r.planned.key
    && !Infrastructure(r.victim.key.ns, r.victim.key.kind) && r.victim.key.ns !in c.gate.protected - {""}
    && (r.victim.uid == r.planned.uid <==> GapKeeps(r.gap, r.planned.key, r.planned.uid))
    && (SafeToDelete(r.victim, r.behavior) <==> SameMarks(r.planned, r.victim))
  }

  lemma LawfulIsSafe(c: Context, r: Removal)
    requires PROTECTED_NAMESPACES <= c.gate.protected && Lawful(c, r)
    ensures SafeRemoval(c, r)
  {
    AllowsExactly(c.gate, r.planned, r.behavior);
  }

  /** Everything a cycle removes is in its plan, and everything in its plan was in the snapshot and judged due while
      the cycle evaluated: at a tick before any of its removals. */
  lemma CycleFollows(c: Context, w: World, path: Path, pol: Policy, store: seq<Obj>, configured: Option<int>)
    requires Keyed(w.live) && ResolveBatchSize(pol.behavior, configured) > 0
    ensures var e := EvaluatePolicy(c, w, path, pol, store, configured);
            var rs := if path.Primary? then ListResources(store, pol.target.ns) else store;
            var w1 := Evaluate(c, w, path, pol, rs).0;
            && w.t <= w1.t && w1.log == w.log && Keyed(w1.live)
            && Follows(c, e.tally.plan, pol.behavior, w1, e.w)
            && Paid(w, e.w)
            && forall o :: o in e.tally.plan ==> o in store && PlannedIn(c, path, pol, o, w.t, w1.t)
  {
    hide Follows, Sweep, PlannedIn, Apply, Evaluate;
    var rs := if path.Primary? then ListResources(store, pol.target.ns) else store;
    ListIsSubset(store, pol.target.ns);
    EvaluatePlans(c, w, path, pol, rs);
    var (w1, tally) := Evaluate(c, w, path, pol, rs);
    EvaluateDrifts(c, w, path, pol, rs);
    DriftTicks(c, w, w1.t - w.t);
    var size := ResolveBatchSize(pol.behavior, configured);
    ApplyKeyed(w1.live, Now(c, w1).env);
    var w2 := Advance(c, w1);
    FollowsUnlogged(c, tally.plan, pol.behavior, w1, w1);
    FollowsUnlogged(c, tally.plan, pol.behavior, w1, w2);
    SweepFollows(c, w1, tally.plan, size, pol, 0);
    SweepFollows(c, w2, tally.plan, size, pol, 0);
    FollowsChain(c, tally.plan, pol.behavior, w1, w2, Sweep(c, w2, tally.plan, size, pol, 0).w);
  }

  lemma PlannedIsAsked(c: Context, op: Op, r: Removal, from: nat, to: nat)
    requires op.Reconcile? && !Idle(c.gate, op.pol) && r.behavior == op.pol.behavior && r.planned in op.store
    requires PlannedIn(c, op.path, op.pol, r.planned, from, to) && to < r.at && !r.behavior.dryRun
    ensures AskedFor(c, op, r, from)
  {
    hide Idle, MatchesSelectors, MeetsPolicy, Selected, Asked, EvaluateObject, Ttl.Due, Ttl.ShouldDelete;
    var t: nat :|
      from <= t < to && Judge(c, op.path, op.pol, r.planned, c.oracle(t).now1, c.oracle(t).now2).Planned?;
    SelectedExactly(r.planned, op.pol.target);
    AskedExactly(r.planned, op.pol.conditions);
    if c.oracle(t).now1 <= c.oracle(t).now2 {
      Ttl.DecisionIsOneComparison(c.parse, r.planned, op.pol.ttl, c.oracle(t).now1, c.oracle(t).now2);
    }
    assert Expired(c, op.pol, r.planned, t);
  }

  /** What a single operation removes it has asked for. */
  lemma StepIsSafe(c: Context, w: World, op: Op)
    requires Keyed(w.live) && PROTECTED_NAMESPACES <= c.gate.protected && Sized(op)
    ensures var w' := Step(c, w, op);
            && Keyed(w'.live) && w.log <= w'.log && Paid(w, w')
            && forall i :: |w.log| <= i < |w'.log| ==>
                 SafeRemoval(c, w'.log[i]) && AskedFor(c, op, w'.log[i], w.t) && w'.log[i].at <= w'.t
  {
    hide SafeRemoval, AskedFor, EvaluatePolicy, Evaluate, Evaluates, Idle, PlannedIn, Apply;
    match op {
      case Others(acts) => ApplyKeyed(w.live, acts);
      case Reconcile(pol, store, path, configured) =>
        ReconcileExactly(c, w, pol, store, path, configured);
        if !Idle(c.gate, pol) {
          CycleFollows(c, w, path, pol, store, configured);
          var rs := if path.Primary? then ListResources(store, pol.target.ns) else store;
          var w1 := Evaluate(c, w, path, pol, rs).0;
          var w' := Step(c, w, op);
          forall i | |w.log| <= i < |w'.log|
            ensures SafeRemoval(c, w'.log[i]) && AskedFor(c, op, w'.log[i], w.t) && w'.log[i].at <= w'.t
          {
            LawfulIsSafe(c, w'.log[i]);
            PlannedIsAsked(c, op, w'.log[i], w.t, w1.t);
          }
        }
    }
  }

  lemma JustifiedLonger(c: Context, w: World, ops: seq<Op>, r: Removal)
    requires ops != [] && forall i :: 0 <= i < |ops| ==> Sized(ops[i])
    requires Justified(c, w, ops[..|ops| - 1], r)
    ensures Justified(c, w, ops, r)
  {
    hide AskedFor, Run;
    var before := ops[..|ops| - 1];
    var i :| 0 <= i < |before| && JustifiedBy(c, w, before, r, i);
    assert before[..i] == ops[..i] && before[..i + 1] == ops[..i + 1];
    assert JustifiedBy(c, w, ops, r, i);
  }

  /** Whole-run safety. Whatever the policies, snapshots, retries, API answers and other actors: every object the
      controller ever removes was asked for by a policy of the run in the very cycle that removed it, which found it
      expired before the attempt; the removal keeps the safety law; and tokens pay for all. */
  lemma {:induction false} WholeRunSafety(c: Context, w: World, ops: seq<Op>)
    requires Keyed(w.live) && PROTECTED_NAMESPACES <= c.gate.protected
    requires forall i :: 0 <= i < |ops| ==> Sized(ops[i])
    ensures var w' := Run(c, w, ops);
            && Keyed(w'.live) && w.log <= w'.log && Paid(w, w')
            && forall i :: |w.log| <= i < |w'.log| ==> SafeRemoval(c, w'.log[i]) && Justified(c, w, ops, w'.log[i])
    decreases |ops|
  {
    hide SafeRemoval, AskedFor, Step, Justified;
    if ops != [] {
      var n := |ops| - 1;
      WholeRunSafety(c, w, ops[..n]);
      var w1, w2 := Run(c, w, ops[..n]), Run(c, w, ops);
      StepIsSafe(c, w1, ops[n]);
      forall i | |w.log| <= i < |w2.log| ensures SafeRemoval(c, w2.log[i]) && Justified(c, w, ops, w2.log[i]) {
        if i < |w1.log| {
          assert w2.log[i] == w1.log[i];
          JustifiedLonger(c, w, ops, w2.log[i]);
        } else {
          LastIsJustified(c, w, ops, w2.log[i]);
        }
      }
    }
  }

  lemma LastIsJustified(c: Context, w: World, ops: seq<Op>, r: Removal)
    requires ops != [] && forall i :: 0 <= i < |ops| ==> Sized(ops[i])
    requires AskedFor(c, ops[|ops| - 1], r, Run(c, w, ops[..|ops| - 1]).t) && r.at <= Run(c, w, ops).t
    ensures Justified(c, w, ops, r)
  {
    hide AskedFor, Run;
    assert ops[..|ops| - 1 + 1] == ops;
    assert JustifiedBy(c, w, ops, r, |ops| - 1);
  }

  // ----- marks are read from the snapshot only

  /** An undisturbed cycle removes whatever lives, by then, under the name and UID of a doomed object of its
      snapshot. */
  lemma OnlyIdentityIsReread(c: Context, w: World, path: Path, pol: Policy, store: seq<Obj>, o: Obj,
                             configured: Option<int>, now: int)
    requires Calm(c) && FrozenClock(c, now) && !pol.behavior.dryRun && ResolveBatchSize(pol.behavior, configured) > 0
    requires o in store && Doomed(c, pol, o, now) && o.key in w.live && w.live[o.key].uid == o.uid
    ensures o.key !in EvaluatePolicy(c, w, path, pol, store, configured).w.live
  {
    hide EvaluatePolicy, Doomed;
    PathsAgree.PathsAgree(c, w, pol, store, configured, now);
    assert DoomedAt(c, pol, store, now, o.key, o.uid);
  }

  /** The run in which a late exclusion mark is ignored: somebody puts it on after the snapshot was taken, the gate
      would refuse the object as it is now, and the object is removed all the same. */
  lemma LateExclusionIsIgnored(c: Context, w: World, path: Path, pol: Policy, store: seq<Obj>, o: Obj,
                               configured: Option<int>, now: int)
    requires Calm(c) && FrozenClock(c, now) && !pol.behavior.dryRun && ResolveBatchSize(pol.behavior, configured) > 0
    requires Evaluates(c.gate, pol) && o in store && Doomed(c, pol, o, now)
    ensures var marked := o.(labels := o.labels[EXCLUSION_KEY := "true"]);
            var ops := [Others([Put(marked)]), Reconcile(pol, store, path, configured)];
            !Allows(c.gate, marked, pol.behavior) && o.key in Run(c, w, ops[..1]).live && o.key !in Run(c, w, ops).live
  {
    hide EvaluatePolicy, Evaluates, Doomed;
    var marked := o.(labels := o.labels[EXCLUSION_KEY := "true"]);
    var ops := [Others([Put(marked)]), Reconcile(pol, store, path, configured)];
    var w1 := Run(c, w, ops[..1]);
    assert ops[..1][..0] == [] && ops[..1][0] == ops[0];
    assert Apply(w.live, [Put(marked)]) == w.live[o.key := marked];
    assert Run(c, w, []) == w;
    assert w1 == Step(c, w, ops[0]);
    assert w1 == w.(live := w.live[o.key := marked]);
    assert Run(c, w, ops) == Step(c, w1, ops[1]);
    OnlyIdentityIsReread(c, w1, path, pol, store, o, configured, now);
  }
}
