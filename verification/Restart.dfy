/** The restart law: running the same plan again never reports the same object deleted twice
    (pkg/controller/execution_path.go). */
module Restart {
  import opened Strings
  import opened Cluster
  import opened World
  import opened Receipts
  import opened Execution

  /** One run: what the environment did since the last one, and the batch that is then executed, for some policy. */
  datatype Run = Run(acts: seq<Act>, batch: seq<Obj>, policyUid: string, behavior: Behavior)

  function WorldAfter(c: Context, w: World, runs: seq<Run>, n: nat): World
    requires n <= |runs|
    decreases n, 1
  {
    if n == 0 then w
    else
      var run := runs[n - 1];
      Execute(c, WorldBefore(c, w, runs, n - 1), run.batch, run.policyUid, run.behavior).w
  }

  /** The world run n starts in, after the environment acted. */
  function WorldBefore(c: Context, w: World, runs: seq<Run>, n: nat): World
    requires n < |runs|
    decreases n, 2
  {
    var last := WorldAfter(c, w, runs, n);
    last.(live := Apply(last.live, runs[n].acts))
  }

  function ReceiptOf(c: Context, w: World, runs: seq<Run>, n: nat): Option<Receipt>
    requires n < |runs|
  {
    Execute(c, WorldBefore(c, w, runs, n), runs[n].batch, runs[n].policyUid, runs[n].behavior).receipt
  }

  // ----- UIDs are never reused

  type Names = set<(Key, string)>

  function Born(acts: seq<Act>): Names {
    if acts == [] then {}
    else (if acts[0].Put? then {(acts[0].obj.key, acts[0].obj.uid)} else {}) + Born(acts[1..])
  }

  /** Every Put either updates the live object or creates one under a UID this key never carried before. */
  ghost predicate NoReuse(live: Live, used: Names, acts: seq<Act>)
    decreases |acts|
  {
    acts != [] ==>
      && (acts[0].Put? ==> Stands(live, acts[0].obj) || (acts[0].obj.key, acts[0].obj.uid) !in used)
      && NoReuse(ApplyOne(live, acts[0]), used + Born(acts[..1]), acts[1..])
  }

  /** (key, uid) was in use and is no longer live. */
  ghost predicate Dead(live: Live, used: Names, k: Key, uid: string) {
    (k, uid) in used && !(k in live && live[k].uid == uid)
  }

  ghost predicate Covers(used: Names, live: Live) {
    forall k :: k in live ==> (k, live[k].uid) in used
  }

  lemma {:induction false} DeadStaysDead(live: Live, used: Names, acts: seq<Act>, k: Key, uid: string)
    requires NoReuse(live, used, acts) && Covers(used, live)
    ensures Covers(used + Born(acts), Apply(live, acts))
    ensures Dead(live, used, k, uid) ==> Dead(Apply(live, acts), used + Born(acts), k, uid)
    decreases |acts|
  {
    if acts != [] {
      var live1, used1 := ApplyOne(live, acts[0]), used + Born(acts[..1]);
      var first: Names := if acts[0].Put? then {(acts[0].obj.key, acts[0].obj.uid)} else {};
      assert acts[..1] == [acts[0]] && [acts[0]][1..] == [];
      assert Born(acts[..1]) == first;
      DeadStaysDead(live1, used1, acts[1..], k, uid);
      assert used1 + Born(acts[1..]) == used + Born(acts);
    } else {
      assert used + Born(acts) == used;
    }
  }

  function UsedAfter(used: Names, runs: seq<Run>, n: nat): Names
    requires n <= |runs|
  {
    if n == 0 then used else UsedAfter(used, runs, n - 1) + Born(runs[n - 1].acts)
  }

  /** The environment acts between runs only and never reuses a UID; the batches name their objects properly; reads
      may fail but do not lie. The first n runs are considered. */
  ghost predicate FairRuns(c: Context, w: World, used: Names, runs: seq<Run>, n: nat)
    requires n <= |runs|
  {
    n > 0 ==>
      && FairRuns(c, w, used, runs, n - 1)
      && !runs[n - 1].behavior.dryRun && DistinctKeys(runs[n - 1].batch) && AllWellNamed(runs[n - 1].batch)
      && NoReuse(WorldAfter(c, w, runs, n - 1).live, UsedAfter(used, runs, n - 1), runs[n - 1].acts)
  }

  ghost predicate FairHistory(c: Context, w: World, used: Names, runs: seq<Run>) {
    && Quiet(c) && HonestReads(c) && Covers(used, w.live)
    && FairRuns(c, w, used, runs, |runs|)
  }

  lemma {:induction false} FairRun(c: Context, w: World, used: Names, runs: seq<Run>, n: nat, k: nat)
    requires n < k <= |runs| && FairRuns(c, w, used, runs, k)
    ensures !runs[n].behavior.dryRun && DistinctKeys(runs[n].batch) && AllWellNamed(runs[n].batch)
    ensures NoReuse(WorldAfter(c, w, runs, n).live, UsedAfter(used, runs, n), runs[n].acts)
    decreases k
  {
    hide WorldAfter, NoReuse, DistinctKeys, AllWellNamed, UsedAfter;
    if n < k - 1 { FairRun(c, w, used, runs, n, k - 1); }
  }

  /** Through any number of further runs, the dead stay dead. */
  lemma {:induction false} DeadThroughRuns(c: Context, w: World, used: Names, runs: seq<Run>,
                                           n: nat, k: Key, uid: string, since: nat)
    requires FairHistory(c, w, used, runs)
    requires since <= n <= |runs|
    ensures Covers(UsedAfter(used, runs, n), WorldAfter(c, w, runs, n).live)
    ensures Dead(WorldAfter(c, w, runs, since).live, UsedAfter(used, runs, since), k, uid) ==>
            Dead(WorldAfter(c, w, runs, n).live, UsedAfter(used, runs, n), k, uid)
    decreases n
  {
    hide Execute, FairRuns;
    if n > 0 {
      FairRun(c, w, used, runs, n - 1, |runs|);
      var last := if since < n then since else n - 1;
      DeadThroughRuns(c, w, used, runs, n - 1, k, uid, last);
      var a := WorldAfter(c, w, runs, n - 1);
      DeadStaysDead(a.live, UsedAfter(used, runs, n - 1), runs[n - 1].acts, k, uid);
      ReceiptSound(c, WorldBefore(c, w, runs, n - 1), runs[n - 1].batch, runs[n - 1].policyUid, runs[n - 1].behavior);
    }
  }

  /** What a receipt says of one object, from the cluster the run started in and the one it left. */
  lemma ReceiptOfRun(c: Context, w: World, used: Names, runs: seq<Run>, i: nat, p: nat)
    requires FairHistory(c, w, used, runs) && i < |runs| && p < |runs[i].batch|
    ensures var receipt := ReceiptOf(c, w, runs, i);
            var before, after := WorldBefore(c, w, runs, i).live, WorldAfter(c, w, runs, i + 1).live;
            && receipt.Some? && |receipt.value.results| == |runs[i].batch|
            && Vouched(before, after, runs[i].batch[p], receipt.value.results[p].class_)
            && (ReadsSucceed(c) ==> receipt.value.results[p].class_ == TrueClass(before, after, runs[i].batch[p]))
  {
    hide Execute, FairRuns, TrueClass, Vouched;
    FairRun(c, w, used, runs, i, |runs|);
    var wi := WorldBefore(c, w, runs, i);
    ReceiptSound(c, wi, runs[i].batch, runs[i].policyUid, runs[i].behavior);
    if ReadsSucceed(c) { ReceiptExact(c, wi, runs[i].batch, runs[i].policyUid, runs[i].behavior); }
  }

  /** An object that stood when a run began and is gone when it ends is dead. */
  lemma GoneIsDead(c: Context, w: World, used: Names, runs: seq<Run>, i: nat, p: nat)
    requires FairHistory(c, w, used, runs) && i < |runs| && p < |runs[i].batch|
    requires Vouched(WorldBefore(c, w, runs, i).live, WorldAfter(c, w, runs, i + 1).live, runs[i].batch[p], Succeeded)
    ensures var o := runs[i].batch[p];
            Dead(WorldAfter(c, w, runs, i + 1).live, UsedAfter(used, runs, i + 1), o.key, o.uid)
  {
    hide Execute, FairRuns;
    var o := runs[i].batch[p];
    var a := WorldAfter(c, w, runs, i);
    FairRun(c, w, used, runs, i, |runs|);
    DeadThroughRuns(c, w, used, runs, i, o.key, o.uid, i);
    DeadStaysDead(a.live, UsedAfter(used, runs, i), runs[i].acts, o.key, o.uid);
  }

  /** The dead are not there when a later run starts. */
  lemma DeadWhenRunStarts(c: Context, w: World, used: Names, runs: seq<Run>,
                          since: nat, j: nat, k: Key, uid: string)
    requires FairHistory(c, w, used, runs) && since <= j < |runs|
    requires Dead(WorldAfter(c, w, runs, since).live, UsedAfter(used, runs, since), k, uid)
    ensures var live := WorldBefore(c, w, runs, j).live; !(k in live && live[k].uid == uid)
  {
    hide Execute, FairRuns;
    FairRun(c, w, used, runs, j, |runs|);
    DeadThroughRuns(c, w, used, runs, j, k, uid, since);
    DeadStaysDead(WorldAfter(c, w, runs, j).live, UsedAfter(used, runs, j), runs[j].acts, k, uid);
  }

  /** Once a run reports SUCCEEDED for an object, no later run does again. If the reads succeed, a later run that
      plans on the same object reports ALREADY_ABSENT if the name is free when that run starts, and SKIPPED if it
      was taken again. */
  lemma RestartLaw(c: Context, w: World, used: Names, runs: seq<Run>, i: nat, p: nat, j: nat, q: nat)
    requires FairHistory(c, w, used, runs)
    requires i < j < |runs| && p < |runs[i].batch| && q < |runs[j].batch|
    requires runs[i].batch[p].key == runs[j].batch[q].key && runs[i].batch[p].uid == runs[j].batch[q].uid
    ensures var first, later := ReceiptOf(c, w, runs, i), ReceiptOf(c, w, runs, j);
            && first.Some? && |first.value.results| == |runs[i].batch|
            && later.Some? && |later.value.results| == |runs[j].batch|
            && (first.value.results[p].class_ == Succeeded ==>
                  && later.value.results[q].class_ != Succeeded
                  && (ReadsSucceed(c) ==>
                        later.value.results[q].class_ ==
                          if runs[j].batch[q].key in WorldBefore(c, w, runs, j).live then SkippedMismatch
                          else AlreadyAbsent))
  {
    hide FairHistory, WorldAfter, WorldBefore, ReceiptOf, Dead;
    ReceiptOfRun(c, w, used, runs, i, p);
    ReceiptOfRun(c, w, used, runs, j, q);
    if ReceiptOf(c, w, runs, i).value.results[p].class_ == Succeeded {
      GoneIsDead(c, w, used, runs, i, p);
      DeadWhenRunStarts(c, w, used, runs, i + 1, j, runs[j].batch[q].key, runs[j].batch[q].uid);
    }
  }

  /** So over all runs an object is reported as deleted at most once. */
  lemma AtMostOnce(c: Context, w: World, used: Names, runs: seq<Run>, i: nat, p: nat, j: nat, q: nat)
    requires FairHistory(c, w, used, runs)
    requires i <= j < |runs| && p < |runs[i].batch| && q < |runs[j].batch|
    requires runs[i].batch[p].key == runs[j].batch[q].key && runs[i].batch[p].uid == runs[j].batch[q].uid
    ensures var first, later := ReceiptOf(c, w, runs, i), ReceiptOf(c, w, runs, j);
            && first.Some? && |first.value.results| == |runs[i].batch|
            && later.Some? && |later.value.results| == |runs[j].batch|
            && (first.value.results[p].class_ == Succeeded && later.value.results[q].class_ == Succeeded ==>
                  i == j && p == q)
  {
    hide FairRuns, WorldAfter, WorldBefore, ReceiptOf;
    ReceiptOfRun(c, w, used, runs, i, p);
    ReceiptOfRun(c, w, used, runs, j, q);
    if i < j {
      RestartLaw(c, w, used, runs, i, p, j, q);
    } else {
      FairRun(c, w, used, runs, i, |runs|);
    }
  }
}
