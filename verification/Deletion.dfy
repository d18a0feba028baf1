/** Deleting planned objects: the choke point (pkg/controller/reconciler_helpers.go), the single attempt
    (pkg/controller/reconciler_deletion.go), the retry loop and the batch loop (pkg/controller/shared.go), as functions
    from world to world. The imperative code in Reconciler.dfy is proved to compute exactly these. */
module Deletion {
  import opened Strings
  import opened Cluster
  import opened Safety
  import opened World
  import Backoff

  datatype Outcome = Outcome(w: World, err: Option<Error>)

  /** rateLimiter.Wait. */
  function Wait(c: Context, w: World): (World, bool) {
    var w1 := Advance(c, w);
    if Now(c, w).waitOk then (w1.(tokens := w1.tokens + 1), true) else (w1, false)
  }

  /** The select on ctx.Done. */
  function Done(c: Context, w: World): (World, bool) {
    (Advance(c, w), Now(c, w).done)
  }

  /** The DELETE call: the gap happens first, then the server acts, and the answer may get lost. */
  function Delete(c: Context, w: World, tick: Tick, o: Obj, b: Behavior): Outcome {
    var w1 := w.(live := Apply(w.live, tick.gap), deletes := w.deletes + 1);
    var w2 := if o.key in w1.live && (tick.del.None? || tick.applied) then Remove(w1, o, b, tick.gap) else w1;
    if tick.del.Some? then Outcome(w2, Some(Api(tick.del.value)))
    else if o.key !in w1.live then Outcome(w2, Some(Api(NotFound)))
    else Outcome(w2, None)
  }

  /** performResourceDeletion: gate, live read, UID check, DELETE. Refusals and vanished objects answer "no error". */
  function Perform(c: Context, w: World, o: Obj, b: Behavior): Outcome {
    if !Allows(c.gate, o, b) then Outcome(w, None)
    else
      var tick := Now(c, w);
      var w1 := Advance(c, w);
      if tick.get == Some(NotFound) then Outcome(w1, None)
      else if tick.get.Some? then Outcome(w1, Some(Api(tick.get.value)))
      else if o.key !in w1.live then Outcome(w1, None)
      else if w1.live[o.key].uid != o.uid then Outcome(w1, None)
      else
        var r := Delete(c, w1, tick, o, b);
        if r.err == Some(Api(NotFound)) then Outcome(r.w, None) else r
  }

  /** deleteResource: one token, then nothing (dry run) or the choke point. */
  function Attempt(c: Context, w: World, o: Obj, b: Behavior): Outcome {
    var (w1, ok) := Wait(c, w);
    var r :=
      if !ok then Outcome(w1, Some(WaitFailed))
      else if b.dryRun then Outcome(w1, None)
      else Perform(c, w1, o, b);
    r.(w := r.w.(answers := r.w.answers + [r.err]))
  }

  predicate Retryable(e: Error) {
    e.Api? && e.error in {Timeout, ServerTimeout, TooManyRequests, ServiceUnavailable}
  }

  /** deleteResourceWithBackoffShared from a given backoff step on. */
  function Retry(c: Context, cfg: Backoff.Config, w: World, o: Obj, b: Behavior, step: nat): Outcome
    decreases cfg.steps - step
  {
    if step >= cfg.steps then Outcome(w, Some(Exhausted))
    else
      var (w1, done) := Done(c, w);
      if done then Outcome(w1, Some(Cancelled))
      else
        var r := Attempt(c, w1, o, b);
        if r.err.None? then r
        else if Retryable(r.err.value) then
          var d := Backoff.NextValue(cfg, step);
          if d == 0 then Outcome(r.w, Some(Exhausted))
          else
            var (w2, done2) := Done(c, r.w);
            if done2 then Outcome(w2, Some(Cancelled))
            else Retry(c, cfg, w2.(slept := w2.slept + d), o, b, step + 1)
        else if r.err == Some(Api(NotFound)) then Outcome(r.w, None)
        else r
  }

  function RetryAll(c: Context, w: World, o: Obj, b: Behavior): Outcome {
    Retry(c, Backoff.DefaultConfig(), w.(attempted := w.attempted + 1), o, b, 0)
  }

  /** One iteration of the batch loop: its own token, then the retry loop. */
  function DeleteOne(c: Context, w: World, o: Obj, b: Behavior): Outcome {
    var (w1, ok) := Wait(c, w);
    var r := if !ok then Outcome(w1, Some(WaitFailed)) else RetryAll(c, w1, o, b);
    r.(w := r.w.(processed := r.w.processed + 1))
  }

  const BATCH_CHECK_INTERVAL := 50

  datatype BatchResult = BatchResult(w: World, deleted: nat, errs: seq<Error>)

  /** deleteBatchShared from index i on. */
  function DeleteBatch(c: Context, w: World, batch: seq<Obj>, b: Behavior, i: nat): BatchResult
    requires i <= |batch|
    decreases |batch| - i
  {
    if i == |batch| then BatchResult(w, 0, [])
    else
      var (w1, done) := if i % BATCH_CHECK_INTERVAL == 0 then Done(c, w) else (w, false);
      if done then BatchResult(w1, 0, [])
      else
        var r := DeleteOne(c, w1, batch[i], b);
        var rest := DeleteBatch(c, r.w, batch, b, i + 1);
        match r.err
        case Some(e) => rest.(errs := [e] + rest.errs)
        case None => if b.dryRun then rest else rest.(deleted := rest.deleted + 1)
  }

  // ----- what every deletion leaves behind, whatever the oracle does

  /** What the gap may do to a key without making the UID check stale. */
  predicate GapKeeps(gap: seq<Act>, k: Key, uid: string) {
    match LastAt(gap, k)
    case Some(Put(o)) => o.uid == uid
    case _ => true
  }

  /** A removal within the law: outside dry run, let through by the gate, under the planned name, and of the planned UID
      exactly if the gap between read and DELETE did not put another object there. */
  ghost predicate Lawful(c: Context, r: Removal) {
    && Allows(c.gate, r.planned, r.behavior)
    && !r.behavior.dryRun
    && r.victim.key == r.planned.key
    && (r.victim.uid == r.planned.uid <==> GapKeeps(r.gap, r.planned.key, r.planned.uid))
  }

  /** w' comes after w, and all the controller removed in between are objects of the batch, within the law. */
  ghost predicate Follows(c: Context, objs: seq<Obj>, b: Behavior, w: World, w': World) {
    && Keyed(w'.live)
    && w.t <= w'.t
    && w.log <= w'.log
    && (forall i :: |w.log| <= i < |w'.log| ==> OneOf(c, objs, b, w'.log[i], w.t, w'.t))
  }

  /** A lawful removal of one of the objects, at an attempt whose own tick lies between two positions of the oracle. */
  ghost predicate OneOf(c: Context, objs: seq<Obj>, b: Behavior, r: Removal, from: nat, to: nat) {
    Lawful(c, r) && r.planned in objs && r.behavior == b && from < r.at <= to
  }

  /** Tokens pay for everything: one for each object attempted and one more for each DELETE call. */
  ghost predicate Paid(w: World, w': World) {
    && w'.attempted >= w.attempted && w'.deletes >= w.deletes
    && (w'.deletes - w.deletes) + (w'.attempted - w.attempted) <= w'.tokens - w.tokens
  }

  lemma FollowsAppend(c: Context, objs: seq<Obj>, b: Behavior, w: World, w': World, r: Removal)
    requires Keyed(w'.live) && w.t <= w'.t && w'.log == w.log + [r]
    requires OneOf(c, objs, b, r, w.t, w'.t)
    ensures Follows(c, objs, b, w, w')
  {
  }

  lemma FollowsChain(c: Context, objs: seq<Obj>, b: Behavior, w: World, w1: World, w2: World)
    requires Follows(c, objs, b, w, w1) && Follows(c, objs, b, w1, w2)
    ensures Follows(c, objs, b, w, w2)
  {
    hide Lawful;
    forall i | |w.log| <= i < |w2.log| ensures OneOf(c, objs, b, w2.log[i], w.t, w2.t) {
      if i < |w1.log| { assert w2.log[i] == w1.log[i]; }
    }
  }

  lemma FollowsUnlogged(c: Context, objs: seq<Obj>, b: Behavior, w: World, w': World)
    requires Keyed(w'.live) && w.t <= w'.t && w'.log == w.log
    ensures Follows(c, objs, b, w, w')
  {
  }

  /** More objects, the same removals. */
  lemma FollowsMore(c: Context, objs: seq<Obj>, more: seq<Obj>, b: Behavior, w: World, w': World)
    requires Follows(c, objs, b, w, w') && forall o :: o in objs ==> o in more
    ensures Follows(c, more, b, w, w')
  {
    hide Lawful;
    forall i | |w.log| <= i < |w'.log| ensures OneOf(c, more, b, w'.log[i], w.t, w'.t) {
      assert OneOf(c, objs, b, w'.log[i], w.t, w'.t);
    }
  }

  /** The object a DELETE hits after the gap, if any: filed under the planned name, with the planned UID exactly if
      the gap kept it. */
  lemma GapVictim(live: Live, gap: seq<Act>, o: Obj)
    requires Keyed(live) && o.key in live && live[o.key].uid == o.uid
    ensures var after := Apply(live, gap);
            Keyed(after) &&
            (o.key in after ==>
               after[o.key].key == o.key && (after[o.key].uid == o.uid <==> GapKeeps(gap, o.key, o.uid)))
  {
    ApplyKeyed(live, gap);
    ApplyAt(live, gap, o.key);
  }

  /** A DELETE right behind its read removes nothing, or the planned name, within the law. */
  lemma DeleteFollows(c: Context, w: World, tick: Tick, o: Obj, b: Behavior)
    requires Keyed(w.live) && !b.dryRun && Allows(c.gate, o, b) && o.key in w.live && w.live[o.key].uid == o.uid
    ensures var w' := Delete(c, w, tick, o, b).w;
            && Keyed(w'.live) && w'.t == w.t
            && w'.tokens == w.tokens && w'.attempted == w.attempted && w'.deletes == w.deletes + 1
            && (w'.log == w.log ||
                exists victim ::
                  var r := Removal(o, victim, b, tick.gap, w.t);
                  w'.log == w.log + [r] && Lawful(c, r))
  {
    hide Apply, Allows, GapKeeps;
    GapVictim(w.live, tick.gap, o);
    var after := Apply(w.live, tick.gap);
    var w' := Delete(c, w, tick, o, b).w;
    if w'.log != w.log {
      assert Lawful(c, Removal(o, after[o.key], b, tick.gap, w.t));
    }
  }

  lemma PerformFollows(c: Context, w: World, o: Obj, b: Behavior)
    requires Keyed(w.live) && !b.dryRun
    ensures var w' := Perform(c, w, o, b).w;
            && Follows(c, [o], b, w, w')
            && w'.tokens == w.tokens && w'.attempted == w.attempted && w.deletes <= w'.deletes <= w.deletes + 1
  {
    hide Apply, Follows, Allows, Delete, Lawful;
    var w1, w' := Advance(c, w), Perform(c, w, o, b).w;
    ApplyKeyed(w.live, Now(c, w).env);
    if Allows(c.gate, o, b) && o.key in w1.live && w1.live[o.key].uid == o.uid {
      DeleteFollows(c, w1, Now(c, w), o, b);
    }
    if w'.log == w.log {
      FollowsUnlogged(c, [o], b, w, w');
    } else {
      FollowsAppend(c, [o], b, w, w', w'.log[|w.log|]);
    }
  }

  lemma FollowsRenamed(c: Context, objs: seq<Obj>, b: Behavior, w: World, w': World, w'': World)
    requires Follows(c, objs, b, w, w') && w''.log == w'.log && w''.live == w'.live && w''.t == w'.t
    ensures Follows(c, objs, b, w, w'')
  {
  }

  lemma AttemptFollows(c: Context, w: World, o: Obj, b: Behavior)
    requires Keyed(w.live)
    ensures var w' := Attempt(c, w, o, b).w;
            Follows(c, [o], b, w, w') && Paid(w, w') && w'.attempted == w.attempted
  {
    hide Follows, Perform, Apply;
    ApplyKeyed(w.live, Now(c, w).env);
    var (w1, ok) := Wait(c, w);
    FollowsUnlogged(c, [o], b, w, w1);
    var w' := Attempt(c, w, o, b).w;
    if ok && !b.dryRun {
      PerformFollows(c, w1, o, b);
      FollowsChain(c, [o], b, w, w1, Perform(c, w1, o, b).w);
      FollowsRenamed(c, [o], b, w, Perform(c, w1, o, b).w, w');
    } else {
      FollowsRenamed(c, [o], b, w, w1, w');
    }
  }

  lemma FollowsKeyed(c: Context, objs: seq<Obj>, b: Behavior, w: World, w': World)
    requires Follows(c, objs, b, w, w')
    ensures Keyed(w'.live)
  {
  }

  lemma {:induction false} RetryFollows(c: Context, cfg: Backoff.Config, w: World, o: Obj, b: Behavior, step: nat)
    requires Keyed(w.live)
    ensures var w' := Retry(c, cfg, w, o, b, step).w;
            Follows(c, [o], b, w, w') && Paid(w, w') && w'.attempted == w.attempted
    decreases cfg.steps - step
  {
    hide Attempt, Follows, Apply, Backoff.NextValue;
    FollowsUnlogged(c, [o], b, w, w);
    if step < cfg.steps {
      ApplyKeyed(w.live, Now(c, w).env);
      var w1 := Advance(c, w);
      FollowsUnlogged(c, [o], b, w, w1);
      AttemptFollows(c, w1, o, b);
      var r := Attempt(c, w1, o, b);
      FollowsChain(c, [o], b, w, w1, r.w);
      FollowsKeyed(c, [o], b, w1, r.w);
      ApplyKeyed(r.w.live, Now(c, r.w).env);
      var w2 := Advance(c, r.w);
      FollowsUnlogged(c, [o], b, r.w, w2);
      FollowsChain(c, [o], b, w, r.w, w2);
      var w3 := w2.(slept := w2.slept + Backoff.NextValue(cfg, step));
      FollowsRenamed(c, [o], b, w, w2, w3);
      RetryFollows(c, cfg, w3, o, b, step + 1);
      FollowsChain(c, [o], b, w, w3, Retry(c, cfg, w3, o, b, step + 1).w);
    }
  }

  lemma DeleteOneFollows(c: Context, w: World, o: Obj, b: Behavior)
    requires Keyed(w.live)
    ensures var w' := DeleteOne(c, w, o, b).w; Follows(c, [o], b, w, w') && Paid(w, w')
  {
    hide Follows, Retry, Apply;
    ApplyKeyed(w.live, Now(c, w).env);
    var (w1, ok) := Wait(c, w);
    FollowsUnlogged(c, [o], b, w, w1);
    var w' := DeleteOne(c, w, o, b).w;
    if ok {
      var w2 := w1.(attempted := w1.attempted + 1);
      FollowsUnlogged(c, [o], b, w, w2);
      RetryFollows(c, Backoff.DefaultConfig(), w2, o, b, 0);
      var w3 := RetryAll(c, w1, o, b).w;
      FollowsChain(c, [o], b, w, w2, w3);
      FollowsRenamed(c, [o], b, w, w3, w');
    } else {
      FollowsRenamed(c, [o], b, w, w1, w');
    }
  }

  /** Every removal of a batch is a lawful removal of one of its objects, and every DELETE has its own token. */
  lemma {:induction false} BatchFollows(c: Context, w: World, batch: seq<Obj>, b: Behavior, i: nat)
    requires Keyed(w.live) && i <= |batch|
    ensures var w' := DeleteBatch(c, w, batch, b, i).w; Follows(c, batch, b, w, w') && Paid(w, w')
    decreases |batch| - i
  {
    hide DeleteOne, Follows, Apply;
    FollowsUnlogged(c, batch, b, w, w);
    if i < |batch| {
      ApplyKeyed(w.live, Now(c, w).env);
      FollowsUnlogged(c, batch, b, w, Advance(c, w));
      var (w1, done) := if i % BATCH_CHECK_INTERVAL == 0 then Done(c, w) else (w, false);
      if !done {
        DeleteOneFollows(c, w1, batch[i], b);
        var w2 := DeleteOne(c, w1, batch[i], b).w;
        FollowsKeyed(c, [batch[i]], b, w1, w2);
        FollowsMore(c, [batch[i]], batch, b, w1, w2);
        FollowsChain(c, batch, b, w, w1, w2);
        BatchFollows(c, w2, batch, b, i + 1);
        FollowsChain(c, batch, b, w, w2, DeleteBatch(c, w2, batch, b, i + 1).w);
      }
    }
  }

  /** The read-then-DELETE window is real: an object created in it under the planned name is removed with a UID nobody
      planned on. */
  lemma GapCanRemoveTheUnplanned(c: Context, w: World, o: Obj, b: Behavior, other: Obj)
    requires Allows(c.gate, o, b) && o.key in w.live && w.live[o.key] == o
    requires other.key == o.key && other.uid != o.uid
    requires Now(c, w) == Tick([], [Put(other)], false, true, None, None, false, 0, 0)
    ensures Perform(c, w, o, b).w.log == w.log + [Removal(o, other, b, [Put(other)], w.t + 1)]
  {
    assert Apply(w.live, []) == w.live;
    assert Apply(w.live, [Put(other)]) == w.live[o.key := other];
  }

  // ----- the retry loop

  /** An API answer that is worth another attempt. */
  predicate Transient(a: Option<Error>) {
    a in {Some(Api(Timeout)), Some(Api(ServerTimeout)), Some(Api(TooManyRequests)), Some(Api(ServiceUnavailable))}
  }

  /** How the answers of one retry loop look, oldest first, when it was allowed `most` attempts and returned `err`. */
  ghost predicate RetryShape(recent: seq<Option<Error>>, most: int, err: Option<Error>) {
    && |recent| <= most
    && (forall i :: 0 <= i < |recent| - 1 ==> Transient(recent[i]))
    && (err.None? <==> recent != [] && recent[|recent| - 1] in {None, Some(Api(NotFound))})
    && (err == Some(Exhausted) ==> forall i :: 0 <= i < |recent| ==> Transient(recent[i]))
    && (err.Some? && err.value !in {Exhausted, Cancelled} ==>
          recent != [] && recent[|recent| - 1] == err && !Transient(err) && err != Some(Api(NotFound)))
  }

  lemma RetryShapeNone(most: int, err: Option<Error>)
    requires most >= 0 && err in {Some(Exhausted), Some(Cancelled)}
    ensures RetryShape([], most, err)
  {
  }

  lemma RetryShapeOne(a: Option<Error>, most: int, err: Option<Error>)
    requires most >= 1 && (err.None? <==> a in {None, Some(Api(NotFound))})
    requires err == Some(Exhausted) ==> Transient(a)
    requires err.Some? && err.value !in {Exhausted, Cancelled} ==>
               a == err && !Transient(a) && err != Some(Api(NotFound))
    ensures RetryShape([a], most, err)
  {
  }

  lemma RetryShapeCons(a: Option<Error>, recent: seq<Option<Error>>, most: int, err: Option<Error>)
    requires Transient(a) && RetryShape(recent, most, err)
    ensures RetryShape([a] + recent, most + 1, err)
  {
    var s := [a] + recent;
    assert forall i :: 1 <= i < |s| ==> s[i] == recent[i - 1];
    assert recent != [] ==> s[|s| - 1] == recent[|recent| - 1];
  }

  /** For any API answers: at most Steps - step further attempts, all but the last answered by a transient error;
      success exactly after an attempt that answered nil or NotFound; "exhausted" only after nothing but transient
      errors, and, if the schedule has no gaps, only after all the attempts there were; any other error is the last
      answer and not transient, unless the context was found done on the way. */
  lemma {:induction false} RetryLaw(c: Context, cfg: Backoff.Config, w: World, o: Obj, b: Behavior, step: nat)
    requires step <= cfg.steps
    ensures var r := Retry(c, cfg, w, o, b, step);
            && w.answers <= r.w.answers && w.t <= r.w.t
            && RetryShape(r.w.answers[|w.answers|..], cfg.steps - step, r.err)
            && (r.err == Some(Exhausted) && Steady(cfg) ==> |r.w.answers| == |w.answers| + (cfg.steps - step))
            && (r.err == Some(Cancelled) ==> FoundDone(c, w.t, r.w.t))
    decreases cfg.steps - step
  {
    hide Attempt, Backoff.NextValue, RetryShape, Apply, FoundDone;
    var result := Retry(c, cfg, w, o, b, step);
    if step == cfg.steps || Now(c, w).done {
      RetryShapeNone(cfg.steps - step, result.err);
      assert result.w.answers[|w.answers|..] == [];
      if step < cfg.steps { FoundNow(c, w.t, w.t, w.t + 1); }
    } else {
      var w1 := Advance(c, w);
      AttemptAnswers(c, w1, o, b);
      var r := Attempt(c, w1, o, b);
      var d := Backoff.NextValue(cfg, step);
      RetryableIsTransient(r.err);
      if Transient(r.err) && d != 0 && !Now(c, r.w).done {
        var w2 := Advance(c, r.w);
        var w3 := w2.(slept := w2.slept + d);
        RetryLaw(c, cfg, w3, o, b, step + 1);
        assert result == Retry(c, cfg, w3, o, b, step + 1);
        var rest := result.w.answers[|w3.answers|..];
        assert w3.answers == w.answers + [r.err];
        Suffix(w.answers, r.err, result.w.answers);
        RetryShapeCons(r.err, rest, cfg.steps - (step + 1), result.err);
        if result.err == Some(Cancelled) { FoundWider(c, w3.t, result.w.t, w.t); }
      } else {
        assert result.w.answers[|w.answers|..] == [r.err];
        RetryShapeOne(r.err, cfg.steps - step, result.err);
        if result.err == Some(Cancelled) { FoundNow(c, w.t, r.w.t, result.w.t); }
      }
    }
  }

  /** No step of the schedule is zero. */
  ghost predicate Steady(cfg: Backoff.Config) {
    forall k: nat :: k < cfg.steps ==> Backoff.NextValue(cfg, k) != 0
  }

  ghost predicate FoundDone(c: Context, from: nat, to: nat) {
    exists t: nat :: from <= t < to && c.oracle(t).done
  }

  lemma FoundNow(c: Context, from: nat, t: nat, to: nat)
    requires from <= t < to && c.oracle(t).done
    ensures FoundDone(c, from, to)
  {
  }

  lemma FoundWider(c: Context, from: nat, to: nat, from': nat)
    requires FoundDone(c, from, to) && from' <= from
    ensures FoundDone(c, from', to)
  {
    var t: nat :| from <= t < to && c.oracle(t).done;
    FoundNow(c, from', t, to);
  }

  lemma RetryableIsTransient(a: Option<Error>)
    ensures Transient(a) <==> a.Some? && Retryable(a.value)
  {
  }

  lemma Suffix(s: seq<Option<Error>>, a: Option<Error>, whole: seq<Option<Error>>)
    requires s + [a] <= whole
    ensures s <= whole && whole[|s|..] == [a] + whole[|s| + 1..]
  {
    assert whole[|s|] == (s + [a])[|s|];
  }

  /** One retry loop sleeps at most for what is left of the schedule. */
  lemma {:induction false} RetrySleeps(c: Context, cfg: Backoff.Config, w: World, o: Obj, b: Behavior, step: nat)
    requires cfg.duration >= 0 && cfg.cap >= 0 && cfg.factor >= 0.0
    requires step <= cfg.steps
    ensures 0 <= Retry(c, cfg, w, o, b, step).w.slept - w.slept <= Backoff.Total(cfg, step)
    decreases cfg.steps - step
  {
    hide Attempt, Backoff.NextValue;
    Backoff.TotalBounded(cfg, step);
    if step < cfg.steps {
      Backoff.NextBounded(cfg, step);
      Backoff.TotalBounded(cfg, step + 1);
      AttemptAnswers(c, Advance(c, w), o, b);
      var w2 := Advance(c, Attempt(c, Advance(c, w), o, b).w);
      var w3 := w2.(slept := w2.slept + Backoff.NextValue(cfg, step));
      RetrySleeps(c, cfg, w3, o, b, step + 1);
    }
  }

  lemma PerformOnlyActs(c: Context, w: World, o: Obj, b: Behavior)
    ensures var r := Perform(c, w, o, b);
            && r.w.answers == w.answers && r.w.slept == w.slept && r.w.processed == w.processed
            && r.w.tokens == w.tokens && r.w.attempted == w.attempted && r.w.t >= w.t
            && (r.err.Some? ==> r.err.value.Api?)
  {
    hide Apply, Allows;
  }

  lemma AttemptAnswers(c: Context, w: World, o: Obj, b: Behavior)
    ensures var r := Attempt(c, w, o, b);
            && r.w.answers == w.answers + [r.err] && r.w.slept == w.slept && r.w.processed == w.processed
            && r.err != Some(Exhausted) && r.err != Some(Cancelled) && r.w.t > w.t
  {
    hide Perform, Apply;
    PerformOnlyActs(c, Wait(c, w).0, o, b);
  }

  /** The controller's own schedule: at most five attempts and at most 3.255 seconds of sleep per object. */
  lemma RetryBounds(c: Context, w: World, o: Obj, b: Behavior)
    ensures var r := RetryAll(c, w, o, b);
            |r.w.answers| - |w.answers| <= 5 && 0 <= r.w.slept - w.slept <= 3_255_000_000
  {
    hide Retry, Backoff.Total;
    var cfg := Backoff.DefaultConfig();
    RetryLaw(c, cfg, w.(attempted := w.attempted + 1), o, b, 0);
    RetrySleeps(c, cfg, w.(attempted := w.attempted + 1), o, b, 0);
    Backoff.DefaultTotal();
  }

  /** And there are answers that make it sleep that long: five attempts that all time out. */
  lemma {:induction false} RetrySleepsInFull(c: Context, cfg: Backoff.Config, w: World, o: Obj, b: Behavior, step: nat)
    requires forall t: nat :: c.oracle(t) == Tick([], [], false, true, Some(Timeout), None, false, 0, 0)
    requires Allows(c.gate, o, b) && !b.dryRun && step <= cfg.steps
    requires forall k: nat :: k < cfg.steps ==> Backoff.NextValue(cfg, k) != 0
    ensures Retry(c, cfg, w, o, b, step).w.slept - w.slept == Backoff.Total(cfg, step)
    decreases cfg.steps - step
  {
    hide Backoff.NextValue, Allows;
    if step < cfg.steps {
      var w1 := Advance(c, w);
      assert !Now(c, w).done;
      var r := Attempt(c, w1, o, b);
      TimedOut(c, w1, o, b);
      assert !Now(c, r.w).done;
      var w2 := Advance(c, r.w);
      RetrySleepsInFull(c, cfg, w2.(slept := w2.slept + Backoff.NextValue(cfg, step)), o, b, step + 1);
    }
  }

  lemma TimedOut(c: Context, w: World, o: Obj, b: Behavior)
    requires forall t: nat :: c.oracle(t) == Tick([], [], false, true, Some(Timeout), None, false, 0, 0)
    requires Allows(c.gate, o, b) && !b.dryRun
    ensures Attempt(c, w, o, b).err == Some(Api(Timeout)) && Attempt(c, w, o, b).w.slept == w.slept
  {
    hide Allows;
    assert Now(c, w).waitOk;
    assert Now(c, Wait(c, w).0).get == Some(Timeout);
  }

  // ----- the batch loop conserves

  /** Outside dry run, deleted plus errors is the number of objects the loop got through, also when it is cancelled
      half-way; in dry run nothing counts as deleted. Uncancelled, it gets through all of them. */
  lemma {:induction false} BatchConserves(c: Context, w: World, batch: seq<Obj>, b: Behavior, i: nat)
    requires i <= |batch|
    ensures var r := DeleteBatch(c, w, batch, b, i);
            && w.processed <= r.w.processed <= w.processed + (|batch| - i)
            && (if b.dryRun then r.deleted == 0 else r.deleted + |r.errs| == r.w.processed - w.processed)
            && (NeverCancelled(c) ==> r.w.processed == w.processed + (|batch| - i))
    decreases |batch| - i
  {
    hide DeleteOne;
    if i < |batch| {
      var (w1, done) := if i % BATCH_CHECK_INTERVAL == 0 then Done(c, w) else (w, false);
      if !done {
        DeleteOneProcesses(c, w1, batch[i], b);
        BatchConserves(c, DeleteOne(c, w1, batch[i], b).w, batch, b, i + 1);
      }
    }
  }

  lemma DeleteOneProcesses(c: Context, w: World, o: Obj, b: Behavior)
    ensures DeleteOne(c, w, o, b).w.processed == w.processed + 1
  {
    hide Retry;
    RetryProcesses(c, Backoff.DefaultConfig(), Wait(c, w).0.(attempted := Wait(c, w).0.attempted + 1), o, b, 0);
  }

  lemma {:induction false} RetryProcesses(c: Context, cfg: Backoff.Config, w: World, o: Obj, b: Behavior, step: nat)
    ensures Retry(c, cfg, w, o, b, step).w.processed == w.processed
    decreases cfg.steps - step
  {
    hide Attempt, Backoff.NextValue;
    if step < cfg.steps {
      AttemptAnswers(c, Advance(c, w), o, b);
      var r := Attempt(c, Advance(c, w), o, b);
      var w2 := Advance(c, r.w);
      RetryProcesses(c, cfg, w2.(slept := w2.slept + Backoff.NextValue(cfg, step)), o, b, step + 1);
    }
  }

  // ----- cancelling a batch, and its tokens

  /** The batch loop looks at the context before every fiftieth object and nowhere else: found done there, it ends
      with that look; in between, the next object is always attempted. */
  lemma BatchLooksAtFifties(c: Context, w: World, batch: seq<Obj>, b: Behavior, i: nat)
    requires i < |batch|
    ensures var r := DeleteBatch(c, w, batch, b, i);
            if i % 50 == 0 && c.oracle(w.t).done then
              r.w == Advance(c, w) && r.deleted == 0 && r.errs == []
            else
              r.w.processed > w.processed
  {
    hide DeleteOne, Apply;
    var (w1, done) := if i % 50 == 0 then Done(c, w) else (w, false);
    if !done {
      DeleteOneProcesses(c, w1, batch[i], b);
      BatchConserves(c, DeleteOne(c, w1, batch[i], b).w, batch, b, i + 1);
    }
  }

  /** So a batch that does not get through all its objects stopped at a fiftieth, with the look that found the context
      done. */
  lemma {:induction false} BatchStopsAtFifties(c: Context, w: World, batch: seq<Obj>, b: Behavior, i: nat)
    requires i <= |batch|
    ensures var r := DeleteBatch(c, w, batch, b, i);
            var through := i + (r.w.processed - w.processed);
            i <= through <= |batch| &&
            (through < |batch| ==> through % 50 == 0 && r.w.t > 0 && c.oracle(r.w.t - 1).done)
    decreases |batch| - i
  {
    hide DeleteOne, Apply;
    if i < |batch| {
      var (w1, done) := if i % BATCH_CHECK_INTERVAL == 0 then Done(c, w) else (w, false);
      if !done {
        DeleteOneProcesses(c, w1, batch[i], b);
        BatchStopsAtFifties(c, DeleteOne(c, w1, batch[i], b).w, batch, b, i + 1);
      }
    }
  }

  /** How many answers came behind a successful wait. */
  function PastWait(answers: seq<Option<Error>>): nat {
    if answers == [] then 0
    else var n := |answers| - 1; PastWait(answers[..n]) + if answers[n] == Some(WaitFailed) then 0 else 1
  }

  /** Where every token went: one for each object handed to the retry loop, and one for each attempt that got past
      its own wait, dry runs included. */
  ghost predicate Accounted(w: World, w': World) {
    w'.tokens - w.tokens == (w'.attempted - w.attempted) + (PastWait(w'.answers) - PastWait(w.answers))
  }

  lemma AttemptAccounts(c: Context, w: World, o: Obj, b: Behavior)
    ensures var w' := Attempt(c, w, o, b).w; Accounted(w, w') && w'.attempted == w.attempted
  {
    hide Perform, Apply;
    var r := Attempt(c, w, o, b);
    PerformOnlyActs(c, Wait(c, w).0, o, b);
    assert r.w.answers == w.answers + [r.err];
    assert (w.answers + [r.err])[..|w.answers|] == w.answers;
  }

  lemma {:induction false} RetryAccounts(c: Context, cfg: Backoff.Config, w: World, o: Obj, b: Behavior, step: nat)
    ensures var w' := Retry(c, cfg, w, o, b, step).w; Accounted(w, w') && w'.attempted == w.attempted
    decreases cfg.steps - step
  {
    hide Attempt, Apply, PastWait, Backoff.NextValue;
    if step < cfg.steps {
      var w1 := Advance(c, w);
      AttemptAccounts(c, w1, o, b);
      var r := Attempt(c, w1, o, b);
      var w2 := Advance(c, r.w);
      RetryAccounts(c, cfg, w2.(slept := w2.slept + Backoff.NextValue(cfg, step)), o, b, step + 1);
    }
  }

  lemma DeleteOneAccounts(c: Context, w: World, o: Obj, b: Behavior)
    ensures var w' := DeleteOne(c, w, o, b).w;
            Accounted(w, w') && w'.attempted == w.attempted + if c.oracle(w.t).waitOk then 1 else 0
  {
    hide Retry, Apply, PastWait;
    var w1 := Wait(c, w).0;
    RetryAccounts(c, Backoff.DefaultConfig(), w1.(attempted := w1.attempted + 1), o, b, 0);
  }

  lemma {:induction false} BatchAccounts(c: Context, w: World, batch: seq<Obj>, b: Behavior, i: nat)
    requires i <= |batch|
    ensures Accounted(w, DeleteBatch(c, w, batch, b, i).w)
    decreases |batch| - i
  {
    hide DeleteOne, Apply, PastWait;
    if i < |batch| {
      var (w1, done) := if i % BATCH_CHECK_INTERVAL == 0 then Done(c, w) else (w, false);
      if !done {
        DeleteOneAccounts(c, w1, batch[i], b);
        BatchAccounts(c, DeleteOne(c, w1, batch[i], b).w, batch, b, i + 1);
      }
    }
  }
}
