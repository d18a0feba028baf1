/** Which faults a deletion survives (deleteResourceWithBackoffShared in pkg/controller/shared.go). */
module Retrying {
  import opened Strings
  import opened Cluster
  import opened Safety
  import opened World
  import opened Deletion
  import opened Execution
  import Backoff

  /** What one attempt answers, from the tick of its wait and the tick of its live read and DELETE, when nobody else
      acts and the gate allows the object. */
  lemma AttemptExactly(c: Context, w: World, o: Obj, b: Behavior)
    requires Quiet(c) && Allows(c.gate, o, b)
    ensures var r, tick := Attempt(c, w, o, b), c.oracle(w.t + 1);
            if !c.oracle(w.t).waitOk then r.err == Some(WaitFailed) && r.w.live == w.live && r.w.t == w.t + 1
            else if b.dryRun then r.err == None && r.w.live == w.live && r.w.t == w.t + 1
            else
              && r.w.t == w.t + 2
              && if tick.get.Some? then
                   && r.err == (if tick.get.value == NotFound then None else Some(Api(tick.get.value)))
                   && r.w.live == w.live
                 else if !Stands(w.live, o) then r.err == None && r.w.live == w.live
                 else
                   && r.err == (if tick.del in {None, Some(NotFound)} then None else Some(Api(tick.del.value)))
                   && r.w.live == if tick.del.None? || tick.applied then w.live - {o.key} else w.live
  {
    QuietAdvance(c, w);
    if c.oracle(w.t).waitOk { QuietAdvance(c, Wait(c, w).0); }
  }

  /** The tick at which the k-th further attempt of a loop that starts at t reads and deletes, if all before it
      failed: a look at the context, a wait, the attempt itself, and another look before the sleep. */
  function AttemptTick(t: nat, k: nat): nat {
    t + 4 * k + 2
  }

  predicate Faulty(tick: Tick) {
    || tick.get in {Some(Timeout), Some(ServerTimeout), Some(TooManyRequests), Some(ServiceUnavailable)}
    || (tick.get.None? && !tick.applied &&
        tick.del in {Some(Timeout), Some(ServerTimeout), Some(TooManyRequests), Some(ServiceUnavailable)})
  }

  predicate FaultyAt(c: Context, t: nat, k: nat) {
    Faulty(c.oracle(AttemptTick(t, k)))
  }

  /** The first n attempts meet a transient fault, of the read or of a DELETE that takes no effect; the next meets
      none. */
  ghost predicate FaultyAtFirst(c: Context, t: nat, n: nat) {
    && (forall k: nat :: k < n ==> FaultyAt(c, t, k))
    && c.oracle(AttemptTick(t, n)).get.None? && c.oracle(AttemptTick(t, n)).del.None?
  }

  lemma FaultyLater(c: Context, t: nat, n: nat)
    requires FaultyAtFirst(c, t, n) && n > 0
    ensures FaultyAtFirst(c, t + 4, n - 1)
  {
    var t' := t + 4;
    forall k: nat | k < n - 1 ensures FaultyAt(c, t', k) {
      assert FaultyAt(c, t, k + 1);
      assert AttemptTick(t + 4, k) == AttemptTick(t, k + 1);
    }
    assert AttemptTick(t + 4, n - 1) == AttemptTick(t, n);
  }

  /** A standing object survives exactly if it meets at least as many transient faults in a row as there are
      attempts left: fewer are overcome and the answer is nil, more exhaust the schedule and leave the object alone.
      */
  lemma {:induction false} TransientFaults(c: Context, cfg: Backoff.Config, w: World, o: Obj, b: Behavior, step: nat,
                                           n: nat)
    requires Quiet(c) && WaitsSucceed(c) && NeverCancelled(c) && Steady(cfg)
    requires Allows(c.gate, o, b) && !b.dryRun && Stands(w.live, o) && step <= cfg.steps
    requires FaultyAtFirst(c, w.t, n)
    ensures var r := Retry(c, cfg, w, o, b, step);
            if n < cfg.steps - step then
              r.err.None? && r.w.live == w.live - {o.key} && |r.w.answers| == |w.answers| + n + 1
            else
              r.err == Some(Exhausted) && r.w.live == w.live && |r.w.answers| == |w.answers| + (cfg.steps - step)
    decreases cfg.steps - step
  {
    hide Attempt, Allows, Backoff.NextValue, FaultyAtFirst;
    if step < cfg.steps {
      QuietAdvance(c, w);
      assert !Now(c, w).done;
      var w1 := Advance(c, w);
      AttemptExactly(c, w1, o, b);
      AttemptAnswers(c, w1, o, b);
      var r := Attempt(c, w1, o, b);
      assert c.oracle(w1.t).waitOk;
      FirstAttempt(c, w.t, n);
      if n > 0 {
        QuietAdvance(c, r.w);
        assert !Now(c, r.w).done;
        var w2 := Advance(c, r.w);
        var w3 := w2.(slept := w2.slept + Backoff.NextValue(cfg, step));
        FaultyLater(c, w.t, n);
        TransientFaults(c, cfg, w3, o, b, step + 1, n - 1);
        assert Retry(c, cfg, w, o, b, step) == Retry(c, cfg, w3, o, b, step + 1);
      }
    }
  }

  lemma FirstAttempt(c: Context, t: nat, n: nat)
    requires FaultyAtFirst(c, t, n)
    ensures if n == 0 then c.oracle(t + 2).get.None? && c.oracle(t + 2).del.None? else Faulty(c.oracle(t + 2))
  {
    assert AttemptTick(t, 0) == t + 2;
    if n > 0 { assert FaultyAt(c, t, 0); }
  }

  lemma DefaultIsSteady()
    ensures Steady(Backoff.DefaultConfig())
  {
    forall k: nat | k < 5 ensures Backoff.NextValue(Backoff.DefaultConfig(), k) != 0 {
      Backoff.DefaultAnswer(k);
      Backoff.PowAtLeastOne(2, k);
    }
  }

  /** On the controller's schedule up to four transient faults are overcome, and five are not. */
  lemma FourFaultsAreOvercome(c: Context, w: World, o: Obj, b: Behavior, n: nat)
    requires Quiet(c) && WaitsSucceed(c) && NeverCancelled(c)
    requires Allows(c.gate, o, b) && !b.dryRun && Stands(w.live, o) && FaultyAtFirst(c, w.t, n)
    ensures RetryAll(c, w, o, b).err.None? <==> n <= 4
    ensures Stands(RetryAll(c, w, o, b).w.live, o) <==> n > 4
  {
    hide Retry, Allows, FaultyAtFirst;
    DefaultIsSteady();
    TransientFaults(c, Backoff.DefaultConfig(), w.(attempted := w.attempted + 1), o, b, 0, n);
  }

  /** Any other fault ends the loop at once with itself as the answer, and so does a failed wait. */
  lemma OtherFaultsEndTheLoop(c: Context, cfg: Backoff.Config, w: World, o: Obj, b: Behavior, step: nat)
    requires Quiet(c) && !c.oracle(w.t).done && step < cfg.steps && Allows(c.gate, o, b) && Stands(w.live, o)
    ensures var r, tick := Retry(c, cfg, w, o, b, step), c.oracle(w.t + 2);
            && (!c.oracle(w.t + 1).waitOk ==>
                  r.err == Some(WaitFailed) && r.w.live == w.live && |r.w.answers| == |w.answers| + 1)
            && (c.oracle(w.t + 1).waitOk && !b.dryRun && tick.get == Some(OtherError) ==>
                  r.err == Some(Api(OtherError)) && r.w.live == w.live && |r.w.answers| == |w.answers| + 1)
            && (c.oracle(w.t + 1).waitOk && !b.dryRun && tick.get.None? && tick.del == Some(OtherError) ==>
                  r.err == Some(Api(OtherError)) && |r.w.answers| == |w.answers| + 1)
  {
    hide Attempt, Allows;
    QuietAdvance(c, w);
    var w1 := Advance(c, w);
    AttemptExactly(c, w1, o, b);
    AttemptAnswers(c, w1, o, b);
  }
}
