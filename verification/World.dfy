/** The world the deletion engine runs in. Every interaction with something outside the engine (an API call, the
    rate limiter, the context, a timer, the clock) consumes one tick of an oracle. The oracle is an arbitrary infinite
    sequence, so a statement about all oracles is a statement about every environment and every API answer. */
module World {
  import opened Strings
  import opened Cluster
  import opened Safety
  import Ttl

  datatype ApiError = Timeout | ServerTimeout | TooManyRequests | ServiceUnavailable | NotFound | OtherError

  datatype Error = Api(error: ApiError) | WaitFailed | Cancelled | Exhausted

  /** One tick. `env` happens before the interaction; `gap` between a live read and the DELETE that follows it.
      `get` and `del` are API faults; a faulted DELETE may have taken effect all the same (`applied`). */
  datatype Tick = Tick(
    env: seq<Act>,
    gap: seq<Act>,
    done: bool,
    waitOk: bool,
    get: Option<ApiError>,
    del: Option<ApiError>,
    applied: bool,
    now1: int,
    now2: int)

  type Oracle = nat -> Tick

  /** What does not change during a run. */
  datatype Context = Context(oracle: Oracle, gate: Gate, parse: Ttl.TimestampParser)

  /** An object the controller removed: what it planned on, what was really there, what happened in the gap, and the
      position in the oracle right behind the attempt's own tick. */
  datatype Removal = Removal(planned: Obj, victim: Obj, behavior: Behavior, gap: seq<Act>, at: nat)

  /** The cluster, the position in the oracle, and what a bystander would have counted. */
  datatype World = World(
    live: Live,
    t: nat,
    tokens: nat,                    // successful waits on the rate limiter
    attempted: nat,                 // objects handed to the retry loop
    deletes: nat,                   // DELETE calls
    processed: nat,                 // objects a batch loop is through with
    slept: int,                     // nanoseconds asked of timers
    answers: seq<Option<Error>>,    // the answer of every single deletion attempt
    log: seq<Removal>)              // everything the controller removed

  function Now(c: Context, w: World): Tick {
    c.oracle(w.t)
  }

  /** Moves past one tick. */
  function Advance(c: Context, w: World): World {
    w.(live := Apply(w.live, Now(c, w).env), t := w.t + 1)
  }

  /** Moves past n ticks. */
  function Drift(c: Context, w: World, n: nat): World {
    if n == 0 then w else Advance(c, Drift(c, w, n - 1))
  }

  function Remove(w: World, planned: Obj, b: Behavior, gap: seq<Act>): World
    requires planned.key in w.live
  {
    w.(live := w.live - {planned.key}, log := w.log + [Removal(planned, w.live[planned.key], b, gap, w.t)])
  }

  // ----- restrictions on the oracle that single theorems ask for

  ghost predicate Quiet(c: Context) {
    forall t: nat :: c.oracle(t).env == [] && c.oracle(t).gap == []
  }

  ghost predicate ReadsSucceed(c: Context) {
    forall t: nat :: c.oracle(t).get.None?
  }

  /** A read may fail, but it never reports "not found" for an object that is there. */
  ghost predicate HonestReads(c: Context) {
    forall t: nat :: c.oracle(t).get != Some(NotFound)
  }

  ghost predicate WaitsSucceed(c: Context) {
    forall t: nat :: c.oracle(t).waitOk
  }

  ghost predicate NeverCancelled(c: Context) {
    forall t: nat :: !c.oracle(t).done
  }

  /** A DELETE that a fault answers with "not found" has taken effect; other faults may go either way. */
  ghost predicate TruthfulDeletes(c: Context) {
    forall t: nat :: c.oracle(t).del == Some(NotFound) ==> c.oracle(t).applied
  }

  /** A faulted DELETE took no effect and is not reported as "not found". */
  ghost predicate HonestDeletes(c: Context) {
    forall t: nat :: c.oracle(t).del.Some? ==> !c.oracle(t).applied && c.oracle(t).del.value != NotFound
  }

  ghost predicate DeletesSucceed(c: Context) {
    forall t: nat :: c.oracle(t).del.None?
  }

  /** Nothing goes wrong and nobody else acts. */
  ghost predicate Calm(c: Context) {
    Quiet(c) && ReadsSucceed(c) && WaitsSucceed(c) && NeverCancelled(c) && DeletesSucceed(c)
  }

  // ----- drifting

  lemma QuietAdvance(c: Context, w: World)
    requires Quiet(c)
    ensures Advance(c, w) == w.(t := w.t + 1)
    ensures Now(c, w).gap == []
  {
    assert c.oracle(w.t).env == [];
  }

  lemma {:induction false} DriftTicks(c: Context, w: World, n: nat)
    ensures Drift(c, w, n) == w.(live := Drift(c, w, n).live, t := w.t + n)
    ensures Keyed(w.live) ==> Keyed(Drift(c, w, n).live)
    ensures Quiet(c) ==> Drift(c, w, n).live == w.live
  {
    if n > 0 {
      DriftTicks(c, w, n - 1);
      if Keyed(w.live) { ApplyKeyed(Drift(c, w, n - 1).live, Now(c, Drift(c, w, n - 1)).env); }
      if Quiet(c) { QuietAdvance(c, Drift(c, w, n - 1)); }
    }
  }

  lemma {:induction false} DriftOn(c: Context, w: World, m: nat, n: nat)
    ensures Drift(c, Drift(c, w, m), n) == Drift(c, w, m + n)
  {
    if n > 0 { DriftOn(c, w, m, n - 1); }
  }

  lemma DriftFirst(c: Context, w: World, n: nat)
    requires n > 0
    ensures Drift(c, Advance(c, w), n - 1) == Drift(c, w, n)
  {
    assert Drift(c, w, 1) == Advance(c, Drift(c, w, 0));
    DriftOn(c, w, 1, n - 1);
  }

  /** A tick lets the others act first: what they did last to a key is what the cluster then says of it. */
  lemma OthersActFirst(c: Context, w: World, k: Key)
    ensures var live := Advance(c, w).live;
            match LastAt(c.oracle(w.t).env, k)
            case None => (k in live <==> k in w.live) && (k in live ==> live[k] == w.live[k])
            case Some(Drop(_)) => k !in live
            case Some(Put(o)) => k in live && live[k] == o
    ensures Advance(c, w).t == w.t + 1
  {
    ApplyAt(w.live, c.oracle(w.t).env, k);
  }
}
