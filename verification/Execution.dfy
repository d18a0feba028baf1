/** The two executors that issue receipts: ExecuteWithReceipt (pkg/controller/execution_path.go), which wraps the batch
    loop between two rounds of reads, and DeleteWithReceipt (pkg/controller/execution_receipt.go). */
module Execution {
  import opened Strings
  import opened Cluster
  import opened Safety
  import opened World
  import opened Deletion
  import opened Receipts
  import Backoff

  datatype Read = Found(obj: Obj) | Missing | ReadError(error: ApiError)

  function Get(c: Context, w: World, k: Key): (World, Read) {
    var w1 := Advance(c, w);
    var fault := Now(c, w).get;
    (w1, if fault == Some(NotFound) then Missing
         else if fault.Some? then ReadError(fault.value)
         else if k in w1.live then Found(w1.live[k])
         else Missing)
  }

  /** objectKey. */
  function ObjectKey(o: Obj): string {
    Glue(o.key.ns, '/', Glue(o.key.kind, '/', o.key.name))
  }

  /** The loop before execution: planned UIDs and presence, both by object key. */
  function PreRead(c: Context, w: World, batch: seq<Obj>, i: nat, uids: map<string, string>, present: map<string, bool>)
    : (World, map<string, string>, map<string, bool>)
    requires i <= |batch|
    decreases |batch| - i
  {
    if i == |batch| then (w, uids, present)
    else
      var o := batch[i];
      var (w1, read) := Get(c, w, o.key);
      PreRead(c, w1, batch, i + 1, uids[ObjectKey(o) := o.uid], present[ObjectKey(o) := read.Found?])
  }

  /** The observed class of one object. */
  function Classify(read: Read, plannedUid: string, wasPresent: bool): Class {
    match read
    case Missing => if wasPresent then Succeeded else AlreadyAbsent
    case ReadError(_) => Failed
    case Found(current) => if plannedUid != "" && current.uid != plannedUid then SkippedMismatch else Failed
  }

  function Lookup<T>(m: map<string, T>, k: string, zero: T): T {
    if k in m then m[k] else zero
  }

  /** The loop after execution. */
  function PostRead(c: Context, w: World, batch: seq<Obj>, uids: map<string, string>, present: map<string, bool>,
                    i: nat, results: seq<Result>): (World, seq<Result>)
    requires i <= |batch|
    decreases |batch| - i
  {
    if i == |batch| then (w, results)
    else
      var o := batch[i];
      var (w1, read) := Get(c, w, o.key);
      var k := ObjectKey(o);
      var result := Result(o.key, o.uid, Classify(read, Lookup(uids, k, ""), Lookup(present, k, false)));
      PostRead(c, w1, batch, uids, present, i + 1, results + [result])
  }

  datatype Executed = Executed(w: World, deleted: nat, errs: seq<Error>, receipt: Option<Receipt>)

  function Execute(c: Context, w: World, batch: seq<Obj>, policyUid: string, b: Behavior): Executed {
    if b.dryRun then
      var r := DeleteBatch(c, w, batch, b, 0);
      Executed(r.w, r.deleted, r.errs, None)
    else
      var (w1, uids, present) := PreRead(c, w, batch, 0, map[], map[]);
      var r := DeleteBatch(c, w1, batch, b, 0);
      var (w2, results) := PostRead(c, r.w, batch, uids, present, 0, []);
      Executed(w2, r.deleted, r.errs, Some(Receipt(policyUid, Sha256(DigestInput(batch)), results, OverallOf(results))))
  }

  /** One object of DeleteWithReceipt: read, compare UIDs, DELETE. */
  function DirectOne(c: Context, w: World, o: Obj): (World, Class) {
    var (w1, read) := Get(c, w, o.key);
    match read
    case Missing => (w1, AlreadyAbsent)
    case ReadError(_) => (w1, Failed)
    case Found(current) =>
      if o.uid != "" && current.uid != o.uid then (w1, SkippedMismatch)
      else
        var tick := Now(c, w);
        var live := Apply(w1.live, tick.gap);
        var live' := if tick.del.None? || tick.applied then live - {o.key} else live;
        var w2 := w1.(live := live', deletes := w1.deletes + 1);
        (w2, if tick.del == Some(NotFound) then AlreadyAbsent
             else if tick.del.Some? then Failed
             else if o.key !in live then AlreadyAbsent
             else Succeeded)
  }

  /** DeleteWithReceipt from index i on. */
  function Direct(c: Context, w: World, planned: seq<Obj>, i: nat, results: seq<Result>): (World, seq<Result>)
    requires i <= |planned|
    decreases |planned| - i
  {
    if i == |planned| then (w, results)
    else
      var (w1, class_) := DirectOne(c, w, planned[i]);
      Direct(c, w1, planned, i + 1, results + [Result(planned[i].key, planned[i].uid, class_)])
  }

  // ----- the deletion engine in a quiet environment

  /** The planned object is live under its planned UID. */
  predicate Stands(live: Live, o: Obj) {
    o.key in live && live[o.key].uid == o.uid
  }

  ghost predicate Struck(objs: seq<Obj>, k: Key, uid: string) {
    exists i :: 0 <= i < |objs| && objs[i].key == k && objs[i].uid == uid
  }

  /** What is left when exactly the standing objects of the list are gone. */
  ghost function Purge(live: Live, objs: seq<Obj>): Live {
    map k | k in live && !Struck(objs, k, live[k].uid) :: live[k]
  }

  lemma PurgeOne(live: Live, o: Obj)
    ensures Purge(live, [o]) == if Stands(live, o) then live - {o.key} else live
  {
    assert forall k, uid :: Struck([o], k, uid) <==> o.key == k && o.uid == uid by {
      forall k, uid | o.key == k && o.uid == uid ensures Struck([o], k, uid) { assert [o][0] == o; }
    }
  }

  lemma StruckConcat(a: seq<Obj>, b: seq<Obj>, k: Key, uid: string)
    ensures Struck(a + b, k, uid) <==> Struck(a, k, uid) || Struck(b, k, uid)
  {
    if i :| 0 <= i < |a| && a[i].key == k && a[i].uid == uid { assert (a + b)[i] == a[i]; }
    if i :| 0 <= i < |b| && b[i].key == k && b[i].uid == uid { assert (a + b)[|a| + i] == b[i]; }
  }

  lemma PurgeConcat(live: Live, a: seq<Obj>, b: seq<Obj>)
    ensures Purge(live, a + b) == Purge(Purge(live, a), b)
  {
    forall k | k in live
      ensures Struck(a + b, k, live[k].uid) <==> Struck(a, k, live[k].uid) || Struck(b, k, live[k].uid)
    {
      StruckConcat(a, b, k, live[k].uid);
    }
  }

  /** live' is live with some standing objects of the list removed. */
  ghost predicate Shrinks(live: Live, live': Live, objs: seq<Obj>) {
    && (forall k :: k in live' ==> k in live && live'[k] == live[k])
    && (forall k :: k in live && k !in live' ==> Struck(objs, k, live[k].uid))
  }

  /** Nothing but the planned object is touched, and only while it stands and may be deleted. */
  ghost predicate OnlyPlanned(c: Context, live: Live, live': Live, o: Obj, b: Behavior) {
    live' == live || (Stands(live, o) && !b.dryRun && Allows(c.gate, o, b) && live' == live - {o.key})
  }

  /** The choke point is reached and its reads answer. */
  ghost predicate Effective(c: Context, o: Obj, b: Behavior) {
    ReadsSucceed(c) && Allows(c.gate, o, b) && !b.dryRun
  }

  ghost predicate NoFaults(c: Context) {
    WaitsSucceed(c) && NeverCancelled(c) && HonestDeletes(c)
  }

  /** One attempt in a quiet environment. If it can be effective, "no error" means that the object is gone unless a
      DELETE answer lied, and an error that it stands unless an answer got lost. */
  lemma QuietAttempt(c: Context, w: World, o: Obj, b: Behavior)
    requires Quiet(c)
    ensures var r := Attempt(c, w, o, b);
            && OnlyPlanned(c, w.live, r.w.live, o, b)
            && r.err != Some(Api(NotFound))
            && (Effective(c, o, b) && TruthfulDeletes(c) && r.err.None? ==> !Stands(r.w.live, o))
            && (Effective(c, o, b) && WaitsSucceed(c) && HonestDeletes(c) ==>
                  if r.err.None? then !Stands(r.w.live, o) else Stands(w.live, o) && r.w.live == w.live)
            && (Calm(c) ==> r.err.None?)
  {
    QuietAdvance(c, w);
    var (w1, ok) := Wait(c, w);
    if ok && !b.dryRun {
      QuietAdvance(c, w1);
      var tick := Now(c, w1);
      assert HonestDeletes(c) ==> (tick.del.Some? ==> !tick.applied && tick.del.value != NotFound);
      assert TruthfulDeletes(c) ==> (tick.del == Some(NotFound) ==> tick.applied);
      assert ReadsSucceed(c) ==> tick.get.None?;
      assert DeletesSucceed(c) ==> tick.del.None?;
    }
  }

  lemma {:induction false} QuietRetry(c: Context, cfg: Backoff.Config, w: World, o: Obj, b: Behavior, step: nat)
    requires Quiet(c)
    ensures var r := Retry(c, cfg, w, o, b, step);
            && OnlyPlanned(c, w.live, r.w.live, o, b)
            && (Effective(c, o, b) && TruthfulDeletes(c) && r.err.None? ==> !Stands(r.w.live, o))
            && (Effective(c, o, b) && NoFaults(c) && (step < cfg.steps || Stands(w.live, o)) ==>
                  (r.err.None? <==> !Stands(r.w.live, o)))
            && (Calm(c) && step < cfg.steps ==> r.err.None?)
    decreases cfg.steps - step
  {
    hide Attempt, Effective, Allows;
    if step < cfg.steps {
      QuietAdvance(c, w);
      var w1 := Advance(c, w);
      QuietAttempt(c, w1, o, b);
      var r := Attempt(c, w1, o, b);
      QuietAdvance(c, r.w);
      var w2 := Advance(c, r.w);
      QuietRetry(c, cfg, w2.(slept := w2.slept + Backoff.NextValue(cfg, step)), o, b, step + 1);
    }
  }

  lemma QuietDeleteOne(c: Context, w: World, o: Obj, b: Behavior)
    requires Quiet(c)
    ensures var r := DeleteOne(c, w, o, b);
            && OnlyPlanned(c, w.live, r.w.live, o, b)
            && (Effective(c, o, b) && TruthfulDeletes(c) && r.err.None? ==> !Stands(r.w.live, o))
            && (Effective(c, o, b) && NoFaults(c) ==> (r.err.None? <==> !Stands(r.w.live, o)))
            && (Calm(c) ==> r.err.None?)
  {
    hide Retry, Effective, Allows;
    QuietAdvance(c, w);
    var (w1, ok) := Wait(c, w);
    QuietRetry(c, Backoff.DefaultConfig(), w1.(attempted := w1.attempted + 1), o, b, 0);
  }

  lemma ShrinksOne(c: Context, live: Live, live': Live, o: Obj, b: Behavior)
    requires OnlyPlanned(c, live, live', o, b)
    ensures Shrinks(live, live', [o]) && (b.dryRun ==> live' == live)
  {
    assert [o][0] == o;
    assert Struck([o], o.key, o.uid);
  }

  lemma ShrinksChain(live: Live, live1: Live, live2: Live, p: seq<Obj>, q: seq<Obj>)
    requires Shrinks(live, live1, p) && Shrinks(live1, live2, q)
    ensures Shrinks(live, live2, p + q)
  {
    forall k | k in live && k !in live2 ensures Struck(p + q, k, live[k].uid) {
      StruckConcat(p, q, k, live[k].uid);
    }
  }

  /** In a quiet environment a batch only ever removes its own standing objects; in dry run not even those. */
  lemma {:induction false} QuietBatch(c: Context, w: World, batch: seq<Obj>, b: Behavior, i: nat)
    requires Quiet(c) && i <= |batch|
    ensures Shrinks(w.live, DeleteBatch(c, w, batch, b, i).w.live, batch[i..])
    ensures b.dryRun ==> DeleteBatch(c, w, batch, b, i).w.live == w.live
    decreases |batch| - i
  {
    hide DeleteOne, OnlyPlanned, Effective, NoFaults;
    if i < |batch| {
      QuietAdvance(c, w);
      var (w1, done) := if i % BATCH_CHECK_INTERVAL == 0 then Done(c, w) else (w, false);
      if !done {
        hide Shrinks;
        QuietDeleteOne(c, w1, batch[i], b);
        var w2 := DeleteOne(c, w1, batch[i], b).w;
        ShrinksOne(c, w.live, w2.live, batch[i], b);
        QuietBatch(c, w2, batch, b, i + 1);
        assert batch[i..] == [batch[i]] + batch[i + 1..];
        ShrinksChain(w.live, w2.live, DeleteBatch(c, w2, batch, b, i + 1).w.live, [batch[i]], batch[i + 1..]);
      }
    }
  }

  // ----- receipts are exact

  ghost predicate DistinctKeys(batch: seq<Obj>) {
    forall i, j :: 0 <= i < j < |batch| ==> batch[i].key != batch[j].key
  }

  /** No slash in namespace and kind, and a UID to compare. */
  predicate WellNamed(o: Obj) {
    Free(o.key.ns, '/') && Free(o.key.kind, '/') && o.uid != ""
  }

  ghost predicate AllWellNamed(batch: seq<Obj>) {
    forall i :: 0 <= i < |batch| ==> WellNamed(batch[i])
  }

  lemma ObjectKeyInjective(o: Obj, p: Obj)
    requires WellNamed(o) && WellNamed(p) && ObjectKey(o) == ObjectKey(p)
    ensures o.key == p.key
  {
    GlueFirst(o.key.ns, Glue(o.key.kind, '/', o.key.name), p.key.ns, Glue(p.key.kind, '/', p.key.name), '/');
    GlueFirst(o.key.kind, o.key.name, p.key.kind, p.key.name, '/');
  }

  /** With distinct keys nothing but the object itself can strike its key. */
  lemma StruckByItself(batch: seq<Obj>, i: nat, live: Live)
    requires DistinctKeys(batch) && i < |batch|
    ensures var o := batch[i];
            o.key in live ==> (Struck(batch, o.key, live[o.key].uid) <==> Stands(live, o))
    ensures var o := batch[i];
            o.key in live ==> !Struck(batch[i + 1..], o.key, live[o.key].uid)
  {
    var o := batch[i];
    if o.key in live {
      var uid := live[o.key].uid;
      if j :| 0 <= j < |batch| && batch[j].key == o.key && batch[j].uid == uid {
        assert j == i;
      }
    }
  }

  /** The two loops of reads move past one tick per object and change nothing else. */
  lemma {:induction false} PreReadDrifts(c: Context, w: World, batch: seq<Obj>, i: nat, uids: map<string, string>,
                                         present: map<string, bool>)
    requires i <= |batch|
    ensures PreRead(c, w, batch, i, uids, present).0 == Drift(c, w, |batch| - i)
    decreases |batch| - i
  {
    if i < |batch| {
      var o := batch[i];
      var (w1, read) := Get(c, w, o.key);
      PreReadDrifts(c, w1, batch, i + 1, uids[ObjectKey(o) := o.uid], present[ObjectKey(o) := read.Found?]);
      DriftFirst(c, w, |batch| - i);
    }
  }

  lemma {:induction false} PostReadDrifts(c: Context, w: World, batch: seq<Obj>, uids: map<string, string>,
                                          present: map<string, bool>, i: nat, results: seq<Result>)
    requires i <= |batch|
    ensures PostRead(c, w, batch, uids, present, i, results).0 == Drift(c, w, |batch| - i)
    decreases |batch| - i
  {
    if i < |batch| {
      var o := batch[i];
      var (w1, read) := Get(c, w, o.key);
      var k := ObjectKey(o);
      var class_ := Classify(read, Lookup(uids, k, ""), Lookup(present, k, false));
      PostReadDrifts(c, w1, batch, uids, present, i + 1, results + [Result(o.key, o.uid, class_)]);
      DriftFirst(c, w, |batch| - i);
    }
  }

  /** Outside dry run, executing is deleting the batch between two rounds of reads. */
  lemma ExecuteIsBatch(c: Context, w: World, batch: seq<Obj>, policyUid: string, b: Behavior)
    requires !b.dryRun
    ensures var e := Execute(c, w, batch, policyUid, b);
            var r := DeleteBatch(c, Drift(c, w, |batch|), batch, b, 0);
            e.w == Drift(c, r.w, |batch|) && e.deleted == r.deleted && e.errs == r.errs && e.receipt.Some?
  {
    hide DeleteBatch, Drift;
    PreReadDrifts(c, w, batch, 0, map[], map[]);
    var (w1, uids, present) := PreRead(c, w, batch, 0, map[], map[]);
    PostReadDrifts(c, DeleteBatch(c, w1, batch, b, 0).w, batch, uids, present, 0, []);
  }

  /** What the maps of the first loop say about the objects below i: presence is recorded only for what was there,
      and, if the record is exact, for all of it. */
  ghost predicate Recorded(batch: seq<Obj>, live: Live, i: nat, uids: map<string, string>, present: map<string, bool>,
                           exact: bool)
    requires i <= |batch|
  {
    forall j :: 0 <= j < i ==>
      var k := ObjectKey(batch[j]);
      && k in uids && k in present && uids[k] == batch[j].uid
      && (present[k] ==> batch[j].key in live) && (exact && batch[j].key in live ==> present[k])
  }

  lemma {:induction false} PreReadRecords(c: Context, w: World, batch: seq<Obj>, i: nat, uids: map<string, string>,
                                          present: map<string, bool>, exact: bool)
    requires Quiet(c) && (exact ==> ReadsSucceed(c)) && DistinctKeys(batch) && AllWellNamed(batch)
    requires i <= |batch| && Recorded(batch, w.live, i, uids, present, exact)
    ensures var (w', uids', present') := PreRead(c, w, batch, i, uids, present);
            Recorded(batch, w.live, |batch|, uids', present', exact)
    decreases |batch| - i
  {
    if i < |batch| {
      QuietAdvance(c, w);
      assert exact ==> Now(c, w).get.None?;
      var o := batch[i];
      var (w1, read) := Get(c, w, o.key);
      forall j | 0 <= j < i ensures ObjectKey(batch[j]) != ObjectKey(o) {
        if ObjectKey(batch[j]) == ObjectKey(o) { ObjectKeyInjective(batch[j], o); }
      }
      PreReadRecords(c, w1, batch, i + 1, uids[ObjectKey(o) := o.uid], present[ObjectKey(o) := read.Found?], exact);
    }
  }

  /** The class an object deserves, from the cluster before and after. */
  function TrueClass(before: Live, after: Live, o: Obj): Class {
    if o.key !in before then AlreadyAbsent
    else if before[o.key].uid != o.uid then SkippedMismatch
    else if o.key in after then Failed
    else Succeeded
  }

  /** What a reported class vouches for. FAILED vouches for nothing: it also stands for a read that failed. */
  ghost predicate Vouched(before: Live, after: Live, o: Obj, class_: Class) {
    match class_
    case Succeeded => Stands(before, o) && o.key !in after
    case AlreadyAbsent => o.key !in after
    case SkippedMismatch => o.key in after && after[o.key].uid != o.uid
    case Failed => true
  }

  ghost predicate Told(before: Live, after: Live, o: Obj, r: Result, exact: bool) {
    && r.key == o.key && r.uid == o.uid
    && Vouched(before, after, o, r.class_)
    && (exact ==> r.class_ == TrueClass(before, after, o))
  }

  ghost predicate AllTold(before: Live, after: Live, batch: seq<Obj>, results: seq<Result>, exact: bool) {
    |results| <= |batch| && forall j :: 0 <= j < |results| ==> Told(before, after, batch[j], results[j], exact)
  }

  lemma ClassTells(before: Live, after: Live, batch: seq<Obj>, i: nat, read: Read, wasPresent: bool, exact: bool)
    requires i < |batch| && AllWellNamed(batch) && DistinctKeys(batch) && Shrinks(before, after, batch)
    requires read.Missing? ==> batch[i].key !in after
    requires read.Found? ==> batch[i].key in after && after[batch[i].key] == read.obj
    requires wasPresent ==> batch[i].key in before
    requires exact ==> !read.ReadError? && (batch[i].key in before ==> wasPresent)
    ensures var class_ := Classify(read, batch[i].uid, wasPresent);
            Told(before, after, batch[i], Result(batch[i].key, batch[i].uid, class_), exact)
  {
    StruckByItself(batch, i, before);
  }

  lemma {:induction false} PostReadTells(c: Context, before: Live, w: World, batch: seq<Obj>, uids: map<string, string>,
                                         present: map<string, bool>, i: nat, results: seq<Result>, exact: bool)
    requires Quiet(c) && HonestReads(c) && (exact ==> ReadsSucceed(c)) && AllWellNamed(batch) && DistinctKeys(batch)
    requires Recorded(batch, before, |batch|, uids, present, exact) && Shrinks(before, w.live, batch)
    requires i <= |batch| && |results| == i && AllTold(before, w.live, batch, results, exact)
    ensures var results' := PostRead(c, w, batch, uids, present, i, results).1;
            |results'| == |batch| && AllTold(before, w.live, batch, results', exact)
    decreases |batch| - i
  {
    hide Told, Shrinks, Classify;
    if i < |batch| {
      QuietAdvance(c, w);
      assert Now(c, w).get != Some(NotFound) && (exact ==> Now(c, w).get.None?);
      var o := batch[i];
      var (w1, read) := Get(c, w, o.key);
      var k := ObjectKey(o);
      var class_ := Classify(read, Lookup(uids, k, ""), Lookup(present, k, false));
      ClassTells(before, w.live, batch, i, read, Lookup(present, k, false), exact);
      PostReadTells(c, before, w1, batch, uids, present, i + 1, results + [Result(o.key, o.uid, class_)], exact);
    }
  }

  lemma ReceiptTells(c: Context, w: World, batch: seq<Obj>, policyUid: string, b: Behavior, exact: bool)
    requires Quiet(c) && HonestReads(c) && (exact ==> ReadsSucceed(c))
    requires !b.dryRun && DistinctKeys(batch) && AllWellNamed(batch)
    ensures var r := Execute(c, w, batch, policyUid, b);
            && r.receipt.Some?
            && |r.receipt.value.results| == |batch|
            && AllTold(w.live, r.w.live, batch, r.receipt.value.results, exact)
            && Shrinks(w.live, r.w.live, batch)
  {
    hide DeleteBatch, Shrinks, Told;
    var (w1, uids, present) := PreRead(c, w, batch, 0, map[], map[]);
    PreReadDrifts(c, w, batch, 0, map[], map[]);
    DriftTicks(c, w, |batch|);
    PreReadRecords(c, w, batch, 0, map[], map[], exact);
    var r := DeleteBatch(c, w1, batch, b, 0);
    QuietBatch(c, w1, batch, b, 0);
    assert batch[0..] == batch;
    PostReadDrifts(c, r.w, batch, uids, present, 0, []);
    DriftTicks(c, r.w, |batch|);
    PostReadTells(c, w.live, r.w, batch, uids, present, 0, [], exact);
  }

  ghost predicate ResultsExact(before: Live, after: Live, batch: seq<Obj>, results: seq<Result>) {
    && |results| <= |batch|
    && forall j :: 0 <= j < |results| ==>
         results[j] == Result(batch[j].key, batch[j].uid, TrueClass(before, after, batch[j]))
  }

  /** Receipts are exact. Nobody else acting and all reads answering, whatever the waits, the cancellations, the
      gate and the DELETE calls do: one result per planned object, in order, saying what really became of it. */
  lemma ReceiptExact(c: Context, w: World, batch: seq<Obj>, policyUid: string, b: Behavior)
    requires Quiet(c) && ReadsSucceed(c) && !b.dryRun && DistinctKeys(batch) && AllWellNamed(batch)
    ensures var r := Execute(c, w, batch, policyUid, b);
            && r.receipt.Some?
            && |r.receipt.value.results| == |batch|
            && ResultsExact(w.live, r.w.live, batch, r.receipt.value.results)
            && Shrinks(w.live, r.w.live, batch)
    ensures forall i :: 0 <= i < |batch| ==>
              var class_ := Execute(c, w, batch, policyUid, b).receipt.value.results[i].class_;
              var after := Execute(c, w, batch, policyUid, b).w.live;
              && (class_ == Succeeded <==> Stands(w.live, batch[i]) && batch[i].key !in after)
              && (class_ == AlreadyAbsent <==> batch[i].key !in w.live)
              && (class_ == SkippedMismatch <==> batch[i].key in w.live && !Stands(w.live, batch[i]))
              && (class_ == Failed <==> Stands(after, batch[i]))
  {
    hide Execute;
    SucceedingReadsAreHonest(c);
    ReceiptTells(c, w, batch, policyUid, b, true);
    forall i | 0 <= i < |batch| {
      StruckByItself(batch, i, w.live);
    }
  }

  lemma SucceedingReadsAreHonest(c: Context)
    requires ReadsSucceed(c)
    ensures HonestReads(c)
  {
    assert forall t: nat :: c.oracle(t).get.None?;
  }

  /** Receipts are sound even when reads fail. Nobody else acting and no read lying: one result per planned object,
      in order, and everything a class other than FAILED vouches for is so. */
  lemma ReceiptSound(c: Context, w: World, batch: seq<Obj>, policyUid: string, b: Behavior)
    requires Quiet(c) && HonestReads(c) && !b.dryRun && DistinctKeys(batch) && AllWellNamed(batch)
    ensures var r := Execute(c, w, batch, policyUid, b);
            && r.receipt.Some?
            && |r.receipt.value.results| == |batch|
            && (forall j :: 0 <= j < |batch| ==>
                  var result := r.receipt.value.results[j];
                  && result.key == batch[j].key && result.uid == batch[j].uid
                  && Vouched(w.live, r.w.live, batch[j], result.class_))
            && Shrinks(w.live, r.w.live, batch)
  {
    hide Execute, Shrinks, Vouched;
    ReceiptTells(c, w, batch, policyUid, b, false);
  }

  // ----- what a receipt says of itself

  /** Every receipt, in every environment: it is the policy's, its digest is that of the batch, and its overall
      status is failed if some result failed, else partial if some object was skipped, else succeeded. */
  lemma ReceiptHeader(c: Context, w: World, batch: seq<Obj>, policyUid: string, b: Behavior)
    ensures var receipt := Execute(c, w, batch, policyUid, b).receipt;
            && (receipt.None? <==> b.dryRun)
            && (receipt.Some? ==>
                  && receipt.value.policyUid == policyUid
                  && receipt.value.planDigest == Sha256(DigestInput(batch))
                  && |receipt.value.results| == |batch|
                  && HonestOverall(receipt.value.results, receipt.value.overall))
  {
    hide DeleteBatch, DigestInput;
    if !b.dryRun {
      var (w1, uids, present) := PreRead(c, w, batch, 0, map[], map[]);
      var r := DeleteBatch(c, w1, batch, b, 0);
      PostReadLength(c, r.w, batch, uids, present, 0, []);
      OverallExactly(PostRead(c, r.w, batch, uids, present, 0, []).1);
    }
  }

  lemma {:induction false} PostReadLength(c: Context, w: World, batch: seq<Obj>, uids: map<string, string>,
                                          present: map<string, bool>, i: nat, results: seq<Result>)
    requires i <= |batch| && |results| == i
    ensures |PostRead(c, w, batch, uids, present, i, results).1| == |batch|
    decreases |batch| - i
  {
    if i < |batch| {
      var o := batch[i];
      var (w1, read) := Get(c, w, o.key);
      var k := ObjectKey(o);
      var class_ := Classify(read, Lookup(uids, k, ""), Lookup(present, k, false));
      PostReadLength(c, w1, batch, uids, present, i + 1, results + [Result(o.key, o.uid, class_)]);
    }
  }

  /** Without a planned UID there is nothing to mismatch: in every environment, a batch of objects that carry none
      has no result SKIPPED, whatever is found under their names. */
  lemma NoUidNoMismatch(c: Context, w: World, batch: seq<Obj>, policyUid: string, b: Behavior)
    requires forall i :: 0 <= i < |batch| ==> batch[i].uid == ""
    ensures var receipt := Execute(c, w, batch, policyUid, b).receipt;
            receipt.Some? ==> receipt.value.overall != OverallPartial && NoneSkipped(receipt.value.results)
  {
    hide DeleteBatch, DigestInput, PreRead, PostRead;
    if !b.dryRun {
      var (w1, uids, present) := PreRead(c, w, batch, 0, map[], map[]);
      PreReadUnnamed(c, w, batch, 0, map[], map[]);
      var r := DeleteBatch(c, w1, batch, b, 0);
      PostReadUnnamed(c, r.w, batch, uids, present, 0, []);
      OverallExactly(PostRead(c, r.w, batch, uids, present, 0, []).1);
    }
  }

  ghost predicate NoneSkipped(results: seq<Result>) {
    forall i :: 0 <= i < |results| ==> results[i].class_ != SkippedMismatch
  }

  ghost predicate Unnamed(uids: map<string, string>) {
    forall k :: k in uids ==> uids[k] == ""
  }

  lemma {:induction false} PreReadUnnamed(c: Context, w: World, batch: seq<Obj>, i: nat, uids: map<string, string>,
                                          present: map<string, bool>)
    requires i <= |batch| && Unnamed(uids) && forall i :: 0 <= i < |batch| ==> batch[i].uid == ""
    ensures Unnamed(PreRead(c, w, batch, i, uids, present).1)
    decreases |batch| - i
  {
    hide ObjectKey;
    if i < |batch| {
      var o := batch[i];
      var (w1, read) := Get(c, w, o.key);
      PreReadUnnamed(c, w1, batch, i + 1, uids[ObjectKey(o) := o.uid], present[ObjectKey(o) := read.Found?]);
    }
  }

  lemma {:induction false} PostReadUnnamed(c: Context, w: World, batch: seq<Obj>, uids: map<string, string>,
                                           present: map<string, bool>, i: nat, results: seq<Result>)
    requires i <= |batch| && Unnamed(uids) && NoneSkipped(results)
    ensures NoneSkipped(PostRead(c, w, batch, uids, present, i, results).1)
    decreases |batch| - i
  {
    hide ObjectKey;
    if i < |batch| {
      var o := batch[i];
      var (w1, read) := Get(c, w, o.key);
      var k := ObjectKey(o);
      var class_ := Classify(read, Lookup(uids, k, ""), Lookup(present, k, false));
      PostReadUnnamed(c, w1, batch, uids, present, i + 1, results + [Result(o.key, o.uid, class_)]);
    }
  }

  // ----- counts agree with the receipt

  function CountFailed(results: seq<Result>): nat {
    if results == [] then 0
    else CountFailed(results[..|results| - 1]) + if results[|results| - 1].class_ == Failed then 1 else 0
  }

  /** How many of batch[i..] stand. */
  function CountStanding(live: Live, batch: seq<Obj>, i: nat): nat
    requires i <= |batch|
    decreases |batch| - i
  {
    if i == |batch| then 0 else (if Stands(live, batch[i]) then 1 else 0) + CountStanding(live, batch, i + 1)
  }

  /** How many objects the batch loop reports an error for although they do not stand any more: a DELETE took effect
      and its answer got lost, or a wait failed over an object that was not there. */
  function ErredThoughGone(c: Context, w: World, batch: seq<Obj>, b: Behavior, i: nat): nat
    requires i <= |batch|
    decreases |batch| - i
  {
    if i == |batch| then 0
    else
      var (w1, done) := if i % BATCH_CHECK_INTERVAL == 0 then Done(c, w) else (w, false);
      if done then 0
      else
        var r := DeleteOne(c, w1, batch[i], b);
        (if r.err.Some? && !Stands(r.w.live, batch[i]) then 1 else 0) + ErredThoughGone(c, r.w, batch, b, i + 1)
  }

  /** The rest of the batch never touches an earlier key. */
  lemma RestKeepsStanding(c: Context, w: World, batch: seq<Obj>, b: Behavior, i: nat)
    requires Quiet(c) && DistinctKeys(batch) && i < |batch|
    ensures Stands(DeleteBatch(c, w, batch, b, i + 1).w.live, batch[i]) <==> Stands(w.live, batch[i])
  {
    hide DeleteBatch;
    QuietBatch(c, w, batch, b, i + 1);
    StruckByItself(batch, i, w.live);
  }

  lemma NoErrorMeansGone(c: Context, w: World, o: Obj, b: Behavior)
    requires Quiet(c) && ReadsSucceed(c) && TruthfulDeletes(c) && !b.dryRun && Allows(c.gate, o, b)
    ensures var r := DeleteOne(c, w, o, b); r.w.processed == w.processed + 1 && (r.err.None? ==> !Stands(r.w.live, o))
  {
    hide DeleteOne;
    QuietDeleteOne(c, w, o, b);
    DeleteOneProcesses(c, w, o, b);
  }

  /** Among the objects the loop got through, the errors are those still standing and those erred though gone. */
  lemma {:induction false} BatchErrors(c: Context, w: World, batch: seq<Obj>, b: Behavior, i: nat)
    requires Quiet(c) && ReadsSucceed(c) && TruthfulDeletes(c) && !b.dryRun
    requires i <= |batch| && DistinctKeys(batch) && forall j :: 0 <= j < |batch| ==> Allows(c.gate, batch[j], b)
    ensures var r := DeleteBatch(c, w, batch, b, i);
            var through := i + (r.w.processed - w.processed);
            && i <= through <= |batch|
            && |r.errs| + CountStanding(r.w.live, batch, through) ==
                 CountStanding(r.w.live, batch, i) + ErredThoughGone(c, w, batch, b, i)
    decreases |batch| - i
  {
    hide DeleteOne, Allows, Stands, DistinctKeys, Apply;
    if i < |batch| {
      var (w1, done) := if i % BATCH_CHECK_INTERVAL == 0 then Done(c, w) else (w, false);
      if !done {
        NoErrorMeansGone(c, w1, batch[i], b);
        var r := DeleteOne(c, w1, batch[i], b);
        BatchErrors(c, r.w, batch, b, i + 1);
        RestKeepsStanding(c, r.w, batch, b, i);
      }
    }
  }

  /** Without faults nothing errs though gone. */
  lemma {:induction false} NoneErredThoughGone(c: Context, w: World, batch: seq<Obj>, b: Behavior, i: nat)
    requires Quiet(c) && ReadsSucceed(c) && NoFaults(c) && !b.dryRun
    requires i <= |batch| && forall j :: 0 <= j < |batch| ==> Allows(c.gate, batch[j], b)
    ensures ErredThoughGone(c, w, batch, b, i) == 0
    decreases |batch| - i
  {
    hide DeleteOne, Allows, NoFaults;
    if i < |batch| {
      var (w1, done) := if i % BATCH_CHECK_INTERVAL == 0 then Done(c, w) else (w, false);
      QuietDeleteOne(c, w1, batch[i], b);
      NoneErredThoughGone(c, DeleteOne(c, w1, batch[i], b).w, batch, b, i + 1);
    }
  }

  /** A DELETE that took effect and whose answer got lost: an error for an object that is gone. */
  lemma LostAnswerErrs(c: Context, w: World, o: Obj, b: Behavior)
    requires Allows(c.gate, o, b) && Stands(w.live, o)
    requires Now(c, w) == Tick([], [], false, true, None, Some(OtherError), true, 0, 0)
    ensures var r := Perform(c, w, o, b); r.err == Some(Api(OtherError)) && r.w.live == w.live - {o.key}
  {
    assert Apply(w.live, []) == w.live;
  }

  lemma {:induction false} FailedAreStanding(before: Live, after: Live, batch: seq<Obj>, results: seq<Result>, i: nat)
    requires i <= |batch| == |results| && ResultsExact(before, after, batch, results) && Shrinks(before, after, batch)
    ensures CountFailed(results) == CountFailed(results[..i]) + CountStanding(after, batch, i)
    decreases |batch| - i
  {
    if i == |batch| {
      assert results[..i] == results;
    } else {
      FailedAreStanding(before, after, batch, results, i + 1);
      assert results[..i + 1][..i] == results[..i];
    }
  }

  /** The counts against the receipt, for a gate-filtered batch in a quiet environment with succeeding reads,
      whatever waits and DELETE calls do and wherever the loop is cancelled: the errors and the standing objects it
      never got to are the FAILED results and the objects that erred though gone. Everything else it got through
      counts as deleted. */
  lemma CountsMatchReceipt(c: Context, w: World, batch: seq<Obj>, policyUid: string, b: Behavior)
    requires Quiet(c) && ReadsSucceed(c) && TruthfulDeletes(c) && !b.dryRun
    requires DistinctKeys(batch) && AllWellNamed(batch) && forall j :: 0 <= j < |batch| ==> Allows(c.gate, batch[j], b)
    ensures var r := Execute(c, w, batch, policyUid, b);
            var through := r.w.processed - w.processed;
            && r.receipt.Some? && 0 <= through <= |batch|
            && |r.errs| + CountStanding(r.w.live, batch, through) ==
                 CountFailed(r.receipt.value.results) + ErredThoughGone(c, Drift(c, w, |batch|), batch, b, 0)
            && r.deleted + |r.errs| == through
  {
    hide DeleteBatch, Allows, Execute, ErredThoughGone, CountStanding, CountFailed;
    var w1 := Drift(c, w, |batch|);
    var r := DeleteBatch(c, w1, batch, b, 0);
    var e := Execute(c, w, batch, policyUid, b);
    ExecuteIsBatch(c, w, batch, policyUid, b);
    DriftTicks(c, w, |batch|);
    DriftTicks(c, r.w, |batch|);
    ReceiptExact(c, w, batch, policyUid, b);
    BatchErrors(c, w1, batch, b, 0);
    BatchConserves(c, w1, batch, b, 0);
    FailedAreStanding(w.live, e.w.live, batch, e.receipt.value.results, 0);
    NothingFailed(e.receipt.value.results[..0]);
  }

  lemma NothingFailed(results: seq<Result>)
    requires |results| == 0
    ensures CountFailed(results) == 0
  {
  }

  /** Uncancelled and without faults the error count is the number of FAILED results, and deleted is the rest. */
  lemma CountsMatchWithoutFaults(c: Context, w: World, batch: seq<Obj>, policyUid: string, b: Behavior)
    requires Quiet(c) && ReadsSucceed(c) && NoFaults(c) && !b.dryRun
    requires DistinctKeys(batch) && AllWellNamed(batch) && forall j :: 0 <= j < |batch| ==> Allows(c.gate, batch[j], b)
    ensures var r := Execute(c, w, batch, policyUid, b);
            && r.receipt.Some?
            && |r.errs| == CountFailed(r.receipt.value.results)
            && r.deleted == |batch| - |r.errs|
  {
    hide DeleteBatch, Allows, ErredThoughGone;
    assert TruthfulDeletes(c) by {
      assert HonestDeletes(c);
      assert forall t: nat :: c.oracle(t).del.Some? ==> c.oracle(t).del.value != NotFound;
    }
    CountsMatchReceipt(c, w, batch, policyUid, b);
    hide Execute;
    NoneErredThoughGone(c, Drift(c, w, |batch|), batch, b, 0);
    ExecuteIsBatch(c, w, batch, policyUid, b);
    DriftTicks(c, w, |batch|);
    BatchConserves(c, Drift(c, w, |batch|), batch, b, 0);
    DriftTicks(c, DeleteBatch(c, Drift(c, w, |batch|), batch, b, 0).w, |batch|);
  }

  /** A dry run deletes nothing, counts nothing as deleted and leaves no receipt, in every environment. */
  lemma DryRunLaw(c: Context, w: World, batch: seq<Obj>, policyUid: string, b: Behavior)
    requires b.dryRun && Keyed(w.live)
    ensures var r := Execute(c, w, batch, policyUid, b);
            r.receipt.None? && r.deleted == 0 && r.w.log == w.log && (Quiet(c) ==> r.w.live == w.live)
  {
    hide DeleteBatch;
    BatchFollows(c, w, batch, b, 0);
    BatchConserves(c, w, batch, b, 0);
    if Quiet(c) { QuietBatch(c, w, batch, b, 0); }
    var log := DeleteBatch(c, w, batch, b, 0).w.log;
    assert |log| > |w.log| ==> Lawful(c, log[|w.log|]);
    assert log == w.log;
  }

  // ----- the executor without gate, limiter and retries

  /** What it reports of one object and does to it, from the tick of its read and DELETE, in every environment. */
  lemma DirectExactly(c: Context, w: World, o: Obj)
    ensures var (w', class_) := DirectOne(c, w, o);
            var tick := c.oracle(w.t);
            var before := Apply(w.live, tick.env);
            var atDelete := Apply(before, tick.gap);
            if tick.get.Some? && tick.get.value != NotFound then class_ == Failed && w'.live == before
            else if tick.get == Some(NotFound) || o.key !in before then class_ == AlreadyAbsent && w'.live == before
            else if o.uid != "" && before[o.key].uid != o.uid then class_ == SkippedMismatch && w'.live == before
            else
              && (class_ == Succeeded <==> tick.del.None? && o.key in atDelete)
              && (class_ == AlreadyAbsent <==> tick.del == Some(NotFound) || (tick.del.None? && o.key !in atDelete))
              && (class_ == Failed <==> tick.del.Some? && tick.del.value != NotFound)
              && w'.live == (if tick.del.None? || tick.applied then atDelete - {o.key} else atDelete)
  {
    hide Apply;
  }
}
