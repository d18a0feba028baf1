/** The GVR resolver and its cache (pkg/controller/gvr_resolver.go), with callers interleaving between the look into
    the cache, the question to the mapper and the write into the cache. */
module GvrResolver {
  import opened Strings

  datatype Gvk = Gvk(group: string, version: string, kind: string)

  datatype Gvr = Gvr(group: string, version: string, resource: string)

  /** What the RESTMapper answers at an instant; None is an error, and a missing mapper is one that only has errors. */
  type Mapper = (nat, Gvk) -> Option<Gvr>

  /** validation.PluralizeKind. */
  type Pluralizer = string -> string

  function Plural(plural: Pluralizer, k: Gvk): Gvr {
    Gvr(k.group, k.version, plural(k.kind))
  }

  /** The resolver without a cache. */
  function Uncached(mapper: Mapper, plural: Pluralizer, at: nat, k: Gvk): Gvr {
    match mapper(at, k)
    case Some(r) => r
    case None => Plural(plural, k)
  }

  // ----- one caller

  function Resolve(cache: map<Gvk, Gvr>, plural: Pluralizer, k: Gvk, mapped: Option<Gvr>): (map<Gvk, Gvr>, Gvr) {
    if k in cache then (cache, cache[k])
    else
      match mapped
      case None => (cache, Plural(plural, k))
      case Some(r) => (cache[k := r], r)
  }

  class Resolver {
    const mapper: Mapper
    const plural: Pluralizer
    var cache: map<Gvk, Gvr>

    constructor (mapper: Mapper, plural: Pluralizer)
      ensures this.mapper == mapper && this.plural == plural && cache == map[]
    {
      this.mapper, this.plural, cache := mapper, plural, map[];
    }

    method ResolveGVR(k: Gvk, at: nat) returns (r: Gvr)
      modifies this`cache
      ensures (cache, r) == Resolve(old(cache), plural, k, mapper(at, k))
    {
      if k in cache {
        return cache[k];
      }
      var mapped := mapper(at, k);
      if mapped.None? {
        return Plural(plural, k);
      }
      cache := cache[k := mapped.value];
      r := mapped.value;
    }
  }

  // ----- any number of callers

  /** A section of one caller, and the instant it happens. */
  datatype Event =
    | Look(caller: nat, k: Gvk, at: nat)
    | Ask(caller: nat, at: nat)
    | Write(caller: nat, at: nat)

  datatype Progress = Missed(k: Gvk) | Confirmed(k: Gvk, r: Gvr)

  datatype State = State(cache: map<Gvk, Gvr>, callers: map<nat, Progress>)

  datatype Answer = NoAnswer | Answer(k: Gvk, r: Gvr)

  function Step(mapper: Mapper, plural: Pluralizer, s: State, e: Event): (State, Answer) {
    match e
    case Look(caller, k, _) =>
      if caller in s.callers then (s, NoAnswer)
      else if k in s.cache then (s, Answer(k, s.cache[k]))
      else (s.(callers := s.callers[caller := Missed(k)]), NoAnswer)
    case Ask(caller, at) =>
      if caller !in s.callers || !s.callers[caller].Missed? then (s, NoAnswer)
      else
        var k := s.callers[caller].k;
        var mapped := mapper(at, k);
        if mapped.None? then (s.(callers := s.callers - {caller}), Answer(k, Plural(plural, k)))
        else (s.(callers := s.callers[caller := Confirmed(k, mapped.value)]), NoAnswer)
    case Write(caller, _) =>
      if caller !in s.callers || !s.callers[caller].Confirmed? then (s, NoAnswer)
      else
        var p := s.callers[caller];
        (State(s.cache[p.k := p.r], s.callers - {caller}), Answer(p.k, p.r))
  }

  function After(mapper: Mapper, plural: Pluralizer, run: seq<Event>): State {
    if run == [] then State(map[], map[])
    else var n := |run| - 1; Step(mapper, plural, After(mapper, plural, run[..n]), run[n]).0
  }

  function AnswerAt(mapper: Mapper, plural: Pluralizer, run: seq<Event>, i: nat): Answer
    requires i < |run|
  {
    Step(mapper, plural, After(mapper, plural, run[..i]), run[i]).1
  }

  ghost predicate InOrder(run: seq<Event>) {
    forall i, j :: 0 <= i < j < |run| ==> run[i].at <= run[j].at
  }

  /** The three sections in a row are the uninterrupted caller. */
  lemma UninterruptedCaller(mapper: Mapper, plural: Pluralizer, s: State, caller: nat, k: Gvk, at: nat)
    requires caller !in s.callers
    ensures var (cache, r) := Resolve(s.cache, plural, k, mapper(at, k));
            var (s1, a1) := Step(mapper, plural, s, Look(caller, k, at));
            var (s2, a2) := Step(mapper, plural, s1, Ask(caller, at));
            var (s3, a3) := Step(mapper, plural, s2, Write(caller, at));
            && s3 == State(cache, s.callers)
            && (if a1.Answer? then a1.r == r else if a2.Answer? then a2.r == r else a3 == Answer(k, r))
  {
    if k !in s.cache {
      assert s.callers[caller := Missed(k)] - {caller} == s.callers;
      if mapper(at, k).Some? {
        assert s.callers[caller := Missed(k)][caller := Confirmed(k, mapper(at, k).value)] - {caller} == s.callers;
      }
    }
  }

  // ----- the cache agrees with what it caches

  /** The mapper itself gave this answer at some point of the run. */
  ghost predicate Witnessed(mapper: Mapper, run: seq<Event>, k: Gvk, r: Gvr) {
    exists i :: 0 <= i < |run| && mapper(run[i].at, k) == Some(r)
  }

  lemma WitnessedLonger(mapper: Mapper, run: seq<Event>, n: nat, k: Gvk, r: Gvr)
    requires n <= |run| && Witnessed(mapper, run[..n], k, r)
    ensures Witnessed(mapper, run, k, r)
  {
    var i :| 0 <= i < n && mapper(run[..n][i].at, k) == Some(r);
    assert run[i] == run[..n][i];
  }

  /** Whatever the mapper does, everything cached and everything about to be was an answer of the mapper: a plural
      never gets in. */
  ghost predicate AllWitnessed(mapper: Mapper, run: seq<Event>, s: State) {
    && (forall k :: k in s.cache ==> Witnessed(mapper, run, k, s.cache[k]))
    && (forall t :: t in s.callers && s.callers[t].Confirmed? ==>
          Witnessed(mapper, run, s.callers[t].k, s.callers[t].r))
  }

  lemma {:induction false} CacheWitnessed(mapper: Mapper, plural: Pluralizer, run: seq<Event>)
    ensures AllWitnessed(mapper, run, After(mapper, plural, run))
  {
    if run != [] {
      var n := |run| - 1;
      var e := run[n];
      var s := After(mapper, plural, run[..n]);
      CacheWitnessed(mapper, plural, run[..n]);
      forall k, r | Witnessed(mapper, run[..n], k, r) ensures Witnessed(mapper, run, k, r) {
        WitnessedLonger(mapper, run, n, k, r);
      }
      if e.Ask? && e.caller in s.callers {
        var k := s.callers[e.caller].k;
        assert mapper(e.at, k).Some? ==> Witnessed(mapper, run, k, mapper(e.at, k).value);
      }
    }
  }

  /** At every point of every run the resolver answers what one without a cache would answer at that instant. */
  ghost predicate Transparent(mapper: Mapper, plural: Pluralizer) {
    forall run, i :: InOrder(run) && 0 <= i < |run| ==> TrueAt(mapper, plural, run, i)
  }

  ghost predicate TrueAt(mapper: Mapper, plural: Pluralizer, run: seq<Event>, i: nat)
    requires i < |run|
  {
    var answer := AnswerAt(mapper, plural, run, i);
    answer.Answer? ==> answer.r == Uncached(mapper, plural, run[i].at, answer.k)
  }

  /** Once the mapper has given an answer, an uncached resolver keeps giving it. */
  ghost predicate KeepsItsWord(mapper: Mapper, plural: Pluralizer) {
    forall t, t', k :: t <= t' && mapper(t, k).Some? ==> Uncached(mapper, plural, t', k) == mapper(t, k).value
  }

  lemma AnswersAreTrue(mapper: Mapper, plural: Pluralizer, run: seq<Event>, i: nat)
    requires KeepsItsWord(mapper, plural) && InOrder(run) && i < |run|
    ensures TrueAt(mapper, plural, run, i)
  {
    hide Uncached;
    CacheWitnessed(mapper, plural, run[..i]);
    forall k, r | Witnessed(mapper, run[..i], k, r) ensures Uncached(mapper, plural, run[i].at, k) == r {
      var j :| 0 <= j < i && mapper(run[..i][j].at, k) == Some(r);
      assert run[j].at <= run[i].at;
    }
    FallbackIsUncached(mapper, plural);
  }

  lemma FallbackIsUncached(mapper: Mapper, plural: Pluralizer)
    ensures forall at, k :: mapper(at, k).None? ==> Uncached(mapper, plural, at, k) == Plural(plural, k)
  {
  }

  /** A mapper that changes its mind is answered from the cache with its old word. */
  lemma OldWordShows(mapper: Mapper, plural: Pluralizer, k: Gvk, t: nat, t': nat) returns (run: seq<Event>)
    requires t <= t' && mapper(t, k).Some?
    ensures |run| == 4 && InOrder(run) && run[3].at == t'
    ensures AnswerAt(mapper, plural, run, 3) == Answer(k, mapper(t, k).value)
  {
    run := [Look(0, k, t), Ask(0, t), Write(0, t), Look(0, k, t')];
    assert run[..3][..2] == run[..2] && run[..2][..1] == run[..1] && run[..1][..0] == [];
    assert After(mapper, plural, run[..1]) == State(map[], map[0 := Missed(k)]);
    assert After(mapper, plural, run[..2]) == State(map[], map[0 := Confirmed(k, mapper(t, k).value)]);
    assert After(mapper, plural, run[..3]).cache == map[k := mapper(t, k).value];
  }

  /** The cache is invisible exactly for the mappers whose answers, once given, stand. */
  lemma TransparentExactly(mapper: Mapper, plural: Pluralizer)
    ensures Transparent(mapper, plural) <==> KeepsItsWord(mapper, plural)
  {
    if KeepsItsWord(mapper, plural) {
      forall run, i | InOrder(run) && 0 <= i < |run| ensures TrueAt(mapper, plural, run, i) {
        AnswersAreTrue(mapper, plural, run, i);
      }
    }
    if Transparent(mapper, plural) {
      forall t, t', k | t <= t' && mapper(t, k).Some? ensures Uncached(mapper, plural, t', k) == mapper(t, k).value {
        var run := OldWordShows(mapper, plural, k, t, t');
        assert TrueAt(mapper, plural, run, 3);
      }
    }
  }

  /** In particular for a mapper that never changes an answer. */
  lemma StableIsTransparent(mapper: Mapper, plural: Pluralizer)
    requires forall t, t', k :: t <= t' && mapper(t, k).Some? ==> mapper(t', k) == mapper(t, k)
    ensures Transparent(mapper, plural)
  {
    TransparentExactly(mapper, plural);
  }

  /** The fallback keeps group and version and pluralises the kind; it is given exactly where the mapper fails at
      the very instant it is asked. */
  lemma FallbackExactly(mapper: Mapper, plural: Pluralizer, s: State, caller: nat, at: nat)
    requires caller in s.callers && s.callers[caller].Missed?
    ensures var k := s.callers[caller].k;
            var (s', answer) := Step(mapper, plural, s, Ask(caller, at));
            && (mapper(at, k).None? <==> answer == Answer(k, Gvr(k.group, k.version, plural(k.kind))))
            && (mapper(at, k).Some? <==> answer.NoAnswer?)
            && s'.cache == s.cache
  {
  }
}
