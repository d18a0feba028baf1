/** Double-checked creation: the rate limiters (getOrCreateRateLimiterShared in pkg/controller/shared.go), the
    evaluation services (pkg/controller/reconciler_evaluation.go) and the informers
    (pkg/controller/reconciler_informer.go) are all kept in a map that callers read under a read lock and fill under
    a write lock. Here any number of callers interleave at the granularity of those lock-delimited sections. */
module Creation {
  import opened Strings
  import opened Cluster
  import opened Safety
  import opened World
  import opened Evaluation
  import TargetCapability

  /** One lock-delimited section of one caller. The value a slow section would make is decided by the environment;
      None means that making it fails. Remove is the cleanup of a key. */
  datatype Event<V> =
    | Fast(caller: nat, key: string)
    | Slow(caller: nat, made: Option<V>)
    | Remove(key: string)

  /** The shared map, and the key of every caller that missed it and is on the way to the write lock. */
  datatype Sys<V> = Sys(stored: map<string, V>, missed: map<nat, string>)

  datatype Answer<V> = NoAnswer | Got(key: string, value: V) | Failed(key: string)

  /** The check under the read lock. */
  function FastSection<V>(s: Sys<V>, caller: nat, key: string): (Sys<V>, Answer<V>) {
    if caller in s.missed then (s, NoAnswer)
    else if key in s.stored then (s, Got(key, s.stored[key]))
    else (s.(missed := s.missed[caller := key]), NoAnswer)
  }

  /** The second check, the creation and the insertion under the write lock. */
  function SlowSection<V>(s: Sys<V>, caller: nat, made: Option<V>): (Sys<V>, Answer<V>) {
    if caller !in s.missed then (s, NoAnswer)
    else
      var key := s.missed[caller];
      var s1 := s.(missed := s.missed - {caller});
      if key in s.stored then (s1, Got(key, s.stored[key]))
      else
        match made
        case None => (s1, Failed(key))
        case Some(v) => (s1.(stored := s.stored[key := v]), Got(key, v))
  }

  function Step<V>(s: Sys<V>, e: Event<V>): (Sys<V>, Answer<V>) {
    match e
    case Fast(caller, key) => FastSection(s, caller, key)
    case Slow(caller, made) => SlowSection(s, caller, made)
    case Remove(key) => (s.(stored := s.stored - {key}), NoAnswer)
  }

  function After<V>(run: seq<Event<V>>): Sys<V> {
    if run == [] then Sys(map[], map[]) else var n := |run| - 1; Step(After(run[..n]), run[n]).0
  }

  function AnswerAt<V>(run: seq<Event<V>>, i: nat): Answer<V>
    requires i < |run|
  {
    Step(After(run[..i]), run[i]).1
  }

  // ----- the map as one caller uses it

  /** What a caller sees that nobody interrupts. */
  function GetOrCreate<V>(stored: map<string, V>, key: string, made: Option<V>): (map<string, V>, Option<V>) {
    if key in stored then (stored, Some(stored[key]))
    else if made.None? then (stored, None)
    else (stored[key := made.value], made)
  }

  class SharedMap<V> {
    var stored: map<string, V>

    constructor ()
      ensures stored == map[]
    {
      stored := map[];
    }

    /** Under the read lock. */
    method Lookup(key: string) returns (r: Option<V>)
      ensures r == if key in stored then Some(stored[key]) else None
    {
      r := if key in stored then Some(stored[key]) else None;
    }

    /** Under the write lock: the second check, then the insertion. */
    method LookupOrStore(key: string, made: Option<V>) returns (r: Option<V>)
      modifies this
      ensures (stored, r) == GetOrCreate(old(stored), key, made)
    {
      if key in stored {
        return Some(stored[key]);
      }
      if made.Some? {
        stored := stored[key := made.value];
      }
      r := made;
    }

    method Get(key: string, made: Option<V>) returns (r: Option<V>)
      modifies this
      ensures (stored, r) == GetOrCreate(old(stored), key, made)
    {
      r := Lookup(key);
      if r.None? {
        r := LookupOrStore(key, made);
      }
    }

    method Cleanup(key: string)
      modifies this
      ensures stored == old(stored) - {key}
    {
      if key in stored {
        stored := stored - {key};
      }
    }
  }

  /** The two sections in a row are the uninterrupted caller. */
  lemma UninterruptedCaller<V>(s: Sys<V>, caller: nat, key: string, made: Option<V>)
    requires caller !in s.missed
    ensures var (stored, r) := GetOrCreate(s.stored, key, made);
            var (s1, first) := Step(s, Fast(caller, key));
            var (s2, second) := Step(s1, Slow(caller, made));
            && s2 == Sys(stored, s.missed)
            && (if first.Got? then r == Some(first.value) && second.NoAnswer?
                else if second.Got? then r == Some(second.value)
                else second.Failed? && r.None?)
  {
    if key !in s.stored {
      assert s.missed[caller := key] - {caller} == s.missed;
    }
  }

  // ----- one object per key, whatever the interleaving

  predicate Removed<V(==)>(run: seq<Event<V>>, key: string, i: nat, j: nat)
    requires j <= |run|
  {
    exists m | i < m < j :: run[m] == Remove(key)
  }

  lemma {:induction false} GotStaysStored<V>(run: seq<Event<V>>, i: nat, j: nat)
    requires i < j <= |run| && AnswerAt(run, i).Got? && !Removed(run, AnswerAt(run, i).key, i, j)
    ensures var got := AnswerAt(run, i);
            got.key in After(run[..j]).stored && After(run[..j]).stored[got.key] == got.value
    decreases j
  {
    var n := j - 1;
    assert run[..j][..n] == run[..n];
    if i < n {
      GotStaysStored(run, i, n);
    }
  }

  /** Where a stored value comes from: the slow section that made it, with no cleanup of its key since. */
  ghost predicate MadeAt<V>(run: seq<Event<V>>, key: string, value: V, n: nat, j: nat)
    requires j <= |run|
  {
    && n < j && run[n].Slow? && run[n].made == Some(value)
    && AnswerAt(run, n) == Got(key, value) && !Removed(run, key, n, j)
  }

  lemma {:induction false} StoredWasMade<V>(run: seq<Event<V>>, key: string, j: nat) returns (n: nat)
    requires j <= |run| && key in After(run[..j]).stored
    ensures MadeAt(run, key, After(run[..j]).stored[key], n, j)
    decreases j
  {
    var last := j - 1;
    assert run[..j][..last] == run[..last];
    var before := After(run[..last]).stored;
    if key in before && before[key] == After(run[..j]).stored[key] {
      n := StoredWasMade(run, key, last);
      assert run[last] != Remove(key);
    } else {
      n := last;
    }
  }

  lemma GotWasMade<V>(run: seq<Event<V>>, i: nat) returns (n: nat)
    requires i < |run| && AnswerAt(run, i).Got?
    ensures n <= i && MadeAt(run, AnswerAt(run, i).key, AnswerAt(run, i).value, n, i + 1)
  {
    assert run[..i + 1][..i] == run[..i];
    n := StoredWasMade(run, AnswerAt(run, i).key, i + 1);
  }

  /** No value is made twice: every creation allocates a new object. */
  ghost predicate FreshValues<V(!new)>(run: seq<Event<V>>) {
    forall i, j :: 0 <= i < j < |run| && run[i].Slow? && run[j].Slow? && run[i].made.Some? ==>
      run[i].made != run[j].made
  }

  /** Under any interleaving, two callers that got something for the same key got the same object exactly if the key
      was not cleaned up in between. */
  lemma OneObjectPerKey<V(!new)>(run: seq<Event<V>>, i: nat, j: nat)
    requires FreshValues(run) && i < j < |run|
    requires AnswerAt(run, i).Got? && AnswerAt(run, j).Got? && AnswerAt(run, i).key == AnswerAt(run, j).key
    ensures AnswerAt(run, i).value == AnswerAt(run, j).value <==> !Removed(run, AnswerAt(run, i).key, i, j)
  {
    var key := AnswerAt(run, i).key;
    if !Removed(run, key, i, j) {
      GotStaysStored(run, i, j);
    } else {
      var m :| i < m < j && run[m] == Remove(key);
      var n := GotWasMade(run, i);
      var n' := GotWasMade(run, j);
      assert n <= i < m && !(n' < m);
    }
  }

  /** Callers of different keys never share an object. */
  lemma KeysDoNotShare<V(!new)>(run: seq<Event<V>>, i: nat, j: nat)
    requires FreshValues(run) && i < |run| && j < |run|
    requires AnswerAt(run, i).Got? && AnswerAt(run, j).Got? && AnswerAt(run, i).value == AnswerAt(run, j).value
    ensures AnswerAt(run, i).key == AnswerAt(run, j).key
  {
    var n := GotWasMade(run, i);
    var n' := GotWasMade(run, j);
    assert n == n';
  }

  /** Between two creations under one key lies a cleanup of that key: never do two objects stand side by side. */
  lemma CreatedOncePerEpoch<V(!new)>(run: seq<Event<V>>, n: nat, n': nat)
    requires FreshValues(run) && n < n' < |run| && run[n].Slow? && run[n'].Slow?
    requires AnswerAt(run, n).Got? && AnswerAt(run, n').Got? && AnswerAt(run, n).key == AnswerAt(run, n').key
    requires run[n].made == Some(AnswerAt(run, n).value) && run[n'].made == Some(AnswerAt(run, n').value)
    ensures Removed(run, AnswerAt(run, n).key, n, n')
  {
    OneObjectPerKey(run, n, n');
  }

  // ----- services over informers

  /** What the reconciler passes on to every service it builds; set once, when the reconciler is made. */
  datatype Wiring = Wiring(gate: Gate, configured: Option<int>)

  /** The fields of a service that its cycles depend on: the informer whose store it lists, its gate and its
      configuration. */
  datatype Service = Service(informer: nat, gate: Gate, configured: Option<int>)

  function Build(r: Wiring, informer: nat): Service {
    Service(informer, r.gate, r.configured)
  }

  /** Informers are named by numbers. A service is built, under the service lock, of an informer that was handed out
      for the same key at some earlier point; neither map is ever cleaned up. */
  datatype Joint = OfInformers(i: Event<nat>) | OfServices(s: Event<Service>)

  datatype Shared = Shared(informers: Sys<nat>, services: Sys<Service>, handedOut: set<(string, nat)>)

  function JointStep(s: Shared, e: Joint): Shared {
    match e
    case OfInformers(i) =>
      var (informers, answer) := Step(s.informers, i);
      s.(informers := informers, handedOut := s.handedOut + if answer.Got? then {(answer.key, answer.value)} else {})
    case OfServices(e1) => s.(services := Step(s.services, e1).0)
  }

  predicate Permitted(r: Wiring, s: Shared, e: Joint) {
    match e
    case OfInformers(i) => !i.Remove?
    case OfServices(Fast(_, _)) => true
    case OfServices(Remove(_)) => false
    case OfServices(Slow(caller, made)) =>
      made.Some? && caller in s.services.missed ==>
        (s.services.missed[caller], made.value.informer) in s.handedOut && made.value == Build(r, made.value.informer)
  }

  function JointAfter(run: seq<Joint>): Shared {
    if run == [] then Shared(Sys(map[], map[]), Sys(map[], map[]), {})
    else var n := |run| - 1; JointStep(JointAfter(run[..n]), run[n])
  }

  ghost predicate PermittedRun(r: Wiring, run: seq<Joint>) {
    forall i :: 0 <= i < |run| ==> Permitted(r, JointAfter(run[..i]), run[i])
  }

  /** Every informer handed out is still the one of its key, and every service is what the reconciler would build of
      it. */
  ghost predicate Consistent(r: Wiring, s: Shared) {
    && (forall p :: p in s.handedOut ==> p.0 in s.informers.stored && s.informers.stored[p.0] == p.1)
    && (forall k :: k in s.services.stored ==>
          var service := s.services.stored[k];
          (k, service.informer) in s.handedOut && service == Build(r, service.informer))
  }

  lemma JointStepConsistent(r: Wiring, s: Shared, e: Joint)
    requires Consistent(r, s) && Permitted(r, s, e)
    ensures Consistent(r, JointStep(s, e))
  {
  }

  lemma {:induction false} JointConsistent(r: Wiring, run: seq<Joint>)
    requires PermittedRun(r, run)
    ensures Consistent(r, JointAfter(run))
  {
    hide JointStep, Permitted, Consistent;
    if run == [] {
      EmptyConsistent(r);
    } else {
      var n := |run| - 1;
      assert forall i :: 0 <= i < n ==> run[..n][i] == run[i] && run[..n][..i] == run[..i];
      JointConsistent(r, run[..n]);
      JointStepConsistent(r, JointAfter(run[..n]), run[n]);
    }
  }

  lemma EmptyConsistent(r: Wiring)
    ensures Consistent(r, JointAfter([]))
  {
  }

  predicate NoSlashes(t: Target) {
    Free(t.kind, '/') && Free(t.ns, '/')
  }

  /** Service keys tell targets apart as long as kind and namespace hold no slash. */
  lemma ServiceKeyInjective(a: Target, b: Target)
    requires NoSlashes(a) && NoSlashes(b) && TargetCapability.ServiceKey(a) == TargetCapability.ServiceKey(b)
    ensures a.apiVersion == b.apiVersion && a.kind == b.kind && a.ns == b.ns
  {
    GlueLast(Glue(a.apiVersion, '/', a.kind), a.ns, Glue(b.apiVersion, '/', b.kind), b.ns, '/');
    GlueLast(a.apiVersion, a.kind, b.apiVersion, b.kind, '/');
  }

  /** With a slash in the kind they do not. */
  lemma ServiceKeyCollides(a: Target, b: Target)
    requires a.apiVersion == "v1" && a.kind == "x/y" && b.apiVersion == "v1/x" && b.kind == "y" && a.ns == b.ns
    ensures TargetCapability.ServiceKey(a) == TargetCapability.ServiceKey(b) && a.kind != b.kind
  {
    assert Glue("v1", '/', "x/y") == Glue("v1/x", '/', "y");
  }

  /** One cycle through a service: it plans with the service's own gate, store and configuration. */
  function CycleThrough(service: Service, c: Context, w: World, pol: Policy, stores: nat -> seq<Obj>): Cycle
    requires ResolveBatchSize(pol.behavior, service.configured) > 0
  {
    EvaluatePolicy(c.(gate := service.gate), w, Primary, pol, stores(service.informer), service.configured)
  }

  /** The service that policy b is given under its key, built for whatever policy a came first: a's target is b's,
      and the service is the one the reconciler would build for b now, of the informer b itself was handed (`own`).
      So it plans over b's own store with the reconciler's gate, the gate of the choke point. */
  lemma SharedServiceIsFresh(r: Wiring, run: seq<Joint>, own: nat, a: Target, b: Target)
    requires PermittedRun(r, run) && NoSlashes(a) && NoSlashes(b)
    requires var k := TargetCapability.ServiceKey(b);
             && TargetCapability.ServiceKey(a) == k
             && k in JointAfter(run).services.stored && (k, own) in JointAfter(run).handedOut
    ensures a.apiVersion == b.apiVersion && a.kind == b.kind && a.ns == b.ns
    ensures JointAfter(run).services.stored[TargetCapability.ServiceKey(b)] == Build(r, own)
  {
    ServiceKeyInjective(a, b);
    JointConsistent(r, run);
  }

  /** Hence the cycle of policy b through that service is the cycle of the other theorems, over b's own snapshot and
      with one gate for planning and deleting. */
  lemma SharedCycle(r: Wiring, run: seq<Joint>, own: nat, a: Target, pol: Policy, c: Context, w: World,
                    stores: nat -> seq<Obj>)
    requires PermittedRun(r, run) && NoSlashes(a) && NoSlashes(pol.target) && c.gate == r.gate
    requires var k := TargetCapability.ServiceKey(pol.target);
             && TargetCapability.ServiceKey(a) == k
             && k in JointAfter(run).services.stored && (k, own) in JointAfter(run).handedOut
    requires ResolveBatchSize(pol.behavior, r.configured) > 0
    ensures var service := JointAfter(run).services.stored[TargetCapability.ServiceKey(pol.target)];
            && ResolveBatchSize(pol.behavior, service.configured) > 0
            && CycleThrough(service, c, w, pol, stores) == EvaluatePolicy(c, w, Primary, pol, stores(own), r.configured)
  {
    hide EvaluatePolicy, PermittedRun;
    SharedServiceIsFresh(r, run, own, a, pol.target);
    assert c.(gate := r.gate) == c;
  }
}
