/** The parts of an execution receipt that do not touch the cluster: result classes, the overall status and the plan
    digest (pkg/controller/execution_receipt.go). */
module Receipts {
  import opened Strings
  import opened Cluster

  datatype Class = Succeeded | AlreadyAbsent | SkippedMismatch | Failed

  datatype Result = Result(key: Key, uid: string, class_: Class)

  datatype Overall = OverallSucceeded | OverallPartial | OverallFailed

  /** A digest, known only by what was hashed: SHA-256 itself stays uninterpreted. */
  datatype Digest = Sha256(input: string)

  datatype Receipt = Receipt(policyUid: string, planDigest: Digest, results: seq<Result>, overall: Overall)

  // ----- overall status

  predicate Has(results: seq<Result>, class_: Class) {
    exists i :: 0 <= i < |results| && results[i].class_ == class_
  }

  /** The overall law: failed if anything failed, else partial if anything was skipped. */
  function OverallOf(results: seq<Result>): Overall {
    if Has(results, Failed) then OverallFailed
    else if Has(results, SkippedMismatch) then OverallPartial
    else OverallSucceeded
  }

  method ComputeOverall(results: seq<Result>) returns (status: Overall)
    ensures status == OverallOf(results)
  {
    status := OverallSucceeded;
    for i := 0 to |results|
      invariant !Has(results[..i], Failed)
      invariant status == if Has(results[..i], SkippedMismatch) then OverallPartial else OverallSucceeded
    {
      assert results[..i + 1] == results[..i] + [results[i]];
      match results[i].class_ {
        case Failed => return OverallFailed;
        case SkippedMismatch =>
          assert results[..i + 1][i].class_ == SkippedMismatch;
          status := OverallPartial;
        case _ =>
      }
      assert Has(results[..i], SkippedMismatch) ==> Has(results[..i + 1], SkippedMismatch) by {
        if j :| 0 <= j < i && results[..i][j].class_ == SkippedMismatch {
          assert results[..i + 1][j].class_ == SkippedMismatch;
        }
      }
    }
    assert results[..|results|] == results;
  }

  /** FAILED over PARTIAL over SUCCEEDED. */
  function Join(a: Overall, b: Overall): Overall {
    if a.OverallFailed? || b.OverallFailed? then OverallFailed
    else if a.OverallPartial? || b.OverallPartial? then OverallPartial
    else OverallSucceeded
  }

  lemma HasConcat(a: seq<Result>, b: seq<Result>, class_: Class)
    ensures Has(a + b, class_) <==> Has(a, class_) || Has(b, class_)
  {
    if i :| 0 <= i < |a| && a[i].class_ == class_ { assert (a + b)[i].class_ == class_; }
    if i :| 0 <= i < |b| && b[i].class_ == class_ { assert (a + b)[|a| + i].class_ == class_; }
  }

  /** The status of two receipts put together is the worse of the two. */
  lemma OverallConcat(a: seq<Result>, b: seq<Result>)
    ensures OverallOf(a + b) == Join(OverallOf(a), OverallOf(b))
  {
    HasConcat(a, b, Failed);
    HasConcat(a, b, SkippedMismatch);
  }

  lemma HasPermuted(a: seq<Result>, b: seq<Result>, class_: Class)
    requires multiset(a) == multiset(b) && Has(a, class_)
    ensures Has(b, class_)
  {
    var i :| 0 <= i < |a| && a[i].class_ == class_;
    assert a[i] in multiset(a);
    assert a[i] in b;
  }

  /** The order of the results does not matter. */
  lemma OverallPermuted(a: seq<Result>, b: seq<Result>)
    requires multiset(a) == multiset(b)
    ensures OverallOf(a) == OverallOf(b)
  {
    forall class_ ensures Has(a, class_) <==> Has(b, class_) {
      if Has(a, class_) { HasPermuted(a, b, class_); }
      if Has(b, class_) { HasPermuted(b, a, class_); }
    }
  }

  /** The overall status, result by result. */
  ghost predicate HonestOverall(results: seq<Result>, overall: Overall) {
    && (overall.OverallFailed? <==> exists i :: 0 <= i < |results| && results[i].class_ == Failed)
    && (overall.OverallPartial? <==>
          && (exists i :: 0 <= i < |results| && results[i].class_ == SkippedMismatch)
          && (forall i :: 0 <= i < |results| ==> results[i].class_ != Failed))
    && (overall.OverallSucceeded? <==>
          forall i :: 0 <= i < |results| ==> results[i].class_ in {Succeeded, AlreadyAbsent})
  }

  lemma OverallExactly(results: seq<Result>)
    ensures HonestOverall(results, OverallOf(results))
  {
  }

  // ----- plan digest

  datatype Identity = Identity(key: Key, uid: string)

  function IdentityOf(o: Obj): Identity {
    Identity(o.key, o.uid)
  }

  /** namespace/kind/name/uid. */
  function IdString(x: Identity): string {
    Glue(x.key.ns, '/', Glue(x.key.kind, '/', Glue(x.key.name, '/', x.uid)))
  }

  function Identities(plan: seq<Obj>): seq<Identity> {
    if plan == [] then [] else [IdentityOf(plan[0])] + Identities(plan[1..])
  }

  function IdStrings(xs: seq<Identity>): seq<string> {
    if xs == [] then [] else [IdString(xs[0])] + IdStrings(xs[1..])
  }

  function JoinSpaces(ss: seq<string>): string {
    if ss == [] then ""
    else if |ss| == 1 then ss[0]
    else Glue(ss[0], ' ', JoinSpaces(ss[1..]))
  }

  /** fmt.Sprintf("%v", ids) of the sorted identifiers. */
  function DigestInput(plan: seq<Obj>): string {
    "[" + JoinSpaces(Sort(IdStrings(Identities(plan)))) + "]"
  }

  method PlanDigest(plan: seq<Obj>) returns (d: Digest)
    ensures d == Sha256(DigestInput(plan))
  {
    var ids: seq<string> := [];
    for i := 0 to |plan|
      invariant ids + IdStrings(Identities(plan[i..])) == IdStrings(Identities(plan))
    {
      assert plan[i..][1..] == plan[i + 1..];
      ids := ids + [IdString(IdentityOf(plan[i]))];
    }
    assert ids == IdStrings(Identities(plan));
    ids := Sort(ids);
    d := Sha256("[" + JoinSpaces(ids) + "]");
  }

  /** No separator inside the identifier: a slash may stand in the UID only, a space nowhere. */
  predicate CleanIdentity(x: Identity) {
    && Free(x.key.ns, '/') && Free(x.key.kind, '/') && Free(x.key.name, '/')
    && Free(x.key.ns, ' ') && Free(x.key.kind, ' ') && Free(x.key.name, ' ') && Free(x.uid, ' ')
  }

  lemma IdStringInjective(x: Identity, y: Identity)
    requires CleanIdentity(x) && CleanIdentity(y) && IdString(x) == IdString(y)
    ensures x == y
  {
    var x2, y2 := Glue(x.key.name, '/', x.uid), Glue(y.key.name, '/', y.uid);
    var x1, y1 := Glue(x.key.kind, '/', x2), Glue(y.key.kind, '/', y2);
    GlueFirst(x.key.ns, x1, y.key.ns, y1, '/');
    GlueFirst(x.key.kind, x2, y.key.kind, y2, '/');
    GlueFirst(x.key.name, x.uid, y.key.name, y.uid, '/');
  }

  ghost predicate Words(ss: seq<string>) {
    forall i :: 0 <= i < |ss| ==> ss[i] != "" && Free(ss[i], ' ')
  }

  lemma JoinSpacesShape(ss: seq<string>)
    requires Words(ss)
    ensures ss == [] <==> JoinSpaces(ss) == ""
    ensures |ss| <= 1 <==> Free(JoinSpaces(ss), ' ')
  {
    if |ss| > 1 { assert JoinSpaces(ss)[|ss[0]|] == ' '; }
  }

  lemma {:induction false} JoinSpacesInjective(a: seq<string>, b: seq<string>)
    requires Words(a) && Words(b) && JoinSpaces(a) == JoinSpaces(b)
    ensures a == b
  {
    JoinSpacesShape(a);
    JoinSpacesShape(b);
    if |a| == 1 {
      assert a == [a[0]] && b == [b[0]];
    } else if |a| > 1 {
      GlueFirst(a[0], JoinSpaces(a[1..]), b[0], JoinSpaces(b[1..]), ' ');
      JoinSpacesInjective(a[1..], b[1..]);
      assert a == [a[0]] + a[1..] && b == [b[0]] + b[1..];
    }
  }

  ghost predicate AllClean(xs: seq<Identity>) {
    forall i :: 0 <= i < |xs| ==> CleanIdentity(xs[i])
  }

  lemma {:induction false} IdStringsShape(xs: seq<Identity>)
    ensures |IdStrings(xs)| == |xs| && forall i :: 0 <= i < |xs| ==> IdStrings(xs)[i] == IdString(xs[i])
  {
    if xs != [] { IdStringsShape(xs[1..]); }
  }

  /** An identifier occurs among the strings as often as the identity occurs in the plan. */
  lemma {:induction false} CountIdString(xs: seq<Identity>, x: Identity)
    requires AllClean(xs) && CleanIdentity(x)
    ensures multiset(IdStrings(xs))[IdString(x)] == multiset(xs)[x]
  {
    if xs != [] {
      CountIdString(xs[1..], x);
      assert xs == [xs[0]] + xs[1..];
      if IdString(xs[0]) == IdString(x) { IdStringInjective(xs[0], x); }
    }
  }

  lemma StringsOfSame(xs: seq<Identity>, ys: seq<Identity>, s: string)
    requires AllClean(xs) && AllClean(ys) && multiset(xs) == multiset(ys) && s in IdStrings(xs)
    ensures multiset(IdStrings(xs))[s] == multiset(IdStrings(ys))[s]
  {
    IdStringsShape(xs);
    var i :| 0 <= i < |IdStrings(xs)| && IdStrings(xs)[i] == s;
    CountIdString(xs, xs[i]);
    CountIdString(ys, xs[i]);
  }

  lemma SameStringsOf(xs: seq<Identity>, ys: seq<Identity>, x: Identity)
    requires AllClean(xs) && AllClean(ys) && multiset(IdStrings(xs)) == multiset(IdStrings(ys)) && x in xs
    ensures multiset(xs)[x] == multiset(ys)[x]
  {
    CountIdString(xs, x);
    CountIdString(ys, x);
  }

  lemma IdStringsMultiset(xs: seq<Identity>, ys: seq<Identity>)
    requires AllClean(xs) && AllClean(ys)
    ensures multiset(IdStrings(xs)) == multiset(IdStrings(ys)) <==> multiset(xs) == multiset(ys)
  {
    hide IdStrings, AllClean;
    var a, b := IdStrings(xs), IdStrings(ys);
    if multiset(xs) == multiset(ys) {
      forall s ensures multiset(a)[s] == multiset(b)[s] {
        if s in a { StringsOfSame(xs, ys, s); } else if s in b { StringsOfSame(ys, xs, s); }
      }
    }
    if multiset(a) == multiset(b) {
      forall x ensures multiset(xs)[x] == multiset(ys)[x] {
        if x in xs { SameStringsOf(xs, ys, x); } else if x in ys { SameStringsOf(ys, xs, x); }
      }
    }
  }

  lemma WordsPermuted(a: seq<string>, b: seq<string>)
    requires multiset(a) == multiset(b) && Words(a)
    ensures Words(b)
  {
    forall i | 0 <= i < |b| ensures b[i] != "" && Free(b[i], ' ') {
      assert b[i] in multiset(b);
      assert b[i] in a;
    }
  }

  lemma IdStringsAreWords(xs: seq<Identity>)
    requires AllClean(xs)
    ensures Words(IdStrings(xs))
  {
    IdStringsShape(xs);
    forall i | 0 <= i < |xs| ensures IdString(xs[i]) != "" && Free(IdString(xs[i]), ' ') {
      assert CleanIdentity(xs[i]);
    }
  }

  lemma SortedWords(xs: seq<Identity>)
    requires AllClean(xs)
    ensures Words(Sort(IdStrings(xs)))
  {
    IdStringsAreWords(xs);
    SortSorts(IdStrings(xs));
    WordsPermuted(IdStrings(xs), Sort(IdStrings(xs)));
  }

  /** The digest input is a canonical form: two plans hash the same text exactly when they name the same objects the
      same number of times, in whatever order. */
  lemma DigestCanonical(p: seq<Obj>, q: seq<Obj>)
    requires AllClean(Identities(p)) && AllClean(Identities(q))
    ensures DigestInput(p) == DigestInput(q) <==> multiset(Identities(p)) == multiset(Identities(q))
  {
    var xs, ys := Identities(p), Identities(q);
    var a, b := Sort(IdStrings(xs)), Sort(IdStrings(ys));
    IdStringsMultiset(xs, ys);
    SortCanonical(IdStrings(xs), IdStrings(ys));
    SortedWords(xs);
    SortedWords(ys);
    if DigestInput(p) == DigestInput(q) {
      assert DigestInput(p)[1..|DigestInput(p)| - 1] == JoinSpaces(a);
      assert DigestInput(q)[1..|DigestInput(q)| - 1] == JoinSpaces(b);
      JoinSpacesInjective(a, b);
    }
  }

  lemma OneIdString(o: Obj)
    ensures IdStrings(Identities([o])) == [IdString(IdentityOf(o))]
  {
    var x := IdentityOf(o);
    assert [o][1..] == [] && Identities([o]) == [x];
    assert [x][1..] == [];
  }

  /** The text for one object. */
  lemma DigestOfOne(o: Obj)
    ensures DigestInput([o]) == "[" + o.key.ns + "/" + o.key.kind + "/" + o.key.name + "/" + o.uid + "]"
  {
    var id := IdString(IdentityOf(o));
    OneIdString(o);
    assert [id][1..] == [] && Sort([id]) == [id];
    assert id == o.key.ns + "/" + (o.key.kind + "/" + (o.key.name + "/" + o.uid));
  }

  /** The text for two: the smaller identifier comes first, with one space in between. */
  lemma DigestOfTwo(o: Obj, p: Obj)
    requires Le(IdString(IdentityOf(o)), IdString(IdentityOf(p)))
    ensures DigestInput([o, p]) == "[" + IdString(IdentityOf(o)) + " " + IdString(IdentityOf(p)) + "]"
  {
    hide Le, IdString;
    var x, y := IdentityOf(o), IdentityOf(p);
    OneIdString(p);
    assert [o, p][1..] == [p];
    assert Identities([o, p]) == [x] + Identities([p]);
    assert ([x] + Identities([p]))[1..] == Identities([p]);
    var ids := IdStrings(Identities([o, p]));
    assert ids == [IdString(x)] + [IdString(y)];
    assert ids[1..] == [IdString(y)] && [IdString(y)][1..] == [] && Sort([IdString(y)]) == [IdString(y)];
    assert Sort(ids) == ids;
    assert JoinSpaces(ids) == IdString(x) + " " + IdString(y);
  }
}
