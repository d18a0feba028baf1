/** TTL evaluation (internal/ttl/evaluator.go) and the expiry decision built on it
    (pkg/controller/evaluate_policy_refactored.go). Instants are nanoseconds after the zero time.Time. */
module Ttl {
  import opened Strings
  import opened Cluster
  import opened Arithmetic
  import FieldPath

  /** time.Parse(time.RFC3339, _): section 5.6 of RFC 3339, left abstract. */
  type TimestampParser = string -> Option<int>

  datatype TtlError =
    | NoValidConfiguration
    | FieldPathNotFound
    | NoMapping
    | TimestampNotFound
    | InvalidTimestamp
    | AlreadyExpired

  datatype Expiration = At(instant: int) | Failed(error: TtlError)

  datatype Reason = TtlExpired | NotExpired | NoTtl | ConditionNotMet

  const SECOND := 1_000_000_000

  /** Two's complement wrap-around of int64. */
  function Wrap64(x: int): int {
    (x + TWO_63) % TWO_64 - TWO_63
  }

  /** time.Duration(seconds) * time.Second. */
  function Nanos(seconds: Int64): int {
    Wrap64(seconds * SECOND)
  }

  function FixedExpiration(o: Obj, spec: TtlSpec): Option<Expiration> {
    match spec.secondsAfterCreation
    case None => None
    case Some(seconds) => Some(At(o.created + Nanos(seconds)))
  }

  function MappedTtl(spec: TtlSpec, value: string): Option<Int64> {
    if value in spec.mappings then Some(spec.mappings[value]) else spec.fallback
  }

  function FieldExpiration(o: Obj, spec: TtlSpec): Option<Expiration> {
    if spec.fieldPath == "" then None
    else
      var path := FieldPath.Parsed(spec.fieldPath);
      var number := NestedNumber(o, path);
      if number.Some? then Some(At(o.created + Nanos(number.value)))
      else
        var text := NestedText(o, path);
        if text.Some? && |spec.mappings| > 0 then
          match MappedTtl(spec, text.value)
          case None => Some(Failed(NoMapping))
          case Some(seconds) => Some(At(o.created + Nanos(seconds)))
        else if text.None? && spec.fallback.Some? then Some(At(o.created + Nanos(spec.fallback.value)))
        else Some(Failed(FieldPathNotFound))
  }

  function RelativeExpiration(parse: TimestampParser, o: Obj, spec: TtlSpec, now: int): Option<Expiration> {
    if spec.relativeTo == "" || spec.secondsAfter.None? then None
    else
      match NestedText(o, FieldPath.Parsed(spec.relativeTo))
      case None => Some(Failed(TimestampNotFound))
      case Some(text) =>
        match parse(text)
        case None => Some(Failed(InvalidTimestamp))
        case Some(timestamp) =>
          var expiration := timestamp + Nanos(spec.secondsAfter.value);
          if now > expiration then Some(Failed(AlreadyExpired)) else Some(At(expiration))
  }

  function CalculateExpiration(parse: TimestampParser, o: Obj, spec: TtlSpec, now: int): Expiration {
    var fixed := FixedExpiration(o, spec);
    if fixed.Some? then fixed.value
    else
      var field := FieldExpiration(o, spec);
      if field.Some? then field.value
      else
        var relative := RelativeExpiration(parse, o, spec, now);
        if relative.Some? then relative.value else Failed(NoValidConfiguration)
  }

  /** shouldDelete without its conditions. The clock is read twice: now1 inside the relative mode, now2 for the
      final comparison. */
  function ShouldDelete(parse: TimestampParser, o: Obj, spec: TtlSpec, now1: int, now2: int): (bool, Reason) {
    match CalculateExpiration(parse, o, spec, now1)
    case Failed(AlreadyExpired) => (true, TtlExpired)
    case Failed(_) => (false, NoTtl)
    case At(instant) =>
      if instant == 0 then (false, NoTtl)
      else if now2 > instant then (true, TtlExpired)
      else (false, NotExpired)
  }

  /** IsExpired of the ttl package: an error in the relative mode instead of an answer. */
  function IsExpired(parse: TimestampParser, o: Obj, spec: TtlSpec, now1: int, now2: int): Option<bool> {
    match CalculateExpiration(parse, o, spec, now1)
    case Failed(_) => None
    case At(instant) => Some(instant != 0 && now2 > instant)
  }

  // ----- the reference: one due instant, and no clock

  ghost predicate RelativeMode(spec: TtlSpec) {
    spec.secondsAfterCreation.None? && spec.fieldPath == "" && spec.relativeTo != "" && spec.secondsAfter.Some?
  }

  /** The seconds a field-mode policy grants the object. */
  ghost function FieldSeconds(o: Obj, spec: TtlSpec): Option<Int64> {
    var path := FieldPath.Parsed(spec.fieldPath);
    match (NestedNumber(o, path), NestedText(o, path))
    case (Some(n), _) => Some(n)
    case (None, Some(text)) =>
      if |spec.mappings| == 0 then None
      else if text in spec.mappings then Some(spec.mappings[text])
      else if spec.fallback.Some? then Some(spec.fallback.value)
      else None
    case (None, None) => if spec.fallback.Some? then Some(spec.fallback.value) else None
  }

  /** When the object falls due: the first configured mode decides, also when it yields nothing. */
  ghost function Due(parse: TimestampParser, o: Obj, spec: TtlSpec): Option<int> {
    if spec.secondsAfterCreation.Some? then Some(o.created + Nanos(spec.secondsAfterCreation.value))
    else if spec.fieldPath != "" then
      match FieldSeconds(o, spec)
      case None => None
      case Some(seconds) => Some(o.created + Nanos(seconds))
    else if RelativeMode(spec) then
      match NestedText(o, FieldPath.Parsed(spec.relativeTo))
      case None => None
      case Some(text) =>
        match parse(text)
        case None => None
        case Some(timestamp) => Some(timestamp + Nanos(spec.secondsAfter.value))
    else None
  }

  /** The decision is one comparison of the second clock reading with the due instant. The one exception is the
      zero instant, which counts as "no TTL" except where the relative mode already reported it as past. */
  lemma DecisionIsOneComparison(parse: TimestampParser, o: Obj, spec: TtlSpec, now1: int, now2: int)
    requires now1 <= now2
    ensures var due := Due(parse, o, spec);
            ShouldDelete(parse, o, spec, now1, now2).0 <==>
            due.Some? && now2 > due.value && (due.value != 0 || (RelativeMode(spec) && now1 > 0))
    ensures var (yes, reason) := ShouldDelete(parse, o, spec, now1, now2);
            yes <==> reason == TtlExpired
  {
    MappedKeys(spec);
  }

  /** Why an object is not deleted: it is not due yet, or nothing makes it due. */
  lemma ReasonsExactly(parse: TimestampParser, o: Obj, spec: TtlSpec, now1: int, now2: int)
    requires now1 <= now2
    ensures var (yes, reason), due := ShouldDelete(parse, o, spec, now1, now2), Due(parse, o, spec);
            && (reason == NotExpired <==> due.Some? && due.value != 0 && now2 <= due.value)
            && (reason == NoTtl <==> due.None? || (due.value == 0 && !yes))
  {
    MappedKeys(spec);
  }

  /** Which error CalculateExpiration reports, mode by mode. */
  lemma ErrorsExactly(parse: TimestampParser, o: Obj, spec: TtlSpec, now: int)
    ensures var r := CalculateExpiration(parse, o, spec, now);
            var fieldMode := spec.secondsAfterCreation.None? && spec.fieldPath != "";
            var field := FieldPath.Parsed(spec.fieldPath);
            var number, text := NestedNumber(o, field), NestedText(o, field);
            var base := NestedText(o, FieldPath.Parsed(spec.relativeTo));
            && (r == Failed(NoValidConfiguration) <==>
                  spec.secondsAfterCreation.None? && spec.fieldPath == "" && !RelativeMode(spec))
            && (r == Failed(NoMapping) <==>
                  && fieldMode && number.None? && text.Some?
                  && spec.mappings != map[] && text.value !in spec.mappings && spec.fallback.None?)
            && (r == Failed(FieldPathNotFound) <==>
                  && fieldMode && number.None?
                  && if text.Some? then spec.mappings == map[] else spec.fallback.None?)
            && (r == Failed(TimestampNotFound) <==> RelativeMode(spec) && base.None?)
            && (r == Failed(InvalidTimestamp) <==> RelativeMode(spec) && base.Some? && parse(base.value).None?)
            && (r == Failed(AlreadyExpired) <==>
                  RelativeMode(spec) && var due := Due(parse, o, spec); due.Some? && now > due.value)
  {
    MappedKeys(spec);
  }

  lemma MappedKeys(spec: TtlSpec)
    ensures |spec.mappings| == 0 <==> spec.mappings == map[]
  {
    if spec.mappings != map[] {
      var k :| k in spec.mappings;
      assert k in spec.mappings.Keys && |spec.mappings.Keys| > 0;
    }
  }

  /** For a fixed snapshot the deletable set only grows with time. */
  lemma DeletableGrows(parse: TimestampParser, o: Obj, spec: TtlSpec, now1: int, now2: int, later1: int, later2: int)
    requires now1 <= now2 && later1 <= later2 && now1 <= later1 && now2 <= later2
    requires ShouldDelete(parse, o, spec, now1, now2).0
    ensures ShouldDelete(parse, o, spec, later1, later2).0
  {
    DecisionIsOneComparison(parse, o, spec, now1, now2);
    DecisionIsOneComparison(parse, o, spec, later1, later2);
  }

  /** IsExpired answers exactly like the controller wherever it answers; in the relative mode it answers "yes" only
      when the object falls due between the two clock readings. */
  lemma IsExpiredAgrees(parse: TimestampParser, o: Obj, spec: TtlSpec, now1: int, now2: int)
    requires now1 <= now2
    ensures var answer := IsExpired(parse, o, spec, now1, now2);
            answer.Some? ==> answer.value == ShouldDelete(parse, o, spec, now1, now2).0
    ensures RelativeMode(spec) ==>
              (IsExpired(parse, o, spec, now1, now2) == Some(true) <==>
               var due := Due(parse, o, spec); due.Some? && due.value != 0 && now1 <= due.value < now2)
    ensures IsExpired(parse, o, spec, now1, now2).None? && ShouldDelete(parse, o, spec, now1, now2).0 ==>
              RelativeMode(spec)
  {
    DecisionIsOneComparison(parse, o, spec, now1, now2);
  }

  /** Seconds turn into nanoseconds faithfully exactly while the product fits int64. */
  lemma NanosExact(seconds: Int64)
    ensures Nanos(seconds) == seconds * SECOND <==> -9_223_372_036 <= seconds <= 9_223_372_036
  {
  }

  /** Seconds turn into a negative duration exactly when the nanoseconds, taken modulo 2^64, lie in the upper half. */
  lemma NanosNegative(seconds: Int64)
    ensures Nanos(seconds) < 0 <==> (seconds * SECOND) % TWO_64 >= TWO_63
  {
    var x := seconds * SECOND;
    var q, r := x / TWO_64, x % TWO_64;
    assert x == TWO_64 * q + r;
    if r < TWO_63 {
      Quotient(x + TWO_63, TWO_64, q);
    } else {
      Quotient(x + TWO_63, TWO_64, q + 1);
    }
  }

  /** A fixed TTL falls due before the object was created exactly in that case, whatever its length. */
  lemma DueBeforeCreation(parse: TimestampParser, o: Obj, spec: TtlSpec)
    requires spec.secondsAfterCreation.Some?
    ensures var due := Due(parse, o, spec);
            due.Some? && (due.value < o.created <==> (spec.secondsAfterCreation.value * SECOND) % TWO_64 >= TWO_63)
  {
    NanosNegative(spec.secondsAfterCreation.value);
  }

  /** For the positive TTLs up to some 584 years: from the first that does not fit on, all of them are due before
      the object was created. The next one, 18,446,744,074 seconds, wraps past zero and is due 290,448,384 ns after
      creation. */
  lemma HugeTtlIsDueAtOnce(parse: TimestampParser, o: Obj, spec: TtlSpec, now: int)
    requires spec.secondsAfterCreation.Some? && 0 <= spec.secondsAfterCreation.value <= 18_446_744_074
    ensures var seconds, due := spec.secondsAfterCreation.value, Due(parse, o, spec);
            && due.Some?
            && (due.value < o.created <==> 9_223_372_036 < seconds < 18_446_744_074)
            && (seconds == 18_446_744_074 ==> due.value == o.created + 290_448_384)
            && (due.value < o.created <= now && due.value != 0 ==> ShouldDelete(parse, o, spec, now, now).0)
  {
  }
}
