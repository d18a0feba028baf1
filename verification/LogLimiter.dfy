/** Log rate limiting (RateLimiter in internal/logging/sampling.go). Times are nanoseconds. */
module LogLimiter {

  /** The times later than start, in order. */
  function After(s: seq<int>, start: int): seq<int> {
    if s == [] then []
    else
      var n := |s| - 1;
      After(s[..n], start) + if s[n] > start then [s[n]] else []
  }

  lemma {:induction false} AfterLength(s: seq<int>, start: int)
    ensures |After(s, start)| <= |s|
    ensures |After(s, start)| == |s| ==> After(s, start) == s
  {
    if s != [] {
      var n := |s| - 1;
      AfterLength(s[..n], start);
      assert s == s[..n] + [s[n]];
    }
  }

  /** Filtering early with a weaker bound does not change what a stronger bound leaves. */
  lemma {:induction false} AfterAfter(s: seq<int>, a: int, b: int)
    requires a <= b
    ensures After(After(s, a), b) == After(s, b)
  {
    if s != [] {
      var n := |s| - 1;
      AfterAfter(s[..n], a, b);
      var kept := After(s[..n], a);
      if s[n] > a {
        assert (kept + [s[n]])[..|kept|] == kept;
      } else {
        assert kept + [] == kept;
      }
    }
  }

  lemma {:induction false} AfterAll(s: seq<int>, start: int)
    requires forall i :: 0 <= i < |s| ==> s[i] <= start
    ensures After(s, start) == []
  {
    if s != [] { AfterAll(s[..|s| - 1], start); }
  }

  // ----- the specification: a decision on the history of allowed times

  /** Fewer than max allowed times lie in the window that ends now. */
  predicate Accept(times: seq<int>, max: int, window: int, now: int) {
    |After(times, now - window)| < max
  }

  ghost predicate Ordered(times: seq<int>, last: int) {
    && (forall i, j :: 0 <= i < j < |times| ==> times[i] <= times[j])
    && (forall i :: 0 <= i < |times| ==> times[i] <= last)
  }

  /** Any max + 1 consecutive allowed times span at least the window. */
  ghost predicate Spaced(times: seq<int>, max: int, window: int)
    requires max > 0
  {
    forall i, j :: 0 <= i && j == i + max < |times| ==> times[j] - times[i] >= window
  }

  lemma OrderedLater(times: seq<int>, last: int, now: int)
    requires Ordered(times, last) && last <= now
    ensures Ordered(times, now)
  {
  }

  lemma {:induction false} TailCounts(times: seq<int>, last: int, start: int, m: nat)
    requires Ordered(times, last) && 0 < m <= |times| && times[|times| - m] > start
    ensures |After(times, start)| >= m
  {
    var n := |times| - 1;
    if m > 1 {
      assert times[..n][|times[..n]| - (m - 1)] == times[|times| - m];
      TailCounts(times[..n], last, start, m - 1);
    }
    assert times[|times| - m] <= times[n];
  }

  /** Recording an accepted time keeps the spacing. */
  lemma AcceptKeepsSpacing(times: seq<int>, last: int, max: int, window: int, now: int)
    requires max > 0 && Ordered(times, last) && last <= now && Spaced(times, max, window)
    requires Accept(times, max, window, now)
    ensures Ordered(times + [now], now) && Spaced(times + [now], max, window)
  {
    var n := |times|;
    if n >= max && times[n - max] > now - window {
      TailCounts(times, last, now - window, max);
    }
  }

  /** The rule in terms of the times themselves: a call is denied exactly if the max-th latest allowed time is less
      than a window old. */
  lemma AcceptExactly(times: seq<int>, last: int, max: int, window: int, now: int)
    requires max > 0 && Ordered(times, last)
    ensures Accept(times, max, window, now) <==> |times| < max || now - times[|times| - max] >= window
  {
    var n := |times|;
    if n >= max {
      if times[n - max] > now - window {
        TailCounts(times, last, now - window, max);
      } else {
        HeadDropped(times, now - window, n - max);
      }
    } else {
      AfterLength(times, now - window);
    }
  }

  /** Nothing up to an index that is not late enough is kept. */
  lemma {:induction false} HeadDropped(times: seq<int>, start: int, k: nat)
    requires (forall i, j :: 0 <= i < j < |times| ==> times[i] <= times[j]) && k < |times| && times[k] <= start
    ensures |After(times, start)| <= |times| - 1 - k
    decreases |times|
  {
    var n := |times| - 1;
    if k < n {
      HeadDropped(times[..n], start, k);
    } else {
      AfterAll(times, start);
    }
  }

  // ----- histories of all keys

  ghost function TimesIn(allowed: map<string, seq<int>>, key: string): seq<int> {
    if key in allowed then allowed[key] else []
  }

  ghost predicate GoodHistory(allowed: map<string, seq<int>>, max: int, window: int, last: int) {
    forall key :: Ordered(TimesIn(allowed, key), last) && (max > 0 ==> Spaced(TimesIn(allowed, key), max, window))
  }

  /** Recording what Accept lets through, and nothing else, keeps a history good. */
  lemma GoodHistoryStep(allowed: map<string, seq<int>>, max: int, window: int, last: int, key: string, now: int)
    requires max > 0 && GoodHistory(allowed, max, window, last) && last <= now
    ensures GoodHistory(allowed, max, window, now)
    ensures Accept(TimesIn(allowed, key), max, window, now) ==>
              GoodHistory(allowed[key := TimesIn(allowed, key) + [now]], max, window, now)
  {
    hide Accept, Ordered, Spaced;
    forall k ensures Ordered(TimesIn(allowed, k), now) && Spaced(TimesIn(allowed, k), max, window) {
      OrderedLater(TimesIn(allowed, k), last, now);
    }
    if Accept(TimesIn(allowed, key), max, window, now) {
      AcceptKeepsSpacing(TimesIn(allowed, key), last, max, window, now);
      var next := allowed[key := TimesIn(allowed, key) + [now]];
      assert forall k :: TimesIn(next, k) == if k == key then TimesIn(allowed, key) + [now] else TimesIn(allowed, k);
    }
  }

  /** The allowed times of one key after a run of calls. */
  function AllowedTimes(calls: seq<int>, max: int, window: int): seq<int> {
    if calls == [] then []
    else
      var n := |calls| - 1;
      var before := AllowedTimes(calls[..n], max, window);
      if Accept(before, max, window, calls[n]) then before + [calls[n]] else before
  }

  /** Over any run with a monotone clock, no max + 1 consecutive allowed times come closer together than the window. */
  lemma {:induction false} RunIsSpaced(calls: seq<int>, max: int, window: int)
    requires max > 0 && forall i, j :: 0 <= i < j < |calls| ==> calls[i] <= calls[j]
    ensures Spaced(AllowedTimes(calls, max, window), max, window)
    ensures calls != [] ==> Ordered(AllowedTimes(calls, max, window), calls[|calls| - 1])
  {
    if calls != [] {
      var n := |calls| - 1;
      RunIsSpaced(calls[..n], max, window);
      var before := AllowedTimes(calls[..n], max, window);
      var last := if n > 0 then calls[n - 1] else calls[n];
      assert Ordered(before, last);
      if Accept(before, max, window, calls[n]) {
        AcceptKeepsSpacing(before, last, max, window, calls[n]);
      }
    }
  }

  /** Over any run with a monotone clock: a call is let through and recorded exactly if fewer than max calls have
      been, or the max-th latest of them is at least a window old. */
  lemma RunAdmits(calls: seq<int>, max: int, window: int)
    requires max > 0 && calls != [] && forall i, j :: 0 <= i < j < |calls| ==> calls[i] <= calls[j]
    ensures var n := |calls| - 1;
            var before, after := AllowedTimes(calls[..n], max, window), AllowedTimes(calls, max, window);
            after == before +
                     if |before| < max || calls[n] - before[|before| - max] >= window then [calls[n]] else []
  {
    hide After, Accept, Spaced, Ordered;
    var n := |calls| - 1;
    var before := AllowedTimes(calls[..n], max, window);
    BeforeIsOrdered(calls, max, window);
    assert AllowedTimes(calls, max, window) ==
           if Accept(before, max, window, calls[n]) then before + [calls[n]] else before;
    hide AllowedTimes;
    AcceptExactly(before, calls[n], max, window, calls[n]);
  }

  lemma BeforeIsOrdered(calls: seq<int>, max: int, window: int)
    requires max > 0 && calls != [] && forall i, j :: 0 <= i < j < |calls| ==> calls[i] <= calls[j]
    ensures var n := |calls| - 1; Ordered(AllowedTimes(calls[..n], max, window), calls[n])
  {
    hide Accept, Spaced, AllowedTimes;
    var n := |calls| - 1;
    RunIsSpaced(calls[..n], max, window);
    if n > 0 {
      OrderedLater(AllowedTimes(calls[..n], max, window), calls[n - 1], calls[n]);
    } else {
      NothingAllowed(max, window);
      assert calls[..n] == [];
    }
  }

  lemma NothingAllowed(max: int, window: int)
    ensures AllowedTimes([], max, window) == []
  {
  }

  lemma AfterSnoc(s: seq<int>, x: int, start: int)
    ensures After(s + [x], start) == After(s, start) + if x > start then [x] else []
  {
    assert (s + [x])[..|s|] == s;
  }

  /** Entries that agree with the history on future windows still do after a cleanup at now. */
  lemma CleanupIsInvisible(s: seq<int>, times: seq<int>, last: int, window: int, now: int)
    requires After(s, last - window) == After(times, last - window) && Ordered(times, last) && last <= now
    ensures After(After(s, now - window * 2), now - window) == After(times, now - window)
    ensures After(s, now - window) == After(times, now - window)
  {
    hide After;
    AfterAfter(s, last - window, now - window);
    AfterAfter(times, last - window, now - window);
    if window >= 0 {
      AfterAfter(s, now - window * 2, now - window);
    } else {
      AfterAll(times, last - window);
      AfterAfter(s, last - window, now - window * 2);
      AfterAll([], now - window * 2);
      AfterAll([], now - window);
    }
  }

  // ----- the limiter: slices over shared backing arrays

  /** A Go slice that starts at the beginning of its backing array. */
  datatype Slice = Slice(arr: array<int>, len: nat)

  /** `valid := s[:0]` and appending the survivors: the filter overwrites the array it reads. */
  method FilterInPlace(arr: array<int>, len: nat, start: int) returns (m: nat)
    requires len <= arr.Length
    modifies arr
    ensures m <= len && arr[..m] == After(old(arr[..len]), start)
    ensures arr[m..] == old(arr[m..])
  {
    m := 0;
    ghost var was := arr[..];
    for i := 0 to len
      invariant m <= i
      invariant arr[..m] == After(was[..i], start)
      invariant forall j :: m <= j < arr.Length ==> arr[j] == was[j]
    {
      assert was[..i + 1][..i] == was[..i];
      var ts := arr[i];
      if ts > start {
        arr[m] := ts;
        m := m + 1;
        assert arr[..m] == arr[..m - 1] + [ts];
      }
    }
    assert was[..len] == old(arr[..len]);
  }

  class RateLimiter {
    const max: int
    const window: int
    const cleanupInterval: int
    var entries: map<string, Slice>
    var lastCleanup: int

    // the history the entries stand for
    ghost var allowed: map<string, seq<int>>
    ghost var lastNow: int

    ghost function Arrays(): set<array<int>>
      reads `entries
    {
      set k | k in entries :: entries[k].arr
    }

    /** No two keys share a backing array, and no slice is longer than the limit. */
    ghost predicate Shape()
      reads `entries
    {
      && (forall k :: k in entries ==> entries[k].len <= entries[k].arr.Length == max)
      && (forall k, l :: k in entries && l in entries && k != l ==> entries[k].arr != entries[l].arr)
    }

    ghost function Stored(key: string): seq<int>
      reads `entries, Arrays()
    {
      if key in entries && entries[key].len <= entries[key].arr.Length then entries[key].arr[..entries[key].len] else []
    }

    ghost function Times(key: string): seq<int>
      reads `allowed
    {
      TimesIn(allowed, key)
    }

    ghost predicate AgreesWith(history: map<string, seq<int>>, start: int)
      reads `entries, Arrays()
    {
      forall key :: After(Stored(key), start) == After(TimesIn(history, key), start)
    }

    /** The entries agree with the history on every window from a given start on. */
    ghost predicate Agrees(start: int)
      reads `entries, `allowed, Arrays()
    {
      AgreesWith(allowed, start)
    }

    ghost predicate Histories()
      reads `allowed, `lastNow
    {
      GoodHistory(allowed, max, window, lastNow)
    }

    ghost predicate Valid()
      reads this, Arrays()
    {
      Shape() && Agrees(lastNow - window) && Histories()
    }

    constructor (max: int, window: int, cleanupInterval: int, now: int)
      ensures Valid() && allowed == map[] && lastNow == now && fresh(Arrays())
      ensures this.max == max && this.window == window && this.cleanupInterval == cleanupInterval
    {
      this.max, this.window, this.cleanupInterval := max, window, cleanupInterval;
      entries, lastCleanup := map[], now;
      allowed, lastNow := map[], now;
    }

    /** One round of the cleanup loop. */
    method CleanupKey(key: string, start: int)
      requires Shape() && key in entries
      modifies this`entries, entries[key].arr
      ensures entries.Keys <= old(entries.Keys)
      ensures forall k :: k in entries ==> entries[k].arr == old(entries[k].arr)
      ensures Shape()
      ensures Stored(key) == After(old(Stored(key)), start)
      ensures forall k :: k != key ==> Stored(k) == old(Stored(k)) && (k in entries <==> k in old(entries))
    {
      hide After;
      var slice := entries[key];
      assert forall k :: k in entries && k != key ==> entries[k].arr != slice.arr;
      var m := FilterInPlace(slice.arr, slice.len, start);
      if m == 0 {
        entries := entries - {key};
      } else {
        entries := entries[key := Slice(slice.arr, m)];
      }
    }

    /** Drops what is older than two windows, key by key. */
    method Cleanup(now: int)
      requires Shape()
      modifies this`entries, Arrays()
      ensures Shape() && Arrays() <= old(Arrays())
      ensures forall key :: Stored(key) == After(old(Stored(key)), now - window * 2)
    {
      hide After, Shape;
      var start := now - window * 2;
      AfterAll([], start);
      var todo := entries.Keys;
      while todo != {}
        invariant Shape()
        invariant todo <= entries.Keys <= old(entries).Keys
        invariant forall key :: key in entries ==> entries[key].arr == old(entries)[key].arr
        invariant forall key :: key in todo ==> Stored(key) == old(Stored(key))
        invariant forall key :: key !in todo ==> Stored(key) == After(old(Stored(key)), start)
        decreases todo
      {
        var key :| key in todo;
        CleanupKey(key, start);
        todo := todo - {key};
      }
    }

    /** The slice stored under the key, or a new empty one. */
    method SliceOf(key: string) returns (slice: Slice)
      requires max > 0 && Shape()
      ensures Owned(key, slice) && (key in entries ==> slice == entries[key]) && (key !in entries ==> fresh(slice.arr))
      ensures slice.arr[..slice.len] == Stored(key)
    {
      if key in entries {
        slice := entries[key];
      } else {
        var arr := new int[max];
        slice := Slice(arr, 0);
      }
    }

    /** No other key uses the slice's array. */
    ghost predicate Owned(key: string, slice: Slice)
      reads `entries
    {
      slice.len <= slice.arr.Length == max && forall k :: k in entries && k != key ==> entries[k].arr != slice.arr
    }

    /** Filters the key's slice in place. If nothing falls out, nothing has changed. */
    method FilterKey(key: string, start: int) returns (slice: Slice, m: nat)
      requires max > 0 && Shape()
      modifies Arrays()
      ensures Owned(key, slice) && (key in entries ==> slice == entries[key]) && (key !in entries ==> fresh(slice.arr))
      ensures m <= slice.len && slice.arr[..m] == After(old(Stored(key)), start)
      ensures m == slice.len ==> Stored(key) == old(Stored(key))
      ensures forall k :: k != key ==> Stored(k) == old(Stored(k))
    {
      hide After;
      slice := SliceOf(key);
      ghost var stored := slice.arr[..slice.len];
      m := FilterInPlace(slice.arr, slice.len, start);
      AfterLength(stored, start);
    }

    /** Appends now behind the first m entries, inside the capacity, and stores the slice. */
    method Append(key: string, slice: Slice, m: nat, now: int)
      requires Shape() && Owned(key, slice) && m < max
      modifies this`entries, slice.arr
      ensures Shape() && entries == old(entries)[key := Slice(slice.arr, m + 1)]
      ensures Stored(key) == old(slice.arr[..m]) + [now]
      ensures forall k :: k != key ==> Stored(k) == old(Stored(k))
    {
      slice.arr[m] := now;
      assert slice.arr[..m + 1] == old(slice.arr[..m]) + [now];
      entries := entries[key := Slice(slice.arr, m + 1)];
    }

    /** The part of Allow that follows the cleanup: filter the key's slice in place, then deny or record. */
    method Admit(key: string, now: int) returns (r: bool)
      requires max > 0 && Shape() && Agrees(now - window)
      modifies this`entries, Arrays()
      ensures Shape() && fresh(Arrays() - old(Arrays()))
      ensures r == Accept(Times(key), max, window, now)
      ensures forall k :: k != key || !r ==> Stored(k) == old(Stored(k))
      ensures AgreesWith(if r then allowed[key := Times(key) + [now]] else allowed, now - window)
    {
      hide After, Shape, Stored;
      ghost var stored := Stored(key);
      var windowStart := now - window;
      assert After(stored, windowStart) == After(Times(key), windowStart);
      var slice, m := FilterKey(key, windowStart);
      if m >= max {
        return false;
      }
      ghost var kept := slice.arr[..m];
      AfterAfter(stored, windowStart, windowStart);
      AfterSnoc(kept, now, windowStart);
      AfterSnoc(Times(key), now, windowStart);
      Append(key, slice, m, now);
      return true;
    }

    /** The periodic cleanup at the head of Allow: it never disturbs the window that ends now. */
    method CleanupIfDue(now: int)
      requires Valid() && now >= lastNow
      modifies this`entries, this`lastCleanup, Arrays()
      ensures Shape() && Arrays() <= old(Arrays()) && Agrees(now - window)
      ensures now - old(lastCleanup) <= cleanupInterval ==> forall k :: Stored(k) == old(Stored(k))
      ensures now - old(lastCleanup) > cleanupInterval ==>
                forall k :: Stored(k) == After(old(Stored(k)), now - window * 2)
      ensures lastCleanup == if now - old(lastCleanup) > cleanupInterval then now else old(lastCleanup)
    {
      hide After, GoodHistory, Shape, Stored;
      if now - lastCleanup > cleanupInterval {
        Cleanup(now);
        lastCleanup := now;
      }
      AgreesNow(now);
    }

    /** After the optional cleanup the entries agree with the history on the window that ends now. */
    twostate lemma AgreesNow(now: int)
      requires old(Agrees(lastNow - window)) && old(GoodHistory(allowed, max, window, lastNow)) && old(lastNow) <= now
      requires allowed == old(allowed)
      requires forall k :: Stored(k) == old(Stored(k)) || Stored(k) == After(old(Stored(k)), now - window * 2)
      ensures Agrees(now - window)
    {
      hide After;
      forall k ensures After(Stored(k), now - window) == After(Times(k), now - window) {
        assert Times(k) == old(Times(k));
        CleanupIsInvisible(old(Stored(k)), old(Times(k)), old(lastNow), window, now);
      }
    }

    /** Enters the decision into the history. */
    ghost method Record(key: string, now: int, r: bool)
      requires Shape() && AgreesWith(if r then allowed[key := Times(key) + [now]] else allowed, now - window)
      requires GoodHistory(if r then allowed[key := Times(key) + [now]] else allowed, max, window, now)
      modifies this`allowed, this`lastNow
      ensures Valid() && lastNow == now
      ensures allowed == if r then old(allowed)[key := old(Times(key)) + [now]] else old(allowed)
    {
      hide After, GoodHistory;
      if r {
        allowed := allowed[key := Times(key) + [now]];
      }
      lastNow := now;
    }

    /** May this entry be logged? The answer depends on the history alone: it is the same whether or not old entries
        have been cleaned up, and a denial leaves every stored slice as it was although the filter ran over its
        array. */
    method Allow(key: string, now: int) returns (r: bool)
      requires Valid() && now >= lastNow
      modifies this, Arrays()
      ensures Valid() && fresh(Arrays() - old(Arrays()))
      ensures r == (max <= 0 || Accept(old(Times(key)), max, window, now))
      ensures allowed == if r && max > 0 then old(allowed)[key := old(Times(key)) + [now]] else old(allowed)
      ensures lastNow == if max > 0 then now else old(lastNow)
      ensures !r && now - old(lastCleanup) <= cleanupInterval ==> forall k :: Stored(k) == old(Stored(k))
      ensures max > 0 && now - old(lastCleanup) > cleanupInterval ==>
                forall k :: k != key || !r ==> Stored(k) == After(old(Stored(k)), now - window * 2)
      ensures lastCleanup == if max > 0 && now - old(lastCleanup) > cleanupInterval then now else old(lastCleanup)
    {
      hide After, Accept, GoodHistory, Shape, Stored;
      if max <= 0 {
        return true;
      }
      GoodHistoryStep(allowed, max, window, lastNow, key, now);
      CleanupIfDue(now);
      r := Admit(key, now);
      Record(key, now, r);
    }
  }
}
