/** Complete-only resampling of minute candles into UTC-aligned bars. */
module Resampling {
  import opened Sequences
  import opened Candles
  import Averages

  /** A completed bar of `minutes` minutes. */
  datatype Derived = Derived(instrument: nat, minutes: nat, openMs: int, closeMs: int, bar: Bar, baseVolume: real,
                             quoteVolume: Option<real>)

  datatype ResampleOutcome = Resampled(bars: seq<Derived>) | MixedIdentity | NotContiguous | NegativeTime | TooFine

  function Duration(minutes: nat): nat { minutes * MINUTE_MS }

  /** Start of the UTC bucket that holds a time. */
  function StartOf(t: int, duration: nat): int
    requires duration >= 1
  {
    t - t % duration
  }

  lemma StartBounds(t: int, duration: nat)
    requires duration >= 1
    ensures StartOf(t, duration) <= t < StartOf(t, duration) + duration && StartOf(t, duration) % duration == 0
  {
    var q := t / duration;
    assert t == duration * q + t % duration;
    ModMultiple(q, duration);
  }

  lemma ModMultiple(q: int, duration: nat)
    requires duration >= 1
    ensures (duration * q) % duration == 0
  {
    var r, k := (duration * q) % duration, (duration * q) / duration;
    assert duration * q == duration * k + r;
    assert r == duration * (q - k);
    NoSmallMultiple(q - k, r, duration);
  }

  lemma MultipleGrows(q: int, duration: int)
    requires duration >= 0
    ensures q >= 1 ==> duration * q >= duration
    ensures q <= -1 ==> duration * q <= -duration
  {
    if q >= 1 {
      assert duration * q == duration * (q - 1) + duration;
    } else if q <= -1 {
      assert duration * q == duration * (q + 1) - duration;
    }
  }

  lemma NoSmallMultiple(q: int, r: int, duration: nat)
    requires duration >= 1 && r == duration * q && 0 <= r < duration
    ensures q == 0
  {
    MultipleGrows(q, duration);
  }

  /** Aligned times are whole durations apart. */
  lemma AlignedApart(s: int, t: int, duration: nat)
    requires duration >= 1 && s % duration == 0 && t % duration == 0 && s < t
    ensures s + duration <= t
  {
    var a, b := s / duration, t / duration;
    assert s == duration * a && t == duration * b;
    assert t - s == duration * (b - a);
    MultipleGrows(b - a, duration);
  }

  lemma AlignedNext(s: int, duration: nat)
    requires duration >= 1 && s % duration == 0
    ensures (s + duration) % duration == 0
  {
    var a := s / duration;
    assert s + duration == duration * (a + 1);
    ModMultiple(a + 1, duration);
  }

  /** The bucket of `t` is the aligned window it falls in. */
  lemma BucketOf(t: int, s: int, duration: nat)
    requires duration >= 1 && s % duration == 0
    ensures StartOf(t, duration) == s <==> s <= t < s + duration
  {
    var u := StartOf(t, duration);
    StartBounds(t, duration);
    if u < s {
      AlignedApart(u, s, duration);
    } else if s < u {
      AlignedApart(s, u, duration);
    }
  }

  // ----- One bar

  function Highest(rows: seq<ClosedCandle>): (r: real)
    requires rows != []
    ensures forall k :: 0 <= k < |rows| ==> rows[k].bar.high <= r
    ensures exists k :: 0 <= k < |rows| && rows[k].bar.high == r
  {
    if |rows| == 1 then rows[0].bar.high else Averages.Max(Highest(rows[..|rows| - 1]), rows[|rows| - 1].bar.high)
  }

  function Lowest(rows: seq<ClosedCandle>): (r: real)
    requires rows != []
    ensures forall k :: 0 <= k < |rows| ==> r <= rows[k].bar.low
    ensures exists k :: 0 <= k < |rows| && rows[k].bar.low == r
  {
    if |rows| == 1 then rows[0].bar.low else Averages.Min(Lowest(rows[..|rows| - 1]), rows[|rows| - 1].bar.low)
  }

  function BaseVolume(rows: seq<ClosedCandle>): real {
    if rows == [] then 0.0 else BaseVolume(rows[..|rows| - 1]) + rows[|rows| - 1].baseVolume
  }

  /** The sum of the quote volumes, unless one is missing. */
  function QuoteVolume(rows: seq<ClosedCandle>): Option<real> {
    if rows == [] then Some(0.0)
    else
      var rest, last := QuoteVolume(rows[..|rows| - 1]), rows[|rows| - 1].quoteVolume;
      if rest.Some? && last.Some? then Some(rest.value + last.value) else None
  }

  function Aggregate(rows: seq<ClosedCandle>, minutes: nat): Derived
    requires rows != []
  {
    var first, last := rows[0], rows[|rows| - 1];
    var high, low := Highest(rows), Lowest(rows);
    assert low <= first.bar.low && low <= last.bar.low && first.bar.high <= high && last.bar.high <= high;
    Derived(first.instrument, minutes, first.openMs, first.openMs + Duration(minutes) - 1,
            Ohlc(first.bar.open, high, low, last.bar.close), BaseVolume(rows), QuoteVolume(rows))
  }

  // ----- What resampling means

  predicate StartsBar(c: ClosedCandle, minutes: nat)
    requires minutes >= 1
  {
    c.openMs % Duration(minutes) == 0
  }

  /** The bar that starts at candle `i`, if it starts one that is complete before `hi`. */
  function BarFrom(cs: seq<ClosedCandle>, minutes: nat, i: nat, hi: nat): (r: seq<Derived>)
    requires minutes >= 1 && i < hi <= |cs|
    ensures |r| <= 1
  {
    if StartsBar(cs[i], minutes) && i + minutes <= hi then [Aggregate(cs[i..i + minutes], minutes)] else []
  }

  /** A bar for each aligned minute of `[lo, i)` whose `minutes` minutes all lie before `hi`. */
  function Bars(cs: seq<ClosedCandle>, minutes: nat, lo: nat, i: nat, hi: nat): seq<Derived>
    requires minutes >= 1 && lo <= i <= hi <= |cs|
  {
    if i == lo then [] else Bars(cs, minutes, lo, i - 1, hi) + BarFrom(cs, minutes, i - 1, hi)
  }

  predicate SameIdentity(a: ClosedCandle, b: ClosedCandle) {
    a.provider == b.provider && a.instrument == b.instrument && a.symbol == b.symbol
  }

  predicate OneIdentity(cs: seq<ClosedCandle>) {
    forall i :: 0 <= i < |cs| ==> SameIdentity(cs[i], cs[0])
  }

  predicate Consecutive(cs: seq<ClosedCandle>) {
    forall i :: 0 <= i < |cs| - 1 ==> cs[i + 1].openMs == cs[i].openMs + MINUTE_MS
  }

  lemma {:induction false} ConsecutiveIsGapFree(cs: seq<ClosedCandle>, i: nat)
    requires Consecutive(cs) && i < |cs|
    ensures cs[i].openMs == cs[0].openMs + i * MINUTE_MS
  {
    if i > 0 {
      ConsecutiveIsGapFree(cs, i - 1);
      var j := i - 1;
      assert cs[j + 1].openMs == cs[j].openMs + MINUTE_MS;
    }
  }

  /** How many leading candles are closed by a time. */
  function ClosedBy(cs: seq<ClosedCandle>, evaluationMs: Option<int>, n: nat): (r: nat)
    requires n <= |cs|
    ensures r <= n
  {
    if n == 0 then 0
    else if evaluationMs.None? || cs[n - 1].CloseMs() <= evaluationMs.value then n
    else ClosedBy(cs, evaluationMs, n - 1)
  }

  // ----- Buckets

  /** The bucket each candle falls in. */
  function BucketStarts(cs: seq<ClosedCandle>, duration: nat): (r: seq<int>)
    requires duration >= 1
    ensures |r| == |cs| && forall k :: 0 <= k < |cs| ==> r[k] == StartOf(cs[k].openMs, duration)
  {
    seq(|cs|, k requires 0 <= k < |cs| => StartOf(cs[k].openMs, duration))
  }

  /** The candles of the first `n` that fall in the bucket at `s`. */
  function Group(cs: seq<ClosedCandle>, starts: seq<int>, s: int, n: nat): seq<ClosedCandle>
    requires n <= |cs| == |starts|
  {
    if n == 0 then []
    else Group(cs, starts, s, n - 1) + (if starts[n - 1] == s then [cs[n - 1]] else [])
  }

  /** How many of the first `n` candles open before `t`. */
  function Before(cs: seq<ClosedCandle>, t: int, n: nat): (r: nat)
    requires n <= |cs|
    ensures r <= n
  {
    if n == 0 then 0 else if cs[n - 1].openMs < t then n else Before(cs, t, n - 1)
  }

  lemma {:induction false} BeforeSplits(cs: seq<ClosedCandle>, t: int, n: nat)
    requires GapFree(cs) && n <= |cs|
    ensures forall i :: 0 <= i < n ==> (i < Before(cs, t, n) <==> cs[i].openMs < t)
  {
    if n > 0 && cs[n - 1].openMs >= t {
      BeforeSplits(cs, t, n - 1);
    }
  }

  /** The starts put a candle in the bucket of `[s, end)` exactly if it opens there. */
  ghost predicate Sorts(cs: seq<ClosedCandle>, starts: seq<int>, s: int, end: int) {
    |starts| == |cs| && forall k :: 0 <= k < |cs| ==> (starts[k] == s <==> s <= cs[k].openMs < end)
  }

  lemma StartsSort(cs: seq<ClosedCandle>, duration: nat, s: int, end: int)
    requires duration >= 1 && s % duration == 0 && end == s + duration
    ensures Sorts(cs, BucketStarts(cs, duration), s, end)
  {
    forall k | 0 <= k < |cs| ensures BucketStarts(cs, duration)[k] == s <==> s <= cs[k].openMs < end {
      BucketOf(cs[k].openMs, s, duration);
    }
  }

  lemma SortsAt(cs: seq<ClosedCandle>, starts: seq<int>, s: int, end: int, k: nat)
    requires Sorts(cs, starts, s, end) && k < |cs|
    ensures starts[k] == s <==> s <= cs[k].openMs < end
  {
  }

  lemma BeforeStep(cs: seq<ClosedCandle>, t: int, last: nat, n: nat)
    requires GapFree(cs) && n == last + 1 <= |cs|
    ensures if cs[last].openMs < t then Before(cs, t, n) == n && Before(cs, t, last) == last
            else Before(cs, t, n) == Before(cs, t, last)
  {
    if cs[last].openMs < t {
      EarlierBefore(cs, t, n);
    }
  }

  lemma {:induction false} GroupIsSlice(cs: seq<ClosedCandle>, starts: seq<int>, s: int, end: int, n: nat)
    requires s < end && Sorts(cs, starts, s, end) && GapFree(cs) && n <= |cs|
    ensures var lo, hi := Before(cs, s, n), Before(cs, end, n);
      lo <= hi && Group(cs, starts, s, n) == cs[lo..hi]
  {
    hide Sorts, GapFree, Before;
    if n == 0 {
      assert cs[0..0] == [];
    } else {
      var last: nat := n - 1;
      var lo := Before(cs, s, n);
      GroupIsSlice(cs, starts, s, end, last);
      SortsAt(cs, starts, s, end, last);
      BeforeStep(cs, s, last, n);
      BeforeStep(cs, end, last, n);
      if s <= cs[last].openMs < end {
        assert cs[lo..n] == cs[lo..last] + [cs[last]];
      }
    }
  }

  lemma EarlierBefore(cs: seq<ClosedCandle>, t: int, n: nat)
    requires GapFree(cs) && 0 < n <= |cs| && cs[n - 1].openMs < t
    ensures Before(cs, t, n - 1) == n - 1
  {
    if n > 1 {
      assert cs[n - 2].openMs < cs[n - 1].openMs;
    }
  }

  predicate Complete(rows: seq<ClosedCandle>, minutes: nat, s: int) {
    |rows| == minutes && minutes >= 1 && rows[0].openMs == s && rows[|rows| - 1].CloseMs() == s + Duration(minutes) - 1
  }

  lemma BarInBucket(cs: seq<ClosedCandle>, minutes: nat, s: int, n: nat, j: nat)
    requires minutes >= 1 && s % Duration(minutes) == 0 && j < n <= |cs| && s <= cs[j].openMs < s + Duration(minutes)
    ensures BarFrom(cs, minutes, j, n) ==
      if cs[j].openMs == s && j + minutes <= n then [Aggregate(cs[j..j + minutes], minutes)] else []
  {
    BucketOf(cs[j].openMs, s, Duration(minutes));
    StartBounds(cs[j].openMs, Duration(minutes));
  }

  /** A slice of one bucket adds at most the bar of that bucket. */
  lemma {:induction false} SliceBars(cs: seq<ClosedCandle>, minutes: nat, s: int, n: nat, lo: nat, i: nat, hi: nat)
    requires minutes >= 1 && s % Duration(minutes) == 0 && lo <= i <= hi <= n <= |cs| && GapFree(cs)
    requires forall k :: lo <= k < hi ==> s <= cs[k].openMs < s + Duration(minutes)
    ensures Bars(cs, minutes, 0, i, n) == Bars(cs, minutes, 0, lo, n)
      + (if lo < i && cs[lo].openMs == s && lo + minutes <= n then [Aggregate(cs[lo..lo + minutes], minutes)] else [])
  {
    hide BarFrom, Aggregate;
    if lo < i {
      var j: nat := i - 1;
      SliceBars(cs, minutes, s, n, lo, j, hi);
      BarInBucket(cs, minutes, s, n, j);
      if lo < j {
        assert cs[lo].openMs < cs[j].openMs;
      }
    }
  }

  lemma SliceComplete(cs: seq<ClosedCandle>, minutes: nat, s: int, n: nat, lo: nat, hi: nat)
    requires minutes >= 1 && lo < hi <= n <= |cs| && GapFree(cs)
    requires s <= cs[lo].openMs && cs[hi - 1].openMs < s + Duration(minutes)
    requires hi < n ==> cs[hi].openMs >= s + Duration(minutes)
    ensures Complete(cs[lo..hi], minutes, s) <==> cs[lo].openMs == s && lo + minutes <= n
    ensures Complete(cs[lo..hi], minutes, s) ==> hi == lo + minutes
  {
    var first := cs[0].openMs;
    assert cs[lo].openMs == first + lo * MINUTE_MS && cs[hi - 1].openMs == first + (hi - 1) * MINUTE_MS;
    assert hi < n ==> cs[hi].openMs == first + hi * MINUTE_MS;
  }

  /** A bucket's rows pass the completeness test exactly if the bucket's bar is wholly there. */
  lemma CompleteGroup(cs: seq<ClosedCandle>, minutes: nat, s: int, end: int, n: nat, lo: nat, hi: nat)
    requires minutes >= 1 && s % Duration(minutes) == 0 && end == s + Duration(minutes) && GapFree(cs) && n <= |cs|
    requires lo == Before(cs, s, n) && hi == Before(cs, end, n) && lo < hi
    ensures Bars(cs, minutes, 0, hi, n) == Bars(cs, minutes, 0, lo, n)
      + (if Complete(cs[lo..hi], minutes, s) then [Aggregate(cs[lo..hi], minutes)] else [])
  {
    BeforeSplits(cs, s, n);
    BeforeSplits(cs, end, n);
    SliceComplete(cs, minutes, s, n, lo, hi);
    SliceBars(cs, minutes, s, n, lo, hi, hi);
    assert Complete(cs[lo..hi], minutes, s) ==> cs[lo..hi] == cs[lo..lo + minutes];
  }

  // ----- The two loops

  method GroupByBucket(cs: seq<ClosedCandle>, duration: nat, evaluationMs: Option<int>)
    returns (buckets: map<int, seq<ClosedCandle>>)
    requires duration >= 1 && GapFree(cs)
    ensures Grouped(buckets, cs, BucketStarts(cs, duration), ClosedBy(cs, evaluationMs, |cs|))
  {
    ghost var starts, n := BucketStarts(cs, duration), 0;
    buckets := map[];
    for k := 0 to |cs|
      invariant n == ClosedBy(cs, evaluationMs, k)
      invariant Grouped(buckets, cs, starts, n)
    {
      ClosedByStep(cs, evaluationMs, k);
      var candle := cs[k];
      if evaluationMs.Some? && candle.CloseMs() > evaluationMs.value {
        continue;
      }
      var start := StartOf(candle.openMs, duration);
      GroupedStep(buckets, cs, starts, n, start, candle);
      buckets := buckets[start := (if start in buckets then buckets[start] else []) + [candle]];
      n := n + 1;
    }
  }

  /** The dictionary holds the groups of the first `n` candles. */
  ghost predicate Grouped(buckets: map<int, seq<ClosedCandle>>, cs: seq<ClosedCandle>, starts: seq<int>, n: nat)
    requires n <= |cs| == |starts|
  {
    forall s ::
      if s in buckets then buckets[s] != [] && buckets[s] == Group(cs, starts, s, n) else Group(cs, starts, s, n) == []
  }

  lemma GroupedStep(buckets: map<int, seq<ClosedCandle>>, cs: seq<ClosedCandle>, starts: seq<int>, n: nat, start: int,
                    candle: ClosedCandle)
    requires n < |cs| == |starts| && Grouped(buckets, cs, starts, n) && starts[n] == start && cs[n] == candle
    ensures Grouped(buckets[start := (if start in buckets then buckets[start] else []) + [candle]], cs, starts, n + 1)
  {
  }

  /** Closed candles come first. */
  lemma ClosedByStep(cs: seq<ClosedCandle>, evaluationMs: Option<int>, k: nat)
    requires GapFree(cs) && k < |cs|
    ensures ClosedBy(cs, evaluationMs, k + 1) ==
      if evaluationMs.None? || cs[k].CloseMs() <= evaluationMs.value then k + 1 else ClosedBy(cs, evaluationMs, k)
    ensures (evaluationMs.None? || cs[k].CloseMs() <= evaluationMs.value) ==> ClosedBy(cs, evaluationMs, k) == k
  {
    if k > 0 {
      assert cs[k - 1].openMs < cs[k].openMs;
    }
  }

  lemma {:induction false} GroupHas(cs: seq<ClosedCandle>, starts: seq<int>, k: nat, n: nat)
    requires k < n <= |cs| == |starts|
    ensures Group(cs, starts, starts[k], n) != []
  {
    if k < n - 1 {
      GroupHas(cs, starts, k, n - 1);
    }
  }

  lemma {:induction false} GroupFrom(cs: seq<ClosedCandle>, starts: seq<int>, s: int, n: nat) returns (k: nat)
    requires n <= |cs| == |starts| && Group(cs, starts, s, n) != []
    ensures k < n && starts[k] == s
  {
    if starts[n - 1] == s {
      k := n - 1;
    } else {
      k := GroupFrom(cs, starts, s, n - 1);
    }
  }

  /** The keys are the starts of the candles, in ascending order. */
  ghost predicate Keys(cs: seq<ClosedCandle>, starts: seq<int>, keys: seq<int>, n: nat)
    requires n <= |cs| == |starts|
  {
    && (forall i, j :: 0 <= i < j < |keys| ==> keys[i] < keys[j])
    && (forall k :: 0 <= k < n ==> starts[k] in keys)
    && (forall i :: 0 <= i < |keys| ==> Group(cs, starts, keys[i], n) != [])
  }

  lemma SortedKeys(cs: seq<ClosedCandle>, starts: seq<int>, buckets: map<int, seq<ClosedCandle>>, n: nat)
    requires n <= |cs| == |starts| && Grouped(buckets, cs, starts, n)
    ensures Keys(cs, starts, Ascending(buckets.Keys), n)
    ensures forall x :: x in Ascending(buckets.Keys) <==> x in buckets
  {
    AscendingLists(buckets.Keys);
    var keys := Ascending(buckets.Keys);
    forall k | 0 <= k < n ensures starts[k] in keys {
      GroupHas(cs, starts, k, n);
      assert starts[k] in buckets;
    }
    forall i | 0 <= i < |keys| ensures Group(cs, starts, keys[i], n) != [] {
      assert keys[i] in keys;
    }
  }

  /** Where the candles of the next key begin. */
  function Boundary(cs: seq<ClosedCandle>, keys: seq<int>, i: nat, n: nat): nat
    requires n <= |cs|
  {
    if i < |keys| then Before(cs, keys[i], n) else n
  }

  lemma FirstBoundary(cs: seq<ClosedCandle>, duration: nat, keys: seq<int>, n: nat)
    requires duration >= 1 && n <= |cs| && Keys(cs, BucketStarts(cs, duration), keys, n) && GapFree(cs)
    ensures Boundary(cs, keys, 0, n) == 0
  {
    if n > 0 {
      var start := BucketStarts(cs, duration)[0];
      StartBounds(cs[0].openMs, duration);
      var j :| 0 <= j < |keys| && keys[j] == start;
      assert keys[0] <= start;
      BeforeSplits(cs, keys[0], n);
    }
  }

  lemma KeysAligned(cs: seq<ClosedCandle>, duration: nat, keys: seq<int>, i: nat, n: nat)
    requires duration >= 1 && n <= |cs| && Keys(cs, BucketStarts(cs, duration), keys, n) && i < |keys|
    ensures keys[i] % duration == 0
  {
    var k := GroupFrom(cs, BucketStarts(cs, duration), keys[i], n);
    StartBounds(cs[k].openMs, duration);
  }

  /** A candle past the bucket at `keys[i]` belongs to a later key. */
  lemma LaterKey(cs: seq<ClosedCandle>, duration: nat, keys: seq<int>, i: nat, end: int, k: nat, n: nat)
    requires duration >= 1 && n <= |cs| && Keys(cs, BucketStarts(cs, duration), keys, n)
    requires i < |keys| && end == keys[i] + duration && k < n && cs[k].openMs >= end
    ensures i + 1 < |keys| && cs[k].openMs >= keys[i + 1]
  {
    var start := BucketStarts(cs, duration)[k];
    StartBounds(cs[k].openMs, duration);
    var j :| 0 <= j < |keys| && keys[j] == start;
    assert i < j;
  }

  lemma SameSplit(cs: seq<ClosedCandle>, t: int, u: int, n: nat)
    requires GapFree(cs) && n <= |cs| && forall k :: 0 <= k < n ==> (cs[k].openMs < t <==> cs[k].openMs < u)
    ensures Before(cs, t, n) == Before(cs, u, n)
  {
    BeforeSplits(cs, t, n);
    BeforeSplits(cs, u, n);
  }

  lemma NextBoundary(cs: seq<ClosedCandle>, duration: nat, keys: seq<int>, i: nat, end: int, n: nat)
    requires duration >= 1 && n <= |cs| && Keys(cs, BucketStarts(cs, duration), keys, n) && GapFree(cs)
    requires i < |keys| && end == keys[i] + duration
    ensures keys[i] % duration == 0 && Boundary(cs, keys, i + 1, n) == Before(cs, end, n)
  {
    KeysAligned(cs, duration, keys, i, n);
    forall k | 0 <= k < n && cs[k].openMs >= end ensures i + 1 < |keys| && cs[k].openMs >= keys[i + 1] {
      LaterKey(cs, duration, keys, i, end, k, n);
    }
    if i + 1 < |keys| {
      KeysAligned(cs, duration, keys, i + 1, n);
      AlignedApart(keys[i], keys[i + 1], duration);
      SameSplit(cs, keys[i + 1], end, n);
    } else {
      BeforeSplits(cs, end, n);
    }
  }

  lemma NoBars(cs: seq<ClosedCandle>, minutes: nat, n: nat)
    requires minutes >= 1 && n <= |cs|
    ensures Bars(cs, minutes, 0, 0, n) == []
  {
  }

  method Collect(cs: seq<ClosedCandle>, minutes: nat, buckets: map<int, seq<ClosedCandle>>, ghost n: nat)
    returns (result: seq<Derived>)
    requires minutes >= 1 && GapFree(cs) && n <= |cs| && Grouped(buckets, cs, BucketStarts(cs, Duration(minutes)), n)
    ensures result == Bars(cs, minutes, 0, n, n)
  {
    hide Bars, Group, Aggregate, Before, Keys, BucketStarts;
    var keys := Ascending(buckets.Keys);
    ghost var starts := BucketStarts(cs, Duration(minutes));
    NoBars(cs, minutes, n);
    SortedKeys(cs, starts, buckets, n);
    FirstBoundary(cs, Duration(minutes), keys, n);
    result := [];
    for i := 0 to |keys|
      invariant Boundary(cs, keys, i, n) <= n && result == Bars(cs, minutes, 0, Boundary(cs, keys, i, n), n)
    {
      assert keys[i] in keys;
      var rows := buckets[keys[i]];
      BucketRows(cs, minutes, keys, i, n, keys[i] + Duration(minutes));
      var end := keys[i] + Duration(minutes) - 1;
      if |rows| == minutes && rows[0].openMs == keys[i] && rows[|rows| - 1].CloseMs() == end {
        result := result + [Aggregate(rows, minutes)];
      }
    }
  }

  lemma BucketRows(cs: seq<ClosedCandle>, minutes: nat, keys: seq<int>, i: nat, n: nat, end: int)
    requires minutes >= 1 && GapFree(cs) && n <= |cs| && Keys(cs, BucketStarts(cs, Duration(minutes)), keys, n)
    requires i < |keys| && end == keys[i] + Duration(minutes)
    ensures var rows := Group(cs, BucketStarts(cs, Duration(minutes)), keys[i], n);
      var lo, hi := Boundary(cs, keys, i, n), Boundary(cs, keys, i + 1, n);
      lo <= hi <= n && rows != []
      && Bars(cs, minutes, 0, hi, n) == Bars(cs, minutes, 0, lo, n)
           + (if Complete(rows, minutes, keys[i]) then [Aggregate(rows, minutes)] else [])
  {
    NextBoundary(cs, Duration(minutes), keys, i, end, n);
    StartsSort(cs, Duration(minutes), keys[i], end);
    GroupIsSlice(cs, BucketStarts(cs, Duration(minutes)), keys[i], end, n);
    CompleteGroup(cs, minutes, keys[i], end, n, Before(cs, keys[i], n), Before(cs, end, n));
  }

  // ----- The bars from the candles alone

  /** `sums[k]` adds up the quote volumes of the first `k` rows. */
  ghost predicate QuoteSums(rows: seq<ClosedCandle>, sums: seq<real>) {
    && |sums| == |rows| + 1 && sums[0] == 0.0
    && forall k :: 0 <= k < |rows| ==> rows[k].quoteVolume.Some? && sums[k + 1] == sums[k] + rows[k].quoteVolume.value
  }

  ghost predicate BaseSums(rows: seq<ClosedCandle>, sums: seq<real>) {
    && |sums| == |rows| + 1 && sums[0] == 0.0
    && forall k :: 0 <= k < |rows| ==> sums[k + 1] == sums[k] + rows[k].baseVolume
  }

  /** The bar of some rows: the first open, the last close, the extremes, and the sums of the volumes. */
  ghost predicate Summarizes(rows: seq<ClosedCandle>, minutes: nat, b: Derived) {
    && rows != [] && b.instrument == rows[0].instrument && b.minutes == minutes
    && b.openMs == rows[0].openMs && b.closeMs == rows[|rows| - 1].openMs + 59_999
    && b.bar.open == rows[0].bar.open && b.bar.close == rows[|rows| - 1].bar.close
    && (forall k :: 0 <= k < |rows| ==> b.bar.low <= rows[k].bar.low && rows[k].bar.high <= b.bar.high)
    && (exists k :: 0 <= k < |rows| && rows[k].bar.low == b.bar.low)
    && (exists k :: 0 <= k < |rows| && rows[k].bar.high == b.bar.high)
    && (exists sums :: BaseSums(rows, sums) && b.baseVolume == sums[|rows|])
    && (b.quoteVolume.None? <==> exists k :: 0 <= k < |rows| && rows[k].quoteVolume.None?)
    && (b.quoteVolume.Some? ==> exists sums :: QuoteSums(rows, sums) && b.quoteVolume.value == sums[|rows|])
  }

  /** A bar starts at candle `i`: on a boundary of the timeframe, with `minutes` candles all closed by the time. */
  predicate Begins(cs: seq<ClosedCandle>, minutes: nat, evaluationMs: Option<int>, i: nat)
    requires minutes >= 1
  {
    && i + minutes <= |cs| && cs[i].openMs % (minutes * 60_000) == 0
    && (evaluationMs.None? || cs[i + minutes - 1].openMs + 59_999 <= evaluationMs.value)
  }

  /** One bar for each candle that begins one, in order. */
  ghost predicate Derives(cs: seq<ClosedCandle>, minutes: nat, evaluationMs: Option<int>, bars: seq<Derived>,
                          at: seq<nat>)
    requires minutes >= 1
  {
    && |at| == |bars|
    && (forall j, k :: 0 <= j < k < |at| ==> at[j] < at[k])
    && (forall i: nat :: i in at <==> Begins(cs, minutes, evaluationMs, i))
    && (forall k :: 0 <= k < |at| ==>
          at[k] + minutes <= |cs| && Summarizes(cs[at[k]..at[k] + minutes], minutes, bars[k]))
  }

  lemma {:induction false} BaseOutcome(rows: seq<ClosedCandle>) returns (sums: seq<real>)
    ensures BaseSums(rows, sums) && BaseVolume(rows) == sums[|rows|]
  {
    if rows == [] {
      sums := [0.0];
    } else {
      sums := BaseOutcome(rows[..|rows| - 1]);
      sums := sums + [sums[|rows| - 1] + rows[|rows| - 1].baseVolume];
    }
  }

  lemma {:induction false} QuoteOutcome(rows: seq<ClosedCandle>) returns (sums: seq<real>)
    ensures QuoteVolume(rows).None? <==> exists k :: 0 <= k < |rows| && rows[k].quoteVolume.None?
    ensures QuoteVolume(rows).Some? ==> QuoteSums(rows, sums) && QuoteVolume(rows).value == sums[|rows|]
  {
    if rows == [] {
      sums := [0.0];
    } else {
      var n, last := |rows| - 1, rows[|rows| - 1];
      sums := QuoteOutcome(rows[..n]);
      if QuoteVolume(rows).Some? {
        sums := sums + [sums[n] + last.quoteVolume.value];
      } else if last.quoteVolume.Some? {
        var k :| 0 <= k < n && rows[..n][k].quoteVolume.None?;
        assert rows[k].quoteVolume.None?;
      }
    }
  }

  lemma AggregateOutcome(rows: seq<ClosedCandle>, minutes: nat)
    requires rows != [] && minutes == |rows| && rows[|rows| - 1].openMs == rows[0].openMs + (minutes - 1) * MINUTE_MS
    ensures Summarizes(rows, minutes, Aggregate(rows, minutes))
  {
    hide BaseSums, QuoteSums, BaseVolume, QuoteVolume;
    var base := BaseOutcome(rows);
    var quote := QuoteOutcome(rows);
  }

  /** A bar starts at candle `i` and ends before `n`. */
  predicate BeginsBefore(cs: seq<ClosedCandle>, minutes: nat, n: nat, i: nat)
    requires minutes >= 1 && n <= |cs|
  {
    i + minutes <= n && cs[i].openMs % (minutes * 60_000) == 0
  }

  lemma BarFromOutcome(cs: seq<ClosedCandle>, minutes: nat, i: nat, n: nat)
    requires minutes >= 1 && GapFree(cs) && i < n <= |cs|
    ensures BarFrom(cs, minutes, i, n) != [] <==> BeginsBefore(cs, minutes, n, i)
    ensures BeginsBefore(cs, minutes, n, i) ==>
      Summarizes(cs[i..i + minutes], minutes, BarFrom(cs, minutes, i, n)[0])
  {
    hide Summarizes, Aggregate;
    if BeginsBefore(cs, minutes, n, i) {
      var last := i + minutes - 1;
      assert cs[i].openMs == cs[0].openMs + i * MINUTE_MS && cs[last].openMs == cs[0].openMs + last * MINUTE_MS;
      AggregateOutcome(cs[i..i + minutes], minutes);
    }
  }

  lemma {:induction false} BarsOutcome(cs: seq<ClosedCandle>, minutes: nat, i: nat, n: nat) returns (at: seq<nat>)
    requires minutes >= 1 && GapFree(cs) && i <= n <= |cs|
    ensures forall j, k :: 0 <= j < k < |at| ==> at[j] < at[k]
    ensures forall j: nat :: j in at <==> j < i && BeginsBefore(cs, minutes, n, j)
    ensures |at| == |Bars(cs, minutes, 0, i, n)|
    ensures forall k :: 0 <= k < |at| ==>
      at[k] + minutes <= |cs| && Summarizes(cs[at[k]..at[k] + minutes], minutes, Bars(cs, minutes, 0, i, n)[k])
  {
    hide Summarizes, BarFrom, BeginsBefore, GapFree;
    if i == 0 {
      at := [];
    } else {
      var j: nat := i - 1;
      at := BarsOutcome(cs, minutes, j, n);
      BarFromOutcome(cs, minutes, j, n);
      if BeginsBefore(cs, minutes, n, j) {
        BeginsInside(cs, minutes, n, j);
        assert forall k :: 0 <= k < |at| ==> at[k] in at;
        assert forall k: nat :: k in at + [j] <==> k in at || k == j;
        at := at + [j];
      }
    }
  }

  lemma BeginsInside(cs: seq<ClosedCandle>, minutes: nat, n: nat, i: nat)
    requires minutes >= 1 && n <= |cs| && BeginsBefore(cs, minutes, n, i)
    ensures i + minutes <= n
  {
  }

  lemma {:induction false} ClosedByOutcome(cs: seq<ClosedCandle>, evaluationMs: Option<int>, n: nat)
    requires GapFree(cs) && n <= |cs|
    ensures forall k :: 0 <= k < n ==>
      (k < ClosedBy(cs, evaluationMs, n) <==> evaluationMs.None? || cs[k].openMs + 59_999 <= evaluationMs.value)
  {
    if n > 0 {
      var last: nat := n - 1;
      ClosedByOutcome(cs, evaluationMs, last);
      ClosedByStep(cs, evaluationMs, last);
    }
  }

  lemma ResampledOutcome(cs: seq<ClosedCandle>, minutes: nat, evaluationMs: Option<int>) returns (at: seq<nat>)
    requires minutes >= 1 && GapFree(cs)
    ensures var n := ClosedBy(cs, evaluationMs, |cs|);
      Derives(cs, minutes, evaluationMs, Bars(cs, minutes, 0, n, n), at)
  {
    hide Summarizes, Bars;
    var n := ClosedBy(cs, evaluationMs, |cs|);
    at := BarsOutcome(cs, minutes, n, n);
    ClosedByOutcome(cs, evaluationMs, |cs|);
    forall i: nat ensures i in at <==> Begins(cs, minutes, evaluationMs, i) {
      assert i + minutes <= |cs| ==> (i + minutes - 1 < n <==> i + minutes <= n);
    }
  }

  /** What resampling gives: the complete bars of the closed candles, or why it is refused. */
  function Resample(cs: seq<ClosedCandle>, minutes: nat, evaluationMs: Option<int>): ResampleOutcome
    requires minutes >= 1
  {
    if minutes == 1 then TooFine
    else if evaluationMs.Some? && evaluationMs.value < 0 then NegativeTime
    else if cs == [] then Resampled([])
    else if !OneIdentity(cs) then MixedIdentity
    else if !Consecutive(cs) then NotContiguous
    else var n := ClosedBy(cs, evaluationMs, |cs|); Resampled(Bars(cs, minutes, 0, n, n))
  }

  lemma DerivesNothing(minutes: nat, evaluationMs: Option<int>)
    requires minutes >= 1
    ensures Derives([], minutes, evaluationMs, [], [])
  {
  }

  method ResampleComplete(cs: seq<ClosedCandle>, minutes: nat, evaluationMs: Option<int>)
    returns (outcome: ResampleOutcome)
    requires minutes >= 1
    ensures outcome == Resample(cs, minutes, evaluationMs)
    ensures outcome == TooFine <==> minutes == 1
    ensures outcome == NegativeTime <==> minutes > 1 && evaluationMs.Some? && evaluationMs.value < 0
    ensures outcome == MixedIdentity <==>
      && minutes > 1 && (evaluationMs.None? || evaluationMs.value >= 0)
      && exists i :: 0 <= i < |cs| &&
           (cs[i].provider, cs[i].instrument, cs[i].symbol) != (cs[0].provider, cs[0].instrument, cs[0].symbol)
    ensures outcome == NotContiguous ==> exists i :: 0 < i < |cs| && cs[i].openMs != cs[i - 1].openMs + 60_000
    ensures outcome.Resampled? ==> forall i :: 0 < i < |cs| ==> cs[i].openMs == cs[i - 1].openMs + 60_000
    ensures outcome.Resampled? ==> exists at :: Derives(cs, minutes, evaluationMs, outcome.bars, at)
  {
    hide Derives, Bars;
    if minutes == 1 {
      return TooFine;
    }
    if evaluationMs.Some? && evaluationMs.value < 0 {
      return NegativeTime;
    }
    if cs == [] {
      assert Derives(cs, minutes, evaluationMs, [], []) by { DerivesNothing(minutes, evaluationMs); }
      return Resampled([]);
    }
    if exists i :: 0 <= i < |cs| && !SameIdentity(cs[i], cs[0]) {
      return MixedIdentity;
    }
    if exists i :: 0 <= i < |cs| - 1 && cs[i + 1].openMs != cs[i].openMs + MINUTE_MS {
      return NotContiguous;
    }
    forall i | 0 <= i < |cs| ensures cs[i].openMs == cs[0].openMs + i * MINUTE_MS {
      ConsecutiveIsGapFree(cs, i);
    }
    var buckets := GroupByBucket(cs, Duration(minutes), evaluationMs);
    var bars := Collect(cs, minutes, buckets, ClosedBy(cs, evaluationMs, |cs|));
    ghost var at := ResampledOutcome(cs, minutes, evaluationMs);
    return Resampled(bars);
  }

  datatype Role = Role(name: nat, minutes: nat)

  datatype RolesOutcome = Roles(series: map<nat, seq<Derived>>) | Refused(reason: ResampleOutcome)

  /** Each role gets the series of its own timeframe; equal timeframes are resampled once. */
  method ResampleRoles(cs: seq<ClosedCandle>, roles: seq<Role>, evaluationMs: Option<int>)
    returns (outcome: RolesOutcome)
    requires forall i :: 0 <= i < |roles| ==> roles[i].minutes >= 1
    requires forall i, j :: 0 <= i < j < |roles| ==> roles[i].name != roles[j].name
    ensures outcome.Roles? ==>
      && (forall name :: name in outcome.series ==> exists i :: 0 <= i < |roles| && roles[i].name == name)
      && (forall i :: 0 <= i < |roles| ==>
            && roles[i].name in outcome.series
            && Resample(cs, roles[i].minutes, evaluationMs) == Resampled(outcome.series[roles[i].name]))
    ensures outcome.Refused? ==>
      && !outcome.reason.Resampled?
      && exists i :: 0 <= i < |roles| && Resample(cs, roles[i].minutes, evaluationMs) == outcome.reason
  {
    var result, cache: map<nat, seq<Derived>> := map[], map[];
    for k := 0 to |roles|
      invariant forall m :: m in cache ==> m >= 1 && Resample(cs, m, evaluationMs) == Resampled(cache[m])
      invariant forall name :: name in result ==> exists i :: 0 <= i < k && roles[i].name == name
      invariant forall i :: 0 <= i < k ==>
        roles[i].name in result && Resample(cs, roles[i].minutes, evaluationMs) == Resampled(result[roles[i].name])
    {
      var minutes := roles[k].minutes;
      if minutes !in cache {
        var bars := ResampleComplete(cs, minutes, evaluationMs);
        if !bars.Resampled? {
          return Refused(bars);
        }
        cache := cache[minutes := bars.bars];
      }
      result := result[roles[k].name := cache[minutes]];
    }
    return Roles(result);
  }
}
