/** Point-in-time replay windows against the window the live engine resamples. */
module Replay {
  import opened Sequences
  import opened Candles
  import opened Resampling

  // ----- The schedule

  datatype RequiredRange = RequiredRange(startMs: int, endMs: int)

  /** The period widened by its history; `None` where the code raises. */
  function Resolve(periodStart: int, periodEnd: int, historyMinutes: int): (r: Option<RequiredRange>)
    ensures r.None? <==> historyMinutes < 1 || periodStart < historyMinutes * 60_000
    ensures r.Some? ==> periodStart - r.value.startMs == historyMinutes * 60_000 && r.value.endMs == periodEnd
  {
    if historyMinutes < 1 || periodStart - historyMinutes * MINUTE_MS < 0 then None
    else Some(RequiredRange(periodStart - historyMinutes * MINUTE_MS, periodEnd))
  }

  /** Closes of the execution bars that lie inside the period. */
  function Schedule(series: seq<Derived>, periodStart: int, periodEnd: int): seq<int> {
    if series == [] then []
    else
      var rest, last := Schedule(series[..|series| - 1], periodStart, periodEnd), series[|series| - 1];
      if last.openMs >= periodStart && last.closeMs <= periodEnd + MINUTE_MS - 1 then rest + [last.closeMs] else rest
  }

  /** The bar opens no earlier than the period and closes no later than its last minute. */
  predicate Scheduled(b: Derived, periodStart: int, periodEnd: int) {
    b.openMs >= periodStart && b.closeMs <= periodEnd + 59_999
  }

  /** `at` lists, in order, the bars that are scheduled. */
  ghost predicate InPeriod(series: seq<Derived>, periodStart: int, periodEnd: int, at: seq<nat>) {
    && (forall j, k :: 0 <= j < k < |at| ==> at[j] < at[k])
    && (forall k: nat :: k in at <==> k < |series| && Scheduled(series[k], periodStart, periodEnd))
  }

  lemma InPeriodNext(series: seq<Derived>, b: Derived, periodStart: int, periodEnd: int, at: seq<nat>)
    requires InPeriod(series, periodStart, periodEnd, at)
    ensures InPeriod(series + [b], periodStart, periodEnd,
                     if Scheduled(b, periodStart, periodEnd) then at + [|series|] else at)
  {
    hide Scheduled;
    var longer := series + [b];
    assert longer[|series|] == b && forall k :: 0 <= k < |series| ==> longer[k] == series[k];
    assert forall k :: 0 <= k < |at| ==> at[k] in at;
    assert forall k: nat :: k in at + [|series|] <==> k in at || k == |series|;
  }

  ghost predicate ClosesAt(series: seq<Derived>, at: seq<nat>, times: seq<int>) {
    |times| == |at| && forall j :: 0 <= j < |at| ==> at[j] < |series| && times[j] == series[at[j]].closeMs
  }

  lemma ClosesNext(series: seq<Derived>, b: Derived, at: seq<nat>, times: seq<int>)
    requires ClosesAt(series, at, times)
    ensures ClosesAt(series + [b], at, times) && ClosesAt(series + [b], at + [|series|], times + [b.closeMs])
  {
  }

  lemma ScheduleNext(series: seq<Derived>, b: Derived, periodStart: int, periodEnd: int)
    ensures var rest := Schedule(series, periodStart, periodEnd);
      Schedule(series + [b], periodStart, periodEnd)
        == if Scheduled(b, periodStart, periodEnd) then rest + [b.closeMs] else rest
  {
    var longer := series + [b];
    assert longer[..|longer| - 1] == series && longer[|longer| - 1] == b;
  }

  lemma NothingScheduled(periodStart: int, periodEnd: int)
    ensures InPeriod([], periodStart, periodEnd, []) && ClosesAt([], [], Schedule([], periodStart, periodEnd))
  {
  }

  /** The schedule: the closes of those bars. */
  lemma {:induction false} ScheduleOutcome(series: seq<Derived>, periodStart: int, periodEnd: int)
    returns (at: seq<nat>)
    ensures InPeriod(series, periodStart, periodEnd, at)
    ensures ClosesAt(series, at, Schedule(series, periodStart, periodEnd))
  {
    hide InPeriod, ClosesAt, Scheduled, Schedule;
    if series == [] {
      at := [];
      NothingScheduled(periodStart, periodEnd);
    } else {
      var before, last := series[..|series| - 1], series[|series| - 1];
      at := ScheduleOutcome(before, periodStart, periodEnd);
      assert before + [last] == series;
      InPeriodNext(before, last, periodStart, periodEnd, at);
      ClosesNext(before, last, at, Schedule(before, periodStart, periodEnd));
      ScheduleNext(before, last, periodStart, periodEnd);
      if Scheduled(last, periodStart, periodEnd) {
        at := at + [|before|];
      }
    }
  }

  lemma ScheduledBar(series: seq<Derived>, periodStart: int, periodEnd: int, t: int) returns (k: nat)
    requires t in Schedule(series, periodStart, periodEnd)
    ensures k < |series| && series[k].closeMs == t && Scheduled(series[k], periodStart, periodEnd)
  {
    var times := Schedule(series, periodStart, periodEnd);
    var at := ScheduleOutcome(series, periodStart, periodEnd);
    hide Schedule, Scheduled;
    var i :| 0 <= i < |times| && times[i] == t;
    assert at[i] in at;
    k := at[i];
  }

  // ----- The slice

  ghost predicate IncreasingCloses(series: seq<Derived>) {
    forall j, k :: 0 <= j < k < |series| ==> series[j].closeMs < series[k].closeMs
  }

  /** Insertion point to the right of `x` in the ascending closes. */
  method BisectRight(series: seq<Derived>, x: int) returns (r: nat)
    requires IncreasingCloses(series)
    ensures r <= |series| && forall k :: 0 <= k < |series| ==> (k < r <==> series[k].closeMs <= x)
  {
    r := 0;
    var hi := |series|;
    while r < hi
      invariant r <= hi <= |series|
      invariant forall k :: 0 <= k < r ==> series[k].closeMs <= x
      invariant forall k :: hi <= k < |series| ==> x < series[k].closeMs
    {
      var mid := (r + hi) / 2;
      if x < series[mid].closeMs {
        hi := mid;
      } else {
        r := mid + 1;
      }
    }
  }

  /** The bars that close after `after` and by `through`. */
  function Window(series: seq<Derived>, after: int, through: int): seq<Derived> {
    if series == [] then []
    else
      var rest, last := Window(series[..|series| - 1], after, through), series[|series| - 1];
      if after < last.closeMs <= through then rest + [last] else rest
  }

  lemma {:induction false} WindowIsSlice(series: seq<Derived>, after: int, through: int, lo: nat, hi: nat)
    requires lo <= hi <= |series|
    requires forall k :: 0 <= k < |series| ==> (k < lo <==> series[k].closeMs <= after)
    requires forall k :: 0 <= k < |series| ==> (k < hi <==> series[k].closeMs <= through)
    ensures Window(series, after, through) == series[lo..hi]
  {
    if series != [] {
      var n := |series| - 1;
      WindowIsSlice(series[..n], after, through, if lo <= n then lo else n, if hi <= n then hi else n);
      if hi <= n {
        assert series[..n][lo..hi] == series[lo..hi];
      } else if lo <= n {
        assert series[lo..hi] == series[..n][lo..n] + [series[n]];
      }
    }
  }

  method Prefix(series: seq<Derived>, evaluationMs: int, historyMinutes: nat) returns (slice: seq<Derived>)
    requires IncreasingCloses(series)
    ensures slice == Window(series, evaluationMs - historyMinutes * MINUTE_MS, evaluationMs)
    ensures exists lo, hi ::
      && 0 <= lo <= hi <= |series| && slice == series[lo..hi]
      && forall k :: 0 <= k < |series| ==>
           (lo <= k < hi <==> evaluationMs - historyMinutes * 60_000 < series[k].closeMs <= evaluationMs)
  {
    var earliest := evaluationMs - historyMinutes * MINUTE_MS;
    var start := BisectRight(series, earliest);
    var end := BisectRight(series, evaluationMs);
    assert start <= end by {
      assert end < |series| ==> series[end].closeMs > earliest;
    }
    WindowIsSlice(series, earliest, evaluationMs, start, end);
    slice := series[start..end];
  }

  // ----- Bars that follow one another

  ghost predicate Contiguous(series: seq<Derived>) {
    forall k :: 0 < k < |series| ==> series[k].openMs == series[k - 1].closeMs + 1
  }

  /** The last start of a complete bar in `[lo, i)`. */
  ghost function LastStart(cs: seq<ClosedCandle>, minutes: nat, lo: nat, i: nat, hi: nat): (r: Option<nat>)
    requires minutes >= 1 && lo <= i <= hi <= |cs|
    ensures r.Some? ==> lo <= r.value < i && r.value + minutes <= hi && StartsBar(cs[r.value], minutes)
    ensures forall k :: lo <= k < i && k + minutes <= hi && StartsBar(cs[k], minutes) ==> r.Some? && k <= r.value
  {
    if i == lo then None
    else if StartsBar(cs[i - 1], minutes) && i - 1 + minutes <= hi then Some(i - 1)
    else LastStart(cs, minutes, lo, i - 1, hi)
  }

  /** Two neighbouring starts are one duration apart. */
  lemma NextStart(cs: seq<ClosedCandle>, minutes: nat, duration: nat, lo: nat, j: nat, i: nat, hi: nat)
    requires minutes >= 1 && duration == Duration(minutes) && lo <= j < i && i + minutes <= hi <= |cs| && GapFree(cs)
    requires StartsBar(cs[i], minutes) && LastStart(cs, minutes, lo, i, hi) == Some(j)
    ensures i == j + minutes
  {
    AlignedApart(cs[j].openMs, cs[i].openMs, duration);
    AlignedNext(cs[j].openMs, duration);
    var k := j + minutes;
    assert cs[k].openMs == cs[j].openMs + duration;
    assert StartsBar(cs[k], minutes);
  }

  lemma ContiguousAppend(series: seq<Derived>, b: Derived)
    requires Contiguous(series) && (series != [] ==> b.openMs == series[|series| - 1].closeMs + 1)
    ensures Contiguous(series + [b])
  {
  }

  lemma StartsIffBar(cs: seq<ClosedCandle>, minutes: nat, i: nat, hi: nat)
    requires minutes >= 1 && i < hi <= |cs|
    ensures BarFrom(cs, minutes, i, hi) != [] <==> StartsBar(cs[i], minutes) && i + minutes <= hi
  {
  }

  /** A contiguous series whose last bar starts at `last`. */
  ghost predicate EndsAtStart(cs: seq<ClosedCandle>, minutes: nat, hi: nat, series: seq<Derived>, last: Option<nat>)
    requires minutes >= 1 && hi <= |cs| && (last.Some? ==> last.value < hi)
  {
    && Contiguous(series)
    && (last.None? <==> series == [])
    && (last.Some? ==> BarFrom(cs, minutes, last.value, hi) == [series[|series| - 1]])
  }

  lemma NextBar(cs: seq<ClosedCandle>, minutes: nat, lo: nat, j: nat, hi: nat, before: seq<Derived>, last: Option<nat>)
    requires minutes >= 1 && lo <= j < hi <= |cs| && GapFree(cs) && last == LastStart(cs, minutes, lo, j, hi)
    requires EndsAtStart(cs, minutes, hi, before, last)
    ensures var now := BarFrom(cs, minutes, j, hi);
      EndsAtStart(cs, minutes, hi, before + now, if now == [] then last else Some(j))
  {
    hide Aggregate, BarFrom, StartsBar, GapFree, Contiguous, LastStart;
    var now := BarFrom(cs, minutes, j, hi);
    StartsIffBar(cs, minutes, j, hi);
    if now == [] {
      assert before + now == before;
    } else {
      assert now == [now[0]];
      if last.Some? {
        NextStart(cs, minutes, Duration(minutes), lo, last.value, j, hi);
        FollowsBar(cs, minutes, last.value, j, hi, before[|before| - 1], now[0]);
      }
      ContiguousAppend(before, now[0]);
    }
  }

  lemma LastStartNext(cs: seq<ClosedCandle>, minutes: nat, lo: nat, j: nat, i: nat, hi: nat)
    requires minutes >= 1 && lo <= j < i == j + 1 <= hi <= |cs|
    ensures LastStart(cs, minutes, lo, i, hi) ==
      if BarFrom(cs, minutes, j, hi) == [] then LastStart(cs, minutes, lo, j, hi) else Some(j)
    ensures Bars(cs, minutes, lo, i, hi) == Bars(cs, minutes, lo, j, hi) + BarFrom(cs, minutes, j, hi)
  {
    hide Aggregate, StartsBar;
    StartsIffBar(cs, minutes, j, hi);
  }

  lemma {:induction false} BarsContiguous(cs: seq<ClosedCandle>, minutes: nat, lo: nat, i: nat, hi: nat)
    requires minutes >= 1 && lo <= i <= hi <= |cs| && GapFree(cs)
    ensures var series, last := Bars(cs, minutes, lo, i, hi), LastStart(cs, minutes, lo, i, hi);
      EndsAtStart(cs, minutes, hi, series, last) && Contiguous(series)
  {
    hide BarFrom, GapFree, StartsBar;
    if lo < i {
      var j: nat := i - 1;
      BarsContiguous(cs, minutes, lo, j, hi);
      LastStartNext(cs, minutes, lo, j, i, hi);
      NextBar(cs, minutes, lo, j, hi, Bars(cs, minutes, lo, j, hi), LastStart(cs, minutes, lo, j, hi));
    }
  }

  lemma FollowsBar(cs: seq<ClosedCandle>, minutes: nat, j: nat, i: nat, hi: nat, earlier: Derived, later: Derived)
    requires minutes >= 1 && GapFree(cs) && i == j + minutes && i < hi <= |cs|
    requires BarFrom(cs, minutes, j, hi) == [earlier] && BarFrom(cs, minutes, i, hi) == [later]
    ensures later.openMs == earlier.closeMs + 1
  {
    CloseOf(cs, minutes, j);
    assert BarFrom(cs, minutes, j, hi)[0] == earlier && BarFrom(cs, minutes, i, hi)[0] == later;
    assert cs[i].openMs == cs[0].openMs + i * MINUTE_MS && cs[j].openMs == cs[0].openMs + j * MINUTE_MS;
  }

  lemma {:induction false} ContiguousIncreases(series: seq<Derived>, minutes: nat, j: nat, k: nat)
    requires minutes >= 1 && Contiguous(series)
    requires forall b :: b in series ==> b.closeMs == b.openMs + Duration(minutes) - 1
    requires j < k < |series|
    ensures series[j].closeMs < series[k].closeMs
  {
    if j < k - 1 {
      ContiguousIncreases(series, minutes, j, k - 1);
    }
    assert series[k] in series;
  }

  lemma {:induction false} BarsLength(cs: seq<ClosedCandle>, minutes: nat, lo: nat, i: nat, hi: nat)
    requires minutes >= 1 && lo <= i <= hi <= |cs|
    ensures forall b :: b in Bars(cs, minutes, lo, i, hi) ==> b.closeMs == b.openMs + Duration(minutes) - 1
  {
    if lo < i {
      BarsLength(cs, minutes, lo, i - 1, hi);
    }
  }

  lemma SeriesIncreases(cs: seq<ClosedCandle>, minutes: nat)
    requires minutes >= 1 && GapFree(cs)
    ensures IncreasingCloses(Bars(cs, minutes, 0, |cs|, |cs|))
  {
    var series := Bars(cs, minutes, 0, |cs|, |cs|);
    BarsContiguous(cs, minutes, 0, |cs|, |cs|);
    BarsLength(cs, minutes, 0, |cs|, |cs|);
    forall j, k | 0 <= j < k < |series| ensures series[j].closeMs < series[k].closeMs {
      ContiguousIncreases(series, minutes, j, k);
    }
  }

  // ----- Replay against live

  lemma CloseOf(cs: seq<ClosedCandle>, minutes: nat, j: nat)
    requires minutes >= 1 && j + minutes <= |cs| && GapFree(cs)
    ensures Aggregate(cs[j..j + minutes], minutes).openMs == cs[j].openMs
    ensures Aggregate(cs[j..j + minutes], minutes).closeMs ==
      cs[j + minutes - 1].CloseMs() == cs[j].openMs + Duration(minutes) - 1
  {
    var last := j + minutes - 1;
    assert cs[last].openMs == cs[0].openMs + last * MINUTE_MS && cs[j].openMs == cs[0].openMs + j * MINUTE_MS;
  }

  lemma ClosesInside(cs: seq<ClosedCandle>, minutes: nat, lo: nat, hi: nat, j: nat, after: int, through: int)
    requires minutes >= 1 && lo < hi <= |cs| && j + minutes <= |cs| && GapFree(cs)
    requires after == cs[lo].openMs - 1 && through == cs[hi - 1].CloseMs()
    ensures after < cs[j].openMs + Duration(minutes) - 1 <= through <==> lo < j + minutes <= hi
  {
    var first := cs[0].openMs;
    assert cs[j].openMs == first + j * MINUTE_MS && cs[lo].openMs == first + lo * MINUTE_MS;
    assert cs[hi - 1].openMs == first + (hi - 1) * MINUTE_MS;
  }

  /** The bar that starts at candle `j`, if the data holds all of it. */
  function Mark(cs: seq<ClosedCandle>, minutes: nat, j: nat): (r: Option<Derived>)
    requires minutes >= 1 && j < |cs|
    ensures r.Some? <==> StartsBar(cs[j], minutes) && j + minutes <= |cs|
  {
    if StartsBar(cs[j], minutes) && j + minutes <= |cs| then Some(Aggregate(cs[j..j + minutes], minutes)) else None
  }

  function Marks(cs: seq<ClosedCandle>, minutes: nat): (r: seq<Option<Derived>>)
    requires minutes >= 1
    ensures |r| == |cs| && forall j :: 0 <= j < |cs| ==> r[j] == Mark(cs, minutes, j)
  {
    seq(|cs|, j requires 0 <= j < |cs| => Mark(cs, minutes, j))
  }

  /** The marked bar that starts at candle `j` and ends by `hi`. */
  function ListedAt(marks: seq<Option<Derived>>, minutes: nat, j: nat, hi: nat): seq<Derived>
    requires j < |marks|
  {
    if marks[j].Some? && j + minutes <= hi then [marks[j].value] else []
  }

  /** The marked bars that start in `[lo, i)` and end by `hi`. */
  function Listed(marks: seq<Option<Derived>>, minutes: nat, lo: nat, i: nat, hi: nat): seq<Derived>
    requires lo <= i <= |marks|
  {
    if i == lo then [] else Listed(marks, minutes, lo, i - 1, hi) + ListedAt(marks, minutes, i - 1, hi)
  }

  lemma MarkedBar(cs: seq<ClosedCandle>, minutes: nat, marks: seq<Option<Derived>>, j: nat, hi: nat)
    requires minutes >= 1 && j < hi <= |cs| && |marks| == |cs| && marks[j] == Mark(cs, minutes, j)
    ensures BarFrom(cs, minutes, j, hi) == ListedAt(marks, minutes, j, hi)
  {
  }

  lemma {:induction false} BarsListed(cs: seq<ClosedCandle>, minutes: nat, marks: seq<Option<Derived>>, lo: nat, i: nat,
                                      hi: nat)
    requires minutes >= 1 && lo <= i <= hi <= |cs| == |marks|
    requires forall j :: lo <= j < hi ==> BarFrom(cs, minutes, j, hi) == ListedAt(marks, minutes, j, hi)
    ensures Bars(cs, minutes, lo, i, hi) == Listed(marks, minutes, lo, i, hi)
  {
    hide BarFrom, ListedAt;
    if lo < i {
      var j: nat := i - 1;
      BarsListed(cs, minutes, marks, lo, j, hi);
      assert BarFrom(cs, minutes, j, hi) == ListedAt(marks, minutes, j, hi);
    }
  }

  lemma BarsAreListed(cs: seq<ClosedCandle>, minutes: nat, marks: seq<Option<Derived>>, lo: nat, hi: nat)
    requires minutes >= 1 && lo <= hi <= |cs| && marks == Marks(cs, minutes)
    ensures Bars(cs, minutes, lo, hi, hi) == Listed(marks, minutes, lo, hi, hi)
  {
    forall j | lo <= j < hi ensures BarFrom(cs, minutes, j, hi) == ListedAt(marks, minutes, j, hi) {
      MarkedBar(cs, minutes, marks, j, hi);
    }
    BarsListed(cs, minutes, marks, lo, hi, hi);
  }

  /** The window of times keeps exactly the marked bars that end inside the window of candles. */
  ghost predicate Cuts(marks: seq<Option<Derived>>, minutes: nat, lo: nat, hi: nat, after: int, through: int) {
    forall j :: 0 <= j < |marks| && marks[j].Some? ==>
      (after < marks[j].value.closeMs <= through <==> lo < j + minutes <= hi)
  }

  lemma WindowCuts(cs: seq<ClosedCandle>, minutes: nat, lo: nat, hi: nat, after: int, through: int)
    requires minutes >= 1 && lo < hi <= |cs| && GapFree(cs)
    requires after == cs[lo].openMs - 1 && through == cs[hi - 1].CloseMs()
    ensures Cuts(Marks(cs, minutes), minutes, lo, hi, after, through)
  {
    var marks := Marks(cs, minutes);
    forall j | 0 <= j < |marks| && marks[j].Some?
      ensures after < marks[j].value.closeMs <= through <==> lo < j + minutes <= hi
    {
      CloseOf(cs, minutes, j);
      ClosesInside(cs, minutes, lo, hi, j, after, through);
    }
  }

  lemma WindowAppend(series: seq<Derived>, more: seq<Derived>, after: int, through: int)
    requires |more| <= 1
    ensures Window(series + more, after, through)
         == Window(series, after, through) + (if more != [] && after < more[0].closeMs <= through then more else [])
  {
    if more == [] {
      assert series + more == series;
    } else {
      assert (series + more)[..|series|] == series;
    }
  }

  /** A bucket that begins before the window and ends inside it, wholly in the data. */
  predicate Straddles(marks: seq<Option<Derived>>, minutes: nat, lo: nat, hi: nat, j: nat) {
    j < |marks| && j < lo < j + minutes <= hi && marks[j].Some?
  }

  /** The bars of straddling buckets among the first `i` candles. */
  function Straddling(marks: seq<Option<Derived>>, minutes: nat, lo: nat, hi: nat, i: nat): seq<Derived>
    requires i <= |marks|
  {
    if i == 0 then []
    else
      Straddling(marks, minutes, lo, hi, i - 1)
      + (if Straddles(marks, minutes, lo, hi, i - 1) then [marks[i - 1].value] else [])
  }

  lemma WindowStep(marks: seq<Option<Derived>>, minutes: nat, lo: nat, hi: nat, j: nat, i: nat, after: int,
                   through: int)
    requires i == j + 1 <= |marks| && Cuts(marks, minutes, lo, hi, after, through)
    requires marks[j].Some? ==> j + minutes <= |marks|
    ensures Window(Listed(marks, minutes, 0, i, |marks|), after, through)
         == Window(Listed(marks, minutes, 0, j, |marks|), after, through)
            + (if marks[j].Some? && lo < j + minutes <= hi then [marks[j].value] else [])
  {
    WindowAppend(Listed(marks, minutes, 0, j, |marks|), if marks[j].Some? then [marks[j].value] else [], after,
                 through);
  }

  ghost predicate Fit(marks: seq<Option<Derived>>, minutes: nat) {
    forall j :: 0 <= j < |marks| && marks[j].Some? ==> j + minutes <= |marks|
  }

  /** Of the bars that start before it, the window keeps those that straddle its start. */
  lemma {:induction false} WindowBefore(marks: seq<Option<Derived>>, minutes: nat, lo: nat, hi: nat, i: nat, after: int,
                                        through: int)
    requires i <= lo <= hi <= |marks| && Fit(marks, minutes) && Cuts(marks, minutes, lo, hi, after, through)
    ensures Window(Listed(marks, minutes, 0, i, |marks|), after, through) == Straddling(marks, minutes, lo, hi, i)
  {
    if i > 0 {
      var j: nat := i - 1;
      WindowBefore(marks, minutes, lo, hi, j, after, through);
      WindowStep(marks, minutes, lo, hi, j, i, after, through);
    }
  }

  lemma Regroup(a: seq<Derived>, b: seq<Derived>, c: seq<Derived>)
    ensures (a + b) + c == a + (b + c)
  {
  }

  /** Of those that start inside it, those that also end inside. */
  lemma {:induction false} WindowInside(marks: seq<Option<Derived>>, minutes: nat, lo: nat, hi: nat, i: nat, after: int,
                                        through: int)
    requires minutes >= 1 && lo <= i <= hi <= |marks| && Fit(marks, minutes)
    requires Cuts(marks, minutes, lo, hi, after, through)
    ensures Window(Listed(marks, minutes, 0, i, |marks|), after, through)
         == Straddling(marks, minutes, lo, hi, lo) + Listed(marks, minutes, lo, i, hi)
  {
    if i == lo {
      WindowBefore(marks, minutes, lo, hi, lo, after, through);
    } else {
      var j: nat := i - 1;
      WindowInside(marks, minutes, lo, hi, j, after, through);
      WindowStep(marks, minutes, lo, hi, j, i, after, through);
      Regroup(Straddling(marks, minutes, lo, hi, lo), Listed(marks, minutes, lo, j, hi),
              ListedAt(marks, minutes, j, hi));
    }
  }

  /** Of those that start after it, none. */
  lemma {:induction false} WindowAfter(marks: seq<Option<Derived>>, minutes: nat, lo: nat, hi: nat, i: nat, after: int,
                                       through: int)
    requires minutes >= 1 && lo <= hi <= i <= |marks| && Fit(marks, minutes)
    requires Cuts(marks, minutes, lo, hi, after, through)
    ensures Window(Listed(marks, minutes, 0, i, |marks|), after, through)
         == Straddling(marks, minutes, lo, hi, lo) + Listed(marks, minutes, lo, hi, hi)
  {
    if i == hi {
      WindowInside(marks, minutes, lo, hi, hi, after, through);
    } else {
      var j: nat := i - 1;
      WindowAfter(marks, minutes, lo, hi, j, after, through);
      WindowStep(marks, minutes, lo, hi, j, i, after, through);
    }
  }

  lemma {:induction false} ListedOfSlice(slice: seq<Option<Derived>>, marks: seq<Option<Derived>>, minutes: nat,
                                         lo: nat, hi: nat, i: nat, k: nat, n: nat)
    requires lo <= hi <= |marks| && n == hi - lo == |slice| && k == lo + i && i <= n
    requires forall j :: 0 <= j < n && j + minutes <= n ==> slice[j] == marks[lo + j]
    ensures Listed(slice, minutes, 0, i, n) == Listed(marks, minutes, lo, k, hi)
  {
    if i > 0 {
      ListedOfSlice(slice, marks, minutes, lo, hi, i - 1, k - 1, n);
    }
  }

  lemma SliceOfSlice<T>(s: seq<T>, lo: nat, hi: nat, j: nat, e: nat, k: nat, f: nat)
    requires lo <= hi <= |s| && j <= e <= hi - lo && k == lo + j && f == lo + e
    ensures s[lo..hi][j..e] == s[k..f]
  {
    var a, b := s[lo..hi][j..e], s[k..f];
    assert |a| == |b| && forall i :: 0 <= i < |a| ==> a[i] == b[i];
  }

  lemma MarkOfSlice(cs: seq<ClosedCandle>, minutes: nat, lo: nat, hi: nat, j: nat, k: nat, part: seq<ClosedCandle>)
    requires minutes >= 1 && lo <= hi <= |cs| && part == cs[lo..hi] && k == lo + j && j + minutes <= |part|
    ensures Mark(part, minutes, j) == Mark(cs, minutes, k)
  {
    hide Aggregate, StartsBar;
    assert part[j] == cs[k];
    SliceOfSlice(cs, lo, hi, j, j + minutes, k, k + minutes);
  }

  /** Resampling a slice of the data on its own gives the marked bars inside it. */
  lemma LiveIsListed(cs: seq<ClosedCandle>, minutes: nat, marks: seq<Option<Derived>>, lo: nat, hi: nat)
    requires minutes >= 1 && lo <= hi <= |cs| && marks == Marks(cs, minutes)
    ensures Live(cs, minutes, lo, hi) == Listed(marks, minutes, lo, hi, hi)
  {
    hide Bars, Listed, Mark, Marks;
    var n: nat, part := hi - lo, cs[lo..hi];
    var slice := Marks(part, minutes);
    forall j: nat | j < n && j + minutes <= n ensures slice[j] == marks[lo + j] {
      MarkOfSlice(cs, minutes, lo, hi, j, lo + j, part);
    }
    BarsAreListed(part, minutes, slice, 0, n);
    ListedOfSlice(slice, marks, minutes, lo, hi, n, hi, n);
  }

  function Live(cs: seq<ClosedCandle>, minutes: nat, lo: nat, hi: nat): seq<Derived>
    requires minutes >= 1 && lo <= hi <= |cs|
  {
    Bars(cs[lo..hi], minutes, 0, hi - lo, hi - lo)
  }

  /** The live engine resamples the candles of the window by the evaluation: `Live` is what that gives. */
  lemma LiveIsResampled(cs: seq<ClosedCandle>, minutes: nat, lo: nat, hi: nat, evaluationMs: int)
    requires minutes > 1 && lo < hi <= |cs| && GapFree(cs) && OneIdentity(cs)
    requires 0 <= evaluationMs == cs[hi - 1].CloseMs()
    ensures Resample(cs[lo..hi], minutes, Some(evaluationMs)) == Resampled(Live(cs, minutes, lo, hi))
  {
    hide Bars, GapFree;
    var part := cs[lo..hi];
    GapFreeSlice(cs, lo, hi, part);
    assert ClosedBy(part, Some(evaluationMs), |part|) == |part|;
    assert OneIdentity(part) by {
      assert forall i :: 0 <= i < |part| ==> part[i] == cs[lo + i];
    }
  }

  /** And the replay resamples all candles once: that gives the series it slices. */
  lemma SeriesIsResampled(cs: seq<ClosedCandle>, minutes: nat)
    requires minutes > 1 && GapFree(cs) && OneIdentity(cs)
    ensures Resample(cs, minutes, None) == Resampled(Bars(cs, minutes, 0, |cs|, |cs|))
  {
    hide GapFree;
    if cs != [] {
      GapFreeSlice(cs, 0, |cs|, cs[0..|cs|]);
      assert cs[0..|cs|] == cs;
    }
  }

  lemma GapFreeSlice(cs: seq<ClosedCandle>, lo: nat, hi: nat, part: seq<ClosedCandle>)
    requires lo < hi <= |cs| && GapFree(cs) && part == cs[lo..hi]
    ensures GapFree(part) && Consecutive(part) && part[|part| - 1] == cs[hi - 1]
  {
    forall i | 0 <= i < |part| ensures part[i].openMs == part[0].openMs + i * MINUTE_MS {
      var k := lo + i;
      assert part[i] == cs[k] && part[0] == cs[lo];
      assert cs[k].openMs == cs[0].openMs + k * MINUTE_MS && cs[lo].openMs == cs[0].openMs + lo * MINUTE_MS;
    }
    forall i | 0 <= i < |part| - 1 ensures part[i + 1].openMs == part[i].openMs + MINUTE_MS {
      var j := i + 1;
      assert part[j].openMs == part[0].openMs + j * MINUTE_MS && part[i].openMs == part[0].openMs + i * MINUTE_MS;
    }
  }

  // ----- When there is a live bar at all

  /** The first boundary of a timeframe at or after a time. */
  function BoundaryFrom(t: int, duration: nat): (s: int)
    requires duration >= 1
  {
    if StartOf(t, duration) == t then t else StartOf(t, duration) + duration
  }

  lemma BoundaryIsFirst(t: int, duration: nat, s: int)
    requires duration >= 1 && s % duration == 0 && t <= s
    ensures BoundaryFrom(t, duration) % duration == 0 && t <= BoundaryFrom(t, duration) <= s
  {
    var start := StartOf(t, duration);
    StartBounds(t, duration);
    AlignedNext(start, duration);
    if start < s {
      AlignedApart(start, s, duration);
    }
  }

  lemma StartInside(cs: seq<ClosedCandle>, minutes: nat, k: nat)
    requires minutes >= 1 && k + minutes <= |cs| && GapFree(cs) && StartsBar(cs[k], minutes)
    ensures BoundaryFrom(cs[0].openMs, Duration(minutes)) + Duration(minutes) - 1 <= cs[|cs| - 1].CloseMs()
  {
    var last := |cs| - 1;
    assert cs[k].openMs == cs[0].openMs + k * MINUTE_MS && cs[last].openMs == cs[0].openMs + last * MINUTE_MS;
    BoundaryIsFirst(cs[0].openMs, Duration(minutes), cs[k].openMs);
  }

  lemma BoundaryInside(cs: seq<ClosedCandle>, minutes: nat) returns (k: nat)
    requires minutes > 1 && cs != [] && GapFree(cs)
    requires BoundaryFrom(cs[0].openMs, Duration(minutes)) + Duration(minutes) - 1 <= cs[|cs| - 1].CloseMs()
    ensures k + minutes <= |cs| && StartsBar(cs[k], minutes)
  {
    var duration, last := Duration(minutes), |cs| - 1;
    var s := BoundaryFrom(cs[0].openMs, duration);
    StartBounds(cs[0].openMs, duration);
    AlignedNext(StartOf(cs[0].openMs, duration), duration);
    assert duration >= 2 * MINUTE_MS;
    k := MinuteIndex(cs, last, s, duration);
    assert cs[k].openMs == cs[0].openMs + k * MINUTE_MS && cs[last].openMs == cs[0].openMs + last * MINUTE_MS;
  }

  /** Gap-free candles have a bar exactly if the first boundary's bucket ends among them. */
  lemma SomeBar(cs: seq<ClosedCandle>, minutes: nat)
    requires minutes > 1 && cs != [] && GapFree(cs)
    ensures Bars(cs, minutes, 0, |cs|, |cs|) != []
      <==> BoundaryFrom(cs[0].openMs, Duration(minutes)) + Duration(minutes) - 1 <= cs[|cs| - 1].CloseMs()
  {
    hide Bars, GapFree, BoundaryFrom, StartsBar;
    var n := |cs|;
    BarsContiguous(cs, minutes, 0, n, n);
    var last := LastStart(cs, minutes, 0, n, n);
    if last.Some? {
      StartInside(cs, minutes, last.value);
    } else if BoundaryFrom(cs[0].openMs, Duration(minutes)) + Duration(minutes) - 1 <= cs[n - 1].CloseMs() {
      var k := BoundaryInside(cs, minutes);
    }
  }

  lemma SomeLiveBar(cs: seq<ClosedCandle>, minutes: nat, lo: nat, hi: nat, evaluationMs: int)
    requires minutes > 1 && lo < hi <= |cs| && GapFree(cs) && evaluationMs == cs[hi - 1].CloseMs()
    ensures Live(cs, minutes, lo, hi) != []
      <==> BoundaryFrom(cs[lo].openMs, Duration(minutes)) + Duration(minutes) - 1 <= evaluationMs
  {
    hide Bars, GapFree, BoundaryFrom;
    GapFreeSlice(cs, lo, hi, cs[lo..hi]);
    SomeBar(cs[lo..hi], minutes);
  }

  // ----- At most one bucket straddles

  lemma OneStraddles(cs: seq<ClosedCandle>, minutes: nat, lo: nat, hi: nat, j: nat, k: nat)
    requires minutes >= 1 && lo <= hi <= |cs| && GapFree(cs)
    requires Straddles(Marks(cs, minutes), minutes, lo, hi, j) && Straddles(Marks(cs, minutes), minutes, lo, hi, k)
    ensures j == k
  {
    var first := cs[0].openMs;
    assert cs[j].openMs == first + j * MINUTE_MS && cs[k].openMs == first + k * MINUTE_MS;
    if j < k {
      AlignedApart(cs[j].openMs, cs[k].openMs, Duration(minutes));
    } else if k < j {
      AlignedApart(cs[k].openMs, cs[j].openMs, Duration(minutes));
    }
  }

  lemma {:induction false} StraddlingCount(marks: seq<Option<Derived>>, minutes: nat, lo: nat, hi: nat, i: nat)
    requires i <= |marks|
    requires forall j, k :: Straddles(marks, minutes, lo, hi, j) && Straddles(marks, minutes, lo, hi, k) ==> j == k
    ensures |Straddling(marks, minutes, lo, hi, i)| <= 1
    ensures Straddling(marks, minutes, lo, hi, i) == []
      <==> forall j :: 0 <= j < i ==> !Straddles(marks, minutes, lo, hi, j)
  {
    if i > 0 {
      StraddlingCount(marks, minutes, lo, hi, i - 1);
    }
  }

  lemma AtMostOneStraddles(cs: seq<ClosedCandle>, minutes: nat, lo: nat, hi: nat)
    requires minutes >= 1 && lo <= hi <= |cs| && GapFree(cs)
    ensures var marks := Marks(cs, minutes);
      var extra := Straddling(marks, minutes, lo, hi, lo);
      |extra| <= 1 && (extra == [] <==> forall j :: 0 <= j < lo ==> !Straddles(marks, minutes, lo, hi, j))
  {
    var marks := Marks(cs, minutes);
    forall j: nat, k: nat | Straddles(marks, minutes, lo, hi, j) && Straddles(marks, minutes, lo, hi, k)
      ensures j == k
    {
      OneStraddles(cs, minutes, lo, hi, j, k);
    }
    StraddlingCount(marks, minutes, lo, hi, lo);
  }

  /** A replay slice is the live series, after at most one bar: that of the bucket straddling the window's start. */
  lemma ReplayIsLive(cs: seq<ClosedCandle>, minutes: nat, lo: nat, hi: nat, after: int, evaluationMs: int)
    requires minutes >= 1 && lo < hi <= |cs| && GapFree(cs) && evaluationMs == cs[hi - 1].CloseMs()
    requires after == evaluationMs - (hi - lo) * MINUTE_MS
    ensures var extra := Straddling(Marks(cs, minutes), minutes, lo, hi, lo);
      && Window(Bars(cs, minutes, 0, |cs|, |cs|), after, evaluationMs) == extra + Live(cs, minutes, lo, hi)
      && |extra| <= 1
      && (extra == [] <==> forall j :: 0 <= j < lo ==> !Straddles(Marks(cs, minutes), minutes, lo, hi, j))
  {
    var marks := Marks(cs, minutes);
    assert cs[lo].openMs == cs[0].openMs + lo * MINUTE_MS && cs[hi - 1].openMs == cs[0].openMs + (hi - 1) * MINUTE_MS;
    WindowCuts(cs, minutes, lo, hi, after, evaluationMs);
    WindowAfter(marks, minutes, lo, hi, |cs|, after, evaluationMs);
    BarsAreListed(cs, minutes, marks, 0, |cs|);
    LiveIsListed(cs, minutes, marks, lo, hi);
    AtMostOneStraddles(cs, minutes, lo, hi);
  }

  /** They are equal exactly if the window starts on a boundary of the timeframe, or the bucket it cuts
      is not wholly in the data, or has not closed by the evaluation. */
  lemma ReplayEqualsLive(cs: seq<ClosedCandle>, minutes: nat, lo: nat, hi: nat, after: int, evaluationMs: int,
                         start: int)
    requires minutes >= 1 && lo < hi <= |cs| && GapFree(cs) && evaluationMs == cs[hi - 1].CloseMs()
    requires after == evaluationMs - (hi - lo) * MINUTE_MS && start == StartOf(cs[lo].openMs, Duration(minutes))
    ensures Window(Bars(cs, minutes, 0, |cs|, |cs|), after, evaluationMs) == Live(cs, minutes, lo, hi)
      <==> start == cs[lo].openMs || start < cs[0].openMs || start + Duration(minutes) - 1 > evaluationMs
  {
    ReplayIsLive(cs, minutes, lo, hi, after, evaluationMs);
    StraddlerExists(cs, minutes, lo, hi, evaluationMs, start);
    StartBounds(cs[lo].openMs, Duration(minutes));
  }

  lemma StraddlerExists(cs: seq<ClosedCandle>, minutes: nat, lo: nat, hi: nat, evaluationMs: int, start: int)
    requires minutes >= 1 && lo < hi <= |cs| && GapFree(cs) && evaluationMs == cs[hi - 1].CloseMs()
    requires start == StartOf(cs[lo].openMs, Duration(minutes))
    ensures (exists j :: 0 <= j < lo && Straddles(Marks(cs, minutes), minutes, lo, hi, j))
      <==> cs[0].openMs <= start < cs[lo].openMs && start + Duration(minutes) - 1 <= evaluationMs
  {
    var duration, first := Duration(minutes), cs[0].openMs;
    assert cs[lo].openMs == first + lo * MINUTE_MS && cs[hi - 1].openMs == first + (hi - 1) * MINUTE_MS;
    StartBounds(cs[lo].openMs, duration);
    if j :| 0 <= j < lo && Straddles(Marks(cs, minutes), minutes, lo, hi, j) {
      assert cs[j].openMs == first + j * MINUTE_MS;
      BucketOf(cs[lo].openMs, cs[j].openMs, duration);
    }
    if first <= start < cs[lo].openMs && start + duration - 1 <= evaluationMs {
      var j := MinuteIndex(cs, lo, start, duration);
      assert Straddles(Marks(cs, minutes), minutes, lo, hi, j);
    }
  }

  /** An aligned time within the data is the opening of one of its candles. */
  lemma MinuteIndex(cs: seq<ClosedCandle>, lo: nat, start: int, duration: nat) returns (j: nat)
    requires lo < |cs| && GapFree(cs) && duration >= 1 && start % duration == 0 && duration % MINUTE_MS == 0
    requires cs[0].openMs <= start < cs[lo].openMs
    ensures j < lo && cs[j].openMs == start
  {
    WholeMinutes(start, duration);
    j := (start - cs[0].openMs) / MINUTE_MS;
    assert cs[lo].openMs == cs[0].openMs + lo * MINUTE_MS;
    assert start == cs[0].openMs + j * MINUTE_MS;
    assert cs[j].openMs == cs[0].openMs + j * MINUTE_MS;
  }

  lemma WholeMinutes(start: int, duration: nat)
    requires duration >= 1 && start % duration == 0 && duration % MINUTE_MS == 0
    ensures start % MINUTE_MS == 0
  {
    var q, m := start / duration, duration / MINUTE_MS;
    assert start == duration * q && duration == MINUTE_MS * m;
    assert start == MINUTE_MS * (m * q);
  }

  // ----- Indicators accept both series

  /** What an indicator demands of a role's series. */
  ghost predicate Acceptable(series: seq<Derived>, instrument: nat, minutes: nat, evaluationMs: int) {
    && Contiguous(series)
    && forall k :: 0 <= k < |series| ==>
         series[k].instrument == instrument && series[k].minutes == minutes && series[k].closeMs <= evaluationMs
  }

  method ClosedCandles(series: seq<Derived>, instrument: nat, minutes: nat, evaluationMs: int) returns (accepted: bool)
    ensures accepted <==> Acceptable(series, instrument, minutes, evaluationMs)
    ensures accepted <==> forall k :: 0 <= k < |series| ==>
      && series[k].instrument == instrument && series[k].minutes == minutes && series[k].closeMs <= evaluationMs
      && (k > 0 ==> series[k].openMs == series[k - 1].closeMs + 1)
  {
    var previousClose: Option<int> := None;
    for k := 0 to |series|
      invariant previousClose == if k == 0 then None else Some(series[k - 1].closeMs)
      invariant Acceptable(series[..k], instrument, minutes, evaluationMs)
    {
      var candle := series[k];
      if candle.instrument != instrument || candle.minutes != minutes {
        return false;
      }
      if candle.closeMs > evaluationMs {
        return false;
      }
      if previousClose.Some? && candle.openMs != previousClose.value + 1 {
        return false;
      }
      previousClose := Some(candle.closeMs);
    }
    assert series[..|series|] == series;
    return true;
  }

  function CountThrough(series: seq<Derived>, x: int): (r: nat)
    ensures r <= |series|
  {
    if series == [] then 0
    else if series[|series| - 1].closeMs <= x then |series| else CountThrough(series[..|series| - 1], x)
  }

  lemma {:induction false} CountSplits(series: seq<Derived>, x: int)
    requires IncreasingCloses(series)
    ensures forall k :: 0 <= k < |series| ==> (k < CountThrough(series, x) <==> series[k].closeMs <= x)
  {
    if series != [] && series[|series| - 1].closeMs > x {
      CountSplits(series[..|series| - 1], x);
    }
  }

  lemma BarFromMember(cs: seq<ClosedCandle>, minutes: nat, j: nat, hi: nat, b: Derived)
    requires minutes >= 1 && j < hi <= |cs| && b in BarFrom(cs, minutes, j, hi)
    ensures j + minutes <= hi && b == Aggregate(cs[j..j + minutes], minutes)
  {
  }

  lemma {:induction false} BarsMember(cs: seq<ClosedCandle>, minutes: nat, lo: nat, i: nat, hi: nat, b: Derived)
    returns (j: nat)
    requires minutes >= 1 && lo <= i <= hi <= |cs| && b in Bars(cs, minutes, lo, i, hi)
    ensures lo <= j < i && j + minutes <= hi && b == Aggregate(cs[j..j + minutes], minutes)
  {
    hide Aggregate, StartsBar, BarFrom;
    var last: nat := i - 1;
    if b in BarFrom(cs, minutes, last, hi) {
      BarFromMember(cs, minutes, last, hi, b);
      j := last;
    } else {
      j := BarsMember(cs, minutes, lo, last, hi, b);
    }
  }

  lemma {:induction false} CountMonotone(series: seq<Derived>, x: int, y: int)
    requires x <= y
    ensures CountThrough(series, x) <= CountThrough(series, y)
  {
    if series != [] && series[|series| - 1].closeMs > x {
      CountMonotone(series[..|series| - 1], x, y);
    }
  }

  ghost predicate Identified(series: seq<Derived>, instrument: nat, minutes: nat) {
    forall k :: 0 <= k < |series| ==> series[k].instrument == instrument && series[k].minutes == minutes
  }

  lemma WindowAcceptable(series: seq<Derived>, instrument: nat, minutes: nat, after: int, through: int)
    requires after <= through && IncreasingCloses(series) && Contiguous(series)
    requires Identified(series, instrument, minutes)
    ensures Acceptable(Window(series, after, through), instrument, minutes, through)
  {
    var lo, hi := CountThrough(series, after), CountThrough(series, through);
    CountSplits(series, after);
    CountSplits(series, through);
    CountMonotone(series, after, through);
    WindowIsSlice(series, after, through, lo, hi);
  }

  lemma BarsIdentified(cs: seq<ClosedCandle>, instrument: nat, minutes: nat, hi: nat)
    requires minutes >= 1 && hi <= |cs| && forall i :: 0 <= i < |cs| ==> cs[i].instrument == instrument
    ensures Identified(Bars(cs, minutes, 0, hi, hi), instrument, minutes)
  {
    hide Bars, StartsBar;
    var series := Bars(cs, minutes, 0, hi, hi);
    forall k | 0 <= k < |series| ensures series[k].instrument == instrument && series[k].minutes == minutes {
      var j := BarsMember(cs, minutes, 0, hi, hi, series[k]);
    }
  }

  lemma ReplayAcceptable(cs: seq<ClosedCandle>, instrument: nat, minutes: nat, after: int, through: int)
    requires minutes >= 1 && GapFree(cs) && after <= through
    requires forall i :: 0 <= i < |cs| ==> cs[i].instrument == instrument
    ensures Acceptable(Window(Bars(cs, minutes, 0, |cs|, |cs|), after, through), instrument, minutes, through)
  {
    SeriesIncreases(cs, minutes);
    BarsContiguous(cs, minutes, 0, |cs|, |cs|);
    BarsIdentified(cs, instrument, minutes, |cs|);
    WindowAcceptable(Bars(cs, minutes, 0, |cs|, |cs|), instrument, minutes, after, through);
  }

  /** No bar closes after the last candle. */
  lemma ClosesByEnd(cs: seq<ClosedCandle>, minutes: nat, b: Derived)
    requires minutes >= 1 && cs != [] && GapFree(cs) && b in Bars(cs, minutes, 0, |cs|, |cs|)
    ensures b.closeMs <= cs[|cs| - 1].CloseMs()
  {
    hide Bars, Aggregate, StartsBar;
    var j := BarsMember(cs, minutes, 0, |cs|, |cs|, b);
    CloseOf(cs, minutes, j);
    var last, end := j + minutes - 1, |cs| - 1;
    assert cs[last].openMs == cs[0].openMs + last * MINUTE_MS && cs[end].openMs == cs[0].openMs + end * MINUTE_MS;
  }

  lemma SliceOfData(cs: seq<ClosedCandle>, instrument: nat, lo: nat, hi: nat, part: seq<ClosedCandle>)
    requires lo < hi <= |cs| && GapFree(cs) && part == cs[lo..hi]
    requires forall i :: 0 <= i < |cs| ==> cs[i].instrument == instrument
    ensures GapFree(part) && part[|part| - 1] == cs[hi - 1]
    ensures forall i :: 0 <= i < |part| ==> part[i].instrument == instrument
  {
    GapFreeSlice(cs, lo, hi, part);
    assert forall i :: 0 <= i < |part| ==> part[i] == cs[lo + i];
  }

  lemma LiveAcceptable(cs: seq<ClosedCandle>, instrument: nat, minutes: nat, lo: nat, hi: nat, evaluationMs: int)
    requires minutes >= 1 && lo < hi <= |cs| && GapFree(cs) && evaluationMs == cs[hi - 1].CloseMs()
    requires forall i :: 0 <= i < |cs| ==> cs[i].instrument == instrument
    ensures Acceptable(Live(cs, minutes, lo, hi), instrument, minutes, evaluationMs)
  {
    hide Bars, GapFree;
    var part, n: nat := cs[lo..hi], hi - lo;
    SliceOfData(cs, instrument, lo, hi, part);
    BarsContiguous(part, minutes, 0, n, n);
    BarsIdentified(part, instrument, minutes, n);
    var live := Bars(part, minutes, 0, n, n);
    forall k | 0 <= k < |live| ensures live[k].closeMs <= evaluationMs {
      ClosesByEnd(part, minutes, live[k]);
    }
  }

  /** Every scheduled evaluation has its whole history window inside the loaded data. */
  lemma ScheduledWindow(cs: seq<ClosedCandle>, minutes: nat, periodStart: int, periodEnd: int, history: nat, t: int)
    returns (hi: nat)
    requires minutes >= 1 && GapFree(cs) && Resolve(periodStart, periodEnd, history).Some?
    requires cs != [] && cs[0].openMs == Resolve(periodStart, periodEnd, history).value.startMs
    requires t in Schedule(Bars(cs, minutes, 0, |cs|, |cs|), periodStart, periodEnd)
    ensures history + minutes <= hi <= |cs| && t == cs[hi - 1].CloseMs()
  {
    hide Bars, Schedule;
    var series := Bars(cs, minutes, 0, |cs|, |cs|);
    var k := ScheduledBar(series, periodStart, periodEnd, t);
    var j := BarsMember(cs, minutes, 0, |cs|, |cs|, series[k]);
    CloseOf(cs, minutes, j);
    assert cs[j].openMs == cs[0].openMs + j * MINUTE_MS;
    hi := j + minutes;
  }

  /** At every scheduled evaluation, which comes from the first instrument's execution bars, for every instrument
      and every role: the replay slice is what the live engine would resample from the same history, after at
      most one straddling bar, and indicators accept both. */
  lemma EveryEvaluation(first: seq<ClosedCandle>, cs: seq<ClosedCandle>, instrument: nat, execution: nat, minutes: nat,
                        periodStart: int, periodEnd: int, history: nat, t: int, after: int) returns (hi: nat, lo: nat)
    requires execution >= 1 && minutes >= 1 && GapFree(first) && GapFree(cs) && |first| == |cs| > 0
    requires forall i :: 0 <= i < |cs| ==> cs[i].instrument == instrument
    requires Resolve(periodStart, periodEnd, history).Some?
    requires first[0].openMs == cs[0].openMs == Resolve(periodStart, periodEnd, history).value.startMs
    requires t in Schedule(Bars(first, execution, 0, |first|, |first|), periodStart, periodEnd)
    requires after == t - history * MINUTE_MS
    ensures lo == hi - history && lo < hi <= |cs| && t == cs[hi - 1].CloseMs()
    ensures var slice := Window(Bars(cs, minutes, 0, |cs|, |cs|), after, t);
      var extra := Straddling(Marks(cs, minutes), minutes, lo, hi, lo);
      && slice == extra + Live(cs, minutes, lo, hi) && |extra| <= 1
      && Acceptable(slice, instrument, minutes, t) && Acceptable(Live(cs, minutes, lo, hi), instrument, minutes, t)
  {
    hi := ScheduledWindow(first, execution, periodStart, periodEnd, history, t);
    lo := hi - history;
    SameTime(first, cs, hi - 1);
    ReplayIsLive(cs, minutes, lo, hi, after, t);
    ReplayAcceptable(cs, instrument, minutes, after, t);
    LiveAcceptable(cs, instrument, minutes, lo, hi, t);
  }

  lemma SameTime(a: seq<ClosedCandle>, b: seq<ClosedCandle>, k: nat)
    requires GapFree(a) && GapFree(b) && k < |a| == |b| && a[0].openMs == b[0].openMs
    ensures a[k].openMs == b[k].openMs
  {
    assert a[k].openMs == a[0].openMs + k * MINUTE_MS && b[k].openMs == b[0].openMs + k * MINUTE_MS;
  }

  // ----- A straddling bucket

  function MinuteCandle(i: nat): (c: ClosedCandle)
    ensures c.openMs == i * MINUTE_MS
  {
    CandleRow(0, 0, 0, i * MINUTE_MS, Flat(1.0, 1.0, 1.0), 0.0, None, 0)
  }

  /** Ten minutes from the epoch on. */
  function TenMinutes(): (r: seq<ClosedCandle>)
    ensures |r| == 10 && GapFree(r) && forall i :: 0 <= i < 10 ==> r[i].openMs == i * MINUTE_MS
  {
    seq(10, i requires 0 <= i < 10 => MinuteCandle(i))
  }

  /** An instance: for five-minute bars and the last seven minutes, the slice has the bar of the first five minutes,
      which the live series has not. */
  lemma StraddlerInstance()
    ensures var cs := TenMinutes();
      && (exists j :: 0 <= j < 3 && Straddles(Marks(cs, 5), 5, 3, 10, j))
      && Window(Bars(cs, 5, 0, 10, 10), 3 * MINUTE_MS - 1, 10 * MINUTE_MS - 1) != Live(cs, 5, 3, 10)
  {
    hide Bars, Live, Marks, Window, Straddles;
    var cs := TenMinutes();
    BucketOf(cs[3].openMs, 0, Duration(5));
    StraddlerExists(cs, 5, 3, 10, 10 * MINUTE_MS - 1, 0);
    ReplayEqualsLive(cs, 5, 3, 10, 3 * MINUTE_MS - 1, 10 * MINUTE_MS - 1, 0);
  }
}
