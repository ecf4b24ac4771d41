/** Historical readiness: fill only the missing ranges, trusting rows and not the watermark. */
module HistoricalSync {
  import opened Sequences
  import opened Candles
  import opened CandleStore
  import opened MarketPages
  import opened PagingRules
  import opened MarketSync

  datatype HistoricalError =
    | MalformedRange | ProviderRefused | RangeStillOpen | HistoricalGap | Underlying(error: SyncError)

  datatype InstrumentSync = InstrumentSync(candles: seq<ClosedCandle>, existingRows: int, fetchedRows: int,
                                           totalRows: int)

  datatype HistoricalOutcome = Ready(sync: InstrumentSync) | NotReady(reason: HistoricalError)

  /** One stored candle per minute; the symbol is only vouched for on rows not stored before. */
  ghost predicate OnePerMinute(before: map<Key, ClosedCandle>, rows: map<Key, ClosedCandle>, m: Market, symbol: nat,
                               start: int, end: int, cs: seq<ClosedCandle>)
  {
    && Contiguous(rows, m, start, end) && Opens(cs) == Grid(start, end)
    && forall i :: 0 <= i < |cs| ==>
         && MarketOf(cs[i]) == m && KeyOf(cs[i]) in rows && rows[KeyOf(cs[i])] == cs[i]
         && (KeyOf(cs[i]) in before || cs[i].symbol == symbol)
  }

  lemma {:induction false} CountTrueBounded(absent: seq<bool>, n: nat)
    requires n <= |absent|
    ensures CountTrue(absent, n) <= n
  {
    if n > 0 {
      CountTrueBounded(absent, n - 1);
    }
  }

  lemma MissingAtMostSpan(present: set<int>, lo: int, hi: int)
    requires lo <= hi
    ensures MissingCount(present, lo, hi) <= (hi - lo) / MINUTE_MS + 1
  {
    CountTrueBounded(Absences(Grid(lo, hi), present), |Grid(lo, hi)|);
  }

  lemma {:induction false} NothingMissing(present: set<int>, start: int, end: int, n: nat)
    requires n <= |Grid(start, end)| && forall i :: 0 <= i < |Grid(start, end)| ==> Grid(start, end)[i] in present
    ensures CountTrue(Absences(Grid(start, end), present), n) == 0
  {
    if n > 0 {
      NothingMissing(present, start, end, n - 1);
    }
  }

  lemma CompleteMissesNothing(rows: map<Key, ClosedCandle>, m: Market, start: int, end: int)
    requires Minute(start) && Contiguous(rows, m, start, end)
    ensures MissingCount(Times(rows, m, start, Some(end)), start, end) == 0
  {
    forall i | 0 <= i < |Grid(start, end)| ensures Grid(start, end)[i] in Times(rows, m, start, Some(end)) {
      GridMembers(start, end, Grid(start, end)[i]);
    }
    NothingMissing(Times(rows, m, start, Some(end)), start, end, |Grid(start, end)|);
  }

  lemma {:induction false} SpansCount(ranges: seq<Span>)
    requires forall j :: 0 <= j < |ranges| ==> ranges[j].lo <= ranges[j].hi
    ensures |ranges| <= SpanMinutes(ranges)
  {
    if ranges != [] {
      SpansCount(ranges[..|ranges| - 1]);
    }
  }

  lemma NothingToFill(rows: map<Key, ClosedCandle>, m: Market, ranges: seq<Span>, start: int, end: int)
    requires Requestable(start, end) && Fresh(rows, m, ranges, start, end)
    requires SpanMinutes(ranges) == MissingCount(Times(rows, m, start, Some(end)), start, end)
    ensures Contiguous(rows, m, start, end) ==> ranges == [] && SpanMinutes(ranges) == 0
  {
    if Contiguous(rows, m, start, end) {
      CompleteMissesNothing(rows, m, start, end);
      SpansCount(ranges);
    }
  }

  lemma {:induction false} FetchCountSplits(log: seq<Call>, longer: seq<Call>, k: nat)
    requires k <= |log| && log <= longer
    ensures FetchCount(longer, k) == FetchCount(log, k) + FetchCount(longer, |log|)
    decreases |longer|
  {
    if |log| == |longer| {
      assert log == longer;
    } else {
      FetchCountSplits(log, longer[..|longer| - 1], k);
    }
  }

  lemma FetchesAbsentJoin(log: seq<Call>, longer: seq<Call>, k: nat, before: map<Key, ClosedCandle>,
                          rows: map<Key, ClosedCandle>, m: Market)
    requires k <= |log| && log <= longer && FetchesAbsent(log, k, before, m) && FetchesAbsent(longer, |log|, rows, m)
    requires forall key :: key in before ==> key in rows
    ensures FetchesAbsent(longer, k, before, m)
  {
    forall i | k <= i < |longer| && longer[i].Fetch?
      ensures longer[i].request.startMs <= longer[i].request.endMs
      ensures NothingStored(before, m, longer[i].request.startMs, longer[i].request.endMs)
    {
      if i < |log| {
        assert longer[i] == log[i];
      } else {
        forall t | longer[i].request.startMs <= t <= longer[i].request.endMs ensures !Has(before, m, t) {
          assert !Has(rows, m, t);
        }
      }
    }
  }

  lemma NoFetchCounted(log: seq<Call>)
    ensures FetchCount(log, |log|) == 0
  {
  }

  // ----- When a range becomes ready

  const NOTHING := Store(map[], map[])

  /** The calls made once every missing range has been synchronised, in order; `None` if that cannot be. Nothing of a
      missing range is stored, so the rule is that for an empty table. */
  ghost function Filled(p: Provider, mapping: Mapping, log: seq<Call>, ranges: seq<Span>): Option<seq<Call>> {
    if ranges == [] then Some(log)
    else
      var front, last := Filled(p, mapping, log, ranges[..|ranges| - 1]), ranges[|ranges| - 1];
      if front.None? then None else Synced(p, mapping, front.value, NOTHING, true, last.lo, last.hi)
  }

  lemma FilledNext(p: Provider, mapping: Mapping, log: seq<Call>, ranges: seq<Span>, j: nat)
    requires j < |ranges|
    ensures var front := Filled(p, mapping, log, ranges[..j]);
      Filled(p, mapping, log, ranges[..j + 1]) ==
        if front.None? then None else Synced(p, mapping, front.value, NOTHING, true, ranges[j].lo, ranges[j].hi)
  {
    assert ranges[..j + 1][..j] == ranges[..j];
  }

  lemma {:induction false} FilledFails(p: Provider, mapping: Mapping, log: seq<Call>, ranges: seq<Span>, j: nat)
    requires j <= |ranges| && Filled(p, mapping, log, ranges[..j]).None?
    ensures Filled(p, mapping, log, ranges).None?
    decreases |ranges|
  {
    if j == |ranges| {
      assert ranges[..j] == ranges;
    } else {
      var front := ranges[..|ranges| - 1];
      assert front[..j] == ranges[..j];
      FilledFails(p, mapping, log, front, j);
    }
  }

  /** For a range of which nothing is stored the rule asks nothing of the table. */
  lemma SyncedAsEmpty(p: Provider, mapping: Mapping, log: seq<Call>, store: Store, lo: int, hi: int)
    requires Keyed(store.rows) && NothingStored(store.rows, Market(p.id, mapping.instrument), lo, hi)
    ensures Synced(p, mapping, log, store, true, lo, hi) == Synced(p, mapping, log, NOTHING, true, lo, hi)
  {
    hide PagedAll, Queried, RunsOf, Load;
    var m := Market(p.id, mapping.instrument);
    var times, none := Times(store.rows, m, lo, Some(hi)), Times(NOTHING.rows, m, lo, Some(hi));
    assert times == none == {};
    assert Load(store.rows, m, lo, hi) == [] == Load(NOTHING.rows, m, lo, hi);
  }

  /** The queries are answered, the range has closed, and every missing range can be synchronised. */
  ghost predicate Becomes(p: Provider, mapping: Mapping, log: seq<Call>, rows: map<Key, ClosedCandle>, start: int,
                          end: int)
  {
    var latest := p.latestClosed(log + [ValidateInstrument]);
    && Requestable(start, end) && p.accepts(log) && latest.Some? && end <= latest.value
    && Filled(p, mapping, log + [ValidateInstrument, LatestClosed],
              Missing(rows, Market(p.id, mapping.instrument), start, end)).Some?
  }

  class HistoricalRangeSyncService {
    const provider: Provider
    const repo: CandleRepository

    constructor (provider: Provider, repo: CandleRepository)
      ensures this.provider == provider && this.repo == repo
    {
      this.provider, this.repo := provider, repo;
    }

    function MarketFor(mapping: Mapping): Market { Market(provider.id, mapping.instrument) }

    /** Synchronise each missing range on its own. */
    method FillRanges(mapping: Mapping, ranges: seq<Span>, start: int, end: int)
      returns (error: Option<HistoricalError>)
      requires repo.Valid() && Fresh(repo.rows, MarketFor(mapping), ranges, start, end)
      modifies provider, repo
      ensures repo.Valid() && Extends(old(repo.rows), repo.rows, MarketFor(mapping), mapping.symbol, start, end)
      ensures old(provider.log) <= provider.log
      ensures FetchesAbsent(provider.log, |old(provider.log)|, old(repo.rows), MarketFor(mapping))
      ensures FetchCount(provider.log, |old(provider.log)|) <= SpanMinutes(ranges)
      ensures error.None? ==> Progress(repo.rows, MarketFor(mapping), ranges, |ranges|)
      ensures error != Some(MalformedRange)
      ensures ranges == [] ==> error.None? && provider.log == old(provider.log) && repo.rows == old(repo.rows)
      ensures Written(old(repo.View()), repo.View())
      ensures var filled := Filled(provider, mapping, old(provider.log), ranges);
        (error.None? <==> filled.Some?) && (error.None? ==> filled == Some(provider.log))
    {
      hide Written, Synced;
      NothingWritten(repo.View());
      ghost var m, before, calls := MarketFor(mapping), repo.rows, provider.log;
      for j := 0 to |ranges|
        invariant repo.Valid() && Extends(before, repo.rows, m, mapping.symbol, start, end)
        invariant Written(old(repo.View()), repo.View())
        invariant Filled(provider, mapping, calls, ranges[..j]) == Some(provider.log)
        invariant Progress(repo.rows, m, ranges, j)
        invariant calls <= provider.log && FetchesAbsent(provider.log, |calls|, before, m)
        invariant FetchCount(provider.log, |calls|) <= SpanMinutes(ranges[..j])
        invariant j == 0 ==> provider.log == calls && repo.rows == before
      {
        ghost var rows, log, view := repo.rows, provider.log, repo.View();
        FilledNext(provider, mapping, calls, ranges, j);
        SyncedAsEmpty(provider, mapping, log, view, ranges[j].lo, ranges[j].hi);
        var service := new MarketSyncService(provider, repo, true);
        var inner := service.SyncRange(mapping, ranges[j].lo, ranges[j].hi);
        WrittenOn(old(repo.View()), view, repo.View());
        ExtendsWiden(rows, repo.rows, m, mapping.symbol, ranges[j].lo, ranges[j].hi, start, end);
        ExtendsTransitive(before, rows, repo.rows, m, mapping.symbol, start, end);
        FetchesAbsentJoin(log, provider.log, |calls|, before, rows, m);
        FetchCountSplits(log, provider.log, |calls|);
        MissingAtMostSpan(Times(rows, m, ranges[j].lo, Some(ranges[j].hi)), ranges[j].lo, ranges[j].hi);
        SpanMinutesStep(ranges, j);
        SpanMinutesGrow(ranges, j + 1);
        if inner.Failure? {
          FilledFails(provider, mapping, calls, ranges, j + 1);
          return Some(if inner.error == NotContiguous then HistoricalGap else Underlying(inner.error));
        }
        ProgressStep(before, rows, repo.rows, m, mapping.symbol, ranges, j, start, end);
      }
      assert ranges[..|ranges|] == ranges;
      error := None;
    }

    /** The provider's two queries: does it know the instrument, and has the range closed. */
    method Query(end: int) returns (error: Option<HistoricalError>)
      modifies provider
      ensures old(provider.log) <= provider.log && FetchCount(provider.log, |old(provider.log)|) == 0
      ensures forall i :: |old(provider.log)| <= i < |provider.log| ==> !provider.log[i].Fetch?
      ensures error.Some? ==> error.value in {ProviderRefused, RangeStillOpen}
      ensures error.None? <==>
        var latest := provider.latestClosed(old(provider.log) + [ValidateInstrument]);
        provider.accepts(old(provider.log)) && latest.Some? && end <= latest.value
      ensures error.None? ==> provider.log == old(provider.log) + [ValidateInstrument, LatestClosed]
    {
      ghost var k := |provider.log|;
      NotAFetch(provider.log, ValidateInstrument, k);
      var accepted := provider.Validate();
      NotAFetch(provider.log, LatestClosed, k);
      if !accepted {
        return Some(ProviderRefused);
      }
      var latest := provider.LatestClosedOpenMs();
      if latest.None? {
        return Some(ProviderRefused);
      }
      if end > latest.value {
        return Some(RangeStillOpen);
      }
      return None;
    }

    /** How many rows of the range are stored, and what is missing. */
    method Survey(mapping: Mapping, start: int, end: int) returns (existing: int, ranges: seq<Span>)
      requires repo.Valid() && Requestable(start, end)
      ensures Fresh(repo.rows, MarketFor(mapping), ranges, start, end)
      ensures ranges == Missing(repo.rows, MarketFor(mapping), start, end)
      ensures existing == |Times(repo.rows, MarketFor(mapping), start, Some(end))|
      ensures SpanMinutes(ranges) == MissingCount(Times(repo.rows, MarketFor(mapping), start, Some(end)), start, end)
      ensures forall t :: start <= t <= end && Minute(t) && !Has(repo.rows, MarketFor(mapping), t) ==> InSpan(ranges, t)
    {
      hide Missing, Fresh, InSpan, Spanned, Absences, RunsOf, Grid;
      var rows := repo.LoadCandles(MarketFor(mapping), start, end);
      LoadedTimes(repo.rows, MarketFor(mapping), start, end);
      ranges := MissingRanges(start, end, OpenTimes(rows));
      SpannedIsMissing(repo.rows, MarketFor(mapping), start, end, ranges);
      RangesAreFresh(repo.rows, MarketFor(mapping), start, end, ranges);
      existing := |rows|;
    }

    /** Validate the range, ask the provider, and see what is missing. */
    method Prepare(mapping: Mapping, start: int, end: int)
      returns (error: Option<HistoricalError>, existing: int, ranges: seq<Span>)
      requires repo.Valid()
      modifies provider
      ensures old(provider.log) <= provider.log && FetchCount(provider.log, |old(provider.log)|) == 0
      ensures forall i :: |old(provider.log)| <= i < |provider.log| ==> !provider.log[i].Fetch?
      ensures error == Some(MalformedRange) <==> !Requestable(start, end)
      ensures error == Some(MalformedRange) ==> provider.log == old(provider.log)
      ensures error.Some? ==> error.value in {MalformedRange, ProviderRefused, RangeStillOpen}
      ensures error.None? <==>
        var latest := provider.latestClosed(old(provider.log) + [ValidateInstrument]);
        Requestable(start, end) && provider.accepts(old(provider.log)) && latest.Some? && end <= latest.value
      ensures error.None? ==>
        && provider.log == old(provider.log) + [ValidateInstrument, LatestClosed]
        && ranges == Missing(repo.rows, MarketFor(mapping), start, end)
        && Fresh(repo.rows, MarketFor(mapping), ranges, start, end)
        && existing == |Times(repo.rows, MarketFor(mapping), start, Some(end))|
        && SpanMinutes(ranges) == MissingCount(Times(repo.rows, MarketFor(mapping), start, Some(end)), start, end)
        && forall t :: start <= t <= end && Minute(t) && !Has(repo.rows, MarketFor(mapping), t) ==> InSpan(ranges, t)
    {
      hide Missing, Fresh, InSpan, FetchCount;
      existing, ranges := 0, [];
      if !Requestable(start, end) {
        NoFetchCounted(provider.log);
        return Some(MalformedRange), existing, ranges;
      }
      error := Query(end);
      if error.None? {
        existing, ranges := Survey(mapping, start, end);
      }
    }

    /** Fill the missing ranges, then load the whole range back. */
    method Fill(mapping: Mapping, start: int, end: int, existing: int, ranges: seq<Span>)
      returns (outcome: HistoricalOutcome)
      requires repo.Valid() && Requestable(start, end) && Fresh(repo.rows, MarketFor(mapping), ranges, start, end)
      requires forall t :: start <= t <= end && Minute(t) && !Has(repo.rows, MarketFor(mapping), t) ==>
        InSpan(ranges, t)
      modifies provider, repo
      ensures repo.Valid() && Extends(old(repo.rows), repo.rows, MarketFor(mapping), mapping.symbol, start, end)
      ensures outcome.Ready? ==>
        var sync := outcome.sync;
        && OnePerMinute(old(repo.rows), repo.rows, MarketFor(mapping), mapping.symbol, start, end, sync.candles)
        && sync.existingRows == existing && sync.totalRows == |sync.candles| == sync.existingRows + sync.fetchedRows
      ensures outcome.NotReady? ==> outcome.reason != MalformedRange
      ensures old(provider.log) <= provider.log
      ensures FetchesAbsent(provider.log, |old(provider.log)|, old(repo.rows), MarketFor(mapping))
      ensures FetchCount(provider.log, |old(provider.log)|) <= SpanMinutes(ranges)
      ensures ranges == [] ==> outcome.Ready? && provider.log == old(provider.log) && repo.rows == old(repo.rows)
      ensures Written(old(repo.View()), repo.View())
      ensures outcome.Ready? <==> Filled(provider, mapping, old(provider.log), ranges).Some?
    {
      ghost var m, before := MarketFor(mapping), repo.rows;
      var failed := FillRanges(mapping, ranges, start, end);
      if failed.Some? {
        return NotReady(failed.value);
      }
      AllFilled(before, repo.rows, m, ranges, start, end);
      outcome := Conclude(mapping, start, end, existing, before);
    }

    method SyncRange(mapping: Mapping, start: int, end: int) returns (outcome: HistoricalOutcome)
      requires repo.Valid()
      modifies provider, repo
      ensures repo.Valid() && Extends(old(repo.rows), repo.rows, MarketFor(mapping), mapping.symbol, start, end)
      ensures outcome == NotReady(MalformedRange) <==> !Requestable(start, end)
      ensures outcome.Ready? ==>
        var sync := outcome.sync;
        && OnePerMinute(old(repo.rows), repo.rows, MarketFor(mapping), mapping.symbol, start, end, sync.candles)
        && sync.existingRows == |Times(old(repo.rows), MarketFor(mapping), start, Some(end))|
        && sync.totalRows == |sync.candles| == sync.existingRows + sync.fetchedRows
      ensures old(provider.log) <= provider.log
      ensures FetchesAbsent(provider.log, |old(provider.log)|, old(repo.rows), MarketFor(mapping))
      ensures FetchCount(provider.log, |old(provider.log)|)
           <= MissingCount(Times(old(repo.rows), MarketFor(mapping), start, Some(end)), start, end)
      ensures Contiguous(old(repo.rows), MarketFor(mapping), start, end) && Requestable(start, end) ==>
        && FetchCount(provider.log, |old(provider.log)|) == 0 && repo.rows == old(repo.rows)
        && (outcome.Ready? || outcome.reason in {ProviderRefused, RangeStillOpen})
      ensures Written(old(repo.View()), repo.View())
      ensures outcome.Ready? <==> Becomes(provider, mapping, old(provider.log), old(repo.rows), start, end)
    {
      hide Written, Filled, Missing;
      NothingWritten(repo.View());
      ghost var m, before, calls := MarketFor(mapping), repo.rows, provider.log;
      var failed, existing, ranges := Prepare(mapping, start, end);
      if failed.Some? {
        return NotReady(failed.value);
      }
      NothingToFill(before, m, ranges, start, end);
      ghost var queried := provider.log;
      outcome := Fill(mapping, start, end, existing, ranges);
      FetchCountSplits(queried, provider.log, |calls|);
      FetchesAbsentJoin(queried, provider.log, |calls|, before, before, m);
    }

    /** Load the range back and count it. */
    method Conclude(mapping: Mapping, start: int, end: int, existing: int, ghost before: map<Key, ClosedCandle>)
      returns (outcome: HistoricalOutcome)
      requires repo.Valid() && Requestable(start, end) && Contiguous(repo.rows, MarketFor(mapping), start, end)
      requires Extends(before, repo.rows, MarketFor(mapping), mapping.symbol, start, end)
      ensures outcome.Ready?
      ensures var sync := outcome.sync;
        && OnePerMinute(before, repo.rows, MarketFor(mapping), mapping.symbol, start, end, sync.candles)
        && sync.existingRows == existing && sync.totalRows == |sync.candles| == sync.existingRows + sync.fetchedRows
    {
      var complete := repo.LoadCandles(MarketFor(mapping), start, end);
      LoadIsGrid(repo.rows, MarketFor(mapping), start, end);
      assert forall i :: 0 <= i < |complete| ==> complete[i].openMs == Grid(start, end)[i];
      if |complete| != (end - start) / MINUTE_MS + 1
         || exists i :: 0 <= i < |complete| - 1 && complete[i + 1].openMs != complete[i].openMs + MINUTE_MS {
        return NotReady(HistoricalGap);
      }
      return Ready(InstrumentSync(complete, existing, |complete| - existing, |complete|));
    }
  }
}
