/** Bounded synchronisation of one-minute candle pages from an arbitrary provider. */
module MarketSync {
  import opened Sequences
  import opened Candles
  import opened CandleStore
  import opened MarketPages
  import opened PagingRules

  class MarketSyncService {
    const provider: Provider
    const repo: CandleRepository
    /** The historical path hides the watermark and trusts the rows alone. */
    const hidesSyncState: bool

    constructor (provider: Provider, repo: CandleRepository, hidesSyncState: bool)
      ensures this.provider == provider && this.repo == repo && this.hidesSyncState == hidesSyncState
    {
      this.provider, this.repo, this.hidesSyncState := provider, repo, hidesSyncState;
    }

    function MarketFor(mapping: Mapping): Market { Market(provider.id, mapping.instrument) }

    function RequestFor(mapping: Mapping, low: int, high: int): Request { RequestOf(provider.id, mapping, low, high) }

    /** Merge a page into what was accepted before; two candles for one minute are a conflict. */
    static method Merge(accepted: map<int, ClosedCandle>, candles: seq<ClosedCandle>)
      returns (conflict: bool, merged: map<int, ClosedCandle>)
      requires GapFree(candles)
      ensures conflict ==> exists i :: 0 <= i < |candles| && candles[i].openMs in accepted
      ensures !conflict ==> merged == ByMinute(accepted, candles)
    {
      merged, conflict := accepted, false;
      for i := 0 to |candles|
        invariant merged == ByMinute(accepted, candles[..i])
      {
        ByMinuteKeys(accepted, candles[..i]);
        assert candles[..i + 1][..i] == candles[..i];
        var c := candles[i];
        if c.openMs in merged && merged[c.openMs] != c {
          return true, merged;
        }
        merged := merged[c.openMs := c];
      }
      assert candles[..|candles|] == candles;
    }

    /** Where an incomplete page's cursor moves the window, if it makes progress. */
    static method MoveWindow(page: Page, first: int, last: int, low: int, high: int, requested: set<int>)
      returns (error: Option<SyncError>, newLow: int, newHigh: int, newRequested: set<int>)
      requires low <= first <= last <= high
      ensures error == Some(NoCursorProgress) <==> page.nextMs.None? || page.nextMs.value in requested
      ensures error == Some(CursorOutOfBounds) <==>
        && page.nextMs.Some? && page.nextMs.value !in requested
        && !(page.nextMs.value == last + MINUTE_MS <= high) && !(low <= page.nextMs.value == first - MINUTE_MS)
      ensures error.None? ==> low <= newLow <= newHigh <= high && newRequested == requested + {page.nextMs.value}
      ensures error.None? ==>
        (if page.nextMs.value == last + MINUTE_MS <= high then newLow == page.nextMs.value && newHigh == high
                               else newLow == low && newHigh == page.nextMs.value)
      ensures error.None? ==>
        (newLow == last + MINUTE_MS && newHigh == high) || (newLow == low && newHigh == first - MINUTE_MS)
      ensures error.Some? ==> error.value in {NoCursorProgress, CursorOutOfBounds}
    {
      newLow, newHigh, newRequested := low, high, requested;
      if page.nextMs.None? || page.nextMs.value in requested {
        return Some(NoCursorProgress), newLow, newHigh, newRequested;
      }
      var cursor := page.nextMs.value;
      newRequested := requested + {cursor};
      if cursor == last + MINUTE_MS && cursor <= high {
        newLow := cursor;
      } else if cursor == first - MINUTE_MS && cursor >= low {
        newHigh := cursor;
      } else {
        return Some(CursorOutOfBounds), newLow, newHigh, newRequested;
      }
      return None, newLow, newHigh, newRequested;
    }

    /** Fetch one page of the window, validate it, merge it and store it. */
    method TakePage(mapping: Mapping, low: int, high: int, accepted: map<int, ClosedCandle>, syncMs: int,
                    requiredStart: int, ghost before: map<Key, ClosedCandle>, ghost start: int, ghost end: int)
      returns (error: Option<SyncError>, page: Page, candles: seq<ClosedCandle>, newAccepted: map<int, ClosedCandle>)
      requires repo.Valid() && start <= low <= high <= end
      requires Extends(before, repo.rows, MarketFor(mapping), mapping.symbol, start, end)
      requires Gathered(accepted, repo.rows, MarketFor(mapping), start, end, low, high)
      modifies provider, repo
      ensures repo.Valid() && Extends(before, repo.rows, MarketFor(mapping), mapping.symbol, start, end)
      ensures provider.log == old(provider.log) + [Fetch(RequestFor(mapping, low, high))]
      ensures error.None? ==> Validated(RequestFor(mapping, low, high), candles)
      ensures error.None? ==> forall t :: t in newAccepted <==> t in accepted || InPage(candles, t)
      ensures error.None? ==> forall t :: Has(repo.rows, MarketFor(mapping), t) <==>
                Has(old(repo.rows), MarketFor(mapping), t) || InPage(candles, t)
      ensures error.Some? ==>
        error.value !in {ConflictAcrossPages, BadRequest, OpenMinute, StoredIdentity, HiddenGap}
      ensures OnlyAccepted(accepted, old(repo.rows), MarketFor(mapping), start, end) ==>
        error != Some(StoreRefused(SourceConflict))
      ensures Written(old(repo.View()), repo.View())
      ensures Upheld(repo.rows, old(repo.states), repo.states, MarketFor(mapping), syncMs, requiredStart, error.None?)
      ensures var answer := provider.answer(old(provider.log), RequestFor(mapping, low, high));
        && (error.None? ==> answer == Some(page) && candles == Unique(page.candles))
        && (error.None? ==> Brings(RequestFor(mapping, low, high), answer) && Sane(syncMs, requiredStart))
        && (OnlyAccepted(accepted, old(repo.rows), MarketFor(mapping), start, end) ==>
              (error.None? <==> Brings(RequestFor(mapping, low, high), answer) && Sane(syncMs, requiredStart)))
    {
      hide Acceptable, Unique, Written, Sane, Upheld;
      NothingWritten(repo.View());
      NothingMoved(repo.rows, repo.states, MarketFor(mapping), syncMs, requiredStart);
      newAccepted := accepted;
      var request := RequestFor(mapping, low, high);
      error, page, candles := FetchValidated(request);
      if error.Some? {
        return;
      }
      PageIsNew(accepted, repo.rows, request, candles, start, end);
      var conflict;
      conflict, newAccepted := Merge(accepted, candles);
      if conflict {
        return Some(ConflictAcrossPages), page, candles, newAccepted;
      }
      ByMinuteKeys(accepted, candles);
      error := StoreValidated(request, candles, syncMs, requiredStart, before, start, end);
    }

    /** One page request and its validation. */
    method FetchValidated(request: Request) returns (error: Option<SyncError>, page: Page, candles: seq<ClosedCandle>)
      modifies provider
      ensures provider.log == old(provider.log) + [Fetch(request)]
      ensures error.None? ==> Validated(request, candles)
      ensures error.None? <==> Brings(request, provider.answer(old(provider.log), request))
      ensures error.None? ==>
        provider.answer(old(provider.log), request) == Some(page) && candles == Unique(page.candles)
      ensures error == Some(ProviderRaised) <==> provider.answer(old(provider.log), request).None?
      ensures error.Some? ==>
        error.value in {ProviderRaised, PageIdentity, PageConflict, EmptyPageReceived, NonMonotonicPage, BrokenPage}
    {
      candles := [];
      var fetched := provider.FetchPage(request);
      if fetched.None? {
        return Some(ProviderRaised), PageData([], None, true), candles;
      }
      page := fetched.value;
      var validated := ValidatePage(request, page);
      if validated.Failure? {
        return Some(validated.error), page, candles;
      }
      AcceptableIsValidated(request, page.candles);
      return None, page, validated.value;
    }

    /** Hand one validated page to persistence. */
    method StoreValidated(request: Request, candles: seq<ClosedCandle>, syncMs: int, requiredStart: int,
                          ghost before: map<Key, ClosedCandle>, ghost start: int, ghost end: int)
      returns (error: Option<SyncError>)
      requires repo.Valid() && Validated(request, candles) && start <= request.startMs && request.endMs <= end
      requires Extends(before, repo.rows, Market(request.provider, request.instrument), request.symbol, start, end)
      modifies repo
      ensures repo.Valid()
      ensures Extends(before, repo.rows, Market(request.provider, request.instrument), request.symbol, start, end)
      ensures error.None? ==> forall t :: Has(repo.rows, Market(request.provider, request.instrument), t) <==>
                Has(old(repo.rows), Market(request.provider, request.instrument), t) || InPage(candles, t)
      ensures Written(old(repo.View()), repo.View())
      ensures Upheld(repo.rows, old(repo.states), repo.states, Market(request.provider, request.instrument), syncMs,
                     requiredStart, error.None?)
      ensures error.None? ==> Sane(syncMs, requiredStart)
      ensures Sane(syncMs, requiredStart) ==>
        (forall i :: 0 <= i < |candles| ==> KeyOf(candles[i]) !in old(repo.rows)) ==> error.None?
      ensures error.Some? ==> error.value.StoreRefused?
      ensures (forall i :: 0 <= i < |candles| ==> KeyOf(candles[i]) !in old(repo.rows)) ==>
        error != Some(StoreRefused(SourceConflict))
    {
      if forall i :: 0 <= i < |candles| ==> KeyOf(candles[i]) !in repo.rows {
        FreshPageFits(repo.rows, request, candles);
      }
      var refused := repo.StoreCandlePage(candles, syncMs, requiredStart);
      if refused.Some? {
        NothingMoved(repo.rows, repo.states, Market(request.provider, request.instrument), syncMs, requiredStart);
        return Some(StoreRefused(refused.value));
      }
      assert Matches(request, candles[0]);
      MovedUpholds(repo.rows, old(repo.states), repo.states, MarketOf(candles[0]), syncMs, requiredStart);
      PageStored(before, old(repo.rows), repo.rows, request, candles, start, end);
      return None;
    }

    /** One page, and where its cursor moves the window: `intact` says whether the windows so far have left no hole. */
    method OnePage(mapping: Mapping, low: int, high: int, accepted: map<int, ClosedCandle>, requested: set<int>,
                   syncMs: int, requiredStart: int, ghost before: map<Key, ClosedCandle>, ghost start: int,
                   ghost end: int, ghost intact: bool)
      returns (error: Option<SyncError>, finished: bool, newLow: int, newHigh: int, newAccepted: map<int, ClosedCandle>,
               newRequested: set<int>, ghost newIntact: bool)
      requires repo.Valid() && start <= low <= high <= end && Minute(low) && Minute(high)
      requires Extends(before, repo.rows, MarketFor(mapping), mapping.symbol, start, end)
      requires Gathered(accepted, repo.rows, MarketFor(mapping), start, end, low, high)
      requires Accounts(intact, accepted, start, end, low, high)
      modifies provider, repo
      ensures repo.Valid() && Extends(before, repo.rows, MarketFor(mapping), mapping.symbol, start, end)
      ensures Written(old(repo.View()), repo.View())
      ensures provider.log == old(provider.log) + [Fetch(RequestFor(mapping, low, high))]
      ensures Upheld(repo.rows, old(repo.states), repo.states, MarketFor(mapping), syncMs, requiredStart, error.None?)
      ensures error.Some? ==>
        error.value !in {ConflictAcrossPages, BadRequest, OpenMinute, StoredIdentity, HiddenGap}
      ensures OnlyAccepted(accepted, old(repo.rows), MarketFor(mapping), start, end) ==>
        error != Some(StoreRefused(SourceConflict))
      ensures error.None? && OnlyAccepted(accepted, old(repo.rows), MarketFor(mapping), start, end) ==>
        OnlyAccepted(newAccepted, repo.rows, MarketFor(mapping), start, end)
      ensures error.None? ==> Sane(syncMs, requiredStart) && AllStored(newAccepted, repo.rows, MarketFor(mapping))
      ensures error.None? && !finished ==>
        && low <= newLow <= newHigh <= high && newHigh - newLow + MINUTE_MS <= high - low && Minute(newLow)
        && Minute(newHigh)
        && Gathered(newAccepted, repo.rows, MarketFor(mapping), start, end, newLow, newHigh)
      ensures error.None? ==>
        Accounts(newIntact, newAccepted, start, end, if finished then 1 else newLow, if finished then 0 else newHigh)
      ensures intact ==> var paged := Paged(provider, mapping, old(provider.log), low, high, requested);
        if error.None? then paged == After(newIntact, finished, provider, mapping, newLow, newHigh, newRequested)
        else OnlyAccepted(accepted, old(repo.rows), MarketFor(mapping), start, end) ==>
             !(paged.Some? && Sane(syncMs, requiredStart))
      ensures error.None? && !intact ==> !newIntact
    {
      hide Extends, Gathered, OnlyAccepted, AllStored, Minute, Paged, Brings, Sane, Accounts, Takes, Written, Validated,
           Unique, InPage, Has;
      hide Upheld;
      ghost var m, stored, asked := MarketFor(mapping), repo.rows, provider.log;
      finished, newLow, newHigh, newRequested, newIntact := false, low, high, requested, false;
      var page, candles;
      error, page, candles, newAccepted := TakePage(mapping, low, high, accepted, syncMs, requiredStart, before, start,
                                                    end);
      if error.Some? {
        if !Brings(RequestFor(mapping, low, high), provider.answer(asked, RequestFor(mapping, low, high))) {
          PagedRefused(provider, mapping, asked, low, high, requested);
        }
        return;
      }
      PageSpan(RequestFor(mapping, low, high), candles);
      var first, last := candles[0].openMs, candles[|candles| - 1].openMs;
      PageGathered(m, accepted, newAccepted, stored, repo.rows, candles, start, end, low, high, first, last);
      TakenPage(m, accepted, newAccepted, stored, candles, RequestFor(mapping, low, high), start, end, first, last);
      PagedStep(provider, mapping, asked, low, high, requested, page, first, last);
      ghost var flush;
      if page.complete {
        finished, flush := true, first == low && last == high;
        PageAccounts(intact, accepted, newAccepted, first, last, start, end, low, high, 1, 0, flush);
      } else {
        NextMinute(first, last);
        NextMinute(last, first);
        error, newLow, newHigh, newRequested := MoveWindow(page, first, last, low, high, requested);
        if error.Some? {
          Weaker(repo.rows, old(repo.states), repo.states, m, syncMs, requiredStart);
          return;
        }
        flush := if newLow == last + MINUTE_MS && newHigh == high then first == low else last == high;
        PageAccounts(intact, accepted, newAccepted, first, last, start, end, low, high, newLow, newHigh, flush);
      }
      newIntact := intact && flush;
    }

    /** What the rule says of the rest, once a page was taken. */
    static ghost function After(intact: bool, finished: bool, p: Provider, mapping: Mapping, low: int, high: int,
                                requested: set<int>):
      Option<seq<Call>>
      reads p
    {
      if !intact then None else if finished then Some(p.log) else Paged(p, mapping, p.log, low, high, requested)
    }

    /** Page through one missing run, forwards or backwards as the cursors say. */
    method SyncMissingRange(mapping: Mapping, start: int, end: int, syncMs: int, requiredStart: int)
      returns (error: Option<SyncError>)
      requires repo.Valid()
      modifies provider, repo
      ensures error == Some(BadRequest) <==> !Requestable(start, end)
      ensures error == Some(BadRequest) ==> repo.rows == old(repo.rows) && provider.log == old(provider.log)
      ensures repo.Valid() && Extends(old(repo.rows), repo.rows, MarketFor(mapping), mapping.symbol, start, end)
      ensures Written(old(repo.View()), repo.View())
      ensures Upheld(repo.rows, old(repo.states), repo.states, MarketFor(mapping), syncMs, requiredStart, error.None?)
      ensures old(provider.log) <= provider.log && OnlyFetches(provider.log, |old(provider.log)|, start, end)
      ensures error != Some(BadRequest) ==>
        (|provider.log| - |old(provider.log)|) * MINUTE_MS <= end - start + MINUTE_MS
      ensures error.None? ==> Contiguous(repo.rows, MarketFor(mapping), start, end)
      ensures error.Some? ==> error.value !in {ConflictAcrossPages, OpenMinute, StoredIdentity, HiddenGap}
      ensures NothingStored(old(repo.rows), MarketFor(mapping), start, end) ==>
        error != Some(StoreRefused(SourceConflict))
      ensures NothingStored(old(repo.rows), MarketFor(mapping), start, end) && Requestable(start, end) ==>
        var paged := Paged(provider, mapping, old(provider.log), start, end, {});
        && (error.None? <==> paged.Some? && Sane(syncMs, requiredStart))
        && (error.None? ==> paged == Some(provider.log))
    {
      hide Extends, Gathered, OnlyAccepted, AllStored, OnlyFetches, Minute, Contiguous, Paged, Sane, Accounts, Written;
      hide Upheld;
      ghost var m := MarketFor(mapping);
      NothingMoved(repo.rows, repo.states, m, syncMs, requiredStart);
      ghost var before, calls := repo.rows, provider.log;
      ghost var fresh' := NothingStored(before, m, start, end);
      ghost var goal, intact := Paged(provider, mapping, calls, start, end, {}), true;
      NothingGathered(before, m, mapping.symbol, start, end);
      NothingAccepted(start, end);
      NothingWritten(repo.View());
      NoFetchYet(calls, start, end);
      if !Requestable(start, end) {
        return Some(BadRequest);
      }
      RequestableMinutes(start, end);
      var low, high := start, end;
      var requestedCursors: set<int> := {};
      var accepted: map<int, ClosedCandle> := map[];
      var finished := false;
      while !finished
        invariant repo.Valid() && Extends(before, repo.rows, m, mapping.symbol, start, end)
        invariant Written(old(repo.View()), repo.View()) && (finished ==> Sane(syncMs, requiredStart))
        invariant Upheld(repo.rows, old(repo.states), repo.states, m, syncMs, requiredStart, finished)
        invariant Upheld(repo.rows, old(repo.states), repo.states, m, syncMs, requiredStart, false)
        invariant start <= low <= high <= end && Minute(low) && Minute(high)
        invariant calls <= provider.log && OnlyFetches(provider.log, |calls|, start, end)
        invariant (|provider.log| - |calls|) * MINUTE_MS + (if finished then 0 else high - low + MINUTE_MS)
          <= end - start + MINUTE_MS
        invariant finished ==> AllStored(accepted, repo.rows, m)
        invariant !finished ==> Gathered(accepted, repo.rows, m, start, end, low, high)
        invariant fresh' ==> OnlyAccepted(accepted, repo.rows, m, start, end)
        invariant Accounts(intact, accepted, start, end, if finished then 1 else low, if finished then 0 else high)
        invariant goal == After(intact, finished, provider, mapping, low, high, requestedCursors)
        decreases !finished, high - low
      {
        ghost var asked, view := provider.log, repo.View();
        var failed, newLow, newHigh;
        OneMoreFetch(asked, calls, RequestFor(mapping, low, high), start, end);
        failed, finished, newLow, newHigh, accepted, requestedCursors, intact :=
          OnePage(mapping, low, high, accepted, requestedCursors, syncMs, requiredStart, before, start, end, intact);
        WrittenOn(old(repo.View()), view, repo.View());
        UpheldOn(view.rows, repo.rows, old(repo.states), view.states, repo.states, m, syncMs, requiredStart, false,
                 failed.None?);
        if failed.Some? {
          return failed;
        }
        if !finished {
          low, high := newLow, newHigh;
        }
      }
      WholeIsGrid(intact, accepted, start, end);
      if Ascending(accepted.Keys) != Grid(start, end) {
        return Some(NotContiguous);
      }
      GridCovered(accepted, repo.rows, m, start, end);
      return None;
    }

    /** What `Survey` lists: ranges of missing minutes, or, from a start that is no minute, at most one that no
        request can name. */
    ghost predicate Surveyed(m: Market, ranges: seq<Span>, start: int, end: int)
      reads repo
    {
      if Minute(start) then Fresh(repo.rows, m, ranges, start, end)
      else if end < start then ranges == [] else ranges != [] && !Minute(ranges[0].lo)
    }

    /** Fill the missing ranges in order. */
    method SyncRanges(mapping: Mapping, ranges: seq<Span>, start: int, end: int, syncMs: int)
      returns (error: Option<SyncError>)
      requires repo.Valid() && Surveyed(MarketFor(mapping), ranges, start, end)
      modifies provider, repo
      ensures repo.Valid() && Extends(old(repo.rows), repo.rows, MarketFor(mapping), mapping.symbol, start, end)
      ensures old(provider.log) <= provider.log
      ensures FetchesAbsent(provider.log, |old(provider.log)|, old(repo.rows), MarketFor(mapping))
      ensures |provider.log| - |old(provider.log)| <= if Minute(start) then SpanMinutes(ranges) else 0
      ensures 0 <= start && Minute(start) && Minute(end) ==> error != Some(BadRequest)
      ensures !Minute(start) && start <= end ==> error == Some(BadRequest)
      ensures error.None? ==> Progress(repo.rows, MarketFor(mapping), ranges, |ranges|)
      ensures error.Some? ==>
        error.value !in {ConflictAcrossPages, StoreRefused(SourceConflict), OpenMinute, StoredIdentity, HiddenGap}
      ensures Written(old(repo.View()), repo.View())
      ensures Upheld(repo.rows, old(repo.states), repo.states, MarketFor(mapping), syncMs, start,
                     error.None? && ranges != [])
      ensures ranges == [] ==> repo.View() == old(repo.View())
      ensures var paged := PagedAll(provider, mapping, old(provider.log), ranges);
        && (error.None? <==> paged.Some? && (ranges == [] || Sane(syncMs, start)))
        && (error.None? ==> paged == Some(provider.log))
    {
      hide Contiguous, Written, Sane, Extends, FetchesAbsent, Upheld;
      NothingMoved(repo.rows, repo.states, MarketFor(mapping), syncMs, start);
      ghost var m, before, calls := MarketFor(mapping), repo.rows, provider.log;
      NothingDone(repo.View(), calls, m, mapping.symbol, start, end);
      for j := 0 to |ranges|
        invariant Written(old(repo.View()), repo.View()) && (j > 0 ==> Sane(syncMs, start))
        invariant Upheld(repo.rows, old(repo.states), repo.states, m, syncMs, start, j > 0)
        invariant Upheld(repo.rows, old(repo.states), repo.states, m, syncMs, start, false)
        invariant ranges == [] ==> repo.View() == old(repo.View())
        invariant PagedAll(provider, mapping, calls, ranges[..j]) == Some(provider.log)
        invariant repo.Valid() && Extends(before, repo.rows, m, mapping.symbol, start, end)
        invariant Minute(start) ==> Progress(repo.rows, m, ranges, j)
        invariant calls <= provider.log && FetchesAbsent(provider.log, |calls|, before, m)
        invariant if Minute(start) then |provider.log| - |calls| <= SpanMinutes(ranges[..j])
                  else j == 0 && provider.log == calls
      {
        ghost var rows, log, view := repo.rows, provider.log, repo.View();
        PagedNext(provider, mapping, calls, ranges, j);
        error := SyncMissingRange(mapping, ranges[j].lo, ranges[j].hi, syncMs, start);
        WrittenOn(old(repo.View()), view, repo.View());
        UpheldOn(view.rows, repo.rows, old(repo.states), view.states, repo.states, m, syncMs, start, false,
                 error.None?);
        if Minute(start) {
          ExtendsWiden(rows, repo.rows, m, mapping.symbol, ranges[j].lo, ranges[j].hi, start, end);
          ExtendsTransitive(before, rows, repo.rows, m, mapping.symbol, start, end);
          FetchesStayAbsent(log, provider.log, |calls|, before, m, ranges[j].lo, ranges[j].hi);
          SpanMinutesStep(ranges, j);
          SpanMinutesGrow(ranges, j + 1);
        }
        if error.Some? {
          if PagedAll(provider, mapping, calls, ranges[..j + 1]).None? {
            PagedFails(provider, mapping, calls, ranges, j + 1);
          }
          return;
        }
        ProgressStep(before, rows, repo.rows, m, mapping.symbol, ranges, j, start, end);
      }
      assert ranges[..|ranges|] == ranges;
      error := None;
    }

    /** Stored rows must carry the symbol now mapped to the instrument. */
    method ValidateExisting(mapping: Mapping, candles: seq<ClosedCandle>) returns (ok: bool)
      ensures ok == AllSymbol(candles, mapping.symbol)
    {
      for i := 0 to |candles|
        invariant AllSymbol(candles[..i], mapping.symbol)
      {
        if candles[i].symbol != mapping.symbol {
          return false;
        }
      }
      assert candles[..|candles|] == candles;
      return true;
    }

    /** Every minute up to a watermark at or past `start` must be among the rows loaded. */
    method ValidateSyncState(mapping: Mapping, start: int, present: set<int>) returns (ok: bool)
      ensures ok == (hidesSyncState || WatermarkBacked(repo.states, MarketFor(mapping), start, present))
    {
      if hidesSyncState {
        return true;
      }
      var state := repo.LoadSyncState(MarketFor(mapping));
      if state.None? || state.value.lastCompletedOpenMs < start {
        return true;
      }
      var grid := Grid(start, state.value.lastCompletedOpenMs);
      ok := forall i :: 0 <= i < |grid| ==> grid[i] in present;
    }

    /** The provider's three queries: does it know the instrument, what time is it, what has closed. */
    method Query(end: int) returns (error: Option<SyncError>, serverTime: int)
      modifies provider
      ensures old(provider.log) <= provider.log && FetchCount(provider.log, |old(provider.log)|) == 0
      ensures forall i :: |old(provider.log)| <= i < |provider.log| ==> !provider.log[i].Fetch?
      ensures error.Some? ==> error.value in {ProviderRaised, OpenMinute}
      ensures error.None? <==> Queried(provider, old(provider.log), end)
      ensures error == Some(OpenMinute) <==> StillOpen(provider, old(provider.log), end)
      ensures error.None? ==>
        && provider.log == old(provider.log) + [ValidateInstrument, ServerTime, LatestClosed]
        && provider.serverTime(old(provider.log) + [ValidateInstrument]) == Some(serverTime)
    {
      serverTime := 0;
      ghost var k := |provider.log|;
      NotAFetch(provider.log, ValidateInstrument, k);
      var accepted := provider.Validate();
      NotAFetch(provider.log, ServerTime, k);
      if !accepted {
        return Some(ProviderRaised), serverTime;
      }
      var now := provider.ServerTimeMs();
      NotAFetch(provider.log, LatestClosed, k);
      if now.None? {
        return Some(ProviderRaised), serverTime;
      }
      var latest := provider.LatestClosedOpenMs();
      ghost var before := old(provider.log);
      assert before + [ValidateInstrument] + [ServerTime] == before + [ValidateInstrument, ServerTime];
      if latest.None? {
        return Some(ProviderRaised), serverTime;
      }
      if end > latest.value {
        return Some(OpenMinute), serverTime;
      }
      return None, now.value;
    }

    /** Load the stored rows of the range, check them, and list what is missing. */
    method Survey(mapping: Mapping, start: int, end: int) returns (error: Option<SyncError>, ranges: seq<Span>)
      requires repo.Valid()
      ensures error.Some? ==> error.value in {StoredIdentity, HiddenGap}
      ensures error == Some(StoredIdentity) <==>
        !AllSymbol(Load(repo.rows, MarketFor(mapping), start, end), mapping.symbol)
      ensures error.None? <==> Undisputed(repo.View(), MarketFor(mapping), mapping.symbol, hidesSyncState, start, end)
      ensures error.None? ==> ranges == Missing(repo.rows, MarketFor(mapping), start, end)
      ensures error.None? ==> Surveyed(MarketFor(mapping), ranges, start, end)
      ensures error.None? && Minute(start) ==>
        && Fresh(repo.rows, MarketFor(mapping), ranges, start, end)
        && SpanMinutes(ranges) == MissingCount(Times(repo.rows, MarketFor(mapping), start, Some(end)), start, end)
        && forall t :: start <= t <= end && Minute(t) && !Has(repo.rows, MarketFor(mapping), t) ==> InSpan(ranges, t)
    {
      var existing := repo.LoadCandles(MarketFor(mapping), start, end);
      var sound := ValidateExisting(mapping, existing);
      if !sound {
        return Some(StoredIdentity), [];
      }
      var present := OpenTimes(existing);
      LoadedTimes(repo.rows, MarketFor(mapping), start, end);
      var backed := ValidateSyncState(mapping, start, present);
      if !backed {
        return Some(HiddenGap), [];
      }
      ranges := MissingRanges(start, end, present);
      SpannedIsMissing(repo.rows, MarketFor(mapping), start, end, ranges);
      if Minute(start) {
        RangesAreFresh(repo.rows, MarketFor(mapping), start, end, ranges);
      } else {
        MisalignedRanges(repo.rows, MarketFor(mapping), start, end, ranges);
      }
      error := None;
    }

    /** Load the range back and require one candle per minute. */
    method Confirm(mapping: Mapping, start: int, end: int) returns (result: Outcome<seq<ClosedCandle>>)
      requires repo.Valid() && (Minute(start) || end < start) && Contiguous(repo.rows, MarketFor(mapping), start, end)
      ensures result.Success? ==> Complete(repo.rows, MarketFor(mapping), mapping.symbol, start, end, result.value)
      ensures result.Failure? ==> result.error == StoredIdentity
      ensures result.Success? <==> AllSymbol(Load(repo.rows, MarketFor(mapping), start, end), mapping.symbol)
    {
      var ordered := repo.LoadCandles(MarketFor(mapping), start, end);
      var sound := ValidateExisting(mapping, ordered);
      if !sound {
        return Failure(StoredIdentity);
      }
      LoadIsGrid(repo.rows, MarketFor(mapping), start, end);
      if Opens(ordered) != Grid(start, end) {
        return Failure(NotContiguous);
      }
      return Success(ordered);
    }

    /** Once the queries are answered: fill what is missing, then check what is stored. */
    method Fulfil(mapping: Mapping, start: int, end: int, syncMs: int) returns (result: Outcome<seq<ClosedCandle>>)
      requires repo.Valid()
      modifies provider, repo
      ensures repo.Valid() && Extends(old(repo.rows), repo.rows, MarketFor(mapping), mapping.symbol, start, end)
      ensures result.Success? ==> Complete(repo.rows, MarketFor(mapping), mapping.symbol, start, end, result.value)
      ensures result.Failure? ==>
        result.error !in {ConflictAcrossPages, StoreRefused(SourceConflict), OpenMinute}
      ensures 0 <= start && Minute(start) && Minute(end) ==> result != Failure(BadRequest)
      ensures !Minute(start) && result.Success? ==> end < start
      ensures old(provider.log) <= provider.log
      ensures FetchesAbsent(provider.log, |old(provider.log)|, old(repo.rows), MarketFor(mapping))
      ensures |provider.log| - |old(provider.log)|
           <= MissingCount(Times(old(repo.rows), MarketFor(mapping), start, Some(end)), start, end)
      ensures Written(old(repo.View()), repo.View())
      ensures Apart(old(repo.states), repo.states, MarketFor(mapping), start)
      ensures Minute(start) && Contiguous(old(repo.rows), MarketFor(mapping), start, end) ==>
        repo.View() == old(repo.View())
      ensures result.Success? && !Contiguous(old(repo.rows), MarketFor(mapping), start, end) ==>
        Joins(old(repo.states), MarketFor(mapping), start) ==>
          AtOrPast(repo.states, MarketFor(mapping), start, end, Some(syncMs))
      ensures result == Failure(StoredIdentity) <==>
        !AllSymbol(Load(old(repo.rows), MarketFor(mapping), start, end), mapping.symbol)
      ensures result == Failure(HiddenGap) <==>
        && AllSymbol(Load(old(repo.rows), MarketFor(mapping), start, end), mapping.symbol)
        && !Undisputed(old(repo.View()), MarketFor(mapping), mapping.symbol, hidesSyncState, start, end)
      ensures var ranges := Missing(old(repo.rows), MarketFor(mapping), start, end);
        var paged := PagedAll(provider, mapping, old(provider.log), ranges);
        && (result.Success? <==>
              && Undisputed(old(repo.View()), MarketFor(mapping), mapping.symbol, hidesSyncState, start, end)
              && (ranges == [] || Sane(syncMs, start)) && paged.Some?)
        && (result.Success? ==> paged == Some(provider.log))
    {
      hide Contiguous, Written, Sane, PagedAll, Undisputed, Missing, Surveyed, Fresh, Progress, AllSymbol, Load,
           Upheld, Apart, AtOrPast, Joins, InSpan;
      ghost var m, before, calls, view := MarketFor(mapping), repo.rows, provider.log, repo.View();
      NothingDone(view, calls, m, mapping.symbol, start, end);
      NothingMoved(repo.rows, repo.states, m, syncMs, start);
      UpheldIsApart(repo.rows, repo.states, repo.states, m, syncMs, start, false);
      var failed, ranges := Survey(mapping, start, end);
      if failed.Some? {
        return Failure(failed.value);
      }
      NoRanges(before, m, ranges, start, end);
      failed := SyncRanges(mapping, ranges, start, end, syncMs);
      UpheldIsApart(repo.rows, view.states, repo.states, m, syncMs, start, failed.None? && ranges != []);
      if failed.Some? {
        return Failure(failed.value);
      }
      if Minute(start) {
        AllFilled(before, repo.rows, m, ranges, start, end);
        ReachesEnd(repo.rows, view.states, repo.states, m, syncMs, start, end, ranges != []);
      }
      SymbolsStay(view, repo.rows, m, mapping.symbol, hidesSyncState, start, end);
      result := Confirm(mapping, start, end);
    }

    /** One market range: fill what is missing, then check what is stored. */
    method SyncRange(mapping: Mapping, start: int, end: int) returns (result: Outcome<seq<ClosedCandle>>)
      requires repo.Valid()
      modifies provider, repo
      ensures repo.Valid() && Extends(old(repo.rows), repo.rows, MarketFor(mapping), mapping.symbol, start, end)
      ensures result.Success? ==> Complete(repo.rows, MarketFor(mapping), mapping.symbol, start, end, result.value)
      ensures result.Failure? ==> result.error !in {ConflictAcrossPages, StoreRefused(SourceConflict)}
      ensures 0 <= start && Minute(start) && Minute(end) ==> result != Failure(BadRequest)
      ensures !Minute(start) && result.Success? ==> end < start
      ensures old(provider.log) <= provider.log
      ensures FetchesAbsent(provider.log, |old(provider.log)|, old(repo.rows), MarketFor(mapping))
      ensures FetchCount(provider.log, |old(provider.log)|)
           <= MissingCount(Times(old(repo.rows), MarketFor(mapping), start, Some(end)), start, end)
      ensures Written(old(repo.View()), repo.View())
      ensures Apart(old(repo.states), repo.states, MarketFor(mapping), start)
      ensures Minute(start) && Contiguous(old(repo.rows), MarketFor(mapping), start, end) ==>
        repo.View() == old(repo.View())
      ensures result.Success? && !Contiguous(old(repo.rows), MarketFor(mapping), start, end) ==>
        Joins(old(repo.states), MarketFor(mapping), start) ==>
          AtOrPast(repo.states, MarketFor(mapping), start, end,
                   provider.serverTime(old(provider.log) + [ValidateInstrument]))
      ensures result == Failure(OpenMinute) <==> StillOpen(provider, old(provider.log), end)
      ensures result == Failure(StoredIdentity) <==>
        && Queried(provider, old(provider.log), end)
        && !AllSymbol(Load(old(repo.rows), MarketFor(mapping), start, end), mapping.symbol)
      ensures result == Failure(HiddenGap) <==>
        && Queried(provider, old(provider.log), end)
        && AllSymbol(Load(old(repo.rows), MarketFor(mapping), start, end), mapping.symbol)
        && !Undisputed(old(repo.View()), MarketFor(mapping), mapping.symbol, hidesSyncState, start, end)
      ensures var synced := Synced(provider, mapping, old(provider.log), old(repo.View()), hidesSyncState, start, end);
        (result.Success? <==> synced.Some?) && (result.Success? ==> synced == Some(provider.log))
    {
      hide Contiguous, Written, Sane, PagedAll, Undisputed, Queried, Missing, AllSymbol, Load, Apart, AtOrPast, Joins,
           StillOpen;
      ghost var m, before, calls := MarketFor(mapping), repo.rows, provider.log;
      NothingDone(repo.View(), calls, m, mapping.symbol, start, end);
      NothingMoved(repo.rows, repo.states, m, 0, start);
      UpheldIsApart(repo.rows, repo.states, repo.states, m, 0, start, false);
      var failed, serverTime := Query(end);
      if failed.Some? {
        return Failure(failed.value);
      }
      ghost var queried := provider.log;
      result := Fulfil(mapping, start, end, serverTime);
      FetchCountGrows(queried, provider.log, |calls|);
    }
  }

  /** The market has a watermark of the given sync time at or past every minute of the range. */
  predicate AtOrPast(states: map<Market, SyncState>, m: Market, start: int, end: int, syncMs: Option<int>) {
    && m in states && syncMs == Some(states[m].successfulSyncMs)
    && forall t | start <= t <= end :: Minute(t) ==> t <= states[m].lastCompletedOpenMs
  }

  lemma ReachesEnd(rows: map<Key, ClosedCandle>, before: map<Market, SyncState>, states: map<Market, SyncState>,
                   m: Market, syncMs: int, start: int, end: int, stored: bool)
    requires Upheld(rows, before, states, m, syncMs, start, stored) && Minute(start) && Contiguous(rows, m, start, end)
    ensures stored && Joins(before, m, start) && start <= end ==> AtOrPast(states, m, start, end, Some(syncMs))
  {
    if stored && Joins(before, m, start) && start <= end {
      assert Has(rows, m, start);
      forall t | start <= t <= end && Minute(t) ensures t <= states[m].lastCompletedOpenMs {
        assert Contiguous(rows, m, start, t);
      }
    }
  }

  /** There is a missing range exactly if a minute is missing. */
  lemma NoRanges(rows: map<Key, ClosedCandle>, m: Market, ranges: seq<Span>, start: int, end: int)
    requires Minute(start) ==> Fresh(rows, m, ranges, start, end)
    requires Minute(start) ==> forall t :: start <= t <= end && Minute(t) && !Has(rows, m, t) ==> InSpan(ranges, t)
    ensures Minute(start) ==> (ranges == [] <==> Contiguous(rows, m, start, end))
  {
    if Minute(start) && ranges != [] {
      assert NothingStored(rows, m, ranges[0].lo, ranges[0].hi);
      assert !Has(rows, m, ranges[0].lo);
    }
  }

  lemma NothingDone(store: Store, log: seq<Call>, m: Market, symbol: nat, lo: int, hi: int)
    ensures Written(store, store) && Extends(store.rows, store.rows, m, symbol, lo, hi)
    ensures FetchesAbsent(log, |log|, store.rows, m)
  {
    NothingWritten(store);
  }

  /** New rows carry the requested symbol, so rows that were sound before are sound after. */
  lemma SymbolsStay(store: Store, rows: map<Key, ClosedCandle>, m: Market, symbol: nat, hidesSyncState: bool,
                    start: int, end: int)
    requires Keyed(store.rows) && Keyed(rows) && Undisputed(store, m, symbol, hidesSyncState, start, end)
    requires Extends(store.rows, rows, m, symbol, start, end)
    ensures AllSymbol(Load(rows, m, start, end), symbol)
  {
    hide Load, WatermarkBacked;
    var older, cs := Load(store.rows, m, start, end), Load(rows, m, start, end);
    LoadLists(rows, m, start, end);
    LoadLists(store.rows, m, start, end);
    forall i | 0 <= i < |cs| ensures cs[i].symbol == symbol {
      assert Between(cs[i], rows, m, start, end);
      if KeyOf(cs[i]) in store.rows {
        assert Between(cs[i], store.rows, m, start, end);
        var j :| 0 <= j < |older| && older[j] == cs[i];
      }
    }
  }

  /** What a validated page takes of its window. */
  lemma TakenPage(m: Market, taken: map<int, ClosedCandle>, accepted: map<int, ClosedCandle>,
                  stored: map<Key, ClosedCandle>, candles: seq<ClosedCandle>, request: Request, start: int, end: int,
                  first: int, last: int)
    requires Validated(request, candles) && first == candles[0].openMs && last == candles[|candles| - 1].openMs
    requires Gathered(taken, stored, m, start, end, request.startMs, request.endMs)
    requires Minute(request.startMs) && Minute(request.endMs)
    requires forall t :: t in accepted <==> t in taken || InPage(candles, t)
    ensures Takes(taken, accepted, first, last, request.startMs, request.endMs)
  {
    forall t ensures InPage(candles, t) <==> first <= t <= last && Minute(t) {
      PageMinutes(request, candles, t);
    }
    PageSpan(request, candles);
  }

  lemma RequestableMinutes(start: int, end: int)
    requires Requestable(start, end)
    ensures start <= end && Minute(start) && Minute(end)
  {
  }

  /** Everything was accepted exactly if the accepted minutes are the grid. */
  lemma WholeIsGrid(intact: bool, accepted: map<int, ClosedCandle>, start: int, end: int)
    requires Minute(start) && Accounts(intact, accepted, start, end, 1, 0)
    ensures Ascending(accepted.Keys) == Grid(start, end) <==> intact
  {
    hide Ascending, Grid;
    AscendingLists(accepted.Keys);
    if intact {
      forall t ensures t in Ascending(accepted.Keys) <==> t in Grid(start, end) {
        GridMembers(start, end, t);
      }
      IncreasingUnique(Ascending(accepted.Keys), Grid(start, end));
    } else {
      var t :| start <= t <= end && Minute(t) && !(1 <= t <= 0) && t !in accepted;
      GridMembers(start, end, t);
      assert t in Grid(start, end) && t !in Ascending(accepted.Keys);
    }
  }

  /** The minutes of a validated page all lie between its first and its last, inside the window. */
  lemma PageSpan(request: Request, cs: seq<ClosedCandle>)
    requires Validated(request, cs)
    ensures cs != [] && request.startMs <= cs[0].openMs <= cs[|cs| - 1].openMs <= request.endMs
    ensures Minute(cs[0].openMs) && Minute(cs[|cs| - 1].openMs)
    ensures forall t :: InPage(cs, t) ==> cs[0].openMs <= t <= cs[|cs| - 1].openMs
  {
  }

  /** Once a page is taken, what it brought lies outside every window that follows it. */
  lemma PageGathered(m: Market, taken: map<int, ClosedCandle>, accepted: map<int, ClosedCandle>,
                     stored: map<Key, ClosedCandle>, rows: map<Key, ClosedCandle>, candles: seq<ClosedCandle>,
                     start: int, end: int, low: int, high: int, first: int, last: int)
    requires Gathered(taken, stored, m, start, end, low, high) && start <= low <= first <= last <= high <= end
    requires forall t :: InPage(candles, t) ==> first <= t <= last
    requires forall t :: t in accepted <==> t in taken || InPage(candles, t)
    requires forall t :: Has(rows, m, t) <==> Has(stored, m, t) || InPage(candles, t)
    ensures AllStored(accepted, rows, m)
    ensures Gathered(accepted, rows, m, start, end, last + MINUTE_MS, high)
    ensures Gathered(accepted, rows, m, start, end, low, first - MINUTE_MS)
    ensures OnlyAccepted(taken, stored, m, start, end) ==> OnlyAccepted(accepted, rows, m, start, end)
  {
  }

  lemma GridCovered(accepted: map<int, ClosedCandle>, rows: map<Key, ClosedCandle>, m: Market, start: int, end: int)
    requires Minute(start) && Ascending(accepted.Keys) == Grid(start, end)
    requires AllStored(accepted, rows, m)
    ensures Contiguous(rows, m, start, end)
  {
    AscendingLists(accepted.Keys);
    forall t | start <= t <= end && Minute(t) ensures Has(rows, m, t) {
      GridMembers(start, end, t);
    }
  }
}
