/** When paging through a range succeeds, from the provider's answers alone. */
module PagingOutcomes {
  import opened Sequences
  import opened Candles
  import opened CandleStore
  import opened MarketPages
  import opened PagingRules
  import HistoricalSync

  /** `at` lists, in order, where each candle of a page comes for the first time. */
  ghost predicate FirstTimes(cs: seq<ClosedCandle>, at: seq<nat>) {
    && (forall j, k :: 0 <= j < k < |at| ==> at[j] < at[k])
    && (forall k: nat :: k in at <==> k < |cs| && forall j :: 0 <= j < k ==> cs[j] != cs[k])
  }

  /** The candles that come for the first time open one minute after the other, from `first` to `last`. */
  ghost predicate Runs(cs: seq<ClosedCandle>, first: int, last: int) {
    exists at :: FirstTimes(cs, at) && at != [] && last == first + (|at| - 1) * 60_000
      && forall k :: 0 <= k < |at| ==> at[k] < |cs| && cs[at[k]].openMs == first + k * 60_000
  }

  /** A page of the request: every candle is of its market and symbol and opens in its range, no minute comes with two
      different candles, and they run from `first` to `last`. */
  ghost predicate Offers(provider: nat, mapping: Mapping, low: int, high: int, cs: seq<ClosedCandle>, first: int,
                         last: int)
  {
    && (forall c :: c in cs ==>
          && c.provider == provider && c.instrument == mapping.instrument && c.symbol == mapping.symbol
          && low <= c.openMs <= high)
    && (forall c, d :: c in cs && d in cs && c.openMs == d.openMs ==> c == d)
    && Runs(cs, first, last)
  }

  /** The cursor names the minute after a page that fills the start of the window, or the minute before one that fills
      its end, was not asked for before, and leaves the rest of the window. */
  predicate Leads(page: Page, first: int, last: int, low: int, high: int, asked: set<int>, nextLow: int,
                  nextHigh: int)
  {
    && !page.complete && page.nextMs.Some? && page.nextMs.value !in asked
    && ((first == low && page.nextMs.value == last + 60_000 <= high
         && nextLow == page.nextMs.value && nextHigh == high)
        || (last == high && low <= page.nextMs.value == first - 60_000
            && nextLow == low && nextHigh == page.nextMs.value))
  }

  /** Paging through the window turns the calls `log` into `after`: each request is for what is left, and the page that
      is complete fills it. */
  ghost predicate Walks(p: Provider, mapping: Mapping, log: seq<Call>, low: int, high: int, asked: set<int>,
                        after: seq<Call>)
    decreases |after| - |log|
  {
    var request := Request(p.id, mapping.instrument, mapping.symbol, low, high);
    var next := log + [Fetch(request)];
    && |log| < |after| && p.answer(log, request).Some?
    && var page := p.answer(log, request).value;
       exists first, last :: Offers(p.id, mapping, low, high, page.candles, first, last) &&
         if page.complete then first == low && last == high && after == next
         else exists nextLow, nextHigh ::
           && Leads(page, first, last, low, high, asked, nextLow, nextHigh)
           && Walks(p, mapping, next, nextLow, nextHigh, asked + {page.nextMs.value}, after)
  }

  // ----- The rule is that

  ghost predicate Picks(cs: seq<ClosedCandle>, at: seq<nat>, picked: seq<ClosedCandle>) {
    |at| == |picked| && forall k :: 0 <= k < |at| ==> at[k] < |cs| && picked[k] == cs[at[k]]
  }

  lemma PicksMore(cs: seq<ClosedCandle>, c: ClosedCandle, at: seq<nat>, picked: seq<ClosedCandle>)
    requires Picks(cs, at, picked)
    ensures Picks(cs + [c], at, picked) && Picks(cs + [c], at + [|cs|], picked + [c])
  {
  }

  lemma {:induction false} UniqueOutcome(cs: seq<ClosedCandle>) returns (at: seq<nat>)
    ensures FirstTimes(cs, at) && Picks(cs, at, Unique(cs))
  {
    if cs == [] {
      at := [];
    } else {
      hide FirstTimes, Picks;
      var front, last := cs[..|cs| - 1], cs[|cs| - 1];
      at := UniqueOutcome(front);
      UniqueMembers(front);
      FirstTimesMore(front, last, at);
      PicksMore(front, last, at, Unique(front));
      assert front + [last] == cs;
      if last !in front {
        at := at + [|front|];
      }
    }
  }

  lemma FirstTimesMore(cs: seq<ClosedCandle>, c: ClosedCandle, at: seq<nat>)
    requires FirstTimes(cs, at)
    ensures FirstTimes(cs + [c], if c in cs then at else at + [|cs|])
  {
    var longer := cs + [c];
    assert forall k :: 0 <= k < |at| ==> at[k] in at;
    assert forall k: nat :: k in at + [|cs|] <==> k in at || k == |cs|;
    assert longer[|cs|] == c && forall k :: 0 <= k < |cs| ==> longer[k] == cs[k];
  }

  lemma {:induction false} SamePlaces(cs: seq<ClosedCandle>, a: seq<nat>, b: seq<nat>)
    requires FirstTimes(cs, a) && FirstTimes(cs, b)
    ensures a == b
  {
    var x, y: seq<int> := a, b;
    assert forall k: int :: k in x <==> k in y by {
      forall k: int ensures k in x <==> k in y {
        if k in x {
          var n: nat := k;
          assert n in a && n in b;
        }
        if k in y {
          var n: nat := k;
          assert n in b && n in a;
        }
      }
    }
    IncreasingUnique(x, y);
  }

  lemma RunsOutcome(cs: seq<ClosedCandle>, first: int, last: int)
    ensures Runs(cs, first, last) <==>
      && Unique(cs) != [] && GapFree(Unique(cs)) && first == Unique(cs)[0].openMs
      && last == Unique(cs)[|Unique(cs)| - 1].openMs
  {
    hide FirstTimes;
    var u := Unique(cs);
    var at := UniqueOutcome(cs);
    if Runs(cs, first, last) {
      var other :| FirstTimes(cs, other) && other != [] && last == first + (|other| - 1) * 60_000
        && forall k :: 0 <= k < |other| ==> other[k] < |cs| && cs[other[k]].openMs == first + k * 60_000;
      SamePlaces(cs, at, other);
      assert u[0] == cs[at[0]];
      assert forall k :: 0 <= k < |u| ==> u[k].openMs == first + k * 60_000;
    }
  }

  lemma CoherentOutcome(request: Request, cs: seq<ClosedCandle>)
    ensures Coherent(request, cs) <==>
      && (forall c :: c in cs ==>
            && c.provider == request.provider && c.instrument == request.instrument && c.symbol == request.symbol
            && request.startMs <= c.openMs <= request.endMs)
      && (forall c, d :: c in cs && d in cs && c.openMs == d.openMs ==> c == d)
  {
    if Coherent(request, cs) {
      forall c | c in cs ensures Matches(request, c) {
        var i :| 0 <= i < |cs| && cs[i] == c;
      }
      forall c, d | c in cs && d in cs && c.openMs == d.openMs ensures c == d {
        var i :| 0 <= i < |cs| && cs[i] == c;
        var j :| 0 <= j < |cs| && cs[j] == d;
        assert KeyOf(cs[i]) == KeyOf(cs[j]);
      }
    }
  }

  lemma OffersOutcome(provider: nat, mapping: Mapping, low: int, high: int, cs: seq<ClosedCandle>, first: int,
                      last: int)
    ensures Offers(provider, mapping, low, high, cs, first, last) <==>
      && Acceptable(RequestOf(provider, mapping, low, high), cs) && Unique(cs) != []
      && first == Unique(cs)[0].openMs && last == Unique(cs)[|Unique(cs)| - 1].openMs
  {
    hide Runs, Coherent, Unique, GapFree;
    CoherentOutcome(RequestOf(provider, mapping, low, high), cs);
    RunsOutcome(cs, first, last);
  }

  lemma LeadsOutcome(page: Page, first: int, last: int, low: int, high: int, asked: set<int>, nextLow: int,
                     nextHigh: int)
    requires low <= first <= last <= high
    ensures Leads(page, first, last, low, high, asked, nextLow, nextHigh) <==>
      OnwardFrom(page, first, last, low, high, asked) == Window(nextLow, nextHigh)
  {
  }

  lemma {:induction false} PagedGrows(p: Provider, mapping: Mapping, log: seq<Call>, low: int, high: int,
                                      asked: set<int>)
    ensures var paged := Paged(p, mapping, log, low, high, asked); paged.Some? ==> |log| < |paged.value|
    decreases if low <= high then high - low + 1 else 0
  {
    hide Acceptable, Unique;
    var request := RequestOf(p.id, mapping, low, high);
    var page := p.answer(log, request);
    if Brings(request, page) {
      PageInside(request, page.value.candles);
      var u := Unique(page.value.candles);
      var onward := OnwardFrom(page.value, u[0].openMs, u[|u| - 1].openMs, low, high, asked);
      if onward.Window? {
        PagedGrows(p, mapping, log + [Fetch(request)], onward.low, onward.high, asked + {page.value.nextMs.value});
      }
    }
  }

  /** Paging succeeds exactly if it is a walk, and these are its calls. */
  lemma {:induction false} PagedOutcome(p: Provider, mapping: Mapping, log: seq<Call>, low: int, high: int,
                                        asked: set<int>, after: seq<Call>)
    ensures Paged(p, mapping, log, low, high, asked) == Some(after) <==> Walks(p, mapping, log, low, high, asked, after)
    decreases if low <= high then high - low + 1 else 0
  {
    hide Acceptable, Unique, Offers, Leads;
    var request := RequestOf(p.id, mapping, low, high);
    var answer, next := p.answer(log, request), log + [Fetch(request)];
    PagedGrows(p, mapping, log, low, high, asked);
    if answer.Some? {
      var page, u := answer.value, Unique(answer.value.candles);
      forall first, last ensures Offers(p.id, mapping, low, high, page.candles, first, last) <==>
          Brings(request, answer) && u != [] && first == u[0].openMs && last == u[|u| - 1].openMs
      {
        OffersOutcome(p.id, mapping, low, high, page.candles, first, last);
      }
      if Brings(request, answer) {
        PageInside(request, page.candles);
        var first, last := u[0].openMs, u[|u| - 1].openMs;
        var onward := OnwardFrom(page, first, last, low, high, asked);
        assert Offers(p.id, mapping, low, high, page.candles, first, last);
        forall nextLow, nextHigh
          ensures Leads(page, first, last, low, high, asked, nextLow, nextHigh) <==> onward == Window(nextLow, nextHigh)
        {
          LeadsOutcome(page, first, last, low, high, asked, nextLow, nextHigh);
        }
        if onward.Window? {
          PagedOutcome(p, mapping, next, onward.low, onward.high, asked + {page.nextMs.value}, after);
        }
      }
    }
  }

  // ----- All ranges, and the whole synchronisation

  /** One range after the other. */
  ghost predicate WalksAll(p: Provider, mapping: Mapping, ranges: seq<Span>, logs: seq<seq<Call>>) {
    && |logs| == |ranges| + 1
    && forall j :: 0 <= j < |ranges| ==>
         && 0 <= ranges[j].lo <= ranges[j].hi && ranges[j].lo % 60_000 == 0 && ranges[j].hi % 60_000 == 0
         && Walks(p, mapping, logs[j], ranges[j].lo, ranges[j].hi, {}, logs[j + 1])
  }

  lemma {:induction false} PagedAllWalks(p: Provider, mapping: Mapping, log: seq<Call>, ranges: seq<Span>,
                                         after: seq<Call>)
    returns (logs: seq<seq<Call>>)
    requires PagedAll(p, mapping, log, ranges) == Some(after)
    ensures WalksAll(p, mapping, ranges, logs) && logs[0] == log && logs[|ranges|] == after
  {
    hide Walks, Paged;
    if ranges == [] {
      logs := [log];
    } else {
      var front, last := ranges[..|ranges| - 1], ranges[|ranges| - 1];
      var before := PagedAll(p, mapping, log, front).value;
      logs := PagedAllWalks(p, mapping, log, front, before);
      PagedOutcome(p, mapping, before, last.lo, last.hi, {}, after);
      logs := logs + [after];
    }
  }

  lemma {:induction false} WalksArePagedAll(p: Provider, mapping: Mapping, ranges: seq<Span>, logs: seq<seq<Call>>)
    requires WalksAll(p, mapping, ranges, logs)
    ensures PagedAll(p, mapping, logs[0], ranges) == Some(logs[|ranges|])
  {
    hide Walks, Paged;
    if ranges != [] {
      var n := |ranges| - 1;
      WalksArePagedAll(p, mapping, ranges[..n], logs[..n + 1]);
      PagedOutcome(p, mapping, logs[n], ranges[n].lo, ranges[n].hi, {}, logs[n + 1]);
    }
  }

  /** The stored rows of the range are all of the symbol exactly if every row between its bounds is. */
  lemma SymbolsOutcome(rows: map<Key, ClosedCandle>, m: Market, symbol: nat, start: int, end: int)
    requires Keyed(rows)
    ensures AllSymbol(Load(rows, m, start, end), symbol) <==>
      forall c :: Between(c, rows, m, start, end) ==> c.symbol == symbol
  {
    hide Load, Between;
    LoadLists(rows, m, start, end);
    var cs := Load(rows, m, start, end);
    if AllSymbol(cs, symbol) {
      forall c | c in cs ensures c.symbol == symbol {
        var i :| 0 <= i < |cs| && cs[i] == c;
      }
    }
    forall i | 0 <= i < |cs| ensures cs[i] in cs {
    }
  }

  /** A synchronisation succeeds exactly if the provider answers its three queries and the range has closed, every row
      stored in it is of the symbol, the watermark is backed where it is looked at, and all missing ranges can be walked
      through, which asks for a start and a provider time that are not negative. */
  lemma SyncedOutcome(p: Provider, mapping: Mapping, log: seq<Call>, store: Store, hidesSyncState: bool, start: int,
                      end: int, after: seq<Call>)
    requires Keyed(store.rows)
    ensures Synced(p, mapping, log, store, hidesSyncState, start, end) == Some(after) <==>
      var m := Market(p.id, mapping.instrument);
      var time := p.serverTime(log + [ValidateInstrument]);
      var latest := p.latestClosed(log + [ValidateInstrument, ServerTime]);
      && p.accepts(log) && time.Some? && latest.Some? && end <= latest.value
      && (forall c :: Between(c, store.rows, m, start, end) ==> c.symbol == mapping.symbol)
      && (hidesSyncState || WatermarkBacked(store.states, m, start, Times(store.rows, m, start, Some(end))))
      && var ranges := Missing(store.rows, m, start, end);
         && (ranges != [] ==> time.value >= 0 && start >= 0 && start % 60_000 == 0)
         && exists logs :: WalksAll(p, mapping, ranges, logs) && logs[|ranges|] == after
              && logs[0] == log + [ValidateInstrument, ServerTime, LatestClosed]
  {
    hide Walks, WalksAll, Load, WatermarkBacked, Missing, PagedAll, Between;
    var m := Market(p.id, mapping.instrument);
    var ranges, queried := Missing(store.rows, m, start, end), log + [ValidateInstrument, ServerTime, LatestClosed];
    SymbolsOutcome(store.rows, m, mapping.symbol, start, end);
    if PagedAll(p, mapping, queried, ranges) == Some(after) {
      var logs := PagedAllWalks(p, mapping, queried, ranges, after);
      WalksLength(p, mapping, ranges, logs);
    }
    forall logs | WalksAll(p, mapping, ranges, logs) ensures |logs| == |ranges| + 1
      ensures PagedAll(p, mapping, logs[0], ranges) == Some(logs[|ranges|])
    {
      WalksLength(p, mapping, ranges, logs);
      WalksArePagedAll(p, mapping, ranges, logs);
    }
  }

  lemma WalksLength(p: Provider, mapping: Mapping, ranges: seq<Span>, logs: seq<seq<Call>>)
    requires WalksAll(p, mapping, ranges, logs)
    ensures |logs| == |ranges| + 1
  {
  }

  /** The synchronisation of one range after the other, each on a table that shows nothing. */
  ghost predicate SyncsAll(p: Provider, mapping: Mapping, ranges: seq<Span>, logs: seq<seq<Call>>) {
    && |logs| == |ranges| + 1
    && forall j :: 0 <= j < |ranges| ==>
         Synced(p, mapping, logs[j], Store(map[], map[]), true, ranges[j].lo, ranges[j].hi) == Some(logs[j + 1])
  }

  lemma {:induction false} FilledSyncs(p: Provider, mapping: Mapping, log: seq<Call>, ranges: seq<Span>,
                                       after: seq<Call>)
    returns (logs: seq<seq<Call>>)
    requires HistoricalSync.Filled(p, mapping, log, ranges) == Some(after)
    ensures SyncsAll(p, mapping, ranges, logs) && logs[0] == log && logs[|ranges|] == after
  {
    hide Synced;
    if ranges == [] {
      logs := [log];
    } else {
      var front := ranges[..|ranges| - 1];
      var before := HistoricalSync.Filled(p, mapping, log, front).value;
      logs := FilledSyncs(p, mapping, log, front, before);
      logs := logs + [after];
    }
  }

  lemma {:induction false} SyncsFill(p: Provider, mapping: Mapping, ranges: seq<Span>, logs: seq<seq<Call>>)
    requires SyncsAll(p, mapping, ranges, logs)
    ensures HistoricalSync.Filled(p, mapping, logs[0], ranges) == Some(logs[|ranges|])
  {
    hide Synced;
    if ranges != [] {
      var n := |ranges| - 1;
      SyncsFill(p, mapping, ranges[..n], logs[..n + 1]);
    }
  }

  /** The historical synchronisation of a range gets ready exactly if the range is one of whole minutes from the epoch
      on, the provider accepts it and has closed it, and every missing range can be synchronised. */
  lemma BecomesOutcome(p: Provider, mapping: Mapping, log: seq<Call>, rows: map<Key, ClosedCandle>, start: int,
                       end: int)
    ensures HistoricalSync.Becomes(p, mapping, log, rows, start, end) <==>
      var ranges := Missing(rows, Market(p.id, mapping.instrument), start, end);
      && 0 <= start <= end && start % 60_000 == 0 && end % 60_000 == 0 && p.accepts(log)
      && p.latestClosed(log + [ValidateInstrument]).Some? && end <= p.latestClosed(log + [ValidateInstrument]).value
      && exists logs :: SyncsAll(p, mapping, ranges, logs) && logs[0] == log + [ValidateInstrument, LatestClosed]
  {
    hide SyncsAll, Missing, HistoricalSync.Filled;
    var ranges, queried := Missing(rows, Market(p.id, mapping.instrument), start, end),
                           log + [ValidateInstrument, LatestClosed];
    var filled := HistoricalSync.Filled(p, mapping, queried, ranges);
    if filled.Some? {
      var logs := FilledSyncs(p, mapping, queried, ranges, filled.value);
      SyncsLength(p, mapping, ranges, logs);
    }
    forall logs | SyncsAll(p, mapping, ranges, logs) ensures |logs| == |ranges| + 1
      ensures HistoricalSync.Filled(p, mapping, logs[0], ranges).Some?
    {
      SyncsLength(p, mapping, ranges, logs);
      SyncsFill(p, mapping, ranges, logs);
    }
  }

  lemma SyncsLength(p: Provider, mapping: Mapping, ranges: seq<Span>, logs: seq<seq<Call>>)
    requires SyncsAll(p, mapping, ranges, logs)
    ensures |logs| == |ranges| + 1
  {
  }
}
