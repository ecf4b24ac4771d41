/** When a synchronisation succeeds: a rule about the provider's answers and the table. */
module PagingRules {
  import opened Sequences
  import opened Candles
  import opened CandleStore
  import opened MarketPages

  function RequestOf(provider: nat, mapping: Mapping, low: int, high: int): Request {
    Request(provider, mapping.instrument, mapping.symbol, low, high)
  }

  /** The provider answered a request with a page that is accepted. */
  ghost predicate Brings(request: Request, page: Option<Page>) {
    page.Some? && Acceptable(request, page.value.candles)
  }

  /** What persistence asks of every page besides its candles. */
  predicate Sane(syncMs: int, requiredStart: int) {
    syncMs >= 0 && requiredStart >= 0 && Minute(requiredStart)
  }

  lemma PageInside(request: Request, cs: seq<ClosedCandle>)
    requires Acceptable(request, cs)
    ensures var u := Unique(cs);
      u != [] && request.startMs <= u[0].openMs <= u[|u| - 1].openMs <= request.endMs
  {
    AcceptableIsValidated(request, cs);
  }

  // ----- One missing run

  /** `accepted` holds exactly the minutes of the range outside the window. */
  ghost predicate Whole(accepted: map<int, ClosedCandle>, start: int, end: int, low: int, high: int) {
    forall t :: t in accepted <==> start <= t <= end && Minute(t) && !(low <= t <= high)
  }

  /** A minute of the range outside the window was not accepted. */
  ghost predicate Holed(accepted: map<int, ClosedCandle>, start: int, end: int, low: int, high: int) {
    exists t :: start <= t <= end && Minute(t) && !(low <= t <= high) && t !in accepted
  }

  /** Where the next window leaves no hole. */
  ghost predicate Accounts(intact: bool, accepted: map<int, ClosedCandle>, start: int, end: int, low: int, high: int) {
    if intact then Whole(accepted, start, end, low, high) else Holed(accepted, start, end, low, high)
  }

  lemma NothingAccepted(start: int, end: int)
    ensures Accounts(true, map[], start, end, start, end)
  {
  }

  lemma PageMinutes(request: Request, cs: seq<ClosedCandle>, t: int)
    requires Validated(request, cs)
    ensures InPage(cs, t) <==> cs[0].openMs <= t <= cs[|cs| - 1].openMs && Minute(t)
  {
    if cs[0].openMs <= t <= cs[|cs| - 1].openMs && Minute(t) {
      var i := (t - cs[0].openMs) / MINUTE_MS;
      assert t == cs[0].openMs + i * MINUTE_MS;
      assert cs[|cs| - 1].openMs == cs[0].openMs + (|cs| - 1) * MINUTE_MS;
      assert cs[i].openMs == t;
    }
  }

  /** What a page from `first` to `last` accepts of the window. */
  ghost predicate Takes(taken: map<int, ClosedCandle>, accepted: map<int, ClosedCandle>, first: int, last: int,
                        low: int, high: int)
  {
    && low <= first <= last <= high && Minute(low) && Minute(first) && Minute(last) && Minute(high)
    && (forall t :: t in taken ==> !(low <= t <= high))
    && (forall t :: t in accepted <==> t in taken || (first <= t <= last && Minute(t)))
  }

  /** Nothing is left out if the page fills the end of the window that is given up. */
  lemma PageAccounts(intact: bool, taken: map<int, ClosedCandle>, accepted: map<int, ClosedCandle>, first: int,
                     last: int, start: int, end: int, low: int, high: int, newLow: int, newHigh: int, flush: bool)
    requires Accounts(intact, taken, start, end, low, high) && start <= low && high <= end
    requires Takes(taken, accepted, first, last, low, high)
    requires || (newLow == last + MINUTE_MS && newHigh == high && flush == (first == low))
             || (newLow == low && newHigh == first - MINUTE_MS && flush == (last == high))
             || (newLow > newHigh && flush == (first == low && last == high))
    ensures Accounts(intact && flush, accepted, start, end, newLow, newHigh)
  {
    if !intact {
      var t :| start <= t <= end && Minute(t) && !(low <= t <= high) && t !in taken;
      assert t !in accepted && !(newLow <= t <= newHigh);
    } else if !flush {
      var t := if first != low && !(newLow == low && newHigh == first - MINUTE_MS) then low else high;
      assert t !in accepted && !(newLow <= t <= newHigh);
    } else {
      forall t ensures t in accepted <==> start <= t <= end && Minute(t) && !(newLow <= t <= newHigh) {
        if Minute(t) {
          NextMinute(last, t);
          NextMinute(t, first);
        }
      }
    }
  }

  datatype Onward = Done | Window(low: int, high: int) | Stuck

  /** Where a page leads that leaves no hole: nowhere further if it fills the window, or to the rest of the window if it
      fills one end of it and its cursor names the minute beside it, which was not asked for before. */
  function OnwardFrom(page: Page, first: int, last: int, low: int, high: int, requested: set<int>): Onward {
    if page.complete then (if first == low && last == high then Done else Stuck)
    else if page.nextMs.None? || page.nextMs.value in requested then Stuck
    else if first == low && page.nextMs.value == last + MINUTE_MS <= high then Window(page.nextMs.value, high)
    else if last == high && low <= page.nextMs.value == first - MINUTE_MS then Window(low, page.nextMs.value)
    else Stuck
  }

  /** The calls made once the window has been paged through without a hole; `None` if that cannot be. */
  ghost function Paged(p: Provider, mapping: Mapping, log: seq<Call>, low: int, high: int,
                       requested: set<int>): Option<seq<Call>>
    decreases if low <= high then high - low + 1 else 0
  {
    var request := RequestOf(p.id, mapping, low, high);
    var page, next := p.answer(log, request), log + [Fetch(request)];
    if !Brings(request, page) then None
    else
      PageInside(request, page.value.candles);
      var u := Unique(page.value.candles);
      match OnwardFrom(page.value, u[0].openMs, u[|u| - 1].openMs, low, high, requested)
      case Done => Some(next)
      case Stuck => None
      case Window(newLow, newHigh) => Paged(p, mapping, next, newLow, newHigh, requested + {page.value.nextMs.value})
  }

  /** One page of the rule, by what its cursor names. */
  lemma PagedStep(p: Provider, mapping: Mapping, log: seq<Call>, low: int, high: int, requested: set<int>, page: Page,
                  first: int, last: int)
    requires var request := RequestOf(p.id, mapping, low, high);
      && p.answer(log, request) == Some(page) && Brings(request, Some(page))
      && var u := Unique(page.candles); u != [] && first == u[0].openMs && last == u[|u| - 1].openMs
    ensures var paged := Paged(p, mapping, log, low, high, requested);
      var next := log + [Fetch(RequestOf(p.id, mapping, low, high))];
      if page.complete then paged == if first == low && last == high then Some(next) else None
      else if page.nextMs.None? || page.nextMs.value in requested then paged == None
      else
        var cursor := page.nextMs.value;
        if cursor == last + MINUTE_MS <= high then
          paged == if first == low then Paged(p, mapping, next, cursor, high, requested + {cursor}) else None
        else if low <= cursor == first - MINUTE_MS then
          paged == if last == high then Paged(p, mapping, next, low, cursor, requested + {cursor}) else None
        else paged == None
  {
    hide Acceptable, Unique;
    PageInside(RequestOf(p.id, mapping, low, high), page.candles);
  }

  lemma PagedRefused(p: Provider, mapping: Mapping, log: seq<Call>, low: int, high: int, requested: set<int>)
    requires !Brings(RequestOf(p.id, mapping, low, high), p.answer(log, RequestOf(p.id, mapping, low, high)))
    ensures Paged(p, mapping, log, low, high, requested) == None
  {
  }

  // ----- All missing runs

  /** The calls made once every run has been paged through, in order. */
  ghost function PagedAll(p: Provider, mapping: Mapping, log: seq<Call>, ranges: seq<Span>): Option<seq<Call>> {
    if ranges == [] then Some(log)
    else
      var front, last := PagedAll(p, mapping, log, ranges[..|ranges| - 1]), ranges[|ranges| - 1];
      if front.None? || !Requestable(last.lo, last.hi) then None
      else Paged(p, mapping, front.value, last.lo, last.hi, {})
  }

  lemma PagedNext(p: Provider, mapping: Mapping, log: seq<Call>, ranges: seq<Span>, j: nat)
    requires j < |ranges|
    ensures var front := PagedAll(p, mapping, log, ranges[..j]);
      PagedAll(p, mapping, log, ranges[..j + 1]) ==
        if front.None? || !Requestable(ranges[j].lo, ranges[j].hi) then None
        else Paged(p, mapping, front.value, ranges[j].lo, ranges[j].hi, {})
  {
    assert ranges[..j + 1][..j] == ranges[..j];
  }

  /** A run that cannot be paged through fails all. */
  lemma {:induction false} PagedFails(p: Provider, mapping: Mapping, log: seq<Call>, ranges: seq<Span>, j: nat)
    requires j <= |ranges| && PagedAll(p, mapping, log, ranges[..j]).None?
    ensures PagedAll(p, mapping, log, ranges).None?
    decreases |ranges|
  {
    if j == |ranges| {
      assert ranges[..j] == ranges;
    } else {
      var front := ranges[..|ranges| - 1];
      assert front[..j] == ranges[..j];
      PagedFails(p, mapping, log, front, j);
    }
  }

  // ----- A whole range

  /** The ranges that the runs of absent minutes span. */
  function SpansOf(grid: seq<int>, end: int, runs: seq<Run>): seq<Span>
    requires forall j :: 0 <= j < |runs| ==> runs[j].first < |grid| && runs[j].last < |grid|
  {
    seq(|runs|, j requires 0 <= j < |runs| =>
      Span(grid[runs[j].first], if runs[j].last == |grid| - 1 then end else grid[runs[j].last]))
  }

  /** The missing ranges of a market. */
  ghost function Missing(rows: map<Key, ClosedCandle>, m: Market, start: int, end: int): seq<Span> {
    var grid := Grid(start, end);
    var absent := Absences(grid, Times(rows, m, start, Some(end)));
    RunsOfExact(absent);
    SpansOf(grid, end, RunsOf(absent))
  }

  lemma SpannedIsMissing(rows: map<Key, ClosedCandle>, m: Market, start: int, end: int, ranges: seq<Span>)
    requires Spanned(Grid(start, end), end, RunsOf(Absences(Grid(start, end), Times(rows, m, start, Some(end)))),
                     ranges)
    ensures ranges == Missing(rows, m, start, end)
  {
    hide Grid, RunsOf, Absences;
  }

  /** The three queries are answered, and the range has closed. */
  ghost predicate Queried(p: Provider, log: seq<Call>, end: int) {
    var time := p.serverTime(log + [ValidateInstrument]);
    var latest := p.latestClosed(log + [ValidateInstrument, ServerTime]);
    p.accepts(log) && time.Some? && latest.Some? && end <= latest.value
  }

  /** The three queries are answered, and the range has not closed. */
  ghost predicate StillOpen(p: Provider, log: seq<Call>, end: int) {
    var time := p.serverTime(log + [ValidateInstrument]);
    var latest := p.latestClosed(log + [ValidateInstrument, ServerTime]);
    p.accepts(log) && time.Some? && latest.Some? && end > latest.value
  }

  /** The symbols of the stored rows match and the watermark is backed by them. */
  ghost predicate Undisputed(store: Store, m: Market, symbol: nat, hidesSyncState: bool, start: int, end: int)
    requires Keyed(store.rows)
  {
    && AllSymbol(Load(store.rows, m, start, end), symbol)
    && (hidesSyncState || WatermarkBacked(store.states, m, start, Times(store.rows, m, start, Some(end))))
  }

  /** The calls made once the range has been synchronised; `None` if that cannot be. */
  ghost function Synced(p: Provider, mapping: Mapping, log: seq<Call>, store: Store, hidesSyncState: bool, start: int,
                        end: int):
    Option<seq<Call>>
    requires Keyed(store.rows)
  {
    var m := Market(p.id, mapping.instrument);
    var ranges := Missing(store.rows, m, start, end);
    if !Queried(p, log, end) || !Undisputed(store, m, mapping.symbol, hidesSyncState, start, end) then None
    else if ranges != [] && !Sane(p.serverTime(log + [ValidateInstrument]).value, start) then None
    else PagedAll(p, mapping, log + [ValidateInstrument, ServerTime, LatestClosed], ranges)
  }

  // ----- Providers that page forwards

  /** The answer to a request for a closed window: an acceptable page from its first minute on, complete if it reaches
      the last one, and otherwise with the cursor on the minute after it. */
  ghost predicate Forward(p: Provider, mapping: Mapping, log: seq<Call>, low: int, high: int) {
    var request := RequestOf(p.id, mapping, low, high);
    var page := p.answer(log, request);
    && Brings(request, page)
    && var u := Unique(page.value.candles);
       && u != [] && u[0].openMs == low
       && (if page.value.complete then u[|u| - 1].openMs == high
           else page.value.nextMs == Some(u[|u| - 1].openMs + MINUTE_MS) && u[|u| - 1].openMs < high)
  }

  ghost predicate PagesForward(p: Provider, mapping: Mapping, end: int) {
    forall log: seq<Call>, low: int, high: int ::
      Requestable(low, high) && high <= end ==> Forward(p, mapping, log, low, high)
  }

  lemma {:induction false} ForwardIsPaged(p: Provider, mapping: Mapping, log: seq<Call>, low: int, high: int,
                                          requested: set<int>, end: int)
    requires PagesForward(p, mapping, end) && Requestable(low, high) && high <= end
    requires forall c :: c in requested ==> c <= low
    ensures Paged(p, mapping, log, low, high, requested).Some?
    decreases high - low
  {
    hide Paged, Acceptable, Unique, Minute;
    assert Forward(p, mapping, log, low, high);
    var request := RequestOf(p.id, mapping, low, high);
    var page, next := p.answer(log, request).value, log + [Fetch(request)];
    var u := Unique(page.candles);
    var last := u[|u| - 1].openMs;
    PagedStep(p, mapping, log, low, high, requested, page, low, last);
    if !page.complete {
      LastIsMinute(request, page.candles);
      NextMinute(last, high);
      ForwardIsPaged(p, mapping, next, last + MINUTE_MS, high, requested + {last + MINUTE_MS}, end);
    }
  }

  lemma LastIsMinute(request: Request, cs: seq<ClosedCandle>)
    requires Acceptable(request, cs)
    ensures var u := Unique(cs);
      u != [] && Minute(u[|u| - 1].openMs) && request.startMs <= u[0].openMs <= u[|u| - 1].openMs
  {
    PageInside(request, cs);
  }

  lemma {:induction false} ForwardPagesAll(p: Provider, mapping: Mapping, log: seq<Call>, ranges: seq<Span>, end: int)
    requires PagesForward(p, mapping, end)
    requires forall j :: 0 <= j < |ranges| ==> Requestable(ranges[j].lo, ranges[j].hi) && ranges[j].hi <= end
    ensures PagedAll(p, mapping, log, ranges).Some?
  {
    if ranges != [] {
      var front, last := ranges[..|ranges| - 1], ranges[|ranges| - 1];
      ForwardPagesAll(p, mapping, log, front, end);
      ForwardIsPaged(p, mapping, PagedAll(p, mapping, log, front).value, last.lo, last.hi, {}, end);
    }
  }

  lemma MissingIsFresh(rows: map<Key, ClosedCandle>, m: Market, start: int, end: int)
    requires Keyed(rows) && Minute(start)
    ensures Fresh(rows, m, Missing(rows, m, start, end), start, end)
  {
    hide Runs, RunsOf, Absences;
    var grid := Grid(start, end);
    RunsOfExact(Absences(grid, Times(rows, m, start, Some(end))));
    RunsInside(Absences(grid, Times(rows, m, start, Some(end))), grid, end);
    RangesAreFresh(rows, m, start, end, Missing(rows, m, start, end));
  }

  lemma RunsInside(absent: seq<bool>, grid: seq<int>, end: int)
    requires |absent| == |grid|
    ensures Runs(absent, RunsOf(absent), |absent|)
    ensures Spanned(grid, end, RunsOf(absent), SpansOf(grid, end, RunsOf(absent)))
  {
    RunsOfExact(absent);
  }

  /** From a provider that is up to date and pages forwards every closed range of minutes is synchronised, unless a
      stored row or the watermark objects. */
  lemma ForwardProviderSucceeds(p: Provider, mapping: Mapping, log: seq<Call>, store: Store, hidesSyncState: bool,
                                start: int, end: int)
    requires Keyed(store.rows) && Requestable(start, end) && PagesForward(p, mapping, end)
    requires Queried(p, log, end) && p.serverTime(log + [ValidateInstrument]).value >= 0
    ensures Synced(p, mapping, log, store, hidesSyncState, start, end).Some?
      <==> Undisputed(store, Market(p.id, mapping.instrument), mapping.symbol, hidesSyncState, start, end)
  {
    hide Missing, PagesForward, Load, WatermarkBacked, PagedAll;
    var m := Market(p.id, mapping.instrument);
    MissingIsFresh(store.rows, m, start, end);
    var ranges := Missing(store.rows, m, start, end);
    ForwardPagesAll(p, mapping, log + [ValidateInstrument, ServerTime, LatestClosed], ranges, end);
  }

  // ----- Cursors that meet

  /** A page with the last minute alone and its cursor before it, then a page with the first minutes and its cursor
      after them: both cursors name the one minute still missing, and the second is refused because it was asked for
      before. */
  lemma MeetingCursorsStuck(p: Provider, mapping: Mapping, log: seq<Call>, low: int, high: int, back: Page, rest: Page)
    requires low + MINUTE_MS < high
    requires p.answer(log, RequestOf(p.id, mapping, low, high)) == Some(back)
    requires var next := log + [Fetch(RequestOf(p.id, mapping, low, high))];
      p.answer(next, RequestOf(p.id, mapping, low, high - MINUTE_MS)) == Some(rest)
    requires Acceptable(RequestOf(p.id, mapping, low, high), back.candles) && !back.complete
    requires Acceptable(RequestOf(p.id, mapping, low, high - MINUTE_MS), rest.candles) && !rest.complete
    requires Unique(back.candles)[0].openMs == high && back.nextMs == Some(high - MINUTE_MS)
    requires var u := Unique(rest.candles);
      u[0].openMs == low && u[|u| - 1].openMs == high - 2 * MINUTE_MS && rest.nextMs == Some(high - MINUTE_MS)
    ensures Paged(p, mapping, log, low, high, {}).None?
  {
    hide Paged, Acceptable, Unique;
    var next, cursor := log + [Fetch(RequestOf(p.id, mapping, low, high))], high - MINUTE_MS;
    var u, v := Unique(back.candles), Unique(rest.candles);
    PageInside(RequestOf(p.id, mapping, low, high), back.candles);
    PageInside(RequestOf(p.id, mapping, low, cursor), rest.candles);
    PagedStep(p, mapping, log, low, high, {}, back, u[0].openMs, u[|u| - 1].openMs);
    PagedStep(p, mapping, next, low, cursor, {cursor}, rest, v[0].openMs, v[|v| - 1].openMs);
    assert {} + {cursor} == {cursor};
  }

  function CandleFor(r: Request, t: nat): (c: ClosedCandle)
    requires t % MINUTE_MS == 0
    ensures c.openMs == t && (r.startMs <= t <= r.endMs ==> Matches(r, c))
  {
    CandleRow(r.provider, r.instrument, r.symbol, t, Flat(1.0, 1.0, 1.0), 0.0, None, 0)
  }

  lemma SingleIsAcceptable(r: Request, c: ClosedCandle)
    requires Matches(r, c)
    ensures Acceptable(r, [c]) && Unique([c]) == [c]
  {
    assert [c][..0] == [];
    assert Unique([]) == [];
  }

  /** An instance: of three minutes from the epoch on the last comes first and then the first, each alone. */
  lemma MeetingCursorsInstance(p: Provider, mapping: Mapping, log: seq<Call>)
    requires var all := RequestOf(p.id, mapping, 0, 2 * MINUTE_MS);
      p.answer(log, all) == Some(PageData([CandleFor(all, 2 * MINUTE_MS)], Some(MINUTE_MS), false))
    requires var most := RequestOf(p.id, mapping, 0, MINUTE_MS);
      var next := log + [Fetch(RequestOf(p.id, mapping, 0, 2 * MINUTE_MS))];
      p.answer(next, most) == Some(PageData([CandleFor(most, 0)], Some(MINUTE_MS), false))
    ensures Paged(p, mapping, log, 0, 2 * MINUTE_MS, {}).None?
  {
    var all, most := RequestOf(p.id, mapping, 0, 2 * MINUTE_MS), RequestOf(p.id, mapping, 0, MINUTE_MS);
    SingleIsAcceptable(all, CandleFor(all, 2 * MINUTE_MS));
    SingleIsAcceptable(most, CandleFor(most, 0));
    MeetingCursorsStuck(p, mapping, log, 0, 2 * MINUTE_MS,
                        PageData([CandleFor(all, 2 * MINUTE_MS)], Some(MINUTE_MS), false),
                        PageData([CandleFor(most, 0)], Some(MINUTE_MS), false));
  }
}
