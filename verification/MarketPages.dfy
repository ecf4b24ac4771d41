/** Pages of one-minute candles from an arbitrary provider, and the ranges that are missing. */
module MarketPages {
  import opened Sequences
  import opened Candles
  import opened CandleStore

  datatype Mapping = Mapping(instrument: nat, symbol: nat)

  datatype Request = Request(provider: nat, instrument: nat, symbol: nat, startMs: int, endMs: int)

  datatype PageData = PageData(candles: seq<ClosedCandle>, nextMs: Option<int>, complete: bool)

  /** A page that is not complete carries candles, as its constructor enforces. */
  type Page = p: PageData | p.complete || p.candles != [] witness PageData([], None, true)

  datatype Call = ValidateInstrument | ServerTime | LatestClosed | Fetch(request: Request)

  datatype SyncError =
    | ProviderRaised | OpenMinute | StoredIdentity | HiddenGap | BadRequest
    | PageIdentity | PageConflict | EmptyPageReceived | NonMonotonicPage | BrokenPage
    | ConflictAcrossPages | NoCursorProgress | CursorOutOfBounds | NotContiguous
    | StoreRefused(reason: StoreError)

  datatype Outcome<T> = Success(value: T) | Failure(error: SyncError)

  /** An adversary: every answer may depend on everything asked before. */
  class Provider {
    const id: nat
    const accepts: seq<Call> -> bool
    const serverTime: seq<Call> -> Option<int>
    const latestClosed: seq<Call> -> Option<int>
    const answer: (seq<Call>, Request) -> Option<Page>
    var log: seq<Call>

    constructor (id: nat, accepts: seq<Call> -> bool, serverTime: seq<Call> -> Option<int>,
                 latestClosed: seq<Call> -> Option<int>, answer: (seq<Call>, Request) -> Option<Page>)
      ensures this.id == id && this.accepts == accepts && this.serverTime == serverTime
      ensures this.latestClosed == latestClosed && this.answer == answer && log == []
    {
      this.id, this.accepts, this.serverTime := id, accepts, serverTime;
      this.latestClosed, this.answer, log := latestClosed, answer, [];
    }

    method Validate() returns (ok: bool)
      modifies this
      ensures log == old(log) + [ValidateInstrument] && ok == accepts(old(log))
    {
      ok := accepts(log);
      log := log + [ValidateInstrument];
    }

    method ServerTimeMs() returns (t: Option<int>)
      modifies this
      ensures log == old(log) + [ServerTime] && t == serverTime(old(log))
    {
      t := serverTime(log);
      log := log + [ServerTime];
    }

    method LatestClosedOpenMs() returns (t: Option<int>)
      modifies this
      ensures log == old(log) + [LatestClosed] && t == latestClosed(old(log))
    {
      t := latestClosed(log);
      log := log + [LatestClosed];
    }

    method FetchPage(request: Request) returns (page: Option<Page>)
      modifies this
      ensures log == old(log) + [Fetch(request)] && page == answer(old(log), request)
    {
      page := answer(log, request);
      log := log + [Fetch(request)];
    }
  }

  /** What the constructor of a request accepts. */
  predicate Requestable(start: int, end: int) {
    0 <= start <= end && Minute(start) && Minute(end)
  }

  // ----- One page

  predicate Matches(request: Request, c: ClosedCandle) {
    && c.provider == request.provider && c.instrument == request.instrument && c.symbol == request.symbol
    && request.startMs <= c.openMs <= request.endMs
  }

  /** The first occurrence of every candle. */
  function Unique(cs: seq<ClosedCandle>): seq<ClosedCandle> {
    if cs == [] then []
    else
      var before := Unique(cs[..|cs| - 1]);
      if cs[|cs| - 1] in before then before else before + [cs[|cs| - 1]]
  }

  /** Every candle belongs to the request and no minute comes with two different candles. */
  ghost predicate Coherent(request: Request, cs: seq<ClosedCandle>) {
    && (forall i :: 0 <= i < |cs| ==> Matches(request, cs[i]))
    && (forall i, j :: 0 <= i < |cs| && 0 <= j < |cs| && KeyOf(cs[i]) == KeyOf(cs[j]) ==> cs[i] == cs[j])
  }

  /** What a page must be to be accepted. */
  ghost predicate Acceptable(request: Request, cs: seq<ClosedCandle>) {
    Coherent(request, cs) && Unique(cs) != [] && GapFree(Unique(cs))
  }

  lemma {:induction false} UniqueMembers(cs: seq<ClosedCandle>)
    ensures forall c :: c in Unique(cs) <==> c in cs
  {
    if cs != [] {
      UniqueMembers(cs[..|cs| - 1]);
      assert cs == cs[..|cs| - 1] + [cs[|cs| - 1]];
    }
  }

  /** Drop repeats; a candle outside the request or two candles for one minute refuse the page. */
  method Deduplicate(request: Request, cs: seq<ClosedCandle>) returns (result: Outcome<seq<ClosedCandle>>)
    ensures result.Success? <==> Coherent(request, cs)
    ensures result.Success? ==> result.value == Unique(cs)
    ensures result.Failure? ==> result.error in {PageIdentity, PageConflict}
    ensures result == Failure(PageIdentity) <==>
      exists i :: 0 <= i < |cs| && Coherent(request, cs[..i]) && !Matches(request, cs[i])
  {
    var byKey: map<Key, ClosedCandle> := map[];
    var unique: seq<ClosedCandle> := [];
    for i := 0 to |cs|
      invariant unique == Unique(cs[..i])
      invariant forall j :: 0 <= j < i ==>
        Matches(request, cs[j]) && KeyOf(cs[j]) in byKey && byKey[KeyOf(cs[j])] == cs[j]
      invariant forall k :: k in byKey ==> byKey[k] in unique && KeyOf(byKey[k]) == k
    {
      var c := cs[i];
      assert cs[..i + 1][..i] == cs[..i];
      if !Matches(request, c) {
        CoherentSoFar(request, cs[..i], byKey);
        return Failure(PageIdentity);
      }
      UniqueMembers(cs[..i]);
      if KeyOf(c) in byKey {
        if byKey[KeyOf(c)] != c {
          ConflictSeen(request, cs, i, byKey[KeyOf(c)]);
          return Failure(PageConflict);
        }
      } else {
        assert c !in unique;
        byKey := byKey[KeyOf(c) := c];
        unique := unique + [c];
      }
    }
    assert cs[..|cs|] == cs;
    return Success(unique);
  }

  lemma CoherentSoFar(request: Request, cs: seq<ClosedCandle>, byKey: map<Key, ClosedCandle>)
    requires forall j :: 0 <= j < |cs| ==>
      Matches(request, cs[j]) && KeyOf(cs[j]) in byKey && byKey[KeyOf(cs[j])] == cs[j]
    ensures Coherent(request, cs)
  {
  }

  lemma ConflictSeen(request: Request, cs: seq<ClosedCandle>, i: nat, d: ClosedCandle)
    requires i < |cs| && d in cs[..i] && d != cs[i] && KeyOf(d) == KeyOf(cs[i])
    ensures forall n :: i < n <= |cs| ==> !Coherent(request, cs[..n])
    ensures !Coherent(request, cs)
  {
    assert cs[..|cs|] == cs;
    var j :| 0 <= j < i && cs[..i][j] == d;
    assert cs[j] == d;
  }

  /** Candles of a validated page, one per minute. */
  method ValidatePage(request: Request, page: Page) returns (result: Outcome<seq<ClosedCandle>>)
    ensures result.Success? <==> Acceptable(request, page.candles)
    ensures result.Success? ==> result.value == Unique(page.candles)
    ensures result.Failure? ==>
      result.error in {PageIdentity, PageConflict, EmptyPageReceived, NonMonotonicPage, BrokenPage}
    ensures result == Failure(PageIdentity) <==> exists i ::
      0 <= i < |page.candles| && Coherent(request, page.candles[..i]) && !Matches(request, page.candles[i])
    ensures result == Failure(EmptyPageReceived) <==> page.candles == []
    ensures result == Failure(NonMonotonicPage) <==>
      Coherent(request, page.candles) && Falls(Unique(page.candles))
    ensures result == Failure(BrokenPage) <==>
      Coherent(request, page.candles) && !Falls(Unique(page.candles)) && !GapFree(Unique(page.candles))
  {
    UniqueEmpty(page.candles);
    result := Deduplicate(request, page.candles);
    if result.Failure? {
      return;
    }
    var unique := result.value;
    if unique == [] {
      return Failure(EmptyPageReceived);
    }
    for i := 0 to |unique| - 1
      invariant forall j :: 0 <= j < i ==> unique[j].openMs <= unique[j + 1].openMs
    {
      if unique[i].openMs > unique[i + 1].openMs {
        NotConsecutive(unique, i);
        return Failure(NonMonotonicPage);
      }
    }
    for i := 0 to |unique| - 1
      invariant forall j :: 0 <= j < i ==> unique[j + 1].openMs == unique[j].openMs + MINUTE_MS
    {
      if unique[i + 1].openMs != unique[i].openMs + MINUTE_MS {
        NotConsecutive(unique, i);
        return Failure(BrokenPage);
      }
    }
    PairwiseConsecutive(unique);
  }

  /** Some candle opens before the one in front of it. */
  predicate Falls(cs: seq<ClosedCandle>) {
    exists i :: 0 <= i < |cs| - 1 && cs[i].openMs > cs[i + 1].openMs
  }

  lemma UniqueEmpty(cs: seq<ClosedCandle>)
    ensures Unique(cs) == [] <==> cs == []
  {
    UniqueMembers(cs);
    if cs != [] {
      assert cs[0] in Unique(cs);
    }
  }

  lemma NotConsecutive(cs: seq<ClosedCandle>, i: nat)
    requires i < |cs| - 1 && cs[i + 1].openMs != cs[i].openMs + MINUTE_MS
    ensures !GapFree(cs)
  {
  }

  lemma {:induction false} PairwiseConsecutive(cs: seq<ClosedCandle>)
    requires forall i :: 0 <= i < |cs| - 1 ==> cs[i + 1].openMs == cs[i].openMs + MINUTE_MS
    ensures GapFree(cs)
  {
    if |cs| > 1 {
      var init := cs[..|cs| - 1];
      PairwiseConsecutive(init);
      forall i | 0 <= i < |cs| ensures cs[i].openMs == cs[0].openMs + i * MINUTE_MS {
        if i < |init| {
          assert cs[i] == init[i];
        } else {
          assert cs[i - 1] == init[i - 1];
        }
      }
    }
  }

  // ----- What a synchronisation may do to the table

  /** Old rows stand; new rows belong to the market and symbol and lie between `lo` and `hi`. */
  ghost predicate Extends(before: map<Key, ClosedCandle>, after: map<Key, ClosedCandle>, m: Market, symbol: nat,
                          lo: int, hi: int)
  {
    && (forall k :: k in before ==> k in after && after[k] == before[k])
    && (forall k :: k in after && k !in before ==>
          k.provider == m.provider && k.instrument == m.instrument && lo <= k.openMs <= hi && after[k].symbol == symbol)
  }

  ghost predicate NothingStored(rows: map<Key, ClosedCandle>, m: Market, lo: int, hi: int) {
    forall t :: lo <= t <= hi ==> !Has(rows, m, t)
  }

  lemma ExtendsTransitive(a: map<Key, ClosedCandle>, b: map<Key, ClosedCandle>, c: map<Key, ClosedCandle>,
                          m: Market, symbol: nat, lo: int, hi: int)
    requires Extends(a, b, m, symbol, lo, hi) && Extends(b, c, m, symbol, lo, hi)
    ensures Extends(a, c, m, symbol, lo, hi)
  {
  }

  lemma ExtendsWiden(a: map<Key, ClosedCandle>, b: map<Key, ClosedCandle>, m: Market, symbol: nat, lo: int, hi: int,
                     low: int, high: int)
    requires Extends(a, b, m, symbol, lo, hi) && low <= lo && hi <= high
    ensures Extends(a, b, m, symbol, low, high)
  {
  }

  /** A validated page of the request. */
  ghost predicate Validated(request: Request, cs: seq<ClosedCandle>) {
    cs != [] && GapFree(cs) && forall i :: 0 <= i < |cs| ==> Matches(request, cs[i])
  }

  lemma AcceptableIsValidated(request: Request, cs: seq<ClosedCandle>)
    requires Acceptable(request, cs)
    ensures Validated(request, Unique(cs))
  {
    UniqueMembers(cs);
    var u := Unique(cs);
    forall i | 0 <= i < |u| ensures Matches(request, u[i]) {
      assert u[i] in u;
    }
  }

  /** `accepted` holds candles outside the window still requested, all of them stored. */
  ghost predicate Gathered(accepted: map<int, ClosedCandle>, rows: map<Key, ClosedCandle>, m: Market,
                           start: int, end: int, low: int, high: int)
  {
    forall t :: t in accepted ==> start <= t <= end && !(low <= t <= high) && Has(rows, m, t)
  }

  ghost predicate AllStored(accepted: map<int, ClosedCandle>, rows: map<Key, ClosedCandle>, m: Market) {
    forall t :: t in accepted ==> Has(rows, m, t)
  }

  /** Every row of the market in the range came with an accepted page. */
  ghost predicate OnlyAccepted(accepted: map<int, ClosedCandle>, rows: map<Key, ClosedCandle>, m: Market, start: int,
                               end: int)
  {
    forall t :: start <= t <= end && Has(rows, m, t) ==> t in accepted
  }

  lemma NothingGathered(rows: map<Key, ClosedCandle>, m: Market, symbol: nat, start: int, end: int)
    ensures Extends(rows, rows, m, symbol, start, end) && Gathered(map[], rows, m, start, end, start, end)
    ensures NothingStored(rows, m, start, end) ==> OnlyAccepted(map[], rows, m, start, end)
  {
  }

  function ByMinute(accepted: map<int, ClosedCandle>, cs: seq<ClosedCandle>): map<int, ClosedCandle> {
    if cs == [] then accepted else ByMinute(accepted, cs[..|cs| - 1])[cs[|cs| - 1].openMs := cs[|cs| - 1]]
  }

  lemma {:induction false} ByMinuteKeys(accepted: map<int, ClosedCandle>, cs: seq<ClosedCandle>)
    ensures forall t :: t in ByMinute(accepted, cs) <==> t in accepted || exists i :: 0 <= i < |cs| && cs[i].openMs == t
  {
    if cs != [] {
      ByMinuteKeys(accepted, cs[..|cs| - 1]);
      assert forall i :: 0 <= i < |cs| - 1 ==> cs[..|cs| - 1][i] == cs[i];
    }
  }

  /** Storing a validated page of a window: what the table gains. */
  lemma PageStored(before: map<Key, ClosedCandle>, rows: map<Key, ClosedCandle>, newRows: map<Key, ClosedCandle>,
                   request: Request, cs: seq<ClosedCandle>, start: int, end: int)
    requires Keyed(rows) && Validated(request, cs) && Inserted(rows, cs) == Some(newRows)
    requires start <= request.startMs && request.endMs <= end
    requires Extends(before, rows, Market(request.provider, request.instrument), request.symbol, start, end)
    ensures Keyed(newRows)
    ensures Extends(before, newRows, Market(request.provider, request.instrument), request.symbol, start, end)
    ensures forall t :: Has(newRows, Market(request.provider, request.instrument), t) <==>
              Has(rows, Market(request.provider, request.instrument), t)
              || exists i :: 0 <= i < |cs| && cs[i].openMs == t
  {
    InsertedMeaning(rows, cs);
    var m := Market(request.provider, request.instrument);
    forall i | 0 <= i < |cs| ensures Has(newRows, m, cs[i].openMs) {
      assert cs[i] in cs;
    }
    forall k | k in newRows && k !in rows
      ensures exists i :: 0 <= i < |cs| && KeyOf(cs[i]) == k && newRows[k] == cs[i]
    {
      var c := newRows[k];
      var i :| 0 <= i < |cs| && cs[i] == c;
      assert KeyOf(newRows[k]) == k;
    }
  }

  /** A page of minutes not yet stored never conflicts. */
  lemma FreshPageFits(rows: map<Key, ClosedCandle>, request: Request, cs: seq<ClosedCandle>)
    requires Keyed(rows) && Validated(request, cs)
    requires forall i :: 0 <= i < |cs| ==> KeyOf(cs[i]) !in rows
    ensures Inserted(rows, cs).Some?
  {
    InsertedMeaning(rows, cs);
    forall c, d | c in cs && d in cs && KeyOf(c) == KeyOf(d) ensures c == d {
      var i :| 0 <= i < |cs| && cs[i] == c;
      var j :| 0 <= j < |cs| && cs[j] == d;
    }
  }

  /** A page of the window shares no minute with the pages accepted before. */
  lemma PageIsNew(accepted: map<int, ClosedCandle>, rows: map<Key, ClosedCandle>, request: Request,
                  cs: seq<ClosedCandle>, start: int, end: int)
    requires Validated(request, cs)
    requires Gathered(accepted, rows, Market(request.provider, request.instrument), start, end, request.startMs,
                      request.endMs)
    ensures forall i :: 0 <= i < |cs| ==> cs[i].openMs !in accepted
    ensures start <= request.startMs && request.endMs <= end
            && OnlyAccepted(accepted, rows, Market(request.provider, request.instrument), start, end)
            ==> forall i :: 0 <= i < |cs| ==> KeyOf(cs[i]) !in rows
  {
    var m := Market(request.provider, request.instrument);
    forall i | 0 <= i < |cs|
      ensures cs[i].openMs !in accepted && (KeyOf(cs[i]) in rows ==> Has(rows, m, cs[i].openMs))
    {
      assert Matches(request, cs[i]);
    }
  }

  /** The minutes from `start` to `end`. */
  function Grid(start: int, end: int): (r: seq<int>)
    ensures forall i :: 0 <= i < |r| ==> r[i] == start + i * MINUTE_MS
    ensures |r| == if end < start then 0 else (end - start) / MINUTE_MS + 1
  {
    seq(if end < start then 0 else (end - start) / MINUTE_MS + 1, i requires 0 <= i => start + i * MINUTE_MS)
  }

  lemma GridMembers(start: int, end: int, t: int)
    requires Minute(start)
    ensures t in Grid(start, end) <==> start <= t <= end && Minute(t)
  {
    if start <= t <= end && Minute(t) {
      var i := (t - start) / MINUTE_MS;
      assert t == start + i * MINUTE_MS;
      assert Grid(start, end)[i] == t;
    }
  }

  /** From call `k` on, every call is a page request for minutes between `lo` and `hi`. */
  ghost predicate OnlyFetches(log: seq<Call>, k: nat, lo: int, hi: int) {
    forall i :: k <= i < |log| ==> log[i].Fetch? && lo <= log[i].request.startMs <= log[i].request.endMs <= hi
  }

  lemma NoFetchYet(log: seq<Call>, lo: int, hi: int)
    ensures OnlyFetches(log, |log|, lo, hi)
  {
  }

  lemma OneMoreFetch(log: seq<Call>, calls: seq<Call>, request: Request, lo: int, hi: int)
    requires calls <= log && OnlyFetches(log, |calls|, lo, hi) && lo <= request.startMs <= request.endMs <= hi
    ensures calls <= log + [Fetch(request)] && OnlyFetches(log + [Fetch(request)], |calls|, lo, hi)
  {
  }

  ghost predicate InPage(cs: seq<ClosedCandle>, t: int) {
    exists i :: 0 <= i < |cs| && cs[i].openMs == t
  }

  // ----- Missing runs

  /** A run of positions, both ends included. */
  datatype Run = Run(first: nat, last: nat)

  datatype Span = Span(lo: int, hi: int)

  ghost predicate InSome(runs: seq<Run>, i: int) {
    exists j :: 0 <= j < |runs| && runs[j].first <= i <= runs[j].last
  }

  /** `runs` are the maximal runs of true positions among the first `n`, in order. */
  ghost predicate Runs(absent: seq<bool>, runs: seq<Run>, n: nat)
    requires n <= |absent|
  {
    && (forall j :: 0 <= j < |runs| ==> runs[j].first <= runs[j].last < n)
    && (forall j, i :: 0 <= j < |runs| && runs[j].first <= i <= runs[j].last ==> absent[i])
    && (forall j, k :: 0 <= j < k < |runs| ==> runs[j].last + 1 < runs[k].first)
    && (forall i :: 0 <= i < n && absent[i] ==> InSome(runs, i))
  }

  function CountTrue(absent: seq<bool>, n: nat): nat
    requires n <= |absent|
  {
    if n == 0 then 0 else CountTrue(absent, n - 1) + if absent[n - 1] then 1 else 0
  }

  function TotalLength(runs: seq<Run>): int {
    if runs == [] then 0
    else TotalLength(runs[..|runs| - 1]) + runs[|runs| - 1].last - runs[|runs| - 1].first + 1
  }

  /** The scan after `n` positions: closed runs, and the start of the open one if there is one. */
  ghost predicate Scanned(absent: seq<bool>, runs: seq<Run>, open: Option<nat>, n: nat)
    requires n <= |absent|
  {
    var m := if open.Some? then open.value else n;
    && m <= n && Runs(absent, runs, m)
    && (forall i :: m <= i < n ==> absent[i]) && (open.Some? ==> m < n)
    && (forall j :: 0 <= j < |runs| ==> runs[j].last + 1 < m)
    && TotalLength(runs) + n - m == CountTrue(absent, n)
  }

  lemma CloseRun(absent: seq<bool>, runs: seq<Run>, open: nat, n: nat)
    requires n <= |absent| && Scanned(absent, runs, Some(open), n)
    ensures Runs(absent, runs + [Run(open, n - 1)], n)
    ensures TotalLength(runs + [Run(open, n - 1)]) == CountTrue(absent, n)
  {
    var longer := runs + [Run(open, n - 1)];
    assert longer[..|runs|] == runs;
    forall i | 0 <= i < n && absent[i] ensures InSome(longer, i) {
      if i < open {
        assert InSome(runs, i);
        var j :| 0 <= j < |runs| && runs[j].first <= i <= runs[j].last;
        assert longer[j] == runs[j];
      } else {
        assert longer[|runs|] == Run(open, n - 1);
      }
    }
  }

  lemma ScanAbsent(absent: seq<bool>, runs: seq<Run>, open: Option<nat>, n: nat)
    requires n < |absent| && Scanned(absent, runs, open, n) && absent[n]
    ensures Scanned(absent, runs, if open.None? then Some(n) else open, n + 1)
  {
  }

  lemma ScanPresent(absent: seq<bool>, runs: seq<Run>, n: nat)
    requires n < |absent| && Scanned(absent, runs, None, n) && !absent[n]
    ensures Scanned(absent, runs, None, n + 1)
  {
  }

  lemma ScanEndsRun(absent: seq<bool>, runs: seq<Run>, open: nat, n: nat)
    requires n < |absent| && Scanned(absent, runs, Some(open), n) && !absent[n]
    ensures Scanned(absent, runs + [Run(open, n - 1)], None, n + 1)
  {
    CloseRun(absent, runs, open, n);
    var longer := runs + [Run(open, n - 1)];
    assert CountTrue(absent, n + 1) == CountTrue(absent, n);
    assert Runs(absent, longer, n + 1) by {
      forall i | 0 <= i < n + 1 && absent[i] ensures InSome(longer, i) {
      }
    }
  }

  /** One position of the scan, whichever branch it takes. */
  lemma ScanStep(absent: seq<bool>, runs: seq<Run>, open: Option<nat>, n: nat, newRuns: seq<Run>, newOpen: Option<nat>)
    requires n < |absent| && Scanned(absent, runs, open, n)
    requires newOpen == if !absent[n] then None else if open.None? then Some(n) else open
    requires newRuns == if !absent[n] && open.Some? then runs + [Run(open.value, n - 1)] else runs
    ensures Scanned(absent, newRuns, newOpen, n + 1)
  {
    if absent[n] {
      ScanAbsent(absent, runs, open, n);
    } else if open.None? {
      ScanPresent(absent, runs, n);
    } else {
      ScanEndsRun(absent, runs, open.value, n);
    }
  }

  /** Which minutes of the range are absent. */
  function Absences(grid: seq<int>, present: set<int>): (r: seq<bool>)
    ensures |r| == |grid| && forall i :: 0 <= i < |r| ==> r[i] == (grid[i] !in present)
  {
    seq(|grid|, i requires 0 <= i < |grid| => grid[i] !in present)
  }

  function MissingCount(present: set<int>, start: int, end: int): nat {
    CountTrue(Absences(Grid(start, end), present), |Grid(start, end)|)
  }

  /** The ranges of the runs: from the first minute to the last, or to `end` for a run that ends the grid. */
  ghost predicate Spanned(grid: seq<int>, end: int, runs: seq<Run>, ranges: seq<Span>)
  {
    && |ranges| == |runs|
    && forall j :: 0 <= j < |runs| ==>
         && runs[j].first <= runs[j].last < |grid|
         && ranges[j] == Span(grid[runs[j].first], if runs[j].last == |grid| - 1 then end else grid[runs[j].last])
  }

  lemma SpannedSnoc(grid: seq<int>, end: int, runs: seq<Run>, ranges: seq<Span>, run: Run, range: Span)
    requires Spanned(grid, end, runs, ranges) && run.first <= run.last < |grid|
    requires range == Span(grid[run.first], if run.last == |grid| - 1 then end else grid[run.last])
    ensures Spanned(grid, end, runs + [run], ranges + [range])
  {
  }

  /** The grid ends less than a minute before `end`, and on it if both bounds are minutes. */
  lemma GridEnd(start: int, end: int)
    requires start <= end
    ensures var grid := Grid(start, end);
      grid != [] && grid[|grid| - 1] <= end < grid[|grid| - 1] + MINUTE_MS
      && (Minute(start) && Minute(end) ==> grid[|grid| - 1] == end)
  {
    var n := (end - start) / MINUTE_MS;
    assert end - start == n * MINUTE_MS + (end - start) % MINUTE_MS;
  }

  datatype Scan = Scan(runs: seq<Run>, open: Option<nat>)

  /** The scan after `n` positions, step by step. */
  function ScanOf(absent: seq<bool>, n: nat): (r: Scan)
    requires n <= |absent|
    ensures r.open.Some? ==> r.open.value < n
  {
    if n == 0 then Scan([], None)
    else
      var s := ScanOf(absent, n - 1);
      if absent[n - 1] then Scan(s.runs, if s.open.None? then Some(n - 1) else s.open)
      else Scan(if s.open.Some? then s.runs + [Run(s.open.value, n - 2)] else s.runs, None)
  }

  lemma ScanNothing(absent: seq<bool>)
    ensures Scanned(absent, [], None, 0)
  {
  }

  lemma {:induction false} ScanOfScans(absent: seq<bool>, n: nat)
    requires n <= |absent|
    ensures Scanned(absent, ScanOf(absent, n).runs, ScanOf(absent, n).open, n)
  {
    hide Scanned;
    if n == 0 {
      ScanNothing(absent);
    } else {
      var s, t := ScanOf(absent, n - 1), ScanOf(absent, n);
      ScanOfScans(absent, n - 1);
      ScanStep(absent, s.runs, s.open, n - 1, t.runs, t.open);
    }
  }

  /** All maximal runs. */
  function RunsOf(absent: seq<bool>): seq<Run> {
    var s := ScanOf(absent, |absent|);
    if s.open.Some? then s.runs + [Run(s.open.value, |absent| - 1)] else s.runs
  }

  /** The runs are maximal, in order, cover every absent position and count them. */
  lemma RunsOfExact(absent: seq<bool>)
    ensures Runs(absent, RunsOf(absent), |absent|) && TotalLength(RunsOf(absent)) == CountTrue(absent, |absent|)
  {
    var s := ScanOf(absent, |absent|);
    ScanOfScans(absent, |absent|);
    if s.open.Some? {
      CloseRun(absent, s.runs, s.open.value, |absent|);
    }
  }

  /** The scan over the grid: closed ranges and the start of a range still open. */
  method ScanGrid(grid: seq<int>, ghost end: int, present: set<int>)
    returns (ranges: seq<Span>, missingStart: Option<int>)
    requires forall i :: 0 < i < |grid| ==> grid[i] == grid[i - 1] + MINUTE_MS
    ensures var s := ScanOf(Absences(grid, present), |grid|);
      Spanned(grid, end, s.runs, ranges) && missingStart == if s.open.Some? then Some(grid[s.open.value]) else None
  {
    ghost var absent := Absences(grid, present);
    ranges, missingStart := [], None;
    ghost var s := ScanOf(absent, 0);
    for n := 0 to |grid|
      invariant s == ScanOf(absent, n) && Spanned(grid, end, s.runs, ranges)
      invariant missingStart == if s.open.Some? then Some(grid[s.open.value]) else None
    {
      if grid[n] !in present && missingStart.None? {
        missingStart := Some(grid[n]);
      }
      if grid[n] in present && missingStart.Some? {
        SpannedSnoc(grid, end, s.runs, ranges, Run(s.open.value, n - 1), Span(missingStart.value, grid[n] - MINUTE_MS));
        ranges := ranges + [Span(missingStart.value, grid[n] - MINUTE_MS)];
        missingStart := None;
      }
      s := ScanOf(absent, n + 1);
    }
  }

  /** The missing ranges of the grid, as first minute and end of each maximal run. */
  method MissingRanges(start: int, end: int, present: set<int>) returns (ranges: seq<Span>)
    ensures Spanned(Grid(start, end), end, RunsOf(Absences(Grid(start, end), present)), ranges)
  {
    var grid := Grid(start, end);
    var missingStart;
    ranges, missingStart := ScanGrid(grid, end, present);
    if missingStart.Some? {
      var s := ScanOf(Absences(grid, present), |grid|);
      SpannedSnoc(grid, end, s.runs, ranges, Run(s.open.value, |grid| - 1), Span(missingStart.value, end));
      ranges := ranges + [Span(missingStart.value, end)];
    }
  }

  // ----- Missing ranges against the table

  /** `ranges` are disjoint, in order, and none of their minutes is stored. */
  ghost predicate Fresh(rows: map<Key, ClosedCandle>, m: Market, ranges: seq<Span>, start: int, end: int) {
    && (forall j :: 0 <= j < |ranges| ==>
          && start <= ranges[j].lo <= ranges[j].hi <= end
          && Minute(ranges[j].lo) && (Minute(end) ==> Minute(ranges[j].hi)))
    && (forall j :: 0 <= j < |ranges| ==> NothingStored(rows, m, ranges[j].lo, ranges[j].hi))
    && (forall j, k :: 0 <= j < k < |ranges| ==> ranges[j].hi < ranges[k].lo)
  }

  ghost predicate InSpan(ranges: seq<Span>, t: int) {
    exists j :: 0 <= j < |ranges| && ranges[j].lo <= t <= ranges[j].hi
  }

  function SpanMinutes(ranges: seq<Span>): int {
    if ranges == [] then 0
    else SpanMinutes(ranges[..|ranges| - 1]) + (ranges[|ranges| - 1].hi - ranges[|ranges| - 1].lo) / MINUTE_MS + 1
  }

  lemma SpanMinutesStep(ranges: seq<Span>, j: nat)
    requires j < |ranges|
    ensures SpanMinutes(ranges[..j + 1]) == SpanMinutes(ranges[..j]) + (ranges[j].hi - ranges[j].lo) / MINUTE_MS + 1
  {
    assert ranges[..j + 1][..j] == ranges[..j];
  }

  lemma {:induction false} SpanMinutesGrow(ranges: seq<Span>, j: nat)
    requires j <= |ranges| && forall k :: 0 <= k < |ranges| ==> ranges[k].lo <= ranges[k].hi
    ensures SpanMinutes(ranges[..j]) <= SpanMinutes(ranges)
    decreases |ranges| - j
  {
    if j == |ranges| {
      assert ranges[..j] == ranges;
    } else {
      SpanMinutesStep(ranges, j);
      SpanMinutesGrow(ranges, j + 1);
    }
  }

  lemma {:induction false} SpanMinutesIsLength(grid: seq<int>, end: int, runs: seq<Run>, ranges: seq<Span>)
    requires Spanned(grid, end, runs, ranges) && forall i :: 0 <= i < |grid| ==> grid[i] == grid[0] + i * MINUTE_MS
    requires grid != [] ==> grid[|grid| - 1] <= end < grid[|grid| - 1] + MINUTE_MS
    ensures SpanMinutes(ranges) == TotalLength(runs)
  {
    if runs != [] {
      var n := |runs| - 1;
      SpanMinutesIsLength(grid, end, runs[..n], ranges[..n]);
      var length := runs[n].last - runs[n].first;
      assert grid[runs[n].last] - grid[runs[n].first] == length * MINUTE_MS;
      assert length * MINUTE_MS <= ranges[n].hi - ranges[n].lo < length * MINUTE_MS + MINUTE_MS;
    }
  }

  lemma OnlyMinutesStored(rows: map<Key, ClosedCandle>, m: Market, t: int)
    requires Keyed(rows) && !Minute(t)
    ensures !Has(rows, m, t)
  {
    assert Has(rows, m, t) ==> RowAt(rows, m, t).openMs == t;
  }

  lemma GridIndex(start: int, end: int, t: int) returns (i: nat)
    requires Minute(start) && Minute(t) && start <= t <= end
    ensures i < |Grid(start, end)| && Grid(start, end)[i] == t && t == start + i * MINUTE_MS
  {
    i := (t - start) / MINUTE_MS;
    assert t == start + i * MINUTE_MS;
  }

  /** One missing range covers only minutes that are not stored. */
  lemma SpanIsFresh(rows: map<Key, ClosedCandle>, m: Market, start: int, end: int, runs: seq<Run>, ranges: seq<Span>,
                    j: nat)
    requires Keyed(rows) && Minute(start) && j < |ranges|
    requires var grid := Grid(start, end);
      Spanned(grid, end, runs, ranges) && Runs(Absences(grid, Times(rows, m, start, Some(end))), runs, |grid|)
    ensures start <= ranges[j].lo <= ranges[j].hi <= end && Minute(ranges[j].lo)
    ensures Minute(end) ==> Minute(ranges[j].hi)
    ensures NothingStored(rows, m, ranges[j].lo, ranges[j].hi)
  {
    GridEnd(start, end);
    var grid := Grid(start, end);
    var absent := Absences(grid, Times(rows, m, start, Some(end)));
    var a, b := runs[j].first, runs[j].last;
    GridMembers(start, end, grid[a]);
    GridMembers(start, end, grid[b]);
    forall t | ranges[j].lo <= t <= ranges[j].hi ensures !Has(rows, m, t) {
      if Minute(t) {
        var i := GridIndex(start, end, t);
        assert a <= i <= b;
        assert absent[i];
      } else {
        OnlyMinutesStored(rows, m, t);
      }
    }
  }

  lemma SpansInOrder(start: int, end: int, runs: seq<Run>, ranges: seq<Span>, absent: seq<bool>)
    requires Spanned(Grid(start, end), end, runs, ranges)
    requires |absent| == |Grid(start, end)| && Runs(absent, runs, |absent|)
    ensures forall j, k :: 0 <= j < k < |ranges| ==> ranges[j].hi < ranges[k].lo
  {
    forall j, k | 0 <= j < k < |ranges| ensures ranges[j].hi < ranges[k].lo {
      assert runs[j].last + 1 < runs[k].first;
    }
  }

  lemma SpansCover(rows: map<Key, ClosedCandle>, m: Market, start: int, end: int, runs: seq<Run>, ranges: seq<Span>,
                   t: int)
    requires Minute(start) && start <= t <= end && Minute(t) && !Has(rows, m, t)
    requires var grid := Grid(start, end);
      Spanned(grid, end, runs, ranges) && Runs(Absences(grid, Times(rows, m, start, Some(end))), runs, |grid|)
    ensures InSpan(ranges, t)
  {
    var i := GridIndex(start, end, t);
    var grid := Grid(start, end);
    var absent := Absences(grid, Times(rows, m, start, Some(end)));
    assert absent[i];
    GridEnd(start, end);
    RunCovers(grid, start, end, runs, ranges, absent, i);
  }

  lemma RunCovers(grid: seq<int>, start: int, end: int, runs: seq<Run>, ranges: seq<Span>, absent: seq<bool>, i: nat)
    requires |absent| == |grid| && i < |grid| && absent[i]
    requires forall k :: 0 <= k < |grid| ==> grid[k] == start + k * MINUTE_MS
    requires grid[|grid| - 1] <= end
    requires Spanned(grid, end, runs, ranges) && Runs(absent, runs, |grid|)
    ensures InSpan(ranges, grid[i])
  {
    assert InSome(runs, i);
    var j :| 0 <= j < |runs| && runs[j].first <= i <= runs[j].last;
    assert ranges[j].lo <= grid[i] <= ranges[j].hi;
  }

  lemma RangesAreFresh(rows: map<Key, ClosedCandle>, m: Market, start: int, end: int, ranges: seq<Span>)
    requires Keyed(rows) && Minute(start)
    requires var grid := Grid(start, end);
      Spanned(grid, end, RunsOf(Absences(grid, Times(rows, m, start, Some(end)))), ranges)
    ensures Fresh(rows, m, ranges, start, end)
    ensures SpanMinutes(ranges) == MissingCount(Times(rows, m, start, Some(end)), start, end)
    ensures forall t :: start <= t <= end && Minute(t) && !Has(rows, m, t) ==> InSpan(ranges, t)
  {
    var grid := Grid(start, end);
    var absent := Absences(grid, Times(rows, m, start, Some(end)));
    var runs := RunsOf(absent);
    RunsOfExact(absent);
    if start <= end {
      GridEnd(start, end);
    }
    SpanMinutesIsLength(grid, end, runs, ranges);
    SpansInOrder(start, end, runs, ranges, absent);
    forall j | 0 <= j < |ranges|
      ensures start <= ranges[j].lo <= ranges[j].hi <= end && Minute(ranges[j].lo)
      ensures Minute(end) ==> Minute(ranges[j].hi)
      ensures NothingStored(rows, m, ranges[j].lo, ranges[j].hi)
    {
      SpanIsFresh(rows, m, start, end, runs, ranges, j);
    }
    forall t | start <= t <= end && Minute(t) && !Has(rows, m, t) ensures InSpan(ranges, t) {
      SpansCover(rows, m, start, end, runs, ranges, t);
    }
  }

  /** From a start that is no minute, nothing is found stored: the whole range is missing, from a time that no
      request can name. */
  lemma MisalignedRanges(rows: map<Key, ClosedCandle>, m: Market, start: int, end: int, ranges: seq<Span>)
    requires Keyed(rows) && !Minute(start)
    requires var grid := Grid(start, end);
      Spanned(grid, end, RunsOf(Absences(grid, Times(rows, m, start, Some(end)))), ranges)
    ensures if end < start then ranges == [] else ranges != [] && !Minute(ranges[0].lo)
  {
    hide Grid, RunsOf, Runs;
    var grid := Grid(start, end);
    var absent := Absences(grid, Times(rows, m, start, Some(end)));
    forall i: nat | i < |grid| ensures !Minute(grid[i]) && absent[i] {
      GridMisaligned(start, end, i);
      OnlyMinutesStored(rows, m, grid[i]);
    }
    RunsOfExact(absent);
    if end < start {
      GridEmpty(start, end);
      NoRuns();
    } else {
      GridEnd(start, end);
      SomeRun(absent, RunsOf(absent));
      assert ranges[0].lo == grid[RunsOf(absent)[0].first];
    }
  }

  lemma GridMisaligned(start: int, end: int, i: nat)
    requires !Minute(start) && i < |Grid(start, end)|
    ensures !Minute(Grid(start, end)[i])
  {
    assert Grid(start, end)[i] == start + i * MINUTE_MS;
  }

  lemma GridEmpty(start: int, end: int)
    requires end < start
    ensures Grid(start, end) == []
  {
  }

  lemma NoRuns()
    ensures RunsOf([]) == []
  {
  }

  lemma SomeRun(absent: seq<bool>, runs: seq<Run>)
    requires absent != [] && absent[0] && Runs(absent, runs, |absent|)
    ensures runs != [] && runs[0].first < |absent|
  {
    assert InSome(runs, 0);
  }

  // ----- The calls a synchronisation makes

  /** From call `k` on, page requests name only minutes that `rows` does not hold. */
  ghost predicate FetchesAbsent(log: seq<Call>, k: nat, rows: map<Key, ClosedCandle>, m: Market) {
    forall i :: k <= i < |log| && log[i].Fetch? ==>
      log[i].request.startMs <= log[i].request.endMs && NothingStored(rows, m, log[i].request.startMs,
                                                                      log[i].request.endMs)
  }

  /** The number of page requests from call `k` on. */
  function FetchCount(log: seq<Call>, k: nat): nat {
    if |log| <= k then 0 else FetchCount(log[..|log| - 1], k) + if log[|log| - 1].Fetch? then 1 else 0
  }

  lemma NotAFetch(log: seq<Call>, c: Call, k: nat)
    requires k <= |log| && !c.Fetch?
    ensures FetchCount(log + [c], k) == FetchCount(log, k)
  {
    var longer := log + [c];
    assert longer[..|longer| - 1] == log;
  }

  lemma {:induction false} FetchCountGrows(log: seq<Call>, longer: seq<Call>, k: nat)
    requires log <= longer && k <= |log|
    ensures FetchCount(log, k) <= FetchCount(longer, k) <= FetchCount(log, k) + |longer| - |log|
  {
    if |log| < |longer| {
      FetchCountGrows(log, longer[..|longer| - 1], k);
    } else {
      assert log == longer;
    }
  }

  lemma FetchesStayAbsent(log: seq<Call>, longer: seq<Call>, k: nat, rows: map<Key, ClosedCandle>, m: Market, lo: int,
                          hi: int)
    requires log <= longer && k <= |log| && FetchesAbsent(log, k, rows, m)
    requires OnlyFetches(longer, |log|, lo, hi) && NothingStored(rows, m, lo, hi)
    ensures FetchesAbsent(longer, k, rows, m)
  {
    forall i | k <= i < |longer| && longer[i].Fetch?
      ensures longer[i].request.startMs <= longer[i].request.endMs
      ensures NothingStored(rows, m, longer[i].request.startMs, longer[i].request.endMs)
    {
      if i < |log| {
        assert longer[i] == log[i];
      }
    }
  }

  /** The first `j` ranges are filled, the others still empty. */
  ghost predicate Progress(rows: map<Key, ClosedCandle>, m: Market, ranges: seq<Span>, j: nat) {
    && (forall k :: 0 <= k < j && k < |ranges| ==> Contiguous(rows, m, ranges[k].lo, ranges[k].hi))
    && (forall k :: j <= k < |ranges| ==> NothingStored(rows, m, ranges[k].lo, ranges[k].hi))
  }

  lemma ProgressStep(before: map<Key, ClosedCandle>, rows: map<Key, ClosedCandle>, newRows: map<Key, ClosedCandle>,
                     m: Market, symbol: nat, ranges: seq<Span>, j: nat, start: int, end: int)
    requires Fresh(before, m, ranges, start, end) && j < |ranges| && Progress(rows, m, ranges, j)
    requires Extends(rows, newRows, m, symbol, ranges[j].lo, ranges[j].hi)
    requires Contiguous(newRows, m, ranges[j].lo, ranges[j].hi)
    ensures Progress(newRows, m, ranges, j + 1)
  {
    forall k | 0 <= k < j + 1 ensures Contiguous(newRows, m, ranges[k].lo, ranges[k].hi) {
      if k < j {
        ContiguousGrows(rows, newRows, m, ranges[k].lo, ranges[k].hi);
      }
    }
    forall k | j + 1 <= k < |ranges| ensures NothingStored(newRows, m, ranges[k].lo, ranges[k].hi) {
      forall t | ranges[k].lo <= t <= ranges[k].hi ensures !Has(newRows, m, t) {
        assert !Has(rows, m, t);
      }
    }
  }

  /** All ranges filled: nothing is missing between `start` and `end`. */
  lemma AllFilled(before: map<Key, ClosedCandle>, rows: map<Key, ClosedCandle>, m: Market, ranges: seq<Span>,
                  start: int, end: int)
    requires forall t :: start <= t <= end && Minute(t) && !Has(before, m, t) ==> InSpan(ranges, t)
    requires Progress(rows, m, ranges, |ranges|) && forall k :: k in before ==> k in rows
    ensures Contiguous(rows, m, start, end)
  {
    forall t | start <= t <= end && Minute(t) ensures Has(rows, m, t) {
      if !Has(before, m, t) {
        assert InSpan(ranges, t);
        var j :| 0 <= j < |ranges| && ranges[j].lo <= t <= ranges[j].hi;
        assert Contiguous(rows, m, ranges[j].lo, ranges[j].hi);
      }
    }
  }

  // ----- What is loaded back

  ghost predicate AllSymbol(cs: seq<ClosedCandle>, symbol: nat) {
    forall i :: 0 <= i < |cs| ==> cs[i].symbol == symbol
  }

  function Opens(cs: seq<ClosedCandle>): (r: seq<int>)
    ensures |r| == |cs| && forall i :: 0 <= i < |r| ==> r[i] == cs[i].openMs
  {
    seq(|cs|, i requires 0 <= i < |cs| => cs[i].openMs)
  }

  function OpenTimes(cs: seq<ClosedCandle>): set<int> {
    set i | 0 <= i < |cs| :: cs[i].openMs
  }

  /** Exactly one stored candle of the requested identity for every minute of the range. */
  ghost predicate Complete(rows: map<Key, ClosedCandle>, m: Market, symbol: nat, start: int, end: int,
                           cs: seq<ClosedCandle>)
  {
    && Contiguous(rows, m, start, end) && Opens(cs) == Grid(start, end) && AllSymbol(cs, symbol)
    && forall i :: 0 <= i < |cs| ==> MarketOf(cs[i]) == m && KeyOf(cs[i]) in rows && rows[KeyOf(cs[i])] == cs[i]
  }

  lemma LoadedTimes(rows: map<Key, ClosedCandle>, m: Market, start: int, end: int)
    requires Keyed(rows)
    ensures OpenTimes(Load(rows, m, start, end)) == Times(rows, m, start, Some(end))
  {
    var cs, times := Load(rows, m, start, end), Times(rows, m, start, Some(end));
    AscendingLists(times);
    forall t ensures t in OpenTimes(cs) <==> t in times {
      if t in times {
        var i :| 0 <= i < |times| && Ascending(times)[i] == t;
        assert cs[i].openMs == t;
      }
      if t in OpenTimes(cs) {
        var i :| 0 <= i < |cs| && cs[i].openMs == t;
        assert Ascending(times)[i] in Ascending(times);
      }
    }
  }

  /** A range without holes loads back as its grid. */
  lemma LoadIsGrid(rows: map<Key, ClosedCandle>, m: Market, start: int, end: int)
    requires Keyed(rows) && (Minute(start) || end < start) && Contiguous(rows, m, start, end)
    ensures Opens(Load(rows, m, start, end)) == Grid(start, end)
  {
    var times := Times(rows, m, start, Some(end));
    AscendingLists(times);
    assert Opens(Load(rows, m, start, end)) == Ascending(times);
    forall t ensures t in Ascending(times) <==> t in Grid(start, end) {
      if start <= end {
        GridMembers(start, end, t);
      }
      if !Minute(t) {
        OnlyMinutesStored(rows, m, t);
      }
    }
    IncreasingUnique(Ascending(times), Grid(start, end));
  }

  ghost predicate WatermarkBacked(states: map<Market, SyncState>, m: Market, start: int, present: set<int>) {
    || m !in states || states[m].lastCompletedOpenMs < start
    || var grid := Grid(start, states[m].lastCompletedOpenMs);
       forall i :: 0 <= i < |grid| ==> grid[i] in present
  }

  /** What the watermark check really tests: it passes exactly when the watermark lies before the range,
      or inside it with no hole up to it. A watermark past the end fails it whatever is stored. */
  lemma WatermarkCheckExact(rows: map<Key, ClosedCandle>, states: map<Market, SyncState>, m: Market, start: int,
                            end: int)
    requires Minute(start) && m in states && Minute(states[m].lastCompletedOpenMs)
    ensures var last := states[m].lastCompletedOpenMs;
      WatermarkBacked(states, m, start, Times(rows, m, start, Some(end)))
      <==> last < start || (last <= end && Contiguous(rows, m, start, last))
  {
    var last, present := states[m].lastCompletedOpenMs, Times(rows, m, start, Some(end));
    if last >= start {
      var grid := Grid(start, last);
      GridMembers(start, last, last);
      if WatermarkBacked(states, m, start, present) {
        forall t | start <= t <= last && Minute(t) ensures t in present {
          var i := GridIndex(start, last, t);
        }
      }
      if last <= end && Contiguous(rows, m, start, last) {
        forall i | 0 <= i < |grid| ensures grid[i] in present {
          GridMembers(start, last, grid[i]);
        }
      }
    }
  }

  /** A gap-free table that the check rejects: two stored minutes, a watermark on the second, and a
      request for the first alone. */
  lemma WatermarkFalseAlarm(c: ClosedCandle, d: ClosedCandle)
    requires c.openMs == 0 && d.openMs == MINUTE_MS && MarketOf(c) == MarketOf(d)
    ensures var rows := map[KeyOf(c) := c, KeyOf(d) := d];
      var states := map[MarketOf(c) := SyncState(MINUTE_MS, 0)];
      && Contiguous(rows, MarketOf(c), 0, MINUTE_MS)
      && !WatermarkBacked(states, MarketOf(c), 0, Times(rows, MarketOf(c), 0, Some(0)))
  {
    var rows := map[KeyOf(c) := c, KeyOf(d) := d];
    var states := map[MarketOf(c) := SyncState(MINUTE_MS, 0)];
    forall t | 0 <= t <= MINUTE_MS && Minute(t) ensures Has(rows, MarketOf(c), t) {
      assert t == 0 || t == MINUTE_MS;
    }
    WatermarkCheckExact(rows, states, MarketOf(c), 0, 0);
  }
}
