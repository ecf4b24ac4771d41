/** The canonical candle table and its contiguity watermark. */
module CandleStore {
  import opened Sequences
  import opened Candles

  /** Market type and interval are fixed for every closed candle, so these three name a row. */
  datatype Key = Key(provider: nat, instrument: nat, openMs: int)

  datatype Market = Market(provider: nat, instrument: nat)

  datatype SyncState = SyncState(lastCompletedOpenMs: int, successfulSyncMs: int)

  datatype Store = Store(rows: map<Key, ClosedCandle>, states: map<Market, SyncState>)

  datatype StoreError = EmptyPage | NegativeSyncTime | BadRequiredStart | MixedMarkets | SourceConflict

  datatype StoreResult = Stored(store: Store) | Rejected(error: StoreError)

  function KeyOf(c: ClosedCandle): Key { Key(c.provider, c.instrument, c.openMs) }

  function MarketOf(c: ClosedCandle): Market { Market(c.provider, c.instrument) }

  predicate Has(rows: map<Key, ClosedCandle>, m: Market, t: int) {
    Key(m.provider, m.instrument, t) in rows
  }

  /** Every row sits under its own key. */
  predicate Keyed(rows: map<Key, ClosedCandle>) {
    forall k :: k in rows ==> KeyOf(rows[k]) == k
  }

  predicate Minute(t: int) { t % MINUTE_MS == 0 }

  /** Every minute from `from` to `to` is stored. */
  ghost predicate Contiguous(rows: map<Key, ClosedCandle>, m: Market, from: int, to: int) {
    forall t :: from <= t <= to && Minute(t) ==> Has(rows, m, t)
  }

  /** Stored open times of a market between two bounds. */
  function Times(rows: map<Key, ClosedCandle>, m: Market, from: int, to: Option<int>): (r: set<int>)
    ensures forall t :: t in r <==> Has(rows, m, t) && from <= t && (to.Some? ==> t <= to.value)
  {
    set k | k in rows && k.provider == m.provider && k.instrument == m.instrument
            && from <= k.openMs && (to.Some? ==> k.openMs <= to.value) :: k.openMs
  }

  /** The last minute of the unbroken run of stored minutes that starts at `t`. */
  function RunEnd(rows: map<Key, ClosedCandle>, m: Market, t: int): (r: int)
    requires Has(rows, m, t) && Minute(t)
    ensures t <= r && Minute(r) && Contiguous(rows, m, t, r) && !Has(rows, m, r + MINUTE_MS)
    decreases |Times(rows, m, t, None)|
  {
    if Has(rows, m, t + MINUTE_MS) then
      assert Times(rows, m, t + MINUTE_MS, None) < Times(rows, m, t, None) by {
        assert t in Times(rows, m, t, None);
      }
      FewerElements(Times(rows, m, t + MINUTE_MS, None), Times(rows, m, t, None));
      RunEnd(rows, m, t + MINUTE_MS)
    else t
  }

  lemma FewerElements(a: set<int>, b: set<int>)
    requires a < b
    ensures |a| < |b|
  {
    assert b == a + (b - a);
  }

  lemma RunEndUnique(rows: map<Key, ClosedCandle>, m: Market, t: int, hole: int)
    requires Has(rows, m, t) && Minute(t) && t < hole && Minute(hole)
    requires Contiguous(rows, m, t, hole - MINUTE_MS) && !Has(rows, m, hole)
    ensures RunEnd(rows, m, t) == hole - MINUTE_MS
  {
    var e := RunEnd(rows, m, t);
    NextMinute(e, hole);
    NextMinute(e + MINUTE_MS, hole);
    assert hole <= e ==> Has(rows, m, hole);
    assert e + MINUTE_MS < hole ==> Has(rows, m, e + MINUTE_MS);
  }

  lemma NextMinute(a: int, b: int)
    requires Minute(a) && Minute(b)
    ensures Minute(a + MINUTE_MS) && Minute(a - MINUTE_MS)
    ensures a < b ==> a + MINUTE_MS <= b
  {
  }

  // ----- What storing a page does

  /** Insert-only: an equal row is left alone, a different row under the same key is a conflict. */
  function Inserted(rows: map<Key, ClosedCandle>, page: seq<ClosedCandle>): Option<map<Key, ClosedCandle>>
    decreases |page|
  {
    if page == [] then Some(rows)
    else
      var c := page[0];
      if KeyOf(c) !in rows then Inserted(rows[KeyOf(c) := c], page[1..])
      else if rows[KeyOf(c)] == c then Inserted(rows, page[1..])
      else None
  }

  /** The watermark after a page: it only joins onto a run that reaches it, and never moves back. */
  function Advanced(rows: map<Key, ClosedCandle>, states: map<Market, SyncState>, m: Market, syncMs: int,
                    start: int): map<Market, SyncState>
    requires Minute(start)
  {
    if m in states && states[m].lastCompletedOpenMs + MINUTE_MS < start then states
    else if !Has(rows, m, start) then states
    else
      var prefix := RunEnd(rows, m, start);
      var last := if m in states && states[m].lastCompletedOpenMs > prefix then states[m].lastCompletedOpenMs
                  else prefix;
      states[m := SyncState(last, syncMs)]
  }

  function StorePage(store: Store, page: seq<ClosedCandle>, syncMs: int, start: int): StoreResult {
    if page == [] then Rejected(EmptyPage)
    else if syncMs < 0 then Rejected(NegativeSyncTime)
    else if start < 0 || !Minute(start) then Rejected(BadRequiredStart)
    else if exists i :: 0 <= i < |page| && MarketOf(page[i]) != MarketOf(page[0]) then Rejected(MixedMarkets)
    else
      match Inserted(store.rows, page)
      case None => Rejected(SourceConflict)
      case Some(rows) => Stored(Store(rows, Advanced(rows, store.states, MarketOf(page[0]), syncMs, start)))
  }

  // ----- What becomes of the watermark

  /** The watermark of the market, if there is one, lies at most a minute before the required start. */
  predicate Joins(states: map<Market, SyncState>, m: Market, start: int) {
    m in states ==> start <= states[m].lastCompletedOpenMs + MINUTE_MS
  }

  /** If the required start is stored, the market has a watermark of the given sync time, at or past every minute to
      which the rows are unbroken from the start. */
  ghost predicate Reaches(rows: map<Key, ClosedCandle>, states: map<Market, SyncState>, m: Market, syncMs: int,
                          start: int)
  {
    Has(rows, m, start) ==>
      && m in states && states[m].successfulSyncMs == syncMs
      && forall r :: start <= r && Minute(r) && Contiguous(rows, m, start, r) ==> r <= states[m].lastCompletedOpenMs
  }

  /** Other markets are as they were, and so is this one if its watermark did not join the start. */
  ghost predicate Apart(before: map<Market, SyncState>, states: map<Market, SyncState>, m: Market, start: int) {
    && (forall n :: n != m ==> (n in states <==> n in before) && (n in states ==> states[n] == before[n]))
    && (!Joins(before, m, start) ==> states == before)
  }

  /** A page moves the watermark exactly if it joins the stored start: never back, as far as the rows are unbroken, and
      to a minute to which they are. */
  ghost predicate Moved(rows: map<Key, ClosedCandle>, before: map<Market, SyncState>, states: map<Market, SyncState>,
                        m: Market, syncMs: int, start: int)
  {
    && Apart(before, states, m, start)
    && (!Has(rows, m, start) ==> states == before)
    && (Joins(before, m, start) && Has(rows, m, start) ==>
          && Reaches(rows, states, m, syncMs, start)
          && (m in before ==> before[m].lastCompletedOpenMs <= states[m].lastCompletedOpenMs)
          && var last := states[m].lastCompletedOpenMs;
             || (m in before && last == before[m].lastCompletedOpenMs)
             || (start <= last && Minute(last) && Contiguous(rows, m, start, last)))
  }

  lemma AdvancedMoves(rows: map<Key, ClosedCandle>, states: map<Market, SyncState>, m: Market, syncMs: int, start: int)
    requires Minute(start)
    ensures Moved(rows, states, Advanced(rows, states, m, syncMs, start), m, syncMs, start)
  {
    hide RunEnd;
    if Has(rows, m, start) {
      var hole := RunEnd(rows, m, start) + MINUTE_MS;
      forall r | start <= r && Minute(r) && Contiguous(rows, m, start, r) ensures r < hole {
        NextMinute(hole, r);
      }
      forall r | r < hole && Minute(r) ensures r <= hole - MINUTE_MS {
        NextMinute(hole - MINUTE_MS, r);
        NextMinute(r, hole);
      }
    }
  }

  /** What any number of pages do: a watermark that joins goes on joining, and if a page was the last thing stored it
      reaches as far as the rows are unbroken. */
  ghost predicate Upheld(rows: map<Key, ClosedCandle>, before: map<Market, SyncState>, states: map<Market, SyncState>,
                         m: Market, syncMs: int, start: int, stored: bool)
  {
    && Apart(before, states, m, start)
    && (Joins(before, m, start) ==>
          Joins(states, m, start) && (stored ==> Reaches(rows, states, m, syncMs, start)))
  }

  lemma MovedUpholds(rows: map<Key, ClosedCandle>, before: map<Market, SyncState>, states: map<Market, SyncState>,
                     m: Market, syncMs: int, start: int)
    requires Moved(rows, before, states, m, syncMs, start) && Minute(start)
    ensures Upheld(rows, before, states, m, syncMs, start, true)
  {
  }

  lemma UpheldIsApart(rows: map<Key, ClosedCandle>, before: map<Market, SyncState>, states: map<Market, SyncState>,
                      m: Market, syncMs: int, start: int, stored: bool)
    requires Upheld(rows, before, states, m, syncMs, start, stored)
    ensures Apart(before, states, m, start)
  {
  }

  lemma Weaker(rows: map<Key, ClosedCandle>, before: map<Market, SyncState>, states: map<Market, SyncState>, m: Market,
               syncMs: int, start: int)
    requires Upheld(rows, before, states, m, syncMs, start, true)
    ensures Upheld(rows, before, states, m, syncMs, start, false)
  {
  }

  lemma NothingMoved(rows: map<Key, ClosedCandle>, states: map<Market, SyncState>, m: Market, syncMs: int, start: int)
    ensures Upheld(rows, states, states, m, syncMs, start, false)
  {
  }

  lemma UpheldOn(older: map<Key, ClosedCandle>, rows: map<Key, ClosedCandle>, a: map<Market, SyncState>,
                 b: map<Market, SyncState>, c: map<Market, SyncState>, m: Market, syncMs: int, start: int,
                 first: bool, stored: bool)
    requires Upheld(older, a, b, m, syncMs, start, first) && Upheld(rows, b, c, m, syncMs, start, stored)
    ensures Upheld(rows, a, c, m, syncMs, start, stored) && Upheld(rows, a, c, m, syncMs, start, false)
  {
  }

  /** Storing keeps every old row, adds the page, and adds nothing else. */
  lemma {:induction false} InsertedMeaning(rows: map<Key, ClosedCandle>, page: seq<ClosedCandle>)
    requires Keyed(rows)
    ensures var r := Inserted(rows, page);
      r.Some? ==>
        && Keyed(r.value)
        && (forall k :: k in rows ==> k in r.value && r.value[k] == rows[k])
        && (forall c :: c in page ==> KeyOf(c) in r.value && r.value[KeyOf(c)] == c)
        && (forall k :: k in r.value && k !in rows ==> r.value[k] in page)
    ensures (forall c :: c in page ==> KeyOf(c) !in rows || rows[KeyOf(c)] == c)
            && (forall c, d :: c in page && d in page && KeyOf(c) == KeyOf(d) ==> c == d)
            <==> Inserted(rows, page).Some?
    decreases |page|
  {
    if page != [] {
      var c, rest := page[0], page[1..];
      assert page == [c] + rest;
      if KeyOf(c) !in rows {
        InsertedMeaning(rows[KeyOf(c) := c], rest);
      } else if rows[KeyOf(c)] == c {
        InsertedMeaning(rows, rest);
      }
    }
  }

  lemma ContiguousSnoc(rows: map<Key, ClosedCandle>, m: Market, from: int, to: int)
    requires Minute(to) && Contiguous(rows, m, from, to - MINUTE_MS) && Has(rows, m, to)
    ensures Contiguous(rows, m, from, to)
  {
    forall t | from <= t <= to && Minute(t) ensures Has(rows, m, t) {
      NextMinute(t, to);
    }
  }

  /** The scan stops at a minute that is not stored. */
  lemma HoleAt(rows: map<Key, ClosedCandle>, m: Market, start: int, times: seq<int>, i: nat, expected: int)
    requires Keyed(rows) && times == Ascending(Times(rows, m, start, None)) && i <= |times|
    requires Minute(start) && Minute(expected) && start <= expected
    requires if i == 0 then expected == start else times[i - 1] == expected - MINUTE_MS
    requires i < |times| ==> times[i] != expected
    ensures !Has(rows, m, expected)
  {
    hide Ascending, Least;
    AscendingLists(Times(rows, m, start, None));
    forall j | 0 <= j < |times| ensures times[j] != expected {
      assert times[j] in times;
      if i < j {
        assert times[i] in times;
        var k := Key(m.provider, m.instrument, times[i]);
        assert KeyOf(rows[k]) == k;
        assert Minute(times[i]);
        assert times[i] < times[j];
        assert i > 0 ==> times[i - 1] < times[i];
      }
    }
    assert Has(rows, m, expected) ==> expected in times;
  }

  function RowAt(rows: map<Key, ClosedCandle>, m: Market, t: int): (c: ClosedCandle)
    requires Keyed(rows) && Has(rows, m, t)
    ensures MarketOf(c) == m && c.openMs == t && KeyOf(c) in rows && rows[KeyOf(c)] == c
  {
    assert KeyOf(rows[Key(m.provider, m.instrument, t)]) == Key(m.provider, m.instrument, t);
    rows[Key(m.provider, m.instrument, t)]
  }

  /** The rows of a market between two open times, in ascending order. */
  function Load(rows: map<Key, ClosedCandle>, m: Market, start: int, end: int): (r: seq<ClosedCandle>)
    requires Keyed(rows)
    ensures |r| == |Times(rows, m, start, Some(end))|
    ensures forall i :: 0 <= i < |r| ==>
      MarketOf(r[i]) == m && r[i].openMs == Ascending(Times(rows, m, start, Some(end)))[i]
    ensures forall i :: 0 <= i < |r| ==> KeyOf(r[i]) in rows && rows[KeyOf(r[i])] == r[i]
  {
    var times := Ascending(Times(rows, m, start, Some(end)));
    AscendingLists(Times(rows, m, start, Some(end)));
    seq(|times|, i requires 0 <= i < |times| =>
      assert times[i] in times; RowAt(rows, m, times[i]))
  }

  // ----- The repository

  /** The rows of a market with open times between two bounds: all of them, nothing else, in ascending order. */
  ghost predicate Lists(candles: seq<ClosedCandle>, rows: map<Key, ClosedCandle>, m: Market, start: int, end: int) {
    && (forall i, j :: 0 <= i < j < |candles| ==> candles[i].openMs < candles[j].openMs)
    && forall c :: c in candles <==> Between(c, rows, m, start, end)
  }

  predicate Between(c: ClosedCandle, rows: map<Key, ClosedCandle>, m: Market, start: int, end: int) {
    KeyOf(c) in rows && rows[KeyOf(c)] == c && MarketOf(c) == m && start <= c.openMs <= end
  }

  lemma LoadedIsBetween(rows: map<Key, ClosedCandle>, m: Market, start: int, end: int, i: nat)
    requires Keyed(rows) && i < |Load(rows, m, start, end)|
    ensures Between(Load(rows, m, start, end)[i], rows, m, start, end)
  {
    hide Load, RowAt;
    var times := Times(rows, m, start, Some(end));
    AscendingLists(times);
    assert Ascending(times)[i] in times;
  }

  lemma BetweenIsLoaded(rows: map<Key, ClosedCandle>, m: Market, start: int, end: int, c: ClosedCandle)
    requires Keyed(rows) && Between(c, rows, m, start, end)
    ensures c in Load(rows, m, start, end)
  {
    hide Load, RowAt;
    var r, times := Load(rows, m, start, end), Times(rows, m, start, Some(end));
    AscendingLists(times);
    assert c.openMs in times && c.openMs in Ascending(times);
    var i :| 0 <= i < |Ascending(times)| && Ascending(times)[i] == c.openMs;
    assert KeyOf(r[i]) == KeyOf(c);
  }

  lemma LoadLists(rows: map<Key, ClosedCandle>, m: Market, start: int, end: int)
    requires Keyed(rows)
    ensures Lists(Load(rows, m, start, end), rows, m, start, end)
  {
    hide Load, Between;
    var r := Load(rows, m, start, end);
    AscendingLists(Times(rows, m, start, Some(end)));
    forall c ensures c in r <==> Between(c, rows, m, start, end) {
      if c in r {
        var i :| 0 <= i < |r| && r[i] == c;
        LoadedIsBetween(rows, m, start, end, i);
      }
      if Between(c, rows, m, start, end) {
        BetweenIsLoaded(rows, m, start, end, c);
      }
    }
  }

  class CandleRepository {
    var rows: map<Key, ClosedCandle>
    var states: map<Market, SyncState>

    constructor ()
      ensures Valid() && View() == Store(map[], map[])
    {
      rows, states := map[], map[];
    }

    function View(): Store
      reads this
    {
      Store(rows, states)
    }

    predicate Valid()
      reads this
    {
      Keyed(rows)
    }

    method LoadCandles(m: Market, start: int, end: int) returns (candles: seq<ClosedCandle>)
      requires Valid()
      ensures candles == Load(rows, m, start, end) && Lists(candles, rows, m, start, end)
    {
      candles := Load(rows, m, start, end);
      LoadLists(rows, m, start, end);
    }

    method LoadSyncState(m: Market) returns (state: Option<SyncState>)
      ensures state == if m in states then Some(states[m]) else None
    {
      state := if m in states then Some(states[m]) else None;
    }

    /** Atomic: on any error nothing changes. */
    method StoreCandlePage(page: seq<ClosedCandle>, syncMs: int, start: int) returns (error: Option<StoreError>)
      requires Valid()
      modifies this
      ensures Valid()
      ensures match StorePage(old(View()), page, syncMs, start)
        case Stored(store) => error == None && View() == store
        case Rejected(e) => error == Some(e) && View() == old(View())
      ensures Written(old(View()), View())
      ensures error == Some(EmptyPage) <==> page == []
      ensures error == Some(NegativeSyncTime) <==> page != [] && syncMs < 0
      ensures error == Some(BadRequiredStart) <==>
        page != [] && syncMs >= 0 && (start < 0 || start % MINUTE_MS != 0)
      ensures error == Some(MixedMarkets) <==>
        && page != [] && syncMs >= 0 && start >= 0 && start % MINUTE_MS == 0
        && exists c :: c in page && (c.provider != page[0].provider || c.instrument != page[0].instrument)
      ensures error.None? ==> forall c :: c in page ==> Between(c, rows, MarketOf(page[0]), c.openMs, c.openMs)
      ensures if error.None? then Moved(rows, old(states), states, MarketOf(page[0]), syncMs, start)
              else View() == old(View())
    {
      NothingWritten(View());
      if page == [] {
        return Some(EmptyPage);
      }
      if syncMs < 0 {
        return Some(NegativeSyncTime);
      }
      if start < 0 || !Minute(start) {
        return Some(BadRequiredStart);
      }
      var market := MarketOf(page[0]);
      assert forall c :: c in page ==> exists i :: 0 <= i < |page| && page[i] == c;
      if exists i :: 0 <= i < |page| && MarketOf(page[i]) != market {
        return Some(MixedMarkets);
      }
      var staged := rows;
      for i := 0 to |page|
        invariant Inserted(rows, page) == Inserted(staged, page[i..])
      {
        var c := page[i];
        if KeyOf(c) !in staged {
          staged := staged[KeyOf(c) := c];
        } else if staged[KeyOf(c)] != c {
          return Some(SourceConflict);
        }
      }
      InsertedMeaning(rows, page);
      states := AdvanceSyncState(staged, states, market, syncMs, start);
      rows := staged;
      WrittenOnce(old(View()), page, syncMs, start, View());
      return None;
    }

    /** Scan the stored minutes from `start` in order, up to the first hole. */
    static method ScanPrefix(rows: map<Key, ClosedCandle>, m: Market, start: int) returns (prefix: Option<int>)
      requires Keyed(rows) && Minute(start)
      ensures prefix == if Has(rows, m, start) then Some(RunEnd(rows, m, start)) else None
    {
      hide Ascending;
      var times := Ascending(Times(rows, m, start, None));
      var expected := start;
      prefix := None;
      var i := 0;
      while i < |times| && times[i] == expected
        invariant 0 <= i <= |times| && Minute(expected) && start <= expected
        invariant if i == 0 then expected == start && prefix == None
                  else times[i - 1] == expected - MINUTE_MS && prefix == Some(expected - MINUTE_MS)
        invariant i > 0 ==> Has(rows, m, start)
        invariant Contiguous(rows, m, start, expected - MINUTE_MS)
      {
        assert Has(rows, m, times[i]) by {
          AscendingLists(Times(rows, m, start, None));
          assert times[i] in times;
        }
        ContiguousSnoc(rows, m, start, expected);
        NextMinute(expected, expected);
        prefix := Some(times[i]);
        expected := expected + MINUTE_MS;
        i := i + 1;
      }
      HoleAt(rows, m, start, times, i, expected);
      if i > 0 {
        RunEndUnique(rows, m, start, expected);
      }
    }

    static method AdvanceSyncState(rows: map<Key, ClosedCandle>, states: map<Market, SyncState>, m: Market, syncMs: int,
                                   start: int)
      returns (newStates: map<Market, SyncState>)
      requires Keyed(rows) && Minute(start)
      ensures newStates == Advanced(rows, states, m, syncMs, start)
      ensures Moved(rows, states, newStates, m, syncMs, start)
    {
      AdvancedMoves(rows, states, m, syncMs, start);
      if m in states && states[m].lastCompletedOpenMs + MINUTE_MS < start {
        return states;
      }
      var prefix := ScanPrefix(rows, m, start);
      if prefix.None? {
        return states;
      }
      var last := if m in states && states[m].lastCompletedOpenMs > prefix.value then states[m].lastCompletedOpenMs
                  else prefix.value;
      return states[m := SyncState(last, syncMs)];
    }
  }

  // ----- The watermark over any sequence of stores

  datatype Write = Write(page: seq<ClosedCandle>, syncMs: int, start: int)

  /** The table together with the required start at which each watermark was first created. */
  datatype History = History(store: Store, anchors: map<Market, int>)

  function Apply(h: History, w: Write): History {
    match StorePage(h.store, w.page, w.syncMs, w.start)
    case Rejected(_) => h
    case Stored(store) =>
      var m := MarketOf(w.page[0]);
      History(store, if m in store.states && m !in h.store.states then h.anchors[m := w.start] else h.anchors)
  }

  function ApplyAll(h: History, ws: seq<Write>): History {
    if ws == [] then h else Apply(ApplyAll(h, ws[..|ws| - 1]), ws[|ws| - 1])
  }

  /** Every minute from the anchor to the watermark is stored. */
  ghost predicate Anchored(h: History) {
    && Keyed(h.store.rows) && h.anchors.Keys == h.store.states.Keys
    && forall m :: m in h.store.states ==>
         && Minute(h.anchors[m]) && Minute(h.store.states[m].lastCompletedOpenMs)
         && Contiguous(h.store.rows, m, h.anchors[m], h.store.states[m].lastCompletedOpenMs)
  }

  /** Nothing stored is lost, no watermark moves back, no anchor moves. */
  ghost predicate Grows(a: History, b: History) {
    && (forall k :: k in a.store.rows ==> k in b.store.rows && b.store.rows[k] == a.store.rows[k])
    && (forall m :: m in a.store.states ==>
          && m in b.store.states
          && a.store.states[m].lastCompletedOpenMs <= b.store.states[m].lastCompletedOpenMs)
    && (forall m :: m in a.anchors ==> m in b.anchors && a.anchors[m] == b.anchors[m])
  }

  /** Two runs that meet or overlap cover the whole span. */
  lemma RunsJoin(rows: map<Key, ClosedCandle>, m: Market, a: int, b: int, c: int, d: int)
    requires Minute(a) && Minute(b) && Minute(c) && Minute(d)
    requires Contiguous(rows, m, a, b) && Contiguous(rows, m, c, d) && c <= b + MINUTE_MS
    ensures Contiguous(rows, m, a, if b > d then b else d)
  {
    forall t | a <= t <= (if b > d then b else d) && Minute(t) ensures Has(rows, m, t) {
      NextMinute(b, t);
    }
  }

  lemma ContiguousGrows(rows: map<Key, ClosedCandle>, more: map<Key, ClosedCandle>, m: Market, a: int, b: int)
    requires Contiguous(rows, m, a, b) && forall k :: k in rows ==> k in more
    ensures Contiguous(more, m, a, b)
  {
    forall t | a <= t <= b && Minute(t) ensures Has(more, m, t) {
      assert Has(rows, m, t);
    }
  }

  lemma ApplyKeeps(h: History, w: Write)
    requires Anchored(h)
    ensures Anchored(Apply(h, w)) && Grows(h, Apply(h, w))
  {
    hide Contiguous, RunEnd, Inserted, Has, Minute;
    var r := StorePage(h.store, w.page, w.syncMs, w.start);
    if r.Stored? {
      InsertedMeaning(h.store.rows, w.page);
      var m, rows, states := MarketOf(w.page[0]), r.store.rows, h.store.states;
      forall n | n in states ensures Contiguous(rows, n, h.anchors[n], states[n].lastCompletedOpenMs) {
        ContiguousGrows(h.store.rows, rows, n, h.anchors[n], states[n].lastCompletedOpenMs);
      }
      if r.store.states != states && m in states {
        RunsJoin(rows, m, h.anchors[m], states[m].lastCompletedOpenMs, w.start, RunEnd(rows, m, w.start));
      }
    }
  }

  /** Over any writes, with any required starts: the watermark never decreases, and every minute from
      the start it was first created at up to it is stored. */
  lemma {:induction false} WatermarkHonest(h: History, ws: seq<Write>)
    requires Anchored(h)
    ensures Anchored(ApplyAll(h, ws)) && Grows(h, ApplyAll(h, ws))
  {
    if ws != [] {
      var before := ApplyAll(h, ws[..|ws| - 1]);
      WatermarkHonest(h, ws[..|ws| - 1]);
      ApplyKeeps(before, ws[|ws| - 1]);
    }
  }

  /** From the empty table in particular. */
  lemma WatermarkHonestFromEmpty(ws: seq<Write>, n: nat)
    requires n <= |ws|
    ensures var empty := History(Store(map[], map[]), map[]);
      Anchored(ApplyAll(empty, ws)) && Grows(ApplyAll(empty, ws[..n]), ApplyAll(empty, ws))
  {
    hide ApplyAll, Contiguous;
    var empty := History(Store(map[], map[]), map[]);
    WatermarkHonest(empty, ws[..n]);
    WatermarkHonest(ApplyAll(empty, ws[..n]), ws[n..]);
    ApplyAllConcat(empty, ws[..n], ws[n..]);
    assert ws == ws[..n] + ws[n..];
  }

  lemma {:induction false} ApplyAllConcat(h: History, a: seq<Write>, b: seq<Write>)
    ensures ApplyAll(h, a + b) == ApplyAll(ApplyAll(h, a), b)
  {
    if b == [] {
      assert a + b == a;
    } else {
      ApplyAllConcat(h, a, b[..|b| - 1]);
      assert (a + b)[..|a + b| - 1] == a + b[..|b| - 1];
    }
  }

  // ----- What a table has become by some writes

  ghost predicate Leads(a: Store, ws: seq<Write>, b: Store) {
    ApplyAll(History(a, map[]), ws).store == b
  }

  /** Some sequence of page stores, of any pages with any required starts, turns one table into the other. */
  ghost predicate Written(a: Store, b: Store) {
    exists ws: seq<Write> :: Leads(a, ws, b)
  }

  lemma NothingWritten(a: Store)
    ensures Written(a, a)
  {
    assert Leads(a, [], a);
  }

  lemma {:induction false} StoresAlike(h: History, g: History, ws: seq<Write>)
    requires h.store == g.store
    ensures ApplyAll(h, ws).store == ApplyAll(g, ws).store
  {
    if ws != [] {
      StoresAlike(h, g, ws[..|ws| - 1]);
    }
  }

  lemma WrittenOn(a: Store, b: Store, c: Store)
    requires Written(a, b) && Written(b, c)
    ensures Written(a, c)
  {
    var ws: seq<Write> :| Leads(a, ws, b);
    var more: seq<Write> :| Leads(b, more, c);
    ApplyAllConcat(History(a, map[]), ws, more);
    StoresAlike(ApplyAll(History(a, map[]), ws), History(b, map[]), more);
    assert Leads(a, ws + more, c);
  }

  lemma WrittenOnce(a: Store, page: seq<ClosedCandle>, syncMs: int, start: int, b: Store)
    requires b == match StorePage(a, page, syncMs, start) case Stored(store) => store case Rejected(_) => a
    ensures Written(a, b)
  {
    hide StorePage;
    var h, w := History(a, map[]), Write(page, syncMs, start);
    assert [w][..0] == [];
    assert ApplyAll(h, [w]) == Apply(h, w);
    assert Leads(a, [w], b);
  }

  /** Whatever was written, the watermarks have not fallen and are still backed from their anchors. */
  lemma WrittenKeepsHonest(h: History, b: Store) returns (g: History)
    requires Anchored(h) && Written(h.store, b)
    ensures g.store == b && Anchored(g) && Grows(h, g)
  {
    var ws: seq<Write> :| Leads(h.store, ws, b);
    g := ApplyAll(h, ws);
    StoresAlike(h, History(h.store, map[]), ws);
    WatermarkHonest(h, ws);
  }
}
