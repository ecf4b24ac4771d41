/** Market structure: closes through the selected zigzag points, as shifts (MSS) and breaks (BOS). */
module MarketStructure {
  import opened Sequences
  import opened Candles
  import opened Pivots

  datatype Kind = MSS | BOS

  /** A close at bar `index` beyond `level`; `High` is bullish. */
  datatype Event = Event(kind: Kind, direction: Direction, level: real, index: nat)

  /** The newest high and low, leaving out the newest point of all. */
  function Selected(points: seq<Point>): (r: (Option<Point>, Option<Point>))
    ensures r.0.Some? ==> r.0.value in points && r.0.value.direction == High
    ensures r.1.Some? ==> r.1.value in points && r.1.value.direction == Low
  {
    if |points| < 3 then (None, None)
    else
      var high := points[if points[2].direction == High then 2 else 1];
      var low := points[if points[2].direction == Low then 2 else 1];
      (if high.direction == High then Some(high) else None, if low.direction == Low then Some(low) else None)
  }

  /** On an alternating list of three points or more both exist: they are the second and the third. */
  lemma BothSelected(points: seq<Point>)
    requires Alternating(points)
    ensures |points| >= 3 ==> Selected(points).0.Some? && Selected(points).1.Some?
    ensures |points| >= 3 ==> {Selected(points).0.value, Selected(points).1.value} == {points[1], points[2]}
  {
    if |points| >= 3 {
      assert points[1].direction != points[2].direction;
    }
  }

  // ----- Events from the history alone

  function Trend(history: seq<Event>): Option<Direction> {
    if history == [] then None else Some(history[|history| - 1].direction)
  }

  /** The level of the latest event of a kind and direction. */
  function Latest(history: seq<Event>, kind: Kind, d: Direction): Option<real> {
    if history == [] then None
    else
      var last := history[|history| - 1];
      if last.kind == kind && last.direction == d then Some(last.level) else Latest(history[..|history| - 1], kind, d)
  }

  predicate Broken(p: Option<Point>, close: real) {
    p.Some? && Exceeds(p.value.direction, close, p.value.level)
  }

  /** A level neither the latest shift nor the latest break of its direction used. */
  predicate NewLevel(history: seq<Event>, p: Point) {
    Latest(history, MSS, p.direction) != Some(p.level) && Latest(history, BOS, p.direction) != Some(p.level)
  }

  function EventAt(high: Option<Point>, low: Option<Point>, close: real, history: seq<Event>, i: nat): Option<Event> {
    if Broken(high, close) && Trend(history) != Some(High) then Some(Event(MSS, High, high.value.level, i))
    else if Broken(low, close) && Trend(history) != Some(Low) then Some(Event(MSS, Low, low.value.level, i))
    else if Trend(history) == Some(High) && Broken(high, close) && NewLevel(history, high.value)
      then Some(Event(BOS, High, high.value.level, i))
    else if Trend(history) == Some(Low) && Broken(low, close) && NewLevel(history, low.value)
      then Some(Event(BOS, Low, low.value.level, i))
    else None
  }

  function Extended(history: seq<Event>, e: Option<Event>): seq<Event> {
    if e.None? then history else history + [e.value]
  }

  /** The zigzag at each bar. */
  function Zigzags(bars: seq<Bar>, left: nat): (r: seq<seq<Point>>)
    ensures |r| == |bars| && forall i :: 0 <= i < |bars| ==> r[i] == Zigzag(Points(bars, left, i + 1))
  {
    seq(|bars|, i requires 0 <= i < |bars| => Zigzag(Points(bars, left, i + 1)))
  }

  /** The events of the first `n` bars, from the zigzag at each. */
  function Events(bars: seq<Bar>, zigzags: seq<seq<Point>>, n: nat): seq<Event>
    requires n <= |bars| == |zigzags|
  {
    if n == 0 then []
    else
      var (high, low) := Selected(zigzags[n - 1]);
      var history := Events(bars, zigzags, n - 1);
      Extended(history, EventAt(high, low, bars[n - 1].close, history, n - 1))
  }

  // ----- The loop that remembers a trend and the latest levels

  datatype Memory = Memory(trend: int, mss: map<Direction, real>, bos: map<Direction, real>, events: seq<Event>)

  function Recall(levels: map<Direction, real>, d: Direction): Option<real> {
    if d in levels then Some(levels[d]) else None
  }

  /** The remembered values are those of the history. */
  predicate Remembers(memory: Memory) {
    && memory.trend == (match Trend(memory.events) case None => 0 case Some(High) => 1 case Some(Low) => -1)
    && Recall(memory.mss, High) == Latest(memory.events, MSS, High)
    && Recall(memory.mss, Low) == Latest(memory.events, MSS, Low)
    && Recall(memory.bos, High) == Latest(memory.events, BOS, High)
    && Recall(memory.bos, Low) == Latest(memory.events, BOS, Low)
  }

  lemma LatestAppend(history: seq<Event>, e: Event, kind: Kind, d: Direction)
    ensures Latest(history + [e], kind, d) ==
      if e.kind == kind && e.direction == d then Some(e.level) else Latest(history, kind, d)
  {
    assert (history + [e])[..|history|] == history;
  }

  /** Remember one more event. */
  function Noted(memory: Memory, e: Event): Memory {
    Memory(if e.kind == BOS then memory.trend else if e.direction == High then 1 else -1,
           if e.kind == MSS then memory.mss[e.direction := e.level] else memory.mss,
           if e.kind == BOS then memory.bos[e.direction := e.level] else memory.bos,
           memory.events + [e])
  }

  lemma NotedRemembers(memory: Memory, e: Event)
    requires Remembers(memory) && (e.kind == BOS ==> Trend(memory.events) == Some(e.direction))
    ensures Remembers(Noted(memory, e))
  {
    LatestAppend(memory.events, e, MSS, High);
    LatestAppend(memory.events, e, MSS, Low);
    LatestAppend(memory.events, e, BOS, High);
    LatestAppend(memory.events, e, BOS, Low);
  }

  /** One close against the remembered values. */
  method Judge(memory: Memory, high: Option<Point>, low: Option<Point>, close: real, i: nat) returns (after: Memory)
    requires Remembers(memory) && (high.Some? ==> high.value.direction == High)
    requires low.Some? ==> low.value.direction == Low
    ensures Remembers(after) && after.events == Extended(memory.events, EventAt(high, low, close, memory.events, i))
  {
    var shiftUp := high.Some? && close > high.value.level && memory.trend < 1;
    var shiftDown := low.Some? && close < low.value.level && memory.trend > -1;
    var breakUp := memory.trend == 1 && high.Some? && close > high.value.level
                   && Recall(memory.mss, High) != Some(high.value.level)
                   && Recall(memory.bos, High) != Some(high.value.level);
    var breakDown := memory.trend == -1 && low.Some? && close < low.value.level
                     && Recall(memory.mss, Low) != Some(low.value.level)
                     && Recall(memory.bos, Low) != Some(low.value.level);
    if shiftUp {
      after := Note(memory, Event(MSS, High, high.value.level, i));
    } else if shiftDown {
      after := Note(memory, Event(MSS, Low, low.value.level, i));
    } else if breakUp {
      after := Note(memory, Event(BOS, High, high.value.level, i));
    } else if breakDown {
      after := Note(memory, Event(BOS, Low, low.value.level, i));
    } else {
      after := memory;
    }
  }

  method Note(memory: Memory, e: Event) returns (after: Memory)
    requires Remembers(memory) && (e.kind == BOS ==> Trend(memory.events) == Some(e.direction))
    ensures Remembers(after) && after.events == memory.events + [e]
  {
    NotedRemembers(memory, e);
    if e.kind == MSS {
      after := memory.(trend := if e.direction == High then 1 else -1, mss := memory.mss[e.direction := e.level],
                       events := memory.events + [e]);
    } else {
      after := memory.(bos := memory.bos[e.direction := e.level], events := memory.events + [e]);
    }
  }

  method UpdateAll(zigzag: ZigzagList, bars: seq<Bar>, directions: seq<Direction>, i: nat, ghost ps: seq<Point>,
                   ghost now: seq<Point>)
    requires i < |bars| && (directions != [] ==> i > 0) && zigzag.points == Zigzag(ps)
    requires |now| == |directions| && forall k :: 0 <= k < |now| ==> now[k] == PointAt(bars, directions[k], i)
    modifies zigzag
    ensures zigzag.points == Zigzag(ps + now)
  {
    hide Zigzag, Push;
    assert ps + now[..0] == ps;
    for k := 0 to |directions|
      invariant zigzag.points == Zigzag(ps + now[..k])
    {
      var d := directions[k];
      var point := Point(d, i - 1, if d == High then bars[i - 1].high else bars[i - 1].low);
      var changed := zigzag.Update(point);
      ZigzagNext(ps, now, k);
    }
    assert now[..|now|] == now;
  }

  lemma ZigzagNext(ps: seq<Point>, now: seq<Point>, k: nat)
    requires k < |now|
    ensures Zigzag(ps + now[..k + 1]) == Push(Zigzag(ps + now[..k]), now[k])
  {
    hide Push;
    var longer := ps + now[..k + 1];
    assert longer[..|longer| - 1] == ps + now[..k] && longer[|longer| - 1] == now[k];
  }

  method MarketEvents(bars: seq<Bar>, left: nat) returns (events: seq<Event>)
    requires left >= 1
    ensures events == Events(bars, Zigzags(bars, left), |bars|)
  {
    var groups := CandidateMap(bars, left);
    var zigzag := new ZigzagList();
    var memory := Memory(0, map[], map[], []);
    ghost var zigzags := Zigzags(bars, left);
    for i := 0 to |bars|
      invariant zigzag.points == Zigzag(Points(bars, left, i))
      invariant Remembers(memory) && memory.events == Events(bars, zigzags, i)
    {
      var directions := if i in groups then groups[i] else [];
      UpdateAll(zigzag, bars, directions, i, Points(bars, left, i), PointsAt(bars, left, i));
      var (high, low) := Selected(zigzag.points);
      memory := Judge(memory, high, low, bars[i].close, i);
    }
    events := memory.events;
  }

  // ----- What every stream of events keeps

  /** A stream opens with a shift; an event is a shift exactly when it turns against the one before it,
      and a break never repeats the latest level of a shift or a break of its direction. */
  ghost predicate Grammatical(events: seq<Event>) {
    forall k :: 0 <= k < |events| ==>
      && (events[k].kind == MSS <==> Trend(events[..k]) != Some(events[k].direction))
      && (events[k].kind == BOS ==>
            && Latest(events[..k], MSS, events[k].direction) != Some(events[k].level)
            && Latest(events[..k], BOS, events[k].direction) != Some(events[k].level))
  }

  /** One event a bar at most, each a close strictly beyond the level of a point of that bar's zigzag. */
  ghost predicate Grounded(bars: seq<Bar>, zigzags: seq<seq<Point>>, events: seq<Event>, n: nat)
    requires n <= |bars| == |zigzags|
  {
    && (forall k :: 0 <= k < |events| ==>
          && events[k].index < n && Exceeds(events[k].direction, bars[events[k].index].close, events[k].level)
          && OnLevel(zigzags[events[k].index], events[k].direction, events[k].level))
    && (forall j, k :: 0 <= j < k < |events| ==> events[j].index < events[k].index)
  }

  ghost predicate OnLevel(points: seq<Point>, d: Direction, level: real) {
    exists k :: 0 <= k < |points| && points[k].direction == d && points[k].level == level
  }

  lemma OnLevelOf(points: seq<Point>, p: Point)
    requires p in points
    ensures OnLevel(points, p.direction, p.level)
  {
    var k :| 0 <= k < |points| && points[k] == p;
    assert points[k].level == p.level;
  }

  lemma GrammarAppend(events: seq<Event>, e: Event)
    requires Grammatical(events)
    requires e.kind == MSS <==> Trend(events) != Some(e.direction)
    requires e.kind == BOS ==>
      Latest(events, MSS, e.direction) != Some(e.level) && Latest(events, BOS, e.direction) != Some(e.level)
    ensures Grammatical(events + [e])
  {
    var longer := events + [e];
    forall k | 0 <= k < |longer|
      ensures longer[..k] == events[..k]
    {
    }
    assert events[..|events|] == events;
  }

  lemma EventIsDue(high: Option<Point>, low: Option<Point>, close: real, history: seq<Event>, i: nat, e: Event)
    requires (high.Some? ==> high.value.direction == High) && (low.Some? ==> low.value.direction == Low)
    requires EventAt(high, low, close, history, i) == Some(e)
    ensures e.index == i && Exceeds(e.direction, close, e.level)
    ensures var p := if e.direction == High then high else low; p.Some? && p.value.level == e.level
    ensures e.kind == MSS <==> Trend(history) != Some(e.direction)
    ensures e.kind == BOS ==>
      Latest(history, MSS, e.direction) != Some(e.level) && Latest(history, BOS, e.direction) != Some(e.level)
  {
  }

  lemma GroundedAppend(bars: seq<Bar>, zigzags: seq<seq<Point>>, events: seq<Event>, e: Event, n: nat)
    requires n < |bars| == |zigzags| && Grounded(bars, zigzags, events, n) && e.index == n
    requires Exceeds(e.direction, bars[n].close, e.level) && OnLevel(zigzags[n], e.direction, e.level)
    ensures Grounded(bars, zigzags, events + [e], n + 1)
  {
  }

  lemma StreamStep(bars: seq<Bar>, zigzags: seq<seq<Point>>, history: seq<Event>, e: Option<Event>, n: nat)
    requires n < |bars| == |zigzags| && Grammatical(history) && Grounded(bars, zigzags, history, n)
    requires e == EventAt(Selected(zigzags[n]).0, Selected(zigzags[n]).1, bars[n].close, history, n)
    ensures Grammatical(Extended(history, e)) && Grounded(bars, zigzags, Extended(history, e), n + 1)
  {
    if e.Some? {
      var (high, low) := Selected(zigzags[n]);
      EventIsDue(high, low, bars[n].close, history, n, e.value);
      OnLevelOf(zigzags[n], if e.value.direction == High then high.value else low.value);
      GrammarAppend(history, e.value);
      GroundedAppend(bars, zigzags, history, e.value, n);
    }
  }

  lemma {:induction false} StreamGrammar(bars: seq<Bar>, zigzags: seq<seq<Point>>, n: nat)
    requires n <= |bars| == |zigzags|
    ensures Grammatical(Events(bars, zigzags, n)) && Grounded(bars, zigzags, Events(bars, zigzags, n), n)
  {
    hide EventAt, Extended, OnLevel, Exceeds;
    if n > 0 {
      StreamGrammar(bars, zigzags, n - 1);
      var history := Events(bars, zigzags, n - 1);
      var (high, low) := Selected(zigzags[n - 1]);
      StreamStep(bars, zigzags, history, EventAt(high, low, bars[n - 1].close, history, n - 1), n - 1);
    }
  }

  /** Shifts alternate: between two shifts of one direction lies a shift of the other. */
  lemma {:induction false} ShiftsAlternate(events: seq<Event>, j: nat, k: nat)
    requires Grammatical(events) && j < k < |events| && events[j].kind == MSS && events[k].kind == MSS
    requires forall i :: j < i < k ==> events[i].kind == BOS
    ensures events[j].direction != events[k].direction
  {
    RunDirection(events, j, k - 1);
  }

  /** Breaks take the direction of the shift before them. */
  lemma {:induction false} RunDirection(events: seq<Event>, j: nat, k: nat)
    requires Grammatical(events) && j <= k < |events| && forall i :: j < i <= k ==> events[i].kind == BOS
    ensures events[k].direction == events[j].direction
  {
    if j < k {
      RunDirection(events, j, k - 1);
      assert events[k].kind == BOS;
    }
  }

  // ----- No look-ahead

  lemma {:induction false} EventsAreCausal(bars: seq<Bar>, longer: seq<Bar>, zigzags: seq<seq<Point>>,
                                           more: seq<seq<Point>>, n: nat)
    requires n <= |bars| == |zigzags| && |longer| == |more| && bars <= longer && zigzags <= more
    ensures Events(bars, zigzags, n) == Events(longer, more, n)
  {
    if n > 0 {
      EventsAreCausal(bars, longer, zigzags, more, n - 1);
    }
  }

  lemma ZigzagsAreCausal(bars: seq<Bar>, longer: seq<Bar>, left: nat)
    requires bars <= longer
    ensures Zigzags(bars, left) <= Zigzags(longer, left)
  {
    hide Points, Zigzag, Zigzags;
    forall i | 0 <= i < |bars| ensures Zigzags(bars, left)[i] == Zigzags(longer, left)[i] {
      PointsAreCausal(bars, longer, left, i + 1);
    }
  }

  /** A close beyond a selected point against the trend, or along it at a level not just used. */
  predicate Due(p: Option<Point>, d: Direction, close: real, history: seq<Event>) {
    Broken(p, close) && (Trend(history) != Some(d) || NewLevel(history, p.value))
  }

  ghost predicate DueAt(bars: seq<Bar>, zigzags: seq<seq<Point>>, i: nat)
    requires i < |bars| == |zigzags|
  {
    var history := Events(bars, zigzags, i);
    Due(Selected(zigzags[i]).0, High, bars[i].close, history) || Due(Selected(zigzags[i]).1, Low, bars[i].close,
                                                                     history)
  }

  ghost predicate Happens(events: seq<Event>, i: nat) {
    exists k :: 0 <= k < |events| && events[k].index == i
  }

  /** What bar `i` adds: an event exactly if one is due. */
  lemma EventOfBar(bars: seq<Bar>, zigzags: seq<seq<Point>>, i: nat) returns (now: Option<Event>)
    requires i < |bars| == |zigzags|
    ensures Events(bars, zigzags, i + 1) == Extended(Events(bars, zigzags, i), now)
    ensures now.Some? ==> now.value.index == i
    ensures now.Some? <==> DueAt(bars, zigzags, i)
  {
    hide Trend, Latest, NewLevel;
    now := EventAt(Selected(zigzags[i]).0, Selected(zigzags[i]).1, bars[i].close, Events(bars, zigzags, i), i);
  }

  lemma HappensStep(events: seq<Event>, now: Option<Event>, n: nat, i: nat)
    requires now.Some? ==> now.value.index == n
    ensures Happens(Extended(events, now), i) <==> Happens(events, i) || (i == n && now.Some?)
  {
    var after := Extended(events, now);
    if now.Some? {
      assert after[|events|].index == n;
      assert forall k :: 0 <= k < |events| ==> after[k] == events[k];
    }
  }

  lemma NothingHappens(bars: seq<Bar>, zigzags: seq<seq<Point>>)
    requires |bars| == |zigzags|
    ensures Events(bars, zigzags, 0) == []
  {
  }

  /** A bar has an event exactly if one is due there. */
  lemma {:induction false} EventsExact(bars: seq<Bar>, zigzags: seq<seq<Point>>, n: nat)
    requires n <= |bars| == |zigzags|
    ensures forall i :: 0 <= i < n ==> (Happens(Events(bars, zigzags, n), i) <==> DueAt(bars, zigzags, i))
    ensures forall i :: n <= i ==> !Happens(Events(bars, zigzags, n), i)
  {
    hide DueAt, Events, Extended;
    if n > 0 {
      EventsExact(bars, zigzags, n - 1);
      var before := Events(bars, zigzags, n - 1);
      var now := EventOfBar(bars, zigzags, n - 1);
      var after := Extended(before, now);
      forall i: nat ensures Happens(after, i) <==> Happens(before, i) || (i == n - 1 && now.Some?) {
        HappensStep(before, now, n - 1, i);
      }
    } else {
      NothingHappens(bars, zigzags);
    }
  }

  lemma KnownAll(bars: seq<Bar>, zigzags: seq<seq<Point>>, n: nat, known: Event -> bool)
    requires n <= |bars| == |zigzags| && forall e :: known(e) <==> e.index < n
    ensures Filter(known, Events(bars, zigzags, n)) == Events(bars, zigzags, n)
  {
    hide Events, Filter, Grammatical;
    StreamGrammar(bars, zigzags, n);
    var events := Events(bars, zigzags, n);
    FilterAll(known, events);
  }

  lemma LaterUnknown(known: Event -> bool, events: seq<Event>, now: Option<Event>, n: nat, i: nat)
    requires (forall e :: known(e) <==> e.index < n) && n <= i && (now.Some? ==> now.value.index == i)
    ensures Filter(known, Extended(events, now)) == Filter(known, events)
  {
    if now.Some? {
      FilterNone(known, [now.value]);
      FilterConcat(known, events, [now.value]);
    }
  }

  lemma {:induction false} EventsKnownBy(bars: seq<Bar>, zigzags: seq<seq<Point>>, n: nat, m: nat, known: Event -> bool)
    requires n <= m <= |bars| == |zigzags| && forall e :: known(e) <==> e.index < n
    ensures Events(bars, zigzags, n) == Filter(known, Events(bars, zigzags, m))
    decreases m
  {
    hide EventAt, Selected, Filter, Events;
    if m == n {
      KnownAll(bars, zigzags, n, known);
    } else {
      var last: nat := m - 1;
      EventsKnownBy(bars, zigzags, n, last, known);
      var now := EventOfBar(bars, zigzags, last);
      LaterUnknown(known, Events(bars, zigzags, last), now, n, last);
    }
  }

  /** The events of a prefix are exactly the events of the whole series known by its end. */
  lemma EventsOfPrefix(bars: seq<Bar>, left: nat, n: nat)
    requires n <= |bars|
    ensures Events(bars[..n], Zigzags(bars[..n], left), n)
         == Filter((e: Event) => e.index < n, Events(bars, Zigzags(bars, left), |bars|))
  {
    ZigzagsAreCausal(bars[..n], bars, left);
    EventsAreCausal(bars[..n], bars, Zigzags(bars[..n], left), Zigzags(bars, left), n);
    EventsKnownBy(bars, Zigzags(bars, left), n, |bars|, (e: Event) => e.index < n);
  }
}
