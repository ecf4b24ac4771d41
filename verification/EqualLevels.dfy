/** Equal highs and lows: neighbouring pivots of one kind closer than a fraction of the average true range. */
module EqualLevels {
  import opened Sequences
  import opened Candles
  import opened Averages
  import opened Pivots
  import opened Swings
  import SwingLaws

  const ATR_LENGTH := 200

  /** `High` for an equal high (bearish), `Low` for an equal low (bullish). */
  datatype EqualEvent = EqualEvent(kind: Direction, level: real, previous: real, event: nat, known: nat)

  /** The level of the latest pivot of a kind confirmed by the first `n` bars. */
  function LatestLevel(turns: seq<Option<Point>>, d: Direction, n: nat): Option<real>
    requires n <= |turns|
  {
    var c := LatestTurn(turns, d, n);
    if c.None? then None else Some(turns[c.value].value.level)
  }

  /** The pivot confirmed at bar `i` against the previous one of its kind. */
  function EqualAt(turns: seq<Option<Point>>, margins: seq<Option<real>>, i: nat): Option<EqualEvent>
    requires i < |turns| == |margins|
  {
    if turns[i].None? then None
    else
      var p := turns[i].value;
      var previous := LatestLevel(turns, p.direction, i);
      if previous.Some? && margins[i].Some? && Abs(previous.value - p.level) < margins[i].value
      then Some(EqualEvent(p.direction, p.level, previous.value, p.index, i)) else None
  }

  function EqualEvents(turns: seq<Option<Point>>, margins: seq<Option<real>>, n: nat): seq<EqualEvent>
    requires n <= |turns| == |margins|
  {
    if n == 0 then []
    else
      var e, before := EqualAt(turns, margins, n - 1), EqualEvents(turns, margins, n - 1);
      if e.None? then before else before + [e.value]
  }

  method FindEqualEvents(bars: seq<Bar>, confirmation: nat, threshold: real) returns (events: seq<EqualEvent>)
    requires confirmation >= 1
    ensures events == EqualEvents(Turns(bars, confirmation), Margins(bars, ATR_LENGTH, threshold), |bars|)
  {
    var margins := KnownMargins(bars, ATR_LENGTH, threshold);
    events := ScanTurns(bars, confirmation, margins);
  }

  /** What the loop carries: the leg, the last level of each kind and the events. */
  datatype Scan = Scan(leg: Direction, previousHigh: Option<real>, previousLow: Option<real>, events: seq<EqualEvent>)

  ghost predicate UpTo(s: Scan, turns: seq<Option<Point>>, legs: seq<Direction>, margins: seq<Option<real>>, n: nat)
    requires n <= |turns| == |margins| && |legs| == |turns| + 1
  {
    && s.leg == legs[n] && s.events == EqualEvents(turns, margins, n)
    && s.previousHigh == LatestLevel(turns, High, n) && s.previousLow == LatestLevel(turns, Low, n)
  }

  method Turned(s: Scan, p: Point, margin: Option<real>, i: nat, ghost turns: seq<Option<Point>>,
                ghost legs: seq<Direction>, ghost margins: seq<Option<real>>)
    returns (after: Scan)
    requires i < |turns| == |margins| && |legs| == |turns| + 1 && UpTo(s, turns, legs, margins, i)
    requires turns[i] == Some(p) && legs[i + 1] == p.direction && margin == margins[i]
    ensures UpTo(after, turns, legs, margins, i + 1)
  {
    var previous := if p.direction == Low then s.previousLow else s.previousHigh;
    var events := s.events;
    if previous.Some? && margin.Some? && Abs(previous.value - p.level) < margin.value {
      events := events + [EqualEvent(p.direction, p.level, previous.value, p.index, i)];
    }
    if p.direction == Low {
      after := Scan(Low, s.previousHigh, Some(p.level), events);
    } else {
      after := Scan(High, Some(p.level), s.previousLow, events);
    }
  }

  method ScanTurns(bars: seq<Bar>, confirmation: nat, margins: seq<Option<real>>) returns (events: seq<EqualEvent>)
    requires confirmation >= 1 && |margins| == |bars|
    ensures events == EqualEvents(Turns(bars, confirmation), margins, |bars|)
  {
    ghost var turns, legs := Turns(bars, confirmation), Legs(bars, confirmation);
    NothingEarly(bars, confirmation, margins, if |bars| < confirmation then |bars| else confirmation);
    if |bars| < confirmation {
      return [];
    }
    var s := Scan(High, None, None, []);
    for i := confirmation to |bars|
      invariant UpTo(s, turns, legs, margins, i)
    {
      var next := NextLeg(bars, confirmation, s.leg, i);
      if next != s.leg {
        s := Turned(s, Point(next, i - confirmation, LevelOf(bars[i - confirmation], next)), margins[i], i, turns, legs,
                    margins);
      }
    }
    events := s.events;
  }

  /** Nothing turns before `confirmation` bars are there. */
  lemma {:induction false} NothingEarly(bars: seq<Bar>, confirmation: nat, margins: seq<Option<real>>, n: nat)
    requires confirmation >= 1 && |margins| == |bars| && n <= confirmation && n <= |bars|
    ensures var turns := Turns(bars, confirmation);
      && EqualEvents(turns, margins, n) == [] && Leg(bars, confirmation, n) == High
      && LatestLevel(turns, High, n) == None && LatestLevel(turns, Low, n) == None
  {
    if n > 0 {
      NothingEarly(bars, confirmation, margins, n - 1);
    }
  }

  // ----- Agreement with the swing events of the same size

  /** An equal high or low stands on a turn and names the level of the turn of its kind before it. */
  ghost predicate OnTurns(turns: seq<Option<Point>>, margins: seq<Option<real>>, e: EqualEvent)
    requires |turns| == |margins|
  {
    && e.known < |turns| && turns[e.known] == Some(Point(e.kind, e.event, e.level))
    && LatestLevel(turns, e.kind, e.known) == Some(e.previous)
    && margins[e.known].Some? && Abs(e.previous - e.level) < margins[e.known].value
  }

  lemma {:induction false} EqualEventsExact(turns: seq<Option<Point>>, margins: seq<Option<real>>, n: nat)
    requires n <= |turns| == |margins|
    ensures var events := EqualEvents(turns, margins, n);
      && (forall e :: e in events <==> e.known < n && OnTurns(turns, margins, e))
      && (forall j, k :: 0 <= j < k < |events| ==> events[j].known < events[k].known)
  {
    if n > 0 {
      EqualEventsExact(turns, margins, n - 1);
      var e := EqualAt(turns, margins, n - 1);
      forall x: EqualEvent ensures x.known == n - 1 && OnTurns(turns, margins, x) <==> e == Some(x) {
      }
      var before := EqualEvents(turns, margins, n - 1);
      forall k | 0 <= k < |before| ensures before[k].known < n - 1 {
        assert before[k] in before;
      }
    }
  }

  /** With equal sizes every equal high or low coincides with a confirmed swing pivot, and names the level
      of the swing pivot of its kind confirmed before. */
  lemma EqualsAreSwings(bars: seq<Bar>, size: nat, threshold: real, e: EqualEvent)
    requires size >= 1 && e in EqualEvents(Turns(bars, size), Margins(bars, ATR_LENGTH, threshold), |bars|)
    ensures e.known < |bars|
    ensures var swings, before := Events(bars, Turns(bars, size), |bars|), Events(bars, Turns(bars, size), e.known);
      && before < swings
      && var pivot, previous := swings[|before|], LastPivot(before, e.kind);
      && !pivot.broken && pivot.kind == e.kind && pivot.level == e.level && pivot.event == e.event
      && pivot.known == e.known
      && previous.Some? && previous.value.level == e.previous
  {
    var turns, margins := Turns(bars, size), Margins(bars, ATR_LENGTH, threshold);
    EqualEventsExact(turns, margins, |bars|);
    assert OnTurns(turns, margins, e);
    SwingLaws.TurnIsReported(bars, turns, e.known, |bars|);
    TurnsTurn(bars, size);
    SwingLaws.StreamKeeps(bars, turns, Legs(bars, size), e.known);
  }

  // ----- No look-ahead

  lemma {:induction false} EqualEventsAreCausal(turns: seq<Option<Point>>, more: seq<Option<Point>>,
                                                margins: seq<Option<real>>, longer: seq<Option<real>>, n: nat)
    requires n <= |turns| == |margins| && |more| == |longer| && turns <= more && margins <= longer
    ensures EqualEvents(turns, margins, n) == EqualEvents(more, longer, n)
  {
    hide LatestTurn;
    if n > 0 {
      EqualEventsAreCausal(turns, more, margins, longer, n - 1);
      SwingLaws.LatestTurnIsCausal(turns, more, High, n - 1);
      SwingLaws.LatestTurnIsCausal(turns, more, Low, n - 1);
    }
  }

  lemma {:induction false} EqualEventsKnownBy(turns: seq<Option<Point>>, margins: seq<Option<real>>, n: nat, m: nat,
                                              known: EqualEvent -> bool)
    requires n <= m <= |turns| == |margins| && forall e :: known(e) <==> e.known < n
    ensures EqualEvents(turns, margins, n) == Filter(known, EqualEvents(turns, margins, m))
    decreases m
  {
    if m == n {
      EqualEventsExact(turns, margins, n);
      FilterAll(known, EqualEvents(turns, margins, n));
    } else {
      EqualEventsKnownBy(turns, margins, n, m - 1, known);
      var e := EqualAt(turns, margins, m - 1);
      if e.Some? {
        FilterNone(known, [e.value]);
        FilterConcat(known, EqualEvents(turns, margins, m - 1), [e.value]);
      }
    }
  }

  /** The equal highs and lows of a prefix are exactly those of the whole series known by its end. */
  lemma EqualEventsOfPrefix(bars: seq<Bar>, confirmation: nat, threshold: real, n: nat)
    requires confirmation >= 1 && n <= |bars|
    ensures EqualEvents(Turns(bars[..n], confirmation), Margins(bars[..n], ATR_LENGTH, threshold), n)
         == Filter((e: EqualEvent) => e.known < n,
                   EqualEvents(Turns(bars, confirmation), Margins(bars, ATR_LENGTH, threshold), |bars|))
  {
    SwingLaws.TurnsAreCausal(bars[..n], bars, confirmation);
    MarginsAreCausal(bars[..n], bars, ATR_LENGTH, threshold);
    EqualEventsAreCausal(Turns(bars[..n], confirmation), Turns(bars, confirmation),
                         Margins(bars[..n], ATR_LENGTH, threshold), Margins(bars, ATR_LENGTH, threshold), n);
    EqualEventsKnownBy(Turns(bars, confirmation), Margins(bars, ATR_LENGTH, threshold), n, |bars|,
                       (e: EqualEvent) => e.known < n);
  }
}
