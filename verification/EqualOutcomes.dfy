/** The equal highs and lows of a series from its prices. */
module EqualOutcomes {
  import opened Sequences
  import opened Candles
  import opened Averages
  import opened Pivots
  import opened Swings
  import opened SwingOutcomes
  import opened EqualLevels

  /** The event names the turn of its bar and the last one of its kind before it, whose levels are less than the margin
      apart. */
  ghost predicate Equals(turns: seq<Option<Point>>, margins: seq<Option<real>>, e: EqualEvent)
    requires |turns| == |margins|
  {
    && e.known < |turns| && turns[e.known] == Some(Point(e.kind, e.event, e.level))
    && margins[e.known].Some? && -margins[e.known].value < e.level - e.previous < margins[e.known].value
    && exists j: nat ::
         && j < e.known && turns[j].Some? && turns[j].value.direction == e.kind && turns[j].value.level == e.previous
         && forall k :: j < k < e.known && turns[k].Some? ==> turns[k].value.direction != e.kind
  }

  lemma OnTurnsOutcome(turns: seq<Option<Point>>, margins: seq<Option<real>>, e: EqualEvent)
    requires |turns| == |margins|
    ensures OnTurns(turns, margins, e) <==> Equals(turns, margins, e)
  {
    if e.known < |turns| {
      LatestOutcome(turns, e.kind, e.known);
    }
  }

  /** The equal highs and lows of a series: each turn whose level is less than a fraction of the average of two hundred
      ranges from that of the last turn of its kind, in order. */
  lemma EqualsOutcome(bars: seq<Bar>, confirmation: nat, threshold: real)
    returns (legs: seq<Direction>, turns: seq<Option<Point>>, ranges: seq<real>, atrs: seq<Option<real>>,
             margins: seq<Option<real>>)
    requires confirmation >= 1
    ensures Legged(bars, confirmation, legs) && Pivoted(bars, confirmation, legs, turns)
    ensures RangesOf(bars, ranges) && Smoothed(ranges, 200, atrs) && Scales(atrs, threshold, margins)
    ensures |turns| == |margins| == |bars|
    ensures var limits := Margins(bars, EqualLevels.ATR_LENGTH, threshold);
      var events := EqualEvents(Turns(bars, confirmation), limits, |bars|);
      && (forall e :: e in events <==> Equals(turns, margins, e))
      && (forall j, k :: 0 <= j < k < |events| ==> events[j].known < events[k].known)
  {
    hide Legged, Pivoted, RangesOf, Smoothed, Scales, OnTurns, Equals, EqualEvents;
    TurnsOutcome(bars, confirmation);
    legs, turns := Legs(bars, confirmation), Turns(bars, confirmation);
    ranges, atrs := MarginsOutcome(bars, 200, threshold);
    margins := Margins(bars, 200, threshold);
    EqualEventsExact(turns, margins, |bars|);
    forall e ensures e in EqualEvents(turns, margins, |bars|) <==> Equals(turns, margins, e) {
      OnTurnsOutcome(turns, margins, e);
      KnownOnTurns(turns, margins, e);
    }
  }

  lemma KnownOnTurns(turns: seq<Option<Point>>, margins: seq<Option<real>>, e: EqualEvent)
    requires |turns| == |margins|
    ensures OnTurns(turns, margins, e) ==> e.known < |turns|
  {
  }
}
