/** The active order blocks of a series from its prices. */
module OrderBlockOutcomes {
  import opened Sequences
  import opened Candles
  import opened Averages
  import opened Pivots
  import opened Swings
  import opened SwingOutcomes
  import opened OrderBlocks
  import opened OrderBlockLaws

  /** The average of two hundred ranges, or all ranges so far over the number of bars before. */
  ghost predicate Measures(ranges: seq<real>, filter: VolatilityFilter, measures: seq<Option<real>>) {
    match filter
    case AverageTrueRange => Smoothed(ranges, 200, measures)
    case CumulativeMeanRange =>
      && |measures| == |ranges|
      && exists sums :: Accumulates(ranges, sums) && forall i: nat :: i < |ranges| ==>
           measures[i] == if i == 0 then None else Some(sums[i + 1] / i as real)
  }

  /** A bar that ranges over at least twice the measure has its extremes exchanged. */
  ghost predicate Exchanges(bars: seq<Bar>, measures: seq<Option<real>>, parsed: seq<Extremes>) {
    && |measures| == |parsed| == |bars|
    && forall i :: 0 <= i < |bars| ==>
         if measures[i].Some? && bars[i].high - bars[i].low >= 2.0 * measures[i].value
         then parsed[i].upper == bars[i].low && parsed[i].lower == bars[i].high
         else parsed[i].upper == bars[i].high && parsed[i].lower == bars[i].low
  }

  /** A block from the break of a pivot: of the bars from the pivot up to the break the first with the lowest lower
      extreme under a high, or the highest upper one over a low. */
  ghost predicate StandsOn(parsed: seq<Extremes>, p: Point, i: nat, b: Block)
    requires i <= |parsed|
  {
    && b.broken == i && b.bullish == (p.direction == High) && p.index <= b.source < i
    && b.upper == parsed[b.source].upper && b.lower == parsed[b.source].lower
    && (forall k :: p.index <= k < i ==>
          if b.bullish then parsed[k].lower >= b.lower else parsed[k].upper <= b.upper)
    && (forall k :: p.index <= k < b.source ==>
          if b.bullish then parsed[k].lower > b.lower else parsed[k].upper < b.upper)
  }

  /** A block is born at a bar exactly if it breaks a pivot. */
  ghost predicate Bears(bars: seq<Bar>, turns: seq<Option<Point>>, parsed: seq<Extremes>, births: seq<Option<Block>>) {
    && |turns| == |parsed| == |births| == |bars|
    && forall i: nat :: i < |bars| ==>
         if births[i].None? then forall p :: !Breaks(bars, turns, i, p)
         else exists p :: Breaks(bars, turns, i, p) && StandsOn(parsed, p, i, births[i].value)
  }

  lemma SoFarOutcome(bars: seq<Bar>, ranges: seq<real>) returns (sums: seq<real>)
    requires |ranges| == |bars| && forall i :: 0 <= i < |bars| ==> ranges[i] == TrueRange(bars, i)
    ensures Accumulates(ranges, sums)
    ensures forall i: nat :: i < |bars| ==>
      Measure(bars, CumulativeMeanRange, i) == if i == 0 then None else Some(sums[i + 1] / i as real)
  {
    hide Accumulates, RangeSum, TrueRange;
    sums := SeedOutcome(bars, ranges);
  }

  lemma MeasuresOutcome(bars: seq<Bar>, filter: VolatilityFilter)
    returns (ranges: seq<real>, measures: seq<Option<real>>)
    ensures RangesOf(bars, ranges) && Measures(ranges, filter, measures) && |measures| == |bars|
    ensures forall i :: 0 <= i < |bars| ==> measures[i] == Measure(bars, filter, i)
  {
    hide RangesOf, Smoothed, Accumulates;
    measures := seq(|bars|, i requires 0 <= i < |bars| => Measure(bars, filter, i));
    if filter == AverageTrueRange {
      var atrs;
      ranges, atrs := AtrOutcome(bars, 200);
      assert measures == atrs;
    } else {
      ranges := RangeOutcome(bars);
      LengthOutcome(bars, ranges);
      var sums := SoFarOutcome(bars, ranges);
    }
  }

  lemma LengthOutcome(bars: seq<Bar>, ranges: seq<real>)
    requires RangesOf(bars, ranges)
    ensures |ranges| == |bars|
  {
  }

  lemma ParsedOutcome(bars: seq<Bar>, filter: VolatilityFilter, measures: seq<Option<real>>)
    requires |measures| == |bars| && forall i :: 0 <= i < |bars| ==> measures[i] == Measure(bars, filter, i)
    ensures Exchanges(bars, measures, Parsed(bars, filter))
  {
    hide Measure;
  }

  lemma BornOutcome(bars: seq<Bar>, size: nat, parsed: seq<Extremes>, i: nat)
    requires size >= 1 && i < |bars| == |parsed|
    ensures var born := Born(bars, Turns(bars, size), parsed, i);
      if born.None? then forall p :: !Breaks(bars, Turns(bars, size), i, p)
      else exists p :: Breaks(bars, Turns(bars, size), i, p) && StandsOn(parsed, p, i, born.value)
  {
    hide Born, Breaks, Break;
    var turns := Turns(bars, size);
    BirthMeaning(bars, size, parsed, i);
    forall p: Point ensures Break(bars, turns, p.direction, i) == Some(p) <==> Breaks(bars, turns, i, p) {
      BreakOutcome(bars, turns, i, p);
    }
    var born := Born(bars, turns, parsed, i);
    if born.Some? {
      var high := Break(bars, turns, High, i);
      var p := if high.Some? then high.value else Break(bars, turns, Low, i).value;
      assert Breaks(bars, turns, i, p) && StandsOn(parsed, p, i, born.value);
    }
  }

  /** The active order blocks of a series: of the blocks born at its breaks those that no later bar mitigated and that
      never had `maximum` younger ones alive, newest first. */
  lemma BlocksOutcome(bars: seq<Bar>, size: nat, filter: VolatilityFilter, source: MitigationSource, maximum: nat)
    returns (legs: seq<Direction>, turns: seq<Option<Point>>, ranges: seq<real>, measures: seq<Option<real>>,
             parsed: seq<Extremes>, births: seq<Option<Block>>)
    requires size >= 1
    ensures Legged(bars, size, legs) && Pivoted(bars, size, legs, turns)
    ensures RangesOf(bars, ranges) && Measures(ranges, filter, measures) && Exchanges(bars, measures, parsed)
    ensures Bears(bars, turns, parsed, births) && |births| == |bars|
    ensures var active := Active(bars, Births(bars, Turns(bars, size), Parsed(bars, filter)), source, maximum, |bars|);
      Holds(bars, births, source, maximum, |bars|, active) && |active| <= maximum
  {
    hide Legged, Pivoted, RangesOf, Measures, Exchanges, Breaks, StandsOn, Born, Active, Holds;
    TurnsOutcome(bars, size);
    legs, turns := Legs(bars, size), Turns(bars, size);
    ranges, measures := MeasuresOutcome(bars, filter);
    parsed := Parsed(bars, filter);
    ParsedOutcome(bars, filter, measures);
    births := SeriesBirths(bars, size, filter);
    forall i: nat | i < |bars|
      ensures if births[i].None? then forall p :: !Breaks(bars, turns, i, p)
              else exists p :: Breaks(bars, turns, i, p) && StandsOn(parsed, p, i, births[i].value)
    {
      BornOutcome(bars, size, parsed, i);
    }
    ActiveBlocksExact(bars, size, filter, source, maximum, |bars|);
  }
}
