/** What the active order blocks of a series are, that they read no later bar, and an exchanged one. */
module OrderBlockLaws {
  import opened Sequences
  import opened Candles
  import opened Averages
  import opened Pivots
  import opened Swings
  import opened SwingLaws
  import opened OrderBlocks

  /** The blocks a series gives birth to. */
  function SeriesBirths(bars: seq<Bar>, size: nat, filter: VolatilityFilter): (r: seq<Option<Block>>)
    requires size >= 1
    ensures |r| == |bars|
  {
    Births(bars, Turns(bars, size), Parsed(bars, filter))
  }

  lemma BirthsAreDated(bars: seq<Bar>, size: nat, filter: VolatilityFilter)
    requires size >= 1
    ensures Dated(SeriesBirths(bars, size, filter))
  {
  }

  /** After any number of bars the active list holds exactly the series' blocks that no bar from their break on
      mitigated and that never had `maximum` younger live blocks, newest first. */
  lemma ActiveBlocksExact(bars: seq<Bar>, size: nat, filter: VolatilityFilter, source: MitigationSource, maximum: nat,
                          n: nat)
    requires size >= 1 && n <= |bars|
    ensures var births := SeriesBirths(bars, size, filter);
      var active := Active(bars, births, source, maximum, n);
      Holds(bars, births, source, maximum, n, active) && |active| <= maximum
  {
    BirthsAreDated(bars, size, filter);
    ActiveExact(bars, SeriesBirths(bars, size, filter), source, maximum, n);
  }

  // ----- No look-ahead

  lemma ParsedIsCausal(bars: seq<Bar>, longer: seq<Bar>, filter: VolatilityFilter)
    requires bars <= longer
    ensures Parsed(bars, filter) <= Parsed(longer, filter)
  {
    hide Atr, RangeSum;
    var a, b := Parsed(bars, filter), Parsed(longer, filter);
    forall i | 0 <= i < |a| ensures a[i] == b[i] {
      AtrIsCausal(bars, longer, OrderBlocks.ATR_LENGTH, i);
      RangeSumIsCausal(bars, longer, i + 1);
      assert bars[i] == longer[i];
    }
  }

  lemma {:induction false} SourceIsCausal(parsed: seq<Extremes>, longer: seq<Extremes>, d: Direction, lo: nat, hi: nat)
    requires lo < hi <= |parsed| && parsed <= longer
    ensures Source(parsed, d, lo, hi) == Source(longer, d, lo, hi)
  {
    if hi > lo + 1 {
      SourceIsCausal(parsed, longer, d, lo, hi - 1);
      assert parsed[hi - 1] == longer[hi - 1];
    }
  }

  lemma BlockIsCausal(parsed: seq<Extremes>, longer: seq<Extremes>, p: Option<Point>, i: nat)
    requires i <= |parsed| && parsed <= longer
    ensures BlockFrom(parsed, p, i) == BlockFrom(longer, p, i)
  {
    if p.Some? && p.value.index < i {
      SourceIsCausal(parsed, longer, p.value.direction, p.value.index, i);
    }
  }

  lemma BirthsAreCausal(bars: seq<Bar>, longer: seq<Bar>, size: nat, filter: VolatilityFilter)
    requires size >= 1 && bars <= longer
    ensures SeriesBirths(bars, size, filter) <= SeriesBirths(longer, size, filter)
  {
    hide Break, BlockFrom;
    TurnsAreCausal(bars, longer, size);
    ParsedIsCausal(bars, longer, filter);
    var turns, more, parsed, others := Turns(bars, size), Turns(longer, size), Parsed(bars, filter),
                                       Parsed(longer, filter);
    var a, b := SeriesBirths(bars, size, filter), SeriesBirths(longer, size, filter);
    forall i | 0 <= i < |a| ensures a[i] == b[i] {
      BreakIsCausal(bars, longer, turns, more, High, i);
      BreakIsCausal(bars, longer, turns, more, Low, i);
      BlockIsCausal(parsed, others, Break(bars, turns, High, i), i);
      BlockIsCausal(parsed, others, Break(bars, turns, Low, i), i);
    }
  }

  lemma {:induction false} ActiveIsCausal(bars: seq<Bar>, longer: seq<Bar>, births: seq<Option<Block>>,
                                          more: seq<Option<Block>>, source: MitigationSource, maximum: nat, n: nat)
    requires n <= |bars| == |births| && |longer| == |more| && bars <= longer && births <= more
    ensures Active(bars, births, source, maximum, n) == Active(longer, more, source, maximum, n)
  {
    hide Surviving, Take, WithBirth;
    if n > 0 {
      ActiveIsCausal(bars, longer, births, more, source, maximum, n - 1);
      assert bars[n - 1] == longer[n - 1] && births[n - 1] == more[n - 1];
    }
  }

  /** The blocks the first `n` candles give are those active in the whole series after `n` bars. */
  lemma ActiveOfPrefix(bars: seq<Bar>, size: nat, filter: VolatilityFilter, source: MitigationSource, maximum: nat,
                       n: nat)
    requires size >= 1 && n <= |bars|
    ensures Active(bars[..n], SeriesBirths(bars[..n], size, filter), source, maximum, n)
         == Active(bars, SeriesBirths(bars, size, filter), source, maximum, n)
  {
    BirthsAreCausal(bars[..n], bars, size, filter);
    ActiveIsCausal(bars[..n], bars, SeriesBirths(bars[..n], size, filter), SeriesBirths(bars, size, filter), source,
                   maximum, n);
  }

  // ----- An exchanged block

  /** A rise, a plunge through a wide bar, and a close above the old high. */
  const PLUNGE: seq<Bar> :=
    [Flat(100.0, 101.0, 100.5), Flat(101.0, 102.0, 101.5), Flat(102.0, 103.0, 102.5), Flat(103.0, 104.0, 103.5),
     Flat(104.0, 105.0, 104.5), Flat(105.0, 106.0, 105.5), Flat(10.0, 90.0, 50.0), Flat(95.0, 100.0, 97.0),
     Flat(95.0, 100.0, 97.0), Flat(95.0, 100.0, 97.0), Flat(95.0, 100.0, 97.0), Flat(95.0, 110.0, 107.0)]

  lemma NotHighest(j: nat, i: nat)
    requires j < i < |PLUNGE| && PLUNGE[j].high < PLUNGE[j + 1].high
    ensures !Dominates(PLUNGE, High, j, i)
  {
    assert LevelOf(PLUNGE[j + 1], High) == PLUNGE[j + 1].high;
  }

  lemma {:induction false} LowLeg(n: nat)
    requires 6 <= n <= 10
    ensures Leg(PLUNGE, 5, n) == Low
  {
    hide Dominates;
    assert PLUNGE[n - 6].high < PLUNGE[n - 5].high;
    NotHighest(n - 6, n - 1);
    if n == 6 {
      FirstIsLowest();
    } else {
      LowLeg(n - 1);
    }
  }

  lemma FirstIsLowest()
    ensures Dominates(PLUNGE, Low, 0, 5)
  {
  }

  lemma WideIsLowest()
    ensures Dominates(PLUNGE, Low, 6, 11)
  {
  }

  lemma PeakIsHighest()
    ensures Dominates(PLUNGE, High, 5, 10)
  {
  }

  lemma PlungeLegs()
    ensures Leg(PLUNGE, 5, 10) == Low && Leg(PLUNGE, 5, 11) == High && Leg(PLUNGE, 5, 12) == Low
  {
    hide Dominates;
    LowLeg(10);
    PeakIsHighest();
    NotHighest(6, 11);
    WideIsLowest();
  }

  lemma PlungeBreaks()
    ensures Break(PLUNGE, Turns(PLUNGE, 5), High, 11) == Some(Point(High, 5, 106.0))
  {
    PlungeLegs();
    var turns := Turns(PLUNGE, 5);
    assert turns[11] == Turn(PLUNGE, 5, 11) && turns[10] == Turn(PLUNGE, 5, 10) == Some(Point(High, 5, 106.0));
    assert LatestTurn(turns, High, 12) == LatestTurn(turns, High, 11) == Some(10);
    assert !Crosses(PLUNGE, Point(High, 5, 106.0), 10) && Crosses(PLUNGE, Point(High, 5, 106.0), 11);
    assert Uncrossed(PLUNGE, Point(High, 5, 106.0), 10, 11);
  }

  lemma PlungeIsVolatile()
    ensures Parsed(PLUNGE, CumulativeMeanRange)[6] == Extremes(10.0, 90.0)
  {
    assert RangeSum(PLUNGE, 1) == 1.0;
    assert RangeSum(PLUNGE, 2) == 2.5;
    assert RangeSum(PLUNGE, 3) == 4.0;
    assert RangeSum(PLUNGE, 4) == 5.5;
    assert RangeSum(PLUNGE, 5) == 7.0;
    assert RangeSum(PLUNGE, 6) == 8.5;
    assert RangeSum(PLUNGE, 7) == 104.0;
  }

  /** An instance: the block born at the break comes from the wide bar, with its upper bound below its lower. */
  lemma ExchangedInstance()
    ensures Born(PLUNGE, Turns(PLUNGE, 5), Parsed(PLUNGE, CumulativeMeanRange), 11) ==
      Some(Block(10.0, 90.0, true, 11, 6))
  {
    PlungeBreaks();
    PlungeIsVolatile();
    hide Measure;
    var parsed := Parsed(PLUNGE, CumulativeMeanRange);
    forall k | 5 <= k < 11 && k != 6 ensures parsed[k].lower > 90.0 {
      assert parsed[k] == ParsedAt(PLUNGE[k], Measure(PLUNGE, CumulativeMeanRange, k));
    }
    var r := Source(parsed, High, 5, 11);
    assert !Better(High, parsed[6], parsed[r]);
  }
}
