/** Order blocks: born where a swing pivot breaks, dropped when mitigated or crowded out by newer ones. */
module OrderBlocks {
  import opened Sequences
  import opened Candles
  import opened Averages
  import opened Pivots
  import opened Swings

  const ATR_LENGTH := 200

  datatype VolatilityFilter = AverageTrueRange | CumulativeMeanRange

  datatype MitigationSource = Close | HighLow

  /** A bar's extremes, exchanged where the bar is volatile: `upper` may lie below `lower`. */
  datatype Extremes = Extremes(upper: real, lower: real)

  datatype Block = Block(upper: real, lower: real, bullish: bool, broken: nat, source: nat)

  // ----- Parsed extremes

  function Measure(bars: seq<Bar>, filter: VolatilityFilter, i: nat): Option<real>
    requires i < |bars|
  {
    match filter
    case AverageTrueRange => Atr(bars, ATR_LENGTH, i)
    case CumulativeMeanRange => MeanSoFar(RangeSum(bars, i + 1), i)
  }

  /** The ranges through bar `i` over the number of bars before it. */
  function MeanSoFar(total: real, i: nat): Option<real> {
    if i == 0 then None else Some(total / i as real)
  }

  function ParsedAt(bar: Bar, measure: Option<real>): Extremes {
    if measure.Some? && bar.high - bar.low >= 2.0 * measure.value then Extremes(bar.low, bar.high)
    else Extremes(bar.high, bar.low)
  }

  function Parsed(bars: seq<Bar>, filter: VolatilityFilter): (r: seq<Extremes>)
    ensures |r| == |bars| && forall i :: 0 <= i < |bars| ==> r[i] == ParsedAt(bars[i], Measure(bars, filter, i))
  {
    seq(|bars|, i requires 0 <= i < |bars| => ParsedAt(bars[i], Measure(bars, filter, i)))
  }

  lemma MeasureIs(bars: seq<Bar>, filter: VolatilityFilter, atr: Option<real>, total: real, i: nat)
    requires i < |bars| && atr == Atr(bars, ATR_LENGTH, i) && total == RangeSum(bars, i + 1)
    ensures Measure(bars, filter, i) == if filter == AverageTrueRange then atr else MeanSoFar(total, i)
  {
    hide MeanSoFar, Atr, RangeSum;
  }

  method ParsedExtremes(bars: seq<Bar>, filter: VolatilityFilter) returns (result: seq<Extremes>)
    ensures result == Parsed(bars, filter)
  {
    hide Measure, ParsedAt, MeanSoFar, Parsed, Atr;
    var atrs := WilderAtr(bars, ATR_LENGTH);
    var ranges := TrueRanges(bars);
    result := [];
    var total := 0.0;
    for i := 0 to |bars|
      invariant total == RangeSum(bars, i) && result == Parsed(bars, filter)[..i]
    {
      total := total + ranges[i];
      MeasureIs(bars, filter, atrs[i], total, i);
      result := result + [ParsedAt(bars[i], if filter == AverageTrueRange then atrs[i] else MeanSoFar(total, i))];
    }
  }

  // ----- Births

  /** A better source: a lower low under a broken high, a higher high over a broken low. */
  predicate Better(d: Direction, x: Extremes, y: Extremes) {
    if d == High then x.lower < y.lower else x.upper > y.upper
  }

  /** The first best bar of `[lo, hi)`. */
  function Source(parsed: seq<Extremes>, d: Direction, lo: nat, hi: nat): (r: nat)
    requires lo < hi <= |parsed|
    ensures lo <= r < hi
    ensures forall k :: lo <= k < hi ==> !Better(d, parsed[k], parsed[r])
    ensures forall k :: lo <= k < r ==> Better(d, parsed[r], parsed[k])
  {
    if hi == lo + 1 then lo
    else
      var r := Source(parsed, d, lo, hi - 1);
      if Better(d, parsed[hi - 1], parsed[r]) then hi - 1 else r
  }

  function BlockFrom(parsed: seq<Extremes>, p: Option<Point>, i: nat): Option<Block>
    requires i <= |parsed|
  {
    if p.None? || p.value.index >= i then None
    else
      var source := Source(parsed, p.value.direction, p.value.index, i);
      Some(Block(parsed[source].upper, parsed[source].lower, p.value.direction == High, i, source))
  }

  /** The block born at bar `i`: from the break of the high or of the low. */
  function Born(bars: seq<Bar>, turns: seq<Option<Point>>, parsed: seq<Extremes>, i: nat): Option<Block>
    requires i < |bars| == |turns| == |parsed|
  {
    var bullish := BlockFrom(parsed, Break(bars, turns, High, i), i);
    if bullish.Some? then bullish else BlockFrom(parsed, Break(bars, turns, Low, i), i)
  }

  function Births(bars: seq<Bar>, turns: seq<Option<Point>>, parsed: seq<Extremes>): (r: seq<Option<Block>>)
    requires |bars| == |turns| == |parsed|
    ensures |r| == |bars| && forall i :: 0 <= i < |bars| ==> r[i] == Born(bars, turns, parsed, i)
  {
    seq(|bars|, i requires 0 <= i < |bars| => Born(bars, turns, parsed, i))
  }

  /** Every break gives a block, whose source is the first best bar from the pivot up to the break. */
  lemma BirthMeaning(bars: seq<Bar>, size: nat, parsed: seq<Extremes>, i: nat)
    requires size >= 1 && i < |bars| == |parsed|
    ensures var born := Born(bars, Turns(bars, size), parsed, i);
      var high, low := Break(bars, Turns(bars, size), High, i), Break(bars, Turns(bars, size), Low, i);
      && (born.Some? <==> high.Some? || low.Some?)
      && (born.Some? ==>
            var b, p := born.value, if high.Some? then high.value else low.value;
            && b.broken == i && b.bullish == (p.direction == High)
            && p.index <= b.source < i && parsed[b.source] == Extremes(b.upper, b.lower)
            && (forall k :: p.index <= k < i ==> !Better(p.direction, parsed[k], parsed[b.source]))
            && (forall k :: p.index <= k < b.source ==> Better(p.direction, parsed[b.source], parsed[k])))
  {
    var turns := Turns(bars, size);
    TurnsTurn(bars, size);
    OneBreak(bars, turns, i);
    forall d: Direction ensures Break(bars, turns, d, i).Some? ==> Break(bars, turns, d, i).value.index < i {
      var c := LatestTurn(turns, d, i + 1);
      if c.Some? {
        assert turns[c.value].value.index < c.value;
      }
    }
  }

  /** A block's bounds are exchanged exactly if the bar it comes from is volatile. */
  lemma ExchangedIfVolatile(bars: seq<Bar>, size: nat, filter: VolatilityFilter, i: nat)
    requires size >= 1 && i < |bars| && Born(bars, Turns(bars, size), Parsed(bars, filter), i).Some?
    ensures var b := Born(bars, Turns(bars, size), Parsed(bars, filter), i).value;
      && b.source < |bars|
      && var bar, measure := bars[b.source], Measure(bars, filter, b.source);
         && {b.upper, b.lower} == {bar.high, bar.low}
         && (b.upper < b.lower <==> measure.Some? && bar.low < bar.high && bar.high - bar.low >= 2.0 * measure.value)
  {
    hide Measure, Born;
    BirthMeaning(bars, size, Parsed(bars, filter), i);
    var b := Born(bars, Turns(bars, size), Parsed(bars, filter), i).value;
    assert Parsed(bars, filter)[b.source] == ParsedAt(bars[b.source], Measure(bars, filter, b.source));
  }

  // ----- The list

  predicate Mitigates(source: MitigationSource, bar: Bar, b: Block) {
    if b.bullish then (if source == Close then bar.close else bar.low) < b.lower
    else (if source == Close then bar.close else bar.high) > b.upper
  }

  function Surviving(blocks: seq<Block>, source: MitigationSource, bar: Bar): seq<Block> {
    if blocks == [] then []
    else (if Mitigates(source, bar, blocks[0]) then [] else [blocks[0]]) + Surviving(blocks[1..], source, bar)
  }

  function Take(blocks: seq<Block>, maximum: nat): (r: seq<Block>)
    ensures r <= blocks && |r| == if |blocks| < maximum then |blocks| else maximum
  {
    if |blocks| <= maximum then blocks else blocks[..maximum]
  }

  function WithBirth(blocks: seq<Block>, b: Option<Block>): seq<Block> {
    if b.None? then blocks else [b.value] + blocks
  }

  /** The active blocks after `n` bars, newest first. */
  function Active(bars: seq<Bar>, births: seq<Option<Block>>, source: MitigationSource, maximum: nat,
                  n: nat): seq<Block>
    requires n <= |bars| == |births|
  {
    if n == 0 then []
    else Take(Surviving(WithBirth(Active(bars, births, source, maximum, n - 1), births[n - 1]), source, bars[n - 1]),
              maximum)
  }

  lemma SurvivingStep(blocks: seq<Block>, k: nat, source: MitigationSource, bar: Bar)
    requires k < |blocks|
    ensures Surviving(blocks[k..], source, bar)
         == (if Mitigates(source, bar, blocks[k]) then [] else [blocks[k]]) + Surviving(blocks[k + 1..], source, bar)
  {
    assert blocks[k..][1..] == blocks[k + 1..];
  }

  lemma SurvivingEnds(blocks: seq<Block>, source: MitigationSource, bar: Bar)
    ensures [] + Surviving(blocks[0..], source, bar) == Surviving(blocks, source, bar)
    ensures forall kept: seq<Block> :: kept + Surviving(blocks[|blocks|..], source, bar) == kept
  {
    assert blocks[0..] == blocks && blocks[|blocks|..] == [];
  }

  method Prune(blocks: seq<Block>, source: MitigationSource, bar: Bar, maximum: nat) returns (kept: seq<Block>)
    ensures kept == Take(Surviving(blocks, source, bar), maximum)
  {
    hide Surviving;
    var bearishSource := if source == Close then bar.close else bar.high;
    var bullishSource := if source == Close then bar.close else bar.low;
    kept := [];
    SurvivingEnds(blocks, source, bar);
    for k := 0 to |blocks|
      invariant kept + Surviving(blocks[k..], source, bar) == Surviving(blocks, source, bar)
    {
      var block := blocks[k];
      SurvivingStep(blocks, k, source, bar);
      if !((!block.bullish && bearishSource > block.upper) || (block.bullish && bullishSource < block.lower)) {
        kept := kept + [block];
      }
    }
    if |kept| > maximum {
      kept := kept[..maximum];
    }
  }

  /** The block of a broken pivot: its source is the first minimum or maximum of the parsed bars. */
  method BlockOf(parsed: seq<Extremes>, p: Point, i: nat) returns (block: Option<Block>)
    requires i <= |parsed|
    ensures block == BlockFrom(parsed, Some(p), i)
  {
    if p.index >= i {
      return None;
    }
    var best := p.index;
    for k := p.index + 1 to i
      invariant p.index <= best < k && best == Source(parsed, p.direction, p.index, k)
    {
      if (p.direction == High && parsed[k].lower < parsed[best].lower)
         || (p.direction == Low && parsed[k].upper > parsed[best].upper) {
        best := k;
      }
    }
    block := Some(Block(parsed[best].upper, parsed[best].lower, p.direction == High, i, best));
  }

  /** The breaks of bar `i` put their blocks in front. */
  method AddBirths(high: SwingPivot?, low: SwingPivot?, bars: seq<Bar>, parsed: seq<Extremes>, blocks: seq<Block>,
                   i: nat, ghost turns: seq<Option<Point>>)
    returns (extended: seq<Block>)
    requires i < |bars| == |turns| == |parsed| && Live(high, low, bars, turns, i, i + 1)
    modifies high, low
    ensures Live(high, low, bars, turns, i + 1, i + 1)
    ensures extended == WithBirth(blocks, Born(bars, turns, parsed, i))
  {
    OneBreak(bars, turns, i);
    extended := blocks;
    var broken := Test(high, bars, High, i, turns);
    if broken {
      var block := BlockOf(parsed, Point(High, high.index, high.level), i);
      extended := WithBirth(extended, block);
    }
    assert Represents(low, bars, turns, Low, i, i + 1);
    broken := Test(low, bars, Low, i, turns);
    if broken {
      var block := BlockOf(parsed, Point(Low, low.index, low.level), i);
      extended := WithBirth(extended, block);
    }
  }

  method TestLeg(high: SwingPivot?, low: SwingPivot?, bars: seq<Bar>, size: nat, leg: Direction, i: nat,
                 ghost turns: seq<Option<Point>>)
    returns (newHigh: SwingPivot?, newLow: SwingPivot?, next: Direction)
    requires size >= 1 && i < |bars| && turns == Turns(bars, size) && Live(high, low, bars, turns, i, i)
    requires leg == Leg(bars, size, i)
    ensures Live(newHigh, newLow, bars, turns, i, i + 1) && next == Leg(bars, size, i + 1)
    ensures (newHigh == high || fresh(newHigh)) && (newLow == low || fresh(newLow))
  {
    newHigh, newLow, next := high, low, leg;
    if i >= size {
      next := NextLeg(bars, size, leg, i);
      if next != leg {
        newHigh, newLow := Replace(high, low, bars, size, next, i, turns);
        return;
      }
    }
    StillLive(high, low, bars, turns, i);
  }

  method ActiveOrderBlocks(bars: seq<Bar>, size: nat, filter: VolatilityFilter, source: MitigationSource, maximum: nat)
    returns (active: seq<Block>)
    requires size >= 1
    ensures active == Active(bars, Births(bars, Turns(bars, size), Parsed(bars, filter)), source, maximum, |bars|)
  {
    var parsed := ParsedExtremes(bars, filter);
    active := ScanBlocks(bars, size, parsed, source, maximum);
  }

  lemma NothingYet(bars: seq<Bar>, size: nat, births: seq<Option<Block>>, source: MitigationSource, maximum: nat)
    requires size >= 1 && |births| == |bars|
    ensures Leg(bars, size, 0) == High && Live(null, null, bars, Turns(bars, size), 0, 0)
    ensures Active(bars, births, source, maximum, 0) == []
  {
  }

  lemma ActiveNext(bars: seq<Bar>, births: seq<Option<Block>>, source: MitigationSource, maximum: nat, n: nat)
    requires n < |bars| == |births|
    ensures Active(bars, births, source, maximum, n + 1)
         == Take(Surviving(WithBirth(Active(bars, births, source, maximum, n), births[n]), source, bars[n]), maximum)
  {
  }

  method ScanBlocks(bars: seq<Bar>, size: nat, parsed: seq<Extremes>, source: MitigationSource, maximum: nat)
    returns (active: seq<Block>)
    requires size >= 1 && |parsed| == |bars|
    ensures active == Active(bars, Births(bars, Turns(bars, size), parsed), source, maximum, |bars|)
  {
    hide Active, Births, Turns, Leg, Live, Born;
    ghost var turns := Turns(bars, size);
    ghost var births := Births(bars, turns, parsed);
    active := [];
    var leg := High;
    var high: SwingPivot?, low: SwingPivot? := null, null;
    NothingYet(bars, size, births, source, maximum);
    for i := 0 to |bars|
      invariant leg == Leg(bars, size, i) && Live(high, low, bars, turns, i, i)
      invariant (high != null ==> fresh(high)) && (low != null ==> fresh(low))
      invariant active == Active(bars, births, source, maximum, i)
    {
      high, low, leg := TestLeg(high, low, bars, size, leg, i, turns);
      active := AddBirths(high, low, bars, parsed, active, i, turns);
      active := Prune(active, source, bars[i], maximum);
      ActiveNext(bars, births, source, maximum, i);
    }
  }

  // ----- Which blocks the list keeps

  /** Born at bar `i`, and in `[i, n)` no close, or no extreme, below a bullish block or above a bearish one. */
  ghost predicate Alive(bars: seq<Bar>, births: seq<Option<Block>>, source: MitigationSource, i: nat, n: nat)
    requires n <= |bars| == |births|
  {
    && i < n && births[i].Some?
    && var b := births[i].value;
      forall t :: i <= t < n ==>
        if b.bullish then (if source == Close then bars[t].close else bars[t].low) >= b.lower
        else (if source == Close then bars[t].close else bars[t].high) <= b.upper
  }

  /** The blocks younger than `i` that are alive after `n` bars. */
  ghost function Younger(bars: seq<Bar>, births: seq<Option<Block>>, source: MitigationSource, i: nat, n: nat): set<nat>
    requires n <= |bars| == |births|
  {
    set j: nat | i < j < n && Alive(bars, births, source, j, n)
  }

  /** Alive, and never with `maximum` younger blocks alive. */
  ghost predicate Kept(bars: seq<Bar>, births: seq<Option<Block>>, source: MitigationSource, maximum: nat, i: nat,
                       n: nat)
    requires n <= |bars| == |births|
  {
    Alive(bars, births, source, i, n) && forall t :: i < t <= n ==> |Younger(bars, births, source, i, t)| < maximum
  }

  ghost predicate Dated(births: seq<Option<Block>>) {
    forall i :: 0 <= i < |births| && births[i].Some? ==> births[i].value.broken == i
  }

  ghost predicate Decreasing(blocks: seq<Block>) {
    forall j, k :: 0 <= j < k < |blocks| ==> blocks[k].broken < blocks[j].broken
  }

  /** The list holds exactly the blocks kept, newest first. */
  ghost predicate Holds(bars: seq<Bar>, births: seq<Option<Block>>, source: MitigationSource, maximum: nat, n: nat,
                        blocks: seq<Block>)
    requires n <= |bars| == |births|
  {
    && Decreasing(blocks)
    && (forall k :: 0 <= k < |blocks| ==>
          Kept(bars, births, source, maximum, blocks[k].broken, n) && births[blocks[k].broken] == Some(blocks[k]))
    && (forall i :: 0 <= i < n && Kept(bars, births, source, maximum, i, n) ==> births[i].value in blocks)
  }

  lemma {:induction false} SurvivingMembers(blocks: seq<Block>, source: MitigationSource, bar: Bar)
    ensures forall b :: b in Surviving(blocks, source, bar) <==> b in blocks && !Mitigates(source, bar, b)
  {
    if blocks != [] {
      SurvivingMembers(blocks[1..], source, bar);
    }
  }

  lemma {:induction false} SurvivingDecreases(blocks: seq<Block>, source: MitigationSource, bar: Bar)
    requires Decreasing(blocks)
    ensures Decreasing(Surviving(blocks, source, bar))
  {
    if blocks != [] {
      var tail, rest := blocks[1..], Surviving(blocks[1..], source, bar);
      SurvivingDecreases(tail, source, bar);
      SurvivingMembers(tail, source, bar);
      forall k | 0 <= k < |rest| ensures rest[k].broken < blocks[0].broken {
        assert rest[k] in rest;
        var q :| 0 <= q < |tail| && tail[q] == rest[k];
        assert blocks[q + 1] == rest[k];
      }
    }
  }

  lemma {:induction false} FewerMembers<T>(a: set<T>, b: set<T>)
    requires a <= b
    ensures |a| <= |b|
  {
    if a != {} {
      var x :| x in a;
      FewerMembers(a - {x}, b - {x});
    }
  }

  /** The birth bars of the first `p` blocks. */
  ghost function Dates(blocks: seq<Block>, p: nat): set<nat>
    requires p <= |blocks|
  {
    set k | 0 <= k < p :: blocks[k].broken
  }

  lemma {:induction false} CountDates(blocks: seq<Block>, p: nat)
    requires Decreasing(blocks) && p <= |blocks|
    ensures |Dates(blocks, p)| == p
  {
    if p > 0 {
      CountDates(blocks, p - 1);
      var date := blocks[p - 1].broken;
      assert Dates(blocks, p) == Dates(blocks, p - 1) + {date};
      assert date !in Dates(blocks, p - 1);
    }
  }

  /** Among the alive, the younger of the younger are younger. */
  lemma YoungerShrinks(bars: seq<Bar>, births: seq<Option<Block>>, source: MitigationSource, i: nat, j: nat, n: nat)
    requires n <= |bars| == |births| && i <= j
    ensures |Younger(bars, births, source, j, n)| <= |Younger(bars, births, source, i, n)|
  {
    FewerMembers(Younger(bars, births, source, j, n), Younger(bars, births, source, i, n));
  }

  /** If a block is kept, every younger block alive is kept. */
  lemma YoungerKept(bars: seq<Bar>, births: seq<Option<Block>>, source: MitigationSource, maximum: nat, i: nat, j: nat,
                    n: nat)
    requires n <= |bars| == |births| && i < j && Kept(bars, births, source, maximum, i, n)
    requires Alive(bars, births, source, j, n)
    ensures Kept(bars, births, source, maximum, j, n)
  {
    forall t | j < t <= n ensures |Younger(bars, births, source, j, t)| < maximum {
      YoungerShrinks(bars, births, source, i, j, t);
    }
  }

  lemma AliveBefore(bars: seq<Bar>, births: seq<Option<Block>>, source: MitigationSource, i: nat, n: nat)
    requires n < |bars| == |births|
    ensures Alive(bars, births, source, i, n + 1) <==>
      && i <= n && births[i].Some? && !Mitigates(source, bars[n], births[i].value)
      && (i < n ==> Alive(bars, births, source, i, n))
  {
  }

  /** The list with the births of bar `n`, less the blocks it mitigates. */
  ghost predicate Swept(bars: seq<Bar>, births: seq<Option<Block>>, source: MitigationSource, maximum: nat, n: nat,
                        now: seq<Block>)
    requires n < |bars| == |births|
  {
    && Decreasing(now)
    && (forall k :: 0 <= k < |now| ==>
          && Alive(bars, births, source, now[k].broken, n + 1) && births[now[k].broken] == Some(now[k])
          && (now[k].broken < n ==> Kept(bars, births, source, maximum, now[k].broken, n)))
    && (forall i ::
          && 0 <= i <= n && Alive(bars, births, source, i, n + 1)
          && (i < n ==> Kept(bars, births, source, maximum, i, n)) ==>
            births[i].value in now)
  }

  lemma BirthDecreases(blocks: seq<Block>, b: Option<Block>, n: nat)
    requires Decreasing(blocks) && (forall k :: 0 <= k < |blocks| ==> blocks[k].broken < n)
    requires b.Some? ==> b.value.broken == n
    ensures Decreasing(WithBirth(blocks, b))
    ensures forall x :: x in WithBirth(blocks, b) <==> x in blocks || b == Some(x)
  {
  }

  lemma SweptStep(bars: seq<Bar>, births: seq<Option<Block>>, source: MitigationSource, maximum: nat, n: nat,
                  blocks: seq<Block>)
    requires n < |bars| == |births| && Dated(births) && Holds(bars, births, source, maximum, n, blocks)
    ensures Swept(bars, births, source, maximum, n, Surviving(WithBirth(blocks, births[n]), source, bars[n]))
  {
    var added := WithBirth(blocks, births[n]);
    var now := Surviving(added, source, bars[n]);
    BirthDecreases(blocks, births[n], n);
    SurvivingDecreases(added, source, bars[n]);
    SurvivingMembers(added, source, bars[n]);
    forall k | 0 <= k < |now|
      ensures Alive(bars, births, source, now[k].broken, n + 1) && births[now[k].broken] == Some(now[k])
      ensures now[k].broken < n ==> Kept(bars, births, source, maximum, now[k].broken, n)
    {
      assert now[k] in now;
      if births[n] != Some(now[k]) {
        var q :| 0 <= q < |blocks| && blocks[q] == now[k];
      }
      AliveBefore(bars, births, source, now[k].broken, n);
    }
    forall i | 0 <= i <= n && Alive(bars, births, source, i, n + 1)
               && (i < n ==> Kept(bars, births, source, maximum, i, n))
      ensures births[i].value in now
    {
      AliveBefore(bars, births, source, i, n);
    }
  }

  /** In the swept list a block's position counts the younger blocks alive. */
  lemma PositionCounts(bars: seq<Bar>, births: seq<Option<Block>>, source: MitigationSource, maximum: nat, n: nat,
                       now: seq<Block>, p: nat)
    requires n < |bars| == |births| && Dated(births) && Swept(bars, births, source, maximum, n, now) && p < |now|
    ensures |Younger(bars, births, source, now[p].broken, n + 1)| == p
  {
    var i := now[p].broken;
    var younger, dates := Younger(bars, births, source, i, n + 1), Dates(now, p);
    forall j: nat | j in younger ensures j in dates {
      if j < n {
        AliveBefore(bars, births, source, j, n);
        YoungerKept(bars, births, source, maximum, i, j, n);
      }
      var q :| 0 <= q < |now| && now[q] == births[j].value;
      assert now[q].broken == j;
    }
    forall j: nat | j in dates ensures j in younger {
      var q :| 0 <= q < p && now[q].broken == j;
    }
    assert younger == dates;
    CountDates(now, p);
  }

  lemma KeptStep(bars: seq<Bar>, births: seq<Option<Block>>, source: MitigationSource, maximum: nat, i: nat, n: nat)
    requires n < |bars| == |births|
    ensures Kept(bars, births, source, maximum, i, n + 1) <==>
      && Alive(bars, births, source, i, n + 1) && (i < n ==> Kept(bars, births, source, maximum, i, n))
      && |Younger(bars, births, source, i, n + 1)| < maximum
  {
    AliveBefore(bars, births, source, i, n);
  }

  lemma HoldsStep(bars: seq<Bar>, births: seq<Option<Block>>, source: MitigationSource, maximum: nat, n: nat, next: nat,
                  now: seq<Block>)
    requires next == n + 1 <= |bars| == |births| && Dated(births) && Swept(bars, births, source, maximum, n, now)
    ensures Holds(bars, births, source, maximum, next, Take(now, maximum))
  {
    var taken := Take(now, maximum);
    forall p | 0 <= p < |taken|
      ensures Kept(bars, births, source, maximum, taken[p].broken, next) && births[taken[p].broken] == Some(taken[p])
    {
      assert taken[p] == now[p];
      PositionCounts(bars, births, source, maximum, n, now, p);
      KeptStep(bars, births, source, maximum, now[p].broken, n);
    }
    forall i | 0 <= i < next && Kept(bars, births, source, maximum, i, next) ensures births[i].value in taken {
      KeptStep(bars, births, source, maximum, i, n);
      var p :| 0 <= p < |now| && now[p] == births[i].value;
      PositionCounts(bars, births, source, maximum, n, now, p);
      assert taken[p] == births[i].value;
    }
  }

  lemma ActiveStep(bars: seq<Bar>, births: seq<Option<Block>>, source: MitigationSource, maximum: nat, n: nat,
                   next: nat, blocks: seq<Block>)
    requires next == n + 1 <= |bars| == |births| && Dated(births)
    requires blocks == Active(bars, births, source, maximum, n) && Holds(bars, births, source, maximum, n, blocks)
    ensures Holds(bars, births, source, maximum, next, Active(bars, births, source, maximum, next))
  {
    SweptStep(bars, births, source, maximum, n, blocks);
    HoldsStep(bars, births, source, maximum, n, next, Surviving(WithBirth(blocks, births[n]), source, bars[n]));
  }

  /** The list holds a block exactly if no bar since its birth mitigated it and at no bar since were
      `maximum` younger blocks alive; newest first, and never more than `maximum`. */
  lemma {:induction false} ActiveExact(bars: seq<Bar>, births: seq<Option<Block>>, source: MitigationSource,
                                       maximum: nat, n: nat)
    requires n <= |bars| == |births| && Dated(births)
    ensures Holds(bars, births, source, maximum, n, Active(bars, births, source, maximum, n))
    ensures |Active(bars, births, source, maximum, n)| <= maximum
  {
    if n > 0 {
      var before: nat := n - 1;
      var blocks := Active(bars, births, source, maximum, before);
      ActiveExact(bars, births, source, maximum, before);
      ActiveStep(bars, births, source, maximum, before, n, blocks);
    }
  }
}
