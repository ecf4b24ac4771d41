/** Running averages over closed bars. */
module Averages {
  import opened Sequences
  import opened Candles

  function Max(x: real, y: real): real { if x >= y then x else y }

  function Min(x: real, y: real): real { if x <= y then x else y }

  function Abs(x: real): real { if x >= 0.0 then x else -x }

  /** Range of bar `i`, widened to the previous close. */
  function TrueRange(bars: seq<Bar>, i: nat): (r: real)
    requires i < |bars|
    ensures r >= bars[i].high - bars[i].low >= 0.0
  {
    var range := bars[i].high - bars[i].low;
    if i == 0 then range
    else Max(range, Max(Abs(bars[i].high - bars[i - 1].close), Abs(bars[i].low - bars[i - 1].close)))
  }

  /** Sum of `values[lo..hi]`. */
  function Sum(values: seq<real>, lo: nat, hi: nat): real
    requires lo <= hi <= |values|
  {
    if lo == hi then 0.0 else Sum(values, lo, hi - 1) + values[hi - 1]
  }

  lemma {:induction false} SumSplit(values: seq<real>, lo: nat, mid: nat, hi: nat)
    requires lo <= mid <= hi <= |values|
    ensures Sum(values, lo, hi) == Sum(values, lo, mid) + Sum(values, mid, hi)
  {
    if mid < hi {
      SumSplit(values, lo, mid, hi - 1);
    }
  }

  lemma {:induction false} SumPrefix(values: seq<real>, longer: seq<real>, lo: nat, hi: nat)
    requires lo <= hi <= |values| && values <= longer
    ensures Sum(values, lo, hi) == Sum(longer, lo, hi)
  {
    if lo < hi {
      SumPrefix(values, longer, lo, hi - 1);
    }
  }

  /** All true ranges, as the loop carrying the previous close computes them. */
  method TrueRanges(bars: seq<Bar>) returns (ranges: seq<real>)
    ensures |ranges| == |bars|
    ensures forall i :: 0 <= i < |bars| ==> ranges[i] == TrueRange(bars, i)
  {
    ranges := [];
    var previousClose: Option<real> := None;
    for i := 0 to |bars|
      invariant |ranges| == i && forall j :: 0 <= j < i ==> ranges[j] == TrueRange(bars, j)
      invariant previousClose == if i == 0 then None else Some(bars[i - 1].close)
    {
      var value := bars[i].high - bars[i].low;
      if previousClose.Some? {
        value := Max(value, Max(Abs(bars[i].high - previousClose.value), Abs(bars[i].low - previousClose.value)));
      }
      ranges := ranges + [value];
      previousClose := Some(bars[i].close);
    }
  }

  function RangeSum(bars: seq<Bar>, n: nat): (r: real)
    requires n <= |bars|
    ensures r >= 0.0
  {
    if n == 0 then 0.0 else RangeSum(bars, n - 1) + TrueRange(bars, n - 1)
  }

  /** One part new range to `length - 1` parts old average. */
  function WilderStep(previous: real, range: real, length: nat): real
    requires length >= 1
  {
    (previous * (length - 1) as real + range) / length as real
  }

  /** Wilder's average of the true range: undefined before `length` bars, seeded by their mean,
      then stepped bar by bar. */
  function Atr(bars: seq<Bar>, length: nat, i: nat): Option<real>
    requires length >= 1 && i < |bars|
  {
    if i < length - 1 then None
    else if i == length - 1 then Some(RangeSum(bars, length) / length as real)
    else Some(WilderStep(Atr(bars, length, i - 1).value, TrueRange(bars, i), length))
  }

  function Atrs(bars: seq<Bar>, length: nat): (r: seq<Option<real>>)
    requires length >= 1
    ensures |r| == |bars| && forall i :: 0 <= i < |bars| ==> r[i] == Atr(bars, length, i)
  {
    seq(|bars|, i requires 0 <= i < |bars| => Atr(bars, length, i))
  }

  lemma AtrStep(bars: seq<Bar>, length: nat, i: nat, current: real)
    requires 1 <= length <= i < |bars| && Some(current) == Atr(bars, length, i - 1)
    ensures Some(WilderStep(current, TrueRange(bars, i), length)) == Atr(bars, length, i)
  {
  }

  method WilderAtr(bars: seq<Bar>, length: nat) returns (result: seq<Option<real>>)
    requires length >= 1
    ensures |result| == |bars|
    ensures forall i :: 0 <= i < |bars| ==> result[i] == Atr(bars, length, i)
  {
    ghost var atrs := Atrs(bars, length);
    var ranges := TrueRanges(bars);
    var buffer := new Option<real>[|ranges|](_ => None);
    forall j | 0 <= j < |bars| && j < length - 1 ensures atrs[j] == None {
    }
    if |ranges| < length {
      assert buffer[..] == atrs;
      return buffer[..];
    }
    var current := SeedMean(bars, ranges, length);
    buffer[length - 1] := Some(current);
    WilderRun(bars, length, ranges, buffer, current, atrs);
    return buffer[..];
  }

  /** Step from the seed to the end. */
  method WilderRun(bars: seq<Bar>, length: nat, ranges: seq<real>, buffer: array<Option<real>>, seed: real,
                   ghost atrs: seq<Option<real>>)
    requires 1 <= length <= |bars| == |ranges| == buffer.Length == |atrs|
    requires forall i :: 0 <= i < |bars| ==> ranges[i] == TrueRange(bars, i) && atrs[i] == Atr(bars, length, i)
    requires buffer[..length] == atrs[..length] && atrs[length - 1] == Some(seed)
    modifies buffer
    ensures buffer[..] == atrs
  {
    var current := seed;
    for i := length to |ranges|
      invariant Some(current) == atrs[i - 1] && buffer[..i] == atrs[..i]
    {
      AtrStep(bars, length, i, current);
      current := WilderStep(current, ranges[i], length);
      buffer[i] := Some(current);
      assert atrs[..i + 1] == atrs[..i] + [atrs[i]];
    }
  }

  /** The mean of the first `length` ranges. */
  method SeedMean(bars: seq<Bar>, ranges: seq<real>, length: nat) returns (mean: real)
    requires 1 <= length <= |bars| == |ranges|
    requires forall i :: 0 <= i < |bars| ==> ranges[i] == TrueRange(bars, i)
    ensures Some(mean) == Atr(bars, length, length - 1)
  {
    var total := 0.0;
    for i := 0 to length
      invariant total == RangeSum(bars, i)
    {
      total := total + ranges[i];
    }
    return total / length as real;
  }

  // ----- The average in plain arithmetic

  /** `sums[k]` adds up the first `k` values. */
  ghost predicate Accumulates(values: seq<real>, sums: seq<real>) {
    |sums| == |values| + 1 && sums[0] == 0.0 && forall k :: 0 <= k < |values| ==> sums[k + 1] == sums[k] + values[k]
  }

  /** Each range reaches from the lower to the higher of the bar and the close before it. */
  ghost predicate RangesOf(bars: seq<Bar>, ranges: seq<real>) {
    |ranges| == |bars| && forall i :: 0 <= i < |bars| ==>
      ranges[i] == (if i > 0 && bars[i - 1].close > bars[i].high then bars[i - 1].close else bars[i].high)
                   - (if i > 0 && bars[i - 1].close < bars[i].low then bars[i - 1].close else bars[i].low)
  }

  /** Nothing before `length` ranges, then their mean, then one part in `length` of each new range. */
  ghost predicate Smoothed(ranges: seq<real>, length: nat, atrs: seq<Option<real>>)
    requires length >= 1
  {
    && |atrs| == |ranges|
    && (forall i :: 0 <= i < |atrs| ==> (atrs[i].Some? <==> i >= length - 1))
    && (length <= |atrs| ==> exists sums ::
          Accumulates(ranges, sums) && atrs[length - 1].value == sums[length] / length as real)
    && (forall i :: length <= i < |atrs| ==>
          atrs[i].value == (atrs[i - 1].value * (length - 1) as real + ranges[i]) / length as real)
  }

  lemma RangeOutcome(bars: seq<Bar>) returns (ranges: seq<real>)
    ensures RangesOf(bars, ranges) && forall i :: 0 <= i < |bars| ==> ranges[i] == TrueRange(bars, i)
  {
    ranges := seq(|bars|, i requires 0 <= i < |bars| => TrueRange(bars, i));
  }

  lemma SeedOutcome(bars: seq<Bar>, ranges: seq<real>) returns (sums: seq<real>)
    requires |ranges| == |bars| && forall i :: 0 <= i < |bars| ==> ranges[i] == TrueRange(bars, i)
    ensures Accumulates(ranges, sums) && forall n :: 0 <= n <= |bars| ==> sums[n] == RangeSum(bars, n)
  {
    hide TrueRange;
    sums := seq(|bars| + 1, k requires 0 <= k <= |bars| => RangeSum(bars, k));
  }

  lemma AtrOutcome(bars: seq<Bar>, length: nat) returns (ranges: seq<real>, atrs: seq<Option<real>>)
    requires length >= 1
    ensures RangesOf(bars, ranges) && Smoothed(ranges, length, atrs)
    ensures |atrs| == |bars| && forall i :: 0 <= i < |bars| ==> atrs[i] == Atr(bars, length, i)
  {
    hide TrueRange, RangesOf, Atr, WilderStep;
    atrs := Atrs(bars, length);
    ranges := RangeOutcome(bars);
    var sums := SeedOutcome(bars, ranges);
    forall i | 0 <= i < |bars|
      ensures atrs[i].Some? <==> i >= length - 1
      ensures i == length - 1 ==> atrs[i].value == RangeSum(bars, length) / length as real
      ensures i >= length ==>
        atrs[i - 1].Some? && atrs[i].value == WilderStep(atrs[i - 1].value, ranges[i], length)
    {
      AtrCases(bars, length, i);
    }
    SmoothedBy(ranges, sums, length, atrs);
  }

  lemma AtrCases(bars: seq<Bar>, length: nat, i: nat)
    requires length >= 1 && i < |bars|
    ensures Atr(bars, length, i).Some? <==> i >= length - 1
    ensures i == length - 1 ==> Atr(bars, length, i).value == RangeSum(bars, length) / length as real
    ensures i >= length ==>
      && Atr(bars, length, i - 1).Some?
      && Atr(bars, length, i).value == WilderStep(Atr(bars, length, i - 1).value, TrueRange(bars, i), length)
  {
    hide WilderStep;
    if i >= length {
      AtrNonNegative(bars, length, i - 1);
    }
  }

  lemma SmoothedBy(ranges: seq<real>, sums: seq<real>, length: nat, atrs: seq<Option<real>>)
    requires length >= 1 && Accumulates(ranges, sums) && |atrs| == |ranges|
    requires forall i :: 0 <= i < |atrs| ==> (atrs[i].Some? <==> i >= length - 1)
    requires length <= |atrs| ==> atrs[length - 1].value == sums[length] / length as real
    requires forall i :: length <= i < |atrs| ==> atrs[i].value == WilderStep(atrs[i - 1].value, ranges[i], length)
    ensures Smoothed(ranges, length, atrs)
  {
  }

  /** The average known at bar `i` does not depend on later bars. */
  lemma {:induction false} AtrIsCausal(bars: seq<Bar>, longer: seq<Bar>, length: nat, i: nat)
    requires length >= 1 && i < |bars| && bars <= longer
    ensures Atr(bars, length, i) == Atr(longer, length, i)
  {
    if i == length - 1 {
      RangeSumIsCausal(bars, longer, length);
    } else if i >= length {
      AtrIsCausal(bars, longer, length, i - 1);
      assert TrueRange(bars, i) == TrueRange(longer, i);
    }
  }

  lemma {:induction false} RangeSumIsCausal(bars: seq<Bar>, longer: seq<Bar>, n: nat)
    requires n <= |bars| && bars <= longer
    ensures RangeSum(bars, n) == RangeSum(longer, n)
  {
    if n > 0 {
      RangeSumIsCausal(bars, longer, n - 1);
    }
  }

  lemma DivideNonNegative(x: real, y: real)
    requires x >= 0.0 && y > 0.0
    ensures x / y >= 0.0
  {
  }

  lemma TimesNonNegative(x: real, y: real)
    requires x >= 0.0 && y >= 0.0
    ensures x * y >= 0.0
  {
  }

  lemma {:induction false} AtrNonNegative(bars: seq<Bar>, length: nat, i: nat)
    requires length >= 1 && length - 1 <= i < |bars|
    ensures Atr(bars, length, i).Some? && Atr(bars, length, i).value >= 0.0
  {
    if i == length - 1 {
      DivideNonNegative(RangeSum(bars, length), length as real);
    } else {
      AtrNonNegative(bars, length, i - 1);
      TimesNonNegative(Atr(bars, length, i - 1).value, (length - 1) as real);
      DivideNonNegative(Atr(bars, length, i - 1).value * (length - 1) as real + TrueRange(bars, i), length as real);
    }
  }

  function Scaled(atr: Option<real>, fraction: real): Option<real> {
    if atr.None? then None else Some(atr.value * fraction)
  }

  /** The margin known at each bar: a fraction of the average true range. */
  function Margins(bars: seq<Bar>, length: nat, fraction: real): (r: seq<Option<real>>)
    requires length >= 1
    ensures |r| == |bars| && forall i :: 0 <= i < |bars| ==> r[i] == Scaled(Atr(bars, length, i), fraction)
  {
    seq(|bars|, i requires 0 <= i < |bars| => Scaled(Atr(bars, length, i), fraction))
  }

  ghost predicate Scales(atrs: seq<Option<real>>, fraction: real, margins: seq<Option<real>>) {
    && |margins| == |atrs|
    && (forall i :: 0 <= i < |atrs| ==> (margins[i].Some? <==> atrs[i].Some?))
    && (forall i :: 0 <= i < |atrs| && atrs[i].Some? ==> margins[i].value == atrs[i].value * fraction)
  }

  lemma MarginsOutcome(bars: seq<Bar>, length: nat, fraction: real)
    returns (ranges: seq<real>, atrs: seq<Option<real>>)
    requires length >= 1
    ensures RangesOf(bars, ranges) && Smoothed(ranges, length, atrs)
    ensures Scales(atrs, fraction, Margins(bars, length, fraction))
  {
    hide RangesOf, Smoothed, Atr;
    ranges, atrs := AtrOutcome(bars, length);
  }

  method KnownMargins(bars: seq<Bar>, length: nat, fraction: real) returns (margins: seq<Option<real>>)
    requires length >= 1
    ensures margins == Margins(bars, length, fraction)
  {
    hide Atr, Scaled;
    var atrs := WilderAtr(bars, length);
    margins := [];
    for i := 0 to |bars|
      invariant |margins| == i && forall j :: 0 <= j < i ==> margins[j] == Scaled(Atr(bars, length, j), fraction)
    {
      margins := margins + [Scaled(atrs[i], fraction)];
    }
  }

  lemma MarginsAreCausal(bars: seq<Bar>, longer: seq<Bar>, length: nat, fraction: real)
    requires length >= 1 && bars <= longer
    ensures Margins(bars, length, fraction) <= Margins(longer, length, fraction)
  {
    forall i | 0 <= i < |bars| ensures Margins(bars, length, fraction)[i] == Margins(longer, length, fraction)[i] {
      AtrIsCausal(bars, longer, length, i);
    }
  }

  /** Mean of the last `length` values, once there are that many. */
  function WindowMean(values: seq<real>, length: nat, i: nat): Option<real>
    requires length >= 1 && i < |values|
  {
    if i < length - 1 then None else Some(Sum(values, i + 1 - length, i + 1) / length as real)
  }

  /** The running total gives exactly the mean of each window. */
  method SimpleMovingAverage(values: seq<real>, length: nat) returns (result: seq<Option<real>>)
    requires length >= 1
    ensures |result| == |values|
    ensures forall i :: 0 <= i < |values| ==> result[i] == WindowMean(values, length, i)
  {
    var buffer := new Option<real>[|values|](_ => None);
    var running := 0.0;
    for i := 0 to |values|
      invariant running == Sum(values, if i < length then 0 else i - length, i)
      invariant forall j :: 0 <= j < i ==> buffer[j] == WindowMean(values, length, j)
      invariant forall j :: i <= j < |values| ==> buffer[j] == None
    {
      running := running + values[i];
      if i >= length {
        SumSplit(values, i - length, i - length + 1, i + 1);
        running := running - values[i - length];
      }
      if i >= length - 1 {
        buffer[i] := Some(running / length as real);
      }
    }
    return buffer[..];
  }

  lemma MeanOutcome(values: seq<real>, length: nat, i: nat, start: nat, end: nat)
    requires length >= 1 && i < |values| && end == i + 1 == start + length
    ensures WindowMean(values, length, i) == Some((Sum(values, 0, end) - Sum(values, 0, start)) / length as real)
  {
    SumSplit(values, 0, start, end);
    assert Sum(values, start, end) == Sum(values, 0, end) - Sum(values, 0, start);
  }

  lemma SumsOutcome(values: seq<real>) returns (sums: seq<real>)
    ensures Accumulates(values, sums) && forall k :: 0 <= k <= |values| ==> sums[k] == Sum(values, 0, k)
  {
    sums := seq(|values| + 1, k requires 0 <= k <= |values| => Sum(values, 0, k));
  }

  /** The mean of a window is a difference of running sums over its length. */
  lemma MeansOutcome(values: seq<real>, length: nat) returns (sums: seq<real>)
    requires length >= 1
    ensures Accumulates(values, sums)
    ensures forall i: nat :: i < |values| ==>
      WindowMean(values, length, i)
        == if i + 1 < length then None else Some((sums[i + 1] - sums[i + 1 - length]) / length as real)
  {
    hide Sum, Accumulates;
    sums := SumsOutcome(values);
    forall i: nat | i < |values| && length <= i + 1
      ensures WindowMean(values, length, i) == Some((sums[i + 1] - sums[i + 1 - length]) / length as real)
    {
      MeanOutcome(values, length, i, i + 1 - length, i + 1);
    }
  }

  lemma WindowMeanIsCausal(values: seq<real>, longer: seq<real>, length: nat, i: nat)
    requires length >= 1 && i < |values| && values <= longer
    ensures WindowMean(values, length, i) == WindowMean(longer, length, i)
  {
    if i >= length - 1 {
      SumPrefix(values, longer, i + 1 - length, i + 1);
    }
  }
}
