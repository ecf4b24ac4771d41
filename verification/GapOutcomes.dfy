/** The active fair value gaps of a series from its prices. */
module GapOutcomes {
  import opened Sequences
  import opened Candles
  import opened Averages
  import opened FairValueGaps

  /** The size of each body, its running sums, and the means of the last `length` of them. */
  ghost predicate BodyMeans(bars: seq<Bar>, length: nat, means: seq<Option<real>>)
    requires length >= 1
  {
    && |means| == |bars|
    && exists bodies: seq<real>, sums: seq<real> ::
         && Sizes(bars, bodies) && Accumulates(bodies, sums)
         && forall i: nat :: i < |bars| ==>
              means[i] == if i + 1 < length then None else Some((sums[i + 1] - sums[i + 1 - length]) / length as real)
  }

  ghost predicate Sizes(bars: seq<Bar>, bodies: seq<real>) {
    && |bodies| == |bars|
    && forall i :: 0 <= i < |bars| ==>
         bodies[i] == if bars[i].close > bars[i].open then bars[i].close - bars[i].open
                      else bars[i].open - bars[i].close
  }

  /** A body above the mean whose two wicks are each shorter than 36 hundredths of it. */
  predicate Displaces(bar: Bar, mean: Option<real>) {
    var top, bottom := if bar.close > bar.open then bar.close else bar.open,
                       if bar.close > bar.open then bar.open else bar.close;
    && mean.Some? && top - bottom > mean.value
    && 100.0 * (bar.high - top) < 36.0 * (top - bottom) && 100.0 * (bottom - bar.low) < 36.0 * (top - bottom)
  }

  /** Bar `i` lies above, or below, the bar two before it; where it is required the bar between rises, or falls, with a
      large body. */
  predicate Leaves(bars: seq<Bar>, means: seq<Option<real>>, required: bool, side: Side, i: nat)
    requires |means| == |bars|
  {
    && 2 <= i < |bars|
    && (if side == Bullish then bars[i].low > bars[i - 2].high else bars[i].high < bars[i - 2].low)
    && (required ==>
          && Displaces(bars[i - 1], means[i - 1])
          && if side == Bullish then bars[i - 1].close > bars[i - 1].open else bars[i - 1].close < bars[i - 1].open)
  }

  ghost predicate Marked(bars: seq<Bar>, means: seq<Option<real>>, required: bool, marks: seq<Option<Side>>) {
    && |means| == |marks| == |bars|
    && forall i: nat, side :: i < |bars| ==> (marks[i] == Some(side) <==> Leaves(bars, means, required, side, i))
  }

  /** The gap of a run of imbalances on one side that ends at bar `b`, between that bar and the one two before it. No
      later bar trades through its far side; it is PARTIAL from the first later bar that trades into it. */
  ghost predicate OpenGap(bars: seq<Bar>, marks: seq<Option<Side>>, b: nat, v: GapView)
    requires |marks| == |bars|
  {
    && 2 <= b < |bars| && marks[b] == Some(v.side) && (b + 1 < |bars| ==> marks[b + 1] != Some(v.side))
    && v.event == b
    && (if v.side == Bullish then v.lower == bars[b - 2].high && v.upper == bars[b].low
        else v.lower == bars[b].high && v.upper == bars[b - 2].low)
    && (forall k :: b < k < |bars| ==> if v.side == Bullish then bars[k].low >= v.lower else bars[k].high <= v.upper)
    && (v.state == Active ==>
          && v.known == b
          && forall k :: b < k < |bars| ==>
               if v.side == Bullish then bars[k].low >= v.upper else bars[k].high <= v.lower)
    && (v.state == Partial ==>
          && b < v.known < |bars|
          && (if v.side == Bullish then bars[v.known].low < v.upper else bars[v.known].high > v.lower)
          && forall k :: b < k < v.known ==>
               if v.side == Bullish then bars[k].low >= v.upper else bars[k].high <= v.lower)
    && v.state != Full
  }

  lemma BodiesOutcome(bars: seq<Bar>, length: nat) returns (means: seq<Option<real>>)
    requires length >= 1
    ensures BodyMeans(bars, length, means)
    ensures |means| == |bars| && forall i :: 0 <= i < |bars| ==> means[i] == WindowMean(Bodies(bars), length, i)
  {
    hide WindowMean;
    var bodies := Bodies(bars);
    var sums := MeansOutcome(bodies, length);
    means := seq(|bars|, i requires 0 <= i < |bars| => WindowMean(bodies, length, i));
    assert Sizes(bars, bodies);
  }

  lemma LargeBodyOutcome(bar: Bar, mean: Option<real>)
    ensures LargeBody(bar, mean) <==> Displaces(bar, mean)
  {
  }

  lemma MarksOutcome(settings: Settings, bars: seq<Bar>, means: seq<Option<real>>)
    requires Usable(settings) && |means| == |bars|
    requires forall i :: 0 <= i < |bars| ==> means[i] == WindowMean(Bodies(bars), settings.length, i)
    ensures Marked(bars, means, settings.requireDisplacement, Marks(settings, bars))
  {
    hide LargeBody, Displaces, WindowMean;
    forall i: nat, side | i < |bars|
      ensures Imbalance(settings, bars, side, i) <==> Leaves(bars, means, settings.requireDisplacement, side, i)
    {
      if i >= 2 {
        LargeBodyOutcome(bars[i - 1], means[i - 1]);
      }
    }
  }

  lemma OpenGapOutcome(bars: seq<Bar>, marks: seq<Option<Side>>, b: nat, v: GapView)
    requires Marking(bars, marks)
    ensures OpenGap(bars, marks, b, v) <==>
      && b < |bars| && RunEnds(marks, b, |bars|) && v == Declared(bars, marks[b].value, b, |bars|) && Open(v)
  {
    if b < |bars| && RunEnds(marks, b, |bars|) {
      DeclaredMeaning(bars, marks[b].value, b, |bars|);
    }
  }

  /** The active gaps of a series: those of its runs of imbalances that no later bar has traded through, newest
      knowledge first. */
  lemma GapsOutcome(settings: Settings, bars: seq<Bar>) returns (means: seq<Option<real>>, marks: seq<Option<Side>>)
    requires Usable(settings)
    ensures BodyMeans(bars, settings.length, means) && |means| == |marks| == |bars|
    ensures Marked(bars, means, settings.requireDisplacement, marks)
    ensures Marking(bars, marks) && marks == Marks(settings, bars)
    ensures forall v :: v in ActiveList(bars, marks) <==> exists b: nat :: OpenGap(bars, marks, b, v)
  {
    hide BodyMeans, Marked, Marking, OpenGap, ActiveList, Declared, Open;
    means := BodiesOutcome(bars, settings.length);
    marks := Marks(settings, bars);
    MarksOutcome(settings, bars, means);
    MarksMark(settings, bars);
    ActiveListExact(bars, marks);
    forall v ensures v in ActiveList(bars, marks) <==> exists b: nat :: OpenGap(bars, marks, b, v) {
      forall b: nat ensures OpenGap(bars, marks, b, v) <==>
          && b < |bars| && RunEnds(marks, b, |bars|) && v == Declared(bars, marks[b].value, b, |bars|) && Open(v)
      {
        OpenGapOutcome(bars, marks, b, v);
      }
    }
  }
}
