/** The zones of a series, step by step from the prices. */
module LiquidityOutcomes {
  import opened Sequences
  import opened Candles
  import opened Averages
  import opened Pivots
  import opened PivotOutcomes
  import opened LiquidityZones

  /** Point `k` is one of the newest fifty, of the direction and less than the margin away, and no newer one of the
      direction lies more than the margin further out. */
  ghost predicate Gathers(points: seq<Point>, d: Direction, level: real, margin: real, k: nat) {
    && k < |points| && k < 50 && points[k].direction == d && level - margin < points[k].level < level + margin
    && forall j :: 0 <= j < k && points[j].direction == d ==>
         if d == High then points[j].level <= level + margin else points[j].level >= level - margin
  }

  /** `at` lists, newest first, exactly the points that are gathered. */
  ghost predicate Gathered(points: seq<Point>, d: Direction, level: real, margin: real, at: seq<nat>) {
    && (forall k :: 0 <= k < |at| ==> Gathers(points, d, level, margin, at[k]))
    && (forall j, k :: 0 <= j < k < |at| ==> at[j] < at[k])
    && (forall k: nat :: Gathers(points, d, level, margin, k) ==> k in at)
  }

  /** The cluster's zone: the newest of its side moves if it has the same oldest pivot and is not FULL; otherwise a new
      one goes in front. The bounds lie a margin around the middle of the extreme levels. */
  ghost predicate Placed(zones: seq<ZoneView>, d: Direction, cluster: seq<Point>, margin: real, i: nat,
                         after: seq<ZoneView>)
    requires cluster != [] && i > 0
  {
    exists lowest: real, highest: real, k: nat ::
      && Spans(cluster, lowest, highest) && FirstOf(zones, d, k)
      && var center, oldest := (lowest + highest) / 2.0, cluster[|cluster| - 1];
         after ==
           if k < |zones| && zones[k].state != Full && zones[k].anchor == oldest.index
           then zones[k := zones[k].(lower := center - margin, upper := center + margin, event := i - 1, known := i)]
           else [ZoneView(d, center - margin, center + margin, oldest.level, i - 1, i, oldest.index, Active, None,
                          None)] + zones
  }

  ghost predicate Spans(cluster: seq<Point>, lowest: real, highest: real) {
    && (forall k :: 0 <= k < |cluster| ==> lowest <= cluster[k].level <= highest)
    && (exists k :: 0 <= k < |cluster| && cluster[k].level == lowest)
    && (exists k :: 0 <= k < |cluster| && cluster[k].level == highest)
  }

  /** Zone `k` is the first of the side, or there is none. */
  ghost predicate FirstOf(zones: seq<ZoneView>, d: Direction, k: nat) {
    && k <= |zones| && (forall j :: 0 <= j < k ==> zones[j].side != d) && (k < |zones| ==> zones[k].side == d)
  }

  /** What a pivot known at bar `i` does. */
  ghost predicate Pivoted(before: Machine, p: Point, margin: Option<real>, minimum: nat, i: nat, after: Machine)
    requires minimum >= 1 && i > 0
  {
    && Pushed(before.points, p, after.points)
    && if !Stirs(before.points, p) || margin.None? then after.zones == before.zones && after.seen == before.seen
       else exists at: seq<nat> ::
         && Gathered(after.points, p.direction, p.level, margin.value, at)
         && Clusters(before, p.direction, after.points, at, margin.value, minimum, i, after)
  }

  /** A cluster that is too small or was seen before changes nothing; otherwise it is seen and gets its zone. */
  ghost predicate Clusters(before: Machine, d: Direction, points: seq<Point>, at: seq<nat>, margin: real, minimum: nat,
                           i: nat, after: Machine)
    requires minimum >= 1 && i > 0 && forall k :: 0 <= k < |at| ==> at[k] < |points|
  {
    var cluster := seq(|at|, k requires 0 <= k < |at| => points[at[k]]);
    var key := Cluster(d, seq(|at|, k requires 0 <= k < |at| => points[at[k]].index));
    if |at| < minimum || key in before.seen then after.zones == before.zones && after.seen == before.seen
    else after.seen == before.seen + {key} && Placed(before.zones, d, cluster, margin, i, after.zones)
  }

  /** A close beyond the far bound makes a zone FULL, with the extreme of its bar and the level of the first zone of the
      other side, if any; a close beyond the near bound makes an ACTIVE one PARTIAL; nothing else happens. */
  ghost predicate Traverses(zones: seq<ZoneView>, z: ZoneView, bar: Bar, i: nat, after: ZoneView) {
    var beyondFar := if z.side == High then bar.close > z.upper else bar.close < z.lower;
    var beyondNear := if z.side == High then bar.close > z.lower else bar.close < z.upper;
    if z.state != Full && beyondFar then
      && after == z.(state := Full, known := i, swept := Some(if z.side == High then bar.high else bar.low),
                     opposing := after.opposing)
      && exists k: nat ::
           && FirstAgainst(zones, z.side, k)
           && after.opposing == if k < |zones| then Some(zones[k].level) else None
    else if z.state == Active && beyondNear then after == z.(state := Partial, known := i)
    else after == z
  }

  /** Zone `k` is the first that is not of the side, or there is none. */
  ghost predicate FirstAgainst(zones: seq<ZoneView>, d: Direction, k: nat) {
    && k <= |zones| && (forall j :: 0 <= j < k ==> zones[j].side == d) && (k < |zones| ==> zones[k].side != d)
  }

  ghost predicate Closed(zones: seq<ZoneView>, bar: Bar, i: nat, after: seq<ZoneView>) {
    |after| == |zones| && forall k :: 0 <= k < |zones| ==> Traverses(zones, zones[k], bar, i, after[k])
  }

  /** One bar: its high pivot, its low pivot, its close. */
  ghost predicate Advances(bars: seq<Bar>, left: nat, margin: Option<real>, minimum: nat, i: nat, before: Machine,
                           after: Machine)
    requires minimum >= 1 && i < |bars|
  {
    exists high: Machine, low: Machine ::
      && AfterHigh(bars, left, margin, minimum, i, before, high) && AfterLow(bars, left, margin, minimum, i, high, low)
      && after.points == low.points && after.seen == low.seen && Closed(low.zones, bars[i], i, after.zones)
  }

  ghost predicate AfterHigh(bars: seq<Bar>, left: nat, margin: Option<real>, minimum: nat, i: nat, before: Machine,
                            after: Machine)
    requires minimum >= 1 && i < |bars|
  {
    if HighAt(bars, left, i) then Pivoted(before, Point(High, i - 1, bars[i - 1].high), margin, minimum, i, after)
    else after == before
  }

  ghost predicate AfterLow(bars: seq<Bar>, left: nat, margin: Option<real>, minimum: nat, i: nat, before: Machine,
                           after: Machine)
    requires minimum >= 1 && i < |bars|
  {
    if LowAt(bars, left, i) then Pivoted(before, Point(Low, i - 1, bars[i - 1].low), margin, minimum, i, after)
    else after == before
  }

  // ----- The machine does so

  lemma {:induction false} MatchingGathers(points: seq<Point>, from: nat, d: Direction, level: real, margin: real)
    returns (at: seq<nat>)
    requires from <= |points| <= 50
    ensures var r := Matching(points[from..], d, level, margin);
      |at| == |r| && forall k :: 0 <= k < |at| ==> from <= at[k] < |points| && r[k] == points[at[k]]
    ensures forall j, k :: 0 <= j < k < |at| ==> at[j] < at[k]
    ensures forall k: nat :: k in at <==> GathersFrom(points, from, d, level, margin, k)
    decreases |points| - from
  {
    if from == |points| {
      at := [];
    } else {
      var next := from + 1;
      MatchingStep(points, from, d, level, margin);
      var rest := MatchingGathers(points, next, d, level, margin);
      var ends := points[from].direction == d && Overshoots(d, level, margin, points[from].level);
      var taken := points[from].direction == d && Near(level, margin, points[from].level);
      at := if ends then [] else if taken then [from] + rest else rest;
      forall k: nat ensures k in at <==> GathersFrom(points, from, d, level, margin, k) {
        GathersNext(points, from, next, d, level, margin, k);
      }
    }
  }

  ghost predicate GathersFrom(points: seq<Point>, from: nat, d: Direction, level: real, margin: real, k: nat) {
    && from <= k < |points| && points[k].direction == d && level - margin < points[k].level < level + margin
    && forall j :: from <= j < k && points[j].direction == d ==>
         if d == High then points[j].level <= level + margin else points[j].level >= level - margin
  }

  lemma GathersNext(points: seq<Point>, from: nat, next: nat, d: Direction, level: real, margin: real, k: nat)
    requires from < |points| && next == from + 1
    ensures var first := points[from].direction == d;
      GathersFrom(points, from, d, level, margin, k) <==>
        if k == from then first && Near(level, margin, points[from].level)
        else
          GathersFrom(points, next, d, level, margin, k) && !(first && Overshoots(d, level, margin, points[from].level))
  {
  }

  /** Of the whole list only the first fifty points count. */
  lemma GathersScanned(points: seq<Point>, d: Direction, level: real, margin: real, k: nat)
    ensures Gathers(points, d, level, margin, k) <==> GathersFrom(Scanned(points), 0, d, level, margin, k)
  {
  }

  lemma MatchingOutcome(points: seq<Point>, d: Direction, level: real, margin: real) returns (at: seq<nat>)
    ensures Gathered(points, d, level, margin, at)
    ensures var r := Matching(Scanned(points), d, level, margin);
      |at| == |r| && forall k :: 0 <= k < |at| ==> at[k] < |points| && r[k] == points[at[k]]
  {
    hide Gathers, GathersFrom, Matching;
    var scanned := Scanned(points);
    at := MatchingGathers(scanned, 0, d, level, margin);
    assert scanned[0..] == scanned;
    forall k: nat ensures k in at <==> Gathers(points, d, level, margin, k) {
      GathersScanned(points, d, level, margin, k);
    }
  }

  lemma ExtremesSpan(cluster: seq<Point>)
    requires cluster != []
    ensures Spans(cluster, Lowest(cluster), Highest(cluster))
  {
  }

  lemma NewestIsFirst(zones: seq<ZoneView>, d: Direction)
    ensures FirstOf(zones, d, Newest(zones, d))
  {
  }

  lemma PlaceOutcome(zones: seq<ZoneView>, d: Direction, cluster: seq<Point>, margin: real, i: nat)
    requires cluster != [] && i > 0
    ensures Placed(zones, d, cluster, margin, i, Place(zones, d, cluster, margin, i))
  {
    hide Spans, FirstOf;
    var lowest, highest, k := Lowest(cluster), Highest(cluster), Newest(zones, d);
    assert Spans(cluster, lowest, highest) by { ExtremesSpan(cluster); }
    assert FirstOf(zones, d, k) by { NewestIsFirst(zones, d); }
  }

  lemma ConfirmOutcome(before: Machine, p: Point, margin: Option<real>, minimum: nat, i: nat)
    requires minimum >= 1 && i > 0
    ensures Pivoted(before, p, margin, minimum, i, Confirm(before, p, margin, minimum, i))
  {
    hide Gathered, Placed, Place, Matching, Scanned, Pushed, Stirs, Push, Changes;
    var after := Confirm(before, p, margin, minimum, i);
    PushOutcome(before.points, p);
    if Changes(before.points, p) && margin.Some? {
      var at := MatchingOutcome(after.points, p.direction, p.level, margin.value);
      var matching := Matching(Scanned(after.points), p.direction, p.level, margin.value);
      assert matching == seq(|at|, k requires 0 <= k < |at| => after.points[at[k]]);
      assert Indices(matching) == seq(|at|, k requires 0 <= k < |at| => after.points[at[k]].index);
      if |matching| >= minimum {
        PlaceOutcome(before.zones, p.direction, matching, margin.value, i);
      }
      assert Clusters(before, p.direction, after.points, at, margin.value, minimum, i, after);
    }
  }

  lemma TraverseOutcome(zones: seq<ZoneView>, z: ZoneView, bar: Bar, i: nat)
    ensures Traverses(zones, z, bar, i, Settled(z, OpposingLevel(zones, z.side), bar, i))
  {
    var first := Newest(zones, Opposite(z.side));
    assert FirstAgainst(zones, z.side, first);
  }

  lemma SettleOutcome(zones: seq<ZoneView>, bar: Bar, i: nat)
    ensures Closed(zones, bar, i, Settle(zones, bar, i))
  {
    hide Traverses, Settled, OpposingLevel;
    forall k | 0 <= k < |zones| ensures Traverses(zones, zones[k], bar, i, Settle(zones, bar, i)[k]) {
      TraverseOutcome(zones, zones[k], bar, i);
    }
  }

  lemma ConfirmOne(mc: Machine, p: Point, margin: Option<real>, minimum: nat, i: nat)
    requires minimum >= 1 && i > 0
    ensures ConfirmAll(mc, [p], margin, minimum, i) == Confirm(mc, p, margin, minimum, i)
  {
    assert [p][..0] == [];
  }

  lemma BarOutcome(bars: seq<Bar>, left: nat, margins: seq<Option<real>>, minimum: nat, i: nat, next: nat)
    requires |margins| == |bars| && minimum >= 1 && next == i + 1 <= |bars|
    ensures Advances(bars, left, margins[i], minimum, i, After(bars, left, margins, minimum, i),
                     After(bars, left, margins, minimum, next))
  {
    hide Confirm, Settle, Pivoted, Closed, HighAt, LowAt, PointsAt, Confirmed;
    var before, ps := After(bars, left, margins, minimum, i), PointsAt(bars, left, i);
    PivotsOfBar(bars, left, i);
    var highs := if HighAt(bars, left, i) then [Point(High, i - 1, bars[i - 1].high)] else [];
    var high := ConfirmAll(before, highs, margins[i], minimum, i);
    var low := ConfirmAll(before, ps, margins[i], minimum, i);
    if HighAt(bars, left, i) {
      ConfirmOutcome(before, highs[0], margins[i], minimum, i);
      ConfirmOne(before, highs[0], margins[i], minimum, i);
    }
    assert AfterHigh(bars, left, margins[i], minimum, i, before, high);
    if LowAt(bars, left, i) {
      ConfirmOutcome(high, ps[|ps| - 1], margins[i], minimum, i);
      assert ps[..|ps| - 1] == highs;
    } else {
      assert ps == highs;
    }
    assert AfterLow(bars, left, margins[i], minimum, i, high, low);
    SettleOutcome(low.zones, bars[i], i);
  }

  /** The zones after all bars, from nothing and bar by bar; the margin is the fraction of the average of ten ranges. */
  lemma ZonesOutcome(bars: seq<Bar>, left: nat, minimum: nat, fraction: real)
    returns (ranges: seq<real>, atrs: seq<Option<real>>, margins: seq<Option<real>>, steps: seq<Machine>)
    requires minimum >= 1
    ensures RangesOf(bars, ranges) && Smoothed(ranges, 10, atrs) && Scales(atrs, fraction, margins)
    ensures |margins| == |bars|
    ensures |steps| == |bars| + 1 && steps[0] == Machine([], [], {})
    ensures forall i: nat :: i < |bars| ==> Advances(bars, left, margins[i], minimum, i, steps[i], steps[i + 1])
    ensures steps[|bars|] == After(bars, left, Margins(bars, ATR_LENGTH, fraction), minimum, |bars|)
  {
    hide Advances, RangesOf, Smoothed, Scales, After;
    ranges, atrs := MarginsOutcome(bars, 10, fraction);
    margins := Margins(bars, 10, fraction);
    steps := seq(|bars| + 1, i requires 0 <= i <= |bars| => After(bars, left, margins, minimum, i));
    StartOutcome(bars, left, margins, minimum);
    forall i: nat | i < |bars|
      ensures Advances(bars, left, margins[i], minimum, i, steps[i], steps[i + 1])
    {
      BarOutcome(bars, left, margins, minimum, i, i + 1);
    }
  }

  lemma StartOutcome(bars: seq<Bar>, left: nat, margins: seq<Option<real>>, minimum: nat)
    requires |margins| == |bars| && minimum >= 1
    ensures After(bars, left, margins, minimum, 0) == Machine([], [], {})
  {
  }
}
