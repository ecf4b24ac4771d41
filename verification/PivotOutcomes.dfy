/** The pivots of a bar and the list they are pushed on, from the prices alone. */
module PivotOutcomes {
  import opened Candles
  import opened Pivots

  /** Bar `i` shows that the bar before it is higher than the `left` bars before that one and than bar `i`. */
  predicate HighAt(bars: seq<Bar>, left: nat, i: nat)
    requires i < |bars|
  {
    && i >= left + 1 && bars[i - 1].high > bars[i].high
    && forall j :: i - 1 - left <= j < i - 1 ==> bars[i - 1].high > bars[j].high
  }

  predicate LowAt(bars: seq<Bar>, left: nat, i: nat)
    requires i < |bars|
  {
    && i >= left + 1 && bars[i - 1].low < bars[i].low
    && forall j :: i - 1 - left <= j < i - 1 ==> bars[i - 1].low < bars[j].low
  }

  /** The pivots known at a bar, a high before a low. */
  lemma PivotsOfBar(bars: seq<Bar>, left: nat, i: nat)
    requires i < |bars|
    ensures PointsAt(bars, left, i) ==
      (if HighAt(bars, left, i) then [Point(High, i - 1, bars[i - 1].high)] else [])
      + (if LowAt(bars, left, i) then [Point(Low, i - 1, bars[i - 1].low)] else [])
    ensures HighAt(bars, left, i) || LowAt(bars, left, i) ==> i > 0
  {
  }

  /** The point turns, or it is further out than the first the same way. */
  predicate Stirs(points: seq<Point>, p: Point) {
    || points == [] || points[0].direction != p.direction
    || if p.direction == High then p.level > points[0].level else p.level < points[0].level
  }

  /** A point goes in front if it turns, replaces the first if it is further out the same way, and is dropped
      otherwise. */
  predicate Pushed(points: seq<Point>, p: Point, after: seq<Point>) {
    after == if !Stirs(points, p) then points
             else if points == [] || points[0].direction != p.direction then [p] + points
             else [p] + points[1..]
  }

  lemma PushOutcome(points: seq<Point>, p: Point)
    ensures Pushed(points, p, Push(points, p)) && (Stirs(points, p) <==> Changes(points, p))
  {
  }

  ghost predicate TakesHigh(bars: seq<Bar>, left: nat, i: nat, before: seq<Point>, after: seq<Point>)
    requires i < |bars|
  {
    if HighAt(bars, left, i) then Pushed(before, Point(High, i - 1, bars[i - 1].high), after) else after == before
  }

  ghost predicate TakesLow(bars: seq<Bar>, left: nat, i: nat, before: seq<Point>, after: seq<Point>)
    requires i < |bars|
  {
    if LowAt(bars, left, i) then Pushed(before, Point(Low, i - 1, bars[i - 1].low), after) else after == before
  }

  /** One bar pushes its high pivot, then its low pivot. */
  ghost predicate Pushes(bars: seq<Bar>, left: nat, i: nat, before: seq<Point>, after: seq<Point>)
    requires i < |bars|
  {
    exists middle :: TakesHigh(bars, left, i, before, middle) && TakesLow(bars, left, i, middle, after)
  }

  lemma ZigzagMore(ps: seq<Point>, p: Point)
    ensures Zigzag(ps + [p]) == Push(Zigzag(ps), p)
  {
    assert (ps + [p])[..|ps|] == ps;
  }

  lemma HighPushed(bars: seq<Bar>, left: nat, i: nat, ps: seq<Point>)
    requires i < |bars|
    ensures TakesHigh(bars, left, i, Zigzag(ps),
                      Zigzag(ps + if HighAt(bars, left, i) then [Point(High, i - 1, bars[i - 1].high)] else []))
  {
    hide Zigzag, Push, Pushed;
    if HighAt(bars, left, i) {
      ZigzagMore(ps, Point(High, i - 1, bars[i - 1].high));
      PushOutcome(Zigzag(ps), Point(High, i - 1, bars[i - 1].high));
    } else {
      assert ps + [] == ps;
    }
  }

  lemma LowPushed(bars: seq<Bar>, left: nat, i: nat, ps: seq<Point>)
    requires i < |bars|
    ensures TakesLow(bars, left, i, Zigzag(ps),
                     Zigzag(ps + if LowAt(bars, left, i) then [Point(Low, i - 1, bars[i - 1].low)] else []))
  {
    hide Zigzag, Push, Pushed;
    if LowAt(bars, left, i) {
      ZigzagMore(ps, Point(Low, i - 1, bars[i - 1].low));
      PushOutcome(Zigzag(ps), Point(Low, i - 1, bars[i - 1].low));
    } else {
      assert ps + [] == ps;
    }
  }

  lemma Regroup(a: seq<Point>, b: seq<Point>, c: seq<Point>)
    ensures a + (b + c) == (a + b) + c
  {
  }

  lemma BarPushes(bars: seq<Bar>, left: nat, i: nat, next: nat)
    requires next == i + 1 <= |bars|
    ensures Pushes(bars, left, i, Zigzag(Points(bars, left, i)), Zigzag(Points(bars, left, next)))
  {
    hide Zigzag, TakesHigh, TakesLow, HighAt, LowAt, PointsAt;
    PivotsOfBar(bars, left, i);
    var ps := Points(bars, left, i);
    var highs := if HighAt(bars, left, i) then [Point(High, i - 1, bars[i - 1].high)] else [];
    var lows := if LowAt(bars, left, i) then [Point(Low, i - 1, bars[i - 1].low)] else [];
    HighPushed(bars, left, i, ps);
    LowPushed(bars, left, i, ps + highs);
    Regroup(ps, highs, lows);
  }

  lemma NothingPushed(bars: seq<Bar>, left: nat)
    ensures Zigzag(Points(bars, left, 0)) == []
  {
  }

  /** The list of points after each number of bars, from nothing. */
  lemma ListsOutcome(bars: seq<Bar>, left: nat) returns (lists: seq<seq<Point>>)
    ensures |lists| == |bars| + 1 && lists[0] == []
    ensures forall i: nat :: i < |bars| ==> Pushes(bars, left, i, lists[i], lists[i + 1])
    ensures forall n :: 0 <= n <= |bars| ==> lists[n] == Zigzag(Points(bars, left, n)) && Alternating(lists[n])
  {
    hide Pushes, Zigzag, Points, Alternating;
    NothingPushed(bars, left);
    lists := seq(|bars| + 1, n requires 0 <= n <= |bars| => Zigzag(Points(bars, left, n)));
    forall i: nat | i < |bars| ensures Pushes(bars, left, i, lists[i], lists[i + 1]) {
      BarPushes(bars, left, i, i + 1);
    }
    forall n | 0 <= n <= |bars| ensures Alternating(lists[n]) {
      ZigzagAlternates(Points(bars, left, n));
    }
  }
}
