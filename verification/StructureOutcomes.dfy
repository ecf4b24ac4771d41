/** The shifts and breaks of a series, bar by bar from the prices. */
module StructureOutcomes {
  import opened Sequences
  import opened Candles
  import opened Pivots
  import opened PivotOutcomes
  import opened MarketStructure

  /** The level of a direction: of the second and third point of the list the one that has it. */
  function StructureLevel(points: seq<Point>, d: Direction): Option<real> {
    if |points| < 3 then None
    else if points[1].direction == d then Some(points[1].level)
    else if points[2].direction == d then Some(points[2].level)
    else None
  }

  /** Neither the last shift nor the last break of the direction was at the level. */
  ghost predicate Unused(history: seq<Event>, d: Direction, level: real) {
    forall k: nat ::
      && k < |history| && history[k].direction == d
      && (forall j :: k < j < |history| ==> history[j].direction != d || history[j].kind != history[k].kind) ==>
        history[k].level != level
  }

  /** What a close adds: a shift where it passes a level against the trend, the upper one first; else a break where it
      passes one along the trend that is not in use; else nothing. */
  ghost predicate Judged(points: seq<Point>, close: real, i: nat, before: seq<Event>, after: seq<Event>) {
    var high, low := StructureLevel(points, High), StructureLevel(points, Low);
    var up, down := high.Some? && close > high.value, low.Some? && close < low.value;
    var rising := before != [] && before[|before| - 1].direction == High;
    var falling := before != [] && before[|before| - 1].direction == Low;
    if up && !rising then after == before + [Event(MSS, High, high.value, i)]
    else if down && !falling then after == before + [Event(MSS, Low, low.value, i)]
    else if up && Unused(before, High, high.value) then after == before + [Event(BOS, High, high.value, i)]
    else if down && Unused(before, Low, low.value) then after == before + [Event(BOS, Low, low.value, i)]
    else after == before
  }

  lemma SelectedOutcome(points: seq<Point>)
    requires Alternating(points)
    ensures var (high, low) := Selected(points);
      && StructureLevel(points, High) == (if high.Some? then Some(high.value.level) else None)
      && StructureLevel(points, Low) == (if low.Some? then Some(low.value.level) else None)
  {
    BothSelected(points);
  }

  /** Event `k` is the last of its kind and direction. */
  ghost predicate LastAt(history: seq<Event>, kind: Kind, d: Direction, k: nat) {
    && k < |history| && history[k].kind == kind && history[k].direction == d
    && forall j :: k < j < |history| ==> history[j].kind != kind || history[j].direction != d
  }

  lemma {:induction false} LatestOutcome(history: seq<Event>, kind: Kind, d: Direction)
    ensures Latest(history, kind, d).Some? ==> exists k: nat :: LastAt(history, kind, d, k)
    ensures forall k: nat :: LastAt(history, kind, d, k) ==>
      k < |history| && Latest(history, kind, d) == Some(history[k].level)
  {
    if history != [] {
      var last: nat := |history| - 1;
      if history[last].kind == kind && history[last].direction == d {
        assert LastAt(history, kind, d, last);
      } else {
        LatestOutcome(history[..last], kind, d);
        assert forall k: nat :: LastAt(history[..last], kind, d, k) <==> LastAt(history, kind, d, k);
      }
    }
  }

  lemma NewLevelOutcome(history: seq<Event>, p: Point)
    ensures NewLevel(history, p) <==> Unused(history, p.direction, p.level)
  {
    hide Latest;
    LatestOutcome(history, MSS, p.direction);
    LatestOutcome(history, BOS, p.direction);
    if Latest(history, MSS, p.direction) == Some(p.level) {
      var k: nat :| LastAt(history, MSS, p.direction, k);
      assert history[k].level == p.level;
    }
    if Latest(history, BOS, p.direction) == Some(p.level) {
      var k: nat :| LastAt(history, BOS, p.direction, k);
      assert history[k].level == p.level;
    }
    forall k: nat
      | k < |history| && history[k].direction == p.direction
        && forall j :: k < j < |history| ==> history[j].direction != p.direction || history[j].kind != history[k].kind
      ensures LastAt(history, history[k].kind, p.direction, k)
    {
    }
  }

  lemma JudgedOutcome(points: seq<Point>, close: real, i: nat, before: seq<Event>)
    requires Alternating(points)
    ensures var (high, low) := Selected(points);
      Judged(points, close, i, before, Extended(before, EventAt(high, low, close, before, i)))
  {
    hide Selected, StructureLevel, NewLevel, Unused;
    SelectedOutcome(points);
    var (high, low) := Selected(points);
    SelectedSides(points);
    if high.Some? {
      NewLevelOutcome(before, high.value);
    }
    if low.Some? {
      NewLevelOutcome(before, low.value);
    }
  }

  lemma SelectedSides(points: seq<Point>)
    ensures Selected(points).0.Some? ==> Selected(points).0.value.direction == High
    ensures Selected(points).1.Some? ==> Selected(points).1.value.direction == Low
  {
  }

  /** The events of a series: the list of points after each bar, and from nothing the events of each close. */
  lemma StructureOutcome(bars: seq<Bar>, left: nat) returns (lists: seq<seq<Point>>, steps: seq<seq<Event>>)
    ensures |lists| == |steps| == |bars| + 1 && lists[0] == [] && steps[0] == []
    ensures forall i: nat :: i < |bars| ==>
      && Pushes(bars, left, i, lists[i], lists[i + 1])
      && Judged(lists[i + 1], bars[i].close, i, steps[i], steps[i + 1])
    ensures steps[|bars|] == Events(bars, Zigzags(bars, left), |bars|)
  {
    hide Pushes, Judged, Zigzag, Alternating, EventAt, Selected;
    lists := ListsOutcome(bars, left);
    var zigzags := Zigzags(bars, left);
    steps := seq(|bars| + 1, n requires 0 <= n <= |bars| => Events(bars, zigzags, n));
    forall i: nat | i < |bars| ensures Judged(lists[i + 1], bars[i].close, i, steps[i], steps[i + 1]) {
      JudgedOutcome(lists[i + 1], bars[i].close, i, steps[i]);
      assert zigzags[i] == lists[i + 1];
    }
  }
}
