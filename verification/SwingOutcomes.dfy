/** The legs, turns, breaks and events of a series, bar by bar from the prices. */
module SwingOutcomes {
  import opened Sequences
  import opened Candles
  import opened Pivots
  import opened Swings

  /** The bar `size` before bar `i` is higher than every bar since. */
  predicate Top(bars: seq<Bar>, size: nat, i: nat)
    requires i < |bars|
  {
    i >= size && forall k :: i - size < k <= i ==> bars[i - size].high > bars[k].high
  }

  predicate Bottom(bars: seq<Bar>, size: nat, i: nat)
    requires i < |bars|
  {
    i >= size && forall k :: i - size < k <= i ==> bars[i - size].low < bars[k].low
  }

  /** A leg starts from a top or from a bottom and lasts until the other; the first one starts as if from a top. */
  ghost predicate Legged(bars: seq<Bar>, size: nat, legs: seq<Direction>) {
    && |legs| == |bars| + 1 && legs[0] == High
    && forall i :: 0 <= i < |bars| ==>
         legs[i + 1] == if Top(bars, size, i) then High else if Bottom(bars, size, i) then Low else legs[i]
  }

  /** The pivot of a bar is where its leg starts, if it is not the leg of the bar before. */
  ghost predicate Pivoted(bars: seq<Bar>, size: nat, legs: seq<Direction>, turns: seq<Option<Point>>) {
    && |turns| == |bars| && |legs| == |bars| + 1
    && forall i :: 0 <= i < |bars| ==>
         turns[i] == if i < size || legs[i + 1] == legs[i] then None
         else if legs[i + 1] == High then Some(Point(High, i - size, bars[i - size].high))
         else Some(Point(Low, i - size, bars[i - size].low))
  }

  /** The close of bar `i` lies beyond the level and the close before it does not. */
  predicate Crossed(bars: seq<Bar>, p: Point, i: nat)
    requires i < |bars|
  {
    && i > 0
    && if p.direction == High then bars[i - 1].close <= p.level < bars[i].close
       else bars[i - 1].close >= p.level > bars[i].close
  }

  /** Bar `i` is the first to cross the pivot since its confirmation, and no later one of its kind is confirmed. */
  ghost predicate Breaks(bars: seq<Bar>, turns: seq<Option<Point>>, i: nat, p: Point)
    requires i < |bars| == |turns|
  {
    && Crossed(bars, p, i)
    && exists c: nat ::
         && c <= i && turns[c] == Some(p)
         && (forall k :: c < k <= i && turns[k].Some? ==> turns[k].value.direction != p.direction)
         && (forall j :: c <= j < i ==> !Crossed(bars, p, j))
  }

  /** Event `k` is the last confirmed pivot of the kind. */
  ghost predicate LastPivotAt(history: seq<Event>, d: Direction, k: nat) {
    && k < |history| && history[k].kind == d && !history[k].broken
    && forall j :: k < j < |history| ==> history[j].kind != d || history[j].broken
  }

  ghost predicate LastBreakAt(history: seq<Event>, k: nat) {
    k < |history| && history[k].broken && forall j :: k < j < |history| ==> !history[j].broken
  }

  /** A low is bullish and lower or higher than the last low; a high is bearish and higher or lower than the last
      high. */
  ghost predicate Confirmed(history: seq<Event>, p: Point, i: nat, e: Event) {
    if p.direction == Low then
      var lower := exists k: nat :: LastPivotAt(history, Low, k) && p.level < history[k].level;
      e == Event(if lower then LL else HL, true, p.level, p.index, i, false, Low)
    else
      var higher := exists k: nat :: LastPivotAt(history, High, k) && p.level > history[k].level;
      e == Event(if higher then HH else LH, false, p.level, p.index, i, false, High)
  }

  /** A break goes the way of its pivot, and changes character if the last break went the other way. */
  ghost predicate Breached(history: seq<Event>, p: Point, i: nat, e: Event) {
    var turned := exists k: nat :: LastBreakAt(history, k) && history[k].bullish != (p.direction == High);
    e == Event(if turned then CHoCH else BOS, p.direction == High, p.level, i, i, true, p.direction)
  }

  ghost predicate AfterTurn(turn: Option<Point>, i: nat, before: seq<Event>, after: seq<Event>) {
    if turn.None? then after == before
    else after != [] && after[..|after| - 1] == before && Confirmed(before, turn.value, i, after[|after| - 1])
  }

  ghost predicate AfterBreak(bars: seq<Bar>, turns: seq<Option<Point>>, i: nat, before: seq<Event>, after: seq<Event>)
    requires i < |bars| == |turns|
  {
    if forall p :: !Breaks(bars, turns, i, p) then after == before
    else
      && after != [] && after[..|after| - 1] == before
      && exists p :: Breaks(bars, turns, i, p) && Breached(before, p, i, after[|after| - 1])
  }

  /** One bar: its turn, then its break. */
  ghost predicate Advances(bars: seq<Bar>, turns: seq<Option<Point>>, i: nat, before: seq<Event>, after: seq<Event>)
    requires i < |bars| == |turns|
  {
    exists turned :: AfterTurn(turns[i], i, before, turned) && AfterBreak(bars, turns, i, turned, after)
  }

  // ----- The rule does so

  lemma TurnsOutcome(bars: seq<Bar>, size: nat)
    requires size >= 1
    ensures Legged(bars, size, Legs(bars, size)) && Pivoted(bars, size, Legs(bars, size), Turns(bars, size))
  {
    hide Dominates;
    var legs := Legs(bars, size);
    forall i | 0 <= i < |bars|
      ensures legs[i + 1] == if Top(bars, size, i) then High else if Bottom(bars, size, i) then Low else legs[i]
    {
      if i >= size {
        ExtremesOutcome(bars, size, i, i - size);
      }
    }
  }

  lemma ExtremesOutcome(bars: seq<Bar>, size: nat, i: nat, candidate: nat)
    requires size <= i < |bars| && candidate == i - size
    ensures Dominates(bars, High, candidate, i) <==> Top(bars, size, i)
    ensures Dominates(bars, Low, candidate, i) <==> Bottom(bars, size, i)
  {
  }

  lemma {:induction false} LatestOutcome(turns: seq<Option<Point>>, d: Direction, n: nat)
    requires n <= |turns|
    ensures var c := LatestTurn(turns, d, n);
      forall k :: (if c.Some? then c.value < k else 0 <= k) && k < n && turns[k].Some? ==> turns[k].value.direction != d
  {
    if n > 0 {
      LatestOutcome(turns, d, n - 1);
    }
  }

  lemma CrossesOutcome(bars: seq<Bar>, p: Point, i: nat)
    requires i < |bars|
    ensures Crosses(bars, p, i) <==> Crossed(bars, p, i)
  {
  }

  lemma UncrossedOutcome(bars: seq<Bar>, p: Point, c: nat, n: nat)
    requires n <= |bars|
    ensures Uncrossed(bars, p, c, n) <==> forall j :: c <= j < n ==> !Crossed(bars, p, j)
  {
    forall j: nat | j < n ensures Crosses(bars, p, j) <==> Crossed(bars, p, j) {
      CrossesOutcome(bars, p, j);
    }
  }

  lemma BreakOutcome(bars: seq<Bar>, turns: seq<Option<Point>>, i: nat, p: Point)
    requires i < |bars| == |turns|
    ensures Break(bars, turns, p.direction, i) == Some(p) <==> Breaks(bars, turns, i, p)
  {
    hide Crosses, Crossed, Uncrossed;
    var latest := LatestTurn(turns, p.direction, i + 1);
    LatestOutcome(turns, p.direction, i + 1);
    CrossesOutcome(bars, p, i);
    if latest.Some? && turns[latest.value] == Some(p) {
      UncrossedOutcome(bars, p, latest.value, i);
    }
    forall c: nat
      | c <= i && turns[c] == Some(p)
        && forall k :: c < k <= i && turns[k].Some? ==> turns[k].value.direction != p.direction
      ensures latest == Some(c)
    {
    }
  }

  lemma {:induction false} LastPivotOutcome(history: seq<Event>, d: Direction)
    ensures LastPivot(history, d).Some? ==> exists k: nat :: LastPivotAt(history, d, k)
    ensures forall k: nat :: LastPivotAt(history, d, k) ==>
      k < |history| && LastPivot(history, d) == Some(history[k])
  {
    if history != [] {
      var last: nat := |history| - 1;
      if history[last].kind == d && !history[last].broken {
        assert LastPivotAt(history, d, last);
      } else {
        LastPivotOutcome(history[..last], d);
        assert forall k: nat :: LastPivotAt(history[..last], d, k) <==> LastPivotAt(history, d, k);
      }
    }
  }

  lemma {:induction false} LastBreakOutcome(history: seq<Event>)
    ensures LastEvent(history, true).Some? ==> exists k: nat :: LastBreakAt(history, k)
    ensures forall k: nat :: LastBreakAt(history, k) ==>
      k < |history| && LastEvent(history, true) == Some(history[k])
  {
    if history != [] {
      var last: nat := |history| - 1;
      if history[last].broken {
        assert LastBreakAt(history, last);
      } else {
        LastBreakOutcome(history[..last]);
        assert forall k: nat :: LastBreakAt(history[..last], k) <==> LastBreakAt(history, k);
      }
    }
  }

  lemma TurnOutcome(turn: Option<Point>, i: nat, before: seq<Event>)
    ensures AfterTurn(turn, i, before, WithTurn(before, turn, i))
  {
    hide LastPivot, LastPivotAt;
    if turn.Some? {
      var d, level, last := turn.value.direction, turn.value.level, LastPivot(before, turn.value.direction);
      LastPivotOutcome(before, d);
      assert last.Some? && level < last.value.level <==>
        exists k: nat :: LastPivotAt(before, d, k) && level < before[k].level;
      assert last.Some? && level > last.value.level <==>
        exists k: nat :: LastPivotAt(before, d, k) && level > before[k].level;
    }
  }

  lemma BreachOutcome(history: seq<Event>, p: Point, i: nat)
    ensures Breached(history, p, i, Breach(history, p, i))
  {
    hide LastEvent, LastBreakAt;
    var last := LastEvent(history, true);
    LastBreakOutcome(history);
    assert last.Some? && last.value.bullish != (p.direction == High) <==>
      exists k: nat :: LastBreakAt(history, k) && history[k].bullish != (p.direction == High);
  }

  lemma BreaksOutcome(bars: seq<Bar>, turns: seq<Option<Point>>, i: nat, before: seq<Event>)
    requires i < |bars| == |turns|
    ensures AfterBreak(bars, turns, i, before,
                       WithBreak(WithBreak(before, Break(bars, turns, High, i), i), Break(bars, turns, Low, i), i))
  {
    hide Break, Breaks, Breach, Breached;
    OneBreak(bars, turns, i);
    forall p: Point ensures Break(bars, turns, p.direction, i) == Some(p) <==> Breaks(bars, turns, i, p) {
      BreakOutcome(bars, turns, i, p);
    }
    forall d ensures Break(bars, turns, d, i).Some? ==>
        && Breaks(bars, turns, i, Break(bars, turns, d, i).value)
        && Breached(before, Break(bars, turns, d, i).value, i, Breach(before, Break(bars, turns, d, i).value, i))
    {
      if Break(bars, turns, d, i).Some? {
        BreachOutcome(before, Break(bars, turns, d, i).value, i);
      }
    }
  }

  lemma BarOutcome(bars: seq<Bar>, turns: seq<Option<Point>>, i: nat, next: nat)
    requires next == i + 1 <= |bars| == |turns|
    ensures Advances(bars, turns, i, Events(bars, turns, i), Events(bars, turns, next))
  {
    hide Break, WithTurn, WithBreak, AfterTurn, AfterBreak;
    TurnOutcome(turns[i], i, Events(bars, turns, i));
    BreaksOutcome(bars, turns, i, WithTurn(Events(bars, turns, i), turns[i], i));
  }

  /** The events known after each number of bars. */
  function StepsOf(bars: seq<Bar>, turns: seq<Option<Point>>): (r: seq<seq<Event>>)
    requires |bars| == |turns|
    ensures |r| == |bars| + 1 && r[0] == [] && forall n :: 0 <= n <= |bars| ==> r[n] == Events(bars, turns, n)
  {
    seq(|bars| + 1, n requires 0 <= n <= |bars| => Events(bars, turns, n))
  }

  /** The swing events of a series: its legs, their pivots, and from nothing the events of each bar. */
  lemma SwingsOutcome(bars: seq<Bar>, size: nat)
    returns (legs: seq<Direction>, turns: seq<Option<Point>>, steps: seq<seq<Event>>)
    requires size >= 1
    ensures Legged(bars, size, legs) && Pivoted(bars, size, legs, turns) && turns == Turns(bars, size)
    ensures |steps| == |bars| + 1 && steps[0] == []
    ensures forall i: nat :: i < |bars| ==> Advances(bars, turns, i, steps[i], steps[i + 1])
    ensures steps[|bars|] == Events(bars, Turns(bars, size), |bars|)
  {
    hide Legged, Pivoted, Advances, Events;
    TurnsOutcome(bars, size);
    legs, turns := Legs(bars, size), Turns(bars, size);
    steps := StepsOf(bars, turns);
    forall i: nat | i < |bars| ensures Advances(bars, turns, i, steps[i], steps[i + 1]) {
      BarOutcome(bars, turns, i, i + 1);
    }
  }
}
