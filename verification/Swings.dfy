/** Swing structure: legs confirmed `size` bars late, their breaks, and equal highs and lows. */
module Swings {
  import opened Sequences
  import opened Candles
  import opened Pivots

  // ----- Legs

  /** Bar `j` lies strictly beyond all of `bars[j + 1..i + 1]`. */
  predicate Dominates(bars: seq<Bar>, d: Direction, j: nat, i: nat)
    requires j <= i < |bars|
  {
    forall k :: j < k <= i ==> Exceeds(d, LevelOf(bars[j], d), LevelOf(bars[k], d))
  }

  /** The leg after `n` bars, named by the kind of pivot it starts from; a series starts as if from a high. */
  function Leg(bars: seq<Bar>, size: nat, n: nat): Direction
    requires size >= 1 && n <= |bars|
  {
    if n <= size then High
    else if Dominates(bars, High, n - 1 - size, n - 1) then High
    else if Dominates(bars, Low, n - 1 - size, n - 1) then Low
    else Leg(bars, size, n - 1)
  }

  /** The pivot that bar `i` confirms: the bar `size` back, where the leg turns. */
  function Turn(bars: seq<Bar>, size: nat, i: nat): Option<Point>
    requires size >= 1 && i < |bars|
  {
    var leg := Leg(bars, size, i + 1);
    if leg == Leg(bars, size, i) || i < size then None else Some(Point(leg, i - size, LevelOf(bars[i - size], leg)))
  }

  function Turns(bars: seq<Bar>, size: nat): (r: seq<Option<Point>>)
    requires size >= 1
    ensures |r| == |bars| && forall i :: 0 <= i < |bars| ==> r[i] == Turn(bars, size, i)
  {
    seq(|bars|, i requires 0 <= i < |bars| => Turn(bars, size, i))
  }

  /** The bar that confirmed the latest pivot of a kind, among the first `n` bars. */
  function LatestTurn(turns: seq<Option<Point>>, d: Direction, n: nat): (r: Option<nat>)
    requires n <= |turns|
    ensures r.Some? ==> r.value < n && turns[r.value].Some? && turns[r.value].value.direction == d
  {
    if n == 0 then None
    else if turns[n - 1].Some? && turns[n - 1].value.direction == d then Some(n - 1)
    else LatestTurn(turns, d, n - 1)
  }

  /** Turns alternate, starting with a low, and stand on earlier bars. */
  ghost predicate Turning(bars: seq<Bar>, turns: seq<Option<Point>>, legs: seq<Direction>) {
    && |turns| == |bars| && |legs| == |bars| + 1 && legs[0] == High
    && forall i :: 0 <= i < |bars| ==>
         if turns[i].None? then legs[i + 1] == legs[i]
         else legs[i + 1] != legs[i] && turns[i].value.direction == legs[i + 1] && turns[i].value.index < i
  }

  function Legs(bars: seq<Bar>, size: nat): (r: seq<Direction>)
    requires size >= 1
    ensures |r| == |bars| + 1 && forall i :: 0 <= i <= |bars| ==> r[i] == Leg(bars, size, i)
  {
    seq(|bars| + 1, i requires 0 <= i <= |bars| => Leg(bars, size, i))
  }

  lemma TurnsTurn(bars: seq<Bar>, size: nat)
    requires size >= 1
    ensures Turning(bars, Turns(bars, size), Legs(bars, size))
  {
    var turns, legs := Turns(bars, size), Legs(bars, size);
    forall i | 0 <= i < |bars|
      ensures if turns[i].None? then legs[i + 1] == legs[i]
              else legs[i + 1] != legs[i] && turns[i].value.direction == legs[i + 1] && turns[i].value.index < i
    {
    }
  }

  // ----- Breaks

  /** The close of bar `i` passes strictly beyond the pivot's level, from a close that did not. */
  predicate Crosses(bars: seq<Bar>, p: Point, i: nat)
    requires i < |bars|
  {
    var close := bars[i].close;
    var previous := if i > 0 then bars[i - 1].close else close;
    if p.direction == High then previous <= p.level < close else previous >= p.level > close
  }

  /** No bar of `[c, n)` crosses. */
  predicate Uncrossed(bars: seq<Bar>, p: Point, c: nat, n: nat)
    requires n <= |bars|
  {
    forall j :: c <= j < n ==> !Crosses(bars, p, j)
  }

  /** The latest pivot of a kind, if bar `i` is the first to cross it since its confirmation. */
  function Break(bars: seq<Bar>, turns: seq<Option<Point>>, d: Direction, i: nat): (r: Option<Point>)
    requires i < |bars| == |turns|
    ensures r.Some? ==> r.value.direction == d
  {
    var c := LatestTurn(turns, d, i + 1);
    if c.Some? && Uncrossed(bars, turns[c.value].value, c.value, i) && Crosses(bars, turns[c.value].value, i)
    then turns[c.value] else None
  }

  /** No bar breaks both pivots. */
  lemma OneBreak(bars: seq<Bar>, turns: seq<Option<Point>>, i: nat)
    requires i < |bars| == |turns|
    ensures Break(bars, turns, High, i).None? || Break(bars, turns, Low, i).None?
  {
  }

  // ----- Events

  datatype Tag = LL | HL | HH | LH | CHoCH | BOS

  datatype Event = Event(tag: Tag, bullish: bool, level: real, event: nat, known: nat, broken: bool, kind: Direction)

  /** The latest event about pivots of a kind. */
  function LastOfKind(history: seq<Event>, d: Direction): Option<Event> {
    if history == [] then None
    else if history[|history| - 1].kind == d then Some(history[|history| - 1])
    else LastOfKind(history[..|history| - 1], d)
  }

  /** The latest confirmed pivot of a kind. */
  function LastPivot(history: seq<Event>, d: Direction): Option<Event> {
    if history == [] then None
    else if history[|history| - 1].kind == d && !history[|history| - 1].broken then Some(history[|history| - 1])
    else LastPivot(history[..|history| - 1], d)
  }

  /** The latest event that is a break, or that is a confirmation. */
  function LastEvent(history: seq<Event>, broken: bool): Option<Event> {
    if history == [] then None
    else if history[|history| - 1].broken == broken then Some(history[|history| - 1])
    else LastEvent(history[..|history| - 1], broken)
  }

  function Confirmation(history: seq<Event>, p: Point, i: nat): Event {
    var previous := LastPivot(history, p.direction);
    if p.direction == Low
    then Event(if previous.Some? && p.level < previous.value.level then LL else HL, true, p.level, p.index, i, false,
               Low)
    else Event(if previous.Some? && p.level > previous.value.level then HH else LH, false, p.level, p.index, i, false,
               High)
  }

  function Breach(history: seq<Event>, p: Point, i: nat): Event {
    var previous, bullish := LastEvent(history, true), p.direction == High;
    Event(if previous.Some? && previous.value.bullish != bullish then CHoCH else BOS, bullish, p.level, i, i, true,
          p.direction)
  }

  function WithTurn(history: seq<Event>, p: Option<Point>, i: nat): seq<Event> {
    if p.None? then history else history + [Confirmation(history, p.value, i)]
  }

  function WithBreak(history: seq<Event>, p: Option<Point>, i: nat): seq<Event> {
    if p.None? then history else history + [Breach(history, p.value, i)]
  }

  /** The events known after `n` bars: at each bar the pivot it confirms, then the pivot it breaks. */
  function Events(bars: seq<Bar>, turns: seq<Option<Point>>, n: nat): seq<Event>
    requires n <= |bars| == |turns|
  {
    if n == 0 then []
    else
      var i := n - 1;
      var confirmed := WithTurn(Events(bars, turns, i), turns[i], i);
      WithBreak(WithBreak(confirmed, Break(bars, turns, High, i), i), Break(bars, turns, Low, i), i)
  }

  // ----- The loop with mutable pivots

  class SwingPivot {
    const level: real
    const index: nat
    var crossed: bool

    constructor (level: real, index: nat)
      ensures this.level == level && this.index == index && !crossed
    {
      this.level, this.index, this.crossed := level, index, false;
    }
  }

  /** The object stands for the latest pivot of its kind after `n` bars, and remembers whether it was crossed. */
  ghost predicate Represents(pivot: SwingPivot?, bars: seq<Bar>, turns: seq<Option<Point>>, d: Direction, n: nat,
                             m: nat)
    requires n <= m <= |bars| == |turns|
    reads pivot
  {
    var c := LatestTurn(turns, d, m);
    && (pivot == null <==> c.None?)
    && (pivot != null ==>
          && turns[c.value].value == Point(d, pivot.index, pivot.level)
          && pivot.crossed == !Uncrossed(bars, turns[c.value].value, c.value, n))
  }

  /** The leg after bar `i`, from the extremes of the `size` bars after the candidate. */
  method NextLeg(bars: seq<Bar>, size: nat, leg: Direction, i: nat) returns (next: Direction)
    requires 1 <= size <= i < |bars| && leg == Leg(bars, size, i)
    ensures next == Leg(bars, size, i + 1)
  {
    var candidate := i - size;
    var highest := Extreme(bars, High, candidate + 1, i + 1);
    var lowest := Extreme(bars, Low, candidate + 1, i + 1);
    assert Exceeds(High, bars[candidate].high, highest) == Dominates(bars, High, candidate, i);
    assert Exceeds(Low, bars[candidate].low, lowest) == Dominates(bars, Low, candidate, i);
    next := if bars[candidate].high > highest then High else if bars[candidate].low < lowest then Low else leg;
  }

  /** Whether the pivot is broken at bar `i`, marking it crossed. */
  method Test(pivot: SwingPivot?, bars: seq<Bar>, d: Direction, i: nat, ghost turns: seq<Option<Point>>)
    returns (broken: bool)
    requires i < |bars| == |turns| && Represents(pivot, bars, turns, d, i, i + 1)
    modifies pivot
    ensures Represents(pivot, bars, turns, d, i + 1, i + 1)
    ensures broken == Break(bars, turns, d, i).Some?
    ensures broken ==> pivot != null && Break(bars, turns, d, i) == Some(Point(d, pivot.index, pivot.level))
  {
    var close := bars[i].close;
    var previousClose := if i > 0 then bars[i - 1].close else close;
    if pivot != null {
      ghost var c := LatestTurn(turns, d, i + 1).value;
      assert Uncrossed(bars, turns[c].value, c, i + 1) ==
        (Uncrossed(bars, turns[c].value, c, i) && !Crosses(bars, turns[c].value, i));
    }
    broken := pivot != null && !pivot.crossed
              && (if d == High then previousClose <= pivot.level < close else previousClose >= pivot.level > close);
    if broken {
      pivot.crossed := true;
    }
  }

  function LevelIn(e: Option<Event>): Option<real> {
    if e.Some? then Some(e.value.level) else None
  }

  function Trend(history: seq<Event>): int {
    var last := LastEvent(history, true);
    if last.None? then 0 else if last.value.bullish then 1 else -1
  }

  /** What the loop remembers of the events so far. */
  datatype Memory = Memory(previousHigh: Option<real>, previousLow: Option<real>, trend: int)

  predicate Remembers(memory: Memory, history: seq<Event>) {
    && memory.previousHigh == LevelIn(LastPivot(history, High))
    && memory.previousLow == LevelIn(LastPivot(history, Low))
    && memory.trend == Trend(history)
  }

  lemma AppendEvent(history: seq<Event>, e: Event)
    ensures forall d ::
      LastPivot(history + [e], d) == if e.kind == d && !e.broken then Some(e) else LastPivot(history, d)
    ensures forall d :: LastOfKind(history + [e], d) == if e.kind == d then Some(e) else LastOfKind(history, d)
    ensures forall b :: LastEvent(history + [e], b) == if e.broken == b then Some(e) else LastEvent(history, b)
  {
    assert (history + [e])[..|history|] == history;
  }

  method Confirm(memory: Memory, history: seq<Event>, p: Point, i: nat) returns (after: Memory, events: seq<Event>)
    requires Remembers(memory, history)
    ensures events == WithTurn(history, Some(p), i) && Remembers(after, events)
  {
    var e;
    if p.direction == Low {
      var lower := memory.previousLow.Some? && p.level < memory.previousLow.value;
      e := Event(if lower then LL else HL, true, p.level, p.index, i, false, Low);
      after := memory.(previousLow := Some(p.level));
    } else {
      var higher := memory.previousHigh.Some? && p.level > memory.previousHigh.value;
      e := Event(if higher then HH else LH, false, p.level, p.index, i, false, High);
      after := memory.(previousHigh := Some(p.level));
    }
    assert e == Confirmation(history, p, i);
    AppendEvent(history, e);
    events := history + [e];
  }

  method Breached(memory: Memory, history: seq<Event>, p: Point, i: nat) returns (after: Memory, events: seq<Event>)
    requires Remembers(memory, history)
    ensures events == WithBreak(history, Some(p), i) && Remembers(after, events)
  {
    var turned := if p.direction == High then memory.trend == -1 else memory.trend == 1;
    var e := Event(if turned then CHoCH else BOS, p.direction == High, p.level, i, i, true, p.direction);
    assert e == Breach(history, p, i);
    AppendEvent(history, e);
    events := history + [e];
    after := memory.(trend := if p.direction == High then 1 else -1);
  }

  /** The two live pivots. */
  ghost predicate Live(high: SwingPivot?, low: SwingPivot?, bars: seq<Bar>, turns: seq<Option<Point>>, n: nat, m: nat)
    requires n <= m <= |bars| == |turns|
    reads high, low
  {
    && Represents(high, bars, turns, High, n, m) && Represents(low, bars, turns, Low, n, m)
    && (high != null ==> high != low)
  }

  lemma StillLive(high: SwingPivot?, low: SwingPivot?, bars: seq<Bar>, turns: seq<Option<Point>>, i: nat)
    requires i < |bars| == |turns| && turns[i].None? && Live(high, low, bars, turns, i, i)
    ensures Live(high, low, bars, turns, i, i + 1)
  {
  }

  /** A pivot confirmed at bar `i` replaces the live pivot of its kind. */
  method Replace(high: SwingPivot?, low: SwingPivot?, bars: seq<Bar>, size: nat, next: Direction, i: nat,
                 ghost turns: seq<Option<Point>>)
    returns (newHigh: SwingPivot?, newLow: SwingPivot?)
    requires 1 <= size <= i < |bars| == |turns| && Live(high, low, bars, turns, i, i)
    requires turns[i] == Some(Point(next, i - size, LevelOf(bars[i - size], next)))
    ensures Live(newHigh, newLow, bars, turns, i, i + 1)
    ensures (newHigh == high || fresh(newHigh)) && (newLow == low || fresh(newLow))
  {
    newHigh, newLow := high, low;
    if next == Low {
      newLow := new SwingPivot(bars[i - size].low, i - size);
    } else {
      newHigh := new SwingPivot(bars[i - size].high, i - size);
    }
  }

  /** The closing price of bar `i` against both live pivots. */
  method TestBoth(high: SwingPivot?, low: SwingPivot?, bars: seq<Bar>, memory: Memory, events: seq<Event>, i: nat,
                  ghost turns: seq<Option<Point>>)
    returns (after: Memory, extended: seq<Event>)
    requires i < |bars| == |turns| && Live(high, low, bars, turns, i, i + 1) && Remembers(memory, events)
    modifies high, low
    ensures Live(high, low, bars, turns, i + 1, i + 1) && Remembers(after, extended)
    ensures extended == WithBreak(WithBreak(events, Break(bars, turns, High, i), i), Break(bars, turns, Low, i), i)
  {
    after, extended := memory, events;
    var broken := Test(high, bars, High, i, turns);
    if broken {
      after, extended := Breached(after, extended, Point(High, high.index, high.level), i);
    }
    assert Represents(low, bars, turns, Low, i, i + 1);
    broken := Test(low, bars, Low, i, turns);
    if broken {
      after, extended := Breached(after, extended, Point(Low, low.index, low.level), i);
    }
  }

  /** Bar `i` may turn the leg. */
  method TestTurn(high: SwingPivot?, low: SwingPivot?, bars: seq<Bar>, size: nat, leg: Direction, memory: Memory,
                  events: seq<Event>, i: nat, ghost turns: seq<Option<Point>>)
    returns (newHigh: SwingPivot?, newLow: SwingPivot?, next: Direction, after: Memory, extended: seq<Event>)
    requires size >= 1 && i < |bars| && turns == Turns(bars, size) && Live(high, low, bars, turns, i, i)
    requires leg == Leg(bars, size, i) && Remembers(memory, events)
    ensures Live(newHigh, newLow, bars, turns, i, i + 1) && next == Leg(bars, size, i + 1)
    ensures (newHigh == high || fresh(newHigh)) && (newLow == low || fresh(newLow))
    ensures extended == WithTurn(events, turns[i], i) && Remembers(after, extended)
  {
    newHigh, newLow, next, after, extended := high, low, leg, memory, events;
    if i >= size {
      next := NextLeg(bars, size, leg, i);
      if next != leg {
        after, extended := Confirm(memory, events, Point(next, i - size, LevelOf(bars[i - size], next)), i);
        newHigh, newLow := Replace(high, low, bars, size, next, i, turns);
        return;
      }
    }
    StillLive(high, low, bars, turns, i);
  }

  method SwingEvents(bars: seq<Bar>, size: nat) returns (events: seq<Event>)
    requires size >= 1
    ensures events == Events(bars, Turns(bars, size), |bars|)
  {
    ghost var turns := Turns(bars, size);
    events := [];
    var leg, memory := High, Memory(None, None, 0);
    var high: SwingPivot?, low: SwingPivot? := null, null;
    for i := 0 to |bars|
      invariant leg == Leg(bars, size, i) && Live(high, low, bars, turns, i, i)
      invariant (high != null ==> fresh(high)) && (low != null ==> fresh(low))
      invariant events == Events(bars, turns, i) && Remembers(memory, events)
    {
      high, low, leg, memory, events := TestTurn(high, low, bars, size, leg, memory, events, i, turns);
      memory, events := TestBoth(high, low, bars, memory, events, i, turns);
    }
  }
}
