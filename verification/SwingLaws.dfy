/** What every stream of swing events keeps, and equal highs and lows read off the same turns. */
module SwingLaws {
  import opened Sequences
  import opened Candles
  import opened Pivots
  import opened Swings

  /** How an event follows from those before it. Confirmed pivots alternate, starting with a low, and are
      classified against the last pivot of their kind. A break names the last pivot of its kind, not broken
      before; it changes character exactly when the break before it went the other way. */
  predicate Follows(history: seq<Event>, e: Event) {
    var lastPivot, lastBreak := LastEvent(history, false), LastEvent(history, true);
    var same, before := LastOfKind(history, e.kind), LastPivot(history, e.kind);
    if e.broken then
      && same.Some? && !same.value.broken && same.value.level == e.level
      && e.bullish == (e.kind == High)
      && e.tag == (if lastBreak.Some? && lastBreak.value.bullish != e.bullish then CHoCH else BOS)
    else
      && e.kind == (if lastPivot.None? then Low else Opposite(lastPivot.value.kind))
      && e.bullish == (e.kind == Low)
      && e.tag == (if e.kind == Low then (if before.Some? && e.level < before.value.level then LL else HL)
                   else (if before.Some? && e.level > before.value.level then HH else LH))
  }

  ghost predicate Grammatical(events: seq<Event>) {
    forall k :: 0 <= k < |events| ==> Follows(events[..k], events[k])
  }

  lemma GrammarAppend(events: seq<Event>, e: Event)
    requires Grammatical(events) && Follows(events, e)
    ensures Grammatical(events + [e])
  {
    var longer := events + [e];
    forall k | 0 <= k < |longer| ensures longer[..k] == events[..k] {
    }
    assert events[..|events|] == events;
  }

  /** The history knows the latest pivot of a kind and whether it was crossed. */
  ghost predicate Knows(bars: seq<Bar>, turns: seq<Option<Point>>, d: Direction, n: nat, m: nat, history: seq<Event>)
    requires n <= m <= |bars| == |turns|
  {
    var c, last, pivot := LatestTurn(turns, d, m), LastOfKind(history, d), LastPivot(history, d);
    && (c.None? <==> last.None?) && (c.None? <==> pivot.None?)
    && (c.Some? ==>
          && turns[c.value].value.level == last.value.level == pivot.value.level
          && (last.value.broken <==> !Uncrossed(bars, turns[c.value].value, c.value, n)))
  }

  predicate KnowsLeg(leg: Direction, history: seq<Event>) {
    var last := LastEvent(history, false);
    leg == if last.None? then High else last.value.kind
  }

  lemma TurnStep(bars: seq<Bar>, turns: seq<Option<Point>>, legs: seq<Direction>, history: seq<Event>, i: nat)
    requires Turning(bars, turns, legs) && i < |bars|
    requires Grammatical(history) && KnowsLeg(legs[i], history)
    requires Knows(bars, turns, High, i, i, history) && Knows(bars, turns, Low, i, i, history)
    ensures var after := WithTurn(history, turns[i], i);
      && Grammatical(after) && KnowsLeg(legs[i + 1], after)
      && Knows(bars, turns, High, i, i + 1, after) && Knows(bars, turns, Low, i, i + 1, after)
  {
    if turns[i].Some? {
      assert turns[i].value.direction == legs[i + 1] == Opposite(legs[i]);
      var e := Confirmation(history, turns[i].value, i);
      AppendEvent(history, e);
      GrammarAppend(history, e);
    }
  }

  lemma BreakStep(bars: seq<Bar>, turns: seq<Option<Point>>, d: Direction, history: seq<Event>, i: nat)
    requires |bars| == |turns| && i < |bars| && Grammatical(history) && Knows(bars, turns, d, i, i + 1, history)
    ensures var after := WithBreak(history, Break(bars, turns, d, i), i);
      && Grammatical(after) && LastEvent(after, false) == LastEvent(history, false)
      && Knows(bars, turns, d, i + 1, i + 1, after)
      && LastOfKind(after, Opposite(d)) == LastOfKind(history, Opposite(d))
      && LastPivot(after, Opposite(d)) == LastPivot(history, Opposite(d))
  {
    var p, c := Break(bars, turns, d, i), LatestTurn(turns, d, i + 1);
    if c.Some? {
      var pivot := turns[c.value].value;
      assert Uncrossed(bars, pivot, c.value, i + 1) == (Uncrossed(bars, pivot, c.value, i) && !Crosses(bars, pivot, i));
    }
    if p.Some? {
      var e := Breach(history, p.value, i);
      AppendEvent(history, e);
      GrammarAppend(history, e);
    }
  }

  lemma {:induction false} StreamKeeps(bars: seq<Bar>, turns: seq<Option<Point>>, legs: seq<Direction>, n: nat)
    requires Turning(bars, turns, legs) && n <= |bars|
    ensures var events := Events(bars, turns, n);
      && Grammatical(events) && KnowsLeg(legs[n], events)
      && Knows(bars, turns, High, n, n, events) && Knows(bars, turns, Low, n, n, events)
  {
    if n > 0 {
      var i := n - 1;
      StreamKeeps(bars, turns, legs, i);
      var confirmed := WithTurn(Events(bars, turns, i), turns[i], i);
      TurnStep(bars, turns, legs, Events(bars, turns, i), i);
      BreakStep(bars, turns, High, confirmed, i);
      BreakStep(bars, turns, Low, WithBreak(confirmed, Break(bars, turns, High, i), i), i);
    }
  }

  /** Every stream of swing events obeys the rule of how an event follows from those before it. */
  lemma SwingGrammar(bars: seq<Bar>, size: nat)
    requires size >= 1
    ensures Grammatical(Events(bars, Turns(bars, size), |bars|))
  {
    TurnsTurn(bars, size);
    StreamKeeps(bars, Turns(bars, size), Legs(bars, size), |bars|);
  }

  // ----- No look-ahead

  lemma {:induction false} LegIsCausal(bars: seq<Bar>, longer: seq<Bar>, size: nat, n: nat)
    requires size >= 1 && n <= |bars| && bars <= longer
    ensures Leg(bars, size, n) == Leg(longer, size, n)
  {
    hide Dominates;
    if n > size {
      LegIsCausal(bars, longer, size, n - 1);
      DominatesIsCausal(bars, longer, High, n - 1 - size, n - 1);
      DominatesIsCausal(bars, longer, Low, n - 1 - size, n - 1);
    }
  }

  lemma DominatesIsCausal(bars: seq<Bar>, longer: seq<Bar>, d: Direction, j: nat, i: nat)
    requires j <= i < |bars| && bars <= longer
    ensures Dominates(bars, d, j, i) == Dominates(longer, d, j, i)
  {
    assert forall k :: 0 <= k < |bars| ==> longer[k] == bars[k];
  }

  lemma TurnsAreCausal(bars: seq<Bar>, longer: seq<Bar>, size: nat)
    requires size >= 1 && bars <= longer
    ensures Turns(bars, size) <= Turns(longer, size)
  {
    forall i | 0 <= i < |bars| ensures Turns(bars, size)[i] == Turns(longer, size)[i] {
      LegIsCausal(bars, longer, size, i);
      LegIsCausal(bars, longer, size, i + 1);
    }
  }

  lemma {:induction false} LatestTurnIsCausal(turns: seq<Option<Point>>, more: seq<Option<Point>>, d: Direction, n: nat)
    requires n <= |turns| && turns <= more
    ensures LatestTurn(turns, d, n) == LatestTurn(more, d, n)
  {
    if n > 0 {
      LatestTurnIsCausal(turns, more, d, n - 1);
    }
  }

  lemma BreakIsCausal(bars: seq<Bar>, longer: seq<Bar>, turns: seq<Option<Point>>, more: seq<Option<Point>>,
                      d: Direction, i: nat)
    requires i < |bars| == |turns| && |longer| == |more| && bars <= longer && turns <= more
    ensures Break(bars, turns, d, i) == Break(longer, more, d, i)
  {
    LatestTurnIsCausal(turns, more, d, i + 1);
    forall p: Point, j: nat | j < |bars| ensures Crosses(bars, p, j) == Crosses(longer, p, j) {
    }
    var c := LatestTurn(turns, d, i + 1);
    if c.Some? {
      var p := turns[c.value].value;
      assert Uncrossed(bars, p, c.value, i) == Uncrossed(longer, p, c.value, i);
    }
  }

  lemma {:induction false} EventsAreCausal(bars: seq<Bar>, longer: seq<Bar>, turns: seq<Option<Point>>,
                                           more: seq<Option<Point>>, n: nat)
    requires n <= |bars| == |turns| && |longer| == |more| && bars <= longer && turns <= more
    ensures Events(bars, turns, n) == Events(longer, more, n)
  {
    hide Break, WithTurn, WithBreak;
    if n > 0 {
      EventsAreCausal(bars, longer, turns, more, n - 1);
      BreakIsCausal(bars, longer, turns, more, High, n - 1);
      BreakIsCausal(bars, longer, turns, more, Low, n - 1);
    }
  }

  /** The events bar `i` adds. */
  lemma {:induction false} EventsOfBar(bars: seq<Bar>, turns: seq<Option<Point>>, i: nat) returns (now: seq<Event>)
    requires i < |bars| == |turns|
    ensures Events(bars, turns, i + 1) == Events(bars, turns, i) + now
    ensures forall e :: e in now ==> e.known == i
  {
    hide LastPivot, LastEvent, LatestTurn, Break;
    var history := Events(bars, turns, i);
    var confirmed := WithTurn(history, turns[i], i);
    var first := WithBreak(confirmed, Break(bars, turns, High, i), i);
    now := WithBreak(first, Break(bars, turns, Low, i), i)[|history|..];
  }

  ghost predicate KnownBefore(events: seq<Event>, n: nat) {
    forall k :: 0 <= k < |events| ==> events[k].known < n
  }

  ghost predicate InOrder(events: seq<Event>) {
    forall j, k :: 0 <= j < k < |events| ==> events[j].known <= events[k].known
  }

  lemma AppendInOrder(events: seq<Event>, now: seq<Event>, i: nat)
    requires KnownBefore(events, i) && InOrder(events) && forall e :: e in now ==> e.known == i
    ensures KnownBefore(events + now, i + 1) && InOrder(events + now)
  {
    forall k | 0 <= k < |now| ensures now[k].known == i {
      assert now[k] in now;
    }
  }

  lemma LaterUnknown(known: Event -> bool, events: seq<Event>, now: seq<Event>, n: nat, i: nat)
    requires (forall e :: known(e) <==> e.known < n) && n <= i && forall e :: e in now ==> e.known == i
    ensures Filter(known, events + now) == Filter(known, events)
  {
    FilterNone(known, now);
    FilterConcat(known, events, now);
  }

  lemma AllKnown(known: Event -> bool, events: seq<Event>, n: nat)
    requires (forall e :: known(e) <==> e.known < n) && KnownBefore(events, n)
    ensures Filter(known, events) == events
  {
    FilterAll(known, events);
  }

  lemma {:induction false} EventsKnownBy(bars: seq<Bar>, turns: seq<Option<Point>>, n: nat, m: nat,
                                         known: Event -> bool)
    requires n <= m <= |bars| == |turns| && forall e :: known(e) <==> e.known < n
    ensures Events(bars, turns, n) == Filter(known, Events(bars, turns, m))
    decreases m
  {
    hide Events, Filter;
    if m > n {
      var last: nat := m - 1;
      var now := EventsOfBar(bars, turns, last);
      EventsKnownBy(bars, turns, n, last, known);
      LaterUnknown(known, Events(bars, turns, last), now, n, last);
    } else {
      KnownInOrder(bars, turns, n);
      AllKnown(known, Events(bars, turns, n), n);
    }
  }

  lemma NothingKnown()
    ensures KnownBefore([], 0) && InOrder([])
  {
  }

  lemma {:induction false} KnownInOrder(bars: seq<Bar>, turns: seq<Option<Point>>, n: nat)
    requires n <= |bars| == |turns|
    ensures KnownBefore(Events(bars, turns, n), n) && InOrder(Events(bars, turns, n))
  {
    hide Break, WithTurn, WithBreak, KnownBefore, InOrder;
    if n == 0 {
      NothingKnown();
    } else {
      KnownInOrder(bars, turns, n - 1);
      var now := EventsOfBar(bars, turns, n - 1);
      AppendInOrder(Events(bars, turns, n - 1), now, n - 1);
    }
  }

  /** The swing events of a prefix are exactly the events of the whole series known by its end. */
  lemma SwingEventsOfPrefix(bars: seq<Bar>, size: nat, n: nat)
    requires size >= 1 && n <= |bars|
    ensures Events(bars[..n], Turns(bars[..n], size), n)
         == Filter((e: Event) => e.known < n, Events(bars, Turns(bars, size), |bars|))
  {
    TurnsAreCausal(bars[..n], bars, size);
    EventsAreCausal(bars[..n], bars, Turns(bars[..n], size), Turns(bars, size), n);
    EventsKnownBy(bars, Turns(bars, size), n, |bars|, (e: Event) => e.known < n);
  }

  lemma TurnInBar(bars: seq<Bar>, turns: seq<Option<Point>>, i: nat)
    requires i < |bars| == |turns| && turns[i].Some?
    ensures Events(bars, turns, i) + [Confirmation(Events(bars, turns, i), turns[i].value, i)]
      <= Events(bars, turns, i + 1)
  {
    hide Break, Confirmation, Breach;
  }

  /** Each turn is reported, right after what was known before its bar. */
  lemma {:induction false} TurnIsReported(bars: seq<Bar>, turns: seq<Option<Point>>, i: nat, n: nat)
    requires i < n <= |bars| == |turns| && turns[i].Some?
    ensures Events(bars, turns, i) + [Confirmation(Events(bars, turns, i), turns[i].value, i)] <= Events(bars, turns, n)
    decreases n
  {
    hide Events, Confirmation;
    if i < n - 1 {
      TurnIsReported(bars, turns, i, n - 1);
      var now := EventsOfBar(bars, turns, n - 1);
    } else {
      TurnInBar(bars, turns, i);
    }
  }

  /** A confirmation reports the turn of its bar; a break is the first crossing of the latest pivot of its kind. */
  ghost predicate Reports(bars: seq<Bar>, turns: seq<Option<Point>>, e: Event)
    requires |bars| == |turns|
  {
    && e.known < |bars|
    && if e.broken then Break(bars, turns, e.kind, e.known).Some? && e.event == e.known
                        && Break(bars, turns, e.kind, e.known).value.level == e.level
       else turns[e.known] == Some(Point(e.kind, e.event, e.level))
  }

  lemma BarReports(bars: seq<Bar>, turns: seq<Option<Point>>, i: nat, next: nat)
    requires next == i + 1 <= |bars| == |turns|
    ensures forall e :: e in Events(bars, turns, next) ==>
      e in Events(bars, turns, i) || (e.known == i && Reports(bars, turns, e))
    ensures forall e :: e in Events(bars, turns, i) ==> e in Events(bars, turns, next)
    ensures forall d :: Break(bars, turns, d, i).Some? ==>
              exists e :: e in Events(bars, turns, next) && e.broken && e.kind == d && e.known == i
  {
    hide Break, WithTurn, WithBreak, LastPivot, LastEvent;
    var history := Events(bars, turns, i);
    var confirmed := WithTurn(history, turns[i], i);
    var first := WithBreak(confirmed, Break(bars, turns, High, i), i);
    TurnMembers(history, turns[i], i);
    BreakMembers(confirmed, Break(bars, turns, High, i), i);
    BreakMembers(first, Break(bars, turns, Low, i), i);
    if Break(bars, turns, High, i).Some? {
      assert Breach(confirmed, Break(bars, turns, High, i).value, i) in Events(bars, turns, next);
    }
    if Break(bars, turns, Low, i).Some? {
      assert Breach(first, Break(bars, turns, Low, i).value, i) in Events(bars, turns, next);
    }
  }

  lemma TurnMembers(history: seq<Event>, p: Option<Point>, i: nat)
    ensures forall e ::
      e in WithTurn(history, p, i) <==> e in history || (p.Some? && e == Confirmation(history, p.value, i))
  {
    hide Confirmation;
  }

  lemma BreakMembers(history: seq<Event>, p: Option<Point>, i: nat)
    ensures forall e :: e in WithBreak(history, p, i) <==> e in history || (p.Some? && e == Breach(history, p.value, i))
  {
    hide Breach;
  }

  /** The stream reports turns and breaks, all of them and nothing else. */
  lemma {:induction false} EventsExact(bars: seq<Bar>, turns: seq<Option<Point>>, n: nat)
    requires n <= |bars| == |turns|
    ensures forall e :: e in Events(bars, turns, n) ==> e.known < n && Reports(bars, turns, e)
    ensures forall d, i :: 0 <= i < n && Break(bars, turns, d, i).Some? ==>
              exists e :: e in Events(bars, turns, n) && e.broken && e.kind == d && e.known == i
    ensures forall i :: 0 <= i < n && turns[i].Some? ==>
              exists e :: e in Events(bars, turns, n) && !e.broken && e.kind == turns[i].value.direction && e.known == i
  {
    hide Events, Break, Reports;
    if n > 0 {
      EventsExact(bars, turns, n - 1);
      BarReports(bars, turns, n - 1, n);
      if turns[n - 1].Some? {
        TurnInBar(bars, turns, n - 1);
        var e := Confirmation(Events(bars, turns, n - 1), turns[n - 1].value, n - 1);
        assert e in Events(bars, turns, n - 1) + [e];
        assert e in Events(bars, turns, n);
      }
    } else {
      NoEvents(bars, turns);
    }
  }

  lemma NoEvents(bars: seq<Bar>, turns: seq<Option<Point>>)
    requires |bars| == |turns|
    ensures Events(bars, turns, 0) == []
  {
  }
}
