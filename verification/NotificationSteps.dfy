/** What one call does to the account of a destination, and when a batch delivers one key twice. */
module NotificationSteps {
  import opened Sequences
  import opened NotificationLedger
  import opened NotificationAdapter

  // ----- Single steps of the account

  /** The whole queue is settled in one record: the duplicates are left out, the adapter is asked for the rest, and
      exactly the successes whose recording worked are in the book. */
  ghost predicate FlushedAt(a: Ledger, b: Ledger, now: int) {
    && |b.log| == |a.log| + 1
    && var r, eligible := b.log[|a.log|], Chosen(a.d, a.deliveredAt, a.pending, now, false);
       && b == Account(a.d, a.arrived, a.log + [r], [], Marked(a.d, a.deliveredAt, r.recorded, now))
       && r.now == now && r.handed + r.dropped == eligible
       && r.deduplicated == Chosen(a.d, a.deliveredAt, a.pending, now, true)
       && Told(r) && Asked(a.d, eligible, r.calls)
  }

  /** An arriving duplicate is noted, and the queue stays. */
  ghost predicate LeftOutAt(a: Ledger, b: Ledger, e: Event, now: int) {
    b == Account(a.d, a.arrived + [e], a.log + [Skipped(now, e)], a.pending, a.deliveredAt)
  }

  /** With nothing queued an event is left out as a duplicate, or settled by one call and recorded exactly if the call
      succeeds and its recording works. */
  ghost predicate DeliveredAt(a: Ledger, b: Ledger, e: Event, now: int) {
    if Duplicate(a.d, a.deliveredAt, e, now) then LeftOutAt(a, b, e, now)
    else
      && |b.log| == |a.log| + 1 && |b.log[|a.log|].calls| == 1
      && var call := b.log[|a.log|].calls[0];
         var r := Single(now, e, call);
         && call.events == [e]
         && b == Account(a.d, a.arrived + [e], a.log + [r], [], Marked(a.d, a.deliveredAt, r.recorded, now))
  }

  ghost predicate QueuedAt(a: Ledger, b: Ledger, e: Event) {
    b == Account(a.d, a.arrived + [e], a.log, a.pending + [e], a.deliveredAt)
  }

  // ----- The steps of one destination

  /** The account, the deadline of its queue and how often the clock has been read. */
  datatype State = State(ledger: Ledger, deadline: Option<int>, read: nat)

  /** The queue is flushed, if it holds anything. */
  ghost predicate Flushed(s: State, t: State, readings: nat -> int) {
    if s.ledger.pending == [] then t.ledger == s.ledger && t.read == s.read
    else FlushedAt(s.ledger, t.ledger, readings(s.read)) && t.read == s.read + 1
  }

  /** The deadline has come, or the event belongs to another run or bar than the queue. */
  predicate FlushesFirst(pending: seq<Event>, deadline: Option<int>, e: Event, now: int) {
    (deadline.Some? && now >= deadline.value) || (pending != [] && !SameBoundary(pending[0], e))
  }

  /** The event joins the queue, which sets the deadline if it was empty and is flushed exactly if its bound is
      reached. */
  ghost predicate Joined(s: State, queued: Ledger, t: State, e: Event, now: int, readings: nat -> int) {
    && QueuedAt(s.ledger, queued, e)
    && if |queued.pending| >= s.ledger.d.maximumEvents
       then FlushedAt(queued, t.ledger, readings(s.read)) && t.deadline == None && t.read == s.read + 1
       else
         && t.ledger == queued && t.read == s.read
         && t.deadline == if s.ledger.pending == [] then Some(now + s.ledger.d.flushSeconds) else s.deadline
  }

  /** A matching event is left out as a duplicate; otherwise it joins the queue, which is flushed before exactly if
      the deadline has come or the boundary changes. */
  ghost predicate Offered(s: State, mid: Ledger, queued: Ledger, t: State, e: Event, readings: nat -> int) {
    var a, now := s.ledger, readings(s.read);
    if Duplicate(a.d, a.deliveredAt, e, now) then
      LeftOutAt(a, t.ledger, e, now) && t.deadline == s.deadline && t.read == s.read + 1
    else if FlushesFirst(a.pending, s.deadline, e, now) then
      FlushedAt(a, mid, readings(s.read + 1)) && Joined(State(mid, None, s.read + 2), queued, t, e, now, readings)
    else Joined(State(a, s.deadline, s.read + 1), queued, t, e, now, readings)
  }

  /** A run event flushes the queue and is settled on its own. */
  ghost predicate Announced(s: State, mid: Ledger, t: State, e: Event, readings: nat -> int) {
    var n := if s.ledger.pending == [] then s.read else s.read + 1;
    && Flushed(s, State(mid, None, n), readings)
    && DeliveredAt(mid, t.ledger, e, readings(n)) && t.deadline == None && t.read == n + 1
  }

  predicate OfRun(e: Event) {
    e.kind == RunStarted || e.kind == RunSucceeded || e.kind == RunFailed
  }

  /** What one event does to one destination. */
  ghost predicate Step(s: State, t: State, e: Event, readings: nat -> int) {
    if !Matches(s.ledger.d, e) then t == s
    else if OfRun(e) then exists mid: Ledger :: Announced(s, mid, t, e, readings)
    else exists mid: Ledger, queued: Ledger :: Offered(s, mid, queued, t, e, readings)
  }

  /** What a sequence of events does to it, one after the other. */
  ghost predicate Steps(s: State, t: State, events: seq<Event>, readings: nat -> int)
    decreases |events|
  {
    if events == [] then t == s
    else
      var front, last := events[..|events| - 1], events[|events| - 1];
      exists mid: State :: Steps(s, mid, front, readings) && Step(mid, t, last, readings)
  }

  lemma NoSteps(s: State, readings: nat -> int)
    ensures Steps(s, s, [], readings)
  {
  }

  lemma StepsMore(s: State, mid: State, t: State, events: seq<Event>, e: Event, next: seq<Event>, readings: nat -> int)
    requires Steps(s, mid, events, readings) && Step(mid, t, e, readings) && next == events + [e]
    ensures Steps(s, t, next, readings)
  {
    hide Step;
    assert next[..|next| - 1] == events && next[|next| - 1] == e;
  }

  // ----- What the steps do to the account

  /** The account has grown by the matching events, and by whatever was settled meanwhile. */
  ghost predicate Serves(a: Ledger, b: Ledger, events: seq<Event>) {
    b.d == a.d && b.arrived == a.arrived + Matching(a.d, events) && a.log <= b.log
  }

  lemma OfferedArrives(s: State, mid: Ledger, queued: Ledger, t: State, e: Event, readings: nat -> int)
    requires Offered(s, mid, queued, t, e, readings)
    ensures t.ledger.d == s.ledger.d && t.ledger.arrived == s.ledger.arrived + [e] && s.ledger.log <= t.ledger.log
  {
    hide Chosen, Marked, Told, Asked, Duplicate, FlushesFirst, Balanced;
  }

  lemma AnnouncedArrives(s: State, mid: Ledger, t: State, e: Event, readings: nat -> int)
    requires Announced(s, mid, t, e, readings)
    ensures t.ledger.d == s.ledger.d && t.ledger.arrived == s.ledger.arrived + [e] && s.ledger.log <= t.ledger.log
  {
    hide Chosen, Marked, Told, Asked, Duplicate, Balanced, Single;
  }

  lemma StepServes(s: State, t: State, e: Event, readings: nat -> int)
    requires Step(s, t, e, readings)
    ensures Serves(s.ledger, t.ledger, [e])
  {
    hide Announced, Offered, Balanced;
    assert Matching(s.ledger.d, [e]) == if Matches(s.ledger.d, e) then [e] else [] by {
      assert [e][..0] == [];
    }
    if Matches(s.ledger.d, e) {
      if OfRun(e) {
        var mid: Ledger :| Announced(s, mid, t, e, readings);
        AnnouncedArrives(s, mid, t, e, readings);
      } else {
        var mid: Ledger, queued: Ledger :| Offered(s, mid, queued, t, e, readings);
        OfferedArrives(s, mid, queued, t, e, readings);
      }
    }
  }

  /** Exactly the matching events arrive, in order, and what was settled stays settled. */
  lemma {:induction false} StepsServe(s: State, t: State, events: seq<Event>, readings: nat -> int)
    requires Steps(s, t, events, readings)
    ensures Serves(s.ledger, t.ledger, events)
    decreases |events|
  {
    hide Step, Matching, Balanced;
    if events == [] {
      NothingMatches(s.ledger.d);
    } else {
      var front, last := events[..|events| - 1], events[|events| - 1];
      var mid: State :| Steps(s, mid, front, readings) && Step(mid, t, last, readings);
      StepsServe(s, mid, front, readings);
      StepServes(mid, t, last, readings);
      ServesMore(s.ledger, mid.ledger, t.ledger, front, last, events);
    }
  }

  lemma NothingMatches(d: Destination)
    ensures Matching(d, []) == []
  {
  }

  lemma ServesMore(a: Ledger, b: Ledger, c: Ledger, events: seq<Event>, e: Event, next: seq<Event>)
    requires Serves(a, b, events) && Serves(b, c, [e]) && next == events + [e]
    ensures Serves(a, c, next)
  {
    hide Matching, Balanced;
    MatchingNext(a.d, events, e);
    var head, last := Matching(a.d, events), Matching(a.d, [e]);
    assert (a.arrived + head) + last == a.arrived + (head + last);
  }

  lemma MatchingNext(d: Destination, events: seq<Event>, e: Event)
    ensures Matching(d, events + [e]) == Matching(d, events) + Matching(d, [e])
  {
    var longer := events + [e];
    assert longer[..|longer| - 1] == events && longer[|longer| - 1] == e;
    var one := [e];
    assert one[..|one| - 1] == [] && one[|one| - 1] == e;
    assert Matching(d, one) == if Matches(d, e) then [e] else [];
  }

  // ----- One key twice in a batch

  /** Two of the events have one key. */
  predicate Repeats(d: Destination, events: seq<Event>) {
    exists j, k :: 0 <= j < k < |events| && d.keyOf(events[j]) == d.keyOf(events[k])
  }

  /** Two of the queued events have one key that was not recorded within the window. */
  predicate RepeatsFresh(d: Destination, deliveredAt: Book, events: seq<Event>, now: int) {
    exists j, k ::
      0 <= j < k < |events| && d.keyOf(events[j]) == d.keyOf(events[k]) && !Duplicate(d, deliveredAt, events[j], now)
  }

  predicate HasKey(d: Destination, events: seq<Event>, key: nat) {
    exists k :: 0 <= k < |events| && d.keyOf(events[k]) == key
  }

  lemma HasKeyAppend(d: Destination, events: seq<Event>, e: Event, key: nat)
    ensures HasKey(d, events + [e], key) <==> HasKey(d, events, key) || d.keyOf(e) == key
  {
    var longer := events + [e];
    assert longer[|events|] == e && forall k :: 0 <= k < |events| ==> longer[k] == events[k];
  }

  lemma RepeatsAppend(d: Destination, events: seq<Event>, e: Event)
    ensures Repeats(d, events + [e]) <==> Repeats(d, events) || HasKey(d, events, d.keyOf(e))
  {
    var longer := events + [e];
    assert longer[|events|] == e && forall k :: 0 <= k < |events| ==> longer[k] == events[k];
    forall k | 0 <= k < |events| && d.keyOf(events[k]) == d.keyOf(e) ensures Repeats(d, longer) {
      assert d.keyOf(longer[k]) == d.keyOf(longer[|events|]);
    }
    forall j, k | 0 <= j < k < |events| && d.keyOf(events[j]) == d.keyOf(events[k]) ensures Repeats(d, longer) {
      assert d.keyOf(longer[j]) == d.keyOf(longer[k]);
    }
  }

  lemma RepeatsFreshAppend(d: Destination, deliveredAt: Book, events: seq<Event>, e: Event, now: int)
    ensures RepeatsFresh(d, deliveredAt, events + [e], now) <==>
      RepeatsFresh(d, deliveredAt, events, now) || (HasKey(d, events, d.keyOf(e)) && !Duplicate(d, deliveredAt, e, now))
  {
    var longer := events + [e];
    assert longer[|events|] == e && forall k :: 0 <= k < |events| ==> longer[k] == events[k];
    forall k | 0 <= k < |events| && d.keyOf(events[k]) == d.keyOf(e) && !Duplicate(d, deliveredAt, e, now)
      ensures RepeatsFresh(d, deliveredAt, longer, now)
    {
      assert d.keyOf(longer[k]) == d.keyOf(longer[|events|]) && !Duplicate(d, deliveredAt, longer[k], now);
    }
    forall j, k | 0 <= j < k < |events| && d.keyOf(events[j]) == d.keyOf(events[k])
                    && !Duplicate(d, deliveredAt, events[j], now)
      ensures RepeatsFresh(d, deliveredAt, longer, now)
    {
      assert d.keyOf(longer[j]) == d.keyOf(longer[k]) && !Duplicate(d, deliveredAt, longer[j], now);
    }
  }

  lemma {:induction false} ChosenRepeats(d: Destination, deliveredAt: Book, batch: seq<Event>, now: int)
    ensures forall key :: HasKey(d, Chosen(d, deliveredAt, batch, now, false), key) <==>
              HasKey(d, batch, key) && !Recent(d, Latest(deliveredAt, key), now)
    ensures Repeats(d, Chosen(d, deliveredAt, batch, now, false)) <==> RepeatsFresh(d, deliveredAt, batch, now)
  {
    hide HasKey, Repeats, RepeatsFresh, Latest, Recent;
    if batch == [] {
      NothingRepeats(d, deliveredAt, now);
    } else {
      var front, last := batch[..|batch| - 1], batch[|batch| - 1];
      var chosen := Chosen(d, deliveredAt, front, now, false);
      ChosenRepeats(d, deliveredAt, front, now);
      assert batch == front + [last];
      forall key ensures HasKey(d, front + [last], key) <==> HasKey(d, front, key) || d.keyOf(last) == key {
        HasKeyAppend(d, front, last, key);
      }
      forall key ensures HasKey(d, chosen + [last], key) <==> HasKey(d, chosen, key) || d.keyOf(last) == key {
        HasKeyAppend(d, chosen, last, key);
      }
      RepeatsAppend(d, chosen, last);
      RepeatsFreshAppend(d, deliveredAt, front, last, now);
    }
  }

  lemma NothingRepeats(d: Destination, deliveredAt: Book, now: int)
    ensures !Repeats(d, []) && !RepeatsFresh(d, deliveredAt, [], now) && forall key :: !HasKey(d, [], key)
  {
  }

  /** A flush whose adapter does not raise hands over two events of one key exactly if the queue held two whose key
      was not recorded within the window. */
  lemma TwiceHandedOver(a: Ledger, b: Ledger, now: int)
    requires FlushedAt(a, b, now) && !b.log[|a.log|].raised
    ensures Repeats(a.d, b.log[|a.log|].handed) <==> RepeatsFresh(a.d, a.deliveredAt, a.pending, now)
  {
    hide Chosen, Repeats, RepeatsFresh;
    var r := b.log[|a.log|];
    assert r.handed + [] == r.handed;
    ChosenRepeats(a.d, a.deliveredAt, a.pending, now);
  }

  // ----- An instance

  const SAME_KEY := Destination(true, {Terminal(0)}, 60, 10, 3, true, _ => 7, false, map[])
  const FOUND := Event(Terminal(0), 1, Some(0), 0)

  lemma NothingRecorded(key: nat)
    ensures Latest(map[], key) == None
  {
  }

  ghost function Empty(d: Destination): (a: Ledger)
    ensures a == Account(d, [], [], [], d.known)
  {
    EmptyBalances(d);
    Account(d, [], [], [], d.known)
  }

  ghost function TwoQueued(): (a: Ledger)
    ensures a == Account(SAME_KEY, [FOUND, FOUND], [], [FOUND, FOUND], map[])
  {
    assert [] + [FOUND] == [FOUND] && [FOUND] + [FOUND] == [FOUND, FOUND];
    Queued(Queued(Empty(SAME_KEY), FOUND), FOUND)
  }

  lemma BothChosen(now: int)
    ensures Chosen(SAME_KEY, map[], [FOUND, FOUND], now, false) == [FOUND, FOUND]
    ensures Chosen(SAME_KEY, map[], [FOUND, FOUND], now, true) == []
  {
    NothingRecorded(7);
    var batch := [FOUND, FOUND];
    var one := batch[..1];
    assert one == [FOUND] && one[..0] == [];
    assert Chosen(SAME_KEY, map[], one, now, false) == [FOUND] && Chosen(SAME_KEY, map[], one, now, true) == [];
  }

  const BOTH := Attempt([FOUND, FOUND], Success, true)

  ghost function Both(now: int): Record {
    Record(now, [BOTH], [FOUND, FOUND], [FOUND, FOUND], [FOUND, FOUND], [], [], false)
  }

  ghost function TwoSent(now: int): (b: Ledger)
    ensures b == Account(SAME_KEY, [FOUND, FOUND], [Both(now)], [], Marked(SAME_KEY, map[], [FOUND, FOUND], now))
    ensures Told(Both(now))
  {
    hide Chosen, Balanced, Marked;
    BothChosen(now);
    SingleCall(BOTH);
    assert [] + [Both(now)] == [Both(now)];
    Sent(TwoQueued(), [FOUND, FOUND], Both(now))
  }

  /** An instance: two equal events are queued, and one call that succeeds delivers both. */
  lemma TwiceInstance(now: int)
    ensures FlushedAt(TwoQueued(), TwoSent(now), now) && TwoSent(now).log[0].handed == [FOUND, FOUND]
    ensures Repeats(SAME_KEY, TwoSent(now).log[0].handed)
  {
    hide Chosen, Balanced, Repeats, Marked, Told;
    BothChosen(now);
    assert [FOUND, FOUND] + [] == [FOUND, FOUND];
    assert TwoQueued().log + [Both(now)] == [Both(now)];
    PairRepeats(SAME_KEY, FOUND);
  }

  lemma PairRepeats(d: Destination, e: Event)
    ensures Repeats(d, [e, e])
  {
    var pair := [e, e];
    assert d.keyOf(pair[0]) == d.keyOf(pair[1]);
  }
}
