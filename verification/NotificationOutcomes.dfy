/** What one event does to one destination, in terms of its queue, its book and the adapter's answers alone. */
module NotificationOutcomes {
  import opened Sequences
  import opened NotificationLedger
  import opened NotificationAdapter
  import opened NotificationSteps

  // ----- The rules

  /** The key was recorded, for some run, less than a window ago. */
  ghost predicate Repeated(d: Destination, book: Book, e: Event, now: int) {
    exists run: nat :: (run, d.keyOf(e)) in book && now - book[(run, d.keyOf(e))] < d.windowSeconds
  }

  /** `at` lists, in order, the events of the batch that are repeated, or those that are not. */
  ghost predicate Lists(d: Destination, book: Book, batch: seq<Event>, now: int, repeated: bool, at: seq<nat>) {
    && (forall j, k :: 0 <= j < k < |at| ==> at[j] < at[k])
    && (forall k: nat :: k in at <==> k < |batch| && Repeated(d, book, batch[k], now) == repeated)
  }

  /** `events` are those of the batch at these places. */
  ghost predicate Reads(batch: seq<Event>, at: seq<nat>, events: seq<Event>) {
    |events| == |at| && forall k :: 0 <= k < |at| ==> at[k] < |batch| && events[k] == batch[at[k]]
  }

  /** A batch goes out in one call if it has two events and the adapter takes batches, and event by event otherwise. The
      first call that raises ends it, and what that call and those after it would have carried is dropped. */
  ghost predicate Calls(d: Destination, eligible: seq<Event>, calls: seq<Attempt>, handed: seq<Event>,
                        dropped: seq<Event>)
  {
    && (forall k :: 0 <= k < |calls| - 1 ==> calls[k].answer != Raises)
    && if |eligible| >= 2 && d.deliversBatches then
         && |calls| == 1 && calls[0].events == eligible
         && (if calls[0].answer == Raises then handed == [] && dropped == eligible
             else handed == eligible && dropped == [])
       else
         && |calls| <= |eligible| && (forall k :: 0 <= k < |calls| ==> calls[k].events == [eligible[k]])
         && if calls != [] && calls[|calls| - 1].answer == Raises
            then handed == eligible[..|calls| - 1] && dropped == eligible[|calls| - 1..]
            else |calls| == |eligible| && handed == eligible && dropped == []
  }

  /** A call that succeeded and whose success was recorded carried an event of the slot: its key, for its run where the
      store keeps runs apart. */
  ghost predicate Records(d: Destination, calls: seq<Attempt>, slot: (nat, nat)) {
    exists k, i ::
      && 0 <= k < |calls| && calls[k].answer == Success && calls[k].stores && 0 <= i < |calls[k].events|
      && slot == (if d.persistent then calls[k].events[i].run else 0, d.keyOf(calls[k].events[i]))
  }

  /** The book has the time of the calls for the slots they recorded, and is otherwise as it was. */
  ghost predicate Notes(d: Destination, before: Book, calls: seq<Attempt>, now: int, after: Book) {
    forall slot: (nat, nat) ::
      if Records(d, calls, slot) then slot in after && after[slot] == now
      else (slot in after <==> slot in before) && (slot in before ==> after[slot] == before[slot])
  }

  /** The queue goes: repeated events are left out, and the others are handed over. */
  ghost predicate Sends(a: Ledger, b: Ledger, now: int) {
    && b.d == a.d && b.arrived == a.arrived && b.pending == [] && |b.log| == |a.log| + 1 && b.log[..|a.log|] == a.log
    && var r := b.log[|a.log|];
       && r.now == now
       && (exists at :: Lists(a.d, a.deliveredAt, a.pending, now, true, at) && Reads(a.pending, at, r.deduplicated))
       && (exists at, eligible ::
             && Lists(a.d, a.deliveredAt, a.pending, now, false, at) && Reads(a.pending, at, eligible)
             && Calls(a.d, eligible, r.calls, r.handed, r.dropped))
       && Notes(a.d, a.deliveredAt, r.calls, now, b.deliveredAt)
  }

  /** A repeated event is left out; another is handed over in a call of its own. */
  ghost predicate Settles(a: Ledger, b: Ledger, e: Event, now: int) {
    && b.d == a.d && b.arrived == a.arrived + [e] && b.pending == a.pending
    && |b.log| == |a.log| + 1 && b.log[..|a.log|] == a.log
    && var r := b.log[|a.log|];
       && r.now == now
       && (if Repeated(a.d, a.deliveredAt, e, now) then
             r.deduplicated == [e] && r.calls == [] && r.handed == [] && r.dropped == []
           else
             && r.deduplicated == [] && |r.calls| == 1 && r.calls[0].events == [e]
             && (if r.calls[0].answer == Raises then r.handed == [] && r.dropped == [e]
                 else r.handed == [e] && r.dropped == []))
       && Notes(a.d, a.deliveredAt, r.calls, now, b.deliveredAt)
  }

  /** The event is queued; the first sets the deadline, and a full queue goes at once. */
  ghost predicate Queues(s: State, queued: Ledger, t: State, e: Event, now: int, readings: nat -> int) {
    && queued.d == s.ledger.d && queued.arrived == s.ledger.arrived + [e] && queued.log == s.ledger.log
    && queued.pending == s.ledger.pending + [e] && queued.deliveredAt == s.ledger.deliveredAt
    && if |s.ledger.pending| + 1 < s.ledger.d.maximumEvents
       then t == State(queued, if s.ledger.pending == [] then Some(now + s.ledger.d.flushSeconds) else s.deadline,
                       s.read)
       else Sends(queued, t.ledger, readings(s.read)) && t.deadline == None && t.read == s.read + 1
  }

  /** A repeated event is left out and the queue stays; another is queued, after the queue has gone if its deadline has
      come or it is of another run or bar. */
  ghost predicate Takes(s: State, mid: Ledger, queued: Ledger, t: State, e: Event, readings: nat -> int) {
    var a, now := s.ledger, readings(s.read);
    if Repeated(a.d, a.deliveredAt, e, now) then
      Settles(a, t.ledger, e, now) && t.deadline == s.deadline && t.read == s.read + 1
    else if (s.deadline.Some? && now >= s.deadline.value)
            || (a.pending != [] && (a.pending[0].run != e.run || a.pending[0].closedBarMs != e.closedBarMs))
      then Sends(a, mid, readings(s.read + 1)) && Queues(State(mid, None, s.read + 2), queued, t, e, now, readings)
    else Queues(State(a, s.deadline, s.read + 1), queued, t, e, now, readings)
  }

  /** The queue goes, if it holds anything, and then the event on its own. */
  ghost predicate Announces(s: State, mid: Ledger, t: State, e: Event, readings: nat -> int) {
    var n := if s.ledger.pending == [] then s.read else s.read + 1;
    && (if s.ledger.pending == [] then mid == s.ledger else Sends(s.ledger, mid, readings(s.read)))
    && Settles(mid, t.ledger, e, readings(n)) && t.deadline == None && t.read == n + 1
  }

  /** Nothing, if the destination is disabled or does not take the kind; a run's events are announced and others taken
      to the queue. */
  ghost predicate Rule(s: State, t: State, e: Event, readings: nat -> int) {
    if !(s.ledger.d.enabled && e.kind in s.ledger.d.events) then t == s
    else if e.kind in {RunStarted, RunSucceeded, RunFailed} then exists mid: Ledger :: Announces(s, mid, t, e, readings)
    else exists mid: Ledger, queued: Ledger :: Takes(s, mid, queued, t, e, readings)
  }

  // ----- The steps follow them

  lemma RepeatedOutcome(d: Destination, book: Book, e: Event, now: int)
    ensures Duplicate(d, book, e, now) <==> Repeated(d, book, e, now)
  {
    var key, latest := d.keyOf(e), Latest(book, d.keyOf(e));
    if Duplicate(d, book, e, now) {
      var slot :| slot in book && slot.1 == key && book[slot] == latest.value;
      assert slot == (slot.0, key);
    }
    forall run: nat | (run, key) in book && now - book[(run, key)] < d.windowSeconds
      ensures Duplicate(d, book, e, now)
    {
      assert (run, key).1 == key;
    }
  }

  lemma ListsMore(d: Destination, book: Book, batch: seq<Event>, e: Event, now: int, repeated: bool, at: seq<nat>)
    requires Lists(d, book, batch, now, repeated, at)
    ensures Lists(d, book, batch + [e], now, repeated,
                  if Repeated(d, book, e, now) == repeated then at + [|batch|] else at)
  {
    hide Repeated;
    var longer := batch + [e];
    assert longer[|batch|] == e && forall k :: 0 <= k < |batch| ==> longer[k] == batch[k];
    assert forall k :: 0 <= k < |at| ==> at[k] in at;
    assert forall k: nat :: k in at + [|batch|] <==> k in at || k == |batch|;
  }

  lemma ReadsMore(batch: seq<Event>, e: Event, at: seq<nat>, events: seq<Event>)
    requires Reads(batch, at, events)
    ensures Reads(batch + [e], at, events) && Reads(batch + [e], at + [|batch|], events + [e])
  {
  }

  lemma {:induction false} ChosenOutcome(d: Destination, book: Book, batch: seq<Event>, now: int, repeated: bool)
    returns (at: seq<nat>)
    ensures Lists(d, book, batch, now, repeated, at)
    ensures Reads(batch, at, Chosen(d, book, batch, now, repeated))
  {
    if batch == [] {
      at := [];
    } else {
      hide Duplicate, Repeated, Lists, Reads;
      var front, last := batch[..|batch| - 1], batch[|batch| - 1];
      at := ChosenOutcome(d, book, front, now, repeated);
      assert front + [last] == batch;
      RepeatedOutcome(d, book, last, now);
      ListsMore(d, book, front, last, now, repeated, at);
      ReadsMore(front, last, at, Chosen(d, book, front, now, repeated));
      if Duplicate(d, book, last, now) == repeated {
        at := at + [|front|];
      }
    }
  }

  lemma {:induction false} StoredOutcome(d: Destination, calls: seq<Attempt>, slot: (nat, nat))
    ensures Mentions(d, Stored(calls), slot) <==> Records(d, calls, slot)
  {
    if calls != [] {
      var n := |calls| - 1;
      var front, last := calls[..n], calls[n];
      StoredOutcome(d, front, slot);
      MentionsJoin(d, Stored(front), if last.answer == Success && last.stores then last.events else [], slot);
      RecordsMore(d, front, last, slot);
      assert calls == front + [last];
    }
  }

  lemma MentionsJoin(d: Destination, a: seq<Event>, b: seq<Event>, slot: (nat, nat))
    ensures Mentions(d, a + b, slot) <==> Mentions(d, a, slot) || Mentions(d, b, slot)
  {
    var both := a + b;
    assert forall k :: 0 <= k < |a| ==> both[k] == a[k];
    assert forall k :: 0 <= k < |b| ==> both[|a| + k] == b[k];
  }

  lemma RecordsMore(d: Destination, calls: seq<Attempt>, call: Attempt, slot: (nat, nat))
    ensures Records(d, calls + [call], slot) <==>
      Records(d, calls, slot) || (call.answer == Success && call.stores && Mentions(d, call.events, slot))
  {
    var longer := calls + [call];
    assert longer[|calls|] == call && forall k :: 0 <= k < |calls| ==> longer[k] == calls[k];
    if Records(d, calls, slot) {
      var k, i :| 0 <= k < |calls| && calls[k].answer == Success && calls[k].stores && 0 <= i < |calls[k].events|
                  && slot == (if d.persistent then calls[k].events[i].run else 0, d.keyOf(calls[k].events[i]));
      assert longer[k].events[i] == calls[k].events[i];
    }
    if call.answer == Success && call.stores && Mentions(d, call.events, slot) {
      var i :| 0 <= i < |call.events| && Slot(d, call.events[i]) == slot;
      assert longer[|calls|].events[i] == call.events[i];
    }
  }

  lemma NotesOutcome(d: Destination, book: Book, calls: seq<Attempt>, now: int)
    ensures Notes(d, book, calls, now, Marked(d, book, Stored(calls), now))
  {
    hide Marked, Records, Mentions;
    var after := Marked(d, book, Stored(calls), now);
    forall slot: (nat, nat)
      ensures if Records(d, calls, slot) then slot in after && after[slot] == now
              else (slot in after <==> slot in book) && (slot in book ==> after[slot] == book[slot])
    {
      MarkedMeaning(d, book, Stored(calls), now, slot);
      StoredOutcome(d, calls, slot);
    }
  }

  /** Calls of one event each: what they took are the first events, up to one that raises. */
  lemma {:induction false} TakenSingly(eligible: seq<Event>, calls: seq<Attempt>)
    requires |calls| <= |eligible| && forall k :: 0 <= k < |calls| ==> calls[k].events == [eligible[k]]
    requires forall k :: 0 <= k < |calls| - 1 ==> calls[k].answer != Raises
    ensures Taken(calls) ==
      eligible[..if calls != [] && calls[|calls| - 1].answer == Raises then |calls| - 1 else |calls|]
  {
    if calls != [] {
      var n := |calls| - 1;
      TakenSingly(eligible, calls[..n]);
      assert eligible[..n + 1] == eligible[..n] + [eligible[n]];
    }
  }

  lemma CallsOutcome(d: Destination, eligible: seq<Event>, r: Record)
    requires Told(r) && Asked(d, eligible, r.calls) && r.handed + r.dropped == eligible
    ensures Calls(d, eligible, r.calls, r.handed, r.dropped)
  {
    var calls := r.calls;
    if |eligible| >= 2 && d.deliversBatches {
      SingleCall(calls[0]);
      assert calls == [calls[0]];
      JoinedWhole(r.handed, r.dropped, eligible);
    } else {
      TakenSingly(eligible, calls);
      JoinedAt(r.handed, r.dropped, eligible, |r.handed|);
    }
  }

  lemma JoinedWhole(a: seq<Event>, b: seq<Event>, c: seq<Event>)
    requires a + b == c
    ensures a == [] ==> b == c
    ensures b == [] ==> a == c
  {
    assert a == [] ==> a + b == b;
    assert b == [] ==> a + b == a;
  }

  lemma JoinedAt(a: seq<Event>, b: seq<Event>, c: seq<Event>, n: nat)
    requires a + b == c && n == |a|
    ensures a == c[..n] && b == c[n..]
  {
  }

  lemma SendsOutcome(a: Ledger, b: Ledger, now: int)
    requires FlushedAt(a, b, now)
    ensures Sends(a, b, now)
  {
    hide Chosen, Marked, Told, Asked, Balanced, Lists, Reads, Calls, Notes;
    var r, eligible := b.log[|a.log|], Chosen(a.d, a.deliveredAt, a.pending, now, false);
    var at := ChosenOutcome(a.d, a.deliveredAt, a.pending, now, false);
    var skipped := ChosenOutcome(a.d, a.deliveredAt, a.pending, now, true);
    CallsOutcome(a.d, eligible, r);
    RecordedIsStored(r);
    NotesOutcome(a.d, a.deliveredAt, r.calls, now);
    assert (a.log + [r])[..|a.log|] == a.log;
  }

  lemma RecordedIsStored(r: Record)
    requires Told(r)
    ensures r.recorded == Stored(r.calls)
  {
  }

  lemma SettlesOutcome(a: Ledger, b: Ledger, e: Event, now: int)
    requires a.pending == [] || Duplicate(a.d, a.deliveredAt, e, now)
    requires DeliveredAt(a, b, e, now)
    ensures Settles(a, b, e, now)
  {
    hide Marked, Duplicate, Repeated, Balanced, Notes;
    RepeatedOutcome(a.d, a.deliveredAt, e, now);
    var r := b.log[|a.log|];
    assert (a.log + [r])[..|a.log|] == a.log;
    NotesOutcome(a.d, a.deliveredAt, r.calls, now);
    if Duplicate(a.d, a.deliveredAt, e, now) {
      NothingMarked(a.d, a.deliveredAt, now);
    } else {
      SingleCall(r.calls[0]);
    }
  }

  lemma NothingMarked(d: Destination, book: Book, now: int)
    ensures Stored([]) == [] && Marked(d, book, [], now) == book
  {
  }

  lemma QueuesOutcome(s: State, queued: Ledger, t: State, e: Event, now: int, readings: nat -> int)
    requires Joined(s, queued, t, e, now, readings)
    ensures Queues(s, queued, t, e, now, readings)
  {
    hide FlushedAt, Sends, Balanced;
    if |queued.pending| >= s.ledger.d.maximumEvents {
      SendsOutcome(queued, t.ledger, readings(s.read));
    }
  }

  lemma TakesOutcome(s: State, mid: Ledger, queued: Ledger, t: State, e: Event, readings: nat -> int)
    requires Offered(s, mid, queued, t, e, readings)
    ensures Takes(s, mid, queued, t, e, readings)
  {
    hide FlushedAt, LeftOutAt, Sends, Settles, Joined, Queues, Duplicate, Repeated, Balanced;
    var a, now := s.ledger, readings(s.read);
    RepeatedOutcome(a.d, a.deliveredAt, e, now);
    if Duplicate(a.d, a.deliveredAt, e, now) {
      SettlesOutcome(a, t.ledger, e, now);
    } else if FlushesFirst(a.pending, s.deadline, e, now) {
      SendsOutcome(a, mid, readings(s.read + 1));
      QueuesOutcome(State(mid, None, s.read + 2), queued, t, e, now, readings);
    } else {
      QueuesOutcome(State(a, s.deadline, s.read + 1), queued, t, e, now, readings);
    }
  }

  lemma SentIsEmpty(a: Ledger, b: Ledger, now: int)
    requires FlushedAt(a, b, now)
    ensures b.pending == []
  {
  }

  lemma AnnouncesOutcome(s: State, mid: Ledger, t: State, e: Event, readings: nat -> int)
    requires Announced(s, mid, t, e, readings)
    ensures Announces(s, mid, t, e, readings)
  {
    hide FlushedAt, DeliveredAt, Sends, Settles, Balanced;
    if s.ledger.pending != [] {
      SendsOutcome(s.ledger, mid, readings(s.read));
      SentIsEmpty(s.ledger, mid, readings(s.read));
    }
    SettlesOutcome(mid, t.ledger, e, readings(if s.ledger.pending == [] then s.read else s.read + 1));
  }

  /** Every step follows the rule. */
  lemma RuleOutcome(s: State, t: State, e: Event, readings: nat -> int)
    requires Step(s, t, e, readings)
    ensures Rule(s, t, e, readings)
  {
    hide Announced, Announces, Offered, Takes, Balanced;
    if Matches(s.ledger.d, e) {
      if OfRun(e) {
        var mid: Ledger :| Announced(s, mid, t, e, readings);
        AnnouncesOutcome(s, mid, t, e, readings);
      } else {
        var mid: Ledger, queued: Ledger :| Offered(s, mid, queued, t, e, readings);
        TakesOutcome(s, mid, queued, t, e, readings);
      }
    }
  }

  /** What a destination does with the events of a call: the rule for each in turn. */
  lemma {:induction false} StepsOutcome(s: State, t: State, events: seq<Event>, readings: nat -> int)
    returns (states: seq<State>)
    requires Steps(s, t, events, readings)
    ensures |states| == |events| + 1 && states[0] == s && states[|events|] == t
    ensures forall k: nat :: k < |events| ==> Rule(states[k], states[k + 1], events[k], readings)
    decreases |events|
  {
    hide Step, Rule, Balanced;
    if events == [] {
      states := [s];
    } else {
      var front, last := events[..|events| - 1], events[|events| - 1];
      var mid: State :| Steps(s, mid, front, readings) && Step(mid, t, last, readings);
      states := StepsOutcome(s, mid, front, readings);
      RuleOutcome(mid, t, last, readings);
      states := states + [t];
    }
  }

  /** And what a flush does. */
  lemma FlushOutcome(s: State, t: State, readings: nat -> int)
    requires Flushed(s, t, readings)
    ensures if s.ledger.pending == [] then t.ledger == s.ledger && t.read == s.read
            else Sends(s.ledger, t.ledger, readings(s.read)) && t.read == s.read + 1
  {
    hide FlushedAt, Sends, Balanced;
    if s.ledger.pending != [] {
      SendsOutcome(s.ledger, t.ledger, readings(s.read));
    }
  }
}
