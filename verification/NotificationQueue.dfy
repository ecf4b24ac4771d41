/** The queue of one destination: batching, deduplication and flushing. */
module NotificationQueue {
  import opened Sequences
  import opened NotificationLedger
  import opened NotificationAdapter
  import opened NotificationSteps

  // ----- The clock

  /** The clock's readings, in the order they are asked for: any sequence at all. */
  class Clock {
    const readings: nat -> int
    var read: nat

    constructor (readings: nat -> int)
      ensures this.readings == readings && read == 0
    {
      this.readings, this.read := readings, 0;
    }

    method ClockSeconds() returns (now: int)
      modifies this
      ensures now == readings(old(read)) && read == old(read) + 1
    {
      now := readings(read);
      read := read + 1;
    }
  }

  method SetAll(d: Destination, deliveredAt: Book, events: seq<Event>, now: int) returns (after: Book)
    ensures after == Marked(d, deliveredAt, events, now)
  {
    after := deliveredAt;
    for k := 0 to |events|
      invariant after == Marked(d, deliveredAt, events[..k], now)
    {
      assert events[..k + 1][..k] == events[..k];
      after := after[Slot(d, events[k]) := now];
    }
    assert events[..|events|] == events;
  }

  // ----- One destination

  class Channel {
    const d: Destination
    const clock: Clock
    /** The adapter's answers, call by call: any sequence at all. */
    const answers: nat -> Answer
    /** Whether recording the success of each call works: any sequence at all. */
    const stores: nat -> bool
    var attempts: seq<Attempt>
    var pending: seq<Event>
    var deadline: Option<int>
    var deliveredAt: Book
    ghost var ledger: Ledger
    ghost var queuedAt: seq<int>

    /** The account is that of the queue. */
    ghost predicate Kept()
      reads this
    {
      Queueing(d, ledger, pending, deadline, queuedAt, deliveredAt)
    }

    /** Recording in the dictionary always works; recording in the store may fail. */
    predicate Works(n: nat) {
      d.persistent ==> stores(n)
    }

    /** Every call was answered by the adapter, and its recording by the store. */
    ghost predicate Answered()
      reads `attempts
    {
      forall n :: 0 <= n < |attempts| ==> attempts[n].answer == answers(n) && attempts[n].stores == Works(n)
    }

    /** And the account says exactly what the adapter was given and answered. */
    ghost predicate Valid()
      reads this
    {
      Kept() && Answered() && Reflects(d, attempts, ledger.log)
    }

    /** Between calls the queue is below its bound. */
    ghost predicate Settling()
      reads this
    {
      Valid() && |pending| < d.maximumEvents
    }

    ghost function Now(): State
      reads this, clock
    {
      State(ledger, deadline, clock.read)
    }

    constructor (d: Destination, clock: Clock, answers: nat -> Answer, stores: nat -> bool)
      requires Usable(d)
      ensures Settling() && this.d == d && this.clock == clock && this.answers == answers && this.stores == stores
      ensures ledger == Account(d, [], [], [], d.known) && deadline == None
    {
      this.d, this.clock, this.answers, this.stores := d, clock, answers, stores;
      attempts, pending, deadline, deliveredAt := [], [], None, d.known;
      queuedAt := [];
      EmptyBalances(d);
      var empty := Account(d, [], [], [], d.known);
      ledger := empty;
      NothingReflected(d);
      QueueEmpty(d, empty);
    }

    /** One call of the adapter. */
    method Deliver(events: seq<Event>) returns (call: Attempt)
      requires Answered()
      modifies this`attempts
      ensures Answered() && attempts == old(attempts) + [call] && call.events == events
    {
      call := Attempt(events, answers(|attempts|), Works(|attempts|));
      attempts := attempts + [call];
    }

    /** The queued events that may be sent, and the duplicates among them. */
    method Partition(batch: seq<Event>, now: int) returns (eligible: seq<Event>, duplicates: seq<Event>)
      ensures eligible == Chosen(d, deliveredAt, batch, now, false)
      ensures duplicates == Chosen(d, deliveredAt, batch, now, true)
    {
      eligible, duplicates := [], [];
      for k := 0 to |batch|
        invariant eligible == Chosen(d, deliveredAt, batch[..k], now, false)
        invariant duplicates == Chosen(d, deliveredAt, batch[..k], now, true)
      {
        assert batch[..k + 1][..k] == batch[..k];
        if Duplicate(d, deliveredAt, batch[k], now) {
          duplicates := duplicates + [batch[k]];
        } else {
          eligible := eligible + [batch[k]];
        }
      }
      assert batch[..|batch|] == batch;
    }

    /** Hand a batch to the adapter: whole, or one by one. */
    method HandOver(eligible: seq<Event>, now: int, duplicates: seq<Event>)
      returns (recorded: seq<Event>, ghost r: Record)
      requires Usable(d) && Formed(d, attempts) && Answered() && |eligible| <= d.maximumEvents && OneBoundary(eligible)
      modifies this`attempts
      ensures Formed(d, attempts) && Answered() && attempts == old(attempts) + r.calls
      ensures Asked(d, eligible, r.calls) && Told(r) && recorded == r.recorded
      ensures eligible == r.handed + r.dropped && r.now == now && r.deduplicated == duplicates
    {
      if |eligible| <= 1 || !d.deliversBatches {
        recorded, r := HandEach(eligible, now, duplicates);
      } else {
        var call := Deliver(eligible);
        SingleCall(call);
        OneFormed(d, old(attempts), call);
        var raised := call.answer == Raises;
        recorded := if call.answer == Success && call.stores then eligible else [];
        r := Record(now, [call], if raised then [] else eligible, if call.answer == Success then eligible else [],
                    recorded,
                    if raised then eligible else [], duplicates, raised);
      }
    }

    /** One call for each event, in order; once the adapter raises the rest is dropped. */
    method HandEach(eligible: seq<Event>, now: int, duplicates: seq<Event>)
      returns (recorded: seq<Event>, ghost r: Record)
      requires Usable(d) && Formed(d, attempts) && Answered()
      modifies this`attempts
      ensures Formed(d, attempts) && Answered() && attempts == old(attempts) + r.calls
      ensures |r.calls| <= |eligible| && forall k :: 0 <= k < |r.calls| ==> r.calls[k].events == [eligible[k]]
      ensures Told(r) && recorded == r.recorded
      ensures eligible == r.handed + r.dropped && r.now == now && r.deduplicated == duplicates
    {
      hide Formed, Answered, Taken, Succeeded, Stored;
      recorded := [];
      NoCalls();
      ghost var calls := [];
      for k := 0 to |eligible|
        invariant Formed(d, attempts) && Answered() && attempts == old(attempts) + calls && |calls| == k
        invariant forall j :: 0 <= j < k ==> calls[j].events == [eligible[j]] && calls[j].answer != Raises
        invariant Taken(calls) == eligible[..k] && recorded == Stored(calls)
      {
        ghost var between, before := attempts, calls;
        var call := Deliver([eligible[k]]);
        SingleFormed(d, between, call);
        CallsAppend(before, call);
        calls := calls + [call];
        if call.answer == Raises {
          r := Record(now, calls, eligible[..k], Succeeded(calls), recorded, eligible[k..], duplicates, true);
          return;
        }
        if call.answer == Success && call.stores {
          recorded := recorded + [eligible[k]];
        }
        assert eligible[..k + 1] == eligible[..k] + [eligible[k]];
      }
      assert eligible[..|eligible|] == eligible;
      r := Record(now, calls, eligible, Succeeded(calls), recorded, [], duplicates, false);
    }

    /** Empty the queue: leave out the duplicates and hand over the rest. */
    method Flush()
      requires Valid()
      modifies this`attempts, this`pending, this`deadline, this`deliveredAt, this`queuedAt, this`ledger, clock
      ensures Valid() && pending == [] && deadline == None
      ensures Flushed(old(Now()), Now(), clock.readings)
    {
      hide Chosen, Marked, Balanced, Delivered, Reflects, Queueing, OneBoundary, Asked, Told, Formed, Answered;
      QueueFacts(d, ledger, pending, deadline, queuedAt, deliveredAt);
      var batch := pending;
      pending, deadline := [], None;
      queuedAt := [];
      if batch == [] {
        QueueEmpty(d, ledger);
        return;
      }
      var now := clock.ClockSeconds();
      var eligible, duplicates := Partition(batch, now);
      ChosenBounds(d, deliveredAt, batch, now);
      ReflectionIsFormed(d, attempts, ledger.log);
      ghost var before, log := attempts, ledger.log;
      ghost var r;
      var recorded;
      recorded, r := HandOver(eligible, now, duplicates);
      ledger := Sent(ledger, eligible, r);
      ReflectsMore(d, before, log, r);
      deliveredAt := SetAll(d, deliveredAt, recorded, now);
      QueueEmpty(d, ledger);
    }

    /** Deliver one event at once, unless it is a duplicate. */
    method DeliverNow(e: Event)
      requires Settling() && pending == []
      modifies this`attempts, this`deliveredAt, this`ledger, clock
      ensures Settling() && DeliveredAt(old(ledger), ledger, e, clock.readings(old(clock.read)))
      ensures clock.read == old(clock.read) + 1
    {
      hide Reflects, Formed, Queueing, Balanced, Marked, OneBoundary, Answered;
      QueueFacts(d, ledger, pending, deadline, queuedAt, deliveredAt);
      var now := clock.ClockSeconds();
      if Duplicate(d, deliveredAt, e, now) {
        LeaveOut(e, now);
        return;
      }
      ReflectionIsFormed(d, attempts, ledger.log);
      ghost var before, log := attempts, ledger.log;
      var call := Deliver([e]);
      SingleFormed(d, before, call);
      ReflectsMore(d, before, log, Single(now, e, call));
      var recorded := if call.answer == Success && call.stores then [e] else [];
      Enter(DeliveredNow(ledger, e, now, call), recorded, now);
    }

    /** Enter a delivery in the account and its recorded successes in the book. */
    method Enter(ghost after: Ledger, recorded: seq<Event>, now: int)
      requires Kept() && Answered() && pending == [] && after.d == d && after.pending == []
      requires after.deliveredAt == Marked(d, deliveredAt, recorded, now) && Reflects(d, attempts, after.log)
      modifies this`deliveredAt, this`ledger
      ensures Settling() && ledger == after
    {
      hide Reflects, Marked, Queueing, Balanced, Answered;
      QueueFacts(d, ledger, pending, deadline, queuedAt, deliveredAt);
      ledger := after;
      deliveredAt := SetAll(d, deliveredAt, recorded, now);
      QueueEmpty(d, after);
    }

    /** A duplicate is only noted. */
    method LeaveOut(e: Event, now: int)
      requires Settling() && Duplicate(d, deliveredAt, e, now)
      modifies this`ledger
      ensures Settling() && LeftOutAt(old(ledger), ledger, e, now)
    {
      hide Reflects, Queueing, Balanced, Answered, Formed;
      QueueFacts(d, ledger, pending, deadline, queuedAt, deliveredAt);
      ReflectionIsFormed(d, attempts, ledger.log);
      assert attempts + Skipped(now, e).calls == attempts;
      ReflectsMore(d, attempts, ledger.log, Skipped(now, e));
      ghost var after := LeftOutNow(ledger, e, now);
      QueueStays(d, ledger, after, pending, deadline, queuedAt, deliveredAt);
      ledger := after;
    }

    method Append(e: Event, now: int)
      requires Settling() && (deadline.Some? ==> now < deadline.value)
      requires pending != [] ==> SameBoundary(pending[0], e)
      modifies this`pending, this`deadline, this`queuedAt, this`ledger
      ensures Valid() && QueuedAt(old(ledger), ledger, e) && pending == old(pending) + [e]
      ensures deadline == if old(pending) == [] then Some(now + d.flushSeconds) else old(deadline)
    {
      hide Reflects, Queueing, Balanced, OneBoundary, Answered;
      QueueFacts(d, ledger, pending, deadline, queuedAt, deliveredAt);
      QueueGrows(d, ledger, e, now, pending, deadline, queuedAt, deliveredAt);
      ledger := Queued(ledger, e);
      if pending == [] {
        deadline := Some(now + d.flushSeconds);
      }
      pending := pending + [e];
      queuedAt := queuedAt + [now];
    }

    /** Queue one matching event, flushing on the deadline, on a new boundary and at the bound. */
    method Offer(e: Event) returns (ghost mid: Ledger, ghost queued: Ledger)
      requires Settling()
      modifies this`attempts, this`pending, this`deadline, this`deliveredAt, this`queuedAt, this`ledger, clock
      ensures Settling() && Offered(old(Now()), mid, queued, Now(), e, clock.readings)
    {
      hide FlushedAt, Queueing, Balanced, Reflects, OneBoundary, Duplicate, Answered;
      QueueFacts(d, ledger, pending, deadline, queuedAt, deliveredAt);
      mid, queued := ledger, ledger;
      var now := clock.ClockSeconds();
      if Duplicate(d, deliveredAt, e, now) {
        LeaveOut(e, now);
        return;
      }
      if deadline.Some? && now >= deadline.value {
        Flush();
      }
      if pending != [] && !SameBoundary(pending[0], e) {
        Flush();
      }
      mid := ledger;
      QueueFacts(d, ledger, pending, deadline, queuedAt, deliveredAt);
      Append(e, now);
      queued := ledger;
      if |pending| >= d.maximumEvents {
        Flush();
      }
      QueueFacts(d, ledger, pending, deadline, queuedAt, deliveredAt);
    }

    /** A run event flushes the queue and is delivered at once. */
    method Announce(e: Event) returns (ghost mid: Ledger)
      requires Settling()
      modifies this`attempts, this`pending, this`deadline, this`deliveredAt, this`queuedAt, this`ledger, clock
      ensures Settling() && pending == [] && Announced(old(Now()), mid, Now(), e, clock.readings)
    {
      hide FlushedAt, DeliveredAt, Queueing, Balanced, Reflects, Answered;
      QueueFacts(d, ledger, pending, deadline, queuedAt, deliveredAt);
      Flush();
      mid := ledger;
      DeliverNow(e);
    }
  }

  lemma NoCalls()
    ensures Taken([]) == [] && Succeeded([]) == [] && Stored([]) == []
  {
  }

  // ----- All events of a call

  /** All events, in order, to one destination: those that do not match change nothing. */
  method OfferAll(c: Channel, events: seq<Event>)
    requires c.Settling()
    modifies c, c.clock
    ensures c.Settling() && Steps(old(c.Now()), c.Now(), events, c.clock.readings)
    ensures Serves(old(c.ledger), c.ledger, events)
  {
    hide Step, Serves, Balanced;
    ghost var before := c.Now();
    if c.d.enabled {
      NoSteps(before, c.clock.readings);
      for k := 0 to |events|
        invariant c.Settling() && Steps(before, c.Now(), events[..k], c.clock.readings)
      {
        ghost var between, next := c.Now(), events[..k + 1];
        OfferOne(c, events[k]);
        StepsMore(before, between, c.Now(), events[..k], events[k], next, c.clock.readings);
      }
      assert events[..|events|] == events;
    } else {
      DisabledSteps(before, events, c.clock.readings);
    }
    StepsServe(before, c.Now(), events, c.clock.readings);
  }

  /** One event to one destination: a run event at once, any other by way of the queue. */
  method OfferOne(c: Channel, e: Event)
    requires c.Settling() && c.d.enabled
    modifies c, c.clock
    ensures c.Settling() && Step(old(c.Now()), c.Now(), e, c.clock.readings)
  {
    hide Announced, Offered, Balanced, Reflects;
    if e.kind !in c.d.events {
      return;
    }
    if e.kind == RunStarted || e.kind == RunSucceeded || e.kind == RunFailed {
      var _ := c.Announce(e);
    } else {
      var _, _ := c.Offer(e);
    }
  }

  lemma {:induction false} DisabledSteps(s: State, events: seq<Event>, readings: nat -> int)
    requires !s.ledger.d.enabled
    ensures Steps(s, s, events, readings)
  {
    if events == [] {
      NoSteps(s, readings);
    } else {
      var front, last := events[..|events| - 1], events[|events| - 1];
      DisabledSteps(s, front, readings);
      StepsMore(s, s, s, front, last, events, readings);
    }
  }

  /** Flush one destination. */
  method Drain(c: Channel)
    requires c.Settling()
    modifies c, c.clock
    ensures c.Settling() && c.pending == [] == c.ledger.pending && Flushed(old(c.Now()), c.Now(), c.clock.readings)
  {
    c.Flush();
  }
}
