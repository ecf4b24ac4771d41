/** No key is delivered twice within a window of its recorded delivery. */
module NotificationWindow {
  import opened Sequences
  import opened NotificationLedger
  import opened NotificationAdapter
  import opened NotificationSteps
  import opened NotificationQueue

  /** Recording every success of the calls worked. */
  ghost predicate AllStored(calls: seq<Attempt>) {
    forall k :: 0 <= k < |calls| && calls[k].answer == Success ==> calls[k].stores
  }

  lemma {:induction false} StoredAll(calls: seq<Attempt>)
    requires AllStored(calls)
    ensures Stored(calls) == Succeeded(calls)
  {
    if calls != [] {
      StoredAll(calls[..|calls| - 1]);
    }
  }

  /** The book before record `l` holds the time of the last record before it that recorded the slot. */
  lemma {:induction false} LastRecordedAt(d: Destination, log: seq<Record>, k: nat, slot: (nat, nat))
    requires k < |log| && Mentions(d, log[k].recorded, slot)
    requires forall j :: k < j < |log| ==> !Mentions(d, log[j].recorded, slot)
    ensures LastRecorded(d, log, slot) == Some(log[k].now)
  {
    hide Mentions;
    if k < |log| - 1 {
      LastRecordedAt(d, log[..|log| - 1], k, slot);
    }
  }

  /** What a record hands over was not recorded within the window before it, under any run. */
  lemma HandedIsFresh(d: Destination, log: seq<Record>, l: nat, slot: (nat, nat))
    requires AllProper(d, log) && l < |log| && HasKey(d, log[l].handed, slot.1)
    ensures LastRecorded(d, log[..l], slot).Some? ==>
              log[l].now - LastRecorded(d, log[..l], slot).value >= d.windowSeconds
  {
    hide Delivered, LastRecorded, Mentions, AllProper;
    ProperAt(d, log, l);
    var e :| e in log[l].handed && d.keyOf(e) == slot.1;
    DuplicateMeans(d, log[..l], e, log[l].now);
  }

  /** While the last record that delivered a slot is less than a window old, and its recording worked, nothing of that
      key is handed over. */
  lemma RecordedShutsOut(d: Destination, log: seq<Record>, k: nat, l: nat, slot: (nat, nat))
    requires AllProper(d, log) && k < l < |log| && AllStored(log[k].calls)
    requires Mentions(d, log[k].succeeded, slot)
    requires forall j :: k < j < l ==> !Mentions(d, log[j].succeeded, slot)
    ensures log[l].now - log[k].now < d.windowSeconds ==> !HasKey(d, log[l].handed, slot.1)
  {
    hide AllProper, HasKey, AllStored, LastRecorded;
    RecordedAll(d, log, k);
    forall j | k < j < l ensures !Mentions(d, log[j].recorded, slot) {
      RecordedSucceeded(d, log, j, slot);
    }
    LastRecordedAt(d, log[..l], k, slot);
    if HasKey(d, log[l].handed, slot.1) {
      HandedIsFresh(d, log, l, slot);
    }
  }

  lemma RecordedAll(d: Destination, log: seq<Record>, k: nat)
    requires AllProper(d, log) && k < |log| && AllStored(log[k].calls)
    ensures log[k].recorded == log[k].succeeded
  {
    ProperAt(d, log, k);
    StoredAll(log[k].calls);
  }

  /** Only successes are recorded. */
  lemma RecordedSucceeded(d: Destination, log: seq<Record>, k: nat, slot: (nat, nat))
    requires AllProper(d, log) && k < |log|
    ensures Mentions(d, log[k].recorded, slot) ==> Mentions(d, log[k].succeeded, slot)
  {
    ProperAt(d, log, k);
    StoredSucceeded(log[k].calls);
    if Mentions(d, log[k].recorded, slot) {
      var i :| 0 <= i < |log[k].recorded| && Slot(d, log[k].recorded[i]) == slot;
      assert log[k].recorded[i] in log[k].succeeded;
    }
  }

  lemma {:induction false} StoredSucceeded(calls: seq<Attempt>)
    ensures forall e :: e in Stored(calls) ==> e in Succeeded(calls)
  {
    if calls != [] {
      StoredSucceeded(calls[..|calls| - 1]);
    }
  }

  // ----- With a clock that never goes back

  ghost predicate Ordered(log: seq<Record>) {
    forall i, j :: 0 <= i <= j < |log| ==> log[i].now <= log[j].now
  }

  lemma {:induction false} RecordedSince(d: Destination, log: seq<Record>, k: nat, slot: (nat, nat))
    requires Ordered(log) && k < |log| && Mentions(d, log[k].recorded, slot)
    ensures LastRecorded(d, log, slot).Some? && log[k].now <= LastRecorded(d, log, slot).value
  {
    hide Mentions;
    if !Mentions(d, log[|log| - 1].recorded, slot) {
      RecordedSince(d, log[..|log| - 1], k, slot);
    }
  }

  /** Two deliveries of one key, of whatever runs, lie at least a window apart if recording the first worked. */
  lemma DeliveriesAreSpaced(d: Destination, log: seq<Record>, k: nat, l: nat, e: Event, f: Event)
    requires AllProper(d, log) && Ordered(log) && k < l < |log| && AllStored(log[k].calls)
    requires e in log[k].succeeded && f in log[l].handed && d.keyOf(e) == d.keyOf(f)
    ensures log[l].now - log[k].now >= d.windowSeconds
  {
    hide AllProper, AllStored, LastRecorded;
    RecordedAll(d, log, k);
    assert Mentions(d, log[k].recorded, Slot(d, e));
    assert HasKey(d, log[l].handed, Slot(d, e).1);
    RecordedSince(d, log[..l], k, Slot(d, e));
    HandedIsFresh(d, log, l, Slot(d, e));
  }

  // ----- Over whole runs

  datatype Move = Arrivals(events: seq<Event>) | Closing

  /** One call of the router for one destination. */
  ghost predicate Moves(s: State, t: State, move: Move, readings: nat -> int) {
    match move
    case Arrivals(events) => Steps(s, t, events, readings)
    case Closing => Flushed(s, t, readings)
  }

  /** A run of a destination: one call after the other, while other destinations may read the clock in between. */
  ghost predicate Lives(s: State, t: State, moves: seq<Move>, readings: nat -> int)
    decreases |moves|
  {
    if moves == [] then t == s
    else
      var front, last := moves[..|moves| - 1], moves[|moves| - 1];
      exists mid: State, n: nat :: Lives(s, mid, front, readings) && Resumes(mid, n, t, last, readings)
  }

  ghost predicate Resumes(mid: State, n: nat, t: State, move: Move, readings: nat -> int) {
    mid.read <= n && Moves(mid.(read := n), t, move, readings)
  }

  ghost predicate NeverBack(readings: nat -> int) {
    forall i: nat, j: nat :: i <= j ==> readings(i) <= readings(j)
  }

  /** The records are in order of time, and none is later than the next reading. */
  ghost predicate InTime(log: seq<Record>, readings: nat -> int, n: nat) {
    Ordered(log) && forall i :: 0 <= i < |log| ==> log[i].now <= readings(n)
  }

  lemma TimePasses(log: seq<Record>, readings: nat -> int, n: nat, m: nat)
    requires NeverBack(readings) && InTime(log, readings, n) && n <= m
    ensures InTime(log, readings, m)
  {
    assert readings(n) <= readings(m);
  }

  lemma RecordInTime(log: seq<Record>, r: Record, readings: nat -> int, n: nat)
    requires NeverBack(readings) && InTime(log, readings, n) && r.now == readings(n)
    ensures InTime(log + [r], readings, n + 1)
  {
    assert readings(n) <= readings(n + 1);
  }

  lemma FlushInTime(a: Ledger, b: Ledger, readings: nat -> int, n: nat)
    requires NeverBack(readings) && InTime(a.log, readings, n) && FlushedAt(a, b, readings(n))
    ensures InTime(b.log, readings, n + 1)
  {
    hide InTime, NeverBack, Chosen, Marked, Told, Asked, Balanced;
    RecordInTime(a.log, b.log[|a.log|], readings, n);
  }

  lemma FlushedInTime(s: State, t: State, readings: nat -> int)
    requires NeverBack(readings) && InTime(s.ledger.log, readings, s.read) && Flushed(s, t, readings)
    ensures InTime(t.ledger.log, readings, t.read) && s.read <= t.read
  {
    hide InTime, NeverBack, FlushedAt, Balanced;
    if s.ledger.pending != [] {
      FlushInTime(s.ledger, t.ledger, readings, s.read);
    }
  }

  lemma LeftOutInTime(a: Ledger, b: Ledger, e: Event, readings: nat -> int, n: nat)
    requires NeverBack(readings) && InTime(a.log, readings, n) && LeftOutAt(a, b, e, readings(n))
    ensures InTime(b.log, readings, n + 1)
  {
    RecordInTime(a.log, Skipped(readings(n), e), readings, n);
  }

  lemma DeliveryInTime(a: Ledger, b: Ledger, e: Event, readings: nat -> int, n: nat)
    requires NeverBack(readings) && InTime(a.log, readings, n) && DeliveredAt(a, b, e, readings(n))
    ensures InTime(b.log, readings, n + 1)
  {
    hide InTime, NeverBack, LeftOutAt, Duplicate, Balanced, Marked;
    if Duplicate(a.d, a.deliveredAt, e, readings(n)) {
      LeftOutInTime(a, b, e, readings, n);
    } else {
      RecordInTime(a.log, Single(readings(n), e, b.log[|a.log|].calls[0]), readings, n);
    }
  }

  lemma JoinInTime(s: State, queued: Ledger, t: State, e: Event, now: int, readings: nat -> int)
    requires NeverBack(readings) && InTime(s.ledger.log, readings, s.read) && Joined(s, queued, t, e, now, readings)
    ensures InTime(t.ledger.log, readings, t.read)
  {
    hide InTime, NeverBack, FlushedAt, Balanced;
    if |queued.pending| >= s.ledger.d.maximumEvents {
      FlushInTime(queued, t.ledger, readings, s.read);
    }
  }

  lemma OfferInTime(s: State, mid: Ledger, queued: Ledger, t: State, e: Event, readings: nat -> int)
    requires NeverBack(readings) && InTime(s.ledger.log, readings, s.read) && Offered(s, mid, queued, t, e, readings)
    ensures InTime(t.ledger.log, readings, t.read)
  {
    hide InTime, NeverBack, FlushedAt, Joined, LeftOutAt, Duplicate, FlushesFirst, Balanced;
    var a, n, now := s.ledger, s.read, readings(s.read);
    if Duplicate(a.d, a.deliveredAt, e, now) {
      LeftOutInTime(a, t.ledger, e, readings, n);
    } else {
      TimePasses(a.log, readings, n, n + 1);
      if FlushesFirst(a.pending, s.deadline, e, now) {
        FlushInTime(a, mid, readings, n + 1);
        JoinInTime(State(mid, None, n + 2), queued, t, e, now, readings);
      } else {
        JoinInTime(State(a, s.deadline, n + 1), queued, t, e, now, readings);
      }
    }
  }

  lemma StepInTime(s: State, t: State, e: Event, readings: nat -> int)
    requires NeverBack(readings) && InTime(s.ledger.log, readings, s.read) && Step(s, t, e, readings)
    ensures InTime(t.ledger.log, readings, t.read)
  {
    hide InTime, NeverBack, Offered, Flushed, DeliveredAt, Balanced, Matches;
    if Matches(s.ledger.d, e) {
      if OfRun(e) {
        var mid: Ledger :| Announced(s, mid, t, e, readings);
        var n := if s.ledger.pending == [] then s.read else s.read + 1;
        FlushedInTime(s, State(mid, None, n), readings);
        DeliveryInTime(mid, t.ledger, e, readings, n);
      } else {
        var mid: Ledger, queued: Ledger :| Offered(s, mid, queued, t, e, readings);
        OfferInTime(s, mid, queued, t, e, readings);
      }
    }
  }

  lemma {:induction false} StepsInTime(s: State, t: State, events: seq<Event>, readings: nat -> int)
    requires NeverBack(readings) && InTime(s.ledger.log, readings, s.read) && Steps(s, t, events, readings)
    ensures InTime(t.ledger.log, readings, t.read)
    decreases |events|
  {
    hide InTime, NeverBack, Step, Balanced;
    if events != [] {
      var front, last := events[..|events| - 1], events[|events| - 1];
      var mid: State :| Steps(s, mid, front, readings) && Step(mid, t, last, readings);
      StepsInTime(s, mid, front, readings);
      StepInTime(mid, t, last, readings);
    }
  }

  /** With a clock that never goes back the records of every run are in order of time. */
  lemma {:induction false} LifeInTime(s: State, t: State, moves: seq<Move>, readings: nat -> int)
    requires NeverBack(readings) && s.ledger.log == [] && Lives(s, t, moves, readings)
    ensures InTime(t.ledger.log, readings, t.read)
    decreases |moves|
  {
    hide NeverBack, Balanced, Moves, Resumes;
    if moves != [] {
      hide InTime;
      var front, last := moves[..|moves| - 1], moves[|moves| - 1];
      var mid: State, n: nat :| Lives(s, mid, front, readings) && Resumes(mid, n, t, last, readings);
      LifeInTime(s, mid, front, readings);
      ResumedInTime(mid, n, t, last, readings);
    }
  }

  lemma ResumedInTime(mid: State, n: nat, t: State, move: Move, readings: nat -> int)
    requires NeverBack(readings) && InTime(mid.ledger.log, readings, mid.read) && Resumes(mid, n, t, move, readings)
    ensures InTime(t.ledger.log, readings, t.read)
  {
    hide NeverBack, InTime, Steps, Flushed, Balanced;
    TimePasses(mid.ledger.log, readings, mid.read, n);
    match move
    case Arrivals(events) => StepsInTime(mid.(read := n), t, events, readings);
    case Closing => FlushedInTime(mid.(read := n), t, readings);
  }

  /** Over every run with a clock that never goes back, a key whose delivery was recorded is not handed over again
      before a window has passed. */
  lemma OncePerWindow(s: State, t: State, moves: seq<Move>, readings: nat -> int, k: nat, l: nat, e: Event, f: Event)
    requires NeverBack(readings) && s.ledger.log == [] && Lives(s, t, moves, readings)
    requires k < l < |t.ledger.log| && AllStored(t.ledger.log[k].calls)
    requires e in t.ledger.log[k].succeeded && f in t.ledger.log[l].handed && t.ledger.d.keyOf(e) == t.ledger.d.keyOf(f)
    ensures t.ledger.log[l].now - t.ledger.log[k].now >= t.ledger.d.windowSeconds
  {
    hide NeverBack, Lives, AllStored, AllProper;
    LifeInTime(s, t, moves, readings);
    DeliveriesAreSpaced(t.ledger.d, t.ledger.log, k, l, e, f);
  }

  // ----- The dictionary

  lemma {:induction false} CallsOf(log: seq<Record>, k: nat, i: nat)
    requires k < |log| && i < |log[k].calls|
    ensures log[k].calls[i] in Calls(log)
  {
    if k < |log| - 1 {
      CallsOf(log[..|log| - 1], k, i);
    }
  }

  /** Without a store every success is recorded. */
  lemma DictionaryRecordsAll(c: Channel, k: nat)
    requires c.Valid() && !c.d.persistent && k < |c.ledger.log|
    ensures AllStored(c.ledger.log[k].calls) && c.ledger.log[k].recorded == c.ledger.log[k].succeeded
  {
    hide AllProper, Queueing, Formed;
    var log := c.ledger.log;
    forall i | 0 <= i < |log[k].calls| ensures log[k].calls[i].stores {
      CallsOf(log, k, i);
      var n :| 0 <= n < |c.attempts| && c.attempts[n] == log[k].calls[i];
    }
    RecordedAll(c.ledger.d, log, k);
  }
}
