/** What becomes of the notification events of one destination. */
module NotificationLedger {
  import opened Sequences

  datatype Kind = RunStarted | RunSucceeded | RunFailed | Terminal(name: nat)

  datatype Event = Event(kind: Kind, run: nat, closedBarMs: Option<int>, payload: nat)

  /** `keyOf` stands for the hash of the configured key fields. `persistent` says that successes are recorded in the
      store, by run, and not in the router's dictionary; `known` is what is recorded before the router starts. */
  datatype Destination = Destination(
    enabled: bool, events: set<Kind>, windowSeconds: int, flushSeconds: int, maximumEvents: nat,
    deliversBatches: bool, keyOf: Event -> nat, persistent: bool, known: Book)

  /** When deliveries were last recorded: by run and key in the store, by key alone in the dictionary. */
  type Book = map<(nat, nat), int>

  /** The bounds the configuration enforces; a dictionary starts empty. */
  predicate Usable(d: Destination) {
    d.windowSeconds >= 1 && d.flushSeconds >= 1 && d.maximumEvents >= 1 && (!d.persistent ==> d.known == map[])
  }

  predicate Matches(d: Destination, e: Event) {
    d.enabled && e.kind in d.events
  }

  /** The events a destination takes, in order. */
  function Matching(d: Destination, events: seq<Event>): seq<Event> {
    if events == [] then []
    else
      var front, last := events[..|events| - 1], events[|events| - 1];
      Matching(d, front) + (if Matches(d, last) then [last] else [])
  }

  predicate SameBoundary(a: Event, b: Event) {
    a.run == b.run && a.closedBarMs == b.closedBarMs
  }

  predicate OneBoundary(events: seq<Event>) {
    forall i :: 0 <= i < |events| ==> SameBoundary(events[0], events[i])
  }

  // ----- The calls of an adapter

  datatype Answer = Success | Failure | Raises

  /** One call: what it carried, the answer, and whether recording its success works. */
  datatype Attempt = Attempt(events: seq<Event>, answer: Answer, stores: bool)

  /** The events of the calls that returned. */
  function Taken(calls: seq<Attempt>): seq<Event> {
    if calls == [] then []
    else
      var last := calls[|calls| - 1];
      Taken(calls[..|calls| - 1]) + (if last.answer == Raises then [] else last.events)
  }

  /** The events of the calls that succeeded. */
  function Succeeded(calls: seq<Attempt>): seq<Event> {
    if calls == [] then []
    else
      var last := calls[|calls| - 1];
      Succeeded(calls[..|calls| - 1]) + (if last.answer == Success then last.events else [])
  }

  /** The events of the calls that succeeded and whose success was recorded. */
  function Stored(calls: seq<Attempt>): seq<Event> {
    if calls == [] then []
    else
      var last := calls[|calls| - 1];
      Stored(calls[..|calls| - 1]) + (if last.answer == Success && last.stores then last.events else [])
  }

  lemma CallsAppend(calls: seq<Attempt>, a: Attempt)
    ensures Taken(calls + [a]) == Taken(calls) + (if a.answer == Raises then [] else a.events)
    ensures Succeeded(calls + [a]) == Succeeded(calls) + (if a.answer == Success then a.events else [])
    ensures Stored(calls + [a]) == Stored(calls) + (if a.answer == Success && a.stores then a.events else [])
  {
    assert (calls + [a])[..|calls|] == calls;
  }

  lemma SingleCall(a: Attempt)
    ensures Taken([a]) == if a.answer == Raises then [] else a.events
    ensures Succeeded([a]) == if a.answer == Success then a.events else []
    ensures Stored([a]) == if a.answer == Success && a.stores then a.events else []
  {
    CallsAppend([], a);
    assert [] + [a] == [a];
  }

  /** Only the last call raises. */
  ghost predicate Stops(calls: seq<Attempt>, raised: bool) {
    && (forall k :: 0 <= k < |calls| - 1 ==> calls[k].answer != Raises)
    && (raised <==> calls != [] && calls[|calls| - 1].answer == Raises)
  }

  // ----- What one delivery attempt did

  /** One flush or direct delivery: the calls made, what the adapter took, which of it succeeded, which successes were
      recorded, what was dropped when the adapter raised, and what was left out as a duplicate. */
  datatype Record = Record(
    now: int, calls: seq<Attempt>, handed: seq<Event>, succeeded: seq<Event>, recorded: seq<Event>,
    dropped: seq<Event>, deduplicated: seq<Event>, raised: bool)

  /** What was taken, succeeded and was recorded is what the calls say; something is dropped exactly if one raised. */
  ghost predicate Told(r: Record) {
    && r.handed == Taken(r.calls) && r.succeeded == Succeeded(r.calls) && r.recorded == Stored(r.calls)
    && Stops(r.calls, r.raised) && (r.raised <==> r.dropped != [])
  }

  /** The record of a duplicate that is left out as it arrives. */
  function Skipped(now: int, e: Event): Record {
    Record(now, [], [], [], [], [], [e], false)
  }

  /** The record of one event delivered on its own. */
  function Single(now: int, e: Event, a: Attempt): Record {
    var raised := a.answer == Raises;
    Record(now, [a], if raised then [] else [e], if a.answer == Success then [e] else [],
           if a.answer == Success && a.stores then [e] else [], if raised then [e] else [], [], raised)
  }

  lemma SingleIsTold(now: int, e: Event, a: Attempt)
    requires a.events == [e]
    ensures Told(Single(now, e, a))
  {
    SingleCall(a);
  }

  /** All calls of a log. */
  function Calls(log: seq<Record>): seq<Attempt> {
    if log == [] then [] else Calls(log[..|log| - 1]) + log[|log| - 1].calls
  }

  function Handed(log: seq<Record>): seq<Event> {
    if log == [] then [] else Handed(log[..|log| - 1]) + log[|log| - 1].handed
  }

  /** Every event a log accounts for. */
  function Settled(log: seq<Record>): multiset<Event> {
    if log == [] then multiset{}
    else
      var last := log[|log| - 1];
      Settled(log[..|log| - 1]) + multiset(last.handed) + multiset(last.dropped) + multiset(last.deduplicated)
  }

  function Slot(d: Destination, e: Event): (nat, nat) {
    (if d.persistent then e.run else 0, d.keyOf(e))
  }

  function Lookup(book: Book, slot: (nat, nat)): Option<int> {
    if slot in book then Some(book[slot]) else None
  }

  /** The latest time recorded for a key, over all runs. */
  function Latest(book: Book, key: nat): (r: Option<int>)
    ensures r.None? <==> forall slot :: slot in book ==> slot.1 != key
    ensures r.Some? ==> forall slot :: slot in book && slot.1 == key ==> book[slot] <= r.value
    ensures r.Some? ==> exists slot :: slot in book && slot.1 == key && book[slot] == r.value
  {
    var times := set slot | slot in book && slot.1 == key :: book[slot];
    if times == {} then
      assert forall slot :: slot in book && slot.1 == key ==> book[slot] in times;
      None
    else
      AscendingLists(times);
      assert Ascending(times)[|times| - 1] in Ascending(times);
      assert forall slot :: slot in book && slot.1 == key ==> book[slot] in times && book[slot] in Ascending(times);
      Some(Ascending(times)[|times| - 1])
  }

  predicate Recent(d: Destination, previous: Option<int>, now: int) {
    previous.Some? && now - previous.value < d.windowSeconds
  }

  predicate Duplicate(d: Destination, deliveredAt: Book, e: Event, now: int) {
    Recent(d, Latest(deliveredAt, d.keyOf(e)), now)
  }

  /** The book with the slots of all `events` set to `now`. */
  function Marked(d: Destination, deliveredAt: Book, events: seq<Event>, now: int): Book {
    if events == [] then deliveredAt
    else Marked(d, deliveredAt, events[..|events| - 1], now)[Slot(d, events[|events| - 1]) := now]
  }

  /** The book that the recorded successes of a log leave. */
  function Delivered(d: Destination, log: seq<Record>): Book {
    if log == [] then d.known
    else Marked(d, Delivered(d, log[..|log| - 1]), log[|log| - 1].recorded, log[|log| - 1].now)
  }

  /** An attempt hands over at most one batch of one boundary, nothing recorded as delivered within the window
      before, leaves out only what was, and drops something only when the adapter raised. */
  ghost predicate Proper(d: Destination, before: seq<Record>, r: Record) {
    && |r.handed| + |r.dropped| <= d.maximumEvents && OneBoundary(r.handed)
    && (forall k :: 0 <= k < |r.handed| ==> !Duplicate(d, Delivered(d, before), r.handed[k], r.now))
    && (forall k :: 0 <= k < |r.deduplicated| ==> Duplicate(d, Delivered(d, before), r.deduplicated[k], r.now))
    && Told(r)
  }

  ghost predicate AllProper(d: Destination, log: seq<Record>) {
    log == [] || (AllProper(d, log[..|log| - 1]) && Proper(d, log[..|log| - 1], log[|log| - 1]))
  }

  /** `at` names places of `b`, in order, that hold `a`. */
  ghost predicate Picks(a: seq<Event>, b: seq<Event>, at: seq<nat>) {
    && |at| == |a|
    && (forall k :: 0 <= k < |at| ==> at[k] < |b| && b[at[k]] == a[k])
    && (forall j, k :: 0 <= j < k < |at| ==> at[j] < at[k])
  }

  /** `a` can be had from `b` by leaving events out. */
  ghost predicate Within(a: seq<Event>, b: seq<Event>) {
    exists at: seq<nat> :: Picks(a, b, at)
  }

  lemma WithinAppend(a: seq<Event>, b: seq<Event>, e: Event)
    requires Within(a, b)
    ensures Within(a + [e], b + [e]) && Within(a, b + [e])
  {
    var at: seq<nat> :| Picks(a, b, at);
    assert Picks(a, b + [e], at);
    assert Picks(a + [e], b + [e], at + [|b|]);
  }

  lemma WithinTransitive(a: seq<Event>, b: seq<Event>, c: seq<Event>)
    requires Within(a, b) && Within(b, c)
    ensures Within(a, c)
  {
    var at: seq<nat> :| Picks(a, b, at);
    var into: seq<nat> :| Picks(b, c, into);
    var both := seq(|a|, k requires 0 <= k < |a| => into[at[k]]);
    assert Picks(a, c, both);
  }

  lemma WithinJoin(a: seq<Event>, b: seq<Event>, c: seq<Event>)
    requires Within(b, c)
    ensures Within(a + b, a + c)
  {
    var at: seq<nat> :| Picks(b, c, at);
    var joined := seq(|a| + |b|, k requires 0 <= k < |a| + |b| => if k < |a| then k else |a| + at[k - |a|]);
    assert Picks(a + b, a + c, joined);
  }

  lemma NothingWithin()
    ensures Within([], [])
  {
    assert Picks([], [], []);
  }

  lemma PrefixWithin(a: seq<Event>, b: seq<Event>)
    ensures Within(a, a + b)
  {
    assert Picks(a, a + b, seq(|a|, k requires 0 <= k < |a| => k));
  }

  lemma LogAppend(d: Destination, log: seq<Record>, r: Record)
    requires AllProper(d, log) && Proper(d, log, r)
    ensures AllProper(d, log + [r])
    ensures Handed(log + [r]) == Handed(log) + r.handed
    ensures Settled(log + [r]) == Settled(log) + multiset(r.handed) + multiset(r.dropped) + multiset(r.deduplicated)
    ensures Delivered(d, log + [r]) == Marked(d, Delivered(d, log), r.recorded, r.now)
  {
    assert (log + [r])[..|log|] == log;
  }

  /** Every event that arrived was handed over, left out as a duplicate, dropped by a raising adapter or is
      still queued; what was handed over and what is queued is in order of arrival. */
  ghost predicate Balanced(d: Destination, arrived: seq<Event>, log: seq<Record>, pending: seq<Event>,
                           deliveredAt: Book)
  {
    && multiset(arrived) == Settled(log) + multiset(pending)
    && Within(Handed(log) + pending, arrived)
    && AllProper(d, log)
    && deliveredAt == Delivered(d, log)
  }

  /** With the record `r` the log accounts for everything but what is pending. */
  ghost predicate Explains(d: Destination, arrived: seq<Event>, log: seq<Record>, r: Record, pending: seq<Event>,
                           deliveredAt: Book)
  {
    && multiset(arrived) == Settled(log) + multiset(r.handed) + multiset(r.dropped)
         + multiset(r.deduplicated) + multiset(pending)
    && Within(Handed(log) + r.handed + pending, arrived)
    && AllProper(d, log) && Proper(d, log, r)
    && deliveredAt == Delivered(d, log)
  }

  // ----- The account of one destination

  datatype Account = Account(d: Destination, arrived: seq<Event>, log: seq<Record>, pending: seq<Event>,
                             deliveredAt: Book)

  lemma EmptyBalances(d: Destination)
    ensures Balanced(d, [], [], [], d.known)
  {
    NothingWithin();
    assert Handed([]) + [] == [];
  }

  const NOWHERE := Destination(false, {}, 1, 1, 1, false, _ => 0, false, map[])

  /** An account that balances. */
  type Ledger = a: Account | Balanced(a.d, a.arrived, a.log, a.pending, a.deliveredAt)
    witness (EmptyBalances(NOWHERE); Account(NOWHERE, [], [], [], map[]))

  lemma Arrives(arrived: seq<Event>, kept: seq<Event>, e: Event)
    requires Within(kept, arrived)
    ensures Within(kept, arrived + [e]) && Within(kept + [e], arrived + [e])
    ensures multiset(arrived + [e]) == multiset(arrived) + multiset([e])
  {
    WithinAppend(kept, arrived, e);
  }

  /** An arriving duplicate is left out. */
  lemma DuplicateIsExplained(d: Destination, arrived: seq<Event>, log: seq<Record>, e: Event, r: Record,
                             pending: seq<Event>, deliveredAt: Book)
    requires Usable(d) && Balanced(d, arrived, log, pending, deliveredAt) && Duplicate(d, deliveredAt, e, r.now)
    requires r == Skipped(r.now, e)
    ensures Explains(d, arrived + [e], log, r, pending, deliveredAt)
  {
    hide Within, Proper, AllProper, Settled, Handed, Duplicate, Delivered;
    var kept := Handed(log) + pending;
    Arrives(arrived, kept, e);
    var before := Handed(log) + r.handed;
    assert before == Handed(log);
    DuplicateIsProper(d, log, e, r);
    assert multiset(r.handed) == multiset{} == multiset(r.dropped) && multiset(r.deduplicated) == multiset([e]);
  }

  lemma DuplicateIsProper(d: Destination, log: seq<Record>, e: Event, r: Record)
    requires Usable(d) && Duplicate(d, Delivered(d, log), e, r.now) && r == Skipped(r.now, e)
    ensures Proper(d, log, r)
  {
  }

  /** With nothing queued an event that is not a duplicate is handed over, or dropped if the adapter raises. */
  lemma DeliveryIsExplained(d: Destination, arrived: seq<Event>, log: seq<Record>, e: Event, r: Record,
                            deliveredAt: Book)
    requires Usable(d) && Balanced(d, arrived, log, [], deliveredAt) && !Duplicate(d, deliveredAt, e, r.now)
    requires r.deduplicated == [] && Told(r)
    requires if r.raised then r.handed == [] && r.dropped == [e] else r.handed == [e] && r.dropped == []
    ensures Explains(d, arrived + [e], log, r, [], deliveredAt)
  {
    hide Within, AllProper, Delivered, Duplicate, Told, Settled, Handed, Proper;
    var kept := Handed(log);
    assert kept + [] == kept;
    Arrives(arrived, kept, e);
    assert kept + r.handed + [] == if r.raised then kept else kept + [e];
    DeliveryIsProper(d, log, e, r);
  }

  lemma DeliveryIsProper(d: Destination, log: seq<Record>, e: Event, r: Record)
    requires Usable(d) && !Duplicate(d, Delivered(d, log), e, r.now) && r.deduplicated == [] && Told(r)
    requires if r.raised then r.handed == [] && r.dropped == [e] else r.handed == [e] && r.dropped == []
    ensures Proper(d, log, r)
  {
  }

  lemma QueuedIsBalanced(d: Destination, arrived: seq<Event>, log: seq<Record>, e: Event, pending: seq<Event>,
                         deliveredAt: Book)
    requires Balanced(d, arrived, log, pending, deliveredAt)
    ensures Balanced(d, arrived + [e], log, pending + [e], deliveredAt)
  {
    hide Within, AllProper, Settled, Handed, Delivered;
    WithinAppend(Handed(log) + pending, arrived, e);
    assert Handed(log) + (pending + [e]) == (Handed(log) + pending) + [e];
  }

  lemma SentIsExplained(d: Destination, log: seq<Record>, deliveredAt: Book, batch: seq<Event>, eligible: seq<Event>,
                        r: Record, arrived: seq<Event>)
    requires AllProper(d, log) && deliveredAt == Delivered(d, log) && OneBoundary(batch) && |batch| <= d.maximumEvents
    requires multiset(arrived) == Settled(log) + multiset(batch) && Within(Handed(log) + batch, arrived)
    requires eligible == Chosen(d, deliveredAt, batch, r.now, false)
    requires r.deduplicated == Chosen(d, deliveredAt, batch, r.now, true)
    requires eligible == r.handed + r.dropped
    requires Told(r)
    ensures Explains(d, arrived, log, r, [], deliveredAt)
  {
    hide Told, Delivered, Within, Handed, AllProper, OneBoundary, Chosen, Settled;
    ChosenPartition(d, deliveredAt, batch, r.now);
    ChosenWithin(d, deliveredAt, batch, r.now);
    ChosenMeaning(d, deliveredAt, batch, r.now, false);
    ChosenMeaning(d, deliveredAt, batch, r.now, true);
    FlushedWithin(Handed(log), batch, eligible, r.handed, r.dropped, arrived);
    PartitionBound(batch, eligible, r.deduplicated);
    BatchIsProper(d, log, deliveredAt, batch, eligible, r);
    assert Handed(log) + r.handed + [] == Handed(log) + r.handed;
    assert multiset(eligible) == multiset(r.handed) + multiset(r.dropped);
  }

  /** The duplicates of a batch, or the others, in order. */
  function Chosen(d: Destination, deliveredAt: Book, batch: seq<Event>, now: int, duplicate: bool): seq<Event> {
    if batch == [] then []
    else
      var front, last := Chosen(d, deliveredAt, batch[..|batch| - 1], now, duplicate), batch[|batch| - 1];
      if Duplicate(d, deliveredAt, last, now) == duplicate then front + [last] else front
  }

  ghost predicate AllChosen(d: Destination, deliveredAt: Book, batch: seq<Event>, events: seq<Event>, now: int,
                            duplicate: bool)
  {
    forall k :: 0 <= k < |events| ==> events[k] in batch && Duplicate(d, deliveredAt, events[k], now) == duplicate
  }

  lemma {:induction false} ChosenPartition(d: Destination, deliveredAt: Book, batch: seq<Event>, now: int)
    ensures multiset(batch) ==
      multiset(Chosen(d, deliveredAt, batch, now, false)) + multiset(Chosen(d, deliveredAt, batch, now, true))
  {
    if batch != [] {
      var front, last := batch[..|batch| - 1], batch[|batch| - 1];
      ChosenPartition(d, deliveredAt, front, now);
      assert batch == front + [last];
    }
  }

  lemma {:induction false} ChosenWithin(d: Destination, deliveredAt: Book, batch: seq<Event>, now: int)
    ensures Within(Chosen(d, deliveredAt, batch, now, false), batch)
  {
    if batch == [] {
      NothingWithin();
    } else {
      var front, last := batch[..|batch| - 1], batch[|batch| - 1];
      ChosenWithin(d, deliveredAt, front, now);
      WithinAppend(Chosen(d, deliveredAt, front, now, false), front, last);
      assert batch == front + [last];
    }
  }

  lemma {:induction false} ChosenMeaning(d: Destination, deliveredAt: Book, batch: seq<Event>, now: int,
                                         duplicate: bool)
    ensures AllChosen(d, deliveredAt, batch, Chosen(d, deliveredAt, batch, now, duplicate), now, duplicate)
  {
    if batch != [] {
      var front, last := batch[..|batch| - 1], batch[|batch| - 1];
      ChosenMeaning(d, deliveredAt, front, now, duplicate);
      assert batch == front + [last];
      forall e | e in front ensures e in batch {
      }
    }
  }

  /** What is chosen of a batch is no longer, and of the same boundary. */
  lemma ChosenBounds(d: Destination, deliveredAt: Book, batch: seq<Event>, now: int)
    requires OneBoundary(batch)
    ensures var eligible := Chosen(d, deliveredAt, batch, now, false);
      |eligible| <= |batch| && OneBoundary(eligible)
  {
    var eligible := Chosen(d, deliveredAt, batch, now, false);
    ChosenPartition(d, deliveredAt, batch, now);
    PartitionBound(batch, eligible, Chosen(d, deliveredAt, batch, now, true));
    ChosenMeaning(d, deliveredAt, batch, now, false);
    BatchBoundary(batch, eligible, eligible);
  }

  lemma BatchIsProper(d: Destination, log: seq<Record>, deliveredAt: Book, batch: seq<Event>, eligible: seq<Event>,
                      r: Record)
    requires deliveredAt == Delivered(d, log) && OneBoundary(batch) && |eligible| <= d.maximumEvents
    requires eligible == r.handed + r.dropped && AllChosen(d, deliveredAt, batch, eligible, r.now, false)
    requires AllChosen(d, deliveredAt, batch, r.deduplicated, r.now, true)
    requires Told(r)
    ensures Proper(d, log, r)
  {
    assert forall k :: 0 <= k < |r.handed| ==> r.handed[k] == eligible[k];
    BatchBoundary(batch, eligible, r.handed);
  }

  lemma FlushedWithin(before: seq<Event>, batch: seq<Event>, eligible: seq<Event>, handed: seq<Event>,
                      dropped: seq<Event>, arrived: seq<Event>)
    requires Within(before + batch, arrived) && Within(eligible, batch) && eligible == handed + dropped
    ensures Within(before + handed, arrived)
  {
    PrefixWithin(handed, dropped);
    WithinTransitive(handed, eligible, batch);
    WithinJoin(before, handed, batch);
    WithinTransitive(before + handed, before + batch, arrived);
  }

  lemma PartitionBound(batch: seq<Event>, eligible: seq<Event>, duplicates: seq<Event>)
    requires multiset(batch) == multiset(eligible) + multiset(duplicates)
    ensures |eligible| <= |batch|
  {
    assert |multiset(batch)| == |batch| && |multiset(eligible)| == |eligible|;
  }

  lemma BatchBoundary(batch: seq<Event>, eligible: seq<Event>, handed: seq<Event>)
    requires OneBoundary(batch) && |handed| <= |eligible| && forall k :: 0 <= k < |handed| ==> handed[k] == eligible[k]
    requires forall k :: 0 <= k < |eligible| ==> eligible[k] in batch
    ensures OneBoundary(handed)
  {
    forall i | 0 <= i < |handed| ensures SameBoundary(handed[0], handed[i]) {
      var j :| 0 <= j < |batch| && batch[j] == eligible[i];
      var k :| 0 <= k < |batch| && batch[k] == eligible[0];
    }
  }

  lemma EntryKeeps(d: Destination, log: seq<Record>, r: Record, pending: seq<Event>, arrived: seq<Event>,
                   deliveredAt: Book)
    requires Explains(d, arrived, log, r, pending, deliveredAt)
    ensures Balanced(d, arrived, log + [r], pending, Marked(d, deliveredAt, r.recorded, r.now))
  {
    LogAppend(d, log, r);
    assert Handed(log + [r]) + pending == Handed(log) + r.handed + pending;
  }

  // ----- The dictionary holds the latest success of each key

  predicate Mentions(d: Destination, events: seq<Event>, slot: (nat, nat)) {
    exists k :: 0 <= k < |events| && Slot(d, events[k]) == slot
  }

  /** When a success of the slot was last recorded, before the router started or since. */
  function LastRecorded(d: Destination, log: seq<Record>, slot: (nat, nat)): Option<int> {
    if log == [] then Lookup(d.known, slot)
    else if Mentions(d, log[|log| - 1].recorded, slot) then Some(log[|log| - 1].now)
    else LastRecorded(d, log[..|log| - 1], slot)
  }

  lemma {:induction false} MarkedMeaning(d: Destination, deliveredAt: Book, events: seq<Event>, now: int,
                                         slot: (nat, nat))
    ensures Lookup(Marked(d, deliveredAt, events, now), slot) ==
      if Mentions(d, events, slot) then Some(now) else Lookup(deliveredAt, slot)
  {
    if events != [] {
      var front, last := events[..|events| - 1], events[|events| - 1];
      MarkedMeaning(d, deliveredAt, front, now, slot);
      assert events == front + [last];
      MentionsAppend(d, front, last, slot);
    }
  }

  /** The book gives for each slot exactly when a success was last recorded. */
  lemma {:induction false} DeliveredMeaning(d: Destination, log: seq<Record>, slot: (nat, nat))
    ensures Lookup(Delivered(d, log), slot) == LastRecorded(d, log, slot)
  {
    if log != [] {
      var front, last := log[..|log| - 1], log[|log| - 1];
      DeliveredMeaning(d, front, slot);
      MarkedMeaning(d, Delivered(d, front), last.recorded, last.now, slot);
    }
  }

  /** An event is a duplicate exactly if some run recorded its key last less than a window ago. */
  lemma DuplicateMeans(d: Destination, log: seq<Record>, e: Event, now: int)
    ensures Duplicate(d, Delivered(d, log), e, now) <==>
      exists run: nat :: Recent(d, LastRecorded(d, log, (run, d.keyOf(e))), now)
  {
    hide Delivered, LastRecorded;
    var book, key := Delivered(d, log), d.keyOf(e);
    forall run: nat ensures Lookup(book, (run, key)) == LastRecorded(d, log, (run, key)) {
      DeliveredMeaning(d, log, (run, key));
    }
    if Duplicate(d, book, e, now) {
      var slot :| slot in book && slot.1 == key && book[slot] == Latest(book, key).value;
      assert slot == (slot.0, key) && Lookup(book, (slot.0, key)) == Some(book[slot]);
    }
    forall run: nat | Recent(d, LastRecorded(d, log, (run, key)), now)
      ensures Duplicate(d, book, e, now)
    {
      assert Lookup(book, (run, key)).Some? && (run, key) in book;
    }
  }

  lemma MentionsAppend(d: Destination, events: seq<Event>, e: Event, slot: (nat, nat))
    ensures Mentions(d, events + [e], slot) <==> Mentions(d, events, slot) || slot == Slot(d, e)
  {
    var longer := events + [e];
    assert longer[|events|] == e;
    if Mentions(d, events, slot) {
      var k :| 0 <= k < |events| && Slot(d, events[k]) == slot;
      assert longer[k] == events[k];
    }
  }

  /** The account once a whole queue has been sent. */
  ghost function Sent(a: Ledger, eligible: seq<Event>, r: Record): (b: Ledger)
    requires OneBoundary(a.pending) && |a.pending| <= a.d.maximumEvents
    requires eligible == Chosen(a.d, a.deliveredAt, a.pending, r.now, false)
    requires r.deduplicated == Chosen(a.d, a.deliveredAt, a.pending, r.now, true) && eligible == r.handed + r.dropped
    requires Told(r)
    ensures b == Account(a.d, a.arrived, a.log + [r], [], Marked(a.d, a.deliveredAt, r.recorded, r.now))
  {
    hide Chosen, Marked, Told, Delivered, Within, Settled, Handed, AllProper, Proper, OneBoundary;
    SentIsExplained(a.d, a.log, a.deliveredAt, a.pending, eligible, r, a.arrived);
    EntryKeeps(a.d, a.log, r, [], a.arrived, a.deliveredAt);
    Account(a.d, a.arrived, a.log + [r], [], Marked(a.d, a.deliveredAt, r.recorded, r.now))
  }

  lemma DuplicateBalances(d: Destination, arrived: seq<Event>, log: seq<Record>, e: Event, r: Record,
                          pending: seq<Event>, deliveredAt: Book)
    requires Usable(d) && Balanced(d, arrived, log, pending, deliveredAt) && Duplicate(d, deliveredAt, e, r.now)
    requires r == Skipped(r.now, e)
    ensures Balanced(d, arrived + [e], log + [r], pending, deliveredAt)
  {
    hide Duplicate, Told, Delivered, Within, Settled, Handed, AllProper, Proper;
    DuplicateIsExplained(d, arrived, log, e, r, pending, deliveredAt);
    EntryKeeps(d, log, r, pending, arrived + [e], deliveredAt);
    assert Marked(d, deliveredAt, [], r.now) == deliveredAt;
  }

  lemma DeliveryBalances(d: Destination, arrived: seq<Event>, log: seq<Record>, e: Event, r: Record, deliveredAt: Book)
    requires Usable(d) && Balanced(d, arrived, log, [], deliveredAt) && !Duplicate(d, deliveredAt, e, r.now)
    requires r.deduplicated == [] && Told(r)
    requires if r.raised then r.handed == [] && r.dropped == [e] else r.handed == [e] && r.dropped == []
    ensures Balanced(d, arrived + [e], log + [r], [], Marked(d, deliveredAt, r.recorded, r.now))
  {
    hide Duplicate, Marked, Told, Delivered, Within, Settled, Handed, AllProper, Proper;
    DeliveryIsExplained(d, arrived, log, e, r, deliveredAt);
    EntryKeeps(d, log, r, [], arrived + [e], deliveredAt);
  }

  /** The account once a duplicate has arrived. */
  ghost function LeftOutNow(a: Ledger, e: Event, now: int): (b: Ledger)
    requires Usable(a.d) && Duplicate(a.d, a.deliveredAt, e, now)
    ensures b == Account(a.d, a.arrived + [e], a.log + [Skipped(now, e)], a.pending, a.deliveredAt)
  {
    hide Duplicate, Marked, Told, Delivered, Within, Settled, Handed, AllProper, Proper;
    DuplicateBalances(a.d, a.arrived, a.log, e, Skipped(now, e), a.pending, a.deliveredAt);
    Account(a.d, a.arrived + [e], a.log + [Skipped(now, e)], a.pending, a.deliveredAt)
  }

  /** The account once an event has been delivered on its own. */
  ghost function DeliveredNow(a: Ledger, e: Event, now: int, call: Attempt): (b: Ledger)
    requires Usable(a.d) && a.pending == [] && !Duplicate(a.d, a.deliveredAt, e, now) && call.events == [e]
    ensures var r := Single(now, e, call);
      b == Account(a.d, a.arrived + [e], a.log + [r], [], Marked(a.d, a.deliveredAt, r.recorded, now))
  {
    hide Duplicate, Marked, Told, Delivered, Within, Settled, Handed, AllProper, Proper;
    SingleIsTold(now, e, call);
    var r := Single(now, e, call);
    DeliveryBalances(a.d, a.arrived, a.log, e, r, a.deliveredAt);
    Account(a.d, a.arrived + [e], a.log + [r], [], Marked(a.d, a.deliveredAt, r.recorded, now))
  }

  /** The account once one more event has arrived and is queued. */
  ghost function Queued(a: Ledger, e: Event): (b: Ledger)
    ensures b == Account(a.d, a.arrived + [e], a.log, a.pending + [e], a.deliveredAt)
  {
    hide Delivered, Within, Settled, Handed, AllProper;
    QueuedIsBalanced(a.d, a.arrived, a.log, e, a.pending, a.deliveredAt);
    Account(a.d, a.arrived + [e], a.log, a.pending + [e], a.deliveredAt)
  }

  // ----- What the log means for one event

  /** While the adapter never raised, nothing was dropped. */
  lemma {:induction false} NothingDropped(d: Destination, log: seq<Record>)
    requires AllProper(d, log) && forall k :: 0 <= k < |log| ==> !log[k].raised
    ensures Settled(log) == multiset(Handed(log)) + multiset(LeftOut(log))
  {
    if log != [] {
      var front, last := log[..|log| - 1], log[|log| - 1];
      NothingDropped(d, front);
      assert Proper(d, front, last) && last.dropped == [];
    }
  }

  function LeftOut(log: seq<Record>): seq<Event> {
    if log == [] then [] else LeftOut(log[..|log| - 1]) + log[|log| - 1].deduplicated
  }

  /** Where the adapter never raised, every event that arrived was handed over, left out or is still queued. */
  lemma NothingLost(d: Destination, arrived: seq<Event>, log: seq<Record>, pending: seq<Event>, deliveredAt: Book)
    requires Balanced(d, arrived, log, pending, deliveredAt) && forall k :: 0 <= k < |log| ==> !log[k].raised
    ensures multiset(arrived) == multiset(Handed(log)) + multiset(LeftOut(log)) + multiset(pending)
  {
    NothingDropped(d, log);
  }

  /** Every attempt in the account was proper when it was made. */
  lemma {:induction false} ProperAt(d: Destination, log: seq<Record>, k: nat)
    requires AllProper(d, log) && k < |log|
    ensures Proper(d, log[..k], log[k])
  {
    var front := log[..|log| - 1];
    if k < |front| {
      ProperAt(d, front, k);
      assert front[..k] == log[..k];
    }
  }
}
