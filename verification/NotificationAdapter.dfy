/** What one destination's adapter was given, call by call, and what it answered. */
module NotificationAdapter {
  import opened Sequences
  import opened NotificationLedger

  /** A call carries one event, or a bounded batch of one boundary if the adapter takes batches. */
  predicate WellFormed(d: Destination, a: Attempt) {
    1 <= |a.events| <= d.maximumEvents && OneBoundary(a.events) && (|a.events| > 1 ==> d.deliversBatches)
  }

  ghost predicate Formed(d: Destination, attempts: seq<Attempt>) {
    forall k :: 0 <= k < |attempts| ==> WellFormed(d, attempts[k])
  }

  /** The calls of the log are exactly those the adapter was given. */
  ghost predicate Reflects(d: Destination, attempts: seq<Attempt>, log: seq<Record>) {
    attempts == Calls(log) && Formed(d, attempts)
  }

  /** What is asked of the adapter to deliver `eligible`: one call with all of it, or one call for each event in order,
      until one raises. */
  ghost predicate Asked(d: Destination, eligible: seq<Event>, calls: seq<Attempt>) {
    if |eligible| <= 1 || !d.deliversBatches then
      |calls| <= |eligible| && forall k :: 0 <= k < |calls| ==> calls[k].events == [eligible[k]]
    else |calls| == 1 && calls[0].events == eligible
  }

  /** A record of the calls made keeps the log a reflection. */
  lemma ReflectsMore(d: Destination, attempts: seq<Attempt>, log: seq<Record>, r: Record)
    requires Reflects(d, attempts, log) && Formed(d, attempts + r.calls)
    ensures Reflects(d, attempts + r.calls, log + [r])
  {
    var longer := log + [r];
    assert longer[..|longer| - 1] == log;
  }

  lemma ReflectionIsFormed(d: Destination, attempts: seq<Attempt>, log: seq<Record>)
    requires Reflects(d, attempts, log)
    ensures Formed(d, attempts)
  {
  }

  lemma OneFormed(d: Destination, attempts: seq<Attempt>, a: Attempt)
    requires Formed(d, attempts) && WellFormed(d, a)
    ensures Formed(d, attempts + [a])
  {
  }

  lemma SingleFormed(d: Destination, attempts: seq<Attempt>, a: Attempt)
    requires Formed(d, attempts) && Usable(d) && |a.events| == 1
    ensures Formed(d, attempts + [a])
  {
    OneFormed(d, attempts, a);
  }

  lemma NothingReflected(d: Destination)
    ensures Reflects(d, [], [])
  {
  }

  // ----- The queue against its account

  /** The account is that of the queue, which is bounded, of one boundary, with a deadline exactly while
      something is queued: the first event's reading plus the flush time, which no queued event had reached. */
  ghost predicate Queueing(d: Destination, a: Ledger, pending: seq<Event>, deadline: Option<int>, queuedAt: seq<int>,
                           deliveredAt: Book)
  {
    && Usable(d) && a.d == d && a.pending == pending && a.deliveredAt == deliveredAt
    && |pending| <= d.maximumEvents && OneBoundary(pending) && |queuedAt| == |pending|
    && (pending == [] <==> deadline.None?)
    && (pending != [] ==> deadline == Some(queuedAt[0] + d.flushSeconds))
    && (forall k :: 0 <= k < |pending| ==> queuedAt[k] < deadline.value)
  }

  lemma QueueFacts(d: Destination, a: Ledger, pending: seq<Event>, deadline: Option<int>, queuedAt: seq<int>,
                   deliveredAt: Book)
    requires Queueing(d, a, pending, deadline, queuedAt, deliveredAt)
    ensures Usable(d) && a.d == d && a.pending == pending && a.deliveredAt == deliveredAt
    ensures |pending| <= d.maximumEvents && OneBoundary(pending) && |queuedAt| == |pending|
    ensures pending == [] <==> deadline.None?
  {
  }

  lemma QueueEmpty(d: Destination, a: Ledger)
    requires Usable(d) && a.d == d && a.pending == []
    ensures Queueing(d, a, [], None, [], a.deliveredAt)
  {
  }

  /** An account that gains no queued event serves the same queue. */
  lemma QueueStays(d: Destination, a: Ledger, b: Ledger, pending: seq<Event>, deadline: Option<int>, queuedAt: seq<int>,
                   deliveredAt: Book)
    requires Queueing(d, a, pending, deadline, queuedAt, deliveredAt)
    requires b.d == a.d && b.pending == a.pending && b.deliveredAt == a.deliveredAt
    ensures Queueing(d, b, pending, deadline, queuedAt, deliveredAt)
  {
  }

  /** One more event of the same boundary, before the deadline; the first sets it. */
  lemma QueueGrows(d: Destination, a: Ledger, e: Event, now: int, pending: seq<Event>, deadline: Option<int>,
                   queuedAt: seq<int>, deliveredAt: Book)
    requires Queueing(d, a, pending, deadline, queuedAt, deliveredAt) && |pending| < d.maximumEvents
    requires (deadline.Some? ==> now < deadline.value) && (pending != [] ==> SameBoundary(pending[0], e))
    ensures Queueing(d, Queued(a, e), pending + [e], if pending == [] then Some(now + d.flushSeconds) else deadline,
                     queuedAt + [now],
                     deliveredAt)
  {
    hide Balanced;
    var b := Queued(a, e);
    var longer, times := pending + [e], queuedAt + [now];
    assert forall k :: 0 <= k < |pending| ==> longer[k] == pending[k] && times[k] == queuedAt[k];
    assert longer[|pending|] == e && times[|pending|] == now;
  }
}
