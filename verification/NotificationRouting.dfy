/** Fan-out of events to all destinations. */
module NotificationRouting {
  import opened NotificationLedger
  import opened NotificationSteps
  import opened NotificationQueue

  /** Between two readings of the clock one destination took its share of the events. */
  ghost predicate Share(s: State, t: State, from: nat, to: nat, events: seq<Event>, readings: nat -> int) {
    && Steps(s.(read := from), t.(read := to), events, readings)
    && Serves(s.ledger, t.ledger, events)
  }

  /** Between two readings of the clock the queue of one destination was flushed. */
  ghost predicate Emptied(s: State, t: State, from: nat, to: nat, readings: nat -> int) {
    t.ledger.pending == [] && Flushed(s.(read := from), t.(read := to), readings)
  }

  class NotificationRouter {
    const enabled: bool
    const clock: Clock
    const channels: seq<Channel>

    /** The channels stand for the per-destination dictionaries, in identifier order. */
    constructor (enabled: bool, clock: Clock, channels: seq<Channel>)
      requires forall i :: 0 <= i < |channels| ==> channels[i].clock == clock && channels[i].Settling()
      requires forall i, j :: 0 <= i < j < |channels| ==> channels[i] != channels[j]
      ensures this.enabled == enabled && this.clock == clock && this.channels == channels && Ready()
    {
      this.enabled, this.clock, this.channels := enabled, clock, channels;
    }

    ghost predicate Ready()
      reads channels
    {
      && (forall i :: 0 <= i < |channels| ==> channels[i].clock == clock && channels[i].Settling())
      && (forall i, j :: 0 <= i < j < |channels| ==> channels[i] != channels[j])
    }

    ghost function StateOf(i: nat): State
      requires i < |channels|
      reads channels
    {
      State(channels[i].ledger, channels[i].deadline, 0)
    }

    ghost function States(): (r: seq<State>)
      reads channels
      ensures Rest(r, 0)
    {
      seq(|channels|, i requires 0 <= i < |channels| reads channels => StateOf(i))
    }

    /** The destinations from the `n`-th on are as they were. */
    ghost predicate Rest(before: seq<State>, n: nat)
      reads channels
    {
      |before| == |channels| && forall i :: n <= i < |channels| ==> StateOf(i) == before[i]
    }

    /** The first `n` destinations took their share one after the other, reading the clock from `at[i]` to `at[i + 1]`;
        the others are as they were. */
    ghost predicate Served(before: seq<State>, at: seq<nat>, n: nat, events: seq<Event>)
      reads channels
    {
      && Rest(before, n) && |at| == n + 1 && n <= |channels|
      && forall i :: 0 <= i < n ==> Share(before[i], StateOf(i), at[i], at[i + 1], events, clock.readings)
    }

    /** The first `n` queues were flushed one after the other. */
    ghost predicate Drained(before: seq<State>, at: seq<nat>, n: nat)
      reads channels
    {
      && Rest(before, n) && |at| == n + 1 && n <= |channels|
      && forall i :: 0 <= i < n ==> Emptied(before[i], StateOf(i), at[i], at[i + 1], clock.readings)
    }

    /** Offer every matching event to every enabled destination. */
    method DeliverAll(events: seq<Event>) returns (ghost at: seq<nat>)
      requires Ready()
      modifies channels, clock
      ensures Ready() && |at| > 0 && at[0] == old(clock.read) && at[|at| - 1] == clock.read
      ensures if enabled then Served(old(States()), at, |channels|, events)
              else States() == old(States()) && clock.read == old(clock.read)
    {
      at := [clock.read];
      if !enabled {
        return;
      }
      ghost var before := States();
      for i := 0 to |channels|
        invariant Ready() && Served(before, at, i, events)
        invariant at[0] == old(clock.read) && at[i] == clock.read
      {
        Serve(i, events, before, at);
        at := at + [clock.read];
      }
    }

    /** One destination's share; the others stay as they are. */
    method Serve(i: nat, events: seq<Event>, ghost before: seq<State>, ghost at: seq<nat>)
      requires Ready() && i < |channels| && Served(before, at, i, events) && at[i] == clock.read
      modifies channels[i], clock
      ensures Ready() && Served(before, at + [clock.read], i + 1, events)
    {
      hide Steps, Serves, Balanced, Channel.Valid;
      var c := channels[i];
      assert forall j :: 0 <= j < |channels| && j != i ==> channels[j] != c;
      label called:
      OfferAll(c, events);
      assert forall j :: 0 <= j < |channels| && j != i ==> StateOf(j) == old@called(StateOf(j));
      assert forall j :: 0 <= j < |channels| && j != i ==> channels[j].Settling();
      assert Share(before[i], StateOf(i), at[i], clock.read, events, clock.readings);
    }

    /** Flush every destination. */
    method Close() returns (ghost at: seq<nat>)
      requires Ready()
      modifies channels, clock
      ensures Ready() && |at| > 0 && at[0] == old(clock.read) && at[|at| - 1] == clock.read
      ensures Drained(old(States()), at, |channels|)
    {
      at := [clock.read];
      ghost var before := States();
      for i := 0 to |channels|
        invariant Ready() && Drained(before, at, i)
        invariant at[0] == old(clock.read) && at[i] == clock.read
      {
        FlushAt(i, before, at);
        at := at + [clock.read];
      }
    }

    method FlushAt(i: nat, ghost before: seq<State>, ghost at: seq<nat>)
      requires Ready() && i < |channels| && Drained(before, at, i) && at[i] == clock.read
      modifies channels[i], clock
      ensures Ready() && Drained(before, at + [clock.read], i + 1)
    {
      hide Flushed, Balanced, Channel.Valid;
      var c := channels[i];
      assert forall j :: 0 <= j < |channels| && j != i ==> channels[j] != c;
      label called:
      Drain(c);
      assert forall j :: 0 <= j < |channels| && j != i ==> StateOf(j) == old@called(StateOf(j));
      assert forall j :: 0 <= j < |channels| && j != i ==> channels[j].Settling();
      assert Emptied(before[i], StateOf(i), at[i], clock.read, clock.readings);
    }
  }
}
