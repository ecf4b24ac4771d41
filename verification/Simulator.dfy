/** Execution of replayed READY decisions against one-minute candles. */
module Simulator {
  import opened Sequences
  import opened Candles

  datatype Direction = Long | Short

  datatype Levels = Levels(direction: Direction, entry: real, stop: real, target: real)

  /** A decision carries levels exactly when it is READY. */
  datatype Decision = Ready(levels: Levels) | NoTrade(failed: nat) | Unavailable(missing: nat)

  datatype Evaluation = Evaluation(instrument: nat, timeMs: int, decision: Decision, hash: nat)

  /** `expiryMinutes` is the configured number of execution bars times their length. */
  datatype Rules = Rules(expiryMinutes: int, maximumHoldingMinutes: int, feeRate: real, slippageRate: real)

  type ReadyEvaluation = e: Evaluation | e.decision.Ready?
    witness Evaluation(0, 0, Ready(Levels(Long, 1.0, 1.0, 1.0)), 0)

  datatype Pending = Pending(evaluation: ReadyEvaluation, expiresBeforeMs: int)

  datatype Position = Position(evaluation: ReadyEvaluation, entryMs: int)

  datatype ExitReason = StopHit | TargetHit | Timeout | EndOfData

  predicate EvaluatesBefore(a: Evaluation, b: Evaluation) {
    a.timeMs < b.timeMs || (a.timeMs == b.timeMs && a.hash <= b.hash)
  }

  // ----- Fill and exit tests on one candle

  predicate TouchesLimit(levels: Levels, c: ClosedCandle) {
    if levels.direction == Long then c.bar.low <= levels.entry else c.bar.high >= levels.entry
  }

  predicate StopTouched(levels: Levels, c: ClosedCandle) {
    if levels.direction == Long then c.bar.low <= levels.stop else c.bar.high >= levels.stop
  }

  predicate TargetTouched(levels: Levels, c: ClosedCandle) {
    if levels.direction == Long then c.bar.high >= levels.target else c.bar.low <= levels.target
  }

  function DurationMinutes(entryMs: int, c: ClosedCandle): int {
    (c.openMs - entryMs) / MINUTE_MS + 1
  }

  function Deadline(rules: Rules, e: Evaluation): int {
    e.timeMs + 1 + rules.expiryMinutes * MINUTE_MS
  }

  /** How an accepted signal ended, before any price arithmetic. */
  datatype Fate = Lapsed(evaluation: ReadyEvaluation) | Ended(position: Position, candle: ClosedCandle,
                                                              reason: ExitReason)

  // ----- The declarative rule

  /** A candle that fills the limit before the entry expires. */
  predicate Fills(rules: Rules, e: ReadyEvaluation, c: ClosedCandle) {
    c.openMs < Deadline(rules, e) && TouchesLimit(e.decision.levels, c)
  }

  /** A candle that closes a trade entered at `entryMs`. */
  predicate Exits(rules: Rules, levels: Levels, entryMs: int, c: ClosedCandle) {
    || StopTouched(levels, c)
    || (c.openMs > entryMs && TargetTouched(levels, c))
    || DurationMinutes(entryMs, c) >= rules.maximumHoldingMinutes
  }

  /** The stop wins ties, then the target. */
  function ReasonAt(levels: Levels, entryMs: int, c: ClosedCandle): ExitReason {
    if StopTouched(levels, c) then StopHit
    else if c.openMs > entryMs && TargetTouched(levels, c) then TargetHit
    else Timeout
  }

  /** The first candle from `k` on that fills the entry, or the end. */
  function FirstFill(rules: Rules, e: ReadyEvaluation, cs: seq<ClosedCandle>, k: nat): (r: nat)
    ensures r <= |cs| && (k <= |cs| ==> k <= r)
    ensures forall j :: k <= j < r ==> !Fills(rules, e, cs[j])
    ensures r < |cs| ==> k <= r && Fills(rules, e, cs[r])
    decreases |cs| - k
  {
    if k >= |cs| then |cs| else if Fills(rules, e, cs[k]) then k else FirstFill(rules, e, cs, k + 1)
  }

  /** The first candle from `k` on that opens at or after the deadline, or the end. */
  function FirstLate(rules: Rules, e: Evaluation, cs: seq<ClosedCandle>, k: nat): (r: nat)
    ensures r <= |cs| && (k <= |cs| ==> k <= r)
    ensures forall j :: k <= j < r ==> cs[j].openMs < Deadline(rules, e)
    ensures r < |cs| ==> k <= r && cs[r].openMs >= Deadline(rules, e)
    decreases |cs| - k
  {
    if k >= |cs| then |cs| else if cs[k].openMs >= Deadline(rules, e) then k else FirstLate(rules, e, cs, k + 1)
  }

  /** The first candle from `k` on that closes the trade, or the end. */
  function FirstExit(rules: Rules, levels: Levels, entryMs: int, cs: seq<ClosedCandle>, k: nat): (r: nat)
    ensures r <= |cs| && (k <= |cs| ==> k <= r)
    ensures forall j :: k <= j < r ==> !Exits(rules, levels, entryMs, cs[j])
    ensures r < |cs| ==> k <= r && Exits(rules, levels, entryMs, cs[r])
    decreases |cs| - k
  {
    if k >= |cs| then |cs|
    else if Exits(rules, levels, entryMs, cs[k]) then k else FirstExit(rules, levels, entryMs, cs, k + 1)
  }

  /** An evaluation offered after the exits of candle `at` have been processed. */
  datatype Signal = Signal(at: nat, evaluation: Evaluation)

  type ReadySignal = s: Signal | s.evaluation.decision.Ready?
    witness Signal(0, Evaluation(0, 0, Ready(Levels(Long, 1.0, 1.0, 1.0)), 0))

  function EntryAt(rules: Rules, cs: seq<ClosedCandle>, s: ReadySignal): nat {
    FirstFill(rules, s.evaluation, cs, s.at + 1)
  }

  function ExpiryAt(rules: Rules, cs: seq<ClosedCandle>, s: ReadySignal): nat {
    FirstLate(rules, s.evaluation, cs, s.at + 1)
  }

  function ExitAt(rules: Rules, cs: seq<ClosedCandle>, s: ReadySignal): nat
    requires EntryAt(rules, cs, s) < |cs|
  {
    var j := EntryAt(rules, cs, s);
    FirstExit(rules, s.evaluation.decision.levels, cs[j].openMs, cs, j)
  }

  /** The candle at which the accepted signal stops occupying the simulator, or the end of the data. */
  function EndsAt(rules: Rules, cs: seq<ClosedCandle>, s: ReadySignal): nat {
    if EntryAt(rules, cs, s) < |cs| then ExitAt(rules, cs, s) else ExpiryAt(rules, cs, s)
  }

  function PositionOf(rules: Rules, cs: seq<ClosedCandle>, s: ReadySignal): Position
    requires EntryAt(rules, cs, s) < |cs|
  {
    Position(s.evaluation, cs[EntryAt(rules, cs, s)].openMs)
  }

  /** The one fate of an accepted signal. */
  function FateOf(rules: Rules, cs: seq<ClosedCandle>, s: ReadySignal): Fate {
    if EntryAt(rules, cs, s) == |cs| then Lapsed(s.evaluation)
    else
      var o := PositionOf(rules, cs, s);
      var m := ExitAt(rules, cs, s);
      if m == |cs| then Ended(o, cs[|cs| - 1], EndOfData)
      else Ended(o, cs[m], ReasonAt(s.evaluation.decision.levels, o.entryMs, cs[m]))
  }

  /** Hashes of the READY signals among the first `k`. */
  ghost function SeenUpTo(ss: seq<Signal>, k: nat): set<nat>
    requires k <= |ss|
  {
    set j | 0 <= j < k && ss[j].evaluation.decision.Ready? :: ss[j].evaluation.hash
  }

  /** Every accepted signal has ended before the exits of candle `i`. */
  ghost predicate AllOver(rules: Rules, cs: seq<ClosedCandle>, accepted: seq<ReadySignal>, i: nat) {
    forall n :: 0 <= n < |accepted| ==> EndsAt(rules, cs, accepted[n]) < i
  }

  /** READY, its hash not offered READY before, and every accepted trade already over. */
  ghost predicate Admits(rules: Rules, cs: seq<ClosedCandle>, ss: seq<Signal>, accepted: seq<ReadySignal>, k: nat)
    requires k < |ss|
  {
    && ss[k].evaluation.decision.Ready?
    && ss[k].evaluation.hash !in SeenUpTo(ss, k)
    && AllOver(rules, cs, accepted, ss[k].at + 1)
  }

  /** The accepted ones among the first `k` signals, in order. */
  ghost function Accepted(rules: Rules, cs: seq<ClosedCandle>, ss: seq<Signal>, k: nat): seq<ReadySignal>
    requires k <= |ss|
  {
    if k == 0 then []
    else
      var a := Accepted(rules, cs, ss, k - 1);
      if Admits(rules, cs, ss, a, k - 1) then a + [ss[k - 1]] else a
  }

  function Fates(rules: Rules, cs: seq<ClosedCandle>, accepted: seq<ReadySignal>): (r: seq<Fate>)
    ensures |r| == |accepted|
  {
    if accepted == [] then []
    else Fates(rules, cs, accepted[..|accepted| - 1]) + [FateOf(rules, cs, accepted[|accepted| - 1])]
  }

  function Offers(evaluations: seq<Evaluation>, timeMs: int): (r: seq<Evaluation>) {
    Filter((e: Evaluation) => e.timeMs == timeMs, evaluations)
  }

  function Signals(at: nat, evaluations: seq<Evaluation>): (r: seq<Signal>)
    ensures |r| == |evaluations|
    ensures forall i :: 0 <= i < |r| ==> r[i] == Signal(at, evaluations[i])
  {
    seq(|evaluations|, i requires 0 <= i < |evaluations| => Signal(at, evaluations[i]))
  }

  /** The signals offered at the closes of the first `n` candles. */
  function SignalsUpTo(cs: seq<ClosedCandle>, evaluations: seq<Evaluation>, n: nat): seq<Signal>
    requires n <= |cs|
  {
    if n == 0 then []
    else SignalsUpTo(cs, evaluations, n - 1) + Signals(n - 1, Offers(evaluations, cs[n - 1].CloseMs()))
  }

  function Chronological(candles: seq<ClosedCandle>): seq<ClosedCandle> {
    Sort(OpensBefore, candles)
  }

  function InTurn(evaluations: seq<Evaluation>): seq<Evaluation> {
    Sort(EvaluatesBefore, evaluations)
  }

  /** The trades of one instrument, by the declarative rule. */
  ghost function Ledger(rules: Rules, evaluations: seq<Evaluation>, candles: seq<ClosedCandle>): seq<Fate> {
    var cs := Chronological(candles);
    var ss := SignalsUpTo(cs, InTurn(evaluations), |cs|);
    Fates(rules, cs, Accepted(rules, cs, ss, |ss|))
  }

  // ----- The state machine

  datatype State = State(pending: Option<Pending>, held: Option<Position>, fates: seq<Fate>, seen: set<nat>)

  predicate Sound(st: State) {
    st.pending.None? || st.held.None?
  }

  /** Expiry, fill and exit against one candle, in that order. */
  function Advance(rules: Rules, st: State, c: ClosedCandle): (r: State)
    requires Sound(st)
    ensures Sound(r)
  {
    if st.pending.Some? && c.openMs >= st.pending.value.expiresBeforeMs then
      st.(pending := None, fates := st.fates + [Lapsed(st.pending.value.evaluation)])
    else if st.pending.Some? && TouchesLimit(st.pending.value.evaluation.decision.levels, c) then
      var e := st.pending.value.evaluation;
      Close(rules, st.(pending := None, held := Some(Position(e, c.openMs))), c)
    else
      Close(rules, st, c)
  }

  function Close(rules: Rules, st: State, c: ClosedCandle): (r: State)
    requires Sound(st)
    ensures Sound(r)
  {
    if st.held.None? then st
    else
      var o := st.held.value;
      var levels := o.evaluation.decision.levels;
      if Exits(rules, levels, o.entryMs, c)
      then st.(held := None, fates := st.fates + [Ended(o, c, ReasonAt(levels, o.entryMs, c))])
      else st
  }

  function Offer(rules: Rules, st: State, e: Evaluation): (r: State)
    requires Sound(st)
    ensures Sound(r)
  {
    if !e.decision.Ready? || e.hash in st.seen then st
    else if st.pending.Some? || st.held.Some? then st.(seen := st.seen + {e.hash})
    else st.(seen := st.seen + {e.hash}, pending := Some(Pending(e, Deadline(rules, e))))
  }

  function OfferAll(rules: Rules, st: State, es: seq<Evaluation>): (r: State)
    requires Sound(st)
    ensures Sound(r)
  {
    if es == [] then st else Offer(rules, OfferAll(rules, st, es[..|es| - 1]), es[|es| - 1])
  }

  /** The state after the first `i` candles. */
  function After(rules: Rules, cs: seq<ClosedCandle>, evaluations: seq<Evaluation>, i: nat): (r: State)
    requires i <= |cs|
    ensures Sound(r)
  {
    if i == 0 then State(None, None, [], {})
    else
      var st := Advance(rules, After(rules, cs, evaluations, i - 1), cs[i - 1]);
      OfferAll(rules, st, Offers(evaluations, cs[i - 1].CloseMs()))
  }

  /** The records left once the data ends. */
  function Finish(st: State, cs: seq<ClosedCandle>): seq<Fate>
    requires Sound(st)
  {
    if st.pending.Some? then st.fates + [Lapsed(st.pending.value.evaluation)]
    else if st.held.Some? && cs != [] then st.fates + [Ended(st.held.value, cs[|cs| - 1], EndOfData)]
    else st.fates
  }

  // ----- The machine follows the rule: `k` signals and the exits of `i` candles processed

  ghost predicate Idle(rules: Rules, cs: seq<ClosedCandle>, accepted: seq<ReadySignal>, i: nat, fates: seq<Fate>) {
    fates == Fates(rules, cs, accepted) && AllOver(rules, cs, accepted, i)
  }

  /** All accepted signals but the last are over; the last is still live. */
  ghost predicate Live(rules: Rules, cs: seq<ClosedCandle>, accepted: seq<ReadySignal>, i: nat, fates: seq<Fate>) {
    accepted != [] &&
    var last := |accepted| - 1;
    && fates == Fates(rules, cs, accepted[..last])
    && AllOver(rules, cs, accepted[..last], i)
    && accepted[last].at < i <= EndsAt(rules, cs, accepted[last])
  }

  ghost predicate Waiting(rules: Rules, cs: seq<ClosedCandle>, i: nat, p: Pending, s: ReadySignal) {
    && p == Pending(s.evaluation, Deadline(rules, s.evaluation))
    && EntryAt(rules, cs, s) >= i && ExpiryAt(rules, cs, s) >= i
  }

  ghost predicate Holding(rules: Rules, cs: seq<ClosedCandle>, i: nat, o: Position, s: ReadySignal) {
    EntryAt(rules, cs, s) < |cs| && EntryAt(rules, cs, s) <= i && o == PositionOf(rules, cs, s)
  }

  /** Nothing live, one pending entry, or one open position. */
  ghost predicate Tracks(rules: Rules, cs: seq<ClosedCandle>, accepted: seq<ReadySignal>, i: nat, st: State) {
    if st.pending.Some? then
      && st.held.None? && Live(rules, cs, accepted, i, st.fates)
      && Waiting(rules, cs, i, st.pending.value, accepted[|accepted| - 1])
    else if st.held.Some? then
      && Live(rules, cs, accepted, i, st.fates)
      && Holding(rules, cs, i, st.held.value, accepted[|accepted| - 1])
    else
      Idle(rules, cs, accepted, i, st.fates)
  }

  lemma LiveEnds(rules: Rules, cs: seq<ClosedCandle>, a: seq<ReadySignal>, i: nat, fates: seq<Fate>)
    requires Live(rules, cs, a, i, fates) && EndsAt(rules, cs, a[|a| - 1]) == i
    ensures Idle(rules, cs, a, i + 1, fates + [FateOf(rules, cs, a[|a| - 1])])
  {
    forall n | 0 <= n < |a| ensures EndsAt(rules, cs, a[n]) < i + 1 {
      assert n < |a| - 1 ==> a[..|a| - 1][n] == a[n];
    }
  }

  lemma WaitingExpires(rules: Rules, cs: seq<ClosedCandle>, i: nat, p: Pending, s: ReadySignal)
    requires Sorted(OpensBefore, cs) && i < |cs| && s.at < i
    requires Waiting(rules, cs, i, p, s) && cs[i].openMs >= p.expiresBeforeMs
    ensures EndsAt(rules, cs, s) == i && FateOf(rules, cs, s) == Lapsed(p.evaluation)
  {
    forall j | i <= j < |cs| ensures !Fills(rules, s.evaluation, cs[j]) {
      if i < j {
        assert OpensBefore(cs[i], cs[j]);
      }
    }
    assert EntryAt(rules, cs, s) == |cs|;
  }

  lemma WaitingFills(rules: Rules, cs: seq<ClosedCandle>, i: nat, p: Pending, s: ReadySignal)
    requires i < |cs| && s.at < i && Waiting(rules, cs, i, p, s)
    requires Fills(rules, p.evaluation, cs[i])
    ensures Holding(rules, cs, i, Position(p.evaluation, cs[i].openMs), s)
  {
    assert EntryAt(rules, cs, s) == i;
  }

  lemma HoldingExits(rules: Rules, cs: seq<ClosedCandle>, i: nat, o: Position, s: ReadySignal)
    requires i < |cs| && s.at < i <= EndsAt(rules, cs, s) && Holding(rules, cs, i, o, s)
    requires Exits(rules, o.evaluation.decision.levels, o.entryMs, cs[i])
    ensures EndsAt(rules, cs, s) == i
    ensures FateOf(rules, cs, s) == Ended(o, cs[i], ReasonAt(o.evaluation.decision.levels, o.entryMs, cs[i]))
  {
    assert ExitAt(rules, cs, s) == i;
  }

  lemma CloseTracks(rules: Rules, cs: seq<ClosedCandle>, a: seq<ReadySignal>, i: nat, st: State)
    requires i < |cs| && Sound(st) && st.pending.None? && st.held.Some?
    requires Tracks(rules, cs, a, i, st)
    ensures Tracks(rules, cs, a, i + 1, Close(rules, st, cs[i]))
  {
    var o, s := st.held.value, a[|a| - 1];
    if Exits(rules, o.evaluation.decision.levels, o.entryMs, cs[i]) {
      HoldingExits(rules, cs, i, o, s);
      LiveEnds(rules, cs, a, i, st.fates);
    }
  }

  lemma AdvanceTracks(rules: Rules, cs: seq<ClosedCandle>, a: seq<ReadySignal>, i: nat, st: State)
    requires i < |cs| && Sound(st) && Sorted(OpensBefore, cs)
    requires Tracks(rules, cs, a, i, st)
    ensures Tracks(rules, cs, a, i + 1, Advance(rules, st, cs[i]))
  {
    var c := cs[i];
    if st.pending.Some? {
      var p, s := st.pending.value, a[|a| - 1];
      if c.openMs >= p.expiresBeforeMs {
        WaitingExpires(rules, cs, i, p, s);
        LiveEnds(rules, cs, a, i, st.fates);
      } else if TouchesLimit(p.evaluation.decision.levels, c) {
        WaitingFills(rules, cs, i, p, s);
        CloseTracks(rules, cs, a, i, st.(pending := None, held := Some(Position(p.evaluation, c.openMs))));
      } else {
        assert EntryAt(rules, cs, s) >= i + 1 && ExpiryAt(rules, cs, s) >= i + 1;
      }
    } else if st.held.Some? {
      CloseTracks(rules, cs, a, i, st);
    }
  }

  lemma OfferSees(rules: Rules, ss: seq<Signal>, k: nat, st: State)
    requires k < |ss| && Sound(st) && st.seen == SeenUpTo(ss, k)
    ensures Offer(rules, st, ss[k].evaluation).seen == SeenUpTo(ss, k + 1)
  {
  }

  lemma AcceptsFresh(rules: Rules, cs: seq<ClosedCandle>, a: seq<ReadySignal>, i: nat, fates: seq<Fate>, s: ReadySignal)
    requires s.at + 1 == i <= |cs| && Idle(rules, cs, a, i, fates)
    ensures Live(rules, cs, a + [s], i, fates)
    ensures Waiting(rules, cs, i, Pending(s.evaluation, Deadline(rules, s.evaluation)), s)
  {
    assert (a + [s])[..|a|] == a;
  }

  lemma OfferTracks(rules: Rules, cs: seq<ClosedCandle>, ss: seq<Signal>, k: nat, i: nat, st: State)
    requires k < |ss| && ss[k].at + 1 == i <= |cs| && Sound(st)
    requires st.seen == SeenUpTo(ss, k) && Tracks(rules, cs, Accepted(rules, cs, ss, k), i, st)
    ensures Tracks(rules, cs, Accepted(rules, cs, ss, k + 1), i, Offer(rules, st, ss[k].evaluation))
  {
    var a := Accepted(rules, cs, ss, k);
    if ss[k].evaluation.decision.Ready? && ss[k].evaluation.hash !in st.seen {
      if st.pending.Some? || st.held.Some? {
        assert EndsAt(rules, cs, a[|a| - 1]) >= i;
        assert Accepted(rules, cs, ss, k + 1) == a;
      } else {
        AcceptsFresh(rules, cs, a, i, st.fates, ss[k]);
      }
    }
  }

  lemma {:induction false} OfferAllTracks(rules: Rules, cs: seq<ClosedCandle>, ss: seq<Signal>, k: nat, l: nat, i: nat,
                                          st: State, es: seq<Evaluation>)
    requires k <= l == k + |es| <= |ss| && i < |cs| && Sound(st)
    requires ss[k..l] == Signals(i, es)
    requires st.seen == SeenUpTo(ss, k) && Tracks(rules, cs, Accepted(rules, cs, ss, k), i + 1, st)
    ensures OfferAll(rules, st, es).seen == SeenUpTo(ss, l)
    ensures Tracks(rules, cs, Accepted(rules, cs, ss, l), i + 1, OfferAll(rules, st, es))
  {
    hide Offer, Tracks, Accepted, SeenUpTo;
    if es == [] {
      assert k == l;
    } else {
      var n, m := |es| - 1, l - 1;
      assert ss[k..m] == ss[k..l][..n] == Signals(i, es[..n]);
      OfferAllTracks(rules, cs, ss, k, m, i, st, es[..n]);
      assert ss[m] == ss[k..l][n] == Signal(i, es[n]);
      OfferSees(rules, ss, m, OfferAll(rules, st, es[..n]));
      OfferTracks(rules, cs, ss, m, i + 1, OfferAll(rules, st, es[..n]));
      assert m + 1 == l;
    }
  }

  /** One candle: its exits, then its signals `ss[k..l]`. */
  lemma CandleTracks(rules: Rules, cs: seq<ClosedCandle>, ss: seq<Signal>, k: nat, l: nat, i: nat,
                     st: State, es: seq<Evaluation>, next: State)
    requires k <= l == k + |es| <= |ss| && i < |cs| && Sound(st) && Sorted(OpensBefore, cs)
    requires ss[k..l] == Signals(i, es) && next == OfferAll(rules, Advance(rules, st, cs[i]), es)
    requires st.seen == SeenUpTo(ss, k) && Tracks(rules, cs, Accepted(rules, cs, ss, k), i, st)
    ensures next.seen == SeenUpTo(ss, l) && Tracks(rules, cs, Accepted(rules, cs, ss, l), i + 1, next)
  {
    AdvanceTracks(rules, cs, Accepted(rules, cs, ss, k), i, st);
    OfferAllTracks(rules, cs, ss, k, l, i, Advance(rules, st, cs[i]), es);
  }

  lemma TracksNothing(rules: Rules, cs: seq<ClosedCandle>, ss: seq<Signal>)
    ensures SeenUpTo(ss, 0) == {} && Tracks(rules, cs, Accepted(rules, cs, ss, 0), 0, State(None, None, [], {}))
  {
  }

  lemma {:induction false} AfterTracks(rules: Rules, cs: seq<ClosedCandle>, evaluations: seq<Evaluation>,
                                       ss: seq<Signal>, i: nat, k: nat, st: State)
    requires i <= |cs| && Sorted(OpensBefore, cs) && SignalsUpTo(cs, evaluations, i) <= ss
    requires k == |SignalsUpTo(cs, evaluations, i)| && st == After(rules, cs, evaluations, i)
    ensures st.seen == SeenUpTo(ss, k) && Tracks(rules, cs, Accepted(rules, cs, ss, k), i, st)
  {
    hide Tracks, Accepted, SeenUpTo, Advance, OfferAll, Offers, Sorted;
    if i == 0 {
      TracksNothing(rules, cs, ss);
    } else {
      var before, upTo := SignalsUpTo(cs, evaluations, i - 1), SignalsUpTo(cs, evaluations, i);
      var j, prior := |before|, After(rules, cs, evaluations, i - 1);
      AfterTracks(rules, cs, evaluations, ss, i - 1, j, prior);
      var es := Offers(evaluations, cs[i - 1].CloseMs());
      assert ss[j..k] == Signals(i - 1, es) && k == j + |es| by {
        assert upTo == before + Signals(i - 1, es);
        assert ss[j..k] == upTo[j..];
      }
      CandleTracks(rules, cs, ss, j, k, i - 1, prior, es, st);
    }
  }

  lemma FinishTracks(rules: Rules, cs: seq<ClosedCandle>, a: seq<ReadySignal>, st: State)
    requires Sound(st) && Tracks(rules, cs, a, |cs|, st)
    ensures Finish(st, cs) == Fates(rules, cs, a)
  {
    if st.pending.Some? || st.held.Some? {
      LiveEnds(rules, cs, a, |cs|, st.fates);
    }
  }

  /** The one-pass machine computes the declarative ledger. */
  lemma MachineFollowsRule(rules: Rules, evaluations: seq<Evaluation>, candles: seq<ClosedCandle>)
    ensures var cs := Chronological(candles);
      Finish(After(rules, cs, InTurn(evaluations), |cs|), cs) == Ledger(rules, evaluations, candles)
  {
    var cs, es := Chronological(candles), InTurn(evaluations);
    var ss := SignalsUpTo(cs, es, |cs|);
    SortSorts(OpensBefore, candles);
    var k, st := |ss|, After(rules, cs, es, |cs|);
    AfterTracks(rules, cs, es, ss, |cs|, k, st);
    FinishTracks(rules, cs, Accepted(rules, cs, ss, k), st);
  }

  // ----- The fates only ever grow

  lemma {:induction false} OfferAllKeepsFates(rules: Rules, st: State, es: seq<Evaluation>)
    requires Sound(st)
    ensures OfferAll(rules, st, es).fates == st.fates && OfferAll(rules, st, es).held == st.held
  {
    if es != [] {
      OfferAllKeepsFates(rules, st, es[..|es| - 1]);
    }
  }

  lemma AdvanceKeepsFates(rules: Rules, st: State, c: ClosedCandle)
    requires Sound(st)
    ensures st.fates <= Advance(rules, st, c).fates
  {
    hide Exits, ReasonAt, TouchesLimit;
  }

  lemma {:induction false} FatesGrow(rules: Rules, cs: seq<ClosedCandle>, evaluations: seq<Evaluation>, i: nat, n: nat)
    requires i <= n <= |cs|
    ensures After(rules, cs, evaluations, i).fates <= After(rules, cs, evaluations, n).fates
    decreases n
  {
    hide Advance, OfferAll, Offers;
    if i < n {
      FatesGrow(rules, cs, evaluations, i, n - 1);
      var st := After(rules, cs, evaluations, n - 1);
      OfferAllKeepsFates(rules, Advance(rules, st, cs[n - 1]), Offers(evaluations, cs[n - 1].CloseMs()));
      AdvanceKeepsFates(rules, st, cs[n - 1]);
    }
  }
}
