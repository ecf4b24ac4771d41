/** Trade records, their accounting, and the simulator itself. */
module Execution {
  import opened Sequences
  import opened Candles
  import opened Simulator
  import opened LedgerLaws

  datatype Accounting = Accounting(
    executedEntry: real, requestedExit: real, executedExit: real, initialRisk: real,
    grossReturn: real, entryFee: real, exitFee: real, slippageCost: real,
    netReturn: real, grossR: real, netR: real)

  datatype TradeRecord =
    | Expired(hash: nat, instrument: nat, signalMs: int, levels: Levels)
    | Closed(hash: nat, instrument: nat, signalMs: int, levels: Levels, entryMs: int, exitMs: int,
             reason: ExitReason, durationMinutes: int, accounting: Accounting)

  /** An open trade: the position and the price it was entered at. */
  datatype OpenTrade = OpenTrade(position: Position, executedEntry: real)

  /** The two divisors of the accounting; the decimal context raises when either is zero. */
  predicate Divisible(levels: Levels) {
    levels.entry != 0.0 && levels.entry != levels.stop
  }

  function Sign(d: Direction): real {
    if d == Long then 1.0 else -1.0
  }

  function EntryPrice(rules: Rules, levels: Levels): real {
    levels.entry * (1.0 + (if levels.direction == Long then rules.slippageRate else -rules.slippageRate))
  }

  /** A stop gapped over fills at the worse opening price. */
  function StopFill(levels: Levels, c: ClosedCandle): real {
    if levels.direction == Long
    then if c.bar.open < levels.stop then c.bar.open else levels.stop
    else if c.bar.open > levels.stop then c.bar.open else levels.stop
  }

  function InitialRisk(levels: Levels): real {
    if levels.entry >= levels.stop then levels.entry - levels.stop else levels.stop - levels.entry
  }

  function ExitPrice(rules: Rules, levels: Levels, baseExit: real): real {
    baseExit * (1.0 - Sign(levels.direction) * rules.slippageRate)
  }

  function GrossPnl(levels: Levels, baseExit: real): real {
    Sign(levels.direction) * (baseExit - levels.entry)
  }

  function SlippageCost(levels: Levels, executedEntry: real, baseExit: real, executedExit: real): real {
    Sign(levels.direction) * (executedEntry - levels.entry) + Sign(levels.direction) * (baseExit - executedExit)
  }

  function NetPnl(levels: Levels, executedEntry: real, executedExit: real, entryFee: real, exitFee: real): real {
    Sign(levels.direction) * (executedExit - executedEntry) - entryFee - exitFee
  }

  function Account(rules: Rules, levels: Levels, executedEntry: real, requestedExit: real, baseExit: real): Accounting
    requires Divisible(levels)
  {
    var executedExit := ExitPrice(rules, levels, baseExit);
    var initialRisk := InitialRisk(levels);
    var gross := GrossPnl(levels, baseExit);
    var entryFee := executedEntry * rules.feeRate;
    var exitFee := executedExit * rules.feeRate;
    var net := NetPnl(levels, executedEntry, executedExit, entryFee, exitFee);
    Accounting(executedEntry, requestedExit, executedExit, initialRisk, gross / levels.entry,
               entryFee, exitFee, SlippageCost(levels, executedEntry, baseExit, executedExit),
               net / levels.entry, gross / initialRisk, net / initialRisk)
  }

  function ExpiredRecord(e: ReadyEvaluation): TradeRecord {
    Expired(e.hash, e.instrument, e.timeMs, e.decision.levels)
  }

  function ClosedRecord(rules: Rules, o: OpenTrade, c: ClosedCandle, requestedExit: real, baseExit: real,
                        reason: ExitReason): TradeRecord
    requires Divisible(o.position.evaluation.decision.levels)
  {
    var e := o.position.evaluation;
    Closed(e.hash, e.instrument, e.timeMs, e.decision.levels, o.position.entryMs, c.openMs, reason,
           DurationMinutes(o.position.entryMs, c), Account(rules, e.decision.levels, o.executedEntry, requestedExit,
                                                           baseExit))
  }

  function LevelsOf(f: Fate): Levels {
    if f.Lapsed? then f.evaluation.decision.levels else f.position.evaluation.decision.levels
  }

  function RequestedExit(f: Fate): real
    requires f.Ended?
  {
    match f.reason
    case StopHit => LevelsOf(f).stop
    case TargetHit => LevelsOf(f).target
    case _ => f.candle.bar.close
  }

  function BaseExit(f: Fate): real
    requires f.Ended?
  {
    if f.reason == StopHit then StopFill(LevelsOf(f), f.candle) else RequestedExit(f)
  }

  predicate Recordable(f: Fate) {
    f.Ended? ==> Divisible(LevelsOf(f))
  }

  /** The record of one fate. */
  function RecordOf(rules: Rules, f: Fate): TradeRecord
    requires Recordable(f)
  {
    match f
    case Lapsed(e) => ExpiredRecord(e)
    case Ended(p, c, reason) =>
      ClosedRecord(rules, OpenTrade(p, EntryPrice(rules, LevelsOf(f))), c, RequestedExit(f), BaseExit(f), reason)
  }

  ghost predicate Accountable(fates: seq<Fate>) {
    forall n :: 0 <= n < |fates| ==> Recordable(fates[n])
  }

  ghost function Records(rules: Rules, fates: seq<Fate>): (r: seq<TradeRecord>)
    requires Accountable(fates)
    ensures |r| == |fates|
  {
    if fates == [] then []
    else Records(rules, fates[..|fates| - 1]) + [RecordOf(rules, fates[|fates| - 1])]
  }

  lemma RecordsSnoc(rules: Rules, fates: seq<Fate>, f: Fate)
    requires Accountable(fates) && Recordable(f)
    ensures Accountable(fates + [f])
    ensures Records(rules, fates + [f]) == Records(rules, fates) + [RecordOf(rules, f)]
  {
    assert (fates + [f])[..|fates|] == fates;
  }

  lemma {:induction false} RecordsAt(rules: Rules, fates: seq<Fate>, n: nat)
    requires Accountable(fates) && n < |fates|
    ensures Records(rules, fates)[n] == RecordOf(rules, fates[n])
  {
    if n < |fates| - 1 {
      RecordsAt(rules, fates[..|fates| - 1], n);
    }
  }

  datatype RunResult = Trades(trades: seq<TradeRecord>) | DivisionByZero

  /** The state once what was pending has expired or been filled. */
  function Prepared(rules: Rules, st: State, c: ClosedCandle): (r: State)
    requires Sound(st)
    ensures Sound(r)
  {
    if st.pending.Some? && c.openMs >= st.pending.value.expiresBeforeMs then
      st.(pending := None, fates := st.fates + [Lapsed(st.pending.value.evaluation)])
    else if st.pending.Some? && TouchesLimit(st.pending.value.evaluation.decision.levels, c) then
      st.(pending := None, held := Some(Position(st.pending.value.evaluation, c.openMs)))
    else st
  }

  lemma AdvanceIsClose(rules: Rules, st: State, c: ClosedCandle)
    requires Sound(st)
    ensures Advance(rules, st, c) == Close(rules, Prepared(rules, st, c), c)
  {
    hide Exits, ReasonAt, TouchesLimit;
  }

  lemma AdvanceKeepsSeen(rules: Rules, st: State, c: ClosedCandle)
    requires Sound(st)
    ensures Advance(rules, st, c).seen == st.seen
  {
    hide Exits, ReasonAt, TouchesLimit;
  }

  lemma LapsedRecorded(rules: Rules, fates: seq<Fate>, e: ReadyEvaluation)
    requires Accountable(fates)
    ensures Accountable(fates + [Lapsed(e)])
    ensures Records(rules, fates + [Lapsed(e)]) == Records(rules, fates) + [ExpiredRecord(e)]
  {
    RecordsSnoc(rules, fates, Lapsed(e));
  }

  lemma Unrecordable(fates: seq<Fate>, f: Fate)
    requires f.Ended? && !Divisible(LevelsOf(f))
    ensures !Accountable(fates + [f])
  {
    var longer := fates + [f];
    assert !Recordable(longer[|fates|]);
  }

  /** A fate the loop cannot account for stays in the result. */
  lemma RefusedForever(rules: Rules, cs: seq<ClosedCandle>, es: seq<Evaluation>, i: nat)
    requires i < |cs| && !Accountable(Advance(rules, After(rules, cs, es, i), cs[i]).fates)
    ensures !Accountable(Finish(After(rules, cs, es, |cs|), cs))
  {
    var st := Advance(rules, After(rules, cs, es, i), cs[i]);
    OfferAllKeepsFates(rules, st, Offers(es, cs[i].CloseMs()));
    assert After(rules, cs, es, i + 1).fates == st.fates;
    FatesGrow(rules, cs, es, i + 1, |cs|);
    var n :| 0 <= n < |st.fates| && !Recordable(st.fates[n]);
    assert Finish(After(rules, cs, es, |cs|), cs)[n] == st.fates[n];
  }

  lemma OffersSnoc(evaluations: seq<Evaluation>, k: nat, t: int)
    requires k < |evaluations|
    ensures Offers(evaluations[..k + 1], t)
         == Offers(evaluations[..k], t) + if evaluations[k].timeMs == t then [evaluations[k]] else []
  {
    var p := (e: Evaluation) => e.timeMs == t;
    assert evaluations[..k + 1] == evaluations[..k] + [evaluations[k]];
    FilterConcat(p, evaluations[..k], [evaluations[k]]);
  }

  // ----- All instruments

  predicate RecordBefore(a: TradeRecord, b: TradeRecord) {
    || a.signalMs < b.signalMs
    || (a.signalMs == b.signalMs && (a.instrument < b.instrument || (a.instrument == b.instrument && a.hash <= b.hash)))
  }

  function EvaluationsOf(x: int, evaluations: seq<Evaluation>): seq<Evaluation> {
    Filter((e: Evaluation) => e.instrument == x, evaluations)
  }

  function CandlesOf(x: int, candles: seq<ClosedCandle>): seq<ClosedCandle> {
    Filter((c: ClosedCandle) => c.instrument == x, candles)
  }

  function RecordsOf(x: int, trades: seq<TradeRecord>): seq<TradeRecord> {
    Filter((t: TradeRecord) => t.instrument == x, trades)
  }

  /** The ledger of one instrument, from its own inputs only. */
  ghost function LedgerOf(rules: Rules, evaluations: seq<Evaluation>, candles: seq<ClosedCandle>, x: int): seq<Fate> {
    Ledger(rules, EvaluationsOf(x, evaluations), CandlesOf(x, candles))
  }

  lemma RecordOrderTotal()
    ensures TotalPreorder(RecordBefore)
  {
  }

  lemma NoInputsNoTrades(rules: Rules, evaluations: seq<Evaluation>, candles: seq<ClosedCandle>, x: int)
    requires (forall e :: e in evaluations ==> e.instrument != x) && (forall c :: c in candles ==> c.instrument != x)
    ensures LedgerOf(rules, evaluations, candles, x) == []
  {
    FilterNone((e: Evaluation) => e.instrument == x, evaluations);
    FilterNone((c: ClosedCandle) => c.instrument == x, candles);
    assert Chronological([]) == [];
  }

  /** The records of one instrument carry its name and come out already in output order. */
  lemma InstrumentRecordsInOrder(rules: Rules, evaluations: seq<Evaluation>, candles: seq<ClosedCandle>, x: int)
    requires Accountable(LedgerOf(rules, evaluations, candles, x))
    ensures var r := Records(rules, LedgerOf(rules, evaluations, candles, x));
      && (forall t :: t in r ==> t.instrument == x)
      && (forall m, n :: 0 <= m < n < |r| ==> r[m].signalMs < r[n].signalMs)
      && Sorted(RecordBefore, r)
  {
    var es := EvaluationsOf(x, evaluations);
    LedgerInOrder(rules, es, CandlesOf(x, candles));
    var l := LedgerOf(rules, evaluations, candles, x);
    var r := Records(rules, l);
    forall n | 0 <= n < |r|
      ensures r[n].instrument == x && r[n].signalMs == EvaluationOf(l[n]).timeMs
    {
      assert EvaluationOf(l[n]) in es;
      RecordsAt(rules, l, n);
    }
  }

  /** Sorting the merged records keeps each instrument's own list as it was. */
  lemma SortKeepsInstrument(rules: Rules, evaluations: seq<Evaluation>, candles: seq<ClosedCandle>, x: int,
                            trades: seq<TradeRecord>)
    requires Accountable(LedgerOf(rules, evaluations, candles, x))
    requires RecordsOf(x, trades) == Records(rules, LedgerOf(rules, evaluations, candles, x))
    ensures RecordsOf(x, Sort(RecordBefore, trades)) == RecordsOf(x, trades)
  {
    RecordOrderTotal();
    FilterSort(RecordBefore, (t: TradeRecord) => t.instrument == x, trades);
    InstrumentRecordsInOrder(rules, evaluations, candles, x);
    SortedIsFixed(RecordBefore, RecordsOf(x, trades));
  }

  /** The records of instrument `x` among `trades` are those of its own ledger, in order. */
  ghost predicate OwnRecords(rules: Rules, evaluations: seq<Evaluation>, candles: seq<ClosedCandle>,
                             trades: seq<TradeRecord>, x: int)
  {
    && Accountable(LedgerOf(rules, evaluations, candles, x))
    && RecordsOf(x, trades) == Records(rules, LedgerOf(rules, evaluations, candles, x))
  }

  /** `trades` holds the records of the instruments `done` and no other. */
  ghost predicate Merged(rules: Rules, evaluations: seq<Evaluation>, candles: seq<ClosedCandle>,
                         trades: seq<TradeRecord>, done: seq<int>)
  {
    forall x :: if x in done then OwnRecords(rules, evaluations, candles, trades, x) else RecordsOf(x, trades) == []
  }

  lemma MergedNothing(rules: Rules, evaluations: seq<Evaluation>, candles: seq<ClosedCandle>)
    ensures Merged(rules, evaluations, candles, [], [])
  {
  }

  lemma AppendInstrument(rules: Rules, evaluations: seq<Evaluation>, candles: seq<ClosedCandle>,
                         trades: seq<TradeRecord>, x: int, y: int)
    requires Accountable(LedgerOf(rules, evaluations, candles, y))
    ensures var added := Records(rules, LedgerOf(rules, evaluations, candles, y));
      RecordsOf(x, trades + added) == RecordsOf(x, trades) + if x == y then added else []
  {
    var p := (t: TradeRecord) => t.instrument == x;
    var added := Records(rules, LedgerOf(rules, evaluations, candles, y));
    InstrumentRecordsInOrder(rules, evaluations, candles, y);
    FilterConcat(p, trades, added);
    if x == y {
      FilterAll(p, added);
    } else {
      FilterNone(p, added);
    }
  }

  lemma MergeInstrument(rules: Rules, evaluations: seq<Evaluation>, candles: seq<ClosedCandle>,
                        trades: seq<TradeRecord>, done: seq<int>, y: int)
    requires Merged(rules, evaluations, candles, trades, done) && y !in done
    requires Accountable(LedgerOf(rules, evaluations, candles, y))
    ensures Merged(rules, evaluations, candles, trades + Records(rules, LedgerOf(rules, evaluations, candles, y)),
                   done + [y])
  {
    var added := Records(rules, LedgerOf(rules, evaluations, candles, y));
    forall x ensures if x in done + [y] then OwnRecords(rules, evaluations, candles, trades + added, x)
                     else RecordsOf(x, trades + added) == []
    {
      AppendInstrument(rules, evaluations, candles, trades, x, y);
    }
  }

  lemma MergedAll(rules: Rules, evaluations: seq<Evaluation>, candles: seq<ClosedCandle>,
                  trades: seq<TradeRecord>, instruments: seq<int>)
    requires Merged(rules, evaluations, candles, trades, instruments)
    requires forall e :: e in evaluations ==> e.instrument in instruments
    requires forall c :: c in candles ==> c.instrument in instruments
    ensures Sorted(RecordBefore, Sort(RecordBefore, trades))
    ensures forall x :: OwnRecords(rules, evaluations, candles, Sort(RecordBefore, trades), x)
  {
    RecordOrderTotal();
    SortSorts(RecordBefore, trades);
    forall x ensures OwnRecords(rules, evaluations, candles, Sort(RecordBefore, trades), x) {
      if x !in instruments {
        NoInputsNoTrades(rules, evaluations, candles, x);
      }
      SortKeepsInstrument(rules, evaluations, candles, x, trades);
    }
  }

  class ExecutionSimulator {
    const rules: Rules

    constructor (expiryExecutionBars: int, executionBarMinutes: int, maximumHoldingMinutes: int,
                 takerFeeBps: real, adverseSlippageBps: real)
      ensures rules == Rules(expiryExecutionBars * executionBarMinutes, maximumHoldingMinutes,
                             takerFeeBps / 10000.0, adverseSlippageBps / 10000.0)
    {
      rules := Rules(expiryExecutionBars * executionBarMinutes, maximumHoldingMinutes,
                     takerFeeBps / 10000.0, adverseSlippageBps / 10000.0);
    }

    /** Group the ordered evaluations by their evaluation time, keeping their order. */
    method GroupByTime(ordered: seq<Evaluation>) returns (byTime: map<int, seq<Evaluation>>)
      ensures forall t :: (if t in byTime then byTime[t] else []) == Offers(ordered, t)
    {
      byTime := map[];
      for k := 0 to |ordered|
        invariant forall t :: (if t in byTime then byTime[t] else []) == Offers(ordered[..k], t)
      {
        forall t ensures Offers(ordered[..k + 1], t)
                 == Offers(ordered[..k], t) + if ordered[k].timeMs == t then [ordered[k]] else []
        {
          OffersSnoc(ordered, k, t);
        }
        var t := ordered[k].timeMs;
        byTime := byTime[t := (if t in byTime then byTime[t] else []) + [ordered[k]]];
      }
      assert ordered[..|ordered|] == ordered;
    }

    /** The evaluations offered at one close, in hash order. */
    method OfferAtClose(offers: seq<Evaluation>, pending: Option<Pending>, held: Option<OpenTrade>, seen: set<nat>,
                        ghost st: State)
      returns (newPending: Option<Pending>, newSeen: set<nat>)
      requires Sound(st) && pending == st.pending && seen == st.seen && held.Some? == st.held.Some?
      ensures newPending == OfferAll(rules, st, offers).pending && newSeen == OfferAll(rules, st, offers).seen
    {
      newPending, newSeen := pending, seen;
      for n := 0 to |offers|
        invariant var now := OfferAll(rules, st, offers[..n]);
          newPending == now.pending && newSeen == now.seen && held.Some? == now.held.Some?
      {
        var e := offers[n];
        assert offers[..n + 1][..n] == offers[..n];
        if e.decision.Ready? && e.hash !in newSeen {
          newSeen := newSeen + {e.hash};
          if newPending.None? && held.None? {
            newPending := Some(Pending(e, Deadline(rules, e)));
          }
        }
      }
      assert offers[..|offers|] == offers;
    }

    /** Why `c` closes the trade, if it does: the stop first, then the target, then the holding limit. */
    method ExitOn(o: OpenTrade, c: ClosedCandle) returns (reason: Option<ExitReason>, requested: real, base: real)
      ensures var levels := o.position.evaluation.decision.levels;
        && reason == (if Exits(rules, levels, o.position.entryMs, c) then Some(ReasonAt(levels, o.position.entryMs, c))
                      else None)
        && (reason.Some? ==> var f := Ended(o.position, c, reason.value);
             requested == RequestedExit(f) && base == BaseExit(f))
    {
      var levels := o.position.evaluation.decision.levels;
      if StopTouched(levels, c) {
        return Some(StopHit), levels.stop, StopFill(levels, c);
      } else if c.openMs > o.position.entryMs && TargetTouched(levels, c) {
        return Some(TargetHit), levels.target, levels.target;
      } else if DurationMinutes(o.position.entryMs, c) >= rules.maximumHoldingMinutes {
        return Some(Timeout), c.bar.close, c.bar.close;
      }
      return None, 0.0, 0.0;
    }

    /** Expiry, fill and exit against one candle. */
    method OnCandle(c: ClosedCandle, pending: Option<Pending>, held: Option<OpenTrade>, trades: seq<TradeRecord>,
                    ghost st: State)
      returns (newPending: Option<Pending>, newHeld: Option<OpenTrade>, newTrades: seq<TradeRecord>, divided: bool)
      requires Mirrors(st, pending, held, trades)
      ensures divided ==> Mirrors(Advance(rules, st, c), newPending, newHeld, newTrades)
      ensures !divided ==> !Accountable(Advance(rules, st, c).fates)
    {
      newPending, newHeld, newTrades := ExpireOrFill(c, pending, held, trades, st);
      AdvanceIsClose(rules, st, c);
      newHeld, newTrades, divided := CloseHeld(c, newPending, newHeld, newTrades, Prepared(rules, st, c));
    }

    /** What is pending expires or is filled. */
    method ExpireOrFill(c: ClosedCandle, pending: Option<Pending>, held: Option<OpenTrade>, trades: seq<TradeRecord>,
                        ghost st: State)
      returns (newPending: Option<Pending>, newHeld: Option<OpenTrade>, newTrades: seq<TradeRecord>)
      requires Mirrors(st, pending, held, trades)
      ensures Mirrors(Prepared(rules, st, c), newPending, newHeld, newTrades)
    {
      hide EntryPrice, ClosedRecord, Account, RecordOf;
      newPending, newHeld, newTrades := pending, held, trades;
      if newPending.Some? && c.openMs >= newPending.value.expiresBeforeMs {
        LapsedRecorded(rules, st.fates, newPending.value.evaluation);
        newTrades := newTrades + [ExpiredRecord(newPending.value.evaluation)];
        newPending := None;
      }
      if newPending.Some? && TouchesLimit(newPending.value.evaluation.decision.levels, c) {
        var e := newPending.value.evaluation;
        newHeld := Some(OpenTrade(Position(e, c.openMs), EntryPrice(rules, e.decision.levels)));
        newPending := None;
      }
    }

    /** What is open closes, if the candle asks for it. */
    method CloseHeld(c: ClosedCandle, pending: Option<Pending>, held: Option<OpenTrade>, trades: seq<TradeRecord>,
                     ghost st: State)
      returns (newHeld: Option<OpenTrade>, newTrades: seq<TradeRecord>, divided: bool)
      requires Mirrors(st, pending, held, trades)
      ensures divided ==> Mirrors(Close(rules, st, c), pending, newHeld, newTrades)
      ensures !divided ==> !Accountable(Close(rules, st, c).fates)
    {
      hide EntryPrice, Account, Exits, ReasonAt, RequestedExit, BaseExit, Divisible;
      newHeld, newTrades, divided := held, trades, true;
      if newHeld.None? {
        return;
      }
      var reason, requested, base := ExitOn(newHeld.value, c);
      if reason.None? {
        return;
      }
      ghost var f := Ended(newHeld.value.position, c, reason.value);
      if !Divisible(newHeld.value.position.evaluation.decision.levels) {
        Unrecordable(st.fates, f);
        divided := false;
        return;
      }
      RecordsSnoc(rules, st.fates, f);
      newTrades := newTrades + [ClosedRecord(rules, newHeld.value, c, requested, base, reason.value)];
      newHeld := None;
    }

    lemma MirrorsNothing(cs: seq<ClosedCandle>, ordered: seq<Evaluation>)
      ensures After(rules, cs, ordered, 0).seen == {} && Mirrors(After(rules, cs, ordered, 0), None, None, [])
    {
    }

    lemma MirrorFacts(st: State, pending: Option<Pending>, held: Option<OpenTrade>, trades: seq<TradeRecord>)
      requires Mirrors(st, pending, held, trades)
      ensures Sound(st) && pending == st.pending && held.Some? == st.held.Some?
    {
    }

    /** Offers change only what is pending. */
    lemma MirrorOffered(st: State, next: State, pending: Option<Pending>, newPending: Option<Pending>,
                        held: Option<OpenTrade>, trades: seq<TradeRecord>)
      requires Mirrors(st, pending, held, trades) && Sound(next)
      requires next.fates == st.fates && next.held == st.held && next.pending == newPending
      ensures Mirrors(next, newPending, held, trades)
    {
    }

    lemma AfterNext(cs: seq<ClosedCandle>, ordered: seq<Evaluation>, i: nat)
      requires i < |cs|
      ensures After(rules, cs, ordered, i + 1)
           == OfferAll(rules, Advance(rules, After(rules, cs, ordered, i), cs[i]), Offers(ordered, cs[i].CloseMs()))
    {
    }

    /** One pass over the ordered candles of one instrument. */
    method Scan(cs: seq<ClosedCandle>, ordered: seq<Evaluation>, byTime: map<int, seq<Evaluation>>)
      returns (result: RunResult)
      requires forall t :: (if t in byTime then byTime[t] else []) == Offers(ordered, t)
      ensures var fates := Finish(After(rules, cs, ordered, |cs|), cs);
        result == if Accountable(fates) then Trades(Records(rules, fates)) else DivisionByZero
    {
      hide After, Advance, OfferAll, Finish, Offers, Records, Mirrors, Accountable;
      var pending: Option<Pending> := None;
      var held: Option<OpenTrade> := None;
      var trades: seq<TradeRecord> := [];
      var seen: set<nat> := {};
      ghost var now := After(rules, cs, ordered, 0);
      MirrorsNothing(cs, ordered);
      for i := 0 to |cs|
        invariant now == After(rules, cs, ordered, i)
        invariant Mirrors(now, pending, held, trades) && seen == now.seen
      {
        ghost var st := Advance(rules, now, cs[i]);
        var divided;
        pending, held, trades, divided := OnCandle(cs[i], pending, held, trades, now);
        if !divided {
          RefusedForever(rules, cs, ordered, i);
          return DivisionByZero;
        }
        var close := cs[i].CloseMs();
        var offers := if close in byTime then byTime[close] else [];
        MirrorFacts(st, pending, held, trades);
        AdvanceKeepsSeen(rules, now, cs[i]);
        var offered;
        offered, seen := OfferAtClose(offers, pending, held, seen, st);
        OfferAllKeepsFates(rules, st, offers);
        now := OfferAll(rules, st, offers);
        MirrorOffered(st, now, pending, offered, held, trades);
        pending := offered;
        AfterNext(cs, ordered, i);
      }
      result := AtEnd(cs, pending, held, trades, now);
    }

    /** The trades of one instrument. */
    method RunInstrument(evaluations: seq<Evaluation>, candles: seq<ClosedCandle>) returns (result: RunResult)
      ensures var fates := Ledger(rules, evaluations, candles);
        result == if Accountable(fates) then Trades(Records(rules, fates)) else DivisionByZero
    {
      var ordered := InTurn(evaluations);
      var byTime := GroupByTime(ordered);
      result := Scan(Chronological(candles), ordered, byTime);
      MachineFollowsRule(rules, evaluations, candles);
    }

    /** All instruments in turn, merged in output order. */
    method Run(evaluations: seq<Evaluation>, candles: seq<ClosedCandle>) returns (result: RunResult)
      ensures result.DivisionByZero? ==> exists x :: !Accountable(LedgerOf(rules, evaluations, candles, x))
      ensures result.Trades? ==> forall x :: OwnRecords(rules, evaluations, candles, result.trades, x)
      ensures result.Trades? ==> forall j, k :: 0 <= j < k < |result.trades| ==>
        var a, b := result.trades[j], result.trades[k];
        || a.signalMs < b.signalMs
        || (a.signalMs == b.signalMs
            && (a.instrument < b.instrument || (a.instrument == b.instrument && a.hash <= b.hash)))
    {
      hide LedgerOf, Sort, OwnRecords, Merged, Accountable, Ascending;
      var named: set<int> := (set e | e in evaluations :: e.instrument) + (set c | c in candles :: c.instrument);
      var instruments := Ascending(named);
      AscendingLists(named);
      result := RunEach(evaluations, candles, instruments);
      if result.Trades? {
        MergedAll(rules, evaluations, candles, result.trades, instruments);
        result := Trades(Sort(RecordBefore, result.trades));
      }
    }

    /** One instrument after the other. */
    method RunEach(evaluations: seq<Evaluation>, candles: seq<ClosedCandle>, instruments: seq<int>)
      returns (result: RunResult)
      requires forall i, j :: 0 <= i < j < |instruments| ==> instruments[i] < instruments[j]
      ensures result.DivisionByZero? ==> exists x :: !Accountable(LedgerOf(rules, evaluations, candles, x))
      ensures result.Trades? ==> Merged(rules, evaluations, candles, result.trades, instruments)
    {
      hide Ledger, OwnRecords, Merged, EvaluationsOf, CandlesOf, Records, Accountable;
      MergedNothing(rules, evaluations, candles);
      var trades: seq<TradeRecord> := [];
      for i := 0 to |instruments|
        invariant Merged(rules, evaluations, candles, trades, instruments[..i])
      {
        var y := instruments[i];
        var one := RunInstrument(EvaluationsOf(y, evaluations), CandlesOf(y, candles));
        if one.DivisionByZero? {
          assert !Accountable(LedgerOf(rules, evaluations, candles, y));
          return DivisionByZero;
        }
        assert instruments[..i + 1] == instruments[..i] + [y];
        MergeInstrument(rules, evaluations, candles, trades, instruments[..i], y);
        trades := trades + one.trades;
      }
      assert instruments[..|instruments|] == instruments;
      return Trades(trades);
    }

    /** What is still pending expires, what is still open closes on the last candle. */
    method AtEnd(cs: seq<ClosedCandle>, pending: Option<Pending>, held: Option<OpenTrade>, trades: seq<TradeRecord>,
                 ghost st: State)
      returns (result: RunResult)
      requires Mirrors(st, pending, held, trades)
      ensures result == if Accountable(Finish(st, cs)) then Trades(Records(rules, Finish(st, cs))) else DivisionByZero
    {
      if pending.Some? {
        RecordsSnoc(rules, st.fates, Lapsed(pending.value.evaluation));
        return Trades(trades + [ExpiredRecord(pending.value.evaluation)]);
      }
      if held.Some? && cs != [] {
        var last := cs[|cs| - 1];
        if !Divisible(held.value.position.evaluation.decision.levels) {
          ghost var fates := Finish(st, cs);
          assert !Recordable(fates[|fates| - 1]);
          return DivisionByZero;
        }
        RecordsSnoc(rules, st.fates, Ended(held.value.position, last, EndOfData));
        return Trades(trades + [ClosedRecord(rules, held.value, last, last.bar.close, last.bar.close, EndOfData)]);
      }
      return Trades(trades);
    }

    /** The local variables of the loop hold the machine's state. */
    ghost predicate Mirrors(st: State, pending: Option<Pending>, held: Option<OpenTrade>, trades: seq<TradeRecord>) {
      && Sound(st) && pending == st.pending
      && held.Some? == st.held.Some?
      && (held.Some? ==> held.value == OpenTrade(st.held.value,
                                                 EntryPrice(rules, st.held.value.evaluation.decision.levels)))
      && Accountable(st.fates) && trades == Records(rules, st.fates)
    }
  }

  // ----- Accounting identities

  ghost predicate Costed(rules: Rules) {
    rules.feeRate >= 0.0 && 0.0 <= rules.slippageRate <= 1.0
  }

  lemma QuotientTimes(x: real, y: real)
    requires y != 0.0
    ensures x / y * y == x
  {
  }

  /** Before any division: net is gross less the three costs. */
  lemma NetPnlSplits(levels: Levels, executedEntry: real, baseExit: real, executedExit: real, entryFee: real,
                     exitFee: real)
    ensures NetPnl(levels, executedEntry, executedExit, entryFee, exitFee)
         == GrossPnl(levels, baseExit) - entryFee - exitFee - SlippageCost(levels, executedEntry, baseExit,
                                                                           executedExit)
  {
  }

  /** Slippage is the rate on both legs. */
  lemma SlippageIsRateOnBothLegs(rules: Rules, levels: Levels, baseExit: real)
    ensures SlippageCost(levels, EntryPrice(rules, levels), baseExit, ExitPrice(rules, levels, baseExit))
         == rules.slippageRate * (levels.entry + baseExit)
  {
    var s := rules.slippageRate;
    if levels.direction == Long {
      assert levels.entry * (1.0 + s) == levels.entry + s * levels.entry;
      assert baseExit * (1.0 - s) == baseExit - s * baseExit;
    } else {
      assert levels.entry * (1.0 + -s) == levels.entry - s * levels.entry;
      assert baseExit * (1.0 + s) == baseExit + s * baseExit;
      assert 1.0 - Sign(levels.direction) * s == 1.0 + s;
    }
    assert s * (levels.entry + baseExit) == s * levels.entry + s * baseExit;
  }

  /** Net is gross less fees and slippage, in price and in R. */
  lemma NetIsGrossLessCosts(rules: Rules, levels: Levels, requestedExit: real, baseExit: real)
    requires Divisible(levels)
    ensures var a := Account(rules, levels, EntryPrice(rules, levels), requestedExit, baseExit);
      && a.netReturn * levels.entry == a.grossReturn * levels.entry - a.entryFee - a.exitFee - a.slippageCost
      && a.netR * a.initialRisk == a.grossR * a.initialRisk - a.entryFee - a.exitFee - a.slippageCost
      && a.slippageCost == rules.slippageRate * (levels.entry + baseExit)
  {
    hide GrossPnl, NetPnl, SlippageCost, EntryPrice, ExitPrice;
    var a := Account(rules, levels, EntryPrice(rules, levels), requestedExit, baseExit);
    var gross := GrossPnl(levels, baseExit);
    var net := NetPnl(levels, a.executedEntry, a.executedExit, a.entryFee, a.exitFee);
    NetPnlSplits(levels, a.executedEntry, baseExit, a.executedExit, a.entryFee, a.exitFee);
    SlippageIsRateOnBothLegs(rules, levels, baseExit);
    QuotientTimes(gross, levels.entry);
    QuotientTimes(net, levels.entry);
    QuotientTimes(gross, a.initialRisk);
    QuotientTimes(net, a.initialRisk);
  }

  lemma ProductNonNegative(x: real, y: real)
    requires x >= 0.0 && y >= 0.0
    ensures x * y >= 0.0
  {
  }

  lemma CostsNonNegative(rules: Rules, levels: Levels, requestedExit: real, baseExit: real)
    requires Divisible(levels) && Costed(rules) && levels.entry > 0.0 && baseExit >= 0.0
    ensures var a := Account(rules, levels, EntryPrice(rules, levels), requestedExit, baseExit);
      a.entryFee >= 0.0 && a.exitFee >= 0.0 && a.slippageCost >= 0.0
  {
    var executedEntry, executedExit := EntryPrice(rules, levels), ExitPrice(rules, levels, baseExit);
    ProductNonNegative(levels.entry,
                       1.0 + (if levels.direction == Long then rules.slippageRate else -rules.slippageRate));
    ProductNonNegative(baseExit, 1.0 - Sign(levels.direction) * rules.slippageRate);
    ProductNonNegative(executedEntry, rules.feeRate);
    ProductNonNegative(executedExit, rules.feeRate);
    ProductNonNegative(rules.slippageRate, levels.entry + baseExit);
    SlippageIsRateOnBothLegs(rules, levels, baseExit);
  }

  lemma QuotientOrder(x: real, y: real, risk: real)
    requires risk > 0.0 && x <= y
    ensures x / risk <= y / risk
  {
    DividedOrder(x / risk, y / risk, risk);
  }

  /** Costs never help: net R is at most gross R. */
  lemma NetNeverBeatsGross(rules: Rules, levels: Levels, requestedExit: real, baseExit: real)
    requires Divisible(levels) && Costed(rules) && levels.entry > 0.0 && baseExit >= 0.0
    ensures var a := Account(rules, levels, EntryPrice(rules, levels), requestedExit, baseExit);
      a.netR <= a.grossR
  {
    var a := Account(rules, levels, EntryPrice(rules, levels), requestedExit, baseExit);
    CostsNonNegative(rules, levels, requestedExit, baseExit);
    NetPnlSplits(levels, a.executedEntry, baseExit, a.executedExit, a.entryFee, a.exitFee);
    QuotientOrder(NetPnl(levels, a.executedEntry, a.executedExit, a.entryFee, a.exitFee),
                  GrossPnl(levels, baseExit), InitialRisk(levels));
  }

  lemma DividedOrder(x: real, y: real, risk: real)
    requires risk > 0.0 && x * risk <= y * risk
    ensures x <= y
  {
    assert x > y ==> (x - y) * risk > 0.0;
  }

  /** Stop and target on the two sides of the entry that the direction asks for. */
  predicate Directional(levels: Levels) {
    if levels.direction == Long then levels.stop < levels.entry < levels.target
    else levels.target < levels.entry < levels.stop
  }

  function RewardRisk(levels: Levels): real
    requires Directional(levels)
  {
    Sign(levels.direction) * (levels.target - levels.entry) / InitialRisk(levels)
  }

  lemma QuotientAtMost(x: real, risk: real, bound: real)
    requires risk > 0.0 && x <= bound * risk
    ensures x / risk <= bound
  {
    var q := x / risk;
    assert q * risk == x;
    DividedOrder(q, bound, risk);
  }

  /** With directional levels a stop loses at least one R and a target earns exactly its reward/risk. */
  lemma ExitsInR(rules: Rules, f: Fate)
    requires f.Ended? && Directional(LevelsOf(f)) && LevelsOf(f).entry > 0.0
    ensures Recordable(f)
    ensures var r := RecordOf(rules, f);
      && (f.reason == StopHit ==> r.accounting.grossR <= -1.0)
      && (f.reason == TargetHit ==> r.accounting.grossR == RewardRisk(LevelsOf(f)))
  {
    var levels := LevelsOf(f);
    var d, risk := Sign(levels.direction), InitialRisk(levels);
    assert risk > 0.0;
    if f.reason == StopHit {
      var gross := d * (BaseExit(f) - levels.entry);
      assert gross <= -1.0 * risk;
      QuotientAtMost(gross, risk, -1.0);
    }
  }

  /** The prices of the two legs and what they cost, in plain arithmetic. */
  lemma LegsOutcome(rules: Rules, l: Levels, left: real)
    ensures var s := if l.direction == Long then 1.0 else -1.0;
      && EntryPrice(rules, l) == l.entry + s * rules.slippageRate * l.entry
      && ExitPrice(rules, l, left) == left - s * rules.slippageRate * left
      && GrossPnl(l, left) == (if l.direction == Long then left - l.entry else l.entry - left)
      && InitialRisk(l) == if l.entry > l.stop then l.entry - l.stop else l.stop - l.entry
  {
    var s, t := rules.slippageRate, if l.direction == Long then rules.slippageRate else -rules.slippageRate;
    assert t == Sign(l.direction) * s;
    assert l.entry * (1.0 + t) == l.entry + t * l.entry;
    assert left * (1.0 - t) == left - t * left;
  }

  /** Prices and costs of a trade left at `left`: the slippage rate works against it on both legs. */
  ghost predicate Costs(rules: Rules, l: Levels, requested: real, left: real, a: Accounting) {
    var s := if l.direction == Long then 1.0 else -1.0;
    && a.requestedExit == requested
    && a.executedEntry == l.entry + s * rules.slippageRate * l.entry
    && a.executedExit == left - s * rules.slippageRate * left
    && a.initialRisk == (if l.entry > l.stop then l.entry - l.stop else l.stop - l.entry)
    && a.entryFee == a.executedEntry * rules.feeRate && a.exitFee == a.executedExit * rules.feeRate
    && a.slippageCost == rules.slippageRate * (l.entry + left)
  }

  /** Returns and R multiples are the profit before and after costs over entry and initial risk. */
  ghost predicate Returns(l: Levels, left: real, a: Accounting) {
    var gross := if l.direction == Long then left - l.entry else l.entry - left;
    && a.grossReturn * l.entry == gross && a.grossR * a.initialRisk == gross
    && a.netReturn * l.entry == gross - a.entryFee - a.exitFee - a.slippageCost
    && a.netR * a.initialRisk == gross - a.entryFee - a.exitFee - a.slippageCost
  }

  lemma CostsOutcome(rules: Rules, l: Levels, requested: real, left: real)
    requires Divisible(l)
    ensures Costs(rules, l, requested, left, Account(rules, l, EntryPrice(rules, l), requested, left))
  {
    hide EntryPrice, ExitPrice, GrossPnl, NetPnl, SlippageCost, InitialRisk, Sign;
    LegsOutcome(rules, l, left);
    SlippageIsRateOnBothLegs(rules, l, left);
  }

  lemma QuotientsReturn(l: Levels, left: real, a: Accounting, gross: real, net: real)
    requires l.entry != 0.0 && a.initialRisk != 0.0
    requires gross == if l.direction == Long then left - l.entry else l.entry - left
    requires net == gross - a.entryFee - a.exitFee - a.slippageCost
    requires a.grossReturn == gross / l.entry && a.netReturn == net / l.entry
    requires a.grossR == gross / a.initialRisk && a.netR == net / a.initialRisk
    ensures Returns(l, left, a)
  {
    QuotientTimes(gross, l.entry);
    QuotientTimes(net, l.entry);
    QuotientTimes(gross, a.initialRisk);
    QuotientTimes(net, a.initialRisk);
  }

  lemma ReturnsOutcome(rules: Rules, l: Levels, requested: real, left: real)
    requires Divisible(l)
    ensures Returns(l, left, Account(rules, l, EntryPrice(rules, l), requested, left))
  {
    hide EntryPrice, ExitPrice, GrossPnl, NetPnl, SlippageCost, Returns;
    var a := Account(rules, l, EntryPrice(rules, l), requested, left);
    var gross, net := GrossPnl(l, left), NetPnl(l, a.executedEntry, a.executedExit, a.entryFee, a.exitFee);
    LegsOutcome(rules, l, left);
    NetPnlSplits(l, a.executedEntry, left, a.executedExit, a.entryFee, a.exitFee);
    QuotientsReturn(l, left, a, gross, net);
  }

  /** The record of one fate. It exists unless one of its two divisors is zero; a stop that the candle gapped over is
      left at the opening price. */
  lemma RecordOutcome(rules: Rules, f: Fate)
    ensures Recordable(f) <==>
      f.Lapsed? || (f.position.evaluation.decision.levels.entry != 0.0
                    && f.position.evaluation.decision.levels.entry != f.position.evaluation.decision.levels.stop)
    ensures f.Lapsed? ==>
      var e := f.evaluation;
      RecordOf(rules, f) == Expired(e.hash, e.instrument, e.timeMs, e.decision.levels)
    ensures f.Ended? && Recordable(f) ==>
      var e, l, c, r := f.position.evaluation, f.position.evaluation.decision.levels, f.candle, RecordOf(rules, f);
      && r.Closed? && r.hash == e.hash && r.instrument == e.instrument && r.signalMs == e.timeMs && r.levels == l
      && r.entryMs == f.position.entryMs && r.exitMs == c.openMs && r.reason == f.reason
      && r.durationMinutes == (c.openMs - f.position.entryMs) / 60_000 + 1
    ensures f.Ended? && Recordable(f) ==>
      var l, c := f.position.evaluation.decision.levels, f.candle;
      var requested := if f.reason == StopHit then l.stop else if f.reason == TargetHit then l.target else c.bar.close;
      var gapped := if l.direction == Long then c.bar.open < l.stop else c.bar.open > l.stop;
      var left := if f.reason == StopHit && gapped then c.bar.open else requested;
      && Costs(rules, l, requested, left, RecordOf(rules, f).accounting)
      && Returns(l, left, RecordOf(rules, f).accounting)
  {
    hide EntryPrice, Account, Costs, Returns;
    if f.Ended? && Recordable(f) {
      CostsOutcome(rules, LevelsOf(f), RequestedExit(f), BaseExit(f));
      ReturnsOutcome(rules, LevelsOf(f), RequestedExit(f), BaseExit(f));
    }
  }
}
