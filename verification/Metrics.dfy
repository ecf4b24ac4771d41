/** Summaries of simulated trades. */
module Metrics {
  import opened Sequences
  import opened Averages
  import Simulator
  import opened Execution
  import opened Drawdown
  import opened Medians

  /** What one trade contributes to a total. */
  function NetR(t: TradeRecord): real { if t.Closed? then t.accounting.netR else 0.0 }

  function Profit(t: TradeRecord): real { if t.Closed? && t.accounting.netR > 0.0 then t.accounting.netR else 0.0 }

  function Loss(t: TradeRecord): real { if t.Closed? && t.accounting.netR < 0.0 then -t.accounting.netR else 0.0 }

  function Cost(t: TradeRecord): real {
    if t.Closed? then t.accounting.entryFee + t.accounting.exitFee + t.accounting.slippageCost else 0.0
  }

  function ClosedUnit(t: TradeRecord): real { if t.Closed? then 1.0 else 0.0 }

  function WinUnit(t: TradeRecord): real { if t.Closed? && t.accounting.netR > 0.0 then 1.0 else 0.0 }

  function Total(m: TradeRecord -> real, trades: seq<TradeRecord>): real {
    if trades == [] then 0.0 else Total(m, trades[..|trades| - 1]) + m(trades[|trades| - 1])
  }

  /** The net results of the closed trades, in order. */
  function Results(trades: seq<TradeRecord>): seq<real> {
    if trades == [] then []
    else
      var last := trades[|trades| - 1];
      Results(trades[..|trades| - 1]) + (if last.Closed? then [last.accounting.netR] else [])
  }

  method MaximumDrawdown(values: seq<real>) returns (drawdown: real)
    ensures IsDrawdown(values, |values|, drawdown)
  {
    hide Running;
    var cumulative, peak := 0.0, 0.0;
    drawdown := 0.0;
    NothingYet(values);
    for n := 0 to |values|
      invariant cumulative == Running(values, n) && Tracks(values, n, peak, drawdown)
    {
      ghost var next := n + 1;
      cumulative := cumulative + values[n];
      FallStep(values, n, next, peak, drawdown, cumulative);
      peak := Max(peak, cumulative);
      drawdown := Max(drawdown, peak - cumulative);
    }
  }

  // ----- How the totals hang together

  /** What was won less what was lost is the net result. */
  lemma {:induction false} CumulativeIsProfitLessLoss(trades: seq<TradeRecord>)
    ensures Total(NetR, trades) == Total(Profit, trades) - Total(Loss, trades)
    ensures Total(NetR, trades) == Running(Results(trades), |Results(trades)|)
    ensures Total(Profit, trades) >= 0.0 && Total(Loss, trades) >= 0.0
  {
    if trades != [] {
      var front, last := trades[..|trades| - 1], trades[|trades| - 1];
      CumulativeIsProfitLessLoss(front);
      if last.Closed? {
        SumPrefix(Results(front), Results(trades), 0, |Results(front)|);
      } else {
        assert Results(trades) == Results(front);
      }
    }
  }

  lemma {:induction false} CountIsTotal(trades: seq<TradeRecord>)
    ensures |Results(trades)| as real == Total(ClosedUnit, trades)
  {
    if trades != [] {
      CountIsTotal(trades[..|trades| - 1]);
    }
  }

  function LossSum(values: seq<real>, n: nat): real
    requires n <= |values|
  {
    if n == 0 then 0.0 else LossSum(values, n - 1) + (if values[n - 1] < 0.0 then -values[n - 1] else 0.0)
  }

  /** No fall exceeds what was lost on the way. */
  lemma {:induction false} FallBounded(values: seq<real>, i: nat, j: nat)
    requires i <= j <= |values|
    ensures Running(values, i) - Running(values, j) <= LossSum(values, j) - LossSum(values, i)
    ensures 0.0 <= LossSum(values, i) <= LossSum(values, j)
  {
    if i < j {
      FallBounded(values, i, j - 1);
    } else if i > 0 {
      FallBounded(values, i - 1, i - 1);
    }
  }

  lemma {:induction false} LossSumPrefix(values: seq<real>, longer: seq<real>, n: nat)
    requires n <= |values| && values <= longer
    ensures LossSum(values, n) == LossSum(longer, n)
  {
    if n > 0 {
      LossSumPrefix(values, longer, n - 1);
    }
  }

  lemma {:induction false} LossesOfResults(trades: seq<TradeRecord>)
    ensures Total(Loss, trades) == LossSum(Results(trades), |Results(trades)|)
  {
    if trades != [] {
      var front, last := trades[..|trades| - 1], trades[|trades| - 1];
      LossesOfResults(front);
      if last.Closed? {
        LossSumPrefix(Results(front), Results(trades), |Results(front)|);
      } else {
        assert Results(trades) == Results(front);
      }
    }
  }

  /** The drawdown lies between zero and the gross loss. */
  lemma DrawdownWithinLoss(trades: seq<TradeRecord>, drawdown: real)
    requires IsDrawdown(Results(trades), |Results(trades)|, drawdown)
    ensures 0.0 <= drawdown <= Total(Loss, trades)
  {
    var values := Results(trades);
    assert Running(values, 0) - Running(values, 0) <= drawdown;
    var i, j :| 0 <= i <= j <= |values| && Running(values, i) - Running(values, j) == drawdown;
    FallBounded(values, i, j);
    FallBounded(values, j, |values|);
    FallBounded(values, 0, i);
    LossesOfResults(trades);
  }

  // ----- Groups

  function Of(keyOf: TradeRecord -> int, key: int, trades: seq<TradeRecord>): seq<TradeRecord> {
    if trades == [] then []
    else
      var last := trades[|trades| - 1];
      Of(keyOf, key, trades[..|trades| - 1]) + (if keyOf(last) == key then [last] else [])
  }

  /** The totals of the groups named by `keys`, added up. */
  function GroupTotals(m: TradeRecord -> real, keyOf: TradeRecord -> int, keys: seq<int>,
                       trades: seq<TradeRecord>): real
  {
    if keys == [] then 0.0
    else GroupTotals(m, keyOf, keys[..|keys| - 1], trades) + Total(m, Of(keyOf, keys[|keys| - 1], trades))
  }

  /** One more trade adds to the one group it belongs to. */
  lemma {:induction false} GroupTotalsStep(m: TradeRecord -> real, keyOf: TradeRecord -> int, keys: seq<int>,
                                           trades: seq<TradeRecord>, last: TradeRecord)
    requires forall i, j :: 0 <= i < j < |keys| ==> keys[i] != keys[j]
    ensures GroupTotals(m, keyOf, keys, trades + [last])
         == GroupTotals(m, keyOf, keys, trades) + (if keyOf(last) in keys then m(last) else 0.0)
  {
    if keys != [] {
      var front, key := keys[..|keys| - 1], keys[|keys| - 1];
      GroupTotalsStep(m, keyOf, front, trades, last);
      assert keys == front + [key];
      assert (trades + [last])[..|trades|] == trades;
      var group := Of(keyOf, key, trades);
      if keyOf(last) == key {
        assert (group + [last])[..|group|] == group;
        assert key !in front;
      } else {
        assert group + [] == group;
      }
    }
  }

  /** Any total over all trades is the sum of the totals of the groups: nothing is counted twice or missed. */
  lemma {:induction false} GroupsAddUp(m: TradeRecord -> real, keyOf: TradeRecord -> int, keys: seq<int>,
                                       trades: seq<TradeRecord>)
    requires forall i, j :: 0 <= i < j < |keys| ==> keys[i] != keys[j]
    requires forall k :: 0 <= k < |trades| ==> keyOf(trades[k]) in keys
    ensures GroupTotals(m, keyOf, keys, trades) == Total(m, trades)
  {
    hide GroupTotals, Of;
    if trades == [] {
      EmptyGroups(m, keyOf, keys);
    } else {
      var front, last := trades[..|trades| - 1], trades[|trades| - 1];
      GroupsAddUp(m, keyOf, keys, front);
      GroupTotalsStep(m, keyOf, keys, front, last);
      assert trades == front + [last];
    }
  }

  lemma {:induction false} EmptyGroups(m: TradeRecord -> real, keyOf: TradeRecord -> int, keys: seq<int>)
    ensures GroupTotals(m, keyOf, keys, []) == 0.0
  {
    if keys != [] {
      EmptyGroups(m, keyOf, keys[..|keys| - 1]);
    }
  }

  datatype TradeMetrics = TradeMetrics(count: nat, winRate: Option<real>, meanNetR: Option<real>,
                                       medianNetR: Option<real>, grossProfit: real, grossLoss: real,
                                       profitFactor: Option<real>, cumulative: real, maximumDrawdown: real,
                                       totalCost: real, statusCounts: seq<(int, nat)>,
                                       exitReasonCounts: seq<(int, nat)>)

  // ----- Keys and counts

  function InstrumentKey(t: TradeRecord): int { t.instrument }

  /** Keys stand for names, in the order of the names. */
  function DirectionKey(t: TradeRecord): int { if t.levels.direction == Simulator.Long then 0 else 1 }

  function StatusKey(t: TradeRecord): int { if t.Closed? then 0 else 1 }

  function ReasonKey(t: TradeRecord): int {
    if t.Expired? then 1
    else match t.reason
      case EndOfData => 0
      case StopHit => 2
      case TargetHit => 3
      case Timeout => 4
  }

  ghost predicate Occurs(keyOf: TradeRecord -> int, key: int, trades: seq<TradeRecord>) {
    exists k :: 0 <= k < |trades| && keyOf(trades[k]) == key
  }

  /** The keys that occur, each once, in ascending order. */
  ghost predicate AllKeys(keys: seq<int>, keyOf: TradeRecord -> int, trades: seq<TradeRecord>) {
    && (forall i, j :: 0 <= i < j < |keys| ==> keys[i] < keys[j])
    && forall key :: key in keys <==> Occurs(keyOf, key, trades)
  }

  method KeysPresent(keyOf: TradeRecord -> int, trades: seq<TradeRecord>) returns (keys: seq<int>)
    ensures AllKeys(keys, keyOf, trades)
  {
    var present := set k | 0 <= k < |trades| :: keyOf(trades[k]);
    keys := Ascending(present);
    AscendingLists(present);
    forall key ensures key in keys <==> Occurs(keyOf, key, trades) {
      assert key in present <==> Occurs(keyOf, key, trades);
    }
  }

  /** How often each key occurs, in ascending order of the keys that do. */
  ghost predicate Counted(counts: seq<(int, nat)>, keyOf: TradeRecord -> int, trades: seq<TradeRecord>) {
    && AllKeys(CountKeys(counts), keyOf, trades)
    && forall i :: 0 <= i < |counts| ==> counts[i].1 == |Of(keyOf, counts[i].0, trades)|
  }

  function CountKeys(counts: seq<(int, nat)>): (r: seq<int>)
    ensures |r| == |counts| && forall i :: 0 <= i < |r| ==> r[i] == counts[i].0
  {
    seq(|counts|, i requires 0 <= i < |counts| => counts[i].0)
  }

  method CountBy(keyOf: TradeRecord -> int, trades: seq<TradeRecord>) returns (counts: seq<(int, nat)>)
    ensures Counted(counts, keyOf, trades)
  {
    hide Of;
    var keys := KeysPresent(keyOf, trades);
    counts := [];
    for i := 0 to |keys|
      invariant |counts| == i && forall j :: 0 <= j < i ==> counts[j] == (keys[j], |Of(keyOf, keys[j], trades)|)
    {
      counts := counts + [(keys[i], |Of(keyOf, keys[i], trades)|)];
    }
    assert CountKeys(counts) == keys;
  }

  function CountSum(counts: seq<(int, nat)>): nat {
    if counts == [] then 0 else CountSum(counts[..|counts| - 1]) + counts[|counts| - 1].1
  }

  lemma {:induction false} OnesAddUp(trades: seq<TradeRecord>)
    ensures Total(One, trades) == |trades| as real
  {
    if trades != [] {
      OnesAddUp(trades[..|trades| - 1]);
    }
  }

  function One(t: TradeRecord): real { 1.0 }

  lemma {:induction false} CountSumIsTotal(counts: seq<(int, nat)>, keyOf: TradeRecord -> int, trades: seq<TradeRecord>)
    requires forall i :: 0 <= i < |counts| ==> counts[i].1 == |Of(keyOf, counts[i].0, trades)|
    ensures CountSum(counts) as real == GroupTotals(One, keyOf, CountKeys(counts), trades)
  {
    if counts != [] {
      var front, last := counts[..|counts| - 1], counts[|counts| - 1];
      CountSumIsTotal(front, keyOf, trades);
      assert CountKeys(counts)[..|counts| - 1] == CountKeys(front);
      OnesAddUp(Of(keyOf, last.0, trades));
    }
  }

  /** Every trade is counted exactly once. */
  lemma CountsAddUp(counts: seq<(int, nat)>, keyOf: TradeRecord -> int, trades: seq<TradeRecord>)
    requires Counted(counts, keyOf, trades)
    ensures CountSum(counts) == |trades|
  {
    hide GroupTotals, Of, Total;
    CountSumIsTotal(counts, keyOf, trades);
    var keys := CountKeys(counts);
    forall k | 0 <= k < |trades| ensures keyOf(trades[k]) in keys {
      assert Occurs(keyOf, keyOf(trades[k]), trades);
    }
    GroupsAddUp(One, keyOf, keys, trades);
    OnesAddUp(trades);
  }

  // ----- The report

  /** Every figure of one group of trades. */
  ghost predicate Summarizes(s: TradeMetrics, trades: seq<TradeRecord>) {
    && s.count == |Results(trades)| && s.grossProfit == Total(Profit, trades) && s.grossLoss == Total(Loss, trades)
    && s.cumulative == Total(NetR, trades) && s.totalCost == Total(Cost, trades)
    && IsDrawdown(Results(trades), |Results(trades)|, s.maximumDrawdown)
    && s.winRate == Ratio(Total(WinUnit, trades), s.count as real) && s.meanNetR == Ratio(s.cumulative, s.count as real)
    && s.profitFactor == Ratio(s.grossProfit, s.grossLoss) && s.medianNetR == Median(Results(trades))
    && Counted(s.statusCounts, StatusKey, trades) && Counted(s.exitReasonCounts, ReasonKey, trades)
  }

  function Ratio(x: real, y: real): Option<real> {
    if y == 0.0 then None else Some(x / y)
  }

  method Summarize(trades: seq<TradeRecord>) returns (s: TradeMetrics)
    ensures Summarizes(s, trades)
  {
    var values := Results(trades);
    var drawdown := MaximumDrawdown(values);
    var count, profits, losses, cumulative := |values|, Total(Profit, trades), Total(Loss, trades), Total(NetR, trades);
    var statuses := CountBy(StatusKey, trades);
    var reasons := CountBy(ReasonKey, trades);
    s := TradeMetrics(count, Ratio(Total(WinUnit, trades), count as real), Ratio(cumulative, count as real),
                      Median(values),
                      profits, losses, Ratio(profits, losses), cumulative, drawdown,
                      Total(Cost, trades), statuses, reasons);
  }

  datatype MetricsReport = MetricsReport(
    overall: TradeMetrics, byInstrument: seq<(int, TradeMetrics)>, byDirection: seq<(int, TradeMetrics)>)

  /** One summary for each key that occurs, in ascending order of the keys. */
  ghost predicate Grouped(groups: seq<(int, TradeMetrics)>, keyOf: TradeRecord -> int, ordered: seq<TradeRecord>) {
    && AllKeys(KeysOf(groups), keyOf, ordered)
    && forall i :: 0 <= i < |groups| ==> Summarizes(groups[i].1, Of(keyOf, groups[i].0, ordered))
  }

  method SummarizeGroups(keyOf: TradeRecord -> int, ordered: seq<TradeRecord>)
    returns (groups: seq<(int, TradeMetrics)>)
    ensures Grouped(groups, keyOf, ordered)
  {
    hide Summarizes, Of;
    var keys := KeysPresent(keyOf, ordered);
    groups := [];
    for i := 0 to |keys|
      invariant |groups| == i
      invariant forall j :: 0 <= j < i ==>
        groups[j].0 == keys[j] && Summarizes(groups[j].1, Of(keyOf, keys[j], ordered))
    {
      var s := Summarize(Of(keyOf, keys[i], ordered));
      groups := groups + [(keys[i], s)];
    }
    assert KeysOf(groups) == keys;
  }

  method SummarizeTrades(trades: seq<TradeRecord>) returns (report: MetricsReport)
    ensures var ordered := Sort(RecordBefore, trades);
      && Summarizes(report.overall, ordered)
      && Grouped(report.byInstrument, InstrumentKey, ordered) && Grouped(report.byDirection, DirectionKey, ordered)
      && multiset(ordered) == multiset(trades)
      && forall j, k :: 0 <= j < k < |ordered| ==>
           var a, b := ordered[j], ordered[k];
           || a.signalMs < b.signalMs
           || (a.signalMs == b.signalMs
               && (a.instrument < b.instrument || (a.instrument == b.instrument && a.hash <= b.hash)))
  {
    hide Sort, Summarizes, Grouped;
    var ordered := Sort(RecordBefore, trades);
    RecordOrderTotal();
    SortSorts(RecordBefore, trades);
    SortPermutes(RecordBefore, trades);
    var overall := Summarize(ordered);
    var byInstrument := SummarizeGroups(InstrumentKey, ordered);
    var byDirection := SummarizeGroups(DirectionKey, ordered);
    report := MetricsReport(overall, byInstrument, byDirection);
  }

  function FigureOf(groups: seq<(int, TradeMetrics)>, figure: TradeMetrics -> real): real {
    if groups == [] then 0.0 else FigureOf(groups[..|groups| - 1], figure) + figure(groups[|groups| - 1].1)
  }

  function KeysOf(groups: seq<(int, TradeMetrics)>): (r: seq<int>)
    ensures |r| == |groups| && forall i :: 0 <= i < |r| ==> r[i] == groups[i].0
  {
    seq(|groups|, i requires 0 <= i < |groups| => groups[i].0)
  }

  lemma {:induction false} FigureIsGroupTotals(groups: seq<(int, TradeMetrics)>, keyOf: TradeRecord -> int,
                                               ordered: seq<TradeRecord>, figure: TradeMetrics -> real,
                                               m: TradeRecord -> real)
    requires forall i :: 0 <= i < |groups| ==> figure(groups[i].1) == Total(m, Of(keyOf, groups[i].0, ordered))
    ensures FigureOf(groups, figure) == GroupTotals(m, keyOf, KeysOf(groups), ordered)
  {
    if groups != [] {
      FigureIsGroupTotals(groups[..|groups| - 1], keyOf, ordered, figure, m);
      assert KeysOf(groups)[..|groups| - 1] == KeysOf(groups[..|groups| - 1]);
    }
  }

  lemma FigureAddsUp(groups: seq<(int, TradeMetrics)>, keyOf: TradeRecord -> int, ordered: seq<TradeRecord>,
                     figure: TradeMetrics -> real, m: TradeRecord -> real)
    requires AllKeys(KeysOf(groups), keyOf, ordered)
    requires forall i :: 0 <= i < |groups| ==> figure(groups[i].1) == Total(m, Of(keyOf, groups[i].0, ordered))
    ensures FigureOf(groups, figure) == Total(m, ordered)
  {
    hide FigureOf, GroupTotals, Total, Of;
    var keys := KeysOf(groups);
    FigureIsGroupTotals(groups, keyOf, ordered, figure, m);
    forall k | 0 <= k < |ordered| ensures keyOf(ordered[k]) in keys {
      assert Occurs(keyOf, keyOf(ordered[k]), ordered);
    }
    GroupsAddUp(m, keyOf, keys, ordered);
  }

  /** The figures of a summary that are totals. */
  lemma SummaryFigures(s: TradeMetrics, trades: seq<TradeRecord>)
    requires Summarizes(s, trades)
    ensures s.count as real == Total(ClosedUnit, trades) && s.grossProfit == Total(Profit, trades)
    ensures s.grossLoss == Total(Loss, trades) && s.cumulative == Total(NetR, trades)
    ensures s.totalCost == Total(Cost, trades)
  {
    CountIsTotal(trades);
  }

  /** Counts, gross figures, net totals and costs of the groups add up to the overall figures. */
  lemma ReportAddsUp(overall: TradeMetrics, groups: seq<(int, TradeMetrics)>, keyOf: TradeRecord -> int,
                     ordered: seq<TradeRecord>)
    requires Summarizes(overall, ordered) && Grouped(groups, keyOf, ordered)
    ensures FigureOf(groups, (s: TradeMetrics) => s.count as real) == overall.count as real
    ensures FigureOf(groups, (s: TradeMetrics) => s.grossProfit) == overall.grossProfit
    ensures FigureOf(groups, (s: TradeMetrics) => s.grossLoss) == overall.grossLoss
    ensures FigureOf(groups, (s: TradeMetrics) => s.cumulative) == overall.cumulative
    ensures FigureOf(groups, (s: TradeMetrics) => s.totalCost) == overall.totalCost
  {
    hide Summarizes, FigureOf, AllKeys, Total, Of;
    SummaryFigures(overall, ordered);
    forall i | 0 <= i < |groups|
      ensures var s, part := groups[i].1, Of(keyOf, groups[i].0, ordered);
        && s.count as real == Total(ClosedUnit, part) && s.grossProfit == Total(Profit, part)
        && s.grossLoss == Total(Loss, part) && s.cumulative == Total(NetR, part) && s.totalCost == Total(Cost, part)
    {
      SummaryFigures(groups[i].1, Of(keyOf, groups[i].0, ordered));
    }
    FigureAddsUp(groups, keyOf, ordered, (s: TradeMetrics) => s.count as real, ClosedUnit);
    FigureAddsUp(groups, keyOf, ordered, (s: TradeMetrics) => s.grossProfit, Profit);
    FigureAddsUp(groups, keyOf, ordered, (s: TradeMetrics) => s.grossLoss, Loss);
    FigureAddsUp(groups, keyOf, ordered, (s: TradeMetrics) => s.cumulative, NetR);
    FigureAddsUp(groups, keyOf, ordered, (s: TradeMetrics) => s.totalCost, Cost);
  }
}
