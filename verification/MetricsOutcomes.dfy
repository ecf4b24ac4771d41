/** The figures of a report from the trades alone. */
module MetricsOutcomes {
  import opened Sequences
  import opened Averages
  import Simulator
  import opened Execution
  import opened Drawdown
  import opened Medians
  import opened Metrics

  /** The values add up to the total. */
  ghost predicate AddsUp(values: seq<real>, total: real) {
    exists sums :: Accumulates(values, sums) && total == sums[|values|]
  }

  /** `at` lists the places of the closed trades, in order, and `nets` what they came to. */
  ghost predicate Nets(trades: seq<TradeRecord>, at: seq<nat>, nets: seq<real>) {
    && (forall j, k :: 0 <= j < k < |at| ==> at[j] < at[k])
    && (forall k: nat :: k in at <==> k < |trades| && trades[k].Closed?)
    && |nets| == |at|
    && forall k :: 0 <= k < |at| ==>
         at[k] < |trades| && trades[at[k]].Closed? && nets[k] == trades[at[k]].accounting.netR
  }

  function Winnings(nets: seq<real>): (r: seq<real>)
    ensures |r| == |nets| && forall k :: 0 <= k < |r| ==> r[k] == if nets[k] > 0.0 then nets[k] else 0.0
  {
    seq(|nets|, k requires 0 <= k < |nets| => if nets[k] > 0.0 then nets[k] else 0.0)
  }

  function Losses(nets: seq<real>): (r: seq<real>)
    ensures |r| == |nets| && forall k :: 0 <= k < |r| ==> r[k] == if nets[k] < 0.0 then -nets[k] else 0.0
  {
    seq(|nets|, k requires 0 <= k < |nets| => if nets[k] < 0.0 then -nets[k] else 0.0)
  }

  function Wins(nets: seq<real>): (r: seq<real>)
    ensures |r| == |nets| && forall k :: 0 <= k < |r| ==> r[k] == if nets[k] > 0.0 then 1.0 else 0.0
  {
    seq(|nets|, k requires 0 <= k < |nets| => if nets[k] > 0.0 then 1.0 else 0.0)
  }

  function Costs(trades: seq<TradeRecord>): (r: seq<real>)
    ensures |r| == |trades|
    ensures forall k :: 0 <= k < |r| ==>
      r[k] == if trades[k].Expired? then 0.0
              else trades[k].accounting.entryFee + trades[k].accounting.exitFee + trades[k].accounting.slippageCost
  {
    seq(|trades|, k requires 0 <= k < |trades| =>
      if trades[k].Expired? then 0.0
      else trades[k].accounting.entryFee + trades[k].accounting.exitFee + trades[k].accounting.slippageCost)
  }

  /** The greatest fall of the running sums, from an earlier to a later one. */
  ghost predicate Falls(values: seq<real>, drawdown: real) {
    exists sums :: Accumulates(values, sums)
      && (forall i, j :: 0 <= i <= j < |sums| ==> sums[i] - sums[j] <= drawdown)
      && (exists i, j :: 0 <= i <= j < |sums| && sums[i] - sums[j] == drawdown)
  }

  /** The middle of the values in ascending order, or halfway between the two in the middle. */
  ghost predicate Middle(values: seq<real>, median: Option<real>) {
    if values == [] then median == None
    else exists sorted: seq<real> ::
      && multiset(sorted) == multiset(values) && |sorted| == |values|
      && (forall i, j :: 0 <= i < j < |sorted| ==> sorted[i] <= sorted[j])
      && median == if |sorted| % 2 == 1 then Some(sorted[|sorted| / 2])
                   else Some((sorted[|sorted| / 2 - 1] + sorted[|sorted| / 2]) / 2.0)
  }

  /** All figures but the counts by name. */
  ghost predicate Figures(s: TradeMetrics, trades: seq<TradeRecord>) {
    exists at: seq<nat>, nets: seq<real>, wins: real ::
      && Nets(trades, at, nets) && s.count == |nets|
      && AddsUp(Winnings(nets), s.grossProfit) && AddsUp(Losses(nets), s.grossLoss) && AddsUp(nets, s.cumulative)
      && AddsUp(Costs(trades), s.totalCost) && AddsUp(Wins(nets), wins)
      && Falls(nets, s.maximumDrawdown) && Middle(nets, s.medianNetR)
      && (if |nets| == 0 then s.winRate == None && s.meanNetR == None
          else s.winRate == Some(wins / |nets| as real) && s.meanNetR == Some(s.cumulative / |nets| as real))
      && s.profitFactor == if s.grossLoss == 0.0 then None else Some(s.grossProfit / s.grossLoss)
  }

  // ----- A summary has these figures

  lemma {:induction false} ResultsOutcome(trades: seq<TradeRecord>) returns (at: seq<nat>)
    ensures Nets(trades, at, Results(trades))
  {
    if trades == [] {
      at := [];
    } else {
      hide Nets;
      var front, last := trades[..|trades| - 1], trades[|trades| - 1];
      at := ResultsOutcome(front);
      NetsMore(front, last, at, Results(front));
      assert front + [last] == trades;
      if last.Closed? {
        at := at + [|front|];
      } else {
        assert Results(front) + [] == Results(front);
      }
    }
  }

  lemma NetsMore(trades: seq<TradeRecord>, t: TradeRecord, at: seq<nat>, nets: seq<real>)
    requires Nets(trades, at, nets)
    ensures t.Expired? ==> Nets(trades + [t], at, nets)
    ensures t.Closed? ==> Nets(trades + [t], at + [|trades|], nets + [t.accounting.netR])
  {
    var longer := trades + [t];
    assert longer[|trades|] == t && forall k :: 0 <= k < |trades| ==> longer[k] == trades[k];
    assert forall k :: 0 <= k < |at| ==> at[k] in at;
    assert forall k: nat :: k in at + [|trades|] <==> k in at || k == |trades|;
  }

  lemma AddsMore(values: seq<real>, total: real, x: real)
    requires AddsUp(values, total)
    ensures AddsUp(values + [x], total + x)
  {
    var sums :| Accumulates(values, sums) && total == sums[|values|];
    assert Accumulates(values + [x], sums + [total + x]);
  }

  lemma AddsNothing()
    ensures AddsUp([], 0.0)
  {
    assert Accumulates([], [0.0]);
  }

  lemma ValuesMore(nets: seq<real>, x: real)
    ensures Winnings(nets + [x]) == Winnings(nets) + [if x > 0.0 then x else 0.0]
    ensures Losses(nets + [x]) == Losses(nets) + [if x < 0.0 then -x else 0.0]
    ensures Wins(nets + [x]) == Wins(nets) + [if x > 0.0 then 1.0 else 0.0]
  {
  }

  lemma NoValues()
    ensures Winnings([]) == [] && Losses([]) == [] && Wins([]) == [] && Costs([]) == []
  {
  }

  /** The totals over the trades are totals over their results. */
  lemma {:induction false} TotalsOutcome(trades: seq<TradeRecord>)
    ensures AddsUp(Winnings(Results(trades)), Total(Profit, trades))
    ensures AddsUp(Losses(Results(trades)), Total(Loss, trades))
    ensures AddsUp(Wins(Results(trades)), Total(WinUnit, trades))
    ensures AddsUp(Results(trades), Total(NetR, trades))
  {
    hide AddsUp, Winnings, Losses, Wins;
    if trades == [] {
      AddsNothing();
      NoValues();
    } else {
      var front, last := trades[..|trades| - 1], trades[|trades| - 1];
      var nets := Results(front);
      TotalsOutcome(front);
      if last.Closed? {
        var x := last.accounting.netR;
        ValuesMore(nets, x);
        AddsMore(Winnings(nets), Total(Profit, front), Profit(last));
        AddsMore(Losses(nets), Total(Loss, front), Loss(last));
        AddsMore(Wins(nets), Total(WinUnit, front), WinUnit(last));
        AddsMore(nets, Total(NetR, front), NetR(last));
      } else {
        assert nets + [] == nets;
      }
    }
  }

  lemma CostsMore(trades: seq<TradeRecord>, t: TradeRecord)
    ensures Costs(trades + [t]) == Costs(trades) + [Cost(t)]
  {
    var longer := trades + [t];
    assert longer[|trades|] == t && forall k :: 0 <= k < |trades| ==> longer[k] == trades[k];
  }

  lemma {:induction false} CostsOutcome(trades: seq<TradeRecord>)
    ensures AddsUp(Costs(trades), Total(Cost, trades))
  {
    hide AddsUp, Costs, Cost;
    if trades == [] {
      AddsNothing();
      NoValues();
    } else {
      var front, last := trades[..|trades| - 1], trades[|trades| - 1];
      CostsOutcome(front);
      CostsMore(front, last);
      assert front + [last] == trades;
      AddsMore(Costs(front), Total(Cost, front), Cost(last));
    }
  }

  lemma FallsOutcome(values: seq<real>, drawdown: real)
    requires IsDrawdown(values, |values|, drawdown)
    ensures Falls(values, drawdown)
  {
    var sums := SumsOutcome(values);
    hide Accumulates;
    assert |sums| == |values| + 1 by { AccumulatesLength(values, sums); }
    forall i | 0 <= i <= |values| ensures sums[i] == Running(values, i) {
    }
    var i, j :| 0 <= i <= j <= |values| && Running(values, i) - Running(values, j) == drawdown;
    assert sums[i] - sums[j] == drawdown;
  }

  lemma AccumulatesLength(values: seq<real>, sums: seq<real>)
    requires Accumulates(values, sums)
    ensures |sums| == |values| + 1
  {
  }

  lemma MiddleOutcome(values: seq<real>)
    ensures Middle(values, Median(values))
  {
    hide Sort;
    if values != [] {
      var sorted := Sort(AtMost, values);
      AtMostTotal();
      SortSorts(AtMost, values);
      SortPermutes(AtMost, values);
      forall i, j | 0 <= i < j < |sorted| ensures sorted[i] <= sorted[j] {
        assert AtMost(sorted[i], sorted[j]);
      }
    }
  }

  /** A summary has the figures of its trades. */
  lemma FiguresOutcome(s: TradeMetrics, trades: seq<TradeRecord>)
    requires Summarizes(s, trades)
    ensures Figures(s, trades)
  {
    hide Nets, AddsUp, Falls, Middle, IsDrawdown, Median;
    var nets, wins := Results(trades), Total(WinUnit, trades);
    var at := ResultsOutcome(trades);
    TotalsOutcome(trades);
    CostsOutcome(trades);
    FallsOutcome(nets, s.maximumDrawdown);
    MiddleOutcome(nets);
    assert Nets(trades, at, nets);
  }

  // ----- Groups and counts

  /** `part` is what the trades at these places are. */
  ghost predicate Selects(trades: seq<TradeRecord>, at: seq<nat>, part: seq<TradeRecord>) {
    && (forall j, k :: 0 <= j < k < |at| ==> at[j] < at[k]) && |part| == |at|
    && forall k :: 0 <= k < |at| ==> at[k] < |trades| && part[k] == trades[at[k]]
  }

  lemma SelectsMore(trades: seq<TradeRecord>, t: TradeRecord, at: seq<nat>, part: seq<TradeRecord>)
    requires Selects(trades, at, part)
    ensures Selects(trades + [t], at, part) && Selects(trades + [t], at + [|trades|], part + [t])
  {
  }

  /** A group is the trades of its key, in order. */
  lemma {:induction false} OfOutcome(keyOf: TradeRecord -> int, key: int, trades: seq<TradeRecord>)
    returns (at: seq<nat>)
    ensures Selects(trades, at, Of(keyOf, key, trades))
    ensures forall k: nat :: k in at <==> k < |trades| && keyOf(trades[k]) == key
  {
    if trades == [] {
      at := [];
    } else {
      hide Selects;
      var front, last := trades[..|trades| - 1], trades[|trades| - 1];
      at := OfOutcome(keyOf, key, front);
      SelectsMore(front, last, at, Of(keyOf, key, front));
      assert front + [last] == trades;
      if keyOf(last) == key {
        assert forall k: nat :: k in at + [|front|] <==> k in at || k == |front|;
        at := at + [|front|];
      } else {
        var part := Of(keyOf, key, front);
        assert part + [] == part;
      }
    }
  }

  /** A name by which trades are counted or grouped. */
  datatype Name =
    | ClosedStatus | ExpiredStatus | EndOfDataReason | ExpiredReason | StopReason | TargetReason | TimeoutReason
    | LongDirection | ShortDirection

  predicate Bears(t: TradeRecord, name: Name) {
    match name
    case ClosedStatus => t.Closed?
    case ExpiredStatus => t.Expired?
    case EndOfDataReason => t.Closed? && t.reason == Simulator.EndOfData
    case ExpiredReason => t.Expired?
    case StopReason => t.Closed? && t.reason == Simulator.StopHit
    case TargetReason => t.Closed? && t.reason == Simulator.TargetHit
    case TimeoutReason => t.Closed? && t.reason == Simulator.Timeout
    case LongDirection => t.levels.direction == Simulator.Long
    case ShortDirection => t.levels.direction == Simulator.Short
  }

  /** Each key stands for one name, and the keys of each kind in the order of their names. */
  lemma KeysMean(t: TradeRecord)
    ensures StatusKey(t) == 0 <==> Bears(t, ClosedStatus)
    ensures StatusKey(t) == 1 <==> Bears(t, ExpiredStatus)
    ensures ReasonKey(t) == 0 <==> Bears(t, EndOfDataReason)
    ensures ReasonKey(t) == 1 <==> Bears(t, ExpiredReason)
    ensures ReasonKey(t) == 2 <==> Bears(t, StopReason)
    ensures ReasonKey(t) == 3 <==> Bears(t, TargetReason)
    ensures ReasonKey(t) == 4 <==> Bears(t, TimeoutReason)
    ensures DirectionKey(t) == 0 <==> Bears(t, LongDirection)
    ensures DirectionKey(t) == 1 <==> Bears(t, ShortDirection)
    ensures InstrumentKey(t) == t.instrument
  {
  }

  lemma {:induction false} PlacesCount(at: seq<nat>, places: set<nat>)
    requires forall j, k :: 0 <= j < k < |at| ==> at[j] < at[k]
    requires forall k: nat :: k in at <==> k in places
    ensures |places| == |at|
  {
    if at == [] {
      assert places == {};
    } else {
      var front, last := at[..|at| - 1], at[|at| - 1];
      assert at == front + [last];
      assert last !in front;
      PlacesCount(front, places - {last});
    }
  }

  /** A count is the number of trades of its key, and a key that is not listed is that of no trade. */
  lemma CountsOutcome(counts: seq<(int, nat)>, keyOf: TradeRecord -> int, trades: seq<TradeRecord>, key: int)
    requires Counted(counts, keyOf, trades)
    ensures forall i, j :: 0 <= i < j < |counts| ==> counts[i].0 < counts[j].0
    ensures forall i :: 0 <= i < |counts| && counts[i].0 == key ==>
      counts[i].1 == |set k: nat | k < |trades| && keyOf(trades[k]) == key| > 0
    ensures (exists k :: 0 <= k < |trades| && keyOf(trades[k]) == key) ==>
      exists i :: 0 <= i < |counts| && counts[i].0 == key
  {
    var places := set k: nat | k < |trades| && keyOf(trades[k]) == key;
    var at := OfOutcome(keyOf, key, trades);
    PlacesCount(at, places);
    var keys := CountKeys(counts);
    forall i | 0 <= i < |counts| && counts[i].0 == key ensures |places| > 0 {
      assert key in keys;
      var k :| 0 <= k < |trades| && keyOf(trades[k]) == key;
      assert k in places;
    }
    if exists k :: 0 <= k < |trades| && keyOf(trades[k]) == key {
      assert Occurs(keyOf, key, trades);
      var i :| 0 <= i < |keys| && keys[i] == key;
      assert counts[i].0 == key;
    }
  }
}
