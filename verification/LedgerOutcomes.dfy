/** The ledger of one instrument, from its evaluations and candles alone. */
module LedgerOutcomes {
  import opened Sequences
  import opened Candles
  import opened Simulator
  import opened LedgerLaws
  import opened Execution

  /** The signals are the evaluations made at the close of some candle, candle by candle and by hash within one. */
  ghost predicate Offered(cs: seq<ClosedCandle>, evaluations: seq<Evaluation>, ss: seq<Signal>) {
    && (forall k :: 0 <= k < |ss| ==>
          && ss[k].at < |cs| && ss[k].evaluation in evaluations
          && ss[k].evaluation.timeMs == cs[ss[k].at].openMs + 59_999)
    && (forall e: Evaluation, i: nat :: e in evaluations && i < |cs| && e.timeMs == cs[i].openMs + 59_999 ==>
          Signal(i, e) in ss)
    && (forall j, k :: 0 <= j < k < |ss| ==>
          || ss[j].at < ss[k].at
          || (ss[j].at == ss[k].at && ss[j].evaluation.hash <= ss[k].evaluation.hash))
  }

  /** Signal `k` is READY, the first of its hash, and comes no earlier than the end of every trade taken before it. */
  ghost predicate Takes(rules: Rules, cs: seq<ClosedCandle>, ss: seq<Signal>, at: seq<nat>, k: nat)
    requires k < |ss|
  {
    && ss[k].evaluation.decision.Ready?
    && (forall j :: 0 <= j < k && ss[j].evaluation.decision.Ready? ==> ss[j].evaluation.hash != ss[k].evaluation.hash)
    && (forall j :: 0 <= j < k && j in at && ss[j].evaluation.decision.Ready? ==>
          EndsAt(rules, cs, ss[j]) <= ss[k].at)
  }

  /** `at` lists exactly the signals that are taken, in order. */
  ghost predicate Taken(rules: Rules, cs: seq<ClosedCandle>, ss: seq<Signal>, at: seq<nat>) {
    && (forall m, n :: 0 <= m < n < |at| ==> at[m] < at[n])
    && (forall n :: 0 <= n < |at| ==> at[n] < |ss| && ss[at[n]].evaluation.decision.Ready?)
    && (forall k :: 0 <= k < |ss| ==> (k in at <==> Takes(rules, cs, ss, at, k)))
  }

  lemma AcceptedAreTaken(rules: Rules, cs: seq<ClosedCandle>, ss: seq<Signal>) returns (at: seq<nat>)
    ensures Taken(rules, cs, ss, at)
    ensures |at| == |Accepted(rules, cs, ss, |ss|)|
    ensures forall n :: 0 <= n < |at| ==> ss[at[n]] == Accepted(rules, cs, ss, |ss|)[n]
  {
    hide Admits, EndsAt;
    at := AcceptedIndices(rules, cs, ss, |ss|);
    forall k | 0 <= k < |ss| ensures k in at <==> IsAccepted(rules, cs, ss, k) {
      if k in at {
        var n :| 0 <= n < |at| && at[n] == k;
      }
    }
    forall k | 0 <= k < |ss| ensures k in at <==> Takes(rules, cs, ss, at, k) {
      AcceptanceRule(rules, cs, ss, k);
    }
    forall n | 0 <= n < |at| ensures at[n] < |ss| && ss[at[n]].evaluation.decision.Ready? {
      AcceptanceRule(rules, cs, ss, at[n]);
    }
  }

  lemma OffersAscend(evaluations: seq<Evaluation>, t: int)
    ensures var r := Offers(InTurn(evaluations), t);
      && (forall e :: e in r <==> e in evaluations && e.timeMs == t)
      && forall j, k :: 0 <= j < k < |r| ==> r[j].hash <= r[k].hash
  {
    hide Sort, Filter;
    var at := (e: Evaluation) => e.timeMs == t;
    FilterSort(EvaluatesBefore, at, evaluations);
    SortSorts(EvaluatesBefore, Filter(at, evaluations));
    SortPermutes(EvaluatesBefore, evaluations);
    SameElements(InTurn(evaluations), evaluations);
    var r := Offers(InTurn(evaluations), t);
    assert r == Filter(at, InTurn(evaluations));
    forall j, k | 0 <= j < k < |r| ensures r[j].hash <= r[k].hash {
      assert r[j] in r && r[k] in r;
      assert EvaluatesBefore(r[j], r[k]);
    }
  }

  lemma {:induction false} SignalsAreOffered(cs: seq<ClosedCandle>, evaluations: seq<Evaluation>, n: nat)
    requires n <= |cs|
    ensures Offered(cs[..n], evaluations, SignalsUpTo(cs, InTurn(evaluations), n))
  {
    hide Offers;
    var ss := SignalsUpTo(cs, InTurn(evaluations), n);
    if n > 0 {
      var i: nat := n - 1;
      SignalsAreOffered(cs, evaluations, i);
      OffersAscend(evaluations, cs[i].CloseMs());
      var before, offers := SignalsUpTo(cs, InTurn(evaluations), i), Offers(InTurn(evaluations), cs[i].CloseMs());
      OfferedMore(cs[..i], cs[i], evaluations, before, offers, i);
      assert cs[..i] + [cs[i]] == cs[..n];
    }
  }

  lemma OfferedMore(cs: seq<ClosedCandle>, c: ClosedCandle, evaluations: seq<Evaluation>, before: seq<Signal>,
                    offers: seq<Evaluation>, i: nat)
    requires i == |cs| && Offered(cs, evaluations, before)
    requires forall e :: e in offers <==> e in evaluations && e.timeMs == c.openMs + 59_999
    requires forall j, k :: 0 <= j < k < |offers| ==> offers[j].hash <= offers[k].hash
    ensures Offered(cs + [c], evaluations, before + Signals(i, offers))
  {
    var ss, now, longer := before + Signals(i, offers), Signals(i, offers), cs + [c];
    forall k | 0 <= k < |ss|
      ensures ss[k].at < |longer| && ss[k].evaluation in evaluations
      ensures ss[k].evaluation.timeMs == longer[ss[k].at].openMs + 59_999
    {
      if k >= |before| {
        assert ss[k] == now[k - |before|] && ss[k].evaluation in offers;
      }
    }
    forall e: Evaluation, k: nat | e in evaluations && k < |longer| && e.timeMs == longer[k].openMs + 59_999
      ensures Signal(k, e) in ss
    {
      if k < i {
        assert Signal(k, e) in before;
      } else {
        var j :| 0 <= j < |offers| && offers[j] == e;
        assert ss[|before| + j] == Signal(i, e);
      }
    }
    forall j, k | 0 <= j < k < |ss|
      ensures ss[j].at < ss[k].at || (ss[j].at == ss[k].at && ss[j].evaluation.hash <= ss[k].evaluation.hash)
    {
      if j >= |before| {
        assert ss[j] == now[j - |before|] && ss[k] == now[k - |before|];
      } else if k >= |before| {
        assert ss[j] == before[j] && ss[k] == now[k - |before|];
      }
    }
  }

  /** The candles in order of time, the evaluations of their closes, and among these exactly the taken ones each with
      its fate: that is the ledger. */
  lemma LedgerOutcome(rules: Rules, evaluations: seq<Evaluation>, candles: seq<ClosedCandle>)
    returns (cs: seq<ClosedCandle>, ss: seq<Signal>, at: seq<nat>)
    ensures multiset(cs) == multiset(candles) && forall i, j :: 0 <= i < j < |cs| ==> cs[i].openMs <= cs[j].openMs
    ensures Offered(cs, evaluations, ss) && Taken(rules, cs, ss, at)
    ensures var ledger := Ledger(rules, evaluations, candles);
      |ledger| == |at| && forall n :: 0 <= n < |at| ==> ledger[n] == FateOf(rules, cs, ss[at[n]])
  {
    hide FateOf, Accepted, Offered, Taken, Sort, SignalsUpTo, InTurn;
    cs := Chronological(candles);
    ss := SignalsUpTo(cs, InTurn(evaluations), |cs|);
    ChronologicalSorts(candles);
    SortPermutes(OpensBefore, candles);
    forall i, j | 0 <= i < j < |cs| ensures cs[i].openMs <= cs[j].openMs {
      assert OpensBefore(cs[i], cs[j]);
    }
    SignalsAreOffered(cs, evaluations, |cs|);
    assert cs[..|cs|] == cs;
    at := AcceptedAreTaken(rules, cs, ss);
    TakenAreReady(rules, cs, ss, at);
    FatesOfAccepted(rules, cs, Accepted(rules, cs, ss, |ss|));
  }

  lemma TakenAreReady(rules: Rules, cs: seq<ClosedCandle>, ss: seq<Signal>, at: seq<nat>)
    requires Taken(rules, cs, ss, at)
    ensures forall n :: 0 <= n < |at| ==> at[n] < |ss| && ss[at[n]].evaluation.decision.Ready?
  {
  }

  lemma OwnInputs(evaluations: seq<Evaluation>, candles: seq<ClosedCandle>, x: int)
    ensures forall e :: e in EvaluationsOf(x, evaluations) <==> e in evaluations && e.instrument == x
    ensures forall c :: multiset(CandlesOf(x, candles))[c] == if c.instrument == x then multiset(candles)[c] else 0
  {
    forall c: ClosedCandle
      ensures multiset(CandlesOf(x, candles))[c] == if c.instrument == x then multiset(candles)[c] else 0
    {
      FilterCounts((d: ClosedCandle) => d.instrument == x, candles, c);
    }
  }

  /** Candles of one minute keep the order in which they were given. */
  lemma SameMinuteInOrder(candles: seq<ClosedCandle>, x: int, t: int)
    ensures Filter((c: ClosedCandle) => c.openMs == t, Chronological(CandlesOf(x, candles)))
         == Filter((c: ClosedCandle) => c.openMs == t && c.instrument == x, candles)
  {
    var at, own, both := (c: ClosedCandle) => c.openMs == t, (c: ClosedCandle) => c.instrument == x,
      (c: ClosedCandle) => c.openMs == t && c.instrument == x;
    SortKeepsTies(OpensBefore, at, CandlesOf(x, candles));
    FilterTwice(at, own, both, candles);
  }

  /** The records of an instrument: its candles in order of time, its evaluations at their closes, and one record for
      the fate of each signal taken. */
  lemma OwnRecordsMean(rules: Rules, evaluations: seq<Evaluation>, candles: seq<ClosedCandle>, trades: seq<TradeRecord>,
                       x: int)
    returns (cs: seq<ClosedCandle>, es: seq<Evaluation>, ss: seq<Signal>, at: seq<nat>)
    requires OwnRecords(rules, evaluations, candles, trades, x)
    ensures forall c :: multiset(cs)[c] == if c.instrument == x then multiset(candles)[c] else 0
    ensures forall i, j :: 0 <= i < j < |cs| ==> cs[i].openMs <= cs[j].openMs
    ensures forall e :: e in es <==> e in evaluations && e.instrument == x
    ensures Offered(cs, es, ss) && Taken(rules, cs, ss, at)
    ensures var own := Filter((t: TradeRecord) => t.instrument == x, trades);
      |own| == |at| && forall n :: 0 <= n < |at| ==>
        Recordable(FateOf(rules, cs, ss[at[n]])) && own[n] == RecordOf(rules, FateOf(rules, cs, ss[at[n]]))
  {
    hide FateOf, RecordOf, Offered, Taken, Ledger, EvaluationsOf, CandlesOf;
    es := EvaluationsOf(x, evaluations);
    OwnInputs(evaluations, candles, x);
    cs, ss, at := LedgerOutcome(rules, es, CandlesOf(x, candles));
    TakenAreReady(rules, cs, ss, at);
    var fates := LedgerOf(rules, evaluations, candles, x);
    forall n | 0 <= n < |at|
      ensures Recordable(fates[n]) && Records(rules, fates)[n] == RecordOf(rules, fates[n])
    {
      RecordsAt(rules, fates, n);
    }
  }
}
