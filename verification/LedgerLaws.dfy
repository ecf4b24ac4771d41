/** What the declarative ledger promises over whole runs. */
module LedgerLaws {
  import opened Sequences
  import opened Candles
  import opened Simulator

  // ----- Which signals are accepted

  ghost predicate IsAccepted(rules: Rules, cs: seq<ClosedCandle>, ss: seq<Signal>, k: nat)
    requires k < |ss|
  {
    Admits(rules, cs, ss, Accepted(rules, cs, ss, k), k)
  }

  /** `r` lists the indices below `k` of the accepted signals. */
  ghost predicate Lists(rules: Rules, cs: seq<ClosedCandle>, ss: seq<Signal>, k: nat, r: seq<nat>)
    requires k <= |ss|
  {
    var a := Accepted(rules, cs, ss, k);
    && |r| == |a|
    && (forall n :: 0 <= n < |r| ==> r[n] < k && ss[r[n]] == a[n] && IsAccepted(rules, cs, ss, r[n]))
    && (forall m, n :: 0 <= m < n < |r| ==> r[m] < r[n])
    && (forall j :: 0 <= j < k && IsAccepted(rules, cs, ss, j) ==> j in r)
  }

  lemma {:induction false} AcceptedIndices(rules: Rules, cs: seq<ClosedCandle>, ss: seq<Signal>, k: nat)
    returns (r: seq<nat>)
    requires k <= |ss|
    ensures Lists(rules, cs, ss, k, r)
  {
    hide Admits;
    if k == 0 {
      r := [];
    } else {
      var q := AcceptedIndices(rules, cs, ss, k - 1);
      if IsAccepted(rules, cs, ss, k - 1) {
        r := q + [k - 1];
        assert forall j :: j in r <==> j in q || j == k - 1;
      } else {
        r := q;
      }
    }
  }

  /** A signal is accepted exactly when it is READY, its hash was not offered READY before,
      and every trade accepted before it is already over. */
  lemma AcceptanceRule(rules: Rules, cs: seq<ClosedCandle>, ss: seq<Signal>, k: nat)
    requires k < |ss|
    ensures IsAccepted(rules, cs, ss, k) <==>
      && ss[k].evaluation.decision.Ready?
      && (forall j :: 0 <= j < k && ss[j].evaluation.decision.Ready? ==> ss[j].evaluation.hash != ss[k].evaluation.hash)
      && (forall j :: 0 <= j < k && IsAccepted(rules, cs, ss, j) ==> EndsAt(rules, cs, ss[j]) <= ss[k].at)
  {
    var a := Accepted(rules, cs, ss, k);
    var r := AcceptedIndices(rules, cs, ss, k);
    assert (ss[k].evaluation.hash !in SeenUpTo(ss, k)) <==>
      forall j :: 0 <= j < k && ss[j].evaluation.decision.Ready? ==> ss[j].evaluation.hash != ss[k].evaluation.hash;
    assert AllOver(rules, cs, a, ss[k].at + 1) <==>
      forall j :: 0 <= j < k && IsAccepted(rules, cs, ss, j) ==> EndsAt(rules, cs, ss[j]) <= ss[k].at by
    {
      if AllOver(rules, cs, a, ss[k].at + 1) {
        forall j | 0 <= j < k && IsAccepted(rules, cs, ss, j) ensures EndsAt(rules, cs, ss[j]) <= ss[k].at {
          var n :| 0 <= n < |r| && r[n] == j;
          assert a[n] == ss[j];
        }
      }
      if forall j :: 0 <= j < k && IsAccepted(rules, cs, ss, j) ==> EndsAt(rules, cs, ss[j]) <= ss[k].at {
        forall n | 0 <= n < |a| ensures EndsAt(rules, cs, a[n]) < ss[k].at + 1 {
          assert a[n] == ss[r[n]] && IsAccepted(rules, cs, ss, r[n]);
        }
      }
    }
  }

  /** Each accepted signal leaves exactly one fate, in the order of acceptance. */
  lemma {:induction false} FatesOfAccepted(rules: Rules, cs: seq<ClosedCandle>, a: seq<ReadySignal>)
    ensures |Fates(rules, cs, a)| == |a|
    ensures forall n :: 0 <= n < |a| ==> Fates(rules, cs, a)[n] == FateOf(rules, cs, a[n])
  {
    if a != [] {
      FatesOfAccepted(rules, cs, a[..|a| - 1]);
    }
  }

  // ----- Lifetimes

  /** Trades never overlap: each is over no later than the candle whose close offers the next. */
  lemma {:induction false} LifetimesDisjoint(rules: Rules, cs: seq<ClosedCandle>, ss: seq<Signal>, k: nat, m: nat,
                                             n: nat)
    requires k <= |ss| && m < n < |Accepted(rules, cs, ss, k)|
    ensures var a := Accepted(rules, cs, ss, k);
      EndsAt(rules, cs, a[m]) <= a[n].at < EntryAt(rules, cs, a[n]) || a[n].at >= |cs|
    ensures EndsAt(rules, cs, Accepted(rules, cs, ss, k)[m]) <= Accepted(rules, cs, ss, k)[n].at
    decreases k
  {
    var a := Accepted(rules, cs, ss, k - 1);
    if n < |a| {
      LifetimesDisjoint(rules, cs, ss, k - 1, m, n);
    }
  }

  /** How a signal's trade goes, from the prices and times of the candles. The limit is filled by the first later candle
      that opens before the expiry and trades at the limit or through it; without one the signal lapses at the first
      candle from the expiry on. The trade ends at the first candle from its entry on that trades at the stop or through
      it, or after the entry minute at the target or through it, or that reaches the holding limit; the stop wins ties,
      then the target. Otherwise it ends with the data. */
  lemma FateMeaning(rules: Rules, cs: seq<ClosedCandle>, s: ReadySignal)
    requires s.at < |cs|
    ensures var e, l, f, j := s.evaluation, s.evaluation.decision.levels, FateOf(rules, cs, s), EntryAt(rules, cs, s);
      var expiry := e.timeMs + 1 + rules.expiryMinutes * 60_000;
      && (forall i :: s.at < i < |cs| && i < j ==>
            cs[i].openMs >= expiry
            || if l.direction == Long then cs[i].bar.low > l.entry else cs[i].bar.high < l.entry)
      && (j < |cs| ==>
            && s.at < j && cs[j].openMs < expiry
            && if l.direction == Long then cs[j].bar.low <= l.entry else cs[j].bar.high >= l.entry)
      && (f.Lapsed? <==> j == |cs|) && (f.Lapsed? ==> f.evaluation == e)
      && (f.Ended? ==> f.position == Position(e, cs[j].openMs))
      && (f.Lapsed? ==>
            && s.at < EndsAt(rules, cs, s) <= |cs|
            && (EndsAt(rules, cs, s) < |cs| ==> cs[EndsAt(rules, cs, s)].openMs >= expiry)
            && (forall i :: s.at < i < EndsAt(rules, cs, s) ==> cs[i].openMs < expiry))
    ensures var l, f, j := s.evaluation.decision.levels, FateOf(rules, cs, s), EntryAt(rules, cs, s);
      f.Ended? ==>
        var m := EndsAt(rules, cs, s);
        && j <= m <= |cs| && (f.reason == EndOfData <==> m == |cs|) && f.candle == cs[if m == |cs| then m - 1 else m]
        && (forall i :: j <= i < m ==>
              && (if l.direction == Long then cs[i].bar.low > l.stop else cs[i].bar.high < l.stop)
              && (cs[i].openMs > cs[j].openMs ==>
                    if l.direction == Long then cs[i].bar.high < l.target else cs[i].bar.low > l.target)
              && (cs[i].openMs - cs[j].openMs) / 60_000 + 1 < rules.maximumHoldingMinutes)
        && (m < |cs| ==>
              var stopped := if l.direction == Long then cs[m].bar.low <= l.stop else cs[m].bar.high >= l.stop;
              var reached := cs[m].openMs > cs[j].openMs
                && if l.direction == Long then cs[m].bar.high >= l.target else cs[m].bar.low <= l.target;
              && (f.reason == StopHit <==> stopped) && (f.reason == TargetHit <==> !stopped && reached)
              && (f.reason == Timeout <==> !stopped && !reached)
              && (f.reason == Timeout ==>
                    (cs[m].openMs - cs[j].openMs) / 60_000 + 1 >= rules.maximumHoldingMinutes))
  {
  }

  /** On gap-free candles a signal of a close is filled exactly if one of the next `expiryMinutes` candles trades at the
      limit or through it, at the first such candle; otherwise it is over with the candle after those, if there is
      one. */
  lemma FilledWithin(rules: Rules, cs: seq<ClosedCandle>, s: ReadySignal)
    requires GapFree(cs) && s.at < |cs| && rules.expiryMinutes >= 0 && s.evaluation.timeMs == cs[s.at].openMs + 59_999
    ensures var l, f, last := s.evaluation.decision.levels, FateOf(rules, cs, s), s.at + rules.expiryMinutes;
      && (f.Ended? <==>
            exists i :: s.at < i <= last && i < |cs| &&
              if l.direction == Long then cs[i].bar.low <= l.entry else cs[i].bar.high >= l.entry)
      && (f.Ended? ==>
            exists i ::
              && s.at < i <= last && i < |cs| && f.position.entryMs == cs[i].openMs
              && (if l.direction == Long then cs[i].bar.low <= l.entry else cs[i].bar.high >= l.entry)
              && forall k :: s.at < k < i ==>
                   if l.direction == Long then cs[k].bar.low > l.entry else cs[k].bar.high < l.entry)
      && (f.Lapsed? ==> EndsAt(rules, cs, s) == if last + 1 < |cs| then last + 1 else |cs|)
  {
    FateMeaning(rules, cs, s);
    var last, over := s.at + rules.expiryMinutes, EndsAt(rules, cs, s);
    forall i | s.at < i < |cs|
      ensures cs[i].openMs < s.evaluation.timeMs + 1 + rules.expiryMinutes * 60_000 <==> i <= last
    {
      assert cs[i].openMs - cs[s.at].openMs == (i - s.at) * MINUTE_MS;
    }
    if FateOf(rules, cs, s).Lapsed? {
      assert over < |cs| ==> last < over;
      assert last + 1 < |cs| ==> cs[last + 1].openMs >= s.evaluation.timeMs + 1 + rules.expiryMinutes * 60_000;
    }
  }

  /** On gap-free candles no trade outlives the holding limit, and a timeout falls exactly on it. */
  lemma HoldingLimit(rules: Rules, cs: seq<ClosedCandle>, s: ReadySignal)
    requires GapFree(cs) && s.at < |cs| && rules.maximumHoldingMinutes >= 1
    requires FateOf(rules, cs, s).Ended?
    ensures var f := FateOf(rules, cs, s);
      var d := (f.candle.openMs - f.position.entryMs) / 60_000 + 1;
      && 1 <= d <= rules.maximumHoldingMinutes
      && (f.reason == Timeout ==> d == rules.maximumHoldingMinutes)
      && (f.reason == EndOfData ==> d < rules.maximumHoldingMinutes)
  {
    FateMeaning(rules, cs, s);
    var j, m := EntryAt(rules, cs, s), EndsAt(rules, cs, s);
    forall i | j <= i < |cs| ensures (cs[i].openMs - cs[j].openMs) / 60_000 + 1 == i - j + 1 {
      assert cs[i].openMs - cs[j].openMs == (i - j) * MINUTE_MS;
    }
    if m > j {
      assert (cs[m - 1].openMs - cs[j].openMs) / 60_000 + 1 < rules.maximumHoldingMinutes;
    }
  }

  // ----- Order and independence

  lemma {:induction false} SignalsAreOffers(cs: seq<ClosedCandle>, es: seq<Evaluation>, n: nat, k: nat)
    requires n <= |cs| && k < |SignalsUpTo(cs, es, n)|
    ensures var ss := SignalsUpTo(cs, es, n);
      && ss[k].at < n && ss[k].evaluation in es && ss[k].evaluation.timeMs == cs[ss[k].at].CloseMs()
      && forall i :: 0 <= i < ss[k].at && cs[i].openMs == cs[ss[k].at].openMs ==>
           exists l :: 0 <= l < k && ss[l] == Signal(i, ss[k].evaluation)
    decreases n
  {
    var before := SignalsUpTo(cs, es, n - 1);
    var ss := SignalsUpTo(cs, es, n);
    var offers := Offers(es, cs[n - 1].CloseMs());
    if k < |before| {
      SignalsAreOffers(cs, es, n - 1, k);
      assert before[k] == ss[k];
      forall i | 0 <= i < ss[k].at && cs[i].openMs == cs[ss[k].at].openMs
        ensures exists l :: 0 <= l < k && ss[l] == Signal(i, ss[k].evaluation)
      {
        var l :| 0 <= l < k && before[l] == Signal(i, ss[k].evaluation);
        assert ss[l] == before[l];
      }
    } else {
      var e := offers[k - |before|];
      assert e in offers && ss[k] == Signal(n - 1, e);
      forall i | 0 <= i < n - 1 && cs[i].openMs == cs[n - 1].openMs
        ensures exists l :: 0 <= l < k && ss[l] == Signal(i, e)
      {
        var l := SignalPresent(cs, es, n - 1, i, e);
        assert ss[l] == before[l];
      }
    }
  }

  lemma {:induction false} SignalPresent(cs: seq<ClosedCandle>, es: seq<Evaluation>, n: nat, i: nat, e: Evaluation)
    returns (l: nat)
    requires i < n <= |cs| && e in es && e.timeMs == cs[i].CloseMs()
    ensures l < |SignalsUpTo(cs, es, n)| && SignalsUpTo(cs, es, n)[l] == Signal(i, e)
    decreases n
  {
    var before := SignalsUpTo(cs, es, n - 1);
    var offers := Offers(es, cs[n - 1].CloseMs());
    if i < n - 1 {
      l := SignalPresent(cs, es, n - 1, i, e);
    } else {
      assert e in offers;
      var p :| 0 <= p < |offers| && offers[p] == e;
      l := |before| + p;
    }
  }

  /** Accepted signals have strictly increasing evaluation times. */
  lemma SignalTimesIncrease(rules: Rules, cs: seq<ClosedCandle>, es: seq<Evaluation>, m: nat, n: nat)
    requires Sorted(OpensBefore, cs)
    requires var ss := SignalsUpTo(cs, es, |cs|); m < n < |Accepted(rules, cs, ss, |ss|)|
    ensures var ss := SignalsUpTo(cs, es, |cs|); var a := Accepted(rules, cs, ss, |ss|);
      a[m].evaluation.timeMs < a[n].evaluation.timeMs
  {
    var ss := SignalsUpTo(cs, es, |cs|);
    var a := Accepted(rules, cs, ss, |ss|);
    var r := AcceptedIndices(rules, cs, ss, |ss|);
    LifetimesDisjoint(rules, cs, ss, |ss|, m, n);
    SignalsAreOffers(cs, es, |cs|, r[m]);
    SignalsAreOffers(cs, es, |cs|, r[n]);
    assert a[m] == ss[r[m]] && a[n] == ss[r[n]];
    var i, j := a[m].at, a[n].at;
    assert EndsAt(rules, cs, a[m]) >= i + 1;
    assert OpensBefore(cs[i], cs[j]);
    AcceptanceRule(rules, cs, ss, r[n]);
    assert forall l :: 0 <= l < r[n] ==> ss[l] != Signal(i, ss[r[n]].evaluation);
  }

  function EvaluationOf(f: Fate): ReadyEvaluation {
    if f.Lapsed? then f.evaluation else f.position.evaluation
  }

  lemma AcceptedInOrder(rules: Rules, cs: seq<ClosedCandle>, es: seq<Evaluation>, a: seq<ReadySignal>)
    requires Sorted(OpensBefore, cs)
    requires var ss := SignalsUpTo(cs, es, |cs|); a == Accepted(rules, cs, ss, |ss|)
    ensures forall n :: 0 <= n < |a| ==> a[n].evaluation in es
    ensures forall m, n :: 0 <= m < n < |a| ==> a[m].evaluation.timeMs < a[n].evaluation.timeMs
  {
    var ss := SignalsUpTo(cs, es, |cs|);
    var r := AcceptedIndices(rules, cs, ss, |ss|);
    forall n | 0 <= n < |a| ensures a[n].evaluation in es {
      SignalsAreOffers(cs, es, |cs|, r[n]);
    }
    forall m, n | 0 <= m < n < |a| ensures a[m].evaluation.timeMs < a[n].evaluation.timeMs {
      SignalTimesIncrease(rules, cs, es, m, n);
    }
  }

  lemma FateNamesSignal(rules: Rules, cs: seq<ClosedCandle>, s: ReadySignal)
    ensures EvaluationOf(FateOf(rules, cs, s)) == s.evaluation
  {
    hide EntryAt, ExitAt;
  }

  lemma InTurnMembers(evaluations: seq<Evaluation>)
    ensures forall e :: e in InTurn(evaluations) ==> e in evaluations
  {
    hide Sort;
    SortPermutes(EvaluatesBefore, evaluations);
    SameElements(InTurn(evaluations), evaluations);
  }

  lemma ChronologicalSorts(candles: seq<ClosedCandle>)
    ensures Sorted(OpensBefore, Chronological(candles))
  {
    SortSorts(OpensBefore, candles);
  }

  /** The fates of a ledger name evaluations that were given, at strictly increasing times. */
  lemma LedgerInOrder(rules: Rules, evaluations: seq<Evaluation>, candles: seq<ClosedCandle>)
    ensures var l := Ledger(rules, evaluations, candles);
      && (forall n :: 0 <= n < |l| ==> EvaluationOf(l[n]) in evaluations)
      && (forall m, n :: 0 <= m < n < |l| ==> EvaluationOf(l[m]).timeMs < EvaluationOf(l[n]).timeMs)
  {
    hide Sorted, Accepted, FateOf, Fates, SignalsUpTo, Chronological, InTurn, EvaluationOf;
    var cs, es := Chronological(candles), InTurn(evaluations);
    var ss := SignalsUpTo(cs, es, |cs|);
    var a := Accepted(rules, cs, ss, |ss|);
    ChronologicalSorts(candles);
    AcceptedInOrder(rules, cs, es, a);
    InTurnMembers(evaluations);
    FatesOfAccepted(rules, cs, a);
    forall n | 0 <= n < |a| ensures EvaluationOf(FateOf(rules, cs, a[n])) == a[n].evaluation {
      FateNamesSignal(rules, cs, a[n]);
    }
  }

  // ----- Causality

  lemma OffersUnaffected(evaluations: seq<Evaluation>, later: seq<Evaluation>, t: int)
    requires forall e :: e in later ==> e.timeMs > t
    ensures Offers(InTurn(evaluations + later), t) == Offers(InTurn(evaluations), t)
  {
    var p := (e: Evaluation) => e.timeMs == t;
    EvaluationsPreorder();
    FilterSort(EvaluatesBefore, p, evaluations + later);
    FilterSort(EvaluatesBefore, p, evaluations);
    FilterConcat(p, evaluations, later);
    FilterNone(p, later);
    assert Filter(p, evaluations) + [] == Filter(p, evaluations);
  }

  lemma EvaluationsPreorder()
    ensures TotalPreorder(EvaluatesBefore)
  {
  }

  lemma {:induction false} AfterUnaffected(rules: Rules, cs: seq<ClosedCandle>, longer: seq<ClosedCandle>,
                                           es: seq<Evaluation>, more: seq<Evaluation>, i: nat)
    requires i <= |cs| && cs <= longer
    requires forall j :: 0 <= j < i ==> Offers(more, cs[j].CloseMs()) == Offers(es, cs[j].CloseMs())
    ensures After(rules, longer, more, i) == After(rules, cs, es, i)
  {
    if i > 0 {
      AfterUnaffected(rules, cs, longer, es, more, i - 1);
      assert longer[i - 1] == cs[i - 1];
    }
  }

  /** The state after the known candles does not depend on what follows. */
  lemma StateIsCausal(rules: Rules, evaluations: seq<Evaluation>, candles: seq<ClosedCandle>,
                      laterEvaluations: seq<Evaluation>, laterCandles: seq<ClosedCandle>)
    requires forall c, d :: c in candles && d in laterCandles ==> c.openMs < d.openMs
    requires forall c, e :: c in candles && e in laterEvaluations ==> c.CloseMs() < e.timeMs
    ensures var cs, longer := Chronological(candles), Chronological(candles + laterCandles);
      && cs <= longer
      && After(rules, longer, InTurn(evaluations + laterEvaluations), |cs|)
           == After(rules, cs, InTurn(evaluations), |cs|)
  {
    var cs, longer := Chronological(candles), Chronological(candles + laterCandles);
    var es, more := InTurn(evaluations), InTurn(evaluations + laterEvaluations);
    assert cs <= longer by { SortAppend(OpensBefore, candles, laterCandles); }
    assert forall c :: c in cs ==> c in candles by {
      SortPermutes(OpensBefore, candles);
      SameElements(cs, candles);
    }
    forall j | 0 <= j < |cs| ensures Offers(more, cs[j].CloseMs()) == Offers(es, cs[j].CloseMs()) {
      assert cs[j] in candles;
      OffersUnaffected(evaluations, laterEvaluations, cs[j].CloseMs());
    }
    AfterUnaffected(rules, cs, longer, es, more, |cs|);
  }

  /** `short` stands in `long` but for one fate forced by the end of the data. */
  ghost predicate StandsIn(short: seq<Fate>, long: seq<Fate>) {
    || short <= long
    || (|short| > 0 && short[..|short| - 1] <= long
        && (short[|short| - 1].Lapsed? || short[|short| - 1].reason == EndOfData))
  }

  lemma FinishStands(st: State, cs: seq<ClosedCandle>, long: seq<Fate>)
    requires Sound(st) && st.fates <= long
    ensures StandsIn(Finish(st, cs), long)
  {
    var short := Finish(st, cs);
    assert short == st.fates || short[..|short| - 1] == st.fates;
  }

  /** No look-ahead: given later candles and later evaluations, every fate stands except the one the
      end of the data forced. */
  lemma LedgerIsCausal(rules: Rules, evaluations: seq<Evaluation>, candles: seq<ClosedCandle>,
                       laterEvaluations: seq<Evaluation>, laterCandles: seq<ClosedCandle>)
    requires forall c, d :: c in candles && d in laterCandles ==> c.openMs < d.openMs
    requires forall c, e :: c in candles && e in laterEvaluations ==> c.CloseMs() < e.timeMs
    ensures StandsIn(Ledger(rules, evaluations, candles),
                     Ledger(rules, evaluations + laterEvaluations, candles + laterCandles))
  {
    hide Ledger, StandsIn, After;
    var cs, longer := Chronological(candles), Chronological(candles + laterCandles);
    var es, more := InTurn(evaluations), InTurn(evaluations + laterEvaluations);
    StateIsCausal(rules, evaluations, candles, laterEvaluations, laterCandles);
    var st, end := After(rules, cs, es, |cs|), After(rules, longer, more, |longer|);
    assert st.fates <= end.fates by { FatesGrow(rules, longer, more, |cs|, |longer|); }
    FinishStands(st, cs, Finish(end, longer));
    MachineFollowsRule(rules, evaluations, candles);
    MachineFollowsRule(rules, evaluations + laterEvaluations, candles + laterCandles);
  }
}
