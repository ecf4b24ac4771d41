/** Composition of entry, stop and target, and the reward/risk gate. */
module RiskLevels {
  import opened Sequences
  import opened Candles
  import opened Averages
  import opened Simulator
  import Execution

  const ATR_LENGTH := 14
  const STOP_OFFSET := 0.1

  datatype Status = Pass | Fail | NotAvailable

  datatype GapDirection = Bullish | Bearish

  /** What a canonical price text can say. */
  type Price = x: real | x >= 0.0

  /** What the swept liquidity zone reports; `Full` marks a completed sweep. */
  datatype Liquidity = Liquidity(status: Status, direction: Option<Direction>, eventMs: Option<int>,
                                 knownMs: Option<int>, full: bool, swept: Option<real>, opposing: Option<real>)

  /** What the fair value gap reports, with the structure evidence it retains. */
  datatype Gap = Gap(status: Status, direction: Option<GapDirection>, eventMs: Option<int>, knownMs: Option<int>,
                     onlyOnStructure: bool, structureDirection: Option<GapDirection>, structureKnownMs: Option<int>,
                     level: Option<Price>, lower: Option<Price>, upper: Option<Price>)

  datatype Contradiction =
    | Unsatisfied | OmitsTimes | SweptTooLate | LostDependency | DirectionsDiffer | StructureDiffers | StructureTooLate
    | SweepIncomplete | OmitsLevels | NotMidpoint | OmitsSweep

  /** A payload number counts only if it is not negative. */
  function PayloadDecimal(raw: Option<real>): Option<real> {
    if raw.Some? && raw.value >= 0.0 then raw else None
  }

  function GapSide(d: Direction): GapDirection { if d == Long then Bullish else Bearish }

  /** The first contradiction in the chain, in the order the checks are made. */
  function Contradicts(liquidity: Liquidity, gap: Gap): Option<Contradiction> {
    if liquidity.status != Pass || gap.status != Pass then Some(Unsatisfied)
    else if liquidity.eventMs.None? || liquidity.knownMs.None? || gap.eventMs.None? || gap.knownMs.None?
      then Some(OmitsTimes)
    else if liquidity.knownMs.value >= gap.knownMs.value then Some(SweptTooLate)
    else if !gap.onlyOnStructure then Some(LostDependency)
    else if liquidity.direction.None? || gap.direction != Some(GapSide(liquidity.direction.value))
      then Some(DirectionsDiffer)
    else if gap.structureDirection != gap.direction then Some(StructureDiffers)
    else if gap.structureKnownMs.None? || gap.structureKnownMs.value > gap.knownMs.value then Some(StructureTooLate)
    else if !liquidity.full then Some(SweepIncomplete)
    else if gap.level.None? || gap.lower.None? || gap.upper.None? then Some(OmitsLevels)
    else if gap.level.value != (gap.lower.value + gap.upper.value) / 2.0 then Some(NotMidpoint)
    else if PayloadDecimal(liquidity.swept).None? || PayloadDecimal(liquidity.opposing).None? then Some(OmitsSweep)
    else None
  }

  datatype RiskState = TooFewBars | Contradictory(reason: Contradiction) | InvalidOrder | BelowMinimum | Confirmed

  /** The levels are present exactly when reward and risk could be compared. */
  datatype RiskObservation = RiskObservation(status: Status, state: RiskState, levels: Option<Levels>,
                                             eventMs: Option<int>, knownMs: Option<int>)

  /** An observation's constructor raises on a level, lower or upper price that is negative. */
  datatype RiskOutcome = Observed(observation: RiskObservation) | Refused

  /** The three prices an observation of these levels holds: the entry, and stop and target as lower and upper. */
  predicate Representable(levels: Levels) {
    levels.entry >= 0.0 && Min(levels.stop, levels.target) >= 0.0 && Max(levels.stop, levels.target) >= 0.0
  }

  function Latest(a: int, b: int): int { if a >= b then a else b }

  /** The stop lies a tenth of the average range beyond the swept extreme. */
  function Compose(bars: seq<Bar>, liquidity: Liquidity, gap: Gap): Levels
    requires |bars| >= ATR_LENGTH && Contradicts(liquidity, gap).None?
  {
    AtrNonNegative(bars, ATR_LENGTH, |bars| - 1);
    var offset := Atr(bars, ATR_LENGTH, |bars| - 1).value * STOP_OFFSET;
    var direction, swept := liquidity.direction.value, liquidity.swept.value;
    Levels(direction, gap.level.value, if direction == Long then swept - offset else swept + offset,
           liquidity.opposing.value)
  }

  function Risk(levels: Levels): real {
    if levels.direction == Long then levels.entry - levels.stop else levels.stop - levels.entry
  }

  function Reward(levels: Levels): real {
    if levels.direction == Long then levels.target - levels.entry else levels.entry - levels.target
  }

  function Evaluate(minimum: real, bars: seq<Bar>, liquidity: Liquidity, gap: Gap): RiskOutcome {
    if |bars| < ATR_LENGTH then Observed(RiskObservation(NotAvailable, TooFewBars, None, None, None))
    else
      var contradiction := Contradicts(liquidity, gap);
      if contradiction.Some? then Observed(RiskObservation(Fail, Contradictory(contradiction.value), None, None, None))
      else
        var levels := Compose(bars, liquidity, gap);
        if Risk(levels) <= 0.0 || Reward(levels) <= 0.0
          then Observed(RiskObservation(Fail, InvalidOrder, None, None, None))
        else if !Representable(levels) then Refused
        else
          var enough := Reward(levels) / Risk(levels) >= minimum;
          Observed(RiskObservation(
            if enough then Pass else Fail, if enough then Confirmed else BelowMinimum, Some(levels),
            Some(Latest(liquidity.eventMs.value, gap.eventMs.value)),
            Some(Latest(liquidity.knownMs.value, gap.knownMs.value))))
  }

  // ----- The gate from its inputs alone

  /** The place of a check in their order. */
  function Place(c: Contradiction): nat {
    match c
    case Unsatisfied => 0
    case OmitsTimes => 1
    case SweptTooLate => 2
    case LostDependency => 3
    case DirectionsDiffer => 4
    case StructureDiffers => 5
    case StructureTooLate => 6
    case SweepIncomplete => 7
    case OmitsLevels => 8
    case NotMidpoint => 9
    case OmitsSweep => 10
  }

  /** What each check calls a contradiction. */
  predicate Finds(liquidity: Liquidity, gap: Gap, c: Contradiction) {
    match c
    case Unsatisfied => liquidity.status != Pass || gap.status != Pass
    case OmitsTimes =>
      liquidity.eventMs.None? || liquidity.knownMs.None? || gap.eventMs.None? || gap.knownMs.None?
    case SweptTooLate => liquidity.knownMs.Some? && gap.knownMs.Some? && liquidity.knownMs.value >= gap.knownMs.value
    case LostDependency => !gap.onlyOnStructure
    case DirectionsDiffer =>
      && !(liquidity.direction == Some(Long) && gap.direction == Some(Bullish))
      && !(liquidity.direction == Some(Short) && gap.direction == Some(Bearish))
    case StructureDiffers => gap.structureDirection != gap.direction
    case StructureTooLate =>
      gap.structureKnownMs.None? || (gap.knownMs.Some? && gap.structureKnownMs.value > gap.knownMs.value)
    case SweepIncomplete => !liquidity.full
    case OmitsLevels => gap.level.None? || gap.lower.None? || gap.upper.None?
    case NotMidpoint =>
      && gap.level.Some? && gap.lower.Some? && gap.upper.Some?
      && gap.level.value - gap.lower.value != gap.upper.value - gap.level.value
    case OmitsSweep =>
      || liquidity.swept.None? || liquidity.swept.value < 0.0
      || liquidity.opposing.None? || liquidity.opposing.value < 0.0
  }

  lemma Agrees(liquidity: Liquidity, gap: Gap, c: Contradiction)
    requires Contradicts(liquidity, gap).None?
    ensures !Finds(liquidity, gap, c)
  {
  }

  lemma FoundFirst(liquidity: Liquidity, gap: Gap, c: Contradiction, earlier: Contradiction)
    requires Contradicts(liquidity, gap) == Some(c)
    ensures Finds(liquidity, gap, c) && (Place(earlier) < Place(c) ==> !Finds(liquidity, gap, earlier))
  {
  }

  lemma PlacesDiffer(c: Contradiction, d: Contradiction)
    ensures Place(c) == Place(d) ==> c == d
  {
  }

  /** The contradiction is what the first check that finds one says; there is none if no check finds one. */
  lemma FirstContradiction(liquidity: Liquidity, gap: Gap, c: Contradiction)
    ensures Contradicts(liquidity, gap).None? <==> forall d :: !Finds(liquidity, gap, d)
    ensures Contradicts(liquidity, gap) == Some(c) <==>
      Finds(liquidity, gap, c) && forall d :: Place(d) < Place(c) ==> !Finds(liquidity, gap, d)
  {
    hide Finds, Contradicts, Place;
    var reason := Contradicts(liquidity, gap);
    if reason.None? {
      forall d ensures !Finds(liquidity, gap, d) {
        Agrees(liquidity, gap, d);
      }
    } else {
      forall d ensures Place(d) < Place(reason.value) ==> !Finds(liquidity, gap, d) {
        FoundFirst(liquidity, gap, reason.value, d);
      }
      FoundFirst(liquidity, gap, reason.value, c);
      PlacesDiffer(c, reason.value);
    }
  }

  lemma RatioAtLeast(reward: real, risk: real, minimum: real)
    requires risk > 0.0
    ensures reward / risk >= minimum <==> reward >= minimum * risk
  {
    var ratio := reward / risk;
    assert ratio * risk == reward;
    assert (ratio - minimum) * risk == reward - minimum * risk;
  }

  /** Reward and risk are distances from the entry, towards the target and towards the stop. */
  lemma DistancesOutcome(levels: Levels, minimum: real)
    ensures Reward(levels) == if levels.direction == Long then levels.target - levels.entry
                              else levels.entry - levels.target
    ensures Risk(levels) == if levels.direction == Long then levels.entry - levels.stop else levels.stop - levels.entry
    ensures Risk(levels) > 0.0 ==>
      (Reward(levels) / Risk(levels) >= minimum <==> Reward(levels) >= minimum * Risk(levels))
  {
    if Risk(levels) > 0.0 {
      RatioAtLeast(Reward(levels), Risk(levels), minimum);
    }
  }

  /** The levels: the middle of the gap, a tenth of the average of fourteen ranges beyond the swept extreme, and the
      opposing level. */
  lemma LevelsOutcome(bars: seq<Bar>, liquidity: Liquidity, gap: Gap)
    returns (ranges: seq<real>, atrs: seq<Option<real>>)
    requires |bars| >= 14 && Contradicts(liquidity, gap).None?
    ensures RangesOf(bars, ranges) && Smoothed(ranges, 14, atrs) && |atrs| == |bars| && atrs[|bars| - 1].Some?
    ensures var levels, tenth := Compose(bars, liquidity, gap), atrs[|bars| - 1].value / 10.0;
      && Some(levels.direction) == liquidity.direction && levels.entry == gap.level.value
      && Some(levels.target) == liquidity.opposing
      && levels.stop == (if levels.direction == Long then liquidity.swept.value - tenth
                         else liquidity.swept.value + tenth)
  {
    hide Atr, RangesOf;
    ranges, atrs := AtrOutcome(bars, 14);
  }

  /** What the gate answers: nothing without fourteen bars, the contradiction if there is one, and otherwise what the
      distances from the entry to target and stop say. */
  lemma GateOutcome(minimum: real, bars: seq<Bar>, liquidity: Liquidity, gap: Gap)
    ensures |bars| < 14 ==>
      Evaluate(minimum, bars, liquidity, gap)
        == Observed(RiskObservation(NotAvailable, TooFewBars, None, None, None))
    ensures |bars| >= 14 && Contradicts(liquidity, gap).Some? ==>
      Evaluate(minimum, bars, liquidity, gap)
        == Observed(RiskObservation(Fail, Contradictory(Contradicts(liquidity, gap).value), None, None, None))
    ensures |bars| >= 14 && Contradicts(liquidity, gap).None? ==>
      var outcome, levels := Evaluate(minimum, bars, liquidity, gap), Compose(bars, liquidity, gap);
      var risk := if levels.direction == Long then levels.entry - levels.stop else levels.stop - levels.entry;
      var reward := if levels.direction == Long then levels.target - levels.entry else levels.entry - levels.target;
      var eventMs := if liquidity.eventMs.value > gap.eventMs.value then liquidity.eventMs else gap.eventMs;
      var knownMs := if liquidity.knownMs.value > gap.knownMs.value then liquidity.knownMs else gap.knownMs;
      outcome ==
        if risk <= 0.0 || reward <= 0.0 then Observed(RiskObservation(Fail, InvalidOrder, None, None, None))
        else if levels.stop < 0.0 then Refused
        else if reward >= minimum * risk
          then Observed(RiskObservation(Pass, Confirmed, Some(levels), eventMs, knownMs))
        else Observed(RiskObservation(Fail, BelowMinimum, Some(levels), eventMs, knownMs))
  {
    hide Reward, Risk;
    if |bars| >= 14 && Contradicts(liquidity, gap).None? {
      DistancesOutcome(Compose(bars, liquidity, gap), minimum);
    }
  }

  predicate Passes(outcome: RiskOutcome) {
    outcome.Observed? && outcome.observation.status == Pass
  }

  /** There is evidence, it agrees, and the levels lie on the two sides of the entry that the direction asks for. */
  predicate Comparable(bars: seq<Bar>, liquidity: Liquidity, gap: Gap) {
    && |bars| >= ATR_LENGTH && Contradicts(liquidity, gap).None?
    && Execution.Directional(Compose(bars, liquidity, gap))
  }

  /** The gate passes exactly if the evidence agrees, the levels lie on the two sides of the entry that the
      direction asks for, the stop is not negative, and the reward is at least the minimum times the risk. */
  lemma PassMeans(minimum: real, bars: seq<Bar>, liquidity: Liquidity, gap: Gap)
    ensures Passes(Evaluate(minimum, bars, liquidity, gap)) <==>
      && Comparable(bars, liquidity, gap)
      && var levels := Compose(bars, liquidity, gap);
         && levels.stop >= 0.0 && Execution.RewardRisk(levels) >= minimum
         && Evaluate(minimum, bars, liquidity, gap).observation.levels == Some(levels)
  {
    if |bars| >= ATR_LENGTH && Contradicts(liquidity, gap).None? {
      var levels := Compose(bars, liquidity, gap);
      RatioAgrees(levels);
    }
  }

  /** The gate raises exactly if comparable levels of a long trade have swept an extreme below a tenth of the
      average range, whatever the minimum is. */
  lemma RefusedMeans(minimum: real, bars: seq<Bar>, liquidity: Liquidity, gap: Gap)
    ensures Evaluate(minimum, bars, liquidity, gap) == Refused <==>
      && Comparable(bars, liquidity, gap) && liquidity.direction == Some(Long)
      && liquidity.swept.value < Atr(bars, ATR_LENGTH, |bars| - 1).value * STOP_OFFSET
  {
    if |bars| >= ATR_LENGTH && Contradicts(liquidity, gap).None? {
      RatioAgrees(Compose(bars, liquidity, gap));
      AtrNonNegative(bars, ATR_LENGTH, |bars| - 1);
      TimesNonNegative(Atr(bars, ATR_LENGTH, |bars| - 1).value, STOP_OFFSET);
    }
  }

  /** Bars that each range from 1 to 21 and close at 11. */
  function WideBars(n: nat): (r: seq<Bar>)
    ensures |r| == n
  {
    seq(n, _ => Ohlc(11.0, 21.0, 1.0, 11.0))
  }

  lemma {:induction false} WideSum(n: nat, k: nat)
    requires k <= n
    ensures RangeSum(WideBars(n), k) == 20.0 * k as real
  {
    if k > 0 {
      WideSum(n, k - 1);
    }
  }

  /** An instance: agreeing evidence and a reward far above the minimum, and the gate raises. */
  lemma NegativeStopRefused()
    ensures var liquidity := Liquidity(Pass, Some(Long), Some(0), Some(1), true, Some(1.0), Some(100.0));
      var gap := Gap(Pass, Some(Bullish), Some(2), Some(3), true, Some(Bullish), Some(2), Some(5.0), Some(4.0),
                     Some(6.0));
      && Contradicts(liquidity, gap).None? && Compose(WideBars(14), liquidity, gap) == Levels(Long, 5.0, -1.0, 100.0)
      && Evaluate(2.0, WideBars(14), liquidity, gap) == Refused
  {
    WideSum(14, 14);
    assert Atr(WideBars(14), ATR_LENGTH, 13) == Some(20.0);
  }

  lemma RatioAgrees(levels: Levels)
    ensures Execution.Directional(levels) <==> Risk(levels) > 0.0 && Reward(levels) > 0.0
    ensures Execution.Directional(levels) ==> Execution.RewardRisk(levels) == Reward(levels) / Risk(levels)
  {
  }

  /** A passing gate: the entry is the middle of the gap, the stop is beyond the swept extreme, and nothing
      it relies on is known later than the gap. */
  lemma PassRelies(minimum: real, bars: seq<Bar>, liquidity: Liquidity, gap: Gap)
    requires Passes(Evaluate(minimum, bars, liquidity, gap)) && gap.lower.value < gap.upper.value
    ensures var o := Evaluate(minimum, bars, liquidity, gap).observation;
      && gap.lower.value < o.levels.value.entry < gap.upper.value && o.levels.value.entry > 0.0
      && o.levels.value.stop >= 0.0 && o.levels.value.target >= 0.0
      && (if o.levels.value.direction == Long then o.levels.value.stop <= liquidity.swept.value
          else o.levels.value.stop >= liquidity.swept.value)
      && o.knownMs == gap.knownMs && liquidity.knownMs.value < gap.knownMs.value
  {
    AtrNonNegative(bars, ATR_LENGTH, |bars| - 1);
    TimesNonNegative(Atr(bars, ATR_LENGTH, |bars| - 1).value, STOP_OFFSET);
  }
}
