/** Ordered decisions over required signals, and what a READY decision carries. */
module DecisionPolicy {
  import opened Sequences
  import opened Candles
  import opened Simulator
  import opened Execution
  import opened RiskLevels

  datatype Effect = Reject | ReadLevels

  datatype Signal = Signal(id: nat, required: bool, effect: Effect, order: int)

  /** A direction text in a payload. */
  datatype DirectionText = LongText | ShortText | OtherDirection

  /** A price text: what non-negative fixed-point syntax says, or a text that is not of this syntax. */
  datatype PriceText = FixedPoint(value: Price) | OtherText

  /** The four level fields of an observation's payload; `None` where one is missing or not a text. */
  datatype Payload = Payload(direction: Option<DirectionText>, entry: Option<PriceText>, stop: Option<PriceText>,
                             target: Option<PriceText>)

  datatype LevelTexts = LevelTexts(direction: DirectionText, entry: PriceText, stop: PriceText, target: PriceText)

  datatype Observation = Observation(status: Status, payload: Payload, hash: nat)

  /** Stands for the failed signal named when no signal supplied levels. */
  const DECISION_LEVELS: nat := 0

  type Stop = d: Decision | !d.Ready? witness Unavailable(DECISION_LEVELS)

  /** What the signals come to: a reason not to trade, or level texts for a READY decision. */
  datatype Verdict = Stops(decision: Stop) | Carries(texts: LevelTexts)

  datatype Outcome = Decided(decision: Decision, hashes: map<nat, nat>) | ConstructorRaised

  predicate ByOrder(a: Signal, b: Signal) {
    a.order < b.order || (a.order == b.order && a.id <= b.id)
  }

  /** All four fields are texts. */
  function TextsOf(p: Payload): Option<LevelTexts> {
    if p.direction.None? || p.entry.None? || p.stop.None? || p.target.None? then None
    else Some(LevelTexts(p.direction.value, p.entry.value, p.stop.value, p.target.value))
  }

  /** What the constructor of a READY decision accepts. */
  predicate Acceptable(t: LevelTexts) {
    t.direction != OtherDirection && t.entry.FixedPoint? && t.stop.FixedPoint? && t.target.FixedPoint?
  }

  function LevelsIn(t: LevelTexts): Levels
    requires Acceptable(t)
  {
    Levels(if t.direction == LongText then Long else Short, t.entry.value, t.stop.value, t.target.value)
  }

  predicate Raises(v: Verdict) { v.Carries? && !Acceptable(v.texts) }

  function DecisionOf(v: Verdict): Decision
    requires !Raises(v)
  {
    if v.Stops? then v.decision else Ready(LevelsIn(v.texts))
  }

  /** Why a signal stops the decision, if it does. */
  function Blocks(s: Signal, observations: map<nat, Observation>): Option<Stop> {
    if !s.required then None
    else if s.id !in observations || observations[s.id].status == NotAvailable then Some(Unavailable(s.id))
    else if observations[s.id].status == Fail then Some(NoTrade(s.id))
    else if s.effect == ReadLevels && TextsOf(observations[s.id].payload).None? then Some(Unavailable(s.id))
    else None
  }

  /** The first reason to stop among ordered signals. */
  function FirstBlock(signals: seq<Signal>, observations: map<nat, Observation>): Option<Stop> {
    if signals == [] then None
    else
      var before := FirstBlock(signals[..|signals| - 1], observations);
      if before.Some? then before else Blocks(signals[|signals| - 1], observations)
  }

  /** How many signals are looked at: all up to and including the first that stops the decision. */
  function Consulted(signals: seq<Signal>, observations: map<nat, Observation>): (n: nat)
    ensures n <= |signals| && (FirstBlock(signals, observations).None? ==> n == |signals|)
    ensures FirstBlock(signals, observations).Some? ==>
      n > 0 && FirstBlock(signals[..n - 1], observations) == None && Blocks(signals[n - 1], observations).Some?
  {
    if signals == [] then 0
    else
      var front := signals[..|signals| - 1];
      if FirstBlock(front, observations).None? then |signals|
      else
        assert forall n: nat :: n <= |front| ==> signals[..n] == front[..n];
        Consulted(front, observations)
  }

  /** The hashes of all observations of the first `n` signals, and no others. */
  ghost predicate HashesOf(hashes: map<nat, nat>, signals: seq<Signal>, observations: map<nat, Observation>, n: nat) {
    && (forall id :: id in hashes ==> id in observations && hashes[id] == observations[id].hash)
    && (forall id :: id in hashes ==> exists k :: 0 <= k < n && k < |signals| && signals[k].id == id)
    && (forall k :: 0 <= k < n && k < |signals| && signals[k].id in observations ==> signals[k].id in hashes)
  }

  lemma NoHashes(signals: seq<Signal>, observations: map<nat, Observation>)
    ensures HashesOf(map[], signals, observations, 0)
  {
  }

  lemma HashesNext(hashes: map<nat, nat>, signals: seq<Signal>, observations: map<nat, Observation>, n: nat, id: nat)
    requires HashesOf(hashes, signals, observations, n) && n < |signals| && id == signals[n].id
    ensures id !in observations ==> HashesOf(hashes, signals, observations, n + 1)
    ensures id in observations ==> HashesOf(hashes[id := observations[id].hash], signals, observations, n + 1)
  {
  }

  lemma {:induction false} ConsultedAt(signals: seq<Signal>, observations: map<nat, Observation>, n: nat)
    requires 0 < n <= |signals| && FirstBlock(signals[..n - 1], observations) == None
    requires Blocks(signals[n - 1], observations).Some?
    ensures Consulted(signals, observations) == n
    decreases |signals|
  {
    var front := signals[..|signals| - 1];
    if n < |signals| {
      assert front[..n - 1] == signals[..n - 1];
      ConsultedAt(front, observations, n);
    }
  }

  predicate Reads(s: Signal, observations: map<nat, Observation>) {
    s.required && s.effect == ReadLevels && s.id in observations
  }

  /** The level texts of the last required signal that supplies them. */
  function LastTexts(signals: seq<Signal>, observations: map<nat, Observation>): Option<LevelTexts> {
    if signals == [] then None
    else
      var s := signals[|signals| - 1];
      if Reads(s, observations) then TextsOf(observations[s.id].payload)
      else LastTexts(signals[..|signals| - 1], observations)
  }

  function OrderedVerdict(signals: seq<Signal>, observations: map<nat, Observation>): Verdict {
    var block, texts := FirstBlock(signals, observations), LastTexts(signals, observations);
    if block.Some? then Stops(block.value)
    else if texts.Some? then Carries(texts.value) else Stops(Unavailable(DECISION_LEVELS))
  }

  class OrderedDecisionPlugin {
    const signals: seq<Signal>

    constructor (signals: seq<Signal>)
      ensures this.signals == Sort(ByOrder, signals) && multiset(this.signals) == multiset(signals)
      ensures forall j, k :: 0 <= j < k < |this.signals| ==>
        || this.signals[j].order < this.signals[k].order
        || (this.signals[j].order == this.signals[k].order && this.signals[j].id <= this.signals[k].id)
    {
      this.signals := Sort(ByOrder, signals);
      new;
      ByOrderTotal();
      SortSorts(ByOrder, signals);
      SortPermutes(ByOrder, signals);
    }

    /** The hashes are those of the observations met until the decision stopped. */
    method Decide(observations: map<nat, Observation>) returns (outcome: Outcome)
      ensures outcome.ConstructorRaised? <==> Raises(OrderedVerdict(signals, observations))
      ensures outcome.Decided? ==> outcome.decision == DecisionOf(OrderedVerdict(signals, observations))
      ensures outcome.Decided? ==> HashesOf(outcome.hashes, signals, observations, Consulted(signals, observations))
      ensures forall k: nat :: StopsAt(signals, observations, k) ==>
        var id := signals[k].id;
        && outcome.Decided? && HashesOf(outcome.hashes, signals, observations, k + 1)
        && outcome.decision ==
             if id in observations && observations[id].status == Fail then NoTrade(id) else Unavailable(id)
      ensures AllAccept(signals, observations) && outcome.Decided? ==>
        HashesOf(outcome.hashes, signals, observations, |signals|)
      ensures forall id :: outcome.Decided? && outcome.decision == NoTrade(id) <==>
        exists k: nat ::
          && StopsAt(signals, observations, k) && signals[k].id == id
          && id in observations && observations[id].status == Fail
      ensures forall id :: outcome.Decided? && outcome.decision == Unavailable(id) <==>
        || (exists k: nat ::
              && StopsAt(signals, observations, k) && signals[k].id == id
              && (id !in observations || observations[id].status == NotAvailable
                  || (observations[id].status == Pass && !FourTexts(observations[id].payload))))
        || (id == DECISION_LEVELS && AllAccept(signals, observations) && NoneRead(signals))
    {
      hide HashesOf, StopsAt, NoneRead, FourTexts, Acceptable;
      outcome := Compose(observations);
      forall id {
        RefusalsMean(signals, observations, id);
      }
      forall k: nat | StopsAt(signals, observations, k)
        ensures Consulted(signals, observations) == k + 1
        ensures OrderedVerdict(signals, observations).Stops?
        ensures var id := signals[k].id;
          DecisionOf(OrderedVerdict(signals, observations)) ==
            if id in observations && observations[id].status == Fail then NoTrade(id) else Unavailable(id)
      {
        StopOutcome(signals, observations, k);
      }
      NothingBlocks(signals, observations);
    }

    /** One signal after the other. */
    method Compose(observations: map<nat, Observation>) returns (outcome: Outcome)
      ensures outcome.ConstructorRaised? <==> Raises(OrderedVerdict(signals, observations))
      ensures outcome.Decided? ==> outcome.decision == DecisionOf(OrderedVerdict(signals, observations))
      ensures outcome.Decided? ==> HashesOf(outcome.hashes, signals, observations, Consulted(signals, observations))
    {
      hide HashesOf;
      NoHashes(signals, observations);
      var hashes: map<nat, nat>, texts: Option<LevelTexts> := map[], None;
      for k := 0 to |signals|
        invariant FirstBlock(signals[..k], observations) == None && texts == LastTexts(signals[..k], observations)
        invariant HashesOf(hashes, signals, observations, k)
      {
        assert signals[..k + 1][..k] == signals[..k];
        var s := signals[k];
        HashesNext(hashes, signals, observations, k, s.id);
        if s.id in observations {
          hashes := hashes[s.id := observations[s.id].hash];
        }
        if !s.required {
          continue;
        }
        var block := Blocks(s, observations);
        if block.Some? {
          BlockStays(signals, k + 1, observations);
          ConsultedAt(signals, observations, k + 1);
          return Decided(block.value, hashes);
        }
        if s.effect == ReadLevels {
          texts := TextsOf(observations[s.id].payload);
        }
      }
      assert signals[..|signals|] == signals;
      if texts.Some? {
        return if Acceptable(texts.value) then Decided(Ready(LevelsIn(texts.value)), hashes) else ConstructorRaised;
      }
      return Decided(Unavailable(DECISION_LEVELS), hashes);
    }
  }

  lemma {:induction false} BlockStays(signals: seq<Signal>, k: nat, observations: map<nat, Observation>)
    requires k <= |signals| && FirstBlock(signals[..k], observations).Some?
    ensures FirstBlock(signals, observations) == FirstBlock(signals[..k], observations)
    decreases |signals|
  {
    if k < |signals| {
      var front := signals[..|signals| - 1];
      assert front[..k] == signals[..k];
      BlockStays(front, k, observations);
    } else {
      assert signals[..k] == signals;
    }
  }

  // ----- What a decision means

  /** The signal is not required, or passes, with four texts where it is read for levels. */
  predicate Accepts(s: Signal, observations: map<nat, Observation>) {
    s.required ==>
      && s.id in observations && observations[s.id].status == Pass
      && (s.effect == ReadLevels ==> FourTexts(observations[s.id].payload))
  }

  predicate FourTexts(p: Payload) {
    p.direction.Some? && p.entry.Some? && p.stop.Some? && p.target.Some?
  }

  /** Signal `k` is the first that does not accept. */
  predicate StopsAt(signals: seq<Signal>, observations: map<nat, Observation>, k: nat) {
    && k < |signals| && !Accepts(signals[k], observations)
    && forall j :: 0 <= j < k ==> Accepts(signals[j], observations)
  }

  lemma {:induction false} NothingBlocks(signals: seq<Signal>, observations: map<nat, Observation>)
    ensures FirstBlock(signals, observations).None?
      <==> forall k :: 0 <= k < |signals| ==> Accepts(signals[k], observations)
  {
    if signals != [] {
      NothingBlocks(signals[..|signals| - 1], observations);
    }
  }

  /** Signal `k` is the last one read for levels. */
  ghost predicate ReadLast(signals: seq<Signal>, observations: map<nat, Observation>, k: nat) {
    && k < |signals| && Reads(signals[k], observations)
    && forall j :: k < j < |signals| ==> !Reads(signals[j], observations)
  }

  lemma {:induction false} LastReader(signals: seq<Signal>, observations: map<nat, Observation>)
    ensures LastTexts(signals, observations).Some? ==> exists k: nat :: ReadLast(signals, observations, k)
    ensures forall k: nat :: ReadLast(signals, observations, k) ==>
              LastTexts(signals, observations) == TextsOf(observations[signals[k].id].payload)
  {
    if signals != [] {
      var n, front := |signals| - 1, signals[..|signals| - 1];
      if Reads(signals[n], observations) {
        assert ReadLast(signals, observations, n);
      } else {
        LastReader(front, observations);
        assert forall k: nat :: ReadLast(signals, observations, k) <==> ReadLast(front, observations, k);
      }
    }
  }

  lemma StopOutcome(signals: seq<Signal>, observations: map<nat, Observation>, k: nat)
    requires StopsAt(signals, observations, k)
    ensures var id := signals[k].id;
      && Consulted(signals, observations) == k + 1
      && OrderedVerdict(signals, observations) ==
           if id in observations && observations[id].status == Fail then Stops(NoTrade(id)) else Stops(Unavailable(id))
  {
    NothingBlocks(signals[..k], observations);
    assert signals[..k + 1][..k] == signals[..k];
    BlockStays(signals, k + 1, observations);
    ConsultedAt(signals, observations, k + 1);
  }

  lemma SomeStop(signals: seq<Signal>, observations: map<nat, Observation>) returns (k: nat)
    requires exists i :: 0 <= i < |signals| && !Accepts(signals[i], observations)
    ensures StopsAt(signals, observations, k)
  {
    k := 0;
    while Accepts(signals[k], observations)
      invariant k < |signals| && forall j :: 0 <= j < k ==> Accepts(signals[j], observations)
      decreases |signals| - k
    {
      k := k + 1;
    }
  }

  predicate AllAccept(signals: seq<Signal>, observations: map<nat, Observation>) {
    forall k :: 0 <= k < |signals| ==> Accepts(signals[k], observations)
  }

  /** No required signal is read for levels. */
  predicate NoneRead(signals: seq<Signal>) {
    forall k :: 0 <= k < |signals| ==> !(signals[k].required && signals[k].effect == ReadLevels)
  }

  /** Signal `k` is the last required one that is read for levels. */
  predicate LastRead(signals: seq<Signal>, k: nat) {
    && k < |signals| && signals[k].required && signals[k].effect == ReadLevels
    && forall j :: k < j < |signals| ==> !(signals[j].required && signals[j].effect == ReadLevels)
  }

  lemma {:induction false} NoTexts(signals: seq<Signal>, observations: map<nat, Observation>)
    requires AllAccept(signals, observations)
    ensures NoneRead(signals) ==> OrderedVerdict(signals, observations) == Stops(Unavailable(DECISION_LEVELS))
    ensures !NoneRead(signals) ==> OrderedVerdict(signals, observations).Carries?
  {
    NothingBlocks(signals, observations);
    NothingToRead(signals, observations);
  }

  lemma {:induction false} NothingToRead(signals: seq<Signal>, observations: map<nat, Observation>)
    requires AllAccept(signals, observations)
    ensures LastTexts(signals, observations).None? <==> NoneRead(signals)
  {
    if signals != [] {
      var s := signals[|signals| - 1];
      assert Accepts(s, observations);
      NothingToRead(signals[..|signals| - 1], observations);
    }
  }

  /** Where all signals accept, the texts of the last one read for levels decide: a direction that is neither of the two
      or a price that is not fixed-point is refused by the constructor, and others are the READY decision's levels. */
  lemma ReadyOutcome(signals: seq<Signal>, observations: map<nat, Observation>, k: nat)
    requires AllAccept(signals, observations) && LastRead(signals, k)
    ensures signals[k].id in observations && FourTexts(observations[signals[k].id].payload)
    ensures var v, p := OrderedVerdict(signals, observations), observations[signals[k].id].payload;
      var refused := p.direction == Some(OtherDirection) || OtherText in [p.entry.value, p.stop.value, p.target.value];
      && (Raises(v) <==> refused)
      && (!refused ==>
            DecisionOf(v) == Ready(Levels(if p.direction == Some(LongText) then Long else Short, p.entry.value.value,
                                          p.stop.value.value, p.target.value.value)))
  {
    NothingBlocks(signals, observations);
    LastReader(signals, observations);
    assert Accepts(signals[k], observations) && ReadLast(signals, observations, k);
  }

  /** Each refusal and its reason. NO_TRADE names the first signal that does not accept if it was observed to fail.
      UNAVAILABLE names it if it is missing or not available or passes without four texts; and where all accept and none
      is read for levels it names the levels. */
  lemma RefusalsMean(signals: seq<Signal>, observations: map<nat, Observation>, id: nat)
    ensures OrderedVerdict(signals, observations) == Stops(NoTrade(id)) <==>
      exists k: nat ::
        && StopsAt(signals, observations, k) && signals[k].id == id
        && id in observations && observations[id].status == Fail
    ensures OrderedVerdict(signals, observations) == Stops(Unavailable(id)) <==>
      || (exists k: nat ::
            && StopsAt(signals, observations, k) && signals[k].id == id
            && (id !in observations || observations[id].status == NotAvailable
                || (observations[id].status == Pass && !FourTexts(observations[id].payload))))
      || (id == DECISION_LEVELS && AllAccept(signals, observations) && NoneRead(signals))
  {
    hide OrderedVerdict;
    if AllAccept(signals, observations) {
      NoTexts(signals, observations);
    } else {
      var k := SomeStop(signals, observations);
      StopOutcome(signals, observations, k);
      assert forall j: nat :: StopsAt(signals, observations, j) ==> j == k;
    }
  }

  /** READY texts, accepted by the constructor or not, mean that every signal accepts; they are those of the last
      signal read for levels, which passes. */
  lemma CarriesMeans(signals: seq<Signal>, observations: map<nat, Observation>, t: LevelTexts)
    ensures OrderedVerdict(signals, observations) == Carries(t) <==>
      && (forall k :: 0 <= k < |signals| ==> Accepts(signals[k], observations))
      && exists k: nat :: ReadLast(signals, observations, k) && TextsOf(observations[signals[k].id].payload) == Some(t)
  {
    NothingBlocks(signals, observations);
    LastReader(signals, observations);
  }

  /** `decide` raises exactly if every signal accepts and the last one read for levels has a direction other than
      the two, or a price text that is not non-negative fixed-point. */
  lemma RaisesMeans(signals: seq<Signal>, observations: map<nat, Observation>)
    ensures Raises(OrderedVerdict(signals, observations)) <==>
      && (forall k :: 0 <= k < |signals| ==> Accepts(signals[k], observations))
      && exists k: nat ::
           ReadLast(signals, observations, k) && !Acceptable(TextsOf(observations[signals[k].id].payload).value)
  {
    NothingBlocks(signals, observations);
    LastReader(signals, observations);
    forall k: nat | ReadLast(signals, observations, k) && Accepts(signals[k], observations)
      ensures TextsOf(observations[signals[k].id].payload).Some?
    {
    }
  }

  /** Instances: a direction that is a text but neither of the two, and a price in scientific notation. */
  lemma RaisingInstances()
    ensures var signals := [Signal.Signal(7, true, ReadLevels, 0)];
      var buy := Payload(Some(OtherDirection), Some(FixedPoint(5.0)), Some(FixedPoint(4.0)), Some(FixedPoint(9.0)));
      var scientific := Payload(Some(LongText), Some(OtherText), Some(FixedPoint(4.0)), Some(FixedPoint(9.0)));
      && Raises(OrderedVerdict(signals, map[7 := Observation(Pass, buy, 0)]))
      && Raises(OrderedVerdict(signals, map[7 := Observation(Pass, scientific, 0)]))
  {
    var buy := Payload(Some(OtherDirection), Some(FixedPoint(5.0)), Some(FixedPoint(4.0)), Some(FixedPoint(9.0)));
    var scientific := Payload(Some(LongText), Some(OtherText), Some(FixedPoint(4.0)), Some(FixedPoint(9.0)));
    OneSignalRaises(Signal.Signal(7, true, ReadLevels, 0), buy, 0);
    OneSignalRaises(Signal.Signal(7, true, ReadLevels, 0), scientific, 0);
  }

  lemma OneSignalRaises(s: Signal, payload: Payload, hash: nat)
    requires s.required && s.effect == ReadLevels && TextsOf(payload).Some? && !Acceptable(TextsOf(payload).value)
    ensures Raises(OrderedVerdict([s], map[s.id := Observation(Pass, payload, hash)]))
  {
    var observations := map[s.id := Observation(Pass, payload, hash)];
    RaisesMeans([s], observations);
    assert ReadLast([s], observations, 0);
  }

  predicate DistinctIds(signals: seq<Signal>) {
    forall i, j :: 0 <= i < j < |signals| ==> signals[i].id != signals[j].id
  }

  /** The decision does not depend on the order in which the signals are configured. */
  lemma DecisionIndependent(a: seq<Signal>, b: seq<Signal>, observations: map<nat, Observation>)
    requires DistinctIds(a) && multiset(a) == multiset(b)
    ensures OrderedVerdict(Sort(ByOrder, a), observations) == OrderedVerdict(Sort(ByOrder, b), observations)
  {
    SortPermutes(ByOrder, a);
    SortPermutes(ByOrder, b);
    ByOrderTotal();
    SortSorts(ByOrder, a);
    SortSorts(ByOrder, b);
    SameElements(Sort(ByOrder, a), a);
    forall x, y | x in Sort(ByOrder, a) && y in Sort(ByOrder, a) ensures Antisym(ByOrder, x, y) {
      assert x in a && y in a;
    }
    SortedUnique(ByOrder, Sort(ByOrder, a), Sort(ByOrder, b));
  }

  lemma ByOrderTotal()
    ensures TotalPreorder(ByOrder)
  {
  }

  // ----- From the gate to the record

  /** The text of an exact price: a negative one has a sign, which fixed-point syntax does not admit. */
  function Rendered(x: real): PriceText { if x >= 0.0 then FixedPoint(x) else OtherText }

  /** The level fields of the risk gate's payload. */
  function RiskPayload(risk: RiskObservation): Payload {
    if risk.levels.None? then Payload(None, None, None, None)
    else
      var l := risk.levels.value;
      Payload(Some(if l.direction == Long then LongText else ShortText), Some(Rendered(l.entry)),
              Some(Rendered(l.stop)),
              Some(Rendered(l.target)))
  }

  /** Every signal read for levels reports what the risk gate observed. */
  ghost predicate LevelsFromRisk(signals: seq<Signal>, observations: map<nat, Observation>, risk: RiskObservation) {
    forall k :: 0 <= k < |signals| && signals[k].effect == ReadLevels && signals[k].id in observations ==>
      observations[signals[k].id].status == risk.status && observations[signals[k].id].payload == RiskPayload(risk)
  }

  /** Levels from the risk gate are never refused, and a READY decision carries exactly them. */
  lemma GateIsNeverRefused(signals: seq<Signal>, observations: map<nat, Observation>, minimum: real, bars: seq<Bar>,
                           liquidity: Liquidity, gap: Gap, risk: RiskObservation)
    requires Evaluate(minimum, bars, liquidity, gap) == Observed(risk) && LevelsFromRisk(signals, observations, risk)
    ensures !Raises(OrderedVerdict(signals, observations))
    ensures OrderedVerdict(signals, observations).Carries? ==>
      Passes(Observed(risk)) && DecisionOf(OrderedVerdict(signals, observations)) == Ready(risk.levels.value)
  {
    var v := OrderedVerdict(signals, observations);
    if v.Carries? {
      CarriesMeans(signals, observations, v.texts);
      var k: nat :| ReadLast(signals, observations, k) && TextsOf(observations[signals[k].id].payload) == Some(v.texts);
      assert Accepts(signals[k], observations);
    }
  }

  /** With levels from the risk gate carried into a READY decision, the prices are ordered by direction, a stop
      loses at least one R, a target earns at least the configured minimum, and costs only take away. */
  lemma ReadyTradesPay(signals: seq<Signal>, observations: map<nat, Observation>, minimum: real, bars: seq<Bar>,
                       liquidity: Liquidity, gap: Gap, risk: RiskObservation, rules: Rules, f: Fate)
    requires Evaluate(minimum, bars, liquidity, gap) == Observed(risk) && LevelsFromRisk(signals, observations, risk)
    requires Costed(rules)
    requires gap.lower.Some? && gap.upper.Some? && gap.lower.value < gap.upper.value
    requires var v := OrderedVerdict(signals, observations);
      f.Ended? && !Raises(v) && DecisionOf(v) == Ready(LevelsOf(f))
    ensures Directional(LevelsOf(f)) && Recordable(f)
    ensures var a := RecordOf(rules, f).accounting;
      && (f.reason == StopHit ==> a.grossR <= -1.0)
      && (f.reason == TargetHit ==> a.grossR >= minimum)
      && a.netR <= a.grossR
  {
    var levels := LevelsOf(f);
    GateIsNeverRefused(signals, observations, minimum, bars, liquidity, gap, risk);
    PassMeans(minimum, bars, liquidity, gap);
    PassRelies(minimum, bars, liquidity, gap);
    ExitsInR(rules, f);
    BaseExitNonNegative(f);
    NetNeverBeatsGross(rules, levels, RequestedExit(f), BaseExit(f));
  }

  lemma BaseExitNonNegative(f: Fate)
    requires f.Ended? && LevelsOf(f).stop >= 0.0 && LevelsOf(f).target >= 0.0
    ensures BaseExit(f) >= 0.0
  {
  }
}
