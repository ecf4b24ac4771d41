/** Ordinary fair value gaps: the one-pass list of mutable gaps against its declarative meaning. */
module FairValueGaps {
  import opened Sequences
  import opened Candles
  import opened Averages

  datatype Side = Bullish | Bearish

  datatype GapState = Active | Partial | Full

  datatype GapView = GapView(side: Side, lower: real, upper: real, event: nat, known: nat, state: GapState)

  function Bodies(bars: seq<Bar>): (r: seq<real>)
    ensures |r| == |bars|
    ensures forall i :: 0 <= i < |bars| ==> r[i] == Abs(bars[i].close - bars[i].open)
  {
    seq(|bars|, i requires 0 <= i < |bars| => Abs(bars[i].close - bars[i].open))
  }

  /** Detection settings: the body average's length and whether displacement is required. */
  datatype Settings = Settings(length: nat, requireDisplacement: bool)

  predicate Usable(settings: Settings) {
    settings.length >= 1
  }

  /** A bar whose body exceeds its running mean and whose wicks are short. */
  predicate LargeBody(bar: Bar, mean: Option<real>) {
    var body := Abs(bar.close - bar.open);
    var limit := body * 0.36;
    && mean.Some? && body > mean.value
    && bar.high - Max(bar.close, bar.open) < limit
    && Min(bar.close, bar.open) - bar.low < limit
  }

  /** Bar `i` leaves a gap to bar `i - 2` on the given side. */
  predicate Imbalance(settings: Settings, bars: seq<Bar>, side: Side, i: nat)
    requires Usable(settings)
  {
    2 <= i < |bars| &&
    var middle, mean := bars[i - 1], WindowMean(Bodies(bars), settings.length, i - 1);
    match side
    case Bullish =>
      && bars[i].low > bars[i - 2].high
      && ((LargeBody(middle, mean) && middle.close > middle.open) || !settings.requireDisplacement)
    case Bearish =>
      && bars[i].high < bars[i - 2].low
      && ((LargeBody(middle, mean) && middle.close < middle.open) || !settings.requireDisplacement)
  }

  /** A bar cannot leave a gap on both sides. */
  lemma OneSided(settings: Settings, bars: seq<Bar>, i: nat)
    requires Usable(settings)
    ensures !(Imbalance(settings, bars, Bullish, i) && Imbalance(settings, bars, Bearish, i))
  {
  }

  // ----- The declarative meaning

  function Lower(bars: seq<Bar>, side: Side, b: nat): real
    requires 2 <= b < |bars|
  {
    if side == Bullish then bars[b - 2].high else bars[b].high
  }

  function Upper(bars: seq<Bar>, side: Side, b: nat): real
    requires 2 <= b < |bars|
  {
    if side == Bullish then bars[b].low else bars[b - 2].low
  }

  /** The bar trades strictly through the far side. */
  predicate Traverses(side: Side, lower: real, upper: real, bar: Bar) {
    if side == Bullish then bar.low < lower else bar.high > upper
  }

  /** The bar trades strictly into the gap. */
  predicate Enters(side: Side, lower: real, upper: real, bar: Bar) {
    if side == Bullish then bar.low < upper else bar.high > lower
  }

  /** The first bar from `k` on, before `n`, that trades through the gap, or `n`. */
  function FirstThrough(bars: seq<Bar>, side: Side, lower: real, upper: real, k: nat, n: nat): (r: nat)
    requires k <= n <= |bars|
    ensures k <= r <= n
    ensures forall j :: k <= j < r ==> !Traverses(side, lower, upper, bars[j])
    ensures r < n ==> Traverses(side, lower, upper, bars[r])
    decreases n - k
  {
    if k == n || Traverses(side, lower, upper, bars[k]) then k else FirstThrough(bars, side, lower, upper, k + 1, n)
  }

  /** The first bar from `k` on, before `n`, that enters the gap, or `n`. */
  function FirstInto(bars: seq<Bar>, side: Side, lower: real, upper: real, k: nat, n: nat): (r: nat)
    requires k <= n <= |bars|
    ensures k <= r <= n
    ensures forall j :: k <= j < r ==> !Enters(side, lower, upper, bars[j])
    ensures r < n ==> Enters(side, lower, upper, bars[r])
    decreases n - k
  {
    if k == n || Enters(side, lower, upper, bars[k]) then k else FirstInto(bars, side, lower, upper, k + 1, n)
  }

  /** The gap left at bar `b`, as known after `n` bars. */
  function Declared(bars: seq<Bar>, side: Side, b: nat, n: nat): GapView
    requires 2 <= b < n <= |bars|
  {
    var lower, upper := Lower(bars, side, b), Upper(bars, side, b);
    var through, into := FirstThrough(bars, side, lower, upper, b + 1, n),
                         FirstInto(bars, side, lower, upper, b + 1, n);
    if through < n then GapView(side, lower, upper, b, through, Full)
    else if into < n then GapView(side, lower, upper, b, into, Partial)
    else GapView(side, lower, upper, b, b, Active)
  }

  /** The side of each bar's imbalance, if it has one. */
  function Marks(settings: Settings, bars: seq<Bar>): (r: seq<Option<Side>>)
    requires Usable(settings)
    ensures |r| == |bars|
    ensures forall i, side :: 0 <= i < |bars| ==> (r[i] == Some(side) <==> Imbalance(settings, bars, side, i))
  {
    seq(|bars|, i requires 0 <= i < |bars| =>
      if Imbalance(settings, bars, Bullish, i) then Some(Bullish)
      else if Imbalance(settings, bars, Bearish, i) then Some(Bearish)
      else None)
  }

  /** Marks that only ever name a bar whose gap has its lower bound below its upper bound. */
  ghost predicate Marking(bars: seq<Bar>, marks: seq<Option<Side>>) {
    && |marks| == |bars|
    && forall i :: 0 <= i < |marks| && marks[i].Some? ==>
         2 <= i && Lower(bars, marks[i].value, i) < Upper(bars, marks[i].value, i)
  }

  lemma MarksMark(settings: Settings, bars: seq<Bar>)
    requires Usable(settings)
    ensures Marking(bars, Marks(settings, bars))
  {
    var marks := Marks(settings, bars);
    forall i | 0 <= i < |marks| && marks[i].Some?
      ensures 2 <= i && Lower(bars, marks[i].value, i) < Upper(bars, marks[i].value, i)
    {
      assert Imbalance(settings, bars, marks[i].value, i);
    }
  }

  /** Bar `b`, among the first `n`, is the last so far of a run of consecutive imbalances on one side. */
  predicate RunEnds(marks: seq<Option<Side>>, b: nat, n: nat)
    requires b < n <= |marks|
  {
    marks[b].Some? && (b + 1 == n || marks[b + 1] != marks[b])
  }

  /** The gap of the run that ends at bar `b`, if one does. */
  ghost function RunGap(bars: seq<Bar>, marks: seq<Option<Side>>, b: nat, n: nat): (r: seq<GapView>)
    requires Marking(bars, marks) && b < n <= |bars|
    ensures |r| <= 1
  {
    if RunEnds(marks, b, n) then [Declared(bars, marks[b].value, b, n)] else []
  }

  /** The gaps of all runs ending before bar `top`, newest first, as known after `n` bars. */
  ghost function Gaps(bars: seq<Bar>, marks: seq<Option<Side>>, top: nat, n: nat): seq<GapView>
    requires Marking(bars, marks) && top <= n <= |bars|
  {
    if top == 0 then [] else RunGap(bars, marks, top - 1, n) + Gaps(bars, marks, top - 1, n)
  }

  // ----- One bar's effect

  /** What bar `i` does to a gap. */
  function Touch(v: GapView, bar: Bar, i: nat): GapView {
    if v.state == Full then v
    else if Traverses(v.side, v.lower, v.upper, bar) then v.(state := Full, known := i)
    else if Enters(v.side, v.lower, v.upper, bar) && v.state == Active then v.(state := Partial, known := i)
    else v
  }

  function TouchAll(vs: seq<GapView>, bar: Bar, i: nat): (r: seq<GapView>)
    ensures |r| == |vs|
    ensures forall j :: 0 <= j < |vs| ==> r[j] == Touch(vs[j], bar, i)
  {
    seq(|vs|, j requires 0 <= j < |vs| => Touch(vs[j], bar, i))
  }

  lemma DeclaredStep(bars: seq<Bar>, side: Side, b: nat, n: nat)
    requires 2 <= b < n < |bars| && Lower(bars, side, b) < Upper(bars, side, b)
    ensures Declared(bars, side, b, n + 1) == Touch(Declared(bars, side, b, n), bars[n], n)
  {
    var lower, upper := Lower(bars, side, b), Upper(bars, side, b);
    var through, through' := FirstThrough(bars, side, lower, upper, b + 1, n),
                             FirstThrough(bars, side, lower, upper, b + 1, n + 1);
    var into, into' := FirstInto(bars, side, lower, upper, b + 1, n), FirstInto(bars, side, lower, upper, b + 1, n + 1);
    assert through' == if through < n then through else if Traverses(side, lower, upper, bars[n]) then n else n + 1;
    assert into' == if into < n then into else if Enters(side, lower, upper, bars[n]) then n else n + 1;
  }

  lemma TouchAllConcat(a: seq<GapView>, b: seq<GapView>, bar: Bar, i: nat)
    ensures TouchAll(a + b, bar, i) == TouchAll(a, bar, i) + TouchAll(b, bar, i)
  {
  }

  /** Runs that ended before the last bar stay as they are; each gap is touched by bar `n`. */
  lemma {:induction false} GapsStep(bars: seq<Bar>, marks: seq<Option<Side>>, top: nat, n: nat, next: nat)
    requires Marking(bars, marks) && top < n && next == n + 1 <= |bars|
    ensures Gaps(bars, marks, top, next) == TouchAll(Gaps(bars, marks, top, n), bars[n], n)
  {
    hide Marking, RunGap, TouchAll;
    if top > 0 {
      var b: nat := top - 1;
      GapsStep(bars, marks, b, n, next);
      RunGapStep(bars, marks, b, n, next);
      TouchAllConcat(Staying(bars, marks, b, n), Gaps(bars, marks, b, n), bars[n], n);
    }
  }

  /** The gap of the run that ended at bar `b`, unless bar `n` carries that run on. */
  ghost function Staying(bars: seq<Bar>, marks: seq<Option<Side>>, b: nat, n: nat): seq<GapView>
    requires Marking(bars, marks) && b < n < |bars|
  {
    if b + 1 == n && marks[n].Some? && marks[b] == marks[n] then [] else RunGap(bars, marks, b, n)
  }

  /** The gaps that bar `n` leaves in place: all of them, or all but the one its run moves on. */
  ghost function Untouched(bars: seq<Bar>, marks: seq<Option<Side>>, last: nat, n: nat): seq<GapView>
    requires Marking(bars, marks) && n == last + 1 < |bars|
  {
    var staying, older := Staying(bars, marks, last, n), Gaps(bars, marks, last, n);
    staying + older
  }

  lemma UntouchedStep(bars: seq<Bar>, marks: seq<Option<Side>>, last: nat, n: nat, next: nat)
    requires Marking(bars, marks) && n == last + 1 && next == n + 1 <= |bars|
    ensures Gaps(bars, marks, n, next) == TouchAll(Untouched(bars, marks, last, n), bars[n], n)
  {
    var after := RunGap(bars, marks, last, next) + Gaps(bars, marks, last, next);
    assert Gaps(bars, marks, n, next) == after;
    GapsStep(bars, marks, last, n, next);
    RunGapStep(bars, marks, last, n, next);
    TouchAllConcat(Staying(bars, marks, last, n), Gaps(bars, marks, last, n), bars[n], n);
  }

  /** A run that goes on at bar `n` gives up its gap; the others' gaps are touched. */
  lemma RunGapStep(bars: seq<Bar>, marks: seq<Option<Side>>, b: nat, n: nat, next: nat)
    requires Marking(bars, marks) && b < n && next == n + 1 <= |bars|
    ensures RunGap(bars, marks, b, next) == TouchAll(Staying(bars, marks, b, n), bars[n], n)
  {
    if marks[b].Some? {
      DeclaredStep(bars, marks[b].value, b, n);
    }
  }

  /** The list after detecting at bar `n`, before the touches: a run that goes on moves its gap to
      bar `n`, a new run puts its gap in front. */
  ghost function Detected(bars: seq<Bar>, marks: seq<Option<Side>>, n: nat): seq<GapView>
    requires Marking(bars, marks) && n < |bars|
  {
    if n == 0 then RunGap(bars, marks, 0, 1) else RunGap(bars, marks, n, n + 1) + Untouched(bars, marks, n - 1, n)
  }

  /** A bar does not touch the gap it leaves. */
  lemma FreshIsUntouched(bars: seq<Bar>, marks: seq<Option<Side>>, n: nat, next: nat)
    requires Marking(bars, marks) && next == n + 1 <= |bars|
    ensures TouchAll(RunGap(bars, marks, n, next), bars[n], n) == RunGap(bars, marks, n, next)
  {
    if marks[n].Some? {
      var gap := Declared(bars, marks[n].value, n, next);
      assert Touch(gap, bars[n], n) == gap;
    }
  }

  lemma DetectedStep(bars: seq<Bar>, marks: seq<Option<Side>>, n: nat, next: nat)
    requires Marking(bars, marks) && next == n + 1 <= |bars|
    ensures Gaps(bars, marks, next, next) == TouchAll(Detected(bars, marks, n), bars[n], n)
  {
    FreshIsUntouched(bars, marks, n, next);
    if n == 0 {
      var now := RunGap(bars, marks, n, next);
      assert now + Gaps(bars, marks, 0, next) == now;
    } else {
      LaterDetectedStep(bars, marks, n - 1, n, next);
    }
  }

  lemma LaterDetectedStep(bars: seq<Bar>, marks: seq<Option<Side>>, last: nat, n: nat, next: nat)
    requires Marking(bars, marks) && n == last + 1 && next == n + 1 <= |bars|
    ensures Gaps(bars, marks, next, next) == TouchAll(Detected(bars, marks, n), bars[n], n)
  {
    hide Marking, RunGap, Staying, Declared, Untouched, Touch, TouchAll;
    var now, untouched := RunGap(bars, marks, n, next), Untouched(bars, marks, last, n);
    FreshIsUntouched(bars, marks, n, next);
    UntouchedStep(bars, marks, last, n, next);
    TouchAllConcat(now, untouched, bars[n], n);
    var detected := now + untouched;
    assert Detected(bars, marks, n) == detected;
    var after := now + Gaps(bars, marks, n, next);
    assert Gaps(bars, marks, next, next) == after;
  }

  /** The gap a bar leaves, as it is when detected. */
  function Left(bars: seq<Bar>, side: Side, n: nat): GapView
    requires 2 <= n < |bars|
  {
    GapView(side, Lower(bars, side, n), Upper(bars, side, n), n, n, Active)
  }

  lemma RunGapIsLeft(bars: seq<Bar>, marks: seq<Option<Side>>, b: nat, n: nat)
    requires Marking(bars, marks) && n == b + 1 <= |bars| && marks[b].Some?
    ensures RunGap(bars, marks, b, n) == [Left(bars, marks[b].value, b)]
  {
  }

  /** The gap of the last bar comes first, still ACTIVE. */
  lemma LastGapFirst(bars: seq<Bar>, marks: seq<Option<Side>>, last: nat, n: nat)
    requires Marking(bars, marks) && n == last + 1 <= |bars| && marks[last].Some?
    ensures Gaps(bars, marks, n, n) == [Left(bars, marks[last].value, last)] + Gaps(bars, marks, last, n)
  {
    RunGapIsLeft(bars, marks, last, n);
    hide RunGap, Declared, Left;
  }

  /** A run that goes on replaces its gap. */
  lemma MovedOn(bars: seq<Bar>, marks: seq<Option<Side>>, last: nat, n: nat)
    requires Marking(bars, marks) && n == last + 1 < |bars| && marks[n].Some? && marks[last] == marks[n]
    ensures Detected(bars, marks, n) == [Left(bars, marks[n].value, n)] + Gaps(bars, marks, last, n)
  {
    hide RunGap, Declared, Left, Gaps, Staying, Untouched, Detected;
    RunGapIsLeft(bars, marks, n, n + 1);
    NothingStays(bars, marks, last, n);
    DetectedLater(bars, marks, last, n);
  }

  lemma DetectedLater(bars: seq<Bar>, marks: seq<Option<Side>>, last: nat, n: nat)
    requires Marking(bars, marks) && n == last + 1 < |bars|
    ensures Detected(bars, marks, n) == RunGap(bars, marks, n, n + 1) + Untouched(bars, marks, last, n)
  {
    hide RunGap, Untouched, Marking;
  }

  lemma NothingStays(bars: seq<Bar>, marks: seq<Option<Side>>, last: nat, n: nat)
    requires Marking(bars, marks) && n == last + 1 < |bars| && marks[n].Some? && marks[last] == marks[n]
    ensures Untouched(bars, marks, last, n) == Gaps(bars, marks, last, n)
  {
    var older := Gaps(bars, marks, last, n);
    hide RunGap, Declared, Gaps;
    assert [] + older == older;
  }

  /** A run that begins puts its gap in front. */
  lemma PutInFront(bars: seq<Bar>, marks: seq<Option<Side>>, n: nat)
    requires Marking(bars, marks) && n < |bars| && marks[n].Some? && (n > 0 ==> marks[n - 1] != marks[n])
    ensures Detected(bars, marks, n) == [Left(bars, marks[n].value, n)] + Gaps(bars, marks, n, n)
  {
    RunGapIsLeft(bars, marks, n, n + 1);
    var before, now := Gaps(bars, marks, n, n), [Left(bars, marks[n].value, n)];
    if n > 0 {
      var untouched := Untouched(bars, marks, n - 1, n);
      assert untouched == before;
    }
  }

  lemma NothingDetected(bars: seq<Bar>, marks: seq<Option<Side>>, n: nat)
    requires Marking(bars, marks) && n < |bars| && marks[n].None?
    ensures Detected(bars, marks, n) == Gaps(bars, marks, n, n)
  {
    assert RunGap(bars, marks, n, n + 1) == [];
    if n > 0 {
      var untouched, before := Untouched(bars, marks, n - 1, n), Gaps(bars, marks, n, n);
      assert untouched == before;
      assert [] + untouched == untouched;
    }
  }

  // ----- The mutable list

  class Gap {
    var side: Side
    var lower: real
    var upper: real
    var event: nat
    var known: nat
    var state: GapState

    constructor (side: Side, lower: real, upper: real, event: nat)
      ensures View() == GapView(side, lower, upper, event, event, Active)
    {
      this.side, this.lower, this.upper := side, lower, upper;
      this.event, this.known, this.state := event, event, Active;
    }

    function View(): GapView
      reads this
    {
      GapView(side, lower, upper, event, known, state)
    }

    /** A continuing run moves the gap to its newest bar. */
    method MoveTo(lower: real, upper: real, event: nat)
      modifies this
      ensures View() == GapView(old(side), lower, upper, event, event, old(state))
    {
      this.lower, this.upper := lower, upper;
      this.event, this.known := event, event;
    }

    method TouchBy(bar: Bar, i: nat)
      modifies this
      ensures View() == Touch(old(View()), bar, i)
    {
      if state == Full {
        return;
      }
      if side == Bullish {
        if bar.low < lower {
          state, known := Full, i;
        } else if bar.low < upper && state == Active {
          state, known := Partial, i;
        }
      } else {
        if bar.high > upper {
          state, known := Full, i;
        } else if bar.high > lower && state == Active {
          state, known := Partial, i;
        }
      }
    }
  }

  ghost predicate Distinct(gaps: seq<Gap>) {
    forall j, k :: 0 <= j < k < |gaps| ==> gaps[j] != gaps[k]
  }

  /** The objects of the list show `views`. */
  ghost predicate Shows(gaps: seq<Gap>, views: seq<GapView>)
    reads gaps
  {
    |gaps| == |views| && Distinct(gaps) && forall j :: 0 <= j < |gaps| ==> gaps[j].View() == views[j]
  }

  method TouchEach(gaps: seq<Gap>, bar: Bar, i: nat, ghost views: seq<GapView>)
    requires Shows(gaps, views)
    modifies gaps
    ensures Shows(gaps, TouchAll(views, bar, i))
  {
    for k := 0 to |gaps|
      invariant forall j :: 0 <= j < k ==> gaps[j].View() == Touch(views[j], bar, i)
      invariant forall j :: k <= j < |gaps| ==> gaps[j].View() == views[j]
    {
      gaps[k].TouchBy(bar, i);
    }
  }

  /** The newest gap on a side, if any. */
  method NewestOn(gaps: seq<Gap>, side: Side) returns (index: Option<nat>)
    ensures index.None? ==> forall j :: 0 <= j < |gaps| ==> gaps[j].side != side
    ensures index.Some? ==> index.value < |gaps| && gaps[index.value].side == side
                            && forall j :: 0 <= j < index.value ==> gaps[j].side != side
  {
    for k := 0 to |gaps|
      invariant forall j :: 0 <= j < k ==> gaps[j].side != side
    {
      if gaps[k].side == side {
        return Some(k);
      }
    }
    return None;
  }

  /** An imbalance on `side` at bar `n`: move the running gap on, or put a new one in front. */
  method Detect(gaps: seq<Gap>, bars: seq<Bar>, side: Side, running: bool, n: nat,
                ghost marks: seq<Option<Side>>)
    returns (newGaps: seq<Gap>)
    requires Marking(bars, marks) && n < |bars| && marks[n] == Some(side)
    requires running == (n > 0 && marks[n - 1] == Some(side))
    requires Shows(gaps, Gaps(bars, marks, n, n))
    modifies gaps
    ensures Shows(newGaps, Detected(bars, marks, n))
    ensures forall j :: 0 <= j < |newGaps| ==> newGaps[j] in gaps || fresh(newGaps[j])
  {
    var existing := NewestOn(gaps, side);
    if running {
      LastGapFirst(bars, marks, n - 1, n);
      MovedOn(bars, marks, n - 1, n);
      assert gaps[0].View().side == side;
      ReplaceFirst(Left(bars, side, n - 1), Left(bars, side, n), Gaps(bars, marks, n - 1, n));
    } else {
      PutInFront(bars, marks, n);
    }
    if running && existing.Some? {
      MoveFirst(gaps, existing.value, Lower(bars, side, n), Upper(bars, side, n), n, Gaps(bars, marks, n, n));
      newGaps := gaps;
    } else {
      var gap := new Gap(side, Lower(bars, side, n), Upper(bars, side, n), n);
      newGaps := AddGap(gaps, gap, Gaps(bars, marks, n, n));
    }
  }

  lemma ReplaceFirst(a: GapView, b: GapView, rest: seq<GapView>)
    ensures ([a] + rest)[0 := b] == [b] + rest
  {
  }

  method MoveFirst(gaps: seq<Gap>, k: nat, lower: real, upper: real, event: nat, ghost views: seq<GapView>)
    requires k == 0 < |gaps| && Shows(gaps, views) && views[0].state == Active
    modifies gaps
    ensures Shows(gaps, views[0 := GapView(views[0].side, lower, upper, event, event, Active)])
  {
    assert gaps[0].View() == views[0];
    gaps[k].MoveTo(lower, upper, event);
    assert forall j :: 0 < j < |gaps| ==> gaps[j].View() == views[j];
  }

  method AddGap(gaps: seq<Gap>, gap: Gap, ghost views: seq<GapView>) returns (newGaps: seq<Gap>)
    requires Shows(gaps, views) && gap !in gaps
    ensures newGaps == [gap] + gaps && Shows(newGaps, [gap.View()] + views)
  {
    newGaps := [gap] + gaps;
    ghost var shown := [gap.View()] + views;
    forall j | 0 <= j < |newGaps|
      ensures newGaps[j].View() == shown[j] && (j > 0 ==> newGaps[j] in gaps && newGaps[j] == gaps[j - 1])
    {
    }
  }

  predicate Open(v: GapView) { v.state != Full }

  /** Newest knowledge first, then newest event. */
  predicate LaterKnown(a: GapView, b: GapView) {
    a.known > b.known || (a.known == b.known && a.event >= b.event)
  }

  ghost function ActiveList(bars: seq<Bar>, marks: seq<Option<Side>>): seq<GapView>
    requires Marking(bars, marks)
  {
    Sort(LaterKnown, Filter(Open, Gaps(bars, marks, |bars|, |bars|)))
  }

  method Snapshot(gaps: seq<Gap>) returns (views: seq<GapView>)
    ensures |views| == |gaps| && forall j :: 0 <= j < |gaps| ==> views[j] == gaps[j].View()
  {
    views := seq(|gaps|, j requires 0 <= j < |gaps| reads gaps => gaps[j].View());
  }

  /** Whether bar `i` shows an imbalance on each side, from the running means. */
  method ImbalanceAt(settings: Settings, bars: seq<Bar>, bodies: seq<real>, means: seq<Option<real>>, i: nat)
    returns (bullish: bool, bearish: bool)
    requires Usable(settings) && 2 <= i < |bars| && bodies == Bodies(bars) && |means| == |bars|
    requires forall j :: 0 <= j < |bars| ==> means[j] == WindowMean(bodies, settings.length, j)
    ensures bullish == Imbalance(settings, bars, Bullish, i) && bearish == Imbalance(settings, bars, Bearish, i)
  {
    var bar, middle, oldest := bars[i], bars[i - 1], bars[i - 2];
    var large := LargeBody(middle, means[i - 1]);
    bullish := bar.low > oldest.high && ((large && middle.close > middle.open) || !settings.requireDisplacement);
    bearish := bar.high < oldest.low && ((large && middle.close < middle.open) || !settings.requireDisplacement);
  }

  /** One bar: its own gap first, then what it does to all gaps. */
  method OnBar(gaps: seq<Gap>, bars: seq<Bar>, bullish: bool, bearish: bool, previousBullish: bool,
               previousBearish: bool, i: nat, ghost marks: seq<Option<Side>>)
    returns (newGaps: seq<Gap>)
    requires Marking(bars, marks) && i < |bars| && Shows(gaps, Gaps(bars, marks, i, i))
    requires bullish == (marks[i] == Some(Bullish)) && bearish == (marks[i] == Some(Bearish))
    requires previousBullish == (i > 0 && marks[i - 1] == Some(Bullish))
    requires previousBearish == (i > 0 && marks[i - 1] == Some(Bearish))
    modifies gaps
    ensures Shows(newGaps, Gaps(bars, marks, i + 1, i + 1))
    ensures forall j :: 0 <= j < |newGaps| ==> newGaps[j] in gaps || fresh(newGaps[j])
  {
    newGaps := DetectAny(gaps, bars, bullish, bearish, previousBullish, previousBearish, i, marks);
    TouchBar(newGaps, bars, i, i + 1, marks);
  }

  method DetectAny(gaps: seq<Gap>, bars: seq<Bar>, bullish: bool, bearish: bool, previousBullish: bool,
                   previousBearish: bool, i: nat, ghost marks: seq<Option<Side>>)
    returns (newGaps: seq<Gap>)
    requires Marking(bars, marks) && i < |bars| && Shows(gaps, Gaps(bars, marks, i, i))
    requires bullish == (marks[i] == Some(Bullish)) && bearish == (marks[i] == Some(Bearish))
    requires previousBullish == (i > 0 && marks[i - 1] == Some(Bullish))
    requires previousBearish == (i > 0 && marks[i - 1] == Some(Bearish))
    modifies gaps
    ensures Shows(newGaps, Detected(bars, marks, i))
    ensures forall j :: 0 <= j < |newGaps| ==> newGaps[j] in gaps || fresh(newGaps[j])
  {
    newGaps := gaps;
    if bullish {
      newGaps := Detect(gaps, bars, Bullish, previousBullish, i, marks);
    } else if bearish {
      newGaps := Detect(gaps, bars, Bearish, previousBearish, i, marks);
    } else {
      NothingDetected(bars, marks, i);
    }
  }

  method TouchBar(gaps: seq<Gap>, bars: seq<Bar>, i: nat, ghost next: nat, ghost marks: seq<Option<Side>>)
    requires Marking(bars, marks) && next == i + 1 <= |bars| && Shows(gaps, Detected(bars, marks, i))
    modifies gaps
    ensures Shows(gaps, Gaps(bars, marks, next, next))
  {
    DetectedStep(bars, marks, i, next);
    TouchEach(gaps, bars[i], i, Detected(bars, marks, i));
  }

  method ActiveGaps(settings: Settings, bars: seq<Bar>) returns (result: seq<GapView>)
    requires Usable(settings)
    ensures Marking(bars, Marks(settings, bars)) && result == ActiveList(bars, Marks(settings, bars))
  {
    MarksMark(settings, bars);
    var marks := MarkEach(settings, bars);
    var gaps := Scan(bars, marks);
    var views := Snapshot(gaps);
    assert views == Gaps(bars, marks, |bars|, |bars|);
    result := Sort(LaterKnown, Filter(Open, views));
  }

  /** The side of each bar's imbalance, from the running means. */
  method MarkEach(settings: Settings, bars: seq<Bar>) returns (marks: seq<Option<Side>>)
    requires Usable(settings)
    ensures marks == Marks(settings, bars)
  {
    var bodies := Bodies(bars);
    var means := SimpleMovingAverage(bodies, settings.length);
    marks := [];
    for i := 0 to |bars|
      invariant marks == Marks(settings, bars)[..i]
    {
      var bullish, bearish := false, false;
      if i >= 2 {
        bullish, bearish := ImbalanceAt(settings, bars, bodies, means, i);
      }
      MarkAt(settings, bars, i, bullish, bearish);
      marks := marks + [if bullish then Some(Bullish) else if bearish then Some(Bearish) else None];
    }
  }

  lemma MarkAt(settings: Settings, bars: seq<Bar>, i: nat, bullish: bool, bearish: bool)
    requires Usable(settings) && i < |bars|
    requires bullish == (i >= 2 && Imbalance(settings, bars, Bullish, i))
    requires bearish == (i >= 2 && Imbalance(settings, bars, Bearish, i))
    ensures Marks(settings, bars)[i] == if bullish then Some(Bullish) else if bearish then Some(Bearish) else None
  {
  }

  method Scan(bars: seq<Bar>, marks: seq<Option<Side>>) returns (gaps: seq<Gap>)
    requires Marking(bars, marks)
    ensures Shows(gaps, Gaps(bars, marks, |bars|, |bars|))
  {
    var previousBullish, previousBearish := false, false;
    gaps := [];
    for i := 0 to |bars|
      invariant previousBullish == (i > 0 && marks[i - 1] == Some(Bullish))
      invariant previousBearish == (i > 0 && marks[i - 1] == Some(Bearish))
      invariant Shows(gaps, Gaps(bars, marks, i, i))
      invariant forall j :: 0 <= j < |gaps| ==> fresh(gaps[j])
    {
      var bullish, bearish := marks[i] == Some(Bullish), marks[i] == Some(Bearish);
      gaps := OnBar(gaps, bars, bullish, bearish, previousBullish, previousBearish, i, marks);
      previousBullish, previousBearish := bullish, bearish;
    }
  }

  // ----- What the result means

  ghost predicate IsRunGap(bars: seq<Bar>, marks: seq<Option<Side>>, top: nat, n: nat, v: GapView)
    requires Marking(bars, marks) && top <= n <= |bars|
  {
    exists b :: 0 <= b < top && RunEnds(marks, b, n) && v == Declared(bars, marks[b].value, b, n)
  }

  lemma RunGapMember(bars: seq<Bar>, marks: seq<Option<Side>>, b: nat, n: nat, v: GapView)
    requires Marking(bars, marks) && b < n <= |bars|
    ensures v in RunGap(bars, marks, b, n) <==> RunEnds(marks, b, n) && v == Declared(bars, marks[b].value, b, n)
    ensures v in RunGap(bars, marks, b, n) ==> v.event == b && v.lower < v.upper
  {
  }

  lemma IsRunGapStep(bars: seq<Bar>, marks: seq<Option<Side>>, b: nat, top: nat, n: nat, v: GapView)
    requires Marking(bars, marks) && top == b + 1 <= n <= |bars|
    ensures IsRunGap(bars, marks, top, n, v)
      <==> IsRunGap(bars, marks, b, n, v) || (RunEnds(marks, b, n) && v == Declared(bars, marks[b].value, b, n))
  {
  }

  lemma {:induction false} GapsMembers(bars: seq<Bar>, marks: seq<Option<Side>>, top: nat, n: nat, v: GapView)
    requires Marking(bars, marks) && top <= n <= |bars|
    ensures v in Gaps(bars, marks, top, n) <==> IsRunGap(bars, marks, top, n, v)
    ensures v in Gaps(bars, marks, top, n) ==> v.event < top && v.lower < v.upper
  {
    if top > 0 {
      var b: nat := top - 1;
      GapsMembers(bars, marks, b, n, v);
      RunGapMember(bars, marks, b, n, v);
      IsRunGapStep(bars, marks, b, top, n, v);
      assert v in Gaps(bars, marks, top, n) <==> v in RunGap(bars, marks, b, n) || v in Gaps(bars, marks, b, n);
    }
  }

  ghost predicate Decreasing(vs: seq<GapView>) {
    forall j, k :: 0 <= j < k < |vs| ==> vs[k].event < vs[j].event
  }

  lemma {:induction false} GapsDecrease(bars: seq<Bar>, marks: seq<Option<Side>>, top: nat, n: nat)
    requires Marking(bars, marks) && top <= n <= |bars|
    ensures Decreasing(Gaps(bars, marks, top, n))
  {
    hide Marking, RunGap, Decreasing;
    if top == 0 {
      NothingDecreases();
    } else {
      var b: nat := top - 1;
      var older, now := Gaps(bars, marks, b, n), RunGap(bars, marks, b, n);
      GapsDecrease(bars, marks, b, n);
      forall v | v in older ensures v.event < b {
        GapsMembers(bars, marks, b, n, v);
      }
      if now == [] {
        assert [] + older == older;
      } else {
        RunGapMember(bars, marks, b, n, now[0]);
        assert now == [now[0]];
        DecreasingCons(now[0], older);
      }
    }
  }

  lemma NothingDecreases()
    ensures Decreasing([])
  {
  }

  lemma DecreasingCons(v: GapView, vs: seq<GapView>)
    requires Decreasing(vs) && forall w :: w in vs ==> w.event < v.event
    ensures Decreasing([v] + vs)
  {
    forall k | 0 <= k < |vs| ensures vs[k].event < v.event {
      assert vs[k] in vs;
    }
  }

  /** How a gap's state reads off the later bars. */
  lemma DeclaredMeaning(bars: seq<Bar>, side: Side, b: nat, n: nat)
    requires 2 <= b < n <= |bars| && Lower(bars, side, b) < Upper(bars, side, b)
    ensures var v := Declared(bars, side, b, n);
      && v.side == side && v.lower == Lower(bars, side, b) && v.upper == Upper(bars, side, b) && v.event == b
      && (Open(v) <==> forall k :: b < k < n ==> !Traverses(side, v.lower, v.upper, bars[k]))
      && (v.state == Active <==> forall k :: b < k < n ==> !Enters(side, v.lower, v.upper, bars[k]))
      && (v.state == Active ==> v.known == b)
      && (v.state == Partial ==>
            && b < v.known < n && Enters(side, v.lower, v.upper, bars[v.known])
            && forall k :: b < k < v.known ==> !Enters(side, v.lower, v.upper, bars[k]))
  {
    var lower, upper := Lower(bars, side, b), Upper(bars, side, b);
    assert forall k :: b < k < n && Traverses(side, lower, upper, bars[k]) ==> Enters(side, lower, upper, bars[k]);
  }

  /** The active gaps are exactly those of the runs whose far side no later bar trades through, each
      once, newest knowledge first. */
  lemma ActiveListExact(bars: seq<Bar>, marks: seq<Option<Side>>)
    requires Marking(bars, marks)
    ensures forall v :: v in ActiveList(bars, marks) <==> IsRunGap(bars, marks, |bars|, |bars|, v) && Open(v)
    ensures var r := ActiveList(bars, marks);
      forall j, k :: 0 <= j < k < |r| ==>
        r[j].known > r[k].known || (r[j].known == r[k].known && r[j].event > r[k].event)
  {
    var n := |bars|;
    var all := Gaps(bars, marks, n, n);
    forall v ensures v in all <==> IsRunGap(bars, marks, n, n, v) {
      GapsMembers(bars, marks, n, n, v);
    }
    GapsDecrease(bars, marks, n, n);
    var f := Filter(Open, all);
    FilterKeepsDecreasing(all);
    SortPermutes(LaterKnown, f);
    SameElements(Sort(LaterKnown, f), f);
    LaterKnownTotal();
    SortSorts(LaterKnown, f);
    SortKeepsDistinctEvents(f);
  }

  lemma LaterKnownTotal()
    ensures TotalPreorder(LaterKnown)
  {
  }

  ghost predicate DistinctEvents(vs: seq<GapView>) {
    forall j, k :: 0 <= j < k < |vs| ==> vs[j].event != vs[k].event
  }

  lemma {:induction false} FilterKeepsDecreasing(vs: seq<GapView>)
    requires Decreasing(vs)
    ensures DistinctEvents(Filter(Open, vs))
  {
    if vs != [] {
      FilterKeepsDecreasing(vs[1..]);
      forall v | v in Filter(Open, vs[1..]) ensures v.event != vs[0].event {
        var k :| 0 <= k < |vs[1..]| && vs[1..][k] == v;
        assert vs[k + 1] == v;
      }
    }
  }

  lemma {:induction false} InsertKeepsDistinctEvents(v: GapView, vs: seq<GapView>)
    requires DistinctEvents(vs) && forall w :: w in vs ==> w.event != v.event
    ensures DistinctEvents(Insert(LaterKnown, v, vs))
  {
    if vs != [] && !LaterKnown(v, vs[0]) {
      InsertKeepsDistinctEvents(v, vs[1..]);
      InsertPermutes(LaterKnown, v, vs[1..]);
      var r := Insert(LaterKnown, v, vs[1..]);
      forall w | w in r ensures w.event != vs[0].event {
        assert w in multiset(r);
        assert w == v || w in multiset(vs[1..]);
      }
    }
  }

  lemma {:induction false} SortKeepsDistinctEvents(vs: seq<GapView>)
    requires DistinctEvents(vs)
    ensures DistinctEvents(Sort(LaterKnown, vs))
  {
    if vs != [] {
      SortKeepsDistinctEvents(vs[1..]);
      SortPermutes(LaterKnown, vs[1..]);
      SameElements(Sort(LaterKnown, vs[1..]), vs[1..]);
      InsertKeepsDistinctEvents(vs[0], Sort(LaterKnown, vs[1..]));
    }
  }

  // ----- No look-ahead

  lemma BodiesAreCausal(bars: seq<Bar>, longer: seq<Bar>)
    requires bars <= longer
    ensures Bodies(bars) <= Bodies(longer)
  {
    var a, b := Bodies(bars), Bodies(longer);
    forall k | 0 <= k < |a| ensures a[k] == b[k] {
      assert bars[k] == longer[k];
    }
  }

  lemma ImbalanceIsCausal(settings: Settings, bars: seq<Bar>, longer: seq<Bar>, side: Side, i: nat)
    requires Usable(settings) && bars <= longer && i < |bars|
    ensures Imbalance(settings, bars, side, i) == Imbalance(settings, longer, side, i)
  {
    if i >= 2 {
      BodiesAreCausal(bars, longer);
      WindowMeanIsCausal(Bodies(bars), Bodies(longer), settings.length, i - 1);
      assert bars[i] == longer[i] && bars[i - 1] == longer[i - 1] && bars[i - 2] == longer[i - 2];
    }
  }

  lemma MarksAreCausal(settings: Settings, bars: seq<Bar>, longer: seq<Bar>)
    requires Usable(settings) && bars <= longer
    ensures Marks(settings, bars) <= Marks(settings, longer)
  {
    hide Imbalance;
    var a, b := Marks(settings, bars), Marks(settings, longer);
    forall i | 0 <= i < |a| ensures a[i] == b[i] {
      ImbalanceIsCausal(settings, bars, longer, Bullish, i);
      ImbalanceIsCausal(settings, bars, longer, Bearish, i);
    }
  }

  lemma {:induction false} FirstsAreCausal(bars: seq<Bar>, longer: seq<Bar>, side: Side, lower: real, upper: real,
                                           k: nat, n: nat)
    requires k <= n <= |bars| && bars <= longer
    ensures FirstThrough(bars, side, lower, upper, k, n) == FirstThrough(longer, side, lower, upper, k, n)
    ensures FirstInto(bars, side, lower, upper, k, n) == FirstInto(longer, side, lower, upper, k, n)
    decreases n - k
  {
    hide Traverses, Enters;
    if k < n {
      FirstsAreCausal(bars, longer, side, lower, upper, k + 1, n);
      assert bars[k] == longer[k];
    }
  }

  lemma RunGapIsCausal(bars: seq<Bar>, longer: seq<Bar>, marks: seq<Option<Side>>, more: seq<Option<Side>>, b: nat,
                       n: nat)
    requires Marking(bars, marks) && Marking(longer, more) && bars <= longer && marks <= more && b < n <= |bars|
    ensures RunGap(bars, marks, b, n) == RunGap(longer, more, b, n)
  {
    assert RunEnds(marks, b, n) == RunEnds(more, b, n);
    if RunEnds(marks, b, n) {
      var side := marks[b].value;
      assert bars[b] == longer[b] && bars[b - 2] == longer[b - 2];
      FirstsAreCausal(bars, longer, side, Lower(bars, side, b), Upper(bars, side, b), b + 1, n);
    }
  }

  lemma {:induction false} GapsAreCausal(bars: seq<Bar>, longer: seq<Bar>, marks: seq<Option<Side>>,
                                         more: seq<Option<Side>>, top: nat, n: nat)
    requires Marking(bars, marks) && Marking(longer, more) && bars <= longer && marks <= more && top <= n <= |bars|
    ensures Gaps(bars, marks, top, n) == Gaps(longer, more, top, n)
  {
    hide RunGap, Marking;
    if top > 0 {
      RunGapIsCausal(bars, longer, marks, more, top - 1, n);
      GapsAreCausal(bars, longer, marks, more, top - 1, n);
    }
  }

  /** What the first `n` candles give is what the whole series has declared after `n` bars. */
  lemma GapsOfPrefix(settings: Settings, bars: seq<Bar>, n: nat)
    requires Usable(settings) && n <= |bars|
    ensures Marking(bars, Marks(settings, bars)) && Marking(bars[..n], Marks(settings, bars[..n]))
    ensures ActiveList(bars[..n], Marks(settings, bars[..n]))
         == Sort(LaterKnown, Filter(Open, Gaps(bars, Marks(settings, bars), n, n)))
  {
    hide Gaps, Marking;
    MarksMark(settings, bars);
    MarksMark(settings, bars[..n]);
    MarksAreCausal(settings, bars[..n], bars);
    GapsAreCausal(bars[..n], bars, Marks(settings, bars[..n]), Marks(settings, bars), n, n);
  }
}
