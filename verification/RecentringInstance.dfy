/** A series in which a PARTIAL zone is re-centred by a bar that closes outside it. */
module RecentringInstance {
  import opened Sequences
  import opened Candles
  import opened Averages
  import opened Pivots
  import opened LiquidityZones
  import opened LiquidityKnowledge

  /** Three highs close together, a close into the zone around them, and a fourth high. */
  const SERIES: seq<Bar> :=
    [Flat(95.0, 115.0, 105.0), Flat(96.0, 116.0, 105.0), Flat(97.0, 117.0, 105.0), Flat(98.0, 118.0, 105.0),
     Flat(99.0, 119.0, 105.0), Flat(100.0, 120.0, 105.0), Flat(90.0, 110.0, 105.0), Flat(100.5, 120.5, 105.0),
     Flat(89.0, 109.0, 105.0), Flat(101.0, 121.0, 105.0), Flat(95.0, 115.0, 105.0), Flat(101.5, 121.5, 117.0),
     Flat(100.0, 120.0, 105.0)]

  const FRACTION: real := 0.2

  function SeriesMargins(): (r: seq<Option<real>>)
    ensures |r| == |SERIES|
  {
    Margins(SERIES, LiquidityZones.ATR_LENGTH, FRACTION)
  }

  function State(n: nat): Machine
    requires n <= |SERIES|
  {
    After(SERIES, 3, SeriesMargins(), 3, n)
  }

  // ----- The margins

  lemma SameRange(i: nat)
    requires i < |SERIES|
    ensures TrueRange(SERIES, i) == 20.0
  {
  }

  lemma {:induction false} RangesAddUp(n: nat)
    requires n <= |SERIES|
    ensures RangeSum(SERIES, n) == 20.0 * n as real
  {
    if n > 0 {
      RangesAddUp(n - 1);
      SameRange(n - 1);
    }
  }

  lemma {:induction false} ConstantAtr(i: nat)
    requires i < |SERIES|
    ensures Atr(SERIES, 10, i) == if i < 9 then None else Some(20.0)
  {
    if i == 9 {
      RangesAddUp(10);
    } else if i > 9 {
      ConstantAtr(i - 1);
      SameRange(i);
      AtrStep(SERIES, 10, i, 20.0);
    }
  }

  lemma MarginAt(i: nat)
    requires i < |SERIES|
    ensures SeriesMargins()[i] == if i < 9 then None else Some(4.0)
  {
    ConstantAtr(i);
  }

  // ----- The pivots

  predicate HighAt(i: nat) { i == 6 || i == 8 || i == 10 || i == 12 }

  predicate LowAt(i: nat) { i == 7 || i == 9 }

  lemma NotConfirmed(d: Direction, i: nat, j: nat)
    requires i < |SERIES| && j <= i && (i >= 4 ==> i - 4 <= j && j != i - 1)
    requires i >= 4 ==> !Exceeds(d, LevelOf(SERIES[i - 1], d), LevelOf(SERIES[j], d))
    ensures !Confirms(SERIES, 3, d, i)
  {
  }

  lemma ConfirmsHigh(i: nat)
    requires i < |SERIES|
    ensures Confirms(SERIES, 3, High, i) <==> HighAt(i)
  {
    if i >= 4 && !HighAt(i) {
      if i == 4 || i == 5 || i == 7 || i == 9 || i == 11 {
        NotConfirmed(High, i, if i <= 5 then i else i - 2);
      }
    }
  }

  lemma ConfirmsLow(i: nat)
    requires i < |SERIES|
    ensures Confirms(SERIES, 3, Low, i) <==> LowAt(i)
  {
    if i >= 4 && !LowAt(i) {
      NotConfirmed(Low, i, if i == 11 then 8 else i - 4);
    }
  }

  lemma PivotsAt(i: nat)
    requires i < |SERIES|
    ensures PointsAt(SERIES, 3, i) ==
      if HighAt(i) then [Point(High, i - 1, SERIES[i - 1].high)]
      else if LowAt(i) then [Point(Low, i - 1, SERIES[i - 1].low)] else []
  {
    hide Confirms;
    ConfirmsHigh(i);
    ConfirmsLow(i);
  }

  // ----- One bar

  lemma Step(i: nat, next: nat)
    requires next == i + 1 <= |SERIES|
    ensures State(next) ==
      var ps := PointsAt(SERIES, 3, i);
      var confirmed := ConfirmAll(State(i), ps, SeriesMargins()[i], 3, i);
      confirmed.(zones := Settle(confirmed.zones, SERIES[i], i))
  {
    hide ConfirmAll, Settle;
  }

  lemma OnePivot(mc: Machine, p: Point, margin: Option<real>, i: nat)
    requires i > 0
    ensures ConfirmAll(mc, [p], margin, 3, i) == Confirm(mc, p, margin, 3, i)
  {
    hide Confirm;
    assert [p][..0] == [];
    assert ConfirmAll(mc, [p][..0], margin, 3, i) == mc;
  }

  /** A bar with one pivot. */
  lemma PivotBar(i: nat, next: nat, p: Point, confirmed: Machine)
    requires 9 <= i && next == i + 1 <= |SERIES| && PointsAt(SERIES, 3, i) == [p]
    requires Confirm(State(i), p, Some(4.0), 3, i) == confirmed
    ensures State(next) == confirmed.(zones := Settle(confirmed.zones, SERIES[i], i))
    ensures Centred(SERIES, 3, SeriesMargins(), 3, i) == confirmed.zones
  {
    hide After, PointsAt, Confirm, ConfirmAll, Settle;
    MarginAt(i);
    Step(i, next);
    OnePivot(State(i), p, Some(4.0), i);
  }

  const H5 := Point(High, 5, 120.0)
  const L6 := Point(Low, 6, 90.0)
  const H7 := Point(High, 7, 120.5)
  const L8 := Point(Low, 8, 89.0)
  const H9 := Point(High, 9, 121.0)
  const H11 := Point(High, 11, 121.5)

  lemma NoZonesSettle(bar: Bar, i: nat)
    ensures Settle([], bar, i) == []
  {
  }

  /** Before the average is known a pivot only enters the list. */
  lemma QuietBar(i: nat, next: nat, p: Point, points: seq<Point>)
    requires 5 < i < 9 && next == i + 1 && State(i) == Machine(points, [], {}) && PointsAt(SERIES, 3, i) == [p]
    ensures State(next) == Machine(Push(points, p), [], {})
  {
    hide After, PointsAt, Push;
    Step(i, next);
    MarginAt(i);
    OnePivot(State(i), p, SeriesMargins()[i], i);
    NoZonesSettle(SERIES[i], i);
  }

  lemma {:induction false} StillNothing(n: nat)
    requires n <= 6
    ensures State(n) == Machine([], [], {})
  {
    if n > 0 {
      StillNothing(n - 1);
      PivotsAt(n - 1);
      Step(n - 1, n);
      NoZonesSettle(SERIES[n - 1], n - 1);
    }
  }

  lemma FirstPivots()
    ensures State(9) == Machine([H7, L6, H5], [], {})
  {
    hide After, PointsAt;
    StillNothing(6);
    PivotsAt(6);
    QuietBar(6, 7, H5, []);
    assert [H5] + [] == [H5];
    PivotsAt(7);
    QuietBar(7, 8, L6, [H5]);
    assert [L6] + [H5] == [L6, H5];
    PivotsAt(8);
    QuietBar(8, 9, H7, [L6, H5]);
    assert [H7] + [L6, H5] == [H7, L6, H5];
  }

  /** Two lows are not yet a cluster. */
  lemma TwoLows()
    ensures State(10) == Machine([L8, H7, L6, H5], [], {})
  {
    hide State, PointsAt, Confirm, Settle;
    FirstPivots();
    PivotsAt(9);
    SecondLow();
    PivotBar(9, 10, L8, Machine([L8, H7, L6, H5], [], {}));
    NoZonesSettle(SERIES[9], 9);
  }

  lemma SecondLow()
    ensures Confirm(Machine([H7, L6, H5], [], {}), L8, Some(4.0), 3, 9) == Machine([L8, H7, L6, H5], [], {})
  {
    hide Matching, Place, Indices;
    assert [L8] + [H7, L6, H5] == [L8, H7, L6, H5];
    LowsMatching();
  }

  lemma LowsMatching()
    ensures |Matching([L8, H7, L6, H5], Low, 89.0, 4.0)| == 2
  {
    var points := [L8, H7, L6, H5];
    assert points[1..] == [H7, L6, H5] && points[1..][1..] == [L6, H5] && points[1..][1..][1..] == [H5];
    assert points[1..][1..][1..][1..] == [];
    assert Matching(points[1..][1..][1..], Low, 89.0, 4.0) == [];
    assert Matching(points[1..][1..], Low, 89.0, 4.0) == [L6];
    assert Matching(points[1..], Low, 89.0, 4.0) == [L6];
  }

  /** The highs of a list that starts with a high around three others. */
  lemma HighsMatching(top: Point)
    requires top == H9 || top == H11
    ensures Matching([top, L8, H7, L6, H5], High, top.level, 4.0) == [top, H7, H5]
  {
    var points := [top, L8, H7, L6, H5];
    var s1 := points[1..];
    var s2 := s1[1..];
    var s3 := s2[1..];
    var s4 := s3[1..];
    assert s1 == [L8, H7, L6, H5] && s2 == [H7, L6, H5] && s3 == [L6, H5] && s4 == [H5] && s4[1..] == [];
    assert Matching(s4[1..], High, top.level, 4.0) == [];
    assert Matching(s4, High, top.level, 4.0) == [H5];
    assert Matching(s3, High, top.level, 4.0) == [H5];
    assert Matching(s2, High, top.level, 4.0) == [H7, H5];
    assert Matching(s1, High, top.level, 4.0) == [H7, H5];
  }

  lemma HighsCenter(top: Point)
    requires top == H9 || top == H11
    ensures Center([top, H7, H5]) == (120.0 + top.level) / 2.0
    ensures Indices([top, H7, H5]) == [top.index, 7, 5]
  {
    var matching := [top, H7, H5];
    var lowest, highest := LiquidityZones.Lowest(matching), LiquidityZones.Highest(matching);
    assert lowest <= matching[2].level && highest >= matching[0].level;
  }

  const BORN := ZoneView(High, 116.5, 124.5, 120.0, 9, 10, 5, ZoneState.Active, None, None)
  const ENTERED := ZoneView(High, 116.5, 124.5, 120.0, 9, 11, 5, ZoneState.Partial, None, None)
  const RECENTRED := ZoneView(High, 116.75, 124.75, 120.0, 11, 12, 5, ZoneState.Partial, None, None)

  lemma ZoneBorn()
    ensures State(11) == Machine([H9, L8, H7, L6, H5], [BORN], {Cluster(High, [9, 7, 5])})
  {
    hide State, PointsAt, Confirm, Settle;
    TwoLows();
    PivotsAt(10);
    ThirdHigh();
    PivotBar(10, 11, H9, Machine([H9, L8, H7, L6, H5], [BORN], {Cluster(High, [9, 7, 5])}));
    BornStays();
  }

  lemma BornStays()
    ensures Settle([BORN], SERIES[10], 10) == [BORN]
  {
    hide Settle, OpposingLevel;
    OneZoneSettles(BORN, SERIES[10], 10);
  }

  lemma ThirdHigh()
    ensures Confirm(Machine([L8, H7, L6, H5], [], {}), H9, Some(4.0), 3, 10)
         == Machine([H9, L8, H7, L6, H5], [BORN], {Cluster(High, [9, 7, 5])})
  {
    hide Matching, Center, Indices;
    assert [H9] + [L8, H7, L6, H5] == [H9, L8, H7, L6, H5];
    HighsMatching(H9);
    HighsCenter(H9);
    assert [BORN] + [] == [BORN];
  }

  lemma FourthHigh()
    ensures Confirm(Machine([H9, L8, H7, L6, H5], [ENTERED], {Cluster(High, [9, 7, 5])}), H11, Some(4.0), 3, 12).zones
      == [RECENTRED]
  {
    hide Matching, Center, Indices;
    assert [H9, L8, H7, L6, H5][0 := H11] == [H11, L8, H7, L6, H5];
    HighsMatching(H11);
    HighsCenter(H11);
    assert [ENTERED][0 := RECENTRED] == [RECENTRED];
  }

  lemma OneZoneSettles(z: ZoneView, bar: Bar, i: nat)
    ensures Settle([z], bar, i) == [Settled(z, OpposingLevel([z], z.side), bar, i)]
  {
  }

  lemma ZoneEntered()
    ensures State(12) == Machine([H9, L8, H7, L6, H5], [ENTERED], {Cluster(High, [9, 7, 5])})
  {
    hide State, PointsAt, Settle;
    ZoneBorn();
    PivotsAt(11);
    Step(11, 12);
    BornEntered();
  }

  lemma BornEntered()
    ensures Settle([BORN], SERIES[11], 11) == [ENTERED]
  {
    hide Settle, OpposingLevel;
    OneZoneSettles(BORN, SERIES[11], 11);
  }

  /** The fourth high re-centres the zone; the bar that confirms it closes outside. */
  lemma ZoneRecentred()
    ensures Centred(SERIES, 3, SeriesMargins(), 3, 12) == [RECENTRED] && State(13).zones == [RECENTRED]
  {
    hide State, PointsAt, Confirm, Settle, Centred;
    ZoneEntered();
    PivotsAt(12);
    FourthHigh();
    PivotBar(12, 13, H11, Confirm(State(12), H11, Some(4.0), 3, 12));
    RecentredStays();
  }

  lemma RecentredStays()
    ensures Settle([RECENTRED], SERIES[12], 12) == [RECENTRED]
  {
    hide Settle, OpposingLevel;
    OneZoneSettles(RECENTRED, SERIES[12], 12);
  }

  /** An instance: the zone was entered at bar 11, is PARTIAL, and is known from bar 12, whose close lies outside. */
  lemma RecentredAwayInstance()
    ensures var margins := Margins(SERIES, LiquidityZones.ATR_LENGTH, FRACTION);
      && After(SERIES, 3, margins, 3, 12).zones == [ENTERED] && KnownAtEntry(SERIES, ENTERED)
      && After(SERIES, 3, margins, 3, 13).zones == [RECENTRED] && !KnownAtEntry(SERIES, RECENTRED)
      && RecentredAway(SERIES, 3, margins, 3, 0, 12)
  {
    hide After, Centred;
    ZoneEntered();
    ZoneRecentred();
  }
}
