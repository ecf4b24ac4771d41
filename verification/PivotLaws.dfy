/** When two points of the alternating list stand on one bar. */
module PivotLaws {
  import opened Candles
  import opened Pivots

  /** Point `a` and the next stand on one bar, point opposite ways, and each leads its run. */
  ghost predicate TwinLeaders(ps: seq<Point>, a: nat) {
    && a + 1 < |ps| && ps[a].index == ps[a + 1].index && ps[a].direction != ps[a + 1].direction
    && IsLeader(ps, a) && IsLeader(ps, a + 1)
  }

  ghost predicate SharesIndex(points: seq<Point>, j: int, k: int) {
    0 <= j < k < |points| && points[j].index == points[k].index
  }

  /** At most two points stand on one bar, and they are neighbours. */
  lemma OneBarTwoPoints(ps: seq<Point>, a: nat, b: nat)
    requires Forward(ps) && a < b < |ps| && ps[a].index == ps[b].index
    ensures b == a + 1 && ps[a].direction != ps[b].direction
  {
    hide Forward;
    ForwardAt(ps, a, b);
    if a + 1 < b {
      ForwardAt(ps, a, a + 1);
      ForwardAt(ps, a + 1, b);
    }
  }

  lemma ForwardAt(ps: seq<Point>, j: nat, k: nat)
    requires Forward(ps) && j < k < |ps|
    ensures ps[j].index <= ps[k].index && (ps[j].direction == ps[k].direction ==> ps[j].index < ps[k].index)
  {
  }

  lemma HeldPlace(ps: seq<Point>, a: nat) returns (j: nat)
    requires a < |ps| && IsLeader(ps, a)
    ensures j < |Held(ps)| == |Zigzag(ps)| && Held(ps)[j] == a && Zigzag(ps)[j] == ps[a]
  {
    HeldPoints(ps);
    HeldAreLeaders(ps);
    j :| 0 <= j < |Held(ps)| && Held(ps)[j] == a;
  }

  lemma SharedAreTwins(ps: seq<Point>, j: int, k: int)
    requires Forward(ps) && SharesIndex(Zigzag(ps), j, k)
    ensures exists a: nat :: TwinLeaders(ps, a)
  {
    hide IsLeader, Forward;
    var at := Held(ps);
    HeldPoints(ps);
    HeldAreLeaders(ps);
    assert at[k] < at[j] && at[j] in at && at[k] in at;
    OneBarTwoPoints(ps, at[k], at[j]);
    var a: nat := at[k];
    assert TwinLeaders(ps, a);
  }

  lemma TwinsAreShared(ps: seq<Point>, a: nat)
    requires TwinLeaders(ps, a)
    ensures exists j, k :: SharesIndex(Zigzag(ps), j, k)
  {
    hide IsLeader;
    var k := HeldPlace(ps, a);
    var j := HeldPlace(ps, a + 1);
    HeldPoints(ps);
    assert j < k;
    assert SharesIndex(Zigzag(ps), j, k);
  }

  /** Two points of the list share an index exactly if the high and the low of one bar both lead their runs. */
  lemma SharedIndexMeans(bars: seq<Bar>, left: nat, n: nat)
    requires n <= |bars|
    ensures var ps := Points(bars, left, n);
      (exists j, k :: SharesIndex(Zigzag(ps), j, k)) <==> (exists a: nat :: TwinLeaders(ps, a))
  {
    hide TwinLeaders, SharesIndex, Forward;
    var ps := Points(bars, left, n);
    PointsArePivots(bars, left, n);
    forall j, k | SharesIndex(Zigzag(ps), j, k) ensures exists a: nat :: TwinLeaders(ps, a) {
      SharedAreTwins(ps, j, k);
    }
    forall a: nat | TwinLeaders(ps, a) ensures exists j, k :: SharesIndex(Zigzag(ps), j, k) {
      TwinsAreShared(ps, a);
    }
  }

  /** Three equal bars, one reaching beyond them both ways, and one more like the first. */
  const OUTSIDE: seq<Bar> :=
    [Flat(9.0, 11.0, 10.0), Flat(9.0, 11.0, 10.0), Flat(9.0, 11.0, 10.0), Flat(5.0, 15.0, 10.0), Flat(9.0, 11.0, 10.0)]

  lemma {:induction false} NoPointsBefore(n: nat)
    requires n <= 4
    ensures Points(OUTSIDE, 3, n) == []
  {
    if n > 0 {
      NoPointsBefore(n - 1);
      assert Confirmed(OUTSIDE, 3, n - 1) == [];
    }
  }

  lemma TwinList(high: Point, low: Point)
    requires high.direction == High && low.direction == Low
    ensures Zigzag([high, low]) == [low, high]
  {
    var ps := [high, low];
    var first := ps[..1];
    assert first == [high] && first[..0] == [];
    assert Zigzag(first) == [high];
  }

  /** An instance: the outside bar's high and low are both in the list. */
  lemma SharedIndexInstance()
    ensures Zigzag(Points(OUTSIDE, 3, 5)) == [Point(Low, 3, 5.0), Point(High, 3, 15.0)]
  {
    hide Zigzag;
    NoPointsBefore(4);
    assert Confirms(OUTSIDE, 3, High, 4) && Confirms(OUTSIDE, 3, Low, 4);
    var ps := [Point(High, 3, 15.0), Point(Low, 3, 5.0)];
    assert PointsAt(OUTSIDE, 3, 4) == ps;
    assert Points(OUTSIDE, 3, 5) == ps;
    TwinList(ps[0], ps[1]);
  }
}
