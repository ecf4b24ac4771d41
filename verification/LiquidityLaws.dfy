/** What every zone keeps, along the series and for every extension of it. */
module LiquidityLaws {
  import opened Sequences
  import opened Candles
  import opened Averages
  import opened Pivots
  import opened LiquidityZones

  // ----- Life cycle

  function Rank(s: ZoneState): nat {
    match s
    case Active => 0
    case Partial => 1
    case Full => 2
  }

  /** What may become of one zone: its state only advances, and once FULL it never changes. */
  predicate Evolves(a: ZoneView, b: ZoneView) {
    && a.side == b.side && a.anchor == b.anchor && a.level == b.level
    && Rank(a.state) <= Rank(b.state)
    && (a.state == Full ==> a == b)
  }

  /** The zone that was the `id`-th to be created. */
  function Created(zones: seq<ZoneView>, id: nat): ZoneView
    requires id < |zones|
  {
    zones[|zones| - 1 - id]
  }

  ghost predicate Follows(older: seq<ZoneView>, newer: seq<ZoneView>) {
    |older| <= |newer| && forall id :: 0 <= id < |older| ==> Evolves(Created(older, id), Created(newer, id))
  }

  lemma FollowsTransitive(a: seq<ZoneView>, b: seq<ZoneView>, c: seq<ZoneView>)
    requires Follows(a, b) && Follows(b, c)
    ensures Follows(a, c)
  {
    forall id | 0 <= id < |a| ensures Evolves(Created(a, id), Created(c, id)) {
      assert Evolves(Created(a, id), Created(b, id)) && Evolves(Created(b, id), Created(c, id));
    }
  }

  lemma PlaceFollows(zones: seq<ZoneView>, side: Direction, matching: seq<Point>, margin: real, i: nat)
    requires matching != [] && i > 0
    ensures Follows(zones, Place(zones, side, matching, margin, i))
  {
    var k := Newest(zones, side);
    if k < |zones| && Continues(zones[k], matching[|matching| - 1].index) {
      var recentred := Recentred(zones[k], Center(matching), margin, i);
      assert Evolves(zones[k], recentred);
      assert Follows(zones, zones[k := recentred]);
    } else {
      assert Follows(zones, [Fresh(side, matching, margin, i)] + zones);
    }
  }

  lemma SettleFollows(zones: seq<ZoneView>, bar: Bar, i: nat)
    ensures Follows(zones, Settle(zones, bar, i))
  {
    var settled := Settle(zones, bar, i);
    forall id | 0 <= id < |zones| ensures Evolves(Created(zones, id), Created(settled, id)) {
      var z := Created(zones, id);
      SettledEvolves(z, OpposingLevel(zones, z.side), bar, i);
    }
  }

  lemma SettledEvolves(z: ZoneView, opposing: Option<real>, bar: Bar, i: nat)
    ensures Evolves(z, Settled(z, opposing, bar, i))
  {
  }

  lemma {:induction false} ConfirmAllFollows(mc: Machine, ps: seq<Point>, margin: Option<real>, minimum: nat, i: nat)
    requires minimum >= 1 && (ps != [] ==> i > 0)
    ensures Follows(mc.zones, ConfirmAll(mc, ps, margin, minimum, i).zones)
  {
    if ps != [] {
      var p, before := ps[|ps| - 1], ConfirmAll(mc, ps[..|ps| - 1], margin, minimum, i);
      ConfirmAllFollows(mc, ps[..|ps| - 1], margin, minimum, i);
      ConfirmFollows(before, p, margin, minimum, i);
      FollowsTransitive(mc.zones, before.zones, ConfirmAll(mc, ps, margin, minimum, i).zones);
    }
  }

  lemma ConfirmFollows(mc: Machine, p: Point, margin: Option<real>, minimum: nat, i: nat)
    requires minimum >= 1 && i > 0
    ensures Follows(mc.zones, Confirm(mc, p, margin, minimum, i).zones)
  {
    var after := Confirm(mc, p, margin, minimum, i);
    if after.zones != mc.zones {
      var matching := Matching(Scanned(Push(mc.points, p)), p.direction, p.level, margin.value);
      PlaceFollows(mc.zones, p.direction, matching, margin.value, i);
    }
  }

  lemma {:induction false} ZonesAdvance(bars: seq<Bar>, left: nat, margins: seq<Option<real>>, minimum: nat, n: nat,
                                        m: nat)
    requires |margins| == |bars| && minimum >= 1 && n <= m <= |bars|
    ensures Follows(After(bars, left, margins, minimum, n).zones, After(bars, left, margins, minimum, m).zones)
    decreases m
  {
    hide ConfirmAll, Settle;
    if n < m {
      ZonesAdvance(bars, left, margins, minimum, n, m - 1);
      var before := After(bars, left, margins, minimum, m - 1);
      var confirmed := ConfirmAll(before, PointsAt(bars, left, m - 1), margins[m - 1], minimum, m - 1);
      ConfirmAllFollows(before, PointsAt(bars, left, m - 1), margins[m - 1], minimum, m - 1);
      SettleFollows(confirmed.zones, bars[m - 1], m - 1);
      FollowsTransitive(before.zones, confirmed.zones, Settle(confirmed.zones, bars[m - 1], m - 1));
      FollowsTransitive(After(bars, left, margins, minimum, n).zones, before.zones,
                        Settle(confirmed.zones, bars[m - 1], m - 1));
    }
  }

  /** The machine reads no later bar. */
  lemma {:induction false} MachineIsCausal(bars: seq<Bar>, longer: seq<Bar>, left: nat, margins: seq<Option<real>>,
                                           more: seq<Option<real>>, minimum: nat, n: nat)
    requires |margins| == |bars| && |more| == |longer| && minimum >= 1 && n <= |bars| && bars <= longer
    requires margins <= more
    ensures After(bars, left, margins, minimum, n) == After(longer, left, more, minimum, n)
  {
    hide ConfirmAll, Settle, PointsAt;
    if n > 0 {
      MachineIsCausal(bars, longer, left, margins, more, minimum, n - 1);
      ConfirmedIsCausal(bars, longer, left, n - 1);
    }
  }

  /** For every extension of the series each zone found before is still there: it has only advanced,
      and a FULL zone has kept every field. */
  lemma ZonesSurviveExtension(bars: seq<Bar>, longer: seq<Bar>, left: nat, minimum: nat, fraction: real)
    requires minimum >= 1 && bars <= longer
    ensures Follows(After(bars, left, Margins(bars, ATR_LENGTH, fraction), minimum, |bars|).zones,
                    After(longer, left, Margins(longer, ATR_LENGTH, fraction), minimum, |longer|).zones)
  {
    MarginsAreCausal(bars, longer, ATR_LENGTH, fraction);
    MachineIsCausal(bars, longer, left, Margins(bars, ATR_LENGTH, fraction), Margins(longer, ATR_LENGTH, fraction),
                    minimum, |bars|);
    ZonesAdvance(longer, left, Margins(longer, ATR_LENGTH, fraction), minimum, |bars|, |longer|);
  }

  // ----- Geometry

  /** How many of the first `n` pivots of a direction lie strictly between the bounds. */
  function Inside(ps: seq<Point>, n: nat, d: Direction, lower: real, upper: real): nat
    requires n <= |ps|
  {
    if n == 0 then 0
    else Inside(ps, n - 1, d, lower, upper)
         + (if ps[n - 1].direction == d && lower < ps[n - 1].level < upper then 1 else 0)
  }

  lemma {:induction false} InsideGrows(ps: seq<Point>, qs: seq<Point>, n: nat, m: nat, d: Direction, lower: real,
                                       upper: real)
    requires ps <= qs && n <= |ps| && n <= m <= |qs|
    ensures Inside(ps, n, d, lower, upper) <= Inside(qs, m, d, lower, upper)
    decreases n + m
  {
    if n < m {
      InsideGrows(ps, qs, n, m - 1, d, lower, upper);
    } else if n > 0 {
      InsideGrows(ps, qs, n - 1, m - 1, d, lower, upper);
    }
  }

  lemma MatchingHead(points: seq<Point>, d: Direction, level: real, margin: real)
    requires points != []
    ensures var r, rest := Matching(points, d, level, margin), Matching(points[1..], d, level, margin);
      || r == [] || r == rest
      || (r == [points[0]] + rest && points[0].direction == d && Near(level, margin, points[0].level))
  {
  }

  lemma {:induction false} MatchingMembers(points: seq<Point>, d: Direction, level: real, margin: real)
    ensures var r := Matching(points, d, level, margin);
      forall k :: 0 <= k < |r| ==> r[k] in points && r[k].direction == d && Near(level, margin, r[k].level)
  {
    if points != [] {
      MatchingMembers(points[1..], d, level, margin);
      var r, rest := Matching(points, d, level, margin), Matching(points[1..], d, level, margin);
      MatchingHead(points, d, level, margin);
      forall k | 0 <= k < |r| ensures r[k] in points && r[k].direction == d && Near(level, margin, r[k].level) {
        if r == rest {
          assert r[k] in points[1..];
        } else if k > 0 {
          assert r[k] == rest[k - 1] && rest[k - 1] in points[1..];
        }
      }
    }
  }

  /** Point `k` is near the level, and no newer point of its direction overshoots. */
  ghost predicate Reached(points: seq<Point>, d: Direction, level: real, margin: real, k: nat) {
    && k < |points| && points[k].direction == d && Near(level, margin, points[k].level)
    && forall j :: 0 <= j < k && points[j].direction == d ==> !Overshoots(d, level, margin, points[j].level)
  }

  lemma {:induction false} ReachedMatches(points: seq<Point>, d: Direction, level: real, margin: real, k: nat)
    requires Reached(points, d, level, margin, k)
    ensures points[k] in Matching(points, d, level, margin)
  {
    if k > 0 {
      var rest := points[1..];
      forall j | 0 <= j < k - 1 && rest[j].direction == d ensures !Overshoots(d, level, margin, rest[j].level) {
        assert rest[j] == points[j + 1];
      }
      ReachedMatches(rest, d, level, margin, k - 1);
    }
  }

  lemma {:induction false} MatchReached(points: seq<Point>, d: Direction, level: real, margin: real, p: Point)
    returns (k: nat)
    requires p in Matching(points, d, level, margin)
    ensures Reached(points, d, level, margin, k) && points[k] == p
  {
    var rest := points[1..];
    if points[0].direction == d && Near(level, margin, points[0].level) && p == points[0] {
      k := 0;
    } else {
      var later := MatchReached(rest, d, level, margin, p);
      k := later + 1;
      forall j | 0 <= j < k && points[j].direction == d ensures !Overshoots(d, level, margin, points[j].level) {
        assert j > 0 ==> points[j] == rest[j - 1];
      }
    }
  }

  /** The matching points are exactly the reached ones. */
  lemma MatchingExact(points: seq<Point>, d: Direction, level: real, margin: real)
    ensures forall p ::
      p in Matching(points, d, level, margin) <==>
        exists k: nat :: Reached(points, d, level, margin, k) && points[k] == p
  {
    forall p
      ensures p in Matching(points, d, level, margin)
        <==> exists k: nat :: Reached(points, d, level, margin, k) && points[k] == p
    {
      if p in Matching(points, d, level, margin) {
        var k := MatchReached(points, d, level, margin, p);
      }
      forall k: nat | Reached(points, d, level, margin, k) && points[k] == p
        ensures p in Matching(points, d, level, margin)
      {
        ReachedMatches(points, d, level, margin, k);
      }
    }
  }

  /** A pivot changes the list and gathers a cluster that is large enough and new. */
  predicate Due(mc: Machine, p: Point, margin: Option<real>, minimum: nat) {
    && Changes(mc.points, p) && margin.Some?
    && var matching := Matching(Scanned(Push(mc.points, p)), p.direction, p.level, margin.value);
       |matching| >= minimum && Cluster(p.direction, Indices(matching)) !in mc.seen
  }

  /** The newest zone of a side stands around a cluster seen at bar `i`. */
  predicate StandsAround(zones: seq<ZoneView>, side: Direction, matching: seq<Point>, margin: real, i: nat)
    requires matching != []
  {
    var k := Newest(zones, side);
    && k < |zones| && zones[k].state != Full && zones[k].anchor == matching[|matching| - 1].index
    && zones[k].lower == Center(matching) - margin && zones[k].upper == Center(matching) + margin
    && zones[k].event + 1 == zones[k].known == i
  }

  /** A new cluster gets one zone, new or re-centred; the zones of the other side stay, and without a new cluster all
      do. */
  lemma ClusterIsPlaced(mc: Machine, p: Point, margin: Option<real>, minimum: nat, i: nat)
    requires minimum >= 1 && i > 0
    ensures var after := Confirm(mc, p, margin, minimum, i);
      && (!Due(mc, p, margin, minimum) ==> after.zones == mc.zones && after.seen == mc.seen)
      && (Due(mc, p, margin, minimum) ==>
            var matching := Matching(Scanned(Push(mc.points, p)), p.direction, p.level, margin.value);
            && StandsAround(after.zones, p.direction, matching, margin.value, i)
            && |mc.zones| <= |after.zones| <= |mc.zones| + 1
            && (forall id :: 0 <= id < |mc.zones| && Created(mc.zones, id).side != p.direction ==>
                  Created(after.zones, id) == Created(mc.zones, id))
            && after.seen == mc.seen + {Cluster(p.direction, Indices(matching))})
  {
    if Due(mc, p, margin, minimum) {
      var matching := Matching(Scanned(Push(mc.points, p)), p.direction, p.level, margin.value);
      PlacedAround(mc.zones, p.direction, matching, margin.value, i);
    }
  }

  lemma PlacedAround(zones: seq<ZoneView>, side: Direction, matching: seq<Point>, margin: real, i: nat)
    requires matching != [] && i > 0
    ensures var after := Place(zones, side, matching, margin, i);
      && StandsAround(after, side, matching, margin, i) && |zones| <= |after| <= |zones| + 1
      && forall id :: 0 <= id < |zones| && Created(zones, id).side != side ==> Created(after, id) == Created(zones, id)
  {
    var k, after := Newest(zones, side), Place(zones, side, matching, margin, i);
    if k < |zones| && Continues(zones[k], matching[|matching| - 1].index) {
      NewestStays(zones, after, side);
    }
  }

  lemma NewestStays(a: seq<ZoneView>, b: seq<ZoneView>, side: Direction)
    requires |a| == |b| && forall k :: 0 <= k < |a| ==> a[k].side == b[k].side
    ensures Newest(a, side) == Newest(b, side)
  {
  }

  /** Matching points are different pivots of the series. */
  lemma {:induction false} MatchingCounted(points: seq<Point>, at: seq<nat>, ps: seq<Point>, n: nat, d: Direction,
                                           level: real, margin: real, lower: real, upper: real)
    requires |points| == |at| && n <= |ps| && Descending(at, n)
    requires forall k :: 0 <= k < |at| ==> points[k] == ps[at[k]]
    requires var r := Matching(points, d, level, margin);
      forall k :: 0 <= k < |r| ==> lower < r[k].level < upper
    ensures |Matching(points, d, level, margin)| <= Inside(ps, n, d, lower, upper)
  {
    if points != [] {
      var first := at[0];
      InsideGrows(ps, ps, first + 1, n, d, lower, upper);
      var r, rest := Matching(points, d, level, margin), Matching(points[1..], d, level, margin);
      MatchingHead(points, d, level, margin);
      if r != [] {
        forall k | 0 <= k < |rest| ensures lower < rest[k].level < upper {
          assert rest[k] == if r == rest then r[k] else r[k + 1];
        }
        MatchingCounted(points[1..], at[1..], ps, first, d, level, margin, lower, upper);
        if |r| > |rest| {
          assert r[0] == points[0] == ps[first];
        }
      }
    }
  }

  /** A cluster of near levels spans less than two margins, so it fits strictly inside its zone. */
  lemma ClusterFits(matching: seq<Point>, level: real, margin: real)
    requires matching != [] && forall k :: 0 <= k < |matching| ==> Near(level, margin, matching[k].level)
    ensures margin > 0.0
    ensures forall k :: 0 <= k < |matching| ==>
      Center(matching) - margin < matching[k].level < Center(matching) + margin
  {
    var lowest, highest := Lowest(matching), Highest(matching);
    assert level - margin < lowest <= highest < level + margin;
  }

  // ----- What a zone says about the series

  /**
   * How a zone's state reads off the closes since its pivots were last confirmed. A PARTIAL zone that was
   * re-centred stays PARTIAL, known from the bar that re-centred it.
   */
  ghost predicate Traversed(bars: seq<Bar>, n: nat, z: ZoneView)
    requires n <= |bars|
  {
    && z.anchor <= z.event < z.known <= n && z.event < |bars| && z.level == LevelOf(bars[z.anchor], z.side)
    && (z.state == Full ==>
          && z.known < n && Through(z, bars[z.known].close) && z.swept == Some(LevelOf(bars[z.known], z.side))
          && forall j :: z.event < j < z.known ==> !Through(z, bars[j].close))
    && (z.state != Full ==>
          && z.swept == None && z.opposing == None
          && forall j :: z.event < j < n ==> !Through(z, bars[j].close))
    && (z.state == Active ==> z.known == z.event + 1 && forall j :: z.event < j < n ==> !Into(z, bars[j].close))
    && (z.state == Partial && z.known > z.event + 1 ==>
          && z.known < n && Into(z, bars[z.known].close)
          && forall j :: z.event < j < z.known ==> !Into(z, bars[j].close))
  }

  /** Bounds in order around at least `minimum` different pivots of the direction. */
  ghost predicate Crowded(ps: seq<Point>, minimum: nat, d: Direction, lower: real, upper: real) {
    lower < upper && Inside(ps, |ps|, d, lower, upper) >= minimum
  }

  ghost predicate Clustered(ps: seq<Point>, minimum: nat, z: ZoneView) {
    Crowded(ps, minimum, z.side, z.lower, z.upper)
  }

  ghost predicate Sound(bars: seq<Bar>, ps: seq<Point>, minimum: nat, n: nat, zones: seq<ZoneView>)
    requires n <= |bars|
  {
    forall k :: 0 <= k < |zones| ==> Traversed(bars, n, zones[k]) && Clustered(ps, minimum, zones[k])
  }

  ghost predicate OnBars(bars: seq<Bar>, n: nat, ps: seq<Point>)
    requires n <= |bars|
  {
    forall k :: 0 <= k < |ps| ==> ps[k].index < n && ps[k].level == LevelOf(bars[ps[k].index], ps[k].direction)
  }

  lemma SoundGrows(bars: seq<Bar>, ps: seq<Point>, qs: seq<Point>, minimum: nat, n: nat, zones: seq<ZoneView>)
    requires n <= |bars| && Sound(bars, ps, minimum, n, zones) && ps <= qs
    ensures Sound(bars, qs, minimum, n, zones)
  {
    forall k | 0 <= k < |zones| ensures Clustered(qs, minimum, zones[k]) {
      var z := zones[k];
      assert Clustered(ps, minimum, z);
      InsideGrows(ps, qs, |ps|, |qs|, z.side, z.lower, z.upper);
    }
  }

  /** The matching points of a list of pivots lie strictly inside their zone. */
  lemma MatchingCrowds(points: seq<Point>, at: seq<nat>, ps: seq<Point>, d: Direction, level: real, margin: real,
                       matching: seq<Point>, lower: real, upper: real)
    requires |points| == |at| && Descending(at, |ps|) && forall k :: 0 <= k < |at| ==> points[k] == ps[at[k]]
    requires matching == Matching(points, d, level, margin) && matching != []
    requires lower == Center(matching) - margin && upper == Center(matching) + margin
    ensures Crowded(ps, |matching|, d, lower, upper)
    ensures matching[|matching| - 1].direction == d && matching[|matching| - 1] in ps
  {
    MatchingMembers(points, d, level, margin);
    ClusterFits(matching, level, margin);
    MatchingCounted(points, at, ps, |ps|, d, level, margin, lower, upper);
    var k :| 0 <= k < |points| && points[k] == matching[|matching| - 1];
    assert points[k] == ps[at[k]];
  }

  /** A cluster found in the zigzag is made of pivots of the series. */
  lemma FoundCluster(bars: seq<Bar>, ps: seq<Point>, d: Direction, level: real, margin: real, n: nat,
                     matching: seq<Point>, lower: real, upper: real)
    requires n <= |bars| && OnBars(bars, n, ps)
    requires matching == Matching(Scanned(Zigzag(ps)), d, level, margin) && matching != []
    requires lower == Center(matching) - margin && upper == Center(matching) + margin
    ensures Crowded(ps, |matching|, d, lower, upper)
    ensures var oldest := matching[|matching| - 1]; oldest.index < n && oldest.level == LevelOf(bars[oldest.index], d)
  {
    var scanned := Scanned(Zigzag(ps));
    HeldPoints(ps);
    var at := Held(ps)[..|scanned|];
    MatchingCrowds(scanned, at, ps, d, level, margin, matching, lower, upper);
    var k :| 0 <= k < |ps| && ps[k] == matching[|matching| - 1];
  }

  lemma RecentredSound(bars: seq<Bar>, ps: seq<Point>, minimum: nat, n: nat, z: ZoneView, center: real, margin: real)
    requires 0 < n < |bars| && Traversed(bars, n, z) && z.state != Full
    requires Crowded(ps, minimum, z.side, center - margin, center + margin)
    ensures var after := Recentred(z, center, margin, n);
      Traversed(bars, n, after) && Clustered(ps, minimum, after)
  {
  }

  lemma FreshSound(bars: seq<Bar>, ps: seq<Point>, minimum: nat, n: nat, d: Direction, matching: seq<Point>,
                   margin: real)
    requires 0 < n < |bars| && matching != []
    requires Crowded(ps, minimum, d, Center(matching) - margin, Center(matching) + margin)
    requires var oldest := matching[|matching| - 1]; oldest.index < n && oldest.level == LevelOf(bars[oldest.index], d)
    ensures var z := Fresh(d, matching, margin, n);
      Traversed(bars, n, z) && Clustered(ps, minimum, z)
  {
  }

  lemma PlaceSound(bars: seq<Bar>, ps: seq<Point>, minimum: nat, n: nat, zones: seq<ZoneView>, d: Direction,
                   matching: seq<Point>, margin: real)
    requires 0 < n < |bars| && Sound(bars, ps, minimum, n, zones)
    requires matching != [] && Crowded(ps, minimum, d, Center(matching) - margin, Center(matching) + margin)
    requires var oldest := matching[|matching| - 1]; oldest.index < n && oldest.level == LevelOf(bars[oldest.index], d)
    ensures Sound(bars, ps, minimum, n, Place(zones, d, matching, margin, n))
  {
    var k := Newest(zones, d);
    if k < |zones| && zones[k].state != Full {
      RecentredSound(bars, ps, minimum, n, zones[k], Center(matching), margin);
    }
    FreshSound(bars, ps, minimum, n, d, matching, margin);
  }

  lemma CrowdedMore(ps: seq<Point>, count: nat, minimum: nat, d: Direction, lower: real, upper: real)
    requires Crowded(ps, count, d, lower, upper) && minimum <= count
    ensures Crowded(ps, minimum, d, lower, upper)
  {
  }

  lemma ConfirmSound(bars: seq<Bar>, ps: seq<Point>, p: Point, mc: Machine, margin: Option<real>, minimum: nat, n: nat)
    requires minimum >= 1 && 0 < n < |bars| && OnBars(bars, n, ps + [p])
    requires mc.points == Zigzag(ps) && Sound(bars, ps, minimum, n, mc.zones)
    ensures var after := Confirm(mc, p, margin, minimum, n);
      after.points == Zigzag(ps + [p]) && Sound(bars, ps + [p], minimum, n, after.zones)
  {
    hide Matching, Scanned, Center, Place, Push, Crowded, Sound, OnBars;
    var qs := ps + [p];
    assert qs[..|qs| - 1] == ps;
    SoundGrows(bars, ps, qs, minimum, n, mc.zones);
    var after := Confirm(mc, p, margin, minimum, n);
    if after.zones != mc.zones {
      var matching := Matching(Scanned(Zigzag(qs)), p.direction, p.level, margin.value);
      var lower, upper := Center(matching) - margin.value, Center(matching) + margin.value;
      FoundCluster(bars, qs, p.direction, p.level, margin.value, n, matching, lower, upper);
      CrowdedMore(qs, |matching|, minimum, p.direction, lower, upper);
      PlaceSound(bars, qs, minimum, n, mc.zones, p.direction, matching, margin.value);
    }
  }

  lemma {:induction false} ConfirmAllSound(bars: seq<Bar>, ps: seq<Point>, now: seq<Point>, mc: Machine,
                                           margin: Option<real>, minimum: nat, n: nat)
    requires minimum >= 1 && n < |bars| && OnBars(bars, n, ps + now) && (now != [] ==> n > 0)
    requires mc.points == Zigzag(ps) && Sound(bars, ps, minimum, n, mc.zones)
    ensures var after := ConfirmAll(mc, now, margin, minimum, n);
      after.points == Zigzag(ps + now) && Sound(bars, ps + now, minimum, n, after.zones)
  {
    if now == [] {
      assert ps + now == ps;
    } else {
      var earlier, p := now[..|now| - 1], now[|now| - 1];
      assert ps + now == (ps + earlier) + [p];
      assert OnBars(bars, n, ps + earlier) by {
        assert forall k :: 0 <= k < |ps + earlier| ==> (ps + earlier)[k] == (ps + now)[k];
      }
      ConfirmAllSound(bars, ps, earlier, mc, margin, minimum, n);
      ConfirmSound(bars, ps + earlier, p, ConfirmAll(mc, earlier, margin, minimum, n), margin, minimum, n);
    }
  }

  lemma SettledSound(bars: seq<Bar>, ps: seq<Point>, minimum: nat, n: nat, z: ZoneView, opposing: Option<real>)
    requires n < |bars| && Traversed(bars, n, z) && Clustered(ps, minimum, z)
    ensures var after := Settled(z, opposing, bars[n], n);
      Traversed(bars, n + 1, after) && Clustered(ps, minimum, after) && after.known <= n
  {
  }

  lemma SettleSound(bars: seq<Bar>, ps: seq<Point>, minimum: nat, n: nat, zones: seq<ZoneView>)
    requires n < |bars| && Sound(bars, ps, minimum, n, zones)
    ensures var after := Settle(zones, bars[n], n);
      Sound(bars, ps, minimum, n + 1, after) && forall k :: 0 <= k < |after| ==> after[k].known <= n
  {
    var after := Settle(zones, bars[n], n);
    forall k | 0 <= k < |after|
      ensures Traversed(bars, n + 1, after[k]) && Clustered(ps, minimum, after[k]) && after[k].known <= n
    {
      SettledSound(bars, ps, minimum, n, zones[k], OpposingLevel(zones, zones[k].side));
    }
  }

  /** Every zone, at every bar: its bounds are in order with at least `minimum` different pivots of its side
      strictly between them; its level is that of its oldest pivot; it is FULL exactly when a close since its
      last pivot lies beyond the far side, from the first such bar on, with that bar's extreme as the sweep. */
  lemma {:induction false} ZoneMeaning(bars: seq<Bar>, left: nat, margins: seq<Option<real>>, minimum: nat, n: nat)
    requires |margins| == |bars| && minimum >= 1 && n <= |bars|
    ensures var after := After(bars, left, margins, minimum, n);
      && after.points == Zigzag(Points(bars, left, n))
      && Sound(bars, Points(bars, left, n), minimum, n, after.zones)
      && forall k :: 0 <= k < |after.zones| ==> after.zones[k].known < n
  {
    if n > 0 {
      ZoneMeaning(bars, left, margins, minimum, n - 1);
      var before := After(bars, left, margins, minimum, n - 1);
      var ps, now := Points(bars, left, n - 1), PointsAt(bars, left, n - 1);
      assert OnBars(bars, n - 1, ps + now) by {
        PointsArePivots(bars, left, n - 1);
        PointsArePivots(bars, left, n);
      }
      ConfirmAllSound(bars, ps, now, before, margins[n - 1], minimum, n - 1);
      var confirmed := ConfirmAll(before, now, margins[n - 1], minimum, n - 1);
      SettleSound(bars, ps + now, minimum, n - 1, confirmed.zones);
    }
  }
}
