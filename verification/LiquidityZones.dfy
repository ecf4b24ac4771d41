/** Clustered liquidity: zones around pivots of nearly equal level, and how closes traverse them. */
module LiquidityZones {
  import opened Sequences
  import opened Candles
  import opened Averages
  import opened Pivots

  const ATR_LENGTH := 10
  const SCANNED_POINTS := 50

  datatype ZoneState = Active | Partial | Full

  /** A zone on the high (buy) or low (sell) side. */
  datatype ZoneView = ZoneView(
    side: Direction, lower: real, upper: real, level: real, event: nat, known: nat, anchor: nat,
    state: ZoneState, opposing: Option<real>, swept: Option<real>)

  /** The pivots of a cluster, by the bars they stand on. */
  datatype Cluster = Cluster(side: Direction, indices: seq<nat>)

  /** The close lies strictly beyond the far side. */
  predicate Through(z: ZoneView, close: real) {
    if z.side == High then close > z.upper else close < z.lower
  }

  /** The close lies strictly beyond the near side. */
  predicate Into(z: ZoneView, close: real) {
    if z.side == High then close > z.lower else close < z.upper
  }

  predicate Near(level: real, margin: real, x: real) {
    level - margin < x < level + margin
  }

  /** A same-side point beyond the margin on the far side ends the scan. */
  predicate Overshoots(d: Direction, level: real, margin: real, x: real) {
    if d == High then x > level + margin else x < level - margin
  }

  /** The points of one direction near `level`, newest first, up to the first that overshoots. */
  function Matching(points: seq<Point>, d: Direction, level: real, margin: real): seq<Point> {
    if points == [] then []
    else if points[0].direction != d then Matching(points[1..], d, level, margin)
    else if Overshoots(d, level, margin, points[0].level) then []
    else if Near(level, margin, points[0].level) then [points[0]] + Matching(points[1..], d, level, margin)
    else Matching(points[1..], d, level, margin)
  }

  function Scanned(points: seq<Point>): (r: seq<Point>)
    ensures r <= points && |r| <= SCANNED_POINTS
  {
    if |points| <= SCANNED_POINTS then points else points[..SCANNED_POINTS]
  }

  function Indices(points: seq<Point>): (r: seq<nat>)
    ensures |r| == |points|
  {
    seq(|points|, k requires 0 <= k < |points| => points[k].index)
  }

  function Lowest(points: seq<Point>): (r: real)
    requires points != []
    ensures forall k :: 0 <= k < |points| ==> r <= points[k].level
    ensures exists k :: 0 <= k < |points| && r == points[k].level
  {
    if |points| == 1 then points[0].level else
    var rest := Lowest(points[..|points| - 1]);
    Min(rest, points[|points| - 1].level)
  }

  function Highest(points: seq<Point>): (r: real)
    requires points != []
    ensures forall k :: 0 <= k < |points| ==> r >= points[k].level
    ensures exists k :: 0 <= k < |points| && r == points[k].level
  {
    if |points| == 1 then points[0].level else
    var rest := Highest(points[..|points| - 1]);
    Max(rest, points[|points| - 1].level)
  }

  function Center(matching: seq<Point>): real
    requires matching != []
  {
    (Lowest(matching) + Highest(matching)) / 2.0
  }

  // ----- The machine on values

  /** The newest zone of a side, or the length of the list. */
  function Newest(zones: seq<ZoneView>, side: Direction): (r: nat)
    ensures r <= |zones|
    ensures r < |zones| ==> zones[r].side == side
    ensures forall k :: 0 <= k < r ==> zones[k].side != side
  {
    if zones == [] || zones[0].side == side then 0 else 1 + Newest(zones[1..], side)
  }

  function Recentred(z: ZoneView, center: real, margin: real, i: nat): ZoneView
    requires i > 0
  {
    z.(lower := center - margin, upper := center + margin, event := i - 1, known := i)
  }

  function Fresh(side: Direction, matching: seq<Point>, margin: real, i: nat): ZoneView
    requires matching != [] && i > 0
  {
    var oldest := matching[|matching| - 1];
    ZoneView(side, Center(matching) - margin, Center(matching) + margin, oldest.level, i - 1, i, oldest.index, Active,
             None, None)
  }

  predicate Continues(z: ZoneView, anchor: nat) {
    z.state != Full && z.anchor == anchor
  }

  /** A new cluster re-centres the newest zone of its side if they share the oldest pivot. */
  function Place(zones: seq<ZoneView>, side: Direction, matching: seq<Point>, margin: real, i: nat): seq<ZoneView>
    requires matching != [] && i > 0
  {
    var k := Newest(zones, side);
    if k < |zones| && Continues(zones[k], matching[|matching| - 1].index)
    then zones[k := Recentred(zones[k], Center(matching), margin, i)]
    else [Fresh(side, matching, margin, i)] + zones
  }

  datatype Machine = Machine(points: seq<Point>, zones: seq<ZoneView>, seen: set<Cluster>)

  /** A pivot confirmed at bar `i`. */
  function Confirm(mc: Machine, p: Point, margin: Option<real>, minimum: nat, i: nat): Machine
    requires minimum >= 1 && i > 0
  {
    var points := Push(mc.points, p);
    if !Changes(mc.points, p) || margin.None? then mc.(points := points)
    else
      var matching := Matching(Scanned(points), p.direction, p.level, margin.value);
      var cluster := Cluster(p.direction, Indices(matching));
      if |matching| < minimum || cluster in mc.seen then mc.(points := points)
      else Machine(points, Place(mc.zones, p.direction, matching, margin.value, i), mc.seen + {cluster})
  }

  function ConfirmAll(mc: Machine, ps: seq<Point>, margin: Option<real>, minimum: nat, i: nat): Machine
    requires minimum >= 1 && (ps != [] ==> i > 0)
  {
    if ps == [] then mc else Confirm(ConfirmAll(mc, ps[..|ps| - 1], margin, minimum, i), ps[|ps| - 1], margin, minimum,
                                     i)
  }

  /** The level of the newest zone on the other side, if any. */
  function OpposingLevel(zones: seq<ZoneView>, side: Direction): Option<real> {
    var k := Newest(zones, Opposite(side));
    if k < |zones| then Some(zones[k].level) else None
  }

  /** A close traverses a zone that is not yet FULL. */
  function Settled(z: ZoneView, opposing: Option<real>, bar: Bar, i: nat): ZoneView {
    if z.state == Full then z
    else if Through(z, bar.close) then z.(state := Full, known := i, opposing := opposing,
                                          swept := Some(LevelOf(bar, z.side)))
    else if Into(z, bar.close) && z.state == Active then z.(state := Partial, known := i)
    else z
  }

  function Settle(zones: seq<ZoneView>, bar: Bar, i: nat): (r: seq<ZoneView>)
    ensures |r| == |zones|
    ensures forall k :: 0 <= k < |r| ==> r[k] == Settled(zones[k], OpposingLevel(zones, zones[k].side), bar, i)
  {
    seq(|zones|, k requires 0 <= k < |zones| => Settled(zones[k], OpposingLevel(zones, zones[k].side), bar, i))
  }

  /** Everything known after the first `n` bars. */
  function After(bars: seq<Bar>, left: nat, margins: seq<Option<real>>, minimum: nat, n: nat): Machine
    requires |margins| == |bars| && minimum >= 1 && n <= |bars|
  {
    if n == 0 then Machine([], [], {})
    else
      var confirmed := ConfirmAll(After(bars, left, margins, minimum, n - 1), PointsAt(bars, left, n - 1),
                                  margins[n - 1], minimum, n - 1);
      confirmed.(zones := Settle(confirmed.zones, bars[n - 1], n - 1))
  }

  /** Newest knowledge first, then newest event. */
  predicate LaterKnown(a: ZoneView, b: ZoneView) {
    a.known > b.known || (a.known == b.known && a.event >= b.event)
  }

  // ----- The mutable list

  class Zone {
    const side: Direction
    const level: real
    const anchor: nat
    var lower: real
    var upper: real
    var event: nat
    var known: nat
    var state: ZoneState
    var opposing: Option<real>
    var swept: Option<real>

    constructor (side: Direction, lower: real, upper: real, level: real, event: nat, known: nat, anchor: nat)
      ensures View() == ZoneView(side, lower, upper, level, event, known, anchor, Active, None, None)
    {
      this.side, this.lower, this.upper, this.level := side, lower, upper, level;
      this.event, this.known, this.anchor := event, known, anchor;
      this.state, this.opposing, this.swept := Active, None, None;
    }

    function View(): ZoneView
      reads this
    {
      ZoneView(side, lower, upper, level, event, known, anchor, state, opposing, swept)
    }

    method Recentre(center: real, margin: real, i: nat)
      requires i > 0
      modifies this
      ensures View() == Recentred(old(View()), center, margin, i)
    {
      lower, upper, event, known := center - margin, center + margin, i - 1, i;
    }
  }

  ghost predicate Shows(zones: seq<Zone>, views: seq<ZoneView>)
    reads zones
  {
    && |zones| == |views|
    && (forall j, k :: 0 <= j < k < |zones| ==> zones[j] != zones[k])
    && (forall k :: 0 <= k < |zones| ==> zones[k].View() == views[k])
  }

  lemma MatchingStep(points: seq<Point>, k: nat, d: Direction, level: real, margin: real)
    requires k < |points|
    ensures var now, rest := Matching(points[k..], d, level, margin), Matching(points[k + 1..], d, level, margin);
      if points[k].direction != d then now == rest
      else if Overshoots(d, level, margin, points[k].level) then now == []
      else if Near(level, margin, points[k].level) then now == [points[k]] + rest
      else now == rest
  {
    assert points[k..][0] == points[k] && points[k..][1..] == points[k + 1..];
  }

  lemma MatchingEnds(points: seq<Point>, d: Direction, level: real, margin: real)
    ensures [] + Matching(points[0..], d, level, margin) == Matching(points, d, level, margin)
    ensures forall found: seq<Point> :: found + Matching(points[|points|..], d, level, margin) == found
  {
    assert points[0..] == points && points[|points|..] == [];
  }

  method MatchingPoints(points: seq<Point>, d: Direction, level: real, margin: real) returns (matching: seq<Point>)
    ensures matching == Matching(Scanned(points), d, level, margin)
  {
    var scanned := if |points| <= SCANNED_POINTS then points else points[..SCANNED_POINTS];
    hide Scanned, Matching;
    matching := [];
    MatchingEnds(scanned, d, level, margin);
    for k := 0 to |scanned|
      invariant matching + Matching(scanned[k..], d, level, margin) == Matching(scanned, d, level, margin)
    {
      var point := scanned[k];
      MatchingStep(scanned, k, d, level, margin);
      if point.direction != d {
        continue;
      }
      if (d == High && point.level > level + margin) || (d == Low && point.level < level - margin) {
        break;
      }
      if level - margin < point.level < level + margin {
        matching := matching + [point];
      }
    }
  }

  /** The first zone of a side, if any. */
  method FirstOn(zones: seq<Zone>, side: Direction, ghost views: seq<ZoneView>) returns (k: nat)
    requires Shows(zones, views)
    ensures k == Newest(views, side)
  {
    k := 0;
    while k < |zones| && zones[k].side != side
      invariant k <= |zones| && Newest(views, side) == k + Newest(views[k..], side)
    {
      assert zones[k].View() == views[k];
      k := k + 1;
    }
    if k < |zones| {
      assert zones[k].View() == views[k];
    }
  }

  method RecentreAt(zones: seq<Zone>, k: nat, center: real, margin: real, i: nat, ghost views: seq<ZoneView>)
    requires k < |zones| && i > 0 && Shows(zones, views)
    modifies zones
    ensures Shows(zones, views[k := Recentred(views[k], center, margin, i)])
  {
    assert zones[k].View() == views[k];
    zones[k].Recentre(center, margin, i);
    assert forall j :: 0 <= j < |zones| && j != k ==> zones[j].View() == views[j];
  }

  method AddZone(zones: seq<Zone>, zone: Zone, ghost views: seq<ZoneView>) returns (newZones: seq<Zone>)
    requires Shows(zones, views) && zone !in zones
    ensures newZones == [zone] + zones && Shows(newZones, [zone.View()] + views)
  {
    newZones := [zone] + zones;
    ghost var shown := [zone.View()] + views;
    forall j | 0 <= j < |newZones|
      ensures newZones[j].View() == shown[j] && (j > 0 ==> newZones[j] in zones && newZones[j] == zones[j - 1])
    {
    }
  }

  lemma PlaceCases(views: seq<ZoneView>, side: Direction, matching: seq<Point>, margin: real, i: nat, k: nat)
    requires matching != [] && i > 0 && k == Newest(views, side)
    ensures Place(views, side, matching, margin, i) ==
      if k < |views| && views[k].state != Full && views[k].anchor == matching[|matching| - 1].index
      then views[k := Recentred(views[k], Center(matching), margin, i)] else [Fresh(side, matching, margin, i)] + views
  {
  }

  method NewZone(side: Direction, matching: seq<Point>, margin: real, i: nat) returns (zone: Zone)
    requires matching != [] && i > 0
    ensures fresh(zone) && zone.View() == Fresh(side, matching, margin, i)
  {
    hide Center;
    var center, oldest := Center(matching), matching[|matching| - 1];
    zone := new Zone(side, center - margin, center + margin, oldest.level, i - 1, i, oldest.index);
  }

  /** Put a new cluster's zone in the list. */
  method PlaceZone(zones: seq<Zone>, side: Direction, matching: seq<Point>, margin: real, i: nat,
                   ghost views: seq<ZoneView>)
    returns (newZones: seq<Zone>)
    requires matching != [] && i > 0 && Shows(zones, views)
    modifies zones
    ensures Shows(newZones, Place(views, side, matching, margin, i))
    ensures forall k :: 0 <= k < |newZones| ==> newZones[k] in zones || fresh(newZones[k])
  {
    hide Center, Place, Newest, Recentred, Fresh;
    var k := FirstOn(zones, side, views);
    PlaceCases(views, side, matching, margin, i, k);
    assert k < |zones| ==> zones[k].View() == views[k];
    if k < |zones| && zones[k].state != Full && zones[k].anchor == matching[|matching| - 1].index {
      RecentreAt(zones, k, Center(matching), margin, i, views);
      newZones := zones;
    } else {
      var zone := NewZone(side, matching, margin, i);
      newZones := AddZone(zones, zone, views);
    }
  }

  lemma SettledKeeps(z: ZoneView, opposing: Option<real>, bar: Bar, i: nat)
    ensures Settled(z, opposing, bar, i).side == z.side && Settled(z, opposing, bar, i).level == z.level
  {
  }

  method SettleEach(zones: seq<Zone>, bar: Bar, i: nat, ghost views: seq<ZoneView>)
    requires Shows(zones, views)
    modifies zones
    ensures Shows(zones, Settle(views, bar, i))
  {
    hide Settled, OpposingLevel, Settle;
    for k := 0 to |zones|
      invariant forall j :: 0 <= j < k ==>
        zones[j].View() == Settled(views[j], OpposingLevel(views, views[j].side), bar, i)
      invariant forall j :: k <= j < |zones| ==> zones[j].View() == views[j]
    {
      assert zones[k].View() == views[k];
      forall j | 0 <= j < |zones| ensures zones[j].side == views[j].side && zones[j].level == views[j].level {
        SettledKeeps(views[j], OpposingLevel(views, views[j].side), bar, i);
        assert zones[j].View() == if j < k then Settled(views[j], OpposingLevel(views, views[j].side), bar, i)
                else views[j];
      }
      SettleOne(zones, k, bar, i, views);
    }
  }

  /** The close of bar `i` against zone `k`. */
  method SettleOne(zones: seq<Zone>, k: nat, bar: Bar, i: nat, ghost views: seq<ZoneView>)
    requires k < |zones| == |views|
    requires forall j :: 0 <= j < |zones| ==> zones[j].side == views[j].side && zones[j].level == views[j].level
    modifies zones[k]
    ensures zones[k].View() == Settled(old(zones[k].View()), OpposingLevel(views, zones[k].side), bar, i)
  {
    var zone := zones[k];
    if zone.state == Full {
      return;
    }
    var partial, full;
    if zone.side == High {
      partial, full := bar.close > zone.lower, bar.close > zone.upper;
    } else {
      partial, full := bar.close < zone.upper, bar.close < zone.lower;
    }
    if full {
      var opposing := 0;
      while opposing < |zones| && zones[opposing].side == zone.side
        invariant 0 <= opposing <= |zones|
        invariant Newest(views, Opposite(zone.side)) == opposing + Newest(views[opposing..], Opposite(zone.side))
      {
        opposing := opposing + 1;
      }
      zone.state, zone.known, zone.swept := Full, i, Some(if zone.side == High then bar.high else bar.low);
      zone.opposing := if opposing < |zones| then Some(zones[opposing].level) else None;
    } else if partial && zone.state == Active {
      zone.state, zone.known := Partial, i;
    }
  }

  method Snapshot(zones: seq<Zone>) returns (views: seq<ZoneView>)
    ensures |views| == |zones| && forall k :: 0 <= k < |zones| ==> views[k] == zones[k].View()
  {
    views := seq(|zones|, k requires 0 <= k < |zones| reads zones => zones[k].View());
  }

  /** The list, the zones and the clusters seen are those of the machine. */
  ghost predicate Matches(zigzag: ZigzagList, zones: seq<Zone>, seen: set<Cluster>, mc: Machine)
    reads zigzag, zones
  {
    zigzag.points == mc.points && seen == mc.seen && Shows(zones, mc.zones)
  }

  method ConfirmPivot(zigzag: ZigzagList, zones: seq<Zone>, seen: set<Cluster>, p: Point, margin: Option<real>,
                      minimum: nat, i: nat, ghost mc: Machine)
    returns (newZones: seq<Zone>, newSeen: set<Cluster>)
    requires minimum >= 1 && i > 0 && Matches(zigzag, zones, seen, mc)
    modifies zigzag, zones
    ensures Matches(zigzag, newZones, newSeen, Confirm(mc, p, margin, minimum, i))
    ensures forall k :: 0 <= k < |newZones| ==> newZones[k] in zones || fresh(newZones[k])
  {
    newZones, newSeen := zones, seen;
    var changed := zigzag.Update(p);
    assert Shows(zones, mc.zones);
    if !changed || margin.None? {
      return;
    }
    var matching := MatchingPoints(zigzag.points, p.direction, p.level, margin.value);
    if |matching| < minimum {
      return;
    }
    var cluster := Cluster(p.direction, Indices(matching));
    if cluster in seen {
      return;
    }
    newSeen := seen + {cluster};
    newZones := PlaceZone(zones, p.direction, matching, margin.value, i, mc.zones);
  }

  /** All pivots confirmed at bar `i`. */
  method ConfirmEach(zigzag: ZigzagList, zones: seq<Zone>, seen: set<Cluster>, bars: seq<Bar>,
                     directions: seq<Direction>, margin: Option<real>, minimum: nat, i: nat, ghost ps: seq<Point>,
                     ghost mc: Machine)
    returns (newZones: seq<Zone>, newSeen: set<Cluster>)
    requires minimum >= 1 && i < |bars| && Matches(zigzag, zones, seen, mc)
    requires |ps| == |directions| && (ps != [] ==> i > 0)
    requires forall k :: 0 <= k < |ps| ==> ps[k] == PointAt(bars, directions[k], i)
    modifies zigzag, zones
    ensures Matches(zigzag, newZones, newSeen, ConfirmAll(mc, ps, margin, minimum, i))
    ensures forall k :: 0 <= k < |newZones| ==> newZones[k] in zones || fresh(newZones[k])
  {
    newZones, newSeen := zones, seen;
    for k := 0 to |directions|
      invariant Matches(zigzag, newZones, newSeen, ConfirmAll(mc, ps[..k], margin, minimum, i))
      invariant forall j :: 0 <= j < |newZones| ==> newZones[j] in zones || fresh(newZones[j])
    {
      assert ps[..k + 1][..k] == ps[..k];
      var d := directions[k];
      var point := Point(d, i - 1, if d == High then bars[i - 1].high else bars[i - 1].low);
      newZones, newSeen := ConfirmPivot(zigzag, newZones, newSeen, point, margin, minimum, i,
                                        ConfirmAll(mc, ps[..k], margin, minimum, i));
    }
    assert ps[..|ps|] == ps;
  }

  /** One bar: its pivots first, then its close. */
  method OnBar(zigzag: ZigzagList, zones: seq<Zone>, seen: set<Cluster>, bars: seq<Bar>, left: nat,
               directions: seq<Direction>, margins: seq<Option<real>>, minimum: nat, i: nat)
    returns (newZones: seq<Zone>, newSeen: set<Cluster>)
    requires minimum >= 1 && i < |bars| == |margins| && directions == Confirmed(bars, left, i)
    requires Matches(zigzag, zones, seen, After(bars, left, margins, minimum, i))
    modifies zigzag, zones
    ensures Matches(zigzag, newZones, newSeen, After(bars, left, margins, minimum, i + 1))
    ensures forall k :: 0 <= k < |newZones| ==> newZones[k] in zones || fresh(newZones[k])
  {
    ghost var before, ps := After(bars, left, margins, minimum, i), PointsAt(bars, left, i);
    ghost var confirmed := ConfirmAll(before, ps, margins[i], minimum, i);
    newZones, newSeen := ConfirmEach(zigzag, zones, seen, bars, directions, margins[i], minimum, i, ps, before);
    SettleEach(newZones, bars[i], i, confirmed.zones);
    assert After(bars, left, margins, minimum, i + 1) == confirmed.(zones := Settle(confirmed.zones, bars[i], i));
  }

  lemma AfterNothing(zigzag: ZigzagList, bars: seq<Bar>, left: nat, margins: seq<Option<real>>, minimum: nat)
    requires minimum >= 1 && |margins| == |bars| && zigzag.points == []
    ensures Matches(zigzag, [], {}, After(bars, left, margins, minimum, 0))
  {
  }

  /** The zones after all bars. */
  method Scan(bars: seq<Bar>, left: nat, minimum: nat, margins: seq<Option<real>>) returns (zones: seq<Zone>)
    requires left >= 1 && minimum >= 1 && |margins| == |bars|
    ensures Shows(zones, After(bars, left, margins, minimum, |bars|).zones)
  {
    hide After, Confirmed, Shows;
    var groups := CandidateMap(bars, left);
    var zigzag := new ZigzagList();
    var seen: set<Cluster> := {};
    zones := [];
    AfterNothing(zigzag, bars, left, margins, minimum);
    for i := 0 to |bars|
      invariant Matches(zigzag, zones, seen, After(bars, left, margins, minimum, i))
      invariant forall k :: 0 <= k < |zones| ==> fresh(zones[k])
    {
      var directions := if i in groups then groups[i] else [];
      zones, seen := OnBar(zigzag, zones, seen, bars, left, directions, margins, minimum, i);
    }
  }

  /** The zones of a list that the order does not tell apart. */
  function Tied(zones: seq<ZoneView>, known: nat, event: nat): seq<ZoneView> {
    Filter((z: ZoneView) => z.known == known && z.event == event, zones)
  }

  method FindZones(bars: seq<Bar>, left: nat, minimum: nat, fraction: real) returns (result: seq<ZoneView>)
    requires left >= 1 && minimum >= 1
    ensures var zones := After(bars, left, Margins(bars, ATR_LENGTH, fraction), minimum, |bars|).zones;
      && multiset(result) == multiset(zones)
      && forall known, event :: Tied(result, known, event) == Tied(zones, known, event)
    ensures forall j, k :: 0 <= j < k < |result| ==>
      || result[j].known > result[k].known
      || (result[j].known == result[k].known && result[j].event >= result[k].event)
  {
    var margins := KnownMargins(bars, ATR_LENGTH, fraction);
    var zones := Scan(bars, left, minimum, margins);
    var views := Snapshot(zones);
    assert views == After(bars, left, margins, minimum, |bars|).zones;
    result := Sort(LaterKnown, views);
    SortSorts(LaterKnown, views);
    SortPermutes(LaterKnown, views);
    forall known, event ensures Tied(result, known, event) == Tied(views, known, event) {
      SortKeepsTies(LaterKnown, (z: ZoneView) => z.known == known && z.event == event, views);
    }
  }
}
