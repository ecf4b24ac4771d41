/** When a PARTIAL zone is known at the first close that entered it, and what level a FULL zone opposes. */
module LiquidityKnowledge {
  import opened Sequences
  import opened Candles
  import opened Pivots
  import opened LiquidityZones
  import opened LiquidityLaws

  // ----- What the pivots of one bar do to the zones

  /** The same zone, or the same state re-centred at bar `i`. */
  predicate Moved(a: ZoneView, b: ZoneView, i: nat) {
    b.state == a.state && (b == a || b.event + 1 == b.known == i)
  }

  ghost predicate Moves(older: seq<ZoneView>, newer: seq<ZoneView>, i: nat) {
    && |older| <= |newer|
    && (forall id :: 0 <= id < |older| ==> Moved(Created(older, id), Created(newer, id), i))
    && (forall id :: |older| <= id < |newer| ==> Created(newer, id).state == Active)
  }

  lemma MovesOn(a: seq<ZoneView>, b: seq<ZoneView>, c: seq<ZoneView>, i: nat)
    requires Moves(a, b, i) && Moves(b, c, i)
    ensures Moves(a, c, i)
  {
    forall id | 0 <= id < |c|
      ensures if id < |a| then Moved(Created(a, id), Created(c, id), i) else Created(c, id).state == Active
    {
      assert id < |b| ==> Moved(Created(b, id), Created(c, id), i);
    }
  }

  lemma PlaceMoves(zones: seq<ZoneView>, side: Direction, matching: seq<Point>, margin: real, i: nat)
    requires matching != [] && i > 0
    ensures Moves(zones, Place(zones, side, matching, margin, i), i)
  {
    var k, after := Newest(zones, side), Place(zones, side, matching, margin, i);
    if k < |zones| && Continues(zones[k], matching[|matching| - 1].index) {
      assert after == zones[k := Recentred(zones[k], Center(matching), margin, i)];
    } else {
      assert after == [Fresh(side, matching, margin, i)] + zones;
    }
  }

  lemma ConfirmMoves(mc: Machine, p: Point, margin: Option<real>, minimum: nat, i: nat)
    requires minimum >= 1 && i > 0
    ensures Moves(mc.zones, Confirm(mc, p, margin, minimum, i).zones, i)
  {
    hide Place, Moved;
    if Due(mc, p, margin, minimum) {
      PlaceMoves(mc.zones, p.direction, Matching(Scanned(Push(mc.points, p)), p.direction, p.level, margin.value),
                 margin.value, i);
    } else {
      NothingMoves(mc.zones, i);
    }
  }

  lemma NothingMoves(zones: seq<ZoneView>, i: nat)
    ensures Moves(zones, zones, i)
  {
  }

  lemma {:induction false} ConfirmAllMoves(mc: Machine, ps: seq<Point>, margin: Option<real>, minimum: nat, i: nat)
    requires minimum >= 1 && (ps != [] ==> i > 0)
    ensures Moves(mc.zones, ConfirmAll(mc, ps, margin, minimum, i).zones, i)
  {
    hide Confirm, Moves;
    if ps == [] {
      NothingMoves(mc.zones, i);
    } else {
      var front := ps[..|ps| - 1];
      ConfirmAllMoves(mc, front, margin, minimum, i);
      ConfirmMoves(ConfirmAll(mc, front, margin, minimum, i), ps[|ps| - 1], margin, minimum, i);
      MovesOn(mc.zones, ConfirmAll(mc, front, margin, minimum, i).zones, ConfirmAll(mc, ps, margin, minimum, i).zones,
              i);
    }
  }

  /** The zones after the pivots of bar `i`, before its close. */
  function Centred(bars: seq<Bar>, left: nat, margins: seq<Option<real>>, minimum: nat, i: nat): seq<ZoneView>
    requires |margins| == |bars| && minimum >= 1 && i < |bars|
  {
    ConfirmAll(After(bars, left, margins, minimum, i), PointsAt(bars, left, i), margins[i], minimum, i).zones
  }

  /** A zone after bar `i`: what the bar's close makes of it. */
  lemma BarMoves(bars: seq<Bar>, left: nat, margins: seq<Option<real>>, minimum: nat, i: nat, next: nat)
    requires |margins| == |bars| && minimum >= 1 && next == i + 1 <= |bars|
    ensures var before, centred, after := After(bars, left, margins, minimum, i).zones,
                                          Centred(bars, left, margins, minimum, i),
                                          After(bars, left, margins, minimum, next).zones;
      && Moves(before, centred, i) && |after| == |centred|
      && forall id :: 0 <= id < |after| ==>
           Created(after, id) == Settled(Created(centred, id), OpposingLevel(centred, Created(centred, id).side),
                                         bars[i], i)
  {
    hide ConfirmAll, Moves, Settled, OpposingLevel;
    ConfirmAllMoves(After(bars, left, margins, minimum, i), PointsAt(bars, left, i), margins[i], minimum, i);
  }

  // ----- The time of knowledge

  /** The zone is known at the first close since its event that entered it. */
  predicate KnownAtEntry(bars: seq<Bar>, z: ZoneView)
    requires z.known < |bars|
  {
    Into(z, bars[z.known].close) && forall j :: z.event < j < z.known ==> !Into(z, bars[j].close)
  }

  /** Bar `i` re-centred the zone while it was PARTIAL, and its close lies outside the new bounds. */
  predicate RecentredAway(bars: seq<Bar>, left: nat, margins: seq<Option<real>>, minimum: nat, id: nat, i: nat)
    requires |margins| == |bars| && minimum >= 1 && i < |bars|
  {
    var before, centred := After(bars, left, margins, minimum, i).zones, Centred(bars, left, margins, minimum, i);
    && id < |before| && Created(before, id).state == Partial
    && id < |centred| && Created(centred, id).known == i && !Into(Created(centred, id), bars[i].close)
  }

  ghost predicate Shown(zones: seq<ZoneView>, id: nat, z: ZoneView) {
    id < |zones| && Created(zones, id) == z
  }

  /** A PARTIAL zone has been as it is since the bar it is known from. */
  lemma {:induction false} SinceKnown(bars: seq<Bar>, left: nat, margins: seq<Option<real>>, minimum: nat, n: nat,
                                      id: nat, z: ZoneView, next: nat)
    requires |margins| == |bars| && minimum >= 1 && n <= |bars| && next == z.known + 1
    requires Shown(After(bars, left, margins, minimum, n).zones, id, z) && z.state == Partial
    ensures next <= n && Shown(After(bars, left, margins, minimum, next).zones, id, z)
  {
    hide After, Shown;
    KnownEarlier(bars, left, margins, minimum, n, id, z);
    if next < n {
      UnchangedSince(bars, left, margins, minimum, n - 1, n, id, z);
      SinceKnown(bars, left, margins, minimum, n - 1, id, z, next);
    }
  }

  lemma KnownEarlier(bars: seq<Bar>, left: nat, margins: seq<Option<real>>, minimum: nat, n: nat, id: nat, z: ZoneView)
    requires |margins| == |bars| && minimum >= 1 && n <= |bars|
    requires Shown(After(bars, left, margins, minimum, n).zones, id, z)
    ensures z.known < n && Traversed(bars, n, z)
  {
    hide After, Traversed;
    ZoneMeaning(bars, left, margins, minimum, n);
  }

  lemma UnchangedSince(bars: seq<Bar>, left: nat, margins: seq<Option<real>>, minimum: nat, last: nat, n: nat, id: nat,
                       z: ZoneView)
    requires |margins| == |bars| && minimum >= 1 && n == last + 1 <= |bars|
    requires Shown(After(bars, left, margins, minimum, n).zones, id, z) && z.state == Partial && z.known < last
    ensures Shown(After(bars, left, margins, minimum, last).zones, id, z)
  {
    hide After, Settled, Moved, Centred;
    BarMoves(bars, left, margins, minimum, last, n);
    var before, centred := After(bars, left, margins, minimum, last).zones, Centred(bars, left, margins, minimum, last);
    var c := Created(centred, id);
    SettledPartial(c, OpposingLevel(centred, c.side), bars[last], last, z);
    if id < |before| {
      MovedPartial(Created(before, id), c, last);
    }
  }

  lemma SettledPartial(c: ZoneView, opposing: Option<real>, bar: Bar, i: nat, z: ZoneView)
    requires z == Settled(c, opposing, bar, i) && z.state == Partial
    ensures c.state != Full
    ensures if c.state == Active then Into(z, bar.close) && z.known == i else z == c
  {
  }

  lemma MovedPartial(a: ZoneView, b: ZoneView, i: nat)
    requires Moved(a, b, i) && b.state == Partial
    ensures a.state == Partial && (b == a || b.event + 1 == b.known == i)
  {
  }

  /** The close that left a zone PARTIAL entered it, or found it PARTIAL. */
  lemma EnteredOrFound(bars: seq<Bar>, n: nat, z: ZoneView, c: ZoneView, opposing: Option<real>, i: nat)
    requires n <= |bars| && Traversed(bars, n, z) && z.state == Partial && i == z.known < n
    requires z == Settled(c, opposing, bars[i], i)
    ensures KnownAtEntry(bars, z) <==> !(c.state == Partial && !Into(c, bars[i].close))
    ensures c.state == Partial ==> c == z
  {
    SettledPartial(c, opposing, bars[i], i, z);
  }

  /** A PARTIAL zone is known at the first close that entered it, unless the bar it is known from re-centred it while
      it was PARTIAL and closed outside the new bounds. */
  lemma PartialKnown(bars: seq<Bar>, left: nat, margins: seq<Option<real>>, minimum: nat, n: nat, id: nat)
    requires |margins| == |bars| && minimum >= 1 && n <= |bars| && id < |After(bars, left, margins, minimum, n).zones|
    requires Created(After(bars, left, margins, minimum, n).zones, id).state == Partial
    ensures var z := Created(After(bars, left, margins, minimum, n).zones, id);
      z.known < n && (KnownAtEntry(bars, z) <==> !RecentredAway(bars, left, margins, minimum, id, z.known))
  {
    hide After, Settled, Moved, Centred, Traversed, KnownAtEntry, Into;
    var z := Created(After(bars, left, margins, minimum, n).zones, id);
    var i: nat := z.known;
    var next := i + 1;
    KnownEarlier(bars, left, margins, minimum, n, id, z);
    SinceKnown(bars, left, margins, minimum, n, id, z, next);
    BarMoves(bars, left, margins, minimum, i, next);
    var before, centred := After(bars, left, margins, minimum, i).zones, Centred(bars, left, margins, minimum, i);
    var c := Created(centred, id);
    EnteredOrFound(bars, n, z, c, OpposingLevel(centred, c.side), i);
    if id < |before| {
      SameState(Created(before, id), c, i);
    }
  }

  lemma SameState(a: ZoneView, b: ZoneView, i: nat)
    requires Moved(a, b, i)
    ensures b.state == a.state
  {
  }

  // ----- The opposing level of a FULL zone

  /** The level is that of the newest zone of the other side: those before it in the list are all of this side. */
  lemma OpposingLevelMeans(zones: seq<ZoneView>, side: Direction)
    ensures OpposingLevel(zones, side).None? <==> forall k :: 0 <= k < |zones| ==> zones[k].side == side
    ensures OpposingLevel(zones, side).Some? ==> exists k ::
      && 0 <= k < |zones| && zones[k].side != side && OpposingLevel(zones, side) == Some(zones[k].level)
      && forall j :: 0 <= j < k ==> zones[j].side == side
  {
    var k := Newest(zones, Opposite(side));
    if k < |zones| {
      assert zones[k].side != side;
    }
  }

  lemma SettleKeepsOpposing(zones: seq<ZoneView>, bar: Bar, i: nat, side: Direction)
    ensures OpposingLevel(Settle(zones, bar, i), side) == OpposingLevel(zones, side)
  {
    hide Settled;
    var settled := Settle(zones, bar, i);
    forall k | 0 <= k < |zones| ensures settled[k].side == zones[k].side && settled[k].level == zones[k].level {
      SettledKeeps(zones[k], OpposingLevel(zones, zones[k].side), bar, i);
    }
    NewestStays(settled, zones, Opposite(side));
  }

  /** A close makes a zone FULL with the opposing level it finds; one that was FULL before stays as it was. */
  lemma SettledFull(c: ZoneView, opposing: Option<real>, bar: Bar, i: nat)
    requires Settled(c, opposing, bar, i).state == Full
    ensures var z := Settled(c, opposing, bar, i);
      if c.state == Full then z == c else z.known == i && z.opposing == opposing
  {
  }

  /** A zone that is FULL after the pivots of a bar was FULL, and the same, before. */
  lemma FullBefore(before: seq<ZoneView>, centred: seq<ZoneView>, i: nat, id: nat)
    requires Moves(before, centred, i) && Follows(before, centred) && id < |centred|
    requires Created(centred, id).state == Full
    ensures Shown(before, id, Created(centred, id))
  {
    assert Moved(Created(before, id), Created(centred, id), i) && Evolves(Created(before, id), Created(centred, id));
  }

  lemma OpposingAfter(bars: seq<Bar>, left: nat, margins: seq<Option<real>>, minimum: nat, i: nat, next: nat,
                      side: Direction)
    requires |margins| == |bars| && minimum >= 1 && next == i + 1 <= |bars|
    ensures OpposingLevel(Centred(bars, left, margins, minimum, i), side)
         == OpposingLevel(After(bars, left, margins, minimum, next).zones, side)
    ensures Follows(After(bars, left, margins, minimum, i).zones, Centred(bars, left, margins, minimum, i))
  {
    hide ConfirmAll, Settle, OpposingLevel;
    SettleKeepsOpposing(Centred(bars, left, margins, minimum, i), bars[i], i, side);
    ConfirmAllFollows(After(bars, left, margins, minimum, i), PointsAt(bars, left, i), margins[i], minimum, i);
  }

  /** A FULL zone carries the level of the newest zone of the other side at the bar it is known from, if there is
      one. */
  lemma {:induction false} FullOpposes(bars: seq<Bar>, left: nat, margins: seq<Option<real>>, minimum: nat, n: nat,
                                       id: nat, z: ZoneView, next: nat)
    requires |margins| == |bars| && minimum >= 1 && n <= |bars| && next == z.known + 1
    requires Shown(After(bars, left, margins, minimum, n).zones, id, z) && z.state == Full
    ensures next <= n && z.opposing == OpposingLevel(After(bars, left, margins, minimum, next).zones, z.side)
  {
    hide After, Settled, OpposingLevel, Moves, Follows, Centred;
    KnownEarlier(bars, left, margins, minimum, n, id, z);
    var i: nat := n - 1;
    var before, centred := After(bars, left, margins, minimum, i).zones, Centred(bars, left, margins, minimum, i);
    BarMoves(bars, left, margins, minimum, i, n);
    OpposingAfter(bars, left, margins, minimum, i, n, z.side);
    var c := Created(centred, id);
    SettledKeeps(c, OpposingLevel(centred, c.side), bars[i], i);
    SettledFull(c, OpposingLevel(centred, c.side), bars[i], i);
    if c.state == Full {
      FullBefore(before, centred, i, id);
      FullOpposes(bars, left, margins, minimum, i, id, z, next);
    }
  }
}
