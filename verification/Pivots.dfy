/** Pivots confirmed by one later bar, and the alternating list of extremes built from them. */
module Pivots {
  import opened Candles

  datatype Direction = High | Low

  function Opposite(d: Direction): Direction { if d == High then Low else High }

  /** A confirmed pivot: the bar it stands on and its price. */
  datatype Point = Point(direction: Direction, index: nat, level: real)

  /** A pivot's direction with the bar that confirms it. */
  datatype Candidate = Candidate(known: nat, direction: Direction)

  function LevelOf(bar: Bar, d: Direction): real {
    if d == High then bar.high else bar.low
  }

  /** Strictly more extreme in the direction. */
  predicate Exceeds(d: Direction, x: real, y: real) {
    if d == High then x > y else x < y
  }

  /** Bar `i` confirms bar `i - 1` as strictly beyond the `left` bars before it and beyond `i`. */
  predicate Confirms(bars: seq<Bar>, left: nat, d: Direction, i: nat)
    requires i < |bars|
  {
    && i >= left + 1
    && (forall j :: i - 1 - left <= j < i - 1 ==> Exceeds(d, LevelOf(bars[i - 1], d), LevelOf(bars[j], d)))
    && Exceeds(d, LevelOf(bars[i - 1], d), LevelOf(bars[i], d))
  }

  /** The directions confirmed at bar `i`, highs first. */
  function Confirmed(bars: seq<Bar>, left: nat, i: nat): seq<Direction>
    requires i < |bars|
  {
    (if Confirms(bars, left, High, i) then [High] else []) + (if Confirms(bars, left, Low, i) then [Low] else [])
  }

  function Tagged(i: nat, ds: seq<Direction>): (r: seq<Candidate>)
    ensures |r| == |ds| && forall k :: 0 <= k < |r| ==> r[k] == Candidate(i, ds[k])
  {
    seq(|ds|, k requires 0 <= k < |ds| => Candidate(i, ds[k]))
  }

  /** All pivots confirmed by the first `n` bars, in order of confirmation. */
  function Candidates(bars: seq<Bar>, left: nat, n: nat): seq<Candidate>
    requires n <= |bars|
  {
    if n == 0 then [] else Candidates(bars, left, n - 1) + Tagged(n - 1, Confirmed(bars, left, n - 1))
  }

  function DirectionsAt(cs: seq<Candidate>, i: nat): seq<Direction> {
    if cs == [] then []
    else DirectionsAt(cs[..|cs| - 1], i) + (if cs[|cs| - 1].known == i then [cs[|cs| - 1].direction] else [])
  }

  lemma {:induction false} DirectionsAtConcat(a: seq<Candidate>, b: seq<Candidate>, i: nat)
    ensures DirectionsAt(a + b, i) == DirectionsAt(a, i) + DirectionsAt(b, i)
    decreases |b|
  {
    if b == [] {
      assert a + b == a;
    } else {
      assert (a + b)[..|a + b| - 1] == a + b[..|b| - 1];
      DirectionsAtConcat(a, b[..|b| - 1], i);
    }
  }

  lemma TaggedDirections(i: nat, ds: seq<Direction>, at: nat)
    requires |ds| <= 2
    ensures DirectionsAt(Tagged(i, ds), at) == if at == i then ds else []
  {
    var cs := Tagged(i, ds);
    if |ds| == 1 {
      assert cs[..0] == [];
      assert cs[0] == Candidate(i, ds[0]);
    } else if |ds| == 2 {
      var one := cs[..1];
      assert one[..0] == [] && one[0] == Candidate(i, ds[0]) && cs[1] == Candidate(i, ds[1]);
      assert DirectionsAt(one, at) == if at == i then [ds[0]] else [];
    }
  }

  lemma NoDirections(i: nat)
    ensures DirectionsAt([], i) == []
  {
  }

  lemma AtMostTwo(bars: seq<Bar>, left: nat, i: nat)
    requires i < |bars|
    ensures |Confirmed(bars, left, i)| <= 2
  {
  }

  lemma {:induction false} CandidatesByBar(bars: seq<Bar>, left: nat, n: nat, i: nat)
    requires n <= |bars| && i < |bars|
    ensures DirectionsAt(Candidates(bars, left, n), i) == if i < n then Confirmed(bars, left, i) else []
  {
    hide Confirmed, Confirms, Tagged, DirectionsAt;
    if n == 0 {
      NoDirections(i);
    } else {
      var last: nat := n - 1;
      var before, now := Candidates(bars, left, last), Confirmed(bars, left, last);
      CandidatesByBar(bars, left, last, i);
      AtMostTwo(bars, left, last);
      DirectionsAtConcat(before, Tagged(last, now), i);
      TaggedDirections(last, now, i);
      var at := Confirmed(bars, left, i);
      assert at + [] == at && [] + now == now;
    }
  }

  /** The most extreme price of `bars[lo..hi]`. */
  method Extreme(bars: seq<Bar>, d: Direction, lo: nat, hi: nat) returns (level: real)
    requires lo < hi <= |bars|
    ensures forall x :: Exceeds(d, x, level) <==> forall j :: lo <= j < hi ==> Exceeds(d, x, LevelOf(bars[j], d))
  {
    level := LevelOf(bars[lo], d);
    for i := lo + 1 to hi
      invariant forall j :: lo <= j < i ==> !Exceeds(d, LevelOf(bars[j], d), level)
      invariant exists j :: lo <= j < i && level == LevelOf(bars[j], d)
    {
      if Exceeds(d, LevelOf(bars[i], d), level) {
        level := LevelOf(bars[i], d);
      }
    }
  }

  method PivotCandidates(bars: seq<Bar>, left: nat) returns (result: seq<Candidate>)
    requires left >= 1
    ensures result == Candidates(bars, left, |bars|)
  {
    result := [];
    for i := 0 to |bars|
      invariant result == Candidates(bars, left, i)
    {
      ghost var before := result;
      if i >= left + 1 {
        var high := Extreme(bars, High, i - 1 - left, i - 1);
        var low := Extreme(bars, Low, i - 1 - left, i - 1);
        if bars[i - 1].high > high && bars[i - 1].high > bars[i].high {
          result := result + [Candidate(i, High)];
        }
        if bars[i - 1].low < low && bars[i - 1].low < bars[i].low {
          result := result + [Candidate(i, Low)];
        }
        assert (bars[i - 1].high > high) == Exceeds(High, bars[i - 1].high, high);
        assert (bars[i - 1].low < low) == Exceeds(Low, bars[i - 1].low, low);
      }
      assert result == before + Tagged(i, Confirmed(bars, left, i));
    }
  }

  /** The candidates grouped by the bar that confirms them. */
  method CandidateMap(bars: seq<Bar>, left: nat) returns (groups: map<nat, seq<Direction>>)
    requires left >= 1
    ensures forall i :: 0 <= i < |bars| ==> (if i in groups then groups[i] else []) == Confirmed(bars, left, i)
  {
    hide Confirmed, Confirms, Candidates;
    var candidates := PivotCandidates(bars, left);
    groups := map[];
    for k := 0 to |candidates|
      invariant forall i: nat :: (if i in groups then groups[i] else []) == DirectionsAt(candidates[..k], i)
    {
      var c := candidates[k];
      assert candidates[..k + 1][..k] == candidates[..k];
      groups := groups[c.known := (if c.known in groups then groups[c.known] else []) + [c.direction]];
    }
    assert candidates[..|candidates|] == candidates;
    forall i | 0 <= i < |bars| ensures (if i in groups then groups[i] else []) == Confirmed(bars, left, i) {
      CandidatesByBar(bars, left, |bars|, i);
    }
  }

  function PointAt(bars: seq<Bar>, d: Direction, i: nat): Point
    requires 0 < i < |bars|
  {
    Point(d, i - 1, LevelOf(bars[i - 1], d))
  }

  function PointsAt(bars: seq<Bar>, left: nat, i: nat): (r: seq<Point>)
    requires i < |bars|
    ensures |r| == |Confirmed(bars, left, i)| <= 2
    ensures forall k :: 0 <= k < |r| ==> i > 0 && r[k] == PointAt(bars, Confirmed(bars, left, i)[k], i)
  {
    var ds := Confirmed(bars, left, i);
    seq(|ds|, k requires 0 <= k < |ds| => PointAt(bars, ds[k], i))
  }

  /** The pivots of the first `n` bars as points. */
  function Points(bars: seq<Bar>, left: nat, n: nat): seq<Point>
    requires n <= |bars|
  {
    if n == 0 then [] else Points(bars, left, n - 1) + PointsAt(bars, left, n - 1)
  }

  // ----- The zigzag

  /** Whether a new point changes the list: it turns, or it exceeds the newest extreme. */
  predicate Changes(points: seq<Point>, p: Point) {
    points == [] || points[0].direction != p.direction || Exceeds(p.direction, p.level, points[0].level)
  }

  function Push(points: seq<Point>, p: Point): seq<Point> {
    if points == [] || points[0].direction != p.direction then [p] + points
    else if Exceeds(p.direction, p.level, points[0].level) then points[0 := p]
    else points
  }

  /** The list after all of `ps`, newest first. */
  function Zigzag(ps: seq<Point>): seq<Point> {
    if ps == [] then [] else Push(Zigzag(ps[..|ps| - 1]), ps[|ps| - 1])
  }

  class ZigzagList {
    var points: seq<Point>

    constructor ()
      ensures points == []
    {
      points := [];
    }

    method Update(p: Point) returns (changed: bool)
      modifies this
      ensures points == Push(old(points), p) && changed == Changes(old(points), p)
    {
      if points == [] || points[0].direction != p.direction {
        points := [p] + points;
        return true;
      }
      var current := points[0];
      if (p.direction == High && p.level > current.level) || (p.direction == Low && p.level < current.level) {
        points := points[0 := p];
        return true;
      }
      return false;
    }
  }

  // ----- What the list holds

  ghost predicate Alternating(points: seq<Point>) {
    forall i :: 0 < i < |points| ==> points[i].direction != points[i - 1].direction
  }

  /** `ps[j..k + 1]` all point one way. */
  ghost predicate SameRun(ps: seq<Point>, j: nat, k: nat)
    requires j <= k < |ps|
  {
    forall i :: j <= i <= k ==> ps[i].direction == ps[k].direction
  }

  /** `ps[k]` is the first most extreme point of its run of equal direction. */
  ghost predicate IsLeader(ps: seq<Point>, k: nat)
    requires k < |ps|
  {
    && (forall j :: 0 <= j < k && SameRun(ps, j, k) ==> Exceeds(ps[k].direction, ps[k].level, ps[j].level))
    && (forall j :: k < j < |ps| && SameRun(ps, k, j) ==> !Exceeds(ps[k].direction, ps[j].level, ps[k].level))
  }

  /** The positions in `ps` of the points the list holds. */
  ghost function Held(ps: seq<Point>): seq<nat> {
    if ps == [] then []
    else
      var n := |ps| - 1;
      var before, points := Held(ps[..n]), Zigzag(ps[..n]);
      if points == [] || before == [] || points[0].direction != ps[n].direction then [n] + before
      else if Exceeds(ps[n].direction, ps[n].level, points[0].level) then before[0 := n]
      else before
  }

  ghost predicate Descending(at: seq<nat>, n: nat) {
    && (forall i :: 0 <= i < |at| ==> at[i] < n)
    && (forall i, j :: 0 <= i < j < |at| ==> at[j] < at[i])
  }

  lemma {:induction false} HeldPoints(ps: seq<Point>)
    ensures |Held(ps)| == |Zigzag(ps)| && Descending(Held(ps), |ps|) && (ps != [] ==> Held(ps) != [])
    ensures forall i :: 0 <= i < |Held(ps)| ==> Zigzag(ps)[i] == ps[Held(ps)[i]]
  {
    if ps != [] {
      HeldPoints(ps[..|ps| - 1]);
    }
  }

  lemma {:induction false} ZigzagAlternates(ps: seq<Point>)
    ensures Alternating(Zigzag(ps))
  {
    if ps != [] {
      ZigzagAlternates(ps[..|ps| - 1]);
    }
  }

  lemma SameRunPrefix(ps: seq<Point>, n: nat, j: nat, k: nat)
    requires j <= k < n <= |ps|
    ensures SameRun(ps[..n], j, k) == SameRun(ps, j, k)
  {
    var q := ps[..n];
    assert forall i :: j <= i <= k ==> q[i] == ps[i];
    if SameRun(q, j, k) {
      forall i | j <= i <= k ensures ps[i].direction == ps[k].direction {
        assert q[i].direction == q[k].direction;
      }
    }
    if SameRun(ps, j, k) {
      forall i | j <= i <= k ensures q[i].direction == q[k].direction {
        assert ps[i].direction == ps[k].direction;
      }
    }
  }

  /** Adding one point only costs a leader its place if the point exceeds it in the same run. */
  lemma LeaderStep(ps: seq<Point>, k: nat)
    requires k < |ps| - 1
    ensures IsLeader(ps, k) <==>
      IsLeader(ps[..|ps| - 1], k)
      && !(SameRun(ps, k, |ps| - 1) && Exceeds(ps[k].direction, ps[|ps| - 1].level, ps[k].level))
  {
    var n := |ps| - 1;
    var q := ps[..n];
    forall j | 0 <= j < n
      ensures j <= k ==> SameRun(q, j, k) == SameRun(ps, j, k)
      ensures j >= k ==> SameRun(q, k, j) == SameRun(ps, k, j)
    {
      if j <= k {
        SameRunPrefix(ps, n, j, k);
      }
      if j >= k {
        SameRunPrefix(ps, n, k, j);
      }
    }
  }

  ghost predicate LeadsTheEnd(ps: seq<Point>, h: nat)
    requires ps != []
  {
    h < |ps| && SameRun(ps, h, |ps| - 1) && IsLeader(ps, h)
  }

  /** A run has one leader. */
  lemma OneLeader(ps: seq<Point>, h: nat, k: nat)
    requires ps != [] && LeadsTheEnd(ps, h) && k < |ps| && SameRun(ps, k, |ps| - 1) && IsLeader(ps, k)
    ensures h == k
  {
    assert ps[k].direction == ps[h].direction;
    assert h < k ==> SameRun(ps, h, k);
    assert k < h ==> SameRun(ps, k, h);
  }

  lemma ReplaceHead(at: seq<nat>, h: nat, n: nat)
    requires at != [] && at[0] == h && Descending(at, n)
    ensures forall k: nat :: k in at[0 := n] <==> k == n || (k in at && k != h)
  {
    var r := at[0 := n];
    forall k: nat ensures k in r <==> k == n || (k in at && k != h) {
      if k in r {
        var i :| 0 <= i < |r| && r[i] == k;
        assert i == 0 || at[i] == k;
      }
      if k in at && k != h {
        var i :| 0 <= i < |at| && at[i] == k;
        assert r[i] == k;
      }
      assert r[0] == n;
    }
  }

  lemma HeldJoins(ps: seq<Point>, n: nat, h: nat)
    requires |ps| == n + 1 && n > 0 && Held(ps[..n]) != [] && h == Held(ps[..n])[0] && h < n
    requires ps[h].direction == ps[n].direction
    ensures Held(ps) != [] && Held(ps)[0] == if Exceeds(ps[n].direction, ps[n].level, ps[h].level) then n else h
    ensures Exceeds(ps[n].direction, ps[n].level, ps[h].level) ==>
      forall k: nat :: k in Held(ps) <==> k == n || (k in Held(ps[..n]) && k != h)
    ensures !Exceeds(ps[n].direction, ps[n].level, ps[h].level) ==> Held(ps) == Held(ps[..n])
  {
    var before := Held(ps[..n]);
    HeldPoints(ps[..n]);
    assert Zigzag(ps[..n])[0] == ps[h];
    if Exceeds(ps[n].direction, ps[n].level, ps[h].level) {
      assert Held(ps) == before[0 := n];
      ReplaceHead(before, h, n);
    }
  }

  lemma LeaderDirection(ps: seq<Point>, h: nat)
    requires ps != [] && LeadsTheEnd(ps, h)
    ensures ps[h].direction == ps[|ps| - 1].direction
  {
  }

  lemma {:induction false} HeldAreLeaders(ps: seq<Point>)
    ensures forall k :: 0 <= k < |ps| ==> (k in Held(ps) <==> IsLeader(ps, k))
    ensures ps != [] ==> Held(ps) != [] && LeadsTheEnd(ps, Held(ps)[0])
  {
    hide SameRun, IsLeader, Exceeds, Zigzag, Push;
    if ps != [] {
      var n := |ps| - 1;
      HeldAreLeaders(ps[..n]);
      HeldPoints(ps[..n]);
      HeldPoints(ps);
      forall k | 0 <= k < n ensures IsLeader(ps, k) <==>
        IsLeader(ps[..n], k) && !(SameRun(ps, k, n) && Exceeds(ps[k].direction, ps[n].level, ps[k].level))
      {
        LeaderStep(ps, k);
      }
      if n == 0 {
        TurnLeads(ps, n);
      } else {
        var h := Held(ps[..n])[0];
        LeaderDirection(ps[..n], h);
        if ps[h].direction == ps[n].direction {
          JoinLeads(ps, n, h);
          HeldJoins(ps, n, h);
        } else {
          TurnLeads(ps, n);
        }
      }
    }
  }

  /** A point that turns leads a run of its own. */
  lemma TurnLeads(ps: seq<Point>, n: nat)
    requires |ps| == n + 1 && (n > 0 ==> ps[n - 1].direction != ps[n].direction)
    ensures forall k :: 0 <= k < n ==> !SameRun(ps, k, n)
    ensures LeadsTheEnd(ps, n)
  {
    forall k | 0 <= k < n ensures !SameRun(ps, k, n) {
      assert ps[n - 1].direction != ps[n].direction;
    }
  }

  /** A point that continues the run replaces its leader exactly when it exceeds it. */
  lemma JoinLeads(ps: seq<Point>, n: nat, h: nat)
    requires |ps| == n + 1 && n > 0 && LeadsTheEnd(ps[..n], h) && ps[h].direction == ps[n].direction
    ensures SameRun(ps, h, n) && SameRun(ps, n, n)
    ensures forall k :: 0 <= k < n && IsLeader(ps[..n], k) && SameRun(ps, k, n) ==> k == h
    ensures Exceeds(ps[n].direction, ps[n].level, ps[h].level) <==> IsLeader(ps, n)
  {
    var q := ps[..n];
    SameRunPrefix(ps, n, h, n - 1);
    assert SameRun(ps, h, n) by {
      assert ps[h].direction == ps[n - 1].direction;
    }
    forall k | 0 <= k < n && SameRun(ps, k, n) ensures SameRun(q, k, n - 1) {
      assert ps[n - 1].direction == ps[n].direction;
      assert SameRun(ps, k, n - 1);
      SameRunPrefix(ps, n, k, n - 1);
    }
    forall k | 0 <= k < n && IsLeader(q, k) && SameRun(ps, k, n) ensures k == h {
      OneLeader(q, h, k);
    }
    forall j | 0 <= j < n && SameRun(ps, j, n)
      ensures !Exceeds(ps[n].direction, ps[j].level, ps[h].level)
    {
      assert q[j].direction == q[h].direction == ps[n].direction;
      if j < h {
        assert SameRun(q, j, h);
      } else if j > h {
        assert SameRun(q, h, j);
      }
    }
  }

  // ----- Pivots along the series

  /** A point of the series: a pivot confirmed before bar `n`. */
  ghost predicate IsPivot(bars: seq<Bar>, left: nat, n: nat, p: Point)
    requires n <= |bars|
  {
    p.index + 1 < n && Confirms(bars, left, p.direction, p.index + 1) && p == PointAt(bars, p.direction, p.index + 1)
  }

  /** Never back in time, and never one bar twice in the same direction. */
  ghost predicate Forward(ps: seq<Point>) {
    forall j, k :: 0 <= j < k < |ps| ==>
      ps[j].index <= ps[k].index && (ps[j].direction == ps[k].direction ==> ps[j].index < ps[k].index)
  }

  lemma {:induction false} PointsArePivots(bars: seq<Bar>, left: nat, n: nat)
    requires n <= |bars|
    ensures forall k :: 0 <= k < |Points(bars, left, n)| ==> IsPivot(bars, left, n, Points(bars, left, n)[k])
    ensures Forward(Points(bars, left, n))
  {
    if n > 0 {
      PointsArePivots(bars, left, n - 1);
      var before, now := Points(bars, left, n - 1), PointsAt(bars, left, n - 1);
      forall k | 0 <= k < |now| ensures IsPivot(bars, left, n, now[k]) && now[k].index + 2 == n {
        ConfirmedOnce(bars, left, n - 1);
      }
      forall k | 0 <= k < |before| ensures before[k].index + 2 < n && IsPivot(bars, left, n, before[k]) {
        assert IsPivot(bars, left, n - 1, before[k]);
      }
      ConfirmedOnce(bars, left, n - 1);
      ForwardJoin(before, now, n);
    }
  }

  lemma ConfirmedOnce(bars: seq<Bar>, left: nat, i: nat)
    requires i < |bars|
    ensures var ds := Confirmed(bars, left, i);
      (forall k :: 0 <= k < |ds| ==> Confirms(bars, left, ds[k], i)) && (|ds| == 2 ==> ds[0] != ds[1])
  {
  }

  lemma ForwardJoin(before: seq<Point>, now: seq<Point>, n: nat)
    requires Forward(before) && forall k :: 0 <= k < |before| ==> before[k].index + 2 < n
    requires |now| <= 2 && (|now| == 2 ==> now[0].direction != now[1].direction)
    requires forall k :: 0 <= k < |now| ==> now[k].index + 2 == n
    ensures Forward(before + now)
  {
  }

  lemma {:induction false} PointsAreCausal(bars: seq<Bar>, longer: seq<Bar>, left: nat, n: nat)
    requires n <= |bars| && bars <= longer
    ensures Points(bars, left, n) == Points(longer, left, n)
  {
    if n > 0 {
      PointsAreCausal(bars, longer, left, n - 1);
      ConfirmedIsCausal(bars, longer, left, n - 1);
    }
  }

  /** A pivot is settled by the bar that confirms it. */
  lemma ConfirmedIsCausal(bars: seq<Bar>, longer: seq<Bar>, left: nat, i: nat)
    requires i < |bars| && bars <= longer
    ensures Confirmed(bars, left, i) == Confirmed(longer, left, i)
    ensures PointsAt(bars, left, i) == PointsAt(longer, left, i)
  {
    assert forall j :: 0 <= j < |bars| ==> longer[j] == bars[j];
    assert forall d :: Confirms(bars, left, d, i) == Confirms(longer, left, d, i);
  }

  /** The list alternates, never runs forward in time, and holds each pivot at most once. */
  lemma ZigzagShape(bars: seq<Bar>, left: nat, n: nat)
    requires n <= |bars|
    ensures var points := Zigzag(Points(bars, left, n));
      && Alternating(points)
      && (forall k :: 0 <= k < |points| ==> IsPivot(bars, left, n, points[k]))
      && (forall j, k :: 0 <= j < k < |points| ==>
            points[k].index <= points[j].index
            && (points[j].direction == points[k].direction ==> points[k].index < points[j].index))
  {
    var ps := Points(bars, left, n);
    PointsArePivots(bars, left, n);
    HeldPoints(ps);
    ZigzagAlternates(ps);
  }
}
