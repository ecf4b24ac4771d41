/** A replayed evaluation against the live one: what plugins learn, what they observe and what is decided. */
module Parity {
  import opened Sequences
  import opened Candles
  import opened Resampling
  import opened Replay
  import Graph = IndicatorGraph
  import Policy = DecisionPolicy

  /** The timeframe of each role, in minutes; resampling refuses a role of one minute. */
  type Roles = roles: map<nat, nat> | forall r :: r in roles ==> roles[r] > 1 witness map[]

  /** The live engine resamples the candles of its window and hands over the timeframes of the roles. */
  function LiveContext(cs: seq<ClosedCandle>, instrument: nat, roles: Roles, lo: nat, hi: nat,
                       evaluationMs: int): Graph.Context
    requires lo <= hi <= |cs|
  {
    Graph.Context(instrument, evaluationMs, map r | r in roles :: Live(cs, roles[r], lo, hi), roles)
  }

  /** The replay slices the series of all candles, and hands over no timeframes. */
  function ReplayContext(cs: seq<ClosedCandle>, instrument: nat, roles: Roles, after: int,
                         evaluationMs: int): Graph.Context
  {
    Graph.Context(instrument, evaluationMs,
                  map r | r in roles :: Window(Bars(cs, roles[r], 0, |cs|, |cs|), after, evaluationMs), map[])
  }

  /** The window starts on a boundary of the timeframe or the bucket it cuts begins before the data, and the first
      bucket that begins inside the window has closed by the evaluation. */
  predicate Agrees(cs: seq<ClosedCandle>, minutes: nat, lo: nat, evaluationMs: int)
    requires minutes > 1 && lo < |cs|
  {
    var t, duration := cs[lo].openMs, Duration(minutes);
    && (StartOf(t, duration) == t || StartOf(t, duration) < cs[0].openMs)
    && BoundaryFrom(t, duration) + duration - 1 <= evaluationMs
  }

  /** One role's series and timeframe, as a plugin learns them. */
  function LearntOf(c: Graph.Context, role: nat): (seq<Derived>, Option<nat>)
    requires role in c.candles
  {
    (c.candles[role], Graph.TimeframeOf(c, role))
  }

  lemma ViewsByRole(a: Graph.Context, b: Graph.Context)
    requires a.instrument == b.instrument && a.evaluationMs == b.evaluationMs && a.candles.Keys == b.candles.Keys
    ensures Graph.ViewOf(a) == Graph.ViewOf(b) <==> forall r :: r in a.candles ==> LearntOf(a, r) == LearntOf(b, r)
  {
    hide Graph.TimeframeOf;
    var x, y := Graph.ViewOf(a), Graph.ViewOf(b);
    if x == y {
      forall r | r in a.candles ensures LearntOf(a, r) == LearntOf(b, r) {
        assert x.candles[r] == y.candles[r] && x.timeframes[r] == y.timeframes[r];
      }
    }
    if forall r :: r in a.candles ==> LearntOf(a, r) == LearntOf(b, r) {
      forall r | r in a.candles
        ensures a.candles[r] == b.candles[r] && Graph.TimeframeOf(a, r) == Graph.TimeframeOf(b, r)
      {
        assert LearntOf(a, r) == LearntOf(b, r);
      }
    }
  }

  /** Without the timeframes it is known exactly while there is a bar. */
  lemma SlicedTimeframe(cs: seq<ClosedCandle>, instrument: nat, roles: Roles, after: int, evaluationMs: int, role: nat)
    requires GapFree(cs) && after <= evaluationMs && forall i :: 0 <= i < |cs| ==> cs[i].instrument == instrument
    requires role in roles
    ensures var c := ReplayContext(cs, instrument, roles, after, evaluationMs);
      Graph.TimeframeOf(c, role) == if c.candles[role] == [] then None else Some(roles[role])
  {
    hide Window, Bars, GapFree;
    ReplayAcceptable(cs, instrument, roles[role], after, evaluationMs);
  }

  /** For one role a plugin learns the same exactly if the role agrees. */
  lemma RoleAgrees(cs: seq<ClosedCandle>, instrument: nat, roles: Roles, lo: nat, hi: nat, after: int,
                   evaluationMs: int, role: nat)
    requires lo < hi <= |cs| && GapFree(cs) && evaluationMs == cs[hi - 1].CloseMs() && role in roles
    requires after == evaluationMs - (hi - lo) * MINUTE_MS
    requires forall i :: 0 <= i < |cs| ==> cs[i].instrument == instrument
    ensures LearntOf(LiveContext(cs, instrument, roles, lo, hi, evaluationMs), role)
              == LearntOf(ReplayContext(cs, instrument, roles, after, evaluationMs), role)
      <==> Agrees(cs, roles[role], lo, evaluationMs)
  {
    hide Window, Bars, GapFree, Live;
    var minutes, t := roles[role], cs[lo].openMs;
    ReplayEqualsLive(cs, minutes, lo, hi, after, evaluationMs, StartOf(t, Duration(minutes)));
    SomeLiveBar(cs, minutes, lo, hi, evaluationMs);
    SlicedTimeframe(cs, instrument, roles, after, evaluationMs, role);
    StartBounds(t, Duration(minutes));
  }

  /** A plugin learns the same from both contexts exactly if every role agrees. */
  lemma SameView(cs: seq<ClosedCandle>, instrument: nat, roles: Roles, lo: nat, hi: nat, after: int, evaluationMs: int)
    requires lo < hi <= |cs| && GapFree(cs) && evaluationMs == cs[hi - 1].CloseMs()
    requires after == evaluationMs - (hi - lo) * MINUTE_MS
    requires forall i :: 0 <= i < |cs| ==> cs[i].instrument == instrument
    ensures Graph.ViewOf(LiveContext(cs, instrument, roles, lo, hi, evaluationMs))
              == Graph.ViewOf(ReplayContext(cs, instrument, roles, after, evaluationMs))
      <==> forall r :: r in roles ==> Agrees(cs, roles[r], lo, evaluationMs)
  {
    hide GapFree, Agrees, LearntOf, Window, Live, Bars;
    var live, replay := LiveContext(cs, instrument, roles, lo, hi, evaluationMs),
                        ReplayContext(cs, instrument, roles, after, evaluationMs);
    assert live.candles.Keys == roles.Keys == replay.candles.Keys;
    ViewsByRole(live, replay);
    forall r | r in roles ensures LearntOf(live, r) == LearntOf(replay, r) <==> Agrees(cs, roles[r], lo, evaluationMs) {
      RoleAgrees(cs, instrument, roles, lo, hi, after, evaluationMs, r);
    }
  }

  /** What the policy is given: each observation as `read` tells it. */
  function Evidence(observations: map<nat, Graph.Observation>, read: Graph.Observation -> Policy.Observation):
    map<nat, Policy.Observation>
  {
    map id | id in observations :: read(observations[id])
  }

  /** Where every role agrees, a replayed evaluation is the live one: the graph gives the same observations or stops at
      the same node for the same reason, whatever the plugins, and the policy comes to the same verdict. */
  lemma ReplayDecidesAsLive(cs: seq<ClosedCandle>, instrument: nat, roles: Roles, lo: nat, hi: nat, after: int,
                            evaluationMs: int, ordered: seq<Graph.Node>, plugins: Graph.Plugins,
                            signals: seq<Policy.Signal>, read: Graph.Observation -> Policy.Observation,
                            live: Graph.Execution, replay: Graph.Execution)
    requires lo < hi <= |cs| && GapFree(cs) && evaluationMs == cs[hi - 1].CloseMs()
    requires after == evaluationMs - (hi - lo) * MINUTE_MS
    requires forall i :: 0 <= i < |cs| ==> cs[i].instrument == instrument
    requires forall r :: r in roles ==> Agrees(cs, roles[r], lo, evaluationMs)
    requires Graph.DependenciesFirst(ordered, {})
    requires Graph.Executes(ordered, LiveContext(cs, instrument, roles, lo, hi, evaluationMs), plugins, live)
    requires Graph.Executes(ordered, ReplayContext(cs, instrument, roles, after, evaluationMs), plugins, replay)
    ensures live == replay
    ensures live.Executed? ==> Policy.OrderedVerdict(signals, Evidence(live.observations, read))
                               == Policy.OrderedVerdict(signals, Evidence(replay.observations, read))
  {
    hide GapFree, Agrees, Graph.Executes, Graph.DependenciesFirst, Graph.ViewOf, LiveContext, ReplayContext;
    SameView(cs, instrument, roles, lo, hi, after, evaluationMs);
    Graph.ExecutionDetermined(ordered, LiveContext(cs, instrument, roles, lo, hi, evaluationMs),
                              ReplayContext(cs, instrument, roles, after, evaluationMs), plugins, live, replay);
  }

  /** Where a role has no live bar and none straddles, the series are equal, but only the live context knows the
      timeframe: a plugin that asks for it raises in the replay alone. */
  lemma EmptyRoleDiffers(cs: seq<ClosedCandle>, instrument: nat, roles: Roles, lo: nat, hi: nat, after: int,
                         evaluationMs: int, role: nat)
    requires lo < hi <= |cs| && GapFree(cs) && evaluationMs == cs[hi - 1].CloseMs() && role in roles
    requires after == evaluationMs - (hi - lo) * MINUTE_MS
    requires forall i :: 0 <= i < |cs| ==> cs[i].instrument == instrument
    requires var t, duration := cs[lo].openMs, Duration(roles[role]); StartOf(t, duration) + duration - 1 > evaluationMs
    ensures var live := LiveContext(cs, instrument, roles, lo, hi, evaluationMs);
      var replay := ReplayContext(cs, instrument, roles, after, evaluationMs);
      && live.candles[role] == replay.candles[role] == []
      && Graph.TimeframeOf(live, role) == Some(roles[role]) && Graph.TimeframeOf(replay, role) == None
  {
    hide Window, Bars, GapFree, Live;
    var minutes, t := roles[role], cs[lo].openMs;
    ReplayEqualsLive(cs, minutes, lo, hi, after, evaluationMs, StartOf(t, Duration(minutes)));
    SomeLiveBar(cs, minutes, lo, hi, evaluationMs);
    SlicedTimeframe(cs, instrument, roles, after, evaluationMs, role);
  }

  /** An instance: ten minutes hold no bar of an hour. */
  lemma EmptyRoleInstance()
    ensures var live := LiveContext(TenMinutes(), 0, map[0 := 60], 0, 10, 10 * MINUTE_MS - 1);
      var replay := ReplayContext(TenMinutes(), 0, map[0 := 60], -1, 10 * MINUTE_MS - 1);
      Graph.TimeframeOf(live, 0) == Some(60) && Graph.TimeframeOf(replay, 0) == None
  {
    hide Window, Bars, GapFree, Live, LiveContext, ReplayContext;
    BucketOf(0, 0, Duration(60));
    EmptyRoleDiffers(TenMinutes(), 0, map[0 := 60], 0, 10, -1, 10 * MINUTE_MS - 1, 0);
  }
}
