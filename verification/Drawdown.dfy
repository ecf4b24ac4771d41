/** The greatest fall of a running total. */
module Drawdown {
  import opened Averages

  /** The running total after `n` results, from zero. */
  function Running(values: seq<real>, n: nat): real
    requires n <= |values|
  {
    Sum(values, 0, n)
  }

  /** The greatest fall of the running total from an earlier to a later point. */
  ghost predicate IsDrawdown(values: seq<real>, n: nat, r: real)
    requires n <= |values|
  {
    && (forall i, j :: 0 <= i <= j <= n ==> Running(values, i) - Running(values, j) <= r)
    && (exists i, j :: 0 <= i <= j <= n && Running(values, i) - Running(values, j) == r)
  }

  ghost predicate IsPeak(values: seq<real>, n: nat, r: real)
    requires n <= |values|
  {
    && (forall i :: 0 <= i <= n ==> Running(values, i) <= r)
    && (exists i :: 0 <= i <= n && Running(values, i) == r)
  }

  lemma PeakStep(values: seq<real>, n: nat, peak: real, cumulative: real)
    requires n < |values| && IsPeak(values, n, peak) && cumulative == Running(values, n + 1)
    ensures IsPeak(values, n + 1, Max(peak, cumulative))
  {
    var i :| 0 <= i <= n && Running(values, i) == peak;
    assert Running(values, if peak >= cumulative then i else n + 1) == Max(peak, cumulative);
  }

  lemma DrawdownStep(values: seq<real>, n: nat, peak: real, drawdown: real, cumulative: real)
    requires n < |values| && IsPeak(values, n + 1, peak) && IsDrawdown(values, n, drawdown)
    requires cumulative == Running(values, n + 1)
    ensures IsDrawdown(values, n + 1, Max(drawdown, peak - cumulative))
  {
    hide Running;
    var i, j :| 0 <= i <= j <= n && Running(values, i) - Running(values, j) == drawdown;
    var k :| 0 <= k <= n + 1 && Running(values, k) == peak;
    if drawdown >= peak - cumulative {
      assert Running(values, i) - Running(values, j) == Max(drawdown, peak - cumulative);
    } else {
      assert Running(values, k) - Running(values, n + 1) == Max(drawdown, peak - cumulative);
    }
  }

  /** The peak and the greatest fall after `n` results. */
  ghost predicate Tracks(values: seq<real>, n: nat, peak: real, drawdown: real)
    requires n <= |values|
  {
    IsPeak(values, n, peak) && IsDrawdown(values, n, drawdown)
  }

  lemma FallStep(values: seq<real>, n: nat, next: nat, peak: real, drawdown: real, cumulative: real)
    requires next == n + 1 <= |values| && Tracks(values, n, peak, drawdown)
    requires cumulative == Running(values, n) + values[n]
    ensures cumulative == Running(values, next)
    ensures var top := Max(peak, cumulative); Tracks(values, next, top, Max(drawdown, top - cumulative))
  {
    PeakStep(values, n, peak, cumulative);
    DrawdownStep(values, n, Max(peak, cumulative), drawdown, cumulative);
  }

  lemma NothingYet(values: seq<real>)
    ensures Running(values, 0) == 0.0 && Tracks(values, 0, 0.0, 0.0)
  {
    assert Running(values, 0) - Running(values, 0) == 0.0;
  }

  /** Two values of the greatest fall are equal. */
  lemma DrawdownUnique(values: seq<real>, x: real, y: real)
    requires IsDrawdown(values, |values|, x) && IsDrawdown(values, |values|, y)
    ensures x == y
  {
    var i, j :| 0 <= i <= j <= |values| && Running(values, i) - Running(values, j) == x;
    var k, l :| 0 <= k <= l <= |values| && Running(values, k) - Running(values, l) == y;
  }
}
