/** The middle of a list of numbers. */
module Medians {
  import opened Sequences

  predicate AtMost(x: real, y: real) { x <= y }

  /** The middle value, or the mean of the two middle values. */
  function Median(values: seq<real>): (r: Option<real>)
    ensures r.None? <==> values == []
  {
    if values == [] then None
    else
      var sorted, half := Sort(AtMost, values), |values| / 2;
      if |values| % 2 == 1 then Some(sorted[half]) else Some((sorted[half - 1] + sorted[half]) / 2.0)
  }

  lemma AtMostTotal()
    ensures TotalPreorder(AtMost)
  {
  }

  /** A selection from the first `k` places only. */
  lemma SelectedEarly(p: real -> bool, s: seq<real>, k: nat)
    requires k <= |s| && forall i :: k <= i < |s| ==> !p(s[i])
    ensures |Filter(p, s)| <= k
  {
    var early, late := s[..k], s[k..];
    assert s == early + late;
    FilterConcat(p, early, late);
    FilterNone(p, late);
  }

  /** A selection from place `k` on only. */
  lemma SelectedLate(p: real -> bool, s: seq<real>, k: nat)
    requires k <= |s| && forall i :: 0 <= i < k ==> !p(s[i])
    ensures |Filter(p, s)| <= |s| - k
  {
    var early, late := s[..k], s[k..];
    assert s == early + late;
    FilterConcat(p, early, late);
    FilterNone(p, early);
  }

  /** At most half of the values lie below the median and at most half above. */
  lemma MedianSplits(values: seq<real>, below: real -> bool, above: real -> bool)
    requires values != []
    requires forall x :: (below(x) <==> x < Median(values).value) && (above(x) <==> x > Median(values).value)
    ensures 2 * |Filter(below, values)| <= |values| && 2 * |Filter(above, values)| <= |values|
  {
    hide Filter, Sort;
    var sorted, n, half: nat := Sort(AtMost, values), |values|, |values| / 2;
    AtMostTotal();
    SortSorts(AtMost, values);
    FilterSort(AtMost, below, values);
    FilterSort(AtMost, above, values);
    var m := Median(values).value;
    forall i | 0 <= i < n ensures (i >= half ==> sorted[i] >= m) && (i < n - half ==> sorted[i] <= m) {
      assert i >= half ==> i == half || AtMost(sorted[half], sorted[i]);
      assert i < n - half - 1 ==> AtMost(sorted[i], sorted[n - half - 1]);
      assert n % 2 == 0 ==> AtMost(sorted[half - 1], sorted[half]);
    }
    SelectedEarly(below, sorted, half);
    SelectedLate(above, sorted, n - half);
  }
}
