/** The median and the median deviation that calibration takes of its measurements. */
module Quantiles {
  import opened Sorting

  predicate NotAbove(a: real, b: real) {
    a <= b
  }

  ghost predicate Rising(s: seq<real>) {
    forall i, j | 0 <= i < j < |s| :: s[i] <= s[j]
  }

  function SortReals(s: seq<real>): (r: seq<real>)
    ensures Rising(r) && multiset(r) == multiset(s)
  {
    SortSorts(NotAbove, s);
    Sort(NotAbove, s)
  }

  lemma SortRealsSize(s: seq<real>)
    ensures |SortReals(s)| == |s|
  {
    assert |multiset(SortReals(s))| == |multiset(s)|;
  }

  /** values.quantile(0.5): the middle of the sorted values, or half way between the two in the middle. */
  function Median(values: seq<real>): real
    requires values != []
  {
    SortRealsSize(values);
    var s := SortReals(values);
    (s[(|s| - 1) / 2] + s[|s| / 2]) / 2.0
  }

  function Absolute(x: real): real {
    if x < 0.0 then -x else x
  }

  function Distances(values: seq<real>, m: real): seq<real> {
    seq(|values|, i requires 0 <= i < |values| => Absolute(values[i] - m))
  }

  // ---------------------------------------------------------------- what they are

  /** In rising order, twice m is the sum of the one or two values in the middle. */
  ghost predicate IsMedian(m: real, values: seq<real>) {
    exists s :: Rising(s) && multiset(s) == multiset(values) && InTheMiddle(m, s)
  }

  ghost predicate InTheMiddle(m: real, s: seq<real>) {
    s != [] && m + m == if |s| % 2 == 1 then s[|s| / 2] + s[|s| / 2] else s[|s| / 2 - 1] + s[|s| / 2]
  }

  lemma MedianIs(values: seq<real>)
    requires values != []
    ensures IsMedian(Median(values), values)
  {
    SortRealsSize(values);
    var s := SortReals(values);
    assert Rising(s) && multiset(s) == multiset(values) && InTheMiddle(Median(values), s);
  }

  lemma MedianIsUnique(m: real, m': real, values: seq<real>)
    requires IsMedian(m, values) && IsMedian(m', values)
    ensures m == m'
  {
    var s :| Rising(s) && multiset(s) == multiset(values) && InTheMiddle(m, s);
    var s' :| Rising(s') && multiset(s') == multiset(values) && InTheMiddle(m', s');
    SortedOnce(NotAbove, s, s');
  }

  /** |x - m| for every value x, in the same places. */
  ghost predicate AreDistances(d: seq<real>, values: seq<real>, m: real) {
    && |d| == |values|
    && forall i | 0 <= i < |d| :: d[i] >= 0.0 && (d[i] == values[i] - m || d[i] == m - values[i])
  }

  lemma DistancesAre(d: seq<real>, values: seq<real>, m: real)
    ensures AreDistances(d, values, m) <==> d == Distances(values, m)
  {
  }

  /** m is the median of the values and d the median of their distances from it. */
  ghost predicate MedianAndDeviation(m: real, d: real, values: seq<real>) {
    IsMedian(m, values) && exists ds :: AreDistances(ds, values, m) && IsMedian(d, ds)
  }

  lemma HasMedianAndDeviation(values: seq<real>)
    requires values != []
    ensures var m := Median(values); MedianAndDeviation(m, Median(Distances(values, m)), values)
  {
    var m := Median(values);
    MedianIs(values);
    DistancesAre(Distances(values, m), values, m);
    MedianIs(Distances(values, m));
  }

  lemma OneMedianAndDeviation(m: real, d: real, m': real, d': real, values: seq<real>)
    requires MedianAndDeviation(m, d, values) && MedianAndDeviation(m', d', values)
    ensures m == m' && d == d'
  {
    MedianIsUnique(m, m', values);
    var ds :| AreDistances(ds, values, m) && IsMedian(d, ds);
    var ds' :| AreDistances(ds', values, m) && IsMedian(d', ds');
    DistancesAre(ds, values, m);
    DistancesAre(ds', values, m);
    MedianIsUnique(d, d', ds);
  }
}
