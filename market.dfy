/** The optional value used for a cell that may be missing (NaN in a data frame). */
module Wrappers {
  datatype Option<+T> = None | Some(value: T)
}

/**
 * The data handed to the breadth aggregator: one daily series of
 * (date, close, volume) samples per ticker, in the order the tickers were
 * stored.  Either cell of a sample may be missing.
 */
module Market {
  import opened Wrappers

  /** One trading day of one ticker; dates are abstract day numbers. */
  datatype Sample = Sample(date: int, close: Option<real>, volume: Option<real>)

  /** The daily history of one ticker. */
  type Series = seq<Sample>

  /** One output record: a day and the two breadth percentages for it. */
  datatype Point = Point(date: int, pctDeclining: real, pctVolumeDeclining: real)

  /** The dates of a series, in its own order. */
  function Dates(s: Series): seq<int>
  {
    seq(|s|, k requires 0 <= k < |s| => s[k].date)
  }

  predicate Distinct(xs: seq<int>)
  {
    forall i, j :: 0 <= i < j < |xs| ==> xs[i] != xs[j]
  }

  predicate StrictlyIncreasing(xs: seq<int>)
  {
    forall i, j :: 0 <= i < j < |xs| ==> xs[i] < xs[j]
  }

  /** A series is a valid frame index: no date occurs twice. */
  predicate DistinctDates(s: Series)
  {
    Distinct(Dates(s))
  }

  /** What the aggregator demands of its input: every series has a unique date index. */
  predicate WellFormed(data: seq<Series>)
  {
    forall k :: 0 <= k < |data| ==> DistinctDates(data[k])
  }

  /** Every volume of the series that is present is non-negative. */
  predicate VolumesNonNegative(s: Series)
  {
    forall x :: x in s && x.volume.Some? ==> x.volume.value >= 0.0
  }

  /** Every volume that is present is non-negative (as traded volumes are). */
  predicate AllVolumesNonNegative(data: seq<Series>)
  {
    forall k :: 0 <= k < |data| ==> VolumesNonNegative(data[k])
  }

  /**
   * The row of series `s` at date `d`: the sample with that date, or None
   * when the series has no such row (for an empty series: no column at all).
   */
  function Lookup(s: Series, d: int): (r: Option<Sample>)
    ensures r.Some? <==> d in Dates(s)
    ensures r.Some? ==> r.value in s && r.value.date == d
  {
    if s == [] then None
    else
      assert Dates(s) == [s[0].date] + Dates(s[1..]);
      if s[0].date == d then Some(s[0]) else Lookup(s[1..], d)
  }

  /** In a series with a unique date index, the lookup finds THE sample of that date. */
  lemma {:induction false} LookupFinds(s: Series, x: Sample)
    requires DistinctDates(s)
    requires x in s
    ensures Lookup(s, x.date) == Some(x)
  {
    assert Dates(s) == [s[0].date] + Dates(s[1..]);
    if s[0] != x {
      var j :| 0 <= j < |s| && s[j] == x;
      assert Dates(s)[0] == s[0].date && Dates(s)[j] == x.date;
      assert s[0].date != x.date;
      assert s[1..][j - 1] == x;
      assert Distinct(Dates(s[1..])) by {
        forall i, i' | 0 <= i < i' < |s[1..]|
          ensures Dates(s[1..])[i] != Dates(s[1..])[i']
        {
          assert Dates(s[1..])[i] == Dates(s)[i + 1];
          assert Dates(s[1..])[i'] == Dates(s)[i' + 1];
        }
      }
      LookupFinds(s[1..], x);
    }
  }
}
