/**
 * What the breadth trend promises, proved about Breadth.Trend (and hence,
 * through AnalyzeTrend's postcondition, about the loop that computes it).
 */
module BreadthProperties {
  import opened Market
  import opened Align
  import opened DayCount
  import opened Breadth

  /** `p` is the record that row `i` yields: the day qualifies and `p` holds its ratios. */
  predicate RecordOf(data: seq<Series>, rows: seq<int>, i: nat, p: Point)
  {
    1 <= i < |rows| && Emits(TallyAt(data, rows, i)) && p == Ratios(rows[i], TallyAt(data, rows, i))
  }

  /** `p` is the record of one of the rows 1 .. n-1. */
  predicate RecordBefore(data: seq<Series>, rows: seq<int>, n: nat, p: Point)
  {
    exists i :: 1 <= i < n && RecordOf(data, rows, i, p)
  }

  /**
   * The first `n` rows yield at most `n - 1` records, each the record of one
   * row among 1 .. n-1, with strictly ascending dates.
   */
  lemma {:induction false} TrendUpToRecords(data: seq<Series>, rows: seq<int>, n: nat)
    requires StrictlyIncreasing(rows) && (n <= 1 || n <= |rows|)
    ensures var t := TrendUpTo(data, rows, n);
      && (n <= 1 ==> t == [])
      && |t| <= (if n == 0 then 0 else n - 1)
      && (forall j :: 0 <= j < |t| ==> RecordBefore(data, rows, n, t[j]))
      && (forall j1, j2 :: 0 <= j1 < j2 < |t| ==> t[j1].date < t[j2].date)
  {
    if n > 1 {
      TrendUpToRecords(data, rows, n - 1);
      var before := TrendUpTo(data, rows, n - 1);
      RecordsExtend(data, rows, n, before);
      DatesExtend(data, rows, n, before);
    }
  }

  /** Visiting row n-1 keeps every record the record of a visited row. */
  lemma RecordsExtend(data: seq<Series>, rows: seq<int>, n: nat, before: seq<Point>)
    requires 1 < n <= |rows| && before == TrendUpTo(data, rows, n - 1)
    requires forall j :: 0 <= j < |before| ==> RecordBefore(data, rows, n - 1, before[j])
    ensures var t := TrendUpTo(data, rows, n);
      forall j :: 0 <= j < |t| ==> RecordBefore(data, rows, n, t[j])
  {
    var t := TrendUpTo(data, rows, n);
    assert t == before + PointsAt(data, rows, n - 1);
    forall j | 0 <= j < |t| ensures RecordBefore(data, rows, n, t[j]) {
      if j < |before| {
        assert t[j] == before[j];
        var i :| 1 <= i < n - 1 && RecordOf(data, rows, i, before[j]);
        assert RecordOf(data, rows, i, t[j]);
      } else {
        assert RecordOf(data, rows, n - 1, t[j]);
      }
    }
  }

  /** Visiting row n-1 keeps the record dates strictly ascending. */
  lemma DatesExtend(data: seq<Series>, rows: seq<int>, n: nat, before: seq<Point>)
    requires StrictlyIncreasing(rows) && 1 < n <= |rows| && before == TrendUpTo(data, rows, n - 1)
    requires forall j :: 0 <= j < |before| ==> RecordBefore(data, rows, n - 1, before[j])
    requires forall j1, j2 :: 0 <= j1 < j2 < |before| ==> before[j1].date < before[j2].date
    ensures var t := TrendUpTo(data, rows, n);
      forall j1, j2 :: 0 <= j1 < j2 < |t| ==> t[j1].date < t[j2].date
  {
    var t := TrendUpTo(data, rows, n);
    assert t == before + PointsAt(data, rows, n - 1) && |t| <= |before| + 1;
    forall j1, j2 | 0 <= j1 < j2 < |t| ensures t[j1].date < t[j2].date {
      if j2 < |before| {
        assert t[j1] == before[j1] && t[j2] == before[j2];
      } else {
        assert t[j1] == before[j1] && RecordBefore(data, rows, n - 1, before[j1]);
        var i :| 1 <= i < n - 1 && RecordOf(data, rows, i, before[j1]);
        assert t[j2].date == rows[n - 1];
      }
    }
  }

  /** Every qualifying row among 1 .. n-1 has its record in the trend. */
  lemma {:induction false} RecordIncluded(data: seq<Series>, rows: seq<int>, n: nat, i: nat)
    requires 1 <= i < n <= |rows| && Emits(TallyAt(data, rows, i))
    ensures Ratios(rows[i], TallyAt(data, rows, i)) in TrendUpTo(data, rows, n)
  {
    assert TrendUpTo(data, rows, n) == TrendUpTo(data, rows, n - 1) + PointsAt(data, rows, n - 1);
    if i < n - 1 {
      RecordIncluded(data, rows, n - 1, i);
    }
  }

  /**
   * The shape of the output: no record for the first aligned date, at most
   * one record per later date (so at most len(rows) - 1 records), every
   * record dated by an aligned row, and the dates strictly ascending.
   */
  lemma TrendShape(data: seq<Series>)
    requires WellFormed(data)
    ensures var rows, t := Rows(data), Trend(data);
      && |t| <= (if rows == [] then 0 else |rows| - 1)
      && (forall j :: 0 <= j < |t| ==> exists i :: 1 <= i < |rows| && t[j].date == rows[i])
      && (forall j :: 0 <= j < |t| ==> rows[0] < t[j].date)
      && (forall j1, j2 :: 0 <= j1 < j2 < |t| ==> t[j1].date < t[j2].date)
  {
    var rows, t := Rows(data), Trend(data);
    TrendUpToRecords(data, rows, |rows|);
    forall j | 0 <= j < |t| ensures exists i :: 1 <= i < |rows| && t[j].date == rows[i] {
      var i :| 1 <= i < |rows| && RecordOf(data, rows, i, t[j]);
    }
    forall j | 0 <= j < |t| ensures rows[0] < t[j].date {
      var i :| 1 <= i < |rows| && RecordOf(data, rows, i, t[j]);
    }
  }

  /**
   * A record is emitted for the aligned date `rows[i]` (i >= 1) exactly when
   * some ticker compared on that day and the day's volume is positive; the
   * record then holds declining/total*100 and volume_decline/volume*100 of
   * that day's counters.
   */
  lemma PointForDay(data: seq<Series>, i: nat)
    requires WellFormed(data) && 1 <= i < |Rows(data)|
    ensures var rows, t := Rows(data), Trend(data);
      var day := DayTally(data, rows[i - 1], rows[i]);
      && ((exists j :: 0 <= j < |t| && t[j].date == rows[i]) <==> day.total > 0 && day.volume > 0.0)
      && (forall j :: 0 <= j < |t| && t[j].date == rows[i] ==>
            && t[j].pctDeclining == day.declining as real / day.total as real * 100.0
            && t[j].pctVolumeDeclining == day.volumeDecline / day.volume * 100.0)
  {
    var rows, t := Rows(data), Trend(data);
    var day := DayTally(data, rows[i - 1], rows[i]);
    TrendUpToRecords(data, rows, |rows|);
    forall j | 0 <= j < |t| && t[j].date == rows[i]
      ensures RecordOf(data, rows, i, t[j])
    {
      var i' :| 1 <= i' < |rows| && RecordOf(data, rows, i', t[j]);
      IncreasingInjective(rows, i', i);
    }
    if day.total > 0 && day.volume > 0.0 {
      RecordIncluded(data, rows, |rows|, i);
      var j :| 0 <= j < |t| && t[j] == Ratios(rows[i], day);
      assert t[j].date == rows[i];
    }
  }

  lemma IncreasingInjective(rows: seq<int>, i: nat, i': nat)
    requires StrictlyIncreasing(rows) && i < |rows| && i' < |rows| && rows[i] == rows[i']
    ensures i == i'
  {
  }

  lemma RatioInRange(x: real, y: real)
    requires 0.0 <= x <= y && y > 0.0
    ensures 0.0 <= x / y * 100.0 <= 100.0
  {
    assert x / y <= 1.0 by {
      assert x / y * y == x;
    }
  }

  /**
   * Both percentages of every record lie in [0, 100]; for the volume
   * percentage this needs the volumes to be non-negative.
   */
  lemma PercentagesInRange(data: seq<Series>)
    requires WellFormed(data)
    ensures var t := Trend(data);
      && (forall j :: 0 <= j < |t| ==> 0.0 <= t[j].pctDeclining <= 100.0)
      && (AllVolumesNonNegative(data) ==> forall j :: 0 <= j < |t| ==> 0.0 <= t[j].pctVolumeDeclining <= 100.0)
  {
    var rows, t := Rows(data), Trend(data);
    TrendUpToRecords(data, rows, |rows|);
    forall j | 0 <= j < |t|
      ensures 0.0 <= t[j].pctDeclining <= 100.0
      ensures AllVolumesNonNegative(data) ==> 0.0 <= t[j].pctVolumeDeclining <= 100.0
    {
      var i :| 1 <= i < |rows| && RecordOf(data, rows, i, t[j]);
      var day := TallyAt(data, rows, i);
      TallyBounds(data, |data|, rows[i - 1], rows[i]);
      RatioInRange(day.declining as real, day.total as real);
      if AllVolumesNonNegative(data) {
        RatioInRange(day.volumeDecline, day.volume);
      }
    }
  }

  lemma {:induction false} TrendUpToOrderIndependent(a: seq<Series>, b: seq<Series>, rows: seq<int>, n: nat)
    requires multiset(a) == multiset(b) && (n <= 1 || n <= |rows|)
    ensures TrendUpTo(a, rows, n) == TrendUpTo(b, rows, n)
  {
    if n > 1 {
      TrendUpToOrderIndependent(a, b, rows, n - 1);
      DayTallyOrderIndependent(a, b, rows[n - 2], rows[n - 1]);
    }
  }

  /**
   * The trend does not depend on the order in which the tickers were
   * stored: the join is keyed by date and the counters are plain sums.
   */
  lemma TrendOrderIndependent(a: seq<Series>, b: seq<Series>)
    requires WellFormed(a) && multiset(a) == multiset(b)
    ensures WellFormed(b) && Trend(a) == Trend(b)
  {
    forall k | 0 <= k < |b| ensures DistinctDates(b[k]) {
      assert b[k] in multiset(a);
      var j :| 0 <= j < |a| && a[j] == b[k];
    }
    RowsOrderIndependent(a, b);
    var rows := Rows(a);
    TrendUpToOrderIndependent(a, b, rows, |rows|);
  }
}
