/**
 * The breadth trend of StockMarketAnalyzer.analyze_trend
 * (StockMarketAnalyzer.py, lines 71-110): for every aligned date after the
 * first, the percentage of contributing tickers that declined and the
 * percentage of their volume that went into decliners, emitted only when
 * some ticker contributed and the day's volume is positive.
 */
module Breadth {
  import opened Market
  import opened Align
  import opened DayCount

  /** The record emitted for `date` from its counters (lines 104-108). */
  function Ratios(date: int, t: Tally): Point
    requires t.total > 0 && t.volume != 0.0
  {
    Point(date, t.declining as real / t.total as real * 100.0, t.volumeDecline / t.volume * 100.0)
  }

  /** The counters of row `i` against row `i - 1` (lines 85-101). */
  function TallyAt(data: seq<Series>, rows: seq<int>, i: nat): Tally
    requires 1 <= i < |rows|
  {
    DayTally(data, rows[i - 1], rows[i])
  }

  /** The day's counters allow a record: some ticker contributed and volume is positive (line 103). */
  predicate Emits(t: Tally)
  {
    t.total > 0 && t.volume > 0.0
  }

  /** What row `i` adds to the trend: one record, or nothing. */
  function PointsAt(data: seq<Series>, rows: seq<int>, i: nat): seq<Point>
    requires 1 <= i < |rows|
  {
    var t := TallyAt(data, rows, i);
    if Emits(t) then [Ratios(rows[i], t)] else []
  }

  /** The trend after the rows 1 .. n-1 have been visited. */
  function TrendUpTo(data: seq<Series>, rows: seq<int>, n: nat): seq<Point>
    requires n <= 1 || n <= |rows|
  {
    if n <= 1 then [] else TrendUpTo(data, rows, n - 1) + PointsAt(data, rows, n - 1)
  }

  /** The whole trend: every aligned row after the first, in ascending date order. */
  function Trend(data: seq<Series>): seq<Point>
    requires WellFormed(data)
  {
    var rows := Rows(data);
    TrendUpTo(data, rows, |rows|)
  }

  /** Visiting row `i` appends the record its counters allow, if any. */
  lemma TrendStep(data: seq<Series>, rows: seq<int>, i: nat, day: Tally)
    requires 1 <= i < |rows| && day == TallyAt(data, rows, i)
    ensures TrendUpTo(data, rows, i + 1) == TrendUpTo(data, rows, i) + if Emits(day) then [Ratios(rows[i], day)] else []
  {
  }

  /**
   * The inner loop of analyze_trend (lines 87-101): visit every stored
   * ticker, skip those without both rows (the KeyError branch) or with a
   * missing previous close, current close or current volume, and add up the
   * rest.  The counters are the day's tally.
   */
  method CountDay(stockData: seq<Series>, prev: int, curr: int)
    returns (total: nat, declining: nat, volume: real, volumeDecline: real)
    ensures Tally(total, declining, volume, volumeDecline) == DayTally(stockData, prev, curr)
  {
    total, declining, volume, volumeDecline := 0, 0, 0.0, 0.0;
    var k := 0;
    assert TallyOfFirst(stockData, 0, prev, curr) == Zero;
    while k < |stockData|
      invariant 0 <= k <= |stockData|
      invariant Tally(total, declining, volume, volumeDecline) == TallyOfFirst(stockData, k, prev, curr)
    {
      ghost var before := Tally(total, declining, volume, volumeDecline);
      ghost var share := Contribution(stockData[k], prev, curr);
      var p, c := Lookup(stockData[k], prev), Lookup(stockData[k], curr);
      if p.Some? && c.Some? {
        var pc, cc, cv := p.value.close, c.value.close, c.value.volume;
        if pc.Some? && cc.Some? && cv.Some? {
          assert share == if cc.value < pc.value then Tally(1, 1, cv.value, cv.value) else Tally(1, 0, cv.value, 0.0);
          total := total + 1;
          volume := volume + cv.value;
          if cc.value < pc.value {
            declining := declining + 1;
            volumeDecline := volumeDecline + cv.value;
          }
        } else {
          assert share == Zero;
        }
      } else {
        assert share == Zero;
      }
      assert Tally(total, declining, volume, volumeDecline) == Add(before, share);
      TallyStep(stockData, k, prev, curr);
      k := k + 1;
    }
  }

  /**
   * analyze_trend: drop the empty series, align the rest on their common
   * dates, then for each pair of consecutive rows count the contributing and
   * declining tickers and their volumes, appending a record when the day
   * qualifies.  Tickers are visited in the order they were stored; an empty
   * series has no cells in the joined rows and is skipped.
   */
  method AnalyzeTrend(stockData: seq<Series>) returns (trend: seq<Point>)
    requires WellFormed(stockData)
    ensures trend == Trend(stockData)
    ensures !HasData(stockData) ==> trend == []
  {
    var valid := NonEmpty(stockData);
    if valid == [] {
      return [];
    }
    var rows := Rows(stockData);
    trend := [];
    var i := 1;
    while i < |rows|
      invariant 1 <= i && (i <= |rows| || i == 1)
      invariant trend == TrendUpTo(stockData, rows, i)
    {
      var total, declining, volume, volumeDecline := CountDay(stockData, rows[i - 1], rows[i]);
      ghost var day := Tally(total, declining, volume, volumeDecline);
      TrendStep(stockData, rows, i, day);
      if total > 0 && volume > 0.0 {
        trend := trend + [Point(rows[i], declining as real / total as real * 100.0, volumeDecline / volume * 100.0)];
        assert trend == TrendUpTo(stockData, rows, i) + [Ratios(rows[i], day)];
      }
      i := i + 1;
    }
  }
}
