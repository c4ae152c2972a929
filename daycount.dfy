/**
 * The counting done for one pair of consecutive rows (StockMarketAnalyzer.py,
 * lines 87-101): every ticker with a previous close, a current close and a
 * current volume adds 1 to `total` and its volume to `volume`; those whose
 * close fell strictly also add to `declining` and `volume_decline`.
 */
module DayCount {
  import opened Wrappers
  import opened Market

  /** One ticker's day-over-day comparison: previous close, current close, current volume. */
  datatype Move = Move(prevClose: real, close: real, volume: real)

  /** The four counters of one day. */
  datatype Tally = Tally(total: nat, declining: nat, volume: real, volumeDecline: real)

  const Zero := Tally(0, 0, 0.0, 0.0)

  /**
   * The comparison ticker `s` offers between rows `prev` and `curr`, or None
   * when one of the three cells checked on line 94 is missing.  A series
   * without one of the two rows (an empty series, whose columns are absent
   * from the joined table: the KeyError of lines 100-101) offers none either.
   */
  function Compare(s: Series, prev: int, curr: int): Option<Move>
  {
    var p, c := Lookup(s, prev), Lookup(s, curr);
    if p.Some? && c.Some? && p.value.close.Some? && c.value.close.Some? && c.value.volume.Some? then
      Some(Move(p.value.close.value, c.value.close.value, c.value.volume.value))
    else
      None
  }

  /** A ticker declines when its close fell strictly; an unchanged close is not a decline. */
  predicate Declines(m: Move)
  {
    m.close < m.prevClose
  }

  /** What one ticker adds to the day's counters. */
  function Contribution(s: Series, prev: int, curr: int): Tally
  {
    match Compare(s, prev, curr)
    case None => Zero
    case Some(m) => if Declines(m) then Tally(1, 1, m.volume, m.volume) else Tally(1, 0, m.volume, 0.0)
  }

  function Add(a: Tally, b: Tally): Tally
  {
    Tally(a.total + b.total, a.declining + b.declining, a.volume + b.volume, a.volumeDecline + b.volumeDecline)
  }

  /** The counters after visiting the first `k` tickers of `ss` in order, each adding `share`. */
  function SumOf(ss: seq<Series>, k: nat, share: Series -> Tally): Tally
    requires k <= |ss|
  {
    if k == 0 then Zero else Add(SumOf(ss, k - 1, share), share(ss[k - 1]))
  }

  /** The counters after the first `k` tickers of `ss` on the day `prev` -> `curr`. */
  function TallyOfFirst(ss: seq<Series>, k: nat, prev: int, curr: int): Tally
    requires k <= |ss|
  {
    SumOf(ss, k, s => Contribution(s, prev, curr))
  }

  /** The day's counters: every ticker of `ss` visited. */
  function DayTally(ss: seq<Series>, prev: int, curr: int): Tally
  {
    TallyOfFirst(ss, |ss|, prev, curr)
  }

  /** Visiting one more ticker adds its contribution; none visited, nothing counted. */
  lemma TallyStep(ss: seq<Series>, k: nat, prev: int, curr: int)
    requires k < |ss|
    ensures TallyOfFirst(ss, 0, prev, curr) == Zero
    ensures TallyOfFirst(ss, k + 1, prev, curr) == Add(TallyOfFirst(ss, k, prev, curr), Contribution(ss[k], prev, curr))
  {
  }

  /** The sum after `k` tickers depends on those `k` tickers only. */
  lemma {:induction false} SamePrefixSameSum(ss: seq<Series>, tt: seq<Series>, k: nat, share: Series -> Tally)
    requires k <= |ss| && k <= |tt| && ss[..k] == tt[..k]
    ensures SumOf(ss, k, share) == SumOf(tt, k, share)
  {
    if k > 0 {
      assert ss[k - 1] == ss[..k][k - 1] == tt[..k][k - 1] == tt[k - 1];
      assert ss[..k - 1] == ss[..k][..k - 1] && tt[..k - 1] == tt[..k][..k - 1];
      SamePrefixSameSum(ss, tt, k - 1, share);
    }
  }

  /** Taking ticker `k` out of the sum leaves its share out. */
  lemma {:induction false} SumRemoveAt(ss: seq<Series>, k: nat, share: Series -> Tally)
    requires k < |ss|
    ensures SumOf(ss, |ss|, share) == Add(SumOf(ss[..k] + ss[k + 1..], |ss| - 1, share), share(ss[k]))
  {
    var last := |ss| - 1;
    var init, rest := ss[..last], ss[..k] + ss[k + 1..];
    assert |rest| == last;
    if k == last {
      assert rest == init;
      SamePrefixSameSum(ss, rest, last, share);
    } else {
      var initRest := init[..k] + init[k + 1..];
      SumRemoveAt(init, k, share);
      assert rest[..last - 1] == initRest[..last - 1] == initRest;
      assert rest[last - 1] == ss[last];
      SamePrefixSameSum(rest, initRest, last - 1, share);
      assert ss[..last] == init[..last];
      SamePrefixSameSum(ss, init, last, share);
    }
  }

  /** The sum over the same tickers in any order is the same. */
  lemma {:induction false} SumOrderIndependent(a: seq<Series>, b: seq<Series>, share: Series -> Tally)
    requires multiset(a) == multiset(b)
    ensures |a| == |b| && SumOf(a, |a|, share) == SumOf(b, |b|, share)
    decreases |a|
  {
    assert |a| == |multiset(a)| == |multiset(b)| == |b|;
    if a != [] {
      var x := a[|a| - 1];
      assert a == a[..|a| - 1] + [x];
      assert multiset(a[..|a| - 1]) == multiset(a) - multiset{x};
      assert x in multiset(b);
      var k :| 0 <= k < |b| && b[k] == x;
      assert b == b[..k] + [b[k]] + b[k + 1..];
      assert multiset(b[..k] + b[k + 1..]) == multiset(b) - multiset{x};
      SumOrderIndependent(a[..|a| - 1], b[..k] + b[k + 1..], share);
      SamePrefixSameSum(a, a[..|a| - 1], |a| - 1, share);
      SumRemoveAt(b, k, share);
    }
  }

  /**
   * Which ticker contributes is decided by the samples alone: with samples
   * `p` (at the previous date) and `c` (at the current date) of a series with
   * a unique date index, the ticker compares exactly when the previous close,
   * the current close and the current volume are present.  The previous
   * volume plays no part.
   */
  lemma ValidComparison(s: Series, p: Sample, c: Sample)
    requires DistinctDates(s) && p in s && c in s
    ensures Compare(s, p.date, c.date) ==
      if p.close.Some? && c.close.Some? && c.volume.Some? then
        Some(Move(p.close.value, c.close.value, c.volume.value))
      else
        None
  {
    LookupFinds(s, p);
    LookupFinds(s, c);
  }

  /** Taking ticker `k` out of the visit leaves its contribution out of the day's sums. */
  lemma RemoveAt(ss: seq<Series>, k: nat, prev: int, curr: int)
    requires k < |ss|
    ensures DayTally(ss, prev, curr) ==
      Add(DayTally(ss[..k] + ss[k + 1..], prev, curr), Contribution(ss[k], prev, curr))
  {
    SumRemoveAt(ss, k, s => Contribution(s, prev, curr));
  }

  /**
   * `all` is `others` plus the ticker whose comparison is `cmp`: a ticker
   * without a comparison changes nothing; one with a comparison adds 1 to
   * `total` and its current volume to `volume`, and, only when its close
   * fell strictly, 1 to `declining` and its volume to `volume_decline`.
   */
  predicate Accounts(all: Tally, others: Tally, cmp: Option<Move>)
  {
    match cmp
    case None => all == others
    case Some(m) =>
      && all.total == others.total + 1
      && all.volume == others.volume + m.volume
      && all.declining == others.declining + (if m.close < m.prevClose then 1 else 0)
      && all.volumeDecline == others.volumeDecline + (if m.close < m.prevClose then m.volume else 0.0)
  }

  /**
   * A ticker is counted on a day exactly when it compares on that day, and
   * then by its own comparison only: the day's counters are those of the
   * other tickers plus its share.
   */
  lemma TickerContribution(ss: seq<Series>, k: nat, prev: int, curr: int)
    requires k < |ss|
    ensures Accounts(DayTally(ss, prev, curr), DayTally(ss[..k] + ss[k + 1..], prev, curr), Compare(ss[k], prev, curr))
  {
    RemoveAt(ss, k, prev, curr);
    AddContribution(DayTally(ss[..k] + ss[k + 1..], prev, curr), ss[k], prev, curr);
  }

  lemma AddContribution(others: Tally, s: Series, prev: int, curr: int)
    ensures Accounts(Add(others, Contribution(s, prev, curr)), others, Compare(s, prev, curr))
  {
  }

  /**
   * The counters are plain sums: visiting the same tickers in any order
   * gives the same day counts.
   */
  lemma DayTallyOrderIndependent(a: seq<Series>, b: seq<Series>, prev: int, curr: int)
    requires multiset(a) == multiset(b)
    ensures DayTally(a, prev, curr) == DayTally(b, prev, curr)
  {
    SumOrderIndependent(a, b, s => Contribution(s, prev, curr));
  }

  /**
   * Bounds on the counters: no more decliners than contributors, no more
   * contributors than tickers visited, and, when volumes are non-negative,
   * the declining volume lies between 0 and the total volume.
   */
  lemma {:induction false} TallyBounds(ss: seq<Series>, k: nat, prev: int, curr: int)
    requires k <= |ss|
    ensures var t := TallyOfFirst(ss, k, prev, curr);
      t.declining <= t.total <= k &&
      (AllVolumesNonNegative(ss) ==> 0.0 <= t.volumeDecline <= t.volume)
  {
    if k > 0 {
      TallyBounds(ss, k - 1, prev, curr);
      ContributionBounds(ss[k - 1], prev, curr);
    }
  }

  /** One ticker adds at most one contributor, and declining volume within its volume. */
  lemma ContributionBounds(s: Series, prev: int, curr: int)
    ensures var c := Contribution(s, prev, curr);
      c.declining <= c.total <= 1 &&
      (VolumesNonNegative(s) ==> 0.0 <= c.volumeDecline <= c.volume)
  {
  }
}
