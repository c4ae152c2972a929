/**
 * Alignment of the per-ticker series into one table (StockMarketAnalyzer.py,
 * lines 73-80): empty series are dropped, the remaining ones are joined on
 * their dates with an INNER join (only dates present in every one of them
 * survive), and the surviving dates are sorted ascending.  The table's rows
 * are identified by their dates; a cell of the table is found with
 * Market.Lookup.
 */
module Align {
  import opened Market

  /** The series that are not empty, in their original order (line 73). */
  function NonEmpty(data: seq<Series>): (r: seq<Series>)
    ensures forall s :: s in r <==> s in data && s != []
    ensures |r| <= |data|
  {
    if data == [] then []
    else
      assert data == [data[0]] + data[1..];
      if data[0] == [] then NonEmpty(data[1..]) else [data[0]] + NonEmpty(data[1..])
  }

  /** Date `d` is a row of every series in `valid`. */
  predicate InAll(valid: seq<Series>, d: int)
  {
    forall k :: 0 <= k < |valid| ==> d in Dates(valid[k])
  }

  /** The dates of `ds` that every series in `valid` has, in the order of `ds`. */
  function CommonTo(ds: seq<int>, valid: seq<Series>): (r: seq<int>)
    ensures forall d :: d in r <==> d in ds && InAll(valid, d)
    ensures Distinct(ds) ==> Distinct(r)
  {
    if ds == [] then []
    else
      assert ds == [ds[0]] + ds[1..];
      assert Distinct(ds) ==> Distinct(ds[1..]) && ds[0] !in ds[1..];
      var rest := CommonTo(ds[1..], valid);
      if InAll(valid, ds[0]) then [ds[0]] + rest else rest
  }

  /** Inserts a new date into an ascending sequence of dates. */
  function Insert(x: int, s: seq<int>): (r: seq<int>)
    requires StrictlyIncreasing(s) && x !in s
    ensures StrictlyIncreasing(r) && |r| == |s| + 1
    ensures forall y :: y in r <==> y == x || y in s
  {
    if s == [] || x < s[0] then
      [x] + s
    else
      assert s == [s[0]] + s[1..];
      var tail := Insert(x, s[1..]);
      assert forall y :: y in tail ==> s[0] < y;
      var r := [s[0]] + tail;
      assert StrictlyIncreasing(r) by {
        forall i, j | 0 <= i < j < |r| ensures r[i] < r[j] {
          if i == 0 { assert r[j] == tail[j - 1]; assert r[j] in tail; }
          else { assert r[i] == tail[i - 1] && r[j] == tail[j - 1]; }
        }
      }
      r
  }

  /** Sorts distinct dates ascending (the `sort_index` of line 80). */
  function Sort(xs: seq<int>): (r: seq<int>)
    requires Distinct(xs)
    ensures StrictlyIncreasing(r) && |r| == |xs|
    ensures forall y :: y in r <==> y in xs
  {
    if xs == [] then []
    else
      assert xs == [xs[0]] + xs[1..];
      assert Distinct(xs[1..]) && xs[0] !in xs[1..];
      Insert(xs[0], Sort(xs[1..]))
  }

  /**
   * The inner join of the non-empty series `valid` on their dates, sorted
   * (lines 78-80): exactly the dates every series has, ascending.
   */
  function AlignedDates(valid: seq<Series>): (rows: seq<int>)
    requires valid != [] && WellFormed(valid)
    ensures StrictlyIncreasing(rows)
    ensures forall d :: d in rows <==> InAll(valid, d)
  {
    assert DistinctDates(valid[0]);
    Sort(CommonTo(Dates(valid[0]), valid))
  }

  /** Some series of `data` is not empty. */
  predicate HasData(data: seq<Series>)
  {
    exists k :: 0 <= k < |data| && data[k] != []
  }

  /** Date `d` is a row of every non-empty series of `data`. */
  predicate CommonDate(data: seq<Series>, d: int)
  {
    forall k :: 0 <= k < |data| && data[k] != [] ==> d in Dates(data[k])
  }

  /**
   * The dates the trend loop walks through: none when no series has data
   * (lines 73-76), otherwise the ascending dates common to all non-empty
   * series (lines 78-80).
   */
  function Rows(data: seq<Series>): (rows: seq<int>)
    requires WellFormed(data)
    ensures StrictlyIncreasing(rows)
    ensures !HasData(data) ==> rows == []
    ensures forall d :: d in rows <==> HasData(data) && CommonDate(data, d)
  {
    var valid := NonEmpty(data);
    if valid == [] then
      assert !HasData(data) by {
        forall k | 0 <= k < |data| ensures data[k] == [] {
          assert data[k] in data;
        }
      }
      []
    else
      assert valid[0] in valid;
      assert HasData(data);
      assert WellFormed(valid) by {
        forall k | 0 <= k < |valid| ensures DistinctDates(valid[k]) {
          assert valid[k] in data;
        }
      }
      forall d ensures InAll(valid, d) <==> CommonDate(data, d) {
        if InAll(valid, d) {
          forall k | 0 <= k < |data| && data[k] != [] ensures d in Dates(data[k]) {
            assert data[k] in valid;
            var j :| 0 <= j < |valid| && valid[j] == data[k];
          }
        }
        if CommonDate(data, d) {
          forall k | 0 <= k < |valid| ensures d in Dates(valid[k]) {
            assert valid[k] in data;
            var j :| 0 <= j < |data| && data[j] == valid[k];
          }
        }
      }
      AlignedDates(valid)
  }

  /** Two ascending sequences with the same elements are the same sequence. */
  lemma {:induction false} AscendingUnique(a: seq<int>, b: seq<int>)
    requires StrictlyIncreasing(a) && StrictlyIncreasing(b)
    requires forall x :: x in a <==> x in b
    ensures a == b
  {
    if a != [] { assert a[0] in a; }
    if b != [] { assert b[0] in b; }
    if a != [] && b != [] {
      assert a[0] in b && b[0] in a;
      assert a[0] == b[0] by {
        var i :| 0 <= i < |b| && b[i] == a[0];
        var j :| 0 <= j < |a| && a[j] == b[0];
        assert b[0] <= b[i] && a[0] <= a[j];
      }
      assert a == [a[0]] + a[1..] && b == [b[0]] + b[1..];
      forall x ensures x in a[1..] <==> x in b[1..] {
        if x in a[1..] {
          var i :| 1 <= i < |a| && a[i] == x;
          assert a[0] < x && x in a && x in b;
          var j :| 0 <= j < |b| && b[j] == x;
          assert j != 0 && b[1..][j - 1] == x;
        }
        if x in b[1..] {
          var i :| 1 <= i < |b| && b[i] == x;
          assert b[0] < x && x in b && x in a;
          var j :| 0 <= j < |a| && a[j] == x;
          assert j != 0 && a[1..][j - 1] == x;
        }
      }
      AscendingUnique(a[1..], b[1..]);
    }
  }

  /**
   * The rows do not depend on the order in which the series were stored:
   * the join is keyed by date only.
   */
  lemma RowsOrderIndependent(a: seq<Series>, b: seq<Series>)
    requires WellFormed(a) && WellFormed(b)
    requires multiset(a) == multiset(b)
    ensures Rows(a) == Rows(b)
  {
    forall s ensures s in a <==> s in b {
      assert s in a <==> s in multiset(a);
      assert s in b <==> s in multiset(b);
    }
    assert HasData(a) <==> HasData(b) by {
      if HasData(a) {
        var k :| 0 <= k < |a| && a[k] != [];
        assert a[k] in b;
      }
      if HasData(b) {
        var k :| 0 <= k < |b| && b[k] != [];
        assert b[k] in a;
      }
    }
    forall d ensures CommonDate(a, d) <==> CommonDate(b, d) {
      if CommonDate(a, d) {
        forall k | 0 <= k < |b| && b[k] != [] ensures d in Dates(b[k]) {
          assert b[k] in a;
        }
      }
      if CommonDate(b, d) {
        forall k | 0 <= k < |a| && a[k] != [] ensures d in Dates(a[k]) {
          assert a[k] in b;
        }
      }
    }
    AscendingUnique(Rows(a), Rows(b));
  }
}
