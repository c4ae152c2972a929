/**
 * Worked scenarios of the breadth trend on small inputs: two tickers moving
 * in opposite directions, missing cells, a single trading day, and the inner
 * join on dates.
 */
module Scenarios {
  import opened Wrappers
  import opened Market
  import opened Align
  import opened DayCount
  import opened Breadth

  /** Closes 100 then 90 on volume 10: a decliner. */
  const A: Series := [Sample(0, Some(100.0), Some(10.0)), Sample(1, Some(90.0), Some(10.0))]
  /** Closes 50 then 55 on volume 5: an advancer. */
  const B: Series := [Sample(0, Some(50.0), Some(5.0)), Sample(1, Some(55.0), Some(5.0))]

  lemma TwoTickersRows()
    ensures WellFormed([A, B]) && Rows([A, B]) == [0, 1]
  {
    assert Dates(A) == [0, 1] && Dates(B) == [0, 1];
    assert HasData([A, B]) by { assert [A, B][0] != []; }
    forall d ensures d in Rows([A, B]) <==> d in [0, 1] {
      assert CommonDate([A, B], d) <==> d in Dates(A) && d in Dates(B);
    }
    AscendingUnique(Rows([A, B]), [0, 1]);
  }

  lemma TwoTickersDay()
    ensures DayTally([A, B], 0, 1) == Tally(2, 1, 15.0, 10.0)
  {
    assert Contribution(A, 0, 1) == Tally(1, 1, 10.0, 10.0) by {
      assert Compare(A, 0, 1) == Some(Move(100.0, 90.0, 10.0));
    }
    assert Contribution(B, 0, 1) == Tally(1, 0, 5.0, 0.0) by {
      assert Compare(B, 0, 1) == Some(Move(50.0, 55.0, 5.0));
    }
    assert TallyOfFirst([A, B], 1, 0, 1) == Tally(1, 1, 10.0, 10.0) by {
      TallyStep([A, B], 0, 0, 1);
    }
    assert TallyOfFirst([A, B], 2, 0, 1) == Tally(2, 1, 15.0, 10.0) by {
      TallyStep([A, B], 1, 0, 1);
    }
  }

  /** One of two tickers declines: 50% of names, 10 of 15 units of volume. */
  lemma TwoTickers()
    ensures WellFormed([A, B]) && Trend([A, B]) == [Point(1, 50.0, 200.0 / 3.0)]
  {
    var rows := Rows([A, B]);
    assert WellFormed([A, B]) && rows == [0, 1] by { TwoTickersRows(); }
    var day := Tally(2, 1, 15.0, 10.0);
    assert TrendUpTo([A, B], [0, 1], 2) == [Point(1, 50.0, 200.0 / 3.0)] by {
      assert TallyAt([A, B], [0, 1], 1) == day by { TwoTickersDay(); }
      TrendStep([A, B], [0, 1], 1, day);
      assert Ratios(1, day) == Point(1, 50.0, 200.0 / 3.0);
    }
    assert Trend([A, B]) == TrendUpTo([A, B], rows, |rows|);
  }

  /** Declines from 100 to 90; its volume is missing on the first day only. */
  const C: Series := [Sample(0, Some(100.0), None), Sample(1, Some(90.0), Some(10.0))]
  /** Declines from 50 to 40 but its volume is missing on the second day. */
  const D: Series := [Sample(0, Some(50.0), Some(5.0)), Sample(1, Some(40.0), None)]

  lemma MissingCellsRows()
    ensures WellFormed([C, D]) && Rows([C, D]) == [0, 1]
  {
    assert Dates(C) == [0, 1] && Dates(D) == [0, 1];
    assert HasData([C, D]) by { assert [C, D][0] != []; }
    forall d ensures d in Rows([C, D]) <==> d in [0, 1] {
      assert CommonDate([C, D], d) <==> d in Dates(C) && d in Dates(D);
    }
    AscendingUnique(Rows([C, D]), [0, 1]);
  }

  lemma MissingCellsDay()
    ensures DayTally([C, D], 0, 1) == Tally(1, 1, 10.0, 10.0)
  {
    assert Contribution(C, 0, 1) == Tally(1, 1, 10.0, 10.0) by {
      assert Compare(C, 0, 1) == Some(Move(100.0, 90.0, 10.0));
    }
    assert Contribution(D, 0, 1) == Zero by {
      assert Compare(D, 0, 1) == None;
    }
    assert TallyOfFirst([C, D], 1, 0, 1) == Tally(1, 1, 10.0, 10.0) by {
      TallyStep([C, D], 0, 0, 1);
    }
    assert TallyOfFirst([C, D], 2, 0, 1) == Tally(1, 1, 10.0, 10.0) by {
      TallyStep([C, D], 1, 0, 1);
    }
  }

  /**
   * D is left out of the day (no current volume) even though its close fell;
   * C counts although its previous volume is missing.
   */
  lemma MissingCells()
    ensures WellFormed([C, D]) && Trend([C, D]) == [Point(1, 100.0, 100.0)]
    ensures DayTally([C, D], 0, 1) == Tally(1, 1, 10.0, 10.0)
  {
    var rows := Rows([C, D]);
    assert WellFormed([C, D]) && rows == [0, 1] by { MissingCellsRows(); }
    var day := Tally(1, 1, 10.0, 10.0);
    assert TrendUpTo([C, D], [0, 1], 2) == [Point(1, 100.0, 100.0)] by {
      assert TallyAt([C, D], [0, 1], 1) == day by { MissingCellsDay(); }
      TrendStep([C, D], [0, 1], 1, day);
      assert Ratios(1, day) == Point(1, 100.0, 100.0);
    }
    assert Trend([C, D]) == TrendUpTo([C, D], rows, |rows|);
    MissingCellsDay();
  }

  /** A single aligned date has no predecessor, so nothing is emitted. */
  lemma SingleDate()
    ensures WellFormed([[Sample(0, Some(1.0), Some(1.0))]]) && Trend([[Sample(0, Some(1.0), Some(1.0))]]) == []
  {
    var data := [[Sample(0, Some(1.0), Some(1.0))]];
    assert Dates(data[0]) == [0];
    assert HasData(data) by { assert data[0] != []; }
    forall d ensures d in Rows(data) <==> d in [0] {
      assert CommonDate(data, d) <==> d in Dates(data[0]);
    }
    AscendingUnique(Rows(data), [0]);
  }

  /** Only the dates both series have survive the join, sorted ascending. */
  lemma InnerJoin()
    ensures var e := [Sample(0, Some(1.0), Some(1.0)), Sample(1, Some(2.0), Some(1.0)), Sample(2, Some(3.0), Some(1.0))];
      var f := [Sample(2, Some(1.0), Some(1.0)), Sample(0, Some(2.0), Some(1.0))];
      WellFormed([e, f]) && Rows([e, f]) == [0, 2]
  {
    var e := [Sample(0, Some(1.0), Some(1.0)), Sample(1, Some(2.0), Some(1.0)), Sample(2, Some(3.0), Some(1.0))];
    var f := [Sample(2, Some(1.0), Some(1.0)), Sample(0, Some(2.0), Some(1.0))];
    assert Dates(e) == [0, 1, 2] && Dates(f) == [2, 0];
    assert HasData([e, f]) by { assert [e, f][0] != []; }
    forall d ensures d in Rows([e, f]) <==> d in [0, 2] {
      assert [e, f][0] == e && [e, f][1] == f;
      assert CommonDate([e, f], d) <==> d in Dates(e) && d in Dates(f);
    }
    AscendingUnique(Rows([e, f]), [0, 2]);
  }
}
