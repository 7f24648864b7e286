/** Netting the days-adjustment log, as `calculateAdjustments` does on the dashboard and on
    the team roster: filter the log by operation label, then sum. */
module AdjustmentLog {
  import opened Records

  /** The adjustments whose stored operation label is `op`, in log order. */
  function Filter(log: seq<Adjustment>, op: string): (r: seq<Adjustment>)
    ensures |r| <= |log|
    ensures forall a :: a in r <==> a in log && a.operation == op
  {
    if log == [] then []
    else if log[0].operation == op then [log[0]] + Filter(log[1..], op)
    else Filter(log[1..], op)
  }

  /** The filter keeps every adjustment carrying the label as often as it occurs in the
      log, and no other, so the sums below count repeated adjustments repeatedly. */
  lemma {:induction false} FilterKeepsCounts(log: seq<Adjustment>, op: string)
    ensures forall a :: multiset(Filter(log, op))[a] == if a.operation == op then multiset(log)[a] else 0
  {
    if log != [] {
      FilterKeepsCounts(log[1..], op);
      assert log == [log[0]] + log[1..];
      assert multiset(log) == multiset{log[0]} + multiset(log[1..]);
      if log[0].operation == op {
        assert multiset([log[0]] + Filter(log[1..], op)) == multiset{log[0]} + multiset(Filter(log[1..], op));
      }
    }
  }

  /** Sum of the stored signed amounts. */
  function SumDays(log: seq<Adjustment>): real
  {
    if log == [] then 0.0 else log[0].days + SumDays(log[1..])
  }

  /** Sum of the magnitudes of the stored amounts. */
  function SumAbsDays(log: seq<Adjustment>): (r: real)
    ensures r >= 0.0
    ensures r == 0.0 <==> forall a :: a in log ==> a.days == 0.0
  {
    if log == [] then 0.0 else Abs(log[0].days) + SumAbsDays(log[1..])
  }

  /** Total of the stored amounts of the `'add'` adjustments. */
  function Additions(log: seq<Adjustment>): real
  {
    SumDays(Filter(log, AddLabel))
  }

  /** Total of the magnitudes of the `'subtract'` adjustments. */
  function Subtractions(log: seq<Adjustment>): real
  {
    SumAbsDays(Filter(log, SubtractLabel))
  }

  /** Additions minus subtractions: what the log adds to the base allocation. */
  function NetAdjustments(log: seq<Adjustment>): real
  {
    Additions(log) - Subtractions(log)
  }

  lemma {:induction false} FilterAppend(log: seq<Adjustment>, a: Adjustment, op: string)
    ensures Filter(log + [a], op)
         == Filter(log, op) + (if a.operation == op then [a] else [])
  {
    if log != [] {
      assert (log + [a])[1..] == log[1..] + [a];
      FilterAppend(log[1..], a, op);
    }
  }

  lemma {:induction false} SumDaysAppend(log: seq<Adjustment>, more: seq<Adjustment>)
    ensures SumDays(log + more) == SumDays(log) + SumDays(more)
  {
    if log == [] {
      assert log + more == more;
    } else {
      assert (log + more)[1..] == log[1..] + more;
      SumDaysAppend(log[1..], more);
    }
  }

  lemma {:induction false} SumAbsDaysAppend(log: seq<Adjustment>, more: seq<Adjustment>)
    ensures SumAbsDays(log + more) == SumAbsDays(log) + SumAbsDays(more)
  {
    if log == [] {
      assert log + more == more;
    } else {
      assert (log + more)[1..] == log[1..] + more;
      SumAbsDaysAppend(log[1..], more);
    }
  }

  /** What one more logged adjustment contributes: its stored amount when labelled `'add'`,
      minus its magnitude when labelled `'subtract'`, and nothing under any other label. */
  lemma NetAdjustmentsAppend(log: seq<Adjustment>, a: Adjustment)
    ensures Additions(log + [a]) == Additions(log) + (if a.operation == AddLabel then a.days else 0.0)
    ensures Subtractions(log + [a]) == Subtractions(log) + (if a.operation == SubtractLabel then Abs(a.days) else 0.0)
    ensures NetAdjustments(log + [a]) == NetAdjustments(log)
              + (if a.operation == AddLabel then a.days
                 else if a.operation == SubtractLabel then -Abs(a.days)
                 else 0.0)
  {
    FilterAppend(log, a, AddLabel);
    FilterAppend(log, a, SubtractLabel);
    SumDaysAppend(Filter(log, AddLabel), if a.operation == AddLabel then [a] else []);
    SumAbsDaysAppend(Filter(log, SubtractLabel), if a.operation == SubtractLabel then [a] else []);
  }

  /** An empty log nets to zero; subtractions are never negative, so a negative stored
      amount under `'subtract'` still counts as a positive amount taken away. */
  lemma NetAdjustmentsBasics(log: seq<Adjustment>)
    ensures NetAdjustments([]) == 0.0
    ensures Subtractions(log) >= 0.0
    ensures NetAdjustments(log) <= Additions(log)
  {
  }

  /** Worked example: +2 added, 0.5 subtracted (stored as -0.5) and +1 added net to 2.5. */
  lemma NetAdjustmentsExample()
    ensures NetAdjustments([Adjustment(2.0, AddLabel, "bonus", ""),
                            Adjustment(-0.5, SubtractLabel, "other", ""),
                            Adjustment(1.0, AddLabel, "carryover", "")]) == 2.5
  {
    var a1 := Adjustment(2.0, AddLabel, "bonus", "");
    var a2 := Adjustment(-0.5, SubtractLabel, "other", "");
    var a3 := Adjustment(1.0, AddLabel, "carryover", "");
    NetAdjustmentsAppend([], a1);
    assert [a1] + [a2] == [a1, a2];
    NetAdjustmentsAppend([a1], a2);
    assert [a1, a2] + [a3] == [a1, a2, a3];
    NetAdjustmentsAppend([a1, a2], a3);
  }
}
