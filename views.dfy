/** What the dashboard and the team roster derive from a ledger for display: the usage
    ratio, the net-adjustment line and the gate on the time-off button. */
module Views {
  import opened Records
  import opened AdjustmentLog
  import opened LedgerSpec

  /** The share of the allocation in use: used days over the total plus the net of the
      adjustment log. Only defined when that denominator is not zero. */
  function UsageRatio(s: State): real
    requires s.totalDays + (Additions(s.adjustments) - Subtractions(s.adjustments)) != 0.0
  {
    s.usedDays / (s.totalDays + (Additions(s.adjustments) - Subtractions(s.adjustments)))
  }

  /** When the balance invariant holds, the denominator is what was used plus what is
      still available, so the ratio is the used share of that, between 0 and 1 when both
      counters are non-negative. */
  lemma UsageRatioOfBalanced(s: State)
    requires Balanced(s) && s.usedDays + s.availableDays != 0.0
    ensures s.totalDays + (Additions(s.adjustments) - Subtractions(s.adjustments)) != 0.0
    ensures UsageRatio(s) == s.usedDays / (s.usedDays + s.availableDays)
    ensures s.usedDays >= 0.0 && s.availableDays >= 0.0 ==> 0.0 <= UsageRatio(s) <= 1.0
  {
    var d := s.usedDays + s.availableDays;
    if s.usedDays >= 0.0 && s.availableDays >= 0.0 {
      assert d > 0.0;
      assert s.usedDays / d <= 1.0 by {
        assert s.usedDays <= d;
      }
    }
  }

  /** Worked example: 10 days used of 20 with no adjustments is one half. */
  lemma UsageRatioExample(s: State)
    requires s.usedDays == 10.0 && s.totalDays == 20.0 && s.adjustments == []
    ensures UsageRatio(s) == 0.5
  {
  }

  /** The sign in front of the net-adjustment line: no line for an empty log, `"+"` when
      the net is zero or positive, nothing otherwise (the minus comes with the number). */
  function NetLinePrefix(log: seq<Adjustment>): (r: Option<string>)
    ensures r.None? <==> log == []
    ensures r.Some? ==> (r.value == "+" <==> NetAdjustments(log) >= 0.0)
    ensures r.Some? ==> (r.value == "" <==> NetAdjustments(log) < 0.0)
  {
    if |log| > 0 then
      Some(if Additions(log) - Subtractions(log) >= 0.0 then "+" else "")
    else None
  }

  /** The time-off button is disabled while no profile is loaded or while its available
      balance is zero or less. */
  function AddButtonEnabled(profile: Option<State>): (r: bool)
    ensures r <==> profile.Some? && profile.value.availableDays > 0.0
  {
    !(profile.None? || profile.value.availableDays == 0.0 || profile.value.availableDays <= 0.0)
  }

  /** The gate is only advisory: with the button enabled, a request for more days than
      are available is accepted and leaves a negative balance. */
  lemma GateIsSoft(s: State, start: Day, end: Day)
    requires 0.0 < s.availableDays && start <= end
    requires (end - start + 1) as real > s.availableDays
    ensures AddButtonEnabled(Some(s))
    ensures Request(s, Some(start), Some(end), "holiday", "vacation").Done?
    ensures Request(s, Some(start), Some(end), "holiday", "vacation").next.availableDays < 0.0
  {
  }
}
