/** Counting the days of a time-off request, as the dashboard and the edit dialog do. */
module DayCount {
  import opened Records

  /** Number of calendar days from `start` to `end`, both counted: zero when either date
      is missing, otherwise the whole-day distance plus one, whichever date comes first. */
  function CalculateDays(start: Option<Day>, end: Option<Day>): (r: int)
    ensures r >= 0
    ensures r == 0 <==> start.None? || end.None?
  {
    if start.None? || end.None? then 0
    else if end.value >= start.value then end.value - start.value + 1
    else start.value - end.value + 1
  }

  /** The days from `start` to `end` inclusive, in order: an independent description of
      the span that `CalculateDays` counts. */
  function DaysBetween(start: Day, end: Day): (r: seq<Day>)
    decreases end - start
  {
    if end < start then [] else [start] + DaysBetween(start + 1, end)
  }

  lemma {:induction false} DaysBetweenAt(start: Day, end: Day)
    ensures |DaysBetween(start, end)| == if end < start then 0 else end - start + 1
    ensures forall i :: 0 <= i < |DaysBetween(start, end)| ==> DaysBetween(start, end)[i] == start + i
    decreases end - start
  {
    if end >= start {
      DaysBetweenAt(start + 1, end);
    }
  }

  /** For two dates in order, the count is exactly the number of days the span covers. */
  lemma CountsTheSpan(start: Day, end: Day)
    requires start <= end
    ensures CalculateDays(Some(start), Some(end)) == |DaysBetween(start, end)|
    ensures start in DaysBetween(start, end) && end in DaysBetween(start, end)
  {
    DaysBetweenAt(start, end);
    var s := DaysBetween(start, end);
    assert s[0] == start;
    assert s[end - start] == end;
  }

  /** The count does not depend on the order of the two dates, is at least one for two
      present dates, and is one for a single-day request. */
  lemma CountIsSymmetric(start: Day, end: Day)
    ensures CalculateDays(Some(start), Some(end)) == CalculateDays(Some(end), Some(start))
    ensures CalculateDays(Some(start), Some(end)) >= 1
    ensures CalculateDays(Some(start), Some(start)) == 1
  {
  }

  /** Examples: 2025-01-01 to 2025-01-01 is one day, 2025-01-01 to
      2025-01-03 is three days (ordinals counted from 2025-01-01). */
  lemma CountExamples()
    ensures CalculateDays(Some(0), Some(0)) == 1
    ensures CalculateDays(Some(0), Some(2)) == 3
    ensures CalculateDays(None, Some(2)) == 0
  {
  }
}
