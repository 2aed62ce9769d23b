/** `get_date_range`: every date from a start date to an end date, inclusive,
    one day at a time. */
module DateRanges {
  import opened Wrappers
  import opened Calendar

  /** Raised by `+ timedelta(days=1)` on the last representable date. */
  datatype Error = DateOverflow

  /** The dates the loop appends, in order: start, its successor, and so on
      while the date is not after `end`. */
  function DateRange(start: ValidDate, end: ValidDate): seq<ValidDate>
    decreases Ordinal(end) + 1 - Ordinal(start)
  {
    if !OnOrBefore(start, end) then []
    else match Successor(start)
      case None => [start]
      case Some(next) =>
        OrderByOrdinal(start, end);
        SuccessorOrdinal(start);
        [start] + DateRange(next, end)
  }

  /** The loop steps from the last representable date, which Python refuses. */
  predicate Overflows(start: ValidDate, end: ValidDate) {
    OnOrBefore(start, end) && end == LastDate
  }

  /** The range holds one date per day from start to end, in ascending day
      count, and nothing when start is after end. */
  lemma {:induction false} DateRangeOrdinals(start: ValidDate, end: ValidDate)
    ensures var r := DateRange(start, end);
      && |r| == (if OnOrBefore(start, end) then Ordinal(end) - Ordinal(start) + 1 else 0)
      && forall i :: 0 <= i < |r| ==> Ordinal(r[i]) == Ordinal(start) + i
    decreases Ordinal(end) + 1 - Ordinal(start)
  {
    OrderByOrdinal(start, end);
    if OnOrBefore(start, end) {
      match Successor(start)
      case None =>
        LastDateIsLast(end);
        OrderByOrdinal(end, LastDate);
      case Some(next) =>
        SuccessorOrdinal(start);
        OrderByOrdinal(next, end);
        DateRangeOrdinals(next, end);
        var r := DateRange(start, end);
        assert r == [start] + DateRange(next, end);
        forall i | 0 <= i < |r|
          ensures Ordinal(r[i]) == Ordinal(start) + i
        {
          if i > 0 {
            assert r[i] == DateRange(next, end)[i - 1];
          }
        }
    }
  }

  /** Each date of the range is followed by its calendar successor. */
  lemma {:induction false} DateRangeSteps(start: ValidDate, end: ValidDate)
    ensures forall i :: 0 <= i < |DateRange(start, end)| - 1 ==>
      Successor(DateRange(start, end)[i]) == Some(DateRange(start, end)[i + 1])
    decreases Ordinal(end) + 1 - Ordinal(start)
  {
    if OnOrBefore(start, end) && Successor(start).Some? {
      var next := Successor(start).value;
      OrderByOrdinal(start, end);
      SuccessorOrdinal(start);
      DateRangeSteps(next, end);
      var r := DateRange(start, end);
      var rest := DateRange(next, end);
      assert r == [start] + rest;
      forall i | 0 <= i < |r| - 1
        ensures Successor(r[i]) == Some(r[i + 1])
      {
        if i == 0 {
          DateRangeOrdinals(next, end);
          OrderByOrdinal(rest[0], next);
          assert r[1] == rest[0] == next;
        } else {
          assert r[i] == rest[i - 1] && r[i + 1] == rest[i];
        }
      }
    }
  }

  /** When start is not after end, the range begins with start and ends with end. */
  lemma DateRangeEnds(start: ValidDate, end: ValidDate)
    requires OnOrBefore(start, end)
    ensures var r := DateRange(start, end);
      |r| >= 1 && r[0] == start && r[|r| - 1] == end
  {
    DateRangeOrdinals(start, end);
    OrderByOrdinal(start, end);
    var r := DateRange(start, end);
    OrderByOrdinal(r[0], start);
    OrderByOrdinal(r[|r| - 1], end);
  }

  /** A date is in the range exactly when it lies between start and end. */
  lemma DateRangeMembers(start: ValidDate, end: ValidDate, d: ValidDate)
    ensures d in DateRange(start, end) <==> OnOrBefore(start, d) && OnOrBefore(d, end)
  {
    var r := DateRange(start, end);
    DateRangeOrdinals(start, end);
    OrderByOrdinal(start, d);
    OrderByOrdinal(d, end);
    OrderByOrdinal(start, end);
    if d in r {
      var i :| 0 <= i < |r| && r[i] == d;
    }
    if OnOrBefore(start, d) && OnOrBefore(d, end) {
      var i := Ordinal(d) - Ordinal(start);
      OrderByOrdinal(r[i], d);
      assert r[i] == d;
    }
  }

  /** `get_date_range(start_date, end_date)`; Failure where Python raises
      OverflowError on stepping past the last representable date. */
  method GetDateRange(start: ValidDate, end: ValidDate) returns (r: Result<seq<ValidDate>, Error>)
    ensures r == if Overflows(start, end) then Failure(DateOverflow) else Success(DateRange(start, end))
  {
    var current := start;
    var dates: seq<ValidDate> := [];
    while OnOrBefore(current, end)
      invariant OnOrBefore(start, current)
      invariant dates + DateRange(current, end) == DateRange(start, end)
      decreases Ordinal(end) + 1 - Ordinal(current)
    {
      OrderByOrdinal(current, end);
      var tail := DateRange(current, end);
      dates := dates + [current];
      var next := Successor(current);
      if next.None? {
        LastDateIsLast(end);
        OrderByOrdinal(end, LastDate);
        OrderByOrdinal(start, current);
        OrderByOrdinal(start, end);
        return Failure(DateOverflow);
      }
      assert tail == [current] + DateRange(next.value, end);
      SuccessorOrdinal(current);
      OrderByOrdinal(start, current);
      OrderByOrdinal(start, next.value);
      current := next.value;
    }
    if end == LastDate {
      LastDateIsLast(current);
    }
    assert !Overflows(start, end);
    assert DateRange(current, end) == [];
    assert dates == DateRange(start, end);
    r := Success(dates);
  }
}
