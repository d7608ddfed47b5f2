/**
 * The calendar arithmetic of the scheduler. A date is a day number (day 0 is Thursday 1 January
 * 1970) and a day of the week uses the numbering of java.util.Calendar: Sunday 1 to Saturday 7.
 */
module Calendar {

  const Sunday := 1
  const Monday := 2
  const Tuesday := 3
  const Wednesday := 4
  const Thursday := 5
  const Friday := 6
  const Saturday := 7

  /** The day of the week of day number d. */
  function DayOfWeek(d: int): (r: int)
    ensures Sunday <= r <= Saturday
  {
    (d + 4) % 7 + 1
  }

  /** getDefaultOpenBusinessDays: Monday to Friday. */
  const DefaultOpenBusinessDays: seq<int> := [Monday, Tuesday, Wednesday, Thursday, Friday]

  /** isBusinessDay: the loop over the open days, returning on the first match. */
  function IsBusinessDay(dayOfWeek: int, openBusinessDays: seq<int>): (r: bool)
    ensures r <==> dayOfWeek in openBusinessDays
  {
    if openBusinessDays == [] then false
    else if dayOfWeek == openBusinessDays[0] then true
    else IsBusinessDay(dayOfWeek, openBusinessDays[1..])
  }

  /** The default open days are exactly the days from Monday to Friday. */
  lemma DefaultOpenDays(dayOfWeek: int)
    ensures IsBusinessDay(dayOfWeek, DefaultOpenBusinessDays) <==> Monday <= dayOfWeek <= Friday
  {
  }

  /** The open days the scheduler uses: the given ones, or the default when none is given
      (a null array is modelled as an empty one). */
  function OpenDays(openBusinessDays: seq<int>): (r: seq<int>)
    ensures |openBusinessDays| > 0 ==> r == openBusinessDays
    ensures |openBusinessDays| == 0 ==> forall d :: IsBusinessDay(d, r) <==> Monday <= d <= Friday
  {
    if |openBusinessDays| == 0 then DefaultOpenBusinessDays else openBusinessDays
  }

  /** Some open day is a day of the week; otherwise the search for a business day never ends. */
  predicate HasWeekday(openBusinessDays: seq<int>) {
    exists i :: 0 <= i < |openBusinessDays| && Sunday <= openBusinessDays[i] <= Saturday
  }

  lemma DefaultHasWeekday()
    ensures HasWeekday(DefaultOpenBusinessDays)
  {
    assert Sunday <= DefaultOpenBusinessDays[0] <= Saturday;
  }

  predicate IsOpen(d: int, openBusinessDays: seq<int>) {
    IsBusinessDay(DayOfWeek(d), openBusinessDays)
  }

  /** Every day of the week comes up within seven days of any date. */
  lemma WeekdayWithinAWeek(d: int, w: int) returns (j: int)
    requires Sunday <= w <= Saturday
    ensures 0 <= j < 7 && DayOfWeek(d + j) == w
  {
    j := (w - 1 - (d + 4)) % 7;
    assert (d + j + 4) % 7 == w - 1;
    assert DayOfWeek(d + j) == w;
  }

  /** The first open day from d on, looking at d + j onwards. */
  function NextOpenFrom(d: int, openBusinessDays: seq<int>, j: nat): (r: int)
    requires HasWeekday(openBusinessDays) && j < 7
    requires forall k :: d <= k < d + j ==> !IsOpen(k, openBusinessDays)
    ensures d + j <= r < d + 7 && IsOpen(r, openBusinessDays)
    decreases 7 - j
  {
    if IsOpen(d + j, openBusinessDays) then d + j
    else
      assert j + 1 < 7 by {
        var i :| 0 <= i < |openBusinessDays| && Sunday <= openBusinessDays[i] <= Saturday;
        var j0 := WeekdayWithinAWeek(d, openBusinessDays[i]);
        assert IsOpen(d + j0, openBusinessDays);
      }
      NextOpenFrom(d, openBusinessDays, j + 1)
  }

  /** No day from d up to the one found is open. */
  lemma {:induction false} NextOpenFromFirst(d: int, openBusinessDays: seq<int>, j: nat)
    requires HasWeekday(openBusinessDays) && j < 7
    requires forall k :: d <= k < d + j ==> !IsOpen(k, openBusinessDays)
    ensures forall k :: d <= k < NextOpenFrom(d, openBusinessDays, j) ==> !IsOpen(k, openBusinessDays)
    decreases 7 - j
  {
    if !IsOpen(d + j, openBusinessDays) {
      var i :| 0 <= i < |openBusinessDays| && Sunday <= openBusinessDays[i] <= Saturday;
      var j0 := WeekdayWithinAWeek(d, openBusinessDays[i]);
      assert IsOpen(d + j0, openBusinessDays);
      NextOpenFromFirst(d, openBusinessDays, j + 1);
    }
  }

  /** The first open day on or after d: where the calendar loops of the scheduler stop. */
  function NextOpen(d: int, openBusinessDays: seq<int>): (r: int)
    requires HasWeekday(openBusinessDays)
    ensures d <= r < d + 7 && IsOpen(r, openBusinessDays)
  {
    NextOpenFrom(d, openBusinessDays, 0)
  }

  /** No day before the first open day on or after d is open, so an open d is its own. */
  lemma NextOpenFirst(d: int, openBusinessDays: seq<int>)
    requires HasWeekday(openBusinessDays)
    ensures forall k :: d <= k < NextOpen(d, openBusinessDays) ==> !IsOpen(k, openBusinessDays)
    ensures IsOpen(d, openBusinessDays) ==> NextOpen(d, openBusinessDays) == d
  {
    NextOpenFromFirst(d, openBusinessDays, 0);
  }

  /** The dates of n schedules from start: the first open day on or after start, then each time the
      next open day after the previous date. */
  function BusinessDays(start: int, n: nat, openBusinessDays: seq<int>): (r: seq<int>)
    requires HasWeekday(openBusinessDays)
    ensures |r| == n
    decreases n
  {
    if n == 0 then []
    else
      var first := NextOpen(start, openBusinessDays);
      [first] + BusinessDays(first + 1, n - 1, openBusinessDays)
  }

  /** The first of n > 0 dates, then the n - 1 dates after it. */
  lemma BusinessDaysUnfold(start: int, n: nat, first: int, later: nat, openBusinessDays: seq<int>)
    requires HasWeekday(openBusinessDays) && n == later + 1 && first == NextOpen(start, openBusinessDays)
    ensures BusinessDays(start, n, openBusinessDays) == [first] + BusinessDays(first + 1, later, openBusinessDays)
  {
  }

  /** The dates are open days in strictly increasing order, the first is the first open day on or
      after start, and no open day lies between two successive dates. */
  predicate Successive(start: int, dates: seq<int>, openBusinessDays: seq<int>)
    requires HasWeekday(openBusinessDays)
  {
    (|dates| > 0 ==> dates[0] == NextOpen(start, openBusinessDays))
    && (forall i :: 0 <= i < |dates| ==> start <= dates[i] && IsOpen(dates[i], openBusinessDays))
    && (forall i :: 0 < i < |dates| ==>
          dates[i - 1] < dates[i] && forall k :: dates[i - 1] < k < dates[i] ==> !IsOpen(k, openBusinessDays))
  }

  /** The dates of n schedules are successive open days. */
  lemma {:induction false} BusinessDaysAreSuccessive(start: int, n: nat, openBusinessDays: seq<int>)
    requires HasWeekday(openBusinessDays)
    ensures Successive(start, BusinessDays(start, n, openBusinessDays), openBusinessDays)
    decreases n
  {
    if n > 0 {
      var first := NextOpen(start, openBusinessDays);
      var rest := BusinessDays(first + 1, n - 1, openBusinessDays);
      BusinessDaysAreSuccessive(first + 1, n - 1, openBusinessDays);
      BusinessDaysUnfold(start, n, first, n - 1, openBusinessDays);
      SuccessiveCons(start, first, rest, openBusinessDays);
    }
  }

  /** The first open day on or after start, followed by successive dates from the day after it,
      are successive dates from start. */
  lemma SuccessiveCons(start: int, first: int, rest: seq<int>, openBusinessDays: seq<int>)
    requires HasWeekday(openBusinessDays) && first == NextOpen(start, openBusinessDays)
    requires Successive(first + 1, rest, openBusinessDays)
    ensures Successive(start, [first] + rest, openBusinessDays)
  {
    var r := [first] + rest;
    forall i | 0 <= i < |r|
      ensures start <= r[i] && IsOpen(r[i], openBusinessDays)
    {
      if i > 0 {
        assert r[i] == rest[i - 1];
      }
    }
    forall i | 0 < i < |r|
      ensures r[i - 1] < r[i] && forall k :: r[i - 1] < k < r[i] ==> !IsOpen(k, openBusinessDays)
    {
      assert r[i] == rest[i - 1];
      if i == 1 {
        NextOpenFirst(first + 1, openBusinessDays);
      } else {
        assert r[i - 1] == rest[i - 2];
      }
    }
  }
}
