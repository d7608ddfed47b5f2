/**
 * Fixed-days mode as a whole (extractScheduleFixNumberOfDays): one schedule per business day from
 * the start date, every technician with an empty list, the locations staged on the first
 * technician's list of days 0, 1, ... and, last, each day split among the technicians.
 */
module FixedRuns {
  import opened KeyedLists
  import opened Locations
  import opened DailySchedules
  import opened SchedulingMath
  import opened Calendar
  import opened FixedPlans
  import opened Distribution
  import opened CapacityRuns
  import opened ObjectLists
  import opened FixedScheduling
  import opened Distributing

  /** Day by day, the same dates and the same technicians in the same order. */
  predicate SameFrame(a: seq<DayValue>, b: seq<DayValue>) {
    |a| == |b| && forall i :: 0 <= i < |a| ==> a[i].date == b[i].date && a[i].technicians == b[i].technicians
  }

  lemma StageOnSiteFrame(days: seq<DayValue>, v: LocationValue, numberOfDays: nat)
    requires Staging(days) && |days| == numberOfDays > 0
    ensures SameFrame(StageOnSite(days, v, numberOfDays), days)
  {
    OnSiteFragmentsFit(v, numberOfDays);
    PlaceFragments(days, OnSiteFragments(v, numberOfDays));
  }

  lemma {:induction false} StageSublocationsFrame(days: seq<DayValue>, name: string, names: seq<string>,
                                                  lists: map<string, seq<string>>, numberOfDays: nat)
    requires Staging(days) && |days| == numberOfDays > 0
    ensures SameFrame(StageSublocations(days, name, names, lists, numberOfDays), days)
    decreases |names|
  {
    if names != [] {
      var last := names[|names| - 1];
      var before := StageSublocations(days, name, names[..|names| - 1], lists, numberOfDays);
      StageSublocationsFrame(days, name, names[..|names| - 1], lists, numberOfDays);
      SublocationFragmentsFit(name, last, Get(lists, last), numberOfDays);
      PlaceFragments(before, SublocationFragments(name, last, Get(lists, last), numberOfDays));
    }
  }

  lemma StageLocationFrame(days: seq<DayValue>, v: LocationValue, numberOfDays: nat)
    requires Staging(days) && |days| == numberOfDays > 0
    ensures SameFrame(StageLocation(days, v, numberOfDays), days)
  {
    StageOnSiteFrame(days, v, numberOfDays);
    if OffSiteTotal(v.subNames, v.subLists) != 0 {
      StageSublocationsFrame(StageOnSite(days, v, numberOfDays), v.name, v.subNames, v.subLists, numberOfDays);
    }
  }

  /** Staging only ever appends to lists: no day changes its date or its technicians. */
  lemma {:induction false} FixedStageFrame(days: seq<DayValue>, locations: seq<LocationValue>, numberOfDays: nat)
    requires Staging(days) && |days| == numberOfDays > 0
    ensures SameFrame(FixedStage(days, locations, numberOfDays), days)
    decreases |locations|
  {
    if locations != [] {
      var init := locations[..|locations| - 1];
      FixedStageFrame(days, init, numberOfDays);
      StageLocationFrame(FixedStage(days, init, numberOfDays), locations[|locations| - 1], numberOfDays);
    }
  }

  /** Staged day i is dated dates[i], keeps the technicians it was created with, and every
      technician of the roster has a list on it. */
  lemma StagedDaysFrame(dates: seq<int>, roster: seq<string>, locations: seq<LocationValue>)
    requires roster != [] && |dates| > 0
    ensures var r := StagedDays(dates, roster, locations);
      forall i :: 0 <= i < |r| ==>
        r[i].date == dates[i] && r[i].technicians == InitDay(dates[i], roster).technicians && RosterKnown(r[i], roster)
  {
    InitDaysEmpty(dates, roster);
    var init := InitDays(dates, roster);
    var r := StagedDays(dates, roster, locations);
    FixedStageFrame(init, locations, |dates|);
    forall i | 0 <= i < |r|
      ensures r[i].date == dates[i] && r[i].technicians == InitDay(dates[i], roster).technicians && RosterKnown(r[i], roster)
    {
      InitDayLists(dates[i], roster);
      assert ValidDay(init[i]) && ValidDay(r[i]);
    }
  }

  /** The last loop of extractScheduleFixNumberOfDays: each day split among the technicians. */
  function SplitDays(days: seq<DayValue>, roster: seq<string>): (r: seq<DayValue>)
    requires forall i :: 0 <= i < |days| ==> ValidDay(days[i]) && (|roster| > 1 ==> RosterKnown(days[i], roster))
    ensures |r| == |days|
  {
    seq(|days|, i requires 0 <= i < |days| => Distribute(days[i], roster))
  }

  /** The schedules extractScheduleFixNumberOfDays returns, as values: the staged days, each split
      among the technicians. A missing list of open days means Monday to Friday. */
  function FixedRun(start: int, numberOfDays: nat, openBusinessDays: seq<int>, roster: seq<string>,
                    locations: seq<LocationValue>): seq<DayValue>
    requires numberOfDays > 0 && roster != [] && HasWeekday(OpenDays(openBusinessDays))
  {
    var dates := BusinessDays(start, numberOfDays, OpenDays(openBusinessDays));
    StagedDaysFrame(dates, roster, locations);
    SplitDays(StagedDays(dates, roster, locations), roster)
  }

  /** The dates of the days, in order. */
  function Dates(days: seq<DayValue>): (r: seq<int>)
    ensures |r| == |days| && forall i :: 0 <= i < |days| ==> r[i] == days[i].date
  {
    seq(|days|, i requires 0 <= i < |days| => days[i].date)
  }

  /** Days whose fragments are, day by day, the same up to order hold the same units. */
  lemma {:induction false} SameFragmentsUnits(a: seq<DayValue>, b: seq<DayValue>)
    requires |a| == |b| && forall i :: 0 <= i < |a| ==> multiset(Fragments(a[i])) == multiset(Fragments(b[i]))
    ensures DaysUnits(a) == DaysUnits(b)
    decreases |a|
  {
    if a != [] {
      UnitsOfPerm(Fragments(a[0]), Fragments(b[0]));
      SameFragmentsUnits(a[1..], b[1..]);
    }
  }

  /** The split staged days: one per date, dated by it, with the technicians it was created with. */
  lemma StagedRunDates(dates: seq<int>, roster: seq<string>, locations: seq<LocationValue>)
    requires roster != [] && |dates| > 0
    ensures (StagedDaysFrame(dates, roster, locations);
      var r := SplitDays(StagedDays(dates, roster, locations), roster);
      Dates(r) == dates
      && forall i :: 0 <= i < |r| ==> r[i].technicians == InitDay(dates[i], roster).technicians)
  {
    StagedDaysFrame(dates, roster, locations);
    var staged := StagedDays(dates, roster, locations);
    var r := SplitDays(staged, roster);
    forall i | 0 <= i < |r|
      ensures r[i].date == dates[i] && r[i].technicians == InitDay(dates[i], roster).technicians
    {
      assert r[i] == Distribute(staged[i], roster);
    }
    assert Dates(r) == dates;
  }

  /** The split staged days hold every unit of the locations exactly once. */
  lemma StagedRunUnits(dates: seq<int>, roster: seq<string>, locations: seq<LocationValue>)
    requires roster != [] && |dates| > 0
    ensures (StagedDaysFrame(dates, roster, locations);
      DaysUnits(SplitDays(StagedDays(dates, roster, locations), roster)) == multiset(LocationsUnits(locations)))
  {
    StagedDaysFrame(dates, roster, locations);
    var staged := StagedDays(dates, roster, locations);
    var r := SplitDays(staged, roster);
    forall i | 0 <= i < |r|
      ensures multiset(Fragments(r[i])) == multiset(Fragments(staged[i]))
    {
      DistributeKeepsFragments(staged[i], roster);
    }
    SameFragmentsUnits(r, staged);
  }

  /** A fixed-days run has exactly numberOfDays schedules, dated by the successive open days from
      the first open day on or after the start, and each keeps the roster's technicians. */
  lemma FixedRunDates(start: int, numberOfDays: nat, openBusinessDays: seq<int>, roster: seq<string>,
                      locations: seq<LocationValue>)
    requires numberOfDays > 0 && roster != [] && HasWeekday(OpenDays(openBusinessDays))
    ensures var r := FixedRun(start, numberOfDays, openBusinessDays, roster, locations);
      |r| == numberOfDays
      && Dates(r) == BusinessDays(start, numberOfDays, OpenDays(openBusinessDays))
      && (forall i :: 0 <= i < |r| ==> r[i].technicians == InitDay(r[i].date, roster).technicians)
  {
    var dates := BusinessDays(start, numberOfDays, OpenDays(openBusinessDays));
    StagedRunDates(dates, roster, locations);
    FixedRunIs(start, numberOfDays, openBusinessDays, roster, locations, dates);
  }

  /** The dates of a fixed-days run are successive open days from the start on. */
  lemma FixedRunSuccessive(start: int, numberOfDays: nat, openBusinessDays: seq<int>, roster: seq<string>,
                           locations: seq<LocationValue>)
    requires numberOfDays > 0 && roster != [] && HasWeekday(OpenDays(openBusinessDays))
    ensures Successive(start, Dates(FixedRun(start, numberOfDays, openBusinessDays, roster, locations)), OpenDays(openBusinessDays))
  {
    FixedRunDates(start, numberOfDays, openBusinessDays, roster, locations);
    BusinessDaysAreSuccessive(start, numberOfDays, OpenDays(openBusinessDays));
  }

  /** A fixed-days run holds every unit of the locations exactly once. */
  lemma FixedRunUnits(start: int, numberOfDays: nat, openBusinessDays: seq<int>, roster: seq<string>,
                      locations: seq<LocationValue>)
    requires numberOfDays > 0 && roster != [] && HasWeekday(OpenDays(openBusinessDays))
    ensures DaysUnits(FixedRun(start, numberOfDays, openBusinessDays, roster, locations)) == multiset(LocationsUnits(locations))
  {
    StagedRunUnits(BusinessDays(start, numberOfDays, OpenDays(openBusinessDays)), roster, locations);
  }

  /** The loops at the start date and after each day: move forward to the first open day. */
  method AdvanceToOpen(date: int, openBusinessDays: seq<int>) returns (r: int)
    requires HasWeekday(openBusinessDays)
    ensures r == NextOpen(date, openBusinessDays)
  {
    NextOpenFirst(date, openBusinessDays);
    r := date;
    while !IsBusinessDay(DayOfWeek(r), openBusinessDays)
      invariant date <= r <= NextOpen(date, openBusinessDays)
      decreases NextOpen(date, openBusinessDays) - r
    {
      r := r + 1;
    }
  }

  /** new DailyScheduleData(date), then an empty list for each technician in roster order. */
  method NewDay(date: int, techniciansList: seq<string>) returns (day: DailyScheduleData)
    ensures fresh(day) && day.Valid() && day.Value() == InitDay(date, techniciansList)
  {
    day := new DailyScheduleData(date);
    var i := 0;
    while i < |techniciansList|
      invariant 0 <= i <= |techniciansList| && day.Valid() && day.Value() == InitDay(date, techniciansList[..i])
    {
      day.PutEmptyList(techniciansList[i]);
      assert techniciansList[..i + 1][..i] == techniciansList[..i];
      i := i + 1;
    }
    assert techniciansList[..i] == techniciansList;
  }

  /** The first loop: numberOfDays new schedules on successive open days. */
  method CreateDays(numberOfDays: nat, startDate: int, techniciansList: seq<string>, openBusinessDays: seq<int>)
    returns (scheduleList: seq<DailyScheduleData>)
    requires HasWeekday(openBusinessDays)
    ensures |scheduleList| == numberOfDays && Unaliased(scheduleList) && AllDaysValid(scheduleList)
    ensures forall i :: 0 <= i < |scheduleList| ==> fresh(scheduleList[i])
    ensures DayValues(scheduleList) == InitDays(BusinessDays(startDate, numberOfDays, openBusinessDays), techniciansList)
  {
    var date := AdvanceToOpen(startDate, openBusinessDays);
    ghost var cursor := startDate;
    ghost var made: seq<int> := [];
    scheduleList := [];
    while |scheduleList| < numberOfDays
      invariant |scheduleList| <= numberOfDays && |made| == |scheduleList|
      invariant date == NextOpen(cursor, openBusinessDays)
      invariant BusinessDays(startDate, numberOfDays, openBusinessDays)
        == made + BusinessDays(cursor, numberOfDays - |scheduleList|, openBusinessDays)
      invariant Unaliased(scheduleList) && AllDaysValid(scheduleList)
      invariant forall i :: 0 <= i < |scheduleList| ==> fresh(scheduleList[i])
      invariant DayValues(scheduleList) == InitDays(made, techniciansList)
      decreases numberOfDays - |scheduleList|
    {
      DatesTurn(startDate, numberOfDays, made, cursor, date, numberOfDays - |scheduleList|, openBusinessDays);
      scheduleList := AppendDay(scheduleList, made, date, techniciansList);
      made := made + [date];
      cursor := date + 1;
      date := AdvanceToOpen(date + 1, openBusinessDays);
    }
    assert made + BusinessDays(cursor, 0, openBusinessDays) == made;
  }

  /** Taking the next date off the dates still to come. */
  lemma DatesTurn(startDate: int, total: nat, made: seq<int>, cursor: int, date: int, rest: nat, openBusinessDays: seq<int>)
    requires HasWeekday(openBusinessDays) && rest > 0 && date == NextOpen(cursor, openBusinessDays)
    requires BusinessDays(startDate, total, openBusinessDays) == made + BusinessDays(cursor, rest, openBusinessDays)
    ensures BusinessDays(startDate, total, openBusinessDays) == (made + [date]) + BusinessDays(date + 1, rest - 1, openBusinessDays)
  {
    BusinessDaysUnfold(cursor, rest, date, rest - 1, openBusinessDays);
  }

  /** One turn of the first loop: a new day at the end of the list. */
  method AppendDay(scheduleList: seq<DailyScheduleData>, ghost made: seq<int>, date: int, techniciansList: seq<string>)
    returns (longer: seq<DailyScheduleData>)
    requires Unaliased(scheduleList) && AllDaysValid(scheduleList) && DayValues(scheduleList) == InitDays(made, techniciansList)
    ensures Unaliased(longer) && AllDaysValid(longer) && DayValues(longer) == InitDays(made + [date], techniciansList)
    ensures |longer| == |scheduleList| + 1 && longer[..|scheduleList|] == scheduleList && fresh(longer[|scheduleList|])
  {
    var day := NewDay(date, techniciansList);
    longer := scheduleList + [day];
    assert DayValues(longer) == DayValues(scheduleList) + [day.Value()];
  }

  /** What the technician split needs of each day. */
  ghost predicate SplitReady(days: seq<DayValue>, roster: seq<string>) {
    forall i :: 0 <= i < |days| ==> ValidDay(days[i]) && (|roster| > 1 ==> RosterKnown(days[i], roster))
  }

  /** Splitting one more day of the list. */
  lemma SplitDaysTurn(days: seq<DayValue>, roster: seq<string>, i: nat)
    requires SplitReady(days, roster) && i < |days|
    ensures (SplitDays(days[..i], roster) + days[i..])[i := Distribute(days[i], roster)]
         == SplitDays(days[..i + 1], roster) + days[i + 1..]
  {
  }

  /** One turn of the last loop: day i is split among the technicians; no other day changes. */
  method DistributeDay(days: seq<DailyScheduleData>, i: nat, techniciansList: seq<string>)
    requires Unaliased(days) && AllDaysValid(days) && i < |days|
    requires |techniciansList| > 1 ==> RosterKnown(days[i].Value(), techniciansList)
    modifies days[i]
    ensures AllDaysValid(days)
    ensures DayValues(days) == old(DayValues(days))[i := Distribute(old(days[i].Value()), techniciansList)]
  {
    ghost var before := DayValues(days);
    DistributeLocationsToTechnicians(days[i], techniciansList);
    assert forall j :: 0 <= j < |days| && j != i ==> days[j] != days[i];
    assert DayValues(days) == before[i := days[i].Value()];
  }

  /** The last loop: every day split among the technicians. */
  method DistributeAll(scheduleList: seq<DailyScheduleData>, techniciansList: seq<string>)
    requires Unaliased(scheduleList) && AllDaysValid(scheduleList) && SplitReady(DayValues(scheduleList), techniciansList)
    modifies scheduleList
    ensures AllDaysValid(scheduleList)
    ensures DayValues(scheduleList) == SplitDays(old(DayValues(scheduleList)), techniciansList)
  {
    ghost var d0 := DayValues(scheduleList);
    var i := 0;
    while i < |scheduleList|
      invariant 0 <= i <= |scheduleList| && AllDaysValid(scheduleList)
      invariant DayValues(scheduleList) == SplitDays(d0[..i], techniciansList) + d0[i..]
    {
      DistributeDay(scheduleList, i, techniciansList);
      SplitDaysTurn(d0, techniciansList, i);
      i := i + 1;
    }
    assert d0[..i] == d0;
  }

  /** extractScheduleFixNumberOfDays: the schedules are the fixed-days run of the locations' values;
      the locations themselves are not changed. */
  method ExtractScheduleFixNumberOfDays(numberOfDays: nat, startDate: int, locationsList: seq<LocationData>,
                                        techniciansList: seq<string>, openBusinessDays: seq<int>)
    returns (scheduleList: seq<DailyScheduleData>)
    requires numberOfDays > 0 && techniciansList != [] && HasWeekday(OpenDays(openBusinessDays))
    requires AllValid(locationsList)
    ensures |scheduleList| == numberOfDays && Unaliased(scheduleList) && AllDaysValid(scheduleList)
    ensures forall i :: 0 <= i < |scheduleList| ==> fresh(scheduleList[i])
    ensures DayValues(scheduleList) == FixedRun(startDate, numberOfDays, openBusinessDays, techniciansList, old(Values(locationsList)))
  {
    ghost var values := Values(locationsList);
    var open := OpenDays(openBusinessDays);
    scheduleList := CreateDays(numberOfDays, startDate, techniciansList, open);
    ghost var dates := BusinessDays(startDate, numberOfDays, open);
    StageAndSplit(locationsList, scheduleList, dates, techniciansList);
    FixedRunIs(startDate, numberOfDays, openBusinessDays, techniciansList, values, dates);
  }

  /** The second and last loops: the locations staged over the new days, then each day split. */
  method StageAndSplit(locationsList: seq<LocationData>, scheduleList: seq<DailyScheduleData>, ghost dates: seq<int>,
                       techniciansList: seq<string>)
    requires techniciansList != [] && |dates| == |scheduleList| > 0 && AllValid(locationsList)
    requires Unaliased(scheduleList) && AllDaysValid(scheduleList) && DayValues(scheduleList) == InitDays(dates, techniciansList)
    modifies scheduleList
    ensures AllDaysValid(scheduleList)
    ensures (StagedDaysFrame(dates, techniciansList, old(Values(locationsList)));
      DayValues(scheduleList) == SplitDays(StagedDays(dates, techniciansList, old(Values(locationsList))), techniciansList))
  {
    ghost var values := Values(locationsList);
    InitDaysEmpty(dates, techniciansList);
    StageLocations(locationsList, scheduleList, |scheduleList|);
    ghost var staged := StagedDays(dates, techniciansList, values);
    assert DayValues(scheduleList) == staged;
    StagedDaysFrame(dates, techniciansList, values);
    assert SplitReady(staged, techniciansList);
    DistributeAll(scheduleList, techniciansList);
  }

  /** The run is the split of the days staged on its dates. */
  lemma FixedRunIs(start: int, numberOfDays: nat, openBusinessDays: seq<int>, roster: seq<string>,
                   locations: seq<LocationValue>, dates: seq<int>)
    requires numberOfDays > 0 && roster != [] && HasWeekday(OpenDays(openBusinessDays))
    requires dates == BusinessDays(start, numberOfDays, OpenDays(openBusinessDays))
    ensures (StagedDaysFrame(dates, roster, locations);
      FixedRun(start, numberOfDays, openBusinessDays, roster, locations) == SplitDays(StagedDays(dates, roster, locations), roster))
  {
  }
}
