/**
 * Capacity mode as the scheduler runs it: extractScheduleMaxNumberOfEquipementsPerDay, with its two
 * counters, its calendar, the new schedules it appends and the location objects its passes drain,
 * proved to end in the schedules and locations CapacityRun describes. What is proved of CapacityRun
 * (dates, length, caps, units) therefore holds of the method's result.
 */
module CapacityExtraction {
  import opened ObjectLists
  import opened Locations
  import opened DailySchedules
  import opened Distribution
  import opened Distributing
  import opened SchedulingMath
  import opened Calendar
  import opened CapacityTargets
  import opened CapacityDraws
  import opened CapacityScheduling
  import opened CapacityRuns
  import FixedRuns

  /** The loop that adds up getOnsiteEquipmentsCount and getTotalOffSiteEquipmentsSublocationsCount
      over the locations. */
  method Totals(locationsList: seq<LocationData>) returns (totalOnSite: int, totalOffSite: int)
    requires AllValid(locationsList)
    ensures totalOnSite == TotalCount(Values(locationsList), OnSiteKind)
    ensures totalOffSite == TotalCount(Values(locationsList), OffSiteKind)
  {
    ghost var values := Values(locationsList);
    totalOnSite, totalOffSite := 0, 0;
    var i := 0;
    while i < |locationsList|
      invariant 0 <= i <= |locationsList|
      invariant totalOnSite == TotalCount(values[..i], OnSiteKind)
      invariant totalOffSite == TotalCount(values[..i], OffSiteKind)
    {
      var onSite := CountOf(locationsList[i], OnSiteKind);
      var offSite := CountOf(locationsList[i], OffSiteKind);
      assert values[..i + 1][..i] == values[..i];
      totalOnSite, totalOffSite := totalOnSite + onSite, totalOffSite + offSite;
      i := i + 1;
    }
    assert values[..i] == values;
  }

  /** The targets of one day: both kinds share min(cap, remaining), on-site first with the rounded-up
      half, each held to its own counter; a lone kind takes all it can. */
  method ComputeTargets(remainingOnSite: int, remainingOffSite: int, currentDayMaxEquipment: int)
    returns (targetOnSite: int, targetOffSite: int)
    ensures Targets(targetOnSite, targetOffSite) == DayTargets(remainingOnSite, remainingOffSite, currentDayMaxEquipment)
  {
    var totalRemaining := remainingOnSite + remainingOffSite;
    var maxToSchedule := Min(currentDayMaxEquipment, totalRemaining);
    targetOnSite, targetOffSite := 0, 0;
    if remainingOnSite > 0 && remainingOffSite > 0 {
      targetOnSite := CeilHalf(maxToSchedule);
      targetOffSite := maxToSchedule - targetOnSite;
      if targetOnSite > remainingOnSite {
        targetOnSite := remainingOnSite;
        targetOffSite := Min(remainingOffSite, maxToSchedule - targetOnSite);
      } else if targetOffSite > remainingOffSite {
        targetOffSite := remainingOffSite;
        targetOnSite := Min(remainingOnSite, maxToSchedule - targetOffSite);
      }
    } else if remainingOnSite > 0 {
      targetOnSite := Min(maxToSchedule, remainingOnSite);
    } else {
      targetOffSite := Min(maxToSchedule, remainingOffSite);
    }
  }

  /** A new schedule for the date with an empty list per technician, then the on-site pass and the
      off-site pass with the day's targets: the day holds the draws, staged in the first
      technician's list, and the locations are what the passes leave. */
  method ScheduleDay(locationsList: seq<LocationData>, date: int, t: Targets, techniciansList: seq<string>)
    returns (dailySchedule: DailyScheduleData)
    requires techniciansList != [] && Unaliased(locationsList) && AllValid(locationsList)
    modifies locationsList
    ensures fresh(dailySchedule) && dailySchedule.Valid() && AllValid(locationsList)
    ensures |techniciansList| > 1 ==> RosterKnown(dailySchedule.Value(), techniciansList)
    ensures var d := DayDraws(old(Values(locationsList)), t);
      dailySchedule.Value() == Stage(InitDay(date, techniciansList), d.fragments) && Values(locationsList) == d.locations
  {
    ghost var values := Values(locationsList);
    dailySchedule := FixedRuns.NewDay(date, techniciansList);
    InitDayFirst(date, techniciansList);
    InitDayLists(date, techniciansList);
    ghost var init := InitDay(date, techniciansList);
    ScheduleEquipmentByPriority(locationsList, dailySchedule, OnSiteKind, t.onSite);
    ghost var onSite := ByPriority(values, OnSiteKind, t.onSite);
    ScheduleEquipmentByPriority(locationsList, dailySchedule, OffSiteKind, t.offSite);
    ghost var offSite := ByPriority(onSite.locations, OffSiteKind, t.offSite);
    StageConcat(init, onSite.fragments, offSite.fragments);
  }

  /** day is the schedule of the plan's day p run from the locations before, and after is what
      its draws leave of them. */
  ghost predicate Ran(p: PlanDay, before: seq<LocationValue>, day: DayValue, after: seq<LocationValue>,
                      roster: seq<string>)
  {
    roster != [] && RunPlan([p], before, roster) == Run([day], after)
  }

  /** The days of the list keep their states while objects outside the list change. */
  twostate lemma DaysKept(days: seq<DailyScheduleData>)
    requires forall i :: 0 <= i < |days| ==> unchanged(days[i])
    ensures DayValues(days) == old(DayValues(days))
    ensures old(AllDaysValid(days)) ==> AllDaysValid(days)
  {
  }

  /** A new day at the end of the list. */
  method AppendDay(scheduleList: seq<DailyScheduleData>, day: DailyScheduleData) returns (longer: seq<DailyScheduleData>)
    requires Unaliased(scheduleList) && AllDaysValid(scheduleList) && day.Valid()
    requires forall i :: 0 <= i < |scheduleList| ==> scheduleList[i] != day
    ensures Unaliased(longer) && AllDaysValid(longer)
    ensures longer == scheduleList + [day] && DayValues(longer) == DayValues(scheduleList) + [day.Value()]
  {
    longer := scheduleList + [day];
  }

  /** The day's schedule made, split and appended to the list; the days already made keep their
      states, and the locations are what the day's draws leave. */
  method AppendScheduledDay(locationsList: seq<LocationData>, scheduleList: seq<DailyScheduleData>, date: int,
                            t: Targets, techniciansList: seq<string>, ghost p: PlanDay,
                            ghost before: seq<LocationValue>, ghost made: seq<DayValue>)
    returns (longer: seq<DailyScheduleData>, ghost day: DayValue)
    requires techniciansList != [] && Unaliased(locationsList) && AllValid(locationsList)
    requires Unaliased(scheduleList) && AllDaysValid(scheduleList)
    requires p.date == date && p.targets == t && before == Values(locationsList) && made == DayValues(scheduleList)
    modifies locationsList
    ensures AllValid(locationsList) && Unaliased(longer) && AllDaysValid(longer)
    ensures |longer| == |scheduleList| + 1 && fresh(longer[|scheduleList|])
    ensures forall i :: 0 <= i < |scheduleList| ==> longer[i] == scheduleList[i]
    ensures DayValues(longer) == made + [day] && Ran(p, before, day, Values(locationsList), techniciansList)
  {
    var dailySchedule := MakeDay(locationsList, date, t, techniciansList, p, before);
    DaysKept(scheduleList);
    longer := AppendDay(scheduleList, dailySchedule);
    day := dailySchedule.Value();
  }

  /** The day's schedule made with the day's targets, then split among the technicians. */
  method MakeDay(locationsList: seq<LocationData>, date: int, t: Targets, techniciansList: seq<string>,
                 ghost p: PlanDay, ghost before: seq<LocationValue>)
    returns (dailySchedule: DailyScheduleData)
    requires techniciansList != [] && Unaliased(locationsList) && AllValid(locationsList)
    requires p.date == date && p.targets == t && before == Values(locationsList)
    modifies locationsList
    ensures fresh(dailySchedule) && dailySchedule.Valid() && AllValid(locationsList)
    ensures Ran(p, before, dailySchedule.Value(), Values(locationsList), techniciansList)
  {
    dailySchedule := ScheduleDay(locationsList, date, t, techniciansList);
    SplitDay(dailySchedule, techniciansList, p, before, Values(locationsList));
  }

  /** The staged day split among the technicians: it is then the schedule of the plan's day. */
  method SplitDay(dailySchedule: DailyScheduleData, techniciansList: seq<string>, ghost p: PlanDay,
                  ghost before: seq<LocationValue>, ghost after: seq<LocationValue>)
    requires techniciansList != [] && dailySchedule.Valid()
    requires |techniciansList| > 1 ==> RosterKnown(dailySchedule.Value(), techniciansList)
    requires var d := DayDraws(before, p.targets);
      dailySchedule.Value() == Stage(InitDay(p.date, techniciansList), d.fragments) && after == d.locations
    modifies dailySchedule
    ensures dailySchedule.Valid() && Ran(p, before, dailySchedule.Value(), after, techniciansList)
  {
    DistributeLocationsToTechnicians(dailySchedule, techniciansList);
    RunSingleDay(p, before, techniciansList);
  }

  /** What is left of the run: the days still to come are those of the rest of the plan, run from
      the given locations, and the run ends with the locations that rest leaves. */
  ghost predicate Remaining(goal: Run, made: seq<DayValue>, plan: seq<PlanDay>, locations: seq<LocationValue>,
                            roster: seq<string>)
  {
    roster != [] && goal.days == made + RunPlan(plan, locations, roster).days
    && goal.locations == RunPlan(plan, locations, roster).locations
  }

  /** The state of the loop while the run goes on: the counters are those of the rest of the plan
      from the current date, and what is left of the run is the run of that rest. */
  ghost predicate OnPlan(goal: Run, made: seq<DayValue>, rest: seq<PlanDay>, date: int, onSite: int, offSite: int,
                         maxPerDay: int, overrides: map<int, int>, open: seq<int>, locations: seq<LocationValue>,
                         roster: seq<string>)
  {
    maxPerDay > 0 && HasWeekday(open) && onSite >= 0 && offSite >= 0
    && rest == Plan(date, onSite, offSite, maxPerDay, overrides, open)
    && Remaining(goal, made, rest, locations, roster)
  }

  /** The state of the loop: on the plan when there was something to place, else no day made, no
      counter left and a run of no days. */
  ghost predicate LoopState(active: bool, goal: Run, made: seq<DayValue>, rest: seq<PlanDay>, date: int, onSite: int,
                            offSite: int, maxPerDay: int, overrides: map<int, int>, open: seq<int>,
                            locations: seq<LocationValue>, roster: seq<string>)
  {
    if active then OnPlan(goal, made, rest, date, onSite, offSite, maxPerDay, overrides, open, locations, roster)
    else made == [] && onSite == 0 && offSite == 0 && goal == Run([], locations)
  }

  /** Once both counters are down to zero, the run is over: its days are those made and its
      locations those left. */
  lemma LoopDone(active: bool, goal: Run, made: seq<DayValue>, rest: seq<PlanDay>, date: int, maxPerDay: int,
                 overrides: map<int, int>, open: seq<int>, locations: seq<LocationValue>, roster: seq<string>)
    requires LoopState(active, goal, made, rest, date, 0, 0, maxPerDay, overrides, open, locations, roster)
    ensures goal.days == made && goal.locations == locations
  {
    if active {
      assert rest == [];
      assert RunPlan(rest, locations, roster) == Run([], locations);
    }
  }

  /** The locations stay valid, and the days are distinct and valid. */
  ghost predicate Lists(locationsList: seq<LocationData>, scheduleList: seq<DailyScheduleData>)
    reads locationsList, scheduleList
  {
    AllValid(locationsList) && Unaliased(scheduleList) && AllDaysValid(scheduleList)
  }

  /** A run with one more day cut off its front: the day's schedule joins those made, and the rest
      of the run is the run of the rest of the plan from the locations the day's draws leave. */
  lemma RunTurn(goal: Run, made: seq<DayValue>, plan: seq<PlanDay>, p: PlanDay, later: seq<PlanDay>,
                locations: seq<LocationValue>, roster: seq<string>, day: DayValue, after: seq<LocationValue>)
    requires plan == [p] + later && Ran(p, locations, day, after, roster)
    requires Remaining(goal, made, plan, locations, roster)
    ensures Remaining(goal, made + [day], later, after, roster)
  {
    var rest := RunPlan(later, after, roster);
    RunPlanCons(p, later, locations, roster, day, after);
    Regroup(made, day, rest.days);
  }

  lemma Regroup<T>(a: seq<T>, x: T, b: seq<T>)
    ensures a + ([x] + b) == (a + [x]) + b
  {
  }

  /** The run of a plan with one more day in front: that day's schedule, then the run of the rest
      of the plan from the locations the day's draws leave. */
  lemma RunPlanCons(p: PlanDay, later: seq<PlanDay>, locations: seq<LocationValue>, roster: seq<string>,
                    day: DayValue, after: seq<LocationValue>)
    requires Ran(p, locations, day, after, roster)
    ensures var rest := RunPlan(later, after, roster);
      RunPlan([p] + later, locations, roster) == Run([day] + rest.days, rest.locations)
  {
    RunSingleDay(p, locations, roster);
    RunPlanStep([p] + later, locations, roster);
    assert ([p] + later)[0] == p && ([p] + later)[1..] == later;
  }

  /** The first part of a turn of the loop: the date's cap (the override for the date if there is
      one, else the default), the day's targets, then the day scheduled, split and appended. The days
      already made stay as they were; the new day and the locations are those of the day's draws. */
  method ScheduleTurn(locationsList: seq<LocationData>, scheduleList: seq<DailyScheduleData>, date: int,
                      remainingOnSite: int, remainingOffSite: int, maxNumberEquipmentsPerDay: int,
                      maxNumberEquipmentsForGivenDaysMap: map<int, int>, techniciansList: seq<string>,
                      ghost before: seq<LocationValue>, ghost made: seq<DayValue>)
    returns (longer: seq<DailyScheduleData>, targetOnSite: int, targetOffSite: int, ghost p: PlanDay,
             ghost day: DayValue, ghost after: seq<LocationValue>)
    requires techniciansList != []
    requires Unaliased(locationsList) && AllValid(locationsList) && Unaliased(scheduleList) && AllDaysValid(scheduleList)
    requires before == Values(locationsList) && made == DayValues(scheduleList)
    modifies locationsList
    ensures AllValid(locationsList) && Unaliased(longer) && AllDaysValid(longer)
    ensures |longer| == |scheduleList| + 1 && fresh(longer[|scheduleList|])
    ensures forall i :: 0 <= i < |scheduleList| ==> longer[i] == scheduleList[i]
    ensures p.date == date && p.cap == CapFor(date, maxNumberEquipmentsForGivenDaysMap, maxNumberEquipmentsPerDay)
    ensures p.targets == Targets(targetOnSite, targetOffSite) == DayTargets(remainingOnSite, remainingOffSite, p.cap)
    ensures Ran(p, before, day, after, techniciansList)
    ensures DayValues(longer) == made + [day] && Values(locationsList) == after
  {
    var currentDayMaxEquipment := if date in maxNumberEquipmentsForGivenDaysMap
                                  then maxNumberEquipmentsForGivenDaysMap[date] else maxNumberEquipmentsPerDay;
    targetOnSite, targetOffSite := ComputeTargets(remainingOnSite, remainingOffSite, currentDayMaxEquipment);
    p := PlanDay(date, currentDayMaxEquipment, Targets(targetOnSite, targetOffSite));
    longer, day := AppendScheduledDay(locationsList, scheduleList, date, Targets(targetOnSite, targetOffSite),
                                      techniciansList, p, before, made);
    after := Values(locationsList);
  }

  /** One turn of the loop while a counter is positive: the day scheduled, split and appended, the
      counters lowered and the next open date. The days already made stay as they were, the new one
      is fresh, and the loop stays on the plan with one day less to come. */
  method Turn(locationsList: seq<LocationData>, scheduleList: seq<DailyScheduleData>, date: int,
              remainingOnSite: int, remainingOffSite: int, maxNumberEquipmentsPerDay: int,
              maxNumberEquipmentsForGivenDaysMap: map<int, int>, open: seq<int>, techniciansList: seq<string>,
              ghost goal: Run, ghost plan: seq<PlanDay>)
    returns (longer: seq<DailyScheduleData>, nextDate: int, onSite: int, offSite: int, ghost later: seq<PlanDay>)
    requires remainingOnSite > 0 || remainingOffSite > 0
    requires Unaliased(locationsList) && Lists(locationsList, scheduleList)
    requires OnPlan(goal, DayValues(scheduleList), plan, date, remainingOnSite, remainingOffSite, maxNumberEquipmentsPerDay,
                    maxNumberEquipmentsForGivenDaysMap, open, Values(locationsList), techniciansList)
    modifies locationsList
    ensures Lists(locationsList, longer)
    ensures |longer| == |scheduleList| + 1 && fresh(longer[|scheduleList|])
    ensures forall i :: 0 <= i < |scheduleList| ==> longer[i] == scheduleList[i]
    ensures OnPlan(goal, DayValues(longer), later, nextDate, onSite, offSite, maxNumberEquipmentsPerDay,
                   maxNumberEquipmentsForGivenDaysMap, open, Values(locationsList), techniciansList)
    ensures |OverridesFrom(maxNumberEquipmentsForGivenDaysMap, nextDate)| < |OverridesFrom(maxNumberEquipmentsForGivenDaysMap, date)|
      || (|OverridesFrom(maxNumberEquipmentsForGivenDaysMap, nextDate)| == |OverridesFrom(maxNumberEquipmentsForGivenDaysMap, date)|
          && onSite + offSite < remainingOnSite + remainingOffSite)
  {
    ghost var made := DayValues(scheduleList);
    ghost var before := Values(locationsList);
    var targetOnSite, targetOffSite;
    ghost var p, day, after;
    longer, targetOnSite, targetOffSite, p, day, after :=
      ScheduleTurn(locationsList, scheduleList, date, remainingOnSite, remainingOffSite,
                   maxNumberEquipmentsPerDay, maxNumberEquipmentsForGivenDaysMap, techniciansList, before, made);
    onSite, offSite, nextDate, later :=
      NextTurn(date, remainingOnSite, remainingOffSite, maxNumberEquipmentsPerDay, maxNumberEquipmentsForGivenDaysMap,
               open, targetOnSite, targetOffSite, techniciansList, goal, made, plan, p, before, day, after);
  }

  /** After the day: the counters lowered by the day's targets and the next open date. With the
      day's schedule and the locations its draws leave, the loop stays on the plan, one day further. */
  method NextTurn(date: int, remainingOnSite: int, remainingOffSite: int, maxNumberEquipmentsPerDay: int,
                  maxNumberEquipmentsForGivenDaysMap: map<int, int>, open: seq<int>, targetOnSite: int,
                  targetOffSite: int, techniciansList: seq<string>, ghost goal: Run, ghost made: seq<DayValue>,
                  ghost plan: seq<PlanDay>, ghost p: PlanDay, ghost before: seq<LocationValue>, ghost day: DayValue,
                  ghost after: seq<LocationValue>)
    returns (onSite: int, offSite: int, nextDate: int, ghost later: seq<PlanDay>)
    requires remainingOnSite > 0 || remainingOffSite > 0
    requires OnPlan(goal, made, plan, date, remainingOnSite, remainingOffSite, maxNumberEquipmentsPerDay,
                    maxNumberEquipmentsForGivenDaysMap, open, before, techniciansList)
    requires p.date == date && p.cap == CapFor(date, maxNumberEquipmentsForGivenDaysMap, maxNumberEquipmentsPerDay)
    requires p.targets == Targets(targetOnSite, targetOffSite) == DayTargets(remainingOnSite, remainingOffSite, p.cap)
    requires Ran(p, before, day, after, techniciansList)
    ensures OnPlan(goal, made + [day], later, nextDate, onSite, offSite, maxNumberEquipmentsPerDay,
                   maxNumberEquipmentsForGivenDaysMap, open, after, techniciansList)
    ensures |OverridesFrom(maxNumberEquipmentsForGivenDaysMap, nextDate)| < |OverridesFrom(maxNumberEquipmentsForGivenDaysMap, date)|
      || (|OverridesFrom(maxNumberEquipmentsForGivenDaysMap, nextDate)| == |OverridesFrom(maxNumberEquipmentsForGivenDaysMap, date)|
          && onSite + offSite < remainingOnSite + remainingOffSite)
  {
    TargetsBounds(remainingOnSite, remainingOffSite, p.cap);
    onSite := remainingOnSite - targetOnSite;
    offSite := remainingOffSite - targetOffSite;
    nextDate := FixedRuns.AdvanceToOpen(date + 1, open);
    later := Plan(nextDate, onSite, offSite, maxNumberEquipmentsPerDay, maxNumberEquipmentsForGivenDaysMap, open);
    PlanTurnAt(plan, date, remainingOnSite, remainingOffSite, maxNumberEquipmentsPerDay,
               maxNumberEquipmentsForGivenDaysMap, open, p, nextDate, onSite, offSite, later);
    RunTurn(goal, made, plan, p, later, before, techniciansList, day, after);
  }

  /** The plan from a date where something remains: the date with its cap and the day's targets,
      then the plan from the next open day with the counters lowered by those targets. */
  lemma PlanTurnAt(plan: seq<PlanDay>, date: int, onSite: int, offSite: int, maxPerDay: int,
                   overrides: map<int, int>, open: seq<int>, p: PlanDay, next: int, nextOnSite: int, nextOffSite: int,
                   later: seq<PlanDay>)
    requires HasWeekday(open) && maxPerDay > 0 && onSite >= 0 && offSite >= 0 && onSite + offSite > 0
    requires plan == Plan(date, onSite, offSite, maxPerDay, overrides, open)
    requires p.date == date && p.cap == CapFor(date, overrides, maxPerDay)
    requires p.targets == DayTargets(onSite, offSite, p.cap) && next == NextOpen(date + 1, open)
    requires nextOnSite == onSite - p.targets.onSite >= 0 && nextOffSite == offSite - p.targets.offSite >= 0
    requires later == Plan(next, nextOnSite, nextOffSite, maxPerDay, overrides, open)
    ensures plan == [p] + later
    ensures |OverridesFrom(overrides, next)| < |OverridesFrom(overrides, date)|
      || (|OverridesFrom(overrides, next)| == |OverridesFrom(overrides, date)| && nextOnSite + nextOffSite < onSite + offSite)
  {
    var t, next' := PlanStep(date, onSite, offSite, maxPerDay, overrides, open);
  }

  /** extractScheduleMaxNumberOfEquipementsPerDay: the totals, the first open date, then the loop.
      The schedules and the drained locations are those of CapacityRun. */
  method ExtractScheduleMaxNumberOfEquipementsPerDay(maxNumberEquipmentsPerDay: int,
                                                     maxNumberEquipmentsForGivenDaysMap: map<int, int>,
                                                     startDate: int, locationsList: seq<LocationData>,
                                                     techniciansList: seq<string>, openBusinessDays: seq<int>)
    returns (scheduleList: seq<DailyScheduleData>)
    requires HasWeekday(OpenDays(openBusinessDays)) && Unaliased(locationsList) && AllValid(locationsList)
    requires TotalCount(Values(locationsList), OnSiteKind) + TotalCount(Values(locationsList), OffSiteKind) == 0
      || (maxNumberEquipmentsPerDay > 0 && techniciansList != [])
    modifies locationsList
    ensures AllValid(locationsList) && Unaliased(scheduleList) && AllDaysValid(scheduleList)
    ensures forall i :: 0 <= i < |scheduleList| ==> fresh(scheduleList[i])
    ensures var r := CapacityRun(maxNumberEquipmentsPerDay, maxNumberEquipmentsForGivenDaysMap, startDate,
                                 old(Values(locationsList)), techniciansList, openBusinessDays);
      DayValues(scheduleList) == r.days && Values(locationsList) == r.locations
  {
    ghost var values := Values(locationsList);
    var open := OpenDays(openBusinessDays);
    var date := FixedRuns.AdvanceToOpen(startDate, open);
    var totalOnSite, totalOffSite := Totals(locationsList);
    ghost var goal := CapacityRun(maxNumberEquipmentsPerDay, maxNumberEquipmentsForGivenDaysMap, startDate, values,
                                  techniciansList, openBusinessDays);
    ghost var plan := RunStart(maxNumberEquipmentsPerDay, maxNumberEquipmentsForGivenDaysMap, startDate, values,
                               techniciansList, openBusinessDays, date, totalOnSite, totalOffSite);
    scheduleList := Schedules(locationsList, date, totalOnSite, totalOffSite, maxNumberEquipmentsPerDay,
                              maxNumberEquipmentsForGivenDaysMap, open, techniciansList, goal, plan);
  }

  /** Before the loop: with something to place, the run is that of the plan from the first open
      date with the totals as counters; with nothing, it is a run of no days. */
  lemma RunStart(maxPerDay: int, overrides: map<int, int>, start: int, locations: seq<LocationValue>,
                 roster: seq<string>, openBusinessDays: seq<int>, date: int, onSite: int, offSite: int)
    returns (plan: seq<PlanDay>)
    requires HasWeekday(OpenDays(openBusinessDays)) && date == NextOpen(start, OpenDays(openBusinessDays))
    requires onSite == TotalCount(locations, OnSiteKind) && offSite == TotalCount(locations, OffSiteKind)
    requires onSite + offSite == 0 || (maxPerDay > 0 && roster != [])
    ensures LoopState(onSite + offSite > 0, CapacityRun(maxPerDay, overrides, start, locations, roster, openBusinessDays),
                      [], plan, date, onSite, offSite, maxPerDay, overrides, OpenDays(openBusinessDays), locations,
                      roster)
  {
    if onSite + offSite > 0 {
      plan := Plan(date, onSite, offSite, maxPerDay, overrides, OpenDays(openBusinessDays));
    } else {
      plan := [];
    }
  }

  /** The loop of extractScheduleMaxNumberOfEquipementsPerDay: while a counter is positive, one turn.
      When nothing is left to place there is no turn; otherwise the schedules and the locations end
      as the run of the plan from the first open date. */
  method Schedules(locationsList: seq<LocationData>, date: int, totalOnSite: int, totalOffSite: int,
                   maxNumberEquipmentsPerDay: int, maxNumberEquipmentsForGivenDaysMap: map<int, int>,
                   open: seq<int>, techniciansList: seq<string>, ghost goal: Run, ghost plan: seq<PlanDay>)
    returns (scheduleList: seq<DailyScheduleData>)
    requires totalOnSite >= 0 && totalOffSite >= 0 && Unaliased(locationsList) && AllValid(locationsList)
    requires LoopState(totalOnSite + totalOffSite > 0, goal, [], plan, date, totalOnSite, totalOffSite,
                       maxNumberEquipmentsPerDay, maxNumberEquipmentsForGivenDaysMap, open, Values(locationsList),
                       techniciansList)
    modifies locationsList
    ensures AllValid(locationsList) && Unaliased(scheduleList) && AllDaysValid(scheduleList)
    ensures forall i :: 0 <= i < |scheduleList| ==> fresh(scheduleList[i])
    ensures DayValues(scheduleList) == goal.days && Values(locationsList) == goal.locations
  {
    var currentDate, remainingOnSite, remainingOffSite := date, totalOnSite, totalOffSite;
    ghost var active := totalOnSite + totalOffSite > 0;
    ghost var rest := plan;
    scheduleList := [];
    while remainingOnSite > 0 || remainingOffSite > 0
      invariant Lists(locationsList, scheduleList)
      invariant forall i :: 0 <= i < |scheduleList| ==> fresh(scheduleList[i])
      invariant LoopState(active, goal, DayValues(scheduleList), rest, currentDate, remainingOnSite, remainingOffSite,
                          maxNumberEquipmentsPerDay, maxNumberEquipmentsForGivenDaysMap, open, Values(locationsList),
                          techniciansList)
      decreases |OverridesFrom(maxNumberEquipmentsForGivenDaysMap, currentDate)|, remainingOnSite + remainingOffSite
    {
      ghost var prior := scheduleList;
      scheduleList, currentDate, remainingOnSite, remainingOffSite, rest :=
        Turn(locationsList, scheduleList, currentDate, remainingOnSite, remainingOffSite, maxNumberEquipmentsPerDay,
             maxNumberEquipmentsForGivenDaysMap, open, techniciansList, goal, rest);
      forall i | 0 <= i < |scheduleList|
        ensures fresh(scheduleList[i])
      {
        if i < |prior| {
          assert scheduleList[i] == prior[i];
        }
      }
    }
    LoopDone(active, goal, DayValues(scheduleList), rest, currentDate, maxNumberEquipmentsPerDay,
             maxNumberEquipmentsForGivenDaysMap, open, Values(locationsList), techniciansList);
  }
}
