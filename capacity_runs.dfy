/**
 * Capacity mode, the run: each day of the plan gets one schedule whose fragments are what the
 * on-site pass and then the off-site pass draw with the day's targets, staged in the first
 * technician's list and then split among the technicians.
 */
module CapacityRuns {
  import opened KeyedLists
  import opened Locations
  import opened DailySchedules
  import opened Distribution
  import opened FixedPlans
  import opened SchedulingMath
  import opened Calendar
  import opened CapacityTargets
  import opened CapacityDraws
  import opened StableOrder

  /** The draws of one day: the on-site pass with the on-site target, then the off-site pass with
      the off-site target on what the first pass left. */
  function DayDraws(locations: seq<LocationValue>, t: Targets): Pass {
    var on := ByPriority(locations, OnSiteKind, t.onSite);
    var off := ByPriority(on.locations, OffSiteKind, t.offSite);
    Pass(on.count + off.count, on.fragments + off.fragments, off.locations)
  }

  /** A day draws at most its positive targets, and its fragments hold as many units as it draws. */
  lemma DayDrawsCount(locations: seq<LocationValue>, t: Targets)
    ensures var d := DayDraws(locations, t);
      0 <= d.count <= Pos(t.onSite) + Pos(t.offSite) && |UnitsOf(d.fragments)| == d.count
      && |d.locations| == |locations|
  {
    var on := ByPriority(locations, OnSiteKind, t.onSite);
    ByPriorityCount(locations, OnSiteKind, t.onSite);
    ByPriorityCount(on.locations, OffSiteKind, t.offSite);
    UnitsOfConcat(on.fragments, ByPriority(on.locations, OffSiteKind, t.offSite).fragments);
  }

  /** A day loses no unit and keeps the locations fit, in place and named as before. */
  lemma DayDrawsUnits(locations: seq<LocationValue>, t: Targets)
    requires AllFit(locations)
    ensures var d := DayDraws(locations, t);
      AllFit(d.locations) && |d.locations| == |locations|
      && (forall i :: 0 <= i < |locations| ==> d.locations[i].name == locations[i].name)
      && multiset(UnitsOf(d.fragments)) + multiset(LocationsUnits(d.locations)) == multiset(LocationsUnits(locations))
  {
    var on := ByPriority(locations, OnSiteKind, t.onSite);
    var off := ByPriority(on.locations, OffSiteKind, t.offSite);
    ByPriorityUnits(locations, OnSiteKind, t.onSite);
    ByPriorityUnits(on.locations, OffSiteKind, t.offSite);
    ChainUnits(on.fragments, off.fragments, on.locations, off.locations, locations);
  }

  /** The fragments staged one after another at the end of the first technician's list. */
  function Stage(d: DayValue, fragments: seq<LocationValue>): (r: DayValue)
    requires ValidDay(d) && |d.technicians| > 0
    ensures ValidDay(r) && r.date == d.date && r.technicians == d.technicians && r.buckets.Keys == d.buckets.Keys
    decreases |fragments|
  {
    if fragments == [] then d else Stage(AddFirst(d, fragments[0]), fragments[1..])
  }

  /** Staging on a day where only the first technician has fragments appends them to the day's. */
  lemma {:induction false} StageAppends(d: DayValue, fragments: seq<LocationValue>)
    requires ValidDay(d) && OnlyFirst(d)
    ensures OnlyFirst(Stage(d, fragments)) && Fragments(Stage(d, fragments)) == Fragments(d) + fragments
    decreases |fragments|
  {
    if fragments != [] {
      AddFirstAppends(d, fragments[0]);
      StageAppends(AddFirst(d, fragments[0]), fragments[1..]);
      assert [fragments[0]] + fragments[1..] == fragments;
    }
  }

  /** Staging two runs of fragments one after the other stages them all. */
  lemma {:induction false} StageConcat(d: DayValue, a: seq<LocationValue>, b: seq<LocationValue>)
    requires ValidDay(d) && |d.technicians| > 0
    ensures Stage(d, a + b) == Stage(Stage(d, a), b)
    decreases |a|
  {
    if a == [] {
      assert a + b == b;
    } else {
      assert (a + b)[0] == a[0] && (a + b)[1..] == a[1..] + b;
      StageConcat(AddFirst(d, a[0]), a[1..], b);
    }
  }

  /** Staging one more fragment puts it in the first technician's list after the others. */
  lemma StageSnoc(d: DayValue, a: seq<LocationValue>, f: LocationValue)
    requires ValidDay(d) && |d.technicians| > 0
    ensures Stage(d, a + [f]) == AddFirst(Stage(d, a), f)
  {
    StageConcat(d, a, [f]);
    assert [f][1..] == [];
  }

  /** The schedule of one day: created with an empty list per technician, the fragments staged,
      then split among the technicians. */
  function DayOf(date: int, roster: seq<string>, fragments: seq<LocationValue>): (r: DayValue)
    requires roster != []
    ensures ValidDay(r) && r.date == date
  {
    InitDayFirst(date, roster);
    InitDayLists(date, roster);
    Distribute(Stage(InitDay(date, roster), fragments), roster)
  }

  /** The day holds exactly the fragments staged, in some order, and so exactly their units. */
  lemma DayOfFragments(date: int, roster: seq<string>, fragments: seq<LocationValue>)
    requires roster != []
    ensures multiset(Fragments(DayOf(date, roster, fragments))) == multiset(fragments)
    ensures multiset(UnitsOf(Fragments(DayOf(date, roster, fragments)))) == multiset(UnitsOf(fragments))
  {
    var init := InitDay(date, roster);
    InitDayFirst(date, roster);
    InitDayLists(date, roster);
    EmptyBucketsNoFragments(init.technicians, init.buckets);
    var staged := Stage(init, fragments);
    StageAppends(init, fragments);
    assert Fragments(staged) == fragments;
    DistributeKeepsFragments(staged, roster);
    UnitsOfPerm(Fragments(DayOf(date, roster, fragments)), fragments);
  }

  /** Fragments with the same elements hold the same units. */
  lemma {:induction false} UnitsOfPerm(a: seq<LocationValue>, b: seq<LocationValue>)
    requires multiset(a) == multiset(b)
    ensures multiset(UnitsOf(a)) == multiset(UnitsOf(b))
    decreases |a|
  {
    if a == [] {
      assert |b| == |multiset(b)| == 0;
    } else {
      var x := a[|a| - 1];
      var init := a[..|a| - 1];
      assert a == init + [x];
      assert x in multiset(b);
      var k :| 0 <= k < |b| && b[k] == x;
      var others := b[..k] + b[k + 1..];
      assert b == b[..k] + [x] + b[k + 1..];
      assert multiset(init) + multiset{x} == multiset(others) + multiset{x};
      Cancel(multiset(init), multiset(others), multiset{x});
      UnitsOfPerm(init, others);
      UnitsOfConcat(b[..k] + [x], b[k + 1..]);
      UnitsOfConcat(b[..k], [x]);
      UnitsOfConcat(b[..k], b[k + 1..]);
      UnitsOfSingle(x);
    }
  }

  /** The days of a run and the locations it leaves. */
  datatype Run = Run(days: seq<DayValue>, locations: seq<LocationValue>)

  /** The loop of extractScheduleMaxNumberOfEquipementsPerDay over the days of its plan. */
  function RunPlan(plan: seq<PlanDay>, locations: seq<LocationValue>, roster: seq<string>): (r: Run)
    requires roster != []
    ensures |r.days| == |plan|
    decreases |plan|, 1
  {
    if plan == [] then Run([], locations) else RunFirst(plan, locations, roster)
  }

  /** A plan with a first day: that day's schedule drawn from the locations, then the run of the
      rest of the plan from what the draws leave. */
  function RunFirst(plan: seq<PlanDay>, locations: seq<LocationValue>, roster: seq<string>): (r: Run)
    requires roster != [] && plan != []
    ensures |r.days| == |plan|
    decreases |plan|, 0
  {
    var d := DayDraws(locations, plan[0].targets);
    var rest := RunPlan(plan[1..], d.locations, roster);
    Run([DayOf(plan[0].date, roster, d.fragments)] + rest.days, rest.locations)
  }

  /** The run of a plan with a first day, one step unfolded. */
  lemma RunPlanStep(plan: seq<PlanDay>, locations: seq<LocationValue>, roster: seq<string>)
    requires roster != [] && plan != []
    ensures var d := DayDraws(locations, plan[0].targets);
      var rest := RunPlan(plan[1..], d.locations, roster);
      RunPlan(plan, locations, roster) == Run([DayOf(plan[0].date, roster, d.fragments)] + rest.days, rest.locations)
  {
    assert RunPlan(plan, locations, roster) == RunFirst(plan, locations, roster);
  }

  /** Day i of a run is the schedule of the plan's day i drawn from the locations as the earlier
      days left them. */
  lemma {:induction false} RunPlanDay(plan: seq<PlanDay>, locations: seq<LocationValue>, roster: seq<string>, i: nat)
    returns (before: seq<LocationValue>)
    requires roster != [] && i < |plan|
    ensures RunPlan(plan, locations, roster).days[i]
      == DayOf(plan[i].date, roster, DayDraws(before, plan[i].targets).fragments)
    decreases i, 1
  {
    if i == 0 {
      before := locations;
      RunPlanFirstDay(plan, locations, roster);
    } else {
      before := RunPlanLaterDay(plan, locations, roster, i);
    }
  }

  lemma {:induction false} RunPlanLaterDay(plan: seq<PlanDay>, locations: seq<LocationValue>, roster: seq<string>, i: nat)
    returns (before: seq<LocationValue>)
    requires roster != [] && 0 < i < |plan|
    ensures RunPlan(plan, locations, roster).days[i]
      == DayOf(plan[i].date, roster, DayDraws(before, plan[i].targets).fragments)
    decreases i, 0
  {
    before := RunPlanDay(plan[1..], DayDraws(locations, plan[0].targets).locations, roster, i - 1);
    RunPlanDayStep(plan, locations, roster, i, before);
  }

  lemma RunPlanFirstDay(plan: seq<PlanDay>, locations: seq<LocationValue>, roster: seq<string>)
    requires roster != [] && 0 < |plan|
    ensures RunPlan(plan, locations, roster).days[0]
      == DayOf(plan[0].date, roster, DayDraws(locations, plan[0].targets).fragments)
  {
    RunPlanStep(plan, locations, roster);
  }

  lemma RunPlanDayStep(plan: seq<PlanDay>, locations: seq<LocationValue>, roster: seq<string>, i: nat,
                       before: seq<LocationValue>)
    requires roster != [] && 0 < i < |plan|
    requires RunPlan(plan[1..], DayDraws(locations, plan[0].targets).locations, roster).days[i - 1]
      == DayOf(plan[1..][i - 1].date, roster, DayDraws(before, plan[1..][i - 1].targets).fragments)
    ensures RunPlan(plan, locations, roster).days[i]
      == DayOf(plan[i].date, roster, DayDraws(before, plan[i].targets).fragments)
  {
    var rest := RunPlan(plan[1..], DayDraws(locations, plan[0].targets).locations, roster);
    RunPlanRest(plan, locations, roster);
    assert RunPlan(plan, locations, roster).days[i] == rest.days[i - 1];
    assert plan[1..][i - 1] == plan[i];
  }

  /** After its first day, a run goes on as the run of the rest of the plan. */
  lemma RunPlanRest(plan: seq<PlanDay>, locations: seq<LocationValue>, roster: seq<string>)
    requires roster != [] && plan != []
    ensures RunPlan(plan, locations, roster).days[1..]
      == RunPlan(plan[1..], DayDraws(locations, plan[0].targets).locations, roster).days
  {
    RunPlanStep(plan, locations, roster);
    var rest := RunPlan(plan[1..], DayDraws(locations, plan[0].targets).locations, roster);
    assert RunPlan(plan, locations, roster).days == [RunPlan(plan, locations, roster).days[0]] + rest.days;
  }

  /** Each schedule is on its day of the plan. */
  lemma RunPlanDates(plan: seq<PlanDay>, locations: seq<LocationValue>, roster: seq<string>)
    requires roster != []
    ensures var r := RunPlan(plan, locations, roster);
      forall i :: 0 <= i < |plan| ==> r.days[i].date == plan[i].date
  {
    forall i | 0 <= i < |plan| ensures RunPlan(plan, locations, roster).days[i].date == plan[i].date {
      var before := RunPlanDay(plan, locations, roster, i);
    }
  }

  /** No schedule holds more units than the positive targets of its day. */
  lemma RunPlanBound(plan: seq<PlanDay>, locations: seq<LocationValue>, roster: seq<string>)
    requires roster != []
    ensures var r := RunPlan(plan, locations, roster);
      forall i :: 0 <= i < |plan| ==>
        |UnitsOf(Fragments(r.days[i]))| <= Pos(plan[i].targets.onSite) + Pos(plan[i].targets.offSite)
  {
    forall i | 0 <= i < |plan|
      ensures |UnitsOf(Fragments(RunPlan(plan, locations, roster).days[i]))|
        <= Pos(plan[i].targets.onSite) + Pos(plan[i].targets.offSite)
    {
      var before := RunPlanDay(plan, locations, roster, i);
      var d := DayDraws(before, plan[i].targets);
      DayDrawsCount(before, plan[i].targets);
      DayOfFragments(plan[i].date, roster, d.fragments);
      var day := DayOf(plan[i].date, roster, d.fragments);
      assert |multiset(UnitsOf(Fragments(day)))| == |multiset(UnitsOf(d.fragments))|;
    }
  }

  /** A run loses no unit: the schedules and the locations it leaves hold the units of the
      locations, each as often as before. */
  lemma {:induction false} RunPlanUnits(plan: seq<PlanDay>, locations: seq<LocationValue>, roster: seq<string>)
    requires roster != [] && AllFit(locations)
    ensures var r := RunPlan(plan, locations, roster);
      AllFit(r.locations) && DaysUnits(r.days) + multiset(LocationsUnits(r.locations)) == multiset(LocationsUnits(locations))
    decreases |plan|
  {
    if plan != [] {
      var d := DayDraws(locations, plan[0].targets);
      DayDrawsUnits(locations, plan[0].targets);
      DayOfFragments(plan[0].date, roster, d.fragments);
      RunPlanUnits(plan[1..], d.locations, roster);
      RunPlanFirstDay(plan, locations, roster);
      RunPlanRest(plan, locations, roster);
      var r := RunPlan(plan, locations, roster);
      assert r.days == [r.days[0]] + r.days[1..];
    }
  }

  /** The units of a kind left in the locations, location after location: the totals
      extractScheduleMaxNumberOfEquipementsPerDay starts its counters from. */
  function TotalCount(locations: seq<LocationValue>, kind: Kind): nat {
    if locations == [] then 0
    else TotalCount(locations[..|locations| - 1], kind) + Count(locations[|locations| - 1], kind)
  }

  /** The two totals together count every unit of the locations. */
  lemma {:induction false} TotalCountUnits(locations: seq<LocationValue>)
    ensures TotalCount(locations, OnSiteKind) + TotalCount(locations, OffSiteKind) == |LocationsUnits(locations)|
    decreases |locations|
  {
    if locations != [] {
      var last := locations[|locations| - 1];
      TotalCountUnits(locations[..|locations| - 1]);
      OffSiteTotalCounts(last.subNames, last.subLists);
    }
  }

  /** A positive total has a location holding units of its kind. */
  lemma {:induction false} TotalCountHolds(locations: seq<LocationValue>, kind: Kind) returns (i: nat)
    requires TotalCount(locations, kind) > 0
    ensures i < |locations| && Count(locations[i], kind) > 0
    decreases |locations|
  {
    var n := |locations|;
    if Count(locations[n - 1], kind) > 0 {
      i := n - 1;
    } else {
      i := TotalCountHolds(locations[..n - 1], kind);
    }
  }

  /** A day whose targets are positive on a kind that has units left draws something: the on-site
      pass leaves the off-site lists as they were, so the off-site pass still finds them. */
  lemma DayDrawsProgress(locations: seq<LocationValue>, t: Targets)
    requires AllFit(locations)
    requires (t.onSite > 0 && TotalCount(locations, OnSiteKind) > 0)
      || (t.offSite > 0 && TotalCount(locations, OffSiteKind) > 0)
    ensures DayDraws(locations, t).count > 0
  {
    var on := ByPriority(locations, OnSiteKind, t.onSite);
    ByPriorityCount(locations, OnSiteKind, t.onSite);
    ByPriorityCount(on.locations, OffSiteKind, t.offSite);
    if t.onSite > 0 && TotalCount(locations, OnSiteKind) > 0 {
      var i := TotalCountHolds(locations, OnSiteKind);
    } else {
      var i := TotalCountHolds(locations, OffSiteKind);
      ByPriorityUnits(locations, OnSiteKind, t.onSite);
      assert Touches(OnSiteKind, locations[i], on.locations[i]);
      assert Count(on.locations[i], OffSiteKind) > 0;
    }
  }

  /** extractScheduleMaxNumberOfEquipementsPerDay: the schedules of the successive open days from
      the start date, while the counters are positive, and the locations as the passes leave them.
      The loop ends only if the default cap is positive, and its first draw fails on an empty
      roster, so both are required once there is a unit to schedule. */
  function CapacityRun(maxPerDay: int, overrides: map<int, int>, start: int, locations: seq<LocationValue>,
                       roster: seq<string>, openBusinessDays: seq<int>): (r: Run)
    requires HasWeekday(OpenDays(openBusinessDays))
    requires TotalCount(locations, OnSiteKind) + TotalCount(locations, OffSiteKind) == 0
      || (maxPerDay > 0 && roster != [])
  {
    var on := TotalCount(locations, OnSiteKind);
    var off := TotalCount(locations, OffSiteKind);
    if on + off == 0 then Run([], locations)
    else
      var open := OpenDays(openBusinessDays);
      RunPlan(Plan(NextOpen(start, open), on, off, maxPerDay, overrides, open), locations, roster)
  }

  /** The schedules fall on the successive open days from the start date, one each. */
  lemma CapacityRunDates(maxPerDay: int, overrides: map<int, int>, start: int, locations: seq<LocationValue>,
                         roster: seq<string>, openBusinessDays: seq<int>)
    requires HasWeekday(OpenDays(openBusinessDays))
    requires TotalCount(locations, OnSiteKind) + TotalCount(locations, OffSiteKind) == 0
      || (maxPerDay > 0 && roster != [])
    ensures var r := CapacityRun(maxPerDay, overrides, start, locations, roster, openBusinessDays);
      var dates := BusinessDays(start, |r.days|, OpenDays(openBusinessDays));
      forall i :: 0 <= i < |r.days| ==> r.days[i].date == dates[i]
  {
    var on := TotalCount(locations, OnSiteKind);
    var off := TotalCount(locations, OffSiteKind);
    if on + off > 0 {
      var open := OpenDays(openBusinessDays);
      var plan := Plan(NextOpen(start, open), on, off, maxPerDay, overrides, open);
      RunPlanDates(plan, locations, roster);
      PlanDates(start, NextOpen(start, open), on, off, maxPerDay, overrides, open);
      DatesIndex(plan);
    }
  }

  /** With no per-date override, there are as many schedules as it takes days of the default cap to
      cover every unit: ceil(units / cap). */
  lemma CapacityRunLength(maxPerDay: int, start: int, locations: seq<LocationValue>,
                          roster: seq<string>, openBusinessDays: seq<int>)
    requires HasWeekday(OpenDays(openBusinessDays)) && maxPerDay > 0
    requires TotalCount(locations, OnSiteKind) + TotalCount(locations, OffSiteKind) == 0 || roster != []
    ensures |CapacityRun(maxPerDay, map[], start, locations, roster, openBusinessDays).days|
      == CeilDiv(|LocationsUnits(locations)|, maxPerDay)
  {
    TotalCountUnits(locations);
    CapacityRunLengthOf(maxPerDay, start, locations, roster, openBusinessDays,
                        TotalCount(locations, OnSiteKind), TotalCount(locations, OffSiteKind), |LocationsUnits(locations)|);
  }

  /** The same, on and off being the two totals and n their sum. */
  lemma CapacityRunLengthOf(maxPerDay: int, start: int, locations: seq<LocationValue>,
                            roster: seq<string>, openBusinessDays: seq<int>, on: nat, off: nat, n: nat)
    requires HasWeekday(OpenDays(openBusinessDays)) && maxPerDay > 0
    requires on == TotalCount(locations, OnSiteKind) && off == TotalCount(locations, OffSiteKind)
    requires n == on + off && (n == 0 || roster != [])
    ensures |CapacityRun(maxPerDay, map[], start, locations, roster, openBusinessDays).days| == CeilDiv(n, maxPerDay)
  {
    if n > 0 {
      CapacityRunLengthPlanned(maxPerDay, start, locations, roster, openBusinessDays, on, off, n);
    } else {
      CapacityRunEmpty(maxPerDay, map[], start, locations, roster, openBusinessDays);
      CeilDivZero(maxPerDay);
    }
  }

  /** With no unit left, the run has no schedule. */
  lemma CapacityRunEmpty(maxPerDay: int, overrides: map<int, int>, start: int, locations: seq<LocationValue>,
                         roster: seq<string>, openBusinessDays: seq<int>)
    requires HasWeekday(OpenDays(openBusinessDays))
    requires TotalCount(locations, OnSiteKind) + TotalCount(locations, OffSiteKind) == 0
    ensures CapacityRun(maxPerDay, overrides, start, locations, roster, openBusinessDays).days == []
  {
  }

  /** The same when there are units: the run has a schedule per day of its plan. */
  lemma CapacityRunLengthPlanned(maxPerDay: int, start: int, locations: seq<LocationValue>,
                                 roster: seq<string>, openBusinessDays: seq<int>, on: nat, off: nat, n: nat)
    requires HasWeekday(OpenDays(openBusinessDays)) && maxPerDay > 0 && roster != []
    requires on == TotalCount(locations, OnSiteKind) && off == TotalCount(locations, OffSiteKind) && n == on + off > 0
    ensures |CapacityRun(maxPerDay, map[], start, locations, roster, openBusinessDays).days| == CeilDiv(n, maxPerDay)
  {
    CapacityRunPlanned(maxPerDay, map[], start, locations, roster, openBusinessDays);
    PlanLength(NextOpen(start, OpenDays(openBusinessDays)), on, off, maxPerDay, OpenDays(openBusinessDays));
  }

  /** A run with units left is the run of its plan from the first open day. */
  lemma CapacityRunPlanned(maxPerDay: int, overrides: map<int, int>, start: int, locations: seq<LocationValue>,
                           roster: seq<string>, openBusinessDays: seq<int>)
    requires HasWeekday(OpenDays(openBusinessDays)) && maxPerDay > 0 && roster != []
    requires TotalCount(locations, OnSiteKind) + TotalCount(locations, OffSiteKind) > 0
    ensures |CapacityRun(maxPerDay, overrides, start, locations, roster, openBusinessDays).days|
      == |Plan(NextOpen(start, OpenDays(openBusinessDays)), TotalCount(locations, OnSiteKind),
               TotalCount(locations, OffSiteKind), maxPerDay, overrides, OpenDays(openBusinessDays))|
  {
  }

  /** No schedule holds more units than the cap of its date, the override if there is one. */
  lemma CapacityRunBound(maxPerDay: int, overrides: map<int, int>, start: int, locations: seq<LocationValue>,
                         roster: seq<string>, openBusinessDays: seq<int>)
    requires HasWeekday(OpenDays(openBusinessDays))
    requires TotalCount(locations, OnSiteKind) + TotalCount(locations, OffSiteKind) == 0
      || (maxPerDay > 0 && roster != [])
    ensures var r := CapacityRun(maxPerDay, overrides, start, locations, roster, openBusinessDays);
      forall i :: 0 <= i < |r.days| ==>
        |UnitsOf(Fragments(r.days[i]))| <= Pos(CapFor(r.days[i].date, overrides, maxPerDay))
  {
    var on := TotalCount(locations, OnSiteKind);
    var off := TotalCount(locations, OffSiteKind);
    if on + off > 0 {
      var open := OpenDays(openBusinessDays);
      var plan := Plan(NextOpen(start, open), on, off, maxPerDay, overrides, open);
      var r := RunPlan(plan, locations, roster);
      RunPlanDates(plan, locations, roster);
      RunPlanBound(plan, locations, roster);
      forall i | 0 <= i < |r.days|
        ensures |UnitsOf(Fragments(r.days[i]))| <= Pos(CapFor(r.days[i].date, overrides, maxPerDay))
      {
        PlanCapped(NextOpen(start, open), on, off, maxPerDay, overrides, open, i);
      }
    }
  }

  /** The run loses no unit and invents none: the schedules and the locations it leaves hold the
      units of the locations, each as often as before; so no unit is scheduled twice. */
  lemma CapacityRunUnits(maxPerDay: int, overrides: map<int, int>, start: int, locations: seq<LocationValue>,
                         roster: seq<string>, openBusinessDays: seq<int>)
    requires HasWeekday(OpenDays(openBusinessDays)) && AllFit(locations)
    requires TotalCount(locations, OnSiteKind) + TotalCount(locations, OffSiteKind) == 0
      || (maxPerDay > 0 && roster != [])
    ensures var r := CapacityRun(maxPerDay, overrides, start, locations, roster, openBusinessDays);
      AllFit(r.locations)
      && DaysUnits(r.days) + multiset(LocationsUnits(r.locations)) == multiset(LocationsUnits(locations))
  {
    var on := TotalCount(locations, OnSiteKind);
    var off := TotalCount(locations, OffSiteKind);
    if on + off > 0 {
      var open := OpenDays(openBusinessDays);
      RunPlanUnits(Plan(NextOpen(start, open), on, off, maxPerDay, overrides, open), locations, roster);
    }
  }

  /** The counters are lowered by the targets, not by what the passes drew. One location with n >= 2
      on-site units (and no off-site unit) under a cap of at least n gets one day with target n, but
      the on-site draw takes at most half a location's units, so the loop stops with n - ceil(n / 2)
      units never scheduled. */
  lemma CountersLeaveUnits(v: LocationValue, maxPerDay: int, start: int, roster: seq<string>, openBusinessDays: seq<int>)
    requires HasWeekday(OpenDays(openBusinessDays)) && roster != []
    requires v.subNames == [] && v.subLists == map[] && Distinct(v.onSite)
    requires 2 <= |v.onSite| <= maxPerDay
    ensures var r := CapacityRun(maxPerDay, map[], start, [v], roster, openBusinessDays);
      |r.days| == 1 && r.locations == [v.(onSite := v.onSite[CeilHalf(|v.onSite|)..])]
      && |LocationsUnits(r.locations)| == |v.onSite| - CeilHalf(|v.onSite|) > 0
  {
    var n := |v.onSite|;
    var open := OpenDays(openBusinessDays);
    SingleLocationTotals(v);
    var date := NextOpen(start, open);
    var t := SingleDayPlan(date, n, maxPerDay, open);
    var d := SingleLocationDraws(v, n);
    RunSingleDay(PlanDay(date, maxPerDay, t), [v], roster);
    LocationsUnitsSingle(v.(onSite := v.onSite[CeilHalf(n)..]));
  }

  lemma SingleLocationTotals(v: LocationValue)
    requires v.subNames == []
    ensures TotalCount([v], OnSiteKind) == |v.onSite| && TotalCount([v], OffSiteKind) == 0
  {
    assert [v][..0] == [];
  }

  lemma LocationsUnitsSingle(v: LocationValue)
    requires v.subNames == []
    ensures LocationsUnits([v]) == v.onSite
  {
    assert [v][..0] == [];
  }

  /** A plan of one day runs the day's draws and leaves what they leave. */
  lemma RunSingleDay(day: PlanDay, locations: seq<LocationValue>, roster: seq<string>)
    requires roster != []
    ensures var d := DayDraws(locations, day.targets);
      RunPlan([day], locations, roster) == Run([DayOf(day.date, roster, d.fragments)], d.locations)
  {
    assert [day][1..] == [];
    RunPlanStep([day], locations, roster);
  }

  /** With no off-site unit, no override and a cap of at least the on-site count, the plan is one
      day whose on-site target is that count. */
  lemma SingleDayPlan(date: int, n: int, maxPerDay: int, open: seq<int>) returns (t: Targets)
    requires HasWeekday(open) && 0 < n <= maxPerDay
    ensures t == Targets(n, 0) && Plan(date, n, 0, maxPerDay, map[], open) == [PlanDay(date, maxPerDay, t)]
  {
    var next;
    t, next := PlanStep(date, n, 0, maxPerDay, map[], open);
    TargetsBounds(n, 0, maxPerDay);
    assert Plan(next, n - t.onSite, 0 - t.offSite, maxPerDay, map[], open) == [];
  }

  /** The draws of a day with on-site target n from a single location of n >= 2 distinct on-site
      units and nothing off site: the first ceil(n / 2) units, once. */
  lemma SingleLocationDraws(v: LocationValue, n: int) returns (d: Pass)
    requires v.subNames == [] && v.subLists == map[] && Distinct(v.onSite) && 2 <= |v.onSite| == n
    ensures d == DayDraws([v], Targets(n, 0))
    ensures d.locations == [v.(onSite := v.onSite[CeilHalf(n)..])]
  {
    d := DayDraws([v], Targets(n, 0));
    var on := SingleLocationOnSite(v, n);
    assert ByPriority(on.locations, OffSiteKind, 0) == Pass(0, [], on.locations);
  }

  /** The on-site pass of that day: one draw of the first ceil(n / 2) units. */
  lemma SingleLocationOnSite(v: LocationValue, n: int) returns (on: Pass)
    requires v.subNames == [] && v.subLists == map[] && Distinct(v.onSite) && 2 <= |v.onSite| == n
    ensures on == ByPriority([v], OnSiteKind, n) && on.locations == [v.(onSite := v.onSite[CeilHalf(n)..])]
  {
    var keys := Counts([v], OnSiteKind);
    DescendingOrderSpec(keys);
    var order := DescendingOrder(keys);
    assert order == [0] by {
      assert 0 in order;
    }
    var w := OnSiteForDay(v, n);
    OnSiteForDaySpec(v, n);
    OnSiteForDayDrains(v, n);
    assert w.count == CeilHalf(n) < n;
    VisitSingle(v, OnSiteKind, n);
    on := Visit([v], order, OnSiteKind, n);
  }

  /** The loop as evidently intended: the counters follow what the passes drew, which is to say
      they are the totals of what the locations still hold, recounted each day. */
  function CorrectedRun(date: int, maxPerDay: int, overrides: map<int, int>, locations: seq<LocationValue>,
                        roster: seq<string>, openBusinessDays: seq<int>): (r: Run)
    requires HasWeekday(openBusinessDays) && maxPerDay > 0 && roster != [] && AllFit(locations)
    decreases |OverridesFrom(overrides, date)|, |LocationsUnits(locations)|
  {
    var on := TotalCount(locations, OnSiteKind);
    var off := TotalCount(locations, OffSiteKind);
    if on + off == 0 then Run([], locations)
    else
      var t := DayTargets(on, off, CapFor(date, overrides, maxPerDay));
      var d := DayDraws(locations, t);
      var next := NextOpen(date + 1, openBusinessDays);
      CorrectedTurn(date, maxPerDay, overrides, locations, openBusinessDays);
      var rest := CorrectedRun(next, maxPerDay, overrides, d.locations, roster, openBusinessDays);
      Run([DayOf(date, roster, d.fragments)] + rest.days, rest.locations)
  }

  /** One day of the corrected loop keeps the locations fit and either passes an override date or
      draws at least one unit. */
  lemma CorrectedTurn(date: int, maxPerDay: int, overrides: map<int, int>, locations: seq<LocationValue>,
                      openBusinessDays: seq<int>)
    requires HasWeekday(openBusinessDays) && maxPerDay > 0 && AllFit(locations)
    requires TotalCount(locations, OnSiteKind) + TotalCount(locations, OffSiteKind) > 0
    ensures var t := DayTargets(TotalCount(locations, OnSiteKind), TotalCount(locations, OffSiteKind),
                                CapFor(date, overrides, maxPerDay));
      var d := DayDraws(locations, t);
      var next := NextOpen(date + 1, openBusinessDays);
      AllFit(d.locations)
      && (|OverridesFrom(overrides, next)| < |OverridesFrom(overrides, date)|
          || (|OverridesFrom(overrides, next)| == |OverridesFrom(overrides, date)|
              && |LocationsUnits(d.locations)| < |LocationsUnits(locations)|))
  {
    var on := TotalCount(locations, OnSiteKind);
    var off := TotalCount(locations, OffSiteKind);
    var cap := CapFor(date, overrides, maxPerDay);
    var t := DayTargets(on, off, cap);
    var d := DayDraws(locations, t);
    var next := NextOpen(date + 1, openBusinessDays);
    OverridesShrink(overrides, date, next);
    DayDrawsUnits(locations, t);
    DayDrawsCount(locations, t);
    assert |LocationsUnits(d.locations)| + d.count == |LocationsUnits(locations)| by {
      assert |multiset(UnitsOf(d.fragments)) + multiset(LocationsUnits(d.locations))| == |multiset(LocationsUnits(locations))|;
    }
    if date !in overrides {
      TargetsProgress(on, off, cap);
      DayDrawsProgress(locations, t);
    }
  }

  /** The corrected loop schedules every unit exactly once and leaves the locations empty. */
  lemma {:induction false} CorrectedRunDrains(date: int, maxPerDay: int, overrides: map<int, int>,
                                              locations: seq<LocationValue>, roster: seq<string>, openBusinessDays: seq<int>)
    requires HasWeekday(openBusinessDays) && maxPerDay > 0 && roster != [] && AllFit(locations)
    ensures var r := CorrectedRun(date, maxPerDay, overrides, locations, roster, openBusinessDays);
      LocationsUnits(r.locations) == [] && DaysUnits(r.days) == multiset(LocationsUnits(locations))
    decreases |OverridesFrom(overrides, date)|, |LocationsUnits(locations)|, 1
  {
    var on := TotalCount(locations, OnSiteKind);
    var off := TotalCount(locations, OffSiteKind);
    if on + off > 0 {
      CorrectedRunDrainsTurn(date, maxPerDay, overrides, locations, roster, openBusinessDays);
    } else {
      CorrectedRunEmpty(date, maxPerDay, overrides, locations, roster, openBusinessDays, on, off);
    }
  }

  /** With nothing left to schedule, the corrected loop schedules no day. */
  lemma CorrectedRunEmpty(date: int, maxPerDay: int, overrides: map<int, int>, locations: seq<LocationValue>,
                          roster: seq<string>, openBusinessDays: seq<int>, on: nat, off: nat)
    requires HasWeekday(openBusinessDays) && maxPerDay > 0 && roster != [] && AllFit(locations)
    requires on == TotalCount(locations, OnSiteKind) && off == TotalCount(locations, OffSiteKind) && on + off == 0
    ensures var r := CorrectedRun(date, maxPerDay, overrides, locations, roster, openBusinessDays);
      LocationsUnits(r.locations) == [] && DaysUnits(r.days) == multiset(LocationsUnits(locations))
  {
    assert CorrectedRun(date, maxPerDay, overrides, locations, roster, openBusinessDays) == Run([], locations);
    TotalCountUnits(locations);
    assert DaysUnits([]) == multiset{};
  }

  lemma {:induction false} CorrectedRunDrainsTurn(date: int, maxPerDay: int, overrides: map<int, int>,
                                                  locations: seq<LocationValue>, roster: seq<string>, openBusinessDays: seq<int>)
    requires HasWeekday(openBusinessDays) && maxPerDay > 0 && roster != [] && AllFit(locations)
    requires TotalCount(locations, OnSiteKind) + TotalCount(locations, OffSiteKind) > 0
    ensures var r := CorrectedRun(date, maxPerDay, overrides, locations, roster, openBusinessDays);
      LocationsUnits(r.locations) == [] && DaysUnits(r.days) == multiset(LocationsUnits(locations))
    decreases |OverridesFrom(overrides, date)|, |LocationsUnits(locations)|, 0
  {
    var t := DayTargets(TotalCount(locations, OnSiteKind), TotalCount(locations, OffSiteKind),
                        CapFor(date, overrides, maxPerDay));
    var d := DayDraws(locations, t);
    var next := NextOpen(date + 1, openBusinessDays);
    CorrectedTurn(date, maxPerDay, overrides, locations, openBusinessDays);
    DayDrawsUnits(locations, t);
    CorrectedRunDrains(next, maxPerDay, overrides, d.locations, roster, openBusinessDays);
    var rest := CorrectedRun(next, maxPerDay, overrides, d.locations, roster, openBusinessDays);
    CorrectedRunUnfolds(date, maxPerDay, overrides, locations, roster, openBusinessDays, t, d, next, rest);
    CorrectedDayUnits(DayOf(date, roster, d.fragments), date, roster, d.fragments, rest.days,
                      multiset(LocationsUnits(d.locations)), multiset(LocationsUnits(locations)));
  }

  /** One day of the corrected loop, unfolded: the day's schedule, then the run from the next open day. */
  lemma CorrectedRunUnfolds(date: int, maxPerDay: int, overrides: map<int, int>, locations: seq<LocationValue>,
                            roster: seq<string>, openBusinessDays: seq<int>, t: Targets, d: Pass, next: int, rest: Run)
    requires HasWeekday(openBusinessDays) && maxPerDay > 0 && roster != [] && AllFit(locations)
    requires TotalCount(locations, OnSiteKind) + TotalCount(locations, OffSiteKind) > 0
    requires t == DayTargets(TotalCount(locations, OnSiteKind), TotalCount(locations, OffSiteKind),
                             CapFor(date, overrides, maxPerDay))
    requires d == DayDraws(locations, t) && next == NextOpen(date + 1, openBusinessDays) && AllFit(d.locations)
    requires rest == CorrectedRun(next, maxPerDay, overrides, d.locations, roster, openBusinessDays)
    ensures CorrectedRun(date, maxPerDay, overrides, locations, roster, openBusinessDays)
      == Run([DayOf(date, roster, d.fragments)] + rest.days, rest.locations)
  {
  }

  /** The units of a day put in front of later days that hold what the day's draw left. */
  lemma CorrectedDayUnits(day: DayValue, date: int, roster: seq<string>, fragments: seq<LocationValue>,
                          later: seq<DayValue>, left: multiset<string>, all: multiset<string>)
    requires roster != [] && day == DayOf(date, roster, fragments)
    requires DaysUnits(later) == left && multiset(UnitsOf(fragments)) + left == all
    ensures DaysUnits([day] + later) == all
  {
    DayOfFragments(date, roster, fragments);
    assert ([day] + later)[1..] == later;
  }
}
