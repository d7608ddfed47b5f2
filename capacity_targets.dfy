/**
 * Capacity mode, the counters: extractScheduleMaxNumberOfEquipementsPerDay keeps two counters of
 * units still to schedule, on site and off site. Each day it splits min(cap, remaining) between the
 * two kinds and lowers each counter by its target, whatever the passes then actually draw. The
 * counters never read the locations, so the dates and targets of every day are fixed in advance:
 * they are the plan below.
 */
module CapacityTargets {
  import opened SchedulingMath
  import opened Calendar

  datatype Targets = Targets(onSite: int, offSite: int)

  /** The targets of a day with the given counters and cap. */
  function DayTargets(remainingOnSite: int, remainingOffSite: int, cap: int): Targets {
    var maxToSchedule := Min(cap, remainingOnSite + remainingOffSite);
    if remainingOnSite > 0 && remainingOffSite > 0 then
      var onSite := CeilHalf(maxToSchedule);
      var offSite := maxToSchedule - onSite;
      if onSite > remainingOnSite then
        Targets(remainingOnSite, Min(remainingOffSite, maxToSchedule - remainingOnSite))
      else if offSite > remainingOffSite then
        Targets(Min(remainingOnSite, maxToSchedule - remainingOffSite), remainingOffSite)
      else
        Targets(onSite, offSite)
    else if remainingOnSite > 0 then
      Targets(Min(maxToSchedule, remainingOnSite), 0)
    else
      Targets(0, Min(maxToSchedule, remainingOffSite))
  }

  /** The targets never exceed the counters and add up to min(cap, remaining); with a cap of at
      least zero none is negative, with a cap of at most zero none is positive, so their positive
      parts never exceed the positive part of the cap. */
  lemma TargetsBounds(remainingOnSite: int, remainingOffSite: int, cap: int)
    requires remainingOnSite >= 0 && remainingOffSite >= 0 && remainingOnSite + remainingOffSite > 0
    ensures var t := DayTargets(remainingOnSite, remainingOffSite, cap);
      t.onSite <= remainingOnSite && t.offSite <= remainingOffSite
      && t.onSite + t.offSite == Min(cap, remainingOnSite + remainingOffSite)
      && (cap >= 0 ==> t.onSite >= 0 && t.offSite >= 0)
      && (cap <= 0 ==> t.onSite <= 0 && t.offSite <= 0)
      && Pos(t.onSite) + Pos(t.offSite) <= Pos(cap)
  {
  }

  /** When both kinds remain, each gets at least its half of the day (what is left of it, if
      less), the on-site kind the rounded-up half; when one kind is done, it gets nothing. */
  lemma TargetsShare(remainingOnSite: int, remainingOffSite: int, cap: int)
    requires remainingOnSite >= 0 && remainingOffSite >= 0 && cap >= 0
    ensures var t := DayTargets(remainingOnSite, remainingOffSite, cap);
      var m := Min(cap, remainingOnSite + remainingOffSite);
      (remainingOnSite > 0 && remainingOffSite > 0 ==>
         t.onSite >= Min(CeilHalf(m), remainingOnSite) && t.offSite >= Min(m - CeilHalf(m), remainingOffSite))
      && (remainingOnSite == 0 ==> t.onSite == 0)
      && (remainingOffSite == 0 ==> t.offSite == 0)
  {
  }

  /** With a positive cap some target is positive, on a kind that has units left. */
  lemma TargetsProgress(remainingOnSite: int, remainingOffSite: int, cap: int)
    requires remainingOnSite >= 0 && remainingOffSite >= 0 && remainingOnSite + remainingOffSite > 0 && cap > 0
    ensures var t := DayTargets(remainingOnSite, remainingOffSite, cap);
      (t.onSite > 0 && remainingOnSite > 0) || (t.offSite > 0 && remainingOffSite > 0)
  {
  }

  /** The cap of a day: the override for that exact date if there is one, else the default. */
  function CapFor(date: int, overrides: map<int, int>, maxPerDay: int): int {
    if date in overrides then overrides[date] else maxPerDay
  }

  /** The override dates not passed yet. */
  function OverridesFrom(overrides: map<int, int>, date: int): set<int> {
    set k | k in overrides && k >= date
  }

  /** Moving to a later date passes at least the override of the current date, if any. */
  lemma OverridesShrink(overrides: map<int, int>, date: int, next: int)
    requires next > date
    ensures |OverridesFrom(overrides, next)| <= |OverridesFrom(overrides, date)|
    ensures date in overrides ==> |OverridesFrom(overrides, next)| < |OverridesFrom(overrides, date)|
  {
    var before := OverridesFrom(overrides, date);
    var after := OverridesFrom(overrides, next);
    if date in overrides {
      SubsetCardinality(after, before - {date});
    } else {
      SubsetCardinality(after, before);
    }
  }

  lemma {:induction false} SubsetCardinality(a: set<int>, b: set<int>)
    requires a <= b
    ensures |a| <= |b|
    decreases |b|
  {
    if b != {} {
      assert (forall y :: y !in b) ==> b == {};
      var x :| x in b;
      SubsetCardinality(a - {x}, b - {x});
    }
  }

  /** One day of the loop: its date, its cap and its targets. */
  datatype PlanDay = PlanDay(date: int, cap: int, targets: Targets)

  /** The days of the capacity loop from an open date with the given counters. The loop only ends
      when the default cap is positive, and the plan assumes that. */
  function Plan(date: int, remainingOnSite: int, remainingOffSite: int, maxPerDay: int,
                overrides: map<int, int>, openBusinessDays: seq<int>): seq<PlanDay>
    requires HasWeekday(openBusinessDays) && maxPerDay > 0
    requires remainingOnSite >= 0 && remainingOffSite >= 0
    decreases |OverridesFrom(overrides, date)|, remainingOnSite + remainingOffSite, 1
  {
    if remainingOnSite <= 0 && remainingOffSite <= 0 then []
    else PlanTurn(date, remainingOnSite, remainingOffSite, maxPerDay, overrides, openBusinessDays)
  }

  /** One turn of the loop while something remains: the day with its cap and targets, then the
      plan from the next open day with the counters lowered by the targets. */
  function PlanTurn(date: int, remainingOnSite: int, remainingOffSite: int, maxPerDay: int,
                    overrides: map<int, int>, openBusinessDays: seq<int>): seq<PlanDay>
    requires HasWeekday(openBusinessDays) && maxPerDay > 0
    requires remainingOnSite >= 0 && remainingOffSite >= 0 && remainingOnSite + remainingOffSite > 0
    decreases |OverridesFrom(overrides, date)|, remainingOnSite + remainingOffSite, 0
  {
    var cap := CapFor(date, overrides, maxPerDay);
    var t := DayTargets(remainingOnSite, remainingOffSite, cap);
    var next := NextOpen(date + 1, openBusinessDays);
    TargetsBounds(remainingOnSite, remainingOffSite, cap);
    OverridesShrink(overrides, date, next);
    [PlanDay(date, cap, t)]
      + Plan(next, remainingOnSite - t.onSite, remainingOffSite - t.offSite, maxPerDay, overrides, openBusinessDays)
  }

  /** One turn of the loop: the day's cap and targets, then the plan from the next open day. */
  lemma PlanStep(date: int, remainingOnSite: int, remainingOffSite: int, maxPerDay: int,
                 overrides: map<int, int>, openBusinessDays: seq<int>) returns (t: Targets, next: int)
    requires HasWeekday(openBusinessDays) && maxPerDay > 0
    requires remainingOnSite >= 0 && remainingOffSite >= 0 && remainingOnSite + remainingOffSite > 0
    ensures t == DayTargets(remainingOnSite, remainingOffSite, CapFor(date, overrides, maxPerDay))
    ensures next == NextOpen(date + 1, openBusinessDays)
    ensures remainingOnSite - t.onSite >= 0 && remainingOffSite - t.offSite >= 0
    ensures t.onSite + t.offSite == Min(CapFor(date, overrides, maxPerDay), remainingOnSite + remainingOffSite)
    ensures Plan(date, remainingOnSite, remainingOffSite, maxPerDay, overrides, openBusinessDays)
      == [PlanDay(date, CapFor(date, overrides, maxPerDay), t)]
         + Plan(next, remainingOnSite - t.onSite, remainingOffSite - t.offSite, maxPerDay, overrides, openBusinessDays)
    ensures |OverridesFrom(overrides, next)| < |OverridesFrom(overrides, date)|
      || (|OverridesFrom(overrides, next)| == |OverridesFrom(overrides, date)|
          && (remainingOnSite - t.onSite) + (remainingOffSite - t.offSite) < remainingOnSite + remainingOffSite)
  {
    var cap := CapFor(date, overrides, maxPerDay);
    t := DayTargets(remainingOnSite, remainingOffSite, cap);
    next := NextOpen(date + 1, openBusinessDays);
    TargetsBounds(remainingOnSite, remainingOffSite, cap);
    OverridesShrink(overrides, date, next);
  }

  /** Every day of the plan has the cap of its date, and its targets add up, in their positive
      parts, to no more than the positive part of that cap. */
  lemma {:induction false} PlanCapped(date: int, remainingOnSite: int, remainingOffSite: int, maxPerDay: int,
                                      overrides: map<int, int>, openBusinessDays: seq<int>, i: nat)
    requires HasWeekday(openBusinessDays) && maxPerDay > 0
    requires remainingOnSite >= 0 && remainingOffSite >= 0
    requires i < |Plan(date, remainingOnSite, remainingOffSite, maxPerDay, overrides, openBusinessDays)|
    ensures var p := Plan(date, remainingOnSite, remainingOffSite, maxPerDay, overrides, openBusinessDays)[i];
      p.cap == CapFor(p.date, overrides, maxPerDay) && Pos(p.targets.onSite) + Pos(p.targets.offSite) <= Pos(p.cap)
    decreases |OverridesFrom(overrides, date)|, remainingOnSite + remainingOffSite, 1
  {
    var t, next := PlanStep(date, remainingOnSite, remainingOffSite, maxPerDay, overrides, openBusinessDays);
    if i == 0 {
      TargetsBounds(remainingOnSite, remainingOffSite, CapFor(date, overrides, maxPerDay));
    } else {
      PlanCappedLater(date, remainingOnSite, remainingOffSite, maxPerDay, overrides, openBusinessDays, i, t, next);
    }
  }

  lemma {:induction false} PlanCappedLater(date: int, remainingOnSite: int, remainingOffSite: int, maxPerDay: int,
                                           overrides: map<int, int>, openBusinessDays: seq<int>, i: nat,
                                           t: Targets, next: int)
    requires HasWeekday(openBusinessDays) && maxPerDay > 0
    requires remainingOnSite >= 0 && remainingOffSite >= 0 && remainingOnSite + remainingOffSite > 0
    requires remainingOnSite - t.onSite >= 0 && remainingOffSite - t.offSite >= 0
    requires Plan(date, remainingOnSite, remainingOffSite, maxPerDay, overrides, openBusinessDays)
      == [PlanDay(date, CapFor(date, overrides, maxPerDay), t)]
         + Plan(next, remainingOnSite - t.onSite, remainingOffSite - t.offSite, maxPerDay, overrides, openBusinessDays)
    requires |OverridesFrom(overrides, next)| < |OverridesFrom(overrides, date)|
      || (|OverridesFrom(overrides, next)| == |OverridesFrom(overrides, date)|
          && (remainingOnSite - t.onSite) + (remainingOffSite - t.offSite) < remainingOnSite + remainingOffSite)
    requires 0 < i < |Plan(date, remainingOnSite, remainingOffSite, maxPerDay, overrides, openBusinessDays)|
    ensures var p := Plan(date, remainingOnSite, remainingOffSite, maxPerDay, overrides, openBusinessDays)[i];
      p.cap == CapFor(p.date, overrides, maxPerDay) && Pos(p.targets.onSite) + Pos(p.targets.offSite) <= Pos(p.cap)
    decreases |OverridesFrom(overrides, date)|, remainingOnSite + remainingOffSite, 0
  {
    var rest := Plan(next, remainingOnSite - t.onSite, remainingOffSite - t.offSite, maxPerDay, overrides, openBusinessDays);
    PlanCapped(next, remainingOnSite - t.onSite, remainingOffSite - t.offSite, maxPerDay, overrides, openBusinessDays, i - 1);
    assert Plan(date, remainingOnSite, remainingOffSite, maxPerDay, overrides, openBusinessDays)[i] == rest[i - 1];
  }

  /** The dates of the days of a plan. */
  function Dates(plan: seq<PlanDay>): (r: seq<int>)
    ensures |r| == |plan|
  {
    if plan == [] then [] else [plan[0].date] + Dates(plan[1..])
  }

  /** The i-th date is the date of the i-th day. */
  lemma {:induction false} DatesIndex(plan: seq<PlanDay>)
    ensures forall i :: 0 <= i < |plan| ==> Dates(plan)[i] == plan[i].date
  {
    if plan != [] {
      DatesIndex(plan[1..]);
      forall i | 1 <= i < |plan| ensures Dates(plan)[i] == plan[i].date {
        assert Dates(plan)[i] == Dates(plan[1..])[i - 1];
      }
    }
  }

  lemma DatesCons(day: PlanDay, rest: seq<PlanDay>)
    ensures Dates([day] + rest) == [day.date] + Dates(rest)
  {
    assert ([day] + rest)[1..] == rest;
  }

  /** A day put in front of days whose dates are later: the dates are the day's date, then later. */
  lemma DatesStep(day: PlanDay, rest: seq<PlanDay>, all: seq<int>, later: seq<int>)
    requires all == [day.date] + later && Dates(rest) == later
    ensures Dates([day] + rest) == all
  {
    DatesCons(day, rest);
  }

  /** The loop's days are the successive business days from the start date: the first open day on
      or after it, then each next open day. */
  lemma {:induction false} PlanDates(start: int, date: int, remainingOnSite: int, remainingOffSite: int, maxPerDay: int,
                                     overrides: map<int, int>, openBusinessDays: seq<int>)
    requires HasWeekday(openBusinessDays) && maxPerDay > 0 && date == NextOpen(start, openBusinessDays)
    requires remainingOnSite >= 0 && remainingOffSite >= 0
    ensures var plan := Plan(date, remainingOnSite, remainingOffSite, maxPerDay, overrides, openBusinessDays);
      Dates(plan) == BusinessDays(start, |plan|, openBusinessDays)
    decreases |OverridesFrom(overrides, date)|, remainingOnSite + remainingOffSite, 1
  {
    if remainingOnSite > 0 || remainingOffSite > 0 {
      PlanDatesAfter(start, date, remainingOnSite, remainingOffSite, maxPerDay, overrides, openBusinessDays);
    }
  }

  lemma {:induction false} PlanDatesAfter(start: int, date: int, remainingOnSite: int, remainingOffSite: int, maxPerDay: int,
                                          overrides: map<int, int>, openBusinessDays: seq<int>)
    requires HasWeekday(openBusinessDays) && maxPerDay > 0 && date == NextOpen(start, openBusinessDays)
    requires remainingOnSite >= 0 && remainingOffSite >= 0 && remainingOnSite + remainingOffSite > 0
    ensures var plan := Plan(date, remainingOnSite, remainingOffSite, maxPerDay, overrides, openBusinessDays);
      Dates(plan) == BusinessDays(start, |plan|, openBusinessDays)
    decreases |OverridesFrom(overrides, date)|, remainingOnSite + remainingOffSite, 0
  {
    var t, next := PlanStep(date, remainingOnSite, remainingOffSite, maxPerDay, overrides, openBusinessDays);
    var onSite', offSite' := remainingOnSite - t.onSite, remainingOffSite - t.offSite;
    PlanDates(date + 1, next, onSite', offSite', maxPerDay, overrides, openBusinessDays);
    var day := PlanDay(date, CapFor(date, overrides, maxPerDay), t);
    var rest := Plan(next, onSite', offSite', maxPerDay, overrides, openBusinessDays);
    var later := BusinessDays(date + 1, |rest|, openBusinessDays);
    var all := BusinessDays(start, |rest| + 1, openBusinessDays);
    BusinessDaysUnfold(start, |rest| + 1, date, |rest|, openBusinessDays);
    DatesStep(day, rest, all, later);
    assert |[day] + rest| == |rest| + 1;
  }

  /** With no override and a constant cap c > 0, the loop runs ceil(total / c) days. */
  lemma {:induction false} PlanLength(date: int, remainingOnSite: int, remainingOffSite: int, maxPerDay: int,
                                      openBusinessDays: seq<int>)
    requires HasWeekday(openBusinessDays) && maxPerDay > 0
    requires remainingOnSite >= 0 && remainingOffSite >= 0
    ensures |Plan(date, remainingOnSite, remainingOffSite, maxPerDay, map[], openBusinessDays)|
      == CeilDiv(remainingOnSite + remainingOffSite, maxPerDay)
    decreases remainingOnSite + remainingOffSite, 1
  {
    if remainingOnSite + remainingOffSite > 0 {
      PlanLengthAfter(date, remainingOnSite, remainingOffSite, maxPerDay, openBusinessDays);
    } else {
      CeilDivZero(maxPerDay);
    }
  }

  lemma {:induction false} PlanLengthAfter(date: int, remainingOnSite: int, remainingOffSite: int, maxPerDay: int,
                                           openBusinessDays: seq<int>)
    requires HasWeekday(openBusinessDays) && maxPerDay > 0
    requires remainingOnSite >= 0 && remainingOffSite >= 0 && remainingOnSite + remainingOffSite > 0
    ensures |Plan(date, remainingOnSite, remainingOffSite, maxPerDay, map[], openBusinessDays)|
      == CeilDiv(remainingOnSite + remainingOffSite, maxPerDay)
    decreases remainingOnSite + remainingOffSite, 0
  {
    var t, next := PlanStep(date, remainingOnSite, remainingOffSite, maxPerDay, map[], openBusinessDays);
    PlanLength(next, remainingOnSite - t.onSite, remainingOffSite - t.offSite, maxPerDay, openBusinessDays);
    CeilDivTake(remainingOnSite + remainingOffSite, t.onSite + t.offSite, maxPerDay);
  }

  /** The counters after k days with the same cap, however the loop guard stands. */
  function CountersAfter(remainingOnSite: int, remainingOffSite: int, cap: int, k: nat): (int, int)
    decreases k
  {
    if k == 0 then (remainingOnSite, remainingOffSite)
    else
      var t := DayTargets(remainingOnSite, remainingOffSite, cap);
      CountersAfter(remainingOnSite - t.onSite, remainingOffSite - t.offSite, cap, k - 1)
  }

  /** With a cap of zero or less, no number of days brings the counters down: the loop never
      ends once there is something to schedule. */
  lemma {:induction false} CapAtMostZeroStalls(remainingOnSite: int, remainingOffSite: int, cap: int, k: nat)
    requires remainingOnSite >= 0 && remainingOffSite >= 0 && remainingOnSite + remainingOffSite > 0 && cap <= 0
    ensures var c := CountersAfter(remainingOnSite, remainingOffSite, cap, k);
      c.0 >= 0 && c.1 >= 0 && c.0 + c.1 >= remainingOnSite + remainingOffSite
    decreases k
  {
    if k > 0 {
      var t := DayTargets(remainingOnSite, remainingOffSite, cap);
      TargetsBounds(remainingOnSite, remainingOffSite, cap);
      CapAtMostZeroStalls(remainingOnSite - t.onSite, remainingOffSite - t.offSite, cap, k - 1);
    }
  }
}
