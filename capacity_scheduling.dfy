/**
 * The capacity-mode draws of SchedulingHelper as they run, on LocationData and DailyScheduleData
 * objects whose lists they edit in place. Each method is proved to leave exactly the state that the
 * value-level definitions of CapacityDraws describe, so what is proved there holds of the objects.
 * Fragments are staged as values: the source builds them as fresh LocationData objects and never
 * changes them once they are in a technician's list.
 */
module CapacityScheduling {
  import opened ObjectLists
  import opened KeyedLists
  import opened Locations
  import opened DailySchedules
  import opened SchedulingMath
  import opened StableOrder
  import opened FixedPlans
  import opened CapacityDraws
  import opened CapacityRuns

  /** The copy scheduleOnSiteEquipmentForDay builds: a new location holding the first k units. */
  method CopyFirstOnSite(name: string, units: seq<string>, k: nat) returns (copy: LocationData)
    requires k <= |units|
    ensures fresh(copy) && copy.Valid() && copy.Value() == OnSiteCopy(name, units[..k])
  {
    copy := new LocationData(name);
    var i := 0;
    while i < k
      invariant 0 <= i <= k
      invariant copy.Valid() && copy.Value() == OnSiteCopy(name, units[..i])
    {
      assert units[..i + 1] == units[..i] + [units[i]];
      copy.AddOnSite(units[i]);
      i := i + 1;
    }
  }

  /** scheduleOnSiteEquipmentForDay: the first min(maxEquipment, ceil(n / 2)) on-site units are
      copied into a new location, removed from this one with removeAll, and the copy is staged in
      the first technician's list. */
  method ScheduleOnSiteEquipmentForDay(location: LocationData, dailySchedule: DailyScheduleData, maxEquipment: int)
    returns (toSchedule: int)
    requires location.Valid() && dailySchedule.Valid() && dailySchedule.technicians != []
    modifies location, dailySchedule
    ensures location.Valid() && dailySchedule.Valid()
    ensures var d := OnSiteForDay(old(location.Value()), maxEquipment);
      toSchedule == d.count && location.Value() == d.rest
      && dailySchedule.Value() == Stage(old(dailySchedule.Value()), d.fragments)
  {
    var onSiteCount := location.OnsiteEquipmentsCount();
    if onSiteCount == 0 {
      return 0;
    }
    var equipmentToSchedule := location.onSiteEquipments;
    var maxLocationLimit := CeilHalf(|equipmentToSchedule|);
    toSchedule := Min(maxEquipment, Min(maxLocationLimit, |equipmentToSchedule|));
    if toSchedule > 0 {
      var onSiteLocation := CopyFirstOnSite(location.locationName, equipmentToSchedule, toSchedule);
      location.RemoveAllOnSite(onSiteLocation.onSiteEquipments);
      dailySchedule.AddToFirstList(onSiteLocation.Value());
      StageSnoc(old(dailySchedule.Value()), [], onSiteLocation.Value());
    }
  }

  /** The off-site draw of one sublocation list: its first k units, one at a time with remove(0),
      into a new location whose only sublocation is s. */
  method MoveFirstUnits(location: LocationData, s: string, k: nat) returns (dayLocation: LocationData)
    requires location.Valid() && s in location.sublocationEquipments && 0 < k <= |location.sublocationEquipments[s]|
    modifies location
    ensures fresh(dayLocation) && dayLocation.Valid() && location.Valid()
    ensures var units := old(location.sublocationEquipments[s]);
      dayLocation.Value() == OffSiteCopy(location.locationName, s, units[..k])
      && location.Value() == old(location.Value()).(subLists := old(location.sublocationEquipments)[s := units[k..]])
  {
    ghost var units := location.sublocationEquipments[s];
    ghost var v0 := location.Value();
    dayLocation := new LocationData(location.locationName);
    var i := 0;
    while i < k
      invariant 0 <= i <= k && location.Valid() && dayLocation.Valid()
      invariant location.Value() == v0.(subLists := v0.subLists[s := units[i..]])
      invariant i == 0 ==> dayLocation.Value() == LocationValue(location.locationName, [], [], map[])
      invariant i > 0 ==> dayLocation.Value() == OffSiteCopy(location.locationName, s, units[..i])
    {
      var equipment := location.sublocationEquipments[s][0];
      assert units[..i + 1] == units[..i] + [equipment];
      var _ := dayLocation.AddOffSiteEquipmentToSublocation(s, equipment);
      location.RemoveFirstOffSite(s);
      assert units[i..][1..] == units[i + 1..];
      assert v0.subLists[s := units[i..]][s := units[i + 1..]] == v0.subLists[s := units[i + 1..]];
      if i == 0 {
        assert [] + [s] == [s] && units[..1] == [equipment];
        assert map[][s := [equipment]] == map[s := units[..1]];
      } else {
        assert map[s := units[..i]][s := units[..i] + [equipment]] == map[s := units[..i + 1]];
      }
      i := i + 1;
    }
  }

  /** One turn of the sublocation loop with allowance left: an empty list is skipped; otherwise
      min(allowance, ceil(n / 2)) units move into a fragment that is staged, and that many count. */
  method ScheduleSublocation(location: LocationData, dailySchedule: DailyScheduleData, s: string, maxEquipment: int)
    returns (scheduled: int)
    requires location.Valid() && dailySchedule.Valid() && dailySchedule.technicians != []
    requires s in location.sublocationEquipments && maxEquipment > 0
    modifies location, dailySchedule
    ensures location.Valid() && dailySchedule.Valid() && dailySchedule.technicians == old(dailySchedule.technicians)
    ensures var units := old(location.sublocationEquipments[s]);
      var k := Min(maxEquipment, Min(CeilHalf(|units|), |units|));
      if units == [] then
        scheduled == 0 && location.Value() == old(location.Value()) && dailySchedule.Value() == old(dailySchedule.Value())
      else
        scheduled == k
        && location.Value() == old(location.Value()).(subLists := old(location.sublocationEquipments)[s := units[k..]])
        && dailySchedule.Value() == AddFirst(old(dailySchedule.Value()), OffSiteCopy(location.locationName, s, units[..k]))
  {
    var equipmentList := location.sublocationEquipments[s];
    scheduled := 0;
    if equipmentList != [] {
      var toSchedule := Min(maxEquipment, Min(CeilHalf(|equipmentList|), |equipmentList|));
      var dayLocation := MoveFirstUnits(location, s, toSchedule);
      var count := dayLocation.TotalEquipmentsCount();
      OffSiteCopyUnits(location.locationName, s, equipmentList[..toSchedule]);
      if count > 0 {
        dailySchedule.AddToFirstList(dayLocation.Value());
        scheduled := toSchedule;
      }
    }
  }

  /** What a draw loop has done so far (a count and staged fragments) and what its remaining turns
      will do together make up the whole draw. */
  ghost predicate Pending(goal: Drawn, count: int, staged: seq<LocationValue>, rest: Drawn) {
    goal.count == count + rest.count && goal.fragments == staged + rest.fragments && goal.rest == rest.rest
  }

  lemma PendingTurn(goal: Drawn, count: int, staged: seq<LocationValue>, before: Drawn,
                    f: LocationValue, k: int, after: Drawn)
    requires Pending(goal, count, staged, before)
    requires before == Drawn(k + after.count, [f] + after.fragments, after.rest)
    ensures Pending(goal, count + k, staged + [f], after)
  {
    assert staged + ([f] + after.fragments) == (staged + [f]) + after.fragments;
  }

  /** One turn of the draw loop, on values: the loop's bookkeeping still adds up to the whole draw
      once the turn has skipped an empty list or moved its share of units into a fragment. */
  lemma DrawTurn(goal: Drawn, count: int, staged: seq<LocationValue>, v: LocationValue, order: seq<nat>,
                 maxEquipment: int, k: int, w: LocationValue, next: seq<nat>, remaining: int)
    returns (staged': seq<LocationValue>)
    requires forall p :: 0 <= p < |order| ==> order[p] < |v.subNames|
    requires order != [] && maxEquipment > 0 && w.subNames == v.subNames
    requires next == order[1..] && remaining == maxEquipment - k
    requires Pending(goal, count, staged, DrawSublocations(v, order, maxEquipment))
    requires var s := v.subNames[order[0]];
      var units := Get(v.subLists, s);
      if units == [] then k == 0 && w == v
      else k == Min(maxEquipment, Min(CeilHalf(|units|), |units|)) && w == v.(subLists := v.subLists[s := units[k..]])
    ensures var s := v.subNames[order[0]];
      var units := Get(v.subLists, s);
      staged' == if units == [] then staged else staged + [OffSiteCopy(v.name, s, units[..k])]
    ensures Pending(goal, count + k, staged', DrawSublocations(w, next, remaining))
  {
    DrawSublocationsStep(v, order, maxEquipment);
    var s := v.subNames[order[0]];
    var units := Get(v.subLists, s);
    if units == [] {
      staged' := staged;
    } else {
      var f := OffSiteCopy(v.name, s, units[..k]);
      PendingTurn(goal, count, staged, DrawSublocations(v, order, maxEquipment), f, k,
                  DrawSublocations(w, order[1..], maxEquipment - k));
      staged' := staged + [f];
    }
  }

  /** The sublocation loop of scheduleOffSiteEquipmentForDay over a given order of sublocation
      positions: it ends in the state DrawSublocations describes. */
  method DrawSublocationsLoop(location: LocationData, dailySchedule: DailyScheduleData, sortedSublocations: seq<nat>,
                              maxEquipment: int)
    returns (totalScheduled: int)
    requires location.Valid() && dailySchedule.Valid() && dailySchedule.technicians != []
    requires forall q :: 0 <= q < |sortedSublocations| ==> sortedSublocations[q] < |location.sublocationNames|
    modifies location, dailySchedule
    ensures location.Valid() && dailySchedule.Valid()
    ensures var d := DrawSublocations(old(location.Value()), sortedSublocations, maxEquipment);
      totalScheduled == d.count && location.Value() == d.rest
      && dailySchedule.Value() == Stage(old(dailySchedule.Value()), d.fragments)
  {
    ghost var v0 := location.Value();
    ghost var day0 := dailySchedule.Value();
    ghost var goal := DrawSublocations(v0, sortedSublocations, maxEquipment);
    ghost var staged: seq<LocationValue> := [];
    ghost var current := v0;
    assert sortedSublocations[0..] == sortedSublocations;
    assert Pending(goal, 0, staged, DrawSublocations(current, sortedSublocations[0..], maxEquipment)) by {
      assert [] + goal.fragments == goal.fragments;
    }
    var max := maxEquipment;
    totalScheduled := 0;
    var p := 0;
    while p < |sortedSublocations| && max > 0
      invariant 0 <= p <= |sortedSublocations|
      invariant location.Valid() && dailySchedule.Valid() && dailySchedule.technicians == day0.technicians
      invariant location.Value() == current && current.name == v0.name && current.subNames == v0.subNames
      invariant dailySchedule.Value() == Stage(day0, staged)
      invariant Pending(goal, totalScheduled, staged, DrawSublocations(current, sortedSublocations[p..], max))
    {
      var s := location.sublocationNames[sortedSublocations[p]];
      var scheduled := ScheduleSublocation(location, dailySchedule, s, max);
      ghost var count, order, allowance, v := totalScheduled, sortedSublocations[p..], max, current;
      totalScheduled := totalScheduled + scheduled;
      max := max - scheduled;
      p := p + 1;
      current := location.Value();
      assert order[1..] == sortedSublocations[p..];
      ghost var staged' := DrawTurn(goal, count, staged, v, order, allowance, scheduled, current, sortedSublocations[p..], max);
      if staged' != staged {
        StageSnoc(day0, staged, staged'[|staged|]);
        assert staged' == staged + [staged'[|staged|]];
      }
      staged := staged';
    }
    assert staged + [] == staged;
  }

  /** scheduleOffSiteEquipmentForDay: nothing without off-site units; otherwise the sublocations
      sorted by descending list size (a stable sort, so ties keep the key order), stopping once the
      allowance is used up, skipping empty lists, and moving min(allowance, ceil(n / 2)) units of
      each other list into a fragment of their own. */
  method ScheduleOffSiteEquipmentForDay(location: LocationData, dailySchedule: DailyScheduleData, maxEquipment: int)
    returns (totalScheduled: int)
    requires location.Valid() && dailySchedule.Valid() && dailySchedule.technicians != []
    modifies location, dailySchedule
    ensures location.Valid() && dailySchedule.Valid()
    ensures var d := OffSiteForDay(old(location.Value()), maxEquipment);
      totalScheduled == d.count && location.Value() == d.rest
      && dailySchedule.Value() == Stage(old(dailySchedule.Value()), d.fragments)
  {
    var offSite := location.TotalOffSiteEquipmentsSublocationsCount();
    if offSite == 0 {
      return 0;
    }
    var sortedSublocations := DescendingOrder(SubSizes(location.Value()));
    totalScheduled := DrawSublocationsLoop(location, dailySchedule, sortedSublocations, maxEquipment);
  }

  /** getOnsiteEquipmentsCount or getTotalOffSiteEquipmentsSublocationsCount, by kind. */
  method CountOf(location: LocationData, kind: Kind) returns (count: int)
    requires location.Valid()
    ensures count == Count(location.Value(), kind)
  {
    match kind
    case OnSiteKind => count := location.OnsiteEquipmentsCount();
    case OffSiteKind => count := location.TotalOffSiteEquipmentsSublocationsCount();
  }

  /** The sort keys of a priority pass, read off the locations in list order. */
  method CountsOf(locations: seq<LocationData>, kind: Kind) returns (counts: seq<int>)
    requires AllValid(locations)
    ensures counts == Counts(Values(locations), kind)
  {
    counts := [];
    var i := 0;
    while i < |locations|
      invariant 0 <= i <= |locations|
      invariant |counts| == i && forall j :: 0 <= j < i ==> counts[j] == Count(locations[j].Value(), kind)
    {
      var c := CountOf(locations[i], kind);
      counts := counts + [c];
      i := i + 1;
    }
  }

  /** One location's draw of a kind, with the day's remaining allowance: only that location and the
      day change. */
  method DrawLocation(locations: seq<LocationData>, i: nat, dailySchedule: DailyScheduleData, kind: Kind, allowance: int)
    returns (scheduled: int, ghost d: Drawn)
    requires Unaliased(locations) && AllValid(locations) && i < |locations|
    requires dailySchedule.Valid() && dailySchedule.technicians != []
    modifies locations[i], dailySchedule
    ensures AllValid(locations) && dailySchedule.Valid() && dailySchedule.technicians == old(dailySchedule.technicians)
    ensures d == Draw(old(locations[i].Value()), kind, allowance)
    ensures scheduled == d.count && Values(locations) == old(Values(locations))[i := d.rest]
    ensures dailySchedule.Value() == Stage(old(dailySchedule.Value()), d.fragments)
  {
    ghost var before := Values(locations);
    d := Draw(locations[i].Value(), kind, allowance);
    match kind
    case OnSiteKind =>
      scheduled := ScheduleOnSiteEquipmentForDay(locations[i], dailySchedule, allowance);
    case OffSiteKind =>
      scheduled := ScheduleOffSiteEquipmentForDay(locations[i], dailySchedule, allowance);
    assert forall j :: 0 <= j < |locations| && j != i ==> locations[j] != locations[i];
    assert Values(locations) == before[i := locations[i].Value()];
  }

  /** What a priority pass has done so far and what its remaining turns will do together make up
      the whole pass. */
  ghost predicate PassPending(goal: Pass, count: int, staged: seq<LocationValue>, rest: Pass) {
    goal.count == count + rest.count && goal.fragments == staged + rest.fragments && goal.locations == rest.locations
  }

  /** What one turn of a priority pass draws from location value v with the given allowance, and
      whether the pass stops after it. */
  ghost predicate TurnDraws(v: LocationValue, kind: Kind, allowance: int, d: Drawn, stop: bool) {
    if Count(v, kind) > 0 then d == Draw(v, kind, allowance) && stop == (d.count >= allowance)
    else d == Drawn(0, [], v) && !stop
  }

  /** One turn of a priority pass, on values: a location without units of the kind is passed over,
      any other is drawn from, and the pass ends once the draw reaches the allowance. */
  lemma VisitTurn(goal: Pass, count: int, staged: seq<LocationValue>, locations: seq<LocationValue>, order: seq<nat>,
                  p: nat, kind: Kind, target: int, d: Drawn, stop: bool, after: seq<LocationValue>,
                  count': int, staged': seq<LocationValue>)
    requires forall q :: 0 <= q < |order| ==> order[q] < |locations|
    requires p < |order| && count' == count + d.count && staged' == staged + d.fragments
    requires PassPending(goal, count, staged, Visit(locations, order[p..], kind, target - count))
    requires TurnDraws(locations[order[p]], kind, target - count, d, stop) && after == locations[order[p] := d.rest]
    ensures |after| == |locations|
    ensures PassPending(goal, count', staged',
                        if stop then Pass(0, [], after) else Visit(after, order[p + 1..], kind, target - count'))
  {
    if Count(locations[order[p]], kind) == 0 {
      TurnSkips(goal, count, staged, locations, order, p, kind, target, d, after, staged');
    } else if stop {
      TurnStops(goal, count, staged, locations, order, p, kind, target, d, after, count', staged');
    } else {
      TurnGoesOn(goal, count, staged, locations, order, p, kind, target, d, after, count', staged');
    }
  }

  /** VisitTurn at a location without units of the kind. */
  lemma TurnSkips(goal: Pass, count: int, staged: seq<LocationValue>, locations: seq<LocationValue>, order: seq<nat>,
                  p: nat, kind: Kind, target: int, d: Drawn, after: seq<LocationValue>, staged': seq<LocationValue>)
    requires forall q :: 0 <= q < |order| ==> order[q] < |locations|
    requires p < |order| && Count(locations[order[p]], kind) == 0 && staged' == staged + d.fragments
    requires PassPending(goal, count, staged, Visit(locations, order[p..], kind, target - count))
    requires d == Drawn(0, [], locations[order[p]]) && after == locations[order[p] := d.rest]
    ensures PassPending(goal, count + d.count, staged', Visit(after, order[p + 1..], kind, target - (count + d.count)))
  {
    var rest := order[p..];
    assert rest[0] == order[p] && rest[1..] == order[p + 1..];
    VisitSkips(locations, rest, kind, target - count);
    assert after == locations;
    assert staged' == staged;
  }

  /** VisitTurn at a location whose draw reaches the allowance. */
  lemma TurnStops(goal: Pass, count: int, staged: seq<LocationValue>, locations: seq<LocationValue>, order: seq<nat>,
                  p: nat, kind: Kind, target: int, d: Drawn, after: seq<LocationValue>,
                  count': int, staged': seq<LocationValue>)
    requires forall q :: 0 <= q < |order| ==> order[q] < |locations|
    requires p < |order| && Count(locations[order[p]], kind) > 0
    requires count' == count + d.count && staged' == staged + d.fragments
    requires PassPending(goal, count, staged, Visit(locations, order[p..], kind, target - count))
    requires d == Draw(locations[order[p]], kind, target - count) && d.count >= target - count
    requires after == locations[order[p] := d.rest]
    ensures PassPending(goal, count', staged', Pass(0, [], after))
  {
    var rest := order[p..];
    assert rest[0] == order[p];
    VisitStops(locations, rest, kind, target - count, d);
    assert staged' + [] == staged';
  }

  /** VisitTurn at a location whose draw falls short of the allowance. */
  lemma TurnGoesOn(goal: Pass, count: int, staged: seq<LocationValue>, locations: seq<LocationValue>, order: seq<nat>,
                   p: nat, kind: Kind, target: int, d: Drawn, after: seq<LocationValue>,
                   count': int, staged': seq<LocationValue>)
    requires forall q :: 0 <= q < |order| ==> order[q] < |locations|
    requires p < |order| && Count(locations[order[p]], kind) > 0
    requires count' == count + d.count && staged' == staged + d.fragments
    requires PassPending(goal, count, staged, Visit(locations, order[p..], kind, target - count))
    requires d == Draw(locations[order[p]], kind, target - count) && d.count < target - count
    requires after == locations[order[p] := d.rest]
    ensures |after| == |locations|
    ensures PassPending(goal, count', staged', Visit(after, order[p + 1..], kind, target - count'))
  {
    var rest := order[p..];
    assert rest[0] == order[p] && rest[1..] == order[p + 1..];
    VisitGoesOn(locations, rest, kind, target - count, d, after, order[p + 1..], target - count');
    var r := Visit(after, order[p + 1..], kind, target - count');
    Append3(staged, d.fragments, r.fragments);
  }

  /** Concatenation regroups. */
  lemma Append3<T>(a: seq<T>, b: seq<T>, c: seq<T>)
    ensures a + (b + c) == (a + b) + c
  {
  }

  /** A day staged with some fragments and then with more is the day staged with them all. */
  lemma StagedFurther(day0: DayValue, staged: seq<LocationValue>, more: seq<LocationValue>, pre: DayValue, post: DayValue)
    requires ValidDay(day0) && |day0.technicians| > 0
    requires pre == Stage(day0, staged) && post == Stage(pre, more)
    ensures post == Stage(day0, staged + more)
  {
    StageConcat(day0, staged, more);
  }

  /** A turn at a location with units of the kind: it is drawn from with what is left of the target,
      and the pass is to stop once the target is reached. */
  method LocationDrawTurn(locations: seq<LocationData>, i: nat, dailySchedule: DailyScheduleData, kind: Kind,
                          scheduled: int, target: int)
    returns (scheduled': int, stop: bool, ghost d: Drawn)
    requires Unaliased(locations) && AllValid(locations) && i < |locations|
    requires dailySchedule.Valid() && dailySchedule.technicians != []
    modifies locations[i], dailySchedule
    ensures AllValid(locations) && dailySchedule.Valid() && dailySchedule.technicians == old(dailySchedule.technicians)
    ensures dailySchedule.Value() == Stage(old(dailySchedule.Value()), d.fragments)
    ensures scheduled' == scheduled + d.count
    ensures d == Draw(old(locations[i].Value()), kind, target - scheduled) && stop == (d.count >= target - scheduled)
    ensures Values(locations) == old(Values(locations))[i := d.rest]
  {
    var scheduledForDay;
    scheduledForDay, d := DrawLocation(locations, i, dailySchedule, kind, target - scheduled);
    scheduled' := scheduled + scheduledForDay;
    stop := scheduled' >= target;
  }

  /** One turn of a priority pass: a location with units of the kind is drawn from with what is left
      of the target, and the pass is to stop once the target is reached; any other is passed over. */
  method VisitLocation(locations: seq<LocationData>, i: nat, dailySchedule: DailyScheduleData, kind: Kind,
                       scheduled: int, target: int)
    returns (scheduled': int, stop: bool, ghost d: Drawn)
    requires Unaliased(locations) && AllValid(locations) && i < |locations|
    requires dailySchedule.Valid() && dailySchedule.technicians != []
    modifies locations[i], dailySchedule
    ensures AllValid(locations) && dailySchedule.Valid() && dailySchedule.technicians == old(dailySchedule.technicians)
    ensures dailySchedule.Value() == Stage(old(dailySchedule.Value()), d.fragments)
    ensures scheduled' == scheduled + d.count
    ensures TurnDraws(old(locations[i].Value()), kind, target - scheduled, d, stop)
    ensures Values(locations) == old(Values(locations))[i := d.rest]
  {
    var count := CountOf(locations[i], kind);
    if count > 0 {
      scheduled', stop, d := LocationDrawTurn(locations, i, dailySchedule, kind, scheduled, target);
    } else {
      d := Drawn(0, [], locations[i].Value());
      scheduled' := scheduled;
      stop := false;
      assert old(Values(locations))[i] == d.rest;
      assert old(Values(locations))[i := d.rest] == old(Values(locations));
    }
  }

  /** One turn of the loop of a priority pass, at position p of the order. */
  method VisitStep(locations: seq<LocationData>, dailySchedule: DailyScheduleData, order: seq<nat>, kind: Kind,
                   target: int, p: nat, scheduled: int, ghost goal: Pass, ghost day0: DayValue, ghost staged: seq<LocationValue>)
    returns (scheduled': int, stop: bool, ghost staged': seq<LocationValue>)
    requires Unaliased(locations) && AllValid(locations)
    requires p < |order| && forall q :: 0 <= q < |order| ==> order[q] < |locations|
    requires ValidDay(day0) && |day0.technicians| > 0
    requires dailySchedule.Valid() && dailySchedule.technicians == day0.technicians
    requires dailySchedule.Value() == Stage(day0, staged)
    requires PassPending(goal, scheduled, staged, Visit(Values(locations), order[p..], kind, target - scheduled))
    modifies locations, dailySchedule
    ensures AllValid(locations) && dailySchedule.Valid() && dailySchedule.technicians == day0.technicians
    ensures dailySchedule.Value() == Stage(day0, staged')
    ensures PassPending(goal, scheduled', staged',
                        if stop then Pass(0, [], Values(locations)) else Visit(Values(locations), order[p + 1..], kind, target - scheduled'))
  {
    ghost var values := Values(locations);
    ghost var pre := dailySchedule.Value();
    ghost var d;
    assert values[order[p]] == locations[order[p]].Value();
    scheduled', stop, d := VisitLocation(locations, order[p], dailySchedule, kind, scheduled, target);
    staged' := staged + d.fragments;
    StagedFurther(day0, staged, d.fragments, pre, dailySchedule.Value());
    VisitTurn(goal, scheduled, staged, values, order, p, kind, target, d, stop, Values(locations), scheduled', staged');
  }

  /** The loop of a priority pass over the locations in the given order of positions. */
  method VisitLoop(locations: seq<LocationData>, dailySchedule: DailyScheduleData, order: seq<nat>, kind: Kind, target: int)
    requires Unaliased(locations) && AllValid(locations)
    requires dailySchedule.Valid() && dailySchedule.technicians != []
    requires forall q :: 0 <= q < |order| ==> order[q] < |locations|
    modifies locations, dailySchedule
    ensures AllValid(locations) && dailySchedule.Valid()
    ensures var r := Visit(old(Values(locations)), order, kind, target);
      Values(locations) == r.locations && dailySchedule.Value() == Stage(old(dailySchedule.Value()), r.fragments)
  {
    ghost var day0 := dailySchedule.Value();
    ghost var goal := Visit(Values(locations), order, kind, target);
    ghost var staged: seq<LocationValue> := [];
    assert order[0..] == order;
    assert PassPending(goal, 0, staged, Visit(Values(locations), order[0..], kind, target)) by {
      assert [] + goal.fragments == goal.fragments;
    }
    var scheduled := 0;
    var stop := false;
    var p := 0;
    while p < |order| && !stop
      invariant 0 <= p <= |order| && AllValid(locations)
      invariant dailySchedule.Valid() && dailySchedule.technicians == day0.technicians
      invariant dailySchedule.Value() == Stage(day0, staged)
      invariant PassPending(goal, scheduled, staged,
                            if stop then Pass(0, [], Values(locations)) else Visit(Values(locations), order[p..], kind, target - scheduled))
    {
      scheduled, stop, staged := VisitStep(locations, dailySchedule, order, kind, target, p, scheduled, goal, day0, staged);
      p := p + 1;
    }
    assert staged + [] == staged;
  }

  /** scheduleOnSiteEquipmentByPriority and scheduleOffSiteEquipmentByPriority: nothing for a target
      of zero or less; otherwise the locations by descending count of the kind, equal counts in list
      order, each drawn from with what is left of the target until it is reached. */
  method ScheduleEquipmentByPriority(locations: seq<LocationData>, dailySchedule: DailyScheduleData, kind: Kind, target: int)
    requires Unaliased(locations) && AllValid(locations)
    requires dailySchedule.Valid() && dailySchedule.technicians != []
    modifies locations, dailySchedule
    ensures AllValid(locations) && dailySchedule.Valid()
    ensures var r := ByPriority(old(Values(locations)), kind, target);
      Values(locations) == r.locations && dailySchedule.Value() == Stage(old(dailySchedule.Value()), r.fragments)
  {
    if target <= 0 {
      return;
    }
    var counts := CountsOf(locations, kind);
    var sortedLocations := DescendingOrder(counts);
    VisitLoop(locations, dailySchedule, sortedLocations, kind, target);
  }
}
