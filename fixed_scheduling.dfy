/**
 * The fixed-days staging of SchedulingHelper as it runs: new LocationData copies are built unit by
 * unit and added to the first technician's list of the DailyScheduleData objects. Each method is
 * proved to leave the days in the state the value-level definitions of FixedPlans describe, so what
 * is proved there (every unit on exactly one day, no list needing more days than there are) holds
 * of the objects.
 */
module FixedScheduling {
  import opened ObjectLists
  import opened KeyedLists
  import opened Locations
  import opened DailySchedules
  import opened SchedulingMath
  import opened FixedPlans

  /** The list of a location a staging loop cuts: the on-site list, or the list of one sublocation. */
  datatype Part = OnSitePart | SublocationPart(sublocation: string)

  /** A copy of a location holding the given units of the given part. */
  function Fragment(name: string, part: Part, units: seq<string>): LocationValue {
    match part
    case OnSitePart => OnSiteCopy(name, units)
    case SublocationPart(s) => OffSiteCopy(name, s, units)
  }

  /** The fragments for days 0, 1, ... of one list: nothing for an empty list, the whole list on day 0
      for a single unit, otherwise one fragment per chunk of ceil(n / numberOfDays) units. */
  function ListFragments(name: string, part: Part, units: seq<string>, numberOfDays: nat): (r: seq<LocationValue>)
    requires numberOfDays > 0
    ensures |r| <= numberOfDays
  {
    if |units| == 0 then []
    else if |units| == 1 then [Fragment(name, part, units)]
    else
      var chunks := Chunks(units, CeilDiv(|units|, numberOfDays));
      ChunkedFits(units, numberOfDays);
      seq(|chunks|, i requires 0 <= i < |chunks| => Fragment(name, part, chunks[i]))
  }

  /** For the on-site list these are the fragments of scheduleOnSiteEquipment. */
  lemma OnSiteListFragments(v: LocationValue, numberOfDays: nat)
    requires numberOfDays > 0
    ensures ListFragments(v.name, OnSitePart, v.onSite, numberOfDays) == OnSiteFragments(v, numberOfDays)
  {
  }

  /** For a sublocation list these are the fragments of scheduleOffSiteEquipment. */
  lemma SublocationListFragments(name: string, s: string, units: seq<string>, numberOfDays: nat)
    requires numberOfDays > 0
    ensures ListFragments(name, SublocationPart(s), units, numberOfDays) == SublocationFragments(name, s, units, numberOfDays)
  {
  }

  lemma ListFragmentsLength(name: string, part: Part, units: seq<string>, numberOfDays: nat)
    requires numberOfDays > 0 && |units| > 1
    ensures |ListFragments(name, part, units, numberOfDays)| == |Chunks(units, CeilDiv(|units|, numberOfDays))|
  {
  }

  /** Fragment j of a list of more than one unit holds chunk j. */
  lemma ListFragmentAt(name: string, part: Part, units: seq<string>, numberOfDays: nat, j: nat)
    requires numberOfDays > 0 && |units| > 1 && j < |Chunks(units, CeilDiv(|units|, numberOfDays))|
    ensures ListFragments(name, part, units, numberOfDays)[j] == Fragment(name, part, Chunks(units, CeilDiv(|units|, numberOfDays))[j])
  {
  }

  /** Cutting the units from position from on: the first chunk is the next min(c, rest) units. */
  lemma ChunksFrom(units: seq<string>, from: nat, c: nat)
    requires c > 0 && from < |units|
    ensures var k := Min(c, |units| - from);
      Chunks(units[from..], c) == [units[from..from + k]] + Chunks(units[from + k..], c)
  {
    var rest := units[from..];
    if |rest| <= c {
      assert units[from + |rest|..] == [];
      assert units[from..from + |rest|] == rest;
    } else {
      assert rest[..c] == units[from..from + c];
      assert rest[c..] == units[from + c..];
    }
  }

  /** One turn of the chunk loop, on values: once the next min(c, rest) units are cut off, the chunks
      so far are one more and the rest starts that much later. */
  lemma ChunksTurn(chunks: seq<seq<string>>, done: nat, units: seq<string>, from: nat, c: nat, k: nat,
                   next: nat, from': nat)
    requires c > 0 && from < |units| && done <= |chunks|
    requires chunks == chunks[..done] + Chunks(units[from..], c)
    requires k == Min(c, |units| - from) && next == done + 1 && from' == from + k
    ensures done < |chunks| && chunks[done] == units[from..from + k]
    ensures chunks == chunks[..next] + Chunks(units[from'..], c)
  {
    ChunksFrom(units, from, c);
    assert chunks == chunks[..done] + [units[from..from + k]] + Chunks(units[from'..], c);
    assert chunks[..next] == chunks[..done] + [units[from..from + k]];
  }

  /** Placing one more fragment changes one more day. */
  lemma PlaceNext(days: seq<DayValue>, fragments: seq<LocationValue>, d: nat)
    requires Staging(days) && d < |fragments| <= |days|
    ensures Place(days, fragments[..d + 1]) == Place(days, fragments[..d])[d := AddFirst(days[d], fragments[d])]
  {
  }

  /** The new location the loops build: toSchedule units from position from, added one at a time. */
  method BuildFragment(name: string, part: Part, units: seq<string>, from: nat, toSchedule: nat)
    returns (dayLocation: LocationData)
    requires 0 < toSchedule && from + toSchedule <= |units|
    ensures fresh(dayLocation) && dayLocation.Valid()
    ensures dayLocation.Value() == Fragment(name, part, units[from..from + toSchedule])
  {
    match part
    case OnSitePart =>
      dayLocation := BuildOnSiteCopy(name, units, from, toSchedule);
    case SublocationPart(s) =>
      dayLocation := BuildOffSiteCopy(name, s, units, from, toSchedule);
  }

  /** The on-site loop: getOnSiteEquipmentsList().add of each unit. */
  method BuildOnSiteCopy(name: string, units: seq<string>, from: nat, toSchedule: nat) returns (dayLocation: LocationData)
    requires from + toSchedule <= |units|
    ensures fresh(dayLocation) && dayLocation.Valid()
    ensures dayLocation.Value() == OnSiteCopy(name, units[from..from + toSchedule])
  {
    dayLocation := new LocationData(name);
    var i := 0;
    while i < toSchedule
      invariant 0 <= i <= toSchedule && dayLocation.Valid()
      invariant dayLocation.Value() == OnSiteCopy(name, units[from..from + i])
    {
      assert units[from..from + i + 1] == units[from..from + i] + [units[from + i]];
      dayLocation.AddOnSite(units[from + i]);
      i := i + 1;
    }
  }

  /** The sublocation loop: addOffSiteEquipmentToSublocation of each unit. */
  method BuildOffSiteCopy(name: string, s: string, units: seq<string>, from: nat, toSchedule: nat)
    returns (dayLocation: LocationData)
    requires 0 < toSchedule && from + toSchedule <= |units|
    ensures fresh(dayLocation) && dayLocation.Valid()
    ensures dayLocation.Value() == OffSiteCopy(name, s, units[from..from + toSchedule])
  {
    dayLocation := new LocationData(name);
    var i := 0;
    while i < toSchedule
      invariant 0 <= i <= toSchedule && dayLocation.Valid()
      invariant i == 0 ==> dayLocation.Value() == LocationValue(name, [], [], map[])
      invariant i > 0 ==> dayLocation.Value() == OffSiteCopy(name, s, units[from..from + i])
    {
      var equipment := units[from + i];
      assert units[from..from + i + 1] == units[from..from + i] + [equipment];
      var _ := dayLocation.AddOffSiteEquipmentToSublocation(s, equipment);
      if i == 0 {
        assert [] + [s] == [s] && units[from..from + 1] == [equipment];
        assert map[][s := [equipment]] == map[s := units[from..from + 1]];
      } else {
        assert map[s := units[from..from + i]][s := units[from..from + i] + [equipment]]
          == map[s := units[from..from + i + 1]];
      }
      i := i + 1;
    }
  }

  /** scheduleList.get(d).getTechniciansLocationsMap().values().iterator().next().add(fragment):
      day d gets the fragment at the end of its first list; no other day changes. */
  method AddToDay(days: seq<DailyScheduleData>, d: nat, fragment: LocationValue)
    requires Unaliased(days) && AllDaysValid(days) && d < |days| && days[d].technicians != []
    modifies days[d]
    ensures AllDaysValid(days)
    ensures DayValues(days) == old(DayValues(days))[d := AddFirst(old(days[d].Value()), fragment)]
  {
    ghost var before := DayValues(days);
    days[d].AddToFirstList(fragment);
    assert forall j :: 0 <= j < |days| && j != d ==> days[j] != days[d];
    assert DayValues(days) == before[d := days[d].Value()];
  }

  /** One turn of the chunk loop: a new location holding the chunk is added to day d, which places
      fragment d. */
  method PlaceChunk(days: seq<DailyScheduleData>, ghost days0: seq<DayValue>, ghost fragments: seq<LocationValue>,
                    d: nat, ghost next: nat, name: string, part: Part, units: seq<string>, from: nat, toSchedule: nat)
    requires Unaliased(days) && AllDaysValid(days) && |days| == |days0| && Staging(days0)
    requires d < |fragments| <= |days0| && next == d + 1
    requires 0 < toSchedule && from + toSchedule <= |units| && fragments[d] == Fragment(name, part, units[from..from + toSchedule])
    requires DayValues(days) == Place(days0, fragments[..d])
    modifies days[d]
    ensures AllDaysValid(days) && DayValues(days) == Place(days0, fragments[..next])
  {
    PlaceFragments(days0, fragments[..d]);
    var dayLocation := BuildFragment(name, part, units, from, toSchedule);
    AddToDay(days, d, dayLocation.Value());
    PlaceNext(days0, fragments, d);
  }

  /** The while loop over remainingEquipment for a list of more than one unit: chunk after chunk of
      maxPerDay units goes to day 0, 1, ... */
  method PlaceChunks(days: seq<DailyScheduleData>, name: string, part: Part, units: seq<string>, numberOfDays: nat)
    requires |days| == numberOfDays > 0 && Unaliased(days) && AllDaysValid(days) && Staging(DayValues(days))
    requires |units| > 1
    modifies days
    ensures AllDaysValid(days)
    ensures DayValues(days) == Place(old(DayValues(days)), ListFragments(name, part, units, numberOfDays))
  {
    ghost var days0 := DayValues(days);
    var maxPerDay := CeilDiv(|units|, numberOfDays);
    ghost var chunks := Chunks(units, maxPerDay);
    ghost var fragments := ListFragments(name, part, units, numberOfDays);
    var remainingEquipment := |units|;
    var currentDay := 0;
    assert units[0..] == units;
    ListFragmentsLength(name, part, units, numberOfDays);
    while remainingEquipment > 0
      invariant 0 <= remainingEquipment <= |units| && 0 <= currentDay <= |chunks| == |fragments| <= |days0|
      invariant chunks == chunks[..currentDay] + Chunks(units[|units| - remainingEquipment..], maxPerDay)
      invariant AllDaysValid(days) && DayValues(days) == Place(days0, fragments[..currentDay])
      decreases remainingEquipment
    {
      remainingEquipment, currentDay := ChunkTurn(days, days0, fragments, chunks, name, part, units, numberOfDays,
                                                  maxPerDay, remainingEquipment, currentDay);
    }
    assert units[|units|..] == [];
    assert fragments[..currentDay] == fragments;
  }

  /** One turn of that loop: the next min(maxPerDay, remaining) units go to day currentDay. */
  method ChunkTurn(days: seq<DailyScheduleData>, ghost days0: seq<DayValue>, ghost fragments: seq<LocationValue>,
                   ghost chunks: seq<seq<string>>, name: string, part: Part, units: seq<string>, numberOfDays: nat,
                   maxPerDay: nat, remainingEquipment: nat, currentDay: nat)
    returns (remaining': nat, nextDay: nat)
    requires |days| == numberOfDays > 0 && Unaliased(days) && |days| == |days0| && Staging(days0) && |units| > 1
    requires maxPerDay == CeilDiv(|units|, numberOfDays) && chunks == Chunks(units, maxPerDay)
    requires fragments == ListFragments(name, part, units, numberOfDays) && |fragments| == |chunks|
    requires 0 < remainingEquipment <= |units| && currentDay <= |chunks|
    requires chunks == chunks[..currentDay] + Chunks(units[|units| - remainingEquipment..], maxPerDay)
    requires AllDaysValid(days) && DayValues(days) == Place(days0, fragments[..currentDay])
    modifies days
    ensures remaining' < remainingEquipment && nextDay <= |chunks|
    ensures chunks == chunks[..nextDay] + Chunks(units[|units| - remaining'..], maxPerDay)
    ensures AllDaysValid(days) && DayValues(days) == Place(days0, fragments[..nextDay])
  {
    var toSchedule := Min(maxPerDay, remainingEquipment);
    var from := |units| - remainingEquipment;
    remaining' := remainingEquipment - toSchedule;
    nextDay := currentDay + 1;
    ChunksTurn(chunks, currentDay, units, from, maxPerDay, toSchedule, nextDay, |units| - remaining');
    ListFragmentAt(name, part, units, numberOfDays, currentDay);
    PlaceChunk(days, days0, fragments, currentDay, nextDay, name, part, units, from, toSchedule);
  }

  /** One list of a location staged over the days: a single unit goes to day 0 (the size == 1
      branches), a longer list is cut into chunks, an empty one adds nothing. */
  method ScheduleList(days: seq<DailyScheduleData>, name: string, part: Part, units: seq<string>, numberOfDays: nat)
    requires |days| == numberOfDays > 0 && Unaliased(days) && AllDaysValid(days) && Staging(DayValues(days))
    modifies days
    ensures AllDaysValid(days)
    ensures DayValues(days) == Place(old(DayValues(days)), ListFragments(name, part, units, numberOfDays))
  {
    ghost var days0 := DayValues(days);
    if |units| == 1 {
      var dayLocation := BuildFragment(name, part, units, 0, 1);
      assert units[0..1] == units;
      AddToDay(days, 0, dayLocation.Value());
      assert DayValues(days) == Place(days0, [dayLocation.Value()]);
    } else if |units| > 1 {
      PlaceChunks(days, name, part, units, numberOfDays);
    } else {
      assert DayValues(days) == Place(days0, []);
    }
  }

  /** scheduleOnSiteEquipment: the location's on-site list staged over the days. */
  method ScheduleOnSiteEquipment(location: LocationData, days: seq<DailyScheduleData>, numberOfDays: nat)
    requires location.Valid()
    requires |days| == numberOfDays > 0 && Unaliased(days) && AllDaysValid(days) && Staging(DayValues(days))
    modifies days
    ensures AllDaysValid(days) && DayValues(days) == StageOnSite(old(DayValues(days)), location.Value(), numberOfDays)
  {
    OnSiteListFragments(location.Value(), numberOfDays);
    if location.OnsiteEquipmentsCount() == 0 {
      assert DayValues(days) == Place(DayValues(days), []);
      return;
    }
    ScheduleList(days, location.locationName, OnSitePart, location.onSiteEquipments, numberOfDays);
  }

  /** One turn of the sublocation loop, on values: staging the next sublocation's fragments. */
  lemma SublocationsTurn(days: seq<DayValue>, name: string, names: seq<string>, lists: map<string, seq<string>>,
                         numberOfDays: nat, k: nat, next: nat, before: seq<DayValue>, after: seq<DayValue>)
    requires Staging(days) && |days| == numberOfDays > 0 && k < |names| && next == k + 1
    requires before == StageSublocations(days, name, names[..k], lists, numberOfDays)
    requires after == Place(before, ListFragments(name, SublocationPart(names[k]), Get(lists, names[k]), numberOfDays))
    ensures after == StageSublocations(days, name, names[..next], lists, numberOfDays)
  {
    SublocationListFragments(name, names[k], Get(lists, names[k]), numberOfDays);
    assert names[..next][..k] == names[..k];
  }

  /** scheduleOffSiteEquipment: nothing when the location has no off-site unit, otherwise each
      sublocation list, in key order, staged over the days. */
  method ScheduleOffSiteEquipment(location: LocationData, days: seq<DailyScheduleData>, numberOfDays: nat)
    requires location.Valid()
    requires |days| == numberOfDays > 0 && Unaliased(days) && AllDaysValid(days) && Staging(DayValues(days))
    modifies days
    ensures AllDaysValid(days)
    ensures var v := location.Value();
      DayValues(days) == if OffSiteTotal(v.subNames, v.subLists) == 0 then old(DayValues(days))
                         else StageSublocations(old(DayValues(days)), v.name, v.subNames, v.subLists, numberOfDays)
  {
    var total := location.TotalOffSiteEquipmentsSublocationsCount();
    if total == 0 {
      return;
    }
    ghost var days0 := DayValues(days);
    var name := location.locationName;
    var names := location.sublocationNames;
    var lists := location.sublocationEquipments;
    var k := 0;
    while k < |names|
      invariant 0 <= k <= |names| && AllDaysValid(days) && Staging(DayValues(days))
      invariant DayValues(days) == StageSublocations(days0, name, names[..k], lists, numberOfDays)
    {
      var s := names[k];
      var equipmentList := lists[s];
      ghost var before := DayValues(days);
      ScheduleList(days, name, SublocationPart(s), equipmentList, numberOfDays);
      ghost var turn := k;
      k := k + 1;
      SublocationsTurn(days0, name, names, lists, numberOfDays, turn, k, before, DayValues(days));
    }
    assert names[..k] == names;
  }

  /** The body of the loop over locationsList: the location's on-site list, then its sublocations. */
  method ScheduleLocation(location: LocationData, days: seq<DailyScheduleData>, numberOfDays: nat)
    requires location.Valid()
    requires |days| == numberOfDays > 0 && Unaliased(days) && AllDaysValid(days) && Staging(DayValues(days))
    modifies days
    ensures AllDaysValid(days) && DayValues(days) == StageLocation(old(DayValues(days)), old(location.Value()), numberOfDays)
  {
    ScheduleOnSiteEquipment(location, days, numberOfDays);
    ScheduleOffSiteEquipment(location, days, numberOfDays);
  }

  /** One turn of the location loop, on values. */
  lemma LocationsTurn(days: seq<DayValue>, locations: seq<LocationValue>, numberOfDays: nat, k: nat, next: nat,
                      before: seq<DayValue>, after: seq<DayValue>)
    requires Staging(days) && |days| == numberOfDays > 0 && k < |locations| && next == k + 1
    requires before == FixedStage(days, locations[..k], numberOfDays)
    requires after == StageLocation(before, locations[k], numberOfDays)
    ensures after == FixedStage(days, locations[..next], numberOfDays)
  {
    assert locations[..next][..k] == locations[..k];
  }

  /** The loop over locationsList, in list order. */
  method StageLocations(locations: seq<LocationData>, days: seq<DailyScheduleData>, numberOfDays: nat)
    requires AllValid(locations)
    requires |days| == numberOfDays > 0 && Unaliased(days) && AllDaysValid(days) && Staging(DayValues(days))
    modifies days
    ensures AllDaysValid(days)
    ensures DayValues(days) == FixedStage(old(DayValues(days)), old(Values(locations)), numberOfDays)
  {
    ghost var days0 := DayValues(days);
    ghost var values := Values(locations);
    var i := 0;
    while i < |locations|
      invariant 0 <= i <= |locations| && AllDaysValid(days) && Staging(DayValues(days))
      invariant DayValues(days) == FixedStage(days0, values[..i], numberOfDays)
      invariant unchanged(locations) && |days0| == numberOfDays && Staging(days0)
    {
      i := StageTurn(locations, days, days0, values, numberOfDays, i);
    }
    assert values[..i] == values;
  }

  /** One turn of that loop: location i staged over the days. */
  method StageTurn(locations: seq<LocationData>, days: seq<DailyScheduleData>, ghost days0: seq<DayValue>,
                   ghost values: seq<LocationValue>, numberOfDays: nat, i: nat)
    returns (next: nat)
    requires AllValid(locations) && values == Values(locations) && i < |locations|
    requires |days| == numberOfDays > 0 && |days0| == numberOfDays && Staging(days0)
    requires Unaliased(days) && AllDaysValid(days) && Staging(DayValues(days))
    requires DayValues(days) == FixedStage(days0, values[..i], numberOfDays)
    modifies days
    ensures next == i + 1 && AllDaysValid(days) && Staging(DayValues(days))
    ensures DayValues(days) == FixedStage(days0, values[..next], numberOfDays)
  {
    ghost var before := DayValues(days);
    assert locations[i].Value() == values[i];
    ScheduleLocation(locations[i], days, numberOfDays);
    next := i + 1;
    LocationsTurn(days0, values, numberOfDays, i, next, before, DayValues(days));
  }
}
