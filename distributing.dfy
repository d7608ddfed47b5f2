/**
 * distributeLocationsToTechnicians as it runs on a DailyScheduleData object: the lists are emptied
 * into one sequence in key order, then each technician of the roster in turn gets the next block of
 * ceil(N / T) fragments, one add at a time. The method is proved to leave the day as Distribute
 * describes, so the lemmas of Distribution hold of the object.
 */
module Distributing {
  import opened KeyedLists
  import opened Locations
  import opened DailySchedules
  import opened SchedulingMath
  import opened Distribution

  /** The loop over values(): every list is appended to allLocations and cleared. */
  method GatherAll(dailySchedule: DailyScheduleData) returns (allLocations: seq<LocationValue>)
    requires dailySchedule.Valid()
    modifies dailySchedule
    ensures dailySchedule.Valid() && allLocations == Fragments(old(dailySchedule.Value()))
    ensures dailySchedule.Value() == old(dailySchedule.Value()).(buckets := ClearAll(old(dailySchedule.buckets)))
  {
    ghost var d0 := dailySchedule.Value();
    var technicians := dailySchedule.technicians;
    allLocations := [];
    var k := 0;
    while k < |technicians|
      invariant 0 <= k <= |technicians| && dailySchedule.Valid()
      invariant dailySchedule.Value() == d0.(buckets := dailySchedule.buckets)
      invariant Gathering(technicians, k, d0.buckets, dailySchedule.buckets, allLocations)
    {
      var technician := technicians[k];
      GatheringStep(technicians, k, d0.buckets, dailySchedule.buckets, allLocations);
      allLocations := allLocations + dailySchedule.buckets[technician];
      dailySchedule.ClearList(technician);
      k := k + 1;
    }
    GatheringDone(technicians, d0.buckets, dailySchedule.buckets, allLocations);
  }

  /** After k turns of the loop over values(): the lists of the first k technicians, in order, are in
      all and emptied, and the others are as they were. */
  ghost predicate Gathering(technicians: seq<string>, k: nat, b0: map<string, seq<LocationValue>>,
                            b: map<string, seq<LocationValue>>, all: seq<LocationValue>)
    requires k <= |technicians|
  {
    b.Keys == b0.Keys && all == Flatten(technicians[..k], b0)
    && (forall j :: 0 <= j < k ==> Get(b, technicians[j]) == [])
    && (forall j :: k <= j < |technicians| ==> Get(b, technicians[j]) == Get(b0, technicians[j]))
  }

  /** One turn of the loop over values() keeps Gathering. */
  lemma GatheringStep(technicians: seq<string>, k: nat, b0: map<string, seq<LocationValue>>,
                      b: map<string, seq<LocationValue>>, all: seq<LocationValue>)
    requires Keyed(technicians, b0) && k < |technicians| && Gathering(technicians, k, b0, b, all)
    ensures technicians[k] in b
    ensures Gathering(technicians, k + 1, b0, b[technicians[k] := []], all + b[technicians[k]])
  {
    var t := technicians[k];
    var b' := b[t := []];
    assert technicians[..k + 1][..k] == technicians[..k];
    assert Get(b, t) == Get(b0, t);
    forall j | k < j < |technicians|
      ensures Get(b', technicians[j]) == Get(b0, technicians[j])
    {
      DistinctAt(technicians, k, j);
    }
  }

  /** When every technician has had a turn, all holds every list in key order and every list is empty. */
  lemma GatheringDone(technicians: seq<string>, b0: map<string, seq<LocationValue>>,
                      b: map<string, seq<LocationValue>>, all: seq<LocationValue>)
    requires Keyed(technicians, b0) && Gathering(technicians, |technicians|, b0, b, all)
    ensures all == Flatten(technicians, b0) && b == ClearAll(b0)
  {
    assert technicians[..|technicians|] == technicians;
    forall t | t in b
      ensures b[t] == []
    {
      var j :| 0 <= j < |technicians| && technicians[j] == t;
      assert Get(b, technicians[j]) == [];
    }
  }

  /** The inner loop for one technician: up to per more fragments from position current on. */
  method HandOutBlock(dailySchedule: DailyScheduleData, technician: string, allLocations: seq<LocationValue>,
                      per: nat, current: nat)
    returns (next: nat)
    requires dailySchedule.Valid() && technician in dailySchedule.buckets && current <= |allLocations|
    modifies dailySchedule
    ensures dailySchedule.Valid() && next == Min(current + per, |allLocations|)
    ensures dailySchedule.Value() == old(dailySchedule.Value()).(buckets := old(dailySchedule.buckets)[technician :=
              old(dailySchedule.buckets)[technician] + allLocations[current..next]])
  {
    ghost var before := dailySchedule.buckets[technician];
    ghost var b0 := dailySchedule.buckets;
    assert before + allLocations[current..current] == before;
    assert b0[technician := before] == b0;
    next := current;
    var i := 0;
    while i < per && next < |allLocations|
      invariant 0 <= i <= per && next == current + i <= |allLocations| && dailySchedule.Valid()
      invariant dailySchedule.Value() == old(dailySchedule.Value()).(buckets := b0[technician := before + allLocations[current..next]])
    {
      ghost var grown := before + allLocations[current..next + 1];
      assert allLocations[current..next + 1] == allLocations[current..next] + [allLocations[next]];
      assert grown == before + allLocations[current..next] + [allLocations[next]];
      dailySchedule.AppendToList(technician, [allLocations[next]]);
      assert dailySchedule.buckets == b0[technician := grown];
      next := next + 1;
      i := i + 1;
    }
  }

  /** One turn of the outer loop: technician j gets block j and the next turn starts where it ends. */
  method HandOutTurn(dailySchedule: DailyScheduleData, ghost d0: DayValue, ghost cleared: map<string, seq<LocationValue>>,
                     techniciansList: seq<string>, allLocations: seq<LocationValue>, per: nat, j: nat, current: nat)
    returns (next: nat)
    requires dailySchedule.Valid() && j < |techniciansList| && forall t :: t in techniciansList ==> t in cleared
    requires current == Start(per, |allLocations|, j)
    requires dailySchedule.Value() == d0.(buckets := HandOut(cleared, techniciansList, allLocations, per, j))
    modifies dailySchedule
    ensures dailySchedule.Valid() && next == Start(per, |allLocations|, j + 1)
    ensures dailySchedule.Value() == d0.(buckets := HandOut(cleared, techniciansList, allLocations, per, j + 1))
  {
    var technician := techniciansList[j];
    next := HandOutBlock(dailySchedule, technician, allLocations, per, current);
    HandOutUnfold(cleared, techniciansList, allLocations, per, j + 1);
  }

  /** The outer loop: each technician of the roster in turn gets the next block. */
  method HandOutAll(dailySchedule: DailyScheduleData, ghost d0: DayValue, ghost cleared: map<string, seq<LocationValue>>,
                    techniciansList: seq<string>, allLocations: seq<LocationValue>, per: nat)
    requires dailySchedule.Valid() && forall t :: t in techniciansList ==> t in cleared
    requires dailySchedule.Value() == d0.(buckets := cleared)
    modifies dailySchedule
    ensures dailySchedule.Valid()
    ensures dailySchedule.Value() == d0.(buckets := HandOut(cleared, techniciansList, allLocations, per, |techniciansList|))
  {
    var currentLocation := 0;
    var j := 0;
    while j < |techniciansList|
      invariant 0 <= j <= |techniciansList| && dailySchedule.Valid()
      invariant currentLocation == Start(per, |allLocations|, j)
      invariant dailySchedule.Value() == d0.(buckets := HandOut(cleared, techniciansList, allLocations, per, j))
    {
      currentLocation := HandOutTurn(dailySchedule, d0, cleared, techniciansList, allLocations, per, j, currentLocation);
      j := j + 1;
    }
  }

  /** distributeLocationsToTechnicians: nothing for a roster of one technician or none; otherwise the
      day ends as Distribute describes. */
  method DistributeLocationsToTechnicians(dailySchedule: DailyScheduleData, techniciansList: seq<string>)
    requires dailySchedule.Valid() && (|techniciansList| > 1 ==> RosterKnown(dailySchedule.Value(), techniciansList))
    modifies dailySchedule
    ensures dailySchedule.Valid() && dailySchedule.Value() == Distribute(old(dailySchedule.Value()), techniciansList)
  {
    if |techniciansList| <= 1 {
      return;
    }
    ghost var d0 := dailySchedule.Value();
    var allLocations := GatherAll(dailySchedule);
    var locationsPerTechnician := CeilDiv(|allLocations|, |techniciansList|);
    HandOutAll(dailySchedule, d0, ClearAll(d0.buckets), techniciansList, allLocations, locationsPerTechnician);
  }
}
