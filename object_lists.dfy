/**
 * The lists of objects the scheduler works on: the locations the caller passes in and the days it
 * creates, each object in the list once, read as the sequence of their states.
 */
module ObjectLists {
  import opened Locations
  import opened DailySchedules

  /** The states of the locations, in list order. */
  ghost function Values(locations: seq<LocationData>): (r: seq<LocationValue>)
    reads locations
    ensures |r| == |locations| && forall i :: 0 <= i < |r| ==> r[i] == locations[i].Value()
  {
    seq(|locations|, i reads locations requires 0 <= i < |locations| => locations[i].Value())
  }

  /** No object is in the list twice. */
  predicate Unaliased<T(==)>(objects: seq<T>) {
    forall i, j :: 0 <= i < j < |objects| ==> objects[i] != objects[j]
  }

  ghost predicate AllValid(locations: seq<LocationData>)
    reads locations
  {
    forall i :: 0 <= i < |locations| ==> locations[i].Valid()
  }

  /** The states of the days, in list order. */
  ghost function DayValues(days: seq<DailyScheduleData>): (r: seq<DayValue>)
    reads days
    ensures |r| == |days| && forall i :: 0 <= i < |r| ==> r[i] == days[i].Value()
  {
    seq(|days|, i reads days requires 0 <= i < |days| => days[i].Value())
  }

  ghost predicate AllDaysValid(days: seq<DailyScheduleData>)
    reads days
  {
    forall i :: 0 <= i < |days| ==> days[i].Valid()
  }
}
