/**
 * DailyScheduleData: the date of one day of maintenance and, per technician, the list of location
 * fragments to visit. The technician map is a LinkedHashMap: its keys are kept in insertion order.
 */
module DailySchedules {
  import opened KeyedLists
  import opened Locations

  /** The state of a DailyScheduleData object. */
  datatype DayValue = DayValue(date: int, technicians: seq<string>, buckets: map<string, seq<LocationValue>>)

  ghost predicate ValidDay(d: DayValue) {
    Keyed(d.technicians, d.buckets)
  }

  /** All the fragments of the day, technician after technician (the iteration over values()). */
  function Fragments(d: DayValue): seq<LocationValue> {
    Flatten(d.technicians, d.buckets)
  }

  /** put(technician, new ArrayList<>()): a new technician goes last; one already there keeps its
      place and gets an empty list. */
  function PutEmpty(d: DayValue, technician: string): (r: DayValue)
    requires ValidDay(d)
    ensures ValidDay(r)
  {
    if technician in d.buckets then d.(buckets := d.buckets[technician := []])
    else d.(technicians := d.technicians + [technician], buckets := d.buckets[technician := []])
  }

  /** A new day after the loop that puts an empty list for each technician of the roster. */
  function InitDay(date: int, roster: seq<string>): (r: DayValue)
    ensures ValidDay(r)
  {
    if roster == [] then DayValue(date, [], map[])
    else PutEmpty(InitDay(date, roster[..|roster| - 1]), roster[|roster| - 1])
  }

  /** Every technician of the roster has an empty list and no one else has one. */
  lemma {:induction false} InitDayLists(date: int, roster: seq<string>)
    ensures var r := InitDay(date, roster);
      r.date == date
      && (forall t :: t in r.buckets <==> t in roster)
      && (forall t :: t in r.buckets ==> r.buckets[t] == [])
  {
    if roster != [] {
      InitDayLists(date, roster[..|roster| - 1]);
      assert forall t :: t in roster <==> t in roster[..|roster| - 1] || t == roster[|roster| - 1];
    }
  }

  /** The first key is the roster's first name. */
  lemma {:induction false} InitDayFirst(date: int, roster: seq<string>)
    requires roster != []
    ensures InitDay(date, roster).technicians != [] && InitDay(date, roster).technicians[0] == roster[0]
  {
    var init := roster[..|roster| - 1];
    if init != [] {
      InitDayFirst(date, init);
      assert init[0] == roster[0];
    }
  }

  /** A roster without repeats is the key order itself. */
  lemma {:induction false} InitDayOrder(date: int, roster: seq<string>)
    requires Distinct(roster)
    ensures InitDay(date, roster).technicians == roster
  {
    if roster != [] {
      var init := roster[..|roster| - 1];
      DistinctInit(roster);
      InitDayOrder(date, init);
      InitDayLists(date, init);
      assert roster == init + [roster[|roster| - 1]];
    }
  }

  /** A day whose lists are all empty has no fragment. */
  lemma {:induction false} EmptyBucketsNoFragments(technicians: seq<string>, buckets: map<string, seq<LocationValue>>)
    requires forall t :: t in buckets ==> buckets[t] == []
    ensures Flatten(technicians, buckets) == []
  {
    if technicians != [] {
      EmptyBucketsNoFragments(technicians[..|technicians| - 1], buckets);
    }
  }

  /** values().iterator().next().add(fragment): the first technician's list gets the fragment at its end. */
  function AddFirst(d: DayValue, fragment: LocationValue): (r: DayValue)
    requires ValidDay(d) && |d.technicians| > 0
    ensures ValidDay(r)
  {
    var first := d.technicians[0];
    d.(buckets := d.buckets[first := d.buckets[first] + [fragment]])
  }

  /** Only the first technician has fragments: the state of every day while the locations are staged. */
  ghost predicate OnlyFirst(d: DayValue) {
    |d.technicians| > 0 && forall t :: t in d.buckets && t != d.technicians[0] ==> d.buckets[t] == []
  }

  /** While only the first technician has fragments, the day's fragments are that technician's list. */
  lemma OnlyFirstFragments(d: DayValue)
    requires ValidDay(d) && OnlyFirst(d)
    ensures Fragments(d) == d.buckets[d.technicians[0]]
  {
    FirstKeyOnly(d.technicians, d.buckets);
  }

  lemma {:induction false} FirstKeyOnly(keys: seq<string>, lists: map<string, seq<LocationValue>>)
    requires Distinct(keys) && |keys| > 0 && keys[0] in lists
    requires forall t :: t in lists && t != keys[0] ==> lists[t] == []
    ensures Flatten(keys, lists) == lists[keys[0]]
  {
    var init := keys[..|keys| - 1];
    if init == [] {
      assert keys == [keys[0]];
    } else {
      DistinctInit(keys);
      assert init[0] == keys[0];
      FirstKeyOnly(init, lists);
    }
  }

  /** Staging a fragment appends it to the day's fragments and keeps the other lists empty. */
  lemma AddFirstAppends(d: DayValue, fragment: LocationValue)
    requires ValidDay(d) && OnlyFirst(d)
    ensures OnlyFirst(AddFirst(d, fragment))
    ensures Fragments(AddFirst(d, fragment)) == Fragments(d) + [fragment]
  {
    OnlyFirstFragments(d);
    OnlyFirstFragments(AddFirst(d, fragment));
  }

  /** Whatever the other lists hold, staging a fragment adds exactly that fragment to the day. */
  lemma AddFirstAdds(d: DayValue, fragment: LocationValue)
    requires ValidDay(d) && |d.technicians| > 0
    ensures multiset(Fragments(AddFirst(d, fragment))) == multiset(Fragments(d)) + multiset{fragment}
  {
    FlattenAppend(d.technicians, d.buckets, d.technicians[0], [fragment]);
  }

  class DailyScheduleData {
    const scheduledDate: int
    var technicians: seq<string>
    var buckets: map<string, seq<LocationValue>>

    function Value(): DayValue
      reads this
    {
      DayValue(scheduledDate, technicians, buckets)
    }

    ghost predicate Valid()
      reads this
    {
      ValidDay(Value())
    }

    /** DailyScheduleData(scheduledDate): the date is fixed and the technician map is empty. */
    constructor (scheduledDate: int)
      ensures Valid() && Value() == DayValue(scheduledDate, [], map[])
    {
      this.scheduledDate := scheduledDate;
      technicians := [];
      buckets := map[];
    }

    /** getTechniciansLocationsMap().put(technician, new ArrayList<>()). */
    method PutEmptyList(technician: string)
      requires Valid()
      modifies this
      ensures Valid() && Value() == PutEmpty(old(Value()), technician)
    {
      if technician !in buckets {
        technicians := technicians + [technician];
      }
      buckets := buckets[technician := []];
    }

    /** getTechniciansLocationsMap().values().iterator().next().add(fragment). */
    method AddToFirstList(fragment: LocationValue)
      requires Valid() && |technicians| > 0
      modifies this
      ensures Valid() && Value() == AddFirst(old(Value()), fragment)
    {
      buckets := buckets[technicians[0] := buckets[technicians[0]] + [fragment]];
    }

    /** The live list of one technician, cleared. */
    method ClearList(technician: string)
      requires Valid() && technician in buckets
      modifies this
      ensures Valid() && Value() == old(Value()).(buckets := old(buckets)[technician := []])
    {
      buckets := buckets[technician := []];
    }

    /** The live list of one technician, extended at its end. */
    method AppendToList(technician: string, fragments: seq<LocationValue>)
      requires Valid() && technician in buckets
      modifies this
      ensures Valid() && Value() == old(Value()).(buckets := old(buckets)[technician := old(buckets)[technician] + fragments])
    {
      buckets := buckets[technician := buckets[technician] + fragments];
    }
  }
}
