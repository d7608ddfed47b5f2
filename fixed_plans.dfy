/**
 * Fixed-days mode: what extractScheduleFixNumberOfDays puts on each day before the technician
 * split. Each on-site list and each sublocation list is cut, in order, into consecutive chunks of
 * ceil(n / numberOfDays) units; chunk i goes to day i, in the first technician's list.
 */
module FixedPlans {
  import opened KeyedLists
  import opened Locations
  import opened DailySchedules
  import opened SchedulingMath

  /** The units cut, in order, into chunks of c units; the last chunk may be shorter. */
  function Chunks(units: seq<string>, c: nat): seq<seq<string>>
    requires c > 0
    decreases |units|
  {
    if units == [] then []
    else if |units| <= c then [units]
    else [units[..c]] + Chunks(units[c..], c)
  }

  function Concat(chunks: seq<seq<string>>): seq<string> {
    if chunks == [] then [] else chunks[0] + Concat(chunks[1..])
  }

  /** The chunks put back together are the units; there are ceil(n / c) of them, none empty, none
      longer than c, and all but the last exactly c long. */
  lemma {:induction false} ChunksSpec(units: seq<string>, c: nat)
    requires c > 0
    ensures var r := Chunks(units, c);
      Concat(r) == units
      && |r| == CeilDiv(|units|, c)
      && (forall i :: 0 <= i < |r| ==> 0 < |r[i]| <= c)
      && (forall i :: 0 <= i < |r| - 1 ==> |r[i]| == c)
    decreases |units|
  {
    var r := Chunks(units, c);
    if units == [] {
    } else if |units| <= c {
      assert CeilDiv(|units|, c) == 1;
    } else {
      ChunksSpec(units[c..], c);
      CeilDivStep(|units|, c);
      assert units == units[..c] + units[c..];
      assert r[1..] == Chunks(units[c..], c);
    }
  }

  /** Copies holding the chunks of an on-site list. */
  function OnSiteCopies(name: string, chunks: seq<seq<string>>): (r: seq<LocationValue>)
    ensures |r| == |chunks| && forall i :: 0 <= i < |r| ==> r[i] == OnSiteCopy(name, chunks[i])
  {
    if chunks == [] then [] else [OnSiteCopy(name, chunks[0])] + OnSiteCopies(name, chunks[1..])
  }

  /** Copies holding the chunks of one sublocation list. */
  function OffSiteCopies(name: string, sublocation: string, chunks: seq<seq<string>>): (r: seq<LocationValue>)
    ensures |r| == |chunks| && forall i :: 0 <= i < |r| ==> r[i] == OffSiteCopy(name, sublocation, chunks[i])
  {
    if chunks == [] then [] else [OffSiteCopy(name, sublocation, chunks[0])] + OffSiteCopies(name, sublocation, chunks[1..])
  }

  /** scheduleOnSiteEquipment: the fragments for days 0, 1, ... of a location's on-site list. */
  function OnSiteFragments(v: LocationValue, numberOfDays: nat): seq<LocationValue>
    requires numberOfDays > 0
  {
    var n := |v.onSite|;
    if n == 0 then []
    else if n == 1 then [OnSiteCopy(v.name, v.onSite)]
    else OnSiteCopies(v.name, Chunks(v.onSite, CeilDiv(n, numberOfDays)))
  }

  /** scheduleOffSiteEquipment, one sublocation: the fragments for days 0, 1, ... of its list. */
  function SublocationFragments(name: string, sublocation: string, units: seq<string>, numberOfDays: nat): seq<LocationValue>
    requires numberOfDays > 0
  {
    if |units| == 0 then []
    else if |units| == 1 then [OffSiteCopy(name, sublocation, units)]
    else OffSiteCopies(name, sublocation, Chunks(units, CeilDiv(|units|, numberOfDays)))
  }

  /** The fragments of a list never need more days than there are. */
  lemma ChunkedFits(units: seq<string>, numberOfDays: nat)
    requires numberOfDays > 0 && |units| > 1
    ensures |Chunks(units, CeilDiv(|units|, numberOfDays))| <= numberOfDays
  {
    ChunksSpec(units, CeilDiv(|units|, numberOfDays));
    ChunkCountFits(|units|, numberOfDays);
  }

  lemma OnSiteFragmentsFit(v: LocationValue, numberOfDays: nat)
    requires numberOfDays > 0
    ensures |OnSiteFragments(v, numberOfDays)| <= numberOfDays
  {
    if |v.onSite| > 1 {
      ChunkedFits(v.onSite, numberOfDays);
    }
  }

  lemma SublocationFragmentsFit(name: string, sublocation: string, units: seq<string>, numberOfDays: nat)
    requires numberOfDays > 0
    ensures |SublocationFragments(name, sublocation, units, numberOfDays)| <= numberOfDays
  {
    if |units| > 1 {
      ChunkedFits(units, numberOfDays);
    }
  }

  /** The units of fragments, fragment after fragment. */
  function UnitsOf(fragments: seq<LocationValue>): seq<string> {
    if fragments == [] then []
    else UnitsOf(fragments[..|fragments| - 1]) + Units(fragments[|fragments| - 1])
  }

  lemma {:induction false} UnitsOfConcat(a: seq<LocationValue>, b: seq<LocationValue>)
    ensures UnitsOf(a + b) == UnitsOf(a) + UnitsOf(b)
    decreases |b|
  {
    if b != [] {
      var init := b[..|b| - 1];
      var last := b[|b| - 1];
      assert (a + b)[..|a + b| - 1] == a + init;
      assert (a + b)[|a + b| - 1] == last;
      UnitsOfConcat(a, init);
      calc {
        UnitsOf(a + b);
        UnitsOf(a + init) + Units(last);
        UnitsOf(a) + UnitsOf(init) + Units(last);
        UnitsOf(a) + (UnitsOf(init) + Units(last));
        UnitsOf(a) + UnitsOf(b);
      }
    } else {
      assert a + b == a;
    }
  }

  lemma {:induction false} OnSiteCopiesUnits(name: string, chunks: seq<seq<string>>)
    ensures UnitsOf(OnSiteCopies(name, chunks)) == Concat(chunks)
  {
    if chunks != [] {
      var r := OnSiteCopies(name, chunks);
      OnSiteCopiesUnits(name, chunks[1..]);
      assert r == [OnSiteCopy(name, chunks[0])] + OnSiteCopies(name, chunks[1..]);
      UnitsOfConcat([OnSiteCopy(name, chunks[0])], OnSiteCopies(name, chunks[1..]));
      assert UnitsOf([OnSiteCopy(name, chunks[0])]) == chunks[0];
    }
  }

  lemma {:induction false} OffSiteCopiesUnits(name: string, sublocation: string, chunks: seq<seq<string>>)
    ensures UnitsOf(OffSiteCopies(name, sublocation, chunks)) == Concat(chunks)
  {
    if chunks != [] {
      var f := OffSiteCopy(name, sublocation, chunks[0]);
      OffSiteCopiesUnits(name, sublocation, chunks[1..]);
      UnitsOfConcat([f], OffSiteCopies(name, sublocation, chunks[1..]));
      assert Flatten([sublocation], f.subLists) == Flatten([], f.subLists) + chunks[0];
      assert UnitsOf([f]) == chunks[0];
    }
  }

  /** The on-site fragments hold the on-site list, in order, once. */
  lemma OnSiteFragmentsUnits(v: LocationValue, numberOfDays: nat)
    requires numberOfDays > 0
    ensures UnitsOf(OnSiteFragments(v, numberOfDays)) == v.onSite
  {
    var n := |v.onSite|;
    if n == 1 {
      assert UnitsOf([OnSiteCopy(v.name, v.onSite)]) == v.onSite;
    } else if n > 1 {
      var c := CeilDiv(n, numberOfDays);
      ChunksSpec(v.onSite, c);
      OnSiteCopiesUnits(v.name, Chunks(v.onSite, c));
    }
  }

  /** The fragments of a sublocation hold its list, in order, once. */
  lemma SublocationFragmentsUnits(name: string, sublocation: string, units: seq<string>, numberOfDays: nat)
    requires numberOfDays > 0
    ensures UnitsOf(SublocationFragments(name, sublocation, units, numberOfDays)) == units
  {
    if |units| == 1 {
      var f := OffSiteCopy(name, sublocation, units);
      assert Flatten([sublocation], f.subLists) == Flatten([], f.subLists) + units;
      assert UnitsOf([f]) == units;
    } else if |units| > 1 {
      var c := CeilDiv(|units|, numberOfDays);
      ChunksSpec(units, c);
      OffSiteCopiesUnits(name, sublocation, Chunks(units, c));
    }
  }

  /** The days while fragments are staged: only the first technician of each day has any. */
  ghost predicate Staging(days: seq<DayValue>) {
    forall i :: 0 <= i < |days| ==> ValidDay(days[i]) && OnlyFirst(days[i])
  }

  /** Fragment i goes to day i, at the end of its first technician's list. */
  function Place(days: seq<DayValue>, fragments: seq<LocationValue>): (r: seq<DayValue>)
    requires Staging(days) && |fragments| <= |days|
    ensures |r| == |days|
  {
    seq(|days|, i requires 0 <= i < |days| => if i < |fragments| then AddFirst(days[i], fragments[i]) else days[i])
  }

  /** Placing keeps the days staging, each keeps its date and technicians, and day i gets fragment i. */
  lemma PlaceFragments(days: seq<DayValue>, fragments: seq<LocationValue>)
    requires Staging(days) && |fragments| <= |days|
    ensures var r := Place(days, fragments);
      Staging(r)
      && (forall i :: 0 <= i < |r| ==> r[i].date == days[i].date && r[i].technicians == days[i].technicians)
      && (forall i :: 0 <= i < |r| ==> Fragments(r[i]) == Fragments(days[i]) + (if i < |fragments| then [fragments[i]] else []))
  {
    forall i | 0 <= i < |days| && i < |fragments| {
      AddFirstAppends(days[i], fragments[i]);
    }
  }

  /** Every unit on any of the days, each as often as it occurs. */
  function DaysUnits(days: seq<DayValue>): multiset<string> {
    if days == [] then multiset{} else multiset(UnitsOf(Fragments(days[0]))) + DaysUnits(days[1..])
  }

  /** Placing fragments adds exactly their units to the days. */
  lemma {:induction false} PlaceUnits(days: seq<DayValue>, fragments: seq<LocationValue>)
    requires Staging(days) && |fragments| <= |days|
    ensures DaysUnits(Place(days, fragments)) == DaysUnits(days) + multiset(UnitsOf(fragments))
    decreases |days|
  {
    if days != [] {
      var r := Place(days, fragments);
      if fragments == [] {
        assert r == days;
      } else {
        var rest := fragments[1..];
        assert r[1..] == Place(days[1..], rest);
        PlaceUnits(days[1..], rest);
        PlaceFirstUnits(days, fragments);
      }
    }
  }

  lemma PlaceFirstUnits(days: seq<DayValue>, fragments: seq<LocationValue>)
    requires Staging(days) && 0 < |fragments| <= |days|
    ensures multiset(UnitsOf(Fragments(Place(days, fragments)[0])))
      == multiset(UnitsOf(Fragments(days[0]))) + multiset(Units(fragments[0]))
    ensures UnitsOf(fragments) == Units(fragments[0]) + UnitsOf(fragments[1..])
  {
    AddFirstAppends(days[0], fragments[0]);
    var before := Fragments(days[0]);
    assert Fragments(Place(days, fragments)[0]) == before + [fragments[0]];
    UnitsOfConcat(before, [fragments[0]]);
    UnitsOfSingle(fragments[0]);
    UnitsOfCons(fragments);
  }

  lemma UnitsOfSingle(f: LocationValue)
    ensures UnitsOf([f]) == Units(f)
  {
    assert [f][..0] == [];
  }

  lemma UnitsOfCons(fragments: seq<LocationValue>)
    requires fragments != []
    ensures UnitsOf(fragments) == Units(fragments[0]) + UnitsOf(fragments[1..])
  {
    assert fragments == [fragments[0]] + fragments[1..];
    UnitsOfConcat([fragments[0]], fragments[1..]);
    UnitsOfSingle(fragments[0]);
  }

  /** scheduleOffSiteEquipment over the sublocations in key order. */
  function StageSublocations(days: seq<DayValue>, name: string, names: seq<string>, lists: map<string, seq<string>>,
                             numberOfDays: nat): (r: seq<DayValue>)
    requires Staging(days) && |days| == numberOfDays > 0
    ensures Staging(r) && |r| == numberOfDays
    ensures DaysUnits(r) == DaysUnits(days) + multiset(Flatten(names, lists))
  {
    if names == [] then days
    else
      var last := names[|names| - 1];
      var before := StageSublocations(days, name, names[..|names| - 1], lists, numberOfDays);
      var fragments := SublocationFragments(name, last, Get(lists, last), numberOfDays);
      SublocationFragmentsFit(name, last, Get(lists, last), numberOfDays);
      PlaceFragments(before, fragments);
      PlaceUnits(before, fragments);
      SublocationFragmentsUnits(name, last, Get(lists, last), numberOfDays);
      Place(before, fragments)
  }

  /** scheduleOnSiteEquipment: the on-site fragments of a location placed on days 0, 1, ... */
  function StageOnSite(days: seq<DayValue>, v: LocationValue, numberOfDays: nat): (r: seq<DayValue>)
    requires Staging(days) && |days| == numberOfDays > 0
    ensures Staging(r) && |r| == numberOfDays
    ensures DaysUnits(r) == DaysUnits(days) + multiset(v.onSite)
  {
    var onSite := OnSiteFragments(v, numberOfDays);
    OnSiteFragmentsFit(v, numberOfDays);
    PlaceFragments(days, onSite);
    PlaceUnits(days, onSite);
    OnSiteFragmentsUnits(v, numberOfDays);
    Place(days, onSite)
  }

  /** One location: its on-site list, then, unless it has no off-site unit at all, each sublocation. */
  function StageLocation(days: seq<DayValue>, v: LocationValue, numberOfDays: nat): (r: seq<DayValue>)
    requires Staging(days) && |days| == numberOfDays > 0
    ensures Staging(r) && |r| == numberOfDays
    ensures DaysUnits(r) == DaysUnits(days) + multiset(Units(v))
  {
    var afterOnSite := StageOnSite(days, v, numberOfDays);
    if OffSiteTotal(v.subNames, v.subLists) == 0 then
      OffSiteTotalCounts(v.subNames, v.subLists);
      assert Flatten(v.subNames, v.subLists) == [];
      assert Units(v) == v.onSite;
      afterOnSite
    else
      StageSublocations(afterOnSite, v.name, v.subNames, v.subLists, numberOfDays)
  }

  /** Every unit of the locations, location after location. */
  function LocationsUnits(locations: seq<LocationValue>): seq<string> {
    if locations == [] then []
    else LocationsUnits(locations[..|locations| - 1]) + Units(locations[|locations| - 1])
  }

  /** The loop over the locations, in input order. */
  function FixedStage(days: seq<DayValue>, locations: seq<LocationValue>, numberOfDays: nat): (r: seq<DayValue>)
    requires Staging(days) && |days| == numberOfDays > 0
    ensures Staging(r) && |r| == numberOfDays
    ensures DaysUnits(r) == DaysUnits(days) + multiset(LocationsUnits(locations))
  {
    if locations == [] then days
    else StageLocation(FixedStage(days, locations[..|locations| - 1], numberOfDays), locations[|locations| - 1], numberOfDays)
  }

  /** The days as created: one per date, each technician of the roster with an empty list. */
  function InitDays(dates: seq<int>, roster: seq<string>): (r: seq<DayValue>)
    ensures |r| == |dates| && forall i :: 0 <= i < |r| ==> r[i] == InitDay(dates[i], roster)
  {
    seq(|dates|, i requires 0 <= i < |dates| => InitDay(dates[i], roster))
  }

  /** New days are staging, as long as there is a technician, and hold no unit. */
  lemma {:induction false} InitDaysEmpty(dates: seq<int>, roster: seq<string>)
    requires roster != []
    ensures Staging(InitDays(dates, roster)) && DaysUnits(InitDays(dates, roster)) == multiset{}
    decreases |dates|
  {
    var days := InitDays(dates, roster);
    forall i | 0 <= i < |days| ensures ValidDay(days[i]) && OnlyFirst(days[i]) && Fragments(days[i]) == [] {
      InitDayLists(dates[i], roster);
      InitDayFirst(dates[i], roster);
      EmptyBucketsNoFragments(days[i].technicians, days[i].buckets);
    }
    if dates != [] {
      InitDaysEmpty(dates[1..], roster);
      assert days[1..] == InitDays(dates[1..], roster);
    }
  }

  /** The days of fixed-days mode before the technician split: every input unit is on exactly one
      day, once. */
  function StagedDays(dates: seq<int>, roster: seq<string>, locations: seq<LocationValue>): (r: seq<DayValue>)
    requires roster != [] && |dates| > 0
    ensures Staging(r) && |r| == |dates|
    ensures DaysUnits(r) == multiset(LocationsUnits(locations))
  {
    InitDaysEmpty(dates, roster);
    FixedStage(InitDays(dates, roster), locations, |dates|)
  }
}
