/**
 * LocationData: the equipment of one location, on site and per sublocation. The sublocation map
 * is a LinkedHashMap: its keys are kept in insertion order in a sequence beside the map.
 */
module Locations {
  import opened KeyedLists

  /** The state of a LocationData object. The copies the scheduler builds and stages are values of
      this type too, since nothing changes them once they are staged. */
  datatype LocationValue = LocationValue(name: string, onSite: seq<string>,
                                         subNames: seq<string>, subLists: map<string, seq<string>>)

  /** The sublocation names are the map's keys, each once, in insertion order. */
  ghost predicate ValidValue(v: LocationValue) {
    Keyed(v.subNames, v.subLists)
  }

  /** A copy holding on-site equipment only. */
  function OnSiteCopy(name: string, units: seq<string>): (r: LocationValue)
    ensures ValidValue(r)
  {
    LocationValue(name, units, [], map[])
  }

  /** A copy holding the equipment of one sublocation only. */
  function OffSiteCopy(name: string, sublocation: string, units: seq<string>): (r: LocationValue)
    ensures ValidValue(r)
  {
    DistinctAppend([], sublocation);
    assert [] + [sublocation] == [sublocation];
    LocationValue(name, [], [sublocation], map[sublocation := units])
  }

  /** The number of off-site units, summed over the sublocations in order. */
  function OffSiteTotal(names: seq<string>, lists: map<string, seq<string>>): nat {
    if names == [] then 0
    else OffSiteTotal(names[..|names| - 1], lists) + |Get(lists, names[|names| - 1])|
  }

  /** Every unit of a location: on site first, then each sublocation's. */
  function Units(v: LocationValue): seq<string> {
    v.onSite + Flatten(v.subNames, v.subLists)
  }

  /** The off-site count is the number of off-site units. */
  lemma {:induction false} OffSiteTotalCounts(names: seq<string>, lists: map<string, seq<string>>)
    ensures OffSiteTotal(names, lists) == |Flatten(names, lists)|
  {
    if names != [] {
      OffSiteTotalCounts(names[..|names| - 1], lists);
    }
  }

  /** addOffSiteEquipmentToSublocation on the value: the sublocation's list gets the unit at its
      end, and is created (at the end of the key order) on first use. */
  function AddOffSite(v: LocationValue, sublocation: string, unit: string): (r: LocationValue)
    requires ValidValue(v)
    ensures ValidValue(r)
  {
    if sublocation in v.subLists then
      v.(subLists := v.subLists[sublocation := v.subLists[sublocation] + [unit]])
    else
      v.(subNames := v.subNames + [sublocation], subLists := v.subLists[sublocation := [unit]])
  }

  /** Adding a unit adds exactly that unit to the location's units. */
  lemma AddOffSiteUnits(v: LocationValue, sublocation: string, unit: string)
    requires ValidValue(v)
    ensures multiset(Units(AddOffSite(v, sublocation, unit))) == multiset(Units(v)) + multiset{unit}
  {
    if sublocation in v.subLists {
      AddToExistingUnits(v, sublocation, unit);
    } else {
      AddToNewUnits(v, sublocation, unit);
    }
  }

  lemma AddToExistingUnits(v: LocationValue, sublocation: string, unit: string)
    requires ValidValue(v) && sublocation in v.subLists
    ensures multiset(Units(AddOffSite(v, sublocation, unit))) == multiset(Units(v)) + multiset{unit}
  {
    var r := AddOffSite(v, sublocation, unit);
    var lists := v.subLists[sublocation := v.subLists[sublocation] + [unit]];
    assert r == v.(subLists := lists);
    FlattenAppend(v.subNames, v.subLists, sublocation, [unit]);
    assert Units(r) == v.onSite + Flatten(v.subNames, lists);
  }

  lemma AddToNewUnits(v: LocationValue, sublocation: string, unit: string)
    requires ValidValue(v) && sublocation !in v.subLists
    ensures Units(AddOffSite(v, sublocation, unit)) == Units(v) + [unit]
  {
    var r := AddOffSite(v, sublocation, unit);
    var names := v.subNames + [sublocation];
    var lists := v.subLists[sublocation := [unit]];
    assert r.onSite == v.onSite && r.subNames == names && r.subLists == lists;
    var off := Flatten(v.subNames, v.subLists);
    assert Flatten(names, lists) == off + [unit] by {
      assert sublocation !in v.subNames;
      FlattenNewKey(v.subNames, v.subLists, sublocation, [unit]);
    }
    assert Units(r) == v.onSite + (off + [unit]);
  }

  /** List.removeAll: every element of xs that occurs in ys is dropped. */
  function RemoveAll(xs: seq<string>, ys: seq<string>): (r: seq<string>)
    ensures forall i :: 0 <= i < |r| ==> r[i] in xs && r[i] !in ys
    ensures |r| <= |xs|
    ensures forall x :: x in xs && x !in ys ==> x in r
  {
    if xs == [] then []
    else (if xs[0] in ys then [] else [xs[0]]) + RemoveAll(xs[1..], ys)
  }

  /** removeAll keeps each element not in ys as often as xs holds it, and no copy of the others. */
  lemma {:induction false} RemoveAllCount(xs: seq<string>, ys: seq<string>, x: string)
    ensures multiset(RemoveAll(xs, ys))[x] == if x in ys then 0 else multiset(xs)[x]
  {
    if xs != [] {
      var h: seq<string> := if xs[0] in ys then [] else [xs[0]];
      var t := RemoveAll(xs[1..], ys);
      RemoveAllCount(xs[1..], ys, x);
      assert RemoveAll(xs, ys) == h + t;
      assert multiset(h + t) == multiset(h) + multiset(t);
      assert xs == [xs[0]] + xs[1..];
      assert multiset(xs) == multiset([xs[0]]) + multiset(xs[1..]);
    }
  }

  /** removeAll works element by element, so the kept elements stay in their order. */
  lemma {:induction false} RemoveAllAppend(a: seq<string>, b: seq<string>, ys: seq<string>)
    ensures RemoveAll(a + b, ys) == RemoveAll(a, ys) + RemoveAll(b, ys)
  {
    if a == [] {
      assert a + b == b;
    } else {
      assert (a + b)[1..] == a[1..] + b;
      RemoveAllAppend(a[1..], b, ys);
    }
  }

  /** Removing a list that holds the first k elements drops at least k elements. */
  lemma {:induction false} RemoveAllShorter(xs: seq<string>, ys: seq<string>, k: nat)
    requires k <= |xs| && forall i :: 0 <= i < k ==> xs[i] in ys
    ensures |RemoveAll(xs, ys)| <= |xs| - k
  {
    if xs != [] {
      if k > 0 {
        assert xs[0] in ys;
        RemoveAllShorter(xs[1..], ys, k - 1);
      } else {
        RemoveAllShorter(xs[1..], ys, 0);
      }
    }
  }

  /** On a list without repeats, removing its first k elements leaves the rest. */
  lemma {:induction false} RemoveAllPrefix(xs: seq<string>, k: nat)
    requires Distinct(xs) && k <= |xs|
    ensures RemoveAll(xs, xs[..k]) == xs[k..]
  {
    RemoveAllKeeps(xs, xs[..k], k);
  }

  lemma {:induction false} RemoveAllKeeps(xs: seq<string>, ys: seq<string>, k: nat)
    requires Distinct(xs) && k <= |xs|
    requires forall y :: y in xs ==> (y in ys <==> y in xs[..k])
    ensures RemoveAll(xs, ys) == xs[k..]
  {
    if xs != [] {
      var tail := xs[1..];
      assert Distinct(tail) by {
        forall i, j | 0 <= i < j < |tail| ensures tail[i] != tail[j] {
          DistinctAt(xs, i + 1, j + 1);
        }
        DistinctIndices(tail);
      }
      if k == 0 {
        assert xs[0] !in ys;
        RemoveAllKeeps(tail, ys, 0);
      } else {
        assert xs[0] in ys;
        assert xs[..k] == [xs[0]] + tail[..k - 1];
        forall j | 0 <= j < |tail| ensures tail[j] != xs[0] {
          DistinctAt(xs, 0, j + 1);
        }
        RemoveAllKeeps(tail, ys, k - 1);
      }
    }
  }

  class LocationData {
    const locationName: string
    var onSiteEquipments: seq<string>
    var sublocationNames: seq<string>
    var sublocationEquipments: map<string, seq<string>>

    function Value(): LocationValue
      reads this
    {
      LocationValue(locationName, onSiteEquipments, sublocationNames, sublocationEquipments)
    }

    ghost predicate Valid()
      reads this
    {
      ValidValue(Value())
    }

    /** LocationData(name): no equipment, no sublocation. */
    constructor (locationName: string)
      ensures Valid() && Value() == LocationValue(locationName, [], [], map[])
    {
      this.locationName := locationName;
      onSiteEquipments := [];
      sublocationNames := [];
      sublocationEquipments := map[];
    }

    function OnsiteEquipmentsCount(): nat
      reads this
    {
      |onSiteEquipments|
    }

    /** getSublocationsCount: the number of keys, emptied sublocations included. */
    function SublocationsCount(): (r: nat)
      reads this
      requires Valid()
      ensures r == |sublocationEquipments.Keys|
    {
      DistinctCardinality(sublocationNames);
      assert sublocationEquipments.Keys == set x | x in sublocationNames;
      |sublocationNames|
    }

    /** getTotalOffSiteEquipmentsSublocationsCount: the loop over the map's lists. */
    method TotalOffSiteEquipmentsSublocationsCount() returns (total: nat)
      requires Valid()
      ensures total == OffSiteTotal(sublocationNames, sublocationEquipments)
      ensures total == |Flatten(sublocationNames, sublocationEquipments)|
    {
      total := 0;
      var i := 0;
      while i < |sublocationNames|
        invariant 0 <= i <= |sublocationNames|
        invariant total == OffSiteTotal(sublocationNames[..i], sublocationEquipments)
      {
        assert sublocationNames[..i + 1][..i] == sublocationNames[..i];
        total := total + |sublocationEquipments[sublocationNames[i]]|;
        i := i + 1;
      }
      assert sublocationNames[..i] == sublocationNames;
      OffSiteTotalCounts(sublocationNames, sublocationEquipments);
    }

    /** getTotalEquipmentsCount: on-site plus off-site, the number of all the location's units. */
    method TotalEquipmentsCount() returns (total: nat)
      requires Valid()
      ensures total == |onSiteEquipments| + OffSiteTotal(sublocationNames, sublocationEquipments)
      ensures total == |Units(Value())|
    {
      var offSite := TotalOffSiteEquipmentsSublocationsCount();
      total := |onSiteEquipments| + offSite;
    }

    /** getOffSiteEquipmentsSublocationCount: only for an existing sublocation (the map lookup of the
        source gives null otherwise). */
    function OffSiteEquipmentsSublocationCount(sublocation: string): nat
      reads this
      requires sublocation in sublocationEquipments
    {
      |sublocationEquipments[sublocation]|
    }

    /** addOffSiteEquipmentToSublocation: always answers true. */
    method AddOffSiteEquipmentToSublocation(sublocation: string, equipment: string) returns (added: bool)
      requires Valid()
      modifies this
      ensures Valid() && added
      ensures Value() == AddOffSite(old(Value()), sublocation, equipment)
    {
      if sublocation in sublocationEquipments {
        sublocationEquipments := sublocationEquipments[sublocation := sublocationEquipments[sublocation] + [equipment]];
      } else {
        sublocationNames := sublocationNames + [sublocation];
        sublocationEquipments := sublocationEquipments[sublocation := [equipment]];
      }
      added := true;
    }

    /** getOnSiteEquipmentsList().add(equipment): the live list gets the unit at its end. */
    method AddOnSite(equipment: string)
      requires Valid()
      modifies this
      ensures Valid() && Value() == old(Value()).(onSite := old(onSiteEquipments) + [equipment])
    {
      onSiteEquipments := onSiteEquipments + [equipment];
    }

    /** getOnSiteEquipmentsList().removeAll(units): the live list loses every element of units. */
    method RemoveAllOnSite(units: seq<string>)
      requires Valid()
      modifies this
      ensures Valid() && Value() == old(Value()).(onSite := RemoveAll(old(onSiteEquipments), units))
    {
      onSiteEquipments := RemoveAll(onSiteEquipments, units);
    }

    /** getOffSiteEquipmentsSublocationsMap().get(s).remove(0): the sublocation's live list loses its
        first unit; the key stays even when the list becomes empty. */
    method RemoveFirstOffSite(sublocation: string)
      requires Valid() && sublocation in sublocationEquipments && |sublocationEquipments[sublocation]| > 0
      modifies this
      ensures Valid()
      ensures Value() == old(Value()).(subLists := old(sublocationEquipments)[sublocation := old(sublocationEquipments)[sublocation][1..]])
    {
      sublocationEquipments := sublocationEquipments[sublocation := sublocationEquipments[sublocation][1..]];
    }
  }
}
