/**
 * Capacity mode, the draws: scheduleOnSiteEquipmentForDay and scheduleOffSiteEquipmentForDay take
 * units from the front of a location's live lists, at most ceil(n / 2) of a list of n and at most
 * what the caller allows, and give them back as fragments for the day. A draw gives the number the
 * method returns, the fragments it stages, in order, and the location left behind.
 */
module CapacityDraws {
  import opened KeyedLists
  import opened Locations
  import opened SchedulingMath
  import opened StableOrder
  import opened FixedPlans

  datatype Drawn = Drawn(count: int, fragments: seq<LocationValue>, rest: LocationValue)

  /** scheduleOnSiteEquipmentForDay: the first min(maxEquipment, ceil(n / 2)) on-site units, if
      that is positive, go into one fragment and are removed (removeAll) from the location. */
  function OnSiteForDay(v: LocationValue, maxEquipment: int): Drawn {
    var n := |v.onSite|;
    if n == 0 then Drawn(0, [], v)
    else
      var toSchedule := Min(maxEquipment, Min(CeilHalf(n), n));
      if toSchedule > 0 then
        var taken := v.onSite[..toSchedule];
        Drawn(toSchedule, [OnSiteCopy(v.name, taken)], v.(onSite := RemoveAll(v.onSite, taken)))
      else
        Drawn(toSchedule, [], v)
  }

  /** The count never exceeds ceil(n / 2), nor the allowance when there is something on site; with
      a positive allowance something is drawn; a fragment is staged only when something is drawn,
      and it holds the first count units; only the on-site list changes, and it loses at least
      those units. */
  lemma OnSiteForDaySpec(v: LocationValue, maxEquipment: int)
    ensures var d := OnSiteForDay(v, maxEquipment);
      var n := |v.onSite|;
      d.count <= CeilHalf(n)
      && (n > 0 ==> d.count <= maxEquipment)
      && (n > 0 && maxEquipment > 0 ==> d.count > 0)
      && (d.count > 0 ==> d.fragments == [OnSiteCopy(v.name, v.onSite[..d.count])])
      && (d.count <= 0 ==> d.fragments == [] && d.rest == v)
      && d.rest == v.(onSite := d.rest.onSite)
      && (d.count > 0 ==> |d.rest.onSite| <= n - d.count)
  {
    var d := OnSiteForDay(v, maxEquipment);
    if d.count > 0 {
      RemoveAllShorter(v.onSite, v.onSite[..d.count], d.count);
    }
  }

  /** On a list without repeats, the draw takes the first count units, in order, into its
      fragment and leaves the others, in order, on site. */
  lemma OnSiteForDayDrains(v: LocationValue, maxEquipment: int)
    requires Distinct(v.onSite)
    ensures var d := OnSiteForDay(v, maxEquipment);
      var k := if d.count > 0 then d.count else 0;
      k <= |v.onSite| && UnitsOf(d.fragments) == v.onSite[..k] && d.rest.onSite == v.onSite[k..]
  {
    var d := OnSiteForDay(v, maxEquipment);
    if d.count > 0 {
      RemoveAllPrefix(v.onSite, d.count);
      UnitsOfSingle(OnSiteCopy(v.name, v.onSite[..d.count]));
    } else {
      assert v.onSite[0..] == v.onSite;
    }
  }

  /** The sizes of the sublocation lists in key order: the sort key of the off-site draw. */
  function SubSizes(v: LocationValue): (r: seq<int>)
    ensures |r| == |v.subNames|
    ensures forall i :: 0 <= i < |r| ==> r[i] == |Get(v.subLists, v.subNames[i])|
  {
    seq(|v.subNames|, i requires 0 <= i < |v.subNames| => |Get(v.subLists, v.subNames[i])|)
  }

  /** The loop of scheduleOffSiteEquipmentForDay over the sublocations in the given order (positions
      in the key order): it stops when the allowance is used up, skips empty lists, and otherwise
      moves the first min(allowance, ceil(n / 2)) units of the list into a fragment of their own. */
  function DrawSublocations(v: LocationValue, order: seq<nat>, maxEquipment: int): Drawn
    requires forall p :: 0 <= p < |order| ==> order[p] < |v.subNames|
    decreases |order|, 1
  {
    if order == [] || maxEquipment <= 0 then Drawn(0, [], v) else DrawSublocationsTurn(v, order, maxEquipment)
  }

  /** The sublocation loop with a sublocation left and allowance to spend: its turn, then the rest. */
  function DrawSublocationsTurn(v: LocationValue, order: seq<nat>, maxEquipment: int): Drawn
    requires forall p :: 0 <= p < |order| ==> order[p] < |v.subNames|
    requires order != [] && maxEquipment > 0
    decreases |order|, 0
  {
    var s := v.subNames[order[0]];
    var units := Get(v.subLists, s);
    if units == [] then DrawSublocations(v, order[1..], maxEquipment)
    else
      var k := Min(maxEquipment, Min(CeilHalf(|units|), |units|));
      var d := DrawSublocations(v.(subLists := v.subLists[s := units[k..]]), order[1..], maxEquipment - k);
      Drawn(k + d.count, [OffSiteCopy(v.name, s, units[..k])] + d.fragments, d.rest)
  }

  /** One turn of the sublocation loop with allowance left. */
  lemma DrawSublocationsStep(v: LocationValue, order: seq<nat>, maxEquipment: int)
    requires forall p :: 0 <= p < |order| ==> order[p] < |v.subNames|
    requires order != [] && maxEquipment > 0
    ensures var s := v.subNames[order[0]];
      var units := Get(v.subLists, s);
      var k := Min(maxEquipment, Min(CeilHalf(|units|), |units|));
      DrawSublocations(v, order, maxEquipment)
        == if units == [] then DrawSublocations(v, order[1..], maxEquipment)
           else
             var d := DrawSublocations(v.(subLists := v.subLists[s := units[k..]]), order[1..], maxEquipment - k);
             Drawn(k + d.count, [OffSiteCopy(v.name, s, units[..k])] + d.fragments, d.rest)
  {
    assert DrawSublocations(v, order, maxEquipment) == DrawSublocationsTurn(v, order, maxEquipment);
  }

  /** scheduleOffSiteEquipmentForDay: nothing without off-site units, else the sublocations by
      descending list size, ties in key order. */
  function OffSiteForDay(v: LocationValue, maxEquipment: int): Drawn {
    if OffSiteTotal(v.subNames, v.subLists) == 0 then Drawn(0, [], v)
    else DrawSublocations(v, DescendingOrder(SubSizes(v)), maxEquipment)
  }

  lemma OffSiteCopyUnits(name: string, sublocation: string, units: seq<string>)
    ensures Units(OffSiteCopy(name, sublocation, units)) == units
    ensures UnitsOf([OffSiteCopy(name, sublocation, units)]) == units
  {
    var f := OffSiteCopy(name, sublocation, units);
    assert Flatten([sublocation], f.subLists) == Flatten([], f.subLists) + units;
    UnitsOfSingle(f);
  }

  /** The draw takes no more than the allowance, nothing without one, and exactly as many units as
      it reports; only the sublocation lists change. */
  lemma {:induction false} DrawSublocationsCount(v: LocationValue, order: seq<nat>, maxEquipment: int)
    requires forall p :: 0 <= p < |order| ==> order[p] < |v.subNames|
    ensures var d := DrawSublocations(v, order, maxEquipment);
      (maxEquipment > 0 ==> 0 <= d.count <= maxEquipment)
      && (maxEquipment <= 0 ==> d.count == 0 && d.fragments == [])
      && |UnitsOf(d.fragments)| == d.count
      && d.rest == v.(subLists := d.rest.subLists)
    decreases |order|
  {
    if order != [] && maxEquipment > 0 {
      DrawSublocationsStep(v, order, maxEquipment);
      var s := v.subNames[order[0]];
      var units := Get(v.subLists, s);
      if units == [] {
        DrawSublocationsCount(v, order[1..], maxEquipment);
      } else {
        var k := Min(maxEquipment, Min(CeilHalf(|units|), |units|));
        var v' := v.(subLists := v.subLists[s := units[k..]]);
        var d := DrawSublocations(v', order[1..], maxEquipment - k);
        DrawSublocationsCount(v', order[1..], maxEquipment - k);
        OffSiteCopyUnits(v.name, s, units[..k]);
        UnitsOfConcat([OffSiteCopy(v.name, s, units[..k])], d.fragments);
      }
    }
  }

  /** A well-formed location stays well-formed, and every unit it loses is in the fragments: the
      fragments and what is left hold the units of the location, each as often as before. */
  lemma {:induction false} DrawSublocationsUnits(v: LocationValue, order: seq<nat>, maxEquipment: int)
    requires ValidValue(v) && forall p :: 0 <= p < |order| ==> order[p] < |v.subNames|
    ensures var d := DrawSublocations(v, order, maxEquipment);
      ValidValue(d.rest) && multiset(UnitsOf(d.fragments)) + multiset(Units(d.rest)) == multiset(Units(v))
    decreases |order|, 1
  {
    if order != [] && maxEquipment > 0 {
      var s := v.subNames[order[0]];
      var units := Get(v.subLists, s);
      if units == [] {
        DrawSkipped(v, order, maxEquipment);
        DrawSublocationsUnits(v, order[1..], maxEquipment);
      } else {
        var k := Min(maxEquipment, Min(CeilHalf(|units|), |units|));
        TakeBounds(maxEquipment, |units|, k);
        DrawTakenUnits(v, order, maxEquipment, s, units, k, v.(subLists := v.subLists[s := units[k..]]));
      }
    } else {
      assert UnitsOf([]) == [];
    }
  }

  /** The same for a turn that takes units: the turn and the rest of the loop each conserve them. */
  lemma {:induction false} DrawTakenUnits(v: LocationValue, order: seq<nat>, maxEquipment: int, s: string, units: seq<string>,
                                          k: int, v': LocationValue)
    requires ValidValue(v) && forall p :: 0 <= p < |order| ==> order[p] < |v.subNames|
    requires order != [] && maxEquipment > 0
    requires s == v.subNames[order[0]] && units == Get(v.subLists, s) && units != []
    requires k == Min(maxEquipment, Min(CeilHalf(|units|), |units|)) && 0 < k <= |units|
    requires v' == v.(subLists := v.subLists[s := units[k..]])
    ensures var d := DrawSublocations(v, order, maxEquipment);
      ValidValue(d.rest) && multiset(UnitsOf(d.fragments)) + multiset(Units(d.rest)) == multiset(Units(v))
    decreases |order|, 0
  {
    DrawTaken(v, order, maxEquipment, s, units, k, v');
    DrawSublocationsUnits(v', order[1..], maxEquipment - k);
    DrawnFirst(v, s, k);
    var d := DrawSublocations(v', order[1..], maxEquipment - k);
    OffSiteCopyUnits(v.name, s, units[..k]);
    UnitsOfConcat([OffSiteCopy(v.name, s, units[..k])], d.fragments);
    ChainDrawUnits(units[..k], UnitsOf([OffSiteCopy(v.name, s, units[..k])]), UnitsOf(d.fragments), Units(v'), Units(d.rest), Units(v));
  }

  /** Units conserved by a turn and then by the rest of the loop are conserved by both. */
  lemma ChainDrawUnits(taken: seq<string>, first: seq<string>, more: seq<string>, middle: seq<string>, last: seq<string>,
                       all: seq<string>)
    requires first == taken && multiset(taken) + multiset(middle) == multiset(all)
    requires multiset(more) + multiset(last) == multiset(middle)
    ensures multiset(first + more) + multiset(last) == multiset(all)
  {
    assert multiset(first + more) == multiset(first) + multiset(more);
  }

  /** Moving the first k units of sublocation s out of the location. */
  lemma DrawnFirst(v: LocationValue, s: string, k: int)
    requires ValidValue(v) && s in v.subNames && 0 <= k <= |Get(v.subLists, s)|
    ensures var units := Get(v.subLists, s);
      var v' := v.(subLists := v.subLists[s := units[k..]]);
      ValidValue(v') && multiset(units[..k]) + multiset(Units(v')) == multiset(Units(v))
  {
    var units := Get(v.subLists, s);
    var lists' := v.subLists[s := units[k..]];
    var v' := v.(subLists := lists');
    assert ValidValue(v') by {
      assert s in v.subLists;
      assert lists'.Keys == v.subLists.Keys;
    }
    assert s in v.subLists;
    var before := multiset(Flatten(v.subNames, v.subLists));
    var after := multiset(Flatten(v.subNames, lists'));
    DrawnHeadCancels(v.subNames, v.subLists, s, k);
    assert multiset(Units(v')) == multiset(v.onSite) + after;
    assert multiset(Units(v)) == multiset(v.onSite) + before;
  }

  /** Cutting the first k units from the list of key s leaves the flattened lists short of exactly those. */
  lemma DrawnHeadCancels(keys: seq<string>, lists: map<string, seq<string>>, s: string, k: int)
    requires Distinct(keys) && s in keys && s in lists && 0 <= k <= |lists[s]|
    ensures multiset(Flatten(keys, lists[s := lists[s][k..]])) + multiset(lists[s][..k]) == multiset(Flatten(keys, lists))
  {
    var units := lists[s];
    var before := multiset(Flatten(keys, lists));
    var after := multiset(Flatten(keys, lists[s := units[k..]]));
    var drawn := multiset(units[..k]);
    FlattenReplace(keys, lists, s, units[k..]);
    assert units == units[..k] + units[k..];
    assert multiset(units) == drawn + multiset(units[k..]);
    Cancel(after + drawn, before, multiset(units[k..]));
  }

  /** A sublocation the order never names keeps its list. */
  lemma {:induction false} DrawSublocationsUntouched(v: LocationValue, order: seq<nat>, maxEquipment: int, s: string)
    requires forall p :: 0 <= p < |order| ==> order[p] < |v.subNames|
    requires forall p :: 0 <= p < |order| ==> v.subNames[order[p]] != s
    ensures Get(DrawSublocations(v, order, maxEquipment).rest.subLists, s) == Get(v.subLists, s)
    decreases |order|
  {
    if order != [] && maxEquipment > 0 {
      var s0 := v.subNames[order[0]];
      var units := Get(v.subLists, s0);
      if units == [] {
        DrawSublocationsUntouched(v, order[1..], maxEquipment, s);
      } else {
        var k := Min(maxEquipment, Min(CeilHalf(|units|), |units|));
        DrawSublocationsUntouched(v.(subLists := v.subLists[s0 := units[k..]]), order[1..], maxEquipment - k, s);
      }
    }
  }

  /** A turn of the sublocation loop on an empty list passes it over. */
  lemma DrawSkipped(v: LocationValue, order: seq<nat>, maxEquipment: int)
    requires forall p :: 0 <= p < |order| ==> order[p] < |v.subNames|
    requires order != [] && maxEquipment > 0 && Get(v.subLists, v.subNames[order[0]]) == []
    ensures DrawSublocations(v, order, maxEquipment) == DrawSublocations(v, order[1..], maxEquipment)
  {
    assert DrawSublocations(v, order, maxEquipment) == DrawSublocationsTurn(v, order, maxEquipment);
  }

  /** A turn of the sublocation loop on a list with units: its first k units make a fragment and the
      loop goes on over v'. */
  lemma DrawTaken(v: LocationValue, order: seq<nat>, maxEquipment: int, s0: string, first: seq<string>, k: int,
                  v': LocationValue)
    requires forall p :: 0 <= p < |order| ==> order[p] < |v.subNames|
    requires order != [] && maxEquipment > 0
    requires s0 == v.subNames[order[0]] && first == Get(v.subLists, s0) && first != []
    requires k == Min(maxEquipment, Min(CeilHalf(|first|), |first|)) && v' == v.(subLists := v.subLists[s0 := first[k..]])
    ensures DrawSublocations(v, order, maxEquipment).count == k + DrawSublocations(v', order[1..], maxEquipment - k).count
    ensures DrawSublocations(v, order, maxEquipment).fragments
      == [OffSiteCopy(v.name, s0, first[..k])] + DrawSublocations(v', order[1..], maxEquipment - k).fragments
    ensures DrawSublocations(v, order, maxEquipment).rest == DrawSublocations(v', order[1..], maxEquipment - k).rest
  {
    assert DrawSublocations(v, order, maxEquipment) == DrawSublocationsTurn(v, order, maxEquipment);
  }

  /** What a turn takes from a list of n with an allowance: at least one unit, at most ceil(n / 2),
      the list and the allowance. */
  lemma TakeBounds(allowance: int, n: int, k: int)
    requires allowance > 0 && n > 0 && k == Min(allowance, Min(CeilHalf(n), n))
    ensures 0 < k <= CeilHalf(n) && k <= n && k <= allowance
  {
  }

  /** Visiting each sublocation at most once, the draw takes from every sublocation a front part of
      its list, at most ceil(n / 2) of a list of n: what is left is a suffix of the list. */
  lemma {:induction false} DrawSublocationsHalf(v: LocationValue, order: seq<nat>, maxEquipment: int, s: string)
    requires Distinct(v.subNames) && s in v.subNames
    requires forall p :: 0 <= p < |order| ==> order[p] < |v.subNames|
    requires forall p, q :: 0 <= p < q < |order| ==> order[p] != order[q]
    ensures var units := Get(v.subLists, s);
      var left := Get(DrawSublocations(v, order, maxEquipment).rest.subLists, s);
      |units| - CeilHalf(|units|) <= |left| <= |units| && left == units[|units| - |left|..]
    decreases |order|
  {
    var units := Get(v.subLists, s);
    if order != [] && maxEquipment > 0 {
      var s0 := v.subNames[order[0]];
      var first := Get(v.subLists, s0);
      if first == [] {
        DrawSkipped(v, order, maxEquipment);
        DrawSublocationsHalf(v, order[1..], maxEquipment, s);
      } else {
        var k := Min(maxEquipment, Min(CeilHalf(|first|), |first|));
        var v' := v.(subLists := v.subLists[s0 := first[k..]]);
        DrawTaken(v, order, maxEquipment, s0, first, k, v');
        TakeBounds(maxEquipment, |first|, k);
        if s == s0 {
          DrawnHere(v, order, maxEquipment, s, k, v');
        } else {
          assert Get(v'.subLists, s) == units;
          DrawSublocationsHalf(v', order[1..], maxEquipment - k, s);
        }
      }
    } else {
      assert units[0..] == units;
    }
  }

  /** The sublocation drawn from first: it keeps what the turn left, since the order never names it again. */
  lemma DrawnHere(v: LocationValue, order: seq<nat>, maxEquipment: int, s: string, k: int, v': LocationValue)
    requires Distinct(v.subNames)
    requires forall p :: 0 <= p < |order| ==> order[p] < |v.subNames|
    requires forall p, q :: 0 <= p < q < |order| ==> order[p] != order[q]
    requires order != [] && s == v.subNames[order[0]] && 0 <= k <= |Get(v.subLists, s)|
    requires v' == v.(subLists := v.subLists[s := Get(v.subLists, s)[k..]])
    ensures Get(DrawSublocations(v', order[1..], maxEquipment - k).rest.subLists, s) == Get(v.subLists, s)[k..]
  {
    forall p | 0 <= p < |order[1..]| ensures v'.subNames[order[1..][p]] != s {
      assert order[1..][p] == order[p + 1] != order[0];
      if order[0] < order[p + 1] {
        DistinctAt(v.subNames, order[0], order[p + 1]);
      } else {
        DistinctAt(v.subNames, order[p + 1], order[0]);
      }
    }
    DrawSublocationsUntouched(v', order[1..], maxEquipment - k, s);
  }

  /** With an allowance, a sublocation with units on the order means something is drawn. */
  lemma {:induction false} DrawSublocationsProgress(v: LocationValue, order: seq<nat>, maxEquipment: int, p: nat)
    requires forall q :: 0 <= q < |order| ==> order[q] < |v.subNames|
    requires maxEquipment > 0 && p < |order| && Get(v.subLists, v.subNames[order[p]]) != []
    ensures DrawSublocations(v, order, maxEquipment).count > 0
    decreases |order|
  {
    var s0 := v.subNames[order[0]];
    var units := Get(v.subLists, s0);
    if units == [] {
      assert p > 0;
      DrawSublocationsProgress(v, order[1..], maxEquipment, p - 1);
    } else {
      var k := Min(maxEquipment, Min(CeilHalf(|units|), |units|));
      DrawSublocationsCount(v.(subLists := v.subLists[s0 := units[k..]]), order[1..], maxEquipment - k);
    }
  }

  /** Some sublocation holds a unit when the off-site count is positive. */
  lemma {:induction false} SomeSublocationHolds(names: seq<string>, lists: map<string, seq<string>>) returns (i: nat)
    requires OffSiteTotal(names, lists) > 0
    ensures i < |names| && Get(lists, names[i]) != []
  {
    var init := names[..|names| - 1];
    if Get(lists, names[|names| - 1]) != [] {
      i := |names| - 1;
    } else {
      i := SomeSublocationHolds(init, lists);
      assert init[i] == names[i];
    }
  }

  /** The off-site draw for a day: the same bounds as the loop over the sublocations; nothing is
      drawn from a location without off-site units, and with an allowance something is drawn from
      one that has some. */
  lemma OffSiteForDaySpec(v: LocationValue, maxEquipment: int)
    ensures var d := OffSiteForDay(v, maxEquipment);
      (maxEquipment > 0 ==> 0 <= d.count <= maxEquipment)
      && (maxEquipment <= 0 ==> d.count == 0 && d.fragments == [])
      && |UnitsOf(d.fragments)| == d.count
      && d.rest == v.(subLists := d.rest.subLists)
      && (OffSiteTotal(v.subNames, v.subLists) == 0 ==> d == Drawn(0, [], v))
      && (OffSiteTotal(v.subNames, v.subLists) > 0 && maxEquipment > 0 ==> d.count > 0)
  {
    if OffSiteTotal(v.subNames, v.subLists) > 0 {
      var keys := SubSizes(v);
      var order := DescendingOrder(keys);
      DrawSublocationsCount(v, order, maxEquipment);
      if maxEquipment > 0 {
        var i := SomeSublocationHolds(v.subNames, v.subLists);
        DescendingOrderSpec(keys);
        assert i in order;
        var p :| 0 <= p < |order| && order[p] == i;
        DrawSublocationsProgress(v, order, maxEquipment, p);
      }
    } else {
      assert UnitsOf([]) == [];
    }
  }

  /** The off-site draw keeps a location well-formed and loses none of its units, and it leaves
      each sublocation a suffix of its list, having taken at most ceil(n / 2) of a list of n. */
  lemma OffSiteForDayUnits(v: LocationValue, maxEquipment: int)
    requires ValidValue(v)
    ensures var d := OffSiteForDay(v, maxEquipment);
      ValidValue(d.rest) && multiset(UnitsOf(d.fragments)) + multiset(Units(d.rest)) == multiset(Units(v))
      && forall s :: s in v.subNames ==>
           var units := Get(v.subLists, s);
           var left := Get(d.rest.subLists, s);
           |units| - CeilHalf(|units|) <= |left| <= |units| && left == units[|units| - |left|..]
  {
    var d := OffSiteForDay(v, maxEquipment);
    if OffSiteTotal(v.subNames, v.subLists) > 0 {
      var order := DescendingOrder(SubSizes(v));
      assert d == DrawSublocations(v, order, maxEquipment);
      DrawSublocationsUnits(v, order, maxEquipment);
      DescendingOrderSpec(SubSizes(v));
      DrawSublocationsHalves(v, order, maxEquipment);
    } else {
      assert d == Drawn(0, [], v);
      assert UnitsOf([]) == [];
      forall s | s in v.subNames
        ensures Get(v.subLists, s) == Get(v.subLists, s)[|Get(v.subLists, s)| - |Get(v.subLists, s)|..]
      {
        assert Get(v.subLists, s)[0..] == Get(v.subLists, s);
      }
    }
  }

  /** DrawSublocationsHalf for every sublocation at once. */
  lemma DrawSublocationsHalves(v: LocationValue, order: seq<nat>, maxEquipment: int)
    requires Distinct(v.subNames)
    requires forall p :: 0 <= p < |order| ==> order[p] < |v.subNames|
    requires forall p, q :: 0 <= p < q < |order| ==> order[p] != order[q]
    ensures var d := DrawSublocations(v, order, maxEquipment);
      forall s :: s in v.subNames ==>
        var units := Get(v.subLists, s);
        var left := Get(d.rest.subLists, s);
        |units| - CeilHalf(|units|) <= |left| <= |units| && left == units[|units| - |left|..]
  {
    var d := DrawSublocations(v, order, maxEquipment);
    forall s | s in v.subNames
      ensures var units := Get(v.subLists, s);
        var left := Get(d.rest.subLists, s);
        |units| - CeilHalf(|units|) <= |left| <= |units| && left == units[|units| - |left|..]
    {
      DrawSublocationsHalf(v, order, maxEquipment, s);
    }
  }

  /** A location listing the same unit twice: one day's draw takes one copy and removeAll drops
      both, so the other copy is never scheduled. */
  lemma RepeatedUnitDropped()
    ensures var v := LocationValue("L", ["e", "e"], [], map[]);
      var d := OnSiteForDay(v, 10);
      d.count == 1 && d.fragments == [OnSiteCopy("L", ["e"])] && d.rest.onSite == []
  {
    var v := LocationValue("L", ["e", "e"], [], map[]);
    assert v.onSite[..1] == ["e"];
    assert v.onSite[1..][1..] == [];
    assert RemoveAll(v.onSite, ["e"]) == [];
  }

  /** The two kinds of equipment a priority pass schedules. */
  datatype Kind = OnSiteKind | OffSiteKind

  /** The remaining count a pass sorts the locations on. */
  function Count(v: LocationValue, kind: Kind): int {
    match kind
    case OnSiteKind => |v.onSite|
    case OffSiteKind => OffSiteTotal(v.subNames, v.subLists)
  }

  /** The per-location draw of a kind. */
  function Draw(v: LocationValue, kind: Kind, maxEquipment: int): Drawn {
    match kind
    case OnSiteKind => OnSiteForDay(v, maxEquipment)
    case OffSiteKind => OffSiteForDay(v, maxEquipment)
  }

  /** A location the draws keep track of: its sublocations are keyed and its on-site list holds
      every unit once (removeAll would otherwise drop the repeats too). */
  ghost predicate Fit(v: LocationValue) {
    ValidValue(v) && Distinct(v.onSite)
  }

  /** w is v after draws of the given kind: only that kind's lists may differ. */
  predicate Touches(kind: Kind, v: LocationValue, w: LocationValue) {
    match kind
    case OnSiteKind => w == v.(onSite := w.onSite)
    case OffSiteKind => w == v.(subLists := w.subLists)
  }

  lemma {:induction false} DistinctDrop(s: seq<string>, k: nat)
    requires Distinct(s) && k <= |s|
    ensures Distinct(s[k..])
  {
    forall i, j | 0 <= i < j < |s[k..]| ensures s[k..][i] != s[k..][j] {
      DistinctAt(s, k + i, k + j);
    }
    DistinctIndices(s[k..]);
  }

  lemma OnSiteForDayUnits(v: LocationValue, maxEquipment: int)
    requires Fit(v)
    ensures var d := OnSiteForDay(v, maxEquipment);
      Fit(d.rest) && multiset(UnitsOf(d.fragments)) + multiset(Units(d.rest)) == multiset(Units(v))
  {
    var d := OnSiteForDay(v, maxEquipment);
    OnSiteForDayDrains(v, maxEquipment);
    OnSiteForDaySpec(v, maxEquipment);
    var k := if d.count > 0 then d.count else 0;
    DistinctDrop(v.onSite, k);
    OnSiteSplit(v, k, d.rest);
  }

  lemma OnSiteSplit(v: LocationValue, k: nat, rest: LocationValue)
    requires k <= |v.onSite| && rest == v.(onSite := v.onSite[k..])
    ensures ValidValue(v) ==> ValidValue(rest)
    ensures multiset(v.onSite[..k]) + multiset(Units(rest)) == multiset(Units(v))
  {
    assert v.onSite == v.onSite[..k] + v.onSite[k..];
    assert Units(v) == v.onSite[..k] + Units(rest);
  }

  /** One draw with an allowance from a location holding units of the kind takes between one unit
      and the allowance, and its fragments hold that many units. */
  lemma DrawCount(v: LocationValue, kind: Kind, maxEquipment: int)
    requires maxEquipment > 0 && Count(v, kind) > 0
    ensures var d := Draw(v, kind, maxEquipment);
      0 < d.count <= maxEquipment && |UnitsOf(d.fragments)| == d.count
  {
    match kind
    case OnSiteKind =>
      OnSiteForDaySpec(v, maxEquipment);
      OnSiteForDayDrains2(v, maxEquipment);
    case OffSiteKind =>
      OffSiteForDaySpec(v, maxEquipment);
  }

  lemma OnSiteForDayDrains2(v: LocationValue, maxEquipment: int)
    ensures var d := OnSiteForDay(v, maxEquipment);
      d.count > 0 ==> UnitsOf(d.fragments) == v.onSite[..d.count]
  {
    var d := OnSiteForDay(v, maxEquipment);
    if d.count > 0 {
      UnitsOfSingle(OnSiteCopy(v.name, v.onSite[..d.count]));
    }
  }

  /** A draw keeps a location fit, changes only its lists of the kind, and loses none of its units. */
  lemma DrawKeeps(v: LocationValue, kind: Kind, maxEquipment: int)
    requires Fit(v)
    ensures var d := Draw(v, kind, maxEquipment);
      Fit(d.rest) && Touches(kind, v, d.rest)
      && multiset(UnitsOf(d.fragments)) + multiset(Units(d.rest)) == multiset(Units(v))
  {
    match kind
    case OnSiteKind =>
      OnSiteForDaySpec(v, maxEquipment);
      OnSiteForDayUnits(v, maxEquipment);
    case OffSiteKind =>
      OffSiteForDaySpec(v, maxEquipment);
      OffSiteForDayUnits(v, maxEquipment);
      assert v.onSite == OffSiteForDay(v, maxEquipment).rest.onSite;
  }

  /** The outcome of a priority pass: how many units it drew, the fragments it staged, in order,
      and the locations afterwards, in the caller's order. */
  datatype Pass = Pass(count: int, fragments: seq<LocationValue>, locations: seq<LocationValue>)

  /** The loop of a priority pass over the locations in the given order (positions in the caller's
      list): a location without units of the kind is passed over; otherwise it is drawn from with
      what is left of the target, and the pass stops once the target is reached. */
  function Visit(locations: seq<LocationValue>, order: seq<nat>, kind: Kind, allowance: int): Pass
    requires forall p :: 0 <= p < |order| ==> order[p] < |locations|
    decreases |order|, 1
  {
    if order == [] then Pass(0, [], locations) else VisitFirst(locations, order, kind, allowance)
  }

  /** A pass with a turn left: the turn at the first position of the order, then the rest. */
  function VisitFirst(locations: seq<LocationValue>, order: seq<nat>, kind: Kind, allowance: int): Pass
    requires forall p :: 0 <= p < |order| ==> order[p] < |locations|
    requires order != []
    decreases |order|, 0
  {
    var i := order[0];
    if Count(locations[i], kind) > 0 then
      var d := Draw(locations[i], kind, allowance);
      var after := locations[i := d.rest];
      if d.count >= allowance then Pass(d.count, d.fragments, after)
      else
        var r := Visit(after, order[1..], kind, allowance - d.count);
        Pass(d.count + r.count, d.fragments + r.fragments, r.locations)
    else Visit(locations, order[1..], kind, allowance)
  }

  /** A turn at a location without units of the kind passes over it. */
  lemma VisitSkips(locations: seq<LocationValue>, order: seq<nat>, kind: Kind, allowance: int)
    requires forall p :: 0 <= p < |order| ==> order[p] < |locations|
    requires order != [] && Count(locations[order[0]], kind) == 0
    ensures Visit(locations, order, kind, allowance) == Visit(locations, order[1..], kind, allowance)
  {
    assert Visit(locations, order, kind, allowance) == VisitFirst(locations, order, kind, allowance);
  }

  /** A turn whose draw reaches the allowance ends the pass. */
  lemma VisitStops(locations: seq<LocationValue>, order: seq<nat>, kind: Kind, allowance: int, d: Drawn)
    requires forall p :: 0 <= p < |order| ==> order[p] < |locations|
    requires order != [] && Count(locations[order[0]], kind) > 0
    requires d == Draw(locations[order[0]], kind, allowance) && d.count >= allowance
    ensures Visit(locations, order, kind, allowance) == Pass(d.count, d.fragments, locations[order[0] := d.rest])
  {
    assert Visit(locations, order, kind, allowance) == VisitFirst(locations, order, kind, allowance);
  }

  /** A turn whose draw falls short of the allowance hands what is left to the remaining turns. */
  lemma VisitGoesOn(locations: seq<LocationValue>, order: seq<nat>, kind: Kind, allowance: int, d: Drawn,
                    after: seq<LocationValue>, next: seq<nat>, remaining: int)
    requires forall p :: 0 <= p < |order| ==> order[p] < |locations|
    requires order != [] && Count(locations[order[0]], kind) > 0
    requires d == Draw(locations[order[0]], kind, allowance) && d.count < allowance
    requires after == locations[order[0] := d.rest] && next == order[1..] && remaining == allowance - d.count
    ensures var r := Visit(after, next, kind, remaining);
      Visit(locations, order, kind, allowance) == Pass(d.count + r.count, d.fragments + r.fragments, r.locations)
  {
    assert Visit(locations, order, kind, allowance) == VisitFirst(locations, order, kind, allowance);
  }

  /** A pass over a single location whose draw falls short of the allowance is that draw. */
  lemma VisitSingle(v: LocationValue, kind: Kind, allowance: int)
    requires Count(v, kind) > 0 && Draw(v, kind, allowance).count < allowance
    ensures var d := Draw(v, kind, allowance);
      Visit([v], [0], kind, allowance) == Pass(d.count, d.fragments, [d.rest])
  {
    var d := Draw(v, kind, allowance);
    assert [0][1..] == [] && [v][0 := d.rest] == [d.rest];
    assert Visit([v], [0], kind, allowance) == VisitFirst([v], [0], kind, allowance);
    assert d.fragments + [] == d.fragments;
  }

  /** The counts the pass sorts on, in the caller's order. */
  function Counts(locations: seq<LocationValue>, kind: Kind): (r: seq<int>)
    ensures |r| == |locations| && forall i :: 0 <= i < |r| ==> r[i] == Count(locations[i], kind)
  {
    seq(|locations|, i requires 0 <= i < |locations| => Count(locations[i], kind))
  }

  /** scheduleOnSiteEquipmentByPriority and scheduleOffSiteEquipmentByPriority: nothing for a target
      of zero or less, else the loop over a copy of the list sorted by descending count, equal counts
      in the caller's order. */
  function ByPriority(locations: seq<LocationValue>, kind: Kind, target: int): Pass {
    if target <= 0 then Pass(0, [], locations)
    else Visit(locations, DescendingOrder(Counts(locations, kind)), kind, target)
  }

  ghost predicate AllFit(locations: seq<LocationValue>) {
    forall i :: 0 <= i < |locations| ==> Fit(locations[i])
  }

  /** after is locations with only the kind's lists changed, location by location. */
  predicate AllTouch(kind: Kind, locations: seq<LocationValue>, after: seq<LocationValue>) {
    |after| == |locations| && forall i :: 0 <= i < |after| ==> Touches(kind, locations[i], after[i])
  }

  /** Replacing one location changes the units of all of them by the difference. */
  lemma {:induction false} LocationsUnitsReplace(locations: seq<LocationValue>, i: nat, w: LocationValue)
    requires i < |locations|
    ensures multiset(LocationsUnits(locations[i := w])) + multiset(Units(locations[i]))
      == multiset(LocationsUnits(locations)) + multiset(Units(w))
    decreases |locations|
  {
    var n := |locations|;
    var init := locations[..n - 1];
    var after := locations[i := w];
    LocationsUnitsLast(locations);
    LocationsUnitsLast(after);
    if i == n - 1 {
      assert after[..n - 1] == init;
      SwapLast(LocationsUnits(init), Units(w), Units(locations[i]));
    } else {
      LocationsUnitsReplace(init, i, w);
      assert after[..n - 1] == init[i := w];
      AppendBoth(LocationsUnits(init[i := w]), LocationsUnits(init), Units(locations[n - 1]),
        Units(locations[i]), Units(w));
    }
  }

  /** The units of the locations are those of all but the last, then the last one's. */
  lemma LocationsUnitsLast(locations: seq<LocationValue>)
    requires locations != []
    ensures LocationsUnits(locations) == LocationsUnits(locations[..|locations| - 1]) + Units(locations[|locations| - 1])
  {
  }

  lemma SwapLast(p: seq<string>, a: seq<string>, b: seq<string>)
    ensures multiset(p + a) + multiset(b) == multiset(p + b) + multiset(a)
  {
    assert multiset(p + a) == multiset(p) + multiset(a);
    assert multiset(p + b) == multiset(p) + multiset(b);
  }

  lemma AppendBoth(p: seq<string>, q: seq<string>, c: seq<string>, a: seq<string>, b: seq<string>)
    requires multiset(p) + multiset(a) == multiset(q) + multiset(b)
    ensures multiset(p + c) + multiset(a) == multiset(q + c) + multiset(b)
  {
    calc {
      multiset(p + c) + multiset(a);
      multiset(p) + multiset(c) + multiset(a);
      (multiset(p) + multiset(a)) + multiset(c);
      (multiset(q) + multiset(b)) + multiset(c);
      multiset(q) + multiset(c) + multiset(b);
      multiset(q + c) + multiset(b);
    }
  }

  lemma TouchesTrans(kind: Kind, u: LocationValue, v: LocationValue, w: LocationValue)
    requires Touches(kind, u, v) && Touches(kind, v, w)
    ensures Touches(kind, u, w)
  {
  }

  /** A pass with a positive allowance draws between nothing and the allowance, and its fragments
      hold exactly as many units as it reports. */
  lemma {:induction false} VisitCount(locations: seq<LocationValue>, order: seq<nat>, kind: Kind, allowance: int)
    requires forall p :: 0 <= p < |order| ==> order[p] < |locations|
    requires allowance > 0
    ensures var r := Visit(locations, order, kind, allowance);
      0 <= r.count <= allowance && |UnitsOf(r.fragments)| == r.count && |r.locations| == |locations|
    decreases |order|, 1
  {
    if order == [] {
      assert UnitsOf([]) == [];
    } else if Count(locations[order[0]], kind) > 0 {
      VisitCountDrawn(locations, order, kind, allowance);
    } else {
      VisitSkips(locations, order, kind, allowance);
      VisitCount(locations, order[1..], kind, allowance);
    }
  }

  lemma {:induction false} VisitCountDrawn(locations: seq<LocationValue>, order: seq<nat>, kind: Kind, allowance: int)
    requires forall p :: 0 <= p < |order| ==> order[p] < |locations|
    requires allowance > 0 && order != [] && Count(locations[order[0]], kind) > 0
    ensures var r := Visit(locations, order, kind, allowance);
      0 <= r.count <= allowance && |UnitsOf(r.fragments)| == r.count && |r.locations| == |locations|
    decreases |order|, 0
  {
    var d := Draw(locations[order[0]], kind, allowance);
    DrawCount(locations[order[0]], kind, allowance);
    var after := locations[order[0] := d.rest];
    if d.count < allowance {
      VisitGoesOn(locations, order, kind, allowance, d, after, order[1..], allowance - d.count);
      VisitCount(after, order[1..], kind, allowance - d.count);
      UnitsOfConcat(d.fragments, Visit(after, order[1..], kind, allowance - d.count).fragments);
    } else {
      VisitStops(locations, order, kind, allowance, d);
    }
  }

  /** A pass keeps the locations fit and in place, and changes only their lists of the kind. */
  lemma {:induction false} VisitKeeps(locations: seq<LocationValue>, order: seq<nat>, kind: Kind, allowance: int)
    requires forall p :: 0 <= p < |order| ==> order[p] < |locations|
    requires AllFit(locations)
    ensures var r := Visit(locations, order, kind, allowance);
      AllFit(r.locations) && AllTouch(kind, locations, r.locations)
    decreases |order|, 1
  {
    if order == [] {
    } else if Count(locations[order[0]], kind) > 0 {
      VisitKeepsDrawn(locations, order, kind, allowance);
    } else {
      VisitSkips(locations, order, kind, allowance);
      VisitKeeps(locations, order[1..], kind, allowance);
    }
  }

  lemma {:induction false} VisitKeepsDrawn(locations: seq<LocationValue>, order: seq<nat>, kind: Kind, allowance: int)
    requires forall p :: 0 <= p < |order| ==> order[p] < |locations|
    requires AllFit(locations) && order != [] && Count(locations[order[0]], kind) > 0
    ensures var r := Visit(locations, order, kind, allowance);
      AllFit(r.locations) && AllTouch(kind, locations, r.locations)
    decreases |order|, 0
  {
    var d := Draw(locations[order[0]], kind, allowance);
    var after := locations[order[0] := d.rest];
    DrawKeeps(locations[order[0]], kind, allowance);
    DrawnFit(locations, order[0], kind, allowance);
    TouchOne(kind, locations, order[0], d.rest);
    if d.count < allowance {
      VisitGoesOn(locations, order, kind, allowance, d, after, order[1..], allowance - d.count);
      VisitKeeps(after, order[1..], kind, allowance - d.count);
      TouchChain(kind, locations, after, Visit(after, order[1..], kind, allowance - d.count).locations);
    } else {
      VisitStops(locations, order, kind, allowance, d);
    }
  }

  /** Replacing one location by one with only the kind's lists changed. */
  lemma TouchOne(kind: Kind, locations: seq<LocationValue>, i: nat, w: LocationValue)
    requires i < |locations| && Touches(kind, locations[i], w)
    ensures AllTouch(kind, locations, locations[i := w])
  {
  }

  lemma TouchChain(kind: Kind, locations: seq<LocationValue>, middle: seq<LocationValue>, last: seq<LocationValue>)
    requires AllTouch(kind, locations, middle) && AllTouch(kind, middle, last)
    ensures AllTouch(kind, locations, last)
  {
    forall j | 0 <= j < |last| ensures Touches(kind, locations[j], last[j]) {
      TouchesTrans(kind, locations[j], middle[j], last[j]);
    }
  }

  /** One drawn location: the units of the locations lose exactly the units of the fragments. */
  lemma DrawnLocation(locations: seq<LocationValue>, i: nat, kind: Kind, allowance: int)
    requires i < |locations| && Fit(locations[i])
    ensures var d := Draw(locations[i], kind, allowance);
      multiset(UnitsOf(d.fragments)) + multiset(LocationsUnits(locations[i := d.rest])) == multiset(LocationsUnits(locations))
  {
    var d := Draw(locations[i], kind, allowance);
    var after := locations[i := d.rest];
    DrawKeeps(locations[i], kind, allowance);
    LocationsUnitsReplace(locations, i, d.rest);
    var m := multiset(UnitsOf(d.fragments));
    var rest := multiset(Units(d.rest));
    Cancel(m + multiset(LocationsUnits(after)), multiset(LocationsUnits(locations)), rest);
  }

  /** A pass loses no unit: its fragments and the locations afterwards hold the units the locations
      held before, each as often. */
  lemma {:induction false} VisitUnits(locations: seq<LocationValue>, order: seq<nat>, kind: Kind, allowance: int)
    requires forall p :: 0 <= p < |order| ==> order[p] < |locations|
    requires AllFit(locations)
    ensures var r := Visit(locations, order, kind, allowance);
      multiset(UnitsOf(r.fragments)) + multiset(LocationsUnits(r.locations)) == multiset(LocationsUnits(locations))
    decreases |order|, 1
  {
    if order == [] {
      assert UnitsOf([]) == [];
    } else if Count(locations[order[0]], kind) > 0 {
      VisitUnitsDrawn(locations, order, kind, allowance);
    } else {
      VisitSkips(locations, order, kind, allowance);
      VisitUnits(locations, order[1..], kind, allowance);
    }
  }

  lemma {:induction false} VisitUnitsDrawn(locations: seq<LocationValue>, order: seq<nat>, kind: Kind, allowance: int)
    requires forall p :: 0 <= p < |order| ==> order[p] < |locations|
    requires AllFit(locations) && order != [] && Count(locations[order[0]], kind) > 0
    ensures var r := Visit(locations, order, kind, allowance);
      multiset(UnitsOf(r.fragments)) + multiset(LocationsUnits(r.locations)) == multiset(LocationsUnits(locations))
    decreases |order|, 0
  {
    var d := Draw(locations[order[0]], kind, allowance);
    var after := locations[order[0] := d.rest];
    DrawnLocation(locations, order[0], kind, allowance);
    if d.count >= allowance {
      VisitStops(locations, order, kind, allowance, d);
    } else {
      VisitGoesOn(locations, order, kind, allowance, d, after, order[1..], allowance - d.count);
      DrawnFit(locations, order[0], kind, allowance);
      VisitUnits(after, order[1..], kind, allowance - d.count);
      var r := Visit(after, order[1..], kind, allowance - d.count);
      ChainUnits(d.fragments, r.fragments, after, r.locations, locations);
    }
  }

  lemma DrawnFit(locations: seq<LocationValue>, i: nat, kind: Kind, allowance: int)
    requires AllFit(locations) && i < |locations|
    ensures AllFit(locations[i := Draw(locations[i], kind, allowance).rest])
  {
    DrawKeeps(locations[i], kind, allowance);
  }

  /** Units conserved by a draw and then by the rest of the pass are conserved by both. */
  lemma ChainUnits(first: seq<LocationValue>, more: seq<LocationValue>, middle: seq<LocationValue>,
                   last: seq<LocationValue>, locations: seq<LocationValue>)
    requires multiset(UnitsOf(first)) + multiset(LocationsUnits(middle)) == multiset(LocationsUnits(locations))
    requires multiset(UnitsOf(more)) + multiset(LocationsUnits(last)) == multiset(LocationsUnits(middle))
    ensures multiset(UnitsOf(first + more)) + multiset(LocationsUnits(last)) == multiset(LocationsUnits(locations))
  {
    UnitsOfConcat(first, more);
  }

  /** With an allowance, a pass whose order reaches a location holding units of the kind draws
      something. */
  lemma {:induction false} VisitProgress(locations: seq<LocationValue>, order: seq<nat>, kind: Kind, allowance: int, p: nat)
    requires forall q :: 0 <= q < |order| ==> order[q] < |locations|
    requires allowance > 0 && p < |order| && Count(locations[order[p]], kind) > 0
    ensures Visit(locations, order, kind, allowance).count > 0
    decreases |order|
  {
    if Count(locations[order[0]], kind) > 0 {
      var d := Draw(locations[order[0]], kind, allowance);
      DrawCount(locations[order[0]], kind, allowance);
      var after := locations[order[0] := d.rest];
      if d.count < allowance {
        VisitGoesOn(locations, order, kind, allowance, d, after, order[1..], allowance - d.count);
        VisitCount(after, order[1..], kind, allowance - d.count);
      } else {
        VisitStops(locations, order, kind, allowance, d);
      }
    } else {
      VisitSkips(locations, order, kind, allowance);
      VisitProgress(locations, order[1..], kind, allowance, p - 1);
    }
  }

  /** A priority pass draws nothing for a target of zero or less, and otherwise between nothing and
      the target, exactly as many units as it reports; it draws something when a location holds
      units of the kind. */
  lemma ByPriorityCount(locations: seq<LocationValue>, kind: Kind, target: int)
    ensures var r := ByPriority(locations, kind, target);
      (target <= 0 ==> r == Pass(0, [], locations))
      && 0 <= r.count && (target > 0 ==> r.count <= target)
      && |UnitsOf(r.fragments)| == r.count && |r.locations| == |locations|
      && (target > 0 && (exists i :: 0 <= i < |locations| && Count(locations[i], kind) > 0) ==> r.count > 0)
  {
    if target > 0 {
      var keys := Counts(locations, kind);
      var order := DescendingOrder(keys);
      VisitCount(locations, order, kind, target);
      if exists i :: 0 <= i < |locations| && Count(locations[i], kind) > 0 {
        var i :| 0 <= i < |locations| && Count(locations[i], kind) > 0;
        DescendingOrderSpec(keys);
        assert i in order;
        var p :| 0 <= p < |order| && order[p] == i;
        VisitProgress(locations, order, kind, target, p);
      }
    } else {
      assert UnitsOf([]) == [];
    }
  }

  /** A priority pass keeps the locations fit and in the caller's order, changes only their lists of
      the kind, and loses no unit. */
  lemma ByPriorityUnits(locations: seq<LocationValue>, kind: Kind, target: int)
    requires AllFit(locations)
    ensures var r := ByPriority(locations, kind, target);
      AllFit(r.locations) && AllTouch(kind, locations, r.locations)
      && multiset(UnitsOf(r.fragments)) + multiset(LocationsUnits(r.locations)) == multiset(LocationsUnits(locations))
  {
    if target > 0 {
      var order := DescendingOrder(Counts(locations, kind));
      VisitKeeps(locations, order, kind, target);
      VisitUnits(locations, order, kind, target);
    } else {
      assert UnitsOf([]) == [];
    }
  }
}
