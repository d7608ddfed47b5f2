/**
 * distributeLocationsToTechnicians on the value of a day: every list is emptied into one sequence in
 * key order, then the roster, in order, gets consecutive blocks of ceil(N / T) fragments.
 */
module Distribution {
  import opened KeyedLists
  import opened Locations
  import opened DailySchedules
  import opened SchedulingMath

  /** Every list of the map, emptied. */
  function ClearAll(buckets: map<string, seq<LocationValue>>): (r: map<string, seq<LocationValue>>)
    ensures r.Keys == buckets.Keys && forall t :: t in r ==> r[t] == []
  {
    map t | t in buckets :: []
  }

  /** The index of the next fragment to hand out once j technicians have had their turn. */
  function Start(per: nat, n: nat, j: nat): (r: nat)
    ensures r <= n
  {
    if j == 0 then 0 else Min(Start(per, n, j - 1) + per, n)
  }

  /** Technician j's turn starts at min(j * per, N). */
  lemma {:induction false} StartIs(per: nat, n: nat, j: nat)
    ensures Start(per, n, j) == Min(j * per, n)
  {
    if j > 0 {
      StartIs(per, n, j - 1);
      var before := (j - 1) * per;
      var now := j * per;
      assert now == before + per;
      if before <= n {
        assert Start(per, n, j) == Min(before + per, n);
      } else {
        assert Start(per, n, j) == n;
      }
    }
  }

  /** The block of fragments technician j gets. */
  function Block(all: seq<LocationValue>, per: nat, j: nat): (r: seq<LocationValue>)
    ensures |r| <= per
  {
    all[Start(per, |all|, j)..Start(per, |all|, j + 1)]
  }

  /** The first j blocks are the first j - 1 blocks and block j - 1. */
  lemma BlockSplits(all: seq<LocationValue>, per: nat, j: nat)
    requires j > 0
    ensures all[..Start(per, |all|, j)] == all[..Start(per, |all|, j - 1)] + Block(all, per, j - 1)
  {
    var c := Start(per, |all|, j - 1);
    var e := Start(per, |all|, j);
    assert all[..e] == all[..c] + all[c..e];
  }

  /** The lists after the first j technicians of the roster have had their turn. */
  function HandOut(buckets: map<string, seq<LocationValue>>, roster: seq<string>, all: seq<LocationValue>,
                   per: nat, j: nat): (r: map<string, seq<LocationValue>>)
    requires j <= |roster| && forall t :: t in roster ==> t in buckets
    ensures r.Keys == buckets.Keys
  {
    if j == 0 then buckets
    else
      var b := HandOut(buckets, roster, all, per, j - 1);
      var t := roster[j - 1];
      b[t := b[t] + Block(all, per, j - 1)]
  }

  /** Whether every name of the roster has a list; otherwise get(technician) gives null. */
  predicate RosterKnown(d: DayValue, roster: seq<string>) {
    forall t :: t in roster ==> t in d.buckets
  }

  /** The day after distributeLocationsToTechnicians(day, roster). */
  function Distribute(d: DayValue, roster: seq<string>): (r: DayValue)
    requires ValidDay(d) && (|roster| > 1 ==> RosterKnown(d, roster))
    ensures ValidDay(r) && r.date == d.date && r.technicians == d.technicians && r.buckets.Keys == d.buckets.Keys
  {
    if |roster| <= 1 then d
    else
      var all := Fragments(d);
      d.(buckets := HandOut(ClearAll(d.buckets), roster, all, CeilDiv(|all|, |roster|), |roster|))
  }

  /** Turn j - 1 appends block j - 1 to the list of technician j - 1. */
  lemma HandOutUnfold(buckets: map<string, seq<LocationValue>>, roster: seq<string>,
                      all: seq<LocationValue>, per: nat, j: nat)
    requires 0 < j <= |roster| && forall t :: t in roster ==> t in buckets
    ensures HandOut(buckets, roster, all, per, j)
      == HandOut(buckets, roster, all, per, j - 1)[roster[j - 1] :=
           HandOut(buckets, roster, all, per, j - 1)[roster[j - 1]] + Block(all, per, j - 1)]
  {
  }

  /** One turn adds its block to the lists' fragments. */
  lemma AddsBlock(keys: seq<string>, b: map<string, seq<LocationValue>>, t: string, block: seq<LocationValue>,
                  m0: multiset<LocationValue>, before: seq<LocationValue>)
    requires Distinct(keys) && t in keys && t in b
    requires multiset(Flatten(keys, b)) == m0 + multiset(before)
    ensures multiset(Flatten(keys, b[t := b[t] + block])) == m0 + multiset(before + block)
  {
    FlattenAppend(keys, b, t, block);
  }

  /** Turn j - 1 adds block j - 1: if the lists held the first j - 1 blocks on top of what they
      held, they now hold the first j. */
  lemma HandOutTurnAdds(keys: seq<string>, buckets: map<string, seq<LocationValue>>, roster: seq<string>,
                        all: seq<LocationValue>, per: nat, j: nat)
    requires Keyed(keys, buckets) && 0 < j <= |roster| && forall t :: t in roster ==> t in buckets
    requires multiset(Flatten(keys, HandOut(buckets, roster, all, per, j - 1)))
      == multiset(Flatten(keys, buckets)) + multiset(all[..Start(per, |all|, j - 1)])
    ensures multiset(Flatten(keys, HandOut(buckets, roster, all, per, j)))
      == multiset(Flatten(keys, buckets)) + multiset(all[..Start(per, |all|, j)])
  {
    HandOutUnfold(buckets, roster, all, per, j);
    BlockSplits(all, per, j);
    AddsBlock(keys, HandOut(buckets, roster, all, per, j - 1), roster[j - 1], Block(all, per, j - 1),
              multiset(Flatten(keys, buckets)), all[..Start(per, |all|, j - 1)]);
  }

  /** The hand-out loop adds, over all lists, the fragments handed out so far. */
  lemma {:induction false} HandOutAdds(keys: seq<string>, buckets: map<string, seq<LocationValue>>, roster: seq<string>,
                                       all: seq<LocationValue>, per: nat, j: nat)
    requires Keyed(keys, buckets) && j <= |roster| && forall t :: t in roster ==> t in buckets
    ensures multiset(Flatten(keys, HandOut(buckets, roster, all, per, j)))
      == multiset(Flatten(keys, buckets)) + multiset(all[..Start(per, |all|, j)])
    decreases j, 1
  {
    if j > 0 {
      HandOutAddsAfter(keys, buckets, roster, all, per, j);
    } else {
      NothingHandedOut(all, per, j);
    }
  }

  lemma HandOutAddsAfter(keys: seq<string>, buckets: map<string, seq<LocationValue>>, roster: seq<string>,
                         all: seq<LocationValue>, per: nat, j: nat)
    requires Keyed(keys, buckets) && 0 < j <= |roster| && forall t :: t in roster ==> t in buckets
    ensures multiset(Flatten(keys, HandOut(buckets, roster, all, per, j)))
      == multiset(Flatten(keys, buckets)) + multiset(all[..Start(per, |all|, j)])
    decreases j, 0
  {
    HandOutAdds(keys, buckets, roster, all, per, j - 1);
    HandOutTurnAdds(keys, buckets, roster, all, per, j);
  }

  /** Before any turn, no fragment has been handed out. */
  lemma NothingHandedOut(all: seq<LocationValue>, per: nat, j: nat)
    requires j == 0
    ensures all[..Start(per, |all|, j)] == []
  {
  }

  /** Once every technician has had a turn of ceil(N / T), every fragment has been handed out. */
  lemma HandOutAll(n: nat, t: nat)
    requires t > 0
    ensures Start(CeilDiv(n, t), n, t) == n
  {
    StartIs(CeilDiv(n, t), n, t);
    CeilDivSpec(n, t);
    assert CeilDiv(n, t) * t == t * CeilDiv(n, t);
  }

  /** With more than one technician, the day keeps every fragment, as often as before. */
  lemma DistributeKeepsFragments(d: DayValue, roster: seq<string>)
    requires ValidDay(d) && (|roster| > 1 ==> RosterKnown(d, roster))
    ensures multiset(Fragments(Distribute(d, roster))) == multiset(Fragments(d))
  {
    if |roster| > 1 {
      var all := Fragments(d);
      var per := CeilDiv(|all|, |roster|);
      var cleared := ClearAll(d.buckets);
      HandOutAdds(d.technicians, cleared, roster, all, per, |roster|);
      EmptyBucketsNoFragments(d.technicians, cleared);
      HandOutAll(|all|, |roster|);
      assert all[..|all|] == all;
    }
  }

  /** Turn j gives technician j block j after what it had; no other list changes. */
  lemma HandOutTurn(buckets: map<string, seq<LocationValue>>, roster: seq<string>,
                    all: seq<LocationValue>, per: nat, j: nat, t: string)
    requires j < |roster| && (forall u :: u in roster ==> u in buckets) && t in buckets
    ensures t == roster[j] ==>
      HandOut(buckets, roster, all, per, j + 1)[t] == HandOut(buckets, roster, all, per, j)[t] + Block(all, per, j)
    ensures t != roster[j] ==> HandOut(buckets, roster, all, per, j + 1)[t] == HandOut(buckets, roster, all, per, j)[t]
  {
  }

  /** A technician who has not had a turn among the first j still holds what it had. */
  lemma {:induction false} HandOutOthers(buckets: map<string, seq<LocationValue>>, roster: seq<string>,
                                         all: seq<LocationValue>, per: nat, j: nat, t: string)
    requires j <= |roster| && (forall u :: u in roster ==> u in buckets)
    requires t in buckets && t !in roster[..j]
    ensures HandOut(buckets, roster, all, per, j)[t] == buckets[t]
  {
    if j > 0 {
      var i := j - 1;
      assert roster[..i + 1] == roster[..i] + [roster[i]];
      HandOutOthers(buckets, roster, all, per, i, t);
      HandOutTurn(buckets, roster, all, per, i, t);
    }
  }

  /** With a roster without repeats, technician k, once it has had its turn among the first j,
      holds its block after what it had. */
  lemma {:induction false} HandOutMine(buckets: map<string, seq<LocationValue>>, roster: seq<string>,
                                       all: seq<LocationValue>, per: nat, j: nat, k: nat)
    requires Distinct(roster) && k < j <= |roster| && (forall u :: u in roster ==> u in buckets)
    ensures HandOut(buckets, roster, all, per, j)[roster[k]] == buckets[roster[k]] + Block(all, per, k)
  {
    var i := j - 1;
    var t := roster[k];
    var before := HandOut(buckets, roster, all, per, i);
    var after := HandOut(buckets, roster, all, per, j);
    HandOutTurn(buckets, roster, all, per, i, t);
    if k == i {
      assert after[t] == before[t] + Block(all, per, k);
      assert t !in roster[..i] by {
        forall p | 0 <= p < i ensures roster[p] != roster[i] {
          DistinctAt(roster, p, i);
        }
      }
      HandOutOthers(buckets, roster, all, per, i, t);
    } else {
      DistinctAt(roster, k, i);
      assert after[t] == before[t];
      HandOutMine(buckets, roster, all, per, i, k);
    }
  }

  /** After the whole roster has had its turn on emptied lists, technician k holds block k. */
  lemma BucketIsBlock(roster: seq<string>, all: seq<LocationValue>, per: nat,
                      cleared: map<string, seq<LocationValue>>, k: nat)
    requires Distinct(roster) && k < |roster| && (forall t :: t in roster ==> t in cleared)
    requires forall t :: t in cleared ==> cleared[t] == []
    ensures Get(HandOut(cleared, roster, all, per, |roster|), roster[k]) == Block(all, per, k)
  {
    HandOutMine(cleared, roster, all, per, |roster|, k);
  }

  /** When technician k holds block k, for every k, the lists of the first j technicians put
      together are the first j blocks. */
  lemma {:induction false} BlocksConcat(roster: seq<string>, r: map<string, seq<LocationValue>>,
                                        all: seq<LocationValue>, per: nat, j: nat)
    requires j <= |roster| && forall k :: 0 <= k < |roster| ==> Get(r, roster[k]) == Block(all, per, k)
    ensures Flatten(roster[..j], r) == all[..Start(per, |all|, j)]
  {
    if j > 0 {
      var i := j - 1;
      BlocksConcat(roster, r, all, per, i);
      var keys := roster[..j];
      assert Flatten(keys, r) == Flatten(keys[..|keys| - 1], r) + Get(r, keys[|keys| - 1]);
      assert keys[..|keys| - 1] == roster[..i] && keys[|keys| - 1] == roster[i];
      assert Get(r, roster[i]) == Block(all, per, i);
      BlockSplits(all, per, j);
    }
  }

  /** The lists a distribution over a roster without repeats leaves: technician k holds block k. */
  lemma DistributeGivesBlocks(d: DayValue, roster: seq<string>, k: nat)
    requires ValidDay(d) && |roster| > 1 && d.technicians == roster && k < |roster|
    ensures Get(Distribute(d, roster).buckets, roster[k]) == Block(Fragments(d), CeilDiv(|Fragments(d)|, |roster|), k)
  {
    BucketIsBlock(roster, Fragments(d), CeilDiv(|Fragments(d)|, |roster|), ClearAll(d.buckets), k);
  }

  /** When technician k holds block k, for every k, and the blocks cover every fragment, the lists
      put together are all the fragments. */
  lemma BlocksAll(roster: seq<string>, r: map<string, seq<LocationValue>>, all: seq<LocationValue>, per: nat)
    requires forall k :: 0 <= k < |roster| ==> Get(r, roster[k]) == Block(all, per, k)
    requires Start(per, |all|, |roster|) == |all|
    ensures Flatten(roster, r) == all
  {
    BlocksConcat(roster, r, all, per, |roster|);
    assert roster[..|roster|] == roster;
    assert all[..|all|] == all;
  }

  /** With a roster without repeats that is the day's key order, the lists put together are the
      fragments as they were, in the same order. */
  lemma DistributeConcat(d: DayValue, roster: seq<string>)
    requires ValidDay(d) && |roster| > 1 && d.technicians == roster
    ensures Fragments(Distribute(d, roster)) == Fragments(d)
  {
    var all := Fragments(d);
    var per := CeilDiv(|all|, |roster|);
    var r := Distribute(d, roster).buckets;
    forall k | 0 <= k < |roster| ensures Get(r, roster[k]) == Block(all, per, k) {
      DistributeGivesBlocks(d, roster, k);
    }
    HandOutAll(|all|, |roster|);
    BlocksAll(roster, r, all, per);
  }

  /** With a roster without repeats that is the day's key order, the concatenation of the lists is
      unchanged, technician k holds block k (which starts at min(k * per, N)), and no one holds more
      than per = ceil(N / T). */
  lemma DistributeBlocks(d: DayValue, roster: seq<string>)
    requires ValidDay(d) && |roster| > 1 && d.technicians == roster
    ensures var r := Distribute(d, roster);
      var all := Fragments(d);
      var per := CeilDiv(|all|, |roster|);
      Fragments(r) == all
      && (forall k :: 0 <= k < |roster| ==> Get(r.buckets, roster[k]) == Block(all, per, k))
      && (forall k :: 0 <= k < |roster| ==> |Get(r.buckets, roster[k])| <= per)
  {
    DistributeConcat(d, roster);
    forall k | 0 <= k < |roster|
      ensures Get(Distribute(d, roster).buckets, roster[k]) == Block(Fragments(d), CeilDiv(|Fragments(d)|, |roster|), k)
    {
      DistributeGivesBlocks(d, roster, k);
    }
  }
}
