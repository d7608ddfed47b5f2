/**
 * The order in which the priority passes visit the locations, and the off-site draw the
 * sublocations: a copy of the list sorted with the comparator (a, b) -> Integer.compare(key(b), key(a)).
 * List.sort is stable, so the result is the unique order by descending key in which equal keys keep
 * their original order; it is given here as positions into the original list.
 */
module StableOrder {

  /** Position a comes before position b: a larger key, or an equal key and an earlier position. */
  predicate Before(keys: seq<int>, a: nat, b: nat)
    requires a < |keys| && b < |keys|
  {
    keys[a] > keys[b] || (keys[a] == keys[b] && a < b)
  }

  predicate InRange(keys: seq<int>, o: seq<nat>) {
    forall p :: 0 <= p < |o| ==> o[p] < |keys|
  }

  /** Every earlier position in o comes before every later one. */
  ghost predicate Sorted(keys: seq<int>, o: seq<nat>) {
    InRange(keys, o) && forall p, q :: 0 <= p < q < |o| ==> Before(keys, o[p], o[q])
  }

  /** The positions 0 to n - 1 in their own order. */
  function Range(n: nat): (r: seq<nat>)
    ensures |r| == n && forall p :: 0 <= p < n ==> r[p] == p
  {
    seq(n, p => p)
  }

  /** One step of an insertion sort: position i goes after every position whose key is at least its own. */
  function Insert(keys: seq<int>, o: seq<nat>, i: nat): (r: seq<nat>)
    requires InRange(keys, o) && i < |keys|
    ensures InRange(keys, r) && |r| == |o| + 1
  {
    if o == [] || keys[o[0]] < keys[i] then [i] + o
    else [o[0]] + Insert(keys, o[1..], i)
  }

  /** Inserting adds the position and keeps every other. */
  lemma {:induction false} InsertMultiset(keys: seq<int>, o: seq<nat>, i: nat)
    requires InRange(keys, o) && i < |keys|
    ensures multiset(Insert(keys, o, i)) == multiset(o) + multiset{i}
  {
    if !(o == [] || keys[o[0]] < keys[i]) {
      assert o == [o[0]] + o[1..];
      InsertMultiset(keys, o[1..], i);
    }
  }

  /** The first n positions sorted. */
  function SortPrefix(keys: seq<int>, n: nat): (r: seq<nat>)
    requires n <= |keys|
    ensures InRange(keys, r) && |r| == n
  {
    if n == 0 then [] else Insert(keys, SortPrefix(keys, n - 1), n - 1)
  }

  /** The first n positions sorted are a permutation of them. */
  lemma {:induction false} SortPrefixMultiset(keys: seq<int>, n: nat)
    requires n <= |keys|
    ensures multiset(SortPrefix(keys, n)) == multiset(Range(n))
  {
    if n > 0 {
      SortPrefixMultiset(keys, n - 1);
      InsertMultiset(keys, SortPrefix(keys, n - 1), n - 1);
      assert Range(n) == Range(n - 1) + [n - 1];
    }
  }

  /** The order of a stable sort by descending key, as positions. */
  function DescendingOrder(keys: seq<int>): (r: seq<nat>)
    ensures InRange(keys, r) && |r| == |keys|
  {
    SortPrefix(keys, |keys|)
  }

  /** Inserting a position later than all others keeps the order sorted. */
  lemma {:induction false} InsertSorted(keys: seq<int>, o: seq<nat>, i: nat)
    requires Sorted(keys, o) && i < |keys|
    requires forall p :: 0 <= p < |o| ==> o[p] < i
    ensures Sorted(keys, Insert(keys, o, i))
  {
    var r := Insert(keys, o, i);
    if o == [] || keys[o[0]] < keys[i] {
      forall p, q | 0 <= p < q < |r| ensures Before(keys, r[p], r[q]) {
        if p == 0 {
          assert r[q] == o[q - 1];
          assert q - 1 == 0 || Before(keys, o[0], o[q - 1]);
        } else {
          assert r[p] == o[p - 1] && r[q] == o[q - 1];
        }
      }
    } else {
      var tail := o[1..];
      InsertSorted(keys, tail, i);
      var t := Insert(keys, tail, i);
      InsertMultiset(keys, tail, i);
      assert r == [o[0]] + t;
      forall p, q | 0 <= p < q < |r| ensures Before(keys, r[p], r[q]) {
        if p == 0 {
          assert r[q] in multiset(t);
          assert r[q] in multiset(tail) || r[q] == i;
          if r[q] != i {
            var k :| 0 <= k < |tail| && tail[k] == r[q];
            assert o[k + 1] == r[q];
          }
        } else {
          assert r[p] == t[p - 1] && r[q] == t[q - 1];
        }
      }
    }
  }

  lemma {:induction false} SortPrefixSorted(keys: seq<int>, n: nat)
    requires n <= |keys|
    ensures Sorted(keys, SortPrefix(keys, n))
  {
    if n > 0 {
      var o := SortPrefix(keys, n - 1);
      SortPrefixSorted(keys, n - 1);
      SortPrefixBelow(keys, n - 1);
      InsertSorted(keys, o, n - 1);
    }
  }

  /** The first n positions sorted are all below n. */
  lemma SortPrefixBelow(keys: seq<int>, n: nat)
    requires n <= |keys|
    ensures forall p :: 0 <= p < |SortPrefix(keys, n)| ==> SortPrefix(keys, n)[p] < n
  {
    var o := SortPrefix(keys, n);
    SortPrefixMultiset(keys, n);
    forall p | 0 <= p < |o| ensures o[p] < n {
      assert o[p] in multiset(Range(n));
    }
  }

  /** The visiting order is a permutation of the positions, by descending key, and positions with
      equal keys keep their original order. */
  lemma DescendingOrderSpec(keys: seq<int>)
    ensures var o := DescendingOrder(keys);
      |o| == |keys|
      && (forall p :: 0 <= p < |keys| ==> p in o)
      && (forall p, q :: 0 <= p < q < |o| ==> o[p] != o[q])
      && (forall p, q :: 0 <= p < q < |o| ==> keys[o[p]] >= keys[o[q]])
      && (forall p, q :: 0 <= p < q < |o| && keys[o[p]] == keys[o[q]] ==> o[p] < o[q])
  {
    var o := DescendingOrder(keys);
    SortPrefixSorted(keys, |keys|);
    SortPrefixMultiset(keys, |keys|);
    forall p | 0 <= p < |keys| ensures p in o {
      assert Range(|keys|)[p] == p;
      assert p in multiset(Range(|keys|));
    }
    forall p, q | 0 <= p < q < |o| ensures o[p] != o[q] {
      assert Before(keys, o[p], o[q]);
    }
  }
}
