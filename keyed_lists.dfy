/**
 * A LinkedHashMap from names to lists, as the scheduler uses it: the keys in insertion order beside
 * a map, and the concatenation of the lists in key order.
 */
module KeyedLists {

  /** No element occurs twice: each element is not among the ones before it. */
  predicate Distinct<T(==)>(s: seq<T>) {
    s == [] || (Distinct(s[..|s| - 1]) && s[|s| - 1] !in s[..|s| - 1])
  }

  /** The keys are the map's keys, each once, in insertion order. */
  ghost predicate Keyed<T>(keys: seq<string>, lists: map<string, seq<T>>) {
    Distinct(keys) && (forall k :: k in lists <==> k in keys)
  }

  /** The list of key k; a key without a list has none. */
  function Get<T>(lists: map<string, seq<T>>, k: string): seq<T> {
    if k in lists then lists[k] else []
  }

  /** The lists of the keys, concatenated in key order (iteration over values()). */
  function Flatten<T>(keys: seq<string>, lists: map<string, seq<T>>): seq<T> {
    if keys == [] then []
    else Flatten(keys[..|keys| - 1], lists) + Get(lists, keys[|keys| - 1])
  }

  lemma DistinctInit<T>(s: seq<T>)
    requires Distinct(s) && s != []
    ensures Distinct(s[..|s| - 1])
    ensures s[|s| - 1] !in s[..|s| - 1]
  {
  }

  /** Appending an element that is not there yet keeps the elements distinct. */
  lemma DistinctAppend<T>(s: seq<T>, x: T)
    requires Distinct(s) && x !in s
    ensures Distinct(s + [x])
  {
    assert (s + [x])[..|s|] == s;
  }

  /** Two positions of a sequence without repeats hold different elements. */
  lemma {:induction false} DistinctAt<T>(s: seq<T>, i: nat, j: nat)
    requires Distinct(s) && i < j < |s|
    ensures s[i] != s[j]
  {
    var init := s[..|s| - 1];
    if j == |s| - 1 {
      assert s[i] == init[i];
    } else {
      DistinctAt(init, i, j);
    }
  }

  /** A sequence whose positions hold pairwise different elements has no repeats. */
  lemma {:induction false} DistinctIndices<T>(s: seq<T>)
    requires forall i, j :: 0 <= i < j < |s| ==> s[i] != s[j]
    ensures Distinct(s)
  {
    if s != [] {
      var init := s[..|s| - 1];
      DistinctIndices(init);
      forall i | 0 <= i < |init| ensures init[i] != s[|s| - 1] {
        assert init[i] == s[i];
      }
    }
  }

  /** The concatenation only depends on the lists of the keys. */
  lemma {:induction false} FlattenFrame<T>(keys: seq<string>, lists: map<string, seq<T>>, lists': map<string, seq<T>>)
    requires forall k :: k in keys ==> Get(lists, k) == Get(lists', k)
    ensures Flatten(keys, lists) == Flatten(keys, lists')
  {
    if keys != [] {
      FlattenFrame(keys[..|keys| - 1], lists, lists');
    }
  }

  /** Replacing the list of a key named once replaces its elements in the multiset of all elements. */
  lemma {:induction false} FlattenReplace<T>(keys: seq<string>, lists: map<string, seq<T>>, k: string, l: seq<T>)
    requires Distinct(keys) && k in keys && k in lists
    ensures multiset(Flatten(keys, lists[k := l])) + multiset(lists[k]) == multiset(Flatten(keys, lists)) + multiset(l)
  {
    var last := keys[|keys| - 1];
    var init := keys[..|keys| - 1];
    DistinctInit(keys);
    if last == k {
      FlattenFrame(init, lists, lists[k := l]);
      assert Flatten(keys, lists[k := l]) == Flatten(init, lists[k := l]) + l;
    } else {
      assert k in init;
      FlattenReplace(init, lists, k, l);
      var a := multiset(Flatten(init, lists[k := l]));
      var b := multiset(Flatten(init, lists));
      var c := multiset(Get(lists, last));
      assert multiset(Flatten(keys, lists[k := l])) == a + c;
      assert multiset(Flatten(keys, lists)) == b + c;
      AddToBoth(a, b, c, multiset(lists[k]), multiset(l));
    }
  }

  /** Appending to the list of a key named once adds the appended elements to the multiset. */
  lemma FlattenAppend<T>(keys: seq<string>, lists: map<string, seq<T>>, k: string, t: seq<T>)
    requires Distinct(keys) && k in keys && k in lists
    ensures multiset(Flatten(keys, lists[k := lists[k] + t])) == multiset(Flatten(keys, lists)) + multiset(t)
  {
    var l := lists[k] + t;
    FlattenReplace(keys, lists, k, l);
    var a := multiset(Flatten(keys, lists[k := l]));
    var b := multiset(Flatten(keys, lists));
    assert multiset(l) == multiset(lists[k]) + multiset(t);
    assert b + multiset(l) == (b + multiset(t)) + multiset(lists[k]);
    Cancel(a, b + multiset(t), multiset(lists[k]));
  }

  lemma AddToBoth<T>(a: multiset<T>, b: multiset<T>, c: multiset<T>, m: multiset<T>, n: multiset<T>)
    requires a + m == b + n
    ensures a + c + m == b + c + n
  {
    forall x ensures (a + c + m)[x] == (b + c + n)[x] {
      assert (a + m)[x] == (b + n)[x];
    }
  }

  lemma Cancel<T>(a: multiset<T>, b: multiset<T>, c: multiset<T>)
    requires a + c == b + c
    ensures a == b
  {
    forall x ensures a[x] == b[x] {
      assert (a + c)[x] == (b + c)[x];
    }
  }

  /** A new key goes last, so its list goes at the end of the concatenation. */
  lemma FlattenNewKey<T>(keys: seq<string>, lists: map<string, seq<T>>, k: string, l: seq<T>)
    requires k !in keys
    ensures Flatten(keys + [k], lists[k := l]) == Flatten(keys, lists) + l
  {
    assert (keys + [k])[..|keys|] == keys;
    FlattenFrame(keys, lists, lists[k := l]);
  }

  /** On a sequence without repeats, the cardinality of its set is its length. */
  lemma {:induction false} DistinctCardinality<T>(s: seq<T>)
    requires Distinct(s)
    ensures |set x | x in s| == |s|
  {
    if s != [] {
      var init := s[..|s| - 1];
      DistinctInit(s);
      DistinctCardinality(init);
      assert (set x | x in s) == (set x | x in init) + {s[|s| - 1]};
    }
  }
}
