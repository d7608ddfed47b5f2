/**
 * The file system as the two tree renderers see it, as a value: an entry has a name, is a directory
 * or a file and, when it is a directory, lists its children in the order File.listFiles gives them.
 * Also the order TreeContent sorts a listing in: names compared ignoring case, directories first on
 * request, with a stable sort.
 */
module FileTrees {
  import opened JavaStrings

  /** A java.io.File that exists: its name (getName), whether it is a directory and its children. */
  datatype Entry = Entry(name: string, isDirectory: bool, children: seq<Entry>)

  /** listFiles: the children of a directory; a file lists nothing. */
  function Listing(e: Entry): seq<Entry> {
    if e.isDirectory then e.children else []
  }

  /** A child of a directory is a smaller value than the directory. */
  lemma ChildSmaller(dir: Entry, e: Entry)
    requires e in dir.children
    ensures e < dir
  {
    var k :| 0 <= k < |dir.children| && dir.children[k] == e;
    assert dir.children[k] < dir;
  }

  /** The entries of s that p accepts, in their order (the filter given to listFiles). */
  function Keep(s: seq<Entry>, p: Entry -> bool): (r: seq<Entry>)
    ensures |r| <= |s|
    ensures forall e :: e in r <==> e in s && p(e)
  {
    if s == [] then []
    else (if p(s[0]) then [s[0]] else []) + Keep(s[1..], p)
  }

  /** The filter keeps each accepted entry as often as s holds it, and no copy of the others. */
  lemma {:induction false} KeepCount(s: seq<Entry>, p: Entry -> bool, e: Entry)
    ensures multiset(Keep(s, p))[e] == if p(e) then multiset(s)[e] else 0
  {
    if s != [] {
      KeepCount(s[1..], p, e);
      assert s == [s[0]] + s[1..];
    }
  }

  /** The filter works entry by entry, so the kept entries stay in their order. */
  lemma {:induction false} KeepAppend(a: seq<Entry>, b: seq<Entry>, p: Entry -> bool)
    ensures Keep(a + b, p) == Keep(a, p) + Keep(b, p)
  {
    if a == [] {
      assert a + b == b;
    } else {
      assert (a + b)[1..] == a[1..] + b;
      KeepAppend(a[1..], b, p);
    }
  }

  /** Lexicographic order of strings as String.compareTo(a, b) <= 0: the first differing character
      decides, and a proper prefix comes first. */
  predicate LexLe(a: string, b: string) {
    if a == [] then true
    else if b == [] then false
    else if a[0] != b[0] then a[0] < b[0]
    else LexLe(a[1..], b[1..])
  }

  lemma {:induction false} LexLeTotal(a: string, b: string)
    ensures LexLe(a, b) || LexLe(b, a)
  {
    if a != [] && b != [] && a[0] == b[0] {
      LexLeTotal(a[1..], b[1..]);
    }
  }

  lemma {:induction false} LexLeTransitive(a: string, b: string, c: string)
    requires LexLe(a, b) && LexLe(b, c)
    ensures LexLe(a, c)
  {
    if a != [] && b != [] && c != [] && a[0] == b[0] && b[0] == c[0] {
      LexLeTransitive(a[1..], b[1..], c[1..]);
    }
  }

  /** String.compareToIgnoreCase(a, b) <= 0, with the case of ASCII letters ignored. */
  predicate NameLe(a: string, b: string) {
    LexLe(LowerAscii(a), LowerAscii(b))
  }

  /** The comparator addContent sorts with, read as "a may come before b": with directoriesFirst a
      directory comes before a file; otherwise the names decide, ignoring case. */
  predicate EntryLe(a: Entry, b: Entry, directoriesFirst: bool) {
    if directoriesFirst && a.isDirectory != b.isDirectory then a.isDirectory
    else NameLe(a.name, b.name)
  }

  lemma EntryLeTotal(a: Entry, b: Entry, directoriesFirst: bool)
    ensures EntryLe(a, b, directoriesFirst) || EntryLe(b, a, directoriesFirst)
  {
    LexLeTotal(LowerAscii(a.name), LowerAscii(b.name));
  }

  lemma EntryLeTransitive(a: Entry, b: Entry, c: Entry, directoriesFirst: bool)
    requires EntryLe(a, b, directoriesFirst) && EntryLe(b, c, directoriesFirst)
    ensures EntryLe(a, c, directoriesFirst)
  {
    if !directoriesFirst || (a.isDirectory == b.isDirectory && b.isDirectory == c.isDirectory) {
      LexLeTransitive(LowerAscii(a.name), LowerAscii(b.name), LowerAscii(c.name));
    }
  }

  predicate SortedEntries(s: seq<Entry>, directoriesFirst: bool) {
    forall p, q :: 0 <= p < q < |s| ==> EntryLe(s[p], s[q], directoriesFirst)
  }

  /** One step of a stable insertion sort: x goes after every entry that may come before it. */
  function Insert(o: seq<Entry>, x: Entry, directoriesFirst: bool): (r: seq<Entry>)
    ensures |r| == |o| + 1
  {
    if o == [] || !EntryLe(o[0], x, directoriesFirst) then [x] + o
    else [o[0]] + Insert(o[1..], x, directoriesFirst)
  }

  /** Arrays.sort with the comparator of addContent (a stable sort). */
  function SortEntries(s: seq<Entry>, directoriesFirst: bool): (r: seq<Entry>)
    ensures |r| == |s|
  {
    if s == [] then [] else Insert(SortEntries(s[..|s| - 1], directoriesFirst), s[|s| - 1], directoriesFirst)
  }

  lemma {:induction false} InsertMultiset(o: seq<Entry>, x: Entry, directoriesFirst: bool)
    ensures multiset(Insert(o, x, directoriesFirst)) == multiset(o) + multiset{x}
  {
    if !(o == [] || !EntryLe(o[0], x, directoriesFirst)) {
      assert o == [o[0]] + o[1..];
      InsertMultiset(o[1..], x, directoriesFirst);
    }
  }

  /** Sorting keeps every entry, as often as it was there. */
  lemma {:induction false} SortEntriesPermutation(s: seq<Entry>, directoriesFirst: bool)
    ensures multiset(SortEntries(s, directoriesFirst)) == multiset(s)
  {
    if s != [] {
      SortEntriesPermutation(s[..|s| - 1], directoriesFirst);
      InsertMultiset(SortEntries(s[..|s| - 1], directoriesFirst), s[|s| - 1], directoriesFirst);
      assert s == s[..|s| - 1] + [s[|s| - 1]];
    }
  }

  /** Inserting into a sorted listing keeps it sorted: the case where x goes first. */
  lemma InsertFirstSorted(o: seq<Entry>, x: Entry, directoriesFirst: bool)
    requires SortedEntries(o, directoriesFirst) && o != [] && !EntryLe(o[0], x, directoriesFirst)
    ensures SortedEntries([x] + o, directoriesFirst)
  {
    var r := [x] + o;
    EntryLeTotal(o[0], x, directoriesFirst);
    forall q | 0 < q < |r| ensures EntryLe(r[0], r[q], directoriesFirst) {
      if q > 1 {
        EntryLeTransitive(x, o[0], o[q - 1], directoriesFirst);
      }
    }
  }

  /** Inserting into a sorted listing keeps it sorted. */
  lemma {:induction false} InsertSorted(o: seq<Entry>, x: Entry, directoriesFirst: bool)
    requires SortedEntries(o, directoriesFirst)
    ensures SortedEntries(Insert(o, x, directoriesFirst), directoriesFirst)
  {
    if o == [] {
    } else if !EntryLe(o[0], x, directoriesFirst) {
      InsertFirstSorted(o, x, directoriesFirst);
    } else {
      var t := Insert(o[1..], x, directoriesFirst);
      InsertSorted(o[1..], x, directoriesFirst);
      InsertMultiset(o[1..], x, directoriesFirst);
      var r := [o[0]] + t;
      forall q | 0 < q < |r| ensures EntryLe(r[0], r[q], directoriesFirst) {
        assert r[q] in multiset(t);
        if r[q] != x {
          assert r[q] in multiset(o[1..]);
          var k :| 0 <= k < |o[1..]| && o[1..][k] == r[q];
          assert o[k + 1] == r[q];
        }
      }
    }
  }

  /** The sorted listing is in the comparator's order. */
  lemma {:induction false} SortEntriesSorted(s: seq<Entry>, directoriesFirst: bool)
    ensures SortedEntries(SortEntries(s, directoriesFirst), directoriesFirst)
  {
    if s != [] {
      SortEntriesSorted(s[..|s| - 1], directoriesFirst);
      InsertSorted(SortEntries(s[..|s| - 1], directoriesFirst), s[|s| - 1], directoriesFirst);
    }
  }
}
