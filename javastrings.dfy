/**
 * The java.lang.String operations the modelled code relies on, stated over seq<char>.
 * A Java null string that the code tests with isEmpty is modelled as the empty string.
 */
module JavaStrings {

  /** OutilsBase.isEmpty / BasicsHelper.isEmpty: null or of length zero. */
  predicate IsEmpty(s: string) {
    |s| == 0
  }

  /** True when t occurs in s starting at index i. */
  predicate OccursAt(s: string, t: string, i: int) {
    0 <= i && i + |t| <= |s| && forall j {:trigger t[j]} :: 0 <= j < |t| ==> s[i + j] == t[j]
  }

  /** OccursAt, as a slice of s. */
  lemma OccursAtSlice(s: string, t: string, i: int)
    requires 0 <= i && i + |t| <= |s|
    ensures OccursAt(s, t, i) <==> s[i..i + |t|] == t
  {
    if OccursAt(s, t, i) {
      assert forall j :: 0 <= j < |t| ==> s[i..i + |t|][j] == t[j];
    }
    if s[i..i + |t|] == t {
      forall j | 0 <= j < |t|
        ensures s[i + j] == t[j]
      {
        assert s[i..i + |t|][j] == s[i + j];
      }
    }
  }

  /** Leftmost occurrence of t in s at an index >= k, or -1. */
  function FindFrom(s: string, t: string, k: nat): int
    requires k <= |s|
    decreases |s| - k
  {
    if k + |t| > |s| then -1
    else if OccursAt(s, t, k) then k
    else FindFrom(s, t, k + 1)
  }

  /** What FindFrom finds is an occurrence at or after k. */
  lemma {:induction false} FindFromFound(s: string, t: string, k: nat)
    requires k <= |s|
    ensures var r := FindFrom(s, t, k); r == -1 || (k <= r && OccursAt(s, t, r))
    decreases |s| - k
  {
    if k + |t| <= |s| && !OccursAt(s, t, k) {
      FindFromFound(s, t, k + 1);
    }
  }

  /** FindFrom finds the leftmost occurrence, and -1 means there is none. */
  lemma {:induction false} FindFromLeftmost(s: string, t: string, k: nat)
    requires k <= |s|
    ensures FindFrom(s, t, k) == -1 ==> forall i :: k <= i <= |s| ==> !OccursAt(s, t, i)
    ensures FindFrom(s, t, k) != -1 ==> forall i :: k <= i < FindFrom(s, t, k) ==> !OccursAt(s, t, i)
    decreases |s| - k
  {
    if k + |t| <= |s| && !OccursAt(s, t, k) {
      FindFromLeftmost(s, t, k + 1);
    }
  }

  /** String.indexOf(str, fromIndex): a start at or past the end finds only the empty string, at |s|. */
  function IndexOfFrom(s: string, t: string, from: int): (r: int)
    ensures r == -1 || (OccursAt(s, t, r) && (from <= r || (|t| == 0 && r == |s|)))
  {
    if from >= |s| then (if |t| == 0 then |s| else -1)
    else
      var k := if from < 0 then 0 else from;
      FindFromFound(s, t, k);
      FindFrom(s, t, k)
  }

  /** IndexOfFrom finds the leftmost occurrence at or after from, and -1 means there is none. */
  lemma IndexOfFromLeftmost(s: string, t: string, from: int)
    ensures IndexOfFrom(s, t, from) == -1 ==> forall i :: from <= i <= |s| ==> !OccursAt(s, t, i)
    ensures IndexOfFrom(s, t, from) >= 0 ==> forall i :: from <= i < IndexOfFrom(s, t, from) ==> !OccursAt(s, t, i)
  {
    if from < |s| {
      FindFromLeftmost(s, t, if from < 0 then 0 else from);
    }
  }

  /** String.indexOf(str). */
  function IndexOf(s: string, t: string): int {
    IndexOfFrom(s, t, 0)
  }

  /** String.contains. */
  predicate Contains(s: string, t: string) {
    IndexOf(s, t) != -1
  }

  lemma ContainsIff(s: string, t: string)
    ensures Contains(s, t) <==> exists i :: OccursAt(s, t, i)
  {
    IndexOfFromLeftmost(s, t, 0);
    if |s| == 0 && |t| == 0 {
      assert OccursAt(s, t, 0);
    }
  }

  /** A one-character string occurs exactly where that character is. */
  lemma ContainsChar(s: string, c: char)
    ensures Contains(s, [c]) <==> c in s
  {
    ContainsIff(s, [c]);
    if c in s {
      var i :| 0 <= i < |s| && s[i] == c;
      assert s[i..i + 1] == [c];
      assert OccursAt(s, [c], i);
    }
    if Contains(s, [c]) {
      var i :| OccursAt(s, [c], i);
      assert s[i + 0] == [c][0];
    }
  }

  predicate StartsWith(s: string, p: string) {
    |p| <= |s| && s[..|p|] == p
  }

  predicate EndsWith(s: string, p: string) {
    |p| <= |s| && s[|s| - |p|..] == p
  }

  /** Characters that String.trim removes: every code point up to and including the space. */
  predicate IsTrimmable(c: char) {
    c <= ' '
  }

  function TrimStart(s: string): (r: string)
    ensures |r| <= |s| && r == s[|s| - |r|..]
    ensures |r| > 0 ==> !IsTrimmable(r[0])
    ensures forall i :: 0 <= i < |s| - |r| ==> IsTrimmable(s[i])
  {
    if |s| > 0 && IsTrimmable(s[0]) then
      var r := TrimStart(s[1..]);
      assert r == s[|s| - |r|..] by {
        assert s[1..][|s| - 1 - |r|..] == s[|s| - |r|..];
      }
      assert forall i :: 1 <= i < |s| - |r| ==> s[i] == s[1..][i - 1];
      r
    else s
  }

  function TrimEnd(s: string): (r: string)
    ensures |r| <= |s| && r == s[..|r|]
    ensures |r| > 0 ==> !IsTrimmable(r[|r| - 1])
    ensures forall i :: |r| <= i < |s| ==> IsTrimmable(s[i])
  {
    if |s| > 0 && IsTrimmable(s[|s| - 1]) then
      var r := TrimEnd(s[..|s| - 1]);
      assert r == s[..|r|] by {
        assert s[..|s| - 1][..|r|] == s[..|r|];
      }
      assert forall i :: |r| <= i < |s| - 1 ==> s[i] == s[..|s| - 1][i];
      r
    else s
  }

  /** String.trim: the longest middle part that neither starts nor ends with a trimmable character. */
  function Trim(s: string): (r: string)
    ensures |r| <= |s|
    ensures |r| > 0 ==> !IsTrimmable(r[0]) && !IsTrimmable(r[|r| - 1])
    ensures forall c :: c in r ==> c in s
    ensures var k := |s| - |TrimStart(s)|;
      k + |r| <= |s| && r == s[k..k + |r|]
      && (forall i :: 0 <= i < k ==> IsTrimmable(s[i]))
      && (forall i :: k + |r| <= i < |s| ==> IsTrimmable(s[i]))
  {
    var t := TrimStart(s);
    var r := TrimEnd(t);
    TrimSlice(s, t, r);
    r
  }

  /** The trimmed text is the slice of s between the blanks TrimStart and TrimEnd drop. */
  lemma TrimSlice(s: string, t: string, r: string)
    requires |t| <= |s| && t == s[|s| - |t|..]
    requires |r| <= |t| && r == t[..|r|]
    requires forall i :: |r| <= i < |t| ==> IsTrimmable(t[i])
    ensures |s| - |t| + |r| <= |s|
    ensures r == s[|s| - |t|..|s| - |t| + |r|]
    ensures forall i :: |s| - |t| + |r| <= i < |s| ==> IsTrimmable(s[i])
  {
    SliceOfSuffix(s, |s| - |t|, |r|);
    forall i | |s| - |t| + |r| <= i < |s|
      ensures IsTrimmable(s[i])
    {
      assert s[i] == t[i - (|s| - |t|)];
    }
  }

  lemma SliceOfSuffix(s: string, k: nat, n: nat)
    requires k + n <= |s|
    ensures s[k..][..n] == s[k..k + n]
  {
  }

  /** String.replace(char, char). */
  function ReplaceChar(s: string, from: char, to: char): (r: string)
    ensures |r| == |s|
    ensures forall i :: 0 <= i < |s| ==> r[i] == (if s[i] == from then to else s[i])
  {
    seq(|s|, i requires 0 <= i < |s| => if s[i] == from then to else s[i])
  }

  /** Lower-case mapping of the ASCII letters; every other character is its own case. */
  function ToLowerAscii(c: char): char {
    if 'A' <= c <= 'Z' then (c as int + 32) as char else c
  }

  function LowerAscii(s: string): (r: string)
    ensures |r| == |s|
    ensures forall i :: 0 <= i < |s| ==> r[i] == ToLowerAscii(s[i])
  {
    seq(|s|, i requires 0 <= i < |s| => ToLowerAscii(s[i]))
  }

  /** Equality ignoring the case of ASCII letters (String.equalsIgnoreCase restricted to ASCII). */
  predicate EqualsIgnoreCase(a: string, b: string) {
    LowerAscii(a) == LowerAscii(b)
  }

  predicate IsAsciiLetter(c: char) {
    'a' <= c <= 'z' || 'A' <= c <= 'Z'
  }

  predicate IsAsciiDigit(c: char) {
    '0' <= c <= '9'
  }

  /** The text of t has its first character in s wherever t occurs in s. */
  lemma ContainsFirstChar(s: string, t: string)
    requires |t| > 0 && Contains(s, t)
    ensures t[0] in s
  {
    var i := IndexOf(s, t);
    assert s[i..i + |t|][0] == s[i];
  }

  lemma ContainsSecondChar(s: string, t: string)
    requires |t| > 1 && Contains(s, t)
    ensures t[1] in s
  {
    var i := IndexOf(s, t);
    assert s[i..i + |t|][1] == s[i + 1];
  }

  /** The pieces between leftmost non-overlapping occurrences of a non-empty delimiter d. */
  function Pieces(s: string, d: string): (r: seq<string>)
    requires |d| > 0
    ensures |r| > 0
    decreases |s|
  {
    var i := FindFrom(s, d, 0);
    FindFromFound(s, d, 0);
    if i == -1 then [s] else [s[..i]] + Pieces(s[i + |d|..], d)
  }

  /** The elements of ps with d between neighbours. */
  function JoinWith(ps: seq<string>, d: string): string {
    if |ps| == 0 then "" else if |ps| == 1 then ps[0] else JoinWith(ps[..|ps| - 1], d) + d + ps[|ps| - 1]
  }

  /** String.split(regex) with a delimiter that matches only itself: no occurrence gives the whole
      string, otherwise the pieces with the trailing empty strings removed. */
  function Split(s: string, d: string): seq<string>
    requires |d| > 0
  {
    if FindFrom(s, d, 0) == -1 then [s] else DropTrailingEmpty(Pieces(s, d))
  }

  function DropTrailingEmpty(ps: seq<string>): (r: seq<string>)
    ensures |r| <= |ps| && r == ps[..|r|]
    ensures |r| > 0 ==> r[|r| - 1] != ""
    ensures forall i :: |r| <= i < |ps| ==> ps[i] == ""
  {
    if |ps| > 0 && ps[|ps| - 1] == "" then DropTrailingEmpty(ps[..|ps| - 1]) else ps
  }

  lemma {:induction false} JoinWithCons(p: string, qs: seq<string>, d: string)
    requires |qs| > 0
    ensures JoinWith([p] + qs, d) == p + d + JoinWith(qs, d)
    decreases |qs|
  {
    if |qs| > 1 {
      var ps := [p] + qs;
      assert ps[..|ps| - 1] == [p] + qs[..|qs| - 1];
      JoinWithCons(p, qs[..|qs| - 1], d);
    } else {
      assert [p] + qs == [p, qs[0]];
    }
  }

  /** Splitting loses nothing but the delimiters: joining the pieces back gives the string. */
  lemma {:induction false} PiecesJoin(s: string, d: string)
    requires |d| > 0
    ensures JoinWith(Pieces(s, d), d) == s
    decreases |s|
  {
    var i := FindFrom(s, d, 0);
    FindFromFound(s, d, 0);
    if i != -1 {
      var head, rest := s[..i], s[i + |d|..];
      PiecesStep(s, d, i, head, rest);
      PiecesJoin(rest, d);
      JoinWithCons(head, Pieces(rest, d), d);
      SplitAround(s, d, i, head, rest);
    }
  }

  /** Pieces at the first occurrence i of d: the text before it, then the pieces after it. */
  lemma PiecesStep(s: string, d: string, i: int, head: string, rest: string)
    requires |d| > 0 && i == FindFrom(s, d, 0) && OccursAt(s, d, i)
    requires head == s[..i] && rest == s[i + |d|..]
    ensures Pieces(s, d) == [head] + Pieces(rest, d)
  {
  }

  /** A string is the text before an occurrence of d, d, and the text after it. */
  lemma SplitAround(s: string, d: string, i: int, head: string, rest: string)
    requires OccursAt(s, d, i) && head == s[..i] && rest == s[i + |d|..]
    ensures s == head + d + rest
  {
    assert s == s[..i] + s[i..i + |d|] + s[i + |d|..];
  }

  /** A prefix that ends before the first occurrence of d holds no occurrence of d. */
  lemma HeadHasNoOccurrence(s: string, d: string, i: nat)
    requires |d| > 0 && i <= |s| && forall j :: 0 <= j < i ==> !OccursAt(s, d, j)
    ensures IndexOf(s[..i], d) == -1
  {
    var head := s[..i];
    IndexOfFromLeftmost(head, d, 0);
    forall j | 0 <= j <= |head| ensures !OccursAt(head, d, j) {
      if j + |d| <= |head| {
        assert head[j..j + |d|] == s[j..j + |d|];
        assert !OccursAt(s, d, j);
      }
    }
  }

  /** No piece contains the delimiter, and every character of a piece comes from s. */
  lemma {:induction false} PiecesContent(s: string, d: string)
    requires |d| > 0
    ensures forall k :: 0 <= k < |Pieces(s, d)| ==> IndexOf(Pieces(s, d)[k], d) == -1
    ensures forall k, c :: 0 <= k < |Pieces(s, d)| && c in Pieces(s, d)[k] ==> c in s
    decreases |s|
  {
    var i := FindFrom(s, d, 0);
    var ps := Pieces(s, d);
    FindFromFound(s, d, 0);
    FindFromLeftmost(s, d, 0);
    if i == -1 {
      IndexOfFromLeftmost(s, d, 0);
      assert ps == [s];
    } else {
      var head := s[..i];
      var rest := s[i + |d|..];
      var qs := Pieces(rest, d);
      assert ps == [head] + qs;
      PiecesContent(rest, d);
      HeadHasNoOccurrence(s, d, i);
      assert forall c :: c in head ==> c in s;
      assert forall c :: c in rest ==> c in s;
      assert forall k :: 1 <= k < |ps| ==> ps[k] == qs[k - 1];
    }
  }

  /** The same two facts for String.split. */
  lemma SplitContent(s: string, d: string)
    requires |d| > 0
    ensures forall k :: 0 <= k < |Split(s, d)| ==> IndexOf(Split(s, d)[k], d) == -1
    ensures forall k, c :: 0 <= k < |Split(s, d)| && c in Split(s, d)[k] ==> c in s
  {
    PiecesContent(s, d);
    if FindFrom(s, d, 0) != -1 {
      var ps := Pieces(s, d);
      var r := Split(s, d);
      assert forall k :: 0 <= k < |r| ==> r[k] == ps[k];
    }
  }

  /** Splitting on a single character undoes joining on it, when no element holds that character
      and the last element is not dropped as a trailing empty string. */
  lemma {:induction false} SplitJoinWithChar(ps: seq<string>, c: char)
    requires |ps| > 0 && (|ps| == 1 || ps[|ps| - 1] != "")
    requires forall k :: 0 <= k < |ps| ==> c !in ps[k]
    ensures Split(JoinWith(ps, [c]), [c]) == ps
  {
    PiecesOfJoin(ps, c);
    var s := JoinWith(ps, [c]);
    if |ps| == 1 {
      ContainsChar(s, c);
    } else {
      assert FindFrom(s, [c], 0) != -1 by {
        JoinWithCons(ps[0], ps[1..], [c]);
        assert ps == [ps[0]] + ps[1..];
        assert s[|ps[0]|..|ps[0]| + 1] == [c];
        assert OccursAt(s, [c], |ps[0]|);
      }
    }
  }

  lemma {:induction false} PiecesOfJoin(ps: seq<string>, c: char)
    requires |ps| > 0
    requires forall k :: 0 <= k < |ps| ==> c !in ps[k]
    ensures Pieces(JoinWith(ps, [c]), [c]) == ps
    decreases |ps|
  {
    var s := JoinWith(ps, [c]);
    if |ps| == 1 {
      ContainsChar(s, c);
    } else {
      var p := ps[0];
      var qs := ps[1..];
      assert ps == [p] + qs;
      JoinWithCons(p, qs, [c]);
      PiecesOfJoin(qs, c);
      assert s == p + [c] + JoinWith(qs, [c]);
      assert FindFrom(s, [c], 0) == |p| by {
        assert forall j :: 0 <= j < |p| ==> s[j] == p[j];
        FirstCharAt(s, |p|, c);
      }
      assert s[|p| + 1..] == JoinWith(qs, [c]);
      assert s[..|p|] == p;
    }
  }

  /** The first occurrence of c in s, when s holds c only from index p on, is at p. */
  lemma FirstCharAt(s: string, p: nat, c: char)
    requires p < |s| && s[p] == c && forall j :: 0 <= j < p ==> s[j] != c
    ensures FindFrom(s, [c], 0) == p && IndexOf(s, [c]) == p
  {
    FindFromFound(s, [c], 0);
    FindFromLeftmost(s, [c], 0);
    assert s[p..p + 1] == [c];
    assert OccursAt(s, [c], p);
    forall j | 0 <= j < p ensures !OccursAt(s, [c], j) {
      assert s[j..j + 1][0] == s[j];
    }
  }

  /** IndexOf on a one-character string is -1 exactly when the character is absent. */
  lemma IndexOfAbsentChar(s: string, c: char)
    ensures IndexOf(s, [c]) == -1 <==> c !in s
  {
    ContainsChar(s, c);
  }

  /** Every character of a join is a delimiter character or a character of an element. */
  lemma {:induction false} JoinWithChars(ps: seq<string>, d: string)
    ensures forall c :: c in JoinWith(ps, d) ==> c in d || exists k :: 0 <= k < |ps| && c in ps[k]
  {
    if |ps| > 1 {
      JoinWithChars(ps[..|ps| - 1], d);
      forall c | c in JoinWith(ps, d) ensures c in d || exists k :: 0 <= k < |ps| && c in ps[k] {
        var a := JoinWith(ps[..|ps| - 1], d);
        if c in a && c !in d {
          var k :| 0 <= k < |ps| - 1 && c in ps[..|ps| - 1][k];
          assert c in ps[k];
        } else if c in ps[|ps| - 1] {
        } else {
          assert c in d;
        }
      }
    } else if |ps| == 1 {
      assert JoinWith(ps, d) == ps[0];
    }
  }
}
