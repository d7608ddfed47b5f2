/**
 * escapeRegExpMetaChars: puts a backslash in front of every regular-expression metacharacter.
 */
module RegexEscape {
  import opened Wrappers

  /** The fourteen characters the switch statement escapes. */
  const MetaChars: string := "\\^$.|?*+()[]{}"

  predicate IsMeta(c: char) {
    c in MetaChars
  }

  /** What the loop appends for one input character: it ends with the character, is one longer
      exactly for a metacharacter, and removing the escape gives the character back. */
  function EscapeChar(c: char): (r: string)
    ensures Unescaped(r) == [c] && r[|r| - 1] == c
    ensures |r| == 2 <==> IsMeta(c)
  {
    if IsMeta(c) then ['\\', c] else [c]
  }

  /** The escaped text: each character in input order, metacharacters preceded by a backslash. */
  function Escaped(s: string): string {
    if s == [] then [] else EscapeChar(s[0]) + Escaped(s[1..])
  }

  function MetaCount(s: string): nat {
    if s == [] then 0 else (if IsMeta(s[0]) then 1 else 0) + MetaCount(s[1..])
  }

  /** Removes the backslash in front of each escaped character. */
  function Unescaped(s: string): string {
    if |s| >= 2 && s[0] == '\\' then [s[1]] + Unescaped(s[2..])
    else if s == [] then []
    else [s[0]] + Unescaped(s[1..])
  }

  /** Escaping distributes over concatenation, so it works character by character. */
  lemma {:induction false} EscapedAppend(a: string, b: string)
    ensures Escaped(a + b) == Escaped(a) + Escaped(b)
  {
    if a == [] {
      assert a + b == b;
    } else {
      assert (a + b)[1..] == a[1..] + b;
      EscapedAppend(a[1..], b);
    }
  }

  /** The loop over the characters, appending to a StringBuilder; a null or empty value
      (isEmpty) is returned as it is. */
  method EscapeRegExpMetaChars(value: Option<string>) returns (r: Option<string>)
    ensures value.None? ==> r.None?
    ensures value.Some? ==> r == Some(Escaped(value.value))
  {
    if value.None? || |value.value| == 0 {
      return value;
    }
    var v := value.value;
    var sb := "";
    var i := 0;
    while i < |v|
      invariant 0 <= i <= |v|
      invariant sb == Escaped(v[..i])
    {
      EscapedAppend(v[..i], [v[i]]);
      assert v[..i + 1] == v[..i] + [v[i]];
      sb := sb + EscapeChar(v[i]);
      i := i + 1;
    }
    assert v[..i] == v;
    r := Some(sb);
  }

  /** Output length is input length plus one per metacharacter. */
  lemma {:induction false} EscapedLength(s: string)
    ensures |Escaped(s)| == |s| + MetaCount(s)
  {
    if s != [] {
      EscapedLength(s[1..]);
    }
  }

  /** Deleting each inserted backslash gives the input back. */
  lemma {:induction false} EscapedRoundTrip(s: string)
    ensures Unescaped(Escaped(s)) == s
  {
    if s != [] {
      EscapedRoundTrip(s[1..]);
      var e := Escaped(s);
      if IsMeta(s[0]) {
        assert e[2..] == Escaped(s[1..]);
      } else {
        assert s[0] != '\\';
        assert e[1..] == Escaped(s[1..]);
      }
    }
  }

  /** A string without metacharacters is its own escape. */
  lemma {:induction false} NoMetaUnchanged(s: string)
    requires forall i :: 0 <= i < |s| ==> !IsMeta(s[i])
    ensures Escaped(s) == s
  {
    if s != [] {
      NoMetaUnchanged(s[1..]);
    }
  }

  /** Escaping changes a string exactly when the string holds a metacharacter. */
  lemma {:induction false} EscapedMetaCountIff(s: string)
    ensures Escaped(s) == s <==> MetaCount(s) == 0
  {
    EscapedLength(s);
    if MetaCount(s) == 0 {
      MetaCountZero(s);
      NoMetaUnchanged(s);
    }
  }

  lemma {:induction false} MetaCountZero(s: string)
    requires MetaCount(s) == 0
    ensures forall i :: 0 <= i < |s| ==> !IsMeta(s[i])
  {
    if s != [] {
      MetaCountZero(s[1..]);
      assert forall i :: 1 <= i < |s| ==> s[i] == s[1..][i - 1];
    }
  }

  /** Escaping adds backslashes only: every other character occurs as often as in the input. */
  lemma {:induction false} EscapedCount(s: string, c: char)
    requires c != '\\'
    ensures multiset(Escaped(s))[c] == multiset(s)[c]
  {
    if s != [] {
      EscapedCount(s[1..], c);
      var h := EscapeChar(s[0]);
      assert multiset(Escaped(s)) == multiset(h) + multiset(Escaped(s[1..]));
      assert multiset(h)[c] == multiset([s[0]])[c] by {
        if IsMeta(s[0]) {
          assert h == ['\\'] + [s[0]];
        }
      }
      assert s == [s[0]] + s[1..];
      assert multiset(s) == multiset([s[0]]) + multiset(s[1..]);
    }
  }
}
