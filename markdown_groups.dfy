/**
 * The regular-expression builders of the Markdown template producer (named groups, optional
 * groups, marker groups) and the dedentation of included text.
 */
module MarkdownGroups {
  import opened Wrappers
  import opened JavaStrings
  import RegexEscape

  /** Opening parentheses minus closing parentheses, counting every character as written. */
  function Balance(s: string): int {
    multiset(s)['('] as int - multiset(s)[')'] as int
  }

  /** The closer an optional or a mandatory group ends with. */
  function GroupCloser(optional: bool): string {
    if optional then "))?" else ")"
  }

  /** getGroupOption(groupName, text, wildcard, optional): "(?<name>" + text, then '*' and the closer. */
  function GetGroupOption(groupName: string, text: string, wildcard: bool, optional: bool): (r: string)
    ensures StartsWith(r, "(?<" + groupName + ">" + text)
    ensures EndsWith(r, (if wildcard then "*" else "") + GroupCloser(optional))
    ensures |r| == |groupName| + |text| + 4 + (if wildcard then 1 else 0) + |GroupCloser(optional)|
  {
    var head := "(?<" + groupName + ">" + text;
    var tail := (if wildcard then "*" else "") + GroupCloser(optional);
    assert (head + tail)[..|head|] == head;
    assert (head + tail)[|head + tail| - |tail|..] == tail;
    head + tail
  }

  /** getGroup(groupName, text): a mandatory named group without wildcard. */
  function GetGroup(groupName: string, text: string): (r: string)
    ensures r == GetGroupOption(groupName, text, false, false)
    ensures StartsWith(r, "(?<" + groupName + ">") && EndsWith(r, text + ")")
  {
    var r := "(?<" + groupName + ">" + text + ")";
    assert r[..|groupName| + 4] == "(?<" + groupName + ">";
    assert r[|r| - |text| - 1..] == text + ")";
    r
  }

  /** getGroupOption(groupName, text, optional): the four-argument form with the wildcard on. */
  function GetGroupOptionWildcard(groupName: string, text: string, optional: bool): (r: string)
    ensures r == GetGroupOption(groupName, text, true, optional)
    ensures EndsWith(r, "*" + GroupCloser(optional))
  {
    GetGroupOption(groupName, text, true, optional)
  }

  /** An optional group closes one parenthesis more than it opens: the caller's marker group. */
  lemma GroupOptionBalance(groupName: string, text: string, wildcard: bool, optional: bool)
    ensures Balance(GetGroupOption(groupName, text, wildcard, optional))
      == Balance(groupName) + Balance(text) - (if optional then 1 else 0)
  {
    var r := GetGroupOption(groupName, text, wildcard, optional);
    assert r == "(?<" + groupName + ">" + text + ((if wildcard then "*" else "") + GroupCloser(optional));
  }

  /** getMarkerGroup(marker, groupName, text, wildcard, optional): '(' and the escaped marker before the group. */
  function GetMarkerGroup(marker: string, groupName: string, text: string, wildcard: bool, optional: bool): (r: string)
    ensures StartsWith(r, "(" + RegexEscape.Escaped(marker))
    ensures EndsWith(r, GetGroupOption(groupName, text, wildcard, optional))
    ensures |r| == 1 + |RegexEscape.Escaped(marker)| + |GetGroupOption(groupName, text, wildcard, optional)|
  {
    var head := "(" + RegexEscape.Escaped(marker);
    var tail := GetGroupOption(groupName, text, wildcard, optional);
    assert (head + tail)[..|head|] == head;
    assert (head + tail)[|head + tail| - |tail|..] == tail;
    head + tail
  }

  /** getMarkerGroup(marker, groupName, text, optional): the five-argument form with the wildcard on. */
  function GetMarkerGroupWildcard(marker: string, groupName: string, text: string, optional: bool): (r: string)
    ensures r == GetMarkerGroup(marker, groupName, text, true, optional)
    ensures EndsWith(r, "*" + GroupCloser(optional))
  {
    var r := GetMarkerGroup(marker, groupName, text, true, optional);
    var g := GetGroupOption(groupName, text, true, optional);
    var t := "*" + GroupCloser(optional);
    assert r[|r| - |t|..] == g[|g| - |t|..];
    r
  }

  /** Escaping a marker without parentheses adds none. */
  lemma EscapedMarkerBalance(marker: string)
    requires '(' !in marker && ')' !in marker
    ensures Balance(RegexEscape.Escaped(marker)) == 0
  {
    RegexEscape.EscapedCount(marker, '(');
    RegexEscape.EscapedCount(marker, ')');
  }

  /** As written, a mandatory marker group leaves its opening parenthesis unclosed. */
  lemma MarkerGroupBalance(marker: string, groupName: string, text: string, wildcard: bool, optional: bool)
    requires '(' !in marker && ')' !in marker
    ensures Balance(GetMarkerGroup(marker, groupName, text, wildcard, optional))
      == Balance(groupName) + Balance(text) + (if optional then 0 else 1)
  {
    EscapedMarkerBalance(marker);
    GroupOptionBalance(groupName, text, wildcard, optional);
    var e := RegexEscape.Escaped(marker);
    var g := GetGroupOption(groupName, text, wildcard, optional);
    assert GetMarkerGroup(marker, groupName, text, wildcard, optional) == "(" + e + g;
  }

  /** Concrete instance: marker ".", group "p", text "x", mandatory, gives "(\\.(?<p>x*)". */
  lemma MarkerGroupExampleText()
    ensures GetMarkerGroup(".", "p", "x", true, false) == "(\\.(?<p>x*)"
  {
    assert RegexEscape.MetaChars[3] == '.';
    assert RegexEscape.Escaped("") == "";
    assert RegexEscape.Escaped(".") == "\\." + RegexEscape.Escaped("");
    assert GetGroupOption("p", "x", true, false) == "(?<p>x*)";
    assert "(" + "\\." + "(?<p>x*)" == "(\\.(?<p>x*)";
  }

  /** That text opens two parentheses and closes one. */
  lemma MarkerGroupUnclosedExample()
    ensures Balance(GetMarkerGroup(".", "p", "x", true, false)) == 1
  {
    assert Balance("p") == 0 && Balance("x") == 0;
    MarkerGroupBalance(".", "p", "x", true, false);
  }

  /** The marker group with a closer that also closes the marker's parenthesis when mandatory. */
  function GetMarkerGroupClosed(marker: string, groupName: string, text: string, wildcard: bool, optional: bool): (r: string)
    ensures StartsWith(r, "(" + RegexEscape.Escaped(marker) + "(?<" + groupName + ">" + text)
    ensures optional ==> r == GetMarkerGroup(marker, groupName, text, wildcard, optional)
  {
    if optional then GetMarkerGroup(marker, groupName, text, wildcard, optional)
    else
      var r := "(" + RegexEscape.Escaped(marker) + GetGroupOption(groupName, text, wildcard, false) + ")";
      var p := "(" + RegexEscape.Escaped(marker) + "(?<" + groupName + ">" + text;
      assert r[..|p|] == p;
      r
  }

  /** The corrected marker group is balanced whatever the flags. */
  lemma MarkerGroupClosedBalance(marker: string, groupName: string, text: string, wildcard: bool, optional: bool)
    requires '(' !in marker && ')' !in marker
    ensures Balance(GetMarkerGroupClosed(marker, groupName, text, wildcard, optional)) == Balance(groupName) + Balance(text)
  {
    MarkerGroupBalance(marker, groupName, text, wildcard, optional);
    if !optional {
      var m := GetMarkerGroup(marker, groupName, text, wildcard, false);
      assert GetMarkerGroupClosed(marker, groupName, text, wildcard, optional) == m + ")";
    }
  }

  /** value with every ' ' removed (String.replace(" ", "")). */
  function RemoveSpaces(s: string): (r: string)
    ensures ' ' !in r
    ensures |r| == |s| - multiset(s)[' ']
    ensures multiset(r) == multiset(s)[' ' := 0]
  {
    if s == [] then []
    else
      assert s == [s[0]] + s[1..];
      (if s[0] == ' ' then [] else [s[0]]) + RemoveSpaces(s[1..])
  }

  /** Spaces are removed piece by piece, so the other characters keep their order. */
  lemma {:induction false} RemoveSpacesAppend(a: string, b: string)
    ensures RemoveSpaces(a + b) == RemoveSpaces(a) + RemoveSpaces(b)
  {
    if a == [] {
      assert a + b == b;
    } else {
      assert (a + b)[1..] == a[1..] + b;
      RemoveSpacesAppend(a[1..], b);
    }
  }

  /** Removing spaces changes nothing exactly when there are none. */
  lemma RemoveSpacesUnchanged(s: string)
    ensures RemoveSpaces(s) == s <==> ' ' !in s
  {
    if ' ' in s {
      assert multiset(s)[' '] > 0;
    } else {
      NoSpacesKept(s);
    }
  }

  lemma {:induction false} NoSpacesKept(s: string)
    requires ' ' !in s
    ensures RemoveSpaces(s) == s
  {
    if s != [] {
      NoSpacesKept(s[1..]);
    }
  }

  /** The end of the dedented prefix: dedentValue clamped to [0, length]. */
  function DedentEnd(dedentValue: int, length: nat): (e: nat)
    ensures e <= length
    ensures dedentValue <= 0 ==> e == 0
    ensures 0 <= dedentValue <= length ==> e == dedentValue
  {
    if dedentValue <= 0 then 0 else if dedentValue < length then dedentValue else length
  }

  /** doDedentValue: an absent or empty value is returned as it is; otherwise spaces are removed
      from the first dedentValue characters only. */
  function DoDedentValue(value: Option<string>, dedentValue: int): (r: Option<string>)
    ensures value.None? || value.value == "" ==> r == value
    ensures value.Some? ==> r.Some?
  {
    if value.None? || value.value == "" then value
    else
      var v := value.value;
      var e := DedentEnd(dedentValue, |v|);
      Some(RemoveSpaces(v[..e]) + v[e..])
  }

  /** The dedented value is no longer than the value, ends with everything after the first
      dedentValue characters, and holds no space before that. */
  lemma DoDedentValueSpec(value: string, dedentValue: int)
    ensures var r := DoDedentValue(Some(value), dedentValue).value;
      var e := DedentEnd(dedentValue, |value|);
      var keep := |value| - e;
      |r| <= |value| && EndsWith(r, value[e..]) && ' ' !in r[..|r| - keep]
      && r[..|r| - keep] == RemoveSpaces(value[..e])
  {
    if value != "" {
      var e := DedentEnd(dedentValue, |value|);
      var head := RemoveSpaces(value[..e]);
      var r := head + value[e..];
      assert r[|r| - |value[e..]|..] == value[e..];
      assert r[..|r| - (|value| - e)] == head;
    }
  }

  /** Dedenting leaves the text unchanged exactly when its first dedentValue characters hold no space. */
  lemma DedentUnchangedIff(value: string, dedentValue: int)
    ensures DoDedentValue(Some(value), dedentValue) == Some(value)
      <==> ' ' !in value[..DedentEnd(dedentValue, |value|)]
  {
    if value != "" {
      var e := DedentEnd(dedentValue, |value|);
      var head := value[..e];
      assert value == head + value[e..];
      RemoveSpacesUnchanged(head);
      if DoDedentValue(Some(value), dedentValue) == Some(value) {
        assert RemoveSpaces(head) + value[e..] == head + value[e..];
        assert RemoveSpaces(head) == (RemoveSpaces(head) + value[e..])[..|RemoveSpaces(head)|];
        assert |RemoveSpaces(head)| == |head|;
        assert RemoveSpaces(head) == head;
      }
    }
  }
}
