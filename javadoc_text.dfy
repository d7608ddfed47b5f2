/**
 * The string handling of ExtractClassesJavadocDoclet: parsing a javadoc type signature into
 * JavadocTypesData, flattening multi-line comments, and the text of an erroneous doc tree.
 */
module JavadocText {
  import opened Wrappers
  import opened JavaStrings

  /** JavadocTypesData: generic part, parameter types and return type of a javadoc signature. */
  datatype JavadocTypes = JavadocTypes(genericType: Option<string>, paramsTypesList: seq<string>, returnType: Option<string>)

  const NullTypes := JavadocTypes(None, [], None)

  /** Message of the StringIndexOutOfBoundsException thrown by substring when '>' precedes '<'. */
  const BadGenericBounds := "StringIndexOutOfBoundsException: begin > end"

  /** The parameter types between the first '(' and the first ')', if that span is not empty. */
  function ParamsOf(s: string): (r: seq<string>)
    ensures IndexOf(s, "(") == -1 || IndexOf(s, ")") == -1 ==> r == []
    ensures IndexOf(s, ")") - IndexOf(s, "(") < 2 ==> r == []
  {
    var start := IndexOf(s, "(");
    var end := IndexOf(s, ")");
    if start != -1 && end != -1 && end - start >= 2 then Split(s[start + 1..end], ",") else []
  }

  /** The return type: the text after the first ')', null when nothing follows it, the whole text without parentheses. */
  function ReturnTypeOf(s: string): (r: Option<string>)
    ensures IndexOf(s, "(") == -1 || IndexOf(s, ")") == -1 ==> r == Some(s)
    ensures IndexOf(s, "(") != -1 && IndexOf(s, ")") != -1 ==>
      (r.None? <==> IndexOf(s, ")") == |s| - 1)
  {
    var start := IndexOf(s, "(");
    var end := IndexOf(s, ")");
    if start != -1 && end != -1 then
      (if end + 1 < |s| then Some(s[end + 1..]) else None)
    else Some(s)
  }

  /** The values the JavadocTypesData constructor stores, or the exception it throws. */
  function JavadocTypesOf(javadocTypes: Option<string>): (r: Result<JavadocTypes>)
    ensures javadocTypes.None? ==> r == Success(NullTypes)
    ensures javadocTypes.Some? ==>
      var s := javadocTypes.value;
      var lt := IndexOf(s, "<");
      var gt := IndexOf(s, ">");
      (r.Failure? <==> lt != -1 && gt != -1 && gt < lt)
      && (r.Success? ==> r.value.genericType.Some? <==> lt != -1 && gt != -1)
      && (r.Success? && r.value.genericType.Some? ==>
            StartsWith(r.value.genericType.value, "<") && '>' !in r.value.genericType.value)
  {
    match javadocTypes
    case None => Success(NullTypes)
    case Some(s) =>
      var start := IndexOf(s, "<");
      var end := IndexOf(s, ">");
      if start != -1 && end != -1 && end < start then Failure(BadGenericBounds)
      else
        var generic := if start != -1 && end != -1 then Some(s[start..end]) else None;
        assert generic.Some? ==> StartsWith(generic.value, "<") && '>' !in generic.value by {
          if generic.Some? {
            GenericBounds(s, start, end);
          }
        }
        Success(JavadocTypes(generic, ParamsOf(s), ReturnTypeOf(s)))
  }

  /** The text between the first '<' and the first '>' after it starts with '<' and holds no '>'. */
  lemma GenericBounds(s: string, start: int, end: int)
    requires start == IndexOf(s, "<") && end == IndexOf(s, ">") && 0 <= start <= end
    ensures StartsWith(s[start..end], "<") && '>' !in s[start..end]
  {
    assert OccursAt(s, "<", start) && OccursAt(s, ">", end);
    assert s[start + 0] == "<"[0] && s[end + 0] == ">"[0];
    assert start < end;
    var g := s[start..end];
    assert g[..1] == [s[start]];
    IndexOfFromLeftmost(s, ">", 0);
    HeadHasNoOccurrence(s, ">", end);
    IndexOfAbsentChar(s[..end], '>');
    assert forall k :: 0 <= k < |g| ==> g[k] == s[..end][start + k];
  }

  /** The constructor JavadocTypesData(String): the parameter list is filled by a loop over the split. */
  method NewJavadocTypes(javadocTypes: Option<string>) returns (r: Result<JavadocTypes>)
    ensures r == JavadocTypesOf(javadocTypes)
  {
    if javadocTypes.None? {
      return Success(NullTypes);
    }
    var s := javadocTypes.value;
    var start := IndexOf(s, "<");
    var end := IndexOf(s, ">");
    if start != -1 && end != -1 && end < start {
      return Failure(BadGenericBounds);
    }
    var genericType := if start != -1 && end != -1 then Some(s[start..end]) else None;
    var paramsTypesList, returnType := ParamsAndReturn(s);
    r := Success(JavadocTypes(genericType, paramsTypesList, returnType));
  }

  /** The parameter types and the return type of the constructor JavadocTypesData(String). */
  method ParamsAndReturn(s: string) returns (paramsTypesList: seq<string>, returnType: Option<string>)
    ensures paramsTypesList == ParamsOf(s) && returnType == ReturnTypeOf(s)
  {
    paramsTypesList := [];
    var start := IndexOf(s, "(");
    var end := IndexOf(s, ")");
    if start != -1 && end != -1 {
      if end - start >= 2 {
        paramsTypesList := AddAll(Split(s[start + 1..end], ","));
      }
      if end + 1 < |s| {
        returnType := Some(s[end + 1..]);
      } else {
        returnType := None;
      }
    } else {
      returnType := Some(s);
    }
  }

  /** The loop that adds each piece of the split parameter list, in order, to an empty list. */
  method AddAll(params: seq<string>) returns (list: seq<string>)
    ensures list == params
  {
    list := [];
    var i := 0;
    while i < |params|
      invariant 0 <= i <= |params|
      invariant list == params[..i]
    {
      list := list + [params[i]];
      i := i + 1;
    }
    assert params[..i] == params;
  }

  /** Characters that play a role in a signature. */
  predicate PlainTypeText(t: string) {
    '<' !in t && '>' !in t && '(' !in t && ')' !in t && ',' !in t
  }

  /** A signature written the javadoc way: optional <generic>, parenthesised comma-separated types, return type. */
  function Signature(generic: Option<string>, params: seq<string>, ret: string): string {
    (if generic.Some? then "<" + generic.value + ">" else "") + "(" + JoinWith(params, ",") + ")" + ret
  }

  /** Where the parentheses of a signature are, and what lies between and after them. */
  lemma ParenthesesOf(g: string, j: string, ret: string)
    requires '(' !in g && ')' !in g && '(' !in j && ')' !in j
    ensures var s := g + "(" + j + ")" + ret;
      IndexOf(s, "(") == |g| && IndexOf(s, ")") == |g| + 1 + |j|
      && s[|g| + 1..|g| + 1 + |j|] == j && s[|g| + 2 + |j|..] == ret
  {
    var s := g + "(" + j + ")" + ret;
    var op := |g|;
    var cp := |g| + 1 + |j|;
    assert forall i :: 0 <= i < op ==> s[i] == g[i];
    assert forall i :: op < i < cp ==> s[i] == j[i - op - 1];
    FirstCharAt(s, op, '(');
    FirstCharAt(s, cp, ')');
    assert s[op + 1..cp] == j;
    assert s[cp + 1..] == ret;
  }

  /** Where the angle brackets of a signature are. */
  lemma AnglesOf(generic: Option<string>, rest: string)
    requires generic.Some? ==> '<' !in generic.value && '>' !in generic.value
    requires '<' !in rest && '>' !in rest
    ensures var g := if generic.Some? then "<" + generic.value + ">" else "";
      var s := g + rest;
      (generic.Some? ==>
        IndexOf(s, "<") == 0 && IndexOf(s, ">") == |generic.value| + 1 && s[0..|generic.value| + 1] == "<" + generic.value)
      && (generic.None? ==> IndexOf(s, "<") == -1 && IndexOf(s, ">") == -1)
  {
    var g := if generic.Some? then "<" + generic.value + ">" else "";
    var s := g + rest;
    if generic.Some? {
      var n := |generic.value|;
      assert forall i :: 1 <= i <= n ==> s[i] == generic.value[i - 1];
      FirstCharAt(s, 0, '<');
      FirstCharAt(s, n + 1, '>');
      assert s[0..n + 1] == "<" + generic.value;
    } else {
      assert s == rest;
      IndexOfAbsentChar(s, '<');
      IndexOfAbsentChar(s, '>');
    }
  }

  /** The comma-join of plain types holds no parenthesis. */
  lemma JoinedTypesPlain(params: seq<string>)
    requires forall k :: 0 <= k < |params| ==> PlainTypeText(params[k])
    ensures var j := JoinWith(params, ",");
      '(' !in j && ')' !in j && '<' !in j && '>' !in j
  {
    var j := JoinWith(params, ",");
    JoinWithChars(params, ",");
    forall c | c in j ensures c != '(' && c != ')' && c != '<' && c != '>' {
      if c !in "," {
        var k :| 0 <= k < |params| && c in params[k];
      }
    }
  }

  /** The parameter list read back from a well-formed signature. */
  lemma SignatureParams(g: string, params: seq<string>, ret: string)
    requires '(' !in g && ')' !in g
    requires forall k :: 0 <= k < |params| ==> |params[k]| > 0 && PlainTypeText(params[k])
    ensures ParamsOf(g + "(" + JoinWith(params, ",") + ")" + ret) == params
  {
    var j := JoinWith(params, ",");
    var s := g + "(" + j + ")" + ret;
    assert IndexOf(s, "(") == |g| && IndexOf(s, ")") == |g| + 1 + |j| && s[|g| + 1..|g| + 1 + |j|] == j by {
      JoinedTypesPlain(params);
      ParenthesesOf(g, j, ret);
    }
    ParamsBetween(s, |g|, j);
    if |params| > 0 {
      assert Split(j, ",") == params by {
        assert "," == [','];
        SplitJoinWithChar(params, ',');
      }
      assert |j| > 0 by {
        JoinWithLength(params, ",");
      }
    }
  }

  /** With the first '(' at op and the first ')' right after the text j, the parameters are j split at commas. */
  lemma ParamsBetween(s: string, op: nat, j: string)
    requires IndexOf(s, "(") == op && IndexOf(s, ")") == op + 1 + |j| && s[op + 1..op + 1 + |j|] == j
    ensures ParamsOf(s) == if j == "" then [] else Split(j, ",")
  {
    if j != "" {
      assert IndexOf(s, ")") - IndexOf(s, "(") >= 2;
      assert s[IndexOf(s, "(") + 1..IndexOf(s, ")")] == j;
    }
  }

  /** The return type read back from a well-formed signature. */
  lemma SignatureReturn(g: string, j: string, ret: string)
    requires '(' !in g && ')' !in g && '(' !in j && ')' !in j
    ensures ReturnTypeOf(g + "(" + j + ")" + ret) == (if ret == "" then None else Some(ret))
  {
    ParenthesesOf(g, j, ret);
  }

  /** Parsing a well-formed signature gives back its parts; genericType keeps the '<' and drops the '>'. */
  lemma ParseSignature(generic: Option<string>, params: seq<string>, ret: string)
    requires generic.Some? ==> PlainTypeText(generic.value)
    requires forall k :: 0 <= k < |params| ==> |params[k]| > 0 && PlainTypeText(params[k])
    requires PlainTypeText(ret)
    ensures JavadocTypesOf(Some(Signature(generic, params, ret))) == Success(JavadocTypes(
      if generic.Some? then Some("<" + generic.value) else None,
      params,
      if ret == "" then None else Some(ret)))
  {
    var g := if generic.Some? then "<" + generic.value + ">" else "";
    var j := JoinWith(params, ",");
    var s := Signature(generic, params, ret);
    var rest := "(" + j + ")" + ret;
    assert s == g + rest;
    JoinedTypesPlain(params);
    AnglesOf(generic, rest);
    SignatureParams(g, params, ret);
    SignatureReturn(g, j, ret);
  }

  /** A join is at least as long as its first element. */
  lemma {:induction false} JoinWithLength(ps: seq<string>, d: string)
    requires |ps| > 0
    ensures |JoinWith(ps, d)| >= |ps[0]|
  {
    if |ps| > 1 {
      JoinWithLength(ps[..|ps| - 1], d);
    }
  }

  /** The StringBuilder after one more part: '.' unless already there and a space, then the trimmed part. */
  function AppendPart(sb: string, part: string): string {
    (if |sb| != 0 then sb + (if sb[|sb| - 1] != '.' then "." else "") + " " else sb) + Trim(part)
  }

  /** The text processCommentParts builds from the first |parts| parts. */
  function CommentText(parts: seq<string>): string {
    if parts == [] then "" else AppendPart(CommentText(parts[..|parts| - 1]), parts[|parts| - 1])
  }

  lemma CommentTextStep(ps: seq<string>, i: int)
    requires 0 <= i < |ps|
    ensures CommentText(ps[..i + 1]) == AppendPart(CommentText(ps[..i]), ps[i])
  {
    assert ps[..i + 1][..i] == ps[..i];
  }

  /** The body of the processCommentParts loop: separator, then the trimmed part. */
  method AppendCommentPart(sb0: string, part: string) returns (sb: string)
    ensures sb == AppendPart(sb0, part)
    ensures StartsWith(sb, sb0)
  {
    sb := sb0;
    if |sb| != 0 {
      if sb[|sb| - 1] != '.' {
        sb := sb + ".";
      }
      sb := sb + " ";
    }
    sb := sb + Trim(part);
    assert sb[..|sb0|] == sb0;
  }

  /** processCommentParts: a loop over the parts appending to a StringBuilder; null gives "". */
  method ProcessCommentParts(parts: Option<seq<string>>) returns (r: string)
    ensures parts.None? ==> r == ""
    ensures parts.Some? ==> r == CommentText(parts.value)
  {
    r := "";
    if parts.Some? {
      var ps := parts.value;
      var i := 0;
      while i < |ps|
        invariant 0 <= i <= |ps|
        invariant r == CommentText(ps[..i])
      {
        CommentTextStep(ps, i);
        r := AppendCommentPart(r, ps[i]);
        i := i + 1;
      }
      assert ps[..i] == ps;
    }
  }

  /** The joined text holds only characters of the parts, '.' and ' '. */
  lemma {:induction false} CommentTextChars(parts: seq<string>)
    ensures forall c :: c in CommentText(parts) ==> c == '.' || c == ' ' || exists k :: 0 <= k < |parts| && c in parts[k]
  {
    if parts != [] {
      var init := parts[..|parts| - 1];
      CommentTextChars(init);
      forall c | c in CommentText(parts) && c != '.' && c != ' ' ensures exists k :: 0 <= k < |parts| && c in parts[k] {
        if c in CommentText(init) {
          var k :| 0 <= k < |init| && c in init[k];
          assert c in parts[k];
        } else {
          assert c in Trim(parts[|parts| - 1]);
        }
      }
    }
  }

  /** A part that starts and ends with a non-trimmable character is its own trim. */
  lemma TrimmedPart(p: string)
    requires |p| > 0 && !IsTrimmable(p[0]) && !IsTrimmable(p[|p| - 1])
    ensures Trim(p) == p
  {
    assert TrimStart(p) == p;
    assert TrimEnd(p) == p;
  }

  /** A sentence: non-empty, already trimmed, not ending in '.'. */
  predicate Sentence(p: string) {
    |p| > 0 && p[|p| - 1] != '.' && !IsTrimmable(p[0]) && !IsTrimmable(p[|p| - 1])
  }

  /** Sentences are joined with ". ". */
  lemma {:induction false} CommentTextOfSentences(parts: seq<string>)
    requires forall k :: 0 <= k < |parts| ==> Sentence(parts[k])
    ensures CommentText(parts) == JoinWith(parts, ". ")
  {
    if parts != [] {
      var init := parts[..|parts| - 1];
      var last := parts[|parts| - 1];
      assert Sentence(last);
      CommentTextOfSentences(init);
      TrimmedPart(last);
      var a := CommentText(init);
      assert CommentText(parts) == AppendPart(a, last);
      if |init| > 0 {
        SentencesJoinEnd(init);
        AppendSentence(a, last);
      }
    }
  }

  lemma AppendSentence(a: string, last: string)
    requires |a| > 0 && a[|a| - 1] != '.' && Sentence(last)
    ensures AppendPart(a, last) == a + ". " + last
  {
    TrimmedPart(last);
  }

  lemma SentencesJoinEnd(parts: seq<string>)
    requires |parts| > 0 && forall k :: 0 <= k < |parts| ==> Sentence(parts[k])
    ensures |JoinWith(parts, ". ")| > 0 && JoinWith(parts, ". ")[|JoinWith(parts, ". ")| - 1] != '.'
  {
    assert Sentence(parts[|parts| - 1]);
    JoinWithLast(parts, ". ");
  }

  /** The last character of a join of parts is the last character of the last part. */
  lemma JoinWithLast(ps: seq<string>, d: string)
    requires |ps| > 0 && |ps[|ps| - 1]| > 0
    ensures |JoinWith(ps, d)| > 0 && JoinWith(ps, d)[|JoinWith(ps, d)| - 1] == ps[|ps| - 1][|ps[|ps| - 1]| - 1]
  {
  }

  /** One step of processComment: split on d and rejoin, if d occurs. */
  function CommentStage(comment: string, d: string): string
    requires |d| > 0
  {
    if Contains(comment, d) then CommentText(Split(comment, d)) else comment
  }

  /** A stage adds only '.' and ' ', and a stage on any other single character removes that character. */
  lemma CommentStageChars(comment: string, d: string)
    requires |d| > 0
    ensures forall c :: c in CommentStage(comment, d) ==> c == '.' || c == ' ' || c in comment
    ensures |d| == 1 && d[0] != '.' && d[0] != ' ' ==> d[0] !in CommentStage(comment, d)
  {
    if Contains(comment, d) {
      var parts := Split(comment, d);
      SplitContent(comment, d);
      CommentTextChars(parts);
      forall c | c in CommentStage(comment, d) && c != '.' && c != ' ' ensures c in comment {
        var k :| 0 <= k < |parts| && c in parts[k];
      }
      if |d| == 1 {
        assert d == [d[0]];
        forall k | 0 <= k < |parts| ensures d[0] !in parts[k] {
          IndexOfAbsentChar(parts[k], d[0]);
        }
      }
    } else if |d| == 1 {
      assert d == [d[0]];
      IndexOfAbsentChar(comment, d[0]);
    }
  }

  /** The comment text after the four stages of processComment: "\r\n", "\n\r", "\n", then "\r". */
  function ProcessedComment(s: string): string {
    CommentStage(CommentStage(CommentStage(CommentStage(s, "\r\n"), "\n\r"), "\n"), "\r")
  }

  /** processComment: the four split-and-join stages; null or empty comments are returned as they are. */
  method ProcessComment(comment: Option<string>) returns (r: Option<string>)
    ensures comment.None? || comment.value == "" ==> r == comment
    ensures comment.Some? && comment.value != "" ==> r == Some(ProcessedComment(comment.value))
    ensures comment.Some? ==> r.Some? && '\n' !in r.value && '\r' !in r.value
    ensures comment.Some? && '\n' !in comment.value && '\r' !in comment.value ==> r == comment
  {
    if comment.None? || comment.value == "" {
      return comment;
    }
    var c := comment.value;
    if '\n' !in c && '\r' !in c {
      NoBreaksUnchanged(c);
    }
    ghost var c0 := c;
    if Contains(c, "\r\n") {
      c := ProcessCommentParts(Some(Split(c, "\r\n")));
    }
    assert c == CommentStage(c0, "\r\n");
    ghost var c1 := c;
    if Contains(c, "\n\r") {
      c := ProcessCommentParts(Some(Split(c, "\n\r")));
    }
    assert c == CommentStage(c1, "\n\r");
    ghost var c2 := c;
    if Contains(c, "\n") {
      c := ProcessCommentParts(Some(Split(c, "\n")));
    }
    assert c == CommentStage(c2, "\n");
    CommentStageChars(c2, "\n");
    ghost var c3 := c;
    if Contains(c, "\r") {
      c := ProcessCommentParts(Some(Split(c, "\r")));
    }
    assert c == CommentStage(c3, "\r");
    CommentStageChars(c3, "\r");
    r := Some(c);
  }

  /** Lines that are sentences, joined with line feeds, come back as one text joined with ". ". */
  lemma CommentOfLines(lines: seq<string>)
    requires |lines| > 1
    requires forall k :: 0 <= k < |lines| ==> Sentence(lines[k]) && '\n' !in lines[k] && '\r' !in lines[k]
    ensures ProcessedComment(JoinWith(lines, "\n")) == JoinWith(lines, ". ")
  {
    var s := JoinWith(lines, "\n");
    JoinLacks(lines, "\n", '\r');
    CarriageStagesSkipped(s);
    LineFeedStage(lines);
    var t := JoinWith(lines, ". ");
    JoinLacks(lines, ". ", '\r');
    CarriageStagesSkipped(t);
  }

  /** A character in neither the delimiter nor any element is not in their join. */
  lemma JoinLacks(ps: seq<string>, d: string, c: char)
    requires c !in d && forall k :: 0 <= k < |ps| ==> c !in ps[k]
    ensures c !in JoinWith(ps, d)
  {
    JoinWithChars(ps, d);
  }

  /** Without '\r', the stages on "\r\n", "\n\r" and "\r" change nothing. */
  lemma CarriageStagesSkipped(s: string)
    requires '\r' !in s
    ensures CommentStage(CommentStage(s, "\r\n"), "\n\r") == s && CommentStage(s, "\r") == s
  {
    if Contains(s, "\r\n") { ContainsFirstChar(s, "\r\n"); }
    if Contains(s, "\n\r") { ContainsSecondChar(s, "\n\r"); }
    if Contains(s, "\r") { ContainsFirstChar(s, "\r"); }
  }

  /** The line-feed stage turns sentences joined by line feeds into sentences joined by ". ". */
  lemma LineFeedStage(lines: seq<string>)
    requires |lines| > 1
    requires forall k :: 0 <= k < |lines| ==> Sentence(lines[k]) && '\n' !in lines[k]
    ensures CommentStage(JoinWith(lines, "\n"), "\n") == JoinWith(lines, ". ")
  {
    var s := JoinWith(lines, "\n");
    assert s == JoinWith(lines[..|lines| - 1], "\n") + "\n" + lines[|lines| - 1];
    assert s[|s| - |lines[|lines| - 1]| - 1] == '\n';
    ContainsChar(s, '\n');
    assert "\n" == ['\n'];
    assert lines[|lines| - 1] != "";
    SplitJoinWithChar(lines, '\n');
    CommentTextOfSentences(lines);
  }

  /** Without line-break characters no stage applies. */
  lemma NoBreaksUnchanged(s: string)
    requires '\n' !in s && '\r' !in s
    ensures !Contains(s, "\r\n") && !Contains(s, "\n\r") && !Contains(s, "\n") && !Contains(s, "\r")
  {
    if Contains(s, "\r\n") { ContainsFirstChar(s, "\r\n"); }
    if Contains(s, "\n\r") { ContainsFirstChar(s, "\n\r"); }
    if Contains(s, "\n") { ContainsFirstChar(s, "\n"); }
    if Contains(s, "\r") { ContainsFirstChar(s, "\r"); }
  }

  const BadLt := "compiler.err.dc.bad.lt"
  const BadGt := "compiler.err.dc.bad.gt"
  const MalformedHtml := "compiler.err.dc.malformed.html"

  /** processErroneousTree: the text that stands for a doc-comment error, by diagnostic code. */
  function ProcessErroneousTree(code: string): (r: string)
    ensures r == "<" <==> code == BadLt
    ensures r == ">" <==> code == BadGt
    ensures code != BadLt && code != BadGt ==> r == ""
  {
    if code == BadLt then "<"
    else if code == BadGt then ">"
    else if code == MalformedHtml then ""
    else ""
  }
}
