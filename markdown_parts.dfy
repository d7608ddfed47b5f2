/**
 * The substitution parts of the Markdown template producer: PartData, getLine, and what
 * produceFigureCaption and produceMarkdownExtension do once the regular expressions have matched.
 * Matching is not modelled: the parts found in a line and the named groups of each full match are
 * inputs (a part whose full pattern did not match has no groups). Named-group values are given as
 * OutilsBase.asString returns them. markdownToHTML and markdownToPlainText are function parameters.
 */
module MarkdownParts {
  import opened Wrappers
  import opened JavaStrings

  /** PartData: the span of a line a search matched, its text, and the replacement once computed. */
  class PartData {
    const start: int
    const end: int
    const input: string
    var output: Option<string>

    constructor (start: int, end: int, input: string)
      ensures this.start == start && this.end == end && this.input == input && output == None
    {
      this.start := start;
      this.end := end;
      this.input := input;
      output := None;
    }
  }

  /** The value of a PartData that getLine reads. */
  datatype Span = Span(start: int, end: int, output: Option<string>)

  function SpansOf(parts: seq<PartData>): (r: seq<Span>)
    reads parts
    ensures |r| == |parts|
    ensures forall i :: 0 <= i < |parts| ==> r[i] == Span(parts[i].start, parts[i].end, parts[i].output)
  {
    seq(|parts|, i reads parts requires 0 <= i < |parts| => Span(parts[i].start, parts[i].end, parts[i].output))
  }

  /** Parts in line order, as a Matcher finds them: each starts at or after the previous end. */
  predicate ValidFrom(spans: seq<Span>, pos: int, n: int)
    decreases |spans|
  {
    spans == [] || (0 <= pos <= spans[0].start <= spans[0].end <= n && ValidFrom(spans[1..], spans[0].end, n))
  }

  /** The text getLine builds from position pos on. */
  function SpliceFrom(line: string, spans: seq<Span>, pos: int): string
    requires ValidFrom(spans, pos, |line|)
    decreases |spans|
  {
    if spans == [] then (if 0 <= pos < |line| then line[pos..] else "")
    else line[pos..spans[0].start] + AppendText(spans[0].output) + SpliceFrom(line, spans[1..], spans[0].end)
  }

  /** getLine on part values: the line itself without parts. */
  function Spliced(line: string, spans: seq<Span>): string
    requires ValidFrom(spans, 0, |line|)
  {
    if spans == [] then line else SpliceFrom(line, spans, 0)
  }

  /** getLine: text between parts, each part's output (a null output as "null"), then the tail. */
  method GetLine(line: string, parts: seq<PartData>) returns (r: string)
    requires ValidFrom(SpansOf(parts), 0, |line|)
    ensures r == Spliced(line, SpansOf(parts))
  {
    if |parts| == 0 {
      return line;
    }
    ghost var spans := SpansOf(parts);
    var pos := 0;
    r := "";
    var i := 0;
    while i < |parts|
      invariant 0 <= i <= |parts|
      invariant 0 <= pos <= |line| && ValidFrom(spans[i..], pos, |line|)
      invariant r + SpliceFrom(line, spans[i..], pos) == SpliceFrom(line, spans, 0)
    {
      var part := parts[i];
      assert spans[i..][0] == spans[i] && spans[i..][1..] == spans[i + 1..];
      r := r + line[pos..part.start] + AppendText(part.output);
      pos := part.end;
      i := i + 1;
    }
    if pos < |line| {
      r := r + line[pos..];
    }
  }

  /** A span inside the line whose output is the text it covers. */
  predicate KeepsText(line: string, s: Span) {
    0 <= s.start <= s.end <= |line| && s.output == Some(line[s.start..s.end])
  }

  /** Parts whose outputs repeat their own text give the line back. */
  lemma {:induction false} SpliceFromIdentity(line: string, spans: seq<Span>, pos: int)
    requires ValidFrom(spans, pos, |line|) && 0 <= pos <= |line|
    requires forall i :: 0 <= i < |spans| ==> KeepsText(line, spans[i])
    ensures SpliceFrom(line, spans, pos) == line[pos..]
    decreases |spans|
  {
    if spans != [] {
      var s := spans[0];
      SpliceFromIdentity(line, spans[1..], s.end);
      assert line[pos..] == line[pos..s.start] + line[s.start..s.end] + line[s.end..];
    }
  }

  lemma SplicedIdentity(line: string, spans: seq<Span>)
    requires ValidFrom(spans, 0, |line|)
    requires forall i :: 0 <= i < |spans| ==> KeepsText(line, spans[i])
    ensures Spliced(line, spans) == line
  {
    if spans != [] {
      SpliceFromIdentity(line, spans, 0);
    }
  }

  /** A part a search found: its span and its text. */
  datatype Found = Found(start: int, end: int, input: string)

  /** The named groups of a full figure-caption match. */
  datatype FigureGroups = FigureGroups(altText: string, position: string, classAttribute: string,
                                       styleAttribute: string, imageURL: string, title: string)

  /** The <img> element of a figure. */
  function FigureImg(imageURL: string, title: string, altText: string, toPlain: string -> string): (r: string)
    ensures StartsWith(r, "<img src=\"" + imageURL + "\"") && EndsWith(r, ">")
  {
    var head := "<img src=\"" + imageURL + "\"";
    var r := head + (if title != "" then " title=\"" + title + "\"" else "")
      + (if altText != "" then " alt=\"" + toPlain(altText) + "\"" else "") + ">";
    assert r[..|head|] == head;
    r
  }

  /** The <figcaption> element; its class starts with the position. */
  function FigureCaptionElement(position: string, classAttribute: string, styleAttribute: string,
                                altText: string, toHtml: string -> string): (r: string)
    ensures StartsWith(r, "<figcaption class=\"" + position) && EndsWith(r, toHtml(altText) + "</figcaption>")
  {
    var head := "<figcaption class=\"" + position;
    var tail := toHtml(altText) + "</figcaption>";
    var r := head + (if classAttribute != "" then " " + classAttribute else "") + "\""
      + (if styleAttribute != "" then " style=\"" + styleAttribute + "\"" else "") + ">" + tail;
    assert r[..|head|] == head;
    assert r[|r| - |tail|..] == tail;
    r
  }

  /** The position a figure caption ends up with: "bottom" when none is given. */
  function CaptionPosition(g: FigureGroups): string {
    if Trim(g.position) == "" then "bottom" else Trim(g.position)
  }

  /** produceFigureCaption, after a full match: a <figure> with the caption above or below the image. */
  function FigureCaptionHtml(input: string, g: FigureGroups, toHtml: string -> string, toPlain: string -> string): (r: string)
    ensures Trim(g.imageURL) == "" ==> r == input
    ensures Trim(g.imageURL) != "" ==> StartsWith(r, "<figure>") && EndsWith(r, "</figure>")
  {
    var imageURL := Trim(g.imageURL);
    if imageURL == "" then input
    else
      var position := CaptionPosition(g);
      var img := FigureImg(imageURL, Trim(g.title), g.altText, toPlain);
      var caption := FigureCaptionElement(position, Trim(g.classAttribute), Trim(g.styleAttribute), g.altText, toHtml);
      Figure(position, img, caption)
  }

  /** The <figure> element: the caption if on top, the image, and the caption if at the bottom. */
  function Figure(position: string, img: string, caption: string): (r: string)
    ensures StartsWith(r, "<figure>") && EndsWith(r, "</figure>")
  {
    var middle := (if position == "top" then caption else "") + img + (if position == "bottom" then caption else "");
    Enclosed("<figure>", middle, "</figure>");
    "<figure>" + middle + "</figure>"
  }

  /** The caption goes before the image on top and after it at the bottom. */
  lemma FigureOrder(position: string, img: string, caption: string)
    ensures position == "top" ==> Figure(position, img, caption) == "<figure>" + caption + img + "</figure>"
    ensures position == "bottom" ==> Figure(position, img, caption) == "<figure>" + img + caption + "</figure>"
  {
    if position == "top" {
      assert caption + img + "" == caption + img;
    } else if position == "bottom" {
      assert "" + img + caption == img + caption;
    }
  }

  /** A string made of an opening, a middle and a closing part starts with the one and ends with the other. */
  lemma Enclosed(open: string, middle: string, close: string)
    ensures StartsWith(open + middle + close, open) && EndsWith(open + middle + close, close)
  {
    var r := open + middle + close;
    assert r[..|open|] == open;
    assert r[|r| - |close|..] == close;
  }

  /** The caption goes before the image for "top", after it for "bottom" or no position. */
  lemma FigureCaptionOrder(input: string, g: FigureGroups, toHtml: string -> string, toPlain: string -> string)
    requires Trim(g.imageURL) != ""
    ensures var r := FigureCaptionHtml(input, g, toHtml, toPlain);
      var img := FigureImg(Trim(g.imageURL), Trim(g.title), g.altText, toPlain);
      var caption := FigureCaptionElement(CaptionPosition(g), Trim(g.classAttribute), Trim(g.styleAttribute), g.altText, toHtml);
      (Trim(g.position) == "top" ==> r == "<figure>" + caption + img + "</figure>")
      && (Trim(g.position) in {"", "bottom"} ==> r == "<figure>" + img + caption + "</figure>")
  {
    var img := FigureImg(Trim(g.imageURL), Trim(g.title), g.altText, toPlain);
    var caption := FigureCaptionElement(CaptionPosition(g), Trim(g.classAttribute), Trim(g.styleAttribute), g.altText, toHtml);
    assert FigureCaptionHtml(input, g, toHtml, toPlain) == Figure(CaptionPosition(g), img, caption);
    FigureOrder(CaptionPosition(g), img, caption);
  }

  /** Without a position the figure is the one written for "bottom". */
  lemma FigurePositionDefault(input: string, g: FigureGroups, toHtml: string -> string, toPlain: string -> string)
    requires Trim(g.position) == ""
    ensures FigureCaptionHtml(input, g, toHtml, toPlain) == FigureCaptionHtml(input, g.(position := "bottom"), toHtml, toPlain)
  {
    var b := g.(position := "bottom");
    assert TrimStart("bottom") == "bottom" && TrimEnd("bottom") == "bottom";
    assert CaptionPosition(b) == "bottom";
  }

  /** The named groups of a full Markdown-extension match. */
  datatype ExtensionGroups = ExtensionGroups(userText: string, htmlTag: string, classAttribute: string, styleAttribute: string)

  /** The dictionary value that stands for "a span whose class starts with the tag name". */
  const ClassMarker := "#"

  /** The dictionary value prefix that stands for "a span with this style"; declared, but no code path looks for it. */
  const StyleMarker := '$'

  /** The Markdown tag dictionary: the value stored for a tag name, None for a name it does not hold. */
  function HtmlTag(name: string): Option<string> {
    match name
    case "abbr" => Some("abbr")
    case "acronym" => Some("abbr")
    case "address" => Some("address")
    case "b" => Some("b")
    case "bold" => Some("b")
    case "bdi" => Some("bdi")
    case "bdo" => Some("bdo")
    case "big" => Some(ClassMarker)
    case "blockquote" => Some("blockquote")
    case "center" => Some(ClassMarker)
    case "cite" => Some("cite")
    case "code" => Some("code")
    case "data" => Some("data")
    case "del" => Some("del")
    case "dfn" => Some("dfn")
    case "em" => Some("em")
    case "font" => Some(ClassMarker)
    case "i" => Some("i")
    case "italic" => Some("i")
    case "ins" => Some("ins")
    case "kbd" => Some("kbd")
    case "mark" => Some("mark")
    case "output" => Some("output")
    case "pre" => Some("pre")
    case "progress" => Some("progress")
    case "q" => Some("q")
    case "rp" => Some("rp")
    case "rt" => Some("rt")
    case "ruby" => Some("ruby")
    case "s" => Some("s")
    case "samp" => Some("samp")
    case "small" => Some("small")
    case "smallcaps" => Some("$font-variant: small-caps")
    case "span" => Some("span")
    case "strike" => Some("s")
    case "strong" => Some("strong")
    case "sub" => Some("sub")
    case "sup" => Some("sup")
    case "tt" => Some("code")
    case "u" => Some("u")
    case "underline" => Some("u")
    case "var" => Some("var")
    case "wbr" => Some("wbr")
    case _ => None
  }

  /** The element an extension is written as, and its class and style attributes; no tag keeps the input. */
  datatype TagChoice = TagChoice(tag: Option<string>, classAttribute: string, styleAttribute: string)

  /** The tag choice of produceMarkdownExtension, from the trimmed tag, class and style groups:
      no tag name gives a span, an unknown name gives no tag, a "#" value a span classed by the name,
      and any other value is the tag itself. */
  function ChooseTag(htmlTag: string, classAttribute: string, styleAttribute: string): (r: TagChoice)
    ensures r.tag.None? <==> htmlTag != "" && HtmlTag(htmlTag).None?
    ensures r.styleAttribute == styleAttribute
    ensures r.tag.Some? && r.classAttribute != classAttribute ==> r.tag.value == "span"
    ensures r.tag.Some? ==> r.tag.value == "span" || (r.tag == HtmlTag(htmlTag) && r.tag.value != ClassMarker)
    ensures htmlTag == "" ==> r == TagChoice(Some("span"), classAttribute, styleAttribute)
    ensures htmlTag != "" && HtmlTag(htmlTag).Some? && HtmlTag(htmlTag).value != ClassMarker
      ==> r == TagChoice(HtmlTag(htmlTag), classAttribute, styleAttribute)
    ensures htmlTag != "" && HtmlTag(htmlTag) == Some(ClassMarker)
      ==> r.tag == Some("span") && r.classAttribute == Trim(htmlTag + " " + classAttribute)
  {
    if htmlTag == "" then TagChoice(Some("span"), classAttribute, styleAttribute)
    else match HtmlTag(htmlTag)
      case Some(value) =>
        if value == ClassMarker then TagChoice(Some("span"), Trim(htmlTag + " " + classAttribute), styleAttribute)
        else TagChoice(Some(value), classAttribute, styleAttribute)
      case None => TagChoice(None, classAttribute, styleAttribute)
  }

  /** A name an HTML element can have: lower-case ASCII letters. */
  predicate IsElementName(t: string) {
    |t| > 0 && forall i :: 0 <= i < |t| ==> 'a' <= t[i] <= 'z'
  }

  /** The dictionary values that are element names. */
  const ElementValues: set<string> := {
    "abbr", "address", "b", "bdi", "bdo", "blockquote", "cite", "code", "data", "del", "dfn", "em", "i",
    "ins", "kbd", "mark", "output", "pre", "progress", "q", "rp", "rt", "ruby", "s", "samp", "small",
    "span", "strong", "sub", "sup", "u", "var", "wbr"}

  /** Every dictionary value is an element name, the class marker, or the small-caps style. */
  lemma HtmlTagValues(name: string)
    requires HtmlTag(name).Some?
    ensures HtmlTag(name).value in ElementValues || HtmlTag(name).value == ClassMarker
      || HtmlTag(name).value == "$font-variant: small-caps"
  {
  }

  /** As written, "smallcaps" is written as an element named "$font-variant: small-caps". */
  lemma SmallcapsTagAsWritten()
    ensures ChooseTag("smallcaps", "", "") == TagChoice(Some("$font-variant: small-caps"), "", "")
    ensures !IsElementName(ChooseTag("smallcaps", "", "").tag.value)
  {
    assert HtmlTag("smallcaps") == Some("$font-variant: small-caps");
    assert "$font-variant: small-caps"[0] == '$';
  }

  /** The tag choice with "$" values read as a style for a span, as the dictionary intends. */
  function ChooseTagCorrected(htmlTag: string, classAttribute: string, styleAttribute: string): (r: TagChoice)
    ensures r.tag.None? <==> htmlTag != "" && HtmlTag(htmlTag).None?
  {
    var c := ChooseTag(htmlTag, classAttribute, styleAttribute);
    if c.tag.Some? && |c.tag.value| > 0 && c.tag.value[0] == StyleMarker then
      TagChoice(Some("span"), classAttribute, Trim(c.tag.value[1..] + "; " + styleAttribute))
    else c
  }

  /** Corrected, "smallcaps" becomes a span styled in small capitals. */
  lemma SmallcapsTagCorrected(classAttribute: string, styleAttribute: string)
    ensures ChooseTagCorrected("smallcaps", classAttribute, styleAttribute)
      == TagChoice(Some("span"), classAttribute, Trim("font-variant: small-caps; " + styleAttribute))
  {
    var v := "$font-variant: small-caps";
    assert HtmlTag("smallcaps") == Some(v);
    assert ChooseTag("smallcaps", classAttribute, styleAttribute) == TagChoice(Some(v), classAttribute, styleAttribute);
    assert v[0] == StyleMarker && v[1..] == "font-variant: small-caps";
    assert v[1..] + "; " + styleAttribute == "font-variant: small-caps; " + styleAttribute;
  }

  /** Every element the corrected choice writes has an element name. */
  lemma ChooseTagCorrectedNames(htmlTag: string, classAttribute: string, styleAttribute: string)
    ensures var r := ChooseTagCorrected(htmlTag, classAttribute, styleAttribute);
      r.tag.Some? ==> IsElementName(r.tag.value)
  {
    var c := ChooseTag(htmlTag, classAttribute, styleAttribute);
    if c.tag.Some? && c.tag.value != "span" {
      HtmlTagValues(htmlTag);
      if c.tag.value in ElementValues {
        ElementValuesAreNames(c.tag.value);
      }
    }
    assert "span"[0] != StyleMarker;
    ElementValuesAreNames("span");
  }

  lemma ElementValuesAreNames(v: string)
    requires v in ElementValues
    ensures IsElementName(v)
  {
  }

  /** The element written for a chosen tag, wrapped in <p> when the extension is the whole line. */
  function ExtensionElement(c: TagChoice, userText: string, paragraph: bool, toHtml: string -> string): (r: string)
    requires c.tag.Some?
    ensures paragraph ==> StartsWith(r, "<p><" + c.tag.value) && EndsWith(r, "</" + c.tag.value + "></p>")
    ensures !paragraph ==> StartsWith(r, "<" + c.tag.value) && EndsWith(r, "</" + c.tag.value + ">")
  {
    var middle := (if c.classAttribute != "" then " class=\"" + c.classAttribute + "\"" else "")
      + (if c.styleAttribute != "" then " style=\"" + c.styleAttribute + "\"" else "")
      + ">" + toHtml(userText);
    TagFramed(c.tag.value, middle);
    if paragraph then "<p>" + Tagged(c.tag.value, middle) + "</p>" else Tagged(c.tag.value, middle)
  }

  /** An element: the opening tag, the middle part and the closing tag. */
  function Tagged(tag: string, middle: string): string {
    "<" + tag + middle + "</" + tag + ">"
  }

  /** An element starts with its opening tag and ends with its closing tag, also inside <p>. */
  lemma TagFramed(tag: string, middle: string)
    ensures StartsWith(Tagged(tag, middle), "<" + tag) && EndsWith(Tagged(tag, middle), "</" + tag + ">")
    ensures StartsWith("<p>" + Tagged(tag, middle) + "</p>", "<p><" + tag)
    ensures EndsWith("<p>" + Tagged(tag, middle) + "</p>", "</" + tag + "></p>")
  {
    var e := Tagged(tag, middle);
    var open, close := "<" + tag, "</" + tag + ">";
    assert e == open + middle + close;
    assert e[..|open|] == open;
    assert e[|e| - |close|..] == close;
    var r := "<p>" + e + "</p>";
    assert r[..3 + |open|] == "<p>" + open == "<p><" + tag;
    assert r[|r| - |close| - 4..] == close + "</p>" == "</" + tag + "></p>";
  }

  /** produceMarkdownExtension, after a full match: the replacement of one part. */
  function MarkdownExtensionHtml(input: string, lineLength: int, g: ExtensionGroups, toHtml: string -> string): (r: string)
    ensures g.userText == "" ==> r == ""
    ensures g.userText != "" && Trim(g.htmlTag) == "" && Trim(g.classAttribute) == "" && Trim(g.styleAttribute) == "" ==>
      r == g.userText
    ensures g.userText != "" && Trim(g.htmlTag) != "" && HtmlTag(Trim(g.htmlTag)).None? ==> r == input
  {
    var htmlTag := Trim(g.htmlTag);
    var classAttribute := Trim(g.classAttribute);
    var styleAttribute := Trim(g.styleAttribute);
    if g.userText == "" then ""
    else if htmlTag == "" && classAttribute == "" && styleAttribute == "" then g.userText
    else
      var c := ChooseTag(htmlTag, classAttribute, styleAttribute);
      if c.tag.Some? && c.tag.value != "" then ExtensionElement(c, g.userText, |input| == lineLength, toHtml)
      else input
  }

  /** With no tag name but a class, the replacement is a span carrying the class and the style. */
  lemma ExtensionIsSpan(input: string, lineLength: int, g: ExtensionGroups, toHtml: string -> string)
    requires g.userText != "" && Trim(g.htmlTag) == "" && Trim(g.classAttribute) != ""
    ensures MarkdownExtensionHtml(input, lineLength, g, toHtml)
      == ExtensionElement(TagChoice(Some("span"), Trim(g.classAttribute), Trim(g.styleAttribute)), g.userText, |input| == lineLength, toHtml)
  {
  }

  /** A tag that cannot be read as "p>": an element written with it starts with "<p>" only when wrapped. */
  predicate NotParagraphTag(t: string) {
    |t| > 0 && (t[0] == 'p' ==> |t| > 1 && t[1] != '>')
  }

  /** Every tag ChooseTag picks is one that cannot be read as a paragraph. */
  lemma ChosenTagNotParagraph(htmlTag: string, classAttribute: string, styleAttribute: string)
    requires ChooseTag(htmlTag, classAttribute, styleAttribute).tag.Some?
    ensures NotParagraphTag(ChooseTag(htmlTag, classAttribute, styleAttribute).tag.value)
  {
    if htmlTag != "" {
      HtmlTagValues(htmlTag);
    }
  }

  /** An element starts with <p> exactly when it is wrapped as a paragraph. */
  lemma ElementStart(c: TagChoice, userText: string, paragraph: bool, toHtml: string -> string)
    requires c.tag.Some? && NotParagraphTag(c.tag.value)
    ensures var r := ExtensionElement(c, userText, paragraph, toHtml);
      (paragraph <==> StartsWith(r, "<p>")) && StartsWith(r, if paragraph then "<p><" + c.tag.value else "<" + c.tag.value)
  {
    var r := ExtensionElement(c, userText, paragraph, toHtml);
    var t := c.tag.value;
    if paragraph {
      assert r[..3] == ("<p><" + t)[..3];
    } else {
      assert r[..1 + |t|] == "<" + t;
      assert r[1] == t[0];
      if t[0] == 'p' {
        assert r[2] == t[1];
      }
    }
  }

  /** With a tag chosen, the replacement is that element, and the <p> wrapper appears exactly when
      the matched text is the whole line. */
  lemma ExtensionParagraph(input: string, lineLength: int, g: ExtensionGroups, toHtml: string -> string)
    requires g.userText != "" && !(Trim(g.htmlTag) == "" && Trim(g.classAttribute) == "" && Trim(g.styleAttribute) == "")
    requires ChooseTag(Trim(g.htmlTag), Trim(g.classAttribute), Trim(g.styleAttribute)).tag.Some?
    ensures var c := ChooseTag(Trim(g.htmlTag), Trim(g.classAttribute), Trim(g.styleAttribute));
      var r := MarkdownExtensionHtml(input, lineLength, g, toHtml);
      r == ExtensionElement(c, g.userText, |input| == lineLength, toHtml)
      && (|input| == lineLength <==> StartsWith(r, "<p>"))
      && StartsWith(r, if |input| == lineLength then "<p><" + c.tag.value else "<" + c.tag.value)
  {
    var c := ChooseTag(Trim(g.htmlTag), Trim(g.classAttribute), Trim(g.styleAttribute));
    ChosenTagNotParagraph(Trim(g.htmlTag), Trim(g.classAttribute), Trim(g.styleAttribute));
    ElementStart(c, g.userText, |input| == lineLength, toHtml);
  }

  /** The tags written as a span classed by their own name are big, center and font. */
  lemma ClassMarkerTags(name: string, classAttribute: string, styleAttribute: string)
    requires HtmlTag(name) == Some(ClassMarker)
    ensures name in {"big", "center", "font"}
    ensures ChooseTag(name, classAttribute, styleAttribute) == TagChoice(Some("span"), Trim(name + " " + classAttribute), styleAttribute)
  {
  }

  /** The parts with their outputs after produceFigureCaption's loop: unmatched parts keep a null output. */
  function FigureSpans(found: seq<Found>, matches: seq<Option<FigureGroups>>, toHtml: string -> string, toPlain: string -> string): (r: seq<Span>)
    requires |found| == |matches|
    ensures |r| == |found|
    ensures forall i :: 0 <= i < |found| ==>
      (r[i].start == found[i].start && r[i].end == found[i].end && (r[i].output.None? <==> matches[i].None?))
  {
    seq(|found|, i requires 0 <= i < |found| =>
      Span(found[i].start, found[i].end,
           if matches[i].Some? then Some(FigureCaptionHtml(found[i].input, matches[i].value, toHtml, toPlain)) else None))
  }

  /** The parts with their outputs after produceMarkdownExtension's loop. */
  function ExtensionSpans(lineLength: int, found: seq<Found>, matches: seq<Option<ExtensionGroups>>, toHtml: string -> string): (r: seq<Span>)
    requires |found| == |matches|
    ensures |r| == |found|
    ensures forall i :: 0 <= i < |found| ==>
      (r[i].start == found[i].start && r[i].end == found[i].end && (r[i].output.None? <==> matches[i].None?))
  {
    seq(|found|, i requires 0 <= i < |found| =>
      Span(found[i].start, found[i].end,
           if matches[i].Some? then Some(MarkdownExtensionHtml(found[i].input, lineLength, matches[i].value, toHtml)) else None))
  }

  function FoundSpans(found: seq<Found>): (r: seq<Span>)
    ensures |r| == |found|
    ensures forall i :: 0 <= i < |found| ==> r[i] == Span(found[i].start, found[i].end, None)
  {
    seq(|found|, i requires 0 <= i < |found| => Span(found[i].start, found[i].end, None))
  }

  /** ValidFrom depends only on the spans' positions. */
  lemma {:induction false} ValidFromPositions(a: seq<Span>, b: seq<Span>, pos: int, n: int)
    requires |a| == |b| && forall i :: 0 <= i < |a| ==> a[i].start == b[i].start && a[i].end == b[i].end
    requires ValidFrom(a, pos, n)
    ensures ValidFrom(b, pos, n)
    decreases |a|
  {
    if a != [] {
      ValidFromPositions(a[1..], b[1..], a[0].end, n);
    }
  }

  /** One PartData per found span, in order, each with a null output. */
  method NewParts(found: seq<Found>) returns (parts: seq<PartData>)
    ensures |parts| == |found|
    ensures forall i :: 0 <= i < |found| ==> fresh(parts[i])
    ensures forall i, j :: 0 <= i < j < |found| ==> parts[i] != parts[j]
    ensures SpansOf(parts) == FoundSpans(found)
    ensures forall i :: 0 <= i < |found| ==> parts[i].input == found[i].input
  {
    parts := [];
    var i := 0;
    while i < |found|
      invariant 0 <= i <= |found| && |parts| == i
      invariant forall k :: 0 <= k < i ==> fresh(parts[k])
      invariant forall k, j :: 0 <= k < j < i ==> parts[k] != parts[j]
      invariant forall k :: 0 <= k < i ==>
        (parts[k].start == found[k].start && parts[k].end == found[k].end && parts[k].output == None && parts[k].input == found[k].input)
    {
      var p := new PartData(found[i].start, found[i].end, found[i].input);
      parts := parts + [p];
      i := i + 1;
    }
  }

  /** produceFigureCaption: null or empty lines are returned as they are; otherwise each matched part is
      rendered and the line is rebuilt by getLine. */
  method ProduceFigureCaption(line: Option<string>, found: seq<Found>, matches: seq<Option<FigureGroups>>,
                              toHtml: string -> string, toPlain: string -> string) returns (r: Option<string>)
    requires |found| == |matches|
    requires line.Some? ==> ValidFrom(FoundSpans(found), 0, |line.value|)
    ensures line.None? || line.value == "" ==> r == line
    ensures line.Some? && line.value != "" ==>
      ValidFrom(FigureSpans(found, matches, toHtml, toPlain), 0, |line.value|)
      && r == Some(Spliced(line.value, FigureSpans(found, matches, toHtml, toPlain)))
  {
    if line.None? || line.value == "" {
      return line;
    }
    var parts := NewParts(found);
    var render := (input: string, g: FigureGroups) => FigureCaptionHtml(input, g, toHtml, toPlain);
    FillParts(parts, found, matches, render);
    FigureRendered(found, matches, toHtml, toPlain, render);
    ValidFromPositions(FoundSpans(found), FigureSpans(found, matches, toHtml, toPlain), 0, |line.value|);
    var text := GetLine(line.value, parts);
    r := Some(text);
  }

  /** produceMarkdownExtension: as produceFigureCaption, with the extension rendering. */
  method ProduceMarkdownExtension(line: Option<string>, found: seq<Found>, matches: seq<Option<ExtensionGroups>>,
                                  toHtml: string -> string) returns (r: Option<string>)
    requires |found| == |matches|
    requires line.Some? ==> ValidFrom(FoundSpans(found), 0, |line.value|)
    ensures line.None? || line.value == "" ==> r == line
    ensures line.Some? && line.value != "" ==>
      ValidFrom(ExtensionSpans(|line.value|, found, matches, toHtml), 0, |line.value|)
      && r == Some(Spliced(line.value, ExtensionSpans(|line.value|, found, matches, toHtml)))
  {
    if line.None? || line.value == "" {
      return line;
    }
    var parts := NewParts(found);
    var render := (input: string, g: ExtensionGroups) => MarkdownExtensionHtml(input, |line.value|, g, toHtml);
    FillParts(parts, found, matches, render);
    ExtensionRendered(|line.value|, found, matches, toHtml, render);
    ValidFromPositions(FoundSpans(found), ExtensionSpans(|line.value|, found, matches, toHtml), 0, |line.value|);
    var text := GetLine(line.value, parts);
    r := Some(text);
  }

  /** The parts with the outputs a renderer gives the matched ones; unmatched parts keep a null output. */
  function RenderedSpans<G>(found: seq<Found>, matches: seq<Option<G>>, render: (string, G) -> string): (r: seq<Span>)
    requires |found| == |matches|
    ensures |r| == |found|
  {
    seq(|found|, i requires 0 <= i < |found| =>
      Span(found[i].start, found[i].end, if matches[i].Some? then Some(render(found[i].input, matches[i].value)) else None))
  }

  /** The loop shared by produceFigureCaption and produceMarkdownExtension: every matched part gets
      the rendering of its match as output. */
  method FillParts<G>(parts: seq<PartData>, found: seq<Found>, matches: seq<Option<G>>, render: (string, G) -> string)
    requires |parts| == |found| == |matches| && SpansOf(parts) == FoundSpans(found)
    requires forall i, j :: 0 <= i < j < |parts| ==> parts[i] != parts[j]
    requires forall i :: 0 <= i < |parts| ==> parts[i].input == found[i].input
    modifies parts
    ensures SpansOf(parts) == RenderedSpans(found, matches, render)
  {
    ghost var expected := RenderedSpans(found, matches, render);
    var i := 0;
    while i < |parts|
      invariant 0 <= i <= |parts|
      invariant forall k :: 0 <= k < i ==> parts[k].output == expected[k].output
      invariant forall k :: i <= k < |parts| ==> parts[k].output == None
    {
      var part := parts[i];
      if matches[i].Some? {
        part.output := Some(render(part.input, matches[i].value));
      }
      i := i + 1;
    }
    assert forall k :: 0 <= k < |parts| ==> parts[k].start == found[k].start && parts[k].end == found[k].end;
  }

  /** Rendering with the figure of produceFigureCaption gives FigureSpans. */
  lemma FigureRendered(found: seq<Found>, matches: seq<Option<FigureGroups>>, toHtml: string -> string,
                       toPlain: string -> string, render: (string, FigureGroups) -> string)
    requires |found| == |matches|
    requires forall input, g :: render(input, g) == FigureCaptionHtml(input, g, toHtml, toPlain)
    ensures RenderedSpans(found, matches, render) == FigureSpans(found, matches, toHtml, toPlain)
  {
  }

  /** Rendering with the element of produceMarkdownExtension gives ExtensionSpans. */
  lemma ExtensionRendered(lineLength: int, found: seq<Found>, matches: seq<Option<ExtensionGroups>>,
                          toHtml: string -> string, render: (string, ExtensionGroups) -> string)
    requires |found| == |matches|
    requires forall input, g :: render(input, g) == MarkdownExtensionHtml(input, lineLength, g, toHtml)
    ensures RenderedSpans(found, matches, render) == ExtensionSpans(lineLength, found, matches, toHtml)
  {
  }

  /** As written, a part the search found but the full pattern rejects keeps a null output, which
      getLine writes as "null": a line that is only such a part becomes "null". */
  lemma UnmatchedFigureAsWritten(line: string, toHtml: string -> string, toPlain: string -> string)
    requires line != ""
    ensures var spans := FigureSpans([Found(0, |line|, line)], [None], toHtml, toPlain);
      ValidFrom(spans, 0, |line|) && Spliced(line, spans) == "null"
  {
    var spans := FigureSpans([Found(0, |line|, line)], [None], toHtml, toPlain);
    assert |spans| == 1 && spans[0] == Span(0, |line|, None);
    assert ValidFrom(spans[1..], |line|, |line|);
    assert SpliceFrom(line, spans[1..], |line|) == "";
    assert SpliceFrom(line, spans, 0) == line[0..0] + AppendText(None) + "";
  }

  /** A found part whose text is the line's text at its position. */
  predicate FoundIn(line: string, f: Found) {
    0 <= f.start <= f.end <= |line| && f.input == line[f.start..f.end]
  }

  /** The parts after produceFigureCaption's loop with rejected parts keeping their own text. */
  function FigureSpansCorrected(found: seq<Found>, matches: seq<Option<FigureGroups>>, toHtml: string -> string, toPlain: string -> string): (r: seq<Span>)
    requires |found| == |matches|
    ensures |r| == |found|
    ensures forall i :: 0 <= i < |found| ==>
      (r[i].start == found[i].start && r[i].end == found[i].end && r[i].output.Some?)
  {
    seq(|found|, i requires 0 <= i < |found| =>
      Span(found[i].start, found[i].end,
           Some(if matches[i].Some? then FigureCaptionHtml(found[i].input, matches[i].value, toHtml, toPlain) else found[i].input)))
  }

  /** Corrected, a line none of whose parts fully matches comes back unchanged. */
  lemma UnmatchedFigureCorrected(line: string, found: seq<Found>, matches: seq<Option<FigureGroups>>,
                                 toHtml: string -> string, toPlain: string -> string)
    requires |found| == |matches| && ValidFrom(FoundSpans(found), 0, |line|)
    requires forall i :: 0 <= i < |found| ==> FoundIn(line, found[i]) && matches[i].None?
    ensures var spans := FigureSpansCorrected(found, matches, toHtml, toPlain);
      ValidFrom(spans, 0, |line|) && Spliced(line, spans) == line
  {
    var spans := FigureSpansCorrected(found, matches, toHtml, toPlain);
    ValidFromPositions(FoundSpans(found), spans, 0, |line|);
    assert forall i :: 0 <= i < |spans| ==> KeepsText(line, spans[i]);
    SplicedIdentity(line, spans);
  }
}
