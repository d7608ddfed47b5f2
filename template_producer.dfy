/**
 * TemplateProducerBase: substitution of bracketed tags ("<#name>") and plain tags ("$TAG_name") in
 * the lines of a template. The abstract hooks of the class (onTag, the before/after line hooks and the
 * before/after produce hooks) are pure functions and constant line lists supplied at construction.
 *
 * produceLine does not always terminate: its nested-tag branch rebuilds the line without moving the
 * scan position, so an inner tag that stays unsubstituted makes it loop for ever. The model carries
 * a fuel count that bounds the number of nested-branch steps; Diverged is the outcome once it runs out.
 */
module TemplateProducer {
  import opened Wrappers
  import opened JavaStrings

  /** How a production ends: with a value, out of fuel (the source's endless loop), or with the
      StringIndexOutOfBoundsException a substring call throws. */
  datatype Outcome<T> = Done(value: T) | Diverged | OutOfBounds

  /** A failed outcome carried over to another result type. */
  function Failed<U, T>(o: Outcome<U>): (r: Outcome<T>)
    requires !o.Done?
    ensures !r.Done? && (r.Diverged? <==> o.Diverged?)
  {
    if o.Diverged? then Diverged else OutOfBounds
  }

  /** The three tag fields. */
  datatype Tags = Tags(startTag: string, endTag: string, tag: string)

  /** The field values the constructors set. */
  const DefaultTags := Tags("<#", ">", "$TAG_")

  /** The abstract members a concrete producer supplies. onTag answers None for Java's null. */
  datatype Hooks = Hooks(beforeProduceLine: string -> string, afterProduceLine: string -> string,
                         onTag: string -> Option<string>, beforeProduce: seq<string>, afterProduce: seq<string>)

  /** A character a plain tag's name may hold: '_', a letter or a digit. */
  predicate IsNameChar(c: char) {
    c == '_' || IsAsciiLetter(c) || IsAsciiDigit(c)
  }

  /** Where the name scan starting at i stops: the first index at or after i that is not a name
      character, the line length if there is none, or i itself when i is already past the end. */
  function NameEnd(line: string, i: nat): (r: nat)
    ensures i <= r && (r <= |line| || r == i)
    decreases |line| - i
  {
    if i >= |line| then i
    else if IsNameChar(line[i]) then NameEnd(line, i + 1)
    else i
  }

  /** The scanned name is the longest run of name characters from i. */
  lemma {:induction false} NameEndSpans(line: string, i: nat)
    ensures forall k :: i <= k < NameEnd(line, i) ==> k < |line| && IsNameChar(line[k])
    ensures NameEnd(line, i) < |line| ==> !IsNameChar(line[NameEnd(line, i)])
    decreases |line| - i
  {
    if i < |line| && IsNameChar(line[i]) {
      NameEndSpans(line, i + 1);
      assert NameEnd(line, i) == NameEnd(line, i + 1);
    } else {
      assert NameEnd(line, i) == i;
    }
  }

  /** The scan measure: what is left of the line from pos on, and 0 once the scan has stopped. */
  function Remaining(line: string, pos: int): nat
    requires pos <= |line|
  {
    if pos < 0 then 0 else |line| - pos + 1
  }

  /** The bracketed-tag loop of produceLine from a start tag found at pos (or -1). */
  function BracketsFrom(fuel: nat, t: Tags, onTag: string -> Option<string>, line: string, pos: int): Outcome<string>
    requires pos == -1 || OccursAt(line, t.startTag, pos)
    decreases fuel, 0, Remaining(line, pos), 2
  {
    if pos == -1 then Done(line)
    else BracketAt(fuel, t, onTag, line, pos, IndexOfFrom(line, t.endTag, pos + |t.startTag|))
  }

  /** One turn of the bracketed-tag loop, with the start tag at pos and end the first end tag
      after it (or -1): a section holding a start tag is produced on its own first (the nested branch),
      any other section is replaced (ReplaceAt). */
  function BracketAt(fuel: nat, t: Tags, onTag: string -> Option<string>, line: string, pos: int, end: int): Outcome<string>
    requires OccursAt(line, t.startTag, pos) && end == IndexOfFrom(line, t.endTag, pos + |t.startTag|)
    decreases fuel, 0, Remaining(line, pos), 1
  {
    if end == -1 then Done(line)
    else if Contains(line[pos + |t.startTag|..end], t.startTag) then
      if fuel == 0 then Diverged
      else ResumeAfterNested(fuel - 1, t, onTag, line, pos, end, ProduceLineSpec(fuel - 1, t, onTag, line[pos + |t.startTag|..end] + t.endTag))
    else ReplaceAt(fuel, t, onTag, line, pos, end)
  }

  /** The replacing turn of the bracketed-tag loop: the section is replaced by onTag's value, or kept
      as it was when there is none, and the scan resumes after the inserted text. */
  function ReplaceAt(fuel: nat, t: Tags, onTag: string -> Option<string>, line: string, pos: int, end: int): Outcome<string>
    requires OccursAt(line, t.startTag, pos) && end == IndexOfFrom(line, t.endTag, pos + |t.startTag|) && end != -1
    requires !Contains(line[pos + |t.startTag|..end], t.startTag)
    decreases fuel, 0, Remaining(line, pos), 0
  {
    var section := line[pos + |t.startTag|..end];
    StartTagNotEmpty(t.startTag, section);
    var prefix := line[..pos] + TagText(t, onTag, section);
    var next := prefix + line[end + |t.endTag|..];
    BracketsFrom(fuel, t, onTag, next, IndexOfFrom(next, t.startTag, |prefix|))
  }

  /** The text that takes the place of a bracketed tag around section: onTag's value, or the tag as it was. */
  function TagText(t: Tags, onTag: string -> Option<string>, section: string): string {
    match onTag(section) case Some(v) => v case None => t.startTag + section + t.endTag
  }

  /** The bracketed-tag loop after a nested section was produced: the produced section replaces the
      old one, and the loop goes on from the same start tag. */
  function ResumeAfterNested(fuel: nat, t: Tags, onTag: string -> Option<string>, line: string, pos: int, end: int,
                             produced: Outcome<string>): Outcome<string>
    requires OccursAt(line, t.startTag, pos) && pos + |t.startTag| <= end && end + |t.endTag| <= |line|
    decreases fuel, 1, 0, 0
  {
    match produced
    case Done(inner) =>
      var next := line[..pos + |t.startTag|] + inner + line[end + |t.endTag|..];
      assert next[pos..pos + |t.startTag|] == line[pos..pos + |t.startTag|];
      BracketsFrom(fuel, t, onTag, next, pos)
    case Diverged => Diverged
    case OutOfBounds => OutOfBounds
  }

  /** The plain-tag loop of produceLine from a tag found at pos (or -1). */
  function PlainFrom(t: Tags, onTag: string -> Option<string>, line: string, pos: int): Outcome<string>
    requires pos == -1 || OccursAt(line, t.tag, pos)
    decreases Remaining(line, pos)
  {
    if pos == -1 then Done(line)
    else
      var end := NameEnd(line, pos + 1);
      if end > |line| || end < pos + |t.tag| then OutOfBounds
      else
        var prefix := line[..pos] + PlainText(t, onTag, line, pos, end);
        var next := prefix + line[end..];
        PlainFrom(t, onTag, next, IndexOfFrom(next, t.tag, |prefix|))
  }

  /** produceLine: the bracketed tags first, then the plain tags of the resulting line. */
  function ProduceLineSpec(fuel: nat, t: Tags, onTag: string -> Option<string>, line: string): Outcome<string>
    decreases fuel, 2, 0, 0
  {
    match BracketsFrom(fuel, t, onTag, line, IndexOf(line, t.startTag))
    case Done(l) => PlainFrom(t, onTag, l, IndexOf(l, t.tag))
    case Diverged => Diverged
    case OutOfBounds => OutOfBounds
  }

  /** One template line: beforeProduceLine, produceLine, afterProduceLine. */
  function ProcessLine(fuel: nat, t: Tags, h: Hooks, line: string): Outcome<string> {
    match ProduceLineSpec(fuel, t, h.onTag, h.beforeProduceLine(line))
    case Done(l) => Done(h.afterProduceLine(l))
    case Diverged => Diverged
    case OutOfBounds => OutOfBounds
  }

  /** The processed lines in order, or the outcome of the first line that fails. */
  function LinesUpTo(process: string -> Outcome<string>, lines: seq<string>): Outcome<seq<string>> {
    if lines == [] then Done([])
    else
      match LinesUpTo(process, lines[..|lines| - 1])
      case Done(xs) =>
        (match process(lines[|lines| - 1])
         case Done(x) => Done(xs + [x])
         case Diverged => Diverged
         case OutOfBounds => OutOfBounds)
      case Diverged => Diverged
      case OutOfBounds => OutOfBounds
  }

  /** ProcessLine with its fuel, tags and hooks fixed. */
  function Processor(fuel: nat, t: Tags, h: Hooks): string -> Outcome<string> {
    line => ProcessLine(fuel, t, h, line)
  }

  /** produce(List): beforeProduce, one processed line per template line, afterProduce. */
  function ProduceSpec(fuel: nat, t: Tags, h: Hooks, lines: seq<string>): Outcome<seq<string>> {
    match LinesUpTo(Processor(fuel, t, h), lines)
    case Done(xs) => Done(h.beforeProduce + xs + h.afterProduce)
    case Diverged => Diverged
    case OutOfBounds => OutOfBounds
  }

  /** produceSingleLine: a null or empty line is returned without calling any hook. */
  function ProduceSingleLineSpec(fuel: nat, t: Tags, h: Hooks, line: Option<string>): Outcome<Option<string>> {
    if line.None? || line.value == "" then Done(line)
    else
      match ProcessLine(fuel, t, h, line.value)
      case Done(l) => Done(Some(l))
      case Diverged => Diverged
      case OutOfBounds => OutOfBounds
  }

  /** The name scan of the plain-tag loop, as the source's for loop. */
  method ScanName(line: string, start: nat) returns (end: nat)
    ensures end == NameEnd(line, start)
  {
    end := start;
    while end < |line| && IsNameChar(line[end])
      invariant start <= end && NameEnd(line, end) == NameEnd(line, start)
      decreases |line| - end
    {
      end := end + 1;
    }
  }

  class TemplateProducerBase {
    var startTag: string
    var endTag: string
    var tag: string
    var baseDir: Option<string>
    var template: seq<string>
    const hooks: Hooks

    function CurrentTags(): Tags
      reads this
    {
      Tags(startTag, endTag, tag)
    }

    /** TemplateProducerBase(baseDir, template): the default tags. */
    constructor (baseDir: Option<string>, template: seq<string>, hooks: Hooks)
      ensures CurrentTags() == DefaultTags
      ensures this.baseDir == baseDir && this.template == template && this.hooks == hooks
    {
      startTag := "<#";
      endTag := ">";
      tag := "$TAG_";
      this.baseDir := baseDir;
      this.template := template;
      this.hooks := hooks;
    }

    method SetStartTag(startTag: string)
      modifies this
      ensures CurrentTags() == old(CurrentTags()).(startTag := startTag)
      ensures baseDir == old(baseDir) && template == old(template)
    {
      this.startTag := startTag;
    }

    method SetEndTag(endTag: string)
      modifies this
      ensures CurrentTags() == old(CurrentTags()).(endTag := endTag)
      ensures baseDir == old(baseDir) && template == old(template)
    {
      this.endTag := endTag;
    }

    method SetTag(tag: string)
      modifies this
      ensures CurrentTags() == old(CurrentTags()).(tag := tag)
      ensures baseDir == old(baseDir) && template == old(template)
    {
      this.tag := tag;
    }

    method SetTemplate(template: seq<string>)
      modifies this
      ensures CurrentTags() == old(CurrentTags()) && baseDir == old(baseDir) && this.template == template
    {
      this.template := template;
    }

    /** produceLine, with at most fuel nested-branch steps. */
    method ProduceLine(line: string, fuel: nat) returns (r: Outcome<string>)
      ensures r == ProduceLineSpec(fuel, CurrentTags(), hooks.onTag, line)
      decreases fuel, 3
    {
      var bracketed := BracketPass(line, fuel);
      if bracketed.Done? {
        r := PlainPass(bracketed.value);
      } else {
        r := bracketed;
      }
    }

    /** The bracketed-tag loop of produceLine. */
    method BracketPass(line: string, fuel: nat) returns (r: Outcome<string>)
      ensures r == BracketsFrom(fuel, CurrentTags(), hooks.onTag, line, IndexOf(line, startTag))
      decreases fuel, 2
    {
      ghost var goal := BracketsFrom(fuel, CurrentTags(), hooks.onTag, line, IndexOf(line, startTag));
      var l := line;
      var f: nat := fuel;
      var pos := IndexOf(l, startTag);
      while pos != -1
        invariant f <= fuel
        invariant pos == -1 || OccursAt(l, startTag, pos)
        invariant BracketsFrom(f, CurrentTags(), hooks.onTag, l, pos) == goal
        decreases f, Remaining(l, pos)
      {
        var done, outcome, l', pos', f' := BracketTurn(l, pos, f);
        if done {
          return outcome;
        }
        l, pos, f := l', pos', f';
      }
      r := Done(l);
    }

    /** One turn of the bracketed-tag loop from the start tag at pos: the loop ends with an outcome
        (no end tag, no nested steps left, or a failed nested section), or goes on from a new line,
        position and number of nested steps left. */
    method BracketTurn(line: string, pos: int, fuel: nat)
      returns (done: bool, r: Outcome<string>, next: string, resume: int, fuel': nat)
      requires OccursAt(line, startTag, pos)
      ensures done ==> r == BracketsFrom(fuel, CurrentTags(), hooks.onTag, line, pos)
      ensures !done ==> resume == -1 || OccursAt(next, startTag, resume)
      ensures !done ==> fuel' < fuel || (fuel' == fuel && Remaining(next, resume) < Remaining(line, pos))
      ensures !done ==> BracketsFrom(fuel, CurrentTags(), hooks.onTag, line, pos) == BracketsFrom(fuel', CurrentTags(), hooks.onTag, next, resume)
      decreases fuel, 1
    {
      done, r, next, resume, fuel' := true, Done(line), line, pos, fuel;
      var end := IndexOfFrom(line, endTag, pos + |startTag|);
      if end == -1 {
        BracketsNoEnd(fuel, CurrentTags(), hooks.onTag, line, pos);
        return;
      }
      var section := line[pos + |startTag|..end];
      if IndexOf(section, startTag) != -1 {
        if fuel == 0 {
          BracketsDiverge(CurrentTags(), hooks.onTag, line, pos, end);
          r := Diverged;
          return;
        }
        r := NestedStep(line, pos, end, fuel);
        if r.Done? {
          done, next, fuel' := false, r.value, fuel - 1;
        }
      } else {
        done := false;
        next, resume := ReplaceTag(line, pos, end, fuel);
      }
    }

    /** The replacing branch of the bracketed-tag loop: the tag from pos to the end tag at end becomes
        onTag's value, or stays as it was when onTag has none, and the scan resumes after it. */
    method ReplaceTag(line: string, pos: int, end: int, ghost fuel: nat) returns (next: string, resume: int)
      requires OccursAt(line, startTag, pos) && end == IndexOfFrom(line, endTag, pos + |startTag|) && end != -1
      requires !Contains(line[pos + |startTag|..end], startTag)
      ensures resume == -1 || OccursAt(next, startTag, resume)
      ensures Remaining(next, resume) < Remaining(line, pos)
      ensures BracketsFrom(fuel, CurrentTags(), hooks.onTag, line, pos) == BracketsFrom(fuel, CurrentTags(), hooks.onTag, next, resume)
    {
      var section := line[pos + |startTag|..end];
      var value := hooks.onTag(section);
      var text := if value.Some? then value.value else startTag + section + endTag;
      assert text == TagText(CurrentTags(), hooks.onTag, section);
      var prefix := line[..pos] + text;
      next := prefix + line[end + |endTag|..];
      resume := IndexOfFrom(next, startTag, |prefix|);
      BracketReplaceStep(fuel, CurrentTags(), hooks.onTag, line, pos, end, prefix, next, resume);
    }

    /** The nested branch of the bracketed-tag loop: the section between the start tag at pos and the
        end tag at end is produced on its own, followed by the end tag, and put back in its place. */
    method NestedStep(line: string, pos: int, end: int, fuel: nat) returns (r: Outcome<string>)
      requires fuel > 0
      requires OccursAt(line, startTag, pos) && end == IndexOfFrom(line, endTag, pos + |startTag|) && end != -1
      requires Contains(line[pos + |startTag|..end], startTag)
      ensures r.Done? ==> OccursAt(r.value, startTag, pos)
      ensures r.Done? ==>
        BracketsFrom(fuel, CurrentTags(), hooks.onTag, line, pos) == BracketsFrom(fuel - 1, CurrentTags(), hooks.onTag, r.value, pos)
      ensures !r.Done? ==> r == BracketsFrom(fuel, CurrentTags(), hooks.onTag, line, pos)
      decreases fuel, 0
    {
      var t := CurrentTags();
      var inner := ProduceLine(line[pos + |t.startTag|..end] + t.endTag, fuel - 1);
      if !inner.Done? {
        r := inner;
      } else {
        r := Done(line[..pos + |t.startTag|] + inner.value + line[end + |t.endTag|..]);
      }
      NestedOutcome(fuel, t, hooks.onTag, line, pos, end, inner, r);
    }

    /** The plain-tag loop of produceLine. */
    method PlainPass(line: string) returns (r: Outcome<string>)
      ensures r == PlainFrom(CurrentTags(), hooks.onTag, line, IndexOf(line, tag))
    {
      ghost var goal := PlainFrom(CurrentTags(), hooks.onTag, line, IndexOf(line, tag));
      var l := line;
      var pos := IndexOf(l, tag);
      while pos != -1
        invariant pos == -1 || OccursAt(l, tag, pos)
        invariant PlainFrom(CurrentTags(), hooks.onTag, l, pos) == goal
        decreases Remaining(l, pos)
      {
        var failed, l', pos' := PlainTurn(l, pos);
        if failed {
          return OutOfBounds;
        }
        l, pos := l', pos';
      }
      return Done(l);
    }

    /** One turn of the plain-tag loop from the tag at pos: the name scan fails as substring does, or
        the tag is replaced by onTag's value (or kept as it was) and the scan resumes after it. */
    method PlainTurn(line: string, pos: int) returns (failed: bool, next: string, resume: int)
      requires OccursAt(line, tag, pos)
      ensures failed ==> PlainFrom(CurrentTags(), hooks.onTag, line, pos) == OutOfBounds
      ensures !failed ==> resume == -1 || OccursAt(next, tag, resume)
      ensures !failed ==> Remaining(next, resume) < Remaining(line, pos)
      ensures !failed ==> PlainFrom(CurrentTags(), hooks.onTag, line, pos) == PlainFrom(CurrentTags(), hooks.onTag, next, resume)
    {
      failed, next, resume := true, line, pos;
      var end := ScanName(line, pos + 1);
      if end > |line| || end < pos + |tag| {
        PlainOutOfBounds(CurrentTags(), hooks.onTag, line, pos);
        return;
      }
      var value := hooks.onTag(line[pos + |tag|..end]);
      var text := if value.Some? then value.value else line[pos..end];
      assert text == PlainText(CurrentTags(), hooks.onTag, line, pos, end);
      var prefix := line[..pos] + text;
      failed := false;
      next := prefix + line[end..];
      resume := IndexOfFrom(next, tag, |prefix|);
      PlainReplaceStep(CurrentTags(), hooks.onTag, line, pos, end, prefix, next, resume);
    }

    /** beforeProduceLine, produceLine and afterProduceLine on one line. */
    method ProcessTemplateLine(line: string, fuel: nat) returns (r: Outcome<string>)
      ensures r == ProcessLine(fuel, CurrentTags(), hooks, line)
    {
      var produced := ProduceLine(hooks.beforeProduceLine(line), fuel);
      if produced.Done? {
        r := Done(hooks.afterProduceLine(produced.value));
      } else {
        r := produced;
      }
    }

    /** produce(List): the lines of beforeProduce, each template line processed in order, then
        the lines of afterProduce; a failing line ends the production. */
    method Produce(lines: seq<string>, fuel: nat) returns (r: Outcome<seq<string>>)
      ensures r == ProduceSpec(fuel, CurrentTags(), hooks, lines)
    {
      ghost var process := Processor(fuel, CurrentTags(), hooks);
      ghost var xs := [];
      var result := hooks.beforeProduce;
      var i := 0;
      while i < |lines|
        invariant 0 <= i <= |lines|
        invariant LinesUpTo(process, lines[..i]) == Done(xs) && result == hooks.beforeProduce + xs
      {
        var line := ProcessTemplateLine(lines[i], fuel);
        assert process(lines[i]) == line;
        if !line.Done? {
          LinesStop(process, lines, i);
          return Failed(line);
        }
        LinesGrow(process, lines, i, xs, line.value);
        result, xs := result + [line.value], xs + [line.value];
        i := i + 1;
      }
      assert lines[..i] == lines;
      r := Done(result + hooks.afterProduce);
    }

    /** produce(): the stored template. */
    method ProduceTemplate(fuel: nat) returns (r: Outcome<seq<string>>)
      ensures r == ProduceSpec(fuel, CurrentTags(), hooks, template)
    {
      r := Produce(template, fuel);
    }

    /** produceSingleLine. */
    method ProduceSingleLine(line: Option<string>, fuel: nat) returns (r: Outcome<Option<string>>)
      ensures r == ProduceSingleLineSpec(fuel, CurrentTags(), hooks, line)
    {
      if line.None? || line.value == "" {
        return Done(line);
      }
      var produced := ProcessTemplateLine(line.value, fuel);
      if produced.Done? {
        r := Done(Some(produced.value));
      } else {
        r := Failed(produced);
      }
    }
  }

  /** Once a prefix of the template fails, the whole production fails the same way. */
  lemma {:induction false} FailurePersists(process: string -> Outcome<string>, lines: seq<string>, n: nat)
    requires n <= |lines| && !LinesUpTo(process, lines[..n]).Done?
    ensures LinesUpTo(process, lines) == LinesUpTo(process, lines[..n])
    decreases |lines| - n
  {
    if n < |lines| {
      assert lines[..n + 1][..n] == lines[..n];
      FailurePersists(process, lines, n + 1);
    } else {
      assert lines[..n] == lines;
    }
  }

  /** A processed line joins the lines processed before it. */
  lemma {:induction false} LinesGrow(process: string -> Outcome<string>, lines: seq<string>, i: nat, xs: seq<string>, x: string)
    requires i < |lines| && LinesUpTo(process, lines[..i]) == Done(xs) && process(lines[i]) == Done(x)
    ensures LinesUpTo(process, lines[..i + 1]) == Done(xs + [x])
  {
    assert lines[..i + 1][..i] == lines[..i];
  }

  /** A line that fails after the lines before it were processed ends the whole production. */
  lemma {:induction false} LinesStop(process: string -> Outcome<string>, lines: seq<string>, i: nat)
    requires i < |lines| && LinesUpTo(process, lines[..i]).Done? && !process(lines[i]).Done?
    ensures LinesUpTo(process, lines) == Failed(process(lines[i]))
  {
    assert lines[..i + 1][..i] == lines[..i];
    FailurePersists(process, lines, i + 1);
  }

  /** One replacement of the bracketed-tag loop: the tag is replaced by onTag's value, or kept as it
      was when onTag has none, and the scan resumes after the inserted text. */
  lemma {:induction false} BracketReplaceStep(fuel: nat, t: Tags, onTag: string -> Option<string>, line: string, pos: int, end: int,
                           prefix: string, next: string, resume: int)
    requires OccursAt(line, t.startTag, pos) && end == IndexOfFrom(line, t.endTag, pos + |t.startTag|) && end != -1
    requires !Contains(line[pos + |t.startTag|..end], t.startTag)
    requires prefix == line[..pos] + TagText(t, onTag, line[pos + |t.startTag|..end])
    requires next == prefix + line[end + |t.endTag|..] && resume == IndexOfFrom(next, t.startTag, |prefix|)
    ensures resume == -1 || (|prefix| <= resume && OccursAt(next, t.startTag, resume))
    ensures Remaining(next, resume) < Remaining(line, pos)
    ensures BracketsFrom(fuel, t, onTag, line, pos) == BracketsFrom(fuel, t, onTag, next, resume)
  {
    StartTagNotEmpty(t.startTag, line[pos + |t.startTag|..end]);
    ReplaceAdvances(t, line, pos, end, prefix, next, resume);
    ReplaceUnfolds(fuel, t, onTag, line, pos, end, prefix, next, resume);
  }

  /** The replacing turn of BracketAt, unfolded. */
  lemma {:induction false} ReplaceUnfolds(fuel: nat, t: Tags, onTag: string -> Option<string>, line: string, pos: int, end: int,
                       prefix: string, next: string, resume: int)
    requires OccursAt(line, t.startTag, pos) && end == IndexOfFrom(line, t.endTag, pos + |t.startTag|) && end != -1
    requires !Contains(line[pos + |t.startTag|..end], t.startTag)
    requires prefix == line[..pos] + TagText(t, onTag, line[pos + |t.startTag|..end])
    requires next == prefix + line[end + |t.endTag|..] && resume == IndexOfFrom(next, t.startTag, |prefix|)
    ensures BracketsFrom(fuel, t, onTag, line, pos) == BracketsFrom(fuel, t, onTag, next, resume)
  {
    BracketsFromAt(fuel, t, onTag, line, pos, end);
    BracketAtReplace(fuel, t, onTag, line, pos, end);
    ReplaceAtUnfolds(fuel, t, onTag, line, pos, end, prefix, next, resume);
  }

  /** The replacing turn, chosen. */
  lemma BracketAtReplace(fuel: nat, t: Tags, onTag: string -> Option<string>, line: string, pos: int, end: int)
    requires OccursAt(line, t.startTag, pos) && end == IndexOfFrom(line, t.endTag, pos + |t.startTag|) && end != -1
    requires !Contains(line[pos + |t.startTag|..end], t.startTag)
    ensures BracketAt(fuel, t, onTag, line, pos, end) == ReplaceAt(fuel, t, onTag, line, pos, end)
  {
  }

  /** The replacing turn, unfolded. */
  lemma ReplaceAtUnfolds(fuel: nat, t: Tags, onTag: string -> Option<string>, line: string, pos: int, end: int,
                         prefix: string, next: string, resume: int)
    requires OccursAt(line, t.startTag, pos) && end == IndexOfFrom(line, t.endTag, pos + |t.startTag|) && end != -1
    requires !Contains(line[pos + |t.startTag|..end], t.startTag)
    requires prefix == line[..pos] + TagText(t, onTag, line[pos + |t.startTag|..end])
    requires next == prefix + line[end + |t.endTag|..] && resume == IndexOfFrom(next, t.startTag, |prefix|)
    ensures ReplaceAt(fuel, t, onTag, line, pos, end) == BracketsFrom(fuel, t, onTag, next, resume)
  {
    StartTagNotEmpty(t.startTag, line[pos + |t.startTag|..end]);
  }

  /** A tag some text does not contain is not empty. */
  lemma {:induction false} StartTagNotEmpty(tag: string, section: string)
    requires !Contains(section, tag)
    ensures |tag| > 0
  {
    if |tag| == 0 {
      assert OccursAt(section, tag, 0);
      IndexOfFromLeftmost(section, tag, 0);
    }
  }

  /** After a replacement the scan resumes at or after the inserted text, nearer the end of the line. */
  lemma {:induction false} ReplaceAdvances(t: Tags, line: string, pos: int, end: int, prefix: string, next: string, resume: int)
    requires |t.startTag| > 0 && 0 <= pos && pos + |t.startTag| <= end && end + |t.endTag| <= |line|
    requires |prefix| >= pos && next == prefix + line[end + |t.endTag|..] && resume == IndexOfFrom(next, t.startTag, |prefix|)
    ensures resume == -1 || (|prefix| <= resume && OccursAt(next, t.startTag, resume))
    ensures Remaining(next, resume) < Remaining(line, pos)
  {
  }

  /** A start tag without an end tag after it ends the bracketed-tag loop with the line as it is. */
  lemma {:induction false} BracketsNoEnd(fuel: nat, t: Tags, onTag: string -> Option<string>, line: string, pos: int)
    requires OccursAt(line, t.startTag, pos) && IndexOfFrom(line, t.endTag, pos + |t.startTag|) == -1
    ensures BracketsFrom(fuel, t, onTag, line, pos) == Done(line)
  {
    assert BracketAt(fuel, t, onTag, line, pos, -1) == Done(line);
  }

  /** A nested section with no nested steps left: the loop diverges. */
  lemma {:induction false} BracketsDiverge(t: Tags, onTag: string -> Option<string>, line: string, pos: int, end: int)
    requires OccursAt(line, t.startTag, pos) && end == IndexOfFrom(line, t.endTag, pos + |t.startTag|) && end != -1
    requires Contains(line[pos + |t.startTag|..end], t.startTag)
    ensures BracketsFrom(0, t, onTag, line, pos) == Diverged
  {
    assert BracketAt(0, t, onTag, line, pos, end) == Diverged;
  }

  /** One nested step of the bracketed-tag loop: the section is produced on its own, with the end tag,
      and put back between the start tag and the rest of the line; the scan position does not move. */
  lemma {:induction false} BracketNestedStep(fuel: nat, t: Tags, onTag: string -> Option<string>, line: string, pos: int, end: int,
                          o: Outcome<string>)
    requires fuel > 0
    requires OccursAt(line, t.startTag, pos) && end == IndexOfFrom(line, t.endTag, pos + |t.startTag|) && end != -1
    requires Contains(line[pos + |t.startTag|..end], t.startTag)
    requires o == ProduceLineSpec(fuel - 1, t, onTag, line[pos + |t.startTag|..end] + t.endTag)
    ensures BracketsFrom(fuel, t, onTag, line, pos) == ResumeAfterNested(fuel - 1, t, onTag, line, pos, end, o)
  {
    BracketsFromAt(fuel, t, onTag, line, pos, end);
    BracketAtNested(fuel, t, onTag, line, pos, end);
  }

  /** The bracketed-tag loop at a start tag is its turn with the first end tag after it. */
  lemma BracketsFromAt(fuel: nat, t: Tags, onTag: string -> Option<string>, line: string, pos: int, end: int)
    requires OccursAt(line, t.startTag, pos) && end == IndexOfFrom(line, t.endTag, pos + |t.startTag|)
    ensures BracketsFrom(fuel, t, onTag, line, pos) == BracketAt(fuel, t, onTag, line, pos, end)
  {
  }

  /** The nested turn, unfolded. */
  lemma BracketAtNested(fuel: nat, t: Tags, onTag: string -> Option<string>, line: string, pos: int, end: int)
    requires fuel > 0
    requires OccursAt(line, t.startTag, pos) && end == IndexOfFrom(line, t.endTag, pos + |t.startTag|) && end != -1
    requires Contains(line[pos + |t.startTag|..end], t.startTag)
    ensures BracketAt(fuel, t, onTag, line, pos, end)
      == ResumeAfterNested(fuel - 1, t, onTag, line, pos, end,
                           ProduceLineSpec(fuel - 1, t, onTag, line[pos + |t.startTag|..end] + t.endTag))
  {
  }

  /** A nested step whose section fails: the loop fails the same way. */
  lemma {:induction false} BracketNestedFailed(fuel: nat, t: Tags, onTag: string -> Option<string>, line: string, pos: int, end: int,
                            o: Outcome<string>)
    requires fuel > 0
    requires OccursAt(line, t.startTag, pos) && end == IndexOfFrom(line, t.endTag, pos + |t.startTag|) && end != -1
    requires Contains(line[pos + |t.startTag|..end], t.startTag)
    requires o == ProduceLineSpec(fuel - 1, t, onTag, line[pos + |t.startTag|..end] + t.endTag) && !o.Done?
    ensures BracketsFrom(fuel, t, onTag, line, pos) == o
  {
    BracketNestedStep(fuel, t, onTag, line, pos, end, o);
  }

  /** ResumeAfterNested on a produced section: the loop goes on over the rebuilt line, from the same start tag. */
  lemma {:induction false} ResumeDone(fuel: nat, t: Tags, onTag: string -> Option<string>, line: string, pos: int, end: int, v: string, next: string)
    requires OccursAt(line, t.startTag, pos) && pos + |t.startTag| <= end && end + |t.endTag| <= |line|
    requires next == line[..pos + |t.startTag|] + v + line[end + |t.endTag|..]
    ensures OccursAt(next, t.startTag, pos)
    ensures ResumeAfterNested(fuel, t, onTag, line, pos, end, Done(v)) == BracketsFrom(fuel, t, onTag, next, pos)
  {
    assert next[pos..pos + |t.startTag|] == line[pos..pos + |t.startTag|];
  }

  /** A nested step whose section was produced: the loop goes on over the rebuilt line with one
      nested step fewer, from the same start tag. */
  lemma {:induction false} BracketNestedDone(fuel: nat, t: Tags, onTag: string -> Option<string>, line: string, pos: int, end: int, v: string,
                          next: string)
    requires fuel > 0
    requires OccursAt(line, t.startTag, pos) && end == IndexOfFrom(line, t.endTag, pos + |t.startTag|) && end != -1
    requires Contains(line[pos + |t.startTag|..end], t.startTag)
    requires ProduceLineSpec(fuel - 1, t, onTag, line[pos + |t.startTag|..end] + t.endTag) == Done(v)
    requires next == line[..pos + |t.startTag|] + v + line[end + |t.endTag|..]
    ensures OccursAt(next, t.startTag, pos)
    ensures BracketsFrom(fuel, t, onTag, line, pos) == BracketsFrom(fuel - 1, t, onTag, next, pos)
  {
    ResumeDone(fuel - 1, t, onTag, line, pos, end, v, next);
    BracketNestedStep(fuel, t, onTag, line, pos, end, Done(v));
  }

  /** A nested step, whatever the section's outcome: a produced section is put back and the loop goes
      on from the same start tag with one nested step fewer; a failed one ends the loop. */
  lemma NestedOutcome(fuel: nat, t: Tags, onTag: string -> Option<string>, line: string, pos: int, end: int,
                      inner: Outcome<string>, r: Outcome<string>)
    requires fuel > 0
    requires OccursAt(line, t.startTag, pos) && end == IndexOfFrom(line, t.endTag, pos + |t.startTag|) && end != -1
    requires Contains(line[pos + |t.startTag|..end], t.startTag)
    requires inner == ProduceLineSpec(fuel - 1, t, onTag, line[pos + |t.startTag|..end] + t.endTag)
    requires r == if inner.Done? then Done(line[..pos + |t.startTag|] + inner.value + line[end + |t.endTag|..]) else inner
    ensures r.Done? ==> OccursAt(r.value, t.startTag, pos)
    ensures r.Done? ==> BracketsFrom(fuel, t, onTag, line, pos) == BracketsFrom(fuel - 1, t, onTag, r.value, pos)
    ensures !r.Done? ==> r == BracketsFrom(fuel, t, onTag, line, pos)
  {
    if inner.Done? {
      BracketNestedDone(fuel, t, onTag, line, pos, end, inner.value, r.value);
    } else {
      BracketNestedFailed(fuel, t, onTag, line, pos, end, inner);
    }
  }

  /** More nested steps change nothing once produceLine has finished or failed on a substring call:
      the bound on nested steps only cuts off the endless loop. */
  lemma {:induction false} ProduceLineFuelMonotone(fuel: nat, t: Tags, onTag: string -> Option<string>, line: string)
    ensures ProduceLineSpec(fuel, t, onTag, line) != Diverged ==>
      ProduceLineSpec(fuel + 1, t, onTag, line) == ProduceLineSpec(fuel, t, onTag, line)
    decreases fuel, 1
  {
    BracketsFuelMonotone(fuel, t, onTag, line, IndexOf(line, t.startTag));
  }

  /** ProduceLineFuelMonotone, stated from the larger bound down. */
  lemma ProduceLineFuelStep(fuel: nat, t: Tags, onTag: string -> Option<string>, line: string)
    requires fuel > 0
    ensures ProduceLineSpec(fuel - 1, t, onTag, line) != Diverged ==>
      ProduceLineSpec(fuel, t, onTag, line) == ProduceLineSpec(fuel - 1, t, onTag, line)
    decreases fuel - 1, 3
  {
    ProduceLineFuelMonotone(fuel - 1, t, onTag, line);
  }

  /** The bracketed-tag loop with one more nested step allowed: the same outcome unless it diverged. */
  lemma {:induction false} BracketsFuelMonotone(fuel: nat, t: Tags, onTag: string -> Option<string>, line: string, pos: int)
    requires pos == -1 || OccursAt(line, t.startTag, pos)
    ensures BracketsFrom(fuel, t, onTag, line, pos) != Diverged ==>
      BracketsFrom(fuel + 1, t, onTag, line, pos) == BracketsFrom(fuel, t, onTag, line, pos)
    decreases fuel, 0, Remaining(line, pos), 2
  {
    if pos != -1 {
      var end := IndexOfFrom(line, t.endTag, pos + |t.startTag|);
      if end == -1 {
        BracketsNoEnd(fuel, t, onTag, line, pos);
        BracketsNoEnd(fuel + 1, t, onTag, line, pos);
      } else if !Contains(line[pos + |t.startTag|..end], t.startTag) {
        ReplaceFuelMonotone(fuel, t, onTag, line, pos, end);
      } else if fuel > 0 {
        NestedFuelMonotone(fuel, t, onTag, line, pos, end);
      } else {
        BracketsDiverge(t, onTag, line, pos, end);
      }
    }
  }

  /** The replacing turn with one more nested step allowed. */
  lemma {:induction false} ReplaceFuelMonotone(fuel: nat, t: Tags, onTag: string -> Option<string>, line: string, pos: int, end: int)
    requires OccursAt(line, t.startTag, pos) && end == IndexOfFrom(line, t.endTag, pos + |t.startTag|) && end != -1
    requires !Contains(line[pos + |t.startTag|..end], t.startTag)
    ensures BracketsFrom(fuel, t, onTag, line, pos) != Diverged ==>
      BracketsFrom(fuel + 1, t, onTag, line, pos) == BracketsFrom(fuel, t, onTag, line, pos)
    decreases fuel, 0, Remaining(line, pos), 0
  {
    var prefix := line[..pos] + TagText(t, onTag, line[pos + |t.startTag|..end]);
    var next := prefix + line[end + |t.endTag|..];
    var resume := IndexOfFrom(next, t.startTag, |prefix|);
    BracketReplaceStep(fuel, t, onTag, line, pos, end, prefix, next, resume);
    BracketReplaceStep(fuel + 1, t, onTag, line, pos, end, prefix, next, resume);
    BracketsFuelMonotone(fuel, t, onTag, next, resume);
  }

  /** The nested turn with one more nested step allowed. */
  lemma {:induction false} NestedFuelMonotone(fuel: nat, t: Tags, onTag: string -> Option<string>, line: string, pos: int, end: int)
    requires fuel > 0
    requires OccursAt(line, t.startTag, pos) && end == IndexOfFrom(line, t.endTag, pos + |t.startTag|) && end != -1
    requires Contains(line[pos + |t.startTag|..end], t.startTag)
    ensures BracketsFrom(fuel, t, onTag, line, pos) != Diverged ==>
      BracketsFrom(fuel + 1, t, onTag, line, pos) == BracketsFrom(fuel, t, onTag, line, pos)
    decreases fuel, 0, Remaining(line, pos), 1
  {
    var inner := line[pos + |t.startTag|..end] + t.endTag;
    var o, o' := ProduceLineSpec(fuel - 1, t, onTag, inner), ProduceLineSpec(fuel, t, onTag, inner);
    ProduceLineFuelStep(fuel, t, onTag, inner);
    if o.Done? {
      NestedDoneFuelMonotone(fuel, t, onTag, line, pos, end, o.value);
    } else {
      NestedFailedFuelMonotone(fuel, t, onTag, line, pos, end, o, o');
    }
  }

  /** The nested turn over a section that fails, with one more nested step allowed. */
  lemma {:induction false} NestedFailedFuelMonotone(fuel: nat, t: Tags, onTag: string -> Option<string>, line: string, pos: int, end: int,
                                                    o: Outcome<string>, o': Outcome<string>)
    requires fuel > 0
    requires OccursAt(line, t.startTag, pos) && end == IndexOfFrom(line, t.endTag, pos + |t.startTag|) && end != -1
    requires Contains(line[pos + |t.startTag|..end], t.startTag)
    requires o == ProduceLineSpec(fuel - 1, t, onTag, line[pos + |t.startTag|..end] + t.endTag) && !o.Done?
    requires o' == ProduceLineSpec(fuel, t, onTag, line[pos + |t.startTag|..end] + t.endTag) && (o != Diverged ==> o' == o)
    ensures BracketsFrom(fuel, t, onTag, line, pos) != Diverged ==>
      BracketsFrom(fuel + 1, t, onTag, line, pos) == BracketsFrom(fuel, t, onTag, line, pos)
  {
    BracketNestedFailed(fuel, t, onTag, line, pos, end, o);
    if o.OutOfBounds? {
      BracketNestedFailed(fuel + 1, t, onTag, line, pos, end, o);
    }
  }

  /** The nested turn over a produced section, with one more nested step allowed. */
  lemma {:induction false} NestedDoneFuelMonotone(fuel: nat, t: Tags, onTag: string -> Option<string>, line: string, pos: int, end: int,
                                                  v: string)
    requires fuel > 0
    requires OccursAt(line, t.startTag, pos) && end == IndexOfFrom(line, t.endTag, pos + |t.startTag|) && end != -1
    requires Contains(line[pos + |t.startTag|..end], t.startTag)
    requires ProduceLineSpec(fuel - 1, t, onTag, line[pos + |t.startTag|..end] + t.endTag) == Done(v)
    requires ProduceLineSpec(fuel, t, onTag, line[pos + |t.startTag|..end] + t.endTag) == Done(v)
    ensures BracketsFrom(fuel, t, onTag, line, pos) != Diverged ==>
      BracketsFrom(fuel + 1, t, onTag, line, pos) == BracketsFrom(fuel, t, onTag, line, pos)
    decreases fuel, 0, Remaining(line, pos), 0
  {
    var next := line[..pos + |t.startTag|] + v + line[end + |t.endTag|..];
    BracketNestedDone(fuel, t, onTag, line, pos, end, v, next);
    BracketNestedDoneUp(fuel, t, onTag, line, pos, end, v, next);
    BracketsFuelStep(fuel, t, onTag, next, pos);
  }

  /** BracketNestedDone with one nested step more than the section needed. */
  lemma BracketNestedDoneUp(fuel: nat, t: Tags, onTag: string -> Option<string>, line: string, pos: int, end: int, v: string,
                            next: string)
    requires OccursAt(line, t.startTag, pos) && end == IndexOfFrom(line, t.endTag, pos + |t.startTag|) && end != -1
    requires Contains(line[pos + |t.startTag|..end], t.startTag)
    requires ProduceLineSpec(fuel, t, onTag, line[pos + |t.startTag|..end] + t.endTag) == Done(v)
    requires next == line[..pos + |t.startTag|] + v + line[end + |t.endTag|..]
    ensures OccursAt(next, t.startTag, pos)
    ensures BracketsFrom(fuel + 1, t, onTag, line, pos) == BracketsFrom(fuel, t, onTag, next, pos)
  {
    BracketNestedDone(fuel + 1, t, onTag, line, pos, end, v, next);
  }

  /** BracketsFuelMonotone, stated from the larger bound down. */
  lemma BracketsFuelStep(fuel: nat, t: Tags, onTag: string -> Option<string>, line: string, pos: int)
    requires fuel > 0 && (pos == -1 || OccursAt(line, t.startTag, pos))
    ensures BracketsFrom(fuel - 1, t, onTag, line, pos) != Diverged ==>
      BracketsFrom(fuel, t, onTag, line, pos) == BracketsFrom(fuel - 1, t, onTag, line, pos)
    decreases fuel - 1, 3
  {
    BracketsFuelMonotone(fuel - 1, t, onTag, line, pos);
  }

  /** Any larger bound on nested steps gives the same outcome, once one bound does not diverge. */
  lemma {:induction false} ProduceLineFuelEnough(fuel: nat, more: nat, t: Tags, onTag: string -> Option<string>, line: string)
    requires fuel <= more && ProduceLineSpec(fuel, t, onTag, line) != Diverged
    ensures ProduceLineSpec(more, t, onTag, line) == ProduceLineSpec(fuel, t, onTag, line)
    decreases more - fuel
  {
    if fuel < more {
      ProduceLineFuelMonotone(fuel, t, onTag, line);
      ProduceLineFuelEnough(fuel + 1, more, t, onTag, line);
    }
  }

  /** A line holding neither a start tag nor the plain tag prefix comes back unchanged. */
  lemma {:induction false} NoTagsUnchanged(fuel: nat, t: Tags, onTag: string -> Option<string>, line: string)
    requires !Contains(line, t.startTag) && !Contains(line, t.tag)
    ensures ProduceLineSpec(fuel, t, onTag, line) == Done(line)
  {
  }

  /** A start tag with no end tag after it ends the bracketed pass: only plain tags are replaced. */
  lemma {:induction false} UnclosedStartTag(fuel: nat, t: Tags, onTag: string -> Option<string>, line: string)
    requires IndexOf(line, t.startTag) != -1
    requires IndexOfFrom(line, t.endTag, IndexOf(line, t.startTag) + |t.startTag|) == -1
    ensures ProduceLineSpec(fuel, t, onTag, line) == PlainFrom(t, onTag, line, IndexOf(line, t.tag))
  {
    var pos := IndexOf(line, t.startTag);
    BracketsNoEnd(fuel, t, onTag, line, pos);
  }

  /** A finished outcome whose text starts with p. */
  predicate KeepsPrefix(o: Outcome<string>, p: string) {
    o.Done? ==> StartsWith(o.value, p)
  }

  /** What the bracketed pass has not reached yet is all it can change: a finished pass keeps
      the line up to the current start tag. */
  lemma {:induction false} BracketsKeepPrefix(fuel: nat, t: Tags, onTag: string -> Option<string>, line: string, pos: int)
    requires OccursAt(line, t.startTag, pos)
    ensures KeepsPrefix(BracketsFrom(fuel, t, onTag, line, pos), line[..pos])
    decreases fuel, Remaining(line, pos), 1
  {
    var end := IndexOfFrom(line, t.endTag, pos + |t.startTag|);
    if end == -1 {
      assert BracketAt(fuel, t, onTag, line, pos, end) == Done(line);
    } else if !Contains(line[pos + |t.startTag|..end], t.startTag) {
      ReplaceKeepsPrefix(fuel, t, onTag, line, pos, end);
    } else if fuel == 0 {
      assert BracketAt(fuel, t, onTag, line, pos, end) == Diverged;
    } else {
      var resumed, next := NestedResume(fuel, t, onTag, line, pos, end);
      if resumed {
        NestedKeepsPrefix(fuel, t, onTag, line, pos, next);
      }
    }
  }

  /** The nested branch of the bracketed-tag loop: either the produced section failed, and so does
      the loop, or the loop goes on over the rebuilt line next, which keeps the line up to pos. */
  lemma {:induction false} NestedResume(fuel: nat, t: Tags, onTag: string -> Option<string>, line: string, pos: int, end: int)
      returns (resumed: bool, next: string)
    requires fuel > 0
    requires OccursAt(line, t.startTag, pos) && end == IndexOfFrom(line, t.endTag, pos + |t.startTag|) && end != -1
    requires Contains(line[pos + |t.startTag|..end], t.startTag)
    ensures !resumed ==> !BracketsFrom(fuel, t, onTag, line, pos).Done?
    ensures resumed ==> OccursAt(next, t.startTag, pos) && next[..pos] == line[..pos]
    ensures resumed ==> BracketsFrom(fuel, t, onTag, line, pos) == BracketsFrom(fuel - 1, t, onTag, next, pos)
  {
    var produced := ProduceLineSpec(fuel - 1, t, onTag, line[pos + |t.startTag|..end] + t.endTag);
    resumed := produced.Done?;
    next := line;
    if resumed {
      next := line[..pos + |t.startTag|] + produced.value + line[end + |t.endTag|..];
      BracketNestedDone(fuel, t, onTag, line, pos, end, produced.value, next);
      assert next[..pos] == line[..pos];
    } else {
      BracketNestedFailed(fuel, t, onTag, line, pos, end, produced);
    }
  }

  lemma {:induction false} NestedKeepsPrefix(fuel: nat, t: Tags, onTag: string -> Option<string>, line: string, pos: int, next: string)
    requires fuel > 0 && OccursAt(line, t.startTag, pos) && OccursAt(next, t.startTag, pos)
    requires next[..pos] == line[..pos]
    requires BracketsFrom(fuel, t, onTag, line, pos) == BracketsFrom(fuel - 1, t, onTag, next, pos)
    ensures KeepsPrefix(BracketsFrom(fuel, t, onTag, line, pos), line[..pos])
    decreases fuel, Remaining(line, pos), 0
  {
    BracketsKeepPrefix(fuel - 1, t, onTag, next, pos);
  }

  lemma {:induction false} ReplaceKeepsPrefix(fuel: nat, t: Tags, onTag: string -> Option<string>, line: string, pos: int, end: int)
    requires OccursAt(line, t.startTag, pos) && end == IndexOfFrom(line, t.endTag, pos + |t.startTag|) && end != -1
    requires !Contains(line[pos + |t.startTag|..end], t.startTag)
    ensures KeepsPrefix(BracketsFrom(fuel, t, onTag, line, pos), line[..pos] + TagText(t, onTag, line[pos + |t.startTag|..end]))
    decreases fuel, Remaining(line, pos), 0
  {
    var prefix := line[..pos] + TagText(t, onTag, line[pos + |t.startTag|..end]);
    var next := prefix + line[end + |t.endTag|..];
    var resume := IndexOfFrom(next, t.startTag, |prefix|);
    BracketReplaceStep(fuel, t, onTag, line, pos, end, prefix, next, resume);
    if resume != -1 {
      BracketsKeepPrefix(fuel, t, onTag, next, resume);
      PrefixOfPrefix(prefix, line[end + |t.endTag|..], resume);
      KeepsShorterPrefix(BracketsFrom(fuel, t, onTag, next, resume), next[..resume], prefix);
    } else {
      assert BracketsFrom(fuel, t, onTag, next, resume) == Done(next);
      PrefixOfPrefix(prefix, line[end + |t.endTag|..], |next|);
    }
  }

  /** A bracketed tag with a value: the value is put in its place and never scanned again, so the
      finished line starts with the text before the tag followed by the value as it came. */
  lemma {:induction false} BracketValueKept(fuel: nat, t: Tags, onTag: string -> Option<string>, line: string, pos: int, end: int)
    requires OccursAt(line, t.startTag, pos) && end == IndexOfFrom(line, t.endTag, pos + |t.startTag|) && end != -1
    requires !Contains(line[pos + |t.startTag|..end], t.startTag)
    requires onTag(line[pos + |t.startTag|..end]).Some?
    ensures KeepsPrefix(BracketsFrom(fuel, t, onTag, line, pos), line[..pos] + onTag(line[pos + |t.startTag|..end]).value)
  {
    ReplaceKeepsPrefix(fuel, t, onTag, line, pos, end);
  }

  /** A bracketed tag onTag does not know is kept as it was, and the scan goes on after its end tag. */
  lemma {:induction false} BracketUnknownKept(fuel: nat, t: Tags, onTag: string -> Option<string>, line: string, pos: int, end: int)
    requires OccursAt(line, t.startTag, pos) && end == IndexOfFrom(line, t.endTag, pos + |t.startTag|) && end != -1
    requires !Contains(line[pos + |t.startTag|..end], t.startTag)
    requires onTag(line[pos + |t.startTag|..end]).None?
    ensures var resume := IndexOfFrom(line, t.startTag, end + |t.endTag|);
      (resume == -1 || OccursAt(line, t.startTag, resume))
      && BracketsFrom(fuel, t, onTag, line, pos) == BracketsFrom(fuel, t, onTag, line, resume)
  {
    var section := line[pos + |t.startTag|..end];
    var prefix := line[..pos] + TagText(t, onTag, section);
    assert TagText(t, onTag, section) == t.startTag + section + t.endTag;
    TagRebuildsLine(t, line, pos, end, prefix);
    BracketReplaceStep(fuel, t, onTag, line, pos, end, prefix, line, IndexOfFrom(line, t.startTag, end + |t.endTag|));
  }

  /** A bracketed tag put back as it was rebuilds the line. */
  lemma {:induction false} TagRebuildsLine(t: Tags, line: string, pos: int, end: int, prefix: string)
    requires OccursAt(line, t.startTag, pos) && pos + |t.startTag| <= end && OccursAt(line, t.endTag, end)
    requires prefix == line[..pos] + (t.startTag + line[pos + |t.startTag|..end] + t.endTag)
    ensures |prefix| == end + |t.endTag| && prefix + line[end + |t.endTag|..] == line
  {
    assert line == line[..pos] + line[pos..pos + |t.startTag|] + line[pos + |t.startTag|..end]
      + line[end..end + |t.endTag|] + line[end + |t.endTag|..];
  }

  /** A line made of a prefix and a rest starts with the prefix, and so does its text before any
      position at or after the end of the prefix. */
  lemma {:induction false} PrefixOfPrefix(prefix: string, rest: string, k: int)
    requires |prefix| <= k <= |prefix| + |rest|
    ensures StartsWith((prefix + rest)[..k], prefix) && StartsWith(prefix + rest, prefix)
  {
    assert (prefix + rest)[..k][..|prefix|] == prefix;
  }

  /** A finished outcome that keeps a prefix keeps every shorter one. */
  lemma {:induction false} KeepsShorterPrefix(o: Outcome<string>, p: string, q: string)
    requires KeepsPrefix(o, p) && StartsWith(p, q)
    ensures KeepsPrefix(o, q)
  {
    if o.Done? {
      assert o.value[..|q|] == o.value[..|p|][..|q|];
    }
  }

  /** The text that takes the place of a plain tag from pos to end: onTag's value for the name
      after the prefix, or the tag as it was. */
  function PlainText(t: Tags, onTag: string -> Option<string>, line: string, pos: nat, end: nat): string
    requires pos + |t.tag| <= end <= |line|
  {
    var found := onTag(line[pos + |t.tag|..end]);
    if found.Some? then found.value else line[pos..end]
  }

  /** One replacement of the plain-tag loop: the scan resumes after the inserted text. */
  lemma {:induction false} PlainReplaceStep(t: Tags, onTag: string -> Option<string>, line: string, pos: int, end: int,
                         prefix: string, next: string, resume: int)
    requires OccursAt(line, t.tag, pos)
    requires end == NameEnd(line, pos + 1) && pos + |t.tag| <= end <= |line|
    requires prefix == line[..pos] + PlainText(t, onTag, line, pos, end)
    requires next == prefix + line[end..] && resume == IndexOfFrom(next, t.tag, |prefix|)
    ensures resume == -1 || (|prefix| <= resume && OccursAt(next, t.tag, resume))
    ensures Remaining(next, resume) < Remaining(line, pos)
    ensures PlainFrom(t, onTag, line, pos) == PlainFrom(t, onTag, next, resume)
  {
  }

  /** A plain tag whose name scan ends outside the line, or before the end of the prefix, fails as
      substring does. */
  lemma {:induction false} PlainOutOfBounds(t: Tags, onTag: string -> Option<string>, line: string, pos: int)
    requires OccursAt(line, t.tag, pos)
    requires NameEnd(line, pos + 1) > |line| || NameEnd(line, pos + 1) < pos + |t.tag|
    ensures PlainFrom(t, onTag, line, pos) == OutOfBounds
  {
  }

  /** A plain tag's text is put in its place and never scanned again: a finished plain pass starts
      with the line before the tag followed by that text. */
  lemma {:induction false} PlainValueKept(t: Tags, onTag: string -> Option<string>, line: string, pos: int)
    requires OccursAt(line, t.tag, pos)
    requires pos + |t.tag| <= NameEnd(line, pos + 1) <= |line|
    ensures KeepsPrefix(PlainFrom(t, onTag, line, pos), line[..pos] + PlainText(t, onTag, line, pos, NameEnd(line, pos + 1)))
    decreases Remaining(line, pos), 0
  {
    var end := NameEnd(line, pos + 1);
    var prefix := line[..pos] + PlainText(t, onTag, line, pos, end);
    var next := prefix + line[end..];
    var resume := IndexOfFrom(next, t.tag, |prefix|);
    PlainReplaceStep(t, onTag, line, pos, end, prefix, next, resume);
    PlainResumeKeeps(t, onTag, prefix, line[end..], resume);
  }

  /** After a replacement, a finished plain pass keeps the line up to the end of the inserted text. */
  lemma {:induction false} PlainResumeKeeps(t: Tags, onTag: string -> Option<string>, prefix: string, rest: string, resume: int)
    requires resume == -1 || (|prefix| <= resume && OccursAt(prefix + rest, t.tag, resume))
    ensures KeepsPrefix(PlainFrom(t, onTag, prefix + rest, resume), prefix)
    decreases Remaining(prefix + rest, resume), 1
  {
    var next := prefix + rest;
    if resume == -1 {
      PrefixOfPrefix(prefix, rest, |next|);
    } else {
      var end := NameEnd(next, resume + 1);
      if resume + |t.tag| <= end <= |next| {
        PlainValueKept(t, onTag, next, resume);
        PrefixOfPrefix(prefix, rest, resume);
        PrefixExtended(next[..resume], prefix, PlainText(t, onTag, next, resume, end));
        KeepsShorterPrefix(PlainFrom(t, onTag, next, resume), next[..resume] + PlainText(t, onTag, next, resume, end), prefix);
      } else {
        PlainOutOfBounds(t, onTag, next, resume);
      }
    }
  }

  /** A string that starts with q still does once something is appended. */
  lemma {:induction false} PrefixExtended(p: string, q: string, x: string)
    requires StartsWith(p, q)
    ensures StartsWith(p + x, q)
  {
    assert (p + x)[..|q|] == p[..|q|];
  }

  /** The processed lines, when every line finishes: one per template line, in order. */
  lemma {:induction false} LinesUpToAll(process: string -> Outcome<string>, lines: seq<string>)
    ensures LinesUpTo(process, lines).Done? <==> forall i :: 0 <= i < |lines| ==> process(lines[i]).Done?
    ensures LinesUpTo(process, lines).Done? ==> |LinesUpTo(process, lines).value| == |lines|
    ensures LinesUpTo(process, lines).Done? ==>
      forall i :: 0 <= i < |lines| ==> LinesUpTo(process, lines).value[i] == process(lines[i]).value
  {
    if lines != [] {
      var init := lines[..|lines| - 1];
      LinesUpToAll(process, init);
      assert forall i :: 0 <= i < |init| ==> init[i] == lines[i];
      if !LinesUpTo(process, init).Done? {
        var i :| 0 <= i < |init| && !process(init[i]).Done?;
        assert !process(lines[i]).Done?;
      }
    }
  }

  /** produce(List) is beforeProduce, then each template line processed, then afterProduce; it
      finishes exactly when every line does. */
  lemma {:induction false} ProduceShape(fuel: nat, t: Tags, h: Hooks, lines: seq<string>)
    ensures ProduceSpec(fuel, t, h, lines).Done? <==> forall i :: 0 <= i < |lines| ==> ProcessLine(fuel, t, h, lines[i]).Done?
    ensures ProduceSpec(fuel, t, h, lines).Done? ==>
      var r := ProduceSpec(fuel, t, h, lines).value;
      var n := |h.beforeProduce|;
      |r| == n + |lines| + |h.afterProduce| && r[..n] == h.beforeProduce && r[n + |lines|..] == h.afterProduce
      && forall i :: 0 <= i < |lines| ==> r[n + i] == ProcessLine(fuel, t, h, lines[i]).value
  {
    LinesUpToAll(Processor(fuel, t, h), lines);
    if ProduceSpec(fuel, t, h, lines).Done? {
      var xs := LinesUpTo(Processor(fuel, t, h), lines).value;
      var r := h.beforeProduce + xs + h.afterProduce;
      assert r[..|h.beforeProduce|] == h.beforeProduce;
      assert r[|h.beforeProduce| + |lines|..] == h.afterProduce;
    }
  }

  /** produceSingleLine returns a null or empty line as it is, whatever the tags and hooks. */
  lemma {:induction false} SingleLineEmptyUntouched(fuel: nat, t: Tags, h: Hooks, t': Tags, h': Hooks, line: Option<string>)
    requires line.None? || line.value == ""
    ensures ProduceSingleLineSpec(fuel, t, h, line) == ProduceSingleLineSpec(fuel, t', h', line) == Done(line)
  {
  }

  /** On a non-empty line, produceSingleLine is produce on a one-line template without the
      beforeProduce and afterProduce lines. */
  lemma {:induction false} SingleLineAsProduce(fuel: nat, t: Tags, h: Hooks, line: string)
    requires line != ""
    ensures var single := ProduceSingleLineSpec(fuel, t, h, Some(line));
      var whole := ProduceSpec(fuel, t, h.(beforeProduce := [], afterProduce := []), [line]);
      (single.Done? <==> whole.Done?) && (single.Done? ==> whole.value == [single.value.value])
  {
    var h' := h.(beforeProduce := [], afterProduce := []);
    assert [line][..0] == [];
    assert ProcessLine(fuel, t, h', line) == ProcessLine(fuel, t, h, line);
    assert LinesUpTo(Processor(fuel, t, h'), []) == Done([]);
  }

  /** An onTag that knows no tag. */
  function NoValue(name: string): Option<string> {
    None
  }

  /** The line "<#x<#y>>": a nested section whose own tag stays unknown. */
  const LoopingLine := "<#x<#y>>"

  /** Its section "x<#y>" comes back unchanged from produceLine. */
  lemma {:induction false} LoopingSectionUnchanged(fuel: nat)
    ensures ProduceLineSpec(fuel, DefaultTags, NoValue, "x<#y>") == Done("x<#y>")
  {
    var s := "x<#y>";
    assert s[0..2][0] != "<#"[0] && s[1..3] == "<#";
    assert IndexOf(s, "<#") == 1;
    assert s[3..4][0] != ">"[0] && s[4..5] == ">";
    assert FindFrom(s, ">", 3) == 4;
    assert IndexOfFrom(s, ">", 3) == 4;
    assert s[3..4] == "y";
    assert !Contains("y", "<#");
    BracketUnknownKept(fuel, DefaultTags, NoValue, s, 1, 4);
    assert IndexOfFrom(s, "<#", 5) == -1;
    assert s[0..5] != "$TAG_";
    assert IndexOf(s, "$TAG_") == -1;
  }

  /** On that line the nested branch rebuilds the very same line without moving on: produceLine
      never finishes, however many nested steps it is given. */
  lemma {:induction false} NestedUnknownDiverges(fuel: nat)
    ensures ProduceLineSpec(fuel, DefaultTags, NoValue, LoopingLine) == Diverged
  {
    LoopingLineTags();
    var section := LoopingLine[0 + |DefaultTags.startTag|..6] + DefaultTags.endTag;
    forall f: nat
      ensures ProduceLineSpec(f, DefaultTags, NoValue, section) == Done(section)
    {
      LoopingSectionUnchanged(f);
    }
    SelfNestedDiverges(fuel, DefaultTags, NoValue, LoopingLine, 0, 6);
    var l := LoopingLine;
    assert l[0..2] == "<#";
    assert IndexOf(l, "<#") == 0;
  }

  /** Where the scan of the looping line finds its tags. */
  lemma {:induction false} LoopingLineTags()
    ensures OccursAt(LoopingLine, DefaultTags.startTag, 0)
    ensures IndexOfFrom(LoopingLine, DefaultTags.endTag, 0 + |DefaultTags.startTag|) == 6
    ensures Contains(LoopingLine[0 + |DefaultTags.startTag|..6], DefaultTags.startTag)
    ensures LoopingLine[0 + |DefaultTags.startTag|..6] + DefaultTags.endTag == "x<#y>"
    ensures LoopingLine == LoopingLine[..0 + |DefaultTags.startTag|] + "x<#y>" + LoopingLine[6 + |DefaultTags.endTag|..]
  {
    assert DefaultTags.startTag == "<#" && DefaultTags.endTag == ">";
    var l := LoopingLine;
    assert OccursAt(l, "<#", 0);
    forall k | 2 <= k <= 5
      ensures !OccursAt(l, ">", k)
    {
      assert l[k + 0] != ">"[0];
    }
    assert OccursAt(l, ">", 6);
    assert FindFrom(l, ">", 6) == 6;
    assert FindFrom(l, ">", 5) == 6;
    assert FindFrom(l, ">", 4) == 6;
    assert FindFrom(l, ">", 3) == 6;
    assert FindFrom(l, ">", 2) == 6;
    var section := l[2..6];
    assert section == "x<#y";
    assert !OccursAt(section, "<#", 0) by {
      assert section[0 + 0] != "<#"[0];
    }
    assert OccursAt(section, "<#", 1);
    assert FindFrom(section, "<#", 1) == 1;
  }

  /** A bracketed tag whose section, with its end tag, always comes back unchanged rebuilds its own line:
      the scan never gets past it. */
  lemma {:induction false} SelfNestedDiverges(fuel: nat, t: Tags, onTag: string -> Option<string>, line: string, pos: int, end: int)
    requires OccursAt(line, t.startTag, pos) && end == IndexOfFrom(line, t.endTag, pos + |t.startTag|) && end != -1
    requires Contains(line[pos + |t.startTag|..end], t.startTag)
    requires forall f: nat {:trigger ProduceLineSpec(f, t, onTag, line[pos + |t.startTag|..end] + t.endTag)} ::
               ProduceLineSpec(f, t, onTag, line[pos + |t.startTag|..end] + t.endTag) == Done(line[pos + |t.startTag|..end] + t.endTag)
    ensures BracketsFrom(fuel, t, onTag, line, pos) == Diverged
    decreases fuel
  {
    if fuel == 0 {
      BracketsDiverge(t, onTag, line, pos, end);
    } else {
      var v := line[pos + |t.startTag|..end] + t.endTag;
      assert ProduceLineSpec(fuel - 1, t, onTag, v) == Done(v);
      SectionPutBack(t, line, pos, end);
      BracketNestedDone(fuel, t, onTag, line, pos, end, v, line);
      SelfNestedDiverges(fuel - 1, t, onTag, line, pos, end);
    }
  }

  /** Putting a section back, with its end tag, between the start tag and the rest gives the line back. */
  lemma SectionPutBack(t: Tags, line: string, pos: int, end: int)
    requires OccursAt(line, t.startTag, pos) && end == IndexOfFrom(line, t.endTag, pos + |t.startTag|) && end != -1
    ensures line == line[..pos + |t.startTag|] + (line[pos + |t.startTag|..end] + t.endTag) + line[end + |t.endTag|..]
  {
    OccursAtSlice(line, t.endTag, end);
    assert line == line[..pos + |t.startTag|] + line[pos + |t.startTag|..end] + line[end..end + |t.endTag|] + line[end + |t.endTag|..];
  }
}
