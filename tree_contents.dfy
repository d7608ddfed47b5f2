/**
 * TreeContent: the text drawing of a directory tree. addContent lists a directory's entries, sorted,
 * one line each, and descends into the subdirectories; it appends to the lines field and counts
 * the directories and files it lists. The file system is an Entry value.
 */
module TreeContents {
  import opened JavaStrings
  import opened FileTrees

  /** A FilenameFilter, or null. */
  datatype NameFilter = NoNameFilter | NameFilter(accept: (Entry, string) -> bool)

  predicate Accepts(filter: NameFilter, dir: Entry, name: string) {
    match filter
    case NoNameFilter => true
    case NameFilter(accept) => accept(dir, name)
  }

  /** The four drawing strings of a TreeContent object. */
  datatype Decorations = Decorations(spacingLevel: string, directorySpacingLevel: string,
                                     branchLevel: string, lastBranchLevel: string)

  /** The arguments addContent hands down unchanged to every level; isLinux stands for OutilsCommun.isLinux(). */
  datatype Options = Options(filter: NameFilter, maxDepth: int, directoriesFirst: bool, showFiles: bool,
                             subdir: bool, isLinux: bool)

  /** The listFiles filter of addContent: directories only with subdir, files only with showFiles,
      never "." or ".." on Linux, and what the filter accepts. */
  predicate Shown(dir: Entry, e: Entry, o: Options) {
    (if e.isDirectory then o.subdir else o.showFiles)
    && !(o.isLinux && (e.name == "." || e.name == ".."))
    && Accepts(o.filter, dir, e.name)
  }

  /** The entries addContent lists for base, in the order it lists them. */
  function Entries(base: Entry, o: Options): seq<Entry> {
    SortEntries(Keep(Listing(base), e => Shown(base, e, o)), o.directoriesFirst)
  }

  /** What a call appends to lines and adds to the two counters. */
  datatype Rendering = Rendering(lines: seq<string>, directories: nat, files: nat)

  const Nothing := Rendering([], 0, 0)

  function Then(a: Rendering, b: Rendering): Rendering {
    Rendering(a.lines + b.lines, a.directories + b.directories, a.files + b.files)
  }

  /** addContent(base, spacing, level, ...): nothing at or below maxDepth, else the entries in order. */
  function Render(base: Entry, spacing: string, level: int, d: Decorations, o: Options): Rendering
    decreases o.maxDepth - level, 2, 0
  {
    if level < o.maxDepth then RenderEntries(Entries(base, o), |Entries(base, o)|, spacing, level, d, o)
    else Nothing
  }

  /** The first k turns of the loop over the entries. */
  function RenderEntries(entries: seq<Entry>, k: nat, spacing: string, level: int, d: Decorations, o: Options): Rendering
    requires level < o.maxDepth && k <= |entries|
    decreases o.maxDepth - level, 1, k
  {
    if k == 0 then Nothing
    else Then(RenderEntries(entries, k - 1, spacing, level, d, o), RenderEntry(entries, k - 1, spacing, level, d, o))
  }

  /** The branch drawn before an entry's name and the spacing its contents get. */
  function Branch(entries: seq<Entry>, i: nat, d: Decorations): string {
    if i == |entries| - 1 then d.lastBranchLevel else d.branchLevel
  }

  function Indent(entries: seq<Entry>, i: nat, d: Decorations): string {
    if i == |entries| - 1 then d.spacingLevel else d.directorySpacingLevel
  }

  /** Turn i: one counter goes up, the entry's line is added, and a directory's contents follow. */
  function RenderEntry(entries: seq<Entry>, i: nat, spacing: string, level: int, d: Decorations, o: Options): Rendering
    requires level < o.maxDepth && i < |entries|
    decreases o.maxDepth - level, 0, 0
  {
    var e := entries[i];
    var line := spacing + Branch(entries, i, d) + e.name;
    if e.isDirectory then
      Then(Rendering([line], 1, 0), Render(e, spacing + Indent(entries, i, d), level + 1, d, o))
    else Rendering([line], 0, 1)
  }

  /** The entries listed are exactly the shown ones, each as often as in the directory, sorted by the
      comparator: so no directory without subdir and no file without showFiles. */
  lemma EntriesSpec(base: Entry, o: Options)
    ensures var r := Entries(base, o);
      multiset(r) == multiset(Keep(Listing(base), e => Shown(base, e, o)))
      && (forall e :: e in r <==> e in Listing(base) && Shown(base, e, o))
      && SortedEntries(r, o.directoriesFirst)
      && (!o.subdir ==> forall e :: e in r ==> !e.isDirectory)
      && (!o.showFiles ==> forall e :: e in r ==> e.isDirectory)
  {
    var kept := Keep(Listing(base), e => Shown(base, e, o));
    SortEntriesPermutation(kept, o.directoriesFirst);
    SortEntriesSorted(kept, o.directoriesFirst);
    forall e ensures e in Entries(base, o) <==> e in kept {
      assert e in Entries(base, o) <==> e in multiset(Entries(base, o));
    }
  }

  /** Every entry adds one line and one to one counter, so the lines number the directories and
      files listed. */
  lemma {:induction false} RenderCount(base: Entry, spacing: string, level: int, d: Decorations, o: Options)
    ensures var r := Render(base, spacing, level, d, o); |r.lines| == r.directories + r.files
    decreases o.maxDepth - level, 2, 0
  {
    if level < o.maxDepth {
      RenderEntriesCount(Entries(base, o), |Entries(base, o)|, spacing, level, d, o);
    }
  }

  lemma {:induction false} RenderEntriesCount(entries: seq<Entry>, k: nat, spacing: string, level: int, d: Decorations, o: Options)
    requires level < o.maxDepth && k <= |entries|
    ensures var r := RenderEntries(entries, k, spacing, level, d, o); |r.lines| == r.directories + r.files
    decreases o.maxDepth - level, 1, k
  {
    if k > 0 {
      RenderEntriesCount(entries, k - 1, spacing, level, d, o);
      RenderEntryCount(entries, k - 1, spacing, level, d, o);
    }
  }

  lemma {:induction false} RenderEntryCount(entries: seq<Entry>, i: nat, spacing: string, level: int, d: Decorations, o: Options)
    requires level < o.maxDepth && i < |entries|
    ensures var r := RenderEntry(entries, i, spacing, level, d, o); |r.lines| == r.directories + r.files
    decreases o.maxDepth - level, 0, 0
  {
    var e := entries[i];
    if e.isDirectory {
      RenderCount(e, spacing + Indent(entries, i, d), level + 1, d, o);
    }
  }

  /** Every line addContent adds starts with the spacing it was given. */
  lemma {:induction false} RenderPrefix(base: Entry, spacing: string, level: int, d: Decorations, o: Options)
    ensures forall line :: line in Render(base, spacing, level, d, o).lines ==> StartsWith(line, spacing)
    decreases o.maxDepth - level, 2, 0
  {
    if level < o.maxDepth {
      RenderEntriesPrefix(Entries(base, o), |Entries(base, o)|, spacing, level, d, o);
    }
  }

  lemma {:induction false} RenderEntriesPrefix(entries: seq<Entry>, k: nat, spacing: string, level: int, d: Decorations, o: Options)
    requires level < o.maxDepth && k <= |entries|
    ensures forall line :: line in RenderEntries(entries, k, spacing, level, d, o).lines ==> StartsWith(line, spacing)
    decreases o.maxDepth - level, 1, k
  {
    if k > 0 {
      RenderEntriesPrefix(entries, k - 1, spacing, level, d, o);
      RenderEntryLines(entries, k - 1, spacing, level, d, o);
    }
  }

  /** Turn i adds the entry's line, drawn with the last branch for the last entry and the plain
      branch otherwise; every line of a directory's contents starts with the spacing plus
      spacingLevel under the last entry, directorySpacingLevel under the others. */
  lemma {:induction false} RenderEntryLines(entries: seq<Entry>, i: nat, spacing: string, level: int, d: Decorations, o: Options)
    requires level < o.maxDepth && i < |entries|
    ensures var r := RenderEntry(entries, i, spacing, level, d, o);
      var last := i == |entries| - 1;
      |r.lines| > 0
      && r.lines[0] == spacing + (if last then d.lastBranchLevel else d.branchLevel) + entries[i].name
      && (forall line :: line in r.lines[1..] ==>
            StartsWith(line, spacing + (if last then d.spacingLevel else d.directorySpacingLevel)))
      && (forall line :: line in r.lines ==> StartsWith(line, spacing))
    decreases o.maxDepth - level, 0, 0
  {
    var e := entries[i];
    var r := RenderEntry(entries, i, spacing, level, d, o);
    var inner := spacing + Indent(entries, i, d);
    if e.isDirectory {
      RenderPrefix(e, inner, level + 1, d, o);
      assert r.lines[1..] == Render(e, inner, level + 1, d, o).lines;
      forall line | line in r.lines[1..] ensures StartsWith(line, spacing) {
        assert line[..|inner|] == inner;
        assert line[..|spacing|] == inner[..|spacing|];
      }
    }
    assert r.lines[0][..|spacing|] == spacing;
  }

  /** Nothing is listed at or below maxDepth; one level above it, only the entries' own lines, with
      no contents under them, and each entry counted once. */
  lemma RenderDepth(base: Entry, spacing: string, level: int, d: Decorations, o: Options)
    ensures level >= o.maxDepth ==> Render(base, spacing, level, d, o) == Nothing
    ensures level == o.maxDepth - 1 ==>
      var entries := Entries(base, o);
      var r := Render(base, spacing, level, d, o);
      r.lines == seq(|entries|, i requires 0 <= i < |entries| => spacing + Branch(entries, i, d) + entries[i].name)
      && r.directories + r.files == |entries|
  {
    if level == o.maxDepth - 1 {
      var entries := Entries(base, o);
      RenderEntriesFlat(entries, |entries|, spacing, level, d, o);
    }
  }

  lemma {:induction false} RenderEntriesFlat(entries: seq<Entry>, k: nat, spacing: string, level: int, d: Decorations, o: Options)
    requires level == o.maxDepth - 1 && k <= |entries|
    ensures var r := RenderEntries(entries, k, spacing, level, d, o);
      r.lines == seq(k, i requires 0 <= i < k => spacing + Branch(entries, i, d) + entries[i].name)
      && r.directories + r.files == k
  {
    if k > 0 {
      RenderEntriesFlat(entries, k - 1, spacing, level, d, o);
      var e := entries[k - 1];
      if e.isDirectory {
        assert Render(e, spacing + Indent(entries, k - 1, d), level + 1, d, o) == Nothing;
      }
      var line := spacing + Branch(entries, k - 1, d) + e.name;
      assert RenderEntry(entries, k - 1, spacing, level, d, o).lines == [line];
      assert seq(k, i requires 0 <= i < k => spacing + Branch(entries, i, d) + entries[i].name)
        == seq(k - 1, i requires 0 <= i < k - 1 => spacing + Branch(entries, i, d) + entries[i].name) + [line];
    }
  }

  /** The default drawing strings of new TreeContent(). */
  const DefaultDecorations := Decorations("    ", "│   ", "├── ", "└── ")

  /** Integer.MAX_VALUE, the depth the overloads without maxDepth use. */
  const MaxInt := 0x7fff_ffff

  class TreeContent {
    var spacingLevel: string
    var directorySpacingLevel: string
    var branchLevel: string
    var lastBranchLevel: string
    var directoriesCount: int
    var filesCount: int
    var lines: seq<string>

    function Decor(): Decorations
      reads this
    {
      Decorations(spacingLevel, directorySpacingLevel, branchLevel, lastBranchLevel)
    }

    /** new TreeContent(): the default drawing strings, no line and both counters at zero. */
    constructor Default()
      ensures Decor() == DefaultDecorations && directoriesCount == 0 && filesCount == 0 && lines == []
    {
      spacingLevel := "    ";
      directorySpacingLevel := "│   ";
      branchLevel := "├── ";
      lastBranchLevel := "└── ";
      directoriesCount := 0;
      filesCount := 0;
      lines := [];
    }

    /** new TreeContent(spacingLevel, directorySpacingLevel, branchLevel, lastBranchLevel). */
    constructor (spacingLevel: string, directorySpacingLevel: string, branchLevel: string, lastBranchLevel: string)
      ensures Decor() == Decorations(spacingLevel, directorySpacingLevel, branchLevel, lastBranchLevel)
      ensures directoriesCount == 0 && filesCount == 0 && lines == []
    {
      this.spacingLevel := spacingLevel;
      this.directorySpacingLevel := directorySpacingLevel;
      this.branchLevel := branchLevel;
      this.lastBranchLevel := lastBranchLevel;
      directoriesCount := 0;
      filesCount := 0;
      lines := [];
    }

    /** addContent: appends what Render describes to lines and adds its counts to the counters. */
    method AddContent(base: Entry, spacing: string, level: int, o: Options)
      modifies this
      decreases o.maxDepth - level, 1, 0
      ensures Decor() == old(Decor())
      ensures var r := Render(base, spacing, level, old(Decor()), o);
        lines == old(lines) + r.lines
        && directoriesCount == old(directoriesCount) + r.directories
        && filesCount == old(filesCount) + r.files
    {
      if level < o.maxDepth {
        var entries := SortEntries(Keep(Listing(base), e => Shown(base, e, o)), o.directoriesFirst);
        var index := 0;
        while index < |entries|
          invariant 0 <= index <= |entries| && Decor() == old(Decor())
          invariant var r := RenderEntries(entries, index, spacing, level, old(Decor()), o);
            lines == old(lines) + r.lines
            && directoriesCount == old(directoriesCount) + r.directories
            && filesCount == old(filesCount) + r.files
        {
          index := AddTurn(entries, index, spacing, level, o, old(Decor()), old(lines), old(directoriesCount), old(filesCount));
        }
      }
    }

    /** A turn of that loop: entry index added, and the next turn starts at index + 1. */
    method AddTurn(entries: seq<Entry>, index: nat, spacing: string, level: int, o: Options, ghost d: Decorations,
                   ghost lines0: seq<string>, ghost directories0: int, ghost files0: int)
      returns (next: nat)
      requires level < o.maxDepth && index < |entries| && Decor() == d
      requires var r := RenderEntries(entries, index, spacing, level, d, o);
        lines == lines0 + r.lines && directoriesCount == directories0 + r.directories && filesCount == files0 + r.files
      modifies this
      decreases o.maxDepth - level, 0, 1
      ensures next == index + 1 && Decor() == d
      ensures var r := RenderEntries(entries, next, spacing, level, d, o);
        lines == lines0 + r.lines && directoriesCount == directories0 + r.directories && filesCount == files0 + r.files
    {
      ghost var before := RenderEntries(entries, index, spacing, level, d, o);
      AddEntry(entries, index, spacing, level, o);
      ghost var turn := RenderEntry(entries, index, spacing, level, d, o);
      assert lines == lines0 + before.lines + turn.lines;
      next := index + 1;
    }

    /** One turn of the loop over the entries. */
    method AddEntry(entries: seq<Entry>, index: nat, spacing: string, level: int, o: Options)
      requires level < o.maxDepth && index < |entries|
      modifies this
      decreases o.maxDepth - level, 0, 0
      ensures Decor() == old(Decor())
      ensures var r := RenderEntry(entries, index, spacing, level, old(Decor()), o);
        lines == old(lines) + r.lines
        && directoriesCount == old(directoriesCount) + r.directories
        && filesCount == old(filesCount) + r.files
    {
      var entry := entries[index];
      if entry.isDirectory {
        directoriesCount := directoriesCount + 1;
      } else {
        filesCount := filesCount + 1;
      }
      if index == |entries| - 1 {
        lines := lines + [spacing + lastBranchLevel + entry.name];
        if entry.isDirectory {
          AddContent(entry, spacing + spacingLevel, level + 1, o);
        }
      } else {
        lines := lines + [spacing + branchLevel + entry.name];
        if entry.isDirectory {
          AddContent(entry, spacing + directorySpacingLevel, level + 1, o);
        }
      }
    }

    /** extractTreeContent(title, baseDir, filter, maxDepth, directoriesFirst, showFiles, subdir):
        lines and counters start afresh, the title comes first unless it is empty, and the result is
        the lines field itself; so there is one line per listed directory and file, besides the title. */
    method ExtractTreeContent(title: string, baseDir: Entry, o: Options) returns (result: seq<string>)
      modifies this
      ensures Decor() == old(Decor()) && result == lines
      ensures var r := Render(baseDir, "", 0, old(Decor()), o);
        lines == (if IsEmpty(title) then [] else [title]) + r.lines
        && directoriesCount == r.directories && filesCount == r.files
      ensures |lines| == (if IsEmpty(title) then 0 else 1) + directoriesCount + filesCount
    {
      lines := [];
      directoriesCount := 0;
      filesCount := 0;
      if !IsEmpty(title) {
        lines := lines + [title];
      }
      AddContent(baseDir, "", 0, o);
      RenderCount(baseDir, "", 0, old(Decor()), o);
      result := lines;
    }

    /** The overloads without a filter or depth: the path as title, no filter, Integer.MAX_VALUE as
        depth, directories first on Windows, files shown and subdirectories listed. */
    method ExtractTreeContentOf(path: string, baseDir: Entry, isWindows: bool, isLinux: bool) returns (result: seq<string>)
      modifies this
      ensures Decor() == old(Decor()) && result == lines
      ensures var r := Render(baseDir, "", 0, old(Decor()), Options(NoNameFilter, MaxInt, isWindows, true, true, isLinux));
        lines == (if IsEmpty(path) then [] else [path]) + r.lines
        && directoriesCount == r.directories && filesCount == r.files
    {
      result := ExtractTreeContent(path, baseDir, Options(NoNameFilter, MaxInt, isWindows, true, true, isLinux));
    }
  }
}
