/**
 * generateTree: a directory tree drawn with "|", "+--- " and "\--- ". Each directory lists its
 * files first, then descends into its subdirectories, appending to one shared list of lines. The
 * file system is an Entry value; a TreeContentFilter is a pair of functions.
 */
module GenerateTrees {
  import opened Wrappers
  import opened JavaStrings
  import opened FileTrees

  /** A TreeContentFilter, or null: accept(dir, name) filters the listing, doSubDir(dir, level,
      isLast, isDirLast) says whether a subdirectory is descended into. */
  datatype TreeFilter = NoTreeFilter
                      | TreeFilter(accept: (Entry, string) -> bool, doSubDir: (Entry, int, bool, bool) -> bool)

  /** The listFiles filter: directories only with subdir, then what the filter accepts. */
  predicate Listed(dir: Entry, e: Entry, subdir: bool, filter: TreeFilter) {
    (e.isDirectory ==> subdir)
    && match filter
       case NoTreeFilter => true
       case TreeFilter(accept, _) => accept(dir, e.name)
  }

  /** The files array of generateTree: the listing of dir as filtered, in listing order. */
  function Files(dir: Entry, subdir: bool, filter: TreeFilter): (r: seq<Entry>)
    ensures forall e :: e in r ==> e in dir.children && Listed(dir, e, subdir, filter)
    ensures r == Keep(Listing(dir), e => Listed(dir, e, subdir, filter))
    ensures dir.isDirectory ==> forall e :: e in dir.children && Listed(dir, e, subdir, filter) ==> e in r
  {
    Keep(Listing(dir), e => Listed(dir, e, subdir, filter))
  }

  predicate DoSubDir(filter: TreeFilter, dir: Entry, level: int, isLast: bool, isDirLast: bool) {
    match filter
    case NoTreeFilter => true
    case TreeFilter(_, doSubDir) => doSubDir(dir, level, isLast, isDirLast)
  }

  /** The branch drawn before a directory's name. */
  function Marker(isLast: bool): string {
    if isLast then "\\--- " else "+--- "
  }

  /** The two lines that open a subdirectory. */
  function Header(indent: string, isLast: bool, name: string): seq<string> {
    ["|", indent + Marker(isLast) + name]
  }

  /** The line of a file: blank in front only for the last entry of the last directory. */
  function FileLine(isLast: bool, isFileLast: bool, indent: string, name: string): string {
    (if isLast && isFileLast then "    " else "|   ") + indent + name
  }

  /** The first loop, from entry i on: a line for each file. */
  function FileLines(files: seq<Entry>, i: nat, isLast: bool, indent: string): seq<string>
    decreases |files| - i
  {
    if i >= |files| then []
    else (if !files[i].isDirectory then [FileLine(isLast, i == |files| - 1, indent, files[i].name)] else [])
         + FileLines(files, i + 1, isLast, indent)
  }

  /** The lines after the header of directory dir, whose entries are indented by indent. */
  function Body(level: int, indent: string, isLast: bool, dir: Entry, subdir: bool, filter: TreeFilter): seq<string>
    decreases dir, 1, 0
  {
    var files := Files(dir, subdir, filter);
    FileLines(files, 0, isLast, indent) + DirLines(dir, files, 0, level, indent, isLast, subdir, filter)
  }

  /** The second loop, from entry i on: each subdirectory drawn in full, or only its header when the
      filter refuses to descend; that header takes the parent's isLast. */
  function DirLines(dir: Entry, files: seq<Entry>, i: nat, level: int, indent: string, isLast: bool,
                    subdir: bool, filter: TreeFilter): seq<string>
    requires forall e :: e in files ==> e in dir.children
    decreases dir, 0, |files| - i
  {
    if i >= |files| then []
    else
      var d := files[i];
      var isDirLast := i == |files| - 1;
      var lines :=
        if !d.isDirectory then []
        else if DoSubDir(filter, d, level, isLast, isDirLast) then
          ChildSmaller(dir, d);
          Subtree(level + 1, indent, isDirLast, d, subdir, filter)
        else Header(indent, isLast, d.name);
      lines + DirLines(dir, files, i + 1, level, indent, isLast, subdir, filter)
  }

  /** generateTree(list, level, indent, isLast, dir, ...) with an indent: the header, then the
      contents four spaces further in. */
  function Subtree(level: int, indent: string, isLast: bool, dir: Entry, subdir: bool, filter: TreeFilter): seq<string>
    decreases dir, 2, 0
  {
    Header(indent, isLast, dir.name) + Body(level, indent + "    ", isLast, dir, subdir, filter)
  }

  /** generateTree(list, 0, null, false, baseDir, ...): baseDir's path, then its contents unindented. */
  function Tree(path: string, baseDir: Entry, subdir: bool, filter: TreeFilter): seq<string> {
    [path] + Body(0, "", false, baseDir, subdir, filter)
  }

  /** The files among entries i and after, in order. */
  function FilesFrom(files: seq<Entry>, i: nat): (r: seq<Entry>)
    ensures forall e :: e in r ==> e in files && !e.isDirectory
    decreases |files| - i
  {
    if i >= |files| then []
    else (if !files[i].isDirectory then [files[i]] else []) + FilesFrom(files, i + 1)
  }

  /** Whether the last of the entries is a file. */
  predicate LastIsFile(files: seq<Entry>) {
    |files| > 0 && !files[|files| - 1].isDirectory
  }

  /** When the last entry is a file, every suffix holds a file. */
  lemma {:induction false} LastFileFrom(files: seq<Entry>, i: nat)
    requires i < |files| && LastIsFile(files)
    ensures FilesFrom(files, i) != []
    decreases |files| - i
  {
    if files[i].isDirectory {
      LastFileFrom(files, i + 1);
    }
  }

  /** The file lines are the files of the listing, in order, each behind "|   " and the indent, save
      the last file of a last directory when it is also the last entry, which gets "    ". */
  lemma {:induction false} FileLinesSpec(files: seq<Entry>, i: nat, isLast: bool, indent: string)
    ensures |FileLines(files, i, isLast, indent)| == |FilesFrom(files, i)|
    ensures var fs := FilesFrom(files, i);
      forall k :: 0 <= k < |fs| ==>
        FileLines(files, i, isLast, indent)[k] == FileLine(isLast, k == |fs| - 1 && LastIsFile(files), indent, fs[k].name)
    decreases |files| - i
  {
    if i < |files| {
      FileLinesSpec(files, i + 1, isLast, indent);
      var fs := FilesFrom(files, i);
      var rest := FilesFrom(files, i + 1);
      var lines := FileLines(files, i, isLast, indent);
      var tail := FileLines(files, i + 1, isLast, indent);
      if !files[i].isDirectory {
        assert fs == [files[i]] + rest;
        assert lines == [FileLine(isLast, i == |files| - 1, indent, files[i].name)] + tail;
        if i < |files| - 1 && LastIsFile(files) {
          LastFileFrom(files, i + 1);
        }
        forall k | 0 <= k < |fs|
          ensures lines[k] == FileLine(isLast, k == |fs| - 1 && LastIsFile(files), indent, fs[k].name)
        {
          if k > 0 {
            assert lines[k] == tail[k - 1] && fs[k] == rest[k - 1];
          }
        }
      } else {
        assert fs == rest && lines == tail;
      }
    }
  }

  /** Without subdir no directory is listed, so a directory holds only its file lines. */
  lemma {:induction false} NoSubdirDirLines(dir: Entry, files: seq<Entry>, i: nat, level: int, indent: string, isLast: bool,
                                            filter: TreeFilter)
    requires forall e :: e in files ==> e in dir.children && !e.isDirectory
    ensures DirLines(dir, files, i, level, indent, isLast, false, filter) == []
    decreases |files| - i
  {
    if i < |files| {
      NoSubdirDirLines(dir, files, i + 1, level, indent, isLast, filter);
    }
  }

  /** Without subdir the tree is the path and one line per file of the top directory, all of them
      behind "|   " (the top directory is not the last), in listing order. */
  lemma NoSubdirTree(path: string, baseDir: Entry, filter: TreeFilter)
    ensures var fs := FilesFrom(Files(baseDir, false, filter), 0);
      var t := Tree(path, baseDir, false, filter);
      |t| == 1 + |fs| && t[0] == path
      && forall k :: 0 <= k < |fs| ==> t[k + 1] == "|   " + fs[k].name
  {
    var files := Files(baseDir, false, filter);
    var fs := FilesFrom(files, 0);
    var fl := FileLines(files, 0, false, "");
    var t := Tree(path, baseDir, false, filter);
    assert t == [path] + fl by {
      NoSubdirDirLines(baseDir, files, 0, 0, "", false, filter);
      assert Body(0, "", false, baseDir, false, filter) == fl + [];
    }
    FileLinesSpec(files, 0, false, "");
    forall k | 0 <= k < |fs|
      ensures t[k + 1] == "|   " + fs[k].name
    {
      assert t[k + 1] == fl[k];
      assert "|   " + "" == "|   ";
    }
  }

  /** All the lines of a directory's files come before the lines of its subdirectories. */
  lemma FilesFirst(level: int, indent: string, isLast: bool, dir: Entry, subdir: bool, filter: TreeFilter)
    ensures var files := Files(dir, subdir, filter);
      var fs := FilesFrom(files, 0);
      var b := Body(level, indent, isLast, dir, subdir, filter);
      |fs| <= |b|
      && (forall k :: 0 <= k < |fs| ==> b[k] == FileLine(isLast, k == |fs| - 1 && LastIsFile(files), indent, fs[k].name))
      && b[|fs|..] == DirLines(dir, files, 0, level, indent, isLast, subdir, filter)
  {
    var files := Files(dir, subdir, filter);
    FileLinesSpec(files, 0, isLast, indent);
    var fl := FileLines(files, 0, isLast, indent);
    var b := Body(level, indent, isLast, dir, subdir, filter);
    assert b == fl + DirLines(dir, files, 0, level, indent, isLast, subdir, filter);
    assert forall k :: 0 <= k < |fl| ==> b[k] == fl[k];
  }

  /** A subdirectory refused by the filter gets its two header lines and nothing else, and its branch
      is the parent's: "+--- " under a directory that is not the last, even for the last entry. */
  lemma RefusedSubdirectory(dir: Entry, files: seq<Entry>, i: nat, level: int, indent: string, isLast: bool,
                            subdir: bool, filter: TreeFilter)
    requires forall e :: e in files ==> e in dir.children
    requires i < |files| && files[i].isDirectory && !DoSubDir(filter, files[i], level, isLast, i == |files| - 1)
    ensures DirLines(dir, files, i, level, indent, isLast, subdir, filter)
         == ["|", indent + (if isLast then "\\--- " else "+--- ") + files[i].name]
            + DirLines(dir, files, i + 1, level, indent, isLast, subdir, filter)
  {
  }

  /** A subdirectory the filter lets through opens with "|" and its branch, chosen by whether it is
      the last entry, and its own entries come four spaces further in. */
  lemma DescendedSubdirectory(dir: Entry, files: seq<Entry>, i: nat, level: int, indent: string, isLast: bool,
                              subdir: bool, filter: TreeFilter)
    requires forall e :: e in files ==> e in dir.children
    requires i < |files| && files[i].isDirectory && DoSubDir(filter, files[i], level, isLast, i == |files| - 1)
    ensures var d := files[i];
      DirLines(dir, files, i, level, indent, isLast, subdir, filter)
      == ["|", indent + (if i == |files| - 1 then "\\--- " else "+--- ") + d.name]
         + Body(level + 1, indent + "    ", i == |files| - 1, d, subdir, filter)
         + DirLines(dir, files, i + 1, level, indent, isLast, subdir, filter)
  {
  }

  /** The list generateTree appends to. */
  class LineList {
    var lines: seq<string>

    constructor ()
      ensures lines == []
    {
      lines := [];
    }

    method Add(line: string)
      modifies this
      ensures lines == old(lines) + [line]
    {
      lines := lines + [line];
    }
  }

  /** generateTree(list, level, indent, isLast, baseDir, subdir, filter): appends the header (the path
      when indent is null) and the contents of baseDir. */
  method GenerateTreeInto(list: LineList, level: int, indent: Option<string>, isLast: bool, baseDir: Entry,
                          path: string, subdir: bool, filter: TreeFilter)
    modifies list
    decreases baseDir, 2
    ensures list.lines == old(list.lines) + (if indent.None? then [path] + Body(level, "", isLast, baseDir, subdir, filter)
                                             else Subtree(level, indent.value, isLast, baseDir, subdir, filter))
  {
    if indent.None? {
      ghost var before := list.lines;
      list.Add(path);
      AddBody(list, level, "", isLast, baseDir, subdir, filter);
      Regroup(before, [path], Body(level, "", isLast, baseDir, subdir, filter));
    } else {
      AddSubtree(list, level, indent.value, isLast, baseDir, subdir, filter);
    }
  }

  /** generateTree with an indent: the "|" line and the branch line, then the contents of dir. */
  method AddSubtree(list: LineList, level: int, indent: string, isLast: bool, dir: Entry, subdir: bool, filter: TreeFilter)
    modifies list
    decreases dir, 1, 2
    ensures list.lines == old(list.lines) + Subtree(level, indent, isLast, dir, subdir, filter)
  {
    ghost var before := list.lines;
    var header := indent + (if isLast then "\\--- " else "+--- ") + dir.name;
    assert Header(indent, isLast, dir.name) == ["|", header];
    list.Add("|");
    list.Add(header);
    assert list.lines == before + ["|", header];
    AddBody(list, level, indent + "    ", isLast, dir, subdir, filter);
    Regroup(before, ["|", header], Body(level, indent + "    ", isLast, dir, subdir, filter));
  }

  lemma Regroup<T>(a: seq<T>, b: seq<T>, c: seq<T>)
    ensures (a + b) + c == a + (b + c)
  {
  }

  /** The two loops of generateTree, over the filtered listing of dir. */
  method AddBody(list: LineList, level: int, indent: string, isLast: bool, dir: Entry, subdir: bool, filter: TreeFilter)
    modifies list
    decreases dir, 1, 1
    ensures list.lines == old(list.lines) + Body(level, indent, isLast, dir, subdir, filter)
  {
    ghost var before := list.lines;
    var files := Files(dir, subdir, filter);
    ghost var fileLines := FileLines(files, 0, isLast, indent);
    ghost var dirLines := DirLines(dir, files, 0, level, indent, isLast, subdir, filter);
    assert Body(level, indent, isLast, dir, subdir, filter) == fileLines + dirLines;
    AddFileLines(list, files, isLast, indent);
    AddDirLines(list, dir, files, level, indent, isLast, subdir, filter);
    Regroup(before, fileLines, dirLines);
  }

  /** The first loop: a line for each file. */
  method AddFileLines(list: LineList, files: seq<Entry>, isLast: bool, indent: string)
    modifies list
    ensures list.lines == old(list.lines) + FileLines(files, 0, isLast, indent)
  {
    var i := 0;
    while i < |files|
      invariant 0 <= i <= |files|
      invariant list.lines + FileLines(files, i, isLast, indent) == old(list.lines) + FileLines(files, 0, isLast, indent)
    {
      var file := files[i];
      var isFileLast := i == |files| - 1;
      ghost var pre := list.lines;
      ghost var rest := FileLines(files, i + 1, isLast, indent);
      if !file.isDirectory {
        ghost var line := FileLine(isLast, isFileLast, indent, file.name);
        assert FileLines(files, i, isLast, indent) == [line] + rest;
        list.Add((if isLast && isFileLast then "    " else "|   ") + indent + file.name);
        Regroup(pre, [line], rest);
      } else {
        assert FileLines(files, i, isLast, indent) == [] + rest;
      }
      i := i + 1;
    }
  }

  /** The second loop: each subdirectory descended into, or its header alone when refused. */
  method AddDirLines(list: LineList, dir: Entry, files: seq<Entry>, level: int, indent: string, isLast: bool,
                     subdir: bool, filter: TreeFilter)
    requires forall e :: e in files ==> e in dir.children
    modifies list
    decreases dir, 1, 0
    ensures list.lines == old(list.lines) + DirLines(dir, files, 0, level, indent, isLast, subdir, filter)
  {
    var i := 0;
    while i < |files|
      invariant 0 <= i <= |files|
      invariant list.lines + DirLines(dir, files, i, level, indent, isLast, subdir, filter)
             == old(list.lines) + DirLines(dir, files, 0, level, indent, isLast, subdir, filter)
    {
      AddDirEntry(list, dir, files, i, level, indent, isLast, subdir, filter);
      i := i + 1;
    }
  }

  /** One turn of the second loop. */
  method AddDirEntry(list: LineList, dir: Entry, files: seq<Entry>, i: nat, level: int, indent: string, isLast: bool,
                     subdir: bool, filter: TreeFilter)
    requires forall e :: e in files ==> e in dir.children
    requires i < |files|
    modifies list
    decreases dir, 0
    ensures list.lines + DirLines(dir, files, i + 1, level, indent, isLast, subdir, filter)
         == old(list.lines) + DirLines(dir, files, i, level, indent, isLast, subdir, filter)
  {
    var d := files[i];
    var isDirLast := i == |files| - 1;
    if d.isDirectory {
      var doSubDir := true;
      if filter.TreeFilter? {
        doSubDir := filter.doSubDir(d, level, isLast, isDirLast);
      }
      if doSubDir {
        ChildSmaller(dir, d);
        GenerateTreeInto(list, level + 1, Some(indent), isDirLast, d, "", subdir, filter);
      } else {
        list.Add("|");
        list.Add(indent + (if isLast then "\\--- " else "+--- ") + d.name);
      }
    }
  }

  /** generateTree(baseDir, filter, subdir): a new list filled from the top. */
  method GenerateTree(path: string, baseDir: Entry, filter: TreeFilter, subdir: bool) returns (lines: seq<string>)
    ensures lines == Tree(path, baseDir, subdir, filter)
    ensures |lines| > 0 && lines[0] == path
  {
    var list := new LineList();
    GenerateTreeInto(list, 0, None, false, baseDir, path, subdir, filter);
    lines := list.lines;
  }

  /** generateTree(String baseDir, boolean subdir) as written: it calls generateTree(new File(baseDir)),
      which lists subdirectories whatever subdir says. */
  method GenerateTreeOfPath(path: string, baseDir: Entry, subdir: bool) returns (lines: seq<string>)
    ensures lines == Tree(path, baseDir, true, NoTreeFilter)
  {
    lines := GenerateTree(path, baseDir, NoTreeFilter, true);
  }

  /** The same overload passing subdir on, as generateTree(File, boolean) does. */
  method GenerateTreeOfPathCorrected(path: string, baseDir: Entry, subdir: bool) returns (lines: seq<string>)
    ensures lines == Tree(path, baseDir, subdir, NoTreeFilter)
    ensures !subdir ==> var fs := FilesFrom(Files(baseDir, false, NoTreeFilter), 0);
      |lines| == 1 + |fs| && forall k :: 0 <= k < |fs| ==> lines[k + 1] == "|   " + fs[k].name
  {
    lines := GenerateTree(path, baseDir, NoTreeFilter, subdir);
    if !subdir {
      NoSubdirTree(path, baseDir, NoTreeFilter);
    }
  }

  /** A directory "r" holding only an empty directory "d". */
  const OneSubdirectory := Entry("r", true, [Entry("d", true, [])])

  /** With subdir false, the overload as written still draws the subdirectory; passing subdir on
      leaves only the path. */
  lemma SubdirIgnored()
    ensures Tree("r", OneSubdirectory, true, NoTreeFilter) == ["r", "|", "\\--- d"]
    ensures Tree("r", OneSubdirectory, false, NoTreeFilter) == ["r"]
  {
    var d := Entry("d", true, []);
    assert [d][1..] == [];
    var files := Files(OneSubdirectory, true, NoTreeFilter);
    assert files == [d];
    assert Files(d, true, NoTreeFilter) == [];
    assert Body(1, "    ", true, d, true, NoTreeFilter) == [];
    assert "" + Marker(true) + "d" == "\\--- d";
    assert Subtree(1, "", true, d, true, NoTreeFilter) == ["|", "\\--- d"];
    assert FileLines(files, 0, false, "") == [];
    assert DirLines(OneSubdirectory, files, 0, 0, "", false, true, NoTreeFilter) == ["|", "\\--- d"];
    assert Files(OneSubdirectory, false, NoTreeFilter) == [];
  }
}
