/**
 * OC.getUnixFullname, OC.toUnixPath and the gzip-extension stripping of OC.ungzipFile and
 * OC.ungzipFileToObject. A Java null string is None; the file I/O around the stripping is not modelled.
 */
module UnixPaths {
  import opened Wrappers
  import opened JavaStrings

  const UnixSeparator: string := "/"
  const WindowsSeparatorChar: char := '\\'
  const UnixSeparatorChar: char := '/'

  /** OutilsBase.isEmpty on a possibly-null string. */
  predicate IsEmptyOpt(v: Option<string>) {
    v.None? || |v.value| == 0
  }

  /** One element with a single trailing '/' removed. */
  function StripTrailingSlash(v: string): (r: string)
    ensures EndsWith(v, UnixSeparator) ==> r + UnixSeparator == v
    ensures !EndsWith(v, UnixSeparator) ==> r == v
  {
    if EndsWith(v, UnixSeparator) then v[..|v| - 1] else v
  }

  /** What one loop iteration does to the accumulated path. */
  function JoinStep(fullname: string, v: Option<string>): (r: string)
    ensures IsEmptyOpt(v) ==> r == fullname
    ensures !IsEmptyOpt(v) ==> StartsWith(r, fullname) && EndsWith(r, StripTrailingSlash(v.value))
  {
    if IsEmptyOpt(v) then fullname
    else
      var value := StripTrailingSlash(v.value);
      var sep := if StartsWith(value, UnixSeparator) then ""
                 else if |fullname| > 0 && !EndsWith(fullname, UnixSeparator) then UnixSeparator
                 else "";
      assert (fullname + sep + value)[..|fullname|] == fullname;
      assert (fullname + sep + value)[|fullname + sep + value| - |value|..] == value;
      fullname + sep + value
  }

  /** The path built from the first |vs| elements. */
  function Joined(vs: seq<Option<string>>): string {
    if vs == [] then "" else JoinStep(Joined(vs[..|vs| - 1]), vs[|vs| - 1])
  }

  /** getUnixFullname(String...): the loop over the elements; a null array gives "". */
  method GetUnixFullname(values: Option<seq<Option<string>>>) returns (fullname: string)
    ensures values.None? ==> fullname == ""
    ensures values.Some? ==> fullname == Joined(values.value)
  {
    fullname := "";
    if values.Some? {
      var vs := values.value;
      var i := 0;
      while i < |vs|
        invariant 0 <= i <= |vs|
        invariant fullname == Joined(vs[..i])
      {
        assert vs[..i + 1][..i] == vs[..i];
        fullname := JoinStep(fullname, vs[i]);
        i := i + 1;
      }
      assert vs[..i] == vs;
    }
  }

  /** Null and empty elements contribute nothing: all-empty input gives "". */
  lemma {:induction false} AllEmptyJoinsToEmpty(vs: seq<Option<string>>)
    requires forall i :: 0 <= i < |vs| ==> IsEmptyOpt(vs[i])
    ensures Joined(vs) == ""
  {
    if vs != [] {
      AllEmptyJoinsToEmpty(vs[..|vs| - 1]);
    }
  }

  /** The accumulated path is only ever extended: the path of a prefix is a prefix of the path. */
  lemma {:induction false} JoinedGrows(vs: seq<Option<string>>, ws: seq<Option<string>>)
    ensures StartsWith(Joined(vs + ws), Joined(vs))
  {
    if ws == [] {
      assert vs + ws == vs;
    } else {
      var last := |vs + ws| - 1;
      assert (vs + ws)[..last] == vs + ws[..|ws| - 1];
      JoinedGrows(vs, ws[..|ws| - 1]);
      var a := Joined(vs);
      var b := Joined(vs + ws[..|ws| - 1]);
      var c := Joined(vs + ws);
      assert c == JoinStep(b, (vs + ws)[last]);
      assert StartsWith(c, b);
      assert c[..|a|] == c[..|b|][..|a|];
    }
  }

  /** An element with no '/' at either end. */
  predicate PlainSegment(v: string) {
    |v| > 0 && v[0] != '/' && v[|v| - 1] != '/'
  }

  /** Plain segments joined with one '/' between neighbours. */
  function SlashJoin(vs: seq<Option<string>>): string
    requires forall i :: 0 <= i < |vs| ==> vs[i].Some?
  {
    if vs == [] then ""
    else if |vs| == 1 then vs[0].value
    else SlashJoin(vs[..|vs| - 1]) + "/" + vs[|vs| - 1].value
  }

  /** For plain non-empty segments getUnixFullname is the '/'-join of the segments. */
  lemma {:induction false} JoinedPlainSegments(vs: seq<Option<string>>)
    requires forall i :: 0 <= i < |vs| ==> vs[i].Some? && PlainSegment(vs[i].value)
    ensures Joined(vs) == SlashJoin(vs)
    ensures |vs| > 0 ==> |Joined(vs)| > 0 && Joined(vs)[|Joined(vs)| - 1] != '/'
  {
    if |vs| > 0 {
      var p := vs[..|vs| - 1];
      JoinedPlainSegments(p);
      var v := vs[|vs| - 1].value;
      assert !EndsWith(v, UnixSeparator) by {
        assert v[|v| - 1..] == [v[|v| - 1]];
      }
      assert !StartsWith(v, UnixSeparator) by {
        assert v[..1] == [v[0]];
      }
      if |p| > 0 {
        var f := Joined(p);
        assert !EndsWith(f, UnixSeparator) by {
          assert f[|f| - 1..] == [f[|f| - 1]];
        }
      }
    }
  }

  /** toUnixPath: every Windows separator becomes '/'; null or empty input is returned as is. */
  function ToUnixPath(path: Option<string>): (r: Option<string>)
    ensures IsEmptyOpt(path) ==> r == path
    ensures !IsEmptyOpt(path) ==> r.Some? && |r.value| == |path.value|
    ensures !IsEmptyOpt(path) ==> forall i :: 0 <= i < |path.value| ==>
      r.value[i] == (if path.value[i] == WindowsSeparatorChar then UnixSeparatorChar else path.value[i])
  {
    if IsEmptyOpt(path) then path else Some(ReplaceChar(path.value, WindowsSeparatorChar, UnixSeparatorChar))
  }

  /** Normalising twice is normalising once, and a normalised path holds no Windows separator. */
  lemma ToUnixPathIdempotent(path: Option<string>)
    ensures ToUnixPath(ToUnixPath(path)) == ToUnixPath(path)
    ensures ToUnixPath(path).Some? ==> WindowsSeparatorChar !in ToUnixPath(path).value
  {
    var r := ToUnixPath(path);
    if r.Some? && !IsEmptyOpt(r) {
      assert ToUnixPath(r).value == r.value;
    }
  }

  /** OutilsBase.endsWithIgnoreCase, with ASCII case folding; a null name never matches. */
  predicate EndsWithIgnoreCase(name: Option<string>, ext: string) {
    name.Some? && |ext| <= |name.value| && EqualsIgnoreCase(name.value[|name.value| - |ext|..], ext)
  }

  /** The target file name of ungzipFile(String) and ungzipFileToObject(String, converter). */
  function GzipTargetName(gzipFilename: Option<string>, ext: string): (r: Result<string>)
    ensures r.Success? <==> EndsWithIgnoreCase(gzipFilename, ext)
    ensures r.Success? ==> StartsWith(gzipFilename.value, r.value) && |gzipFilename.value| == |r.value| + |ext|
    ensures r.Failure? ==> r.error == "Le nom du fichier gzip ne se termine pas par l'extension " + ext
  {
    if EndsWithIgnoreCase(gzipFilename, ext) then
      var n := gzipFilename.value;
      assert n == n[..|n| - |ext|] + n[|n| - |ext|..];
      Success(n[..|n| - |ext|])
    else Failure("Le nom du fichier gzip ne se termine pas par l'extension " + ext)
  }

  /** Appending the extension in any ASCII letter case and stripping it gives the name back. */
  lemma GzipTargetNameRoundTrip(base: string, suffix: string, ext: string)
    requires EqualsIgnoreCase(suffix, ext)
    ensures GzipTargetName(Some(base + suffix), ext) == Success(base)
  {
    var n := base + suffix;
    assert |suffix| == |ext| by {
      assert |LowerAscii(suffix)| == |LowerAscii(ext)|;
    }
    assert n[|n| - |ext|..] == suffix;
    assert n[..|n| - |ext|] == base;
  }
}
