/**
 * The target paths the POSIX, Windows and SSH handles compute before they
 * copy, move, link or rename: the same FilePath expressions in all three.
 */
module HandlePaths {
  import opened FilePath
  import opened StdString

  /** `FilePath(path).fileName()`. */
  function FileNameOf(path: string): string
  {
    Analysis(Unify(path)).fileName
  }

  /**
   * `FilePath(path).resolve(rel).fullPath()`: the path `rel` names when it
   * is read relative to `path`, as `open(rel)` does.
   */
  function OpenTarget(path: string, rel: string): string
  {
    Analysis(Resolve(Unify(path), Unify(rel))).fullPath
  }

  /**
   * `FilePath(path).resolve("..").resolved()`: the path parentDirectory
   * opens, with `.` and `..` removed by `resolved()` as written.
   */
  function ParentTarget(path: string): string
  {
    ResolvedPath(Resolve(Unify(path), ".."))
  }

  /** The same with the intended resolution, which also skips empty parts. */
  function CollapsedParentTarget(path: string): string
  {
    ResolvedCollapsed(Resolve(Unify(path), ".."))
  }

  /**
   * The destination of copy, move and the link operations: `dest.path()`,
   * or, when the destination is a directory, the source's file name
   * resolved against it, `FilePath(dest.path()).resolve(filename).fullPath()`.
   */
  function Destination(src: string, dest: string, destIsDirectory: bool): string
  {
    if destIsDirectory then OpenTarget(dest, FileNameOf(src)) else dest
  }

  /**
   * The new path of rename:
   * `FilePath(FilePath(path).directoryPath()).resolve(filename).fullPath()`.
   */
  function RenameTarget(path: string, filename: string): string
  {
    Analysis(Resolve(Unify(Analysis(Unify(path)).directoryPath), Unify(filename))).fullPath
  }

  /** An entry name is a path of one part: it is its own full path and file name. */
  lemma EntryAnalysis(name: string)
    requires IsEntryName(name)
    ensures Split(name) == [name]
    ensures Analysis(name).fileName == name && Analysis(name).fullPath == name
    ensures !Analysis(name).absolute
  {
    PiecesNoSeparator(name);
  }

  /**
   * Placing an entry name inside a non-empty directory: the result is the
   * directory's full path, a separator and the name; it is unified, it is
   * its own full path, and its file name is the name.
   */
  lemma PlacedInDirectory(dir: string, name: string)
    requires dir != "" && IsEntryName(name)
    ensures Unify(name) == name
    ensures var r := Resolve(Unify(dir), name);
      r == Analysis(Unify(dir)).fullPath + "/" + name && Unify(r) == r &&
      Analysis(r).fullPath == r && Analysis(r).fileName == name
  {
    UnifyUnified(name);
    EntryAnalysis(name);
    ResolveEntry(Unify(dir), name);
    var r := Resolve(Unify(dir), name);
    assert r == Unify(Analysis(Unify(dir)).fullPath + "/" + name);
    UnifyUnified(r);
  }

  /**
   * Copying or moving into a directory keeps the source's file name: the
   * destination is the directory's full path, `/` and that name.
   */
  lemma DestinationKeepsName(src: string, dest: string)
    requires dest != "" && IsEntryName(FileNameOf(src))
    ensures Destination(src, dest, true) == Analysis(Unify(dest)).fullPath + "/" + FileNameOf(src)
    ensures FileNameOf(Destination(src, dest, true)) == FileNameOf(src)
  {
    OpenEntry(dest, FileNameOf(src));
  }

  /** Resolving an entry name against an empty directory gives the name itself. */
  lemma PlacedAtTop(name: string)
    requires IsEntryName(name)
    ensures Unify(name) == name
    ensures Analysis(Resolve(Unify(""), name)).fullPath == name
  {
    UnifyUnified(name);
    EntryAnalysis(name);
    assert Unify("") == "";
    assert Resolve("", name) == name;
  }

  /**
   * Opening an entry name: the name is placed below the handle's full path,
   * or stands alone when the handle's path is empty; the result is longer
   * than the handle's path and its file name is the entry name.
   */
  lemma OpenEntry(path: string, name: string)
    requires IsEntryName(name)
    ensures OpenTarget(path, name) == (if path == "" then name else Analysis(Unify(path)).fullPath + "/" + name)
    ensures FileNameOf(OpenTarget(path, name)) == name
    ensures |OpenTarget(path, name)| > |path|
  {
    if path == "" {
      PlacedAtTop(name);
      EntryAnalysis(name);
    } else {
      PlacedInDirectory(path, name);
      FullPathLength(Unify(path));
    }
  }

  /** The full path of a non-empty path starts with the path's first character. */
  lemma FullPathFirst(path: string)
    requires path != ""
    ensures Analysis(path).fullPath != "" && Analysis(path).fullPath[0] == path[0]
  {
    FullPathDropsOneSeparator(path);
    if |path| == 1 {
      LoneSeparatorIsRoot(path);
    }
    if IsSingleRoot(path) {
      var root := Split(path)[0];
      if root != "" {
        assert path[0] == root[0];
      }
    } else if path[|path| - 1] == '/' {
      assert Analysis(path).fullPath == path[..|path| - 1];
    }
  }

  /** The one-character path `/` is a lone root. */
  lemma LoneSeparatorIsRoot(path: string)
    requires |path| == 1
    ensures path[0] == '/' ==> IsSingleRoot(path)
  {
    if path[0] == '/' {
      PiecesSnoc([], '/');
      assert [] + [path[0]] == path;
    }
  }

  /** Resolving `..` against a non-empty unified path appends it to the full path. */
  lemma ResolveUp(base: string)
    requires base != ""
    ensures Resolve(base, "..") == Unify(Analysis(base).fullPath + "/" + "..")
  {
    EntryAnalysis("..");
  }

  /** `..` appended to the full path of a non-empty path starts with the path's first character, unified. */
  lemma ParentFirst(path: string)
    requires path != ""
    ensures var up := Resolve(Unify(path), "..");
      up != "" && (up[0] == '/' <==> (path[0] == '/' || path[0] == '\\'))
  {
    var base := Unify(path);
    assert base[0] == '/' <==> (path[0] == '/' || path[0] == '\\');
    ResolveUp(base);
    FullPathFirst(base);
    var joined := Analysis(base).fullPath + "/" + "..";
    assert joined[0] == base[0] && base[0] != '\\';
    assert Unify(joined)[0] == joined[0];
  }

  /**
   * The parent of a path that starts at the root starts at the root too.
   * As written the reverse fails: see `ParentOfRelativeBecomesRooted`.
   */
  lemma ParentKeepsRoot(path: string)
    requires path != "" && (path[0] == '/' || path[0] == '\\')
    ensures ParentTarget(path)[0] == '/'
  {
    ParentFirst(path);
    RootedStaysRooted(Resolve(Unify(path), ".."));
  }

  /** A path starting with `/` resolves to one starting with `/`. */
  lemma RootedStaysRooted(up: string)
    requires up != "" && up[0] == '/'
    ensures ResolvedPath(up)[0] == '/'
  {
    FirstPartEmpty(up);
    AbsoluteFirstPart(up);
    ResolvedKeepsRoot(up);
    var r := ResolvedPath(up);
    assert r[..1] == "/";
    assert r[0] == r[..1][0];
  }

  /**
   * With the intended resolution the parent starts at the root exactly
   * when the path does: a relative path never becomes absolute, nor the
   * reverse.
   */
  lemma CollapsedParentKeepsRoot(path: string)
    requires path != ""
    ensures CollapsedParentTarget(path)[0] == '/' <==> (path[0] == '/' || path[0] == '\\')
  {
    ParentFirst(path);
    CollapsedLeadingSeparator(Resolve(Unify(path), ".."));
  }

  /**
   * As written, the parent of the relative path `.//x/y` is the rooted
   * `/x`; the intended resolution gives `x`.
   */
  lemma ParentOfRelativeBecomesRooted()
    ensures ParentTarget(".//x/y") == "/x"
    ensures CollapsedParentTarget(".//x/y") == "x"
  {
    DotEmptyParentUp();
    DotEmptyParentResolved();
  }

  /** `..` appended to `.//x/y`. */
  lemma DotEmptyParentUp()
    ensures Resolve(Unify(".//x/y"), "..") == ".//x/y" + "/" + ".."
  {
    DotEmptyUp(".//x/y");
  }

  lemma DotEmptyUp(path: string)
    requires path == ".//x/y"
    ensures Resolve(Unify(path), "..") == path + "/" + ".."
  {
    UnifyUnified(path);
    DotEmptyFullPath(path);
    ResolveUp(path);
    UnifyUnified(path + "/" + "..");
  }

  lemma DotEmptyFullPath(path: string)
    requires path == ".//x/y"
    ensures Analysis(path).fullPath == path
  {
    var ps := [".", "", "x", "y"];
    JoinedDotEmptyPath(ps);
    SplitOfJoin(ps);
    FullPathOfParts(ps, Substr(path, 0, 2));
  }

  /** `.//x/y/..` resolved as written and as intended. */
  lemma DotEmptyParentResolved()
    ensures ResolvedPath(".//x/y" + "/" + "..") == "/x"
    ensures ResolvedCollapsed(".//x/y" + "/" + "..") == "x"
  {
    var ups := [".", "", "x", "y", ".."];
    JoinedDotEmptyPathUp(ups);
    SplitOfJoin(ups);
    DotEmptyParentRun(ups);
    DotEmptyParentRunCollapsed(ups);
    DotEmptyComposed(["", "x"]);
    DotEmptyComposedCollapsed(["x"]);
  }

  lemma JoinedDotEmptyPath(ps: seq<string>)
    requires |ps| == 4 && ps[0] == "." && ps[1] == "" && ps[2] == "x" && ps[3] == "y"
    ensures JoinSlash(ps) == ".//x/y"
  {
    JoinLast(ps);
    var t2 := ps[2] + "/" + ps[3];
    JoinCons(ps, 2, ps[3], t2);
    var t1 := ps[1] + "/" + t2;
    JoinCons(ps, 1, t2, t1);
    var t0 := ps[0] + "/" + t1;
    JoinCons(ps, 0, t1, t0);
    assert ps[0..] == ps;
  }

  lemma JoinedDotEmptyPathUp(ps: seq<string>)
    requires |ps| == 5 && ps[0] == "." && ps[1] == "" && ps[2] == "x" && ps[3] == "y" && ps[4] == ".."
    ensures JoinSlash(ps) == ".//x/y" + "/" + ".."
  {
    JoinLast(ps);
    var t3 := ps[3] + "/" + ps[4];
    JoinCons(ps, 3, ps[4], t3);
    var t2 := ps[2] + "/" + t3;
    JoinCons(ps, 2, t3, t2);
    var t1 := ps[1] + "/" + t2;
    JoinCons(ps, 1, t2, t1);
    var t0 := ps[0] + "/" + t1;
    JoinCons(ps, 0, t1, t0);
    assert ps[0..] == ps;
  }

  lemma DotEmptyParentRun(ps: seq<string>)
    requires |ps| == 5 && ps[0] == "." && ps[1] == "" && ps[2] == "x" && ps[3] == "y" && ps[4] == ".."
    ensures Run(ps, 0, Start) == Normal(["", "x"], 2, false)
  {
    RunStep(ps, 0, Start, Normal([], 0, false));
    RunStep(ps, 1, Normal([], 0, false), Normal([""], 1, false));
    RunStep(ps, 2, Normal([""], 1, false), Normal(["", "x"], 2, false));
    RunStep(ps, 3, Normal(["", "x"], 2, false), Normal(["", "x", "y"], 3, false));
    RunStep(ps, 4, Normal(["", "x", "y"], 3, false), Normal(["", "x"], 2, false));
  }

  lemma DotEmptyParentRunCollapsed(ps: seq<string>)
    requires |ps| == 5 && ps[0] == "." && ps[1] == "" && ps[2] == "x" && ps[3] == "y" && ps[4] == ".."
    ensures RunCollapsed(ps, 0, Start) == Normal(["x"], 1, false)
  {
    RunCollapsedStep(ps, 0, Start, Normal([], 0, false));
    RunCollapsedStep(ps, 1, Normal([], 0, false), Normal([], 0, false));
    RunCollapsedStep(ps, 2, Normal([], 0, false), Normal(["x"], 1, false));
    RunCollapsedStep(ps, 3, Normal(["x"], 1, false), Normal(["x", "y"], 2, false));
    RunCollapsedStep(ps, 4, Normal(["x", "y"], 2, false), Normal(["x"], 1, false));
  }

  /** Renaming keeps the directory and puts the new name at the end. */
  lemma RenameKeepsName(path: string, filename: string)
    requires IsEntryName(filename)
    ensures FileNameOf(RenameTarget(path, filename)) == filename
    ensures var dir := Analysis(Unify(path)).directoryPath;
      RenameTarget(path, filename) == (if dir == "" then filename else Analysis(Unify(dir)).fullPath + "/" + filename)
  {
    var dir := Analysis(Unify(path)).directoryPath;
    var target := RenameTarget(path, filename);
    if dir == "" {
      PlacedAtTop(filename);
      assert target == filename;
      EntryAnalysis(filename);
    } else {
      PlacedInDirectory(dir, filename);
      assert target == Analysis(Resolve(Unify(dir), filename)).fullPath;
    }
  }

  lemma SourceFileNameExample()
    ensures FileNameOf("/home/a.txt") == "a.txt"
  {
    var ps := ["", "home", "a.txt"];
    UnifyUnified("/home/a.txt");
    JoinedSourceFileNameExample(ps);
    SplitOfJoin(ps);
    ManyParts(ps, Substr("/home/a.txt", 0, 2));
  }

  lemma JoinedSourceFileNameExample(ps: seq<string>)
    requires |ps| == 3 && ps[0] == "" && ps[1] == "home" && ps[2] == "a.txt"
    ensures JoinSlash(ps) == "/home/a.txt"
  {
    JoinLast(ps);
    var t1 := ps[1] + "/" + ps[2];
    JoinCons(ps, 1, ps[2], t1);
    var t0 := ps[0] + "/" + t1;
    JoinCons(ps, 0, t1, t0);
    assert ps[0..] == ps;
  }

  lemma DirectoryFullPathExample()
    ensures Analysis(Unify("/tmp")).fullPath == "/tmp"
  {
    var ps := ["", "tmp"];
    UnifyUnified("/tmp");
    assert JoinSlash(ps) == "/tmp";
    SplitOfJoin(ps);
    ManyParts(ps, Substr("/tmp", 0, 2));
  }

  lemma EntryNameExample()
    ensures IsEntryName("a.txt") && "/tmp" + "/" + "a.txt" == "/tmp/a.txt"
  {
  }

  /** Moving `/home/a.txt` into the directory `/tmp` targets `/tmp/a.txt`. */
  lemma MoveIntoDirectoryExample()
    ensures Destination("/home/a.txt", "/tmp", true) == "/tmp/a.txt"
  {
    SourceFileNameExample();
    DirectoryFullPathExample();
    EntryNameExample();
    DestinationKeepsName("/home/a.txt", "/tmp");
  }
}
