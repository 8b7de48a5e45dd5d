/**
 * The free functions of `directorytraversal`: collecting the files below a
 * directory with `opendir`/`readdir` (recursively on request), for one
 * directory or several, and keeping those with a given extension.
 *
 * The operating system is the map `dirs`: a path that `opendir` opens maps
 * to the entries `readdir` returns for it, in order, each with the
 * `d_type` the directory entry carries. A path outside the map does not
 * open.
 */
module DirectoryTraversal {
  import FilePath
  import StdString

  /** The `d_type` of a directory entry; `Other` covers links, devices, pipes and sockets. */
  datatype EntryType = DtDir | DtReg | DtUnknown | Other

  datatype DirEntry = DirEntry(name: string, dtype: EntryType)

  type Dirs = map<string, seq<DirEntry>>

  /** The path an entry is reached by: the directory, a slash and the name. */
  function Child(directory: string, name: string): (r: string)
    ensures |r| == |directory| + 1 + |name|
    ensures r[..|directory| + 1] == directory + "/"
  {
    directory + "/" + name
  }

  /** `p` is a path below `directory`: it starts with the directory and a slash. */
  predicate Below(p: string, directory: string)
  {
    |directory| < |p| && p[..|directory| + 1] == directory + "/"
  }

  /** The openable paths at least as long as `directory`: what a traversal from it may still open. */
  function Reach(dirs: Dirs, directory: string): set<string>
  {
    set k | k in dirs.Keys && |k| >= |directory|
  }

  /** Opening a longer path leaves strictly less to open. */
  lemma ReachShrinks(dirs: Dirs, directory: string, path: string)
    requires directory in dirs && |path| > |directory|
    ensures Reach(dirs, path) < Reach(dirs, directory)
  {
    assert directory in Reach(dirs, directory) && directory !in Reach(dirs, path);
  }

  /** Whether an entry counts as a directory: DT_DIR, or DT_UNKNOWN and its path opens. */
  predicate IsDir(dirs: Dirs, directory: string, e: DirEntry)
  {
    e.dtype == DtDir || (e.dtype == DtUnknown && Child(directory, e.name) in dirs)
  }

  /** Whether an entry counts as a file: DT_REG, or DT_UNKNOWN and its path does not open. */
  predicate IsFile(dirs: Dirs, directory: string, e: DirEntry)
  {
    e.dtype == DtReg || (e.dtype == DtUnknown && Child(directory, e.name) !in dirs)
  }

  /** No entry is taken for both a file and a directory, which the source asserts. */
  lemma NeverBoth(dirs: Dirs, directory: string, e: DirEntry)
    ensures !(IsDir(dirs, directory, e) && IsFile(dirs, directory, e))
  {
  }

  /** Whether a recursive traversal descends into an entry: a directory other than `.` and `..`. */
  predicate Descends(dirs: Dirs, directory: string, e: DirEntry)
  {
    IsDir(dirs, directory, e) && e.name != "." && e.name != ".."
  }

  /** The files `getFiles` collects below `directory`; nothing when the directory does not open. */
  function FilesOf(dirs: Dirs, directory: string, recursive: bool): (r: seq<string>)
    ensures directory !in dirs ==> r == []
    ensures forall p :: p in r ==> Below(p, directory)
    decreases Reach(dirs, directory), 2
  {
    if directory !in dirs then [] else EntriesFiles(dirs, directory, dirs[directory], recursive)
  }

  /** The files collected from a run of entries of an opened directory, in readdir order. */
  function EntriesFiles(dirs: Dirs, directory: string, entries: seq<DirEntry>, recursive: bool): (r: seq<string>)
    requires directory in dirs
    ensures forall p :: p in r ==> Below(p, directory)
    decreases Reach(dirs, directory), 1, |entries|
  {
    if entries == [] then []
    else
      EntriesFiles(dirs, directory, entries[..|entries| - 1], recursive) +
      EntryFiles(dirs, directory, entries[|entries| - 1], recursive)
  }

  /**
   * What one entry adds: a directory other than `.` and `..` is descended
   * into when the traversal is recursive; otherwise a file adds its own
   * path; anything else adds nothing.
   */
  function EntryFiles(dirs: Dirs, directory: string, e: DirEntry, recursive: bool): (r: seq<string>)
    requires directory in dirs
    ensures forall p :: p in r ==> Below(p, directory)
    ensures !recursive ==> r == (if IsFile(dirs, directory, e) then [Child(directory, e.name)] else [])
    decreases Reach(dirs, directory), 0, 0
  {
    var path := Child(directory, e.name);
    if Descends(dirs, directory, e) && recursive then
      ReachShrinks(dirs, directory, path);
      var below := FilesOf(dirs, path, true);
      assert forall p :: p in below ==> Below(p, directory) by {
        forall p | p in below
          ensures Below(p, directory)
        {
          assert p[..|path| + 1] == path + "/";
          assert p[..|directory| + 1] == (path + "/")[..|directory| + 1];
        }
      }
      below
    else if IsFile(dirs, directory, e) then [path]
    else []
  }

  // ------------------------------------------------------------------
  // What a recursive traversal collects
  // ------------------------------------------------------------------

  /**
   * `p` is reached from `directory` by opening it and descending through
   * a chain of directory entries other than `.` and `..`.
   */
  predicate Reached(dirs: Dirs, directory: string, p: string)
    decreases |p| - |directory|
  {
    p == directory ||
    (|directory| < |p| && directory in dirs &&
     exists e :: e in dirs[directory] && Descends(dirs, directory, e) && |Child(directory, e.name)| <= |p| &&
       Reached(dirs, Child(directory, e.name), p))
  }

  /** `x` is the path of a file entry of an opened directory reached from `directory`. */
  predicate ReachedFile(dirs: Dirs, directory: string, x: string)
  {
    exists p, e :: Reached(dirs, directory, p) && p in dirs && e in dirs[p] && IsFile(dirs, p, e) && x == Child(p, e.name)
  }

  /** A path reached from a directory is at least as long as it. */
  lemma ReachedLonger(dirs: Dirs, directory: string, p: string)
    requires Reached(dirs, directory, p)
    ensures |directory| <= |p|
  {
  }

  /** What a recursive traversal collects are exactly the files of the directories it reaches. */
  lemma FilesOfRecursive(dirs: Dirs, directory: string, x: string)
    ensures x in FilesOf(dirs, directory, true) <==> ReachedFile(dirs, directory, x)
  {
    if x in FilesOf(dirs, directory, true) {
      FilesSound(dirs, directory, x);
    }
    if ReachedFile(dirs, directory, x) {
      var p, e :| Reached(dirs, directory, p) && p in dirs && e in dirs[p] && IsFile(dirs, p, e) && x == Child(p, e.name);
      FilesComplete(dirs, directory, p, e);
    }
  }

  /** Every file a recursive traversal collects is a file entry of a reached directory. */
  lemma {:induction false} FilesSound(dirs: Dirs, directory: string, x: string)
    requires x in FilesOf(dirs, directory, true)
    ensures ReachedFile(dirs, directory, x)
    decreases Reach(dirs, directory), 2
  {
    EntriesSound(dirs, directory, dirs[directory], x);
  }

  lemma {:induction false} EntriesSound(dirs: Dirs, directory: string, entries: seq<DirEntry>, x: string)
    requires directory in dirs && forall e :: e in entries ==> e in dirs[directory]
    requires x in EntriesFiles(dirs, directory, entries, true)
    ensures ReachedFile(dirs, directory, x)
    decreases Reach(dirs, directory), 1, |entries|
  {
    var front, last := entries[..|entries| - 1], entries[|entries| - 1];
    if x in EntriesFiles(dirs, directory, front, true) {
      assert forall e :: e in front ==> e in entries;
      EntriesSound(dirs, directory, front, x);
    } else {
      EntrySound(dirs, directory, last, x);
    }
  }

  lemma {:induction false} EntrySound(dirs: Dirs, directory: string, e: DirEntry, x: string)
    requires directory in dirs && e in dirs[directory]
    requires x in EntryFiles(dirs, directory, e, true)
    ensures ReachedFile(dirs, directory, x)
    decreases Reach(dirs, directory), 0, 0
  {
    var path := Child(directory, e.name);
    if Descends(dirs, directory, e) {
      ReachShrinks(dirs, directory, path);
      FilesSound(dirs, path, x);
      var p, f :| Reached(dirs, path, p) && p in dirs && f in dirs[p] && IsFile(dirs, p, f) && x == Child(p, f.name);
      ReachedLonger(dirs, path, p);
      assert Reached(dirs, directory, p);
    } else {
      assert Reached(dirs, directory, directory);
    }
  }

  /** Every file entry of a directory the traversal reaches is collected. */
  lemma {:induction false} FilesComplete(dirs: Dirs, directory: string, p: string, e: DirEntry)
    requires Reached(dirs, directory, p) && p in dirs && e in dirs[p] && IsFile(dirs, p, e)
    ensures Child(p, e.name) in FilesOf(dirs, directory, true)
    decreases |p| - |directory|
  {
    if p == directory {
      NeverBoth(dirs, p, e);
      EntriesContain(dirs, p, dirs[p], e, Child(p, e.name));
    } else {
      var d :| d in dirs[directory] && Descends(dirs, directory, d) && |Child(directory, d.name)| <= |p| &&
        Reached(dirs, Child(directory, d.name), p);
      FilesComplete(dirs, Child(directory, d.name), p, e);
      EntriesContain(dirs, directory, dirs[directory], d, Child(p, e.name));
    }
  }

  /** A path one entry adds is among what the run of entries holding it adds. */
  lemma {:induction false} EntriesContain(dirs: Dirs, directory: string, entries: seq<DirEntry>, e: DirEntry, x: string)
    requires directory in dirs && e in entries && x in EntryFiles(dirs, directory, e, true)
    ensures x in EntriesFiles(dirs, directory, entries, true)
    decreases |entries|
  {
    var front, last := entries[..|entries| - 1], entries[|entries| - 1];
    if e != last {
      assert e in front by { assert entries == front + [last]; }
      EntriesContain(dirs, directory, front, e, x);
    }
  }

  /** The files of several directories, one directory after the other. */
  function FilesOfAll(dirs: Dirs, directories: seq<string>, recursive: bool): (r: seq<string>)
  {
    if directories == [] then []
    else FilesOfAll(dirs, directories[..|directories| - 1], recursive) + FilesOf(dirs, directories[|directories| - 1], recursive)
  }

  /** Each file collected from several directories lies below one of them. */
  lemma {:induction false} FilesOfAllBelow(dirs: Dirs, directories: seq<string>, recursive: bool, p: string)
    requires p in FilesOfAll(dirs, directories, recursive)
    ensures exists i :: 0 <= i < |directories| && Below(p, directories[i])
    decreases |directories|
  {
    var front, last := directories[..|directories| - 1], directories[|directories| - 1];
    if p in FilesOfAll(dirs, front, recursive) {
      FilesOfAllBelow(dirs, front, recursive, p);
      var i :| 0 <= i < |front| && Below(p, front[i]);
      assert directories[i] == front[i];
    } else {
      assert Below(p, directories[|directories| - 1]);
    }
  }

  /**
   * `getFiles(directory, recursive, files)`: the files below the
   * directory are appended to `files` in readdir order (the vector passed
   * by reference is the in-parameter and the result).
   */
  method GetFilesInto(directory: string, recursive: bool, dirs: Dirs, files: seq<string>) returns (out: seq<string>)
    ensures out == files + FilesOf(dirs, directory, recursive)
    decreases Reach(dirs, directory), 1
  {
    if directory !in dirs {
      return files;
    }
    var entries := dirs[directory];
    out := files;
    var i := 0;
    while i < |entries|
      invariant 0 <= i <= |entries|
      invariant out == files + EntriesFiles(dirs, directory, entries[..i], recursive)
    {
      assert entries[..i + 1][..i] == entries[..i];
      out := AddEntry(directory, entries[i], recursive, dirs, out);
      i := i + 1;
    }
    assert entries[..i] == entries;
  }

  /** One turn of the readdir loop. */
  method AddEntry(directory: string, e: DirEntry, recursive: bool, dirs: Dirs, files: seq<string>) returns (out: seq<string>)
    requires directory in dirs
    ensures out == files + EntryFiles(dirs, directory, e, recursive)
    decreases Reach(dirs, directory), 0
  {
    var path := directory + "/" + e.name;
    var isDir, isFile := false, false;
    if e.dtype == DtDir {
      isDir := true;
    } else if e.dtype == DtReg {
      isFile := true;
    } else if e.dtype == DtUnknown {
      isDir := path in dirs;
      isFile := !isDir;
    }
    if isDir && recursive && e.name != "." && e.name != ".." {
      ReachShrinks(dirs, directory, path);
      out := GetFilesInto(path, true, dirs, files);
    } else if isFile {
      out := files + [path];
    } else {
      out := files;
    }
  }

  /** `getFiles(directory, recursive)`: the same into an empty vector. */
  method GetFiles(directory: string, recursive: bool, dirs: Dirs) returns (files: seq<string>)
    ensures files == FilesOf(dirs, directory, recursive)
    ensures forall p :: p in files ==> Below(p, directory)
    ensures recursive ==> forall x :: x in files <==> ReachedFile(dirs, directory, x)
  {
    files := GetFilesInto(directory, recursive, dirs, []);
    forall x
      ensures x in FilesOf(dirs, directory, true) <==> ReachedFile(dirs, directory, x)
    {
      FilesOfRecursive(dirs, directory, x);
    }
  }

  /** `getFiles(directories, recursive)`: each directory's files in turn, directories in input order. */
  method GetFilesOfAll(directories: seq<string>, recursive: bool, dirs: Dirs) returns (files: seq<string>)
    ensures files == FilesOfAll(dirs, directories, recursive)
  {
    files := [];
    var i := 0;
    while i < |directories|
      invariant 0 <= i <= |directories|
      invariant files == FilesOfAll(dirs, directories[..i], recursive)
    {
      assert directories[..i + 1][..i] == directories[..i];
      var fs := GetFiles(directories[i], recursive, dirs);
      files := files + fs;
      i := i + 1;
    }
    assert directories[..i] == directories;
  }

  /** The directory with one trailing slash removed, if it has one. */
  function Sanitized(directory: string): (r: string)
    requires |directory| > 0
    ensures directory[|directory| - 1] == '/' ==> r + "/" == directory
    ensures directory[|directory| - 1] != '/' ==> r == directory
  {
    if directory[|directory| - 1] == '/' then directory[..|directory| - 1] else directory
  }

  /** `FilePath(file).extension()`: the extension, dot included, of the path with each backslash unified to `/`. */
  function ExtensionOf(file: string): string
  {
    FilePath.Analysis(FilePath.Unify(file)).extension
  }

  /** Whether a file passes the extension filter: `*` keeps all, anything else must equal the extension. */
  predicate Keeps(fileExtension: string, file: string)
  {
    fileExtension == "*" || ExtensionOf(file) == fileExtension
  }

  /** The files that pass the filter, in their order. */
  function Filtered(files: seq<string>, fileExtension: string): (r: seq<string>)
    ensures |r| <= |files|
    ensures forall f :: f in r <==> f in files && Keeps(fileExtension, f)
  {
    if files == [] then []
    else
      var last := files[|files| - 1];
      Filtered(files[..|files| - 1], fileExtension) + (if Keeps(fileExtension, last) then [last] else [])
  }

  /** With `*` the filter keeps the whole list. */
  lemma {:induction false} FilterStar(files: seq<string>)
    ensures Filtered(files, "*") == files
  {
    if files != [] {
      FilterStar(files[..|files| - 1]);
      assert files[..|files| - 1] + [files[|files| - 1]] == files;
    }
  }

  /**
   * A backslash separates parts before the extension is taken: `d/a.b\c`
   * has the file name `c` and no extension, so the filter `""` keeps it and
   * `.b\c` does not.
   */
  lemma BackslashSeparatesExtension(file: string)
    requires file == "d/a.b\\c"
    ensures ExtensionOf(file) == ""
    ensures Keeps("", file) && !Keeps(".b\\c", file)
  {
    var u := FilePath.Unify(file);
    UnifiedBackslashFile(file);
    var ps := ["d", "a.b", "c"];
    JoinedBackslashFile(ps, u);
    FilePath.SplitOfJoin(ps);
    FilePath.ManyParts(ps, StdString.Substr(u, 0, 2));
    var ext := FilePath.SplitExtension("c");
    assert StdString.FindChar("c", '.', 1).None?;
    assert ext.1 == "";
  }

  lemma UnifiedBackslashFile(file: string)
    requires file == "d/a.b\\c"
    ensures FilePath.Unify(file) == "d/a.b/c"
  {
    var u := FilePath.Unify(file);
    assert |u| == 7;
    forall i | 0 <= i < 7
      ensures u[i] == "d/a.b/c"[i]
    {
    }
  }

  lemma JoinedBackslashFile(ps: seq<string>, u: string)
    requires ps == ["d", "a.b", "c"] && u == "d/a.b/c"
    ensures FilePath.JoinSlash(ps) == u
    ensures forall x :: x in ps ==> '/' !in x
  {
    FilePath.JoinLast(ps);
    var t1 := ps[1] + "/" + ps[2];
    FilePath.JoinCons(ps, 1, ps[2], t1);
    var t0 := ps[0] + "/" + t1;
    FilePath.JoinCons(ps, 0, t1, t0);
    assert ps[0..] == ps;
  }

  /**
   * `scanDirectory`: the files below the directory, a trailing slash
   * dropped, that pass the extension filter, in the order `getFiles`
   * finds them. The overload with a callback calls it with exactly these
   * files in this order. An empty directory string is not allowed:
   * `back()` is read from it.
   */
  method ScanDirectory(directory: string, fileExtension: string, recursive: bool, dirs: Dirs) returns (fileList: seq<string>)
    requires |directory| > 0
    ensures fileList == Filtered(FilesOf(dirs, Sanitized(directory), recursive), fileExtension)
    ensures forall f :: f in fileList ==> Below(f, Sanitized(directory)) && Keeps(fileExtension, f)
  {
    var sanitized := if directory[|directory| - 1] == '/' then directory[..|directory| - 1] else directory;
    var files := GetFiles(sanitized, recursive, dirs);
    fileList := FilterExtension(files, fileExtension);
  }

  /** The loop of `scanDirectory` over the files `getFiles` returned. */
  method FilterExtension(files: seq<string>, fileExtension: string) returns (fileList: seq<string>)
    ensures fileList == Filtered(files, fileExtension)
  {
    fileList := [];
    var i := 0;
    while i < |files|
      invariant 0 <= i <= |files|
      invariant fileList == Filtered(files[..i], fileExtension)
    {
      assert files[..i + 1][..i] == files[..i];
      var extension := ExtensionOf(files[i]);
      if fileExtension != "*" && extension != fileExtension {
        i := i + 1;
        continue;
      }
      fileList := fileList + [files[i]];
      i := i + 1;
    }
    assert files[..i] == files;
  }
}
