/**
 * Path algebra of cppfs::FilePath: separator unification, the split into
 * parts the way `std::getline(ss, name, '/')` produces them, the cached
 * decomposition computed by `analyze`, `resolve` and the `.`/`..`
 * normalisation of `resolved`.
 */
module FilePath {
  import opened Wrappers
  import opened StdString

  /** `std::string::npos`, the largest `size_t`. */
  const NPos: nat := 0xFFFF_FFFF_FFFF_FFFF

  // ------------------------------------------------------------------
  // Separator unification and the trailing-separator flag (setPath)
  // ------------------------------------------------------------------

  /** The unified form: every backslash replaced by a forward slash. */
  function Unify(s: string): (r: string)
    ensures |r| == |s| && '\\' !in r
    ensures forall i :: 0 <= i < |s| && s[i] != '\\' ==> r[i] == s[i]
  {
    seq(|s|, i requires 0 <= i < |s| => if s[i] == '\\' then '/' else s[i])
  }

  /**
   * The flag setPath computes: `find_last_of('/') == size() - 1`, both
   * sides read as `size_t`, so the empty string wraps to `npos == npos`.
   */
  function PointsToContent(s: string): bool
  {
    var last := match FindLastChar(s, '/') case None => NPos case Some(i) => i;
    last == (|s| + NPos) % (NPos + 1)
  }

  /** The flag holds exactly for strings ending in `/`, and for the empty string. */
  lemma PointsToContentMeaning(s: string)
    requires |s| < NPos
    ensures PointsToContent(s) <==> (s == "" || s[|s| - 1] == '/')
  {
    if s != "" {
      assert (|s| + NPos) % (NPos + 1) == |s| - 1;
    }
  }

  // ------------------------------------------------------------------
  // Splitting into parts (the getline loop of analyze and resolved)
  // ------------------------------------------------------------------

  /**
   * All pieces between separators, including empty ones: a string with
   * k separators has k + 1 pieces.
   */
  function Pieces(s: string): (r: seq<string>)
    ensures |r| >= 1
    decreases |s|
  {
    if s == [] then [""] else AddChar(Pieces(s[..|s| - 1]), s[|s| - 1])
  }

  /** One more character read: a separator opens a new piece, anything else extends the last one. */
  function AddChar(p: seq<string>, c: char): (r: seq<string>)
    requires |p| >= 1
    ensures |r| >= 1
  {
    if c == '/' then p + [""] else p[..|p| - 1] + [p[|p| - 1] + [c]]
  }

  /**
   * The parts `while (std::getline(ss, name, '/'))` collects: the pieces,
   * except that a final empty piece is never delivered.
   */
  function Split(s: string): (parts: seq<string>)
  {
    var p := Pieces(s);
    if p[|p| - 1] == "" then p[..|p| - 1] else p
  }

  /** Pieces glued back together with `/`. */
  function JoinSlash(ps: seq<string>): string
  {
    if ps == [] then ""
    else if |ps| == 1 then ps[0]
    else ps[0] + "/" + JoinSlash(ps[1..])
  }

  /** Joining from part `k` on, given the join of the parts after it. */
  lemma JoinCons(ps: seq<string>, k: nat, tail: string, r: string)
    requires k + 1 < |ps| && JoinSlash(ps[k + 1..]) == tail && ps[k] + "/" + tail == r
    ensures JoinSlash(ps[k..]) == r
  {
    assert ps[k..][1..] == ps[k + 1..];
  }

  /** Joining the last part alone gives that part. */
  lemma JoinLast(ps: seq<string>)
    requires |ps| >= 1
    ensures JoinSlash(ps[|ps| - 1..]) == ps[|ps| - 1]
  {
  }

  /** Plain concatenation. */
  function Concat(ss: seq<string>): string
  {
    if ss == [] then "" else ss[0] + Concat(ss[1..])
  }

  // ------------------------------------------------------------------
  // The decomposition computed by analyze
  // ------------------------------------------------------------------

  /** The cached results of analyze. */
  datatype Details = Details(
    fullPath: string,
    fileName: string,
    baseName: string,
    extension: string,
    directoryPath: string,
    driveLetter: string,
    absolute: bool)

  /** A first part that makes a path absolute: empty (leading `/`) or a drive `X:`. */
  predicate IsRoot(part: string)
  {
    part == "" || (|part| == 2 && part[1] == ':')
  }

  /** Part `i` after the fix-up loop of analyze. */
  function FixPart(parts: seq<string>, i: nat): string
    requires i < |parts|
  {
    if i == 0 && IsRoot(parts[0]) then parts[0] + "/"
    else if i < |parts| - 1 then parts[i] + "/"
    else parts[i]
  }

  /** All parts after the fix-up loop of analyze. */
  function Fixed(parts: seq<string>): (r: seq<string>)
    ensures |r| == |parts|
  {
    seq(|parts|, i requires 0 <= i < |parts| => FixPart(parts, i))
  }

  /**
   * baseName and extension of a file name: the extension starts at the
   * first `.` at index 1 or later; `.` and `..` have none.
   */
  function SplitExtension(fileName: string): (r: (string, string))
    ensures r.0 + r.1 == fileName
    ensures r.1 == "" ==> r.0 == fileName
  {
    var pos := FindChar(fileName, '.', 1);
    if fileName == "." || fileName == ".." || pos.None? then (fileName, "")
    else (fileName[..pos.value], fileName[pos.value..])
  }

  /**
   * The extension, when there is one, starts with the first `.` after the
   * first character; without one, no character after the first is a `.`
   * (unless the name is `.` or `..`).
   */
  lemma ExtensionAtFirstDot(fileName: string)
    ensures var r := SplitExtension(fileName);
      (r.1 != "" ==> r.1[0] == '.' && |r.0| >= 1 && '.' !in r.0[1..]) &&
      (r.1 == "" && fileName != "." && fileName != ".." ==> forall i :: 1 <= i < |fileName| ==> fileName[i] != '.')
  {
  }

  /**
   * Everything analyze stores, computed from the parts of the path and the
   * path's first two characters (the drive letter is cut from the path itself).
   */
  function Decompose(parts: seq<string>, prefix: string): (d: Details)
  {
    var n := |parts|;
    var fixed := Fixed(parts);
    var absolute := n > 0 && IsRoot(parts[0]);
    var fileName := if n > 0 then fixed[n - 1] else "";
    var directoryPath :=
      if n > 1 then Concat(fixed[..n - 1])
      else if n == 1 && absolute then fixed[0]
      else "";
    var fullPath :=
      if n > 1 then directoryPath + fileName
      else if n == 1 && absolute then directoryPath
      else if n == 1 then fileName
      else "";
    var ext := SplitExtension(fileName);
    var driveLetter := if FindChar(fullPath, ':', 0) == Some(1) then prefix else "";
    Details(fullPath, fileName, ext.0, ext.1, directoryPath, driveLetter, absolute)
  }

  /** Everything analyze stores for a (unified) path. */
  function Analysis(path: string): (d: Details)
  {
    Decompose(Split(path), Substr(path, 0, 2))
  }

  /** The parts of a path, collected by the getline loop of analyze and resolved. */
  method SplitParts(s: string) returns (parts: seq<string>)
    ensures parts == Split(s)
  {
    parts := [];
    var name := "";
    var i := 0;
    while i < |s|
      invariant 0 <= i <= |s|
      invariant Pieces(s[..i]) == parts + [name]
    {
      assert s[..i + 1][..i] == s[..i];
      if s[i] == '/' {
        parts := parts + [name];
        name := "";
      } else {
        name := name + [s[i]];
      }
      i := i + 1;
    }
    assert s[..i] == s;
    if name != "" {
      parts := parts + [name];
    }
  }

  // ------------------------------------------------------------------
  // Lemmas about splitting and joining
  // ------------------------------------------------------------------

  lemma {:induction false} JoinSnoc(ps: seq<string>, x: string)
    requires |ps| >= 1
    ensures JoinSlash(ps + [x]) == JoinSlash(ps) + "/" + x
    decreases |ps|
  {
    if |ps| == 1 {
      assert (ps + [x])[1..] == [x];
    } else {
      assert (ps + [x])[1..] == ps[1..] + [x];
      JoinSnoc(ps[1..], x);
    }
  }

  lemma {:induction false} JoinExtendLast(ps: seq<string>, t: string)
    requires |ps| >= 1
    ensures JoinSlash(ps[..|ps| - 1] + [ps[|ps| - 1] + t]) == JoinSlash(ps) + t
    decreases |ps|
  {
    var q := ps[..|ps| - 1] + [ps[|ps| - 1] + t];
    if |ps| == 1 {
      assert q == [ps[0] + t];
    } else {
      var tail := ps[1..];
      assert q[0] == ps[0];
      assert q[1..] == tail[..|tail| - 1] + [tail[|tail| - 1] + t];
      JoinExtendLast(tail, t);
    }
  }

  /** Joining the pieces of a string with `/` gives the string back. */
  lemma {:induction false} JoinPieces(s: string)
    ensures JoinSlash(Pieces(s)) == s
    decreases |s|
  {
    if s != [] {
      var init := s[..|s| - 1];
      JoinPieces(init);
      var p := Pieces(init);
      if s[|s| - 1] == '/' {
        JoinSnoc(p, "");
      } else {
        JoinExtendLast(p, [s[|s| - 1]]);
      }
      assert init + [s[|s| - 1]] == s;
    }
  }

  /** One more character: a separator opens a new piece, anything else extends the last one. */
  lemma PiecesSnoc(t: string, c: char)
    ensures Pieces(t + [c]) == AddChar(Pieces(t), c)
  {
    assert (t + [c])[..|t|] == t;
  }

  /** A character read after pieces `pa + pb` only touches `pb`. */
  lemma AddCharAfter(pa: seq<string>, pb: seq<string>, c: char)
    requires |pb| >= 1
    ensures AddChar(pa + pb, c) == pa + AddChar(pb, c)
  {
    var p := pa + pb;
    assert p[..|p| - 1] == pa + pb[..|pb| - 1];
    assert p[|p| - 1] == pb[|pb| - 1];
  }

  lemma PiecesAppendStep(a: string, b: string, c: char)
    requires Pieces(a + "/" + b) == Pieces(a) + Pieces(b)
    ensures Pieces(a + "/" + (b + [c])) == Pieces(a) + Pieces(b + [c])
  {
    var s := a + "/" + b;
    assert a + "/" + (b + [c]) == s + [c];
    PiecesSnoc(s, c);
    PiecesSnoc(b, c);
    AddCharAfter(Pieces(a), Pieces(b), c);
  }

  lemma {:induction false} PiecesAppend(a: string, b: string)
    ensures Pieces(a + "/" + b) == Pieces(a) + Pieces(b)
    decreases |b|
  {
    if b == [] {
      PiecesSnoc(a, '/');
      assert a + "/" + b == a + ['/'];
    } else {
      var b' := b[..|b| - 1];
      assert b == b' + [b[|b| - 1]];
      PiecesAppend(a, b');
      PiecesAppendStep(a, b', b[|b| - 1]);
    }
  }

  lemma {:induction false} PiecesNoSeparator(b: string)
    requires '/' !in b
    ensures Pieces(b) == [b]
    decreases |b|
  {
    if b != [] {
      PiecesNoSeparator(b[..|b| - 1]);
      assert b[..|b| - 1] + [b[|b| - 1]] == b;
    }
  }

  /** Splitting a `/`-join of separator-free names gives the names back. */
  lemma {:induction false} PiecesOfJoin(ps: seq<string>)
    requires |ps| >= 1
    requires forall i :: 0 <= i < |ps| ==> '/' !in ps[i]
    ensures Pieces(JoinSlash(ps)) == ps
    decreases |ps|
  {
    PiecesNoSeparator(ps[0]);
    if |ps| > 1 {
      PiecesOfJoin(ps[1..]);
      PiecesAppend(ps[0], JoinSlash(ps[1..]));
    }
  }

  lemma {:induction false} ConcatSnoc(ss: seq<string>, x: string)
    ensures Concat(ss + [x]) == Concat(ss) + x
    decreases |ss|
  {
    if ss != [] {
      assert (ss + [x])[1..] == ss[1..] + [x];
      ConcatSnoc(ss[1..], x);
    }
  }

  lemma {:induction false} ConcatWithSeparators(ps: seq<string>, fs: seq<string>)
    requires |ps| >= 1 && |fs| == |ps|
    requires forall i :: 0 <= i < |ps| ==> fs[i] == ps[i] + "/"
    ensures Concat(fs) == JoinSlash(ps) + "/"
    decreases |ps|
  {
    if |ps| > 1 {
      ConcatWithSeparators(ps[1..], fs[1..]);
    }
  }

  /** No piece contains a separator. */
  lemma {:induction false} PiecesHaveNoSeparator(s: string)
    ensures forall i :: 0 <= i < |Pieces(s)| ==> '/' !in Pieces(s)[i]
    decreases |s|
  {
    if s != [] {
      PiecesHaveNoSeparator(s[..|s| - 1]);
    }
  }

  /** The first piece is the separator-free prefix of the string. */
  lemma {:induction false} FirstPiece(s: string)
    ensures |Pieces(s)[0]| <= |s| && Pieces(s)[0] == s[..|Pieces(s)[0]|]
    ensures |Pieces(s)[0]| < |s| ==> s[|Pieces(s)[0]|] == '/'
    ensures '/' !in Pieces(s)[0]
    ensures |Pieces(s)| == 1 ==> Pieces(s)[0] == s
    decreases |s|
  {
    PiecesHaveNoSeparator(s);
    if s != [] {
      var init := s[..|s| - 1];
      var c := s[|s| - 1];
      assert s == init + [c];
      FirstPiece(init);
      PiecesSnoc(init, c);
      var p := Pieces(init);
      if |p| == 1 {
        assert p[0] == init;
      } else {
        assert Pieces(s)[0] == p[0];
        if |p[0]| == |init| {
          assert p[0] == init;
          PiecesNoSeparator(init);
          assert false;
        }
        assert s[|p[0]|] == init[|p[0]|];
      }
    }
  }

  /** The empty string is the only one without parts. */
  lemma SplitEmpty(s: string)
    ensures Split(s) == [] <==> s == ""
  {
    if Split(s) == [] {
      JoinPieces(s);
    }
  }

  /** A string not ending in `/` has a non-empty last piece, so Split keeps every piece. */
  lemma LastPieceNonEmpty(s: string)
    requires s != "" && s[|s| - 1] != '/'
    ensures Pieces(s)[|Pieces(s)| - 1] != ""
    ensures Split(s) == Pieces(s)
  {
  }

  /** Appending one `/` to such a string adds no part. */
  lemma SplitTrailingSeparator(s: string)
    requires s != "" && s[|s| - 1] != '/'
    ensures Pieces(s + "/") == Pieces(s) + [""]
    ensures Split(s + "/") == Split(s)
  {
    LastPieceNonEmpty(s);
    assert (s + "/")[..|s|] == s;
  }

  /** The parts of a `/`-join of separator-free names, the last one non-empty. */
  lemma SplitOfJoin(ps: seq<string>)
    requires |ps| >= 1 && ps[|ps| - 1] != ""
    requires forall x :: x in ps ==> '/' !in x
    ensures Split(JoinSlash(ps)) == ps
  {
    forall i | 0 <= i < |ps|
      ensures '/' !in ps[i]
    {
      assert ps[i] in ps;
    }
    PiecesOfJoin(ps);
  }

  // ------------------------------------------------------------------
  // Lemmas about the decomposition
  // ------------------------------------------------------------------

  /** A path whose only part is a root, as `/` or `C:`. */
  predicate IsSingleRoot(path: string)
  {
    |Split(path)| == 1 && IsRoot(Split(path)[0])
  }

  /**
   * With two or more parts the full path is the parts joined by `/`,
   * the directory path is every part but the last with a `/` after each,
   * and the file name is the last part.
   */
  lemma {:induction false} ManyParts(parts: seq<string>, prefix: string)
    requires |parts| >= 2
    ensures Decompose(parts, prefix).directoryPath == JoinSlash(parts[..|parts| - 1]) + "/"
    ensures Decompose(parts, prefix).fullPath == JoinSlash(parts)
    ensures Decompose(parts, prefix).fullPath == Decompose(parts, prefix).directoryPath + Decompose(parts, prefix).fileName
    ensures Decompose(parts, prefix).fileName == parts[|parts| - 1]
  {
    var n := |parts|;
    var fixed := Fixed(parts);
    ConcatWithSeparators(parts[..n - 1], fixed[..n - 1]);
    JoinSnoc(parts[..n - 1], parts[n - 1]);
    assert parts[..n - 1] + [parts[n - 1]] == parts;
  }

  /**
   * With one part that is a root, fullPath, directoryPath and fileName are
   * all that part followed by `/`: `/` has file name `/`, `C:` has `C:/`.
   */
  lemma OneRootPart(root: string, prefix: string)
    requires IsRoot(root)
    ensures Decompose([root], prefix).fullPath == root + "/"
    ensures Decompose([root], prefix).directoryPath == root + "/"
    ensures Decompose([root], prefix).fileName == root + "/"
    ensures Decompose([root], prefix).absolute
  {
  }

  /** Unless the only part is a root, fullPath is the parts joined by `/`. */
  lemma FullPathOfParts(parts: seq<string>, prefix: string)
    requires !(|parts| == 1 && IsRoot(parts[0]))
    ensures Decompose(parts, prefix).fullPath == JoinSlash(parts)
  {
    if |parts| >= 2 {
      ManyParts(parts, prefix);
    }
  }

  /** The parts joined by `/` are the path without one trailing separator. */
  lemma JoinSplit(path: string)
    ensures JoinSlash(Split(path)) == (if path != "" && path[|path| - 1] == '/' then path[..|path| - 1] else path)
  {
    var p := Pieces(path);
    JoinPieces(path);
    if p[|p| - 1] == "" && |p| > 1 {
      var q := p[..|p| - 1];
      JoinSnoc(q, "");
      assert q + [""] == p;
      assert path == JoinSlash(q) + "/";
      assert path[..|path| - 1] == JoinSlash(q);
    } else if p[|p| - 1] == "" {
      assert p == [""];
    } else {
      LastCharNotSeparator(path);
    }
  }

  /** A path whose last piece is not empty does not end in a separator. */
  lemma LastCharNotSeparator(path: string)
    requires Pieces(path)[|Pieces(path)| - 1] != ""
    ensures path != "" && path[|path| - 1] != '/'
  {
    if path != "" {
      PiecesSnoc(path[..|path| - 1], path[|path| - 1]);
      assert path[..|path| - 1] + [path[|path| - 1]] == path;
    }
  }

  /**
   * fullPath is the unified path without one trailing separator: at most
   * one `/` is dropped, and only a lone root part gains one (`C:` gives `C:/`).
   */
  lemma FullPathDropsOneSeparator(path: string)
    ensures !IsSingleRoot(path) ==>
      Analysis(path).fullPath == (if path != "" && path[|path| - 1] == '/' then path[..|path| - 1] else path)
    ensures IsSingleRoot(path) ==>
      Analysis(path).fullPath == Split(path)[0] + "/" && (path == Split(path)[0] || path == Split(path)[0] + "/")
  {
    JoinSplit(path);
    if !IsSingleRoot(path) {
      FullPathOfParts(Split(path), Substr(path, 0, 2));
    } else {
      OneRootPart(Split(path)[0], Substr(path, 0, 2));
    }
  }

  /** fullPath is at most one character shorter than the path, and stays unified. */
  lemma FullPathLength(path: string)
    ensures |Analysis(path).fullPath| + 1 >= |path|
    ensures '\\' !in path ==> '\\' !in Analysis(path).fullPath
  {
    FullPathDropsOneSeparator(path);
  }

  /**
   * One trailing separator changes nothing in the decomposition:
   * `/path/to/dir/` and `/path/to/dir` have the same parts and results.
   */
  lemma TrailingSeparatorIgnored(path: string)
    requires path != "" && path[|path| - 1] != '/'
    ensures Analysis(path + "/") == Analysis(path)
  {
    SplitTrailingSeparator(path);
    if |path| == 1 {
      LastPieceNonEmpty(path);
      PiecesNoSeparator(path);
      assert Split(path) == [path];
      assert Decompose([path], Substr(path + "/", 0, 2)).fullPath == path;
      PrefixUnused([path], Substr(path + "/", 0, 2), Substr(path, 0, 2));
    } else {
      assert Substr(path + "/", 0, 2) == Substr(path, 0, 2);
    }
  }

  /** The two-character prefix only matters when the full path has a `:` at index 1. */
  lemma PrefixUnused(parts: seq<string>, prefix: string, other: string)
    requires |Decompose(parts, prefix).fullPath| < 2
    ensures Decompose(parts, prefix) == Decompose(parts, other)
  {
  }

  /**
   * isAbsolute holds iff the text before the first `/` is empty or a drive
   * `X:`; the empty path is relative.
   */
  lemma AbsoluteIffRootPrefix(path: string)
    ensures Analysis(path).absolute <==> (path != "" && IsRoot(Pieces(path)[0]))
    ensures |Pieces(path)[0]| <= |path| && path[..|Pieces(path)[0]|] == Pieces(path)[0]
    ensures '/' !in Pieces(path)[0]
    ensures |Pieces(path)[0]| < |path| ==> path[|Pieces(path)[0]|] == '/'
  {
    FirstPiece(path);
    SplitEmpty(path);
  }

  // Worked examples from the documentation of the accessors.

  lemma SplitDocumentedFile()
    ensures Split("/path/to/something.ex") == ["", "path", "to", "something.ex"]
  {
    var ps := ["", "path", "to", "something.ex"];
    JoinedDocumentedFile(ps);
    SplitOfJoin(ps);
  }

  lemma JoinedDocumentedFile(ps: seq<string>)
    requires |ps| == 4 && ps[0] == "" && ps[1] == "path" && ps[2] == "to" && ps[3] == "something.ex"
    ensures JoinSlash(ps) == "/path/to/something.ex"
  {
    JoinLast(ps);
    var t2 := ps[2] + "/" + ps[3];
    JoinCons(ps, 2, ps[3], t2);
    var t1 := ps[1] + "/" + t2;
    JoinCons(ps, 1, t2, t1);
    var t0 := ps[0] + "/" + t1;
    JoinCons(ps, 0, t1, t0);
    assert ps[0..] == ps;
  }

  lemma SplitDocumentedExtension()
    ensures SplitExtension("something.ex") == ("something", ".ex")
  {
    var s := "something.ex";
    assert s[9] == '.';
    assert forall i :: 0 <= i < 9 ==> s[i] != '.';
    var f := FindChar(s, '.', 1);
    assert f.Some? && f.value == 9;
    assert s[..9] == "something" && s[9..] == ".ex";
  }

  /** `/path/to/something.ex` has file name `something.ex`. */
  lemma DocumentedFileName()
    ensures Analysis("/path/to/something.ex").fileName == "something.ex"
  {
    SplitDocumentedFile();
    ManyParts(["", "path", "to", "something.ex"], Substr("/path/to/something.ex", 0, 2));
  }

  /** `/path/to/something.ex` has base name `something` and extension `.ex`. */
  lemma DocumentedExtension(d: Details)
    requires d == Analysis("/path/to/something.ex")
    ensures d.baseName == "something" && d.extension == ".ex"
  {
    DocumentedFileName();
    SplitDocumentedExtension();
  }

  /** `/path/to/something.ex/` is decomposed exactly like `/path/to/something.ex`. */
  lemma DocumentedTrailingSeparator()
    ensures Analysis("/path/to/something.ex/") == Analysis("/path/to/something.ex")
  {
    var p := "/path/to/something.ex";
    assert p + "/" == "/path/to/something.ex/";
    TrailingSeparatorIgnored(p);
  }

  lemma SplitDocumentedDirectory()
    ensures Split("/path/to/directory") == ["", "path", "to", "directory"]
  {
    var ps := ["", "path", "to", "directory"];
    JoinedDocumentedDirectory(ps);
    SplitOfJoin(ps);
  }

  lemma JoinedDocumentedDirectory(ps: seq<string>)
    requires |ps| == 4 && ps[0] == "" && ps[1] == "path" && ps[2] == "to" && ps[3] == "directory"
    ensures JoinSlash(ps) == "/path/to/directory"
  {
    JoinLast(ps);
    var t2 := ps[2] + "/" + ps[3];
    JoinCons(ps, 2, ps[3], t2);
    var t1 := ps[1] + "/" + t2;
    JoinCons(ps, 1, t2, t1);
    var t0 := ps[0] + "/" + t1;
    JoinCons(ps, 0, t1, t0);
    assert ps[0..] == ps;
  }

  lemma DocumentedDirectoryPrefix(ps: seq<string>)
    requires ps == ["", "path", "to", "directory"]
    ensures JoinSlash(ps[..|ps| - 1]) + "/" == "/path/to/"
  {
    assert ps[..3] == ["", "path", "to"];
    assert JoinSlash(["", "path", "to"]) == "/path/to";
  }

  /** `/path/to/directory` has directory path `/path/to/`. */
  lemma DocumentedDirectoryPath()
    ensures Analysis("/path/to/directory").directoryPath == "/path/to/"
  {
    var ps := ["", "path", "to", "directory"];
    SplitDocumentedDirectory();
    ManyParts(ps, Substr("/path/to/directory", 0, 2));
    DocumentedDirectoryPrefix(ps);
  }

  /** `/path/to/directory/` has directory path `/path/to/` as well. */
  lemma DocumentedDirectoryPathTrailing()
    ensures Analysis("/path/to/directory/").directoryPath == "/path/to/"
  {
    var p := "/path/to/directory";
    assert p + "/" == "/path/to/directory/";
    TrailingSeparatorIgnored(p);
    DocumentedDirectoryPath();
  }

  lemma SplitRoot()
    ensures Split("/") == [""]
  {
    PiecesSnoc("", '/');
    assert "" + ['/'] == "/";
  }

  /** `/` is its own full path, file name and directory, and is absolute. */
  lemma RootAnalysis()
    ensures Analysis("/").fullPath == "/" && Analysis("/").fileName == "/"
    ensures Analysis("/").directoryPath == "/" && Analysis("/").absolute
  {
    SplitRoot();
    OneRootPart("", Substr("/", 0, 2));
  }

  /** `C:` gains a separator, is absolute and has drive letter `C:`. */
  lemma DriveAnalysis()
    ensures Analysis("C:").fullPath == "C:/" && Analysis("C:").absolute
    ensures Analysis("C:").driveLetter == "C:"
  {
    DriveLetterOf("C:");
  }

  /** A drive `X:` whose letter is not itself a colon names itself as drive letter. */
  lemma DriveLetterOf(drive: string)
    requires |drive| == 2 && drive[1] == ':' && drive[0] != '/' && drive[0] != ':'
    ensures Analysis(drive).fullPath == drive + "/" && Analysis(drive).absolute
    ensures Analysis(drive).driveLetter == drive
  {
    DriveRoot(drive);
    var full := drive + "/";
    assert full[0] != ':' && full[1] == ':';
    assert FindChar(full, ':', 0) == Some(1);
    assert Substr(drive, 0, 2) == drive;
  }

  /** Any drive `X:` is absolute, and its full path gains a separator. */
  lemma DriveRoot(drive: string)
    requires |drive| == 2 && drive[1] == ':' && drive[0] != '/'
    ensures Analysis(drive).fullPath == drive + "/" && Analysis(drive).absolute
  {
    PiecesNoSeparator(drive);
    LastPieceNonEmpty(drive);
    assert Split(drive) == [drive];
    OneRootPart(drive, Substr(drive, 0, 2));
  }

  // ------------------------------------------------------------------
  // resolve
  // ------------------------------------------------------------------

  /**
   * `base.resolve(arg)` on two unified paths: an absolute argument or an
   * empty base yields the argument, an empty argument yields the base, and
   * otherwise the argument is appended to the base's full path.
   */
  function Resolve(base: string, arg: string): (r: string)
  {
    if arg == "" && base == "" then ""
    else if Analysis(arg).absolute || base == "" then arg
    else if arg == "" then base
    else Unify(Analysis(base).fullPath + "/" + arg)
  }

  lemma UnifyUnified(s: string)
    requires '\\' !in s
    ensures Unify(s) == s
  {
  }

  /**
   * Appending a relative argument keeps the argument verbatim at the end,
   * so its trailing separator survives, while the base loses its own.
   */
  lemma ResolveAppends(base: string, arg: string)
    requires base != "" && arg != "" && !Analysis(arg).absolute
    requires '\\' !in base && '\\' !in arg
    ensures Resolve(base, arg) == Analysis(base).fullPath + "/" + arg
    ensures Resolve(base, arg)[|Resolve(base, arg)| - 1] == arg[|arg| - 1]
    ensures |Resolve(base, arg)| >= |base| + |arg|
  {
    FullPathLength(base);
    UnifyUnified(Analysis(base).fullPath + "/" + arg);
  }

  /** A directory entry name: non-empty, no separator of either kind, not a drive. */
  predicate IsEntryName(name: string)
  {
    name != "" && '/' !in name && '\\' !in name && !IsRoot(name)
  }

  /**
   * Opening an entry name below a non-empty base gives a full path that is
   * its own fullPath, whose file name is the entry name, and that is longer
   * than the base.
   */
  lemma ResolveEntry(base: string, name: string)
    requires base != "" && '\\' !in base && IsEntryName(name)
    ensures Resolve(base, name) == Analysis(base).fullPath + "/" + name
    ensures Analysis(Resolve(base, name)).fullPath == Resolve(base, name)
    ensures Analysis(Resolve(base, name)).fileName == name
    ensures |Resolve(base, name)| > |base|
  {
    PiecesNoSeparator(name);
    assert Split(name) == [name];
    ResolveAppends(base, name);
    var r := Resolve(base, name);
    var full := Analysis(base).fullPath;
    PiecesAppend(full, name);
    assert Split(r) == Pieces(full) + [name];
    FullPathDropsOneSeparator(r);
    ManyParts(Split(r), Substr(r, 0, 2));
  }

  /** Resolving `b` against `/` gives `//b`: the root's full path is `/` and a separator is added. */
  lemma ResolveAgainstRoot()
    ensures Resolve("/", "b") == "//b"
  {
    RootAnalysis();
    PiecesNoSeparator("b");
    assert Split("b") == ["b"];
    assert "/" + "/" + "b" == "//b";
    UnifyUnified("//b");
  }

  // ------------------------------------------------------------------
  // resolved: the stack machine that removes `.` and `..`
  // ------------------------------------------------------------------

  /** The state of the normalisation loop: the stack, how many of its top items `..` may pop, and the absolute flag. */
  datatype Normal = Normal(stack: seq<string>, removable: nat, absolute: bool)

  const Start := Normal([], 0, false)

  /** One iteration of the loop over parts, for part `i`. */
  function NormalStep(st: Normal, part: string, i: nat): (r: Normal)
    requires st.removable <= |st.stack|
    ensures r.removable <= |r.stack|
  {
    var absolute := st.absolute || (i == 0 && IsRoot(part));
    if part == "." then st.(absolute := absolute)
    else if part == ".." && st.removable > 0 then
      Normal(st.stack[..|st.stack| - 1], st.removable - 1, absolute)
    else
      Normal(st.stack + [part], if !(i == 0 && absolute) && part != ".." then st.removable + 1 else st.removable, absolute)
  }

  /** The loop over parts `i..` from state `st`. */
  function Run(parts: seq<string>, i: nat, st: Normal): (r: Normal)
    requires i <= |parts| && st.removable <= |st.stack|
    ensures r.removable <= |r.stack|
    decreases |parts| - i
  {
    if i == |parts| then st
    else
      var next := NormalStep(st, parts[i], i);
      Run(parts, i + 1, next)
  }

  /** The composing loop over stack items `i..`, appending to `acc`. */
  function ComposeFrom(stack: seq<string>, i: nat, absolute: bool, acc: string): string
    requires i <= |stack|
    decreases |stack| - i
  {
    if i == |stack| then acc
    else ComposeFrom(stack, i + 1, absolute,
      acc + stack[i] + (if i + 1 < |stack| || (i == 0 && absolute) then "/" else ""))
  }

  /** What `resolved()` returns for a path. */
  function ResolvedParts(parts: seq<string>): (r: string)
    ensures r != ""
  {
    var st := Run(parts, 0, Start);
    var composed := ComposeFrom(st.stack, 0, st.absolute, "");
    if composed == "" then "." else composed
  }

  function ResolvedPath(path: string): (r: string)
    ensures r != ""
  {
    ResolvedParts(Split(path))
  }

  /** One turn of the normalisation loop. */
  lemma RunStep(parts: seq<string>, i: nat, st: Normal, next: Normal)
    requires i < |parts| && st.removable <= |st.stack| && NormalStep(st, parts[i], i) == next
    ensures Run(parts, i, st) == Run(parts, i + 1, next)
  {
  }

  /** One turn of the loop that skips empty parts. */
  lemma RunCollapsedStep(parts: seq<string>, i: nat, st: Normal, next: Normal)
    requires i < |parts| && st.removable <= |st.stack| && CollapsedStep(st, parts[i], i) == next
    ensures RunCollapsed(parts, i, st) == RunCollapsed(parts, i + 1, next)
  {
  }

  /** One turn of the composing loop. */
  lemma ComposeStep(stack: seq<string>, i: nat, absolute: bool, acc: string, next: string)
    requires i < |stack| && acc + stack[i] + (if i + 1 < |stack| || (i == 0 && absolute) then "/" else "") == next
    ensures ComposeFrom(stack, i, absolute, acc) == ComposeFrom(stack, i + 1, absolute, next)
  {
  }

  // Examples from the documentation of resolved() and from its unit test.

  lemma ResolvedPartsSibling()
    ensures ResolvedParts(["a", "b", "..", "c"]) == "a/c"
    ensures ResolvedCollapsedParts(["a", "b", "..", "c"]) == "a/c"
  {
    SiblingRun(["a", "b", "..", "c"]);
    SiblingRunCollapsed(["a", "b", "..", "c"]);
    SiblingComposed(["a", "c"]);
  }

  lemma SiblingRun(ps: seq<string>)
    requires |ps| == 4 && ps[0] == "a" && ps[1] == "b" && ps[2] == ".." && ps[3] == "c"
    ensures Run(ps, 0, Start) == Normal(["a", "c"], 2, false)
  {
    RunStep(ps, 0, Start, Normal(["a"], 1, false));
    RunStep(ps, 1, Normal(["a"], 1, false), Normal(["a", "b"], 2, false));
    RunStep(ps, 2, Normal(["a", "b"], 2, false), Normal(["a"], 1, false));
    RunStep(ps, 3, Normal(["a"], 1, false), Normal(["a", "c"], 2, false));
  }

  lemma SiblingRunCollapsed(ps: seq<string>)
    requires |ps| == 4 && ps[0] == "a" && ps[1] == "b" && ps[2] == ".." && ps[3] == "c"
    ensures RunCollapsed(ps, 0, Start) == Normal(["a", "c"], 2, false)
  {
    RunCollapsedStep(ps, 0, Start, Normal(["a"], 1, false));
    RunCollapsedStep(ps, 1, Normal(["a"], 1, false), Normal(["a", "b"], 2, false));
    RunCollapsedStep(ps, 2, Normal(["a", "b"], 2, false), Normal(["a"], 1, false));
    RunCollapsedStep(ps, 3, Normal(["a"], 1, false), Normal(["a", "c"], 2, false));
  }

  lemma SiblingComposed(stack: seq<string>)
    requires |stack| == 2 && stack[0] == "a" && stack[1] == "c"
    ensures ComposeFrom(stack, 0, false, "") == "a/c"
  {
    ComposeStep(stack, 0, false, "", "a/");
    ComposeStep(stack, 1, false, "a/", "a/c");
  }

  /** `a/b/../c` resolves to `a/c`. */
  lemma ResolvedSibling()
    ensures ResolvedPath("a/b/../c") == "a/c"
    ensures ResolvedCollapsed("a/b/../c") == "a/c"
  {
    var ps := ["a", "b", "..", "c"];
    JoinedSibling(ps);
    SplitOfJoin(ps);
    ResolvedPartsSibling();
  }

  lemma JoinedSibling(ps: seq<string>)
    requires |ps| == 4 && ps[0] == "a" && ps[1] == "b" && ps[2] == ".." && ps[3] == "c"
    ensures JoinSlash(ps) == "a/b/../c"
  {
    JoinLast(ps);
    var t2 := ps[2] + "/" + ps[3];
    JoinCons(ps, 2, ps[3], t2);
    var t1 := ps[1] + "/" + t2;
    JoinCons(ps, 1, t2, t1);
    var t0 := ps[0] + "/" + t1;
    JoinCons(ps, 0, t1, t0);
    assert ps[0..] == ps;
  }

  lemma ResolvedPartsUp()
    ensures ResolvedParts(["..", "..", "a"]) == "../../a"
    ensures ResolvedCollapsedParts(["..", "..", "a"]) == "../../a"
  {
    UpRun(["..", "..", "a"]);
    UpRunCollapsed(["..", "..", "a"]);
    UpComposed(["..", "..", "a"]);
  }

  lemma UpRun(ps: seq<string>)
    requires |ps| == 3 && ps[0] == ".." && ps[1] == ".." && ps[2] == "a"
    ensures Run(ps, 0, Start) == Normal(["..", "..", "a"], 1, false)
  {
    RunStep(ps, 0, Start, Normal([".."], 0, false));
    RunStep(ps, 1, Normal([".."], 0, false), Normal(["..", ".."], 0, false));
    RunStep(ps, 2, Normal(["..", ".."], 0, false), Normal(["..", "..", "a"], 1, false));
  }

  lemma UpRunCollapsed(ps: seq<string>)
    requires |ps| == 3 && ps[0] == ".." && ps[1] == ".." && ps[2] == "a"
    ensures RunCollapsed(ps, 0, Start) == Normal(["..", "..", "a"], 1, false)
  {
    RunCollapsedStep(ps, 0, Start, Normal([".."], 0, false));
    RunCollapsedStep(ps, 1, Normal([".."], 0, false), Normal(["..", ".."], 0, false));
    RunCollapsedStep(ps, 2, Normal(["..", ".."], 0, false), Normal(["..", "..", "a"], 1, false));
  }

  lemma UpComposed(stack: seq<string>)
    requires |stack| == 3 && stack[0] == ".." && stack[1] == ".." && stack[2] == "a"
    ensures ComposeFrom(stack, 0, false, "") == "../../a"
  {
    ComposeStep(stack, 0, false, "", "../");
    ComposeStep(stack, 1, false, "../", "../../");
    ComposeStep(stack, 2, false, "../../", "../../a");
  }

  /** `../../a` is left as it is: there is nothing for `..` to remove. */
  lemma ResolvedUp()
    ensures ResolvedPath("../../a") == "../../a"
    ensures ResolvedCollapsed("../../a") == "../../a"
  {
    var ps := ["..", "..", "a"];
    JoinedUp(ps);
    SplitOfJoin(ps);
    ResolvedPartsUp();
  }

  lemma JoinedUp(ps: seq<string>)
    requires |ps| == 3 && ps[0] == ".." && ps[1] == ".." && ps[2] == "a"
    ensures JoinSlash(ps) == "../../a"
  {
    JoinLast(ps);
    var t1 := ps[1] + "/" + ps[2];
    JoinCons(ps, 1, ps[2], t1);
    var t0 := ps[0] + "/" + t1;
    JoinCons(ps, 0, t1, t0);
    assert ps[0..] == ps;
  }

  lemma ResolvedPartsBeyond()
    ensures ResolvedParts(["a", "..", "..", "b"]) == "../b"
    ensures ResolvedCollapsedParts(["a", "..", "..", "b"]) == "../b"
  {
    BeyondRun(["a", "..", "..", "b"]);
    BeyondRunCollapsed(["a", "..", "..", "b"]);
    BeyondComposed(["..", "b"]);
  }

  lemma BeyondRun(ps: seq<string>)
    requires |ps| == 4 && ps[0] == "a" && ps[1] == ".." && ps[2] == ".." && ps[3] == "b"
    ensures Run(ps, 0, Start) == Normal(["..", "b"], 1, false)
  {
    RunStep(ps, 0, Start, Normal(["a"], 1, false));
    RunStep(ps, 1, Normal(["a"], 1, false), Normal([], 0, false));
    RunStep(ps, 2, Normal([], 0, false), Normal([".."], 0, false));
    RunStep(ps, 3, Normal([".."], 0, false), Normal(["..", "b"], 1, false));
  }

  lemma BeyondRunCollapsed(ps: seq<string>)
    requires |ps| == 4 && ps[0] == "a" && ps[1] == ".." && ps[2] == ".." && ps[3] == "b"
    ensures RunCollapsed(ps, 0, Start) == Normal(["..", "b"], 1, false)
  {
    RunCollapsedStep(ps, 0, Start, Normal(["a"], 1, false));
    RunCollapsedStep(ps, 1, Normal(["a"], 1, false), Normal([], 0, false));
    RunCollapsedStep(ps, 2, Normal([], 0, false), Normal([".."], 0, false));
    RunCollapsedStep(ps, 3, Normal([".."], 0, false), Normal(["..", "b"], 1, false));
  }

  lemma BeyondComposed(stack: seq<string>)
    requires |stack| == 2 && stack[0] == ".." && stack[1] == "b"
    ensures ComposeFrom(stack, 0, false, "") == "../b"
  {
    ComposeStep(stack, 0, false, "", "../");
    ComposeStep(stack, 1, false, "../", "../b");
  }

  /** `a/../../b` resolves to `../b`: the second `..` has nothing left to remove. */
  lemma ResolvedBeyond()
    ensures ResolvedPath("a/../../b") == "../b"
    ensures ResolvedCollapsed("a/../../b") == "../b"
  {
    var ps := ["a", "..", "..", "b"];
    JoinedBeyond(ps);
    SplitOfJoin(ps);
    ResolvedPartsBeyond();
  }

  lemma JoinedBeyond(ps: seq<string>)
    requires |ps| == 4 && ps[0] == "a" && ps[1] == ".." && ps[2] == ".." && ps[3] == "b"
    ensures JoinSlash(ps) == "a/../../b"
  {
    JoinLast(ps);
    var t2 := ps[2] + "/" + ps[3];
    JoinCons(ps, 2, ps[3], t2);
    var t1 := ps[1] + "/" + t2;
    JoinCons(ps, 1, t2, t1);
    var t0 := ps[0] + "/" + t1;
    JoinCons(ps, 0, t1, t0);
    assert ps[0..] == ps;
  }

  lemma ResolvedPartsAbsolute()
    ensures ResolvedParts(["", "a", "..", "b"]) == "/b"
    ensures ResolvedCollapsedParts(["", "a", "..", "b"]) == "/b"
  {
    AbsoluteRun(["", "a", "..", "b"]);
    AbsoluteRunCollapsed(["", "a", "..", "b"]);
    AbsoluteComposed(["", "b"]);
  }

  lemma AbsoluteRun(ps: seq<string>)
    requires |ps| == 4 && ps[0] == "" && ps[1] == "a" && ps[2] == ".." && ps[3] == "b"
    ensures Run(ps, 0, Start) == Normal(["", "b"], 1, true)
  {
    RunStep(ps, 0, Start, Normal([""], 0, true));
    RunStep(ps, 1, Normal([""], 0, true), Normal(["", "a"], 1, true));
    RunStep(ps, 2, Normal(["", "a"], 1, true), Normal([""], 0, true));
    RunStep(ps, 3, Normal([""], 0, true), Normal(["", "b"], 1, true));
  }

  lemma AbsoluteRunCollapsed(ps: seq<string>)
    requires |ps| == 4 && ps[0] == "" && ps[1] == "a" && ps[2] == ".." && ps[3] == "b"
    ensures RunCollapsed(ps, 0, Start) == Normal(["", "b"], 1, true)
  {
    RunCollapsedStep(ps, 0, Start, Normal([""], 0, true));
    RunCollapsedStep(ps, 1, Normal([""], 0, true), Normal(["", "a"], 1, true));
    RunCollapsedStep(ps, 2, Normal(["", "a"], 1, true), Normal([""], 0, true));
    RunCollapsedStep(ps, 3, Normal([""], 0, true), Normal(["", "b"], 1, true));
  }

  lemma AbsoluteComposed(stack: seq<string>)
    requires |stack| == 2 && stack[0] == "" && stack[1] == "b"
    ensures ComposeFrom(stack, 0, true, "") == "/b"
  {
    ComposeStep(stack, 0, true, "", "/");
    ComposeStep(stack, 1, true, "/", "/b");
  }

  lemma SplitAbsolute()
    ensures Split("/a/../b") == ["", "a", "..", "b"]
  {
    var ps := ["", "a", "..", "b"];
    JoinedAbsolute(ps);
    SplitOfJoin(ps);
  }

  lemma JoinedAbsolute(ps: seq<string>)
    requires |ps| == 4 && ps[0] == "" && ps[1] == "a" && ps[2] == ".." && ps[3] == "b"
    ensures JoinSlash(ps) == "/a/../b"
  {
    JoinLast(ps);
    var t2 := ps[2] + "/" + ps[3];
    JoinCons(ps, 2, ps[3], t2);
    var t1 := ps[1] + "/" + t2;
    JoinCons(ps, 1, t2, t1);
    var t0 := ps[0] + "/" + t1;
    JoinCons(ps, 0, t1, t0);
    assert ps[0..] == ps;
  }

  lemma SplitAbsoluteTrailing()
    ensures Split("/a/../b/") == ["", "a", "..", "b"]
  {
    var p := "/a/../b";
    SplitAbsolute();
    assert p[|p| - 1] == 'b';
    SplitTrailingSeparator(p);
    assert p + "/" == "/a/../b/";
  }

  /** `/a/../b/` resolves to `/b`, dropping the trailing separator. */
  lemma ResolvedAbsoluteTrailing()
    ensures ResolvedPath("/a/../b/") == "/b"
    ensures ResolvedCollapsed("/a/../b/") == "/b"
  {
    SplitAbsoluteTrailing();
    ResolvedPartsAbsolute();
  }

  lemma ResolvedPartsPlain()
    ensures ResolvedParts(["", "usr", "bin", "bash"]) == "/usr/bin/bash"
    ensures ResolvedCollapsedParts(["", "usr", "bin", "bash"]) == "/usr/bin/bash"
  {
    PlainRun(["", "usr", "bin", "bash"]);
    PlainRunCollapsed(["", "usr", "bin", "bash"]);
    PlainComposed(["", "usr", "bin", "bash"]);
  }

  lemma PlainRun(ps: seq<string>)
    requires |ps| == 4 && ps[0] == "" && ps[1] == "usr" && ps[2] == "bin" && ps[3] == "bash"
    ensures Run(ps, 0, Start) == Normal(["", "usr", "bin", "bash"], 3, true)
  {
    RunStep(ps, 0, Start, Normal([""], 0, true));
    RunStep(ps, 1, Normal([""], 0, true), Normal(["", "usr"], 1, true));
    RunStep(ps, 2, Normal(["", "usr"], 1, true), Normal(["", "usr", "bin"], 2, true));
    RunStep(ps, 3, Normal(["", "usr", "bin"], 2, true), Normal(["", "usr", "bin", "bash"], 3, true));
  }

  lemma PlainRunCollapsed(ps: seq<string>)
    requires |ps| == 4 && ps[0] == "" && ps[1] == "usr" && ps[2] == "bin" && ps[3] == "bash"
    ensures RunCollapsed(ps, 0, Start) == Normal(["", "usr", "bin", "bash"], 3, true)
  {
    RunCollapsedStep(ps, 0, Start, Normal([""], 0, true));
    RunCollapsedStep(ps, 1, Normal([""], 0, true), Normal(["", "usr"], 1, true));
    RunCollapsedStep(ps, 2, Normal(["", "usr"], 1, true), Normal(["", "usr", "bin"], 2, true));
    RunCollapsedStep(ps, 3, Normal(["", "usr", "bin"], 2, true), Normal(["", "usr", "bin", "bash"], 3, true));
  }

  lemma PlainComposed(stack: seq<string>)
    requires |stack| == 4 && stack[0] == "" && stack[1] == "usr" && stack[2] == "bin" && stack[3] == "bash"
    ensures ComposeFrom(stack, 0, true, "") == "/usr/bin/bash"
  {
    ComposeStep(stack, 0, true, "", "/");
    ComposeStep(stack, 1, true, "/", "/usr/");
    ComposeStep(stack, 2, true, "/usr/", "/usr/bin/");
    ComposeStep(stack, 3, true, "/usr/bin/", "/usr/bin/bash");
  }

  /** `/usr/bin/bash` is already resolved. */
  lemma ResolvedPlain()
    ensures ResolvedPath("/usr/bin/bash") == "/usr/bin/bash"
    ensures ResolvedCollapsed("/usr/bin/bash") == "/usr/bin/bash"
  {
    var ps := ["", "usr", "bin", "bash"];
    JoinedPlain(ps);
    SplitOfJoin(ps);
    ResolvedPartsPlain();
  }

  lemma JoinedPlain(ps: seq<string>)
    requires |ps| == 4 && ps[0] == "" && ps[1] == "usr" && ps[2] == "bin" && ps[3] == "bash"
    ensures JoinSlash(ps) == "/usr/bin/bash"
  {
    JoinLast(ps);
    var t2 := ps[2] + "/" + ps[3];
    JoinCons(ps, 2, ps[3], t2);
    var t1 := ps[1] + "/" + t2;
    JoinCons(ps, 1, t2, t1);
    var t0 := ps[0] + "/" + t1;
    JoinCons(ps, 0, t1, t0);
    assert ps[0..] == ps;
  }

  lemma ResolvedPartsBackAgain()
    ensures ResolvedParts(["", "usr", "bin", "..", "bin", "bash"]) == "/usr/bin/bash"
    ensures ResolvedCollapsedParts(["", "usr", "bin", "..", "bin", "bash"]) == "/usr/bin/bash"
  {
    BackAgainRun(["", "usr", "bin", "..", "bin", "bash"]);
    BackAgainRunCollapsed(["", "usr", "bin", "..", "bin", "bash"]);
    BackAgainComposed(["", "usr", "bin", "bash"]);
  }

  lemma BackAgainRun(ps: seq<string>)
    requires |ps| == 6 && ps[0] == "" && ps[1] == "usr" && ps[2] == "bin" && ps[3] == ".." && ps[4] == "bin" && ps[5] == "bash"
    ensures Run(ps, 0, Start) == Normal(["", "usr", "bin", "bash"], 3, true)
  {
    RunStep(ps, 0, Start, Normal([""], 0, true));
    RunStep(ps, 1, Normal([""], 0, true), Normal(["", "usr"], 1, true));
    RunStep(ps, 2, Normal(["", "usr"], 1, true), Normal(["", "usr", "bin"], 2, true));
    RunStep(ps, 3, Normal(["", "usr", "bin"], 2, true), Normal(["", "usr"], 1, true));
    RunStep(ps, 4, Normal(["", "usr"], 1, true), Normal(["", "usr", "bin"], 2, true));
    RunStep(ps, 5, Normal(["", "usr", "bin"], 2, true), Normal(["", "usr", "bin", "bash"], 3, true));
  }

  lemma BackAgainRunCollapsed(ps: seq<string>)
    requires |ps| == 6 && ps[0] == "" && ps[1] == "usr" && ps[2] == "bin" && ps[3] == ".." && ps[4] == "bin" && ps[5] == "bash"
    ensures RunCollapsed(ps, 0, Start) == Normal(["", "usr", "bin", "bash"], 3, true)
  {
    RunCollapsedStep(ps, 0, Start, Normal([""], 0, true));
    RunCollapsedStep(ps, 1, Normal([""], 0, true), Normal(["", "usr"], 1, true));
    RunCollapsedStep(ps, 2, Normal(["", "usr"], 1, true), Normal(["", "usr", "bin"], 2, true));
    RunCollapsedStep(ps, 3, Normal(["", "usr", "bin"], 2, true), Normal(["", "usr"], 1, true));
    RunCollapsedStep(ps, 4, Normal(["", "usr"], 1, true), Normal(["", "usr", "bin"], 2, true));
    RunCollapsedStep(ps, 5, Normal(["", "usr", "bin"], 2, true), Normal(["", "usr", "bin", "bash"], 3, true));
  }

  lemma BackAgainComposed(stack: seq<string>)
    requires |stack| == 4 && stack[0] == "" && stack[1] == "usr" && stack[2] == "bin" && stack[3] == "bash"
    ensures ComposeFrom(stack, 0, true, "") == "/usr/bin/bash"
  {
    ComposeStep(stack, 0, true, "", "/");
    ComposeStep(stack, 1, true, "/", "/usr/");
    ComposeStep(stack, 2, true, "/usr/", "/usr/bin/");
    ComposeStep(stack, 3, true, "/usr/bin/", "/usr/bin/bash");
  }

  /** `/usr/bin/../bin/bash` resolves to `/usr/bin/bash`. */
  lemma ResolvedBackAgain()
    ensures ResolvedPath("/usr/bin/../bin/bash") == "/usr/bin/bash"
    ensures ResolvedCollapsed("/usr/bin/../bin/bash") == "/usr/bin/bash"
  {
    var ps := ["", "usr", "bin", "..", "bin", "bash"];
    JoinedBackAgain(ps);
    SplitOfJoin(ps);
    ResolvedPartsBackAgain();
  }

  lemma JoinedBackAgain(ps: seq<string>)
    requires |ps| == 6 && ps[0] == "" && ps[1] == "usr" && ps[2] == "bin" && ps[3] == ".." && ps[4] == "bin" && ps[5] == "bash"
    ensures JoinSlash(ps) == "/usr/bin/../bin/bash"
  {
    JoinLast(ps);
    var t4 := ps[4] + "/" + ps[5];
    JoinCons(ps, 4, ps[5], t4);
    var t3 := ps[3] + "/" + t4;
    JoinCons(ps, 3, t4, t3);
    var t2 := ps[2] + "/" + t3;
    JoinCons(ps, 2, t3, t2);
    var t1 := ps[1] + "/" + t2;
    JoinCons(ps, 1, t2, t1);
    var t0 := ps[0] + "/" + t1;
    JoinCons(ps, 0, t1, t0);
    assert ps[0..] == ps;
  }

  lemma ResolvedPartsDoubleSeparator()
    ensures ResolvedParts(["", "usr", "bin", "", "..", "bin", "bash"]) == "/usr/bin/bin/bash"
    ensures ResolvedCollapsedParts(["", "usr", "bin", "", "..", "bin", "bash"]) == "/usr/bin/bash"
  {
    DoubleSeparatorRun(["", "usr", "bin", "", "..", "bin", "bash"]);
    DoubleSeparatorRunCollapsed(["", "usr", "bin", "", "..", "bin", "bash"]);
    DoubleSeparatorComposed(["", "usr", "bin", "bin", "bash"]);
    DoubleSeparatorComposedCollapsed(["", "usr", "bin", "bash"]);
  }

  lemma DoubleSeparatorRun(ps: seq<string>)
    requires |ps| == 7 && ps[0] == "" && ps[1] == "usr" && ps[2] == "bin" && ps[3] == "" && ps[4] == ".." && ps[5] == "bin" && ps[6] == "bash"
    ensures Run(ps, 0, Start) == Normal(["", "usr", "bin", "bin", "bash"], 4, true)
  {
    RunStep(ps, 0, Start, Normal([""], 0, true));
    RunStep(ps, 1, Normal([""], 0, true), Normal(["", "usr"], 1, true));
    RunStep(ps, 2, Normal(["", "usr"], 1, true), Normal(["", "usr", "bin"], 2, true));
    RunStep(ps, 3, Normal(["", "usr", "bin"], 2, true), Normal(["", "usr", "bin", ""], 3, true));
    RunStep(ps, 4, Normal(["", "usr", "bin", ""], 3, true), Normal(["", "usr", "bin"], 2, true));
    RunStep(ps, 5, Normal(["", "usr", "bin"], 2, true), Normal(["", "usr", "bin", "bin"], 3, true));
    RunStep(ps, 6, Normal(["", "usr", "bin", "bin"], 3, true), Normal(["", "usr", "bin", "bin", "bash"], 4, true));
  }

  lemma DoubleSeparatorRunCollapsed(ps: seq<string>)
    requires |ps| == 7 && ps[0] == "" && ps[1] == "usr" && ps[2] == "bin" && ps[3] == "" && ps[4] == ".." && ps[5] == "bin" && ps[6] == "bash"
    ensures RunCollapsed(ps, 0, Start) == Normal(["", "usr", "bin", "bash"], 3, true)
  {
    RunCollapsedStep(ps, 0, Start, Normal([""], 0, true));
    RunCollapsedStep(ps, 1, Normal([""], 0, true), Normal(["", "usr"], 1, true));
    RunCollapsedStep(ps, 2, Normal(["", "usr"], 1, true), Normal(["", "usr", "bin"], 2, true));
    RunCollapsedStep(ps, 3, Normal(["", "usr", "bin"], 2, true), Normal(["", "usr", "bin"], 2, true));
    RunCollapsedStep(ps, 4, Normal(["", "usr", "bin"], 2, true), Normal(["", "usr"], 1, true));
    RunCollapsedStep(ps, 5, Normal(["", "usr"], 1, true), Normal(["", "usr", "bin"], 2, true));
    RunCollapsedStep(ps, 6, Normal(["", "usr", "bin"], 2, true), Normal(["", "usr", "bin", "bash"], 3, true));
  }

  lemma DoubleSeparatorComposed(stack: seq<string>)
    requires |stack| == 5 && stack[0] == "" && stack[1] == "usr" && stack[2] == "bin" && stack[3] == "bin" && stack[4] == "bash"
    ensures ComposeFrom(stack, 0, true, "") == "/usr/bin/bin/bash"
  {
    ComposeStep(stack, 0, true, "", "/");
    ComposeStep(stack, 1, true, "/", "/usr/");
    ComposeStep(stack, 2, true, "/usr/", "/usr/bin/");
    ComposeStep(stack, 3, true, "/usr/bin/", "/usr/bin/bin/");
    ComposeStep(stack, 4, true, "/usr/bin/bin/", "/usr/bin/bin/bash");
  }

  lemma DoubleSeparatorComposedCollapsed(stack: seq<string>)
    requires |stack| == 4 && stack[0] == "" && stack[1] == "usr" && stack[2] == "bin" && stack[3] == "bash"
    ensures ComposeFrom(stack, 0, true, "") == "/usr/bin/bash"
  {
    ComposeStep(stack, 0, true, "", "/");
    ComposeStep(stack, 1, true, "/", "/usr/");
    ComposeStep(stack, 2, true, "/usr/", "/usr/bin/");
    ComposeStep(stack, 3, true, "/usr/bin/", "/usr/bin/bash");
  }

  /**
   * As written, `/usr/bin//../bin/bash` resolves to `/usr/bin/bin/bash`, not
   * to the `/usr/bin/bash` its unit test expects: the empty part between the
   * two separators is pushed as a name and the `..` removes it.
   */
  lemma ResolvedDoubleSeparator()
    ensures ResolvedPath("/usr/bin//../bin/bash") == "/usr/bin/bin/bash"
    ensures ResolvedCollapsed("/usr/bin//../bin/bash") == "/usr/bin/bash"
  {
    var ps := ["", "usr", "bin", "", "..", "bin", "bash"];
    JoinedDoubleSeparator(ps);
    SplitOfJoin(ps);
    ResolvedPartsDoubleSeparator();
  }

  lemma JoinedDoubleSeparator(ps: seq<string>)
    requires |ps| == 7 && ps[0] == "" && ps[1] == "usr" && ps[2] == "bin" && ps[3] == "" && ps[4] == ".." && ps[5] == "bin" && ps[6] == "bash"
    ensures JoinSlash(ps) == "/usr/bin//../bin/bash"
  {
    JoinLast(ps);
    var t5 := ps[5] + "/" + ps[6];
    JoinCons(ps, 5, ps[6], t5);
    var t4 := ps[4] + "/" + t5;
    JoinCons(ps, 4, t5, t4);
    var t3 := ps[3] + "/" + t4;
    JoinCons(ps, 3, t4, t3);
    var t2 := ps[2] + "/" + t3;
    JoinCons(ps, 2, t3, t2);
    var t1 := ps[1] + "/" + t2;
    JoinCons(ps, 1, t2, t1);
    var t0 := ps[0] + "/" + t1;
    JoinCons(ps, 0, t1, t0);
    assert ps[0..] == ps;
  }

  lemma ResolvedPartsDotEmpty()
    ensures ResolvedParts([".", "", "x"]) == "/x"
    ensures ResolvedCollapsedParts([".", "", "x"]) == "x"
  {
    DotEmptyRun([".", "", "x"]);
    DotEmptyRunCollapsed([".", "", "x"]);
    DotEmptyComposed(["", "x"]);
    DotEmptyComposedCollapsed(["x"]);
  }

  lemma DotEmptyRun(ps: seq<string>)
    requires |ps| == 3 && ps[0] == "." && ps[1] == "" && ps[2] == "x"
    ensures Run(ps, 0, Start) == Normal(["", "x"], 2, false)
  {
    RunStep(ps, 0, Start, Normal([], 0, false));
    RunStep(ps, 1, Normal([], 0, false), Normal([""], 1, false));
    RunStep(ps, 2, Normal([""], 1, false), Normal(["", "x"], 2, false));
  }

  lemma DotEmptyRunCollapsed(ps: seq<string>)
    requires |ps| == 3 && ps[0] == "." && ps[1] == "" && ps[2] == "x"
    ensures RunCollapsed(ps, 0, Start) == Normal(["x"], 1, false)
  {
    RunCollapsedStep(ps, 0, Start, Normal([], 0, false));
    RunCollapsedStep(ps, 1, Normal([], 0, false), Normal([], 0, false));
    RunCollapsedStep(ps, 2, Normal([], 0, false), Normal(["x"], 1, false));
  }

  lemma DotEmptyComposed(stack: seq<string>)
    requires |stack| == 2 && stack[0] == "" && stack[1] == "x"
    ensures ComposeFrom(stack, 0, false, "") == "/x"
  {
    ComposeStep(stack, 0, false, "", "/");
    ComposeStep(stack, 1, false, "/", "/x");
  }

  lemma DotEmptyComposedCollapsed(stack: seq<string>)
    requires |stack| == 1 && stack[0] == "x"
    ensures ComposeFrom(stack, 0, false, "") == "x"
  {
    ComposeStep(stack, 0, false, "", "x");
  }

  /** As written, the relative path `.//x` resolves to `/x`, which starts at the root. */
  lemma ResolvedRelativeBecomesRooted()
    ensures ResolvedPath(".//x") == "/x"
    ensures ResolvedCollapsed(".//x") == "x"
  {
    var ps := [".", "", "x"];
    JoinedRelativeBecomesRooted(ps);
    SplitOfJoin(ps);
    ResolvedPartsDotEmpty();
  }

  lemma JoinedRelativeBecomesRooted(ps: seq<string>)
    requires |ps| == 3 && ps[0] == "." && ps[1] == "" && ps[2] == "x"
    ensures JoinSlash(ps) == ".//x"
  {
    JoinLast(ps);
    var t1 := ps[1] + "/" + ps[2];
    JoinCons(ps, 1, ps[2], t1);
    var t0 := ps[0] + "/" + t1;
    JoinCons(ps, 0, t1, t0);
    assert ps[0..] == ps;
  }

  // ------------------------------------------------------------------
  // What resolved() keeps: the root, and `..` only in front
  // ------------------------------------------------------------------

  /**
   * The loop's invariant: below the `removable` top items lie only the root
   * (at the bottom, when the path is absolute) and `..` entries; the
   * removable items are names, never `.` or `..`.
   */
  predicate WellShaped(st: Normal)
  {
    st.removable <= |st.stack| &&
    (forall k :: |st.stack| - st.removable <= k < |st.stack| ==> st.stack[k] != ".." && st.stack[k] != ".") &&
    (forall k :: 0 <= k < |st.stack| - st.removable ==> st.stack[k] == ".." || (k == 0 && st.absolute)) &&
    (st.absolute ==> |st.stack| - st.removable >= 1 && IsRoot(st.stack[0]))
  }

  lemma StepShape(st: Normal, part: string, i: nat)
    requires WellShaped(st) && (i == 0 ==> st == Start)
    ensures WellShaped(NormalStep(st, part, i))
    ensures NormalStep(st, part, i).absolute == (st.absolute || (i == 0 && IsRoot(part)))
    ensures st.absolute ==> NormalStep(st, part, i).stack[0] == st.stack[0]
    ensures i == 0 && IsRoot(part) ==> NormalStep(st, part, i).stack == [part]
  {
  }

  lemma {:induction false} RunShape(parts: seq<string>, i: nat, st: Normal)
    requires i <= |parts| && WellShaped(st) && (i == 0 ==> st == Start)
    requires i > 0 ==> st.absolute == IsRoot(parts[0])
    requires st.absolute ==> st.stack[0] == parts[0]
    ensures WellShaped(Run(parts, i, st))
    ensures Run(parts, i, st).absolute == (|parts| > 0 && IsRoot(parts[0]))
    ensures Run(parts, i, st).absolute ==> Run(parts, i, st).stack[0] == parts[0]
    decreases |parts| - i
  {
    if i < |parts| {
      StepShape(st, parts[i], i);
      RunShape(parts, i + 1, NormalStep(st, parts[i], i));
    }
  }

  /** The stack resolved() composes for `path`. */
  function ResolvedStack(path: string): seq<string>
  {
    Run(Split(path), 0, Start).stack
  }

  /**
   * After resolution no `.` is left, and every `..` comes before every
   * name: a `..` is preceded only by other `..` entries or by the root.
   */
  lemma ResolvedShape(path: string)
    ensures forall k :: 0 <= k < |ResolvedStack(path)| ==> ResolvedStack(path)[k] != "."
    ensures forall j, k :: 0 <= j < k < |ResolvedStack(path)| && ResolvedStack(path)[k] == ".." ==>
      ResolvedStack(path)[j] == ".." || (j == 0 && IsRoot(ResolvedStack(path)[0]))
  {
    RunShape(Split(path), 0, Start);
  }

  lemma {:induction false} ComposeKeepsPrefix(stack: seq<string>, i: nat, absolute: bool, acc: string)
    requires i <= |stack|
    ensures |acc| <= |ComposeFrom(stack, i, absolute, acc)|
    ensures ComposeFrom(stack, i, absolute, acc)[..|acc|] == acc
    decreases |stack| - i
  {
    if i < |stack| {
      var acc' := acc + stack[i] + (if i + 1 < |stack| || (i == 0 && absolute) then "/" else "");
      ComposeKeepsPrefix(stack, i + 1, absolute, acc');
      assert acc'[..|acc|] == acc;
    }
  }

  lemma AbsoluteFirstPart(path: string)
    ensures Analysis(path).absolute == (|Split(path)| > 0 && IsRoot(Split(path)[0]))
  {
  }

  /** An absolute path resolves to its own root followed by a separator. */
  lemma ResolvedKeepsRoot(path: string)
    requires Analysis(path).absolute
    ensures var root := Split(path)[0];
      |root| + 1 <= |ResolvedPath(path)| && ResolvedPath(path)[..|root| + 1] == root + "/"
  {
    AbsoluteFirstPart(path);
    PartsKeepRoot(Split(path));
  }

  /** Parts that start with a root resolve to that root and a separator first. */
  lemma PartsKeepRoot(parts: seq<string>)
    requires |parts| > 0 && IsRoot(parts[0])
    ensures |parts[0]| + 1 <= |ResolvedParts(parts)| && ResolvedParts(parts)[..|parts[0]| + 1] == parts[0] + "/"
  {
    RunShape(parts, 0, Start);
    var st := Run(parts, 0, Start);
    var acc := parts[0] + "/";
    assert "" + st.stack[0] + "/" == acc;
    ComposeStep(st.stack, 0, true, "", acc);
    ComposeKeepsPrefix(st.stack, 1, true, acc);
  }

  // ------------------------------------------------------------------
  // resolved() with empty parts skipped
  // ------------------------------------------------------------------

  /** The loop step with the empty part between two separators skipped, as `.` is. */
  function CollapsedStep(st: Normal, part: string, i: nat): (r: Normal)
    requires st.removable <= |st.stack|
    ensures r.removable <= |r.stack|
  {
    if i > 0 && part == "" then st else NormalStep(st, part, i)
  }

  function RunCollapsed(parts: seq<string>, i: nat, st: Normal): (r: Normal)
    requires i <= |parts| && st.removable <= |st.stack|
    ensures r.removable <= |r.stack|
    decreases |parts| - i
  {
    if i == |parts| then st
    else
      var next := CollapsedStep(st, parts[i], i);
      RunCollapsed(parts, i + 1, next)
  }

  function ResolvedCollapsedParts(parts: seq<string>): (r: string)
    ensures r != ""
  {
    var st := RunCollapsed(parts, 0, Start);
    var composed := ComposeFrom(st.stack, 0, st.absolute, "");
    if composed == "" then "." else composed
  }

  /** resolved() as its unit test expects it: `a//b` is read as `a/b`. */
  function ResolvedCollapsed(path: string): (r: string)
    ensures r != ""
  {
    ResolvedCollapsedParts(Split(path))
  }

  /** Besides the root, the collapsed stack holds no empty name and no name with a separator. */
  predicate CleanNames(st: Normal)
  {
    forall k :: 0 <= k < |st.stack| ==> '/' !in st.stack[k] && (st.stack[k] == "" ==> k == 0 && st.absolute)
  }

  lemma {:induction false} RunCollapsedShape(parts: seq<string>, i: nat, st: Normal)
    requires i <= |parts| && WellShaped(st) && CleanNames(st) && (i == 0 ==> st == Start)
    requires forall k :: 0 <= k < |parts| ==> '/' !in parts[k]
    requires i > 0 ==> st.absolute == IsRoot(parts[0])
    requires st.absolute ==> st.stack[0] == parts[0]
    ensures WellShaped(RunCollapsed(parts, i, st)) && CleanNames(RunCollapsed(parts, i, st))
    ensures RunCollapsed(parts, i, st).absolute == (|parts| > 0 && IsRoot(parts[0]))
    ensures RunCollapsed(parts, i, st).absolute ==> RunCollapsed(parts, i, st).stack[0] == parts[0]
    decreases |parts| - i
  {
    if i < |parts| {
      StepShape(st, parts[i], i);
      RunCollapsedShape(parts, i + 1, CollapsedStep(st, parts[i], i));
    }
  }

  /** A non-empty path's first part is empty exactly when the path starts with `/`. */
  lemma FirstPartEmpty(path: string)
    requires path != ""
    ensures |Split(path)| >= 1
    ensures Split(path)[0] == "" <==> path[0] == '/'
  {
    SplitEmpty(path);
    FirstPiece(path);
    var p := Pieces(path);
    assert Split(path)[0] == p[0];
    if p[0] != "" {
      assert path[0] == p[0][0];
    }
  }

  /**
   * With empty parts skipped, resolution never turns a relative path into
   * one that starts at the root, nor the reverse.
   */
  lemma CollapsedLeadingSeparator(path: string)
    requires path != ""
    ensures ResolvedCollapsed(path)[0] == '/' <==> path[0] == '/'
  {
    var parts := Split(path);
    FirstPartEmpty(path);
    PiecesHaveNoSeparator(path);
    RunCollapsedShape(parts, 0, Start);
    var st := RunCollapsed(parts, 0, Start);
    if st.stack != [] {
      var first := st.stack[0];
      var sep := if 1 < |st.stack| || st.absolute then "/" else "";
      assert "" + first + sep == first + sep;
      assert ComposeFrom(st.stack, 0, st.absolute, "") == ComposeFrom(st.stack, 1, st.absolute, first + sep);
      ComposeKeepsPrefix(st.stack, 1, st.absolute, first + sep);
      if parts[0] == "" {
        assert first == "" && sep == "/";
      } else {
        assert first != "";
        assert first[0] in first;
      }
    }
  }

  /**
   * The fix-up loop of analyze: a separator is appended to a leading root
   * and to every part before the last; the flag records the leading root.
   */
  method FixParts(parts: seq<string>) returns (fixed: seq<string>, absolute: bool)
    ensures fixed == Fixed(parts)
    ensures absolute == (|parts| > 0 && IsRoot(parts[0]))
  {
    fixed := parts;
    absolute := false;
    var n := |parts|;
    var i := 0;
    while i < n
      invariant 0 <= i <= n && |fixed| == n
      invariant forall j :: 0 <= j < i ==> fixed[j] == FixPart(parts, j)
      invariant forall j :: i <= j < n ==> fixed[j] == parts[j]
      invariant absolute == (i > 0 && IsRoot(parts[0]))
    {
      var part := fixed[i];
      if i == 0 && (part == "" || (|part| == 2 && part[1] == ':')) {
        fixed := fixed[i := part + "/"];
        absolute := true;
      } else if i < n - 1 {
        fixed := fixed[i := part + "/"];
      }
      i := i + 1;
    }
  }

  /** The directory loop of analyze: every fixed part but the last, concatenated. */
  method DirectoryOf(fixed: seq<string>) returns (dir: string)
    requires |fixed| > 1
    ensures dir == Concat(fixed[..|fixed| - 1])
  {
    dir := "";
    var k := 0;
    while k < |fixed| - 1
      invariant 0 <= k <= |fixed| - 1
      invariant dir == Concat(fixed[..k])
    {
      ConcatSnoc(fixed[..k], fixed[k]);
      assert fixed[..k + 1] == fixed[..k] + [fixed[k]];
      dir := dir + fixed[k];
      k := k + 1;
    }
  }

  /**
   * The body of analyze: split `path` into parts, fix them, take the
   * file name, build the directory and full path, split off the extension
   * and read the drive letter.
   */
  method Decomposed(path: string) returns (d: Details)
    ensures d == Analysis(path)
  {
    var parts := SplitParts(path);
    var fixed, absolute := FixParts(parts);
    var n := |fixed|;
    var fileName := if n > 0 then fixed[n - 1] else "";
    var directoryPath := "";
    var fullPath := "";
    if n > 1 {
      directoryPath := DirectoryOf(fixed);
      fullPath := directoryPath + fileName;
    } else if n == 1 && absolute {
      directoryPath := fixed[0];
      fullPath := directoryPath;
    } else if n == 1 {
      fullPath := fileName;
    }
    var baseName, extension;
    var dot := FindChar(fileName, '.', 1);
    if fileName == "." || fileName == ".." || dot.None? {
      baseName, extension := fileName, "";
    } else {
      baseName, extension := fileName[..dot.value], fileName[dot.value..];
    }
    var colon := FindChar(fullPath, ':', 0);
    var driveLetter := if colon == Some(1) then Substr(path, 0, 2) else "";
    d := Details(fullPath, fileName, baseName, extension, directoryPath, driveLetter, absolute);
  }

  // ------------------------------------------------------------------
  // The FilePath object: a path plus its lazily computed decomposition
  // ------------------------------------------------------------------

  /** The cache contents after setPath: every string empty, not absolute. */
  const Cleared := Details("", "", "", "", "", "", false)

  /**
   * A unified path with the flag computed by setPath and a cache of the
   * decomposition, filled on first access by analyze(). The seven cached
   * members (full path, file name, base name, extension, directory path,
   * drive letter, absolute flag) are held as one Details value.
   */
  class FilePath {
    var path: string
    var pointsToContent: bool
    var details: bool
    var cache: Details

    /**
     * The path is unified, the flag is the one setPath computes (or still
     * false on a default-constructed empty path), and a filled cache is
     * right.
     */
    predicate Valid()
      reads this
    {
      '\\' !in path &&
      (pointsToContent == PointsToContent(path) || (path == "" && !pointsToContent)) &&
      (details ==> cache == Analysis(path))
    }

    /**
     * The empty path, with an empty cache. Unlike `setPath("")`, the
     * default constructor leaves the flag false.
     */
    constructor ()
      ensures Valid() && path == "" && !pointsToContent && !details && cache == Cleared
    {
      path := "";
      pointsToContent := false;
      details := false;
      cache := Cleared;
    }

    /** A path made from a string: unified, with an empty cache. */
    constructor FromString(s: string)
      ensures Valid() && path == Unify(s) && !details && cache == Cleared
      ensures pointsToContent == PointsToContent(Unify(s))
    {
      path := Unify(s);
      pointsToContent := PointsToContent(Unify(s));
      details := false;
      cache := Cleared;
    }

    /** A copy, cache included. */
    constructor Copy(other: FilePath)
      requires other.Valid()
      ensures Valid() && path == other.path && details == other.details
      ensures pointsToContent == other.pointsToContent && cache == other.cache
    {
      path := other.path;
      pointsToContent := other.pointsToContent;
      details := other.details;
      cache := other.cache;
    }

    /**
     * Replaces the path: backslashes become `/`, the cache is emptied and
     * the flag records whether the path ends in a separator.
     */
    method SetPath(s: string)
      modifies this
      ensures Valid() && path == Unify(s) && !details && cache == Cleared
      ensures |s| < NPos ==> (pointsToContent <==> (s == "" || path[|s| - 1] == '/'))
    {
      path := s;
      pointsToContent := false;
      details := false;
      cache := Cleared;
      path := Unify(path);
      pointsToContent := PointsToContent(path);
      if |s| < NPos {
        PointsToContentMeaning(path);
      }
    }

    function IsEmpty(): (r: bool)
      reads this
      requires Valid()
      ensures r <==> path == ""
    {
      path == ""
    }

    /** Fills the cache on first use; later calls leave it as it is. */
    method Analyze()
      requires Valid()
      modifies this
      ensures Valid() && details && cache == Analysis(old(path))
      ensures path == old(path) && pointsToContent == old(pointsToContent)
    {
      if details {
        return;
      }
      var p := path;
      var d := Decomposed(p);
      cache := d;
      details := true;
      assert path == p;
    }

    method FullPath() returns (r: string)
      requires Valid()
      modifies this
      ensures Valid() && path == old(path) && r == Analysis(old(path)).fullPath
    {
      Analyze();
      r := cache.fullPath;
    }

    method FileName() returns (r: string)
      requires Valid()
      modifies this
      ensures Valid() && path == old(path) && r == Analysis(old(path)).fileName
    {
      Analyze();
      r := cache.fileName;
    }

    method BaseName() returns (r: string)
      requires Valid()
      modifies this
      ensures Valid() && path == old(path) && r == Analysis(old(path)).baseName
    {
      Analyze();
      r := cache.baseName;
    }

    method Extension() returns (r: string)
      requires Valid()
      modifies this
      ensures Valid() && path == old(path) && r == Analysis(old(path)).extension
    {
      Analyze();
      r := cache.extension;
    }

    method DirectoryPath() returns (r: string)
      requires Valid()
      modifies this
      ensures Valid() && path == old(path) && r == Analysis(old(path)).directoryPath
    {
      Analyze();
      r := cache.directoryPath;
    }

    method DriveLetter() returns (r: string)
      requires Valid()
      modifies this
      ensures Valid() && path == old(path) && r == Analysis(old(path)).driveLetter
    {
      Analyze();
      r := cache.driveLetter;
    }

    method IsAbsolute() returns (r: bool)
      requires Valid()
      modifies this
      ensures Valid() && path == old(path) && r == Analysis(old(path)).absolute
    {
      Analyze();
      r := cache.absolute;
    }

    method IsRelative() returns (r: bool)
      requires Valid()
      modifies this
      ensures Valid() && path == old(path) && r == !Analysis(old(path)).absolute
    {
      Analyze();
      r := !cache.absolute;
    }

    /** `this.resolve(other)`: a new path object whose path is Resolve of the two. */
    method ResolveWith(other: FilePath) returns (r: FilePath)
      requires Valid() && other.Valid()
      modifies this, other
      ensures fresh(r) && r.Valid() && r.path == Resolve(old(path), old(other.path))
      ensures Valid() && other.Valid() && path == old(path) && other.path == old(other.path)
    {
      if other.IsEmpty() && IsEmpty() {
        r := new FilePath();
        return;
      }
      var argAbsolute := other.IsAbsolute();
      if argAbsolute || IsEmpty() {
        r := new FilePath.Copy(other);
        return;
      }
      if other.IsEmpty() {
        r := new FilePath.Copy(this);
        return;
      }
      r := Append(other);
    }

    /** The last case of resolve: the argument appended to this path's full path. */
    method Append(other: FilePath) returns (r: FilePath)
      requires Valid() && other.Valid()
      requires path != "" && other.path != "" && !Analysis(other.path).absolute
      modifies this
      ensures fresh(r) && r.Valid() && r.path == Resolve(old(path), other.path)
      ensures Valid() && path == old(path) && other.path == old(other.path)
    {
      var arg := other.path;
      var full := FullPath();
      r := new FilePath.FromString(full + "/" + arg);
    }

    /** `resolved()`: the path with `.` and `..` removed where possible. */
    method Resolved() returns (r: string)
      requires Valid()
      ensures r == ResolvedPath(path)
    {
      var parts := SplitParts(path);
      var stack: seq<string> := [];
      var removable: nat := 0;
      var isAbsolute := false;
      var i := 0;
      while i < |parts|
        invariant 0 <= i <= |parts| && removable <= |stack|
        invariant Run(parts, i, Normal(stack, removable, isAbsolute)) == Run(parts, 0, Start)
      {
        var part := parts[i];
        if i == 0 && (part == "" || (|part| == 2 && part[1] == ':')) {
          isAbsolute := true;
        }
        if part == "." {
        } else if part == ".." && removable > 0 {
          stack := stack[..|stack| - 1];
          removable := removable - 1;
        } else {
          stack := stack + [part];
          if !(i == 0 && isAbsolute) && part != ".." {
            removable := removable + 1;
          }
        }
        i := i + 1;
      }
      var composed := "";
      var k := 0;
      while k < |stack|
        invariant 0 <= k <= |stack|
        invariant ComposeFrom(stack, k, isAbsolute, composed) == ComposeFrom(stack, 0, isAbsolute, "")
      {
        composed := composed + stack[k];
        if k + 1 < |stack| || (k == 0 && isAbsolute) {
          composed := composed + "/";
        }
        k := k + 1;
      }
      r := if composed == "" then "." else composed;
    }
  }
}
