/**
 * `FileHandle`: the value type that owns a file-handle backend, or none.
 * Every query forwards to the backend and answers a neutral value (false,
 * 0, the empty string) without one. Copy and move take the backend's own
 * route when both handles belong to one file system and copy through
 * streams otherwise; readTree walks a directory with the handle's own
 * iterator and opens every entry it meets.
 */
module FileHandles {
  import opened Wrappers
  import opened Host
  import opened HandlePaths
  import opened Backend
  import opened Iterators
  import opened FileIterators
  import FilePath
  import Tree
  import Perm = Permissions

  // ------------------------------------------------------------------
  // What readTree computes
  // ------------------------------------------------------------------

  /**
   * What a directory listing yields besides `.` and `..` are plain names:
   * non-empty, without a separator and not a drive root.
   */
  predicate EntryNames(host: Host)
  {
    forall k, i :: k in host.listing && 0 <= i < |host.listing[k]| ==>
      IsDot(host.listing[k][i]) || FilePath.IsEntryName(host.listing[k][i])
  }

  /** Every name a directory listing yields has at least one character. */
  predicate NonEmptyNames(host: Host)
  {
    forall k, i :: k in host.listing && 0 <= i < |host.listing[k]| ==> host.listing[k][i] != ""
  }

  /** Names that are all plain entry names. */
  predicate EntryList(names: seq<string>)
  {
    forall i :: 0 <= i < |names| ==> FilePath.IsEntryName(names[i])
  }

  /** Every name listFiles reports is one the host's listing holds, and not a dot entry. */
  lemma ListedFromHost(platform: Platform, path: string, host: Host, x: string)
    requires x in ListingOf(platform, path, host)
    ensures exists k, i :: k in host.listing && 0 <= i < |host.listing[k]| && host.listing[k][i] == x && !IsDot(x)
  {
    var key := if platform == Windows then FilePath.Analysis(FilePath.Unify(path)).fullPath else path;
    assert key in host.listing;
    var raw := host.listing[key];
    assert ListingOf(platform, path, host) == Visible(raw);
    VisibleMembers(raw, x);
    var i :| 0 <= i < |raw| && raw[i] == x;
  }

  /** Every name listFiles reports can be opened below the directory as one entry. */
  lemma ListedAreEntries(platform: Platform, path: string, host: Host, x: string)
    requires EntryNames(host) && x in ListingOf(platform, path, host)
    ensures FilePath.IsEntryName(x)
  {
    ListedFromHost(platform, path, host, x);
  }

  /** The listing an iterator opens satisfies what the iterator backend asks of it. */
  lemma OpenedFits(fs: FileSystem, path: string, host: Host)
    requires NonEmptyNames(host)
    ensures var l := Opened(fs, path, host);
      (fs.platform == Ssh && l.Some? ==> forall i :: 0 <= i < |l.value| ==> l.value[i] != "") &&
      (fs.platform == Windows && l.Some? ==> l.value != [])
  {
  }

  /** The SHA-1 text the host reports for a path, empty when it has none. */
  function DigestOf(host: Host, path: string): (r: string)
    ensures path in host.digest ==> r == host.digest[path]
    ensures path !in host.digest ==> r == ""
  {
    match Lookup(host.digest, path)
    case Some(d) => d
    case None => ""
  }

  /** The paths the host knows that are longer than `path`. */
  ghost function Above(host: Host, path: string): set<string>
  {
    set k | k in host.stat.Keys && |k| > |path|
  }

  /** Descending into a longer path the host knows leaves fewer paths above. */
  lemma Deeper(host: Host, path: string, child: string)
    requires child in host.stat && |child| > |path|
    ensures Above(host, child) < Above(host, path)
    ensures |Above(host, child)| < |Above(host, path)|
  {
    var above, below := Above(host, path), Above(host, child);
    assert child in above && child !in below;
    var gone := above - below;
    assert above == below + gone;
    assert below * gone == {};
    assert child in gone;
  }

  /** The name a subtree is stored under: `name` below `treePath`, or `name` alone at the top. */
  function SubPath(treePath: string, name: string): (r: string)
    ensures treePath == "" ==> r == name
    ensures treePath != "" ==> |r| == |treePath| + 1 + |name|
    ensures treePath != "" ==> r[..|treePath|] == treePath && r[|treePath|] == '/' && r[|treePath| + 1..] == name
  {
    if treePath == "" then name else treePath + "/" + name
  }

  /** The node readTree makes of an existing entry, before any children are added. */
  function NodeOf(fs: FileSystem, path: string, info: Info, treePath: string, fileName: string, host: Host)
    : (t: Tree.Tree)
    requires Fits(fs.platform, info)
    ensures t.path == treePath && t.fileName == fileName && t.children == []
    ensures t.directory == IsDirectoryOf(fs.platform, Some(info))
    ensures t.sha1 == DigestOf(host, path)
  {
    var c := Some(info);
    Tree.Empty.(path := treePath, fileName := fileName,
      directory := IsDirectoryOf(fs.platform, c), size := SizeOf(fs.platform, c),
      accessTime := AccessTimeOf(fs.platform, c), modificationTime := ModificationTimeOf(fs.platform, c),
      userId := UserIdOf(fs.platform, c), groupId := GroupIdOf(fs.platform, c),
      permissions := PermissionsOf(fs.platform, c) as nat, sha1 := DigestOf(host, path))
  }

  /** A cache filled from a host whose records fit still fits. */
  lemma FilledFits(platform: Platform, cache: Option<Info>, host: Host, path: string)
    requires HostFits(platform, host) && CacheFits(platform, cache)
    ensures CacheFits(platform, Filled(platform, cache, host, path))
  {
  }

  /** The names listFiles reports are entry names when the host's listings hold only those and dots. */
  lemma ListingEntries(platform: Platform, path: string, host: Host)
    requires EntryNames(host)
    ensures EntryList(ListingOf(platform, path, host))
  {
    var l := ListingOf(platform, path, host);
    forall i | 0 <= i < |l|
      ensures FilePath.IsEntryName(l[i])
    {
      ListedAreEntries(platform, path, host, l[i]);
    }
  }

  /**
   * How readTree turns a listed name of the directory `path` into the next
   * handle: the path the handle gets, and the file name it reports, under
   * which its subtree is stored.
   */
  datatype Opening = Opening(open: (string, string) -> string, fileName: string -> string)

  /** The code as written: `open(name)` resolves the name as a path. */
  const Resolving := Opening(OpenTarget, FileNameOf)

  /** What the walk evidently intends: the name joined below the directory (see Findings). */
  const Joining := Opening(EntryPath, FileNameOf)

  /**
   * Whether readTree on `path` returns when every directory it opens may
   * lie at most `depth` levels below: an entry that does not exist and a
   * file end the walk; a directory needs a level, and each name of its
   * listing, once opened, must finish within one level less. The code as
   * written does not finish for every host (see DriveEntryNeverFinishes).
   */
  predicate Finishes(o: Opening, fs: FileSystem, path: string, cache: Option<Info>, host: Host, depth: nat)
    requires HostFits(fs.platform, host) && CacheFits(fs.platform, cache)
    decreases depth, 0
  {
    var info := Filled(fs.platform, cache, host, path);
    info.None? || !IsDirectoryOf(fs.platform, info) ||
    (depth > 0 && ListedFinish(o, fs, path, ListingOf(fs.platform, path, host), host, depth - 1))
  }

  /** The listed name `name` of the directory `path`, once opened, finishes within `depth` levels. */
  predicate ChildFinishes(o: Opening, fs: FileSystem, path: string, name: string, host: Host, depth: nat)
    requires HostFits(fs.platform, host)
    decreases depth, 1
  {
    Finishes(o, fs, o.open(path, name), None, host, depth)
  }

  /** Every name of `names`, opened below `path`, finishes within `depth` levels. */
  predicate ListedFinish(o: Opening, fs: FileSystem, path: string, names: seq<string>, host: Host, depth: nat)
    requires HostFits(fs.platform, host)
    decreases depth, 2
  {
    forall i :: 0 <= i < |names| ==> ChildFinishes(o, fs, path, names[i], host, depth)
  }

  /**
   * The tree readTree returns for `path`, stored under `treePath`: none
   * when the entry does not exist; otherwise its attributes and, for a
   * directory, the subtrees of the entries that exist when they are
   * opened, in listing order.
   */
  function TreeOf(o: Opening, fs: FileSystem, path: string, cache: Option<Info>, treePath: string, host: Host,
                  depth: nat): (r: Option<Tree.Tree>)
    requires HostFits(fs.platform, host) && CacheFits(fs.platform, cache)
    requires Finishes(o, fs, path, cache, host, depth)
    ensures r.Some? <==> Filled(fs.platform, cache, host, path).Some?
    ensures r.Some? ==> r.value.path == treePath && r.value.fileName == o.fileName(path)
    decreases depth, 3
  {
    var info := Filled(fs.platform, cache, host, path);
    if info.None? then None
    else
      FilledFits(fs.platform, cache, host, path);
      var node := NodeOf(fs, path, info.value, treePath, o.fileName(path), host);
      if node.directory then Some(node.(children := ListedChildren(o, fs, path, treePath, host, depth - 1)))
      else Some(node)
  }

  /** The subtrees readTree adds to the directory `path`: those of its listing, each within `depth` levels. */
  function ListedChildren(o: Opening, fs: FileSystem, path: string, treePath: string, host: Host, depth: nat)
    : seq<Tree.Tree>
    requires HostFits(fs.platform, host)
    requires ListedFinish(o, fs, path, ListingOf(fs.platform, path, host), host, depth)
    decreases depth + 1, 2
  {
    ChildrenOf(o, fs, path, treePath, ListingOf(fs.platform, path, host), host, depth)
  }

  /** The subtrees readTree adds for `names`, read from the end of the list. */
  function ChildrenOf(o: Opening, fs: FileSystem, path: string, treePath: string, names: seq<string>, host: Host,
                      depth: nat): (r: seq<Tree.Tree>)
    requires HostFits(fs.platform, host)
    requires ListedFinish(o, fs, path, names, host, depth)
    ensures |r| <= |names|
    decreases depth + 1, 1, |names|
  {
    if names == [] then []
    else
      var sub := ChildTree(o, fs, path, treePath, names[|names| - 1], host, depth);
      ChildrenOf(o, fs, path, treePath, names[..|names| - 1], host, depth) + (if sub.Some? then [sub.value] else [])
  }

  /**
   * The subtree of one listed name: the handle `open` gives, none when its
   * entry does not exist, stored under its own file name.
   */
  function ChildTree(o: Opening, fs: FileSystem, path: string, treePath: string, name: string, host: Host,
                     depth: nat): (r: Option<Tree.Tree>)
    requires HostFits(fs.platform, host)
    requires ChildFinishes(o, fs, path, name, host, depth)
    ensures r.Some? <==> Present(o, fs, path, name, host)
    ensures r.Some? ==> r.value.fileName == o.fileName(o.open(path, name)) &&
                        r.value.path == SubPath(treePath, r.value.fileName)
    decreases depth + 1, 0
  {
    var child := o.open(path, name);
    if Filled(fs.platform, None, host, child).None? then None
    else TreeOf(o, fs, child, None, SubPath(treePath, o.fileName(child)), host, depth)
  }

  /**
   * The entry `name` of the directory `path`: below the directory's full
   * path, or the name alone at the top (see HandlePaths.OpenEntry).
   */
  function EntryPath(path: string, name: string): string
  {
    if path == "" then name else FilePath.Analysis(FilePath.Unify(path)).fullPath + "/" + name
  }

  /** `open(name)` of an entry name leads to EntryPath, which is longer than the directory's path and named `name`. */
  lemma EntryOpens(path: string, name: string)
    requires FilePath.IsEntryName(name)
    ensures OpenTarget(path, name) == EntryPath(path, name)
    ensures FileNameOf(EntryPath(path, name)) == name
    ensures |EntryPath(path, name)| > |path|
  {
    OpenEntry(path, name);
  }

  /** Any non-empty name joined below a directory gives a path longer than the directory's. */
  lemma EntryPathLonger(path: string, name: string)
    requires name != ""
    ensures |EntryPath(path, name)| > |path|
  {
    if path != "" {
      FilePath.FullPathLength(FilePath.Unify(path));
    }
  }

  /** Whether the entry `name` of the directory `path` exists when it is opened. */
  predicate Present(o: Opening, fs: FileSystem, path: string, name: string, host: Host)
  {
    Filled(fs.platform, None, host, o.open(path, name)).Some?
  }

  /** The names of `names` whose entries exist when they are opened, in order. */
  function PresentNames(o: Opening, fs: FileSystem, path: string, names: seq<string>, host: Host): (r: seq<string>)
    ensures |r| <= |names|
  {
    if names == [] then []
    else
      var last := names[|names| - 1];
      PresentNames(o, fs, path, names[..|names| - 1], host) + (if Present(o, fs, path, last, host) then [last] else [])
  }

  /** When every entry exists once opened, none is filtered out. */
  lemma {:induction false} AllPresent(o: Opening, fs: FileSystem, path: string, names: seq<string>, host: Host)
    requires forall i :: 0 <= i < |names| ==> Present(o, fs, path, names[i], host)
    ensures PresentNames(o, fs, path, names, host) == names
    decreases |names|
  {
    if names != [] {
      var front, last := names[..|names| - 1], names[|names| - 1];
      AllPresent(o, fs, path, front, host);
      assert names == front + [last];
    }
  }

  /** The file names the handles opened for `names` report, in order. */
  function OpenedNames(o: Opening, path: string, names: seq<string>): (r: seq<string>)
    ensures |r| == |names|
  {
    if names == [] then []
    else OpenedNames(o, path, names[..|names| - 1]) + [o.fileName(o.open(path, names[|names| - 1]))]
  }

  /** Names that keep their own name once opened are reported unchanged. */
  lemma {:induction false} OpenedKeepNames(o: Opening, path: string, names: seq<string>)
    requires forall i :: 0 <= i < |names| ==> o.fileName(o.open(path, names[i])) == names[i]
    ensures OpenedNames(o, path, names) == names
    decreases |names|
  {
    if names != [] {
      var front, last := names[..|names| - 1], names[|names| - 1];
      OpenedKeepNames(o, path, front);
      assert names == front + [last];
    }
  }

  /** Listing one more name adds that name's subtree, when it has one, at the end. */
  lemma ChildrenSnoc(o: Opening, fs: FileSystem, path: string, treePath: string, names: seq<string>, name: string,
                     host: Host, depth: nat)
    requires HostFits(fs.platform, host)
    requires ListedFinish(o, fs, path, names + [name], host, depth)
    ensures ListedFinish(o, fs, path, names, host, depth)
    ensures ChildFinishes(o, fs, path, name, host, depth)
    ensures var sub := ChildTree(o, fs, path, treePath, name, host, depth);
      ChildrenOf(o, fs, path, treePath, names + [name], host, depth) ==
        ChildrenOf(o, fs, path, treePath, names, host, depth) + (if sub.Some? then [sub.value] else [])
  {
    assert (names + [name])[..|names|] == names;
    assert (names + [name])[|names|] == name;
  }

  /** The children readTree adds are named as their opened handles are, for the entries that exist, in listing order. */
  lemma {:induction false} ChildrenFollowListing(o: Opening, fs: FileSystem, path: string, treePath: string,
                                                 names: seq<string>, host: Host, depth: nat)
    requires HostFits(fs.platform, host)
    requires ListedFinish(o, fs, path, names, host, depth)
    ensures Tree.Names(ChildrenOf(o, fs, path, treePath, names, host, depth)) ==
      OpenedNames(o, path, PresentNames(o, fs, path, names, host))
    decreases |names|
  {
    if names != [] {
      var front, last := names[..|names| - 1], names[|names| - 1];
      assert names == front + [last];
      ChildrenSnoc(o, fs, path, treePath, front, last, host, depth);
      ChildrenFollowListing(o, fs, path, treePath, front, host, depth);
      var sub := ChildTree(o, fs, path, treePath, last, host, depth);
      var r := ChildrenOf(o, fs, path, treePath, names, host, depth);
      var rf := ChildrenOf(o, fs, path, treePath, front, host, depth);
      var pf := PresentNames(o, fs, path, front, host);
      if sub.Some? {
        assert PresentNames(o, fs, path, names, host) == pf + [last];
        assert r == rf + [sub.value];
        assert r[..|r| - 1] == rf;
        assert Tree.Names(r) == Tree.Names(rf) + [o.fileName(o.open(path, last))];
        assert (pf + [last])[..|pf|] == pf;
        assert OpenedNames(o, path, pf + [last]) == OpenedNames(o, path, pf) + [o.fileName(o.open(path, last))];
      } else {
        assert PresentNames(o, fs, path, names, host) == pf;
        assert r == rf;
      }
    }
  }

  /** Every tree of `children` is stored under its own name below `treePath`. */
  predicate StoredBelow(children: seq<Tree.Tree>, treePath: string)
  {
    forall i :: 0 <= i < |children| ==> children[i].path == SubPath(treePath, children[i].fileName)
  }

  /** Each child readTree adds is stored under its own name below the parent's tree path. */
  lemma {:induction false} ChildrenStoredBelow(o: Opening, fs: FileSystem, path: string, treePath: string,
                                               names: seq<string>, host: Host, depth: nat)
    requires HostFits(fs.platform, host)
    requires ListedFinish(o, fs, path, names, host, depth)
    ensures StoredBelow(ChildrenOf(o, fs, path, treePath, names, host, depth), treePath)
    decreases |names|
  {
    if names != [] {
      var front, last := names[..|names| - 1], names[|names| - 1];
      var sub := ChildTree(o, fs, path, treePath, last, host, depth);
      var rf := ChildrenOf(o, fs, path, treePath, front, host, depth);
      var added := if sub.Some? then [sub.value] else [];
      var r := ChildrenOf(o, fs, path, treePath, names, host, depth);
      assert names == front + [last];
      ChildrenSnoc(o, fs, path, treePath, front, last, host, depth);
      assert r == rf + added;
      ChildrenStoredBelow(o, fs, path, treePath, front, host, depth);
      forall i | 0 <= i < |r|
        ensures r[i].path == SubPath(treePath, r[i].fileName)
      {
        if i < |rf| {
          assert r[i] == rf[i];
        } else {
          assert r[i] == sub.value;
        }
      }
    }
  }

  /**
   * The tree of an existing entry is stored under the requested tree path
   * and named after the entry; only a directory has children, and those
   * are the entries of its listing that exist, in order, each named as its
   * opened handle is.
   */
  lemma TreeShape(o: Opening, fs: FileSystem, path: string, cache: Option<Info>, treePath: string, host: Host,
                  depth: nat)
    requires HostFits(fs.platform, host) && CacheFits(fs.platform, cache)
    requires Finishes(o, fs, path, cache, host, depth)
    ensures var r := TreeOf(o, fs, path, cache, treePath, host, depth);
      var info := Filled(fs.platform, cache, host, path);
      (r.Some? <==> info.Some?) &&
      (r.Some? ==>
        r.value.path == treePath && r.value.fileName == o.fileName(path) &&
        r.value.directory == IsDirectoryOf(fs.platform, info) &&
        r.value.sha1 == DigestOf(host, path) &&
        (!r.value.directory ==> r.value.children == []) &&
        (r.value.directory ==>
          Tree.Names(r.value.children) ==
            OpenedNames(o, path, PresentNames(o, fs, path, ListingOf(fs.platform, path, host), host)) &&
          StoredBelow(r.value.children, treePath)))
  {
    var info := Filled(fs.platform, cache, host, path);
    if info.Some? {
      TreeOfNode(o, fs, path, cache, treePath, host, depth);
      if IsDirectoryOf(fs.platform, info) {
        var l := ListingOf(fs.platform, path, host);
        ChildrenFollowListing(o, fs, path, treePath, l, host, depth - 1);
        ChildrenStoredBelow(o, fs, path, treePath, l, host, depth - 1);
      }
    }
  }

  /**
   * With plain entry names, each child readTree adds is named by the name
   * its directory listed: the names of the children are the listed names
   * whose entries exist, in listing order.
   */
  lemma EntryChildrenNamed(fs: FileSystem, path: string, treePath: string, host: Host, depth: nat)
    requires HostFits(fs.platform, host) && EntryNames(host)
    requires ListedFinish(Resolving, fs, path, ListingOf(fs.platform, path, host), host, depth)
    ensures Tree.Names(ListedChildren(Resolving, fs, path, treePath, host, depth)) ==
      PresentNames(Resolving, fs, path, ListingOf(fs.platform, path, host), host)
  {
    var l := ListingOf(fs.platform, path, host);
    var present := PresentNames(Resolving, fs, path, l, host);
    ChildrenFollowListing(Resolving, fs, path, treePath, l, host, depth);
    ListingEntries(fs.platform, path, host);
    PresentEntries(Resolving, fs, path, l, host);
    forall i | 0 <= i < |present|
      ensures FileNameOf(OpenTarget(path, present[i])) == present[i]
    {
      EntryOpens(path, present[i]);
    }
    OpenedKeepNames(Resolving, path, present);
  }

  /** The names that exist among plain entry names are plain entry names too. */
  lemma {:induction false} PresentEntries(o: Opening, fs: FileSystem, path: string, names: seq<string>, host: Host)
    requires EntryList(names)
    ensures EntryList(PresentNames(o, fs, path, names, host))
    decreases |names|
  {
    if names != [] {
      var front := names[..|names| - 1];
      assert EntryList(front);
      PresentEntries(o, fs, path, front, host);
    }
  }

  /**
   * One step of readTree: an existing entry gives its node, with the
   * subtrees of its listing when it is a directory.
   */
  lemma TreeOfNode(o: Opening, fs: FileSystem, path: string, cache: Option<Info>, treePath: string, host: Host,
                   depth: nat)
    requires HostFits(fs.platform, host) && CacheFits(fs.platform, cache)
    requires Finishes(o, fs, path, cache, host, depth)
    requires Filled(fs.platform, cache, host, path).Some?
    ensures CacheFits(fs.platform, Filled(fs.platform, cache, host, path))
    ensures var node := NodeOf(fs, path, Filled(fs.platform, cache, host, path).value, treePath, o.fileName(path), host);
      (node.directory ==> depth > 0 && ListedFinish(o, fs, path, ListingOf(fs.platform, path, host), host, depth - 1)) &&
      TreeOf(o, fs, path, cache, treePath, host, depth) ==
        Some(if node.directory then node.(children := ListedChildren(o, fs, path, treePath, host, depth - 1)) else node)
  {
    FilledFits(fs.platform, cache, host, path);
  }

  /** An opening that agrees with `open` and `fileName` wherever those are applied. */
  ghost predicate OpensAsWritten(o: Opening)
  {
    (forall p, n {:trigger OpenTarget(p, n)} :: o.open(p, n) == OpenTarget(p, n)) &&
    (forall p {:trigger FileNameOf(p)} :: o.fileName(p) == FileNameOf(p))
  }

  /** The opening of the code as written agrees with `open` and `fileName`. */
  lemma ResolvingOpensAsWritten()
    ensures OpensAsWritten(Resolving)
  {
  }

  /** A filled cache gives the tree an empty one would: readTree reads attributes through the cache. */
  lemma TreeOfFilled(o: Opening, fs: FileSystem, path: string, cache: Option<Info>, treePath: string, host: Host,
                     depth: nat)
    requires HostFits(fs.platform, host) && CacheFits(fs.platform, cache)
    requires Finishes(o, fs, path, cache, host, depth)
    ensures CacheFits(fs.platform, Filled(fs.platform, cache, host, path))
    ensures Finishes(o, fs, path, Filled(fs.platform, cache, host, path), host, depth)
    ensures TreeOf(o, fs, path, Filled(fs.platform, cache, host, path), treePath, host, depth) ==
      TreeOf(o, fs, path, cache, treePath, host, depth)
  {
  }

  /**
   * The tree does not depend on the bound: any two depths within which
   * readTree finishes give the same tree.
   */
  lemma {:induction false} TreeOfAnyDepth(o: Opening, fs: FileSystem, path: string, cache: Option<Info>,
                                          treePath: string, host: Host, d1: nat, d2: nat)
    requires HostFits(fs.platform, host) && CacheFits(fs.platform, cache)
    requires Finishes(o, fs, path, cache, host, d1) && Finishes(o, fs, path, cache, host, d2)
    ensures TreeOf(o, fs, path, cache, treePath, host, d1) == TreeOf(o, fs, path, cache, treePath, host, d2)
    decreases d1, 0
  {
    var info := Filled(fs.platform, cache, host, path);
    if info.Some? {
      TreeOfNode(o, fs, path, cache, treePath, host, d1);
      TreeOfNode(o, fs, path, cache, treePath, host, d2);
    }
    if info.Some? && IsDirectoryOf(fs.platform, info) {
      ChildrenAnyDepth(o, fs, path, treePath, ListingOf(fs.platform, path, host), host, d1 - 1, d2 - 1);
    }
  }

  /** The children, likewise, do not depend on the bound. */
  lemma {:induction false} ChildrenAnyDepth(o: Opening, fs: FileSystem, path: string, treePath: string,
                                            names: seq<string>, host: Host, d1: nat, d2: nat)
    requires HostFits(fs.platform, host)
    requires ListedFinish(o, fs, path, names, host, d1) && ListedFinish(o, fs, path, names, host, d2)
    ensures ChildrenOf(o, fs, path, treePath, names, host, d1) == ChildrenOf(o, fs, path, treePath, names, host, d2)
    decreases d1, 1, |names|
  {
    if names != [] {
      var front, last := names[..|names| - 1], names[|names| - 1];
      ChildrenSnoc(o, fs, path, treePath, front, last, host, d1);
      ChildrenSnoc(o, fs, path, treePath, front, last, host, d2);
      assert names == front + [last];
      ChildrenAnyDepth(o, fs, path, treePath, front, host, d1, d2);
      var child := o.open(path, last);
      if Filled(fs.platform, None, host, child).Some? {
        TreeOfAnyDepth(o, fs, child, None, SubPath(treePath, o.fileName(child)), host, d1, d2);
      }
    }
  }

  /** Every listed name opens at a path longer than the directory it was listed in. */
  ghost predicate OpensBelow(o: Opening, host: Host)
  {
    forall k, i, path :: k in host.listing && 0 <= i < |host.listing[k]| && !IsDot(host.listing[k][i]) ==>
      |o.open(path, host.listing[k][i])| > |path|
  }

  /** `open` resolves plain entry names below the directory. */
  lemma EntryNamesOpenBelow(host: Host)
    requires EntryNames(host)
    ensures OpensBelow(Resolving, host)
  {
    forall k, i, path | k in host.listing && 0 <= i < |host.listing[k]| && !IsDot(host.listing[k][i])
      ensures |OpenTarget(path, host.listing[k][i])| > |path|
    {
      EntryOpens(path, host.listing[k][i]);
    }
  }

  /** Joining puts any non-empty name below the directory. */
  lemma JoinedNamesOpenBelow(host: Host)
    requires NonEmptyNames(host)
    ensures OpensBelow(Joining, host)
  {
    forall k, i, path | k in host.listing && 0 <= i < |host.listing[k]| && !IsDot(host.listing[k][i])
      ensures |EntryPath(path, host.listing[k][i])| > |path|
    {
      EntryPathLonger(path, host.listing[k][i]);
    }
  }

  /**
   * A walk whose every opened entry lies below its directory finishes: a
   * depth beyond the number of paths longer than the start suffices.
   */
  lemma {:induction false} DescendingWalkFinishes(o: Opening, fs: FileSystem, path: string, cache: Option<Info>,
                                                  host: Host, depth: nat)
    requires HostFits(fs.platform, host) && CacheFits(fs.platform, cache)
    requires OpensBelow(o, host)
    requires |Above(host, path)| < depth
    ensures Finishes(o, fs, path, cache, host, depth)
    decreases Above(host, path)
  {
    var info := Filled(fs.platform, cache, host, path);
    if info.Some? && IsDirectoryOf(fs.platform, info) {
      var l := ListingOf(fs.platform, path, host);
      forall i | 0 <= i < |l|
        ensures ChildFinishes(o, fs, path, l[i], host, depth - 1)
      {
        var child := o.open(path, l[i]);
        ListedFromHost(fs.platform, path, host, l[i]);
        if Filled(fs.platform, None, host, child).Some? {
          FilledFromHost(fs.platform, None, host, child);
          Deeper(host, path, child);
          DescendingWalkFinishes(o, fs, child, None, host, depth - 1);
        }
      }
    }
  }

  /**
   * readTree as written finishes on every host whose listings hold plain
   * entry names only, and the joining walk on every host whose names are
   * not empty.
   */
  lemma WalksFinish(fs: FileSystem, path: string, cache: Option<Info>, host: Host)
    requires HostFits(fs.platform, host) && CacheFits(fs.platform, cache)
    ensures EntryNames(host) ==> Finishes(Resolving, fs, path, cache, host, |Above(host, path)| + 1)
    ensures NonEmptyNames(host) ==> Finishes(Joining, fs, path, cache, host, |Above(host, path)| + 1)
  {
    if EntryNames(host) {
      EntryNamesOpenBelow(host);
      DescendingWalkFinishes(Resolving, fs, path, cache, host, |Above(host, path)| + 1);
    }
    if NonEmptyNames(host) {
      JoinedNamesOpenBelow(host);
      DescendingWalkFinishes(Joining, fs, path, cache, host, |Above(host, path)| + 1);
    }
  }

  /**
   * As written, readTree never returns on a POSIX directory `c:/` that
   * lists an entry `c:`: `o.open("c:")` resolves the drive-like name as an
   * absolute path, whose full path is `c:/` again. Joining the name below
   * the directory instead finishes at once.
   */
  lemma DriveEntryNeverFinishes(fs: FileSystem, host: Host, depth: nat)
    requires fs.platform == Posix
    requires host == LoopHost()
    ensures HostFits(Posix, host)
    ensures !Finishes(Resolving, fs, "c:/", None, host, depth)
    ensures Finishes(Joining, fs, "c:/", None, host, 1)
  {
    DriveOpensItself("c:/", "c:");
    NeverFinishes(Resolving, fs, host, depth);
    JoinedLoopHostFinishes(fs, host);
  }

  /** A directory `c:/` whose listing is the entry `c:`, and nothing else. */
  function LoopHost(): (h: Host)
    ensures HostFits(Posix, h)
    ensures "c:/" in h.stat && h.stat.Keys == {"c:/"} && h.listing == map["c:/" := ["c:"]]
    ensures IsDirectoryOf(Posix, Some(h.stat["c:/"]))
  {
    Host(map["c:/" := Stat(PosixFileHandle.DirectoryType, 0, 0, 0, 0, 0)], map[], map["c:/" := ["c:"]],
         {}, {}, map[], false, false)
  }

  /** The directory `c:/` of LoopHost exists, and its listing is the one entry `c:`. */
  lemma LoopListing()
    ensures ListingOf(Posix, "c:/", LoopHost()) == ["c:"]
    ensures Filled(Posix, None, LoopHost(), "c:/").Some? && IsDirectoryOf(Posix, Filled(Posix, None, LoopHost(), "c:/"))
  {
    assert Visible(["c:"]) == Visible([]) + ["c:"];
  }

  /** `open` of a drive-like name gives that drive's root, whatever the directory. */
  lemma DriveOpensItself(path: string, name: string)
    requires name == "c:"
    ensures OpenTarget(path, name) == "c:/"
  {
    FilePath.UnifyUnified(name);
    FilePath.DriveRoot(name);
    assert FilePath.Resolve(FilePath.Unify(path), name) == name;
    assert name + "/" == "c:/";
  }

  /** An opening that leads `c:` of `c:/` back to `c:/` never finishes on LoopHost. */
  lemma {:induction false} NeverFinishes(o: Opening, fs: FileSystem, host: Host, depth: nat)
    requires fs.platform == Posix && host == LoopHost()
    requires o.open("c:/", "c:") == "c:/"
    ensures !Finishes(o, fs, "c:/", None, host, depth)
    decreases depth
  {
    var l := ListingOf(Posix, "c:/", host);
    LoopListing();
    if depth > 0 {
      NeverFinishes(o, fs, host, depth - 1);
      assert !ChildFinishes(o, fs, "c:/", l[0], host, depth - 1);
    }
  }

  /** The joining walk of LoopHost stops at `c:/c:`, which does not exist. */
  lemma JoinedLoopHostFinishes(fs: FileSystem, host: Host)
    requires fs.platform == Posix && host == LoopHost()
    ensures Finishes(Joining, fs, "c:/", None, host, 1)
  {
    var l := ListingOf(Posix, "c:/", host);
    LoopListing();
    var child := EntryPath("c:/", "c:");
    EntryPathLonger("c:/", "c:");
    assert child !in host.stat;
    assert ChildFinishes(Joining, fs, "c:/", l[0], host, 0);
  }

  /** What finishes for a list of names finishes for each of its prefixes. */
  lemma ListedFinishPrefix(o: Opening, fs: FileSystem, path: string, names: seq<string>, k: nat, host: Host,
                           depth: nat)
    requires HostFits(fs.platform, host) && k <= |names|
    requires ListedFinish(o, fs, path, names, host, depth)
    ensures ListedFinish(o, fs, path, names[..k], host, depth)
  {
    assert forall i :: 0 <= i < k ==> names[..k][i] == names[i];
  }

  /**
   * A turn of readTree's loop moves the first name still to come to the
   * names done: those then still finish, and their subtrees gain the one
   * of that name, when it has one.
   */
  lemma NextFinishes(o: Opening, fs: FileSystem, path: string, treePath: string, done: seq<string>,
                     rest: seq<string>, host: Host, depth: nat)
    requires HostFits(fs.platform, host) && rest != []
    requires ListedFinish(o, fs, path, done + rest, host, depth)
    ensures ListedFinish(o, fs, path, done + [rest[0]], host, depth)
    ensures ChildFinishes(o, fs, path, rest[0], host, depth)
    ensures ListedFinish(o, fs, path, done, host, depth)
    ensures var sub := ChildTree(o, fs, path, treePath, rest[0], host, depth);
      ChildrenOf(o, fs, path, treePath, done + [rest[0]], host, depth) ==
        ChildrenOf(o, fs, path, treePath, done, host, depth) + (if sub.Some? then [sub.value] else [])
  {
    var all := done + rest;
    ListedFinishPrefix(o, fs, path, all, |done| + 1, host, depth);
    assert all[..|done| + 1] == done + [rest[0]];
    ChildrenSnoc(o, fs, path, treePath, done, rest[0], host, depth);
  }

  /** Moving the first name still to come to the names done keeps the whole listing. */
  lemma MoveFirst(done: seq<string>, rest: seq<string>)
    requires rest != []
    ensures (done + [rest[0]]) + rest[1..] == done + rest
  {
    assert rest == [rest[0]] + rest[1..];
  }

  /** Whether genericCopy reports success: both streams were created, whether or not the files opened. */
  predicate StreamsCreated(platform: Platform, cache: Option<Info>, host: Host, path: string,
                           destPlatform: Platform, destHost: Host)
    requires HostFits(platform, host) && CacheFits(platform, cache)
  {
    (platform != Ssh || (Connected(Ssh, host) && IsFileOf(Ssh, Filled(Ssh, cache, host, path)))) &&
    Connected(destPlatform, destHost)
  }

  /** Which way copy and move go: nowhere without a backend, the backend's own way, or through streams. */
  datatype Route = Unavailable | Internal | Generic

  // ------------------------------------------------------------------
  // The handle
  // ------------------------------------------------------------------

  class FileHandle {
    var backend: FileHandleBackend?

    ghost predicate Inv()
      reads this, backend
    {
      backend != null ==> backend.Valid()
    }

    /** An empty handle: no backend. */
    constructor ()
      ensures backend == null && Inv()
    {
      backend := null;
    }

    /** A handle owning `b`. */
    constructor Of(b: FileHandleBackend)
      requires b.Valid()
      ensures backend == b && Inv()
    {
      backend := b;
    }

    /** The copy constructor: a clone of the other's backend (same file system and path, nothing cached), or none. */
    constructor CopyOf(other: FileHandle)
      ensures Inv() && (backend == null <==> other.backend == null)
      ensures backend != null ==> fresh(backend) && backend.fs == other.backend.fs && backend.path == other.backend.path
    {
      if other.backend != null {
        var twin := other.backend.Clone();
        backend := twin;
      } else {
        backend := null;
      }
    }

    /** The move constructor: the backend changes owner and the other is left without one. */
    constructor MovedFrom(other: FileHandle)
      modifies other
      ensures backend == old(other.backend) && other.backend == null
    {
      backend := other.backend;
      new;
      other.backend := null;
    }

    /** `operator=`: a clone of the other's backend, or none. */
    method Assign(other: FileHandle)
      modifies this
      ensures Inv() && (backend == null <==> other.backend == null)
      ensures backend != null ==> fresh(backend) && backend.fs == other.backend.fs && backend.path == other.backend.path
    {
      if other.backend != null {
        var twin := other.backend.Clone();
        backend := twin;
      } else {
        backend := null;
      }
    }

    /** `path()`: the backend's path, or the empty string. */
    function Path(): (r: string)
      reads this, backend
      ensures backend == null ==> r == ""
      ensures backend != null ==> r == backend.path
    {
      if backend == null then "" else backend.path
    }

    /** `fileName()`: the last part of the path, or the empty string without a backend. */
    function FileName(): (r: string)
      reads this, backend
      ensures backend == null ==> r == ""
      ensures backend != null ==> r == FileNameOf(backend.path)
    {
      if backend == null then "" else FileNameOf(backend.path)
    }

    /** `updateFileInfo()`: the backend forgets what it has cached. */
    method UpdateFileInfo()
      requires Inv()
      modifies backend
      ensures Inv()
      ensures backend != null ==> backend.path == old(backend.path) && backend.fileInfo.None? && backend.linkInfo.None?
    {
      if backend != null {
        backend.UpdateFileInfo();
      }
    }

    /** `exists()`: whether the entry exists; false without a backend. */
    method Exists(host: Host) returns (r: bool)
      requires Inv() && (backend != null ==> HostFits(backend.fs.platform, host))
      modifies backend
      ensures Inv()
      ensures backend == null ==> !r
      ensures backend != null ==>
        backend.path == old(backend.path) && backend.linkInfo == old(backend.linkInfo) &&
        backend.fileInfo == Filled(backend.fs.platform, old(backend.fileInfo), host, backend.path) &&
        r == backend.fileInfo.Some?
    {
      r := false;
      if backend != null {
        r := backend.Exists(host);
      }
    }

    /** `isFile()`: false without a backend. */
    method IsFile(host: Host) returns (r: bool)
      requires Inv() && (backend != null ==> HostFits(backend.fs.platform, host))
      modifies backend
      ensures Inv()
      ensures backend == null ==> !r
      ensures backend != null ==>
        backend.path == old(backend.path) && backend.linkInfo == old(backend.linkInfo) &&
        backend.fileInfo == Filled(backend.fs.platform, old(backend.fileInfo), host, backend.path) &&
        r == IsFileOf(backend.fs.platform, backend.fileInfo)
    {
      r := false;
      if backend != null {
        r := backend.IsFile(host);
      }
    }

    /** `isDirectory()`: false without a backend. */
    method IsDirectory(host: Host) returns (r: bool)
      requires Inv() && (backend != null ==> HostFits(backend.fs.platform, host))
      modifies backend
      ensures Inv()
      ensures backend == null ==> !r
      ensures backend != null ==>
        backend.path == old(backend.path) && backend.linkInfo == old(backend.linkInfo) &&
        backend.fileInfo == Filled(backend.fs.platform, old(backend.fileInfo), host, backend.path) &&
        r == IsDirectoryOf(backend.fs.platform, backend.fileInfo)
    {
      r := false;
      if backend != null {
        r := backend.IsDirectory(host);
      }
    }

    /** `listFiles()`: the names in the directory, `.` and `..` left out; none without a backend. */
    method ListFiles(host: Host) returns (entries: seq<string>)
      ensures backend == null ==> entries == []
      ensures backend != null ==> entries == ListingOf(backend.fs.platform, backend.path, host)
    {
      entries := [];
      if backend != null {
        entries := backend.ListFiles(host);
      }
    }

    /**
     * `begin()`: an iterator over the directory, which walks the same
     * names listFiles reports; the end iterator without a backend.
     */
    method Begin(host: Host) returns (it: FileIterator)
      requires NonEmptyNames(host)
      ensures fresh(it) && it.Inv()
      ensures backend == null ==> it.backend == null
      ensures backend != null ==>
        it.backend != null && fresh(it.backend) && it.backend.fs == backend.fs && it.backend.path == backend.path
      ensures backend != null ==> it.Remaining() == ListingOf(backend.fs.platform, backend.path, host)
    {
      if backend == null {
        it := new FileIterator();
        return;
      }
      var listing := Opened(backend.fs, backend.path, host);
      OpenedFits(backend.fs, backend.path, host);
      var b := new IteratorBackend(backend.fs, backend.path, listing);
      StartYieldsEntries(backend.fs.platform, listing);
      EntriesAreListFiles(backend.fs, backend.path, host);
      it := new FileIterator.Of(b);
    }

    /** `end()`: the iterator without a backend, which every exhausted iterator equals. */
    method End() returns (it: FileIterator)
      ensures fresh(it) && it.backend == null && it.Position().Invalid?
    {
      it := new FileIterator();
    }

    /** `size()`: 0 without a backend. */
    method Size(host: Host) returns (r: nat)
      requires Inv() && (backend != null ==> HostFits(backend.fs.platform, host))
      modifies backend
      ensures Inv()
      ensures backend == null ==> r == 0
      ensures backend != null ==>
        backend.path == old(backend.path) && backend.linkInfo == old(backend.linkInfo) &&
        backend.fileInfo == Filled(backend.fs.platform, old(backend.fileInfo), host, backend.path) &&
        r == SizeOf(backend.fs.platform, backend.fileInfo)
    {
      r := 0;
      if backend != null {
        r := backend.Size(host);
      }
    }

    /** `accessTime()`: 0 without a backend. */
    method AccessTime(host: Host) returns (r: nat)
      requires Inv() && (backend != null ==> HostFits(backend.fs.platform, host))
      modifies backend
      ensures Inv()
      ensures backend == null ==> r == 0
      ensures backend != null ==>
        backend.path == old(backend.path) && backend.linkInfo == old(backend.linkInfo) &&
        backend.fileInfo == Filled(backend.fs.platform, old(backend.fileInfo), host, backend.path) &&
        r == AccessTimeOf(backend.fs.platform, backend.fileInfo)
    {
      r := 0;
      if backend != null {
        r := backend.AccessTime(host);
      }
    }

    /** `modificationTime()`: 0 without a backend. */
    method ModificationTime(host: Host) returns (r: nat)
      requires Inv() && (backend != null ==> HostFits(backend.fs.platform, host))
      modifies backend
      ensures Inv()
      ensures backend == null ==> r == 0
      ensures backend != null ==>
        backend.path == old(backend.path) && backend.linkInfo == old(backend.linkInfo) &&
        backend.fileInfo == Filled(backend.fs.platform, old(backend.fileInfo), host, backend.path) &&
        r == ModificationTimeOf(backend.fs.platform, backend.fileInfo)
    {
      r := 0;
      if backend != null {
        r := backend.ModificationTime(host);
      }
    }

    /** `userId()`: 0 without a backend; the Windows handle reads no attributes for it. */
    method UserId(host: Host) returns (r: nat)
      requires Inv() && (backend != null ==> HostFits(backend.fs.platform, host))
      modifies backend
      ensures Inv()
      ensures backend == null ==> r == 0
      ensures backend != null ==>
        backend.path == old(backend.path) && backend.linkInfo == old(backend.linkInfo) &&
        backend.fileInfo == (if backend.fs.platform == Windows then old(backend.fileInfo)
                             else Filled(backend.fs.platform, old(backend.fileInfo), host, backend.path)) &&
        r == UserIdOf(backend.fs.platform, backend.fileInfo)
    {
      r := 0;
      if backend != null {
        r := backend.UserId(host);
      }
    }

    /** `groupId()`: 0 without a backend; the Windows handle reads no attributes for it. */
    method GroupId(host: Host) returns (r: nat)
      requires Inv() && (backend != null ==> HostFits(backend.fs.platform, host))
      modifies backend
      ensures Inv()
      ensures backend == null ==> r == 0
      ensures backend != null ==>
        backend.path == old(backend.path) && backend.linkInfo == old(backend.linkInfo) &&
        backend.fileInfo == (if backend.fs.platform == Windows then old(backend.fileInfo)
                             else Filled(backend.fs.platform, old(backend.fileInfo), host, backend.path)) &&
        r == GroupIdOf(backend.fs.platform, backend.fileInfo)
    {
      r := 0;
      if backend != null {
        r := backend.GroupId(host);
      }
    }

    /** `permissions()`: 0 without a backend; the Windows handle reads no attributes for it. */
    method Permissions(host: Host) returns (r: bv64)
      requires Inv() && (backend != null ==> HostFits(backend.fs.platform, host))
      modifies backend
      ensures Inv()
      ensures backend == null ==> r == 0
      ensures backend != null ==>
        backend.path == old(backend.path) && backend.linkInfo == old(backend.linkInfo) &&
        backend.fileInfo == (if backend.fs.platform == Windows then old(backend.fileInfo)
                             else Filled(backend.fs.platform, old(backend.fileInfo), host, backend.path)) &&
        r == PermissionsOf(backend.fs.platform, backend.fileInfo)
    {
      r := 0;
      if backend != null {
        r := backend.Permissions(host);
      }
    }

    /** `setUserId(uid)`: the backend's chown request; nothing without a backend. */
    method SetUserId(uid: nat, host: Host) returns (request: Option<(nat, nat)>)
      requires Inv() && (backend != null ==> HostFits(backend.fs.platform, host))
      modifies backend
      ensures Inv()
      ensures backend == null ==> request.None?
      ensures backend != null ==> backend.path == old(backend.path)
      ensures backend != null && backend.fs.platform == Windows ==>
        request.None? && backend.fileInfo == old(backend.fileInfo) && backend.linkInfo == old(backend.linkInfo)
      ensures backend != null && backend.fs.platform != Windows ==>
        request == Some((uid, GroupIdOf(backend.fs.platform,
                                        Filled(backend.fs.platform, old(backend.fileInfo), host, backend.path)))) &&
        backend.fileInfo.None? && backend.linkInfo.None?
    {
      request := None;
      if backend != null {
        request := backend.SetUserId(uid, host);
      }
    }

    /** `setGroupId(gid)`: the backend's chown request; nothing without a backend. */
    method SetGroupId(gid: nat, host: Host) returns (request: Option<(nat, nat)>)
      requires Inv() && (backend != null ==> HostFits(backend.fs.platform, host))
      modifies backend
      ensures Inv()
      ensures backend == null ==> request.None?
      ensures backend != null ==> backend.path == old(backend.path)
      ensures backend != null && backend.fs.platform == Windows ==>
        request.None? && backend.fileInfo == old(backend.fileInfo) && backend.linkInfo == old(backend.linkInfo)
      ensures backend != null && backend.fs.platform != Windows ==>
        request == Some((UserIdOf(backend.fs.platform,
                                  Filled(backend.fs.platform, old(backend.fileInfo), host, backend.path)), gid)) &&
        backend.fileInfo.None? && backend.linkInfo.None?
    {
      request := None;
      if backend != null {
        request := backend.SetGroupId(gid, host);
      }
    }

    /** `setPermissions(permissions)`: the backend's chmod request; nothing without a backend. */
    method SetPermissions(permissions: bv64, host: Host) returns (request: Option<bv32>)
      requires Inv()
      modifies backend
      ensures Inv()
      ensures backend == null ==> request.None?
      ensures backend != null ==>
        backend.path == old(backend.path) &&
        (request.Some? <==> Connected(backend.fs.platform, host) && backend.fs.platform != Windows) &&
        (request.Some? ==> request.value == Perm.ToMode(permissions) &&
                           backend.fileInfo.None? && backend.linkInfo.None?) &&
        (request.None? ==> backend.fileInfo == old(backend.fileInfo) && backend.linkInfo == old(backend.linkInfo))
    {
      request := None;
      if backend != null {
        request := backend.SetPermissions(permissions, host);
      }
    }

    /** `sha1()`: the SHA-1 text of the file at the handle's path. */
    function Sha1(host: Host): (r: string)
      reads this, backend
      ensures r == DigestOf(host, Path())
    {
      DigestOf(host, Path())
    }

    /**
     * `parentDirectory()`: a new handle of the same file system on the
     * path with `..` resolved; an empty handle without a backend.
     */
    method ParentDirectory() returns (h: FileHandle)
      ensures fresh(h) && h.Inv()
      ensures backend == null ==> h.backend == null
      ensures backend != null ==>
        h.backend != null && fresh(h.backend) && h.backend.fs == backend.fs &&
        h.backend.path == ParentTarget(backend.path) &&
        h.backend.fileInfo.None? && h.backend.linkInfo.None?
    {
      if backend == null {
        h := new FileHandle();
        return;
      }
      var b := new FileHandleBackend(backend.fs, ParentTarget(backend.path));
      h := new FileHandle.Of(b);
    }

    /**
     * `open(path)`: a new handle of the same file system on `path` read
     * relative to this handle's path; an empty handle without a backend.
     */
    method Open(rel: string) returns (h: FileHandle)
      ensures fresh(h) && h.Inv()
      ensures backend == null ==> h.backend == null
      ensures backend != null ==>
        h.backend != null && fresh(h.backend) && h.backend.fs == backend.fs &&
        h.backend.path == OpenTarget(backend.path, rel) &&
        h.backend.fileInfo.None? && h.backend.linkInfo.None?
    {
      if backend == null {
        h := new FileHandle();
        return;
      }
      var b := new FileHandleBackend(backend.fs, OpenTarget(backend.path, rel));
      h := new FileHandle.Of(b);
    }

    /** `makeDirectory()`: the backend's createDirectory; false without a backend. */
    method MakeDirectory(host: Host, ok: bool) returns (r: bool)
      requires Inv() && (backend != null ==> HostFits(backend.fs.platform, host))
      modifies backend
      ensures Inv()
      ensures backend == null ==> !r
      ensures backend != null ==>
        backend.path == old(backend.path) &&
        r == (Connected(backend.fs.platform, host) &&
              Filled(backend.fs.platform, old(backend.fileInfo), host, backend.path).None? && ok) &&
        (r ==> backend.fileInfo.None? && backend.linkInfo.None?) &&
        (!r ==> backend.fileInfo == Filled(backend.fs.platform, old(backend.fileInfo), host, backend.path) &&
                backend.linkInfo == old(backend.linkInfo))
    {
      if backend == null {
        return false;
      }
      r := backend.CreateDirectory(host, ok);
    }

    /** `removeDirectory()`: false without a backend. */
    method RemoveDirectory(host: Host, ok: bool) returns (r: bool)
      requires Inv() && (backend != null ==> HostFits(backend.fs.platform, host))
      modifies backend
      ensures Inv()
      ensures backend == null ==> !r
      ensures backend != null ==>
        backend.path == old(backend.path) &&
        r == (Connected(backend.fs.platform, host) &&
              IsDirectoryOf(backend.fs.platform, Filled(backend.fs.platform, old(backend.fileInfo), host, backend.path)) && ok) &&
        (r ==> backend.fileInfo.None? && backend.linkInfo.None?) &&
        (!r ==> backend.fileInfo == Filled(backend.fs.platform, old(backend.fileInfo), host, backend.path) &&
                backend.linkInfo == old(backend.linkInfo))
    {
      if backend == null {
        return false;
      }
      r := backend.RemoveDirectory(host, ok);
    }

    /** `remove()`: removes a file; false without a backend. */
    method Remove(host: Host, ok: bool) returns (r: bool)
      requires Inv() && (backend != null ==> HostFits(backend.fs.platform, host))
      modifies backend
      ensures Inv()
      ensures backend == null ==> !r
      ensures backend != null ==>
        backend.path == old(backend.path) &&
        r == (Connected(backend.fs.platform, host) &&
              IsFileOf(backend.fs.platform, Filled(backend.fs.platform, old(backend.fileInfo), host, backend.path)) && ok) &&
        (r ==> backend.fileInfo.None? && backend.linkInfo.None?) &&
        (!r ==> backend.fileInfo == Filled(backend.fs.platform, old(backend.fileInfo), host, backend.path) &&
                backend.linkInfo == old(backend.linkInfo))
    {
      if backend == null {
        return false;
      }
      r := backend.Remove(host, ok);
    }

    /** `rename(filename)`: on success the handle is on the new name in the same directory; false without a backend. */
    method Rename(filename: string, host: Host, ok: bool) returns (r: bool)
      requires Inv() && (backend != null ==> HostFits(backend.fs.platform, host))
      modifies backend
      ensures Inv()
      ensures backend == null ==> !r
      ensures backend != null ==>
        r == (Connected(backend.fs.platform, host) &&
              Filled(backend.fs.platform, old(backend.fileInfo), host, old(backend.path)).Some? && ok) &&
        backend.path == (if r then RenameTarget(old(backend.path), filename) else old(backend.path)) &&
        (r ==> backend.fileInfo.None? && backend.linkInfo.None?) &&
        (!r ==> backend.fileInfo == Filled(backend.fs.platform, old(backend.fileInfo), host, old(backend.path)) &&
                backend.linkInfo == old(backend.linkInfo))
    {
      if backend == null {
        return false;
      }
      var target;
      r, target := backend.Rename(filename, host, ok);
    }

    /** `createInputStream()`: the backend's stream; none without a backend. */
    method CreateInputStream(host: Host) returns (s: Option<Stream>)
      requires Inv() && (backend != null ==> HostFits(backend.fs.platform, host))
      modifies backend
      ensures Inv()
      ensures backend == null ==> s.None?
      ensures backend != null ==>
        backend.path == old(backend.path) && backend.linkInfo == old(backend.linkInfo) &&
        backend.fileInfo == (if backend.fs.platform == Ssh then Filled(Ssh, old(backend.fileInfo), host, backend.path)
                             else old(backend.fileInfo)) &&
        (s.Some? <==> StreamsCreated(backend.fs.platform, old(backend.fileInfo), host, backend.path, Posix, host)) &&
        (s.Some? ==> s.value == Stream(backend.path, backend.path in host.readable))
    {
      if backend == null {
        return None;
      }
      s := backend.CreateInputStream(host);
    }

    /** `createOutputStream()`: the backend's stream; none without a backend. */
    method CreateOutputStream(host: Host) returns (s: Option<Stream>)
      ensures backend == null ==> s.None?
      ensures backend != null ==>
        (s.Some? <==> Connected(backend.fs.platform, host)) &&
        (s.Some? ==> s.value == Stream(backend.path, backend.path in host.writable))
    {
      if backend == null {
        return None;
      }
      s := backend.CreateOutputStream(host);
    }

    /**
     * `genericCopy(dest)`: opens an input stream here and an output
     * stream at the destination and reports success once both exist; the
     * destination then forgets its cached attributes. A local input
     * stream that failed to open still counts as created.
     */
    method GenericCopy(dest: FileHandle, host: Host, destHost: Host) returns (r: bool)
      requires Inv() && dest.Inv()
      requires backend != null ==> HostFits(backend.fs.platform, host) && dest.backend != backend
      modifies backend, dest.backend
      ensures Inv() && dest.Inv()
      ensures backend == null ==> !r
      ensures backend != null ==>
        backend.path == old(backend.path) && backend.linkInfo == old(backend.linkInfo) &&
        Filled(backend.fs.platform, backend.fileInfo, host, backend.path) ==
          Filled(backend.fs.platform, old(backend.fileInfo), host, backend.path) &&
        r == (dest.backend != null &&
              StreamsCreated(backend.fs.platform, old(backend.fileInfo), host, backend.path,
                             dest.backend.fs.platform, destHost))
      ensures dest.backend != null ==> dest.backend.path == old(dest.backend.path)
      ensures r ==> dest.backend.fileInfo.None? && dest.backend.linkInfo.None?
      ensures !r && dest.backend != null ==>
        dest.backend.fileInfo == old(dest.backend.fileInfo) && dest.backend.linkInfo == old(dest.backend.linkInfo)
    {
      if backend == null {
        return false;
      }
      var input := CreateInputStream(host);
      var output := dest.CreateOutputStream(destHost);
      if input.None? || output.None? {
        return false;
      }
      dest.UpdateFileInfo();
      r := true;
    }

    /** `genericMove(dest)`: a generic copy followed by removing this file. */
    method GenericMove(dest: FileHandle, host: Host, destHost: Host, ok: bool) returns (r: bool)
      requires Inv() && dest.Inv()
      requires backend != null ==> HostFits(backend.fs.platform, host) && dest.backend != backend
      modifies backend, dest.backend
      ensures Inv() && dest.Inv()
      ensures backend == null ==> !r
      ensures backend != null ==>
        backend.path == old(backend.path) &&
        r == (dest.backend != null &&
              StreamsCreated(backend.fs.platform, old(backend.fileInfo), host, backend.path,
                             dest.backend.fs.platform, destHost) &&
              Connected(backend.fs.platform, host) &&
              IsFileOf(backend.fs.platform, Filled(backend.fs.platform, old(backend.fileInfo), host, backend.path)) && ok)
      ensures r ==> backend.fileInfo.None? && dest.backend.fileInfo.None?
    {
      var copied := GenericCopy(dest, host, destHost);
      if !copied {
        return false;
      }
      r := Remove(host, ok);
    }

    /**
     * `copy(dest)`: false without a backend; the backend's own copy when
     * both handles belong to one file system, a generic copy otherwise.
     */
    method Copy(dest: FileHandle, host: Host, destHost: Host, ok: bool) returns (r: bool, ghost route: Route)
      requires Inv() && dest.Inv()
      requires backend != null ==> dest.backend != null && HostFits(backend.fs.platform, host)
      modifies backend, dest.backend
      ensures Inv() && dest.Inv()
      ensures route == (if backend == null then Unavailable
                        else if backend.fs == dest.backend.fs then Internal else Generic)
      ensures route == Unavailable ==> !r
      ensures backend != null ==> backend.path == old(backend.path) && dest.backend.path == old(dest.backend.path)
      ensures route == Internal ==>
        var platform := backend.fs.platform;
        var proceeds := (platform != Ssh || host.session) &&
                        IsFileOf(platform, Filled(platform, old(backend.fileInfo), host, backend.path));
        var target := Destination(backend.path, dest.backend.path,
                                  IsDirectoryOf(platform, Filled(platform, old(dest.backend.fileInfo), host, dest.backend.path)));
        r == (proceeds && if platform == Posix then backend.path in host.readable && target in host.writable else ok)
      ensures route == Generic ==>
        r == StreamsCreated(backend.fs.platform, old(backend.fileInfo), host, backend.path, dest.backend.fs.platform, destHost)
    {
      if backend == null {
        return false, Unavailable;
      }
      if backend.fs == dest.backend.fs {
        var target;
        r, target := backend.Copy(dest.backend, host, ok);
        route := Internal;
      } else {
        r := GenericCopy(dest, host, destHost);
        route := Generic;
      }
    }

    /**
     * `move(dest)`: false without a backend; the backend's own move when
     * both handles belong to one file system, a generic move otherwise.
     */
    method Move(dest: FileHandle, host: Host, destHost: Host, ok: bool) returns (r: bool, ghost route: Route)
      requires Inv() && dest.Inv()
      requires backend != null ==> dest.backend != null && HostFits(backend.fs.platform, host)
      modifies backend, dest.backend
      ensures Inv() && dest.Inv()
      ensures route == (if backend == null then Unavailable
                        else if backend.fs == dest.backend.fs then Internal else Generic)
      ensures route == Unavailable ==> !r
      ensures route == Internal ==>
        r == (Connected(backend.fs.platform, host) &&
              Filled(backend.fs.platform, old(backend.fileInfo), host, old(backend.path)).Some? && ok) &&
        (r ==> backend.path == Destination(old(backend.path), old(dest.backend.path),
                                           IsDirectoryOf(backend.fs.platform,
                                             Filled(backend.fs.platform, old(dest.backend.fileInfo), host, old(dest.backend.path)))))
      ensures route == Generic ==>
        backend.path == old(backend.path) &&
        r == (StreamsCreated(backend.fs.platform, old(backend.fileInfo), host, backend.path, dest.backend.fs.platform, destHost) &&
              Connected(backend.fs.platform, host) &&
              IsFileOf(backend.fs.platform, Filled(backend.fs.platform, old(backend.fileInfo), host, backend.path)) && ok)
    {
      if backend == null {
        return false, Unavailable;
      }
      if backend.fs == dest.backend.fs {
        var target;
        r, target := backend.Move(dest.backend, host, ok);
        route := Internal;
      } else {
        r := GenericMove(dest, host, destHost, ok);
        route := Generic;
      }
    }

    /**
     * `readTree(path)`: none when the entry does not exist; otherwise the
     * entry's attributes under the tree path `treePath` and, for a
     * directory, the subtrees of its entries (see TreeOf). The walk must
     * finish within `depth` nested directories, which the code as written
     * does not promise (see DriveEntryNeverFinishes); how deep it goes does
     * not change the tree (see TreeOfAnyDepth).
     */
    method ReadTree(treePath: string, host: Host, ghost depth: nat, ghost o: Opening) returns (tree: Option<Tree.Tree>)
      requires OpensAsWritten(o)
      requires Inv() && NonEmptyNames(host)
      requires backend != null ==>
        HostFits(backend.fs.platform, host) &&
        Finishes(o, backend.fs, backend.path, backend.fileInfo, host, depth)
      modifies backend
      ensures Inv()
      ensures backend == null ==> tree.None?
      ensures backend != null ==>
        backend.path == old(backend.path) &&
        tree == TreeOf(o, backend.fs, backend.path, old(backend.fileInfo), treePath, host, depth)
      decreases depth, 6
    {
      ghost var cache := if backend != null then backend.fileInfo else None;
      var present := Exists(host);
      if !present {
        return None;
      }
      TreeOfFilled(o, backend.fs, backend.path, cache, treePath, host, depth);
      var node := ReadExisting(treePath, host, depth, o);
      tree := Some(node);
    }

    /** readTree past its existence check: the node of the entry and, for a directory, its subtrees. */
    method ReadExisting(treePath: string, host: Host, ghost depth: nat, ghost o: Opening) returns (node: Tree.Tree)
      requires OpensAsWritten(o)
      requires Inv() && backend != null && NonEmptyNames(host) && HostFits(backend.fs.platform, host)
      requires CacheFits(backend.fs.platform, backend.fileInfo) && backend.fileInfo.Some?
      requires Finishes(o, backend.fs, backend.path, backend.fileInfo, host, depth)
      modifies backend
      ensures Inv() && backend.path == old(backend.path)
      ensures Some(node) == TreeOf(o, backend.fs, backend.path, old(backend.fileInfo), treePath, host, depth)
      decreases depth, 5
    {
      ghost var fs, path, cache := backend.fs, backend.path, backend.fileInfo;
      node := ReadNode(treePath, host);
      TreeOfNode(o, fs, path, cache, treePath, host, depth);
      if node.directory {
        node := ReadChildren(node, treePath, host, depth - 1, o);
      }
    }

    /** The attributes readTree stores for an entry that exists, read through the handle. */
    method ReadNode(treePath: string, host: Host) returns (node: Tree.Tree)
      requires Inv() && backend != null && HostFits(backend.fs.platform, host) && backend.fileInfo.Some?
      modifies backend
      ensures Inv() && backend.path == old(backend.path) && backend.fileInfo == old(backend.fileInfo)
      ensures node == NodeOf(backend.fs, backend.path, backend.fileInfo.value, treePath, FileNameOf(backend.path), host)
    {
      ghost var info := backend.fileInfo;
      var name := FileName();
      var isDirectory := IsDirectory(host);
      var size := Size(host);
      var accessTime := AccessTime(host);
      var modificationTime := ModificationTime(host);
      var userId := UserId(host);
      var groupId := GroupId(host);
      var permissions := Permissions(host);
      var digest := Sha1(host);
      assert backend.fileInfo == info;
      node := Tree.Empty.(path := treePath, fileName := name, directory := isDirectory, size := size,
        accessTime := accessTime, modificationTime := modificationTime, userId := userId,
        groupId := groupId, permissions := permissions as nat, sha1 := digest);
    }

    /** The loop of readTree: every entry the iterator yields that exists when opened becomes a subtree. */
    method ReadChildren(node: Tree.Tree, treePath: string, host: Host, ghost depth: nat, ghost o: Opening) returns (r: Tree.Tree)
      requires OpensAsWritten(o)
      requires Inv() && backend != null && NonEmptyNames(host) && HostFits(backend.fs.platform, host)
      requires ListedFinish(o, backend.fs, backend.path, ListingOf(backend.fs.platform, backend.path, host), host, depth)
      requires node.children == []
      ensures r == node.(children := ListedChildren(o, backend.fs, backend.path, treePath, host, depth))
      decreases depth + 1, 4
    {
      var it := Begin(host);
      var end := End();
      assert ListedFinish(o, backend.fs, backend.path, [], host, depth);
      r := Walk(it, end, node, [], treePath, host, depth, o);
      assert [] + ListingOf(backend.fs.platform, backend.path, host) == ListingOf(backend.fs.platform, backend.path, host);
    }

    /**
     * The for loop of readTree, from where `it` stands to the end: the
     * subtrees of the names still to come are added after those of the
     * names `done` already.
     */
    method Walk(it: FileIterator, end: FileIterator, acc: Tree.Tree, ghost done: seq<string>, treePath: string, host: Host,
                ghost depth: nat, ghost o: Opening)
      returns (r: Tree.Tree)
      requires OpensAsWritten(o)
      requires Inv() && backend != null && NonEmptyNames(host) && HostFits(backend.fs.platform, host)
      requires it.Inv() && it.backend != null && end.backend == null
      requires ListedFinish(o, backend.fs, backend.path, done + it.Remaining(), host, depth)
      requires ListedFinish(o, backend.fs, backend.path, done, host, depth)
      requires acc.children == ChildrenOf(o, backend.fs, backend.path, treePath, done, host, depth)
      modifies it.backend
      ensures r == acc.(children := ChildrenOf(o, backend.fs, backend.path, treePath, done + old(it.Remaining()), host, depth))
      decreases depth + 1, 3
    {
      ghost var all := done + it.Remaining();
      ghost var seen := done;
      r := acc;
      while it.NotEquals(end)
        invariant it.Inv()
        invariant seen + it.Remaining() == all
        invariant ListedFinish(o, backend.fs, backend.path, seen, host, depth)
        invariant r.children == ChildrenOf(o, backend.fs, backend.path, treePath, seen, host, depth)
        invariant r.(children := acc.children) == acc
        decreases |it.Remaining()|
      {
        ghost var rest := it.Remaining();
        ghost var name;
        r, name := Visit(it, r, seen, treePath, host, depth, o);
        MoveFirst(seen, rest);
        seen := seen + [name];
      }
      assert seen == all;
    }

    /** One turn of the loop of readTree: read the subtree of the current name, then advance. */
    method Visit(it: FileIterator, acc: Tree.Tree, ghost done: seq<string>, treePath: string, host: Host,
                 ghost depth: nat, ghost o: Opening)
      returns (next: Tree.Tree, ghost name: string)
      requires OpensAsWritten(o)
      requires Inv() && backend != null && NonEmptyNames(host) && HostFits(backend.fs.platform, host)
      requires it.Inv() && it.Position().At?
      requires ListedFinish(o, backend.fs, backend.path, done + it.Remaining(), host, depth)
      requires ListedFinish(o, backend.fs, backend.path, done, host, depth)
      requires acc.children == ChildrenOf(o, backend.fs, backend.path, treePath, done, host, depth)
      modifies it.backend
      ensures it.Inv()
      ensures old(it.Remaining()) != [] && name == old(it.Remaining())[0] && it.Remaining() == old(it.Remaining())[1..]
      ensures ListedFinish(o, backend.fs, backend.path, done + [name], host, depth)
      ensures next == acc.(children := ChildrenOf(o, backend.fs, backend.path, treePath, done + [name], host, depth))
      decreases depth + 1, 2
    {
      var current := it.Name();
      name := current;
      NextFinishes(o, backend.fs, backend.path, treePath, done, it.Remaining(), host, depth);
      var sub := ReadChild(current, treePath, host, depth, o);
      next := Tree.Add(acc, sub);
      it.Next();
    }

    /** The name a subtree is stored under, composed as readTree does: the tree path, a separator when it is not empty, the file name. */
    static method ComposeName(treePath: string, fileName: string) returns (subName: string)
      ensures subName == SubPath(treePath, fileName)
    {
      subName := treePath;
      if subName != "" {
        subName := subName + "/";
      }
      subName := subName + fileName;
    }

    /** One turn of the loop of readTree: open the entry and read it. */
    method ReadChild(name: string, treePath: string, host: Host, ghost depth: nat, ghost o: Opening) returns (sub: Option<Tree.Tree>)
      requires OpensAsWritten(o)
      requires Inv() && backend != null && NonEmptyNames(host) && HostFits(backend.fs.platform, host)
      requires ChildFinishes(o, backend.fs, backend.path, name, host, depth)
      ensures sub == ChildTree(o, backend.fs, backend.path, treePath, name, host, depth)
      decreases depth + 1, 1
    {
      var fh := Open(name);
      sub := fh.ReadOpened(treePath, host, depth, o);
    }

    /**
     * The rest of a turn of readTree's loop, on the opened entry: skip it
     * when it does not exist, else read its tree under the composed name.
     */
    method ReadOpened(treePath: string, host: Host, ghost depth: nat, ghost o: Opening) returns (sub: Option<Tree.Tree>)
      requires OpensAsWritten(o)
      requires Inv() && backend != null && NonEmptyNames(host) && HostFits(backend.fs.platform, host)
      requires Finishes(o, backend.fs, backend.path, backend.fileInfo, host, depth)
      modifies backend
      ensures sub == TreeOf(o, backend.fs, old(backend.path), old(backend.fileInfo), SubPath(treePath, FileNameOf(old(backend.path))), host, depth)
      decreases depth + 1, 0
    {
      ghost var cache := backend.fileInfo;
      var found := Exists(host);
      if !found {
        return None;
      }
      TreeOfFilled(o, backend.fs, backend.path, cache, SubPath(treePath, FileNameOf(backend.path)), host, depth);
      var fileName := FileName();
      var subName := ComposeName(treePath, fileName);
      sub := ReadTree(subName, host, depth, o);
    }
  }
}
