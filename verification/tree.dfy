/**
 * `cppfs::Tree`: a snapshot of a directory tree, and the comparison of
 * two snapshots into the list of changes that turns one into the other.
 *
 * A node owns its children outright, so no update of one node can be seen
 * through another; nodes are modelled as values.
 */
module Tree {
  import opened Wrappers
  import opened Change
  import Diff

  datatype Tree = Tree(
    path: string,
    fileName: string,
    directory: bool,
    size: nat,
    accessTime: nat,
    modificationTime: nat,
    userId: nat,
    groupId: nat,
    permissions: nat,
    sha1: string,
    children: seq<Tree>)

  /** A default-constructed node: a file with empty names, zero attributes and no children. */
  const Empty := Tree("", "", false, 0, 0, 0, 0, 0, 0, "", [])

  /** The file names of `children`, in order. */
  function Names(children: seq<Tree>): (r: seq<string>)
    ensures |r| == |children|
    ensures forall i :: 0 <= i < |r| ==> r[i] == children[i].fileName
  {
    if children == [] then []
    else Names(children[..|children| - 1]) + [children[|children| - 1].fileName]
  }

  /** What `listFiles` returns: the children's names for a directory, nothing for a file. */
  function Files(t: Tree): seq<string>
  {
    if t.directory then Names(t.children) else []
  }

  /** `listFiles`, with its loop over the children. */
  method ListFiles(t: Tree) returns (files: seq<string>)
    ensures !t.directory ==> files == []
    ensures t.directory ==> (|files| == |t.children|
      && forall i :: 0 <= i < |files| ==> files[i] == t.children[i].fileName)
    ensures files == Files(t)
  {
    files := [];
    if !t.directory {
      return;
    }
    var i := 0;
    while i < |t.children|
      invariant 0 <= i <= |t.children|
      invariant files == Names(t.children[..i])
    {
      assert t.children[..i + 1][..i] == t.children[..i];
      files := files + [t.children[i].fileName];
      i := i + 1;
    }
    assert t.children[..i] == t.children;
  }

  /**
   * `add`: a missing child changes nothing; otherwise it goes after the
   * existing children, which stay as they were.
   */
  function Add(t: Tree, child: Option<Tree>): (r: Tree)
    ensures child.None? ==> r == t
    ensures child.Some? ==> (|r.children| == |t.children| + 1
      && r.children[..|t.children|] == t.children
      && r.children[|t.children|] == child.value)
    ensures r.(children := t.children) == t
  {
    match child
    case None => t
    case Some(c) => t.(children := t.children + [c])
  }

  /** `std::find` over names: the first index holding `name`. */
  function IndexOf(names: seq<string>, name: string): (r: Option<nat>)
    ensures r.Some? ==> (r.value < |names| && names[r.value] == name
      && forall j :: 0 <= j < r.value ==> names[j] != name)
    ensures r.None? <==> name !in names
    decreases |names|
  {
    if names == [] then Wrappers.None
    else if names[0] == name then Some(0)
    else match IndexOf(names[1..], name)
      case None => Wrappers.None
      case Some(k) => Some(k + 1)
  }

  /** The removal a current child turns into: by its own kind, at its own path. */
  function RemovalOf(child: Tree): Change
  {
    Change(if child.directory then RemoveDir else RemoveFile, child.path)
  }

  /** The removals for `children`, in order: those whose name is not among `targetFiles`. */
  function Removals(children: seq<Tree>, targetFiles: seq<string>): seq<Change>
  {
    if children == [] then []
    else
      var last := children[|children| - 1];
      Removals(children[..|children| - 1], targetFiles)
        + (if last.fileName in targetFiles then [] else [RemovalOf(last)])
  }

  /** The current node's child that a target child named `name` is compared with. */
  function Counterpart(current: Tree, name: string): (r: Option<Tree>)
    ensures r.Some? ==> r.value in current.children && r.value.fileName == name
    ensures r.None? <==> !current.directory || name !in Names(current.children)
  {
    match IndexOf(Files(current), name)
    case None => Wrappers.None
    case Some(k) => Some(current.children[k])
  }

  /** True when a target file differs from the current file it is compared with, or has none. */
  predicate NeedsUpdate(currentFile: Option<Tree>, targetFile: Tree)
  {
    currentFile.None?
    || targetFile.size != currentFile.value.size
    || targetFile.sha1 != currentFile.value.sha1
  }

  /** The target node standing for `target` in termination measures. */
  function Node(target: Option<Tree>): Tree
  {
    if target.Some? then target.value else Empty
  }

  /**
   * The changes `createDiff` appends for going from `current` to `target`:
   * nothing without a target directory, one directory copy without a
   * current state, otherwise removals and then each target child's changes.
   */
  function DiffOf(current: Option<Tree>, target: Option<Tree>): (r: seq<Change>)
    ensures target.None? || !target.value.directory ==> r == []
    ensures target.Some? && target.value.directory && current.None?
      ==> r == [Change(CopyDir, target.value.path)]
    decreases Node(target), 1
  {
    if target.None? || !target.value.directory then []
    else if current.None? then [Change(CopyDir, target.value.path)]
    else
      var t := target.value;
      Removals(current.value.children, Files(t)) + Updates(current.value, t, |t.children|)
  }

  /** The changes for the first `n` children of `target`, in order. */
  function Updates(current: Tree, target: Tree, n: nat): seq<Change>
    requires n <= |target.children|
    decreases target, 0, n
  {
    if n == 0 then []
    else Updates(current, target, n - 1) + ChildChanges(current, target.children[n - 1])
  }

  /** The changes for one target child: a directory recurses, a file is copied when it needs an update. */
  function ChildChanges(current: Tree, targetChild: Tree): seq<Change>
    decreases targetChild, 2
  {
    var currentFile := Counterpart(current, targetChild.fileName);
    if targetChild.directory then DiffOf(currentFile, Some(targetChild))
    else if NeedsUpdate(currentFile, targetChild) then [Change(CopyFile, targetChild.path)]
    else []
  }

  /**
   * The static `createDiff`: appends to `diff` the changes from `current`
   * to `target`, removals first.
   */
  method CollectDiff(current: Option<Tree>, target: Option<Tree>, diff: Diff.Diff)
    modifies diff
    ensures diff.changes == old(diff.changes) + DiffOf(current, target)
    decreases Node(target), 2
  {
    if target.None? || !target.value.directory {
      return;
    }
    var t := target.value;
    if current.None? {
      diff.AddOperation(CopyDir, t.path);
      return;
    }
    var c := current.value;
    var targetFiles := ListFiles(t);
    var currentFiles := ListFiles(c);
    CollectRemovals(c, targetFiles, diff);
    CollectUpdates(c, currentFiles, t, diff);
  }

  /** The first loop: a removal for each current child whose name the target lacks. */
  method CollectRemovals(c: Tree, targetFiles: seq<string>, diff: Diff.Diff)
    modifies diff
    ensures diff.changes == old(diff.changes) + Removals(c.children, targetFiles)
  {
    var i := 0;
    while i < |c.children|
      invariant 0 <= i <= |c.children|
      invariant diff.changes == old(diff.changes) + Removals(c.children[..i], targetFiles)
    {
      var file := c.children[i];
      assert c.children[..i + 1][..i] == c.children[..i];
      if IndexOf(targetFiles, file.fileName).None? {
        if file.directory {
          diff.AddOperation(RemoveDir, file.path);
        } else {
          diff.AddOperation(RemoveFile, file.path);
        }
      }
      i := i + 1;
    }
    assert c.children[..i] == c.children;
  }

  /** The second loop: each target child's changes, in order. */
  method CollectUpdates(c: Tree, currentFiles: seq<string>, t: Tree, diff: Diff.Diff)
    requires currentFiles == Files(c)
    modifies diff
    ensures diff.changes == old(diff.changes) + Updates(c, t, |t.children|)
    decreases t, 1
  {
    var j := 0;
    while j < |t.children|
      invariant 0 <= j <= |t.children|
      invariant diff.changes == old(diff.changes) + Updates(c, t, j)
    {
      CollectUpdate(c, currentFiles, t.children[j], diff);
      j := j + 1;
    }
  }

  /** One turn of the second loop: the target child's counterpart is looked up by name. */
  method CollectUpdate(c: Tree, currentFiles: seq<string>, targetFile: Tree, diff: Diff.Diff)
    requires currentFiles == Files(c)
    modifies diff
    ensures diff.changes == old(diff.changes) + ChildChanges(c, targetFile)
    decreases targetFile, 4
  {
    var it := IndexOf(currentFiles, targetFile.fileName);
    var currentFile := if it.Some? then Some(c.children[it.value]) else Wrappers.None;
    CollectChild(currentFile, targetFile, diff);
    assert currentFile == Counterpart(c, targetFile.fileName);
  }

  /** One pass of the second loop: recurse into a directory, copy a file that needs an update. */
  method CollectChild(currentFile: Option<Tree>, targetFile: Tree, diff: Diff.Diff)
    modifies diff
    ensures targetFile.directory ==> diff.changes == old(diff.changes) + DiffOf(currentFile, Some(targetFile))
    ensures !targetFile.directory ==> (diff.changes == old(diff.changes)
      + (if NeedsUpdate(currentFile, targetFile) then [Change(CopyFile, targetFile.path)] else []))
    decreases targetFile, 3
  {
    if targetFile.directory {
      CollectDiff(currentFile, Some(targetFile), diff);
    } else {
      var needsUpdate := currentFile.None?;
      if !needsUpdate {
        needsUpdate := targetFile.size != currentFile.value.size;
      }
      if !needsUpdate {
        needsUpdate := targetFile.sha1 != currentFile.value.sha1;
      }
      if needsUpdate {
        diff.AddOperation(CopyFile, targetFile.path);
      }
    }
  }

  /** The member `createDiff`: a new diff holding the changes from `current` to `target`. */
  method CreateDiff(current: Tree, target: Tree) returns (diff: Diff.Diff)
    ensures fresh(diff)
    ensures diff.changes == DiffOf(Some(current), Some(target))
  {
    diff := new Diff.Diff();
    CollectDiff(Some(current), Some(target), diff);
  }

  /** Removals of two runs of children are the removals of each, in order. */
  lemma {:induction false} RemovalsAppend(a: seq<Tree>, b: seq<Tree>, names: seq<string>)
    ensures Removals(a + b, names) == Removals(a, names) + Removals(b, names)
    decreases |b|
  {
    if b == [] {
      assert a + b == a;
    } else {
      var front := b[..|b| - 1];
      assert (a + b)[..|a + b| - 1] == a + front;
      assert (a + b)[|a + b| - 1] == b[|b| - 1];
      RemovalsAppend(a, front, names);
    }
  }

  /**
   * The removals are exactly those of the children whose name is not
   * among the target's: each one is such a child's removal, and every such
   * child has its removal in the list.
   */
  lemma {:induction false} RemovalsExactly(children: seq<Tree>, names: seq<string>)
    ensures var r := Removals(children, names);
      && |r| <= |children|
      && (forall k :: 0 <= k < |r| ==> r[k].operation == RemoveFile || r[k].operation == RemoveDir)
      && (forall k :: 0 <= k < |r| ==>
            exists i :: 0 <= i < |children| && children[i].fileName !in names && r[k] == RemovalOf(children[i]))
      && (forall i :: 0 <= i < |children| && children[i].fileName !in names ==> RemovalOf(children[i]) in r)
    decreases |children|
  {
    if children != [] {
      var front, last := children[..|children| - 1], children[|children| - 1];
      RemovalsExactly(front, names);
      var r := Removals(children, names);
      var p := Removals(front, names);
      assert r == p + (if last.fileName in names then [] else [RemovalOf(last)]);
      forall k | 0 <= k < |r|
        ensures exists i :: 0 <= i < |children| && children[i].fileName !in names && r[k] == RemovalOf(children[i])
      {
        if k < |p| {
          var i :| 0 <= i < |front| && front[i].fileName !in names && p[k] == RemovalOf(front[i]);
          assert children[i] == front[i];
        } else {
          assert children[|children| - 1] == last;
        }
      }
      forall i | 0 <= i < |children| && children[i].fileName !in names
        ensures RemovalOf(children[i]) in r
      {
        if i < |front| {
          assert front[i] == children[i];
          assert RemovalOf(front[i]) in p;
        } else {
          assert r[|r| - 1] == RemovalOf(last);
        }
      }
    }
  }

  /** A child whose name the target keeps contributes no removal. */
  lemma KeptChildNotRemoved(children: seq<Tree>, names: seq<string>, i: nat)
    requires i < |children| && children[i].fileName in names
    ensures Removals(children, names) == Removals(children[..i] + children[i + 1..], names)
  {
    assert children == children[..i] + [children[i]] + children[i + 1..];
    RemovalsAppend(children[..i] + [children[i]], children[i + 1..], names);
    RemovalsAppend(children[..i], [children[i]], names);
    RemovalsAppend(children[..i], children[i + 1..], names);
    assert [children[i]][..0] == [];
  }

  /** The copies for target children that have nothing to be compared with. */
  function CopyAll(children: seq<Tree>): seq<Change>
  {
    if children == [] then []
    else
      var last := children[|children| - 1];
      CopyAll(children[..|children| - 1])
        + [Change(if last.directory then CopyDir else CopyFile, last.path)]
  }

  /**
   * Against a current file instead of a directory, nothing in the target
   * directory is matched: after the file's own removals every child is
   * copied, a directory as a whole.
   */
  lemma FileAsCurrent(c: Tree, t: Tree)
    requires !c.directory && t.directory
    ensures DiffOf(Some(c), Some(t)) == Removals(c.children, Files(t)) + CopyAll(t.children)
    ensures c.children == [] ==> DiffOf(Some(c), Some(t)) == CopyAll(t.children)
  {
    UpdatesUnmatched(c, t, |t.children|);
    assert t.children[..|t.children|] == t.children;
  }

  lemma {:induction false} UpdatesUnmatched(c: Tree, t: Tree, n: nat)
    requires !c.directory && n <= |t.children|
    ensures Updates(c, t, n) == CopyAll(t.children[..n])
  {
    if n > 0 {
      UpdatesUnmatched(c, t, n - 1);
      assert t.children[..n][..n - 1] == t.children[..n - 1];
      assert t.children[..n][n - 1] == t.children[n - 1];
    }
  }

  /**
   * A target file with no same-named current child, or compared with a
   * file it differs from, is copied; compared with an equal file, it is not.
   */
  lemma FileCopiedUnlessEqual(c: Tree, f: Tree)
    requires !f.directory
    ensures (!c.directory || f.fileName !in Names(c.children))
      ==> ChildChanges(c, f) == [Change(CopyFile, f.path)]
    ensures forall k ::
      (0 <= k < |c.children| && c.directory
        && c.children[k].fileName == f.fileName
        && (forall j :: 0 <= j < k ==> c.children[j].fileName != f.fileName))
      ==> (ChildChanges(c, f)
        == (if c.children[k].size != f.size || c.children[k].sha1 != f.sha1
            then [Change(CopyFile, f.path)] else []))
  {
    forall k | 0 <= k < |c.children| && c.directory
      && c.children[k].fileName == f.fileName
      && (forall j :: 0 <= j < k ==> c.children[j].fileName != f.fileName)
      ensures Counterpart(c, f.fileName) == Some(c.children[k])
    {
      var names := Names(c.children);
      var r := IndexOf(names, f.fileName);
      assert names[k] == f.fileName;
    }
  }

  /** A node whose siblings, at every level, have pairwise different names. */
  predicate UniqueSiblings(t: Tree)
  {
    && (forall i, j :: 0 <= i < j < |t.children| ==> t.children[i].fileName != t.children[j].fileName)
    && (forall i :: 0 <= i < |t.children| ==> UniqueSiblings(t.children[i]))
  }

  /** Nothing is removed when the target keeps every name. */
  lemma {:induction false} RemovalsNone(children: seq<Tree>, names: seq<string>)
    requires forall i :: 0 <= i < |children| ==> children[i].fileName in names
    ensures Removals(children, names) == []
    decreases |children|
  {
    if children != [] {
      RemovalsNone(children[..|children| - 1], names);
    }
  }

  /** A tree compared with itself, with unique names among siblings, needs no change. */
  lemma {:induction false} SelfDiffEmpty(t: Tree)
    requires UniqueSiblings(t)
    ensures DiffOf(Some(t), Some(t)) == []
    decreases t, 1
  {
    if t.directory {
      var names := Names(t.children);
      forall i | 0 <= i < |t.children|
        ensures t.children[i].fileName in names
      {
        assert names[i] == t.children[i].fileName;
      }
      RemovalsNone(t.children, names);
      SelfUpdatesEmpty(t, |t.children|);
    }
  }

  lemma {:induction false} SelfUpdatesEmpty(t: Tree, n: nat)
    requires UniqueSiblings(t) && t.directory && n <= |t.children|
    ensures Updates(t, t, n) == []
    decreases t, 0, n
  {
    if n > 0 {
      SelfUpdatesEmpty(t, n - 1);
      var child := t.children[n - 1];
      var names := Names(t.children);
      var r := IndexOf(names, child.fileName);
      assert names[n - 1] == child.fileName;
      assert r.value == n - 1;
      assert Counterpart(t, child.fileName) == Some(child);
      if child.directory {
        SelfDiffEmpty(child);
      }
    }
  }

  /** A file node with no children. */
  function FileNode(name: string, size: nat): Tree
  {
    Tree(name, name, false, size, 0, 0, 0, 0, 0, "", [])
  }

  /** A directory node over `children`. */
  function DirectoryNode(name: string, children: seq<Tree>): Tree
  {
    Tree(name, name, true, 0, 0, 0, 0, 0, 0, "", children)
  }

  /**
   * `{a.txt (3 bytes), b/}` against `{a.txt (5 bytes), c.txt}`: the removal
   * of `b` comes first, then the changed and the new file.
   */
  lemma RemovalsComeFirst()
    ensures DiffOf(
        Some(DirectoryNode("", [FileNode("a.txt", 3), DirectoryNode("b", [])])),
        Some(DirectoryNode("", [FileNode("a.txt", 5), FileNode("c.txt", 5)])))
      == [Change(RemoveDir, "b"), Change(CopyFile, "a.txt"), Change(CopyFile, "c.txt")]
  {
    var current := DirectoryNode("", [FileNode("a.txt", 3), DirectoryNode("b", [])]);
    var target := DirectoryNode("", [FileNode("a.txt", 5), FileNode("c.txt", 5)]);
    var targetFiles := Files(target);
    assert targetFiles == ["a.txt", "c.txt"];
    assert "b" !in targetFiles;
    assert "a.txt" in targetFiles;
    assert current.children[..1] == [FileNode("a.txt", 3)];
    assert [FileNode("a.txt", 3)][..0] == [];
    assert Removals([FileNode("a.txt", 3)], targetFiles) == [];
    assert RemovalOf(DirectoryNode("b", [])) == Change(RemoveDir, "b");
    assert Removals(current.children, targetFiles) == [Change(RemoveDir, "b")];
    var currentFiles := Files(current);
    assert currentFiles == ["a.txt", "b"];
    assert IndexOf(currentFiles, "a.txt") == Some(0);
    assert "c.txt" !in currentFiles;
    assert ChildChanges(current, FileNode("a.txt", 5)) == [Change(CopyFile, "a.txt")];
    assert ChildChanges(current, FileNode("c.txt", 5)) == [Change(CopyFile, "c.txt")];
  }

  /**
   * A current file replaced by a target directory of the same name is not
   * removed, and the directory's contents are all copied.
   */
  lemma FileReplacedByDirectory()
    ensures DiffOf(
        Some(DirectoryNode("", [FileNode("x", 1)])),
        Some(DirectoryNode("", [DirectoryNode("x", [FileNode("y", 1), DirectoryNode("z", [])])])))
      == [Change(CopyFile, "y"), Change(CopyDir, "z")]
  {
    var current := DirectoryNode("", [FileNode("x", 1)]);
    var replaced := DirectoryNode("x", [FileNode("y", 1), DirectoryNode("z", [])]);
    var target := DirectoryNode("", [replaced]);
    assert Files(target) == ["x"];
    assert Removals(current.children, Files(target)) == [];
    assert Files(current) == ["x"];
    assert IndexOf(Files(current), "x") == Some(0);
    FileAsCurrent(FileNode("x", 1), replaced);
    assert replaced.children[..1] == [FileNode("y", 1)];
    assert CopyAll(replaced.children) == [Change(CopyFile, "y"), Change(CopyDir, "z")];
    assert ChildChanges(current, replaced) == [Change(CopyFile, "y"), Change(CopyDir, "z")];
  }
}
