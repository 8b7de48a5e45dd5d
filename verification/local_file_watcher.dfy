/**
 * The Linux `LocalFileWatcher`: inotify watches registered per directory
 * (recursively by hand, since inotify watches one level), and the
 * decoding of the event records a read returns into file events for the
 * owning watcher. Paths stand for the file handles the source passes
 * around; a handle without a backend is None.
 */
module LinuxFileWatcher {
  import opened Wrappers
  import opened Host
  import opened Backend
  import opened FileEvents
  import opened FileHandles
  import FilePath
  import opened HandlePaths

  /** The inotify mask bits (`IN_*`). */
  const InModify: bv32 := 0x002
  const InAttrib: bv32 := 0x004
  const InCreate: bv32 := 0x100
  const InDelete: bv32 := 0x200

  /** `sizeof(inotify_event)`: the fixed part before each record's name. */
  const HeaderSize: nat := 16

  /** The inotify mask for a set of file events. */
  function MaskOf(events: bv32): (r: bv32)
    ensures r & InCreate != 0 <==> events & FileCreated != 0
    ensures r & InDelete != 0 <==> events & FileRemoved != 0
    ensures r & InModify != 0 <==> events & FileModified != 0
    ensures r & InAttrib != 0 <==> events & FileAttrChanged != 0
    ensures r & !(InCreate | InDelete | InModify | InAttrib) == 0
  {
    var flags: bv32 := 0;
    var flags := if events & FileCreated != 0 then flags | InCreate else flags;
    var flags := if events & FileRemoved != 0 then flags | InDelete else flags;
    var flags := if events & FileModified != 0 then flags | InModify else flags;
    if events & FileAttrChanged != 0 then flags | InAttrib else flags
  }

  /**
   * The file event of a record's mask: creation before deletion before
   * modification before an attribute change, and 0 when none is set.
   */
  function EventOf(mask: bv32): (r: bv32)
    ensures mask & InCreate != 0 ==> r == FileCreated
    ensures mask & InCreate == 0 && mask & InDelete != 0 ==> r == FileRemoved
    ensures mask & (InCreate | InDelete) == 0 && mask & InModify != 0 ==> r == FileModified
    ensures mask & (InCreate | InDelete | InModify) == 0 && mask & InAttrib != 0 ==> r == FileAttrChanged
    ensures mask & (InCreate | InDelete | InModify | InAttrib) == 0 ==> r == 0
  {
    if mask & InCreate != 0 then FileCreated
    else if mask & InDelete != 0 then FileRemoved
    else if mask & InModify != 0 then FileModified
    else if mask & InAttrib != 0 then FileAttrChanged
    else 0
  }

  /**
   * Decoding the mask a watch was registered with gives back the
   * registered event of highest precedence.
   */
  lemma EventOfMask(events: bv32)
    ensures events & FileCreated != 0 ==> EventOf(MaskOf(events)) == FileCreated
    ensures events & FileCreated == 0 && events & FileRemoved != 0 ==> EventOf(MaskOf(events)) == FileRemoved
    ensures events & (FileCreated | FileRemoved) == 0 && events & FileModified != 0 ==>
      EventOf(MaskOf(events)) == FileModified
    ensures events & (FileCreated | FileRemoved | FileModified) == 0 && events & FileAttrChanged != 0 ==>
      EventOf(MaskOf(events)) == FileAttrChanged
  {
  }

  /** A `struct timeval`. */
  datatype Timeval = Timeval(sec: int, usec: int)

  /** The conversion of a timeout in milliseconds into the timeval select waits for. */
  function TimevalOf(timeout: int): (r: Timeval)
    requires timeout >= 0
    ensures r.sec * 1000000 + r.usec == timeout * 1000
    ensures 0 <= r.usec < 1000000 && 0 <= r.sec
  {
    var sec := timeout / 1000;
    Timeval(sec, (timeout - sec * 1000) * 1000)
  }

  /** What the watcher stores for a watch descriptor: the directory, the events and the mode. */
  datatype Watcher = Watcher(dir: Option<string>, events: bv32, recursive: RecursiveMode)

  /** The entry `m_watchers[wd]` inserts for an unknown descriptor. */
  const DefaultWatcher := Watcher(None, 0, NotRecursive)

  /** One inotify record: descriptor, mask, name length (padding included) and name. */
  datatype Record = Record(wd: int, mask: bv32, len: nat, name: string)

  /** One call of the owner's onFileEvent: the handle (None without a backend) and the event. */
  datatype Delivery = Delivery(path: Option<string>, event: bv32)

  /** The descriptor `inotify_add_watch` returns for a path; -1 when it fails. */
  function HandleOf(inotify: map<string, int>, path: string): (r: int)
    ensures path in inotify ==> r == inotify[path]
    ensures path !in inotify ==> r == -1
  {
    if path in inotify then inotify[path] else -1
  }

  /** Whether a freshly opened handle on `path` is a directory. */
  predicate IsDir(host: Host, path: string)
    requires HostFits(Posix, host)
  {
    IsDirectoryOf(Posix, Filled(Posix, None, host, path))
  }

  // ------------------------------------------------------------------
  // What add registers
  // ------------------------------------------------------------------

  /**
   * Whether add on `path` returns when every directory it adds may lie at
   * most `depth` levels below: a path inotify refuses and a watch that
   * does not recurse end at once; a recursive one needs a level, and each
   * listed entry that opens as a directory must finish within one level
   * less. The code as written does not finish for every host (see
   * DriveEntryNeverAdded).
   */
  predicate AddFinishes(o: Opening, host: Host, inotify: map<string, int>, path: string, mode: RecursiveMode,
                        depth: nat)
    requires HostFits(Posix, host)
    decreases depth, 0
  {
    HandleOf(inotify, path) < 0 || mode != Recursive ||
    (depth > 0 && ListedAddFinish(o, host, inotify, path, ListingOf(Posix, path, host), mode, depth - 1))
  }

  /** The listed name `name` of `path`, once opened, is no directory or is added within `depth` levels. */
  predicate EntryAddFinishes(o: Opening, host: Host, inotify: map<string, int>, path: string, name: string,
                             mode: RecursiveMode, depth: nat)
    requires HostFits(Posix, host)
    decreases depth, 1
  {
    var child := o.open(path, name);
    !IsDir(host, child) || AddFinishes(o, host, inotify, child, mode, depth)
  }

  /** Every name of `names` listed in `path` finishes within `depth` levels. */
  predicate ListedAddFinish(o: Opening, host: Host, inotify: map<string, int>, path: string, names: seq<string>,
                            mode: RecursiveMode, depth: nat)
    requires HostFits(Posix, host)
    decreases depth, 2
  {
    forall i :: 0 <= i < |names| ==> EntryAddFinishes(o, host, inotify, path, names[i], mode, depth)
  }

  /**
   * The watch table after `add(dir, events, recursive)` on `path`: nothing
   * when inotify refuses the path; otherwise, for a recursive watch, the
   * registrations of the listed entries that open as directories first,
   * and then the entry for the path's own descriptor.
   */
  function Registered(o: Opening, host: Host, inotify: map<string, int>, path: string, events: bv32,
                      mode: RecursiveMode, watchers: map<int, Watcher>, depth: nat): (r: map<int, Watcher>)
    requires HostFits(Posix, host) && AddFinishes(o, host, inotify, path, mode, depth)
    ensures watchers.Keys <= r.Keys
    decreases depth, 3
  {
    var handle := HandleOf(inotify, path);
    if handle < 0 then watchers
    else
      var below :=
        if mode == Recursive then ListedRegistered(o, host, inotify, path, events, mode, watchers, depth - 1)
        else watchers;
      below[handle := Watcher(Some(path), events, mode)]
  }

  /** The registrations the entries of the directory `path` make, in listing order. */
  function ListedRegistered(o: Opening, host: Host, inotify: map<string, int>, path: string, events: bv32,
                            mode: RecursiveMode, watchers: map<int, Watcher>, depth: nat): (r: map<int, Watcher>)
    requires HostFits(Posix, host) && ListedAddFinish(o, host, inotify, path, ListingOf(Posix, path, host), mode, depth)
    ensures watchers.Keys <= r.Keys
    decreases depth + 1, 2
  {
    EntriesRegistered(o, host, inotify, path, ListingOf(Posix, path, host), events, mode, watchers, depth)
  }

  /** The registrations of the entries among `names`, the last name last. */
  function EntriesRegistered(o: Opening, host: Host, inotify: map<string, int>, path: string, names: seq<string>,
                             events: bv32, mode: RecursiveMode, watchers: map<int, Watcher>, depth: nat)
    : (r: map<int, Watcher>)
    requires HostFits(Posix, host) && ListedAddFinish(o, host, inotify, path, names, mode, depth)
    ensures watchers.Keys <= r.Keys
    decreases depth + 1, 1, |names|
  {
    if names == [] then watchers
    else
      var before := EntriesRegistered(o, host, inotify, path, names[..|names| - 1], events, mode, watchers, depth);
      EntryRegistered(o, host, inotify, path, names[|names| - 1], events, mode, before, depth)
  }

  /** The registration one entry makes: its subtree's when it opens as a directory, none otherwise. */
  function EntryRegistered(o: Opening, host: Host, inotify: map<string, int>, path: string, name: string,
                           events: bv32, mode: RecursiveMode, watchers: map<int, Watcher>, depth: nat)
    : (r: map<int, Watcher>)
    requires HostFits(Posix, host) && EntryAddFinishes(o, host, inotify, path, name, mode, depth)
    ensures watchers.Keys <= r.Keys
    decreases depth + 1, 0
  {
    var child := o.open(path, name);
    if !IsDir(host, child) then watchers
    else Registered(o, host, inotify, child, events, mode, watchers, depth)
  }

  /** The registrations of the first `i + 1` names: those of the first `i`, then the next entry's. */
  lemma EntriesStep(o: Opening, host: Host, inotify: map<string, int>, path: string, names: seq<string>, i: nat,
                    events: bv32, mode: RecursiveMode, watchers: map<int, Watcher>, depth: nat)
    requires HostFits(Posix, host) && i < |names|
    requires ListedAddFinish(o, host, inotify, path, names, mode, depth)
    ensures ListedAddFinish(o, host, inotify, path, names[..i], mode, depth)
    ensures ListedAddFinish(o, host, inotify, path, names[..i + 1], mode, depth)
    ensures EntryAddFinishes(o, host, inotify, path, names[i], mode, depth)
    ensures EntriesRegistered(o, host, inotify, path, names[..i + 1], events, mode, watchers, depth) ==
      EntryRegistered(o, host, inotify, path, names[i], events, mode,
        EntriesRegistered(o, host, inotify, path, names[..i], events, mode, watchers, depth), depth)
  {
    assert forall j :: 0 <= j <= i ==> names[..i + 1][j] == names[j];
    assert names[..i + 1][..i] == names[..i];
  }

  /** An entry that add stores: a directory with the add's events and mode. */
  predicate Stored(host: Host, w: Watcher, path: string, events: bv32, mode: RecursiveMode)
    requires HostFits(Posix, host)
  {
    w.dir.Some? && (w.dir.value == path || IsDir(host, w.dir.value)) &&
    w.events == events && w.recursive == mode
  }

  /**
   * add keeps every descriptor already watched, and every entry it adds
   * or overwrites is the directory itself or a directory below it, with
   * the add's events and mode.
   */
  predicate Extends(host: Host, after: map<int, Watcher>, before: map<int, Watcher>, path: string,
                    events: bv32, mode: RecursiveMode)
    requires HostFits(Posix, host)
  {
    before.Keys <= after.Keys &&
    forall k :: k in after && (k !in before || after[k] != before[k]) ==> Stored(host, after[k], path, events, mode)
  }

  lemma {:induction false} RegisteredExtends(o: Opening, host: Host, inotify: map<string, int>, path: string,
                                             events: bv32, mode: RecursiveMode, watchers: map<int, Watcher>,
                                             depth: nat)
    requires HostFits(Posix, host) && AddFinishes(o, host, inotify, path, mode, depth)
    ensures Extends(host, Registered(o, host, inotify, path, events, mode, watchers, depth), watchers, path,
                    events, mode)
    decreases depth, 3
  {
    var handle := HandleOf(inotify, path);
    if handle >= 0 && mode == Recursive {
      ListedExtends(o, host, inotify, path, events, mode, watchers, depth - 1);
    }
  }

  lemma {:induction false} ListedExtends(o: Opening, host: Host, inotify: map<string, int>, path: string,
                                         events: bv32, mode: RecursiveMode, watchers: map<int, Watcher>, depth: nat)
    requires HostFits(Posix, host) && ListedAddFinish(o, host, inotify, path, ListingOf(Posix, path, host), mode, depth)
    ensures Extends(host, ListedRegistered(o, host, inotify, path, events, mode, watchers, depth), watchers, path,
                    events, mode)
    decreases depth + 1, 2
  {
    EntriesExtend(o, host, inotify, path, ListingOf(Posix, path, host), events, mode, watchers, depth);
  }

  lemma {:induction false} EntriesExtend(o: Opening, host: Host, inotify: map<string, int>, path: string,
                                         names: seq<string>, events: bv32, mode: RecursiveMode,
                                         watchers: map<int, Watcher>, depth: nat)
    requires HostFits(Posix, host) && ListedAddFinish(o, host, inotify, path, names, mode, depth)
    ensures Extends(host, EntriesRegistered(o, host, inotify, path, names, events, mode, watchers, depth), watchers,
                    path, events, mode)
    decreases depth + 1, 1, |names|
  {
    if names != [] {
      var i := |names| - 1;
      EntriesStep(o, host, inotify, path, names, i, events, mode, watchers, depth);
      assert names[..i + 1] == names;
      var before := EntriesRegistered(o, host, inotify, path, names[..i], events, mode, watchers, depth);
      EntriesExtend(o, host, inotify, path, names[..i], events, mode, watchers, depth);
      EntryExtends(o, host, inotify, path, names[i], events, mode, before, depth);
      var after := EntryRegistered(o, host, inotify, path, names[i], events, mode, before, depth);
      forall k | k in after && (k !in watchers || after[k] != watchers[k])
        ensures Stored(host, after[k], path, events, mode)
      {
        if k in before && after[k] == before[k] {
        } else {
          assert Stored(host, after[k], path, events, mode);
        }
      }
    }
  }

  lemma {:induction false} EntryExtends(o: Opening, host: Host, inotify: map<string, int>, path: string,
                                        name: string, events: bv32, mode: RecursiveMode, watchers: map<int, Watcher>,
                                        depth: nat)
    requires HostFits(Posix, host) && EntryAddFinishes(o, host, inotify, path, name, mode, depth)
    ensures Extends(host, EntryRegistered(o, host, inotify, path, name, events, mode, watchers, depth), watchers,
                    path, events, mode)
    decreases depth + 1, 0
  {
    var child := o.open(path, name);
    if IsDir(host, child) {
      RegisteredExtends(o, host, inotify, child, events, mode, watchers, depth);
      var after := Registered(o, host, inotify, child, events, mode, watchers, depth);
      forall k | k in after && (k !in watchers || after[k] != watchers[k])
        ensures Stored(host, after[k], path, events, mode)
      {
        assert Stored(host, after[k], child, events, mode);
      }
    }
  }

  /** A watch that does not recurse finishes at once and registers the path's own descriptor and nothing else. */
  lemma NotRecursiveRegistersOne(o: Opening, host: Host, inotify: map<string, int>, path: string, events: bv32,
                                 watchers: map<int, Watcher>)
    requires HostFits(Posix, host)
    ensures AddFinishes(o, host, inotify, path, NotRecursive, 0)
    ensures var r := Registered(o, host, inotify, path, events, NotRecursive, watchers, 0);
      if path in inotify && inotify[path] >= 0 then r == watchers[inotify[path] := Watcher(Some(path), events, NotRecursive)]
      else r == watchers
  {
  }

  /** The path's own entry is stored last, so it wins over any subdirectory with the same descriptor. */
  lemma RegisteredStoresPath(o: Opening, host: Host, inotify: map<string, int>, path: string, events: bv32,
                             mode: RecursiveMode, watchers: map<int, Watcher>, depth: nat)
    requires HostFits(Posix, host) && AddFinishes(o, host, inotify, path, mode, depth)
    requires path in inotify && inotify[path] >= 0
    ensures Registered(o, host, inotify, path, events, mode, watchers, depth)[inotify[path]] ==
      Watcher(Some(path), events, mode)
  {
  }

  /**
   * The registrations do not depend on the bound: any two depths within
   * which add finishes give the same watch table.
   */
  lemma {:induction false} RegisteredAnyDepth(o: Opening, host: Host, inotify: map<string, int>, path: string,
                                              events: bv32, mode: RecursiveMode, watchers: map<int, Watcher>,
                                              d1: nat, d2: nat)
    requires HostFits(Posix, host)
    requires AddFinishes(o, host, inotify, path, mode, d1) && AddFinishes(o, host, inotify, path, mode, d2)
    ensures Registered(o, host, inotify, path, events, mode, watchers, d1) ==
      Registered(o, host, inotify, path, events, mode, watchers, d2)
    decreases d1, 3
  {
    if HandleOf(inotify, path) >= 0 && mode == Recursive {
      EntriesAnyDepth(o, host, inotify, path, ListingOf(Posix, path, host), events, mode, watchers, d1 - 1, d2 - 1);
    }
  }

  lemma {:induction false} EntriesAnyDepth(o: Opening, host: Host, inotify: map<string, int>, path: string,
                                           names: seq<string>, events: bv32, mode: RecursiveMode,
                                           watchers: map<int, Watcher>, d1: nat, d2: nat)
    requires HostFits(Posix, host)
    requires ListedAddFinish(o, host, inotify, path, names, mode, d1)
    requires ListedAddFinish(o, host, inotify, path, names, mode, d2)
    ensures EntriesRegistered(o, host, inotify, path, names, events, mode, watchers, d1) ==
      EntriesRegistered(o, host, inotify, path, names, events, mode, watchers, d2)
    decreases d1 + 1, 1, |names|
  {
    if names != [] {
      var i := |names| - 1;
      EntriesStep(o, host, inotify, path, names, i, events, mode, watchers, d1);
      EntriesStep(o, host, inotify, path, names, i, events, mode, watchers, d2);
      assert names[..i + 1] == names;
      EntriesAnyDepth(o, host, inotify, path, names[..i], events, mode, watchers, d1, d2);
      var before := EntriesRegistered(o, host, inotify, path, names[..i], events, mode, watchers, d1);
      var child := o.open(path, names[i]);
      if IsDir(host, child) {
        RegisteredAnyDepth(o, host, inotify, child, events, mode, before, d1, d2);
      }
    }
  }

  /**
   * An add whose every opened entry lies below its directory finishes: a
   * depth beyond the number of paths longer than the start suffices.
   */
  lemma {:induction false} DescendingAddFinishes(o: Opening, host: Host, inotify: map<string, int>, path: string,
                                                 mode: RecursiveMode, depth: nat)
    requires HostFits(Posix, host) && OpensBelow(o, host)
    requires |Above(host, path)| < depth
    ensures AddFinishes(o, host, inotify, path, mode, depth)
    decreases Above(host, path)
  {
    if HandleOf(inotify, path) >= 0 && mode == Recursive {
      var l := ListingOf(Posix, path, host);
      forall i | 0 <= i < |l|
        ensures EntryAddFinishes(o, host, inotify, path, l[i], mode, depth - 1)
      {
        var child := o.open(path, l[i]);
        ListedFromHost(Posix, path, host, l[i]);
        if IsDir(host, child) {
          FilledFromHost(Posix, None, host, child);
          Deeper(host, path, child);
          DescendingAddFinishes(o, host, inotify, child, mode, depth - 1);
        }
      }
    }
  }

  /**
   * add as written finishes on every host whose listings hold plain entry
   * names only, and the joining add on every host whose names are not
   * empty.
   */
  lemma AddsFinish(host: Host, inotify: map<string, int>, path: string, mode: RecursiveMode)
    requires HostFits(Posix, host)
    ensures EntryNames(host) ==> AddFinishes(Resolving, host, inotify, path, mode, |Above(host, path)| + 1)
    ensures NonEmptyNames(host) ==> AddFinishes(Joining, host, inotify, path, mode, |Above(host, path)| + 1)
  {
    if EntryNames(host) {
      EntryNamesOpenBelow(host);
      DescendingAddFinishes(Resolving, host, inotify, path, mode, |Above(host, path)| + 1);
    }
    if NonEmptyNames(host) {
      JoinedNamesOpenBelow(host);
      DescendingAddFinishes(Joining, host, inotify, path, mode, |Above(host, path)| + 1);
    }
  }

  /** An opening that takes the entry `c:` of `c:/` back to `c:/` never finishes a recursive add there. */
  lemma {:induction false} NeverAdded(o: Opening, inotify: map<string, int>, depth: nat)
    requires "c:/" in inotify && inotify["c:/"] >= 0
    requires o.open("c:/", "c:") == "c:/"
    ensures !AddFinishes(o, LoopHost(), inotify, "c:/", Recursive, depth)
    decreases depth
  {
    LoopListing();
    if depth > 0 {
      NeverAdded(o, inotify, depth - 1);
      assert !EntryAddFinishes(o, LoopHost(), inotify, "c:/", ["c:"][0], Recursive, depth - 1);
    }
  }

  /**
   * As written, a recursive add never returns on a POSIX directory `c:/`
   * that lists an entry `c:` and that inotify accepts: `open("c:")`
   * resolves the drive-like name to `c:/` again, which is a directory, and
   * add starts over. Joining the name below the directory instead
   * finishes at once.
   */
  lemma DriveEntryNeverAdded(inotify: map<string, int>, depth: nat)
    requires "c:/" in inotify && inotify["c:/"] >= 0
    ensures !AddFinishes(Resolving, LoopHost(), inotify, "c:/", Recursive, depth)
    ensures AddFinishes(Joining, LoopHost(), inotify, "c:/", Recursive, 1)
  {
    DriveOpensItself("c:/", "c:");
    NeverAdded(Resolving, inotify, depth);
    JoinedLoopHostAdded(inotify);
  }

  /** The joining add on LoopHost stops at `c:/c:`, which does not exist. */
  lemma JoinedLoopHostAdded(inotify: map<string, int>)
    ensures AddFinishes(Joining, LoopHost(), inotify, "c:/", Recursive, 1)
  {
    var host := LoopHost();
    LoopListing();
    EntryPathLonger("c:/", "c:");
    assert EntryPath("c:/", "c:") !in host.stat;
    assert EntryAddFinishes(Joining, host, inotify, "c:/", ["c:"][0], Recursive, 0);
  }

  // ------------------------------------------------------------------
  // What watch delivers
  // ------------------------------------------------------------------

  /** The watch table and the events delivered so far. */
  datatype Outcome = Outcome(watchers: map<int, Watcher>, delivered: seq<Delivery>)

  /** `m_watchers[wd]`: the stored entry, or the default one inserted for an unknown descriptor. */
  function WatcherOf(watchers: map<int, Watcher>, wd: int): (w: Watcher)
    ensures wd in watchers ==> w == watchers[wd]
    ensures wd !in watchers ==> w == DefaultWatcher
  {
    if wd in watchers then watchers[wd] else DefaultWatcher
  }

  /** `watcher.dir.open(name)`: the handle of the name below the watched directory, none without a directory. */
  function HandleFor(w: Watcher, name: string): (r: Option<string>)
    ensures r.Some? <==> w.dir.Some?
    ensures w.dir.Some? ==> r.value == OpenTarget(w.dir.value, name)
  {
    if w.dir.Some? then Some(OpenTarget(w.dir.value, name)) else None
  }

  /** Whether a record adds a watch: a directory created under a recursive watch. */
  predicate Adds(host: Host, w: Watcher, rec: Record)
    requires HostFits(Posix, host)
  {
    var fh := HandleFor(w, rec.name);
    fh.Some? && IsDir(host, fh.value) && EventOf(rec.mask) == FileCreated && w.recursive == Recursive
  }

  /** The add a record makes, if any, finishes within `depth` levels. */
  predicate StepFinishes(host: Host, inotify: map<string, int>, out: Outcome, rec: Record, depth: nat)
    requires HostFits(Posix, host)
  {
    var w := WatcherOf(out.watchers, rec.wd);
    rec.len == 0 || !Adds(host, w, rec) ||
    AddFinishes(Resolving, host, inotify, HandleFor(w, rec.name).value, w.recursive, depth)
  }

  /**
   * One record: skipped when its name is empty; otherwise its event, the
   * watcher of its descriptor (a default one is inserted when unknown),
   * the handle its directory opens for the name, a recursive
   * registration when a directory was created under a recursive watch,
   * and then the delivery.
   */
  function Step(host: Host, inotify: map<string, int>, out: Outcome, rec: Record, depth: nat): (r: Outcome)
    requires HostFits(Posix, host) && StepFinishes(host, inotify, out, rec, depth)
    ensures rec.len == 0 ==> r == out
    ensures rec.len > 0 ==> rec.wd in r.watchers && |r.delivered| == |out.delivered| + 1
    ensures rec.len > 0 ==> r.delivered[|out.delivered|].event == EventOf(rec.mask)
    ensures rec.len > 0 && rec.wd !in out.watchers ==> r.delivered[|out.delivered|].path == None
    ensures r.delivered[..|out.delivered|] == out.delivered
  {
    if rec.len == 0 then out
    else
      var event := EventOf(rec.mask);
      var watcher := WatcherOf(out.watchers, rec.wd);
      var table := out.watchers[rec.wd := watcher];
      var fh := HandleFor(watcher, rec.name);
      var table :=
        if Adds(host, watcher, rec) then Registered(Resolving, host, inotify, fh.value, watcher.events, watcher.recursive, table, depth)
        else table;
      Outcome(table, out.delivered + [Delivery(fh, event)])
  }

  /** Every record's add finishes within `depth` levels, once the records before it are decoded. */
  predicate ProcessFinishes(host: Host, inotify: map<string, int>, out: Outcome, records: seq<Record>, depth: nat)
    requires HostFits(Posix, host)
    decreases |records|, 0
  {
    records == [] ||
    (ProcessFinishes(host, inotify, out, records[..|records| - 1], depth) &&
     StepFinishes(host, inotify, Process(host, inotify, out, records[..|records| - 1], depth), records[|records| - 1], depth))
  }

  /** The records decoded in order. */
  function Process(host: Host, inotify: map<string, int>, out: Outcome, records: seq<Record>, depth: nat): (r: Outcome)
    requires HostFits(Posix, host) && ProcessFinishes(host, inotify, out, records, depth)
    decreases |records|, 1
  {
    if records == [] then out
    else
      Step(host, inotify, Process(host, inotify, out, records[..|records| - 1], depth), records[|records| - 1], depth)
  }

  /** Decoding the first `k + 1` records decodes the first `k`, then record `k`. */
  lemma {:induction false} ProcessPrefix(host: Host, inotify: map<string, int>, out: Outcome, records: seq<Record>,
                                         k: nat, depth: nat)
    requires HostFits(Posix, host) && k < |records|
    requires ProcessFinishes(host, inotify, out, records, depth)
    ensures ProcessFinishes(host, inotify, out, records[..k], depth)
    ensures StepFinishes(host, inotify, Process(host, inotify, out, records[..k], depth), records[k], depth)
    ensures ProcessFinishes(host, inotify, out, records[..k + 1], depth)
    ensures Process(host, inotify, out, records[..k + 1], depth) ==
      Step(host, inotify, Process(host, inotify, out, records[..k], depth), records[k], depth)
    decreases |records|
  {
    var front := records[..|records| - 1];
    if k == |records| - 1 {
      assert records[..k] == front;
      assert records[..k + 1] == records;
    } else {
      ProcessPrefix(host, inotify, out, front, k, depth);
      assert front[..k] == records[..k];
      assert front[..k + 1] == records[..k + 1];
    }
  }

  /** How many records carry a name. */
  function Named(records: seq<Record>): nat
  {
    if records == [] then 0 else Named(records[..|records| - 1]) + (if records[|records| - 1].len > 0 then 1 else 0)
  }

  /** Bytes taken by the records: each one's header and name. */
  function Span(records: seq<Record>): nat
  {
    if records == [] then 0 else Span(records[..|records| - 1]) + HeaderSize + records[|records| - 1].len
  }

  /**
   * Every record with a name is delivered once, in buffer order, after
   * what was delivered before; records without a name are skipped.
   */
  lemma {:induction false} ProcessDelivers(host: Host, inotify: map<string, int>, out: Outcome, records: seq<Record>,
                                           depth: nat)
    requires HostFits(Posix, host) && ProcessFinishes(host, inotify, out, records, depth)
    ensures var r := Process(host, inotify, out, records, depth);
      |r.delivered| == |out.delivered| + Named(records) && r.delivered[..|out.delivered|] == out.delivered
    decreases |records|
  {
    if records != [] {
      var front := records[..|records| - 1];
      ProcessDelivers(host, inotify, out, front, depth);
      var mid := Process(host, inotify, out, front, depth);
      var r := Step(host, inotify, mid, records[|records| - 1], depth);
      assert r.delivered[..|mid.delivered|] == mid.delivered;
      assert r.delivered[..|out.delivered|] == mid.delivered[..|out.delivered|];
    }
  }

  // ------------------------------------------------------------------
  // The backend
  // ------------------------------------------------------------------

  class LocalFileWatcher {
    /** The file system that created the watcher. */
    const fs: FileSystem
    /** The descriptors the inotify instance hands out, per path. */
    const inotify: map<string, int>
    /** `m_watchers`: descriptor to watch entry. */
    var watchers: map<int, Watcher>
    /** `m_fileWatcher`: the watcher that owns this backend. */
    var owner: object?

    constructor (owner: object?, fs: FileSystem, inotify: map<string, int>)
      requires fs.platform == Posix
      ensures this.owner == owner && this.fs == fs && this.inotify == inotify && watchers == map[]
    {
      this.fs := fs;
      this.inotify := inotify;
      this.owner := owner;
      watchers := map[];
    }

    /**
     * `add`: the watch is created with the events' mask; a refused path
     * changes nothing; a recursive watch first adds every listed entry
     * that opens as a directory, and then the entry is stored. The
     * recursion must finish within `depth` levels, which the code as
     * written does not promise (see DriveEntryNeverAdded); `o` stands for
     * the handle's `open` (see OpensAsWritten).
     */
    method Add(path: string, events: bv32, mode: RecursiveMode, host: Host, ghost depth: nat, ghost o: Opening)
      requires OpensAsWritten(o)
      requires HostFits(Posix, host) && AddFinishes(o, host, inotify, path, mode, depth)
      modifies this
      ensures watchers == Registered(o, host, inotify, path, events, mode, old(watchers), depth)
      ensures owner == old(owner)
      decreases depth, 3
    {
      var handle := HandleOf(inotify, path);
      if handle < 0 {
        return;
      }
      if mode == Recursive {
        AddListed(path, events, mode, host, depth - 1, o);
      }
      watchers := watchers[handle := Watcher(Some(path), events, mode)];
    }

    /** The loop of a recursive add over the directory's entries. */
    method AddListed(path: string, events: bv32, mode: RecursiveMode, host: Host, ghost depth: nat, ghost o: Opening)
      requires OpensAsWritten(o)
      requires HostFits(Posix, host) && ListedAddFinish(o, host, inotify, path, ListingOf(Posix, path, host), mode, depth)
      modifies this
      ensures watchers == ListedRegistered(o, host, inotify, path, events, mode, old(watchers), depth)
      ensures owner == old(owner)
      decreases depth + 1, 2
    {
      var names := ListingOf(Posix, path, host);
      var i := 0;
      while i < |names|
        invariant 0 <= i <= |names|
        invariant ListedAddFinish(o, host, inotify, path, names[..i], mode, depth)
        invariant watchers == EntriesRegistered(o, host, inotify, path, names[..i], events, mode, old(watchers), depth)
        invariant owner == old(owner)
      {
        EntriesStep(o, host, inotify, path, names, i, events, mode, old(watchers), depth);
        AddEntry(path, names[i], events, mode, host, depth, o);
        i := i + 1;
      }
      assert names[..i] == names;
    }

    /** One turn of that loop: the entry is opened, and added when it is a directory. */
    method AddEntry(path: string, name: string, events: bv32, mode: RecursiveMode, host: Host, ghost depth: nat,
                    ghost o: Opening)
      requires OpensAsWritten(o)
      requires HostFits(Posix, host) && EntryAddFinishes(o, host, inotify, path, name, mode, depth)
      modifies this
      ensures watchers == EntryRegistered(o, host, inotify, path, name, events, mode, old(watchers), depth)
      ensures owner == old(owner)
      decreases depth + 1, 1
    {
      var child := OpenTarget(path, name);
      if IsDir(host, child) {
        Add(child, events, mode, host, depth, o);
      }
    }

    /**
     * `watch`: for a timeout of at least 0, a select that reports nothing
     * ready (`ready <= 0`) ends the call; a failed read (`records` None)
     * ends it too; otherwise the records are decoded in buffer order and
     * each one with a name is delivered. The adds the records make must
     * finish within `depth` levels.
     */
    method Watch(timeout: int, ready: int, records: Option<seq<Record>>, host: Host, ghost depth: nat)
      returns (delivered: seq<Delivery>)
      requires HostFits(Posix, host)
      requires !((timeout >= 0 && ready <= 0) || records.None?) ==>
        ProcessFinishes(host, inotify, Outcome(watchers, []), records.value, depth)
      modifies this
      ensures (timeout >= 0 && ready <= 0) || records.None? ==>
        delivered == [] && watchers == old(watchers)
      ensures !((timeout >= 0 && ready <= 0) || records.None?) ==>
        Outcome(watchers, delivered) == Process(host, inotify, Outcome(old(watchers), []), records.value, depth)
      ensures owner == old(owner)
    {
      delivered := [];
      if timeout >= 0 {
        var tval := TimevalOf(timeout);
        if ready <= 0 {
          return;
        }
      }
      if records.None? {
        return;
      }
      var recs := records.value;
      var size := Span(recs);
      var offset := 0;
      var k := 0;
      ResolvingOpensAsWritten();
      while offset < size
        invariant 0 <= k <= |recs|
        invariant offset == Span(recs[..k])
        invariant ProcessFinishes(host, inotify, Outcome(old(watchers), []), recs[..k], depth)
        invariant Outcome(watchers, delivered) == Process(host, inotify, Outcome(old(watchers), []), recs[..k], depth)
        invariant owner == old(owner)
        decreases size - offset
      {
        SpanGrows(recs, k);
        ProcessPrefix(host, inotify, Outcome(old(watchers), []), recs, k, depth);
        var rec := recs[k];
        if rec.len > 0 {
          var event := EventOf(rec.mask);
          var watcher := WatcherOf(watchers, rec.wd);
          watchers := watchers[rec.wd := watcher];
          var fh := HandleFor(watcher, rec.name);
          if fh.Some? && IsDir(host, fh.value) && event == FileCreated && watcher.recursive == Recursive {
            Add(fh.value, watcher.events, watcher.recursive, host, depth, Resolving);
          }
          delivered := delivered + [Delivery(fh, event)];
        }
        offset := offset + HeaderSize + rec.len;
        k := k + 1;
      }
      SpanGrows(recs, k);
      assert recs[..k] == recs;
    }
  }

  /** The byte offset of a record lies before the end of the buffer exactly while records remain. */
  lemma SpanGrows(records: seq<Record>, k: nat)
    requires k <= |records|
    ensures k < |records| ==> Span(records[..k]) < Span(records) && Span(records[..k + 1]) == Span(records[..k]) + HeaderSize + records[k].len
    ensures k == |records| ==> Span(records[..k]) == Span(records)
  {
    if k < |records| {
      assert records[..k + 1][..k] == records[..k];
      SpanMonotone(records, k + 1);
    } else {
      assert records[..k] == records;
    }
  }

  lemma {:induction false} SpanMonotone(records: seq<Record>, k: nat)
    requires k <= |records|
    ensures Span(records[..k]) <= Span(records)
    decreases |records| - k
  {
    if k < |records| {
      assert records[..k + 1][..k] == records[..k];
      SpanMonotone(records, k + 1);
    } else {
      assert records[..k] == records;
    }
  }
}
