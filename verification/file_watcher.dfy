/**
 * `FileWatcher`: the front end a program holds. It owns the backend a
 * file system creates for it (here the Linux one, or none), keeps the list
 * of event handlers to call (no handler twice), owns the handlers it wraps
 * around callbacks, and fans every event the backend delivers out to the
 * handlers in the order they were registered.
 */
module FileWatchers {
  import opened Wrappers
  import opened Host
  import opened Backend
  import opened FileEvents
  import opened FileHandles
  import opened LinuxFileWatcher

  /** No element occurs twice. */
  predicate Distinct<T(==)>(s: seq<T>)
  {
    forall i, j :: 0 <= i < j < |s| ==> s[i] != s[j]
  }

  /** The list with the first occurrence of `x` erased (`std::find` then `erase`). */
  function Without<T(==)>(s: seq<T>, x: T): (r: seq<T>)
    ensures x !in s ==> r == s
    ensures x in s ==> |r| == |s| - 1
    ensures forall y :: y in r ==> y in s
  {
    if s == [] then []
    else if s[0] == x then s[1..]
    else [s[0]] + Without(s[1..], x)
  }

  /** Erasing the first occurrence is cutting it out at its index. */
  lemma {:induction false} WithoutAt<T>(s: seq<T>, x: T, i: nat)
    requires i < |s| && s[i] == x && forall j :: 0 <= j < i ==> s[j] != x
    ensures Without(s, x) == s[..i] + s[i + 1..]
    decreases i
  {
    if i > 0 {
      WithoutAt(s[1..], x, i - 1);
      assert s[1..][..i - 1] == s[1..i];
      assert s[1..][i..] == s[i + 1..];
      assert s[..i] == [s[0]] + s[1..i];
    }
  }

  /**
   * In a list without duplicates, erasing a handler removes exactly that
   * handler, keeps every other one and keeps the list free of duplicates.
   */
  lemma {:induction false} WithoutDistinct<T>(s: seq<T>, x: T)
    requires Distinct(s)
    ensures Distinct(Without(s, x)) && x !in Without(s, x)
    ensures forall y :: y in Without(s, x) <==> y in s && y != x
  {
    if s != [] {
      assert forall j :: 0 < j < |s| ==> s[j] != s[0];
      if s[0] != x {
        assert Distinct(s[1..]) by {
          forall i, j | 0 <= i < j < |s[1..]|
            ensures s[1..][i] != s[1..][j]
          {
            assert s[1..][i] == s[i + 1] && s[1..][j] == s[j + 1];
          }
        }
        WithoutDistinct(s[1..], x);
        var rest := Without(s[1..], x);
        assert s[0] !in rest by {
          assert s[0] !in s[1..];
        }
        assert Without(s, x) == [s[0]] + rest;
        forall i, j | 0 <= i < j < |[s[0]] + rest|
          ensures ([s[0]] + rest)[i] != ([s[0]] + rest)[j]
        {
          if i == 0 {
            assert ([s[0]] + rest)[j] == rest[j - 1];
          } else {
            assert ([s[0]] + rest)[i] == rest[i - 1] && ([s[0]] + rest)[j] == rest[j - 1];
          }
        }
      } else {
        assert s[0] !in s[1..];
        forall i, j | 0 <= i < j < |s[1..]|
          ensures s[1..][i] != s[1..][j]
        {
          assert s[1..][i] == s[i + 1] && s[1..][j] == s[j + 1];
        }
      }
    }
  }

  /** One handler call: the handler, the file handle's path (None for an empty handle) and what ran. */
  datatype Call = Call(handler: FileEventHandler, path: Option<string>, hook: Hook)

  /** The calls one event makes: every handler once, in list order. */
  function Round(handlers: seq<FileEventHandler>, path: Option<string>, event: bv32): (r: seq<Call>)
    ensures |r| == |handlers|
    ensures forall i :: 0 <= i < |r| ==> r[i].handler == handlers[i] && r[i].path == path
    ensures forall i :: 0 <= i < |r| ==> r[i].hook == handlers[i].OnFileEvent(event)
  {
    if handlers == [] then []
    else
      var last := handlers[|handlers| - 1];
      Round(handlers[..|handlers| - 1], path, event) + [Call(last, path, last.OnFileEvent(event))]
  }

  /** The calls a run of deliveries makes, one round per delivery, in delivery order. */
  function Notified(handlers: seq<FileEventHandler>, deliveries: seq<Delivery>): (r: seq<Call>)
    ensures |r| == |deliveries| * |handlers|
  {
    if deliveries == [] then []
    else
      var last := deliveries[|deliveries| - 1];
      Notified(handlers, deliveries[..|deliveries| - 1]) + Round(handlers, last.path, last.event)
  }

  /** The calls come delivery by delivery, and within one delivery handler by handler. */
  lemma {:induction false} NotifiedEach(handlers: seq<FileEventHandler>, deliveries: seq<Delivery>, k: nat, j: nat)
    requires k < |deliveries| && j < |handlers|
    ensures k * |handlers| + j < |Notified(handlers, deliveries)|
    ensures Notified(handlers, deliveries)[k * |handlers| + j] ==
      Call(handlers[j], deliveries[k].path, handlers[j].OnFileEvent(deliveries[k].event))
    decreases |deliveries|
  {
    var front := deliveries[..|deliveries| - 1];
    var n := |handlers|;
    var last := deliveries[|deliveries| - 1];
    var a := Notified(handlers, front);
    assert Notified(handlers, deliveries) == a + Round(handlers, last.path, last.event);
    MulLess(k, |deliveries|, n, j);
    if k < |front| {
      NotifiedEach(handlers, front, k, j);
      MulLess(k, |front|, n, j);
      assert deliveries[k] == front[k];
    } else {
      assert k * n == |a|;
    }
  }

  /** Row `k` of `m` rows of width `n`, at column `j`, lies inside the table. */
  lemma MulLess(k: nat, m: nat, n: nat, j: nat)
    requires k < m && j < n
    ensures k * n + j < m * n
  {
    assert (k + 1) * n == k * n + n;
    MulMonotone(k + 1, m, n);
  }

  lemma {:induction false} MulMonotone(a: nat, b: nat, n: nat)
    requires a <= b
    ensures a * n <= b * n
    decreases b - a
  {
    if a < b {
      MulMonotone(a, b - 1, n);
      assert b * n == (b - 1) * n + n;
    }
  }

  class FileWatcher {
    /** `m_backend`: the Linux backend, or none. */
    var backend: LocalFileWatcher?
    /** `m_eventHandlers`: the handlers called on each event, in registration order. */
    var handlers: seq<FileEventHandler>
    /** `m_ownEventHandlers`: the callback wrappers this watcher created. */
    var owned: seq<FileEventHandler>

    /** No handler is registered twice, and the backend reports to this watcher. */
    ghost predicate Valid()
      reads this, backend
    {
      Distinct(handlers) && (backend != null ==> backend.owner == this)
    }

    /**
     * `FileWatcher(fs)`: the file system creates the backend. A local
     * file system on Linux creates the inotify backend; an SSH file system
     * creates none, and so does no file system at all.
     */
    constructor (fs: Option<FileSystem>, inotify: map<string, int>)
      ensures Valid() && handlers == [] && owned == []
      ensures backend != null <==> fs.Some? && fs.value.platform == Posix
      ensures backend != null ==> fresh(backend) && backend.fs == fs.value && backend.inotify == inotify
      ensures backend != null ==> backend.watchers == map[]
    {
      backend := null;
      handlers := [];
      owned := [];
      new;
      if fs.Some? && fs.value.platform == Posix {
        backend := new LocalFileWatcher(this, fs.value, inotify);
      }
    }

    /**
     * The move constructor: the backend and both lists change owner, and
     * the backend is told that it now reports to the new watcher.
     */
    constructor MovedFrom(other: FileWatcher)
      requires other.Valid()
      modifies other, other.backend
      ensures Valid()
      ensures backend == old(other.backend) && handlers == old(other.handlers) && owned == old(other.owned)
      ensures other.backend == null && other.handlers == [] && other.owned == []
    {
      backend := other.backend;
      handlers := other.handlers;
      owned := other.owned;
      new;
      other.backend, other.handlers, other.owned := null, [], [];
      if backend != null {
        backend.owner := this;
      }
    }

    /**
     * The move assignment: as the move constructor, dropping what this
     * watcher held before. A watcher moved into itself is left as it is.
     */
    method MoveAssign(other: FileWatcher)
      requires other.Valid()
      modifies this, other, other.backend
      ensures Valid()
      ensures other != this ==>
        backend == old(other.backend) && handlers == old(other.handlers) && owned == old(other.owned) &&
        other.backend == null && other.handlers == [] && other.owned == []
      ensures other == this ==> backend == old(backend) && handlers == old(handlers) && owned == old(owned)
    {
      if other == this {
        return;
      }
      backend, handlers, owned := other.backend, other.handlers, other.owned;
      other.backend, other.handlers, other.owned := null, [], [];
      if backend != null {
        backend.owner := this;
      }
    }

    /** `fs()`: the backend's file system, or none without a backend. */
    function Fs(): (r: Option<FileSystem>)
      reads this
      ensures r.Some? <==> backend != null
      ensures backend != null ==> r.value == backend.fs
    {
      if backend == null then None else Some(backend.fs)
    }

    /**
     * `add`: ignored without a backend; otherwise the handle is asked
     * whether it is a directory (filling its cache), and the directory is
     * handed to the backend exactly when it is one and belongs to the
     * watcher's file system.
     */
    method Add(dir: FileHandle, events: bv32, mode: RecursiveMode, host: Host, ghost depth: nat)
      requires Valid() && dir.Inv()
      requires dir.backend != null ==> HostFits(dir.backend.fs.platform, host)
      requires HostFits(Posix, host)
      requires (backend != null && dir.backend != null && dir.backend.fs == backend.fs &&
                IsDirectoryOf(dir.backend.fs.platform,
                  Filled(dir.backend.fs.platform, dir.backend.fileInfo, host, dir.backend.path))) ==>
        AddFinishes(Resolving, host, backend.inotify, dir.backend.path, mode, depth)
      modifies backend, dir.backend
      ensures Valid() && dir.Inv()
      ensures backend == null ==> dir.backend == null || unchanged(dir.backend)
      ensures backend != null && dir.backend != null ==>
        dir.backend.path == old(dir.backend.path) &&
        dir.backend.fileInfo == Filled(dir.backend.fs.platform, old(dir.backend.fileInfo), host, dir.backend.path)
      ensures backend != null ==>
        var forwarded := dir.backend != null && IsDirectoryOf(dir.backend.fs.platform, dir.backend.fileInfo) &&
          Some(dir.backend.fs) == Fs();
        backend.watchers ==
          if forwarded then Registered(Resolving, host, backend.inotify, dir.backend.path, events, mode, old(backend.watchers), depth)
          else old(backend.watchers)
    {
      if backend == null {
        return;
      }
      var isDir := dir.IsDirectory(host);
      if !isDir || (if dir.backend == null then None else Some(dir.backend.fs)) != Fs() {
        return;
      }
      ResolvingOpensAsWritten();
      backend.Add(dir.Path(), events, mode, host, depth, Resolving);
    }

    /** `std::find` over the handler list: the first index holding `h`, or the list's length. */
    method Find(h: FileEventHandler?) returns (i: nat)
      ensures i <= |handlers|
      ensures i < |handlers| ==> handlers[i] == h
      ensures forall j :: 0 <= j < i ==> handlers[j] != h
      ensures i == |handlers| <==> h !in handlers
    {
      i := 0;
      while i < |handlers| && handlers[i] != h
        invariant i <= |handlers|
        invariant forall j :: 0 <= j < i ==> handlers[j] != h
      {
        i := i + 1;
      }
    }

    /** `addHandler(eventHandler)`: a null or already registered handler is ignored; any other is appended. */
    method AddHandler(h: FileEventHandler?)
      requires Valid()
      modifies this
      ensures Valid()
      ensures h == null || h in old(handlers) ==> handlers == old(handlers)
      ensures h != null && h !in old(handlers) ==> handlers == old(handlers) + [h]
      ensures backend == old(backend) && owned == old(owned)
    {
      if h == null {
        return;
      }
      var i := Find(h);
      if i < |handlers| {
        return;
      }
      handlers := handlers + [h];
    }

    /**
     * `addHandler(funcFileEvent)`: a new wrapper around the callback is
     * registered and kept, so it lives as long as the watcher.
     */
    method AddFunctionHandler(hasFunction: bool) returns (h: FileEventHandler)
      requires Valid()
      modifies this
      ensures Valid() && fresh(h) && h.functional && h.hasFunction == hasFunction
      ensures handlers == old(handlers) + [h] && owned == old(owned) + [h]
      ensures backend == old(backend)
    {
      h := new FileEventHandler.Functional(hasFunction);
      AddHandler(h);
      owned := owned + [h];
    }

    /**
     * `removeHandler`: the handler is erased from the list if it is there,
     * and nothing happens otherwise; a wrapper the watcher owns stays owned.
     */
    method RemoveHandler(h: FileEventHandler?)
      requires Valid()
      modifies this
      ensures Valid()
      ensures h == null ==> handlers == old(handlers)
      ensures h != null ==> handlers == Without(old(handlers), h)
      ensures backend == old(backend) && owned == old(owned)
    {
      var i := Find(h);
      if i < |handlers| {
        WithoutAt(handlers, h, i);
        WithoutDistinct(handlers, h);
        handlers := handlers[..i] + handlers[i + 1..];
      } else if h != null {
        assert handlers == Without(handlers, h);
      }
    }

    /**
     * `onFileEvent`: every registered handler is called once with the
     * file handle and the event, in registration order.
     */
    method OnFileEvent(path: Option<string>, event: bv32) returns (calls: seq<Call>)
      ensures calls == Round(handlers, path, event)
    {
      calls := [];
      var i := 0;
      while i < |handlers|
        invariant 0 <= i <= |handlers|
        invariant calls == Round(handlers[..i], path, event)
      {
        assert handlers[..i + 1][..i] == handlers[..i];
        calls := calls + [Call(handlers[i], path, handlers[i].OnFileEvent(event))];
        i := i + 1;
      }
      assert handlers[..i] == handlers;
    }

    /**
     * `watch`: nothing without a backend; otherwise the backend watches
     * with the same timeout, and each event it delivers reaches this
     * watcher, which calls its handlers.
     */
    method Watch(timeout: int, ready: int, records: Option<seq<Record>>, host: Host, ghost depth: nat)
      returns (delivered: seq<Delivery>, calls: seq<Call>)
      requires Valid() && HostFits(Posix, host)
      requires backend != null && !((timeout >= 0 && ready <= 0) || records.None?) ==>
        ProcessFinishes(host, backend.inotify, Outcome(backend.watchers, []), records.value, depth)
      modifies backend
      ensures Valid()
      ensures backend == null ==> delivered == [] && calls == []
      ensures backend != null ==>
        ((timeout >= 0 && ready <= 0) || records.None? ==> delivered == [] && backend.watchers == old(backend.watchers)) &&
        (!((timeout >= 0 && ready <= 0) || records.None?) ==>
          Outcome(backend.watchers, delivered) == Process(host, backend.inotify, Outcome(old(backend.watchers), []), records.value, depth))
      ensures calls == Notified(handlers, delivered)
    {
      delivered, calls := [], [];
      if backend == null {
        return;
      }
      delivered := backend.Watch(timeout, ready, records, host, depth);
      calls := Notify(delivered);
    }

    /** The events a watch delivered, each passed to `onFileEvent` in turn. */
    method Notify(delivered: seq<Delivery>) returns (calls: seq<Call>)
      ensures calls == Notified(handlers, delivered)
    {
      calls := [];
      var k := 0;
      while k < |delivered|
        invariant 0 <= k <= |delivered|
        invariant calls == Notified(handlers, delivered[..k])
      {
        assert delivered[..k + 1][..k] == delivered[..k];
        var round := OnFileEvent(delivered[k].path, delivered[k].event);
        calls := calls + round;
        k := k + 1;
      }
      assert delivered[..k] == delivered;
    }
  }
}
