/**
 * The directory cursors behind `FileIterator`: the POSIX `LocalFileIterator`
 * (opendir/readdir), the Windows `LocalFileIterator`
 * (FindFirstFile/FindNextFile) and `SshFileIterator` (sftp_readdir). All
 * three skip `.` and `..`, count reads in an index, and clone themselves by
 * replaying reads on a fresh cursor until the indices match.
 *
 * The directory is the raw sequence of names its listing call yields; it
 * is taken to stay the same for the life of an iterator and its clones.
 */
module Iterators {
  import opened Wrappers
  import opened Host
  import FilePath
  import opened Backend

  /**
   * The raw entries the platform's listing call sees, or none when the
   * directory does not open: POSIX opens the path, Windows searches
   * everything below the full path and fails on an empty result, SSH needs both sessions.
   */
  function Opened(fs: FileSystem, path: string, host: Host): Option<seq<string>>
  {
    match fs.platform
    case Posix => Lookup(host.listing, path)
    case Windows =>
      (match Lookup(host.listing, FilePath.Analysis(FilePath.Unify(path)).fullPath)
       case Some(raw) => if raw == [] then None else Some(raw)
       case None => None)
    case Ssh => if Connected(Ssh, host) then Lookup(host.listing, path) else None
  }

  /** The names a full pass yields, in order: the visible raw entries, or none. */
  function Entries(listing: Option<seq<string>>): seq<string>
  {
    match listing
    case None => []
    case Some(raw) => Visible(raw)
  }

  /** A full pass of the iterator yields exactly what listFiles returns. */
  lemma EntriesAreListFiles(fs: FileSystem, path: string, host: Host)
    ensures Entries(Opened(fs, path, host)) == ListingOf(fs.platform, path, host)
  {
  }

  // ------------------------------------------------------------------
  // The cursor and one readNextEntry
  // ------------------------------------------------------------------

  /**
   * The state of a cursor: whether the directory (or the find search) is
   * open, how many raw entries the open handle has consumed, the current
   * entry (`m_entry`, `m_filename` or the find data's name) and `m_index`.
   */
  datatype Cursor = Cursor(open: bool, pos: nat, entry: Option<string>, index: int)

  /** The state the constructors leave before their first read: only the Windows search starts closed. */
  function Initial(platform: Platform, listing: Option<seq<string>>): Cursor
  {
    Cursor(listing.Some? && platform != Windows, 0, None, -1)
  }

  /** The raw entries behind a listing; a directory that does not open has none. */
  function Raw(listing: Option<seq<string>>): seq<string>
  {
    match listing
    case None => []
    case Some(raw) => raw
  }

  /** One raw read at `pos`: the entry and the new position, or nothing at the end. */
  function ReadAt(raw: seq<string>, pos: nat): (r: (Option<string>, nat))
    ensures r.0.Some? <==> pos < |raw|
    ensures r.0.Some? ==> r.0.value == raw[pos] && r.1 == pos + 1
    ensures r.0.None? ==> r.1 == pos
  {
    if pos < |raw| then (Some(raw[pos]), pos + 1) else (None, pos)
  }

  /** The inner loop of the POSIX and SSH readNextEntry: read on while the entry is `.` or `..`. */
  function SkipDots(raw: seq<string>, entry: Option<string>, pos: nat): (r: (Option<string>, nat))
    requires pos <= |raw|
    ensures pos <= r.1 <= |raw|
    ensures r.0.Some? ==> !IsDot(r.0.value)
    ensures entry.None? || !IsDot(entry.value) ==> r == (entry, pos)
    decreases |raw| - pos
  {
    if entry.Some? && IsDot(entry.value) then
      var (e, p) := ReadAt(raw, pos);
      if e.None? then (None, p) else SkipDots(raw, e, p)
    else (entry, pos)
  }

  /**
   * readNextEntry on POSIX and SSH: nothing without an open directory;
   * otherwise one read, one increment of the index, and reads past dots.
   */
  function SkippingStep(raw: seq<string>, c: Cursor): (r: Cursor)
    requires c.pos <= |raw|
    ensures r.pos <= |raw| && r.open == c.open
    ensures c.open ==> r.index == c.index + 1
    ensures !c.open ==> r == c
  {
    if !c.open then c
    else
      var (e, p) := ReadAt(raw, c.pos);
      var (e2, p2) := SkipDots(raw, e, p);
      Cursor(true, p2, e2, c.index + 1)
  }

  /**
   * readNextEntry on Windows, the do/while loop: a closed search is
   * reopened from the first entry (failing on an empty directory), an
   * exhausted one is closed without counting, and every entry read counts
   * once, dots included, until a name other than `.` or `..` is read.
   */
  function WindowsStep(raw: seq<string>, c: Cursor): (r: Cursor)
    requires c.pos <= |raw|
    ensures r.pos <= |raw|
    ensures r.open ==> r.pos >= 1 && r.entry == Some(raw[r.pos - 1]) && !IsDot(raw[r.pos - 1])
    ensures r.index >= c.index
    ensures r.index == c.index ==> r == c || (c.open && !r.open && r.pos == c.pos)
    ensures !r.open && r != c ==> r.pos == |raw|
    decreases (if c.open then 0 else 1), |raw| - c.pos
  {
    if !c.open && raw == [] then c
    else if c.open && c.pos >= |raw| then c.(open := false)
    else
      var p := if c.open then c.pos else 0;
      var next := Cursor(true, p + 1, Some(raw[p]), c.index + 1);
      if IsDot(raw[p]) then WindowsStep(raw, next) else next
  }

  function Step(platform: Platform, raw: seq<string>, c: Cursor): (r: Cursor)
    requires c.pos <= |raw|
    ensures r.pos <= |raw|
  {
    if platform == Windows then WindowsStep(raw, c) else SkippingStep(raw, c)
  }

  /** The state after construction: the initial state and one read. */
  function Start(platform: Platform, listing: Option<seq<string>>): Cursor
  {
    Step(platform, Raw(listing), Initial(platform, listing))
  }

  /** `valid()`: POSIX an open directory and an entry, Windows an open search, SSH an open directory and a non-empty name. */
  predicate IsValid(platform: Platform, c: Cursor)
  {
    match platform
    case Posix => c.open && c.entry.Some?
    case Windows => c.open
    case Ssh => c.open && c.entry.Some? && c.entry.value != ""
  }

  /** `name()`: the current name, or `""` when not valid. */
  function NameOf(platform: Platform, c: Cursor): (r: string)
    ensures IsValid(platform, c) && c.entry.Some? ==> r == c.entry.value
    ensures !IsValid(platform, c) ==> r == ""
  {
    if IsValid(platform, c) && c.entry.Some? then c.entry.value else ""
  }

  // ------------------------------------------------------------------
  // What a pass yields
  // ------------------------------------------------------------------

  /**
   * A cursor after at least one read: its entry, if any, is the raw entry
   * just read, and not a dot while the cursor is open; an open POSIX or SSH
   * cursor without an entry has consumed everything; an open Windows search
   * has an entry.
   */
  predicate Settled(platform: Platform, raw: seq<string>, c: Cursor)
  {
    Placed(raw, c) &&
    (c.open && c.entry.Some? ==> !IsDot(c.entry.value)) &&
    (platform != Windows && c.open && c.entry.None? ==> c.pos == |raw|) &&
    (platform == Windows && c.open ==> c.entry.Some?) &&
    (platform == Ssh ==> forall i :: 0 <= i < |raw| ==> raw[i] != "")
  }

  /** The entry, if any, is the raw entry just read; an open Windows search has one. */
  predicate Placed(raw: seq<string>, c: Cursor)
  {
    c.pos <= |raw| &&
    (c.entry.Some? ==> c.pos >= 1 && c.entry.value == raw[c.pos - 1])
  }

  /** The names still to come, the current one first: nothing once the cursor is not valid. */
  function Rest(platform: Platform, raw: seq<string>, c: Cursor): seq<string>
    requires c.pos <= |raw|
  {
    if IsValid(platform, c) then Yield(raw, c.entry, c.pos) else []
  }

  /** Visible over a slice split at its first element. */
  lemma VisibleFrom(raw: seq<string>, pos: nat)
    requires pos < |raw|
    ensures Visible(raw[pos..]) == (if IsDot(raw[pos]) then [] else [raw[pos]]) + Visible(raw[pos + 1..])
  {
    assert raw[pos..] == [raw[pos]] + raw[pos + 1..];
    VisibleAppend([raw[pos]], raw[pos + 1..]);
    assert Visible([raw[pos]]) == Visible([]) + (if IsDot(raw[pos]) then [] else [raw[pos]]);
  }

  /** Reading past dots loses no visible name. */
  lemma {:induction false} SkipDotsRest(raw: seq<string>, entry: Option<string>, pos: nat)
    requires pos <= |raw|
    requires entry.Some? ==> pos >= 1 && entry.value == raw[pos - 1]
    requires entry.None? ==> pos == |raw|
    ensures var r := SkipDots(raw, entry, pos);
      (r.0.Some? ==> r.1 >= 1 && r.0.value == raw[r.1 - 1]) &&
      (r.0.None? ==> r.1 == |raw|) &&
      Yield(raw, r.0, r.1) == (if entry.Some? && !IsDot(entry.value) then [entry.value] else []) + Visible(raw[pos..])
    decreases |raw| - pos
  {
    if entry.None? {
      EmptyTail(raw, pos);
    } else if !IsDot(entry.value) {
    } else if pos < |raw| {
      VisibleFrom(raw, pos);
      SkipDotsRest(raw, Some(raw[pos]), pos + 1);
    } else {
      EmptyTail(raw, pos);
    }
  }

  /** What a cursor standing on `entry` at `pos` yields: the entry and the visible names after it. */
  function Yield(raw: seq<string>, entry: Option<string>, pos: nat): seq<string>
    requires pos <= |raw|
  {
    if entry.Some? then [entry.value] + Visible(raw[pos..]) else []
  }

  lemma EmptyTail(raw: seq<string>, pos: nat)
    requires pos == |raw|
    ensures Visible(raw[pos..]) == []
  {
    assert raw[pos..] == [];
  }

  /** One POSIX or SSH read of an open directory reports the visible names from its position on. */
  lemma SkippingStepRest(platform: Platform, raw: seq<string>, c: Cursor)
    requires platform != Windows && c.open && c.pos <= |raw|
    requires platform == Ssh ==> forall i :: 0 <= i < |raw| ==> raw[i] != ""
    ensures Settled(platform, raw, SkippingStep(raw, c))
    ensures Rest(platform, raw, SkippingStep(raw, c)) == Visible(raw[c.pos..])
  {
    var (e, p) := ReadAt(raw, c.pos);
    if e.Some? {
      VisibleFrom(raw, c.pos);
    } else {
      assert raw[c.pos..] == [];
    }
    SkipDotsRest(raw, e, p);
    var s := SkippingStep(raw, c);
    if s.entry.Some? && platform == Ssh {
      assert s.entry.value == raw[s.pos - 1];
    }
  }

  /** The first read of a pass from the start of the raw entries. */
  lemma {:induction false} WindowsStepRest(raw: seq<string>, c: Cursor)
    requires Placed(raw, c)
    ensures Settled(Windows, raw, WindowsStep(raw, c))
    ensures c.open ==> Rest(Windows, raw, WindowsStep(raw, c)) == Visible(raw[c.pos..])
    ensures !c.open ==> Rest(Windows, raw, WindowsStep(raw, c)) == Visible(raw)
    decreases (if c.open then 0 else 1), |raw| - c.pos, 1
  {
    if !c.open && raw == [] {
      assert Visible(raw) == [];
    } else if c.open && c.pos >= |raw| {
      EmptyTail(raw, c.pos);
    } else if c.open {
      WindowsReadRest(raw, c, c.pos);
    } else {
      WindowsReadRest(raw, c, 0);
      assert raw[0..] == raw;
    }
  }

  /** A Windows read that finds an entry at `p`: the visible names from `p` on are still to come. */
  lemma {:induction false} WindowsReadRest(raw: seq<string>, c: Cursor, p: nat)
    requires p < |raw| && c.pos <= |raw|
    requires if c.open then p == c.pos else p == 0 && raw != []
    ensures Settled(Windows, raw, WindowsStep(raw, c))
    ensures Rest(Windows, raw, WindowsStep(raw, c)) == Visible(raw[p..])
    decreases (if c.open then 0 else 1), |raw| - c.pos, 0
  {
    var next := Cursor(true, p + 1, Some(raw[p]), c.index + 1);
    VisibleFrom(raw, p);
    if IsDot(raw[p]) {
      assert WindowsStep(raw, c) == WindowsStep(raw, next);
      WindowsStepRest(raw, next);
    } else {
      assert WindowsStep(raw, c) == next;
    }
  }

  /** After construction a cursor is settled and is about to yield every entry. */
  lemma StartYieldsEntries(platform: Platform, listing: Option<seq<string>>)
    requires platform == Ssh && listing.Some? ==> forall i :: 0 <= i < |listing.value| ==> listing.value[i] != ""
    ensures Settled(platform, Raw(listing), Start(platform, listing))
    ensures Rest(platform, Raw(listing), Start(platform, listing)) == Entries(listing)
  {
    var raw := Raw(listing);
    var c := Initial(platform, listing);
    if platform == Windows {
      WindowsStepRest(raw, c);
    } else if listing.Some? {
      SkippingStepRest(platform, raw, c);
      assert raw[0..] == raw;
    }
  }

  /** Each advance of a valid cursor drops exactly the current name from what is to come. */
  lemma StepYieldsNext(platform: Platform, raw: seq<string>, c: Cursor)
    requires Settled(platform, raw, c) && IsValid(platform, c)
    ensures Settled(platform, raw, Step(platform, raw, c))
    ensures Rest(platform, raw, Step(platform, raw, c)) == Rest(platform, raw, c)[1..]
  {
    assert Rest(platform, raw, c)[1..] == Visible(raw[c.pos..]);
    if platform == Windows {
      WindowsStepRest(raw, c);
    } else {
      SkippingStepRest(platform, raw, c);
    }
  }

  /** A valid cursor never stands on `.` or `..`. */
  lemma ValidNameIsNoDot(platform: Platform, raw: seq<string>, c: Cursor)
    requires Settled(platform, raw, c) && IsValid(platform, c)
    ensures !IsDot(NameOf(platform, c))
    ensures Rest(platform, raw, c) != [] && Rest(platform, raw, c)[0] == NameOf(platform, c)
  {
  }

  /** POSIX and SSH count one per readNextEntry while open and never move when the directory did not open. */
  lemma SkippingIndex(platform: Platform, raw: seq<string>, c: Cursor)
    requires platform != Windows && c.pos <= |raw|
    ensures c.open ==> Step(platform, raw, c).index == c.index + 1
    ensures !c.open ==> Step(platform, raw, c) == c
  {
  }

  /** Without a listing the POSIX and SSH cursors stay invalid at -1. */
  lemma UnopenedStaysInvalid(platform: Platform, n: nat)
    ensures Iterate(platform, [], Start(platform, None), n) == Cursor(false, 0, None, -1)
    ensures !IsValid(platform, Iterate(platform, [], Start(platform, None), n))
  {
    IterateFixed(platform, [], Start(platform, None), n);
  }

  /** On Windows the index counts raw entries, dots included: `.`, `..`, `a` reach `a` at index 2. */
  lemma WindowsCountsDots()
    ensures var s := Start(Windows, Some([".", "..", "a"]));
      s.open && s.entry == Some("a") && s.index == 2
    ensures var s := Start(Posix, Some([".", "..", "a"]));
      s.open && s.entry == Some("a") && s.index == 0
  {
  }

  /** On Windows, advancing an exhausted (closed) search reopens it: the listing restarts while the index grows. */
  lemma WindowsRestarts()
    ensures var raw := ["a"];
      var s0 := Start(Windows, Some(raw));
      var s1 := Step(Windows, raw, s0);
      var s2 := Step(Windows, raw, s1);
      s0.open && s0.index == 0 && !s1.open && s1.index == 0 &&
      s2.open && s2.entry == Some("a") && s2.index == 1
  {
  }

  // ------------------------------------------------------------------
  // clone by replay
  // ------------------------------------------------------------------

  /** The state after `n` further reads. */
  function Iterate(platform: Platform, raw: seq<string>, c: Cursor, n: nat): (r: Cursor)
    requires c.pos <= |raw|
    ensures r.pos <= |raw|
    decreases n
  {
    if n == 0 then c else Iterate(platform, raw, Step(platform, raw, c), n - 1)
  }

  /** One more read after `n` reads. */
  lemma {:induction false} IterateLast(platform: Platform, raw: seq<string>, c: Cursor, n: nat)
    requires c.pos <= |raw|
    ensures Iterate(platform, raw, c, n + 1) == Step(platform, raw, Iterate(platform, raw, c, n))
    decreases n
  {
    if n > 0 {
      IterateLast(platform, raw, Step(platform, raw, c), n - 1);
    }
  }

  lemma {:induction false} IterateFixed(platform: Platform, raw: seq<string>, c: Cursor, n: nat)
    requires c.pos <= |raw| && Step(platform, raw, c) == c
    ensures Iterate(platform, raw, c, n) == c
  {
    if n > 0 {
      IterateFixed(platform, raw, c, n - 1);
    }
  }

  /** Reads keep counting: a POSIX or SSH cursor is open for good, a Windows search has entries to find. */
  predicate Progresses(platform: Platform, raw: seq<string>, c: Cursor)
  {
    if platform == Windows then raw != [] else c.open
  }

  /** The measure of the replay loop: reads either count, or close a search that the next read reopens. */
  function ReplayMeasure(c: Cursor, target: int): nat
  {
    if c.index < target then 2 * (target - c.index) + (if c.open then 1 else 0) else 0
  }

  lemma StepShrinks(platform: Platform, raw: seq<string>, c: Cursor, target: int)
    requires c.pos <= |raw| && Progresses(platform, raw, c) && c.index < target
    ensures Progresses(platform, raw, Step(platform, raw, c))
    ensures ReplayMeasure(Step(platform, raw, c), target) < ReplayMeasure(c, target)
  {
  }

  /** The loop of clone: read on the twin while its index is below `target`. */
  function Replay(platform: Platform, raw: seq<string>, c: Cursor, target: int): (r: Cursor)
    requires c.pos <= |raw| && Progresses(platform, raw, c)
    ensures r.pos <= |raw| && Progresses(platform, raw, r)
    ensures r.index >= target
    decreases ReplayMeasure(c, target)
  {
    if c.index >= target then c
    else
      StepShrinks(platform, raw, c, target);
      Replay(platform, raw, Step(platform, raw, c), target)
  }

  /** A read that does not count is followed by one that does. */
  lemma NoTwoSilentSteps(platform: Platform, raw: seq<string>, c: Cursor)
    requires c.pos <= |raw| && Progresses(platform, raw, c)
    requires Step(platform, raw, c).index == c.index
    ensures platform == Windows && c.open && !Step(platform, raw, c).open
    ensures Step(platform, raw, Step(platform, raw, c)).index > c.index
  {
  }

  lemma {:induction false} IterateMonotone(platform: Platform, raw: seq<string>, c: Cursor, n: nat)
    requires c.pos <= |raw| && Progresses(platform, raw, c)
    ensures Iterate(platform, raw, c, n).index >= c.index
    ensures n >= 2 ==> Iterate(platform, raw, c, n).index > c.index
    ensures Progresses(platform, raw, Iterate(platform, raw, c, n))
    decreases n
  {
    if n > 0 {
      var s := Step(platform, raw, c);
      StepShrinks(platform, raw, c, c.index + 1);
      IterateMonotone(platform, raw, s, n - 1);
      if n >= 2 && s.index == c.index {
        NoTwoSilentSteps(platform, raw, c);
        StepShrinks(platform, raw, s, s.index + 1);
        IterateMonotone(platform, raw, Step(platform, raw, s), n - 2);
      }
    }
  }

  /**
   * Replaying from a cursor up to the index of a later state of the same
   * cursor reaches that state, except when the later state is a search
   * closed at the end: then the replay stops one read short, on the last
   * entry, which is still valid.
   */
  lemma {:induction false} ReplayReaches(platform: Platform, raw: seq<string>, c: Cursor, n: nat)
    requires c.pos <= |raw| && Progresses(platform, raw, c)
    ensures var s := Iterate(platform, raw, c, n);
      var r := Replay(platform, raw, c, s.index);
      r == s || (platform == Windows && r.open && !s.open && Step(platform, raw, r) == s)
    decreases n
  {
    var s := Iterate(platform, raw, c, n);
    IterateMonotone(platform, raw, c, n);
    if c.index >= s.index {
      if n == 1 {
        NoTwoSilentSteps(platform, raw, c);
      }
    } else {
      var next := Step(platform, raw, c);
      StepShrinks(platform, raw, c, s.index);
      ReplayReaches(platform, raw, next, n - 1);
    }
  }

  /**
   * The clone as written, on an exhausted Windows search over `.`, `..`,
   * `a`: the original is closed (equal to end), and the replay stops on
   * `a`, so the copy is valid.
   */
  lemma ExhaustedCloneIsValid()
    ensures var raw := [".", "..", "a"];
      var original := Step(Windows, raw, Start(Windows, Some(raw)));
      var twin := Replay(Windows, raw, Start(Windows, Some(raw)), original.index);
      !IsValid(Windows, original) && IsValid(Windows, twin) && NameOf(Windows, twin) == "a"
  {
    var raw := [".", "..", "a"];
    assert WindowsStep(raw, Cursor(true, 2, Some(".."), 1)) == Cursor(true, 3, Some("a"), 2);
    assert WindowsStep(raw, Cursor(true, 1, Some("."), 0)) == Cursor(true, 3, Some("a"), 2);
    assert Start(Windows, Some(raw)) == Cursor(true, 3, Some("a"), 2);
  }

  /** The clone as intended: after the replay, one more read when the original is no longer valid but the twin is. */
  function ReplayCorrected(platform: Platform, raw: seq<string>, c: Cursor, original: Cursor): Cursor
    requires c.pos <= |raw| && Progresses(platform, raw, c)
  {
    var r := Replay(platform, raw, c, original.index);
    if !IsValid(platform, original) && IsValid(platform, r) then Step(platform, raw, r) else r
  }

  /** The corrected clone reproduces every state a cursor can reach. */
  lemma CorrectedCloneIsExact(platform: Platform, raw: seq<string>, c: Cursor, n: nat)
    requires c.pos <= |raw| && Progresses(platform, raw, c)
    ensures ReplayCorrected(platform, raw, c, Iterate(platform, raw, c, n)) == Iterate(platform, raw, c, n)
  {
    var s := Iterate(platform, raw, c, n);
    ReplayReaches(platform, raw, c, n);
    var r := Replay(platform, raw, c, s.index);
    if r == s && !IsValid(platform, s) {
      assert !IsValid(platform, r);
    }
  }

  // ------------------------------------------------------------------
  // The iterator objects
  // ------------------------------------------------------------------

  class IteratorBackend {
    const fs: FileSystem
    const path: string
    const listing: Option<seq<string>>
    var open: bool
    var pos: nat
    var entry: Option<string>
    var index: int
    /** The number of readNextEntry calls after the first, which the constructor makes. */
    ghost var steps: nat

    function State(): Cursor
      reads this
    {
      Cursor(open, pos, entry, index)
    }

    /** The raw entries the open handle reads. */
    function RawEntries(): seq<string>
    {
      Raw(listing)
    }

    /** The state is one that construction and reads reach from the listing. */
    ghost predicate Inv()
      reads this
    {
      pos <= |RawEntries()| &&
      Settled(fs.platform, RawEntries(), State()) &&
      (fs.platform == Windows && listing.Some? ==> listing.value != []) &&
      (fs.platform != Windows ==> open == listing.Some?) &&
      (listing.None? ==> State() == Cursor(false, 0, None, -1)) &&
      Start(fs.platform, listing).pos <= |RawEntries()| &&
      State() == Iterate(fs.platform, RawEntries(), Start(fs.platform, listing), steps)
    }

    /** Opens the directory and reads the first entry. */
    constructor (fs: FileSystem, path: string, listing: Option<seq<string>>)
      requires fs.platform == Ssh && listing.Some? ==> forall i :: 0 <= i < |listing.value| ==> listing.value[i] != ""
      requires fs.platform == Windows && listing.Some? ==> listing.value != []
      ensures Inv() && this.fs == fs && this.path == path && this.listing == listing
      ensures State() == Start(fs.platform, listing) && steps == 0
    {
      this.fs := fs;
      this.path := path;
      this.listing := listing;
      open := listing.Some? && fs.platform != Windows;
      pos := 0;
      entry := None;
      index := -1;
      steps := 0;
      new;
      StartYieldsEntries(fs.platform, listing);
      ReadNextEntry();
    }

    /** `readNextEntry()`. */
    method ReadNextEntry()
      requires pos <= |RawEntries()|
      requires fs.platform == Windows ==> (open ==> entry.Some?)
      modifies this
      ensures State() == Step(fs.platform, RawEntries(), old(State())) && steps == old(steps)
    {
      var raw := RawEntries();
      if fs.platform == Windows {
        ghost var goal := WindowsStep(raw, State());
        while true
          invariant pos <= |raw| && WindowsStep(raw, State()) == goal && steps == old(steps)
          decreases (if open then 0 else 1), |raw| - pos
        {
          if !open {
            if raw == [] {
              return;
            }
            open := true;
            pos := 0;
          } else if pos >= |raw| {
            open := false;
            return;
          }
          entry := Some(raw[pos]);
          pos := pos + 1;
          index := index + 1;
          if !IsDot(entry.value) {
            return;
          }
        }
      } else {
        if !open {
          return;
        }
        ghost var goal := SkippingStep(raw, State());
        if pos < |raw| {
          entry := Some(raw[pos]);
          pos := pos + 1;
        } else {
          entry := None;
        }
        index := index + 1;
        if entry.None? {
          return;
        }
        while entry.Some? && IsDot(entry.value)
          invariant pos <= |raw| && open && steps == old(steps)
          invariant goal == Cursor(true, SkipDots(raw, entry, pos).1, SkipDots(raw, entry, pos).0, index)
          decreases |raw| - pos, entry.Some?
        {
          if pos < |raw| {
            entry := Some(raw[pos]);
            pos := pos + 1;
          } else {
            entry := None;
          }
        }
      }
    }

    /** `next()`: one readNextEntry. */
    method Next()
      requires Inv()
      modifies this
      ensures Inv() && State() == Step(fs.platform, RawEntries(), old(State())) && steps == old(steps) + 1
      ensures IsValid(fs.platform, old(State())) ==>
        Rest(fs.platform, RawEntries(), State()) == Rest(fs.platform, RawEntries(), old(State()))[1..]
    {
      ghost var before := State();
      ReadNextEntry();
      IterateLast(fs.platform, RawEntries(), Start(fs.platform, listing), steps);
      steps := steps + 1;
      if IsValid(fs.platform, before) {
        StepYieldsNext(fs.platform, RawEntries(), before);
      } else if fs.platform == Windows {
        WindowsStepRest(RawEntries(), before);
      } else {
        assert State() == SkippingStep(RawEntries(), before);
        SkipDotsRest(RawEntries(), ReadAt(RawEntries(), before.pos).0, ReadAt(RawEntries(), before.pos).1);
      }
    }

    function Valid(): bool
      reads this
    {
      IsValid(fs.platform, State())
    }

    function Name(): (r: string)
      reads this
      ensures Inv() && Valid() ==> !IsDot(r)
      ensures Inv() && Valid() ==>
        Rest(fs.platform, RawEntries(), State()) != [] && r == Rest(fs.platform, RawEntries(), State())[0]
      ensures !Valid() ==> r == ""
    {
      NameOf(fs.platform, State())
    }

    /**
     * This cursor is a clone of `b`: on the same directory and in the same
     * state, or, when `b` is a Windows search closed at the end, still on
     * the last entry, one read short of `b`.
     */
    predicate Twins(b: IteratorBackend)
      reads this, b
    {
      fs == b.fs && path == b.path && listing == b.listing && pos <= |RawEntries()| &&
      (State() == b.State() ||
       (fs.platform == Windows && Valid() && !b.Valid() && Step(fs.platform, RawEntries(), State()) == b.State()))
    }

    /**
     * `clone()`: a fresh cursor on the same directory, read until its
     * index reaches this one's. The copy is in this one's state, except
     * after a Windows search closed at the end: the copy then still stands,
     * valid, on the last entry.
     */
    method Clone() returns (twin: IteratorBackend)
      requires Inv()
      ensures fresh(twin) && twin.Inv() && twin.Twins(this)
    {
      twin := new IteratorBackend(fs, path, listing);
      var raw := RawEntries();
      ghost var start := Start(fs.platform, listing);
      if !Progresses(fs.platform, raw, twin.State()) {
        return;
      }
      while twin.index < index
        invariant twin.Inv() && twin.fs == fs && twin.listing == listing && twin.path == path
        invariant Progresses(fs.platform, raw, twin.State())
        invariant Replay(fs.platform, raw, twin.State(), index) == Replay(fs.platform, raw, start, index)
        decreases ReplayMeasure(twin.State(), index)
      {
        StepShrinks(fs.platform, raw, twin.State(), index);
        twin.Next();
      }
      ReplayReaches(fs.platform, raw, start, steps);
    }
  }
}
