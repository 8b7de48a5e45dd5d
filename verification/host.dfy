/**
 * What the handles, iterators and watchers see of the operating system or
 * of the remote SFTP server. The real calls (stat, readdir,
 * GetFileAttributesEx, libssh2) are not modelled; their answers are a
 * value of type Host passed to the operations that make the calls.
 */
module Host {
  import opened Wrappers

  /** The backend family a handle or iterator belongs to. */
  datatype Platform = Posix | Windows | Ssh

  /**
   * One file-information record: `struct stat` on POSIX and the SFTP
   * attributes over SSH (mode, size, times, owner), or the
   * WIN32_FILE_ATTRIBUTE_DATA on Windows, whose size and times are split
   * into 32-bit halves.
   */
  datatype Info =
    | Stat(mode: bv32, size: nat, atime: nat, mtime: nat, uid: nat, gid: nat)
    | FindData(attributes: bv32, sizeHigh: nat, sizeLow: nat,
               accessHigh: nat, accessLow: nat, writeHigh: nat, writeLow: nat)

  /**
   * The state of the outside world as the library can observe it: what a
   * stat (following links) and an lstat (not following them) report for a
   * path, the raw entries a directory listing yields in order (a missing
   * path cannot be opened), where file streams open, the SHA-1 text of a
   * file, and whether the SSH session and its SFTP channel are up.
   */
  datatype Host = Host(
    stat: map<string, Info>,
    lstat: map<string, Info>,
    listing: map<string, seq<string>>,
    readable: set<string>,
    writable: set<string>,
    digest: map<string, string>,
    session: bool,
    sftp: bool)

  /** A map lookup that reports a missing key. */
  function Lookup<K, V>(m: map<K, V>, k: K): (r: Option<V>)
    ensures r.Some? <==> k in m
    ensures r.Some? ==> r.value == m[k]
  {
    if k in m then Some(m[k]) else None
  }

  /** 2^32: `unsigned int` holds the values below it. */
  const Word: nat := 0x1_0000_0000

  /** Conversion to `unsigned int`: only the low 32 bits survive. */
  function UInt(x: nat): (r: nat)
    ensures r < Word
    ensures x < Word ==> r == x
  {
    x % Word
  }

  /**
   * The record kind a platform keeps: FindData, made of 32-bit halves, on
   * Windows, and Stat elsewhere.
   */
  predicate Fits(platform: Platform, info: Info)
  {
    (info.FindData? <==> platform == Windows) &&
    (info.FindData? ==>
      info.sizeHigh < Word && info.sizeLow < Word &&
      info.accessHigh < Word && info.accessLow < Word &&
      info.writeHigh < Word && info.writeLow < Word)
  }

  /** Every record the host reports has the platform's kind. */
  predicate HostFits(platform: Platform, host: Host)
  {
    (forall p :: p in host.stat ==> Fits(platform, host.stat[p])) &&
    (forall p :: p in host.lstat ==> Fits(platform, host.lstat[p]))
  }

  /** Whether a remote call can be made: local backends always, SSH with both sessions. */
  predicate Connected(platform: Platform, host: Host)
  {
    platform != Ssh || (host.session && host.sftp)
  }

  /** The names `.` and `..` that every listing code path skips. */
  predicate IsDot(name: string)
  {
    name == "." || name == ".."
  }

  /** The entries of a raw listing that are reported, in order: all but `.` and `..`. */
  function Visible(names: seq<string>): (r: seq<string>)
    ensures |r| <= |names|
    ensures forall i :: 0 <= i < |r| ==> !IsDot(r[i])
  {
    if names == [] then []
    else
      var last := names[|names| - 1];
      Visible(names[..|names| - 1]) + (if IsDot(last) then [] else [last])
  }

  /** Listing two parts one after the other reports both parts' entries. */
  lemma {:induction false} VisibleAppend(a: seq<string>, b: seq<string>)
    ensures Visible(a + b) == Visible(a) + Visible(b)
    decreases |b|
  {
    if b == [] {
      assert a + b == a;
    } else {
      var front, last := b[..|b| - 1], b[|b| - 1];
      assert (a + b)[..|a + b| - 1] == a + front;
      VisibleAppend(a, front);
    }
  }

  /** A name is reported exactly when it is in the raw listing and is not a dot entry. */
  lemma {:induction false} VisibleMembers(names: seq<string>, x: string)
    ensures x in Visible(names) <==> x in names && !IsDot(x)
    decreases |names|
  {
    if names != [] {
      var front, last := names[..|names| - 1], names[|names| - 1];
      assert names == front + [last];
      VisibleMembers(front, x);
    }
  }
}
