/**
 * The file-handle backends: the POSIX and Windows `LocalFileHandle` and
 * `SshFileHandle`. They share one shape (a path and lazily filled
 * attribute caches), so they are one class here whose file system says
 * which of the three it is. Every OS or libssh2 call is answered by a
 * Host value; a mutating call's success is a boolean parameter.
 */
module Backend {
  import opened Wrappers
  import opened Host
  import Perm = Permissions
  import PosixFileHandle
  import WindowsFileHandle
  import SshFileHandle
  import opened HandlePaths
  import FilePath

  /** A file system object: its identity and the backend family it opens handles of. */
  datatype FileSystem = FileSystem(id: nat, platform: Platform)

  /** A stream returned by createInputStream / createOutputStream: its path and whether it opened. */
  datatype Stream = Stream(path: string, good: bool)

  // ------------------------------------------------------------------
  // The attribute caches
  // ------------------------------------------------------------------

  /**
   * What readFileInfo leaves in the file cache: a filled cache is kept;
   * an empty one is filled by a stat, which leaves it empty when the path
   * is missing or, over SSH, when a session is missing.
   */
  function Filled(platform: Platform, cache: Option<Info>, host: Host, path: string): Option<Info>
  {
    if cache.Some? then cache
    else if Connected(platform, host) then Lookup(host.stat, path)
    else None
  }

  /** What the POSIX readLinkInfo leaves in the link cache: the same rule with lstat. */
  function LinkFilled(cache: Option<Info>, host: Host, path: string): Option<Info>
  {
    if cache.Some? then cache else Lookup(host.lstat, path)
  }

  /** Once the cache holds a record, later queries do not see the host change. */
  lemma FilledIsSticky(platform: Platform, cache: Option<Info>, host: Host, later: Host, path: string)
    requires Filled(platform, cache, host, path).Some?
    ensures Filled(platform, Filled(platform, cache, host, path), later, path) == Filled(platform, cache, host, path)
  {
  }

  /** A failed stat leaves the cache empty, so the next query asks the host again. */
  lemma FailedStatRetries(platform: Platform, cache: Option<Info>, host: Host, later: Host, path: string)
    requires Filled(platform, cache, host, path).None?
    ensures cache.None?
    ensures Filled(platform, Filled(platform, cache, host, path), later, path) == Filled(platform, None, later, path)
  {
  }

  /** A filled cache holds what the host reported for the path when it was filled. */
  lemma FilledFromHost(platform: Platform, cache: Option<Info>, host: Host, path: string)
    requires cache.None? && Filled(platform, cache, host, path).Some?
    ensures Connected(platform, host) && path in host.stat
    ensures Filled(platform, cache, host, path) == Some(host.stat[path])
  {
  }

  // ------------------------------------------------------------------
  // The answers of the queries, from a cache
  // ------------------------------------------------------------------

  predicate CacheFits(platform: Platform, info: Option<Info>)
  {
    info.Some? ==> Fits(platform, info.value)
  }

  /** `isFile()`: POSIX S_ISREG, Windows directory bit clear, SSH bitwise S_IFREG. */
  predicate IsFileOf(platform: Platform, info: Option<Info>)
    requires CacheFits(platform, info)
  {
    info.Some? &&
    match platform
    case Posix => PosixFileHandle.IsRegular(info.value.mode)
    case Windows => WindowsFileHandle.IsFile(info.value)
    case Ssh => SshFileHandle.PassesFileTest(info.value.mode)
  }

  /** `isDirectory()`: POSIX S_ISDIR, Windows directory bit set, SSH bitwise S_IFDIR. */
  predicate IsDirectoryOf(platform: Platform, info: Option<Info>)
    requires CacheFits(platform, info)
  {
    info.Some? &&
    match platform
    case Posix => PosixFileHandle.IsDirectory(info.value.mode)
    case Windows => WindowsFileHandle.IsDirectory(info.value)
    case Ssh => SshFileHandle.PassesDirectoryTest(info.value.mode)
  }

  /**
   * `isSymbolicLink()`: S_ISLNK of the link record on POSIX, the
   * reparse-point bit of the file record on Windows, the bitwise S_IFLNK
   * test of the link record over SSH.
   */
  predicate IsSymbolicLinkOf(platform: Platform, fileInfo: Option<Info>, linkInfo: Option<Info>)
    requires CacheFits(platform, fileInfo) && CacheFits(platform, linkInfo)
  {
    match platform
    case Posix => linkInfo.Some? && PosixFileHandle.IsLink(linkInfo.value.mode)
    case Windows => fileInfo.Some? && WindowsFileHandle.IsSymbolicLink(fileInfo.value)
    case Ssh => linkInfo.Some? && SshFileHandle.PassesLinkTest(linkInfo.value.mode)
  }

  /** `size()`: 0 without a record. */
  function SizeOf(platform: Platform, info: Option<Info>): nat
    requires CacheFits(platform, info)
  {
    if info.None? then 0
    else match platform
      case Posix => PosixFileHandle.Size(info.value)
      case Windows => WindowsFileHandle.Size(info.value)
      case Ssh => SshFileHandle.Size(info.value)
  }

  /** `accessTime()`: 0 without a record. */
  function AccessTimeOf(platform: Platform, info: Option<Info>): nat
    requires CacheFits(platform, info)
  {
    if info.None? then 0
    else match platform
      case Posix => PosixFileHandle.AccessTime(info.value)
      case Windows => WindowsFileHandle.AccessTime(info.value)
      case Ssh => UInt(info.value.atime)
  }

  /** `modificationTime()`: 0 without a record. */
  function ModificationTimeOf(platform: Platform, info: Option<Info>): nat
    requires CacheFits(platform, info)
  {
    if info.None? then 0
    else match platform
      case Posix => PosixFileHandle.ModificationTime(info.value)
      case Windows => WindowsFileHandle.ModificationTime(info.value)
      case Ssh => UInt(info.value.mtime)
  }

  /** `userId()`: the owner as `unsigned int`; always 0 on Windows and without a record. */
  function UserIdOf(platform: Platform, info: Option<Info>): nat
    requires CacheFits(platform, info)
  {
    if info.None? || platform == Windows then 0 else UInt(info.value.uid)
  }

  /** `groupId()`: the group as `unsigned int`; always 0 on Windows and without a record. */
  function GroupIdOf(platform: Platform, info: Option<Info>): nat
    requires CacheFits(platform, info)
  {
    if info.None? || platform == Windows then 0 else UInt(info.value.gid)
  }

  /**
   * `permissions()`: the nine flags of the mode; always 0 on Windows and
   * without a record. The POSIX and SSH handles convert the mode the same way.
   */
  function PermissionsOf(platform: Platform, info: Option<Info>): bv64
    requires CacheFits(platform, info)
  {
    if info.None? || platform == Windows then 0
    else PosixFileHandle.PermissionsOf(info.value)
  }

  /** On Windows an existing entry is exactly one of file and directory; a missing one is neither. */
  lemma WindowsKinds(info: Option<Info>)
    requires CacheFits(Windows, info)
    ensures info.Some? ==> IsFileOf(Windows, info) != IsDirectoryOf(Windows, info)
    ensures info.None? ==> !IsFileOf(Windows, info) && !IsDirectoryOf(Windows, info)
  {
    if info.Some? {
      WindowsFileHandle.FileOrDirectory(info.value);
    }
  }

  /** On POSIX nothing is both a file and a directory, and only a regular file has a size. */
  lemma PosixKinds(info: Option<Info>)
    requires CacheFits(Posix, info)
    ensures !(IsFileOf(Posix, info) && IsDirectoryOf(Posix, info))
    ensures SizeOf(Posix, info) != 0 ==> IsFileOf(Posix, info)
  {
    if info.Some? {
      PosixFileHandle.TypesExclusive(info.value.mode);
    }
  }

  /** Over SSH a socket is reported as both a file and a directory. */
  lemma SshSocketIsBoth(info: Option<Info>)
    requires info.Some? && info.value.Stat? && info.value.mode == SshFileHandle.SocketType
    ensures IsFileOf(Ssh, info) && IsDirectoryOf(Ssh, info)
  {
    SshFileHandle.BitwiseTestsMisclassify();
  }

  /** What listFiles reports: the visible names of the directory, or nothing when it does not open. */
  function ListingOf(platform: Platform, path: string, host: Host): seq<string>
  {
    match platform
    case Posix => (match Lookup(host.listing, path) case None => [] case Some(raw) => Visible(raw))
    case Windows =>
      (match Lookup(host.listing, FilePath.Analysis(FilePath.Unify(path)).fullPath)
       case None => []
       case Some(raw) => Visible(raw))
    case Ssh =>
      if !Connected(Ssh, host) then []
      else (match Lookup(host.listing, path) case None => [] case Some(raw) => Visible(raw))
  }

  /** listFiles never reports `.` or `..`, and reports every other name the directory yields. */
  lemma ListingMembers(platform: Platform, path: string, host: Host, x: string)
    requires platform != Windows && Connected(platform, host) && path in host.listing
    ensures x in ListingOf(platform, path, host) <==> x in host.listing[path] && !IsDot(x)
  {
    VisibleMembers(host.listing[path], x);
  }

  /** The loop of listFiles: every raw entry in order, `.` and `..` skipped. */
  method CollectNames(raw: seq<string>) returns (entries: seq<string>)
    ensures entries == Visible(raw)
  {
    entries := [];
    var i := 0;
    while i < |raw|
      invariant 0 <= i <= |raw|
      invariant entries == Visible(raw[..i])
    {
      var name := raw[i];
      assert raw[..i + 1][..i] == raw[..i];
      if name != ".." && name != "." {
        entries := entries + [name];
      }
      i := i + 1;
    }
    assert raw[..i] == raw;
  }

  class FileHandleBackend {
    const fs: FileSystem
    var path: string
    var fileInfo: Option<Info>
    var linkInfo: Option<Info>

    /** Cached records have the platform's kind; the Windows handle has no link cache. */
    predicate Valid()
      reads this
    {
      CacheFits(fs.platform, fileInfo) && CacheFits(fs.platform, linkInfo) &&
      (fs.platform == Windows ==> linkInfo.None?)
    }

    /** A handle on `path` with nothing cached. */
    constructor (fs: FileSystem, path: string)
      ensures Valid() && this.fs == fs && this.path == path
      ensures fileInfo.None? && linkInfo.None?
    {
      this.fs := fs;
      this.path := path;
      fileInfo := None;
      linkInfo := None;
    }

    /** `clone()`: a new handle on the same file system and path, with nothing cached. */
    method Clone() returns (r: FileHandleBackend)
      ensures fresh(r) && r.Valid() && r.fs == fs && r.path == path
      ensures r.fileInfo.None? && r.linkInfo.None?
    {
      r := new FileHandleBackend(fs, path);
    }

    /** `updateFileInfo()`: both caches emptied. */
    method UpdateFileInfo()
      modifies this
      ensures path == old(path) && fileInfo.None? && linkInfo.None?
    {
      fileInfo := None;
      linkInfo := None;
    }

    /** `readFileInfo()`: stat only when nothing is cached, and over SSH only with both sessions. */
    method ReadFileInfo(host: Host)
      requires Valid() && HostFits(fs.platform, host)
      modifies this
      ensures Valid() && path == old(path) && linkInfo == old(linkInfo)
      ensures fileInfo == Filled(fs.platform, old(fileInfo), host, path)
    {
      if fileInfo.Some? {
        return;
      }
      if fs.platform == Ssh && !(host.session && host.sftp) {
        return;
      }
      fileInfo := Lookup(host.stat, path);
    }

    /**
     * `readLinkInfo()`: on POSIX an lstat into the link cache; over SSH as
     * written, with the lstat answer landing in the file cache and the
     * link cache keeping the freshly allocated `block`. The Windows handle
     * has none.
     */
    method ReadLinkInfo(host: Host, block: Info)
      requires Valid() && HostFits(fs.platform, host) && fs.platform != Windows && Fits(fs.platform, block)
      modifies this
      ensures Valid() && path == old(path)
      ensures fs.platform == Posix ==> fileInfo == old(fileInfo) && linkInfo == LinkFilled(old(linkInfo), host, path)
      ensures fs.platform == Ssh ==>
        SshFileHandle.Caches(fileInfo, linkInfo) ==
        SshFileHandle.ReadLinkInfoAsWritten(SshFileHandle.Caches(old(fileInfo), old(linkInfo)), host, path, block)
    {
      if linkInfo.Some? {
        return;
      }
      if fs.platform == Posix {
        linkInfo := Lookup(host.lstat, path);
        return;
      }
      if !(host.session && host.sftp) {
        return;
      }
      var answer := Lookup(host.lstat, path);
      if answer.None? {
        linkInfo := None;
      } else {
        linkInfo := Some(block);
        if fileInfo.Some? {
          fileInfo := answer;
        }
      }
    }

    /** `exists()`: a record could be read. */
    method Exists(host: Host) returns (r: bool)
      requires Valid() && HostFits(fs.platform, host)
      modifies this
      ensures Valid() && path == old(path) && linkInfo == old(linkInfo)
      ensures fileInfo == Filled(fs.platform, old(fileInfo), host, path)
      ensures r == fileInfo.Some?
    {
      ReadFileInfo(host);
      r := fileInfo.Some?;
    }

    method IsFile(host: Host) returns (r: bool)
      requires Valid() && HostFits(fs.platform, host)
      modifies this
      ensures Valid() && path == old(path) && linkInfo == old(linkInfo)
      ensures fileInfo == Filled(fs.platform, old(fileInfo), host, path)
      ensures r == IsFileOf(fs.platform, fileInfo)
    {
      ReadFileInfo(host);
      r := IsFileOf(fs.platform, fileInfo);
    }

    method IsDirectory(host: Host) returns (r: bool)
      requires Valid() && HostFits(fs.platform, host)
      modifies this
      ensures Valid() && path == old(path) && linkInfo == old(linkInfo)
      ensures fileInfo == Filled(fs.platform, old(fileInfo), host, path)
      ensures r == IsDirectoryOf(fs.platform, fileInfo)
    {
      ReadFileInfo(host);
      r := IsDirectoryOf(fs.platform, fileInfo);
    }

    /** `isSymbolicLink()`: through the link cache, except on Windows. */
    method IsSymbolicLink(host: Host, block: Info) returns (r: bool)
      requires Valid() && HostFits(fs.platform, host) && Fits(fs.platform, block)
      modifies this
      ensures Valid() && path == old(path)
      ensures fs.platform == Windows ==> linkInfo == old(linkInfo) && fileInfo == Filled(Windows, old(fileInfo), host, path)
      ensures fs.platform == Posix ==> fileInfo == old(fileInfo) && linkInfo == LinkFilled(old(linkInfo), host, path)
      ensures fs.platform == Ssh ==>
        SshFileHandle.Caches(fileInfo, linkInfo) ==
        SshFileHandle.ReadLinkInfoAsWritten(SshFileHandle.Caches(old(fileInfo), old(linkInfo)), host, path, block)
      ensures r == IsSymbolicLinkOf(fs.platform, fileInfo, linkInfo)
    {
      if fs.platform == Windows {
        ReadFileInfo(host);
      } else {
        ReadLinkInfo(host, block);
      }
      r := IsSymbolicLinkOf(fs.platform, fileInfo, linkInfo);
    }

    /** `listFiles()`: the directory's names without `.` and `..`. */
    method ListFiles(host: Host) returns (entries: seq<string>)
      ensures entries == ListingOf(fs.platform, path, host)
    {
      var key := path;
      if fs.platform == Ssh && !(host.session && host.sftp) {
        return [];
      }
      if fs.platform == Windows {
        key := FilePath.Analysis(FilePath.Unify(path)).fullPath;
      }
      if key !in host.listing {
        return [];
      }
      entries := CollectNames(host.listing[key]);
    }

    method Size(host: Host) returns (r: nat)
      requires Valid() && HostFits(fs.platform, host)
      modifies this
      ensures Valid() && path == old(path) && linkInfo == old(linkInfo)
      ensures fileInfo == Filled(fs.platform, old(fileInfo), host, path)
      ensures r == SizeOf(fs.platform, fileInfo)
    {
      ReadFileInfo(host);
      r := SizeOf(fs.platform, fileInfo);
    }

    method AccessTime(host: Host) returns (r: nat)
      requires Valid() && HostFits(fs.platform, host)
      modifies this
      ensures Valid() && path == old(path) && linkInfo == old(linkInfo)
      ensures fileInfo == Filled(fs.platform, old(fileInfo), host, path)
      ensures r == AccessTimeOf(fs.platform, fileInfo)
    {
      ReadFileInfo(host);
      r := AccessTimeOf(fs.platform, fileInfo);
    }

    method ModificationTime(host: Host) returns (r: nat)
      requires Valid() && HostFits(fs.platform, host)
      modifies this
      ensures Valid() && path == old(path) && linkInfo == old(linkInfo)
      ensures fileInfo == Filled(fs.platform, old(fileInfo), host, path)
      ensures r == ModificationTimeOf(fs.platform, fileInfo)
    {
      ReadFileInfo(host);
      r := ModificationTimeOf(fs.platform, fileInfo);
    }

    /** `userId()`; the Windows handle answers 0 without reading anything. */
    method UserId(host: Host) returns (r: nat)
      requires Valid() && HostFits(fs.platform, host)
      modifies this
      ensures Valid() && path == old(path) && linkInfo == old(linkInfo)
      ensures fileInfo == if fs.platform == Windows then old(fileInfo) else Filled(fs.platform, old(fileInfo), host, path)
      ensures r == UserIdOf(fs.platform, fileInfo)
    {
      if fs.platform == Windows {
        return 0;
      }
      ReadFileInfo(host);
      r := UserIdOf(fs.platform, fileInfo);
    }

    /** `groupId()`; the Windows handle answers 0 without reading anything. */
    method GroupId(host: Host) returns (r: nat)
      requires Valid() && HostFits(fs.platform, host)
      modifies this
      ensures Valid() && path == old(path) && linkInfo == old(linkInfo)
      ensures fileInfo == if fs.platform == Windows then old(fileInfo) else Filled(fs.platform, old(fileInfo), host, path)
      ensures r == GroupIdOf(fs.platform, fileInfo)
    {
      if fs.platform == Windows {
        return 0;
      }
      ReadFileInfo(host);
      r := GroupIdOf(fs.platform, fileInfo);
    }

    /** `permissions()`; the Windows handle answers 0 without reading anything. */
    method Permissions(host: Host) returns (r: bv64)
      requires Valid() && HostFits(fs.platform, host)
      modifies this
      ensures Valid() && path == old(path) && linkInfo == old(linkInfo)
      ensures fileInfo == if fs.platform == Windows then old(fileInfo) else Filled(fs.platform, old(fileInfo), host, path)
      ensures r == PermissionsOf(fs.platform, fileInfo)
    {
      if fs.platform == Windows {
        return 0;
      }
      ReadFileInfo(host);
      r := PermissionsOf(fs.platform, fileInfo);
    }

    /**
     * `setUserId(uid)`: asks for owner `uid` and the current group (read
     * through the cache first), then empties the caches whatever the
     * outcome. The Windows handle does nothing. `request` is the
     * (owner, group) pair sent to chown or the SFTP setstat.
     */
    method SetUserId(uid: nat, host: Host) returns (request: Option<(nat, nat)>)
      requires Valid() && HostFits(fs.platform, host)
      modifies this
      ensures Valid() && path == old(path)
      ensures fs.platform == Windows ==> request.None? && fileInfo == old(fileInfo) && linkInfo == old(linkInfo)
      ensures fs.platform != Windows ==>
        request == Some((uid, GroupIdOf(fs.platform, Filled(fs.platform, old(fileInfo), host, path)))) &&
        fileInfo.None? && linkInfo.None?
    {
      if fs.platform == Windows {
        return None;
      }
      var gid := GroupId(host);
      request := Some((uid, gid));
      UpdateFileInfo();
    }

    /** `setGroupId(gid)`: as setUserId, with the current owner and the new group. */
    method SetGroupId(gid: nat, host: Host) returns (request: Option<(nat, nat)>)
      requires Valid() && HostFits(fs.platform, host)
      modifies this
      ensures Valid() && path == old(path)
      ensures fs.platform == Windows ==> request.None? && fileInfo == old(fileInfo) && linkInfo == old(linkInfo)
      ensures fs.platform != Windows ==>
        request == Some((UserIdOf(fs.platform, Filled(fs.platform, old(fileInfo), host, path)), gid)) &&
        fileInfo.None? && linkInfo.None?
    {
      if fs.platform == Windows {
        return None;
      }
      var uid := UserId(host);
      request := Some((uid, gid));
      UpdateFileInfo();
    }

    /**
     * `setPermissions(p)`: sends the mode holding the nine translated bits
     * and empties the caches. Windows does nothing; SSH without a session
     * returns before sending or emptying.
     */
    method SetPermissions(permissions: bv64, host: Host) returns (request: Option<bv32>)
      requires Valid()
      modifies this
      ensures Valid() && path == old(path)
      ensures request.Some? <==> Connected(fs.platform, host) && fs.platform != Windows
      ensures request.Some? ==> request.value == Perm.ToMode(permissions) && fileInfo.None? && linkInfo.None?
      ensures request.None? ==> fileInfo == old(fileInfo) && linkInfo == old(linkInfo)
    {
      if fs.platform == Windows {
        return None;
      }
      if fs.platform == Ssh && !(host.session && host.sftp) {
        return None;
      }
      request := Some(Perm.ToMode(permissions));
      UpdateFileInfo();
    }

    /**
     * `createDirectory()`: fails when anything exists at the path; on
     * success the caches are emptied. `ok` is the outcome of mkdir.
     */
    method CreateDirectory(host: Host, ok: bool) returns (r: bool)
      requires Valid() && HostFits(fs.platform, host)
      modifies this
      ensures Valid() && path == old(path)
      ensures r == (Connected(fs.platform, host) && Filled(fs.platform, old(fileInfo), host, path).None? && ok)
      ensures r ==> fileInfo.None? && linkInfo.None?
      ensures !r ==> fileInfo == Filled(fs.platform, old(fileInfo), host, path) && linkInfo == old(linkInfo)
    {
      if fs.platform == Ssh && !(host.session && host.sftp) {
        return false;
      }
      var present := Exists(host);
      if present || !ok {
        return false;
      }
      UpdateFileInfo();
      r := true;
    }

    /** `removeDirectory()`: needs a directory; on success the caches are emptied. */
    method RemoveDirectory(host: Host, ok: bool) returns (r: bool)
      requires Valid() && HostFits(fs.platform, host)
      modifies this
      ensures Valid() && path == old(path)
      ensures r == (Connected(fs.platform, host) && IsDirectoryOf(fs.platform, Filled(fs.platform, old(fileInfo), host, path)) && ok)
      ensures r ==> fileInfo.None? && linkInfo.None?
      ensures !r ==> fileInfo == Filled(fs.platform, old(fileInfo), host, path) && linkInfo == old(linkInfo)
    {
      if fs.platform == Ssh && !(host.session && host.sftp) {
        return false;
      }
      var isDirectory := IsDirectory(host);
      if !isDirectory || !ok {
        return false;
      }
      UpdateFileInfo();
      r := true;
    }

    /** `remove()`: needs a file; on success the caches are emptied. */
    method Remove(host: Host, ok: bool) returns (r: bool)
      requires Valid() && HostFits(fs.platform, host)
      modifies this
      ensures Valid() && path == old(path)
      ensures r == (Connected(fs.platform, host) && IsFileOf(fs.platform, Filled(fs.platform, old(fileInfo), host, path)) && ok)
      ensures r ==> fileInfo.None? && linkInfo.None?
      ensures !r ==> fileInfo == Filled(fs.platform, old(fileInfo), host, path) && linkInfo == old(linkInfo)
    {
      if fs.platform == Ssh && !(host.session && host.sftp) {
        return false;
      }
      var isFile := IsFile(host);
      if !isFile || !ok {
        return false;
      }
      UpdateFileInfo();
      r := true;
    }

    /** The destination of copy, move and link: `dest.path()`, or inside it when it is a directory. */
    method TargetIn(dest: FileHandleBackend, host: Host) returns (dst: string)
      requires dest.Valid() && HostFits(dest.fs.platform, host)
      modifies dest
      ensures dest.Valid() && dest.path == old(dest.path) && dest.linkInfo == old(dest.linkInfo)
      ensures dest.fileInfo == Filled(dest.fs.platform, old(dest.fileInfo), host, dest.path)
      ensures dst == Destination(path, dest.path, IsDirectoryOf(dest.fs.platform, dest.fileInfo))
    {
      dst := dest.path;
      var isDirectory := dest.IsDirectory(host);
      if isDirectory {
        dst := Destination(path, dest.path, true);
      }
    }

    /**
     * `copy(dest)`: needs a file (and, over SSH, a session). POSIX copies
     * through two file streams and reports whether both opened, without
     * emptying its caches; Windows (CopyFile) and SSH (`cp` run remotely)
     * report `ok` and empty the caches on success. `target` is the
     * destination path, once computed.
     */
    method Copy(dest: FileHandleBackend, host: Host, ok: bool) returns (r: bool, target: Option<string>)
      requires Valid() && dest.Valid() && dest.fs == fs && HostFits(fs.platform, host)
      modifies this, dest
      ensures Valid() && dest.Valid() && path == old(path) && dest.path == old(dest.path)
      ensures dest != this ==> dest.linkInfo == old(dest.linkInfo)
      ensures var info := Filled(fs.platform, old(fileInfo), host, path);
        var proceeds := (fs.platform != Ssh || host.session) && IsFileOf(fs.platform, info);
        var destInfo := Filled(fs.platform, old(dest.fileInfo), host, dest.path);
        target.Some? == proceeds &&
        (proceeds ==> target.value == Destination(path, dest.path, IsDirectoryOf(fs.platform, destInfo))) &&
        (dest != this ==> dest.fileInfo == if proceeds then destInfo else old(dest.fileInfo)) &&
        r == (proceeds &&
              if fs.platform == Posix then path in host.readable && target.value in host.writable else ok) &&
        (if r && fs.platform != Posix then fileInfo.None? && linkInfo.None?
         else fileInfo == info && linkInfo == old(linkInfo))
    {
      if fs.platform == Ssh && !host.session {
        return false, None;
      }
      var isFile := IsFile(host);
      if !isFile {
        return false, None;
      }
      var dst := TargetIn(dest, host);
      target := Some(dst);
      if fs.platform == Posix {
        r := path in host.readable && dst in host.writable;
        return;
      }
      if !ok {
        return false, target;
      }
      UpdateFileInfo();
      r := true;
    }

    /**
     * `move(dest)`: needs an existing entry (and, over SSH, both
     * sessions); on success the handle takes the destination path and
     * empties its caches. `ok` is the outcome of the rename.
     */
    method Move(dest: FileHandleBackend, host: Host, ok: bool) returns (r: bool, target: Option<string>)
      requires Valid() && dest.Valid() && dest.fs == fs && HostFits(fs.platform, host)
      modifies this, dest
      ensures Valid() && dest.Valid()
      ensures dest != this ==> dest.path == old(dest.path) && dest.linkInfo == old(dest.linkInfo)
      ensures var info := Filled(fs.platform, old(fileInfo), host, old(path));
        var proceeds := Connected(fs.platform, host) && info.Some?;
        var destInfo := Filled(fs.platform, old(dest.fileInfo), host, old(dest.path));
        target.Some? == proceeds &&
        (proceeds ==> target.value == Destination(old(path), old(dest.path), IsDirectoryOf(fs.platform, destInfo))) &&
        (dest != this ==> dest.fileInfo == if proceeds then destInfo else old(dest.fileInfo)) &&
        r == (proceeds && ok) &&
        (r ==> path == target.value && fileInfo.None? && linkInfo.None?) &&
        (!r ==> path == old(path) && fileInfo == info && linkInfo == old(linkInfo))
    {
      if fs.platform == Ssh && !(host.session && host.sftp) {
        return false, None;
      }
      var present := Exists(host);
      if !present {
        return false, None;
      }
      var dst := TargetIn(dest, host);
      target := Some(dst);
      if !ok {
        return false, target;
      }
      path := dst;
      UpdateFileInfo();
      r := true;
    }

    /**
     * `createLink(dest)`: a hard link at the destination. POSIX needs an
     * existing entry, Windows a file; over SSH it always fails. The caches
     * are not emptied.
     */
    method CreateLink(dest: FileHandleBackend, host: Host, ok: bool) returns (r: bool, target: Option<string>)
      requires Valid() && dest.Valid() && dest.fs == fs && HostFits(fs.platform, host)
      modifies this, dest
      ensures Valid() && dest.Valid() && path == old(path) && dest.path == old(dest.path)
      ensures linkInfo == old(linkInfo) && dest.linkInfo == old(dest.linkInfo)
      ensures fs.platform == Ssh ==> !r && target.None? && fileInfo == old(fileInfo) && dest.fileInfo == old(dest.fileInfo)
      ensures fs.platform != Ssh ==>
        var info := Filled(fs.platform, old(fileInfo), host, path);
        var proceeds := if fs.platform == Posix then info.Some? else IsFileOf(Windows, info);
        var destInfo := Filled(fs.platform, old(dest.fileInfo), host, dest.path);
        fileInfo == info && target.Some? == proceeds &&
        (proceeds ==> target.value == Destination(path, dest.path, IsDirectoryOf(fs.platform, destInfo))) &&
        (dest != this ==> dest.fileInfo == if proceeds then destInfo else old(dest.fileInfo)) &&
        r == (proceeds && ok)
    {
      if fs.platform == Ssh {
        return false, None;
      }
      var proceeds;
      if fs.platform == Posix {
        proceeds := Exists(host);
      } else {
        proceeds := IsFile(host);
      }
      if !proceeds {
        return false, None;
      }
      var dst := TargetIn(dest, host);
      target := Some(dst);
      r := ok;
    }

    /**
     * `createSymbolicLink(dest)`: a symbolic link at the destination. POSIX
     * and SSH need an existing entry (SSH also both sessions), Windows a
     * file. The caches are not emptied.
     */
    method CreateSymbolicLink(dest: FileHandleBackend, host: Host, ok: bool) returns (r: bool, target: Option<string>)
      requires Valid() && dest.Valid() && dest.fs == fs && HostFits(fs.platform, host)
      modifies this, dest
      ensures Valid() && dest.Valid() && path == old(path) && dest.path == old(dest.path)
      ensures linkInfo == old(linkInfo) && dest.linkInfo == old(dest.linkInfo)
      ensures var info := Filled(fs.platform, old(fileInfo), host, path);
        var proceeds := Connected(fs.platform, host) &&
          if fs.platform == Windows then IsFileOf(Windows, info) else info.Some?;
        var destInfo := Filled(fs.platform, old(dest.fileInfo), host, dest.path);
        fileInfo == info && target.Some? == proceeds &&
        (proceeds ==> target.value == Destination(path, dest.path, IsDirectoryOf(fs.platform, destInfo))) &&
        (dest != this ==> dest.fileInfo == if proceeds then destInfo else old(dest.fileInfo)) &&
        r == (proceeds && ok)
    {
      if fs.platform == Ssh && !(host.session && host.sftp) {
        return false, None;
      }
      var proceeds;
      if fs.platform == Windows {
        proceeds := IsFile(host);
      } else {
        proceeds := Exists(host);
      }
      if !proceeds {
        return false, None;
      }
      var dst := TargetIn(dest, host);
      target := Some(dst);
      r := ok;
    }

    /**
     * `rename(filename)`: needs an existing entry (and, over SSH, both
     * sessions); the new path is `filename` inside the old directory, and
     * on success the handle takes it and empties its caches.
     */
    method Rename(filename: string, host: Host, ok: bool) returns (r: bool, target: Option<string>)
      requires Valid() && HostFits(fs.platform, host)
      modifies this
      ensures Valid()
      ensures var info := Filled(fs.platform, old(fileInfo), host, old(path));
        var proceeds := Connected(fs.platform, host) && info.Some?;
        target == (if proceeds then Some(RenameTarget(old(path), filename)) else None) &&
        r == (proceeds && ok) &&
        (r ==> path == target.value && fileInfo.None? && linkInfo.None?) &&
        (!r ==> path == old(path) && fileInfo == info && linkInfo == old(linkInfo))
    {
      if fs.platform == Ssh && !(host.session && host.sftp) {
        return false, None;
      }
      var present := Exists(host);
      if !present {
        return false, None;
      }
      target := Some(RenameTarget(path, filename));
      if !ok {
        return false, target;
      }
      path := target.value;
      UpdateFileInfo();
      r := true;
    }

    /**
     * `createInputStream()`: a local handle always returns a stream, which
     * is good when the file opens; SSH returns none without both sessions
     * or when the file test fails.
     */
    method CreateInputStream(host: Host) returns (s: Option<Stream>)
      requires Valid() && HostFits(fs.platform, host)
      modifies this
      ensures Valid() && path == old(path) && linkInfo == old(linkInfo)
      ensures fs.platform != Ssh ==> fileInfo == old(fileInfo) && s == Some(Stream(path, path in host.readable))
      ensures fs.platform == Ssh ==>
        fileInfo == Filled(Ssh, old(fileInfo), host, path) &&
        s == if Connected(Ssh, host) && IsFileOf(Ssh, fileInfo) then Some(Stream(path, path in host.readable)) else None
    {
      if fs.platform != Ssh {
        return Some(Stream(path, path in host.readable));
      }
      if !(host.session && host.sftp) {
        return None;
      }
      var isFile := IsFile(host);
      if !isFile {
        return None;
      }
      s := Some(Stream(path, path in host.readable));
    }

    /** `createOutputStream()`: a local handle always returns a stream; SSH none without both sessions. */
    method CreateOutputStream(host: Host) returns (s: Option<Stream>)
      ensures s == if Connected(fs.platform, host) then Some(Stream(path, path in host.writable)) else None
    {
      if fs.platform == Ssh && !(host.session && host.sftp) {
        return None;
      }
      s := Some(Stream(path, path in host.writable));
    }
  }
}
