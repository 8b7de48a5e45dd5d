/**
 * What the POSIX `LocalFileHandle` reads out of a `struct stat`: the file
 * type through S_ISREG / S_ISDIR / S_ISLNK, the size of regular files, the
 * times and owner converted to `unsigned int`, and the permission flags.
 */
module PosixFileHandle {
  import opened Host
  import Permissions

  /** S_IFMT and the three type values used (octal 0170000, 0100000, 0040000, 0120000). */
  const TypeMask: bv32 := 0xF000
  const RegularType: bv32 := 0x8000
  const DirectoryType: bv32 := 0x4000
  const LinkType: bv32 := 0xA000

  /** S_ISREG: the type field says regular file. */
  predicate IsRegular(mode: bv32)
  {
    mode & TypeMask == RegularType
  }

  /** S_ISDIR: the type field says directory. */
  predicate IsDirectory(mode: bv32)
  {
    mode & TypeMask == DirectoryType
  }

  /** S_ISLNK: the type field says symbolic link. */
  predicate IsLink(mode: bv32)
  {
    mode & TypeMask == LinkType
  }

  /** A mode is of at most one of the three types, and the permission bits do not change its type. */
  lemma TypesExclusive(mode: bv32)
    ensures !(IsRegular(mode) && IsDirectory(mode))
    ensures !(IsRegular(mode) && IsLink(mode))
    ensures !(IsDirectory(mode) && IsLink(mode))
    ensures IsRegular(mode) <==> IsRegular(mode & !Permissions.AllModeBits)
  {
  }

  /** `size()`: st_size for a regular file, truncated to `unsigned int`; 0 for anything else. */
  function Size(info: Info): (r: nat)
    requires info.Stat?
    ensures r < Word
    ensures r != 0 ==> IsRegular(info.mode)
    ensures IsRegular(info.mode) && info.size < Word ==> r == info.size
  {
    if IsRegular(info.mode) then UInt(info.size) else 0
  }

  /** `accessTime()`: st_atime as `unsigned int`. */
  function AccessTime(info: Info): (r: nat)
    requires info.Stat?
    ensures r < Word && (info.atime < Word ==> r == info.atime)
  {
    UInt(info.atime)
  }

  /** `modificationTime()`: st_mtime as `unsigned int`. */
  function ModificationTime(info: Info): (r: nat)
    requires info.Stat?
    ensures r < Word && (info.mtime < Word ==> r == info.mtime)
  {
    UInt(info.mtime)
  }

  /** `permissions()`: the nine flags read from st_mode. */
  function PermissionsOf(info: Info): (r: bv64)
    requires info.Stat?
    ensures r & !Permissions.AllFlags == 0
    ensures Permissions.ToMode(r) == info.mode & Permissions.AllModeBits
  {
    Permissions.ModeRoundTrip(info.mode);
    Permissions.FromMode(info.mode)
  }

  /** A 5 GiB regular file reports 1 GiB: the size wraps at 2^32. */
  lemma LargeFileWraps()
    ensures Size(Stat(RegularType, 5 * 0x4000_0000, 0, 0, 0, 0)) == 0x4000_0000
  {
  }

  // ------------------------------------------------------------------
  // What copy does to the files' contents
  // ------------------------------------------------------------------

  /**
   * The contents after `copy` as written: the output stream on `dst`
   * empties that file when it opens, after the input stream on `src` has
   * opened but before anything is read, and then the source's contents,
   * as they are by then, are written to `dst`.
   */
  function CopiedAsWritten(files: map<string, seq<bv8>>, src: string, dst: string): (r: map<string, seq<bv8>>)
    requires src in files
    ensures r.Keys == files.Keys + {dst}
    ensures forall p :: p in files && p != dst ==> r[p] == files[p]
  {
    var truncated := files[dst := []];
    truncated[dst := truncated[src]]
  }

  /** Copying a file onto itself empties it, although the copy reports success. */
  lemma SelfCopyEmpties(files: map<string, seq<bv8>>, src: string)
    requires src in files
    ensures CopiedAsWritten(files, src, src)[src] == []
    ensures files[src] != [] ==> CopiedAsWritten(files, src, src)[src] != files[src]
  {
  }

  /**
   * The corrected copy: the destination ends up holding what the source
   * held, and no other file changes; a copy onto itself changes nothing.
   */
  function Copied(files: map<string, seq<bv8>>, src: string, dst: string): (r: map<string, seq<bv8>>)
    requires src in files
    ensures r.Keys == files.Keys + {dst}
    ensures r[dst] == files[src]
    ensures forall p :: p in files && p != dst ==> r[p] == files[p]
  {
    if src == dst then files else files[dst := files[src]]
  }

  /** Both copies agree whenever source and destination differ. */
  lemma CopiesAgreeApart(files: map<string, seq<bv8>>, src: string, dst: string)
    requires src in files && src != dst
    ensures CopiedAsWritten(files, src, dst) == Copied(files, src, dst)
  {
  }
}
