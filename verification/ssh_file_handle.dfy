/**
 * What `SshFileHandle` reads out of the SFTP attributes, the shell command
 * its copy runs on the remote machine, and the caches its readLinkInfo
 * leaves behind.
 */
module SshFileHandle {
  import opened Wrappers
  import opened Host
  import opened StdString

  /** LIBSSH2_SFTP_S_IFMT and the type values, equal to the POSIX ones. */
  const TypeMask: bv32 := 0xF000
  const RegularType: bv32 := 0x8000
  const DirectoryType: bv32 := 0x4000
  const LinkType: bv32 := 0xA000
  const SocketType: bv32 := 0xC000

  // ------------------------------------------------------------------
  // Type tests, as written: a bitwise AND with the type value
  // ------------------------------------------------------------------

  /** `isFile()` as written: any bit of S_IFREG set. */
  predicate PassesFileTest(mode: bv32)
  {
    mode & RegularType != 0
  }

  /** `isDirectory()` as written: any bit of S_IFDIR set. */
  predicate PassesDirectoryTest(mode: bv32)
  {
    mode & DirectoryType != 0
  }

  /** `isSymbolicLink()` as written: any bit of S_IFLNK set. */
  predicate PassesLinkTest(mode: bv32)
  {
    mode & LinkType != 0
  }

  /**
   * The bitwise tests misclassify: a regular file passes the link test, a
   * symbolic link passes the file test, and a socket passes both the file
   * and the directory test.
   */
  lemma BitwiseTestsMisclassify()
    ensures PassesLinkTest(RegularType | 0x1A4)
    ensures PassesFileTest(LinkType | 0x1FF)
    ensures PassesFileTest(SocketType) && PassesDirectoryTest(SocketType)
  {
  }

  // ------------------------------------------------------------------
  // Type tests, corrected: compare the type field
  // ------------------------------------------------------------------

  /** The type field is the regular-file value. */
  predicate IsRegular(mode: bv32)
  {
    mode & TypeMask == RegularType
  }

  /** The type field is the directory value. */
  predicate IsDirectory(mode: bv32)
  {
    mode & TypeMask == DirectoryType
  }

  /** The type field is the symbolic-link value. */
  predicate IsLink(mode: bv32)
  {
    mode & TypeMask == LinkType
  }

  /**
   * Comparing the type field gives at most one type, and agrees with the
   * bitwise test on the three types the tests are meant for.
   */
  lemma TypeFieldTestsExclusive(mode: bv32)
    ensures !(IsRegular(mode) && IsDirectory(mode))
    ensures !(IsRegular(mode) && IsLink(mode))
    ensures !(IsDirectory(mode) && IsLink(mode))
    ensures IsRegular(mode) ==> PassesFileTest(mode)
    ensures IsDirectory(mode) ==> PassesDirectoryTest(mode)
    ensures IsLink(mode) ==> PassesLinkTest(mode)
  {
  }

  // ------------------------------------------------------------------
  // Attributes
  // ------------------------------------------------------------------

  /** `size()`: the file size as `unsigned int` when the file test passes, else 0. */
  function Size(info: Info): (r: nat)
    requires info.Stat?
    ensures r < Word
    ensures r != 0 ==> PassesFileTest(info.mode)
    ensures PassesFileTest(info.mode) && info.size < Word ==> r == info.size
  {
    if PassesFileTest(info.mode) then UInt(info.size) else 0
  }

  /** A symbolic link reports its size, since it passes the file test. */
  lemma LinkReportsSize(n: nat)
    requires 0 < n < Word
    ensures Size(Stat(LinkType, n, 0, 0, 0, 0)) == n
  {
  }

  // ------------------------------------------------------------------
  // The remote copy command
  // ------------------------------------------------------------------

  /** `cp "<src>" "<dst>"`, with the paths inserted verbatim. */
  function CopyCommand(src: string, dst: string): (r: string)
    ensures |r| == |src| + |dst| + 8
    ensures r[..4] == "cp \"" && r[|r| - 1] == '"'
  {
    "cp \"" + src + "\" \"" + dst + "\""
  }

  /** Reads a command of the copy form back into its two paths, cutting at the first quote. */
  function ParseCopyCommand(cmd: string): Option<(string, string)>
  {
    if |cmd| < 8 || cmd[..4] != "cp \"" || cmd[|cmd| - 1] != '"' then None
    else
      var body := cmd[4..|cmd| - 1];
      match FindChar(body, '"', 0)
      case None => None
      case Some(k) =>
        if k + 3 <= |body| && body[k..k + 3] == "\" \"" then Some((body[..k], body[k + 3..]))
        else None
  }

  /** For paths without a double quote, the command determines both paths. */
  lemma CopyCommandParses(src: string, dst: string)
    requires '"' !in src && '"' !in dst
    ensures ParseCopyCommand(CopyCommand(src, dst)) == Some((src, dst))
  {
    var cmd := CopyCommand(src, dst);
    var body := cmd[4..|cmd| - 1];
    assert body == src + "\" \"" + dst;
    assert body[|src|] == '"';
    assert body[..|src|] == src;
    assert FindChar(body, '"', 0) == Some(|src|);
    assert body[|src|..|src| + 3] == "\" \"";
    assert body[|src| + 3..] == dst;
  }

  /** With quotes in the paths, two different copies run the same command. */
  lemma CopyCommandAmbiguous()
    ensures CopyCommand("a\" \"b", "c") == CopyCommand("a", "b\" \"c")
  {
  }

  // ------------------------------------------------------------------
  // readLinkInfo
  // ------------------------------------------------------------------

  /** The two attribute caches of a handle: file information and link information. */
  datatype Caches = Caches(fileInfo: Option<Info>, linkInfo: Option<Info>)

  /**
   * The caches after readLinkInfo as written: a fresh link record is
   * allocated, but the lstat answer is written into the file-information
   * record, so the link record keeps whatever `block` the allocation
   * returned. With no file record, the write goes through a null pointer
   * and is lost here.
   */
  function ReadLinkInfoAsWritten(c: Caches, host: Host, path: string, block: Info): (r: Caches)
    ensures c.linkInfo.Some? ==> r == c
    ensures r.linkInfo.Some? && c.linkInfo.None? ==> r.linkInfo == Some(block)
  {
    if c.linkInfo.Some? || !Connected(Ssh, host) then c
    else match Lookup(host.lstat, path)
      case None => Caches(c.fileInfo, None)
      case Some(a) => Caches(if c.fileInfo.Some? then Some(a) else None, Some(block))
  }

  /** The caches after readLinkInfo as intended: the lstat answer lands in the link record. */
  function ReadLinkInfo(c: Caches, host: Host, path: string): (r: Caches)
    ensures r.fileInfo == c.fileInfo
    ensures c.linkInfo.None? && Connected(Ssh, host) ==> r.linkInfo == Lookup(host.lstat, path)
    ensures c.linkInfo.Some? ==> r == c
  {
    if c.linkInfo.Some? || !Connected(Ssh, host) then c
    else Caches(c.fileInfo, Lookup(host.lstat, path))
  }

  /**
   * A symbolic link to a regular file, whose file record is cached: as
   * written, isSymbolicLink reads the untouched block and says no, and the
   * file record now describes the link; as intended it says yes and the
   * file record stays.
   */
  lemma LinkInfoLandsInFileRecord(path: string)
    ensures var target := Stat(RegularType | 0x1A4, 10, 0, 0, 0, 0);
      var link := Stat(LinkType | 0x1FF, 4, 0, 0, 0, 0);
      var host := Host(map[path := target], map[path := link], map[], {}, {}, map[], true, true);
      var before := Caches(Some(target), None);
      var block := Stat(0, 0, 0, 0, 0, 0);
      var asWritten := ReadLinkInfoAsWritten(before, host, path, block);
      var intended := ReadLinkInfo(before, host, path);
      !PassesLinkTest(asWritten.linkInfo.value.mode) && asWritten.fileInfo == Some(link) &&
      IsLink(intended.linkInfo.value.mode) && intended.fileInfo == Some(target)
  {
  }
}
