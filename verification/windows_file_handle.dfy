/**
 * What the Windows `LocalFileHandle` reads out of WIN32_FILE_ATTRIBUTE_DATA:
 * the type from two attribute bits, and size and times from 32-bit halves
 * that are joined and then cast to `unsigned int`.
 */
module WindowsFileHandle {
  import opened Host

  /** FILE_ATTRIBUTE_DIRECTORY and FILE_ATTRIBUTE_REPARSE_POINT. */
  const DirectoryAttribute: bv32 := 0x10
  const ReparsePointAttribute: bv32 := 0x400

  /** `isFile()` of an existing entry: the directory bit is clear. */
  predicate IsFile(info: Info)
    requires Fits(Windows, info)
  {
    info.attributes & DirectoryAttribute == 0
  }

  /** `isDirectory()` of an existing entry: the directory bit is set. */
  predicate IsDirectory(info: Info)
    requires Fits(Windows, info)
  {
    info.attributes & DirectoryAttribute != 0
  }

  /** `isSymbolicLink()`: the reparse-point bit is set. */
  predicate IsSymbolicLink(info: Info)
    requires Fits(Windows, info)
  {
    info.attributes & ReparsePointAttribute != 0
  }

  /** An existing entry is exactly one of file and directory, whatever its other bits. */
  lemma FileOrDirectory(info: Info)
    requires Fits(Windows, info)
    ensures IsFile(info) != IsDirectory(info)
  {
  }

  /**
   * `static_cast<unsigned int>(high << 32 | low)` on 32-bit halves: the
   * value the 64-bit number would have, cast back to 32 bits.
   */
  function Joined(high: nat, low: nat): (r: nat)
    requires high < Word && low < Word
    ensures r < Word
  {
    UInt(high * Word + low)
  }

  /** The cast keeps only the low half: the high half is lost. */
  lemma JoinedIsLowHalf(high: nat, low: nat)
    requires high < Word && low < Word
    ensures Joined(high, low) == low
  {
    assert (high * Word + low) % Word == low by {
      LowHalf(high, low);
    }
  }

  lemma LowHalf(high: nat, low: nat)
    requires low < Word
    ensures (high * Word + low) % Word == low
  {
    var x := high * Word + low;
    assert x == high * Word + low;
    assert x / Word == high;
  }

  /** `size()`: only the low 32 bits of the size, for files and directories alike. */
  function Size(info: Info): (r: nat)
    requires Fits(Windows, info)
    ensures r == info.sizeLow
  {
    JoinedIsLowHalf(info.sizeHigh, info.sizeLow);
    Joined(info.sizeHigh, info.sizeLow)
  }

  /** `accessTime()`: only the low 32 bits of the last-access FILETIME. */
  function AccessTime(info: Info): (r: nat)
    requires Fits(Windows, info)
    ensures r == info.accessLow
  {
    JoinedIsLowHalf(info.accessHigh, info.accessLow);
    Joined(info.accessHigh, info.accessLow)
  }

  /** `modificationTime()`: only the low 32 bits of the last-write FILETIME. */
  function ModificationTime(info: Info): (r: nat)
    requires Fits(Windows, info)
    ensures r == info.writeLow
  {
    JoinedIsLowHalf(info.writeHigh, info.writeLow);
    Joined(info.writeHigh, info.writeLow)
  }

  /** Two files whose sizes differ by a multiple of 4 GiB report the same size. */
  lemma SizesFourGibibytesApartCollide(a: Info, b: Info)
    requires Fits(Windows, a) && Fits(Windows, b)
    requires a.sizeLow == b.sizeLow && a.sizeHigh != b.sizeHigh
    ensures a.sizeHigh * Word + a.sizeLow != b.sizeHigh * Word + b.sizeLow
    ensures Size(a) == Size(b)
  {
  }
}
