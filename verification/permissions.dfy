/**
 * `cppfs::FilePermissions` and the translation between those flags and
 * the nine POSIX permission bits of a file mode, as the POSIX and SSH
 * handles do it in `permissions()` and `setPermissions()`.
 */
module Permissions {
  // The flags of FilePermissions (an `unsigned long` once combined).
  const UserRead: bv64 := 0x400
  const UserWrite: bv64 := 0x200
  const UserExec: bv64 := 0x100
  const GroupRead: bv64 := 0x040
  const GroupWrite: bv64 := 0x020
  const GroupExec: bv64 := 0x010
  const OtherRead: bv64 := 0x004
  const OtherWrite: bv64 := 0x002
  const OtherExec: bv64 := 0x001
  /** Octal 04000, 02000 and 01000: written in octal, unlike the nine above. */
  const SetUid: bv64 := 0x800
  const SetGid: bv64 := 0x400
  const Sticky: bv64 := 0x200

  /** The nine flags together. */
  const AllFlags: bv64 := 0x777

  // The POSIX mode bits S_IRUSR .. S_IXOTH (octal 0400 .. 0001).
  const ModeUserRead: bv32 := 0x100
  const ModeUserWrite: bv32 := 0x080
  const ModeUserExec: bv32 := 0x040
  const ModeGroupRead: bv32 := 0x020
  const ModeGroupWrite: bv32 := 0x010
  const ModeGroupExec: bv32 := 0x008
  const ModeOtherRead: bv32 := 0x004
  const ModeOtherWrite: bv32 := 0x002
  const ModeOtherExec: bv32 := 0x001

  /** The nine mode bits together (octal 0777). */
  const AllModeBits: bv32 := 0x1FF

  /** Each flag, paired by position with the mode bit it stands for. */
  const Flags: seq<bv64> := [UserRead, UserWrite, UserExec, GroupRead, GroupWrite, GroupExec, OtherRead, OtherWrite, OtherExec]
  const ModeBits: seq<bv32> := [ModeUserRead, ModeUserWrite, ModeUserExec, ModeGroupRead, ModeGroupWrite, ModeGroupExec, ModeOtherRead, ModeOtherWrite, ModeOtherExec]

  /** `permissions()`: the flag of every permission bit set in `mode`. */
  function FromMode(mode: bv32): (r: bv64)
    ensures r & !AllFlags == 0
  {
    (if mode & ModeUserRead != 0 then UserRead else 0) |
    (if mode & ModeUserWrite != 0 then UserWrite else 0) |
    (if mode & ModeUserExec != 0 then UserExec else 0) |
    (if mode & ModeGroupRead != 0 then GroupRead else 0) |
    (if mode & ModeGroupWrite != 0 then GroupWrite else 0) |
    (if mode & ModeGroupExec != 0 then GroupExec else 0) |
    (if mode & ModeOtherRead != 0 then OtherRead else 0) |
    (if mode & ModeOtherWrite != 0 then OtherWrite else 0) |
    (if mode & ModeOtherExec != 0 then OtherExec else 0)
  }

  /** `setPermissions()`: the mode bit of every flag set in `permissions`. */
  function ToMode(permissions: bv64): (r: bv32)
    ensures r & !AllModeBits == 0
  {
    (if permissions & UserRead != 0 then ModeUserRead else 0) |
    (if permissions & UserWrite != 0 then ModeUserWrite else 0) |
    (if permissions & UserExec != 0 then ModeUserExec else 0) |
    (if permissions & GroupRead != 0 then ModeGroupRead else 0) |
    (if permissions & GroupWrite != 0 then ModeGroupWrite else 0) |
    (if permissions & GroupExec != 0 then ModeGroupExec else 0) |
    (if permissions & OtherRead != 0 then ModeOtherRead else 0) |
    (if permissions & OtherWrite != 0 then ModeOtherWrite else 0) |
    (if permissions & OtherExec != 0 then ModeOtherExec else 0)
  }

  /** Each permission bit of the mode gives its flag, and only those do. */
  lemma FromModeBits(mode: bv32)
    ensures forall i :: 0 <= i < 9 ==> (FromMode(mode) & Flags[i] != 0 <==> mode & ModeBits[i] != 0)
  {
  }

  /** Each flag gives its permission bit, and only those do. */
  lemma ToModeBits(permissions: bv64)
    ensures forall i :: 0 <= i < 9 ==> (ToMode(permissions) & ModeBits[i] != 0 <==> permissions & Flags[i] != 0)
  {
  }

  /** Setting and reading back keeps exactly the nine permission flags. */
  lemma FlagsRoundTrip(permissions: bv64)
    ensures FromMode(ToMode(permissions)) == permissions & AllFlags
  {
  }

  /** Reading and setting back keeps exactly the nine permission bits of a mode. */
  lemma ModeRoundTrip(mode: bv32)
    ensures ToMode(FromMode(mode)) == mode & AllModeBits
  {
  }

  /**
   * The three special flags are numerically permission flags: SetGid is
   * UserRead and Sticky is UserWrite, so asking for them grants user read
   * or write, and SetUid is dropped.
   */
  lemma SpecialFlagsCollide()
    ensures SetGid == UserRead && Sticky == UserWrite
    ensures ToMode(SetGid) == ModeUserRead && ToMode(Sticky) == ModeUserWrite
    ensures ToMode(SetUid) == 0
  {
  }
}
