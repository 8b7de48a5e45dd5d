/**
 * The free functions of `cppfs::fs` modelled here: `open`, which turns a
 * path or URL into a handle on the local file system, and `hashToString`,
 * which writes a 20-byte SHA-1 digest as lowercase hexadecimal text.
 */
module Fs {
  import opened Wrappers
  import opened Host
  import Url
  import opened Backend
  import opened FileHandles
  import opened Credentials

  /**
   * `open`: the path is parsed as a URL and its path part is opened on
   * the one local file system the program keeps (POSIX or Windows by
   * build). The credentials are not looked at, and the protocol and host
   * are dropped, so an `ssh://` URL opens a local path.
   */
  method Open(path: string, credentials: LoginCredentials?, local: FileSystem) returns (h: FileHandle)
    requires local.platform != Ssh
    ensures fresh(h) && h.Inv() && h.backend != null && fresh(h.backend)
    ensures h.backend.fs == local && h.backend.path == Url.Analysis(path).path
    ensures h.backend.fileInfo.None? && h.backend.linkInfo.None?
  {
    var url := new Url.Url.FromString(path);
    var localPath := url.Path();
    var b := new FileHandleBackend(local, localPath);
    h := new FileHandle.Of(b);
  }

  /** `ssh://user:pw@host/x` opens the local file `/x`. */
  lemma SshUrlOpensLocalPath()
    ensures Url.Analysis("ssh://user:pw@host/x").path == "/x"
  {
    Url.FullSshUrl();
  }

  // ------------------------------------------------------------------
  // hashToString
  // ------------------------------------------------------------------

  /** An `unsigned char` of the digest. */
  newtype Byte = b: int | 0 <= b < 256

  /** A lowercase hexadecimal digit. */
  function HexDigit(d: nat): (c: char)
    requires d < 16
    ensures '0' <= c <= '9' || 'a' <= c <= 'f'
  {
    if d < 10 then ('0' as int + d) as char else ('a' as int + d - 10) as char
  }

  /** The value of a hexadecimal digit (0 for any other character). */
  function DigitValue(c: char): (d: nat)
    ensures d < 16
  {
    if '0' <= c <= '9' then c as int - '0' as int
    else if 'a' <= c <= 'f' then c as int - 'a' as int + 10
    else 0
  }

  lemma DigitRoundTrip(d: nat)
    requires d < 16
    ensures DigitValue(HexDigit(d)) == d
  {
  }

  /** A byte inserted with `std::hex` and no width: one digit below 16, two from 16 on, no leading zero. */
  function Hex(b: Byte): (r: string)
    ensures |r| == (if b < 16 then 1 else 2)
    ensures b >= 16 ==> r[0] != '0'
  {
    var n := b as nat;
    if n < 16 then [HexDigit(n)] else [HexDigit(n / 16), HexDigit(n % 16)]
  }

  /** A byte inserted with a field width and `setfill('0')`: zeros on the left up to the width. */
  function Formatted(b: Byte, width: nat): (r: string)
    ensures |r| == if width > |Hex(b)| then width else |Hex(b)|
  {
    if width > |Hex(b)| then seq(width - |Hex(b)|, _ => '0') + Hex(b) else Hex(b)
  }

  /** The padding is all zeros and the digits come last. */
  lemma FormattedPads(b: Byte, width: nat)
    ensures var r := Formatted(b, width);
      r[|r| - |Hex(b)|..] == Hex(b) && forall i :: 0 <= i < |r| - |Hex(b)| ==> r[i] == '0'
  {
  }

  /** With width 2 every byte takes exactly its two digits, high then low. */
  lemma FormattedTwo(b: Byte)
    ensures Formatted(b, 2) == [HexDigit(b as nat / 16), HexDigit(b as nat % 16)]
  {
  }

  /** With width 0 a byte takes only the digits it needs. */
  lemma FormattedZero(b: Byte)
    ensures Formatted(b, 0) == Hex(b)
  {
  }

  /** The two digits of a byte read back as the byte. */
  lemma ByteOfDigits(b: Byte)
    ensures ByteOf(HexDigit(b as nat / 16), HexDigit(b as nat % 16)) == b
  {
    DigitRoundTrip(b as nat / 16);
    DigitRoundTrip(b as nat % 16);
    assert (b as nat / 16) * 16 + b as nat % 16 == b as nat;
  }

  /** Bytes inserted one after another with no width. */
  function Unpadded(bytes: seq<Byte>): (r: string)
    ensures |bytes| <= |r| <= 2 * |bytes|
  {
    if bytes == [] then "" else Unpadded(bytes[..|bytes| - 1]) + Hex(bytes[|bytes| - 1])
  }

  /** Bytes inserted one after another, each with width 2. */
  function HashText(bytes: seq<Byte>): (r: string)
    ensures |r| == 2 * |bytes|
  {
    if bytes == [] then "" else HashText(bytes[..|bytes| - 1]) + Formatted(bytes[|bytes| - 1], 2)
  }

  /**
   * The text `hashToString` produces: `setw(2)` is reset by the first
   * insertion, so only the first byte is padded to two digits.
   */
  function HashTextAsWritten(hash: seq<Byte>): (r: string)
    requires |hash| >= 1
    ensures 1 + |hash| <= |r| <= 2 * |hash|
  {
    Formatted(hash[0], 2) + Unpadded(hash[1..])
  }

  /**
   * `hashToString` as written: the stream's width is 2 for the first
   * insertion and 0 after it. The result is 21 to 40 characters long.
   */
  method HashToStringAsWritten(hash: seq<Byte>) returns (s: string)
    requires |hash| == 20
    ensures s == HashTextAsWritten(hash)
    ensures 21 <= |s| <= 40
  {
    var width := 2;
    s := "";
    for i := 0 to 20
      invariant width == (if i == 0 then 2 else 0)
      invariant s == WrittenPrefix(hash, i)
    {
      WrittenStep(hash, i);
      s := s + Formatted(hash[i], width);
      width := 0;
    }
    assert hash[..20] == hash;
  }

  /** What the stream holds after the first `n` insertions of `hashToString` as written. */
  function WrittenPrefix(hash: seq<Byte>, n: nat): (r: string)
    requires 0 < |hash| && n <= |hash|
    ensures n > 0 ==> r == HashTextAsWritten(hash[..n])
  {
    if n == 0 then ""
    else
      assert hash[..n][1..] == hash[1..n];
      Formatted(hash[0], 2) + Unpadded(hash[1..n])
  }

  /** One more insertion as written: width 2 for the first byte, 0 after it. */
  lemma WrittenStep(hash: seq<Byte>, i: nat)
    requires i < |hash|
    ensures WrittenPrefix(hash, i + 1) == WrittenPrefix(hash, i) + Formatted(hash[i], if i == 0 then 2 else 0)
  {
    if i > 0 {
      UnpaddedStep(hash, i);
    }
  }

  /**
   * `hashToString` with the width set before every insertion, as a
   * SHA-1 text needs: always 40 characters, two per byte.
   */
  method HashToString(hash: seq<Byte>) returns (s: string)
    requires |hash| == 20
    ensures s == HashText(hash) && |s| == 40
  {
    s := "";
    for i := 0 to 20
      invariant s == HashText(hash[..i])
    {
      HashTextStep(hash, i);
      s := s + Formatted(hash[i], 2);
    }
    assert hash[..20] == hash;
  }

  lemma HashTextStep(hash: seq<Byte>, i: nat)
    requires i < |hash|
    ensures HashText(hash[..i + 1]) == HashText(hash[..i]) + Formatted(hash[i], 2)
  {
    assert hash[..i + 1][..i] == hash[..i];
  }

  /** One more byte inserted without a width; with width 0 a byte is formatted as its bare digits. */
  lemma UnpaddedStep(hash: seq<Byte>, i: nat)
    requires 1 <= i < |hash|
    ensures Unpadded(hash[1..i + 1]) == Unpadded(hash[1..i]) + Formatted(hash[i], 0)
  {
    var part := hash[1..i + 1];
    assert part[..i - 1] == hash[1..i] && part[i - 1] == hash[i];
    FormattedZero(hash[i]);
  }

  /** Two hexadecimal digits read back as a byte. */
  function ByteOf(high: char, low: char): Byte
  {
    (DigitValue(high) * 16 + DigitValue(low)) as Byte
  }

  /** Text of even length read back two digits at a time. */
  function Unhex(s: string): (r: seq<Byte>)
    ensures |r| == |s| / 2
  {
    if |s| < 2 then [] else Unhex(s[..|s| - 2]) + [ByteOf(s[|s| - 2], s[|s| - 1])]
  }

  /** The fully padded text reads back as the bytes it was made from. */
  lemma {:induction false} HashTextRoundTrip(bytes: seq<Byte>)
    ensures Unhex(HashText(bytes)) == bytes
    decreases |bytes|
  {
    if bytes != [] {
      var front, last := bytes[..|bytes| - 1], bytes[|bytes| - 1];
      var t := HashText(bytes);
      var pair := Formatted(last, 2);
      assert t == HashText(front) + pair;
      HashTextRoundTrip(front);
      FormattedTwo(last);
      ByteOfDigits(last);
      assert t[..|t| - 2] == HashText(front);
      assert t[|t| - 2] == pair[0] && t[|t| - 1] == pair[1];
      assert Unhex(t) == Unhex(HashText(front)) + [ByteOf(pair[0], pair[1])];
      assert front + [last] == bytes;
    }
  }

  /** So different digests of the same length always give different texts. */
  lemma HashTextInjective(a: seq<Byte>, b: seq<Byte>)
    requires HashText(a) == HashText(b)
    ensures a == b
  {
    HashTextRoundTrip(a);
    HashTextRoundTrip(b);
  }

  lemma {:induction false} UnpaddedAppend(a: seq<Byte>, b: seq<Byte>)
    ensures Unpadded(a + b) == Unpadded(a) + Unpadded(b)
    decreases |b|
  {
    if b == [] {
      assert a + b == a;
    } else {
      var front := b[..|b| - 1];
      assert (a + b)[..|a + b| - 1] == a + front;
      UnpaddedAppend(a, front);
    }
  }

  /**
   * As written, two different digests can give the same text: a second
   * byte 0x12 followed by 0x03 reads like 0x01 followed by 0x23.
   */
  lemma AsWrittenCollides()
    ensures var a := [0x00, 0x12, 0x03] + seq(17, _ => 0x00 as Byte);
      var b := [0x00, 0x01, 0x23] + seq(17, _ => 0x00 as Byte);
      |a| == 20 && |b| == 20 && a != b && HashTextAsWritten(a) == HashTextAsWritten(b)
  {
    var zeros := seq(17, _ => 0x00 as Byte);
    var a := [0x00, 0x12, 0x03] + zeros;
    var b := [0x00, 0x01, 0x23] + zeros;
    assert a[1] != b[1];
    assert a[1..] == [0x12, 0x03] + zeros;
    assert b[1..] == [0x01, 0x23] + zeros;
    UnpaddedAppend([0x12, 0x03], zeros);
    UnpaddedAppend([0x01, 0x23], zeros);
    assert Unpadded([0x12, 0x03]) == Unpadded([0x12]) + Hex(0x03);
    assert Unpadded([0x01, 0x23]) == Unpadded([0x01]) + Hex(0x23);
    assert [0x12, 0x03][..1] == [0x12];
    assert [0x01, 0x23][..1] == [0x01];
    assert Unpadded([0x12]) == Unpadded([]) + Hex(0x12);
    assert Unpadded([0x01]) == Unpadded([]) + Hex(0x01);
  }
}
