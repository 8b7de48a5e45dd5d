/**
 * `SshInputStreamBuffer`: a `std::streambuf` that reads a remote file over
 * SFTP into a buffer whose front keeps a putback area. The get area is
 * three indices into the buffer (`eback`, `gptr`, `egptr`); the remote
 * file is the byte sequence the server serves and the SFTP handle's
 * offset. The central invariant is that the get area always holds the
 * bytes of the file just before the handle's offset, so the stream
 * position is the offset minus the unread bytes.
 */
module SshInputStreamBuffer {
  import opened Host
  import opened StreamBuffer

  /** `max(putbackSize, 1)`: the putback area is never empty. */
  function PutbackOf(putbackSize: nat): (r: nat)
    ensures 1 <= r
    ensures 1 <= putbackSize ==> r == putbackSize
  {
    Max(putbackSize, 1)
  }

  /** The buffer's length: room for the read size and a putback area on top. */
  function CapacityOf(bufferSize: nat, putback: nat): (r: nat)
    ensures bufferSize + putback <= r && 2 * putback <= r
    ensures bufferSize < putback ==> r == 2 * putback
    ensures putback <= bufferSize ==> r == bufferSize + putback
  {
    Max(bufferSize, putback) + putback
  }

  /** The value `underflow` returns for the byte at a position: the byte, or eof past the end. */
  function ByteAt(content: seq<bv8>, i: int): (r: int)
    ensures r == Eof <==> !(0 <= i < |content|)
    ensures 0 <= i < |content| ==> r == content[i] as int
  {
    if 0 <= i < |content| then content[i] as int else Eof
  }

  /** How many bytes `libssh2_sftp_read` delivers when asked for `size` at `offset`. */
  function ReadCount(content: seq<bv8>, offset: nat, size: nat): (r: nat)
    ensures r <= size && (r > 0 ==> offset + r <= |content|)
    ensures r == 0 <==> size == 0 || |content| <= offset
  {
    if offset < |content| then Min(size, |content| - offset) else 0
  }

  class SshInputStreamBuffer {
    const path: string
    /** The remote file as the server serves it. */
    const content: seq<bv8>
    /** Whether `libssh2_sftp_open` returned a handle. */
    const open: bool
    const putback: nat
    const buffer: array<bv8>
    var eback: nat
    var gptr: nat
    var egptr: nat
    /** The SFTP handle's offset. */
    var offset: nat

    /**
     * Either the get area is the empty one at the buffer's end (after
     * opening or a seek), or it starts at the buffer's front (after a
     * refill); without a file it is the null area. In every case the
     * bytes between eback and egptr are the file's bytes just before the
     * handle's offset.
     */
    ghost predicate Valid()
      reads this, buffer
    {
      1 <= putback && 2 * putback <= buffer.Length &&
      eback <= gptr <= egptr <= buffer.Length &&
      (!open ==> eback == 0 && egptr == 0) &&
      (eback != 0 ==> eback == buffer.Length && egptr == buffer.Length) &&
      Mirrors()
    }

    ghost predicate Mirrors()
      reads this, buffer
      requires eback <= egptr <= buffer.Length
    {
      egptr - eback <= offset &&
      (eback < egptr ==> offset <= |content| && Holds(eback, egptr, offset - (egptr - eback)))
    }

    /** The buffer between `lo` and `hi` holds the file's bytes from `at` on. */
    ghost predicate Holds(lo: nat, hi: nat, at: int)
      reads this, buffer
    {
      lo <= hi <= buffer.Length &&
      (lo < hi ==> 0 <= at && at + (hi - lo) <= |content|) &&
      forall j :: lo <= j < hi ==> buffer[j] == content[at - lo + j]
    }

    /** The stream position, as `seekoff(0, cur)` computes it: the offset less the unread bytes. */
    function Position(): int
      reads this
    {
      offset - (egptr - gptr)
    }

    /**
     * The constructor: the putback and buffer sizes, then the file is
     * opened when the session and its SFTP channel are up and the server
     * lets the path be read; an open file starts with an empty get area
     * at the buffer's end.
     */
    constructor (path: string, content: seq<bv8>, host: Host, bufferSize: nat, putbackSize: nat)
      ensures this.path == path && this.content == content
      ensures putback == PutbackOf(putbackSize)
      ensures buffer.Length == CapacityOf(bufferSize, putback) && fresh(buffer)
      ensures open <==> Connected(Ssh, host) && path in host.readable
      ensures open ==> eback == gptr == egptr == buffer.Length
      ensures !open ==> eback == gptr == egptr == 0
      ensures offset == 0 && Position() == 0
      ensures Valid()
    {
      this.path := path;
      this.content := content;
      var p := PutbackOf(putbackSize);
      putback := p;
      buffer := new bv8[CapacityOf(bufferSize, p)];
      var readable := Connected(Ssh, host) && path in host.readable;
      open := readable;
      offset := 0;
      if readable {
        var end := CapacityOf(bufferSize, p);
        eback, gptr, egptr := end, end, end;
      } else {
        eback, gptr, egptr := 0, 0, 0;
      }
    }

    /**
     * `underflow`: eof without a file; the next unread byte when there is
     * one; otherwise a refill that keeps up to `putback` bytes already
     * read at the front and reads after them. Whatever it does, it
     * returns the file's byte at the stream position (or eof past the
     * end) and the position stays where it was.
     */
    method Underflow() returns (r: int)
      requires Valid()
      modifies this, buffer
      ensures Valid()
      ensures !open ==> r == Eof
      ensures open ==> r == ByteAt(content, old(Position()))
      ensures Position() == old(Position())
      ensures !open || old(gptr) < old(egptr) ==>
        unchanged(this) && unchanged(buffer)
      ensures open && old(gptr) == old(egptr) && r != Eof ==>
        eback == 0 &&
        gptr == (if old(eback) == 0 then Min(putback, old(egptr)) else 0) &&
        egptr == gptr + ReadCount(content, old(offset), buffer.Length - gptr) &&
        offset == old(offset) + (egptr - gptr)
    {
      if !open {
        return Eof;
      }
      if gptr < egptr {
        return buffer[gptr] as int;
      }
      r := Refill();
    }

    /** The refill `underflow` makes once every byte of the get area has been consumed. */
    method Refill() returns (r: int)
      requires Valid() && open && gptr == egptr
      modifies this, buffer
      ensures Valid()
      ensures r == ByteAt(content, old(offset)) && Position() == old(offset)
      ensures r != Eof ==>
        eback == 0 &&
        gptr == (if old(eback) == 0 then Min(putback, old(egptr)) else 0) &&
        egptr == gptr + ReadCount(content, old(offset), buffer.Length - gptr) &&
        offset == old(offset) + (egptr - gptr)
    {
      var start := 0;
      if eback == 0 {
        // The source moves exactly `putback` bytes; fewer are available
        // after a first read shorter than the putback area.
        start := Min(putback, egptr);
        KeepPutback(egptr - start, start);
      }
      r := ReadBehind(start);
    }

    /**
     * The read of a refill, once `start` bytes already read are at the
     * buffer's front: at the end of the file the get area is left on
     * those bytes, and otherwise it spans them and the new ones, with the
     * first new byte next.
     */
    method ReadBehind(start: nat) returns (r: int)
      requires 1 <= putback && 2 * putback <= buffer.Length && open && gptr == egptr
      requires start <= putback && start <= offset && Holds(0, start, offset - start)
      requires eback == 0 || (start == 0 && eback == egptr == buffer.Length)
      modifies this, buffer
      ensures Valid()
      ensures r == ByteAt(content, old(offset)) && Position() == old(offset)
      ensures r != Eof ==>
        eback == 0 && gptr == start &&
        egptr == start + ReadCount(content, old(offset), buffer.Length - start) &&
        offset == old(offset) + (egptr - gptr)
    {
      var n := SftpRead(start, buffer.Length - start);
      if n == 0 {
        if eback == 0 {
          gptr, egptr := start, start;
        }
        return Eof;
      }
      HoldsJoin(0, start, start + n, offset - start);
      eback, gptr, egptr := 0, start, start + n;
      offset := offset + n;
      return buffer[gptr] as int;
    }

    /**
     * The `memmove` of the putback bytes: the `count` bytes at `from` go
     * to the buffer's front (the regions may overlap), and the rest of the
     * buffer is kept.
     */
    method KeepPutback(from: nat, count: nat)
      requires Valid() && open && eback == 0 && gptr == egptr
      requires from + count == egptr
      modifies buffer
      ensures count <= offset && Holds(0, count, offset - count)
    {
      var i := 0;
      while i < count
        invariant 0 <= i <= count
        invariant Holds(0, i, offset - count)
        invariant forall j :: i <= j < egptr ==> buffer[j] == old(buffer[j])
      {
        // The moved bytes are the last bytes of the window, which ends at the offset.
        buffer[i] := buffer[from + i];
        i := i + 1;
      }
    }

    /** Two adjacent stretches that hold consecutive bytes of the file hold them together. */
    lemma HoldsJoin(lo: nat, mid: nat, hi: nat, at: int)
      requires Holds(lo, mid, at) && Holds(mid, hi, at + (mid - lo))
      ensures Holds(lo, hi, at)
    {
    }

    /**
     * `libssh2_sftp_read`: up to `size` bytes from the handle's offset
     * land at `start`; the bytes before `start` are kept. The handle's
     * offset is advanced by the caller.
     */
    method SftpRead(start: nat, size: nat) returns (n: nat)
      requires start + size == buffer.Length
      modifies buffer
      ensures n == ReadCount(content, offset, size)
      ensures forall j :: 0 <= j < start ==> buffer[j] == old(buffer[j])
      ensures old(Holds(0, start, offset - start)) ==> Holds(0, start, offset - start)
      ensures Holds(start, start + n, offset)
    {
      n := ReadCount(content, offset, size);
      var i := 0;
      while i < n
        invariant 0 <= i <= n
        invariant forall j :: 0 <= j < start ==> buffer[j] == old(buffer[j])
        invariant Holds(start, start + i, offset)
      {
        buffer[start + i] := content[offset + i];
        i := i + 1;
      }
      if old(Holds(0, start, offset - start)) {
        forall j | 0 <= j < start
          ensures buffer[j] == content[offset - start + j]
        {
          assert buffer[j] == old(buffer[j]);
        }
      }
    }

    /**
     * `seekpos`: -1 without a file; otherwise the handle seeks to the
     * position (a negative one wraps as an unsigned 64-bit offset), the
     * get area is emptied at the buffer's end and the position is
     * returned.
     */
    method SeekPos(pos: int) returns (r: int)
      requires Valid()
      modifies this
      ensures Valid()
      ensures !open ==> r == -1 && unchanged(this)
      ensures open ==>
        r == pos && offset == ToOffset(pos) &&
        eback == gptr == egptr == buffer.Length &&
        Position() == ToOffset(pos)
    {
      if !open {
        return -1;
      }
      offset := ToOffset(pos);
      eback, gptr, egptr := buffer.Length, buffer.Length, buffer.Length;
      return pos;
    }

    /**
     * `seekoff`: from the start, from the file's size as fstat reports it
     * (fstat fails without a file), or from the stream position, which is
     * the handle's offset less the unread bytes.
     */
    method SeekOff(off: int, way: SeekDir) returns (r: int)
      requires Valid()
      modifies this
      ensures Valid()
      ensures !open ==> r == -1 && unchanged(this)
      ensures open ==>
        var target := match way
          case Beg => off
          case End => |content| + off
          case Cur => old(Position()) + off;
        r == target && Position() == ToOffset(target)
    {
      match way
      case Beg =>
        r := SeekPos(off);
      case End =>
        if open {
          r := SeekPos(|content| + off);
        } else {
          r := -1;
        }
      case Cur =>
        var pos := offset + off - (egptr - gptr);
        r := SeekPos(pos);
    }

    /**
     * The get-pointer step the base class makes when the stream consumes
     * the byte `underflow` made available (`gbump(1)`).
     */
    method Bump()
      requires Valid() && gptr < egptr
      modifies this
      ensures Valid()
      ensures Position() == old(Position()) + 1
      ensures eback == old(eback) && egptr == old(egptr) && offset == old(offset)
    {
      gptr := gptr + 1;
    }

    /** The step back the base class makes for `sungetc` while putback bytes remain (`gbump(-1)`). */
    method Unget()
      requires Valid() && eback < gptr
      modifies this
      ensures Valid()
      ensures Position() == old(Position()) - 1
      ensures eback == old(eback) && egptr == old(egptr) && offset == old(offset)
    {
      gptr := gptr - 1;
    }
  }

  /** The get area as three indices from the buffer's front. */
  datatype GetArea = GetArea(eback: nat, gptr: nat, egptr: nat)

  /**
   * Where the source's refill takes the putback bytes from, counted from
   * the buffer's front: `egptr - putback` when eback is the front, and no
   * move otherwise.
   */
  function MoveSourceAsWritten(area: GetArea, putback: nat): (r: int)
    ensures area.eback == 0 ==> r == area.egptr - putback
    ensures area.eback == 0 ==> (r < 0 <==> area.egptr < putback)
  {
    if area.eback == 0 then area.egptr - putback else 0
  }

  /**
   * A file shorter than the putback area: the first refill after opening
   * reads the whole file (5 bytes into a buffer of 32768 + 128), leaving
   * the area [0, 0, 5); once those bytes are consumed, the next refill
   * moves from 123 bytes before the buffer.
   */
  lemma ShortFirstReadMovesBeforeBase()
    ensures var content := [1, 2, 3, 4, 5];
      var first := ReadCount(content, 0, CapacityOf(32768, 128));
      var consumed := GetArea(0, first, first);
      first == 5 && MoveSourceAsWritten(consumed, PutbackOf(128)) == -123
  {
  }

  /**
   * The buffer after the source's refill reaches the end of the file: the
   * putback move has already overwritten the front, and the get-area
   * indices are left as they were.
   */
  function EofRefillAsWritten(window: seq<bv8>, putback: nat): (r: seq<bv8>)
    requires putback <= |window|
    ensures |r| == |window|
    ensures r[..putback] == window[|window| - putback..]
    ensures r[putback..] == window[putback..]
  {
    window[|window| - putback..] + window[putback..]
  }

  /**
   * With a putback area of 2 and a 3-byte window [1, 2, 3] read to its
   * end, the source's refill at the end of the file leaves [2, 3, 3]
   * behind the unchanged indices, so stepping back twice yields 3 where
   * the file has 2.
   */
  lemma EofRefillCorruptsPutback()
    ensures var window: seq<bv8> := [1, 2, 3];
      var after := EofRefillAsWritten(window, 2);
      after[1] == 3 && window[1] == 2 && after[1..] != window[1..]
  {
  }

  /**
   * The corrected refill (the one `Underflow` performs) never reads
   * before the buffer: what it moves is clamped to the bytes the window
   * holds.
   */
  lemma CorrectedMoveInBounds(area: GetArea, putback: nat)
    requires area.eback == 0 && area.gptr == area.egptr
    ensures 0 <= area.egptr - Min(putback, area.egptr)
    ensures area.egptr >= putback ==>
      area.egptr - Min(putback, area.egptr) == MoveSourceAsWritten(area, putback)
  {
  }
}
