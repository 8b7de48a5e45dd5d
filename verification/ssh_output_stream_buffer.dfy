/**
 * `SshOutputStreamBuffer`: a `std::streambuf` that collects the bytes a
 * stream puts into a buffer and writes the buffer to a remote file over
 * SFTP when it is full, on a seek and when the stream is destroyed. The
 * put area is the index `pptr` (and its end `epptr`) into the buffer; the
 * remote side is the list of `libssh2_sftp_write` calls made so far. The
 * central invariant is that the bytes written, followed by the bytes
 * still buffered, are exactly the bytes the stream accepted.
 */
module SshOutputStreamBuffer {
  import opened Host
  import opened StreamBuffer

  /** The SFTP open flags of libssh2 (`LIBSSH2_FXF_*`). */
  const FxfRead: bv32 := 0x01
  const FxfWrite: bv32 := 0x02
  const FxfAppend: bv32 := 0x04
  const FxfCreat: bv32 := 0x08
  const FxfTrunc: bv32 := 0x10
  const FxfExcl: bv32 := 0x20

  /** The parts of the stream's `std::ios_base::openmode` the buffer looks at. */
  datatype OpenMode = OpenMode(app: bool, trunc: bool)

  /** The open flags: write and create always, append for `app`, truncate for `trunc`. */
  function FlagsOf(mode: OpenMode): (r: bv32)
    ensures r & FxfWrite != 0 && r & FxfCreat != 0
    ensures r & FxfAppend != 0 <==> mode.app
    ensures r & FxfTrunc != 0 <==> mode.trunc
    ensures r & FxfRead == 0 && r & FxfExcl == 0
  {
    var flags := FxfWrite | FxfCreat;
    var flags := if mode.app then flags | FxfAppend else flags;
    if mode.trunc then flags | FxfTrunc else flags
  }

  /** One `libssh2_sftp_write` call: the handle's offset and the bytes handed over. */
  datatype Chunk = Chunk(offset: nat, data: seq<bv8>)

  /** The bytes of a list of writes, one after the other. */
  function Flat(writes: seq<Chunk>): (r: seq<bv8>)
    ensures writes == [] ==> r == []
  {
    if writes == [] then [] else Flat(writes[..|writes| - 1]) + writes[|writes| - 1].data
  }

  /** The buffer's length: `max(bufferSize, 1)`. */
  function CapacityOf(bufferSize: nat): (r: nat)
    ensures 1 <= r && bufferSize <= r
    ensures 1 <= bufferSize ==> r == bufferSize
  {
    Max(bufferSize, 1)
  }

  class SshOutputStreamBuffer {
    const path: string
    /** The flags the file is opened with. */
    const flags: bv32
    /** Whether `libssh2_sftp_open` returned a handle. */
    const open: bool
    const buffer: array<bv8>
    var pptr: nat
    var epptr: nat
    /** The SFTP handle's offset. */
    var offset: nat
    /** The writes made to the remote file, in order. */
    var writes: seq<Chunk>
    /** Whether the destructor has synced and closed the remote file. */
    var closed: bool
    /** Every byte the stream has accepted, in order. */
    ghost var accepted: seq<bv8>

    /**
     * The put area is the whole buffer when the file is open and empty
     * otherwise, and what was written followed by what is buffered is
     * what was accepted.
     */
    ghost predicate Valid()
      reads this, buffer
    {
      1 <= buffer.Length &&
      pptr <= epptr <= buffer.Length &&
      (open ==> epptr == buffer.Length) &&
      (!open ==> epptr == 0 && writes == []) &&
      Flat(writes) + buffer[..pptr] == accepted
    }

    /**
     * The constructor: the buffer's length and the flags, then the file is
     * opened when the session and its SFTP channel are up and the server
     * lets the path be written; only then is the put area the whole
     * buffer.
     */
    constructor (path: string, host: Host, mode: OpenMode, bufferSize: nat)
      ensures this.path == path && flags == FlagsOf(mode)
      ensures buffer.Length == CapacityOf(bufferSize) && fresh(buffer)
      ensures open <==> Connected(Ssh, host) && path in host.writable
      ensures pptr == 0 && epptr == (if open then buffer.Length else 0)
      ensures writes == [] && accepted == [] && offset == 0 && !closed
      ensures Valid()
    {
      this.path := path;
      flags := FlagsOf(mode);
      buffer := new bv8[CapacityOf(bufferSize)];
      var writable := Connected(Ssh, host) && path in host.writable;
      open := writable;
      pptr := 0;
      epptr := if writable then CapacityOf(bufferSize) else 0;
      offset := 0;
      writes := [];
      closed := false;
      accepted := [];
    }

    /**
     * `sync`: the buffered bytes, if any, go out in one write at the
     * handle's offset and the put area starts over; it always reports 0
     * (failed or short writes are only printed).
     */
    method Sync() returns (r: int)
      requires Valid()
      modifies this
      ensures Valid()
      ensures r == 0 && pptr == 0
      ensures writes == old(writes) +
        (if old(pptr) > 0 then [Chunk(old(offset), old(buffer[..pptr]))] else [])
      ensures offset == old(offset) + old(pptr)
      ensures Flat(writes) == accepted && accepted == old(accepted)
      ensures epptr == old(epptr) && closed == old(closed)
    {
      if pptr > 0 {
        var chunk := Chunk(offset, buffer[..pptr]);
        assert (writes + [chunk])[..|writes|] == writes;
        writes := writes + [chunk];
        offset := offset + pptr;
        pptr := 0;
        epptr := buffer.Length;
      }
      return 0;
    }

    /**
     * `overflow`: eof without a file; otherwise a sync, then eof for an
     * eof value, and for any other value its low eight bits become the
     * buffer's first byte and are returned.
     */
    method Overflow(value: int) returns (r: int)
      requires Valid()
      modifies this, buffer
      ensures Valid()
      ensures !open ==> r == Eof && unchanged(this) && unchanged(buffer)
      ensures open ==>
        offset == old(offset) + old(pptr) &&
        writes == old(writes) +
          (if old(pptr) > 0 then [Chunk(old(offset), old(buffer[..pptr]))] else [])
      ensures open && value == Eof ==> r == Eof && pptr == 0 && accepted == old(accepted)
      ensures open && value != Eof ==>
        r == ToIntType(value) && pptr == 1 && buffer[0] == r as bv8 &&
        accepted == old(accepted) + [r as bv8]
    {
      if !open {
        return Eof;
      }
      var synced := Sync();
      if synced != 0 || value == Eof {
        return Eof;
      }
      var b := ToIntType(value) as bv8;
      PutFirst(b);
      return ToIntType(value);
    }

    /** The byte `overflow` stores after a sync: it becomes the only buffered byte. */
    method PutFirst(b: bv8)
      requires Valid() && open && pptr == 0
      modifies this, buffer
      ensures Valid() && pptr == 1 && buffer[0] == b && accepted == old(accepted) + [b]
      ensures writes == old(writes) && offset == old(offset) && epptr == old(epptr) && closed == old(closed)
    {
      buffer[0] := b;
      pptr := 1;
      accepted := accepted + [b];
      assert buffer[..pptr] == [b];
    }

    /**
     * `sputc`, the base class's put: the byte goes into the put area while
     * there is room, and through `overflow` otherwise. With a file the
     * byte is always accepted.
     */
    method Put(c: bv8) returns (r: int)
      requires Valid()
      modifies this, buffer
      ensures Valid()
      ensures open ==> r == c as int && accepted == old(accepted) + [c]
      ensures !open ==> r == Eof && accepted == old(accepted) && writes == old(writes)
    {
      if pptr < epptr {
        assert buffer[..pptr + 1] == buffer[..pptr] + [buffer[pptr]];
        buffer[pptr] := c;
        assert buffer[..pptr + 1] == old(buffer[..pptr]) + [c];
        pptr := pptr + 1;
        accepted := accepted + [c];
        return c as int;
      }
      r := Overflow(c as int);
    }

    /**
     * `seekpos`: a sync, then -1 without a file; otherwise the handle
     * seeks to the position (a negative one wraps as an unsigned 64-bit
     * offset), the put area starts over and the position is returned.
     */
    method SeekPos(pos: int) returns (r: int)
      requires Valid()
      modifies this
      ensures Valid() && Flat(writes) == accepted && pptr == 0
      ensures accepted == old(accepted)
      ensures writes == old(writes) +
        (if old(pptr) > 0 then [Chunk(old(offset), old(buffer[..pptr]))] else [])
      ensures !open ==> r == -1
      ensures open ==> r == pos && offset == ToOffset(pos)
    {
      var synced := Sync();
      if !open {
        return -1;
      }
      offset := ToOffset(pos);
      pptr, epptr := 0, buffer.Length;
      return pos;
    }

    /**
     * `seekoff`: a sync, then a seek from the start, from the file's size
     * as fstat reports it (`size`; fstat fails without a file), or from
     * the handle's offset, which after the sync is where the next byte
     * goes.
     */
    method SeekOff(off: int, way: SeekDir, size: nat) returns (r: int)
      requires Valid()
      modifies this
      ensures Valid() && Flat(writes) == accepted && pptr == 0
      ensures accepted == old(accepted)
      ensures writes == old(writes) +
        (if old(pptr) > 0 then [Chunk(old(offset), old(buffer[..pptr]))] else [])
      ensures !open ==> r == -1
      ensures open ==>
        var target := match way
          case Beg => off
          case End => size + off
          case Cur => old(offset) + old(pptr) + off;
        r == target && offset == ToOffset(target)
    {
      var synced := Sync();
      match way
      case Beg =>
        r := SeekPos(off);
      case End =>
        if open {
          r := SeekPos(size + off);
        } else {
          r := -1;
        }
      case Cur =>
        r := SeekPos(offset + off);
    }

    /**
     * The destructor: with a file, a sync, then fsync and close; after it
     * every accepted byte has been handed to a write, in order.
     */
    method Close()
      requires Valid()
      modifies this
      ensures Valid()
      ensures closed == (old(closed) || open)
      ensures open ==> Flat(writes) == accepted && pptr == 0
      ensures !open ==> writes == [] && unchanged(this)
    {
      if open {
        var synced := Sync();
        closed := true;
      }
    }
  }

  /** Writes made one after another hand over their bytes one after another. */
  lemma {:induction false} FlatAppend(a: seq<Chunk>, b: seq<Chunk>)
    ensures Flat(a + b) == Flat(a) + Flat(b)
    decreases |b|
  {
    if b == [] {
      assert a + b == a;
    } else {
      var front, last := b[..|b| - 1], b[|b| - 1];
      assert (a + b)[..|a + b| - 1] == a + front;
      FlatAppend(a, front);
    }
  }
}
