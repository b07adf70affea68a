/**
 * GBufferedOutputStream (gio/gbufferedoutputstream.c), a write cache over a
 * seekable file.  The file an unbuffered stream would have is the base file with
 * the buffer laid over it at the base offset: every operation is proved to do to
 * that file, and to the position in it, what it does without a buffer.
 *
 * What the base stream does is in the arguments of the operations that ask it:
 * `quota` is how many bytes it takes before it fails, `works` whether it can do
 * the seek, truncation or flush.
 */
module BufferedOutputStream {
  import opened Wrappers
  import opened Seekable

  // ---------------------------------------------------------------- plain files

  function Zeros(n: nat): (s: seq<Byte>)
    ensures |s| == n
  {
    seq(n, _ => 0)
  }

  /** A write of data at an offset; one behind the end leaves zeros in between. */
  function Overlay(file: seq<Byte>, off: nat, data: seq<Byte>): (f: seq<Byte>)
    ensures data != [] ==> |f| == Max(|file|, off + |data|)
    ensures data == [] ==> f == file
  {
    if data == [] then file
    else
      var padded := if off <= |file| then file else file + Zeros(off - |file|);
      padded[..off] + data + (if off + |data| <= |file| then file[off + |data|..] else [])
  }

  function Truncated(file: seq<Byte>, size: nat): (f: seq<Byte>)
    ensures |f| == size
  {
    if size <= |file| then file[..size] else file + Zeros(size - |file|)
  }

  lemma OverlayAt(file: seq<Byte>, off: nat, data: seq<Byte>, k: nat)
    requires k < |Overlay(file, off, data)|
    ensures
      Overlay(file, off, data)[k]
      == if off <= k < off + |data| then data[k - off] else if k < |file| then file[k] else 0
  {
  }

  lemma TruncatedAt(file: seq<Byte>, size: nat, k: nat)
    requires k < size
    ensures |Truncated(file, size)| == size && Truncated(file, size)[k] == if k < |file| then file[k] else 0
  {
  }

  /** Writing in two goes is writing once. */
  lemma OverlaySplit(file: seq<Byte>, off: nat, a: seq<Byte>, b: seq<Byte>)
    ensures Overlay(Overlay(file, off, a), off + |a|, b) == Overlay(file, off, a + b)
  {
    var once := Overlay(file, off, a + b);
    var first := Overlay(file, off, a);
    var twice := Overlay(first, off + |a|, b);
    assert a == [] ==> a + b == b;
    assert b == [] ==> a + b == a;
    forall k | 0 <= k < |once|
      ensures twice[k] == once[k]
    {
      OverlayAt(file, off, a + b, k);
      OverlayAt(first, off + |a|, b, k);
      if k < |first| {
        OverlayAt(file, off, a, k);
      }
    }
  }

  lemma OverlayRest(file: seq<Byte>, off: nat, data: seq<Byte>, n: nat)
    requires n <= |data|
    ensures Overlay(Overlay(file, off, data[..n]), off + n, data[n..]) == Overlay(file, off, data)
  {
    OverlaySplit(file, off, data[..n], data[n..]);
    assert data == data[..n] + data[n..];
  }

  class BaseFile {
    const seekable: bool
    var content: seq<Byte>
    var off: nat

    constructor (content: seq<Byte>, seekable: bool, off: nat)
      ensures this.content == content && this.seekable == seekable && this.off == off
    {
      this.content, this.seekable, this.off := content, seekable, off;
    }

    /** g_output_stream_write_all */
    method WriteAll(bytes: seq<Byte>, quota: nat) returns (ok: bool, n: nat)
      modifies this
      ensures n == Min(|bytes|, quota) && (ok <==> n == |bytes|)
      ensures content == Overlay(old(content), old(off), bytes[..n]) && off == old(off) + n
    {
      n := Min(|bytes|, quota);
      content := Overlay(content, off, bytes[..n]);
      off := off + n;
      ok := n == |bytes|;
    }

    method Seek(offset: int, whence: SeekType, works: bool) returns (ok: bool)
      modifies this`off
      ensures ok <==> works && SeekTarget(|content|, old(off), offset, whence) >= 0
      ensures off == if ok then SeekTarget(|content|, old(off), offset, whence) else old(off)
    {
      var target := SeekTarget(|content|, off, offset, whence);
      ok := works && target >= 0;
      if ok {
        off := target;
      }
    }

    method Truncate(size: nat, works: bool) returns (ok: bool)
      modifies this`content
      ensures ok == works
      ensures content == if ok then Truncated(old(content), size) else old(content)
    {
      ok := works;
      if ok {
        content := Truncated(content, size);
      }
    }
  }

  // ---------------------------------------------------------------- the stream

  /** `buffer` is always all of the buffer: the length the source keeps beside it is buffer.Length. */
  class GBufferedOutputStream {
    var buffer: array<Byte>
    var pos: nat
    var autoGrow: bool
    const base: BaseFile

    ghost predicate Valid()
      reads this
    {
      pos <= buffer.Length
    }

    /** The file an unbuffered stream would have. */
    ghost function Contents(): seq<Byte>
      reads this, buffer, base
      requires Valid()
    {
      Overlay(base.content, base.off, buffer[..pos])
    }

    /** The offset an unbuffered stream would be at. */
    function Position(): nat
      reads this, base
    {
      base.off + pos
    }

    constructor (base: BaseFile, size: nat, autoGrow: bool)
      ensures Valid() && this.base == base && this.autoGrow == autoGrow
      ensures buffer.Length == size && fresh(buffer) && pos == 0
    {
      this.base, this.autoGrow := base, autoGrow;
      buffer := new Byte[size];
      pos := 0;
    }

    method SetBufferSize(size: nat)
      requires Valid()
      modifies this`buffer
      ensures Valid() && (buffer == old(buffer) || fresh(buffer))
      ensures buffer[..pos] == old(buffer[..pos])
      ensures buffer.Length == if size < pos then pos else size
    {
      if size == buffer.Length {
        return;
      }
      var resized := new Byte[if size < pos then pos else size];
      for i := 0 to pos
        modifies resized
        invariant resized[..i] == buffer[..i]
      {
        resized[i] := buffer[i];
      }
      buffer := resized;
    }

    /** Drop the bytes that were written, by a memmove to the front of those that were not. */
    method Written(from: nat)
      requires Valid() && from <= pos
      modifies this`pos, buffer
      ensures Valid() && pos == old(pos) - from && buffer[..pos] == old(buffer[..pos])[from..]
    {
      ghost var bytes := buffer[from..pos];
      for i := 0 to pos - from
        modifies buffer
        invariant buffer[..i] == bytes[..i]
        invariant buffer[from + i..pos] == bytes[i..]
      {
        assert buffer[from + i] == buffer[from + i..pos][0] == bytes[i];
        assert buffer[from + i + 1..pos] == bytes[i + 1..];
        buffer[i] := buffer[from + i];
      }
      pos := pos - from;
    }

    /** A flush that fails half-way keeps the bytes the base file did not take. */
    method FlushBuffer(quota: nat) returns (res: bool)
      requires Valid()
      modifies this`pos, buffer, base
      ensures Valid() && Contents() == old(Contents()) && Position() == old(Position())
      ensures res <==> quota >= old(pos)
      ensures pos == old(pos) - Min(old(pos), quota)
    {
      var bytes := buffer[..pos];
      var n;
      res, n := base.WriteAll(bytes, quota);
      Written(n);
      OverlayRest(old(base.content), old(base.off), bytes, n);
    }

    /** Copy bytes behind the ones in the buffer. */
    method Append(bytes: seq<Byte>)
      requires Valid() && pos + |bytes| <= buffer.Length
      modifies this`pos, buffer
      ensures Valid() && Contents() == Overlay(old(Contents()), old(Position()), bytes)
      ensures Position() == old(Position()) + |bytes|
    {
      OverlaySplit(base.content, base.off, buffer[..pos], bytes);
      CopyBehind(bytes);
      pos := pos + |bytes|;
    }

    /** memcpy behind the bytes in the buffer. */
    method CopyBehind(bytes: seq<Byte>)
      requires pos + |bytes| <= buffer.Length
      modifies buffer
      ensures buffer[..pos + |bytes|] == old(buffer[..pos]) + bytes
    {
      for i := 0 to |bytes|
        modifies buffer
        invariant buffer[..pos + i] == old(buffer[..pos]) + bytes[..i]
      {
        buffer[pos + i] := bytes[i];
      }
    }

    /**
     * -1 when the buffer is full and cannot be flushed.  A buffer that does not grow
     * takes what there is room for, all of it if it grows; no bytes at all only for
     * no bytes or for a buffer of length 0.
     */
    method Write(bytes: seq<Byte>, quota: nat) returns (n: int)
      requires Valid()
      modifies this`pos, this`buffer, buffer, base
      ensures Valid() && (buffer == old(buffer) || fresh(buffer))
      ensures
        var room := old(buffer.Length - pos);
        n == if autoGrow && room < |bytes| then |bytes|
             else if room > 0 then Min(|bytes|, room)
             else if quota < old(pos) then -1
             else Min(|bytes|, buffer.Length)
      ensures Contents() == Overlay(old(Contents()), old(Position()), bytes[..Max(n, 0)])
      ensures Position() == old(Position()) + Max(n, 0)
      ensures n == 0 ==> bytes == [] || (buffer.Length == 0 && !autoGrow)
      ensures
        buffer.Length
        == if autoGrow && old(buffer.Length - pos) < |bytes|
           then Max(old(buffer.Length) * 2, old(buffer.Length) + |bytes|)
           else old(buffer.Length)
    {
      var room := buffer.Length - pos;
      if autoGrow && room < |bytes| {
        SetBufferSize(Max(buffer.Length * 2, buffer.Length + |bytes|));
      } else if room == 0 {
        var res := FlushBuffer(quota);
        if !res {
          return -1;
        }
      }
      n := Min(|bytes|, buffer.Length - pos);
      Append(bytes[..n]);
    }

    method Flush(quota: nat, works: bool) returns (res: bool)
      requires Valid()
      modifies this`pos, buffer, base
      ensures Valid() && Contents() == old(Contents()) && Position() == old(Position())
      ensures res <==> quota >= old(pos) && works
      ensures quota >= old(pos) ==> base.content == old(Contents()) && base.off == old(Position())
    {
      res := FlushBuffer(quota);
      if !res {
        return false;
      }
      res := works;
    }

    method Tell() returns (offset: int)
      requires Valid()
      ensures offset == if base.seekable then Position() else 0
    {
      if !base.seekable {
        return 0;
      }
      offset := base.off + pos;
    }

    method Seek(offset: int, whence: SeekType, quota: nat, works: bool) returns (ok: bool)
      requires Valid()
      modifies this`pos, buffer, base
      ensures Valid() && Contents() == old(Contents())
      ensures
        var target := SeekTarget(|old(Contents())|, old(Position()), offset, whence);
        && (ok <==> base.seekable && quota >= old(pos) && works && target >= 0)
        && Position() == (if ok then target else old(Position()))
      ensures
        ok ==>
          match whence
          case SeekSet => Position() == offset
          case SeekCur => Position() == old(Position()) + offset
          case SeekEnd => Position() == |Contents()| + offset
    {
      if !base.seekable {
        return false;
      }
      var flushed := FlushBuffer(quota);
      if !flushed {
        return false;
      }
      ok := base.Seek(offset, whence, works);
    }

    method Truncate(size: nat, quota: nat, works: bool) returns (ok: bool)
      requires Valid()
      modifies this`pos, buffer, base
      ensures Valid() && Position() == old(Position())
      ensures ok <==> base.seekable && quota >= old(pos) && works
      ensures Contents() == if ok then Truncated(old(Contents()), size) else old(Contents())
    {
      if !base.seekable {
        return false;
      }
      var flushed := FlushBuffer(quota);
      if !flushed {
        return false;
      }
      ok := base.Truncate(size, works);
    }
  }
}
