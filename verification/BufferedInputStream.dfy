/**
 * GBufferedInputStream (gio/gbufferedinputstream.c), a read cache over a seekable
 * file.  Every operation is proved to do to the position what the same operation
 * does on the file itself, and to give the same bytes.
 *
 * What the base stream does is in the `want` argument of the operations that ask
 * it: negative for a failure, else the number of bytes it would like to give.
 */
module BufferedInputStream {
  import opened Wrappers
  import opened Seekable

  /** How many bytes a file gives for a request: none only at its end, -1 on failure. */
  function Given(size: nat, off: nat, request: nat, want: int): (n: int)
    ensures -1 <= n <= request && (n > 0 ==> off + n <= size)
    ensures n == 0 <==> request == 0 || (want >= 0 && off >= size)
    ensures n == -1 <==> request > 0 && want < 0
    ensures request > 0 && want > 0 && off < size ==> n == Min(want, Min(request, size - off))
  {
    if request == 0 then 0
    else if want < 0 then -1
    else if off >= size then 0
    else var most := Min(request, size - off); if want == 0 then 1 else Min(want, most)
  }

  /** n bytes of a file, from an offset that may be behind its end when n is 0. */
  function Slice(content: seq<Byte>, off: nat, n: nat): (s: seq<Byte>)
    requires n > 0 ==> off + n <= |content|
    ensures |s| == n
  {
    if n == 0 then [] else content[off..off + n]
  }

  lemma SliceAppend(content: seq<Byte>, off: nat, m: nat, n: nat)
    requires m + n > 0 ==> off + m + n <= |content|
    ensures Slice(content, off, m) + Slice(content, off + m, n) == Slice(content, off, m + n)
  {
  }

  /** The bytes that end at an offset are the ones before them and the last. */
  lemma Longer(content: seq<Byte>, off: nat, before: seq<Byte>, last: seq<Byte>)
    requires |before + last| <= off && (|before + last| > 0 ==> off <= |content|)
    requires before == Slice(content, off - |last| - |before|, |before|) && last == Slice(content, off - |last|, |last|)
    ensures before + last == Slice(content, off - |before + last|, |before + last|)
  {
    SliceAppend(content, off - |before + last|, |before|, |last|);
  }

  lemma SlicePart(content: seq<Byte>, off: nat, n: nat, i: nat, m: nat)
    requires i + m <= n && (n > 0 ==> off + n <= |content|)
    ensures Slice(content, off, n)[i..i + m] == Slice(content, off + i, m)
  {
    if m > 0 {
      var all, part := Slice(content, off, n), Slice(content, off + i, m);
      forall k | 0 <= k < |part|
        ensures all[i..i + m][k] == part[k]
      {
        assert all[i + k] == content[off + (i + k)];
      }
    }
  }

  class BaseFile {
    const content: seq<Byte>
    const seekable: bool
    var off: nat

    constructor (content: seq<Byte>, seekable: bool, off: nat)
      ensures this.content == content && this.seekable == seekable && this.off == off
    {
      this.content, this.seekable, this.off := content, seekable, off;
    }

    method Read(request: nat, want: int) returns (nread: int, bytes: seq<Byte>)
      modifies this
      ensures nread == Given(|content|, old(off), request, want)
      ensures off == old(off) + Max(nread, 0)
      ensures bytes == Slice(content, old(off), Max(nread, 0))
    {
      nread := Given(|content|, off, request, want);
      bytes := Slice(content, off, Max(nread, 0));
      off := off + Max(nread, 0);
    }

    method Skip(request: nat, want: int) returns (nread: int)
      modifies this
      ensures nread == Given(|content|, old(off), request, want)
      ensures off == old(off) + Max(nread, 0)
    {
      nread := Given(|content|, off, request, want);
      off := off + Max(nread, 0);
    }

    method Seek(offset: int, whence: SeekType, works: bool) returns (ok: bool)
      modifies this
      ensures ok <==> works && SeekTarget(|content|, old(off), offset, whence) >= 0
      ensures off == if ok then SeekTarget(|content|, old(off), offset, whence) else old(off)
    {
      var target := SeekTarget(|content|, off, offset, whence);
      ok := works && target >= 0;
      if ok {
        off := target;
      }
    }
  }

  // ---------------------------------------------------------------- reading and skipping

  /** The answer to a read or a skip, and where it leaves the base file and the buffer. */
  datatype Outcome = Outcome(n: int, off: nat, pos: nat, end: nat)

  /**
   * What read, skip and asynchronous skip of `count` bytes have in common.  It is
   * what an unbuffered stream at off - (end - pos) does: it moves by what it gives,
   * gives no more than there is, gives nothing only at the end of the file, and
   * fails only when the file fails and there was nothing to give.
   */
  function Advance(size: nat, off: nat, pos: nat, end: nat, len: nat, count: nat, want: int): (o: Outcome)
    requires pos <= end <= len && end <= off && (off <= size || end == 0)
    ensures o.pos <= o.end <= len && o.end <= o.off && (o.off <= size || o.end == 0)
    ensures -1 <= o.n <= count
    ensures o.off - (o.end - o.pos) == off - (end - pos) + Max(o.n, 0)
    ensures o.n > 0 ==> off - (end - pos) + o.n <= size
    ensures o.n == 0 <==> count == 0 || (want >= 0 && off - (end - pos) >= size)
    ensures o.n < 0 <==> count > 0 && want < 0 && pos == end
    ensures count <= end - pos ==> o == Outcome(count, off, pos + count, end)
    ensures
      count > end - pos && o.n >= 0 ==>
        var got := Given(size, off, if count - (end - pos) > len then count - (end - pos) else len, want);
        o.n == (if got < 0 then end - pos else Min(count, end - pos + got)) && o.off == off + Max(got, 0)
    ensures count - (end - pos) > len ==> o.pos == o.end == 0
  {
    var available := end - pos;
    if count <= available then
      Outcome(count, off, pos + count, end)
    else
      var rest := count - available;
      var large := rest > len;
      var got := Given(size, off, if large then rest else len, want);
      Outcome(
        if got < 0 then (if available == 0 then -1 else available) else available + Min(got, rest),
        off + Max(got, 0),
        if large then 0 else Min(Max(got, 0), rest),
        if large then 0 else Max(got, 0))
  }

  datatype SkipTask =
    | Done(result: int)
    | AwaitSkip(skipped: nat, request: nat)
    | AwaitFill(skipped: nat, count: nat)

  /** `buffer` is always all of the buffer: the length the source keeps beside it is buffer.Length. */
  class GBufferedInputStream {
    var buffer: array<Byte>
    var pos: nat
    var end: nat
    const base: BaseFile

    /** The buffer holds the bytes just before the base file's offset. */
    ghost predicate Valid()
      reads this, buffer, base
    {
      && pos <= end <= buffer.Length && end <= base.off
      && (end > 0 ==> base.off <= |base.content|)
      && buffer[..end] == Slice(base.content, base.off - end, end)
    }

    /** The offset an unbuffered stream would be at. */
    function Position(): nat
      reads this, buffer, base
      requires Valid()
    {
      base.off - (end - pos)
    }

    constructor (base: BaseFile, size: nat)
      ensures Valid() && this.base == base && buffer.Length == size && fresh(buffer)
      ensures Position() == base.off && pos == end == 0
    {
      this.base := base;
      buffer := new Byte[size];
      pos, end := 0, 0;
    }

    /** Nothing is in the buffer any more. */
    method Forget()
      modifies this`pos, this`end
      ensures Valid() && pos == end == 0
    {
      pos, end := 0, 0;
      assert buffer[..end] == [];
    }

    method SetBufferSize(size: nat)
      requires Valid()
      modifies this
      ensures Valid() && (buffer == old(buffer) || fresh(buffer))
      ensures base.off == old(base.off) && end - pos == old(end - pos)
      ensures buffer.Length == if size < old(end - pos) then old(end - pos) else size
    {
      if buffer.Length == size {
        return;
      }
      var inBuffer := end - pos;
      var resized := CopyTo(if size < inBuffer then inBuffer else size);
      SlicePart(base.content, base.off - end, end, pos, inBuffer);
      buffer, pos, end := resized, 0, inBuffer;
    }

    /** The bytes in the buffer, at the front of a new one. */
    method CopyTo(size: nat) returns (resized: array<Byte>)
      requires pos <= end <= buffer.Length && end - pos <= size
      ensures fresh(resized) && resized.Length == size && resized[..end - pos] == buffer[..end][pos..pos + (end - pos)]
    {
      resized := new Byte[size];
      for i := 0 to end - pos
        modifies resized
        invariant resized[..i] == buffer[..end][pos..pos + i]
      {
        resized[i] := buffer[pos + i];
      }
    }

    /** memmove to the front. */
    method MoveToFront()
      requires pos <= end <= buffer.Length
      modifies buffer
      ensures buffer[..end - pos] == old(buffer[pos..end])
    {
      ghost var bytes := buffer[pos..end];
      for i := 0 to end - pos
        modifies buffer
        invariant buffer[..i] == bytes[..i]
        invariant buffer[pos + i..end] == bytes[i..]
      {
        assert buffer[pos + i] == buffer[pos + i..end][0] == bytes[i];
        assert buffer[pos + i + 1..end] == bytes[i + 1..];
        buffer[i] := buffer[pos + i];
      }
    }

    method CompactBuffer()
      requires Valid()
      modifies this`pos, this`end, buffer
      ensures Valid() && pos == 0 && end == old(end - pos)
    {
      var currentSize := end - pos;
      ghost var bytes := buffer[pos..end];
      InBuffer(pos, currentSize);
      MoveToFront();
      pos, end := 0, currentSize;
      assert buffer[..end] == bytes;
    }

    /** Some of the bytes in the buffer, as they are in the file. */
    lemma InBuffer(i: nat, n: nat)
      requires Valid() && i + n <= end
      ensures n > 0 ==> base.off - end + i + n <= |base.content|
      ensures buffer[i..i + n] == Slice(base.content, base.off - end + i, n)
    {
      assert buffer[i..i + n] == buffer[..end][i..i + n];
      SlicePart(base.content, base.off - end, end, i, n);
    }

    /** What the base stream writes behind the bytes in the buffer. */
    method Append(bytes: seq<Byte>)
      requires end + |bytes| <= buffer.Length
      modifies this`end, buffer
      ensures end == old(end) + |bytes| && buffer[..end] == old(buffer[..end]) + bytes
    {
      for i := 0 to |bytes|
        modifies buffer
        invariant buffer[..end + i] == old(buffer[..end]) + bytes[..i]
      {
        buffer[end + i] := bytes[i];
      }
      end := end + |bytes|;
    }

    method ReadIn(request: nat, want: int) returns (nread: int)
      requires Valid() && end + request <= buffer.Length
      modifies this`end, buffer, base
      ensures Valid()
      ensures nread == Given(|base.content|, old(base.off), request, want)
      ensures end == old(end) + Max(nread, 0) && base.off == old(base.off) + Max(nread, 0)
    {
      var bytes;
      nread, bytes := base.Read(request, want);
      if nread > 0 {
        Longer(base.content, base.off, buffer[..end], bytes);
        Append(bytes);
      }
    }

    /** fill; -1 asks for as much as the buffer holds. */
    method RealFill(count: int, want: int) returns (nread: int)
      requires Valid() && count >= -1
      modifies this`pos, this`end, buffer, base
      ensures Valid() && Position() == old(Position())
      ensures
        var room := buffer.Length - old(end - pos);
        nread == Given(|base.content|, old(base.off), if count == -1 then room else Min(count, room), want)
      ensures
        nread == 0 <==>
          count == 0 || old(end - pos) == buffer.Length || (want >= 0 && old(base.off) >= |base.content|)
      ensures end - pos == old(end - pos) + Max(nread, 0) && base.off == old(base.off) + Max(nread, 0)
      ensures old(end == 0) ==> pos == 0
    {
      var wanted := if count == -1 then buffer.Length else count;
      var inBuffer := end - pos;
      var request := Min(wanted, buffer.Length - inBuffer);
      if buffer.Length - end < request {
        CompactBuffer();
      }
      nread := ReadIn(request, want);
    }

    /** The next bytes of the file, straight from the buffer. */
    method TakeBuffered(count: nat) returns (bytes: seq<Byte>)
      requires Valid() && count <= end - pos
      modifies this`pos
      ensures Valid() && pos == old(pos) + count
      ensures count > 0 ==> old(Position()) + count <= |base.content|
      ensures bytes == Slice(base.content, old(Position()), count)
    {
      InBuffer(pos, count);
      bytes := buffer[pos..pos + count];
      pos := pos + count;
    }

    /** Refill the buffer, which has nothing left, and take up to `rest` bytes of it; -1 on failure. */
    method Refill(rest: nat, want: int) returns (nread: int, bytes: seq<Byte>)
      requires Valid() && pos == end == 0
      modifies this`pos, this`end, buffer, base
      ensures Valid()
      ensures
        var got := Given(|base.content|, old(base.off), buffer.Length, want);
        && nread == (if got < 0 then -1 else Min(got, rest))
        && base.off == old(base.off) + Max(got, 0) && end == Max(got, 0) && pos == Max(nread, 0)
      ensures bytes == Slice(base.content, old(base.off), Max(nread, 0))
    {
      nread := RealFill(buffer.Length, want);
      if nread < 0 {
        return -1, [];
      }
      nread := Min(rest, end - pos);
      bytes := TakeBuffered(nread);
    }

    /** Large requests shortcut the buffer. */
    method ReadRest(rest: nat, want: int) returns (nread: int, bytes: seq<Byte>)
      requires Valid() && pos == end == 0
      modifies this`pos, this`end, buffer, base
      ensures Valid()
      ensures
        var large := rest > buffer.Length;
        var got := Given(|base.content|, old(base.off), if large then rest else buffer.Length, want);
        && nread == (if got < 0 then -1 else Min(got, rest))
        && base.off == old(base.off) + Max(got, 0)
        && end == (if large then 0 else Max(got, 0)) && pos == (if large then 0 else Max(nread, 0))
      ensures bytes == Slice(base.content, old(base.off), Max(nread, 0))
    {
      if rest > buffer.Length {
        nread, bytes := base.Read(rest, want);
      } else {
        nread, bytes := Refill(rest, want);
      }
    }

    /** The rest of a read whose first bytes were all the buffer had. */
    method ReadBehind(first: seq<Byte>, rest: nat, want: int) returns (nread: int, bytes: seq<Byte>)
      requires Valid() && pos == end == 0 && |first| <= base.off
      requires |first| > 0 ==> base.off <= |base.content|
      requires first == Slice(base.content, base.off - |first|, |first|)
      modifies this`pos, this`end, buffer, base
      ensures Valid()
      ensures
        var large := rest > buffer.Length;
        var got := Given(|base.content|, old(base.off), if large then rest else buffer.Length, want);
        && nread == (if got < 0 then -1 else Min(got, rest))
        && base.off == old(base.off) + Max(got, 0)
        && end == (if large then 0 else Max(got, 0)) && pos == (if large then 0 else Max(nread, 0))
      ensures bytes == Slice(base.content, old(base.off) - |first|, |first| + Max(nread, 0))
    {
      nread, bytes := ReadRest(rest, want);
      SliceAppend(base.content, old(base.off) - |first|, |first|, Max(nread, 0));
      bytes := first + bytes;
    }

    /** All the buffer has, and then up to `rest` bytes more. */
    method ReadMore(rest: nat, want: int) returns (nread: int, bytes: seq<Byte>)
      requires Valid()
      modifies this`pos, this`end, buffer, base
      ensures Valid()
      ensures
        var large := rest > buffer.Length;
        var got := Given(|base.content|, old(base.off), if large then rest else buffer.Length, want);
        && nread == (if got < 0 then -1 else Min(got, rest))
        && base.off == old(base.off) + Max(got, 0)
        && end == (if large then 0 else Max(got, 0)) && pos == (if large then 0 else Max(nread, 0))
      ensures bytes == Slice(base.content, old(Position()), old(end - pos) + Max(nread, 0))
    {
      bytes := TakeBuffered(end - pos);
      Forget();
      nread, bytes := ReadBehind(bytes, rest, want);
    }

    method Read(count: nat, want: int) returns (n: int, bytes: seq<Byte>)
      requires Valid()
      modifies this`pos, this`end, buffer, base
      ensures Valid()
      ensures
        Outcome(n, base.off, pos, end)
        == Advance(|base.content|, old(base.off), old(pos), old(end), buffer.Length, count, want)
      ensures bytes == Slice(base.content, old(Position()), Max(n, 0))
    {
      var available := end - pos;
      if count <= available {
        bytes := TakeBuffered(count);
        return count, bytes;
      }
      var nread;
      nread, bytes := ReadMore(count - available, want);
      n := if nread < 0 && available == 0 then -1 else available + Max(nread, 0);
    }

    /** Large requests shortcut the buffer. */
    method SkipRest(rest: nat, want: int) returns (nread: int)
      requires Valid() && pos == end == 0
      modifies this`pos, this`end, buffer, base
      ensures Valid()
      ensures
        var large := rest > buffer.Length;
        var got := Given(|base.content|, old(base.off), if large then rest else buffer.Length, want);
        && nread == (if got < 0 then -1 else Min(got, rest))
        && base.off == old(base.off) + Max(got, 0)
        && end == (if large then 0 else Max(got, 0)) && pos == (if large then 0 else Max(nread, 0))
    {
      if rest > buffer.Length {
        nread := base.Skip(rest, want);
      } else {
        var bytes;
        nread, bytes := Refill(rest, want);
      }
    }

    method Skip(count: nat, want: int) returns (n: int)
      requires Valid()
      modifies this`pos, this`end, buffer, base
      ensures Valid()
      ensures
        Outcome(n, base.off, pos, end)
        == Advance(|base.content|, old(base.off), old(pos), old(end), buffer.Length, count, want)
    {
      var available := end - pos;
      if count <= available {
        pos := pos + count;
        return count;
      }
      Forget();
      var nread := SkipRest(count - available, want);
      if nread < 0 && available == 0 {
        return -1;
      }
      n := available + Max(nread, 0);
    }

    /** skip_async up to the point where it returns to the main loop. */
    method SkipAsync(count: nat) returns (task: SkipTask)
      requires Valid()
      modifies this`pos, this`end
      ensures Valid() && base.off == old(base.off)
      ensures
        var available := old(end - pos);
        if count <= available then
          task == Done(count) && pos == old(pos) + count && end == old(end)
        else
          && pos == end == 0
          && task == if count - available > buffer.Length then AwaitSkip(available, count - available)
                     else AwaitFill(available, count - available)
    {
      var available := end - pos;
      if count <= available {
        pos := pos + count;
        return Done(count);
      }
      Forget();
      task := if count - available > buffer.Length then AwaitSkip(available, count - available)
      else AwaitFill(available, count - available);
    }

    /** The base stream's skip_async and large_skip_callback. */
    method LargeSkipCallback(skipped: nat, request: nat, want: int) returns (result: int)
      requires Valid() && end == 0
      modifies base
      ensures Valid()
      ensures
        var nread := Given(|base.content|, old(base.off), request, want);
        && result == (if nread < 0 && skipped == 0 then -1 else skipped + Max(nread, 0))
        && base.off == old(base.off) + Max(nread, 0)
    {
      var nread := base.Skip(request, want);
      if nread < 0 && skipped == 0 {
        return -1;
      }
      result := skipped;
      if nread > 0 {
        result := result + nread;
      }
    }

    /** fill_async, which is fill in two halves, and skip_fill_buffer_callback. */
    method SkipFillBufferCallback(skipped: nat, count: nat, want: int) returns (result: int)
      requires Valid() && pos == end == 0
      modifies this`pos, this`end, buffer, base
      ensures Valid()
      ensures
        var nread := Given(|base.content|, old(base.off), buffer.Length, want);
        && result == (if nread < 0 && skipped == 0 then -1 else skipped + Min(count, Max(nread, 0)))
        && base.off == old(base.off) + Max(nread, 0)
        && end == Max(nread, 0) && pos == Min(count, end)
    {
      var nread := RealFill(buffer.Length, want);
      if nread < 0 && skipped == 0 {
        return -1;
      }
      result := skipped;
      if nread > 0 {
        var some := Min(count, end - pos);
        result := result + some;
        pos := pos + some;
      }
    }

    /** A whole asynchronous skip gives the same answer as skip, and leaves the stream in the same state. */
    method SkipAsyncToFinish(count: nat, want: int) returns (n: int)
      requires Valid()
      modifies this`pos, this`end, buffer, base
      ensures Valid()
      ensures
        Outcome(n, base.off, pos, end)
        == Advance(|base.content|, old(base.off), old(pos), old(end), buffer.Length, count, want)
    {
      var task := SkipAsync(count);
      match task
      case Done(result) =>
        n := result;
      case AwaitSkip(skipped, request) =>
        n := LargeSkipCallback(skipped, request, want);
      case AwaitFill(skipped, rest) =>
        n := SkipFillBufferCallback(skipped, rest, want);
    }

    /** The next byte of the file, from the buffer. */
    method TakeByte() returns (b: Byte)
      requires Valid() && pos < end
      modifies this`pos
      ensures Valid() && pos == old(pos) + 1
      ensures old(Position()) < |base.content| && b == base.content[old(Position())]
    {
      b := buffer[pos];
      assert b == buffer[..end][pos];
      pos := pos + 1;
    }

    /**
     * None is both an error and the end of the stream.  A buffer of no bytes makes
     * it None anywhere in the file.
     */
    method ReadByte(want: int) returns (byte: Option<Byte>)
      requires Valid()
      modifies this`pos, this`end, buffer, base
      ensures Valid()
      ensures
        byte.None? <==>
          old(pos == end) && (buffer.Length == 0 || want < 0 || old(Position()) >= |base.content|)
      ensures byte.Some? ==> old(Position()) < |base.content| && byte.value == base.content[old(Position())]
      ensures Position() == old(Position()) + if byte.Some? then 1 else 0
    {
      if end - pos != 0 {
        var b := TakeByte();
        return Some(b);
      }
      Forget();
      var nread := RealFill(buffer.Length, want);
      if nread <= 0 {
        return None;
      }
      var b := TakeByte();
      return Some(b);
    }

    method Peek(offset: nat, count: nat) returns (bytes: seq<Byte>)
      requires Valid()
      ensures
        bytes
        == if offset > end - pos then []
           else Slice(base.content, Position() + offset, Min(count, end - pos - offset))
    {
      var available := end - pos;
      if offset > available {
        return [];
      }
      bytes := buffer[pos + offset..pos + Min(offset + count, available)];
      InBuffer(pos + offset, Min(count, available - offset));
    }

    method Tell() returns (offset: int)
      requires Valid()
      ensures offset == if base.seekable then Position() else 0
    {
      if !base.seekable {
        return 0;
      }
      offset := base.off - (end - pos);
    }

    /** A seek from the position that stays inside the buffer does not ask the base file. */
    method Seek(offset: int, whence: SeekType, works: bool) returns (ok: bool)
      requires Valid()
      modifies this`pos, this`end, base
      ensures Valid()
      ensures
        var target := SeekTarget(|base.content|, old(Position()), offset, whence);
        && (ok <==> base.seekable && target >= 0 && (works || (whence.SeekCur? && 0 <= old(pos) + offset <= old(end))))
        && (ok ==> Position() == target)
      ensures
        ok ==>
          match whence
          case SeekSet => Position() == offset
          case SeekCur => Position() == old(Position()) + offset
          case SeekEnd => Position() == |base.content| + offset
      ensures !ok ==> pos == old(pos) && end == old(end) && base.off == old(base.off)
    {
      if !base.seekable {
        return false;
      }
      var o := offset;
      if whence.SeekCur? {
        if offset <= end - pos && pos + offset >= 0 {
          pos := pos + offset;
          return true;
        }
        o := o - (end - pos);
      }
      ok := SeekBase(o, whence, works);
    }

    /** What is in the buffer is dropped. */
    method SeekBase(offset: int, whence: SeekType, works: bool) returns (ok: bool)
      requires Valid()
      modifies this`pos, this`end, base
      ensures Valid()
      ensures ok <==> works && SeekTarget(|base.content|, old(base.off), offset, whence) >= 0
      ensures ok ==> Position() == base.off == SeekTarget(|base.content|, old(base.off), offset, whence)
      ensures !ok ==> pos == old(pos) && end == old(end) && base.off == old(base.off)
    {
      ok := base.Seek(offset, whence, works);
      if ok {
        Forget();
      }
    }
  }

  // ---------------------------------------------------------------- what the documentation does not say

  /** A fill of a full buffer returns 0, though there is more in the file. */
  method FillsNothing(content: seq<Byte>) returns (first: int, second: int, left: int)
    requires |content| >= 2
    ensures first == 1 && second == 0 && left == |content| - 1
  {
    var base := new BaseFile(content, true, 0);
    var stream := new GBufferedInputStream(base, 1);
    first := stream.RealFill(1, 1);
    second := stream.RealFill(1, 1);
    left := |content| - base.off;
  }

  /** Without a buffer there is no next byte, though there are bytes left in the file. */
  method NoNextByte(content: seq<Byte>) returns (byte: Option<Byte>, left: int)
    requires |content| >= 1
    ensures byte == None && left == |content|
  {
    var base := new BaseFile(content, true, 0);
    var stream := new GBufferedInputStream(base, 0);
    byte := stream.ReadByte(1);
    left := |content| - stream.Position();
  }
}
