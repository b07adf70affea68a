/**
 * What the two converter streams share: the growable byte buffer that both
 * gio/gconverterinputstream.c and gio/gconverteroutputstream.c define for
 * themselves, and the contract of g_converter_convert (gio/gconverter.c).
 */
module ConverterBuffers {
  import opened Wrappers

  const INITIAL_BUFFER_SIZE := 4096

  /**
   * The bytes in use are data[start..end]; an empty buffer has start == end == 0,
   * which the streams rely on when they convert into an empty buffer.
   */
  class Buffer {
    var data: array<Byte>
    var start: nat
    var end: nat

    ghost predicate Valid()
      reads this
    {
      start <= end <= data.Length && (start == end ==> start == 0)
    }

    ghost function Contents(): seq<Byte>
      reads this, data
      requires Valid()
    {
      data[start..end]
    }

    constructor ()
      ensures Valid() && Contents() == [] && data.Length == 0 && fresh(data)
    {
      data := new Byte[0];
      start, end := 0, 0;
    }

    function DataSize(): nat
      reads this
      requires Valid()
    {
      end - start
    }

    function Tailspace(): nat
      reads this
      requires Valid()
    {
      data.Length - end
    }

    method Consumed(count: nat)
      requires Valid() && count <= DataSize()
      modifies this`start, this`end
      ensures Valid() && Contents() == old(Contents())[count..]
      ensures DataSize() == old(DataSize()) - count
    {
      start := start + count;
      if start == end {
        start, end := 0, 0;
      }
    }

    /** buffer_read: the first bytes in use, which are then gone. */
    method Take(count: nat) returns (bytes: seq<Byte>)
      requires Valid() && count <= DataSize()
      modifies this`start, this`end
      ensures Valid() && bytes + Contents() == old(Contents()) && |bytes| == count
    {
      bytes := data[start..start + count];
      Consumed(count);
    }

    /** memmove to the front. */
    method Compact()
      requires Valid()
      modifies this`start, this`end, data
      ensures Valid() && start == 0 && Contents() == old(Contents())
    {
      var inBuffer := DataSize();
      ghost var bytes := Contents();
      for i := 0 to inBuffer
        modifies data
        invariant data[..i] == bytes[..i]
        invariant data[start + i..end] == bytes[i..]
      {
        assert data[start + i] == data[start + i..end][0] == bytes[i];
        assert data[start + i + 1..end] == bytes[i + 1..];
        data[i] := data[start + i];
      }
      end := end - start;
      start := 0;
    }

    method Grow()
      requires Valid()
      modifies this
      ensures Valid() && start == 0 && Contents() == old(Contents()) && fresh(data)
      ensures data.Length == if old(data.Length) == 0 then 4096 else 2 * old(data.Length)
    {
      var size := if data.Length == 0 then INITIAL_BUFFER_SIZE else data.Length * 2;
      var grown := new Byte[size];
      var inBuffer := DataSize();
      for i := 0 to inBuffer
        modifies grown
        invariant grown[..i] == data[start..start + i]
      {
        grown[i] := data[start + i];
      }
      data := grown;
      end := end - start;
      start := 0;
    }

    /** Some room, at least. */
    method EnsureTailspace()
      requires Valid()
      modifies this
      ensures Valid() && Contents() == old(Contents()) && Tailspace() > 0 && Tailspace() >= old(Tailspace())
      ensures data == old(data) || fresh(data)
    {
      if Tailspace() == 0 {
        Grow();
      }
    }

    /** Room for `atLeast` bytes, the bytes in use included. */
    method EnsureSpace(atLeast: nat)
      requires Valid()
      modifies this, data
      ensures Valid() && Contents() == old(Contents())
      ensures data == old(data) || fresh(data)
      ensures DataSize() >= atLeast || DataSize() + Tailspace() >= atLeast
      ensures data.Length >= old(data.Length)
      ensures atLeast > old(data.Length) ==> Tailspace() > old(Tailspace())
      ensures old(DataSize()) < atLeast <= old(DataSize() + Tailspace()) ==>
        data == old(data) && start == if old(DataSize()) < 256 then 0 else old(start)
    {
      var inBuffer := DataSize();
      if inBuffer >= atLeast {
        return;
      }
      var leftToFill := Tailspace();
      if inBuffer + leftToFill >= atLeast {
        if inBuffer < 256 {
          Compact();
        }
      } else if data.Length >= atLeast {
        Compact();
      } else {
        while data.Length < atLeast
          invariant Valid() && Contents() == old(Contents())
          invariant data == old(data) || fresh(data)
          invariant data.Length >= old(data.Length)
          invariant data == old(data) ==> start == old(start) && end == old(end)
          invariant data != old(data) ==> start == 0 && data.Length >= 2 * old(data.Length)
          decreases atLeast - data.Length
        {
          Grow();
        }
      }
    }

    /** What a converter or a base stream wrote behind the bytes in use. */
    method Fill(bytes: seq<Byte>)
      requires Valid() && |bytes| <= Tailspace()
      modifies this`end, data
      ensures Valid() && Tailspace() == old(Tailspace()) - |bytes|
      ensures Contents() == old(Contents()) + bytes
    {
      for i := 0 to |bytes|
        modifies data
        invariant data[start..end + i] == old(data[start..end]) + bytes[..i]
      {
        data[end + i] := bytes[i];
      }
      end := end + |bytes|;
    }

    method Append(bytes: seq<Byte>)
      requires Valid()
      modifies this, data
      ensures Valid() && Contents() == old(Contents()) + bytes
      ensures data == old(data) || fresh(data)
    {
      EnsureSpace(DataSize() + |bytes|);
      Fill(bytes);
    }
  }

  // ---------------------------------------------------------------- converters

  datatype Flags = NoFlags | InputAtEnd | Flush

  datatype Result = Converted | Finished | Flushed | NoSpace | PartialInput | HardError

  predicate Succeeded(r: Result) { r.Converted? || r.Finished? || r.Flushed? }

  /** One answer of a converter; the last two fields describe the state it is in afterwards. */
  datatype Reply = Reply(result: Result, read: nat, written: seq<Byte>, needRoom: nat, pending: nat)

  /** The error that a script starts with: with none left, every answer is a hard error. */
  function FirstError(script: seq<Reply>): Option<Result>
  {
    if script == [] then Some(HardError)
    else if (script[0].result.PartialInput? || script[0].result.HardError?) && script[0].read == 0 && script[0].written == []
    then Some(script[0].result)
    else None
  }

  function Rest(script: seq<Reply>): seq<Reply>
  {
    if script == [] then [] else script[1..]
  }

  /**
   * Any converter that keeps the contract of g_converter_convert: it gives the
   * answers of its script, as far as they are legal.  The contract in the
   * ensures clauses is all that the streams may use.
   *
   * `needRoom` is an output size that is enough for the next answer not to be
   * NO_SPACE, as long as NO_SPACE is all it answers; `pending` bounds the output
   * still to come without further input.
   */
  class Converter {
    var script: seq<Reply>
    var finished: bool
    var needRoom: nat
    var pending: nat
    ghost var consumed: seq<Byte>
    ghost var produced: seq<Byte>
    ghost var last: Result      // its last answer
    ghost var asked: seq<Flags> // the flags of every call

    constructor (script: seq<Reply>)
      ensures this.script == script && !finished && consumed == [] && produced == [] && asked == []
    {
      this.script := script;
      finished, needRoom, pending := false, 1, 0;
      consumed, produced, last, asked := [], [], Converted, [];
    }

    predicate Legal(r: Reply, input: seq<Byte>, room: nat, flags: Flags)
      reads this
    {
      && r.read <= |input| && |r.written| <= room
      && (!Succeeded(r.result) ==> r.read == 0 && r.written == [])
      && (r.result.NoSpace? ==> room < needRoom && r.needRoom == needRoom && r.pending == pending)
      && (r.result.Converted? ==> r.read > 0 || r.written != [])
      && (r.result.Converted? && r.read == 0 ==> r.pending < pending)
      && (r.result.Flushed? ==> flags.Flush? && r.read == |input|)
    }

    method Convert(input: seq<Byte>, room: nat, flags: Flags)
      returns (result: Result, bytesRead: nat, written: seq<Byte>)
      requires room > 0 && !finished
      modifies this
      ensures bytesRead <= |input| && |written| <= room
      ensures consumed == old(consumed) + input[..bytesRead] && produced == old(produced) + written
      ensures finished == result.Finished? && last == result && asked == old(asked) + [flags]
      ensures !Succeeded(result) ==> bytesRead == 0 && written == []
      ensures script == Rest(old(script))
      ensures
        if old(script) != [] && old(Legal(script[0], input, room, flags)) then
          && result == old(script)[0].result && bytesRead == old(script)[0].read && written == old(script)[0].written
          && needRoom == old(script)[0].needRoom && pending == old(script)[0].pending
        else result.HardError?
      ensures result.NoSpace? ==> room < old(needRoom) && needRoom == old(needRoom) && pending == old(pending)
      ensures result.Converted? ==> bytesRead > 0 || (written != [] && pending < old(pending))
      ensures result.Flushed? ==> flags.Flush? && bytesRead == |input|
    {
      last, asked := HardError, asked + [flags];
      if script == [] {
        return HardError, 0, [];
      }
      var r := script[0];
      script := script[1..];
      if !Legal(r, input, room, flags) {
        return HardError, 0, [];
      }
      last := r.result;
      result, bytesRead, written := r.result, r.read, r.written;
      finished, needRoom, pending := r.result.Finished?, r.needRoom, r.pending;
      consumed := consumed + input[..bytesRead];
      produced := produced + written;
    }
  }

  /** All calls of the converter since `before` had these flags. */
  predicate AskedWith(before: seq<Flags>, after: seq<Flags>, flags: Flags)
  {
    before <= after && forall k :: |before| <= k < |after| ==> after[k] == flags
  }

  /** How much room the converter may still ask for. */
  function Shortage(converter: Converter, buffer: Buffer): nat
    reads converter, buffer
    requires buffer.Valid()
  {
    if converter.needRoom > buffer.Tailspace() then converter.needRoom - buffer.Tailspace() else 0
  }

  /** One turn of a conversion loop: convert behind the bytes in use, or make room for the next try. */
  method ConvertInto(converter: Converter, input: seq<Byte>, buffer: Buffer, flags: Flags)
    returns (res: Result, bytesRead: nat, written: seq<Byte>)
    requires buffer.Valid() && buffer.Tailspace() > 0 && !converter.finished
    modifies buffer, buffer.data, converter
    ensures buffer.Valid() && (buffer.data == old(buffer.data) || fresh(buffer.data))
    ensures bytesRead <= |input| && converter.consumed == old(converter.consumed) + input[..bytesRead]
    ensures buffer.Contents() == old(buffer.Contents()) + written && converter.produced == old(converter.produced) + written
    ensures converter.finished == res.Finished? && converter.last == res && converter.asked == old(converter.asked) + [flags]
    ensures !Succeeded(res) ==> bytesRead == 0 && written == []
    ensures converter.script == Rest(old(converter.script))
    ensures FirstError(old(converter.script)).Some? ==> res == FirstError(old(converter.script)).value
    ensures res.NoSpace? ==> converter.pending == old(converter.pending) && buffer.Tailspace() > 0
    ensures res.NoSpace? ==> Shortage(converter, buffer) < old(Shortage(converter, buffer))
    ensures res.Converted? ==> bytesRead > 0 || (written != [] && converter.pending < old(converter.pending))
    ensures res.Flushed? ==> flags.Flush? && bytesRead == |input|
    ensures !res.NoSpace? ==> buffer.Tailspace() + |written| == old(buffer.Tailspace())
  {
    res, bytesRead, written := converter.Convert(input, buffer.Tailspace(), flags);
    if Succeeded(res) {
      buffer.Fill(written);
    } else if res.NoSpace? {
      buffer.EnsureSpace(buffer.data.Length + 1);
    }
  }

  // ---------------------------------------------------------------- base streams

  /** A base output stream; `script` is how much each write_all gets through before it fails. */
  class Sink {
    var script: seq<nat>
    var written: seq<Byte>
    var failing: bool           // whether the last write failed

    constructor (script: seq<nat>)
      ensures written == []
    {
      this.script := script;
      written, failing := [], false;
    }

    /** g_pollable_stream_write_all */
    method WriteAll(bytes: seq<Byte>) returns (ok: bool, n: nat)
      modifies this
      ensures n <= |bytes| && (ok <==> n == |bytes|) && failing == !ok
      ensures written == old(written) + bytes[..n]
    {
      n := if script == [] || script[0] > |bytes| then |bytes| else script[0];
      script := if script == [] then [] else script[1..];
      written := written + bytes[..n];
      ok := n == |bytes|;
      failing := !ok;
    }
  }

  /** A finite base input stream; `script` is how each read goes: a failure, or at most so many bytes. */
  class Source {
    var script: seq<int>
    var rest: seq<Byte>
    var failing: bool           // whether the last read failed
    ghost var taken: seq<Byte>

    constructor (bytes: seq<Byte>, script: seq<int>)
      ensures rest == bytes && taken == []
    {
      this.script := script;
      rest, failing := bytes, false;
      taken := [];
    }

    /** g_pollable_stream_read: -1 on failure, 0 at the end or for an empty request. */
    method Read(count: nat) returns (nread: int, bytes: seq<Byte>)
      modifies this
      ensures failing == (nread == -1)
      ensures nread == -1 || (0 <= nread <= count && nread <= |old(rest)|)
      ensures bytes == if nread > 0 then old(rest)[..nread] else []
      ensures nread == 0 ==> count == 0 || old(rest) == []
      ensures rest == old(rest)[|bytes|..] && taken == old(taken) + bytes
    {
      var s := if script == [] then count else script[0];
      script := if script == [] then [] else script[1..];
      bytes := [];
      failing := s < 0;
      if s < 0 {
        return -1, [];
      }
      var most := if count < |rest| then count else |rest|;
      nread := if most == 0 then 0 else if s == 0 then 1 else if s < most then s else most;
      bytes := rest[..nread];
      rest := rest[nread..];
      taken := taken + bytes;
    }
  }
}
