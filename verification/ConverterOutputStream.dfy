/** GConverterOutputStream (gio/gconverteroutputstream.c). */
module ConverterOutputStream {
  import opened Wrappers
  import opened ConverterBuffers

  datatype WriteResult =
    | Accepted(count: nat)
    | WriteFailed         // the base stream's error, before anything was converted
    | ConvertFailed       // the converter's own error

  /** The bytes of a write that the stream keeps, given whether earlier bytes were `waiting`. */
  ghost function Kept(r: WriteResult, buffer: seq<Byte>, waiting: bool): seq<Byte>
    requires r.Accepted? ==> r.count <= |buffer|
  {
    match r
    case Accepted(n) => buffer[..n]
    case WriteFailed => []
    case ConvertFailed => if waiting then buffer else []
  }

  lemma Regrouped(before: seq<Byte>, input: seq<Byte>, n: nat)
    requires n <= |input|
    ensures (before + input[..n]) + input[n..] == before + input
  {
    assert input == input[..n] + input[n..];
  }

  lemma NextBytes(before: seq<Byte>, input: seq<Byte>, m: nat, n: nat)
    requires m + n <= |input|
    ensures (before + input[..m]) + input[m..][..n] == before + input[..m + n]
  {
    assert input[..m] + input[m..][..n] == input[..m + n];
  }

  /**
   * `ledger` is every byte the stream has taken charge of, `accepted` every byte
   * a write reported as accepted.  `exact` goes down for good when a write fails
   * in the converter after its bytes went into the output buffer: the caller is
   * told that nothing was accepted, but the bytes are kept.
   */
  class GConverterOutputStream {
    var finished: bool
    const converter: Converter
    const outputBuffer: Buffer       // to be converted and written
    const convertedBuffer: Buffer    // already converted
    const sink: Sink
    ghost var ledger: seq<Byte>
    ghost var accepted: seq<Byte>
    ghost var exact: bool

    ghost predicate Wired()
      reads this, outputBuffer, convertedBuffer, converter
    {
      && outputBuffer != convertedBuffer && outputBuffer.data != convertedBuffer.data
      && outputBuffer.Valid() && convertedBuffer.Valid()
      && converter.finished == finished
    }

    /** Conservation: what came in is consumed or waiting, what was produced is out or waiting. */
    ghost predicate Valid()
      reads this, outputBuffer, convertedBuffer, outputBuffer.data, convertedBuffer.data, converter, sink
    {
      && Wired()
      && converter.consumed + outputBuffer.Contents() == ledger
      && converter.produced == sink.written + convertedBuffer.Contents()
      && Booked()
    }

    ghost predicate Booked()
      reads this
    {
      if exact then accepted == ledger else |accepted| < |ledger|
    }

    constructor (converter: Converter, sink: Sink)
      requires !converter.finished && converter.consumed == [] && converter.produced == [] && sink.written == []
      ensures Valid() && this.converter == converter && this.sink == sink
      ensures ledger == accepted == [] && exact && !finished
      ensures outputBuffer.Contents() == convertedBuffer.Contents() == []
      ensures fresh(outputBuffer) && fresh(convertedBuffer) && fresh(outputBuffer.data) && fresh(convertedBuffer.data)
    {
      this.converter, this.sink := converter, sink;
      outputBuffer := new Buffer();
      convertedBuffer := new Buffer();
      finished := false;
      ledger, accepted, exact := [], [], true;
    }

    /** Write out the converted bytes; on failure the rest of them stays for the next call. */
    method FlushBuffer() returns (res: bool)
      requires Valid()
      modifies convertedBuffer`start, convertedBuffer`end, sink
      ensures Valid()
      ensures res <==> convertedBuffer.Contents() == []
      ensures !res ==> sink.failing && old(convertedBuffer.Contents()) != []
    {
      var available := convertedBuffer.DataSize();
      if available > 0 {
        var bytes := convertedBuffer.data[convertedBuffer.start..convertedBuffer.end];
        var n: nat;
        res, n := sink.WriteAll(bytes);
        convertedBuffer.Consumed(n);
        assert bytes == bytes[..n] + bytes[n..];
        return;
      }
      res := true;
    }

    /** What the converter produced is in the base stream or in the buffer. */
    ghost predicate OutputConserved()
      reads this, outputBuffer, convertedBuffer, convertedBuffer.data, converter, sink
      requires Wired()
    {
      converter.produced == sink.written + convertedBuffer.Contents()
    }

    ghost predicate Unmoved(converted: seq<Byte>, script: seq<Reply>)
      reads this, outputBuffer, convertedBuffer, convertedBuffer.data, converter
      requires Wired()
    {
      convertedBuffer.Contents() == converted && converter.script == script
    }

    /** One turn of the conversion loops of write and flush. */
    method ConvertOnce(input: seq<Byte>, flags: Flags) returns (res: Result, bytesRead: nat)
      requires Wired() && OutputConserved() && !finished
      modifies this`finished, convertedBuffer, convertedBuffer.data, converter
      ensures Wired() && OutputConserved()
      ensures convertedBuffer.data == old(convertedBuffer.data) || fresh(convertedBuffer.data)
      ensures bytesRead <= |input| && converter.consumed == old(converter.consumed) + input[..bytesRead]
      ensures finished == res.Finished? && converter.last == res && converter.asked == old(converter.asked) + [flags]
      ensures !Succeeded(res) ==> bytesRead == 0 && convertedBuffer.Contents() == old(convertedBuffer.Contents())
      ensures converter.script == Rest(old(converter.script))
      ensures FirstError(old(converter.script)).Some? ==> res == FirstError(old(converter.script)).value
      ensures res.NoSpace? ==> converter.pending == old(converter.pending)
      ensures res.NoSpace? ==> Shortage(converter, convertedBuffer) < old(Shortage(converter, convertedBuffer))
      ensures res.Converted? ==> bytesRead > 0 || converter.pending < old(converter.pending)
      ensures res.Flushed? ==> flags.Flush? && bytesRead == |input|
    {
      convertedBuffer.EnsureTailspace();
      var written;
      ghost var before := convertedBuffer.Contents();
      res, bytesRead, written := ConvertInto(converter, input, convertedBuffer, flags);
      finished := res.Finished?;
      assert (sink.written + before) + written == sink.written + (before + written);
    }

    /**
     * The loop of write: convert until the bytes are used up, the converter is
     * finished, or it gives an error other than NO_SPACE, which `stop` then is.
     */
    method ConvertLoop(toConvert: seq<Byte>) returns (convertedBytes: nat, stop: Result)
      requires Wired() && OutputConserved()
      modifies this`finished, convertedBuffer, convertedBuffer.data, converter
      ensures Wired() && OutputConserved()
      ensures convertedBuffer.data == old(convertedBuffer.data) || fresh(convertedBuffer.data)
      ensures convertedBytes <= |toConvert| && converter.consumed == old(converter.consumed) + toConvert[..convertedBytes]
      ensures stop.Converted? || ((stop.PartialInput? || stop.HardError?) && converter.last == stop)
      ensures stop.Converted? ==> finished || convertedBytes == |toConvert|
      ensures AskedWith(old(converter.asked), converter.asked, NoFlags)
      ensures FirstError(old(converter.script)).Some? && !old(finished) && toConvert != [] ==>
        && stop == FirstError(old(converter.script)).value && convertedBytes == 0 && !finished
        && Unmoved(old(convertedBuffer.Contents()), Rest(old(converter.script)))
    {
      convertedBuffer.EnsureSpace(|toConvert|);
      convertedBytes := 0;
      while !finished && convertedBytes < |toConvert|
        invariant Wired() && OutputConserved()
        invariant convertedBuffer.data == old(convertedBuffer.data) || fresh(convertedBuffer.data)
        invariant convertedBytes <= |toConvert|
        invariant converter.consumed == old(converter.consumed) + toConvert[..convertedBytes]
        invariant AskedWith(old(converter.asked), converter.asked, NoFlags)
        invariant FirstError(old(converter.script)).Some? && !old(finished) ==>
          convertedBytes == 0 && !finished && Unmoved(old(convertedBuffer.Contents()), old(converter.script))
        decreases !finished, |toConvert| - convertedBytes, converter.pending, Shortage(converter, convertedBuffer)
      {
        var bytesRead;
        stop, bytesRead := ConvertOnce(toConvert[convertedBytes..], NoFlags);
        NextBytes(old(converter.consumed), toConvert, convertedBytes, bytesRead);
        convertedBytes := convertedBytes + bytesRead;
        if stop.PartialInput? || stop.HardError? {
          return;
        }
      }
      stop := Converted;
    }

    /** The converter's last answer was an error that a write cannot mend. */
    ghost predicate Stopped()
      reads this, converter
    {
      converter.last.PartialInput? || converter.last.HardError?
    }

    /** Every byte taken in: consumed or still waiting. */
    ghost function Taken(): seq<Byte>
      reads this, outputBuffer, convertedBuffer, outputBuffer.data, converter
      requires Wired()
    {
      converter.consumed + outputBuffer.Contents()
    }

    /**
     * The part of write that converts straight from the caller's bytes, as nothing is
     * waiting; `partial` says that the converter wants to see more of them first.
     */
    method ConvertDirect(buffer: seq<Byte>) returns (r: WriteResult, partial: bool)
      requires Wired() && OutputConserved() && !finished && outputBuffer.Contents() == []
      modifies this`finished, outputBuffer, outputBuffer.data, convertedBuffer, convertedBuffer.data, converter
      ensures Wired() && OutputConserved()
      ensures outputBuffer.data == old(outputBuffer.data) || fresh(outputBuffer.data)
      ensures convertedBuffer.data == old(convertedBuffer.data) || fresh(convertedBuffer.data)
      ensures !r.WriteFailed? && (r.Accepted? ==> r.count <= |buffer|)
      ensures Taken() == old(Taken()) + Kept(r, buffer, false)
      ensures r.ConvertFailed? ==> converter.last.HardError?
      ensures r.Accepted? && r.count < |buffer| ==> finished || (r.count > 0 && Stopped())
      ensures outputBuffer.Contents() != [] ==> Stopped()
      ensures partial ==> r.Accepted? && converter.consumed == old(converter.consumed)
      ensures FirstError(old(converter.script)).Some? && buffer != [] ==>
        && !finished && Unmoved(old(convertedBuffer.Contents()), Rest(old(converter.script)))
        && if FirstError(old(converter.script)).value.PartialInput?
           then r == Accepted(|buffer|) && partial && outputBuffer.Contents() == buffer else r == ConvertFailed
    {
      var convertedBytes, stop := ConvertLoop(buffer);
      partial := convertedBytes == 0 && stop.PartialInput?;
      if partial {
        Queue(buffer);
        r := Accepted(|buffer|);
      } else {
        r := if convertedBytes == 0 && stop.HardError? then ConvertFailed else Accepted(convertedBytes);
      }
    }

    method Queue(buffer: seq<Byte>)
      requires Wired() && OutputConserved()
      modifies outputBuffer, outputBuffer.data
      ensures Wired() && OutputConserved()
      ensures outputBuffer.data == old(outputBuffer.data) || fresh(outputBuffer.data)
      ensures Taken() == old(Taken()) + buffer && outputBuffer.Contents() == old(outputBuffer.Contents()) + buffer
    {
      outputBuffer.Append(buffer);
      assert (converter.consumed + old(outputBuffer.Contents())) + buffer
          == converter.consumed + (old(outputBuffer.Contents()) + buffer);
    }

    /** The part of write that queues the bytes up behind those waiting, and converts from the queue. */
    method ConvertQueued(buffer: seq<Byte>) returns (r: WriteResult, partial: bool)
      requires Wired() && OutputConserved() && !finished && outputBuffer.Contents() != []
      modifies this`finished, outputBuffer, outputBuffer.data, convertedBuffer, convertedBuffer.data, converter
      ensures Wired() && OutputConserved()
      ensures outputBuffer.data == old(outputBuffer.data) || fresh(outputBuffer.data)
      ensures convertedBuffer.data == old(convertedBuffer.data) || fresh(convertedBuffer.data)
      ensures r == Accepted(|buffer|) || (r == ConvertFailed && converter.last.HardError?)
      ensures Taken() == old(Taken()) + buffer
      ensures outputBuffer.Contents() != [] ==> finished || Stopped()
      ensures partial ==> r.Accepted? && converter.consumed == old(converter.consumed)
      ensures FirstError(old(converter.script)).Some? ==>
        && !finished && Unmoved(old(convertedBuffer.Contents()), Rest(old(converter.script)))
        && outputBuffer.Contents() == old(outputBuffer.Contents()) + buffer
        && if FirstError(old(converter.script)).value.PartialInput? then r == Accepted(|buffer|) && partial
           else r == ConvertFailed
    {
      Queue(buffer);
      var toConvert := outputBuffer.data[outputBuffer.start..outputBuffer.end];
      var convertedBytes, stop := ConvertLoop(toConvert);
      partial := convertedBytes == 0 && stop.PartialInput?;
      if partial {
        return Accepted(|buffer|), true;
      }
      if convertedBytes == 0 && stop.HardError? {
        return ConvertFailed, false;
      }
      outputBuffer.Consumed(convertedBytes);
      Regrouped(old(converter.consumed), toConvert, convertedBytes);
      r := Accepted(|buffer|);
    }

    /** The part of write that converts. */
    method ConvertSome(buffer: seq<Byte>) returns (r: WriteResult, partial: bool)
      requires Wired() && OutputConserved() && !finished
      modifies this`finished, outputBuffer, outputBuffer.data, convertedBuffer, convertedBuffer.data, converter
      ensures Wired() && OutputConserved()
      ensures outputBuffer.data == old(outputBuffer.data) || fresh(outputBuffer.data)
      ensures convertedBuffer.data == old(convertedBuffer.data) || fresh(convertedBuffer.data)
      ensures !r.WriteFailed? && (r.Accepted? ==> r.count <= |buffer|)
      ensures Taken() == old(Taken()) + Kept(r, buffer, old(outputBuffer.Contents()) != [])
      ensures r.ConvertFailed? ==> converter.last.HardError?
      ensures r.Accepted? && r.count < |buffer| ==> finished || (r.count > 0 && Stopped())
      ensures r.Accepted? && outputBuffer.Contents() != [] ==> finished || Stopped()
      ensures partial ==> r.Accepted? && converter.consumed == old(converter.consumed)
      ensures FirstError(old(converter.script)).Some? && buffer != [] ==>
        && !finished && Unmoved(old(convertedBuffer.Contents()), Rest(old(converter.script)))
        && if FirstError(old(converter.script)).value.PartialInput?
           then r == Accepted(|buffer|) && partial && outputBuffer.Contents() != [] else r == ConvertFailed
    {
      if outputBuffer.DataSize() > 0 {
        r, partial := ConvertQueued(buffer);
      } else {
        r, partial := ConvertDirect(buffer);
      }
    }

    ghost method Book(r: WriteResult, buffer: seq<Byte>, waiting: bool)
      requires Wired() && OutputConserved() && Booked()
      requires r.Accepted? ==> r.count <= |buffer|
      requires Taken() == ledger + Kept(r, buffer, waiting)
      modifies this`ledger, this`accepted, this`exact
      ensures Valid()
      ensures ledger == old(ledger) + Kept(r, buffer, waiting)
      ensures accepted == old(accepted) + if r.Accepted? then buffer[..r.count] else []
      ensures exact <==> old(exact) && (r.ConvertFailed? ==> !waiting || buffer == [])
    {
      ledger := ledger + Kept(r, buffer, waiting);
      accepted := accepted + if r.Accepted? then buffer[..r.count] else [];
      exact := exact && (r.ConvertFailed? ==> !waiting || buffer == []);
    }

    /** What a write does once the converted bytes are out and the converter is not finished. */
    method WriteOn(buffer: seq<Byte>) returns (r: WriteResult)
      requires Valid() && !finished && convertedBuffer.Contents() == []
      modifies this, outputBuffer, outputBuffer.data, convertedBuffer, convertedBuffer.data, converter, sink
      ensures Valid()
      ensures outputBuffer.data == old(outputBuffer.data) || fresh(outputBuffer.data)
      ensures convertedBuffer.data == old(convertedBuffer.data) || fresh(convertedBuffer.data)
      ensures !r.WriteFailed? && (r.Accepted? ==> r.count <= |buffer|)
      ensures ledger == old(ledger) + Kept(r, buffer, old(outputBuffer.Contents()) != [])
      ensures accepted == old(accepted) + if r.Accepted? then buffer[..r.count] else []
      ensures exact <==> old(exact) && (r.ConvertFailed? ==> old(outputBuffer.Contents()) == [] || buffer == [])
      ensures r.ConvertFailed? ==> converter.last.HardError?
      ensures r.Accepted? && r.count < |buffer| ==> finished || (r.count > 0 && Stopped())
      ensures r.Accepted? && outputBuffer.Contents() != [] ==> finished || Stopped()
      ensures r.Accepted? && converter.consumed != old(converter.consumed) ==> convertedBuffer.Contents() == [] || sink.failing
      ensures FirstError(old(converter.script)).Some? && buffer != [] ==>
        && !finished && Unmoved([], Rest(old(converter.script)))
        && if FirstError(old(converter.script)).value.PartialInput?
           then r == Accepted(|buffer|) && outputBuffer.Contents() != [] else r == ConvertFailed
    {
      ghost var waiting := outputBuffer.Contents() != [];
      var partial;
      r, partial := ConvertSome(buffer);
      Book(r, buffer, waiting);
      if r.Accepted? && !partial {
        var _ := FlushBuffer();
      }
    }

    /** write and write_nonblocking */
    method WriteInternal(buffer: seq<Byte>) returns (r: WriteResult)
      requires Valid()
      modifies this, outputBuffer, outputBuffer.data, convertedBuffer, convertedBuffer.data, converter, sink
      ensures Valid()
      ensures outputBuffer.data == old(outputBuffer.data) || fresh(outputBuffer.data)
      ensures convertedBuffer.data == old(convertedBuffer.data) || fresh(convertedBuffer.data)
      ensures r.Accepted? ==> r.count <= |buffer|
      ensures ledger == old(ledger) + Kept(r, buffer, old(outputBuffer.Contents()) != [])
      ensures accepted == old(accepted) + if r.Accepted? then buffer[..r.count] else []
      ensures exact <==> old(exact) && (r.ConvertFailed? ==> old(outputBuffer.Contents()) == [] || buffer == [])
      ensures r.WriteFailed? ==>
        sink.failing && converter.consumed == old(converter.consumed) && old(convertedBuffer.Contents()) != []
      ensures r.ConvertFailed? ==> converter.last.HardError?
      ensures r.Accepted? && r.count < |buffer| ==> finished || (r.count > 0 && Stopped())
      ensures r.Accepted? && outputBuffer.Contents() != [] ==> finished || Stopped()
      ensures r.Accepted? && converter.consumed != old(converter.consumed) ==> convertedBuffer.Contents() == [] || sink.failing
      ensures FirstError(old(converter.script)).Some? && buffer != [] && !old(finished) && !r.WriteFailed? ==>
        && !finished && Unmoved([], Rest(old(converter.script)))
        && if FirstError(old(converter.script)).value.PartialInput?
           then r == Accepted(|buffer|) && outputBuffer.Contents() != [] else r == ConvertFailed
    {
      var flushed := FlushBuffer();
      if !flushed {
        return WriteFailed;
      }
      if finished {
        return Accepted(0);
      }
      r := WriteOn(buffer);
    }

    /** One turn of the loop of flush. */
    method ConvertWaiting(flags: Flags) returns (res: Result)
      requires Wired() && OutputConserved() && !finished
      modifies this`finished, outputBuffer`start, outputBuffer`end, convertedBuffer, convertedBuffer.data, converter
      ensures Wired() && OutputConserved()
      ensures convertedBuffer.data == old(convertedBuffer.data) || fresh(convertedBuffer.data)
      ensures Taken() == old(Taken())
      ensures finished == res.Finished? && converter.last == res && converter.asked == old(converter.asked) + [flags]
      ensures outputBuffer.DataSize() <= old(outputBuffer.DataSize())
      ensures res.NoSpace? ==> converter.pending == old(converter.pending)
      ensures res.NoSpace? ==> Shortage(converter, convertedBuffer) < old(Shortage(converter, convertedBuffer))
      ensures res.Converted? ==> outputBuffer.DataSize() < old(outputBuffer.DataSize()) || converter.pending < old(converter.pending)
      ensures res.Flushed? ==> flags.Flush? && outputBuffer.Contents() == []
    {
      var input := outputBuffer.data[outputBuffer.start..outputBuffer.end];
      var bytesRead;
      res, bytesRead := ConvertOnce(input, flags);
      if Succeeded(res) {
        outputBuffer.Consumed(bytesRead);
        Regrouped(old(converter.consumed), input, bytesRead);
      }
    }

    /** The loop of flush. */
    method FlushLoop(isClosing: bool) returns (ok: bool)
      requires Wired() && OutputConserved()
      modifies this`finished, outputBuffer, convertedBuffer, convertedBuffer.data, converter
      ensures Wired() && OutputConserved() && outputBuffer.data == old(outputBuffer.data)
      ensures convertedBuffer.data == old(convertedBuffer.data) || fresh(convertedBuffer.data)
      ensures Taken() == old(Taken())
      ensures if ok then finished || (!isClosing && outputBuffer.Contents() == []) else !finished && Stopped()
      ensures AskedWith(old(converter.asked), converter.asked, if isClosing then InputAtEnd else Flags.Flush)
      ensures !old(finished) ==> |converter.asked| > |old(converter.asked)|
    {
      var flushed := false;
      while !finished && !flushed
        invariant Wired() && OutputConserved() && outputBuffer.data == old(outputBuffer.data)
        invariant convertedBuffer.data == old(convertedBuffer.data) || fresh(convertedBuffer.data)
        invariant Taken() == old(Taken())
        invariant flushed ==> !isClosing && outputBuffer.Contents() == []
        invariant AskedWith(old(converter.asked), converter.asked, if isClosing then InputAtEnd else Flags.Flush)
        invariant !old(finished) && (finished || flushed) ==> |converter.asked| > |old(converter.asked)|
        decreases !finished, !flushed, outputBuffer.DataSize(), converter.pending, Shortage(converter, convertedBuffer)
      {
        var res := ConvertWaiting(if isClosing then InputAtEnd else Flags.Flush);
        if Succeeded(res) {
          if !isClosing && res.Flushed? {
            assert outputBuffer.DataSize() == 0;
            flushed := true;
          }
        } else if !res.NoSpace? {
          return false;
        }
      }
      ok := true;
    }

    method Flush(isClosing: bool) returns (ok: bool)
      requires Valid()
      modifies this`finished, outputBuffer, convertedBuffer, convertedBuffer.data, converter, sink
      ensures Valid() && outputBuffer.data == old(outputBuffer.data)
      ensures convertedBuffer.data == old(convertedBuffer.data) || fresh(convertedBuffer.data)
      ensures ok ==> convertedBuffer.Contents() == [] && sink.written == converter.produced
      ensures ok ==> finished || (!isClosing && outputBuffer.Contents() == [])
      ensures ok && !finished && exact ==> converter.consumed == accepted
      ensures !ok ==> sink.failing || Stopped()
      ensures AskedWith(old(converter.asked), converter.asked, if isClosing then InputAtEnd else Flags.Flush)
      ensures ok && !old(finished) ==> |converter.asked| > |old(converter.asked)|
    {
      ok := FlushBuffer();
      if !ok {
        return;
      }
      convertedBuffer.EnsureSpace(1);
      ok := FlushLoop(isClosing);
      if ok {
        ok := FlushBuffer();
      }
    }
  }

  /** A stream whose converter wants more input before it takes any, and then fails. */
  method FirstWrite(first: Byte) returns (stream: GConverterOutputStream)
    ensures fresh(stream) && fresh(stream.outputBuffer) && fresh(stream.convertedBuffer)
    ensures fresh(stream.outputBuffer.data) && fresh(stream.convertedBuffer.data)
    ensures fresh(stream.converter) && fresh(stream.sink)
    ensures stream.Valid() && !stream.finished && stream.exact && stream.accepted == [first]
    ensures stream.converter.script == [] && stream.outputBuffer.Contents() != [] && stream.convertedBuffer.Contents() == []
  {
    var converter := new Converter([Reply(PartialInput, 0, [], 1, 0)]);
    var sink := new Sink([]);
    stream := new GConverterOutputStream(converter, sink);
    var r := stream.WriteInternal([first]);
    assert r == Accepted(1);
  }

  /** The second write reports that none of its bytes were accepted, and they are kept all the same. */
  method KeepsWhatItRefuses(first: Byte, second: Byte) returns (stream: GConverterOutputStream)
    ensures fresh(stream) && stream.Valid()
    ensures stream.accepted == [first] && stream.ledger == [first, second] && !stream.exact
  {
    stream := FirstWrite(first);
    var r := stream.WriteInternal([second]);
    assert r == ConvertFailed;
  }
}
