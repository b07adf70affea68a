/** GConverterInputStream (gio/gconverterinputstream.c). */
module ConverterInputStream {
  import opened Wrappers
  import opened ConverterBuffers

  lemma Regrouped(a: seq<Byte>, b: seq<Byte>, c: seq<Byte>)
    ensures (a + b) + c == a + (b + c)
  {
  }

  class GConverterInputStream {
    var atInputEnd: bool
    var finished: bool
    const converter: Converter
    const inputBuffer: Buffer        // read from the base stream, to be converted
    const convertedBuffer: Buffer    // already converted, to be delivered
    const base: Source
    ghost var delivered: seq<Byte>

    ghost predicate Wired()
      reads this, inputBuffer, convertedBuffer, converter, base
    {
      && inputBuffer != convertedBuffer && inputBuffer.data != convertedBuffer.data
      && inputBuffer.Valid() && convertedBuffer.Valid()
      && converter.finished == finished
      && (atInputEnd ==> base.rest == [])
    }

    /** Every byte read from the base stream is consumed or waiting to be. */
    ghost predicate InputConserved()
      reads this, inputBuffer, convertedBuffer, inputBuffer.data, converter, base
      requires Wired()
    {
      base.taken == converter.consumed + inputBuffer.Contents()
    }

    /** Every byte the converter produced was delivered to a caller or is waiting to be. */
    ghost predicate OutputConserved()
      reads this, inputBuffer, convertedBuffer, convertedBuffer.data, converter, base
      requires Wired()
    {
      converter.produced == delivered + convertedBuffer.Contents()
    }

    ghost predicate Valid()
      reads this, inputBuffer, convertedBuffer, inputBuffer.data, convertedBuffer.data, converter, base
    {
      Wired() && InputConserved() && OutputConserved()
    }

    constructor (converter: Converter, base: Source)
      requires !converter.finished && converter.consumed == [] && converter.produced == [] && base.taken == []
      ensures Valid() && this.converter == converter && this.base == base
      ensures delivered == [] && !finished && !atInputEnd
      ensures fresh(inputBuffer) && fresh(convertedBuffer) && fresh(inputBuffer.data) && fresh(convertedBuffer.data)
    {
      this.converter, this.base := converter, base;
      inputBuffer := new Buffer();
      convertedBuffer := new Buffer();
      atInputEnd, finished := false, false;
      delivered := [];
    }

    /** Read from the base stream into all the room behind the bytes in use. */
    method FillInputBuffer(atLeast: nat) returns (nread: int)
      requires Wired() && InputConserved() && atLeast > inputBuffer.DataSize()
      modifies inputBuffer, inputBuffer.data, base
      ensures Wired() && InputConserved()
      ensures inputBuffer.data == old(inputBuffer.data) || fresh(inputBuffer.data)
      ensures nread >= -1 && base.failing == (nread == -1)
      ensures nread == 0 ==> base.rest == []
      ensures nread <= 0 ==> inputBuffer.DataSize() == old(inputBuffer.DataSize()) && base.rest == old(base.rest)
      ensures nread > 0 ==> |base.rest| + nread == |old(base.rest)|
      ensures nread > 0 ==> inputBuffer.DataSize() == old(inputBuffer.DataSize()) + nread
    {
      inputBuffer.EnsureSpace(atLeast);
      var bytes;
      nread, bytes := base.Read(inputBuffer.Tailspace());
      if nread > 0 {
        ghost var before := inputBuffer.Contents();
        inputBuffer.Fill(bytes);
        Regrouped(converter.consumed, before, bytes);
      }
    }

    function ConvertFlags(): Flags
      reads this
    {
      if atInputEnd then InputAtEnd else NoFlags
    }

    /** The first try: convert straight into the caller's buffer of `room` bytes. */
    method ConvertDirect(room: nat) returns (res: Result, written: seq<Byte>)
      requires Valid() && !finished && room > 0 && convertedBuffer.DataSize() == 0
      modifies this`finished, this`delivered, inputBuffer`start, inputBuffer`end, converter
      ensures Valid()
      ensures |written| <= room && delivered == old(delivered) + written
      ensures finished == res.Finished? && converter.last == res
      ensures converter.asked == old(converter.asked) + [if atInputEnd then InputAtEnd else NoFlags]
      ensures !Succeeded(res) ==> written == []
    {
      var input := inputBuffer.data[inputBuffer.start..inputBuffer.end];
      var bytesRead;
      res, bytesRead, written := converter.Convert(input, room, ConvertFlags());
      finished := res.Finished?;
      delivered := delivered + written;
      inputBuffer.Consumed(bytesRead);
      Regrouped(old(converter.consumed), input[..bytesRead], input[bytesRead..]);
      assert input == input[..bytesRead] + input[bytesRead..];
      assert convertedBuffer.Contents() == [];
    }

    /** One turn of the loop: convert into the stream's own buffer. */
    method ConvertOnce() returns (res: Result, ghost written: seq<Byte>)
      requires Wired() && InputConserved() && OutputConserved() && !finished && convertedBuffer.Tailspace() > 0
      modifies this`finished, inputBuffer`start, inputBuffer`end, convertedBuffer, convertedBuffer.data, converter
      ensures Wired() && InputConserved() && OutputConserved()
      ensures convertedBuffer.data == old(convertedBuffer.data) || fresh(convertedBuffer.data)
      ensures finished == res.Finished? && converter.last == res
      ensures converter.asked == old(converter.asked) + [if atInputEnd then InputAtEnd else NoFlags]
      ensures inputBuffer.DataSize() <= old(inputBuffer.DataSize())
      ensures convertedBuffer.Contents() == old(convertedBuffer.Contents()) + written
      ensures !Succeeded(res) ==> written == [] && inputBuffer.DataSize() == old(inputBuffer.DataSize())
      ensures res.NoSpace? ==> Shortage(converter, convertedBuffer) < old(Shortage(converter, convertedBuffer))
      ensures res.Converted? ==> inputBuffer.DataSize() < old(inputBuffer.DataSize()) || written != []
      ensures !res.Flushed?
      ensures written == [] ==> convertedBuffer.Tailspace() > 0
    {
      var input := inputBuffer.data[inputBuffer.start..inputBuffer.end];
      var bytesRead;
      ghost var before := convertedBuffer.Contents();
      res, bytesRead, written := ConvertInto(converter, input, convertedBuffer, ConvertFlags());
      finished := res.Finished?;
      Regrouped(delivered, before, written);
      inputBuffer.Consumed(bytesRead);
      Regrouped(old(converter.consumed), input[..bytesRead], input[bytesRead..]);
      assert input == input[..bytesRead] + input[bytesRead..];
    }

    /** What the loop does about PARTIAL_INPUT. */
    method NeedMoreInput() returns (ok: bool)
      requires Wired() && InputConserved() && !atInputEnd
      modifies this`atInputEnd, inputBuffer, inputBuffer.data, base
      ensures Wired() && InputConserved()
      ensures inputBuffer.data == old(inputBuffer.data) || fresh(inputBuffer.data)
      ensures Remaining() == old(Remaining())
      ensures !ok ==> base.failing
      ensures ok ==> |base.rest| < |old(base.rest)| || (|base.rest| == |old(base.rest)| && atInputEnd)
    {
      var nread := FillInputBuffer(inputBuffer.DataSize() + 4096);
      atInputEnd := nread == 0;
      ok := nread >= 0;
    }

    /** The bytes the converter has not seen yet. */
    function Remaining(): nat
      reads this, inputBuffer, base
      requires inputBuffer.Valid()
    {
      |base.rest| + inputBuffer.DataSize()
    }

    /** What a read can fail with: the base stream's error, or one of the converter that more input cannot mend. */
    ghost predicate Failed()
      reads this, converter, base
    {
      base.failing || converter.last.HardError? || (converter.last.PartialInput? && atInputEnd)
    }

    /** Whether the turn of the loop since a state with these measures got the loop closer to its end. */
    ghost predicate Closer(remaining: nat, unread: nat, ended: bool, shortage: nat)
      reads this, inputBuffer, convertedBuffer, converter, base
      requires inputBuffer.Valid() && convertedBuffer.Valid()
    {
      || Remaining() < remaining
      || (Remaining() == remaining
          && (|| |base.rest| < unread
              || (|base.rest| == unread
                  && ((atInputEnd && !ended) || (atInputEnd == ended && Shortage(converter, convertedBuffer) < shortage)))))
    }

    /** One turn of the loop: go `again`, or be done, or fail. */
    method Turn() returns (again: bool, ok: bool)
      requires Valid() && !finished && convertedBuffer.DataSize() == 0 && convertedBuffer.Tailspace() > 0
      modifies this`finished, this`atInputEnd, inputBuffer, inputBuffer.data, convertedBuffer, convertedBuffer.data, converter, base
      ensures Valid()
      ensures inputBuffer.data == old(inputBuffer.data) || fresh(inputBuffer.data)
      ensures convertedBuffer.data == old(convertedBuffer.data) || fresh(convertedBuffer.data)
      ensures again ==> !finished && convertedBuffer.DataSize() == 0 && convertedBuffer.Tailspace() > 0
      ensures again ==>
        Closer(old(Remaining()), |old(base.rest)|, old(atInputEnd), old(Shortage(converter, convertedBuffer)))
      ensures !again && ok ==> finished || convertedBuffer.DataSize() > 0
      ensures !again && !ok ==> !finished && convertedBuffer.DataSize() == 0 && Failed()
    {
      ghost var written;
      var res;
      res, written := ConvertOnce();
      assert convertedBuffer.Contents() == written;
      if Succeeded(res) {
        return convertedBuffer.DataSize() == 0 && !res.Finished?, true;
      }
      if res.PartialInput? && !atInputEnd {
        again := NeedMoreInput();
        return again, false;
      }
      return res.NoSpace?, false;
    }

    /**
     * Convert into the empty own buffer, reading more input and making more room
     * as asked, until there is something to deliver, the end or an error.
     */
    method ConvertLoop() returns (ok: bool)
      requires Valid() && !finished && convertedBuffer.DataSize() == 0 && convertedBuffer.Tailspace() > 0
      modifies this`finished, this`atInputEnd, inputBuffer, inputBuffer.data, convertedBuffer, convertedBuffer.data, converter, base
      ensures Valid()
      ensures inputBuffer.data == old(inputBuffer.data) || fresh(inputBuffer.data)
      ensures convertedBuffer.data == old(convertedBuffer.data) || fresh(convertedBuffer.data)
      ensures ok ==> finished || convertedBuffer.DataSize() > 0
      ensures !ok ==> !finished && convertedBuffer.DataSize() == 0 && Failed()
    {
      var again := true;
      ok := true;
      while again
        invariant Valid()
        invariant inputBuffer.data == old(inputBuffer.data) || fresh(inputBuffer.data)
        invariant convertedBuffer.data == old(convertedBuffer.data) || fresh(convertedBuffer.data)
        invariant again ==> !finished && convertedBuffer.DataSize() == 0 && convertedBuffer.Tailspace() > 0
        invariant !again && ok ==> finished || convertedBuffer.DataSize() > 0
        invariant !again && !ok ==> !finished && convertedBuffer.DataSize() == 0 && Failed()
        decreases again, Remaining(), |base.rest|, !atInputEnd, Shortage(converter, convertedBuffer)
      {
        again, ok := Turn();
      }
    }

    /** What is delivered is on the record. */
    method Deliver(count: nat) returns (bytes: seq<Byte>)
      requires Wired() && OutputConserved() && count <= convertedBuffer.DataSize()
      modifies this`delivered, convertedBuffer`start, convertedBuffer`end
      ensures Wired() && OutputConserved()
      ensures |bytes| == count && delivered == old(delivered) + bytes
      ensures convertedBuffer.DataSize() == old(convertedBuffer.DataSize()) - count
    {
      bytes := convertedBuffer.Take(count);
      Regrouped(delivered, bytes, convertedBuffer.Contents());
      delivered := delivered + bytes;
    }

    /** Wait for input, as there is nothing to deliver and nothing to convert; false on failure. */
    method ReadAhead(count: nat) returns (ok: bool)
      requires Valid() && count > 0
      modifies this`atInputEnd, inputBuffer, inputBuffer.data, base
      ensures Valid()
      ensures inputBuffer.data == old(inputBuffer.data) || fresh(inputBuffer.data)
      ensures !ok ==> old(inputBuffer.DataSize()) == 0 && !old(atInputEnd) && base.failing
      ensures ok ==> inputBuffer.DataSize() > 0 || atInputEnd
    {
      ok := true;
      if inputBuffer.DataSize() == 0 && !atInputEnd {
        var nread := FillInputBuffer(count);
        ok := nread >= 0;
        if nread == 0 {
          atInputEnd := true;
        }
      }
    }

    /** The end of read, when converting straight into the caller's buffer gave nothing. */
    method ReadThroughBuffer(count: nat) returns (nread: int, bytes: seq<Byte>)
      requires Valid() && count > 0 && !finished && convertedBuffer.DataSize() == 0
      modifies this, inputBuffer, inputBuffer.data, convertedBuffer, convertedBuffer.data, converter, base
      ensures Valid()
      ensures inputBuffer.data == old(inputBuffer.data) || fresh(inputBuffer.data)
      ensures convertedBuffer.data == old(convertedBuffer.data) || fresh(convertedBuffer.data)
      ensures -1 <= nread <= count && |bytes| == (if nread == -1 then 0 else nread)
      ensures delivered == old(delivered) + bytes
      ensures nread == 0 ==> finished && convertedBuffer.DataSize() == 0
      ensures nread == -1 ==> Failed()
    {
      convertedBuffer.EnsureSpace(count);
      var ok := ConvertLoop();
      if !ok {
        return -1, [];
      }
      bytes := Deliver(if count < convertedBuffer.DataSize() then count else convertedBuffer.DataSize());
      assert finished || |bytes| > 0;
      return |bytes|, bytes;
    }

    /** A read when nothing converted is waiting. */
    method ReadFresh(count: nat) returns (nread: int, bytes: seq<Byte>)
      requires Valid() && count > 0 && convertedBuffer.DataSize() == 0
      modifies this, inputBuffer, inputBuffer.data, convertedBuffer, convertedBuffer.data, converter, base
      ensures Valid()
      ensures inputBuffer.data == old(inputBuffer.data) || fresh(inputBuffer.data)
      ensures convertedBuffer.data == old(convertedBuffer.data) || fresh(convertedBuffer.data)
      ensures -1 <= nread <= count && |bytes| == (if nread == -1 then 0 else nread)
      ensures delivered == old(delivered) + bytes
      ensures nread == 0 ==> finished && convertedBuffer.DataSize() == 0
      ensures nread == -1 ==> Failed()
      ensures old(finished) ==> finished && converter.produced == old(converter.produced) && nread <= 0
      ensures old(finished) && nread == -1 ==> old(inputBuffer.DataSize()) == 0 && !old(atInputEnd)
    {
      var ok := ReadAhead(count);
      if !ok {
        return -1, [];
      }
      bytes := [];
      if !finished {
        var res;
        res, bytes := ConvertDirect(count);
        if !Succeeded(res) && !res.PartialInput? && !res.NoSpace? {
          return -1, [];
        }
      }
      nread := |bytes|;
      if nread == 0 && !finished {
        nread, bytes := ReadThroughBuffer(count);
      }
    }

    /**
     * read and read_nonblocking; -1 is an error, and then no byte was delivered.
     * 0 is the end of the stream: the converter is finished and all it produced
     * was delivered.  Once that is so, the answer stays 0, or -1 when the base
     * stream fails to be read ahead.
     */
    method ReadInternal(count: nat) returns (nread: int, bytes: seq<Byte>)
      requires Valid() && count >= 1
      modifies this, inputBuffer, inputBuffer.data, convertedBuffer, convertedBuffer.data, converter, base
      ensures Valid()
      ensures inputBuffer.data == old(inputBuffer.data) || fresh(inputBuffer.data)
      ensures convertedBuffer.data == old(convertedBuffer.data) || fresh(convertedBuffer.data)
      ensures -1 <= nread <= count && |bytes| == (if nread == -1 then 0 else nread)
      ensures delivered == old(delivered) + bytes
      ensures nread == 0 ==> finished && delivered == converter.produced
      ensures old(finished) ==> finished && converter.produced == old(converter.produced)
      ensures old(finished) && old(delivered == converter.produced) ==> nread <= 0
      ensures old(finished) && nread == -1 ==> old(inputBuffer.DataSize() == 0 && convertedBuffer.DataSize() == 0 && !atInputEnd)
      ensures nread == -1 ==> Failed()
      ensures old(convertedBuffer.DataSize()) > 0 ==>
        if count <= old(convertedBuffer.DataSize()) then nread == count else nread >= old(convertedBuffer.DataSize())
    {
      var available := convertedBuffer.DataSize();
      if available == 0 {
        nread, bytes := ReadFresh(count);
        return;
      }
      if count <= available {
        bytes := Deliver(count);
        return count, bytes;
      }
      bytes := Deliver(available);
      if !finished {
        var _, written := ConvertDirect(count - available);
        bytes := bytes + written;
      }
      nread := |bytes|;
    }
  }
}
