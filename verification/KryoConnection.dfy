/** The connection of KryoNet.java: byte buffers with a position and a limit, a socket that takes
    and gives any part of what is there, and the incremental reader and buffered writer on them. */
module KryoConnection {
  import opened Framing

  /** `java.nio.ByteBuffer`, as far as the connection uses it. */
  class ByteBuffer {
    const data: array<Byte>
    var position: nat
    var limit: nat

    ghost predicate Valid()
      reads this
    {
      position <= limit <= data.Length <= MAX_INT
    }

    ghost function Rest(): (s: seq<Byte>)
      requires Valid()
      reads this, data
    {
      data[position..limit]
    }

    function Remaining(): (n: int)
      reads this
    {
      limit - position
    }

    constructor (capacity: nat)
      requires capacity <= MAX_INT
      ensures Valid() && fresh(data) && position == 0 && limit == data.Length == capacity
    {
      data := new Byte[capacity];
      position, limit := 0, capacity;
    }

    method Flip()
      requires Valid()
      modifies this
      ensures Valid() && position == 0 && limit == old(position)
    {
      limit, position := position, 0;
    }

    /** What remains moves to the front, and filling goes on after it. */
    method Compact()
      requires Valid()
      modifies this, data
      ensures Valid() && limit == data.Length && position == old(limit - position)
      ensures data[..position] == old(Rest())
    {
      var n := limit - position;
      for i := 0 to n
        invariant position == old(position) && limit == old(limit)
        invariant forall q :: 0 <= q < i ==> data[q] == old(data[position + q])
        invariant forall q :: position + i <= q < limit ==> data[q] == old(data[q])
      {
        data[i] := data[position + i];
      }
      position, limit := n, data.Length;
    }

    method Put(s: seq<Byte>)
      requires Valid() && |s| <= limit - position
      modifies this`position, data
      ensures Valid() && position == old(position) + |s|
      ensures data[old(position)..position] == s && data[..old(position)] == old(data[..position])
      ensures data[position..] == old(data[..])[position..]
    {
      for i := 0 to |s|
        invariant position == old(position)
        invariant forall q :: 0 <= q < i ==> data[position + q] == s[q]
        invariant forall q :: (0 <= q < position || position + i <= q < data.Length) ==> data[q] == old(data[q])
      {
        data[position + i] := s[i];
      }
      position := position + |s|;
    }
  }

  /** A non-blocking socket over a reliable stream: `out` is what it accepted so far, `room` how many
      more bytes it is willing to take now, `incoming` what arrived and was not read, `received` what
      was read so far. */
  class Socket {
    var out: seq<Byte>
    var room: nat
    var incoming: seq<Byte>
    var closed: bool
    ghost var received: seq<Byte>

    constructor (room: nat)
      ensures out == incoming == received == [] && !closed && this.room == room
    {
      out, incoming, received, closed := [], [], [], false;
      this.room := room;
    }

    /** The socket takes any number of the bytes offered, but some if it can. */
    method Write(buffer: ByteBuffer) returns (n: nat)
      requires buffer.Valid()
      modifies this`out, this`room, buffer`position
      ensures n <= old(buffer.Remaining()) && buffer.position == old(buffer.position) + n && buffer.Valid()
      ensures out == old(out) + old(buffer.Rest())[..n] && buffer.Rest() == old(buffer.Rest())[n..]
      ensures n <= old(room) && room == old(room) - n
      ensures n == 0 ==> old(room) == 0 || old(buffer.Remaining()) == 0
    {
      var most := if buffer.Remaining() <= room then buffer.Remaining() else room;
      var k: int := *;
      n := if 1 <= k <= most then k else most;
      room := room - n;
      out := out + buffer.data[buffer.position..buffer.position + n];
      buffer.position := buffer.position + n;
    }

    /** The socket gives any number of the bytes there, but some if it can; -1 at the end. */
    method Read(buffer: ByteBuffer) returns (n: int)
      requires buffer.Valid()
      modifies this`incoming, this`received, buffer`position, buffer.data
      ensures buffer.Valid() && -1 <= n <= |old(incoming)|
      ensures n == -1 <==> closed && old(incoming) == []
      ensures n == -1 ==>
        incoming == old(incoming) && received == old(received) && buffer.position == old(buffer.position)
      ensures n == 0 ==> old(incoming) == [] || old(buffer.Remaining()) == 0
      ensures n >= 0 ==>
        && received == old(received) + old(incoming)[..n] && incoming == old(incoming)[n..]
        && buffer.position == old(buffer.position) + n
        && buffer.data[old(buffer.position)..buffer.position] == old(incoming)[..n]
      ensures buffer.data[..old(buffer.position)] == old(buffer.data[..buffer.position])
    {
      if closed && incoming == [] {
        return -1;
      }
      var room := if buffer.Remaining() <= |incoming| then buffer.Remaining() else |incoming|;
      var k: int := *;
      n := if 1 <= k <= room then k else room;
      buffer.Put(incoming[..n]);
      received := received + incoming[..n];
      incoming := incoming[n..];
    }
  }

  /** What reading leads to: an object, nothing yet, or one of the two exceptions. */
  datatype Outcome = Object(payload: Payload) | Null | Closed | Invalid(length: int)

  datatype Wait = Ready | Short | AtEnd

  class Connection {
    const writeBuffer: ByteBuffer
    const readBuffer: ByteBuffer
    const socket: Socket
    var currentObjectLength: int
    /** Whether the selector is asked to tell when the socket can take more. */
    var wantsWrite: bool
    /** All objects sent, and all objects read. */
    ghost var sent: seq<Payload>
    ghost var got: seq<Payload>

    ghost predicate Apart()
      reads this
    {
      writeBuffer != readBuffer && writeBuffer.data != readBuffer.data
    }

    /** Bytes that were framed and the socket did not accept yet. */
    ghost function Pending(): (s: seq<Byte>)
      requires writeBuffer.Valid()
      reads this, writeBuffer, writeBuffer.data
    {
      writeBuffer.data[..writeBuffer.position]
    }

    /** Accepted and pending bytes are the frames of what was sent. */
    ghost predicate InFrames()
      reads this, writeBuffer, writeBuffer.data, socket
    {
      && writeBuffer.Valid() && writeBuffer.limit == writeBuffer.data.Length && Sendable(sent)
      && socket.out + Pending() == Frames(sent)
    }

    /** Besides, the selector knows when there are pending bytes. */
    ghost predicate WriterOk()
      reads this, writeBuffer, writeBuffer.data, socket
    {
      InFrames() && (writeBuffer.position > 0 ==> wantsWrite)
    }

    /** Received bytes are the frames of what was read, then a header if its object is awaited,
        then the unread bytes. */
    ghost predicate ReaderOk()
      reads this, readBuffer, readBuffer.data, socket
    {
      && readBuffer.Valid() && Sendable(got) && 0 <= currentObjectLength <= readBuffer.data.Length
      && (currentObjectLength > 0 || |got| > 0 ==> readBuffer.data.Length >= 4)
      && socket.received == Frames(got) + Head(currentObjectLength) + readBuffer.Rest()
    }

    constructor (writeBufferSize: nat, objectBufferSize: nat, room: nat)
      requires writeBufferSize <= MAX_INT && objectBufferSize <= MAX_INT
      ensures Apart() && WriterOk() && ReaderOk() && sent == got == []
      ensures fresh(writeBuffer) && fresh(readBuffer) && fresh(socket) && fresh(writeBuffer.data)
      ensures fresh(readBuffer.data)
      ensures writeBuffer.data.Length == writeBufferSize && readBuffer.data.Length == objectBufferSize
      ensures socket.out == socket.incoming == socket.received == [] && !socket.closed && socket.room == room
    {
      var w := new ByteBuffer(writeBufferSize);
      var r := new ByteBuffer(objectBufferSize);
      r.Flip();
      var s := new Socket(room);
      writeBuffer, readBuffer, socket := w, r, s;
      currentObjectLength, wantsWrite, sent, got := 0, false, [], [];
      new;
      FramesNone();
    }

    /** The loop that writes while bytes remain and the socket takes some: what remains, the socket
        refused. */
    method Offer()
      requires writeBuffer.Valid()
      modifies writeBuffer`position, socket`out, socket`room
      ensures writeBuffer.Remaining() > 0 ==> socket.room == 0
      ensures |socket.out| + socket.room == old(|socket.out| + socket.room)
      ensures writeBuffer.Valid() && writeBuffer.position >= old(writeBuffer.position)
      ensures old(socket.out) <= socket.out && socket.out + writeBuffer.Rest() == old(socket.out + writeBuffer.Rest())
    {
      while writeBuffer.Remaining() > 0
        invariant writeBuffer.Valid() && writeBuffer.position >= old(writeBuffer.position)
        invariant old(socket.out) <= socket.out
        invariant |socket.out| + socket.room == old(|socket.out| + socket.room)
        invariant socket.out + writeBuffer.Rest() == old(socket.out + writeBuffer.Rest())
        decreases writeBuffer.Remaining()
      {
        ghost var out, rest := socket.out, writeBuffer.Rest();
        var n := socket.Write(writeBuffer);
        assert rest == rest[..n] + rest[n..];
        assert out + (rest[..n] + writeBuffer.Rest()) == out + rest[..n] + writeBuffer.Rest();
        if n == 0 {
          break;
        }
      }
    }

    /** Offers the pending bytes until the socket takes none or all are gone: bytes stay pending only
        if the socket refused them. */
    method WriteToSocket() returns (all: bool)
      requires Apart() && InFrames()
      modifies writeBuffer, writeBuffer.data, socket`out, socket`room
      ensures InFrames()
      ensures all <==> writeBuffer.position == 0
      ensures !all ==> socket.room == 0
      ensures |socket.out| + socket.room == old(|socket.out| + socket.room)
      ensures old(socket.out) <= socket.out
      ensures writeBuffer.position <= old(writeBuffer.position)
    {
      hide Frames;
      hide Sendable;
      writeBuffer.Flip();
      ghost var start := writeBuffer.Rest();
      assert start == old(Pending());
      Offer();
      assert old(socket.out) + start == socket.out + writeBuffer.Rest();
      writeBuffer.Compact();
      assert Pending() == writeBuffer.data[..writeBuffer.position];
      all := writeBuffer.position == 0;
    }

    /** The object goes after the room left for its length, and then the length into that room. */
    method WriteFrame(start: nat, payload: Payload)
      requires Apart() && writeBuffer.Valid() && writeBuffer.limit == writeBuffer.data.Length && Sendable(sent)
      requires writeBuffer.position == start + 4 && |payload| <= writeBuffer.Remaining()
      requires socket.out + writeBuffer.data[..start] == Frames(sent)
      modifies this`sent, writeBuffer`position, writeBuffer.data
      ensures InFrames() && sent == old(sent) + [payload] && writeBuffer.position == start + 4 + |payload|
    {
      hide Frames;
      hide IntBytes;
      hide Sendable;
      ghost var was := writeBuffer.data[..start];
      writeBuffer.Put(payload);
      var end := writeBuffer.position;
      assert writeBuffer.data[..start] == was;
      writeBuffer.position := start;
      writeBuffer.Put(IntBytes(end - 4 - start));
      writeBuffer.position := end;
      assert Pending() == was + Frame(payload);
      sent := sent + [payload];
      assert Sendable(sent) by { SendableAppend(old(sent), payload); }
      FramesAppend(old(sent), payload);
      assert socket.out + (was + Frame(payload)) == socket.out + was + Frame(payload);
    }

    /** Frames an object into the write buffer, and offers it if nothing was pending. `thrown` says
        that it did not fit; the bytes a failed serialisation left behind stay in the buffer. */
    method Send(payload: Payload) returns (thrown: bool, written: nat)
      requires Apart() && WriterOk()
      modifies this`sent, this`wantsWrite, writeBuffer, writeBuffer.data, socket`out, socket`room
      ensures old(socket.out) <= socket.out
      ensures |socket.out| + socket.room == old(|socket.out| + socket.room)
      ensures !thrown && old(writeBuffer.position) == 0 && writeBuffer.position > 0 ==> socket.room == 0
      ensures old(writeBuffer.position) > 0 ==> socket.out == old(socket.out)
      ensures !thrown ==> (wantsWrite <==> old(wantsWrite) || writeBuffer.position > 0)
      ensures thrown <==> old(writeBuffer.position) + 4 + |payload| > writeBuffer.data.Length
      ensures !thrown ==> WriterOk() && sent == old(sent) + [payload] && written == 4 + |payload|
      ensures thrown ==> sent == old(sent) && socket.out == old(socket.out) && writeBuffer.Valid()
      ensures thrown ==> wantsWrite == old(wantsWrite) && writeBuffer.limit == old(writeBuffer.limit)
      ensures thrown && old(writeBuffer.position) + 4 > writeBuffer.data.Length ==> Pending() == old(Pending())
      ensures thrown && old(writeBuffer.position) + 4 <= writeBuffer.data.Length ==>
        exists part :: 0 <= part <= |payload| && Pending() ==
          old(Pending()) + old(writeBuffer.data[writeBuffer.position..writeBuffer.position + 4]) + payload[..part]
    {
      hide Frames;
      hide IntBytes;
      var start := writeBuffer.position;
      if start + 4 > writeBuffer.limit {
        return true, 0;
      }
      writeBuffer.position := start + 4;
      if |payload| > writeBuffer.Remaining() {
        var part: int := *;
        part := if 0 <= part <= writeBuffer.Remaining() then part else 0;
        assert writeBuffer.data[..start + 4] == writeBuffer.data[..start] + writeBuffer.data[start..start + 4];
        writeBuffer.Put(payload[..part]);
        assert Pending() == old(Pending()) + old(writeBuffer.data[start..start + 4]) + payload[..part];
        return true, 0;
      }
      WriteFrame(start, payload);
      thrown, written := false, writeBuffer.position - start;
      if start == 0 {
        var all := WriteToSocket();
        if !all {
          wantsWrite := true;
        }
      }
    }

    /** The selector says that the socket can take more. */
    method WriteOperation()
      requires Apart() && WriterOk()
      modifies this`wantsWrite, writeBuffer, writeBuffer.data, socket`out, socket`room
      ensures WriterOk() && (wantsWrite <==> writeBuffer.position > 0)
      ensures writeBuffer.position > 0 ==> socket.room == 0
      ensures |socket.out| + socket.room == old(|socket.out| + socket.room)
      ensures old(socket.out) <= socket.out
    {
      var all := WriteToSocket();
      if all {
        wantsWrite := false;
      }
    }

    /** Compacts the read buffer, reads once, and flips it back; `chunk` is what came. */
    method Refill() returns (open: bool, ghost chunk: seq<Byte>)
      requires readBuffer.Valid()
      modifies readBuffer, readBuffer.data, socket`incoming, socket`received
      ensures readBuffer.Valid() && readBuffer.Rest() == old(readBuffer.Rest()) + chunk
      ensures socket.received == old(socket.received) + chunk && old(socket.incoming) == chunk + socket.incoming
      ensures open <==> !(socket.closed && old(socket.incoming) == [])
      ensures open && old(socket.incoming) != [] && old(readBuffer.Remaining()) < readBuffer.data.Length ==> chunk != []
    {
      readBuffer.Compact();
      ghost var kept := readBuffer.position;
      var n := socket.Read(readBuffer);
      assert readBuffer.data[..readBuffer.position]
          == readBuffer.data[..kept] + readBuffer.data[kept..readBuffer.position];
      readBuffer.Flip();
      assert readBuffer.Rest() == readBuffer.data[..readBuffer.limit];
      open := n != -1;
      chunk := if open then old(socket.incoming)[..n] else [];
    }

    /** Takes what the socket has, after the unread bytes. False at the end of the stream. */
    method Fill() returns (open: bool)
      requires Apart() && ReaderOk()
      modifies readBuffer, readBuffer.data, socket`incoming, socket`received
      ensures ReaderOk() && |readBuffer.Rest()| >= old(|readBuffer.Rest()|)
      ensures |socket.received| >= old(|socket.received|)
      ensures open <==> !(socket.closed && old(socket.incoming) == [])
      ensures socket.received + socket.incoming == old(socket.received + socket.incoming)
      ensures open && old(socket.incoming) != [] && old(readBuffer.Remaining()) < readBuffer.data.Length ==>
        |socket.received| > old(|socket.received|)
      ensures |socket.incoming| + |readBuffer.Rest()| == old(|socket.incoming| + |readBuffer.Rest()|)
    {
      hide Frames;
      hide Head;
      hide Sendable;
      ghost var chunk;
      open, chunk := Refill();
      assert Frames(got) + Head(currentObjectLength) + (old(readBuffer.Rest()) + chunk)
          == Frames(got) + Head(currentObjectLength) + old(readBuffer.Rest()) + chunk;
      assert old(socket.received) + (chunk + socket.incoming) == old(socket.received) + chunk + socket.incoming;
    }

    /** All bytes that the reader has still to deal with, its buffer's and the socket's. */
    ghost function Unread(): (n: nat)
      reads this, readBuffer, socket
    {
      |socket.incoming| + (if readBuffer.limit < readBuffer.position then 0 else readBuffer.limit - readBuffer.position)
      + (if currentObjectLength == 0 then 0 else 4)
    }

    /** Makes sure of n unread bytes, with at most one read from the socket. */
    method Await(n: nat) returns (there: Wait)
      requires Apart() && ReaderOk()
      modifies readBuffer, readBuffer.data, socket`incoming, socket`received
      ensures ReaderOk() && Unread() == old(Unread())
      ensures socket.received + socket.incoming == old(socket.received + socket.incoming)
      ensures there == Ready <==> |readBuffer.Rest()| >= n
      ensures |socket.received| >= old(|socket.received|)
      ensures there == AtEnd ==> socket.closed && socket.incoming == []
      ensures there == Short && old(socket.incoming) != [] && n <= readBuffer.data.Length ==>
        |socket.received| > old(|socket.received|)
    {
      hide Frames;
      hide IntBytes;
      if readBuffer.Remaining() < n {
        var open := Fill();
        if !open {
          return AtEnd;
        }
        if readBuffer.Remaining() < n {
          return Short;
        }
      }
      return Ready;
    }

    /** The object whose length was read is all there: its bytes are taken. */
    method TakeObject() returns (payload: Payload)
      requires Apart() && ReaderOk() && 0 < currentObjectLength <= readBuffer.Remaining()
      modifies this`currentObjectLength, this`got, readBuffer`position
      ensures ReaderOk() && currentObjectLength == 0 && got == old(got) + [payload]
      ensures |payload| == old(currentObjectLength)
      ensures Unread() < old(Unread())
    {
      hide Frames;
      hide IntBytes;
      var length := currentObjectLength;
      currentObjectLength := 0;
      ghost var rest := readBuffer.Rest();
      var start := readBuffer.position;
      payload := readBuffer.data[start..start + length];
      readBuffer.position := start + length;
      assert rest == payload + readBuffer.Rest();
      FramesAppend(got, payload);
      assert socket.received == Frames(got) + Frame(payload) + readBuffer.Rest();
      got := got + [payload];
    }

    /** A header with the length n arrived next, and no object of that length can be read. */
    ghost predicate BadLength(n: int)
      reads this, readBuffer, readBuffer.data, socket
    {
      && readBuffer.Valid() && Sendable(got) && (n <= 0 || n > readBuffer.data.Length)
      && exists header: seq<Byte> :: |header| == 4 && BytesInt(header) == n
           && socket.received == Frames(got) + header + readBuffer.Rest()
    }

    /** `readLength`: four bytes as a number. */
    method ReadLength() returns (length: int)
      requires Apart() && ReaderOk() && currentObjectLength == 0 && readBuffer.Remaining() >= 4
      modifies readBuffer`position
      ensures readBuffer.Valid() && readBuffer.position == old(readBuffer.position) + 4
      ensures length <= 0 || length > readBuffer.data.Length ==> BadLength(length)
      ensures 0 < length <= readBuffer.data.Length ==> socket.received == Frames(got) + Head(length) + readBuffer.Rest()
    {
      hide Frames;
      var start := readBuffer.position;
      var header := readBuffer.data[start..start + 4];
      length := BytesInt(header);
      assert readBuffer.Rest() == header + readBuffer.data[start + 4..readBuffer.limit];
      readBuffer.position := start + 4;
      assert socket.received == Frames(got) + header + readBuffer.Rest();
      if length >= 0 {
        BytesRoundTrip(header);
      }
    }

    /** One attempt to read an object: an object if one is all there, else nothing yet, or one of
        the exceptions, after which the connection is to be closed. */
    method ReadObject() returns (r: Outcome)
      requires Apart() && ReaderOk()
      modifies this`currentObjectLength, this`got, readBuffer, readBuffer.data, socket`incoming, socket`received
      ensures socket.received + socket.incoming == old(socket.received + socket.incoming)
      ensures |socket.received| >= old(|socket.received|)
      ensures !r.Invalid? ==> ReaderOk()
      ensures r.Object? ==>
        currentObjectLength == 0 && got == old(got) + [r.payload] && 0 < |r.payload| <= readBuffer.data.Length
      ensures r.Object? ==> Unread() < old(Unread())
      ensures !r.Object? ==> got == old(got)
      ensures r.Null? ==> Starved(currentObjectLength, |readBuffer.Rest()|)
      ensures r.Null? && old(socket.incoming) != [] && readBuffer.data.Length >= 4 ==>
        |socket.received| > old(|socket.received|)
      ensures r.Closed? ==> socket.closed && socket.incoming == []
      ensures r.Invalid? ==> BadLength(r.length)
    {
      hide Frames;
      hide Head;
      hide IntBytes;
      hide BytesInt;
      var there: Wait;
      if currentObjectLength == 0 {
        there := Await(4);
        if there != Ready {
          return if there.AtEnd? then Closed else Null;
        }
        currentObjectLength := ReadLength();
        if currentObjectLength <= 0 {
          return Invalid(currentObjectLength);
        }
        if currentObjectLength > readBuffer.data.Length {
          return Invalid(currentObjectLength);
        }
      }
      assert |socket.received + socket.incoming| == old(|socket.received + socket.incoming|);
      there := Await(currentObjectLength);
      if there != Ready {
        return if there.AtEnd? then Closed else Null;
      }
      var payload := TakeObject();
      return Object(payload);
    }

    /** The server's loop on a readable connection: objects are read until one is not all there. */
    method ReadAll() returns (r: Outcome)
      requires Apart() && ReaderOk()
      modifies this`currentObjectLength, this`got, readBuffer, readBuffer.data, socket`incoming, socket`received
      ensures !r.Object? && old(got) <= got
      ensures r.Null? && old(socket.incoming) != [] && readBuffer.data.Length >= 4 ==>
        |socket.received| > old(|socket.received|)
      ensures socket.received + socket.incoming == old(socket.received + socket.incoming)
      ensures !r.Invalid? ==> ReaderOk()
      ensures r.Null? ==> Starved(currentObjectLength, |readBuffer.Rest()|)
      ensures r.Closed? ==> socket.closed && socket.incoming == []
      ensures r.Invalid? ==> BadLength(r.length)
    {
      r := ReadObject();
      while r.Object?
        invariant readBuffer.Valid() && old(got) <= got
        invariant |socket.received| >= old(|socket.received|)
        invariant r.Null? && old(socket.incoming) != [] && readBuffer.data.Length >= 4 ==>
          |socket.received| > old(|socket.received|)
        invariant socket.received + socket.incoming == old(socket.received + socket.incoming)
        invariant !r.Invalid? ==> ReaderOk()
        invariant r.Null? ==> Starved(currentObjectLength, |readBuffer.Rest()|)
        invariant r.Closed? ==> socket.closed && socket.incoming == []
        invariant r.Invalid? ==> BadLength(r.length)
        decreases r.Object?, Unread()
      {
        assert |socket.received + socket.incoming| == old(|socket.received + socket.incoming|);
        r := ReadObject();
      }
    }
  }
}
