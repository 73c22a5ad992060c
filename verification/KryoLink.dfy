/** Two connections of KryoNet.java over one stream: whatever the order of sends, partial writes,
    arrivals and reads, the receiver reads exactly what the sender sent. */
module KryoLink {
  import opened Framing
  import opened KryoConnection

  /** A send; the sender's socket can take n more bytes; n bytes arrive; the receiver's socket is
      readable. */
  datatype Event = SendObject(payload: Payload) | Writable(n: nat) | Arrive(n: nat) | Readable

  /** How a run ends: all events done, a send that threw, or a length the reader threw on. */
  datatype End = Completed | Threw | Rejected(length: int)

  ghost predicate Linked(a: Connection, b: Connection)
    reads a, b
  {
    && a != b && a.Apart() && b.Apart() && a.socket != b.socket
    && a.writeBuffer != b.readBuffer && a.writeBuffer.data != b.readBuffer.data
  }

  /** The receiver's position in the sender's stream. */
  lemma Received(sent: seq<Payload>, out: seq<Byte>, pending: seq<Byte>, got: seq<Payload>, length: int,
                 unread: seq<Byte>,
                 rest: seq<Byte>)
    requires Sendable(sent) && Sendable(got) && 0 <= length <= MAX_INT
    requires out + pending == Frames(sent) && Frames(got) + Head(length) + unread + rest == out
    ensures got <= sent
    ensures pending == rest == [] && Starved(length, |unread|) ==> got == sent
  {
    hide Frames;
    assert Frames(got) + Head(length) + unread + (rest + pending) == out + pending;
    Delivered(sent, got, length, unread, rest + pending);
  }

  /** A length that the reader rejects is the length of the object it is about to read. */
  lemma RejectedLength(sent: seq<Payload>, out: seq<Byte>, pending: seq<Byte>, got: seq<Payload>, n: int,
                       unread: seq<Byte>,
                       rest: seq<Byte>, header: seq<Byte>)
    requires Sendable(sent) && Sendable(got) && |header| == 4 && BytesInt(header) == n
    requires out + pending == Frames(sent) && Frames(got) + header + unread + rest == out
    ensures |got| < |sent| && got <= sent && |sent[|got|]| == n
  {
    hide Frames;
    hide BytesInt;
    assert Frames(got) + header + (unread + rest + pending) == out + pending;
    LengthRead(sent, got, header, unread + rest + pending);
  }

  lemma MoreRead(received: seq<Byte>, incoming: seq<Byte>, received': seq<Byte>, incoming': seq<Byte>)
    requires received + incoming == received' + incoming'
    ensures |received'| > |received| ==> |incoming'| < |incoming|
  {
    assert |received + incoming| == |received' + incoming'|;
  }

  function Sends(schedule: seq<Event>): (ps: seq<Payload>) {
    if |schedule| == 0 then []
    else
      var e := schedule[|schedule| - 1];
      Sends(schedule[..|schedule| - 1]) + (if e.SendObject? then [e.payload] else [])
  }

  /** The sender's and the receiver's state in a run; `wire` is what the network holds. */
  ghost predicate InStep(a: Connection, b: Connection, wire: seq<Byte>)
    reads a, b, a.writeBuffer, a.writeBuffer.data, a.socket, b.readBuffer, b.readBuffer.data, b.socket
  {
    && Linked(a, b) && a.WriterOk() && b.ReaderOk() && !b.socket.closed
    && a.socket.out == b.socket.received + b.socket.incoming + wire
    && b.got <= a.sent
    && Starved(b.currentObjectLength, |b.readBuffer.Rest()|)
  }

  /** The receiver's socket is readable. */
  method Receive(a: Connection, b: Connection, ghost wire: seq<Byte>) returns (end: End)
    requires InStep(a, b, wire)
    modifies b`currentObjectLength, b`got, b.readBuffer, b.readBuffer.data, b.socket`incoming, b.socket`received
    ensures end == Completed ==> InStep(a, b, wire)
    ensures end != Completed ==>
      end.Rejected? && b.got <= a.sent && |b.got| < |a.sent| && |a.sent[|b.got|]| == end.length
    ensures end != Completed ==> end.length == 0 || end.length > b.readBuffer.data.Length
    ensures end == Completed && old(b.socket.incoming) != [] && b.readBuffer.data.Length >= 4 ==>
      |b.socket.incoming| < |old(b.socket.incoming)|
    ensures b.socket.received + b.socket.incoming == old(b.socket.received + b.socket.incoming)
  {
    hide Frames;
    hide Head;
    hide BytesInt;
    ghost var out := a.socket.out;
    ghost var received, incoming := b.socket.received, b.socket.incoming;
    var r := b.ReadAll();
    MoreRead(received, incoming, b.socket.received, b.socket.incoming);
    assert out == b.socket.received + (b.socket.incoming + wire);
    if r.Invalid? {
      ghost var header: seq<Byte> :| |header| == 4 && BytesInt(header) == r.length
        && b.socket.received == Frames(b.got) + header + b.readBuffer.Rest();
      RejectedLength(a.sent, out, a.Pending(), b.got, r.length, b.readBuffer.Rest(), b.socket.incoming + wire, header);
      return Rejected(r.length);
    }
    Received(a.sent, out, a.Pending(), b.got, b.currentObjectLength, b.readBuffer.Rest(), b.socket.incoming + wire);
    return Completed;
  }

  lemma StillInFrames(a: Connection, b: Connection, wire: seq<Byte>)
    requires InStep(a, b, wire)
    ensures a.InFrames()
  {
    hide Frames;
  }

  /** The receiver is never ahead, the sender knows of pending bytes, and when nothing is under
      way all was read. */
  lemma Quiet(a: Connection, b: Connection, wire: seq<Byte>)
    requires InStep(a, b, wire)
    ensures b.got <= a.sent && a.writeBuffer.Valid() && (a.Pending() != [] ==> a.wantsWrite)
    ensures a.Pending() == wire == b.socket.incoming == [] ==> b.got == a.sent
  {
    hide Frames;
    assert a.socket.out == b.socket.received + (b.socket.incoming + wire);
    Received(a.sent, a.socket.out, a.Pending(), b.got, b.currentObjectLength, b.readBuffer.Rest(),
             b.socket.incoming + wire);
  }

  /** Bytes are pending only if the sender's socket took all of `room` bytes before it refused them. */
  ghost predicate Eager(a: Connection, room: nat)
    reads a, a.writeBuffer, a.socket
  {
    && |a.socket.out| + a.socket.room >= room
    && (a.writeBuffer.position > 0 ==> |a.socket.out| >= room)
  }

  /** Two new connections. */
  method Open(writeSize: nat, readSize: nat, room: nat) returns (a: Connection, b: Connection)
    requires writeSize <= MAX_INT && readSize <= MAX_INT
    ensures fresh(a) && fresh(a.writeBuffer) && fresh(a.writeBuffer.data) && fresh(a.socket)
    ensures fresh(b) && fresh(b.readBuffer) && fresh(b.readBuffer.data) && fresh(b.socket)
    ensures InStep(a, b, []) && a.sent == [] && a.writeBuffer.data.Length == writeSize && Eager(a, room)
    ensures b.readBuffer.data.Length == readSize
  {
    hide Frames;
    hide IntBytes;
    a := new Connection(writeSize, readSize, room);
    b := new Connection(writeSize, readSize, room);
    FramesNone();
  }

  /** An object that did not fit: behind the bytes that belong to objects sent before and are still
      pending there is no room for its frame. What a failed send left behind comes after them. */
  ghost predicate DidNotFit(a: Connection, payload: Payload)
    reads a, a.writeBuffer, a.writeBuffer.data, a.socket
  {
    && a.writeBuffer.Valid() && Sendable(a.sent)
    && exists n: nat :: n <= a.writeBuffer.position && a.socket.out + a.writeBuffer.data[..n] == Frames(a.sent)
         && n + 4 + |payload| > a.writeBuffer.data.Length
  }

  /** One event of a run. */
  method Happen(a: Connection, b: Connection, wire: seq<Byte>, e: Event, ghost room: nat)
    returns (wire': seq<Byte>, end: End)
    requires InStep(a, b, wire) && Eager(a, room)
    modifies a`sent, a`wantsWrite, a.writeBuffer, a.writeBuffer.data, a.socket`out, a.socket`room
    modifies b`currentObjectLength, b`got, b.readBuffer, b.readBuffer.data, b.socket`incoming, b.socket`received
    ensures end == Completed ==> InStep(a, b, wire') && Eager(a, room)
    ensures b.got <= a.sent && a.writeBuffer.Valid() && Sendable(a.sent)
    ensures a.sent == old(a.sent) + (if e.SendObject? && end != Threw then [e.payload] else [])
    ensures end == Threw ==> e.SendObject? && DidNotFit(a, e.payload)
    ensures end.Rejected? ==> e.Readable? && |b.got| < |a.sent| && |a.sent[|b.got|]| == end.length
    ensures end.Rejected? ==> end.length == 0 || end.length > b.readBuffer.data.Length
  {
    hide Frames;
    hide Head;
    hide Starved;
    hide Sendable;
    wire', end := wire, Completed;
    match e
    case SendObject(payload) =>
      var before := |a.socket.out|;
      var thrown, written := a.Send(payload);
      wire' := wire + a.socket.out[before..];
      if thrown {
        end := Threw;
        var n := old(a.writeBuffer.position);
        assert a.writeBuffer.data[..n] == a.Pending()[..n];
        assert a.socket.out + a.writeBuffer.data[..n] == Frames(a.sent);
      }
    case Writable(n) =>
      var before := |a.socket.out|;
      a.socket.room := a.socket.room + n;
      a.WriteOperation();
      wire' := wire + a.socket.out[before..];
    case Arrive(n) =>
      var m := if n <= |wire| then n else |wire|;
      b.socket.incoming := b.socket.incoming + wire[..m];
      wire' := wire[m..];
    case Readable =>
      end := Receive(a, b, wire);
  }

  lemma EagerSends(a: Connection, room: nat)
    requires a.InFrames() && Eager(a, room) && |Frames(a.sent)| <= room
    ensures a.Pending() == []
  {
    hide Frames;
    assert |a.socket.out + a.Pending()| == |a.socket.out| + |a.Pending()|;
  }

  /** A whole run: after any schedule the receiver read how the sent objects start, and all of them
      once nothing is pending, on the wire or unread. Nothing is pending if the sender's socket was
      willing from the start to take all that was sent. A run ends early only at a send that does not
      fit the write buffer, or at an object that is empty or longer than the read buffer. */
  method Run(writeSize: nat, readSize: nat, room: nat, schedule: seq<Event>)
    returns (a: Connection, b: Connection, wire: seq<Byte>, end: End, done: nat)
    requires writeSize <= MAX_INT && readSize <= MAX_INT
    ensures done <= |schedule| && (end == Completed ==> done == |schedule|)
    ensures a.sent == Sends(schedule[..done])
    ensures b.got <= a.sent
    ensures a.writeBuffer.Valid() && Sendable(a.sent)
    ensures end == Completed && a.Pending() == wire == b.socket.incoming == [] ==> b.got == a.sent
    ensures end == Completed && a.Pending() != [] ==> a.wantsWrite
    ensures end == Completed ==> InStep(a, b, wire)
    ensures end == Completed && |Frames(a.sent)| <= room ==> a.Pending() == []
    ensures end == Completed && |Frames(a.sent)| <= room && wire == b.socket.incoming == [] ==> b.got == a.sent
    ensures a.writeBuffer.data.Length == writeSize
    ensures end == Threw ==> done < |schedule| && schedule[done].SendObject? && DidNotFit(a, schedule[done].payload)
    ensures end.Rejected? ==>
      |b.got| < |a.sent| && |a.sent[|b.got|]| == end.length && (end.length == 0 || end.length > readSize)
  {
    hide Frames;
    hide InStep;
    hide Eager;
    a, b := Open(writeSize, readSize, room);
    wire, end, done := [], Completed, 0;
    while done < |schedule|
      invariant done <= |schedule| && InStep(a, b, wire) && Eager(a, room) && end == Completed
      invariant a.sent == Sends(schedule[..done])
    {
      assert schedule[..done + 1][..done] == schedule[..done];
      wire, end := Happen(a, b, wire, schedule[done], room);
      if end != Completed {
        return;
      }
      done := done + 1;
    }
    Quiet(a, b, wire);
    StillInFrames(a, b, wire);
    if |Frames(a.sent)| <= room {
      EagerSends(a, room);
    }
  }

  /** After any run: once the sender's socket is willing to take all that is pending, all of it arrives
      and the receiver reads while there is something, every object sent was read, unless one is
      empty or longer than the read buffer. */
  method Settle(a: Connection, b: Connection, wire: seq<Byte>) returns (end: End)
    requires InStep(a, b, wire) && |a.Pending()| <= a.socket.room && b.readBuffer.data.Length >= 4
    modifies a`wantsWrite, a.writeBuffer, a.writeBuffer.data, a.socket`out, a.socket`room
    modifies b`currentObjectLength, b`got, b.readBuffer, b.readBuffer.data, b.socket`incoming, b.socket`received
    ensures a.sent == old(a.sent) && a.writeBuffer.Valid() && a.Pending() == []
    ensures end == Completed ==> b.got == a.sent
    ensures end != Completed ==> end.Rejected? && |b.got| < |a.sent| && |a.sent[|b.got|]| == end.length
    ensures end != Completed ==> end.length == 0 || end.length > b.readBuffer.data.Length
  {
    hide Frames;
    hide Head;
    hide Starved;
    var before := |a.socket.out|;
    a.WriteOperation();
    var arriving := wire + a.socket.out[before..];
    b.socket.incoming := b.socket.incoming + arriving;
    end := Completed;
    while b.socket.incoming != []
      invariant InStep(a, b, []) && a.sent == old(a.sent) && a.writeBuffer.position == 0 && end == Completed
      decreases |b.socket.incoming|
    {
      end := Receive(a, b, []);
      if end != Completed {
        return;
      }
    }
    Quiet(a, b, []);
  }
}
