/** The wire format of KryoNet.java: each object is its length in four bytes, most significant
    first, and then its bytes; and that no two sequences of objects share a stream. */
module Framing {

  type Byte = b: int | 0 <= b < 256
  type Payload = seq<Byte>

  const MAX_INT: nat := 0x7fff_ffff

  /** `ByteBuffer.putInt` of a non-negative number. */
  function IntBytes(v: nat): (s: seq<Byte>)
    requires v <= MAX_INT
    ensures |s| == 4
  {
    [v / 0x100_0000, v / 0x1_0000 % 256, v / 256 % 256, v % 256]
  }

  /** `ByteBuffer.getInt`: two's complement on 32 bits. */
  function BytesInt(s: seq<Byte>): (v: int)
    requires |s| == 4
    ensures -0x8000_0000 <= v <= MAX_INT
  {
    var a: int, b: int, c: int, d: int := s[0], s[1], s[2], s[3];
    var u := a * 0x100_0000 + b * 0x1_0000 + c * 256 + d;
    if u > MAX_INT then u - 0x1_0000_0000 else u
  }

  /** Most significant byte first. */
  lemma BigEndian(v: nat)
    requires v <= MAX_INT
    ensures var s := IntBytes(v); v == ((s[0] as int * 256 + s[1] as int) * 256 + s[2] as int) * 256 + s[3] as int
  {
    assert v / 256 == v / 0x1_0000 * 256 + v / 256 % 256;
    assert v / 0x1_0000 == v / 0x100_0000 * 256 + v / 0x1_0000 % 256;
  }

  lemma IntRoundTrip(v: nat)
    requires v <= MAX_INT
    ensures BytesInt(IntBytes(v)) == v
  {
    assert v / 256 == v / 0x1_0000 * 256 + v / 256 % 256;
    assert v / 0x1_0000 == v / 0x100_0000 * 256 + v / 0x1_0000 % 256;
  }

  lemma BytesRoundTrip(s: seq<Byte>)
    requires |s| == 4 && BytesInt(s) >= 0
    ensures IntBytes(BytesInt(s)) == s
  {
    var a: int, b: int, c: int, d: int := s[0], s[1], s[2], s[3];
    var v := BytesInt(s);
    assert v == (a * 0x1_0000 + b * 256 + c) * 256 + d;
    assert v / 256 == (a * 256 + b) * 256 + c;
    assert v / 0x1_0000 == a * 256 + b;
    assert v / 0x100_0000 == a;
  }

  function Frame(p: Payload): (s: seq<Byte>)
    requires |p| <= MAX_INT
  {
    IntBytes(|p|) + p
  }

  ghost predicate Sendable(ps: seq<Payload>) {
    forall i :: 0 <= i < |ps| ==> |ps[i]| <= MAX_INT
  }

  /** The stream of a sequence of objects. */
  ghost function Frames(ps: seq<Payload>): (s: seq<Byte>)
    requires Sendable(ps)
  {
    if |ps| == 0 then [] else Frames(ps[..|ps| - 1]) + Frame(ps[|ps| - 1])
  }

  lemma SendableAppend(ps: seq<Payload>, p: Payload)
    requires Sendable(ps) && |p| <= MAX_INT
    ensures Sendable(ps + [p])
  {
  }

  lemma FramesAppend(ps: seq<Payload>, p: Payload)
    requires Sendable(ps) && |p| <= MAX_INT
    ensures Frames(ps + [p]) == Frames(ps) + Frame(p)
  {
    assert (ps + [p])[..|ps|] == ps;
  }

  lemma {:induction false} FramesConcat(ps: seq<Payload>, qs: seq<Payload>)
    requires Sendable(ps) && Sendable(qs)
    ensures Frames(ps + qs) == Frames(ps) + Frames(qs)
  {
    hide Frame;
    if |qs| == 0 {
      assert ps + qs == ps;
      assert Frames(ps) + [] == Frames(ps);
    } else {
      var front, last := qs[..|qs| - 1], qs[|qs| - 1];
      FramesConcat(ps, front);
      assert ps + qs == ps + front + [last];
      FramesAppend(ps + front, last);
      assert Frames(ps) + Frames(front) + Frame(last) == Frames(ps) + (Frames(front) + Frame(last));
    }
  }

  lemma FramesHead(ps: seq<Payload>)
    requires Sendable(ps) && |ps| > 0
    ensures Frames(ps) == IntBytes(|ps[0]|) + ps[0] + Frames(ps[1..])
  {
    assert ps == [ps[0]] + ps[1..];
    FramesConcat([ps[0]], ps[1..]);
    var one := [ps[0]];
    assert one[..0] == [] && Frames(one[..0]) == [];
    assert Frames(one) == [] + Frame(ps[0]) == Frame(ps[0]);
  }

  /** Two streams with a common beginning that holds a header agree on it. */
  lemma SameHeader(v: nat, w: nat, rest: seq<Byte>, rest': seq<Byte>)
    requires v <= MAX_INT && w <= MAX_INT && IntBytes(v) + rest == IntBytes(w) + rest'
    ensures v == w && rest == rest'
  {
    hide IntBytes;
    hide BytesInt;
    IntRoundTrip(v);
    IntRoundTrip(w);
    assert IntBytes(v) == (IntBytes(v) + rest)[..4] == (IntBytes(w) + rest')[..4] == IntBytes(w);
    assert rest == (IntBytes(v) + rest)[4..] == (IntBytes(w) + rest')[4..] == rest';
  }

  lemma FramesNone()
    ensures Frames([]) == []
  {
  }

  lemma SameStart(a: seq<Byte>, b: seq<Byte>, c: seq<Byte>, d: seq<Byte>)
    requires a + b == c + d && |a| == |c|
    ensures a == c && b == d
  {
    assert a == (a + b)[..|a|] == (c + d)[..|c|] == c;
    assert b == (a + b)[|a|..] == (c + d)[|c|..] == d;
  }

  /** The format is a prefix code: if a stream starts with the frames of `got`, then `got` is how
      the objects of the stream start, and the rest of it is the frames of the others. */
  lemma {:induction false} PrefixCode(sent: seq<Payload>, got: seq<Payload>, tail: seq<Byte>)
    requires Sendable(sent) && Sendable(got) && Frames(got) + tail == Frames(sent)
    ensures |got| <= |sent| && got == sent[..|got|] && tail == Frames(sent[|got|..])
  {
    hide Frames;
    hide IntBytes;
    if |got| == 0 {
      FramesNone();
      assert sent[0..] == sent;
    } else {
      FramesHead(got);
      if |sent| == 0 {
        FramesNone();
        assert false;
      }
      FramesHead(sent);
      var rest, rest' := got[0] + (Frames(got[1..]) + tail), sent[0] + Frames(sent[1..]);
      assert IntBytes(|got[0]|) + rest == Frames(got) + tail;
      assert IntBytes(|sent[0]|) + rest' == Frames(sent);
      SameHeader(|got[0]|, |sent[0]|, rest, rest');
      SameStart(got[0], Frames(got[1..]) + tail, sent[0], Frames(sent[1..]));
      PrefixCode(sent[1..], got[1..], tail);
      assert got == [got[0]] + got[1..] && sent == [sent[0]] + sent[1..];
      assert sent[1..][|got| - 1..] == sent[|got|..];
    }
  }

  /** What a reader has of the next frame: nothing of it, or its length (never zero). */
  function Head(length: int): seq<Byte>
    requires 0 <= length <= MAX_INT
  {
    if length == 0 then [] else IntBytes(length)
  }

  /** The reader lacks bytes: not a whole header, or not a whole object. */
  predicate Starved(length: int, unread: nat) {
    if length == 0 then unread < 4 else unread < length
  }

  /** The reader is in the first frame of the stream that is left. */
  lemma NextFrame(left: seq<Payload>, length: int, unread: seq<Byte>, inFlight: seq<Byte>)
    requires Sendable(left) && |left| > 0 && 0 <= length <= MAX_INT
    requires Head(length) + unread + inFlight == Frames(left)
    ensures length > 0 ==> length == |left[0]|
    ensures inFlight == [] ==> !Starved(length, |unread|)
  {
    hide Frames;
    hide IntBytes;
    FramesHead(left);
    if length > 0 {
      var rest, rest' := unread + inFlight, left[0] + Frames(left[1..]);
      assert IntBytes(length) + rest == IntBytes(length) + unread + inFlight;
      assert IntBytes(|left[0]|) + rest' == Frames(left);
      SameHeader(length, |left[0]|, rest, rest');
    }
  }

  /** Whatever the split of the stream: what a reader delivered is how the sent objects start. If
      it has the whole stream and lacks bytes, it delivered all of them. */
  lemma Delivered(sent: seq<Payload>, got: seq<Payload>, length: int, unread: seq<Byte>, inFlight: seq<Byte>)
    requires Sendable(sent) && Sendable(got) && 0 <= length <= MAX_INT
    requires Frames(got) + Head(length) + unread + inFlight == Frames(sent)
    ensures |got| <= |sent| && got == sent[..|got|]
    ensures length > 0 ==> |got| < |sent| && length == |sent[|got|]|
    ensures inFlight == [] && Starved(length, |unread|) ==> got == sent
  {
    hide Frames;
    hide IntBytes;
    FramesNone();
    var tail := Head(length) + unread + inFlight;
    assert Frames(got) + tail == Frames(got) + Head(length) + unread + inFlight;
    PrefixCode(sent, got, tail);
    if |got| < |sent| {
      NextFrame(sent[|got|..], length, unread, inFlight);
    }
  }

  /** A reader that reads the length v has read the next object's length. */
  lemma LengthRead(sent: seq<Payload>, got: seq<Payload>, header: seq<Byte>, rest: seq<Byte>)
    requires Sendable(sent) && Sendable(got) && |header| == 4
    requires Frames(got) + header + rest == Frames(sent)
    ensures |got| < |sent| && got == sent[..|got|] && BytesInt(header) == |sent[|got|]|
  {
    hide Frames;
    hide IntBytes;
    hide BytesInt;
    assert Frames(got) + (header + rest) == Frames(got) + header + rest;
    PrefixCode(sent, got, header + rest);
    var n := |got|;
    if n == |sent| {
      FramesNone();
      assert false;
    }
    FramesHead(sent[n..]);
    IntRoundTrip(|sent[n]|);
    SameStart(header, rest, IntBytes(|sent[n]|), sent[n] + Frames(sent[n..][1..]));
  }
}
