/**
 The wire format of UnixSocket.cpp: a message is a 4-byte big-endian length
 followed by that many bytes. `Parse` is an independent reading of a byte
 stream; the lemmas tie it to `Frames` in both directions.
*/
module Framing {
  import opened Basics
  import opened Seqs

  type Message = m: Bytes | |m| <= UINT32_MAX witness []

  /** The four bytes htonl leaves in memory. */
  function EncodeLength(n: int): (h: Bytes)
    requires 0 <= n <= UINT32_MAX
    ensures |h| == 4
  {
    [n / 0x100_0000, n / 0x1_0000 % 0x100, n / 0x100 % 0x100, n % 0x100]
  }

  /** ntohl of four received bytes. */
  function DecodeLength(h: Bytes): (n: int)
    requires |h| == 4
    ensures 0 <= n <= UINT32_MAX
  {
    h[0] as int * 0x100_0000 + h[1] as int * 0x1_0000 + h[2] as int * 0x100 + h[3]
  }

  /** The number that bytes denote, most significant first. */
  function BigEndian(h: Bytes): (n: nat) {
    if h == [] then 0 else 0x100 * BigEndian(h[..|h| - 1]) + h[|h| - 1]
  }

  /** The header is read in network byte order. */
  lemma DecodesBigEndian(h: Bytes)
    requires |h| == 4
    ensures DecodeLength(h) == BigEndian(h)
  {
    assert h[..3][..2] == h[..2] && h[..2][..1] == h[..1] && h[..1][..0] == [];
    assert BigEndian(h[..1]) == h[0];
    assert BigEndian(h[..2]) == 0x100 * h[0] as int + h[1];
    assert BigEndian(h[..3]) == 0x100 * BigEndian(h[..2]) + h[2];
  }

  lemma LengthRoundTrip(n: int)
    requires 0 <= n <= UINT32_MAX
    ensures DecodeLength(EncodeLength(n)) == n
  {
    ByteByByte(n);
  }

  lemma HeaderRoundTrip(h: Bytes)
    requires |h| == 4
    ensures EncodeLength(DecodeLength(h)) == h
  {
    var b, a := h[0] as int * 0x100 + h[1], (h[0] as int * 0x100 + h[1]) * 0x100 + h[2];
    var n := DecodeLength(h);
    OneByte(b, h[0], h[1]);
    OneByte(a, b, h[2]);
    OneByte(n, a, h[3]);
    ByteByByte(n);
  }

  lemma OneByte(n: nat, high: nat, low: byte)
    requires n == high * 0x100 + low
    ensures n / 0x100 == high && n % 0x100 == low
  {}

  /** Dividing by 256 again and again. */
  lemma ByteByByte(n: nat)
    ensures n / 0x1_0000 == n / 0x100 / 0x100 && n / 0x100_0000 == n / 0x100 / 0x100 / 0x100
    ensures n == ((n / 0x100 / 0x100 / 0x100 * 0x100 + n / 0x100 / 0x100 % 0x100) * 0x100 + n / 0x100 % 0x100) * 0x100
              + n % 0x100
  {
    var a, b := n / 0x100, n / 0x100 / 0x100;
    assert n == 0x100 * a + n % 0x100 && a == 0x100 * b + a % 0x100 && b == 0x100 * (b / 0x100) + b % 0x100;
  }

  function Frame(m: Message): (f: Bytes)
    ensures |f| == 4 + |m|
  {
    EncodeLength(|m|) + m
  }

  function Frames(ms: seq<Message>): Bytes {
    if ms == [] then [] else Frame(ms[0]) + Frames(ms[1..])
  }

  datatype Parsed = Parsed(messages: seq<Message>, rest: Bytes)

  /** True if a whole frame starts the stream. */
  predicate HasFrame(s: Bytes) {
    |s| >= 4 && |s| >= 4 + DecodeLength(s[..4])
  }

  /** The message of the first frame. */
  function FirstMessage(s: Bytes): Message
    requires HasFrame(s)
  {
    s[4..4 + DecodeLength(s[..4])]
  }

  /** What follows the first frame. */
  function AfterFirst(s: Bytes): (t: Bytes)
    requires HasFrame(s)
    ensures |t| < |s|
  {
    s[4 + DecodeLength(s[..4])..]
  }

  /**
   The bytes a receive call may consume: a whole frame within the limit, or no
   whole frame, and of an oversized one the header only.
  */
  predicate Consumable(piece: Bytes, limit: nat) {
    || (HasFrame(piece) && |piece| == 4 + DecodeLength(piece[..4]) && DecodeLength(piece[..4]) <= limit)
    || (!HasFrame(piece) && (|piece| >= 4 && DecodeLength(piece[..4]) > limit ==> |piece| == 4))
  }

  /** Reads frames off the front of a stream for as long as whole ones remain. */
  function Parse(s: Bytes): Parsed
    decreases |s|
  {
    if !HasFrame(s) then Parsed([], s)
    else
      var tail := Parse(AfterFirst(s));
      Parsed([FirstMessage(s)] + tail.messages, tail.rest)
  }

  lemma {:induction false} FramesAppend(a: seq<Message>, b: seq<Message>)
    ensures Frames(a + b) == Frames(a) + Frames(b)
  {
    if a == [] {
      assert a + b == b;
    } else {
      FramesAppend(a[1..], b);
      assert (a + b)[0] == a[0] && (a + b)[1..] == a[1..] + b;
      Assoc(Frame(a[0]), Frames(a[1..]), Frames(b));
    }
  }

  lemma FramesCons(m: Message, ms: seq<Message>)
    ensures Frames([m] + ms) == Frame(m) + Frames(ms)
  {
    assert ([m] + ms)[1..] == ms;
  }

  lemma FramesSnoc(a: seq<Message>, m: Message)
    ensures Frames(a + [m]) == Frames(a) + Frame(m)
  {
    FramesAppend(a, [m]);
    assert Frames([m]) == Frame(m) + Frames([]);
  }

  /** A stream that starts with a whole frame is that frame and what follows it. */
  lemma SplitFrame(s: Bytes)
    requires HasFrame(s)
    ensures s == Frame(FirstMessage(s)) + AfterFirst(s)
  {
    HeaderRoundTrip(s[..4]);
  }

  /** A stream that is built from a frame and more bytes splits back into them. */
  lemma JoinFrame(m: Message, t: Bytes)
    ensures HasFrame(Frame(m) + t)
    ensures FirstMessage(Frame(m) + t) == m && AfterFirst(Frame(m) + t) == t
  {
    var s := Frame(m) + t;
    assert s[..4] == EncodeLength(|m|);
    LengthRoundTrip(|m|);
  }

  /** Parsing loses nothing: the frames read and the rest make up the stream again. */
  lemma {:induction false} ParseSound(s: Bytes)
    ensures Frames(Parse(s).messages) + Parse(s).rest == s
    ensures !HasFrame(Parse(s).rest)
    decreases |s|
  {
    if HasFrame(s) {
      var m, tail := FirstMessage(s), Parse(AfterFirst(s));
      ParseSound(AfterFirst(s));
      SplitFrame(s);
      FramesCons(m, tail.messages);
      Assoc(Frame(m), Frames(tail.messages), tail.rest);
    }
  }

  /** Parsing inverts framing, whatever incomplete bytes follow. */
  lemma {:induction false} ParseFrames(ms: seq<Message>, rest: Bytes)
    requires !HasFrame(rest)
    ensures Parse(Frames(ms) + rest) == Parsed(ms, rest)
  {
    if ms == [] {
      assert Frames(ms) + rest == rest;
    } else {
      JoinFrame(ms[0], Frames(ms[1..]) + rest);
      Assoc(Frame(ms[0]), Frames(ms[1..]), rest);
      ParseFrames(ms[1..], rest);
    }
  }

  /** A strict prefix of one frame never contains a whole frame. */
  lemma PartialFrameIsIncomplete(m: Message, part: Bytes)
    requires part < Frame(m)
    ensures !HasFrame(part)
  {
    if |part| >= 4 {
      assert part[..4] == Frame(m)[..4] == EncodeLength(|m|);
      LengthRoundTrip(|m|);
    }
  }

  /** No frame is the beginning of another. */
  lemma PrefixFree(a: Message, b: Message)
    requires Frame(a) <= Frame(b)
    ensures a == b
  {
    JoinFrame(a, []);
    JoinFrame(b, []);
    assert Frame(a) + [] == Frame(a) && Frame(b) + [] == Frame(b);
    if Frame(a) != Frame(b) {
      PartialFrameIsIncomplete(b, Frame(a));
    }
  }

  /** Whatever prefix of a framed stream has been consumed, the whole messages in it are a prefix of those framed. */
  lemma {:induction false} ParsePrefix(ms: seq<Message>, p: Bytes)
    requires p <= Frames(ms)
    ensures Parse(p).messages <= ms
  {
    if ms != [] {
      var f := Frame(ms[0]);
      if |p| < |f| {
        assert p < f;
        PartialFrameIsIncomplete(ms[0], p);
      } else {
        var p' := p[|f|..];
        assert p == f + p' && p' <= Frames(ms[1..]);
        JoinFrame(ms[0], p');
        ParsePrefix(ms[1..], p');
      }
    }
  }

  /** The same message list is the only one with a given framing. */
  lemma FramesInjective(a: seq<Message>, b: seq<Message>)
    requires Frames(a) == Frames(b)
    ensures a == b
  {
    ParseFrames(a, []);
    ParseFrames(b, []);
    assert Frames(a) + [] == Frames(a) && Frames(b) + [] == Frames(b);
  }

  /** The stream sits between two frames. */
  ghost predicate AtBoundary(s: Bytes) {
    exists ms :: s == Frames(ms)
  }

  /** A stream of frames and an incomplete rest is at a boundary exactly when there is no rest. */
  lemma BoundaryIffEmptyRest(done: seq<Message>, rest: Bytes)
    requires !HasFrame(rest)
    ensures AtBoundary(Frames(done) + rest) <==> rest == []
  {
    ParseFrames(done, rest);
    if rest == [] {
      assert Frames(done) + rest == Frames(done);
    }
    forall ms | Frames(done) + rest == Frames(ms)
      ensures rest == []
    {
      ParseFrames(ms, []);
      assert Frames(ms) + [] == Frames(ms);
    }
  }

  /** A partly transferred frame leaves the stream at a boundary exactly when no byte of it was transferred. */
  lemma BoundaryIffNothingTransferred(done: seq<Message>, m: Message, part: Bytes)
    requires part < Frame(m)
    ensures AtBoundary(Frames(done) + part) <==> part == []
  {
    PartialFrameIsIncomplete(m, part);
    BoundaryIffEmptyRest(done, part);
  }
}
