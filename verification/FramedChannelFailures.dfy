/**
 What a failed call means for the stream, exactly: whether its side may go on
 afterwards. "Going on" is looked at with the failed call written off, that is,
 forgotten by the machine (WrittenOffGoesOn), and with every later call
 well-behaved.

 The failed message itself is never delivered. So going on counts as wrong only
 if what is returned is a prefix neither of what has been passed in nor of that
 with the failed message left out.
*/
module FramedChannelFailures {
  import opened Basics
  import opened Framing
  import opened FramedChannel
  import opened FramedChannelRuns
  import opened Seqs

  /** A list with its k-th message left out. */
  function Without(ms: seq<Message>, k: nat): seq<Message> {
    if k < |ms| then ms[..k] + ms[k + 1..] else ms
  }

  /** What has been returned is a prefix of what has been passed in, at least if its k-th message may be missing. */
  predicate Faithful(c: Channel, k: nat) {
    c.received <= c.offered || c.received <= Without(c.offered, k)
  }

  /** However the run goes on, as long as no side strays: what is returned is a prefix of what is passed in. */
  ghost predicate StaysExact(c: Channel) {
    forall more :: Executable(c, more) && !Execute(c, more).strayed ==>
        Execute(c, more).received <= Execute(c, more).offered
  }

  /** The same, but for the k-th message. */
  ghost predicate StaysFaithful(c: Channel, k: nat) {
    forall more :: Executable(c, more) && !Execute(c, more).strayed ==> Faithful(Execute(c, more), k)
  }

  /** The sender has failed part-way through a frame: nothing more is put on the wire without straying. */
  predicate Silent(c: Channel) {
    c.sender.Broken? && c.sender.out > 0
  }

  /** The sender's failed call, forgotten. */
  function SendWrittenOff(c: Channel): Channel {
    c.(sender := Idle)
  }

  /** The receiver's failed call, forgotten. */
  function ReceiveWrittenOff(c: Channel): Channel {
    c.(receiver := Resting)
  }

  /** Forgetting the failure only takes the mark of having strayed away from the next call. */
  lemma WrittenOffGoesOn(c: Channel, payload: Bytes, limit: nat)
    requires WellFormed(c) && !c.strayed
    ensures c.sender.Broken? && |payload| <= UINT32_MAX ==>
              Apply(SendWrittenOff(c), CallSend(payload)) == Apply(c, CallSend(payload)).(strayed := false)
    ensures c.receiver.Lost? ==>
              Apply(ReceiveWrittenOff(c), CallReceive(limit)) == Apply(c, CallReceive(limit)).(strayed := false)
  {}

  lemma AlignedStaysExact(c: Channel)
    requires Inv(c)
    ensures StaysExact(c)
  {
    forall more | Executable(c, more) && !Execute(c, more).strayed
      ensures Execute(c, more).received <= Execute(c, more).offered
    {
      RunKeepsInv(c, more);
      AlignedDelivers(Execute(c, more));
    }
  }

  lemma ExactIsFaithful(c: Channel, k: nat)
    requires StaysExact(c)
    ensures StaysFaithful(c, k)
  {}

  // ----- Building the runs that go wrong -----

  /** A message whose frame starts with a byte other than these two. */
  function Unlike(a: byte, b: byte): (m: Message)
    ensures Frame(m)[0] != a && Frame(m)[0] != b
  {
    var first := if a != 0 && b != 0 then 0 else if a != 1 && b != 1 then 1 else 2;
    var m: Message := seq(first * 0x100_0000, _ => 0);
    assert Frame(m)[0] == first;
    m
  }

  /** A message so long that some whole frame ends in or before its frame, wherever reading starts. */
  function Longest(): (m: Message)
    ensures |m| == UINT32_MAX
  {
    seq(UINT32_MAX, _ => 0)
  }

  /** The channel after these messages have been sent. */
  function SentAll(c: Channel, ms: seq<Message>): Channel {
    if ms == [] then c
    else c.(sender := Idle, accepted := c.accepted + Frames(ms), offered := c.offered + ms,
        completed := c.completed + ms)
  }

  lemma SendsOne(c: Channel, m: Message) returns (acts: seq<Action>)
    requires CanSend(c)
    ensures Leads(c, acts, SentAll(c, [m]))
  {
    acts := SendIsARun(c, m, 4 + |m|);
    assert Frame(m)[..4 + |m|] == Frame(m) && Frames([m]) == Frame(m) + Frames([]) == Frame(m);
  }

  lemma {:induction false} Sends(c: Channel, ms: seq<Message>) returns (acts: seq<Action>)
    requires CanSend(c)
    ensures Leads(c, acts, SentAll(c, ms))
    decreases |ms|
  {
    acts := [];
    if ms != [] {
      var m, rest, d := [ms[0]], ms[1..], SentAll(c, [ms[0]]);
      acts := SendsOne(c, ms[0]);
      var more := Sends(d, rest);
      ExecuteConcat(c, acts, more);
      acts := acts + more;
      assert m + rest == ms;
      FramesAppend(m, rest);
      Assoc(c.accepted, Frames(m), Frames(rest));
      Assoc(c.offered, m, rest);
      Assoc(c.completed, m, rest);
      assert SentAll(d, rest) == SentAll(c, ms) by {
        if rest == [] {
          assert Frames(m) + Frames(rest) == Frames(m);
        }
      }
    }
  }

  /** The channel after these messages have been received. */
  function ReceivedAll(c: Channel, ms: seq<Message>): Channel {
    if ms == [] then c else c.(receiver := Resting, consumed := c.consumed + |Frames(ms)|, received := c.received + ms)
  }

  lemma ReceivesOne(c: Channel, m: Message) returns (acts: seq<Action>)
    requires CanReceive(c) && Frame(m) <= c.accepted[c.consumed..]
    ensures Leads(c, acts, c.(receiver := Resting, consumed := c.consumed + 4 + |m|, received := c.received + [m]))
  {
    var n := 4 + |m|;
    assert Piece(c, n) == c.accepted[c.consumed..][..n] == Frame(m);
    JoinFrame(m, []);
    assert Frame(m) + [] == Frame(m);
    LengthRoundTrip(|m|);
    assert Frame(m)[..4] == EncodeLength(|m|);
    acts := ReceiveIsARun(c, UINT32_MAX, n);
  }

  lemma {:induction false} Receives(c: Channel, ms: seq<Message>) returns (acts: seq<Action>)
    requires CanReceive(c) && Frames(ms) <= c.accepted[c.consumed..]
    ensures Leads(c, acts, ReceivedAll(c, ms))
    decreases |ms|
  {
    acts := [];
    if ms != [] {
      var m, rest := ms[0], ms[1..];
      var d := c.(receiver := Resting, consumed := c.consumed + 4 + |m|, received := c.received + [m]);
      acts := ReceivesOne(c, m);
      assert c.accepted[c.consumed..][4 + |m|..] == d.accepted[d.consumed..];
      assert Frames(ms)[4 + |m|..] == Frames(rest);
      var more := Receives(d, rest);
      ExecuteConcat(c, acts, more);
      acts := acts + more;
      Assoc(c.received, [m], rest);
      assert [m] + rest == ms;
    }
  }

  lemma ShortRest(rest: Bytes)
    requires !HasFrame(rest)
    ensures |rest| < 4 + UINT32_MAX
  {}

  /** The stream as the receiver takes it: what it has returned, framed, what it holds, and what lies ahead of it. */
  function Seen(c: Channel): Bytes
    requires c.consumed <= |c.accepted|
  {
    Frames(c.received) + (Held(c.receiver) + c.accepted[c.consumed..])
  }

  lemma PrefixOfFrames(a: seq<Message>, b: seq<Message>)
    requires a <= b
    ensures Frames(a) <= Frames(b)
  {
    assert b == a + b[|a|..];
    FramesAppend(a, b[|a|..]);
  }

  /** At position j the stream goes on differently from the framing of these messages. */
  ghost predicate DiffersAt(seen: Bytes, ms: seq<Message>, j: nat) {
    j < |seen| && j < |Frames(ms)| && Frames(ms)[j] != seen[j]
  }

  lemma DifferenceShows(got: seq<Message>, ms: seq<Message>, seen: Bytes, j: nat)
    requires Frames(got) <= seen && j < |Frames(got)| && DiffersAt(seen, ms, j)
    ensures !(got <= ms)
  {
    if got <= ms {
      PrefixOfFrames(got, ms);
    }
  }

  /**
   Once the receiver's stream differs from the framing of what was passed in,
   with and without the k-th message, and goes on for long enough after that,
   the receiver gets to return something unfaithful.
  */
  lemma DifferenceIsReceived(c: Channel, k: nat, i: nat, j: nat) returns (acts: seq<Action>)
    requires CanReceive(c) && !c.strayed
    requires |Seen(c)| > i + 4 + UINT32_MAX && |Seen(c)| > j + 4 + UINT32_MAX
    requires DiffersAt(Seen(c), c.offered, i) && DiffersAt(Seen(c), Without(c.offered, k), j)
    ensures Executable(c, acts) && !Execute(c, acts).strayed && !Faithful(Execute(c, acts), k)
  {
    var ahead := c.accepted[c.consumed..];
    var xs, rest := Parse(ahead).messages, Parse(ahead).rest;
    assert Held(c.receiver) + ahead == ahead;
    ParseSound(ahead);
    ShortRest(rest);
    acts := Receives(c, xs);
    var got := c.received + xs;
    FramesAppend(c.received, xs);
    Assoc(Frames(c.received), Frames(xs), rest);
    assert Frames(got) + rest == Seen(c);
    assert ReceivedAll(c, xs).received == got && ReceivedAll(c, xs).offered == c.offered;
    DifferenceShows(got, c.offered, Seen(c), i);
    DifferenceShows(got, Without(c.offered, k), Seen(c), j);
  }

  // ----- Receivers that are inside a frame -----

  /** The bytes on the wire from the beginning of the frame that the receiver is in. */
  function InFrame(c: Channel): Bytes
    requires c.consumed <= |c.accepted|
  {
    Held(c.receiver) + c.accepted[c.consumed..]
  }

  /** The least size that a header beginning like this can announce. */
  function LeastAnnounced(h: Bytes): nat {
    DecodeLength((h + [0, 0, 0, 0])[..4])
  }

  lemma LeastIsLeast(h: Bytes, s: Bytes)
    requires h <= s && |s| >= 4
    ensures DecodeLength(s[..4]) >= LeastAnnounced(h)
  {}

  /**
   The receiver will not return anything any more without straying: it has given
   up inside a frame, or is inside one that its limit will refuse, whatever is
   sent next.
  */
  predicate Doomed(c: Channel)
    requires c.consumed <= |c.accepted|
  {
    match c.receiver
    case Resting => false
    case Lost(got) => got != []
    case Reading(limit, got) => got != [] && LeastAnnounced(InFrame(c)) > limit
  }

  /** The receiver can come to rest between two frames of what it sees. */
  predicate Free(c: Channel) {
    && WellFormed(c)
    && match c.receiver
       case Resting => true
       case Lost(got) => got == []
       case Reading(limit, got) => got == [] || (HasFrame(InFrame(c)) && |FirstMessage(InFrame(c))| <= limit)
  }

  lemma PieceOfFrame(b: Channel, m: Message, n: nat)
    requires b.consumed <= |b.accepted| && Frame(m) <= b.accepted[b.consumed..] && n <= 4 + |m|
    ensures b.consumed + n <= |b.accepted| && Piece(b, n) == Frame(m)[..n]
    ensures n < 4 + |m| ==> !HasFrame(Piece(b, n))
    ensures n == 4 + |m| ==> HasFrame(Piece(b, n)) && Piece(b, n) == Frame(m) && FirstMessage(Frame(m)) == m
    ensures n >= 4 ==> DecodeLength(Piece(b, n)[..4]) == |m|
  {
    assert Piece(b, n) == b.accepted[b.consumed..][..n] == Frame(m)[..n];
    if n < 4 + |m| {
      PartialFrameIsIncomplete(m, Frame(m)[..n]);
    } else {
      JoinFrame(m, []);
      assert Frame(m) + [] == Frame(m) == Frame(m)[..n];
    }
    if n >= 4 {
      assert Frame(m)[..n][..4] == EncodeLength(|m|);
      LengthRoundTrip(|m|);
    }
  }

  lemma SomeLeft(b: Channel, m: Message, n: nat, k: nat)
    requires b.consumed <= |b.accepted| && Frame(m) <= b.accepted[b.consumed..] && 0 < k
    requires b.consumed + n + k <= |b.accepted| && n + k == if n < 4 then 4 else 4 + |m|
    ensures !HasFrame(Piece(b, n)) && k <= RecvLeft(Piece(b, n))
  {
    PieceOfFrame(b, m, n);
  }

  /** A call that has read n bytes of a frame that is there and within its limit reads on to the next stop. */
  lemma ReadsUpTo(b: Channel, limit: nat, m: Message, n: nat, k: nat)
    requires CanReceive(b) && Frame(m) <= b.accepted[b.consumed..] && 0 < k
    requires b.consumed + n + k <= |b.accepted| && n + k == if n < 4 then 4 else 4 + |m|
    requires Consumable(Piece(b, n + k), limit)
    ensures Leads(Receiving(b, limit, n), [RecvSome(k)], AfterReading(b, limit, n + k))
  {
    SomeLeft(b, m, n, k);
    ReadsPiece(b, limit, n, k);
    OneStep(Receiving(b, limit, n), RecvSome(k));
  }

  lemma ReadsWholeOrHeader(b: Channel, limit: nat, m: Message, n': nat)
    requires CanReceive(b) && Frame(m) <= b.accepted[b.consumed..] && |m| <= limit
    requires 4 <= n' <= 4 + |m| && b.consumed + n' <= |b.accepted|
    ensures Consumable(Piece(b, n'), limit)
    ensures AfterReading(b, limit, n') == if n' == 4 + |m| then Received(b, Frame(m)) else Receiving(b, limit, n')
  {
    PieceOfFrame(b, m, n');
  }

  /** The call in progress returns its message, if that is there and within the limit. */
  lemma FinishesReceiving(b: Channel, limit: nat, m: Message, n: nat) returns (acts: seq<Action>)
    requires CanReceive(b) && Frame(m) <= b.accepted[b.consumed..] && |m| <= limit && n < 4 + |m|
    requires b.consumed + n <= |b.accepted|
    ensures Leads(Receiving(b, limit, n), acts, Received(b, Frame(m)))
    decreases if n < 4 then 1 else 0
  {
    var k := if n < 4 then 4 - n else 4 + |m| - n;
    ReadsWholeOrHeader(b, limit, m, n + k);
    ReadsUpTo(b, limit, m, n, k);
    acts := [RecvSome(k)];
    if n + k < 4 + |m| {
      var more := FinishesReceiving(b, limit, m, n + k);
      ExecuteConcat(Receiving(b, limit, n), acts, more);
      acts := acts + more;
    }
  }

  /** A receiver in step with the stream sees the stream. */
  ghost predicate InStep(c: Channel) {
    c.consumed <= |c.accepted| && c.accepted[..c.consumed] == Frames(c.received) + Held(c.receiver)
  }

  lemma InStepSees(c: Channel)
    requires InStep(c)
    ensures Seen(c) == c.accepted && InFrame(c) == c.accepted[|Frames(c.received)|..]
  {
    assert c.accepted == c.accepted[..c.consumed] + c.accepted[c.consumed..];
    Assoc(Frames(c.received), Held(c.receiver), c.accepted[c.consumed..]);
  }

  /** A free receiver comes to rest between two frames. */
  lemma ComesToRest(c: Channel) returns (acts: seq<Action>, d: Channel)
    requires Free(c) && InStep(c)
    ensures Leads(c, acts, d) && CanReceive(d) && Seen(d) == c.accepted
    ensures d == c.(receiver := d.receiver, consumed := d.consumed, received := d.received)
  {
    acts, d := [], c;
    InStepSees(c);
    if c.receiver.Reading? && c.receiver.got == [] {
      d := c.(receiver := Lost([]));
      OneStep(c, RecvFail);
      acts := [RecvFail];
    } else if c.receiver.Reading? {
      acts, d := ReturnsItsMessage(c);
    }
  }

  /** It may have to finish its call for that. */
  lemma ReturnsItsMessage(c: Channel) returns (acts: seq<Action>, d: Channel)
    requires Free(c) && InStep(c) && c.receiver.Reading? && c.receiver.got != []
    ensures Leads(c, acts, d) && CanReceive(d) && Seen(d) == c.accepted
    ensures d == c.(receiver := d.receiver, consumed := d.consumed, received := d.received)
  {
    var b := c.(receiver := Resting, consumed := |Frames(c.received)|);
    var m, n := FirstMessage(InFrame(c)), |c.receiver.got|;
    InsideFrame(c, b, m, n);
    acts := FinishesReceiving(b, c.receiver.limit, m, n);
    d := Received(b, Frame(m));
    ReceivedIsInStep(b, m);
    InStepSees(d);
  }

  /** The call in progress has read n bytes of the frame of m from where the last one ended. */
  lemma InsideFrame(c: Channel, b: Channel, m: Message, n: nat)
    requires InStep(c) && c.receiver.Reading? && !HasFrame(c.receiver.got) && HasFrame(InFrame(c))
    requires b == c.(receiver := Resting, consumed := |Frames(c.received)|)
    requires m == FirstMessage(InFrame(c)) && n == |c.receiver.got|
    ensures b.consumed + n == c.consumed && b.accepted[..b.consumed] == Frames(b.received)
    ensures Frame(m) <= b.accepted[b.consumed..] && n < 4 + |m| && c == Receiving(b, c.receiver.limit, n)
  {
    InStepSees(c);
    SplitFrame(InFrame(c));
    assert c.accepted[..c.consumed][..b.consumed] == c.accepted[..b.consumed];
    assert Piece(b, n) == c.accepted[..c.consumed][|Frames(c.received)|..] == c.receiver.got;
    GotIsPart(c.receiver.got, m, InFrame(c));
  }

  lemma ReceivedIsInStep(b: Channel, m: Message)
    requires b.consumed == |Frames(b.received)| <= |b.accepted| && b.accepted[..b.consumed] == Frames(b.received)
    requires Frame(m) <= b.accepted[b.consumed..]
    ensures var d := Received(b, Frame(m));
            d == b.(receiver := Resting, consumed := d.consumed, received := d.received) && InStep(d)
  {
    PieceOfFrame(b, m, 4 + |m|);
    FramesSnoc(b.received, m);
    assert b.accepted[..b.consumed + 4 + |m|] == Frames(b.received) + Frame(m);
  }

  lemma GotIsPart(got: Bytes, m: Message, w: Bytes)
    requires got <= w && !HasFrame(got) && Frame(m) <= w
    ensures |got| < 4 + |m|
  {
    if |got| >= 4 + |m| {
      assert got[..4] == Frame(m)[..4] == EncodeLength(|m|);
      LengthRoundTrip(|m|);
    }
  }

  // ----- The sender -----

  /** What the sender sends after it has failed in the frame of m: nothing, then something that shows, then a lot. */
  function Aftermath(m: Message, out: nat): seq<Message>
    requires 0 < out < 4 + |m|
  {
    [[], Unlike((Frame(m) + Frame([]))[out + 4], (Frame(m)[..out] + Frame([]))[4]), Longest()]
  }

  lemma ThreeFrames(x: Message, y: Message, z: Message)
    ensures Frames([x, y, z]) == Frame(x) + (Frame(y) + Frame(z))
  {
    FramesCons(x, [y, z]);
    FramesCons(y, [z]);
    FramesCons(z, []);
    assert [x] + [y, z] == [x, y, z] && [y] + [z] == [y, z] && [z] + [] == [z];
    assert Frame(z) + Frames([]) == Frame(z);
  }

  /** In bytes: `t` begins at one place of the stream, and elsewhere if the begun frame were whole, or missing. */
  lemma Shifted(base: Bytes, f: Bytes, out: nat, s: Bytes, t: Bytes, wire: Bytes, whole: Bytes, none: Bytes)
    requires 0 < out < |f| && |s| == 4 && |t| > 4 + UINT32_MAX && t[0] != (f + s)[out + 4] && t[0] != (f[..out] + s)[4]
    requires wire == base + f[..out] + (s + t) && whole == base + f + (s + t) && none == base + (s + t)
    ensures var i, j := |base| + out + 4, |base| + 4;
            && i < |whole| && j < |none| && |wire| > i + 4 + UINT32_MAX && |wire| > j + 4 + UINT32_MAX
            && whole[i] != wire[i] && none[j] != wire[j]
  {
    assert wire[|base| + out + 4] == t[0] && whole[|base| + out + 4] == (f + s)[out + 4];
    assert none[|base| + 4] == t[0] && wire[|base| + 4] == (f[..out] + s)[4];
  }

  /** The framings in question, in bytes. */
  lemma FramingsOf(sent: seq<Message>, m: Message, after: seq<Message>)
    ensures Frames(sent + [m] + after) == Frames(sent) + Frame(m) + Frames(after)
    ensures Frames(sent + after) == Frames(sent) + Frames(after)
  {
    FramesAppend(sent + [m], after);
    FramesAppend(sent, after);
    FramesSnoc(sent, m);
  }

  /** The stream then differs from every framing it could be taken for. */
  lemma AftermathShows(sent: seq<Message>, m: Message, out: nat, after: seq<Message>, s: Bytes, t: Bytes, wire: Bytes,
                       i: nat, j: nat)
    requires 0 < out < 4 + |m| && |s| == 4 && |t| > 4 + UINT32_MAX && Frames(after) == s + t
    requires t[0] != (Frame(m) + s)[out + 4] && t[0] != (Frame(m)[..out] + s)[4]
    requires i == |Frames(sent)| + out + 4 && j == |Frames(sent)| + 4
    requires wire == Frames(sent) + Frame(m)[..out] + Frames(after)
    ensures DiffersAt(wire, sent + [m] + after, i) && DiffersAt(wire, sent + after, j)
    ensures |wire| > i + 4 + UINT32_MAX && |wire| > j + 4 + UINT32_MAX
  {
    FramingsOf(sent, m, after);
    Shifted(Frames(sent), Frame(m), out, s, t, wire, Frames(sent + [m] + after), Frames(sent + after));
  }

  lemma AftermathBytes(m: Message, out: nat) returns (s: Bytes, t: Bytes)
    requires 0 < out < 4 + |m|
    ensures s == [0, 0, 0, 0] && |t| > 4 + UINT32_MAX && Frames(Aftermath(m, out)) == s + t
    ensures t[0] != (Frame(m) + s)[out + 4] && t[0] != (Frame(m)[..out] + s)[4]
  {
    var after := Aftermath(m, out);
    ThreeFrames(after[0], after[1], after[2]);
    s, t := Frame([]), Frame(after[1]) + Frame(after[2]);
    assert t[0] == Frame(after[1])[0];
  }

  lemma SenderBreaksOff(c: Channel) returns (more: seq<Action>)
    requires Inv(c) && !c.strayed && Silent(c) && !Doomed(c)
    ensures var d := SendWrittenOff(c);
            Executable(d, more) && !Execute(d, more).strayed && !Faithful(Execute(d, more), |c.completed|)
  {
    var d, m, out := SendWrittenOff(c), c.sender.message, c.sender.out;
    var i, j := |Frames(c.completed)| + out + 4, |Frames(c.completed)| + 4;
    var sending := Sends(d, Aftermath(m, out));
    var resting, e := RestsAfterwards(c, Aftermath(m, out));
    SeenDiffers(e, c.completed, m, out, Aftermath(m, out), i, j);
    more := BreaksOff(d, sending, SentAll(d, Aftermath(m, out)), resting, e, |c.completed|, i, j);
  }

  lemma BreaksOff(c: Channel, sending: seq<Action>, d: Channel, resting: seq<Action>, e: Channel, k: nat, i: nat,
                  j: nat)
    returns (more: seq<Action>)
    requires Leads(c, sending, d) && Leads(d, resting, e) && CanReceive(e) && !e.strayed
    requires |Seen(e)| > i + 4 + UINT32_MAX && |Seen(e)| > j + 4 + UINT32_MAX
    requires DiffersAt(Seen(e), e.offered, i) && DiffersAt(Seen(e), Without(e.offered, k), j)
    ensures Executable(c, more) && !Execute(c, more).strayed && !Faithful(Execute(c, more), k)
  {
    var receiving := DifferenceIsReceived(e, k, i, j);
    ExecuteConcat(d, resting, receiving);
    ExecuteConcat(c, sending, resting + receiving);
    more := sending + (resting + receiving);
  }

  lemma SeenDiffers(e: Channel, sent: seq<Message>, m: Message, out: nat, after: seq<Message>, i: nat, j: nat)
    requires e.consumed <= |e.accepted| && 0 < out < 4 + |m| && after == Aftermath(m, out)
    requires i == |Frames(sent)| + out + 4 && j == |Frames(sent)| + 4
    requires e.offered == sent + [m] + after && Seen(e) == Frames(sent) + Frame(m)[..out] + Frames(after)
    ensures DiffersAt(Seen(e), e.offered, i) && DiffersAt(Seen(e), Without(e.offered, |sent|), j)
    ensures |Seen(e)| > i + 4 + UINT32_MAX && |Seen(e)| > j + 4 + UINT32_MAX
  {
    var s, t := AftermathBytes(m, out);
    AftermathShows(sent, m, out, after, s, t, Seen(e), i, j);
    assert Without(e.offered, |sent|) == sent + after;
  }

  lemma RestsAfterwards(c: Channel, after: seq<Message>) returns (resting: seq<Action>, e: Channel)
    requires Inv(c) && !c.strayed && Silent(c) && !Doomed(c)
    requires after == Aftermath(c.sender.message, c.sender.out)
    ensures Leads(SentAll(SendWrittenOff(c), after), resting, e) && CanReceive(e) && !e.strayed
    ensures e.offered == c.completed + [c.sender.message] + after
    ensures Seen(e) == Frames(c.completed) + Frame(c.sender.message)[..c.sender.out] + Frames(after)
  {
    FreeAfterwards(c, SentAll(SendWrittenOff(c), after), after);
    resting, e := ComesToRest(SentAll(SendWrittenOff(c), after));
  }

  /** Once the aftermath is on the wire a receiver that is not doomed can come to rest. */
  lemma FreeAfterwards(c: Channel, e: Channel, after: seq<Message>)
    requires Inv(c) && !c.strayed && Silent(c) && !Doomed(c)
    requires after == Aftermath(c.sender.message, c.sender.out) && e == SentAll(SendWrittenOff(c), after)
    ensures InStep(e) && Free(e)
  {
    var s, t := AftermathBytes(c.sender.message, c.sender.out);
    var h, more := InFrame(c), Frames(after);
    assert e.accepted[..e.consumed] == c.accepted[..c.consumed];
    assert e.accepted[e.consumed..] == c.accepted[c.consumed..] + more;
    Assoc(Held(c.receiver), c.accepted[c.consumed..], more);
    assert InFrame(e) == h + more;
    assert (h + more)[..4] == (h + [0, 0, 0, 0])[..4];
  }

  // ----- Doomed receivers -----

  lemma {:induction false} StrayedStays(c: Channel, acts: seq<Action>)
    requires Executable(c, acts) && c.strayed
    ensures Execute(c, acts).strayed
    decreases |acts|
  {
    if acts != [] {
      StrayedStays(Apply(c, acts[0]), acts[1..]);
    }
  }

  /** What becomes of a doomed receiver: it reads on in the header at most, and nothing is taken back. */
  ghost predicate StillDoomed(c: Channel, d: Channel) {
    && WellFormed(c) && WellFormed(d) && c.accepted <= d.accepted
    && d.received == c.received && c.offered <= d.offered && (d.sender.Writing? ==> |c.offered| < |d.offered|)
    && match d.receiver
       case Resting => false
       case Lost(got) => got != []
       case Reading(limit, got) =>
         && c.receiver.Reading? && InFrame(c) <= InFrame(d) && LeastAnnounced(InFrame(c)) > limit
         && 0 < |got| < 4
  }

  lemma HeaderRefused(h: Bytes, got: Bytes, ahead: Bytes, limit: nat)
    requires h <= got + ahead && LeastAnnounced(h) > limit && 0 < |got| <= 4
    ensures Returned(limit, got) == []
    ensures if |got| == 4 then Settle(limit, got) == Lost(got) else Settle(limit, got) == Reading(limit, got)
  {
    if |got| == 4 {
      LeastIsLeast(h, got + ahead);
      assert (got + ahead)[..4] == got == got[..4];
    }
  }

  /** The receiver's step: the header is still incomplete, or it refuses it. */
  lemma DoomedReceives(c: Channel, d: Channel, k: nat)
    requires StillDoomed(c, d) && Enabled(d, RecvSome(k))
    ensures StillDoomed(c, Apply(d, RecvSome(k)))
  {
    var got, piece := d.receiver.got, d.accepted[d.consumed..d.consumed + k];
    var got' := got + piece;
    ReceivesPiece(d, k, piece);
    HeldAndAhead(d, k);
    HeaderRefused(InFrame(c), got', d.accepted[d.consumed + k..], d.receiver.limit);
    assert d.received + [] == d.received;
    DoomedWith(c, d, d.consumed + k, Settle(d.receiver.limit, got'));
  }

  lemma DoomedWith(c: Channel, d: Channel, consumed: nat, r: Receiver)
    requires StillDoomed(c, d) && d.receiver.Reading? && consumed <= |d.accepted|
    requires (r.Lost? && r.got != []) || (r.Reading? && r.limit == d.receiver.limit && 0 < |r.got| < 4)
    requires r.got + d.accepted[consumed..] == InFrame(d)
    ensures StillDoomed(c, d.(consumed := consumed, receiver := r))
  {}

  lemma HeldAndAhead(d: Channel, k: nat)
    requires d.consumed + k <= |d.accepted| && d.receiver.Reading?
    ensures d.receiver.got + d.accepted[d.consumed..d.consumed + k] + d.accepted[d.consumed + k..] == InFrame(d)
  {
    assert d.accepted[d.consumed..] == d.accepted[d.consumed..d.consumed + k] + d.accepted[d.consumed + k..];
  }

  lemma DoomedWhileSending(c: Channel, d: Channel, k: nat)
    requires StillDoomed(c, d) && Enabled(d, SendSome(k))
    ensures StillDoomed(c, Apply(d, SendSome(k)))
  {
    AheadGrows(d.accepted, Frame(d.sender.message)[d.sender.out..d.sender.out + k], d.consumed, Held(d.receiver));
  }

  lemma AheadGrows(accepted: Bytes, more: Bytes, consumed: nat, held: Bytes)
    requires consumed <= |accepted|
    ensures accepted <= accepted + more
    ensures held + (accepted + more)[consumed..] == held + accepted[consumed..] + more
  {}

  lemma DoomedStep(c: Channel, d: Channel, a: Action)
    requires StillDoomed(c, d) && Enabled(d, a) && !Apply(d, a).strayed
    ensures StillDoomed(c, Apply(d, a))
  {
    var e := Apply(d, a);
    if a.RecvSome? {
      DoomedReceives(c, d, a.size);
    } else if a.SendSome? {
      DoomedWhileSending(c, d, a.count);
    } else if a.SendFail? {
      assert e.sender.out == 0 ==> e.offered == d.offered[..|d.offered| - 1];
    }
  }

  lemma {:induction false} DoomedRun(c: Channel, d: Channel, acts: seq<Action>)
    requires StillDoomed(c, d) && Executable(d, acts) && !Execute(d, acts).strayed
    ensures StillDoomed(c, Execute(d, acts))
    decreases |acts|
  {
    if acts != [] {
      if Apply(d, acts[0]).strayed {
        StrayedStays(Apply(d, acts[0]), acts[1..]);
      } else {
        DoomedStep(c, d, acts[0]);
        DoomedRun(c, Apply(d, acts[0]), acts[1..]);
      }
    }
  }

  lemma DoomedStaysExact(c: Channel)
    requires Inv(c) && !c.strayed && Doomed(c)
    ensures StaysExact(SendWrittenOff(c))
  {
    var d := SendWrittenOff(c);
    AlignedDelivers(c);
    forall more | Executable(d, more) && !Execute(d, more).strayed
      ensures Execute(d, more).received <= Execute(d, more).offered
    {
      DoomedRun(c, d, more);
    }
  }

  /**
   A sender whose sendMessage has returned false may go on exactly if that call
   had handed over nothing, or the receiver will return nothing more anyway.
   Otherwise some messages sent next make it return what is not what was passed
   in, not even with the failed message left out.
  */
  lemma SenderMayGoOnIff(acts: seq<Action>)
    requires Executable(Init, acts)
    requires var c := Execute(Init, acts); !c.strayed && c.sender.Broken?
    ensures var c := Execute(Init, acts);
            && c.consumed <= |c.accepted|
            && (StaysExact(SendWrittenOff(c)) <==> c.sender.out == 0 || Doomed(c))
            && (StaysFaithful(SendWrittenOff(c), |c.completed|) <==> c.sender.out == 0 || Doomed(c))
  {
    var c := Execute(Init, acts);
    RunKeepsInv(Init, acts);
    if c.sender.out == 0 {
      AlignedStaysExact(SendWrittenOff(c));
    } else if Doomed(c) {
      DoomedStaysExact(c);
    } else {
      var more := SenderBreaksOff(c);
    }
    if StaysExact(SendWrittenOff(c)) {
      ExactIsFaithful(SendWrittenOff(c), |c.completed|);
    }
  }

  // ----- The receiver -----

  /** The channel once the send call in progress, if any, has completed. */
  function Finished(c: Channel): Channel
    requires WellFormed(c)
  {
    if c.sender.Writing? then
      c.(sender := Idle, accepted := c.accepted + Frame(c.sender.message)[c.sender.out..],
         completed := c.completed + [c.sender.message])
    else c
  }

  lemma FinishesSending(c: Channel) returns (acts: seq<Action>)
    requires WellFormed(c)
    ensures Leads(c, acts, Finished(c))
    decreases if c.sender.Writing? then 4 + |c.sender.message| - c.sender.out else 0
  {
    acts := [];
    if c.sender.Writing? {
      var m, out := c.sender.message, c.sender.out;
      var k := SendLeft(m, out);
      var d := Apply(c, SendSome(k));
      OneStep(c, SendSome(k));
      acts := [SendSome(k)];
      if out + k < 4 + |m| {
        var more := FinishesSending(d);
        ExecuteConcat(c, acts, more);
        acts := acts + more;
        assert Frame(m)[out..out + k] + Frame(m)[out + k..] == Frame(m)[out..];
        Assoc(c.accepted, Frame(m)[out..out + k], Frame(m)[out + k..]);
      } else {
        assert Frame(m)[out..out + k] == Frame(m)[out..];
      }
    }
  }

  /** Then the wire holds exactly what was passed in. */
  lemma FinishedIsWhole(c: Channel)
    requires WellFormed(c) && SenderAligned(c) && !Silent(c)
    ensures CanSend(Finished(c)) && Finished(c).accepted == Frames(c.offered) && Finished(c).offered == c.offered
  {
    if c.sender.Writing? {
      var m, out := c.sender.message, c.sender.out;
      assert Frame(m)[..out] + Frame(m)[out..] == Frame(m);
      Assoc(Frames(c.completed), Frame(m)[..out], Frame(m)[out..]);
      FramesSnoc(c.completed, m);
    } else {
      assert c.accepted == Frames(c.completed) + [] == Frames(c.completed);
      assert c.offered == c.completed + [] == c.completed;
    }
  }

  /** The send call in progress completes and more messages follow. */
  lemma SenderCarriesOn(c: Channel, after: seq<Message>) returns (acts: seq<Action>, e: Channel)
    requires WellFormed(c) && SenderAligned(c) && !Silent(c) && after != []
    ensures Leads(c, acts, e) && CanSend(e) && e.accepted == Frames(c.offered + after)
    ensures e == c.(sender := Idle, accepted := e.accepted, offered := c.offered + after, completed := e.completed)
    ensures |c.accepted| <= |Frames(c.offered)| <= |e.accepted|
  {
    var f := Finished(c);
    acts := FinishesSending(c);
    FinishedIsWhole(c);
    e := SentAll(f, after);
    var sending := Sends(f, after);
    ExecuteConcat(c, acts, sending);
    acts := acts + sending;
    FramesAppend(c.offered, after);
  }

  lemma SameAfterwards(a: Bytes, x: Bytes, y: Bytes)
    requires |x| <= |y| && a + x == (a + y)[..|a| + |x|]
    ensures x == y[..|x|]
  {
    assert x == (a + x)[|a|..] && (a + y)[..|a| + |x|][|a|..] == y[..|x|];
  }

  lemma PartOfNext(received: seq<Message>, offered: seq<Message>, got: Bytes)
    requires received <= offered && got != [] && !HasFrame(got)
    requires var n := |Frames(received)| + |got|;
             n <= |Frames(offered)| && Frames(received) + got == Frames(offered)[..n]
    ensures var k := |received|;
            k < |offered| && offered[..k] == received && |got| < |Frame(offered[k])| <= |Frames(offered)|
  {
    var rest := offered[|received|..];
    assert offered == received + rest;
    FramesAppend(received, rest);
    SameAfterwards(Frames(received), got, Frames(rest));
    GotIsPart(got, rest[0], Frames(rest));
  }

  /** The receiver has given up after part of the frame of the message it was to return next. */
  lemma LostInFrame(c: Channel)
    requires Inv(c) && !c.strayed && !Silent(c) && c.receiver.Lost? && c.receiver.got != []
    ensures SenderAligned(ReceiveWrittenOff(c)) && WellFormed(ReceiveWrittenOff(c))
    ensures var k, g := |c.received|, |c.receiver.got|;
            && k < |c.offered| && c.offered[..k] == c.received && g < |Frame(c.offered[k])| <= |Frames(c.offered)|
            && c.consumed == |Frames(c.received)| + g <= |Frames(c.offered)|
  {
    var k, got := |c.received|, c.receiver.got;
    AlignedDelivers(c);
    FinishedIsWhole(c);
    assert c.consumed == |c.accepted[..c.consumed]|;
    assert c.accepted[..c.consumed] == Frames(c.offered)[..c.consumed];
    PartOfNext(c.received, c.offered, got);
  }

  /** In bytes: the stream from byte g of f on, taken for the whole stream, and for the one without f. */
  lemma Dropped(base: Bytes, f: Bytes, rest: Bytes, g: nat, t: Bytes)
    requires 0 < g < |f| && t != []
    ensures var sent, none := base + (f + rest), base + rest + t;
            var whole, i, j := sent + t, |sent| - g, |base| + |rest|;
            var seen := base + whole[|base| + g..];
            && |seen| == |whole| - g && i < |whole| && i < |seen| && j < |none| && j < |seen|
            && seen[i] == t[0] && whole[i] == sent[i] && none[j] == t[0] && seen[j] == sent[j + g]
  {}

  /** What is passed in after the receiver has given up: something that shows, then a lot. */
  function Sequel(sent: Bytes, i: nat, j: nat): seq<Message>
    requires i < |sent| && j < |sent|
  {
    [Unlike(sent[i], sent[j]), Longest()]
  }

  lemma SequelBytes(sent: Bytes, i: nat, j: nat) returns (t: Bytes)
    requires i < |sent| && j < |sent|
    ensures t == Frames(Sequel(sent, i, j)) && |t| > 4 + UINT32_MAX && t[0] != sent[i] && t[0] != sent[j]
  {
    var z, l := Sequel(sent, i, j)[0], Sequel(sent, i, j)[1];
    t := Frames(Sequel(sent, i, j));
    FramesCons(z, [l]);
    FramesCons(l, []);
    assert [z] + [l] == Sequel(sent, i, j) && [l] + [] == [l];
    assert t[0] == Frame(z)[0];
  }

  lemma DroppedDiffers(base: Bytes, f: Bytes, rest: Bytes, from: nat, t: Bytes, all: Bytes, i: nat, j: nat, more: Bytes,
                       none: Bytes, seen: Bytes)
    requires |base| < from < |base| + |f| && all == base + (f + rest) && |t| > 4 + UINT32_MAX
    requires i == |all| - (from - |base|) && j == |all| - |f| && t[0] != all[i] && t[0] != all[j + from - |base|]
    requires more == all + t && none == base + rest + t && seen == base + more[from..]
    ensures i < |more| && i < |seen| && more[i] != seen[i] && j < |none| && j < |seen| && none[j] != seen[j]
    ensures |seen| > i + 4 + UINT32_MAX && |seen| > j + 4 + UINT32_MAX
  {
    Dropped(base, f, rest, from - |base|, t);
  }

  lemma FramesOfThree(a: seq<Message>, b: seq<Message>, c: seq<Message>)
    ensures Frames(a + b + c) == Frames(a) + Frames(b) + Frames(c)
  {
    FramesAppend(a + b, c);
    FramesAppend(a, b);
  }

  /** The two lists that the receiver's stream is held against, in bytes. */
  lemma SequelFramings(offered: seq<Message>, k: nat, after: seq<Message>)
    requires k < |offered|
    ensures Frames(offered + after) == Frames(offered) + Frames(after)
    ensures Frames(Without(offered + after, k)) == Frames(offered[..k]) + Frames(offered[k + 1..]) + Frames(after)
  {
    FramesAppend(offered, after);
    FramesOfThree(offered[..k], offered[k + 1..], after);
    assert Without(offered + after, k) == offered[..k] + offered[k + 1..] + after;
  }

  lemma RestingSees(e: Channel)
    requires e.consumed <= |e.accepted| && e.receiver == Resting
    ensures Seen(e) == Frames(e.received) + e.accepted[e.consumed..]
  {
    assert [] + e.accepted[e.consumed..] == e.accepted[e.consumed..];
  }

  lemma SequelInBytes(offered: seq<Message>, k: nat, all: Bytes, i: nat, j: nat) returns (t: Bytes)
    requires k < |offered| && all == Frames(offered) && i < |all| && j < |all|
    ensures |t| > 4 + UINT32_MAX && t[0] != all[i] && t[0] != all[j]
    ensures var ms := offered + Sequel(all, i, j);
            Frames(ms) == all + t && Frames(Without(ms, k)) == Frames(offered[..k]) + Frames(offered[k + 1..]) + t
  {
    t := SequelBytes(all, i, j);
    SequelFramings(offered, k, Sequel(all, i, j));
  }

  lemma SplitsAt(offered: seq<Message>, k: nat)
    requires k < |offered|
    ensures Frames(offered) == Frames(offered[..k]) + (Frame(offered[k]) + Frames(offered[k + 1..]))
  {
    assert offered == offered[..k] + offered[k..] && offered[k..] == [offered[k]] + offered[k + 1..];
    FramesAppend(offered[..k], offered[k..]);
    FramesCons(offered[k], offered[k + 1..]);
  }

  /** The frame of message k has lost its first g bytes. */
  lemma LossShows(offered: seq<Message>, k: nat, all: Bytes, i: nat, j: nat, t: Bytes, ms: seq<Message>, from: nat,
                  seen: Bytes)
    requires k < |offered| && all == Frames(offered) && |t| > 4 + UINT32_MAX
    requires |Frames(offered[..k])| < from < |Frames(offered[..k])| + |Frame(offered[k])|
    requires i == |all| - (from - |Frames(offered[..k])|) && j == |all| - |Frame(offered[k])|
    requires j + from - |Frames(offered[..k])| < |all|
    requires t[0] != all[i] && t[0] != all[j + from - |Frames(offered[..k])|]
    requires Frames(ms) == all + t && Frames(Without(ms, k)) == Frames(offered[..k]) + Frames(offered[k + 1..]) + t
    requires from <= |Frames(ms)| && seen == Frames(offered[..k]) + Frames(ms)[from..]
    ensures DiffersAt(seen, ms, i) && DiffersAt(seen, Without(ms, k), j)
    ensures |seen| > i + 4 + UINT32_MAX && |seen| > j + 4 + UINT32_MAX
  {
    SplitsAt(offered, k);
    DroppedDiffers(Frames(offered[..k]), Frame(offered[k]), Frames(offered[k + 1..]), from, t, all, i, j, Frames(ms),
      Frames(Without(ms, k)), seen);
  }

  /** The receiver has lost its place in the frame of message k, and the sequel is on the wire. */
  lemma SeenAfterLoss(e: Channel, offered: seq<Message>, k: nat, g: nat, all: Bytes, i: nat, j: nat)
    requires k < |offered| && all == Frames(offered) && e.received == offered[..k]
    requires 0 < g < |Frame(offered[k])| <= |all| && i == |all| - g && j == |all| - |Frame(offered[k])|
    requires e.offered == offered + Sequel(all, i, j + g) && e.accepted == Frames(e.offered)
    requires e.receiver == Resting && e.consumed == |Frames(e.received)| + g <= |e.accepted|
    ensures DiffersAt(Seen(e), e.offered, i) && DiffersAt(Seen(e), Without(e.offered, k), j)
    ensures |Seen(e)| > i + 4 + UINT32_MAX && |Seen(e)| > j + 4 + UINT32_MAX
  {
    var t := SequelInBytes(offered, k, all, i, j + g);
    RestingSees(e);
    LossShows(offered, k, all, i, j, t, e.offered, e.consumed, Seen(e));
  }

  lemma LossIsReceived(d: Channel, k: nat, g: nat, all: Bytes) returns (more: seq<Action>)
    requires CanReceive(d) && SenderAligned(d) && !Silent(d) && !d.strayed
    requires d.receiver == Resting && k == |d.received| < |d.offered| && d.offered[..k] == d.received
    requires all == Frames(d.offered) && d.consumed == |Frames(d.received)| + g
    requires 0 < g < |Frame(d.offered[k])| <= |all|
    ensures Executable(d, more) && !Execute(d, more).strayed && !Faithful(Execute(d, more), k)
  {
    var i, j := |all| - g, |all| - |Frame(d.offered[k])|;
    var e;
    more, e := SenderCarriesOn(d, Sequel(all, i, j + g));
    SeenAfterLoss(e, d.offered, k, g, all, i, j);
    var receiving := DifferenceIsReceived(e, k, i, j);
    ExecuteConcat(d, more, receiving);
    more := more + receiving;
  }

  lemma ReceiverBreaksOff(c: Channel) returns (more: seq<Action>)
    requires Inv(c) && !c.strayed && !Silent(c) && c.receiver.Lost? && c.receiver.got != []
    ensures var d := ReceiveWrittenOff(c);
            Executable(d, more) && !Execute(d, more).strayed && !Faithful(Execute(d, more), |c.received|)
  {
    LostInFrame(c);
    more := LossIsReceived(ReceiveWrittenOff(c), |c.received|, |c.receiver.got|, Frames(c.offered));
  }

  // ----- When the sender has failed inside a frame, too -----

  /** What the receiver has returned, and what it can still return of what is on the wire. */
  function Returnable(c: Channel): seq<Message>
    requires c.consumed <= |c.accepted|
  {
    c.received + Parse(InFrame(c)).messages
  }

  /** From c to d the receiver has gone on, and nothing else has happened. */
  ghost predicate Drains(c: Channel, d: Channel) {
    && WellFormed(c) && WellFormed(d) && Silent(c) && !d.strayed
    && d.sender == c.sender && d.accepted == c.accepted && d.offered == c.offered
    && (if d.receiver.Lost? && d.receiver.got != [] then d.received <= Returnable(c)
        else Returnable(d) == Returnable(c))
  }

  /** In terms of the messages: a piece that completes a frame takes its message off the front of the stream. */
  lemma ParseTakes(got: Bytes, ahead: Bytes, limit: nat)
    requires |got| >= 4 ==> |got| <= 4 + DecodeLength(got[..4])
    ensures Settle(limit, got).Resting? ==>
              Parse(got + ahead).messages == Returned(limit, got) + Parse(ahead).messages
    ensures !Settle(limit, got).Resting? ==> Returned(limit, got) == [] && Held(Settle(limit, got)) == got
  {
    if Settle(limit, got).Resting? {
      assert (got + ahead)[..4] == got[..4];
      assert FirstMessage(got + ahead) == got[4..] && AfterFirst(got + ahead) == ahead;
    }
  }

  /** What the receiver can return stays the same, unless it gives up. */
  lemma ReturnableStays(received: seq<Message>, got: Bytes, ahead: Bytes, r: Receiver, ms: seq<Message>)
    requires if r.Resting? then Parse(got + ahead).messages == ms + Parse(ahead).messages
             else ms == [] && Held(r) == got
    ensures received + ms + Parse(Held(r) + ahead).messages == received + Parse(got + ahead).messages
  {
    if r.Resting? {
      assert [] + ahead == ahead;
      Assoc(received, ms, Parse(ahead).messages);
    } else {
      assert received + [] == received;
    }
  }

  lemma DrainsWith(c: Channel, d: Channel, consumed: nat, r: Receiver, ms: seq<Message>)
    requires Drains(c, d) && d.receiver.Reading? && consumed <= |d.accepted| && (r.Reading? ==> !HasFrame(r.got))
    requires r.Lost? ==> ms == []
    requires d.received + ms + Parse(Held(r) + d.accepted[consumed..]).messages == Returnable(d)
    ensures Drains(c, d.(consumed := consumed, receiver := r, received := d.received + ms))
  {}

  lemma DrainsPiece(c: Channel, d: Channel, k: nat, got: Bytes)
    requires Drains(c, d) && d.receiver.Reading? && d.consumed + k <= |d.accepted|
    requires got == d.receiver.got + d.accepted[d.consumed..d.consumed + k]
    requires |got| >= 4 ==> |got| <= 4 + DecodeLength(got[..4])
    ensures var limit := d.receiver.limit;
            Drains(c, d.(consumed := d.consumed + k, receiver := Settle(limit, got),
                         received := d.received + Returned(limit, got)))
  {
    var limit, ahead := d.receiver.limit, d.accepted[d.consumed + k..];
    HeldAndAhead(d, k);
    ParseTakes(got, ahead, limit);
    ReturnableStays(d.received, got, ahead, Settle(limit, got), Returned(limit, got));
    DrainsWith(c, d, d.consumed + k, Settle(limit, got), Returned(limit, got));
  }

  lemma DrainsReceiving(c: Channel, d: Channel, k: nat)
    requires Drains(c, d) && Enabled(d, RecvSome(k))
    ensures Drains(c, Apply(d, RecvSome(k)))
  {
    var piece := d.accepted[d.consumed..d.consumed + k];
    ReceivesPiece(d, k, piece);
    DrainsPiece(c, d, k, d.receiver.got + piece);
  }

  lemma DrainsStep(c: Channel, d: Channel, a: Action)
    requires Drains(c, d) && Enabled(d, a) && !Apply(d, a).strayed
    ensures Drains(c, Apply(d, a))
  {
    if a.RecvSome? {
      DrainsReceiving(c, d, a.size);
    }
  }

  lemma {:induction false} DrainsRun(c: Channel, d: Channel, acts: seq<Action>)
    requires Drains(c, d) && Executable(d, acts) && !Execute(d, acts).strayed
    ensures Drains(c, Execute(d, acts))
    decreases |acts|
  {
    if acts != [] {
      if Apply(d, acts[0]).strayed {
        StrayedStays(Apply(d, acts[0]), acts[1..]);
      } else {
        DrainsStep(c, d, acts[0]);
        DrainsRun(c, Apply(d, acts[0]), acts[1..]);
      }
    }
  }

  /** It can return all of it. */
  lemma DrainsAll(c: Channel) returns (acts: seq<Action>)
    requires CanReceive(c) && !c.strayed
    ensures Executable(c, acts) && !Execute(c, acts).strayed
    ensures Execute(c, acts).received == Returnable(c) && Execute(c, acts).offered == c.offered
  {
    var ahead := c.accepted[c.consumed..];
    assert Held(c.receiver) + ahead == ahead;
    ParseSound(ahead);
    acts := Receives(c, Parse(ahead).messages);
  }

  /** Going on is then a matter of what is on the wire already. */
  lemma SilentStaysIff(c: Channel, k: nat)
    requires CanReceive(c) && Silent(c) && !c.strayed
    ensures StaysExact(c) <==> Returnable(c) <= c.offered
    ensures StaysFaithful(c, k) <==> Returnable(c) <= c.offered || Returnable(c) <= Without(c.offered, k)
  {
    forall more | Executable(c, more) && !Execute(c, more).strayed
      ensures Execute(c, more).received <= Returnable(c) && Execute(c, more).offered == c.offered
    {
      DrainsRun(c, c, more);
    }
    var all := DrainsAll(c);
  }

  /**
   A receiver whose receiveMessage has returned false may go on exactly if that
   call had consumed nothing. Otherwise some messages sent next make it return
   what is not what was passed in, not even with the failed message left out.
   If the sender has failed inside a frame as well nothing is sent next, and the
   receiver may go on exactly if the messages it makes out in the rest of what is
   on the wire happen to be right.
  */
  lemma ReceiverMayGoOnIff(acts: seq<Action>)
    requires Executable(Init, acts)
    requires var c := Execute(Init, acts); !c.strayed && c.receiver.Lost?
    ensures var c := Execute(Init, acts);
            var d, k := ReceiveWrittenOff(c), |c.received|;
            && d.consumed <= |d.accepted|
            && (StaysExact(d) <==> c.receiver.got == [] || (Silent(c) && Returnable(d) <= c.offered))
            && (StaysFaithful(d, k) <==>
                c.receiver.got == []
                || (Silent(c) && (Returnable(d) <= c.offered || Returnable(d) <= Without(c.offered, k))))
  {
    var c := Execute(Init, acts);
    RunKeepsInv(Init, acts);
    if c.receiver.got == [] {
      AlignedStaysExact(ReceiveWrittenOff(c));
    } else if Silent(c) {
      SilentStaysIff(ReceiveWrittenOff(c), |c.received|);
    } else {
      var more := ReceiverBreaksOff(c);
    }
    if StaysExact(ReceiveWrittenOff(c)) {
      ExactIsFaithful(ReceiveWrittenOff(c), |c.received|);
    }
  }
}
