/**
 One direction of a Unix stream socket shared by a sender running sendMessage
 and a receiver running receiveMessage, as a state machine over the system
 calls of both. Every ::send may accept any nonempty part of what it is given,
 every ::recv may return any nonempty part of what is in flight, and either
 side may fail at any call; the two sides interleave freely.

 The byte histories are unbounded; the kernel buffer is what has been accepted
 and not yet consumed.
*/
module FramedChannel {
  import opened Basics
  import opened Framing
  import opened Seqs

  datatype Sender =
    | Idle                                 // no sendMessage in progress
    | Writing(message: Message, out: nat)  // `out` bytes of its frame accepted so far
    | Broken(message: Message, out: nat)   // the call returned false after `out` bytes

  datatype Receiver =
    | Resting                              // no receiveMessage in progress
    | Reading(limit: nat, got: Bytes)      // bytes of header and payload read so far
    | Lost(got: Bytes)                     // the call returned false after consuming `got`

  datatype Channel = Channel(
    sender: Sender,
    receiver: Receiver,
    accepted: Bytes,          // every byte ::send has accepted
    consumed: nat,            // how many of them ::recv has returned
    // history
    offered: seq<Message>,    // messages passed to sendMessage, save those refused before their first byte
    completed: seq<Message>,  // messages whose sendMessage returned true
    received: seq<Message>,   // messages receiveMessage returned, in order
    strayed: bool)            // a side went on after a call that returned false part-way through a frame

  datatype Action =
    | CallSend(payload: Bytes)
    | SendSome(count: nat)    // ::send returned count
    | SendRetry               // EINTR, or in the timed form EAGAIN or an empty wakeup
    | SendFail                // error, closed connection or timeout
    | CallReceive(maxSize: nat)
    | RecvSome(size: nat)     // ::recv returned size
    | RecvRetry
    | RecvFail

  const Init := Channel(Idle, Resting, [], 0, [], [], [], false)

  /** Bytes the current writeAll call still has to hand over: header first, then payload. */
  function SendLeft(m: Message, out: nat): nat
    requires out <= 4 + |m|
  {
    if out < 4 then 4 - out else 4 + |m| - out
  }

  /** Bytes the current readAll call still asks for: header first, then payload. */
  function RecvLeft(got: Bytes): nat
    requires !HasFrame(got)
  {
    if |got| < 4 then 4 - |got| else 4 + DecodeLength(got[..4]) - |got|
  }

  /** A piece no longer than what was asked for never runs past the current frame. */
  lemma PieceFits(held: Bytes, got: Bytes)
    requires !HasFrame(held) && held <= got && |got| <= |held| + RecvLeft(held)
    ensures |held| >= 4 ==> got[..4] == held[..4]
    ensures |got| >= 4 ==> |got| <= 4 + DecodeLength(got[..4])
  {}

  predicate WellFormed(c: Channel) {
    && c.consumed <= |c.accepted|
    && (c.sender.Writing? || c.sender.Broken? ==> c.sender.out < 4 + |c.sender.message|)
    && (c.receiver.Reading? ==> !HasFrame(c.receiver.got))
  }

  predicate Enabled(c: Channel, a: Action) {
    && WellFormed(c)
    && match a
       case CallSend(_) => !c.sender.Writing?
       case SendSome(k) => c.sender.Writing? && 1 <= k <= SendLeft(c.sender.message, c.sender.out)
       case SendRetry => c.sender.Writing?
       case SendFail => c.sender.Writing?
       case CallReceive(_) => !c.receiver.Reading?
       case RecvSome(k) => c.receiver.Reading? && 1 <= k <= RecvLeft(c.receiver.got) && k <= |c.accepted| - c.consumed
       case RecvRetry => c.receiver.Reading?
       case RecvFail => c.receiver.Reading?
  }

  /** The side that begins this call has given up its last one part-way through a frame. */
  predicate Strays(c: Channel, a: Action) {
    || (a.CallSend? && |a.payload| <= UINT32_MAX && c.sender.Broken? && c.sender.out > 0)
    || (a.CallReceive? && c.receiver.Lost? && c.receiver.got != [])
  }

  function Apply(c: Channel, a: Action): Channel
    requires Enabled(c, a)
  {
    match a
    case CallSend(payload) =>
      if |payload| > UINT32_MAX then c
      else
        c.(sender := Writing(payload, 0), offered := c.offered + [payload], strayed := c.strayed || Strays(c, a))
    case SendSome(k) =>
      var Writing(m, out) := c.sender;
      var c' := c.(accepted := c.accepted + Frame(m)[out..out + k]);
      if out + k == 4 + |m| then c'.(sender := Idle, completed := c.completed + [m])
      else c'.(sender := Writing(m, out + k))
    case SendFail =>
      var Writing(m, out) := c.sender;
      var c' := c.(sender := Broken(m, out));
      if out == 0 then c'.(offered := Front(c.offered)) else c'
    case CallReceive(max) =>
      c.(receiver := Reading(max, []), strayed := c.strayed || Strays(c, a))
    case RecvSome(k) =>
      var got := c.receiver.got + c.accepted[c.consumed..c.consumed + k];
      PieceFits(c.receiver.got, got);
      c.(consumed := c.consumed + k, receiver := Settle(c.receiver.limit, got),
         received := c.received + Returned(c.receiver.limit, got))
    case RecvFail => c.(receiver := Lost(c.receiver.got))
    case SendRetry => c
    case RecvRetry => c
  }

  /** Where receiveMessage stands once `got` has been read: the size check comes as soon as the header is complete. */
  function Settle(limit: nat, got: Bytes): Receiver {
    if |got| >= 4 && DecodeLength(got[..4]) > limit then Lost(got)
    else if HasFrame(got) then Resting
    else Reading(limit, got)
  }

  /** The message that read completed, if any. */
  function Returned(limit: nat, got: Bytes): (ms: seq<Message>)
    requires |got| >= 4 ==> |got| <= 4 + DecodeLength(got[..4])
  {
    if Settle(limit, got).Resting? then [got[4..]] else []
  }

  function Front(ms: seq<Message>): seq<Message> {
    if ms == [] then [] else ms[..|ms| - 1]
  }

  predicate Executable(c: Channel, acts: seq<Action>)
    decreases |acts|
  {
    acts == [] || (Enabled(c, acts[0]) && Executable(Apply(c, acts[0]), acts[1..]))
  }

  function Execute(c: Channel, acts: seq<Action>): Channel
    requires Executable(c, acts)
    decreases |acts|
  {
    if acts == [] then c else Execute(Apply(c, acts[0]), acts[1..])
  }

  // ----- What every step keeps -----

  /** The part of a frame the sender has handed over and not finished. */
  function Unfinished(s: Sender): Bytes {
    if s.Idle? || s.out > 4 + |s.message| then [] else Frame(s.message)[..s.out]
  }

  /** The part of a frame the receiver has consumed and not returned. */
  function Held(r: Receiver): Bytes {
    if r.Resting? then [] else r.got
  }

  ghost predicate SenderAligned(c: Channel) {
    && c.accepted == Frames(c.completed) + Unfinished(c.sender)
    && c.offered == c.completed + (if Unfinished(c.sender) != [] || c.sender.Writing? then [c.sender.message] else [])
  }

  ghost predicate Aligned(read: Bytes, received: seq<Message>, r: Receiver) {
    && read == Frames(received) + Held(r)
    && !HasFrame(Held(r))
    && (r.Reading? && |r.got| >= 4 ==> DecodeLength(r.got[..4]) <= r.limit)
  }

  ghost predicate ReceiverAligned(c: Channel)
    requires WellFormed(c)
  {
    Aligned(c.accepted[..c.consumed], c.received, c.receiver)
  }

  ghost predicate Inv(c: Channel) {
    && WellFormed(c)
    && (!c.strayed ==> SenderAligned(c) && ReceiverAligned(c))
  }

  lemma Grow(base: Bytes, f: Bytes, i: nat, j: nat)
    requires i <= j <= |f|
    ensures (base + f[..i]) + f[i..j] == base + f[..j]
  {}

  lemma SendKeepsSender(c: Channel, k: nat)
    requires Inv(c) && Enabled(c, SendSome(k)) && !c.strayed
    ensures SenderAligned(Apply(c, SendSome(k)))
  {
    var Writing(m, out) := c.sender;
    Grow(Frames(c.completed), Frame(m), out, out + k);
    if out + k == |Frame(m)| {
      assert Frame(m)[..out + k] == Frame(m);
      FramesSnoc(c.completed, m);
    }
  }

  lemma StepKeepsSender(c: Channel, a: Action)
    requires Inv(c) && Enabled(c, a) && !Apply(c, a).strayed
    ensures SenderAligned(Apply(c, a))
  {
    match a
    case SendSome(k) => SendKeepsSender(c, k);
    case CallSend(_) =>
    case SendFail =>
    case CallReceive(_) =>
    case RecvSome(k) =>
    case RecvFail =>
    case SendRetry =>
    case RecvRetry =>
  }

  lemma SettleKeepsBytes(limit: nat, held: Bytes, got: Bytes)
    requires !HasFrame(held) && held < got && |got| <= |held| + RecvLeft(held)
    requires |held| >= 4 ==> DecodeLength(held[..4]) <= limit
    ensures |got| >= 4 ==> |got| <= 4 + DecodeLength(got[..4])
    ensures Aligned(got, Returned(limit, got), Settle(limit, got))
  {
    PieceFits(held, got);
    if Settle(limit, got).Resting? {
      WholeFrame(got);
      assert Frames([got[4..]]) == Frame(got[4..]) + Frames([]);
    }
  }

  /** A piece moves from the wire to the receiver, which goes on, fails, or returns a message with it. */
  lemma PieceKeepsAligned(read: Bytes, piece: Bytes, received: seq<Message>, limit: nat, held: Bytes)
    requires Aligned(read, received, Reading(limit, held)) && 1 <= |piece| <= RecvLeft(held)
    ensures var got := held + piece;
            && (|got| >= 4 ==> |got| <= 4 + DecodeLength(got[..4]))
            && Aligned(read + piece, received + Returned(limit, got), Settle(limit, got))
  {
    var got := held + piece;
    SettleKeepsBytes(limit, held, got);
    FramesAppend(received, Returned(limit, got));
    Assoc(Frames(received), held, piece);
    Assoc(Frames(received), Frames(Returned(limit, got)), Held(Settle(limit, got)));
  }

  lemma TakeMore(s: Bytes, i: nat, j: nat)
    requires i <= j <= |s|
    ensures s[..i] + s[i..j] == s[..j]
  {}

  lemma PieceKeepsReceiver(read: Bytes, c: Channel, c': Channel, piece: Bytes, got: Bytes)
    requires c.receiver.Reading? && Aligned(read, c.received, c.receiver)
    requires 1 <= |piece| <= RecvLeft(c.receiver.got) && got == c.receiver.got + piece
    requires |got| >= 4 ==> |got| <= 4 + DecodeLength(got[..4])
    requires c'.receiver == Settle(c.receiver.limit, got) && c'.received == c.received + Returned(c.receiver.limit, got)
    ensures Aligned(read + piece, c'.received, c'.receiver)
  {
    PieceKeepsAligned(read, piece, c.received, c.receiver.limit, c.receiver.got);
  }

  lemma RecvKeepsReceiver(c: Channel, k: nat)
    requires Enabled(c, RecvSome(k)) && ReceiverAligned(c)
    ensures ReceiverAligned(Apply(c, RecvSome(k)))
  {
    var piece := c.accepted[c.consumed..c.consumed + k];
    var got := c.receiver.got + piece;
    PieceFits(c.receiver.got, got);
    PieceKeepsReceiver(c.accepted[..c.consumed], c, Apply(c, RecvSome(k)), piece, got);
    TakeMore(c.accepted, c.consumed, c.consumed + k);
  }

  /** Reading exactly the bytes asked for ends with exactly one frame. */
  lemma WholeFrame(got: Bytes)
    requires HasFrame(got) && |got| == 4 + DecodeLength(got[..4])
    ensures Frame(got[4..]) == got
  {
    SplitFrame(got);
    assert got[4..4 + DecodeLength(got[..4])] == got[4..];
  }

  lemma StepKeepsReceiver(c: Channel, a: Action)
    requires Inv(c) && Enabled(c, a) && !Apply(c, a).strayed
    ensures WellFormed(Apply(c, a)) && ReceiverAligned(Apply(c, a))
  {
    var c' := Apply(c, a);
    match a
    case SendSome(k) => assert c'.accepted[..c.consumed] == c.accepted[..c.consumed];
    case RecvSome(k) => RecvKeepsReceiver(c, k);
    case CallSend(_) =>
    case SendFail =>
    case CallReceive(_) =>
    case RecvFail =>
    case SendRetry =>
    case RecvRetry =>
  }

  lemma StepKeepsInv(c: Channel, a: Action)
    requires Inv(c) && Enabled(c, a)
    ensures Inv(Apply(c, a))
  {
    if !Apply(c, a).strayed {
      StepKeepsSender(c, a);
      StepKeepsReceiver(c, a);
    }
  }

  lemma {:induction false} RunKeepsInv(c: Channel, acts: seq<Action>)
    requires Inv(c) && Executable(c, acts)
    ensures Inv(Execute(c, acts))
    decreases |acts|
  {
    if acts != [] {
      StepKeepsInv(c, acts[0]);
      RunKeepsInv(Apply(c, acts[0]), acts[1..]);
    }
  }

  // ----- Main results -----

  /**
   For every interleaving and fragmentation: unless a side carries on after a
   call that returned false part-way through a frame, the messages returned are
   a prefix of the messages passed in, byte for byte and in order.
  */
  lemma FifoDelivery(acts: seq<Action>)
    requires Executable(Init, acts)
    ensures var c := Execute(Init, acts); !c.strayed ==> c.received <= c.offered && c.completed <= c.offered
  {
    RunKeepsInv(Init, acts);
    if !Execute(Init, acts).strayed {
      AlignedDelivers(Execute(Init, acts));
    }
  }

  lemma AlignedDelivers(c: Channel)
    requires Inv(c) && !c.strayed
    ensures c.received <= c.offered && c.completed <= c.offered
  {
    var read := c.accepted[..c.consumed];
    ParseFrames(c.received, Held(c.receiver));
    if c.offered == c.completed {
      assert c.accepted == Frames(c.offered);
    } else {
      FramesSnoc(c.completed, c.sender.message);
      assert Unfinished(c.sender) <= Frame(c.sender.message);
    }
    assert read <= Frames(c.offered);
    ParsePrefix(c.offered, read);
  }

  /** Nothing is lost: once both sides rest and no byte is in flight, every message passed in has been returned. */
  lemma QuiescentDelivery(acts: seq<Action>)
    requires Executable(Init, acts)
    ensures var c := Execute(Init, acts);
            !c.strayed && c.sender.Idle? && c.receiver.Resting? && c.consumed == |c.accepted|
            ==> c.received == c.completed == c.offered
  {
    var c := Execute(Init, acts);
    RunKeepsInv(Init, acts);
    if !c.strayed && c.sender.Idle? && c.receiver.Resting? && c.consumed == |c.accepted| {
      assert c.accepted[..c.consumed] == c.accepted;
      assert Frames(c.completed) + [] == Frames(c.completed) && Frames(c.received) + [] == Frames(c.received);
      FramesInjective(c.received, c.completed);
    }
  }

  /**
   A call that returned false leaves its side of the stream between two frames
   exactly when it had transferred nothing, so going on afterwards is sound in
   that case only.
  */
  lemma FailureBoundary(acts: seq<Action>)
    requires Executable(Init, acts)
    ensures var c := Execute(Init, acts); c.consumed <= |c.accepted| && (!c.strayed ==>
              && (c.sender.Broken? ==> (AtBoundary(c.accepted) <==> c.sender.out == 0))
              && (c.receiver.Lost? ==> (AtBoundary(c.accepted[..c.consumed]) <==> c.receiver.got == [])))
  {
    var c := Execute(Init, acts);
    RunKeepsInv(Init, acts);
    if !c.strayed {
      if c.sender.Broken? {
        BoundaryIffNothingTransferred(c.completed, c.sender.message, Unfinished(c.sender));
      }
      if c.receiver.Lost? {
        BoundaryIffEmptyRest(c.received, c.receiver.got);
      }
    }
  }

  /** A run in which the sender goes on after a failure part-way through a frame. */
  const StrayRun: seq<Action> := [
    CallSend([7]), SendSome(4), SendFail, CallSend([]), SendSome(4),
    CallReceive(10), RecvSome(4), RecvSome(1)]

  const StrayWire: Bytes := [0, 0, 0, 1, 0, 0, 0, 0]

  lemma SendsHeader(c: Channel)
    requires WellFormed(c) && c.sender.Writing? && c.sender.out == 0
    ensures Enabled(c, SendSome(4))
    ensures Apply(c, SendSome(4)).accepted == c.accepted + EncodeLength(|c.sender.message|)
  {}

  /** One byte offered, its header accepted, a failure. */
  lemma StrayFails(c3: Channel)
    requires c3 == Channel(Broken([7], 4), Resting, [0, 0, 0, 1], 0, [[7]], [], [], false)
    ensures Executable(Init, StrayRun[..3]) && Execute(Init, StrayRun[..3]) == c3
  {
    var c1 := Channel(Writing([7], 0), Resting, [], 0, [[7]], [], [], false);
    var c2 := Channel(Writing([7], 4), Resting, [0, 0, 0, 1], 0, [[7]], [], [], false);
    SendsHeader(c1);
    ExecuteFrom(Init, StrayRun[..3], [c1, c2, c3]);
  }

  /** Then an empty message. */
  lemma StrayResumes(c3: Channel, c5: Channel)
    requires c3 == Channel(Broken([7], 4), Resting, [0, 0, 0, 1], 0, [[7]], [], [], false)
    requires c5 == Channel(Idle, Resting, StrayWire, 0, [[7], []], [[]], [], true)
    ensures Executable(c3, StrayRun[3..5]) && Execute(c3, StrayRun[3..5]) == c5
  {
    var c4 := Channel(Writing([], 0), Resting, [0, 0, 0, 1], 0, [[7], []], [], [], true);
    SendsHeader(c4);
    ExecuteFrom(c3, StrayRun[3..5], [c4, c5]);
  }

  lemma StrayReceives(c5: Channel, c8: Channel)
    requires c5 == Channel(Idle, Resting, StrayWire, 0, [[7], []], [[]], [], true)
    requires c8 == c5.(consumed := 5, received := [[0]])
    ensures Executable(c5, StrayRun[5..]) && Execute(c5, StrayRun[5..]) == c8
  {
    var c6 := c5.(receiver := Reading(10, []));
    var c7 := c5.(receiver := Reading(10, [0, 0, 0, 1]), consumed := 4);
    StrayHeader(c6, c7);
    StrayPayload(c7, c8);
    ExecuteFrom(c5, StrayRun[5..], [c6, c7, c8]);
  }

  lemma StrayHeader(c: Channel, c': Channel)
    requires c == Channel(Idle, Reading(10, []), StrayWire, 0, [[7], []], [[]], [], true)
    requires c' == c.(receiver := Reading(10, [0, 0, 0, 1]), consumed := 4)
    ensures Enabled(c, RecvSome(4)) && Apply(c, RecvSome(4)) == c'
  {
    ReceivesPiece(c, 4, [0, 0, 0, 1]);
    SmallFrame();
  }

  lemma StrayPayload(c: Channel, c': Channel)
    requires c == Channel(Idle, Reading(10, [0, 0, 0, 1]), StrayWire, 4, [[7], []], [[]], [], true)
    requires c' == c.(receiver := Resting, consumed := 5, received := [[0]])
    ensures Enabled(c, RecvSome(1)) && Apply(c, RecvSome(1)) == c'
  {
    ReceivesPiece(c, 1, [0]);
    SmallFrame();
  }

  lemma ReceivesPiece(c: Channel, k: nat, piece: Bytes)
    requires Enabled(c, RecvSome(k)) && c.accepted[c.consumed..c.consumed + k] == piece
    ensures var limit, got := c.receiver.limit, c.receiver.got + piece;
            && (|got| >= 4 ==> |got| <= 4 + DecodeLength(got[..4]))
            && Apply(c, RecvSome(k)) == c.(consumed := c.consumed + k, receiver := Settle(limit, got),
                                           received := c.received + Returned(limit, got))
  {
    PieceFits(c.receiver.got, c.receiver.got + piece);
  }

  lemma SmallFrame()
    ensures Settle(10, [] + [0, 0, 0, 1]) == Reading(10, [0, 0, 0, 1]) && Returned(10, [] + [0, 0, 0, 1]) == []
    ensures Settle(10, [0, 0, 0, 1] + [0]) == Resting && Returned(10, [0, 0, 0, 1] + [0]) == [[0]]
  {
    var h: Bytes := [0, 0, 0, 1];
    assert [] + h == h == h[..4] && (h + [0])[..4] == h && (h + [0])[4..] == [0];
  }

  /** Carrying on after such a failure does deliver a message nobody sent. */
  lemma StrayingCorrupts()
    ensures Executable(Init, StrayRun)
    ensures var c := Execute(Init, StrayRun);
            c.strayed && c.offered == [[7], []] && c.received == [[0]]
  {
    var c3 := Channel(Broken([7], 4), Resting, [0, 0, 0, 1], 0, [[7]], [], [], false);
    var c5 := Channel(Idle, Resting, StrayWire, 0, [[7], []], [[]], [], true);
    StrayFails(c3);
    StrayResumes(c3, c5);
    StrayReceives(c5, c5.(consumed := 5, received := [[0]]));
    ExecuteConcat(Init, StrayRun[..3], StrayRun[3..5]);
    assert StrayRun[..3] + StrayRun[3..5] == StrayRun[..5];
    ExecuteConcat(Init, StrayRun[..5], StrayRun[5..]);
    assert StrayRun[..5] + StrayRun[5..] == StrayRun;
  }

  /** Running two stretches one after the other is running their concatenation. */
  lemma {:induction false} ExecuteConcat(c: Channel, a: seq<Action>, b: seq<Action>)
    requires Executable(c, a) && Executable(Execute(c, a), b)
    ensures Executable(c, a + b) && Execute(c, a + b) == Execute(Execute(c, a), b)
    decreases |a|
  {
    if a == [] {
      assert a + b == b;
    } else {
      ExecuteConcat(Apply(c, a[0]), a[1..], b);
      assert (a + b)[0] == a[0] && (a + b)[1..] == a[1..] + b;
    }
  }

  /** Replays a run through the states it passes. */
  lemma {:induction false} ExecuteFrom(c: Channel, acts: seq<Action>, states: seq<Channel>)
    requires |states| == |acts| > 0
    requires Enabled(c, acts[0]) && states[0] == Apply(c, acts[0])
    requires forall i :: 1 <= i < |acts| ==>
              Enabled(states[i - 1], acts[i]) && states[i] == Apply(states[i - 1], acts[i])
    ensures Executable(c, acts) && Execute(c, acts) == states[|states| - 1]
    decreases |acts|
  {
    if |acts| > 1 {
      ExecuteFrom(states[0], acts[1..], states[1..]);
    } else {
      assert acts[1..] == [];
    }
  }
}
