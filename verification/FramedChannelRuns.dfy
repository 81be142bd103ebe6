/**
 Whole calls as runs of FramedChannel. SendMessage and ReceiveMessage of
 UnixSocketConnection promise how many bytes of a frame a call may have moved
 when it returns; each of those outcomes is a run of the machine by the one
 side that made the call.
*/
module FramedChannelRuns {
  import opened Basics
  import opened Framing
  import opened Seqs
  import opened FramedChannel

  ghost predicate Leads(c: Channel, acts: seq<Action>, d: Channel) {
    Executable(c, acts) && Execute(c, acts) == d
  }

  lemma OneStep(c: Channel, a: Action)
    requires Enabled(c, a)
    ensures Leads(c, [a], Apply(c, a))
  {
    assert Executable(Apply(c, a), []) && Execute(c, [a]) == Execute(Apply(c, a), [a][1..]);
  }

  lemma Next(c: Channel, acts: seq<Action>, d: Channel, a: Action, e: Channel)
    requires Leads(c, acts, d) && Enabled(d, a) && Apply(d, a) == e
    ensures Leads(c, acts + [a], e)
  {
    OneStep(d, a);
    ExecuteConcat(c, acts, [a]);
  }

  /** No send call is in progress, and none has failed part-way through a frame. */
  predicate CanSend(c: Channel) {
    WellFormed(c) && (c.sender.Idle? || (c.sender.Broken? && c.sender.out == 0))
  }

  /** The same for receive calls. */
  predicate CanReceive(c: Channel) {
    WellFormed(c) && (c.receiver.Resting? || c.receiver == Lost([]))
  }

  /**
   The channel after a send call that got `out` bytes of its frame accepted:
   completed if that is all of them, broken otherwise.
  */
  function Sent(c: Channel, m: Message, out: nat): Channel
    requires out <= 4 + |m|
  {
    var d := c.(accepted := c.accepted + Frame(m)[..out]);
    if out == 4 + |m| then d.(sender := Idle, offered := c.offered + [m], completed := c.completed + [m])
    else d.(sender := Broken(m, out), offered := if out == 0 then c.offered else c.offered + [m])
  }

  /** In the middle of such a call. */
  function Sending(c: Channel, m: Message, out: nat): Channel
    requires out < 4 + |m|
  {
    c.(accepted := c.accepted + Frame(m)[..out], sender := Writing(m, out), offered := c.offered + [m])
  }

  lemma SendsPiece(c: Channel, m: Message, out: nat, k: nat)
    requires CanSend(c) && out < 4 + |m| && 1 <= k <= SendLeft(m, out)
    ensures Enabled(Sending(c, m, out), SendSome(k))
    ensures Apply(Sending(c, m, out), SendSome(k)) == if out + k == 4 + |m| then Sent(c, m, out + k)
              else Sending(c, m, out + k)
  {
    Grow(c.accepted, Frame(m), out, out + k);
  }

  lemma StopsSending(c: Channel, m: Message, out: nat)
    requires CanSend(c) && out < 4 + |m|
    ensures Enabled(Sending(c, m, out), SendFail) && Apply(Sending(c, m, out), SendFail) == Sent(c, m, out)
  {
    assert (c.offered + [m])[..|c.offered|] == c.offered;
  }

  /**
   For every message and every number of bytes of its frame there is a send
   call that moves exactly those: a complete one, or one that fails there.
  */
  lemma SendIsARun(c: Channel, m: Message, out: nat) returns (acts: seq<Action>)
    requires CanSend(c) && out <= 4 + |m|
    ensures Leads(c, acts, Sent(c, m, out))
  {
    acts := [CallSend(m)];
    OneStep(c, CallSend(m));
    assert c.accepted + [] == c.accepted;
    var done := 0;
    if out > 0 {
      done := Min(4, out);
      SendsPiece(c, m, 0, done);
      Next(c, acts, Sending(c, m, 0), SendSome(done), if done == 4 + |m| then Sent(c, m, done)
          else Sending(c, m, done));
      acts := acts + [SendSome(done)];
    }
    if out > 4 {
      SendsPiece(c, m, 4, out - 4);
      Next(c, acts, Sending(c, m, 4), SendSome(out - 4), if out == 4 + |m| then Sent(c, m, out)
          else Sending(c, m, out));
      acts := acts + [SendSome(out - 4)];
    }
    if out < 4 + |m| {
      StopsSending(c, m, out);
      Next(c, acts, Sending(c, m, out), SendFail, Sent(c, m, out));
      acts := acts + [SendFail];
    }
  }

  /** The next n bytes the receiver has not consumed. */
  function Piece(c: Channel, n: nat): Bytes
    requires c.consumed + n <= |c.accepted|
  {
    c.accepted[c.consumed..c.consumed + n]
  }

  /** The channel after a receive call that consumed these bytes. */
  function Received(c: Channel, piece: Bytes): Channel {
    var d := c.(consumed := c.consumed + |piece|);
    if HasFrame(piece) then d.(receiver := Resting, received := c.received + [FirstMessage(piece)])
    else d.(receiver := Lost(piece))
  }

  /** In the middle of such a call. */
  function Receiving(c: Channel, limit: nat, n: nat): Channel
    requires c.consumed + n <= |c.accepted|
  {
    c.(consumed := c.consumed + n, receiver := Reading(limit, Piece(c, n)))
  }

  /** Right after the n-th byte: the call goes on, or has returned because of it. */
  function AfterReading(c: Channel, limit: nat, n: nat): Channel
    requires c.consumed + n <= |c.accepted|
  {
    var got := Piece(c, n);
    if HasFrame(got) || (n >= 4 && DecodeLength(got[..4]) > limit) then Received(c, got) else Receiving(c, limit, n)
  }

  lemma SettlesAs(limit: nat, got: Bytes)
    requires Consumable(got, limit)
    ensures |got| >= 4 ==> |got| <= 4 + DecodeLength(got[..4])
    ensures Settle(limit, got) == if HasFrame(got) then Resting
              else if |got| >= 4 && DecodeLength(got[..4]) > limit then Lost(got) else Reading(limit, got)
    ensures Returned(limit, got) == if HasFrame(got) then [FirstMessage(got)] else []
  {
    if HasFrame(got) {
      assert got[4..4 + DecodeLength(got[..4])] == got[4..];
    }
  }

  lemma ReadsPiece(c: Channel, limit: nat, n: nat, k: nat)
    requires CanReceive(c) && c.consumed + n + k <= |c.accepted|
    requires !HasFrame(Piece(c, n)) && 1 <= k <= RecvLeft(Piece(c, n)) && Consumable(Piece(c, n + k), limit)
    ensures Enabled(Receiving(c, limit, n), RecvSome(k))
    ensures Apply(Receiving(c, limit, n), RecvSome(k)) == AfterReading(c, limit, n + k)
  {
    var d, got := Receiving(c, limit, n), Piece(c, n + k);
    var piece := c.accepted[c.consumed + n..c.consumed + n + k];
    Extend(c.accepted, c.consumed, c.consumed + n, c.consumed + n + k);
    assert Piece(c, n) + piece == got;
    SettlesAs(limit, got);
    ReceivesPiece(d, k, piece);
    assert c.received + [] == c.received;
  }

  lemma HeaderStands(c: Channel, n: nat, limit: nat)
    requires 4 < n && c.consumed + n <= |c.accepted| && Consumable(Piece(c, n), limit)
    ensures Piece(c, n)[..4] == Piece(c, 4) == Piece(c, 4)[..4]
    ensures !HasFrame(Piece(c, 4)) && n - 4 <= RecvLeft(Piece(c, 4)) && Consumable(Piece(c, 4), limit)
    ensures AfterReading(c, limit, 4) == Receiving(c, limit, 4)
  {
    assert Piece(c, n)[..4] == Piece(c, 4);
  }

  lemma NothingRead(c: Channel)
    requires c.consumed <= |c.accepted|
    ensures Piece(c, 0) == [] && !HasFrame(Piece(c, 0)) && RecvLeft(Piece(c, 0)) == 4
  {}

  lemma StartsReading(c: Channel, limit: nat)
    requires CanReceive(c)
    ensures Leads(c, [CallReceive(limit)], Receiving(c, limit, 0))
  {
    OneStep(c, CallReceive(limit));
    assert Piece(c, 0) == [];
  }

  lemma ReadsHeader(c: Channel, limit: nat, n: nat)
    requires CanReceive(c) && 4 < n && c.consumed + n <= |c.accepted|
    requires Consumable(Piece(c, n), limit)
    ensures Leads(Receiving(c, limit, 0), [RecvSome(4)], Receiving(c, limit, 4))
  {
    HeaderStands(c, n, limit);
    NothingRead(c);
    ReadsPiece(c, limit, 0, 4);
    OneStep(Receiving(c, limit, 0), RecvSome(4));
  }

  lemma ReadsPayload(c: Channel, limit: nat, n: nat)
    requires CanReceive(c) && 4 < n && c.consumed + n <= |c.accepted|
    requires Consumable(Piece(c, n), limit)
    ensures Leads(Receiving(c, limit, 0), [RecvSome(4)] + [RecvSome(n - 4)], AfterReading(c, limit, n))
  {
    ReadsHeader(c, limit, n);
    HeaderStands(c, n, limit);
    ReadsPiece(c, limit, 4, n - 4);
    assert Apply(Receiving(c, limit, 4), RecvSome(n - 4)) == AfterReading(c, limit, n);
    Next(Receiving(c, limit, 0), [RecvSome(4)], Receiving(c, limit, 4), RecvSome(n - 4), AfterReading(c, limit, n));
  }

  lemma ReadsOn(c: Channel, limit: nat, n: nat) returns (acts: seq<Action>)
    requires CanReceive(c) && 0 < n && c.consumed + n <= |c.accepted|
    requires Consumable(Piece(c, n), limit)
    ensures Leads(Receiving(c, limit, 0), acts, AfterReading(c, limit, n))
  {
    if n > 4 {
      ReadsPayload(c, limit, n);
      acts := [RecvSome(4)] + [RecvSome(n - 4)];
    } else {
      NothingRead(c);
      ReadsPiece(c, limit, 0, n);
      OneStep(Receiving(c, limit, 0), RecvSome(n));
      acts := [RecvSome(n)];
    }
  }

  lemma StopsReading(c: Channel, limit: nat, n: nat)
    requires CanReceive(c) && c.consumed + n <= |c.accepted| && !HasFrame(Piece(c, n))
    ensures Leads(Receiving(c, limit, n), [RecvFail], Received(c, Piece(c, n)))
  {
    OneStep(Receiving(c, limit, n), RecvFail);
  }

  /** For all bytes that a receive call may consume there is one that consumes exactly those. */
  lemma ReceiveIsARun(c: Channel, limit: nat, n: nat) returns (acts: seq<Action>)
    requires CanReceive(c) && c.consumed + n <= |c.accepted|
    requires Consumable(Piece(c, n), limit)
    ensures Leads(c, acts, Received(c, Piece(c, n)))
  {
    acts := [CallReceive(limit)];
    StartsReading(c, limit);
    if n > 0 {
      var reading := ReadsOn(c, limit, n);
      ExecuteConcat(c, acts, reading);
      acts := acts + reading;
    }
    if AfterReading(c, limit, n) == Receiving(c, limit, n) {
      StopsReading(c, limit, n);
      ExecuteConcat(c, acts, [RecvFail]);
      acts := acts + [RecvFail];
    }
  }
}
