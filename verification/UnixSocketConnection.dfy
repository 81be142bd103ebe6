/**
 UnixSocketConnection and the transfer loops of UnixSocket.cpp over one
 connected stream socket.

 `StreamSocket` is the kernel side. The outcome of each system call is taken
 from a finite plan; a plan that has run out means calls that transfer all
 they can. Since a plan may be any sequence, the contracts hold for every run
 with finitely many interrupts, empty wakeups and would-block results.
*/
module UnixSocketConnection {
  import opened Basics
  import opened Framing
  import opened Seqs
  import opened Deadlines

  /** Outcome of one ::send or ::recv. A count outside what the call could move is brought into range. */
  datatype IoOutcome = Moved(count: int) | Interrupted | WouldBlock | Fails | Disconnected

  /** Outcome of one ::poll and how long it took. */
  datatype PollOutcome =
    | Ready(after: nat)
    | Unusable(after: nat)        // only POLLERR, POLLHUP or POLLNVAL
    | EmptyWakeup(after: nat)     // positive result, no bit of interest
    | TimedOut(extra: nat)        // zero, no earlier than the timeout asked for
    | PollInterrupted(after: nat)
    | PollFails(after: nat)

  /** A system call on the descriptor that has been made: a ::poll with its timeout and start, or a ::send or ::recv. */
  datatype Call = Polled(outcome: PollOutcome, timeout: int, start: int) | Transfer(result: IoOutcome)

  datatype Wait = WaitReady | WaitTimedOut | WaitFailed

  /** An outcome after which a blocking transfer loop goes on. */
  predicate Harmless(o: IoOutcome, timed: bool) {
    o.Moved? || o.Interrupted? || (timed && o.WouldBlock?)
  }

  /** No outcome of the plan makes a transfer loop give up. */
  predicate AllHarmless(plan: seq<IoOutcome>, timed: bool) {
    forall i :: 0 <= i < |plan| ==> Harmless(plan[i], timed)
  }

  predicate AllPollsHarmless(polls: seq<PollOutcome>) {
    forall i :: 0 <= i < |polls| ==> polls[i].Ready? || polls[i].EmptyWakeup? || polls[i].PollInterrupted?
  }

  /** From call `from` on every ::send and ::recv comes directly after a ::poll that reported readiness. */
  ghost predicate Paced(calls: seq<Call>, from: nat) {
    forall i :: from <= i < |calls| && calls[i].Transfer? ==>
        from < i && calls[i - 1].Polled? && calls[i - 1].outcome.Ready?
  }

  /** A ::poll asks for all whole milliseconds that are left to the deadline, as far as an int holds them. */
  predicate Punctual(c: Call, deadline: int) {
    c.Polled? ==>
      && 0 <= c.timeout <= INT_MAX
      && c.timeout * NANOS_PER_MILLI <= (if c.start < deadline then deadline - c.start else 0)
      && (c.timeout == INT_MAX || deadline - c.start < (c.timeout + 1) * NANOS_PER_MILLI)
  }

  /** The last of the calls from `from` on is a ::poll that timed out. */
  predicate GaveUp(calls: seq<Call>, from: nat) {
    from < |calls| && calls[|calls| - 1].Polled? && calls[|calls| - 1].outcome.TimedOut?
  }

  /** A call that ends the transfer it belongs to: a wait that comes to nothing, an error, or a closed connection. */
  predicate Stops(c: Call, timed: bool) {
    match c
    case Polled(o, _, _) => o.TimedOut? || o.Unusable? || o.PollFails?
    case Transfer(o) => o.Fails? || o.Disconnected? || (o.WouldBlock? && !timed)
  }

  /** Of the calls from `from` on nothing follows one that stops the transfer; without a deadline none is a ::poll. */
  ghost predicate Heeds(calls: seq<Call>, from: nat, timed: bool) {
    && (forall i :: from <= i < |calls| - 1 ==> !Stops(calls[i], timed))
    && (timed || forall i :: from <= i < |calls| ==> calls[i].Transfer?)
  }

  /** The last of the calls from `from` on is such a call. */
  predicate Stopped(calls: seq<Call>, from: nat, timed: bool) {
    from < |calls| && Stops(calls[|calls| - 1], timed)
  }

  /** One transfer after another: the second begins because the first has not been stopped. */
  lemma HeedsOn(first: seq<Call>, calls: seq<Call>, from: nat, timed: bool)
    requires from <= |first| && first <= calls
    requires Heeds(first, from, timed) && !Stopped(first, from, timed) && Heeds(calls, |first|, timed)
    ensures Heeds(calls, from, timed) && (Stopped(calls, from, timed) <==> Stopped(calls, |first|, timed))
  {}

  /** One wait: ::poll is repeated while it is interrupted or wakes up for nothing, and its last outcome decides. */
  ghost predicate Waited(calls: seq<Call>, w: Wait) {
    && calls != [] && (forall i :: 0 <= i < |calls| ==> calls[i].Polled?)
    && (forall i :: 0 <= i < |calls| - 1 ==> calls[i].outcome.EmptyWakeup? || calls[i].outcome.PollInterrupted?)
    && match calls[|calls| - 1].outcome
       case Ready(_) => w == WaitReady
       case TimedOut(_) => w == WaitTimedOut
       case Unusable(_) => w == WaitFailed
       case PollFails(_) => w == WaitFailed
       case EmptyWakeup(_) => false
       case PollInterrupted(_) => false
  }

  function Clamp(count: int, most: nat): (n: nat)
    requires most > 0
    ensures 1 <= n <= most
  {
    if count < 1 then 1 else if count > most then most else count
  }

  class StreamSocket {
    var sent: Bytes               // bytes accepted from this end so far
    var inbox: Bytes              // every byte the peer will have written to this end
    var taken: nat                // how many of them ::recv has returned
    var plan: seq<IoOutcome>
    var polls: seq<PollOutcome>
    var now: int                  // steady clock, nanoseconds
    var waitStart: int            // clock when the last ::poll was entered
    var calls: seq<Call>          // made on this end so far
    var open: bool

    ghost predicate Valid()
      reads this
    {
      taken <= |inbox|
    }

    /** Nothing in store for the transfer loops makes them fail. */
    predicate Undisturbed(timed: bool)
      reads this
    {
      AllHarmless(plan, timed) && (timed ==> AllPollsHarmless(polls))
    }

    /**
     The calls of a timed transfer, which are those from `from` on, are paced by
     its waits, and none waits for longer than the deadline; if the last wait
     timed out the transfer has failed, less than 1 ms before the smaller of its
     deadline and INT_MAX ms after that wait began.
    */
    ghost predicate Timely(from: nat, ok: bool, deadline: int)
      reads this
    {
      && Paced(calls, from) && (forall i :: from <= i < |calls| ==> Punctual(calls[i], deadline))
      && (GaveUp(calls, from) ==> !ok && now > EarliestGiveUp(waitStart, deadline) - NANOS_PER_MILLI)
    }

    method Poll(timeout: int) returns (outcome: PollOutcome)
      requires Valid() && 0 <= timeout <= INT_MAX
      modifies this`polls, this`now, this`waitStart, this`calls
      ensures waitStart == old(now) <= now
      ensures outcome == if old(polls) == [] then Ready(0) else old(polls)[0]
      ensures polls == if old(polls) == [] then [] else old(polls)[1..]
      ensures calls == old(calls) + [Polled(outcome, timeout, waitStart)]
      ensures outcome.TimedOut? ==> now >= waitStart + timeout * NANOS_PER_MILLI
    {
      waitStart := now;
      if polls == [] {
        calls := calls + [Polled(Ready(0), timeout, now)];
        return Ready(0);
      }
      outcome, polls := polls[0], polls[1..];
      calls := calls + [Polled(outcome, timeout, now)];
      now := now + if outcome.TimedOut? then timeout * NANOS_PER_MILLI + outcome.extra else outcome.after;
    }

    method Send(data: Bytes) returns (outcome: IoOutcome)
      requires Valid() && data != []
      modifies this`sent, this`plan, this`calls
      ensures plan == if old(plan) == [] then [] else old(plan)[1..]
      ensures old(plan) != [] ==>
                (outcome.Moved? <==> old(plan)[0].Moved?) && (!outcome.Moved? ==> outcome == old(plan)[0])
      ensures old(plan) == [] ==> outcome == Moved(|data|)
      ensures outcome.Moved? ==> 1 <= outcome.count <= |data| && sent == old(sent) + data[..outcome.count]
      ensures !outcome.Moved? ==> sent == old(sent)
      ensures calls == old(calls) + [Transfer(outcome)]
    {
      if plan == [] {
        outcome := Moved(|data|);
      } else {
        outcome, plan := plan[0], plan[1..];
      }
      if outcome.Moved? {
        outcome := Moved(Clamp(outcome.count, |data|));
        sent := sent + data[..outcome.count];
      }
      calls := calls + [Transfer(outcome)];
    }

    method Recv(size: nat) returns (outcome: IoOutcome, data: Bytes)
      requires Valid() && size > 0
      modifies this`taken, this`plan, this`calls
      ensures Valid()
      ensures plan == if old(plan) == [] then [] else old(plan)[1..]
      ensures (old(plan) == [] || old(plan)[0].Moved?) ==> (outcome.Moved? <==> old(taken) < |inbox|)
                                                           && (!outcome.Moved? ==> outcome == Disconnected)
      ensures old(plan) != [] && !old(plan)[0].Moved? ==> outcome == old(plan)[0]
      ensures outcome.Moved? ==> 1 <= outcome.count <= size && taken == old(taken) + outcome.count
                                 && data == inbox[old(taken)..taken]
      ensures !outcome.Moved? ==> taken == old(taken) && data == []
      ensures calls == old(calls) + [Transfer(outcome)]
    {
      data := [];
      if plan == [] {
        outcome := Moved(size);
      } else {
        outcome, plan := plan[0], plan[1..];
      }
      if outcome.Moved? {
        var most := if size <= |inbox| - taken then size else |inbox| - taken;
        outcome := if most == 0 then Disconnected else Moved(Clamp(outcome.count, most));
      }
      if outcome.Moved? {
        data := inbox[taken..taken + outcome.count];
        taken := taken + outcome.count;
      }
      calls := calls + [Transfer(outcome)];
    }
  }

  /**
   waitForDescriptor. Every ::poll gets a timeout in 0..INT_MAX (the
   precondition of Poll), and giving up happens less than 1 ms before the
   smaller of the deadline and INT_MAX ms after the last wait began.
  */
  method WaitForDescriptor(s: StreamSocket, deadline: int) returns (w: Wait)
    requires s.Valid()
    modifies s`polls, s`now, s`waitStart, s`calls
    ensures s.now >= old(s.now)
    ensures AllPollsHarmless(old(s.polls)) ==> w == WaitReady && AllPollsHarmless(s.polls)
    ensures old(s.calls) <= s.calls && Waited(s.calls[|old(s.calls)|..], w)
    ensures forall i :: |old(s.calls)| <= i < |s.calls| ==> Punctual(s.calls[i], deadline)
    ensures w == WaitTimedOut ==> s.now > EarliestGiveUp(s.waitStart, deadline) - NANOS_PER_MILLI
  {
    while true
      invariant s.Valid() && s.now >= old(s.now) && old(s.calls) <= s.calls
      invariant forall i :: |old(s.calls)| <= i < |s.calls| ==>
                  && s.calls[i].Polled? && (s.calls[i].outcome.EmptyWakeup? || s.calls[i].outcome.PollInterrupted?)
                  && Punctual(s.calls[i], deadline)
      invariant AllPollsHarmless(old(s.polls)) ==> AllPollsHarmless(s.polls)
      decreases |s.polls|
    {
      var remaining := RemainingMillis(s.now, deadline);
      ghost var start := s.now;
      var outcome := s.Poll(PollTimeout(remaining));
      match outcome
      case Ready(_) => return WaitReady;
      case Unusable(_) => return WaitFailed;
      case TimedOut(_) =>
        TimeoutIsLate(start, deadline, s.now);
        return WaitTimedOut;
      case PollFails(_) => return WaitFailed;
      case EmptyWakeup(_) =>
      case PollInterrupted(_) =>
    }
  }

  /** The wait before a ::send or ::recv, if there is a deadline. */
  method AwaitTurn(s: StreamSocket, deadline: Option<int>) returns (ready: bool)
    requires s.Valid()
    modifies s`polls, s`now, s`waitStart, s`calls
    ensures deadline.None? ==> ready && unchanged(s)
    ensures AllPollsHarmless(old(s.polls)) ==> ready && AllPollsHarmless(s.polls)
    ensures old(s.calls) <= s.calls
    ensures Heeds(s.calls, |old(s.calls)|, deadline.Some?)
    ensures ready <==> !Stopped(s.calls, |old(s.calls)|, deadline.Some?)
    ensures deadline.Some? ==>
              && s.Timely(|old(s.calls)|, ready, deadline.value) && |old(s.calls)| < |s.calls|
              && (ready ==> s.calls[|s.calls| - 1].Polled? && s.calls[|s.calls| - 1].outcome.Ready?)
  {
    if deadline.None? {
      return true;
    }
    var w := WaitForDescriptor(s, deadline.value);
    return w == WaitReady;
  }

  /** One turn of writeAll's loop: the wait, if timed, and one ::send of what is left, of which `count` bytes go out. */
  method WriteTurn(s: StreamSocket, data: Bytes, written: nat, deadline: Option<int>)
    returns (goOn: bool, count: nat)
    requires s.Valid() && written < |data|
    modifies s`sent, s`plan, s`polls, s`now, s`waitStart, s`calls
    ensures written + count <= |data| && s.sent == old(s.sent) + data[written..written + count]
    ensures goOn ==> count > 0 || |s.plan| < |old(s.plan)|
    ensures !goOn ==> count == 0
    ensures old(s.Undisturbed(deadline.Some?)) ==> goOn && s.Undisturbed(deadline.Some?)
    ensures old(s.calls) <= s.calls && (deadline.Some? ==> s.Timely(|old(s.calls)|, goOn, deadline.value))
    ensures Heeds(s.calls, |old(s.calls)|, deadline.Some?)
    ensures goOn <==> !Stopped(s.calls, |old(s.calls)|, deadline.Some?)
  {
    var ready := AwaitTurn(s, deadline);
    if !ready {
      return false, 0;
    }
    var outcome := s.Send(data[written..]);
    if outcome.Interrupted? || (deadline.Some? && outcome.WouldBlock?) {
      return true, 0;
    }
    if !outcome.Moved? {
      return false, 0;
    }
    return true, outcome.count;
  }

  /**
   Both writeAll overloads: with a deadline each ::send is preceded by a wait
   and would-block results are retried.
  */
  method WriteAll(s: StreamSocket, data: Bytes, deadline: Option<int>) returns (ok: bool)
    requires s.Valid()
    modifies s`sent, s`plan, s`polls, s`now, s`waitStart, s`calls
    ensures ok <==> s.sent == old(s.sent) + data
    ensures !ok ==> old(s.sent) <= s.sent < old(s.sent) + data
    ensures old(s.Undisturbed(deadline.Some?)) ==> ok && s.Undisturbed(deadline.Some?)
    ensures old(s.calls) <= s.calls && (deadline.Some? ==> s.Timely(|old(s.calls)|, ok, deadline.value))
    ensures Heeds(s.calls, |old(s.calls)|, deadline.Some?)
    ensures ok <==> !Stopped(s.calls, |old(s.calls)|, deadline.Some?)
  {
    var written := 0;
    while written < |data|
      invariant s.Valid() && written <= |data|
      invariant s.sent == old(s.sent) + data[..written]
      invariant old(s.Undisturbed(deadline.Some?)) ==> s.Undisturbed(deadline.Some?)
      invariant old(s.calls) <= s.calls && (deadline.Some? ==> s.Timely(|old(s.calls)|, true, deadline.value))
      invariant Heeds(s.calls, |old(s.calls)|, deadline.Some?) && !Stopped(s.calls, |old(s.calls)|, deadline.Some?)
      decreases |data| - written, |s.plan|
    {
      ghost var before := s.calls;
      var goOn, count := WriteTurn(s, data, written, deadline);
      HeedsOn(before, s.calls, |old(s.calls)|, deadline.Some?);
      if !goOn {
        return false;
      }
      Assoc(old(s.sent), data[..written], data[written..written + count]);
      assert data[..written] + data[written..written + count] == data[..written + count];
      written := written + count;
    }
    assert data[..written] == data;
    return true;
  }

  /** The first `read` bytes of the buffer are those taken off the stream since `start`, the others are as they were. */
  ghost predicate Filled(buffer: Bytes, was: Bytes, read: nat, inbox: Bytes, start: nat) {
    && |buffer| == |was| && read <= |was| && start + read <= |inbox|
    && (forall i :: 0 <= i < read ==> buffer[i] == inbox[start + i])
    && (forall i :: read <= i < |was| ==> buffer[i] == was[i])
  }

  lemma FilledMeans(buffer: Bytes, was: Bytes, read: nat, inbox: Bytes, start: nat)
    requires Filled(buffer, was, read, inbox, start)
    ensures buffer == inbox[start..start + read] + was[read..]
  {}

  /** One ::recv into the caller's buffer from index `read` on. */
  method RecvInto(s: StreamSocket, buffer: array<byte>, read: nat, ghost was: Bytes, ghost start: nat)
    returns (outcome: IoOutcome, count: nat)
    requires s.Valid() && read < buffer.Length && s.taken == start + read
    requires Filled(buffer[..], was, read, s.inbox, start)
    modifies buffer, s`taken, s`plan, s`calls
    ensures s.Valid() && s.taken == start + read + count && read + count <= buffer.Length
    ensures Filled(buffer[..], was, read + count, s.inbox, start)
    ensures s.plan == if old(s.plan) == [] then [] else old(s.plan)[1..]
    ensures (old(s.plan) == [] || old(s.plan)[0].Moved?) ==>
              (outcome.Moved? <==> old(s.taken) < |s.inbox|) && (!outcome.Moved? ==> outcome == Disconnected)
    ensures old(s.plan) != [] && !old(s.plan)[0].Moved? ==> outcome == old(s.plan)[0]
    ensures outcome.Moved? <==> count > 0
    ensures s.calls == old(s.calls) + [Transfer(outcome)]
  {
    var data;
    outcome, data := s.Recv(buffer.Length - read);
    count := |data|;
    forall i | 0 <= i < |data| {
      buffer[read + i] := data[i];
    }
  }

  /** One turn of readAll's loop: the wait, if timed, and one ::recv of `count` bytes. */
  method ReadTurn(s: StreamSocket, buffer: array<byte>, read: nat, deadline: Option<int>, ghost was: Bytes,
      ghost start: nat)
    returns (goOn: bool, count: nat)
    requires s.Valid() && read < buffer.Length && s.taken == start + read
    requires Filled(buffer[..], was, read, s.inbox, start)
    modifies buffer, s`taken, s`plan, s`polls, s`now, s`waitStart, s`calls
    ensures s.Valid() && s.taken == start + read + count && read + count <= buffer.Length
    ensures Filled(buffer[..], was, read + count, s.inbox, start)
    ensures goOn ==> count > 0 || |s.plan| < |old(s.plan)|
    ensures !goOn ==> count == 0
    ensures old(s.calls) <= s.calls && (deadline.Some? ==> s.Timely(|old(s.calls)|, goOn, deadline.value))
    ensures Heeds(s.calls, |old(s.calls)|, deadline.Some?)
    ensures goOn <==> !Stopped(s.calls, |old(s.calls)|, deadline.Some?)
    ensures old(s.Undisturbed(deadline.Some?)) ==> s.Undisturbed(deadline.Some?) && (goOn || s.taken == |s.inbox|)
  {
    var ready := AwaitTurn(s, deadline);
    if !ready {
      return false, 0;
    }
    var outcome;
    outcome, count := RecvInto(s, buffer, read, was, start);
    if outcome.Interrupted? || (deadline.Some? && outcome.WouldBlock?) {
      return true, count;
    }
    if !outcome.Moved? {
      return false, count;
    }
    return true, count;
  }

  /** Both readAll overloads, filling the buffer in place. `got` is what this call has taken off the stream. */
  method ReadAll(s: StreamSocket, buffer: array<byte>, deadline: Option<int>) returns (ok: bool, ghost got: Bytes)
    requires s.Valid()
    modifies buffer, s`taken, s`plan, s`polls, s`now, s`waitStart, s`calls
    ensures s.Valid() && s.taken == old(s.taken) + |got| && got == s.inbox[old(s.taken)..s.taken]
    ensures |got| <= buffer.Length && (ok <==> |got| == buffer.Length)
    ensures buffer[..] == got + old(buffer[..])[|got|..]
    ensures old(s.Undisturbed(deadline.Some?)) ==>
              s.Undisturbed(deadline.Some?) && (ok <==> old(s.taken) + buffer.Length <= |s.inbox|)
    ensures old(s.calls) <= s.calls && (deadline.Some? ==> s.Timely(|old(s.calls)|, ok, deadline.value))
    ensures Heeds(s.calls, |old(s.calls)|, deadline.Some?)
    ensures ok <==> !Stopped(s.calls, |old(s.calls)|, deadline.Some?)
  {
    ghost var was, start := buffer[..], s.taken;
    ghost var undisturbed := s.Undisturbed(deadline.Some?);
    var read := 0;
    while read < buffer.Length
      invariant s.Valid() && read <= buffer.Length && s.taken == start + read
      invariant Filled(buffer[..], was, read, s.inbox, start)
      invariant undisturbed ==> s.Undisturbed(deadline.Some?)
      invariant old(s.calls) <= s.calls && (deadline.Some? ==> s.Timely(|old(s.calls)|, true, deadline.value))
      invariant Heeds(s.calls, |old(s.calls)|, deadline.Some?) && !Stopped(s.calls, |old(s.calls)|, deadline.Some?)
      decreases buffer.Length - read, |s.plan|
    {
      ghost var before := s.calls;
      var goOn, count := ReadTurn(s, buffer, read, deadline, was, start);
      HeedsOn(before, s.calls, |old(s.calls)|, deadline.Some?);
      if !goOn {
        FilledMeans(buffer[..], was, read, s.inbox, start);
        return false, s.inbox[start..s.taken];
      }
      read := read + count;
    }
    FilledMeans(buffer[..], was, read, s.inbox, start);
    return true, s.inbox[start..s.taken];
  }

  /** A zero-filled buffer of the given size, filled by readAll as far as it gets. */
  method ReadNew(s: StreamSocket, size: nat, deadline: Option<int>) returns (ok: bool, data: Bytes, ghost got: Bytes)
    requires s.Valid()
    modifies s`taken, s`plan, s`polls, s`now, s`waitStart, s`calls
    ensures s.Valid() && s.taken == old(s.taken) + |got| && got == s.inbox[old(s.taken)..s.taken]
    ensures |got| <= size == |data| && (ok <==> |got| == size) && got <= data
    ensures old(s.Undisturbed(deadline.Some?)) ==>
              s.Undisturbed(deadline.Some?) && (ok <==> old(s.taken) + size <= |s.inbox|)
    ensures old(s.calls) <= s.calls && (deadline.Some? ==> s.Timely(|old(s.calls)|, ok, deadline.value))
    ensures Heeds(s.calls, |old(s.calls)|, deadline.Some?)
    ensures ok <==> !Stopped(s.calls, |old(s.calls)|, deadline.Some?)
  {
    var buffer := new byte[size](_ => 0);
    ok, got := ReadAll(s, buffer, deadline);
    data := buffer[..];
  }

  /** Where the first frame lies in what is still to come, once its header is known. */
  lemma FrameAhead(inbox: Bytes, start: nat, header: Bytes)
    requires |header| == 4 && start + 4 <= |inbox| && inbox[start..start + 4] == header
    ensures var rest, size := inbox[start..], DecodeLength(header);
            && rest[..4] == header
            && (HasFrame(rest) <==> start + 4 + size <= |inbox|)
            && (HasFrame(rest) ==> FirstMessage(rest) == inbox[start + 4..start + 4 + size])
  {
    assert inbox[start..][..4] == header;
  }

  /** What has been consumed once a header and some of its payload have been read. */
  lemma FrameConsumed(inbox: Bytes, start: nat, header: Bytes, body: Bytes)
    requires |header| == 4 && start + 4 + |body| <= |inbox| && |body| <= DecodeLength(header)
    requires inbox[start..start + 4] == header && inbox[start + 4..start + 4 + |body|] == body
    ensures var consumed := inbox[start..start + 4 + |body|];
            && consumed[..4] == header
            && (HasFrame(consumed) <==> |body| == DecodeLength(header))
            && (|body| == DecodeLength(header) ==> consumed == Frame(body))
  {
    Extend(inbox, start, start + 4, start + 4 + |body|);
    HeaderRoundTrip(header);
  }

  /** The second half of receiveMessage, once the header at `start` has been read: its payload. */
  method ReceivePayload(s: StreamSocket, header: Bytes, deadline: Option<int>, ghost start: nat)
    returns (ok: bool, message: Bytes)
    requires s.Valid() && |header| == 4 && DecodeLength(header) > 0
    requires s.taken == start + 4 && s.inbox[start..start + 4] == header
    modifies s`taken, s`plan, s`polls, s`now, s`waitStart, s`calls
    ensures s.Valid() && s.taken >= start + 4
    ensures |s.inbox[start..s.taken]| >= 4 && s.inbox[start..s.taken][..4] == header
    ensures ok <==> HasFrame(s.inbox[start..s.taken])
    ensures ok ==> |message| == DecodeLength(header) && s.inbox[start..s.taken] == Frame(message)
    ensures Consumable(s.inbox[start..s.taken], DecodeLength(header))
    ensures old(s.Undisturbed(deadline.Some?)) ==>
              s.Undisturbed(deadline.Some?) && (ok <==> start + 4 + DecodeLength(header) <= |s.inbox|)
    ensures ok ==> message == s.inbox[start + 4..s.taken] && s.taken == start + 4 + DecodeLength(header)
    ensures old(s.calls) <= s.calls && (deadline.Some? ==> s.Timely(|old(s.calls)|, ok, deadline.value))
    ensures Heeds(s.calls, |old(s.calls)|, deadline.Some?)
    ensures ok <==> !Stopped(s.calls, |old(s.calls)|, deadline.Some?)
  {
    ghost var got;
    ok, message, got := ReadNew(s, DecodeLength(header), deadline);
    FrameConsumed(s.inbox, start, header, got);
  }

  /** What receiveMessage does once its arguments are checked: header, size check, payload. */
  method ReceiveFrame(s: StreamSocket, maxSize: nat, deadline: Option<int>) returns (ok: bool, message: Bytes)
    requires s.Valid()
    modifies s`taken, s`plan, s`polls, s`now, s`waitStart, s`calls
    ensures s.Valid() && old(s.taken) <= s.taken
    ensures ok ==> |message| <= maxSize && |message| <= UINT32_MAX
                   && s.inbox[old(s.taken)..s.taken] == Frame(message)
    ensures !ok ==>
              var consumed := s.inbox[old(s.taken)..s.taken];
              && !HasFrame(consumed) && Consumable(consumed, maxSize)
              && (|consumed| >= 4 && DecodeLength(consumed[..4]) > maxSize ==> message == [])
    ensures old(s.Undisturbed(deadline.Some?)) ==>
              var rest := s.inbox[old(s.taken)..];
              && s.Undisturbed(deadline.Some?)
              && (ok <==> HasFrame(rest) && |FirstMessage(rest)| <= maxSize)
              && (ok ==> message == FirstMessage(rest))
    ensures old(s.calls) <= s.calls && (deadline.Some? ==> s.Timely(|old(s.calls)|, ok, deadline.value))
    ensures Heeds(s.calls, |old(s.calls)|, deadline.Some?)
    ensures var consumed := s.inbox[old(s.taken)..s.taken];
            ok <==> !Stopped(s.calls, |old(s.calls)|, deadline.Some?)
                    && !(|consumed| >= 4 && DecodeLength(consumed[..4]) > maxSize)
  {
    message := [];
    ghost var start := s.taken;
    var header;
    ghost var got;
    ok, header, got := ReadNew(s, 4, deadline);
    if !ok {
      return false, message;
    }
    FrameAhead(s.inbox, start, header);
    FrameConsumed(s.inbox, start, header, []);
    var size := DecodeLength(header);
    if size > maxSize {
      return false, message;
    }
    if size == 0 {
      return true, message;
    }
    ghost var before := s.calls;
    ok, message := ReceivePayload(s, header, deadline, start);
    HeedsOn(before, s.calls, |old(s.calls)|, deadline.Some?);
  }

  /** UnixSocketConnection. `socket` is the descriptor, null standing for -1. */
  class UnixSocketConnection {
    var socket: StreamSocket?

    constructor (socket: StreamSocket?)
      ensures this.socket == socket
    {
      this.socket := socket;
    }

    predicate IsOpen()
      reads this
    {
      socket != null
    }

    ghost function Owned(): set<object>
      reads this
    {
      if socket == null then {} else {socket}
    }

    /** The checks made before the stream is touched. */
    predicate Refuses(message: Bytes, timeout: Option<int>)
      reads this
    {
      !IsOpen() || (timeout.Some? && timeout.value < 0) || |message| > UINT32_MAX
    }

    /**
     Both sendMessage overloads: true exactly when the whole frame went out,
     otherwise a strict prefix of it, possibly empty.
    */
    method SendMessage(message: Bytes, timeout: Option<int>) returns (ok: bool)
      requires socket != null ==> socket.Valid()
      modifies Owned()
      ensures socket != null ==> unchanged(socket`inbox, socket`taken, socket`open)
      ensures Refuses(message, timeout) ==> !ok && (socket != null ==> unchanged(socket))
      ensures !Refuses(message, timeout) ==> (ok <==> socket.sent == old(socket.sent) + Frame(message))
      ensures !Refuses(message, timeout) && !ok ==> old(socket.sent) <= socket.sent < old(socket.sent) + Frame(message)
      ensures !Refuses(message, timeout) && old(socket.Undisturbed(timeout.Some?)) ==>
                ok && socket.Undisturbed(timeout.Some?)
      ensures !Refuses(message, timeout) ==>
                && Heeds(socket.calls, |old(socket.calls)|, timeout.Some?)
                && (ok <==> !Stopped(socket.calls, |old(socket.calls)|, timeout.Some?))
      ensures !Refuses(message, timeout) && timeout.Some? ==>
                socket.Timely(|old(socket.calls)|, ok, old(socket.now) + timeout.value * NANOS_PER_MILLI)
    {
      if !IsOpen() {
        return false;
      }
      if timeout.Some? && timeout.value < 0 {
        return false;
      }
      if |message| > UINT32_MAX {
        return false;
      }
      var deadline := if timeout.Some? then Some(socket.now + timeout.value * NANOS_PER_MILLI) else None;
      var size := EncodeLength(|message|);
      Assoc(socket.sent, size, message);
      ok := WriteAll(socket, size, deadline);
      if ok {
        ghost var before := socket.calls;
        ok := WriteAll(socket, message, deadline);
        HeedsOn(before, socket.calls, |old(socket.calls)|, deadline.Some?);
      }
    }

    /**
     Both receiveMessage overloads. Success consumes exactly one frame, which
     is the message. Failure never consumes a whole frame: it stops at the
     header if that announces more than maxSize bytes.
    */
    method ReceiveMessage(maxSize: nat, timeout: Option<int>) returns (ok: bool, message: Bytes)
      requires socket != null ==> socket.Valid()
      modifies Owned()
      ensures socket != null ==> socket.Valid() && old(socket.taken) <= socket.taken
                                 && unchanged(socket`inbox, socket`sent, socket`open)
      ensures Refuses([], timeout) ==> !ok && message == [] && (socket != null ==> unchanged(socket))
      ensures ok ==> |message| <= maxSize && |message| <= UINT32_MAX
                     && socket.inbox[old(socket.taken)..socket.taken] == Frame(message)
      ensures !ok && socket != null ==>
                var consumed := socket.inbox[old(socket.taken)..socket.taken];
                && !HasFrame(consumed) && Consumable(consumed, maxSize)
                && (|consumed| >= 4 && DecodeLength(consumed[..4]) > maxSize ==> message == [])
      ensures !Refuses([], timeout) && old(socket.Undisturbed(timeout.Some?)) ==>
                var rest := socket.inbox[old(socket.taken)..];
                && socket.Undisturbed(timeout.Some?)
                && (ok <==> HasFrame(rest) && |FirstMessage(rest)| <= maxSize)
                && (ok ==> message == FirstMessage(rest))
      ensures !Refuses([], timeout) ==>
                var consumed := socket.inbox[old(socket.taken)..socket.taken];
                && Heeds(socket.calls, |old(socket.calls)|, timeout.Some?)
                && (ok <==> !Stopped(socket.calls, |old(socket.calls)|, timeout.Some?)
                            && !(|consumed| >= 4 && DecodeLength(consumed[..4]) > maxSize))
      ensures !Refuses([], timeout) && timeout.Some? ==>
                socket.Timely(|old(socket.calls)|, ok, old(socket.now) + timeout.value * NANOS_PER_MILLI)
    {
      message := [];
      if !IsOpen() {
        return false, message;
      }
      if timeout.Some? && timeout.value < 0 {
        return false, message;
      }
      var deadline := if timeout.Some? then Some(socket.now + timeout.value * NANOS_PER_MILLI) else None;
      ok, message := ReceiveFrame(socket, maxSize, deadline);
    }

    method Close()
      modifies this, Owned()
      ensures socket == null
      ensures old(socket) != null ==>
                !old(socket).open && unchanged(old(socket)`sent, old(socket)`inbox, old(socket)`taken)
    {
      if socket != null {
        socket.open := false;
        socket := null;
      }
    }

    /** Move assignment; the self-move leaves everything as it is. */
    method MoveFrom(other: UnixSocketConnection)
      requires other == this || socket == null || socket != other.socket
      modifies this, other, Owned()
      ensures other == this ==> unchanged(this) && (socket != null ==> unchanged(socket))
      ensures other != this ==> socket == old(other.socket) && other.socket == null
      ensures other != this && old(socket) != null ==> !old(socket).open
      ensures other != this && socket != null ==> unchanged(socket)
    {
      if this != other {
        Close();
        socket := other.socket;
        other.socket := null;
      }
    }
  }
}
