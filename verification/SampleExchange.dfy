/**
 A client of the sample IPC server and the server's listener on one connection,
 as a state machine over the system calls of both: the client sends its request
 and then waits for the response, the listener receives the request and then
 sends the prefixed reply. The two directions are channels of FramedChannel, so
 that all four transfers may overlap in any way and break into any pieces.
*/
module SampleExchange {
  import opened Basics
  import opened Framing
  import opened Seqs
  import C = FramedChannel
  import opened SampleIpc

  datatype Exchange = Exchange(up: C.Channel, down: C.Channel)

  datatype Action = Up(step: C.Action) | Down(step: C.Action)

  const Start := Exchange(C.Init, C.Init)

  /** Each side makes its two calls in their order, once, and gives up when one fails. */
  predicate Enabled(x: Exchange, act: Action, request: Message) {
    match act
    case Up(a) =>
      && C.Enabled(x.up, a)
      && (a.CallSend? ==> a.payload == request && x.up.sender.Idle? && x.up.offered == [])
      && (a.CallReceive? ==> a.maxSize == LIMIT && x.up.receiver.Resting? && x.up.received == [])
    case Down(a) =>
      && C.Enabled(x.down, a)
      && (a.CallSend? ==>
            x.up.received != [] && a.payload == Reply(x.up.received[0]) && x.down.sender.Idle? && x.down.offered == [])
      && (a.CallReceive? ==>
            && a.maxSize == LIMIT && x.down.receiver.Resting? && x.down.received == []
            && x.up.sender.Idle? && x.up.completed != [])
  }

  function Apply(x: Exchange, act: Action, request: Message): Exchange
    requires Enabled(x, act, request)
  {
    match act
    case Up(a) => x.(up := C.Apply(x.up, a))
    case Down(a) => x.(down := C.Apply(x.down, a))
  }

  predicate Executable(x: Exchange, acts: seq<Action>, request: Message)
    decreases |acts|
  {
    acts == [] || (Enabled(x, acts[0], request) && Executable(Apply(x, acts[0], request), acts[1..], request))
  }

  function Execute(x: Exchange, acts: seq<Action>, request: Message): Exchange
    requires Executable(x, acts, request)
    decreases |acts|
  {
    if acts == [] then x else Execute(Apply(x, acts[0], request), acts[1..], request)
  }

  // ----- What every step keeps -----

  /** A channel that carries at most this one message, read with the samples' limit. */
  ghost predicate Single(c: C.Channel, m: Message) {
    && C.Inv(c) && !c.strayed && (c.offered == [] || c.offered == [m])
    && (c.receiver.Reading? ==> c.receiver.limit == LIMIT && c.received == [])
    && (c.received != [] ==> |m| <= LIMIT)
  }

  lemma SingleReceives(c: C.Channel, m: Message)
    requires Single(c, m)
    ensures (c.received == [] || c.received == [m]) && (c.completed == [] || c.completed == [m])
    ensures c.accepted <= Frame(m) && c.consumed <= |c.accepted|
    ensures c.sender.Writing? ==> c.offered == [m] && c.completed == [] && c.sender.message == m
    ensures c.completed == [m] ==> c.accepted == Frame(m)
  {
    C.AlignedDelivers(c);
    SingleFrame(m);
    assert Frames([]) == [];
    if c.completed == [m] {
      assert c.accepted == Frame(m) + [] == Frame(m);
    } else {
      assert c.accepted == [] + C.Unfinished(c.sender) == C.Unfinished(c.sender);
    }
  }

  lemma SingleFrame(m: Message)
    ensures Frames([m]) == Frame(m)
  {
    assert Frame(m) + Frames([]) == Frame(m);
  }

  /** The steps a channel takes in an exchange about m. */
  predicate Takes(c: C.Channel, a: C.Action, m: Message) {
    && C.Enabled(c, a)
    && (a.CallSend? ==> a.payload == m && c.sender.Idle? && c.offered == [])
    && (a.CallReceive? ==> a.maxSize == LIMIT && c.receiver.Resting? && c.received == [])
  }

  /** What has been read of a frame and not returned is what has been consumed. */
  lemma GotIsConsumed(c: C.Channel, m: Message)
    requires Single(c, m) && c.receiver.Reading?
    ensures c.accepted[..c.consumed] == c.receiver.got
  {
    assert c.accepted[..c.consumed] == Frames([]) + c.receiver.got == c.receiver.got;
  }

  /** Whatever has been read of a frame, a complete header in it announces the message. */
  lemma HeaderDecides(c: C.Channel, k: nat, m: Message)
    requires Single(c, m) && C.Enabled(c, C.RecvSome(k))
    ensures var got := c.receiver.got + c.accepted[c.consumed..c.consumed + k];
            got == c.accepted[..c.consumed + k] && got <= Frame(m) && (|got| >= 4 ==> DecodeLength(got[..4]) == |m|)
  {
    SingleReceives(c, m);
    GotIsConsumed(c, m);
    ReadIsPrefix(c.accepted, c.consumed, k, Frame(m));
    HeaderOf(m, c.accepted[..c.consumed + k]);
  }

  lemma ReadIsPrefix(s: Bytes, consumed: nat, k: nat, f: Bytes)
    requires consumed + k <= |s| && s <= f
    ensures s[..consumed] + s[consumed..consumed + k] == s[..consumed + k] && s[..consumed + k] <= f
  {}

  lemma HeaderOf(m: Message, part: Bytes)
    requires part <= Frame(m)
    ensures |part| >= 4 ==> DecodeLength(part[..4]) == |m|
  {
    if |part| >= 4 {
      assert part[..4] == Frame(m)[..4] == EncodeLength(|m|);
      LengthRoundTrip(|m|);
    }
  }

  lemma LimitKeepsReading(c: C.Channel, k: nat, m: Message)
    requires Single(c, m) && C.Enabled(c, C.RecvSome(k)) && |m| <= LIMIT
    ensures !C.Apply(c, C.RecvSome(k)).receiver.Lost?
  {
    HeaderDecides(c, k, m);
  }

  lemma ReceiveKeepsSingle(c: C.Channel, k: nat, m: Message)
    requires Single(c, m) && C.Enabled(c, C.RecvSome(k))
    ensures var d := C.Apply(c, C.RecvSome(k));
            && (d.receiver.Reading? ==> d.receiver.limit == LIMIT && d.received == [])
            && (d.received != [] ==> |m| <= LIMIT)
            && !d.strayed && d.offered == c.offered
  {
    HeaderDecides(c, k, m);
    C.ReceivesPiece(c, k, c.accepted[c.consumed..c.consumed + k]);
  }

  lemma StepKeepsSingle(c: C.Channel, a: C.Action, m: Message)
    requires Single(c, m) && Takes(c, a, m)
    ensures Single(C.Apply(c, a), m)
  {
    C.StepKeepsInv(c, a);
    if a.RecvSome? {
      ReceiveKeepsSingle(c, a.size, m);
    }
  }

  /** What the server replies with if it gets the request at all. */
  function Answer(request: Message): Message {
    if |request| <= LIMIT then Reply(request) else []
  }

  /** Up goes the request, down its answer, and nothing goes down before the request has been received. */
  ghost predicate Inv(x: Exchange, request: Message) {
    Single(x.up, request) && Single(x.down, Answer(request)) && (x.down.offered != [] ==> x.up.received != [])
  }

  lemma StepKeepsInv(x: Exchange, act: Action, request: Message)
    requires Inv(x, request) && Enabled(x, act, request)
    ensures Inv(Apply(x, act, request), request)
  {
    SingleReceives(x.up, request);
    match act
    case Up(a) =>
      StepKeepsSingle(x.up, a, request);
      ReceivedStays(x.up, a);
    case Down(a) => StepKeepsSingle(x.down, a, Answer(request));
  }

  lemma ReceivedStays(c: C.Channel, a: C.Action)
    requires C.Enabled(c, a)
    ensures c.received <= C.Apply(c, a).received
  {}

  lemma {:induction false} RunKeepsInv(x: Exchange, acts: seq<Action>, request: Message)
    requires Inv(x, request) && Executable(x, acts, request)
    ensures Inv(Execute(x, acts, request), request)
    decreases |acts|
  {
    if acts != [] {
      StepKeepsInv(x, acts[0], request);
      RunKeepsInv(Apply(x, acts[0], request), acts[1..], request);
    }
  }

  // ----- Main results -----

  /**
   In every run, whatever overlaps, breaks up, fails or times out: all the
   client can get is the prefixed request, and that only for requests of at most
   65536 - 18 = 65518 bytes.
  */
  lemma OnlyPrefixedReplies(acts: seq<Action>, request: Message)
    requires Executable(Start, acts, request)
    ensures var x := Execute(Start, acts, request);
            x.down.received != [] ==> x.down.received == [PREFIX + request] && |request| <= 65518
  {
    RunKeepsInv(Start, acts, request);
    var x := Execute(Start, acts, request);
    SingleReceives(x.up, request);
    SingleReceives(x.down, Answer(request));
    if x.down.received != [] {
      C.AlignedDelivers(x.down);
    }
  }

  /** Neither side's limit ever makes a receive fail on a request of at most 65518 bytes. */
  lemma LimitsDoNotFail(acts: seq<Action>, request: Message, act: Action)
    requires Executable(Start, acts, request) && |request| <= 65518
    requires Enabled(Execute(Start, acts, request), act, request) && act.step.RecvSome?
    ensures var x := Apply(Execute(Start, acts, request), act, request);
            if act.Up? then !x.up.receiver.Lost? else !x.down.receiver.Lost?
  {
    RunKeepsInv(Start, acts, request);
    var x := Execute(Start, acts, request);
    match act
    case Up(a) => LimitKeepsReading(x.up, a.size, request);
    case Down(a) => LimitKeepsReading(x.down, a.size, Answer(request));
  }

  // ----- Undisturbed runs -----

  predicate Failing(act: Action) {
    act.step.SendFail? || act.step.RecvFail?
  }

  predicate NoneFails(acts: seq<Action>) {
    acts == [] || (!Failing(acts[0]) && NoneFails(acts[1..]))
  }

  /** A step that gets the exchange further. */
  predicate Productive(act: Action) {
    act.step.CallSend? || act.step.CallReceive? || act.step.SendSome? || act.step.RecvSome?
  }

  /** No call on either channel has failed. */
  predicate Unfailed(c: C.Channel) {
    !c.sender.Broken? && !c.receiver.Lost?
  }

  /** What is still to be done on a channel for a message of n bytes: calls, and bytes to send and to receive. */
  function Todo(c: C.Channel, n: nat): int {
    (if c.offered == [] then 1 else 0) + (if c.receiver.Resting? && c.received == [] then 1 else 0)
    + (4 + n - |c.accepted|) + (4 + n - c.consumed)
  }

  lemma TodoIsNatural(c: C.Channel, m: Message)
    requires Single(c, m)
    ensures Todo(c, |m|) >= 0
  {
    SingleReceives(c, m);
  }

  lemma TodoFalls(c: C.Channel, a: C.Action, n: nat)
    requires C.Enabled(c, a) && (a.CallSend? || a.CallReceive? || a.SendSome? || a.RecvSome?)
    requires a.CallSend? ==> c.offered == [] && |a.payload| <= UINT32_MAX
    requires a.CallReceive? ==> c.receiver.Resting? && c.received == []
    ensures Todo(C.Apply(c, a), n) < Todo(c, n)
  {
    var d := C.Apply(c, a);
    match a
    case SendSome(k) => assert |d.accepted| == |c.accepted| + k;
    case RecvSome(k) =>
      C.ReceivesPiece(c, k, c.accepted[c.consumed..c.consumed + k]);
      assert d.consumed == c.consumed + k;
      ReceivedOrReading(c, k);
    case CallSend(_) =>
    case CallReceive(_) =>
  }

  lemma ReceivedOrReading(c: C.Channel, k: nat)
    requires C.Enabled(c, C.RecvSome(k))
    ensures var d := C.Apply(c, C.RecvSome(k)); !d.receiver.Resting? || d.received != []
  {}

  function Remaining(x: Exchange, request: Message): int {
    Todo(x.up, |request|) + Todo(x.down, |Answer(request)|)
  }

  /** Every productive step brings the end of the exchange closer. */
  lemma RemainingFalls(x: Exchange, act: Action, request: Message)
    requires Inv(x, request) && Enabled(x, act, request) && Productive(act)
    ensures 0 <= Remaining(Apply(x, act, request), request) < Remaining(x, request)
  {
    RemainingIsNatural(x, act, request);
    SingleReceives(x.up, request);
    match act
    case Up(a) => TodoFalls(x.up, a, |request|);
    case Down(a) => TodoFalls(x.down, a, |Answer(request)|);
  }

  lemma RemainingIsNatural(x: Exchange, act: Action, request: Message)
    requires Inv(x, request) && Enabled(x, act, request)
    ensures Remaining(Apply(x, act, request), request) >= 0
  {
    var y := Apply(x, act, request);
    StepKeepsInv(x, act, request);
    TodoIsNatural(y.up, request);
    TodoIsNatural(y.down, Answer(request));
  }

  /** A receiver in the middle of a frame that has been sent can read on. */
  lemma CanReadOn(c: C.Channel, m: Message)
    requires Single(c, m) && c.receiver.Reading? && c.completed == [m]
    ensures C.Enabled(c, C.RecvSome(1))
  {
    SingleReceives(c, m);
    WholeStream(m);
    GotIsConsumed(c, m);
    assert c.accepted[..|c.accepted|] == c.accepted;
  }

  /** On a channel on which nothing has failed the next step towards delivering m, if there is one to take. */
  function NextOn(c: C.Channel, m: Message): C.Action {
    if c.sender.Writing? then C.SendSome(1)
    else if c.offered == [] then C.CallSend(m)
    else if c.receiver.Reading? then C.RecvSome(1)
    else C.CallReceive(LIMIT)
  }

  lemma NextIsTaken(c: C.Channel, m: Message)
    requires Single(c, m) && Unfailed(c) && c.received == []
    ensures Takes(c, NextOn(c, m), m)
  {
    SingleReceives(c, m);
    if c.receiver.Reading? && c.completed == [m] {
      CanReadOn(c, m);
    }
  }

  /** The next step of an exchange in which nothing has failed. */
  function NextStep(x: Exchange, request: Message): Action {
    if x.up.received == [] then Up(NextOn(x.up, request)) else Down(NextOn(x.down, Answer(request)))
  }

  lemma NextIsEnabled(x: Exchange, request: Message)
    requires Inv(x, request) && Unfailed(x.up) && Unfailed(x.down) && x.down.received == []
    ensures Enabled(x, NextStep(x, request), request) && Productive(NextStep(x, request))
  {
    SingleReceives(x.up, request);
    if x.up.received == [] {
      NextIsTaken(x.up, request);
    } else {
      NextIsTaken(x.down, Answer(request));
      ReceivedIsSent(x.up, request);
    }
  }

  /** A message that has been received has been sent completely. */
  lemma ReceivedIsSent(c: C.Channel, m: Message)
    requires Single(c, m) && c.received == [m] && Unfailed(c)
    ensures c.sender.Idle? && c.completed == [m]
  {
    SingleReceives(c, m);
    SingleFrame(m);
    assert |c.accepted[..c.consumed]| >= |Frames([m])|;
  }

  lemma StepFailsNot(c: C.Channel, a: C.Action, m: Message)
    requires Single(c, m) && Takes(c, a, m) && Unfailed(c) && |m| <= LIMIT && !a.SendFail? && !a.RecvFail?
    ensures Unfailed(C.Apply(c, a))
  {
    if a.RecvSome? {
      LimitKeepsReading(c, a.size, m);
    }
  }

  /** Only a failing step, or the limit, makes a call fail. */
  lemma {:induction false} UnfailedRun(x: Exchange, acts: seq<Action>, request: Message)
    requires Inv(x, request) && Executable(x, acts, request) && |request| <= 65518
    requires Unfailed(x.up) && Unfailed(x.down) && NoneFails(acts)
    ensures var y := Execute(x, acts, request); Unfailed(y.up) && Unfailed(y.down)
    decreases |acts|
  {
    if acts != [] {
      var y, rest := Apply(x, acts[0], request), acts[1..];
      UnfailedStep(x, acts[0], request);
      StepKeepsInv(x, acts[0], request);
      UnfailedRun(y, rest, request);
    }
  }

  lemma UnfailedStep(x: Exchange, act: Action, request: Message)
    requires Inv(x, request) && Enabled(x, act, request) && |request| <= 65518
    requires Unfailed(x.up) && Unfailed(x.down) && !Failing(act)
    ensures var y := Apply(x, act, request); Unfailed(y.up) && Unfailed(y.down)
  {
    SingleReceives(x.up, request);
    match act
    case Up(a) => StepFailsNot(x.up, a, request);
    case Down(a) => StepFailsNot(x.down, a, Answer(request));
  }

  /**
   For requests of at most 65518 bytes an exchange that no error disturbs cannot
   get stuck before it has succeeded: in every state it reaches, the response
   has been received or some step gets it further, and RemainingFalls bounds the
   number of those.
  */
  lemma UndisturbedSucceeds(acts: seq<Action>, request: Message)
    requires Executable(Start, acts, request) && |request| <= 65518
    requires NoneFails(acts)
    ensures var x := Execute(Start, acts, request);
            x.down.received == [PREFIX + request] || exists act :: Productive(act) && Enabled(x, act, request)
  {
    RunKeepsInv(Start, acts, request);
    UnfailedRun(Start, acts, request);
    OnlyPrefixedReplies(acts, request);
    var x := Execute(Start, acts, request);
    if x.down.received == [] {
      NextIsEnabled(x, request);
    }
  }
}
