/** MessageQueueEventBus: events as "topic newline payload" messages of priority 0 on one queue. */
module EventBus {
  import opened Basics
  import opened Deadlines
  import opened MessageQueue
  import opened Seqs

  const NEWLINE: byte := 10

  datatype Event = Event(topic: Bytes, payload: Bytes)

  predicate ValidTopic(topic: Bytes) {
    topic != [] && NEWLINE !in topic
  }

  function EncodeEvent(e: Event): (r: Option<Bytes>)
    ensures r.Some? <==> ValidTopic(e.topic)
  {
    if e.topic == [] then None
    else if NEWLINE in e.topic then None
    else Some(e.topic + [NEWLINE] + e.payload)
  }

  function DecodeEvent(encoded: Bytes): (r: Option<Event>) {
    var separator := Find(encoded, NEWLINE);
    if separator.None? || separator.value == 0 then None
    else Some(Event(encoded[..separator.value], encoded[separator.value + 1..]))
  }

  /** Decoding gives back every event that can be published, newlines in the payload included. */
  lemma DecodeEncode(e: Event)
    requires ValidTopic(e.topic)
    ensures DecodeEvent(EncodeEvent(e).value) == Some(e)
  {
    FindAfter(e.topic, NEWLINE, e.payload);
    var s := e.topic + [NEWLINE] + e.payload;
    assert s[..|e.topic|] == e.topic && s[|e.topic| + 1..] == e.payload;
  }

  /** What decodes is the encoding of a publishable event, and of no other. */
  lemma EncodeDecode(s: Bytes)
    ensures DecodeEvent(s).Some? <==> exists e: Event :: EncodeEvent(e) == Some(s)
    ensures DecodeEvent(s).Some? ==> EncodeEvent(DecodeEvent(s).value) == Some(s)
  {
    if DecodeEvent(s).Some? {
      var i := Find(s, NEWLINE).value;
      assert s == s[..i] + [NEWLINE] + s[i + 1..];
      assert EncodeEvent(DecodeEvent(s).value) == Some(s);
    }
    forall e: Event | EncodeEvent(e) == Some(s)
      ensures DecodeEvent(s) == Some(e)
    {
      DecodeEncode(e);
    }
  }

  /** The wire form: topic, a byte 10, payload; the topic not empty and without that byte. */
  ghost predicate WireForm(s: Bytes, e: Event) {
    s == e.topic + [10] + e.payload && e.topic != [] && 10 !in e.topic
  }

  /** Both directions accept exactly that. */
  lemma WireFormExact(s: Bytes, e: Event)
    ensures EncodeEvent(e) == Some(s) <==> WireForm(s, e)
    ensures DecodeEvent(s) == Some(e) <==> WireForm(s, e)
    ensures EncodeEvent(e) == None <==> e.topic == [] || 10 in e.topic
  {
    if WireForm(s, e) {
      DecodeEncode(e);
    }
    if DecodeEvent(s) == Some(e) {
      EncodeDecode(s);
    }
  }

  // ----- One queue, many publishers and receivers -----

  datatype Bus = Bus(queue: Queue, published: seq<Event>, received: seq<Event>)

  /** A call of any handle on the bus; `room` and `works` are the handle's size limit and the kernel's answer. */
  datatype Action =
    | Publish(event: Event, limit: nat, works: bool)
    | Receive(limit: nat, works: bool)

  /** The queue changes exactly as in SendMessage and ReceiveMessage of PosixMessageQueue. */
  function Apply(b: Bus, a: Action): Bus {
    match a
    case Publish(e, limit, works) =>
      var encoded := EncodeEvent(e);
      if encoded.None? || |encoded.value| > limit || !works || !CanAccept(b.queue, |encoded.value|) then b
      else
        b.(queue := b.queue.(items := Insert(b.queue.items, Item(0, encoded.value))), published := b.published + [e])
    case Receive(limit, works) =>
      if !works || b.queue.items == [] || limit < b.queue.messageSize then b
      else
        b.(queue := b.queue.(items := b.queue.items[1..]), received := b.received + EventOf(b.queue.items[0]))
  }

  function Execute(b: Bus, acts: seq<Action>): Bus
    decreases |acts|
  {
    if acts == [] then b else Execute(Apply(b, acts[0]), acts[1..])
  }

  /** The event a queued message stands for, if it decodes. */
  function EventOf(x: Item): seq<Event> {
    var e := DecodeEvent(x.body);
    if e.Some? then [e.value] else []
  }

  /** The events still queued, oldest first. */
  function Pending(items: seq<Item>): seq<Event> {
    if items == [] then [] else EventOf(items[0]) + Pending(items[1..])
  }

  predicate BusSound(b: Bus) {
    && (forall i :: 0 <= i < |b.queue.items| ==>
          b.queue.items[i].priority == 0 && DecodeEvent(b.queue.items[i].body).Some?)
    && b.received + Pending(b.queue.items) == b.published
    && |b.queue.items| <= b.queue.capacity
  }

  lemma {:induction false} PendingAppend(items: seq<Item>, x: Item)
    ensures Pending(items + [x]) == Pending(items) + EventOf(x)
  {
    if items == [] {
      assert items + [x] == [x] && Pending([x]) == EventOf(x) + Pending([]);
    } else {
      PendingAppend(items[1..], x);
      assert (items + [x])[0] == items[0] && (items + [x])[1..] == items[1..] + [x];
      Assoc(EventOf(items[0]), Pending(items[1..]), EventOf(x));
    }
  }

  lemma PublishKeepsSound(b: Bus, e: Event, limit: nat, works: bool)
    requires BusSound(b) && Apply(b, Publish(e, limit, works)) != b
    ensures BusSound(Apply(b, Publish(e, limit, works)))
  {
    var x := Item(0, EncodeEvent(e).value);
    DecodeEncode(e);
    InsertAppends(b.queue.items, x);
    PendingAppend(b.queue.items, x);
    Assoc(b.received, Pending(b.queue.items), [e]);
  }

  lemma ReceiveKeepsSound(b: Bus, limit: nat, works: bool)
    requires BusSound(b) && Apply(b, Receive(limit, works)) != b
    ensures BusSound(Apply(b, Receive(limit, works)))
  {
    Assoc(b.received, EventOf(b.queue.items[0]), Pending(b.queue.items[1..]));
  }

  lemma StepKeepsSound(b: Bus, a: Action)
    requires BusSound(b)
    ensures BusSound(Apply(b, a))
  {
    if Apply(b, a) != b {
      match a
      case Publish(e, limit, works) => PublishKeepsSound(b, e, limit, works);
      case Receive(limit, works) => ReceiveKeepsSound(b, limit, works);
    }
  }

  /**
   For any publishers and competing receivers that use the queue only through
   the bus: the events received so far, in the order they were received,
   followed by those still queued, are the events published, in order. None is
   lost, duplicated or altered.
  */
  lemma {:induction false} EventsConserved(b: Bus, acts: seq<Action>)
    requires BusSound(b)
    ensures BusSound(Execute(b, acts))
    ensures var b' := Execute(b, acts); b'.received + Pending(b'.queue.items) == b'.published
    decreases |acts|
  {
    if acts != [] {
      StepKeepsSound(b, acts[0]);
      EventsConserved(Apply(b, acts[0]), acts[1..]);
    }
  }

  // ----- The class -----

  class MessageQueueEventBus {
    const queue: PosixMessageQueue

    constructor (queue: PosixMessageQueue)
      ensures this.queue == queue
    {
      this.queue := queue;
    }

    /** The kernel queue behind this handle. */
    ghost function Shared(): Queue
      requires queue.Valid() && queue.descriptor.Some?
      reads queue, queue.host
    {
      queue.host.queues[queue.descriptor.value]
    }

    /** Both publish overloads do to the shared queue what one Publish step does. */
    method Publish(event: Event, timeout: Option<int>, clock: Option<Timespec>, works: bool) returns (ok: bool)
      requires queue.Valid() && (clock.Some? ==> clock.value.Normal())
      modifies queue.host`queues
      ensures queue.Valid()
      ensures queue.descriptor.None? || !ValidTopic(event.topic)
                || (timeout.Some? && (timeout.value < 0 || clock.None?))
              ==> !ok && queue.host.queues == old(queue.host.queues)
      ensures queue.descriptor.Some? && (timeout.Some? ==> timeout.value >= 0 && clock.Some?) ==>
                var b := Bus(old(Shared()), [], []);
                var b' := Apply(b, Action.Publish(event, queue.maxMessageSize, works));
                && queue.host.queues == old(queue.host.queues)[queue.descriptor.value := b'.queue]
                && (ok <==> b'.published == [event])
    {
      var encoded := EncodeEvent(event);
      if encoded.None? {
        return false;
      }
      ok := queue.SendMessage(encoded.value, 0, timeout, clock, works);
    }

    /** Both receive overloads do to the shared queue what one Receive step does. */
    method Receive(timeout: Option<int>, clock: Option<Timespec>, works: bool) returns (event: Option<Event>)
      requires queue.Valid() && (clock.Some? ==> clock.value.Normal())
      modifies queue.host`queues
      ensures queue.Valid()
      ensures queue.descriptor.None? || (timeout.Some? && (timeout.value < 0 || clock.None?))
              ==> event.None? && queue.host.queues == old(queue.host.queues)
      ensures queue.descriptor.Some? && (timeout.Some? ==> timeout.value >= 0 && clock.Some?) ==>
                var b := Bus(old(Shared()), [], []);
                var b' := Apply(b, Action.Receive(queue.maxMessageSize, works));
                && queue.host.queues == old(queue.host.queues)[queue.descriptor.value := b'.queue]
                && b'.received == (if event.Some? then [event.value] else [])
    {
      var ok, encoded, priority := queue.ReceiveMessage(timeout, clock, works);
      if !ok {
        return None;
      }
      event := DecodeEvent(encoded);
    }
  }
}
