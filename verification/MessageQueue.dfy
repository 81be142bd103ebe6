/**
 PosixMessageQueue over kernel queues that several handles may share. A queue
 delivers the oldest of its highest-priority messages (mq_send and mq_receive in
 the System Interfaces volume of POSIX.1-2017).
*/
module MessageQueue {
  import opened Basics
  import opened Deadlines
  import opened NamedObjects
  import opened Seqs

  datatype Item = Item(priority: nat, body: Bytes)

  datatype Queue = Queue(items: seq<Item>, capacity: nat, messageSize: nat)

  /** mq_send puts a message behind all of at least its priority. */
  function Insert(items: seq<Item>, x: Item): (r: seq<Item>)
    ensures |r| == |items| + 1
  {
    if items == [] || items[0].priority < x.priority then [x] + items
    else [items[0]] + Insert(items[1..], x)
  }

  predicate Ordered(items: seq<Item>) {
    forall i, j :: 0 <= i < j < |items| ==> items[i].priority >= items[j].priority
  }

  function OfPriority(items: seq<Item>, p: nat): seq<Item> {
    if items == [] then []
    else (if items[0].priority == p then [items[0]] else []) + OfPriority(items[1..], p)
  }

  lemma {:induction false} InsertKeepsContents(items: seq<Item>, x: Item)
    ensures multiset(Insert(items, x)) == multiset(items) + multiset{x}
  {
    if items != [] && items[0].priority >= x.priority {
      InsertKeepsContents(items[1..], x);
      assert items == [items[0]] + items[1..];
    }
  }

  lemma {:induction false} InsertKeepsOrder(items: seq<Item>, x: Item)
    requires Ordered(items)
    ensures Ordered(Insert(items, x))
              && Insert(items, x)[0] == if items == [] || items[0].priority < x.priority then x else items[0]
  {
    if items != [] && items[0].priority >= x.priority {
      var rest := Insert(items[1..], x);
      InsertKeepsOrder(items[1..], x);
      HeadKeepsOrder(items[0], rest);
    } else if items != [] {
      HeadKeepsOrder(x, items);
    }
  }

  lemma HeadKeepsOrder(x: Item, rest: seq<Item>)
    requires Ordered(rest) && (rest != [] ==> x.priority >= rest[0].priority)
    ensures Ordered([x] + rest)
  {
    var all := [x] + rest;
    forall i, j | 0 <= i < j < |all|
      ensures all[i].priority >= all[j].priority
    {
      assert all[j] == rest[j - 1] && (i > 0 ==> all[i] == rest[i - 1]);
      assert j > 1 ==> rest[0].priority >= rest[j - 1].priority;
    }
  }

  lemma OfPriorityCons(x: Item, rest: seq<Item>, p: nat)
    ensures OfPriority([x] + rest, p) == (if x.priority == p then [x] else []) + OfPriority(rest, p)
  {
    assert ([x] + rest)[1..] == rest;
  }

  lemma {:induction false} InsertKeepsFifo(items: seq<Item>, x: Item, p: nat)
    requires Ordered(items)
    ensures OfPriority(Insert(items, x), p) == OfPriority(items, p) + (if p == x.priority then [x] else [])
  {
    if items == [] || items[0].priority < x.priority {
      NoneOfPriority(items, x.priority);
      OfPriorityCons(x, items, p);
    } else {
      InsertKeepsFifo(items[1..], x, p);
      OfPriorityCons(items[0], Insert(items[1..], x), p);
      OfPriorityCons(items[0], items[1..], p);
      assert items == [items[0]] + items[1..];
      var first, last := if items[0].priority == p then [items[0]] else [], if p == x.priority then [x] else [];
      Assoc(first, OfPriority(items[1..], p), last);
    }
  }

  /**
   The queue stays ordered by priority, within each priority it is first in,
   first out, and it gains exactly the new message.
  */
  lemma InsertOrdered(items: seq<Item>, x: Item, p: nat)
    requires Ordered(items)
    ensures Ordered(Insert(items, x))
    ensures OfPriority(Insert(items, x), p) == OfPriority(items, p) + (if p == x.priority then [x] else [])
    ensures multiset(Insert(items, x)) == multiset(items) + multiset{x}
  {
    InsertKeepsContents(items, x);
    InsertKeepsOrder(items, x);
    InsertKeepsFifo(items, x, p);
  }

  /** Nothing of a priority above the head's is in an ordered queue. */
  lemma {:induction false} NoneOfPriority(items: seq<Item>, p: nat)
    requires forall i :: 0 <= i < |items| ==> items[i].priority != p
    ensures OfPriority(items, p) == []
  {
    if items != [] {
      NoneOfPriority(items[1..], p);
    }
  }

  /** With a single priority in use the queue is a plain FIFO. */
  lemma {:induction false} InsertAppends(items: seq<Item>, x: Item)
    requires forall i :: 0 <= i < |items| ==> items[i].priority == x.priority
    ensures Insert(items, x) == items + [x]
  {
    if items != [] {
      InsertAppends(items[1..], x);
    }
  }

  predicate CanAccept(q: Queue, size: nat) {
    size <= q.messageSize && |q.items| < q.capacity
  }

  class Host {
    var names: map<string, nat>
    var queues: seq<Queue>

    ghost predicate Valid()
      reads this
    {
      forall n :: n in names ==> names[n] < |queues|
    }

    ghost function View(): Space
      reads this
    {
      Space(names, |queues|)
    }
  }

  datatype Fault = NoFault | OpenFault | AttributesFault

  class PosixMessageQueue {
    const host: Host
    var descriptor: Option<nat>    // the queue open here; None for -1
    var name: string
    var maxMessageSize: nat
    var owner: bool

    ghost predicate Valid()
      reads this, host
    {
      && host.Valid()
      && (descriptor.Some? ==> descriptor.value < |host.queues|
                               && maxMessageSize in {0, host.queues[descriptor.value].messageSize})
      && (descriptor.None? ==> maxMessageSize == 0 && !owner && name == "")
    }

    ghost function View(): Handle
      reads this
    {
      Handle(descriptor, name, owner)
    }

    constructor (host: Host)
      requires host.Valid()
      ensures Valid() && this.host == host && View() == Closed
    {
      this.host := host;
      descriptor, name, maxMessageSize, owner := None, "", 0, false;
    }

    method Close()
      requires Valid()
      modifies this, host`names
      ensures Valid() && View() == Closed && host.View() == CloseIn(old(host.View()), old(View()))
    {
      descriptor := None;
      if owner && name != "" {
        host.names := host.names - {name};
      }
      name, maxMessageSize, owner := "", 0, false;
    }

    /**
     When only the attribute query fails, create() returns false but the handle
     stays open and owning, with a message size limit of 0.
    */
    method Create(name: string, maxMessages: int, maxMessageSize: int, fault: Fault) returns (ok: bool)
      requires Valid()
      modifies this, host
      ensures Valid()
      ensures var made := ProperName(name) && maxMessages > 0 && maxMessageSize > 0 && !fault.OpenFault?
                          && name !in CloseIn(old(host.View()), old(View())).names;
              && (ok <==> made && fault.NoFault?)
              && (host.View(), View()) == CreateIn(old(host.View()), old(View()), name, if made then Kept else Refused)
              && (made ==> View() == Handle(Some(|old(host.queues)|), name, true)
                           && host.names == CloseIn(old(host.View()), old(View())).names[name := |old(host.queues)|]
                           && host.queues == old(host.queues) + [Queue([], maxMessages, maxMessageSize)]
                           && this.maxMessageSize == if ok then maxMessageSize else 0)
              && (!made ==> host.queues == old(host.queues) && View() == Closed
                            && host.View() == CloseIn(old(host.View()), old(View())))
    {
      ValidNameExact(name);
      Close();
      if !ValidName(name) {
        return false;
      }
      if maxMessages <= 0 || maxMessageSize <= 0 {
        return false;
      }
      if name in host.names || fault.OpenFault? {
        return false;
      }
      var queue := |host.queues|;
      host.queues := host.queues + [Queue([], maxMessages, maxMessageSize)];
      host.names := host.names[name := queue];
      descriptor, this.name, owner := Some(queue), name, true;
      ok := LoadAttributes(fault);
    }

    method LoadAttributes(fault: Fault) returns (ok: bool)
      requires Valid() && descriptor.Some? && maxMessageSize == 0
      modifies this`maxMessageSize
      ensures Valid() && (ok <==> !fault.AttributesFault?)
      ensures maxMessageSize == if ok then host.queues[descriptor.value].messageSize else 0
    {
      if fault.AttributesFault? {
        return false;
      }
      maxMessageSize := host.queues[descriptor.value].messageSize;
      return true;
    }

    method Open(name: string, fault: Fault) returns (ok: bool)
      requires Valid()
      modifies this, host`names
      ensures Valid()
      ensures var s := CloseIn(old(host.View()), old(View()));
              var found := ProperName(name) && name in s.names && !fault.OpenFault?;
              && (ok <==> found && fault.NoFault?)
              && (host.View(), View()) == OpenIn(old(host.View()), old(View()), name, found)
              && (found ==> View() == Handle(Some(s.names[name]), name, false) && host.View() == s
                            && maxMessageSize == if ok then host.queues[s.names[name]].messageSize else 0)
              && (!found ==> View() == Closed && host.View() == s)
    {
      ValidNameExact(name);
      Close();
      if !ValidName(name) {
        return false;
      }
      if name !in host.names || fault.OpenFault? {
        return false;
      }
      descriptor, this.name, owner := Some(host.names[name]), name, false;
      ok := LoadAttributes(fault);
    }

    /**
     Both sendMessage overloads; `works` is whether mq_send or mq_timedsend
     succeeds on a queue with room. True exactly when the message is queued,
     and then behind everything of at least its priority.
    */
    method SendMessage(message: Bytes, priority: nat, timeout: Option<int>, clock: Option<Timespec>, works: bool)
      returns (ok: bool)
      requires Valid() && (clock.Some? ==> clock.value.Normal())
      modifies host`queues
      ensures Valid()
      ensures ok <==> descriptor.Some? && |message| <= maxMessageSize
                      && works && |message| <= old(host.queues)[descriptor.value].messageSize
                      && |old(host.queues)[descriptor.value].items| < old(host.queues)[descriptor.value].capacity
                      && (timeout.Some? ==> timeout.value >= 0 && clock.Some?)
      ensures host.queues == if ok then
                old(host.queues)[descriptor.value := old(host.queues)[descriptor.value].(
                  items := Insert(old(host.queues)[descriptor.value].items, Item(priority, message)))]
              else old(host.queues)
    {
      if descriptor.None? {
        return false;
      }
      if |message| > maxMessageSize {
        return false;
      }
      if timeout.Some? {
        var deadline := LoadDeadline(timeout.value, clock);
        if !deadline.Deadline? {
          return false;
        }
      }
      var q := host.queues[descriptor.value];
      if !works || !CanAccept(q, |message|) {
        return false;
      }
      host.queues := host.queues[descriptor.value := q.(items := Insert(q.items, Item(priority, message)))];
      return true;
    }

    /**
     Both receiveMessage overloads. True exactly when the head of the queue was
     taken; the buffer, of maxMessageSize bytes, must hold any message of the
     queue, so after a failed attribute query nothing is ever received.
    */
    method ReceiveMessage(timeout: Option<int>, clock: Option<Timespec>, works: bool)
      returns (ok: bool, message: Bytes, priority: nat)
      requires Valid() && (clock.Some? ==> clock.value.Normal())
      modifies host`queues
      ensures Valid()
      ensures ok <==> descriptor.Some? && works && old(host.queues)[descriptor.value].items != []
                      && maxMessageSize >= host.queues[descriptor.value].messageSize
                      && (timeout.Some? ==> timeout.value >= 0 && clock.Some?)
      ensures ok ==> var q := old(host.queues)[descriptor.value];
                     && q.items[0] == Item(priority, message)
                     && host.queues == old(host.queues)[descriptor.value := q.(items := q.items[1..])]
      ensures !ok ==> message == [] && host.queues == old(host.queues)
    {
      message, priority := [], 0;
      if descriptor.None? {
        return false, message, priority;
      }
      if timeout.Some? {
        var deadline := LoadDeadline(timeout.value, clock);
        if !deadline.Deadline? {
          return false, message, priority;
        }
      }
      var q := host.queues[descriptor.value];
      if !works || q.items == [] || maxMessageSize < q.messageSize {
        return false, message, priority;
      }
      host.queues := host.queues[descriptor.value := q.(items := q.items[1..])];
      return true, q.items[0].body, q.items[0].priority;
    }

    method Unlink()
      requires Valid()
      modifies this`owner, host`names
      ensures Valid() && (host.View(), View()) == UnlinkIn(old(host.View()), old(View()))
    {
      if name != "" {
        host.names := host.names - {name};
      }
      owner := false;
    }

    method MoveFrom(other: PosixMessageQueue)
      requires Valid() && other.Valid() && other.host == host
      modifies this, other, host`names
      ensures Valid() && other.Valid()
      ensures other == this ==> unchanged(this) && host.View() == old(host.View())
      ensures other != this ==>
                View() == old(other.View()) && maxMessageSize == old(other.maxMessageSize) && other.View() == Closed
                                && host.View() == CloseIn(old(host.View()), old(View()))
    {
      if this != other {
        Close();
        descriptor, name, maxMessageSize, owner := other.descriptor, other.name, other.maxMessageSize, other.owner;
        other.descriptor, other.name, other.maxMessageSize, other.owner := None, "", 0, false;
      }
    }
  }
}
