/** FileDevice and DeviceManager: descriptors, device states and all-or-nothing opening. */
module Devices {
  import opened Basics
  import opened Seqs

  datatype DeviceState = Closed | Open | Failed

  /** A call made on a device through the IDevice interface, with what open() returned. */
  datatype Event = OpenCalled(id: nat, ok: bool) | CloseCalled(id: nat)

  class Journal {
    ghost var events: seq<Event>
  }

  datatype WriteOutcome = Wrote(count: int) | Interrupted | Nothing | Fails

  /** Nothing in store for write() makes it give up. */
  predicate Retried(writes: seq<WriteOutcome>) {
    forall i :: 0 <= i < |writes| ==> writes[i].Wrote? || writes[i].Interrupted?
  }

  class FileDevice {
    const id: nat                  // tells devices apart in the journal
    const journal: Journal
    var name: string
    var fd: int
    var state: DeviceState
    var opens: seq<int>            // what the coming ::open calls return; a run-out plan gives a descriptor
    var writes: seq<WriteOutcome>  // outcomes of the coming ::write calls; a run-out plan writes everything
    var file: Bytes                // bytes written to the open file

    /** A descriptor is held exactly while the device is Open. */
    ghost predicate Valid()
      reads this
    {
      fd >= 0 <==> state == Open
    }

    constructor (id: nat, journal: Journal, name: string, opens: seq<int>)
      ensures Valid() && state == Closed && this.id == id && this.journal == journal && this.name == name
                && this.opens == opens
    {
      this.id, this.journal, this.name, this.opens := id, journal, name, opens;
      fd, state, writes, file := -1, Closed, [], [];
    }

    /** The next ::open succeeds. */
    predicate WillOpen()
      reads this
    {
      opens == [] || opens[0] >= 0
    }

    /** The body of close(), which open() runs first too. */
    method Release()
      modifies this`fd, this`state
      ensures fd < 0 && state == if old(state) == Failed then Failed else Closed
    {
      if fd >= 0 {
        fd := -1;
      }
      if state != Failed {
        state := Closed;
      }
    }

    method OpenDevice() returns (ok: bool)
      modifies this`fd, this`state, this`opens, journal
      ensures Valid() && ok == old(WillOpen()) && state == if ok then Open else Failed
      ensures opens == if old(opens) == [] then [] else old(opens)[1..]
      ensures journal.events == old(journal.events) + [OpenCalled(id, ok)]
    {
      Release();
      fd := if opens == [] then 3 else opens[0];
      if opens != [] {
        opens := opens[1..];
      }
      ok := fd >= 0;
      state := if ok then Open else Failed;
      journal.events := journal.events + [OpenCalled(id, ok)];
    }

    method CloseDevice()
      modifies this`fd, this`state, journal
      ensures Valid() && fd < 0 && state == if old(state) == Failed then Failed else Closed
      ensures journal.events == old(journal.events) + [CloseCalled(id)]
    {
      Release();
      journal.events := journal.events + [CloseCalled(id)];
    }

    /** Move assignment. */
    method MoveFrom(other: FileDevice)
      requires Valid() && other.Valid()
      modifies this, other`fd, other`state
      ensures Valid() && other.Valid()
      ensures other == this ==> unchanged(this)
      ensures other != this ==> fd == old(other.fd) && state == old(other.state) && name == old(other.name)
                                && other.fd < 0 && other.state == Closed
    {
      if this != other {
        Release();
        name, fd, state := other.name, other.fd, other.state;
        opens, writes, file := other.opens, other.writes, other.file;
        other.fd, other.state := -1, Closed;
      }
    }

    /**
     All of the data or a strict prefix of it reaches the file; short writes and
     interrupts are retried. `used` are the outcomes that this call has met: the
     first one that is an error or writes nothing is the last, and ends it.
    */
    method Write(data: Bytes) returns (ok: bool)
      modifies this`writes, this`file
      ensures ok <==> (fd >= 0 && file == old(file) + data)
      ensures !ok && fd >= 0 ==> old(file) <= file < old(file) + data
      ensures fd < 0 ==> !ok && file == old(file)
      ensures fd >= 0 && old(Retried(writes)) ==> ok
      ensures |writes| <= |old(writes)|
      ensures var used := old(writes)[..|old(writes)| - |writes|];
              && writes == old(writes)[|used|..] && (fd < 0 ==> used == [])
              && (forall i :: 0 <= i < |used| - 1 ==> !used[i].Nothing? && !used[i].Fails?)
              && (fd >= 0 ==> (!ok <==> used != [] && (used[|used| - 1].Nothing? || used[|used| - 1].Fails?)))
    {
      if fd < 0 {
        return false;
      }
      var written := 0;
      while written < |data|
        invariant 0 <= written <= |data| && file == old(file) + data[..written]
        invariant old(Retried(writes)) ==> Retried(writes)
        invariant |writes| <= |old(writes)| && writes == old(writes)[|old(writes)| - |writes|..]
        invariant forall i :: 0 <= i < |old(writes)| - |writes| ==>
                    !old(writes)[i].Nothing? && !old(writes)[i].Fails?
        decreases |data| - written, |writes|
      {
        var outcome := if writes == [] then Wrote(|data|) else writes[0];
        if writes != [] {
          writes := writes[1..];
        }
        if outcome.Interrupted? {
          continue;
        }
        if !outcome.Wrote? {
          return false;
        }
        var most := |data| - written;
        var count := if outcome.count < 1 then 1 else if outcome.count > most then most else outcome.count;
        assert data[..written + count] == data[..written] + data[written..written + count];
        file := file + data[written..written + count];
        written := written + count;
      }
      assert data[..written] == data;
      return true;
    }
  }

  // ----- What openAll should do -----

  /** The calls made when these devices all open, in order. */
  ghost function OpenTrace(ds: seq<FileDevice>): seq<Event> {
    if ds == [] then [] else OpenTrace(ds[..|ds| - 1]) + [OpenCalled(ds[|ds| - 1].id, true)]
  }

  /** The calls that undo them, last device first. */
  ghost function CloseTrace(ds: seq<FileDevice>): seq<Event> {
    if ds == [] then [] else [CloseCalled(ds[|ds| - 1].id)] + CloseTrace(ds[..|ds| - 1])
  }

  /** The undo calls mirror the opens: same devices, opposite order. */
  lemma {:induction false} TracesMirror(ds: seq<FileDevice>, i: nat)
    requires i < |ds|
    ensures |OpenTrace(ds)| == |CloseTrace(ds)| == |ds|
    ensures OpenTrace(ds)[i] == OpenCalled(ds[i].id, true) && CloseTrace(ds)[|ds| - 1 - i] == CloseCalled(ds[i].id)
  {
    var front := ds[..|ds| - 1];
    if i < |front| {
      TracesMirror(front, i);
    } else if front != [] {
      TracesMirror(front, 0);
    }
  }

  lemma TraceSnoc(ds: seq<FileDevice>, n: nat)
    requires n < |ds|
    ensures OpenTrace(ds[..n + 1]) == OpenTrace(ds[..n]) + [OpenCalled(ds[n].id, true)]
    ensures CloseTrace(ds[..n + 1]) == [CloseCalled(ds[n].id)] + CloseTrace(ds[..n])
  {
    assert ds[..n + 1][..n] == ds[..n];
  }

  /** The loop of openAll up to the first device that does not open; `count` devices did. */
  method OpenInOrder(ds: seq<FileDevice>, journal: Journal) returns (count: nat)
    requires forall i :: 0 <= i < |ds| ==> ds[i].journal == journal && ds[i].Valid()
    requires forall i, j :: 0 <= i < j < |ds| ==> ds[i] != ds[j]
    modifies ds`fd, ds`state, ds`opens, journal
    ensures count <= |ds| && forall i :: 0 <= i < |ds| ==> ds[i].Valid()
    ensures forall i :: 0 <= i < count ==> old(ds[i].WillOpen()) && ds[i].state == Open
    ensures count < |ds| ==> !old(ds[count].WillOpen()) && ds[count].state == Failed
    ensures forall i :: count < i < |ds| ==> unchanged(ds[i])
    ensures journal.events == old(journal.events) + OpenTrace(ds[..count])
                              + if count < |ds| then [OpenCalled(ds[count].id, false)] else []
  {
    count := 0;
    ghost var trace: seq<Event> := [];
    while count < |ds|
      invariant 0 <= count <= |ds|
      invariant forall i :: 0 <= i < |ds| ==> ds[i].Valid()
      invariant forall i :: 0 <= i < count ==> old(ds[i].WillOpen()) && ds[i].state == Open
      invariant forall i :: count <= i < |ds| ==> unchanged(ds[i])
      invariant journal.events == old(journal.events) + trace && trace == OpenTrace(ds[..count])
    {
      TraceSnoc(ds, count);
      var good := ds[count].OpenDevice();
      if !good {
        return;
      }
      trace := trace + [OpenCalled(ds[count].id, true)];
      count := count + 1;
    }
  }

  /** The rollback loop of openAll: the devices opened so far are closed last first. */
  method CloseReversed(openedDevices: seq<FileDevice>, journal: Journal)
    requires forall i :: 0 <= i < |openedDevices| ==>
              openedDevices[i].journal == journal && openedDevices[i].state == Open
    requires forall i, j :: 0 <= i < j < |openedDevices| ==> openedDevices[i] != openedDevices[j]
    modifies openedDevices`fd, openedDevices`state, journal
    ensures forall i :: 0 <= i < |openedDevices| ==> openedDevices[i].state == Closed && openedDevices[i].Valid()
    ensures journal.events == old(journal.events) + CloseTrace(openedDevices)
  {
    var i := |openedDevices|;
    ghost var trace: seq<Event> := [];
    assert openedDevices[..i] == openedDevices;
    while i > 0
      invariant 0 <= i <= |openedDevices|
      invariant forall j :: 0 <= j < i ==> openedDevices[j].state == Open
      invariant forall j :: i <= j < |openedDevices| ==> openedDevices[j].state == Closed && openedDevices[j].Valid()
      invariant journal.events == old(journal.events) + trace
      invariant trace + CloseTrace(openedDevices[..i]) == CloseTrace(openedDevices)
    {
      i := i - 1;
      TraceSnoc(openedDevices, i);
      Assoc(trace, [CloseCalled(openedDevices[i].id)], CloseTrace(openedDevices[..i]));
      openedDevices[i].CloseDevice();
      trace := trace + [CloseCalled(openedDevices[i].id)];
    }
  }

  /** The failure branch of openAll: devices 0..count are the opened ones. */
  method RollBack(ds: seq<FileDevice>, count: nat, journal: Journal)
    requires count <= |ds| && forall i :: 0 <= i < count ==> ds[i].journal == journal && ds[i].state == Open
    requires forall i, j :: 0 <= i < j < |ds| ==> ds[i] != ds[j]
    modifies ds[..count]`fd, ds[..count]`state, journal
    ensures forall i :: 0 <= i < count ==> ds[i].state == Closed && ds[i].Valid()
    ensures forall i :: count <= i < |ds| ==> unchanged(ds[i])
    ensures journal.events == old(journal.events) + CloseTrace(ds[..count])
  {
    var openedDevices := ds[..count];
    CloseReversed(openedDevices, journal);
    forall i | 0 <= i < count
      ensures ds[i].state == Closed && ds[i].Valid()
    {
      assert ds[i] == openedDevices[i];
    }
  }

  class DeviceManager {
    var devices: seq<FileDevice>
    const journal: Journal

    constructor (journal: Journal)
      ensures Valid() && devices == [] && this.journal == journal
    {
      this.journal := journal;
      devices := [];
    }

    ghost predicate Valid()
      reads this, devices
    {
      && (forall i :: 0 <= i < |devices| ==> devices[i].journal == journal && devices[i].Valid())
      && (forall i, j :: 0 <= i < j < |devices| ==> devices[i] != devices[j] && devices[i].name != devices[j].name)
    }

    /** The first device of that name. */
    method Find(name: string) returns (r: FileDevice?)
      ensures r != null ==> r in devices && r.name == name
      ensures r == null ==> forall i :: 0 <= i < |devices| ==> devices[i].name != name
    {
      var i := 0;
      while i < |devices|
        invariant 0 <= i <= |devices|
        invariant forall j :: 0 <= j < i ==> devices[j].name != name
      {
        if devices[i].name == name {
          return devices[i];
        }
        i := i + 1;
      }
      return null;
    }

    /** A device is added exactly when it exists and its name is new; names stay pairwise distinct. */
    method Add(device: FileDevice?) returns (ok: bool)
      requires Valid() && (device != null ==> device.Valid() && device.journal == journal)
      modifies this
      ensures Valid()
      ensures ok <==> device != null && forall i :: 0 <= i < |old(devices)| ==> old(devices)[i].name != device.name
      ensures devices == if ok then old(devices) + [device] else old(devices)
    {
      if device == null {
        return false;
      }
      var found := Find(device.name);
      if found != null {
        return false;
      }
      devices := devices + [device];
      return true;
    }

    /**
     All or nothing. Success leaves every device Open. Failure at device
     `failed` has opened 0..failed, closed failed - 1..0 in reverse, left no
     earlier device Open, and not touched the later ones.
    */
    method OpenAll() returns (ok: bool, failed: nat)
      requires Valid()
      modifies devices`fd, devices`state, devices`opens, journal
      ensures Valid() && devices == old(devices)
      ensures ok <==> forall i :: 0 <= i < |devices| ==> old(devices[i].WillOpen())
      ensures ok ==> (forall i :: 0 <= i < |devices| ==> devices[i].state == Open)
                     && journal.events == old(journal.events) + OpenTrace(devices)
      ensures !ok ==> && failed < |devices| && !old(devices[failed].WillOpen())
                      && (forall i :: 0 <= i < failed ==> old(devices[i].WillOpen()) && devices[i].state == Closed)
                      && devices[failed].state == Failed
                      && (forall i :: failed < i < |devices| ==> unchanged(devices[i]))
                      && journal.events == old(journal.events) + OpenTrace(devices[..failed])
                                           + [OpenCalled(devices[failed].id, false)] + CloseTrace(devices[..failed])
    {
      failed := OpenInOrder(devices, journal);
      ok := failed == |devices|;
      if ok {
        assert devices[..failed] == devices;
      } else {
        RollBack(devices, failed, journal);
      }
    }

    method CloseAll()
      requires Valid()
      modifies devices`fd, devices`state, journal
      ensures Valid() && devices == old(devices)
      ensures forall i :: 0 <= i < |devices| ==>
                devices[i].state == if old(devices[i].state) == Failed then Failed else Closed
    {
      var i := 0;
      while i < |devices|
        invariant 0 <= i <= |devices| && Valid()
        invariant forall j :: 0 <= j < i ==>
                  devices[j].state == if old(devices[j].state) == Failed then Failed else Closed
        invariant forall j :: i <= j < |devices| ==> unchanged(devices[j])
      {
        devices[i].CloseDevice();
        i := i + 1;
      }
    }
  }
}
