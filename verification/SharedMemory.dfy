/**
 SharedMemoryRegion: mapped regions over shared backing objects. Any number of
 regions, in any processes, may be mapped to one object; the host keeps the
 bytes and, as history, every accepted write.
*/
module SharedMemory {
  import opened Basics
  import opened NamedObjects

  /** Range of size_t, and of off_t's positive half. */
  const SIZE_MAX: int := 0xFFFF_FFFF_FFFF_FFFF
  const OFF_MAX: int := 0x7FFF_FFFF_FFFF_FFFF

  /**
   inRange. For size_t arguments the subtraction never wraps, and the answer is
   that of the unbounded sum, which itself could exceed size_t.
  */
  function InRange(offset: nat, count: nat, size: nat): (r: bool)
    requires offset <= SIZE_MAX && count <= SIZE_MAX && size <= SIZE_MAX
    ensures r <==> offset + count <= size
  {
    offset <= size && count <= size - offset
  }

  /** One accepted write. */
  datatype Written = Written(obj: nat, offset: nat, data: Bytes)

  predicate Covers(w: Written, obj: nat, i: nat) {
    w.obj == obj && w.offset <= i < w.offset + |w.data|
  }

  /** The byte last written at position i of an object; a fresh object is all zero. */
  function Latest(log: seq<Written>, obj: nat, i: nat): byte
    decreases |log|
  {
    if log == [] then 0
    else
      var w := log[|log| - 1];
      if Covers(w, obj, i) then w.data[i - w.offset] else Latest(log[..|log| - 1], obj, i)
  }

  /** The same, said without recursion: a position nobody wrote is zero, */
  lemma {:induction false} Unwritten(log: seq<Written>, obj: nat, i: nat)
    requires forall k :: 0 <= k < |log| ==> !Covers(log[k], obj, i)
    ensures Latest(log, obj, i) == 0
    decreases |log|
  {
    if log != [] {
      Unwritten(log[..|log| - 1], obj, i);
    }
  }

  /** and otherwise it has the byte of the last write that covers it. */
  lemma {:induction false} LatestIsLast(log: seq<Written>, obj: nat, i: nat, k: nat)
    requires k < |log| && Covers(log[k], obj, i)
    requires forall j :: k < j < |log| ==> !Covers(log[j], obj, i)
    ensures Latest(log, obj, i) == log[k].data[i - log[k].offset]
    decreases |log|
  {
    if k < |log| - 1 {
      LatestIsLast(log[..|log| - 1], obj, i, k);
    }
  }

  /** Bytes [offset, offset + |data|) replaced. */
  function Overwrite(s: Bytes, offset: nat, data: Bytes): (r: Bytes)
    requires offset + |data| <= |s|
    ensures |r| == |s|
    ensures forall i :: 0 <= i < |s| ==> r[i] == if offset <= i < offset + |data| then data[i - offset] else s[i]
  {
    s[..offset] + data + s[offset + |data|..]
  }

  function Zeros(n: nat): (z: Bytes)
    ensures |z| == n && forall i :: 0 <= i < n ==> z[i] == 0
  {
    seq(n, _ => 0)
  }

  /** The kernel's shared memory objects. */
  class Host {
    var names: map<string, nat>
    var objects: seq<Bytes>
    ghost var log: seq<Written>

    ghost predicate Valid()
      reads this
    {
      && (forall n :: n in names ==> names[n] < |objects|)
      && (forall o, i :: 0 <= o < |objects| && 0 <= i < |objects[o]| ==> objects[o][i] == Latest(log, o, i))
      && (forall k :: 0 <= k < |log| ==> log[k].obj < |objects|)
    }

    ghost function View(): Space
      reads this
    {
      Space(names, |objects|)
    }

    /** shm_open with O_CREAT | O_EXCL, and ftruncate to the given size. */
    method Make(name: string, size: nat) returns (obj: nat)
      requires Valid() && name !in names
      modifies this`names, this`objects
      ensures Valid() && obj == |old(objects)| && objects == old(objects) + [Zeros(size)]
      ensures names == old(names)[name := obj] && names - {name} == old(names)
    {
      FreshObject(log, objects, size);
      obj := |objects|;
      objects := objects + [Zeros(size)];
      names := names[name := obj];
      assert names - {name} == old(names);
    }
  }

  /** Objects never shrink, move or disappear under a mapping. */
  twostate predicate Grows(host: Host)
    reads host
  {
    |old(host.objects)| <= |host.objects|
    && forall o :: 0 <= o < |old(host.objects)| ==> |host.objects[o]| == |old(host.objects)[o]|
  }

  /** A region keeps its guarantees whatever is done through other regions. */
  twostate lemma OthersStayValid(r: SharedMemoryRegion)
    requires old(r.Valid()) && unchanged(r) && r.host.Valid() && Grows(r.host)
    ensures r.Valid()
  {}

  /** A new zero-filled object agrees with a history that never mentions it. */
  lemma FreshObject(log: seq<Written>, objects: seq<Bytes>, size: nat)
    requires forall o, i :: 0 <= o < |objects| && 0 <= i < |objects[o]| ==> objects[o][i] == Latest(log, o, i)
    requires forall k :: 0 <= k < |log| ==> log[k].obj < |objects|
    ensures var objects' := objects + [Zeros(size)];
            forall o, i :: 0 <= o < |objects'| && 0 <= i < |objects'[o]| ==> objects'[o][i] == Latest(log, o, i)
  {
    var objects' := objects + [Zeros(size)];
    forall o, i | 0 <= o < |objects'| && 0 <= i < |objects'[o]|
      ensures objects'[o][i] == Latest(log, o, i)
    {
      if o == |objects| {
        Unwritten(log, o, i);
      }
    }
  }

  /** Which step of create() or open() fails, if any. */
  datatype Fault = NoFault | OpenFault | SizeFault | MapFault

  class SharedMemoryRegion {
    const host: Host
    var fd: Option<nat>        // the object behind the descriptor
    var name: string
    var mapping: Option<nat>   // the object mapped
    var size: nat
    var owner: bool

    /** A mapped region lies inside its backing object. */
    ghost predicate Valid()
      reads this, host
    {
      && host.Valid()
      && fd == mapping
      && (mapping.Some? ==>
            mapping.value < |host.objects| && 0 < size <= |host.objects[mapping.value]| && size <= SIZE_MAX)
      && (mapping.None? ==> size == 0 && !owner && name == "")
    }

    ghost function View(): Handle
      reads this
    {
      Handle(mapping, name, owner)
    }

    constructor (host: Host)
      requires host.Valid()
      ensures Valid() && this.host == host && View() == Closed
    {
      this.host := host;
      fd, name, mapping, size, owner := None, "", None, 0, false;
    }

    method Close()
      requires Valid()
      modifies this, host`names
      ensures Valid() && View() == Closed && host.View() == CloseIn(old(host.View()), old(View()))
    {
      mapping := None;
      fd := None;
      if owner && name != "" {
        host.names := host.names - {name};
      }
      name, size, owner := "", 0, false;
    }

    method Create(name: string, size: nat, fault: Fault) returns (ok: bool)
      requires Valid() && size <= SIZE_MAX
      modifies this, host
      ensures Valid() && Grows(host) && host.log == old(host.log)
      ensures ok <==> ProperName(name) && 0 < size <= OFF_MAX && fault.NoFault?
                      && name !in CloseIn(old(host.View()), old(View())).names
      ensures (host.View(), View()) == CreateIn(old(host.View()), old(View()), name,
                if size == 0 || size > OFF_MAX || fault.OpenFault? then Refused
                else if fault.NoFault? then Kept else Undone)
      ensures ok ==> this.size == size && mapping == Some(|old(host.objects)|)
                     && host.objects == old(host.objects) + [Zeros(size)]
                     && View() == Handle(mapping, name, true)
                     && host.names == CloseIn(old(host.View()), old(View())).names[name := |old(host.objects)|]
      ensures !ok ==> View() == Closed && host.names == CloseIn(old(host.View()), old(View())).names
      ensures !ProperName(name) || size == 0 || size > OFF_MAX ==> host.objects == old(host.objects)
    {
      ValidNameExact(name);
      Close();
      if !ValidName(name) {
        return false;
      }
      if size == 0 {
        return false;
      }
      if size > OFF_MAX {
        return false;
      }
      ok := CreateObject(name, size, fault);
    }

    /** create() once its arguments have been accepted. */
    method CreateObject(name: string, size: nat, fault: Fault) returns (ok: bool)
      requires Valid() && View() == Closed && ValidName(name) && 0 < size <= OFF_MAX
      modifies this, host
      ensures Valid() && Grows(host) && host.log == old(host.log)
      ensures ok <==> fault.NoFault? && name !in old(host.names)
      ensures (host.View(), View()) == CreateIn(old(host.View()), Closed, name,
                if fault.OpenFault? then Refused else if fault.NoFault? then Kept else Undone)
      ensures ok ==> this.size == size && mapping == Some(|old(host.objects)|)
                     && host.objects == old(host.objects) + [Zeros(size)]
    {
      if name in host.names || fault.OpenFault? {
        return false;
      }
      var obj := host.Make(name, if fault.SizeFault? then 0 else size);
      if fault.SizeFault? {
        host.names := host.names - {name};
        return false;
      }
      if fault.MapFault? {
        host.names := host.names - {name};
        return false;
      }
      fd, this.name, mapping, this.size, owner := Some(obj), name, Some(obj), size, true;
      return true;
    }

    method Open(name: string, size: nat, fault: Fault) returns (ok: bool)
      requires Valid() && size <= SIZE_MAX
      modifies this, host`names
      ensures Valid()
      ensures var s := CloseIn(old(host.View()), old(View()));
              && (ok <==>
                    ProperName(name) && fault.NoFault? && name in s.names && 0 < size <= |host.objects[s.names[name]]|)
              && (host.View(), View()) == OpenIn(old(host.View()), old(View()), name, ok)
      ensures host.View() == CloseIn(old(host.View()), old(View()))
      ensures ok ==> this.size == size && View() == Handle(Some(host.names[name]), name, false)
      ensures !ok ==> View() == Closed
    {
      ValidNameExact(name);
      Close();
      if !ValidName(name) {
        return false;
      }
      if size == 0 {
        return false;
      }
      if name !in host.names || fault.OpenFault? {
        return false;
      }
      var obj := host.names[name];
      var backingSize := |host.objects[obj]|;
      if fault.SizeFault? || backingSize <= 0 {
        return false;
      }
      if size > backingSize {
        return false;
      }
      if fault.MapFault? {
        return false;
      }
      fd, this.name, mapping, this.size, owner := Some(obj), name, Some(obj), size, false;
      return true;
    }

    /** An accepted write lies inside the backing object and changes exactly its range there. */
    method Write(offset: nat, source: Option<Bytes>, count: nat) returns (ok: bool)
      requires Valid() && offset <= SIZE_MAX && count <= SIZE_MAX
      requires source.Some? ==> |source.value| == count
      modifies host`objects, host`log
      ensures Valid() && Grows(host)
      ensures ok <==> mapping.Some? && (source.Some? || count == 0) && offset + count <= size
      ensures !ok ==> host.objects == old(host.objects) && host.log == old(host.log)
      ensures ok ==> var data := if source.Some? then source.value else [];
                     && offset + count <= |old(host.objects)[mapping.value]|
                     && var was := old(host.objects)[mapping.value];
                     host.objects == old(host.objects)[mapping.value := Overwrite(was, offset, data)]
                     && host.log == old(host.log) + [Written(mapping.value, offset, data)]
    {
      if mapping.None? {
        return false;
      }
      if source.None? && count > 0 {
        return false;
      }
      if !InRange(offset, count, size) {
        return false;
      }
      var data := if source.Some? then source.value else [];
      host.objects := host.objects[mapping.value := Overwrite(host.objects[mapping.value], offset, data)];
      host.log := host.log + [Written(mapping.value, offset, data)];
      assert host.log[..|host.log| - 1] == old(host.log);
      return true;
    }

    /**
     An accepted read returns, byte by byte, the latest value written through
     any region mapped to the same object.
    */
    method Read(offset: nat, count: nat, hasDestination: bool) returns (ok: bool, data: Bytes)
      requires Valid() && offset <= SIZE_MAX && count <= SIZE_MAX
      ensures ok <==> mapping.Some? && (hasDestination || count == 0) && offset + count <= size
      ensures ok ==> |data| == count && offset + count <= |host.objects[mapping.value]|
      ensures ok ==> forall i :: 0 <= i < count ==> data[i] == Latest(host.log, mapping.value, offset + i)
    {
      data := [];
      if mapping.None? {
        return false, data;
      }
      if !hasDestination && count > 0 {
        return false, data;
      }
      if !InRange(offset, count, size) {
        return false, data;
      }
      data := host.objects[mapping.value][offset..offset + count];
      return true, data;
    }

    method Unlink()
      requires Valid()
      modifies this`owner, host`names
      ensures Valid() && (host.View(), View()) == UnlinkIn(old(host.View()), old(View()))
    {
      if name != "" {
        host.names := host.names - {name};
      }
      owner := false;
    }

    /** Move assignment; with this region still closed, move construction. */
    method MoveFrom(other: SharedMemoryRegion)
      requires Valid() && other.Valid() && other.host == host
      modifies this, other, host`names
      ensures Valid() && other.Valid()
      ensures other == this ==> unchanged(this) && host.View() == old(host.View())
      ensures other != this ==> View() == old(other.View()) && size == old(other.size) && other.View() == Closed
                                && host.View() == CloseIn(old(host.View()), old(View()))
    {
      if this != other {
        Close();
        fd, name, mapping, size, owner := other.fd, other.name, other.mapping, other.size, other.owner;
        other.fd, other.name, other.mapping, other.size, other.owner := None, "", None, 0, false;
      }
    }
  }
}
