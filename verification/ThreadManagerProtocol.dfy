/**
 ThreadManager.cpp as a state machine: any number of outside threads and all
 the manager's own workers call startThread, requestStop and joinAll at any
 time. Each step is what a thread does between two points at which another
 thread may intervene: taking the mutex, the duplicate check, creating the
 std::thread, pushing it, storing one flag, the swap, releasing the mutex, and
 in joinAll one look at a batch entry and one return from join.
*/
module ThreadManagerProtocol {
  import opened Basics

  datatype Thread = Outside(n: nat) | Worker(id: nat)

  /** ManagedThread: the name and the std::thread it carries. */
  datatype Managed = Managed(name: string, worker: nat)

  /** Where a thread stands. */
  datatype Pc =
    | Own                                       // in its own code
    | Ended                                     // its worker function has returned or thrown
    | StartWaits(name: string)                  // startThread: waiting for the mutex
    | StartHolds(name: string)                  //   about to compare names
    | StartChecked(name: string)                //   room reserved, about to create the thread
    | StartSpawned(name: string, created: nat)    //   thread created, not yet pushed
    | StartLeaves                               //   about to release the mutex
    | StopWaits                                 // requestStop: waiting for the mutex
    | StopHolds(flags: nat)                     //   this many flags stored
    | JoinWaits                                 // joinAll: waiting for the mutex
    | JoinHolds                                 //   about to swap
    | JoinLeaves(batch: seq<Managed>, ticket: nat)             // swapped, about to release the mutex
    | Joining(batch: seq<Managed>, next: nat, ticket: nat)     // without the mutex, about to look at batch[next]
    | Blocked(batch: seq<Managed>, next: nat, ticket: nat)     // inside join of batch[next]

  /** Where a worker's std::thread object is. Tickets number the swaps. */
  datatype Place =
    | Pending
    | Registered
    | InBatch(holder: Thread, ticket: nat)
    | Joined(ticket: nat)
    | Detached(ticket: nat)

  datatype State = State(
    mutex: Option<Thread>,
    registry: seq<Managed>,     // threads_
    pc: map<Thread, Pc>,
    stop: set<nat>,             // workers whose stop flag is true
    // history
    place: seq<Place>,          // by worker id; its length is the number of threads created
    swaps: nat)

  datatype Action =
    | CallStart(t: Thread, name: string, hasWorker: bool)
    | CallStop(t: Thread)
    | CallJoin(t: Thread)
    | Acquire(t: Thread)
    | Release(t: Thread)
    | Check(t: Thread)
    | Spawn(t: Thread)
    | SpawnFails(t: Thread)     // std::thread's constructor throws
    | Push(t: Thread)
    | StoreFlag(t: Thread)
    | Swap(t: Thread)
    | Look(t: Thread)           // joinable? self? otherwise enter join
    | JoinReturns(t: Thread)
    | Finish(t: Thread)         // the batch is done with
    | End(t: Thread)            // a worker's function is over

  predicate Holds(p: Pc) {
    p.StartHolds? || p.StartChecked? || p.StartSpawned? || p.StartLeaves? || p.StopHolds? || p.JoinHolds?
        || p.JoinLeaves?
  }

  predicate HasBatch(p: Pc) {
    p.JoinLeaves? || p.Joining? || p.Blocked?
  }

  /** Index of the first batch entry still to be dealt with. */
  function Cursor(p: Pc): nat
    requires HasBatch(p)
  {
    if p.JoinLeaves? then 0 else p.next
  }

  /** Which swap took a worker out of the registry. */
  function TakenAt(p: Place): Option<nat> {
    match p
    case Pending => None
    case Registered => None
    case InBatch(_, k) => Some(k)
    case Joined(k) => Some(k)
    case Detached(k) => Some(k)
  }

  predicate Joinable(s: State, w: nat)
    requires w < |s.place|
  {
    !s.place[w].Joined? && !s.place[w].Detached?
  }

  predicate NameTaken(s: State, name: string) {
    exists i :: 0 <= i < |s.registry| && s.registry[i].name == name
  }

  predicate Initial(s: State) {
    && s.mutex == None && s.registry == [] && s.stop == {} && s.place == [] && s.swaps == 0
    && forall t :: t in s.pc ==> t.Outside? && s.pc[t] == Own
  }

  /** The batch positions a thread may still read are workers that exist. */
  predicate InBounds(s: State, p: Pc) {
    && (HasBatch(p) ==> Cursor(p) <= |p.batch| && forall j :: 0 <= j < |p.batch| ==> p.batch[j].worker < |s.place|)
    && (p.StartSpawned? ==> p.created < |s.place|)
    && (p.Blocked? ==> p.next < |p.batch| && Worker(p.batch[p.next].worker) in s.pc)
  }

  predicate Enabled(s: State, a: Action) {
    && a.t in s.pc
    && (forall i :: 0 <= i < |s.registry| ==> s.registry[i].worker < |s.place|)
    && var p := s.pc[a.t];
    && InBounds(s, p)
    && match a
       case CallStart(_, _, _) => p.Own?
       case CallStop(_) => p.Own?
       case CallJoin(_) => p.Own?
       case Acquire(_) => s.mutex == None && (p.StartWaits? || p.StopWaits? || p.JoinWaits?)
       case Release(_) => p.StartLeaves? || p.JoinLeaves? || (p.StopHolds? && p.flags >= |s.registry|)
       case Check(_) => p.StartHolds?
       case Spawn(_) => p.StartChecked?
       case SpawnFails(_) => p.StartChecked?
       case Push(_) => p.StartSpawned?
       case StoreFlag(_) => p.StopHolds? && p.flags < |s.registry|
       case Swap(_) => p.JoinHolds?
       case Look(_) => p.Joining? && p.next < |p.batch|
       case JoinReturns(_) => p.Blocked? && s.pc[Worker(p.batch[p.next].worker)] == Ended
       case Finish(_) => p.Joining? && p.next == |p.batch|
       case End(t) => t.Worker? && p.Own?
  }

  /** Every thread object in the registry moves to one batch. */
  function TakeAll(place: seq<Place>, registry: seq<Managed>, holder: Thread, ticket: nat): (r: seq<Place>)
    requires forall i :: 0 <= i < |registry| ==> registry[i].worker < |place|
    ensures |r| == |place|
    ensures forall i :: 0 <= i < |registry| ==> r[registry[i].worker] == InBatch(holder, ticket)
    ensures forall w :: 0 <= w < |place| && (forall i :: 0 <= i < |registry| ==> registry[i].worker != w) ==>
              r[w] == place[w]
  {
    if registry == [] then place
    else TakeAll(place, registry[1..], holder, ticket)[registry[0].worker := InBatch(holder, ticket)]
  }

  function Apply(s: State, a: Action): State
    requires Enabled(s, a)
  {
    var t, p := a.t, s.pc[a.t];
    match a
    case CallStart(_, name, hasWorker) => if hasWorker then s.(pc := s.pc[t := StartWaits(name)]) else s
    case CallStop(_) => s.(pc := s.pc[t := StopWaits])
    case CallJoin(_) => s.(pc := s.pc[t := JoinWaits])
    case Acquire(_) =>
      s.(mutex := Some(t),
         pc := s.pc[t := if p.StartWaits? then StartHolds(p.name)
                         else if p.StopWaits? then StopHolds(0) else JoinHolds])
    case Release(_) =>
      s.(mutex := None, pc := s.pc[t := if p.JoinLeaves? then Joining(p.batch, 0, p.ticket) else Own])
    case Check(_) => s.(pc := s.pc[t := if NameTaken(s, p.name) then StartLeaves else StartChecked(p.name)])
    case Spawn(_) =>
      var created := |s.place|;
      s.(pc := s.pc[t := StartSpawned(p.name, created)][Worker(created) := Own], place := s.place + [Pending])
    case SpawnFails(_) => s.(pc := s.pc[t := StartLeaves])
    case Push(_) =>
      s.(registry := s.registry + [Managed(p.name, p.created)],
         place := s.place[p.created := Registered], pc := s.pc[t := StartLeaves])
    case StoreFlag(_) =>
      s.(stop := s.stop + {s.registry[p.flags].worker}, pc := s.pc[t := StopHolds(p.flags + 1)])
    case Swap(_) =>
      s.(registry := [], place := TakeAll(s.place, s.registry, t, s.swaps), swaps := s.swaps + 1,
         pc := s.pc[t := JoinLeaves(s.registry, s.swaps)])
    case Look(_) =>
      var w := p.batch[p.next].worker;
      if !Joinable(s, w) then s.(pc := s.pc[t := Joining(p.batch, p.next + 1, p.ticket)])
      else if t == Worker(w) then
        s.(place := s.place[w := Detached(p.ticket)], pc := s.pc[t := Joining(p.batch, p.next + 1, p.ticket)])
      else s.(pc := s.pc[t := Blocked(p.batch, p.next, p.ticket)])
    case JoinReturns(_) =>
      s.(place := s.place[p.batch[p.next].worker := Joined(p.ticket)],
          pc := s.pc[t := Joining(p.batch, p.next + 1, p.ticket)])
    case Finish(_) => s.(pc := s.pc[t := Own])
    case End(_) => s.(pc := s.pc[t := Ended])
  }

  // ----- The invariant -----

  ghost predicate ThreadsExist(s: State) {
    && (forall w: nat :: Worker(w) in s.pc <==> w < |s.place|)
    && (forall t :: t in s.pc ==> InBounds(s, s.pc[t]))
  }

  /** The mutex belongs to the one thread inside a critical section. */
  ghost predicate MutexSound(s: State) {
    && (forall t :: t in s.pc && Holds(s.pc[t]) ==> s.mutex == Some(t))
    && (s.mutex.Some? ==> s.mutex.value in s.pc && Holds(s.pc[s.mutex.value]))
  }

  ghost predicate RegistrySound(s: State) {
    && (forall i :: 0 <= i < |s.registry| ==>
          s.registry[i].worker < |s.place| && s.place[s.registry[i].worker] == Registered)
    && (forall i, j :: 0 <= i < j < |s.registry| ==>
          s.registry[i].worker != s.registry[j].worker && s.registry[i].name != s.registry[j].name)
    && (forall w :: 0 <= w < |s.place| && s.place[w] == Registered ==>
          exists i :: 0 <= i < |s.registry| && s.registry[i].worker == w)
    && (forall t :: t in s.pc && (s.pc[t].StartChecked? || s.pc[t].StartSpawned?) ==> !NameTaken(s, s.pc[t].name))
    && (forall t :: t in s.pc && s.pc[t].StopHolds? ==>
          s.pc[t].flags <= |s.registry| && forall i :: 0 <= i < s.pc[t].flags ==> s.registry[i].worker in s.stop)
  }

  /** A thread object outside registry and batches belongs to a startThread that still holds the mutex. */
  ghost predicate PendingSound(s: State) {
    && (forall t :: t in s.pc && s.pc[t].StartSpawned? ==>
          s.pc[t].created < |s.place| && s.place[s.pc[t].created] == Pending)
    && (forall w :: 0 <= w < |s.place| && s.place[w] == Pending ==>
          s.mutex.Some? && s.mutex.value in s.pc && s.pc[s.mutex.value].StartSpawned?
              && s.pc[s.mutex.value].created == w)
  }

  ghost predicate BatchSound(s: State, t: Thread)
    requires t in s.pc && HasBatch(s.pc[t]) && InBounds(s, s.pc[t])
  {
    var p := s.pc[t];
    && p.ticket < s.swaps
    && (forall i, j :: 0 <= i < j < |p.batch| ==> p.batch[i].worker != p.batch[j].worker)
    && (forall j :: 0 <= j < Cursor(p) ==>
          !Joinable(s, p.batch[j].worker) && TakenAt(s.place[p.batch[j].worker]) == Some(p.ticket))
    && (forall j :: Cursor(p) <= j < |p.batch| ==> s.place[p.batch[j].worker] == InBatch(t, p.ticket))
    && (p.Blocked? ==> t != Worker(p.batch[p.next].worker))
  }

  /**
   Every batch entry is where its call left it, no two calls share a ticket,
   and no thread object is outside its batch.
  */
  ghost predicate BatchesSound(s: State)
    requires ThreadsExist(s)
  {
    && (forall t :: t in s.pc && HasBatch(s.pc[t]) ==> BatchSound(s, t))
    && TicketsDistinct(s)
    && (forall w :: 0 <= w < |s.place| && s.place[w].InBatch? ==> Carries(s, s.place[w].holder, w))
  }

  ghost predicate TicketsDistinct(s: State) {
    forall t, u ::
      t in s.pc && u in s.pc && HasBatch(s.pc[t]) && HasBatch(s.pc[u]) && s.pc[t].ticket == s.pc[u].ticket ==> t == u
  }

  /** Thread t still has worker w's std::thread in its batch. */
  ghost predicate Carries(s: State, t: Thread, w: nat) {
    && t in s.pc && HasBatch(s.pc[t])
    && exists j :: Cursor(s.pc[t]) <= j < |s.pc[t].batch| && s.pc[t].batch[j].worker == w
  }

  ghost predicate TicketsSound(s: State)
    requires ThreadsExist(s)
  {
    && (forall w :: 0 <= w < |s.place| && TakenAt(s.place[w]).Some? ==> TakenAt(s.place[w]).value < s.swaps)
    // a worker inside joinAll was itself taken by that call's swap or an earlier one
    && (forall w: nat :: Worker(w) in s.pc && HasBatch(s.pc[Worker(w)]) ==>
          TakenAt(s.place[w]).Some? && TakenAt(s.place[w]).value <= s.pc[Worker(w)].ticket)
    && (forall w :: 0 <= w < |s.place| && s.place[w].Joined? ==> s.pc[Worker(w)] == Ended)
  }

  ghost predicate Inv(s: State) {
    && ThreadsExist(s)
    && MutexSound(s)
    && RegistrySound(s)
    && PendingSound(s)
    && BatchesSound(s)
    && TicketsSound(s)
  }

  lemma InitialInv(s: State)
    requires Initial(s)
    ensures Inv(s)
  {}

  // ----- Every step keeps it -----

  /** All of the invariant but the batches. */
  ghost predicate Light(s: State) {
    ThreadsExist(s) && MutexSound(s) && RegistrySound(s) && PendingSound(s) && TicketsSound(s)
  }

  /** One thread moves on inside its own call without taking or giving up the mutex. */
  ghost predicate Moves(s: State, t: Thread, p': Pc) {
    && t in s.pc && s.pc[t] != Ended
    && InBounds(s, p')
    && Holds(p') == Holds(s.pc[t])
    && !s.pc[t].StartSpawned? && !p'.StartSpawned?
    && (p'.StartChecked? ==> !NameTaken(s, p'.name))
    && (p'.StopHolds? ==> p'.flags <= |s.registry| && forall i :: 0 <= i < p'.flags ==> s.registry[i].worker in s.stop)
    && (HasBatch(p') ==> HasBatch(s.pc[t]) && s.pc[t].ticket == p'.ticket)
  }

  lemma MovingKeepsMost(s: State, t: Thread, p': Pc)
    requires ThreadsExist(s) && MutexSound(s) && TicketsSound(s) && Moves(s, t, p')
    ensures var s' := s.(pc := s.pc[t := p']); ThreadsExist(s') && MutexSound(s') && TicketsSound(s')
  {}

  lemma MovingKeepsRegistry(s: State, t: Thread, p': Pc)
    requires ThreadsExist(s) && RegistrySound(s) && PendingSound(s) && Moves(s, t, p')
    ensures var s' := s.(pc := s.pc[t := p']); RegistrySound(s') && PendingSound(s')
  {}

  lemma MovingKeepsLight(s: State, t: Thread, p': Pc)
    requires Inv(s) && Moves(s, t, p')
    ensures Light(s.(pc := s.pc[t := p']))
  {
    MovingKeepsMost(s, t, p');
    MovingKeepsRegistry(s, t, p');
  }

  /** What a thread's place in the code asks of the registry. */
  ghost predicate FitsRegistry(s: State, p: Pc) {
    && (p.StartChecked? || p.StartSpawned? ==> !NameTaken(s, p.name))
    && (p.StopHolds? ==> p.flags <= |s.registry| && forall i :: 0 <= i < p.flags ==> s.registry[i].worker in s.stop)
  }

  /** The registry, the flags and the registered thread objects are as they were. */
  lemma SameRegistryStaysSound(s: State, s': State)
    requires RegistrySound(s) && s'.registry == s.registry && s'.stop == s.stop && s.place <= s'.place
    requires forall w :: |s.place| <= w < |s'.place| ==> s'.place[w] != Registered
    requires forall u :: u in s'.pc ==> FitsRegistry(s, s'.pc[u])
    ensures RegistrySound(s')
  {
    forall u | u in s'.pc
      ensures FitsRegistry(s', s'.pc[u])
    {
      assert FitsRegistry(s, s'.pc[u]);
    }
  }

  /** The free mutex is taken, or the thread inside a critical section gives it up. */
  ghost predicate Locks(s: State, s': State, t: Thread, p': Pc) {
    && t in s.pc && s.pc[t] != Ended && InBounds(s, p') && !p'.StartChecked? && !p'.StartSpawned?
          && !s.pc[t].StartSpawned?
    && (if Holds(p') then s.mutex == None && s'.mutex == Some(t) else Holds(s.pc[t]) && s'.mutex == None)
    && (p'.StopHolds? ==> p'.flags == 0)
    && (HasBatch(p') ==> HasBatch(s.pc[t]) && s.pc[t].ticket == p'.ticket)
    && s' == s.(mutex := s'.mutex, pc := s.pc[t := p'])
  }

  lemma LockingKeepsMutex(s: State, s': State, t: Thread, p': Pc)
    requires ThreadsExist(s) && MutexSound(s) && PendingSound(s) && Locks(s, s', t, p')
    ensures ThreadsExist(s') && MutexSound(s') && PendingSound(s')
  {}

  lemma LockingKeepsRegistry(s: State, s': State, t: Thread, p': Pc)
    requires RegistrySound(s) && Locks(s, s', t, p')
    ensures RegistrySound(s')
  {
    forall u | u in s'.pc
      ensures FitsRegistry(s, s'.pc[u])
    {
      assert u != t ==> s'.pc[u] == s.pc[u];
    }
    SameRegistryStaysSound(s, s');
  }

  lemma LockingKeepsTickets(s: State, s': State, t: Thread, p': Pc)
    requires ThreadsExist(s) && TicketsSound(s) && Locks(s, s', t, p') && ThreadsExist(s')
    ensures TicketsSound(s')
  {}

  lemma LockingKeepsLight(s: State, s': State, t: Thread, p': Pc)
    requires Inv(s) && Locks(s, s', t, p')
    ensures Light(s')
  {
    LockingKeepsMutex(s, s', t, p');
    LockingKeepsRegistry(s, s', t, p');
    LockingKeepsTickets(s, s', t, p');
  }

  /** A thread object is created, in nobody's hands but its creator's. */
  ghost predicate Spawns(s: State, s': State, t: Thread) {
    && t in s.pc && s.pc[t].StartChecked? && Worker(|s.place|) !in s.pc
    && s' == s.(pc := s.pc[t := StartSpawned(s.pc[t].name, |s.place|)][Worker(|s.place|) := Own],
          place := s.place + [Pending])
  }

  lemma SpawnKeepsMost(s: State, s': State, t: Thread)
    requires ThreadsExist(s) && MutexSound(s) && PendingSound(s) && Spawns(s, s', t)
    ensures ThreadsExist(s') && MutexSound(s') && PendingSound(s')
  {}

  lemma SpawnKeepsRegistry(s: State, s': State, t: Thread)
    requires RegistrySound(s) && Spawns(s, s', t)
    ensures RegistrySound(s')
  {
    forall u | u in s'.pc
      ensures FitsRegistry(s, s'.pc[u])
    {
      assert u != t && u != Worker(|s.place|) ==> u in s.pc && s'.pc[u] == s.pc[u];
    }
    SameRegistryStaysSound(s, s');
  }

  lemma SpawnKeepsTickets(s: State, s': State, t: Thread)
    requires ThreadsExist(s) && TicketsSound(s) && Spawns(s, s', t) && ThreadsExist(s')
    ensures TicketsSound(s')
  {}

  lemma SpawnKeepsInv(s: State, a: Action)
    requires Inv(s) && Enabled(s, a) && a.Spawn?
    ensures Inv(Apply(s, a))
  {
    var s' := Apply(s, a);
    SpawnKeepsMost(s, s', a.t);
    SpawnKeepsRegistry(s, s', a.t);
    SpawnKeepsTickets(s, s', a.t);
    LeavingKeepsBatches(s, s', a.t);
  }

  /** The thread object just created enters the registry. */
  ghost predicate Pushes(s: State, s': State, t: Thread) {
    && t in s.pc && s.pc[t].StartSpawned? && s.pc[t].created < |s.place|
    && s' == s.(registry := s.registry + [Managed(s.pc[t].name, s.pc[t].created)],
                place := s.place[s.pc[t].created := Registered], pc := s.pc[t := StartLeaves])
  }

  /** The new entry is Registered, and differs from the others in its worker and its name. */
  lemma PushExtendsRegistry(s: State, s': State, t: Thread)
    requires RegistrySound(s) && PendingSound(s) && Pushes(s, s', t)
    ensures forall i :: 0 <= i < |s'.registry| ==>
              s'.registry[i].worker < |s'.place| && s'.place[s'.registry[i].worker] == Registered
    ensures forall i, j :: 0 <= i < j < |s'.registry| ==>
              s'.registry[i].worker != s'.registry[j].worker && s'.registry[i].name != s'.registry[j].name
  {
    var n := |s.registry|;
    assert s'.registry[n] == Managed(s.pc[t].name, s.pc[t].created);
    forall i | 0 <= i < n
      ensures s'.registry[i] == s.registry[i]
      ensures s.registry[i].worker != s.pc[t].created && s.registry[i].name != s.pc[t].name
    {
      assert s.place[s.registry[i].worker] == Registered && s.place[s.pc[t].created] == Pending;
    }
  }

  lemma PushCoversRegistered(s: State, s': State, t: Thread, w: nat)
    requires RegistrySound(s) && Pushes(s, s', t) && w < |s'.place| && s'.place[w] == Registered
    ensures exists i :: 0 <= i < |s'.registry| && s'.registry[i].worker == w
  {
    if w == s.pc[t].created {
      assert s'.registry[|s.registry|].worker == w;
    } else {
      var i :| 0 <= i < |s.registry| && s.registry[i].worker == w;
      assert s'.registry[i].worker == w;
    }
  }

  lemma PushKeepsRegistry(s: State, s': State, t: Thread)
    requires MutexSound(s) && RegistrySound(s) && PendingSound(s) && Pushes(s, s', t)
    ensures RegistrySound(s')
  {
    forall u | u in s'.pc
      ensures !s'.pc[u].StartChecked? && !s'.pc[u].StartSpawned? && !s'.pc[u].StopHolds?
    {}
    PushExtendsRegistry(s, s', t);
    forall w | 0 <= w < |s'.place| && s'.place[w] == Registered
      ensures exists i :: 0 <= i < |s'.registry| && s'.registry[i].worker == w
    {
      PushCoversRegistered(s, s', t, w);
    }
  }

  lemma PushKeepsMost(s: State, s': State, t: Thread)
    requires ThreadsExist(s) && MutexSound(s) && PendingSound(s) && Pushes(s, s', t)
    ensures ThreadsExist(s') && MutexSound(s') && PendingSound(s')
  {}

  lemma PushKeepsTickets(s: State, s': State, t: Thread)
    requires ThreadsExist(s) && PendingSound(s) && TicketsSound(s) && Pushes(s, s', t) && ThreadsExist(s')
    ensures TicketsSound(s')
  {}

  lemma PushKeepsInv(s: State, a: Action)
    requires Inv(s) && Enabled(s, a) && a.Push?
    ensures Inv(Apply(s, a))
  {
    var s' := Apply(s, a);
    PushKeepsRegistry(s, s', a.t);
    PushKeepsMost(s, s', a.t);
    PushKeepsTickets(s, s', a.t);
    LeavingKeepsBatches(s, s', a.t);
  }

  /** One more flag is raised. */
  ghost predicate Stores(s: State, s': State, t: Thread) {
    && t in s.pc && s.pc[t].StopHolds? && s.pc[t].flags < |s.registry|
    && s' == s.(stop := s.stop + {s.registry[s.pc[t].flags].worker}, pc := s.pc[t := StopHolds(s.pc[t].flags + 1)])
  }

  lemma StoreKeepsMost(s: State, s': State, t: Thread)
    requires ThreadsExist(s) && MutexSound(s) && PendingSound(s) && TicketsSound(s) && Stores(s, s', t)
    ensures ThreadsExist(s') && MutexSound(s') && PendingSound(s') && TicketsSound(s')
  {}

  lemma StoreRaisesNext(s: State, s': State, t: Thread)
    requires RegistrySound(s) && Stores(s, s', t)
    ensures s'.pc[t].flags <= |s.registry| && forall i :: 0 <= i < s'.pc[t].flags ==> s.registry[i].worker in s'.stop
  {}

  lemma StoreKeepsRegistry(s: State, s': State, t: Thread)
    requires MutexSound(s) && RegistrySound(s) && Stores(s, s', t)
    ensures RegistrySound(s')
  {
    forall u | u in s'.pc && s'.pc[u].StopHolds?
      ensures u == t
    {}
    StoreRaisesNext(s, s', t);
  }

  lemma StoreKeepsInv(s: State, a: Action)
    requires Inv(s) && Enabled(s, a) && a.StoreFlag?
    ensures Inv(Apply(s, a))
  {
    var s' := Apply(s, a);
    StoreKeepsMost(s, s', a.t);
    StoreKeepsRegistry(s, s', a.t);
    LeavingKeepsBatches(s, s', a.t);
  }

  /** The whole registry moves into one thread's batch. */
  ghost predicate Swaps(s: State, s': State, t: Thread) {
    && t in s.pc && s.pc[t].JoinHolds?
    && (forall i :: 0 <= i < |s.registry| ==> s.registry[i].worker < |s.place|)
    && s' == s.(registry := [], place := TakeAll(s.place, s.registry, t, s.swaps), swaps := s.swaps + 1,
                pc := s.pc[t := JoinLeaves(s.registry, s.swaps)])
  }

  lemma SwappingKeepsLight(s: State, s': State, t: Thread)
    requires ThreadsExist(s) && MutexSound(s) && RegistrySound(s) && PendingSound(s) && Swaps(s, s', t)
    ensures ThreadsExist(s') && MutexSound(s') && RegistrySound(s') && PendingSound(s')
  {}

  /**
   The acting worker, if it is one, was registered before it could take the
   mutex, so this swap or an earlier one took it.
  */
  lemma SwappingKeepsTickets(s: State, s': State, t: Thread)
    requires Inv(s) && Swaps(s, s', t) && ThreadsExist(s')
    ensures TicketsSound(s')
  {}

  lemma SwappingKeepsBatch(s: State, s': State, t: Thread, u: Thread)
    requires ThreadsExist(s) && RegistrySound(s) && BatchesSound(s) && Swaps(s, s', t) && ThreadsExist(s')
    requires u in s'.pc && HasBatch(s'.pc[u])
    ensures BatchSound(s', u) && (u != t ==> s'.pc[u].ticket < s.swaps)
  {
    if u != t {
      assert BatchSound(s, u);
    }
  }

  lemma SwappingKeepsCarried(s: State, s': State, t: Thread, w: nat)
    requires ThreadsExist(s) && BatchesSound(s) && Swaps(s, s', t)
    requires w < |s'.place| && s'.place[w].InBatch?
    ensures Carries(s', s'.place[w].holder, w)
  {
    if i :| 0 <= i < |s.registry| && s.registry[i].worker == w {
      assert s'.pc[t].batch[i].worker == w;
    } else {
      assert Carries(s, s.place[w].holder, w);
    }
  }

  lemma SwappingKeepsBatches(s: State, s': State, t: Thread)
    requires ThreadsExist(s) && RegistrySound(s) && BatchesSound(s) && Swaps(s, s', t) && ThreadsExist(s')
    ensures BatchesSound(s')
  {
    forall u | u in s'.pc && HasBatch(s'.pc[u])
      ensures BatchSound(s', u) && (u != t ==> s'.pc[u].ticket < s.swaps)
    {
      SwappingKeepsBatch(s, s', t, u);
    }
    forall w | 0 <= w < |s'.place| && s'.place[w].InBatch?
      ensures Carries(s', s'.place[w].holder, w)
    {
      SwappingKeepsCarried(s, s', t, w);
    }
  }

  lemma SwapKeepsInv(s: State, a: Action)
    requires Inv(s) && Enabled(s, a) && a.Swap?
    ensures Inv(Apply(s, a))
  {
    var s' := Apply(s, a);
    SwappingKeepsLight(s, s', a.t);
    SwappingKeepsTickets(s, s', a.t);
    SwappingKeepsBatches(s, s', a.t);
  }

  /** One batch entry is dealt with: its thread object becomes joined or detached. */
  ghost predicate DealsWith(s: State, s': State, t: Thread, fate: Place) {
    && t in s.pc && (s.pc[t].Joining? || s.pc[t].Blocked?) && InBounds(s, s.pc[t]) && s.pc[t].next < |s.pc[t].batch|
    && var p := s.pc[t];
    && var w := p.batch[p.next].worker;
    && (fate == Detached(p.ticket)
          || (fate == Joined(p.ticket) && t != Worker(w) && Worker(w) in s.pc && s.pc[Worker(w)] == Ended))
    && s' == s.(place := s.place[w := fate], pc := s.pc[t := Joining(p.batch, p.next + 1, p.ticket)])
  }

  lemma DealingKeepsMost(s: State, s': State, t: Thread, fate: Place)
    requires ThreadsExist(s) && MutexSound(s) && PendingSound(s) && DealsWith(s, s', t, fate) && BatchSound(s, t)
    ensures ThreadsExist(s') && MutexSound(s') && PendingSound(s')
  {}

  lemma DealingKeepsRegistry(s: State, s': State, t: Thread, fate: Place)
    requires ThreadsExist(s) && RegistrySound(s) && DealsWith(s, s', t, fate) && BatchSound(s, t)
    ensures RegistrySound(s')
  {}

  lemma DealingKeepsTickets(s: State, s': State, t: Thread, fate: Place)
    requires ThreadsExist(s) && TicketsSound(s) && DealsWith(s, s', t, fate) && BatchSound(s, t) && ThreadsExist(s')
    ensures TicketsSound(s')
  {}

  lemma DealingKeepsOwnBatch(s: State, s': State, t: Thread, fate: Place)
    requires ThreadsExist(s) && DealsWith(s, s', t, fate) && BatchSound(s, t) && ThreadsExist(s')
    ensures BatchSound(s', t)
  {}

  lemma DealingKeepsOtherBatch(s: State, s': State, t: Thread, fate: Place, u: Thread)
    requires ThreadsExist(s) && DealsWith(s, s', t, fate) && BatchSound(s, t) && ThreadsExist(s')
    requires u != t && u in s.pc && HasBatch(s.pc[u]) && BatchSound(s, u)
    ensures BatchSound(s', u)
  {}

  lemma DealingKeepsCarried(s: State, s': State, t: Thread, fate: Place, w: nat)
    requires ThreadsExist(s) && BatchesSound(s) && DealsWith(s, s', t, fate) && w < |s'.place| && s'.place[w].InBatch?
    ensures Carries(s', s'.place[w].holder, w)
  {
    var u := s.place[w].holder;
    assert Carries(s, u, w);
    var j :| Cursor(s.pc[u]) <= j < |s.pc[u].batch| && s.pc[u].batch[j].worker == w;
    assert s'.pc[u].batch[j].worker == w && Cursor(s'.pc[u]) <= j;
  }

  lemma DealingKeepsBatches(s: State, s': State, t: Thread, fate: Place)
    requires ThreadsExist(s) && BatchesSound(s) && DealsWith(s, s', t, fate) && ThreadsExist(s')
    ensures BatchesSound(s')
  {
    assert BatchSound(s, t);
    forall u | u in s'.pc && HasBatch(s'.pc[u])
      ensures BatchSound(s', u)
    {
      if u == t {
        DealingKeepsOwnBatch(s, s', t, fate);
      } else {
        DealingKeepsOtherBatch(s, s', t, fate, u);
      }
    }
    forall w | 0 <= w < |s'.place| && s'.place[w].InBatch?
      ensures Carries(s', s'.place[w].holder, w)
    {
      DealingKeepsCarried(s, s', t, fate, w);
    }
  }

  lemma DealingKeepsInv(s: State, s': State, t: Thread, fate: Place)
    requires Inv(s) && DealsWith(s, s', t, fate)
    ensures Inv(s')
  {
    assert BatchSound(s, t);
    DealingKeepsMost(s, s', t, fate);
    DealingKeepsRegistry(s, s', t, fate);
    DealingKeepsTickets(s, s', t, fate);
    DealingKeepsBatches(s, s', t, fate);
  }

  /**
   A thread without work left in a batch may move and untaken workers may be
   registered without touching any batch.
  */
  ghost predicate LeavesBatches(s: State, s': State, t: Thread) {
    && t in s.pc && t in s'.pc && !HasBatch(s'.pc[t])
    && (HasBatch(s.pc[t]) ==> Cursor(s.pc[t]) == |s.pc[t].batch|)
    && s'.swaps == s.swaps
    && (forall u :: u in s.pc ==> u in s'.pc && (u != t ==> s'.pc[u] == s.pc[u]))
    && (forall u :: u in s'.pc && u !in s.pc ==> !HasBatch(s'.pc[u]))
    && |s'.place| >= |s.place|
    && (forall w :: 0 <= w < |s.place| ==>
          s'.place[w] == s.place[w] || (TakenAt(s.place[w]) == None && TakenAt(s'.place[w]) == None))
    && (forall w :: |s.place| <= w < |s'.place| ==> s'.place[w] == Pending)
  }

  lemma LeavingKeepsBatch(s: State, s': State, t: Thread, u: Thread)
    requires ThreadsExist(s) && BatchesSound(s) && ThreadsExist(s') && LeavesBatches(s, s', t)
    requires u in s'.pc && HasBatch(s'.pc[u])
    ensures BatchSound(s', u)
  {
    assert u in s.pc && s'.pc[u] == s.pc[u];
    var p := s.pc[u];
    assert BatchSound(s, u);
    forall j | 0 <= j < |p.batch|
      ensures s'.place[p.batch[j].worker] == s.place[p.batch[j].worker]
    {
      assert TakenAt(s.place[p.batch[j].worker]).Some?;
    }
  }

  lemma LeavingKeepsCarried(s: State, s': State, t: Thread, w: nat)
    requires ThreadsExist(s) && BatchesSound(s) && LeavesBatches(s, s', t) && w < |s'.place| && s'.place[w].InBatch?
    ensures Carries(s', s'.place[w].holder, w)
  {
    assert Carries(s, s.place[w].holder, w);
  }

  lemma LeavingKeepsBatches(s: State, s': State, t: Thread)
    requires ThreadsExist(s) && BatchesSound(s) && ThreadsExist(s') && LeavesBatches(s, s', t)
    ensures BatchesSound(s')
  {
    forall u | u in s'.pc && HasBatch(s'.pc[u])
      ensures BatchSound(s', u)
    {
      LeavingKeepsBatch(s, s', t, u);
    }
    forall w | 0 <= w < |s'.place| && s'.place[w].InBatch?
      ensures Carries(s', s'.place[w].holder, w)
    {
      LeavingKeepsCarried(s, s', t, w);
    }
  }

  /** A thread goes on with the same batch at the same entry: it leaves the mutex or enters join. */
  ghost predicate Continues(s: State, s': State, t: Thread) {
    && t in s.pc && HasBatch(s.pc[t]) && t in s'.pc && HasBatch(s'.pc[t])
    && s'.pc[t].batch == s.pc[t].batch && s'.pc[t].ticket == s.pc[t].ticket && Cursor(s'.pc[t]) == Cursor(s.pc[t])
    && (s'.pc[t].Blocked? ==> s'.pc[t].next < |s.pc[t].batch| && t != Worker(s.pc[t].batch[s'.pc[t].next].worker))
    && s' == s.(mutex := s'.mutex, pc := s.pc[t := s'.pc[t]])
  }

  lemma ContinuingKeepsBatch(s: State, s': State, t: Thread, u: Thread)
    requires ThreadsExist(s) && BatchesSound(s) && ThreadsExist(s') && Continues(s, s', t)
    requires u in s'.pc && HasBatch(s'.pc[u])
    ensures BatchSound(s', u)
  {
    var p, p' := s.pc[u], s'.pc[u];
    assert BatchSound(s, u);
    assert p'.batch == p.batch && p'.ticket == p.ticket && Cursor(p') == Cursor(p) && s'.place == s.place;
  }

  lemma ContinuingKeepsCarried(s: State, s': State, t: Thread, w: nat)
    requires ThreadsExist(s) && BatchesSound(s) && Continues(s, s', t) && w < |s'.place| && s'.place[w].InBatch?
    ensures Carries(s', s'.place[w].holder, w)
  {
    assert Carries(s, s.place[w].holder, w);
  }

  lemma ContinuingKeepsBatches(s: State, s': State, t: Thread)
    requires ThreadsExist(s) && BatchesSound(s) && ThreadsExist(s') && Continues(s, s', t)
    ensures BatchesSound(s')
  {
    forall u | u in s'.pc && HasBatch(s'.pc[u])
      ensures BatchSound(s', u)
    {
      ContinuingKeepsBatch(s, s', t, u);
    }
    forall w | 0 <= w < |s'.place| && s'.place[w].InBatch?
      ensures Carries(s', s'.place[w].holder, w)
    {
      ContinuingKeepsCarried(s, s', t, w);
    }
  }

  lemma ReleaseKeepsInv(s: State, a: Action)
    requires Inv(s) && Enabled(s, a) && a.Release?
    ensures Inv(Apply(s, a))
  {
    var s' := Apply(s, a);
    LockingKeepsLight(s, s', a.t, s'.pc[a.t]);
    if s.pc[a.t].JoinLeaves? {
      ContinuingKeepsBatches(s, s', a.t);
    } else {
      LeavingKeepsBatches(s, s', a.t);
    }
  }

  lemma AcquireKeepsInv(s: State, a: Action)
    requires Inv(s) && Enabled(s, a) && a.Acquire?
    ensures Inv(Apply(s, a))
  {
    var s' := Apply(s, a);
    LockingKeepsLight(s, s', a.t, s'.pc[a.t]);
    LeavingKeepsBatches(s, s', a.t);
  }

  lemma LookKeepsInv(s: State, a: Action)
    requires Inv(s) && Enabled(s, a) && a.Look?
    ensures Inv(Apply(s, a))
  {
    var p := s.pc[a.t];
    assert BatchSound(s, a.t);
    var w := p.batch[p.next].worker;
    if a.t == Worker(w) {
      DealingKeepsInv(s, Apply(s, a), a.t, Detached(p.ticket));
    } else {
      MovingKeepsLight(s, a.t, Blocked(p.batch, p.next, p.ticket));
      ContinuingKeepsBatches(s, Apply(s, a), a.t);
    }
  }

  lemma QuietKeepsInv(s: State, a: Action, p': Pc)
    requires Inv(s) && Enabled(s, a) && Moves(s, a.t, p') && !HasBatch(p')
    requires HasBatch(s.pc[a.t]) ==> Cursor(s.pc[a.t]) == |s.pc[a.t].batch|
    ensures Inv(s.(pc := s.pc[a.t := p']))
  {
    var s' := s.(pc := s.pc[a.t := p']);
    MovingKeepsLight(s, a.t, p');
    LeavingKeepsBatches(s, s', a.t);
  }

  /** The steps that neither touch the mutex nor any thread object. */
  predicate QuietAction(a: Action) {
    a.CallStart? || a.CallStop? || a.CallJoin? || a.Check? || a.SpawnFails? || a.Finish? || a.End?
  }

  lemma QuietMoves(s: State, a: Action)
    requires ThreadsExist(s) && Enabled(s, a) && QuietAction(a)
    ensures var p, p' := s.pc[a.t], Apply(s, a).pc[a.t];
            && Apply(s, a) == s.(pc := s.pc[a.t := p'])
            && Moves(s, a.t, p') && !HasBatch(p') && (HasBatch(p) ==> Cursor(p) == |p.batch|)
  {
    if Apply(s, a) == s {
      assert s.pc[a.t := s.pc[a.t]] == s.pc;
    }
  }

  lemma QuietStepKeepsInv(s: State, a: Action)
    requires Inv(s) && Enabled(s, a) && QuietAction(a)
    ensures Inv(Apply(s, a))
  {
    QuietMoves(s, a);
    QuietKeepsInv(s, a, Apply(s, a).pc[a.t]);
  }

  lemma StepKeepsInv(s: State, a: Action)
    requires Inv(s) && Enabled(s, a)
    ensures Inv(Apply(s, a))
  {
    if a.Acquire? {
      AcquireKeepsInv(s, a);
    } else if a.Release? {
      ReleaseKeepsInv(s, a);
    } else if a.Spawn? {
      SpawnKeepsInv(s, a);
    } else if a.Push? {
      PushKeepsInv(s, a);
    } else if a.StoreFlag? {
      StoreKeepsInv(s, a);
    } else if a.Swap? {
      SwapKeepsInv(s, a);
    } else if a.Look? {
      LookKeepsInv(s, a);
    } else if a.JoinReturns? {
      DealingKeepsInv(s, Apply(s, a), a.t, Joined(s.pc[a.t].ticket));
    } else {
      QuietStepKeepsInv(s, a);
    }
  }

  // ----- Runs -----

  predicate Executable(s: State, acts: seq<Action>)
    decreases |acts|
  {
    acts == [] || (Enabled(s, acts[0]) && Executable(Apply(s, acts[0]), acts[1..]))
  }

  function Execute(s: State, acts: seq<Action>): State
    requires Executable(s, acts)
    decreases |acts|
  {
    if acts == [] then s else Execute(Apply(s, acts[0]), acts[1..])
  }

  lemma {:induction false} RunKeepsInv(s: State, acts: seq<Action>)
    requires Inv(s) && Executable(s, acts)
    ensures Inv(Execute(s, acts))
    decreases |acts|
  {
    if acts != [] {
      StepKeepsInv(s, acts[0]);
      RunKeepsInv(Apply(s, acts[0]), acts[1..]);
    }
  }

  ghost predicate Reachable(s: State) {
    exists s0, acts :: Initial(s0) && Executable(s0, acts) && Execute(s0, acts) == s
  }

  lemma ReachableInv(s: State)
    requires Reachable(s)
    ensures Inv(s)
  {
    var s0, acts :| Initial(s0) && Executable(s0, acts) && Execute(s0, acts) == s;
    InitialInv(s0);
    RunKeepsInv(s0, acts);
  }

  // ----- Joins never wait in a circle -----

  /** Thread t is inside std::thread::join of worker w. */
  predicate WaitsFor(s: State, t: Thread, w: nat) {
    && t in s.pc && s.pc[t].Blocked? && s.pc[t].next < |s.pc[t].batch|
    && s.pc[t].batch[s.pc[t].next].worker == w
  }

  /** A path in the graph "is blocked joining". */
  predicate WaitPath(s: State, path: seq<nat>) {
    forall i :: 0 <= i < |path| - 1 ==> WaitsFor(s, Worker(path[i]), path[i + 1])
  }

  /** A waiting worker's call swapped before that of any waiting worker it waits for. */
  lemma WaitsRaiseTickets(s: State, t: Thread, w: nat)
    requires Inv(s) && WaitsFor(s, t, w) && HasBatch(s.pc[Worker(w)])
    ensures s.pc[t].ticket < s.pc[Worker(w)].ticket < s.swaps
  {
    assert BatchSound(s, t) && BatchSound(s, Worker(w));
  }

  lemma {:induction false} PathRaisesTickets(s: State, path: seq<nat>, i: nat)
    requires Inv(s) && WaitPath(s, path) && 0 < i < |path| - 1
    ensures Worker(path[0]) in s.pc && s.pc[Worker(path[0])].Blocked?
    ensures Worker(path[i]) in s.pc && s.pc[Worker(path[i])].Blocked?
    ensures s.pc[Worker(path[0])].ticket < s.pc[Worker(path[i])].ticket
  {
    assert WaitsFor(s, Worker(path[i]), path[i + 1]) && WaitsFor(s, Worker(path[i - 1]), path[i]);
    WaitsRaiseTickets(s, Worker(path[i - 1]), path[i]);
    if i > 1 {
      PathRaisesTickets(s, path, i - 1);
    }
  }

  /** No chain of workers blocked in join ever comes back to where it started, whatever its length. */
  lemma NoJoinCycle(s: State, path: seq<nat>)
    requires Reachable(s) && WaitPath(s, path) && |path| >= 2
    ensures path[0] != path[|path| - 1]
  {
    ReachableInv(s);
    var n := |path| - 1;
    assert WaitsFor(s, Worker(path[0]), path[1]) && WaitsFor(s, Worker(path[n - 1]), path[n]);
    if path[0] == path[n] {
      WaitsRaiseTickets(s, Worker(path[n - 1]), path[n]);
      if n > 1 {
        PathRaisesTickets(s, path, n - 1);
      }
    }
  }

  /** A thread inside join does not hold the mutex. */
  lemma NoJoinUnderMutex(s: State, t: Thread, w: nat)
    requires Reachable(s) && WaitsFor(s, t, w)
    ensures s.mutex != Some(t)
  {
    ReachableInv(s);
  }

  /** Steps the manager's code takes by itself. */
  predicate Internal(a: Action) {
    !a.CallStart? && !a.CallStop? && !a.CallJoin? && !a.End?
  }

  /** The step a thread inside the manager takes next, when nothing holds it up. */
  function NextStep(s: State, t: Thread): Action
    requires t in s.pc
  {
    match s.pc[t]
    case StartWaits(_) => Acquire(t)
    case StopWaits => Acquire(t)
    case JoinWaits => Acquire(t)
    case StartHolds(_) => Check(t)
    case StartChecked(_) => Spawn(t)
    case StartSpawned(_, _) => Push(t)
    case StopHolds(n) => if n < |s.registry| then StoreFlag(t) else Release(t)
    case JoinHolds => Swap(t)
    case StartLeaves => Release(t)
    case JoinLeaves(_, _) => Release(t)
    case Joining(b, i, _) => if i < |b| then Look(t) else Finish(t)
    case Blocked(_, _, _) => JoinReturns(t)
    case Own => End(t)
    case Ended => End(t)
  }

  lemma HolderMoves(s: State)
    requires Inv(s) && s.mutex.Some?
    ensures s.mutex.value in s.pc
    ensures Internal(NextStep(s, s.mutex.value)) && Enabled(s, NextStep(s, s.mutex.value))
  {
  }

  ghost predicate SomeStepEnabled(s: State) {
    exists u :: u in s.pc && Internal(NextStep(s, u)) && Enabled(s, NextStep(s, u))
  }

  /** A chain of joins from t whose last worker is still in its own code. */
  ghost predicate WaitsForUserCode(s: State, t: Thread, path: seq<nat>) {
    && path != [] && WaitsFor(s, t, path[0]) && WaitPath(s, path)
    && Worker(path[|path| - 1]) in s.pc && s.pc[Worker(path[|path| - 1])].Own?
  }

  /**
   The manager never deadlocks: whenever some thread is inside it, either some
   thread can take its next step there, or a chain of joins leads from this
   thread to a worker that is still in its own code.
  */
  lemma {:induction false} NeverStuck(s: State, t: Thread) returns (path: seq<nat>)
    requires Inv(s) && t in s.pc && !s.pc[t].Own? && !s.pc[t].Ended?
    ensures SomeStepEnabled(s) || WaitsForUserCode(s, t, path)
    decreases if s.pc[t].Blocked? then s.swaps - s.pc[t].ticket else s.swaps + 1
  {
    path := [];
    if s.pc[t].Blocked? {
      var w := s.pc[t].batch[s.pc[t].next].worker;
      assert BatchSound(s, t);
      path := [w];
      if s.pc[Worker(w)].Ended? {
        assert Enabled(s, NextStep(s, t));
      } else if s.pc[Worker(w)].Blocked? {
        WaitsRaiseTickets(s, t, w);
        var rest := NeverStuck(s, Worker(w));
        path := [w] + rest;
      } else if !s.pc[Worker(w)].Own? {
        UnblockedMoves(s, Worker(w));
      }
    } else {
      UnblockedMoves(s, t);
    }
  }

  lemma UnblockedMoves(s: State, t: Thread)
    requires Inv(s) && t in s.pc && !s.pc[t].Own? && !s.pc[t].Ended? && !s.pc[t].Blocked?
    ensures SomeStepEnabled(s)
  {
    if s.mutex.Some? {
      HolderMoves(s);
    } else {
      assert Internal(NextStep(s, t)) && Enabled(s, NextStep(s, t));
    }
  }

  // ----- Where a thread object is -----

  ghost predicate InRegistry(s: State, w: nat) {
    exists i :: 0 <= i < |s.registry| && s.registry[i].worker == w
  }

  /** A startThread still under the mutex has created w and not pushed it. */
  ghost predicate BeingStarted(s: State, w: nat) {
    exists t :: t in s.pc && s.pc[t].StartSpawned? && s.pc[t].created == w
  }

  /**
   Every started thread is in exactly one of: a startThread about to register
   it, the registry, the unprocessed part of one joinAll batch, joined,
   detached; and a joined one has ended.
  */
  lemma ExactlyOneHome(s: State, w: nat)
    requires Reachable(s) && w < |s.place|
    ensures BeingStarted(s, w) <==> s.place[w].Pending?
    ensures InRegistry(s, w) <==> s.place[w].Registered?
    ensures forall t :: Carries(s, t, w) <==> s.place[w].InBatch? && s.place[w].holder == t
    ensures s.place[w].Joined? ==> Worker(w) in s.pc && s.pc[Worker(w)] == Ended
  {
    ReachableInv(s);
    forall t | Carries(s, t, w)
      ensures s.place[w].InBatch? && s.place[w].holder == t
    {
      assert BatchSound(s, t);
    }
  }

  /** joinAll leaves no joinable std::thread behind when its batch is destroyed. */
  lemma BatchIsSpent(s: State, t: Thread)
    requires Reachable(s) && Enabled(s, Finish(t))
    ensures forall j :: 0 <= j < |s.pc[t].batch| ==> !Joinable(s, s.pc[t].batch[j].worker)
  {
    ReachableInv(s);
    assert BatchSound(s, t);
  }

  /**
   Once no call is in progress and the registry is empty, every started worker
   is detached or has ended and been joined.
  */
  lemma QuiescentAllDone(s: State, w: nat)
    requires Reachable(s) && s.registry == [] && w < |s.place|
    requires forall t :: t in s.pc ==> s.pc[t].Own? || s.pc[t].Ended?
    ensures s.place[w].Detached? || (s.place[w].Joined? && Worker(w) in s.pc && s.pc[Worker(w)] == Ended)
  {
    ExactlyOneHome(s, w);
    ReachableInv(s);
  }

  /** A requestStop about to release the mutex has raised the flag of every registered worker. */
  lemma StopReachesAll(s: State, t: Thread)
    requires Reachable(s) && Enabled(s, Release(t)) && s.pc[t].StopHolds?
    ensures forall w: nat :: InRegistry(s, w) ==> w in s.stop
  {
    ReachableInv(s);
  }

  /** Registered names are pairwise distinct at all times. */
  lemma NamesDistinct(s: State)
    requires Reachable(s)
    ensures forall i, j :: 0 <= i < j < |s.registry| ==> s.registry[i].name != s.registry[j].name
  {
    ReachableInv(s);
  }

  /** In this run workers never call the manager. */
  predicate WorkersStayOut(acts: seq<Action>) {
    forall i :: 0 <= i < |acts| ==> acts[i].t.Worker? ==> acts[i].End?
  }

  ghost predicate WorkersOutside(s: State) {
    && (forall w: nat :: Worker(w) in s.pc ==> s.pc[Worker(w)].Own? || s.pc[Worker(w)].Ended?)
    && (forall w :: 0 <= w < |s.place| ==> !s.place[w].Detached?)
  }

  lemma StayingOutStep(s: State, a: Action)
    requires Inv(s) && WorkersOutside(s) && Enabled(s, a) && (a.t.Worker? ==> a.End?)
    ensures WorkersOutside(Apply(s, a))
  {
  }

  /** Only a worker that itself calls the manager can end up detached. */
  lemma {:induction false} NoWorkerIsDetached(s: State, acts: seq<Action>)
    requires Inv(s) && WorkersOutside(s) && Executable(s, acts) && WorkersStayOut(acts)
    ensures WorkersOutside(Execute(s, acts))
    decreases |acts|
  {
    if acts != [] {
      StepKeepsInv(s, acts[0]);
      StayingOutStep(s, acts[0]);
      NoWorkerIsDetached(Apply(s, acts[0]), acts[1..]);
    }
  }

  /**
   A program whose workers never call the manager, such as the sample services:
   once its calls are over and the registry is empty, every thread it ever
   started has ended and been joined.
  */
  lemma ShutdownJoinsAll(s0: State, acts: seq<Action>, w: nat)
    requires Initial(s0) && Executable(s0, acts) && WorkersStayOut(acts)
    requires var s := Execute(s0, acts);
             s.registry == [] && w < |s.place| && forall t :: t in s.pc ==> s.pc[t].Own? || s.pc[t].Ended?
    ensures var s := Execute(s0, acts); s.place[w].Joined? && Worker(w) in s.pc && s.pc[Worker(w)] == Ended
  {
    InitialInv(s0);
    NoWorkerIsDetached(s0, acts);
    QuiescentAllDone(Execute(s0, acts), w);
  }
}
