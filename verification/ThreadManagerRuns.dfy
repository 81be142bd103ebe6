/**
 Calls on the manager taken in one go: for each of startThread, requestStop and
 joinAll, the run of ThreadManagerProtocol in which one thread makes the call
 and no other thread intervenes, except that workers it joins come to an end.
 What the runs lead to is what the contracts in ThreadManager say.
*/
module ThreadManagerRuns {
  import opened Basics
  import opened ThreadManagerProtocol
  import opened ThreadManager

  ghost predicate Leads(s: State, acts: seq<Action>, v: State) {
    Executable(s, acts) && Execute(s, acts) == v
  }

  lemma OneStep(s: State, a: Action)
    requires Enabled(s, a)
    ensures Leads(s, [a], Apply(s, a))
  {
    assert Executable(Apply(s, a), []) && Execute(s, [a]) == Execute(Apply(s, a), [a][1..]);
  }

  lemma {:induction false} Then(s: State, first: seq<Action>, v: State, second: seq<Action>, u: State)
    requires Leads(s, first, v) && Leads(v, second, u)
    ensures Leads(s, first + second, u)
    decreases |first|
  {
    if first == [] {
      assert first + second == second;
    } else {
      Then(Apply(s, first[0]), first[1..], v, second, u);
      assert (first + second)[0] == first[0] && (first + second)[1..] == first[1..] + second;
    }
  }

  /** One more step after a run. */
  lemma Next(s: State, acts: seq<Action>, v: State, a: Action, u: State)
    requires Leads(s, acts, v) && Enabled(v, a) && Apply(v, a) == u
    ensures Leads(s, acts + [a], u)
  {
    OneStep(v, a);
    Then(s, acts, v, [a], u);
  }

  /** Thread t is in its own code and nobody holds the mutex. */
  ghost predicate CanCall(s: State, t: Thread) {
    && t in s.pc && s.pc[t].Own? && s.mutex == None
    && forall i :: 0 <= i < |s.registry| ==> s.registry[i].worker < |s.place|
  }

  /** Thread t has called, entered the critical section and stands at p. */
  function Inside(s: State, t: Thread, p: Pc): State {
    s.(mutex := Some(t), pc := s.pc[t := p])
  }

  lemma Enters(s: State, t: Thread, call: Action, wait: Pc, p: Pc) returns (acts: seq<Action>)
    requires CanCall(s, t)
    requires || (call.CallStart? && call == CallStart(t, call.name, true) && wait == StartWaits(call.name)
              && p == StartHolds(call.name))
             || (call == CallStop(t) && wait == StopWaits && p == StopHolds(0))
             || (call == CallJoin(t) && wait == JoinWaits && p == JoinHolds)
    ensures Leads(s, acts, Inside(s, t, p))
  {
    var v := s.(pc := s.pc[t := wait]);
    assert Enabled(s, call) && Apply(s, call) == v;
    OneStep(s, call);
    assert Apply(v, Acquire(t)) == Inside(s, t, p);
    Next(s, [call], v, Acquire(t), Inside(s, t, p));
    acts := [call] + [Acquire(t)];
  }

  lemma Leaves(s: State, t: Thread, p: Pc)
    requires CanCall(s, t) && p.StartLeaves?
    ensures Leads(Inside(s, t, p), [Release(t)], s)
  {
    var v := Inside(s, t, p);
    OneStep(v, Release(t));
    assert v.pc[t := Own] == s.pc;
  }

  /** What startThread with a free name and a thread that can be created comes to. */
  function AfterStart(s: State, name: string): State {
    s.(registry := s.registry + [Managed(name, |s.place|)], place := s.place + [Registered],
        pc := s.pc[Worker(|s.place|) := Own])
  }

  lemma Creates(s: State, t: Thread, name: string) returns (acts: seq<Action>)
    requires CanCall(s, t) && Worker(|s.place|) !in s.pc
    ensures Leads(Inside(s, t, StartChecked(name)), acts, AfterStart(s, name))
  {
    var created := |s.place|;
    var v, u := Inside(s, t, StartChecked(name)), AfterStart(s, name);
    var v1 := v.(pc := v.pc[t := StartSpawned(name, created)][Worker(created) := Own], place := s.place + [Pending]);
    OneStep(v, Spawn(t));
    assert Apply(v, Spawn(t)) == v1;
    assert v1.place[created := Registered] == u.place && v1.pc[t := StartLeaves] == Inside(u, t, StartLeaves).pc;
    Next(v, [Spawn(t)], v1, Push(t), Inside(u, t, StartLeaves));
    Leaves(u, t, StartLeaves);
    acts := [Spawn(t)] + [Push(t)] + [Release(t)];
    Then(v, [Spawn(t)] + [Push(t)], Inside(u, t, StartLeaves), [Release(t)], u);
  }

  /** startThread with a worker to run. */
  lemma StartsWorker(s: State, t: Thread, name: string, spawns: bool) returns (acts: seq<Action>)
    requires CanCall(s, t) && Worker(|s.place|) !in s.pc
    ensures Leads(s, acts, if NameTaken(s, name) || !spawns then s else AfterStart(s, name))
  {
    acts := Enters(s, t, CallStart(t, name, true), StartWaits(name), StartHolds(name));
    var checked := Inside(s, t, StartChecked(name));
    var after := if NameTaken(s, name) then Inside(s, t, StartLeaves) else checked;
    Next(s, acts, Inside(s, t, StartHolds(name)), Check(t), after);
    acts := acts + [Check(t)];
    if !NameTaken(s, name) && spawns {
      var creating := Creates(s, t, name);
      Then(s, acts, checked, creating, AfterStart(s, name));
      acts := acts + creating;
    } else {
      if !NameTaken(s, name) {
        Next(s, acts, checked, SpawnFails(t), Inside(s, t, StartLeaves));
        acts := acts + [SpawnFails(t)];
      }
      Leaves(s, t, StartLeaves);
      Then(s, acts, Inside(s, t, StartLeaves), [Release(t)], s);
      acts := acts + [Release(t)];
    }
  }

  /**
   startThread: refused without a worker and for a name in use, nothing changed
   if the thread cannot be created, registered last otherwise.
  */
  lemma StartIsARun(s: State, t: Thread, name: string, hasWorker: bool, spawns: bool) returns (acts: seq<Action>)
    requires CanCall(s, t) && Worker(|s.place|) !in s.pc
    ensures Leads(s, acts, if !hasWorker || NameTaken(s, name) || !spawns then s else AfterStart(s, name))
    ensures !hasWorker ==> |acts| == 1
  {
    if hasWorker {
      acts := StartsWorker(s, t, name, spawns);
    } else {
      acts := [CallStart(t, name, false)];
      OneStep(s, CallStart(t, name, false));
    }
  }

  lemma {:induction false} StoresFlags(s: State, t: Thread, n: nat) returns (acts: seq<Action>)
    requires n <= |s.registry| && forall i :: 0 <= i < |s.registry| ==> s.registry[i].worker < |s.place|
    requires t in s.pc && s.pc[t] == StopHolds(0)
    ensures Leads(s, acts, s.(stop := s.stop + Workers(s.registry[..n]), pc := s.pc[t := StopHolds(n)]))
  {
    if n == 0 {
      acts := [];
      assert s.pc[t := StopHolds(0)] == s.pc && s.stop + Workers([]) == s.stop;
    } else {
      acts := StoresFlags(s, t, n - 1);
      var v := s.(stop := s.stop + Workers(s.registry[..n - 1]), pc := s.pc[t := StopHolds(n - 1)]);
      var u := s.(stop := s.stop + Workers(s.registry[..n]), pc := s.pc[t := StopHolds(n)]);
      assert Workers(s.registry[..n]) == Workers(s.registry[..n - 1]) + {s.registry[n - 1].worker};
      assert Apply(v, StoreFlag(t)) == u;
      Next(s, acts, v, StoreFlag(t), u);
      acts := acts + [StoreFlag(t)];
    }
  }

  /** requestStop raises exactly the registered workers' flags. */
  lemma StopIsARun(s: State, t: Thread) returns (acts: seq<Action>)
    requires CanCall(s, t)
    ensures Leads(s, acts, s.(stop := s.stop + Workers(s.registry)))
  {
    var n := |s.registry|;
    var v := Inside(s, t, StopHolds(0));
    var u := Inside(s, t, StopHolds(n)).(stop := s.stop + Workers(s.registry));
    acts := Enters(s, t, CallStop(t), StopWaits, StopHolds(0));
    var storing := StoresFlags(v, t, n);
    assert s.registry[..n] == s.registry && v.pc[t := StopHolds(n)] == u.pc;
    Then(s, acts, v, storing, u);
    acts := acts + storing;
    assert Apply(u, Release(t)) == s.(stop := s.stop + Workers(s.registry)) by {
      assert u.pc[t := Own] == s.pc;
    }
    Next(s, acts, u, Release(t), s.(stop := s.stop + Workers(s.registry)));
    acts := acts + [Release(t)];
  }

  /**
   Thread t is in joinAll's loop at entry i; what is left of its batch is
   still its, and none of those workers is inside the manager.
  */
  ghost predicate InLoop(s: State, t: Thread, batch: seq<Managed>, i: nat, ticket: nat) {
    && t in s.pc && s.pc[t] == Joining(batch, i, ticket) && i <= |batch|
    && (forall j :: 0 <= j < |s.registry| ==> s.registry[j].worker < |s.place|)
    && (forall j :: 0 <= j < |batch| ==> batch[j].worker < |s.place|)
    && (forall j, k :: 0 <= j < k < |batch| ==> batch[j].worker != batch[k].worker)
    && (forall j :: i <= j < |batch| ==> s.place[batch[j].worker] == InBatch(t, ticket) && Quiet(s, t, batch[j].worker))
  }

  /** Worker w exists and, unless it is t itself, is in its own code or has ended. */
  ghost predicate Quiet(s: State, t: Thread, w: nat) {
    Worker(w) in s.pc && (t == Worker(w) || s.pc[Worker(w)].Own? || s.pc[Worker(w)].Ended?)
  }

  /** One entry dealt with: detached if it is the caller itself, else ended and joined. */
  function Dealt(s: State, t: Thread, batch: seq<Managed>, i: nat, ticket: nat): State
    requires i < |batch| && batch[i].worker < |s.place|
  {
    var w := batch[i].worker;
    if t == Worker(w) then s.(place := s.place[w := Detached(ticket)], pc := s.pc[t := Joining(batch, i + 1, ticket)])
    else s.(place := s.place[w := Joined(ticket)], pc := s.pc[Worker(w) := Ended][t := Joining(batch, i + 1, ticket)])
  }

  lemma DetachesItself(s: State, t: Thread, batch: seq<Managed>, i: nat, ticket: nat)
    requires InLoop(s, t, batch, i, ticket) && i < |batch| && t == Worker(batch[i].worker)
    ensures Leads(s, [Look(t)], Dealt(s, t, batch, i, ticket))
  {
    OneStep(s, Look(t));
  }

  /** The worker has ended: t enters join and returns. */
  lemma JoinsEnded(s: State, t: Thread, batch: seq<Managed>, i: nat, ticket: nat)
    requires InLoop(s, t, batch, i, ticket) && i < |batch| && t != Worker(batch[i].worker)
    requires s.pc[Worker(batch[i].worker)].Ended?
    ensures Leads(s, [Look(t)] + [JoinReturns(t)], Dealt(s, t, batch, i, ticket))
  {
    var w := batch[i].worker;
    var v := s.(pc := s.pc[t := Blocked(batch, i, ticket)]);
    OneStep(s, Look(t));
    assert Apply(s, Look(t)) == v;
    assert v.pc[t := Joining(batch, i + 1, ticket)] == s.pc[Worker(w) := Ended][t := Joining(batch, i + 1, ticket)];
    Next(s, [Look(t)], v, JoinReturns(t), Dealt(s, t, batch, i, ticket));
  }

  lemma DealsWithOne(s: State, t: Thread, batch: seq<Managed>, i: nat, ticket: nat) returns (acts: seq<Action>)
    requires InLoop(s, t, batch, i, ticket) && i < |batch|
    ensures Leads(s, acts, Dealt(s, t, batch, i, ticket))
  {
    var w := Worker(batch[i].worker);
    if t == w {
      DetachesItself(s, t, batch, i, ticket);
      acts := [Look(t)];
    } else if s.pc[w].Ended? {
      JoinsEnded(s, t, batch, i, ticket);
      acts := [Look(t)] + [JoinReturns(t)];
    } else {
      var v := s.(pc := s.pc[w := Ended]);
      OneStep(s, End(w));
      assert Apply(s, End(w)) == v;
      JoinsEnded(v, t, batch, i, ticket);
      acts := [End(w)] + ([Look(t)] + [JoinReturns(t)]);
      assert v.pc[w := Ended] == s.pc[w := Ended];
      Then(s, [End(w)], v, [Look(t)] + [JoinReturns(t)], Dealt(s, t, batch, i, ticket));
    }
  }

  /** How joinAll leaves the workers from entry i of its batch on, and that it leaves everything else as it was. */
  ghost predicate LoopDone(s: State, v: State, t: Thread, batch: seq<Managed>, i: nat, ticket: nat) {
    && v.mutex == s.mutex && v.registry == s.registry && v.stop == s.stop && v.swaps == s.swaps
    && |v.place| == |s.place| && v.pc.Keys == s.pc.Keys && t in v.pc && v.pc[t] == Own
    && (forall j :: i <= j < |batch| && batch[j].worker < |s.place| ==>
          var w := batch[j].worker;
          && v.place[w] == (if t == Worker(w) then Detached(ticket) else Joined(ticket))
          && (t != Worker(w) ==> Worker(w) in v.pc && v.pc[Worker(w)] == Ended))
    && (forall w :: 0 <= w < |s.place| && (forall j :: i <= j < |batch| ==> batch[j].worker != w) ==>
          v.place[w] == s.place[w])
    && (forall u :: u in s.pc && u != t && (forall j :: i <= j < |batch| ==> Worker(batch[j].worker) != u) ==>
          v.pc[u] == s.pc[u])
  }

  lemma DealtKeepsLoop(s: State, t: Thread, batch: seq<Managed>, i: nat, ticket: nat)
    requires InLoop(s, t, batch, i, ticket) && i < |batch|
    ensures InLoop(Dealt(s, t, batch, i, ticket), t, batch, i + 1, ticket)
  {
    var v := Dealt(s, t, batch, i, ticket);
    forall j | i + 1 <= j < |batch|
      ensures v.place[batch[j].worker] == InBatch(t, ticket) && Quiet(v, t, batch[j].worker)
    {
      assert batch[j].worker != batch[i].worker && Quiet(s, t, batch[j].worker);
    }
  }

  lemma PlacesBefore(s: State, v: State, t: Thread, batch: seq<Managed>, i: nat, ticket: nat, w: nat)
    requires InLoop(s, t, batch, i, ticket) && i < |batch| && w < |s.place|
    requires LoopDone(Dealt(s, t, batch, i, ticket), v, t, batch, i + 1, ticket)
    requires forall j :: i <= j < |batch| ==> batch[j].worker != w
    ensures v.place[w] == s.place[w]
  {
    assert Dealt(s, t, batch, i, ticket).place[w] == s.place[w];
  }

  lemma EntryBefore(s: State, v: State, t: Thread, batch: seq<Managed>, i: nat, ticket: nat)
    requires InLoop(s, t, batch, i, ticket) && i < |batch|
    requires LoopDone(Dealt(s, t, batch, i, ticket), v, t, batch, i + 1, ticket)
    ensures var w := batch[i].worker;
            && v.place[w] == (if t == Worker(w) then Detached(ticket) else Joined(ticket))
            && (t != Worker(w) ==> Worker(w) in v.pc && v.pc[Worker(w)] == Ended)
  {
    var s1, w := Dealt(s, t, batch, i, ticket), batch[i].worker;
    assert forall j :: i + 1 <= j < |batch| ==> batch[j].worker != w;
    assert v.place[w] == s1.place[w];
    assert t != Worker(w) ==> v.pc[Worker(w)] == s1.pc[Worker(w)];
  }

  lemma LoopDoneBefore(s: State, v: State, t: Thread, batch: seq<Managed>, i: nat, ticket: nat)
    requires InLoop(s, t, batch, i, ticket) && i < |batch|
    requires LoopDone(Dealt(s, t, batch, i, ticket), v, t, batch, i + 1, ticket)
    ensures LoopDone(s, v, t, batch, i, ticket)
  {
    assert Dealt(s, t, batch, i, ticket).pc.Keys == s.pc.Keys;
    EntryBefore(s, v, t, batch, i, ticket);
    forall w | 0 <= w < |s.place| && forall j :: i <= j < |batch| ==> batch[j].worker != w
      ensures v.place[w] == s.place[w]
    {
      PlacesBefore(s, v, t, batch, i, ticket, w);
    }
  }

  lemma {:induction false} LoopIsARun(s: State, t: Thread, batch: seq<Managed>, i: nat, ticket: nat)
    returns (acts: seq<Action>, v: State)
    requires InLoop(s, t, batch, i, ticket)
    ensures Leads(s, acts, v) && LoopDone(s, v, t, batch, i, ticket)
    decreases |batch| - i
  {
    if i == |batch| {
      v := s.(pc := s.pc[t := Own]);
      OneStep(s, Finish(t));
      acts := [Finish(t)];
    } else {
      var s1 := Dealt(s, t, batch, i, ticket);
      acts := DealsWithOne(s, t, batch, i, ticket);
      DealtKeepsLoop(s, t, batch, i, ticket);
      var rest;
      rest, v := LoopIsARun(s1, t, batch, i + 1, ticket);
      LoopDoneBefore(s, v, t, batch, i, ticket);
      Then(s, acts, s1, rest, v);
      acts := acts + rest;
    }
  }

  /** After the swap and the release of the mutex. */
  function Swapped(s: State, t: Thread): State
    requires forall i :: 0 <= i < |s.registry| ==> s.registry[i].worker < |s.place|
  {
    s.(registry := [], place := TakeAll(s.place, s.registry, t, s.swaps), swaps := s.swaps + 1,
       pc := s.pc[t := Joining(s.registry, 0, s.swaps)])
  }

  lemma TakesBatch(s: State, t: Thread) returns (acts: seq<Action>)
    requires CanCall(s, t)
    ensures Leads(s, acts, Swapped(s, t))
  {
    acts := Enters(s, t, CallJoin(t), JoinWaits, JoinHolds);
    var v, u := Inside(s, t, JoinHolds), Swapped(s, t);
    var w := u.(mutex := Some(t), pc := s.pc[t := JoinLeaves(s.registry, s.swaps)]);
    assert v.pc[t := JoinLeaves(s.registry, s.swaps)] == w.pc;
    Next(s, acts, v, Swap(t), w);
    assert w.pc[t := Joining(s.registry, 0, s.swaps)] == u.pc;
    Next(s, acts + [Swap(t)], w, Release(t), u);
    acts := acts + [Swap(t)] + [Release(t)];
  }

  /** Registered workers are distinct, and none of them is inside the manager, t aside. */
  ghost predicate CanJoin(s: State, t: Thread) {
    && CanCall(s, t)
    && (forall i, j :: 0 <= i < j < |s.registry| ==> s.registry[i].worker != s.registry[j].worker)
    && (forall i :: 0 <= i < |s.registry| ==> Quiet(s, t, s.registry[i].worker))
  }

  lemma SwappedInLoop(s: State, t: Thread)
    requires CanJoin(s, t)
    ensures InLoop(Swapped(s, t), t, s.registry, 0, s.swaps)
  {
    forall j | 0 <= j < |s.registry|
      ensures Quiet(Swapped(s, t), t, s.registry[j].worker)
    {
      assert Quiet(s, t, s.registry[j].worker);
    }
  }

  /**
   joinAll: the registry is emptied, every worker that was in it has ended and
   is joined, except the caller itself, which is detached; no other worker's
   thread object and no stop flag is touched.
  */
  lemma JoinIsARun(s: State, t: Thread) returns (acts: seq<Action>, v: State)
    requires CanJoin(s, t)
    ensures Leads(s, acts, v) && v.registry == [] && v.mutex == None && v.stop == s.stop && |v.place| == |s.place|
    ensures forall i :: 0 <= i < |s.registry| ==>
              var w := s.registry[i].worker;
              && v.place[w] == (if t == Worker(w) then Detached(s.swaps) else Joined(s.swaps))
              && (t != Worker(w) ==> Worker(w) in v.pc && v.pc[Worker(w)] == Ended)
    ensures forall w: nat :: w < |s.place| && w !in Workers(s.registry) ==> v.place[w] == s.place[w]
  {
    acts := TakesBatch(s, t);
    var u := Swapped(s, t);
    SwappedInLoop(s, t);
    var rest;
    rest, v := LoopIsARun(u, t, s.registry, 0, s.swaps);
    Then(s, acts, u, rest, v);
    acts := acts + rest;
    forall w: nat | w < |s.place| && w !in Workers(s.registry)
      ensures v.place[w] == s.place[w]
    {
      assert forall j :: 0 <= j < |s.registry| ==> s.registry[j].worker != w;
    }
  }

  /** In every reachable state with a free mutex these conditions on the registry hold by themselves. */
  lemma ReachableCanCall(s: State, t: Thread)
    requires Reachable(s) && s.mutex == None && t in s.pc && s.pc[t].Own?
    ensures CanCall(s, t) && Worker(|s.place|) !in s.pc
    ensures (forall i :: 0 <= i < |s.registry| ==> Quiet(s, t, s.registry[i].worker)) ==> CanJoin(s, t)
  {
    ReachableInv(s);
  }
}
