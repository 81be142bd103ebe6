/**
 What a requestStop followed by a joinAll does not give: they are two critical
 sections, and a startThread that gets in between registers a worker whose stop
 flag nobody has raised, and which the joinAll then waits for. The destructor
 makes these two calls.
*/
module ThreadManagerStops {
  import opened Basics
  import opened ThreadManagerProtocol
  import opened ThreadManager
  import opened ThreadManagerRuns

  /** Flags are raised only of workers whose thread object has reached the registry. */
  ghost predicate FlagsSound(s: State) {
    forall w :: w in s.stop ==> w < |s.place| && !s.place[w].Pending?
  }

  lemma SwapKeepsFlags(s: State, a: Action)
    requires Inv(s) && FlagsSound(s) && Enabled(s, a) && a.Swap?
    ensures FlagsSound(Apply(s, a))
  {
    var place := TakeAll(s.place, s.registry, a.t, s.swaps);
    forall w | w in s.stop
      ensures w < |place| && !place[w].Pending?
    {
      assert (forall i :: 0 <= i < |s.registry| ==> s.registry[i].worker != w) || InRegistry(s, w);
    }
  }

  lemma FlagsStep(s: State, a: Action)
    requires Inv(s) && FlagsSound(s) && Enabled(s, a)
    ensures FlagsSound(Apply(s, a))
  {
    if a.Swap? {
      SwapKeepsFlags(s, a);
    }
  }

  lemma {:induction false} FlagsRun(s: State, acts: seq<Action>)
    requires Inv(s) && FlagsSound(s) && Executable(s, acts)
    ensures FlagsSound(Execute(s, acts))
    decreases |acts|
  {
    if acts != [] {
      StepKeepsInv(s, acts[0]);
      FlagsStep(s, acts[0]);
      FlagsRun(Apply(s, acts[0]), acts[1..]);
    }
  }

  lemma ReachableFlags(s: State)
    requires Reachable(s)
    ensures FlagsSound(s)
  {
    var s0, acts :| Initial(s0) && Executable(s0, acts) && Execute(s0, acts) == s;
    InitialInv(s0);
    FlagsRun(s0, acts);
  }

  /** Every registered worker has been asked to stop. */
  ghost predicate AllAsked(s: State) {
    forall i :: 0 <= i < |s.registry| ==> s.registry[i].worker in s.stop
  }

  predicate SwapsIn(acts: seq<Action>) {
    exists i :: 0 <= i < |acts| && acts[i].Swap?
  }

  /** A thread object is pushed after the last swap of this run. */
  predicate PushesAfterSwaps(acts: seq<Action>) {
    exists i :: 0 <= i < |acts| && acts[i].Push? && !SwapsIn(acts[i..])
  }

  predicate StoresNoFlag(acts: seq<Action>) {
    forall i :: 0 <= i < |acts| ==> !acts[i].StoreFlag?
  }

  lemma AskedStep(s: State, a: Action)
    requires Inv(s) && FlagsSound(s) && Enabled(s, a) && !a.StoreFlag?
    ensures AllAsked(Apply(s, a)) <==> a.Swap? || (AllAsked(s) && !a.Push?)
  {
    var s' := Apply(s, a);
    if a.Push? {
      assert s'.registry[|s.registry|].worker == s.pc[a.t].created && s.pc[a.t].created !in s'.stop;
    }
  }

  lemma FirstOfRun(a: Action, rest: seq<Action>)
    ensures SwapsIn([a] + rest) <==> a.Swap? || SwapsIn(rest)
    ensures PushesAfterSwaps([a] + rest) <==> PushesAfterSwaps(rest) || (a.Push? && !SwapsIn(rest))
    ensures StoresNoFlag([a] + rest) ==> StoresNoFlag(rest) && !a.StoreFlag?
  {
    var acts := [a] + rest;
    assert acts[0..] == acts && acts[0] == a;
    assert forall i :: 0 <= i < |rest| ==> acts[i + 1] == rest[i] && acts[i + 1..] == rest[i..];
    forall i | 0 <= i < |acts| && acts[i].Push? && !SwapsIn(acts[i..]) && i > 0
      ensures PushesAfterSwaps(rest)
    {
      assert rest[i - 1].Push? && !SwapsIn(rest[i - 1..]);
    }
    if a.Swap? {
      assert acts[0].Swap?;
    }
  }

  lemma {:induction false} AskedRun(s: State, acts: seq<Action>)
    requires Inv(s) && FlagsSound(s) && Executable(s, acts) && StoresNoFlag(acts)
    ensures AllAsked(Execute(s, acts)) <==> !PushesAfterSwaps(acts) && (AllAsked(s) || SwapsIn(acts))
    decreases |acts|
  {
    if acts != [] {
      var a, rest := acts[0], acts[1..];
      assert acts == [a] + rest;
      FirstOfRun(a, rest);
      StepKeepsInv(s, a);
      FlagsStep(s, a);
      AskedStep(s, a);
      AskedRun(Apply(s, a), rest);
    }
  }

  /**
   joinAll waits only for workers that have been asked to stop, exactly if no
   startThread has pushed one since the last requestStop, or since a joinAll
   that came in between. `acts` is the run from the release of that requestStop
   to the swap of this joinAll; nobody stores a flag in it.
  */
  lemma BatchIsAskedIff(s: State, t: Thread, acts: seq<Action>, u: Thread)
    requires Reachable(s) && Enabled(s, Release(t)) && s.pc[t].StopHolds?
    requires Executable(Apply(s, Release(t)), acts) && StoresNoFlag(acts)
    requires Enabled(Execute(Apply(s, Release(t)), acts), Swap(u))
    ensures var v := Apply(Execute(Apply(s, Release(t)), acts), Swap(u));
            && v.pc[u].JoinLeaves?
            && ((forall i :: 0 <= i < |v.pc[u].batch| ==> v.pc[u].batch[i].worker in v.stop)
                <==> !PushesAfterSwaps(acts))
  {
    ReachableInv(s);
    ReachableFlags(s);
    StopReachesAll(s, t);
    var r := Apply(s, Release(t));
    assert AllAsked(r) by {
      forall i | 0 <= i < |r.registry|
        ensures r.registry[i].worker in r.stop
      {
        assert InRegistry(s, s.registry[i].worker);
      }
    }
    StepKeepsInv(s, Release(t));
    FlagsStep(s, Release(t));
    AskedRun(r, acts);
  }

  /** requestStop by t, startThread by u, and joinAll by t as far as its batch. */
  lemma StopStartJoin(s: State, t: Thread, u: Thread, name: string) returns (acts: seq<Action>)
    requires CanCall(s, t) && CanCall(s, u) && t != u && Worker(|s.place|) !in s.pc && !NameTaken(s, name)
    ensures var started := AfterStart(s.(stop := s.stop + Workers(s.registry)), name);
            CanCall(started, t) && Leads(s, acts, Swapped(started, t))
  {
    acts := StopIsARun(s, t);
    var asked := s.(stop := s.stop + Workers(s.registry));
    var starting := StartIsARun(asked, u, name, true, true);
    var started := AfterStart(asked, name);
    Then(s, acts, asked, starting, started);
    var joining := TakesBatch(started, t);
    Then(s, acts + starting, started, joining, Swapped(started, t));
    acts := acts + starting + joining;
  }

  /**
   From every reachable state in which two threads can call: one makes the two
   calls of the destructor, the other starts a thread in between. The first
   then has a worker in its batch that nobody has asked to stop.
  */
  lemma LateStart(s: State, t: Thread, u: Thread, name: string) returns (acts: seq<Action>)
    requires Reachable(s) && s.mutex == None && t in s.pc && u in s.pc && t != u && s.pc[t].Own? && s.pc[u].Own?
    requires !NameTaken(s, name)
    ensures Executable(s, acts)
    ensures var v, w := Execute(s, acts), |s.place|;
            && t in v.pc && v.pc[t].Joining? && v.pc[t].next == 0 && Managed(name, w) in v.pc[t].batch
            && t != Worker(w) && w !in v.stop && Worker(w) in v.pc && v.pc[Worker(w)].Own?
  {
    ReachableFlags(s);
    ReachableCanCall(s, t);
    ReachableCanCall(s, u);
    acts := StopStartJoin(s, t, u, name);
    assert (s.registry + [Managed(name, |s.place|)])[|s.registry|] == Managed(name, |s.place|);
    assert |s.place| !in Workers(s.registry);
  }
}
