/**
 ThreadManager as the class it is, used by one thread at a time. The
 interleavings of many callers are in ThreadManagerProtocol; here the loops and
 the shared stop flags are followed statement by statement. ThreadManagerRuns
 ties the two together.
*/
module ThreadManager {
  import opened Basics
  import opened ThreadManagerProtocol

  datatype StartResult = Started | Refused | Threw

  /** The threads of the process and their shared stop flags. */
  class Host {
    var spawned: nat          // threads created so far; their ids are 0..spawned
    var ended: set<nat>       // worker function returned or threw
    var stop: set<nat>        // stop flag is true
    var joined: set<nat>
    var detached: set<nat>

    constructor ()
      ensures spawned == 0 && ended == stop == joined == detached == {}
    {
      spawned := 0;
      ended, stop, joined, detached := {}, {}, {}, {};
    }

    predicate Joinable(w: nat)
      reads this
    {
      w !in joined && w !in detached
    }

    /** std::thread::join: returns once the worker has ended; others may end meanwhile. */
    method Join(w: nat)
      requires Joinable(w)
      modifies this`ended, this`joined
      ensures old(ended) <= ended && w in ended
      ensures joined == old(joined) + {w}
    {
      ended := ended + {w};
      joined := joined + {w};
    }
  }

  /** The workers of a registry. */
  function Workers(ms: seq<Managed>): set<nat> {
    set i | 0 <= i < |ms| :: ms[i].worker
  }

  function Names(ms: seq<Managed>): set<string> {
    set i | 0 <= i < |ms| :: ms[i].name
  }

  class ThreadManager {
    var threads: seq<Managed>
    const host: Host

    /** The registry holds distinct names and distinct threads nobody has joined or detached. */
    ghost predicate Valid()
      reads this, host
    {
      && (forall i, j :: 0 <= i < j < |threads| ==>
            threads[i].name != threads[j].name && threads[i].worker != threads[j].worker)
      && (forall i :: 0 <= i < |threads| ==> threads[i].worker < host.spawned && host.Joinable(threads[i].worker))
      && (forall w :: w in host.joined ==> w < host.spawned)
      && (forall w :: w in host.detached ==> w < host.spawned)
      && host.joined <= host.ended
    }

    constructor (host: Host)
      requires host.spawned == 0 && host.joined == host.detached == {}
      ensures Valid() && threads == [] && this.host == host
    {
      this.host := host;
      threads := [];
    }

    /** `spawns` tells whether std::thread's constructor succeeds. */
    method StartThread(name: string, hasWorker: bool, spawns: bool) returns (r: StartResult)
      requires Valid()
      modifies this, host`spawned
      ensures Valid()
      ensures r == if !hasWorker || name in Names(old(threads)) then Refused else if !spawns then Threw else Started
      ensures r == Started ==> threads == old(threads) + [Managed(name, old(host.spawned))]
                               && host.spawned == old(host.spawned) + 1
      ensures r != Started ==> unchanged(this) && unchanged(host)
    {
      if !hasWorker {
        return Refused;
      }
      var i := 0;
      while i < |threads|
        invariant 0 <= i <= |threads| && unchanged(this) && unchanged(host)
        invariant forall j :: 0 <= j < i ==> threads[j].name != name
      {
        if threads[i].name == name {
          return Refused;
        }
        i := i + 1;
      }
      if !spawns {
        return Threw;
      }
      var worker := host.spawned;
      host.spawned := host.spawned + 1;
      threads := threads + [Managed(name, worker)];
      return Started;
    }

    method RequestStop()
      requires Valid()
      modifies host`stop
      ensures Valid()
      ensures host.stop == old(host.stop) + Workers(threads)
    {
      var i := 0;
      while i < |threads|
        invariant 0 <= i <= |threads| && Valid()
        invariant host.stop == old(host.stop) + Workers(threads[..i])
      {
        assert Workers(threads[..i + 1]) == Workers(threads[..i]) + {threads[i].worker};
        host.stop := host.stop + {threads[i].worker};
        i := i + 1;
      }
      assert threads[..i] == threads;
    }

    /** `self` is the id of the calling thread if it is one of the workers. */
    method JoinAll(self: Option<nat>)
      requires Valid()
      modifies this, host`ended, host`joined, host`detached
      ensures Valid() && threads == [] && old(host.ended) <= host.ended
      ensures var self' := if self.Some? && self.value in Workers(old(threads)) then {self.value} else {};
              host.detached == old(host.detached) + self'
                  && host.joined == old(host.joined) + (Workers(old(threads)) - self')
    {
      var batch := threads;
      threads := [];
      var i := 0;
      while i < |batch|
        invariant 0 <= i <= |batch| && batch == old(threads) && Valid() && threads == []
                  && old(host.ended) <= host.ended
        invariant var self' := if self.Some? && self.value in Workers(batch[..i]) then {self.value} else {};
                  && host.detached == old(host.detached) + self'
                  && host.joined == old(host.joined) + (Workers(batch[..i]) - self')
        invariant forall j :: 0 <= j < |batch| ==>
                  batch[j].worker < host.spawned && (j >= i ==> host.Joinable(batch[j].worker))
      {
        var w := batch[i].worker;
        assert Workers(batch[..i + 1]) == Workers(batch[..i]) + {w};
        assert w !in Workers(batch[..i]);
        if host.Joinable(w) {
          if self == Some(w) {
            host.detached := host.detached + {w};
          } else {
            host.Join(w);
          }
        }
        i := i + 1;
      }
      assert batch[..i] == batch;
    }

    /** The destructor, run by a thread outside the manager. */
    method Destroy()
      requires Valid()
      modifies this, host`stop, host`ended, host`joined, host`detached
      ensures threads == []
      ensures host.stop == old(host.stop) + Workers(old(threads))
      ensures host.joined == old(host.joined) + Workers(old(threads)) && host.joined <= host.ended
      ensures host.detached == old(host.detached)
    {
      RequestStop();
      JoinAll(None);
    }
  }
}
