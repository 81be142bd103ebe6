/**
 applications/sample_service: the client of ThreadManager under
 ServiceApplication. Its workers only poll their stop token, so the one thread
 that runs the service is the manager's only caller.
*/
module SampleService {
  import opened Basics
  import opened Integers
  import opened ThreadManager
  import ThreadManagerProtocol
  import opened ServiceApplication

  /** Name of the index-th worker. */
  function WorkerName(index: nat): string {
    "heartbeat_" + ToString(index)
  }

  lemma WorkerNamesDiffer(a: nat, b: nat)
    requires WorkerName(a) == WorkerName(b)
    ensures a == b
  {
    var prefix := "heartbeat_";
    assert WorkerName(a)[|prefix|..] == ToString(a) && WorkerName(b)[|prefix|..] == ToString(b);
    ToStringInjective(a, b);
  }

  /** The index-th worker, when the first got this id. */
  function WorkerAt(first: nat, index: nat): ThreadManagerProtocol.Managed {
    ThreadManagerProtocol.Managed(WorkerName(index), first + index)
  }

  /** The registry after n workers have been started. */
  function Registry(first: nat, n: nat): (ms: seq<ThreadManagerProtocol.Managed>)
    ensures |ms| == n
  {
    if n == 0 then [] else Registry(first, n - 1) + [WorkerAt(first, n - 1)]
  }

  lemma {:induction false} RegistryAt(first: nat, n: nat, i: nat)
    requires i < n
    ensures Registry(first, n)[i] == WorkerAt(first, i)
  {
    var shorter := Registry(first, n - 1);
    assert Registry(first, n) == shorter + [WorkerAt(first, n - 1)];
    if i < n - 1 {
      RegistryAt(first, n - 1, i);
    }
  }

  lemma NextNameIsFree(first: nat, n: nat)
    ensures WorkerName(n) !in Names(Registry(first, n))
  {
    forall i | 0 <= i < n
      ensures Registry(first, n)[i].name != WorkerName(n)
    {
      RegistryAt(first, n, i);
      if WorkerName(i) == WorkerName(n) {
        WorkerNamesDiffer(i, n);
      }
    }
  }

  /** The ids from first up to but not including end. */
  ghost predicate IsRange(ids: set<nat>, first: nat, end: nat) {
    forall w: nat :: w in ids <==> first <= w < end
  }

  lemma WorkersInARow(first: nat, n: nat)
    ensures IsRange(Workers(Registry(first, n)), first, first + n)
  {
    var ms := Registry(first, n);
    forall i: nat | i < n
      ensures ms[i].worker == first + i
    {
      RegistryAt(first, n, i);
    }
    forall w | first <= w < first + n
      ensures w in Workers(ms)
    {
      assert ms[w - first].worker == w;
    }
  }

  /** How start() ends: it returns true, unless some thread cannot be created. */
  ghost function StartOutcome(count: int, spawns: nat -> bool): Callback {
    if forall i: nat :: i < count ==> spawns(i) then Returned(true) else StdException
  }

  /** Every thread ever created has been asked to stop, has ended and is joined. */
  ghost predicate AllJoined(host: Host)
    reads host
  {
    forall w: nat :: w < host.spawned ==> w in host.stop && w in host.ended && w in host.joined && w !in host.detached
  }

  class SampleService {
    const threads: ThreadManager
    var workerCount: int
    var heartbeatMs: int

    constructor (threads: ThreadManager)
      ensures this.threads == threads && workerCount == 1 && heartbeatMs == 1000
    {
      this.threads := threads;
      workerCount, heartbeatMs := 1, 1000;
    }

    /** The configured numbers, or their defaults, with the lower bounds 1 and 100. */
    method Initialize(configuredWorkers: int, configuredHeartbeat: int) returns (ok: bool)
      modifies this
      ensures ok && workerCount >= 1 && heartbeatMs >= 100
      ensures configuredWorkers >= 1 ==> workerCount == configuredWorkers
      ensures configuredHeartbeat >= 100 ==> heartbeatMs == configuredHeartbeat
      ensures configuredWorkers < 1 ==> workerCount == 1
      ensures configuredHeartbeat < 100 ==> heartbeatMs == 100
    {
      workerCount := configuredWorkers;
      if workerCount < 1 {
        workerCount := 1;
      }
      heartbeatMs := configuredHeartbeat;
      if heartbeatMs < 100 {
        heartbeatMs := 100;
      }
      return true;
    }

    /**
     Starts the workers in order. `spawns` tells whether the index-th thread can
     be created; since all names differ, nothing else stops the loop. However it
     ends, every thread it created is in the registry.
    */
    method Start(spawns: nat -> bool) returns (r: Callback)
      requires threads.Valid() && threads.threads == []
      modifies threads, threads.host`spawned
      ensures threads.Valid()
      ensures r == StartOutcome(workerCount, spawns)
      ensures r == Returned(true) ==> |threads.threads| == if workerCount < 0 then 0 else workerCount
      ensures IsRange(Workers(threads.threads), old(threads.host.spawned), threads.host.spawned)
    {
      var index := 0;
      ghost var first := threads.host.spawned;
      while index < workerCount
        invariant 0 <= index && (index <= workerCount || index == 0) && threads.Valid()
        invariant threads.threads == Registry(first, index) && threads.host.spawned == first + index
        invariant forall i: nat :: i < index ==> spawns(i)
      {
        NextNameIsFree(first, index);
        WorkersInARow(first, index);
        var started := threads.StartThread(WorkerName(index), true, spawns(index));
        if started == Threw {
          return StdException;
        }
        if started == Refused {
          return Returned(false);
        }
        index := index + 1;
      }
      WorkersInARow(first, index);
      return Returned(true);
    }

    method Stop()
      requires threads.Valid()
      modifies threads, threads.host`stop, threads.host`ended, threads.host`joined, threads.host`detached
      ensures threads.Valid() && threads.threads == []
      ensures threads.host.stop == old(threads.host.stop) + Workers(old(threads.threads))
      ensures threads.host.joined == old(threads.host.joined) + Workers(old(threads.threads))
      ensures threads.host.detached == old(threads.host.detached)
    {
      threads.RequestStop();
      threads.JoinAll(None);
    }
  }

  /** The callbacks run() makes come in their order: start only after initialize, stop only after start, none twice. */
  predicate InOrder(calls: seq<Call>) {
    && NoRepeats(calls)
    && forall i :: 0 <= i < |calls| ==> (calls[i] == Call.Start ==> Call.Initialize in calls[..i])
                                        && (calls[i] == Call.Stop ==> Call.Start in calls[..i])
  }

  lemma ExpectedInOrder(o: Outcomes, asked: bool)
    ensures InOrder(Expected(o, asked).calls)
    ensures Expected(o, asked).exit == Some(0) ==> Call.Stop in Expected(o, asked).calls
  {
    var calls := Expected(o, asked).calls;
    var all := [Call.Initialize, Call.Start, Call.Stop, Call.Deinitialize];
    assert |calls| > 1 && calls[1] == Call.Start ==> Call.Initialize in calls[..1] by {
      assert |calls| > 1 ==> calls[..1][0] == Call.Initialize;
    }
    if |calls| > 2 && calls[2] == Call.Stop {
      assert calls == all && calls[..2][1] == Call.Start;
    }
  }

  /** How far the service has got after these callbacks. */
  ghost predicate Progress(service: SampleService, done: seq<Call>, count: int, started: Option<Callback>,
      spawns: nat -> bool)
    reads service, service.threads, service.threads.host
  {
    var host := service.threads.host;
    && service.threads.Valid() && host.detached == {}
    && (Call.Initialize in done ==> service.workerCount == count)
    && (started == if Call.Start in done then Some(StartOutcome(count, spawns)) else None)
    && (Call.Start !in done ==> service.threads.threads == [] && host.spawned == 0)
    && (Call.Start in done && Call.Stop !in done ==> IsRange(Workers(service.threads.threads), 0, host.spawned))
    && (Call.Stop in done ==> service.threads.threads == [] && AllJoined(host))
  }

  /** One callback on the service; what deinitialize does, logging, is not part of the model. */
  method MakeCallback(service: SampleService, c: Call, configuredWorkers: int, configuredHeartbeat: int,
      spawns: nat -> bool, before: Option<Callback>, ghost done: seq<Call>)
    returns (started: Option<Callback>)
    requires Progress(service, done, if configuredWorkers < 1 then 1 else configuredWorkers, before, spawns)
    requires c !in done && (c.Start? ==> Call.Initialize in done) && (c.Stop? ==> Call.Start in done)
    requires Call.Stop in done ==> Call.Start in done
    modifies service, service.threads, service.threads.host
    ensures Progress(service, done + [c], if configuredWorkers < 1 then 1 else configuredWorkers, started, spawns)
  {
    started := before;
    match c
    case Initialize => var ok := service.Initialize(configuredWorkers, configuredHeartbeat);
    case Start =>
      var r := service.Start(spawns);
      started := Some(r);
    case Stop => service.Stop();
    case Deinitialize =>
  }

  /** The callbacks in the given order. */
  method Perform(service: SampleService, calls: seq<Call>, configuredWorkers: int, configuredHeartbeat: int,
      spawns: nat -> bool)
    returns (started: Option<Callback>)
    requires service.threads.Valid() && service.threads.threads == []
    requires service.threads.host.spawned == 0 && service.threads.host.detached == {}
    requires InOrder(calls)
    modifies service, service.threads, service.threads.host
    ensures Progress(service, calls, if configuredWorkers < 1 then 1 else configuredWorkers, started, spawns)
  {
    started := None;
    for i := 0 to |calls|
      invariant Progress(service, calls[..i], if configuredWorkers < 1 then 1 else configuredWorkers, started, spawns)
    {
      assert calls[..i + 1] == calls[..i] + [calls[i]];
      started := MakeCallback(service, calls[i], configuredWorkers, configuredHeartbeat, spawns, started, calls[..i]);
    }
    assert calls[..|calls|] == calls;
  }

  /**
   The sample service under run(), up to run()'s return: run() is followed with
   what the service's callbacks return, and the callbacks it makes are made on
   the service, in its order. If run() returns 0, every worker ever started has
   by then been asked to stop, has ended and is joined.
  */
  method RunSample(service: SampleService, o: Outcomes, flag: ShutdownFlag, configuredWorkers: int,
      configuredHeartbeat: int, spawns: nat -> bool)
    returns (exit: Option<int>)
    requires service.threads.Valid() && service.threads.threads == []
    requires service.threads.host.spawned == 0 && service.threads.host.detached == {}
    requires o.initialize == Returned(true) && o.stop.Returned? && o.deinitialize.Returned?
    requires o.start == StartOutcome(if configuredWorkers < 1 then 1 else configuredWorkers, spawns)
    modifies service, service.threads, service.threads.host, flag
    ensures service.threads.Valid() && service.threads.host.detached == {}
    ensures exit == Expected(o, true in old(flag.arrivals)).exit
    ensures exit == Some(0) ==> AllJoined(service.threads.host)
    ensures IsRange(Workers(service.threads.threads), 0, service.threads.host.spawned)
            || (service.threads.threads == [] && AllJoined(service.threads.host))
  {
    var app := new ServiceApplication();
    var seen := new Service(o);
    exit := app.Run(seen, flag);
    ExpectedInOrder(o, true in old(flag.arrivals));
    var started := Perform(service, seen.calls, configuredWorkers, configuredHeartbeat, spawns);
    assert Call.Start in seen.calls ==> started == Some(o.start);
  }

  /**
   main of the sample service: on whatever exit, once the service has been
   destroyed every worker it started is joined.
  */
  method RunToExit(service: SampleService, o: Outcomes, flag: ShutdownFlag, configuredWorkers: int,
      configuredHeartbeat: int, spawns: nat -> bool)
    returns (exit: Option<int>)
    requires service.threads.Valid() && service.threads.threads == []
    requires service.threads.host.spawned == 0 && service.threads.host.detached == {}
    requires o.initialize == Returned(true) && o.stop.Returned? && o.deinitialize.Returned?
    requires o.start == StartOutcome(if configuredWorkers < 1 then 1 else configuredWorkers, spawns)
    requires Expected(o, true in flag.arrivals).exit.Some?
    modifies service, service.threads, service.threads.host, flag
    ensures exit == Expected(o, true in old(flag.arrivals)).exit
    ensures service.threads.threads == [] && AllJoined(service.threads.host)
  {
    exit := RunSample(service, o, flag, configuredWorkers, configuredHeartbeat, spawns);
    service.threads.Destroy();
  }
}
