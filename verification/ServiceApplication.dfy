/**
 ServiceApplication::run over every callback outcome, with a shutdown request
 arriving at any point.
*/
module ServiceApplication {
  import opened Basics

  datatype ServiceState = Created | Initializing | Initialized | Starting | Running | Stopping | Stopped | Failed

  /** How a service callback ends; the value matters for initialize and start only. */
  datatype Callback = Returned(value: bool) | StdException | OtherException

  datatype Call = Initialize | Start | Stop | Deinitialize

  /** Everything about one run that is not up to run() itself. */
  datatype Outcomes = Outcomes(
    configMissing: bool,      // the configuration file cannot be loaded
    configExplicit: bool,     // its path was given with --config
    install: bool,            // signal handlers could be installed
    initialize: Callback,
    start: Callback,
    stop: Callback,
    deinitialize: Callback)

  /** SignalHandler's flag. `arrivals` tells at which of the coming points of the run a request arrives. */
  class ShutdownFlag {
    var requested: bool
    var arrivals: seq<bool>

    /** A request has come or is still to come. */
    predicate Asked()
      reads this
    {
      requested || true in arrivals
    }

    method Clear()
      modifies this`requested
      ensures !requested
    {
      requested := false;
    }

    /** The signal handler, or notifyShutdownRequested, runs here if a request arrives now. */
    method Tick()
      modifies this
      ensures requested == (old(requested) || (old(arrivals) != [] && old(arrivals)[0]))
      ensures arrivals == if old(arrivals) == [] then [] else old(arrivals)[1..]
      ensures Asked() == old(Asked())
    {
      assert arrivals != [] ==> arrivals == [arrivals[0]] + arrivals[1..];
      if arrivals != [] {
        requested := requested || arrivals[0];
        arrivals := arrivals[1..];
      }
    }
  }

  /** The service as run() sees it. */
  class Service {
    const outcomes: Outcomes
    var calls: seq<Call>

    constructor (outcomes: Outcomes)
      ensures this.outcomes == outcomes && calls == []
    {
      this.outcomes := outcomes;
      calls := [];
    }

    method Invoke(c: Call) returns (r: Callback)
      modifies this
      ensures calls == old(calls) + [c]
      ensures r == match c case Initialize => outcomes.initialize case Start => outcomes.start
                           case Stop => outcomes.stop case Deinitialize => outcomes.deinitialize
    {
      calls := calls + [c];
      match c
      case Initialize => r := outcomes.initialize;
      case Start => r := outcomes.start;
      case Stop => r := outcomes.stop;
      case Deinitialize => r := outcomes.deinitialize;
    }
  }

  // ----- What a run amounts to -----

  /** Whether the service gets as far as running. */
  predicate GetsRunning(o: Outcomes) {
    !(o.configMissing && o.configExplicit) && o.install && o.initialize == Returned(true) && o.start == Returned(true)
  }

  datatype Summary = Summary(exit: Option<int>, calls: seq<Call>, states: seq<ServiceState>)

  /**
   Exit code, callbacks and states of a run; `asked` is whether a shutdown
   request comes. None means it is still waiting.
  */
  function Expected(o: Outcomes, asked: bool): Summary {
    var init := [Initializing];
    var starting := [Initializing, Initialized, Starting];
    var stopping := starting + [Running, Stopping];
    if o.configMissing && o.configExplicit then Summary(Some(2), [], [Failed])
    else if !o.install then Summary(Some(3), [], [Failed])
    else if !o.initialize.Returned? then Summary(Some(4), [Initialize], init + [Failed])
    else if !o.initialize.value then Summary(Some(4), [Initialize, Deinitialize], init + [Failed])
    else if !o.start.Returned? || !o.start.value then
      Summary(Some(5), [Initialize, Start, Deinitialize], starting + [Failed])
    else if !asked then Summary(None, [Initialize, Start], starting + [Running])
    else if !o.stop.Returned? then Summary(Some(6), [Initialize, Start, Stop, Deinitialize], stopping + [Failed])
    else if !o.deinitialize.Returned? then
      Summary(Some(7), [Initialize, Start, Stop, Deinitialize], stopping + [Failed])
    else Summary(Some(0), [Initialize, Start, Stop, Deinitialize], stopping + [Stopped])
  }

  predicate NoRepeats(calls: seq<Call>) {
    forall i, j :: 0 <= i < j < |calls| ==> calls[i] != calls[j]
  }

  /**
   The callback discipline of a finished run: every callback is made at most
   once; initialize comes first; deinitialize is made if and only if initialize
   returned, and comes last; start is called if and only if initialize returned
   true, and stop if and only if start returned true.
  */
  lemma CallbackDiscipline(o: Outcomes, asked: bool)
    requires Expected(o, asked).exit.Some?
    ensures var calls := Expected(o, asked).calls;
            var entered := !(o.configMissing && o.configExplicit) && o.install;
            && NoRepeats(calls)
            && (Initialize in calls <==> entered)
            && (entered ==> calls[0] == Initialize)
            && (Deinitialize in calls <==> entered && o.initialize.Returned?)
            && (Deinitialize in calls ==> calls[|calls| - 1] == Deinitialize)
            && (Start in calls <==> entered && o.initialize == Returned(true))
            && (Stop in calls <==> GetsRunning(o))
  {
    var calls := Expected(o, asked).calls;
    if GetsRunning(o) {
      assert calls == [Initialize, Start, Stop, Deinitialize];
      assert calls[3] == Deinitialize && calls[2] == Stop && calls[1] == Start;
    } else if Deinitialize == (if calls == [] then Initialize else calls[|calls| - 1]) {
      assert calls == [Initialize, Deinitialize] || calls == [Initialize, Start, Deinitialize];
      assert |calls| == 3 ==> calls[1] == Start;
    }
  }

  /** Exit code 0 goes with Stopped, every other exit with Failed, and a run that has not returned is Running. */
  lemma ExitMatchesState(o: Outcomes, asked: bool)
    ensures var s := Expected(o, asked);
            && s.states != []
            && (s.exit == Some(0) <==> s.states[|s.states| - 1] == Stopped)
            && (s.exit.Some? && s.exit.value != 0 <==> s.states[|s.states| - 1] == Failed)
            && (s.exit.None? <==> s.states[|s.states| - 1] == Running)
            && (s.exit.None? <==> GetsRunning(o) && !asked)
            && (s.exit == Some(0) <==> GetsRunning(o) && asked && o.stop.Returned? && o.deinitialize.Returned?)
  {
  }

  /** Which failure each exit code stands for: the first thing that goes wrong decides. */
  lemma ExitMeaning(o: Outcomes, asked: bool)
    ensures var exit := Expected(o, asked).exit;
            var refused := o.configMissing && o.configExplicit;
            && (exit == Some(2) <==> refused)
            && (exit == Some(3) <==> !refused && !o.install)
            && (exit == Some(4) <==> !refused && o.install && o.initialize != Returned(true))
            && (exit == Some(5) <==>
                  !refused && o.install && o.initialize == Returned(true) && o.start != Returned(true))
            && (exit == Some(6) <==> GetsRunning(o) && asked && !o.stop.Returned?)
            && (exit == Some(7) <==> GetsRunning(o) && asked && o.stop.Returned? && !o.deinitialize.Returned?)
            && (exit.Some? ==> exit.value in {0, 2, 3, 4, 5, 6, 7})
  {}

  /** The states of a life without failure, before its last. */
  const Lifecycle := [Initializing, Initialized, Starting, Running, Stopping]

  /** When in such a life a callback is due. */
  function Due(c: Call): nat {
    match c case Initialize => 1 case Start => 2 case Stop => 3 case Deinitialize => 4
  }

  /**
   The states run through are the lifecycle up to where the run ends, and there
   Failed, Stopped or, while it is still waiting, Running. Failed comes right
   after Initializing if initialize is to blame, after Starting if start is, and
   after Stopping if stop or deinitialize is. The callbacks come in their order.
  */
  lemma StatesFollowLifecycle(o: Outcomes, asked: bool)
    ensures var s := Expected(o, asked);
            && s.states != []
            && s.states[..|s.states| - 1] <= Lifecycle
            && s.states[|s.states| - 1] in {Running, Stopped, Failed}
            && |s.states| - 1 == (match s.exit
                                  case None => 3
                                  case Some(c) => if c == 2 || c == 3 then 0 else if c == 4 then 1
                                                  else if c == 5 then 3 else 5)
    ensures var calls := Expected(o, asked).calls;
            forall i, j :: 0 <= i < j < |calls| ==> Due(calls[i]) < Due(calls[j])
  {
    var s := Expected(o, asked);
    assert Lifecycle[0] == Initializing && Lifecycle[1] == Initialized && Lifecycle[2] == Starting;
  }

  class ServiceApplication {
    var state: ServiceState
    ghost var states: seq<ServiceState>    // every state stored in the current run

    constructor ()
      ensures state == Created && states == []
    {
      state, states := Created, [];
    }

    method SetState(s: ServiceState)
      modifies this
      ensures state == s && states == old(states) + [s]
    {
      state := s;
      states := states + [s];
    }

    /** deinitialize with every exception caught, then Failed and the exit code. */
    method Fail(service: Service, flag: ShutdownFlag, undo: bool, code: int) returns (exit: Option<int>)
      modifies this, service, flag
      ensures exit == Some(code) && state == Failed && states == old(states) + [Failed]
      ensures service.calls == old(service.calls) + if undo then [Deinitialize] else []
      ensures flag.Asked() == old(flag.Asked()) && (old(flag.requested) ==> flag.requested)
    {
      if undo {
        flag.Tick();
        var r := service.Invoke(Deinitialize);
      }
      SetState(Failed);
      return Some(code);
    }

    /** The timed waits of run(): they end once a request has come. False means none ever does. */
    method AwaitShutdown(flag: ShutdownFlag) returns (asked: bool)
      modifies flag
      ensures asked == old(flag.Asked()) && (asked ==> flag.requested) && flag.Asked() == old(flag.Asked())
    {
      flag.Tick();      // wait_for with the predicate
      while !flag.requested
        invariant flag.Asked() == old(flag.Asked())
        decreases |flag.arrivals|
      {
        if flag.arrivals == [] {
          return false;
        }
        flag.Tick();    // wait_for without it
      }
      return true;
    }

    /** From the first callback to Running. */
    method BringUp(service: Service, flag: ShutdownFlag) returns (exit: Option<int>)
      requires service.calls == [] && states == []
                && !(service.outcomes.configMissing && service.outcomes.configExplicit) && service.outcomes.install
      modifies this, service, flag
      ensures exit.None? <==> GetsRunning(service.outcomes)
      ensures exit.None? ==> service.calls == [Initialize, Start]
                             && states == [Initializing, Initialized, Starting, Running] && state == Running
      ensures exit.Some? ==> Summary(exit, service.calls, states) == Expected(service.outcomes, true) && state == Failed
      ensures flag.Asked() == old(flag.Asked())
    {
      SetState(Initializing);
      flag.Tick();
      var initialized := service.Invoke(Initialize);
      if !initialized.Returned? {
        exit := Fail(service, flag, false, 4);
        return;
      }
      if !initialized.value {
        exit := Fail(service, flag, true, 4);
        return;
      }
      SetState(Initialized);
      exit := StartUp(service, flag);
    }

    /** From Starting to Running. */
    method StartUp(service: Service, flag: ShutdownFlag) returns (exit: Option<int>)
      modifies this, service, flag
      ensures var runs := service.outcomes.start == Returned(true);
              && exit == (if runs then None else Some(5))
              && service.calls == old(service.calls) + (if runs then [Start] else [Start, Deinitialize])
              && state == (if runs then Running else Failed) && states == old(states) + [Starting, state]
      ensures flag.Asked() == old(flag.Asked())
    {
      SetState(Starting);
      flag.Tick();
      var started := service.Invoke(Start);
      if !started.Returned? {
        exit := Fail(service, flag, true, 5);
        return;
      }
      if !started.value {
        exit := Fail(service, flag, true, 5);
        return;
      }
      flag.Tick();
      SetState(Running);
      return None;
    }

    /** From the end of the wait to the exit code. */
    method BringDown(service: Service, flag: ShutdownFlag) returns (exit: Option<int>)
      modifies this, service, flag
      ensures var o := service.outcomes;
              && exit == Some(if !o.stop.Returned? then 6 else if !o.deinitialize.Returned? then 7 else 0)
              && service.calls == old(service.calls) + [Stop, Deinitialize]
              && state == (if exit == Some(0) then Stopped else Failed) && states == old(states) + [Stopping, state]
      ensures flag.Asked() == old(flag.Asked()) && (old(flag.requested) ==> flag.requested)
    {
      SetState(Stopping);
      flag.Tick();
      var stopped := service.Invoke(Stop);
      if !stopped.Returned? {
        exit := Fail(service, flag, true, 6);
        return;
      }
      flag.Tick();
      var deinitialized := service.Invoke(Deinitialize);
      if !deinitialized.Returned? {
        exit := Fail(service, flag, false, 7);
        return;
      }
      SetState(Stopped);
      return Some(0);
    }

    /**
     A request that arrives at any point after the initial clear is honoured,
     whatever the flag held before: the run goes on waiting only if it reached
     Running and none arrives at all.
    */
    method Run(service: Service, flag: ShutdownFlag) returns (exit: Option<int>)
      requires service.calls == []
      modifies this, service, flag
      ensures Summary(exit, service.calls, states) == Expected(service.outcomes, true in old(flag.arrivals))
      ensures states != [] && state == states[|states| - 1]
      ensures exit.Some? && GetsRunning(service.outcomes) ==> flag.requested
    {
      states := [];
      flag.Clear();
      flag.Tick();
      if service.outcomes.configMissing && service.outcomes.configExplicit {
        exit := Fail(service, flag, false, 2);
        return;
      }
      flag.Tick();
      if !service.outcomes.install {
        exit := Fail(service, flag, false, 3);
        return;
      }
      exit := BringUp(service, flag);
      if exit.Some? {
        return;
      }
      var asked := AwaitShutdown(flag);
      if !asked {
        return None;
      }
      exit := BringDown(service, flag);
    }
  }
}
