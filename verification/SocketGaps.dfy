/**
 When ownership of socket paths goes wrong, exactly: what a server finds at the
 end of its window, whom a take-over evicts, and whether a listener can be
 reached at its path. Each failure comes with a run that shows it.
*/
module SocketGaps {
  import opened Basics
  import opened SocketPaths

  // ----- Whether a path still leads to the same inode -----

  /** No step of the run is one of server a. */
  predicate Spares(acts: seq<Action>, a: nat) {
    forall i :: 0 <= i < |acts| ==> acts[i].Plant? || acts[i].a != a
  }

  lemma {:induction false} SparedStays(w: World, acts: seq<Action>, a: nat)
    requires Feasible(w, acts) && a in w.servers && Spares(acts, a)
    ensures a in Execute(w, acts).servers && Execute(w, acts).servers[a] == w.servers[a]
    decreases |acts|
  {
    if acts != [] {
      SparedStays(Apply(w, acts[0]), acts[1..], a);
    }
  }

  /** Some step of the run makes the path lead somewhere it did not lead before the step. */
  predicate Rebound(w: World, acts: seq<Action>, path: string)
    requires Feasible(w, acts)
    decreases |acts|
  {
    acts != [] && (Rebinds(w, acts[0], path) || Rebound(Apply(w, acts[0]), acts[1..], path))
  }

  predicate Rebinds(w: World, act: Action, path: string)
    requires Enabled(w, act)
  {
    At(Apply(w, act), path).Some? && At(Apply(w, act), path) != At(w, path)
  }

  lemma StepNeverReturns(w: World, act: Action, path: string, i: nat)
    requires Enabled(w, act) && i < |w.boundBy| && At(w, path) != Some(SocketEntry(i))
    ensures i < |Apply(w, act).boundBy| && At(Apply(w, act), path) != Some(SocketEntry(i))
  {}

  /** Inodes are fresh, so a path that has stopped leading to one never leads to it again. */
  lemma {:induction false} NeverReturns(w: World, acts: seq<Action>, path: string, i: nat)
    requires Feasible(w, acts) && i < |w.boundBy| && At(w, path) != Some(SocketEntry(i))
    ensures At(Execute(w, acts), path) != Some(SocketEntry(i))
    decreases |acts|
  {
    if acts != [] {
      StepNeverReturns(w, acts[0], path, i);
      NeverReturns(Apply(w, acts[0]), acts[1..], path, i);
    }
  }

  /**
   Whoever does what: a path that led to an inode and leads somewhere leads
   elsewhere if and only if a step rebound it.
  */
  lemma {:induction false} ReboundIff(w: World, acts: seq<Action>, path: string, i: nat)
    requires Feasible(w, acts) && i < |w.boundBy|
    requires At(w, path) == Some(SocketEntry(i)) || At(w, path) == None
    ensures At(Execute(w, acts), path).Some? && At(w, path).Some? ==>
              (At(Execute(w, acts), path) != Some(SocketEntry(i)) <==> Rebound(w, acts, path))
    ensures At(w, path) == None && !Rebound(w, acts, path) ==> At(Execute(w, acts), path) == None
    decreases |acts|
  {
    if acts != [] {
      var w' := Apply(w, acts[0]);
      StepKeepsBoundBy(w, acts[0]);
      if Rebinds(w, acts[0], path) {
        if At(w, path).Some? {
          NeverReturns(w', acts[1..], path, i);
        }
      } else {
        ReboundIff(w', acts[1..], path, i);
        if At(w, path).Some? && At(w', path) == None {
          NeverReturns(w', acts[1..], path, i);
        }
      }
    }
  }

  lemma StepKeepsBoundBy(w: World, act: Action)
    requires Enabled(w, act)
    ensures w.boundBy <= Apply(w, act).boundBy
  {}

  // ----- The end of a window -----

  /**
   The exact condition for harm, for any other servers doing anything: a server
   that has probed or bound `path` when it led to inode i, and takes its next
   step later, does harm with it if and only if the path leads somewhere and
   has been rebound since, or the probed inode has come to be listened on.
  */
  lemma HarmIff(w: World, acts: seq<Action>, act: Action, path: string, i: nat)
    requires Feasible(w, acts) && !act.Plant? && act.a in w.servers && Spares(acts, act.a)
    requires Expected(w.servers[act.a].phase) == Some(i) && w.servers[act.a].phase.path == path
    requires i < |w.boundBy| && At(w, path) == Some(SocketEntry(i))
    requires Enabled(Execute(w, acts), act)
    requires (act.UnlinkStale? && act.ok) || act.UnlinkBlind? || (act.Identify? && act.ok)
    ensures var v, p := Execute(w, acts), w.servers[act.a].phase;
            Harms(v, act) <==>
              && At(v, path).Some?
              && (if Rebound(w, acts, path) then act.Identify? ==> At(v, path).value.SocketEntry?
                  else p.Stale? && p.definite && Active(v, i))
  {
    SparedStays(w, acts, act.a);
    ReboundIff(w, acts, path, i);
  }

  /** An inode on which nobody listened and somebody does now: its server's ::listen fell in between. */
  lemma {:induction false} ListenedSince(w: World, acts: seq<Action>, i: nat) returns (k: nat)
    requires Feasible(w, acts) && !Active(w, i) && Active(Execute(w, acts), i)
    ensures k < |acts| && acts[k].Listen? && acts[k].ok
    decreases |acts|
  {
    var w' := Apply(w, acts[0]);
    if Active(w', i) {
      k := 0;
      var x :| x in w'.servers && w'.servers[x].sock.Some? && w'.servers[x].sock.value.listening
               && w'.servers[x].sock.value.inode == Some(i);
    } else {
      k := ListenedSince(w', acts[1..], i);
      k := k + 1;
    }
  }

  // ----- Take-over -----

  /** listen() of server b from its probe on, going through. */
  function TakeOverRun(b: nat, probing: Probing): seq<Action> {
    [Probe(b, true, probing), UnlinkStale(b, true), Bind(b, true), Identify(b, true), Listen(b, true)]
  }

  /** The world after it. */
  function TakenOver(w: World, b: nat, path: string): World {
    World(w.entries[path := SocketEntry(|w.boundBy|)],
          w.servers[b := Server(Resting, Some(Sock(Some(|w.boundBy|), true)), path, |w.boundBy|, true)],
          w.boundBy + [b])
  }

  ghost predicate ReadyToTakeOver(w: World, b: nat, path: string) {
    && b in w.servers && w.servers[b].phase == Opening(path) && w.servers[b].sock == Some(Sock(None, false))
    && path in w.entries && w.entries[path].SocketEntry?
  }

  /** bind, identity and ::listen in one go, on a free path. */
  lemma BindsInOneGo(w: World, b: nat, path: string)
    requires b in w.servers && w.servers[b].phase == Clear(path) && w.servers[b].sock == Some(Sock(None, false))
    requires path !in w.entries
    ensures var acts := [Bind(b, true), Identify(b, true), Listen(b, true)];
            Feasible(w, acts) && Execute(w, acts) == TakenOver(w, b, path)
  {
    var n, s := |w.boundBy|, w.servers[b].(sock := Some(Sock(Some(|w.boundBy|), false)));
    var w1 := World(w.entries[path := SocketEntry(n)], w.servers[b := s.(phase := Bound(path, n))], w.boundBy + [b]);
    var w2 := w1.(servers := w.servers[b := s.(phase := Identified(path, n))]);
    var acts := [Bind(b, true), Identify(b, true), Listen(b, true)];
    assert Apply(w, acts[0]) == w1;
    assert Apply(w1, acts[1]) == w2;
    assert Apply(w2, acts[2]) == TakenOver(w, b, path);
    Replay(w, acts, [w1, w2, TakenOver(w, b, path)]);
  }

  lemma UnlinksInOneGo(w: World, b: nat, path: string, probing: Probing)
    requires ReadyToTakeOver(w, b, path) && !HasActiveListener(w.entries[path], Listening(w), probing)
    ensures var acts := [Probe(b, true, probing), UnlinkStale(b, true)];
            && Feasible(w, acts)
            && Execute(w, acts) == w.(entries := w.entries - {path},
                  servers := w.servers[b := w.servers[b].(phase := Clear(path))])
  {
    var s := w.servers[b];
    var w1 := w.(servers := w.servers[b := s.(phase := Stale(path, w.entries[path].inode, probing.Answered?))]);
    var w2 := w.(entries := w.entries - {path}, servers := w.servers[b := s.(phase := Clear(path))]);
    var acts := [Probe(b, true, probing), UnlinkStale(b, true)];
    assert Apply(w, acts[0]) == w1;
    assert Apply(w1, acts[1]) == w2;
    Replay(w, acts, [w1, w2]);
  }

  lemma TakeOverSucceeds(w: World, b: nat, path: string, probing: Probing)
    requires ReadyToTakeOver(w, b, path) && !HasActiveListener(w.entries[path], Listening(w), probing)
    ensures Feasible(w, TakeOverRun(b, probing)) && Execute(w, TakeOverRun(b, probing)) == TakenOver(w, b, path)
  {
    var first, second := [Probe(b, true, probing), UnlinkStale(b, true)],
        [Bind(b, true), Identify(b, true), Listen(b, true)];
    UnlinksInOneGo(w, b, path, probing);
    BindsInOneGo(Execute(w, first), b, path);
    ExecuteConcat(w, first, second);
    assert first + second == TakeOverRun(b, probing);
    assert (w.entries - {path})[path := SocketEntry(|w.boundBy|)] == w.entries[path := SocketEntry(|w.boundBy|)];
  }

  lemma TakeOverKeepsListeners(w: World, b: nat, path: string, i: nat)
    requires ReadyToTakeOver(w, b, path) && Active(w, i)
    ensures Active(TakenOver(w, b, path), i)
  {
    var w' := TakenOver(w, b, path);
    var x :| x in w.servers && w.servers[x].sock == Some(Sock(Some(i), true));
    assert x != b && w'.servers[x].sock == Some(Sock(Some(i), true));
  }

  /**
   Whether a take-over can go through: not without a probe socket, and not if
   the kernel answers that someone listens. So a path with an active listener is
   taken over exactly when the probe fails for some other reason; the listener
   is then still listening, at no path.
  */
  lemma TakeOverIff(w: World, b: nat, path: string, probing: Probing)
    requires ReadyToTakeOver(w, b, path)
    ensures var i := w.entries[path].inode;
            && (Feasible(w, TakeOverRun(b, probing)) <==>
                  probing.FailsOtherwise? || (probing.Answered? && !Active(w, i)))
            && (Active(w, i) ==> (Feasible(w, TakeOverRun(b, probing)) <==> probing.FailsOtherwise?))
            && (Active(w, i) && probing.FailsOtherwise? ==>
                  var w' := Execute(w, TakeOverRun(b, probing));
                  Active(w', i) && At(w', path) == Some(SocketEntry(|w.boundBy|)))
  {
    var i, acts := w.entries[path].inode, TakeOverRun(b, probing);
    if HasActiveListener(w.entries[path], Listening(w), probing) {
      assert !Enabled(Apply(w, acts[0]), acts[1]) && acts[1..][0] == acts[1];
    } else {
      TakeOverSucceeds(w, b, path, probing);
      if Active(w, i) {
        TakeOverKeepsListeners(w, b, path, i);
      }
    }
  }

  // ----- What harm leads to -----

  /**
   Between bind and identity: if server b takes over the path there, a records
   b's inode as its own, and a's close then removes the entry b is listening on.
  */
  lemma GapLosesOwnership(w: World, a: nat, b: nat, path: string, n: nat)
    requires a != b && a in w.servers && w.servers[a].phase == Bound(path, n) && w.servers[a].sock.Some? && path != ""
    requires ReadyToTakeOver(w, b, path) && !Active(w, w.entries[path].inode)
    ensures var acts := TakeOverRun(b, Answered) + GapRun(a);
            && Feasible(w, acts)
            && var w' := Execute(w, acts);
            At(w', path) == None && Made(w', b, |w.boundBy|) && Active(w', |w.boundBy|)
  {
    TakeOverSucceeds(w, b, path, Answered);
    var w0, w' := TakenOver(w, b, path), Misled(TakenOver(w, b, path), a, path);
    MisledClose(w0, a, path, |w.boundBy|);
    ExecuteConcat(w, TakeOverRun(b, Answered), GapRun(a));
    assert w'.servers[b].sock == Some(Sock(Some(|w.boundBy|), true));
  }

  /** Server a goes on from its bind: identity, ::listen, and later close. */
  function GapRun(a: nat): seq<Action> {
    [Identify(a, true), Listen(a, true), CallClose(a), UnlinkOwned(a)]
  }

  function Misled(w: World, a: nat, path: string): World {
    w.(entries := w.entries - {path}, servers := w.servers[a := FreshServer])
  }

  lemma MisledClose(w: World, a: nat, path: string, n: nat)
    requires a in w.servers && w.servers[a].phase.Bound? && w.servers[a].phase.path == path && w.servers[a].sock.Some?
    requires path != "" && path in w.entries && w.entries[path] == SocketEntry(n)
    ensures Feasible(w, GapRun(a)) && Execute(w, GapRun(a)) == Misled(w, a, path)
  {
    var s := w.servers[a];
    var w1 := w.(servers := w.servers[a := s.(phase := Identified(path, n))]);
    var w2 := w.(servers := w.servers[a := Server(Resting, Some(s.sock.value.(listening := true)), path, n, true)]);
    var w3 := w.(servers := w.servers[a := Server(Closing(None), None, path, n, true)]);
    var acts := GapRun(a);
    assert Apply(w, acts[0]) == w1;
    assert Apply(w1, acts[1]) == w2;
    assert Apply(w2, acts[2]) == w3;
    assert Apply(w3, acts[3]) == Misled(w, a, path);
    Replay(w, acts, [w1, w2, w3, Misled(w, a, path)]);
  }

  /** Between probe and unlink: if server b takes over the path there, a unlinks the entry b is listening on. */
  lemma StaleGapEvicts(w: World, a: nat, b: nat, path: string)
    requires a != b && a in w.servers && w.servers[a].phase.Stale? && w.servers[a].phase.path == path
    requires ReadyToTakeOver(w, b, path) && !Active(w, w.entries[path].inode)
    ensures var acts := TakeOverRun(b, Answered) + [UnlinkStale(a, true)];
            && Feasible(w, acts)
            && var w' := Execute(w, acts);
            At(w', path) == None && Made(w', b, |w.boundBy|) && Active(w', |w.boundBy|)
  {
    var w0 := TakenOver(w, b, path);
    var w' := w0.(entries := w0.entries - {path}, servers := w0.servers[a := w.servers[a].(phase := Clear(path))]);
    TakeOverSucceeds(w, b, path, Answered);
    assert Apply(w0, UnlinkStale(a, true)) == w';
    Replay(w0, [UnlinkStale(a, true)], [w']);
    ExecuteConcat(w, TakeOverRun(b, Answered), [UnlinkStale(a, true)]);
    assert w'.servers[b].sock == Some(Sock(Some(|w.boundBy|), true));
  }

  lemma BlindGapEnds(w: World, a: nat, path: string, n: nat)
    requires a in w.servers && w.servers[a].phase == Bound(path, n) && path !in w.entries
    ensures var acts := [Plant(path), Identify(a, true)];
            && Feasible(w, acts) && At(Execute(w, acts), path) == Some(OtherEntry)
            && Enabled(Execute(w, acts), UnlinkBlind(a)) && At(Apply(Execute(w, acts), UnlinkBlind(a)), path) == None
  {
    var w1 := w.(entries := w.entries[path := OtherEntry]);
    var w2 := w1.(servers := w.servers[a := w.servers[a].(phase := Unidentified(path, n), sock := None)]);
    var acts := [Plant(path), Identify(a, true)];
    assert Apply(w, acts[0]) == w1;
    assert Apply(w1, acts[1]) == w2;
    Replay(w, acts, [w1, w2]);
  }

  /**
   Between bind and identity: if b unlinks what a has bound and a file takes
   its place, a reads back no identity and unlinks the file.
  */
  lemma BlindGapTakesFile(w: World, a: nat, b: nat, path: string, n: nat)
    requires a != b && a in w.servers && w.servers[a].phase == Bound(path, n)
    requires ReadyToTakeOver(w, b, path) && !Active(w, w.entries[path].inode)
    ensures var acts := BlindRun(a, b, path);
            && Feasible(w, acts) && At(Execute(w, acts), path) == Some(OtherEntry)
            && Enabled(Execute(w, acts), UnlinkBlind(a)) && At(Apply(Execute(w, acts), UnlinkBlind(a)), path) == None
  {
    var first, second := [Probe(b, true, Answered), UnlinkStale(b, true)], [Plant(path), Identify(a, true)];
    UnlinksInOneGo(w, b, path, Answered);
    BlindGapEnds(Execute(w, first), a, path, n);
    ExecuteConcat(w, first, second);
  }

  function BlindRun(a: nat, b: nat, path: string): seq<Action> {
    [Probe(b, true, Answered), UnlinkStale(b, true)] + [Plant(path), Identify(a, true)]
  }

  // ----- Whether listen() returning true means the server can be reached -----

  /** Some server unlinks the path as stale. */
  predicate StaleUnlinked(w: World, acts: seq<Action>, path: string)
    requires Feasible(w, acts)
    decreases |acts|
  {
    acts != [] && (UnlinksStale(w, acts[0], path) || StaleUnlinked(Apply(w, acts[0]), acts[1..], path))
  }

  predicate UnlinksStale(w: World, act: Action, path: string)
    requires Enabled(w, act)
  {
    act.UnlinkStale? && act.ok && w.servers[act.a].phase.path == path
  }

  /** A step of another server takes away an entry that a has made exactly as a stale unlink. */
  lemma StepKeepsPath(w: World, act: Action, a: nat, path: string, i: nat)
    requires Inv(w) && Enabled(w, act) && Exclusive(w, act) && Made(w, a, i) && At(w, path) == Some(SocketEntry(i))
    requires act.Plant? || act.a != a
    ensures At(Apply(w, act), path) == Some(SocketEntry(i)) <==> !UnlinksStale(w, act, path)
  {
    if !act.Plant? {
      assert RecordsSound(w, act.a) && WindowSound(w, act.a);
    }
  }

  /**
   The path leads to what a has identified until somebody unlinks it as stale,
   in any exclusive run in which a itself takes no step.
  */
  lemma {:induction false} PathIsKeptIff(w: World, acts: seq<Action>, a: nat, path: string, i: nat)
    requires Inv(w) && Feasible(w, acts) && Disciplined(w, acts) && Spares(acts, a)
    requires Made(w, a, i) && At(w, path) == Some(SocketEntry(i))
    ensures At(Execute(w, acts), path) == Some(SocketEntry(i)) <==> !StaleUnlinked(w, acts, path)
    decreases |acts|
  {
    if acts != [] {
      var w' := Apply(w, acts[0]);
      StepKeepsPath(w, acts[0], a, path, i);
      StepKeepsInv(w, acts[0]);
      StepKeepsBoundBy(w, acts[0]);
      if UnlinksStale(w, acts[0], path) {
        NeverReturns(w', acts[1..], path, i);
      } else {
        PathIsKeptIff(w', acts[1..], a, path, i);
      }
    }
  }

  /** Every probe in the run that takes a path for stale does so on the kernel's word. */
  predicate Definite(acts: seq<Action>) {
    forall i :: 0 <= i < |acts| ==> acts[i].Probe? ==> !acts[i].probing.FailsOtherwise?
  }

  predicate AllDefinite(w: World) {
    forall x :: x in w.servers && w.servers[x].phase.Stale? ==> w.servers[x].phase.definite
  }

  lemma StepKeepsDefinite(w: World, act: Action)
    requires AllDefinite(w) && Enabled(w, act) && (act.Probe? ==> !act.probing.FailsOtherwise?)
    ensures AllDefinite(Apply(w, act))
  {}

  lemma {:induction false} RunKeepsDefinite(w: World, acts: seq<Action>)
    requires AllDefinite(w) && Feasible(w, acts) && Definite(acts)
    ensures AllDefinite(Execute(w, acts))
    decreases |acts|
  {
    if acts != [] {
      StepKeepsDefinite(w, acts[0]);
      RunKeepsDefinite(Apply(w, acts[0]), acts[1..]);
    }
  }

  /** Server a listens on inode i, which it has made and which the path leads to. */
  ghost predicate Reached(w: World, a: nat, path: string, i: nat) {
    && a in w.servers && w.servers[a].sock == Some(Sock(Some(i), true))
    && Made(w, a, i) && At(w, path) == Some(SocketEntry(i))
  }

  lemma ListenerKeepsPathInStep(w: World, act: Action, a: nat, path: string, i: nat)
    requires Inv(w) && AllDefinite(w) && Reached(w, a, path, i)
    requires Enabled(w, act) && Exclusive(w, act) && (act.Plant? || act.a != a)
    ensures Reached(Apply(w, act), a, path, i)
  {
    StepKeepsPath(w, act, a, path, i);
    StepKeepsBoundBy(w, act);
    assert Active(w, i);
    if !act.Plant? {
      assert WindowSound(w, act.a);
    }
  }

  /** With definite probes nobody unlinks the path of a listening server that itself does nothing. */
  lemma {:induction false} ListenerKeepsPath(w: World, acts: seq<Action>, a: nat, path: string, i: nat)
    requires Inv(w) && AllDefinite(w) && Reached(w, a, path, i)
    requires Feasible(w, acts) && Disciplined(w, acts) && Definite(acts) && Spares(acts, a)
    ensures Reached(Execute(w, acts), a, path, i)
    decreases |acts|
  {
    if acts != [] {
      ListenerKeepsPathInStep(w, acts[0], a, path, i);
      StepKeepsInv(w, acts[0]);
      StepKeepsDefinite(w, acts[0]);
      ListenerKeepsPath(Apply(w, acts[0]), acts[1..], a, path, i);
    }
  }

  /** What is asked of each stretch of the run below. */
  ghost predicate Stretch(w: World, acts: seq<Action>) {
    Feasible(w, acts) && Disciplined(w, acts) && Definite(acts)
  }

  /**
   The exact condition for listen() to mean that the server is reached at its
   path, over all exclusive runs with definite probes: after a has read back the
   identity of its entry, others take their steps, a's ::listen succeeds, and
   others go on while a neither closes nor dies. Then the path leads to a if and
   only if no other server unlinked it as stale before the ::listen.
  */
  lemma ListenerIsReachedIff(w0: World, before: seq<Action>, a: nat, path: string, i: nat, between: seq<Action>,
      later: seq<Action>)
    requires Initial(w0) && Stretch(w0, before)
    requires var w := Execute(w0, before);
             && a in w.servers && w.servers[a].phase == Identified(path, i) && At(w, path) == Some(SocketEntry(i))
             && Stretch(w, between) && Spares(between, a)
             && var u := Execute(w, between);
             && Enabled(u, Listen(a, true)) && Exclusive(u, Listen(a, true))
             && Stretch(Apply(u, Listen(a, true)), later) && Spares(later, a)
    ensures var w := Execute(w0, before);
            var v := Execute(Apply(Execute(w, between), Listen(a, true)), later);
            && a in v.servers && v.servers[a] == Server(Resting, Some(Sock(Some(i), true)), path, i, true)
            && (At(v, path) == Some(SocketEntry(i)) <==> !StaleUnlinked(w, between, path))
  {
    var w := Execute(w0, before);
    InitialInv(w0);
    RunKeepsInv(w0, before);
    RunKeepsDefinite(w0, before);
    assert RecordsSound(w, a);
    ListenReachesIff(w, a, path, i, between, later);
  }

  /** The same from any state between the two calls. */
  lemma ListenReachesIff(w: World, a: nat, path: string, i: nat, between: seq<Action>, later: seq<Action>)
    requires Inv(w) && AllDefinite(w) && Stretch(w, between) && Spares(between, a)
    requires a in w.servers && w.servers[a].phase == Identified(path, i)
              && w.servers[a].sock == Some(Sock(Some(i), false))
    requires Made(w, a, i) && At(w, path) == Some(SocketEntry(i))
    requires var u := Execute(w, between);
             && Enabled(u, Listen(a, true)) && Exclusive(u, Listen(a, true))
             && Stretch(Apply(u, Listen(a, true)), later) && Spares(later, a)
    ensures var v := Execute(Apply(Execute(w, between), Listen(a, true)), later);
            && a in v.servers && v.servers[a] == Server(Resting, Some(Sock(Some(i), true)), path, i, true)
            && (At(v, path) == Some(SocketEntry(i)) <==> !StaleUnlinked(w, between, path))
  {
    var u := Execute(w, between);
    var u' := Apply(u, Listen(a, true));
    SparedStays(w, between, a);
    RunKeepsInv(w, between);
    RunKeepsDefinite(w, between);
    StaysMade(w, between, a, i);
    PathIsKeptIff(w, between, a, path, i);
    StepKeepsInv(u, Listen(a, true));
    SparedStays(u', later, a);
    if At(u, path) == Some(SocketEntry(i)) {
      ListenerKeepsPath(u', later, a, path, i);
    } else {
      NeverReturns(u', later, path, i);
    }
  }

  lemma {:induction false} StaysMade(w: World, acts: seq<Action>, a: nat, i: nat)
    requires Feasible(w, acts) && Made(w, a, i)
    ensures Made(Execute(w, acts), a, i)
    decreases |acts|
  {
    if acts != [] {
      StepKeepsBoundBy(w, acts[0]);
      StaysMade(Apply(w, acts[0]), acts[1..], a, i);
    }
  }

  // ----- Concrete runs: servers 0 and 1 want the path "/s" -----

  function Two(entries: map<string, Entry>, s0: Server, s1: Server, boundBy: seq<nat>): World {
    World(entries, map[0 := s0, 1 := s1], boundBy)
  }

  /** Just opened its socket. */
  const Ready := FreshServer.(phase := Opening("/s"), sock := Some(Sock(None, false)))

  function OpeningRun(a: nat): seq<Action> {
    [CallListen(a, "/s"), UnlinkOwned(a), OpenSocket(a, true)]
  }

  lemma FirstOpens(entries: map<string, Entry>, boundBy: seq<nat>)
    ensures var w := Two(entries, FreshServer, FreshServer, boundBy);
            && Feasible(w, OpeningRun(0)) && Disciplined(w, OpeningRun(0))
            && Execute(w, OpeningRun(0)) == Two(entries, Ready, FreshServer, boundBy)
  {
    var w := Two(entries, FreshServer, FreshServer, boundBy);
    var w1 := Two(entries, FreshServer.(phase := Closing(Some("/s"))), FreshServer, boundBy);
    var w2 := Two(entries, FreshServer.(phase := Starting("/s")), FreshServer, boundBy);
    assert Apply(w, OpeningRun(0)[0]) == w1;
    assert Apply(w1, OpeningRun(0)[1]) == w2;
    assert Apply(w2, OpeningRun(0)[2]) == Two(entries, Ready, FreshServer, boundBy);
    Replay(w, OpeningRun(0), [w1, w2, Two(entries, Ready, FreshServer, boundBy)]);
  }

  lemma SecondOpens(entries: map<string, Entry>, boundBy: seq<nat>)
    ensures var w := Two(entries, Ready, FreshServer, boundBy);
            && Feasible(w, OpeningRun(1)) && Disciplined(w, OpeningRun(1))
            && Execute(w, OpeningRun(1)) == Two(entries, Ready, Ready, boundBy)
  {
    var w := Two(entries, Ready, FreshServer, boundBy);
    var w1 := Two(entries, Ready, FreshServer.(phase := Closing(Some("/s"))), boundBy);
    var w2 := Two(entries, Ready, FreshServer.(phase := Starting("/s")), boundBy);
    assert Apply(w, OpeningRun(1)[0]) == w1;
    assert Apply(w1, OpeningRun(1)[1]) == w2;
    assert Apply(w2, OpeningRun(1)[2]) == Two(entries, Ready, Ready, boundBy);
    Replay(w, OpeningRun(1), [w1, w2, Two(entries, Ready, Ready, boundBy)]);
  }

  const BothOpen: seq<Action> := OpeningRun(0) + OpeningRun(1)

  lemma BothOpenTogether(entries: map<string, Entry>, boundBy: seq<nat>)
    ensures var w := Two(entries, FreshServer, FreshServer, boundBy);
            Feasible(w, BothOpen) && Disciplined(w, BothOpen)
                && Execute(w, BothOpen) == Two(entries, Ready, Ready, boundBy)
  {
    FirstOpens(entries, boundBy);
    SecondOpens(entries, boundBy);
    ExecuteConcat(Two(entries, FreshServer, FreshServer, boundBy), OpeningRun(0), OpeningRun(1));
  }

  const Empty := Two(map[], FreshServer, FreshServer, [])

  const BindingRun: seq<Action> := [Probe(0, true, Answered), Bind(0, true)]

  /** Server 0 has bound the path, server 1 is about to probe it. */
  const JustBound := Two(map["/s" := SocketEntry(0)],
                         FreshServer.(phase := Bound("/s", 0), sock := Some(Sock(Some(0), false))), Ready, [0])

  lemma BindingIsReached()
    ensures Initial(Empty)
    ensures var acts := BothOpen + BindingRun;
            Feasible(Empty, acts) && Disciplined(Empty, acts) && Execute(Empty, acts) == JustBound
  {
    var w := Two(map[], Ready, Ready, []);
    var w1 := Two(map[], Ready.(phase := Clear("/s")), Ready, []);
    BothOpenTogether(map[], []);
    assert Apply(w, BindingRun[0]) == w1;
    assert Apply(w1, BindingRun[1]) == JustBound;
    Replay(w, BindingRun, [w1, JustBound]);
    ExecuteConcat(Empty, BothOpen, BindingRun);
  }

  /** From an empty directory: a listening server robbed of its path by another server's close. */
  lemma GapIsReal()
    ensures var acts := (BothOpen + BindingRun) + (TakeOverRun(1, Answered) + GapRun(0));
            && Initial(Empty) && Feasible(Empty, acts)
            && var w := Execute(Empty, acts); At(w, "/s") == None && Made(w, 1, 1) && Active(w, 1)
  {
    BindingIsReached();
    GapLosesOwnership(JustBound, 0, 1, "/s", 0);
    ExecuteConcat(Empty, BothOpen + BindingRun, TakeOverRun(1, Answered) + GapRun(0));
  }

  /** From an empty directory: a file that is no socket unlinked by a listen(). */
  lemma BlindGapIsReal()
    ensures var acts := (BothOpen + BindingRun) + BlindRun(0, 1, "/s");
            && Initial(Empty) && Feasible(Empty, acts)
            && var w := Execute(Empty, acts);
            && At(w, "/s") == Some(OtherEntry) && Enabled(w, UnlinkBlind(0))
                  && At(Apply(w, UnlinkBlind(0)), "/s") == None
  {
    BindingIsReached();
    BlindGapTakesFile(JustBound, 0, 1, "/s", 0);
    ExecuteConcat(Empty, BothOpen + BindingRun, BlindRun(0, 1, "/s"));
  }

  /** A socket of some earlier program lies at the path. */
  const Leftover := Two(map["/s" := SocketEntry(0)], FreshServer, FreshServer, [2])

  /** Server 0 has probed it, server 1 is about to. */
  const JustProbed := Two(map["/s" := SocketEntry(0)], Ready.(phase := Stale("/s", 0, true)), Ready, [2])

  lemma ProbingIsReached()
    ensures Initial(Leftover) && Listening(JustProbed) == {}
    ensures var acts := BothOpen + [Probe(0, true, Answered)];
            Feasible(Leftover, acts) && Execute(Leftover, acts) == JustProbed
  {
    var w := Two(map["/s" := SocketEntry(0)], Ready, Ready, [2]);
    BothOpenTogether(map["/s" := SocketEntry(0)], [2]);
    assert Listening(w) == {};
    assert Apply(w, Probe(0, true, Answered)) == JustProbed;
    Replay(w, [Probe(0, true, Answered)], [JustProbed]);
    ExecuteConcat(Leftover, BothOpen, [Probe(0, true, Answered)]);
  }

  /** From there: a listening server's entry unlinked as stale by another server's listen(). */
  lemma StaleGapIsReal()
    ensures var acts := (BothOpen + [Probe(0, true, Answered)]) + (TakeOverRun(1, Answered) + [UnlinkStale(0, true)]);
            && Initial(Leftover) && Feasible(Leftover, acts)
            && var w := Execute(Leftover, acts); At(w, "/s") == None && Made(w, 1, 1) && Active(w, 1)
  {
    ProbingIsReached();
    StaleGapEvicts(JustProbed, 0, 1, "/s");
    ExecuteConcat(Leftover, BothOpen + [Probe(0, true, Answered)], TakeOverRun(1, Answered) + [UnlinkStale(0, true)]);
  }

  /** Server 0 has identified its entry. */
  const JustIdentified := JustBound.(servers :=
      map[0 := FreshServer.(phase := Identified("/s", 0), sock := Some(Sock(Some(0), false))), 1 := Ready])

  /** Both servers listen; the path leads to server 1. */
  const Orphaned := Two(map["/s" := SocketEntry(1)],
                        Server(Resting, Some(Sock(Some(0), true)), "/s", 0, true),
                        Server(Resting, Some(Sock(Some(1), true)), "/s", 1, true), [0, 1])

  const OrphanRun: seq<Action> := [Identify(0, true)] + TakeOverRun(1, Answered) + [Listen(0, true)]

  lemma TakeOverIsDisciplined(w: World, b: nat, path: string)
    requires ReadyToTakeOver(w, b, path) && Listening(w) == {} && !w.servers[b].owns
    requires forall x :: x in w.servers && x != b ==> WindowPath(w, x) == None
    ensures Feasible(w, TakeOverRun(b, Answered)) && Disciplined(w, TakeOverRun(b, Answered))
    ensures Execute(w, TakeOverRun(b, Answered)) == TakenOver(w, b, path)
  {
    TakeOverSucceeds(w, b, path, Answered);
    AloneIsDisciplined(w, TakeOverRun(b, Answered), b, {path});
  }

  lemma OrphanTakenOver()
    ensures ReadyToTakeOver(JustIdentified, 1, "/s") && Listening(JustIdentified) == {}
              && !JustIdentified.servers[1].owns
    ensures forall x :: x in JustIdentified.servers && x != 1 ==> WindowPath(JustIdentified, x) == None
  {}

  lemma OrphanListens()
    ensures var w := TakenOver(JustIdentified, 1, "/s");
            Feasible(w, [Listen(0, true)]) && Disciplined(w, [Listen(0, true)])
                && Execute(w, [Listen(0, true)]) == Orphaned
  {
    var w := TakenOver(JustIdentified, 1, "/s");
    assert Apply(w, Listen(0, true)) == Orphaned;
    Replay(w, [Listen(0, true)], [Orphaned]);
  }

  lemma IdentityIsRead()
    ensures var acts := [Identify(0, true)];
            Feasible(JustBound, acts) && Disciplined(JustBound, acts) && Execute(JustBound, acts) == JustIdentified
  {
    assert Apply(JustBound, Identify(0, true)) == JustIdentified;
    Replay(JustBound, [Identify(0, true)], [JustIdentified]);
  }

  lemma OrphanRunsOn()
    ensures Feasible(JustBound, OrphanRun) && Disciplined(JustBound, OrphanRun)
              && Execute(JustBound, OrphanRun) == Orphaned
  {
    IdentityIsRead();
    OrphanTakenOver();
    TakeOverIsDisciplined(JustIdentified, 1, "/s");
    OrphanListens();
    ExecuteConcat(JustBound, [Identify(0, true)], TakeOverRun(1, Answered));
    ExecuteConcat(JustBound, [Identify(0, true)] + TakeOverRun(1, Answered), [Listen(0, true)]);
  }

  /**
   From an empty directory and within the assumptions: both calls return true,
   and the path leads to server 1 only.
  */
  lemma OrphanIsReal()
    ensures Initial(Empty) && Definite(BothOpen) && Definite(BindingRun) && Definite(OrphanRun)
    ensures var acts := (BothOpen + BindingRun) + OrphanRun;
            Feasible(Empty, acts) && Disciplined(Empty, acts) && Execute(Empty, acts) == Orphaned
  {
    BindingIsReached();
    OrphanRunsOn();
    ExecuteConcat(Empty, BothOpen + BindingRun, OrphanRun);
  }
}
