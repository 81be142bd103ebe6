/**
 UnixSocketServer::listen and close, statement by statement, over a directory
 no one else touches meanwhile. SocketPaths has the interleavings; the two
 share the entry type, the address check, the probe and the owned unlink.
*/
module UnixSocketServer {
  import opened Basics
  import opened SocketPaths

  /** The file system and the kernel's listening sockets. */
  class Directory {
    var entries: map<string, Entry>
    var inodes: nat                 // inodes made so far; the next one is fresh
    var listening: set<nat>         // inodes whose socket is being listened on

    ghost predicate Valid()
      reads this
    {
      && (forall p :: p in entries && entries[p].SocketEntry? ==> entries[p].inode < inodes)
      && (forall i :: i in listening ==> i < inodes)
    }
  }

  /** Which system calls of one listen() go through, and how its probe goes. */
  datatype Outcomes = Outcomes(socket: bool, lstat: bool, probing: Probing, unlink: bool, bind: bool, identity: bool,
      listen: bool)

  /** removeStaleSocketPath leaves the path free. */
  predicate Clears(entries: map<string, Entry>, listening: set<nat>, path: string, o: Outcomes) {
    o.lstat && (path in entries ==>
        entries[path].SocketEntry? && !HasActiveListener(entries[path], listening, o.probing) && o.unlink)
  }

  /** listen() gets as far as removeStaleSocketPath, and that leaves the path free. */
  predicate GetsClear(entries: map<string, Entry>, listening: set<nat>, path: string, o: Outcomes) {
    AddressFits(path) && o.socket && Clears(entries, listening, path, o)
  }

  /**
   What one listen() makes of the entries its close has left and of the sockets
   still listened on: a fresh entry at the path, or at most the loss of a socket
   that was there.
  */
  ghost predicate ListenOutcome(left: map<string, Entry>, listening: set<nat>, inodes: nat, path: string, o: Outcomes,
                                ok: bool, after: map<string, Entry>)
  {
    var clear := GetsClear(left, listening, path, o);
    && (ok <==> clear && o.bind && o.identity && o.listen)
    && after == (if ok then left[path := SocketEntry(inodes)] else if clear then left - {path} else left)
  }

  /**
   Of all that lay in the directory, listen() only ever displaces what is at
   its path, and that only if it is a socket.
  */
  lemma OnlySocketsAreDisplaced(left: map<string, Entry>, listening: set<nat>, inodes: nat, path: string, o: Outcomes,
                                ok: bool, after: map<string, Entry>, p: string)
    requires ListenOutcome(left, listening, inodes, path, o, ok, after) && p in left
    ensures p !in after || after[p] != left[p] ==> p == path && left[p].SocketEntry?
  {}

  /**
   An entry that is being listened on is displaced exactly if the probe of it
   fails for some other reason and lstat and unlink work.
  */
  lemma ListenerIsDisplacedIff(left: map<string, Entry>, listening: set<nat>, inodes: nat, path: string, o: Outcomes,
                               ok: bool, after: map<string, Entry>)
    requires ListenOutcome(left, listening, inodes, path, o, ok, after)
    requires path in left && left[path].SocketEntry? && left[path].inode in listening && left[path].inode < inodes
    ensures path !in after || after[path] != left[path] <==>
              AddressFits(path) && o.socket && o.lstat && o.unlink && o.probing.FailsOtherwise?
  {}

  /**
   When listen() succeeds, in full: the path has 1 to 107 characters, every
   system call it needs goes through, and the path is free or holds a socket
   whose probe is answered by nobody or fails, though not for want of a socket to
   probe with.
  */
  lemma ListenSucceedsIff(left: map<string, Entry>, listening: set<nat>, inodes: nat, path: string, o: Outcomes,
                          ok: bool, after: map<string, Entry>)
    requires ListenOutcome(left, listening, inodes, path, o, ok, after)
    ensures ok <==>
              && 1 <= |path| <= 107 && o.socket && o.lstat && o.bind && o.identity && o.listen
              && (path !in left
                  || (left[path].SocketEntry? && o.unlink
                      && (o.probing.FailsOtherwise? || (o.probing.Answered? && left[path].inode !in listening))))
    ensures ok ==> after == left[path := SocketEntry(inodes)]
    ensures !ok ==> after == left || after == left - {path}
  {}

  class UnixSocketServer {
    const dir: Directory
    var fd: Option<nat>         // inode of the socket listened on; None for -1
    var path: string
    var inode: nat
    var ownsPath: bool

    ghost predicate Valid()
      reads this, dir
    {
      && dir.Valid()
      && (fd.Some? <==> ownsPath)
      && (ownsPath ==> fd == Some(inode) && inode in dir.listening && path != "")
      && (!ownsPath ==> path == "")
    }

    constructor (dir: Directory)
      requires dir.Valid()
      ensures Valid() && this.dir == dir && fd == None && !ownsPath
    {
      this.dir := dir;
      fd, path, inode, ownsPath := None, "", 0, false;
    }

    /** What is left in the directory once this server has closed. */
    ghost function Left(): map<string, Entry>
      reads this, dir
    {
      if ownsPath then WithoutOwned(dir.entries, path, inode) else dir.entries
    }

    ghost function StillListening(): set<nat>
      reads this, dir
    {
      if fd.Some? then dir.listening - {fd.value} else dir.listening
    }

    method Close()
      requires Valid()
      modifies this, dir
      ensures Valid() && fd == None && !ownsPath && dir.inodes == old(dir.inodes)
      ensures dir.entries == old(Left()) && dir.listening == old(StillListening())
    {
      if fd.Some? {
        dir.listening := dir.listening - {fd.value};
        fd := None;
      }
      if ownsPath {
        UnlinkOwnedSocketPath(path, inode);
      }
      path, inode, ownsPath := "", 0, false;
    }

    method UnlinkOwnedSocketPath(path: string, inode: nat)
      modifies dir`entries
      ensures dir.entries == WithoutOwned(old(dir.entries), path, inode)
    {
      if path == "" {
        return;
      }
      if path !in dir.entries {
        return;
      }
      if dir.entries[path].SocketEntry? && dir.entries[path].inode == inode {
        dir.entries := dir.entries - {path};
      }
    }

    /** True exactly when the path is free for bind afterwards; only a socket nobody listens on is ever removed. */
    method RemoveStaleSocketPath(path: string, o: Outcomes) returns (ok: bool)
      modifies dir`entries
      ensures ok <==> Clears(old(dir.entries), dir.listening, path, o)
      ensures dir.entries == if ok then old(dir.entries) - {path} else old(dir.entries)
    {
      if !o.lstat {
        return false;
      }
      if path !in dir.entries {
        return true;
      }
      if !dir.entries[path].SocketEntry? {
        return false;
      }
      if HasActiveListener(dir.entries[path], dir.listening, o.probing) {
        return false;
      }
      if !o.unlink {
        return false;
      }
      dir.entries := dir.entries - {path};
      return true;
    }

    /**
     Success puts one fresh entry at the path and takes nothing else away.
     Failure leaves the server closed and the directory as its close left it,
     except that a socket taken for stale may be gone from the path.
    */
    method Listen(path: string, o: Outcomes) returns (ok: bool)
      requires Valid()
      modifies this, dir
      ensures Valid()
      ensures ListenOutcome(old(Left()), old(StillListening()), old(dir.inodes), path, o, ok, dir.entries)
      ensures ok ==> && dir.listening == old(StillListening()) + {old(dir.inodes)}
                     && ownsPath && this.path == path && inode == old(dir.inodes)
      ensures !ok ==> !ownsPath && fd == None && dir.listening == old(StillListening())
    {
      Close();
      if !AddressFits(path) {
        return false;
      }
      if !o.socket {
        return false;
      }
      ghost var left := dir.entries;
      ok := RemoveStaleSocketPath(path, o);
      if !ok {
        return false;
      }
      if !o.bind {
        return false;
      }
      var bound := dir.inodes;
      dir.inodes := dir.inodes + 1;
      dir.entries := dir.entries[path := SocketEntry(bound)];
      assert dir.entries == left[path := SocketEntry(bound)] && dir.entries - {path} == left - {path};
      if !o.identity {
        dir.entries := dir.entries - {path};
        return false;
      }
      if !o.listen {
        UnlinkOwnedSocketPath(path, bound);
        return false;
      }
      dir.listening := dir.listening + {bound};
      fd, this.path, inode, ownsPath := Some(bound), path, bound, true;
      return true;
    }
  }

  // ----- The class as a run of the machine -----

  /** Nothing but server a moves, and it is asked for no other path. */
  predicate OnlyActs(acts: seq<Action>, a: nat, path: string) {
    forall i :: 0 <= i < |acts| ==> !acts[i].Plant? && acts[i].a == a && (acts[i].CallListen? ==> acts[i].path == path)
  }

  /** A stretch of steps of server a from w to v. */
  ghost predicate Leads(w: World, acts: seq<Action>, a: nat, path: string, v: World) {
    OnlyActs(acts, a, path) && Feasible(w, acts) && Execute(w, acts) == v
  }

  lemma OneStep(w: World, act: Action, path: string)
    requires Enabled(w, act) && !act.Plant? && (act.CallListen? ==> act.path == path)
    ensures Leads(w, [act], act.a, path, Apply(w, act))
  {
    Replay(w, [act], [Apply(w, act)]);
  }

  lemma Then(w: World, first: seq<Action>, v: World, second: seq<Action>, a: nat, path: string, u: World)
    requires Leads(w, first, a, path, v) && Leads(v, second, a, path, u)
    ensures Leads(w, first + second, a, path, u)
  {
    ExecuteConcat(w, first, second);
  }

  /** The entries server a's close leaves. */
  function LeftBy(w: World, a: nat): map<string, Entry>
    requires a in w.servers
  {
    var s := w.servers[a];
    if s.owns then WithoutOwned(w.entries, s.path, s.inode) else w.entries
  }

  /** Server a between two calls, closed. */
  function Shut(w: World, a: nat, entries: map<string, Entry>, s: Server): World {
    w.(entries := entries, servers := w.servers[a := s])
  }

  /** No other server is in a window on these paths. */
  ghost predicate OthersAway(w: World, a: nat, paths: set<string>) {
    forall x :: x in w.servers && x != a && WindowPath(w, x).Some? ==> WindowPath(w, x).value !in paths
  }

  /** close() is a run that leaves exactly what Close does. */
  lemma CloseIsARun(w: World, a: nat) returns (acts: seq<Action>)
    requires a in w.servers && w.servers[a].phase.Resting?
    ensures Feasible(w, acts) && Execute(w, acts) == Shut(w, a, LeftBy(w, a), FreshServer)
    ensures OthersAway(w, a, {w.servers[a].path}) ==> Disciplined(w, acts)
  {
    var v, v', path := Apply(w, CallClose(a)), Shut(w, a, LeftBy(w, a), FreshServer), w.servers[a].path;
    acts := [CallClose(a)] + [UnlinkOwned(a)];
    OneStep(w, CallClose(a), path);
    OneStep(v, UnlinkOwned(a), path);
    assert Apply(v, UnlinkOwned(a)) == v';
    Then(w, [CallClose(a)], v, [UnlinkOwned(a)], a, path, v');
    if OthersAway(w, a, {path}) {
      AloneIsDisciplined(w, acts, a, {path});
    }
  }

  /** Server a inside listen(path) with this phase and socket. */
  function Within(phase: Phase, sock: Option<Sock>): Server {
    FreshServer.(phase := phase, sock := sock)
  }

  lemma OpensSocket(w: World, a: nat, path: string, o: Outcomes) returns (acts: seq<Action>)
    requires a in w.servers && w.servers[a].phase.Resting?
    ensures Leads(w, acts, a, path, Shut(w, a, LeftBy(w, a),
              if AddressFits(path) && o.socket then Within(Opening(path), Some(Sock(None, false))) else FreshServer))
  {
    var v1 := w.(servers := w.servers[a := w.servers[a].(phase := Closing(Some(path)), sock := None)]);
    var v2 := Shut(w, a, LeftBy(w, a), Within(Starting(path), None));
    OneStep(w, CallListen(a, path), path);
    OneStep(v1, UnlinkOwned(a), path);
    assert Apply(v1, UnlinkOwned(a)) == v2;
    Then(w, [CallListen(a, path)], v1, [UnlinkOwned(a)], a, path, v2);
    OneStep(v2, OpenSocket(a, o.socket), path);
    acts := [CallListen(a, path)] + [UnlinkOwned(a)] + [OpenSocket(a, o.socket)];
    Then(w, [CallListen(a, path)] + [UnlinkOwned(a)], v2, [OpenSocket(a, o.socket)], a, path,
        Apply(v2, OpenSocket(a, o.socket)));
  }

  lemma ClearsPath(w: World, a: nat, path: string, o: Outcomes) returns (acts: seq<Action>)
    requires a in w.servers && w.servers[a] == Within(Opening(path), Some(Sock(None, false)))
    ensures var cleared := Clears(w.entries, Listening(w), path, o);
            Leads(w, acts, a, path, Shut(w, a, if cleared then w.entries - {path} else w.entries,
              if cleared then Within(Clear(path), Some(Sock(None, false))) else FreshServer))
  {
    var probe := Probe(a, o.lstat, o.probing);
    var v := Apply(w, probe);
    OneStep(w, probe, path);
    acts := [probe];
    if path !in w.entries {
      assert w.entries - {path} == w.entries;
    }
    if v.servers[a].phase.Stale? {
      OneStep(v, UnlinkStale(a, o.unlink), path);
      Then(w, [probe], v, [UnlinkStale(a, o.unlink)], a, path, Apply(v, UnlinkStale(a, o.unlink)));
      acts := [probe] + [UnlinkStale(a, o.unlink)];
    }
  }

  /** Server a listening at path on inode i. */
  function ListeningAt(path: string, i: nat): Server {
    Server(Resting, Some(Sock(Some(i), true)), path, i, true)
  }

  /** The world after bind and what follows it. */
  function AfterBind(w: World, a: nat, path: string, o: Outcomes): World {
    var good := o.bind && o.identity && o.listen;
    World(if good then w.entries[path := SocketEntry(|w.boundBy|)] else w.entries,
          w.servers[a := if good then ListeningAt(path, |w.boundBy|) else FreshServer],
          if o.bind then w.boundBy + [a] else w.boundBy)
  }

  lemma BindsAndListens(w: World, a: nat, path: string, o: Outcomes) returns (acts: seq<Action>)
    requires a in w.servers && w.servers[a] == Within(Clear(path), Some(Sock(None, false)))
    requires path !in w.entries && path != ""
    ensures Leads(w, acts, a, path, AfterBind(w, a, path, o))
  {
    var n := |w.boundBy|;
    var sock := Some(Sock(Some(n), false));
    var v1 := World(w.entries[path := SocketEntry(n)], w.servers[a := Within(Bound(path, n), sock)], w.boundBy + [a]);
    OneStep(w, Bind(a, o.bind), path);
    acts := [Bind(a, o.bind)];
    if o.bind {
      assert Apply(w, Bind(a, true)) == v1;
      OneStep(v1, Identify(a, o.identity), path);
      var v2 := Apply(v1, Identify(a, o.identity));
      assert v1.entries - {path} == w.entries;
      var rest := [Identify(a, o.identity)];
      if o.identity {
        assert v2 == v1.(servers := w.servers[a := Within(Identified(path, n), sock)]);
        var more := ListensOrRetreats(v2, a, path, n, o);
        Then(v1, rest, v2, more, a, path, Listened(v2, a, path, n, o));
        rest := rest + more;
        assert Listened(v2, a, path, n, o) == AfterBind(w, a, path, o);
      } else {
        OneStep(v2, UnlinkBlind(a), path);
        Then(v1, rest, v2, [UnlinkBlind(a)], a, path, Apply(v2, UnlinkBlind(a)));
        rest := rest + [UnlinkBlind(a)];
        assert Apply(v2, UnlinkBlind(a)) == AfterBind(w, a, path, o);
      }
      Then(w, acts, v1, rest, a, path, AfterBind(w, a, path, o));
      acts := acts + rest;
    } else {
      assert Apply(w, Bind(a, false)) == AfterBind(w, a, path, o);
    }
  }

  function Listened(w: World, a: nat, path: string, n: nat, o: Outcomes): World {
    if o.listen then Shut(w, a, w.entries, ListeningAt(path, n)) else Shut(w, a, w.entries - {path}, FreshServer)
  }

  lemma ListensOrRetreats(w: World, a: nat, path: string, n: nat, o: Outcomes) returns (acts: seq<Action>)
    requires a in w.servers && w.servers[a] == Within(Identified(path, n), Some(Sock(Some(n), false)))
    requires path != "" && path in w.entries && w.entries[path] == SocketEntry(n)
    ensures Leads(w, acts, a, path, Listened(w, a, path, n, o))
  {
    var v := Apply(w, Listen(a, o.listen));
    OneStep(w, Listen(a, o.listen), path);
    acts := [Listen(a, o.listen)];
    if !o.listen {
      OneStep(v, UnlinkOwned(a), path);
      Then(w, acts, v, [UnlinkOwned(a)], a, path, Apply(v, UnlinkOwned(a)));
      acts := acts + [UnlinkOwned(a)];
      assert Apply(v, UnlinkOwned(a)) == Listened(w, a, path, n, o);
    }
  }

  /**
   listen() of the class is a run of the machine: whatever the other servers
   are doing, server a's steps taken in one go, with any of the system calls
   failing, lead to exactly what Listen promises; and they are an exclusive run
   unless another server is in its window on one of the two paths.
  */
  lemma ListenIsARun(w: World, a: nat, path: string, o: Outcomes) returns (acts: seq<Action>, v: World, ok: bool)
    requires a in w.servers && w.servers[a].phase.Resting?
    ensures Leads(w, acts, a, path, v)
    ensures ListenOutcome(LeftBy(w, a), Listening(Shut(w, a, LeftBy(w, a), FreshServer)), |w.boundBy|, path, o, ok,
              v.entries)
    ensures v.servers == w.servers[a := if ok then ListeningAt(path, |w.boundBy|) else FreshServer]
    ensures OthersAway(w, a, {path, w.servers[a].path}) ==> Disciplined(w, acts)
  {
    acts, v, ok := ListenLeads(w, a, path, o);
    if OthersAway(w, a, {path, w.servers[a].path}) {
      AloneIsDisciplined(w, acts, a, {path, w.servers[a].path});
    }
  }

  lemma ListenLeads(w: World, a: nat, path: string, o: Outcomes) returns (acts: seq<Action>, v: World, ok: bool)
    requires a in w.servers && w.servers[a].phase.Resting?
    ensures Leads(w, acts, a, path, v)
    ensures ListenOutcome(LeftBy(w, a), Listening(Shut(w, a, LeftBy(w, a), FreshServer)), |w.boundBy|, path, o, ok,
              v.entries)
    ensures v.servers == w.servers[a := if ok then ListeningAt(path, |w.boundBy|) else FreshServer]
  {
    var left, shut := LeftBy(w, a), Shut(w, a, LeftBy(w, a), FreshServer);
    var clear := GetsClear(left, Listening(shut), path, o);
    ok := clear && o.bind && o.identity && o.listen;
    acts := OpensSocket(w, a, path, o);
    v := Shut(w, a, left, if AddressFits(path) && o.socket then Within(Opening(path), Some(Sock(None, false)))
        else FreshServer);
    NotListening(shut, v, a);
    if AddressFits(path) && o.socket {
      var clearing := ClearsPath(v, a, path, o);
      var v' := Shut(v, a, if clear then left - {path} else left,
                     if clear then Within(Clear(path), Some(Sock(None, false))) else FreshServer);
      Then(w, acts, v, clearing, a, path, v');
      acts, v := acts + clearing, v';
      if clear {
        var u := AfterBind(v, a, path, o);
        var binding := BindsAndListens(v, a, path, o);
        Then(w, acts, v, binding, a, path, u);
        acts := acts + binding;
        assert u.servers == w.servers[a := u.servers[a]];
        assert (left - {path})[path := SocketEntry(|w.boundBy|)] == left[path := SocketEntry(|w.boundBy|)];
        v := u;
      }
    }
  }

  /** A server that listens on nothing does not matter to who listens. */
  lemma NotListening(w: World, v: World, a: nat)
    requires a in w.servers && a in v.servers && v.servers.Keys == w.servers.Keys
    requires forall x :: x in w.servers && x != a ==> v.servers[x] == w.servers[x]
    requires w.servers[a].sock == None && (v.servers[a].sock.Some? ==> !v.servers[a].sock.value.listening)
    ensures Listening(v) == Listening(w)
  {
    forall i
      ensures i in Listening(v) <==> i in Listening(w)
    {
      if i in Listening(v) {
        var x :| x in v.servers && v.servers[x].sock == Some(Sock(Some(i), true));
        assert w.servers[x].sock == Some(Sock(Some(i), true));
      }
      if i in Listening(w) {
        var x :| x in w.servers && w.servers[x].sock == Some(Sock(Some(i), true));
        assert v.servers[x].sock == Some(Sock(Some(i), true));
      }
    }
  }
}
