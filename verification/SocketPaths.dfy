/**
 Ownership of Unix socket paths (UnixSocketServer::listen and close), as a
 state machine of many servers over one directory. Every system call that
 changes something is a step of its own; a probe is lstat and connect
 together, an owned unlink lstat and unlink together, and closing a descriptor
 goes with the step before or after it. Inodes are fresh: the n-th bind makes
 inode n.

 Nothing in the code locks the path between probing it and reading back the
 identity of what was bound. `Harms` is what can go wrong for that reason. Runs
 without a harmful step are safe (EntriesAreSafe), runs in which no server works
 on a path while another is in its window on the same path have none
 (ExclusiveIsHarmless), and SocketGaps says exactly when one happens.
*/
module SocketPaths {
  import opened Basics

  datatype Entry = SocketEntry(inode: nat) | OtherEntry

  /** A kernel socket: the inode it is bound to, and whether ::listen succeeded on it. */
  datatype Sock = Sock(inode: Option<nat>, listening: bool)

  /**
   How the probe of a socket goes: the kernel answers it, there is no socket
   to probe with, or connect fails for some other reason.
  */
  datatype Probing = Answered | NoProbeSocket | FailsOtherwise

  datatype Phase =
    | Resting                                              // between calls
    | Closing(reopen: Option<string>)                      // descriptor closed, owned unlink next; then maybe listen
    | Starting(path: string)                               // address and ::socket next
    | Opening(path: string)                                // probe next
    | Stale(path: string, probed: nat, definite: bool)     // taken for stale, definitely or not; unlink next
    | Clear(path: string)                                  // bind next
    | Bound(path: string, bound: nat)                      // identity next
    | Unidentified(path: string, bound: nat)               // identity unreadable, descriptor closed, unlink next
    | Identified(path: string, inode: nat)                 // ::listen next
    | Retreating(path: string, inode: nat)                 // ::listen failed, descriptor closed, owned unlink next
    | Dead                                                 // the process is gone, its destructor never ran

  datatype Server = Server(phase: Phase, sock: Option<Sock>, path: string, inode: nat, owns: bool)

  const FreshServer := Server(Resting, None, "", 0, false)

  datatype World = World(
    entries: map<string, Entry>,
    servers: map<nat, Server>,
    boundBy: seq<nat>)          // history: which server made inode i

  datatype Action =
    | CallListen(a: nat, path: string)
    | CallClose(a: nat)
    | UnlinkOwned(a: nat)
    | OpenSocket(a: nat, ok: bool)
    | Probe(a: nat, statOk: bool, probing: Probing)
    | UnlinkStale(a: nat, ok: bool)
    | Bind(a: nat, ok: bool)
    | Identify(a: nat, ok: bool)
    | UnlinkBlind(a: nat)
    | Listen(a: nat, ok: bool)
    | Die(a: nat)
    | Plant(path: string)       // someone else creates a non-socket file at a free path

  /** sizeof(sockaddr_un::sun_path) on Linux. */
  const SUN_PATH: int := 108

  /** fillAddress accepts the path. */
  predicate AddressFits(path: string) {
    0 < |path| < SUN_PATH
  }

  /** The inodes being listened on. */
  function Listening(w: World): set<nat> {
    set a | a in w.servers && w.servers[a].sock.Some? && w.servers[a].sock.value.inode.Some?
        && w.servers[a].sock.value.listening
      :: w.servers[a].sock.value.inode.value
  }

  predicate Active(w: World, inode: nat) {
    inode in Listening(w)
  }

  /** What a path leads to. */
  function At(w: World, path: string): Option<Entry> {
    if path in w.entries then Some(w.entries[path]) else None
  }

  /**
   socketHasActiveListener: without a probe socket the path counts as taken,
   and every failed connect as nobody listening.
  */
  predicate HasActiveListener(entry: Entry, listening: set<nat>, probing: Probing) {
    probing.NoProbeSocket? || (probing.Answered? && entry.SocketEntry? && entry.inode in listening)
  }

  predicate Enabled(w: World, act: Action) {
    if act.Plant? then act.path !in w.entries
    else
      && act.a in w.servers
      && var s := w.servers[act.a];
      match act
      case CallListen(_, _) => s.phase.Resting?
      case CallClose(_) => s.phase.Resting?
      case UnlinkOwned(_) => s.phase.Closing? || s.phase.Retreating?
      case OpenSocket(_, _) => s.phase.Starting?
      case Probe(_, _, _) => s.phase.Opening?
      case UnlinkStale(_, _) => s.phase.Stale?
      case Bind(_, _) => s.phase.Clear?
      case Identify(_, _) => s.phase.Bound?
      case UnlinkBlind(_) => s.phase.Unidentified?
      case Listen(_, _) => s.phase.Identified? && s.sock.Some?
      case Die(_) => !s.phase.Dead?
  }

  /** lstat and unlink of unlinkOwnedSocketPath: only a socket with the recorded identity goes. */
  function WithoutOwned(entries: map<string, Entry>, path: string, inode: nat): map<string, Entry> {
    if path != "" && path in entries && entries[path] == SocketEntry(inode) then entries - {path} else entries
  }

  function Apply(w: World, act: Action): World
    requires Enabled(w, act)
  {
    if act.Plant? then w.(entries := w.entries[act.path := OtherEntry])
    else
      var a, s := act.a, w.servers[act.a];
      var failed := s.(phase := Resting, sock := None);
      match act
      case CallListen(_, path) => w.(servers := w.servers[a := s.(phase := Closing(Some(path)), sock := None)])
      case CallClose(_) => w.(servers := w.servers[a := s.(phase := Closing(None), sock := None)])
      case UnlinkOwned(_) =>
        if s.phase.Retreating? then
          w.(entries := WithoutOwned(w.entries, s.phase.path, s.phase.inode), servers := w.servers[a := failed])
        else
          w.(entries := if s.owns then WithoutOwned(w.entries, s.path, s.inode) else w.entries,
             servers := w.servers[a := Server(if s.phase.reopen.Some? then Starting(s.phase.reopen.value) else Resting,
                                              None, "", 0, false)])
      case OpenSocket(_, ok) =>
        if !AddressFits(s.phase.path) || !ok then w.(servers := w.servers[a := failed])
        else w.(servers := w.servers[a := s.(phase := Opening(s.phase.path), sock := Some(Sock(None, false)))])
      case Probe(_, statOk, probing) =>
        var path := s.phase.path;
        if !statOk then w.(servers := w.servers[a := failed])
        else if path !in w.entries then w.(servers := w.servers[a := s.(phase := Clear(path))])
        else if w.entries[path].OtherEntry? || HasActiveListener(w.entries[path], Listening(w), probing)
        then w.(servers := w.servers[a := failed])
        else w.(servers := w.servers[a := s.(phase := Stale(path, w.entries[path].inode, probing.Answered?))])
      case UnlinkStale(_, ok) =>
        if !ok then w.(servers := w.servers[a := failed])
        else w.(entries := w.entries - {s.phase.path}, servers := w.servers[a := s.(phase := Clear(s.phase.path))])
      case Bind(_, ok) =>
        var path, inode := s.phase.path, |w.boundBy|;
        if path in w.entries || !ok then w.(servers := w.servers[a := failed])
        else
          World(w.entries[path := SocketEntry(inode)],
                w.servers[a := s.(phase := Bound(path, inode), sock := Some(Sock(Some(inode), false)))],
                w.boundBy + [a])
      case Identify(_, ok) =>
        var path := s.phase.path;
        if ok && path in w.entries && w.entries[path].SocketEntry?
        then w.(servers := w.servers[a := s.(phase := Identified(path, w.entries[path].inode))])
        else w.(servers := w.servers[a := s.(phase := Unidentified(path, s.phase.bound), sock := None)])
      case UnlinkBlind(_) => w.(entries := w.entries - {s.phase.path}, servers := w.servers[a := failed])
      case Listen(_, ok) =>
        if ok then
          var sock := Some(s.sock.value.(listening := true));
          w.(servers := w.servers[a := Server(Resting, sock, s.phase.path, s.phase.inode, true)])
        else
          w.(servers := w.servers[a := s.(phase := Retreating(s.phase.path, s.phase.inode), sock := None)])
      case Die(_) => w.(servers := w.servers[a := s.(phase := Dead, sock := None)])
  }

  ghost predicate EntriesSound(w: World) {
    && (forall p :: p in w.entries && w.entries[p].SocketEntry? ==> w.entries[p].inode < |w.boundBy|)
    && (forall p, q ::
          p in w.entries && q in w.entries && w.entries[p].SocketEntry? && w.entries[p] == w.entries[q] ==> p == q)
  }

  /** No server has done anything yet; sockets and files of earlier programs may lie about. */
  ghost predicate Initial(w: World) {
    && EntriesSound(w)
    && (forall a :: a in w.servers ==> w.servers[a] == FreshServer)
    && (forall i :: 0 <= i < |w.boundBy| ==> w.boundBy[i] !in w.servers)
  }

  // ----- Windows -----

  /** Between the probe and the identity read-back. */
  predicate InWindow(p: Phase) {
    p.Stale? || p.Clear? || p.Bound? || p.Unidentified?
  }

  function WindowPath(w: World, a: nat): Option<string>
    requires a in w.servers
  {
    if InWindow(w.servers[a].phase) then Some(w.servers[a].phase.path) else None
  }

  /** The path a step looks at or changes. */
  function Touches(w: World, act: Action): Option<string>
    requires Enabled(w, act)
  {
    if act.Plant? then Some(act.path)
    else
      var s := w.servers[act.a];
      match act
      case UnlinkOwned(_) => if s.phase.Retreating? then Some(s.phase.path) else if s.owns then Some(s.path) else None
      case Probe(_, _, _) => Some(s.phase.path)
      case UnlinkStale(_, _) => Some(s.phase.path)
      case Bind(_, _) => Some(s.phase.path)
      case Identify(_, _) => Some(s.phase.path)
      case UnlinkBlind(_) => Some(s.phase.path)
      case Listen(_, _) => Some(s.phase.path)
      case _ => None
  }

  /** The step does not work on a path that another server is in its window on. */
  ghost predicate Exclusive(w: World, act: Action)
    requires Enabled(w, act)
  {
    forall x :: x in w.servers && WindowPath(w, x).Some? && WindowPath(w, x) == Touches(w, act) ==>
        !act.Plant? && act.a == x
  }

  /** The inode that a server in its window counts on finding at its path. */
  function Expected(p: Phase): Option<nat> {
    match p
    case Stale(_, i, _) => Some(i)
    case Bound(_, i) => Some(i)
    case Unidentified(_, i) => Some(i)
    case _ => None
  }

  /**
   The step unlinks an entry, or records an identity, other than the one its
   server counts on; or it unlinks an entry that is being listened on although
   the probe was told that nobody is.
  */
  predicate Harms(w: World, act: Action)
    requires Enabled(w, act)
  {
    && ((act.UnlinkStale? && act.ok) || act.UnlinkBlind? || (act.Identify? && act.ok))
    && var p := w.servers[act.a].phase;
    && At(w, p.path).Some?
    && var e := At(w, p.path).value;
    || (e != SocketEntry(Expected(p).value) && (act.Identify? ==> e.SocketEntry?))
    || (p.Stale? && p.definite && e == SocketEntry(p.probed) && Active(w, p.probed))
  }

  // ----- Runs -----

  predicate Feasible(w: World, acts: seq<Action>)
    decreases |acts|
  {
    acts == [] || (Enabled(w, acts[0]) && Feasible(Apply(w, acts[0]), acts[1..]))
  }

  function Execute(w: World, acts: seq<Action>): World
    requires Feasible(w, acts)
    decreases |acts|
  {
    if acts == [] then w else Execute(Apply(w, acts[0]), acts[1..])
  }

  /** Every step of the run is exclusive. */
  ghost predicate Disciplined(w: World, acts: seq<Action>)
    requires Feasible(w, acts)
    decreases |acts|
  {
    acts == [] || (Exclusive(w, acts[0]) && Disciplined(Apply(w, acts[0]), acts[1..]))
  }

  /** No step of the run is harmful. */
  predicate Harmless(w: World, acts: seq<Action>)
    requires Feasible(w, acts)
    decreases |acts|
  {
    acts == [] || (!Harms(w, acts[0]) && Harmless(Apply(w, acts[0]), acts[1..]))
  }

  lemma {:induction false} ExecuteConcat(w: World, a: seq<Action>, b: seq<Action>)
    requires Feasible(w, a) && Feasible(Execute(w, a), b)
    ensures Feasible(w, a + b) && Execute(w, a + b) == Execute(Execute(w, a), b)
    ensures Disciplined(w, a) && Disciplined(Execute(w, a), b) ==> Disciplined(w, a + b)
    decreases |a|
  {
    if a == [] {
      assert a + b == b;
    } else {
      ExecuteConcat(Apply(w, a[0]), a[1..], b);
      assert (a + b)[0] == a[0] && (a + b)[1..] == a[1..] + b;
    }
  }

  // ----- What servers hold, in runs without harm -----

  predicate Made(w: World, a: nat, inode: nat) {
    inode < |w.boundBy| && w.boundBy[inode] == a
  }

  /** What a server holds or has recorded it has made itself. */
  ghost predicate RecordsSound(w: World, a: nat)
    requires a in w.servers
  {
    var s := w.servers[a];
    && (s.sock.Some? && s.sock.value.inode.Some? ==> Made(w, a, s.sock.value.inode.value))
    && (s.sock.Some? && s.sock.value.listening ==> s.phase.Resting? && s.owns && s.sock.value.inode == Some(s.inode))
    && (s.owns ==> Made(w, a, s.inode) && (s.phase.Resting? || s.phase.Closing? || s.phase.Dead?))
    && match s.phase
       case Stale(_, i, _) => i < |w.boundBy|
       case Bound(_, n) => Made(w, a, n) && s.sock == Some(Sock(Some(n), false))
       case Unidentified(_, n) => Made(w, a, n)
       case Identified(_, i) => Made(w, a, i) && s.sock == Some(Sock(Some(i), false))
       case Retreating(_, i) => Made(w, a, i)
       case _ => true
  }

  ghost predicate Records(w: World) {
    EntriesSound(w) && forall a :: a in w.servers ==> RecordsSound(w, a)
  }

  lemma InitialRecords(w: World)
    requires Initial(w)
    ensures Records(w)
  {}

  lemma StepKeepsEntries(w: World, act: Action)
    requires EntriesSound(w) && Enabled(w, act)
    ensures EntriesSound(Apply(w, act)) && |w.boundBy| <= |Apply(w, act).boundBy|
    ensures w.boundBy <= Apply(w, act).boundBy
  {}

  lemma StepKeepsActingRecords(w: World, act: Action)
    requires EntriesSound(w) && Enabled(w, act) && !act.Plant? && RecordsSound(w, act.a) && !Harms(w, act)
    ensures RecordsSound(Apply(w, act), act.a)
  {}

  lemma StepKeepsRecords(w: World, act: Action)
    requires Records(w) && Enabled(w, act) && !Harms(w, act)
    ensures Records(Apply(w, act))
  {
    StepKeepsEntries(w, act);
    var w' := Apply(w, act);
    forall x | x in w'.servers
      ensures RecordsSound(w', x)
    {
      assert RecordsSound(w, x);
      if !act.Plant? && x == act.a {
        StepKeepsActingRecords(w, act);
      } else {
        assert w'.servers[x] == w.servers[x];
        OldRecordsStay(w, w', x);
      }
    }
  }

  lemma OldRecordsStay(w: World, w': World, x: nat)
    requires x in w.servers && x in w'.servers && w'.servers[x] == w.servers[x] && w.boundBy <= w'.boundBy
    requires RecordsSound(w, x)
    ensures RecordsSound(w', x)
  {}

  lemma {:induction false} RunKeepsRecords(w: World, acts: seq<Action>)
    requires Records(w) && Feasible(w, acts) && Harmless(w, acts)
    ensures Records(Execute(w, acts))
    decreases |acts|
  {
    if acts != [] {
      StepKeepsRecords(w, acts[0]);
      RunKeepsRecords(Apply(w, acts[0]), acts[1..]);
    }
  }

  /** The step takes the entry at this path away or puts another in its place. */
  predicate Disturbs(w: World, act: Action, path: string)
    requires Enabled(w, act)
  {
    At(w, path).Some? && At(Apply(w, act), path) != At(w, path)
  }

  /**
   In every state that any run without harmful steps reaches, whatever harmless
   step comes next: an entry is only ever disturbed if it is a socket, and then
   by the server that bound it or by a listen() that has probed this very entry.
  */
  lemma EntriesAreSafe(w0: World, acts: seq<Action>, act: Action, path: string)
    requires Initial(w0) && Feasible(w0, acts) && Harmless(w0, acts)
    requires var w := Execute(w0, acts); Enabled(w, act) && !Harms(w, act) && Disturbs(w, act, path)
    ensures var w := Execute(w0, acts);
            && w.entries[path].SocketEntry? && !act.Plant?
            && (Made(w, act.a, w.entries[path].inode)
                || (act.UnlinkStale? && act.ok && w.servers[act.a].phase.path == path
                    && w.servers[act.a].phase.probed == w.entries[path].inode))
  {
    InitialRecords(w0);
    RunKeepsRecords(w0, acts);
    assert RecordsSound(Execute(w0, acts), act.a);
  }

  /**
   A socket being listened on is disturbed exactly by the unlink after a probe
   of it that failed though there is a listener.
  */
  lemma ListenersAreSafe(w0: World, acts: seq<Action>, act: Action, path: string)
    requires Initial(w0) && Feasible(w0, acts) && Harmless(w0, acts)
    requires var w := Execute(w0, acts);
             && Enabled(w, act) && !Harms(w, act)
             && path in w.entries && w.entries[path].SocketEntry? && Active(w, w.entries[path].inode)
    ensures var w := Execute(w0, acts);
            Disturbs(w, act, path) <==>
              act.UnlinkStale? && act.ok && w.servers[act.a].phase == Stale(path, w.entries[path].inode, false)
  {
    InitialRecords(w0);
    RunKeepsRecords(w0, acts);
    var w := Execute(w0, acts);
    if !act.Plant? {
      ListenerMade(w, act.a, w.entries[path].inode);
    }
  }

  /** An inode being listened on is no business of a server that is inside a call. */
  lemma ListenerMade(w: World, a: nat, i: nat)
    requires Records(w) && a in w.servers && Active(w, i)
    ensures var s := w.servers[a];
            && (s.owns && s.inode == i ==> !s.phase.Closing?)
            && (s.phase.Retreating? ==> s.phase.inode != i)
            && (s.phase.Unidentified? ==> s.phase.bound != i)
  {
    var x :| x in w.servers && w.servers[x].sock == Some(Sock(Some(i), true));
    assert RecordsSound(w, x) && RecordsSound(w, a);
  }

  // ----- Exclusive runs -----

  /** While a server is in its window its path is as it left it; what it has identified lies nowhere else. */
  ghost predicate WindowSound(w: World, a: nat)
    requires a in w.servers
  {
    match w.servers[a].phase
    case Stale(p, i, definite) => At(w, p) == Some(SocketEntry(i)) && (definite ==> !Active(w, i))
    case Clear(p) => At(w, p) == None
    case Bound(p, n) => At(w, p) == Some(SocketEntry(n))
    case Unidentified(p, n) => At(w, p) == Some(SocketEntry(n))
    case Identified(p, i) => forall q :: q in w.entries && w.entries[q] == SocketEntry(i) ==> q == p
    case _ => true
  }

  /** On every path at most one server is in its window. */
  ghost predicate OneWindow(w: World) {
    forall x, y ::
      x in w.servers && y in w.servers && WindowPath(w, x).Some? && WindowPath(w, x) == WindowPath(w, y) ==> x == y
  }

  ghost predicate Inv(w: World) {
    Records(w) && OneWindow(w) && forall a :: a in w.servers ==> WindowSound(w, a)
  }

  lemma InitialInv(w: World)
    requires Initial(w)
    ensures Inv(w)
  {
    InitialRecords(w);
  }

  /** Within an exclusive run a server finds what it counts on. */
  lemma NoHarm(w: World, act: Action)
    requires Inv(w) && Enabled(w, act)
    ensures !Harms(w, act)
  {
    if !act.Plant? {
      assert WindowSound(w, act.a);
    }
  }

  /** A window only opens on a path its server works on. */
  lemma WindowsOpen(w: World, act: Action, x: nat)
    requires Enabled(w, act) && x in Apply(w, act).servers
    ensures x in w.servers
    ensures var p := WindowPath(Apply(w, act), x);
            p == None || p == WindowPath(w, x) || (p == Touches(w, act) && !act.Plant? && x == act.a)
  {}

  lemma StepKeepsOneWindow(w: World, act: Action)
    requires OneWindow(w) && Enabled(w, act) && Exclusive(w, act)
    ensures OneWindow(Apply(w, act))
  {
    forall x | x in Apply(w, act).servers
      ensures x in w.servers
      ensures var p := WindowPath(Apply(w, act), x);
              p == None || p == WindowPath(w, x) || (p == Touches(w, act) && !act.Plant? && x == act.a)
    {
      WindowsOpen(w, act, x);
    }
  }

  lemma StepKeepsActing(w: World, act: Action)
    requires Inv(w) && Enabled(w, act) && !act.Plant?
    ensures WindowSound(Apply(w, act), act.a)
  {
    assert WindowSound(w, act.a) && RecordsSound(w, act.a);
  }

  /** What becomes active in a step is the identified inode of the server that takes it. */
  lemma BecomesActive(w: World, act: Action, i: nat)
    requires Records(w) && Enabled(w, act) && Active(Apply(w, act), i) && !Active(w, i)
    ensures act.Listen? && act.ok && w.servers[act.a].phase.inode == i
  {
    var w' := Apply(w, act);
    var x :| x in w'.servers && w'.servers[x].sock.Some? && w'.servers[x].sock.value.listening
             && w'.servers[x].sock.value.inode == Some(i);
    assert RecordsSound(w, x);
    assert x in w.servers && w'.servers[x] != w.servers[x];
  }

  /** A step changes a path only if it works on it. */
  lemma OnlyTouched(w: World, act: Action, p: string)
    requires Enabled(w, act) && Touches(w, act) != Some(p)
    ensures At(Apply(w, act), p) == At(w, p)
  {}

  /** Nobody starts listening on the inode of a path without working on the path. */
  lemma StaysInactive(w: World, act: Action, p: string, i: nat)
    requires Inv(w) && Enabled(w, act) && Touches(w, act) != Some(p)
    requires At(w, p) == Some(SocketEntry(i)) && !Active(w, i)
    ensures !Active(Apply(w, act), i)
  {
    if act.Listen? {
      assert WindowSound(w, act.a) && w.servers[act.a].phase.inode != i;
    }
    if Active(Apply(w, act), i) {
      BecomesActive(w, act, i);
    }
  }

  lemma IdentifiedElsewhere(w: World, act: Action, x: nat)
    requires Records(w) && Enabled(w, act) && x in w.servers && w.servers[x].phase.Identified?
    requires RecordsSound(w, x) && WindowSound(w, x) && (act.Plant? || x != act.a)
    ensures WindowSound(Apply(w, act), x)
  {}

  lemma StepKeepsOther(w: World, act: Action, x: nat)
    requires Inv(w) && Enabled(w, act) && Exclusive(w, act) && x in w.servers && (act.Plant? || x != act.a)
    ensures WindowSound(Apply(w, act), x)
  {
    assert WindowSound(w, x) && RecordsSound(w, x);
    var p := w.servers[x].phase;
    if InWindow(p) {
      assert WindowPath(w, x) == Some(p.path);
      OnlyTouched(w, act, p.path);
      if p.Stale? && p.definite {
        StaysInactive(w, act, p.path, p.probed);
      }
    } else if p.Identified? {
      IdentifiedElsewhere(w, act, x);
    }
  }

  lemma StepKeepsInv(w: World, act: Action)
    requires Inv(w) && Enabled(w, act) && Exclusive(w, act)
    ensures Inv(Apply(w, act))
  {
    NoHarm(w, act);
    StepKeepsRecords(w, act);
    StepKeepsOneWindow(w, act);
    forall x | x in Apply(w, act).servers
      ensures WindowSound(Apply(w, act), x)
    {
      if !act.Plant? && x == act.a {
        StepKeepsActing(w, act);
      } else {
        StepKeepsOther(w, act, x);
      }
    }
  }

  lemma {:induction false} RunKeepsInv(w: World, acts: seq<Action>)
    requires Inv(w) && Feasible(w, acts) && Disciplined(w, acts)
    ensures Inv(Execute(w, acts)) && Harmless(w, acts)
    decreases |acts|
  {
    if acts != [] {
      NoHarm(w, acts[0]);
      StepKeepsInv(w, acts[0]);
      RunKeepsInv(Apply(w, acts[0]), acts[1..]);
    }
  }

  /**
   Runs in which no server works on a path while another is in its window on
   it have no harmful step, nor can one come next.
  */
  lemma ExclusiveIsHarmless(w0: World, acts: seq<Action>)
    requires Initial(w0) && Feasible(w0, acts) && Disciplined(w0, acts)
    ensures Harmless(w0, acts)
    ensures forall act :: Enabled(Execute(w0, acts), act) ==> !Harms(Execute(w0, acts), act)
  {
    InitialInv(w0);
    RunKeepsInv(w0, acts);
    forall act | Enabled(Execute(w0, acts), act)
      ensures !Harms(Execute(w0, acts), act)
    {
      NoHarm(Execute(w0, acts), act);
    }
  }

  /** close() of any server, in any run without harm, leaves every entry it did not bind where it is. */
  lemma CloseSparesOthers(w0: World, acts: seq<Action>, a: nat, path: string)
    requires Initial(w0) && Feasible(w0, acts) && Harmless(w0, acts)
    requires var w := Execute(w0, acts);
             && Enabled(w, UnlinkOwned(a)) && path in w.entries
             && (w.entries[path].OtherEntry? || !Made(w, a, w.entries[path].inode))
    ensures var w := Execute(w0, acts); At(Apply(w, UnlinkOwned(a)), path) == At(w, path)
  {
    if Disturbs(Execute(w0, acts), UnlinkOwned(a), path) {
      EntriesAreSafe(w0, acts, UnlinkOwned(a), path);
    }
  }

  // ----- Runs of one server alone -----

  /** Replays a run through the states it passes. */
  lemma {:induction false} Replay(w: World, acts: seq<Action>, states: seq<World>)
    requires |states| == |acts| > 0
    requires Enabled(w, acts[0]) && states[0] == Apply(w, acts[0])
    requires forall i :: 1 <= i < |acts| ==>
              Enabled(states[i - 1], acts[i]) && states[i] == Apply(states[i - 1], acts[i])
    ensures Feasible(w, acts) && Execute(w, acts) == states[|states| - 1]
    ensures Exclusive(w, acts[0]) && (forall i :: 1 <= i < |acts| ==> Exclusive(states[i - 1], acts[i])) ==>
              Disciplined(w, acts)
    decreases |acts|
  {
    if |acts| > 1 {
      Replay(states[0], acts[1..], states[1..]);
    } else {
      assert acts[1..] == [];
    }
  }

  /** Everything the server owns or is dealing with lies at one of these paths. */
  predicate WorksOn(s: Server, paths: set<string>) {
    && (s.owns ==> s.path in paths)
    && match s.phase
       case Resting => true
       case Dead => true
       case Closing(reopen) => reopen.Some? ==> reopen.value in paths
       case _ => s.phase.path in paths
  }

  lemma StepKeepsWorksOn(w: World, act: Action, paths: set<string>)
    requires Enabled(w, act) && !act.Plant? && WorksOn(w.servers[act.a], paths)
    requires act.CallListen? ==> act.path in paths
    ensures WorksOn(Apply(w, act).servers[act.a], paths) && (Touches(w, act).Some? ==> Touches(w, act).value in paths)
  {}

  /** Steps of one server are exclusive while no other server is in a window on the paths it works on. */
  lemma {:induction false} AloneIsDisciplined(w: World, acts: seq<Action>, a: nat, paths: set<string>)
    requires Feasible(w, acts) && a in w.servers && WorksOn(w.servers[a], paths)
    requires forall i :: 0 <= i < |acts| ==>
              !acts[i].Plant? && acts[i].a == a && (acts[i].CallListen? ==> acts[i].path in paths)
    requires forall x :: x in w.servers && x != a && WindowPath(w, x).Some? ==> WindowPath(w, x).value !in paths
    ensures Disciplined(w, acts)
    decreases |acts|
  {
    if acts != [] {
      StepKeepsWorksOn(w, acts[0], paths);
      AloneIsDisciplined(Apply(w, acts[0]), acts[1..], a, paths);
    }
  }
}
