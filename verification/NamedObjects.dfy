/**
 Named kernel objects behind owning handles: the part SharedMemory.cpp and
 PosixMessageQueue.cpp have in common. A handle that created an object owns its
 name and unlinks it on close; a handle that opened one does not. Moves carry
 the ownership along.

 Objects are numbered in the order they were made. Each step below is one call
 on one handle (two for a move).
*/
module NamedObjects {
  import opened Basics

  /** The kernel's name table and the number of objects made so far. */
  datatype Space = Space(names: map<string, nat>, made: nat)

  datatype Handle = Handle(obj: Option<nat>, name: string, owner: bool)

  const Closed := Handle(None, "", false)

  /** How the part of create() after its argument checks goes. */
  datatype Outcome =
    | Refused       // arguments rejected, or the exclusive open fails
    | Undone        // object made, a later call fails, name unlinked again
    | Kept          // object made and handle bound to it, whatever create() then returns

  predicate ValidName(name: string) {
    name != "" && name[0] == '/' && '/' !in name[1..]
  }

  /** A slash and then no other. */
  ghost predicate ProperName(name: string) {
    exists rest: string :: name == ['/'] + rest && '/' !in rest
  }

  /** Exactly those names pass the check. */
  lemma ValidNameExact(name: string)
    ensures ValidName(name) <==> ProperName(name)
  {
    if ValidName(name) {
      assert name == ['/'] + name[1..];
    }
    forall rest | name == ['/'] + rest && '/' !in rest
      ensures ValidName(name)
    {
      assert name[1..] == rest;
    }
  }

  function WithoutName(names: map<string, nat>, h: Handle): map<string, nat> {
    if h.name != "" then names - {h.name} else names
  }

  function CloseIn(s: Space, h: Handle): Space {
    if h.owner then s.(names := WithoutName(s.names, h)) else s
  }

  /** create(): the handle's close comes first, and the open is exclusive. */
  function CreateIn(s: Space, h: Handle, name: string, o: Outcome): (r: (Space, Handle)) {
    var s' := CloseIn(s, h);
    if !ValidName(name) || name in s'.names || o.Refused? then (s', Closed)
    else if o.Undone? then (s'.(made := s'.made + 1), Closed)
    else (Space(s'.names[name := s'.made], s'.made + 1), Handle(Some(s'.made), name, true))
  }

  /** open(): `works` is false when anything after the argument checks fails. */
  function OpenIn(s: Space, h: Handle, name: string, works: bool): (r: (Space, Handle)) {
    var s' := CloseIn(s, h);
    if !ValidName(name) || name !in s'.names || !works then (s', Closed)
    else (s', Handle(Some(s'.names[name]), name, false))
  }

  function UnlinkIn(s: Space, h: Handle): (r: (Space, Handle)) {
    (s.(names := WithoutName(s.names, h)), h.(owner := false))
  }

  // ----- Many handles -----

  datatype World = World(
    space: Space,
    handles: map<nat, Handle>,
    maker: seq<nat>)     // history: the handle that created object i, or that this ownership was moved to

  datatype Action =
    | Create(h: nat, name: string, outcome: Outcome)
    | Open(h: nat, name: string, works: bool)
    | Close(h: nat)
    | Unlink(h: nat)
    | Move(h: nat, from: nat)     // move construction (h still closed) or assignment
    | Die(h: nat)                 // the process ends without running the destructor

  predicate Enabled(w: World, a: Action) {
    a.h in w.handles && (a.Move? ==> a.from in w.handles)
  }

  function Apply(w: World, a: Action): World
    requires Enabled(w, a)
  {
    var h := w.handles[a.h];
    match a
    case Create(_, name, o) =>
      var (s, h') := CreateIn(w.space, h, name, o);
      World(s, w.handles[a.h := h'], if s.made > w.space.made then w.maker + [a.h] else w.maker)
    case Open(_, name, works) =>
      var (s, h') := OpenIn(w.space, h, name, works);
      w.(space := s, handles := w.handles[a.h := h'])
    case Close(_) => w.(space := CloseIn(w.space, h), handles := w.handles[a.h := Closed])
    case Unlink(_) =>
      var (s, h') := UnlinkIn(w.space, h);
      w.(space := s, handles := w.handles[a.h := h'])
    case Move(_, from) =>
      if from == a.h then w
      else
        var src := w.handles[from];
        World(CloseIn(w.space, h), w.handles[a.h := src][from := Closed],
              if src.owner && src.obj.Some? && src.obj.value < |w.maker|
              then w.maker[src.obj.value := a.h] else w.maker)
    case Die(_) => w.(handles := w.handles[a.h := Closed])
  }

  predicate Initial(w: World) {
    w.space.made == |w.maker| && (forall h :: h in w.handles ==> w.handles[h] == Closed)
    && (forall n :: n in w.space.names ==> w.space.names[n] < w.space.made)
  }

  /** unlink() is called on current owners only. */
  predicate OwnersUnlink(w: World, a: Action)
    requires Enabled(w, a)
  {
    a.Unlink? ==> w.handles[a.h].owner
  }

  predicate Feasible(w: World, acts: seq<Action>)
    decreases |acts|
  {
    acts == [] || (Enabled(w, acts[0]) && Feasible(Apply(w, acts[0]), acts[1..]))
  }

  function Execute(w: World, acts: seq<Action>): World
    requires Feasible(w, acts)
    decreases |acts|
  {
    if acts == [] then w else Execute(Apply(w, acts[0]), acts[1..])
  }

  predicate Disciplined(w: World, acts: seq<Action>)
    requires Feasible(w, acts)
    decreases |acts|
  {
    acts == [] || (OwnersUnlink(w, acts[0]) && Disciplined(Apply(w, acts[0]), acts[1..]))
  }

  // ----- The invariant -----

  /** An owning handle's name leads to the object it created. */
  ghost predicate OwnerSound(w: World, h: nat)
    requires h in w.handles
  {
    var x := w.handles[h];
    x.owner ==> x.obj.Some? && ValidName(x.name) && x.name in w.space.names && w.space.names[x.name] == x.obj.value
                && x.obj.value < |w.maker| && w.maker[x.obj.value] == h
  }

  ghost predicate Inv(w: World) {
    && w.space.made == |w.maker|
    && (forall n :: n in w.space.names ==> w.space.names[n] < w.space.made)
    && (forall h :: h in w.handles ==> OwnerSound(w, h))
    && (forall g, h :: g in w.handles && h in w.handles && g != h && w.handles[g].owner && w.handles[h].owner
          ==> w.handles[g].name != w.handles[h].name)
  }

  lemma CreateKeepsInv(w: World, a: Action)
    requires Inv(w) && Enabled(w, a) && a.Create?
    ensures Inv(Apply(w, a))
  {
    var w' := Apply(w, a);
    forall h | h in w'.handles
      ensures OwnerSound(w', h)
    {
      assert OwnerSound(w, h);
    }
  }

  lemma MoveKeepsInv(w: World, a: Action)
    requires Inv(w) && Enabled(w, a) && a.Move?
    ensures Inv(Apply(w, a))
  {
    var w' := Apply(w, a);
    forall h | h in w'.handles
      ensures OwnerSound(w', h)
    {
      assert OwnerSound(w, h) && OwnerSound(w, a.from) && OwnerSound(w, a.h);
    }
  }

  lemma StepKeepsInv(w: World, a: Action)
    requires Inv(w) && Enabled(w, a) && OwnersUnlink(w, a)
    ensures Inv(Apply(w, a))
  {
    if a.Create? {
      CreateKeepsInv(w, a);
    } else if a.Move? {
      MoveKeepsInv(w, a);
    } else {
      var w' := Apply(w, a);
      forall h | h in w'.handles
        ensures OwnerSound(w', h)
      {
        assert OwnerSound(w, h) && OwnerSound(w, a.h);
      }
    }
  }

  lemma {:induction false} RunKeepsInv(w: World, acts: seq<Action>)
    requires Inv(w) && Feasible(w, acts) && Disciplined(w, acts)
    ensures Inv(Execute(w, acts))
    decreases |acts|
  {
    if acts != [] {
      StepKeepsInv(w, acts[0]);
      RunKeepsInv(Apply(w, acts[0]), acts[1..]);
    }
  }

  // ----- Main results -----

  /** Owning handles have pairwise distinct names, each leading to the object that handle created. */
  lemma OwnersHoldTheirNames(w0: World, acts: seq<Action>)
    requires Initial(w0) && Feasible(w0, acts) && Disciplined(w0, acts)
    ensures var w := Execute(w0, acts);
            && (forall h :: h in w.handles && w.handles[h].owner ==>
                  var x := w.handles[h];
                  x.obj.Some? && x.name in w.space.names && Some(w.space.names[x.name]) == x.obj
                  && x.obj.value < |w.maker| && w.maker[x.obj.value] == h)
            && (forall g, h :: g in w.handles && h in w.handles && g != h && w.handles[g].owner && w.handles[h].owner
                  ==> w.handles[g].name != w.handles[h].name)
  {
    RunKeepsInv(w0, acts);
    var w := Execute(w0, acts);
    forall h | h in w.handles && w.handles[h].owner
      ensures OwnerSound(w, h)
    {}
  }

  /**
   Whatever call comes next: a name only ever disappears because its own owner
   closes or unlinks it, and it never changes what it leads to. In particular no
   close removes an object created by another handle.
  */
  lemma OnlyOwnNamesGo(w0: World, acts: seq<Action>, a: Action, n: string)
    requires Initial(w0) && Feasible(w0, acts) && Disciplined(w0, acts)
    requires var w := Execute(w0, acts);
             Enabled(w, a) && OwnersUnlink(w, a) && n in w.space.names
             && (n !in Apply(w, a).space.names || Apply(w, a).space.names[n] != w.space.names[n])
    ensures var w := Execute(w0, acts);
            && w.handles[a.h].owner && w.handles[a.h].name == n
            && w.space.names[n] < |w.maker| && w.maker[w.space.names[n]] == a.h
  {
    RunKeepsInv(w0, acts);
    assert OwnerSound(Execute(w0, acts), a.h);
  }

  /**
   The condition on unlink() is exact: a call keeps the owners sound if and only
   if no other handle owns the name, which for an owner always holds.
  */
  lemma UnlinkCondition(w: World, h: nat)
    requires Inv(w) && h in w.handles
    ensures Inv(Apply(w, Unlink(h))) <==>
              (w.handles[h].name == "" || forall g :: g in w.handles && g != h && w.handles[g].owner ==>
                  w.handles[g].name != w.handles[h].name)
    ensures w.handles[h].owner ==> Inv(Apply(w, Unlink(h)))
  {
    var w' := Apply(w, Unlink(h));
    forall g | g in w.handles
      ensures OwnerSound(w, g)
    {}
    if w.handles[h].name != "" {
      forall g | g in w.handles && g != h && w.handles[g].owner && w.handles[g].name == w.handles[h].name
        ensures !OwnerSound(w', g)
      {}
    }
    forall g | g in w'.handles
        && (w.handles[h].name == "" || g == h || !w.handles[g].owner || w.handles[g].name != w.handles[h].name)
      ensures OwnerSound(w', g)
    {}
  }

  /** This call removes the name of an object that another handle created. */
  ghost predicate Robs(w: World, a: Action)
    requires Enabled(w, a)
  {
    exists n :: n in w.space.names && n !in Apply(w, a).space.names
                && w.space.names[n] < |w.maker| && w.maker[w.space.names[n]] != a.h
  }

  predicate MayFollow(w: World, a: Action) {
    Enabled(w, a) && OwnersUnlink(w, a)
  }

  /** However the run goes on, with unlink() called on owners only, no call removes another handle's object. */
  ghost predicate StaysSafe(w: World) {
    forall acts, a :: Feasible(w, acts) && Disciplined(w, acts) && MayFollow(Execute(w, acts), a) ==>
        !Robs(Execute(w, acts), a)
  }

  lemma SoundStaysSafe(w: World)
    requires Inv(w)
    ensures StaysSafe(w)
  {
    forall acts, a | Feasible(w, acts) && Disciplined(w, acts) && MayFollow(Execute(w, acts), a)
      ensures !Robs(Execute(w, acts), a)
    {
      RunKeepsInv(w, acts);
      assert OwnerSound(Execute(w, acts), a.h);
    }
  }

  /** The name can be created anew once it is gone, by any handle, and the close of its old owner then removes that. */
  lemma OldOwnerRobs(w: World, h: nat, g: nat, x: nat)
    requires Inv(w) && h in w.handles && g in w.handles && x in w.handles && g != h && g != x
    requires w.handles[g].owner && w.handles[g].name == w.handles[h].name
    ensures var n, u := w.handles[h].name, Apply(w, Unlink(h));
            && Feasible(u, [Create(x, n, Kept)]) && Disciplined(u, [Create(x, n, Kept)])
            && var c := Apply(u, Create(x, n, Kept));
            && Execute(u, [Create(x, n, Kept)]) == c && Enabled(c, Close(g)) && Robs(c, Close(g))
            && var d := Apply(c, Close(g));
            d.handles[x] == Handle(Some(w.space.made), n, true) && d.maker == w.maker + [x] && n !in d.space.names
  {
    var n, u := w.handles[h].name, Apply(w, Unlink(h));
    assert OwnerSound(w, g);
    var c := Apply(u, Create(x, n, Kept));
    assert Feasible(c, []) && Execute(u, [Create(x, n, Kept)]) == Execute(c, []) == c;
    assert c.space.names[n] == w.space.made && c.maker[w.space.made] == x;
  }

  /**
   unlink() is safe exactly if no other handle owns the name. If one does, from
   every sound state, some create() that follows has its object removed by that
   owner's close.
  */
  lemma UnlinkIsSafeIff(w: World, h: nat)
    requires Inv(w) && h in w.handles
    ensures StaysSafe(Apply(w, Unlink(h))) <==>
              forall g :: g in w.handles && g != h && w.handles[g].owner ==> w.handles[g].name != w.handles[h].name
  {
    forall g | g in w.handles && g != h && w.handles[g].owner && w.handles[g].name == w.handles[h].name
      ensures !StaysSafe(Apply(w, Unlink(h)))
    {
      OldOwnerRobs(w, h, g, h);
    }
    UnlinkCondition(w, h);
    if Inv(Apply(w, Unlink(h))) {
      SoundStaysSafe(Apply(w, Unlink(h)));
    }
  }

  const TwoHandles := World(Space(map[], 0), map[0 := Closed, 1 := Closed], [])

  /** One handle creates and the other opens. */
  lemma CreateThenOpen(n: string)
    requires ValidName(n)
    ensures var acts := [Create(0, n, Kept)] + [Open(1, n, true)];
            && Feasible(TwoHandles, acts) && Disciplined(TwoHandles, acts)
            && Execute(TwoHandles, acts) ==
                 World(Space(map[n := 0], 1),
                       map[0 := Handle(Some(0), n, true), 1 := Handle(Some(0), n, false)], [0])
  {
    var acts := [Create(0, n, Kept)] + [Open(1, n, true)];
    var w1 := World(Space(map[n := 0], 1), map[0 := Handle(Some(0), n, true), 1 := Closed], [0]);
    var w2 := w1.(handles := map[0 := Handle(Some(0), n, true), 1 := Handle(Some(0), n, false)]);
    assert Apply(TwoHandles, acts[0]) == w1 && Apply(w1, acts[1]) == w2;
    assert acts[1..] == [Open(1, n, true)] && acts[1..][1..] == [];
    assert Feasible(w2, []) && Execute(w2, []) == w2 && Disciplined(w2, []);
    assert Feasible(w1, acts[1..]) && Disciplined(w1, acts[1..]) && Execute(w1, acts[1..]) == w2;
  }

  /** That happens, and then the other's unlink() is not safe. */
  lemma StrangerUnlinkHurts(n: string)
    requires ValidName(n)
    ensures var acts := [Create(0, n, Kept)] + [Open(1, n, true)];
            && Initial(TwoHandles) && Feasible(TwoHandles, acts) && Disciplined(TwoHandles, acts)
            && 1 in Execute(TwoHandles, acts).handles
            && !StaysSafe(Apply(Execute(TwoHandles, acts), Unlink(1)))
  {
    CreateThenOpen(n);
    var acts := [Create(0, n, Kept)] + [Open(1, n, true)];
    var w := Execute(TwoHandles, acts);
    RunKeepsInv(TwoHandles, acts);
    UnlinkIsSafeIff(w, 1);
    assert 0 in w.handles && w.handles[0].owner && w.handles[0].name == w.handles[1].name;
  }
}
