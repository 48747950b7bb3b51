/** What the running program may do between two steps of the collector, with the write
    barriers it has to execute, and the safety of every run of the two together. */
module GcMutator {
  import opened Common
  import opened GcMark
  import opened GcState
  import opened GcRuns

  // ----- operations

  function SetRefs(s: State, o: Obj, refs: seq<Obj>): State
    requires o in s.heap
  {
    s.(heap := s.heap[o := s.heap[o].(refs := refs)])
  }

  /** Keeps o in the stack of the running thread. */
  function Push(s: State, o: Obj): State {
    if s.running in s.heap then SetRefs(s, s.running, s.heap[s.running].refs + [o]) else s
  }

  /** luaC_link: in front of rootgc, in the current white. */
  function Link(s: State, o: Obj, kind: Kind, refs: seq<Obj>): State {
    s.(heap := s.heap[o := Object(kind, White(s.white), refs, Root, false)],
       rootgc := [o] + s.rootgc, sweepgc := Shifted(s.sweepgc, 1))
  }

  function IndexOf(l: seq<Obj>, o: Obj): (i: nat)
    requires o in l
    ensures i < |l| && l[i] == o
  {
    if l[0] == o then 0 else 1 + IndexOf(l[1..], o)
  }

  /** luaS_newudata: userdata are linked right after the main thread. */
  function LinkUserdata(s: State, o: Obj, refs: seq<Obj>): State {
    var p := if s.main in s.rootgc then IndexOf(s.rootgc, s.main) + 1 else 0;
    s.(heap := s.heap[o := Object(Userdata, White(s.white), refs, Root, false)],
       rootgc := s.rootgc[..p] + [o] + s.rootgc[p..], sweepgc := if s.sweepgc > p then s.sweepgc + 1 else s.sweepgc)
  }

  /** newlstr: a new string goes into its bucket. */
  function LinkString(s: State, o: Obj, bucket: nat): State {
    s.(heap := s.heap[o := Object(String, White(s.white), [], Bucket(bucket), false)])
  }

  /** The new upvalue of luaF_findupval, for a slot of the running thread that holds refs. */
  function LinkOpen(s: State, u: Obj, refs: seq<Obj>): State {
    s.(heap := s.heap[u := Object(Upval, White(s.white), refs, OpenIn(s.running), false)], uvhead := [u] + s.uvhead)
  }

  /** A string or an open upvalue in the other white that is found again changes its white. */
  function Resurrect(s: State, o: Obj): State {
    if o in s.heap && s.heap[o].colour == White(!s.white) then s.(heap := Paint(s.heap, o, White(s.white))) else s
  }

  function BarrierForward(s: State, o: Obj, v: Obj): State {
    if s.phase.Propagate? then With(s, Mark(Marks(s), v)) else s.(heap := Paint(s.heap, o, White(s.white)))
  }

  function BarrierBack(s: State, t: Obj): State {
    s.(heap := Paint(s.heap, t, Gray), grayagain := [t] + s.grayagain)
  }

  /** Stores v into o, which then refers to refs: luaC_barriert for tables, else luaC_barrier. */
  function Store(s: State, o: Obj, refs: seq<Obj>, v: Obj): State
    requires o in s.heap
  {
    var s1 := SetRefs(s, o, refs);
    if !(IsWhite(s.heap, v) && s.heap[o].colour.Black?) then s1
    else if s.heap[o].kind.Table? then BarrierBack(s1, o)
    else BarrierForward(s1, o, v)
  }

  function Without(l: seq<Obj>, o: Obj): seq<Obj> {
    if l == [] then [] else (if l[0] == o then [] else [l[0]]) + Without(l[1..], o)
  }

  /** luaF_close on one upvalue: freed if dead, else linked into rootgc by luaC_linkupval. */
  function CloseUpval(s: State, u: Obj): State
    requires u in s.heap
  {
    if Dead(s.heap, s.white, u) then
      s.(heap := s.heap - {u}, uvhead := Without(s.uvhead, u))
    else
      var s1 := s.(heap := s.heap[u := s.heap[u].(home := Root)], uvhead := Without(s.uvhead, u),
                   rootgc := [u] + s.rootgc, sweepgc := Shifted(s.sweepgc, 1));
      if !s.heap[u].colour.Gray? then s1
      else if !s.phase.Propagate? then s1.(heap := Paint(s1.heap, u, White(s.white)))
      else
        var s2 := s1.(heap := Paint(s1.heap, u, Black));
        With(s2, MarkAll(Marks(s2), s2.heap[u].refs))
  }

  /** luaS_resize moves strings to other buckets, but not while buckets are being swept. */
  function Resize(s: State, size: nat, hash: map<Obj, nat>): State {
    if s.phase.SweepString? || size == 0 then s
    else s.(strsize := size,
            heap := map o | o in s.heap ::
              if s.heap[o].kind.String? then s.heap[o].(home := Bucket(if o in hash then hash[o] % size else 0))
                                        else s.heap[o])
  }

  /** luaS_fix: the string is never collected. */
  function FixString(s: State, o: Obj): State
    requires o in s.heap
  {
    s.(heap := s.heap[o := s.heap[o].(fixed := true)])
  }

  /** luaC_fullgc gives up a mark phase and sweeps everything back to white. */
  function Restart(s: State): State {
    if s.phase.Pause? || s.phase.Propagate? then
      s.(sweepstr := 0, sweepgc := 0, gray := [], grayagain := [], phase := SweepString)
    else s
  }

  datatype Action =
    | Collect
    | RestartCycle
    | FullMark
    | New(o: Obj, kind: Kind, refs: seq<Obj>)
    | NewUserdata(o: Obj, refs: seq<Obj>)
    | NewString(o: Obj, bucket: nat)
    | Intern(o: Obj)
    | NewOpen(o: Obj, refs: seq<Obj>)
    | FindOpen(o: Obj, refs: seq<Obj>)
    | Close(o: Obj)
    | WriteStack(o: Obj, refs: seq<Obj>)
    | WriteOpen(o: Obj, refs: seq<Obj>)
    | StoreInto(o: Obj, refs: seq<Obj>, v: Obj)
    | Drop(o: Obj, refs: seq<Obj>)
    | SetMetatables(refs: seq<Obj>)
    | Switch(o: Obj)
    | ResizeStrings(size: nat, hash: map<Obj, nat>)
    | Fix(o: Obj)

  ghost predicate AllReachable(s: State, refs: seq<Obj>) {
    forall i :: 0 <= i < |refs| ==> Reachable(s, refs[i])
  }

  /** A program handles only references it can reach; new addresses are unused ones.  The
      value of an open upvalue is a slot of a stack, so it is known when the upvalue is found. */
  ghost predicate Enabled(s: State, a: Action) {
    match a
    case Collect => true
    case RestartCycle => true
    case FullMark => s.phase.Finalize?
    case New(o, kind, refs) => o !in s.heap && !kind.String? && AllReachable(s, refs)
    case NewUserdata(o, refs) => o !in s.heap && AllReachable(s, refs)
    case NewString(o, bucket) => o !in s.heap && bucket < s.strsize
    case Intern(o) => o in s.heap && s.heap[o].kind.String?
    case NewOpen(o, refs) => o !in s.heap && AllReachable(s, refs)
    case FindOpen(o, refs) => o in s.heap && s.heap[o].home == OpenIn(s.running) && AllReachable(s, refs)
    case Close(o) => o in s.heap && s.heap[o].home == OpenIn(s.running)
    case WriteStack(o, refs) => o in s.heap && s.heap[o].kind.Thread? && AllReachable(s, refs)
    case WriteOpen(o, refs) => o in s.heap && s.heap[o].open() && AllReachable(s, refs)
    case StoreInto(o, refs, v) =>
      && Reachable(s, o) && Reachable(s, v) && o in s.heap && s.heap[o].home.Root? && !s.heap[o].kind.Thread?
      && forall i :: 0 <= i < |refs| ==> refs[i] == v || refs[i] in s.heap[o].refs
    case Drop(o, refs) =>
      && Reachable(s, o) && o in s.heap && s.heap[o].home.Root?
      && forall i :: 0 <= i < |refs| ==> refs[i] in s.heap[o].refs
    case SetMetatables(refs) => AllReachable(s, refs)
    case Switch(o) => Reachable(s, o) && o in s.heap && s.heap[o].kind.Thread?
    case ResizeStrings(_, _) => true
    case Fix(o) => Reachable(s, o) && o in s.heap && s.heap[o].kind.String?
  }

  ghost function Apply(s: State, a: Action): State
    requires Enabled(s, a)
  {
    match a
    case Collect => SingleStep(s)
    case RestartCycle => Restart(s)
    case FullMark => MarkRoot(s)
    case New(o, kind, refs) => Push(Link(s, o, kind, refs), o)
    case NewUserdata(o, refs) => Push(LinkUserdata(s, o, refs), o)
    case NewString(o, bucket) => Push(LinkString(s, o, bucket), o)
    case Intern(o) => Push(Resurrect(s, o), o)
    case NewOpen(o, refs) => Push(LinkOpen(s, o, refs), o)
    case FindOpen(o, refs) => Push(Resurrect(SetRefs(s, o, refs), o), o)
    case Close(o) => CloseUpval(s, o)
    case WriteStack(o, refs) => SetRefs(s, o, refs)
    case WriteOpen(o, refs) => SetRefs(s, o, refs)
    case StoreInto(o, refs, v) => Store(s, o, refs, v)
    case Drop(o, refs) => SetRefs(s, o, refs)
    case SetMetatables(refs) => s.(mt := refs)
    case Switch(o) => s.(running := o)
    case ResizeStrings(size, hash) => Resize(s, size, hash)
    case Fix(o) => FixString(s, o)
  }

  // ----- updating one object

  lemma SetRefsLists(s: State, o: Obj, refs: seq<Obj>)
    requires Lists(s) && o in s.heap && !s.heap[o].home.Bucket?
    ensures Lists(SetRefs(s, o, refs))
  {
    var s' := SetRefs(s, o, refs);
    forall x | x in s'.heap
      ensures ObjectOk(s'.heap, s'.strsize, s'.main, x)
    {
      assert ObjectOk(s.heap, s.strsize, s.main, x);
    }
  }

  lemma SetRefsSafe(s: State, o: Obj, refs: seq<Obj>)
    requires Safe(s) && o in s.heap && forall i :: 0 <= i < |refs| ==> Alive(s.heap, s.white, refs[i])
    ensures Safe(SetRefs(s, o, refs))
  {
    var s' := SetRefs(s, o, refs);
    assert forall x :: Alive(s'.heap, s.white, x) <==> Alive(s.heap, s.white, x);
    forall x | Alive(s'.heap, s.white, x) ensures RefsAlive(s'.heap, s.white, x) {
      if x != o { assert RefsAlive(s.heap, s.white, x); }
    }
    assert Roots(s') == Roots(s);
  }

  lemma SetRefsPhase(s: State, o: Obj, refs: seq<Obj>)
    requires Lists(s) && PhaseInv(s) && o in s.heap
    requires s.phase.Propagate? && s.heap[o].colour.Black? ==> forall i :: 0 <= i < |refs| ==> !IsWhite(s.heap, refs[i])
    ensures SetRefs(s, o, refs).sweepgc <= |SetRefs(s, o, refs).rootgc| && PhaseInv(SetRefs(s, o, refs))
  {
    var s' := SetRefs(s, o, refs);
    assert forall x :: IsWhite(s'.heap, x) <==> IsWhite(s.heap, x);
    if s.phase.Propagate? {
      forall x | x in s'.heap ensures WellColoured(s'.heap, s'.gray + s'.grayagain, x) {
        assert WellColoured(s.heap, s.gray + s.grayagain, x);
      }
    } else {
      forall x | x in s'.heap ensures Pending(s', x) || s'.heap[x].colour == White(s'.white) {
        assert Pending(s, x) || s.heap[x].colour == White(s.white);
      }
    }
  }

  /** Fixing a live string changes neither what is alive nor any colour. */
  lemma FixInv(s: State, o: Obj)
    requires Inv(s) && Alive(s.heap, s.white, o) && s.heap[o].kind.String?
    ensures Inv(FixString(s, o))
  {
    hide PhaseInv, Linked, Safe, ObjectOk;
    FixLists(s, o);
    FixSafe(s, o);
    FixPhase(s, o);
  }

  lemma FixLists(s: State, o: Obj)
    requires Lists(s) && o in s.heap && s.heap[o].kind.String?
    ensures Lists(FixString(s, o))
  {
    hide Distinct;
    var s' := FixString(s, o);
    forall x | x in s'.heap
      ensures ObjectOk(s'.heap, s'.strsize, s'.main, x)
    {
      assert ObjectOk(s.heap, s.strsize, s.main, x);
    }
  }

  lemma FixSafe(s: State, o: Obj)
    requires Safe(s) && Alive(s.heap, s.white, o)
    ensures Safe(FixString(s, o))
  {
    var s' := FixString(s, o);
    assert forall x :: Alive(s'.heap, s.white, x) <==> Alive(s.heap, s.white, x);
    forall x | Alive(s'.heap, s.white, x)
      ensures RefsAlive(s'.heap, s.white, x)
    {
      assert RefsAlive(s.heap, s.white, x);
    }
    assert Roots(s') == Roots(s);
  }

  lemma FixPhase(s: State, o: Obj)
    requires s.sweepgc <= |s.rootgc| && PhaseInv(s) && o in s.heap
    ensures PhaseInv(FixString(s, o))
  {
    var s' := FixString(s, o);
    assert forall x :: IsWhite(s'.heap, x) <==> IsWhite(s.heap, x);
    if s.phase.Propagate? {
      forall x | x in s'.heap ensures WellColoured(s'.heap, s'.gray + s'.grayagain, x) {
        assert WellColoured(s.heap, s.gray + s.grayagain, x);
      }
    } else {
      forall x | x in s'.heap ensures Pending(s', x) || s'.heap[x].colour == White(s'.white) {
        assert Pending(s, x) || s.heap[x].colour == White(s.white);
      }
    }
  }

  lemma PushInv(s: State, o: Obj)
    requires Inv(s) && Alive(s.heap, s.white, o)
    ensures Inv(Push(s, o))
  {
    hide ColourInv, Dead, RefsAlive, Alive, SafeHeap, Linked;
    var refs := s.heap[s.running].refs + [o];
    RunningAlive(s);
    WriteThread(s, s.running, refs);
  }

  lemma RunningAlive(s: State)
    requires Safe(s)
    ensures s.running in s.heap && s.heap[s.running].kind.Thread?
    ensures forall i :: 0 <= i < |s.heap[s.running].refs| ==> Alive(s.heap, s.white, s.heap[s.running].refs[i])
  {
    assert Alive(s.heap, s.white, Roots(s)[1]) && RefsAlive(s.heap, s.white, s.running);
  }

  /** Threads and open upvalues are never black, so writing into them needs no barrier. */
  lemma WriteThread(s: State, o: Obj, refs: seq<Obj>)
    requires Inv(s) && o in s.heap && (s.heap[o].kind.Thread? || s.heap[o].open())
    requires forall i :: 0 <= i < |refs| ==> Alive(s.heap, s.white, refs[i])
    ensures Inv(SetRefs(s, o, refs))
  {
    hide ColourInv, Alive, SafeHeap, Linked, Safe;
    assert ObjectOk(s.heap, s.strsize, s.main, o);
    if s.phase.Propagate? { NeverBlack(s, o); }
    SetRefsLists(s, o, refs);
    SetRefsSafe(s, o, refs);
    SetRefsPhase(s, o, refs);
  }

  lemma NeverBlack(s: State, o: Obj)
    requires ColourInv(s) && o in s.heap && (s.heap[o].kind.Thread? || (s.heap[o].kind.Upval? && s.heap[o].open()))
    ensures !s.heap[o].colour.Black?
  {
    assert WellColoured(s.heap, s.gray + s.grayagain, o);
  }

  // ----- adding an object

  lemma InsertSafe(s: State, s': State, o: Obj)
    requires Safe(s) && o !in s.heap && s'.heap.Keys == s.heap.Keys + {o}
             && (forall x :: x in s.heap ==> s'.heap[x] == s.heap[x])
    requires s'.heap[o].colour == White(s.white) && forall i :: 0 <= i < |s'.heap[o].refs| ==>
             Alive(s.heap, s.white, s'.heap[o].refs[i])
    requires s'.white == s.white && s'.running == s.running && s'.main == s.main && Roots(s') == Roots(s)
    ensures Safe(s') && Alive(s'.heap, s'.white, o)
  {
    assert forall x :: Alive(s.heap, s.white, x) ==> Alive(s'.heap, s.white, x);
    forall x | Alive(s'.heap, s.white, x) ensures RefsAlive(s'.heap, s.white, x) {
      if x != o { assert Alive(s.heap, s.white, x) && RefsAlive(s.heap, s.white, x); }
    }
  }

  lemma InsertColour(s: State, s': State, o: Obj)
    requires Safe(s) && PhaseInvHolds(s) && s.phase.Propagate?
    requires o !in s.heap && s'.heap.Keys == s.heap.Keys + {o} && (forall x :: x in s.heap ==> s'.heap[x] == s.heap[x])
    requires s'.heap[o].colour == White(s.white) && s'.gray == s.gray && s'.grayagain == s.grayagain
    ensures ColourInv(s')
  {
    forall x | x in s'.heap ensures WellColoured(s'.heap, s'.gray + s'.grayagain, x) {
      if x != o {
        assert WellColoured(s.heap, s.gray + s.grayagain, x);
        assert Alive(s.heap, s.white, x) && RefsAlive(s.heap, s.white, x);
      }
    }
  }

  ghost predicate PhaseInvHolds(s: State) {
    s.sweepgc <= |s.rootgc| && PhaseInv(s)
  }

  lemma InsertPhase(s: State, s': State, o: Obj)
    requires Safe(s) && PhaseInvHolds(s)
             && s' == s.(heap := s'.heap, rootgc := s'.rootgc, sweepgc := s'.sweepgc, uvhead := s'.uvhead)
    requires o !in s.heap && s'.heap.Keys == s.heap.Keys + {o} && (forall x :: x in s.heap ==> s'.heap[x] == s.heap[x])
    requires s'.heap[o].colour == White(s.white)
    requires s'.sweepgc <= |s'.rootgc| && (s.sweepgc == 0 ==> s'.sweepgc == 0)
    requires forall x :: x in s.rootgc[s.sweepgc..] ==> x in s'.rootgc[s'.sweepgc..]
    ensures PhaseInv(s')
  {
    if s.phase.Propagate? {
      InsertColour(s, s', o);
      assert Alive(s.heap, s.white, Roots(s)[0]) && Alive(s.heap, s.white, Roots(s)[2]);
    } else {
      forall x | x in s'.heap ensures Pending(s', x) || s'.heap[x].colour == White(s'.white) {
        if x != o { assert Pending(s, x) || s.heap[x].colour == White(s.white); }
      }
    }
  }

  lemma Objects(s: State, s': State, o: Obj)
    requires Lists(s) && s'.heap.Keys == s.heap.Keys + {o} && o !in s.heap
             && (forall x :: x in s.heap ==> s'.heap[x] == s.heap[x])
    requires s'.strsize == s.strsize && s'.main == s.main && ObjectOk(s'.heap, s'.strsize, s'.main, o)
    ensures forall x :: x in s'.heap ==> ObjectOk(s'.heap, s'.strsize, s'.main, x)
  {
    forall x | x in s'.heap ensures ObjectOk(s'.heap, s'.strsize, s'.main, x) {
      if x != o { assert ObjectOk(s.heap, s.strsize, s.main, x); }
    }
  }

  lemma LinkLists(s: State, o: Obj, kind: Kind, refs: seq<Obj>)
    requires Lists(s) && o !in s.heap && !kind.String?
    ensures Lists(Link(s, o, kind, refs))
  {
    hide Distinct;
    var s' := Link(s, o, kind, refs);
    assert o !in s.rootgc;
    SingleDistinct(o);
    JoinApart([o], s.rootgc);
    Objects(s, s', o);
  }

  lemma LinkSuffix(s: State, o: Obj)
    requires s.sweepgc <= |s.rootgc|
    ensures var k := Shifted(s.sweepgc, 1);
            k <= |s.rootgc| + 1 && forall x :: x in s.rootgc[s.sweepgc..] ==> x in ([o] + s.rootgc)[k..]
  {
    if s.sweepgc > 0 { assert ([o] + s.rootgc)[s.sweepgc + 1..] == s.rootgc[s.sweepgc..]; }
  }

  lemma LinkInv(s: State, o: Obj, kind: Kind, refs: seq<Obj>)
    requires Inv(s) && o !in s.heap && !kind.String? && forall i :: 0 <= i < |refs| ==> Alive(s.heap, s.white, refs[i])
    ensures Inv(Link(s, o, kind, refs)) && Alive(Link(s, o, kind, refs).heap, s.white, o)
  {
    hide Lists, ColourInv, Dead, RefsAlive, SafeHeap, PhaseInv;
    var s' := Link(s, o, kind, refs);
    LinkLists(s, o, kind, refs);
    InsertSafe(s, s', o);
    SweepRoom(s);
    LinkSuffix(s, o);
    InsertPhase(s, s', o);
  }

  lemma LinkStringInv(s: State, o: Obj, bucket: nat)
    requires Inv(s) && o !in s.heap && bucket < s.strsize
    ensures Inv(LinkString(s, o, bucket)) && Alive(LinkString(s, o, bucket).heap, s.white, o)
  {
    hide ColourInv, Dead, RefsAlive, WellColoured;
    var s' := LinkString(s, o, bucket);
    Objects(s, s', o);
    InsertSafe(s, s', o);
    InsertPhase(s, s', o);
  }

  lemma LinkOpenInv(s: State, o: Obj, refs: seq<Obj>)
    requires Inv(s) && o !in s.heap && forall i :: 0 <= i < |refs| ==> Alive(s.heap, s.white, refs[i])
    ensures Inv(LinkOpen(s, o, refs)) && Alive(LinkOpen(s, o, refs).heap, s.white, o)
  {
    hide ColourInv, Dead, RefsAlive, WellColoured;
    var s' := LinkOpen(s, o, refs);
    assert o !in s.uvhead;
    JoinApart([o], s.uvhead);
    Objects(s, s', o);
    InsertSafe(s, s', o);
    InsertPhase(s, s', o);
  }

  /** Putting an element into a list without repetition. */
  lemma PutIn(l: seq<Obj>, p: nat, o: Obj)
    requires Distinct(l) && p <= |l| && o !in l
    ensures Distinct(l[..p] + [o] + l[p..]) && forall x :: x in l[..p] + [o] + l[p..] <==> x in l || x == o
  {
    var a, b := l[..p] + [o], l[p..];
    assert l == l[..p] + l[p..];
    assert Distinct(a) && Distinct(b);
    forall x | x in a ensures x !in b {
      if x != o {
        var i :| 0 <= i < p && l[i] == x;
        assert forall j :: 0 <= j < |b| ==> b[j] == l[p + j] != l[i];
      }
    }
    JoinApart(a, b);
  }

  /** A new object whose home is rootgc joins that list. */
  lemma RootLinked(s: State, s': State, o: Obj)
    requires Lists(s) && o !in s.heap && s'.heap.Keys == s.heap.Keys + {o}
             && (forall x :: x in s.heap ==> s'.heap[x] == s.heap[x])
    requires s'.heap[o].home.Root? && s'.uvhead == s.uvhead && Distinct(s'.rootgc) && forall x :: x in s'.rootgc <==>
             x in s.rootgc || x == o
    ensures Linked(s'.heap, s'.rootgc, s'.uvhead)
  {
    hide Distinct, ObjectOk;
  }

  lemma LinkUserdataLists(s: State, o: Obj, refs: seq<Obj>)
    requires Lists(s) && o !in s.heap
    ensures Lists(LinkUserdata(s, o, refs))
  {
    hide Distinct, Linked;
    var s' := LinkUserdata(s, o, refs);
    var p := if s.main in s.rootgc then IndexOf(s.rootgc, s.main) + 1 else 0;
    Absent(s, o);
    PutIn(s.rootgc, p, o);
    RootLinked(s, s', o);
    Objects(s, s', o);
    PutSuffix(s.rootgc, p, o, s.sweepgc);
  }

  lemma Absent(s: State, o: Obj)
    requires Lists(s) && o !in s.heap
    ensures o !in s.rootgc && Distinct(s.rootgc)
  {
  }

  lemma LinkUserdataInv(s: State, o: Obj, refs: seq<Obj>)
    requires Inv(s) && o !in s.heap && forall i :: 0 <= i < |refs| ==> Alive(s.heap, s.white, refs[i])
    ensures Inv(LinkUserdata(s, o, refs)) && Alive(LinkUserdata(s, o, refs).heap, s.white, o)
  {
    hide Lists, ColourInv, Dead, RefsAlive, SafeHeap, PhaseInv;
    var s' := LinkUserdata(s, o, refs);
    var p := if s.main in s.rootgc then IndexOf(s.rootgc, s.main) + 1 else 0;
    LinkUserdataLists(s, o, refs);
    InsertSafe(s, s', o);
    SweepRoom(s);
    PutSuffix(s.rootgc, p, o, s.sweepgc);
    InsertPhase(s, s', o);
  }

  lemma PutSuffix(l: seq<Obj>, p: nat, o: Obj, k: nat)
    requires p <= |l| && k <= |l|
    ensures var l' := l[..p] + [o] + l[p..];
            var k' := if k > p then k + 1 else k;
            k' <= |l'| && forall x :: x in l[k..] ==> x in l'[k'..]
  {
    var l' := l[..p] + [o] + l[p..];
    var k' := if k > p then k + 1 else k;
    if k > p {
      assert l'[k'..] == l[k..];
    } else {
      forall x | x in l[k..] ensures x in l'[k'..] {
        var i :| 0 <= i < |l[k..]| && l[k..][i] == x;
        var j := k + i;
        assert l'[k'..][if j < p then i else i + 1] == x;
      }
    }
  }

  // ----- changing one object

  lemma ResurrectInv(s: State, o: Obj)
    requires Inv(s) && o in s.heap && forall i :: 0 <= i < |s.heap[o].refs| ==>
             Alive(s.heap, s.white, s.heap[o].refs[i])
    ensures Inv(Resurrect(s, o)) && Alive(Resurrect(s, o).heap, s.white, o)
  {
    hide ColourInv, Linked, Lists, OpenNotBlack, RefsAlive, SafeHeap;
    var s' := Resurrect(s, o);
    assert Roots(s') == Roots(s);
    if s' != s {
      RepaintLists(s, s', o, White(s.white));
      ResurrectSafe(s, o);
      SweepRoom(s);
      RepaintSweep(s, s', o, White(s.white));
    }
  }

  lemma ResurrectSafe(s: State, o: Obj)
    requires Safe(s) && o in s.heap && forall i :: 0 <= i < |s.heap[o].refs| ==>
             Alive(s.heap, s.white, s.heap[o].refs[i])
    ensures SafeHeap(Paint(s.heap, o, White(s.white)), s.white)
    ensures forall x :: Alive(s.heap, s.white, x) ==> Alive(Paint(s.heap, o, White(s.white)), s.white, x)
  {
    var h := Paint(s.heap, o, White(s.white));
    assert forall x :: Alive(s.heap, s.white, x) ==> Alive(h, s.white, x);
    forall x | Alive(h, s.white, x) ensures RefsAlive(h, s.white, x) {
      if x != o { assert Alive(s.heap, s.white, x) && RefsAlive(s.heap, s.white, x); }
    }
  }

  // ----- stores with their barriers

  /** What an object may refer to after a store is alive. */
  lemma StoredAlive(s: State, o: Obj, refs: seq<Obj>, v: Obj)
    requires Safe(s) && Alive(s.heap, s.white, o) && Alive(s.heap, s.white, v)
    requires forall i :: 0 <= i < |refs| ==> refs[i] == v || refs[i] in s.heap[o].refs
    ensures forall i :: 0 <= i < |refs| ==> Alive(s.heap, s.white, refs[i])
  {
    assert RefsAlive(s.heap, s.white, o);
  }

  /** A black object had only marked objects below it. */
  lemma StoredMarked(s: State, o: Obj, refs: seq<Obj>, v: Obj)
    requires ColourInv(s) && o in s.heap && s.heap[o].colour.Black?
    requires forall i :: 0 <= i < |refs| ==> refs[i] == v || refs[i] in s.heap[o].refs
    ensures forall i :: 0 <= i < |refs| ==> refs[i] == v || !IsWhite(s.heap, refs[i])
  {
    assert WellColoured(s.heap, s.gray + s.grayagain, o);
  }

  /** Nothing to do: the stored object is not white, or it was not stored into a black one. */
  lemma PlainStoreInv(s: State, o: Obj, refs: seq<Obj>, v: Obj)
    requires Inv(s) && Alive(s.heap, s.white, o) && Alive(s.heap, s.white, v) && !s.heap[o].home.Bucket?
    requires forall i :: 0 <= i < |refs| ==> refs[i] == v || refs[i] in s.heap[o].refs
    requires !(IsWhite(s.heap, v) && s.heap[o].colour.Black?)
    ensures Inv(SetRefs(s, o, refs))
  {
    hide ColourInv, Safe, Linked;
    StoredAlive(s, o, refs, v);
    if s.phase.Propagate? && s.heap[o].colour.Black? { StoredMarked(s, o, refs, v); }
    SetRefsLists(s, o, refs);
    SetRefsSafe(s, o, refs);
    SetRefsPhase(s, o, refs);
  }

  lemma RepaintLists(s: State, s': State, o: Obj, c: Colour)
    requires Lists(s) && s' == s.(heap := Paint(s.heap, o, c), gray := s'.gray, grayagain := s'.grayagain)
    ensures Lists(s')
  {
    forall x | x in s'.heap
      ensures ObjectOk(s'.heap, s'.strsize, s'.main, x)
    {
      assert ObjectOk(s.heap, s.strsize, s.main, x);
    }
  }

  lemma RepaintSafe(s: State, s': State, o: Obj, c: Colour)
    requires Safe(s) && s' == s.(heap := Paint(s.heap, o, c), gray := s'.gray, grayagain := s'.grayagain)
    requires Alive(s.heap, s.white, o) && c != White(!s.white)
    ensures Safe(s')
  {
    assert forall x :: Alive(s'.heap, s.white, x) <==> Alive(s.heap, s.white, x);
    SameAlive(s.heap, s'.heap, s.white);
    assert Roots(s') == Roots(s);
  }

  lemma RepaintSweep(s: State, s': State, o: Obj, c: Colour)
    requires s.sweepgc <= |s.rootgc| && PhaseInv(s) && !s.phase.Propagate? && !c.Black?
    requires s' == s.(heap := Paint(s.heap, o, c), gray := s'.gray, grayagain := s'.grayagain)
    requires o in s.heap && (c == White(s.white) || s.heap[o].colour.Black?)
    ensures PhaseInv(s')
  {
    forall x | x in s'.heap ensures Pending(s', x) || s'.heap[x].colour == White(s'.white) {
      assert Pending(s, x) || s.heap[x].colour == White(s.white);
    }
  }

  /** While marking, luaC_barrierback puts the table back on a gray list. */
  lemma BackColour(s: State, o: Obj, refs: seq<Obj>)
    requires ColourInv(s) && o in s.heap && s.heap[o].kind.Table? && s.heap[o].colour.Black?
    ensures ColourInv(BarrierBack(SetRefs(s, o, refs), o))
  {
    var s' := BarrierBack(SetRefs(s, o, refs), o);
    assert o !in s.gray && o !in s.grayagain;
    JoinApart([o], s.grayagain);
    assert forall x :: IsWhite(s'.heap, x) <==> IsWhite(s.heap, x);
    forall x | x in s'.heap ensures WellColoured(s'.heap, s'.gray + s'.grayagain, x) {
      assert WellColoured(s.heap, s.gray + s.grayagain, x);
    }
  }

  lemma BackInv(s: State, o: Obj, refs: seq<Obj>)
    requires Inv(s) && Alive(s.heap, s.white, o) && s.heap[o].kind.Table? && s.heap[o].colour.Black?
    requires forall i :: 0 <= i < |refs| ==> Alive(s.heap, s.white, refs[i])
    ensures Inv(BarrierBack(SetRefs(s, o, refs), o))
  {
    hide ColourInv, Linked, SafeHeap, RefsAlive, OpenNotBlack;
    var s1 := SetRefs(s, o, refs);
    var s' := BarrierBack(s1, o);
    assert ObjectOk(s.heap, s.strsize, s.main, o);
    SetRefsLists(s, o, refs);
    SetRefsSafe(s, o, refs);
    RepaintLists(s1, s', o, Gray);
    RepaintSafe(s1, s', o, Gray);
    if s.phase.Propagate? {
      BackColour(s, o, refs);
    } else {
      SetRefsPhase(s, o, refs);
      RepaintSweep(s1, s', o, Gray);
    }
  }

  lemma MarkIsAll(m: Marking, v: Obj)
    ensures Mark(m, v) == MarkAll(m, [v])
  {
    hide Mark;
    assert [v][1..] == [];
    assert MarkAll(Mark(m, v), []) == Mark(m, v);
  }

  /** Writing into a black object leaves every other object well coloured. */
  lemma WrittenBut(s: State, o: Obj, refs: seq<Obj>)
    requires ColourInv(s) && o in s.heap
    ensures ColourInvBut(SetRefs(s, o, refs), {o})
  {
    var s1 := SetRefs(s, o, refs);
    assert forall x :: IsWhite(s1.heap, x) <==> IsWhite(s.heap, x);
    forall x | x in s1.heap && x != o ensures WellColoured(s1.heap, s1.gray + s1.grayagain, x) {
      assert WellColoured(s.heap, s.gray + s.grayagain, x);
    }
  }

  lemma BlackSettles(s: State, s': State, o: Obj)
    requires Extends(Marks(s), Marks(s')) && o in s.heap && s.heap[o].colour.Black? && !s.heap[o].kind.Thread?
             && !s.heap[o].open()
    requires ColourInvBut(s', {o}) && forall i :: 0 <= i < |s.heap[o].refs| ==> !IsWhite(s'.heap, s.heap[o].refs[i])
    ensures ColourInv(s')
  {
    assert s'.heap[o] == s.heap[o];
    Settle(s', o);
  }

  /** While marking, luaC_barrierf marks the stored object. */
  lemma ForwardColour(s: State, o: Obj, refs: seq<Obj>, v: Obj)
    requires ColourInv(s) && o in s.heap && s.heap[o].colour.Black? && !s.heap[o].kind.Thread? && !s.heap[o].open()
    requires forall i :: 0 <= i < |refs| ==> refs[i] == v || !IsWhite(s.heap, refs[i])
    ensures var s1 := SetRefs(s, o, refs);
            var s' := With(s1, Mark(Marks(s1), v)); ColourInv(s') && MarksOnly(s1, s')
  {
    hide Mark, MarkAll, ColourInv, ColourInvBut, MarksOnly, UpvalsDone, AgainDone, GrayOk;
    var s1 := SetRefs(s, o, refs);
    var s' := With(s1, Mark(Marks(s1), v));
    MarkIsAll(Marks(s1), v);
    WrittenBut(s, o, refs);
    MarkStep(s1, {o}, [], [v]);
    ExtendsMarks(s1, s');
    assert !IsWhite(s'.heap, [v][0]);
    BlackSettles(s1, s', o);
  }

  lemma ForwardMarkInv(s: State, o: Obj, refs: seq<Obj>, v: Obj)
    requires Inv(s) && s.phase.Propagate? && o in s.heap && s.heap[o].colour.Black? && s.heap[o].home.Root?
             && !s.heap[o].kind.Thread?
    requires forall i :: 0 <= i < |refs| ==>
             Alive(s.heap, s.white, refs[i]) && (refs[i] == v || !IsWhite(s.heap, refs[i]))
    ensures Inv(BarrierForward(SetRefs(s, o, refs), o, v))
  {
    hide ColourInv, Lists, SafeHeap, Safe, RefsAlive, Alive, OpenNotBlack, Mark, MarksOnly, NoneDead;
    var s1 := SetRefs(s, o, refs);
    var s' := BarrierForward(s1, o, v);
    SetRefsLists(s, o, refs);
    SetRefsSafe(s, o, refs);
    ForwardColour(s, o, refs, v);
    MarksLists(s1, s');
    assert forall x :: IsWhite(s1.heap, x) <==> IsWhite(s.heap, x);
    WhitesAlive(s1);
    MarksSafe(s1, s');
    WhitesShade(s1, s');
    var rs := [s.main, s.registry];
    StillMarked(s1, s', rs);
    assert !IsWhite(s'.heap, rs[0]) && !IsWhite(s'.heap, rs[1]);
    SweepRoom(s');
  }

  lemma ForwardSweepInv(s: State, o: Obj, refs: seq<Obj>)
    requires Inv(s) && !s.phase.Propagate? && Alive(s.heap, s.white, o) && !s.heap[o].home.Bucket?
    requires forall i :: 0 <= i < |refs| ==> Alive(s.heap, s.white, refs[i])
    ensures var s1 := SetRefs(s, o, refs); Inv(s1.(heap := Paint(s1.heap, o, White(s.white))))
  {
    hide ColourInv, Linked, SafeHeap, RefsAlive, OpenNotBlack;
    var s1 := SetRefs(s, o, refs);
    var s' := s1.(heap := Paint(s1.heap, o, White(s.white)));
    SetRefsLists(s, o, refs);
    SetRefsSafe(s, o, refs);
    SetRefsPhase(s, o, refs);
    RepaintLists(s1, s', o, White(s.white));
    RepaintSafe(s1, s', o, White(s.white));
    RepaintSweep(s1, s', o, White(s.white));
  }

  lemma StoreInv(s: State, o: Obj, refs: seq<Obj>, v: Obj)
    requires Inv(s) && Alive(s.heap, s.white, o) && Alive(s.heap, s.white, v) && s.heap[o].home.Root?
             && !s.heap[o].kind.Thread?
    requires forall i :: 0 <= i < |refs| ==> refs[i] == v || refs[i] in s.heap[o].refs
    ensures Inv(Store(s, o, refs, v))
  {
    hide ColourInv, Lists, Safe, SafeHeap, RefsAlive, Mark;
    if !(IsWhite(s.heap, v) && s.heap[o].colour.Black?) {
      PlainStoreInv(s, o, refs, v);
    } else {
      StoredAlive(s, o, refs, v);
      if s.heap[o].kind.Table? {
        BackInv(s, o, refs);
      } else if s.phase.Propagate? {
        StoredMarked(s, o, refs, v);
        ForwardMarkInv(s, o, refs, v);
      } else {
        ForwardSweepInv(s, o, refs);
      }
    }
  }

  // ----- closing an upvalue

  lemma {:induction false} WithoutIs(l: seq<Obj>, o: Obj)
    requires Distinct(l)
    ensures Distinct(Without(l, o)) && forall x :: x in Without(l, o) <==> x in l && x != o
    decreases |l|
  {
    if l != [] {
      assert l == [l[0]] + l[1..];
      WithoutIs(l[1..], o);
      if l[0] != o { JoinApart([l[0]], Without(l[1..], o)); }
    }
  }

  /** A dead upvalue is freed. */
  lemma CloseDeadLists(s: State, u: Obj)
    requires Lists(s) && u in s.heap && s.heap[u].open() && Dead(s.heap, s.white, u)
    ensures Lists(CloseUpval(s, u))
  {
    hide Distinct, Without;
    var s' := CloseUpval(s, u);
    WithoutIs(s.uvhead, u);
    assert ObjectOk(s.heap, s.strsize, s.main, u);
    forall x | x in s'.heap
      ensures ObjectOk(s'.heap, s'.strsize, s'.main, x)
    {
      assert ObjectOk(s.heap, s.strsize, s.main, x);
    }
  }

  lemma CloseDeadInv(s: State, u: Obj)
    requires Inv(s) && u in s.heap && s.heap[u].open() && Dead(s.heap, s.white, u)
    ensures Inv(CloseUpval(s, u))
  {
    hide ColourInv, Linked, Without, Lists, SafeHeap;
    var s' := CloseUpval(s, u);
    CloseDeadLists(s, u);
    SweepRoom(s);
    SweptSafe(s, s');
    forall x | x in s'.heap ensures Pending(s', x) || s'.heap[x].colour == White(s'.white) {
      assert Pending(s, x) || s.heap[x].colour == White(s.white);
    }
  }

  /** The state after the upvalue was moved to rootgc. */
  function Rehomed(s: State, u: Obj): State
    requires u in s.heap
  {
    s.(heap := s.heap[u := s.heap[u].(home := Root)], uvhead := Without(s.uvhead, u),
       rootgc := [u] + s.rootgc, sweepgc := Shifted(s.sweepgc, 1))
  }

  lemma RehomedLists(s: State, u: Obj)
    requires Lists(s) && u in s.heap && s.heap[u].open()
    ensures Lists(Rehomed(s, u))
  {
    hide Distinct, Dead;
    var s' := Rehomed(s, u);
    WithoutIs(s.uvhead, u);
    assert u !in s.rootgc;
    assert Distinct([u]) by { SingleDistinct(u); }
    JoinApart([u], s.rootgc);
    assert forall x :: x in s'.rootgc <==> x == u || x in s.rootgc;
    forall x | x in s'.heap ensures ObjectOk(s'.heap, s'.strsize, s'.main, x) {
      assert ObjectOk(s.heap, s.strsize, s.main, x) && ObjectOk(s.heap, s.strsize, s.main, u);
    }
  }

  lemma SingleDistinct(u: Obj)
    ensures Distinct([u])
  {
  }

  lemma RehomedSafe(s: State, u: Obj)
    requires Safe(s) && u in s.heap
    ensures Safe(Rehomed(s, u))
  {
    SweptSafe(s, Rehomed(s, u));
  }

  /** In a sweep phase what is alive and not gray is white already. */
  lemma RehomedSweep(s: State, u: Obj, c: Colour)
    requires Lists(s) && PhaseInv(s) && !s.phase.Propagate? && u in s.heap && s.heap[u].open() && c == White(s.white)
    ensures var s' := Rehomed(s, u).(heap := Paint(Rehomed(s, u).heap, u, c)); s'.sweepgc <= |s'.rootgc| && PhaseInv(s')
  {
    hide Linked, ObjectOk, Without, Dead;
    var s' := Rehomed(s, u).(heap := Paint(Rehomed(s, u).heap, u, c));
    assert s.sweepgc > 0 ==> s'.rootgc[s'.sweepgc..] == s.rootgc[s.sweepgc..];
    assert s.sweepgc == 0 ==> s.rootgc[s.sweepgc..] == s.rootgc && s'.rootgc[s'.sweepgc..] == s'.rootgc;
    OpenStays(s.heap, s'.heap);
    forall x | x in s'.heap ensures Pending(s', x) || s'.heap[x].colour == White(s'.white) {
      assert Pending(s, x) || s.heap[x].colour == White(s.white);
    }
  }

  lemma CloseSweepInv(s: State, u: Obj)
    requires Inv(s) && !s.phase.Propagate? && u in s.heap && s.heap[u].open() && !Dead(s.heap, s.white, u)
    ensures Inv(CloseUpval(s, u))
  {
    hide Linked, Without, ColourInv;
    var s1 := Rehomed(s, u);
    var s' := s1.(heap := Paint(s1.heap, u, White(s.white)));
    assert ObjectOk(s.heap, s.strsize, s.main, u);
    assert !s.heap[u].colour.Gray? ==> s1.heap == s'.heap && s1 == s';
    assert CloseUpval(s, u) == s';
    RehomedLists(s, u);
    RehomedSafe(s, u);
    RepaintLists(s1, s', u, White(s.white));
    RepaintSafe(s1, s', u, White(s.white));
    RehomedSweep(s, u, White(s.white));
  }

  lemma RehomedColour(s: State, u: Obj)
    requires ColourInv(s) && u in s.heap && s.heap[u].kind.Upval? && s.heap[u].open()
    ensures ColourInvBut(Rehomed(s, u), {u}) && (!s.heap[u].colour.Gray? ==> ColourInv(Rehomed(s, u)))
    ensures s.heap[u].colour.Gray? ==> ColourInvBut(Rehomed(s, u).(heap := Paint(Rehomed(s, u).heap, u, Black)), {u})
  {
    hide Without;
    var s1 := Rehomed(s, u);
    var s2 := s1.(heap := Paint(s1.heap, u, Black));
    assert forall x :: IsWhite(s1.heap, x) <==> IsWhite(s.heap, x);
    assert WellColoured(s.heap, s.gray + s.grayagain, u);
    assert u !in s.gray && u !in s.grayagain;
    forall x | x in s1.heap && x != u
      ensures WellColoured(s1.heap, s1.gray + s1.grayagain, x)
      ensures s.heap[u].colour.Gray? ==> WellColoured(s2.heap, s2.gray + s2.grayagain, x)
    {
      assert WellColoured(s.heap, s.gray + s.grayagain, x);
    }
  }

  /** A gray upvalue turns black, as closed upvalues do, and has its value marked. */
  lemma CloseGrayColour(s: State, u: Obj)
    requires ColourInv(s) && u in s.heap && s.heap[u].kind.Upval? && s.heap[u].open() && s.heap[u].colour.Gray?
    ensures var s2 := Rehomed(s, u).(heap := Paint(Rehomed(s, u).heap, u, Black));
            var s' := With(s2, MarkAll(Marks(s2), s2.heap[u].refs)); ColourInv(s') && MarksOnly(s2, s')
  {
    hide Without, MarkAll, ColourInv, ColourInvBut, MarksOnly, UpvalsDone, AgainDone, GrayOk, Extends;
    var s2 := Rehomed(s, u).(heap := Paint(Rehomed(s, u).heap, u, Black));
    var s' := With(s2, MarkAll(Marks(s2), s2.heap[u].refs));
    RehomedColour(s, u);
    MarkStep(s2, {u}, [], s2.heap[u].refs);
    ExtendsMarks(s2, s');
    BlackSettles(s2, s', u);
  }

  lemma PropagateSafe(s: State, s': State)
    requires Lists(s) && Safe(s) && s.phase.Propagate? && !IsWhite(s.heap, s.main) && !IsWhite(s.heap, s.registry)
    requires forall o :: IsWhite(s.heap, o) ==> s.heap[o].colour == White(s.white)
    requires MarksOnly(s, s') && ColourInv(s') && s' == s.(heap := s'.heap, gray := s'.gray, grayagain := s'.grayagain)
    ensures Inv(s')
  {
    hide ColourInv, Lists, Safe, MarksOnly, NoneDead;
    MarksLists(s, s');
    WhitesAlive(s);
    MarksSafe(s, s');
    WhitesShade(s, s');
    var rs := [s.main, s.registry];
    StillMarked(s, s', rs);
    assert !IsWhite(s'.heap, rs[0]) && !IsWhite(s'.heap, rs[1]);
    SweepRoom(s');
  }

  lemma ClosePropagateInv(s: State, u: Obj)
    requires Inv(s) && s.phase.Propagate? && u in s.heap && s.heap[u].open()
    ensures Inv(CloseUpval(s, u))
  {
    hide Without, ColourInv, MarkAll, Safe, SafeHeap, Linked, MarksOnly;
    assert ObjectOk(s.heap, s.strsize, s.main, u);
    assert !Dead(s.heap, s.white, u);
    var s1 := Rehomed(s, u);
    RehomedLists(s, u);
    RehomedSafe(s, u);
    RehomedColour(s, u);
    assert forall x :: IsWhite(s1.heap, x) <==> IsWhite(s.heap, x);
    if s.heap[u].colour.Gray? {
      var s2 := s1.(heap := Paint(s1.heap, u, Black));
      RepaintLists(s1, s2, u, Black);
      RepaintSafe(s1, s2, u, Black);
      CloseGrayColour(s, u);
      PropagateSafe(s2, CloseUpval(s, u));
    }
  }

  // ----- the other operations

  lemma ResizeInv(s: State, size: nat, hash: map<Obj, nat>)
    requires Inv(s)
    ensures Inv(Resize(s, size, hash))
  {
    hide GrayOk, OpenNotBlack;
    var s' := Resize(s, size, hash);
    if s' != s {
      ResizeLists(s, size, hash);
      assert forall x :: Alive(s'.heap, s.white, x) <==> Alive(s.heap, s.white, x);
      SweptSafe(s, s');
      ResizePhase(s, size, hash);
    }
  }

  lemma ResizeLists(s: State, size: nat, hash: map<Obj, nat>)
    requires Lists(s)
    ensures Lists(Resize(s, size, hash))
  {
    var s' := Resize(s, size, hash);
    forall x | x in s.heap
      ensures x in s'.heap && (s'.heap[x].home.Root? <==> s.heap[x].home.Root?)
              && (s'.heap[x].open() <==> s.heap[x].open())
    {
      assert ObjectOk(s.heap, s.strsize, s.main, x);
    }
    forall x | x in s'.heap
      ensures ObjectOk(s'.heap, s'.strsize, s'.main, x)
    {
      assert ObjectOk(s.heap, s.strsize, s.main, x);
    }
  }

  /** Moving strings between buckets changes no colour, no kind and no reference. */
  ghost predicate SameMarks(h: Heap, h': Heap) {
    h.Keys == h'.Keys && forall o :: o in h ==> h'[o] == h[o].(home := h'[o].home) && h'[o].open() == h[o].open()
  }

  lemma MovedColour(s: State, s': State)
    requires ColourInv(s) && SameMarks(s.heap, s'.heap) && s'.gray == s.gray && s'.grayagain == s.grayagain
    ensures ColourInv(s')
  {
    assert forall x :: IsWhite(s'.heap, x) <==> IsWhite(s.heap, x);
    forall x | x in s'.heap ensures WellColoured(s'.heap, s'.gray + s'.grayagain, x) {
      assert WellColoured(s.heap, s.gray + s.grayagain, x);
    }
  }

  lemma ResizeMarks(s: State, size: nat, hash: map<Obj, nat>)
    requires Lists(s)
    ensures var s' := Resize(s, size, hash);
            SameMarks(s.heap, s'.heap) && forall o :: o in s.heap && !s.heap[o].home.Bucket? ==> s'.heap[o] == s.heap[o]
  {
    var s' := Resize(s, size, hash);
    forall x | x in s.heap
      ensures x in s'.heap && s'.heap[x] == s.heap[x].(home := s'.heap[x].home) && s'.heap[x].open() == s.heap[x].open()
      ensures !s.heap[x].home.Bucket? ==> s'.heap[x] == s.heap[x]
    {
      assert ObjectOk(s.heap, s.strsize, s.main, x);
    }
  }

  lemma ResizePhase(s: State, size: nat, hash: map<Obj, nat>)
    requires Lists(s) && PhaseInv(s)
    ensures PhaseInv(Resize(s, size, hash))
  {
    hide ColourInv, Lists, Linked, ObjectOk;
    var s' := Resize(s, size, hash);
    if s' != s {
      ResizeMarks(s, size, hash);
      SweepRoom(s);
      if s.phase.Propagate? {
        MovedColour(s, s');
      } else {
        forall x | x in s'.heap ensures Pending(s', x) || s'.heap[x].colour == White(s'.white) {
          assert Pending(s, x) || s.heap[x].colour == White(s.white);
        }
      }
    }
  }

  lemma RestartInv(s: State)
    requires Inv(s)
    ensures Inv(Restart(s))
  {
    hide GrayOk, WellColoured;
    var s' := Restart(s);
    assert Roots(s') == Roots(s);
    if s.phase.Propagate? {
      UpvalsListed(s);
      NoOpenBlack(s);
    }
  }

  lemma RootsInv(s: State, s': State)
    requires Inv(s) && s' == s.(mt := s'.mt, running := s'.running)
    requires s'.running in s.heap && s.heap[s'.running].kind.Thread? && Alive(s.heap, s.white, s'.running)
    requires forall i :: 0 <= i < |s'.mt| ==> Alive(s.heap, s.white, s'.mt[i])
    ensures Inv(s')
  {
    hide Alive, SafeHeap;
    assert Roots(s)[0] == s.main && Roots(s)[2] == s.registry;
    if s.phase.Propagate? { ColourSame(s, s'); }
    else {
      forall x | x in s'.heap ensures Pending(s', x) || s'.heap[x].colour == White(s'.white) {
        assert Pending(s, x) || s.heap[x].colour == White(s.white);
      }
    }
  }
}
