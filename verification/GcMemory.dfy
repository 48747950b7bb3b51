/** The collector is transparent: a program that runs with it sees the same objects with the
    same references as one that runs in a memory in which nothing is ever collected. */
module GcMemory {
  import opened Common
  import opened GcMark
  import opened GcState
  import opened GcRuns
  import opened GcMutator
  import opened GcSafety

  // ----- what a program sees

  datatype Cell = Cell(kind: Kind, refs: seq<Obj>, fixed: bool)

  datatype Memory = Memory(cells: map<Obj, Cell>, main: Obj, running: Obj, registry: Obj, mt: seq<Obj>)

  function CellOf(x: Object): Cell {
    Cell(x.kind, x.refs, x.fixed)
  }

  function Cells(h: Heap): map<Obj, Cell> {
    map o | o in h :: CellOf(h[o])
  }

  function Seen(s: State): Memory {
    Memory(Cells(s.heap), s.main, s.running, s.registry, s.mt)
  }

  function Assign(m: Memory, o: Obj, refs: seq<Obj>): Memory {
    if o in m.cells then m.(cells := m.cells[o := m.cells[o].(refs := refs)]) else m
  }

  /** The running thread gets a reference to o on its stack. */
  function Hold(m: Memory, o: Obj): Memory {
    if m.running in m.cells then Assign(m, m.running, m.cells[m.running].refs + [o]) else m
  }

  function Allocate(m: Memory, o: Obj, kind: Kind, refs: seq<Obj>): Memory {
    Hold(m.(cells := m.cells[o := Cell(kind, refs, false)]), o)
  }

  /** What an action is for.  It knows neither colours nor lists nor phases, and nothing of it
      removes an object. */
  function Effect(m: Memory, a: Action): Memory {
    match a
    case Collect => m
    case RestartCycle => m
    case FullMark => m
    case New(o, kind, refs) => Allocate(m, o, kind, refs)
    case NewUserdata(o, refs) => Allocate(m, o, Userdata, refs)
    case NewString(o, _) => Allocate(m, o, String, [])
    case Intern(o) => Hold(m, o)
    case NewOpen(o, refs) => Allocate(m, o, Upval, refs)
    case FindOpen(o, refs) => Hold(Assign(m, o, refs), o)
    case Close(_) => m
    case WriteStack(o, refs) => Assign(m, o, refs)
    case WriteOpen(o, refs) => Assign(m, o, refs)
    case StoreInto(o, refs, _) => Assign(m, o, refs)
    case Drop(o, refs) => Assign(m, o, refs)
    case SetMetatables(refs) => m.(mt := refs)
    case Switch(o) => m.(running := o)
    case ResizeStrings(_, _) => m
    case Fix(o) => if o in m.cells then m.(cells := m.cells[o := m.cells[o].(fixed := true)]) else m
  }

  /** m' has the roots of m, and all its objects as they are in m. */
  ghost predicate Part(m: Memory, m': Memory) {
    && m' == m.(cells := m'.cells)
    && forall o :: o in m.cells ==> o in m'.cells && m'.cells[o] == m.cells[o]
  }

  // ----- one step

  /** Marking changes colours only. */
  lemma {:induction false} MarkSame(m: Marking, o: Obj)
    ensures SameShape(m.heap, Mark(m, o).heap)
    decreases |Whites(m.heap)|, 0
  {
    hide MarkAll, Whites, SameShape, Paint;
    SelfSame(m.heap);
    if IsWhite(m.heap, o) {
      var refs := m.heap[o].refs;
      var gray, black := Paint(m.heap, o, Gray), Paint(m.heap, o, Black);
      PaintWhites(m.heap, o, Gray);
      PaintWhites(m.heap, o, Black);
      PaintSeen(m.heap, o, Gray);
      PaintSeen(m.heap, o, Black);
      MarkAllSame(m.(heap := gray), refs);
      MarkAllSame(m.(heap := black), refs);
      var h := MarkAll(m.(heap := gray), refs).heap;
      PaintSeen(h, o, Black);
      ShapeSteps(m.heap, gray, h);
      ShapeSteps(m.heap, h, Paint(h, o, Black));
      ShapeSteps(m.heap, black, MarkAll(m.(heap := black), refs).heap);
    }
  }

  lemma ShapeSteps(h: Heap, h1: Heap, h2: Heap)
    requires SameShape(h, h1) && SameShape(h1, h2)
    ensures SameShape(h, h2)
  {
  }

  lemma {:induction false} MarkAllSame(m: Marking, rs: seq<Obj>)
    ensures SameShape(m.heap, MarkAll(m, rs).heap)
    decreases |Whites(m.heap)|, |rs| + 1
  {
    hide Mark, Whites, SameShape;
    SelfSame(m.heap);
    if rs != [] {
      MarkSame(m, rs[0]);
      MarkAllSame(Mark(m, rs[0]), rs[1..]);
      ShapeSteps(m.heap, Mark(m, rs[0]).heap, MarkAll(m, rs).heap);
    }
  }

  lemma SameSeen(h: Heap, h': Heap)
    requires SameShape(h, h')
    ensures Cells(h') == Cells(h)
  {
  }

  lemma PaintSeen(h: Heap, o: Obj, c: Colour)
    ensures SameShape(h, Paint(h, o, c)) && Cells(Paint(h, o, c)) == Cells(h)
  {
    SameSeen(h, Paint(h, o, c));
  }

  lemma SetRefsSeen(s: State, o: Obj, refs: seq<Obj>)
    requires o in s.heap
    ensures Seen(SetRefs(s, o, refs)) == Assign(Seen(s), o, refs)
  {
    assert Seen(SetRefs(s, o, refs)).cells == Assign(Seen(s), o, refs).cells;
  }

  lemma PushSeen(s: State, o: Obj)
    ensures Seen(Push(s, o)) == Hold(Seen(s), o)
  {
    if s.running in s.heap { SetRefsSeen(s, s.running, s.heap[s.running].refs + [o]); }
  }

  /** Whichever barrier a store runs, it changes colours only. */
  lemma StoreSame(s: State, o: Obj, refs: seq<Obj>, v: Obj)
    requires o in s.heap
    ensures SameShape(SetRefs(s, o, refs).heap, Store(s, o, refs, v).heap)
  {
    hide Mark, SameShape, SetRefs;
    var s1 := SetRefs(s, o, refs);
    PaintSeen(s1.heap, o, Gray);
    PaintSeen(s1.heap, o, White(s.white));
    PaintSeen(s1.heap, o, White(s1.white));
    MarkSame(Marks(s1), v);
    SelfSame(s1.heap);
  }

  /** A store writes the references refs into o and changes no others. */
  lemma StoreKeeps(s: State, o: Obj, refs: seq<Obj>, v: Obj)
    requires o in s.heap
    ensures var h := Store(s, o, refs, v).heap;
            && h.Keys == s.heap.Keys
            && forall x :: x in h ==> h[x].refs == (if x == o then refs else s.heap[x].refs)
                                      && h[x].kind == s.heap[x].kind && h[x].home == s.heap[x].home
  {
    hide Store;
    StoreSame(s, o, refs, v);
  }

  lemma SelfSame(h: Heap)
    ensures SameShape(h, h)
  {
  }

  /** A store gives o exactly the references refs and no other object any other reference,
      whichever barrier it runs and whatever that barrier marks. */
  lemma StoreSeen(s: State, o: Obj, refs: seq<Obj>, v: Obj)
    requires o in s.heap
    ensures Seen(Store(s, o, refs, v)) == Assign(Seen(s), o, refs)
  {
    hide Mark, Cells, SameShape;
    SetRefsSeen(s, o, refs);
    StoreSame(s, o, refs, v);
    SameSeen(SetRefs(s, o, refs).heap, Store(s, o, refs, v).heap);
  }

  /** Closing an upvalue frees it if it is dead, and else keeps its value. */
  lemma CloseSeen(s: State, u: Obj)
    requires u in s.heap
    ensures var s' := CloseUpval(s, u);
            && Seen(s') == (if Dead(s.heap, s.white, u) then Seen(s).(cells := Seen(s).cells - {u}) else Seen(s))
            && (u in s'.heap <==> !Dead(s.heap, s.white, u))
  {
    hide MarkAll, Without, Cells, Paint, SameShape;
    CellsAt(s.heap, u);
    CellsAt(CloseUpval(s, u).heap, u);
    if !Dead(s.heap, s.white, u) {
      var h := s.heap[u := s.heap[u].(home := Root)];
      PaintSeen(h, u, White(s.white));
      PaintSeen(h, u, Black);
      var m := Marking(Paint(h, u, Black), s.gray);
      MarkAllSame(m, h[u].refs);
      SameSeen(m.heap, MarkAll(m, h[u].refs).heap);
    }
  }

  lemma CellsAt(h: Heap, u: Obj)
    ensures Cells(h).Keys == h.Keys && Cells(h - {u}) == Cells(h) - {u}
    ensures u in h ==> Cells(h[u := h[u].(home := Root)]) == Cells(h)
  {
  }

  lemma NewSeen(s: State, a: Action)
    requires Enabled(s, a) && (a.New? || a.NewUserdata? || a.NewString? || a.NewOpen?)
    ensures Seen(Apply(s, a)) == Effect(Seen(s), a)
  {
    hide Reachable;
    var s1 := match a
      case New(o, kind, refs) => Link(s, o, kind, refs)
      case NewUserdata(o, refs) => LinkUserdata(s, o, refs)
      case NewString(o, bucket) => LinkString(s, o, bucket)
      case NewOpen(o, refs) => LinkOpen(s, o, refs)
      case _ => s;
    assert Cells(s1.heap) == Cells(s.heap)[a.o := CellOf(s1.heap[a.o])];
    PushSeen(s1, a.o);
  }

  lemma FoundSeen(s: State, a: Action)
    requires Enabled(s, a) && (a.Intern? || a.FindOpen?)
    ensures Seen(Apply(s, a)) == Effect(Seen(s), a)
  {
    hide Reachable;
    var s1 := if a.FindOpen? then SetRefs(s, a.o, a.refs) else s;
    if a.FindOpen? { SetRefsSeen(s, a.o, a.refs); }
    PaintSeen(s1.heap, a.o, White(s.white));
    PushSeen(Resurrect(s1, a.o), a.o);
  }

  lemma ResizeSeen(s: State, size: nat, hash: map<Obj, nat>)
    ensures Seen(Resize(s, size, hash)) == Seen(s)
  {
    assert Cells(Resize(s, size, hash).heap) == Cells(s.heap);
  }

  lemma MarkRootSeen(s: State)
    ensures Seen(MarkRoot(s)) == Seen(s)
  {
    hide MarkAll, Cells;
    MarkRootShape(s);
    SameSeen(s.heap, MarkRoot(s).heap);
  }

  lemma FixSeen(s: State, o: Obj)
    requires o in s.heap
    ensures Seen(FixString(s, o)) == Effect(Seen(s), Fix(o))
  {
    assert Cells(FixString(s, o).heap) == Effect(Seen(s), Fix(o)).cells;
  }

  lemma StepSeen(s: State)
    requires Inv(s)
    ensures Part(Seen(SingleStep(s)), Seen(s))
    ensures s.phase.Pause? || s.phase.Propagate? ==> Seen(SingleStep(s)) == Seen(s)
  {
    hide Inv, SingleStep, MarkRoot;
    StepShrinks(s);
    MarkingKeeps(s);
    var s' := SingleStep(s);
    assert Roots(s)[3..] == s.mt && Roots(s')[3..] == s'.mt;
    assert Roots(s)[0] == s.main && Roots(s')[0] == s'.main;
    assert Roots(s)[1] == s.running && Roots(s')[1] == s'.running;
    assert Roots(s)[2] == s.registry && Roots(s')[2] == s'.registry;
  }

  /** Marking frees nothing. */
  lemma MarkingKeeps(s: State)
    requires Inv(s)
    ensures s.phase.Pause? || s.phase.Propagate? ==> SingleStep(s).heap.Keys == s.heap.Keys
  {
    hide Inv, PropagateMark, Atomic, SweepMany, MarkRoot;
    if s.phase.Propagate? { MarkShrinks(s); }
    if s.phase.Pause? { MarkRootShrinks(s); }
  }

  predicate Frees(a: Action) {
    a.Collect? || a.Close?
  }

  /** Every action of the program does what it is for and nothing else.  Only a step of the
      collector and closing a dead upvalue remove objects, and they change no other. */
  lemma ApplySeen(s: State, a: Action)
    requires Inv(s) && Enabled(s, a)
    ensures Part(Seen(Apply(s, a)), Effect(Seen(s), a))
    ensures !Frees(a) ==> Seen(Apply(s, a)) == Effect(Seen(s), a)
  {
    hide Inv, Reachable, SingleStep, MarkRoot, CloseUpval, Store, SetRefs, Cells, FixString, Resize;
    match a {
      case Collect => StepSeen(s);
      case RestartCycle =>
      case FullMark => MarkRootSeen(s);
      case New(_, _, _) => NewSeen(s, a);
      case NewUserdata(_, _) => NewSeen(s, a);
      case NewString(_, _) => NewSeen(s, a);
      case NewOpen(_, _) => NewSeen(s, a);
      case Intern(_) => FoundSeen(s, a);
      case FindOpen(_, _) => FoundSeen(s, a);
      case Close(o) => CloseSeen(s, o);
      case WriteStack(o, refs) => SetRefsSeen(s, o, refs);
      case WriteOpen(o, refs) => SetRefsSeen(s, o, refs);
      case StoreInto(o, refs, v) => StoreSeen(s, o, refs, v);
      case Drop(o, refs) => SetRefsSeen(s, o, refs);
      case SetMetatables(_) =>
      case Switch(_) =>
      case ResizeStrings(size, hash) => ResizeSeen(s, size, hash);
      case Fix(o) => FixSeen(s, o);
    }
  }

  // ----- where objects are linked

  /** The list that a program action links an object into; None if it moves none. */
  function LinkedInto(s: State, a: Action): Option<Home> {
    match a
    case New(_, _, _) => Some(Root)
    case NewUserdata(_, _) => Some(Root)
    case NewString(_, bucket) => Some(Bucket(bucket))
    case NewOpen(_, _) => Some(OpenIn(s.running))
    case Close(_) => Some(Root)
    case _ => None
  }

  lemma ClosedHomes(s: State, u: Obj)
    requires u in s.heap
    ensures var h := CloseUpval(s, u).heap;
            forall x :: x in h ==> x in s.heap && h[x].home == (if x == u then Root else s.heap[x].home)
  {
    hide MarkAll, Without;
    var h := s.heap[u := s.heap[u].(home := Root)];
    MarkAllSame(Marking(Paint(h, u, Black), s.gray), h[u].refs);
  }

  lemma StoredHomes(s: State, o: Obj, refs: seq<Obj>, v: Obj)
    requires o in s.heap
    ensures var h := Store(s, o, refs, v).heap;
            forall x :: x in h ==> x in s.heap && h[x].home == s.heap[x].home
  {
    hide Store;
    StoreSame(s, o, refs, v);
  }

  lemma PushHomes(s: State, o: Obj)
    ensures var h := Push(s, o).heap;
            forall x :: x in h ==> x in s.heap && h[x].home == s.heap[x].home
  {
  }

  lemma NewHomes(s: State, a: Action, x: Obj)
    requires Enabled(s, a) && (a.New? || a.NewUserdata? || a.NewString? || a.NewOpen?) && x in Apply(s, a).heap
    ensures var home := Apply(s, a).heap[x].home;
            if x == a.o then LinkedInto(s, a) == Some(home) else x in s.heap && home == s.heap[x].home
  {
    hide Reachable, Push;
    match a
    case New(o, kind, refs) => PushHomes(Link(s, o, kind, refs), o);
    case NewUserdata(o, refs) => PushHomes(LinkUserdata(s, o, refs), o);
    case NewString(o, bucket) => PushHomes(LinkString(s, o, bucket), o);
    case NewOpen(o, refs) => PushHomes(LinkOpen(s, o, refs), o);
  }

  lemma FoundHomes(s: State, a: Action, x: Obj)
    requires Enabled(s, a) && (a.Intern? || a.FindOpen?) && x in Apply(s, a).heap
    ensures x in s.heap && Apply(s, a).heap[x].home == s.heap[x].home
  {
    hide Reachable, Push;
    if a.Intern? { PushHomes(Resurrect(s, a.o), a.o); }
    else { PushHomes(Resurrect(SetRefs(s, a.o, a.refs), a.o), a.o); }
  }

  /** New objects go where their kind calls for, a closed upvalue leaves its thread, and no
      other object changes its list except strings when their table is resized. */
  lemma ApplyHomes(s: State, a: Action, x: Obj)
    requires Enabled(s, a) && !a.Collect? && x in Apply(s, a).heap
    ensures var home := LinkedInto(s, a);
            var h := Apply(s, a).heap;
            if home.Some? && x == a.o then h[x].home == home.value
            else x in s.heap && ((a.ResizeStrings? && s.heap[x].kind.String?) || h[x].home == s.heap[x].home)
  {
    hide Reachable, MarkRoot, CloseUpval, Store, Push, Link, LinkUserdata, LinkString, LinkOpen, Resurrect;
    match a {
      case FullMark => MarkRootShape(s);
      case Close(o) => ClosedHomes(s, o);
      case StoreInto(o, refs, v) => StoredHomes(s, o, refs, v);
      case New(_, _, _) => NewHomes(s, a, x);
      case NewUserdata(_, _) => NewHomes(s, a, x);
      case NewString(_, _) => NewHomes(s, a, x);
      case NewOpen(_, _) => NewHomes(s, a, x);
      case Intern(_) => FoundHomes(s, a, x);
      case FindOpen(_, _) => FoundHomes(s, a, x);
      case _ =>
    }
  }

  // ----- runs

  /** The same actions in a memory that never loses anything. */
  ghost predicate Unlimited(mems: seq<Memory>, acts: seq<Action>) {
    && |mems| == |acts| + 1 && mems[0] == Seen(Start())
    && forall i :: 0 <= i < |acts| ==> mems[i + 1] == Effect(mems[i], acts[i])
  }

  lemma AssignPart(m: Memory, m': Memory, o: Obj, refs: seq<Obj>)
    requires Part(m, m')
    ensures Part(Assign(m, o, refs), Assign(m', o, refs))
  {
  }

  lemma HoldPart(m: Memory, m': Memory, o: Obj)
    requires Part(m, m') && m.running in m.cells
    ensures Part(Hold(m, o), Hold(m', o))
  {
    AssignPart(m, m', m.running, m.cells[m.running].refs + [o]);
  }

  lemma EffectPart(m: Memory, m': Memory, a: Action)
    requires Part(m, m') && m.running in m.cells
    ensures Part(Effect(m, a), Effect(m', a))
  {
    hide Hold, Assign, Part;
    match a {
      case New(o, kind, refs) => AllocatePart(m, m', o, kind, refs);
      case NewUserdata(o, refs) => AllocatePart(m, m', o, Userdata, refs);
      case NewString(o, _) => AllocatePart(m, m', o, String, []);
      case NewOpen(o, refs) => AllocatePart(m, m', o, Upval, refs);
      case Intern(o) => HoldPart(m, m', o);
      case FindOpen(o, refs) =>
        AssignPart(m, m', o, refs);
        AssignKeeps(m, o, refs);
        HoldPart(Assign(m, o, refs), Assign(m', o, refs), o);
      case WriteStack(o, refs) => AssignPart(m, m', o, refs);
      case WriteOpen(o, refs) => AssignPart(m, m', o, refs);
      case StoreInto(o, refs, _) => AssignPart(m, m', o, refs);
      case Drop(o, refs) => AssignPart(m, m', o, refs);
      case _ => OtherPart(m, m', a);
    }
  }

  lemma AssignKeeps(m: Memory, o: Obj, refs: seq<Obj>)
    ensures Assign(m, o, refs).running == m.running && Assign(m, o, refs).cells.Keys == m.cells.Keys
  {
  }

  lemma AllocatePart(m: Memory, m': Memory, o: Obj, kind: Kind, refs: seq<Obj>)
    requires Part(m, m') && m.running in m.cells
    ensures Part(Allocate(m, o, kind, refs), Allocate(m', o, kind, refs))
  {
    hide Hold;
    var c := Cell(kind, refs, false);
    HoldPart(m.(cells := m.cells[o := c]), m'.(cells := m'.cells[o := c]), o);
  }

  lemma OtherPart(m: Memory, m': Memory, a: Action)
    requires Part(m, m')
    requires a.Collect? || a.RestartCycle? || a.FullMark? || a.Close? || a.SetMetatables? || a.Switch?
             || a.ResizeStrings? || a.Fix?
    ensures Part(Effect(m, a), Effect(m', a))
  {
  }

  lemma PartTrans(m: Memory, m1: Memory, m2: Memory)
    requires Part(m, m1) && Part(m1, m2)
    ensures Part(m, m2)
  {
  }

  lemma {:induction false} RunSeen(states: seq<State>, acts: seq<Action>, mems: seq<Memory>, i: nat)
    requires IsRun(states, acts) && Unlimited(mems, acts) && i <= |acts|
    ensures Part(Seen(states[i]), mems[i])
    decreases i
  {
    hide Inv, Enabled, Apply, Effect, Part;
    if i == 0 {
      PartSelf(mems[0]);
    } else {
      var s, a, m := states[i - 1], acts[i - 1], mems[i - 1];
      RunSeen(states, acts, mems, i - 1);
      RunInv(states, acts, i - 1);
      assert Enabled(s, a) && states[i] == Apply(s, a);
      ApplySeen(s, a);
      RunningSeen(s);
      EffectPart(Seen(s), m, a);
      PartTrans(Seen(states[i]), Effect(Seen(s), a), mems[i]);
    }
  }

  lemma PartSelf(m: Memory)
    ensures Part(m, m)
  {
  }

  lemma RunningSeen(s: State)
    requires Inv(s)
    ensures Seen(s).running in Seen(s).cells
  {
    hide Lists, PhaseInv;
    RunningAlive(s);
  }

  function MemoryRoots(m: Memory): seq<Obj> {
    [m.main, m.running, m.registry] + m.mt
  }

  ghost predicate ClosedUnder(m: Memory, c: set<Obj>) {
    && (forall i :: 0 <= i < |MemoryRoots(m)| ==> MemoryRoots(m)[i] in c)
    && (forall o, i :: o in c && o in m.cells && 0 <= i < |m.cells[o].refs| ==> m.cells[o].refs[i] in c)
  }

  ghost predicate ReachableIn(m: Memory, o: Obj) {
    forall c: set<Obj> :: ClosedUnder(m, c) ==> o in c
  }

  /** What can be reached does not depend on what has been freed. */
  lemma ReachableSeen(s: State, m: Memory, o: Obj)
    requires Safe(s) && Part(Seen(s), m)
    ensures Reachable(s, o) <==> ReachableIn(m, o)
  {
    forall c | ClosedUnder(m, c) ensures ClosedSet(s, c) {
      SeenClosed(s, m, c);
    }
    forall c | ClosedSet(s, c) ensures ClosedUnder(m, LiveOf(s, c)) {
      LiveClosed(s, m, c);
    }
    if ReachableIn(m, o) {
      forall c | ClosedSet(s, c) ensures o in c { assert ClosedUnder(m, LiveOf(s, c)); }
    }
  }

  lemma SeenClosed(s: State, m: Memory, c: set<Obj>)
    requires Part(Seen(s), m) && ClosedUnder(m, c)
    ensures ClosedSet(s, c)
  {
    assert MemoryRoots(m) == Roots(s);
    assert forall o :: o in s.heap ==> o in m.cells && m.cells[o].refs == s.heap[o].refs by {
      assert forall o :: o in s.heap ==> Seen(s).cells[o] == CellOf(s.heap[o]);
    }
  }

  lemma LiveClosed(s: State, m: Memory, c: set<Obj>)
    requires Safe(s) && Part(Seen(s), m) && ClosedSet(s, c)
    ensures ClosedUnder(m, LiveOf(s, c))
  {
    var d := LiveOf(s, c);
    assert MemoryRoots(m) == Roots(s);
    forall o, i | o in d && o in m.cells && 0 <= i < |m.cells[o].refs| ensures m.cells[o].refs[i] in d {
      assert RefsAlive(s.heap, s.white, o);
      assert Seen(s).cells[o] == CellOf(s.heap[o]);
    }
  }

  /** Main theorem: after the same actions the program reaches the same objects as without a
      collector, and finds each of them with the same references. */
  lemma Transparent(states: seq<State>, acts: seq<Action>, mems: seq<Memory>, i: nat, o: Obj)
    requires IsRun(states, acts) && Unlimited(mems, acts) && i <= |acts|
    ensures Reachable(states[i], o) <==> ReachableIn(mems[i], o)
    ensures Reachable(states[i], o) ==>
              && o in states[i].heap && o in mems[i].cells
              && mems[i].cells[o] == CellOf(states[i].heap[o])
  {
    hide Lists, Safe, PhaseInv, Reachable, ReachableIn, Effect, Apply, Enabled;
    RunInv(states, acts, i);
    RunSeen(states, acts, mems, i);
    ReachableSeen(states[i], mems[i], o);
    if Reachable(states[i], o) {
      ReachableAlive(states[i], o);
      assert Seen(states[i]).cells[o] == CellOf(states[i].heap[o]);
    }
  }
}
