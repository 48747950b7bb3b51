/** The properties the collector is for: in every run, under any interleaving with the
    program, nothing reachable is lost; every cycle ends; and a full collection keeps exactly
    what is reachable. */
module GcSafety {
  import opened Common
  import opened GcMark
  import opened GcState
  import opened GcRuns
  import opened GcMutator

  // ----- every action keeps the invariant

  lemma AllAlive(s: State, refs: seq<Obj>)
    requires Safe(s) && AllReachable(s, refs)
    ensures forall i :: 0 <= i < |refs| ==> Alive(s.heap, s.white, refs[i])
  {
    hide Safe, Reachable, Alive;
    forall i | 0 <= i < |refs| ensures Alive(s.heap, s.white, refs[i]) { ReachableAlive(s, refs[i]); }
  }

  lemma NewInv(s: State, a: Action)
    requires Inv(s) && Enabled(s, a) && (a.New? || a.NewUserdata? || a.NewString? || a.NewOpen?)
    ensures Inv(Apply(s, a))
  {
    hide Lists, Safe, PhaseInv, Reachable, Alive, Push, Link, LinkUserdata, LinkString, LinkOpen;
    match a
    case New(o, kind, refs) =>
      AllAlive(s, refs);
      LinkInv(s, o, kind, refs);
      SameWhite(s, o, kind, refs, 0);
      PushInv(Link(s, o, kind, refs), o);
    case NewUserdata(o, refs) =>
      AllAlive(s, refs);
      LinkUserdataInv(s, o, refs);
      SameWhite(s, o, Userdata, refs, 0);
      PushInv(LinkUserdata(s, o, refs), o);
    case NewString(o, bucket) =>
      LinkStringInv(s, o, bucket);
      SameWhite(s, o, String, [], bucket);
      PushInv(LinkString(s, o, bucket), o);
    case NewOpen(o, refs) =>
      AllAlive(s, refs);
      LinkOpenInv(s, o, refs);
      SameWhite(s, o, Upval, refs, 0);
      PushInv(LinkOpen(s, o, refs), o);
  }

  lemma SameWhite(s: State, o: Obj, kind: Kind, refs: seq<Obj>, bucket: nat)
    ensures Link(s, o, kind, refs).white == s.white && LinkUserdata(s, o, refs).white == s.white
    ensures LinkString(s, o, bucket).white == s.white && LinkOpen(s, o, refs).white == s.white
  {
  }

  lemma FoundInv(s: State, a: Action)
    requires Inv(s) && Enabled(s, a) && (a.Intern? || a.FindOpen?)
    ensures Inv(Apply(s, a))
  {
    hide Safe, PhaseInv, Reachable, Alive, Push, Linked;
    if a.Intern? {
      assert ObjectOk(s.heap, s.strsize, s.main, a.o);
      ResurrectInv(s, a.o);
      PushInv(Resurrect(s, a.o), a.o);
    } else {
      AllAlive(s, a.refs);
      WriteThread(s, a.o, a.refs);
      var s1 := SetRefs(s, a.o, a.refs);
      SetRefsAlive(s, a.o, a.refs);
      ResurrectInv(s1, a.o);
      PushInv(Resurrect(s1, a.o), a.o);
    }
  }

  lemma SetRefsAlive(s: State, o: Obj, refs: seq<Obj>)
    requires o in s.heap
    ensures forall x :: Alive(s.heap, s.white, x) <==> Alive(SetRefs(s, o, refs).heap, s.white, x)
  {
  }

  lemma CloseInv(s: State, u: Obj)
    requires Inv(s) && u in s.heap && s.heap[u].open()
    ensures Inv(CloseUpval(s, u))
  {
    hide Inv, Lists, Safe, PhaseInv;
    if s.phase.Propagate? { ClosePropagateInv(s, u); }
    else if Dead(s.heap, s.white, u) { CloseDeadInv(s, u); }
    else { CloseSweepInv(s, u); }
  }

  lemma WriteInv(s: State, a: Action)
    requires Inv(s) && Enabled(s, a) && (a.WriteStack? || a.WriteOpen? || a.StoreInto? || a.Drop?)
    ensures Inv(Apply(s, a))
  {
    hide Lists, Safe, PhaseInv, Reachable;
    match a
    case WriteStack(o, refs) => AllAlive(s, refs); WriteThread(s, o, refs);
    case WriteOpen(o, refs) => AllAlive(s, refs); WriteThread(s, o, refs);
    case StoreInto(o, refs, v) => ReachableAlive(s, o); ReachableAlive(s, v); StoreInv(s, o, refs, v);
    case Drop(o, refs) =>
      ReachableAlive(s, o);
      DropInv(s, o, refs);
  }

  lemma DropInv(s: State, o: Obj, refs: seq<Obj>)
    requires Inv(s) && Alive(s.heap, s.white, o) && s.heap[o].home.Root?
    requires forall i :: 0 <= i < |refs| ==> refs[i] in s.heap[o].refs
    ensures Inv(SetRefs(s, o, refs))
  {
    hide Linked, ColourInv, SafeHeap, RefsAlive;
    StoredAlive(s, o, refs, o);
    if s.phase.Propagate? && s.heap[o].colour.Black? { StoredMarked(s, o, refs, o); }
    SetRefsLists(s, o, refs);
    SetRefsSafe(s, o, refs);
    SetRefsPhase(s, o, refs);
  }

  lemma RootChangeInv(s: State, a: Action)
    requires Inv(s) && Enabled(s, a) && (a.SetMetatables? || a.Switch?)
    ensures Inv(Apply(s, a))
  {
    hide Lists, PhaseInv, Reachable, Alive;
    RootsAlive(s);
    if a.SetMetatables? {
      AllAlive(s, a.refs);
    } else {
      ReachableAlive(s, a.o);
    }
    RootsInv(s, Apply(s, a));
  }

  lemma RootsAlive(s: State)
    requires Safe(s)
    ensures Alive(s.heap, s.white, s.running) && forall i :: 0 <= i < |s.mt| ==> Alive(s.heap, s.white, s.mt[i])
  {
    assert s.running == Roots(s)[1];
    assert forall i :: 0 <= i < |s.mt| ==> s.mt[i] == Roots(s)[i + 3];
  }

  lemma FixedInv(s: State, a: Action)
    requires Inv(s) && Enabled(s, a) && a.Fix?
    ensures Inv(Apply(s, a))
  {
    hide Lists, Safe, PhaseInv, Reachable;
    ReachableAlive(s, a.o);
    FixInv(s, a.o);
  }

  /** Whatever the collector or the program does next, the invariant holds again. */
  lemma ApplyInv(s: State, a: Action)
    requires Inv(s) && Enabled(s, a)
    ensures Inv(Apply(s, a))
  {
    hide Inv, Reachable, SingleStep, MarkRoot, CloseUpval, Store;
    match a {
      case Collect => SingleStepInv(s);
      case RestartCycle => RestartInv(s);
      case FullMark => MarkRootInv(s);
      case New(_, _, _) => NewInv(s, a);
      case NewUserdata(_, _) => NewInv(s, a);
      case NewString(_, _) => NewInv(s, a);
      case NewOpen(_, _) => NewInv(s, a);
      case Intern(_) => FoundInv(s, a);
      case FindOpen(_, _) => FoundInv(s, a);
      case Close(o) => CloseInv(s, o);
      case WriteStack(_, _) => WriteInv(s, a);
      case WriteOpen(_, _) => WriteInv(s, a);
      case StoreInto(_, _, _) => WriteInv(s, a);
      case Drop(_, _) => WriteInv(s, a);
      case SetMetatables(_) => RootChangeInv(s, a);
      case Switch(_) => RootChangeInv(s, a);
      case ResizeStrings(size, hash) => ResizeInv(s, size, hash);
      case Fix(_) => FixedInv(s, a);
    }
  }

  // ----- runs

  /** A new state: the main thread with its table of globals, and the registry. */
  function Start(): State {
    State(map[0 := Object(Thread, White(false), [1], Root, true),
              1 := Object(Table, White(false), [], Root, false),
              2 := Object(Table, White(false), [], Root, false)],
          false, Pause, [], [], [2, 1, 0], 0, MINSTRTABSIZE, 0, [], 0, 0, 2, [])
  }

  lemma StartInv()
    ensures Inv(Start())
  {
    hide Lists, Safe, PhaseInv;
    StartLists();
    StartSafe();
    StartPhase();
  }

  lemma StartLists()
    ensures Lists(Start())
  {
    var s := Start();
    assert Linked(s.heap, s.rootgc, s.uvhead);
  }

  lemma StartSafe()
    ensures Safe(Start())
  {
    assert Roots(Start()) == [0, 0, 2];
  }

  lemma StartPhase()
    ensures Start().sweepgc <= |Start().rootgc| && PhaseInv(Start())
  {
  }

  ghost predicate IsRun(states: seq<State>, acts: seq<Action>) {
    && |states| == |acts| + 1 && states[0] == Start()
    && forall i :: 0 <= i < |acts| ==> Enabled(states[i], acts[i]) && states[i + 1] == Apply(states[i], acts[i])
  }

  lemma {:induction false} RunInv(states: seq<State>, acts: seq<Action>, i: nat)
    requires IsRun(states, acts) && i <= |acts|
    ensures Inv(states[i])
    decreases i
  {
    hide Inv, Enabled, Apply;
    if i == 0 {
      StartInv();
    } else {
      RunInv(states, acts, i - 1);
      assert Enabled(states[i - 1], acts[i - 1]);
      ApplyInv(states[i - 1], acts[i - 1]);
    }
  }

  /** In every state of every run, whatever is reachable exists and is not dead. */
  lemma RunsAreSafe(states: seq<State>, acts: seq<Action>, i: nat, o: Obj)
    requires IsRun(states, acts) && i <= |acts| && Reachable(states[i], o)
    ensures o in states[i].heap && !Dead(states[i].heap, states[i].white, o)
  {
    hide Lists, Safe, PhaseInv, Enabled, Apply, Reachable;
    RunInv(states, acts, i);
    ReachableAlive(states[i], o);
  }

  /** While marking, no black object of any state of any run refers to a white one. */
  lemma NoBlackToWhite(states: seq<State>, acts: seq<Action>, i: nat, o: Obj, k: nat)
    requires IsRun(states, acts) && i <= |acts| && states[i].phase.Propagate?
    requires o in states[i].heap && states[i].heap[o].colour.Black? && k < |states[i].heap[o].refs|
    ensures !IsWhite(states[i].heap, states[i].heap[o].refs[k])
  {
    hide Lists, Safe, Enabled, Apply;
    RunInv(states, acts, i);
    var s := states[i];
    assert WellColoured(s.heap, s.gray + s.grayagain, o);
  }

  /** What the assertions of luaC_barrierf, luaC_barrierback and luaF_close demand. */
  ghost predicate AssertsHold(s: State, a: Action)
    requires Enabled(s, a)
  {
    match a
    case StoreInto(o, _, v) =>
      s.heap[o].colour.Black? ==>
        && !s.phase.Pause? && !s.phase.Finalize?
        && !Dead(s.heap, s.white, v) && !Dead(s.heap, s.white, o)
    case Close(u) => !s.heap[u].colour.Black? && (s.heap[u].colour.Gray? ==> !s.phase.Pause? && !s.phase.Finalize?)
    case _ => true
  }

  lemma AssertsAt(s: State, a: Action)
    requires Inv(s) && Enabled(s, a)
    ensures AssertsHold(s, a)
  {
    hide Lists, Safe, Reachable;
    SweepRoom(s);
    match a {
      case StoreInto(o, _, v) =>
        ReachableAlive(s, o);
        ReachableAlive(s, v);
        assert !s.phase.Propagate? ==> Pending(s, o) || s.heap[o].colour == White(s.white);
      case Close(u) =>
        if s.phase.Propagate? { OpenAreUpvals(s, u); NeverBlack(s, u); }
        assert !s.phase.Propagate? ==> Pending(s, u) || s.heap[u].colour == White(s.white);
      case _ =>
    }
  }

  lemma BarrierAsserts(states: seq<State>, acts: seq<Action>, i: nat)
    requires IsRun(states, acts) && i < |acts|
    ensures Enabled(states[i], acts[i]) && AssertsHold(states[i], acts[i])
  {
    hide Inv, Enabled, Apply;
    RunInv(states, acts, i);
    AssertsAt(states[i], acts[i]);
  }

  lemma OpenAreUpvals(s: State, u: Obj)
    requires Lists(s) && u in s.heap && s.heap[u].open()
    ensures s.heap[u].kind.Upval?
  {
    assert ObjectOk(s.heap, s.strsize, s.main, u);
  }

  // ----- what a step may free

  /** Marking frees nothing. */
  lemma {:induction false} MarkRootShape(s: State)
    ensures SameShape(s.heap, MarkRoot(s).heap)
  {
    hide MarkAll;
    var globals := if RefsOf(s.heap, s.main) == [] then [] else [s.heap[s.main].refs[0]];
    MarkAllColours(Marking(s.heap, []), [s.main] + globals + [s.registry] + s.mt);
  }

  /** The same object but for its colour and the list it is in. */
  predicate SameCell(x: Object, y: Object) {
    y.kind == x.kind && y.refs == x.refs && y.fixed == x.fixed
  }

  /** s' has no more objects than s, with the same references, and the same roots. */
  ghost predicate Shrinks(s: State, s': State) {
    && s'.heap.Keys <= s.heap.Keys && Roots(s') == Roots(s)
    && (forall o :: o in s'.heap ==> SameCell(s.heap[o], s'.heap[o]))
  }

  lemma ShrinksTrans(s: State, s1: State, s2: State)
    requires Shrinks(s, s1) && Shrinks(s1, s2)
    ensures Shrinks(s, s2)
  {
  }

  lemma MarkRootShrinks(s: State)
    ensures Shrinks(s, MarkRoot(s)) && MarkRoot(s).heap.Keys == s.heap.Keys
  {
    hide MarkAll;
    MarkRootShape(s);
  }

  lemma MarksShrinks(s: State, s': State)
    requires MarksOnly(s, s') && Roots(s') == Roots(s)
    ensures Shrinks(s, s') && s'.heap.Keys == s.heap.Keys
  {
  }

  lemma MarkShrinks(s: State)
    requires Inv(s) && s.phase.Propagate?
    ensures Shrinks(s, SingleStep(s)) && SingleStep(s).heap.Keys == s.heap.Keys
  {
    hide MarkAll, Lists, Safe, ColourInv, PropagateMark, Atomic, Closed, OpenNotBlack, UpvalsDone, AgainDone,
      MarksOnly, Shrinks;
    if s.gray != [] {
      PropagateOk(s);
    } else {
      UpvalsListed(s);
      AtomicMarks(s);
      AtomicFrame(s);
    }
    MarksShrinks(s, SingleStep(s));
  }

  /** Sweeping frees what is dead and keeps what is alive. */
  ghost predicate Sweeps(s: State, s': State) {
    && Shrinks(s, s') && s'.white == s.white
    && forall o :: Alive(s'.heap, s.white, o) <==> Alive(s.heap, s.white, o)
  }

  lemma SweepsTrans(s: State, s1: State, s2: State)
    requires Sweeps(s, s1) && Sweeps(s1, s2)
    ensures Sweeps(s, s2)
  {
    hide Alive;
  }

  lemma SweepsSelf(s: State)
    ensures Sweeps(s, s)
  {
  }

  lemma SweepOneSweeps(s: State)
    requires s.sweepgc < |s.rootgc| && s.rootgc[s.sweepgc] in s.heap
    ensures Sweeps(s, SweepOne(s))
  {
    hide SweepHome, StillOpen, OpenOf, Freed, Sweeps;
    if Dead(s.heap, s.white, s.rootgc[s.sweepgc]) { FreeingSweeps(s); } else { PassingSweeps(s); }
  }

  lemma FreeingSweeps(s: State)
    requires s.sweepgc < |s.rootgc| && Dead(s.heap, s.white, s.rootgc[s.sweepgc])
    ensures Sweeps(s, SweepOne(s))
  {
    hide SweepHome, StillOpen, OpenOf, Freed, SweepOne;
    FreedKeeps(s, s.rootgc[s.sweepgc]);
    FreedIs(s);
  }

  lemma PassingSweeps(s: State)
    requires s.sweepgc < |s.rootgc| && s.rootgc[s.sweepgc] in s.heap && !Dead(s.heap, s.white, s.rootgc[s.sweepgc])
    ensures Sweeps(s, SweepOne(s))
  {
    hide SweepHome, StillOpen, OpenOf, Freed, Alive;
    var o := s.rootgc[s.sweepgc];
    SweepHomeKeeps(s, OpenIn(o));
    WhitenedAlive(s, SweepHome(s, OpenIn(o)), o);
  }

  lemma WhitenedAlive(s: State, h: Heap, o: Obj)
    ensures o in h && Alive(h, s.white, o) ==>
              forall x :: Alive(h[o := Whitened(s, h[o])], s.white, x) <==> Alive(h, s.white, x)
    ensures o in s.heap && !Dead(s.heap, s.white, o) ==> Alive(s.heap, s.white, o)
    ensures Alive(h, s.white, o) ==> o in h
  {
  }

  lemma ListedExists(s: State)
    requires Lists(s) && s.sweepgc < |s.rootgc|
    ensures s.rootgc[s.sweepgc] in s.heap
  {
    assert s.rootgc[s.sweepgc] in s.rootgc;
  }

  lemma {:induction false} SweepManySweeps(s: State, count: nat)
    requires Inv(s) && s.phase.Sweep?
    ensures Sweeps(s, SweepMany(s, count))
    decreases count
  {
    hide Lists, Safe, PhaseInv, SweepOne, Sweeps;
    if count == 0 || s.sweepgc >= |s.rootgc| {
      SweepsSelf(s);
    } else {
      ListedExists(s);
      SweepOneSweeps(s);
      SweepOneInv(s);
      SweepManySweeps(SweepOne(s), count - 1);
      SweepsTrans(s, SweepOne(s), SweepMany(s, count));
    }
  }

  lemma StepSweeps(s: State)
    requires Inv(s) && !s.phase.Pause? && !s.phase.Propagate?
    ensures Sweeps(s, SingleStep(s))
  {
    hide Lists, Safe, PhaseInv, SweepMany, SweepHome;
    match s.phase
    case SweepString => SweepHomeKeeps(s, Bucket(s.sweepstr));
    case Sweep => SweepManySweeps(s, GCSWEEPMAX);
    case Finalize => SweepsSelf(s);
  }

  lemma StepShrinks(s: State)
    requires Inv(s)
    ensures Shrinks(s, SingleStep(s))
  {
    hide Inv, Shrinks, Sweeps, MarkRoot;
    if s.phase.Pause? {
      MarkRootShrinks(s);
    } else if s.phase.Propagate? {
      MarkShrinks(s);
    } else {
      StepSweeps(s);
      SweepsShrinks(s, SingleStep(s));
    }
  }

  lemma SweepsShrinks(s: State, s': State)
    requires Sweeps(s, s')
    ensures Shrinks(s, s')
  {
  }

  lemma StepKeeps(s: State, o: Obj)
    requires Inv(s) && Alive(s.heap, s.white, o)
    ensures o in SingleStep(s).heap
  {
    hide Inv, Shrinks, MarkRoot;
    if s.phase.Pause? {
      MarkRootShrinks(s);
    } else if s.phase.Propagate? {
      MarkShrinks(s);
    } else {
      StepSweeps(s);
      assert Alive(SingleStep(s).heap, s.white, o);
    }
  }

  lemma MutatorKeeps(s: State, a: Action, o: Obj)
    requires Inv(s) && Enabled(s, a) && !a.Collect? && Alive(s.heap, s.white, o)
    ensures o in Apply(s, a).heap
  {
    hide Inv, Reachable, MarkAll, Mark;
    match a {
      case FullMark => MarkRootShape(s);
      case Close(u) =>
        if !Dead(s.heap, s.white, u) && s.phase.Propagate? && s.heap[u].colour.Gray? { CloseShape(s, u); }
      case StoreInto(u, refs, v) =>
        if s.phase.Propagate? { StoreShape(s, u, refs, v); }
      case _ =>
    }
  }

  lemma CloseShape(s: State, u: Obj)
    requires Inv(s) && u in s.heap && s.phase.Propagate? && s.heap[u].open() && s.heap[u].colour.Gray?
    ensures s.heap.Keys <= CloseUpval(s, u).heap.Keys
  {
    hide ColourInv, MarkAll;
    OpenAreUpvals(s, u);
    CloseGrayColour(s, u);
  }

  lemma StoreShape(s: State, o: Obj, refs: seq<Obj>, v: Obj)
    requires Inv(s) && s.phase.Propagate? && o in s.heap && s.heap[o].home.Root? && !s.heap[o].kind.Thread?
    requires forall i :: 0 <= i < |refs| ==> refs[i] == v || refs[i] in s.heap[o].refs
    ensures s.heap.Keys <= Store(s, o, refs, v).heap.Keys
  {
    hide ColourInv, Mark, Lists, Safe;
    if IsWhite(s.heap, v) && s.heap[o].colour.Black? && !s.heap[o].kind.Table? {
      StoredMarked(s, o, refs, v);
      ForwardColour(s, o, refs, v);
    }
  }

  /** Whatever a step of a run frees was not reachable. */
  lemma OnlyGarbageFreed(states: seq<State>, acts: seq<Action>, i: nat, o: Obj)
    requires IsRun(states, acts) && i < |acts| && o in states[i].heap && o !in states[i + 1].heap
    ensures !Reachable(states[i], o)
  {
    hide Lists, Safe, PhaseInv, Enabled, Apply, Reachable;
    if Reachable(states[i], o) {
      RunInv(states, acts, i);
      ReachableAlive(states[i], o);
      var s, a := states[i], acts[i];
      if a.Collect? { StepKeeps(s, o); CollectIs(s, a); } else { MutatorKeeps(s, a, o); }
    }
  }

  lemma CollectIs(s: State, a: Action)
    requires Enabled(s, a) && a.Collect?
    ensures Apply(s, a) == SingleStep(s)
  {
  }

  // ----- every cycle ends

  function Rank(p: Phase): nat {
    match p case Pause => 0 case Finalize => 1 case Sweep => 2 case SweepString => 3 case Propagate => 4
  }

  function Left(all: nat, done: nat): nat {
    if done < all then all - done else 0
  }

  /** What a phase has left to do. */
  function Work(s: State): (nat, nat) {
    match s.phase
    case Propagate => (|Whites(s.heap)|, |s.gray|)
    case SweepString => (Left(s.strsize, s.sweepstr), 0)
    case Sweep => (|s.heap|, Left(|s.rootgc|, s.sweepgc))
    case _ => (0, 0)
  }

  predicate Less(a: (nat, nat), b: (nat, nat)) {
    a.0 < b.0 || (a.0 == b.0 && a.1 < b.1)
  }

  lemma SizeShrinks(h: Heap, h': Heap)
    requires h'.Keys <= h.Keys
    ensures |h'| <= |h| && (h'.Keys != h.Keys ==> |h'| < |h|)
  {
    KeysSize(h.Keys, h'.Keys);
    assert |h| == |h.Keys| && |h'| == |h'.Keys|;
  }

  lemma KeysSize(a: set<Obj>, b: set<Obj>)
    requires b <= a
    ensures |b| <= |a| && (b != a ==> |b| < |a|)
  {
    assert a == b + (a - b);
  }

  lemma SweepOneWorks(s: State)
    requires s.sweepgc < |s.rootgc|
    ensures var s' := SweepOne(s);
            s'.phase == s.phase
              && Less((|s'.heap|, Left(|s'.rootgc|, s'.sweepgc)), (|s.heap|, Left(|s.rootgc|, s.sweepgc)))
  {
    hide SweepHome, StillOpen, OpenOf, Freed;
    var o := s.rootgc[s.sweepgc];
    SweepHomeKeeps(s, OpenIn(o));
    if Dead(s.heap, s.white, o) {
      FreedKeeps(s, o);
      FreedIs(s);
    }
    SizeShrinks(s.heap, SweepOne(s).heap);
  }

  lemma {:induction false} SweepManyWorks(s: State, count: nat)
    ensures var s' := SweepMany(s, count);
            && s'.phase == s.phase
            && (Less((|s'.heap|, Left(|s'.rootgc|, s'.sweepgc)), (|s.heap|, Left(|s.rootgc|, s.sweepgc)))
                || (s' == s && (count == 0 || s.sweepgc >= |s.rootgc|)))
    decreases count
  {
    hide SweepOne;
    if count != 0 && s.sweepgc < |s.rootgc| {
      SweepOneWorks(s);
      SweepManyWorks(SweepOne(s), count - 1);
    }
  }

  /** Every step outside the pause moves on to a later phase or leaves less to do. */
  lemma StepWorks(s: State)
    requires !s.phase.Pause?
    ensures var s' := SingleStep(s);
            Rank(s'.phase) < Rank(s.phase) || (s'.phase == s.phase && Less(Work(s'), Work(s)))
  {
    hide MarkAll, PropagateAll, SweepMany, RemarkUpvals, SweepHome;
    match s.phase
    case Propagate => if s.gray != [] { PropagateCounts(s); }
    case SweepString =>
    case Sweep => SweepManyWorks(s, GCSWEEPMAX);
    case Finalize =>
  }

  /** Steps of the collector until phase stop, or the pause. */
  function RunUntil(s: State, stop: Phase): (s': State)
    ensures s'.phase == stop || s'.phase.Pause?
    decreases Rank(s.phase), Work(s).0, Work(s).1
  {
    if s.phase == stop || s.phase.Pause? then s
    else
      StepWorks(s);
      RunUntil(SingleStep(s), stop)
  }

  /** luaC_fullgc. */
  function FullCollect(s: State): State {
    RunUntil(MarkRoot(RunUntil(Restart(s), Finalize)), Pause)
  }

  lemma {:induction false} RunUntilInv(s: State, stop: Phase)
    requires Inv(s)
    ensures Inv(RunUntil(s, stop)) && Shrinks(s, RunUntil(s, stop))
    decreases Rank(s.phase), Work(s).0, Work(s).1
  {
    hide Inv, Shrinks, SingleStep;
    if s.phase == stop || s.phase.Pause? {
      ShrinksSelf(s);
    } else {
      StepWorks(s);
      SingleStepInv(s);
      StepShrinks(s);
      RunUntilInv(SingleStep(s), stop);
      ShrinksTrans(s, SingleStep(s), RunUntil(s, stop));
    }
  }

  lemma ShrinksSelf(s: State)
    ensures Shrinks(s, s)
  {
  }

  // ----- a full collection keeps exactly what is reachable

  /** Freeing what no live object refers to changes nothing about reachability. */
  lemma ReachableSame(s: State, s': State, o: Obj)
    requires Safe(s') && Shrinks(s, s')
    ensures Reachable(s, o) <==> Reachable(s', o)
  {
    forall c | ClosedSet(s, c) ensures ClosedSet(s', c) { }
    forall c | ClosedSet(s', c) ensures ClosedSet(s, LiveOf(s', c)) {
      ClosedLive(s, s', c);
    }
    if Reachable(s, o) {
      forall c | ClosedSet(s', c) ensures o in c { assert ClosedSet(s, LiveOf(s', c)); }
    }
  }

  function LiveOf(s: State, c: set<Obj>): set<Obj> {
    set x | x in c && Alive(s.heap, s.white, x)
  }

  lemma ClosedLive(s: State, s': State, c: set<Obj>)
    requires Safe(s') && Shrinks(s, s') && ClosedSet(s', c)
    ensures ClosedSet(s, LiveOf(s', c))
  {
    var d := LiveOf(s', c);
    forall x, i | x in d && x in s.heap && 0 <= i < |s.heap[x].refs| ensures s.heap[x].refs[i] in d {
      assert RefsAlive(s'.heap, s'.white, x);
      assert s.heap[x].refs[i] == s'.heap[x].refs[i];
    }
    forall i | 0 <= i < |Roots(s)| ensures Roots(s)[i] in d {
      assert Roots(s)[i] == Roots(s')[i] && Alive(s'.heap, s'.white, Roots(s')[i]);
    }
  }

  ghost predicate ClosedIn(h: Heap, c: set<Obj>) {
    forall o, i :: o in c && o in h && 0 <= i < |h[o].refs| ==> h[o].refs[i] in c
  }

  /** Only members of c are coloured. */
  ghost predicate Within(m: Marking, c: set<Obj>) {
    && ClosedIn(m.heap, c)
    && (forall o :: o in m.heap && !IsWhite(m.heap, o) ==> o in c)
    && (forall o :: o in m.gray ==> o in c)
  }

  predicate AllIn(rs: seq<Obj>, c: set<Obj>) {
    forall i :: 0 <= i < |rs| ==> rs[i] in c
  }

  lemma PaintWithin(m: Marking, o: Obj, k: Colour, c: set<Obj>)
    requires Within(m, c) && o in c
    ensures Within(m.(heap := Paint(m.heap, o, k)), c)
  {
    var h := Paint(m.heap, o, k);
    assert forall x :: x in h ==> h[x].refs == m.heap[x].refs;
  }

  lemma RefsIn(m: Marking, o: Obj, c: set<Obj>)
    requires Within(m, c) && o in c && o in m.heap
    ensures AllIn(m.heap[o].refs, c)
  {
  }

  lemma PushWithin(m: Marking, o: Obj, c: set<Obj>)
    requires Within(m, c) && o in c
    ensures Within(m.(gray := [o] + m.gray), c)
  {
  }

  lemma {:induction false} MarkWithin(m: Marking, o: Obj, c: set<Obj>)
    requires Within(m, c) && o in c
    ensures Within(Mark(m, o), c)
    decreases |Whites(m.heap)|, 0
  {
    hide MarkAll, Within, AllIn;
    if IsWhite(m.heap, o) {
      PaintWhites(m.heap, o, Gray);
      PaintWhites(m.heap, o, Black);
      PaintWithin(m, o, Gray, c);
      PaintWithin(m, o, Black, c);
      RefsIn(m, o, c);
      var x := m.heap[o];
      var grayed := m.(heap := Paint(m.heap, o, Gray));
      match x.kind
      case String =>
      case Userdata => MarkAllWithin(m.(heap := Paint(m.heap, o, Black)), x.refs, c);
      case Upval =>
        MarkAllWithin(grayed, x.refs, c);
        PaintWithin(MarkAll(grayed, x.refs), o, Black, c);
      case _ => PushWithin(grayed, o, c);
    }
  }

  lemma {:induction false} MarkAllWithin(m: Marking, rs: seq<Obj>, c: set<Obj>)
    requires Within(m, c) && AllIn(rs, c)
    ensures Within(MarkAll(m, rs), c)
    decreases |Whites(m.heap)|, |rs| + 1
  {
    hide Mark, Within;
    if rs != [] {
      MarkWithin(m, rs[0], c);
      MarkAllWithin(Mark(m, rs[0]), rs[1..], c);
    }
  }

  /** The same for a state: what waits in the lists is in c too. */
  ghost predicate StateWithin(s: State, c: set<Obj>) {
    Within(Marks(s), c) && AllIn(s.grayagain, c) && AllIn(Roots(s), c)
  }

  lemma PropagateWithin(s: State, c: set<Obj>)
    requires StateWithin(s, c) && s.gray != []
    ensures StateWithin(PropagateMark(s), c)
  {
    hide MarkAll, Within;
    HeadWithin(s, c);
    var o := s.gray[0];
    var m := Marking(s.heap, s.gray[1..]);
    PaintWithin(m, o, Black, c);
    if o in s.heap { RefsIn(m, o, c); }
    var rs := RefsOf(s.heap, o);
    MarkAllWithin(m, rs, c);
    MarkAllWithin(m.(heap := Paint(s.heap, o, Black)), rs, c);
    assert Marks(PropagateMark(s)) == MarkAll(m, rs)
      || Marks(PropagateMark(s)) == MarkAll(m.(heap := Paint(s.heap, o, Black)), rs);
  }

  lemma HeadWithin(s: State, c: set<Obj>)
    requires StateWithin(s, c) && s.gray != []
    ensures s.gray[0] in c && Within(Marking(s.heap, s.gray[1..]), c)
  {
    assert s.gray == [s.gray[0]] + s.gray[1..];
  }

  lemma {:induction false} PropagateAllWithin(s: State, c: set<Obj>)
    requires StateWithin(s, c)
    ensures StateWithin(PropagateAll(s), c)
    decreases |Whites(s.heap)|, |s.gray|
  {
    hide PropagateMark, StateWithin;
    if s.gray != [] {
      PropagateCounts(s);
      PropagateWithin(s, c);
      PropagateAllWithin(PropagateMark(s), c);
    }
  }

  lemma {:induction false} RemarkWithin(m: Marking, uvs: seq<Obj>, c: set<Obj>)
    requires Within(m, c)
    ensures Within(RemarkUpvals(m, uvs), c)
    decreases |uvs|
  {
    hide MarkAll, Within;
    if uvs != [] {
      var u := uvs[0];
      if u in m.heap && m.heap[u].colour.Gray? {
        ColouredIn(m, u, c);
        RefsIn(m, u, c);
        MarkAllWithin(m, m.heap[u].refs, c);
        RemarkWithin(MarkAll(m, m.heap[u].refs), uvs[1..], c);
      } else {
        RemarkWithin(m, uvs[1..], c);
      }
    }
  }

  lemma ColouredIn(m: Marking, o: Obj, c: set<Obj>)
    requires Within(m, c) && o in m.heap && !IsWhite(m.heap, o)
    ensures o in c
  {
  }

  lemma AtomicWithin(s: State, c: set<Obj>)
    requires StateWithin(s, c)
    ensures forall o :: o in Atomic(s).heap && !IsWhite(Atomic(s).heap, o) ==> o in c
  {
    hide MarkAll, PropagateAll, RemarkUpvals, ClosedIn;
    var s0 := With(s, RemarkUpvals(Marks(s), s.uvhead));
    RemarkWithin(Marks(s), s.uvhead, c);
    assert Marks(s0) == RemarkUpvals(Marks(s), s.uvhead) && Roots(s0) == Roots(s);
    var s1 := PropagateAll(s0);
    PropagateAllWithin(s0, c);
    PropagateFrame(s0);
    var rs := [s.running] + s.mt;
    assert Roots(s1) == Roots(s) && s.running == Roots(s)[1];
    assert forall i :: 0 <= i < |s.mt| ==> s.mt[i] == Roots(s)[i + 3];
    MarkAllWithin(Marking(s1.heap, []), rs, c);
    var t1 := With(s1, MarkAll(Marking(s1.heap, []), rs));
    assert Marks(t1) == MarkAll(Marking(s1.heap, []), rs) && Roots(t1) == Roots(s1);
    var s2 := PropagateAll(t1);
    PropagateAllWithin(t1, c);
    PropagateAllWithin(s2.(gray := s2.grayagain, grayagain := []), c);
  }

  /** After the atomic step every white object is in the other white. */
  lemma AtomicWhites(s: State)
    requires Inv(s) && s.phase.Propagate?
    ensures var s' := Atomic(s); forall o :: IsWhite(s'.heap, o) ==> s'.heap[o].colour == White(!s'.white)
  {
    hide Lists, Safe, ColourInv, Atomic, UpvalsDone, Closed, OpenNotBlack, OpenUpvals, MarksOnly;
    UpvalsListed(s);
    AtomicMarks(s);
    AtomicFrame(s);
    WhitesShade(s, Atomic(s));
  }

  lemma SweptWithin(s: State, e: State, c: set<Obj>, o: Obj)
    requires Sweeps(s, e) && o in e.heap && Alive(e.heap, e.white, o)
    requires forall x :: IsWhite(s.heap, x) ==> s.heap[x].colour == White(!s.white)
    requires forall x :: x in s.heap && !IsWhite(s.heap, x) ==> x in c
    ensures o in c || e.heap[o].fixed
  {
    assert Alive(s.heap, s.white, o);
  }

  /** From the mark phase on, a cycle ends with nothing but fixed objects and members of c. */
  lemma {:induction false} CycleWithin(s: State, c: set<Obj>, o: Obj)
    requires Inv(s) && s.phase.Propagate? && StateWithin(s, c) && o in RunUntil(s, Pause).heap
    ensures o in c || RunUntil(s, Pause).heap[o].fixed
    decreases Rank(s.phase), Work(s).0, Work(s).1
  {
    hide Inv, PropagateMark, Atomic, StateWithin, Sweeps, Alive;
    StepWorks(s);
    SingleStepInv(s);
    var s' := SingleStep(s);
    if s.gray != [] {
      PropagateWithin(s, c);
      PropagatePhase(s);
      CycleWithin(s', c, o);
    } else {
      AtomicWithin(s, c);
      AtomicPhase(s);
      AtomicWhites(s);
      SweepsToEnd(s', Pause);
      RunUntilInv(s', Pause);
      EndAlive(RunUntil(s', Pause));
      SweptWithin(s', RunUntil(s', Pause), c, o);
    }
  }

  lemma PropagatePhase(s: State)
    requires s.phase.Propagate? && s.gray != []
    ensures PropagateMark(s).phase.Propagate?
  {
    hide MarkAll;
  }

  lemma AtomicPhase(s: State)
    ensures Atomic(s).phase.SweepString?
  {
    hide PropagateAll, MarkAll, RemarkUpvals;
  }

  /** Between two cycles everything that exists is alive and white. */
  lemma EndAlive(s: State)
    requires Inv(s) && (s.phase.Pause? || s.phase.Finalize?)
    ensures forall o :: o in s.heap ==> Alive(s.heap, s.white, o) && IsWhite(s.heap, o)
  {
    hide Linked, ObjectOk, SafeHeap;
    forall o | o in s.heap
      ensures Alive(s.heap, s.white, o) && IsWhite(s.heap, o)
    {
      assert Pending(s, o) || s.heap[o].colour == White(s.white);
    }
  }

  lemma {:induction false} SweepsToEnd(s: State, stop: Phase)
    requires Inv(s) && !s.phase.Propagate?
    ensures Sweeps(s, RunUntil(s, stop))
    decreases Rank(s.phase), Work(s).0, Work(s).1
  {
    hide Inv, Sweeps, SingleStep;
    if s.phase == stop || s.phase.Pause? {
      SweepsSelf(s);
    } else {
      StepWorks(s);
      SingleStepInv(s);
      StepSweeps(s);
      SweepsToEnd(SingleStep(s), stop);
      SweepsTrans(s, SingleStep(s), RunUntil(s, stop));
    }
  }

  lemma MarkRootWithin(s: State, c: set<Obj>)
    requires Inv(s) && (s.phase.Pause? || s.phase.Finalize?) && ClosedSet(s, c)
    ensures StateWithin(MarkRoot(s), c)
  {
    hide Lists, Safe, PhaseInv, MarkAll, Within;
    var globals := if RefsOf(s.heap, s.main) == [] then [] else [s.heap[s.main].refs[0]];
    var rs := [s.main] + globals + [s.registry] + s.mt;
    RootsIn(s, c);
    EndAlive(s);
    AllWhiteWithin(s, c);
    assert AllIn(rs, c);
    MarkAllWithin(Marking(s.heap, []), rs, c);
    assert Marks(MarkRoot(s)) == MarkAll(Marking(s.heap, []), rs);
    assert Roots(MarkRoot(s)) == Roots(s);
  }

  lemma RootsIn(s: State, c: set<Obj>)
    requires ClosedSet(s, c)
    ensures s.main in c && s.running in c && s.registry in c && AllIn(s.mt, c)
  {
    assert Roots(s)[0] == s.main && Roots(s)[1] == s.running && Roots(s)[2] == s.registry;
    assert forall i :: 0 <= i < |s.mt| ==> s.mt[i] == Roots(s)[i + 3];
  }

  lemma AllWhiteWithin(s: State, c: set<Obj>)
    requires ClosedSet(s, c) && forall o :: o in s.heap ==> IsWhite(s.heap, o)
    ensures Within(Marking(s.heap, []), c)
  {
  }

  lemma {:induction false} FixedKept(s: State, stop: Phase, o: Obj)
    requires Inv(s) && o in s.heap && s.heap[o].fixed
    ensures o in RunUntil(s, stop).heap
    decreases Rank(s.phase), Work(s).0, Work(s).1
  {
    hide Inv, SingleStep;
    if s.phase != stop && !s.phase.Pause? {
      StepWorks(s);
      SingleStepInv(s);
      StepKeeps(s, o);
      StepShrinks(s);
      FixedKept(SingleStep(s), stop, o);
    }
  }

  /** What survives a cycle is fixed or reachable. */
  lemma CycleComplete(s: State, o: Obj)
    requires Inv(s) && (s.phase.Pause? || s.phase.Finalize?)
    ensures var e := RunUntil(MarkRoot(s), Pause);
            Inv(e) && Shrinks(s, e) && (o in e.heap ==> e.heap[o].fixed || Reachable(e, o))
  {
    hide Lists, Safe, PhaseInv, MarkRoot, RunUntil, Shrinks, ClosedSet, StateWithin;
    var s2 := MarkRoot(s);
    MarkRootInv(s);
    MarkRootShrinks(s);
    RunUntilInv(s2, Pause);
    var e := RunUntil(s2, Pause);
    ShrinksTrans(s, s2, e);
    MarkRootPhase(s);
    if o in e.heap && !e.heap[o].fixed {
      forall c: set<Obj> | ClosedSet(e, c) ensures o in c {
        ClosedLive(s, e, c);
        MarkRootWithin(s, LiveOf(e, c));
        CycleWithin(s2, LiveOf(e, c), o);
      }
    }
  }

  lemma MarkRootPhase(s: State)
    ensures MarkRoot(s).phase.Propagate?
  {
    hide MarkAll;
  }

  /** A full collection keeps exactly the reachable and the fixed objects. */
  lemma FullCollectExact(s: State, o: Obj)
    requires Inv(s)
    ensures Inv(FullCollect(s)) && FullCollect(s).phase.Pause?
    ensures o in FullCollect(s).heap <==> Reachable(s, o) || (o in s.heap && s.heap[o].fixed)
  {
    hide Lists, Safe, PhaseInv, MarkRoot, Reachable, RunUntil;
    RestartInv(s);
    var s0 := Restart(s);
    RunUntilInv(s0, Finalize);
    var s1 := RunUntil(s0, Finalize);
    ShrinksTrans(s, s0, s1);
    CycleComplete(s1, o);
    var e := FullCollect(s);
    ShrinksTrans(s, s1, e);
    ReachableSame(s, e, o);
    if Reachable(s, o) { ReachableAlive(e, o); }
    if o in s.heap && s.heap[o].fixed {
      FixedKept(s0, Finalize, o);
      MarkRootShrinks(s1);
      MarkRootInv(s1);
      FixedKept(MarkRoot(s1), Pause, o);
    }
  }
}
