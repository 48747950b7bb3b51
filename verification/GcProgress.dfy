/** How long the phases of a cycle can last while the program keeps running: allocation is the
    only thing that gives the collector more to do. */
module GcProgress {
  import opened GcMark
  import opened GcState
  import opened GcRuns
  import opened GcMutator
  import opened GcSafety

  /** An upper bound for the steps that the collector still needs in this phase. */
  function Potential(s: State): nat {
    match s.phase
    case Propagate => MarkPotential(Marks(s))
    case SweepString => Left(s.strsize, s.sweepstr)
    case Sweep => Left(|s.rootgc|, s.sweepgc) + |s.uvhead|
    case _ => 0
  }

  /** Each white object can become gray once, and each gray one is traversed once. */
  function MarkPotential(m: Marking): nat {
    |Whites(m.heap)| + |m.gray|
  }

  predicate Allocates(a: Action) {
    a.New? || a.NewUserdata? || a.NewString? || a.NewOpen?
  }

  // ----- marking

  lemma {:induction false} MarkLowers(m: Marking, o: Obj)
    ensures MarkPotential(Mark(m, o)) <= MarkPotential(m)
    decreases |Whites(m.heap)|, 0
  {
    hide MarkAll, Whites;
    if IsWhite(m.heap, o) {
      PaintWhites(m.heap, o, Gray);
      PaintWhites(m.heap, o, Black);
      var refs := m.heap[o].refs;
      match m.heap[o].kind
      case Userdata => MarkAllLowers(m.(heap := Paint(m.heap, o, Black)), refs);
      case Upval =>
        var grayed := m.(heap := Paint(m.heap, o, Gray));
        MarkAllLowers(grayed, refs);
        PaintWhites(MarkAll(grayed, refs).heap, o, Black);
      case _ =>
    }
  }

  lemma {:induction false} MarkAllLowers(m: Marking, rs: seq<Obj>)
    ensures MarkPotential(MarkAll(m, rs)) <= MarkPotential(m)
    decreases |Whites(m.heap)|, |rs| + 1
  {
    hide Mark, MarkPotential;
    if rs != [] {
      MarkLowers(m, rs[0]);
      MarkAllLowers(Mark(m, rs[0]), rs[1..]);
    }
  }

  lemma PropagateLowers(s: State)
    requires s.gray != []
    ensures MarkPotential(Marks(PropagateMark(s))) < MarkPotential(Marks(s))
  {
    hide MarkAll, Whites;
    var o := s.gray[0];
    PaintWhites(s.heap, o, Black);
    MarkAllLowers(Marking(s.heap, s.gray[1..]), RefsOf(s.heap, o));
    MarkAllLowers(Marking(Paint(s.heap, o, Black), s.gray[1..]), RefsOf(s.heap, o));
  }

  lemma StoreLowers(s: State, o: Obj, refs: seq<Obj>, v: Obj)
    requires o in s.heap && s.phase.Propagate?
    ensures MarkPotential(Marks(Store(s, o, refs, v))) <= MarkPotential(Marks(s))
  {
    hide Mark;
    var s1 := SetRefs(s, o, refs);
    assert Whites(s1.heap) == Whites(s.heap);
    PaintWhites(s1.heap, o, Gray);
    MarkLowers(Marks(s1), v);
  }

  lemma CloseLowers(s: State, u: Obj)
    requires u in s.heap && s.phase.Propagate?
    ensures MarkPotential(Marks(CloseUpval(s, u))) <= MarkPotential(Marks(s))
  {
    hide MarkAll;
    if Dead(s.heap, s.white, u) {
      assert Whites(s.heap - {u}) == Whites(s.heap) - {u};
    } else {
      var h := s.heap[u := s.heap[u].(home := Root)];
      assert Whites(h) == Whites(s.heap);
      PaintWhites(h, u, Black);
      MarkAllLowers(Marking(Paint(h, u, Black), s.gray), h[u].refs);
    }
  }

  /** A new object is one more white. */
  lemma NewWhites(h: Heap, h': Heap, o: Obj)
    requires o !in h && h'.Keys == h.Keys + {o} && forall x :: x in h ==> h'[x].colour == h[x].colour
    ensures |Whites(h')| <= |Whites(h)| + 1
  {
    KeysSize(Whites(h) + {o}, Whites(h'));
  }

  lemma SameWhites(h: Heap, h': Heap)
    requires h'.Keys == h.Keys && forall x :: x in h ==> (h'[x].colour.White? <==> h[x].colour.White?)
    ensures Whites(h') == Whites(h)
  {
  }

  /** One more object, and at most one more entry in the lists to sweep. */
  ghost predicate Grown(s: State, s': State, o: Obj) {
    && s'.phase == s.phase && s'.gray == s.gray && o !in s.heap && s'.heap.Keys == s.heap.Keys + {o}
    && (forall x :: x in s.heap ==> s'.heap[x].colour == s.heap[x].colour)
    && s'.strsize == s.strsize && s'.sweepstr == s.sweepstr
    && Left(|s'.rootgc|, s'.sweepgc) + |s'.uvhead| <= Left(|s.rootgc|, s.sweepgc) + |s.uvhead| + 1
  }

  lemma PushGrown(s: State, s1: State, o: Obj)
    requires Grown(s, s1, o)
    ensures Grown(s, Push(s1, o), o)
  {
  }

  lemma AllocationIs(s: State, a: Action)
    requires Enabled(s, a) && Allocates(a)
    ensures Grown(s, Apply(s, a), a.o)
  {
    hide Reachable, IndexOf, AllReachable, Push;
    match a {
      case New(o, kind, refs) => PushGrown(s, Link(s, o, kind, refs), o);
      case NewUserdata(o, refs) => PushGrown(s, LinkUserdata(s, o, refs), o);
      case NewString(o, bucket) => PushGrown(s, LinkString(s, o, bucket), o);
      case NewOpen(o, refs) => PushGrown(s, LinkOpen(s, o, refs), o);
    }
  }

  /** The steps that neither mark nor allocate: colours and lists stay as they are. */
  predicate Plain(a: Action) {
    && !Allocates(a) && !a.Collect? && !a.RestartCycle? && !a.FullMark? && !a.StoreInto? && !a.Close?
  }

  ghost predicate Unmoved(s: State, s': State) {
    && s'.phase == s.phase && s'.gray == s.gray && s'.heap.Keys == s.heap.Keys
    && (forall x :: x in s.heap ==> (s'.heap[x].colour.White? <==> s.heap[x].colour.White?))
    && s'.rootgc == s.rootgc && s'.sweepgc == s.sweepgc && s'.uvhead == s.uvhead
    && s'.sweepstr == s.sweepstr && (s.phase.SweepString? ==> s'.strsize == s.strsize)
  }

  lemma UnmovedTrans(s: State, s1: State, s2: State)
    requires Unmoved(s, s1) && Unmoved(s1, s2)
    ensures Unmoved(s, s2)
  {
  }

  lemma SetRefsUnmoved(s: State, o: Obj, refs: seq<Obj>)
    requires o in s.heap
    ensures Unmoved(s, SetRefs(s, o, refs))
  {
  }

  lemma PushUnmoved(s: State, o: Obj)
    ensures Unmoved(s, Push(s, o))
  {
  }

  lemma ResurrectUnmoved(s: State, o: Obj)
    ensures Unmoved(s, Resurrect(s, o))
  {
  }

  lemma ResizeUnmoved(s: State, size: nat, hash: map<Obj, nat>)
    ensures Unmoved(s, Resize(s, size, hash))
  {
  }

  lemma FixUnmoved(s: State, o: Obj)
    requires o in s.heap
    ensures Unmoved(s, FixString(s, o))
  {
  }

  lemma PlainIs(s: State, a: Action)
    requires Enabled(s, a) && Plain(a)
    ensures Unmoved(s, Apply(s, a))
  {
    hide Reachable, AllReachable, Push, Resurrect, Resize, SetRefs, FixString, Unmoved;
    match a {
      case Intern(o) =>
        ResurrectUnmoved(s, o);
        PushUnmoved(Resurrect(s, o), o);
        UnmovedTrans(s, Resurrect(s, o), Apply(s, a));
      case FindOpen(o, refs) =>
        var s1 := SetRefs(s, o, refs);
        SetRefsUnmoved(s, o, refs);
        ResurrectUnmoved(s1, o);
        PushUnmoved(Resurrect(s1, o), o);
        UnmovedTrans(s, s1, Resurrect(s1, o));
        UnmovedTrans(s, Resurrect(s1, o), Apply(s, a));
      case WriteStack(o, refs) => SetRefsUnmoved(s, o, refs);
      case WriteOpen(o, refs) => SetRefsUnmoved(s, o, refs);
      case Drop(o, refs) => SetRefsUnmoved(s, o, refs);
      case SetMetatables(_) => RootsUnmoved(s, Apply(s, a));
      case Switch(_) => RootsUnmoved(s, Apply(s, a));
      case ResizeStrings(size, hash) => ResizeUnmoved(s, size, hash);
      case Fix(o) => FixUnmoved(s, o);
    }
  }

  lemma RootsUnmoved(s: State, s': State)
    requires s' == s.(running := s'.running, mt := s'.mt)
    ensures Unmoved(s, s')
  {
  }

  lemma MarkPhase(s: State, a: Action)
    requires Inv(s) && Enabled(s, a) && s.phase.Propagate? && Apply(s, a).phase.Propagate?
    ensures Lowers(s, a)
  {
    hide MarkAll, Mark, Whites, Inv, Reachable, PropagateAll, RemarkUpvals, Store, CloseUpval, Push, SetRefs, Link,
      LinkUserdata, LinkString, LinkOpen, Resurrect, Resize;
    var s' := Apply(s, a);
    if Allocates(a) {
      AllocationIs(s, a);
      NewWhites(s.heap, s'.heap, a.o);
    } else if Plain(a) {
      PlainIs(s, a);
      SameWhites(s.heap, s'.heap);
    } else {
      match a {
        case Collect => PropagateLowers(s);
        case StoreInto(o, refs, v) => StoreLowers(s, o, refs, v);
        case Close(o) => CloseLowers(s, o);
        case _ =>
      }
    }
  }

  /** A collector step uses up potential, allocation adds one unit, nothing else adds any. */
  ghost predicate Lowers(s: State, a: Action)
    requires Enabled(s, a)
  {
    Potential(Apply(s, a)) + (if a.Collect? then 1 else 0) <= Potential(s) + (if Allocates(a) then 1 else 0)
  }

  // ----- sweeping

  lemma {:induction false} StillOpenSize(h: Heap, uvs: seq<Obj>, t: Obj)
    ensures |StillOpen(h, uvs)| <= |uvs|
    ensures |StillOpen(CloseAll(h, t), uvs)| + |OpenOf(h, uvs, t)| <= |uvs|
  {
    if uvs != [] { StillOpenSize(h, uvs[1..], t); }
  }

  lemma SweepOneLowers(s: State)
    requires s.sweepgc < |s.rootgc| && s.phase.Sweep?
    ensures Potential(SweepOne(s)) < Potential(s) && SweepOne(s).phase.Sweep?
  {
    hide SweepHome, StillOpen, OpenOf, CloseAll;
    var o := s.rootgc[s.sweepgc];
    var h := SweepHome(s, OpenIn(o));
    StillOpenSize(if o in h then h[o := Whitened(s, h[o])] else h, s.uvhead, o);
    StillOpenSize(h - {o}, s.uvhead, o);
  }

  lemma {:induction false} SweepManyLowers(s: State, count: nat)
    requires s.phase.Sweep?
    ensures SweepMany(s, count).phase.Sweep? && Potential(SweepMany(s, count)) <= Potential(s)
    ensures count > 0 && s.sweepgc < |s.rootgc| ==> Potential(SweepMany(s, count)) < Potential(s)
    ensures s.sweepgc >= |s.rootgc| ==> SweepMany(s, count) == s
    decreases count
  {
    hide SweepOne, Potential;
    if count != 0 && s.sweepgc < |s.rootgc| {
      SweepOneLowers(s);
      SweepManyLowers(SweepOne(s), count - 1);
    }
  }

  lemma {:induction false} WithoutSize(l: seq<Obj>, o: Obj)
    ensures |Without(l, o)| <= |l| && (o in l ==> |Without(l, o)| < |l|)
  {
    if l != [] { WithoutSize(l[1..], o); }
  }

  lemma SweepPhase(s: State, a: Action)
    requires Inv(s) && Enabled(s, a) && s.phase.Sweep? && Apply(s, a).phase.Sweep?
    ensures Lowers(s, a)
  {
    hide MarkAll, Mark, SweepMany, Safe, PhaseInv, Reachable, Without, Push, SetRefs, Link, LinkUserdata, LinkString,
      LinkOpen, Resurrect, Resize;
    if Allocates(a) {
      AllocationIs(s, a);
    } else if Plain(a) {
      PlainIs(s, a);
    } else {
      match a {
        case Collect => SweepManyLowers(s, GCSWEEPMAX);
        case Close(o) => WithoutSize(s.uvhead, o); assert o in s.uvhead;
        case StoreInto(o, refs, v) => StoreSweep(s, o, refs, v);
        case _ =>
      }
    }
  }

  lemma StoreSweep(s: State, o: Obj, refs: seq<Obj>, v: Obj)
    requires o in s.heap && !s.phase.Propagate?
    ensures var s' := Store(s, o, refs, v);
            && s'.phase == s.phase && s'.rootgc == s.rootgc && s'.sweepgc == s.sweepgc && s'.uvhead == s.uvhead
            && s'.strsize == s.strsize && s'.sweepstr == s.sweepstr
  {
    hide Mark;
  }

  /** In every phase, whatever collector or program do next. */
  lemma PotentialLowers(s: State, a: Action)
    requires Inv(s) && Enabled(s, a) && Apply(s, a).phase == s.phase
    ensures Lowers(s, a)
  {
    hide Inv, Reachable;
    match s.phase
    case Propagate => MarkPhase(s, a);
    case Sweep => SweepPhase(s, a);
    case _ => QuietPhase(s, a);
  }

  lemma QuietPhase(s: State, a: Action)
    requires Enabled(s, a) && Apply(s, a).phase == s.phase && !s.phase.Propagate? && !s.phase.Sweep?
    ensures Lowers(s, a)
  {
    hide MarkAll, Mark, Reachable, SweepHome;
  }

  /** Only the collector moves on to another phase. */
  lemma ProgramKeepsPhase(s: State, a: Action)
    requires Enabled(s, a) && !a.Collect? && !a.RestartCycle? && !a.FullMark?
    ensures Apply(s, a).phase == s.phase
  {
    hide MarkAll, Mark, Reachable;
  }

  // ----- runs

  function Collects(acts: seq<Action>, i: nat, j: nat): nat
    requires i <= j <= |acts|
    decreases j
  {
    if i == j then 0 else Collects(acts, i, j - 1) + if acts[j - 1].Collect? then 1 else 0
  }

  function Allocations(acts: seq<Action>, i: nat, j: nat): nat
    requires i <= j <= |acts|
    decreases j
  {
    if i == j then 0 else Allocations(acts, i, j - 1) + if Allocates(acts[j - 1]) then 1 else 0
  }

  lemma {:induction false} StretchLowers(states: seq<State>, acts: seq<Action>, i: nat, j: nat)
    requires IsRun(states, acts) && i <= j <= |acts| && forall k :: i <= k <= j ==> states[k].phase == states[i].phase
    ensures Potential(states[j]) + Collects(acts, i, j) <= Potential(states[i]) + Allocations(acts, i, j)
    decreases j
  {
    hide Inv, Enabled, Apply, Potential;
    if i < j {
      StretchLowers(states, acts, i, j - 1);
      RunInv(states, acts, j - 1);
      assert Enabled(states[j - 1], acts[j - 1]) && states[j] == Apply(states[j - 1], acts[j - 1]);
      PotentialLowers(states[j - 1], acts[j - 1]);
    }
  }

  /** In every run every phase ends: the collector takes at most as many steps in it as it had
      to do at its start, plus one for each object allocated meanwhile, plus the last one. */
  lemma PhaseEnds(states: seq<State>, acts: seq<Action>, i: nat, j: nat)
    requires IsRun(states, acts) && i <= j <= |acts| && forall k :: i <= k < j ==> states[k].phase == states[i].phase
    ensures Collects(acts, i, j) <= Potential(states[i]) + Allocations(acts, i, j) + 1
  {
    hide IsRun, Potential;
    if i < j { StretchLowers(states, acts, i, j - 1); }
  }
}
