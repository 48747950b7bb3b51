/** The collector as a state machine: its phases, and the mutator steps that may come between
    any two of its steps. */
module GcState {
  import opened Common
  import opened GcMark

  datatype Phase = Pause | Propagate | SweepString | Sweep | Finalize

  datatype State = State(
    heap: Heap,
    white: bool,              // the shade given to new objects
    phase: Phase,
    gray: seq<Obj>,
    grayagain: seq<Obj>,
    rootgc: seq<Obj>,         // every object that is neither a string nor an open upvalue
    sweepgc: nat,             // how many objects of rootgc the sweep has passed
    strsize: nat,             // number of buckets of the string table
    sweepstr: nat,            // next bucket to sweep
    uvhead: seq<Obj>,         // every open upvalue
    main: Obj, running: Obj, registry: Obj, mt: seq<Obj>)

  const GCSWEEPMAX: nat := 40

  predicate Dead(h: Heap, white: bool, o: Obj) {
    o in h && h[o].colour == White(!white) && !h[o].fixed
  }

  function Roots(s: State): seq<Obj> {
    [s.main, s.running, s.registry] + s.mt
  }

  // ----- marking steps

  function Marks(s: State): Marking { Marking(s.heap, s.gray) }

  function With(s: State, m: Marking): State { s.(heap := m.heap, gray := m.gray) }

  function RefsOf(h: Heap, o: Obj): seq<Obj> {
    if o in h then h[o].refs else []
  }

  /** markroot: the first reference of a thread is its table of globals. */
  function MarkRoot(s: State): State {
    var globals := if RefsOf(s.heap, s.main) == [] then [] else [s.heap[s.main].refs[0]];
    With(s.(grayagain := [], phase := Propagate),
      MarkAll(Marking(s.heap, []), [s.main] + globals + [s.registry] + s.mt))
  }

  /** propagatemark: a thread stays gray and is put by for the atomic step. */
  function PropagateMark(s: State): State
    requires s.gray != []
  {
    var o := s.gray[0];
    if o in s.heap && s.heap[o].kind.Thread? then
      With(s.(grayagain := [o] + s.grayagain), MarkAll(Marking(s.heap, s.gray[1..]), RefsOf(s.heap, o)))
    else
      With(s, MarkAll(Marking(Paint(s.heap, o, Black), s.gray[1..]), RefsOf(s.heap, o)))
  }

  lemma PropagateCounts(s: State)
    requires s.gray != []
    ensures var s' := PropagateMark(s);
            |Whites(s'.heap)| < |Whites(s.heap)| || (|Whites(s'.heap)| == |Whites(s.heap)| && |s'.gray| < |s.gray|)
  {
    var o := s.gray[0];
    PaintWhites(s.heap, o, Black);
    var m := if o in s.heap && s.heap[o].kind.Thread? then Marking(s.heap, s.gray[1..])
                                                      else Marking(Paint(s.heap, o, Black), s.gray[1..]);
    if |Whites(MarkAll(m, RefsOf(s.heap, o)).heap)| == |Whites(m.heap)| { MarkIdle(m, RefsOf(s.heap, o)); }
  }

  function PropagateAll(s: State): State
    decreases |Whites(s.heap)|, |s.gray|
  {
    if s.gray == [] then s else PropagateCounts(s); PropagateAll(PropagateMark(s))
  }

  /** remarkupvals: values of gray open upvalues, whose threads may be dead. */
  function RemarkUpvals(m: Marking, uvs: seq<Obj>): Marking
    decreases |uvs|
  {
    if uvs == [] then m
    else
      var u := uvs[0];
      RemarkUpvals(if u in m.heap && m.heap[u].colour.Gray? then MarkAll(m, m.heap[u].refs) else m, uvs[1..])
  }

  function Atomic(s: State): State {
    var s1 := PropagateAll(With(s, RemarkUpvals(Marks(s), s.uvhead)));
    var s2 := PropagateAll(With(s1, MarkAll(Marking(s1.heap, []), [s.running] + s.mt)));
    var s3 := PropagateAll(s2.(gray := s2.grayagain, grayagain := []));
    s3.(white := !s.white, sweepstr := 0, sweepgc := 0, phase := SweepString)
  }

  // ----- invariants of the mark phase

  /** What is gray waits in a list, what is black has nothing white below it. */
  ghost predicate ColourInv(s: State) {
    ColourInvBut(s, {})
  }

  ghost predicate ColourInvBut(s: State, but: set<Obj>) {
    && GrayOk(Marks(s)) && GrayOk(Marking(s.heap, s.grayagain))
    && (forall o :: o in s.gray ==> o !in s.grayagain)
    && (forall o :: o in s.heap && o !in but ==> WellColoured(s.heap, s.gray + s.grayagain, o))
  }

  /** Gray upvalues, but for those of todo, have their value marked. */
  ghost predicate UpvalsDone(s: State, todo: seq<Obj>) {
    forall o :: o in s.heap && s.heap[o].colour.Gray? && s.heap[o].kind.Upval? && o !in todo ==> RefsMarked(s.heap, o)
  }

  /** Everything put by for the atomic step has its references marked. */
  ghost predicate AgainDone(s: State) {
    forall o :: o in s.grayagain ==> RefsMarked(s.heap, o)
  }

  lemma MarkedLists(s: State, but: set<Obj>, m: Marking)
    requires ColourInvBut(s, but) && Extends(Marks(s), m) && GrayOk(m)
    ensures var s' := With(s, m);
            GrayOk(Marks(s')) && GrayOk(Marking(s'.heap, s'.grayagain)) && forall o :: o in s'.gray ==>
              o !in s'.grayagain
  {
  }

  lemma MarkedColours(s: State, but: set<Obj>, m: Marking)
    requires ColourInvBut(s, but) && Colours(Marks(s), m) && forall o :: o in but ==> !IsWhite(s.heap, o)
    ensures forall o :: o in m.heap && o !in but ==> WellColoured(m.heap, m.gray + s.grayagain, o)
  {
    hide GrayOk;
    forall o | o in m.heap && o !in but ensures WellColoured(m.heap, m.gray + s.grayagain, o) {
      assert o in s.heap && WellColoured(s.heap, s.gray + s.grayagain, o);
      if IsWhite(s.heap, o) && !IsWhite(m.heap, o) {
        assert WellColoured(m.heap, m.gray, o);
      } else {
        assert m.heap[o] == s.heap[o];
      }
    }
  }

  lemma MarkedDone(s: State, but: set<Obj>, todo: seq<Obj>, m: Marking)
    requires ColourInvBut(s, but) && Colours(Marks(s), m)
    ensures UpvalsDone(s, todo) ==> UpvalsDone(With(s, m), todo)
    ensures AgainDone(s) ==> AgainDone(With(s, m))
  {
  }

  /** Marking from a fine state leads to a fine state. */
  lemma MarkStep(s: State, but: set<Obj>, todo: seq<Obj>, rs: seq<Obj>)
    requires ColourInvBut(s, but) && forall o :: o in but ==> !IsWhite(s.heap, o)
    ensures var s' := With(s, MarkAll(Marks(s), rs));
            && ColourInvBut(s', but) && (UpvalsDone(s, todo) ==> UpvalsDone(s', todo))
               && (AgainDone(s) ==> AgainDone(s'))
            && (forall i :: 0 <= i < |rs| ==> !IsWhite(s'.heap, rs[i]))
            && Extends(Marks(s), Marks(s'))
  {
    hide MarkAll, GrayOk, WellColoured, UpvalsDone, AgainDone, Extends;
    MarkAllColours(Marks(s), rs);
    var m := MarkAll(Marks(s), rs);
    MarkedLists(s, but, m);
    MarkedColours(s, but, m);
    MarkedDone(s, but, todo, m);
    assert Marks(With(s, m)) == m;
  }

  /** Marked below stays marked below. */
  lemma RefsStay(m: Marking, m': Marking, o: Obj)
    requires Extends(m, m') && RefsMarked(m.heap, o)
    ensures RefsMarked(m'.heap, o)
  {
  }

  /** What one step of the mark phase may do to the heap. */
  ghost predicate MarksOnly(s: State, s': State) {
    && SameShape(s.heap, s'.heap)
    && (forall o :: o in s.heap && !IsWhite(s.heap, o) ==> !IsWhite(s'.heap, o))
    && (forall o :: o in s.heap && IsWhite(s'.heap, o) ==> s'.heap[o] == s.heap[o])
  }

  ghost predicate SameButMarks(s: State, s': State) {
    s' == s.(heap := s'.heap, gray := s'.gray, grayagain := s'.grayagain)
  }

  lemma TraverseThread(s: State)
    requires ColourInv(s) && s.gray != [] && s.gray[0] in s.heap && s.heap[s.gray[0]].kind.Thread?
    ensures var s' := PropagateMark(s);
            && ColourInv(s') && (UpvalsDone(s, []) ==> UpvalsDone(s', [])) && (AgainDone(s) ==> AgainDone(s'))
            && MarksOnly(s, s')
  {
    hide MarkAll, WellColoured, GrayOk;
    var o := s.gray[0];
    var s1 := s.(gray := s.gray[1..], grayagain := [o] + s.grayagain);
    assert s.gray == [o] + s.gray[1..];
    Requeue(s);
    MarkStep(s1, {}, [], s.heap[o].refs);
    assert PropagateMark(s) == With(s1, MarkAll(Marks(s1), s.heap[o].refs));
    if AgainDone(s) {
      forall x | x in s.grayagain ensures RefsMarked(PropagateMark(s).heap, x) {
        RefsStay(Marks(s1), Marks(PropagateMark(s)), x);
      }
    }
  }

  lemma Requeue(s: State)
    requires ColourInv(s) && s.gray != []
    ensures ColourInv(s.(gray := s.gray[1..], grayagain := [s.gray[0]] + s.grayagain))
  {
    var o := s.gray[0];
    var s1 := s.(gray := s.gray[1..], grayagain := [o] + s.grayagain);
    assert s.gray == [o] + s.gray[1..];
    assert o in s.gray && o !in s.grayagain;
    assert forall i :: 0 <= i < |s.grayagain| ==> s.grayagain[i] in s.grayagain;
    assert Distinct([o] + s.grayagain);
    assert forall x :: x in s.gray + s.grayagain <==> x in s1.gray + s1.grayagain;
  }

  lemma HeadGray(s: State)
    requires ColourInv(s) && s.gray != []
    ensures s.gray[0] in s.heap && s.heap[s.gray[0]].colour.Gray? && Listed(s.heap[s.gray[0]].kind)
  {
    assert s.gray[0] in s.gray;
  }

  lemma Popped(s: State)
    requires ColourInv(s) && s.gray != []
    ensures ColourInvBut(s.(heap := Paint(s.heap, s.gray[0], Black), gray := s.gray[1..]), {s.gray[0]})
  {
    var o := s.gray[0];
    assert s.gray == [o] + s.gray[1..];
    var s1 := s.(heap := Paint(s.heap, o, Black), gray := s.gray[1..]);
    forall x | x in s1.heap && x != o ensures WellColoured(s1.heap, s1.gray + s1.grayagain, x) {
      assert WellColoured(s.heap, s.gray + s.grayagain, x);
    }
  }

  lemma PoppedDone(s: State)
    requires s.gray != [] && s.gray[0] in s.heap && !IsWhite(s.heap, s.gray[0])
    ensures var s1 := s.(heap := Paint(s.heap, s.gray[0], Black), gray := s.gray[1..]);
            (UpvalsDone(s, []) ==> UpvalsDone(s1, [])) && (AgainDone(s) ==> AgainDone(s1)) && MarksOnly(s, s1)
  {
  }

  lemma MarksOnlyTrans(s: State, s1: State, s2: State)
    requires MarksOnly(s, s1) && MarksOnly(s1, s2)
    ensures MarksOnly(s, s2)
  {
  }

  lemma ExtendsMarks(s: State, s': State)
    requires Extends(Marks(s), Marks(s'))
    ensures MarksOnly(s, s')
  {
  }

  lemma Settle(s: State, o: Obj)
    requires ColourInvBut(s, {o}) && (o in s.heap ==> WellColoured(s.heap, s.gray + s.grayagain, o))
    ensures ColourInv(s)
  {
  }

  lemma TraverseOther(s: State)
    requires ColourInv(s) && s.gray != [] && s.gray[0] in s.heap && !s.heap[s.gray[0]].kind.Thread?
    ensures var s' := PropagateMark(s);
            && ColourInv(s') && (UpvalsDone(s, []) ==> UpvalsDone(s', [])) && (AgainDone(s) ==> AgainDone(s'))
            && MarksOnly(s, s')
  {
    hide MarkAll, GrayOk, ColourInv, ColourInvBut, MarksOnly, UpvalsDone, AgainDone;
    HeadGray(s);
    var o := s.gray[0];
    var s1 := s.(heap := Paint(s.heap, o, Black), gray := s.gray[1..]);
    Popped(s);
    PoppedDone(s);
    MarkStep(s1, {o}, [], s.heap[o].refs);
    var s' := With(s1, MarkAll(Marks(s1), s.heap[o].refs));
    assert PropagateMark(s) == s';
    ExtendsMarks(s1, s');
    MarksOnlyTrans(s, s1, s');
    assert s'.heap[o].refs == s.heap[o].refs && RefsMarked(s'.heap, o);
    Settle(s', o);
  }

  lemma PropagateOk(s: State)
    requires ColourInv(s) && s.gray != []
    ensures var s' := PropagateMark(s);
            && ColourInv(s') && (UpvalsDone(s, []) ==> UpvalsDone(s', [])) && (AgainDone(s) ==> AgainDone(s'))
            && MarksOnly(s, s') && SameButMarks(s, s')
  {
    hide MarkAll, ColourInv, MarksOnly, UpvalsDone, AgainDone;
    HeadGray(s);
    if s.heap[s.gray[0]].kind.Thread? { TraverseThread(s); } else { TraverseOther(s); }
  }

  lemma {:induction false} PropagateAllOk(s: State)
    requires ColourInv(s)
    ensures var s' := PropagateAll(s);
            && ColourInv(s') && (UpvalsDone(s, []) ==> UpvalsDone(s', [])) && (AgainDone(s) ==> AgainDone(s'))
            && MarksOnly(s, s') && SameButMarks(s, s') && s'.gray == []
    decreases |Whites(s.heap)|, |s.gray|
  {
    hide MarkAll, ColourInv, UpvalsDone, AgainDone, PropagateMark, MarksOnly;
    if s.gray != [] {
      PropagateOk(s);
      PropagateCounts(s);
      PropagateAllOk(PropagateMark(s));
      MarksOnlyTrans(s, PropagateMark(s), PropagateAll(s));
    } else {
      MarksSelf(s);
    }
  }

  lemma MarksSelf(s: State)
    ensures MarksOnly(s, s)
  {
  }

  // ----- the atomic step

  lemma {:induction false} RemarkOk(s: State, uvs: seq<Obj>)
    requires ColourInv(s) && UpvalsDone(s, uvs)
    ensures var s' := With(s, RemarkUpvals(Marks(s), uvs));
            ColourInv(s') && MarksOnly(s, s') && UpvalsDone(s', [])
    decreases |uvs|
  {
    hide MarkAll, ColourInv, ColourInvBut, MarksOnly, GrayOk, WellColoured, Extends;
    if uvs == [] {
      MarksSelf(s);
      assert With(s, Marks(s)) == s;
    } else {
      var u := uvs[0];
      assert uvs == [u] + uvs[1..];
      if u in s.heap && s.heap[u].colour.Gray? {
        var s1 := With(s, MarkAll(Marks(s), s.heap[u].refs));
        ColourNone(s);
        MarkStep(s, {}, uvs, s.heap[u].refs);
        ColourNone(s1);
        ExtendsMarks(s, s1);
        RemarkedOne(s, s1, uvs);
        RemarkOk(s1, uvs[1..]);
        assert Marks(s1) == MarkAll(Marks(s), s.heap[u].refs);
        var s' := With(s, RemarkUpvals(Marks(s), uvs));
        assert s' == With(s1, RemarkUpvals(Marks(s1), uvs[1..]));
        MarksOnlyTrans(s, s1, s');
      } else {
        RemarkOk(s, uvs[1..]);
      }
    }
  }

  lemma ColourNone(s: State)
    ensures ColourInv(s) == ColourInvBut(s, {})
  {
  }

  lemma RemarkedOne(s: State, s1: State, uvs: seq<Obj>)
    requires uvs != [] && uvs[0] in s.heap && UpvalsDone(s1, uvs) && MarksOnly(s, s1)
    requires forall i :: 0 <= i < |s.heap[uvs[0]].refs| ==> !IsWhite(s1.heap, s.heap[uvs[0]].refs[i])
    ensures UpvalsDone(s1, uvs[1..])
  {
    assert uvs == [uvs[0]] + uvs[1..];
  }

  predicate OpenNotBlack(h: Heap) {
    forall o :: o in h && h[o].open() ==> !h[o].colour.Black?
  }

  predicate OpenUpvals(h: Heap) {
    forall o :: o in h && h[o].open() ==> h[o].kind.Upval?
  }

  lemma NoOpenBlack(s: State)
    requires ColourInv(s) && OpenUpvals(s.heap)
    ensures OpenNotBlack(s.heap)
  {
    forall o | o in s.heap && s.heap[o].open() ensures !s.heap[o].colour.Black? {
      assert WellColoured(s.heap, s.gray + s.grayagain, o);
    }
  }

  /** Everything coloured has only coloured objects below it. */
  ghost predicate Closed(s: State) {
    forall o :: o in s.heap && !IsWhite(s.heap, o) ==> RefsMarked(s.heap, o)
  }

  lemma AllTraversed(s: State)
    requires ColourInv(s) && UpvalsDone(s, []) && AgainDone(s) && s.gray == []
    requires forall o :: o in s.heap && s.heap[o].kind.String? ==> s.heap[o].refs == []
    ensures Closed(s)
  {
    forall o | o in s.heap && !IsWhite(s.heap, o) ensures RefsMarked(s.heap, o) {
      assert WellColoured(s.heap, s.gray + s.grayagain, o);
    }
  }

  lemma AgainToGray(s: State)
    requires ColourInv(s) && s.gray == []
    ensures var s' := s.(gray := s.grayagain, grayagain := []); ColourInv(s') && AgainDone(s') && MarksOnly(s, s')
    ensures UpvalsDone(s, []) ==> UpvalsDone(s.(gray := s.grayagain, grayagain := []), [])
  {
    var s' := s.(gray := s.grayagain, grayagain := []);
    assert forall x :: x in s.gray + s.grayagain <==> x in s'.gray + s'.grayagain;
  }

  /** The marking of the atomic step: afterwards every coloured object has only coloured
      objects below it, and the roots that may have changed are coloured. */
  lemma AtomicMarks(s: State)
    requires ColourInv(s) && UpvalsDone(s, s.uvhead) && OpenUpvals(s.heap)
    requires forall o :: o in s.heap && s.heap[o].kind.String? ==> s.heap[o].refs == []
    ensures var s' := Atomic(s);
            && MarksOnly(s, s') && Closed(s') && OpenNotBlack(s'.heap)
            && !IsWhite(s'.heap, s.running) && (forall i :: 0 <= i < |s.mt| ==> !IsWhite(s'.heap, s.mt[i]))
  {
    hide MarkAll, ColourInv, UpvalsDone, AgainDone, PropagateAll, RemarkUpvals, Closed, MarksOnly, OpenNotBlack;
    var s0 := With(s, RemarkUpvals(Marks(s), s.uvhead));
    RemarkOk(s, s.uvhead);
    var s1 := PropagateAll(s0);
    PropagateAllOk(s0);
    MarksOnlyTrans(s, s0, s1);
    var rs := [s.running] + s.mt;
    var t1 := With(s1, MarkAll(Marking(s1.heap, []), rs));
    ColourNone(s1);
    MarkStep(s1, {}, [], rs);
    ColourNone(t1);
    assert Marks(s1) == Marking(s1.heap, []);
    ExtendsMarks(s1, t1);
    MarksOnlyTrans(s, s1, t1);
    assert forall i :: 0 <= i < |s.mt| ==> rs[i + 1] == s.mt[i];
    assert rs[0] == s.running;
    var s2 := PropagateAll(t1);
    PropagateAllOk(t1);
    MarksOnlyTrans(s, t1, s2);
    var t2 := s2.(gray := s2.grayagain, grayagain := []);
    AgainToGray(s2);
    MarksOnlyTrans(s, s2, t2);
    var s3 := PropagateAll(t2);
    PropagateAllOk(t2);
    MarksOnlyTrans(s, t2, s3);
    ShapeKept(s, s3);
    AllTraversed(s3);
    NoOpenBlack(s3);
    StillMarked(t1, s2, rs);
    StillMarked(s2, t2, rs);
    StillMarked(t2, s3, rs);
    FlipKeeps(s, s3, Atomic(s));
  }

  lemma ShapeKept(s: State, s': State)
    requires MarksOnly(s, s')
    ensures OpenUpvals(s.heap) ==> OpenUpvals(s'.heap)
    ensures s'.heap.Keys == s.heap.Keys && forall o :: o in s.heap ==>
            s'.heap[o].kind == s.heap[o].kind && s'.heap[o].refs == s.heap[o].refs
  {
  }

  lemma StillMarked(s: State, s': State, rs: seq<Obj>)
    requires MarksOnly(s, s') && forall i :: 0 <= i < |rs| ==> !IsWhite(s.heap, rs[i])
    ensures forall i :: 0 <= i < |rs| ==> !IsWhite(s'.heap, rs[i])
  {
  }

  lemma FlipKeeps(s: State, s3: State, s': State)
    requires s'.heap == s3.heap && MarksOnly(s, s3) && Closed(s3)
    ensures MarksOnly(s, s') && Closed(s')
  {
  }
}
