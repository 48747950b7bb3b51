/** Collector and mutator interleaved: every reachable object survives, in every run. */
module GcRuns {
  import opened Common
  import opened GcMark
  import opened GcState

  // ----- sweeping

  function Whitened(s: State, x: Object): Object {
    x.(colour := White(s.white))
  }

  /** Sweeps every object linked into home: the dead are freed, the others become white. */
  function SweepHome(s: State, home: Home): Heap {
    map o | o in s.heap && !(s.heap[o].home == home && Dead(s.heap, s.white, o)) ::
      if s.heap[o].home == home then Whitened(s, s.heap[o]) else s.heap[o]
  }

  function SweepStrings(s: State): State {
    s.(heap := SweepHome(s, Bucket(s.sweepstr)), sweepstr := s.sweepstr + 1,
       phase := if s.sweepstr + 1 >= s.strsize then Sweep else s.phase)
  }

  /** The members of uvs that are linked into the open list of t. */
  function OpenOf(h: Heap, uvs: seq<Obj>, t: Obj): seq<Obj> {
    if uvs == [] then []
    else (if uvs[0] in h && h[uvs[0]].home == OpenIn(t) then [uvs[0]] else []) + OpenOf(h, uvs[1..], t)
  }

  /** The members of uvs that are still open. */
  function StillOpen(h: Heap, uvs: seq<Obj>): seq<Obj> {
    if uvs == [] then []
    else (if uvs[0] in h && h[uvs[0]].open() then [uvs[0]] else []) + StillOpen(h, uvs[1..])
  }

  /** Freeing a thread closes the upvalues that are left in its stack. */
  function CloseAll(h: Heap, t: Obj): Heap {
    map o | o in h :: if h[o].home == OpenIn(t) then h[o].(home := Root) else h[o]
  }

  /** Where the sweep stands after n objects were linked in front of rootgc. */
  function Shifted(sweepgc: nat, n: nat): nat {
    if sweepgc == 0 then 0 else sweepgc + n
  }

  /** One round of sweeplist on rootgc. */
  function SweepOne(s: State): State
    requires s.sweepgc < |s.rootgc|
  {
    var o := s.rootgc[s.sweepgc];
    var h := SweepHome(s, OpenIn(o));
    if !Dead(s.heap, s.white, o) then
      var h' := if o in h then h[o := Whitened(s, h[o])] else h;
      s.(heap := h', uvhead := StillOpen(h', s.uvhead), sweepgc := s.sweepgc + 1)
    else
      var h' := CloseAll(h - {o}, o);
      var ups := OpenOf(h - {o}, s.uvhead, o);
      s.(heap := h', uvhead := StillOpen(h', s.uvhead),
         rootgc := ups + s.rootgc[..s.sweepgc] + s.rootgc[s.sweepgc + 1..], sweepgc := Shifted(s.sweepgc, |ups|))
  }

  function SweepMany(s: State, count: nat): State
    decreases count
  {
    if count == 0 || s.sweepgc >= |s.rootgc| then s else SweepMany(SweepOne(s), count - 1)
  }

  function SingleStep(s: State): State {
    match s.phase
    case Pause => MarkRoot(s)
    case Propagate => if s.gray != [] then PropagateMark(s) else Atomic(s)
    case SweepString => SweepStrings(s)
    case Sweep =>
      var s1 := SweepMany(s, GCSWEEPMAX);
      if s1.sweepgc >= |s1.rootgc| then s1.(phase := Finalize) else s1
    case Finalize => s.(phase := Pause)
  }

  // ----- invariants

  predicate Alive(h: Heap, white: bool, o: Obj) {
    o in h && !Dead(h, white, o)
  }

  /** Each object is in the list its kind calls for, and the lists hold nothing else. */
  ghost predicate Linked(h: Heap, rootgc: seq<Obj>, uvhead: seq<Obj>) {
    && Distinct(rootgc) && (forall o :: o in rootgc <==> o in h && h[o].home.Root?)
    && Distinct(uvhead) && (forall o :: o in uvhead <==> o in h && h[o].open())
  }

  predicate ObjectOk(h: Heap, strsize: nat, main: Obj, o: Obj)
    requires o in h
  {
    var x := h[o];
    (x.fixed ==> x.kind.String? || o == main) &&
    match x.home
    case Root => !x.kind.String?
    case Bucket(i) => x.kind.String? && x.refs == [] && i < strsize
    case OpenIn(t) => x.kind.Upval? && t in h && h[t].kind.Thread?
  }

  ghost predicate Lists(s: State) {
    && Linked(s.heap, s.rootgc, s.uvhead) && s.sweepgc <= |s.rootgc| && s.strsize > 0
    && (forall o :: o in s.heap ==> ObjectOk(s.heap, s.strsize, s.main, o))
  }

  predicate RefsAlive(h: Heap, white: bool, o: Obj)
    requires o in h
  {
    forall i :: 0 <= i < |h[o].refs| ==> Alive(h, white, h[o].refs[i])
  }

  /** Whatever is alive refers only to what is alive. */
  ghost predicate SafeHeap(h: Heap, white: bool) {
    forall o :: Alive(h, white, o) ==> RefsAlive(h, white, o)
  }

  ghost predicate Safe(s: State) {
    && SafeHeap(s.heap, s.white) && s.running in s.heap && s.heap[s.running].kind.Thread?
    && s.main in s.heap && s.heap[s.main].kind.Thread?
    && (forall i :: 0 <= i < |Roots(s)| ==> Alive(s.heap, s.white, Roots(s)[i]))
  }

  /** The sweep still has to visit o. */
  predicate Pending(s: State, o: Obj)
    requires o in s.heap && s.sweepgc <= |s.rootgc|
  {
    match s.phase
    case SweepString => (match s.heap[o].home case Bucket(i) => s.sweepstr <= i case _ => true)
    case Sweep =>
      (match s.heap[o].home
       case Root => o in s.rootgc[s.sweepgc..]
       case Bucket(_) => false
       case OpenIn(t) => t in s.rootgc[s.sweepgc..])
    case _ => false
  }

  ghost predicate PhaseInv(s: State)
    requires s.sweepgc <= |s.rootgc|
  {
    if s.phase.Propagate? then
      && ColourInv(s) && !IsWhite(s.heap, s.main) && !IsWhite(s.heap, s.registry)
      && (forall o :: IsWhite(s.heap, o) ==> s.heap[o].colour == White(s.white))
    else
      && (s.phase.SweepString? ==> s.sweepgc == 0) && OpenNotBlack(s.heap)
      && (forall o :: o in s.heap ==> Pending(s, o) || s.heap[o].colour == White(s.white))
  }

  ghost predicate Inv(s: State) {
    Lists(s) && Safe(s) && PhaseInv(s)
  }

  // ----- reachability

  ghost predicate ClosedSet(s: State, c: set<Obj>) {
    && (forall i :: 0 <= i < |Roots(s)| ==> Roots(s)[i] in c)
    && (forall o, i :: o in c && o in s.heap && 0 <= i < |s.heap[o].refs| ==> s.heap[o].refs[i] in c)
  }

  /** o belongs to every set that holds the roots and is closed under references. */
  ghost predicate Reachable(s: State, o: Obj) {
    forall c: set<Obj> :: ClosedSet(s, c) ==> o in c
  }

  lemma ReachableAlive(s: State, o: Obj)
    requires Safe(s) && Reachable(s, o)
    ensures Alive(s.heap, s.white, o)
  {
    var c := set x | x in s.heap && Alive(s.heap, s.white, x);
    assert ClosedSet(s, c) by {
      forall x, i | x in c && x in s.heap && 0 <= i < |s.heap[x].refs| ensures s.heap[x].refs[i] in c {
        assert RefsAlive(s.heap, s.white, x);
      }
    }
  }

  // ----- steps of the collector

  /** Marking keeps the lists. */
  lemma MarksLists(s: State, s': State)
    requires Lists(s) && MarksOnly(s, s') && s'.rootgc == s.rootgc && s'.uvhead == s.uvhead
             && (s'.sweepgc == s.sweepgc || s'.sweepgc == 0) && s'.strsize == s.strsize && s'.main == s.main
    ensures Lists(s')
  {
    assert forall o :: o in s.heap ==> s'.heap[o] == s.heap[o].(colour := s'.heap[o].colour);
    forall o | o in s'.heap
      ensures ObjectOk(s'.heap, s'.strsize, s'.main, o)
    {
      assert ObjectOk(s.heap, s.strsize, s.main, o);
    }
  }

  /** While marking nothing is dead. */
  ghost predicate NoneDead(h: Heap, white: bool) {
    forall o :: o in h ==> !Dead(h, white, o)
  }

  lemma MarksSafe(s: State, s': State)
    requires Safe(s) && NoneDead(s.heap, s.white) && MarksOnly(s, s')
    requires s'.white == s.white && s'.running == s.running && s'.main == s.main && Roots(s') == Roots(s)
    ensures Safe(s') && NoneDead(s'.heap, s'.white)
  {
    assert forall o :: o in s.heap ==> s'.heap[o] == s.heap[o].(colour := s'.heap[o].colour);
    assert forall o :: o in s'.heap ==> !Dead(s'.heap, s'.white, o);
    forall o | Alive(s'.heap, s'.white, o)
      ensures RefsAlive(s'.heap, s'.white, o)
    {
      assert RefsAlive(s.heap, s.white, o);
    }
  }

  lemma AllWhite(s: State)
    requires forall o :: o in s.heap ==> s.heap[o].colour == White(s.white)
    ensures ColourInv(s.(gray := [], grayagain := [])) && NoneDead(s.heap, s.white)
  {
  }

  lemma MarkRootInv(s: State)
    requires Inv(s) && (s.phase.Pause? || s.phase.Finalize?)
    ensures Inv(MarkRoot(s))
  {
    hide MarkAll, ColourInv, ColourInvBut, MarksOnly, Lists, Safe, Extends, NoneDead;
    var s0 := s.(gray := [], grayagain := []);
    AllWhite(s);
    var globals := if RefsOf(s.heap, s.main) == [] then [] else [s.heap[s.main].refs[0]];
    var rs := [s.main] + globals + [s.registry] + s.mt;
    var s' := With(s0, MarkAll(Marks(s0), rs));
    ColourNone(s0);
    MarkStep(s0, {}, [], rs);
    ColourNone(s');
    ExtendsMarks(s0, s');
    var s1 := s'.(phase := Propagate);
    assert MarkRoot(s) == s1;
    SameHeap(s0, s);
    SameHeap(s', s1);
    MarksOnlyTrans(s, s0, s');
    MarksOnlyTrans(s, s', s1);
    MarksLists(s, s1);
    MarksSafe(s, s1);
    assert rs[0] == s.main && rs[1 + |globals|] == s.registry;
    ColourSame(s', s1);
    WhitesShade(s, s1);
  }

  lemma SameHeap(s: State, s': State)
    requires s.heap == s'.heap
    ensures MarksOnly(s, s') && MarksOnly(s', s)
  {
  }

  lemma ColourSame(s: State, s': State)
    requires ColourInv(s) && s'.heap == s.heap && s'.gray == s.gray && s'.grayagain == s.grayagain
    ensures ColourInv(s')
  {
    assert Marks(s) == Marks(s');
  }

  lemma WhitesShade(s: State, s': State)
    requires MarksOnly(s, s') && forall o :: IsWhite(s.heap, o) ==> s.heap[o].colour == White(s.white)
    ensures forall o :: IsWhite(s'.heap, o) ==> s'.heap[o].colour == White(s.white)
  {
  }

  lemma PropagateInv(s: State)
    requires Inv(s) && s.phase.Propagate? && s.gray != []
    ensures Inv(PropagateMark(s))
  {
    hide MarkAll, PropagateMark, ColourInv, MarksOnly, Lists, Safe, NoneDead;
    var s' := PropagateMark(s);
    PropagateOk(s);
    WhitesAlive(s);
    MarksLists(s, s');
    MarksSafe(s, s');
    WhitesShade(s, s');
    StillMarked(s, s', [s.main, s.registry]);
    var rs := [s.main, s.registry];
    assert !IsWhite(s'.heap, rs[0]) && !IsWhite(s'.heap, rs[1]);
  }

  lemma WhitesAlive(s: State)
    requires forall o :: IsWhite(s.heap, o) ==> s.heap[o].colour == White(s.white)
    ensures NoneDead(s.heap, s.white)
  {
  }

  lemma UpvalsListed(s: State)
    requires ColourInv(s) && Lists(s)
    ensures UpvalsDone(s, s.uvhead) && OpenUpvals(s.heap)
    ensures forall o :: o in s.heap && s.heap[o].kind.String? ==> s.heap[o].refs == []
  {
    forall o | o in s.heap && s.heap[o].open()
      ensures s.heap[o].kind.Upval?
    {
      assert ObjectOk(s.heap, s.strsize, s.main, o);
    }
    forall o | o in s.heap && s.heap[o].colour.Gray? && s.heap[o].kind.Upval? ensures o in s.uvhead {
      assert WellColoured(s.heap, s.gray + s.grayagain, o);
    }
    forall o | o in s.heap && s.heap[o].kind.String?
      ensures s.heap[o].refs == []
    {
      assert ObjectOk(s.heap, s.strsize, s.main, o);
    }
  }

  /** Changing the current white makes the whites dead; what is coloured is closed. */
  lemma FlipSafe(s: State, s': State)
    requires Lists(s) && Safe(s) && MarksOnly(s, s') && Closed(s') && s'.white != s.white && Roots(s') == Roots(s)
             && s'.running == s.running && s'.main == s.main
    requires forall o :: IsWhite(s.heap, o) ==> s.heap[o].colour == White(s.white)
    requires forall i :: 0 <= i < |Roots(s)| ==> !IsWhite(s'.heap, Roots(s)[i])
    ensures Safe(s')
  {
    var h, w := s'.heap, s'.white;
    assert forall o :: o in s.heap ==> h[o] == s.heap[o].(colour := h[o].colour);
    assert s.main == Roots(s)[0];
    forall o | Alive(h, w, o) ensures RefsAlive(h, w, o) {
      assert ObjectOk(s.heap, s.strsize, s.main, o);
      if !IsWhite(h, o) {
        assert RefsMarked(h, o);
        assert Alive(s.heap, s.white, o) && RefsAlive(s.heap, s.white, o);
      }
    }
    forall i | 0 <= i < |Roots(s')| ensures Alive(h, w, Roots(s')[i]) {
      assert Alive(s.heap, s.white, Roots(s)[i]);
    }
  }

  lemma AtomicInv(s: State)
    requires Inv(s) && s.phase.Propagate? && s.gray == []
    ensures Inv(Atomic(s))
  {
    hide MarkAll, Atomic, ColourInv, MarksOnly, Lists, Safe, Closed, OpenNotBlack;
    var s' := Atomic(s);
    UpvalsListed(s);
    AtomicMarks(s);
    AtomicFrame(s);
    MarksLists(s, s');
    var rs := [s.main, s.registry];
    StillMarked(s, s', rs);
    assert !IsWhite(s'.heap, rs[0]) && !IsWhite(s'.heap, rs[1]);
    forall i | 0 <= i < |Roots(s)| ensures !IsWhite(s'.heap, Roots(s)[i]) {
      assert i >= 3 ==> Roots(s)[i] == s.mt[i - 3];
    }
    FlipSafe(s, s');
    SweepStarts(s');
  }

  lemma SweepStarts(s: State)
    requires s.phase.SweepString? && s.sweepgc == 0 && s.sweepstr == 0 && OpenNotBlack(s.heap)
    ensures PhaseInv(s)
  {
  }

  lemma AtomicFrame(s: State)
    requires ColourInv(s) && UpvalsDone(s, s.uvhead)
    ensures var s' := Atomic(s);
            s' == s.(heap := s'.heap, gray := s'.gray, grayagain := s'.grayagain, white := !s.white, sweepstr := 0,
              sweepgc := 0, phase := SweepString)
  {
    hide MarkAll, ColourInv, PropagateAll, RemarkUpvals, UpvalsDone;
    PropagateFrame(With(s, RemarkUpvals(Marks(s), s.uvhead)));
    var s1 := PropagateAll(With(s, RemarkUpvals(Marks(s), s.uvhead)));
    PropagateFrame(With(s1, MarkAll(Marking(s1.heap, []), [s.running] + s.mt)));
    var s2 := PropagateAll(With(s1, MarkAll(Marking(s1.heap, []), [s.running] + s.mt)));
    PropagateFrame(s2.(gray := s2.grayagain, grayagain := []));
  }

  lemma {:induction false} PropagateFrame(s: State)
    ensures SameButMarks(s, PropagateAll(s))
    decreases |Whites(s.heap)|, |s.gray|
  {
    hide MarkAll;
    if s.gray != [] {
      PropagateCounts(s);
      PropagateFrame(PropagateMark(s));
    }
  }

  // ----- sweeping

  /** Sweeping a list frees dead objects only and changes nothing but colours. */
  lemma SweepHomeKeeps(s: State, home: Home)
    ensures var h := SweepHome(s, home);
            && h.Keys <= s.heap.Keys
            && (forall o :: o in h ==> h[o] == s.heap[o].(colour := h[o].colour))
            && (forall o :: o in s.heap && o !in h ==> Dead(s.heap, s.white, o) && s.heap[o].home == home)
            && (forall o :: o in h && s.heap[o].home != home ==> h[o] == s.heap[o])
            && (forall o :: o in h && s.heap[o].home == home ==> h[o].colour == White(s.white))
            && (forall o :: Alive(h, s.white, o) <==> Alive(s.heap, s.white, o))
  {
  }

  /** A heap with the same live objects and the same references is as safe. */
  lemma SameAlive(h: Heap, h': Heap, white: bool)
    requires SafeHeap(h, white)
    requires forall o :: Alive(h', white, o) <==> Alive(h, white, o)
    requires forall o :: o in h && o in h' ==> h'[o].refs == h[o].refs
    ensures SafeHeap(h', white)
  {
    forall o | Alive(h', white, o) ensures RefsAlive(h', white, o) { assert RefsAlive(h, white, o); }
  }

  lemma SweptSafe(s: State, s': State)
    requires Safe(s) && s'.white == s.white && Roots(s') == Roots(s) && s'.running == s.running && s'.main == s.main
    requires forall o :: Alive(s'.heap, s.white, o) <==> Alive(s.heap, s.white, o)
    requires forall o :: o in s.heap && o in s'.heap ==>
             s'.heap[o].refs == s.heap[o].refs && s'.heap[o].kind == s.heap[o].kind
    ensures Safe(s')
  {
    SameAlive(s.heap, s'.heap, s.white);
    assert Alive(s.heap, s.white, Roots(s)[0]) && Alive(s.heap, s.white, Roots(s)[1]);
    assert Roots(s')[0] == s'.main;
  }

  lemma SweepStringsInv(s: State)
    requires Inv(s) && s.phase.SweepString?
    ensures Inv(SweepStrings(s))
  {
    hide SweepHome, Alive, Dead, RefsAlive;
    var s' := SweepStrings(s);
    SweepHomeKeeps(s, Bucket(s.sweepstr));
    SweptSafe(s, s');
    SweptStringLists(s);
    SweptStringPhase(s);
  }

  lemma SweptStringLists(s: State)
    requires Lists(s)
    ensures Lists(SweepStrings(s))
  {
    hide SweepHome;
    var s' := SweepStrings(s);
    SweepHomeKeeps(s, Bucket(s.sweepstr));
    forall o | o in s'.heap ensures ObjectOk(s'.heap, s'.strsize, s'.main, o) {
      assert ObjectOk(s.heap, s.strsize, s.main, o);
      if s.heap[o].open() { assert ObjectOk(s.heap, s.strsize, s.main, s.heap[o].home.thread); }
    }
  }

  lemma SweptStringPhase(s: State)
    requires Lists(s) && PhaseInv(s) && s.phase.SweepString?
    ensures var s' := SweepStrings(s); s'.sweepgc <= |s'.rootgc| && PhaseInv(s')
  {
    hide SweepHome;
    var s' := SweepStrings(s);
    SweepHomeKeeps(s, Bucket(s.sweepstr));
    forall o | o in s'.heap ensures Pending(s', o) || s'.heap[o].colour == White(s'.white) {
      assert ObjectOk(s.heap, s.strsize, s.main, o);
      assert Pending(s, o) || s.heap[o].colour == White(s.white);
      if s.heap[o].open() { assert ObjectOk(s.heap, s.strsize, s.main, s.heap[o].home.thread); }
      assert s.rootgc[0..] == s.rootgc;
    }
  }

  lemma {:induction false} StillOpenIs(h: Heap, uvs: seq<Obj>)
    requires Distinct(uvs)
    ensures Distinct(StillOpen(h, uvs)) && forall o :: o in StillOpen(h, uvs) <==> o in uvs && o in h && h[o].open()
    decreases |uvs|
  {
    if uvs != [] {
      assert uvs == [uvs[0]] + uvs[1..];
      StillOpenIs(h, uvs[1..]);
    }
  }

  lemma {:induction false} OpenOfIs(h: Heap, uvs: seq<Obj>, t: Obj)
    requires Distinct(uvs)
    ensures Distinct(OpenOf(h, uvs, t)) && forall o :: o in OpenOf(h, uvs, t) <==>
            o in uvs && o in h && h[o].home == OpenIn(t)
    decreases |uvs|
  {
    if uvs != [] {
      assert uvs == [uvs[0]] + uvs[1..];
      OpenOfIs(h, uvs[1..], t);
    }
  }

  // a live object is passed

  lemma PassSafe(s: State)
    requires Lists(s) && Safe(s) && s.sweepgc < |s.rootgc| && !Dead(s.heap, s.white, s.rootgc[s.sweepgc])
    ensures Safe(SweepOne(s))
  {
    hide SweepHome, StillOpen;
    var o := s.rootgc[s.sweepgc];
    assert o in s.rootgc;
    SweepHomeKeeps(s, OpenIn(o));
    SweptSafe(s, SweepOne(s));
  }

  lemma PassLists(s: State)
    requires Lists(s) && s.sweepgc < |s.rootgc| && !Dead(s.heap, s.white, s.rootgc[s.sweepgc])
    ensures Lists(SweepOne(s))
  {
    hide SweepHome, StillOpen, Dead;
    var o := s.rootgc[s.sweepgc];
    assert o in s.rootgc;
    SweepHomeKeeps(s, OpenIn(o));
    var s' := SweepOne(s);
    StillOpenIs(s'.heap, s.uvhead);
    forall x | x in s'.heap ensures ObjectOk(s'.heap, s'.strsize, s'.main, x) {
      assert ObjectOk(s.heap, s.strsize, s.main, x);
      if s.heap[x].open() { assert ObjectOk(s.heap, s.strsize, s.main, s.heap[x].home.thread); }
    }
  }

  /** Sweeping only turns objects white and opens nothing. */
  lemma OpenStays(h: Heap, h': Heap)
    requires OpenNotBlack(h) && h'.Keys <= h.Keys
    requires forall x :: x in h' ==>
             (h'[x].open() ==> h[x].open()) && (h'[x].colour == h[x].colour || h'[x].colour.White?)
    ensures OpenNotBlack(h')
  {
  }

  lemma PassPhase(s: State)
    requires Lists(s) && PhaseInv(s) && s.phase.Sweep? && s.sweepgc < |s.rootgc|
             && !Dead(s.heap, s.white, s.rootgc[s.sweepgc])
    ensures var s' := SweepOne(s); s'.sweepgc <= |s'.rootgc| && PhaseInv(s')
  {
    hide SweepHome, StillOpen, Dead, OpenNotBlack, Alive, ObjectOk;
    var o := s.rootgc[s.sweepgc];
    assert o in s.rootgc;
    SweepHomeKeeps(s, OpenIn(o));
    var s' := SweepOne(s);
    assert s.rootgc[s.sweepgc..] == [o] + s.rootgc[s.sweepgc + 1..];
    OpenStays(s.heap, s'.heap);
    forall x | x in s'.heap ensures Pending(s', x) || s'.heap[x].colour == White(s'.white) {
      assert Pending(s, x) || s.heap[x].colour == White(s.white);
    }
  }

  // a dead object is freed

  /** The heap after the dead object o of rootgc was freed. */
  function Freed(s: State, o: Obj): Heap {
    CloseAll(SweepHome(s, OpenIn(o)) - {o}, o)
  }

  lemma FreedKeeps(s: State, o: Obj)
    requires Dead(s.heap, s.white, o)
    ensures var h := Freed(s, o);
            && h.Keys <= s.heap.Keys && o !in h
            && (forall x :: x in h ==> h[x] == s.heap[x].(colour := h[x].colour, home := h[x].home))
            && (forall x :: x in s.heap && x !in h ==>
               Dead(s.heap, s.white, x) && (x == o || s.heap[x].home == OpenIn(o)))
            && (forall x :: x in h && s.heap[x].home != OpenIn(o) ==> h[x] == s.heap[x])
            && (forall x :: x in h && s.heap[x].home == OpenIn(o) ==>
               h[x].colour == White(s.white) && h[x].home == Root)
            && (forall x :: Alive(h, s.white, x) <==> Alive(s.heap, s.white, x))
  {
    hide SweepHome;
    SweepHomeKeeps(s, OpenIn(o));
  }

  lemma FreeSafe(s: State)
    requires Lists(s) && Safe(s) && s.sweepgc < |s.rootgc| && Dead(s.heap, s.white, s.rootgc[s.sweepgc])
    ensures Safe(SweepOne(s))
  {
    hide SweepHome, StillOpen, OpenOf, Freed;
    var o := s.rootgc[s.sweepgc];
    FreedKeeps(s, o);
    FreedIs(s);
    SweptSafe(s, SweepOne(s));
  }

  lemma FreedIs(s: State)
    requires s.sweepgc < |s.rootgc| && Dead(s.heap, s.white, s.rootgc[s.sweepgc])
    ensures var s' := SweepOne(s);
            var o := s.rootgc[s.sweepgc];
            var ups := OpenOf(SweepHome(s, OpenIn(o)) - {o}, s.uvhead, o);
            s' == s.(heap := Freed(s, o), uvhead := StillOpen(Freed(s, o), s.uvhead),
                     rootgc := ups + s.rootgc[..s.sweepgc] + s.rootgc[s.sweepgc + 1..],
                       sweepgc := Shifted(s.sweepgc, |ups|))
  {
    hide SweepHome, StillOpen, OpenOf;
  }

  /** The upvalues closed because their thread was freed. */
  lemma ClosedUps(s: State, o: Obj, x: Obj)
    requires Lists(s) && Dead(s.heap, s.white, o)
    ensures x in OpenOf(SweepHome(s, OpenIn(o)) - {o}, s.uvhead, o) <==> x in Freed(s, o) && s.heap[x].home == OpenIn(o)
    ensures Distinct(OpenOf(SweepHome(s, OpenIn(o)) - {o}, s.uvhead, o))
  {
    hide SweepHome;
    SweepHomeKeeps(s, OpenIn(o));
    OpenOfIs(SweepHome(s, OpenIn(o)) - {o}, s.uvhead, o);
  }

  /** Cutting element k out of a list without repetition. */
  lemma CutOut(l: seq<Obj>, k: nat)
    requires Distinct(l) && k < |l|
    ensures Distinct(l[..k] + l[k + 1..]) && forall x :: x in l[..k] + l[k + 1..] <==> x in l && x != l[k]
  {
    var c := l[..k] + l[k + 1..];
    forall x | x in l && x != l[k] ensures x in c {
      var i :| 0 <= i < |l| && l[i] == x;
      assert c[if i < k then i else i - 1] == x;
    }
  }

  lemma JoinApart(a: seq<Obj>, b: seq<Obj>)
    requires Distinct(a) && Distinct(b) && forall x :: x in a ==> x !in b
    ensures Distinct(a + b)
  {
    forall i, j | 0 <= i < j < |a + b| ensures (a + b)[i] != (a + b)[j] {
      if i < |a| <= j { assert a[i] in a && b[j - |a|] in b; }
    }
  }

  lemma FreeRootgc(s: State)
    requires Lists(s) && s.sweepgc < |s.rootgc| && Dead(s.heap, s.white, s.rootgc[s.sweepgc])
    ensures var s' := SweepOne(s);
            && Distinct(s'.rootgc) && (forall x :: x in s'.rootgc <==> x in s'.heap && s'.heap[x].home.Root?)
  {
    hide SweepHome, StillOpen, OpenOf, Freed, Dead, Alive, Distinct;
    var o := s.rootgc[s.sweepgc];
    var ups := OpenOf(SweepHome(s, OpenIn(o)) - {o}, s.uvhead, o);
    FreedKeeps(s, o);
    FreedIs(s);
    forall x ensures x in ups <==> x in Freed(s, o) && s.heap[x].home == OpenIn(o) { ClosedUps(s, o, x); }
    ClosedUps(s, o, o);
    CutOut(s.rootgc, s.sweepgc);
    var cut := s.rootgc[..s.sweepgc] + s.rootgc[s.sweepgc + 1..];
    JoinApart(ups, cut);
    var s' := SweepOne(s);
    assert s'.rootgc == ups + cut;
  }

  lemma FreeProgress(s: State)
    requires s.sweepgc < |s.rootgc| && Dead(s.heap, s.white, s.rootgc[s.sweepgc])
    ensures var s' := SweepOne(s);
            && s'.sweepgc <= |s'.rootgc|
            && (forall x :: x in s.rootgc[s.sweepgc + 1..] ==> x in s'.rootgc[s'.sweepgc..])
  {
    hide SweepHome, StillOpen, OpenOf, Freed, Dead;
    var o := s.rootgc[s.sweepgc];
    var ups := OpenOf(SweepHome(s, OpenIn(o)) - {o}, s.uvhead, o);
    FreedIs(s);
    var rest := s.rootgc[s.sweepgc + 1..];
    var s' := SweepOne(s);
    assert s'.rootgc[|ups| + s.sweepgc..] == rest;
    assert forall i :: 0 <= i < |rest| ==> s'.rootgc[|ups| + s.sweepgc + i] == rest[i];
  }

  lemma FreeLists(s: State)
    requires Lists(s) && s.sweepgc < |s.rootgc| && Dead(s.heap, s.white, s.rootgc[s.sweepgc])
    ensures Lists(SweepOne(s))
  {
    hide SweepHome, StillOpen, OpenOf, Freed;
    var o := s.rootgc[s.sweepgc];
    FreeRootgc(s);
    FreeProgress(s);
    FreedKeeps(s, o);
    FreedIs(s);
    var s' := SweepOne(s);
    StillOpenIs(s'.heap, s.uvhead);
    forall x | x in s'.heap ensures ObjectOk(s'.heap, s'.strsize, s'.main, x) {
      assert ObjectOk(s.heap, s.strsize, s.main, x);
      if s'.heap[x].open() { assert ObjectOk(s.heap, s.strsize, s.main, s.heap[x].home.thread); }
    }
  }

  lemma FreePhase(s: State)
    requires Lists(s) && PhaseInv(s) && s.phase.Sweep? && s.sweepgc < |s.rootgc|
             && Dead(s.heap, s.white, s.rootgc[s.sweepgc])
    ensures var s' := SweepOne(s); s'.sweepgc <= |s'.rootgc| && PhaseInv(s')
  {
    hide SweepHome, StillOpen, OpenOf, Freed, Dead, Alive, Linked, ObjectOk, OpenNotBlack, Distinct, SweepOne;
    var o := s.rootgc[s.sweepgc];
    FreeRootgc(s);
    FreeProgress(s);
    FreedKeeps(s, o);
    FreedIs(s);
    var s' := SweepOne(s);
    OpenStays(s.heap, s'.heap);
    assert s.rootgc[s.sweepgc..] == [o] + s.rootgc[s.sweepgc + 1..];
    forall x | x in s'.heap ensures Pending(s', x) || s'.heap[x].colour == White(s'.white) {
      assert Pending(s, x) || s.heap[x].colour == White(s.white);
    }
  }

  lemma SweepOneInv(s: State)
    requires Inv(s) && s.phase.Sweep? && s.sweepgc < |s.rootgc|
    ensures Inv(SweepOne(s)) && SweepOne(s).phase.Sweep?
  {
    hide Lists, Safe, PhaseInv, SweepHome, StillOpen, OpenOf;
    SweepRoom(s);
    if Dead(s.heap, s.white, s.rootgc[s.sweepgc]) {
      FreeSafe(s); FreeLists(s); FreePhase(s);
    } else {
      PassSafe(s); PassLists(s); PassPhase(s);
    }
  }

  lemma SweepRoom(s: State)
    requires Lists(s)
    ensures s.sweepgc <= |s.rootgc|
  {
  }

  lemma {:induction false} SweepManyInv(s: State, count: nat)
    requires Inv(s) && s.phase.Sweep?
    ensures Inv(SweepMany(s, count)) && SweepMany(s, count).phase.Sweep?
    decreases count
  {
    hide Inv, SweepOne;
    if count != 0 && s.sweepgc < |s.rootgc| {
      SweepOneInv(s);
      SweepManyInv(SweepOne(s), count - 1);
    }
  }

  lemma SweepEnds(s: State)
    requires Inv(s) && ((s.phase.Sweep? && s.sweepgc >= |s.rootgc|) || s.phase.Finalize?)
    ensures Inv(s.(phase := Finalize)) && Inv(s.(phase := Pause))
  {
    var s1, s2 := s.(phase := Finalize), s.(phase := Pause);
    assert Roots(s1) == Roots(s) == Roots(s2);
    assert s.phase.Sweep? ==> s.rootgc[s.sweepgc..] == [];
    forall o | o in s.heap ensures s.heap[o].colour == White(s.white) {
      assert Pending(s, o) || s.heap[o].colour == White(s.white);
    }
  }

  /** Every step of the collector keeps the invariant. */
  lemma SingleStepInv(s: State)
    requires Inv(s)
    ensures Inv(SingleStep(s))
  {
    hide Inv, MarkRoot, PropagateMark, Atomic, SweepStrings, SweepMany;
    match s.phase
    case Pause => MarkRootInv(s);
    case Propagate => if s.gray != [] { PropagateInv(s); } else { AtomicInv(s); }
    case SweepString => SweepStringsInv(s);
    case Sweep =>
      SweepManyInv(s, GCSWEEPMAX);
      var s1 := SweepMany(s, GCSWEEPMAX);
      if s1.sweepgc >= |s1.rootgc| { SweepEnds(s1); }
    case Finalize => SweepEnds(s);
  }
}
