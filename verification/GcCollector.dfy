/** The collector in the form the source has: marks, lists and phase are updated in place. */
module GcCollector {
  import opened Common
  import opened GcMark
  import opened GcState
  import opened GcRuns
  import opened GcMutator
  import opened GcSafety
  import opened GcMemory

  class Collector {
    var heap: Heap
    var white: bool
    var phase: Phase
    var gray: seq<Obj>
    var grayagain: seq<Obj>
    var rootgc: seq<Obj>
    var sweepgc: nat
    var strsize: nat
    var sweepstr: nat
    var uvhead: seq<Obj>
    var main: Obj
    var running: Obj
    var registry: Obj
    var mt: seq<Obj>

    ghost function View(): State
      reads this
    {
      State(heap, white, phase, gray, grayagain, rootgc, sweepgc, strsize, sweepstr, uvhead, main, running, registry,
        mt)
    }

    constructor ()
      ensures View() == Start() && Inv(View())
    {
      heap := map[0 := Object(Thread, White(false), [1], Root, true),
                  1 := Object(Table, White(false), [], Root, false),
                  2 := Object(Table, White(false), [], Root, false)];
      white, phase := false, Pause;
      gray, grayagain, rootgc, uvhead, mt := [], [], [2, 1, 0], [], [];
      sweepgc, strsize, sweepstr := 0, MINSTRTABSIZE, 0;
      main, running, registry := 0, 0, 2;
      new;
      StartInv();
    }

    // ----- marking

    method MarkObject(o: Obj)
      modifies `heap, `gray
      ensures View() == With(old(View()), Mark(Marks(old(View())), o))
      decreases |Whites(heap)|, 1
    {
      if o in heap && heap[o].colour.White? { ReallyMarkObject(o); }
    }

    method ReallyMarkObject(o: Obj)
      requires IsWhite(heap, o)
      modifies `heap, `gray
      ensures View() == With(old(View()), Mark(Marks(old(View())), o))
      decreases |Whites(heap)|, 0
    {
      hide MarkAll;
      PaintWhites(heap, o, Gray);
      PaintWhites(heap, o, Black);
      var refs, open := heap[o].refs, heap[o].open();
      heap := heap[o := heap[o].(colour := Gray)];
      match heap[o].kind {
        case String =>
        case Userdata =>
          heap := heap[o := heap[o].(colour := Black)];
          assert heap == Paint(old(heap), o, Black);
          MarkRefs(refs);
        case Upval =>
          MarkRefs(refs);
          if !open && o in heap { heap := heap[o := heap[o].(colour := Black)]; }
        case _ =>
          gray := [o] + gray;
      }
    }

    method MarkRefs(refs: seq<Obj>)
      modifies `heap, `gray
      ensures View() == With(old(View()), MarkAll(Marks(old(View())), refs))
      decreases |Whites(heap)|, |refs| + 1
    {
      hide Mark;
      var i := 0;
      while i < |refs|
        invariant 0 <= i <= |refs| && |Whites(heap)| <= |Whites(old(heap))|
        invariant MarkAll(Marks(View()), refs[i..]) == MarkAll(Marks(old(View())), refs)
      {
        ghost var m := Marks(View());
        MarkObject(refs[i]);
        assert Marks(View()) == Mark(m, refs[i]);
        assert refs[i..][1..] == refs[i + 1..];
        i := i + 1;
      }
      assert MarkAll(Marks(View()), refs[i..]) == Marks(View());
    }

    method MarkRoot()
      modifies `heap, `gray, `grayagain, `phase
      ensures View() == GcState.MarkRoot(old(View()))
    {
      hide MarkAll;
      gray, grayagain := [], [];
      var globals := if RefsOf(heap, main) == [] then [] else [heap[main].refs[0]];
      MarkRefs([main] + globals + [registry] + mt);
      phase := Propagate;
    }

    method PropagateMark()
      requires gray != []
      modifies `heap, `gray, `grayagain
      ensures View() == GcState.PropagateMark(old(View()))
    {
      hide MarkAll;
      var o := gray[0];
      var refs := RefsOf(heap, o);
      gray := gray[1..];
      if o in heap && heap[o].kind.Thread? {
        grayagain := [o] + grayagain;
        MarkRefs(refs);
      } else {
        heap := Paint(heap, o, Black);
        MarkRefs(refs);
      }
    }

    method PropagateAll()
      modifies `heap, `gray, `grayagain
      ensures View() == GcState.PropagateAll(old(View()))
    {
      hide GcState.PropagateMark;
      while gray != []
        invariant GcState.PropagateAll(View()) == GcState.PropagateAll(old(View()))
        decreases |Whites(heap)|, |gray|
      {
        PropagateCounts(View());
        PropagateMark();
      }
    }

    method RemarkUpvals()
      modifies `heap, `gray
      ensures View() == With(old(View()), GcState.RemarkUpvals(Marks(old(View())), uvhead))
    {
      hide MarkAll;
      var i := 0;
      while i < |uvhead|
        invariant 0 <= i <= |uvhead|
        invariant GcState.RemarkUpvals(Marks(View()), uvhead[i..]) == GcState.RemarkUpvals(Marks(old(View())), uvhead)
      {
        var u := uvhead[i];
        assert uvhead[i..][1..] == uvhead[i + 1..];
        ghost var m := Marks(View());
        if u in heap && heap[u].colour.Gray? {
          MarkRefs(heap[u].refs);
          assert Marks(View()) == MarkAll(m, m.heap[u].refs);
        }
        i := i + 1;
      }
      assert GcState.RemarkUpvals(Marks(View()), uvhead[i..]) == Marks(View());
    }

    method Atomic()
      modifies `heap, `gray, `grayagain, `white, `sweepstr, `sweepgc, `phase
      ensures View() == GcState.Atomic(old(View()))
    {
      hide MarkAll, GcState.PropagateAll, GcState.RemarkUpvals, Whites, SameShape, IsWhite;
      RemarkUpvals();
      PropagateAll();
      gray := [];
      PropagateFrame(With(old(View()), GcState.RemarkUpvals(Marks(old(View())), uvhead)));
      MarkRefs([running] + mt);
      PropagateAll();
      gray, grayagain := grayagain, [];
      PropagateAll();
      white, sweepstr, sweepgc, phase := !white, 0, 0, SweepString;
    }

    // ----- sweeping

    /** sweepwholelist on a bucket, or on the open upvalues of a thread. */
    method SweepWholeList(home: Home)
      modifies `heap
      ensures heap == SweepHome(old(View()), home)
    {
      var todo := set o | o in heap && heap[o].home == home;
      while todo != {}
        invariant todo <= heap.Keys <= old(heap).Keys
        invariant forall o :: o in old(heap) && (o in todo || old(heap)[o].home != home) ==>
                  o in heap && heap[o] == old(heap)[o]
        invariant forall o :: o in old(heap) && o !in todo && old(heap)[o].home == home ==>
                    if Dead(old(heap), white, o) then o !in heap
                    else o in heap && heap[o] == Whitened(old(View()), old(heap)[o])
        invariant forall o :: o in todo ==> heap[o].home == home
        decreases todo
      {
        var o :| o in todo;
        if Dead(heap, white, o) {
          heap := heap - {o};
        } else {
          heap := heap[o := heap[o].(colour := White(white))];
        }
        todo := todo - {o};
      }
      assert heap == SweepHome(old(View()), home);
    }

    method SweepOne()
      requires sweepgc < |rootgc|
      modifies `heap, `uvhead, `rootgc, `sweepgc
      ensures View() == GcRuns.SweepOne(old(View()))
    {
      hide SweepHome, StillOpen, OpenOf;
      var o := rootgc[sweepgc];
      var dead := Dead(heap, white, o);
      SweepWholeList(OpenIn(o));
      if !dead {
        if o in heap { heap := heap[o := heap[o].(colour := White(white))]; }
        sweepgc := sweepgc + 1;
      } else {
        heap := heap - {o};
        var ups := OpenOf(heap, uvhead, o);
        heap := CloseAll(heap, o);
        rootgc := ups + rootgc[..sweepgc] + rootgc[sweepgc + 1..];
        sweepgc := Shifted(sweepgc, |ups|);
      }
      uvhead := StillOpen(heap, uvhead);
    }

    method SweepList(count: nat)
      modifies `heap, `uvhead, `rootgc, `sweepgc
      ensures View() == SweepMany(old(View()), count)
    {
      hide GcRuns.SweepOne;
      var n := count;
      while n > 0 && sweepgc < |rootgc|
        invariant SweepMany(View(), n) == SweepMany(old(View()), count)
        decreases n
      {
        SweepOne();
        n := n - 1;
      }
    }

    // ----- steps

    method SingleStep()
      modifies this
      ensures View() == GcRuns.SingleStep(old(View()))
      ensures old(Inv(View())) ==> Inv(View())
    {
      hide GcState.MarkRoot, GcState.PropagateMark, GcState.Atomic, SweepHome, SweepMany, Inv;
      ghost var s := View();
      match phase {
        case Pause => MarkRoot();
        case Propagate => if gray != [] { PropagateMark(); } else { Atomic(); }
        case SweepString =>
          SweepWholeList(Bucket(sweepstr));
          sweepstr := sweepstr + 1;
          if sweepstr >= strsize { phase := Sweep; }
        case Sweep =>
          SweepList(GCSWEEPMAX);
          if sweepgc >= |rootgc| { phase := Finalize; }
        case Finalize => phase := Pause;
      }
      if Inv(s) { SingleStepInv(s); }
    }

    method StepUntil(stop: Phase)
      modifies this
      ensures View() == RunUntil(old(View()), stop)
    {
      hide GcRuns.SingleStep;
      while phase != stop && !phase.Pause?
        invariant RunUntil(View(), stop) == RunUntil(old(View()), stop)
        decreases Rank(View().phase), Work(View()).0, Work(View()).1
      {
        StepWorks(View());
        SingleStep();
      }
    }

    /** A full collection leaves exactly the reachable and the fixed objects. */
    method FullGc()
      requires Inv(View())
      modifies this
      ensures View() == FullCollect(old(View())) && Inv(View()) && phase.Pause?
      ensures forall o :: o in heap <==> Reachable(old(View()), o) || (o in old(heap) && old(heap)[o].fixed)
    {
      hide RunUntil, GcState.MarkRoot, Inv, Reachable, Dead;
      if phase.Pause? || phase.Propagate? {
        sweepstr, sweepgc, gray, grayagain, phase := 0, 0, [], [], SweepString;
      }
      StepUntil(Finalize);
      MarkRoot();
      StepUntil(Pause);
      FullCollectKeeps(old(View()));
    }

    // ----- barriers and links

    method BarrierForward(o: Obj, v: Obj)
      requires IsWhite(heap, v)
      modifies `heap, `gray
      ensures View() == GcMutator.BarrierForward(old(View()), o, v)
    {
      hide Mark;
      if phase.Propagate? { ReallyMarkObject(v); } else { heap := Paint(heap, o, White(white)); }
    }

    method BarrierBack(t: Obj)
      modifies `heap, `grayagain
      ensures View() == GcMutator.BarrierBack(old(View()), t)
    {
      heap := Paint(heap, t, Gray);
      grayagain := [t] + grayagain;
    }

    /** A store into an object, with the barrier its kind calls for: afterwards o has exactly the
        references refs, and no other object changed its own. */
    method Store(o: Obj, refs: seq<Obj>, v: Obj)
      requires o in heap
      modifies `heap, `gray, `grayagain
      ensures View() == GcMutator.Store(old(View()), o, refs, v)
      ensures heap.Keys == old(heap).Keys
      ensures forall x :: x in heap ==> heap[x].refs == (if x == o then refs else old(heap)[x].refs)
                                        && heap[x].kind == old(heap)[x].kind && heap[x].home == old(heap)[x].home
      ensures old(Inv(View()) && Enabled(View(), StoreInto(o, refs, v))) ==> Inv(View())
    {
      hide Mark, Inv, Enabled, SameShape, Dead;
      ghost var s := View();
      StoreKeeps(s, o, refs, v);
      var black := heap[o].colour.Black?;
      var needed := v in heap && heap[v].colour.White? && black;
      heap := heap[o := heap[o].(refs := refs)];
      if needed {
        if heap[o].kind.Table? { BarrierBack(o); } else { BarrierForward(o, v); }
      }
      if Inv(s) && Enabled(s, StoreInto(o, refs, v)) { ApplyInv(s, StoreInto(o, refs, v)); StoreIs(s, o, refs, v); }
    }

    method Link(o: Obj, kind: Kind, refs: seq<Obj>)
      modifies `heap, `rootgc, `sweepgc
      ensures View() == GcMutator.Link(old(View()), o, kind, refs)
    {
      heap := heap[o := Object(kind, White(white), refs, Root, false)];
      rootgc := [o] + rootgc;
      sweepgc := Shifted(sweepgc, 1);
    }

    /** luaF_close on one upvalue of the running thread, which is freed if it is dead and else
        leaves the thread with its value. */
    method CloseUpval(u: Obj)
      requires u in heap
      modifies this
      ensures View() == GcMutator.CloseUpval(old(View()), u)
      ensures Seen(View()).cells == if Dead(old(heap), white, u) then Seen(old(View())).cells - {u}
                                    else Seen(old(View())).cells
      ensures u in heap <==> !Dead(old(heap), white, u)
      ensures u in heap ==> heap[u].home.Root?
      ensures old(Inv(View()) && heap[u].open()) ==> Inv(View())
    {
      hide MarkAll, Without, Inv, Cells, Dead, IsWhite, SameShape, Whites;
      ghost var s := View();
      CloseSeen(s, u);
      ClosedHomes(s, u);
      uvhead := Without(uvhead, u);
      if Dead(heap, white, u) {
        heap := heap - {u};
      } else {
        heap := heap[u := heap[u].(home := Root)];
        rootgc := [u] + rootgc;
        sweepgc := Shifted(sweepgc, 1);
        if heap[u].colour.Gray? {
          if phase.Propagate? {
            heap := heap[u := heap[u].(colour := Black)];
            MarkRefs(heap[u].refs);
          } else {
            heap := heap[u := heap[u].(colour := White(white))];
          }
        }
      }
      if Inv(s) && s.heap[u].open() { CloseInv(s, u); }
    }
  }

  lemma FullCollectKeeps(s: State)
    requires Inv(s)
    ensures Inv(FullCollect(s)) && FullCollect(s).phase.Pause?
    ensures forall o :: o in FullCollect(s).heap <==> Reachable(s, o) || (o in s.heap && s.heap[o].fixed)
  {
    hide Inv, FullCollect, Reachable;
    forall o ensures o in FullCollect(s).heap <==> Reachable(s, o) || (o in s.heap && s.heap[o].fixed) {
      FullCollectExact(s, o);
    }
    FullCollectExact(s, 0);
  }

  lemma StoreIs(s: State, o: Obj, refs: seq<Obj>, v: Obj)
    requires Enabled(s, StoreInto(o, refs, v))
    ensures o in s.heap && Apply(s, StoreInto(o, refs, v)) == Store(s, o, refs, v)
  {
  }
}
