/** Marking in the incremental collector: colours, the gray lists and what one mark step does
    to them.  The heap maps addresses to objects; the references of an object are listed in
    the order in which the collector visits them. */
module GcMark {
  import opened Common

  type Obj = nat

  datatype Kind = String | Userdata | Upval | Function | Table | Thread | Proto

  /** White comes in two shades, so that objects created during a sweep survive it. */
  datatype Colour = White(bit: bool) | Gray | Black

  /** The list an object is linked into: rootgc, a bucket of the string table, or, for an
      upvalue whose value still lives in a stack, the open list of that thread. */
  datatype Home = Root | Bucket(index: nat) | OpenIn(thread: Obj)

  datatype Object = Object(kind: Kind, colour: Colour, refs: seq<Obj>, home: Home, fixed: bool) {
    predicate open() { home.OpenIn? }
  }

  type Heap = map<Obj, Object>

  datatype Marking = Marking(heap: Heap, gray: seq<Obj>)

  predicate IsWhite(h: Heap, o: Obj) {
    o in h && h[o].colour.White?
  }

  function Whites(h: Heap): set<Obj> {
    set o | o in h && h[o].colour.White?
  }

  function Paint(h: Heap, o: Obj, c: Colour): Heap {
    if o in h then h[o := h[o].(colour := c)] else h
  }

  lemma PaintWhites(h: Heap, o: Obj, c: Colour)
    requires !c.White?
    ensures Whites(Paint(h, o, c)) == Whites(h) - {o}
    ensures IsWhite(h, o) ==> |Whites(Paint(h, o, c))| < |Whites(h)|
    ensures |Whites(Paint(h, o, c))| <= |Whites(h)|
  {
    assert Whites(Paint(h, o, c)) == Whites(h) - {o};
  }

  /** markobject: does nothing unless o is white. */
  function Mark(m: Marking, o: Obj): (m': Marking)
    ensures |Whites(m'.heap)| <= |Whites(m.heap)|
    decreases |Whites(m.heap)|, 0
  {
    if !IsWhite(m.heap, o) then m
    else
      PaintWhites(m.heap, o, Gray);
      PaintWhites(m.heap, o, Black);
      var x := m.heap[o];
      var grayed := m.(heap := Paint(m.heap, o, Gray));
      match x.kind
      case String => grayed
      case Userdata => MarkAll(m.(heap := Paint(m.heap, o, Black)), x.refs)
      case Upval =>
        var m1 := MarkAll(grayed, x.refs);
        PaintWhites(m1.heap, o, Black);
        if x.open() then m1 else m1.(heap := Paint(m1.heap, o, Black))
      case _ => grayed.(gray := [o] + m.gray)
  }

  function MarkAll(m: Marking, rs: seq<Obj>): (m': Marking)
    ensures |Whites(m'.heap)| <= |Whites(m.heap)|
    decreases |Whites(m.heap)|, |rs| + 1
  {
    if rs == [] then m else MarkAll(Mark(m, rs[0]), rs[1..])
  }

  // ----- what marking does

  predicate SameShape(h: Heap, h': Heap) {
    h.Keys == h'.Keys && forall o :: o in h ==> h'[o] == h[o].(colour := h'[o].colour)
  }

  /** Kinds that are traversed from a list. */
  predicate Listed(k: Kind) {
    k.Function? || k.Table? || k.Thread? || k.Proto?
  }

  predicate RefsMarked(h: Heap, o: Obj) {
    o in h && forall i :: 0 <= i < |h[o].refs| ==> !IsWhite(h, h[o].refs[i])
  }

  /** A coloured object is fine if it is black with nothing white below it, or gray and a
      string, an open upvalue, or waiting in a list to be traversed. */
  predicate WellColoured(h: Heap, waiting: seq<Obj>, o: Obj)
    requires o in h
  {
    var x := h[o];
    match x.colour
    case White(_) => true
    case Black => RefsMarked(h, o) && !x.kind.Thread? && !(x.kind.Upval? && x.open())
    case Gray => x.kind.String? || (x.kind.Upval? && x.open()) || (Listed(x.kind) && o in waiting)
  }

  /** The gray list holds gray objects that have to be traversed, once each. */
  predicate GrayOk(m: Marking) {
    Distinct(m.gray) && forall o :: o in m.gray ==> o in m.heap && m.heap[o].colour.Gray? && Listed(m.heap[o].kind)
  }

  /** Only whites change colour, and the gray list only grows, by them. */
  ghost predicate Extends(m: Marking, m': Marking) {
    && SameShape(m.heap, m'.heap)
    && (forall o :: o in m.heap && (!IsWhite(m.heap, o) || IsWhite(m'.heap, o)) ==> m'.heap[o] == m.heap[o])
    && (forall o :: o in m.gray ==> o in m'.gray)
    && (forall o :: o in m'.gray && o !in m.gray ==> IsWhite(m.heap, o))
  }

  /** Newly coloured objects are well coloured; open upvalues have their value marked too. */
  ghost predicate Colours(m: Marking, m': Marking) {
    && Extends(m, m')
    && (forall o :: IsWhite(m.heap, o) && !IsWhite(m'.heap, o) ==>
          WellColoured(m'.heap, m'.gray, o) && (m'.heap[o].kind.Upval? ==> RefsMarked(m'.heap, o)))
  }

  lemma ColoursTrans(m: Marking, m1: Marking, m2: Marking)
    requires Colours(m, m1) && Colours(m1, m2)
    ensures Colours(m, m2)
  {
    forall o | IsWhite(m.heap, o) && !IsWhite(m2.heap, o)
      ensures WellColoured(m2.heap, m2.gray, o) && (m2.heap[o].kind.Upval? ==> RefsMarked(m2.heap, o))
    {
      if !IsWhite(m1.heap, o) { assert WellColoured(m1.heap, m1.gray, o); }
    }
  }

  /** Paints o black when its references are marked. */
  lemma Blacken(m: Marking, m1: Marking, o: Obj)
    requires IsWhite(m.heap, o) && o in m1.heap && Colours(m.(heap := Paint(m.heap, o, m1.heap[o].colour)), m1)
    requires !IsWhite(m1.heap, o) && RefsMarked(m1.heap, o) && o !in m.gray
    requires !m.heap[o].kind.Thread? && !(m.heap[o].kind.Upval? && m.heap[o].open())
    ensures Colours(m, m1.(heap := Paint(m1.heap, o, Black)))
  {
    var p := m.(heap := Paint(m.heap, o, m1.heap[o].colour));
    var m2 := m1.(heap := Paint(m1.heap, o, Black));
    assert forall x :: IsWhite(m2.heap, x) == IsWhite(m1.heap, x);
    assert m2.heap[o].refs == m1.heap[o].refs;
    forall x | IsWhite(m.heap, x) && !IsWhite(m2.heap, x)
      ensures WellColoured(m2.heap, m2.gray, x) && (m2.heap[x].kind.Upval? ==> RefsMarked(m2.heap, x))
    {
      if x != o { assert WellColoured(m1.heap, m1.gray, x); }
    }
  }

  /** A string, or an object that joins the gray list. */
  lemma GrayLeaf(m: Marking, o: Obj)
    requires GrayOk(m) && IsWhite(m.heap, o) && (m.heap[o].kind.String? || Listed(m.heap[o].kind))
    ensures Colours(m, Mark(m, o)) && GrayOk(Mark(m, o)) && !IsWhite(Mark(m, o).heap, o)
  {
    hide MarkAll, Mark, Colours, GrayOk;
    MarkLeaf(m, o);
    LeafColours(m, o);
    LeafGrayOk(m, o);
  }

  function Leaf(m: Marking, o: Obj): Marking
    requires o in m.heap
  {
    Marking(Paint(m.heap, o, Gray), (if m.heap[o].kind.String? then [] else [o]) + m.gray)
  }

  lemma LeafColours(m: Marking, o: Obj)
    requires IsWhite(m.heap, o) && (m.heap[o].kind.String? || Listed(m.heap[o].kind))
    ensures Colours(m, Leaf(m, o))
  {
    var m1 := Leaf(m, o);
    assert forall x :: IsWhite(m.heap, x) && !IsWhite(m1.heap, x) ==> x == o;
    assert forall x :: x in m1.gray <==> x in m.gray || (x == o && !m.heap[o].kind.String?);
  }

  lemma LeafGrayOk(m: Marking, o: Obj)
    requires GrayOk(m) && IsWhite(m.heap, o) && (m.heap[o].kind.String? || Listed(m.heap[o].kind))
    ensures GrayOk(Leaf(m, o))
  {
    assert o !in m.gray;
    if m.heap[o].kind.String? { assert [] + m.gray == m.gray; }
  }

  lemma MarkLeaf(m: Marking, o: Obj)
    requires IsWhite(m.heap, o) && (m.heap[o].kind.String? || Listed(m.heap[o].kind))
    ensures Mark(m, o) == Leaf(m, o)
  {
    hide MarkAll;
    assert [] + m.gray == m.gray;
  }

  /** An open upvalue stays gray. */
  lemma GrayOpen(m: Marking, m1: Marking, o: Obj)
    requires IsWhite(m.heap, o) && Colours(m.(heap := Paint(m.heap, o, Gray)), m1) && RefsMarked(m1.heap, o)
    requires m.heap[o].kind.Upval? && m.heap[o].open()
    ensures Colours(m, m1)
  {
    forall x | IsWhite(m.heap, x) && !IsWhite(m1.heap, x)
      ensures WellColoured(m1.heap, m1.gray, x) && (m1.heap[x].kind.Upval? ==> RefsMarked(m1.heap, x))
    {
      if x != o { assert IsWhite(Paint(m.heap, o, Gray), x); }
    }
  }

  lemma PaintOk(m: Marking, o: Obj, c: Colour)
    requires GrayOk(m) && o !in m.gray
    ensures GrayOk(m.(heap := Paint(m.heap, o, c)))
  {
  }

  lemma {:induction false} MarkColours(m: Marking, o: Obj)
    requires GrayOk(m)
    ensures Colours(m, Mark(m, o)) && GrayOk(Mark(m, o)) && !IsWhite(Mark(m, o).heap, o)
    decreases |Whites(m.heap)|, 0
  {
    hide MarkAll, Colours, Distinct;
    if !IsWhite(m.heap, o) {
      ColoursSelf(m);
    } else if m.heap[o].kind.Userdata? || m.heap[o].kind.Upval? {
      PaintWhites(m.heap, o, Gray);
      PaintWhites(m.heap, o, Black);
      var x := m.heap[o];
      var c := if x.kind.Userdata? then Black else Gray;
      var p := m.(heap := Paint(m.heap, o, c));
      PaintOk(m, o, c);
      MarkAllColours(p, x.refs);
      var m1 := MarkAll(p, x.refs);
      MarkedBelow(p, m1, o);
      if x.kind.Upval? && x.open() {
        GrayOpen(m, m1, o);
      } else {
        Blacken(m, m1, o);
        assert m1.heap[o].colour == Black ==> Paint(m1.heap, o, Black) == m1.heap;
        NotWaiting(m1, p, o);
        PaintOk(m1, o, Black);
      }
    } else {
      GrayLeaf(m, o);
    }
  }

  lemma ColoursSelf(m: Marking)
    ensures Colours(m, m)
  {
  }

  /** An object that was already coloured does not join the gray list. */
  lemma NotWaiting(m1: Marking, m: Marking, o: Obj)
    requires Colours(m, m1) && o !in m.gray && !IsWhite(m.heap, o)
    ensures o !in m1.gray
  {
  }

  lemma StaysMarked(m: Marking, m1: Marking, o: Obj)
    requires Colours(m, m1) && !IsWhite(m.heap, o)
    ensures !IsWhite(m1.heap, o)
  {
  }

  lemma MarkedBelow(m: Marking, m1: Marking, o: Obj)
    requires Colours(m, m1) && o in m.heap && !IsWhite(m.heap, o)
    requires forall i :: 0 <= i < |m.heap[o].refs| ==> !IsWhite(m1.heap, m.heap[o].refs[i])
    ensures o in m1.heap && m1.heap[o] == m.heap[o] && RefsMarked(m1.heap, o)
  {
  }

  lemma {:induction false} MarkAllColours(m: Marking, rs: seq<Obj>)
    requires GrayOk(m)
    ensures Colours(m, MarkAll(m, rs)) && GrayOk(MarkAll(m, rs))
    ensures forall i :: 0 <= i < |rs| ==> !IsWhite(MarkAll(m, rs).heap, rs[i])
    decreases |Whites(m.heap)|, |rs| + 1
  {
    hide Mark, Colours, GrayOk;
    if rs != [] {
      var m1 := Mark(m, rs[0]);
      MarkColours(m, rs[0]);
      MarkAllColours(m1, rs[1..]);
      ColoursTrans(m, m1, MarkAll(m, rs));
      StaysMarked(m1, MarkAll(m, rs), rs[0]);
      assert forall i :: 1 <= i < |rs| ==> rs[i] == rs[1..][i - 1];
    } else {
      ColoursSelf(m);
    }
  }

  /** No white left behind means nothing was done. */
  lemma {:induction false} MarkIdle(m: Marking, rs: seq<Obj>)
    requires |Whites(MarkAll(m, rs).heap)| == |Whites(m.heap)|
    ensures MarkAll(m, rs) == m
    decreases |rs|
  {
    if rs != [] {
      if IsWhite(m.heap, rs[0]) {
        MarkCounts(m, rs[0]);
      } else {
        MarkIdle(m, rs[1..]);
      }
    }
  }

  lemma MarkCounts(m: Marking, o: Obj)
    requires IsWhite(m.heap, o)
    ensures |Whites(Mark(m, o).heap)| < |Whites(m.heap)|
  {
    PaintWhites(m.heap, o, Gray);
    PaintWhites(m.heap, o, Black);
    if m.heap[o].kind.Upval? {
      PaintWhites(MarkAll(m.(heap := Paint(m.heap, o, Gray)), m.heap[o].refs).heap, o, Black);
    }
  }
}
