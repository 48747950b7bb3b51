/** Open upvalues: a list per thread, sorted by stack slot from the top down, and a ring through
    the open upvalues of all threads. */
module Upvalues {
  import opened Common
  import opened Lists

  type Value = int

  const HEAD: int := -1        // g->uvhead

  /** Where the value of an upvalue is: at an address of a stack, or in the upvalue itself. */
  datatype Ptr = OnStack(addr: int) | Own

  // ----- the list of a thread

  /** The upvalues point into the stack, each at a slot below the one before. */
  predicate Descending(v: map<Id, Ptr>, base: int, size: nat, l: seq<Id>) {
    && (forall k :: 0 <= k < |l| ==> l[k] in v && v[l[k]].OnStack? && base <= v[l[k]].addr < base + size)
    && (forall i, j :: 0 <= i < j < |l| ==> v[l[i]].addr > v[l[j]].addr)
  }

  lemma DescendingDistinct(v: map<Id, Ptr>, base: int, size: nat, l: seq<Id>)
    requires Descending(v, base, size, l)
    ensures Distinct(l)
  {
  }

  // ----- the ring

  /** The k-th stop on the way round the ring, which starts and ends at the head. */
  function Stop(r: seq<Id>, k: int): int {
    if 1 <= k <= |r| then r[k - 1] else HEAD
  }

  /** rnext leads along r and rprev back. */
  predicate Ring(rnext: map<int, int>, rprev: map<int, int>, r: seq<Id>) {
    Distinct(r) && forall k :: 0 <= k <= |r| ==> LinkOk(rnext, rprev, r, k)
  }

  predicate LinkOk(rnext: map<int, int>, rprev: map<int, int>, r: seq<Id>, k: int) {
    && Stop(r, k) in rnext && rnext[Stop(r, k)] == Stop(r, k + 1)
    && Stop(r, k + 1) in rprev && rprev[Stop(r, k + 1)] == Stop(r, k)
  }

  /** A new upvalue goes right behind the head. */
  lemma RingInsert(rnext: map<int, int>, rprev: map<int, int>, r: seq<Id>, u: Id)
    requires Ring(rnext, rprev, r) && u !in r
    ensures HEAD in rnext && Ring(rnext[u := rnext[HEAD]][HEAD := u], rprev[u := HEAD][rnext[HEAD] := u], [u] + r)
  {
    assert LinkOk(rnext, rprev, r, 0);
    var rnext', rprev', r' := rnext[u := rnext[HEAD]][HEAD := u], rprev[u := HEAD][rnext[HEAD] := u], [u] + r;
    assert forall k :: 1 <= k <= |r'| + 1 ==> Stop(r', k + 1) == Stop(r, k);
    forall k | 0 <= k <= |r'| ensures LinkOk(rnext', rprev', r', k) {
      if k >= 2 { assert LinkOk(rnext, rprev, r, k - 1); }
    }
  }

  function Without(r: seq<Id>, i: nat): seq<Id>
    requires i < |r|
  {
    r[..i] + r[i + 1..]
  }

  /** unlinkupval. */
  lemma RingRemove(rnext: map<int, int>, rprev: map<int, int>, r: seq<Id>, i: nat)
    requires Ring(rnext, rprev, r) && i < |r|
    ensures var u := r[i];
            && u in rnext && u in rprev && rnext[u] in rprev && rprev[u] in rnext && rprev[rnext[u]] == u
               && rnext[rprev[u]] == u
            && Ring(rnext[rprev[u] := rnext[u]], rprev[rnext[u] := rprev[u]], Without(r, i))
  {
    var u, r' := r[i], Without(r, i);
    assert LinkOk(rnext, rprev, r, i) && LinkOk(rnext, rprev, r, i + 1);
    assert Stop(r, i + 1) == u;
    var rnext', rprev' := rnext[rprev[u] := rnext[u]], rprev[rnext[u] := rprev[u]];
    forall k | 0 <= k <= |r'| ensures LinkOk(rnext', rprev', r', k) {
      StopWithout(r, i, k);
      StopWithout(r, i, k + 1);
      assert LinkOk(rnext, rprev, r, k) && LinkOk(rnext, rprev, r, k + 1);
      StopsDiffer(r, if k <= i then k else k + 1, i);
      StopsDiffer(r, if k + 1 <= i then k + 1 else k + 2, i + 2);
    }
  }

  lemma StopWithout(r: seq<Id>, i: nat, k: nat)
    requires i < |r|
    ensures Stop(Without(r, i), k) == if k <= i then Stop(r, k) else Stop(r, k + 1)
  {
  }

  /** Two stops are the same only if they are the same place, or both the head. */
  lemma StopsDiffer(r: seq<Id>, j: int, k: int)
    requires Distinct(r) && 0 <= j <= |r| + 1 && 0 <= k <= |r| + 1
    ensures Stop(r, j) != Stop(r, k) || j == k
            || (Stop(r, j) == HEAD && (j == 0 || j == |r| + 1) && (k == 0 || k == |r| + 1))
  {
  }

  // ----- changing the list

  /** The upvalue u is chained between l[..k] and l[k..]. */
  lemma LinkedInsert(p: int, next: map<Id, int>, l: seq<Id>, k: nat, u: Id)
    requires Linked(p, next, l) && Distinct(l) && k <= |l| && u !in l
    ensures var next1 := next[u := First(l[k..])];
            var l' := PutIn(l, k, u);
            if k == 0 then Linked(u, next1, l') else Linked(p, next1[l[k - 1] := u], l')
  {
    var l' := l[..k] + [u] + l[k..];
    var next1 := next[u := First(l[k..])];
    var next' := if k == 0 then next1 else next1[l[k - 1] := u];
    forall j | 0 <= j < |l'| ensures l'[j] in next' && next'[l'[j]] == First(l'[j + 1..]) {
      if j < k {
        assert l'[j] == l[j];
        assert l'[j + 1] == if j + 1 < k then l[j + 1] else u;
        assert l'[j + 1..][0] == l'[j + 1];
        if j + 1 < k { assert l[j + 1..][0] == l[j + 1]; }
      } else if j == k {
        assert l'[j + 1..] == l[k..];
      } else {
        assert l'[j] == l[j - 1] && l'[j + 1..] == l[j..];
      }
    }
  }

  /** l with u put in at k. */
  function PutIn(l: seq<Id>, k: nat, u: Id): seq<Id>
    requires k <= |l|
  {
    l[..k] + [u] + l[k..]
  }

  lemma PutInAt(l: seq<Id>, k: nat, u: Id, j: nat)
    requires k <= |l| && j <= |l|
    ensures PutIn(l, k, u)[j] == if j < k then l[j] else if j == k then u else l[j - 1]
  {
  }

  lemma DescendingInsert(v: map<Id, Ptr>, base: int, size: nat, l: seq<Id>, k: nat, u: Id, addr: int)
    requires Descending(v, base, size, l) && k <= |l| && u !in l && base <= addr < base + size && Around(v, l, k, addr)
    ensures Descending(v[u := OnStack(addr)], base, size, PutIn(l, k, u))
  {
    hide PutIn;
    var l', v' := PutIn(l, k, u), v[u := OnStack(addr)];
    PutInSize(l, k, u);
    forall i | 0 <= i < |l'|
      ensures l'[i] in v' && v'[l'[i]].OnStack? && base <= v'[l'[i]].addr < base + size
    {
      PutInAt(l, k, u, i);
    }
    forall i, j | 0 <= i < j < |l'| ensures v'[l'[i]].addr > v'[l'[j]].addr {
      PutInAt(l, k, u, i);
      PutInAt(l, k, u, j);
    }
  }

  lemma PutInSize(l: seq<Id>, k: nat, u: Id)
    requires k <= |l|
    ensures |PutIn(l, k, u)| == |l| + 1 && forall x :: x in PutIn(l, k, u) <==> x == u || x in l
  {
    assert l == l[..k] + l[k..];
  }

  /** One open upvalue per slot. */
  lemma OnePerSlot(v: map<Id, Ptr>, base: int, size: nat, l: seq<Id>, i: nat, j: nat)
    requires Descending(v, base, size, l) && i < |l| && j < |l| && v[l[i]] == v[l[j]]
    ensures i == j
  {
  }

  class Thread {
    var base: int                   // L->stack
    var stack: seq<Value>
    var openupval: int
    var next: map<Id, int>
    var v: map<Id, Ptr>
    var own: map<Id, Value>
    var rnext: map<int, int>
    var rprev: map<int, int>
    var dead: set<Id>               // upvalues in the other white
    ghost var list: seq<Id>         // the open upvalues of this thread
    ghost var ring: seq<Id>         // the open upvalues of all threads

    constructor (base: int, stack: seq<Value>)
      ensures Valid() && this.base == base && this.stack == stack && list == [] && ring == []
    {
      this.base, this.stack, openupval := base, stack, NULL;
      next, v, own := map[], map[], map[];
      rnext, rprev, dead := map[HEAD := HEAD], map[HEAD := HEAD], {};
      list, ring := [], [];
    }

    ghost predicate Valid()
      reads this
    {
      && Linked(openupval, next, list) && Descending(v, base, |stack|, list) && Ring(rnext, rprev, ring)
      && (forall u :: u in list ==> u in ring) && (forall u :: u in v && v[u].Own? ==> u in own && u !in ring)
    }

    /** The value an upvalue of this thread, or a closed one, stands for. */
    ghost function Deref(u: Id): Value
      reads this
    {
      ValueOf(v, own, stack, base, u)
    }

    /** The search of luaF_findupval: k upvalues lie above level; prev and p are next to it. */
    method Search(level: int) returns (found: bool, prev: int, p: int, ghost k: nat)
      requires Valid()
      ensures found ==> p >= 0 && p in list && p in v && v[p] == OnStack(level)
      ensures !found ==> k <= |list| && Around(v, list, k, level) && p == First(list[k..])
                         && prev == (if k == 0 then NULL else list[k - 1])
    {
      hide Linked, Ring, Descending, Above, Around;
      prev, p, k := NULL, openupval, 0;
      LinkedStart(openupval, next, list);
      SearchStart(v, list, level);
      SlotAt(v, base, |stack|, list, k);
      while p != NULL && v[p].addr >= level
        invariant k <= |list| && Linked(p, next, list[k..]) && p == First(list[k..])
        invariant prev == (if k == 0 then NULL else list[k - 1]) && Above(v, list, k, level + 1)
        invariant k < |list| ==> list[k] in v && v[list[k]].OnStack?
        decreases |list| - k
      {
        if v[p].addr == level { return true, prev, p, k; }
        LinkedTail(p, next, list[k..]);
        AboveNext(v, list, k, level + 1);
        assert list[k..][1..] == list[k + 1..];
        prev, p := p, next[p];
        k := k + 1;
        LinkedFirst(p, next, list[k..]);
        SlotAt(v, base, |stack|, list, k);
      }
      found := false;
      Lower(v, base, |stack|, list, k, level);
    }

    /** Doubly linking a new upvalue behind the head of the ring. */
    method EnterRing(u: Id)
      requires Ring(rnext, rprev, ring) && u !in ring
      modifies `rnext, `rprev, `ring
      ensures Ring(rnext, rprev, ring) && ring == [u] + old(ring)
    {
      hide Ring;
      RingInsert(rnext, rprev, ring, u);
      rprev, rnext := rprev[u := HEAD][rnext[HEAD] := u], rnext[u := rnext[HEAD]][HEAD := u];
      ring := [u] + ring;
    }

    /** Chaining it between prev and p. */
    method EnterList(u: Id, prev: int, p: int, ghost k: nat)
      requires Linked(openupval, next, list) && Distinct(list) && u !in list
      requires k <= |list| && p == First(list[k..]) && prev == (if k == 0 then NULL else list[k - 1])
      modifies `openupval, `next, `list
      ensures Linked(openupval, next, list) && list == PutIn(old(list), k, u)
    {
      hide Linked, Distinct;
      LinkedInsert(openupval, next, list, k, u);
      next := next[u := p];
      if prev == NULL { openupval := u; } else { next := next[prev := u]; }
      list := PutIn(list, k, u);
    }

    /** A new upvalue in the list and the ring. */
    method Insert(u: Id, prev: int, p: int, level: int, ghost k: nat)
      requires Valid() && u !in v && u !in ring && u !in list && base <= level < base + |stack|
      requires k <= |list| && Around(v, list, k, level) && p == First(list[k..])
               && prev == (if k == 0 then NULL else list[k - 1])
      modifies `openupval, `next, `v, `rnext, `rprev, `list, `ring
      ensures Valid() && v == old(v)[u := OnStack(level)]
      ensures list == PutIn(old(list), k, u) && ring == [u] + old(ring)
    {
      hide Linked, Ring, Descending, Distinct, PutIn, Around;
      DescendingDistinct(v, base, |stack|, list);
      DescendingInsert(v, base, |stack|, list, k, u, level);
      PutInSize(list, k, u);
      v := v[u := OnStack(level)];
      EnterList(u, prev, p, k);
      EnterRing(u);
    }

    /** luaF_findupval: the upvalue of a slot, created if there is none. */
    method FindUpval(slot: nat, spare: Id) returns (u: Id)
      requires Valid() && slot < |stack| && spare !in v && spare !in ring
      modifies `openupval, `next, `v, `rnext, `rprev, `dead, `list, `ring
      ensures Valid() && u in list && u in v && v[u] == OnStack(base + slot) && Deref(u) == stack[slot]
      ensures dead == old(dead) - {u}
      ensures (forall x :: x in old(v) ==> x in v && v[x] == old(v)[x])
      ensures if exists x :: x in old(list) && x in old(v) && old(v)[x] == OnStack(base + slot)
              then u in old(list) && list == old(list) && ring == old(ring)
              else u == spare && ring == [u] + old(ring) && exists k ::
                   0 <= k <= |old(list)| && list == PutIn(old(list), k, u)
    {
      hide Linked, Ring, Descending, PutIn;
      var found, prev, p; ghost var k;
      found, prev, p, k := Search(base + slot);
      if found {
        dead := dead - {p};
        return p;
      }
      u, dead := spare, dead - {spare};
      NotThere(v, list, k, base + slot, openupval, next, base, |stack|);
      PutInSize(list, k, u);
      Insert(u, prev, p, base + slot, k);
    }

    lemma HeadOpen()
      requires Valid()
      ensures openupval != NULL ==> list != [] && list[0] == openupval && openupval in v && v[openupval].OnStack?
      ensures openupval != NULL ==> base <= v[openupval].addr < base + |stack| && openupval in next && openupval in ring
    {
      if openupval != NULL { assert list[0] in list; }
    }

    /** unlinkupval. */
    method Unlink(u: Id, ghost i: nat)
      requires Ring(rnext, rprev, ring) && i < |ring| && ring[i] == u
      modifies `rnext, `rprev, `ring
      ensures Ring(rnext, rprev, ring) && forall x :: x in ring <==> x in old(ring) && x != u
    {
      hide Ring;
      RingRemove(rnext, rprev, ring, i);
      WithoutIs(rnext, rprev, ring, i);
      var n, q := rnext[u], rprev[u];
      rprev, rnext := rprev[n := q], rnext[q := n];
      ring := Without(ring, i);
    }

    /** One round of luaF_close: the first upvalue of the list is closed, or freed if dead. */
    method CloseFirst(freeing: bool) returns (u: Id)
      requires Valid() && openupval != NULL
      modifies `openupval, `next, `v, `own, `rnext, `rprev, `list, `ring
      ensures Valid() && old(list) != [] && u == old(list)[0] && list == old(list)[1..]
      ensures freeing ==> v == old(v) - {u} && own == old(own)
      ensures !freeing ==> v == old(v)[u := Own] && own == old(own)[u := old(Deref(u))]
    {
      hide Ring, Linked, Descending, Distinct;
      HeadOpen();
      u := openupval;
      LinkedTail(openupval, next, list);
      DescendingTail(v, base, |stack|, list);
      ghost var i :| 0 <= i < |ring| && ring[i] == u;
      openupval := next[u];
      Unlink(u, i);
      if freeing {
        v := v - {u};
      } else {
        own := own[u := stack[v[u].addr - base]];
        v := v[u := Own];
      }
      DescendingFrame(old(v), v, base, |stack|, list[1..], u);
      list := list[1..];
    }

    /** The collector, at the end of a mark phase, finds some upvalues dead. */
    method Condemn(condemned: set<Id>)
      requires Valid()
      modifies `dead
      ensures Valid() && dead == condemned
    {
      hide Linked, Ring, Descending;
      dead := condemned;
    }

    /** luaF_close: closes exactly the upvalues at or above level, keeping their values; dead ones
        are freed; all others stay as they are. */
    method Close(level: nat)
      requires Valid()
      modifies `openupval, `next, `v, `own, `rnext, `rprev, `list, `ring
      ensures Valid()
      ensures exists k :: 0 <= k <= |old(list)| && list == old(list)[k..] && Split(old(v), base, old(list), k, level)
      ensures forall u :: u in old(list) && u !in list ==>
              if u in dead then u !in v else u in v && v[u].Own? && Deref(u) == old(Deref(u))
      ensures forall u :: u in old(v) && (u in list || u !in old(list)) ==>
              u in v && v[u] == old(v)[u] && Deref(u) == old(Deref(u))
    {
      hide Linked, Ring, Descending, Progress, Split;
      ghost var l0, v0, own0 := list, v, own;
      ghost var k := 0;
      DescendingDistinct(v, base, |stack|, l0);
      NoProgress(v, own, stack, base, l0, dead);
      assert l0[0..] == l0;
      HeadOpen();
      while openupval != NULL && v[openupval].addr >= base + level
        invariant 0 <= k <= |l0| && Valid() && list == l0[k..] && Above(v0, l0, k, base + level)
        invariant openupval != NULL ==> openupval in v && v[openupval].OnStack?
        invariant Progress(v0, own0, v, own, stack, base, l0, k, dead)
        decreases |l0| - k
      {
        HeadOpen();
        assert openupval == l0[k];
        Untouched(v0, own0, v, own, stack, base, l0, k, dead);
        AboveNext(v0, l0, k, base + level);
        ghost var v1, own1 := v, own;
        var d := openupval in dead;
        var u := CloseFirst(d);
        ProgressStep(v0, own0, v1, own1, v, own, stack, base, l0, k, dead);
        assert l0[k..][1..] == l0[k + 1..];
        k := k + 1;
        HeadOpen();
      }
      HeadStops(k, l0, v0, own0, dead, level);
      ProgressDone(v0, own0, v, own, stack, base, l0, k, dead);
    }

    lemma HeadStops(k: nat, l0: seq<Id>, v0: map<Id, Ptr>, own0: map<Id, Value>, dead: set<Id>, level: nat)
      requires Valid() && k <= |l0| && list == l0[k..] && Above(v0, l0, k, base + level)
               && Progress(v0, own0, v, own, stack, base, l0, k, dead)
      requires Descending(v0, base, |stack|, l0) && Distinct(l0)
               && (openupval != NULL ==> openupval in v && v[openupval].OnStack? && v[openupval].addr < base + level)
      ensures Split(v0, base, l0, k, level)
    {
      hide Ring;
      LinkedFirst(openupval, next, list);
      if k < |l0| { assert l0[k] !in l0[..k]; }
    }

    /** correctstack: the upvalues move with the stack. */
    method CorrectStack(oldstack: int, ghost size0: nat)
      requires Linked(openupval, next, list) && Descending(v, oldstack, size0, list)
      modifies `v
      ensures v.Keys == old(v).Keys && forall u :: u in v ==>
              v[u] == if u in list then OnStack(old(v)[u].addr - oldstack + base) else old(v)[u]
    {
      hide Linked;
      ghost var v0 := v;
      var p := openupval;
      ghost var k := 0;
      LinkedStart(openupval, next, list);
      DescendingDistinct(v, oldstack, size0, list);
      while p != NULL
        invariant 0 <= k <= |list| && Linked(p, next, list[k..]) && p == First(list[k..]) && v.Keys == v0.Keys
        invariant forall u :: u in v0 ==> v[u] == if u in list[..k] then OnStack(v0[u].addr - oldstack + base)
                                                                    else v0[u]
        decreases |list| - k
      {
        assert p == list[k] && list[k] !in list[..k];
        v := v[p := OnStack(v[p].addr - oldstack + base)];
        assert list[..k + 1] == list[..k] + [p];
        LinkedTail(p, next, list[k..]);
        assert list[k..][1..] == list[k + 1..];
        p := next[p];
        k := k + 1;
        LinkedFirst(p, next, list[k..]);
      }
      assert list[..k] == list;
    }

    /** luaD_reallocstack: the stack moves to another address, its contents stay. */
    method ReallocStack(size: nat, newbase: int)
      requires Valid() && forall u :: u in list ==> u in v && v[u].OnStack? && v[u].addr - base < size
      modifies `base, `stack, `v
      ensures Valid() && base == newbase && |stack| == size
      ensures forall i :: 0 <= i < size && i < |old(stack)| ==> stack[i] == old(stack)[i]
      ensures forall u :: u in list ==> v[u].OnStack? && v[u].addr - base == old(v)[u].addr - old(base)
                                        && Deref(u) == old(Deref(u))
      ensures forall u :: u in old(v) && u !in list ==> u in v && v[u] == old(v)[u]
    {
      hide Linked, Ring, Distinct, Descending, ValueOf;
      var oldstack, oldsize := base, |stack|;
      stack := if size <= |stack| then stack[..size] else stack + seq(size - |stack|, _ => 0);
      base := newbase;
      CorrectStack(oldstack, oldsize);
      Rebased(old(v), v, oldstack, newbase, oldsize, size, list);
      MovedValues(old(v), v, own, old(stack), stack, oldstack, newbase, list);
    }
  }

  /** The value an upvalue stands for. */
  ghost function ValueOf(v: map<Id, Ptr>, own: map<Id, Value>, stack: seq<Value>, base: int, u: Id): Value {
    if u !in v then 0
    else match v[u]
      case Own => if u in own then own[u] else 0
      case OnStack(addr) => if base <= addr < base + |stack| then stack[addr - base] else 0
  }

  /** The first k upvalues lie above level, the others below. */
  predicate Around(v: map<Id, Ptr>, l: seq<Id>, k: nat, level: int) {
    && (forall j :: 0 <= j < k && j < |l| ==> l[j] in v && v[l[j]].OnStack? && v[l[j]].addr > level)
    && (forall j :: k <= j < |l| ==> l[j] in v && v[l[j]].OnStack? && v[l[j]].addr < level)
  }

  predicate Above(v: map<Id, Ptr>, l: seq<Id>, k: nat, level: int) {
    forall j :: 0 <= j < k && j < |l| ==> l[j] in v && v[l[j]].OnStack? && v[l[j]].addr >= level
  }

  lemma NotThere(v: map<Id, Ptr>, l: seq<Id>, k: nat, level: int, p: int, next: map<Id, int>, base: int, size: nat)
    requires Around(v, l, k, level) && Descending(v, base, size, l)
    ensures forall x :: x in l && x in v ==> v[x] != OnStack(level)
    ensures forall x :: x in l ==> x in v
  {
  }

  /** After k rounds of luaF_close. */
  ghost predicate Progress(v0: map<Id, Ptr>, own0: map<Id, Value>, v: map<Id, Ptr>, own: map<Id, Value>,
                           stack: seq<Value>, base: int, l: seq<Id>, k: nat, dead: set<Id>) {
    && k <= |l| && (forall u :: u in v0 && u !in l[..k] ==> u in v && v[u] == v0[u])
    && (forall j :: 0 <= j < k ==> if l[j] in dead then l[j] !in v
          else l[j] in v && v[l[j]].Own? && l[j] in own && own[l[j]] == ValueOf(v0, own0, stack, base, l[j]))
    && (forall u :: u in own0 && u !in l[..k] ==> u in own && own[u] == own0[u])
    && (forall u :: u in own && u !in l[..k] ==> u in own0)
  }

  lemma NoProgress(v: map<Id, Ptr>, own: map<Id, Value>, stack: seq<Value>, base: int, l: seq<Id>, dead: set<Id>)
    ensures Progress(v, own, v, own, stack, base, l, 0, dead)
  {
  }

  lemma ProgressStep(v0: map<Id, Ptr>, own0: map<Id, Value>, v1: map<Id, Ptr>, own1: map<Id, Value>, v: map<Id, Ptr>,
                     own: map<Id, Value>,
                     stack: seq<Value>, base: int, l: seq<Id>, k: nat, dead: set<Id>)
    requires Progress(v0, own0, v1, own1, stack, base, l, k, dead) && k < |l| && Distinct(l) && l[k] in v0
             && v0[l[k]].OnStack?
    requires var u := l[k];
             if u in dead then v == v1 - {u} && own == own1
             else v == v1[u := Own] && own == own1[u := ValueOf(v1, own1, stack, base, u)]
    ensures Progress(v0, own0, v, own, stack, base, l, k + 1, dead)
  {
    hide ValueOf, Distinct;
    TakenNext(l, k);
    SameValue(v0, own0, v1, own1, stack, base, l[k]);
    assert forall u :: u != l[k] ==> (u in v <==> u in v1) && (u in v1 ==> v[u] == v1[u]);
    assert forall u :: u != l[k] ==> (u in own <==> u in own1) && (u in own1 ==> own[u] == own1[u]);
  }

  lemma SameValue(v0: map<Id, Ptr>, own0: map<Id, Value>, v1: map<Id, Ptr>, own1: map<Id, Value>, stack: seq<Value>,
                  base: int, u: Id)
    requires u in v0 && v0[u].OnStack?
    ensures u in v1 && v1[u] == v0[u] ==> ValueOf(v1, own1, stack, base, u) == ValueOf(v0, own0, stack, base, u)
  {
  }

  lemma TakenNext(l: seq<Id>, k: nat)
    requires k < |l| && Distinct(l)
    ensures (forall u :: u in l[..k + 1] <==> u in l[..k] || u == l[k]) && l[k] !in l[..k]
    ensures forall j :: 0 <= j < k ==> l[j] != l[k] && l[j] in l[..k]
  {
    assert l[..k + 1] == l[..k] + [l[k]];
  }

  lemma ProgressDone(v0: map<Id, Ptr>, own0: map<Id, Value>, v: map<Id, Ptr>, own: map<Id, Value>,
                     stack: seq<Value>, base: int, l: seq<Id>, k: nat, dead: set<Id>)
    requires Progress(v0, own0, v, own, stack, base, l, k, dead) && Distinct(l)
    ensures forall u :: u in l && u !in l[k..] ==>
              if u in dead then u !in v
              else u in v && v[u].Own? && ValueOf(v, own, stack, base, u) == ValueOf(v0, own0, stack, base, u)
    ensures forall u :: u in v0 && (u in l[k..] || u !in l) ==>
              u in v && v[u] == v0[u] && ValueOf(v, own, stack, base, u) == ValueOf(v0, own0, stack, base, u)
  {
    InPrefix(l, k);
    assert l == l[..k] + l[k..];
    forall u | u in l[k..] ensures u !in l[..k] {
      var j :| 0 <= j < |l[k..]| && l[k..][j] == u;
      assert u == l[k + j];
    }
  }

  lemma Rebased(v: map<Id, Ptr>, v': map<Id, Ptr>, base: int, base': int, size: nat, size': nat, l: seq<Id>)
    requires Descending(v, base, size, l)
    requires forall u :: u in l ==> u in v' && u in v && v[u].OnStack? && v'[u] == OnStack(v[u].addr - base + base')
                                    && v[u].addr - base < size'
    ensures Descending(v', base', size', l)
  {
  }

  lemma MovedValues(v: map<Id, Ptr>, v': map<Id, Ptr>, own: map<Id, Value>, stack: seq<Value>, stack': seq<Value>,
                    base: int, base': int, l: seq<Id>)
    requires Descending(v, base, |stack|, l)
    requires forall i :: 0 <= i < |stack| && i < |stack'| ==> stack'[i] == stack[i]
    requires forall u :: u in l ==> u in v' && u in v && v[u].OnStack? && v'[u] == OnStack(v[u].addr - base + base')
                                    && v[u].addr - base < |stack'|
    ensures forall u :: u in l ==> ValueOf(v', own, stack', base', u) == ValueOf(v, own, stack, base, u)
  {
  }

  lemma InPrefix(l: seq<Id>, k: nat)
    requires k <= |l|
    ensures forall u :: u in l && u !in l[k..] ==> u in l[..k]
  {
    assert l == l[..k] + l[k..];
  }

  /** The first k upvalues are those at or above level. */
  predicate Split(v: map<Id, Ptr>, base: int, l: seq<Id>, k: int, level: nat) {
    && (forall j :: 0 <= j < k && j < |l| ==> l[j] in v && v[l[j]].OnStack? && v[l[j]].addr - base >= level)
    && (forall j :: k <= j < |l| && 0 <= j ==> l[j] in v && v[l[j]].OnStack? && v[l[j]].addr - base < level)
  }

  lemma DescendingTail(v: map<Id, Ptr>, base: int, size: nat, l: seq<Id>)
    requires Descending(v, base, size, l) && l != []
    ensures Descending(v, base, size, l[1..]) && l[0] !in l[1..]
  {
    assert forall k :: 0 <= k < |l[1..]| ==> l[1..][k] == l[k + 1];
  }

  lemma DescendingFrame(v: map<Id, Ptr>, v': map<Id, Ptr>, base: int, size: nat, l: seq<Id>, u: Id)
    requires Descending(v, base, size, l) && u !in l && forall x :: x in v && x != u ==> x in v' && v'[x] == v[x]
    ensures Descending(v', base, size, l)
  {
  }

  lemma WithoutIs(rnext: map<int, int>, rprev: map<int, int>, r: seq<Id>, i: nat)
    requires Ring(rnext, rprev, r) && i < |r|
    ensures forall u :: u in Without(r, i) <==> u in r && u != r[i]
  {
    forall u | u in r && u != r[i] ensures u in Without(r, i) {
      var j :| 0 <= j < |r| && r[j] == u;
      assert Without(r, i)[if j < i then j else j - 1] == u;
    }
  }

  /** Below the place where the search stopped every slot is lower. */
  lemma Lower(v: map<Id, Ptr>, base: int, size: nat, l: seq<Id>, k: nat, level: int)
    requires Descending(v, base, size, l) && k <= |l|
             && (k < |l| ==> l[k] in v && v[l[k]].OnStack? && v[l[k]].addr < level) && Above(v, l, k, level + 1)
    ensures Around(v, l, k, level)
  {
  }

  lemma SearchStart(v: map<Id, Ptr>, l: seq<Id>, level: int)
    ensures Above(v, l, 0, level + 1)
  {
  }

  lemma SlotAt(v: map<Id, Ptr>, base: int, size: nat, l: seq<Id>, k: nat)
    requires Descending(v, base, size, l)
    ensures k < |l| ==> l[k] in v && v[l[k]].OnStack?
  {
  }

  lemma AboveNext(v: map<Id, Ptr>, l: seq<Id>, k: nat, level: int)
    requires Above(v, l, k, level) && k < |l| && l[k] in v && v[l[k]].OnStack? && v[l[k]].addr >= level
    ensures Above(v, l, k + 1, level)
  {
  }

  /** What luaF_close has not reached is as it was. */
  lemma Untouched(v0: map<Id, Ptr>, own0: map<Id, Value>, v: map<Id, Ptr>, own: map<Id, Value>,
                  stack: seq<Value>, base: int, l: seq<Id>, k: nat, dead: set<Id>)
    requires Progress(v0, own0, v, own, stack, base, l, k, dead) && k < |l| && Distinct(l)
             && Descending(v0, base, |stack|, l)
    ensures l[k] in v0 && l[k] in v && v[l[k]] == v0[l[k]] && v0[l[k]].OnStack?
  {
    assert l[k] !in l[..k];
  }
}
