/** Lua tables: an array part and a hash part that together behave as one finite map. */
module LuaTable {
  import opened Common
  import opened TableSizes
  import opened TableHash

  datatype Status = Done | NilIndex | Overflow

  datatype Slot = InArray(i: nat) | InNode(i: nat)

  // ----- the walk along a chain

  /** The nodes that come after i in its chain. */
  function Rest(pos: seq<Place>, i: int): set<int> {
    set j | 0 <= j < |pos| && Later(pos, i, j)
  }

  lemma RestShrinks(pos: seq<Place>, i: int, j: int)
    requires Later(pos, i, j)
    ensures Rest(pos, j) < Rest(pos, i)
  {
    assert j in Rest(pos, i) && j !in Rest(pos, j);
  }

  /** The walk from the main position of k has come to cur without finding k. */
  ghost predicate Passed(nodes: seq<Node>, pos: seq<Place>, k: Key, cur: int) {
    && (Keyed(nodes, cur) || !Has(nodes, k))
    && (forall i :: Keyed(nodes, i) && nodes[i].key == k ==> i == cur || Later(pos, cur, i))
  }

  lemma PassedStart(hash: Hash, nodes: seq<Node>, pos: seq<Place>, k: Key)
    requires HashInv(hash, nodes, pos)
    ensures Passed(nodes, pos, k, MainPosition(hash, k, |nodes|))
  {
    hide MainPosition;
    forall i | Keyed(nodes, i) && nodes[i].key == k
      ensures var m := MainPosition(hash, k, |nodes|); Keyed(nodes, m) && (i == m || Later(pos, m, i))
    {
      assert MainOk(hash, nodes, pos, i);
    }
  }

  lemma PassedStep(nodes: seq<Node>, pos: seq<Place>, k: Key, cur: int)
    requires Chains(nodes, pos) && 0 <= cur < |nodes| && Passed(nodes, pos, k, cur) && nodes[cur].key != k
    ensures nodes[cur].next < 0 ==> !Has(nodes, k)
    ensures nodes[cur].next >= 0 ==> Keyed(nodes, nodes[cur].next) && Passed(nodes, pos, k, nodes[cur].next)
                                     && Later(pos, cur, nodes[cur].next)
  {
    assert NodeOk(nodes, pos, cur);
    forall i | Keyed(nodes, i) && nodes[i].key == k
      ensures nodes[cur].next >= 0 && (i == nodes[cur].next || Later(pos, nodes[cur].next, i))
    {
      assert Later(pos, cur, i) && StepOk(nodes, pos, cur, i);
    }
  }

  // ----- free nodes

  /** getfreepos has passed no free node. */
  predicate FullFrom(nodes: seq<Node>, lastfree: int) {
    forall i :: 0 <= i < |nodes| && lastfree <= i ==> Keyed(nodes, i)
  }

  ghost predicate HasFree(nodes: seq<Node>) {
    exists i :: 0 <= i < |nodes| && nodes[i].key.NilKey?
  }

  /** Without a free node there are as many keys as nodes. */
  lemma FullNodes(nodes: seq<Node>, ks: set<Key>)
    requires Unique(nodes) && !HasFree(nodes) && forall i :: Keyed(nodes, i) ==> nodes[i].key in ks
    ensures |nodes| <= |ks|
  {
    var all := set i | 0 <= i < |nodes| :: nodes[i].key;
    ManyKeys(nodes, |nodes|);
    assert forall i :: 0 <= i < |nodes| ==> Keyed(nodes, i);
    assert ks == all + (ks - all);
  }

  lemma {:induction false} ManyKeys(nodes: seq<Node>, n: nat)
    requires Unique(nodes) && n <= |nodes| && !HasFree(nodes)
    ensures |set i | 0 <= i < n :: nodes[i].key| == n
    decreases n
  {
    var s := set i | 0 <= i < n :: nodes[i].key;
    if n == 0 {
      assert s == {};
    } else {
      ManyKeys(nodes, n - 1);
      var t := set i | 0 <= i < n - 1 :: nodes[i].key;
      assert Keyed(nodes, n - 1) && forall i :: 0 <= i < n ==> Keyed(nodes, i);
      assert nodes[n - 1].key !in t;
      assert s == t + {nodes[n - 1].key};
    }
  }

  // ----- both parts together

  predicate Indexed(k: Key, size: nat) {
    k.Int? && 1 <= k.n <= size
  }

  ghost function Lookup(arr: seq<Value>, nodes: seq<Node>, k: Key): Value {
    if Indexed(k, |arr|) then arr[k.n - 1] else ValueIn(nodes, k)
  }

  /** The hash part holds no key of the array part. */
  ghost predicate Apart(arr: seq<Value>, nodes: seq<Node>) {
    forall i :: Keyed(nodes, i) ==> !Indexed(nodes[i].key, |arr|)
  }

  /** The keys that have a value. */
  ghost function Entries(arr: seq<Value>, nodes: seq<Node>): set<Key> {
    (set i | 0 <= i < |arr| && arr[i] != Nil :: Int(i + 1))
      + (set i | 0 <= i < |nodes| && Keyed(nodes, i) && nodes[i].value != Nil :: nodes[i].key)
  }

  lemma EntriesAre(arr: seq<Value>, nodes: seq<Node>, k: Key)
    requires Unique(nodes) && Apart(arr, nodes)
    ensures k in Entries(arr, nodes) <==> Lookup(arr, nodes, k) != Nil
  {
    if Indexed(k, |arr|) {
      assert arr[k.n - 1] != Nil ==> Int(k.n - 1 + 1) in Entries(arr, nodes);
    } else if Has(nodes, k) {
      var i := Find(nodes, k);
      FoundIs(nodes, i);
    }
  }

  ghost predicate TableInv(hash: Hash, arr: seq<Value>, nodes: seq<Node>, pos: seq<Place>, dummy: bool, lastfree: int) {
    && HashInv(hash, nodes, pos) && Apart(arr, nodes) && |arr| <= MAXASIZE && |nodes| <= MAXASIZE
    && lastfree <= |nodes| && (if dummy then nodes == [EMPTY] && lastfree <= 0 else FullFrom(nodes, lastfree))
  }

  lemma EmptyInv(hash: Hash, n: nat)
    requires n > 0
    ensures HashInv(hash, seq(n, _ => EMPTY), seq(n, _ => Place(0, 0.0)))
  {
  }

  class Table {
    const hash: Hash
    var arr: seq<Value>
    var nodes: seq<Node>
    var dummy: bool            // nodes is the shared dummynode
    var lastfree: int
    ghost var pos: seq<Place>

    ghost predicate Valid()
      reads this
    {
      TableInv(hash, arr, nodes, pos, dummy, lastfree)
    }

    ghost function At(k: Key): Value
      reads this
    {
      Lookup(arr, nodes, k)
    }

    /** A new key finds a place without a rehash. */
    ghost predicate Room(k: Key)
      reads this
    {
      Indexed(k, |arr|) || Has(nodes, k) || (!dummy && HasFree(nodes))
    }

    /** newkey finds no place for k: its main position is taken and no node is free. */
    ghost predicate NoPlace(k: Key)
      requires |nodes| > 0
      reads this
    {
      && !k.NilKey? && !Indexed(k, |arr|) && !Has(nodes, k)
      && (dummy || (nodes[MainPosition(hash, k, |nodes|)].value != Nil && !HasFree(nodes)))
    }

    /** Storing at k raises "table overflow". */
    ghost predicate Overflows(k: Key)
      requires |nodes| > 0
      reads this
    {
      NoPlace(k) && TooMany(Entries(arr, nodes) + {k})
    }

    /** What "table overflow" leaves behind, when the table was to hold es: the array part has its
        new size already, filled up with nil, and the hash part is as it was. */
    ghost predicate Overflown(arr0: seq<Value>, nodes0: seq<Node>, es: set<Key>)
      reads this
    {
      && nodes == nodes0 && HashInv(hash, nodes, pos)
      && exists n: nat :: Optimal(Ints(es), n) && arr == FilledUp(arr0, n)
    }

    /** The sizes a rehash chooses for the keys es: the best array part, and for the rest the
        smallest hash part that holds it. */
    ghost predicate Fitted(es: set<Key>)
      reads this
    {
      Optimal(Ints(es), |arr|) && SmallestPower(|nodes|, |Beyond(es, |arr|)|)
    }

    ghost predicate SlotOf(s: Slot, k: Key)
      reads this
    {
      match s
      case InArray(i) => Indexed(k, |arr|) && i == k.n - 1
      case InNode(i) => !Indexed(k, |arr|) && Keyed(nodes, i) && nodes[i].key == k
    }

    constructor (hash: Hash, narray: nat)
      requires narray <= MAXASIZE
      ensures Valid() && this.hash == hash && |arr| == narray && dummy && forall k :: At(k) == Nil
    {
      this.hash := hash;
      arr := seq(narray, _ => Nil);
      nodes, pos, dummy, lastfree := [EMPTY], [TableHash.Place(0, 0.0)], true, 0;
    }

    /** luaH_new. */
    static method New(hash: Hash, narray: nat, nhash: nat) returns (st: Status, t: Table)
      requires narray <= MAXASIZE
      ensures fresh(t) && t.Valid() && t.hash == hash && |t.arr| == narray && forall k :: t.At(k) == Nil
      ensures st == if nhash <= MAXASIZE then Done else Overflow
      ensures st.Done? ==> |t.nodes| >= nhash && SmallestPower(|t.nodes|, nhash) && (t.dummy <==> nhash == 0)
    {
      t := new Table(hash, narray);
      assert forall i :: 0 <= i < narray ==> t.arr[i] == t.At(Int(i + 1));
      var ok := t.SetNodeVector(nhash);
      st := if ok then Done else Overflow;
    }

    // ----- reading

    /** The search along the chain of the main position of k. */
    method Search(k: Key) returns (i: int)
      requires HashInv(hash, nodes, pos) && !k.NilKey?
      ensures i >= 0 ==> Keyed(nodes, i) && nodes[i].key == k
      ensures i < 0 ==> !Has(nodes, k)
    {
      hide Mains, Unique, Steps, Ranked, MainPosition, Later, Passed;
      i := MainPosition(hash, k, |nodes|);
      PassedStart(hash, nodes, pos, k);
      while true
        invariant 0 <= i < |nodes| && Passed(nodes, pos, k, i)
        decreases Rest(pos, i)
      {
        if nodes[i].key == k { return; }
        PassedStep(nodes, pos, k, i);
        if nodes[i].next < 0 { return -1; }
        RestShrinks(pos, i, nodes[i].next);
        i := nodes[i].next;
      }
    }

    /** luaH_get. */
    method Get(k: Key) returns (v: Value)
      requires Valid()
      ensures v == At(k)
    {
      if k.NilKey? { return Nil; }
      if k.Int? && 1 <= k.n <= |arr| { return arr[k.n - 1]; }
      var i := Search(k);
      if i >= 0 {
        FoundIs(nodes, i);
        return nodes[i].value;
      }
      return Nil;
    }

    // ----- inserting a key

    method GetFreePos() returns (n: int)
      requires lastfree <= |nodes| && (dummy ==> lastfree <= 0) && (!dummy ==> FullFrom(nodes, lastfree))
      modifies `lastfree
      ensures lastfree <= |nodes| && (dummy ==> n < 0 && lastfree <= 0)
      ensures n >= 0 ==> n < |nodes| && nodes[n].key.NilKey? && lastfree == n && forall i ::
              0 <= i < |nodes| && n < i ==> Keyed(nodes, i)
      ensures n < 0 && !dummy ==> !HasFree(nodes) && FullFrom(nodes, lastfree)
    {
      while lastfree > 0
        invariant lastfree <= |nodes| && (dummy ==> lastfree <= 0) && (!dummy ==> FullFrom(nodes, lastfree))
        decreases lastfree
      {
        lastfree := lastfree - 1;
        if nodes[lastfree].key.NilKey? { return lastfree; }
      }
      assert forall i :: 0 <= i < |nodes| ==> (Keyed(nodes, i) <==> !nodes[i].key.NilKey?);
      lastfree := lastfree - 1;
      return -1;
    }

    /** The node before mp in the chain that mp belongs to. */
    method FindPrevious(mp: nat) returns (prev: nat)
      requires HashInv(hash, nodes, pos) && Keyed(nodes, mp) && MainPosition(hash, nodes[mp].key, |nodes|) != mp
      ensures Keyed(nodes, prev) && nodes[prev].next == mp
    {
      hide Unique, MainPosition;
      assert MainOk(hash, nodes, pos, mp);
      prev := MainPosition(hash, nodes[mp].key, |nodes|);
      while nodes[prev].next != mp
        invariant Keyed(nodes, prev) && Later(pos, prev, mp)
        decreases Rest(pos, prev)
      {
        assert StepOk(nodes, pos, prev, mp) && NodeOk(nodes, pos, prev);
        RestShrinks(pos, prev, nodes[prev].next);
        prev := nodes[prev].next;
      }
    }

    /** newkey, when a place is found: the new key has no value yet, nothing else changes. */
    method Place(k: Key) returns (slot: int)
      requires Valid() && !k.NilKey? && !Has(nodes, k) && !Indexed(k, |arr|)
      modifies `nodes, `pos, `lastfree
      ensures slot < 0 ==> nodes == old(nodes) && pos == old(pos) && (!dummy ==> !HasFree(nodes)) && Valid()
      ensures slot < 0 <==> old(NoPlace(k))
      ensures slot >= 0 ==> Valid() && !dummy && Keyed(nodes, slot) && nodes[slot].key == k && nodes[slot].value == Nil
      ensures slot >= 0 ==> |nodes| == old(|nodes|) && (forall q :: At(q) == old(At(q)))
      ensures slot >= 0 ==> forall i :: Keyed(nodes, i) ==> nodes[i].key == k || Has(old(nodes), nodes[i].key)
    {
      hide Chains, Mains, MainPosition, Later;
      var mp := MainPosition(hash, k, |nodes|);
      if nodes[mp].value != Nil || dummy {
        var n := GetFreePos();
        if n < 0 { return n; }
        HolderKeyed(nodes, pos, mp);
        if MainPosition(hash, nodes[mp].key, |nodes|) != mp {
          var prev := FindPrevious(mp);
          PutMovingInv(hash, nodes, pos, mp, prev, n, k);
          PrevApart(nodes, pos, mp, prev);
          MovingContents(arr, nodes, mp, prev, n, k);
          pos := MovedPlaces(pos, mp, n);
          nodes := PutMoving(nodes, mp, prev, n, k);
          slot := mp;
        } else {
          NextBound(nodes, pos, mp);
          PutAfterInv(hash, nodes, pos, mp, n, k);
          AfterContents(arr, nodes, mp, n, k);
          pos := AfterPlaces(nodes, pos, mp, n);
          nodes := PutAfter(nodes, mp, n, k);
          slot := n;
        }
      } else {
        PutMainInv(hash, nodes, pos, mp, k);
        MainContents(arr, nodes, mp, k);
        pos := MainPlaces(nodes, pos, mp);
        nodes := PutMain(nodes, mp, k);
        slot := mp;
      }
    }

    /** newkey: without a free node the table is rehashed, and then the key has a place. */
    method NewKey(k: Key) returns (st: Status, slot: Slot)
      requires Valid() && !k.NilKey? && !Has(nodes, k) && !Indexed(k, |arr|)
      modifies this
      ensures st.Done? ==> Valid() && SlotOf(slot, k) && forall q :: At(q) == old(At(q))
      ensures old(Room(k)) ==> st.Done? && Undisturbed(old(arr), old(nodes), old(dummy), k)
      ensures !st.NilIndex? && (st.Overflow? <==> old(Overflows(k)))
      ensures st.Overflow? ==> Overflown(old(arr), old(nodes), old(Entries(arr, nodes)) + {k})
      ensures st.Done? ==> if old(NoPlace(k)) then Fitted(old(Entries(arr, nodes)) + {k})
                           else |arr| == old(|arr|) && |nodes| == old(|nodes|)
      decreases if Room(k) then 0 else 5
    {
      hide TableInv, Lookup, Unique;
      var i := Place(k);
      if i >= 0 { return Done, InNode(i); }
      RoomNone(k);
      var ok := Rehash(k);
      if !ok { return Overflow, InNode(0); }
      st, slot := SetSlot(k);
    }

    lemma RoomNone(k: Key)
      requires !Has(nodes, k) && !Indexed(k, |arr|) && (!dummy ==> !HasFree(nodes))
      ensures !Room(k)
    {
    }

    /** What inserting k may do to the vectors when there is room. */
    ghost predicate Undisturbed(arr0: seq<Value>, nodes0: seq<Node>, dummy0: bool, k: Key)
      reads this
    {
      && |arr| == |arr0| && |nodes| == |nodes0| && dummy == dummy0
      && forall i :: Keyed(nodes, i) ==> nodes[i].key == k || Has(nodes0, nodes[i].key)
    }

    lemma UndisturbedSelf(k: Key)
      ensures Undisturbed(arr, nodes, dummy, k)
    {
    }

    /** luaH_set: the place where the value of k is kept. */
    method SetSlot(k: Key) returns (st: Status, slot: Slot)
      requires Valid()
      modifies this
      ensures st.NilIndex? <==> k.NilKey?
      ensures st.Done? ==> Valid() && SlotOf(slot, k) && forall q :: At(q) == old(At(q))
      ensures old(Room(k)) && !k.NilKey? ==> st.Done? && Undisturbed(old(arr), old(nodes), old(dummy), k)
      ensures st.NilIndex? ==> arr == old(arr) && nodes == old(nodes) && Valid()
      ensures st.Overflow? <==> old(Overflows(k))
      ensures st.Overflow? ==> Overflown(old(arr), old(nodes), old(Entries(arr, nodes)) + {k})
      ensures st.Done? ==> if old(NoPlace(k)) then Fitted(old(Entries(arr, nodes)) + {k})
                           else |arr| == old(|arr|) && |nodes| == old(|nodes|)
      decreases if Room(k) then 1 else 6
    {
      hide Lookup, HashInv, FullFrom;
      slot := InNode(0);
      if k.NilKey? { st := NilIndex; return; }
      UndisturbedSelf(k);
      if k.Int? && 1 <= k.n <= |arr| { return Done, InArray(k.n - 1); }
      var i := Search(k);
      if i >= 0 { return Done, InNode(i); }
      st, slot := NewKey(k);
    }

    /** Storing into the place that luaH_set returned. */
    method Store(slot: Slot, ghost k: Key, v: Value)
      requires Valid() && SlotOf(slot, k)
      modifies `arr, `nodes
      ensures Valid() && SlotOf(slot, k) && |arr| == old(|arr|) && |nodes| == old(|nodes|)
      ensures forall i :: Keyed(nodes, i) <==> Keyed(old(nodes), i)
      ensures forall i :: Keyed(nodes, i) ==> nodes[i].key == old(nodes)[i].key
      ensures forall q :: At(q) == if q == k then v else old(At(q))
    {
      hide HashInv, FullFrom, Apart, Lookup, ValueIn;
      match slot
      case InArray(i) =>
        StoreArray(arr, nodes, k, v);
        arr := arr[i := v];
        assert arr == old(arr)[k.n - 1 := v];
        forall q ensures At(q) == if q == k then v else old(At(q)) {
          assert old(At(q)) == Lookup(old(arr), nodes, q);
          assert At(q) == Lookup(old(arr)[k.n - 1 := v], nodes, q);
        }
      case InNode(i) =>
        StoreInv(hash, nodes, pos, i, v);
        UniqueApart();
        StoreNode(arr, nodes, lastfree, i, v);
        nodes := nodes[i := nodes[i].(value := v)];
    }

    /** t[k] = v. */
    method Put(k: Key, v: Value) returns (st: Status)
      requires Valid()
      modifies this
      ensures st.NilIndex? <==> k.NilKey?
      ensures st.Done? ==> Valid() && forall q :: At(q) == if q == k then v else old(At(q))
      ensures old(Room(k)) && !k.NilKey? ==> st.Done? && Undisturbed(old(arr), old(nodes), old(dummy), k)
      ensures st.NilIndex? ==> arr == old(arr) && nodes == old(nodes) && Valid()
      ensures st.Overflow? <==> old(Overflows(k))
      ensures st.Overflow? ==> Overflown(old(arr), old(nodes), old(Entries(arr, nodes)) + {k})
      ensures st.Done? ==> if old(NoPlace(k)) then Fitted(old(Entries(arr, nodes)) + {k})
                           else |arr| == old(|arr|) && |nodes| == old(|nodes|)
      ensures st.Overflow? ==>
              forall q :: At(q) == if Indexed(q, |arr|) && !Indexed(q, |old(arr)|) then Nil else old(At(q))
      decreases if Room(k) then 2 else 7
    {
      hide TableInv, Lookup, HasFree, HashInv;
      var slot;
      st, slot := SetSlot(k);
      if st.Done? { Store(slot, k, v); }
      if st.Overflow? {
        ghost var n: nat :| Optimal(Ints(old(Entries(arr, nodes)) + {k}), n) && arr == FilledUp(old(arr), n);
        forall q ensures At(q) == if Indexed(q, |arr|) && !Indexed(q, |old(arr)|) then Nil else old(At(q)) {
          FilledUpMap(old(arr), nodes, n, q);
        }
      }
    }

    // ----- resizing

    /** setnodevector: raises "table overflow" when 2^26 nodes are not enough. */
    method SetNodeVector(size: nat) returns (ok: bool)
      modifies `nodes, `pos, `dummy, `lastfree
      ensures ok <==> size <= MAXASIZE
      ensures !ok ==> nodes == old(nodes) && pos == old(pos) && dummy == old(dummy) && lastfree == old(lastfree)
      ensures ok ==> SmallestPower(|nodes|, size) && |nodes| <= MAXASIZE
      ensures ok ==> |nodes| >= size && (dummy <==> size == 0) && HashInv(hash, nodes, pos)
                     && (forall i :: !Keyed(nodes, i))
      ensures ok ==> lastfree <= |nodes|
                     && (if dummy then nodes == [EMPTY] && lastfree <= 0 else FullFrom(nodes, lastfree))
    {
      MaxSize();
      var n := 1;
      if size == 0 {
        dummy, lastfree := true, 0;
      } else {
        var lsize := CeilLog2(size);
        if lsize > MAXBITS {
          Pow2Mono(MAXBITS, lsize - 1);
          return false;
        }
        Pow2Mono(lsize, MAXBITS);
        n := Pow2(lsize);
        dummy, lastfree := false, n;
      }
      nodes, pos := seq(n, _ => EMPTY), seq(n, _ => TableHash.Place(0, 0.0));
      assert size == 0 ==> n == Pow2(0);
      EmptyInv(hash, n);
      ok := true;
    }

    /** resize: every entry is put back into the new parts, and there is room for each. */
    method Resize(nasize: nat, nhsize: nat) returns (ok: bool)
      requires Valid() && nasize <= MAXASIZE && |Beyond(Entries(arr, nodes), nasize)| <= nhsize
      modifies this
      ensures ok <==> nhsize <= MAXASIZE
      ensures ok ==> Valid() && |arr| == nasize && |nodes| >= nhsize && (dummy <==> nhsize == 0) && forall q ::
              At(q) == old(At(q))
      ensures ok ==> SmallestPower(|nodes|, nhsize)
      ensures ok ==> forall i :: Keyed(nodes, i) ==> nodes[i].key in Beyond(old(Entries(arr, nodes)), nasize)
      ensures !ok ==> nodes == old(nodes) && pos == old(pos) && arr == FilledUp(old(arr), nasize)
      decreases 3, 2
    {
      hide HashInv, Lookup, Entries, FullFrom, Beyond, ValueIn, Partial, Has, Apart, Unique;
      var a0, nold := arr, nodes;
      UniqueApart();
      if nasize > |arr| { arr := arr + seq(nasize - |arr|, _ => Nil); }
      ok := SetNodeVector(nhsize);
      if !ok { return; }
      arr := arr[..nasize];
      assert forall k: nat :: k < nasize ==> arr[k] == if k < |a0| then a0[k] else Nil;
      NothingYet(arr, nodes, a0, nold, nasize);
      PutArrayBack(a0, nasize, nhsize, nold);
      PutNodesBack(nold, nasize, nhsize, a0, old(pos));
    }

    /** The loop of resize over the part of the array that vanishes. */
    method PutArrayBack(a0: seq<Value>, nasize: nat, ghost nhsize: nat, ghost nold: seq<Node>)
      requires Filling(nasize, nhsize, a0, nold)
      requires forall q :: At(q) == Partial(a0, nold, nasize, nasize, |nold|, q)
      modifies this
      ensures Filling(nasize, nhsize, a0, nold)
      ensures forall q :: At(q) == Partial(a0, nold, nasize, |FilledUp(a0, nasize)|, |nold|, q)
      decreases 3, 1
    {
      hide HashInv, Lookup, Entries, FullFrom, Beyond, ValueIn, Partial, Has, Apart, Unique, Filling;
      var i := nasize;
      while i < |a0|
        invariant nasize <= i <= |FilledUp(a0, nasize)|
        invariant Filling(nasize, nhsize, a0, nold) && forall q :: At(q) == Partial(a0, nold, nasize, i, |nold|, q)
      {
        label before:
        if a0[i] != Nil {
          ArrayEntry(a0, nold, i, nasize);
          PutBack(Int(i + 1), a0[i], nasize, nhsize, a0, nold);
        }
        forall q ensures At(q) == Partial(a0, nold, nasize, i + 1, |nold|, q) {
          PartialArray(a0, nold, nasize, i, |nold|, q);
          assert old@before(At(q)) == Partial(a0, nold, nasize, i, |nold|, q);
        }
        i := i + 1;
      }
    }

    /** The loop of resize over the old nodes. */
    method PutNodesBack(nold: seq<Node>, nasize: nat, ghost nhsize: nat, ghost a0: seq<Value>,
                        ghost pos0: seq<TableHash.Place>)
      requires Filling(nasize, nhsize, a0, nold) && HashInv(hash, nold, pos0) && Unique(nold) && Apart(a0, nold)
      requires forall q :: At(q) == Partial(a0, nold, nasize, |FilledUp(a0, nasize)|, |nold|, q)
      modifies this
      ensures Filling(nasize, nhsize, a0, nold) && forall q :: At(q) == Lookup(a0, nold, q)
      decreases 3, 1
    {
      hide HashInv, Lookup, Entries, FullFrom, Beyond, ValueIn, Partial, Has, Apart, Unique, Filling;
      ghost var i := |FilledUp(a0, nasize)|;
      var j := |nold|;
      while j > 0
        invariant 0 <= j <= |nold|
        invariant Filling(nasize, nhsize, a0, nold) && forall q :: At(q) == Partial(a0, nold, nasize, i, j, q)
      {
        j := j - 1;
        PartialNode(a0, nold, nasize, i, j);
        if nold[j].value != Nil {
          NodeEntry(a0, nold, hash, pos0, j, nasize);
          PutBack(nold[j].key, nold[j].value, nasize, nhsize, a0, nold);
        }
      }
      forall q ensures At(q) == Lookup(a0, nold, q) { PartialDone(a0, nold, nasize, i, q); }
    }

    /** An entry goes back into the table. */
    method PutBack(k: Key, v: Value, ghost nasize: nat, ghost nhsize: nat, ghost a0: seq<Value>, ghost n0: seq<Node>)
      requires Filling(nasize, nhsize, a0, n0) && !k.NilKey?
               && (Indexed(k, nasize) || k in Beyond(Entries(a0, n0), nasize))
      modifies this
      ensures Filling(nasize, nhsize, a0, n0) && forall q :: At(q) == if q == k then v else old(At(q))
      decreases 3, 0
    {
      hide HashInv, Lookup, Entries, FullFrom, Beyond, ValueIn, Has;
      RoomFor(k, nasize, nhsize, a0, n0);
      var _ := Put(k, v);
      KeysGrow(arr, old(nodes), nodes, k, Beyond(Entries(a0, n0), nasize));
    }

    lemma UniqueApart()
      requires Valid()
      ensures Unique(nodes) && Apart(arr, nodes)
    {
    }

    /** While entries are put back, the hash part holds only some of those it is meant for. */
    ghost predicate Filling(nasize: nat, nhsize: nat, a0: seq<Value>, n0: seq<Node>)
      reads this
    {
      && Valid() && |arr| == nasize && |nodes| >= nhsize && (dummy <==> nhsize == 0) && SmallestPower(|nodes|, nhsize)
      && |Beyond(Entries(a0, n0), nasize)| <= nhsize
      && forall i :: Keyed(nodes, i) ==> nodes[i].key in Beyond(Entries(a0, n0), nasize)
    }

    /** An entry that is still to be put back finds room. */
    lemma RoomFor(k: Key, nasize: nat, nhsize: nat, a0: seq<Value>, n0: seq<Node>)
      requires Filling(nasize, nhsize, a0, n0) && (Indexed(k, nasize) || k in Beyond(Entries(a0, n0), nasize))
      ensures Room(k)
    {
      hide Entries, Beyond, FullFrom, Chains, Mains;
      var es := Beyond(Entries(a0, n0), nasize);
      if !Indexed(k, nasize) && !Has(nodes, k) {
        assert es == (es - {k}) + {k};
        if !HasFree(nodes) {
          FullNodes(nodes, es - {k});
        }
      }
    }

    // ----- counting

    method CountInt(k: Key, nums: seq<nat>, ghost es: set<Key>) returns (nums': seq<nat>, c: nat)
      requires Counts(nums, Ints(es)) && k !in es
      ensures Counts(nums', Ints(es + {k})) && |Ints(es + {k})| == |Ints(es)| + c
    {
      if k.Int? && 1 <= k.n <= MAXASIZE {
        var lg := CeilLog2(k.n);
        SliceBound(k.n);
        assert Ints(es + {k}) == Ints(es) + {k.n};
        CountOne(nums, Ints(es), k.n);
        nums', c := nums[lg := nums[lg] + 1], 1;
      } else {
        assert Ints(es + {k}) == Ints(es);
        nums', c := nums, 0;
      }
    }

    /** numusearray: counts slice by slice. */
    method NumUseArray() returns (nums: seq<nat>, ause: nat)
      requires |arr| <= MAXASIZE
      ensures Counts(nums, Ints(ArrayKeys(arr, |arr|))) && ause == |Ints(ArrayKeys(arr, |arr|))|
              == |ArrayKeys(arr, |arr|)|
    {
      hide Counts, Pow2, Ints, ArrayKeys, CountedTo;
      nums := seq(MAXBITS + 1, _ => 0);
      NoKeys(arr, nums);
      var lg, ttlg, i := 0, 1, 1;
      ause := 0;
      while lg <= MAXBITS
        invariant 0 <= lg <= MAXBITS + 1 && ttlg == Pow2(lg) && 1 <= i <= |arr| + 1 && |nums| == MAXBITS + 1
        invariant if lg == 0 then i == 1 else i == 1 + (if Pow2(lg - 1) < |arr| then Pow2(lg - 1) else |arr|)
        invariant CountedTo(arr, nums, ause, i)
      {
        var lc, lim := 0, ttlg;
        if lim > |arr| {
          lim := |arr|;
          if i > lim { break; }
        }
        if lg > 0 { Pow2Next(lg - 1); }
        assert nums[lg := nums[lg] + lc] == nums;
        while i <= lim
          invariant 1 <= i <= lim + 1 && (lg > 0 ==> i > Pow2(lg - 1) || i == lim + 1)
          invariant |nums| == MAXBITS + 1 && CountedTo(arr, nums[lg := nums[lg] + lc], ause + lc, i)
        {
          CountNext(arr, nums[lg := nums[lg] + lc], ause + lc, i, lg);
          assert nums[lg := nums[lg] + lc][lg := nums[lg] + lc + 1] == nums[lg := nums[lg] + (lc + 1)];
          if arr[i - 1] != Nil { lc := lc + 1; }
          i := i + 1;
        }
        nums := nums[lg := nums[lg] + lc];
        ause := ause + lc;
        Pow2Next(lg);
        lg, ttlg := lg + 1, ttlg * 2;
      }
      AllSlices(|arr|, lg, i);
      CountedAll(arr, nums, ause);
    }

    /** numusehash: adds the entries of the hash part to those of the array part. */
    method NumUseHash(nums: seq<nat>) returns (nums': seq<nat>, ause: nat, totaluse: nat)
      requires Valid() && Counts(nums, Ints(ArrayKeys(arr, |arr|)))
      ensures Counts(nums', Ints(Entries(arr, nodes)))
      ensures |Ints(Entries(arr, nodes))| == |Ints(ArrayKeys(arr, |arr|))| + ause
      ensures |Entries(arr, nodes)| == |ArrayKeys(arr, |arr|)| + totaluse
    {
      hide Counts, Ints, HashInv, FullFrom, ArrayKeys, NodeKeys, Unique, Apart, Entries;
      UniqueApart();
      AllEntries(arr, nodes);
      nums', ause, totaluse := nums, 0, 0;
      var i := |nodes|;
      while i > 0
        invariant 0 <= i <= |nodes| && Counts(nums', Ints(EntriesFrom(arr, nodes, i)))
        invariant |Ints(EntriesFrom(arr, nodes, i))| == |Ints(ArrayKeys(arr, |arr|))| + ause
        invariant |EntriesFrom(arr, nodes, i)| == |ArrayKeys(arr, |arr|)| + totaluse
      {
        i := i - 1;
        EntriesNext(arr, nodes, i);
        if nodes[i].value != Nil {
          ValuedKeyed(hash, nodes, pos, i);
          var c;
          nums', c := CountInt(nodes[i].key, nums', EntriesFrom(arr, nodes, i + 1));
          ause, totaluse := ause + c, totaluse + 1;
        }
      }
    }

    /** rehash: afterwards the pending key has room. */
    method Rehash(ek: Key) returns (ok: bool)
      requires Valid() && !ek.NilKey? && !Has(nodes, ek) && !Indexed(ek, |arr|)
      modifies this
      ensures ok ==> Valid() && Room(ek) && forall q :: At(q) == old(At(q))
      ensures ok ==> Fitted(old(Entries(arr, nodes)) + {ek})
      ensures ok <==> !TooMany(old(Entries(arr, nodes)) + {ek})
      ensures !ok ==> Overflown(old(arr), old(nodes), old(Entries(arr, nodes)) + {ek})
      decreases 4
    {
      hide Counts, Ints, HashInv, FullFrom, Lookup, Optimal, UpTo, Entries, ValueIn, Has;
      ghost var es := Entries(arr, nodes);
      Pending(arr, nodes, ek);
      var nums, nasize := NumUseArray();
      var totaluse := nasize;
      var ause, used;
      nums, ause, used := NumUseHash(nums);
      nasize, totaluse := nasize + ause, totaluse + used;
      var c;
      nums, c := CountInt(ek, nums, es);
      nasize, totaluse := nasize + c, totaluse + 1;
      IntsCandidates(es + {ek});
      var n, na := ComputeSizes(nums, nasize, Ints(es + {ek}));
      SizesFit(es, ek, n);
      HashNeeds(es + {ek}, n);
      IndexedCount(es + {ek}, n);
      ok := Resize(n, totaluse - na);
      if ok { RoomLeft(ek, es, n, totaluse - na); }
    }

    lemma RoomLeft(ek: Key, es: set<Key>, n: nat, nhsize: nat)
      requires Valid() && |arr| == n && |nodes| >= nhsize && (dummy <==> nhsize == 0)
      requires forall i :: Keyed(nodes, i) ==> nodes[i].key in Beyond(es, n)
      requires Indexed(ek, n) || |Beyond(es, n)| < nhsize
      ensures Room(ek)
    {
      if !Indexed(ek, n) && !HasFree(nodes) { FullNodes(nodes, Beyond(es, n)); }
    }

    /** What luaH_resizearray would move out of the array part has room in the hash part. */
    ghost predicate Shrinkable(nasize: nat)
      reads this
    {
      |Beyond(Entries(arr, nodes), nasize)| <= if dummy then 0 else |nodes|
    }

    /** Always so when the array part grows. */
    lemma GrowingFits(nasize: nat)
      requires Valid() && |arr| <= nasize
      ensures Shrinkable(nasize)
    {
      hide HashInv, FullFrom, Entries, Beyond;
      HashSize(arr, nodes, nasize);
      assert dummy ==> forall i :: !Keyed(nodes, i);
    }

    /** luaH_resizearray. */
    method ResizeArray(nasize: nat)
      requires Valid() && nasize <= MAXASIZE && Shrinkable(nasize)
      modifies this
      ensures Valid() && |arr| == nasize && forall q :: At(q) == old(At(q))
    {
      hide HashInv, FullFrom, Lookup, Entries, Beyond;
      var nsize := if dummy then 0 else |nodes|;
      var _ := Resize(nasize, nsize);
    }

    // ----- traversal

    /** findindex: -1 starts a traversal. */
    method FindIndex(k: Key) returns (found: bool, i: int)
      requires Valid()
      ensures found <==> k.NilKey? || Indexed(k, |arr|) || Has(nodes, k)
      ensures found ==> if k.NilKey? then i == -1 else 0 <= i < Size(arr, nodes) && KeyAt(arr, nodes, i) == k
    {
      hide HashInv, FullFrom;
      if k.NilKey? { return true, -1; }
      if k.Int? && 1 <= k.n <= |arr| { return true, k.n - 1; }
      var n := Search(k);
      found, i := n >= 0, n + |arr|;
    }

    /** luaH_next: the first entry after that of k, in the order of the two parts. */
    method Next(k: Key) returns (r: Step, ghost from: int, ghost at: int)
      requires Valid()
      ensures r.InvalidKey? <==> !(k.NilKey? || Indexed(k, |arr|) || Has(nodes, k))
      ensures !r.InvalidKey? ==> -1 <= from < at <= Size(arr, nodes)
                                 && (forall i :: from < i < at ==> ValueAt(arr, nodes, i) == Nil)
      ensures !r.InvalidKey? ==> if k.NilKey? then from == -1 else 0 <= from && KeyAt(arr, nodes, from) == k
      ensures r.End? ==> at == Size(arr, nodes)
      ensures r.Entry? ==> at < Size(arr, nodes) && r == Entry(KeyAt(arr, nodes, at), ValueAt(arr, nodes, at))
                           && r.value != Nil
    {
      hide HashInv, FullFrom, TableInv;
      var found, i := FindIndex(k);
      from, at := i, i;
      if !found { return InvalidKey, from, at; }
      i := i + 1;
      while i < |arr|
        invariant -1 <= from < i <= Size(arr, nodes) && forall j :: from < j < i ==> ValueAt(arr, nodes, j) == Nil
      {
        if arr[i] != Nil { return Entry(Int(i + 1), arr[i]), from, i; }
        i := i + 1;
      }
      i := i - |arr|;
      while i < |nodes|
        invariant 0 <= i && -1 <= from < i + |arr| <= Size(arr, nodes) && forall j :: from < j < i + |arr| ==>
                  ValueAt(arr, nodes, j) == Nil
      {
        if nodes[i].value != Nil { return Entry(nodes[i].key, nodes[i].value), from, i + |arr|; }
        i := i + 1;
      }
      return End, from, i + |arr|;
    }

    /** A whole traversal meets every entry exactly once. */
    method Traverse() returns (out: seq<(Key, Value)>)
      requires Valid()
      ensures forall j :: 0 <= j < |out| ==> out[j].1 != Nil && out[j].1 == At(out[j].0)
      ensures forall i, j :: 0 <= i < j < |out| ==> out[i].0 != out[j].0
      ensures forall k :: At(k) != Nil ==> exists j :: 0 <= j < |out| && out[j].0 == k
    {
      hide HashInv, FullFrom, TableInv, KeyAt, ValueAt, Lookup, Has;
      out := [];
      ghost var at: seq<int> := [];
      var k := NilKey;
      ghost var last := -1;
      SizeNonNeg();
      while true
        invariant -1 <= last < Size(arr, nodes) && Met(arr, nodes, out, at, last)
        invariant if k.NilKey? then last == -1 else last >= 0 && KeyAt(arr, nodes, last) == k
                                                    && ValueAt(arr, nodes, last) != Nil
        decreases Size(arr, nodes) - last
      {
        ghost var from, next;
        var r;
        r, from, next := Next(k);
        KnownKey(hash, arr, nodes, pos, dummy, lastfree, k, last, from);
        match r {
          case InvalidKey => assert false;
          case End =>
            MetEnd(hash, arr, nodes, pos, dummy, lastfree, out, at, last);
            return;
          case Entry(k', v) =>
            MetNext(arr, nodes, out, at, last, next);
            EntryKeyed(hash, arr, nodes, pos, dummy, lastfree, next);
            k := k';
            out, at, last := out + [(k', v)], at + [next], next;
        }
      }
    }

    lemma SizeNonNeg()
      requires Valid()
      ensures Size(arr, nodes) > 0
      ensures Met(arr, nodes, [], [], -1)
    {
    }

    // ----- the length of a table

    /** unbound_search. */
    method UnboundSearch(start: nat) returns (n: nat)
      requires Valid() && (start == 0 || At(Int(start)) != Nil)
      ensures (n == 0 || At(Int(n)) != Nil) && At(Int(n + 1)) == Nil
    {
      hide TableInv, Lookup;
      var i, j := start, start + 1;
      while true
        invariant 0 <= i < j && (i == 0 || At(Int(i)) != Nil)
        decreases MAX_INT + 1 - i
      {
        var v := Get(Int(j));
        if v == Nil { break; }
        i, j := j, j * 2;
        if j > MAX_INT { n := LinearSearch(); return; }
      }
      while j - i > 1
        invariant 0 <= i < j && (i == 0 || At(Int(i)) != Nil) && At(Int(j)) == Nil
        decreases j - i
      {
        var m := (i + j) / 2;
        var v := Get(Int(m));
        if v == Nil { j := m; } else { i := m; }
      }
      n := i;
    }

    method LinearSearch() returns (n: nat)
      requires Valid()
      ensures (n == 0 || At(Int(n)) != Nil) && At(Int(n + 1)) == Nil
    {
      hide TableInv, Lookup, Entries;
      UniqueApart();
      var i := 1;
      EntriesFrom1(arr, nodes, 0);
      while true
        invariant i >= 1 && (forall m :: 1 <= m < i ==> At(Int(m)) != Nil) && i - 1 <= |Entries(arr, nodes)|
        decreases |Entries(arr, nodes)| + 1 - i
      {
        var v := Get(Int(i));
        if v == Nil { return i - 1; }
        EntriesFrom1(arr, nodes, i);
        i := i + 1;
      }
    }

    /** luaH_getn: a boundary, as the length operator promises. */
    method GetN() returns (n: nat)
      requires Valid()
      ensures (n == 0 || At(Int(n)) != Nil) && At(Int(n + 1)) == Nil
    {
      hide HashInv, FullFrom;
      var j := |arr|;
      if j > 0 && arr[j - 1] == Nil {
        var i := 0;
        while j - i > 1
          invariant 0 <= i < j <= |arr| && (i == 0 || arr[i - 1] != Nil) && arr[j - 1] == Nil
          decreases j - i
        {
          var m := (i + j) / 2;
          if arr[m - 1] == Nil { j := m; } else { i := m; }
        }
        return i;
      } else if dummy {
        return j;
      } else {
        n := UnboundSearch(j);
      }
    }
  }


  lemma {:induction false} EntriesFrom1(arr: seq<Value>, nodes: seq<Node>, n: nat)
    requires Unique(nodes) && Apart(arr, nodes) && forall m :: 1 <= m <= n ==> Lookup(arr, nodes, Int(m)) != Nil
    ensures n <= |Entries(arr, nodes)|
  {
    hide Lookup, Entries;
    var s := set m | 1 <= m <= n :: Int(m);
    forall k | k in s ensures k in Entries(arr, nodes) { EntriesAre(arr, nodes, k); }
    IntsUpTo(n);
    assert Entries(arr, nodes) == s + (Entries(arr, nodes) - s);
  }

  lemma {:induction false} IntsUpTo(n: nat)
    ensures |set m | 1 <= m <= n :: Int(m)| == n
  {
    var s := set m | 1 <= m <= n :: Int(m);
    if n == 0 {
      assert s == {};
    } else {
      IntsUpTo(n - 1);
      assert s == (set m | 1 <= m <= n - 1 :: Int(m)) + {Int(n)};
    }
  }

  // ----- lemmas for traversals

  datatype Step = Entry(key: Key, value: Value) | End | InvalidKey

  function Size(arr: seq<Value>, nodes: seq<Node>): int {
    |arr| + |nodes|
  }

  function KeyAt(arr: seq<Value>, nodes: seq<Node>, i: int): Key
    requires 0 <= i < Size(arr, nodes)
  {
    if i < |arr| then Int(i + 1) else nodes[i - |arr|].key
  }

  function ValueAt(arr: seq<Value>, nodes: seq<Node>, i: int): Value
    requires 0 <= i < Size(arr, nodes)
  {
    if i < |arr| then arr[i] else nodes[i - |arr|].value
  }

  /** out lists the entries at the indices at, which are all up to last, in order. */
  ghost predicate Met(arr: seq<Value>, nodes: seq<Node>, out: seq<(Key, Value)>, at: seq<int>, last: int) {
    && |at| == |out| && last < Size(arr, nodes)
    && (forall j :: 0 <= j < |at| ==>
       0 <= at[j] <= last && out[j] == (KeyAt(arr, nodes, at[j]), ValueAt(arr, nodes, at[j])) && out[j].1 != Nil)
    && (forall i, j :: 0 <= i < j < |at| ==> at[i] < at[j])
    && (forall i :: 0 <= i <= last && ValueAt(arr, nodes, i) != Nil ==> i in at)
  }

  lemma MetNext(arr: seq<Value>, nodes: seq<Node>, out: seq<(Key, Value)>, at: seq<int>, last: int, next: int)
    requires Met(arr, nodes, out, at, last) && -1 <= last < next < Size(arr, nodes) && ValueAt(arr, nodes, next) != Nil
    requires forall i :: last < i < next ==> ValueAt(arr, nodes, i) == Nil
    ensures Met(arr, nodes, out + [(KeyAt(arr, nodes, next), ValueAt(arr, nodes, next))], at + [next], next)
  {
    hide KeyAt, ValueAt;
  }

  /** The entry at an index is what the table holds under the key at that index. */
  lemma EntryKeyed(hash: Hash, arr: seq<Value>, nodes: seq<Node>, pos: seq<TableHash.Place>, dummy: bool,
                   lastfree: int, i: int)
    requires TableInv(hash, arr, nodes, pos, dummy, lastfree) && 0 <= i < Size(arr, nodes)
             && ValueAt(arr, nodes, i) != Nil
    ensures !KeyAt(arr, nodes, i).NilKey? && Lookup(arr, nodes, KeyAt(arr, nodes, i)) == ValueAt(arr, nodes, i)
    ensures i >= |arr| ==> Keyed(nodes, i - |arr|)
  {
    hide Mains, Steps, Ranked;
    if i >= |arr| {
      ValuedKeyed(hash, nodes, pos, i - |arr|);
      FoundIs(nodes, i - |arr|);
    }
  }

  lemma KeysDiffer(hash: Hash, arr: seq<Value>, nodes: seq<Node>, pos: seq<TableHash.Place>, dummy: bool,
                   lastfree: int, i: int, j: int)
    requires TableInv(hash, arr, nodes, pos, dummy, lastfree) && 0 <= i < Size(arr, nodes)
             && ValueAt(arr, nodes, i) != Nil
    requires 0 <= j < Size(arr, nodes) && KeyAt(arr, nodes, i) == KeyAt(arr, nodes, j)
    ensures i == j
  {
    EntryKeyed(hash, arr, nodes, pos, dummy, lastfree, i);
    assert j >= |arr| ==> Keyed(nodes, j - |arr|);
  }

  /** A key that was met is found again, at the index where it was met. */
  lemma KnownKey(hash: Hash, arr: seq<Value>, nodes: seq<Node>, pos: seq<TableHash.Place>, dummy: bool, lastfree: int,
                 k: Key, last: int, from: int)
    requires TableInv(hash, arr, nodes, pos, dummy, lastfree) && -1 <= last < Size(arr, nodes)
    requires if k.NilKey? then last == -1 else last >= 0 && KeyAt(arr, nodes, last) == k
                                               && ValueAt(arr, nodes, last) != Nil
    ensures k.NilKey? || Indexed(k, |arr|) || Has(nodes, k)
    ensures 0 <= from < Size(arr, nodes) && !k.NilKey? && KeyAt(arr, nodes, from) == k ==> from == last
  {
    if !k.NilKey? {
      EntryKeyed(hash, arr, nodes, pos, dummy, lastfree, last);
      if 0 <= from < Size(arr, nodes) && KeyAt(arr, nodes, from) == k {
        KeysDiffer(hash, arr, nodes, pos, dummy, lastfree, last, from);
      }
    }
  }

  lemma MetEnd(hash: Hash, arr: seq<Value>, nodes: seq<Node>, pos: seq<TableHash.Place>, dummy: bool, lastfree: int,
               out: seq<(Key, Value)>, at: seq<int>, last: int)
    requires TableInv(hash, arr, nodes, pos, dummy, lastfree) && Met(arr, nodes, out, at, last) && -1 <= last
    requires forall i :: last < i < Size(arr, nodes) ==> ValueAt(arr, nodes, i) == Nil
    ensures forall j :: 0 <= j < |out| ==> out[j].1 != Nil && out[j].1 == Lookup(arr, nodes, out[j].0)
    ensures forall i, j :: 0 <= i < j < |out| ==> out[i].0 != out[j].0
    ensures forall k :: Lookup(arr, nodes, k) != Nil ==> exists j :: 0 <= j < |out| && out[j].0 == k
  {
    hide TableInv, Lookup, KeyAt, ValueAt;
    forall j | 0 <= j < |out| ensures out[j].1 != Nil && out[j].1 == Lookup(arr, nodes, out[j].0) {
      EntryKeyed(hash, arr, nodes, pos, dummy, lastfree, at[j]);
    }
    forall i, j | 0 <= i < j < |out| ensures out[i].0 != out[j].0 {
      if out[i].0 == out[j].0 { KeysDiffer(hash, arr, nodes, pos, dummy, lastfree, at[i], at[j]); }
    }
    forall k | Lookup(arr, nodes, k) != Nil ensures exists j :: 0 <= j < |out| && out[j].0 == k {
      var i := HeldAt(arr, nodes, k);
      assert i in at;
      var j :| 0 <= j < |at| && at[j] == i;
      assert out[j].0 == k;
    }
  }

  lemma HeldAt(arr: seq<Value>, nodes: seq<Node>, k: Key) returns (i: int)
    requires Lookup(arr, nodes, k) != Nil
    ensures 0 <= i < Size(arr, nodes) && KeyAt(arr, nodes, i) == k && ValueAt(arr, nodes, i) != Nil
  {
    if Indexed(k, |arr|) { i := k.n - 1; } else { i := Find(nodes, k) + |arr|; }
  }

  lemma HashSize(arr: seq<Value>, nodes: seq<Node>, nasize: nat)
    requires nasize >= |arr|
    ensures |Beyond(Entries(arr, nodes), nasize)| <= |nodes|
    ensures (forall i :: !Keyed(nodes, i)) ==> |Beyond(Entries(arr, nodes), nasize)| == 0
  {
    var ks := set i | 0 <= i < |nodes| :: nodes[i].key;
    KeySetSize(nodes, |nodes|);
    var b := Beyond(Entries(arr, nodes), nasize);
    assert b <= ks;
    assert ks == b + (ks - b);
    if forall i :: !Keyed(nodes, i) { assert b == {}; }
  }

  lemma {:induction false} KeySetSize(nodes: seq<Node>, n: nat)
    requires n <= |nodes|
    ensures |set i | 0 <= i < n :: nodes[i].key| <= n
  {
    var s := set i | 0 <= i < n :: nodes[i].key;
    if n == 0 {
      assert s == {};
    } else {
      KeySetSize(nodes, n - 1);
      assert s == (set i | 0 <= i < n - 1 :: nodes[i].key) + {nodes[n - 1].key};
    }
  }

  // ----- lemmas for resize

  /** The part of the contents of a0, n0 that has been put back: of the array the slots below
      nasize and below i, of the hash part the nodes from j on. */
  ghost function Partial(a0: seq<Value>, n0: seq<Node>, nasize: nat, i: nat, j: nat, q: Key): Value {
    if Indexed(q, |a0|) then (if q.n <= nasize || q.n <= i then a0[q.n - 1] else Nil)
    else if Has(n0, q) && Find(n0, q) >= j then n0[Find(n0, q)].value else Nil
  }

  lemma NothingYet(arr: seq<Value>, nodes: seq<Node>, a0: seq<Value>, n0: seq<Node>, nasize: nat)
    requires |arr| == nasize && (forall i :: !Keyed(nodes, i))
             && (forall k: nat :: k < nasize ==> arr[k] == if k < |a0| then a0[k] else Nil)
    requires Apart(a0, n0)
    ensures forall q :: Lookup(arr, nodes, q) == Partial(a0, n0, nasize, nasize, |n0|, q)
    ensures Apart(arr, nodes)
  {
  }

  lemma KeysGrow(arr: seq<Value>, nodes: seq<Node>, nodes': seq<Node>, k: Key, es: set<Key>)
    requires (forall i :: Keyed(nodes, i) ==> nodes[i].key in es)
             && (forall i :: Keyed(nodes', i) ==> nodes'[i].key == k || Has(nodes, nodes'[i].key))
    requires Apart(arr, nodes') && (k in es || Indexed(k, |arr|))
    ensures forall i :: Keyed(nodes', i) ==> nodes'[i].key in es
  {
    forall i | Keyed(nodes', i) ensures nodes'[i].key in es {
      if nodes'[i].key != k { var j := Find(nodes, nodes'[i].key); }
    }
  }

  lemma PartialArray(a0: seq<Value>, n0: seq<Node>, nasize: nat, i: nat, j: nat, q: Key)
    requires nasize <= i < |a0|
    ensures Partial(a0, n0, nasize, i + 1, j, q) == if q == Int(i + 1) then a0[i] else Partial(a0, n0, nasize, i, j, q)
    ensures a0[i] == Nil ==> Partial(a0, n0, nasize, i + 1, j, q) == Partial(a0, n0, nasize, i, j, q)
  {
    hide Has;
    if Indexed(q, |a0|) { assert q == Int(q.n); }
  }

  lemma PartialNode(a0: seq<Value>, n0: seq<Node>, nasize: nat, i: nat, j: nat)
    requires j < |n0| && Unique(n0) && Apart(a0, n0)
    ensures forall q :: Partial(a0, n0, nasize, i, j, q) ==
              if Keyed(n0, j) && q == n0[j].key then n0[j].value else Partial(a0, n0, nasize, i, j + 1, q)
    ensures n0[j].value == Nil ==> forall q :: Partial(a0, n0, nasize, i, j, q) == Partial(a0, n0, nasize, i, j + 1, q)
  {
    if Keyed(n0, j) { FoundIs(n0, j); }
  }

  lemma PartialDone(a0: seq<Value>, n0: seq<Node>, nasize: nat, i: nat, q: Key)
    requires i >= |a0| && Unique(n0)
    ensures Partial(a0, n0, nasize, i, 0, q) == Lookup(a0, n0, q)
  {
  }

  lemma ArrayEntry(a0: seq<Value>, n0: seq<Node>, i: nat, nasize: nat)
    requires nasize <= i < |a0| && a0[i] != Nil
    ensures Int(i + 1) in Beyond(Entries(a0, n0), nasize)
  {
  }

  lemma NodeEntry(a0: seq<Value>, n0: seq<Node>, hash: Hash, pos: seq<TableHash.Place>, j: nat, nasize: nat)
    requires HashInv(hash, n0, pos) && j < |n0| && n0[j].value != Nil
    ensures Keyed(n0, j) && (Indexed(n0[j].key, nasize) || n0[j].key in Beyond(Entries(a0, n0), nasize))
  {
    hide Mains, Steps, Ranked, Unique;
    assert NodeOk(n0, pos, j);
  }

  // ----- lemmas for rehash

  /** The integers of es that may be array indices. */
  function Ints(es: set<Key>): set<nat> {
    set k | k in es && Indexed(k, MAXASIZE) :: k.n
  }

  lemma IntsCandidates(es: set<Key>)
    ensures Candidates(Ints(es))
  {
  }

  function ArrayKeys(arr: seq<Value>, n: nat): set<Key>
    requires n <= |arr|
  {
    set i | 0 <= i < n && arr[i] != Nil :: Int(i + 1)
  }

  function NodeKeys(nodes: seq<Node>, from: nat): set<Key> {
    set i | from <= i < |nodes| && Keyed(nodes, i) && nodes[i].value != Nil :: nodes[i].key
  }

  ghost predicate CountedTo(arr: seq<Value>, nums: seq<nat>, ause: nat, i: nat)
    requires 1 <= i <= |arr| + 1
  {
    Counts(nums, Ints(ArrayKeys(arr, i - 1))) && ause == |Ints(ArrayKeys(arr, i - 1))| == |ArrayKeys(arr, i - 1)|
  }

  lemma NoKeys(arr: seq<Value>, nums: seq<nat>)
    requires nums == seq(MAXBITS + 1, _ => 0)
    ensures CountedTo(arr, nums, 0, 1) && Pow2(0) == 1
  {
    assert ArrayKeys(arr, 0) == {} && Ints({}) == {};
    CountNone(nums);
  }

  lemma ArrayKeysNext(arr: seq<Value>, i: nat)
    requires 1 <= i <= |arr|
    ensures ArrayKeys(arr, i) == ArrayKeys(arr, i - 1) + (if arr[i - 1] == Nil then {} else {Int(i)})
    ensures Int(i) !in ArrayKeys(arr, i - 1)
  {
  }

  lemma IntsAdd(es: set<Key>, i: nat)
    requires 1 <= i <= MAXASIZE && Int(i) !in es
    ensures Ints(es + {Int(i)}) == Ints(es) + {i} && i !in Ints(es)
  {
  }

  lemma CountNext(arr: seq<Value>, nums: seq<nat>, ause: nat, i: nat, lg: nat)
    requires 1 <= i <= |arr| <= MAXASIZE && lg <= MAXBITS && |nums| == MAXBITS + 1 && CountedTo(arr, nums, ause, i)
    requires i <= Pow2(lg) && (lg > 0 ==> i > Pow2(lg - 1))
    ensures if arr[i - 1] == Nil then CountedTo(arr, nums, ause, i + 1)
            else CountedTo(arr, nums[lg := nums[lg] + 1], ause + 1, i + 1)
  {
    hide Pow2, Counts, ArrayKeys, Ints;
    ArrayKeysNext(arr, i);
    if arr[i - 1] == Nil {
      assert ArrayKeys(arr, i) == ArrayKeys(arr, i - 1);
    } else {
      IntsAdd(ArrayKeys(arr, i - 1), i);
      CeilLogIs(i, lg);
      CountOne(nums, Ints(ArrayKeys(arr, i - 1)), i);
    }
  }

  lemma Pow2Next(lg: nat)
    ensures Pow2(lg + 1) == 2 * Pow2(lg)
  {
  }

  lemma AllSlices(n: nat, lg: nat, i: nat)
    requires n <= MAXASIZE && 1 <= i <= n + 1
    requires lg == MAXBITS + 1 || i > n
    requires lg > 0 ==> i == 1 + (if Pow2(lg - 1) < n then Pow2(lg - 1) else n)
    ensures i == n + 1
  {
    MaxSize();
  }

  lemma CountedAll(arr: seq<Value>, nums: seq<nat>, ause: nat)
    requires CountedTo(arr, nums, ause, |arr| + 1)
    ensures Counts(nums, Ints(ArrayKeys(arr, |arr|))) && ause == |Ints(ArrayKeys(arr, |arr|))|
            == |ArrayKeys(arr, |arr|)|
  {
  }

  /** The entries of the array part and of the nodes from i on. */
  function EntriesFrom(arr: seq<Value>, nodes: seq<Node>, i: nat): set<Key> {
    ArrayKeys(arr, |arr|) + NodeKeys(nodes, i)
  }

  lemma EntriesNext(arr: seq<Value>, nodes: seq<Node>, i: nat)
    requires i < |nodes| && Unique(nodes) && Apart(arr, nodes)
    ensures if Keyed(nodes, i) && nodes[i].value != Nil
            then EntriesFrom(arr, nodes, i) == EntriesFrom(arr, nodes, i + 1) + {nodes[i].key}
              && nodes[i].key !in EntriesFrom(arr, nodes, i + 1)
            else EntriesFrom(arr, nodes, i) == EntriesFrom(arr, nodes, i + 1)
  {
    if Keyed(nodes, i) && nodes[i].value != Nil {
      assert NodeKeys(nodes, i) == NodeKeys(nodes, i + 1) + {nodes[i].key};
    } else {
      assert NodeKeys(nodes, i) == NodeKeys(nodes, i + 1);
    }
  }

  lemma ValuedKeyed(hash: Hash, nodes: seq<Node>, pos: seq<TableHash.Place>, i: nat)
    requires HashInv(hash, nodes, pos) && i < |nodes| && nodes[i].value != Nil
    ensures Keyed(nodes, i)
  {
    assert NodeOk(nodes, pos, i);
  }

  lemma AllEntries(arr: seq<Value>, nodes: seq<Node>)
    ensures EntriesFrom(arr, nodes, 0) == Entries(arr, nodes)
            && EntriesFrom(arr, nodes, |nodes|) == ArrayKeys(arr, |arr|)
  {
    assert NodeKeys(nodes, |nodes|) == {};
  }

  lemma Pending(arr: seq<Value>, nodes: seq<Node>, ek: Key)
    requires !Has(nodes, ek) && !Indexed(ek, |arr|)
    ensures ek !in Entries(arr, nodes)
  {
  }

  /** The keys of es with a place in an array part of size n, as many as counted. */
  lemma {:induction false} IndexedCount(es: set<Key>, n: nat)
    requires n <= MAXASIZE
    ensures |UpTo(Ints(es), n)| + |Beyond(es, n)| == |es|
    decreases es
  {
    if es == {} {
      assert UpTo(Ints(es), n) == {} && Beyond(es, n) == {};
    } else {
      var k :| k in es;
      var r := es - {k};
      IndexedCount(r, n);
      assert es == r + {k};
      if Indexed(k, n) {
        assert UpTo(Ints(es), n) == UpTo(Ints(r), n) + {k.n} && k.n !in UpTo(Ints(r), n);
        assert Beyond(es, n) == Beyond(r, n);
      } else {
        assert UpTo(Ints(es), n) == UpTo(Ints(r), n);
        assert Beyond(es, n) == Beyond(r, n) + {k};
      }
    }
  }

  /** The computed size of the hash part suffices, with room for the pending key. */
  lemma SizesFit(es: set<Key>, ek: Key, n: nat)
    requires n <= MAXASIZE && ek !in es
    ensures var nhsize := |es| + 1 - |UpTo(Ints(es + {ek}), n)|;
            |Beyond(es, n)| <= nhsize && (Indexed(ek, n) || |Beyond(es, n)| < nhsize)
  {
    IndexedCount(es + {ek}, n);
    if Indexed(ek, n) {
      assert Beyond(es + {ek}, n) == Beyond(es, n);
    } else {
      assert Beyond(es + {ek}, n) == Beyond(es, n) + {ek};
    }
  }

  function FilledUp(arr: seq<Value>, n: nat): (r: seq<Value>)
    ensures arr <= r && |r| == if n > |arr| then n else |arr|
    ensures forall i :: |arr| <= i < |r| ==> r[i] == Nil
  {
    if n > |arr| then arr + seq(n - |arr|, _ => Nil) else arr
  }

  /** The map that is left: integer keys in the part of the array that was added read as nil, also
      if the hash part holds them; all others are as before. */
  lemma FilledUpMap(arr: seq<Value>, nodes: seq<Node>, n: nat, q: Key)
    ensures Lookup(FilledUp(arr, n), nodes, q) ==
            if Indexed(q, |FilledUp(arr, n)|) && !Indexed(q, |arr|) then Nil else Lookup(arr, nodes, q)
  {
  }

  /** n is the least power of two that is at least size. */
  ghost predicate SmallestPower(n: nat, size: nat) {
    exists k: nat :: n == Pow2(k) && size <= Pow2(k) && (k > 0 ==> Pow2(k - 1) < size)
  }

  /** With the best array part for the keys of es, more than 2^26 nodes are needed for the rest. */
  ghost predicate TooMany(es: set<Key>) {
    exists n: nat :: Optimal(Ints(es), n) && |Beyond(es, n)| > MAXASIZE
  }

  /** There is one best size, so the hash part alone decides. */
  lemma HashNeeds(es: set<Key>, n: nat)
    requires Optimal(Ints(es), n) && n <= MAXASIZE
    ensures TooMany(es) <==> |es| - |UpTo(Ints(es), n)| > MAXASIZE
  {
    hide Ints, Beyond, UpTo, Optimal;
    IndexedCount(es, n);
    forall m: nat | Optimal(Ints(es), m) ensures m == n { OneOptimal(Ints(es), m, n); }
  }

  lemma OneOptimal(ks: set<nat>, m: nat, n: nat)
    requires Optimal(ks, m) && Optimal(ks, n)
    ensures m == n
  {
  }

  /** Up to 2^26 keys never overflow a table. */
  lemma FewFit(es: set<Key>)
    requires |es| <= MAXASIZE
    ensures !TooMany(es)
  {
    forall n: nat ensures |Beyond(es, n)| <= |es| {
      assert es == Beyond(es, n) + (es - Beyond(es, n));
    }
  }

  /** The keys of es that have no place in an array part of size n. */
  function Beyond(es: set<Key>, n: nat): set<Key> {
    set k | k in es && !Indexed(k, n)
  }

  lemma StoreInv(hash: Hash, nodes: seq<Node>, pos: seq<TableHash.Place>, i: nat, v: Value)
    requires HashInv(hash, nodes, pos) && Keyed(nodes, i)
    ensures HashInv(hash, nodes[i := nodes[i].(value := v)], pos)
  {
    hide MainPosition;
    var nodes' := nodes[i := nodes[i].(value := v)];
    assert forall j :: Keyed(nodes', j) <==> Keyed(nodes, j);
    forall j | 0 <= j < |nodes'| ensures NodeOk(nodes', pos, j) { assert NodeOk(nodes, pos, j); }
    forall a, b | Keyed(nodes', a) && Keyed(nodes', b) && Later(pos, a, b)
      ensures StepOk(nodes', pos, a, b)
    {
      assert StepOk(nodes, pos, a, b);
    }
    forall j | Keyed(nodes', j) ensures MainOk(hash, nodes', pos, j) { assert MainOk(hash, nodes, pos, j); }
  }

  lemma StoreValues(nodes: seq<Node>, i: nat, v: Value)
    requires Unique(nodes) && Keyed(nodes, i)
    ensures var nodes' := nodes[i := nodes[i].(value := v)];
            forall q :: ValueIn(nodes', q) == if q == nodes[i].key then v else ValueIn(nodes, q)
  {
    var nodes' := nodes[i := nodes[i].(value := v)];
    assert forall j :: Keyed(nodes', j) <==> Keyed(nodes, j);
    forall q ensures ValueIn(nodes', q) == if q == nodes[i].key then v else ValueIn(nodes, q) {
      if Has(nodes', q) { FoundIs(nodes', Find(nodes', q)); assert Has(nodes, q); }
      if Has(nodes, q) { FoundIs(nodes, Find(nodes, q)); assert Keyed(nodes', Find(nodes, q)); }
    }
  }

  lemma StoreArray(arr: seq<Value>, nodes: seq<Node>, k: Key, v: Value)
    requires Indexed(k, |arr|)
    ensures Apart(arr, nodes) ==> Apart(arr[k.n - 1 := v], nodes)
    ensures forall q :: Lookup(arr[k.n - 1 := v], nodes, q) == if q == k then v else Lookup(arr, nodes, q)
  {
    hide ValueIn;
    var a' := arr[k.n - 1 := v];
    forall q ensures Lookup(a', nodes, q) == if q == k then v else Lookup(arr, nodes, q) {
      if Indexed(q, |arr|) { assert q == Int(q.n) && k == Int(k.n); }
    }
  }

  lemma StoreNode(arr: seq<Value>, nodes: seq<Node>, lastfree: int, i: nat, v: Value)
    requires Unique(nodes) && Keyed(nodes, i) && Apart(arr, nodes)
    ensures var nodes' := nodes[i := nodes[i].(value := v)];
            && Apart(arr, nodes') && (FullFrom(nodes, lastfree) ==> FullFrom(nodes', lastfree)) && nodes != [EMPTY]
            && forall q :: Lookup(arr, nodes', q) == if q == nodes[i].key then v else Lookup(arr, nodes, q)
  {
    hide ValueIn;
    StoreValues(nodes, i, v);
    var nodes' := nodes[i := nodes[i].(value := v)];
    assert forall j :: Keyed(nodes', j) <==> Keyed(nodes, j);
  }

  lemma HolderKeyed(nodes: seq<Node>, pos: seq<Place>, mp: nat)
    requires Chains(nodes, pos) && mp < |nodes| && nodes[mp].value != Nil
    ensures Keyed(nodes, mp)
  {
    assert NodeOk(nodes, pos, mp);
  }

  lemma NextBound(nodes: seq<Node>, pos: seq<Place>, mp: nat)
    requires Chains(nodes, pos) && Keyed(nodes, mp)
    ensures NULL <= nodes[mp].next < |nodes|
  {
    assert NodeOk(nodes, pos, mp);
  }

  /** What inserting k without a value must do to the contents. */
  ghost predicate Inserted(arr: seq<Value>, nodes: seq<Node>, nodes': seq<Node>, k: Key) {
    && |nodes'| == |nodes| && (forall q :: Lookup(arr, nodes', q) == Lookup(arr, nodes, q))
    && (forall i :: Keyed(nodes', i) ==> nodes'[i].key == k || Has(nodes, nodes'[i].key))
    && Apart(arr, nodes') && (forall i :: Keyed(nodes, i) ==> Keyed(nodes', i))
  }

  lemma InsertedBy(arr: seq<Value>, nodes: seq<Node>, nodes': seq<Node>, k: Key, at: nat)
    requires |nodes'| == |nodes| && Unique(nodes') && Apart(arr, nodes) && !Indexed(k, |arr|) && !k.NilKey?
             && !Has(nodes, k)
    requires at < |nodes'| && nodes'[at].key == k && nodes'[at].value == Nil
    requires forall q :: q != k ==> ValueIn(nodes', q) == ValueIn(nodes, q)
    requires forall i :: Keyed(nodes', i) ==> nodes'[i].key == k || Has(nodes, nodes'[i].key)
    requires forall i :: Keyed(nodes, i) ==> Keyed(nodes', i)
    ensures Inserted(arr, nodes, nodes', k)
  {
    FoundIs(nodes', at);
    forall q ensures Lookup(arr, nodes', q) == Lookup(arr, nodes, q) {
      if q == k { assert ValueIn(nodes, k) == Nil; }
    }
    forall i | Keyed(nodes', i) ensures !Indexed(nodes'[i].key, |arr|) {
      if nodes'[i].key != k { var j := Find(nodes, nodes'[i].key); }
    }
  }

  lemma MainContents(arr: seq<Value>, nodes: seq<Node>, mp: nat, k: Key)
    requires Unique(nodes) && Apart(arr, nodes) && !Indexed(k, |arr|) && !k.NilKey? && !Has(nodes, k)
    requires mp < |nodes| && nodes[mp].value == Nil
    ensures Inserted(arr, nodes, PutMain(nodes, mp, k), k)
  {
    hide ValueIn, Lookup, Indexed;
    var nodes' := PutMain(nodes, mp, k);
    forall q | q != k ensures ValueIn(nodes', q) == ValueIn(nodes, q) { PutMainValues(nodes, mp, k, q); }
    forall i | Keyed(nodes', i) && i != mp ensures Keyed(nodes, i) && nodes'[i] == nodes[i] {}
    InsertedBy(arr, nodes, nodes', k, mp);
  }

  lemma AfterContents(arr: seq<Value>, nodes: seq<Node>, mp: nat, n: nat, k: Key)
    requires Unique(nodes) && Apart(arr, nodes) && !Indexed(k, |arr|) && !k.NilKey? && !Has(nodes, k)
    requires Keyed(nodes, mp) && n < |nodes| && nodes[n].key.NilKey?
    ensures Inserted(arr, nodes, PutAfter(nodes, mp, n, k), k)
  {
    hide ValueIn, Lookup, Indexed;
    var nodes' := PutAfter(nodes, mp, n, k);
    forall q | q != k ensures ValueIn(nodes', q) == ValueIn(nodes, q) { PutAfterValues(nodes, mp, n, k, q); }
    forall i | Keyed(nodes', i) && i != n ensures Keyed(nodes, i) && nodes'[i].key == nodes[i].key {}
    AfterUnique(nodes, mp, n, k);
    InsertedBy(arr, nodes, nodes', k, n);
  }

  lemma MovingContents(arr: seq<Value>, nodes: seq<Node>, mp: nat, prev: nat, n: nat, k: Key)
    requires Unique(nodes) && Apart(arr, nodes) && !Indexed(k, |arr|) && !k.NilKey? && !Has(nodes, k)
    requires Keyed(nodes, mp) && Keyed(nodes, prev) && prev != mp && n < |nodes| && nodes[n].key.NilKey?
    ensures Inserted(arr, nodes, PutMoving(nodes, mp, prev, n, k), k)
  {
    hide ValueIn, Lookup, Indexed;
    var nodes' := PutMoving(nodes, mp, prev, n, k);
    forall q | q != k ensures ValueIn(nodes', q) == ValueIn(nodes, q) { PutMovingValues(nodes, mp, prev, n, k, q); }
    forall i | Keyed(nodes', i) && i != mp
      ensures var oi := if i == n then mp else i; Keyed(nodes, oi) && nodes'[i].key == nodes[oi].key
    {}
    MovingUnique(nodes, mp, prev, n, k);
    InsertedBy(arr, nodes, nodes', k, mp);
  }
}
