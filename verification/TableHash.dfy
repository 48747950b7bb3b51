/** The hash part of a table: a scatter table whose colliding nodes are chained through next,
    with Brent's variation.  A key is either in its main position, or in the chain of the key
    that is in that main position by right. */
module TableHash {

  /** Int keys are the numbers that are C ints; all other keys only need equality. */
  datatype Key = NilKey | Int(n: int) | Other(id: nat)

  datatype Value = Nil | Data(id: nat)

  datatype Node = Node(key: Key, value: Value, next: int)

  const NULL: int := -1

  const EMPTY := Node(NilKey, Nil, NULL)

  /** Any function of the key and of the number of nodes may be the hash function. */
  type Hash = (Key, nat) -> nat

  function MainPosition(hash: Hash, k: Key, size: nat): (m: nat)
    requires size > 0
    ensures m < size
  {
    hash(k, size) % size
  }

  predicate Keyed(nodes: seq<Node>, i: int) {
    0 <= i < |nodes| && !nodes[i].key.NilKey?
  }

  /** Where a node stands: in which chain, and how far. */
  datatype Place = Place(chain: nat, rank: real)

  predicate Later(pos: seq<Place>, i: int, j: int) {
    0 <= i < |pos| && 0 <= j < |pos| && pos[i].chain == pos[j].chain && pos[i].rank < pos[j].rank
  }

  predicate NodeOk(nodes: seq<Node>, pos: seq<Place>, i: int)
    requires 0 <= i < |nodes|
  {
    if nodes[i].key.NilKey? then nodes[i] == EMPTY
    else nodes[i].next == NULL || (Keyed(nodes, nodes[i].next) && Later(pos, i, nodes[i].next))
  }

  ghost predicate Ranked(nodes: seq<Node>, pos: seq<Place>)
    requires |pos| == |nodes|
  {
    forall i, j :: Keyed(nodes, i) && Keyed(nodes, j) && i != j && pos[i].chain == pos[j].chain ==>
      pos[i].rank != pos[j].rank
  }

  /** next of i does not leap over j. */
  predicate StepOk(nodes: seq<Node>, pos: seq<Place>, i: int, j: int)
    requires 0 <= i < |nodes|
  {
    nodes[i].next == j || Later(pos, nodes[i].next, j)
  }

  ghost predicate Steps(nodes: seq<Node>, pos: seq<Place>) {
    forall i, j :: Keyed(nodes, i) && Keyed(nodes, j) && Later(pos, i, j) ==> StepOk(nodes, pos, i, j)
  }

  /** next leads to the node that comes next in the chain. */
  ghost predicate Chains(nodes: seq<Node>, pos: seq<Place>) {
    && |pos| == |nodes| && (forall i :: 0 <= i < |nodes| ==> NodeOk(nodes, pos, i))
    && Ranked(nodes, pos) && Steps(nodes, pos)
  }

  predicate MainOk(hash: Hash, nodes: seq<Node>, pos: seq<Place>, i: int)
    requires Keyed(nodes, i)
  {
    var m := MainPosition(hash, nodes[i].key, |nodes|);
    Keyed(nodes, m) && MainPosition(hash, nodes[m].key, |nodes|) == m && (m == i || Later(pos, m, i))
  }

  /** Every key can be reached from its main position, which a key holds by right. */
  ghost predicate Mains(hash: Hash, nodes: seq<Node>, pos: seq<Place>) {
    forall i :: Keyed(nodes, i) ==> MainOk(hash, nodes, pos, i)
  }

  ghost predicate Unique(nodes: seq<Node>) {
    forall i, j :: Keyed(nodes, i) && Keyed(nodes, j) && nodes[i].key == nodes[j].key ==> i == j
  }

  ghost predicate HashInv(hash: Hash, nodes: seq<Node>, pos: seq<Place>) {
    |nodes| > 0 && Chains(nodes, pos) && Mains(hash, nodes, pos) && Unique(nodes)
  }

  // ----- contents

  ghost predicate Has(nodes: seq<Node>, k: Key) {
    exists i :: Keyed(nodes, i) && nodes[i].key == k
  }

  ghost function Find(nodes: seq<Node>, k: Key): (i: int)
    requires Has(nodes, k)
    ensures Keyed(nodes, i) && nodes[i].key == k
  {
    var i :| Keyed(nodes, i) && nodes[i].key == k; i
  }

  ghost function ValueIn(nodes: seq<Node>, k: Key): Value {
    if Has(nodes, k) then nodes[Find(nodes, k)].value else Nil
  }

  lemma FoundIs(nodes: seq<Node>, i: int)
    requires Unique(nodes) && Keyed(nodes, i)
    ensures Has(nodes, nodes[i].key) && Find(nodes, nodes[i].key) == i && ValueIn(nodes, nodes[i].key) == nodes[i].value
  {
  }

  /** Two node vectors that hold the same keys with the same values, keys with nil apart. */
  lemma SameValues(nodes: seq<Node>, nodes': seq<Node>, q: Key)
    requires Unique(nodes) && Unique(nodes')
    requires forall i :: Keyed(nodes, i) && nodes[i].key == q && nodes[i].value != Nil ==>
               exists j :: Keyed(nodes', j) && nodes'[j].key == q && nodes'[j].value == nodes[i].value
    requires forall j :: Keyed(nodes', j) && nodes'[j].key == q && nodes'[j].value != Nil ==>
               exists i :: Keyed(nodes, i) && nodes[i].key == q && nodes[i].value == nodes'[j].value
    ensures ValueIn(nodes', q) == ValueIn(nodes, q)
  {
  }

  // ----- the three ways to insert a key

  /** In its free main position; a key without value that is there is replaced. */
  function PutMain(nodes: seq<Node>, mp: nat, k: Key): seq<Node>
    requires mp < |nodes|
  {
    nodes[mp := nodes[mp].(key := k)]
  }

  /** Into the free node n, chained after the rightful holder of the main position. */
  function PutAfter(nodes: seq<Node>, mp: nat, n: nat, k: Key): seq<Node>
    requires mp < |nodes| && n < |nodes|
  {
    nodes[n := Node(k, Nil, nodes[mp].next)][mp := nodes[mp].(next := n)]
  }

  /** In its main position, whose holder moves to the free node n. */
  function PutMoving(nodes: seq<Node>, mp: nat, prev: nat, n: nat, k: Key): seq<Node>
    requires mp < |nodes| && n < |nodes| && prev < |nodes|
  {
    nodes[prev := nodes[prev].(next := n)][n := nodes[mp]][mp := Node(k, Nil, NULL)]
  }

  function MaxChain(pos: seq<Place>): (c: nat)
    ensures forall i :: 0 <= i < |pos| ==> pos[i].chain <= c
  {
    if pos == [] then 0
    else
      var c := MaxChain(pos[1..]);
      assert forall i :: 1 <= i < |pos| ==> pos[i] == pos[1..][i - 1];
      if pos[0].chain > c then pos[0].chain else c
  }

  function Fresh(pos: seq<Place>): Place {
    Place(MaxChain(pos) + 1, 0.0)
  }

  /** The places after k was put into the node mp. */
  function MainPlaces(nodes: seq<Node>, pos: seq<Place>, mp: nat): seq<Place>
    requires mp < |nodes| == |pos|
  {
    if nodes[mp].key.NilKey? then pos[mp := Fresh(pos)] else pos
  }

  lemma PutMainInv(hash: Hash, nodes: seq<Node>, pos: seq<Place>, mp: nat, k: Key)
    requires HashInv(hash, nodes, pos) && !k.NilKey? && !Has(nodes, k) && mp == MainPosition(hash, k, |nodes|)
             && nodes[mp].value == Nil
    ensures |pos| == |nodes| && HashInv(hash, PutMain(nodes, mp, k), MainPlaces(nodes, pos, mp))
  {
    hide Chains, MainPosition, Steps, Ranked;
    PutMainChains(nodes, pos, mp, k);
    PlacesFit(nodes, pos);
    var nodes', pos' := PutMain(nodes, mp, k), MainPlaces(nodes, pos, mp);
    forall i | Keyed(nodes', i) ensures MainOk(hash, nodes', pos', i) {
      if i != mp { assert Keyed(nodes, i) && MainOk(hash, nodes, pos, i); }
    }
  }

  lemma PlacesFit(nodes: seq<Node>, pos: seq<Place>)
    requires Chains(nodes, pos)
    ensures |pos| == |nodes|
  {
  }

  lemma PutMainChains(nodes: seq<Node>, pos: seq<Place>, mp: nat, k: Key)
    requires Chains(nodes, pos) && !k.NilKey? && mp < |nodes|
    ensures Chains(PutMain(nodes, mp, k), MainPlaces(nodes, pos, mp))
  {
    var nodes', pos' := PutMain(nodes, mp, k), MainPlaces(nodes, pos, mp);
    assert forall i :: Keyed(nodes', i) <==> i == mp || Keyed(nodes, i);
    assert NodeOk(nodes, pos, mp);
    forall i | 0 <= i < |nodes'| ensures NodeOk(nodes', pos', i) { assert NodeOk(nodes, pos, i); }
    forall i, j | Keyed(nodes', i) && Keyed(nodes', j) && Later(pos', i, j) ensures StepOk(nodes', pos', i, j) {
      assert Keyed(nodes, i) && Keyed(nodes, j) && StepOk(nodes, pos, i, j) && NodeOk(nodes, pos, i);
    }
  }

  lemma PutMainValues(nodes: seq<Node>, mp: nat, k: Key, q: Key)
    requires Unique(nodes) && !Has(nodes, k) && !k.NilKey? && mp < |nodes| && nodes[mp].value == Nil && q != k
    ensures ValueIn(PutMain(nodes, mp, k), q) == ValueIn(nodes, q)
  {
    var nodes' := PutMain(nodes, mp, k);
    forall i | Keyed(nodes, i) && i != mp ensures Keyed(nodes', i) && nodes'[i] == nodes[i] {}
    SameValues(nodes, nodes', q);
  }

  // ----- chaining after the main position

  function Between(nodes: seq<Node>, pos: seq<Place>, mp: nat): real
    requires mp < |nodes| == |pos| && nodes[mp].next < |nodes|
  {
    if nodes[mp].next < 0 then pos[mp].rank + 1.0 else (pos[mp].rank + pos[nodes[mp].next].rank) / 2.0
  }

  function AfterPlaces(nodes: seq<Node>, pos: seq<Place>, mp: nat, n: nat): seq<Place>
    requires mp < |nodes| == |pos| && nodes[mp].next < |nodes| && n < |pos|
  {
    pos[n := Place(pos[mp].chain, Between(nodes, pos, mp))]
  }

  /** The new place lies right after mp in its chain. */
  lemma BetweenIs(nodes: seq<Node>, pos: seq<Place>, mp: nat, j: int)
    requires Chains(nodes, pos) && Keyed(nodes, mp) && Keyed(nodes, j) && pos[j].chain == pos[mp].chain
             && nodes[mp].next < |nodes|
    ensures pos[mp].rank < Between(nodes, pos, mp)
    ensures pos[j].rank <= pos[mp].rank || Between(nodes, pos, mp) < pos[j].rank
    ensures pos[j].rank > Between(nodes, pos, mp) <==> Later(pos, mp, j)
    ensures Later(pos, mp, j) ==> nodes[mp].next >= 0
  {
    assert NodeOk(nodes, pos, mp);
    if Later(pos, mp, j) { assert StepOk(nodes, pos, mp, j); }
  }

  lemma PutAfterChains(nodes: seq<Node>, pos: seq<Place>, mp: nat, n: nat, k: Key)
    requires Chains(nodes, pos) && !k.NilKey? && Keyed(nodes, mp) && n < |nodes| && nodes[n].key.NilKey?
             && nodes[mp].next < |nodes|
    ensures Chains(PutAfter(nodes, mp, n, k), AfterPlaces(nodes, pos, mp, n))
  {
    hide Between;
    var nodes', pos' := PutAfter(nodes, mp, n, k), AfterPlaces(nodes, pos, mp, n);
    assert forall i :: Keyed(nodes', i) <==> i == n || Keyed(nodes, i);
    forall j | Keyed(nodes, j) && pos[j].chain == pos[mp].chain
      ensures pos[j].rank != Between(nodes, pos, mp) && (pos[j].rank > Between(nodes, pos, mp) <==> Later(pos, mp, j))
      ensures pos[mp].rank < Between(nodes, pos, mp)
    {
      BetweenIs(nodes, pos, mp, j);
    }
    forall i | 0 <= i < |nodes'|
      ensures NodeOk(nodes', pos', i)
    {
      assert NodeOk(nodes, pos, i) && NodeOk(nodes, pos, mp);
    }
    forall i, j | Keyed(nodes', i) && Keyed(nodes', j) && Later(pos', i, j)
      ensures StepOk(nodes', pos', i, j)
    {
      AfterSuccessor(nodes, pos, mp, n, k, i, j);
    }
  }

  lemma AfterSuccessor(nodes: seq<Node>, pos: seq<Place>, mp: nat, n: nat, k: Key, i: int, j: int)
    requires Chains(nodes, pos) && !k.NilKey? && Keyed(nodes, mp) && n < |nodes| && nodes[n].key.NilKey?
             && nodes[mp].next < |nodes|
    requires var nodes', pos' := PutAfter(nodes, mp, n, k), AfterPlaces(nodes, pos, mp, n);
             Keyed(nodes', i) && Keyed(nodes', j) && Later(pos', i, j)
    ensures var nodes', pos' := PutAfter(nodes, mp, n, k), AfterPlaces(nodes, pos, mp, n);
            StepOk(nodes', pos', i, j)
  {
    hide Between;
    assert NodeOk(nodes, pos, mp);
    if j == n {
      BetweenIs(nodes, pos, mp, i);
      if i != mp {
        assert Later(pos, i, mp) && StepOk(nodes, pos, i, mp) && NodeOk(nodes, pos, i);
        if nodes[i].next != mp { BetweenIs(nodes, pos, mp, mp); }
        BetweenIs(nodes, pos, mp, nodes[i].next);
      }
    } else {
      assert Keyed(nodes, j);
      if i == n {
        BetweenIs(nodes, pos, mp, j);
      } else if i == mp {
        BetweenIs(nodes, pos, mp, j);
      } else {
        assert NodeOk(nodes, pos, i) && StepOk(nodes, pos, i, j);
      }
    }
  }

  lemma PutAfterInv(hash: Hash, nodes: seq<Node>, pos: seq<Place>, mp: nat, n: nat, k: Key)
    requires HashInv(hash, nodes, pos) && !k.NilKey? && !Has(nodes, k) && mp == MainPosition(hash, k, |nodes|)
             && Keyed(nodes, mp)
    requires MainPosition(hash, nodes[mp].key, |nodes|) == mp && n < |nodes| && nodes[n].key.NilKey?
             && nodes[mp].next < |nodes|
    ensures |pos| == |nodes| && HashInv(hash, PutAfter(nodes, mp, n, k), AfterPlaces(nodes, pos, mp, n))
  {
    hide Chains, MainPosition, Between, Steps, Ranked;
    PutAfterChains(nodes, pos, mp, n, k);
    PlacesFit(nodes, pos);
    var nodes', pos' := PutAfter(nodes, mp, n, k), AfterPlaces(nodes, pos, mp, n);
    BetweenIs(nodes, pos, mp, mp);
    forall i | Keyed(nodes', i) ensures MainOk(hash, nodes', pos', i) {
      if i != n { assert Keyed(nodes, i) && MainOk(hash, nodes, pos, i); }
    }
    AfterUnique(nodes, mp, n, k);
  }

  lemma AfterUnique(nodes: seq<Node>, mp: nat, n: nat, k: Key)
    requires Unique(nodes) && !k.NilKey? && !Has(nodes, k) && Keyed(nodes, mp) && n < |nodes| && nodes[n].key.NilKey?
    ensures Unique(PutAfter(nodes, mp, n, k))
  {
    var nodes' := PutAfter(nodes, mp, n, k);
    forall i | Keyed(nodes', i) && i != n ensures Keyed(nodes, i) && nodes'[i].key == nodes[i].key {}
  }

  lemma PutAfterValues(nodes: seq<Node>, mp: nat, n: nat, k: Key, q: Key)
    requires Unique(nodes) && !Has(nodes, k) && !k.NilKey? && q != k
    requires Keyed(nodes, mp) && n < |nodes| && nodes[n].key.NilKey?
    ensures ValueIn(PutAfter(nodes, mp, n, k), q) == ValueIn(nodes, q)
  {
    var nodes' := PutAfter(nodes, mp, n, k);
    forall i | Keyed(nodes, i) ensures Keyed(nodes', i) && nodes'[i].key == nodes[i].key
      && nodes'[i].value == nodes[i].value {}
    forall i | Keyed(nodes', i) && i != n ensures Keyed(nodes, i) {}
    SameValues(nodes, nodes', q);
  }

  // ----- moving the holder of the main position

  function MovedPlaces(pos: seq<Place>, mp: nat, n: nat): seq<Place>
    requires mp < |pos| && n < |pos|
  {
    pos[n := pos[mp]][mp := Fresh(pos)]
  }

  lemma PutMovingChains(nodes: seq<Node>, pos: seq<Place>, mp: nat, prev: nat, n: nat, k: Key)
    requires Chains(nodes, pos) && !k.NilKey? && Keyed(nodes, mp) && Keyed(nodes, prev) && nodes[prev].next == mp
    requires n < |nodes| && nodes[n].key.NilKey?
    ensures Chains(PutMoving(nodes, mp, prev, n, k), MovedPlaces(pos, mp, n))
  {
    hide Steps, Ranked, NodeOk;
    assert NodeOk(nodes, pos, prev);
    PrevApart(nodes, pos, mp, prev);
    forall i | 0 <= i < |nodes| ensures NodeOk(PutMoving(nodes, mp, prev, n, k), MovedPlaces(pos, mp, n), i) {
      MovingNode(nodes, pos, mp, prev, n, k, i);
    }
    MovingRanked(nodes, pos, mp, prev, n, k);
    MovingSteps(nodes, pos, mp, prev, n, k);
  }

  lemma PrevApart(nodes: seq<Node>, pos: seq<Place>, mp: nat, prev: nat)
    requires Chains(nodes, pos) && Keyed(nodes, mp) && Keyed(nodes, prev) && nodes[prev].next == mp
    ensures prev != mp && Later(pos, prev, mp)
  {
    assert NodeOk(nodes, pos, prev);
  }

  lemma MovingNode(nodes: seq<Node>, pos: seq<Place>, mp: nat, prev: nat, n: nat, k: Key, i: nat)
    requires Chains(nodes, pos) && !k.NilKey? && Keyed(nodes, mp) && Keyed(nodes, prev) && nodes[prev].next == mp
    requires n < |nodes| && nodes[n].key.NilKey? && i < |nodes|
    ensures NodeOk(PutMoving(nodes, mp, prev, n, k), MovedPlaces(pos, mp, n), i)
  {
    hide Steps, Ranked;
    PrevApart(nodes, pos, mp, prev);
    assert NodeOk(nodes, pos, i) && NodeOk(nodes, pos, mp) && NodeOk(nodes, pos, prev);
    if Keyed(nodes, i) && nodes[i].next == mp { OnePrevious(nodes, pos, mp, prev, i); }
  }

  lemma MovingRanked(nodes: seq<Node>, pos: seq<Place>, mp: nat, prev: nat, n: nat, k: Key)
    requires |pos| == |nodes| && Ranked(nodes, pos) && Keyed(nodes, mp) && Keyed(nodes, prev) && n < |nodes|
             && nodes[n].key.NilKey?
    ensures Ranked(PutMoving(nodes, mp, prev, n, k), MovedPlaces(pos, mp, n))
  {
    var nodes', pos' := PutMoving(nodes, mp, prev, n, k), MovedPlaces(pos, mp, n);
    forall i, j | Keyed(nodes', i) && Keyed(nodes', j) && i != j && pos'[i].chain == pos'[j].chain
      ensures pos'[i].rank != pos'[j].rank
    {
      assert i != mp && j != mp;
      var oi, oj := if i == n then mp else i, if j == n then mp else j;
      assert Keyed(nodes, oi) && Keyed(nodes, oj);
    }
  }

  lemma MovingSteps(nodes: seq<Node>, pos: seq<Place>, mp: nat, prev: nat, n: nat, k: Key)
    requires Chains(nodes, pos) && Keyed(nodes, mp) && Keyed(nodes, prev) && nodes[prev].next == mp && n < |nodes|
             && nodes[n].key.NilKey?
    ensures Steps(PutMoving(nodes, mp, prev, n, k), MovedPlaces(pos, mp, n))
  {
    hide Ranked;
    PrevApart(nodes, pos, mp, prev);
    var nodes', pos' := PutMoving(nodes, mp, prev, n, k), MovedPlaces(pos, mp, n);
    forall i, j | Keyed(nodes', i) && Keyed(nodes', j) && Later(pos', i, j) ensures StepOk(nodes', pos', i, j) {
      assert i != mp && j != mp;
      var oi, oj := if i == n then mp else i, if j == n then mp else j;
      assert Keyed(nodes, oi) && Keyed(nodes, oj) && Later(pos, oi, oj) && NodeOk(nodes, pos, oi)
        && StepOk(nodes, pos, oi, oj);
      if nodes[oi].next == mp { OnePrevious(nodes, pos, mp, prev, oi); }
    }
  }

  /** A node has one predecessor. */
  lemma OnePrevious(nodes: seq<Node>, pos: seq<Place>, mp: nat, i: int, j: int)
    requires Chains(nodes, pos) && Keyed(nodes, mp) && Keyed(nodes, i) && Keyed(nodes, j) && nodes[i].next == mp
             && nodes[j].next == mp
    ensures i == j
  {
    assert NodeOk(nodes, pos, i) && NodeOk(nodes, pos, j);
    assert Later(pos, i, j) ==> StepOk(nodes, pos, i, j);
    assert Later(pos, j, i) ==> StepOk(nodes, pos, j, i);
  }

  lemma PutMovingInv(hash: Hash, nodes: seq<Node>, pos: seq<Place>, mp: nat, prev: nat, n: nat, k: Key)
    requires HashInv(hash, nodes, pos) && !k.NilKey? && !Has(nodes, k) && mp == MainPosition(hash, k, |nodes|)
             && Keyed(nodes, mp)
    requires Keyed(nodes, prev) && nodes[prev].next == mp
    requires MainPosition(hash, nodes[mp].key, |nodes|) != mp && n < |nodes| && nodes[n].key.NilKey?
    ensures |pos| == |nodes| && HashInv(hash, PutMoving(nodes, mp, prev, n, k), MovedPlaces(pos, mp, n))
  {
    hide Chains, MainPosition, Unique;
    PutMovingChains(nodes, pos, mp, prev, n, k);
    PlacesFit(nodes, pos);
    PrevApart(nodes, pos, mp, prev);
    var nodes', pos' := PutMoving(nodes, mp, prev, n, k), MovedPlaces(pos, mp, n);
    forall i | Keyed(nodes', i) ensures MainOk(hash, nodes', pos', i) {
      if i != mp {
        var oi := if i == n then mp else i;
        assert Keyed(nodes, oi) && MainOk(hash, nodes, pos, oi) && nodes'[i].key == nodes[oi].key;
      }
    }
    MovingUnique(nodes, mp, prev, n, k);
  }

  lemma MovingUnique(nodes: seq<Node>, mp: nat, prev: nat, n: nat, k: Key)
    requires Unique(nodes) && !k.NilKey? && !Has(nodes, k) && Keyed(nodes, mp) && Keyed(nodes, prev) && prev != mp
    requires n < |nodes| && nodes[n].key.NilKey?
    ensures Unique(PutMoving(nodes, mp, prev, n, k))
  {
    var nodes' := PutMoving(nodes, mp, prev, n, k);
    forall i | Keyed(nodes', i) && i != mp
      ensures var oi := if i == n then mp else i; Keyed(nodes, oi) && nodes'[i].key == nodes[oi].key
    {}
  }

  lemma PutMovingValues(nodes: seq<Node>, mp: nat, prev: nat, n: nat, k: Key, q: Key)
    requires Unique(nodes) && !Has(nodes, k) && !k.NilKey? && q != k && Keyed(nodes, mp) && Keyed(nodes, prev)
             && prev != mp
    requires n < |nodes| && nodes[n].key.NilKey?
    ensures ValueIn(PutMoving(nodes, mp, prev, n, k), q) == ValueIn(nodes, q)
  {
    var nodes' := PutMoving(nodes, mp, prev, n, k);
    MovingUnique(nodes, mp, prev, n, k);
    forall i | Keyed(nodes, i)
      ensures var i' := if i == mp then n else i; Keyed(nodes', i') && nodes'[i'].key == nodes[i].key
                                                  && nodes'[i'].value == nodes[i].value
    {}
    forall i | Keyed(nodes', i) && i != mp
      ensures var oi := if i == n then mp else i; Keyed(nodes, oi) && nodes[oi].key == nodes'[i].key
                                                  && nodes[oi].value == nodes'[i].value
    {}
    SameValues(nodes, nodes', q);
  }
}
