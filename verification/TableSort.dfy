/** table.sort: an in-place quicksort with the median of three as pivot, which calls itself
    for the smaller part only. */
module TableSort {
  import opened Common

  /** The order function; true if the first argument must come before the second. */
  type Order = (int, int) -> bool

  /** What the manual asks of an order: strict, and what is not comparable is equivalent. */
  ghost predicate StrictWeak(lt: Order) {
    && (forall x, y :: lt(x, y) ==> !lt(y, x))
    && (forall x, y, z :: !lt(x, y) && !lt(y, z) ==> !lt(x, z))
  }

  predicate Leq(lt: Order, x: int, y: int) {
    !lt(y, x)
  }

  lemma LeqTrans(lt: Order, x: int, y: int, z: int)
    requires StrictWeak(lt) && Leq(lt, x, y) && Leq(lt, y, z)
    ensures Leq(lt, x, z)
  {
  }

  lemma LtLeq(lt: Order, x: int, y: int)
    requires StrictWeak(lt)
    ensures Leq(lt, x, x) && (lt(x, y) ==> Leq(lt, x, y)) && (!lt(x, y) ==> Leq(lt, y, x))
  {
  }

  /** a[l..u] in order. */
  predicate Sorted(lt: Order, s: seq<int>, l: int, u: int) {
    forall p, q :: l <= p < q <= u && 0 <= p && q < |s| ==> Leq(lt, s[p], s[q])
  }

  // ----- rearranging a[l..u]

  predicate Range(s: seq<int>, l: int, u: int) {
    0 <= l <= u + 1 <= |s|
  }

  /** t is s with the elements from l to u rearranged. */
  predicate Shuffled(s: seq<int>, t: seq<int>, l: int, u: int) {
    && |s| == |t| && Range(s, l, u) && multiset(s[l..u + 1]) == multiset(t[l..u + 1])
    && (forall k :: 0 <= k < |s| && !(l <= k <= u) ==> t[k] == s[k])
  }

  function Swapped(s: seq<int>, i: int, j: int): seq<int>
    requires 0 <= i < |s| && 0 <= j < |s|
  {
    s[i := s[j]][j := s[i]]
  }

  lemma SwapMultiset(s: seq<int>, i: int, j: int)
    requires 0 <= i < |s| && 0 <= j < |s|
    ensures multiset(Swapped(s, i, j)) == multiset(s)
  {
  }

  lemma SwapShuffles(s: seq<int>, l: int, u: int, i: int, j: int)
    requires Range(s, l, u) && l <= i <= u && l <= j <= u
    ensures Shuffled(s, Swapped(s, i, j), l, u)
  {
    SwapSegment(s, l, u, i, j);
    SwapMultiset(s[l..u + 1], i - l, j - l);
  }

  lemma SwapSegment(s: seq<int>, l: int, u: int, i: int, j: int)
    requires Range(s, l, u) && l <= i <= u && l <= j <= u
    ensures Swapped(s, i, j)[l..u + 1] == Swapped(s[l..u + 1], i - l, j - l)
  {
  }

  lemma ShuffledSelf(s: seq<int>, l: int, u: int)
    requires Range(s, l, u)
    ensures Shuffled(s, s, l, u)
  {
  }

  lemma ShuffledTrans(s: seq<int>, t: seq<int>, r: seq<int>, l: int, u: int)
    requires Shuffled(s, t, l, u) && Shuffled(t, r, l, u)
    ensures Shuffled(s, r, l, u)
  {
  }

  /** A rearrangement of a part is one of the whole. */
  lemma ShuffledWiden(s: seq<int>, t: seq<int>, l: int, u: int, l': int, u': int)
    requires Shuffled(s, t, l, u) && Range(s, l', u') && l' <= l && u <= u'
    ensures Shuffled(s, t, l', u')
  {
    assert s[l'..u' + 1] == s[l'..l] + s[l..u + 1] + s[u + 1..u' + 1];
    assert t[l'..u' + 1] == t[l'..l] + t[l..u + 1] + t[u + 1..u' + 1];
    assert s[l'..l] == t[l'..l] && s[u + 1..u' + 1] == t[u + 1..u' + 1];
  }

  lemma ShuffledMember(s: seq<int>, t: seq<int>, l: int, u: int, k: int) returns (k': int)
    requires Shuffled(s, t, l, u) && l <= k <= u
    ensures l <= k' <= u && s[k'] == t[k]
  {
    var x := t[k];
    assert t[l..u + 1][k - l] == x;
    assert x in multiset(t[l..u + 1]);
    assert x in s[l..u + 1];
    var i :| 0 <= i < u + 1 - l && s[l..u + 1][i] == x;
    k' := l + i;
  }

  // ----- around a pivot

  /** Nothing from l to u is above v; nothing is below it. */
  predicate NoneAbove(lt: Order, s: seq<int>, l: int, u: int, v: int) {
    forall k :: l <= k <= u && 0 <= k < |s| ==> Leq(lt, s[k], v)
  }

  predicate NoneBelow(lt: Order, s: seq<int>, l: int, u: int, v: int) {
    forall k :: l <= k <= u && 0 <= k < |s| ==> Leq(lt, v, s[k])
  }

  lemma NoneShuffled(lt: Order, s: seq<int>, t: seq<int>, l: int, u: int, v: int)
    requires Shuffled(s, t, l, u)
    ensures NoneAbove(lt, s, l, u, v) ==> NoneAbove(lt, t, l, u, v)
    ensures NoneBelow(lt, s, l, u, v) ==> NoneBelow(lt, t, l, u, v)
  {
    hide Leq, Shuffled;
    SameLength(s, t, l, u);
    forall k | l <= k <= u && 0 <= k < |t|
      ensures NoneAbove(lt, s, l, u, v) ==> Leq(lt, t[k], v)
      ensures NoneBelow(lt, s, l, u, v) ==> Leq(lt, v, t[k])
    {
      var k' := ShuffledMember(s, t, l, u, k);
    }
  }

  lemma SameLength(s: seq<int>, t: seq<int>, l: int, u: int)
    requires Shuffled(s, t, l, u)
    ensures |s| == |t| && Range(s, l, u)
  {
  }

  /** All pairs from l0 to u0 are in order, but for those within l to u. */
  predicate SortedBut(lt: Order, s: seq<int>, l0: int, u0: int, l: int, u: int) {
    forall p, q :: l0 <= p < q <= u0 && 0 <= p && q < |s| && !(l <= p && q <= u) ==> Leq(lt, s[p], s[q])
  }

  /** Rearranging l to u does not disturb the order of the rest. */
  lemma SortedButShuffled(lt: Order, s: seq<int>, t: seq<int>, l0: int, u0: int, l: int, u: int)
    requires Shuffled(s, t, l, u) && SortedBut(lt, s, l0, u0, l, u) && l0 <= l && u <= u0
    ensures SortedBut(lt, t, l0, u0, l, u)
  {
    hide Leq;
    forall p, q | l0 <= p < q <= u0 && 0 <= p && q < |t| && !(l <= p && q <= u) ensures Leq(lt, t[p], t[q]) {
      var p', q' := p, q;
      if l <= p <= u { p' := ShuffledMember(s, t, l, u, p); }
      if l <= q <= u { q' := ShuffledMember(s, t, l, u, q); }
      assert s[p'] == t[p] && s[q'] == t[q] && p' < q';
    }
  }

  /** With a pivot at i and one side sorted, only the other side is left. */
  lemma SortedSide(lt: Order, s: seq<int>, l0: int, u0: int, l: int, u: int, i: int, left: bool)
    requires StrictWeak(lt) && SortedBut(lt, s, l0, u0, l, u) && Range(s, l, u) && 0 <= l0 <= l <= i <= u <= u0 < |s|
    requires NoneAbove(lt, s, l, i - 1, s[i]) && NoneBelow(lt, s, i + 1, u, s[i])
    requires if left then Sorted(lt, s, l, i - 1) else Sorted(lt, s, i + 1, u)
    ensures if left then SortedBut(lt, s, l0, u0, i + 1, u) else SortedBut(lt, s, l0, u0, l, i - 1)
  {
    var l', u' := if left then i + 1 else l, if left then u else i - 1;
    forall p, q | l0 <= p < q <= u0 && 0 <= p && q < |s| && !(l' <= p && q <= u') ensures Leq(lt, s[p], s[q]) {
      if l <= p && q <= u {
        if p < i < q { LeqTrans(lt, s[p], s[i], s[q]); }
      }
    }
  }

  // ----- the sort

  method Swap(a: array<int>, i: int, j: int)
    requires 0 <= i < a.Length && 0 <= j < a.Length
    modifies a
    ensures a[..] == Swapped(old(a[..]), i, j)
  {
    a[i], a[j] := a[j], a[i];
  }

  method OrderEnds(a: array<int>, l: int, u: int, lt: Order)
    requires StrictWeak(lt) && 0 <= l < u < a.Length
    modifies a
    ensures Shuffled(old(a[..]), a[..], l, u) && Leq(lt, a[l], a[u])
  {
    hide Shuffled, StrictWeak;
    ShuffledSelf(a[..], l, u);
    LtLeq(lt, a[u], a[l]);
    if lt(a[u], a[l]) {
      SwapShuffles(a[..], l, u, l, u);
      Swap(a, l, u);
    }
  }

  method OrderMiddle(a: array<int>, l: int, m: int, u: int, lt: Order)
    requires StrictWeak(lt) && 0 <= l < m < u < a.Length && Leq(lt, a[l], a[u])
    modifies a
    ensures Shuffled(old(a[..]), a[..], l, u) && Leq(lt, a[l], a[m]) && Leq(lt, a[m], a[u])
  {
    hide Shuffled, StrictWeak;
    ShuffledSelf(a[..], l, u);
    LtLeq(lt, a[m], a[l]);
    LtLeq(lt, a[u], a[m]);
    if lt(a[m], a[l]) {
      SwapShuffles(a[..], l, u, m, l);
      Swap(a, m, l);
    } else if lt(a[u], a[m]) {
      SwapShuffles(a[..], l, u, m, u);
      Swap(a, m, u);
    }
  }

  /** Sorts a[l], a[m] and a[u], where m is the middle; two or three elements are sorted then. */
  method MedianOfThree(a: array<int>, l: int, u: int, lt: Order) returns (m: int)
    requires StrictWeak(lt) && 0 <= l < u < a.Length
    modifies a
    ensures m == (l + u) / 2 && Shuffled(old(a[..]), a[..], l, u) && (u - l == 1 ==> Leq(lt, a[l], a[u]))
    ensures u - l >= 2 ==> l < m < u && Leq(lt, a[l], a[m]) && Leq(lt, a[m], a[u])
  {
    hide Shuffled, StrictWeak, Leq;
    OrderEnds(a, l, u, lt);
    m := (l + u) / 2;
    if u - l == 1 { return; }
    ghost var s := a[..];
    OrderMiddle(a, l, m, u, lt);
    ShuffledTrans(old(a[..]), s, a[..], l, u);
  }

  /** The search to the right for an element that is not below the pivot; the pivot itself, kept
      at u - 1, ends it. */
  method ScanUp(a: array<int>, i0: int, u: int, p: int, lt: Order) returns (ok: bool, i: int)
    requires StrictWeak(lt) && 0 <= i0 + 1 <= u - 1 < a.Length && a[u - 1] == p
    ensures ok && i0 < i <= u - 1 && Leq(lt, p, a[i]) && NoneAbove(lt, a[..], i0 + 1, i - 1, p)
  {
    LtLeq(lt, p, p);
    i := i0 + 1;
    while lt(a[i], p)
      invariant i0 < i <= u - 1 && NoneAbove(lt, a[..], i0 + 1, i - 1, p)
      decreases u - i
    {
      if i > u { return false, i; }
      LtLeq(lt, a[i], p);
      i := i + 1;
    }
    ok := true;
  }

  /** The search to the left for an element that is not above the pivot; a[l] ends it. */
  method ScanDown(a: array<int>, j0: int, l: int, p: int, lt: Order) returns (ok: bool, j: int)
    requires StrictWeak(lt) && 0 <= l < j0 <= a.Length && Leq(lt, a[l], p)
    ensures ok && l <= j < j0 && Leq(lt, a[j], p) && NoneBelow(lt, a[..], j + 1, j0 - 1, p)
  {
    j := j0 - 1;
    while lt(p, a[j])
      invariant l <= j < j0 && NoneBelow(lt, a[..], j + 1, j0 - 1, p)
      decreases j
    {
      if j < l { return false, j; }
      LtLeq(lt, p, a[j]);
      j := j - 1;
    }
    ok := true;
  }

  lemma JoinRanges(lt: Order, s: seq<int>, l: int, m: int, u: int, v: int)
    requires l <= m + 1 <= u + 1
    ensures NoneAbove(lt, s, l, m, v) && NoneAbove(lt, s, m + 1, u, v) ==> NoneAbove(lt, s, l, u, v)
    ensures NoneBelow(lt, s, l, m, v) && NoneBelow(lt, s, m + 1, u, v) ==> NoneBelow(lt, s, l, u, v)
  {
  }

  /** Exchanging a[i] and a[j] moves the bounds over them. */
  lemma Exchanged(lt: Order, s: seq<int>, l: int, u: int, i: int, j: int, v: int)
    requires 0 <= l < i <= j < u < |s| && NoneAbove(lt, s, l, i - 1, v) && NoneBelow(lt, s, j + 1, u, v)
             && Leq(lt, v, s[i]) && Leq(lt, s[j], v)
    ensures var t := Swapped(s, i, j);
            NoneAbove(lt, t, l, i, v) && NoneBelow(lt, t, j, u, v) && t[l] == s[l]
              && (j < u - 1 ==> t[u - 1] == s[u - 1])
  {
    hide Leq;
  }

  /** The pivot goes to the first place that is not below it. */
  lemma PivotPlaced(lt: Order, s: seq<int>, l: int, u: int, i: int)
    requires 0 <= l < i <= u - 1 < u < |s| && NoneAbove(lt, s, l, i - 1, s[u - 1]) && NoneBelow(lt, s, i, u, s[u - 1])
    ensures var t := Swapped(s, u - 1, i);
            t[i] == s[u - 1] && NoneAbove(lt, t, l, i - 1, t[i]) && NoneBelow(lt, t, i + 1, u, t[i])
  {
    hide Leq;
  }

  /** Between two exchanges: nothing up to i is above the pivot, nothing from j on below it. */
  ghost predicate Parting(lt: Order, s0: seq<int>, s: seq<int>, l: int, u: int, i: int, j: int, p: int) {
    && 0 <= l <= i <= u - 2 && l + 1 <= j <= u - 1 && i <= j && u < |s| && s[u - 1] == p && Leq(lt, s[l], p)
    && Shuffled(s0, s, l, u) && NoneAbove(lt, s, l, i, p) && NoneBelow(lt, s, j, u, p)
  }

  /** What the two scans have found. */
  ghost predicate Scanned(lt: Order, s: seq<int>, l: int, u: int, i0: int, j0: int, i: int, j: int, p: int) {
    && 0 <= l <= i0 < i <= u - 1 && l <= j < j0 <= u - 1 && u < |s| && Leq(lt, p, s[i]) && Leq(lt, s[j], p)
    && NoneAbove(lt, s, i0 + 1, i - 1, p) && NoneBelow(lt, s, j + 1, j0 - 1, p)
  }

  lemma Exchange(lt: Order, s0: seq<int>, s: seq<int>, l: int, u: int, i0: int, j0: int, i: int, j: int, p: int)
    requires Parting(lt, s0, s, l, u, i0, j0, p) && Scanned(lt, s, l, u, i0, j0, i, j, p) && i <= j
    ensures Parting(lt, s0, Swapped(s, i, j), l, u, i, j, p)
  {
    hide Shuffled, Leq, NoneAbove, NoneBelow;
    JoinRanges(lt, s, l, i0, i - 1, p);
    JoinRanges(lt, s, j + 1, j0 - 1, u, p);
    Exchanged(lt, s, l, u, i, j, p);
    SameLength(s0, s, l, u);
    SwapShuffles(s, l, u, i, j);
    ShuffledTrans(s0, s, Swapped(s, i, j), l, u);
  }

  lemma Finish(lt: Order, s0: seq<int>, s: seq<int>, l: int, u: int, i0: int, j0: int, i: int, j: int, p: int)
    requires Parting(lt, s0, s, l, u, i0, j0, p) && Scanned(lt, s, l, u, i0, j0, i, j, p) && j < i
    ensures var t := Swapped(s, u - 1, i);
            l < i < u < |t| && Shuffled(s0, t, l, u) && NoneAbove(lt, t, l, i - 1, t[i])
              && NoneBelow(lt, t, i + 1, u, t[i])
  {
    hide Shuffled, Swapped, Leq, NoneAbove, NoneBelow;
    JoinRanges(lt, s, l, i0, i - 1, p);
    JoinRanges(lt, s, j + 1, j0 - 1, u, p);
    Narrow(lt, s, j + 1, i, u, p);
    PivotPlaced(lt, s, l, u, i);
    SameLength(s0, s, l, u);
    SwapShuffles(s, l, u, u - 1, i);
    SameLength(s, Swapped(s, u - 1, i), l, u);
    ShuffledTrans(s0, s, Swapped(s, u - 1, i), l, u);
  }

  /** The loop that moves what is below the pivot a[u - 1] to the left and what is above it to
      the right; the order function is never asked beyond the two ends. */
  method Partition(a: array<int>, l: int, u: int, lt: Order) returns (ok: bool, i: int)
    requires StrictWeak(lt) && 0 <= l && l + 3 <= u < a.Length
    requires Leq(lt, a[l], a[u - 1]) && Leq(lt, a[u - 1], a[u])
    modifies a
    ensures ok && l < i < u && Shuffled(old(a[..]), a[..], l, u)
    ensures NoneAbove(lt, a[..], l, i - 1, a[i]) && NoneBelow(lt, a[..], i + 1, u, a[i])
  {
    hide Shuffled, StrictWeak, Leq, NoneAbove, NoneBelow, Swapped;
    ghost var s0 := a[..];
    ShuffledSelf(s0, l, u);
    var p := a[u - 1];
    i := l;
    var j := u - 1;
    EndBounds(lt, s0, l, u, p);
    while true
      invariant Parting(lt, s0, a[..], l, u, i, j, p)
      decreases j - i
    {
      ghost var s, i0, j0 := a[..], i, j;
      ok, i := ScanUp(a, i, u, p, lt);
      if !ok { return; }
      ok, j := ScanDown(a, j, l, p, lt);
      if !ok { return; }
      assert Scanned(lt, s, l, u, i0, j0, i, j, p);
      if j < i {
        Finish(lt, s0, s, l, u, i0, j0, i, j, p);
        break;
      }
      Exchange(lt, s0, s, l, u, i0, j0, i, j, p);
      Swap(a, i, j);
    }
    Swap(a, u - 1, i);
  }

  lemma EndBounds(lt: Order, s: seq<int>, l: int, u: int, p: int)
    requires StrictWeak(lt) && 0 <= l <= u - 1 < u < |s| && s[u - 1] == p && Leq(lt, s[l], p) && Leq(lt, p, s[u])
    ensures NoneAbove(lt, s, l, l, p) && NoneBelow(lt, s, u - 1, u, p)
  {
    LtLeq(lt, p, p);
  }

  lemma Narrow(lt: Order, s: seq<int>, l: int, l': int, u: int, v: int)
    requires NoneBelow(lt, s, l, u, v) && l <= l'
    ensures NoneBelow(lt, s, l', u, v)
  {
  }

  /** One round of auxsort on more than three elements: a pivot with its place. */
  method Split(a: array<int>, l: int, m: int, u: int, lt: Order) returns (ok: bool, i: int)
    requires StrictWeak(lt) && 0 <= l && l + 3 <= u < a.Length && l < m < u && Leq(lt, a[l], a[m])
             && Leq(lt, a[m], a[u])
    modifies a
    ensures ok && l < i < u && Shuffled(old(a[..]), a[..], l, u)
    ensures NoneAbove(lt, a[..], l, i - 1, a[i]) && NoneBelow(lt, a[..], i + 1, u, a[i])
  {
    hide Shuffled, StrictWeak, Leq, NoneAbove, NoneBelow;
    SwapShuffles(a[..], l, u, m, u - 1);
    Swap(a, m, u - 1);
    ghost var s := a[..];
    ok, i := Partition(a, l, u, lt);
    ShuffledTrans(old(a[..]), s, a[..], l, u);
  }

  /** What stays true while auxsort works on l to u: the elements of l0 to u0 are those of s0
      and in order, but for the pairs within l to u. */
  ghost predicate Working(lt: Order, s0: seq<int>, s: seq<int>, l0: int, u0: int, l: int, u: int) {
    l0 <= l <= u + 1 <= u0 + 1 && Shuffled(s0, s, l0, u0) && SortedBut(lt, s, l0, u0, l, u)
  }

  lemma WorkingShuffled(lt: Order, s0: seq<int>, s: seq<int>, t: seq<int>, l0: int, u0: int, l: int, u: int)
    requires Working(lt, s0, s, l0, u0, l, u) && Shuffled(s, t, l, u)
    ensures Working(lt, s0, t, l0, u0, l, u)
  {
    hide Shuffled, SortedBut;
    SameLength(s0, s, l0, u0);
    ShuffledWiden(s, t, l, u, l0, u0);
    ShuffledTrans(s0, s, t, l0, u0);
    SortedButShuffled(lt, s, t, l0, u0, l, u);
  }

  lemma WorkingSide(lt: Order, s0: seq<int>, s: seq<int>, t: seq<int>, l0: int, u0: int, l: int, u: int, i: int,
                    left: bool)
    requires StrictWeak(lt) && Working(lt, s0, s, l0, u0, l, u) && 0 <= l0 && u0 < |s| && l < i < u
    requires NoneAbove(lt, s, l, i - 1, s[i]) && NoneBelow(lt, s, i + 1, u, s[i])
    requires if left then Shuffled(s, t, l, i - 1) && Sorted(lt, t, l, i - 1)
                     else Shuffled(s, t, i + 1, u) && Sorted(lt, t, i + 1, u)
    ensures if left then Working(lt, s0, t, l0, u0, i + 1, u) else Working(lt, s0, t, l0, u0, l, i - 1)
  {
    hide Shuffled, SortedBut, NoneAbove, NoneBelow, Sorted, StrictWeak;
    AfterSide(lt, s, t, l0, u0, l, u, i, left);
    ShuffledTrans(s0, s, t, l0, u0);
  }

  /** The smaller part has at most half of what is left. */
  lemma DepthBound(d: nat, depth: nat, l0: int, u0: int, l: int, u: int, i: int, left: bool)
    requires l0 <= l < i < u <= u0 && left == (i - l < u - i) && Pow2(depth) <= u0 - l0 + 1
    requires Pow2(d) <= if left then i - l else u - i
    ensures Pow2(if d + 1 > depth then d + 1 else depth) <= u0 - l0 + 1
  {
    assert Pow2(d + 1) == 2 * Pow2(d);
  }

  /** auxsort: sorts a[l0..u0] in place; no error is raised, and the recursion is no deeper than
      the logarithm of the number of elements. */
  method AuxSort(a: array<int>, l0: int, u0: int, lt: Order) returns (ok: bool, ghost depth: nat)
    requires StrictWeak(lt) && 0 <= l0 <= u0 + 1 <= a.Length
    modifies a
    ensures ok && Sorted(lt, a[..], l0, u0) && Shuffled(old(a[..]), a[..], l0, u0)
    ensures Pow2(depth) <= if u0 >= l0 then u0 - l0 + 1 else 1
    decreases u0 - l0
  {
    hide Shuffled, StrictWeak, Leq, SortedBut, NoneAbove, NoneBelow, Sorted;
    ghost var s0 := a[..];
    ShuffledSelf(s0, l0, u0);
    WholeRange(lt, s0, l0, u0);
    var l, u := l0, u0;
    depth, ok := 0, true;
    while l < u
      invariant ok && Working(lt, s0, a[..], l0, u0, l, u) && Pow2(depth) <= if u0 >= l0 then u0 - l0 + 1 else 1
      decreases u - l
    {
      ghost var s1 := a[..];
      var m := MedianOfThree(a, l, u, lt);
      WorkingShuffled(lt, s0, s1, a[..], l0, u0, l, u);
      if u - l <= 2 {
        FewSorted(lt, a[..], l0, u0, l, u);
        return;
      }
      ghost var s2 := a[..];
      var i;
      ok, i := Split(a, l, m, u, lt);
      ghost var s3 := a[..];
      WorkingShuffled(lt, s0, s2, s3, l0, u0, l, u);
      ghost var d;
      if i - l < u - i {
        ok, d := AuxSort(a, l, i - 1, lt);
        WorkingSide(lt, s0, s3, a[..], l0, u0, l, u, i, true);
        DepthBound(d, depth, l0, u0, l, u, i, true);
        l := i + 1;
      } else {
        ok, d := AuxSort(a, i + 1, u, lt);
        WorkingSide(lt, s0, s3, a[..], l0, u0, l, u, i, false);
        DepthBound(d, depth, l0, u0, l, u, i, false);
        u := i - 1;
      }
      depth := if d + 1 > depth then d + 1 else depth;
    }
    AllSorted(lt, a[..], l0, u0, l, u);
  }

  lemma WholeRange(lt: Order, s: seq<int>, l0: int, u0: int)
    ensures SortedBut(lt, s, l0, u0, l0, u0) && Pow2(0) == 1
  {
  }

  /** The recursive call has sorted one side and left the rest alone. */
  lemma AfterSide(lt: Order, s: seq<int>, t: seq<int>, l0: int, u0: int, l: int, u: int, i: int, left: bool)
    requires StrictWeak(lt) && SortedBut(lt, s, l0, u0, l, u) && 0 <= l0 <= l < i < u <= u0 < |s|
    requires NoneAbove(lt, s, l, i - 1, s[i]) && NoneBelow(lt, s, i + 1, u, s[i])
    requires if left then Shuffled(s, t, l, i - 1) && Sorted(lt, t, l, i - 1)
                     else Shuffled(s, t, i + 1, u) && Sorted(lt, t, i + 1, u)
    ensures Shuffled(s, t, l0, u0)
    ensures if left then SortedBut(lt, t, l0, u0, i + 1, u) else SortedBut(lt, t, l0, u0, l, i - 1)
  {
    hide StrictWeak, Leq, Sorted;
    var l', u' := if left then l else i + 1, if left then i - 1 else u;
    ShuffledWiden(s, t, l', u', l, u);
    ShuffledWiden(s, t, l', u', l0, u0);
    SortedButShuffled(lt, s, t, l0, u0, l, u);
    assert t[i] == s[i];
    NoneShuffled(lt, s, t, l', u', s[i]);
    SortedSide(lt, t, l0, u0, l, u, i, left);
  }

  lemma FewSorted(lt: Order, s: seq<int>, l0: int, u0: int, l: int, u: int)
    requires SortedBut(lt, s, l0, u0, l, u) && 0 <= l0 <= l < u <= u0 < |s| && u - l <= 2 && StrictWeak(lt)
    requires u - l == 1 ==> Leq(lt, s[l], s[u])
    requires u - l == 2 ==> Leq(lt, s[l], s[l + 1]) && Leq(lt, s[l + 1], s[u])
    ensures Sorted(lt, s, l0, u0)
  {
    if u - l == 2 { LeqTrans(lt, s[l], s[l + 1], s[u]); }
  }

  lemma AllSorted(lt: Order, s: seq<int>, l0: int, u0: int, l: int, u: int)
    requires SortedBut(lt, s, l0, u0, l, u) && l >= u
    ensures Sorted(lt, s, l0, u0)
  {
  }

  /** sort: the whole table, elements 1 to n. */
  method Sort(a: array<int>, n: nat, lt: Order)
    requires StrictWeak(lt) && n < a.Length
    modifies a
    ensures Sorted(lt, a[..], 1, n) && Shuffled(old(a[..]), a[..], 1, n)
  {
    var ok, depth := AuxSort(a, 1, n, lt);
  }
}
