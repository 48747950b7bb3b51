/** Lists of objects that are linked through a field of the objects. */
module Lists {
  type Id = nat

  const NULL: int := -1

  function First(l: seq<Id>): int {
    if l == [] then NULL else l[0]
  }

  /** The list that starts at p and is linked through next. */
  predicate Linked(p: int, next: map<Id, int>, l: seq<Id>) {
    p == First(l) && forall k :: 0 <= k < |l| ==> l[k] in next && next[l[k]] == First(l[k + 1..])
  }

  lemma LinkedTail(p: int, next: map<Id, int>, l: seq<Id>)
    requires Linked(p, next, l) && l != []
    ensures p == l[0] && p in next && Linked(next[p], next, l[1..])
  {
    assert forall k :: 0 <= k < |l[1..]| ==> l[1..][k] == l[k + 1] && l[1..][k + 1..] == l[k + 2..];
  }

  lemma LinkedFrame(p: int, next: map<Id, int>, next': map<Id, int>, l: seq<Id>)
    requires Linked(p, next, l) && forall u :: u in l ==> u in next' && u in next && next'[u] == next[u]
    ensures Linked(p, next', l)
  {
  }

  lemma LinkedStart(p: int, next: map<Id, int>, l: seq<Id>)
    requires Linked(p, next, l)
    ensures l[0..] == l && p == First(l)
  {
  }

  lemma LinkedFirst(p: int, next: map<Id, int>, l: seq<Id>)
    requires Linked(p, next, l)
    ensures p == First(l)
  {
  }
}
