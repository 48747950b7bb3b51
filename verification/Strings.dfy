/** The table of strings: every string exists once, in the bucket its hash gives. */
module Strings {
  import opened Common
  import opened Lists

  /** Any function of the characters may be the hash function. */
  type Hash = string -> nat

  function Bucket(hash: Hash, s: string, size: nat): (b: nat)
    requires size > 0
    ensures b < size
  {
    hash(s) % size
  }

  /** Each bucket is a chain. */
  predicate Chains(heads: seq<int>, next: map<Id, int>, bs: seq<seq<Id>>) {
    |heads| == |bs| && forall i :: 0 <= i < |bs| ==> Linked(heads[i], next, bs[i]) && Distinct(bs[i])
  }

  /** What is in a bucket belongs there. */
  predicate Placed(hash: Hash, text: map<Id, string>, bs: seq<seq<Id>>) {
    |bs| > 0 && forall i, x :: 0 <= i < |bs| && x in bs[i] ==> x in text && Bucket(hash, text[x], |bs|) == i
  }

  /** Every string is in its bucket. */
  predicate Complete(hash: Hash, text: map<Id, string>, bs: seq<seq<Id>>) {
    |bs| > 0 && forall x :: x in text ==> x in bs[Bucket(hash, text[x], |bs|)]
  }

  predicate Interned(text: map<Id, string>) {
    forall x, y :: x in text && y in text && text[x] == text[y] ==> x == y
  }

  /** Strings are never black.  White comes in two shades: a string in the shade that is not the
      current one is dead. */
  datatype Shade = White(bit: bool) | Gray

  /** The chains hold every string once, where its hash says, and nuse counts them. */
  ghost predicate Table(hash: Hash, heads: seq<int>, next: map<Id, int>, text: map<Id, string>, nuse: int,
                        bs: seq<seq<Id>>) {
    Chains(heads, next, bs) && Placed(hash, text, bs) && Complete(hash, text, bs) && Interned(text) && nuse == |text|
  }

  /** Outside a sweep nothing is in the other white; during one, not in the buckets behind it. */
  predicate Shaded(hash: Hash, text: map<Id, string>, size: nat, shade: map<Id, Shade>, white: bool, sweeping: bool,
                   sweepstr: nat) {
    && shade.Keys == text.Keys && size > 0 && (sweeping ==> sweepstr < size)
    && forall x :: x in text && (sweeping ==> Bucket(hash, text[x], size) < sweepstr) ==> shade[x] != White(!white)
  }

  /** Putting x in front of bucket j. */
  lemma Prepended(heads: seq<int>, next: map<Id, int>, bs: seq<seq<Id>>, j: nat, x: Id)
    requires Chains(heads, next, bs) && j < |bs| && forall i :: 0 <= i < |bs| ==> x !in bs[i]
    ensures Chains(heads[j := x], next[x := heads[j]], bs[j := [x] + bs[j]])
  {
    var heads', next', bs' := heads[j := x], next[x := heads[j]], bs[j := [x] + bs[j]];
    forall i | 0 <= i < |bs'| ensures Linked(heads'[i], next', bs'[i]) && Distinct(bs'[i]) {
      LinkedFrame(heads[i], next, next', bs[i]);
      if i == j { LinkedCons(heads[j], next', bs[j], x); }
    }
  }

  lemma LinkedCons(p: int, next: map<Id, int>, l: seq<Id>, x: Id)
    requires Linked(p, next, l) && x in next && next[x] == p
    ensures Linked(x, next, [x] + l)
  {
    var l' := [x] + l;
    forall k | 0 <= k < |l'| ensures l'[k] in next && next[l'[k]] == First(l'[k + 1..]) {
      if k == 0 { assert l'[1..] == l; } else { assert l'[k] == l[k - 1] && l'[k + 1..] == l[k..]; }
    }
  }

  class StringTable {
    const hash: Hash
    var heads: seq<int>            // tb->hash
    var next: map<Id, int>
    var text: map<Id, string>
    var nuse: nat
    var shade: map<Id, Shade>
    var fixed: set<Id>             // never freed
    var white: bool                // the current white
    var sweeping: bool             // gcstate is GCSsweepstring
    var sweepstr: nat              // next bucket to sweep
    ghost var buckets: seq<seq<Id>>

    ghost predicate Valid()
      reads this
    {
      && Table(hash, heads, next, text, nuse, buckets)
      && Shaded(hash, text, |heads|, shade, white, sweeping, sweepstr)
    }

    constructor (hash: Hash, size: nat)
      requires size > 0
      ensures Valid() && this.hash == hash && |heads| == size && text == map[] && !sweeping
    {
      this.hash := hash;
      heads, next, text, nuse := seq(size, _ => NULL), map[], map[], 0;
      shade, fixed, white, sweeping, sweepstr := map[], {}, false, false, 0;
      buckets := seq(size, _ => []);
    }

    /** The search along a bucket. */
    method Find(s: string) returns (x: int)
      requires Valid()
      ensures x >= 0 ==> x in text && text[x] == s
      ensures x < 0 ==> forall y :: y in text ==> text[y] != s
    {
      hide Linked, Interned;
      var i := hash(s) % |heads|;
      x := heads[i];
      ghost var rest := buckets[i];
      LinkedFirst(x, next, rest);
      while x != NULL
        invariant Linked(x, next, rest) && x == First(rest) && (forall y :: y in rest ==> y in buckets[i])
        invariant forall y :: y in buckets[i] && y !in rest ==> text[y] != s
        decreases |rest|
      {
        assert rest == [x] + rest[1..];
        if text[x] == s { return; }
        LinkedTail(x, next, rest);
        x, rest := next[x], rest[1..];
        LinkedFirst(x, next, rest);
      }
    }

    /** The inner loop of luaS_resize: the strings of bucket i go to their new buckets. */
    method MoveBucket(newhash: seq<int>, ghost bs0: seq<seq<Id>>, i: nat) returns (nh: seq<int>, ghost bs: seq<seq<Id>>)
      requires i < |heads| == |buckets| && Placed(hash, text, buckets)
      requires Rehashing(hash, text, newhash, next, buckets, bs0, i, buckets[i]) && LaterChains(heads, next, buckets, i)
      requires Linked(heads[i], next, buckets[i]) && Distinct(buckets[i])
      modifies `next
      ensures |nh| == |newhash| && Rehashing(hash, text, nh, next, buckets, bs, i, [])
              && LaterChains(heads, next, buckets, i)
    {
      hide Linked, Distinct, Rehashing, LaterChains, Placed;
      nh, bs := newhash, bs0;
      var p := heads[i];
      ghost var rest := buckets[i];
      LinkedFirst(p, next, rest);
      while p != NULL
        invariant Linked(p, next, rest) && p == First(rest) && Distinct(rest)
                  && (forall x :: x in rest ==> x in buckets[i])
        invariant |nh| == |newhash| && Rehashing(hash, text, nh, next, buckets, bs, i, rest)
                  && LaterChains(heads, next, buckets, i)
        decreases |rest|
      {
        assert rest[0] in rest;
        PlacedText(hash, text, buckets, i, p);
        RehashSize(hash, text, nh, next, buckets, bs, i, rest);
        LinkedTail(p, next, rest);
        var after := next[p];
        var h := hash(text[p]) % |nh|;
        MoveStep(hash, text, heads, nh, next, buckets, bs, i, rest, after);
        next := next[p := nh[h]];
        nh, bs := nh[h := p], bs[h := [p] + bs[h]];
        p, rest := after, rest[1..];
        LinkedFirst(p, next, rest);
      }
    }

    /** luaS_resize, which does nothing while buckets are being swept. */
    method Resize(size: nat)
      requires Valid() && size > 0
      modifies `heads, `next, `buckets
      ensures Valid() && |heads| == if sweeping then old(|heads|) else size
    {
      hide Linked, Distinct, Interned, Rehashing, LaterChains, Placed, Complete, Chains, Bucket;
      if sweeping { return; }
      SizePositive();
      var newhash: seq<int> := seq(size, _ => NULL);
      ghost var bs: seq<seq<Id>> := seq(size, _ => []);
      RehashStart(hash, text, heads, newhash, next, buckets, bs);
      var i := 0;
      while i < |heads|
        invariant 0 <= i <= |heads| == |buckets| && heads == old(heads) && buckets == old(buckets) && |newhash| == size
        invariant Rehashing(hash, text, newhash, next, buckets, bs, i, if i < |buckets| then buckets[i] else [])
        invariant i < |heads| ==> Linked(heads[i], next, buckets[i]) && Distinct(buckets[i])
                                  && LaterChains(heads, next, buckets, i)
      {
        newhash, bs := MoveBucket(newhash, bs, i);
        RehashNext(hash, text, heads, newhash, next, buckets, bs, i);
        i := i + 1;
      }
      RehashDone(hash, text, newhash, next, buckets, bs, i);
      heads, buckets := newhash, bs;
    }

    lemma SizePositive()
      requires Valid()
      ensures |heads| == |buckets| > 0
    {
    }

    /** newlstr. */
    method Add(s: string, x: Id)
      requires Valid() && x !in text && forall y :: y in text ==> text[y] != s
      modifies this
      ensures Valid() && text == old(text)[x := s] && shade == old(shade)[x := White(white)]
      ensures white == old(white) && sweeping == old(sweeping) && sweepstr == old(sweepstr) && fixed == old(fixed)
      ensures nuse == old(nuse) + 1
      ensures |heads| == if nuse > old(|heads|) && old(|heads|) <= MAX_INT / 2 && !sweeping then 2 * old(|heads|)
                         else old(|heads|)
    {
      hide Table, Shaded;
      SizePositive();
      var h := hash(s) % |heads|;
      ShadedAdded(hash, text, |heads|, shade, white, sweeping, sweepstr, x, s);
      Added(hash, heads, next, text, nuse, buckets, x, s);
      next := next[x := heads[h]];
      heads := heads[h := x];
      buckets := buckets[h := [x] + buckets[h]];
      text, shade := text[x := s], shade[x := White(white)];
      nuse := nuse + 1;
      if nuse > |heads| && |heads| <= MAX_INT / 2 { Resize(|heads| * 2); }
    }

    /** luaS_newlstr: the one object with these characters, which is not dead afterwards. */
    method NewString(s: string, spare: Id) returns (x: Id)
      requires Valid() && spare !in text
      modifies this
      ensures Valid() && x in text && text[x] == s && shade[x] != White(!white)
      ensures if exists y :: y in old(text) && old(text)[y] == s
                        then text == old(text) else x == spare && text == old(text)[x := s]
      ensures white == old(white) && sweeping == old(sweeping) && sweepstr == old(sweepstr) && fixed == old(fixed)
      ensures forall y :: y in old(text) && y != x ==> shade[y] == old(shade)[y]
      ensures |heads| == if nuse > old(|heads|) && nuse > old(nuse) && old(|heads|) <= MAX_INT / 2 && !sweeping
                         then 2 * old(|heads|) else old(|heads|)
    {
      hide Chains, Placed, Complete, Interned;
      var f := Find(s);
      if f >= 0 {
        x := f;
        if shade[x] == White(!white) { shade := shade[x := White(white)]; }
        return;
      }
      x := spare;
      Add(s, x);
    }

    // ----- the collector

    /** What the sweep of its bucket will free. */
    predicate Doomed(x: Id)
      reads this
    {
      x in shade && shade[x] == White(!white) && x !in fixed
    }

    /** stringmark, while the collector marks. */
    method MarkString(x: Id)
      requires Valid() && x in text && !sweeping
      modifies `shade
      ensures Valid() && shade == old(shade)[x := Gray]
    {
      hide Table, Bucket;
      shade := shade[x := Gray];
    }

    /** luaS_fix. */
    method Fix(x: Id)
      requires Valid() && x in text
      modifies `fixed
      ensures Valid() && fixed == old(fixed) + {x}
    {
      hide Table, Shaded;
      fixed := fixed + {x};
    }

    /** The end of atomic, or luaC_fullgc giving up a mark phase, which does not flip the white:
        the strings that were not marked are now dead. */
    method StartSweep(flip: bool)
      requires Valid() && !sweeping
      modifies `white, `sweeping, `sweepstr
      ensures Valid() && sweeping && sweepstr == 0 && white == (old(white) != flip)
      ensures forall x :: x in text ==> (Doomed(x) <==> flip && old(shade)[x] == White(old(white)) && x !in fixed)
    {
      hide Table;
      SizePositive();
      if flip { white := !white; }
      sweeping, sweepstr := true, 0;
    }

    /** One step of GCSsweepstring: exactly the doomed strings of the bucket are freed, the others
        become white for the next cycle. */
    method SweepString()
      requires Valid() && sweeping
      modifies `heads, `next, `text, `shade, `nuse, `sweeping, `sweepstr, `buckets
      ensures Valid() && |heads| == old(|heads|)
      ensures forall x :: x in text <==>
              x in old(text) && !(Bucket(hash, old(text)[x], |heads|) == old(sweepstr) && old(Doomed(x)))
      ensures forall x :: x in text ==> text[x] == old(text)[x]
      ensures forall x :: x in text ==> shade[x] == if Bucket(hash, text[x], |heads|) == old(sweepstr)
                                   then White(white) else old(shade)[x]
      ensures sweepstr == old(sweepstr) + 1 && (sweeping <==> sweepstr < |heads|)
    {
      hide Table, Bucket;
      SizePositive();
      var i := sweepstr;
      SweepBucket(i);
      sweepstr := sweepstr + 1;
      if sweepstr >= |heads| { sweeping := false; }
    }

    /** Unlinks and frees the string after prev in bucket i. */
    method FreeString(i: nat, prev: int, curr: Id, ghost kept: seq<Id>, ghost rest: seq<Id>)
      requires Table(hash, heads, next, text, nuse, buckets) && i < |heads| == |buckets| && buckets[i] == kept + rest
      requires rest != [] && curr == rest[0] && prev == Last(kept)
      modifies `heads, `next, `text, `shade, `nuse, `buckets
      ensures Table(hash, heads, next, text, nuse, buckets) && |heads| == |buckets| == old(|heads|)
      ensures buckets[i] == kept + rest[1..] && text == old(text) - {curr} && shade == old(shade) - {curr}
    {
      hide Table;
      CurrAt(hash, heads, next, text, nuse, buckets, i, kept, rest);
      Unlinked(hash, heads, next, text, nuse, buckets, i, kept, rest);
      if prev == NULL { heads := heads[i := next[curr]]; } else { next := next[prev := next[curr]]; }
      text, shade, nuse := text - {curr}, shade - {curr}, nuse - 1;
      buckets := buckets[i := kept + rest[1..]];
    }

    /** sweepwholelist on a bucket. */
    method SweepBucket(i: nat)
      requires Table(hash, heads, next, text, nuse, buckets) && shade.Keys == text.Keys && i < |heads|
      modifies `heads, `next, `text, `shade, `nuse, `buckets
      ensures Table(hash, heads, next, text, nuse, buckets) && shade.Keys == text.Keys && |heads| == old(|heads|)
      ensures forall x :: x in text <==> x in old(text) && !(Bucket(hash, old(text)[x], |heads|) == i && old(Doomed(x)))
      ensures forall x :: x in text ==> text[x] == old(text)[x]
      ensures forall x :: x in text ==> shade[x] == if Bucket(hash, text[x], |heads|) == i
                                   then White(white) else old(shade)[x]
    {
      hide Table, Swept, Distinct, Bucket;
      BucketAt(hash, heads, next, text, nuse, buckets, i);
      var prev, curr := NULL, heads[i];
      ghost var kept: seq<Id>, rest: seq<Id> := [], buckets[i];
      ghost var text0, shade0 := text, shade;
      SweptNone(text, shade, white, fixed, rest);
      while curr != NULL
        invariant i < |heads| == |buckets| == old(|heads|) && Table(hash, heads, next, text, nuse, buckets)
        invariant buckets[i] == kept + rest && prev == Last(kept) && curr == First(rest)
        invariant Swept(text0, shade0, text, shade, white, fixed, old(buckets[i]), kept, rest)
        decreases |rest|
      {
        CurrAt(hash, heads, next, text, nuse, buckets, i, kept, rest);
        SweptAt(text0, shade0, text, shade, white, fixed, old(buckets[i]), kept, rest);
        var after := next[curr];
        if shade[curr] == White(!white) && curr !in fixed {
          SweptFree(text0, shade0, text, shade, white, fixed, old(buckets[i]), kept, rest);
          FreeString(i, prev, curr, kept, rest);
          rest := rest[1..];
        } else {
          SweptKeep(text0, shade0, text, shade, white, fixed, old(buckets[i]), kept, rest);
          shade := shade[curr := White(white)];
          assert kept + rest == kept + [curr] + rest[1..];
          kept, prev, rest := kept + [curr], curr, rest[1..];
        }
        curr := after;
      }
      assert rest == [];
      SweptAll(hash, text0, shade0, text, shade, white, fixed, old(buckets), i, kept);
    }

    /** The end of GCSsweep: a table that has become too big is halved. */
    method CheckSizes()
      requires Valid()
      modifies `heads, `next, `buckets
      ensures Valid() && |heads| == if !sweeping && nuse < old(|heads|) / 4 && old(|heads|) > MINSTRTABSIZE * 2
              then old(|heads|) / 2 else old(|heads|)
    {
      hide Table, Shaded;
      if nuse < |heads| / 4 && |heads| > MINSTRTABSIZE * 2 { Resize(|heads| / 2); }
    }
  }

  /** A new string at the head of its bucket. */
  lemma Added(hash: Hash, heads: seq<int>, next: map<Id, int>, text: map<Id, string>, nuse: int, bs: seq<seq<Id>>,
              x: Id, s: string)
    requires Table(hash, heads, next, text, nuse, bs) && x !in text && forall y :: y in text ==> text[y] != s
    ensures |heads| == |bs| > 0
    ensures var h := hash(s) % |heads|;
            Table(hash, heads[h := x], next[x := heads[h]], text[x := s], nuse + 1, bs[h := [x] + bs[h]])
  {
    hide Linked, Distinct, Chains, Placed, Complete;
    assert |heads| == |bs| > 0 by { ChainsSize(hash, heads, next, text, bs); }
    var h := hash(s) % |heads|;
    AbsentEverywhere(hash, text, bs, x);
    Prepended(heads, next, bs, h, x);
    AddedPlaced(hash, text, bs, x, s);
  }

  lemma ShadedAdded(hash: Hash, text: map<Id, string>, size: nat, shade: map<Id, Shade>, white: bool, sweeping: bool,
                    sweepstr: nat, x: Id, s: string)
    requires Shaded(hash, text, size, shade, white, sweeping, sweepstr)
    ensures Shaded(hash, text[x := s], size, shade[x := White(white)], white, sweeping, sweepstr)
  {
    hide Bucket;
  }

  lemma ChainsSize(hash: Hash, heads: seq<int>, next: map<Id, int>, text: map<Id, string>, bs: seq<seq<Id>>)
    requires Chains(heads, next, bs) && Placed(hash, text, bs)
    ensures |heads| == |bs| > 0
  {
  }

  // ----- lemmas for sweeping

  function Last(l: seq<Id>): int {
    if l == [] then NULL else l[|l| - 1]
  }

  lemma BucketAt(hash: Hash, heads: seq<int>, next: map<Id, int>, text: map<Id, string>, nuse: int, bs: seq<seq<Id>>,
                 i: nat)
    requires Table(hash, heads, next, text, nuse, bs) && i < |heads|
    ensures |heads| == |bs| && heads[i] == First(bs[i]) && Distinct(bs[i])
    ensures forall x :: x in bs[i] <==> x in text && Bucket(hash, text[x], |bs|) == i
  {
    hide Bucket, Distinct, Interned;
  }

  /** The next string of the bucket. */
  lemma CurrAt(hash: Hash, heads: seq<int>, next: map<Id, int>, text: map<Id, string>, nuse: int, bs: seq<seq<Id>>,
               i: nat, kept: seq<Id>, rest: seq<Id>)
    requires Table(hash, heads, next, text, nuse, bs) && i < |heads| == |bs| && bs[i] == kept + rest && rest != []
    ensures rest[0] in next && next[rest[0]] == First(rest[1..]) && rest[0] in text && nuse > 0
    ensures rest[0] !in kept && rest[0] !in rest[1..] && Distinct(kept + rest)
  {
    hide Linked, Distinct, Complete, Interned, Bucket, First;
    LinkedAt(heads[i], next, kept, rest);
    assert rest[0] in bs[i];
  }

  lemma LinkedAt(p: int, next: map<Id, int>, kept: seq<Id>, rest: seq<Id>)
    requires Linked(p, next, kept + rest) && Distinct(kept + rest) && rest != []
    ensures rest[0] in next && next[rest[0]] == First(rest[1..]) && rest[0] !in kept && rest[0] !in rest[1..]
  {
    var l := kept + rest;
    assert l[|kept|] == rest[0] && l[|kept| + 1..] == rest[1..];
    assert forall k :: 0 <= k < |kept| ==> l[k] == kept[k];
    assert forall k :: 0 <= k < |rest[1..]| ==> l[|kept| + 1 + k] == rest[1..][k];
  }

  /** Unlinking the first of rest from a chain. */
  lemma UnlinkedChain(p: int, next: map<Id, int>, kept: seq<Id>, rest: seq<Id>)
    requires Linked(p, next, kept + rest) && Distinct(kept + rest) && rest != [] && rest[0] in next
             && next[rest[0]] == First(rest[1..])
    ensures var next' := if kept == [] then next else next[Last(kept) := next[rest[0]]];
            Linked(if kept == [] then next[rest[0]] else p, next', kept + rest[1..]) && Distinct(kept + rest[1..])
  {
    var l, l' := kept + rest, kept + rest[1..];
    var next' := if kept == [] then next else next[Last(kept) := next[rest[0]]];
    assert forall k :: 0 <= k < |kept| ==> l[k] == kept[k] == l'[k];
    assert forall k :: |kept| <= k < |l'| ==> l'[k] == l[k + 1];
    forall k | 0 <= k < |l'| ensures l'[k] in next' && next'[l'[k]] == First(l'[k + 1..]) {
      if k + 1 < |kept| {
        assert l[k] in next && next[l[k]] == First(l[k + 1..]);
        assert l[k + 1..][0] == kept[k + 1] == l'[k + 1..][0];
        assert l[k] != l[|kept| - 1];
      } else if k + 1 == |kept| {
        assert l'[k + 1..] == rest[1..];
      } else {
        assert l[k + 1] in next && next[l[k + 1]] == First(l[k + 2..]);
        assert l[k + 2..] == l'[k + 1..];
        if kept != [] { assert l[|kept| - 1] != l[k + 1]; }
      }
    }
  }

  lemma Unlinked(hash: Hash, heads: seq<int>, next: map<Id, int>, text: map<Id, string>, nuse: int, bs: seq<seq<Id>>,
                 i: nat, kept: seq<Id>, rest: seq<Id>)
    requires Table(hash, heads, next, text, nuse, bs) && i < |heads| == |bs| && bs[i] == kept + rest && rest != []
    requires rest[0] in next && next[rest[0]] == First(rest[1..])
    ensures var heads' := if kept == [] then heads[i := next[rest[0]]] else heads;
            var next' := if kept == [] then next else next[Last(kept) := next[rest[0]]];
            Table(hash, heads', next', text - {rest[0]}, nuse - 1, bs[i := kept + rest[1..]])
  {
    hide Linked, Distinct, Placed, Complete, Bucket;
    var heads' := if kept == [] then heads[i := next[rest[0]]] else heads;
    var next' := if kept == [] then next else next[Last(kept) := next[rest[0]]];
    var bs' := bs[i := kept + rest[1..]];
    CurrAt(hash, heads, next, text, nuse, bs, i, kept, rest);
    UnlinkedChain(heads[i], next, kept, rest);
    ChainsKept(heads, heads', next, next', bs, bs', i, Last(kept)) by { OtherBuckets(hash, text, bs, i, kept, rest); }
    RemovedPlaced(hash, text, bs, i, kept, rest);
    assert |text - {rest[0]}| == |text| - 1 by { assert (text - {rest[0]}).Keys == text.Keys - {rest[0]}; }
  }

  lemma ChainKept(p: int, next: map<Id, int>, next': map<Id, int>, l: seq<Id>, u: int)
    requires Linked(p, next, l) && u !in l && forall x :: x in next && x != u ==> x in next' && next'[x] == next[x]
    ensures Linked(p, next', l)
  {
    forall x | x in l ensures x in next && x in next' && next'[x] == next[x] { var k :| 0 <= k < |l| && l[k] == x; }
    LinkedFrame(p, next, next', l);
  }

  lemma ChainsKept(heads: seq<int>, heads': seq<int>, next: map<Id, int>, next': map<Id, int>, bs: seq<seq<Id>>,
                   bs': seq<seq<Id>>, i: nat, u: int)
    requires Chains(heads, next, bs) && |heads'| == |bs'| == |bs| && i < |bs| && Linked(heads'[i], next', bs'[i])
             && Distinct(bs'[i])
    requires forall j :: 0 <= j < |bs| && j != i ==> heads'[j] == heads[j] && bs'[j] == bs[j] && u !in bs[j]
    requires forall x :: x in next && x != u ==> x in next' && next'[x] == next[x]
    ensures Chains(heads', next', bs')
  {
    hide Linked, Distinct;
    forall j | 0 <= j < |bs'| ensures Linked(heads'[j], next', bs'[j]) && Distinct(bs'[j]) {
      if j != i { ChainKept(heads[j], next, next', bs[j], u); }
    }
  }

  /** No other bucket holds the last string that was kept. */
  lemma OtherBuckets(hash: Hash, text: map<Id, string>, bs: seq<seq<Id>>, i: nat, kept: seq<Id>, rest: seq<Id>)
    requires Placed(hash, text, bs) && i < |bs| && bs[i] == kept + rest
    ensures forall j :: 0 <= j < |bs| && j != i ==> Last(kept) !in bs[j]
  {
    hide Bucket;
    forall j | 0 <= j < |bs| && j != i ensures Last(kept) !in bs[j] {
      if kept != [] {
        var u: Id := kept[|kept| - 1];
        assert bs[i][|kept| - 1] == u;
        assert u in bs[i] && u in text && Bucket(hash, text[u], |bs|) == i;
        assert u !in bs[j];
      }
    }
  }

  lemma RemovedPlaced(hash: Hash, text: map<Id, string>, bs: seq<seq<Id>>, i: nat, kept: seq<Id>, rest: seq<Id>)
    requires Placed(hash, text, bs) && Complete(hash, text, bs) && i < |bs| && bs[i] == kept + rest && rest != []
    requires rest[0] !in kept && rest[0] !in rest[1..]
    ensures var bs' := bs[i := kept + rest[1..]];
            Placed(hash, text - {rest[0]}, bs') && Complete(hash, text - {rest[0]}, bs')
  {
    hide Bucket;
    var x0, bs', text' := rest[0], bs[i := kept + rest[1..]], text - {rest[0]};
    assert rest == [x0] + rest[1..];
    assert forall x :: x in bs'[i] <==> x in bs[i] && x != x0;
    assert x0 in bs[i] && Bucket(hash, text[x0], |bs|) == i;
    forall j, x | 0 <= j < |bs'| && x in bs'[j] ensures x in text' && Bucket(hash, text'[x], |bs'|) == j {
      assert x in bs[j];
    }
    forall x | x in text' ensures x in bs'[Bucket(hash, text'[x], |bs'|)] {
      assert x in bs[Bucket(hash, text[x], |bs|)];
    }
  }

  /** How far the sweep of bucket b0 has come: what is neither kept nor still to come was doomed
      and is gone. */
  ghost predicate Swept(text0: map<Id, string>, shade0: map<Id, Shade>, text: map<Id, string>, shade: map<Id, Shade>,
                        white: bool, fixed: set<Id>, b0: seq<Id>, kept: seq<Id>, rest: seq<Id>) {
    && shade0.Keys == text0.Keys && shade.Keys == text.Keys
    && (forall x :: x in text <==> x in text0 && (x in b0 ==> x in kept || x in rest))
    && (forall x :: x in text ==> text[x] == text0[x] && shade[x] == if x in kept then White(white) else shade0[x])
    && (forall x :: x in b0 && x in text0 && x !in rest ==>
       (x in kept <==> !(shade0[x] == White(!white) && x !in fixed)))
    && (forall x :: x in kept || x in rest ==> x in b0)
  }

  lemma SweptNone(text: map<Id, string>, shade: map<Id, Shade>, white: bool, fixed: set<Id>, b0: seq<Id>)
    requires shade.Keys == text.Keys
    ensures Swept(text, shade, text, shade, white, fixed, b0, [], b0)
  {
  }

  lemma SweptAt(text0: map<Id, string>, shade0: map<Id, Shade>, text: map<Id, string>, shade: map<Id, Shade>,
                white: bool, fixed: set<Id>, b0: seq<Id>, kept: seq<Id>, rest: seq<Id>)
    requires Swept(text0, shade0, text, shade, white, fixed, b0, kept, rest)
    requires rest != [] && rest[0] in text && rest[0] !in kept
    ensures rest[0] in shade && shade[rest[0]] == shade0[rest[0]]
  {
  }

  lemma SweptFree(text0: map<Id, string>, shade0: map<Id, Shade>, text: map<Id, string>, shade: map<Id, Shade>,
                  white: bool, fixed: set<Id>, b0: seq<Id>, kept: seq<Id>, rest: seq<Id>)
    requires Swept(text0, shade0, text, shade, white, fixed, b0, kept, rest)
    requires rest != [] && rest[0] in text && rest[0] !in kept && rest[0] !in rest[1..]
    requires shade[rest[0]] == White(!white) && rest[0] !in fixed
    ensures Swept(text0, shade0, text - {rest[0]}, shade - {rest[0]}, white, fixed, b0, kept, rest[1..])
  {
    assert rest == [rest[0]] + rest[1..];
  }

  lemma SweptKeep(text0: map<Id, string>, shade0: map<Id, Shade>, text: map<Id, string>, shade: map<Id, Shade>,
                  white: bool, fixed: set<Id>, b0: seq<Id>, kept: seq<Id>, rest: seq<Id>)
    requires Swept(text0, shade0, text, shade, white, fixed, b0, kept, rest)
    requires rest != [] && rest[0] in text && rest[0] !in kept && rest[0] !in rest[1..]
    requires !(shade[rest[0]] == White(!white) && rest[0] !in fixed)
    ensures Swept(text0, shade0, text, shade[rest[0] := White(white)], white, fixed, b0, kept + [rest[0]], rest[1..])
  {
    assert rest == [rest[0]] + rest[1..];
  }

  lemma SweptAll(hash: Hash, text0: map<Id, string>, shade0: map<Id, Shade>, text: map<Id, string>, shade: map<Id,
                 Shade>,
                 white: bool, fixed: set<Id>, bs: seq<seq<Id>>, i: nat, kept: seq<Id>)
    requires i < |bs| && (forall x :: x in bs[i] <==> x in text0 && Bucket(hash, text0[x], |bs|) == i)
    requires Swept(text0, shade0, text, shade, white, fixed, bs[i], kept, [])
    ensures shade.Keys == text.Keys && shade0.Keys == text0.Keys
    ensures forall x :: x in text <==>
            x in text0 && !(Bucket(hash, text0[x], |bs|) == i && shade0[x] == White(!white) && x !in fixed)
    ensures forall x :: x in text ==> text[x] == text0[x]
    ensures forall x :: x in text ==> shade[x] == if Bucket(hash, text[x], |bs|) == i then White(white) else shade0[x]
  {
    hide Bucket;
  }

  // ----- lemmas for resizing

  lemma EmptyChains(heads: seq<int>, next: map<Id, int>, bs: seq<seq<Id>>, hash: Hash, text: map<Id, string>)
    requires |heads| == |bs| > 0 && (forall i :: 0 <= i < |heads| ==> heads[i] == NULL)
             && (forall i :: 0 <= i < |bs| ==> bs[i] == [])
    ensures Chains(heads, next, bs) && Placed(hash, text, bs)
  {
  }

  /** Buckets before i and bucket i up to rest have been moved; the others have not. */
  ghost predicate Moving(hash: Hash, text: map<Id, string>, from: seq<seq<Id>>, to: seq<seq<Id>>, i: nat,
                         rest: seq<Id>) {
    |from| > 0 && |to| > 0 && forall x :: x in text ==> MovedOk(hash, text, from, to, i, rest, x)
  }

  predicate MovedOk(hash: Hash, text: map<Id, string>, from: seq<seq<Id>>, to: seq<seq<Id>>, i: nat, rest: seq<Id>,
                    x: Id)
    requires x in text && |from| > 0 && |to| > 0
  {
    var b := Bucket(hash, text[x], |from|);
    x in to[Bucket(hash, text[x], |to|)] <==> b < i || (b == i && x !in rest)
  }

  lemma NoneMoved(hash: Hash, text: map<Id, string>, from: seq<seq<Id>>, to: seq<seq<Id>>)
    requires Complete(hash, text, from) && |to| > 0 && forall i :: 0 <= i < |to| ==> to[i] == []
    ensures Moving(hash, text, from, to, 0, from[0])
  {
  }

  lemma NotMoved(hash: Hash, text: map<Id, string>, from: seq<seq<Id>>, to: seq<seq<Id>>, i: nat, rest: seq<Id>)
    requires Moving(hash, text, from, to, i, rest) && Placed(hash, text, from) && Placed(hash, text, to) && i < |from|
             && rest != [] && rest[0] in from[i]
    ensures forall j :: 0 <= j < |to| ==> rest[0] !in to[j]
  {
    var x := rest[0];
    assert MovedOk(hash, text, from, to, i, rest, x);
  }

  lemma MoveOne(hash: Hash, text: map<Id, string>, from: seq<seq<Id>>, to: seq<seq<Id>>, i: nat, rest: seq<Id>, h: nat)
    requires Moving(hash, text, from, to, i, rest) && Placed(hash, text, from) && Placed(hash, text, to) && i < |from|
    requires rest != [] && rest[0] in from[i] && Distinct(rest) && h < |to| && rest[0] in text
             && h == Bucket(hash, text[rest[0]], |to|)
    ensures var to' := to[h := [rest[0]] + to[h]]; Moving(hash, text, from, to', i, rest[1..])
                                                   && Placed(hash, text, to')
  {
    var p, to' := rest[0], to[h := [rest[0]] + to[h]];
    assert rest == [p] + rest[1..];
    assert p !in rest[1..];
    forall x | x in text ensures MovedOk(hash, text, from, to', i, rest[1..], x) {
      assert MovedOk(hash, text, from, to, i, rest, x);
    }
  }

  lemma NextBucket(hash: Hash, text: map<Id, string>, from: seq<seq<Id>>, to: seq<seq<Id>>, i: nat)
    requires Moving(hash, text, from, to, i, []) && Complete(hash, text, from) && i < |from|
    ensures Moving(hash, text, from, to, i + 1, if i + 1 < |from| then from[i + 1] else [])
  {
    var rest := if i + 1 < |from| then from[i + 1] else [];
    forall x | x in text
      ensures MovedOk(hash, text, from, to, i + 1, rest, x)
    {
      assert MovedOk(hash, text, from, to, i, [], x);
    }
  }

  lemma AllMoved(hash: Hash, text: map<Id, string>, from: seq<seq<Id>>, to: seq<seq<Id>>)
    requires Moving(hash, text, from, to, |from|, [])
    ensures Complete(hash, text, to)
  {
    forall x | x in text
      ensures x in to[Bucket(hash, text[x], |to|)]
    {
      assert MovedOk(hash, text, from, to, |from|, [], x);
    }
  }

  /** Relinking p disturbs neither the rest of its chain nor the later ones. */
  lemma KeepLinked(next: map<Id, int>, next': map<Id, int>, after: int, rest: seq<Id>, p: Id, heads: seq<int>,
                   from: seq<seq<Id>>, i: nat,
                   hash: Hash, text: map<Id, string>)
    requires rest != [] && rest[0] == p && Distinct(rest) && Linked(after, next, rest[1..]) && i < |from| == |heads|
    requires Placed(hash, text, from) && p in from[i] && p in next && forall x :: x in next && x != p ==>
             x in next' && next'[x] == next[x]
    requires forall j :: i < j < |heads| ==> Linked(heads[j], next, from[j])
    ensures Linked(after, next', rest[1..]) && Distinct(rest[1..]) && forall j :: i < j < |heads| ==>
            Linked(heads[j], next', from[j])
  {
    hide First;
    assert forall k :: 0 <= k < |rest[1..]| ==> rest[1..][k] == rest[k + 1] != p;
    KeptElsewhere(next, next', after, rest[1..], p);
    forall j | i < j < |heads| ensures Linked(heads[j], next', from[j]) {
      assert p in text && Bucket(hash, text[p], |from|) == i;
      assert p !in from[j];
      KeptElsewhere(next, next', heads[j], from[j], p);
    }
  }

  lemma KeptElsewhere(next: map<Id, int>, next': map<Id, int>, q: int, l: seq<Id>, p: Id)
    requires Linked(q, next, l) && p !in l && (forall x :: x in next && x != p ==> x in next' && next'[x] == next[x])
    ensures Linked(q, next', l)
  {
    forall x | x in l ensures x in next && x in next' && next'[x] == next[x] { var k :| 0 <= k < |l| && l[k] == x; }
    LinkedFrame(q, next, next', l);
  }

  /** The new chains so far, and how far the move has come. */
  ghost predicate Rehashing(hash: Hash, text: map<Id, string>, newhash: seq<int>, next: map<Id, int>,
                            from: seq<seq<Id>>, to: seq<seq<Id>>, i: nat, rest: seq<Id>) {
    Chains(newhash, next, to) && Placed(hash, text, to) && Moving(hash, text, from, to, i, rest)
  }

  /** The chains that are still to be moved. */
  ghost predicate LaterChains(heads: seq<int>, next: map<Id, int>, from: seq<seq<Id>>, i: nat) {
    |heads| == |from| && forall j :: i < j < |heads| ==> Linked(heads[j], next, from[j]) && Distinct(from[j])
  }

  lemma RehashStart(hash: Hash, text: map<Id, string>, heads: seq<int>, newhash: seq<int>, next: map<Id, int>,
                    from: seq<seq<Id>>, to: seq<seq<Id>>)
    requires Chains(heads, next, from) && Complete(hash, text, from)
    requires |newhash| == |to| > 0 && (forall i :: 0 <= i < |newhash| ==> newhash[i] == NULL)
             && (forall i :: 0 <= i < |to| ==> to[i] == [])
    ensures |from| > 0 && Rehashing(hash, text, newhash, next, from, to, 0, from[0])
            && LaterChains(heads, next, from, 0)
    ensures Linked(heads[0], next, from[0]) && Distinct(from[0])
  {
    EmptyChains(newhash, next, to, hash, text);
    NoneMoved(hash, text, from, to);
  }

  lemma RehashSize(hash: Hash, text: map<Id, string>, newhash: seq<int>, next: map<Id, int>, from: seq<seq<Id>>,
                   to: seq<seq<Id>>, i: nat, rest: seq<Id>)
    requires Rehashing(hash, text, newhash, next, from, to, i, rest)
    ensures |newhash| == |to| > 0
  {
  }

  lemma PlacedText(hash: Hash, text: map<Id, string>, bs: seq<seq<Id>>, i: nat, x: Id)
    requires Placed(hash, text, bs) && i < |bs| && x in bs[i]
    ensures x in text
  {
  }

  lemma MoveStep(hash: Hash, text: map<Id, string>, heads: seq<int>, nh: seq<int>, next: map<Id, int>,
                 from: seq<seq<Id>>, to: seq<seq<Id>>,
                 i: nat, rest: seq<Id>, after: int)
    requires Rehashing(hash, text, nh, next, from, to, i, rest) && LaterChains(heads, next, from, i)
             && Placed(hash, text, from) && i < |from|
    requires rest != [] && rest[0] in from[i] && rest[0] in text && rest[0] in next && Distinct(rest)
             && Linked(after, next, rest[1..]) && |nh| > 0
    ensures var p := rest[0];
            var h := hash(text[p]) % |nh|;
            var next' := next[p := nh[h]];
            && h < |to| && Rehashing(hash, text, nh[h := p], next', from, to[h := [p] + to[h]], i, rest[1..])
               && LaterChains(heads, next', from, i)
            && Linked(after, next', rest[1..]) && Distinct(rest[1..])
  {
    hide Linked, Distinct, Moving, Placed;
    var p := rest[0];
    var h := hash(text[p]) % |nh|;
    NotMoved(hash, text, from, to, i, rest);
    Prepended(nh, next, to, h, p);
    KeepLinked(next, next[p := nh[h]], after, rest, p, heads, from, i, hash, text);
    MoveOne(hash, text, from, to, i, rest, h);
  }

  lemma RehashNext(hash: Hash, text: map<Id, string>, heads: seq<int>, nh: seq<int>, next: map<Id, int>,
                   from: seq<seq<Id>>, to: seq<seq<Id>>, i: nat)
    requires Rehashing(hash, text, nh, next, from, to, i, []) && LaterChains(heads, next, from, i)
             && Complete(hash, text, from) && i < |from|
    ensures Rehashing(hash, text, nh, next, from, to, i + 1, if i + 1 < |from| then from[i + 1] else [])
    ensures i + 1 < |heads| ==> Linked(heads[i + 1], next, from[i + 1]) && Distinct(from[i + 1])
                                && LaterChains(heads, next, from, i + 1)
  {
    hide Linked, Distinct, Chains;
    NextBucket(hash, text, from, to, i);
  }

  lemma RehashDone(hash: Hash, text: map<Id, string>, nh: seq<int>, next: map<Id, int>, from: seq<seq<Id>>,
                   to: seq<seq<Id>>, i: nat)
    requires Rehashing(hash, text, nh, next, from, to, i, []) && i == |from|
    ensures Chains(nh, next, to) && Placed(hash, text, to) && Complete(hash, text, to)
  {
    AllMoved(hash, text, from, to);
  }

  lemma AbsentEverywhere(hash: Hash, text: map<Id, string>, bs: seq<seq<Id>>, x: Id)
    requires Placed(hash, text, bs) && x !in text
    ensures forall i :: 0 <= i < |bs| ==> x !in bs[i]
  {
  }

  lemma AddedPlaced(hash: Hash, text: map<Id, string>, bs: seq<seq<Id>>, x: Id, s: string)
    requires Placed(hash, text, bs) && Complete(hash, text, bs) && x !in text
    ensures var h := Bucket(hash, s, |bs|);
            Placed(hash, text[x := s], bs[h := [x] + bs[h]]) && Complete(hash, text[x := s], bs[h := [x] + bs[h]])
  {
    AbsentEverywhere(hash, text, bs, x);
  }
}
