/** How the two parts of a table are sized: the base-two logarithm, counting integer keys by
    slices between powers of two, and choosing the size of the array part. */
module TableSizes {
  import opened Common

  const MAXBITS: nat := 26

  const MAXASIZE: nat := 0x400_0000

  lemma MaxSize()
    ensures Pow2(MAXBITS) == MAXASIZE
  {
    assert Pow2(8) == 256;
    Pow2Add(8, 8);
    Pow2Add(16, 8);
    Pow2Add(24, 2);
  }

  lemma {:induction false} Pow2Add(a: nat, b: nat)
    ensures Pow2(a + b) == Pow2(a) * Pow2(b)
    decreases b
  {
    if b > 0 { Pow2Add(a, b - 1); }
  }

  lemma {:induction false} Pow2Mono(a: nat, b: nat)
    requires a <= b
    ensures Pow2(a) <= Pow2(b) && (a < b ==> 2 * Pow2(a) <= Pow2(b))
    decreases b
  {
    if a < b { Pow2Mono(a, b - 1); }
  }

  // ----- logarithms

  /** The table log_2: the number of significant bits of a byte. */
  function Bits(x: nat): nat
    requires x < 256
  {
    if x == 0 then 0 else if x < 2 then 1 else if x < 4 then 2 else if x < 8 then 3 else if x < 16 then 4
    else if x < 32 then 5 else if x < 64 then 6 else if x < 128 then 7 else 8
  }

  lemma BitsAre(x: nat)
    requires 0 < x < 256
    ensures Pow2(Bits(x) - 1) <= x < Pow2(Bits(x))
  {
    assert Pow2(3) == 8;
    Pow2Add(3, 1); Pow2Add(3, 2); Pow2Add(3, 3); Pow2Add(3, 4); Pow2Add(3, 5);
  }

  lemma Pow2Of8()
    ensures Pow2(8) == 256
  {
    assert Pow2(4) == 16;
    Pow2Add(4, 4);
  }

  /** n is what is left of x after its low bits, p = 2^k of them, were shifted out. */
  predicate Shifted(x: nat, n: nat, p: nat) {
    n * p <= x < (n + 1) * p
  }

  /** luaO_log2: the floor of the logarithm, and -1 for 0. */
  method Log2(x: nat) returns (l: int)
    ensures x == 0 ==> l == -1
    ensures x > 0 ==> l >= 0 && Pow2(l) <= x < Pow2(l + 1)
  {
    hide Pow2, Shifted;
    var n, up := x, 0;
    l := -1;
    NoShift(x);
    while n >= 256
      invariant l == up - 1 && up >= 0 && (x > 0 ==> n > 0) && (n == 0 ==> up == 0)
      invariant Shifted(x, n, Pow2(up))
      decreases n
    {
      ShiftByte(x, n, up);
      l, up, n := l + 8, up + 8, n / 256;
    }
    l := l + Bits(n);
    if n > 0 { LastByte(x, n, up); } else { NothingLeft(x); }
  }

  lemma NoShift(x: nat)
    ensures Shifted(x, x, Pow2(0))
  {
  }

  lemma NothingLeft(x: nat)
    ensures Shifted(x, 0, Pow2(0)) ==> x == 0
  {
  }

  lemma ShiftByte(x: nat, n: nat, up: nat)
    requires Shifted(x, n, Pow2(up))
    ensures Shifted(x, n / 256, Pow2(up + 8))
  {
    hide Pow2;
    Pow2Of8();
    Pow2Add(up, 8);
    var p, q := Pow2(up), n / 256;
    Scale(q * 256, n, p);
    Scale(n + 1, (q + 1) * 256, p);
    assert (q * 256) * p == q * (p * 256) && ((q + 1) * 256) * p == (q + 1) * (p * 256);
  }

  lemma LastByte(x: nat, n: nat, up: nat)
    requires 0 < n < 256 && Shifted(x, n, Pow2(up))
    ensures up + Bits(n) > 0 && Pow2(up + Bits(n) - 1) <= x < Pow2(up + Bits(n))
  {
    hide Pow2;
    BitsAre(n);
    Pow2Add(up, Bits(n) - 1);
    Pow2Add(up, Bits(n));
    Scale(Pow2(Bits(n) - 1), n, Pow2(up));
    Scale(n + 1, Pow2(Bits(n)), Pow2(up));
  }

  lemma Scale(a: nat, b: nat, p: nat)
    requires a <= b
    ensures a * p <= b * p
  {
  }

  /** The least l with x <= 2^l. */
  function CeilLog(x: nat): (l: nat)
    ensures x <= Pow2(l) && (l > 0 ==> Pow2(l - 1) < x)
  {
    if x <= 1 then 0 else
      var h := CeilLog((x + 1) / 2);
      assert h > 0 ==> Pow2(h) == 2 * Pow2(h - 1);
      h + 1
  }

  lemma {:induction false} CeilLogIs(x: nat, l: nat)
    requires x <= Pow2(l) && (l > 0 ==> Pow2(l - 1) < x)
    ensures CeilLog(x) == l
  {
    var c := CeilLog(x);
    if c < l { Pow2Mono(c, l - 1); } else if l < c { Pow2Mono(l, c - 1); }
  }

  /** ceillog2. */
  method CeilLog2(x: nat) returns (l: nat)
    requires x > 0
    ensures l == CeilLog(x)
  {
    var f := Log2(x - 1);
    l := f + 1;
    CeilLogIs(x, l);
  }

  // ----- counting

  /** The keys of ks up to n. */
  function UpTo(ks: set<nat>, n: nat): set<nat> {
    set k | k in ks && k <= n
  }

  function Slice(ks: set<nat>, i: nat): set<nat> {
    set k | k in ks && CeilLog(k) == i
  }

  /** Integer keys that may live in an array part. */
  predicate Candidates(ks: set<nat>) {
    forall k :: k in ks ==> 1 <= k <= MAXASIZE
  }

  /** nums[i] counts the keys above 2^(i-1) and up to 2^i. */
  ghost predicate Counts(nums: seq<nat>, ks: set<nat>) {
    |nums| == MAXBITS + 1 && forall i :: 0 <= i <= MAXBITS ==> nums[i] == |Slice(ks, i)|
  }

  lemma SliceBound(k: nat)
    requires 1 <= k <= MAXASIZE
    ensures CeilLog(k) <= MAXBITS
  {
    MaxSize();
    if CeilLog(k) > MAXBITS { Pow2Mono(MAXBITS, CeilLog(k) - 1); }
  }

  lemma CountOne(nums: seq<nat>, ks: set<nat>, k: nat)
    requires Counts(nums, ks) && k !in ks && CeilLog(k) <= MAXBITS
    ensures Counts(nums[CeilLog(k) := nums[CeilLog(k)] + 1], ks + {k})
  {
    var c := CeilLog(k);
    var nums' := nums[c := nums[c] + 1];
    forall i | 0 <= i <= MAXBITS ensures nums'[i] == |Slice(ks + {k}, i)| {
      if i == c {
        assert Slice(ks + {k}, i) == Slice(ks, i) + {k};
      } else {
        assert Slice(ks + {k}, i) == Slice(ks, i);
      }
    }
  }

  lemma CountNone(nums: seq<nat>)
    requires nums == seq(MAXBITS + 1, _ => 0)
    ensures Counts(nums, {})
  {
    forall i | 0 <= i <= MAXBITS ensures nums[i] == |Slice({}, i)| { assert Slice({}, i) == {}; }
  }

  lemma UpToNext(ks: set<nat>, i: nat)
    requires Candidates(ks)
    ensures UpTo(ks, Pow2(i)) == (if i == 0 then {} else UpTo(ks, Pow2(i - 1))) + Slice(ks, i)
    ensures |UpTo(ks, Pow2(i))| == (if i == 0 then 0 else |UpTo(ks, Pow2(i - 1))|) + |Slice(ks, i)|
  {
    var low := if i == 0 then {} else UpTo(ks, Pow2(i - 1));
    forall k | k in ks ensures k <= Pow2(i) <==> (k in low || CeilLog(k) == i) {
      if k <= Pow2(i) && (i == 0 || k > Pow2(i - 1)) { CeilLogIs(k, i); }
    }
    assert UpTo(ks, Pow2(i)) == low + Slice(ks, i);
    assert low !! Slice(ks, i);
  }

  lemma {:induction false} UpToSize(ks: set<nat>, n: nat)
    requires Candidates(ks)
    ensures |UpTo(ks, n)| <= n
    decreases n
  {
    if n == 0 {
      assert UpTo(ks, 0) == {};
    } else {
      UpToSize(ks, n - 1);
      if n in ks { assert UpTo(ks, n) == UpTo(ks, n - 1) + {n}; } else { assert UpTo(ks, n) == UpTo(ks, n - 1); }
    }
  }

  lemma SubsetSize(a: set<nat>, b: set<nat>)
    requires a <= b
    ensures |a| <= |b| && (|a| == |b| ==> a == b)
  {
    assert b == a + (b - a);
  }

  lemma UpToAll(ks: set<nat>, n: nat)
    ensures |UpTo(ks, n)| <= |ks|
  {
    SubsetSize(UpTo(ks, n), ks);
  }

  // ----- choosing the size of the array part

  /** More than half of the slots 1..2^i are in use. */
  predicate Crowded(ks: set<nat>, i: nat) {
    |UpTo(ks, Pow2(i))| > Pow2(i) / 2
  }

  /** n is the largest power of two of which more than half the slots are in use. */
  ghost predicate Optimal(ks: set<nat>, n: nat) {
    && (n == 0 || exists i: nat :: Pow2(i) == n && Crowded(ks, i))
    && (forall i: nat :: Crowded(ks, i) ==> Pow2(i) <= n)
  }

  /** The best size among the powers below 2^i. */
  ghost predicate BestBelow(ks: set<nat>, n: nat, i: nat) {
    && (n == 0 || exists j: nat :: j < i && Pow2(j) == n && Crowded(ks, j))
    && (forall j: nat :: j < i && Crowded(ks, j) ==> Pow2(j) <= n)
  }

  lemma BestNext(ks: set<nat>, n: nat, i: nat)
    requires BestBelow(ks, n, i)
    ensures BestBelow(ks, if Crowded(ks, i) then Pow2(i) else n, i + 1)
  {
    hide UpTo;
    if Crowded(ks, i) {
      forall j: nat | j < i + 1 && Crowded(ks, j) ensures Pow2(j) <= Pow2(i) { Pow2Mono(j, i); }
    }
  }

  /** An empty slice cannot make the larger size crowded. */
  lemma EmptySlice(ks: set<nat>, i: nat)
    requires Candidates(ks) && |Slice(ks, i)| == 0
    ensures !Crowded(ks, i)
  {
    UpToNext(ks, i);
    if i > 0 { UpToSize(ks, Pow2(i - 1)); }
  }

  /** Past the point where the loop stops no size is crowded. */
  lemma BestAll(ks: set<nat>, n: nat, i: nat, a: nat)
    requires Candidates(ks) && BestBelow(ks, n, i)
    requires a == |ks| && (Pow2(i) / 2 >= a || (i > 0 && |UpTo(ks, Pow2(i - 1))| == a))
    ensures Optimal(ks, n)
  {
    forall j: nat | Crowded(ks, j) ensures Pow2(j) <= n {
      if j >= i {
        UpToAll(ks, Pow2(j));
        Pow2Mono(i, j);
        if Pow2(i) / 2 < a {
          SubsetSize(UpTo(ks, Pow2(i - 1)), ks);
          Pow2Mono(i - 1, j - 1);
          UpToSize(ks, Pow2(i - 1));
        }
      }
    }
  }

  /** How many keys are in the slices below slice i. */
  function Below(ks: set<nat>, i: nat): nat {
    if i == 0 then 0 else |UpTo(ks, Pow2(i - 1))|
  }

  /** One round of the loop of computesizes. */
  lemma SizeStep(ks: set<nat>, n: nat, i: nat)
    requires Candidates(ks) && BestBelow(ks, n, i) && i <= MAXBITS && n <= Pow2(i)
    ensures var a := Below(ks, i) + |Slice(ks, i)|;
            var n' := if |Slice(ks, i)| > 0 && a > Pow2(i) / 2 then Pow2(i) else n;
            && a == Below(ks, i + 1) == |UpTo(ks, Pow2(i))| && BestBelow(ks, n', i + 1) && n' <= Pow2(i) <= Pow2(i + 1)
            && Pow2(i + 1) == 2 * Pow2(i) && a <= |ks| && (i == MAXBITS ==> a == |ks|)
  {
    hide BestBelow, UpTo, Slice;
    UpToNext(ks, i);
    BestNext(ks, n, i);
    if |Slice(ks, i)| == 0 { EmptySlice(ks, i); }
    UpToAll(ks, Pow2(i));
    if i == MAXBITS { AllCounted(ks); }
  }

  lemma NoneBelow(ks: set<nat>)
    ensures Pow2(0) == 1 && BestBelow(ks, 0, 0) && |UpTo(ks, 0)| <= 1
    ensures Candidates(ks) ==> |UpTo(ks, 0)| == 0
  {
    SubsetSize(UpTo(ks, 0), {0});
    assert Candidates(ks) ==> UpTo(ks, 0) == {};
  }

  /** computesizes: returns the optimal size and how many keys go to the array part. */
  method ComputeSizes(nums: seq<nat>, narray: nat, ghost ks: set<nat>) returns (n: nat, na: nat)
    requires Candidates(ks) && Counts(nums, ks) && narray == |ks|
    ensures Optimal(ks, n) && n <= MAXASIZE
    ensures na == |UpTo(ks, n)| && n / 2 <= na <= n
  {
    hide BestBelow, UpTo, Slice, Pow2, Optimal, Candidates, Below;
    var i, twotoi, a := 0, 1, 0;
    n, na := 0, 0;
    NoneBelow(ks);
    BelowZero(ks);
    while twotoi / 2 < narray
      invariant i <= MAXBITS + 1 && twotoi == Pow2(i) && a == Below(ks, i) && (narray > 0 ==> a < narray)
      invariant BestBelow(ks, n, i) && na == |UpTo(ks, n)| && n <= Pow2(i) && (i > 0 ==> n <= Pow2(i - 1))
      invariant i == MAXBITS + 1 ==> a == narray
      decreases MAXBITS + 1 - i
    {
      SizeStep(ks, n, i);
      if nums[i] > 0 {
        a := a + nums[i];
        if a > twotoi / 2 {
          n, na := twotoi, a;
        }
      }
      i, twotoi := i + 1, twotoi * 2;
      if a == narray { break; }
    }
    BelowIs(ks, i);
    BestAll(ks, n, i, narray);
    UpToSize(ks, n);
    HalfFull(ks, n);
    SizeBound(n, i);
  }

  lemma BelowZero(ks: set<nat>)
    ensures Below(ks, 0) == 0
  {
  }

  lemma BelowIs(ks: set<nat>, i: nat)
    ensures i > 0 ==> Below(ks, i) == |UpTo(ks, Pow2(i - 1))|
  {
  }

  lemma AllCounted(ks: set<nat>)
    requires Candidates(ks)
    ensures |UpTo(ks, Pow2(MAXBITS))| == |ks|
  {
    MaxSize();
    assert UpTo(ks, Pow2(MAXBITS)) == ks;
  }

  lemma HalfFull(ks: set<nat>, n: nat)
    requires Optimal(ks, n)
    ensures n / 2 <= |UpTo(ks, n)|
  {
  }

  lemma SizeBound(n: nat, i: nat)
    requires i <= MAXBITS + 1 && n <= Pow2(i) && (i > 0 ==> n <= Pow2(i - 1))
    ensures n <= MAXASIZE
  {
    MaxSize();
    Pow2Mono(if i == 0 then 0 else i - 1, MAXBITS);
  }
}
