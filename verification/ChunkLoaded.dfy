/** What loading guarantees of a function, whatever the bytes were that it was loaded from. */
module ChunkLoaded {
  import opened Common
  import opened Chunk

  /** r is what is left of b after some bytes were read. */
  predicate Suffix(r: Bytes, b: Bytes) {
    |r| <= |b| && r == b[|b| - |r|..]
  }

  lemma SuffixTrans(r2: Bytes, r1: Bytes, b: Bytes)
    requires Suffix(r2, r1) && Suffix(r1, b)
    ensures Suffix(r2, b)
  {
  }

  lemma SuffixDrop(b: Bytes, n: nat)
    requires n <= |b|
    ensures Suffix(b[n..], b)
  {
  }

  /** Reading leaves a suffix, and what is read has property ok. */
  ghost predicate Reads<T(!new)>(l: Load<T>, b: Bytes, ok: T -> bool) {
    l.Got? ==> Suffix(l.rest, b) && ok(l.value)
  }

  ghost predicate All<T>(xs: seq<T>, ok: T -> bool) {
    forall i :: 0 <= i < |xs| ==> ok(xs[i])
  }

  predicate Any<T>(x: T) { true }

  lemma WordReads(b: Bytes)
    ensures Reads(LoadWord(b), b, Any) && Reads(LoadInt(b), b, Any)
  {
    if |b| >= 4 { SuffixDrop(b, 4); }
  }

  lemma NameReads(b: Bytes)
    ensures Reads(LoadName(b), b, NameFits)
  {
    hide WordOf;
    WordReads(b);
    var l := LoadWord(b);
    if l.Got? && l.value <= |l.rest| {
      SuffixDrop(l.rest, l.value);
      SuffixTrans(l.rest[l.value..], l.rest, b);
    }
  }

  lemma ConstantReads(b: Bytes)
    ensures Reads(LoadConstant(b), b, ConstantOk)
  {
    hide LoadName;
    if b != [] {
      var r := b[1..];
      SuffixDrop(b, 1);
      if r != [] { SuffixDrop(r, 1); }
      if |r| >= 8 { SuffixDrop(r, 8); }
      NameReads(r);
    }
  }

  predicate LocVarOk(v: LocVar) {
    NameFits(v.varname)
  }

  lemma LocVarReads(b: Bytes)
    ensures Reads(LoadLocVar(b), b, LocVarOk)
  {
    hide LoadName, LoadInt;
    NameReads(b);
    var l := LoadName(b);
    if l.Got? {
      WordReads(l.rest);
      if LoadInt(l.rest).Got? { WordReads(LoadInt(l.rest).rest); }
    }
  }

  lemma {:induction false} ManyReads<T(!new)>(b: Bytes, n: nat, load: Bytes -> Load<T>, ok: T -> bool)
    requires forall c :: Reads(load(c), c, ok)
    ensures var l := LoadMany(b, n, load); l.Got? ==> Suffix(l.rest, b) && |l.value| == n && All(l.value, ok)
    decreases n
  {
    if n > 0 {
      assert Reads(load(b), b, ok);
      if load(b).Got? { ManyReads(load(b).rest, n - 1, load, ok); }
    }
  }

  lemma ListReads<T(!new)>(b: Bytes, load: Bytes -> Load<T>, ok: T -> bool)
    requires forall c :: Reads(load(c), c, ok)
    ensures var l := LoadList(b, load); l.Got? ==> Suffix(l.rest, b) && |l.value| < INT_LIMIT && All(l.value, ok)
  {
    hide LoadInt;
    WordReads(b);
    if LoadInt(b).Got? { ManyReads(LoadInt(b).rest, LoadInt(b).value, load, ok); }
  }

  lemma WordsRead(b: Bytes)
    ensures var l := LoadList(b, LoadWord); l.Got? ==> Suffix(l.rest, b) && |l.value| < INT_LIMIT
  {
    hide LoadList, LoadWord, Suffix;
    forall c ensures Reads(LoadWord(c), c, Any) { WordReads(c); }
    ListReads(b, LoadWord, Any);
  }

  lemma FixedReads(b: Bytes)
    ensures Reads(LoadFixed(b), b, Any)
  {
    hide LoadInt;
    WordReads(b);
    if LoadInt(b).Got? {
      var r := LoadInt(b).rest;
      WordReads(r);
      if LoadInt(r).Got? && |LoadInt(r).rest| >= 4 { SuffixDrop(LoadInt(r).rest, 4); }
    }
  }

  lemma HeadReads(b: Bytes, parent: Name)
    requires parent.Some? && NameFits(parent)
    ensures var l := LoadHead(b, parent);
            l.Got? ==> && Suffix(l.rest, b) && l.value.source.Some? && NameFits(l.value.source)
                       && |l.value.code| < INT_LIMIT && |l.value.k| < INT_LIMIT && All(l.value.k, ConstantOk)
  {
    hide LoadList, LoadName, LoadFixed, ConstantOk, LoadConstant;
    NameReads(b);
    if LoadName(b).Got? {
      var r := LoadName(b).rest;
      FixedReads(r);
      if LoadFixed(r).Got? {
        var r' := LoadFixed(r).rest;
        WordsRead(r');
        if LoadList(r', LoadWord).Got? {
          forall c ensures Reads(LoadConstant(c), c, ConstantOk) { ConstantReads(c); }
          ListReads(LoadList(r', LoadWord).rest, LoadConstant, ConstantOk);
        }
      }
    }
  }

  lemma DebugReads(b: Bytes)
    ensures var l := LoadDebug(b);
            l.Got? ==> && Suffix(l.rest, b) && |l.value.lineinfo| < INT_LIMIT
                       && |l.value.locvars| < INT_LIMIT && All(l.value.locvars, LocVarOk)
                       && |l.value.upvalues| < INT_LIMIT && All(l.value.upvalues, NameFits)
  {
    hide LoadList, LoadName, NameFits, LocVarOk, LoadLocVar;
    WordsRead(b);
    if LoadList(b, LoadWord).Got? {
      var r := LoadList(b, LoadWord).rest;
      forall c ensures Reads(LoadLocVar(c), c, LocVarOk) { LocVarReads(c); }
      ListReads(r, LoadLocVar, LocVarOk);
      if LoadList(r, LoadLocVar).Got? {
        forall c ensures Reads(LoadName(c), c, NameFits) { NameReads(c); }
        ListReads(LoadList(r, LoadLocVar).rest, LoadName, NameFits);
      }
    }
  }

  /** A function as the loader hands it out. */
  predicate Sound(f: Proto, calls: nat, check: Check) {
    Fits(f) && Sourced(f) && Passes(f, check) && calls + Depth(f) <= LUAI_MAXCCALLS
  }

  predicate AllSound(fs: seq<Proto>, calls: nat, check: Check) {
    AllFit(fs) && AllSourced(fs) && AllPass(fs, check) && calls + MaxDepth(fs) <= LUAI_MAXCCALLS
  }

  lemma TailReads(b: Bytes, h: Head, ps: seq<Proto>, calls: nat, check: Check)
    requires h.source.Some? && NameFits(h.source) && |h.code| < INT_LIMIT && |h.k| < INT_LIMIT && All(h.k, ConstantOk)
    requires |ps| < INT_LIMIT && AllSound(ps, calls + 1, check)
    ensures var l := LoadTail(b, h, ps, check); l.Got? ==> Suffix(l.rest, b) && Sound(l.value, calls, check)
  {
    hide LoadDebug, NameFits, ConstantOk, Suffix;
    DebugReads(b);
  }

  lemma {:induction false} FunctionReads(b: Bytes, parent: Name, calls: nat, check: Check)
    requires parent.Some? && NameFits(parent)
    ensures var l := LoadFunction(b, parent, calls, check);
            l.Got? ==> Suffix(l.rest, b) && Sound(l.value, calls, check)
    decreases Left(calls), 0
  {
    hide LoadHead, LoadInt, LoadTail, Suffix, Sound, AllSound, NameFits, ConstantOk, LoadProtos;
    if calls < LUAI_MAXCCALLS && LoadHead(b, parent).Got? {
      HeadReads(b, parent);
      var h, r := LoadHead(b, parent).value, LoadHead(b, parent).rest;
      WordReads(r);
      if LoadInt(r).Got? {
        var n, r' := LoadInt(r).value, LoadInt(r).rest;
        ProtosRead(r', n, h.source, calls + 1, check);
        var l := LoadProtos(r', n, h.source, calls + 1, check);
        if l.Got? {
          TailReads(l.rest, h, l.value, calls, check);
          var t := LoadTail(l.rest, h, l.value, check);
          if t.Got? {
            SuffixTrans(t.rest, l.rest, r');
            SuffixTrans(t.rest, r', r);
            SuffixTrans(t.rest, r, b);
          }
        }
      }
    }
  }

  lemma {:induction false} ProtosRead(b: Bytes, n: nat, parent: Name, calls: nat, check: Check)
    requires parent.Some? && NameFits(parent) && calls <= LUAI_MAXCCALLS
    ensures var l := LoadProtos(b, n, parent, calls, check);
            l.Got? ==> Suffix(l.rest, b) && |l.value| == n && AllSound(l.value, calls, check)
    decreases Left(calls), n + 1
  {
    hide LoadFunction, Fits, Sourced, Passes, Depth;
    if n > 0 {
      FunctionReads(b, parent, calls, check);
      var l := LoadFunction(b, parent, calls, check);
      if l.Got? {
        ProtosRead(l.rest, n - 1, parent, calls, check);
        var m := LoadProtos(l.rest, n - 1, parent, calls, check);
        if m.Got? { assert ([l.value] + m.value)[1..] == m.value; }
      }
    }
  }

  /** Main theorem, for all bytes: what is loaded begins with the header of this build, every
      function in it passed the check and no nesting exceeded the limit; it has a source
      everywhere and fits the format, and what is left is the unread end of the bytes. */
  lemma Loaded(b: Bytes, calls: nat, check: Check)
    ensures var l := Undump(b, calls, check);
            l.Got? ==>
              && |b| >= 12 && b[..12] == [0x1B, 0x4C, 0x75, 0x61, 0x51, 0, 1, 4, 4, 4, 8, 0] && Suffix(l.rest, b)
              && Passes(l.value, check) && calls + Depth(l.value) <= LUAI_MAXCCALLS
              && Fits(l.value) && Sourced(l.value)
  {
      hide LoadFunction, Passes, Depth, Fits, Sourced;
    if |b| >= |HEADER| && b[..|HEADER|] == HEADER {
      SuffixDrop(b, 12);
      FunctionReads(b[12..], ANONYMOUS, calls, check);
      var l := LoadFunction(b[12..], ANONYMOUS, calls, check);
      if l.Got? { SuffixTrans(l.rest, b[12..], b); }
    }
  }

  /** Whatever was loaded is loaded again from its own dump, unchanged. */
  lemma LoadedAgain(b: Bytes, calls: nat, check: Check, r: Bytes)
    ensures var l := Undump(b, calls, check);
            l.Got? ==> Undump(Dump(l.value, false) + r, calls, check) == Got(l.value, r)
  {
    hide Undump, Dump, Fits, Sourced, Passes, Depth, Reloaded;
    Loaded(b, calls, check);
    var l := Undump(b, calls, check);
    if l.Got? {
      ReloadedIs(l.value, ANONYMOUS);
      UndumpDump(l.value, false, calls, check, r);
    }
  }

  // ----- the format, byte by byte

  /** A function with a different value in every field. */
  function Sample(): Proto {
    Proto(Some([0x61]), 1, 2, 3, 4, 5, 6, [0x0A0B_0C0D],
      [Nil, Boolean(true), Number([10, 20, 30, 40, 50, 60, 70, 80]), String([0x62])], [Nested()],
      [7], [LocVar(Some([0x63]), 8, 9)], [Some([0x64])])
  }

  /** A nested function with the same source. */
  function Nested(): Proto {
    Proto(Some([0x61]), 11, 12, 13, 14, 15, 16, [], [], [], [], [], [])
  }

  /** All numbers have their low byte first. */
  const NESTED_BYTES: Bytes :=
    [0, 0, 0, 0] + [11, 0, 0, 0] + [12, 0, 0, 0] + [13, 14, 15, 16]
    + [0, 0, 0, 0] + [0, 0, 0, 0] + [0, 0, 0, 0] + [0, 0, 0, 0] + [0, 0, 0, 0] + [0, 0, 0, 0]

  /** Source, lines, four bytes, code, constants. */
  const HEAD_BYTES: Bytes :=
    [2, 0, 0, 0, 0x61, 0] + ([1, 0, 0, 0] + [2, 0, 0, 0] + [3, 4, 5, 6])
    + ([1, 0, 0, 0] + [0x0D, 0x0C, 0x0B, 0x0A])
    + ([4, 0, 0, 0] + ([0] + ([1, 1] + ([3, 10, 20, 30, 40, 50, 60, 70, 80] + [4, 2, 0, 0, 0, 0x62, 0]))))

  /** Line numbers, local variables with their ranges, upvalues. */
  const DEBUG_BYTES: Bytes :=
    [1, 0, 0, 0] + [7, 0, 0, 0]
    + [1, 0, 0, 0] + ([2, 0, 0, 0, 0x63, 0] + [8, 0, 0, 0] + [9, 0, 0, 0])
    + [1, 0, 0, 0] + [2, 0, 0, 0, 0x64, 0]

  lemma SampleNested()
    ensures DumpFunction(Nested(), Some([0x61]), false) == NESTED_BYTES
  {
  }

  lemma SampleConstants()
    ensures DumpAll(Sample().k, DumpConstant)
         == [0] + ([1, 1] + ([3, 10, 20, 30, 40, 50, 60, 70, 80] + [4, 2, 0, 0, 0, 0x62, 0]))
  {
    var k := Sample().k;
    assert k[1..][1..] == k[2..] && k[2..][1..] == k[3..] && k[3..][1..] == [];
    assert DumpConstant(k[0]) == [0] && DumpConstant(k[1]) == [1, 1];
    assert DumpConstant(k[2]) == [3, 10, 20, 30, 40, 50, 60, 70, 80];
    assert DumpConstant(k[3]) == [4, 2, 0, 0, 0, 0x62, 0];
    assert DumpAll(k[3..], DumpConstant) == DumpConstant(k[3]);
    assert DumpAll(k[2..], DumpConstant) == DumpConstant(k[2]) + DumpConstant(k[3]);
    assert DumpAll(k[1..], DumpConstant) == DumpConstant(k[1]) + (DumpConstant(k[2]) + DumpConstant(k[3]));
  }

  lemma SampleHead()
    ensures HeadBytes(Sample(), Sample().source) == HEAD_BYTES
  {
    var code := Sample().code;
    assert code[1..] == [];
    assert DumpAll(code, Word) == Word(code[0]) + DumpAll(code[1..], Word);
    SampleConstants();
    hide DumpAll, DumpConstant;
  }

  lemma SampleDebug()
    ensures DumpDebug(Sample(), false) == DEBUG_BYTES
  {
    var f := Sample();
    assert DumpAll(f.lineinfo[1..], Word) == [] && DumpAll(f.locvars[1..], DumpLocVar) == []
        && DumpAll(f.upvalues[1..], Names) == [];
    assert DumpAll(f.lineinfo, Word) == [7, 0, 0, 0];
    assert DumpLocVar(f.locvars[0]) == [2, 0, 0, 0, 0x63, 0] + [8, 0, 0, 0] + [9, 0, 0, 0];
    assert DumpAll(f.upvalues, Names) == [2, 0, 0, 0, 0x64, 0];
  }

  /** The chunk of the sample, down to the last byte. */
  lemma SampleBytes()
    ensures Dump(Sample(), false)
         == [0x1B, 0x4C, 0x75, 0x61, 0x51, 0, 1, 4, 4, 4, 8, 0]
            + (HEAD_BYTES + ([1, 0, 0, 0] + NESTED_BYTES) + DEBUG_BYTES)
  {
    hide DumpFunction, DumpDebug, HeadBytes, HEAD_BYTES, NESTED_BYTES, DEBUG_BYTES;
    SampleNested();
    SampleHead();
    SampleDebug();
    FunctionIs(Sample(), None, false);
    OneNested();
  }

  lemma OneNested()
    ensures Count(Sample().p) + DumpProtos(Sample().p, Sample().source, false)
         == [1, 0, 0, 0] + DumpFunction(Nested(), Some([0x61]), false)
  {
    hide DumpFunction;
    assert [Nested()][1..] == [];
    assert DumpProtos([], Some([0x61]), false) == [];
    assert DumpProtos([Nested()], Some([0x61]), false) == DumpFunction(Nested(), Some([0x61]), false) + [];
  }
}
