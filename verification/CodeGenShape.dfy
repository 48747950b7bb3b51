/** Structural invariants of the code generator: where the open jumps are and to which list
    each belongs, in every state between two operations. */
module CodeGenShape {
  import opened Common
  import opened Opcodes
  import opened CodeGen
  import opened CodeGenRuns

  predicate NoTrailingTest(code: seq<Instr>) {
    code == [] || !IsTest(code[|code| - 1])
  }

  /** Jumps of s belong to tests emitted at or after lo. */
  predicate Owned(code: seq<Instr>, s: seq<nat>, lo: nat) {
    forall j :: j in s ==> lo < j < |code| && IsTest(code[j - 1])
  }

  /** Once code has been emitted from lo on, no jump from before lo is pending. */
  predicate PendingAbove(fs: FS, lo: nat) {
    |fs.code| == lo || forall j :: j in fs.jpc ==> lo < j
  }

  predicate KindShape(fs: FS, e: ExpDesc, lo: nat, fr: int) {
    match e.k
    case VLOCAL(r) => 0 <= r < fs.nactvar && fs.freereg == fr
    case VGLOBAL(_) => fs.freereg == fr
    case VNONRELOC(r) => (0 <= r < fs.nactvar && fs.freereg == fr) || (r == fr && fs.freereg == fr + 1)
    case VRELOCABLE(i) =>
      lo <= i && i + 1 == |fs.code| && fs.jpc == [] && fs.freereg == fr && (fs.code[i].NOT? || fs.code[i].GETGLOBAL?) &&
      NoTrailingTest(fs.code[..i])
    case VJMP(i) =>
      && lo < i && i + 1 == |fs.code| && fs.jpc == [] && fs.freereg == fr
      && fs.code[i] == JMP(NO_JUMP) && fs.code[i - 1].CMP? && i !in e.t && i !in e.f
  }

  predicate Listed(fs: FS, t: seq<nat>, f: seq<nat>, lo: nat, fr: int) {
    && lo <= |fs.code| && 0 <= fs.nactvar <= fr && fs.freereg <= fs.maxstack
    && OpenList(fs.code, fs.jpc + t + f) && PendingAbove(fs, lo)
    && Owned(fs.code, t, lo) && Owned(fs.code, f, lo)
    && NoTrailingTest(fs.code)
  }

  predicate Shape(fs: FS, e: ExpDesc, lo: nat, fr: int) {
    Listed(fs, e.t, e.f, lo, fr) && KindShape(fs, e, lo, fr)
  }

  /** State of the generator between two expressions. */
  predicate Settled(fs: FS, lo: nat) {
    lo <= |fs.code| && OpenList(fs.code, fs.jpc) && PendingAbove(fs, lo) && NoTrailingTest(fs.code)
  }

  predicate Start(fs: FS) {
    OpenList(fs.code, fs.jpc) && NoTrailingTest(fs.code) && 0 <= fs.nactvar <= fs.freereg <= fs.maxstack
  }

  /** Nothing emitted means nothing changed. */
  predicate Untouched(fs: FS, fs': FS) {
    |fs'.code| == |fs.code| ==> fs'.code == fs.code && fs'.jpc == fs.jpc
  }

  // ----- lists

  lemma OpenParts(code: seq<Instr>, a: seq<nat>, b: seq<nat>)
    requires OpenList(code, a + b)
    ensures OpenList(code, a) && OpenList(code, b)
    ensures forall x :: x in a ==> x !in b
  {
    assert forall i :: 0 <= i < |a| ==> (a + b)[i] == a[i];
    assert forall i :: 0 <= i < |b| ==> (a + b)[|a| + i] == b[i];
  }

  lemma OpenJoin(code: seq<Instr>, a: seq<nat>, b: seq<nat>)
    requires OpenList(code, a) && OpenList(code, b)
    requires forall x :: x in a ==> x !in b
    ensures OpenList(code, a + b)
  {
    forall i, k | 0 <= i < k < |a + b| ensures (a + b)[i] != (a + b)[k] {
      if i < |a| <= k { assert a[i] in a && b[k - |a|] in b; }
    }
  }

  /** Open jumps stay open when code is appended. */
  lemma OpenExtend(code: seq<Instr>, ext: seq<Instr>, s: seq<nat>)
    requires OpenList(code, s) && code <= ext
    ensures OpenList(ext, s)
    ensures forall j :: j in s ==> IsValueJump(ext, j) == IsValueJump(code, j)
  {
    forall i | 0 <= i < |s| ensures OpenJump(ext, s[i]) { assert OpenJump(code, s[i]); }
  }

  /** Discharging the pending jumps touches nothing else. */
  lemma ViewKeeps(fs: FS, s: seq<nat>)
    requires OpenList(fs.code, fs.jpc + s)
    ensures OpenList(View(fs), s)
    ensures forall j :: j in s ==> IsValueJump(View(fs), j) == IsValueJump(fs.code, j)
  {
    OpenParts(fs.code, fs.jpc, s);
    PatchOpen(fs.code, fs.jpc, s, |fs.code|, NO_REG, |fs.code|);
  }

  lemma ViewTrailing(fs: FS)
    requires OpenList(fs.code, fs.jpc) && NoTrailingTest(fs.code)
    ensures NoTrailingTest(View(fs))
  {
    if fs.code != [] { PatchAt(fs.code, fs.jpc, |fs.code|, NO_REG, |fs.code|, |fs.code| - 1); }
  }

  lemma NonePending(fs: FS)
    requires fs.jpc == []
    ensures View(fs) == fs.code
  {
  }

  lemma OwnedPatched(code: seq<Instr>, s: seq<nat>, vtarget: nat, reg: int, dtarget: nat, s': seq<nat>, lo: nat)
    requires OpenList(code, s) && Owned(code, s', lo)
    ensures Owned(PatchList(code, s, vtarget, reg, dtarget), s', lo)
  {
    forall j | j in s' ensures IsTest(PatchList(code, s, vtarget, reg, dtarget)[j - 1]) {
      PatchAt(code, s, vtarget, reg, dtarget, j - 1);
    }
  }

  /** Appending one instruction that is not a test keeps the lists. */
  lemma EmitKeeps(fs: FS, i: Instr, e: ExpDesc, lo: nat)
    requires OpenList(fs.code, fs.jpc + e.t + e.f) && Owned(fs.code, e.t, lo) && Owned(fs.code, e.f, lo)
    ensures var fs' := Emit(fs, i);
            && View(fs') == fs'.code == View(fs) + [i]
            && OpenList(fs'.code, fs'.jpc + e.t + e.f) && Owned(fs'.code, e.t, lo) && Owned(fs'.code, e.f, lo)
            && (forall j: nat :: j <= |fs.code| ==> IsValueJump(fs'.code, j) == IsValueJump(View(fs), j))
  {
    var fs' := Emit(fs, i);
    assert fs.jpc + e.t + e.f == fs.jpc + (e.t + e.f);
    ViewKeeps(fs, e.t + e.f);
    assert fs'.jpc + e.t + e.f == e.t + e.f;
    OpenExtend(View(fs), fs'.code, e.t + e.f);
    OpenParts(fs.code, fs.jpc, e.t + e.f);
    OwnedPatched(fs.code, fs.jpc, |fs.code|, NO_REG, |fs.code|, e.t, lo);
    OwnedPatched(fs.code, fs.jpc, |fs.code|, NO_REG, |fs.code|, e.f, lo);
  }

  // ----- discharging operands

  lemma DischargeVarsShape(fs: FS, e: ExpDesc, lo: nat, fr: int)
    requires Shape(fs, e, lo, fr)
    ensures var (fs', e') := DischargeVars(fs, e);
            && Shape(fs', e', lo, fr) && View(fs')[..|fs.code|] == View(fs)
            && !e'.k.VLOCAL? && !e'.k.VGLOBAL? && e'.t == e.t && e'.f == e.f
            && fs' == fs.(code := fs'.code, jpc := fs'.jpc) && Untouched(fs, fs')
  {
    hide PatchList;
    if e.k.VGLOBAL? {
      var (fs', e') := DischargeVars(fs, e);
      EmitKeeps(fs, GETGLOBAL(0, e.k.info), e, lo);
      OpenParts(fs.code, fs.jpc + e.t, e.f);
      OpenParts(fs.code, fs.jpc, e.t);
      ViewTrailing(fs);
      assert fs'.code[..e'.k.info] == View(fs);
    }
  }

  /** Setting the destination of the last instruction keeps the lists. */
  lemma RelocateKeeps(fs: FS, e: ExpDesc, reg: int, lo: nat, fr: int)
    requires Shape(fs, e, lo, fr) && e.k.VRELOCABLE?
    ensures var code' := SetA(fs.code, e.k.info, reg);
            && OpenList(code', e.t + e.f) && Owned(code', e.t, lo) && Owned(code', e.f, lo) && NoTrailingTest(code')
            && code'[..|fs.code| - 1] == fs.code[..|fs.code| - 1]
            && forall j: nat :: IsValueJump(code', j) == IsValueJump(fs.code, j)
  {
    assert fs.jpc + e.t + e.f == e.t + e.f;
    forall i | 0 <= i < |e.t + e.f| ensures OpenJump(SetA(fs.code, e.k.info, reg), (e.t + e.f)[i]) {
      assert OpenJump(fs.code, (e.t + e.f)[i]);
    }
  }

  lemma Discharge2RegShape(fs: FS, e: ExpDesc, reg: int, lo: nat, fr: int, fr': int, mx: int)
    requires Shape(fs, e, lo, fr) && (e.k.VRELOCABLE? || e.k.VNONRELOC?)
    ensures var (fs', e') := Discharge2Reg(fs.(freereg := fr', maxstack := mx), e, reg);
            && OpenList(fs'.code, fs'.jpc + e.t + e.f) && Owned(fs'.code, e.t, lo) && Owned(fs'.code, e.f, lo)
            && NoTrailingTest(fs'.code) && |fs.code| <= |fs'.code| && PendingAbove(fs', lo)
               && View(fs')[..lo] == View(fs)[..lo]
            && e' == ExpDesc(VNONRELOC(reg), e.t, e.f)
            && fs' == fs.(code := fs'.code, jpc := fs'.jpc, freereg := fr', maxstack := mx)
  {
    var fs0 := fs.(freereg := fr', maxstack := mx);
    var (fs', e') := Discharge2Reg(fs0, e, reg);
    assert View(fs0) == View(fs);
    if e.k.VRELOCABLE? {
      RelocateKeeps(fs, e, reg, lo, fr);
      assert fs'.jpc + e.t + e.f == e.t + e.f;
      assert fs'.code[..lo] == fs.code[..|fs.code| - 1][..lo];
    } else if reg != e.k.reg {
      EmitKeeps(fs0, MOVE(reg, e.k.reg), e, lo);
    }
  }

  /** Puts an operand into a register and frees that register again. */
  lemma HeldShape(fs: FS, e: ExpDesc, lo: nat, fr: int)
    requires Shape(fs, e, lo, fr) && (e.k.VNONRELOC? || e.k.VRELOCABLE?)
    ensures var (fs1, e1) := Discharge2AnyReg(fs, e);
            var c := FreeExp(fs1, e1);
            && e1 == e.(k := VNONRELOC(if e.k.VNONRELOC? then e.k.reg else fr))
            && Listed(c, e.t, e.f, lo, fr) && c.freereg == fr && c.nactvar == fs.nactvar
               && View(c)[..lo] == View(fs)[..lo]
  {
    hide PatchList;
    var (fs1, e1) := Discharge2AnyReg(fs, e);
    var c := FreeExp(fs1, e1);
    if e.k.VNONRELOC? {
      assert View(c) == View(fs);
    } else {
      var mx := if fs.maxstack < fr + 1 then fr + 1 else fs.maxstack;
      assert Reserve(fs, 1) == fs.(freereg := fr + 1, maxstack := mx);
      Discharge2RegShape(fs, e, fr, lo, fr, fr + 1, mx);
      assert View(c) == View(fs1);
    }
  }

  // ----- landing the jumps of a finished expression

  lemma LandOpen(fs: FS, t: seq<nat>, f: seq<nat>, reg: int, pf: nat, pt: nat)
    requires OpenList(fs.code, fs.jpc + t + f)
    ensures var c1 := PatchList(fs.code, f, |fs.code|, reg, pf);
            var c2 := PatchList(c1, t, |fs.code|, reg, pt);
            && OpenList(fs.code, f) && OpenList(c1, t) && OpenList(c2, fs.jpc)
            && (forall j :: j in t ==> j !in f && j !in fs.jpc && IsValueJump(c1, j) == IsValueJump(fs.code, j))
            && (forall j :: j in f ==> j !in fs.jpc)
            && (forall j :: j in fs.jpc ==> j < |fs.code|)
  {
    var c1 := PatchList(fs.code, f, |fs.code|, reg, pf);
    OpenParts(fs.code, fs.jpc + t, f);
    OpenParts(fs.code, fs.jpc, t);
    assert forall x :: x in t || x in fs.jpc ==> x in fs.jpc + t;
    PatchOpen(fs.code, f, t, |fs.code|, reg, pf);
    PatchOpen(fs.code, f, fs.jpc, |fs.code|, reg, pf);
    PatchOpen(c1, t, fs.jpc, |fs.code|, reg, pt);
  }

  /** Landing leaves alone everything before lo and everything but the jumps and their tests. */
  lemma LandKeeps(fs: FS, t: seq<nat>, f: seq<nat>, reg: int, pf: nat, pt: nat, lo: nat, i: nat)
    requires OpenList(fs.code, fs.jpc + t + f) && Owned(fs.code, t, lo) && Owned(fs.code, f, lo)
    requires lo < |fs.code| && PendingAbove(fs, lo) && i < |fs.code|
    ensures var fs' := LandAt(fs, t, f, reg, pf, pt);
            && OpenList(fs'.code, fs'.jpc) && PendingAbove(fs', lo)
            && View(fs')[..lo] == fs.code[..lo]
            && IsTest(fs'.code[i]) == IsTest(fs.code[i])
            && (!fs.code[i].JMP? && !fs.code[i].TESTSET? ==> View(fs')[i] == fs.code[i])
  {
    var final := |fs.code|;
    var c1 := PatchList(fs.code, f, final, reg, pf);
    var c2 := PatchList(c1, t, final, reg, pt);
    LandOpen(fs, t, f, reg, pf, pt);
    PatchLow(fs.code, f, final, reg, pf, lo);
    PatchLow(c1, t, final, reg, pt, lo);
    PatchLow(c2, fs.jpc, final, NO_REG, final, lo);
    PatchAt(fs.code, f, final, reg, pf, i);
    PatchAt(c1, t, final, reg, pt, i);
    PatchAt(c2, fs.jpc, final, NO_REG, final, i);
  }

  /** The code in front of the landing, when booleans have to be loaded. */
  function WithLoads(fs: FS, isJump: bool, reg: int): FS {
    var loads := [LOADBOOL(reg, false, true), LOADBOOL(reg, true, false)];
    if isJump then fs.(code := fs.code + loads)
    else fs.(code := fs.code + [JMP(NO_JUMP)] + loads, jpc := [|fs.code|] + fs.jpc)
  }

  lemma LandJumpsIs(fs: FS, isJump: bool, t: seq<nat>, f: seq<nat>, reg: int)
    requires isJump ==> fs.jpc == []
    requires NeedValue(fs.code, t) || NeedValue(fs.code, f)
    ensures var pf := |fs.code| + if isJump then 0 else 1;
            LandJumps(fs, isJump, t, f, reg) == LandAt(WithLoads(fs, isJump, reg), t, f, reg, pf, pf + 1)
  {
    var (fs1, fj) := if isJump then (fs, []) else EmitJump(fs);
    var fs2 := Emit(fs1, LOADBOOL(reg, false, true));
    assert View(fs1) == fs1.code;
    var fs3 := Emit(fs2, LOADBOOL(reg, true, false));
    assert View(fs2) == fs2.code;
    assert PatchToHere(fs3, fj) == WithLoads(fs, isJump, reg);
  }

  lemma WithLoadsKeeps(fs: FS, isJump: bool, t: seq<nat>, f: seq<nat>, reg: int)
    requires OpenList(fs.code, fs.jpc + t + f) && NoTrailingTest(fs.code)
    requires isJump ==> fs.jpc == []
    ensures var fs3 := WithLoads(fs, isJump, reg);
            && fs.code <= fs3.code && OpenList(fs3.code, fs3.jpc + t + f)
            && (forall j :: j in t + f ==> IsValueJump(fs3.code, j) == IsValueJump(fs.code, j))
  {
    var fs3 := WithLoads(fs, isJump, reg);
    var s := fs.jpc + t + f;
    assert fs.code <= fs3.code;
    OpenExtend(fs.code, fs3.code, s);
    assert forall j :: j in t + f ==> j in s;
    if !isJump {
      assert OpenList(fs3.code, [|fs.code|]);
      assert forall x :: x in s ==> x < |fs.code|;
      OpenJoin(fs3.code, [|fs.code|], s);
      assert fs3.jpc + t + f == [|fs.code|] + s;
    }
  }

  lemma WithLoadsOwned(fs: FS, isJump: bool, t: seq<nat>, f: seq<nat>, reg: int, lo: nat)
    requires Owned(fs.code, t, lo) && Owned(fs.code, f, lo) && lo < |fs.code| && PendingAbove(fs, lo)
    ensures var fs3 := WithLoads(fs, isJump, reg);
            && Owned(fs3.code, t, lo) && Owned(fs3.code, f, lo) && PendingAbove(fs3, lo)
            && fs3.code[..lo] == fs.code[..lo] && NoTrailingTest(fs3.code)
  {
  }

  lemma LandedLoads(fs: FS, t: seq<nat>, f: seq<nat>, reg: int, pf: nat, lo: nat)
    requires OpenList(fs.code, fs.jpc + t + f) && Owned(fs.code, t, lo) && Owned(fs.code, f, lo)
    requires lo < |fs.code| && PendingAbove(fs, lo)
    requires pf + 2 == |fs.code| && fs.code[pf].LOADBOOL? && fs.code[pf + 1].LOADBOOL?
    ensures var code := View(LandAt(fs, t, f, reg, pf, pf + 1));
            code[pf] == fs.code[pf] && code[pf + 1] == fs.code[pf + 1]
  {
    LandKeeps(fs, t, f, reg, pf, pf + 1, lo, pf);
    LandKeeps(fs, t, f, reg, pf, pf + 1, lo, pf + 1);
  }

  lemma LandJumpsShape(fs: FS, isJump: bool, t: seq<nat>, f: seq<nat>, reg: int, lo: nat)
    requires OpenList(fs.code, fs.jpc + t + f) && NoTrailingTest(fs.code)
    requires isJump ==> fs.jpc == []
    requires Owned(fs.code, t, lo) && Owned(fs.code, f, lo) && lo < |fs.code| && PendingAbove(fs, lo)
    ensures var fs' := LandJumps(fs, isJump, t, f, reg);
            Settled(fs', lo) && |fs.code| <= |fs'.code| && View(fs')[..lo] == fs.code[..lo]
              && fs' == fs.(code := fs'.code, jpc := fs'.jpc)
  {
    hide PatchList;
    if NeedValue(fs.code, t) || NeedValue(fs.code, f) {
      var fs3 := WithLoads(fs, isJump, reg);
      LandJumpsIs(fs, isJump, t, f, reg);
      WithLoadsKeeps(fs, isJump, t, f, reg);
      WithLoadsOwned(fs, isJump, t, f, reg, lo);
      var pf := |fs.code| + if isJump then 0 else 1;
      LandKeeps(fs3, t, f, reg, pf, pf + 1, lo, |fs3.code| - 1);
    } else {
      LandKeeps(fs, t, f, reg, 0, 0, lo, |fs.code| - 1);
    }
  }

  lemma JumpOpens(fs: FS, e: ExpDesc, lo: nat, fr: int)
    requires Shape(fs, e, lo, fr) && e.k.VJMP?
    ensures OpenList(fs.code, fs.jpc + (e.t + [e.k.info]) + e.f) && OpenList(fs.code, fs.jpc + e.t + (e.f + [e.k.info]))
    ensures Owned(fs.code, e.t + [e.k.info], lo) && Owned(fs.code, e.f + [e.k.info], lo)
  {
    assert fs.jpc + e.t + e.f == e.t + e.f;
    AddOpen(fs.code, e.t, e.f, e.k.info);
    assert fs.jpc + e.t + (e.f + [e.k.info]) == e.t + (e.f + [e.k.info]);
    assert fs.jpc + (e.t + [e.k.info]) + e.f == e.t + [e.k.info] + e.f;
  }

  lemma Exp2RegShape(fs: FS, e: ExpDesc, reg: int, lo: nat, fr: int, fr': int, mx: int)
    requires Shape(fs, e, lo, fr) && !e.k.VLOCAL? && !e.k.VGLOBAL?
    ensures var (fs', e') := Exp2Reg(fs.(freereg := fr', maxstack := mx), e, reg);
            && Settled(fs', lo) && |fs.code| <= |fs'.code| && View(fs')[..lo] == View(fs)[..lo]
            && e' == ExpDesc(VNONRELOC(reg), [], [])
            && fs' == fs.(code := fs'.code, jpc := fs'.jpc, freereg := fr', maxstack := mx)
  {
    hide LandJumps;
    var fs0 := fs.(freereg := fr', maxstack := mx);
    if e.k.VJMP? {
      JumpOpens(fs, e, lo, fr);
      LandJumpsShape(fs0, true, e.t + [e.k.info], e.f, reg, lo);
    } else {
      Discharge2RegShape(fs, e, reg, lo, fr, fr', mx);
      var fs1 := Discharge2Reg(fs0, e, reg).0;
      if e.t == [] && e.f == [] {
        assert fs1.jpc + e.t + e.f == fs1.jpc;
      } else {
        assert e.t != [] ==> e.t[0] in e.t;
        assert e.f != [] ==> e.f[0] in e.f;
        PatchLow(fs1.code, fs1.jpc, |fs1.code|, NO_REG, |fs1.code|, lo);
        LandJumpsShape(fs1, false, e.t, e.f, reg, lo);
      }
    }
  }

  lemma Exp2AnyRegIs(fs: FS, e: ExpDesc, lo: nat, fr: int)
    requires KindShape(fs, e, lo, fr) && fs.freereg <= fs.maxstack && fs.nactvar <= fr && !e.k.VLOCAL? && !e.k.VGLOBAL?
    requires !(e.k.VNONRELOC? && e.t == [] && e.f == [])
    ensures var mx := if fs.maxstack < fr + 1 then fr + 1 else fs.maxstack;
            Exp2AnyReg(fs, e) == Exp2Reg(fs.(freereg := fr + 1, maxstack := mx), e, fr)
  {
    hide Exp2Reg;
    var mx := if fs.maxstack < fr + 1 then fr + 1 else fs.maxstack;
    var fs2 := fs.(freereg := fr + 1, maxstack := mx);
    assert DischargeVars(fs, e) == (fs, e);
    if e.k.VNONRELOC? && e.k.reg >= fs.nactvar {
      assert fs2 == fs;
    } else {
      assert Reserve(FreeExp(fs, e), 1) == fs2;
      assert Exp2AnyReg(fs, e) == Exp2NextReg(fs, e);
    }
  }

  lemma Exp2AnyRegShape(fs: FS, e: ExpDesc, lo: nat, fr: int)
    requires Shape(fs, e, lo, fr)
    ensures var (fs', e') := Exp2AnyReg(fs, e);
            && Shape(fs', e', lo, fr) && View(fs')[..lo] == View(fs)[..lo]
            && e'.k.VNONRELOC? && e'.t == [] && e'.f == [] && fs'.nactvar == fs.nactvar
            && (|fs'.code| == lo ==> fs'.code == fs.code && fs'.jpc == fs.jpc)
  {
    hide PatchList, Exp2Reg;
    DischargeVarsShape(fs, e, lo, fr);
    var (fs1, e1) := DischargeVars(fs, e);
    assert View(fs1)[..lo] == View(fs)[..lo];
    if !(e1.k.VNONRELOC? && e1.t == [] && e1.f == []) {
      var mx := if fs1.maxstack < fr + 1 then fr + 1 else fs1.maxstack;
      Exp2AnyRegIs(fs1, e1, lo, fr);
      assert Exp2AnyReg(fs, e) == Exp2AnyReg(fs1, e1);
      Exp2RegShape(fs1, e1, fr, lo, fr, fr + 1, mx);
      var (fs', e') := Exp2AnyReg(fs, e);
      assert fs'.jpc + e'.t + e'.f == fs'.jpc;
      assert e1.t != [] ==> e1.t[0] in e1.t;
      assert e1.f != [] ==> e1.f[0] in e1.f;
    }
  }

  // ----- conditional jumps

  /** t and f with j added to the list that leaves on cond. */
  function Added(cond: bool, t: seq<nat>, f: seq<nat>, j: nat): (seq<nat>, seq<nat>) {
    if cond then (t + [j], f) else (t, f + [j])
  }

  lemma AddOpen(code: seq<Instr>, t: seq<nat>, f: seq<nat>, j: nat)
    requires OpenList(code, t + f) && OpenJump(code, j)
    requires j !in t && j !in f
    ensures OpenList(code, (t + [j]) + f) && OpenList(code, t + (f + [j]))
  {
    OpenParts(code, t, f);
    assert OpenList(code, [j]);
    OpenJoin(code, t + f, [j]);
    OpenJoin(code, t, [j]);
    OpenJoin(code, t + [j], f);
    assert t + (f + [j]) == t + f + [j];
  }

  lemma CondJumpKeeps(fs: FS, i: Instr, cond: bool, t: seq<nat>, f: seq<nat>, lo: nat, fr: int)
    requires Listed(fs, t, f, lo, fr) && IsTest(i) && (i.TESTSET? ==> i.a == NO_REG)
    ensures var (fs', js) := CondJump(fs, i);
            var (t', f') := Added(cond, t, f, |fs.code| + 1);
            && fs' == fs.(code := View(fs) + [i, JMP(NO_JUMP)], jpc := [])
            && js == [|fs.code| + 1]
            && Listed(fs', t', f', lo, fr)
            && (forall j :: j in t || j in f ==> IsValueJump(fs'.code, j) == IsValueJump(View(fs), j))
  {
    hide PatchList;
    var (fs', js) := CondJump(fs, i);
    var j := |fs.code| + 1;
    EmitKeeps(fs, i, ExpDesc(VGLOBAL(0), t, f), lo);
    var fs1 := Emit(fs, i);
    assert fs1.jpc + t + f == t + f;
    assert fs'.code == View(fs) + [i, JMP(NO_JUMP)];
    OpenExtend(fs1.code, fs'.code, t + f);
    assert forall x :: x in t || x in f ==> x in t + f && x <= |fs.code|;
    AddOpen(fs'.code, t, f, j);
    hide OpenList;
    assert [] + t + (f + [j]) == t + (f + [j]) && [] + (t + [j]) + f == t + [j] + f;
  }

  /** The code of an operand that a conditional jump consumes, before the jump. */
  function Consumed(fs: FS, e: ExpDesc): FS {
    if e.k.VRELOCABLE? && e.k.info < |fs.code| && fs.code[e.k.info].NOT? then fs.(code := fs.code[..e.k.info])
    else var (fs1, e1) := Discharge2AnyReg(fs, e); FreeExp(fs1, e1)
  }

  /** The test with which a conditional jump consumes an operand. */
  function Consumer(fs: FS, e: ExpDesc, fr: int, cond: bool): Instr {
    if e.k.VRELOCABLE? && e.k.info < |fs.code| && fs.code[e.k.info].NOT? then TEST(fs.code[e.k.info].b, !cond)
    else TESTSET(NO_REG, if e.k.VNONRELOC? then e.k.reg else fr, cond)
  }

  lemma JumpOnCondIs(fs: FS, e: ExpDesc, cond: bool, lo: nat, fr: int)
    requires KindShape(fs, e, lo, fr) && (e.k.VNONRELOC? || e.k.VRELOCABLE?)
    ensures JumpOnCond(fs, e, cond) == CondJump(Consumed(fs, e), Consumer(fs, e, fr, cond))
  {
  }

  lemma ConsumedNot(fs: FS, e: ExpDesc, lo: nat, fr: int)
    requires Shape(fs, e, lo, fr) && e.k.VRELOCABLE? && fs.code[e.k.info].NOT?
    ensures Listed(Consumed(fs, e), e.t, e.f, lo, fr)
    ensures View(Consumed(fs, e)) == Consumed(fs, e).code == Base(View(fs), e.k)
    ensures forall j :: j in e.t || j in e.f ==> j < e.k.info
  {
    var c := fs.code[..e.k.info];
    assert fs.jpc + e.t + e.f == e.t + e.f;
    forall i | 0 <= i < |e.t + e.f| ensures (e.t + e.f)[i] < e.k.info && OpenJump(c, (e.t + e.f)[i]) {
      assert OpenJump(fs.code, (e.t + e.f)[i]);
    }
    assert forall j :: j in e.t || j in e.f ==> j in e.t + e.f;
  }

  lemma JumpOnCondShape(fs: FS, e: ExpDesc, cond: bool, lo: nat, fr: int)
    requires Shape(fs, e, lo, fr) && (e.k.VNONRELOC? || e.k.VRELOCABLE?)
    ensures var (fs', js) := JumpOnCond(fs, e, cond);
            var c := Consumed(fs, e);
            var (t', f') := Added(cond, e.t, e.f, |c.code| + 1);
            && js == [|c.code| + 1] && fs'.code == View(c) + [Consumer(fs, e, fr, cond), JMP(NO_JUMP)]
            && Listed(fs', t', f', lo, fr) && fs'.jpc == [] && fs'.nactvar == fs.nactvar && fs'.freereg == fr
            && fs'.maxstack == c.maxstack && fs'.code[..lo] == View(fs)[..lo]
  {
    hide PatchList, OpenList;
    var c := Consumed(fs, e);
    var i := Consumer(fs, e, fr, cond);
    JumpOnCondIs(fs, e, cond, lo, fr);
    if e.k.VRELOCABLE? && fs.code[e.k.info].NOT? {
      ConsumedNot(fs, e, lo, fr);
      NonePending(fs);
      assert View(c)[..lo] == View(fs)[..lo];
    } else {
      HeldShape(fs, e, lo, fr);
    }
    CondJumpKeeps(c, i, cond, e.t, e.f, lo, fr);
    assert (View(c) + [i, JMP(NO_JUMP)])[..lo] == View(c)[..lo];
  }

  lemma InvertKeeps(fs: FS, e: ExpDesc, lo: nat, fr: int)
    requires Shape(fs, e, lo, fr) && e.k.VJMP?
    ensures var fs' := fs.(code := InvertJump(fs.code, e.k.info));
            && Shape(fs', e, lo, fr)
            && fs'.code[..e.k.info - 1] == fs.code[..e.k.info - 1]
            && (forall j: nat :: IsValueJump(fs'.code, j) == IsValueJump(fs.code, j))
  {
    var s := fs.jpc + e.t + e.f;
    var code' := InvertJump(fs.code, e.k.info);
    forall i | 0 <= i < |s| ensures OpenJump(code', s[i]) {
      assert OpenJump(fs.code, s[i]);
    }
  }

  /** The two halves of GoIf: make the operand a conditional jump, then close the other list. */
  function Branch(fs: FS, e: ExpDesc, cond: bool): FS {
    if e.k.VJMP? then (if cond then fs else fs.(code := InvertJump(fs.code, e.k.info))) else JumpOnCond(fs, e, cond).0
  }

  lemma BranchJumpShape(fs: FS, e: ExpDesc, cond: bool, lo: nat, fr: int)
    requires Shape(fs, e, lo, fr) && e.k.VJMP?
    ensures var fs' := Branch(fs, e, cond);
            var (t', f') := Added(cond, e.t, e.f, e.k.info);
            && Listed(fs', t', f', lo, fr) && fs'.jpc == [] && fs' == fs.(code := fs'.code) && fs'.freereg == fr
            && fs'.code[..lo] == View(fs)[..lo]
  {
    hide OpenList;
    NonePending(fs);
    var fs' := Branch(fs, e, cond);
    if !cond {
      InvertKeeps(fs, e, lo, fr);
      assert fs'.code[..lo] == fs'.code[..e.k.info - 1][..lo];
      assert fs.code[..lo] == fs.code[..e.k.info - 1][..lo];
    }
    JumpOpens(fs', e, lo, fr);
  }

  lemma CloseShape(fs: FS, t: seq<nat>, f: seq<nat>, cond: bool, lo: nat, fr: int)
    requires Listed(fs, t, f, lo, fr) && fs.jpc == [] && lo < |fs.code|
    ensures var fs' := PatchToHere(fs, if cond then f else t);
            && Listed(fs', if cond then t else [], if cond then [] else f, lo, fr) && View(fs')[..lo] == fs.code[..lo]
  {
    hide PatchList, OpenJump, Distinct, NoTrailingTest;
    var s, s' := if cond then f else t, if cond then t else f;
    var fs' := PatchToHere(fs, s);
    assert fs.jpc + t + f == t + f;
    OpenParts(fs.code, t, f);
    OpenJoin(fs.code, s, s');
    assert fs'.jpc + (if cond then t else []) + (if cond then [] else f) == s + s';
    assert fs'.jpc == s;
    PatchLow(fs.code, s, |fs.code|, NO_REG, |fs.code|, lo);
  }

  lemma GoIfShape(fs: FS, e: ExpDesc, cond: bool, lo: nat, fr: int)
    requires Shape(fs, e, lo, fr)
    ensures var (fs', e') := GoIf(fs, e, cond);
            && Listed(fs', e'.t, e'.f, lo, fr) && (if cond then e'.f else e'.t) == []
            && fs'.freereg == fr && fs'.nactvar == fs.nactvar && lo < |fs'.code|
            && View(fs')[..lo] == View(fs)[..lo]
  {
    hide PatchList, OpenList, JumpOnCond;
    DischargeVarsShape(fs, e, lo, fr);
    var (fs1, e1) := DischargeVars(fs, e);
    assert View(fs1)[..lo] == View(fs)[..lo];
    var j: nat;
    if e1.k.VJMP? {
      BranchJumpShape(fs1, e1, cond, lo, fr);
      j := e1.k.info;
    } else {
      JumpOnCondShape(fs1, e1, cond, lo, fr);
      j := JumpOnCond(fs1, e1, cond).1[0];
    }
    var (t', f') := Added(cond, e1.t, e1.f, j);
    assert j in t' || j in f';
    CloseShape(Branch(fs1, e1, cond), t', f', cond, lo, fr);
  }

  // ----- negation

  /** The part of code that runs before the operand described by k is complete. */
  function Base(code: seq<Instr>, k: Kind): seq<Instr> {
    if k.VRELOCABLE? && |code| >= 1 then code[..|code| - 1]
    else if k.VJMP? && |code| >= 2 then code[..|code| - 2]
    else code
  }

  lemma DroppedBase(fs: FS, e: ExpDesc, lo: nat, fr: int)
    requires Shape(fs, e, lo, fr) && (e.k.VJMP? || e.k.VRELOCABLE?)
    ensures var b := Base(fs.code, e.k);
            && OpenList(b, e.t) && OpenList(RemoveValues(b, e.t), e.f)
            && RemoveValues(RemoveValues(fs.code, e.t), e.f)[..|b|] == RemoveValues(RemoveValues(b, e.t), e.f)
            && (forall j :: j in e.f ==> j !in e.t)
  {
    hide RemoveValues;
    var b := Base(fs.code, e.k);
    assert fs.jpc + e.t + e.f == e.t + e.f;
    OpenParts(fs.code, e.t, e.f);
    assert forall j :: j in e.t || j in e.f ==> j < |b|;
    assert OpenList(b, e.t) && OpenList(b, e.f);
    RemoveValuesKeeps(b, e.t);
    RemoveValuesTake(fs.code, e.t, |b|);
    RemoveValuesTake(RemoveValues(fs.code, e.t), e.f, |b|);
  }

  /** The first half of CodeNot on an operand that is not a jump. */
  function Negate(fs: FS, e: ExpDesc): (FS, ExpDesc) {
    var (fs1, e1) := Discharge2AnyReg(fs, e);
    var fs2 := FreeExp(fs1, e1);
    (Emit(fs2, NOT(0, if e1.k.VNONRELOC? then e1.k.reg else 0)), e1.(k := VRELOCABLE(|fs2.code|)))
  }

  lemma NegateShape(fs: FS, e: ExpDesc, lo: nat, fr: int)
    requires Shape(fs, e, lo, fr) && (e.k.VNONRELOC? || e.k.VRELOCABLE?)
    ensures var (fs1, e1) := Discharge2AnyReg(fs, e);
            var c := FreeExp(fs1, e1);
            var (fs', e') := Negate(fs, e);
            && Shape(fs', e', lo, fr) && fs'.nactvar == fs.nactvar && e'.t == e.t && e'.f == e.f
            && fs'.code == View(c) + [NOT(0, if e.k.VNONRELOC? then e.k.reg else fr)]
               && fs'.code[..lo] == View(fs)[..lo]
            && e'.k.info == |c.code|
  {
    hide PatchList, OpenList, Discharge2AnyReg;
    var (fs1, e1) := Discharge2AnyReg(fs, e);
    var c := FreeExp(fs1, e1);
    HeldShape(fs, e, lo, fr);
    EmitKeeps(c, NOT(0, e1.k.reg), e, lo);
    OpenParts(c.code, c.jpc + e.t, e.f);
    OpenParts(c.code, c.jpc, e.t);
    ViewTrailing(c);
    var (fs', e') := Negate(fs, e);
    assert fs'.code[..|c.code|] == View(c);
    assert fs'.code[..lo] == View(c)[..lo];
  }

  /** Both lists without their values, in the other order. */
  lemma DroppedOpen(code: seq<Instr>, t: seq<nat>, f: seq<nat>)
    requires OpenList(code, t + f)
    ensures var code' := RemoveValues(RemoveValues(code, t), f);
            && OpenList(code', f + t)
            && (forall i: nat :: i < |code| && i + 1 !in t && i + 1 !in f ==> code'[i] == code[i])
            && (forall i: nat :: i < |code| ==> IsTest(code'[i]) == IsTest(code[i]))
            && (forall j :: j in t || j in f ==> !IsValueJump(code', j))
  {
    hide RemoveValues, IsValueJump, IsTest, OpenJump;
    OpenParts(code, t, f);
    RemoveValuesKeeps(code, t);
    RemoveValuesKeeps(RemoveValues(code, t), f);
    OpenJoin(RemoveValues(RemoveValues(code, t), f), f, t);
  }

  lemma DroppedShape(fs: FS, e: ExpDesc, lo: nat, fr: int)
    requires Shape(fs, e, lo, fr) && (e.k.VJMP? || e.k.VRELOCABLE?)
    ensures var fs' := fs.(code := RemoveValues(RemoveValues(fs.code, e.t), e.f));
            && Shape(fs', e.(t := e.f, f := e.t), lo, fr) && fs'.code[..lo] == fs.code[..lo]
            && (forall j :: j in e.t || j in e.f ==> !IsValueJump(fs'.code, j))
            && fs'.code[|Base(fs.code, e.k)|] == fs.code[|Base(fs.code, e.k)|]
  {
    hide RemoveValues, IsValueJump, IsTest, OpenList;
    assert fs.jpc + e.t + e.f == e.t + e.f;
    DroppedOpen(fs.code, e.t, e.f);
    assert fs.jpc + e.f + e.t == e.f + e.t;
  }

  lemma CodeNotShape(fs: FS, e: ExpDesc, lo: nat, fr: int)
    requires Shape(fs, e, lo, fr)
    ensures var (fs', e') := CodeNot(fs, e);
            && Shape(fs', e', lo, fr) && fs'.nactvar == fs.nactvar && |fs'.code| > lo
            && View(fs')[..lo] == View(fs)[..lo] && View(fs') == fs'.code
  {
    hide PatchList, OpenList, RemoveValues, Negate, Discharge2AnyReg;
    DischargeVarsShape(fs, e, lo, fr);
    var (fs1, e1) := DischargeVars(fs, e);
    assert View(fs1)[..lo] == View(fs)[..lo];
    CodeNotIs(fs, e);
    if e1.k.VJMP? {
      NonePending(fs1);
      InvertKeeps(fs1, e1, lo, fr);
      var c := InvertJump(fs1.code, e1.k.info);
      assert c[..lo] == c[..e1.k.info - 1][..lo] && fs1.code[..lo] == fs1.code[..e1.k.info - 1][..lo];
      DroppedShape(fs1.(code := c), e1, lo, fr);
    } else {
      NegateShape(fs1, e1, lo, fr);
      DroppedShape(Negate(fs1, e1).0, Negate(fs1, e1).1, lo, fr);
    }
    NonePending(CodeNot(fs, e).0);
  }

  lemma CodeNotIs(fs: FS, e: ExpDesc)
    ensures var (fs1, e1) := DischargeVars(fs, e);
            var (fs2, e2) := if e1.k.VJMP? then (fs1.(code := InvertJump(fs1.code, e1.k.info)), e1)
                                           else Negate(fs1, e1);
            CodeNot(fs, e) == (fs2.(code := RemoveValues(RemoveValues(fs2.code, e2.t), e2.f)),
              e2.(t := e2.f, f := e2.t))
  {
    hide Discharge2AnyReg, RemoveValues, PatchList;
  }

  // ----- composing operands

  lemma LowOpen(code: seq<Instr>, ext: seq<Instr>, s: seq<nat>, lo: nat)
    requires OpenList(code, s) && Owned(code, s, lo) && code <= ext
    ensures OpenList(ext, s) && Owned(ext, s, lo)
  {
    OpenExtend(code, ext, s);
  }

  lemma JoinOpen(code: seq<Instr>, jpc: seq<nat>, t: seq<nat>, f: seq<nat>, s: seq<nat>, pc: nat)
    requires OpenList(code, jpc + t + f) && OpenList(code, s)
    requires forall j :: j in s ==> j < pc && j !in jpc
    requires forall j :: j in t || j in f ==> pc < j
    ensures OpenList(code, jpc + (t + s) + f) && OpenList(code, jpc + t + (f + s))
  {
    OpenParts(code, jpc + t, f);
    OpenParts(code, jpc, t);
    assert forall j :: j in jpc || j in t ==> j in jpc + t;
    OpenJoin(code, jpc + t + f, s);
    assert jpc + t + (f + s) == jpc + t + f + s;
    OpenJoin(code, jpc + t, s);
    OpenJoin(code, jpc + t + s, f);
    assert jpc + (t + s) + f == jpc + t + s + f;
  }

  /** A list from before fs1.code ended, seen from fs2. */
  lemma EarlierOpen(fs1: FS, s: seq<nat>, fs2: FS, lo: nat)
    requires OpenList(fs1.code, fs1.jpc + s) && Owned(fs1.code, s, lo)
    requires |fs1.code| <= |fs2.code| && View(fs2)[..|fs1.code|] == View(fs1) && Untouched(fs1, fs2)
    requires PendingAbove(fs2, |fs1.code|)
    ensures OpenList(fs2.code, s) && Owned(fs2.code, s, lo) && forall j :: j in s ==> j !in fs2.jpc
  {
    hide PatchList;
    var pc := |fs1.code|;
    OpenParts(fs1.code, fs1.jpc, s);
    if |fs2.code| != pc {
      ViewKeeps(fs1, s);
      PatchLow(fs2.code, fs2.jpc, |fs2.code|, NO_REG, |fs2.code|, pc);
      OwnedPatched(fs1.code, fs1.jpc, |fs1.code|, NO_REG, |fs1.code|, s, lo);
      LowOpen(View(fs1), fs2.code, s, lo);
    }
  }

  lemma OwnedJoin(code: seq<Instr>, s: seq<nat>, lo: nat, s': seq<nat>, lo': nat)
    requires Owned(code, s, lo) && Owned(code, s', lo') && lo' <= lo
    ensures Owned(code, s + s', lo') && Owned(code, s, lo')
  {
  }

  lemma JoinShape(fs1: FS, s: seq<nat>, fs2: FS, e2: ExpDesc, cond: bool, lo: nat, fr: int)
    requires Listed(fs1, if cond then s else [], if cond then [] else s, lo, fr)
    requires Shape(fs2, e2, |fs1.code|, fr) && View(fs2)[..|fs1.code|] == View(fs1) && Untouched(fs1, fs2)
    ensures Shape(fs2, if cond then e2.(t := e2.t + s) else e2.(f := e2.f + s), lo, fr)
  {
    hide OpenList, PatchList;
    var pc := |fs1.code|;
    assert fs1.jpc + (if cond then s else []) + (if cond then [] else s) == fs1.jpc + s;
    EarlierOpen(fs1, s, fs2, lo);
    EarlierBelow(fs1, s);
    JoinOpen(fs2.code, fs2.jpc, e2.t, e2.f, s, pc);
    OwnedJoin(fs2.code, e2.t, pc, s, lo);
    OwnedJoin(fs2.code, e2.f, pc, s, lo);
  }

  lemma EarlierBelow(fs: FS, s: seq<nat>)
    requires OpenList(fs.code, fs.jpc + s)
    ensures forall j :: j in s ==> j < |fs.code|
  {
    OpenParts(fs.code, fs.jpc, s);
  }

  lemma EarlierValues(fs1: FS, s: seq<nat>, fs2: FS, lo: nat)
    requires Owned(fs1.code, s, lo) && |fs1.code| <= |fs2.code| && View(fs2)[..|fs1.code|] == View(fs1)
    ensures forall j :: j in s ==> j < |fs1.code| && IsValueJump(View(fs2), j) == IsValueJump(View(fs1), j)
  {
    hide PatchList;
    forall j | j in s ensures IsValueJump(View(fs2), j) == IsValueJump(View(fs1), j) {
      assert View(fs2)[..|fs1.code|][j - 1] == View(fs2)[j - 1];
    }
  }

  function Comparer(op: CmpOp, cond: bool, o1: int, o2: int): Instr {
    if !cond && op != EQ then CMP(op, true, o2, o1) else CMP(op, cond, o1, o2)
  }

  lemma CompareSettled(fs1: FS, x: ExpDesc, fs2: FS, y: ExpDesc, lo: nat, fr: int)
    requires Shape(fs1, x, lo, fr) && x.k.VNONRELOC? && x.t == [] && x.f == []
    requires Shape(fs2, y, |fs1.code|, fs1.freereg) && y.k.VNONRELOC? && y.t == [] && y.f == []
    requires fs2.nactvar == fs1.nactvar && Untouched(fs1, fs2)
    ensures var fs3 := FreeExp(FreeExp(fs2, y), x);
            Listed(fs3, [], [], lo, fr) && fs3.freereg == fr && fs3 == fs2.(freereg := fr)
  {
    var fs3 := FreeExp(FreeExp(fs2, y), x);
    assert fs2.jpc + y.t + y.f == fs3.jpc + [] + [];
  }

  lemma ComparedShape(fs: FS, i: Instr, lo: nat, fr: int)
    requires Listed(fs, [], [], lo, fr) && fs.freereg == fr && i.CMP?
    ensures Shape(CondJump(fs, i).0, ExpDesc(VJMP(|fs.code| + 1), [], []), lo, fr)
  {
    CondJumpKeeps(fs, i, true, [], [], lo, fr);
  }

  /** Both operands already in registers. */
  lemma CodeCompShape(fs1: FS, x: ExpDesc, fs2: FS, y: ExpDesc, op: CmpOp, cond: bool, lo: nat, fr: int)
    requires Shape(fs1, x, lo, fr) && x.k.VNONRELOC? && x.t == [] && x.f == []
    requires Shape(fs2, y, |fs1.code|, fs1.freereg) && y.k.VNONRELOC? && y.t == [] && y.f == []
    requires View(fs2)[..|fs1.code|] == View(fs1) && fs2.nactvar == fs1.nactvar && Untouched(fs1, fs2)
    ensures var (fs', e') := CodeComp(fs2, op, cond, x, y);
            && Shape(fs', e', lo, fr) && fs'.nactvar == fs1.nactvar && |fs'.code| > lo
            && View(fs') == fs'.code == View(fs2) + [Comparer(op, cond, x.k.reg, y.k.reg), JMP(NO_JUMP)]
            && View(fs')[..lo] == View(fs1)[..lo]
            && e' == ExpDesc(VJMP(|fs2.code| + 1), [], [])
  {
    hide PatchList, OpenList;
    var fs3 := FreeExp(FreeExp(fs2, y), x);
    var i := Comparer(op, cond, x.k.reg, y.k.reg);
    CompareSettled(fs1, x, fs2, y, lo, fr);
    assert View(fs3) == View(fs2);
    CondJumpKeeps(fs3, i, true, [], [], lo, fr);
    ComparedShape(fs3, i, lo, fr);
    var (fs', e') := CodeComp(fs2, op, cond, x, y);
    assert (fs', e'.k) == (CondJump(fs3, i).0, VJMP(|fs3.code| + 1));
    NonePending(fs');
    assert View(fs')[..lo] == View(fs2)[..|fs1.code|][..lo];
  }

  /** An operand already in a register stays there. */
  lemma CodeCompIs(fs: FS, op: CmpOp, cond: bool, x: ExpDesc, e: ExpDesc)
    requires x.k.VNONRELOC? && x.t == [] && x.f == []
    ensures var (fs', y) := Exp2AnyReg(fs, e);
            && CodeComp(fs, op, cond, x, e).0.maxstack == fs'.maxstack
            && (y.k.VNONRELOC? && y.t == [] && y.f == [] ==>
               CodeComp(fs, op, cond, x, e) == CodeComp(fs', op, cond, x, y))
  {
    hide Exp2Reg, PatchList;
  }

  lemma StartAgain(fs: FS, t: seq<nat>, f: seq<nat>, lo: nat, fr: int)
    requires Listed(fs, t, f, lo, fr) && fs.freereg >= fr
    ensures Start(fs)
  {
    OpenParts(fs.code, fs.jpc + t, f);
    OpenParts(fs.code, fs.jpc, t);
  }

  lemma HeldStart(fs: FS, e: ExpDesc, lo: nat, fr: int)
    requires Shape(fs, e, lo, fr) && e.k.VNONRELOC?
    ensures Start(fs) && fr <= fs.freereg && e.k.reg < fs.freereg
  {
    StartAgain(fs, e.t, e.f, lo, fr);
  }

  lemma CompileIs(fs: FS, x: Expr)
    ensures x.And? || x.Or? ==>
              var (fs1, e1) := Compile(fs, x.l);
              var (fs2, e1') := GoIf(fs1, e1, x.Or?);
              var (fs3, e2) := Compile(fs2, x.r2);
              Compile(fs, x) == Join(fs3, e1', e2, x.Or?)
    ensures x.Rel? ==>
              var (fs1, e1) := Compile(fs, x.l);
              var (fs2, e1') := Exp2AnyReg(fs1, e1);
              var (fs3, e2) := Compile(fs2, x.r2);
              Compile(fs, x) == CodeComp(fs3, Comparison(x.op).0, Comparison(x.op).1, e1', e2)
  {
    hide GoIf, Join, Exp2AnyReg, CodeComp;
  }

  lemma {:induction false} CompileShape(fs: FS, x: Expr)
    requires Start(fs) && Closed(x, fs.nactvar)
    ensures var (fs', e') := Compile(fs, x);
            && Shape(fs', e', |fs.code|, fs.freereg) && fs'.nactvar == fs.nactvar
            && View(fs')[..|fs.code|] == View(fs) && Untouched(fs, fs')
    decreases x, 1
  {
    hide PatchList, OpenList, CodeNot, Exp2AnyReg, GoIf;
    match x
    case Not(y) =>
      var (fs1, e1) := Compile(fs, y);
      CompileShape(fs, y);
      CodeNotShape(fs1, e1, |fs.code|, fs.freereg);
    case And(_, _) => LogicShape(fs, x);
    case Or(_, _) => LogicShape(fs, x);
    case Rel(_, _, _) => RelShape(fs, x);
    case _ => assert fs.jpc + [] + [] == fs.jpc;
  }

  lemma {:induction false} LogicShape(fs: FS, x: Expr)
    requires Start(fs) && Closed(x, fs.nactvar) && (x.And? || x.Or?)
    ensures var (fs', e') := Compile(fs, x);
            && Shape(fs', e', |fs.code|, fs.freereg) && fs'.nactvar == fs.nactvar
            && View(fs')[..|fs.code|] == View(fs) && Untouched(fs, fs')
    decreases x, 0
  {
    hide PatchList, OpenList, GoIf, Compile, KindShape;
    CompileIs(fs, x);
    var lo, fr, cond := |fs.code|, fs.freereg, x.Or?;
    var (fs1, e1) := Compile(fs, x.l);
    CompileShape(fs, x.l);
    GoIfShape(fs1, e1, cond, lo, fr);
    var (fs2, e1') := GoIf(fs1, e1, cond);
    StartAgain(fs2, e1'.t, e1'.f, lo, fr);
    CompileShape(fs2, x.r2);
    var (fs3, e2) := Compile(fs2, x.r2);
    JoinedShape(fs2, e1', fs3, e2, cond, lo, fr);
    var fs' := Compile(fs, x).0;
    assert View(fs')[..lo] == View(fs')[..|fs2.code|][..lo];
  }

  lemma JoinedShape(fs1: FS, e1: ExpDesc, fs2: FS, e2: ExpDesc, cond: bool, lo: nat, fr: int)
    requires Listed(fs1, e1.t, e1.f, lo, fr) && (if cond then e1.f else e1.t) == []
    requires Shape(fs2, e2, |fs1.code|, fr) && View(fs2)[..|fs1.code|] == View(fs1) && Untouched(fs1, fs2)
    ensures var (fs', e') := Join(fs2, e1, e2, cond);
            && Shape(fs', e', lo, fr) && fs'.nactvar == fs2.nactvar && |fs'.code| >= |fs1.code|
            && View(fs')[..|fs1.code|] == View(fs1)
            && (forall j :: j in e1.t || j in e1.f ==>
               j < |fs1.code| && IsValueJump(View(fs'), j) == IsValueJump(View(fs1), j))
  {
    hide PatchList, OpenList, KindShape;
    DischargeVarsShape(fs2, e2, |fs1.code|, fr);
    var (fs3, e2') := DischargeVars(fs2, e2);
    assert View(fs3)[..|fs1.code|] == View(fs2)[..|fs1.code|];
    JoinShape(fs1, if cond then e1.t else e1.f, fs3, e2', cond, lo, fr);
    EarlierValues(fs1, e1.t, fs3, lo);
    EarlierValues(fs1, e1.f, fs3, lo);
  }

  lemma {:induction false} RelShape(fs: FS, x: Expr)
    requires Start(fs) && Closed(x, fs.nactvar) && x.Rel?
    ensures var (fs', e') := Compile(fs, x);
            && Shape(fs', e', |fs.code|, fs.freereg) && fs'.nactvar == fs.nactvar
            && View(fs')[..|fs.code|] == View(fs) && Untouched(fs, fs')
    decreases x, 0
  {
    hide PatchList, OpenList, Exp2AnyReg, Compile, KindShape, CodeComp;
    CompileIs(fs, x);
    var lo, fr := |fs.code|, fs.freereg;
    var (op, cond) := Comparison(x.op);
    var (fs1, e1) := Compile(fs, x.l);
    CompileShape(fs, x.l);
    Exp2AnyRegShape(fs1, e1, lo, fr);
    var (fs2, x1) := Exp2AnyReg(fs1, e1);
    HeldStart(fs2, x1, lo, fr);
    CompileShape(fs2, x.r2);
    var (fs3, e2) := Compile(fs2, x.r2);
    CodeCompIs(fs3, op, cond, x1, e2);
    Exp2AnyRegShape(fs3, e2, |fs2.code|, fs2.freereg);
    var (fs4, y) := Exp2AnyReg(fs3, e2);
    CodeCompShape(fs2, x1, fs4, y, op, cond, lo, fr);
  }
}
