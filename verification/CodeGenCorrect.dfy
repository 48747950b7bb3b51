/** The code generator preserves meaning: the code it emits for an expression computes the
    value that Lua gives the expression, with the same observable events in the same order. */
module CodeGenCorrect {
  import opened Common
  import opened Opcodes
  import opened CodeGen
  import opened CodeGenRuns
  import opened CodeGenShape

  // ----- what an expression under construction computes

  /** Value and trace of the operand described by k once Base has run. */
  function Final(w: World, code: seq<Instr>, k: Kind, m: Machine): (Value, Trace) {
    match k
    case VLOCAL(r) => (m.Get(r), m.trace)
    case VNONRELOC(r) => (m.Get(r), m.trace)
    case VGLOBAL(n) => (w.read(n, m.trace), m.trace + [ReadGlobal(n)])
    case VRELOCABLE(i) =>
      if i >= |code| then (Nil, m.trace)
      else (match code[i]
        case NOT(_, b) => (Bool(!Truthy(m.Get(b))), m.trace)
        case GETGLOBAL(_, n) => (w.read(n, m.trace), m.trace + [ReadGlobal(n)])
        case _ => (Nil, m.trace))
    case VJMP(i) =>
      if !(1 <= i <= |code| && code[i - 1].CMP?) then (Nil, m.trace)
      else
        var c := code[i - 1];
        var x, y := m.Get(c.b), m.Get(c.c);
        (Bool(w.compare(c.op, x, y, m.trace) == c.accept), m.trace + [Compare(c.op, x, y)])
  }

  /** Leaving through jump j with offer x is right for value v. */
  predicate ListExit(code: seq<Instr>, t: seq<nat>, f: seq<nat>, j: nat, x: Option<Value>, v: Value) {
    && (j in t || j in f)
    && (j in t ==> Truthy(v)) && (j in f ==> !Truthy(v))
    && (if IsValueJump(code, j) then x == Some(v) else v == Bool(Truthy(v)))
  }

  predicate SameLow(m: Machine, m': Machine, fr: int) {
    m.Valid() && |m'.regs| == |m.regs|
    && forall i :: 0 <= i < fr && i < |m.regs| ==> m'.regs[i] == m.regs[i]
  }

  predicate SameBut(m: Machine, m': Machine, fr: int, reg: int) {
    m.Valid() && |m'.regs| == |m.regs|
    && forall i :: 0 <= i < fr && i < |m.regs| && i != reg ==> m'.regs[i] == m.regs[i]
  }

  predicate SameFall(w: World, code: seq<Instr>, lo: nat, fr: int, m: Machine) {
    var o := Run(w, code, lo, m); o.Fall? ==> SameLow(m, o.m, fr)
  }

  /** Running code from lo evaluates to r, described by e; registers below fr survive. */
  predicate Yields(w: World, code: seq<Instr>, lo: nat, fr: int, e: ExpDesc, m: Machine, r: (Value, Trace)) {
    match Run(w, Base(code, e.k), lo, m)
    case Fall(m1) => SameLow(m, m1, fr) && Final(w, code, e.k, m1) == r
    case Exit(j, x, m1) => SameLow(m, m1, fr) && m1.trace == r.1 && ListExit(code, e.t, e.f, j, x, r.0)
    case Stuck => false
  }

  /** As Yields, for a value that control falling off the end finds in reg. */
  predicate YieldsIn(w: World, code: seq<Instr>, lo: nat, fr: int, reg: int, t: seq<nat>, f: seq<nat>, m: Machine,
                     r: (Value, Trace)) {
    match Run(w, code, lo, m)
    case Fall(m1) => SameBut(m, m1, fr, reg) && m1.Get(reg) == r.0 && m1.trace == r.1
    case Exit(j, x, m1) => SameLow(m, m1, fr) && m1.trace == r.1 && ListExit(code, t, f, j, x, r.0)
    case Stuck => false
  }

  /** Control falls off the end when the value is not cond and leaves when it is. */
  predicate Branches(w: World, code: seq<Instr>, lo: nat, fr: int, cond: bool, t: seq<nat>, f: seq<nat>, m: Machine,
                     r: (Value, Trace)) {
    match Run(w, code, lo, m)
    case Fall(m1) => SameLow(m, m1, fr) && Truthy(r.0) != cond && m1.trace == r.1
    case Exit(j, x, m1) => SameLow(m, m1, fr) && m1.trace == r.1 && ListExit(code, t, f, j, x, r.0)
    case Stuck => false
  }

  /** Ready to be landed in reg: as YieldsIn, except that a comparison is false when control
      falls off the end. */
  predicate Ready(w: World, code: seq<Instr>, lo: nat, fr: int, reg: int, isJump: bool, t: seq<nat>, f: seq<nat>,
                  m: Machine, r: (Value, Trace)) {
    match Run(w, code, lo, m)
    case Fall(m1) =>
      SameBut(m, m1, fr, reg) && m1.trace == r.1 && (if isJump then r.0 == Bool(false) else m1.Get(reg) == r.0)
    case Exit(j, x, m1) => SameLow(m, m1, fr) && m1.trace == r.1 && ListExit(code, t, f, j, x, r.0)
    case Stuck => false
  }

  /** The value is in reg when control falls off the end, as it always does. */
  predicate Holds(w: World, code: seq<Instr>, lo: nat, fr: int, reg: int, m: Machine, r: (Value, Trace)) {
    var o := Run(w, code, lo, m);
    o.Fall? && SameBut(m, o.m, fr, reg) && o.m.Get(reg) == r.0 && o.m.trace == r.1
  }

  lemma RunEnd(w: World, code: seq<Instr>, m: Machine)
    ensures Run(w, code, |code|, m) == Fall(m)
  {
  }

  // ----- discharging operands

  lemma DischargeVarsOk(w: World, fs: FS, e: ExpDesc, lo: nat, fr: int, m: Machine, r: (Value, Trace))
    requires m.Valid() && Shape(fs, e, lo, fr)
    requires Yields(w, View(fs), lo, fr, e, m, r)
    ensures var (fs', e') := DischargeVars(fs, e);
            Yields(w, View(fs'), lo, fr, e', m, r)
  {
    hide Run, PatchList, OpenList;
    if e.k.VGLOBAL? {
      var (fs', e') := DischargeVars(fs, e);
      EmitKeeps(fs, GETGLOBAL(0, e.k.info), e, lo);
      assert Base(View(fs'), e'.k) == View(fs);
    }
  }

  /** What an instruction that only loads a register does. */
  function Loaded(w: World, i: Instr, m: Machine): Machine
    requires i.MOVE? || i.NOT? || i.GETGLOBAL?
  {
    match i
    case MOVE(a, b) => m.Set(a, m.Get(b))
    case NOT(a, b) => m.Set(a, Bool(!Truthy(m.Get(b))))
    case GETGLOBAL(a, n) => m.Log(ReadGlobal(n)).Set(a, w.read(n, m.trace))
  }

  lemma RunLoadTo(w: World, code: seq<Instr>, i: Instr, lo: nat, m: Machine)
    requires !Run(w, code, lo, m).Stuck? && (i.MOVE? || i.NOT? || i.GETGLOBAL?)
    ensures var o := Run(w, code, lo, m);
            Run(w, code + [i], lo, m) == if o.Fall? then Fall(Loaded(w, i, o.m)) else o
  {
    RunExtend(w, code, code + [i], lo, m);
  }

  lemma Discharge2RegOk(w: World, fs: FS, e: ExpDesc, reg: int, lo: nat, fr: int, fr': int, mx: int, m: Machine,
                        r: (Value, Trace))
    requires m.Valid() && Shape(fs, e, lo, fr) && (e.k.VRELOCABLE? || e.k.VNONRELOC?)
    requires Yields(w, View(fs), lo, fr, e, m, r)
    requires 0 <= reg < |m.regs|
    ensures YieldsIn(w, View(Discharge2Reg(fs.(freereg := fr', maxstack := mx), e, reg).0), lo, fr, reg, e.t, e.f, m, r)
  {
    hide Run;
    var fs0 := fs.(freereg := fr', maxstack := mx);
    var fs' := Discharge2Reg(fs0, e, reg).0;
    var base := Base(View(fs), e.k);
    assert View(fs0) == View(fs);
    if e.k.VRELOCABLE? {
      RelocateKeeps(fs, e, reg, lo, fr);
      hide OpenList, PatchList;
      assert View(fs) == fs.code && View(fs') == fs'.code;
      assert fs'.code == base + [fs'.code[e.k.info]];
      RunLoadTo(w, base, fs'.code[e.k.info], lo, m);
    } else if reg != e.k.reg {
      EmitKeeps(fs0, MOVE(reg, e.k.reg), e, lo);
      hide OpenList, PatchList;
      RunLoadTo(w, base, MOVE(reg, e.k.reg), lo, m);
    }
  }

  /** The operand in a register, which is then free again. */
  lemma HeldIn(w: World, fs: FS, e: ExpDesc, lo: nat, fr: int, m: Machine, r: (Value, Trace))
    requires m.Valid() && Shape(fs, e, lo, fr) && (e.k.VNONRELOC? || e.k.VRELOCABLE?)
    requires Yields(w, View(fs), lo, fr, e, m, r)
    requires Discharge2AnyReg(fs, e).0.maxstack <= |m.regs|
    ensures var (fs1, e1) := Discharge2AnyReg(fs, e);
            var c := FreeExp(fs1, e1);
            && YieldsIn(w, View(c), lo, fr, if e.k.VNONRELOC? then e.k.reg else fr, e.t, e.f, m, r)
            && SameFall(w, View(c), lo, fr, m)
  {
    hide Run, PatchList, OpenList;
    var (fs1, e1) := Discharge2AnyReg(fs, e);
    var c := FreeExp(fs1, e1);
    assert View(c) == View(fs1);
    if e.k.VRELOCABLE? {
      var mx := if fs.maxstack < fr + 1 then fr + 1 else fs.maxstack;
      assert Reserve(fs, 1) == fs.(freereg := fr + 1, maxstack := mx);
      Discharge2RegOk(w, fs, e, fr, lo, fr, fr + 1, mx, m, r);
    }
  }

  // ----- landing the jumps of a finished expression

  /** The end of a run of the landed code, given how the run of the open code ended. */
  function LandedEnd(w: World, code: seq<Instr>, code': seq<Instr>, jpc: seq<nat>, f: seq<nat>, reg: int, pf: nat,
                     pt: nat, o: Outcome): Outcome {
    if !o.Exit? then o
    else if o.at in jpc then Fall(o.m)
    else if IsValueJump(code, o.at) then Fall(Landed(o, true, reg))
    else Run(w, code', if o.at in f then pf else pt, o.m)
  }

  lemma LandAtOk(w: World, fs: FS, t: seq<nat>, f: seq<nat>, reg: int, pf: nat, pt: nat, end: seq<Instr>, lo: nat,
                 m: Machine)
    requires end == View(LandAt(fs, t, f, reg, pf, pt))
    requires m.Valid() && OpenList(fs.code, fs.jpc + t + f)
    requires forall j :: (j in t && !IsValueJump(fs.code, j) ==> j < pt)
                         && (j in f && !IsValueJump(fs.code, j) ==> j < pf)
    requires var o := Run(w, fs.code, lo, m); o.Exit? ==> o.at in fs.jpc || o.at in t || o.at in f
    ensures Run(w, end, lo, m) == LandedEnd(w, fs.code, end, fs.jpc, f, reg, pf, pt, Run(w, fs.code, lo, m))
  {
    var final := |fs.code|;
    var c1 := PatchList(fs.code, f, final, reg, pf);
    var c2 := PatchList(c1, t, final, reg, pt);
    LandOpen(fs, t, f, reg, pf, pt);
    var o := Run(w, fs.code, lo, m);
    RunValid(w, fs.code, lo, m);
    RunPatchList(w, fs.code, f, final, reg, pf, lo, m);
    RunPatchList(w, c1, t, final, reg, pt, lo, m);
    RunPatchList(w, c2, fs.jpc, final, NO_REG, final, lo, m);
    if o.Exit? && o.at in f {
      var isValue := IsValueJump(fs.code, o.at);
      var m1 := Landed(o, isValue, reg);
      var d := if isValue then final else pf;
      RunPatchList(w, c1, t, final, reg, pt, d, m1);
      RunPatchList(w, c2, fs.jpc, final, NO_REG, final, d, m1);
    } else if o.Exit? && o.at in t {
      var isValue := IsValueJump(fs.code, o.at);
      var m1 := Landed(o, isValue, reg);
      RunPatchList(w, c2, fs.jpc, final, NO_REG, final, if isValue then final else pt, m1);
    } else if o.Exit? {
      assert Landed(o, IsValueJump(c2, o.at), NO_REG) == o.m;
    }
  }

  /** What the run of the open code says, in terms of the run of its View. */
  lemma ReadyRaw(w: World, fs: FS, lo: nat, fr: int, reg: int, isJump: bool, t: seq<nat>, f: seq<nat>, m: Machine,
                 r: (Value, Trace))
    requires m.Valid() && OpenList(fs.code, fs.jpc + t + f)
    requires Ready(w, View(fs), lo, fr, reg, isJump, t, f, m, r)
    ensures var o := Run(w, fs.code, lo, m);
            && !o.Stuck? && o.m.Valid() && |o.m.regs| == |m.regs|
            && (if o.Exit? && o.at !in fs.jpc
                then SameLow(m, o.m, fr) && o.m.trace == r.1 && ListExit(fs.code, t, f, o.at, o.val, r.0)
                else SameBut(m, o.m, fr, reg) && o.m.trace == r.1
                     && (if isJump then r.0 == Bool(false) else o.m.Get(reg) == r.0))
  {
    assert fs.jpc + t + f == fs.jpc + (t + f);
    OpenParts(fs.code, fs.jpc, t + f);
    ViewKeeps(fs, t + f);
    RunValid(w, fs.code, lo, m);
    RunPatchList(w, fs.code, fs.jpc, |fs.code|, NO_REG, |fs.code|, lo, m);
    var o := Run(w, fs.code, lo, m);
    if o.Exit? {
      if o.at in fs.jpc {
        assert Landed(o, IsValueJump(fs.code, o.at), NO_REG) == o.m;
      } else {
        assert o.at in t + f;
      }
    }
  }

  lemma LandValues(w: World, fs: FS, isJump: bool, t: seq<nat>, f: seq<nat>, reg: int, lo: nat, fr: int, m: Machine,
                   r: (Value, Trace))
    requires m.Valid() && OpenList(fs.code, fs.jpc + t + f) && 0 <= reg < |m.regs| && !isJump
    requires Ready(w, View(fs), lo, fr, reg, isJump, t, f, m, r)
    requires !NeedValue(fs.code, t) && !NeedValue(fs.code, f)
    ensures Holds(w, View(LandAt(fs, t, f, reg, 0, 0)), lo, fr, reg, m, r)
  {
    ReadyRaw(w, fs, lo, fr, reg, isJump, t, f, m, r);
    LandAtOk(w, fs, t, f, reg, 0, 0, View(LandAt(fs, t, f, reg, 0, 0)), lo, m);
  }

  /** Control that falls off the end of the operand jumps over the loads, or for a
      comparison runs into the load of false. */
  lemma RunWithLoads(w: World, fs: FS, isJump: bool, reg: int, lo: nat, m: Machine)
    requires m.Valid() && isJump ==> fs.jpc == []
    requires !Run(w, fs.code, lo, m).Stuck?
    ensures var o := Run(w, fs.code, lo, m);
            Run(w, WithLoads(fs, isJump, reg).code, lo, m) ==
              if o.Exit? then o
              else if isJump then Fall(o.m.Set(reg, Bool(false)))
              else Exit(|fs.code|, None, o.m)
  {
    RunExtend(w, fs.code, WithLoads(fs, isJump, reg).code, lo, m);
  }

  lemma RunLoad(w: World, code: seq<Instr>, reg: int, pc: nat, flag: bool, m: Machine)
    requires pc + (if flag then 1 else 2) == |code| && code[pc] == LOADBOOL(reg, flag, !flag)
    ensures Run(w, code, pc, m) == Fall(m.Set(reg, Bool(flag)))
  {
  }

  /** The machine in which the landed code ends. */
  function LoadedEnd(fs: FS, isJump: bool, f: seq<nat>, reg: int, o: Outcome): Machine
    requires !o.Stuck?
  {
    if o.Fall? then (if isJump then o.m.Set(reg, Bool(false)) else o.m)
    else if o.at in fs.jpc then o.m
    else if IsValueJump(fs.code, o.at) then Landed(o, true, reg)
    else o.m.Set(reg, Bool(o.at !in f))
  }

  lemma LandLoadsRun(w: World, fs: FS, isJump: bool, t: seq<nat>, f: seq<nat>, reg: int, lo: nat, m: Machine)
    requires m.Valid() && OpenList(fs.code, fs.jpc + t + f) && NoTrailingTest(fs.code)
    requires isJump ==> fs.jpc == []
    requires Owned(fs.code, t, lo) && Owned(fs.code, f, lo) && lo < |fs.code| && PendingAbove(fs, lo)
    requires var o := Run(w, fs.code, lo, m); !o.Stuck? && (o.Exit? ==> o.at in fs.jpc || o.at in t || o.at in f)
    ensures var pf := |fs.code| + if isJump then 0 else 1;
            Run(w, View(LandAt(WithLoads(fs, isJump, reg), t, f, reg, pf, pf + 1)), lo, m)
            == Fall(LoadedEnd(fs, isJump, f, reg, Run(w, fs.code, lo, m)))
  {
    hide Run, PatchList;
    var pf := |fs.code| + if isJump then 0 else 1;
    var fs3 := WithLoads(fs, isJump, reg);
    var end := View(LandAt(fs3, t, f, reg, pf, pf + 1));
    var o := Run(w, fs.code, lo, m);
    var o3 := Run(w, fs3.code, lo, m);
    WithLoadsKeeps(fs, isJump, t, f, reg);
    RunWithLoads(w, fs, isJump, reg, lo, m);
    assert forall j :: j in t || j in f ==> j in t + f;
    assert forall j :: j in fs.jpc ==> j in fs3.jpc;
    LandAtOk(w, fs3, t, f, reg, pf, pf + 1, end, lo, m);
    assert Run(w, end, lo, m) == LandedEnd(w, fs3.code, end, fs3.jpc, f, reg, pf, pf + 1, o3);
    LandedLoads(fs3, t, f, reg, pf, lo);
    if o.Exit? && o.at !in fs.jpc && !IsValueJump(fs.code, o.at) {
      var flag := o.at !in f;
      RunLoad(w, end, reg, if flag then pf + 1 else pf, flag, o.m);
    }
    assert o.Exit? && o.at !in fs.jpc ==> o.at !in fs3.jpc by {
      assert OpenList(fs.code, fs.jpc + t + f);
      OpenParts(fs.code, fs.jpc + t, f);
      OpenParts(fs.code, fs.jpc, t);
    }
    assert LandedEnd(w, fs3.code, end, fs3.jpc, f, reg, pf, pf + 1, o3) == Fall(LoadedEnd(fs, isJump, f, reg, o));
  }

  lemma LandLoads(w: World, fs: FS, isJump: bool, t: seq<nat>, f: seq<nat>, reg: int, lo: nat, fr: int, m: Machine,
                  r: (Value, Trace))
    requires m.Valid() && OpenList(fs.code, fs.jpc + t + f) && NoTrailingTest(fs.code) && 0 <= reg < |m.regs|
    requires isJump ==> fs.jpc == []
    requires Owned(fs.code, t, lo) && Owned(fs.code, f, lo) && lo < |fs.code| && PendingAbove(fs, lo)
    requires Ready(w, View(fs), lo, fr, reg, isJump, t, f, m, r)
    ensures var pf := |fs.code| + if isJump then 0 else 1;
            Holds(w, View(LandAt(WithLoads(fs, isJump, reg), t, f, reg, pf, pf + 1)), lo, fr, reg, m, r)
  {
    ReadyRaw(w, fs, lo, fr, reg, isJump, t, f, m, r);
    LandLoadsRun(w, fs, isJump, t, f, reg, lo, m);
  }

  /** A comparison ends in a conditional jump: it leaves when true and falls through when
      false, and the other way round once inverted. */
  lemma RunCompare(w: World, fs: FS, e: ExpDesc, flip: bool, lo: nat, fr: int, m: Machine, r: (Value, Trace))
    requires m.Valid() && Shape(fs, e, lo, fr) && e.k.VJMP?
    requires Yields(w, fs.code, lo, fr, e, m, r)
    ensures var code := if flip then InvertJump(fs.code, e.k.info) else fs.code;
            var o := Run(w, code, lo, m);
            && !o.Stuck? && SameLow(m, o.m, fr) && o.m.trace == r.1
            && (if o.Fall? then r.0 == Bool(flip)
                else if o.at == e.k.info then r.0 == Bool(!flip) && o.val == None
                else ListExit(fs.code, e.t, e.f, o.at, o.val, r.0))
  {
    hide OpenList;
    var code := if flip then InvertJump(fs.code, e.k.info) else fs.code;
    var base := Base(fs.code, e.k);
    RunExtend(w, base, code, lo, m);
    var o := Run(w, base, lo, m);
    if o.Fall? {
      assert |base| == e.k.info - 1;
    }
  }

  lemma LandJumpsOk(w: World, fs: FS, isJump: bool, t: seq<nat>, f: seq<nat>, reg: int, lo: nat, fr: int, m: Machine,
                    r: (Value, Trace))
    requires m.Valid() && OpenList(fs.code, fs.jpc + t + f) && NoTrailingTest(fs.code) && 0 <= reg < |m.regs|
    requires isJump ==> fs.jpc == [] && NeedValue(fs.code, t)
    requires Owned(fs.code, t, lo) && Owned(fs.code, f, lo) && lo < |fs.code| && PendingAbove(fs, lo)
    requires Ready(w, View(fs), lo, fr, reg, isJump, t, f, m, r)
    ensures Holds(w, View(LandJumps(fs, isJump, t, f, reg)), lo, fr, reg, m, r)
  {
    if NeedValue(fs.code, t) || NeedValue(fs.code, f) {
      LandJumpsIs(fs, isJump, t, f, reg);
      LandLoads(w, fs, isJump, t, f, reg, lo, fr, m, r);
    } else {
      LandValues(w, fs, isJump, t, f, reg, lo, fr, m, r);
    }
  }

  lemma Exp2RegOk(w: World, fs: FS, e: ExpDesc, reg: int, lo: nat, fr: int, fr': int, mx: int, m: Machine,
                  r: (Value, Trace))
    requires m.Valid() && Shape(fs, e, lo, fr) && !e.k.VLOCAL? && !e.k.VGLOBAL?
    requires Yields(w, View(fs), lo, fr, e, m, r)
    requires 0 <= reg < |m.regs|
    ensures Holds(w, View(Exp2Reg(fs.(freereg := fr', maxstack := mx), e, reg).0), lo, fr, reg, m, r)
  {
    hide LandJumps, Run;
    var fs0 := fs.(freereg := fr', maxstack := mx);
    if e.k.VJMP? {
      var t := e.t + [e.k.info];
      RunCompare(w, fs, e, false, lo, fr, m, r);
      JumpOpens(fs, e, lo, fr);
      assert !IsValueJump(fs.code, t[|e.t|]);
      assert Ready(w, View(fs0), lo, fr, reg, true, t, e.f, m, r);
      LandJumpsOk(w, fs0, true, t, e.f, reg, lo, fr, m, r);
    } else {
      Discharge2RegShape(fs, e, reg, lo, fr, fr', mx);
      Discharge2RegOk(w, fs, e, reg, lo, fr, fr', mx, m, r);
      var fs1 := Discharge2Reg(fs0, e, reg).0;
      if e.t != [] || e.f != [] {
        assert e.t != [] ==> e.t[0] in e.t;
        assert e.f != [] ==> e.f[0] in e.f;
        LandJumpsOk(w, fs1, false, e.t, e.f, reg, lo, fr, m, r);
      }
    }
  }

  lemma Exp2AnyRegOk(w: World, fs: FS, e: ExpDesc, lo: nat, fr: int, m: Machine, r: (Value, Trace))
    requires m.Valid() && Shape(fs, e, lo, fr)
    requires Yields(w, View(fs), lo, fr, e, m, r)
    requires Exp2AnyReg(fs, e).0.maxstack <= |m.regs|
    ensures var (fs', e') := Exp2AnyReg(fs, e);
            Yields(w, View(fs'), lo, fr, e', m, r)
  {
    hide Run, PatchList, Exp2Reg, OpenList;
    DischargeVarsShape(fs, e, lo, fr);
    DischargeVarsOk(w, fs, e, lo, fr, m, r);
    var (fs1, e1) := DischargeVars(fs, e);
    if !(e1.k.VNONRELOC? && e1.t == [] && e1.f == []) {
      var mx := if fs1.maxstack < fr + 1 then fr + 1 else fs1.maxstack;
      Exp2AnyRegIs(fs1, e1, lo, fr);
      Exp2RegShape(fs1, e1, fr, lo, fr, fr + 1, mx);
      assert Exp2AnyReg(fs, e) == Exp2AnyReg(fs1, e1);
      Exp2RegOk(w, fs1, e1, fr, lo, fr, fr + 1, mx, m, r);
    }
  }

  // ----- conditional jumps

  /** Control that falls off code meets a test of v and a jump. */
  lemma RunBranch(w: World, code: seq<Instr>, i: Instr, lo: nat, m: Machine)
    requires m.Valid() && (i.TEST? || (i.TESTSET? && i.a == NO_REG))
    requires !Run(w, code, lo, m).Stuck?
    ensures var o := Run(w, code, lo, m);
            var v := o.m.Get(if i.TEST? then i.a else i.b);
            Run(w, code + [i, JMP(NO_JUMP)], lo, m) ==
              if o.Exit? then o
              else if Truthy(v) == i.cond then Exit(|code| + 1, if i.TEST? then None else Some(v), o.m)
              else Fall(o.m)
  {
    var code' := code + [i, JMP(NO_JUMP)];
    RunExtend(w, code, code', lo, m);
    RunValid(w, code, lo, m);
    var o := Run(w, code, lo, m);
    if o.Fall? && i.TESTSET? {
      assert o.m.Set(NO_REG, o.m.Get(i.b)) == o.m;
    }
  }

  lemma BranchOn(w: World, code: seq<Instr>, i: Instr, cond: bool, t: seq<nat>, f: seq<nat>, lo: nat, fr: int,
                 m: Machine, r: (Value, Trace))
    requires m.Valid() && (i.TEST? || (i.TESTSET? && i.a == NO_REG))
    requires match Run(w, code, lo, m)
             case Fall(m1) => SameLow(m, m1, fr) && m1.trace == r.1 &&
               (if i.TEST? then r.0 == Bool(Truthy(r.0)) && ((Truthy(m1.Get(i.a)) == i.cond) == (Truthy(r.0) == cond))
                else m1.Get(i.b) == r.0 && i.cond == cond)
             case Exit(j, x, m1) => SameLow(m, m1, fr) && m1.trace == r.1 && ListExit(code, t, f, j, x, r.0)
             case Stuck => false
    requires forall j :: j in t || j in f ==> j <= |code|
    ensures var (t', f') := Added(cond, t, f, |code| + 1);
            Branches(w, code + [i, JMP(NO_JUMP)], lo, fr, cond, t', f', m, r)
  {
    hide Run;
    RunBranch(w, code, i, lo, m);
  }

  lemma JumpOnCondOk(w: World, fs: FS, e: ExpDesc, cond: bool, lo: nat, fr: int, m: Machine, r: (Value, Trace))
    requires m.Valid() && Shape(fs, e, lo, fr) && (e.k.VNONRELOC? || e.k.VRELOCABLE?)
    requires Yields(w, View(fs), lo, fr, e, m, r)
    requires JumpOnCond(fs, e, cond).0.maxstack <= |m.regs|
    ensures var (fs', js) := JumpOnCond(fs, e, cond);
            |js| == 1 && var (t', f') := Added(cond, e.t, e.f, js[0]);
            Branches(w, fs'.code, lo, fr, cond, t', f', m, r)
  {
    hide Run, PatchList, OpenList;
    JumpOnCondShape(fs, e, cond, lo, fr);
    var code := View(Consumed(fs, e));
    if e.k.VRELOCABLE? && fs.code[e.k.info].NOT? {
      ConsumedNot(fs, e, lo, fr);
      NonePending(fs);
    } else {
      HeldIn(w, fs, e, lo, fr, m, r);
      HeldShape(fs, e, lo, fr);
    }
    assert forall j :: j in e.t || j in e.f ==> j <= |code|;
    BranchOn(w, code, Consumer(fs, e, fr, cond), cond, e.t, e.f, lo, fr, m, r);
  }

  lemma BranchJumpOk(w: World, fs: FS, e: ExpDesc, cond: bool, lo: nat, fr: int, m: Machine, r: (Value, Trace))
    requires m.Valid() && Shape(fs, e, lo, fr) && e.k.VJMP?
    requires Yields(w, View(fs), lo, fr, e, m, r)
    ensures var (t', f') := Added(cond, e.t, e.f, e.k.info);
            Branches(w, Branch(fs, e, cond).code, lo, fr, cond, t', f', m, r)
  {
    hide Run, OpenList;
    RunCompare(w, fs, e, !cond, lo, fr, m, r);
    if !cond { InvertKeeps(fs, e, lo, fr); }
  }

  /** Closing the list that does not leave: its jumps fall off the end too. */
  lemma CloseOk(w: World, fs: FS, t: seq<nat>, f: seq<nat>, cond: bool, lo: nat, fr: int, m: Machine, r: (Value, Trace))
    requires m.Valid() && Listed(fs, t, f, lo, fr) && fs.jpc == []
    requires Branches(w, fs.code, lo, fr, cond, t, f, m, r)
    ensures var fs' := PatchToHere(fs, if cond then f else t);
            Branches(w, View(fs'), lo, fr, cond, if cond then t else [], if cond then [] else f, m, r)
  {
    hide PatchList, Run;
    var s, s' := if cond then f else t, if cond then t else f;
    var fs' := PatchToHere(fs, s);
    assert fs.jpc + t + f == t + f && fs'.jpc == s;
    OpenParts(fs.code, t, f);
    PatchOpen(fs.code, s, s', |fs.code|, NO_REG, |fs.code|);
    RunPatchList(w, fs.code, s, |fs.code|, NO_REG, |fs.code|, lo, m);
    hide OpenList, Listed, View;
    var o := Run(w, fs.code, lo, m);
    var code' := View(fs');
    if o.Exit? && o.at in s {
      assert Landed(o, IsValueJump(fs.code, o.at), NO_REG) == o.m;
      RunEnd(w, code', o.m);
      assert Run(w, code', lo, m) == Fall(o.m);
    } else {
      assert Run(w, code', lo, m) == o;
    }
  }

  lemma GoIfOk(w: World, fs: FS, e: ExpDesc, cond: bool, lo: nat, fr: int, m: Machine, r: (Value, Trace))
    requires m.Valid() && Shape(fs, e, lo, fr)
    requires Yields(w, View(fs), lo, fr, e, m, r)
    requires GoIf(fs, e, cond).0.maxstack <= |m.regs|
    ensures var (fs', e') := GoIf(fs, e, cond);
            Branches(w, View(fs'), lo, fr, cond, e'.t, e'.f, m, r)
  {
    hide Run, PatchList, OpenList, JumpOnCond;
    DischargeVarsShape(fs, e, lo, fr);
    DischargeVarsOk(w, fs, e, lo, fr, m, r);
    var (fs1, e1) := DischargeVars(fs, e);
    var j: nat;
    if e1.k.VJMP? {
      BranchJumpShape(fs1, e1, cond, lo, fr);
      BranchJumpOk(w, fs1, e1, cond, lo, fr, m, r);
      j := e1.k.info;
    } else {
      JumpOnCondShape(fs1, e1, cond, lo, fr);
      JumpOnCondOk(w, fs1, e1, cond, lo, fr, m, r);
      j := JumpOnCond(fs1, e1, cond).1[0];
    }
    var (t', f') := Added(cond, e1.t, e1.f, j);
    CloseOk(w, Branch(fs1, e1, cond), t', f', cond, lo, fr, m, r);
  }

  // ----- negation

  function Negated(r: (Value, Trace)): (Value, Trace) {
    (Bool(!Truthy(r.0)), r.1)
  }

  /** Falling off Base completes the negation of r; the lists still stand for r. */
  predicate HalfNegated(w: World, code: seq<Instr>, lo: nat, fr: int, e: ExpDesc, m: Machine, r: (Value, Trace)) {
    match Run(w, Base(code, e.k), lo, m)
    case Fall(m1) => SameLow(m, m1, fr) && Final(w, code, e.k, m1) == Negated(r)
    case Exit(j, x, m1) => SameLow(m, m1, fr) && m1.trace == r.1 && ListExit(code, e.t, e.f, j, x, r.0)
    case Stuck => false
  }

  lemma NegateJump(w: World, fs: FS, e: ExpDesc, lo: nat, fr: int, m: Machine, r: (Value, Trace))
    requires m.Valid() && Shape(fs, e, lo, fr) && e.k.VJMP?
    requires Yields(w, fs.code, lo, fr, e, m, r)
    ensures HalfNegated(w, InvertJump(fs.code, e.k.info), lo, fr, e, m, r)
  {
    hide Run, OpenList;
    InvertKeeps(fs, e, lo, fr);
    assert Base(InvertJump(fs.code, e.k.info), e.k) == Base(fs.code, e.k);
  }

  lemma NegateValue(w: World, fs: FS, e: ExpDesc, lo: nat, fr: int, m: Machine, r: (Value, Trace))
    requires m.Valid() && Shape(fs, e, lo, fr) && (e.k.VNONRELOC? || e.k.VRELOCABLE?)
    requires Yields(w, View(fs), lo, fr, e, m, r)
    requires Negate(fs, e).0.maxstack <= |m.regs|
    ensures var (fs', e') := Negate(fs, e);
            HalfNegated(w, fs'.code, lo, fr, e', m, r)
  {
    hide Run, PatchList, OpenList;
    NegateShape(fs, e, lo, fr);
    HeldIn(w, fs, e, lo, fr, m, r);
    var (fs1, e1) := Discharge2AnyReg(fs, e);
    var (fs', e') := Negate(fs, e);
    assert Base(fs'.code, e'.k) == View(FreeExp(fs1, e1));
  }

  /** Swapping the lists and dropping their values completes the negation. */
  lemma DropValues(w: World, fs: FS, e: ExpDesc, lo: nat, fr: int, m: Machine, r: (Value, Trace))
    requires m.Valid() && Shape(fs, e, lo, fr) && (e.k.VJMP? || e.k.VRELOCABLE?)
    requires HalfNegated(w, fs.code, lo, fr, e, m, r)
    ensures Yields(w, RemoveValues(RemoveValues(fs.code, e.t), e.f), lo, fr, e.(t := e.f, f := e.t), m, Negated(r))
  {
    hide Run, RemoveValues;
    DroppedShape(fs, e, lo, fr);
    DroppedBase(fs, e, lo, fr);
    var b := Base(fs.code, e.k);
    RunRemoveValues(w, b, e.t, lo, m);
    RunRemoveValues(w, RemoveValues(b, e.t), e.f, lo, m);
    assert Base(RemoveValues(RemoveValues(fs.code, e.t), e.f), e.k) == RemoveValues(RemoveValues(b, e.t), e.f);
  }

  lemma CodeNotOk(w: World, fs: FS, e: ExpDesc, lo: nat, fr: int, m: Machine, r: (Value, Trace))
    requires m.Valid() && Shape(fs, e, lo, fr)
    requires Yields(w, View(fs), lo, fr, e, m, r)
    requires CodeNot(fs, e).0.maxstack <= |m.regs|
    ensures var (fs', e') := CodeNot(fs, e);
            Yields(w, View(fs'), lo, fr, e', m, Negated(r))
  {
    hide Run, PatchList, OpenList, RemoveValues, Negate;
    DischargeVarsShape(fs, e, lo, fr);
    DischargeVarsOk(w, fs, e, lo, fr, m, r);
    var (fs1, e1) := DischargeVars(fs, e);
    CodeNotIs(fs, e);
    CodeNotShape(fs, e, lo, fr);
    if e1.k.VJMP? {
      NonePending(fs1);
      InvertKeeps(fs1, e1, lo, fr);
      NegateJump(w, fs1, e1, lo, fr, m, r);
      DropValues(w, fs1.(code := InvertJump(fs1.code, e1.k.info)), e1, lo, fr, m, r);
    } else {
      NegateShape(fs1, e1, lo, fr);
      NegateValue(w, fs1, e1, lo, fr, m, r);
      DropValues(w, Negate(fs1, e1).0, Negate(fs1, e1).1, lo, fr, m, r);
    }
  }

  // ----- composing operands

  lemma BaseExtends(fs1: FS, fs2: FS, e2: ExpDesc, fr: int)
    requires KindShape(fs2, e2, |fs1.code|, fr) && |fs1.code| <= |fs2.code|
    requires View(fs2)[..|fs1.code|] == View(fs1)
    ensures View(fs1) <= Base(View(fs2), e2.k)
  {
  }

  lemma JoinOk(w: World, fs1: FS, s: seq<nat>, fs2: FS, e2: ExpDesc, cond: bool, lo: nat, fr: int, m: Machine,
               r1: (Value, Trace), r: (Value, Trace))
    requires m.Valid()
    requires Branches(w, View(fs1), lo, fr, cond, if cond then s else [], if cond then [] else s, m, r1)
    requires Shape(fs2, e2, |fs1.code|, fr) && View(fs2)[..|fs1.code|] == View(fs1)
    requires forall j :: j in s ==> j < |fs1.code| && IsValueJump(View(fs2), j) == IsValueJump(View(fs1), j)
    requires if Truthy(r1.0) == cond then r == r1
             else Yields(w, View(fs2), |fs1.code|, fr, e2, Run(w, View(fs1), lo, m).m, r)
    ensures var e' := if cond then e2.(t := e2.t + s) else e2.(f := e2.f + s);
            Yields(w, View(fs2), lo, fr, e', m, r)
  {
    hide Run, PatchList, OpenList;
    BaseExtends(fs1, fs2, e2, fr);
    RunExtend(w, View(fs1), Base(View(fs2), e2.k), lo, m);
    var e' := if cond then e2.(t := e2.t + s) else e2.(f := e2.f + s);
    assert Base(View(fs2), e'.k) == Base(View(fs2), e2.k);
    assert forall j :: j in s ==> j !in e2.t && j !in e2.f;
  }

  /** The result of comparing v1 with v2 as CodeComp is asked to. */
  function Compared(w: World, op: CmpOp, cond: bool, v1: Value, r2: (Value, Trace)): (Value, Trace) {
    if !cond && op != EQ then (Bool(w.compare(op, r2.0, v1, r2.1)), r2.1 + [Compare(op, r2.0, v1)])
    else (Bool(w.compare(op, v1, r2.0, r2.1) == cond), r2.1 + [Compare(op, v1, r2.0)])
  }

  /** Both operands of a comparison in registers, then the test. */
  lemma CompareOk(w: World, fs1: FS, x: ExpDesc, fs2: FS, y: ExpDesc, op: CmpOp, cond: bool, lo: nat, fr: int,
                  m: Machine,
                  r1: (Value, Trace), r2: (Value, Trace))
    requires m.Valid() && Shape(fs1, x, lo, fr) && x.k.VNONRELOC? && x.t == [] && x.f == []
    requires Yields(w, View(fs1), lo, fr, x, m, r1)
    requires Shape(fs2, y, |fs1.code|, fs1.freereg) && y.k.VNONRELOC? && y.t == [] && y.f == []
    requires View(fs2)[..|fs1.code|] == View(fs1) && fs2.nactvar == fs1.nactvar && Untouched(fs1, fs2)
    requires Yields(w, View(fs2), |fs1.code|, fs1.freereg, y, Run(w, View(fs1), lo, m).m, r2)
    ensures var (fs', e') := CodeComp(fs2, op, cond, x, y);
            Yields(w, View(fs'), lo, fr, e', m, Compared(w, op, cond, r1.0, r2))
  {
    hide Run, PatchList, OpenList, CodeComp;
    CodeCompShape(fs1, x, fs2, y, op, cond, lo, fr);
    var (fs', e') := CodeComp(fs2, op, cond, x, y);
    RunExtend(w, View(fs1), View(fs2), lo, m);
    assert Base(View(fs'), e'.k) == View(fs2);
  }

  lemma EvalIs(w: World, x: Expr, locals: seq<Value>, tr: Trace)
    requires x.And? || x.Or? || x.Rel?
    ensures var r1 := Eval(w, x.l, locals, tr);
            var r2 := Eval(w, x.r2, locals, r1.1);
            Eval(w, x, locals, tr) ==
              if x.Rel? then Compared(w, Comparison(x.op).0, Comparison(x.op).1, r1.0, r2)
              else if Truthy(r1.0) == x.Or? then r1 else r2
  {
  }

  // ----- registers used

  lemma Exp2RegStack(fs: FS, e: ExpDesc, reg: int)
    ensures Exp2Reg(fs, e, reg).0.maxstack == fs.maxstack
  {
  }

  lemma StackGrows(fs: FS, e: ExpDesc, cond: bool)
    ensures GoIf(fs, e, cond).0.maxstack >= fs.maxstack
    ensures Exp2AnyReg(fs, e).0.maxstack >= fs.maxstack
    ensures CodeNot(fs, e).0.maxstack >= fs.maxstack
  {
    hide PatchList, Discharge2AnyReg, Exp2Reg;
    var (fs1, e1) := DischargeVars(fs, e);
    assert Discharge2AnyReg(fs1, e1).0.maxstack >= fs.maxstack by { Discharge2Stack(fs1, e1); }
    forall fs': FS, e': ExpDesc, reg: int ensures Exp2Reg(fs', e', reg).0.maxstack == fs'.maxstack {
      Exp2RegStack(fs', e', reg);
    }
  }

  lemma Discharge2Stack(fs: FS, e: ExpDesc)
    ensures Discharge2AnyReg(fs, e).0.maxstack >= fs.maxstack
  {
    hide PatchList;
  }

  lemma {:induction false} CompileStack(fs: FS, x: Expr)
    ensures Compile(fs, x).0.maxstack >= fs.maxstack
    decreases x, 1
  {
    hide PatchList, CodeNot, Exp2AnyReg, GoIf;
    match x
    case Local(_) =>
    case Global(_) =>
    case Not(y) =>
      var (fs1, e1) := Compile(fs, y);
      CompileStack(fs, y);
      StackGrows(fs1, e1, false);
    case And(_, _) => LogicStack(fs, x);
    case Or(_, _) => LogicStack(fs, x);
    case Rel(_, _, _) => RelStack(fs, x);
  }

  lemma {:induction false} LogicStack(fs: FS, x: Expr)
    requires x.And? || x.Or?
    ensures var (fs1, e1) := Compile(fs, x.l);
            var (fs2, e1') := GoIf(fs1, e1, x.Or?);
            var (fs3, e2) := Compile(fs2, x.r2);
            fs.maxstack <= fs1.maxstack <= fs2.maxstack <= fs3.maxstack == Join(fs3, e1', e2, x.Or?).0.maxstack
    decreases x, 0
  {
    hide PatchList, GoIf, Compile;
    CompileStack(fs, x.l);
    var (fs1, e1) := Compile(fs, x.l);
    StackGrows(fs1, e1, x.Or?);
    CompileStack(GoIf(fs1, e1, x.Or?).0, x.r2);
  }

  lemma {:induction false} RelStack(fs: FS, x: Expr)
    requires x.Rel?
    ensures var (fs1, e1) := Compile(fs, x.l);
            var (fs2, e1') := Exp2AnyReg(fs1, e1);
            var (fs3, e2) := Compile(fs2, x.r2);
            fs.maxstack <= fs1.maxstack <= fs2.maxstack <= fs3.maxstack <= Compile(fs, x).0.maxstack
    decreases x, 0
  {
    hide PatchList, Exp2AnyReg, Compile;
    CompileStack(fs, x.l);
    var (fs1, e1) := Compile(fs, x.l);
    StackGrows(fs1, e1, false);
    var (fs2, x1) := Exp2AnyReg(fs1, e1);
    CompileStack(fs2, x.r2);
    var (fs3, e2) := Compile(fs2, x.r2);
    CompileIs(fs, x);
    StackGrows(fs3, x1, false);
    StackGrows(Exp2AnyReg(fs3, x1).0, e2, false);
  }

  // ----- the theorem

  /** Running the code compiled for x evaluates x, starting in machine m. */
  predicate Compiled(w: World, fs: FS, x: Expr, m: Machine)
    requires 0 <= fs.nactvar <= |m.regs|
  {
    var (fs', e') := Compile(fs, x);
    Yields(w, View(fs'), |fs.code|, fs.freereg, e', m, Eval(w, x, m.regs[..fs.nactvar], m.trace))
  }

  lemma {:induction false} CompileOk(w: World, fs: FS, x: Expr, m: Machine)
    requires m.Valid() && Start(fs) && Closed(x, fs.nactvar)
    requires Compile(fs, x).0.maxstack <= |m.regs|
    ensures fs.maxstack <= |m.regs| && Compiled(w, fs, x, m)
    decreases x, 1
  {
    hide Run, PatchList, OpenList, CodeNot, Exp2AnyReg, GoIf;
    CompileStack(fs, x);
    var lo, fr := |fs.code|, fs.freereg;
    match x
    case Local(_) => LeafOk(w, fs, x, m);
    case Global(_) => LeafOk(w, fs, x, m);
    case Not(y) =>
      var (fs1, e1) := Compile(fs, y);
      StackGrows(fs1, e1, false);
      CompileShape(fs, y);
      CompileOk(w, fs, y, m);
      CodeNotOk(w, fs1, e1, lo, fr, m, Eval(w, y, m.regs[..fs.nactvar], m.trace));
    case And(_, _) => CompileLogic(w, fs, x, m);
    case Or(_, _) => CompileLogic(w, fs, x, m);
    case Rel(_, _, _) => CompileRel(w, fs, x, m);
  }

  lemma LeafOk(w: World, fs: FS, x: Expr, m: Machine)
    requires m.Valid() && Start(fs) && fs.maxstack <= |m.regs| && (x.Local? || x.Global?) && Closed(x, fs.nactvar)
    ensures Compiled(w, fs, x, m)
  {
    hide PatchList;
    assert fs.jpc + [] + [] == fs.jpc;
    RunEnd(w, View(fs), m);
  }

  lemma {:induction false} CompileLogic(w: World, fs: FS, x: Expr, m: Machine)
    requires m.Valid() && Start(fs) && Closed(x, fs.nactvar) && fs.maxstack <= |m.regs| && (x.And? || x.Or?)
    requires Compile(fs, x).0.maxstack <= |m.regs|
    ensures Compiled(w, fs, x, m)
    decreases x, 0
  {
    hide Run, PatchList, OpenList, GoIf, Compile, Eval, KindShape;
    CompileIs(fs, x);
    EvalIs(w, x, m.regs[..fs.nactvar], m.trace);
    var lo, fr, cond, locals := |fs.code|, fs.freereg, x.Or?, m.regs[..fs.nactvar];
    var (fs1, e1) := Compile(fs, x.l);
    var (fs2, e1') := GoIf(fs1, e1, cond);
    var r1 := Eval(w, x.l, locals, m.trace);
    LogicStack(fs, x);
    CompileShape(fs, x.l);
    CompileOk(w, fs, x.l, m);
    GoIfShape(fs1, e1, cond, lo, fr);
    GoIfOk(w, fs1, e1, cond, lo, fr, m, r1);
    var o := Run(w, View(fs2), lo, m);
    assert o.m.regs[..fs.nactvar] == locals;
    StartAgain(fs2, e1'.t, e1'.f, lo, fr);
    CompileOk(w, fs2, x.r2, o.m);
    SecondOperand(w, fs2, e1', x, lo, m, o.m, r1, locals);
  }

  lemma SecondOperand(w: World, fs2: FS, e1: ExpDesc, x: Expr, lo: nat, m: Machine, m1: Machine, r1: (Value, Trace),
                      locals: seq<Value>)
    requires m.Valid() && (x.And? || x.Or?) && Start(fs2) && fs2.maxstack <= |m.regs| && |m1.regs| == |m.regs|
             && Closed(x.r2, fs2.nactvar)
    requires Listed(fs2, e1.t, e1.f, lo, fs2.freereg) && (if x.Or? then e1.f else e1.t) == []
    requires Branches(w, View(fs2), lo, fs2.freereg, x.Or?, e1.t, e1.f, m, r1)
    requires m1 == Run(w, View(fs2), lo, m).m && m1.regs[..fs2.nactvar] == locals && m1.trace == r1.1
    requires Compiled(w, fs2, x.r2, m1)
    ensures var (fs3, e2) := Compile(fs2, x.r2);
            var (fs', e') := Join(fs3, e1, e2, x.Or?);
            Yields(w, View(fs'), lo, fs2.freereg, e', m, if Truthy(r1.0) == x.Or?
              then r1 else Eval(w, x.r2, locals, r1.1))
  {
    hide Run, PatchList, OpenList, Compile, Eval, KindShape;
    var cond, fr := x.Or?, fs2.freereg;
    var (fs3, e2) := Compile(fs2, x.r2);
    var r2 := Eval(w, x.r2, locals, r1.1);
    CompileShape(fs2, x.r2);
    DischargeVarsShape(fs3, e2, |fs2.code|, fr);
    DischargeVarsOk(w, fs3, e2, |fs2.code|, fr, m1, r2);
    JoinedShape(fs2, e1, fs3, e2, cond, lo, fr);
    var (fs4, e2') := DischargeVars(fs3, e2);
    JoinOk(w, fs2, if cond then e1.t else e1.f, fs4, e2', cond, lo, fr, m, r1, if Truthy(r1.0) == cond then r1 else r2);
  }

  lemma {:induction false} CompileRel(w: World, fs: FS, x: Expr, m: Machine)
    requires m.Valid() && Start(fs) && Closed(x, fs.nactvar) && fs.maxstack <= |m.regs| && x.Rel?
    requires Compile(fs, x).0.maxstack <= |m.regs|
    ensures Compiled(w, fs, x, m)
    decreases x, 0
  {
    hide Run, PatchList, OpenList, Exp2AnyReg, Compile, Eval, KindShape, CodeComp;
    CompileIs(fs, x);
    EvalIs(w, x, m.regs[..fs.nactvar], m.trace);
    RelStack(fs, x);
    var lo, fr, locals := |fs.code|, fs.freereg, m.regs[..fs.nactvar];
    var (op, cond) := Comparison(x.op);
    var (fs1, e1) := Compile(fs, x.l);
    var (fs2, x1) := Exp2AnyReg(fs1, e1);
    var (fs3, e2) := Compile(fs2, x.r2);
    var r1 := Eval(w, x.l, locals, m.trace);
    CompileShape(fs, x.l);
    CompileOk(w, fs, x.l, m);
    Exp2AnyRegShape(fs1, e1, lo, fr);
    Exp2AnyRegOk(w, fs1, e1, lo, fr, m, r1);
    var o := Run(w, View(fs2), lo, m);
    assert o.m.regs[..fs.nactvar] == locals;
    HeldStart(fs2, x1, lo, fr);
    CompileShape(fs2, x.r2);
    CompileOk(w, fs2, x.r2, o.m);
    var r2 := Eval(w, x.r2, locals, r1.1);
    CodeCompIs(fs3, op, cond, x1, e2);
    Exp2AnyRegShape(fs3, e2, |fs2.code|, fs2.freereg);
    Exp2AnyRegOk(w, fs3, e2, |fs2.code|, fs2.freereg, o.m, r2);
    var (fs4, y) := Exp2AnyReg(fs3, e2);
    CompareOk(w, fs2, x1, fs4, y, op, cond, lo, fr, m, r1, r2);
  }

  /** The value of x, wherever luaK_exp2reg is told to put it. */
  lemma LandedCorrect(w: World, fs: FS, x: Expr, reg: int, fr': int, mx: int, m: Machine)
    requires m.Valid() && Start(fs) && Closed(x, fs.nactvar) && 0 <= reg < |m.regs|
    requires fs.maxstack <= |m.regs| && Compile(fs, x).0.maxstack <= |m.regs|
    ensures var (fs1, e) := Compile(fs, x);
            var (fs2, e2) := DischargeVars(fs1, e);
            var fs' := Exp2Reg(fs2.(freereg := fr', maxstack := mx), e2, reg).0;
            && Holds(w, View(fs'), |fs.code|, fs.freereg, reg, m, Eval(w, x, m.regs[..fs.nactvar], m.trace))
            && Settled(fs', |fs.code|) && View(fs')[..|fs.code|] == View(fs)
            && fs' == fs.(code := fs'.code, jpc := fs'.jpc, freereg := fr', maxstack := mx)
  {
    hide Run, PatchList, OpenList, Compile, Exp2Reg, Eval, KindShape;
    var lo, fr := |fs.code|, fs.freereg;
    var (fs1, e) := Compile(fs, x);
    var r := Eval(w, x, m.regs[..fs.nactvar], m.trace);
    var (fs2, e2) := DischargeVars(fs1, e);
    CompileShape(fs, x);
    CompileOk(w, fs, x, m);
    DischargeVarsShape(fs1, e, lo, fr);
    DischargeVarsOk(w, fs1, e, lo, fr, m, r);
    Exp2RegShape(fs2, e2, reg, lo, fr, fr', mx);
    Exp2RegOk(w, fs2, e2, reg, lo, fr, fr', mx, m, r);
    assert View(fs2)[..lo] == View(fs1)[..lo];
  }

  /** luaK_storevar to a local variable: compile x, then put its value into reg. */
  function StoreLocal(fs: FS, x: Expr, reg: int): FS {
    var (fs1, e) := Compile(fs, x);
    Exp2Reg(FreeExp(fs1, e), e, reg).0
  }

  /** For every expression, every world and every machine with the registers that the code has
      reserved, and maybe no others: put the code for x in place and run it, and reg holds the
      value Lua gives x; the outside world saw exactly the evaluation of x, in order; no register
      in use changed but reg. */
  lemma AssignmentCorrect(w: World, fs: FS, x: Expr, reg: int, m: Machine)
    requires m.Valid() && Start(fs) && Closed(x, fs.nactvar) && 0 <= reg < |m.regs|
    requires fs.maxstack <= |m.regs| && StoreLocal(fs, x, reg).maxstack <= |m.regs|
    ensures var fs' := StoreLocal(fs, x, reg);
            var o := Run(w, View(fs'), |fs.code|, m);
            var (v, tr) := Eval(w, x, m.regs[..fs.nactvar], m.trace);
            && o.Fall? && o.m.Get(reg) == v && o.m.trace == tr
            && (forall i :: 0 <= i < fs.freereg && i != reg ==> o.m.Get(i) == m.Get(i))
            && fs'.freereg == fs.freereg && View(fs')[..|fs.code|] == View(fs)
  {
    hide Run, PatchList, OpenList, Compile, Eval;
    var (fs1, e) := Compile(fs, x);
    CompileShape(fs, x);
    var (fs2, e2) := DischargeVars(fs1, e);
    DischargeVarsShape(fs1, e, |fs.code|, fs.freereg);
    var fs3 := FreeExp(fs1, e);
    assert DischargeVars(fs3, e) == (fs2.(freereg := fs.freereg, maxstack := fs1.maxstack), e2);
    Exp2RegStack(fs3, e, reg);
    LandedCorrect(w, fs, x, reg, fs.freereg, fs1.maxstack, m);
  }

  /** The same for luaK_exp2nextreg, which local declarations and call arguments use: the
      value lands in the first free register, which becomes occupied. */
  lemma DeclarationCorrect(w: World, fs: FS, x: Expr, m: Machine)
    requires m.Valid() && Start(fs) && Closed(x, fs.nactvar) && fs.maxstack <= |m.regs|
    requires var (fs1, e) := Compile(fs, x); Exp2NextReg(fs1, e).0.maxstack <= |m.regs|
    ensures var (fs1, e) := Compile(fs, x);
            var fs' := Exp2NextReg(fs1, e).0;
            var o := Run(w, View(fs'), |fs.code|, m);
            var (v, tr) := Eval(w, x, m.regs[..fs.nactvar], m.trace);
            && o.Fall? && o.m.Get(fs.freereg) == v && o.m.trace == tr
            && (forall i :: 0 <= i < fs.freereg ==> o.m.Get(i) == m.Get(i))
            && fs'.freereg == fs.freereg + 1 && View(fs')[..|fs.code|] == View(fs)
  {
    hide Run, PatchList, OpenList, Compile, Eval, Exp2Reg;
    var (fs1, e) := Compile(fs, x);
    CompileShape(fs, x);
    var (fs2, e2) := DischargeVars(fs1, e);
    DischargeVarsShape(fs1, e, |fs.code|, fs.freereg);
    var fs3 := Reserve(FreeExp(fs2, e2), 1);
    assert fs3 == fs2.(freereg := fs.freereg + 1, maxstack := fs3.maxstack);
    Exp2RegStack(fs3, e2, fs.freereg);
    LandedCorrect(w, fs, x, fs.freereg, fs.freereg + 1, fs3.maxstack, m);
  }
}
