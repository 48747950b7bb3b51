/** How much code and how many registers an expression needs at most, and that neither ever
    shrinks on the way: an operation that exceeds a limit of the code generator exceeds it for
    the whole expression. */
module CodeGenLimits {
  import opened Opcodes
  import opened CodeGen
  import opened CodeGenShape
  import opened CodeGenCorrect

  /** fs' has at most n more instructions than fs and uses no more registers, or at most top. */
  predicate Grows(fs: FS, fs': FS, n: nat, top: int) {
    && |fs.code| <= |fs'.code| <= |fs.code| + n
    && fs.maxstack <= fs'.maxstack && (fs'.maxstack == fs.maxstack || fs'.maxstack <= top)
  }

  lemma VarsGrow(fs: FS, e: ExpDesc, top: int)
    ensures Grows(fs, DischargeVars(fs, e).0, 1, top)
  {
    hide PatchList;
  }

  /** exp2reg: a move, a jump over two loads. */
  lemma Exp2RegGrows(fs: FS, e: ExpDesc, reg: int, top: int)
    ensures Grows(fs, Discharge2Reg(fs, e, reg).0, 2, top)
    ensures Grows(Discharge2Reg(fs, e, reg).0, Exp2Reg(fs, e, reg).0, 3, top)
    ensures Grows(fs, Exp2Reg(fs, e, reg).0, 5, top)
  {
    hide PatchList;
  }

  lemma HeldGrows(fs: FS, e: ExpDesc, lo: nat, fr: int)
    requires KindShape(fs, e, lo, fr) && (e.k.VNONRELOC? || e.k.VRELOCABLE?) && fs.freereg <= fs.maxstack
    ensures Grows(fs, Discharge2AnyReg(fs, e).0, 0, fr + 1)
  {
    hide PatchList;
  }

  lemma AnyRegGrows(fs: FS, e: ExpDesc, lo: nat, fr: int)
    requires Shape(fs, e, lo, fr)
    ensures Grows(DischargeVars(fs, e).0, Exp2AnyReg(fs, e).0, 5, fr + 1) && Grows(fs, Exp2AnyReg(fs, e).0, 6, fr + 1)
  {
    hide PatchList, Exp2Reg;
    DischargeVarsShape(fs, e, lo, fr);
    VarsGrow(fs, e, fr + 1);
    var (fs1, e1) := DischargeVars(fs, e);
    if !(e1.k.VNONRELOC? && e1.t == [] && e1.f == []) {
      Exp2AnyRegIs(fs1, e1, lo, fr);
      assert Exp2AnyReg(fs, e) == Exp2AnyReg(fs1, e1);
      var mx := if fs1.maxstack < fr + 1 then fr + 1 else fs1.maxstack;
      Exp2RegGrows(fs1.(freereg := fr + 1, maxstack := mx), e1, fr, fr + 1);
    }
  }

  /** A conditional jump takes two instructions, and may take back a NOT. */
  lemma JumpGrows(fs: FS, e: ExpDesc, cond: bool, lo: nat, fr: int)
    requires Shape(fs, e, lo, fr) && (e.k.VNONRELOC? || e.k.VRELOCABLE?)
    ensures Grows(fs, JumpOnCond(fs, e, cond).0, 2, fr + 1)
    ensures e.k.VNONRELOC? || !fs.code[e.k.info].NOT? ==>
            Grows(Discharge2AnyReg(fs, e).0, JumpOnCond(fs, e, cond).0, 2, fr + 1)
  {
    hide PatchList, Discharge2AnyReg;
    HeldGrows(fs, e, lo, fr);
  }

  lemma GoIfGrows(fs: FS, e: ExpDesc, cond: bool, lo: nat, fr: int)
    requires Shape(fs, e, lo, fr)
    ensures var (fs1, e1) := DischargeVars(fs, e);
            && Grows(fs1, Branch(fs1, e1, cond), 2, fr + 1)
               && Grows(Branch(fs1, e1, cond), GoIf(fs, e, cond).0, 0, fr + 1)
            && Grows(fs, GoIf(fs, e, cond).0, 3, fr + 1)
  {
    hide PatchList, JumpOnCond;
    DischargeVarsShape(fs, e, lo, fr);
    VarsGrow(fs, e, fr + 1);
    var (fs1, e1) := DischargeVars(fs, e);
    if !e1.k.VJMP? { JumpGrows(fs1, e1, cond, lo, fr); }
  }

  lemma CodeNotGrows(fs: FS, e: ExpDesc, lo: nat, fr: int)
    requires Shape(fs, e, lo, fr)
    ensures var (fs1, e1) := DischargeVars(fs, e);
            && Grows(fs1, CodeNot(fs, e).0, 1, fr + 1) && Grows(fs, CodeNot(fs, e).0, 2, fr + 1)
            && (!e1.k.VJMP? ==> Grows(Negate(fs1, e1).0, CodeNot(fs, e).0, 0, fr + 1))
  {
    hide PatchList, RemoveValues, Discharge2AnyReg;
    DischargeVarsShape(fs, e, lo, fr);
    VarsGrow(fs, e, fr + 1);
    var (fs1, e1) := DischargeVars(fs, e);
    CodeNotIs(fs, e);
    if !e1.k.VJMP? { HeldGrows(fs1, e1, lo, fr); }
  }

  /** A comparison whose first operand is in a register already. */
  lemma CodeCompGrows(fs: FS, op: CmpOp, cond: bool, x: ExpDesc, e: ExpDesc, lo: nat, fr: int)
    requires Shape(fs, e, lo, fr) && x.k.VNONRELOC? && x.t == [] && x.f == []
    ensures Grows(Exp2AnyReg(fs, e).0, CodeComp(fs, op, cond, x, e).0, 2, fr + 1)
    ensures |CodeComp(fs, op, cond, x, e).0.code| == |Exp2AnyReg(fs, e).0.code| + 2
    ensures Grows(fs, CodeComp(fs, op, cond, x, e).0, 8, fr + 1)
  {
    hide PatchList, Exp2Reg;
    AnyRegGrows(fs, e, lo, fr);
    assert Exp2AnyReg(fs, x) == (fs, x);
  }

  // ----- whole expressions

  function Size(x: Expr): nat {
    match x
    case Local(_) => 1
    case Global(_) => 1
    case Not(y) => 1 + Size(y)
    case And(l, r) => 1 + Size(l) + Size(r)
    case Or(l, r) => 1 + Size(l) + Size(r)
    case Rel(_, l, r) => 1 + Size(l) + Size(r)
  }

  function Max(i: nat, j: nat): nat {
    if i < j then j else i
  }

  function Depth(x: Expr): nat {
    match x
    case Local(_) => 1
    case Global(_) => 1
    case Not(y) => 1 + Depth(y)
    case And(l, r) => 1 + Max(Depth(l), Depth(r))
    case Or(l, r) => 1 + Max(Depth(l), Depth(r))
    case Rel(_, l, r) => 1 + Max(Depth(l), Depth(r))
  }

  /** Instructions that one operator takes at most. */
  const PER_NODE: nat := 14

  lemma {:induction false} CompileGrows(fs: FS, x: Expr)
    requires Start(fs) && Closed(x, fs.nactvar)
    ensures Grows(fs, Compile(fs, x).0, PER_NODE * Size(x), fs.freereg + Depth(x))
    decreases x, 1
  {
    hide PatchList, OpenList, CodeNot, Exp2AnyReg, GoIf;
    match x
    case Local(_) =>
    case Global(_) =>
    case Not(y) =>
      CompileGrows(fs, y);
      CompileShape(fs, y);
      CodeNotGrows(Compile(fs, y).0, Compile(fs, y).1, |fs.code|, fs.freereg);
    case And(_, _) => LogicGrows(fs, x);
    case Or(_, _) => LogicGrows(fs, x);
    case Rel(_, _, _) => RelGrows(fs, x);
  }

  lemma {:induction false} LogicGrows(fs: FS, x: Expr)
    requires Start(fs) && Closed(x, fs.nactvar) && (x.And? || x.Or?)
    ensures var (fs1, e1) := Compile(fs, x.l);
            var (fs2, e1') := GoIf(fs1, e1, x.Or?);
            var (fs3, e2) := Compile(fs2, x.r2);
            && Grows(fs1, Compile(fs, x).0, 4 + PER_NODE * Size(x.r2), fs.freereg + Depth(x))
            && Grows(fs2, Compile(fs, x).0, 1 + PER_NODE * Size(x.r2), fs.freereg + Depth(x))
            && Grows(fs3, Compile(fs, x).0, 1, fs.freereg + Depth(x))
            && Grows(fs, Compile(fs, x).0, PER_NODE * Size(x), fs.freereg + Depth(x))
    decreases x, 0
  {
    hide PatchList, OpenList, GoIf, Compile, KindShape;
    var lo, fr, top := |fs.code|, fs.freereg, fs.freereg + Depth(x);
    CompileIs(fs, x);
    CompileShape(fs, x.l);
    CompileGrows(fs, x.l);
    var (fs1, e1) := Compile(fs, x.l);
    GoIfShape(fs1, e1, x.Or?, lo, fr);
    GoIfGrows(fs1, e1, x.Or?, lo, fr);
    var (fs2, e1') := GoIf(fs1, e1, x.Or?);
    StartAgain(fs2, e1'.t, e1'.f, lo, fr);
    CompileGrows(fs2, x.r2);
    var (fs3, e2) := Compile(fs2, x.r2);
    VarsGrow(fs3, e2, top);
  }

  lemma {:induction false} RelGrows(fs: FS, x: Expr)
    requires Start(fs) && Closed(x, fs.nactvar) && x.Rel?
    ensures var (fs1, e1) := Compile(fs, x.l);
            var (fs2, e1') := Exp2AnyReg(fs1, e1);
            var (fs3, e2) := Compile(fs2, x.r2);
            && Grows(fs1, Compile(fs, x).0, 14 + PER_NODE * Size(x.r2), fs.freereg + Depth(x))
            && Grows(fs2, Compile(fs, x).0, 8 + PER_NODE * Size(x.r2), fs.freereg + Depth(x))
            && Grows(fs3, Compile(fs, x).0, 8, fs.freereg + Depth(x))
            && Grows(fs, Compile(fs, x).0, PER_NODE * Size(x), fs.freereg + Depth(x))
    decreases x, 0
  {
    hide PatchList, OpenList, Exp2AnyReg, Compile, CodeComp;
    var lo, fr := |fs.code|, fs.freereg;
    var (op, cond) := Comparison(x.op);
    CompileIs(fs, x);
    CompileShape(fs, x.l);
    CompileGrows(fs, x.l);
    var (fs1, e1) := Compile(fs, x.l);
    Exp2AnyRegShape(fs1, e1, lo, fr);
    AnyRegGrows(fs1, e1, lo, fr);
    var (fs2, x1) := Exp2AnyReg(fs1, e1);
    HeldStart(fs2, x1, lo, fr);
    CompileShape(fs2, x.r2);
    CompileGrows(fs2, x.r2);
    var (fs3, e2) := Compile(fs2, x.r2);
    CodeCompGrows(fs3, op, cond, x1, e2, |fs2.code|, fs2.freereg);
    DepthPositive(x.r2);
  }

  lemma DepthPositive(x: Expr)
    ensures Depth(x) >= 1 && Size(x) >= 1
  {
  }

  /** What an assignment to a local needs at most, from its expression alone. */
  lemma StoreGrows(fs: FS, x: Expr, reg: int)
    requires Start(fs) && Closed(x, fs.nactvar)
    ensures Grows(fs, StoreLocal(fs, x, reg), PER_NODE * Size(x) + 5, fs.freereg + Depth(x))
    ensures Grows(Compile(fs, x).0, StoreLocal(fs, x, reg), 5, fs.freereg + Depth(x))
  {
    hide PatchList, OpenList, Compile, Exp2Reg;
    CompileGrows(fs, x);
    var (fs1, e) := Compile(fs, x);
    Exp2RegGrows(FreeExp(fs1, e), e, reg, fs.freereg + Depth(x));
  }

  lemma StoreFits(fs: FS, x: Expr, reg: int)
    requires Start(fs) && Closed(x, fs.nactvar) && fs.maxstack < MAXSTACK
    ensures fs.freereg + Depth(x) < MAXSTACK ==> StoreLocal(fs, x, reg).maxstack < MAXSTACK
    ensures |fs.code| + PER_NODE * Size(x) + 5 <= MAXARG_SBX ==> |StoreLocal(fs, x, reg).code| <= MAXARG_SBX
  {
    hide StoreLocal, Start, Closed, Compile, Size, Depth;
    StoreGrows(fs, x, reg);
  }
}
