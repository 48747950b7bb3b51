/** The code generator on explicit lists: what each operation of lcode.c does, with the jump
    lists kept beside the code, and the meaning of the expressions it compiles. */
module CodeGen {
  import opened Common
  import opened Opcodes

  // ----- source expressions and their meaning

  datatype RelOp = Equal | NotEqual | Less | LessEqual | Greater | GreaterEqual

  datatype Expr =
    | Local(r: nat)
    | Global(n: nat)
    | Not(x: Expr)
    | And(l: Expr, r2: Expr)
    | Or(l: Expr, r2: Expr)
    | Rel(op: RelOp, l: Expr, r2: Expr)

  /** Lua's value of x, and the trace of what evaluating it did: `and` and `or` return one of
      their operands and evaluate the second one only if needed; `a > b` means `b < a`. */
  function Eval(w: World, x: Expr, locals: seq<Value>, tr: Trace): (Value, Trace) {
    match x
    case Local(r) => (if r < |locals| then locals[r] else Nil, tr)
    case Global(n) => (w.read(n, tr), tr + [ReadGlobal(n)])
    case Not(y) => var (v, tr1) := Eval(w, y, locals, tr); (Bool(!Truthy(v)), tr1)
    case And(l, r) => var (v, tr1) := Eval(w, l, locals, tr); if Truthy(v) then Eval(w, r, locals, tr1) else (v, tr1)
    case Or(l, r) => var (v, tr1) := Eval(w, l, locals, tr); if Truthy(v) then (v, tr1) else Eval(w, r, locals, tr1)
    case Rel(op, l, r) =>
      var (v1, tr1) := Eval(w, l, locals, tr);
      var (v2, tr2) := Eval(w, r, locals, tr1);
      match op
      case Equal => (Bool(w.compare(EQ, v1, v2, tr2)), tr2 + [Compare(EQ, v1, v2)])
      case NotEqual => (Bool(!w.compare(EQ, v1, v2, tr2)), tr2 + [Compare(EQ, v1, v2)])
      case Less => (Bool(w.compare(LT, v1, v2, tr2)), tr2 + [Compare(LT, v1, v2)])
      case LessEqual => (Bool(w.compare(LE, v1, v2, tr2)), tr2 + [Compare(LE, v1, v2)])
      case Greater => (Bool(w.compare(LT, v2, v1, tr2)), tr2 + [Compare(LT, v2, v1)])
      case GreaterEqual => (Bool(w.compare(LE, v2, v1, tr2)), tr2 + [Compare(LE, v2, v1)])
  }

  /** Locals of x lie below n. */
  predicate Closed(x: Expr, n: int) {
    match x
    case Local(r) => r < n
    case Global(_) => true
    case Not(y) => Closed(y, n)
    case And(l, r) => Closed(l, n) && Closed(r, n)
    case Or(l, r) => Closed(l, n) && Closed(r, n)
    case Rel(_, l, r) => Closed(l, n) && Closed(r, n)
  }

  // ----- patching

  predicate IsValueJump(code: seq<Instr>, j: nat) {
    1 <= j <= |code| && code[j - 1].TESTSET?
  }

  predicate OpenJump(code: seq<Instr>, j: nat) {
    j < |code| && code[j] == JMP(NO_JUMP) && (IsValueJump(code, j) ==> code[j - 1].a == NO_REG)
  }

  predicate OpenList(code: seq<Instr>, s: seq<nat>) {
    (forall i :: 0 <= i < |s| ==> OpenJump(code, s[i])) && Distinct(s)
  }

  function PatchedTest(i: Instr, reg: int): Instr
    requires i.TESTSET?
  {
    if reg != NO_REG && reg != i.b then TESTSET(reg, i.b, i.cond) else TEST(i.b, i.cond)
  }

  function PatchControl(code: seq<Instr>, j: nat, reg: int): (r: seq<Instr>)
    ensures |r| == |code|
  {
    if IsValueJump(code, j) then code[j - 1 := PatchedTest(code[j - 1], reg)] else code
  }

  function FixJump(code: seq<Instr>, j: nat, dest: int): (r: seq<Instr>)
    ensures |r| == |code|
  {
    if j < |code| then code[j := JMP(dest - (j + 1))] else code
  }

  function PatchJump(code: seq<Instr>, j: nat, vtarget: nat, reg: int, dtarget: nat): (r: seq<Instr>)
    ensures |r| == |code|
  {
    FixJump(PatchControl(code, j, reg), j, if IsValueJump(code, j) then vtarget else dtarget)
  }

  function PatchList(code: seq<Instr>, s: seq<nat>, vtarget: nat, reg: int, dtarget: nat): (r: seq<Instr>)
    ensures |r| == |code|
    decreases |s|
  {
    if s == [] then code
    else PatchList(PatchJump(code, s[0], vtarget, reg, dtarget), s[1..], vtarget, reg, dtarget)
  }

  function RemoveValues(code: seq<Instr>, s: seq<nat>): (r: seq<Instr>)
    ensures |r| == |code|
    decreases |s|
  {
    if s == [] then code else RemoveValues(PatchControl(code, s[0], NO_REG), s[1..])
  }

  predicate NeedValue(code: seq<Instr>, s: seq<nat>) {
    exists i :: 0 <= i < |s| && !IsValueJump(code, s[i])
  }

  // ----- the code generator

  datatype FS = FS(code: seq<Instr>, jpc: seq<nat>, freereg: int, nactvar: int, maxstack: int)

  datatype Kind = VLOCAL(reg: int) | VGLOBAL(info: nat) | VJMP(info: nat) | VRELOCABLE(info: nat) | VNONRELOC(reg: int)

  datatype ExpDesc = ExpDesc(k: Kind, t: seq<nat>, f: seq<nat>)

  function View(fs: FS): (c: seq<Instr>)
    ensures |c| == |fs.code|
  {
    PatchList(fs.code, fs.jpc, |fs.code|, NO_REG, |fs.code|)
  }

  function Emit(fs: FS, i: Instr): FS {
    fs.(code := View(fs) + [i], jpc := [])
  }

  function EmitJump(fs: FS): (FS, seq<nat>) {
    (fs.(code := fs.code + [JMP(NO_JUMP)], jpc := []), [|fs.code|] + fs.jpc)
  }

  function PatchToHere(fs: FS, s: seq<nat>): FS {
    fs.(jpc := fs.jpc + s)
  }

  function Reserve(fs: FS, n: nat): FS {
    fs.(freereg := fs.freereg + n, maxstack := if fs.maxstack < fs.freereg + n then fs.freereg + n else fs.maxstack)
  }

  function FreeExp(fs: FS, e: ExpDesc): FS {
    if e.k.VNONRELOC? && e.k.reg >= fs.nactvar then fs.(freereg := fs.freereg - 1) else fs
  }

  function DischargeVars(fs: FS, e: ExpDesc): (FS, ExpDesc) {
    match e.k
    case VLOCAL(r) => (fs, e.(k := VNONRELOC(r)))
    case VGLOBAL(n) => (Emit(fs, GETGLOBAL(0, n)), e.(k := VRELOCABLE(|fs.code|)))
    case _ => (fs, e)
  }

  function SetA(code: seq<Instr>, i: nat, reg: int): (r: seq<Instr>)
    ensures |r| == |code|
  {
    if i >= |code| then code
    else match code[i]
      case NOT(_, b) => code[i := NOT(reg, b)]
      case GETGLOBAL(_, n) => code[i := GETGLOBAL(reg, n)]
      case _ => code
  }

  function Discharge2Reg(fs: FS, e: ExpDesc, reg: int): (FS, ExpDesc) {
    var (fs1, e1) := DischargeVars(fs, e);
    match e1.k
    case VRELOCABLE(i) => (fs1.(code := SetA(fs1.code, i, reg)), e1.(k := VNONRELOC(reg)))
    case VNONRELOC(r) => (if reg != r then Emit(fs1, MOVE(reg, r)) else fs1, e1.(k := VNONRELOC(reg)))
    case _ => (fs1, e1)
  }

  function Discharge2AnyReg(fs: FS, e: ExpDesc): (FS, ExpDesc) {
    if e.k.VNONRELOC? then (fs, e)
    else var fs1 := Reserve(fs, 1); Discharge2Reg(fs1, e, fs1.freereg - 1)
  }

  function Exp2Reg(fs: FS, e: ExpDesc, reg: int): (FS, ExpDesc) {
    var (fs1, e1) := Discharge2Reg(fs, e, reg);
    var t := if e1.k.VJMP? then e1.t + [e1.k.info] else e1.t;
    (if t == [] && e1.f == [] then fs1 else LandJumps(fs1, e1.k.VJMP?, t, e1.f, reg),
     ExpDesc(VNONRELOC(reg), [], []))
  }

  /** Lands the jumps of an expression whose remaining value is in reg (or, for a
      comparison, is false): on the end if they carry the value, else on a load of the
      boolean they stand for. */
  function LandJumps(fs: FS, isJump: bool, t: seq<nat>, f: seq<nat>, reg: int): FS {
    if NeedValue(fs.code, t) || NeedValue(fs.code, f) then
      var (fs1, fj) := if isJump then (fs, []) else EmitJump(fs);
      var pf := |fs1.code|;
      var fs2 := Emit(fs1, LOADBOOL(reg, false, true));
      var fs3 := Emit(fs2, LOADBOOL(reg, true, false));
      LandAt(PatchToHere(fs3, fj), t, f, reg, pf, pf + 1)
    else
      LandAt(fs, t, f, reg, 0, 0)
  }

  function LandAt(fs: FS, t: seq<nat>, f: seq<nat>, reg: int, pf: nat, pt: nat): FS {
    var final := |fs.code|;
    fs.(code := PatchList(PatchList(fs.code, f, final, reg, pf), t, final, reg, pt))
  }

  function Exp2NextReg(fs: FS, e: ExpDesc): (FS, ExpDesc) {
    var (fs1, e1) := DischargeVars(fs, e);
    var fs2 := Reserve(FreeExp(fs1, e1), 1);
    Exp2Reg(fs2, e1, fs2.freereg - 1)
  }

  function Exp2AnyReg(fs: FS, e: ExpDesc): (FS, ExpDesc) {
    var (fs1, e1) := DischargeVars(fs, e);
    if e1.k.VNONRELOC? && e1.t == [] && e1.f == [] then (fs1, e1)
    else if e1.k.VNONRELOC? && e1.k.reg >= fs.nactvar then Exp2Reg(fs1, e1, e1.k.reg)
    else Exp2NextReg(fs1, e1)
  }

  function CondJump(fs: FS, i: Instr): (FS, seq<nat>) {
    EmitJump(Emit(fs, i))
  }

  function JumpOnCond(fs: FS, e: ExpDesc, cond: bool): (FS, seq<nat>) {
    if e.k.VRELOCABLE? && e.k.info < |fs.code| && fs.code[e.k.info].NOT? then
      CondJump(fs.(code := fs.code[..e.k.info]), TEST(fs.code[e.k.info].b, !cond))
    else
      var (fs1, e1) := Discharge2AnyReg(fs, e);
      CondJump(FreeExp(fs1, e1), TESTSET(NO_REG, if e1.k.VNONRELOC? then e1.k.reg else 0, cond))
  }

  function InvertJump(code: seq<Instr>, j: nat): (r: seq<Instr>)
    ensures |r| == |code|
  {
    if 1 <= j <= |code| && code[j - 1].CMP? then code[j - 1 := code[j - 1].(accept := !code[j - 1].accept)] else code
  }

  /** luaK_goiftrue (cond false: leave when the value is false, else go on) and
      luaK_goiffalse (cond true). */
  function GoIf(fs: FS, e: ExpDesc, cond: bool): (FS, ExpDesc) {
    var (fs1, e1) := DischargeVars(fs, e);
    var (fs2, j) := if e1.k.VJMP?
      then (if cond then fs1 else fs1.(code := InvertJump(fs1.code, e1.k.info)), [e1.k.info])
                    else JumpOnCond(fs1, e1, cond);
    if cond then (PatchToHere(fs2, e1.f), e1.(t := e1.t + j, f := []))
    else (PatchToHere(fs2, e1.t), e1.(f := e1.f + j, t := []))
  }

  function CodeNot(fs: FS, e: ExpDesc): (FS, ExpDesc) {
    var (fs1, e1) := DischargeVars(fs, e);
    var (fs2, e2) :=
      if e1.k.VJMP? then (fs1.(code := InvertJump(fs1.code, e1.k.info)), e1)
      else
        var (fsr, er) := Discharge2AnyReg(fs1, e1);
        var fsf := FreeExp(fsr, er);
        (Emit(fsf, NOT(0, if er.k.VNONRELOC? then er.k.reg else 0)), er.(k := VRELOCABLE(|fsf.code|)));
    (fs2.(code := RemoveValues(RemoveValues(fs2.code, e2.t), e2.f)), e2.(t := e2.f, f := e2.t))
  }

  /** Second half of luaK_posfix for `and` (cond false) and `or` (cond true). */
  function Join(fs: FS, e1: ExpDesc, e2: ExpDesc, cond: bool): (FS, ExpDesc) {
    var (fs1, e) := DischargeVars(fs, e2);
    (fs1, if cond then e.(t := e.t + e1.t) else e.(f := e.f + e1.f))
  }

  function Comparison(op: RelOp): (CmpOp, bool) {
    match op
    case Equal => (EQ, true)
    case NotEqual => (EQ, false)
    case Less => (LT, true)
    case LessEqual => (LE, true)
    case Greater => (LT, false)
    case GreaterEqual => (LE, false)
  }

  function CodeComp(fs: FS, op: CmpOp, cond: bool, e1: ExpDesc, e2: ExpDesc): (FS, ExpDesc) {
    var (fs1, x) := Exp2AnyReg(fs, e1);
    var (fs2, y) := Exp2AnyReg(fs1, e2);
    var fs3 := FreeExp(FreeExp(fs2, y), x);
    var o1, o2 := if x.k.VNONRELOC? then x.k.reg else 0, if y.k.VNONRELOC? then y.k.reg else 0;
    var i := if !cond && op != EQ then CMP(op, true, o2, o1) else CMP(op, cond, o1, o2);
    var (fs4, j) := CondJump(fs3, i);
    (fs4, ExpDesc(VJMP(j[0]), x.t, x.f))
  }

  function Compile(fs: FS, x: Expr): (FS, ExpDesc)
    decreases x
  {
    match x
    case Local(r) => (fs, ExpDesc(VLOCAL(r), [], []))
    case Global(n) => (fs, ExpDesc(VGLOBAL(n), [], []))
    case Not(y) => var (fs1, e) := Compile(fs, y); CodeNot(fs1, e)
    case And(l, r) =>
      var (fs1, e1) := Compile(fs, l);
      var (fs2, e1') := GoIf(fs1, e1, false);
      var (fs3, e2) := Compile(fs2, r);
      Join(fs3, e1', e2, false)
    case Or(l, r) =>
      var (fs1, e1) := Compile(fs, l);
      var (fs2, e1') := GoIf(fs1, e1, true);
      var (fs3, e2) := Compile(fs2, r);
      Join(fs3, e1', e2, true)
    case Rel(op, l, r) =>
      var (fs1, e1) := Compile(fs, l);
      var (fs2, e1') := Exp2AnyReg(fs1, e1);
      var (fs3, e2) := Compile(fs2, r);
      CodeComp(fs3, Comparison(op).0, Comparison(op).1, e1', e2)
  }
}
