/** The slice of the Lua 5.1 virtual machine that expression code uses: the instructions,
    with the meaning documented beside each opcode, executed on a register file.

    A jump whose offset is NO_JUMP has not been given a destination yet.  Execution that
    reaches such a jump leaves the fragment there, so that code under construction
    already has a meaning. */
module Opcodes {
  import opened Common

  datatype Value = Nil | Bool(b: bool) | Other(id: nat)

  predicate Truthy(v: Value) {
    v != Nil && v != Bool(false)
  }

  datatype CmpOp = EQ | LT | LE

  /** What an observer outside the registers sees: table reads and comparisons may run
      user code, so they are logged, in order, with their operands. */
  datatype Event = ReadGlobal(name: nat) | Compare(op: CmpOp, x: Value, y: Value)

  type Trace = seq<Event>

  /** Answers of the outside world.  They may depend on everything that happened before. */
  datatype World = World(read: (nat, Trace) -> Value,
                         compare: (CmpOp, Value, Value, Trace) -> bool)

  datatype Instr =
    | MOVE(a: int, b: int)
    | LOADBOOL(a: int, flag: bool, skip: bool)
    | GETGLOBAL(a: int, bx: nat)
    | NOT(a: int, b: int)
    | JMP(sbx: int)
    | CMP(op: CmpOp, accept: bool, b: int, c: int)
    | TEST(a: int, cond: bool)
    | TESTSET(a: int, b: int, cond: bool)

  /** End of a patch list: the offset of a jump to itself. */
  const NO_JUMP: int := -1
  /** Invalid register that fits the 8-bit field A. */
  const NO_REG: int := 255
  /** Limit on the registers of one function. */
  const MAXSTACK: nat := 250
  const MAXARG_SBX: int := 131071

  /** Instructions that skip the next one, which is always a jump. */
  predicate IsTest(i: Instr) {
    i.CMP? || i.TEST? || i.TESTSET?
  }

  datatype Machine = Machine(regs: seq<Value>, trace: Trace) {
    /** A frame of any size.  A function runs in as many registers as its maxstacksize says, so
        code must not count on registers beyond those it has reserved. */
    predicate Valid() { |regs| <= MAXSTACK }

    function Get(r: int): Value {
      if 0 <= r < |regs| then regs[r] else Nil
    }

    /** Writing outside the frame has no effect, and so has writing NO_REG. */
    function Set(r: int, v: Value): (m: Machine)
      ensures |m.regs| == |regs| && m.trace == trace
      ensures forall i: nat :: i < |regs| ==> m.regs[i] == if i == r then v else regs[i]
    {
      if 0 <= r < |regs| then this.(regs := regs[r := v]) else this
    }

    function Log(e: Event): Machine {
      this.(trace := trace + [e])
    }
  }

  datatype StepResult = Next(pc: nat, m: Machine) | Leave(at: nat, val: Option<Value>, m: Machine) | Bad

  /** Executes the jump at j.  val is what a TESTSET in front of it offers as its value. */
  function Jump(code: seq<Instr>, j: nat, val: Option<Value>, m: Machine): StepResult {
    if j >= |code| || !code[j].JMP? then Bad
    else if code[j].sbx == NO_JUMP then Leave(j, val, m)
    else if code[j].sbx >= 0 then Next(j + 1 + code[j].sbx, m)
    else Bad
  }

  function Step(w: World, code: seq<Instr>, pc: nat, m: Machine): StepResult
    requires pc < |code|
  {
    match code[pc]
    case MOVE(a, b) => Next(pc + 1, m.Set(a, m.Get(b)))
    case LOADBOOL(a, flag, skip) => Next(if skip then pc + 2 else pc + 1, m.Set(a, Bool(flag)))
    case GETGLOBAL(a, bx) => Next(pc + 1, m.Log(ReadGlobal(bx)).Set(a, w.read(bx, m.trace)))
    case NOT(a, b) => Next(pc + 1, m.Set(a, Bool(!Truthy(m.Get(b)))))
    case JMP(_) => Jump(code, pc, None, m)
    case CMP(op, accept, b, c) =>
      var x, y := m.Get(b), m.Get(c);
      var m' := m.Log(Compare(op, x, y));
      if w.compare(op, x, y, m.trace) == accept then Jump(code, pc + 1, None, m') else Next(pc + 2, m')
    case TEST(a, cond) =>
      if Truthy(m.Get(a)) == cond then Jump(code, pc + 1, None, m) else Next(pc + 2, m)
    case TESTSET(a, b, cond) =>
      if Truthy(m.Get(b)) == cond then Jump(code, pc + 1, Some(m.Get(b)), m.Set(a, m.Get(b))) else Next(pc + 2, m)
  }

  datatype Outcome = Fall(m: Machine) | Exit(at: nat, val: Option<Value>, m: Machine) | Stuck

  /** Runs code from pc until control falls off its end or leaves through an open jump.
      Expression code only jumps forward, so a run takes at most |code| - pc steps. */
  function Run(w: World, code: seq<Instr>, pc: nat, m: Machine): Outcome
    decreases |code| - pc
  {
    if pc == |code| then Fall(m)
    else if pc > |code| then Stuck
    else
      match Step(w, code, pc, m)
      case Next(pc', m') => if pc < pc' then Run(w, code, pc', m') else Stuck
      case Leave(j, val, m') => Exit(j, val, m')
      case Bad => Stuck
  }

  /** Appending code changes nothing before the old end, and control that fell off the old
      end continues in the appended part. */
  lemma {:induction false} RunExtend(w: World, code: seq<Instr>, ext: seq<Instr>, pc: nat, m: Machine)
    requires code <= ext
    requires !Run(w, code, pc, m).Stuck?
    ensures var o := Run(w, code, pc, m);
            Run(w, ext, pc, m) == if o.Fall? then Run(w, ext, |code|, o.m) else o
    decreases |code| - pc
  {
    if pc < |code| {
      assert forall i: nat :: i < |code| ==> ext[i] == code[i];
      match Step(w, code, pc, m)
      case Next(pc', m') => RunExtend(w, code, ext, pc', m');
      case _ =>
    }
  }
}
