/** The code generator as it is written: one function state updated in place, jump lists
    threaded through the offsets of the jumps themselves, and errors that abandon the
    compilation.  Every operation is proved to do what its counterpart in CodeGen does on
    explicit lists, so the theorems about CodeGen hold of the code this class emits. */
module LuaFuncState {
  import opened Common
  import opened Opcodes
  import opened CodeGen
  import opened CodeGenRuns
  import opened CodeGenShape
  import opened CodeGenCorrect
  import opened CodeGenLimits

  /** Outcome of an operation that may raise a syntax error. */
  datatype Status = Success | SyntaxError(message: string) {
    predicate IsFailure() { SyntaxError? }
    function PropagateFailure(): Status
      requires IsFailure()
    {
      this
    }
  }

  const TOO_LONG: string := "control structure too long"
  const TOO_COMPLEX: string := "function or expression too complex"

  predicate TooLong(st: Status, length: nat) {
    st == SyntaxError(TOO_LONG) && length > MAXARG_SBX
  }

  /** The error is justified: a is over the limit that the message speaks of. */
  predicate Exceeds(st: Status, a: FS) {
    TooLong(st, |a.code|) || (st == SyntaxError(TOO_COMPLEX) && a.maxstack >= MAXSTACK)
  }

  /** An expression descriptor: kind and the heads of its two patch lists. */
  datatype Exp = Exp(k: Kind, t: int, f: int)

  function GetJump(code: seq<Instr>, pc: nat): int
    requires pc < |code| && code[pc].JMP?
  {
    if code[pc].sbx == NO_JUMP then NO_JUMP else pc + 1 + code[pc].sbx
  }

  function LinkAt(s: seq<nat>, i: nat): int {
    if i + 1 < |s| then s[i + 1] else NO_JUMP
  }

  /** The list that starts at head, threaded through code, is s. */
  predicate Threaded(code: seq<Instr>, head: int, s: seq<nat>) {
    && head == (if s == [] then NO_JUMP else s[0])
    && Distinct(s)
    && forall i :: 0 <= i < |s| ==>
         s[i] < |code| && code[s[i]].JMP? && GetJump(code, s[i]) == LinkAt(s, i)
  }

  /** code is a, with list links in the offsets of the open jumps. */
  predicate Rep(code: seq<Instr>, a: seq<Instr>) {
    |code| == |a| && forall i :: 0 <= i < |code| ==> code[i] == a[i] || (code[i].JMP? && a[i] == JMP(NO_JUMP))
  }

  /** No jump outside s was changed or removed. */
  predicate KeepsJumps(code: seq<Instr>, code': seq<Instr>, s: seq<nat>) {
    forall i :: 0 <= i < |code| && code[i].JMP? && i !in s ==> i < |code'| && code'[i] == code[i]
  }

  predicate Apart(s: seq<nat>, s': seq<nat>) {
    forall x :: x in s ==> x !in s'
  }

  /** Every element of s is in s' or at least n. */
  predicate Within(s: seq<nat>, s': seq<nat>, n: nat) {
    forall x :: x in s ==> x in s' || x >= n
  }

  predicate Describes(code: seq<Instr>, e: Exp, a: ExpDesc) {
    e.k == a.k && Threaded(code, e.t, a.t) && Threaded(code, e.f, a.f)
      && (e.k.VJMP? ==> Threaded(code, e.k.info, [e.k.info]))
  }

  lemma ThreadedKept(code: seq<Instr>, code': seq<Instr>, s: seq<nat>, head: int, s': seq<nat>)
    requires KeepsJumps(code, code', s) && Threaded(code, head, s')
    requires Apart(s', s)
    ensures Threaded(code', head, s')
  {
  }

  class FuncState {
    var code: seq<Instr>
    var jpc: int
    var lasttarget: int
    var freereg: int
    var nactvar: int
    var maxstacksize: int

    ghost predicate Models(a: FS)
      reads this
    {
      && Rep(code, a.code) && Threaded(code, jpc, a.jpc)
      && freereg == a.freereg && nactvar == a.nactvar && maxstacksize == a.maxstack < MAXSTACK
    }

    constructor (nactvar: nat, freereg: nat, maxstacksize: nat)
      requires maxstacksize < MAXSTACK
      ensures Models(FS([], [], freereg, nactvar, maxstacksize))
    {
      this.code, this.jpc, this.lasttarget := [], NO_JUMP, -1;
      this.nactvar, this.freereg, this.maxstacksize := nactvar, freereg, maxstacksize;
    }

    // ----- jump lists

    method FixJump(pc: nat, dest: int) returns (st: Status)
      requires pc < |code| && code[pc].JMP?
      modifies `code
      ensures st.Success? <==> -MAXARG_SBX <= dest - (pc + 1) <= MAXARG_SBX
      ensures st.SyntaxError? && 0 <= dest <= |code| ==> TooLong(st, |code|)
      ensures code == if st.Success? then old(code)[pc := JMP(dest - (pc + 1))] else old(code)
    {
      var offset := dest - (pc + 1);
      if offset < -MAXARG_SBX || offset > MAXARG_SBX {
        return SyntaxError(TOO_LONG);
      }
      code := code[pc := JMP(offset)];
      return Success;
    }

    /** luaK_concat appends: the lists s and s' become s + s'. */
    method Concat(l1: int, l2: int, ghost s: seq<nat>, ghost s': seq<nat>, ghost a: seq<Instr>)
      returns (st: Status, l: int)
      requires Rep(code, a) && OpenList(a, s + s') && Threaded(code, l1, s) && Threaded(code, l2, s')
      modifies `code
      ensures st.Success? ==> Threaded(code, l, s + s') && Rep(code, a) && |code| == |old(code)|
      ensures st.Success? ==> KeepsJumps(old(code), code, s) && forall i :: 0 <= i < |code| && !old(code)[i].JMP? ==>
              code[i] == old(code)[i]
      ensures st.SyntaxError? ==> TooLong(st, |a|)
    {
      hide OpenList, Distinct, Threaded, Rep, KeepsJumps;
      l := l1;
      ConcatEmpty(code, l1, s, l2, s');
      KeptSelf(code, s);
      if l2 == NO_JUMP {
        assert s + s' == s;
        return Success, l1;
      }
      if l1 == NO_JUMP {
        assert s + s' == s';
        return Success, l2;
      }
      var list := LastJump(l1, s);
      AppendThreaded(code, l1, s, l2, s', a);
      :- FixJump(list, l2);
      return Success, l1;
    }

    /** The walk to the end of a list that is not empty. */
    method LastJump(list: int, ghost s: seq<nat>) returns (last: nat)
      requires Threaded(code, list, s) && s != []
      ensures last == s[|s| - 1]
    {
      last := list;
      ghost var i := 0;
      while GetJump(code, last) != NO_JUMP
        invariant 0 <= i < |s| && last == s[i]
        decreases |s| - i
      {
        assert GetJump(code, s[i]) == LinkAt(s, i);
        last := GetJump(code, last);
        i := i + 1;
      }
      assert GetJump(code, s[i]) == LinkAt(s, i);
    }

    /** patchtestreg: sets the register of a TESTSET in front of jump pc, or makes it a TEST. */
    method PatchTestReg(pc: nat, reg: int) returns (patched: bool)
      requires pc < |code|
      modifies `code
      ensures patched == IsValueJump(old(code), pc) && code == PatchControl(old(code), pc, reg)
    {
      if pc >= 1 && code[pc - 1].TESTSET? {
        var i := code[pc - 1];
        code := code[pc - 1 := if reg != NO_REG && reg != i.b then TESTSET(reg, i.b, i.cond) else TEST(i.b, i.cond)];
        return true;
      }
      return false;
    }

    method NeedValue(list: int, ghost s: seq<nat>) returns (need: bool)
      requires Threaded(code, list, s)
      ensures need == CodeGen.NeedValue(code, s)
    {
      hide Distinct;
      var l := list;
      ghost var i := 0;
      while l != NO_JUMP
        invariant 0 <= i <= |s| && l == if i < |s| then s[i] else NO_JUMP
        invariant forall k :: 0 <= k < i ==> IsValueJump(code, s[k])
        decreases |s| - i
      {
        assert GetJump(code, s[i]) == LinkAt(s, i);
        if !(l >= 1 && code[l - 1].TESTSET?) {
          return true;
        }
        l := GetJump(code, l);
        i := i + 1;
      }
      return false;
    }

    method RemoveValues(list: int, ghost s: seq<nat>, ghost a: seq<Instr>)
      requires Rep(code, a) && OpenList(a, s) && Threaded(code, list, s)
      modifies `code
      ensures Rep(code, CodeGen.RemoveValues(a, s)) && KeepsJumps(old(code), code, []) && |code| == |old(code)|
    {
      var l := list;
      ghost var rest, a' := s, a;
      while l != NO_JUMP
        invariant Rep(code, a') && OpenList(a', rest) && Threaded(code, l, rest)
        invariant CodeGen.RemoveValues(a, s) == CodeGen.RemoveValues(a', rest)
        invariant KeepsJumps(old(code), code, []) && |code| == |old(code)|
        decreases |rest|
      {
        RemoveFirst(a', rest);
        RepControl(code, a', l, NO_REG);
        TailThreaded(code, l, rest);
        ThreadedKept(code, PatchControl(code, l, NO_REG), [], GetJump(code, l), rest[1..]);
        var _ := PatchTestReg(l, NO_REG);
        a', rest := PatchControl(a', rest[0], NO_REG), rest[1..];
        l := GetJump(code, l);
      }
    }

    /** One round of the loop of patchlistaux. */
    method PatchOne(j: nat, vtarget: nat, reg: int, dtarget: int, ghost d: nat) returns (st: Status)
      requires j < |code| && code[j].JMP? && (d == dtarget || IsValueJump(code, j))
      modifies `code
      ensures st.Success? ==> code == PatchJump(old(code), j, vtarget, reg, d)
      ensures st.SyntaxError? && vtarget <= |old(code)| && d <= |old(code)| ==> TooLong(st, |old(code)|)
    {
      var patched := PatchTestReg(j, reg);
      if patched {
        :- FixJump(j, vtarget);
      } else {
        :- FixJump(j, dtarget);
      }
      return Success;
    }

    /** patchlistaux: every jump of the list gets its destination, and no other jump changes. */
    method PatchListAux(list: int, vtarget: nat, reg: int, dtarget: int, ghost s: seq<nat>, ghost a: seq<Instr>,
                        ghost d: nat) returns (st: Status)
      requires Rep(code, a) && OpenList(a, s) && Threaded(code, list, s)
      requires d == dtarget || !CodeGen.NeedValue(a, s)
      modifies `code
      ensures st.Success? ==> Rep(code, PatchList(a, s, vtarget, reg, d))
      ensures st.Success? ==> KeepsJumps(old(code), code, s) && |code| == |old(code)|
      ensures st.SyntaxError? && vtarget <= |a| && d <= |a| ==> TooLong(st, |a|)
    {
      var l := list;
      ghost var rest, a' := s, a;
      while l != NO_JUMP
        invariant Rep(code, a') && OpenList(a', rest) && Threaded(code, l, rest)
        invariant d == dtarget || !CodeGen.NeedValue(a', rest)
        invariant PatchList(a, s, vtarget, reg, d) == PatchList(a', rest, vtarget, reg, d)
        invariant KeepsJumps(old(code), code, s) && |code| == |old(code)|
        invariant forall x :: x in rest ==> x in s
        decreases |rest|
      {
        var next := GetJump(code, l);
        assert IsValueJump(a', rest[0]) || d == dtarget;
        PatchFirst(a', rest, vtarget, reg, d);
        NeedTail(a', PatchJump(a', rest[0], vtarget, reg, d), rest);
        RepPatch(code, a', l, vtarget, reg, d);
        PatchTail(code, rest, vtarget, reg, d);
        assert rest[0] in rest;
        KeptMore(old(code), code, PatchJump(code, l, vtarget, reg, d), s, l);
        :- PatchOne(l, vtarget, reg, dtarget, d);
        a', rest := PatchJump(a', rest[0], vtarget, reg, d), rest[1..];
        l := next;
      }
      return Success;
    }

    // ----- emitting code

    /** luaK_code: the pending jumps land on the new instruction. */
    method Code(i: Instr, ghost a: FS) returns (st: Status, pc: nat)
      requires Models(a) && OpenList(a.code, a.jpc)
      modifies `code, `jpc
      ensures st.Success? ==> Models(Emit(a, i)) && pc == |a.code| && KeepsJumps(old(code), code, a.jpc)
                              && code[pc] == i
      ensures st.SyntaxError? ==> TooLong(st, |a.code|)
    {
      pc := |code|;
      :- PatchListAux(jpc, pc, NO_REG, pc, a.jpc, a.code, pc);
      jpc := NO_JUMP;
      code := code + [i];
      return Success, pc;
    }

    /** luaK_jump: an open jump, in one list with the jumps that were pending. */
    method Jump(ghost a: FS) returns (st: Status, l: int)
      requires Models(a) && OpenList(a.code, a.jpc)
      requires IsValueJump(a.code, |a.code|) ==> a.code[|a.code| - 1].a == NO_REG
      modifies `code, `jpc
      ensures st.Success? ==> Models(EmitJump(a).0) && Threaded(code, l, EmitJump(a).1)
                              && KeepsJumps(old(code), code, a.jpc)
      ensures st.SyntaxError? ==> TooLong(st, |a.code| + 1)
    {
      var saved := jpc;
      l := NO_JUMP;
      jpc := NO_JUMP;
      ghost var a0 := a.(jpc := []);
      var j :- Code(JMP(NO_JUMP), a0);
      ghost var c := EmitJump(a).0.code;
      ThreadedKept(old(code), code, [], saved, a.jpc);
      assert OpenList(c, [j] + a.jpc) by {
        OpenExtend(a.code, c, a.jpc);
        assert OpenJump(c, j);
        OpenJoin(c, [j], a.jpc);
      }
      ghost var c1 := code;
      l :- Concat(j, saved, [j], a.jpc, c);
      KeptTwice(old(code), c1, code, [], [j]);
      return Success, l;
    }

    /** luaK_getlabel: the end of the code becomes a place where jumps may land. */
    method GetLabel() returns (pc: nat)
      modifies `lasttarget
      ensures pc == |code| == lasttarget
    {
      lasttarget := |code|;
      return |code|;
    }

    method PatchToHere(list: int, ghost s: seq<nat>, ghost a: FS) returns (st: Status)
      requires Models(a) && OpenList(a.code, a.jpc + s) && Threaded(code, list, s)
      modifies `code, `jpc, `lasttarget
      ensures st.Success? ==> Models(CodeGen.PatchToHere(a, s)) && KeepsJumps(old(code), code, a.jpc)
                              && |code| == |old(code)|
      ensures st.Success? ==> lasttarget == |code|
      ensures st.SyntaxError? ==> TooLong(st, |a.code|)
    {
      hide OpenList, Distinct, Threaded, Rep, KeepsJumps, CodeGen.PatchList;
      var _ := GetLabel();
      var l :- Concat(jpc, list, a.jpc, s, a.code);
      jpc := l;
      return Success;
    }

    // ----- registers

    method ReserveRegs(n: nat, ghost a: FS) returns (st: Status)
      requires Models(a) && a.freereg <= a.maxstack
      modifies `freereg, `maxstacksize
      ensures st.Success? ==> Models(Reserve(a, n))
      ensures st.SyntaxError? <==> old(freereg) + n >= MAXSTACK
      ensures st.SyntaxError? ==> Exceeds(st, Reserve(a, n))
    {
      var newstack := freereg + n;
      if newstack > maxstacksize {
        if newstack >= MAXSTACK {
          return SyntaxError(TOO_COMPLEX);
        }
        maxstacksize := newstack;
      }
      freereg := newstack;
      return Success;
    }

    method FreeExp(e: Exp, ghost a: FS, ghost d: ExpDesc)
      requires Models(a) && e.k == d.k
      modifies `freereg
      ensures Models(CodeGen.FreeExp(a, d))
    {
      if e.k.VNONRELOC? && e.k.reg >= nactvar {
        freereg := freereg - 1;
      }
    }

    // ----- operands

    method DischargeVars(e: Exp, ghost a: FS, ghost d: ExpDesc) returns (st: Status, r: Exp)
      requires Models(a) && Describes(code, e, d) && OpenList(a.code, a.jpc + d.t + d.f) && (d.k.VJMP? ==> a.jpc == [])
      modifies `code, `jpc
      ensures st.Success? ==> var (a', d') := CodeGen.DischargeVars(a, d); Models(a') && Describes(code, r, d')
      ensures st.Success? ==> KeepsJumps(old(code), code, a.jpc)
      ensures st.SyntaxError? ==> TooLong(st, |a.code|)
    {
      r := e;
      match e.k {
      case VLOCAL(reg) => r := e.(k := VNONRELOC(reg));
      case VGLOBAL(n) =>
        Parts(a, d);
        var pc :- Code(GETGLOBAL(0, n), a);
        DescribesKept(old(code), code, a.jpc, e, d);
        r := e.(k := VRELOCABLE(pc));
      case _ =>
      }
      return Success, r;
    }

    method Discharge2Reg(e: Exp, reg: int, ghost a: FS, ghost d: ExpDesc, ghost a0: FS, ghost lo: nat, ghost fr: int)
      returns (st: Status, r: Exp)
      requires Models(a) && Describes(code, e, d) && Shape(a0, d, lo, fr) && Retuned(a0, a)
      modifies `code, `jpc
      ensures st.Success? ==> var (a', d') := CodeGen.Discharge2Reg(a, d, reg); Models(a') && Describes(code, r, d')
      ensures st.Success? ==> KeepsJumps(old(code), code, a.jpc)
      ensures st.SyntaxError? ==> TooLong(st, |CodeGen.Discharge2Reg(a, d, reg).0.code|)
    {
      hide PatchList, OpenList, Distinct;
      r := e;
      DischargeVarsShape(a0, d, lo, fr);
      ghost var (a1, d1) := CodeGen.DischargeVars(a, d);
      RetunedVars(a0, a, d);
      Exp2RegGrows(a, d, reg, 0);
      VarsFirst(a, d, reg);
      var e1 :- DischargeVars(e, a, d);
      ghost var c1 := code;
      r :- SetReg(e1, reg, a1, d1);
      KeptTwice(old(code), c1, code, a.jpc, a1.jpc);
      return Success, r;
    }

    /** The switch of discharge2reg. */
    method SetReg(e: Exp, reg: int, ghost a: FS, ghost d: ExpDesc) returns (st: Status, r: Exp)
      requires Models(a) && Describes(code, e, d) && OpenList(a.code, a.jpc + d.t + d.f)
      requires d.k.VJMP? ==> a.jpc == []
      requires d.k.VRELOCABLE? ==> d.k.info < |a.code| && (a.code[d.k.info].NOT? || a.code[d.k.info].GETGLOBAL?)
      requires !d.k.VLOCAL? && !d.k.VGLOBAL?
      modifies `code, `jpc
      ensures st.Success? ==> var (a', d') := CodeGen.Discharge2Reg(a, d, reg); Models(a') && Describes(code, r, d')
      ensures st.Success? ==> KeepsJumps(old(code), code, a.jpc)
      ensures st.SyntaxError? ==> TooLong(st, |a.code|)
    {
      r := e;
      match e.k {
      case VRELOCABLE(pc) =>
        assert code[pc] == a.code[pc];
        code := SetA(code, pc, reg);
        DescribesKept(old(code), code, [], e, d);
        r := e.(k := VNONRELOC(reg));
      case VNONRELOC(src) =>
        if reg != src {
          Parts(a, d);
          var _ :- Code(MOVE(reg, src), a);
          DescribesKept(old(code), code, a.jpc, e, d);
        }
        r := e.(k := VNONRELOC(reg));
      case _ =>
      }
      return Success, r;
    }

    /** The two loads: false, skipping the next, then true. */
    method CodeBooleans(reg: int, ghost a: FS, ghost fj: int, ghost s: seq<nat>) returns (st: Status, pf: nat, pt: nat)
      requires Models(a) && a.jpc == [] && Threaded(code, fj, s)
      modifies `code, `jpc, `lasttarget
      ensures st.Success? ==> Models(Emit(Emit(a, LOADBOOL(reg, false, true)), LOADBOOL(reg, true, false)))
      ensures st.Success? ==> KeepsJumps(old(code), code, []) && Threaded(code, fj, s) && pf == |a.code| && pt == pf + 1
      ensures st.SyntaxError? ==> TooLong(st, |a.code| + 1)
    {
      hide PatchList, OpenList, Distinct, Threaded, Rep, KeepsJumps;
      pf, pt := 0, 0;
      NoneOpen(a.code);
      pf :- CodeLabel(reg, false, true, a);
      ghost var a1, c1 := Emit(a, LOADBOOL(reg, false, true)), code;
      ThreadedKept(old(code), c1, [], fj, s);
      NoneOpen(a1.code);
      pt :- CodeLabel(reg, true, false, a1);
      ThreadedKept(c1, code, [], fj, s);
      KeptTwice(old(code), c1, code, [], []);
      return Success, pf, pt;
    }

    method CodeLabel(reg: int, flag: bool, skip: bool, ghost a: FS) returns (st: Status, pc: nat)
      requires Models(a) && OpenList(a.code, a.jpc)
      modifies `code, `jpc, `lasttarget
      ensures st.Success? ==> Models(Emit(a, LOADBOOL(reg, flag, skip))) && pc == |a.code|
                              && KeepsJumps(old(code), code, a.jpc)
      ensures st.SyntaxError? ==> TooLong(st, |a.code|)
    {
      var _ := GetLabel();
      st, pc := Code(LOADBOOL(reg, flag, skip), a);
    }

    /** The part of exp2reg that loads booleans: returns where false and true are loaded. */
    method CodeLoads(isJump: bool, reg: int, ghost a: FS) returns (st: Status, pf: nat, pt: nat)
      requires Models(a) && OpenList(a.code, a.jpc) && NoTrailingTest(a.code) && (isJump ==> a.jpc == [])
      modifies `code, `jpc, `lasttarget
      ensures st.Success? ==> Models(WithLoads(a, isJump, reg)) && KeepsJumps(old(code), code, a.jpc)
      ensures st.Success? ==> pf == |a.code| + (if isJump then 0 else 1) && pt == pf + 1
      ensures st.SyntaxError? ==> TooLong(st, |WithLoads(a, isJump, reg).code|)
    {
      hide PatchList, OpenList, Distinct, Threaded, Rep, KeepsJumps;
      pf, pt := 0, 0;
      var fj := NO_JUMP;
      EmptyList(code);
      KeptSelf(code, a.jpc);
      ghost var a1, s := a, [];
      if !isJump {
        a1, s := EmitJump(a).0, EmitJump(a).1;
        fj :- Jump(a);
      }
      ghost var c1 := code;
      pf, pt :- CodeBooleans(reg, a1, fj, s);
      ghost var a2 := Emit(a1, LOADBOOL(reg, false, true));
      ghost var a3, c3 := Emit(a2, LOADBOOL(reg, true, false)), code;
      KeptTwice(old(code), c1, c3, a.jpc, []);
      assert a.jpc + [] + [] == a.jpc;
      WithLoadsKeeps(a, isJump, [], [], reg);
      NonePending(a1);
      NonePending(a2);
      assert a3.(jpc := a3.jpc + s) == WithLoads(a, isJump, reg);
      assert WithLoads(a, isJump, reg).jpc + [] + [] == a3.jpc + s;
      :- PatchToHere(fj, s, a3);
      KeptTwice(old(code), c3, code, a.jpc, []);
      return Success, pf, pt;
    }

    /** The part of exp2reg that deals with jumps. */
    method LandJumps(isJump: bool, t: int, f: int, reg: int, ghost a: FS, ghost d: ExpDesc) returns (st: Status)
      requires Models(a) && OpenList(a.code, a.jpc + d.t + d.f) && NoTrailingTest(a.code) && (isJump ==> a.jpc == [])
      requires Threaded(code, t, d.t) && Threaded(code, f, d.f)
      modifies `code, `jpc, `lasttarget
      ensures st.Success? ==> Models(CodeGen.LandJumps(a, isJump, d.t, d.f, reg))
                              && KeepsJumps(old(code), code, a.jpc + d.t + d.f)
      ensures st.SyntaxError? ==> TooLong(st, |CodeGen.LandJumps(a, isJump, d.t, d.f, reg).code|)
    {
      hide PatchList, OpenList, Distinct, Threaded, Rep, KeepsJumps, CodeGen.NeedValue;
      KeptSelf(code, a.jpc);
      Parts(a, d);
      RepNeed(code, a.code, d.t);
      RepNeed(code, a.code, d.f);
      var need := NeedValue(t, d.t);
      if !need {
        need := NeedValue(f, d.f);
      }
      var pf, pt := NO_JUMP, NO_JUMP;
      ghost var a1 := a;
      if need {
        pf, pt :- CodeLoads(isJump, reg, a);
        a1 := WithLoads(a, isJump, reg);
        LandJumpsIs(a, isJump, d.t, d.f, reg);
        WithLoadsKeeps(a, isJump, d.t, d.f, reg);
        ThreadedKept(old(code), code, a.jpc, t, d.t);
        ThreadedKept(old(code), code, a.jpc, f, d.f);
      }
      assert CodeGen.LandJumps(a, isJump, d.t, d.f, reg)
        == LandAt(a1, d.t, d.f, reg, if need then pf else 0, if need then pt else 0);
      ghost var c1 := code;
      :- LandLists(t, f, reg, pf, pt, a1, d);
      KeptWider(old(code), c1, code, a.jpc, d.t + d.f, a.jpc + d.t + d.f);
      return Success;
    }

    method LandLists(t: int, f: int, reg: int, pf: int, pt: int, ghost a: FS, ghost d: ExpDesc) returns (st: Status)
      requires Models(a) && OpenList(a.code, a.jpc + d.t + d.f) && Threaded(code, t, d.t) && Threaded(code, f, d.f)
      requires (pf >= 0 && pt >= 0) || (!CodeGen.NeedValue(a.code, d.t) && !CodeGen.NeedValue(a.code, d.f))
      modifies `code, `lasttarget
      ensures st.Success? ==> Models(LandAt(a, d.t, d.f, reg, if pf >= 0 then pf else 0, if pt >= 0 then pt else 0))
      ensures st.Success? ==> KeepsJumps(old(code), code, d.t + d.f)
      ensures st.SyntaxError? ==> (pf <= |a.code| && pt <= |a.code| ==> TooLong(st, |a.code|))
    {
      hide PatchList, OpenList, Distinct, Threaded, Rep, KeepsJumps, CodeGen.NeedValue, Apart, Within;
      RepLength(code, a.code);
      var final := GetLabel();
      ghost var f0: nat, t0: nat := if pf >= 0 then pf else 0, if pt >= 0 then pt else 0;
      LandReady(a, d, reg, f0, t0);
      WithinSum(d.f, d.t, |code|);
      ghost var a1 := PatchList(a.code, d.f, final, reg, f0);
      :- PatchListAux(f, final, reg, pf, d.f, a.code, f0);
      ThreadedKept(old(code), code, d.f, t, d.t);
      ThreadedKept(old(code), code, d.f, jpc, a.jpc);
      ghost var c1 := code;
      :- PatchListAux(t, final, reg, pt, d.t, a1, t0);
      ThreadedKept(c1, code, d.t, jpc, a.jpc);
      KeptWider(old(code), c1, code, d.f, d.t, d.t + d.f);
      return Success;
    }

    method Exp2Reg(e: Exp, reg: int, ghost a: FS, ghost d: ExpDesc, ghost a0: FS, ghost lo: nat, ghost fr: int)
      returns (st: Status, r: Exp)
      requires Models(a) && Describes(code, e, d) && Shape(a0, d, lo, fr) && Retuned(a0, a)
      modifies `code, `jpc, `lasttarget
      ensures st.Success? ==> var (a', d') := CodeGen.Exp2Reg(a, d, reg); Models(a') && Describes(code, r, d')
      ensures st.Success? ==> KeepsJumps(old(code), code, Touched(a, d))
      ensures st.SyntaxError? ==> TooLong(st, |CodeGen.Exp2Reg(a, d, reg).0.code|)
    {
      hide PatchList, OpenList, Distinct, Threaded, Rep, KeepsJumps, CodeGen.LandJumps, CodeGen.Discharge2Reg;
      r := e;
      Exp2RegGrows(a, d, reg, 0);
      var e1 :- Discharge2Reg(e, reg, a, d, a0, lo, fr);
      ghost var (a1, d1) := CodeGen.Discharge2Reg(a, d, reg);
      Discharged(a0, a, d, reg, lo, fr);
      ghost var c1 := code;
      ghost var dt := if d1.k.VJMP? then d1.t + [d1.k.info] else d1.t;
      var t :- TrueList(e1, a1, d1, dt);
      ghost var d2, c2 := ExpDesc(d1.k, dt, d1.f), code;
      Heads(code, t, dt, e1.f, d1.f, a1, d2);
      KeptSelf(code, a1.jpc + dt + d1.f);
      if t != e1.f {
        :- LandJumps(e1.k.VJMP?, t, e1.f, reg, a1, d2);
      }
      KeptWider(old(code), c1, c2, a.jpc, d1.t, Touched(a, d));
      KeptWider(old(code), c2, code, Touched(a, d), a1.jpc + dt + d1.f, Touched(a, d));
      EmptyList(code);
      return Success, Exp(VNONRELOC(reg), NO_JUMP, NO_JUMP);
    }

    /** The jump of a comparison joins the list of jumps taken when true. */
    method TrueList(e: Exp, ghost a: FS, ghost d: ExpDesc, ghost dt: seq<nat>) returns (st: Status, t: int)
      requires Models(a) && Describes(code, e, d) && dt == (if d.k.VJMP? then d.t + [d.k.info] else d.t)
      requires OpenList(a.code, a.jpc + d.t + d.f) && OpenList(a.code, a.jpc + dt + d.f) && (d.k.VJMP? ==> a.jpc == [])
      modifies `code
      ensures st.Success? ==> Models(a) && Threaded(code, t, dt) && Threaded(code, e.f, d.f)
                              && KeepsJumps(old(code), code, d.t)
      ensures st.SyntaxError? ==> TooLong(st, |a.code|)
    {
      hide PatchList, OpenList, Distinct, Threaded, Rep, KeepsJumps, Apart;
      t := e.t;
      KeptSelf(code, d.t);
      if e.k.VJMP? {
        TrueReady(a, d, dt);
        t :- Concat(e.t, e.k.info, d.t, [d.k.info], a.code);
        ThreadedKept(old(code), code, d.t, e.f, d.f);
        ThreadedKept(old(code), code, d.t, jpc, []);
      }
      return Success, t;
    }

    method Exp2NextReg(e: Exp, ghost a: FS, ghost d: ExpDesc, ghost lo: nat, ghost fr: int) returns (st: Status, r: Exp)
      requires Models(a) && Describes(code, e, d) && Shape(a, d, lo, fr)
      modifies `code, `jpc, `lasttarget, `freereg, `maxstacksize
      ensures st.Success? ==> var (a', d') := CodeGen.Exp2NextReg(a, d); Models(a') && Describes(code, r, d')
      ensures st.Success? ==> KeepsJumps(old(code), code, Touched(a, d))
      ensures st.SyntaxError? ==> Exceeds(st, CodeGen.Exp2NextReg(a, d).0)
    {
      hide PatchList, OpenList, Distinct, CodeGen.Exp2Reg, Threaded, Rep, KeepsJumps;
      r := e;
      NextRegGrows(a, d);
      var e1 :- DischargeVars(e, a, d);
      ghost var (a1, d1) := CodeGen.DischargeVars(a, d);
      DischargeVarsShape(a, d, lo, fr);
      ghost var c1 := code;
      Exp2RegGrows(Reserve(CodeGen.FreeExp(a1, d1), 1), d1, Reserve(CodeGen.FreeExp(a1, d1), 1).freereg - 1, 0);
      FreeExp(e1, a1, d1);
      ghost var a2 := CodeGen.FreeExp(a1, d1);
      :- ReserveRegs(1, a2);
      r :- Exp2Reg(e1, freereg - 1, Reserve(a2, 1), d1, a1, lo, fr);
      KeptWider(old(code), c1, code, a.jpc, Touched(a1, d1), Touched(a, d));
      return Success, r;
    }

    method Exp2AnyReg(e: Exp, ghost a: FS, ghost d: ExpDesc, ghost lo: nat, ghost fr: int) returns (st: Status, r: Exp)
      requires Models(a) && Describes(code, e, d) && Shape(a, d, lo, fr)
      modifies `code, `jpc, `lasttarget, `freereg, `maxstacksize
      ensures st.Success? ==> var (a', d') := CodeGen.Exp2AnyReg(a, d); Models(a') && Describes(code, r, d')
      ensures st.Success? ==> KeepsJumps(old(code), code, Touched(a, d))
      ensures st.SyntaxError? ==> Exceeds(st, CodeGen.Exp2AnyReg(a, d).0)
    {
      hide PatchList, OpenList, Distinct, CodeGen.Exp2Reg, Threaded, Rep, KeepsJumps;
      r := e;
      AnyRegGrows(a, d, lo, fr);
      VarsGrow(a, d, 0);
      var e1 :- DischargeVars(e, a, d);
      ghost var (a1, d1) := CodeGen.DischargeVars(a, d);
      DischargeVarsShape(a, d, lo, fr);
      ghost var c1 := code;
      KeptSelf(code, []);
      Heads(code, e1.t, d1.t, e1.f, d1.f, a1, d1);
      if e1.k.VNONRELOC? {
        if e1.t == e1.f {
          KeptWider(old(code), c1, code, a.jpc, [], Touched(a, d));
          return Success, e1;
        }
        if e1.k.reg >= nactvar {
          r :- Exp2Reg(e1, e1.k.reg, a1, d1, a1, lo, fr);
          KeptWider(old(code), c1, code, a.jpc, Touched(a1, d1), Touched(a, d));
          return Success, r;
        }
      }
      r :- Exp2NextReg(e1, a1, d1, lo, fr);
      KeptWider(old(code), c1, code, a.jpc, Touched(a1, d1), Touched(a, d));
      return Success, r;
    }

    method Discharge2AnyReg(e: Exp, ghost a: FS, ghost d: ExpDesc, ghost lo: nat, ghost fr: int)
      returns (st: Status, r: Exp)
      requires Models(a) && Describes(code, e, d) && Shape(a, d, lo, fr)
      modifies `code, `jpc, `freereg, `maxstacksize
      ensures st.Success? ==> var (a', d') := CodeGen.Discharge2AnyReg(a, d); Models(a') && Describes(code, r, d')
      ensures st.Success? ==> KeepsJumps(old(code), code, a.jpc)
      ensures st.SyntaxError? ==> Exceeds(st, CodeGen.Discharge2AnyReg(a, d).0)
    {
      hide PatchList, OpenList, Distinct, Threaded, Rep, KeepsJumps, CodeGen.Discharge2Reg;
      r := e;
      KeptSelf(code, a.jpc);
      if !e.k.VNONRELOC? {
        Exp2RegGrows(Reserve(a, 1), d, Reserve(a, 1).freereg - 1, 0);
        :- ReserveRegs(1, a);
        r :- Discharge2Reg(e, freereg - 1, Reserve(a, 1), d, a, lo, fr);
      }
      return Success, r;
    }

    // ----- conditional jumps

    method CondJump(i: Instr, ghost a: FS) returns (st: Status, j: int)
      requires Models(a) && OpenList(a.code, a.jpc) && IsTest(i) && (i.TESTSET? ==> i.a == NO_REG)
      modifies `code, `jpc
      ensures st.Success? ==> Models(CodeGen.CondJump(a, i).0) && Threaded(code, j, CodeGen.CondJump(a, i).1)
      ensures st.Success? ==> KeepsJumps(old(code), code, a.jpc)
      ensures st.SyntaxError? ==> TooLong(st, |a.code| + 2)
    {
      hide PatchList, OpenList, Distinct, Threaded, Rep, KeepsJumps;
      j := NO_JUMP;
      var _ :- Code(i, a);
      ghost var c1 := code;
      NoneOpen(Emit(a, i).code);
      j :- Jump(Emit(a, i));
      KeptTwice(old(code), c1, code, a.jpc, []);
      return Success, j;
    }

    method InvertJump(pc: nat, ghost a: FS)
      requires Models(a) && 1 <= pc < |a.code| && a.code[pc - 1].CMP?
      modifies `code
      ensures Models(a.(code := CodeGen.InvertJump(a.code, pc))) && KeepsJumps(old(code), code, [])
    {
      assert code[pc - 1] == a.code[pc - 1];
      ghost var c := code;
      code := code[pc - 1 := code[pc - 1].(accept := !code[pc - 1].accept)];
      ThreadedKept(c, code, [], jpc, a.jpc);
    }

    method JumpOnCond(e: Exp, cond: bool, ghost a: FS, ghost d: ExpDesc, ghost lo: nat, ghost fr: int)
      returns (st: Status, j: int)
      requires Models(a) && Describes(code, e, d) && Shape(a, d, lo, fr) && (d.k.VNONRELOC? || d.k.VRELOCABLE?)
      modifies `code, `jpc, `freereg, `maxstacksize
      ensures st.Success? ==> Models(CodeGen.JumpOnCond(a, d, cond).0)
                              && Threaded(code, j, CodeGen.JumpOnCond(a, d, cond).1)
      ensures st.Success? ==> KeepsJumps(old(code), code, a.jpc)
      ensures st.SyntaxError? ==> Exceeds(st, CodeGen.JumpOnCond(a, d, cond).0)
    {
      hide PatchList, OpenList, Distinct, Threaded, KeepsJumps, CodeGen.Discharge2AnyReg;
      j := NO_JUMP;
      if e.k.VRELOCABLE? {
        assert code[e.k.info] == a.code[e.k.info];
        var ie := code[e.k.info];
        if ie.NOT? {
          ghost var a1 := a.(code := a.code[..e.k.info]);
          code := code[..|code| - 1];
          KeptCut(old(code), code, a.jpc, jpc, []);
          NoneOpen(a1.code);
          ghost var c1 := code;
          j :- CondJump(TEST(ie.b, !cond), a1);
          KeptTwice(old(code), c1, code, a.jpc, []);
          return Success, j;
        }
      }
      JumpGrows(a, d, cond, lo, fr);
      HeldShape(a, d, lo, fr);
      var e1 :- Discharge2AnyReg(e, a, d, lo, fr);
      ghost var (a1, d1) := CodeGen.Discharge2AnyReg(a, d);
      FreeExp(e1, a1, d1);
      ghost var a2, c1 := CodeGen.FreeExp(a1, d1), code;
      ListedOpen(a2, d.t, d.f, lo, fr);
      HeldPending(a, d);
      j :- CondJump(TESTSET(NO_REG, e1.k.reg, cond), a2);
      KeptTwice(old(code), c1, code, a.jpc, a2.jpc);
      return Success, j;
    }

    /** The switch of luaK_goiftrue (cond false) and luaK_goiffalse (cond true). */
    method MakeJump(e: Exp, cond: bool, ghost a: FS, ghost d: ExpDesc, ghost lo: nat, ghost fr: int)
      returns (st: Status, pc: int)
      requires Models(a) && Describes(code, e, d) && Shape(a, d, lo, fr) && !d.k.VLOCAL? && !d.k.VGLOBAL?
      modifies `code, `jpc, `freereg, `maxstacksize
      ensures st.Success? ==> Models(Branch(a, d, cond)) && Threaded(code, pc, [JumpAt(a, d, cond)])
      ensures st.Success? ==> Threaded(code, e.t, d.t) && Threaded(code, e.f, d.f) && KeepsJumps(old(code), code, a.jpc)
      ensures st.SyntaxError? ==> Exceeds(st, Branch(a, d, cond))
    {
      hide PatchList, OpenList, Distinct, Threaded, Rep, KeepsJumps, CodeGen.JumpOnCond;
      pc := NO_JUMP;
      Parts(a, d);
      if e.k.VJMP? {
        KeptSelf(code, []);
        if !cond {
          InvertJump(e.k.info, a);
        }
        pc := e.k.info;
        ThreadedKept(old(code), code, [], pc, [d.k.info]);
      } else {
        JumpOnCondShape(a, d, cond, lo, fr);
        pc :- JumpOnCond(e, cond, a, d, lo, fr);
      }
      ThreadedKept(old(code), code, a.jpc, e.t, d.t);
      ThreadedKept(old(code), code, a.jpc, e.f, d.f);
      return Success, pc;
    }

    /** Adds jump pc to the list that leaves and closes the other one. */
    method LeaveThrough(pc: int, leave: int, other: int, ghost s: seq<nat>, ghost s': seq<nat>, ghost j: nat,
                        ghost a: FS) returns (st: Status, l: int)
      requires Models(a) && a.jpc == [] && Threaded(code, pc, [j]) && Threaded(code, leave, s)
               && Threaded(code, other, s')
      requires OpenList(a.code, s + [j]) && OpenList(a.code, s') && Apart(s', s)
      modifies `code, `jpc, `lasttarget
      ensures st.Success? ==> Models(CodeGen.PatchToHere(a, s')) && Threaded(code, l, s + [j])
                              && KeepsJumps(old(code), code, s)
      ensures st.SyntaxError? ==> TooLong(st, |a.code|)
    {
      hide PatchList, OpenList, Distinct, Threaded, Rep, KeepsJumps;
      l := NO_JUMP;
      l :- Concat(leave, pc, s, [j], a.code);
      ghost var c1 := code;
      ThreadedKept(old(code), c1, s, other, s');
      ThreadedKept(old(code), c1, s, jpc, []);
      assert a.jpc + s' == s';
      :- PatchToHere(other, s', a);
      ThreadedKept(c1, code, [], l, s + [j]);
      KeptTwice(old(code), c1, code, s, []);
      return Success, l;
    }

    method GoIfTrue(e: Exp, ghost a: FS, ghost d: ExpDesc, ghost lo: nat, ghost fr: int) returns (st: Status, r: Exp)
      requires Models(a) && Describes(code, e, d) && Shape(a, d, lo, fr)
      modifies `code, `jpc, `lasttarget, `freereg, `maxstacksize
      ensures st.Success? ==> Jumped(code, r, GoIf(a, d, false).1) && Models(GoIf(a, d, false).0)
      ensures st.Success? ==> KeepsJumps(old(code), code, Touched(a, d))
      ensures st.SyntaxError? ==> Exceeds(st, GoIf(a, d, false).0)
    {
      hide PatchList, OpenList, Distinct, Threaded, Rep, KeepsJumps, CodeGen.JumpOnCond;
      r := e;
      GoIfGrows(a, d, false, lo, fr);
      VarsGrow(a, d, 0);
      var e1 :- DischargeVars(e, a, d);
      ghost var (a1, d1) := CodeGen.DischargeVars(a, d);
      DischargeVarsShape(a, d, lo, fr);
      ghost var c1 := code;
      var pc :- MakeJump(e1, false, a1, d1, lo, fr);
      ghost var a2, j, c2 := Branch(a1, d1, false), JumpAt(a1, d1, false), code;
      BranchLists(a1, d1, false, lo, fr);
      var f :- LeaveThrough(pc, e1.f, e1.t, d1.f, d1.t, j, a2);
      EmptyList(code);
      KeptWider(old(code), c1, c2, a.jpc, a1.jpc, Touched(a, d));
      KeptWider(old(code), c2, code, Touched(a, d), d1.f, Touched(a, d));
      return Success, e1.(f := f, t := NO_JUMP);
    }

    method GoIfFalse(e: Exp, ghost a: FS, ghost d: ExpDesc, ghost lo: nat, ghost fr: int) returns (st: Status, r: Exp)
      requires Models(a) && Describes(code, e, d) && Shape(a, d, lo, fr)
      modifies `code, `jpc, `lasttarget, `freereg, `maxstacksize
      ensures st.Success? ==> Jumped(code, r, GoIf(a, d, true).1) && Models(GoIf(a, d, true).0)
      ensures st.Success? ==> KeepsJumps(old(code), code, Touched(a, d))
      ensures st.SyntaxError? ==> Exceeds(st, GoIf(a, d, true).0)
    {
      hide PatchList, OpenList, Distinct, Threaded, Rep, KeepsJumps, CodeGen.JumpOnCond;
      r := e;
      GoIfGrows(a, d, true, lo, fr);
      VarsGrow(a, d, 0);
      var e1 :- DischargeVars(e, a, d);
      ghost var (a1, d1) := CodeGen.DischargeVars(a, d);
      DischargeVarsShape(a, d, lo, fr);
      ghost var c1 := code;
      var pc :- MakeJump(e1, true, a1, d1, lo, fr);
      ghost var a2, j, c2 := Branch(a1, d1, true), JumpAt(a1, d1, true), code;
      BranchLists(a1, d1, true, lo, fr);
      var t :- LeaveThrough(pc, e1.t, e1.f, d1.t, d1.f, j, a2);
      EmptyList(code);
      KeptWider(old(code), c1, c2, a.jpc, a1.jpc, Touched(a, d));
      KeptWider(old(code), c2, code, Touched(a, d), d1.t, Touched(a, d));
      return Success, e1.(t := t, f := NO_JUMP);
    }

    method CodeNot(e: Exp, ghost a: FS, ghost d: ExpDesc, ghost lo: nat, ghost fr: int) returns (st: Status, r: Exp)
      requires Models(a) && Describes(code, e, d) && Shape(a, d, lo, fr)
      modifies `code, `jpc, `freereg, `maxstacksize
      ensures st.Success? ==> var (a', d') := CodeGen.CodeNot(a, d); Models(a') && Describes(code, r, d')
      ensures st.Success? ==> KeepsJumps(old(code), code, Touched(a, d))
      ensures st.SyntaxError? ==> Exceeds(st, CodeGen.CodeNot(a, d).0)
    {
      hide PatchList, OpenList, Distinct, Threaded, Rep, KeepsJumps, CodeGen.RemoveValues, Negate;
      r := e;
      CodeNotGrows(a, d, lo, fr);
      VarsGrow(a, d, 0);
      var e1 :- DischargeVars(e, a, d);
      ghost var (a1, d1) := CodeGen.DischargeVars(a, d);
      DischargeVarsShape(a, d, lo, fr);
      CodeNotIs(a, d);
      ghost var c1 := code;
      ghost var a2, d2 := a1, d1;
      if e1.k.VJMP? {
        InvertKeeps(a1, d1, lo, fr);
        InvertJump(e1.k.info, a1);
        a2 := a1.(code := CodeGen.InvertJump(a1.code, d1.k.info));
        DescribesKept(c1, code, [], e1, d1);
        KeptWider(old(code), c1, code, a.jpc, [], Touched(a, d));
      } else {
        NegateShape(a1, d1, lo, fr);
        a2, d2 := Negate(a1, d1).0, Negate(a1, d1).1;
        e1 :- CodeNegate(e1, a1, d1, lo, fr);
        KeptWider(old(code), c1, code, a.jpc, a1.jpc, Touched(a, d));
      }
      ghost var c2 := code;
      DropValues(e1, a2, d2, lo, fr);
      KeptWider(old(code), c2, code, Touched(a, d), [], Touched(a, d));
      return Success, e1.(t := e1.f, f := e1.t);
    }

    method CodeNegate(e: Exp, ghost a: FS, ghost d: ExpDesc, ghost lo: nat, ghost fr: int) returns (st: Status, r: Exp)
      requires Models(a) && Describes(code, e, d) && Shape(a, d, lo, fr) && (d.k.VNONRELOC? || d.k.VRELOCABLE?)
      modifies `code, `jpc, `freereg, `maxstacksize
      ensures st.Success? ==> Models(Negate(a, d).0) && Describes(code, r, Negate(a, d).1)
                              && KeepsJumps(old(code), code, a.jpc)
      ensures st.SyntaxError? ==> Exceeds(st, Negate(a, d).0)
    {
      hide PatchList, OpenList, Distinct, Threaded, Rep, KeepsJumps, CodeGen.Discharge2AnyReg;
      r := e;
      HeldShape(a, d, lo, fr);
      HeldPending(a, d);
      HeldGrows(a, d, lo, fr);
      var e1 :- Discharge2AnyReg(e, a, d, lo, fr);
      ghost var (a1, d1) := CodeGen.Discharge2AnyReg(a, d);
      FreeExp(e1, a1, d1);
      ghost var a2, c1 := CodeGen.FreeExp(a1, d1), code;
      ListedOpen(a2, d.t, d.f, lo, fr);
      Parts(a2, d);
      var pc :- Code(NOT(0, e1.k.reg), a2);
      DescribesKept(c1, code, a2.jpc, e1, d1);
      KeptTwice(old(code), c1, code, a.jpc, a2.jpc);
      return Success, e1.(k := VRELOCABLE(pc));
    }

    method DropValues(e: Exp, ghost a: FS, ghost d: ExpDesc, ghost lo: nat, ghost fr: int)
      requires Models(a) && Describes(code, e, d) && Shape(a, d, lo, fr) && a.jpc == []
      modifies `code
      ensures var c := CodeGen.RemoveValues(CodeGen.RemoveValues(a.code, d.t), d.f);
              Models(a.(code := c)) && Describes(code, e, d) && KeepsJumps(old(code), code, [])
    {
      hide PatchList, OpenList, Distinct, Threaded, Rep, KeepsJumps, CodeGen.RemoveValues;
      Parts(a, d);
      ghost var a1 := CodeGen.RemoveValues(a.code, d.t);
      RemovedOpen(a.code, d.t, d.f);
      RemoveValues(e.t, d.t, a.code);
      ghost var c1 := code;
      DescribesKept(old(code), c1, [], e, d);
      ThreadedKept(old(code), c1, [], jpc, a.jpc);
      RemoveValues(e.f, d.f, a1);
      DescribesKept(c1, code, [], e, d);
      ThreadedKept(c1, code, [], jpc, a.jpc);
      KeptTwice(old(code), c1, code, [], []);
    }

    // ----- binary operators

    /** luaK_posfix for `and` and `or`, from the list l of the first operand. */
    method JoinList(l: int, e: Exp, cond: bool, ghost d1: ExpDesc, ghost s: seq<nat>, ghost a: FS, ghost d: ExpDesc,
                    ghost lo: nat, ghost fr: int) returns (st: Status, r: Exp)
      requires Models(a) && Describes(code, e, d) && Threaded(code, l, s) && Shape(a, d, lo, fr)
               && s == (if cond then d1.t else d1.f)
      requires OpenList(a.code, s) && Apart(s, a.jpc) && forall x :: x in s ==> x < lo
      modifies `code, `jpc
      ensures st.Success? ==> var (a', d') := Join(a, d1, d, cond); Models(a') && Describes(code, r, d')
      ensures st.Success? ==> KeepsJumps(old(code), code, Touched(a, d))
      ensures st.SyntaxError? ==> TooLong(st, |Join(a, d1, d, cond).0.code|)
    {
      hide PatchList, OpenList, Distinct, Threaded, Rep, KeepsJumps, Apart, Within, Join, CodeGen.DischargeVars;
      r := e;
      VarsGrow(a, d, 0);
      JoinSame(a, d1, d, cond);
      var e1 :- DischargeVars(e, a, d);
      ghost var (a1, d2) := CodeGen.DischargeVars(a, d);
      ghost var c1 := code;
      DischargeVarsShape(a, d, lo, fr);
      ThreadedKept(old(code), c1, a.jpc, l, s);
      JoinLists(a, d, s, cond, lo, fr);
      ghost var s' := if cond then d2.t else d2.f;
      JoinWithin(a, d, |old(code)|, cond, lo, fr);
      var l1 :- Concat(if cond then e1.t else e1.f, l, s', s, a1.code);
      Parts(a1, d2);
      ThreadedKept(c1, code, s', if cond then e1.f else e1.t, if cond then d2.f else d2.t);
      ThreadedKept(c1, code, s', jpc, a1.jpc);
      if e1.k.VJMP? { ThreadedKept(c1, code, s', e1.k.info, [e1.k.info]); }
      KeptWider(old(code), c1, code, a.jpc, s', Touched(a, d));
      return Success, if cond then e1.(t := l1) else e1.(f := l1);
    }

    method CodeComp(op: CmpOp, cond: bool, e1: Exp, e2: Exp, ghost a1: FS, ghost d1: ExpDesc, ghost a: FS,
                    ghost d2: ExpDesc, ghost lo: nat, ghost fr: int) returns (st: Status, r: Exp)
      requires Models(a) && Describes(code, e1, d1) && Describes(code, e2, d2)
      requires Shape(a1, d1, lo, fr) && d1.k.VNONRELOC? && d1.t == [] && d1.f == []
      requires Shape(a, d2, |a1.code|, a1.freereg) && Untouched(a1, a) && a.nactvar == a1.nactvar
      modifies `code, `jpc, `lasttarget, `freereg, `maxstacksize
      ensures st.Success? ==> var (a', d') := CodeGen.CodeComp(a, op, cond, d1, d2);
              Models(a') && Describes(code, r, d')
      ensures st.Success? ==> KeepsJumps(old(code), code, Touched(a, d2))
      ensures st.SyntaxError? ==> Exceeds(st, CodeGen.CodeComp(a, op, cond, d1, d2).0)
    {
      hide PatchList, OpenList, Distinct, Threaded, Rep, KeepsJumps, CodeGen.Exp2AnyReg;
      RepLength(code, a.code);
      r := e1;
      HeadsEmpty(code, e1, d1);
      var o1 := e1.k.reg;
      CodeCompGrows(a, op, cond, d1, d2, |a1.code|, a1.freereg);
      var y :- Exp2AnyReg(e2, a, d2, |a1.code|, a1.freereg);
      ghost var (a2, dy) := CodeGen.Exp2AnyReg(a, d2);
      ghost var c1 := code;
      Exp2AnyRegShape(a, d2, |a1.code|, a1.freereg);
      CompareSettled(a1, d1, a2, dy, lo, fr);
      var o2 := y.k.reg;
      FreeExp(y, a2, dy);
      FreeExp(e1, CodeGen.FreeExp(a2, dy), d1);
      ghost var a3 := CodeGen.FreeExp(CodeGen.FreeExp(a2, dy), d1);
      ListedOpen(a3, [], [], lo, fr);
      var i := CMP(op, cond, o1, o2);
      if !cond && op != EQ {
        i := CMP(op, true, o2, o1);
      }
      var j :- CondJump(i, a3);
      CondJumpKeeps(a3, i, true, [], [], lo, fr);
      HeadIs(code, j, |a3.code| + 1);
      StaysIn(a, d1);
      EmptyList(code);
      ComparedPending(a, d2);
      KeptTwice(old(code), c1, code, Touched(a, d2), a3.jpc);
      return Success, Exp(VJMP(j), NO_JUMP, NO_JUMP);
    }

    // ----- whole expressions

    /** Compiles x as subexpr drives the code generator; proved equal to CodeGen.Compile. */
    method Expression(x: Expr, ghost a: FS) returns (st: Status, r: Exp)
      requires Models(a) && Start(a) && Closed(x, a.nactvar)
      modifies `code, `jpc, `lasttarget, `freereg, `maxstacksize
      ensures st.Success? ==> var (a', d') := Compile(a, x); Models(a') && Describes(code, r, d')
      ensures st.Success? ==> KeepsJumps(old(code), code, a.jpc)
      ensures st.SyntaxError? ==> Exceeds(st, Compile(a, x).0)
      decreases x
    {
      EmptyList(code);
      KeptSelf(code, a.jpc);
      match x
      case Local(reg) => return Success, Exp(VLOCAL(reg), NO_JUMP, NO_JUMP);
      case Global(n) => return Success, Exp(VGLOBAL(n), NO_JUMP, NO_JUMP);
      case Not(y) => st, r := Negation(x, a);
      case And(_, _) => st, r := ShortCircuit(x, a);
      case Or(_, _) => st, r := ShortCircuit(x, a);
      case Rel(_, _, _) => st, r := Relation(x, a);
    }

    method Negation(x: Expr, ghost a: FS) returns (st: Status, r: Exp)
      requires Models(a) && Start(a) && Closed(x, a.nactvar) && x.Not?
      modifies `code, `jpc, `lasttarget, `freereg, `maxstacksize
      ensures st.Success? ==> var (a', d') := Compile(a, x); Models(a') && Describes(code, r, d')
      ensures st.Success? ==> KeepsJumps(old(code), code, a.jpc)
      ensures st.SyntaxError? ==> Exceeds(st, Compile(a, x).0)
      decreases x, 0
    {
      hide PatchList, OpenList, Distinct, Threaded, Rep, KeepsJumps, CodeGen.CodeNot;
      RepLength(code, a.code);
      r := Exp(VLOCAL(0), NO_JUMP, NO_JUMP);
      CompileShape(a, x.x);
      CodeNotGrows(Compile(a, x.x).0, Compile(a, x.x).1, |a.code|, a.freereg);
      var e :- Expression(x.x, a);
      ghost var (a1, d1) := Compile(a, x.x);
      ghost var c1 := code;
      r :- CodeNot(e, a1, d1, |a.code|, a.freereg);
      TouchedAbove(a, a1, d1);
      KeptTwice(old(code), c1, code, a.jpc, Touched(a1, d1));
      return Success, r;
    }

    method ShortCircuit(x: Expr, ghost a: FS) returns (st: Status, r: Exp)
      requires Models(a) && Start(a) && Closed(x, a.nactvar) && (x.And? || x.Or?)
      modifies `code, `jpc, `lasttarget, `freereg, `maxstacksize
      ensures st.Success? ==> var (a', d') := Compile(a, x); Models(a') && Describes(code, r, d')
      ensures st.Success? ==> KeepsJumps(old(code), code, a.jpc)
      ensures st.SyntaxError? ==> Exceeds(st, Compile(a, x).0)
      decreases x, 1
    {
      hide PatchList, OpenList, Distinct, Threaded, Rep, KeepsJumps, GoIf, Compile;
      RepLength(code, a.code);
      r := Exp(VLOCAL(0), NO_JUMP, NO_JUMP);
      CompileIs(a, x);
      CompileShape(a, x.l);
      LogicGrows(a, x);
      var e1 :- Expression(x.l, a);
      ghost var (a1, d1) := Compile(a, x.l);
      ghost var c1 := code;
      TouchedAbove(a, a1, d1);
      GoIfShape(a1, d1, x.Or?, |a.code|, a.freereg);
      if x.Or? {
        e1 :- GoIfFalse(e1, a1, d1, |a.code|, a.freereg);
      } else {
        e1 :- GoIfTrue(e1, a1, d1, |a.code|, a.freereg);
      }
      ghost var (a2, d2) := GoIf(a1, d1, x.Or?);
      ghost var c2 := code;
      assert Jumped(code, e1, d2) && Models(a2);
      KeptTwice(old(code), c1, c2, a.jpc, Touched(a1, d1));
      r :- Second(x, if x.Or? then e1.t else e1.f, a2, d2, |a.code|);
      GoIfPending(a, a1, d1, x.Or?);
      KeptTwice(old(code), c2, code, a.jpc, a2.jpc);
      return Success, r;
    }

    /** The second operand of `and` or `or`, and the joining of the lists. */
    method Second(x: Expr, l: int, ghost a: FS, ghost d: ExpDesc, ghost lo: nat) returns (st: Status, r: Exp)
      requires Models(a) && (x.And? || x.Or?) && Closed(x.r2, a.nactvar) && Listed(a, d.t, d.f, lo, a.freereg)
      requires (if x.Or? then d.f else d.t) == [] && Threaded(code, l, if x.Or? then d.t else d.f)
      modifies `code, `jpc, `lasttarget, `freereg, `maxstacksize
      ensures st.Success? ==> var (a2, d2) := Compile(a, x.r2);
                              var (a', d') := Join(a2, d, d2, x.Or?);
                              Models(a') && Describes(code, r, d')
      ensures st.Success? ==> KeepsJumps(old(code), code, a.jpc)
      ensures st.SyntaxError? ==> Exceeds(st, Join(Compile(a, x.r2).0, d, Compile(a, x.r2).1, x.Or?).0)
      decreases x, 0
    {
      hide PatchList, OpenList, Distinct, Threaded, Rep, KeepsJumps, Compile, Join, KindShape, Touched, Apart, Within;
      RepLength(code, a.code);
      r := Exp(VLOCAL(0), NO_JUMP, NO_JUMP);
      StartAgain(a, d.t, d.f, lo, a.freereg);
      CompileShape(a, x.r2);
      ghost var s := if x.Or? then d.t else d.f;
      VarsGrow(Compile(a, x.r2).0, Compile(a, x.r2).1, 0);
      JoinSame(Compile(a, x.r2).0, d, Compile(a, x.r2).1, x.Or?);
      var e2 :- Expression(x.r2, a);
      ghost var (a2, d2) := Compile(a, x.r2);
      ghost var c1 := code;
      SecondReady(a, d, s, a2, lo);
      ThreadedKept(old(code), c1, a.jpc, l, s);
      r :- JoinList(l, e2, x.Or?, d, s, a2, d2, |a.code|, a.freereg);
      TouchedAbove(a, a2, d2);
      KeptTwice(old(code), c1, code, a.jpc, Touched(a2, d2));
      return Success, r;
    }

    method Relation(x: Expr, ghost a: FS) returns (st: Status, r: Exp)
      requires Models(a) && Start(a) && Closed(x, a.nactvar) && x.Rel?
      modifies `code, `jpc, `lasttarget, `freereg, `maxstacksize
      ensures st.Success? ==> var (a', d') := Compile(a, x); Models(a') && Describes(code, r, d')
      ensures st.Success? ==> KeepsJumps(old(code), code, a.jpc)
      ensures st.SyntaxError? ==> Exceeds(st, Compile(a, x).0)
      decreases x, 0
    {
      hide PatchList, OpenList, Distinct, Threaded, Rep, KeepsJumps, CodeGen.Exp2AnyReg, CodeGen.CodeComp, Compile;
      RepLength(code, a.code);
      r := Exp(VLOCAL(0), NO_JUMP, NO_JUMP);
      var op, cond := Comparison(x.op).0, Comparison(x.op).1;
      CompileIs(a, x);
      CompileShape(a, x.l);
      RelGrows(a, x);
      var e1 :- Expression(x.l, a);
      ghost var (a1, d1) := Compile(a, x.l);
      ghost var c1 := code;
      TouchedAbove(a, a1, d1);
      Exp2AnyRegShape(a1, d1, |a.code|, a.freereg);
      e1 :- Exp2AnyReg(e1, a1, d1, |a.code|, a.freereg);
      ghost var (a2, d2) := CodeGen.Exp2AnyReg(a1, d1);
      ghost var c2 := code;
      KeptTwice(old(code), c1, c2, a.jpc, Touched(a1, d1));
      HeldStart(a2, d2, |a.code|, a.freereg);
      CompileShape(a2, x.r2);
      var e2 :- Expression(x.r2, a2);
      ghost var (a3, d3) := Compile(a2, x.r2);
      ghost var c3 := code;
      TouchedAbove(a, a2, d2);
      KeptTwice(old(code), c2, c3, a.jpc, a2.jpc);
      DescribesKept(c2, c3, a2.jpc, e1, d2);
      r :- CodeComp(op, cond, e1, e2, a2, d2, a3, d3, |a.code|, a.freereg);
      TouchedAbove(a2, a3, d3);
      KeptTwice(old(code), c3, code, a.jpc, Touched(a3, d3));
      return Success, r;
    }

    /** `reg := x` followed by any instruction: unless a limit is exceeded, the code emitted
        for the assignment computes x into reg, for every world and in every frame of at least
        maxstacksize registers.  An error means that the assignment as a whole is over the limit;
        expressions whose depth and size fit the registers and the jumps never are. */
    method AssignLocal(x: Expr, reg: nat, next: Instr, ghost a: FS) returns (st: Status)
      requires Models(a) && Start(a) && Closed(x, a.nactvar) && reg < a.nactvar
      modifies `code, `jpc, `lasttarget, `freereg, `maxstacksize
      ensures st.Success? ==> |code| > |old(code)| && code[|code| - 1] == next && jpc == NO_JUMP
                              && freereg == old(freereg)
      ensures st.Success? ==> AlwaysComputes(code[..|code| - 1], |old(code)|, x, reg, a.nactvar, a.freereg,
                                             maxstacksize)
      ensures st.Success? ==> KeepsJumps(old(code), code, a.jpc)
      ensures st.SyntaxError? ==> Exceeds(st, StoreLocal(a, x, reg))
      ensures st.Success? ==> StoreLocal(a, x, reg).maxstack < MAXSTACK
      ensures a.freereg + Depth(x) < MAXSTACK && |old(code)| + PER_NODE * Size(x) + 5 <= MAXARG_SBX ==> st.Success?
    {
      hide PatchList, OpenList, Distinct, Threaded, Rep, KeepsJumps, StoreLocal, View, AlwaysComputes, Start, Closed,
        Size, Depth;
      RepLength(code, a.code);
      StoredShape(a, x, reg);
      StoreFits(a, x, reg);
      ghost var a' := StoreLocal(a, x, reg);
      :- StoreVar(x, reg, a);
      ghost var c1 := code;
      var _ :- Code(next, a');
      KeptTwice(old(code), c1, code, a.jpc, a'.jpc);
      AssignedAlways(a, x, reg, code, next);
      RepPrefix(code, View(a'), next);
      NoList(code, jpc);
      return Success;
    }

    /** luaK_storevar to a local variable. */
    method StoreVar(x: Expr, reg: nat, ghost a: FS) returns (st: Status)
      requires Models(a) && Start(a) && Closed(x, a.nactvar)
      modifies `code, `jpc, `lasttarget, `freereg, `maxstacksize
      ensures st.Success? ==> Models(StoreLocal(a, x, reg)) && KeepsJumps(old(code), code, a.jpc)
      ensures st.SyntaxError? ==> Exceeds(st, StoreLocal(a, x, reg))
    {
      hide PatchList, OpenList, Distinct, Threaded, Rep, KeepsJumps, Compile, CodeGen.Exp2Reg;
      RepLength(code, a.code);
      CompileShape(a, x);
      StoreGrows(a, x, reg);
      var e :- Expression(x, a);
      ghost var (a1, d1) := Compile(a, x);
      ghost var c1 := code;
      FreeExp(e, a1, d1);
      ghost var a2 := CodeGen.FreeExp(a1, d1);
      var _ :- Exp2Reg(e, reg, a2, d1, a1, |a.code|, a.freereg);
      TouchedAbove(a, a1, d1);
      KeptTwice(old(code), c1, code, a.jpc, Touched(a2, d1));
      return Success;
    }
  }

  lemma VarsFirst(a: FS, d: ExpDesc, reg: int)
    ensures Grows(a, CodeGen.DischargeVars(a, d).0, 1, 0)
    ensures |CodeGen.DischargeVars(a, d).0.code| <= |CodeGen.Discharge2Reg(a, d, reg).0.code|
  {
    hide PatchList;
  }

  lemma NextRegGrows(a: FS, d: ExpDesc)
    ensures |a.code| <= |CodeGen.DischargeVars(a, d).0.code| <= |CodeGen.Exp2NextReg(a, d).0.code|
  {
    hide PatchList, CodeGen.Exp2Reg;
    var (a1, d1) := CodeGen.DischargeVars(a, d);
    var a2 := Reserve(CodeGen.FreeExp(a1, d1), 1);
    Exp2RegGrows(a2, d1, a2.freereg - 1, 0);
  }

  lemma JoinSame(a: FS, d1: ExpDesc, d: ExpDesc, cond: bool)
    ensures var (a', d') := CodeGen.DischargeVars(a, d);
            Join(a, d1, d, cond) == (a', if cond then d'.(t := d'.t + d1.t) else d'.(f := d'.f + d1.f))
  {
  }

  /** Running code from lo computes x into reg, as Lua evaluates it, and leaves the other
      registers in use as they were. */
  ghost predicate Computes(w: World, code: seq<Instr>, lo: nat, m: Machine, x: Expr, reg: int, nactvar: int, fr: int) {
    0 <= nactvar <= |m.regs| &&
    var o := Run(w, code, lo, m);
    var (v, tr) := Eval(w, x, m.regs[..nactvar], m.trace);
    && o.Fall? && o.m.Get(reg) == v && o.m.trace == tr
    && forall i :: 0 <= i < fr && i != reg ==> o.m.Get(i) == m.Get(i)
  }

  /** So it is in every world and in every frame of at least `frame` registers. */
  ghost predicate AlwaysComputes(code: seq<Instr>, lo: nat, x: Expr, reg: int, nactvar: int, fr: int, frame: int) {
    forall w: World, m: Machine :: m.Valid() && frame <= |m.regs| ==> Computes(w, code, lo, m, x, reg, nactvar, fr)
  }

  lemma AssignedAlways(a: FS, x: Expr, reg: int, code: seq<Instr>, next: Instr)
    requires Start(a) && Closed(x, a.nactvar) && 0 <= reg < a.nactvar
    requires Rep(code, View(StoreLocal(a, x, reg)) + [next])
    ensures code != [] && AlwaysComputes(code[..|code| - 1], |a.code|, x, reg, a.nactvar, a.freereg,
                                          StoreLocal(a, x, reg).maxstack)
  {
    hide Run, PatchList, OpenList, Rep, StoreLocal, Eval;
    var c := View(StoreLocal(a, x, reg));
    StoreGrows(a, x, reg);
    RepPrefix(code, c, next);
    var done := code[..|code| - 1];
    forall w: World, m: Machine | m.Valid() && StoreLocal(a, x, reg).maxstack <= |m.regs|
      ensures Computes(w, done, |a.code|, m, x, reg, a.nactvar, a.freereg) {
      AssignmentCorrect(w, a, x, reg, m);
      RunRep(w, done, c, |a.code|, m);
    }
  }

  /** A run that never reaches an open jump does not see the links in the open jumps. */
  lemma {:induction false} RunRep(w: World, code: seq<Instr>, a: seq<Instr>, pc: nat, m: Machine)
    requires Rep(code, a) && Run(w, a, pc, m).Fall?
    ensures Run(w, code, pc, m) == Run(w, a, pc, m)
    decreases |a| - pc
  {
    if pc < |a| {
      match Step(w, a, pc, m)
      case Next(pc', m') =>
        assert Step(w, code, pc, m) == Step(w, a, pc, m);
        RunRep(w, code, a, pc', m');
      case _ =>
    }
  }

  lemma RepLength(code: seq<Instr>, a: seq<Instr>)
    requires Rep(code, a)
    ensures |code| == |a|
  {
  }

  lemma RepPrefix(code: seq<Instr>, a: seq<Instr>, i: Instr)
    requires Rep(code, a + [i])
    ensures |code| == |a| + 1 && Rep(code[..|a|], a)
  {
    assert forall k :: 0 <= k < |a| ==> (a + [i])[k] == a[k];
  }

  lemma NoList(code: seq<Instr>, head: int)
    requires Threaded(code, head, [])
    ensures head == NO_JUMP
  {
  }

  lemma StoredShape(a: FS, x: Expr, reg: int)
    requires Start(a) && Closed(x, a.nactvar)
    ensures var a' := StoreLocal(a, x, reg);
            && OpenList(a'.code, a'.jpc) && |a'.code| >= |a.code| && a'.freereg == a.freereg
            && (forall j :: j in a'.jpc ==> j in a.jpc || j >= |a.code|)
  {
    hide PatchList, OpenList, Compile;
    CompileShape(a, x);
    var (a1, d1) := Compile(a, x);
    var (a2, d2) := CodeGen.DischargeVars(a1, d1);
    DischargeVarsShape(a1, d1, |a.code|, a.freereg);
    var a3 := CodeGen.FreeExp(a1, d1);
    assert CodeGen.DischargeVars(a3, d1) == (a2.(freereg := a.freereg, maxstack := a1.maxstack), d2);
    Exp2RegShape(a2, d2, reg, |a.code|, a.freereg, a.freereg, a1.maxstack);
    assert StoreLocal(a, x, reg) == CodeGen.Exp2Reg(a2.(freereg := a.freereg, maxstack := a1.maxstack), d2, reg).0;
    StoredPending(a, x, reg);
  }

  lemma StoredPending(a: FS, x: Expr, reg: int)
    requires Start(a) && Closed(x, a.nactvar)
    ensures forall j :: j in StoreLocal(a, x, reg).jpc ==> j in a.jpc || j >= |a.code|
  {
    hide PatchList, OpenList, Compile;
    CompileShape(a, x);
  }

  /** Everything an operation on a freshly compiled operand touches is new or was pending. */
  lemma TouchedAbove(a: FS, a': FS, d: ExpDesc)
    requires Shape(a', d, |a.code|, a.freereg)
    requires |a'.code| == |a.code| ==> a'.jpc == a.jpc
    ensures Within(Touched(a', d), a.jpc, |a.code|) && Within(a'.jpc, a.jpc, |a.code|)
  {
  }

  lemma GoIfPending(a: FS, a1: FS, d1: ExpDesc, cond: bool)
    requires Shape(a1, d1, |a.code|, a.freereg)
    ensures Within(GoIf(a1, d1, cond).0.jpc, a.jpc, |a.code|)
  {
    hide PatchList, OpenList;
    GoIfShape(a1, d1, cond, |a.code|, a.freereg);
  }

  lemma SecondReady(a: FS, d: ExpDesc, s: seq<nat>, a2: FS, lo: nat)
    requires Listed(a, d.t, d.f, lo, a.freereg) && ((s == d.t && d.f == []) || (s == d.f && d.t == []))
    requires |a.code| <= |a2.code| && View(a2)[..|a.code|] == View(a) && Untouched(a, a2) && PendingAbove(a2, |a.code|)
    ensures OpenList(a2.code, s) && Apart(s, a2.jpc) && Apart(s, a.jpc) && forall x :: x in s ==> x < |a.code|
  {
    hide OpenList, PatchList;
    Parts(a, d);
    assert a.jpc + d.t + d.f == a.jpc + s;
    EarlierOpen(a, s, a2, lo);
  }

  lemma HeadIs(code: seq<Instr>, head: int, j: nat)
    requires Threaded(code, head, [j])
    ensures head == j
  {
  }

  lemma HeadsEmpty(code: seq<Instr>, e: Exp, d: ExpDesc)
    requires Describes(code, e, d) && d.t == [] && d.f == []
    ensures e.t == e.f == NO_JUMP
  {
  }

  lemma StaysIn(a: FS, d: ExpDesc)
    requires d.k.VNONRELOC? && d.t == [] && d.f == []
    ensures CodeGen.Exp2AnyReg(a, d) == (a, d)
  {
    hide CodeGen.Exp2Reg;
  }

  lemma LandedPending(fs: FS, isJump: bool, t: seq<nat>, f: seq<nat>, reg: int)
    ensures Within(LandJumps(fs, isJump, t, f, reg).jpc, fs.jpc, |fs.code|)
  {
    hide PatchList, CodeGen.NeedValue;
  }

  lemma RegPending(fs: FS, e: ExpDesc, reg: int)
    ensures Within(CodeGen.Exp2Reg(fs, e, reg).0.jpc, fs.jpc, |fs.code|)
  {
    hide PatchList, SetA, LandJumps;
    var (fs1, e1) := CodeGen.Discharge2Reg(fs, e, reg);
    LandedPending(fs1, e1.k.VJMP?, if e1.k.VJMP? then e1.t + [e1.k.info] else e1.t, e1.f, reg);
  }

  lemma ComparedPending(a: FS, d: ExpDesc)
    ensures Within(CodeGen.Exp2AnyReg(a, d).0.jpc, Touched(a, d), |a.code|)
  {
    hide PatchList, CodeGen.Exp2Reg;
    var (a1, d1) := CodeGen.DischargeVars(a, d);
    var a2 := Reserve(FreeExp(a1, d1), 1);
    RegPending(a2, d1, a2.freereg - 1);
    if d1.k.VNONRELOC? { RegPending(a1, d1, d1.k.reg); }
  }

  lemma JoinWithin(a: FS, d: ExpDesc, n: nat, cond: bool, lo: nat, fr: int)
    requires Shape(a, d, lo, fr)
    ensures var s := if cond then d.t else d.f;
            Within(a.jpc, Touched(a, d), n) && Within(s, Touched(a, d), n) && (d.k.VJMP? ==> Apart([d.k.info], s))
  {
  }

  lemma JoinLists(a: FS, d: ExpDesc, s: seq<nat>, cond: bool, lo: nat, fr: int)
    requires Shape(a, d, lo, fr) && OpenList(a.code, s) && Apart(s, a.jpc) && forall x :: x in s ==> x < lo
    ensures var (a1, d1) := CodeGen.DischargeVars(a, d);
            && OpenList(a1.code, (if cond then d1.t else d1.f) + s)
            && Apart(s, a1.jpc) && Apart(s, d1.t) && Apart(s, d1.f)
  {
    hide PatchList;
    var (a1, d1) := CodeGen.DischargeVars(a, d);
    Parts(a, d);
    if d.k.VGLOBAL? {
      PatchOpen(a.code, a.jpc, s, |a.code|, NO_REG, |a.code|);
      OpenExtend(View(a), a1.code, s);
    }
    DischargeVarsShape(a, d, lo, fr);
    Parts(a1, d1);
    OpenJoin(a1.code, if cond then d1.t else d1.f, s);
  }

  /** Where the jump is that Branch makes of an operand. */
  function JumpAt(a: FS, d: ExpDesc, cond: bool): nat {
    if d.k.VJMP? then d.k.info else |Consumed(a, d).code| + 1
  }

  predicate Jumped(code: seq<Instr>, e: Exp, d: ExpDesc) {
    Threaded(code, e.t, d.t) && Threaded(code, e.f, d.f)
  }

  lemma RemovedOpen(a: seq<Instr>, s: seq<nat>, s': seq<nat>)
    requires OpenList(a, s) && OpenList(a, s')
    ensures OpenList(CodeGen.RemoveValues(a, s), s')
  {
    hide CodeGen.RemoveValues;
    RemoveValuesKeeps(a, s);
  }

  lemma BranchLists(a: FS, d: ExpDesc, cond: bool, lo: nat, fr: int)
    requires Shape(a, d, lo, fr) && !d.k.VLOCAL? && !d.k.VGLOBAL?
    ensures var a' := Branch(a, d, cond);
            var j := JumpAt(a, d, cond);
            var s, s' := if cond then d.t else d.f, if cond then d.f else d.t;
            && a'.jpc == [] && OpenList(a'.code, s + [j]) && OpenList(a'.code, s')
            && Apart(s', s)
            && (d.k.VJMP? || CodeGen.JumpOnCond(a, d, cond).1 == [j])
  {
    hide PatchList, OpenList, CodeGen.JumpOnCond, Consumed;
    var j := JumpAt(a, d, cond);
    if d.k.VJMP? { BranchJumpShape(a, d, cond, lo, fr); } else { JumpOnCondShape(a, d, cond, lo, fr); }
    var a' := Branch(a, d, cond);
    var (t', f') := Added(cond, d.t, d.f, j);
    Parts(a', ExpDesc(d.k, t', f'));
    Parts(a, d);
  }

  lemma ListedOpen(a: FS, t: seq<nat>, f: seq<nat>, lo: nat, fr: int)
    requires Listed(a, t, f, lo, fr)
    ensures OpenList(a.code, a.jpc)
  {
    OpenParts(a.code, a.jpc + t, f);
    OpenParts(a.code, a.jpc, t);
  }

  /** Dropping a last instruction that is no jump. */
  lemma KeptCut(code: seq<Instr>, code': seq<Instr>, s: seq<nat>, head: int, s': seq<nat>)
    requires code != [] && code' == code[..|code| - 1] && !code[|code| - 1].JMP?
    ensures KeepsJumps(code, code', s)
    ensures Threaded(code, head, s') ==> Threaded(code', head, s')
  {
    hide Threaded;
    assert KeepsJumps(code, code', []);
    if Threaded(code, head, s') { ThreadedKept(code, code', [], head, s'); }
  }

  lemma HeldPending(a: FS, d: ExpDesc)
    ensures var jpc := CodeGen.Discharge2AnyReg(a, d).0.jpc; jpc == [] || jpc == a.jpc
  {
    hide PatchList;
  }

  /** a is a0 with other register counts. */
  predicate Retuned(a0: FS, a: FS) {
    a == a0.(freereg := a.freereg, maxstack := a.maxstack)
  }

  /** The jumps an operation on d may change. */
  function Touched(a: FS, d: ExpDesc): seq<nat> {
    a.jpc + d.t + d.f + (if d.k.VJMP? then [d.k.info] else [])
  }

  lemma RetunedVars(a0: FS, a: FS, d: ExpDesc)
    requires Retuned(a0, a)
    ensures Retuned(CodeGen.DischargeVars(a0, d).0, CodeGen.DischargeVars(a, d).0)
    ensures CodeGen.DischargeVars(a0, d).1 == CodeGen.DischargeVars(a, d).1
  {
    assert View(a) == View(a0);
  }

  /** Heads of disjoint lists differ unless both lists are empty. */
  lemma Heads(code: seq<Instr>, t: int, dt: seq<nat>, f: int, df: seq<nat>, a: FS, d: ExpDesc)
    requires Threaded(code, t, dt) && Threaded(code, f, df) && d.t == dt && d.f == df
    requires OpenList(a.code, a.jpc + d.t + d.f)
    ensures (t == f) == (dt == [] && df == [])
  {
    Parts(a, d);
    if dt != [] && df != [] { assert dt[0] in dt && df[0] in df; }
  }

  /** What discharging an operand into a register leaves to be landed. */
  lemma Discharged(a0: FS, a: FS, d: ExpDesc, reg: int, lo: nat, fr: int)
    requires Shape(a0, d, lo, fr) && Retuned(a0, a)
    ensures var (a1, d1) := CodeGen.Discharge2Reg(a, d, reg);
            var dt := if d1.k.VJMP? then d1.t + [d1.k.info] else d1.t;
            && d1.t == d.t && d1.f == d.f && d1.k.VJMP? == d.k.VJMP?
               && (d.k.VJMP? ==> d1 == d && a1 == a && a.jpc == [])
            && OpenList(a1.code, a1.jpc + d1.t + d1.f)
            && OpenList(a1.code, a1.jpc + dt + d1.f) && NoTrailingTest(a1.code)
            && (a1.jpc == [] || a1.jpc == a.jpc)
  {
    hide PatchList, OpenList;
    DischargeVarsShape(a0, d, lo, fr);
    RetunedVars(a0, a, d);
    var (a2, d2) := CodeGen.DischargeVars(a0, d);
    if d.k.VJMP? {
      JumpOpens(a0, d, lo, fr);
    } else {
      var (a3, d3) := CodeGen.DischargeVars(a, d);
      Discharge2RegShape(a2, d2, reg, lo, fr, a.freereg, a.maxstack);
      assert CodeGen.Discharge2Reg(a, d, reg) == CodeGen.Discharge2Reg(a3, d3, reg);
      assert a3 == a2.(freereg := a.freereg, maxstack := a.maxstack);
    }
  }

  lemma TrueReady(a: FS, d: ExpDesc, dt: seq<nat>)
    requires OpenList(a.code, a.jpc + d.t + d.f) && OpenList(a.code, a.jpc + dt + d.f) && a.jpc == []
    ensures OpenList(a.code, dt) && Apart(d.f, d.t) && Apart([], d.t)
  {
    hide OpenList;
    Parts(a, d);
    Parts(a, d.(t := dt));
  }

  lemma LandReady(a: FS, d: ExpDesc, reg: int, pf: nat, pt: nat)
    requires OpenList(a.code, a.jpc + d.t + d.f)
    ensures var c := PatchList(a.code, d.f, |a.code|, reg, pf);
            && OpenList(a.code, d.f) && OpenList(c, d.t) && CodeGen.NeedValue(c, d.t) == CodeGen.NeedValue(a.code, d.t)
            && Apart(d.t, d.f) && Apart(a.jpc, d.f) && Apart(a.jpc, d.t)
  {
    hide PatchList, OpenList, CodeGen.NeedValue;
    LandOpen(a, d.t, d.f, reg, pf, pt);
    Parts(a, d);
    NeedPatched(a.code, PatchList(a.code, d.f, |a.code|, reg, pf), d.t);
  }

  lemma WithinSum(s: seq<nat>, s': seq<nat>, n: nat)
    ensures Within(s, s' + s, n) && Within(s', s' + s, n)
  {
  }

  lemma NeedPatched(a: seq<Instr>, a': seq<Instr>, s: seq<nat>)
    requires forall j :: j in s ==> IsValueJump(a', j) == IsValueJump(a, j)
    ensures CodeGen.NeedValue(a', s) == CodeGen.NeedValue(a, s)
  {
    assert forall i :: 0 <= i < |s| ==> s[i] in s;
  }

  lemma RepNeed(code: seq<Instr>, a: seq<Instr>, s: seq<nat>)
    requires Rep(code, a)
    ensures CodeGen.NeedValue(code, s) == CodeGen.NeedValue(a, s)
  {
    assert forall j: nat :: IsValueJump(code, j) == IsValueJump(a, j);
  }

  /** The lists of one state are open, one by one, and share no jump. */
  lemma Parts(a: FS, d: ExpDesc)
    requires OpenList(a.code, a.jpc + d.t + d.f)
    ensures OpenList(a.code, a.jpc) && OpenList(a.code, d.t) && OpenList(a.code, d.f)
    ensures OpenList(a.code, d.t + d.f)
    ensures Apart(a.jpc, d.t) && Apart(a.jpc, d.f) && Apart(d.t, d.f)
    ensures Apart(d.t, a.jpc) && Apart(d.f, a.jpc) && Apart(d.f, d.t)
  {
    assert a.jpc + d.t + d.f == a.jpc + (d.t + d.f);
    OpenParts(a.code, a.jpc, d.t + d.f);
    OpenParts(a.code, d.t, d.f);
    assert forall x :: x in d.t || x in d.f ==> x in d.t + d.f;
  }

  lemma DescribesKept(code: seq<Instr>, code': seq<Instr>, s: seq<nat>, e: Exp, d: ExpDesc)
    requires KeepsJumps(code, code', s) && Describes(code, e, d)
    requires Apart(d.t, s) && Apart(d.f, s) && (d.k.VJMP? ==> Apart([d.k.info], s))
    ensures Describes(code', e, d)
  {
    ThreadedKept(code, code', s, e.t, d.t);
    ThreadedKept(code, code', s, e.f, d.f);
    if e.k.VJMP? { ThreadedKept(code, code', s, e.k.info, [e.k.info]); }
  }

  lemma NoneOpen(a: seq<Instr>)
    ensures OpenList(a, [])
  {
  }

  lemma EmptyList(code: seq<Instr>)
    ensures Threaded(code, NO_JUMP, [])
  {
  }

  lemma KeptSelf(code: seq<Instr>, s: seq<nat>)
    ensures KeepsJumps(code, code, s)
  {
  }

  lemma KeptWider(c0: seq<Instr>, c1: seq<Instr>, c2: seq<Instr>, s: seq<nat>, s': seq<nat>, s'': seq<nat>)
    requires KeepsJumps(c0, c1, s) && KeepsJumps(c1, c2, s')
    requires Within(s, s'', |c0|) && Within(s', s'', |c0|)
    ensures KeepsJumps(c0, c2, s'')
  {
  }

  lemma KeptTwice(c0: seq<Instr>, c1: seq<Instr>, c2: seq<Instr>, s: seq<nat>, s': seq<nat>)
    requires KeepsJumps(c0, c1, s) && KeepsJumps(c1, c2, s')
    requires Within(s', s, |c0|)
    ensures KeepsJumps(c0, c2, s)
  {
  }

  lemma KeptMore(c0: seq<Instr>, c1: seq<Instr>, c2: seq<Instr>, s: seq<nat>, j: nat)
    requires KeepsJumps(c0, c1, s) && KeepsJumps(c1, c2, [j]) && j in s
    ensures KeepsJumps(c0, c2, s)
  {
  }

  lemma NeedTail(a: seq<Instr>, a': seq<Instr>, s: seq<nat>)
    requires s != [] && s[0] !in s[1..]
    requires forall j: nat :: j != s[0] ==> IsValueJump(a', j) == IsValueJump(a, j)
    ensures CodeGen.NeedValue(a', s[1..]) ==> CodeGen.NeedValue(a, s)
  {
    if CodeGen.NeedValue(a', s[1..]) {
      var i :| 0 <= i < |s[1..]| && !IsValueJump(a', s[1..][i]);
      assert s[1..][i] in s[1..];
      assert !IsValueJump(a, s[i + 1]);
    }
  }

  lemma TailThreaded(code: seq<Instr>, head: int, s: seq<nat>)
    requires Threaded(code, head, s) && s != []
    ensures head == s[0] && Threaded(code, GetJump(code, s[0]), s[1..]) && s[0] !in s[1..]
  {
    assert GetJump(code, s[0]) == LinkAt(s, 0);
    forall i | 0 <= i < |s[1..]|
      ensures s[1..][i] < |code| && code[s[1..][i]].JMP? && GetJump(code, s[1..][i]) == LinkAt(s[1..], i)
    {
      assert s[1..][i] == s[i + 1] && GetJump(code, s[i + 1]) == LinkAt(s, i + 1);
    }
  }

  lemma PatchTail(code: seq<Instr>, s: seq<nat>, vtarget: nat, reg: int, dtarget: nat)
    requires s != [] && Threaded(code, s[0], s)
    ensures Threaded(PatchJump(code, s[0], vtarget, reg, dtarget), GetJump(code, s[0]), s[1..])
  {
    TailThreaded(code, s[0], s);
    ThreadedKept(code, PatchJump(code, s[0], vtarget, reg, dtarget), [s[0]], GetJump(code, s[0]), s[1..]);
  }

  lemma RepControl(code: seq<Instr>, a: seq<Instr>, j: nat, reg: int)
    requires Rep(code, a) && OpenJump(a, j)
    ensures IsValueJump(code, j) == IsValueJump(a, j)
    ensures Rep(PatchControl(code, j, reg), PatchControl(a, j, reg))
    ensures KeepsJumps(code, PatchControl(code, j, reg), [])
  {
  }

  lemma RepPatch(code: seq<Instr>, a: seq<Instr>, j: nat, vtarget: nat, reg: int, dtarget: nat)
    requires Rep(code, a) && OpenJump(a, j)
    ensures IsValueJump(code, j) == IsValueJump(a, j)
    ensures Rep(PatchJump(code, j, vtarget, reg, dtarget), PatchJump(a, j, vtarget, reg, dtarget))
    ensures KeepsJumps(code, PatchJump(code, j, vtarget, reg, dtarget), [j])
  {
  }

  lemma ConcatEmpty(code: seq<Instr>, l1: int, s: seq<nat>, l2: int, s': seq<nat>)
    requires Threaded(code, l1, s) && Threaded(code, l2, s')
    ensures (l1 == NO_JUMP <==> s == []) && (l2 == NO_JUMP <==> s' == [])
  {
  }

  /** Linking the last jump of one list to the head of another appends the lists. */
  lemma AppendThreaded(code: seq<Instr>, l1: int, s: seq<nat>, l2: int, s': seq<nat>, a: seq<Instr>)
    requires Rep(code, a) && OpenList(a, s + s') && Threaded(code, l1, s) && Threaded(code, l2, s') && s != []
             && s' != []
    ensures var last := s[|s| - 1];
            last < |code| && var code' := code[last := JMP(l2 - (last + 1))];
            && Threaded(code', l1, s + s') && Rep(code', a) && KeepsJumps(code, code', s)
            && (forall i :: 0 <= i < |code| && !code[i].JMP? ==> code'[i] == code[i])
            && code[last].JMP? && 0 <= l2 < |code| == |a|
  {
    var last := s[|s| - 1];
    var code' := code[last := JMP(l2 - (last + 1))];
    OpenParts(a, s, s');
    assert OpenJump(a, last) && Distinct(s + s') && Apart(s, s');
    forall i | 0 <= i < |s + s'|
      ensures (s + s')[i] < |code'| && code'[(s + s')[i]].JMP? && GetJump(code', (s + s')[i]) == LinkAt(s + s', i)
    {
      AppendedLink(code, s, l2, s', i);
    }
  }

  lemma LinkOf(code: seq<Instr>, head: int, s: seq<nat>, i: nat)
    requires Threaded(code, head, s) && i < |s|
    ensures s[i] < |code| && code[s[i]].JMP? && GetJump(code, s[i]) == LinkAt(s, i)
    ensures forall k :: 0 <= k < |s| && k != i ==> s[k] != s[i]
  {
  }

  lemma AppendedLink(code: seq<Instr>, s: seq<nat>, l2: int, s': seq<nat>, i: nat)
    requires s != [] && Threaded(code, s[0], s) && Threaded(code, l2, s') && s' != [] && i < |s + s'| && Apart(s, s')
    ensures var last := s[|s| - 1];
            last < |code| && var code' := code[last := JMP(l2 - (last + 1))];
            var x := (s + s')[i];
            x < |code| && code'[x].JMP? && GetJump(code', x) == LinkAt(s + s', i)
  {
    hide Threaded;
    var last := s[|s| - 1];
    LinkOf(code, s[0], s, |s| - 1);
    ListHead(code, l2, s');
    if i < |s| {
      LinkOf(code, s[0], s, i);
      assert s[|s| - 1] in s && s'[0] in s';
    } else {
      LinkOf(code, l2, s', i - |s|);
      assert s'[i - |s|] in s' && last in s;
    }
  }

  lemma ListHead(code: seq<Instr>, head: int, s: seq<nat>)
    requires Threaded(code, head, s) && s != []
    ensures head == s[0]
  {
  }
}
