/** What patching does to the runs of a code fragment. */
module CodeGenRuns {
  import opened Common
  import opened Opcodes
  import opened CodeGen

  /** The machine in which a patched jump arrives at its destination. */
  function Landed(o: Outcome, isValue: bool, reg: int): Machine
    requires o.Exit?
  {
    if isValue && o.val.Some? then o.m.Set(reg, o.val.value) else o.m
  }

  lemma JumpPatched(code: seq<Instr>, j: nat, vtarget: nat, reg: int, dtarget: nat, j': nat, val: Option<Value>,
                    m: Machine)
    requires OpenJump(code, j) && j < vtarget && j < dtarget
    ensures Jump(PatchJump(code, j, vtarget, reg, dtarget), j', val, m) ==
              if j' == j then Next(if IsValueJump(code, j) then vtarget else dtarget, m) else Jump(code, j', val, m)
  {
  }

  /** One instruction before and after the patch. */
  lemma StepPatchJump(w: World, code: seq<Instr>, j: nat, vtarget: nat, reg: int, dtarget: nat, pc: nat, m: Machine)
    requires m.Valid() && OpenJump(code, j) && pc < |code|
    requires j < vtarget && j < dtarget
    ensures var r := Step(w, code, pc, m);
            var isValue := IsValueJump(code, j);
            var code' := PatchJump(code, j, vtarget, reg, dtarget);
            Step(w, code', pc, m) ==
              if r.Leave? && r.at == j
              then Next(if isValue then vtarget else dtarget, Landed(Exit(j, r.val, r.m), isValue, reg))
              else r
  {
    var i := code[pc];
    var code' := PatchJump(code, j, vtarget, reg, dtarget);
    if pc + 1 == j && i.TESTSET? {
      assert m.Set(NO_REG, m.Get(i.b)) == m;
      assert m.Set(i.b, m.Get(i.b)) == m;
    } else {
      assert pc != j ==> code'[pc] == i;
      match i
      case JMP(_) => JumpPatched(code, j, vtarget, reg, dtarget, pc, None, m);
      case CMP(op, _, b, c) =>
        JumpPatched(code, j, vtarget, reg, dtarget, pc + 1, None, m.Log(Compare(op, m.Get(b), m.Get(c))));
      case TEST(_, _) => JumpPatched(code, j, vtarget, reg, dtarget, pc + 1, None, m);
      case TESTSET(a, b, _) => JumpPatched(code, j, vtarget, reg, dtarget, pc + 1, Some(m.Get(b)), m.Set(a, m.Get(b)));
      case _ =>
    }
  }

  lemma {:induction false} RunPatchJump(w: World, code: seq<Instr>, j: nat, vtarget: nat, reg: int, dtarget: nat,
                                        pc: nat, m: Machine)
    requires m.Valid() && OpenJump(code, j)
    requires j < vtarget && j < dtarget
    ensures var o := Run(w, code, pc, m);
            var isValue := IsValueJump(code, j);
            var code' := PatchJump(code, j, vtarget, reg, dtarget);
            Run(w, code', pc, m) == if o.Exit? && o.at == j
                                    then Run(w, code', if isValue then vtarget else dtarget, Landed(o, isValue, reg))
                                    else o
    decreases |code| - pc
  {
    if pc < |code| {
      StepPatchJump(w, code, j, vtarget, reg, dtarget, pc, m);
      match Step(w, code, pc, m)
      case Next(pc', m') =>
        if pc < pc' { RunPatchJump(w, code, j, vtarget, reg, dtarget, pc', m'); }
      case _ =>
    }
  }

  /** A list splits into its first jump and the rest, and stays open for the rest. */
  lemma PatchFirst(code: seq<Instr>, s: seq<nat>, vtarget: nat, reg: int, dtarget: nat)
    requires s != [] && OpenList(code, s)
    ensures OpenJump(code, s[0]) && s[0] !in s[1..]
    ensures forall x: nat :: x in s <==> x == s[0] || x in s[1..]
    ensures var code1 := PatchJump(code, s[0], vtarget, reg, dtarget);
            && OpenList(code1, s[1..])
            && (forall i: nat :: i < |code| && i != s[0] && i + 1 != s[0] ==> code1[i] == code[i])
            && (forall i: nat :: i < |code| && !code[i].JMP? && !code[i].TESTSET? ==> code1[i] == code[i])
            && (forall i: nat :: i < |code| ==> IsTest(code1[i]) == IsTest(code[i]) && code1[i].JMP? == code[i].JMP?)
            && (forall j: nat :: j != s[0] ==> IsValueJump(code1, j) == IsValueJump(code, j))
            && (forall j: nat :: OpenJump(code, j) && j != s[0] ==> OpenJump(code1, j))
  {
    assert forall i :: 0 <= i < |s[1..]| ==> s[1..][i] == s[i + 1] && s[i + 1] != s[0];
  }

  /** Patching s leaves every other open list as it was. */
  lemma {:induction false} PatchOpen(code: seq<Instr>, s: seq<nat>, s': seq<nat>, vtarget: nat, reg: int, dtarget: nat)
    requires OpenList(code, s) && OpenList(code, s')
    requires forall x :: x in s ==> x !in s'
    ensures OpenList(PatchList(code, s, vtarget, reg, dtarget), s')
    ensures forall j :: j in s' ==> IsValueJump(PatchList(code, s, vtarget, reg, dtarget), j) == IsValueJump(code, j)
    decreases |s|
  {
    if s != [] {
      PatchFirst(code, s, vtarget, reg, dtarget);
      assert s[0] in s;
      assert forall i :: 0 <= i < |s'| ==> s'[i] in s';
      PatchOpen(PatchJump(code, s[0], vtarget, reg, dtarget), s[1..], s', vtarget, reg, dtarget);
    }
  }

  /** Patching changes only jumps and the TESTSETs in front of them. */
  lemma {:induction false} PatchAt(code: seq<Instr>, s: seq<nat>, vtarget: nat, reg: int, dtarget: nat, i: nat)
    requires OpenList(code, s) && i < |code|
    ensures var code' := PatchList(code, s, vtarget, reg, dtarget);
            && IsTest(code'[i]) == IsTest(code[i])
            && (!code[i].JMP? && !code[i].TESTSET? ==> code'[i] == code[i])
            && (i !in s && i + 1 !in s ==> code'[i] == code[i])
    decreases |s|
  {
    if s != [] {
      PatchFirst(code, s, vtarget, reg, dtarget);
      PatchAt(PatchJump(code, s[0], vtarget, reg, dtarget), s[1..], vtarget, reg, dtarget, i);
    }
  }

  /** A jump that is not in the list stays as it is. */
  lemma {:induction false} PatchOthers(code: seq<Instr>, s: seq<nat>, vtarget: nat, reg: int, dtarget: nat, j: nat)
    requires OpenList(code, s) && j < |code| && j !in s && code[j].JMP?
    ensures PatchList(code, s, vtarget, reg, dtarget)[j] == code[j]
    decreases |s|
  {
    if s != [] {
      PatchFirst(code, s, vtarget, reg, dtarget);
      PatchOthers(PatchJump(code, s[0], vtarget, reg, dtarget), s[1..], vtarget, reg, dtarget, j);
    }
  }

  /** Every jump of the list ends with its destination. */
  lemma {:induction false} PatchDestination(code: seq<Instr>, s: seq<nat>, vtarget: nat, reg: int, dtarget: nat, j: nat)
    requires OpenList(code, s) && j in s
    ensures j < |code| && PatchList(code, s, vtarget, reg, dtarget)[j]
            == JMP((if IsValueJump(code, j) then vtarget else dtarget) - (j + 1))
    decreases |s|
  {
    PatchFirst(code, s, vtarget, reg, dtarget);
    var code1 := PatchJump(code, s[0], vtarget, reg, dtarget);
    if j == s[0] {
      PatchOthers(code1, s[1..], vtarget, reg, dtarget, j);
    } else {
      PatchDestination(code1, s[1..], vtarget, reg, dtarget, j);
    }
  }

  lemma {:induction false} PatchLow(code: seq<Instr>, s: seq<nat>, vtarget: nat, reg: int, dtarget: nat, lo: nat)
    requires lo <= |code| && forall j :: j in s ==> lo < j
    ensures PatchList(code, s, vtarget, reg, dtarget)[..lo] == code[..lo]
    decreases |s|
  {
    if s != [] {
      assert s[0] in s && forall j :: j in s[1..] ==> j in s;
      PatchLow(PatchJump(code, s[0], vtarget, reg, dtarget), s[1..], vtarget, reg, dtarget, lo);
    }
  }

  lemma {:induction false} RunPatchList(w: World, code: seq<Instr>, s: seq<nat>, vtarget: nat, reg: int, dtarget: nat,
                                        pc: nat, m: Machine)
    requires m.Valid() && OpenList(code, s)
    requires forall j :: j in s ==> j < vtarget && (!IsValueJump(code, j) ==> j < dtarget)
    ensures var o := Run(w, code, pc, m);
            var code' := PatchList(code, s, vtarget, reg, dtarget);
            Run(w, code', pc, m) ==
              if o.Exit? && o.at in s then
                var isValue := IsValueJump(code, o.at);
                Run(w, code', if isValue then vtarget else dtarget, Landed(o, isValue, reg))
              else o
    decreases |s|
  {
    if s != [] {
      var d := if IsValueJump(code, s[0]) then vtarget else dtarget;
      var code1 := PatchJump(code, s[0], vtarget, reg, dtarget);
      PatchFirst(code, s, vtarget, reg, dtarget);
      assert code1 == PatchJump(code, s[0], vtarget, reg, d);
      RunPatchJump(w, code, s[0], vtarget, reg, d, pc, m);
      RunPatchList(w, code1, s[1..], vtarget, reg, dtarget, pc, m);
      var o := Run(w, code, pc, m);
      if o.Exit? && o.at == s[0] {
        RunValid(w, code, pc, m);
        RunPatchList(w, code1, s[1..], vtarget, reg, dtarget, d, Landed(o, IsValueJump(code, s[0]), reg));
      }
    }
  }

  lemma {:induction false} RunValid(w: World, code: seq<Instr>, pc: nat, m: Machine)
    requires m.Valid()
    ensures var o := Run(w, code, pc, m); !o.Stuck? ==> o.m.Valid() && |o.m.regs| == |m.regs|
    decreases |code| - pc
  {
    if pc < |code| {
      match Step(w, code, pc, m)
      case Next(pc', m') => if pc < pc' { RunValid(w, code, pc', m'); }
      case _ =>
    }
  }

  lemma {:induction false} PatchListConcat(code: seq<Instr>, s: seq<nat>, s': seq<nat>, vtarget: nat, reg: int,
                                           dtarget: nat)
    ensures PatchList(code, s + s', vtarget, reg, dtarget)
         == PatchList(PatchList(code, s, vtarget, reg, dtarget), s', vtarget, reg, dtarget)
    decreases |s|
  {
    if s == [] {
      assert s + s' == s';
    } else {
      assert (s + s')[1..] == s[1..] + s';
      PatchListConcat(PatchJump(code, s[0], vtarget, reg, dtarget), s[1..], s', vtarget, reg, dtarget);
    }
  }

  // ----- removing the values of jumps

  lemma StepRemoveValue(w: World, code: seq<Instr>, j: nat, pc: nat, m: Machine)
    requires m.Valid() && OpenJump(code, j) && pc < |code|
    ensures var r := Step(w, code, pc, m);
            Step(w, PatchControl(code, j, NO_REG), pc, m) ==
              if r.Leave? && r.at == j && IsValueJump(code, j) then Leave(j, None, r.m) else r
  {
    var code' := PatchControl(code, j, NO_REG);
    if pc + 1 == j && code[pc].TESTSET? {
      assert m.Set(NO_REG, m.Get(code[pc].b)) == m;
    } else if pc != j {
      assert code'[pc] == code[pc];
      assert pc + 1 < |code| && pc + 1 != j && !IsValueJump(code, j) ==> code'[pc + 1] == code[pc + 1];
    }
  }

  lemma {:induction false} RunRemoveValue(w: World, code: seq<Instr>, j: nat, pc: nat, m: Machine)
    requires m.Valid() && OpenJump(code, j)
    ensures var o := Run(w, code, pc, m);
            Run(w, PatchControl(code, j, NO_REG), pc, m) ==
              if o.Exit? && o.at == j && IsValueJump(code, j) then Exit(j, None, o.m) else o
    decreases |code| - pc
  {
    if pc < |code| {
      StepRemoveValue(w, code, j, pc, m);
      match Step(w, code, pc, m)
      case Next(pc', m') => if pc < pc' { RunRemoveValue(w, code, j, pc', m'); }
      case _ =>
    }
  }

  lemma {:induction false} RunRemoveValues(w: World, code: seq<Instr>, s: seq<nat>, pc: nat, m: Machine)
    requires m.Valid() && OpenList(code, s)
    ensures var o := Run(w, code, pc, m);
            Run(w, RemoveValues(code, s), pc, m) ==
              if o.Exit? && o.at in s && IsValueJump(code, o.at) then Exit(o.at, None, o.m) else o
    decreases |s|
  {
    if s != [] {
      RemoveFirst(code, s);
      RunRemoveValue(w, code, s[0], pc, m);
      RunRemoveValues(w, PatchControl(code, s[0], NO_REG), s[1..], pc, m);
    }
  }

  lemma RemoveFirst(code: seq<Instr>, s: seq<nat>)
    requires s != [] && OpenList(code, s)
    ensures OpenJump(code, s[0]) && s[0] !in s[1..]
    ensures forall x: nat :: x in s <==> x == s[0] || x in s[1..]
    ensures var code1 := PatchControl(code, s[0], NO_REG);
            && OpenList(code1, s[1..])
            && (forall i: nat :: i < |code| && i + 1 != s[0] ==> code1[i] == code[i])
            && (forall i: nat :: i < |code| ==> IsTest(code1[i]) == IsTest(code[i]))
            && (forall j: nat :: IsValueJump(code1, j) == (IsValueJump(code, j) && j != s[0]))
            && (forall j: nat :: OpenJump(code, j) ==> OpenJump(code1, j))
  {
    assert forall i :: 0 <= i < |s[1..]| ==> s[1..][i] == s[i + 1] && s[i + 1] != s[0];
  }

  lemma {:induction false} RemoveValuesKeeps(code: seq<Instr>, s: seq<nat>)
    requires OpenList(code, s)
    ensures var code' := RemoveValues(code, s);
            && (forall i: nat :: i < |code| && i + 1 !in s ==> code'[i] == code[i])
            && (forall i: nat :: i < |code| ==> IsTest(code'[i]) == IsTest(code[i]))
            && (forall j: nat :: IsValueJump(code', j) == (IsValueJump(code, j) && j !in s))
            && (forall j: nat :: OpenJump(code, j) ==> OpenJump(code', j))
    decreases |s|
  {
    if s != [] {
      RemoveFirst(code, s);
      RemoveValuesKeeps(PatchControl(code, s[0], NO_REG), s[1..]);
    }
  }

  /** Removing values below n and cutting the code at n commute. */
  lemma {:induction false} RemoveValuesTake(code: seq<Instr>, s: seq<nat>, n: nat)
    requires n <= |code| && forall j :: j in s ==> j < n
    ensures RemoveValues(code, s)[..n] == RemoveValues(code[..n], s)
    decreases |s|
  {
    if s != [] {
      assert s[0] in s;
      assert forall j :: j in s[1..] ==> j in s;
      assert PatchControl(code, s[0], NO_REG)[..n] == PatchControl(code[..n], s[0], NO_REG);
      RemoveValuesTake(PatchControl(code, s[0], NO_REG), s[1..], n);
    }
  }
}
