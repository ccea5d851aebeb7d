// How runs of unfinished code change when the generator patches or extends it.
module LuaExec {
  import opened LuaVM
  import opened LuaGen

  // Jumps that wait for a destination; their TESTSETs have no register yet.
  ghost predicate Pending(code: seq<Instr>, js: set<nat>) {
    forall j :: j in js ==>
      && j < |code| && code[j].Jmp? && code[j].a == 0
      && (ValueJump(code, j) ==> code[j - 1].a == NO_REG)
  }

  function Elems(list: seq<nat>): set<nat> { set n | 0 <= n < |list| :: list[n] }

  ghost predicate Distinct(list: seq<nat>) {
    forall m, n :: 0 <= m < n < |list| ==> list[m] != list[n]
  }

  // A run leaves only through jumps that wait.
  lemma {:induction false} ExitsOnly(cmp: Compare, p: Prog, pc: nat, R: Regs)
    ensures var o := Exec(cmp, p, pc, R); o.Exit? ==> o.j in p.exits && o.j < |p.code|
    decreases |p.code| - pc, 1
  {
    hide Skips, TestWrite, FillNil, Set, Get;
    if pc < |p.code| {
      var i := p.code[pc];
      match i
      case Jmp(_, _) => ExitsOnlyTake(cmp, p, pc, R);
      case LoadBool(a, v, skip) => ExitsOnly(cmp, p, if skip then pc + 2 else pc + 1, Set(R, a, Bool(v)));
      case LoadNil(a, b) => ExitsOnly(cmp, p, pc + 1, FillNil(R, a, b));
      case LoadK(a, k) => ExitsOnly(cmp, p, pc + 1, Set(R, a, k));
      case Move(a, b) => ExitsOnly(cmp, p, pc + 1, Set(R, a, Get(R, b)));
      case Not(a, b) => ExitsOnly(cmp, p, pc + 1, Set(R, a, Bool(IsFalse(Get(R, b)))));
      case Other =>
      case _ =>
        ExitsOnly(cmp, p, pc + 2, R);
        ExitsOnlyTake(cmp, p, pc + 1, TestWrite(i, R));
    }
  }

  lemma {:induction false} ExitsOnlyTake(cmp: Compare, p: Prog, j: nat, R: Regs)
    ensures var o := Take(cmp, p, j, R); o.Exit? ==> o.j in p.exits && o.j < |p.code|
    decreases |p.code| - j, 0
  {
    if j < |p.code| && p.code[j].Jmp? && j !in p.exits && j !in p.here && p.code[j].a == 0 && p.code[j].sbx >= 0 {
      ExitsOnly(cmp, p, j + 1 + p.code[j].sbx, R);
    }
  }

  // ---------- patching ----------

  // code' is code with every jump of js given its destination and every TESTSET
  // in front of one given its register.
  ghost predicate IsPatch(code: seq<Instr>, code': seq<Instr>, js: set<nat>, reg: nat, vt: nat, dt: nat) {
    && |code'| == |code|
    && forall i :: 0 <= i < |code| ==> code'[i] == PatchedInstr(code, js, reg, vt, dt, i)
  }

  ghost function PatchedInstr(code: seq<Instr>, js: set<nat>, reg: nat, vt: nat, dt: nat, i: nat): Instr
    requires i < |code|
  {
    if i in js then Jmp(0, (if ValueJump(code, i) then vt else dt) - (i + 1))
    else if i + 1 in js && code[i].TestSet? then Patched(code[i], reg)
    else code[i]
  }

  // The value transfer a patched TESTSET performs on its way to jump j.
  function Transfer(code: seq<Instr>, j: nat, reg: nat, R: Regs): Regs {
    if ValueJump(code, j) && reg != NO_REG && reg != code[j - 1].b then Set(R, reg, Get(R, code[j - 1].b)) else R
  }

  lemma PatchAt(code: seq<Instr>, code': seq<Instr>, js: set<nat>, reg: nat, vt: nat, dt: nat, i: nat)
    requires IsPatch(code, code', js, reg, vt, dt) && Pending(code, js) && i < |code|
    ensures |code'| == |code| && TMode(code'[i]) == TMode(code[i])
    ensures i in js ==> code[i].Jmp? && code'[i] == Jmp(0, (if ValueJump(code, i) then vt else dt) - (i + 1))
    ensures i !in js && !(i + 1 in js && code[i].TestSet?) ==> code'[i] == code[i]
    ensures i + 1 in js && code[i].TestSet? ==> code[i].a == NO_REG && code'[i] == Patched(code[i], reg)
  {
    assert i + 1 in js && code[i].TestSet? ==> ValueJump(code, i + 1);
  }

  // A run of patched code is the old run up to the first patched jump, which is
  // then taken.
  ghost predicate PatchedRun(cmp: Compare, p: Prog, p': Prog, js: set<nat>, reg: nat, o: Outcome, o': Outcome) {
    match o
    case Exit(j, R2) => o' == if j in js then Take(cmp, p', j, Transfer(p.code, j, reg, R2)) else o
    case _ => o' == o
  }

  lemma {:induction false} PatchExec(cmp: Compare, p: Prog, code': seq<Instr>, js: set<nat>, reg: nat, vt: nat,
      dt: nat, pc: nat, R: Regs)
    requires IsPatch(p.code, code', js, reg, vt, dt) && Pending(p.code, js) && js <= p.exits
    ensures var p' := Prog(code', p.exits - js, p.here);
            PatchedRun(cmp, p, p', js, reg, Exec(cmp, p, pc, R), Exec(cmp, p', pc, R))
    decreases |p.code| - pc, 1
  {
    assert |code'| == |p.code|;
    hide IsPatch, Pending;
    if pc < |p.code| {
      var i := p.code[pc];
      PatchAt(p.code, code', js, reg, vt, dt, pc);
      if pc >= 1 { PatchAt(p.code, code', js, reg, vt, dt, pc - 1); }
      match i
      case Jmp(_, _) =>
        if pc >= 1 && TMode(p.code[pc - 1]) {
        } else if pc in js {
          assert Take(cmp, p, pc, R) == Exit(pc, R);
          assert Transfer(p.code, pc, reg, R) == R;
        } else {
          PatchTake(cmp, p, code', js, reg, vt, dt, pc, R);
        }
      case LoadBool(a, v, skip) => PatchExec(cmp, p, code', js, reg, vt, dt, if skip then pc + 2 else pc + 1,
        Set(R, a, Bool(v)));
      case LoadNil(a, b) => PatchExec(cmp, p, code', js, reg, vt, dt, pc + 1, FillNil(R, a, b));
      case LoadK(a, k) => PatchExec(cmp, p, code', js, reg, vt, dt, pc + 1, Set(R, a, k));
      case Move(a, b) => PatchExec(cmp, p, code', js, reg, vt, dt, pc + 1, Set(R, a, Get(R, b)));
      case Not(a, b) => PatchExec(cmp, p, code', js, reg, vt, dt, pc + 1, Set(R, a, Bool(IsFalse(Get(R, b)))));
      case Other =>
      case _ =>
        if Skips(cmp, i, R) {
          PatchExec(cmp, p, code', js, reg, vt, dt, pc + 2, R);
        } else if pc + 1 in js {
          PatchedTest(cmp, p, code', js, reg, vt, dt, pc, R);
        } else {
          PatchTake(cmp, p, code', js, reg, vt, dt, pc + 1, TestWrite(i, R));
        }
    }
  }

  // A test in front of a patched jump hands over its value and jumps.
  lemma PatchedTest(cmp: Compare, p: Prog, code': seq<Instr>, js: set<nat>, reg: nat, vt: nat, dt: nat, pc: nat,
      R: Regs)
    requires IsPatch(p.code, code', js, reg, vt, dt) && Pending(p.code, js) && js <= p.exits
    requires pc < |p.code| && TMode(p.code[pc]) && pc + 1 in js
    ensures TMode(code'[pc]) && Skips(cmp, code'[pc], R) == Skips(cmp, p.code[pc], R)
    ensures Take(cmp, p, pc + 1, TestWrite(p.code[pc], R)) == Exit(pc + 1, R)
    ensures TestWrite(code'[pc], R) == Transfer(p.code, pc + 1, reg, R)
  {
    PatchAt(p.code, code', js, reg, vt, dt, pc);
    PatchAt(p.code, code', js, reg, vt, dt, pc + 1);
  }

  lemma {:induction false} PatchTake(cmp: Compare, p: Prog, code': seq<Instr>, js: set<nat>, reg: nat, vt: nat,
      dt: nat, j: nat, R: Regs)
    requires IsPatch(p.code, code', js, reg, vt, dt) && Pending(p.code, js) && js <= p.exits && j !in js
    ensures var p' := Prog(code', p.exits - js, p.here);
            PatchedRun(cmp, p, p', js, reg, Take(cmp, p, j, R), Take(cmp, p', j, R))
    decreases |p.code| - j, 0
  {
    if j < |p.code| { PatchAt(p.code, code', js, reg, vt, dt, j); }
    if j < |p.code| && p.code[j].Jmp? && j !in p.exits && j !in p.here {
      var target := j + 1 + p.code[j].sbx;
      if p.code[j].a == 0 && target > j {
        PatchExec(cmp, p, code', js, reg, vt, dt, target, R);
      }
    }
  }

  // ---------- removing values ----------

  // code' is code with some register-less TESTSETs turned into TESTs.
  ghost predicate IsRemoval(code: seq<Instr>, code': seq<Instr>) {
    && |code'| == |code|
    && forall i :: 0 <= i < |code| ==>
         code'[i] == code[i] || (code[i].TestSet? && code[i].a == NO_REG && code'[i] == Test(code[i].b, code[i].c))
  }

  lemma {:induction false} RemovalExec(cmp: Compare, p: Prog, code': seq<Instr>, pc: nat, R: Regs)
    requires IsRemoval(p.code, code')
    ensures Exec(cmp, p.(code := code'), pc, R) == Exec(cmp, p, pc, R)
    decreases |p.code| - pc, 1
  {
    if pc < |p.code| {
      var i := p.code[pc];
      match i
      case Jmp(_, _) => RemovalTake(cmp, p, code', pc, R);
      case LoadBool(a, v, skip) => RemovalExec(cmp, p, code', if skip then pc + 2 else pc + 1, Set(R, a, Bool(v)));
      case LoadNil(a, b) => RemovalExec(cmp, p, code', pc + 1, FillNil(R, a, b));
      case LoadK(a, k) => RemovalExec(cmp, p, code', pc + 1, Set(R, a, k));
      case Move(a, b) => RemovalExec(cmp, p, code', pc + 1, Set(R, a, Get(R, b)));
      case Not(a, b) => RemovalExec(cmp, p, code', pc + 1, Set(R, a, Bool(IsFalse(Get(R, b)))));
      case Other =>
      case _ =>
        RemovalExec(cmp, p, code', pc + 2, R);
        RemovalTake(cmp, p, code', pc + 1, TestWrite(i, R));
    }
  }

  lemma {:induction false} RemovalTake(cmp: Compare, p: Prog, code': seq<Instr>, j: nat, R: Regs)
    requires IsRemoval(p.code, code')
    ensures Take(cmp, p.(code := code'), j, R) == Take(cmp, p, j, R)
    decreases |p.code| - j, 0
  {
    if j < |p.code| && p.code[j].Jmp? && j !in p.exits && j !in p.here && p.code[j].a == 0 && p.code[j].sbx >= 0 {
      RemovalExec(cmp, p, code', j + 1 + p.code[j].sbx, R);
    }
  }

  // ---------- extending ----------

  // Jumps to here arrive where the code ends.
  lemma {:induction false} HereExec(cmp: Compare, code: seq<Instr>, exits: set<nat>, here: set<nat>, pc: nat, R: Regs)
    requires exits !! here
    ensures Exec(cmp, Prog(code, exits, here), pc, R) ==
            match Exec(cmp, Prog(code, exits + here, {}), pc, R)
            case Exit(j, R2) => if j in here then Fall(R2) else Exit(j, R2)
            case o => o
    decreases |code| - pc, 1
  {
    hide Skips, TestWrite, FillNil, Set, Get;
    if pc < |code| {
      var i := code[pc];
      match i
      case Jmp(_, _) => HereTake(cmp, code, exits, here, pc, R);
      case LoadBool(a, v, skip) => HereExec(cmp, code, exits, here, if skip then pc + 2 else pc + 1,
        Set(R, a, Bool(v)));
      case LoadNil(a, b) => HereExec(cmp, code, exits, here, pc + 1, FillNil(R, a, b));
      case LoadK(a, k) => HereExec(cmp, code, exits, here, pc + 1, Set(R, a, k));
      case Move(a, b) => HereExec(cmp, code, exits, here, pc + 1, Set(R, a, Get(R, b)));
      case Not(a, b) => HereExec(cmp, code, exits, here, pc + 1, Set(R, a, Bool(IsFalse(Get(R, b)))));
      case Other =>
      case _ =>
        HereExec(cmp, code, exits, here, pc + 2, R);
        HereTake(cmp, code, exits, here, pc + 1, TestWrite(i, R));
    }
  }

  lemma {:induction false} HereTake(cmp: Compare, code: seq<Instr>, exits: set<nat>, here: set<nat>, j: nat, R: Regs)
    requires exits !! here
    ensures Take(cmp, Prog(code, exits, here), j, R) ==
            match Take(cmp, Prog(code, exits + here, {}), j, R)
            case Exit(j, R2) => if j in here then Fall(R2) else Exit(j, R2)
            case o => o
    decreases |code| - j, 0
  {
    if j < |code| && code[j].Jmp? && j !in exits && j !in here && code[j].a == 0 && code[j].sbx >= 0 {
      HereExec(cmp, code, exits, here, j + 1 + code[j].sbx, R);
    }
  }

  // Running into an extension; exits may grow by jumps of the extension.
  lemma {:induction false} ExtendExec(cmp: Compare, code: seq<Instr>, ext: seq<Instr>, exits: set<nat>, more: set<nat>,
      pc: nat, R: Regs)
    requires forall j :: j in more ==> j >= |code|
    requires Exec(cmp, Prog(code, exits, {}), pc, R) != Stuck
    ensures var p' := Prog(code + ext, exits + more, {});
            Exec(cmp, p', pc, R) ==
            match Exec(cmp, Prog(code, exits, {}), pc, R)
            case Fall(R2) => Exec(cmp, p', |code|, R2)
            case o => o
    decreases |code| - pc, 1
  {
    hide Skips, TestWrite, FillNil, Set, Get;
    if pc < |code| {
      var i := code[pc];
      assert (code + ext)[pc] == i && (pc >= 1 ==> (code + ext)[pc - 1] == code[pc - 1]);
      match i
      case Jmp(_, _) => ExtendTake(cmp, code, ext, exits, more, pc, R);
      case LoadBool(a, v, skip) => ExtendExec(cmp, code, ext, exits, more, if skip then pc + 2 else pc + 1,
        Set(R, a, Bool(v)));
      case LoadNil(a, b) => ExtendExec(cmp, code, ext, exits, more, pc + 1, FillNil(R, a, b));
      case LoadK(a, k) => ExtendExec(cmp, code, ext, exits, more, pc + 1, Set(R, a, k));
      case Move(a, b) => ExtendExec(cmp, code, ext, exits, more, pc + 1, Set(R, a, Get(R, b)));
      case Not(a, b) => ExtendExec(cmp, code, ext, exits, more, pc + 1, Set(R, a, Bool(IsFalse(Get(R, b)))));
      case Other =>
      case _ =>
        if Skips(cmp, i, R) {
          ExtendExec(cmp, code, ext, exits, more, pc + 2, R);
        } else {
          ExtendTake(cmp, code, ext, exits, more, pc + 1, TestWrite(i, R));
        }
    }
  }

  lemma {:induction false} ExtendTake(cmp: Compare, code: seq<Instr>, ext: seq<Instr>, exits: set<nat>, more: set<nat>,
      j: nat, R: Regs)
    requires forall j :: j in more ==> j >= |code|
    requires Take(cmp, Prog(code, exits, {}), j, R) != Stuck
    ensures var p' := Prog(code + ext, exits + more, {});
            Take(cmp, p', j, R) ==
            match Take(cmp, Prog(code, exits, {}), j, R)
            case Fall(R2) => Exec(cmp, p', |code|, R2)
            case o => o
    decreases |code| - j, 0
  {
    if j !in exits {
      ExtendExec(cmp, code, ext, exits, more, j + 1 + code[j].sbx, R);
    }
  }

  // ---------- what the patching functions do ----------

  lemma ElemsCons(list: seq<nat>)
    requires list != []
    ensures Elems(list) == {list[0]} + Elems(list[1..])
  {
    assert forall n :: 1 <= n < |list| ==> list[n] == list[1..][n - 1];
    forall x | x in Elems(list) ensures x in {list[0]} + Elems(list[1..]) {
      var n :| 0 <= n < |list| && list[n] == x;
      if n > 0 { assert list[1..][n - 1] == x; }
    }
  }

  lemma ElemsAppend(a: seq<nat>, b: seq<nat>)
    ensures Elems(a + b) == Elems(a) + Elems(b)
  {
    forall x ensures x in Elems(a + b) <==> x in Elems(a) + Elems(b) {
      if x in Elems(a) { var n :| 0 <= n < |a| && a[n] == x; assert (a + b)[n] == x; }
      if x in Elems(b) { var n :| 0 <= n < |b| && b[n] == x; assert (a + b)[|a| + n] == x; }
    }
  }

  // One round of patchlistaux's loop.
  lemma PatchOne(code: seq<Instr>, js: set<nat>, j: nat, vt: nat, reg: nat, dt: nat)
    requires Pending(code, js) && j in js
    requires FixJump(PatchTestReg(code, j, reg), j, if ValueJump(code, j) then vt else dt).Ok?
    ensures var code' := FixJump(PatchTestReg(code, j, reg), j, if ValueJump(code, j) then vt else dt).value;
            && IsPatch(code, code', {j}, reg, vt, dt) && Pending(code', js - {j})
            && forall i :: i in js && i != j ==> ValueJump(code', i) == ValueJump(code, i)
  {
    var code' := FixJump(PatchTestReg(code, j, reg), j, if ValueJump(code, j) then vt else dt).value;
    forall i | i in js && i != j ensures ValueJump(code', i) == ValueJump(code, i) {
      if i == j + 1 { assert code[j].Jmp? && code'[j].Jmp?; }
    }
  }

  // patchlistaux sends every jump of the list to its target exactly once and
  // changes nothing else but the TESTSETs in front of them.
  lemma {:induction false} PatchListMeaning(code: seq<Instr>, list: seq<nat>, vt: nat, reg: nat, dt: nat)
    requires Distinct(list) && Pending(code, Elems(list)) && PatchListAux(code, list, vt, reg, dt).Ok?
    ensures IsPatch(code, PatchListAux(code, list, vt, reg, dt).value, Elems(list), reg, vt, dt)
    decreases |list|
  {
    var code2 := PatchListAux(code, list, vt, reg, dt).value;
    if list != [] {
      var j, tail := list[0], list[1..];
      ElemsCons(list);
      assert forall n :: 0 <= n < |tail| ==> tail[n] == list[n + 1];
      assert j !in Elems(tail);
      PatchOne(code, Elems(list), j, vt, reg, dt);
      var code1 := FixJump(PatchTestReg(code, j, reg), j, if ValueJump(code, j) then vt else dt).value;
      assert Elems(list) - {j} == Elems(tail);
      PatchListMeaning(code1, tail, vt, reg, dt);
      PatchCompose(code, code1, code2, j, Elems(tail), reg, vt, dt);
    }
  }

  lemma PatchCompose(code: seq<Instr>, code1: seq<Instr>, code2: seq<Instr>, j: nat, js: set<nat>, reg: nat, vt: nat,
      dt: nat)
    requires IsPatch(code, code1, {j}, reg, vt, dt) && IsPatch(code1, code2, js, reg, vt, dt)
    requires j !in js && Pending(code, js + {j}) && Pending(code1, js)
    requires forall i :: i in js ==> ValueJump(code1, i) == ValueJump(code, i)
    ensures IsPatch(code, code2, js + {j}, reg, vt, dt)
  {
    forall i | 0 <= i < |code|
      ensures code2[i] == PatchedInstr(code, js + {j}, reg, vt, dt, i)
    {
      PatchAt(code, code1, {j}, reg, vt, dt, i);
      PatchAt(code1, code2, js, reg, vt, dt, i);
      assert j in js + {j} && code[j].Jmp?;
      PatchAt(code, code1, {j}, reg, vt, dt, j);
      if i in js { assert ValueJump(code1, i) == ValueJump(code, i); }
    }
  }

  lemma {:induction false} RemoveValuesMeaning(code: seq<Instr>, list: seq<nat>)
    requires Pending(code, Elems(list))
    ensures IsRemoval(code, RemoveValues(code, list))
    ensures forall j :: j in Elems(list) ==> !ValueJump(RemoveValues(code, list), j)
    ensures forall i :: 0 <= i < |code| && i + 1 !in Elems(list) ==> RemoveValues(code, list)[i] == code[i]
    decreases |list|
  {
    if list != [] {
      ElemsCons(list);
      var j, tail := list[0], list[1..];
      var code1 := PatchTestReg(code, j, NO_REG);
      assert IsRemoval(code, code1);
      assert Pending(code1, Elems(tail));
      RemoveValuesMeaning(code1, tail);
      var code2 := RemoveValues(code, list);
      assert forall i :: 0 <= i < |code| ==> code1[i].TestSet? ==> code1[i] == code[i];
      if j in Elems(tail) { } else if ValueJump(code2, j) { assert code2[j - 1] == code1[j - 1]; }
    }
  }

  // dischargejpc does not change where any run goes.
  lemma DischargeExec(cmp: Compare, fs: FS, exits: set<nat>, pc: nat, R: Regs)
    requires Distinct(fs.jpc) && Pending(fs.code, Elems(fs.jpc)) && exits !! Elems(fs.jpc) && DischargeJpc(fs).Ok?
    ensures var fs1 := DischargeJpc(fs).value;
            Exec(cmp, Prog(fs1.code, exits, {}), pc, R) == Exec(cmp, Prog(fs.code, exits, Elems(fs.jpc)), pc, R)
  {
    hide Elems, PatchListAux;
    var fs1, here, n := DischargeJpc(fs).value, Elems(fs.jpc), |fs.code|;
    PatchListMeaning(fs.code, fs.jpc, n, NO_REG, n);
    HereExec(cmp, fs.code, exits, here, pc, R);
    var p := Prog(fs.code, exits + here, {});
    PatchExec(cmp, p, fs1.code, here, NO_REG, n, n, pc, R);
    assert exits + here - here == exits;
    match Exec(cmp, p, pc, R)
    case Exit(j, R2) =>
      if j in here {
        PatchAt(fs.code, fs1.code, here, NO_REG, n, n, j);
        var p1 := Prog(fs1.code, exits, {});
        assert Exec(cmp, p1, n, R2) == Fall(R2);
        assert Take(cmp, p1, j, R2) == Fall(R2);
      }
    case _ =>
  }

  // A run into code after pending jumps to here were discharged and ext emitted.
  lemma EmitExec(cmp: Compare, fs: FS, ext: seq<Instr>, exits: set<nat>, more: set<nat>, pc: nat, R: Regs)
    requires Distinct(fs.jpc) && Pending(fs.code, Elems(fs.jpc)) && exits !! Elems(fs.jpc) && DischargeJpc(fs).Ok?
    requires forall j :: j in more ==> j >= |fs.code|
    requires Exec(cmp, Prog(fs.code, exits, Elems(fs.jpc)), pc, R) != Stuck
    ensures var p' := Prog(DischargeJpc(fs).value.code + ext, exits + more, {});
            Exec(cmp, p', pc, R) ==
            match Exec(cmp, Prog(fs.code, exits, Elems(fs.jpc)), pc, R)
            case Fall(R2) => Exec(cmp, p', |fs.code|, R2)
            case o => o
  {
    PatchListMeaning(fs.code, fs.jpc, |fs.code|, NO_REG, |fs.code|);
    DischargeExec(cmp, fs, exits, pc, R);
    ExtendExec(cmp, DischargeJpc(fs).value.code, ext, exits, more, pc, R);
  }
}
