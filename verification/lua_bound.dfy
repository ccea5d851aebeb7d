// Nothing the generator emits lands beyond the end of the code.  This is what
// makes lasttarget a safe guard for merging LOADNIL instructions.
module LuaBound {
  import opened LuaVM
  import opened LuaGen
  import opened LuaExec
  import opened LuaCorrect
  import opened LuaCond
  import opened LuaValue
  import opened LuaCompile

  // Where control may go from an instruction at the given place.
  predicate Lands(i: Instr, at: nat, end: nat) {
    match i
    case Jmp(_, sbx) => at + 1 + sbx <= end
    case LoadBool(_, _, skip) => skip ==> at + 2 <= end
    case _ => TMode(i) ==> at + 2 <= end
  }

  ghost predicate Bounded(code: seq<Instr>) {
    forall i :: 0 <= i < |code| ==> Lands(code[i], i, |code|)
  }

  // A relocatable instruction may still be dropped.
  ghost predicate Within(fs: FS, e: Exp) {
    Bounded(fs.code) && (e.k.VReloc? ==> |fs.code| > 0 && Bounded(fs.code[..|fs.code| - 1]))
  }

  lemma BoundedAppend(code: seq<Instr>, ext: seq<Instr>)
    requires Bounded(code) && forall k :: 0 <= k < |ext| ==> Lands(ext[k], |code| + k, |code| + |ext|)
    ensures Bounded(code + ext)
  {
    forall i | 0 <= i < |code + ext| ensures Lands((code + ext)[i], i, |code + ext|) {
      if i >= |code| { assert (code + ext)[i] == ext[i - |code|]; } else { assert Lands(code[i], i, |code|); }
    }
  }

  lemma BoundedPatch(code: seq<Instr>, code': seq<Instr>, js: set<nat>, reg: nat, vt: nat, dt: nat)
    requires IsPatch(code, code', js, reg, vt, dt) && Pending(code, js) && Bounded(code) && vt <= |code| && dt <= |code|
    ensures Bounded(code')
  {
    forall i | 0 <= i < |code'| ensures Lands(code'[i], i, |code'|) {
      PatchAt(code, code', js, reg, vt, dt, i);
      assert Lands(code[i], i, |code|);
    }
  }

  lemma BoundedUpdate(code: seq<Instr>, m: nat, i: Instr)
    requires Bounded(code) && m < |code| && Lands(i, m, |code|)
    ensures Bounded(code[m := i])
  {
  }

  lemma BoundedRemoval(code: seq<Instr>, code': seq<Instr>)
    requires Bounded(code) && IsRemoval(code, code')
    ensures Bounded(code')
  {
    forall i | 0 <= i < |code'| ensures Lands(code'[i], i, |code'|) { assert Lands(code[i], i, |code|); }
  }

  lemma DischargeBounded(fs: FS)
    requires Distinct(fs.jpc) && Pending(fs.code, Elems(fs.jpc)) && DischargeJpc(fs).Ok? && Bounded(fs.code)
    ensures Bounded(DischargeJpc(fs).value.code) && |DischargeJpc(fs).value.code| == |fs.code|
  {
    PatchListMeaning(fs.code, fs.jpc, |fs.code|, NO_REG, |fs.code|);
    BoundedPatch(fs.code, DischargeJpc(fs).value.code, Elems(fs.jpc), NO_REG, |fs.code|, |fs.code|);
  }

  // An instruction is emitted that goes on to the next.
  lemma CodeBounded(fs: FS, i: Instr)
    requires Distinct(fs.jpc) && Pending(fs.code, Elems(fs.jpc)) && Code(fs, i).Ok? && Bounded(fs.code)
    requires !TMode(i) && !i.Jmp? && (i.LoadBool? ==> !i.skip)
    ensures var code1 := Code(fs, i).value.code;
            Bounded(code1) && |code1| == |fs.code| + 1
            && Bounded(code1[..|code1| - 1])
  {
    DischargeBounded(fs);
    var code0 := DischargeJpc(fs).value.code;
    BoundedAppend(code0, [i]);
    assert (code0 + [i])[..|fs.code|] == code0;
  }

  lemma CondJumpBounded(fs: FS, test: Instr)
    requires Distinct(fs.jpc) && Pending(fs.code, Elems(fs.jpc)) && CondJump(fs, test).Ok? && Bounded(fs.code)
             && TMode(test)
    ensures Bounded(CondJump(fs, test).value.0.code)
  {
    DischargeBounded(fs);
    var code0 := DischargeJpc(fs).value.code;
    BoundedAppend(code0, [test, Jmp(0, NO_JUMP)]);
    assert CondJump(fs, test).value.0.code == code0 + [test, Jmp(0, NO_JUMP)];
  }

  lemma DischargeToRegBounded(outer: set<nat>, fs0: FS, fs: FS, e: Exp, reg: nat)
    requires Shape(outer, fs0, fs, e) && !e.k.VJmp? && DischargeToReg(fs, e, reg).Ok? && Bounded(fs.code)
    ensures Bounded(DischargeToReg(fs, e, reg).value.0.code)
  {
    hide Code, Elems, Distinct, Pending, SameTests;
    match e.k
    case VNil =>
      if EmitNil(fs, reg) != Code(fs, LoadNil(reg, 0)) {
        MergeSound(outer, Own(e), fs, reg);
        BoundedUpdate(fs.code, |fs.code| - 1, EmitNil(fs, reg).value.code[|fs.code| - 1]);
      } else { CodeBounded(fs, LoadNil(reg, 0)); }
    case VTrue => CodeBounded(fs, LoadBool(reg, true, false));
    case VFalse => CodeBounded(fs, LoadBool(reg, false, false));
    case VK(v) => CodeBounded(fs, LoadK(reg, v));
    case VReloc(pc) => BoundedUpdate(fs.code, pc, Relocated(fs.code[pc], reg));
    case VNonReloc(r) => if r != reg { CodeBounded(fs, Move(reg, r)); }
    case VLocal(r) => if r != reg { CodeBounded(fs, Move(reg, r)); }
  }

  lemma AnyRegBounded(outer: set<nat>, fs0: FS, fs: FS, e: Exp)
    requires Shape(outer, fs0, fs, e) && !e.k.VJmp? && !e.k.VLocal? && DischargeToAnyReg(fs, e).Ok? && Bounded(fs.code)
    ensures Bounded(DischargeToAnyReg(fs, e).value.0.code)
  {
    if !e.k.VNonReloc? {
      ReserveShape(outer, fs0, fs, e);
      var fs1 := ReserveReg(fs).value;
      DischargeToRegBounded(outer, fs0, fs1, e, fs1.freereg - 1);
    }
  }

  lemma GoIfBounded(outer: set<nat>, fs0: FS, fs: FS, e: Exp, cond: bool)
    requires Shape(outer, fs0, fs, e) && GoIf(fs, e, cond).Ok? && Within(fs, e)
    ensures Bounded(GoIf(fs, e, cond).value.0.code)
  {
    VarsShape(outer, fs0, fs, e);
    var d := DischargeVars(e);
    assert GoIf(fs, d, cond) == GoIf(fs, e, cond);
    var fs1, _ := GoIfJump(outer, fs0, fs, d, cond);
    hide GoIf, Elems, Pending, Distinct, SameTests;
    if d.k.VJmp? {
      NegateShape(outer, fs0, fs, d);
      if !cond { BoundedUpdate(fs.code, d.k.pc - 1, fs1.code[d.k.pc - 1]); }
    } else if !Settled(d.k, cond) {
      var g, test := JumpOnCondSound(outer, fs0, fs, d, cond);
      if !d.k.VReloc? { AnyRegBounded(outer, fs0, fs, d); }
      hide DischargeToAnyReg, JumpOnCond;
      CondJumpBounded(g, test);
    }
  }

  lemma CodeNotBounded(outer: set<nat>, fs0: FS, fs: FS, e: Exp)
    requires Shape(outer, fs0, fs, e) && CodeNot(fs, e).Ok? && Within(fs, e)
    ensures Within(CodeNot(fs, e).value.0, CodeNot(fs, e).value.1)
  {
    CodeNotSteps(fs, e);
    VarsShape(outer, fs0, fs, e);
    var d := DischargeVars(e);
    NotKindShape(outer, fs0, fs, d);
    NotKindBounded(outer, fs0, fs, d);
    var (fs1, k) := NotKind(fs, d).value;
    var m := d.(k := k);
    RemoveBothShape(outer, fs0, fs1, m);
    RemoveBoth(outer, fs0, fs1, m);
    var (fs2, e2) := CodeNot(fs, e).value;
    BoundedRemoval(fs1.code, fs2.code);
    if k.VReloc? { BoundedRemoval(Body(fs1, m), Body(fs2, e2)); }
  }

  lemma NotKindBounded(outer: set<nat>, fs0: FS, fs: FS, e: Exp)
    requires Shape(outer, fs0, fs, e) && !e.k.VLocal? && NotKind(fs, e).Ok? && Within(fs, e)
    ensures Within(NotKind(fs, e).value.0, e.(k := NotKind(fs, e).value.1))
  {
    if e.k.VJmp? {
      NegateShape(outer, fs0, fs, e);
      BoundedUpdate(fs.code, e.k.pc - 1, NegateCondition(fs, e.k.pc).code[e.k.pc - 1]);
    } else if e.k.VReloc? || e.k.VNonReloc? {
      AnyRegShape(outer, fs0, fs, e);
      AnyRegBounded(outer, fs0, fs, e);
      NotKindReg(fs, e);
      var (fs1, e1) := DischargeToAnyReg(fs, e).value;
      hide NotKind, DischargeToAnyReg, Code, Elems, Pending, Distinct, SameTests;
      CodeBounded(FreeExp(fs1, e1), Not(0, e1.k.r));
    }
  }

  lemma LoadsBounded(fs: FS, isJump: bool, reg: nat)
    requires Bounded(fs.code) && (isJump ==> fs.jpc == [])
    ensures CodeLoads(fs, isJump, reg).Ok? && Bounded(CodeLoads(fs, isJump, reg).value.0.code)
  {
    CodeLoadsSteps(fs, isJump, reg);
    BoundedAppend(fs.code, Loads(isJump, reg));
  }

  lemma ExpToRegBounded(outer: set<nat>, fs0: FS, fs: FS, e: Exp, reg: nat)
    requires Shape(outer, fs0, fs, e) && ExpToReg(fs, e, reg).Ok? && Bounded(fs.code)
    ensures Bounded(ExpToReg(fs, e, reg).value.0.code)
  {
    ExpToRegSteps(outer, fs0, fs, e, reg);
    if !e.k.VJmp? { DischargeToRegBounded(outer, fs0, fs, e, reg); }
    if e.k.VJmp? || HasJumps(e) {
      BeforeShape(outer, fs0, fs, e, reg);
      BeforeBounded(outer, fs0, fs, e, reg);
      var (g, d, pf, pt) := Before(fs, e, reg).value;
      var code1 := FinishSteps(outer, g, d, reg, pf, pt);
      var code2 := Finish(g, d, reg, pf, pt).value.code;
      hide *;
      BoundedPatch(g.code, code1, Elems(d.f), reg, |g.code|, pf);
      BoundedPatch(code1, code2, Elems(d.t), reg, |g.code|, pt);
    }
  }

  lemma BeforeBounded(outer: set<nat>, fs0: FS, fs: FS, e: Exp, reg: nat)
    requires Shape(outer, fs0, fs, e) && Before(fs, e, reg).Ok? && Bounded(fs.code)
    ensures var (g, d, pf, pt) := Before(fs, e, reg).value; Bounded(g.code) && pf <= |g.code| && pt <= |g.code|
  {
    hide CodeLoads, DischargeToReg, Elems, Pending, Distinct, SameTests;
    if e.k.VJmp? {
      LoadsBounded(fs, true, reg);
      CodeLoadsSteps(fs, true, reg);
    } else {
      DischargeToRegBounded(outer, fs0, fs, e, reg);
      var fs1 := DischargeToReg(fs, e, reg).value.0;
      LoadsBounded(fs1, false, reg);
      CodeLoadsSteps(fs1, false, reg);
    }
  }

  lemma NextRegBounded(outer: set<nat>, fs0: FS, fs: FS, e: Exp)
    requires Shape(outer, fs0, fs, e) && ExpToNextReg(fs, e).Ok? && Bounded(fs.code)
    ensures Bounded(ExpToNextReg(fs, e).value.0.code)
  {
    NextRegSteps(outer, fs0, fs, e);
    VarsShape(outer, fs0, fs, e);
    ReserveShape(outer, fs0, fs, DischargeVars(e));
    ExpToRegBounded(outer, fs0, ReserveReg(fs).value, DischargeVars(e), fs.freereg);
  }

  lemma RKBounded(outer: set<nat>, fs0: FS, fs: FS, e: Exp)
    requires Shape(outer, fs0, fs, e) && ExpToRK(fs, e).Ok? && Bounded(fs.code)
    ensures Bounded(ExpToRK(fs, e).value.0.code)
  {
    RKSteps(outer, fs0, fs, e);
    hide ExpToRK, ExpToNextReg;
    if !Direct(e) { NextRegBounded(outer, fs0, fs, e); }
  }

  lemma {:induction false} CompileBounded(outer: set<nat>, fs0: FS, src: Expr)
    requires Sound(outer, {}, fs0) && Closed(src, fs0.nactvar) && Compile(fs0, src).Ok? && Bounded(fs0.code)
    ensures Within(Compile(fs0, src).value.0, Compile(fs0, src).value.1)
    decreases src, 1
  {
    match src
    case ENot(e1) =>
      CompileShape(outer, fs0, e1);
      CompileBounded(outer, fs0, e1);
      var (fs1, x) := Compile(fs0, e1).value;
      hide CodeNot, Within;
      CodeNotBounded(outer, fs0, fs1, x);
    case EAnd(e1, e2) => JoinBounded(outer, fs0, src, e1, e2, false);
    case EOr(e1, e2) => JoinBounded(outer, fs0, src, e1, e2, true);
    case ECompare(op, e1, e2) => CompBounded(outer, fs0, op, e1, e2);
    case _ =>
  }

  lemma {:induction false} JoinBounded(outer: set<nat>, fs0: FS, src: Expr, e1: Expr, e2: Expr, cond: bool)
    requires Sound(outer, {}, fs0) && Closed(src, fs0.nactvar) && IsJoin(src, e1, e2, cond) && Compile(fs0, src).Ok?
             && Bounded(fs0.code)
    ensures Within(Compile(fs0, src).value.0, Compile(fs0, src).value.1)
    decreases src, 0
  {
    var fs2, y, fs3, x2 := JoinShape(outer, fs0, src, e1, e2, cond);
    var (fs1, x1) := Compile(fs0, e1).value;
    assert Closed(e1, fs0.nactvar) && Closed(e2, fs2.nactvar);
    hide Compile, GoIf, Bounded, Elems, Distinct, Pending, SameTests;
    CompileBounded(outer, fs0, e1);
    GoIfBounded(outer, fs0, fs1, x1, cond);
    CompileBounded(outer + Own(y), fs2, e2);
  }

  lemma {:induction false} CompBounded(outer: set<nat>, fs0: FS, op: CompareOp, e1: Expr, e2: Expr)
    requires Sound(outer, {}, fs0) && Closed(e1, fs0.nactvar) && Closed(e2, fs0.nactvar) && Bounded(fs0.code)
    requires Compile(fs0, ECompare(op, e1, e2)).Ok?
    ensures Within(Compile(fs0, ECompare(op, e1, e2)).value.0, Compile(fs0, ECompare(op, e1, e2)).value.1)
    decreases ECompare(op, e1, e2), 0
  {
    var fs1, x1, fs2, y1, rk1, fs3, x2, fs4, y2, rk2 := CompShape(outer, fs0, op, e1, e2);
    assert Closed(e2, fs2.nactvar);
    hide Compile, ExpToRK, CondJump, Bounded, Elems, Distinct, Pending, SameTests;
    CompileBounded(outer, fs0, e1);
    RKBounded(outer, fs0, fs1, x1);
    CompileBounded(outer, fs2, e2);
    RKBounded(outer, fs2, fs3, x2);
    CondJumpBounded(fs4.(freereg := fs0.freereg), CompTest(op, rk1, rk2));
  }
}
