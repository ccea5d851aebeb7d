// Conditions: jumponcond, luaK_goiftrue, luaK_goiffalse and codenot.
module LuaCond {
  import opened LuaVM
  import opened LuaGen
  import opened LuaExec
  import opened LuaCorrect

  // ---------- a value in some register ----------

  // The value of src is in register r when control falls through.
  ghost predicate HasValue(cmp: Compare, o0: Outcome, n: nat, r: nat, code: seq<Instr>, e: Exp, src: Expr, o: Outcome) {
    match o0
    case Stuck => true
    case Exit(_, _) => o == o0
    case Fall(R1) =>
      var v := Eval(cmp, src, R1);
      match o
      case Stuck => false
      case Fall(R2) => AgreeBut(R1, R2, n, NO_REG) && v == Get(R2, r)
      case Exit(j, R2) => AgreeBut(R1, R2, n, NO_REG) && ExitOk(code, e, j, R2, v)
  }

  lemma VarsShape(outer: set<nat>, fs0: FS, fs: FS, e: Exp)
    requires Shape(outer, fs0, fs, e)
    ensures Shape(outer, fs0, fs, DischargeVars(e)) && !DischargeVars(e).k.VLocal? && Own(DischargeVars(e)) == Own(e)
  {
  }

  lemma VarsMeans(cmp: Compare, outer: set<nat>, fs0: FS, n: nat, fs: FS, e: Exp, src: Expr, pc: nat, R: Regs)
    requires Shape(outer, fs0, fs, e)
    requires Means(cmp, Run0(cmp, outer, fs0, pc, R), n, NO_REG, fs, e, src, Run(cmp, outer, fs, e, pc, R))
    ensures KindShape(fs, DischargeVars(e).k)
    ensures var d := DischargeVars(e);
            Means(cmp, Run0(cmp, outer, fs0, pc, R), n, NO_REG, fs, d, src, Run(cmp, outer, fs, d, pc, R))
  {
    hide Exec;
    VarsShape(outer, fs0, fs, e);
    hide Shape;
  }

  lemma ReserveShape(outer: set<nat>, fs0: FS, fs: FS, e: Exp)
    requires Shape(outer, fs0, fs, e) && ReserveReg(fs).Ok?
    ensures var fs1 := ReserveReg(fs).value;
            && Shape(outer, fs0, fs1, e) && fs1 == fs.(freereg := fs.freereg + 1, maxstack := fs1.maxstack)
            && fs1.freereg < MAXREGS
  {
    hide Elems, Pending;
  }

  lemma AnyRegShape(outer: set<nat>, fs0: FS, fs: FS, e: Exp)
    requires Shape(outer, fs0, fs, e) && !e.k.VJmp? && !e.k.VLocal? && DischargeToAnyReg(fs, e).Ok?
    ensures var (fs1, e1) := DischargeToAnyReg(fs, e).value; var g := FreeExp(fs1, e1);
            && e1.k == (if e.k.VNonReloc? then e.k else VNonReloc(fs.freereg)) && e1.k.r < MAXREGS
               && e1 == e.(k := e1.k)
            && Sound(outer, Own(e), g) && g.freereg == fs.freereg && g.nactvar == fs.nactvar
               && g.lasttarget == fs.lasttarget
            && g.code == fs1.code && g.jpc == fs1.jpc && (g.jpc == [] || g.jpc == fs.jpc)
            && SameTests(outer + Own(e), fs.code, g.code) && |fs.code| <= |g.code|
  {
    hide Elems, Pending;
    if !e.k.VNonReloc? {
      ReserveShape(outer, fs0, fs, e);
      var fs1 := ReserveReg(fs).value;
      DischargeToRegShape(outer, fs0, fs1, e, fs1.freereg - 1);
    }
  }

  lemma AnyRegMeans(cmp: Compare, outer: set<nat>, fs0: FS, n: nat, fs: FS, e: Exp, src: Expr, pc: nat, R: Regs)
    requires Shape(outer, fs0, fs, e) && !e.k.VJmp? && !e.k.VLocal? && DischargeToAnyReg(fs, e).Ok?
    requires Entry(outer, fs0, pc) && GoodRegs(Run0(cmp, outer, fs0, pc, R)) && n <= fs.freereg
    requires Means(cmp, Run0(cmp, outer, fs0, pc, R), n, NO_REG, fs, e, src, Run(cmp, outer, fs, e, pc, R))
    ensures var (fs1, e1) := DischargeToAnyReg(fs, e).value;
            && e1.k.VNonReloc?
            && HasValue(cmp, Run0(cmp, outer, fs0, pc, R), n, e1.k.r, fs1.code, e, src,
                        Exec(cmp, Prog(fs1.code, outer + Own(e), Elems(fs1.jpc)), pc, R))
  {
    hide Elems, Pending, Exec, DischargeToReg, SameTests, Eval, OnlyFall, AgreeBut, ExitOk;
    AnyRegShape(outer, fs0, fs, e);
    if !e.k.VNonReloc? {
      ReserveShape(outer, fs0, fs, e);
      var fs1 := ReserveReg(fs).value;
      var reg := fs1.freereg - 1;
      hide ReserveReg;
      assert Run(cmp, outer, fs1, e, pc, R) == Run(cmp, outer, fs, e, pc, R);
      DischargeToRegMeans(cmp, outer, fs0, n, fs1, e, src, reg, pc, R);
      FreshReg(n, reg);
    }
  }

  // A register above n is none of those below n.
  lemma FreshReg(n: nat, reg: nat)
    requires n <= reg
    ensures forall R, R' :: AgreeBut(R, R', n, reg) ==> AgreeBut(R, R', n, NO_REG)
  {
  }

  // ---------- a jump on the value ----------

  // Falling through means the value is not cond; leaving tells the truth.
  ghost predicate Branch(cmp: Compare, o0: Outcome, n: nat, cond: bool, code: seq<Instr>, e: Exp, src: Expr,
      o: Outcome) {
    match o0
    case Stuck => true
    case Exit(_, _) => o == o0
    case Fall(R1) =>
      var v := Eval(cmp, src, R1);
      match o
      case Stuck => false
      case Fall(R2) => AgreeBut(R1, R2, n, NO_REG) && IsFalse(v) == cond
      case Exit(j, R2) => AgreeBut(R1, R2, n, NO_REG) && ExitOk(code, e, j, R2, v)
  }

  // e with jumps js taken when it is cond.
  function WithJumps(e: Exp, js: seq<nat>, cond: bool): Exp {
    if cond then e.(t := e.t + js) else e.(f := e.f + js)
  }

  ghost predicate Branching(outer: set<nat>, fs0: FS, fs: FS, e: Exp) {
    && Sound(outer, Own(e), fs) && Distinct(e.t) && Distinct(e.f) && Elems(e.t) !! Elems(e.f)
    && fs.nactvar == fs0.nactvar && SameTests(outer, fs0.code, fs.code) && |fs0.code| <= |fs.code|
  }

  lemma WithJumpLists(e: Exp, j: nat, cond: bool)
    requires Distinct(e.t) && Distinct(e.f) && Elems(e.t) !! Elems(e.f) && j !in Own(e)
    ensures var d := WithJumps(e, [j], cond);
            && Own(d) == Own(e) + {j} && Distinct(d.t) && Distinct(d.f) && Elems(d.t) !! Elems(d.f)
            && Elems(if cond then d.t else d.f) == Elems(if cond then e.t else e.f) + {j}
  {
    ElemsAppend(e.t, [j]);
    ElemsAppend(e.f, [j]);
    assert Elems([j]) == {j} by { ElemsCons([j]); }
    forall m | 0 <= m < |e.t| ensures e.t[m] in Elems(e.t) { }
    forall m | 0 <= m < |e.f| ensures e.f[m] in Elems(e.f) { }
  }

  // The conditional jump's test, and the code it follows.
  lemma JumpOnCondSound(outer: set<nat>, fs0: FS, fs: FS, e: Exp, cond: bool) returns (g: FS, test: Instr)
    requires Shape(outer, fs0, fs, e) && !e.k.VJmp? && !e.k.VLocal? && JumpOnCond(fs, e, cond).Ok?
    ensures if e.k.VReloc? then g == fs.(code := Body(fs, e)) && test == Test(fs.code[e.k.pc].b, !cond)
            else var d := DischargeToAnyReg(fs, e);
                 d.Ok? && d.value.1.k.VNonReloc? && g == FreeExp(d.value.0, d.value.1)
                   && test == TestSet(NO_REG, d.value.1.k.r, cond)
                 && g.code == d.value.0.code && g.jpc == d.value.0.jpc
    ensures Lists(outer, Own(e), g) && g.freereg == fs.freereg && SameTests(outer + Own(e), fs.code, g.code)
    ensures g.nactvar == fs.nactvar && g.maxstack < MAXREGS && fs.freereg <= g.maxstack && |fs.code| <= |g.code| + 1
    ensures CondJump(g, test) == JumpOnCond(fs, e, cond)
  {
    hide Elems, Distinct;
    if e.k.VReloc? {
      g, test := fs.(code := Body(fs, e)), Test(fs.code[e.k.pc].b, !cond);
      DropPending(fs.code, outer);
      DropPending(fs.code, Own(e));
      NoElems();
    } else {
      AnyRegShape(outer, fs0, fs, e);
      var (fs1, e1) := DischargeToAnyReg(fs, e).value;
      g, test := FreeExp(fs1, e1), TestSet(NO_REG, e1.k.r, cond);
    }
  }

  lemma DropPending(code: seq<Instr>, js: set<nat>)
    requires Pending(code, js) && |code| > 0 && !code[|code| - 1].Jmp?
    ensures var code1 := code[..|code| - 1]; Pending(code1, js) && SameTests(js, code, code1)
  {
  }

  lemma JumpOnCondShape(outer: set<nat>, fs0: FS, fs: FS, e: Exp, cond: bool)
    requires Shape(outer, fs0, fs, e) && !e.k.VJmp? && !e.k.VLocal? && JumpOnCond(fs, e, cond).Ok?
    ensures var (fs1, j) := JumpOnCond(fs, e, cond).value;
            && Branching(outer, fs0, fs1, WithJumps(e, [j], cond)) && fs1.freereg == fs.freereg && fs1.jpc == []
            && SameTests(outer + Own(e), fs.code, fs1.code) && j !in Own(e)
  {
    hide Elems, Distinct, Pending;
    var g, test := JumpOnCondSound(outer, fs0, fs, e, cond);
    var (fs1, j) := JumpOnCond(fs, e, cond).value;
    CondJumpSound(outer, Own(e), g, test);
    SameTestsTrans(outer + Own(e), fs.code, g.code, fs1.code);
    WithJumpLists(e, j, cond);
    SameTestsPart(outer, Own(e), fs.code, fs1.code);
    SameTestsTrans(outer, fs0.code, fs.code, fs1.code);
  }

  lemma SameTestsPart(a: set<nat>, b: set<nat>, code: seq<Instr>, code': seq<Instr>)
    requires SameTests(a + b, code, code')
    ensures SameTests(a, code, code') && SameTests(b, code, code')
  {
    forall j | j in a ensures j in a + b { }
  }

  // A test that skips exactly when v is not cond, and otherwise hands over v.
  ghost predicate Tests(cmp: Compare, test: Instr, cond: bool, R: Regs, v: Value)
    requires TMode(test)
  {
    && Skips(cmp, test, R) == (IsFalse(v) == cond)
    && (!Skips(cmp, test, R) ==> if test.TestSet? then v == Get(R, test.b) else v == Bool(cond))
  }

  // The run is about to meet the test.
  ghost predicate AtTest(cmp: Compare, o0: Outcome, n: nat, test: Instr, cond: bool, code: seq<Instr>, e: Exp,
      src: Expr, o: Outcome)
    requires TMode(test)
  {
    match o0
    case Stuck => true
    case Exit(_, _) => o == o0
    case Fall(R1) =>
      var v := Eval(cmp, src, R1);
      match o
      case Stuck => false
      case Fall(R2) => AgreeBut(R1, R2, n, NO_REG) && Tests(cmp, test, cond, R2, v)
      case Exit(j, R2) => AgreeBut(R1, R2, n, NO_REG) && ExitOk(code, e, j, R2, v)
  }

  lemma AtTestBranch(cmp: Compare, o0: Outcome, n: nat, test: Instr, cond: bool, code: seq<Instr>, e: Exp, src: Expr,
      o: Outcome,
                     code': seq<Instr>, j: nat, o': Outcome)
    requires TMode(test) && AtTest(cmp, o0, n, test, cond, code, e, src, o)
    requires Distinct(e.t) && Distinct(e.f) && Elems(e.t) !! Elems(e.f) && j !in Own(e)
             && SameTests(Own(e), code, code')
    requires 1 <= j < |code'| && code'[j - 1] == test
    requires o0.Exit? ==> o' == o0
    requires o' == match o
                   case Fall(R2) => if Skips(cmp, test, R2) then Fall(R2) else Exit(j, R2)
                   case _ => o
    ensures Branch(cmp, o0, n, cond, code', WithJumps(e, [j], cond), src, o')
  {
    hide Elems, Distinct, AgreeBut, ExitOk, Eval, Skips, SameTests;
    ExitStays(e, j, cond, code, code');
  }

  // Exits of e keep telling the truth when a jump is added.
  lemma ExitStays(e: Exp, j0: nat, cond: bool, code: seq<Instr>, code': seq<Instr>)
    requires Distinct(e.t) && Distinct(e.f) && Elems(e.t) !! Elems(e.f) && j0 !in Own(e)
    requires SameTests(Own(e), code, code')
    ensures var d := WithJumps(e, [j0], cond);
            && (forall j, R, v :: ExitOk(code, e, j, R, v) ==> ExitOk(code', d, j, R, v))
            && (forall R, v :: ExitOk(code', d, j0, R, v) <==>
                  IsFalse(v) != cond && (if ValueJump(code', j0) then v == Get(R, code'[j0 - 1].b)
                    else v == Bool(cond)))
  {
    hide Elems, Distinct;
    WithJumpLists(e, j0, cond);
    var d := WithJumps(e, [j0], cond);
    forall j, R, v | ExitOk(code, e, j, R, v) ensures ExitOk(code', d, j, R, v) {
      assert j in Own(e) && j != j0;
    }
  }

  // The run up to where jumponcond puts its test.
  lemma JumpOnCondTest(cmp: Compare, outer: set<nat>, fs0: FS, n: nat, fs: FS, e: Exp, src: Expr, cond: bool, pc: nat,
      R: Regs, g: FS, test: Instr)
    requires Shape(outer, fs0, fs, e) && !e.k.VJmp? && !e.k.VLocal? && JumpOnCond(fs, e, cond).Ok?
    requires Entry(outer, fs0, pc) && GoodRegs(Run0(cmp, outer, fs0, pc, R)) && n <= fs.freereg
    requires Means(cmp, Run0(cmp, outer, fs0, pc, R), n, NO_REG, fs, e, src, Run(cmp, outer, fs, e, pc, R))
    requires if e.k.VReloc? then g == fs.(code := Body(fs, e)) && test == Test(fs.code[e.k.pc].b, !cond)
             else var d := DischargeToAnyReg(fs, e);
                  d.Ok? && d.value.1.k.VNonReloc? && g.code == d.value.0.code && g.jpc == d.value.0.jpc
                  && test == TestSet(NO_REG, d.value.1.k.r, cond)
    ensures AtTest(cmp, Run0(cmp, outer, fs0, pc, R), n, test, cond, if e.k.VReloc? then fs.code else g.code, e, src,
                   Exec(cmp, Prog(g.code, outer + Own(e), Elems(g.jpc)), pc, R))
  {
    hide Elems, Distinct, Pending, Exec, Eval, OnlyFall, DischargeToAnyReg, JumpOnCond, AgreeBut, ExitOk;
    if !e.k.VReloc? { AnyRegMeans(cmp, outer, fs0, n, fs, e, src, pc, R); }
  }

  lemma JumpOnCondMeans(cmp: Compare, outer: set<nat>, fs0: FS, n: nat, fs: FS, e: Exp, src: Expr, cond: bool, pc: nat,
      R: Regs)
    requires Shape(outer, fs0, fs, e) && !e.k.VJmp? && !e.k.VLocal? && JumpOnCond(fs, e, cond).Ok?
    requires Entry(outer, fs0, pc) && GoodRegs(Run0(cmp, outer, fs0, pc, R)) && n <= fs.freereg
    requires Means(cmp, Run0(cmp, outer, fs0, pc, R), n, NO_REG, fs, e, src, Run(cmp, outer, fs, e, pc, R))
    ensures var (fs1, j) := JumpOnCond(fs, e, cond).value; var d := WithJumps(e, [j], cond);
            Branch(cmp, Run0(cmp, outer, fs0, pc, R), n, cond, fs1.code, d, src,
                   Exec(cmp, Prog(fs1.code, outer + Own(d), Elems(fs1.jpc)), pc, R))
  {
    hide Elems, Distinct, Pending, Exec, Eval, OnlyFall, DischargeToAnyReg, JumpOnCond, Own, Skips, AgreeBut, ExitOk;
    var o0 := Run0(cmp, outer, fs0, pc, R);
    if !o0.Stuck? {
      var g, test := JumpOnCondSound(outer, fs0, fs, e, cond);
      var (fs1, j) := JumpOnCond(fs, e, cond).value;
      CondJumpSound(outer, Own(e), g, test);
      JumpOnCondShape(outer, fs0, fs, e, cond);
      WithJumpLists(e, j, cond);
      JumpOnCondTest(cmp, outer, fs0, n, fs, e, src, cond, pc, R, g, test);
      CondJumpExec(cmp, outer, Own(e), g, test, pc, R);
      NoElems();
      assert outer + Own(e) + {j} == outer + Own(WithJumps(e, [j], cond));
      SameTestsPart(outer, Own(e), g.code, fs1.code);
      SameTestsPart(outer, Own(e), fs.code, fs1.code);
      AtTestBranch(cmp, o0, n, test, cond, if e.k.VReloc? then fs.code else g.code, e, src,
                   Exec(cmp, Prog(g.code, outer + Own(e), Elems(g.jpc)), pc, R), fs1.code, j,
                   Exec(cmp, Prog(fs1.code, outer + Own(e) + {j}, {}), pc, R));
    }
  }

  // ---------- comparisons ----------

  lemma NegateShape(outer: set<nat>, fs0: FS, fs: FS, e: Exp)
    requires Shape(outer, fs0, fs, e) && e.k.VJmp?
    ensures var g := NegateCondition(fs, e.k.pc); var i := fs.code[e.k.pc - 1];
            && Shape(outer, fs0, g, e) && g == fs.(code := fs.code[e.k.pc - 1 := Cmp(i.op, !i.want, i.x, i.y)])
            && Body(g, e) == Body(fs, e) && SameTests(outer + Own(e), fs.code, g.code)
  {
    hide Elems;
    NoElems();
    var m, i := e.k.pc - 1, fs.code[e.k.pc - 1];
    var i' := Cmp(i.op, !i.want, i.x, i.y);
    PendingUnion(fs.code, outer, Own(e));
    SwapComparison(fs.code, m, i', outer + Own(e));
    SwapComparison(fs.code, m, i', Elems(fs.jpc));
    SameTestsPart(outer, Own(e), fs.code, fs.code[m := i']);
    assert Pending(fs.code[m := i'], outer) && Pending(fs.code[m := i'], Own(e));
  }

  lemma SwapComparison(code: seq<Instr>, m: nat, i: Instr, js: set<nat>)
    requires m + 1 < |code| && code[m].Cmp? && i.Cmp? && Pending(code, js) && m + 1 !in js
    ensures Pending(code[m := i], js) && SameTests(js, code, code[m := i])
  {
  }

  // The code with its comparison's jump waiting on a list.
  lemma JmpShape(outer: set<nat>, fs0: FS, fs: FS, e: Exp, cond: bool)
    requires Shape(outer, fs0, fs, e) && e.k.VJmp?
    ensures Branching(outer, fs0, fs, WithJumps(e, [e.k.pc], cond))
            && Own(WithJumps(e, [e.k.pc], cond)) == Own(e) + {e.k.pc}
    ensures fs.code == Body(fs, e) + [fs.code[e.k.pc - 1], fs.code[e.k.pc]] && |Body(fs, e)| == e.k.pc - 1
  {
    WithJumpLists(e, e.k.pc, cond);
  }

  lemma JmpExec(cmp: Compare, outer: set<nat>, fs0: FS, fs: FS, e: Exp, pc: nat, R: Regs)
    requires Shape(outer, fs0, fs, e) && e.k.VJmp? && Run(cmp, outer, fs, e, pc, R) != Stuck
    ensures Exec(cmp, Prog(fs.code, outer + Own(e) + {e.k.pc}, {}), pc, R) ==
            match Run(cmp, outer, fs, e, pc, R)
            case Fall(R2) => if Skips(cmp, fs.code[e.k.pc - 1], R2) then Fall(R2) else Exit(e.k.pc, R2)
            case o => o
  {
    JmpShape(outer, fs0, fs, e, true);
    hide Exec, Own;
    NoElems();
    TestJumpExec(cmp, Body(fs, e), fs.code[e.k.pc - 1], fs.code[e.k.pc], outer + Own(e), pc, R);
  }

  lemma JmpMeans(cmp: Compare, outer: set<nat>, fs0: FS, n: nat, fs: FS, e: Exp, src: Expr, cond: bool, pc: nat,
      R: Regs)
    requires Shape(outer, fs0, fs, e) && e.k.VJmp?
    requires Means(cmp, Run0(cmp, outer, fs0, pc, R), n, NO_REG, fs, e, src, Run(cmp, outer, fs, e, pc, R))
    ensures var g := if cond then fs else NegateCondition(fs, e.k.pc); var d := WithJumps(e, [e.k.pc], cond);
            Branch(cmp, Run0(cmp, outer, fs0, pc, R), n, cond, g.code, d, src,
                   Exec(cmp, Prog(g.code, outer + Own(d), Elems(g.jpc)), pc, R))
  {
    NegateShape(outer, fs0, fs, e);
    var g, j := if cond then fs else NegateCondition(fs, e.k.pc), e.k.pc;
    var o0, o := Run0(cmp, outer, fs0, pc, R), Run(cmp, outer, fs, e, pc, R);
    if !o0.Stuck? {
      JmpShape(outer, fs0, g, e, cond);
      NoElems();
      assert outer + Own(e) + {j} == outer + Own(WithJumps(e, [j], cond));
      SameTestsPart(outer, Own(e), fs.code, g.code);
      JmpAtTest(cmp, o0, n, fs, e, src, cond, o, g);
      assert Run(cmp, outer, g, e, pc, R) == o && o != Stuck;
      assert TMode(g.code[j - 1]);
      assert Elems(g.jpc) == {};
      assert Distinct(e.t) && Distinct(e.f) && Elems(e.t) !! Elems(e.f) && j !in Own(e);
      hide *;
      JmpExec(cmp, outer, fs0, g, e, pc, R);
      AtTestBranch(cmp, o0, n, g.code[j - 1], cond, fs.code, e, src, o, g.code, j,
                   Exec(cmp, Prog(g.code, outer + Own(e) + {j}, {}), pc, R));
    } else {
      hide Exec, Elems, Shape;
    }
  }

  // The comparison, negated for a jump when false, is a test of the value.
  lemma JmpAtTest(cmp: Compare, o0: Outcome, n: nat, fs: FS, e: Exp, src: Expr, cond: bool, o: Outcome, g: FS)
    requires KindShape(fs, e.k) && e.k.VJmp? && g == (if cond then fs else NegateCondition(fs, e.k.pc))
    requires Means(cmp, o0, n, NO_REG, fs, e, src, o)
    ensures |g.code| == |fs.code| && g.code[e.k.pc - 1].Cmp? && AtTest(cmp, o0, n, g.code[e.k.pc - 1], cond, fs.code,
            e, src, o)
    ensures o0.Exit? ==> o == o0
    ensures !o0.Stuck? ==> !o.Stuck?
  {
    hide Eval, AgreeBut, ExitOk, Operand;
  }

  // ---------- luaK_goiftrue and luaK_goiffalse ----------

  // The list of jumps taken when e is not cond goes here.
  lemma HereShape(outer: set<nat>, fs0: FS, fs: FS, d: Exp, cond: bool)
    requires Branching(outer, fs0, fs, d)
    ensures var list := if cond then d.f else d.t; var y := if cond then Exp(d.k, d.t, []) else Exp(d.k, [], d.f);
            var fs1 := PatchToHere(fs, list);
            && Branching(outer, fs0, fs1, y) && !Mergeable(fs1) && Own(y) + Elems(list) == Own(d)
               && Own(y) !! Elems(list)
            && Elems(fs1.jpc) == Elems(fs.jpc) + Elems(list)
  {
    var list := if cond then d.f else d.t;
    ElemsAppend(fs.jpc, list);
    forall m | 0 <= m < |fs.jpc| ensures fs.jpc[m] in Elems(fs.jpc) { }
    forall m | 0 <= m < |list| ensures list[m] in Elems(list) { }
    assert Distinct(fs.jpc + list);
  }

  lemma HereMeans(cmp: Compare, outer: set<nat>, fs0: FS, n: nat, fs: FS, d: Exp, src: Expr, cond: bool, pc: nat,
      R: Regs)
    requires Branching(outer, fs0, fs, d)
    requires Branch(cmp, Run0(cmp, outer, fs0, pc, R), n, cond, fs.code, d, src,
                    Exec(cmp, Prog(fs.code, outer + Own(d), Elems(fs.jpc)), pc, R))
    ensures var list := if cond then d.f else d.t; var y := if cond then Exp(d.k, d.t, []) else Exp(d.k, [], d.f);
            var fs1 := PatchToHere(fs, list);
            Branch(cmp, Run0(cmp, outer, fs0, pc, R), n, cond, fs1.code, y, src,
                   Exec(cmp, Prog(fs1.code, outer + Own(y), Elems(fs1.jpc)), pc, R))
  {
    var list := if cond then d.f else d.t;
    var y := if cond then Exp(d.k, d.t, []) else Exp(d.k, [], d.f);
    HereShape(outer, fs0, fs, d, cond);
    ExitsOnly(cmp, Prog(fs0.code, outer, Elems(fs0.jpc)), pc, R);
    hide Elems, Exec, Pending, Distinct, Eval, AgreeBut;
    assert outer + Own(y) + Elems(list) == outer + Own(d);
    ToHereExec(cmp, fs.code, outer + Own(y), Elems(list), Elems(fs.jpc), pc, R);
    NoElems();
  }

  function GoIf(fs: FS, e: Exp, cond: bool): Result<(FS, Exp)> {
    if cond then GoIfFalse(fs, e) else GoIfTrue(fs, e)
  }

  // The value is known not to be cond: no jump is needed.
  predicate Settled(k: Kind, cond: bool) { if cond then k.VNil? || k.VFalse? else k.VK? || k.VTrue? }

  // The jump that is added, and the state it leaves.
  lemma GoIfJump(outer: set<nat>, fs0: FS, fs: FS, e: Exp, cond: bool) returns (fs1: FS, d: Exp)
    requires Shape(outer, fs0, fs, e) && GoIf(fs, e, cond).Ok? && !e.k.VLocal?
    ensures Branching(outer, fs0, fs1, d) && fs1.freereg == fs.freereg && d.k == e.k
    ensures var list := if cond then d.f else d.t;
            GoIf(fs, e, cond).value == (PatchToHere(fs1, list), if cond then Exp(d.k, d.t, []) else Exp(d.k, [], d.f))
    ensures if e.k.VJmp? then fs1 == (if cond then fs else NegateCondition(fs, e.k.pc))
            && d == WithJumps(e, [e.k.pc], cond)
            else if Settled(e.k, cond) then fs1 == fs && d == e
            else JumpOnCond(fs, e, cond).Ok? && fs1 == JumpOnCond(fs, e, cond).value.0
                 && d == WithJumps(e, [JumpOnCond(fs, e, cond).value.1], cond)
  {
    if e.k.VJmp? {
      NegateShape(outer, fs0, fs, e);
      fs1, d := if cond then fs else NegateCondition(fs, e.k.pc), WithJumps(e, [e.k.pc], cond);
      JmpShape(outer, fs0, fs1, e, cond);
    } else if Settled(e.k, cond) {
      fs1, d := fs, e;
      assert e.t + [] == e.t && e.f + [] == e.f;
    } else {
      hide JumpOnCond, Elems, Pending, Distinct;
      JumpOnCondShape(outer, fs0, fs, e, cond);
      var (g, j) := JumpOnCond(fs, e, cond).value;
      fs1, d := g, WithJumps(e, [j], cond);
    }
  }

  lemma GoIfShape(outer: set<nat>, fs0: FS, fs: FS, e: Exp, cond: bool)
    requires Shape(outer, fs0, fs, e) && GoIf(fs, e, cond).Ok?
    ensures var (fs1, y) := GoIf(fs, e, cond).value;
            && Branching(outer, fs0, fs1, y) && !Mergeable(fs1) && fs1.freereg == fs.freereg
            && (if cond then y.f else y.t) == []
  {
    VarsShape(outer, fs0, fs, e);
    var e1 := DischargeVars(e);
    assert GoIf(fs, e1, cond) == GoIf(fs, e, cond);
    var fs1, d := GoIfJump(outer, fs0, fs, e1, cond);
    HereShape(outer, fs0, fs1, d, cond);
  }

  // luaK_goiftrue and luaK_goiffalse: control falls through exactly when the
  // value is true, or false; every other way out tells the truth about it.
  lemma GoIfMeans(cmp: Compare, outer: set<nat>, fs0: FS, n: nat, fs: FS, e: Exp, src: Expr, cond: bool, pc: nat,
      R: Regs)
    requires Shape(outer, fs0, fs, e) && GoIf(fs, e, cond).Ok?
    requires Entry(outer, fs0, pc) && GoodRegs(Run0(cmp, outer, fs0, pc, R)) && n <= fs.freereg
    requires Means(cmp, Run0(cmp, outer, fs0, pc, R), n, NO_REG, fs, e, src, Run(cmp, outer, fs, e, pc, R))
    ensures var (fs1, y) := GoIf(fs, e, cond).value;
            Branch(cmp, Run0(cmp, outer, fs0, pc, R), n, cond, fs1.code, y, src,
                   Exec(cmp, Prog(fs1.code, outer + Own(y), Elems(fs1.jpc)), pc, R))
  {
    VarsShape(outer, fs0, fs, e);
    VarsMeans(cmp, outer, fs0, n, fs, e, src, pc, R);
    var e1 := DischargeVars(e);
    assert GoIf(fs, e1, cond) == GoIf(fs, e, cond);
    hide Elems, Pending, Distinct, Exec, AgreeBut, Eval, JumpOnCond, GoIfTrue, GoIfFalse, OnlyFall;
    var fs1, d := GoIfJump(outer, fs0, fs, e1, cond);
    if e1.k.VJmp? {
      JmpMeans(cmp, outer, fs0, n, fs, e1, src, cond, pc, R);
    } else if !Settled(e1.k, cond) {
      JumpOnCondMeans(cmp, outer, fs0, n, fs, e1, src, cond, pc, R);
    }
    HereMeans(cmp, outer, fs0, n, fs1, d, src, cond, pc, R);
  }

  // ---------- codenot ----------

  // Before the values of its jumps are removed: falling through finds the
  // negated value, leaving still speaks of the value itself.
  ghost predicate Negated(cmp: Compare, o0: Outcome, n: nat, fs: FS, k: Kind, e: Exp, src: Expr, o: Outcome)
    requires KindShape(fs, k)
  {
    match o0
    case Stuck => true
    case Exit(_, _) => o == o0
    case Fall(R1) =>
      var v := Eval(cmp, src, R1);
      match o
      case Stuck => false
      case Fall(R2) => AgreeBut(R1, R2, n, NO_REG) && KindOk(cmp, fs, k, R2, Bool(IsFalse(v)))
      case Exit(j, R2) => AgreeBut(R1, R2, n, NO_REG) && ExitOk(fs.code, e, j, R2, v)
  }

  // codenot's switch.
  function NotKind(fs: FS, e: Exp): Result<(FS, Kind)>
  {
    match e.k
    case VNil => Ok((fs, VTrue))
    case VFalse => Ok((fs, VTrue))
    case VK(_) => Ok((fs, VFalse))
    case VTrue => Ok((fs, VFalse))
    case VJmp(pc) => Ok((NegateCondition(fs, pc), e.k))
    case _ =>
      var (fs1, e1) :- DischargeToAnyReg(fs, e);
      var fs2 := FreeExp(fs1, e1);
      var fs3 :- Code(fs2, Not(0, if e1.k.VNonReloc? then e1.k.r else 0));
      Ok((fs3, VReloc(|fs2.code|)))
  }

  lemma NotKindShape(outer: set<nat>, fs0: FS, fs: FS, e: Exp)
    requires Shape(outer, fs0, fs, e) && !e.k.VLocal? && NotKind(fs, e).Ok?
    ensures var (fs1, k) := NotKind(fs, e).value; Shape(outer, fs0, fs1, e.(k := k)) && fs1.freereg == fs.freereg
  {
    hide Elems, Pending;
    match e.k
    case VJmp(_) => NegateShape(outer, fs0, fs, e); SameTestsTrans(outer, fs0.code, fs.code,
      NegateCondition(fs, e.k.pc).code);
    case VReloc(_) => NotRegShape(outer, fs0, fs, e);
    case VNonReloc(_) => NotRegShape(outer, fs0, fs, e);
    case _ =>
  }

  lemma NotRegShape(outer: set<nat>, fs0: FS, fs: FS, e: Exp)
    requires Shape(outer, fs0, fs, e) && (e.k.VReloc? || e.k.VNonReloc?) && NotKind(fs, e).Ok?
    ensures var (fs1, k) := NotKind(fs, e).value; Shape(outer, fs0, fs1, e.(k := k)) && fs1.freereg == fs.freereg
  {
    hide Elems, Pending;
    AnyRegShape(outer, fs0, fs, e);
    var (fs1, e1) := DischargeToAnyReg(fs, e).value;
    var g := FreeExp(fs1, e1);
    CodeSound(outer, Own(e), g, Not(0, e1.k.r));
    var code1 := Code(g, Not(0, e1.k.r)).value.code;
    SameTestsPart(outer, Own(e), fs.code, g.code);
    SameTestsPart(outer, Own(e), g.code, code1);
    SameTestsTrans(outer, fs0.code, fs.code, g.code);
    SameTestsTrans(outer, fs0.code, g.code, code1);
  }

  lemma NotKindMeans(cmp: Compare, outer: set<nat>, fs0: FS, n: nat, fs: FS, e: Exp, src: Expr, pc: nat, R: Regs)
    requires Shape(outer, fs0, fs, e) && !e.k.VLocal? && NotKind(fs, e).Ok?
    requires Entry(outer, fs0, pc) && GoodRegs(Run0(cmp, outer, fs0, pc, R)) && n <= fs.freereg
    requires Means(cmp, Run0(cmp, outer, fs0, pc, R), n, NO_REG, fs, e, src, Run(cmp, outer, fs, e, pc, R))
    ensures KindShape(NotKind(fs, e).value.0, NotKind(fs, e).value.1)
    ensures var (fs1, k) := NotKind(fs, e).value;
            Negated(cmp, Run0(cmp, outer, fs0, pc, R), n, fs1, k, e, src, Run(cmp, outer, fs1, e.(k := k), pc, R))
  {
    NotKindShape(outer, fs0, fs, e);
    hide Elems, Pending, Distinct, Exec, AgreeBut, Eval, OnlyFall, ExitOk, Code, DischargeToAnyReg, Operand;
    match e.k
    case VJmp(_) => NotJmpMeans(cmp, outer, fs0, n, fs, e, src, pc, R);
    case VReloc(_) => NotRegMeans(cmp, outer, fs0, n, fs, e, src, pc, R);
    case VNonReloc(_) => NotRegMeans(cmp, outer, fs0, n, fs, e, src, pc, R);
    case _ =>
  }

  lemma NotJmpMeans(cmp: Compare, outer: set<nat>, fs0: FS, n: nat, fs: FS, e: Exp, src: Expr, pc: nat, R: Regs)
    requires Shape(outer, fs0, fs, e) && e.k.VJmp?
    requires Means(cmp, Run0(cmp, outer, fs0, pc, R), n, NO_REG, fs, e, src, Run(cmp, outer, fs, e, pc, R))
    ensures var fs1 := NegateCondition(fs, e.k.pc);
            && KindShape(fs1, e.k)
            && Negated(cmp, Run0(cmp, outer, fs0, pc, R), n, fs1, e.k, e, src, Run(cmp, outer, fs1, e, pc, R))
  {
    NegateShape(outer, fs0, fs, e);
    SameExits(outer, e, fs.code, NegateCondition(fs, e.k.pc).code);
    hide Elems, Pending, Distinct, Exec, AgreeBut, Eval, ExitOk, Operand;
  }

  lemma NotRegMeans(cmp: Compare, outer: set<nat>, fs0: FS, n: nat, fs: FS, e: Exp, src: Expr, pc: nat, R: Regs)
    requires Shape(outer, fs0, fs, e) && (e.k.VReloc? || e.k.VNonReloc?) && NotKind(fs, e).Ok?
    requires Entry(outer, fs0, pc) && GoodRegs(Run0(cmp, outer, fs0, pc, R)) && n <= fs.freereg
    requires Means(cmp, Run0(cmp, outer, fs0, pc, R), n, NO_REG, fs, e, src, Run(cmp, outer, fs, e, pc, R))
    ensures KindShape(NotKind(fs, e).value.0, NotKind(fs, e).value.1)
    ensures var (fs1, k) := NotKind(fs, e).value;
            Negated(cmp, Run0(cmp, outer, fs0, pc, R), n, fs1, k, e, src, Run(cmp, outer, fs1, e.(k := k), pc, R))
  {
    NotRegShape(outer, fs0, fs, e);
    AnyRegShape(outer, fs0, fs, e);
    AnyRegMeans(cmp, outer, fs0, n, fs, e, src, pc, R);
    NotKindReg(fs, e);
    var (fs1, e1) := DischargeToAnyReg(fs, e).value;
    var g, r := FreeExp(fs1, e1), e1.k.r;
    NotEmitted(cmp, outer, Own(e), g, r, pc, R);
    var (fs2, k) := NotKind(fs, e).value;
    hide Shape, Sound, SameTests, Mergeable, Entry, Code, NotKind, FreeExp, DischargeToAnyReg, Exec, HasValue, Negated,
         Means, Elems, ExitOk;
    SameExits(outer, e, g.code, fs2.code);
    NotRegNegated(cmp, Run0(cmp, outer, fs0, pc, R), n, g, r, fs2, e, src,
      Exec(cmp, Prog(g.code, outer + Own(e), Elems(g.jpc)), pc, R));
  }

  lemma NotKindReg(fs: FS, e: Exp)
    requires (e.k.VReloc? || e.k.VNonReloc?) && NotKind(fs, e).Ok?
    ensures DischargeToAnyReg(fs, e).Ok?
    ensures var (fs1, e1) := DischargeToAnyReg(fs, e).value; var g := FreeExp(fs1, e1);
            e1.k.VNonReloc? ==>
              Code(g, Not(0, e1.k.r)).Ok? && NotKind(fs, e).value ==
              (Code(g, Not(0, e1.k.r)).value, VReloc(|g.code|))
  {
  }

  lemma NotRegNegated(cmp: Compare, o0: Outcome, n: nat, g: FS, r: nat, fs: FS, e: Exp, src: Expr, o: Outcome)
    requires HasValue(cmp, o0, n, r, g.code, e, src, o)
    requires KindShape(fs, VReloc(|g.code|)) && fs.code[|g.code|] == Not(0, r)
    requires forall j, R, v :: ExitOk(fs.code, e, j, R, v) <==> ExitOk(g.code, e, j, R, v)
    ensures Negated(cmp, o0, n, fs, VReloc(|g.code|), e, src, o)
  {
  }

  lemma NotEmitted(cmp: Compare, outer: set<nat>, own: set<nat>, g: FS, r: nat, pc: nat, R: Regs)
    requires Sound(outer, own, g) && Code(g, Not(0, r)).Ok?
    ensures var g1 := Code(g, Not(0, r)).value; var m := |g.code|;
            && |g1.code| == m + 1 && g1.code[m] == Not(0, r) && g1.jpc == [] && SameTests(outer + own, g.code, g1.code)
            && Exec(cmp, Prog(g1.code[..m], outer + own, Elems(g1.jpc)), pc, R) ==
               Exec(cmp, Prog(g.code, outer + own, Elems(g.jpc)), pc, R)
  {
    hide Elems, Distinct, Exec;
    CodeSound(outer, own, g, Not(0, r));
    DischargeFacts(g, outer);
    NoElems();
    assert Code(g, Not(0, r)).value.code[..|g.code|] == DischargeJpc(g).value.code;
    DischargeExec(cmp, g, outer + own, pc, R);
  }

  // removevalues on both lists.
  lemma RemoveBoth(outer: set<nat>, fs0: FS, fs: FS, e: Exp)
    requires Shape(outer, fs0, fs, e)
    ensures var code2 := RemoveValues(RemoveValues(fs.code, e.t), e.f);
            && IsRemoval(fs.code, code2) && (forall j :: j in Own(e) ==> !ValueJump(code2, j))
            && (forall i :: 0 <= i < |fs.code| && i + 1 !in Own(e) ==> code2[i] == fs.code[i])
  {
    var code1 := RemoveValues(fs.code, e.t);
    var code2 := RemoveValues(code1, e.f);
    RemoveValuesMeaning(fs.code, e.t);
    RemovalPending(fs.code, code1, Elems(e.f));
    RemoveValuesMeaning(code1, e.f);
    forall j | j in Own(e) ensures !ValueJump(code2, j) {
      if j !in Elems(e.f) {
        assert !ValueJump(code1, j);
        assert 1 <= j <= |code1| ==> code2[j - 1] == code1[j - 1];
      }
    }
  }

  lemma RemovalPending(code: seq<Instr>, code': seq<Instr>, js: set<nat>)
    requires IsRemoval(code, code') && Pending(code, js)
    ensures Pending(code', js)
  {
  }

  lemma CodeNotSteps(fs: FS, e0: Exp)
    requires CodeNot(fs, e0).Ok?
    ensures var e := DischargeVars(e0);
            NotKind(fs, e).Ok? &&
            var (fs1, k) := NotKind(fs, e).value;
            CodeNot(fs, e0).value == (fs1.(code := RemoveValues(RemoveValues(fs1.code, e.t), e.f)), Exp(k, e.f, e.t))
  {
    hide DischargeToAnyReg, RemoveValues, Code;
  }

  lemma CodeNotShape(outer: set<nat>, fs0: FS, fs: FS, e0: Exp)
    requires Shape(outer, fs0, fs, e0) && CodeNot(fs, e0).Ok?
    ensures var (fs1, e1) := CodeNot(fs, e0).value; Shape(outer, fs0, fs1, e1) && fs1.freereg == fs.freereg
  {
    CodeNotSteps(fs, e0);
    VarsShape(outer, fs0, fs, e0);
    var e := DischargeVars(e0);
    NotKindShape(outer, fs0, fs, e);
    var (fs1, k) := NotKind(fs, e).value;
    RemoveBothShape(outer, fs0, fs1, e.(k := k));
  }

  lemma RemoveBothShape(outer: set<nat>, fs0: FS, fs: FS, e: Exp)
    requires Shape(outer, fs0, fs, e)
    ensures var fs1 := fs.(code := RemoveValues(RemoveValues(fs.code, e.t), e.f)); var e1 := Exp(e.k, e.f, e.t);
            && Shape(outer, fs0, fs1, e1) && Own(e1) == Own(e) && IsRemoval(Body(fs, e), Body(fs1, e1))
               && |fs1.code| == |fs.code|
            && (e.k.VReloc? ==> fs1.code[e.k.pc] == fs.code[e.k.pc])
               && (e.k.VJmp? ==> fs1.code[e.k.pc - 1] == fs.code[e.k.pc - 1])
  {
    RemoveBoth(outer, fs0, fs, e);
    hide Elems;
    var code1 := RemoveValues(RemoveValues(fs.code, e.t), e.f);
    RemovalPending(fs.code, code1, outer);
    RemovalPending(fs.code, code1, Own(e));
    RemovalPending(fs.code, code1, Elems(fs.jpc));
    assert SameTests(outer, fs.code, code1);
    SameTestsTrans(outer, fs0.code, fs.code, code1);
    if Mergeable(fs.(code := code1)) {
      assert Mergeable(fs);
      NoElems();
      assert code1 == fs.code;
    }
  }

  lemma CodeNotMeans(cmp: Compare, outer: set<nat>, fs0: FS, n: nat, fs: FS, e0: Exp, src: Expr, pc: nat, R: Regs)
    requires Shape(outer, fs0, fs, e0) && CodeNot(fs, e0).Ok?
    requires Entry(outer, fs0, pc) && GoodRegs(Run0(cmp, outer, fs0, pc, R)) && n <= fs.freereg
    requires Means(cmp, Run0(cmp, outer, fs0, pc, R), n, NO_REG, fs, e0, src, Run(cmp, outer, fs, e0, pc, R))
    ensures var (fs1, e1) := CodeNot(fs, e0).value;
            && KindShape(fs1, e1.k)
            && Means(cmp, Run0(cmp, outer, fs0, pc, R), n, NO_REG, fs1, e1, ENot(src), Run(cmp, outer, fs1, e1, pc, R))
  {
    CodeNotSteps(fs, e0);
    VarsShape(outer, fs0, fs, e0);
    VarsMeans(cmp, outer, fs0, n, fs, e0, src, pc, R);
    var e := DischargeVars(e0);
    NotKindShape(outer, fs0, fs, e);
    NotKindMeans(cmp, outer, fs0, n, fs, e, src, pc, R);
    hide Elems, Pending, Distinct, Exec, AgreeBut, OnlyFall, NotKind, RemoveValues, CodeNot, ExitOk, Operand;
    var (fs1, k) := NotKind(fs, e).value;
    RemovedMeans(cmp, outer, fs0, n, fs1, e.(k := k), e, src, pc, R);
  }

  lemma RemovedMeans(cmp: Compare, outer: set<nat>, fs0: FS, n: nat, fs: FS, e: Exp, e0: Exp, src: Expr, pc: nat,
      R: Regs)
    requires Shape(outer, fs0, fs, e) && e0.t == e.t && e0.f == e.f
    requires Negated(cmp, Run0(cmp, outer, fs0, pc, R), n, fs, e.k, e0, src, Run(cmp, outer, fs, e, pc, R))
    ensures var fs1 := fs.(code := RemoveValues(RemoveValues(fs.code, e.t), e.f)); var e1 := Exp(e.k, e.f, e.t);
            && KindShape(fs1, e1.k)
            && Means(cmp, Run0(cmp, outer, fs0, pc, R), n, NO_REG, fs1, e1, ENot(src), Run(cmp, outer, fs1, e1, pc, R))
  {
    hide Elems, Pending, Distinct, Exec, AgreeBut, OnlyFall, RemoveValues, ExitOk, Operand;
    RemoveBothShape(outer, fs0, fs, e);
    RemoveBoth(outer, fs0, fs, e);
    var fs1, e1 := fs.(code := RemoveValues(RemoveValues(fs.code, e.t), e.f)), Exp(e.k, e.f, e.t);
    hide SameTests, Sound, Mergeable;
    RemovalExec(cmp, Prog(Body(fs, e), outer + Own(e), Elems(fs.jpc)), Body(fs1, e1), pc, R);
    SwappedExits(e0, e1, fs.code, fs1.code);
  }

  // Leaving through a jump without a value says of the negated value what it
  // said of the value, with the lists interchanged.
  lemma SwappedExits(e: Exp, e2: Exp, code: seq<Instr>, code': seq<Instr>)
    requires e2.t == e.f && e2.f == e.t && forall j :: j in Own(e) ==> !ValueJump(code', j)
    requires Elems(e.t) !! Elems(e.f)
    ensures forall j, R, v :: ExitOk(code, e, j, R, v) ==> ExitOk(code', e2, j, R, Bool(IsFalse(v)))
  {
    forall j, R, v | ExitOk(code, e, j, R, v) ensures ExitOk(code', e2, j, R, Bool(IsFalse(v))) {
      assert j in Own(e);
    }
  }
}
