// The whole expression compiler, and the statements that end in it.
module LuaCompile {
  import opened LuaVM
  import opened LuaGen
  import opened LuaExec
  import opened LuaCorrect
  import opened LuaCond
  import opened LuaValue

  // ---------- the next register ----------

  lemma NextRegSteps(outer: set<nat>, fs0: FS, fs: FS, e: Exp)
    requires Shape(outer, fs0, fs, e) && ExpToNextReg(fs, e).Ok?
    ensures ReserveReg(fs).Ok? && ExpToNextReg(fs, e) == ExpToReg(ReserveReg(fs).value, DischargeVars(e), fs.freereg)
  {
    hide ExpToReg;
  }

  lemma NextRegShape(outer: set<nat>, fs0: FS, fs: FS, e: Exp)
    requires Shape(outer, fs0, fs, e) && ExpToNextReg(fs, e).Ok?
    ensures var (fs1, e1) := ExpToNextReg(fs, e).value;
            && e1 == Exp(VNonReloc(fs.freereg), [], []) && fs.freereg < MAXREGS && Sound(outer, {}, fs1)
               && SameTests(outer, fs0.code, fs1.code)
            && fs1.freereg == fs.freereg + 1 && fs1.nactvar == fs.nactvar && |fs.code| <= |fs1.code|
            && (Mergeable(fs1) ==> !HasJumps(e) && (fs1.code == fs.code || e.k == VNil))
  {
    NextRegSteps(outer, fs0, fs, e);
    VarsShape(outer, fs0, fs, e);
    ReserveShape(outer, fs0, fs, DischargeVars(e));
    hide ExpToReg, Elems, Pending, Distinct;
    ExpToRegShape(outer, fs0, ReserveReg(fs).value, DischargeVars(e), fs.freereg);
  }

  lemma NextRegMeans(cmp: Compare, outer: set<nat>, fs0: FS, n: nat, fs: FS, e: Exp, src: Expr, pc: nat, R: Regs)
    requires Shape(outer, fs0, fs, e) && ExpToNextReg(fs, e).Ok? && n <= fs.freereg
    requires Entry(outer, fs0, pc) && GoodRegs(Run0(cmp, outer, fs0, pc, R))
    requires Means(cmp, Run0(cmp, outer, fs0, pc, R), n, NO_REG, fs, e, src, Run(cmp, outer, fs, e, pc, R))
    ensures var fs1 := ExpToNextReg(fs, e).value.0;
            Placed(cmp, Run0(cmp, outer, fs0, pc, R), n, fs.freereg, src,
              Exec(cmp, Prog(fs1.code, outer, Elems(fs1.jpc)), pc, R))
  {
    NextRegSteps(outer, fs0, fs, e);
    VarsShape(outer, fs0, fs, e);
    VarsMeans(cmp, outer, fs0, n, fs, e, src, pc, R);
    var d, g := DischargeVars(e), ReserveReg(fs).value;
    ReserveShape(outer, fs0, fs, d);
    assert fs.freereg < MAXREGS && n <= MAXREGS;
    hide *;
    ReservedMeans(cmp, Run0(cmp, outer, fs0, pc, R), n, outer, fs, g, d, src, pc, R);
    ExpToRegMeans(cmp, outer, fs0, n, g, d, src, fs.freereg, pc, R);
  }

  // Reserving a register does not change what the code means.
  lemma ReservedMeans(cmp: Compare, o0: Outcome, n: nat, outer: set<nat>, fs: FS, g: FS, d: Exp, src: Expr, pc: nat,
      R: Regs)
    requires KindShape(fs, d.k) && g == fs.(freereg := g.freereg, maxstack := g.maxstack)
    requires Means(cmp, o0, n, NO_REG, fs, d, src, Run(cmp, outer, fs, d, pc, R))
    ensures KindShape(g, d.k) && Means(cmp, o0, n, NO_REG, g, d, src, Run(cmp, outer, g, d, pc, R))
  {
    hide Exec, Elems, Eval, AgreeBut, ExitOk, Operand;
  }

  // ---------- operands of comparisons ----------

  ghost predicate RKOk(cmp: Compare, o0: Outcome, n: nat, rk: RK, src: Expr, o: Outcome) {
    match o0
    case Stuck => true
    case Exit(_, _) => o == o0
    case Fall(R1) => o.Fall? && AgreeBut(R1, o.R, n, NO_REG) && Operand(o.R, rk) == Eval(cmp, src, R1)
  }

  // A constant, a local, or the next register.
  ghost predicate RKShape(fs: FS, fs1: FS, e1: Exp, rk: RK) {
    match rk
    case Const(_) => fs1 == fs && e1.k.VK?
    case Reg(r) =>
      && e1.k == VNonReloc(r)
      && if r < fs.nactvar then fs1 == fs else
         r == fs.freereg && fs1.freereg == r + 1 && fs1.nactvar == fs.nactvar
         && !Mergeable(fs1)
  }

  // Is the value of e where a comparison can take it?
  predicate Direct(e: Exp) { !HasJumps(e) && !e.k.VReloc? && !e.k.VJmp? }

  // The operand a direct value of kind k becomes, and its new kind.
  predicate DirectRK(k: Kind, k1: Kind, rk: RK) {
    match k
    case VNil => rk == Const(Nil) && k1.VK?
    case VTrue => rk == Const(Bool(true)) && k1.VK?
    case VFalse => rk == Const(Bool(false)) && k1.VK?
    case VK(v) => rk == Const(v) && k1.VK?
    case VNonReloc(r) => rk == Reg(r) && k1 == k
    case VLocal(r) => rk == Reg(r) && k1 == VNonReloc(r)
    case _ => true
  }

  lemma RKDirect(fs: FS, e: Exp)
    requires Direct(e)
    ensures ExpToRK(fs, e).Ok?
    ensures var (fs1, e1, rk) := ExpToRK(fs, e).value;
            fs1 == fs && DirectRK(e.k, e1.k, rk)
  {
    hide ExpToNextReg, ExpToReg;
  }

  lemma RKIndirect(fs: FS, e: Exp)
    requires !Direct(e) && ExpToRK(fs, e).Ok? && (e.k.VNonReloc? || e.k.VLocal? ==> e.k.r < fs.nactvar)
    requires ExpToNextReg(fs, e).Ok? ==> ExpToNextReg(fs, e).value.1 == Exp(VNonReloc(fs.freereg), [], [])
    ensures ExpToNextReg(fs, e).Ok? && ExpToRK(fs, e).value == (ExpToNextReg(fs, e).value.0,
            ExpToNextReg(fs, e).value.1, Reg(fs.freereg))
  {
    hide ExpToReg, ReserveReg, FreeReg;
    var d := DischargeVars(e);
    assert ExpToNextReg(fs, d) == ExpToNextReg(fs, e);
    hide ExpToNextReg;
    assert ExpToAnyReg(fs, d) == ExpToNextReg(fs, e);
    assert ExpToAnyReg(fs, e) == ExpToNextReg(fs, e);
    if ExpToNextReg(fs, e).Ok? {
      var (g, x) := ExpToNextReg(fs, e).value;
      assert ExpToAnyReg(g, x) == Ok((g, x));
    }
  }

  lemma RKSteps(outer: set<nat>, fs0: FS, fs: FS, e: Exp)
    requires Shape(outer, fs0, fs, e) && ExpToRK(fs, e).Ok?
    ensures var (fs1, e1, rk) := ExpToRK(fs, e).value;
            if Direct(e) then
              fs1 == fs && DirectRK(e.k, e1.k, rk)
            else ExpToNextReg(fs, e).Ok? && (fs1, e1) == ExpToNextReg(fs, e).value && rk == Reg(fs.freereg)
  {
    hide ExpToNextReg, ExpToRK, Elems, Pending, Distinct;
    if Direct(e) {
      RKDirect(fs, e);
    } else {
      if ExpToNextReg(fs, e).Ok? { NextRegShape(outer, fs0, fs, e); }
      RKIndirect(fs, e);
    }
  }

  lemma RKShapeHolds(outer: set<nat>, fs0: FS, fs: FS, e: Exp)
    requires Shape(outer, fs0, fs, e) && ExpToRK(fs, e).Ok?
    ensures var (fs1, e1, rk) := ExpToRK(fs, e).value;
            && RKShape(fs, fs1, e1, rk) && Sound(outer, {}, fs1) && SameTests(outer, fs0.code, fs1.code)
            && fs1.nactvar == fs.nactvar && |fs.code| <= |fs1.code|
            && (Mergeable(fs1) ==> Mergeable(fs0) && fs1.code == fs0.code && fs1.jpc == fs0.jpc)
  {
    RKSteps(outer, fs0, fs, e);
    NoElems();
    hide ExpToRK, Elems, Pending, Distinct;
    if Direct(e) {
      assert Own(e) == {};
    } else {
      NextRegShape(outer, fs0, fs, e);
    }
  }

  lemma RKMeans(cmp: Compare, outer: set<nat>, fs0: FS, n: nat, fs: FS, e: Exp, src: Expr, pc: nat, R: Regs)
    requires Shape(outer, fs0, fs, e) && ExpToRK(fs, e).Ok? && n <= fs.freereg
    requires Entry(outer, fs0, pc) && GoodRegs(Run0(cmp, outer, fs0, pc, R))
    requires Means(cmp, Run0(cmp, outer, fs0, pc, R), n, NO_REG, fs, e, src, Run(cmp, outer, fs, e, pc, R))
    ensures var (fs1, e1, rk) := ExpToRK(fs, e).value;
            RKOk(cmp, Run0(cmp, outer, fs0, pc, R), n, rk, src, Exec(cmp, Prog(fs1.code, outer, Elems(fs1.jpc)), pc, R))
  {
    RKSteps(outer, fs0, fs, e);
    hide ExpToRK, Exec, Pending, Distinct, Sound, SameTests, Mergeable, Eval;
    if Direct(e) {
      NoElems();
      assert outer + Own(e) == outer;
    } else {
      NextRegMeans(cmp, outer, fs0, n, fs, e, src, pc, R);
      FreshReg(n, fs.freereg);
      hide Elems, AgreeBut;
    }
  }

  // ---------- comparisons ----------

  lemma FreeExpsBack(fs1: FS, fs2: FS, y1: Exp, rk1: RK, fs3: FS, fs4: FS, y2: Exp, rk2: RK)
    requires RKShape(fs1, fs2, y1, rk1) && RKShape(fs3, fs4, y2, rk2)
    requires fs3.freereg == fs2.freereg && fs3.nactvar == fs2.nactvar && fs1.nactvar <= fs1.freereg
    ensures FreeExps(fs4, y1, y2) == fs4.(freereg := fs1.freereg)
  {
  }

  // The test a comparison compiles to.
  function CompTest(op: CompareOp, rk1: RK, rk2: RK): Instr {
    if op == OpGt || op == OpGe then Cmp(Opcode(op), true, rk2, rk1) else Cmp(Opcode(op), op != OpNe, rk1, rk2)
  }

  lemma CompTestMeans(cmp: Compare, op: CompareOp, rk1: RK, rk2: RK, R: Regs)
    ensures var i := CompTest(op, rk1, rk2);
            (cmp(i.op, Operand(R, i.x), Operand(R, i.y)) == i.want) ==
              Comparison(cmp, op, Operand(R, rk1), Operand(R, rk2))
  {
  }

  lemma CompEmitted(outer: set<nat>, fs0: FS, g: FS, test: Instr)
    requires Sound(outer, {}, g) && SameTests(outer, fs0.code, g.code) && |fs0.code| <= |g.code|
             && g.nactvar == fs0.nactvar
    requires test.Cmp? && CondJump(g, test).Ok?
    ensures var (fs1, j) := CondJump(g, test).value; var e := Exp(VJmp(j), [], []);
            && Shape(outer, fs0, fs1, e) && fs1.freereg == g.freereg && fs1.code[j - 1] == test
            && DischargeJpc(g).Ok? && Body(fs1, e) == DischargeJpc(g).value.code && fs1.jpc == []
  {
    NoElems();
    hide Elems, Distinct;
    CondJumpSound(outer, {}, g, test);
    var (fs1, j) := CondJump(g, test).value;
    DischargeFacts(g, outer);
    SameTestsPart(outer, {}, g.code, fs1.code);
    SameTestsTrans(outer, fs0.code, g.code, fs1.code);
    assert fs1.code == DischargeJpc(g).value.code + [test, Jmp(0, NO_JUMP)];
    assert {} + {j} == {j};
  }

  // How a comparison goes: both operands are where the test finds them.
  ghost predicate Operands(cmp: Compare, o0: Outcome, n: nat, rk1: RK, rk2: RK, e1: Expr, e2: Expr, o: Outcome) {
    match o0
    case Stuck => true
    case Exit(_, _) => o == o0
    case Fall(R1) =>
      o.Fall? && AgreeBut(R1, o.R, n, NO_REG) && Operand(o.R, rk1) == Eval(cmp, e1, R1)
        && Operand(o.R, rk2) == Eval(cmp, e2, R1)
  }

  lemma OperandsMeet(cmp: Compare, o0: Outcome, o2: Outcome, o4: Outcome, n: nat, n2: nat, rk1: RK, rk2: RK, e1: Expr,
      e2: Expr, nactvar: nat)
    requires RKOk(cmp, o0, n, rk1, e1, o2) && RKOk(cmp, o2, n2, rk2, e2, o4) && Closed(e2, nactvar)
    requires nactvar <= n <= n2 <= MAXREGS && (rk1.Reg? ==> rk1.r < n2)
    ensures Operands(cmp, o0, n, rk1, rk2, e1, e2, o4)
  {
    match o0
    case Fall(R1) => EvalAgrees(cmp, e2, R1, o2.R, nactvar);
    case _ =>
  }

  lemma CompMeans(cmp: Compare, o0: Outcome, outer: set<nat>, fs0: FS, n: nat, g: FS, op: CompareOp, rk1: RK, rk2: RK,
      e1: Expr, e2: Expr, pc: nat, R: Regs)
    requires Sound(outer, {}, g) && SameTests(outer, fs0.code, g.code) && |fs0.code| <= |g.code|
             && g.nactvar == fs0.nactvar
    requires CondJump(g, CompTest(op, rk1, rk2)).Ok?
    requires Operands(cmp, o0, n, rk1, rk2, e1, e2, Exec(cmp, Prog(g.code, outer, Elems(g.jpc)), pc, R))
    ensures var (fs1, j) := CondJump(g, CompTest(op, rk1, rk2)).value; var e := Exp(VJmp(j), [], []);
            && KindShape(fs1, e.k)
            && Means(cmp, o0, n, NO_REG, fs1, e, ECompare(op, e1, e2), Run(cmp, outer, fs1, e, pc, R))
  {
    var test := CompTest(op, rk1, rk2);
    CompEmitted(outer, fs0, g, test);
    DischargeExec(cmp, g, outer, pc, R);
    NoElems();
    var (fs1, j) := CondJump(g, test).value;
    assert outer + Own(Exp(VJmp(j), [], [])) == outer;
    assert KindShape(fs1, VJmp(j)) by { hide Elems, Distinct, Pending, CondJump, Sound, SameTests; }
    var o := Exec(cmp, Prog(g.code, outer, Elems(g.jpc)), pc, R);
    assert Run(cmp, outer, fs1, Exp(VJmp(j), [], []), pc, R) == o by {
      hide Exec, Elems, Distinct, Pending, CondJump, Sound, SameTests;
    }
    hide *;
    CompResult(cmp, o0, n, op, rk1, rk2, e1, e2, fs1, j, o);
  }

  lemma CompResult(cmp: Compare, o0: Outcome, n: nat, op: CompareOp, rk1: RK, rk2: RK, e1: Expr, e2: Expr, fs1: FS,
      j: nat, o: Outcome)
    requires KindShape(fs1, VJmp(j)) && fs1.code[j - 1] == CompTest(op, rk1, rk2)
             && Operands(cmp, o0, n, rk1, rk2, e1, e2, o)
    ensures Means(cmp, o0, n, NO_REG, fs1, Exp(VJmp(j), [], []), ECompare(op, e1, e2), o)
  {
    hide AgreeBut, Operand, Comparison, Elems, Pending, CompTest;
    if o.Fall? { CompTestMeans(cmp, op, rk1, rk2, o.R); }
  }

  // ---------- and, or ----------

  // The lists of the first operand join those of the second.
  function Joined(x: Exp, y: Exp, cond: bool): Exp {
    if cond then DischargeVars(x).(t := x.t + y.t) else DischargeVars(x).(f := x.f + y.f)
  }

  lemma JoinedShape(outer: set<nat>, fs0: FS, fs2: FS, y: Exp, fs3: FS, x: Exp, cond: bool)
    requires Branching(outer, fs0, fs2, y) && !Mergeable(fs2) && (if cond then y.f else y.t) == []
    requires Shape(outer + Own(y), fs2, fs3, x)
    ensures Shape(outer, fs0, fs3, Joined(x, y, cond)) && Own(Joined(x, y, cond)) == Own(x) + Own(y)
  {
    var d := Joined(x, y, cond);
    JoinedLists(x, y, cond);
    SameTestsPart(outer, Own(y), fs2.code, fs3.code);
    SameTestsTrans(outer, fs0.code, fs2.code, fs3.code);
    PendingPart(fs3.code, outer, Own(y));
    PendingUnion(fs3.code, Own(x), Own(y));
    assert Sound(outer, Own(d), fs3) by { hide Elems, Pending, Distinct; }
    assert KindShape(fs3, d.k);
    hide Elems, Pending, Distinct, Sound, SameTests, Own;
  }

  lemma JoinedLists(x: Exp, y: Exp, cond: bool)
    requires Distinct(x.t) && Distinct(x.f) && Elems(x.t) !! Elems(x.f) && Distinct(y.t) && Distinct(y.f)
    requires Own(x) !! Own(y) && (if cond then y.f else y.t) == []
    ensures var d := Joined(x, y, cond);
            Own(d) == Own(x) + Own(y) && Distinct(d.t) && Distinct(d.f) && Elems(d.t) !! Elems(d.f)
  {
    ElemsAppend(x.t, y.t);
    ElemsAppend(x.f, y.f);
    NoElems();
    assert forall m :: 0 <= m < |x.t| ==> x.t[m] in Own(x);
    assert forall m :: 0 <= m < |x.f| ==> x.f[m] in Own(x);
    assert forall m :: 0 <= m < |y.t| ==> y.t[m] in Own(y);
    assert forall m :: 0 <= m < |y.f| ==> y.f[m] in Own(y);
    hide Elems;
  }

  lemma PendingPart(code: seq<Instr>, a: set<nat>, b: set<nat>)
    requires Pending(code, a + b)
    ensures Pending(code, a) && Pending(code, b)
  {
    assert forall j :: j in a || j in b ==> j in a + b;
  }

  // The second operand is reached exactly when the first does not decide.
  lemma JoinedMeans(cmp: Compare, o0: Outcome, o2: Outcome, o3: Outcome, outer: set<nat>, n: nat, fs2: FS, y: Exp,
      fs3: FS, x: Exp, cond: bool,
                    e1: Expr, e2: Expr, nactvar: nat)
    requires Branch(cmp, o0, n, cond, fs2.code, y, e1, o2) && (if cond then y.f else y.t) == []
    requires KindShape(fs3, x.k) && Means(cmp, o2, n, NO_REG, fs3, x, e2, o3)
    requires SameTests(Own(y), fs2.code, fs3.code) && Own(x) !! Own(y) && Elems(x.t) !! Elems(x.f)
    requires Closed(e2, nactvar) && nactvar <= n <= MAXREGS
    ensures KindShape(fs3, Joined(x, y, cond).k)
    ensures Means(cmp, o0, n, NO_REG, fs3, Joined(x, y, cond), if cond then EOr(e1, e2) else EAnd(e1, e2), o3)
  {
    var d := Joined(x, y, cond);
    ElemsAppend(x.t, y.t);
    ElemsAppend(x.f, y.f);
    NoElems();
    hide Elems, Distinct;
    match o0
    case Fall(R1) =>
      match o2 {
        case Fall(R2) => EvalAgrees(cmp, e2, R1, R2, nactvar);
        case Exit(j, R2) => assert j in Own(y);
      }
    case _ =>
  }

  // ---------- whole expressions ----------

  // The two operands of src = e1 and e2, or e1 or e2.
  predicate IsJoin(src: Expr, e1: Expr, e2: Expr, cond: bool) { src == if cond then EOr(e1, e2) else EAnd(e1, e2) }

  lemma JoinSteps(fs0: FS, src: Expr, e1: Expr, e2: Expr, cond: bool)
    requires IsJoin(src, e1, e2, cond) && Compile(fs0, src).Ok?
    ensures Compile(fs0, e1).Ok? && GoIf(Compile(fs0, e1).value.0, Compile(fs0, e1).value.1, cond).Ok?
    ensures var (fs2, y) := GoIf(Compile(fs0, e1).value.0, Compile(fs0, e1).value.1, cond).value;
            Compile(fs2, e2).Ok? && Compile(fs0, src).value == (Compile(fs2, e2).value.0,
              Joined(Compile(fs2, e2).value.1, y, cond))
  {
    hide GoIfTrue, GoIfFalse;
  }

  lemma CompSteps(fs0: FS, op: CompareOp, e1: Expr, e2: Expr)
    requires Compile(fs0, ECompare(op, e1, e2)).Ok?
    ensures Compile(fs0, e1).Ok? && ExpToRK(Compile(fs0, e1).value.0, Compile(fs0, e1).value.1).Ok?
    ensures var (fs2, y1, rk1) := ExpToRK(Compile(fs0, e1).value.0, Compile(fs0, e1).value.1).value;
            Compile(fs2, e2).Ok? && ExpToRK(Compile(fs2, e2).value.0, Compile(fs2, e2).value.1).Ok? &&
            var (fs4, y2, rk2) := ExpToRK(Compile(fs2, e2).value.0, Compile(fs2, e2).value.1).value;
            var g := FreeExps(fs4, y1, y2);
            CondJump(g, CompTest(op, rk1, rk2)).Ok? &&
            var (fs5, j) := CondJump(g, CompTest(op, rk1, rk2)).value;
            Compile(fs0, ECompare(op, e1, e2)).value == (fs5, Exp(VJmp(j), [], []))
  {
    hide ExpToRK, FreeExps, CondJump;
  }

  lemma {:induction false} CompileShape(outer: set<nat>, fs0: FS, src: Expr)
    requires Sound(outer, {}, fs0) && Closed(src, fs0.nactvar) && Compile(fs0, src).Ok?
    ensures var (fs, e) := Compile(fs0, src).value; Shape(outer, fs0, fs, e) && fs.freereg == fs0.freereg
    decreases src, 1
  {
    match src
    case ENot(e1) =>
      CompileShape(outer, fs0, e1);
      var (fs1, x) := Compile(fs0, e1).value;
      CodeNotShape(outer, fs0, fs1, x);
    case EAnd(e1, e2) => var _, _, _, _ := JoinShape(outer, fs0, src, e1, e2, false);
    case EOr(e1, e2) => var _, _, _, _ := JoinShape(outer, fs0, src, e1, e2, true);
    case ECompare(op, e1, e2) => var _, _, _, _, _, _, _, _, _, _ := CompShape(outer, fs0, op, e1, e2);
    case _ => NoElems();
  }

  lemma {:induction false} JoinShape(outer: set<nat>, fs0: FS, src: Expr, e1: Expr, e2: Expr, cond: bool)
    returns (fs2: FS, y: Exp, fs3: FS, x2: Exp)
    requires Sound(outer, {}, fs0) && Closed(src, fs0.nactvar) && IsJoin(src, e1, e2, cond) && Compile(fs0, src).Ok?
    ensures Compile(fs0, e1).Ok? && Shape(outer, fs0, Compile(fs0, e1).value.0, Compile(fs0, e1).value.1)
    ensures Compile(fs0, e1).value.0.freereg == fs0.freereg
    ensures GoIf(Compile(fs0, e1).value.0, Compile(fs0, e1).value.1, cond) == Ok((fs2, y))
    ensures Branching(outer, fs0, fs2, y) && !Mergeable(fs2) && (if cond then y.f else y.t) == []
            && fs2.freereg == fs0.freereg
    ensures Compile(fs2, e2) == Ok((fs3, x2)) && Sound(outer + Own(y), {}, fs2) && Shape(outer + Own(y), fs2, fs3, x2)
    ensures Compile(fs0, src) == Ok((fs3, Joined(x2, y, cond))) && Shape(outer, fs0, fs3, Joined(x2, y, cond))
    ensures Own(Joined(x2, y, cond)) == Own(x2) + Own(y) && fs3.freereg == fs0.freereg
    decreases src, 0
  {
    JoinSteps(fs0, src, e1, e2, cond);
    assert Closed(e1, fs0.nactvar) && Closed(e2, fs0.nactvar);
    hide GoIf, Compile, Elems, Distinct, Joined;
    CompileShape(outer, fs0, e1);
    var (fs1, x1) := Compile(fs0, e1).value;
    GoIfShape(outer, fs0, fs1, x1, cond);
    var (g, z) := GoIf(fs1, x1, cond).value;
    fs2, y := g, z;
    PendingUnion(fs2.code, outer, Own(y));
    NoElems();
    CompileShape(outer + Own(y), fs2, e2);
    var (h, x) := Compile(fs2, e2).value;
    fs3, x2 := h, x;
    JoinedShape(outer, fs0, fs2, y, fs3, x2, cond);
  }

  // The state after the first operand, as a base for the second.
  ghost predicate FirstOperand(outer: set<nat>, fs0: FS, fs1: FS, x1: Exp, fs2: FS, y1: Exp, rk1: RK) {
    && Shape(outer, fs0, fs1, x1) && fs1.freereg == fs0.freereg && RKShape(fs1, fs2, y1, rk1) && Sound(outer, {}, fs2)
    && SameTests(outer, fs0.code, fs2.code) && fs2.freereg >= fs0.freereg && fs2.nactvar == fs0.nactvar
       && |fs0.code| <= |fs2.code|
    && (Mergeable(fs2) ==> Mergeable(fs0) && fs2.code == fs0.code && fs2.jpc == fs0.jpc)
  }

  lemma FirstOperandReg(outer: set<nat>, fs0: FS, fs1: FS, x1: Exp, fs2: FS, y1: Exp, rk1: RK)
    requires FirstOperand(outer, fs0, fs1, x1, fs2, y1, rk1)
    ensures rk1.Reg? ==> rk1.r < fs2.freereg
    ensures forall pc :: Entry(outer, fs0, pc) ==> Entry(outer, fs2, pc)
  {
  }

  // The states between the operands of a comparison.
  lemma {:induction false} CompShape(outer: set<nat>, fs0: FS, op: CompareOp, e1: Expr, e2: Expr)
    returns (fs1: FS, x1: Exp, fs2: FS, y1: Exp, rk1: RK, fs3: FS, x2: Exp, fs4: FS, y2: Exp, rk2: RK)
    requires Sound(outer, {}, fs0) && Closed(e1, fs0.nactvar) && Closed(e2, fs0.nactvar)
             && Compile(fs0, ECompare(op, e1, e2)).Ok?
    ensures Compile(fs0, e1) == Ok((fs1, x1)) && ExpToRK(fs1, x1) == Ok((fs2, y1, rk1))
            && FirstOperand(outer, fs0, fs1, x1, fs2, y1, rk1)
    ensures Compile(fs2, e2) == Ok((fs3, x2)) && ExpToRK(fs3, x2) == Ok((fs4, y2, rk2)) && Shape(outer, fs2, fs3, x2)
    ensures fs3.freereg == fs2.freereg
    ensures var g := fs4.(freereg := fs0.freereg); var cj := CondJump(g, CompTest(op, rk1, rk2));
            && Sound(outer, {}, g) && SameTests(outer, fs0.code, g.code) && |fs0.code| <= |g.code|
               && g.nactvar == fs0.nactvar
            && cj.Ok? && Compile(fs0, ECompare(op, e1, e2)) == Ok((cj.value.0, Exp(VJmp(cj.value.1), [], [])))
            && Shape(outer, fs0, cj.value.0, Exp(VJmp(cj.value.1), [], [])) && cj.value.0.freereg == fs0.freereg
    decreases ECompare(op, e1, e2), 0
  {
    CompSteps(fs0, op, e1, e2);
    CompileShape(outer, fs0, e1);
    var (a1, b1) := Compile(fs0, e1).value;
    fs1, x1 := a1, b1;
    var (a2, b2, c2) := ExpToRK(fs1, x1).value;
    fs2, y1, rk1 := a2, b2, c2;
    hide *;
    FirstOperandShape(outer, fs0, fs1, x1, fs2, y1, rk1);
    CompileShape(outer, fs2, e2);
    var (a3, b3) := Compile(fs2, e2).value;
    fs3, x2 := a3, b3;
    var (a4, b4, c4) := ExpToRK(fs3, x2).value;
    fs4, y2, rk2 := a4, b4, c4;
    SecondOperandShape(outer, fs0, fs1, x1, fs2, y1, rk1, fs3, x2, fs4, y2, rk2);
    CompEmitted(outer, fs0, fs4.(freereg := fs0.freereg), CompTest(op, rk1, rk2));
  }

  lemma FirstOperandShape(outer: set<nat>, fs0: FS, fs1: FS, x1: Exp, fs2: FS, y1: Exp, rk1: RK)
    requires Sound(outer, {}, fs0) && Shape(outer, fs0, fs1, x1) && fs1.freereg == fs0.freereg
             && ExpToRK(fs1, x1) == Ok((fs2, y1, rk1))
    ensures FirstOperand(outer, fs0, fs1, x1, fs2, y1, rk1) && Sound(outer, {}, fs2) && fs2.nactvar == fs0.nactvar
  {
    hide ExpToRK, Elems, Distinct, Pending, SameTests;
    RKShapeHolds(outer, fs0, fs1, x1);
  }

  lemma SecondOperandShape(outer: set<nat>, fs0: FS, fs1: FS, x1: Exp, fs2: FS, y1: Exp, rk1: RK, fs3: FS, x2: Exp,
      fs4: FS, y2: Exp, rk2: RK)
    requires FirstOperand(outer, fs0, fs1, x1, fs2, y1, rk1) && Sound(outer, {}, fs0)
    requires Shape(outer, fs2, fs3, x2) && fs3.freereg == fs2.freereg && ExpToRK(fs3, x2) == Ok((fs4, y2, rk2))
    ensures var g := fs4.(freereg := fs0.freereg);
            && FreeExps(fs4, y1, y2) == g && Sound(outer, {}, g) && SameTests(outer, fs0.code, g.code)
            && |fs0.code| <= |g.code| && g.nactvar == fs0.nactvar
  {
    hide ExpToRK, Elems, Distinct, Pending;
    RKShapeHolds(outer, fs2, fs3, x2);
    SameTestsTrans(outer, fs0.code, fs2.code, fs4.code);
    hide SameTests;
    assert fs1.nactvar == fs0.nactvar && fs3.nactvar == fs2.nactvar && fs0.nactvar <= fs0.freereg;
    FreeExpsBack(fs1, fs2, y1, rk1, fs3, fs4, y2, rk2);
    hide FreeExps;
  }

  // The compiled expression means the source expression: wherever the code
  // before it falls through, the code after it either falls through with the
  // value where its kind says, or leaves by a jump that tells the truth.
  lemma {:induction false} CompileMeans(cmp: Compare, outer: set<nat>, fs0: FS, src: Expr, pc: nat, R: Regs)
    requires Sound(outer, {}, fs0) && Closed(src, fs0.nactvar) && Compile(fs0, src).Ok?
    requires Entry(outer, fs0, pc) && GoodRegs(Run0(cmp, outer, fs0, pc, R))
    ensures var (fs, e) := Compile(fs0, src).value;
            && KindShape(fs, e.k)
            && Means(cmp, Run0(cmp, outer, fs0, pc, R), fs0.freereg, NO_REG, fs, e, src, Run(cmp, outer, fs, e, pc, R))
    decreases src, 1
  {
    match src
    case ENot(e1) =>
      CompileShape(outer, fs0, e1);
      CompileMeans(cmp, outer, fs0, e1, pc, R);
      var (fs1, x) := Compile(fs0, e1).value;
      hide CodeNot, Means, Exec;
      CodeNotMeans(cmp, outer, fs0, fs0.freereg, fs1, x, e1, pc, R);
    case EAnd(e1, e2) => JoinMeans(cmp, outer, fs0, src, e1, e2, false, pc, R);
    case EOr(e1, e2) => JoinMeans(cmp, outer, fs0, src, e1, e2, true, pc, R);
    case ECompare(op, e1, e2) => ComparisonMeans(cmp, outer, fs0, op, e1, e2, pc, R);
    case _ =>
      NoElems();
      assert outer + ({} + {}) == outer;
      hide Exec, Elems;
  }

  lemma {:induction false} JoinMeans(cmp: Compare, outer: set<nat>, fs0: FS, src: Expr, e1: Expr, e2: Expr, cond: bool,
      pc: nat, R: Regs)
    requires Sound(outer, {}, fs0) && Closed(src, fs0.nactvar) && IsJoin(src, e1, e2, cond) && Compile(fs0, src).Ok?
    requires Entry(outer, fs0, pc) && GoodRegs(Run0(cmp, outer, fs0, pc, R))
    ensures var (fs, e) := Compile(fs0, src).value;
            && KindShape(fs, e.k)
            && Means(cmp, Run0(cmp, outer, fs0, pc, R), fs0.freereg, NO_REG, fs, e, src, Run(cmp, outer, fs, e, pc, R))
    decreases src, 0
  {
    var n := fs0.freereg;
    var fs2, y, fs3, x2 := JoinShape(outer, fs0, src, e1, e2, cond);
    var (fs1, x1) := Compile(fs0, e1).value;
    var o0 := Run0(cmp, outer, fs0, pc, R);
    var d := Joined(x2, y, cond);
    assert Closed(e1, fs0.nactvar) && Closed(e2, fs2.nactvar) && |fs0.code| <= |fs2.code|;
    if !o0.Stuck? {
      CompileMeans(cmp, outer, fs0, e1, pc, R);
      JoinEnds(cmp, outer, fs2, fs3, x2, y, cond, pc, R);
      assert Entry(outer + Own(y), fs2, pc) && fs0.nactvar <= n <= MAXREGS;
      assert Own(x2) !! Own(y) && Elems(x2.t) !! Elems(x2.f);
      assert Run0(cmp, outer + Own(y), fs2, pc, R) == Exec(cmp, Prog(fs2.code, outer + Own(y), Elems(fs2.jpc)), pc, R);
      hide *;
      GoIfMeans(cmp, outer, fs0, n, fs1, x1, e1, cond, pc, R);
      var o2 := Exec(cmp, Prog(fs2.code, outer + Own(y), Elems(fs2.jpc)), pc, R);
      var o3 := Exec(cmp, Prog(Body(fs3, x2), outer + Own(y) + Own(x2), Elems(fs3.jpc)), pc, R);
      BranchRegs(cmp, o0, n, cond, fs2.code, y, e1, o2);
      CompileMeans(cmp, outer + Own(y), fs2, e2, pc, R);
      JoinedMeans(cmp, o0, o2, o3, outer, n, fs2, y, fs3, x2, cond, e1, e2, fs0.nactvar);
    } else {
      hide Exec, Compile, Elems, Shape;
    }
  }

  lemma JoinEnds(cmp: Compare, outer: set<nat>, fs2: FS, fs3: FS, x: Exp, y: Exp, cond: bool, pc: nat, R: Regs)
    requires Shape(outer + Own(y), fs2, fs3, x) && Own(Joined(x, y, cond)) == Own(x) + Own(y)
    ensures SameTests(Own(y), fs2.code, fs3.code) && KindShape(fs3, Joined(x, y, cond).k)
    ensures var o3 := Exec(cmp, Prog(Body(fs3, x), outer + Own(y) + Own(x), Elems(fs3.jpc)), pc, R);
            Run(cmp, outer + Own(y), fs3, x, pc, R) == o3 && Run(cmp, outer, fs3, Joined(x, y, cond), pc, R) == o3
  {
    SameTestsPart(outer, Own(y), fs2.code, fs3.code);
    hide Exec, Own, Elems;
    assert outer + Own(y) + Own(x) == outer + (Own(x) + Own(y));
  }

  lemma BranchRegs(cmp: Compare, o0: Outcome, n: nat, cond: bool, code: seq<Instr>, y: Exp, src: Expr, o: Outcome)
    requires Branch(cmp, o0, n, cond, code, y, src, o) && !o0.Stuck? && GoodRegs(o0)
    ensures GoodRegs(o)
  {
  }

  lemma {:induction false} ComparisonMeans(cmp: Compare, outer: set<nat>, fs0: FS, op: CompareOp, e1: Expr, e2: Expr,
      pc: nat, R: Regs)
    requires Sound(outer, {}, fs0) && Closed(e1, fs0.nactvar) && Closed(e2, fs0.nactvar)
             && Compile(fs0, ECompare(op, e1, e2)).Ok?
    requires Entry(outer, fs0, pc) && GoodRegs(Run0(cmp, outer, fs0, pc, R))
    ensures var (fs, e) := Compile(fs0, ECompare(op, e1, e2)).value;
            && KindShape(fs, e.k)
            && Means(cmp, Run0(cmp, outer, fs0, pc, R), fs0.freereg, NO_REG, fs, e, ECompare(op, e1, e2),
               Run(cmp, outer, fs, e, pc, R))
    decreases ECompare(op, e1, e2), 0
  {
    var n, o0 := fs0.freereg, Run0(cmp, outer, fs0, pc, R);
    var fs1, x1, fs2, y1, rk1, fs3, x2, fs4, y2, rk2 := CompShape(outer, fs0, op, e1, e2);
    FirstOperandReg(outer, fs0, fs1, x1, fs2, y1, rk1);
    assert Closed(e2, fs2.nactvar) && fs2.freereg <= MAXREGS && n <= fs1.freereg && fs0.nactvar <= n;
    var o2 := Run0(cmp, outer, fs2, pc, R);
    var o4 := Exec(cmp, Prog(fs4.code, outer, Elems(fs4.jpc)), pc, R);
    if !o0.Stuck? {
      CompileMeans(cmp, outer, fs0, e1, pc, R);
      hide *;
      FirstOperandMeans(cmp, outer, fs0, fs1, x1, fs2, y1, rk1, e1, pc, R);
      CompileMeans(cmp, outer, fs2, e2, pc, R);
      RKMeans(cmp, outer, fs2, fs2.freereg, fs3, x2, e2, pc, R);
      OperandsMeet(cmp, o0, o2, o4, n, fs2.freereg, rk1, rk2, e1, e2, fs0.nactvar);
      CompMeans(cmp, o0, outer, fs0, n, fs4.(freereg := n), op, rk1, rk2, e1, e2, pc, R);
    } else {
      hide Exec, Compile, Elems, Shape;
    }
  }

  lemma FirstOperandMeans(cmp: Compare, outer: set<nat>, fs0: FS, fs1: FS, x1: Exp, fs2: FS, y1: Exp, rk1: RK,
      e1: Expr, pc: nat, R: Regs)
    requires FirstOperand(outer, fs0, fs1, x1, fs2, y1, rk1) && ExpToRK(fs1, x1) == Ok((fs2, y1, rk1))
    requires Entry(outer, fs0, pc) && GoodRegs(Run0(cmp, outer, fs0, pc, R)) && Run0(cmp, outer, fs0, pc, R) != Stuck
    requires KindShape(fs1, x1.k)
    requires Means(cmp, Run0(cmp, outer, fs0, pc, R), fs0.freereg, NO_REG, fs1, x1, e1, Run(cmp, outer, fs1, x1, pc, R))
    ensures var o2 := Run0(cmp, outer, fs2, pc, R);
            RKOk(cmp, Run0(cmp, outer, fs0, pc, R), fs0.freereg, rk1, e1, o2) && GoodRegs(o2)
  {
    hide ExpToRK, Exec, Means, Elems, Shape, Sound, SameTests, Eval;
    RKMeans(cmp, outer, fs0, fs0.freereg, fs1, x1, e1, pc, R);
    RKRegs(cmp, Run0(cmp, outer, fs0, pc, R), fs0.freereg, rk1, e1, Run0(cmp, outer, fs2, pc, R));
  }

  lemma RKRegs(cmp: Compare, o0: Outcome, n: nat, rk: RK, src: Expr, o: Outcome)
    requires RKOk(cmp, o0, n, rk, src, o) && !o0.Stuck? && GoodRegs(o0)
    ensures GoodRegs(o)
  {
  }

  // ---------- the main theorems ----------

  // An expression compiled into the next register (luaK_exp2nextreg after the
  // parser read it): every run that reached the end of the old code reaches the
  // end of the new code with the short-circuit value in that register, all
  // registers in use unchanged; every other run is as before.
  lemma ShortCircuitCorrect(cmp: Compare, outer: set<nat>, fs0: FS, src: Expr, pc: nat, R: Regs)
    requires Sound(outer, {}, fs0) && Closed(src, fs0.nactvar)
    requires Compile(fs0, src).Ok? && ExpToNextReg(Compile(fs0, src).value.0, Compile(fs0, src).value.1).Ok?
    requires Entry(outer, fs0, pc) && GoodRegs(Run0(cmp, outer, fs0, pc, R))
    ensures var (fs1, _) := ExpToNextReg(Compile(fs0, src).value.0, Compile(fs0, src).value.1).value;
            && Sound(outer, {}, fs1) && fs1.freereg == fs0.freereg + 1
            && Placed(cmp, Run0(cmp, outer, fs0, pc, R), fs0.freereg, fs0.freereg, src, Run0(cmp, outer, fs1, pc, R))
  {
    CompileShape(outer, fs0, src);
    CompileMeans(cmp, outer, fs0, src, pc, R);
    var (fs, e) := Compile(fs0, src).value;
    hide Compile, ExpToNextReg, Exec, Means, Elems, Distinct, Pending, Placed;
    NextRegShape(outer, fs0, fs, e);
    NextRegMeans(cmp, outer, fs0, fs0.freereg, fs, e, src, pc, R);
  }

  // An assignment to a local variable (luaK_storevar): the variable gets the
  // value the expression had before, nothing else in use changes.
  lemma AssignmentCorrect(cmp: Compare, outer: set<nat>, fs0: FS, src: Expr, target: nat, pc: nat, R: Regs)
    requires Sound(outer, {}, fs0) && Closed(src, fs0.nactvar) && target < fs0.nactvar
    requires Compile(fs0, src).Ok? && StoreLocal(Compile(fs0, src).value.0, target, Compile(fs0, src).value.1).Ok?
    requires Entry(outer, fs0, pc) && GoodRegs(Run0(cmp, outer, fs0, pc, R))
    ensures var fs1 := StoreLocal(Compile(fs0, src).value.0, target, Compile(fs0, src).value.1).value;
            && Sound(outer, {}, fs1) && fs1.freereg == fs0.freereg
            && Placed(cmp, Run0(cmp, outer, fs0, pc, R), fs0.freereg, target, src, Run0(cmp, outer, fs1, pc, R))
  {
    CompileShape(outer, fs0, src);
    CompileMeans(cmp, outer, fs0, src, pc, R);
    var (fs, e) := Compile(fs0, src).value;
    assert FreeExp(fs, e) == fs;
    hide Compile, ExpToReg, Exec, Means, Elems, Distinct, Pending, Placed;
    ExpToRegShape(outer, fs0, fs, e, target);
    ExpToRegMeans(cmp, outer, fs0, fs0.freereg, fs, e, src, target, pc, R);
  }

  // A condition (luaK_goiftrue, as if and while use it): control falls through
  // exactly when the expression is true, and otherwise leaves by the false list.
  lemma ConditionCorrect(cmp: Compare, outer: set<nat>, fs0: FS, src: Expr, pc: nat, R: Regs)
    requires Sound(outer, {}, fs0) && Closed(src, fs0.nactvar)
    requires Compile(fs0, src).Ok? && GoIfTrue(Compile(fs0, src).value.0, Compile(fs0, src).value.1).Ok?
    requires Entry(outer, fs0, pc) && GoodRegs(Run0(cmp, outer, fs0, pc, R)) && Run0(cmp, outer, fs0, pc, R).Fall?
    ensures var (fs1, y) := GoIfTrue(Compile(fs0, src).value.0, Compile(fs0, src).value.1).value;
            var R1 := Run0(cmp, outer, fs0, pc, R).R;
            var o := Run0(cmp, outer + Elems(y.f), fs1, pc, R);
            && !o.Stuck? && AgreeBut(R1, o.R, fs0.freereg, NO_REG) && y.t == []
            && (o.Fall? <==> !IsFalse(Eval(cmp, src, R1))) && (o.Exit? ==> o.j in Elems(y.f))
  {
    CompileShape(outer, fs0, src);
    CompileMeans(cmp, outer, fs0, src, pc, R);
    var (fs, e) := Compile(fs0, src).value;
    assert GoIf(fs, e, false) == GoIfTrue(fs, e);
    GoIfShape(outer, fs0, fs, e, false);
    GoIfMeans(cmp, outer, fs0, fs0.freereg, fs, e, src, false, pc, R);
    NoElems();
    var (fs1, y) := GoIfTrue(fs, e).value;
    assert Own(y) == Elems(y.f);
    hide Compile, GoIfTrue, Exec, Means, Elems, Eval, AgreeBut;
  }
}
