// What a function body may need: the limits of 3rd/lua-5.3.4/src on locals and
// registers, read off the syntax, and when exactly the generator meets them.
module LuaLimits {
  import opened LuaVM
  import opened LuaGen
  import opened LuaExec
  import opened LuaCorrect
  import opened LuaCond
  import opened LuaValue
  import opened LuaCompile
  import opened LuaBlock
  import LuaOperators

  // ---------- what an expression needs ----------

  // Where the value of an expression is once its code has run: known when
  // compiling, in a local, behind a comparison's jump, or in a NOT that has no
  // register yet.
  datatype Sort = Absent | Yes | No | Known | InLocal | AtJump | AtNot

  function SortOf(e: Expr): Sort {
    match e
    case ENil => Absent
    case ETrue => Yes
    case EFalse => No
    case EConst(_) => Known
    case ELocal(_) => InLocal
    case ENot(e1) =>
      (match SortOf(e1)
       case Absent => Yes
       case No => Yes
       case Yes => No
       case Known => No
       case AtJump => AtJump
       case _ => AtNot)
    case EAnd(_, e2) => SortOf(e2)
    case EOr(_, e2) => SortOf(e2)
    case ECompare(_, _, _) => AtJump
  }

  predicate AlwaysTrue(s: Sort) { s == Yes || s == Known }

  predicate AlwaysFalse(s: Sort) { s == No || s == Absent }

  // Can evaluation end early, with a value of the given truth?
  predicate Early(e: Expr, truth: bool) {
    match e
    case ENot(e1) => Early(e1, !truth)
    case EAnd(e1, e2) => Early(e2, truth) || (!truth && (Early(e1, false) || !AlwaysTrue(SortOf(e1))))
    case EOr(e1, e2) => Early(e2, truth) || (truth && (Early(e1, true) || !AlwaysFalse(SortOf(e1))))
    case _ => false
  }

  // Does a comparison's operand have to be computed into a register?
  predicate Computed(e: Expr) { SortOf(e) == AtJump || SortOf(e) == AtNot || Early(e, true) || Early(e, false) }

  // Testing a value needs a register only where the test is a foregone failure.
  function TestNeed(e: Expr, cond: bool): nat {
    if (if cond then AlwaysTrue(SortOf(e)) else AlwaysFalse(SortOf(e))) then 1 else 0
  }

  function Max(a: nat, b: nat): nat { if a >= b then a else b }

  // Registers above the locals that computing e takes at most.
  function Need(e: Expr): nat {
    match e
    case ENot(e1) => Max(Need(e1), if SortOf(e1) == AtNot then 1 else 0)
    case EAnd(e1, e2) => Max(Max(Need(e1), TestNeed(e1, false)), Need(e2))
    case EOr(e1, e2) => Max(Max(Need(e1), TestNeed(e1, true)), Need(e2))
    case ECompare(_, e1, e2) =>
      var held := if Computed(e1) then 1 else 0;
      Max(Max(Need(e1), held), held + Max(Need(e2), if Computed(e2) then 1 else 0))
    case _ => 0
  }

  // Instructions at most.
  function Length(e: Expr): nat {
    match e
    case ENot(e1) => Length(e1) + 2
    case EAnd(e1, e2) => Length(e1) + 3 + Length(e2)
    case EOr(e1, e2) => Length(e1) + 3 + Length(e2)
    case ECompare(_, e1, e2) => Length(e1) + 4 + Length(e2) + 4 + 2
    case _ => 0
  }

  // ---------- what a block needs ----------

  // The largest number of locals that are active at once, n being active before.
  function MostLocals(b: Block, n: nat): nat
    decreases b
  {
    match b
    case Done => n
    case Then(s, rest) => Max(LocalsIn(s, n), MostLocals(rest, n + NewLocals(s)))
  }

  function LocalsIn(s: Stmt, n: nat): nat
    decreases s
  {
    match s
    case Assign(_, _) => n
    case Local(_) => n + 1
    case LocalNil => n + 1
    case If(_, yes) => MostLocals(yes, n)
    case IfElse(_, yes, no) => Max(MostLocals(yes, n), MostLocals(no, n))
  }

  // The largest number of registers in use at once.
  function Peak(b: Block, n: nat): nat
    decreases b
  {
    match b
    case Done => n
    case Then(s, rest) => Max(PeakIn(s, n), Peak(rest, n + NewLocals(s)))
  }

  function PeakIn(s: Stmt, n: nat): nat
    decreases s
  {
    match s
    case Assign(_, e) => n + Need(e)
    case Local(e) => n + Max(Need(e), 1)
    case LocalNil => n + 1
    case If(c, yes) => Max(n + Max(Need(c), TestNeed(c, false)), Peak(yes, n))
    case IfElse(c, yes, no) => Max(Max(n + Max(Need(c), TestNeed(c, false)), Peak(yes, n)), Peak(no, n))
  }

  function BlockLength(b: Block): nat
    decreases b
  {
    match b
    case Done => 0
    case Then(s, rest) => StmtLength(s) + BlockLength(rest)
  }

  function StmtLength(s: Stmt): nat
    decreases s
  {
    match s
    case Assign(_, e) => Length(e) + 4
    case Local(e) => Length(e) + 4
    case LocalNil => 4
    case If(c, yes) => Length(c) + 3 + BlockLength(yes)
    case IfElse(c, yes, no) => Length(c) + 3 + BlockLength(yes) + 1 + BlockLength(no)
  }

  // ---------- what an operation costs ----------

  // A failure of an operation in state fs that may take regs more registers and
  // emit size instructions.
  predicate Excused<T>(fs: FS, r: Result<T>, regs: nat, size: nat) {
    && !r.TooManyLocals?
    && (r.TooManyRegisters? ==> fs.freereg + regs >= MAXREGS)
    && (r.TooLong? ==> |fs.code| + size > MAXARG_sBx)
  }

  predicate Paid(fs: FS, fs1: FS, regs: nat, size: nat) {
    fs.freereg + regs < MAXREGS && |fs1.code| <= |fs.code| + size
  }

  // What r costs a state fs.
  ghost predicate Bill<T>(fs: FS, r: Result<(FS, T)>, regs: nat, size: nat) {
    Excused(fs, r, regs, size) && (r.Ok? ==> Paid(fs, r.value.0, regs, size))
  }

  // r goes on where r1 has ended, with d registers more in use, or fails as r1
  // does.
  lemma BillThen<T, U>(fs: FS, r1: Result<(FS, T)>, r: Result<(FS, U)>, k1: nat, m1: nat, d: nat, k2: nat, m2: nat)
    requires Bill(fs, r1, k1, m1) && if r1.Ok? then r1.value.0.freereg == fs.freereg + d && Bill(r1.value.0, r, k2, m2)
             else LuaOperators.Same(r, r1)
    ensures Bill(fs, r, Max(k1, d + k2), m1 + m2)
  {
  }

  // One list.
  lemma {:induction false} PatchCost(code: seq<Instr>, list: seq<nat>, vt: nat, reg: nat, dt: nat)
    requires vt <= |code| && dt <= |code| && forall n :: 0 <= n < |list| ==> list[n] < |code|
    ensures var r := PatchListAux(code, list, vt, reg, dt);
            (r.Ok? && |r.value| == |code|) || (r.TooLong? && |code| > MAXARG_sBx)
    decreases |list|
  {
    if list != [] {
      var j := list[0];
      var r := FixJump(PatchTestReg(code, j, reg), j, if ValueJump(code, j) then vt else dt);
      if r.Ok? { PatchCost(r.value, list[1..], vt, reg, dt); }
    }
  }

  lemma PendingBelow(code: seq<Instr>, list: seq<nat>, js: set<nat>)
    requires Pending(code, js) && Elems(list) <= js
    ensures forall n :: 0 <= n < |list| ==> list[n] < |code|
  {
    forall n | 0 <= n < |list| ensures list[n] < |code| { assert list[n] in Elems(list); }
  }

  lemma CodeCost(fs: FS, i: Instr)
    requires Pending(fs.code, Elems(fs.jpc))
    ensures var r := Code(fs, i);
            if r.Ok? then |r.value.code| == |fs.code| + 1 && r.value.freereg == fs.freereg
            else r.TooLong? && |fs.code| > MAXARG_sBx
  {
    PendingBelow(fs.code, fs.jpc, Elems(fs.jpc));
    PatchCost(fs.code, fs.jpc, |fs.code|, NO_REG, |fs.code|);
  }

  // Sending the pending jumps here adds no instruction.
  lemma DischargeLength(fs: FS)
    requires Pending(fs.code, Elems(fs.jpc))
    ensures DischargeJpc(fs).Ok? ==> |DischargeJpc(fs).value.code| == |fs.code|
  {
    PendingBelow(fs.code, fs.jpc, Elems(fs.jpc));
    PatchCost(fs.code, fs.jpc, |fs.code|, NO_REG, |fs.code|);
  }

  lemma CondJumpCost(fs: FS, test: Instr)
    requires Pending(fs.code, Elems(fs.jpc))
    ensures var r := CondJump(fs, test);
            if r.Ok? then |r.value.0.code| == |fs.code| + 2 else r.TooLong? && |fs.code| > MAXARG_sBx
  {
    CodeCost(fs, test);
    hide Code;
  }

  lemma DischargeToRegCost(fs: FS, e: Exp, reg: nat)
    requires Pending(fs.code, Elems(fs.jpc))
    ensures var r := DischargeToReg(fs, e, reg);
            if r.Ok? then |r.value.0.code| <= |fs.code| + 1 else r.TooLong? && |fs.code| > MAXARG_sBx
  {
    hide Code;
    forall i
      ensures var r := Code(fs, i);
              if r.Ok? then |r.value.code| == |fs.code| + 1 else r.TooLong? && |fs.code| > MAXARG_sBx
    {
      CodeCost(fs, i);
    }
  }

  lemma AnyRegCost(fs: FS, e: Exp)
    requires Pending(fs.code, Elems(fs.jpc)) && fs.freereg <= fs.maxstack < MAXREGS && !e.k.VLocal?
    ensures var r := DischargeToAnyReg(fs, e); var regs := if e.k.VNonReloc? then 0 else 1;
            Bill(fs, r, regs, 1)
  {
    hide DischargeToReg;
    if !e.k.VNonReloc? && ReserveReg(fs).Ok? {
      var fs1 := ReserveReg(fs).value;
      DischargeToRegCost(fs1, e, fs1.freereg - 1);
    }
  }

  lemma BeforeCost(outer: set<nat>, fs0: FS, fs: FS, e: Exp, reg: nat)
    requires Shape(outer, fs0, fs, e)
    ensures var r := Before(fs, e, reg);
            if r.Ok? then |r.value.0.code| <= |fs.code| + 4 && r.value.2 <= |r.value.0.code|
              && r.value.3 <= |r.value.0.code|
            else r.TooLong? && |fs.code| > MAXARG_sBx
  {
    if e.k.VJmp? {
      CodeLoadsSteps(fs, true, reg);
    } else {
      hide DischargeToReg, CodeLoads, NeedValue;
      DischargeToRegCost(fs, e, reg);
      if DischargeToReg(fs, e, reg).Ok? { CodeLoadsSteps(DischargeToReg(fs, e, reg).value.0, false, reg); }
    }
  }

  lemma FinishCost(outer: set<nat>, g: FS, d: Exp, reg: nat, pf: nat, pt: nat)
    requires Lists(outer, Own(d), g) && pf <= |g.code| && pt <= |g.code|
    ensures var r := Finish(g, d, reg, pf, pt);
            if r.Ok? then |r.value.code| == |g.code| else r.TooLong? && |g.code| > MAXARG_sBx
  {
    PendingBelow(g.code, d.f, Own(d));
    PendingBelow(g.code, d.t, Own(d));
    hide PatchListAux;
    PatchCost(g.code, d.f, |g.code|, reg, pf);
    var code1 := PatchListAux(g.code, d.f, |g.code|, reg, pf);
    if code1.Ok? { PatchCost(code1.value, d.t, |g.code|, reg, pt); }
  }

  lemma ExpToRegCost(outer: set<nat>, fs0: FS, fs: FS, e: Exp, reg: nat)
    requires Shape(outer, fs0, fs, e)
    ensures var r := ExpToReg(fs, e, reg); Excused(fs, r, 0, 4) && (r.Ok? ==> |r.value.0.code| <= |fs.code| + 4)
  {
    ExpToRegCases(outer, fs0, fs, e, reg);
    DischargeToRegCost(fs, e, reg);
    BeforeCost(outer, fs0, fs, e, reg);
    if Before(fs, e, reg).Ok? {
      var (g, d, pf, pt) := Before(fs, e, reg).value;
      BeforeShape(outer, fs0, fs, e, reg);
      FinishCost(outer, g, d, reg, pf, pt);
    }
    hide ExpToReg, DischargeToReg, Before, Finish, Shape;
  }

  // ExpToRegSteps, failures included.
  lemma ExpToRegCases(outer: set<nat>, fs0: FS, fs: FS, e: Exp, reg: nat)
    requires Shape(outer, fs0, fs, e)
    ensures var r, d, b := ExpToReg(fs, e, reg), DischargeToReg(fs, e, reg), Before(fs, e, reg);
            if !e.k.VJmp? && !HasJumps(e) then Follow(r, d)
            else if !b.Ok? then LuaOperators.Same(r, b)
            else
              var f := Finish(b.value.0, b.value.1, reg, b.value.2, b.value.3);
              if f.Ok? then r.Ok? && r.value.0 == f.value else LuaOperators.Same(r, f)
  {
    hide PatchListAux, CodeLoads, Elems, Pending;
    if e.k.VJmp? { AsListsShape(outer, fs0, fs, e); } else if DischargeToReg(fs, e, reg).Ok? {
      DischargeToRegShape(outer, fs0, fs, e, reg);
    }
  }

  // a ends in the state in which b does, or fails as b does.
  ghost predicate Follow<T, U>(a: Result<(FS, T)>, b: Result<(FS, U)>) {
    if b.Ok? then a.Ok? && a.value.0 == b.value.0 else LuaOperators.Same(a, b)
  }

  lemma NextRegCost(outer: set<nat>, fs0: FS, fs: FS, e: Exp)
    requires Shape(outer, fs0, fs, e)
    ensures var r := ExpToNextReg(fs, e); Bill(fs, r, 1, 4)
  {
    VarsShape(outer, fs0, fs, e);
    NextRegCases(outer, fs0, fs, e);
    ReserveCost(outer, fs0, fs, e);
    var d, v := DischargeVars(e), ReserveReg(fs);
    hide *;
    if v.Ok? {
      ReserveShape(outer, fs0, fs, d);
      ExpToRegCost(outer, fs0, v.value, d, fs.freereg);
      ReservedCost(fs, v.value, ExpToReg(v.value, d, fs.freereg));
    }
  }

  lemma NextRegCases(outer: set<nat>, fs0: FS, fs: FS, e: Exp)
    requires Shape(outer, fs0, fs, e)
    ensures var r, v := ExpToNextReg(fs, e), ReserveReg(fs);
            if v.Ok? then r == ExpToReg(v.value, DischargeVars(e), fs.freereg) else r.TooManyRegisters?
  {
    hide ExpToReg;
  }

  lemma ReserveCost(outer: set<nat>, fs0: FS, fs: FS, e: Exp)
    requires Shape(outer, fs0, fs, e)
    ensures if ReserveReg(fs).Ok? then fs.freereg + 1 < MAXREGS
            else forall r: Result<(FS, Exp)> :: r.TooManyRegisters? ==> Excused(fs, r, 1, 4)
  {
  }

  lemma ReservedCost(fs: FS, fs1: FS, r: Result<(FS, Exp)>)
    requires fs1.code == fs.code && fs.freereg + 1 < MAXREGS && fs1.freereg == fs.freereg + 1
    requires Excused(fs1, r, 0, 4) && (r.Ok? ==> |r.value.0.code| <= |fs1.code| + 4)
    ensures Bill(fs, r, 1, 4)
  {
  }

  lemma RKCost(outer: set<nat>, fs0: FS, fs: FS, e: Exp)
    requires Shape(outer, fs0, fs, e)
    ensures var r := ExpToRK(fs, e); var regs, size := if Direct(e) then 0 else 1, if Direct(e) then 0 else 4;
            RKPaid(fs, r, regs, size)
  {
    if Direct(e) {
      RKDirect(fs, e);
    } else {
      NextRegCost(outer, fs0, fs, e);
      RKIndirectCases(outer, fs0, fs, e);
    }
    hide ExpToRK, ExpToNextReg, Elems, Pending, Distinct;
  }

  lemma RKIndirectCases(outer: set<nat>, fs0: FS, fs: FS, e: Exp)
    requires Shape(outer, fs0, fs, e) && !Direct(e)
    ensures var r, n := ExpToRK(fs, e), ExpToNextReg(fs, e);
            if n.Ok? then r.Ok? && r.value.0 == n.value.0 else LuaOperators.Same(r, n)
  {
    hide ExpToReg, ReserveReg, FreeReg, Elems, Pending, Distinct;
    var d := DischargeVars(e);
    assert ExpToNextReg(fs, d) == ExpToNextReg(fs, e);
    if ExpToNextReg(fs, e).Ok? { NextRegShape(outer, fs0, fs, e); }
    hide ExpToNextReg;
    assert ExpToAnyReg(fs, d) == ExpToNextReg(fs, e);
    assert ExpToAnyReg(fs, e) == ExpToNextReg(fs, e);
    if ExpToNextReg(fs, e).Ok? {
      var (g, x) := ExpToNextReg(fs, e).value;
      assert ExpToAnyReg(g, x) == Ok((g, x));
    }
  }

  // ---------- conditions ----------

  // The register a test of e takes.
  function TestRegs(k: Kind, cond: bool): nat {
    if (if cond then k.VK? || k.VTrue? else k.VNil? || k.VFalse?) then 1 else 0
  }

  lemma JumpOnCondCost(outer: set<nat>, fs0: FS, fs: FS, e: Exp, cond: bool)
    requires Shape(outer, fs0, fs, e) && !e.k.VJmp? && !e.k.VLocal? && !Settled(e.k, cond)
    ensures var r := JumpOnCond(fs, e, cond); var regs := TestRegs(e.k, cond);
            Bill(fs, r, regs, 3)
  {
    if e.k.VReloc? {
      var g := fs.(code := Body(fs, e));
      NoElems();
      CondJumpCost(g, Test(fs.code[e.k.pc].b, !cond));
    } else {
      AnyRegCost(fs, e);
      if DischargeToAnyReg(fs, e).Ok? {
        AnyRegShape(outer, fs0, fs, e);
        var (fs1, e1) := DischargeToAnyReg(fs, e).value;
        CondJumpCost(FreeExp(fs1, e1), TestSet(NO_REG, e1.k.r, cond));
      }
    }
    hide CondJump, DischargeToAnyReg, Elems, Pending, Distinct;
  }

  lemma GoIfCost(outer: set<nat>, fs0: FS, fs: FS, e: Exp, cond: bool)
    requires Shape(outer, fs0, fs, e)
    ensures var r := GoIf(fs, e, cond); var regs := TestRegs(e.k, cond);
            Bill(fs, r, regs, 3)
  {
    VarsShape(outer, fs0, fs, e);
    var d := DischargeVars(e);
    if !d.k.VJmp? && !Settled(d.k, cond) { JumpOnCondCost(outer, fs0, fs, d, cond); }
    hide JumpOnCond, Elems, Pending, Distinct;
  }

  lemma CodeNotCost(outer: set<nat>, fs0: FS, fs: FS, e: Exp)
    requires Shape(outer, fs0, fs, e)
    ensures var r := CodeNot(fs, e); var regs := if e.k.VReloc? then 1 else 0;
            Bill(fs, r, regs, 2)
  {
    VarsShape(outer, fs0, fs, e);
    var d := DischargeVars(e);
    NotKindCost(outer, fs0, fs, d);
    CodeNotCases(fs, e);
    if NotKind(fs, d).Ok? {
      NotKindShape(outer, fs0, fs, d);
      var (fs1, k) := NotKind(fs, d).value;
      RemoveBothShape(outer, fs0, fs1, d.(k := k));
    }
    hide CodeNot, NotKind, Elems, Pending, Distinct;
  }

  lemma CodeNotCases(fs: FS, e: Exp)
    ensures var d := DischargeVars(e); var r, n := CodeNot(fs, e), NotKind(fs, d);
            if n.Ok? then r.Ok? && r.value.0 == n.value.0.(code := RemoveValues(RemoveValues(n.value.0.code, d.t), d.f))
            else LuaOperators.Same(r, n)
  {
    hide DischargeToAnyReg, RemoveValues, Code;
  }

  lemma NotKindCost(outer: set<nat>, fs0: FS, fs: FS, e: Exp)
    requires Shape(outer, fs0, fs, e) && !e.k.VLocal?
    ensures var r := NotKind(fs, e); var regs := if e.k.VReloc? then 1 else 0;
            Bill(fs, r, regs, 2)
  {
    if e.k.VReloc? || e.k.VNonReloc? {
      AnyRegCost(fs, e);
      if DischargeToAnyReg(fs, e).Ok? {
        AnyRegShape(outer, fs0, fs, e);
        var (fs1, e1) := DischargeToAnyReg(fs, e).value;
        CodeCost(FreeExp(fs1, e1), Not(0, e1.k.r));
      }
    }
    hide Code, DischargeToAnyReg, Elems, Pending, Distinct;
  }

  // ---------- expressions ----------

  function KindSort(k: Kind): Sort {
    match k
    case VNil => Absent
    case VTrue => Yes
    case VFalse => No
    case VK(_) => Known
    case VNonReloc(_) => InLocal
    case VLocal(_) => InLocal
    case VJmp(_) => AtJump
    case VReloc(_) => AtNot
  }

  // The descriptor of a compiled expression is what its syntax says.
  predicate Described(x: Exp, e: Expr) {
    KindSort(x.k) == SortOf(e) && (x.t != [] <==> Early(e, true)) && (x.f != [] <==> Early(e, false))
  }

  lemma DirectIsPlain(x: Exp, e: Expr)
    requires Described(x, e)
    ensures Direct(x) <==> !Computed(e)
  {
  }

  lemma TestRegsAre(x: Exp, e: Expr, cond: bool)
    requires Described(x, e)
    ensures TestRegs(x.k, cond) == TestNeed(e, cond)
  {
  }

  lemma {:induction false} CompileCost(outer: set<nat>, fs0: FS, e: Expr)
    requires Sound(outer, {}, fs0) && Closed(e, fs0.nactvar)
    ensures var r := Compile(fs0, e);
            Bill(fs0, r, Need(e), Length(e)) && (r.Ok? ==> Described(r.value.1, e))
    decreases e, 1
  {
    match e
    case ENot(e1) => NotCost(outer, fs0, e1);
    case EAnd(e1, e2) => JoinCost(outer, fs0, e, e1, e2, false);
    case EOr(e1, e2) => JoinCost(outer, fs0, e, e1, e2, true);
    case ECompare(op, e1, e2) => CompareCost(outer, fs0, op, e1, e2);
    case _ =>
  }

  lemma {:induction false} NotCost(outer: set<nat>, fs0: FS, e1: Expr)
    requires Sound(outer, {}, fs0) && Closed(e1, fs0.nactvar)
    ensures var r, e := Compile(fs0, ENot(e1)), ENot(e1);
            Bill(fs0, r, Need(e), Length(e)) && (r.Ok? ==> Described(r.value.1, e))
    decreases ENot(e1), 0
  {
    hide *;
    var r, r1 := Compile(fs0, ENot(e1)), Compile(fs0, e1);
    var k := if SortOf(e1) == AtNot then 1 else 0;
    NotNeeds(e1);
    NotCases(fs0, e1);
    CompileCost(outer, fs0, e1);
    if r1.Ok? {
      CompileShape(outer, fs0, e1);
      var (fs1, x) := r1.value;
      CodeNotCost(outer, fs0, fs1, x);
      AtNotIs(x, e1);
      if CodeNot(fs1, x).Ok? { NotDescribed(fs1, x, e1); }
    } else {
      SameFails(r, r1);
    }
    ZeroPlus(k);
    BillThen(fs0, r1, r, Need(e1), Length(e1), 0, k, 2);
  }

  lemma AtNotIs(x: Exp, e: Expr)
    requires Described(x, e)
    ensures x.k.VReloc? <==> SortOf(e) == AtNot
  {
  }

  lemma NotNeeds(e1: Expr)
    ensures Need(ENot(e1)) == Max(Need(e1), if SortOf(e1) == AtNot then 1 else 0)
    ensures Length(ENot(e1)) == Length(e1) + 2
  {
  }

  lemma NotCases(fs: FS, e1: Expr)
    ensures var r, r1 := Compile(fs, ENot(e1)), Compile(fs, e1);
            if r1.Ok? then r == CodeNot(r1.value.0, r1.value.1) else LuaOperators.Same(r, r1)
  {
    hide CodeNot;
  }

  lemma NotDescribed(fs: FS, x: Exp, e1: Expr)
    requires Described(x, e1) && CodeNot(fs, x).Ok?
    ensures Described(CodeNot(fs, x).value.1, ENot(e1))
  {
    hide DischargeToAnyReg, RemoveValues, Code;
  }

  lemma {:induction false} JoinCost(outer: set<nat>, fs0: FS, e: Expr, e1: Expr, e2: Expr, cond: bool)
    requires Sound(outer, {}, fs0) && Closed(e, fs0.nactvar) && e == if cond then EOr(e1, e2) else EAnd(e1, e2)
    ensures var r := Compile(fs0, e);
            Bill(fs0, r, Need(e), Length(e)) && (r.Ok? ==> Described(r.value.1, e))
    decreases e, 0
  {
    hide *;
    JoinIs(e, e1, e2, cond);
    var r, r1 := Compile(fs0, e), Compile(fs0, e1);
    var k1, k2, m2 := TestNeed(e1, cond), Need(e2), Length(e2);
    JoinNeeds(e, e1, e2, cond, fs0.nactvar);
    CompileCost(outer, fs0, e1);
    LuaOperators.JoinUnfold(fs0, e, e1, e2, cond);
    if r1.Ok? {
      CompileShape(outer, fs0, e1);
      var (fs1, x1) := r1.value;
      GoIfCost(outer, fs0, fs1, x1, cond);
      TestRegsAre(x1, e1, cond);
      var g := GoIf(fs1, x1, cond);
      if g.Ok? {
        var (fs2, y) := g.value;
        GoIfBase(outer, fs0, fs1, x1, cond);
        CompileCost(outer + Own(y), fs2, e2);
        GoIfLists(outer, fs0, fs1, x1, e1, cond);
        SameBill(fs2, Compile(fs2, e2), r, k2, m2);
        if !Compile(fs2, e2).Ok? { SameFails(r, Compile(fs2, e2)); }
        if Compile(fs2, e2).Ok? { JoinDescribed(Compile(fs2, e2).value.1, y, e, e1, e2, cond); }
      }
      if !g.Ok? { SameFails(r, g); }
      ZeroPlus(k2);
      BillThen(fs1, g, r, k1, 3, 0, k2, m2);
    }
    if !r1.Ok? { SameFails(r, r1); }
    ZeroPlus(Max(k1, k2));
    BillThen(fs0, r1, r, Need(e1), Length(e1), 0, Max(k1, k2), 3 + m2);
  }

  lemma JoinIs(e: Expr, e1: Expr, e2: Expr, cond: bool)
    requires e == if cond then EOr(e1, e2) else EAnd(e1, e2)
    ensures IsJoin(e, e1, e2, cond)
  {
  }

  lemma JoinNeeds(e: Expr, e1: Expr, e2: Expr, cond: bool, n: nat)
    requires IsJoin(e, e1, e2, cond) && Closed(e, n)
    ensures Closed(e1, n) && Closed(e2, n)
    ensures Need(e) == Max(Need(e1), Max(TestNeed(e1, cond), Need(e2))) && Length(e) == Length(e1) + (3 + Length(e2))
  {
  }

  lemma SameFails<T, U>(a: Result<T>, b: Result<U>)
    requires LuaOperators.Same(a, b)
    ensures a.Ok? == b.Ok?
  {
  }

  lemma ZeroPlus(k: nat)
    ensures 0 + k == k
  {
  }

  lemma SameBill<T, U>(fs: FS, a: Result<(FS, T)>, b: Result<(FS, U)>, k: nat, m: nat)
    requires Bill(fs, a, k, m) && if a.Ok? then b.Ok? && b.value.0 == a.value.0 else LuaOperators.Same(b, a)
    ensures Bill(fs, b, k, m)
  {
  }

  lemma GoIfBase(outer: set<nat>, fs0: FS, fs1: FS, x1: Exp, cond: bool)
    requires Shape(outer, fs0, fs1, x1) && GoIf(fs1, x1, cond).Ok?
    ensures var (fs2, y) := GoIf(fs1, x1, cond).value;
            Sound(outer + Own(y), {}, fs2) && fs2.freereg == fs1.freereg && fs2.nactvar == fs0.nactvar
  {
    GoIfShape(outer, fs0, fs1, x1, cond);
    var (fs2, y) := GoIf(fs1, x1, cond).value;
    PendingUnion(fs2.code, outer, Own(y));
    NoElems();
  }

  // The list that a test leaves waiting.
  lemma GoIfLists(outer: set<nat>, fs0: FS, fs: FS, x: Exp, e: Expr, cond: bool)
    requires Shape(outer, fs0, fs, x) && GoIf(fs, x, cond).Ok? && Described(x, e)
    ensures var y := GoIf(fs, x, cond).value.1;
            (if cond then y.t else y.f) != [] <==>
            Early(e, cond) || !(if cond then AlwaysFalse(SortOf(e)) else AlwaysTrue(SortOf(e)))
  {
    hide *;
    var d := DischargeVars(x);
    VarsShape(outer, fs0, fs, x);
    GoIfVars(fs, x, cond);
    var fs1, y := GoIfJump(outer, fs0, fs, d, cond);
    ListsAre(fs, x, d, y, e, cond);
  }

  lemma GoIfVars(fs: FS, x: Exp, cond: bool)
    ensures var d := DischargeVars(x); GoIf(fs, d, cond) == GoIf(fs, x, cond) && d.t == x.t && d.f == x.f
  {
    hide JumpOnCond;
  }

  lemma ListsAre(fs: FS, x: Exp, d: Exp, y: Exp, e: Expr, cond: bool)
    requires Described(x, e) && d == DischargeVars(x)
    requires if d.k.VJmp? then y == WithJumps(d, [d.k.pc], cond)
             else if Settled(d.k, cond) then y == d
             else JumpOnCond(fs, d, cond).Ok? && y == WithJumps(d, [JumpOnCond(fs, d, cond).value.1], cond)
    ensures (if cond then y.t else y.f) != [] <==>
            Early(e, cond) || !(if cond then AlwaysFalse(SortOf(e)) else AlwaysTrue(SortOf(e)))
  {
    hide JumpOnCond;
  }

  lemma JoinDescribed(x2: Exp, y: Exp, e: Expr, e1: Expr, e2: Expr, cond: bool)
    requires IsJoin(e, e1, e2, cond) && Described(x2, e2)
    requires (if cond then y.t else y.f) != [] <==>
             Early(e1, cond) || !(if cond then AlwaysFalse(SortOf(e1)) else AlwaysTrue(SortOf(e1)))
    ensures Described(Joined(x2, y, cond), e)
  {
  }

  lemma {:induction false} CompareCost(outer: set<nat>, fs0: FS, op: CompareOp, e1: Expr, e2: Expr)
    requires Sound(outer, {}, fs0) && Closed(e1, fs0.nactvar) && Closed(e2, fs0.nactvar)
    ensures var e := ECompare(op, e1, e2); var r := Compile(fs0, e);
            Bill(fs0, r, Need(e), Length(e)) && (r.Ok? ==> Described(r.value.1, e))
    decreases ECompare(op, e1, e2), 0
  {
    hide *;
    var e := ECompare(op, e1, e2);
    var held, more := if Computed(e1) then 1 else 0, if Computed(e2) then 1 else 0;
    ComparisonNeeds(op, e1, e2);
    var r, r1 := Compile(fs0, e), Compile(fs0, e1);
    CompileCost(outer, fs0, e1);
    LuaOperators.CompUnfold(fs0, op, e1, e2);
    if r1.Ok? {
      CompileShape(outer, fs0, e1);
      var (fs1, x1) := r1.value;
      OperandCost(outer, fs0, fs1, x1, e1);
      var k := ExpToRK(fs1, x1);
      if k.Ok? {
        SecondCost(outer, fs0, fs1, x1, k.value.0, k.value.1, k.value.2, op, e1, e2, r);
      }
      if !k.Ok? { SameFails(r, k); }
      RKBill(fs1, k, r, held, 4, held, Max(Need(e2), more), Length(e2) + 6);
    }
    if !r1.Ok? { SameFails(r, r1); }
    MaxPlus(Need(e1), held, Max(Need(e2), more));
    BillThen(fs0, r1, r, Need(e1), Length(e1), 0, Max(held, held + Max(Need(e2), more)), 4 + (Length(e2) + 6));
  }

  lemma ComparisonNeeds(op: CompareOp, e1: Expr, e2: Expr)
    ensures var e, held, more := ECompare(op, e1, e2), if Computed(e1) then 1 else 0, if Computed(e2) then 1 else 0;
            && Need(e) == Max(Max(Need(e1), held), held + Max(Need(e2), more))
            && Length(e) == Length(e1) + (4 + (Length(e2) + 6))
  {
  }

  lemma MaxPlus(a: nat, d: nat, b: nat)
    ensures Max(a, 0 + Max(d, d + b)) == Max(Max(a, d), d + b)
  {
  }

  // BillThen after an operand.
  lemma RKBill<T, U, V>(fs: FS, k: Result<(FS, T, U)>, r: Result<(FS, V)>, k1: nat, m1: nat, d: nat, k2: nat, m2: nat)
    requires RKPaid(fs, k, k1, m1)
    requires if k.Ok? then k.value.0.freereg == fs.freereg + d && Bill(k.value.0, r, k2, m2)
             else LuaOperators.Same(r, k)
    ensures Bill(fs, r, Max(k1, d + k2), m1 + m2)
  {
  }

  ghost predicate RKPaid<T, U>(fs: FS, r: Result<(FS, T, U)>, regs: nat, size: nat) {
    Excused(fs, r, regs, size) && (r.Ok? ==> Paid(fs, r.value.0, regs, size))
  }

  // The second operand and the comparison.
  lemma {:induction false} SecondCost(outer: set<nat>, fs0: FS, fs1: FS, x1: Exp, fs2: FS, y1: Exp, rk1: RK,
                                      op: CompareOp, e1: Expr, e2: Expr, r: Result<(FS, Exp)>)
    requires Sound(outer, {}, fs0) && Closed(e2, fs0.nactvar)
    requires Shape(outer, fs0, fs1, x1) && fs1.freereg == fs0.freereg && ExpToRK(fs1, x1) == Ok((fs2, y1, rk1))
    requires var c := Compile(fs2, e2);
             if c.Ok? then r == CodeComp(c.value.0, op, y1, rk1, c.value.1) else LuaOperators.Same(r, c)
    ensures Bill(fs2, r, Max(Need(e2), if Computed(e2) then 1 else 0), Length(e2) + 6)
    ensures r.Ok? ==> Described(r.value.1, ECompare(op, e1, e2))
    decreases e2, 2
  {
    var more := if Computed(e2) then 1 else 0;
    hide *;
    FirstOperandShape(outer, fs0, fs1, x1, fs2, y1, rk1);
    CompileCost(outer, fs2, e2);
    var c := Compile(fs2, e2);
    if c.Ok? {
      CompileShape(outer, fs2, e2);
      var (fs3, x2) := c.value;
      OperandCost(outer, fs2, fs3, x2, e2);
      CodeCompCost(outer, fs0, fs1, x1, fs2, y1, rk1, fs3, x2, op);
      ComparisonDescribed(fs3, op, y1, rk1, x2, e1, e2);
      TestBill(fs3, ExpToRK(fs3, x2), r, more);
    }
    if !c.Ok? { SameFails(r, c); }
    ZeroPlus(more);
    BillThen(fs2, c, r, Need(e2), Length(e2), 0, more, 6);
  }

  lemma TestBill<T, U, V>(fs: FS, k: Result<(FS, T, U)>, c: Result<(FS, V)>, regs: nat)
    requires RKPaid(fs, k, regs, 4)
    requires if !k.Ok? then LuaOperators.Same(c, k)
             else if c.Ok? then |c.value.0.code| == |k.value.0.code| + 2
             else c.TooLong? && |k.value.0.code| > MAXARG_sBx
    ensures Bill(fs, c, regs, 6)
  {
  }

  lemma OperandCost(outer: set<nat>, fs0: FS, fs: FS, x: Exp, e: Expr)
    requires Shape(outer, fs0, fs, x) && Described(x, e)
    ensures var r, held := ExpToRK(fs, x), if Computed(e) then 1 else 0;
            RKPaid(fs, r, held, 4) && (r.Ok? ==> r.value.0.freereg == fs.freereg + held)
  {
    DirectIsPlain(x, e);
    RKCost(outer, fs0, fs, x);
    hide ExpToRK, Elems, Pending, Distinct, SameTests, Computed, Described;
    if ExpToRK(fs, x).Ok? {
      RKSteps(outer, fs0, fs, x);
      RKShapeHolds(outer, fs0, fs, x);
    }
  }

  lemma CodeCompCost(outer: set<nat>, fs0: FS, fs1: FS, x1: Exp, fs2: FS, y1: Exp, rk1: RK, fs3: FS, x2: Exp,
                     op: CompareOp)
    requires FirstOperand(outer, fs0, fs1, x1, fs2, y1, rk1) && Sound(outer, {}, fs0)
    requires Shape(outer, fs2, fs3, x2) && fs3.freereg == fs2.freereg
    ensures var c, k := CodeComp(fs3, op, y1, rk1, x2), ExpToRK(fs3, x2);
            if !k.Ok? then LuaOperators.Same(c, k)
            else if c.Ok? then |c.value.0.code| == |k.value.0.code| + 2
            else c.TooLong? && |k.value.0.code| > MAXARG_sBx
  {
    var k := ExpToRK(fs3, x2);
    CodeCompCases(fs3, op, y1, rk1, x2);
    hide CodeComp, ExpToRK, CondJump, FreeExps, CompTest, Sound, Shape, FirstOperand, Pending, Elems;
    if k.Ok? {
      var (fs4, y2, rk2) := k.value;
      SecondOperandShape(outer, fs0, fs1, x1, fs2, y1, rk1, fs3, x2, fs4, y2, rk2);
      var g := fs4.(freereg := fs0.freereg);
      SoundPending2(outer, g);
      CondJumpCost(g, CompTest(op, rk1, rk2));
    }
  }

  lemma SoundPending2(outer: set<nat>, fs: FS)
    requires Sound(outer, {}, fs)
    ensures Pending(fs.code, Elems(fs.jpc))
  {
  }

  lemma CodeCompCases(fs: FS, op: CompareOp, y1: Exp, rk1: RK, x2: Exp)
    ensures var c, k := CodeComp(fs, op, y1, rk1, x2), ExpToRK(fs, x2);
            if !k.Ok? then LuaOperators.Same(c, k)
            else
              var j := CondJump(FreeExps(k.value.0, y1, k.value.1), CompTest(op, rk1, k.value.2));
              if j.Ok? then c.Ok? && c.value.0 == j.value.0 else LuaOperators.Same(c, j)
  {
    hide ExpToRK, FreeExps, CondJump;
  }

  lemma ComparisonDescribed(fs: FS, op: CompareOp, y1: Exp, rk1: RK, x2: Exp, e1: Expr, e2: Expr)
    ensures var c := CodeComp(fs, op, y1, rk1, x2); c.Ok? ==> Described(c.value.1, ECompare(op, e1, e2))
  {
    hide ExpToRK, FreeExps, CondJump;
  }

  // ---------- statements and blocks ----------

  // What a statement or a block may fail with, n locals being active: too many
  // locals or registers exactly if its syntax says so, given room for the code.
  ghost predicate BlockBill(fs: FS, r: Result<FS>, locals: nat, peak: nat, size: nat) {
    && (r.TooManyLocals? ==> locals > MAXVARS)
    && (r.TooManyRegisters? ==> peak >= MAXREGS)
    && (r.TooLong? ==> |fs.code| + size > MAXARG_sBx)
    && (r.Ok? ==> locals <= MAXVARS && peak < MAXREGS && |r.value.code| <= |fs.code| + size)
  }

  lemma AssignCost(outer: set<nat>, fs: FS, reg: nat, e: Expr)
    requires Base(outer, fs) && fs.nactvar <= MAXVARS && Closed(e, fs.nactvar)
    ensures BlockBill(fs, CompileStmt(fs, Assign(reg, e)), fs.nactvar, fs.nactvar + Need(e), Length(e) + 4)
  {
    hide *;
    BaseParts(outer, fs);
    AssignCases(fs, reg, e);
    CompileCost(outer, fs, e);
    var r, s := Compile(fs, e), CompileStmt(fs, Assign(reg, e));
    if r.Ok? {
      CompileShape(outer, fs, e);
      var (fs1, x) := r.value;
      StoreCost(outer, fs, fs1, x, reg);
      AssignBill(fs, r, StoreLocal(fs1, reg, x), s, Need(e), Length(e));
    } else {
      AssignBill(fs, r, s, s, Need(e), Length(e));
    }
  }

  lemma AssignCases(fs: FS, reg: nat, e: Expr)
    ensures var s, r := CompileStmt(fs, Assign(reg, e)), Compile(fs, e);
            if r.Ok? then
              var t := StoreLocal(r.value.0, reg, r.value.1);
              if t.Ok? then s.Ok? && s.value.code == t.value.code else LuaOperators.Same(s, t)
            else LuaOperators.Same(s, r)
  {
    hide Compile, StoreLocal;
  }

  lemma StoreCost(outer: set<nat>, fs: FS, fs1: FS, x: Exp, reg: nat)
    requires Shape(outer, fs, fs1, x)
    ensures var t := StoreLocal(fs1, reg, x);
            !t.TooManyLocals? && !t.TooManyRegisters? && (t.TooLong? ==> |fs1.code| + 4 > MAXARG_sBx)
              && (t.Ok? ==> |t.value.code| <= |fs1.code| + 4)
  {
    ExpToRegCost(outer, fs, fs1, x, reg);
    assert FreeExp(fs1, x) == fs1;
    assert fs1.freereg < MAXREGS;
    hide ExpToReg, Elems, Pending, Distinct, SameTests;
  }

  lemma AssignBill(fs: FS, r: Result<(FS, Exp)>, t: Result<FS>, s: Result<FS>, k: nat, m: nat)
    requires Bill(fs, r, k, m) && fs.freereg == fs.nactvar <= MAXVARS
    requires if r.Ok? then
               && !t.TooManyLocals? && !t.TooManyRegisters? && (t.TooLong? ==> |r.value.0.code| + 4 > MAXARG_sBx)
               && (t.Ok? ==> |t.value.code| <= |r.value.0.code| + 4)
               && if t.Ok? then s.Ok? && s.value.code == t.value.code else LuaOperators.Same(s, t)
             else LuaOperators.Same(s, r)
    ensures BlockBill(fs, s, fs.nactvar, fs.nactvar + k, m + 4)
  {
  }

  lemma LocalCost(outer: set<nat>, fs: FS, e: Expr)
    requires Base(outer, fs) && fs.nactvar <= MAXVARS && Closed(e, fs.nactvar)
    ensures BlockBill(fs, CompileStmt(fs, Local(e)), fs.nactvar + 1, fs.nactvar + Max(Need(e), 1), Length(e) + 4)
  {
    hide *;
    BaseParts(outer, fs);
    LocalCases(fs, e);
    CompileCost(outer, fs, e);
    var r, s := Compile(fs, e), CompileStmt(fs, Local(e));
    if fs.nactvar + 1 <= MAXVARS {
      var t := if r.Ok? then ExpToNextReg(r.value.0, r.value.1) else r;
      if r.Ok? {
        CompileShape(outer, fs, e);
        NextRegCost(outer, fs, r.value.0, r.value.1);
      } else {
        SameFails(s, r);
      }
      ZeroPlus(1);
      BillThen(fs, r, t, Need(e), Length(e), 0, 1, 4);
      LocalBill(fs, t, s, Max(Need(e), 1), Length(e) + 4);
    } else {
      TooManyBill(fs, s, fs.nactvar + 1, fs.nactvar + Max(Need(e), 1), Length(e) + 4);
    }
  }

  lemma TooManyBill(fs: FS, s: Result<FS>, locals: nat, peak: nat, size: nat)
    requires locals > MAXVARS && s.TooManyLocals?
    ensures BlockBill(fs, s, locals, peak, size)
  {
  }

  lemma LocalCases(fs: FS, e: Expr)
    ensures var s, r := CompileStmt(fs, Local(e)), Compile(fs, e);
            if fs.nactvar + 1 > MAXVARS then s.TooManyLocals?
            else if r.Ok? then
              var t := ExpToNextReg(r.value.0, r.value.1);
              if t.Ok? then s.Ok? && s.value.code == t.value.0.code else LuaOperators.Same(s, t)
            else LuaOperators.Same(s, r)
  {
    hide Compile, ExpToNextReg;
  }

  lemma LocalBill(fs: FS, t: Result<(FS, Exp)>, s: Result<FS>, k: nat, m: nat)
    requires Bill(fs, t, k, m) && fs.freereg == fs.nactvar && fs.nactvar + 1 <= MAXVARS
    requires if t.Ok? then s.Ok? && s.value.code == t.value.0.code else LuaOperators.Same(s, t)
    ensures BlockBill(fs, s, fs.nactvar + 1, fs.nactvar + k, m)
  {
  }

  lemma {:induction false} StmtCost(outer: set<nat>, fs: FS, s: Stmt)
    requires Base(outer, fs) && fs.nactvar <= MAXVARS && ClosedStmt(s, fs.nactvar)
    ensures BlockBill(fs, CompileStmt(fs, s), LocalsIn(s, fs.nactvar), PeakIn(s, fs.nactvar), StmtLength(s))
    decreases s, 1
  {
    hide CompileStmt, Base, BlockBill, ClosedBlock, Closed, Max;
    match s
    case Assign(reg, e) => AssignCost(outer, fs, reg, e);
    case Local(e) => LocalCost(outer, fs, e);
    case LocalNil =>
      LocalNilIsLocal(fs);
      assert Closed(ENil, fs.nactvar) by { NilClosed(fs.nactvar); }
      LocalCost(outer, fs, ENil);
      assert Max(0, 1) == 1 by { MaxZero(); }
    case If(c, yes) => IfCost(outer, fs, c, yes);
    case IfElse(c, yes, no) => IfElseCost(outer, fs, c, yes, no);
  }

  lemma NilClosed(n: nat)
    ensures Closed(ENil, n)
  {
  }

  lemma MaxZero()
    ensures Max(0, 1) == 1
  {
  }

  // The condition of an if.
  function Condition(fs: FS, c: Expr): Result<(FS, Exp)> {
    var (fs1, x) :- Compile(fs, c);
    GoIfTrue(fs1, x)
  }

  lemma ConditionCost(outer: set<nat>, fs: FS, c: Expr)
    requires Base(outer, fs) && Closed(c, fs.nactvar)
    ensures Bill(fs, Condition(fs, c), Max(Need(c), TestNeed(c, false)), Length(c) + 3)
  {
    hide *;
    BaseParts(outer, fs);
    ConditionCases(fs, c);
    CompileCost(outer, fs, c);
    var r := Compile(fs, c);
    if r.Ok? {
      CompileShape(outer, fs, c);
      var (fs1, x) := r.value;
      GoIfIsGoIfTrue(fs1, x);
      GoIfCost(outer, fs, fs1, x, false);
      TestRegsAre(x, c, false);
    }
    if !r.Ok? { SameFails(Condition(fs, c), r); }
    ZeroPlus(TestNeed(c, false));
    BillThen(fs, r, Condition(fs, c), Need(c), Length(c), 0, TestNeed(c, false), 3);
  }

  lemma ConditionCases(fs: FS, c: Expr)
    ensures var r, d := Compile(fs, c), Condition(fs, c);
            if r.Ok? then d == GoIfTrue(r.value.0, r.value.1) else LuaOperators.Same(d, r)
  {
    hide Compile, GoIfTrue;
  }

  lemma IfCases(fs: FS, c: Expr, yes: Block)
    ensures var r, d := CompileStmt(fs, If(c, yes)), Condition(fs, c);
            if !d.Ok? then LuaOperators.Same(r, d)
            else
              var q := CompileBlock(d.value.0, yes);
              if q.Ok? then r.Ok? && r.value.code == q.value.code else LuaOperators.Same(r, q)
  {
    hide Compile, GoIfTrue, CompileBlock;
  }

  lemma IfElseCases(fs: FS, c: Expr, yes: Block, no: Block)
    ensures var r, d := CompileStmt(fs, IfElse(c, yes, no)), Condition(fs, c);
            if !d.Ok? then LuaOperators.Same(r, d)
            else
              var q := CompileBlock(d.value.0, yes);
              if !q.Ok? then LuaOperators.Same(r, q)
              else
                var g := Middle(q.value, d.value);
                var q2 := CompileBlock(g, no);
                |g.code| == |q.value.code| + 1
                  && if q2.Ok? then r.Ok? && r.value.code == q2.value.code else LuaOperators.Same(r, q2)
  {
    hide Compile, GoIfTrue, CompileBlock;
  }

  // The state between the two parts of an if.
  function Middle(fs3: FS, part: (FS, Exp)): FS {
    PatchToHere(Jump(Free(fs3, part.0.nactvar)).0, part.1.f)
  }

  // A condition, then a block.
  lemma BlockAfter(fs: FS, d: Result<(FS, Exp)>, r: Result<FS>, n: nat, k: nat, m: nat, locals: nat, peak: nat,
                   size: nat)
    requires Bill(fs, d, k, m) && fs.freereg == n
    requires if d.Ok? then BlockBill(d.value.0, r, locals, peak, size) else LuaOperators.Same(r, d)
    ensures BlockBill(fs, r, locals, Max(n + k, peak), m + size)
  {
  }

  // The same outcome and code.
  lemma SameBlock(fs: FS, q: Result<FS>, r: Result<FS>, locals: nat, peak: nat, size: nat)
    requires BlockBill(fs, q, locals, peak, size)
    requires if q.Ok? then r.Ok? && r.value.code == q.value.code else LuaOperators.Same(r, q)
    ensures BlockBill(fs, r, locals, peak, size)
  {
  }

  // A block, then another that starts with d instructions more.
  lemma BlockThen(fs: FS, q: Result<FS>, g: FS, r: Result<FS>, l1: nat, p1: nat, m1: nat, d: nat, l2: nat, p2: nat,
                  m2: nat)
    requires BlockBill(fs, q, l1, p1, m1)
    requires if q.Ok? then |g.code| == |q.value.code| + d && BlockBill(g, r, l2, p2, m2) else LuaOperators.Same(r, q)
    ensures BlockBill(fs, r, Max(l1, l2), Max(p1, p2), m1 + d + m2)
  {
  }

  lemma {:induction false} IfCost(outer: set<nat>, fs: FS, c: Expr, yes: Block)
    requires Base(outer, fs) && fs.nactvar <= MAXVARS && ClosedStmt(If(c, yes), fs.nactvar)
    ensures var s := If(c, yes);
            BlockBill(fs, CompileStmt(fs, s), LocalsIn(s, fs.nactvar), PeakIn(s, fs.nactvar), StmtLength(s))
    decreases If(c, yes), 0
  {
    hide *;
    var n, k := fs.nactvar, Max(Need(c), TestNeed(c, false));
    IfParts(c, yes, n);
    BaseParts(outer, fs);
    ConditionCost(outer, fs, c);
    IfCases(fs, c, yes);
    var d, r := Condition(fs, c), CompileStmt(fs, If(c, yes));
    if d.Ok? {
      ConditionBase(outer, fs, c);
      BlockCost(outer + Elems(d.value.1.f), d.value.0, yes);
      SameBlock(d.value.0, CompileBlock(d.value.0, yes), r, MostLocals(yes, n), Peak(yes, n), BlockLength(yes));
    }
    if !d.Ok? { SameFails(r, d); }
    BlockAfter(fs, d, r, n, k, Length(c) + 3, MostLocals(yes, n), Peak(yes, n), BlockLength(yes));
  }

  lemma {:induction false} IfElseCost(outer: set<nat>, fs: FS, c: Expr, yes: Block, no: Block)
    requires Base(outer, fs) && fs.nactvar <= MAXVARS && ClosedStmt(IfElse(c, yes, no), fs.nactvar)
    ensures var s := IfElse(c, yes, no);
            BlockBill(fs, CompileStmt(fs, s), LocalsIn(s, fs.nactvar), PeakIn(s, fs.nactvar), StmtLength(s))
    decreases IfElse(c, yes, no), 0
  {
    hide *;
    var n, k := fs.nactvar, Max(Need(c), TestNeed(c, false));
    IfElseParts(c, yes, no, n);
    BaseParts(outer, fs);
    ConditionCost(outer, fs, c);
    IfElseCases(fs, c, yes, no);
    var d, r := Condition(fs, c), CompileStmt(fs, IfElse(c, yes, no));
    var l1, p1, m1, l2, p2, m2 := MostLocals(yes, n), Peak(yes, n), BlockLength(yes), MostLocals(no, n), Peak(no, n),
      BlockLength(no);
    if d.Ok? {
      ConditionBase(outer, fs, c);
      var fs2 := d.value.0;
      BlockCost(outer + Elems(d.value.1.f), fs2, yes);
      var q := CompileBlock(fs2, yes);
      var g := if q.Ok? then Middle(q.value, d.value) else fs;
      if q.Ok? {
        var ks := MiddleBase(outer, fs, c, yes);
        BlockCost(outer + ks, g, no);
        SameBlock(g, CompileBlock(g, no), r, l2, p2, m2);
      }
      BlockThen(fs2, q, g, r, l1, p1, m1, 1, l2, p2, m2);
    }
    if !d.Ok? { SameFails(r, d); }
    BlockAfter(fs, d, r, n, k, Length(c) + 3, Max(l1, l2), Max(p1, p2), m1 + 1 + m2);
    MaxMax(n + k, p1, p2);
  }

  lemma IfParts(c: Expr, yes: Block, n: nat)
    requires ClosedStmt(If(c, yes), n)
    ensures var s, k := If(c, yes), Max(Need(c), TestNeed(c, false));
            && Closed(c, n) && ClosedBlock(yes, n) && LocalsIn(s, n) == MostLocals(yes, n)
            && PeakIn(s, n) == Max(n + k, Peak(yes, n)) && StmtLength(s) == Length(c) + 3 + BlockLength(yes)
  {
    hide Max, Need, TestNeed, Closed, MostLocals, Peak, BlockLength, Length, ClosedBlock;
  }

  lemma IfElseParts(c: Expr, yes: Block, no: Block, n: nat)
    requires ClosedStmt(IfElse(c, yes, no), n)
    ensures var s, k := IfElse(c, yes, no), Max(Need(c), TestNeed(c, false));
            && Closed(c, n) && ClosedBlock(yes, n) && ClosedBlock(no, n)
            && LocalsIn(s, n) == Max(MostLocals(yes, n), MostLocals(no, n))
            && PeakIn(s, n) == Max(Max(n + k, Peak(yes, n)), Peak(no, n))
            && StmtLength(s) == Length(c) + 3 + (BlockLength(yes) + 1 + BlockLength(no))
  {
    hide Max, Need, TestNeed, Closed, MostLocals, Peak, BlockLength, Length, ClosedBlock;
  }

  lemma MaxMax(a: nat, b: nat, c: nat)
    ensures Max(a, Max(b, c)) == Max(Max(a, b), c)
  {
  }

  lemma MiddleBase(outer: set<nat>, fs: FS, c: Expr, yes: Block) returns (ks: set<nat>)
    requires Base(outer, fs) && Closed(c, fs.nactvar) && ClosedBlock(yes, fs.nactvar)
    requires Condition(fs, c).Ok? && CompileBlock(Condition(fs, c).value.0, yes).Ok?
    ensures var g := Middle(CompileBlock(Condition(fs, c).value.0, yes).value, Condition(fs, c).value);
            Base(outer + ks, g) && g.nactvar == fs.nactvar
  {
    ConditionCases(fs, c);
    assert Compile(fs, c).Ok?;
    hide *;
    var fs2, y, fs3 := PartGrown(outer, fs, c, yes);
    ks := Elems(Jump(Free(fs3, fs.nactvar)).1);
    MiddleGrown(outer, fs, fs3, y.f);
    MiddleIs(fs3, fs2, y);
  }

  lemma MiddleIs(fs3: FS, fs2: FS, y: Exp)
    ensures Middle(fs3, (fs2, y)) == PatchToHere(Jump(Free(fs3, fs2.nactvar)).0, y.f)
  {
  }

  lemma ConditionBase(outer: set<nat>, fs: FS, c: Expr)
    requires Base(outer, fs) && Closed(c, fs.nactvar) && Condition(fs, c).Ok?
    ensures var (fs2, y) := Condition(fs, c).value;
            && Base(outer + Elems(y.f), fs2) && Distinct(y.f) && outer !! Elems(y.f) && fs2.nactvar == fs.nactvar
            && SameTests(outer, fs.code, fs2.code) && |fs.code| <= |fs2.code|
  {
    ConditionCases(fs, c);
    assert Compile(fs, c).Ok?;
    hide *;
    CondGrown(outer, fs, c);
  }

  lemma {:induction false} BlockCost(outer: set<nat>, fs: FS, b: Block)
    requires Base(outer, fs) && fs.nactvar <= MAXVARS && ClosedBlock(b, fs.nactvar)
    ensures BlockBill(fs, CompileBlock(fs, b), MostLocals(b, fs.nactvar), Peak(b, fs.nactvar), BlockLength(b))
    decreases b, 0
  {
    hide *;
    match b
    case Done => DoneCost(outer, fs);
    case Then(s, rest) =>
      var n, m := fs.nactvar, fs.nactvar + NewLocals(s);
      var q := CompileStmt(fs, s);
      BlockParts(s, rest, n);
      BlockCases(fs, s, rest);
      StmtCost(outer, fs, s);
      if q.Ok? {
        StmtGrown(outer, fs, s);
        GrownBase(outer, fs, q.value);
        StmtLevel(fs, s);
        BlockCost(outer, q.value, rest);
      } else {
        SameFails(CompileBlock(fs, b), q);
      }
      BlockThen(fs, q, if q.Ok? then q.value else fs, CompileBlock(fs, b), LocalsIn(s, n), PeakIn(s, n),
        StmtLength(s), 0, MostLocals(rest, m), Peak(rest, m), BlockLength(rest));
  }

  lemma DoneCost(outer: set<nat>, fs: FS)
    requires Base(outer, fs) && fs.nactvar <= MAXVARS
    ensures BlockBill(fs, CompileBlock(fs, Done), MostLocals(Done, fs.nactvar), Peak(Done, fs.nactvar),
                      BlockLength(Done))
  {
    BaseParts(outer, fs);
    hide Base;
  }

  lemma BlockParts(s: Stmt, rest: Block, n: nat)
    requires ClosedBlock(Then(s, rest), n)
    ensures ClosedStmt(s, n) && ClosedBlock(rest, n + NewLocals(s))
    ensures MostLocals(Then(s, rest), n) == Max(LocalsIn(s, n), MostLocals(rest, n + NewLocals(s)))
    ensures Peak(Then(s, rest), n) == Max(PeakIn(s, n), Peak(rest, n + NewLocals(s)))
    ensures BlockLength(Then(s, rest)) == StmtLength(s) + 0 + BlockLength(rest)
  {
    hide Max, LocalsIn, PeakIn, StmtLength, ClosedStmt;
  }

  lemma BlockCases(fs: FS, s: Stmt, rest: Block)
    ensures var r, q := CompileBlock(fs, Then(s, rest)), CompileStmt(fs, s);
            if q.Ok? then r == CompileBlock(q.value, rest) else LuaOperators.Same(r, q)
  {
    hide CompileStmt;
  }

  lemma StmtLevel(fs: FS, s: Stmt)
    requires CompileStmt(fs, s).Ok? && fs.nactvar <= MAXVARS
    requires BlockBill(fs, CompileStmt(fs, s), LocalsIn(s, fs.nactvar), PeakIn(s, fs.nactvar), StmtLength(s))
    ensures fs.nactvar + NewLocals(s) <= MAXVARS
  {
    hide CompileStmt;
  }

  // ---------- whole functions ----------

  // A function body compiles exactly if it never has more than 200 locals active
  // and never needs 255 registers, as long as its code fits the jumps.
  lemma FunctionLimits(b: Block)
    requires ClosedBlock(b, 0)
    ensures var r := CompileBlock(EMPTY, b);
            && (r.TooManyLocals? ==> MostLocals(b, 0) > 200)
            && (r.TooManyRegisters? ==> Peak(b, 0) >= 255)
            && (r.TooLong? ==> BlockLength(b) > 131071)
            && (r.Ok? ==> MostLocals(b, 0) <= 200 && Peak(b, 0) < 255 && |r.value.code| <= BlockLength(b))
  {
    NoElems();
    assert Base({}, EMPTY);
    BlockCost({}, EMPTY, b);
    hide CompileBlock, MostLocals, Peak, BlockLength, ClosedBlock, Base;
  }
}
