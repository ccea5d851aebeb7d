// The instructions that short-circuit expressions compile to, their meaning in
// 3rd/lua-5.3.4/src/lvm.c, and the meaning of the expressions themselves.
module LuaVM {
  // Data stands for every value that is neither nil nor a boolean.
  datatype Value = Nil | Bool(b: bool) | Data(id: int)

  // l_isfalse
  predicate IsFalse(v: Value) { v == Nil || v == Bool(false) }

  datatype CmpOp = Eq | Lt | Le

  // What the three comparison opcodes answer; metamethods are behind it.
  type Compare = (CmpOp, Value, Value) -> bool

  // A register, or a constant (constants travel inside the instruction).
  datatype RK = Reg(r: nat) | Const(v: Value)

  datatype Instr =
    | Jmp(a: nat, sbx: int)
    | Test(a: nat, c: bool)
    | TestSet(a: nat, b: nat, c: bool)
    | Cmp(op: CmpOp, want: bool, x: RK, y: RK)
    | LoadBool(a: nat, v: bool, skip: bool)
    | LoadNil(a: nat, n: nat)
    | LoadK(a: nat, k: Value)
    | Move(a: nat, b: nat)
    | Not(a: nat, b: nat)
    | Other

  const NO_REG: nat := 255
  const NO_JUMP: int := -1
  const MAXARG_sBx: int := 131071
  const MAXREGS: nat := 255

  // testTMode: tests that are followed by a jump.
  predicate TMode(i: Instr) { i.Test? || i.TestSet? || i.Cmp? }

  // ---------- the machine ----------

  type Regs = seq<Value>

  function Get(R: Regs, r: nat): Value { if r < |R| then R[r] else Nil }

  function Set(R: Regs, r: nat, v: Value): Regs { if r < |R| then R[r := v] else R }

  function Operand(R: Regs, x: RK): Value { if x.Reg? then Get(R, x.r) else x.v }

  function FillNil(R: Regs, a: nat, b: nat): Regs {
    seq(|R|, i requires 0 <= i < |R| => if a <= i <= a + b then Nil else R[i])
  }

  // How a run ends: past the last instruction, at a jump that has no
  // destination yet, or in code that is not understood.
  datatype Outcome = Fall(R: Regs) | Exit(j: nat, R: Regs) | Stuck

  // Code under construction: exits are the jumps that wait for a destination,
  // here the jumps that are to go to the next instruction to be emitted.
  datatype Prog = Prog(code: seq<Instr>, exits: set<nat>, here: set<nat>)

  // Does the test let control skip the jump that follows?
  function Skips(cmp: Compare, i: Instr, R: Regs): bool
    requires TMode(i)
  {
    match i
    case Test(a, c) => if c then IsFalse(Get(R, a)) else !IsFalse(Get(R, a))
    case TestSet(_, b, c) => if c then IsFalse(Get(R, b)) else !IsFalse(Get(R, b))
    case Cmp(op, want, x, y) => cmp(op, Operand(R, x), Operand(R, y)) != want
  }

  // The register write of a test that does not skip.  A TESTSET whose register
  // is still NO_REG has no target; it is patched before the code is run.
  function TestWrite(i: Instr, R: Regs): Regs
    requires TMode(i)
  {
    if i.TestSet? && i.a != NO_REG then Set(R, i.a, Get(R, i.b)) else R
  }

  // Run from pc.  A test and its jump are one step, and a run may not land
  // between the two; all jumps of expressions go forward.
  function Exec(cmp: Compare, p: Prog, pc: nat, R: Regs): Outcome
    decreases |p.code| - pc, 1
  {
    if pc > |p.code| then Stuck
    else if pc == |p.code| then Fall(R)
    else
      match p.code[pc]
      case Jmp(_, _) => if pc >= 1 && TMode(p.code[pc - 1]) then Stuck else Take(cmp, p, pc, R)
      case LoadBool(a, v, skip) => Exec(cmp, p, if skip then pc + 2 else pc + 1, Set(R, a, Bool(v)))
      case LoadNil(a, b) => Exec(cmp, p, pc + 1, FillNil(R, a, b))
      case LoadK(a, k) => Exec(cmp, p, pc + 1, Set(R, a, k))
      case Move(a, b) => Exec(cmp, p, pc + 1, Set(R, a, Get(R, b)))
      case Not(a, b) => Exec(cmp, p, pc + 1, Set(R, a, Bool(IsFalse(Get(R, b)))))
      case Other => Stuck
      case i => if Skips(cmp, i, R) then Exec(cmp, p, pc + 2, R) else Take(cmp, p, pc + 1, TestWrite(i, R))
  }

  // Perform the jump at j.
  function Take(cmp: Compare, p: Prog, j: nat, R: Regs): Outcome
    decreases |p.code| - j, 0
  {
    if j >= |p.code| || !p.code[j].Jmp? then Stuck
    else if j in p.exits then Exit(j, R)
    else if j in p.here then Fall(R)
    else
      var target := j + 1 + p.code[j].sbx;
      if p.code[j].a == 0 && target > j then Exec(cmp, p, target, R) else Stuck
  }

  // ---------- the source language ----------

  datatype CompareOp = OpEq | OpNe | OpLt | OpLe | OpGt | OpGe

  datatype Expr =
    | ENil | ETrue | EFalse
    | EConst(id: int)
    | ELocal(r: nat)
    | ENot(e: Expr)
    | EAnd(e1: Expr, e2: Expr)
    | EOr(e1: Expr, e2: Expr)
    | ECompare(op: CompareOp, e1: Expr, e2: Expr)

  function Comparison(cmp: Compare, op: CompareOp, x: Value, y: Value): bool {
    match op
    case OpEq => cmp(Eq, x, y)
    case OpNe => !cmp(Eq, x, y)
    case OpLt => cmp(Lt, x, y)
    case OpLe => cmp(Le, x, y)
    case OpGt => cmp(Lt, y, x)
    case OpGe => cmp(Le, y, x)
  }

  // Short-circuit evaluation with the locals in R.
  function Eval(cmp: Compare, e: Expr, R: Regs): Value {
    match e
    case ENil => Nil
    case ETrue => Bool(true)
    case EFalse => Bool(false)
    case EConst(id) => Data(id)
    case ELocal(r) => Get(R, r)
    case ENot(e1) => Bool(IsFalse(Eval(cmp, e1, R)))
    case EAnd(e1, e2) => var v := Eval(cmp, e1, R); if IsFalse(v) then v else Eval(cmp, e2, R)
    case EOr(e1, e2) => var v := Eval(cmp, e1, R); if IsFalse(v) then Eval(cmp, e2, R) else v
    case ECompare(op, e1, e2) => Bool(Comparison(cmp, op, Eval(cmp, e1, R), Eval(cmp, e2, R)))
  }

  // Only active locals occur.
  predicate Closed(e: Expr, nactvar: nat) {
    match e
    case ELocal(r) => r < nactvar
    case ENot(e1) => Closed(e1, nactvar)
    case EAnd(e1, e2) => Closed(e1, nactvar) && Closed(e2, nactvar)
    case EOr(e1, e2) => Closed(e1, nactvar) && Closed(e2, nactvar)
    case ECompare(_, e1, e2) => Closed(e1, nactvar) && Closed(e2, nactvar)
    case _ => true
  }

  // The registers below n agree.
  ghost predicate Agree(R: Regs, R': Regs, n: nat) {
    |R'| == |R| && forall r :: 0 <= r < n ==> Get(R', r) == Get(R, r)
  }

  lemma {:induction false} EvalAgrees(cmp: Compare, e: Expr, R: Regs, R': Regs, n: nat)
    requires Closed(e, n) && Agree(R, R', n)
    ensures Eval(cmp, e, R') == Eval(cmp, e, R)
  {
    match e
    case ENot(e1) => EvalAgrees(cmp, e1, R, R', n);
    case EAnd(e1, e2) => EvalAgrees(cmp, e1, R, R', n); EvalAgrees(cmp, e2, R, R', n);
    case EOr(e1, e2) => EvalAgrees(cmp, e1, R, R', n); EvalAgrees(cmp, e2, R, R', n);
    case ECompare(_, e1, e2) => EvalAgrees(cmp, e1, R, R', n); EvalAgrees(cmp, e2, R, R', n);
    case _ =>
  }
}
