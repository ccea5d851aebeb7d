// Blocks of statements: assignments to locals, local declarations and if.
// Compiling a block in 3rd/lua-5.3.4/src/lparser.c and running it does to the
// locals what executing its statements one after the other does.
module LuaBlock {
  import opened LuaVM
  import opened LuaGen
  import opened LuaExec
  import opened LuaCorrect
  import opened LuaCond
  import opened LuaValue
  import opened LuaCompile
  import opened LuaBound

  const MAXVARS: nat := 200

  datatype Block = Done | Then(first: Stmt, rest: Block)

  datatype Stmt =
    | Assign(r: nat, e: Expr)
    | Local(e: Expr)
    | LocalNil
    | If(c: Expr, yes: Block)
    | IfElse(c: Expr, yes: Block, no: Block)

  // ---------- what statements mean ----------

  function NewLocals(s: Stmt): nat { if s.Local? || s.LocalNil? then 1 else 0 }

  // How many locals are active after the statements of b.
  function Scope(b: Block, n: nat): (m: nat)
    ensures m >= n
    decreases b
  {
    if b.Done? then n else Scope(b.rest, n + NewLocals(b.first))
  }

  // n locals are active.
  function RunStmt(cmp: Compare, s: Stmt, n: nat, R: Regs): Regs
    decreases s
  {
    match s
    case Assign(r, e) => Set(R, r, Eval(cmp, e, R))
    case Local(e) => Set(R, n, Eval(cmp, e, R))
    case LocalNil => Set(R, n, Nil)
    case If(c, yes) => if IsFalse(Eval(cmp, c, R)) then R else RunBlock(cmp, yes, n, R)
    case IfElse(c, yes, no) => if IsFalse(Eval(cmp, c, R)) then RunBlock(cmp, no, n, R) else RunBlock(cmp, yes, n, R)
  }

  function RunBlock(cmp: Compare, b: Block, n: nat, R: Regs): Regs
    decreases b
  {
    match b
    case Done => R
    case Then(s, rest) => RunBlock(cmp, rest, n + NewLocals(s), RunStmt(cmp, s, n, R))
  }

  predicate ClosedStmt(s: Stmt, n: nat)
    decreases s
  {
    match s
    case Assign(r, e) => r < n && Closed(e, n)
    case Local(e) => Closed(e, n)
    case LocalNil => true
    case If(c, yes) => Closed(c, n) && ClosedBlock(yes, n)
    case IfElse(c, yes, no) => Closed(c, n) && ClosedBlock(yes, n) && ClosedBlock(no, n)
  }

  predicate ClosedBlock(b: Block, n: nat)
    decreases b
  {
    b.Then? ==> ClosedStmt(b.first, n) && ClosedBlock(b.rest, n + NewLocals(b.first))
  }

  lemma SetAgrees(R: Regs, R': Regs, n: nat, r: nat, v: Value)
    requires Agree(R, R', n) && r <= n
    ensures Agree(Set(R, r, v), Set(R', r, v), if r == n then n + 1 else n)
  {
    forall k | 0 <= k < n + 1 && (k < n || r == n) ensures Get(Set(R', r, v), k) == Get(Set(R, r, v), k) {
      if k < n { assert Get(R', k) == Get(R, k); }
    }
  }

  // Statements see nothing but the active locals.
  lemma {:induction false} StmtAgrees(cmp: Compare, s: Stmt, n: nat, R: Regs, R': Regs)
    requires ClosedStmt(s, n) && Agree(R, R', n) && |R| >= MAXREGS
    ensures Agree(RunStmt(cmp, s, n, R), RunStmt(cmp, s, n, R'), n + NewLocals(s)) && |RunStmt(cmp, s, n, R)| == |R|
    decreases s
  {
    match s
    case Assign(r, e) => EvalAgrees(cmp, e, R, R', n); SetAgrees(R, R', n, r, Eval(cmp, e, R));
    case Local(e) => EvalAgrees(cmp, e, R, R', n); SetAgrees(R, R', n, n, Eval(cmp, e, R));
    case LocalNil => SetAgrees(R, R', n, n, Nil);
    case If(c, yes) => EvalAgrees(cmp, c, R, R', n); BlockAgrees(cmp, yes, n, R, R');
    case IfElse(c, yes, no) => EvalAgrees(cmp, c, R, R', n); BlockAgrees(cmp, yes, n, R, R');
      BlockAgrees(cmp, no, n, R, R');
  }

  lemma {:induction false} BlockAgrees(cmp: Compare, b: Block, n: nat, R: Regs, R': Regs)
    requires ClosedBlock(b, n) && Agree(R, R', n) && |R| >= MAXREGS
    ensures Agree(RunBlock(cmp, b, n, R), RunBlock(cmp, b, n, R'), Scope(b, n)) && |RunBlock(cmp, b, n, R)| == |R|
    decreases b
  {
    if b.Then? {
      StmtAgrees(cmp, b.first, n, R, R');
      BlockAgrees(cmp, b.rest, n + NewLocals(b.first), RunStmt(cmp, b.first, n, R), RunStmt(cmp, b.first, n, R'));
    }
  }

  // ---------- compiling ----------

  // new_localvar's limit, for the variable about to become active.
  function CheckLocal(fs: FS): Result<FS> { if fs.nactvar + 1 > MAXVARS then TooManyLocals else Ok(fs) }

  // The registers above n locals are free: the end of a statement or a block.
  function Free(fs: FS, n: nat): FS { fs.(nactvar := n, freereg := n) }

  function CompileStmt(fs: FS, s: Stmt): Result<FS>
    decreases s
  {
    match s
    case Assign(r, e) =>
      var (fs1, x) :- Compile(fs, e);
      var fs2 :- StoreLocal(fs1, r, x);
      Ok(Free(fs2, fs2.nactvar))
    case Local(e) =>
      var fs0 :- CheckLocal(fs);
      var (fs1, x) :- Compile(fs0, e);
      var (fs2, _) :- ExpToNextReg(fs1, x);
      Ok(Free(fs2, fs2.nactvar + 1))
    case LocalNil =>
      var fs0 :- CheckLocal(fs);
      var fs1 :- ReserveReg(fs0);
      var fs2 :- EmitNil(fs1, fs.freereg);
      Ok(Free(fs2, fs2.nactvar + 1))
    case If(c, yes) =>
      var (fs1, x) :- Compile(fs, c);
      var (fs2, y) :- GoIfTrue(fs1, x);
      var fs3 :- CompileBlock(fs2, yes);
      Ok(PatchToHere(PatchToHere(Free(fs3, fs2.nactvar), y.f), []))
    case IfElse(c, yes, no) =>
      var (fs1, x) :- Compile(fs, c);
      var (fs2, y) :- GoIfTrue(fs1, x);
      var fs3 :- CompileBlock(fs2, yes);
      var (fs4, escape) := Jump(Free(fs3, fs2.nactvar));
      var fs5 := PatchToHere(fs4, y.f);
      var fs6 :- CompileBlock(fs5, no);
      Ok(PatchToHere(Free(fs6, fs5.nactvar), escape))
  }

  function CompileBlock(fs: FS, b: Block): Result<FS>
    decreases b
  {
    match b
    case Done => Ok(fs)
    case Then(s, rest) =>
      var fs1 :- CompileStmt(fs, s);
      CompileBlock(fs1, rest)
  }

  // ---------- the state between two statements ----------

  ghost predicate Base(outer: set<nat>, fs: FS) {
    Sound(outer, {}, fs) && Bounded(fs.code) && fs.freereg == fs.nactvar
  }

  // fs1 was grown from fs0; runs that may start in fs0 may start in fs1.
  ghost predicate Grown(outer: set<nat>, fs0: FS, fs1: FS) {
    && Base(outer, fs1) && SameTests(outer, fs0.code, fs1.code) && |fs0.code| <= |fs1.code|
    && forall pc :: Entry(outer, fs0, pc) ==> Entry(outer, fs1, pc)
  }

  // How a run goes on: R is what the statements make of the registers.
  ghost predicate Follows(o0: Outcome, n: nat, R: Regs, o: Outcome) {
    match o0
    case Stuck => true
    case Exit(_, _) => o == o0
    case Fall(R1) => o.Fall? && |o.R| == |R1| && Agree(R, o.R, n)
  }

  lemma NilEntry(outer: set<nat>, fs: FS, reg: nat, pc: nat)
    requires Sound(outer, {}, fs) && Bounded(fs.code) && Entry(outer, fs, pc) && EmitNil(fs, reg).Ok?
    ensures Entry(outer, EmitNil(fs, reg).value, pc)
  {
    var fs1 := EmitNil(fs, reg).value;
    if EmitNil(fs, reg) == Code(fs, LoadNil(reg, 0)) {
      DischargeBounded(fs);
      var code0 := DischargeJpc(fs).value.code;
      assert forall i :: 0 <= i < |code0| ==> Lands(code0[i], i, |code0|);
      NoElems();
      assert OnlyFall(Prog(code0 + [LoadNil(reg, 0)], outer, {}));
    }
  }

  // ---------- assignments and declarations ----------

  lemma ShapeEntry(outer: set<nat>, fs0: FS, fs: FS, e: Exp, pc: nat)
    requires Shape(outer, fs0, fs, e) && Entry(outer, fs0, pc)
    ensures Entry(outer, fs, pc)
  {
    hide OnlyFall, Elems, Pending, Distinct, SameTests;
  }

  // A value stored in a register, then registers freed.
  lemma StoredGrown(outer: set<nat>, fs0: FS, fs1: FS, x: Exp, fs2: FS, reg: nat, g: FS, n: nat)
    requires Base(outer, fs0) && Shape(outer, fs0, fs1, x) && Grounded(outer, fs0, g, x, fs2) && Bounded(fs1.code)
             && Bounded(fs2.code)
    requires g == fs1.(freereg := g.freereg, maxstack := g.maxstack) && fs2.nactvar <= n <= fs2.maxstack
    requires x.k == VNil && !HasJumps(x) ==> EmitNil(g, reg) == Ok(fs2)
    ensures Grown(outer, fs0, Free(fs2, n))
  {
    forall pc | Entry(outer, fs0, pc) ensures Entry(outer, Free(fs2, n), pc) {
      ShapeEntry(outer, fs0, fs1, x, pc);
      assert Entry(outer, g, pc);
      if x.k == VNil && !HasJumps(x) {
        NoElems();
        assert Own(x) == {};
        assert Sound(outer, {}, g);
        NilEntry(outer, g, reg, pc);
      }
    }
    hide OnlyFall, Elems, Pending, Distinct, SameTests, EmitNil;
  }

  lemma AssignGrown(outer: set<nat>, fs0: FS, r: nat, e: Expr)
    requires Base(outer, fs0) && Closed(e, fs0.nactvar) && r < fs0.nactvar && CompileStmt(fs0, Assign(r, e)).Ok?
    ensures var fs1 := CompileStmt(fs0, Assign(r, e)).value; Grown(outer, fs0, fs1) && fs1.nactvar == fs0.nactvar
  {
    hide *;
    AssignSteps(fs0, r, e);
    BaseParts(outer, fs0);
    CompileShape(outer, fs0, e);
    CompileBounded(outer, fs0, e);
    var (fs1, x) := Compile(fs0, e).value;
    WithinBounded(fs1, x);
    StoreSteps(outer, fs0, fs1, r, x);
    ExpToRegShape(outer, fs0, fs1, x, r);
    ExpToRegBounded(outer, fs0, fs1, x, r);
    var fs2 := ExpToReg(fs1, x, r).value.0;
    StoredGrown(outer, fs0, fs1, x, fs2, r, fs1, fs0.nactvar);
    FreeVars(fs2, fs0.nactvar);
  }

  lemma AssignSteps(fs: FS, r: nat, e: Expr)
    requires CompileStmt(fs, Assign(r, e)).Ok?
    ensures Compile(fs, e).Ok? && StoreLocal(Compile(fs, e).value.0, r, Compile(fs, e).value.1).Ok?
    ensures var fs2 := StoreLocal(Compile(fs, e).value.0, r, Compile(fs, e).value.1).value;
            CompileStmt(fs, Assign(r, e)) == Ok(Free(fs2, fs2.nactvar))
  {
    hide Compile, StoreLocal;
  }

  lemma StoreSteps(outer: set<nat>, fs0: FS, fs1: FS, r: nat, x: Exp)
    requires Shape(outer, fs0, fs1, x) && StoreLocal(fs1, r, x).Ok?
    ensures ExpToReg(fs1, x, r).Ok? && StoreLocal(fs1, r, x).value == ExpToReg(fs1, x, r).value.0
    ensures x.k == VNil && !HasJumps(x) ==> EmitNil(fs1, r) == Ok(ExpToReg(fs1, x, r).value.0)
    ensures var fs2 := ExpToReg(fs1, x, r).value.0; fs2.nactvar == fs0.nactvar <= fs2.maxstack
  {
    ExpToRegShape(outer, fs0, fs1, x, r);
    ExpToRegSteps(outer, fs0, fs1, x, r);
    hide ExpToReg, Elems, Pending, Distinct, SameTests, EmitNil, Before, Finish;
    assert FreeExp(fs1, x) == fs1;
  }

  lemma AssignFollows(cmp: Compare, outer: set<nat>, fs0: FS, r: nat, e: Expr, pc: nat, R: Regs)
    requires Base(outer, fs0) && Closed(e, fs0.nactvar) && r < fs0.nactvar && CompileStmt(fs0, Assign(r, e)).Ok?
    requires Entry(outer, fs0, pc) && GoodRegs(Run0(cmp, outer, fs0, pc, R))
    ensures var o0, o := Run0(cmp, outer, fs0, pc, R), Run0(cmp, outer, CompileStmt(fs0, Assign(r, e)).value, pc, R);
            Follows(o0, fs0.nactvar, if o0.Fall? then RunStmt(cmp, Assign(r, e), fs0.nactvar, o0.R) else [], o)
  {
    AssignmentCorrect(cmp, outer, fs0, e, r, pc, R);
    var o0, o := Run0(cmp, outer, fs0, pc, R), Run0(cmp, outer, CompileStmt(fs0, Assign(r, e)).value, pc, R);
    assert fs0.nactvar <= MAXREGS;
    hide Compile, StoreLocal, Exec, Eval, Sound, Bounded;
    if o0.Fall? { PlacedFollows(o0.R, o.R, fs0.nactvar, r, Eval(cmp, e, o0.R)); }
  }

  lemma PlacedFollows(R1: Regs, R2: Regs, n: nat, r: nat, v: Value)
    requires AgreeBut(R1, R2, n, r) && Get(R2, r) == v && r < |R1| && r <= n
    ensures Agree(Set(R1, r, v), R2, if r == n then n + 1 else n)
  {
    forall k | 0 <= k < n + 1 && (k < n || r == n) ensures Get(R2, k) == Get(Set(R1, r, v), k) {
      if k < n && k != r { assert Get(R2, k) == Get(R1, k); }
    }
  }

  // luaK_exp2nextreg seen as exp2reg in the state g with a register reserved.
  lemma NextRegGrounded(outer: set<nat>, fs0: FS, fs1: FS, x: Exp) returns (d: Exp, g: FS, fs2: FS)
    requires Shape(outer, fs0, fs1, x) && Bounded(fs1.code) && ExpToNextReg(fs1, x).Ok?
    ensures fs2 == ExpToNextReg(fs1, x).value.0
    ensures Shape(outer, fs0, fs1, d) && Grounded(outer, fs0, g, d, fs2) && Bounded(fs2.code)
    ensures g == fs1.(freereg := fs1.freereg + 1, maxstack := g.maxstack) && fs1.freereg + 1 <= g.maxstack
    ensures d.k == VNil && !HasJumps(d) ==> EmitNil(g, fs1.freereg) == Ok(fs2)
  {
    NextRegSteps(outer, fs0, fs1, x);
    VarsShape(outer, fs0, fs1, x);
    d, g := DischargeVars(x), ReserveReg(fs1).value;
    fs2 := ExpToReg(g, d, fs1.freereg).value.0;
    ReserveShape(outer, fs0, fs1, d);
    assert g.freereg <= g.maxstack;
    hide Shape, Bounded, ExpToReg, ExpToNextReg, EmitNil, Grounded, Before, Finish, ReserveReg;
    ExpToRegShape(outer, fs0, g, d, fs1.freereg);
    ExpToRegBounded(outer, fs0, g, d, fs1.freereg);
    ExpToRegSteps(outer, fs0, g, d, fs1.freereg);
  }

  lemma LocalGrown(outer: set<nat>, fs0: FS, e: Expr)
    requires Base(outer, fs0) && Closed(e, fs0.nactvar) && CompileStmt(fs0, Local(e)).Ok?
    ensures var fs1 := CompileStmt(fs0, Local(e)).value; Grown(outer, fs0, fs1) && fs1.nactvar == fs0.nactvar + 1
  {
    hide *;
    LocalSteps(fs0, e);
    BaseParts(outer, fs0);
    var (fs1, x) := Compile(fs0, e).value;
    var fs2 := ExpToNextReg(fs1, x).value.0;
    CompileShape(outer, fs0, e);
    CompileBounded(outer, fs0, e);
    WithinBounded(fs1, x);
    var d, g, fs3 := NextRegGrounded(outer, fs0, fs1, x);
    GroundedVars(outer, fs0, fs1, d, g, fs2);
    StoredGrown(outer, fs0, fs1, d, fs2, fs1.freereg, g, fs0.nactvar + 1);
    FreeVars(fs2, fs0.nactvar + 1);
  }

  lemma BaseParts(outer: set<nat>, fs: FS)
    requires Base(outer, fs)
    ensures Sound(outer, {}, fs) && Bounded(fs.code) && fs.freereg == fs.nactvar < MAXREGS
  {
  }

  lemma LocalSteps(fs: FS, e: Expr)
    requires CompileStmt(fs, Local(e)).Ok?
    ensures Compile(fs, e).Ok? && ExpToNextReg(Compile(fs, e).value.0, Compile(fs, e).value.1).Ok?
    ensures var fs2 := ExpToNextReg(Compile(fs, e).value.0, Compile(fs, e).value.1).value.0;
            CompileStmt(fs, Local(e)) == Ok(Free(fs2, fs2.nactvar + 1))
  {
    hide Compile, ExpToNextReg;
  }

  lemma WithinBounded(fs: FS, e: Exp)
    requires Within(fs, e)
    ensures Bounded(fs.code)
  {
  }

  lemma GroundedVars(outer: set<nat>, fs0: FS, fs1: FS, d: Exp, g: FS, fs2: FS)
    requires Shape(outer, fs0, fs1, d) && Grounded(outer, fs0, g, d, fs2)
             && g == fs1.(freereg := fs1.freereg + 1, maxstack := g.maxstack)
    ensures fs2.nactvar == fs0.nactvar && fs2.freereg == fs1.freereg + 1 && fs2.freereg <= fs2.maxstack
  {
    hide Elems, Pending, Distinct, SameTests;
  }

  lemma FreeVars(fs: FS, n: nat)
    ensures Free(fs, n).nactvar == n
  {
  }

  lemma LocalFollows(cmp: Compare, outer: set<nat>, fs0: FS, e: Expr, pc: nat, R: Regs)
    requires Base(outer, fs0) && Closed(e, fs0.nactvar) && CompileStmt(fs0, Local(e)).Ok?
    requires Entry(outer, fs0, pc) && GoodRegs(Run0(cmp, outer, fs0, pc, R))
    ensures var o0, o := Run0(cmp, outer, fs0, pc, R), Run0(cmp, outer, CompileStmt(fs0, Local(e)).value, pc, R);
            Follows(o0, fs0.nactvar + 1, if o0.Fall? then RunStmt(cmp, Local(e), fs0.nactvar, o0.R) else [], o)
  {
    ShortCircuitCorrect(cmp, outer, fs0, e, pc, R);
    var o0, o := Run0(cmp, outer, fs0, pc, R), Run0(cmp, outer, CompileStmt(fs0, Local(e)).value, pc, R);
    assert fs0.nactvar < MAXREGS;
    hide Compile, ExpToNextReg, Exec, Eval, Sound, Bounded;
    if o0.Fall? { PlacedFollows(o0.R, o.R, fs0.nactvar, fs0.nactvar, Eval(cmp, e, o0.R)); }
  }

  // A declaration without a value is one with the value nil.
  lemma LocalNilIsLocal(fs: FS)
    ensures CompileStmt(fs, LocalNil) == CompileStmt(fs, Local(ENil))
  {
    hide EmitNil;
    var x := Exp(VNil, [], []);
    assert Compile(fs, ENil) == Ok((fs, x));
    if ReserveReg(fs).Ok? {
      assert ExpToNextReg(fs, x) == ExpToReg(ReserveReg(fs).value, x, fs.freereg);
    }
  }

  // ---------- if ----------

  // The jumps in list join the jumps to here.
  lemma JoinHere(outer: set<nat>, fs: FS, list: seq<nat>)
    requires Sound(outer + Elems(list), {}, fs) && Distinct(list) && outer !! Elems(list)
    ensures var fs1 := PatchToHere(fs, list);
            Sound(outer, {}, fs1) && !Mergeable(fs1) && Elems(fs1.jpc) == Elems(fs.jpc) + Elems(list)
              && Elems(fs.jpc) !! Elems(list)
  {
    ElemsAppend(fs.jpc, list);
    forall m | 0 <= m < |fs.jpc| ensures fs.jpc[m] in Elems(fs.jpc) { }
    forall m | 0 <= m < |list| ensures list[m] in Elems(list) { }
    assert Distinct(fs.jpc + list);
    hide Elems, Distinct;
    PendingPart(fs.code, outer, Elems(list));
    PendingUnion(fs.code, Elems(fs.jpc), Elems(list));
    NoElems();
  }

  lemma JoinHereExec(cmp: Compare, outer: set<nat>, fs: FS, list: seq<nat>, pc: nat, R: Regs)
    requires Sound(outer + Elems(list), {}, fs) && Distinct(list) && outer !! Elems(list)
    ensures Run0(cmp, outer, PatchToHere(fs, list), pc, R) ==
            match Run0(cmp, outer + Elems(list), fs, pc, R)
            case Exit(j, R2) => if j in Elems(list) then Fall(R2) else Exit(j, R2)
            case o => o
  {
    JoinHere(outer, fs, list);
    hide Exec, Elems;
    ToHereExec(cmp, fs.code, outer, Elems(list), Elems(fs.jpc), pc, R);
  }

  // luaK_jump at the end of a block: falling through becomes leaving.
  lemma JumpShape(outer: set<nat>, fs: FS)
    requires Base(outer, fs)
    ensures var (fs1, list) := Jump(fs);
            && Base(outer + Elems(list), fs1) && !Mergeable(fs1) && Distinct(list) && outer !! Elems(list)
            && SameTests(outer, fs.code, fs1.code) && |fs.code| <= |fs1.code|
            && Elems(list) == Elems(fs.jpc) + {|fs.code|}
  {
    var ext := [Jmp(0, NO_JUMP)];
    var (fs1, list) := Jump(fs);
    hide Elems, Distinct;
    HoldOn(outer, fs, ext);
    PendingExtend(fs.code, ext, outer);
    PendingUnion(fs.code + ext, outer, Elems(list));
    BoundedAppend(fs.code, ext);
    NoElems();
  }

  lemma JumpExec(cmp: Compare, outer: set<nat>, fs: FS, pc: nat, R: Regs)
    requires Base(outer, fs) && Run0(cmp, outer, fs, pc, R) != Stuck
    ensures var (fs1, list) := Jump(fs); var o, o1 := Run0(cmp, outer, fs, pc, R),
            Run0(cmp, outer + Elems(list), fs1, pc, R);
            if o.Fall? then o1.Exit? && o1.j in Elems(list) && o1.R == o.R else o1 == o
  {
    JumpShape(outer, fs);
    var m, here, ext := |fs.code|, Elems(fs.jpc), [Jmp(0, NO_JUMP)];
    var (fs1, list) := Jump(fs);
    var p1 := Prog(fs.code + ext, outer + here + {m}, {});
    assert m > 0 ==> !TMode(p1.code[m - 1]);
    assert p1.code[m] == ext[0];
    NoElems();
    assert outer !! here;
    ExitsOnly(cmp, Prog(fs.code, outer + here, {}), pc, R);
    hide Exec, Elems, Pending, Distinct, Bounded, SameTests;
    HereExec(cmp, fs.code, outer, here, pc, R);
    ExtendExec(cmp, fs.code, ext, outer + here, {m}, pc, R);
    assert outer + here + {m} == outer + Elems(list);
    var o := Exec(cmp, Prog(fs.code, outer + here, {}), pc, R);
    if o.Fall? { HeldJump(cmp, p1, m, o.R); }
  }

  // The condition of an if: its false list waits around the block.
  lemma CondGrown(outer: set<nat>, fs0: FS, c: Expr)
    requires Base(outer, fs0) && Closed(c, fs0.nactvar) && Compile(fs0, c).Ok?
    requires GoIfTrue(Compile(fs0, c).value.0, Compile(fs0, c).value.1).Ok?
    ensures var (fs2, y) := GoIfTrue(Compile(fs0, c).value.0, Compile(fs0, c).value.1).value;
            && Base(outer + Elems(y.f), fs2) && !Mergeable(fs2) && Distinct(y.f) && outer !! Elems(y.f)
               && Own(y) == Elems(y.f)
            && SameTests(outer, fs0.code, fs2.code) && |fs0.code| <= |fs2.code| && fs2.nactvar == fs0.nactvar
  {
    hide *;
    BaseParts(outer, fs0);
    CompileShape(outer, fs0, c);
    CompileBounded(outer, fs0, c);
    var (fs1, x) := Compile(fs0, c).value;
    GoIfIsGoIfTrue(fs1, x);
    GoIfShape(outer, fs0, fs1, x, false);
    GoIfBounded(outer, fs0, fs1, x, false);
    var (fs2, y) := GoIfTrue(fs1, x).value;
    BranchingBase(outer, fs0, fs2, y);
  }

  lemma GoIfIsGoIfTrue(fs: FS, x: Exp)
    ensures GoIf(fs, x, false) == GoIfTrue(fs, x)
  {
    hide GoIfTrue, GoIfFalse;
  }

  lemma BranchingBase(outer: set<nat>, fs0: FS, fs2: FS, y: Exp)
    requires Branching(outer, fs0, fs2, y) && y.t == [] && Bounded(fs2.code) && fs2.freereg == fs0.nactvar
    ensures Base(outer + Elems(y.f), fs2) && Distinct(y.f) && outer !! Elems(y.f) && Own(y) == Elems(y.f)
    ensures SameTests(outer, fs0.code, fs2.code) && |fs0.code| <= |fs2.code| && fs2.nactvar == fs0.nactvar
  {
    PendingUnion(fs2.code, outer, Own(y));
    NoElems();
    hide Elems, Distinct, Pending, Bounded;
    assert Own(y) == Elems(y.f);
  }

  // After the condition: falling through means true, leaving by y means false.
  ghost predicate Chosen(o0: Outcome, n: nat, truth: bool, js: set<nat>, o: Outcome) {
    match o0
    case Stuck => true
    case Exit(_, _) => o == o0
    case Fall(R1) => !o.Stuck? && |o.R| == |R1| && Agree(R1, o.R, n) && (o.Fall? <==> truth) && (o.Exit? ==> o.j in js)
  }

  lemma CondFollows(cmp: Compare, outer: set<nat>, fs0: FS, c: Expr, pc: nat, R: Regs)
    requires Base(outer, fs0) && Closed(c, fs0.nactvar) && Compile(fs0, c).Ok?
    requires GoIfTrue(Compile(fs0, c).value.0, Compile(fs0, c).value.1).Ok?
    requires Entry(outer, fs0, pc) && GoodRegs(Run0(cmp, outer, fs0, pc, R))
    ensures var (fs2, y) := GoIfTrue(Compile(fs0, c).value.0, Compile(fs0, c).value.1).value;
            var o0, o := Run0(cmp, outer, fs0, pc, R), Run0(cmp, outer + Elems(y.f), fs2, pc, R);
            Chosen(o0, fs0.nactvar, o0.Fall? && !IsFalse(Eval(cmp, c, o0.R)), Elems(y.f), o)
  {
    hide *;
    BaseParts(outer, fs0);
    CompileShape(outer, fs0, c);
    CompileMeans(cmp, outer, fs0, c, pc, R);
    CondGrown(outer, fs0, c);
    var (fs1, x) := Compile(fs0, c).value;
    GoIfIsGoIfTrue(fs1, x);
    GoIfMeans(cmp, outer, fs0, fs0.nactvar, fs1, x, c, false, pc, R);
    var (fs2, y) := GoIfTrue(fs1, x).value;
    GoIfShape(outer, fs0, fs1, x, false);
    RunIs(cmp, outer + Elems(y.f), fs2, pc, R);
    BranchChosen(cmp, Run0(cmp, outer, fs0, pc, R), fs0.nactvar, fs2.code, y, c,
      Run0(cmp, outer + Elems(y.f), fs2, pc, R));
  }

  lemma RunIs(cmp: Compare, outer: set<nat>, fs: FS, pc: nat, R: Regs)
    ensures Run0(cmp, outer, fs, pc, R) == Exec(cmp, Prog(fs.code, outer, Elems(fs.jpc)), pc, R)
  {
    hide Exec;
  }

  lemma BranchChosen(cmp: Compare, o0: Outcome, n: nat, code: seq<Instr>, y: Exp, c: Expr, o: Outcome)
    requires Branch(cmp, o0, n, false, code, y, c, o) && y.t == [] && n <= MAXREGS
    ensures Chosen(o0, n, o0.Fall? && !IsFalse(Eval(cmp, c, o0.R)), Elems(y.f), o)
  {
    hide Eval;
  }

  // ---------- blocks keep the state sound ----------

  lemma FreeBase(outer: set<nat>, fs: FS, n: nat)
    requires Base(outer, fs) && n <= fs.nactvar
    ensures Base(outer, Free(fs, n))
  {
    hide Bounded, Elems, Distinct, Pending;
  }

  lemma GrownTrans(outer: set<nat>, a: FS, b: FS, c: FS)
    requires Grown(outer, a, b) && Grown(outer, b, c)
    ensures Grown(outer, a, c)
  {
    hide Entry, Base;
    SameTestsTrans(outer, a.code, b.code, c.code);
    hide SameTests;
  }

  // The end of a part of an if: its list goes here.
  lemma EndPart(outer: set<nat>, fs0: FS, fs3: FS, n: nat, list: seq<nat>)
    requires Base(outer + Elems(list), fs3) && n <= fs3.nactvar && Distinct(list) && outer !! Elems(list)
    requires SameTests(outer, fs0.code, fs3.code) && |fs0.code| <= |fs3.code|
    ensures var fs4 := PatchToHere(Free(fs3, n), list);
            Grown(outer, fs0, fs4) && !Mergeable(fs4) && fs4.nactvar == n && fs4.code == fs3.code
  {
    FreeBase(outer + Elems(list), fs3, n);
    JoinHere(outer, Free(fs3, n), list);
    hide Bounded, Elems, Distinct, Pending, SameTests, OnlyFall;
  }

  lemma {:induction false} StmtGrown(outer: set<nat>, fs0: FS, s: Stmt)
    requires Base(outer, fs0) && ClosedStmt(s, fs0.nactvar) && CompileStmt(fs0, s).Ok?
    ensures var fs1 := CompileStmt(fs0, s).value; Grown(outer, fs0, fs1) && fs1.nactvar == fs0.nactvar + NewLocals(s)
    decreases s, 1
  {
    hide Base, Grown, CompileStmt, ClosedBlock;
    match s
    case Assign(r, e) => AssignGrown(outer, fs0, r, e);
    case Local(e) => LocalGrown(outer, fs0, e);
    case LocalNil => LocalNilIsLocal(fs0); LocalGrown(outer, fs0, ENil);
    case If(c, yes) => var _, _, _ := IfGrown(outer, fs0, c, yes);
    case IfElse(c, yes, no) => var _, _, _, _, _, _ := IfElseGrown(outer, fs0, c, yes, no);
  }

  lemma {:induction false} BlockGrown(outer: set<nat>, fs0: FS, b: Block)
    requires Base(outer, fs0) && ClosedBlock(b, fs0.nactvar) && CompileBlock(fs0, b).Ok?
    ensures var fs1 := CompileBlock(fs0, b).value; Grown(outer, fs0, fs1) && fs1.nactvar == Scope(b, fs0.nactvar)
    decreases b, 0
  {
    hide *;
    if b.Then? {
      BlockSteps(fs0, b);
      StmtGrown(outer, fs0, b.first);
      var fs1 := CompileStmt(fs0, b.first).value;
      GrownBase(outer, fs0, fs1);
      BlockGrown(outer, fs1, b.rest);
      GrownTrans(outer, fs0, fs1, CompileBlock(fs1, b.rest).value);
    } else {
      DoneGrown(outer, fs0, b);
    }
  }

  lemma BlockSteps(fs0: FS, b: Block)
    requires b.Then? && CompileBlock(fs0, b).Ok? && ClosedBlock(b, fs0.nactvar)
    ensures CompileStmt(fs0, b.first).Ok? && ClosedStmt(b.first, fs0.nactvar)
    ensures CompileBlock(CompileStmt(fs0, b.first).value, b.rest) == CompileBlock(fs0, b)
    ensures ClosedBlock(b.rest, fs0.nactvar + NewLocals(b.first))
    ensures Scope(b, fs0.nactvar) == Scope(b.rest, fs0.nactvar + NewLocals(b.first))
  {
    hide CompileStmt, ClosedStmt;
  }

  lemma DoneGrown(outer: set<nat>, fs0: FS, b: Block)
    requires Base(outer, fs0) && b.Done?
    ensures CompileBlock(fs0, b) == Ok(fs0) && Grown(outer, fs0, fs0) && Scope(b, fs0.nactvar) == fs0.nactvar
  {
  }

  lemma GrownBase(outer: set<nat>, fs0: FS, fs1: FS)
    requires Grown(outer, fs0, fs1)
    ensures Base(outer, fs1) && SameTests(outer, fs0.code, fs1.code) && |fs0.code| <= |fs1.code|
    ensures forall pc :: Entry(outer, fs0, pc) ==> Entry(outer, fs1, pc)
  {
    hide Base, SameTests, Entry;
  }

  // What becomes of the condition and the first part of an if.
  lemma {:induction false} PartGrown(outer: set<nat>, fs0: FS, c: Expr, yes: Block) returns (fs2: FS, y: Exp, fs3: FS)
    requires Base(outer, fs0) && Closed(c, fs0.nactvar) && ClosedBlock(yes, fs0.nactvar) && Compile(fs0, c).Ok?
    requires GoIfTrue(Compile(fs0, c).value.0, Compile(fs0, c).value.1).Ok?
    requires CompileBlock(GoIfTrue(Compile(fs0, c).value.0, Compile(fs0, c).value.1).value.0, yes).Ok?
    ensures GoIfTrue(Compile(fs0, c).value.0, Compile(fs0, c).value.1) == Ok((fs2, y))
            && CompileBlock(fs2, yes) == Ok(fs3)
    ensures Base(outer + Elems(y.f), fs2) && !Mergeable(fs2) && Distinct(y.f) && outer !! Elems(y.f)
            && fs2.nactvar == fs0.nactvar
    ensures |fs0.code| <= |fs2.code| && Base(outer + Elems(y.f), fs3) && fs3.nactvar >= fs0.nactvar
    ensures SameTests(outer, fs0.code, fs3.code) && |fs0.code| <= |fs3.code|
    decreases yes, 1
  {
    hide *;
    CondGrown(outer, fs0, c);
    var (a2, b2) := GoIfTrue(Compile(fs0, c).value.0, Compile(fs0, c).value.1).value;
    fs2, y := a2, b2;
    fs3 := CompileBlock(fs2, yes).value;
    BlockGrown(outer + Elems(y.f), fs2, yes);
    GrownBase(outer + Elems(y.f), fs2, fs3);
    SameTestsPart(outer, Elems(y.f), fs2.code, fs3.code);
    SameTestsTrans(outer, fs0.code, fs2.code, fs3.code);
  }

  lemma {:induction false} IfGrown(outer: set<nat>, fs0: FS, c: Expr, yes: Block) returns (fs2: FS, y: Exp, fs3: FS)
    requires Base(outer, fs0) && Closed(c, fs0.nactvar) && ClosedBlock(yes, fs0.nactvar)
             && CompileStmt(fs0, If(c, yes)).Ok?
    ensures Compile(fs0, c).Ok? && GoIfTrue(Compile(fs0, c).value.0, Compile(fs0, c).value.1) == Ok((fs2, y))
            && CompileBlock(fs2, yes) == Ok(fs3)
    ensures Base(outer + Elems(y.f), fs2) && !Mergeable(fs2) && Distinct(y.f) && outer !! Elems(y.f)
            && fs2.nactvar == fs0.nactvar
    ensures |fs0.code| <= |fs2.code| && Base(outer + Elems(y.f), fs3) && fs3.nactvar >= fs0.nactvar
    ensures CompileStmt(fs0, If(c, yes)) == Ok(PatchToHere(PatchToHere(Free(fs3, fs0.nactvar), y.f), []))
    ensures Grown(outer, fs0, CompileStmt(fs0, If(c, yes)).value)
            && CompileStmt(fs0, If(c, yes)).value.nactvar == fs0.nactvar
    decreases yes, 2
  {
    hide *;
    IfSteps(fs0, c, yes);
    fs2, y, fs3 := PartGrown(outer, fs0, c, yes);
    EndPart(outer, fs0, fs3, fs0.nactvar, y.f);
    HereAgain(outer, fs0, PatchToHere(Free(fs3, fs0.nactvar), y.f));
  }

  lemma IfSteps(fs0: FS, c: Expr, yes: Block)
    requires CompileStmt(fs0, If(c, yes)).Ok?
    ensures Compile(fs0, c).Ok? && GoIfTrue(Compile(fs0, c).value.0, Compile(fs0, c).value.1).Ok?
    ensures var (fs2, y) := GoIfTrue(Compile(fs0, c).value.0, Compile(fs0, c).value.1).value;
            && CompileBlock(fs2, yes).Ok?
            && CompileStmt(fs0, If(c, yes)) == Ok(PatchToHere(PatchToHere(Free(CompileBlock(fs2, yes).value,
               fs2.nactvar), y.f), []))
  {
    hide Compile, GoIfTrue, CompileBlock, PatchToHere;
  }

  // Sending no jump here.
  lemma HereAgain(outer: set<nat>, fs0: FS, fs: FS)
    requires Grown(outer, fs0, fs) && !Mergeable(fs)
    ensures var fs1 := PatchToHere(fs, []);
            fs1.jpc == fs.jpc && fs1.code == fs.code && Grown(outer, fs0, fs1) && !Mergeable(fs1)
              && fs1.nactvar == fs.nactvar
  {
    hide OnlyFall, Bounded, Elems, Distinct, Pending, SameTests;
    assert fs.jpc + [] == fs.jpc;
  }

  lemma {:induction false} IfElseGrown(outer: set<nat>, fs0: FS, c: Expr, yes: Block, no: Block)
    returns (fs2: FS, y: Exp, fs3: FS, fs5: FS, escape: seq<nat>, fs6: FS)
    requires Base(outer, fs0) && Closed(c, fs0.nactvar) && ClosedBlock(yes, fs0.nactvar) && ClosedBlock(no, fs0.nactvar)
    requires CompileStmt(fs0, IfElse(c, yes, no)).Ok?
    ensures Compile(fs0, c).Ok? && GoIfTrue(Compile(fs0, c).value.0, Compile(fs0, c).value.1) == Ok((fs2, y))
            && CompileBlock(fs2, yes) == Ok(fs3)
    ensures Base(outer + Elems(y.f), fs2) && !Mergeable(fs2) && Distinct(y.f) && outer !! Elems(y.f)
            && fs2.nactvar == fs0.nactvar
    ensures |fs0.code| <= |fs2.code| && Base(outer + Elems(y.f), fs3) && fs3.nactvar >= fs0.nactvar
    ensures var (fs4, list) := Jump(Free(fs3, fs0.nactvar)); list == escape && fs5 == PatchToHere(fs4, y.f)
    ensures Base(outer + Elems(escape), fs5) && !Mergeable(fs5) && Distinct(escape)
            && outer + Elems(y.f) !! Elems(escape)
    ensures fs5.nactvar == fs0.nactvar && |fs0.code| <= |fs5.code|
    ensures CompileBlock(fs5, no) == Ok(fs6) && Base(outer + Elems(escape), fs6) && fs6.nactvar >= fs0.nactvar
    ensures CompileStmt(fs0, IfElse(c, yes, no)) == Ok(PatchToHere(Free(fs6, fs0.nactvar), escape))
    ensures Grown(outer, fs0, CompileStmt(fs0, IfElse(c, yes, no)).value)
            && CompileStmt(fs0, IfElse(c, yes, no)).value.nactvar == fs0.nactvar
    decreases IfElse(c, yes, no), 0
  {
    hide *;
    IfElseSteps(fs0, c, yes, no);
    fs2, y, fs3 := PartGrown(outer, fs0, c, yes);
    var (fs4, list) := Jump(Free(fs3, fs0.nactvar));
    escape, fs5 := list, PatchToHere(fs4, y.f);
    MiddleGrown(outer, fs0, fs3, y.f);
    fs6 := CompileBlock(fs5, no).value;
    BlockGrown(outer + Elems(escape), fs5, no);
    GrownBase(outer + Elems(escape), fs5, fs6);
    SameTestsPart(outer, Elems(escape), fs5.code, fs6.code);
    SameTestsTrans(outer, fs0.code, fs5.code, fs6.code);
    EndPart(outer, fs0, fs6, fs0.nactvar, escape);
  }

  // Between the parts of an if: a jump over the second, and the false list here.
  lemma MiddleGrown(outer: set<nat>, fs0: FS, fs3: FS, list: seq<nat>)
    requires Base(outer + Elems(list), fs3) && fs0.nactvar <= fs3.nactvar && Distinct(list) && outer !! Elems(list)
    requires SameTests(outer, fs0.code, fs3.code) && |fs0.code| <= |fs3.code|
    ensures var (fs4, escape) := Jump(Free(fs3, fs0.nactvar)); var fs5 := PatchToHere(fs4, list);
            && Base(outer + Elems(list) + Elems(escape), fs4)
            && Base(outer + Elems(escape), fs5) && !Mergeable(fs5) && Distinct(escape)
               && outer + Elems(list) !! Elems(escape)
            && fs5.nactvar == fs0.nactvar && |fs0.code| <= |fs5.code| && SameTests(outer, fs0.code, fs5.code)
  {
    hide *;
    FreeBase(outer + Elems(list), fs3, fs0.nactvar);
    var g := Free(fs3, fs0.nactvar);
    FreeCode(fs3, fs0.nactvar);
    JumpShape(outer + Elems(list), g);
    var (fs4, escape) := Jump(g);
    SameTestsPart(outer, Elems(list), g.code, fs4.code);
    SameTestsTrans(outer, fs0.code, fs3.code, fs4.code);
    assert outer + Elems(list) + Elems(escape) == outer + Elems(escape) + Elems(list);
    HereBase(outer + Elems(escape), fs4, list);
    JumpVars(g);
  }

  lemma FreeCode(fs: FS, n: nat)
    ensures Free(fs, n).code == fs.code && Free(fs, n).jpc == fs.jpc && Free(fs, n).nactvar == n
  {
  }

  lemma JumpVars(fs: FS)
    ensures Jump(fs).0.nactvar == fs.nactvar
  {
  }

  lemma HereBase(outer: set<nat>, fs: FS, list: seq<nat>)
    requires Base(outer + Elems(list), fs) && Distinct(list) && outer !! Elems(list)
    ensures var fs1 := PatchToHere(fs, list);
            Base(outer, fs1) && !Mergeable(fs1) && fs1.code == fs.code
            && fs1.nactvar == fs.nactvar
  {
    JoinHere(outer, fs, list);
    hide Bounded, Elems, Distinct, Pending;
  }

  lemma IfElseSteps(fs0: FS, c: Expr, yes: Block, no: Block)
    requires CompileStmt(fs0, IfElse(c, yes, no)).Ok?
    ensures Compile(fs0, c).Ok? && GoIfTrue(Compile(fs0, c).value.0, Compile(fs0, c).value.1).Ok?
    ensures var (fs2, y) := GoIfTrue(Compile(fs0, c).value.0, Compile(fs0, c).value.1).value;
            && CompileBlock(fs2, yes).Ok?
            && var (fs4, escape) := Jump(Free(CompileBlock(fs2, yes).value, fs2.nactvar));
               var fs5 := PatchToHere(fs4, y.f);
               && CompileBlock(fs5, no).Ok?
               && CompileStmt(fs0, IfElse(c, yes, no)) == Ok(PatchToHere(Free(CompileBlock(fs5, no).value,
                  fs5.nactvar), escape))
  {
    hide Compile, GoIfTrue, CompileBlock, PatchToHere, Jump;
  }

  // ---------- blocks do what their statements do ----------

  // Follows for a run o0: RunStmt or RunBlock applied where o0 fell through.
  ghost predicate StmtDone(cmp: Compare, s: Stmt, n: nat, o0: Outcome, o: Outcome) {
    Follows(o0, n + NewLocals(s), if o0.Fall? then RunStmt(cmp, s, n, o0.R) else [], o)
  }

  ghost predicate BlockDone(cmp: Compare, b: Block, n: nat, o0: Outcome, o: Outcome) {
    Follows(o0, Scope(b, n), if o0.Fall? then RunBlock(cmp, b, n, o0.R) else [], o)
  }

  lemma {:induction false} StmtFollows(cmp: Compare, outer: set<nat>, fs0: FS, s: Stmt, pc: nat, R: Regs)
    requires Base(outer, fs0) && ClosedStmt(s, fs0.nactvar) && CompileStmt(fs0, s).Ok?
    requires Entry(outer, fs0, pc) && GoodRegs(Run0(cmp, outer, fs0, pc, R))
    ensures StmtDone(cmp, s, fs0.nactvar, Run0(cmp, outer, fs0, pc, R),
            Run0(cmp, outer, CompileStmt(fs0, s).value, pc, R))
    decreases s, 1
  {
    hide Base, CompileStmt, ClosedBlock, Run0, RunStmt, Entry, Follows;
    match s
    case Assign(r, e) => AssignFollows(cmp, outer, fs0, r, e, pc, R);
    case Local(e) => LocalFollows(cmp, outer, fs0, e, pc, R);
    case LocalNil =>
      LocalNilIsLocal(fs0);
      LocalFollows(cmp, outer, fs0, ENil, pc, R);
      NilMeansNil(cmp, fs0.nactvar);
    case If(c, yes) => IfFollows(cmp, outer, fs0, c, yes, pc, R);
    case IfElse(c, yes, no) => IfElseFollows(cmp, outer, fs0, c, yes, no, pc, R);
  }

  lemma NilMeansNil(cmp: Compare, n: nat)
    ensures forall R :: RunStmt(cmp, Local(ENil), n, R) == RunStmt(cmp, LocalNil, n, R)
  {
  }

  lemma {:induction false} BlockFollows(cmp: Compare, outer: set<nat>, fs0: FS, b: Block, pc: nat, R: Regs)
    requires Base(outer, fs0) && ClosedBlock(b, fs0.nactvar) && CompileBlock(fs0, b).Ok?
    requires Entry(outer, fs0, pc) && GoodRegs(Run0(cmp, outer, fs0, pc, R))
    ensures BlockDone(cmp, b, fs0.nactvar, Run0(cmp, outer, fs0, pc, R),
            Run0(cmp, outer, CompileBlock(fs0, b).value, pc, R))
    decreases b, 0
  {
    hide *;
    var o0, n := Run0(cmp, outer, fs0, pc, R), fs0.nactvar;
    if b.Done? {
      DoneGrown(outer, fs0, b);
      DoneFollows(cmp, b, n, o0);
    } else if !o0.Stuck? {
      BlockSteps(fs0, b);
      StmtGrown(outer, fs0, b.first);
      var fs1 := CompileStmt(fs0, b.first).value;
      GrownBase(outer, fs0, fs1);
      StmtFollows(cmp, outer, fs0, b.first, pc, R);
      var o1 := Run0(cmp, outer, fs1, pc, R);
      DoneRegs(cmp, b.first, n, o0, o1);
      BlockFollows(cmp, outer, fs1, b.rest, pc, R);
      ThenFollows(cmp, b, n, o0, o1, Run0(cmp, outer, CompileBlock(fs0, b).value, pc, R));
    } else {
      StuckFollows(cmp, b, n, Run0(cmp, outer, CompileBlock(fs0, b).value, pc, R));
    }
  }

  lemma StuckFollows(cmp: Compare, b: Block, n: nat, o: Outcome)
    ensures BlockDone(cmp, b, n, Stuck, o)
  {
  }

  lemma DoneFollows(cmp: Compare, b: Block, n: nat, o0: Outcome)
    requires b.Done?
    ensures BlockDone(cmp, b, n, o0, o0)
  {
  }

  lemma DoneRegs(cmp: Compare, s: Stmt, n: nat, o0: Outcome, o1: Outcome)
    requires StmtDone(cmp, s, n, o0, o1) && !o0.Stuck? && GoodRegs(o0)
    ensures GoodRegs(o1)
  {
    hide RunStmt;
  }

  lemma ThenFollows(cmp: Compare, b: Block, n: nat, o0: Outcome, o1: Outcome, o2: Outcome)
    requires b.Then? && ClosedBlock(b, n) && StmtDone(cmp, b.first, n, o0, o1) && !o0.Stuck? && GoodRegs(o0)
    requires BlockDone(cmp, b.rest, n + NewLocals(b.first), o1, o2)
    ensures BlockDone(cmp, b, n, o0, o2)
  {
    hide RunStmt, RunBlock, ClosedStmt, ClosedBlock, Scope, Agree;
    match o0
    case Fall(R1) =>
      RunSteps(cmp, b, n, R1);
      var S, m := RunStmt(cmp, b.first, n, R1), n + NewLocals(b.first);
      AgreeItself(R1, n);
      StmtAgrees(cmp, b.first, n, R1, R1);
      BlockAgrees(cmp, b.rest, m, S, o1.R);
      AgreeTrans(RunBlock(cmp, b.rest, m, S), RunBlock(cmp, b.rest, m, o1.R), o2.R, Scope(b, n));
    case Exit(_, _) =>
  }

  lemma RunSteps(cmp: Compare, b: Block, n: nat, R: Regs)
    requires b.Then? && ClosedBlock(b, n)
    ensures RunBlock(cmp, b, n, R) == RunBlock(cmp, b.rest, n + NewLocals(b.first), RunStmt(cmp, b.first, n, R))
    ensures Scope(b, n) == Scope(b.rest, n + NewLocals(b.first))
    ensures ClosedStmt(b.first, n) && ClosedBlock(b.rest, n + NewLocals(b.first))
  {
    hide RunStmt, ClosedStmt;
  }

  lemma AgreeItself(R: Regs, n: nat)
    ensures Agree(R, R, n)
  {
  }

  lemma AgreeTrans(R: Regs, R': Regs, R'': Regs, n: nat)
    requires Agree(R, R', n) && Agree(R', R'', n)
    ensures Agree(R, R'', n)
  {
  }

  lemma {:induction false} IfFollows(cmp: Compare, outer: set<nat>, fs0: FS, c: Expr, yes: Block, pc: nat, R: Regs)
    requires Base(outer, fs0) && Closed(c, fs0.nactvar) && ClosedBlock(yes, fs0.nactvar)
             && CompileStmt(fs0, If(c, yes)).Ok?
    requires Entry(outer, fs0, pc) && GoodRegs(Run0(cmp, outer, fs0, pc, R))
    ensures StmtDone(cmp, If(c, yes), fs0.nactvar, Run0(cmp, outer, fs0, pc, R),
            Run0(cmp, outer, CompileStmt(fs0, If(c, yes)).value, pc, R))
    decreases yes, 2
  {
    hide *;
    var n, o0 := fs0.nactvar, Run0(cmp, outer, fs0, pc, R);
    var fs2, y, fs3 := IfGrown(outer, fs0, c, yes);
    var o2, o3 := Run0(cmp, outer + Elems(y.f), fs2, pc, R), Run0(cmp, outer + Elems(y.f), fs3, pc, R);
    PartFollows(cmp, outer, fs0, c, yes, fs2, y, fs3, pc, R);
    EndPartExec(cmp, outer, fs3, n, y.f, pc, R);
    RunHereAgain(cmp, outer, PatchToHere(Free(fs3, n), y.f), pc, R);
    OuterExit(cmp, outer, fs0, pc, R);
    IfDone(cmp, c, yes, n, outer, Elems(y.f), o0, o2, o3, Run0(cmp, outer, CompileStmt(fs0, If(c, yes)).value, pc, R));
  }

  // The condition and the first part.
  lemma {:induction false} PartFollows(cmp: Compare, outer: set<nat>, fs0: FS, c: Expr, yes: Block, fs2: FS, y: Exp,
      fs3: FS, pc: nat, R: Regs)
    requires Base(outer, fs0) && Closed(c, fs0.nactvar) && ClosedBlock(yes, fs0.nactvar) && Compile(fs0, c).Ok?
    requires GoIfTrue(Compile(fs0, c).value.0, Compile(fs0, c).value.1) == Ok((fs2, y))
             && CompileBlock(fs2, yes) == Ok(fs3)
    requires Base(outer + Elems(y.f), fs2) && !Mergeable(fs2) && fs2.nactvar == fs0.nactvar && |fs0.code| <= |fs2.code|
    requires Entry(outer, fs0, pc) && GoodRegs(Run0(cmp, outer, fs0, pc, R))
    ensures var o0, o2, o3 := Run0(cmp, outer, fs0, pc, R), Run0(cmp, outer + Elems(y.f), fs2, pc, R),
            Run0(cmp, outer + Elems(y.f), fs3, pc, R);
            && Chosen(o0, fs0.nactvar, o0.Fall? && !IsFalse(Eval(cmp, c, o0.R)), Elems(y.f), o2)
            && (!o0.Stuck? ==> GoodRegs(o2) && BlockDone(cmp, yes, fs0.nactvar, o2, o3))
    decreases yes, 1
  {
    hide *;
    var o0 := Run0(cmp, outer, fs0, pc, R);
    CondFollows(cmp, outer, fs0, c, pc, R);
    if !o0.Stuck? {
      var o2 := Run0(cmp, outer + Elems(y.f), fs2, pc, R);
      ChosenRegs(o0, fs0.nactvar, o0.Fall? && !IsFalse(Eval(cmp, c, o0.R)), Elems(y.f), o2);
      EntryAfter(outer, fs0, outer + Elems(y.f), fs2, pc);
      BlockFollows(cmp, outer + Elems(y.f), fs2, yes, pc, R);
    }
  }

  lemma ChosenRegs(o0: Outcome, n: nat, truth: bool, js: set<nat>, o: Outcome)
    requires Chosen(o0, n, truth, js, o) && !o0.Stuck? && GoodRegs(o0)
    ensures GoodRegs(o)
  {
  }

  lemma EntryAfter(outer: set<nat>, fs0: FS, outer1: set<nat>, fs1: FS, pc: nat)
    requires Entry(outer, fs0, pc) && !Mergeable(fs1) && |fs0.code| <= |fs1.code|
    ensures Entry(outer1, fs1, pc)
  {
    hide OnlyFall;
  }

  lemma EndPartExec(cmp: Compare, outer: set<nat>, fs3: FS, n: nat, list: seq<nat>, pc: nat, R: Regs)
    requires Base(outer + Elems(list), fs3) && n <= fs3.nactvar && Distinct(list) && outer !! Elems(list)
    ensures Run0(cmp, outer, PatchToHere(Free(fs3, n), list), pc, R) ==
            match Run0(cmp, outer + Elems(list), fs3, pc, R)
            case Exit(j, R2) => if j in Elems(list) then Fall(R2) else Exit(j, R2)
            case o => o
  {
    FreeBase(outer + Elems(list), fs3, n);
    hide Bounded, Elems, Distinct, Pending, Exec;
    JoinHereExec(cmp, outer, Free(fs3, n), list, pc, R);
  }

  lemma RunHereAgain(cmp: Compare, outer: set<nat>, fs: FS, pc: nat, R: Regs)
    ensures Run0(cmp, outer, PatchToHere(fs, []), pc, R) == Run0(cmp, outer, fs, pc, R)
  {
    hide Exec, Elems;
    assert fs.jpc + [] == fs.jpc;
  }

  lemma OuterExit(cmp: Compare, outer: set<nat>, fs: FS, pc: nat, R: Regs)
    ensures var o := Run0(cmp, outer, fs, pc, R); o.Exit? ==> o.j in outer
  {
    ExitsOnly(cmp, Prog(fs.code, outer, Elems(fs.jpc)), pc, R);
    hide Exec, Elems;
  }

  lemma IfDone(cmp: Compare, c: Expr, yes: Block, n: nat, outer: set<nat>, js: set<nat>, o0: Outcome, o2: Outcome,
      o3: Outcome, o: Outcome)
    requires ClosedBlock(yes, n) && Chosen(o0, n, o0.Fall? && !IsFalse(Eval(cmp, c, o0.R)), js, o2)
    requires GoodRegs(o0) && (!o0.Stuck? ==> BlockDone(cmp, yes, n, o2, o3)) && (o0.Exit? ==> o0.j in outer)
             && outer !! js
    requires o == match o3 case Exit(j, R2) => (if j in js then Fall(R2) else Exit(j, R2)) case _ => o3
    ensures StmtDone(cmp, If(c, yes), n, o0, o)
  {
    hide RunBlock, Eval, ClosedBlock;
    match o0
    case Fall(R1) => if o2.Fall? { BlockAgrees(cmp, yes, n, R1, o2.R); }
    case _ =>
  }

  lemma {:induction false} IfElseFollows(cmp: Compare, outer: set<nat>, fs0: FS, c: Expr, yes: Block, no: Block,
      pc: nat, R: Regs)
    requires Base(outer, fs0) && Closed(c, fs0.nactvar) && ClosedBlock(yes, fs0.nactvar) && ClosedBlock(no, fs0.nactvar)
    requires CompileStmt(fs0, IfElse(c, yes, no)).Ok?
    requires Entry(outer, fs0, pc) && GoodRegs(Run0(cmp, outer, fs0, pc, R))
    ensures StmtDone(cmp, IfElse(c, yes, no), fs0.nactvar, Run0(cmp, outer, fs0, pc, R),
                     Run0(cmp, outer, CompileStmt(fs0, IfElse(c, yes, no)).value, pc, R))
    decreases IfElse(c, yes, no), 0
  {
    hide *;
    var n, o0 := fs0.nactvar, Run0(cmp, outer, fs0, pc, R);
    var fs2, y, fs3, fs5, escape, fs6 := IfElseGrown(outer, fs0, c, yes, no);
    var js, ks := Elems(y.f), Elems(escape);
    var o2, o3 := Run0(cmp, outer + js, fs2, pc, R), Run0(cmp, outer + js, fs3, pc, R);
    var o5, o6 := Run0(cmp, outer + ks, fs5, pc, R), Run0(cmp, outer + ks, fs6, pc, R);
    PartFollows(cmp, outer, fs0, c, yes, fs2, y, fs3, pc, R);
    OuterExit(cmp, outer, fs0, pc, R);
    if o0.Stuck? {
      StuckDone(cmp, IfElse(c, yes, no), n, Run0(cmp, outer, CompileStmt(fs0, IfElse(c, yes, no)).value, pc, R));
    } else {
      FirstPart(cmp, yes, n, o0, o0.Fall? && !IsFalse(Eval(cmp, c, o0.R)), js, o2, o3);
      MiddleExec(cmp, outer, fs3, n, y.f, pc, R);
      MiddleRegs(o0, o3, outer, js, ks, o5);
      EntryAfter(outer, fs0, outer + ks, fs5, pc);
      BlockFollows(cmp, outer + ks, fs5, no, pc, R);
      EndPartExec(cmp, outer, fs6, n, escape, pc, R);
      IfElseDone(cmp, c, yes, no, n, outer, js, ks, o0, o2, o3, o5, o6,
        Run0(cmp, outer, CompileStmt(fs0, IfElse(c, yes, no)).value, pc, R));
    }
  }

  lemma StuckDone(cmp: Compare, s: Stmt, n: nat, o: Outcome)
    ensures StmtDone(cmp, s, n, Stuck, o)
  {
  }

  lemma FirstPart(cmp: Compare, yes: Block, n: nat, o0: Outcome, truth: bool, js: set<nat>, o2: Outcome, o3: Outcome)
    requires Chosen(o0, n, truth, js, o2) && BlockDone(cmp, yes, n, o2, o3) && !o0.Stuck? && GoodRegs(o0)
    ensures !o3.Stuck? && GoodRegs(o3) && (o3.Exit? && o0.Fall? ==> |o3.R| >= MAXREGS) && (o0.Exit? ==> o3 == o0)
  {
    hide RunBlock;
  }

  // After the jump over the second part: whoever finished the first part has
  // left, whoever skipped it is here.
  ghost predicate Swapped(o3: Outcome, js: set<nat>, ks: set<nat>, o5: Outcome) {
    match o3
    case Stuck => true
    case Fall(R) => o5.Exit? && o5.j in ks && o5.R == R
    case Exit(j, R) => o5 == if j in js then Fall(R) else o3
  }

  lemma MiddleExec(cmp: Compare, outer: set<nat>, fs3: FS, n: nat, list: seq<nat>, pc: nat, R: Regs)
    requires Base(outer + Elems(list), fs3) && n <= fs3.nactvar && Distinct(list) && outer !! Elems(list)
    requires Run0(cmp, outer + Elems(list), fs3, pc, R) != Stuck
    ensures var (fs4, escape) := Jump(Free(fs3, n)); var fs5 := PatchToHere(fs4, list);
            Swapped(Run0(cmp, outer + Elems(list), fs3, pc, R), Elems(list), Elems(escape),
              Run0(cmp, outer + Elems(escape), fs5, pc, R))
  {
    hide *;
    var g := Free(fs3, n);
    var (fs4, escape) := Jump(g);
    FreeBase(outer + Elems(list), fs3, n);
    RunFree(cmp, outer + Elems(list), fs3, n, pc, R);
    JumpShape(outer + Elems(list), g);
    JumpExec(cmp, outer + Elems(list), g, pc, R);
    assert outer + Elems(list) + Elems(escape) == outer + Elems(escape) + Elems(list);
    BaseParts(outer + Elems(escape) + Elems(list), fs4);
    JoinHereExec(cmp, outer + Elems(escape), fs4, list, pc, R);
    OuterExit(cmp, outer + Elems(list), fs3, pc, R);
    SwapEnds(Run0(cmp, outer + Elems(list), fs3, pc, R), outer, Elems(list), Elems(escape),
             Run0(cmp, outer + Elems(list) + Elems(escape), fs4, pc, R),
             Run0(cmp, outer + Elems(escape), PatchToHere(fs4, list), pc, R));
  }

  lemma SwapEnds(o3: Outcome, outer: set<nat>, js: set<nat>, ks: set<nat>, o4: Outcome, o5: Outcome)
    requires if o3.Fall? then o4.Exit? && o4.j in ks && o4.R == o3.R else o4 == o3
    requires o5 == match o4 case Exit(j, R2) => (if j in js then Fall(R2) else Exit(j, R2)) case _ => o4
    requires (outer + js) !! ks && (o3.Exit? ==> o3.j in outer + js)
    ensures Swapped(o3, js, ks, o5)
  {
  }

  lemma RunFree(cmp: Compare, outer: set<nat>, fs: FS, n: nat, pc: nat, R: Regs)
    ensures Run0(cmp, outer, Free(fs, n), pc, R) == Run0(cmp, outer, fs, pc, R)
  {
    hide Exec, Elems;
  }

  lemma MiddleRegs(o0: Outcome, o3: Outcome, outer: set<nat>, js: set<nat>, ks: set<nat>, o5: Outcome)
    requires Swapped(o3, js, ks, o5) && !o3.Stuck? && GoodRegs(o3)
             && (o0.Exit? ==> o3 == o0 && o0.j in outer && outer !! js)
    requires o3.Exit? && o0.Fall? ==> |o3.R| >= MAXREGS
    requires !o0.Stuck?
    ensures GoodRegs(o5)
  {
  }

  lemma IfElseDone(cmp: Compare, c: Expr, yes: Block, no: Block, n: nat, outer: set<nat>, js: set<nat>, ks: set<nat>,
                   o0: Outcome, o2: Outcome, o3: Outcome, o5: Outcome, o6: Outcome, o: Outcome)
    requires ClosedBlock(yes, n) && ClosedBlock(no, n) && Chosen(o0, n, o0.Fall? && !IsFalse(Eval(cmp, c, o0.R)), js,
             o2)
    requires GoodRegs(o0) && !o0.Stuck? && BlockDone(cmp, yes, n, o2, o3) && Swapped(o3, js, ks, o5)
             && BlockDone(cmp, no, n, o5, o6)
    requires (o0.Exit? ==> o0.j in outer) && outer !! js && (outer + js) !! ks
    requires o == match o6 case Exit(j, R2) => (if j in ks then Fall(R2) else Exit(j, R2)) case _ => o6
    ensures StmtDone(cmp, IfElse(c, yes, no), n, o0, o)
  {
    hide RunBlock, Eval, ClosedBlock;
    match o0
    case Fall(R1) =>
      if o2.Fall? { BlockAgrees(cmp, yes, n, R1, o2.R); } else { BlockAgrees(cmp, no, n, R1, o2.R); }
    case _ =>
  }

  // ---------- whole functions ----------

  // open_func
  const EMPTY: FS := FS([], [], 0, 0, 2, 0)

  // A function body compiled from scratch and run from its first instruction:
  // it reaches its end with every local variable as the statements leave it.
  lemma FunctionCorrect(cmp: Compare, b: Block, R: Regs)
    requires ClosedBlock(b, 0) && CompileBlock(EMPTY, b).Ok? && |R| >= MAXREGS
    ensures var fs := CompileBlock(EMPTY, b).value; var o := Exec(cmp, Prog(fs.code, {}, Elems(fs.jpc)), 0, R);
            && o.Fall? && fs.nactvar == Scope(b, 0)
            && forall r :: 0 <= r < Scope(b, 0) ==> Get(o.R, r) == Get(RunBlock(cmp, b, 0, R), r)
  {
    NoElems();
    assert Base({}, EMPTY) && Entry({}, EMPTY, 0);
    assert Run0(cmp, {}, EMPTY, 0, R) == Fall(R);
    BlockGrown({}, EMPTY, b);
    BlockFollows(cmp, {}, EMPTY, b, 0, R);
    hide CompileBlock, RunBlock, Exec;
  }
}
