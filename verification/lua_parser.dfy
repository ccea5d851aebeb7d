// The statement parser's calls of the code generator, and whole functions.
module LuaParser {
  import opened LuaVM
  import opened LuaExec
  import opened LuaCorrect
  import opened LuaLists
  import LuaGen
  import opened LuaCompile
  import opened LuaBound
  import LuaBlock
  import LuaLimits
  import opened LuaCode
  import opened LuaOperators

  type Stmt = LuaBlock.Stmt
  type Block = LuaBlock.Block

  // The registers above n locals are free: the end of a statement or a block.
  method Free(fs: FuncState, n: nat, ghost waiting: set<nat>)
    requires fs.Rep(waiting)
    modifies fs`nactvar, fs`freereg, fs`model
    ensures fs.model == LuaBlock.Free(old(fs.model), n) && fs.Rep(waiting)
  {
    hide IsList, Elems, Reps;
    fs.nactvar, fs.freereg := n, n;
    fs.model := LuaBlock.Free(fs.model, n);
  }

  // What statements and blocks promise.
  ghost predicate Grew(fs: FuncState, outer: set<nat>, code0: seq<Instr>)
    reads fs
  {
    fs.Rep(outer) && Kept(code0, fs.code, outer)
  }

  lemma BlockParts(outer: set<nat>, fs: FS)
    requires LuaBlock.Base(outer, fs)
    ensures Sound(outer, {}, fs) && Distinct(fs.jpc) && Elems(fs.jpc) !! outer && Bounded(fs.code)
  {
    SoundPending(outer, {}, fs);
    assert outer + {} == outer;
  }

  // exprstat and restassign for one local variable
  method Assign(fs: FuncState, reg: nat, e: Expr, ghost outer: set<nat>) returns (r: Result<()>)
    requires fs.Rep(outer) && LuaBlock.Base(outer, fs.model) && Closed(e, fs.model.nactvar)
    modifies fs
    ensures Raised(r, LuaBlock.CompileStmt(old(fs.model), LuaBlock.Assign(reg, e)), |fs.code|)
    ensures r.Ok? ==>
            LuaBlock.CompileStmt(old(fs.model), LuaBlock.Assign(reg, e)) == LuaGen.Ok(fs.model)
            && Grew(fs, outer, old(fs.code))
  {
    hide IsList, Elems, Distinct, Kept, Shape, Reps, Sound, LuaGen.Compile, LuaGen.StoreLocal, Bounded;
    BlockParts(outer, fs.model);
    ghost var m0, code0 := fs.model, fs.code;
    var d :- Compile(fs, e, outer);
    ghost var x, code1 := LuaGen.Compile(m0, e).value.1, fs.code;
    var _ :- StoreLocal(fs, reg, d, outer, x);
    KeptTrans(code0, code1, fs.code, outer);
    Free(fs, fs.nactvar, outer);
    return LuaGen.Ok(());
  }

  // localstat with one name and a value
  method Local(fs: FuncState, e: Expr, ghost outer: set<nat>) returns (r: Result<()>)
    requires fs.Rep(outer) && LuaBlock.Base(outer, fs.model) && Closed(e, fs.model.nactvar)
    modifies fs
    ensures Raised(r, LuaBlock.CompileStmt(old(fs.model), LuaBlock.Local(e)), |fs.code|)
    ensures r.Ok? ==>
            LuaBlock.CompileStmt(old(fs.model), LuaBlock.Local(e)) == LuaGen.Ok(fs.model)
            && Grew(fs, outer, old(fs.code))
  {
    hide IsList, Elems, Distinct, Kept, Shape, Reps, Sound, LuaGen.Compile, LuaGen.ExpToNextReg, Bounded;
    BlockParts(outer, fs.model);
    ghost var m0, code0 := fs.model, fs.code;
    if fs.nactvar + 1 > LuaBlock.MAXVARS {
      return LuaGen.TooManyLocals;
    }
    var d :- Compile(fs, e, outer);
    ghost var x, code1 := LuaGen.Compile(m0, e).value.1, fs.code;
    var _ :- ExpToNextReg(fs, d, outer, x);
    KeptTrans(code0, code1, fs.code, outer);
    Free(fs, fs.nactvar + 1, outer);
    return LuaGen.Ok(());
  }

  // localstat with one name and no value
  method LocalNil(fs: FuncState, ghost outer: set<nat>) returns (r: Result<()>)
    requires fs.Rep(outer) && LuaBlock.Base(outer, fs.model)
    modifies fs
    ensures Raised(r, LuaBlock.CompileStmt(old(fs.model), LuaBlock.LocalNil), |fs.code|)
    ensures r.Ok? ==>
            LuaBlock.CompileStmt(old(fs.model), LuaBlock.LocalNil) == LuaGen.Ok(fs.model)
            && Grew(fs, outer, old(fs.code))
  {
    hide IsList, Elems, Distinct, Kept, Shape, Reps, Sound, LuaGen.EmitNil, Bounded;
    BlockParts(outer, fs.model);
    if fs.nactvar + 1 > LuaBlock.MAXVARS {
      return LuaGen.TooManyLocals;
    }
    var reg := fs.freereg;
    r := ReserveReg(fs, outer);
    if r.Ok? { r := LuaCode.Nil(fs, reg, outer); }
    if r.Ok? { Free(fs, fs.nactvar + 1, outer); }
  }

  method CompileStmt(fs: FuncState, s: Stmt, ghost outer: set<nat>) returns (r: Result<()>)
    requires fs.Rep(outer) && LuaBlock.Base(outer, fs.model) && LuaBlock.ClosedStmt(s, fs.model.nactvar)
    modifies fs
    ensures Raised(r, LuaBlock.CompileStmt(old(fs.model), s), |fs.code|)
    ensures r.Ok? ==> LuaBlock.CompileStmt(old(fs.model), s) == LuaGen.Ok(fs.model) && Grew(fs, outer, old(fs.code))
    decreases s, 1
  {
    hide IsList, Elems, Distinct, Kept, Shape, Reps, Sound, Bounded, LuaBlock.CompileStmt;
    match s {
      case Assign(reg, e) => r := Assign(fs, reg, e, outer);
      case Local(e) => r := Local(fs, e, outer);
      case LocalNil => r := LocalNil(fs, outer);
      case If(c, yes) => r := CompileIf(fs, c, yes, outer);
      case IfElse(c, yes, no) => r := CompileIfElse(fs, c, yes, no, outer);
    }
  }

  // statlist
  method CompileBlock(fs: FuncState, b: Block, ghost outer: set<nat>) returns (r: Result<()>)
    requires fs.Rep(outer) && LuaBlock.Base(outer, fs.model) && LuaBlock.ClosedBlock(b, fs.model.nactvar)
    modifies fs
    ensures Raised(r, LuaBlock.CompileBlock(old(fs.model), b), |fs.code|)
    ensures r.Ok? ==> LuaBlock.CompileBlock(old(fs.model), b) == LuaGen.Ok(fs.model) && Grew(fs, outer, old(fs.code))
    decreases b, 0
  {
    hide IsList, Elems, Distinct, Kept, Shape, Reps, Sound, Bounded, LuaBlock.CompileStmt, LuaBlock.ClosedStmt,
         LuaBlock.Base;
    ghost var m0, code0 := fs.model, fs.code;
    match b {
      case Done =>
        KeptItself(fs.code, outer);
        return LuaGen.Ok(());
      case Then(s, rest) =>
        var _ :- CompileStmt(fs, s, outer);
        ghost var code1 := fs.code;
        LuaBlock.StmtGrown(outer, m0, s);
        LuaBlock.GrownBase(outer, m0, fs.model);
        var _ :- CompileBlock(fs, rest, outer);
        KeptTrans(code0, code1, fs.code, outer);
        return LuaGen.Ok(());
    }
  }

  // The condition of an if and the block after it; the false list is left waiting.
  method CompilePart(fs: FuncState, c: Expr, yes: Block, ghost outer: set<nat>) returns (r: Result<int>)
    requires fs.Rep(outer) && LuaBlock.Base(outer, fs.model) && Closed(c, fs.model.nactvar)
             && LuaBlock.ClosedBlock(yes, fs.model.nactvar)
    modifies fs
    ensures Raised(r, Part(old(fs.model), c, yes), |fs.code|)
    ensures r.Ok? ==>
      var (m, y) := Part(old(fs.model), c, yes).value;
      fs.model == m && fs.Rep(outer + Elems(y.f)) && IsList(fs.code, r.value, y.f) && Kept(old(fs.code), fs.code, outer)
    decreases yes, 1
  {
    hide IsList, Elems, Distinct, Kept, Shape, Reps, Sound, LuaGen.Compile, LuaGen.GoIfTrue, Bounded,
         LuaBlock.CompileBlock, LuaBlock.Base;
    ghost var m0, code0 := fs.model, fs.code;
    BlockParts(outer, m0);
    var d :- Compile(fs, c, outer);
    ghost var m1, x, code1 := fs.model, LuaGen.Compile(m0, c).value.1, fs.code;
    var w :- GoIfTrue(fs, d, outer, x);
    ghost var y, code2 := LuaGen.GoIfTrue(m1, x).value.1, fs.code;
    LuaBlock.CondGrown(outer, m0, c);
    var level := fs.nactvar;
    var _ :- CompileBlock(fs, yes, outer + Elems(y.f));
    KeptList(code2, fs.code, outer + Elems(y.f), w.f, y.f);
    KeptPart(code2, fs.code, outer, Elems(y.f));
    KeptTrans(code0, code1, code2, outer);
    KeptTrans(code0, code2, fs.code, outer);
    Free(fs, level, outer + Elems(y.f));
    return LuaGen.Ok(w.f);
  }

  function Part(fs: FS, c: Expr, yes: Block): Result<(FS, Exp)> {
    var (fs1, x) :- LuaGen.Compile(fs, c);
    var (fs2, y) :- LuaGen.GoIfTrue(fs1, x);
    var fs3 :- LuaBlock.CompileBlock(fs2, yes);
    LuaGen.Ok((LuaBlock.Free(fs3, fs2.nactvar), y))
  }

  lemma PartFacts(outer: set<nat>, fs0: FS, c: Expr, yes: Block)
    requires LuaBlock.Base(outer, fs0) && Closed(c, fs0.nactvar) && LuaBlock.ClosedBlock(yes, fs0.nactvar)
             && Part(fs0, c, yes).Ok?
    ensures var (g, y) := Part(fs0, c, yes).value;
            && LuaBlock.Base(outer + Elems(y.f), g) && Distinct(y.f) && outer !! Elems(y.f) && g.nactvar == fs0.nactvar
            && SameTests(outer, fs0.code, g.code) && |fs0.code| <= |g.code|
  {
    PartSteps(fs0, c, yes);
    hide *;
    var fs2, y, fs3 := LuaBlock.PartGrown(outer, fs0, c, yes);
    LuaBlock.FreeBase(outer + Elems(y.f), fs3, fs0.nactvar);
    LuaBlock.FreeCode(fs3, fs0.nactvar);
  }

  lemma PartSteps(fs0: FS, c: Expr, yes: Block)
    requires Part(fs0, c, yes).Ok?
    ensures LuaGen.Compile(fs0, c).Ok? && LuaGen.GoIfTrue(LuaGen.Compile(fs0, c).value.0,
            LuaGen.Compile(fs0, c).value.1).Ok?
    ensures var (fs2, y) := LuaGen.GoIfTrue(LuaGen.Compile(fs0, c).value.0, LuaGen.Compile(fs0, c).value.1).value;
            LuaBlock.CompileBlock(fs2, yes).Ok? && Part(fs0, c, yes).value ==
              (LuaBlock.Free(LuaBlock.CompileBlock(fs2, yes).value, fs2.nactvar), y)
  {
    hide LuaGen.Compile, LuaGen.GoIfTrue, LuaBlock.CompileBlock;
  }

  lemma IfUnfold(fs0: FS, c: Expr, yes: Block)
    ensures var s := LuaBlock.CompileStmt(fs0, LuaBlock.If(c, yes)); var p := Part(fs0, c, yes);
            if p.Ok? then s == LuaGen.Ok(LuaGen.PatchToHere(LuaGen.PatchToHere(p.value.0, p.value.1.f), []))
              else Same(s, p)
  {
    hide LuaGen.Compile, LuaGen.GoIfTrue, LuaBlock.CompileBlock, LuaGen.PatchToHere;
  }

  // ifstat without else
  method CompileIf(fs: FuncState, c: Expr, yes: Block, ghost outer: set<nat>) returns (r: Result<()>)
    requires fs.Rep(outer) && LuaBlock.Base(outer, fs.model) && Closed(c, fs.model.nactvar)
             && LuaBlock.ClosedBlock(yes, fs.model.nactvar)
    modifies fs
    ensures Raised(r, LuaBlock.CompileStmt(old(fs.model), LuaBlock.If(c, yes)), |fs.code|)
    ensures r.Ok? ==>
            LuaBlock.CompileStmt(old(fs.model), LuaBlock.If(c, yes)) == LuaGen.Ok(fs.model)
            && Grew(fs, outer, old(fs.code))
    decreases LuaBlock.If(c, yes), 0
  {
    hide IsList, Elems, Distinct, Kept, Shape, Reps, Sound, Bounded, LuaBlock.CompileStmt, LuaBlock.CompileBlock,
         LuaBlock.Base, Part;
    ghost var m0, code0 := fs.model, fs.code;
    IfUnfold(m0, c, yes);
    var jf :- CompilePart(fs, c, yes, outer);
    ghost var y, code1 := Part(m0, c, yes).value.1, fs.code;
    PartFacts(outer, m0, c, yes);
    HereFacts(outer, fs.model, y.f);
    var _ :- fs.PatchToHere(jf, y.f, outer + Elems(y.f));
    assert outer + Elems(y.f) - Elems(y.f) == outer;
    ghost var code2 := fs.code;
    KeptPart(code1, code2, outer, Elems(y.f));
    KeptTrans(code0, code1, code2, outer);
    EmptyList(fs.code);
    assert outer - {} == outer;
    var _ :- fs.PatchToHere(NO_JUMP, [], outer);
    KeptTrans(code0, code2, fs.code, outer);
    return LuaGen.Ok(());
  }

  lemma HereFacts(outer: set<nat>, fs: FS, list: seq<nat>)
    requires LuaBlock.Base(outer + Elems(list), fs) && Distinct(list) && outer !! Elems(list)
    ensures Distinct(fs.jpc) && Elems(fs.jpc) !! (outer + Elems(list))
    ensures var g := LuaGen.PatchToHere(fs, list); Distinct(g.jpc) && Elems(g.jpc) !! outer
  {
    BlockParts(outer + Elems(list), fs);
    LuaBlock.JoinHere(outer, fs, list);
    SoundPending(outer, {}, LuaGen.PatchToHere(fs, list));
    assert outer + {} == outer;
  }

  lemma IfElseUnfold(fs0: FS, c: Expr, yes: Block, no: Block)
    ensures var s := LuaBlock.CompileStmt(fs0, LuaBlock.IfElse(c, yes, no)); var p := Part(fs0, c, yes);
            if !p.Ok? then Same(s, p)
            else
              var (fs4, escape) := LuaGen.Jump(p.value.0);
              var fs5 := LuaGen.PatchToHere(fs4, p.value.1.f);
              var q := LuaBlock.CompileBlock(fs5, no);
              if q.Ok? then s == LuaGen.Ok(LuaGen.PatchToHere(LuaBlock.Free(q.value, fs5.nactvar), escape))
                else Same(s, q)
  {
    hide LuaGen.Compile, LuaGen.GoIfTrue, LuaBlock.CompileBlock, LuaGen.PatchToHere, LuaGen.Jump;
  }

  // ifstat with else
  method CompileIfElse(fs: FuncState, c: Expr, yes: Block, no: Block, ghost outer: set<nat>) returns (r: Result<()>)
    requires fs.Rep(outer) && LuaBlock.Base(outer, fs.model) && Closed(c, fs.model.nactvar)
    requires LuaBlock.ClosedBlock(yes, fs.model.nactvar) && LuaBlock.ClosedBlock(no, fs.model.nactvar)
    modifies fs
    ensures Raised(r, LuaBlock.CompileStmt(old(fs.model), LuaBlock.IfElse(c, yes, no)), |fs.code|)
    ensures r.Ok? ==>
            LuaBlock.CompileStmt(old(fs.model), LuaBlock.IfElse(c, yes, no)) == LuaGen.Ok(fs.model)
            && Grew(fs, outer, old(fs.code))
    decreases LuaBlock.IfElse(c, yes, no), 0
  {
    hide IsList, Elems, Distinct, Kept, Shape, Reps, Sound, Bounded, LuaBlock.CompileStmt, LuaBlock.CompileBlock,
         LuaBlock.Base, Part, SameTests;
    ghost var m0, code0 := fs.model, fs.code;
    IfElseUnfold(m0, c, yes, no);
    var jf :- CompilePart(fs, c, yes, outer);
    ghost var y, g, code1 := Part(m0, c, yes).value.1, fs.model, fs.code;
    ghost var F, escape := Elems(y.f), LuaGen.Jump(g).1;
    ghost var K := Elems(escape);
    PartFacts(outer, m0, c, yes);
    HereFacts(outer, g, y.f);
    RepsBound(fs.code, g.code, outer + F + Elems(g.jpc));
    JumpDisjoint(g, outer + F);
    MiddleFacts(outer, m0, g, y.f);
    var esc :- fs.Jump(outer + F);
    ghost var code2, g2 := fs.code, fs.model;
    KeptList(code1, code2, outer + F, jf, y.f);
    assert outer + F + K == outer + K + F;
    var _ :- fs.PatchToHere(jf, y.f, outer + K + F);
    ghost var code3 := fs.code;
    assert outer + K + F - F == outer + K;
    KeptPart(code2, code3, outer + K, F);
    KeptList(code2, code3, outer + K, esc, escape);
    KeptPart(code2, code3, outer, K);
    KeptPart(code1, code2, outer, F);
    KeptTrans(code0, code1, code2, outer);
    KeptTrans(code0, code2, code3, outer);
    var level := fs.nactvar;
    var _ :- CompileBlock(fs, no, outer + K);
    ghost var code4, m6 := fs.code, fs.model;
    KeptList(code3, code4, outer + K, esc, escape);
    KeptPart(code3, code4, outer, K);
    KeptTrans(code0, code3, code4, outer);
    EndFacts(outer, LuaGen.PatchToHere(g2, y.f), no, level, escape);
    Free(fs, level, outer + K);
    var _ :- fs.PatchToHere(esc, escape, outer + K);
    assert outer + K - K == outer;
    KeptPart(code4, fs.code, outer, K);
    KeptTrans(code0, code4, fs.code, outer);
    return LuaGen.Ok(());
  }

  lemma MiddleFacts(outer: set<nat>, fs0: FS, g: FS, list: seq<nat>)
    requires LuaBlock.Base(outer + Elems(list), g) && Distinct(list) && outer !! Elems(list) && g.nactvar == fs0.nactvar
    requires SameTests(outer, fs0.code, g.code) && |fs0.code| <= |g.code|
    ensures var (fs4, escape) := LuaGen.Jump(g); var fs5 := LuaGen.PatchToHere(fs4, list); var K := Elems(escape);
            && Distinct(fs4.jpc) && Elems(fs4.jpc) !! (outer + K + Elems(list)) && Distinct(escape) && outer !! K
               && K !! Elems(list)
            && LuaBlock.Base(outer + K, fs5) && fs5.nactvar == fs0.nactvar
  {
    hide *;
    LuaBlock.BaseParts(outer + Elems(list), g);
    FreeAgain(g);
    LuaBlock.MiddleGrown(outer, fs0, g, list);
    var (fs4, escape) := LuaGen.Jump(g);
    BlockParts(outer + Elems(list) + Elems(escape), fs4);
    assert outer + Elems(list) + Elems(escape) == outer + Elems(escape) + Elems(list);
  }

  lemma FreeAgain(g: FS)
    ensures g.freereg == g.nactvar ==> LuaBlock.Free(g, g.nactvar) == g
  {
  }

  lemma EndFacts(outer: set<nat>, fs5: FS, no: Block, n: nat, escape: seq<nat>)
    requires LuaBlock.Base(outer + Elems(escape), fs5) && LuaBlock.ClosedBlock(no, fs5.nactvar)
             && LuaBlock.CompileBlock(fs5, no).Ok?
    requires n == fs5.nactvar
    ensures var g := LuaBlock.Free(LuaBlock.CompileBlock(fs5, no).value, n);
            Distinct(g.jpc) && Elems(g.jpc) !! (outer + Elems(escape))
  {
    hide *;
    LuaBlock.BlockGrown(outer + Elems(escape), fs5, no);
    var fs6 := LuaBlock.CompileBlock(fs5, no).value;
    LuaBlock.GrownBase(outer + Elems(escape), fs5, fs6);
    BlockParts(outer + Elems(escape), fs6);
    LuaBlock.FreeCode(fs6, n);
  }

  // ---------- whole functions ----------

  // A function body: when it compiles, its code runs from the first instruction
  // to its end and leaves every local as the statements say.  It fails only
  // where more than 200 locals are active, where 255 registers are needed, or
  // with more than 131071 instructions.  pc: the instructions emitted.
  method CompileFunction(b: Block) returns (r: Result<seq<Instr>>, pc: nat)
    requires LuaBlock.ClosedBlock(b, 0)
    ensures r.Ok? ==> forall cmp: Compare, R: Regs :: |R| >= MAXREGS ==>
              Runs(cmp, b, R, Exec(cmp, Prog(r.value, {}, {}), 0, R))
    ensures r.Ok? ==> LuaLimits.MostLocals(b, 0) <= 200 && LuaLimits.Peak(b, 0) < 255
                      && pc == |r.value| <= LuaLimits.BlockLength(b)
    ensures r.TooManyLocals? ==> LuaLimits.MostLocals(b, 0) > 200
    ensures r.TooManyRegisters? ==> LuaLimits.Peak(b, 0) >= 255
    ensures r.TooLong? ==> pc > 131071
  {
    hide IsList, Elems, Distinct, Kept, Reps, LuaBlock.CompileBlock, LuaBlock.Base, LuaBlock.Grown,
         LuaBlock.ClosedBlock, LuaGen.DischargeJpc, Exec, Runs;
    LuaLimits.FunctionLimits(b);
    hide LuaLimits.MostLocals, LuaLimits.Peak, LuaLimits.BlockLength;
    var fs := new FuncState();
    OpenBase();
    var done := CompileBlock(fs, b, {});
    pc := |fs.code|;
    if done.IsFailure() {
      return done.PropagateFailure(), pc;
    }
    LuaBlock.BlockGrown({}, LuaBlock.EMPTY, b);
    LuaBlock.GrownBase({}, LuaBlock.EMPTY, fs.model);
    BlockParts({}, fs.model);
    ghost var m1 := fs.model;
    LuaLimits.DischargeLength(m1);
    done := fs.DischargeJpc({}); // as emitting the final return does
    pc := |fs.code|;
    if done.IsFailure() {
      return done.PropagateFailure(), pc;
    }
    NoWaiting(fs, m1);
    forall cmp: Compare, R: Regs | |R| >= MAXREGS
      ensures Runs(cmp, b, R, Exec(cmp, Prog(fs.code, {}, {}), 0, R))
    {
      FinalRun(cmp, b, R, m1, fs);
    }
    r := LuaGen.Ok(fs.code);
  }

  lemma FinalRun(cmp: Compare, b: Block, R: Regs, m1: FS, fs: FuncState)
    requires LuaBlock.ClosedBlock(b, 0) && LuaBlock.CompileBlock(LuaBlock.EMPTY, b) == LuaGen.Ok(m1) && |R| >= MAXREGS
    requires Sound({}, {}, m1) && LuaGen.DischargeJpc(m1) == LuaGen.Ok(fs.model) && fs.Rep({})
    ensures Runs(cmp, b, R, Exec(cmp, Prog(fs.code, {}, {}), 0, R))
  {
    LuaBlock.FunctionCorrect(cmp, b, R);
    SoundPending({}, {}, m1);
    NoWaiting(fs, m1);
    hide Elems, Distinct, Exec, LuaBlock.CompileBlock, LuaBlock.RunBlock, LuaGen.DischargeJpc;
    DischargeExec(cmp, m1, {}, 0, R);
  }

  ghost predicate Runs(cmp: Compare, b: Block, R: Regs, o: Outcome) {
    o.Fall? && forall n :: 0 <= n < LuaBlock.Scope(b, 0) ==> Get(o.R, n) == Get(LuaBlock.RunBlock(cmp, b, 0, R), n)
  }

  lemma OpenBase()
    ensures LuaBlock.Base({}, LuaBlock.EMPTY)
  {
    NoElems();
  }

  lemma NoWaiting(fs: FuncState, m1: FS)
    requires fs.Rep({}) && LuaGen.DischargeJpc(m1) == LuaGen.Ok(fs.model)
    ensures fs.code == fs.model.code
  {
    NoElems();
    hide LuaGen.PatchListAux;
  }
}
