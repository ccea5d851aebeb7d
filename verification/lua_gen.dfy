// The expression part of the code generator of 3rd/lua-5.3.4/src/lcode.c on
// values.  A patch list is the sequence of its jumps; the destination stored in
// a jump that still waits on a list plays no part here.
module LuaGen {
  import opened LuaVM

  // A syntax error raised by the generator ends the compilation.
  datatype Result<+T> = Ok(value: T) | TooLong | TooManyRegisters | TooManyLocals {
    predicate IsFailure() { !Ok? }
    function PropagateFailure<U>(): Result<U>
      requires IsFailure()
    {
      if TooLong? then TooLong else if TooManyRegisters? then TooManyRegisters else TooManyLocals
    }
    function Extract(): T
      requires Ok?
    {
      value
    }
  }

  // expdesc
  datatype Kind =
    | VNil | VTrue | VFalse
    | VK(v: Value)        // VK, VKINT and VKFLT: a constant other than nil and booleans
    | VNonReloc(r: nat)
    | VLocal(r: nat)
    | VJmp(pc: nat)
    | VReloc(pc: nat)

  datatype Exp = Exp(k: Kind, t: seq<nat>, f: seq<nat>)

  // FuncState; pc is |code|.
  datatype FS = FS(code: seq<Instr>, jpc: seq<nat>, lasttarget: int, freereg: nat, maxstack: nat, nactvar: nat)

  // ---------- jumps ----------

  // getjumpcontrol
  function Control(code: seq<Instr>, j: nat): nat {
    if 1 <= j <= |code| && TMode(code[j - 1]) then j - 1 else j
  }

  // A jump whose test can also hand over a value.
  predicate ValueJump(code: seq<Instr>, j: nat) { 1 <= j <= |code| && code[j - 1].TestSet? }

  // What patchtestreg makes of a TESTSET.
  function Patched(i: Instr, reg: nat): Instr
    requires i.TestSet?
  {
    if reg != NO_REG && reg != i.b then TestSet(reg, i.b, i.c) else Test(i.b, i.c)
  }

  function PatchTestReg(code: seq<Instr>, j: nat, reg: nat): seq<Instr> {
    if ValueJump(code, j) then code[j - 1 := Patched(code[j - 1], reg)] else code
  }

  // fixjump
  function FixJump(code: seq<Instr>, j: nat, dest: nat): Result<seq<Instr>> {
    var offset := dest - (j + 1);
    if offset > MAXARG_sBx || -offset > MAXARG_sBx then TooLong
    else if j < |code| && code[j].Jmp? then Ok(code[j := Jmp(code[j].a, offset)])
    else Ok(code) // lists hold nothing but jumps
  }

  // patchlistaux
  function PatchListAux(code: seq<Instr>, list: seq<nat>, vtarget: nat, reg: nat, dtarget: nat): Result<seq<Instr>>
    decreases |list|
  {
    if list == [] then Ok(code)
    else
      var j := list[0];
      var dest := if ValueJump(code, j) then vtarget else dtarget;
      var code1 := PatchTestReg(code, j, reg);
      var code2 :- FixJump(code1, j, dest);
      PatchListAux(code2, list[1..], vtarget, reg, dtarget)
  }

  // removevalues
  function RemoveValues(code: seq<Instr>, list: seq<nat>): seq<Instr>
    decreases |list|
  {
    if list == [] then code else RemoveValues(PatchTestReg(code, list[0], NO_REG), list[1..])
  }

  // need_value
  predicate NeedValue(code: seq<Instr>, list: seq<nat>) {
    exists n :: 0 <= n < |list| && !ValueJump(code, list[n])
  }

  // dischargejpc
  function DischargeJpc(fs: FS): Result<FS>
  {
    var code :- PatchListAux(fs.code, fs.jpc, |fs.code|, NO_REG, |fs.code|);
    Ok(fs.(code := code, jpc := []))
  }

  // luaK_code
  function Code(fs: FS, i: Instr): Result<FS>
  {
    var fs1 :- DischargeJpc(fs);
    Ok(fs1.(code := fs1.code + [i]))
  }

  // luaK_jump: the new jump takes the jumps to here along.
  function Jump(fs: FS): (r: (FS, seq<nat>)) {
    (fs.(code := fs.code + [Jmp(0, NO_JUMP)], jpc := []), [|fs.code|] + fs.jpc)
  }

  // luaK_getlabel
  function GetLabel(fs: FS): FS { fs.(lasttarget := |fs.code|) }

  // luaK_patchtohere
  function PatchToHere(fs: FS, list: seq<nat>): FS { GetLabel(fs).(jpc := fs.jpc + list) }

  // condjump
  function CondJump(fs: FS, test: Instr): Result<(FS, nat)>
  {
    var fs1 :- Code(fs, test);
    var (fs2, list) := Jump(fs1);
    Ok((fs2, list[0]))
  }

  // ---------- registers ----------

  // luaK_reserveregs(fs, 1), with luaK_checkstack
  function ReserveReg(fs: FS): Result<FS> {
    var newstack := fs.freereg + 1;
    if newstack > fs.maxstack && newstack >= MAXREGS then TooManyRegisters
    else Ok(fs.(freereg := newstack, maxstack := if newstack > fs.maxstack then newstack else fs.maxstack))
  }

  // freereg
  function FreeReg(fs: FS, r: nat): FS {
    if r >= fs.nactvar && fs.freereg > 0 then fs.(freereg := fs.freereg - 1) else fs
  }

  // freeexp
  function FreeExp(fs: FS, e: Exp): FS { if e.k.VNonReloc? then FreeReg(fs, e.k.r) else fs }

  // ---------- putting values into registers ----------

  // luaK_nil(fs, reg, 1)
  function EmitNil(fs: FS, reg: nat): Result<FS>
  {
    var n := |fs.code|;
    if n > fs.lasttarget && n > 0 && fs.code[n - 1].LoadNil?
       && ((fs.code[n - 1].a <= reg <= fs.code[n - 1].a + fs.code[n - 1].n + 1)
           || (reg <= fs.code[n - 1].a <= reg + 1)) then
      var pfrom, pl := fs.code[n - 1].a, fs.code[n - 1].a + fs.code[n - 1].n;
      var from := if pfrom < reg then pfrom else reg;
      var l := if pl > reg then pl else reg;
      Ok(fs.(code := fs.code[n - 1 := LoadNil(from, l - from)]))
    else
      Code(fs, LoadNil(reg, 0))
  }

  // luaK_dischargevars
  function DischargeVars(e: Exp): Exp { if e.k.VLocal? then e.(k := VNonReloc(e.k.r)) else e }

  // SETARG_A on the instruction of a relocatable expression
  function Relocated(i: Instr, reg: nat): Instr {
    if i.Not? then Not(reg, i.b) else i
  }

  // discharge2reg
  function DischargeToReg(fs: FS, e0: Exp, reg: nat): Result<(FS, Exp)>
  {
    var e := DischargeVars(e0);
    var done := e.(k := VNonReloc(reg));
    match e.k
    case VNil => var fs1 :- EmitNil(fs, reg); Ok((fs1, done))
    case VTrue => var fs1 :- Code(fs, LoadBool(reg, true, false)); Ok((fs1, done))
    case VFalse => var fs1 :- Code(fs, LoadBool(reg, false, false)); Ok((fs1, done))
    case VK(v) => var fs1 :- Code(fs, LoadK(reg, v)); Ok((fs1, done))
    case VReloc(pc) =>
      if pc < |fs.code| then Ok((fs.(code := fs.code[pc := Relocated(fs.code[pc], reg)]), done)) else Ok((fs, done))
    case VJmp(_) => Ok((fs, e))
    case _ => // VNonReloc; no VLocal is left
      if e.k.r == reg then Ok((fs, done)) else var fs1 :- Code(fs, Move(reg, e.k.r)); Ok((fs1, done))
  }

  // discharge2anyreg
  function DischargeToAnyReg(fs: FS, e: Exp): Result<(FS, Exp)>
  {
    if e.k.VNonReloc? then Ok((fs, e))
    else
      var fs1 :- ReserveReg(fs);
      DischargeToReg(fs1, e, fs1.freereg - 1)
  }

  predicate HasJumps(e: Exp) { e.t != [] || e.f != [] }

  // code_loadbool
  function CodeLoadBool(fs: FS, reg: nat, v: bool, skip: bool): Result<FS> {
    Code(GetLabel(fs), LoadBool(reg, v, skip))
  }

  // The two load instructions exp2reg adds for jumps that carry no value, and
  // the jump around them; with their addresses.
  function CodeLoads(fs: FS, isJump: bool, reg: nat): Result<(FS, nat, nat)> {
    var (fs1, fj) := if isJump then (fs, []) else Jump(fs);
    var fs2 :- CodeLoadBool(fs1, reg, false, true);
    var fs3 :- CodeLoadBool(fs2, reg, true, false);
    Ok((PatchToHere(fs3, fj), |fs1.code|, |fs2.code|))
  }

  // exp2reg
  function ExpToReg(fs: FS, e: Exp, reg: nat): Result<(FS, Exp)> {
    var (fs1, e1) :- DischargeToReg(fs, e, reg);
    var t, f := if e1.k.VJmp? then e1.t + [e1.k.pc] else e1.t, e1.f;
    var done := Exp(VNonReloc(reg), [], []);
    if t == [] && f == [] then Ok((fs1, done))
    else
      var (fs2, pf, pt) :- if NeedValue(fs1.code, t) || NeedValue(fs1.code, f)
                           then CodeLoads(fs1, e1.k.VJmp?, reg)
                           else Ok((fs1, |fs1.code|, |fs1.code|));
      var final := |fs2.code|;
      var code1 :- PatchListAux(fs2.code, f, final, reg, pf);
      var code2 :- PatchListAux(code1, t, final, reg, pt);
      Ok((GetLabel(fs2).(code := code2), done))
  }

  // luaK_exp2nextreg
  function ExpToNextReg(fs: FS, e0: Exp): Result<(FS, Exp)> {
    var e := DischargeVars(e0);
    var fs1 :- ReserveReg(FreeExp(fs, e));
    ExpToReg(fs1, e, fs1.freereg - 1)
  }

  // luaK_exp2anyreg
  function ExpToAnyReg(fs: FS, e0: Exp): Result<(FS, Exp)> {
    var e := DischargeVars(e0);
    if e.k.VNonReloc? && !HasJumps(e) then Ok((fs, e))
    else if e.k.VNonReloc? && e.k.r >= fs.nactvar then ExpToReg(fs, e, e.k.r)
    else ExpToNextReg(fs, e)
  }

  // luaK_exp2RK: constants stay constants, everything else goes to a register.
  function ExpToRK(fs: FS, e0: Exp): Result<(FS, Exp, RK)> {
    var (fs1, e1) :- if HasJumps(e0) then ExpToAnyReg(fs, e0) else Ok((fs, DischargeVars(e0)));
    match e1.k
    case VNil => Ok((fs1, e1.(k := VK(Nil)), Const(Nil)))
    case VTrue => Ok((fs1, e1.(k := VK(Bool(true))), Const(Bool(true))))
    case VFalse => Ok((fs1, e1.(k := VK(Bool(false))), Const(Bool(false))))
    case VK(v) => Ok((fs1, e1, Const(v)))
    case _ =>
      var (fs2, e2) :- ExpToAnyReg(fs1, e1);
      Ok((fs2, e2, if e2.k.VNonReloc? then Reg(e2.k.r) else Const(Nil)))
  }

  // luaK_storevar on a local variable
  function StoreLocal(fs: FS, reg: nat, e: Exp): Result<FS> {
    var (fs1, _) :- ExpToReg(FreeExp(fs, e), e, reg);
    Ok(fs1)
  }

  // ---------- conditions ----------

  // negatecondition
  function NegateCondition(fs: FS, pc: nat): FS {
    var c := Control(fs.code, pc);
    if c < |fs.code| && fs.code[c].Cmp?
    then fs.(code := fs.code[c := Cmp(fs.code[c].op, !fs.code[c].want, fs.code[c].x, fs.code[c].y)])
    else fs
  }

  // jumponcond: the jump taken when e is cond
  function JumpOnCond(fs: FS, e: Exp, cond: bool): Result<(FS, nat)> {
    if e.k.VReloc? && |fs.code| > 0 && fs.code[|fs.code| - 1].Not? then
      CondJump(fs.(code := fs.code[..|fs.code| - 1]), Test(fs.code[|fs.code| - 1].b, !cond))
    else
      var (fs1, e1) :- DischargeToAnyReg(fs, e);
      CondJump(FreeExp(fs1, e1), TestSet(NO_REG, if e1.k.VNonReloc? then e1.k.r else 0, cond))
  }

  // luaK_goiftrue
  function GoIfTrue(fs: FS, e0: Exp): Result<(FS, Exp)> {
    var e := DischargeVars(e0);
    var (fs1, pcs) :-
      match e.k
      case VJmp(pc) => Ok((NegateCondition(fs, pc), [pc]))
      case VK(_) => Ok((fs, []))
      case VTrue => Ok((fs, []))
      case _ => var (fs1, pc) :- JumpOnCond(fs, e, false); Ok((fs1, [pc]));
    Ok((PatchToHere(fs1, e.t), Exp(e.k, [], e.f + pcs)))
  }

  // luaK_goiffalse
  function GoIfFalse(fs: FS, e0: Exp): Result<(FS, Exp)> {
    var e := DischargeVars(e0);
    var (fs1, pcs) :-
      match e.k
      case VJmp(pc) => Ok((fs, [pc]))
      case VNil => Ok((fs, []))
      case VFalse => Ok((fs, []))
      case _ => var (fs1, pc) :- JumpOnCond(fs, e, true); Ok((fs1, [pc]));
    Ok((PatchToHere(fs1, e.f), Exp(e.k, e.t + pcs, [])))
  }

  // codenot
  function CodeNot(fs: FS, e0: Exp): Result<(FS, Exp)> {
    var e := DischargeVars(e0);
    var (fs1, k) :-
      match e.k
      case VNil => Ok((fs, VTrue))
      case VFalse => Ok((fs, VTrue))
      case VK(_) => Ok((fs, VFalse))
      case VTrue => Ok((fs, VFalse))
      case VJmp(pc) => Ok((NegateCondition(fs, pc), e.k))
      case _ =>
        var (fs1, e1) :- DischargeToAnyReg(fs, e);
        var fs2 := FreeExp(fs1, e1);
        var fs3 :- Code(fs2, Not(0, if e1.k.VNonReloc? then e1.k.r else 0));
        Ok((fs3, VReloc(|fs2.code|)));
    var code := RemoveValues(RemoveValues(fs1.code, e.t), e.f);
    Ok((fs1.(code := code), Exp(k, e.f, e.t)))
  }

  // ---------- binary operators ----------

  // freeexps
  function FreeExps(fs: FS, e1: Exp, e2: Exp): FS {
    var r1 := if e1.k.VNonReloc? then e1.k.r else -1;
    var r2 := if e2.k.VNonReloc? then e2.k.r else -1;
    if r1 > r2 then FreeExp(FreeExp(fs, e1), e2) else FreeExp(FreeExp(fs, e2), e1)
  }

  function Opcode(op: CompareOp): CmpOp {
    match op
    case OpEq => Eq
    case OpNe => Eq
    case OpLt => Lt
    case OpGt => Lt
    case OpLe => Le
    case OpGe => Le
  }

  // codecomp
  function CodeComp(fs: FS, op: CompareOp, e1: Exp, rk1: RK, e2: Exp): Result<(FS, Exp)> {
    var (fs1, e2', rk2) :- ExpToRK(fs, e2);
    var fs2 := FreeExps(fs1, e1, e2');
    var test := if op == OpGt || op == OpGe then Cmp(Opcode(op), true, rk2, rk1)
      else Cmp(Opcode(op), op != OpNe, rk1, rk2);
    var (fs3, pc) :- CondJump(fs2, test);
    Ok((fs3, Exp(VJmp(pc), [], [])))
  }

  // What the parser's subexpr does with an expression: operands in order, with
  // luaK_prefix, or luaK_infix and luaK_posfix around the second operand.
  function Compile(fs: FS, e: Expr): Result<(FS, Exp)>
    decreases e
  {
    match e
    case ENil => Ok((fs, Exp(VNil, [], [])))
    case ETrue => Ok((fs, Exp(VTrue, [], [])))
    case EFalse => Ok((fs, Exp(VFalse, [], [])))
    case EConst(id) => Ok((fs, Exp(VK(Data(id)), [], [])))
    case ELocal(r) => Ok((fs, Exp(VLocal(r), [], [])))
    case ENot(e1) =>
      var (fs1, x) :- Compile(fs, e1);
      CodeNot(fs1, x)
    case EAnd(e1, e2) =>
      var (fs1, x1) :- Compile(fs, e1);
      var (fs2, y1) :- GoIfTrue(fs1, x1);
      var (fs3, x2) :- Compile(fs2, e2);
      Ok((fs3, DischargeVars(x2).(f := x2.f + y1.f)))
    case EOr(e1, e2) =>
      var (fs1, x1) :- Compile(fs, e1);
      var (fs2, y1) :- GoIfFalse(fs1, x1);
      var (fs3, x2) :- Compile(fs2, e2);
      Ok((fs3, DischargeVars(x2).(t := x2.t + y1.t)))
    case ECompare(op, e1, e2) =>
      var (fs1, x1) :- Compile(fs, e1);
      var (fs2, y1, rk1) :- ExpToRK(fs1, x1);
      var (fs3, x2) :- Compile(fs2, e2);
      CodeComp(fs3, op, y1, rk1, x2)
  }
}
