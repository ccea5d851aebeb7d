// Compiled short-circuit expressions compute what the source expression means.
module LuaCorrect {
  import opened LuaVM
  import opened LuaGen
  import opened LuaExec

  // ---------- the state between two calls of the generator ----------

  // The next LOADNIL could be merged into the last instruction.
  predicate Mergeable(fs: FS) {
    |fs.code| > 0 && |fs.code| > fs.lasttarget && fs.code[|fs.code| - 1].LoadNil?
  }

  // outer: jumps on lists of enclosing expressions; own: jumps on the lists of
  // the expression at hand.
  ghost predicate Lists(outer: set<nat>, own: set<nat>, fs: FS) {
    && Distinct(fs.jpc)
    && Pending(fs.code, Elems(fs.jpc)) && Pending(fs.code, outer) && Pending(fs.code, own)
    && Elems(fs.jpc) !! outer && Elems(fs.jpc) !! own && outer !! own
  }

  ghost predicate Sound(outer: set<nat>, own: set<nat>, fs: FS) {
    && Lists(outer, own, fs)
    && fs.nactvar <= fs.freereg <= fs.maxstack < MAXREGS
    && (|fs.code| > 0 ==> !TMode(fs.code[|fs.code| - 1]))
  }

  // The tests in front of the jumps js are the same in both codes.
  ghost predicate SameTests(js: set<nat>, code: seq<Instr>, code': seq<Instr>) {
    forall j :: j in js ==>
      ValueJump(code', j) == ValueJump(code, j) && (ValueJump(code, j) ==> code'[j - 1] == code[j - 1])
  }

  ghost predicate KindShape(fs: FS, k: Kind) {
    match k
    case VReloc(pc) => |fs.code| >= 1 && pc == |fs.code| - 1 && fs.code[pc].Not? && fs.jpc == []
    case VJmp(pc) =>
      && |fs.code| >= 2 && pc == |fs.code| - 1 && fs.code[pc].Jmp? && fs.code[pc].a == 0 && fs.code[pc - 1].Cmp?
      && fs.jpc == []
    case VNonReloc(r) => r < fs.nactvar
    case VLocal(r) => r < fs.nactvar
    case VK(v) => !IsFalse(v)
    case _ => true
  }

  ghost function Own(e: Exp): set<nat> { Elems(e.t) + Elems(e.f) }

  // e describes code in fs, grown from fs0 below the lists outer.
  ghost predicate Shape(outer: set<nat>, fs0: FS, fs: FS, e: Exp) {
    && Sound(outer, Own(e), fs) && Distinct(e.t) && Distinct(e.f) && Elems(e.t) !! Elems(e.f)
    && KindShape(fs, e.k) && (e.k.VJmp? ==> e.k.pc !in Own(e) + outer)
    && fs.nactvar == fs0.nactvar && SameTests(outer, fs0.code, fs.code) && |fs0.code| <= |fs.code|
    && (Mergeable(fs) ==> Mergeable(fs0) && fs.code == fs0.code && fs.jpc == fs0.jpc && e.t == [] && e.f == [])
  }

  // ---------- what the code does ----------

  // The registers below n agree, reg excepted.
  ghost predicate AgreeBut(R: Regs, R': Regs, n: nat, reg: nat) {
    |R'| == |R| && forall r :: 0 <= r < n && r != reg ==> Get(R', r) == Get(R, r)
  }

  // Leaving through jump j tells the truth about the value v.
  ghost predicate ExitOk(code: seq<Instr>, e: Exp, j: nat, R: Regs, v: Value) {
    && (j in Elems(e.t) || j in Elems(e.f))
    && (j in Elems(e.t) ==> !IsFalse(v))
    && (j in Elems(e.f) ==> IsFalse(v))
    && (if ValueJump(code, j) then v == Get(R, code[j - 1].b) else v == Bool(j in Elems(e.t)))
  }

  // Where the value is when control falls through.
  ghost predicate KindOk(cmp: Compare, fs: FS, k: Kind, R: Regs, v: Value)
    requires KindShape(fs, k)
  {
    match k
    case VNil => v == Nil
    case VTrue => v == Bool(true)
    case VFalse => v == Bool(false)
    case VK(c) => v == c
    case VNonReloc(r) => v == Get(R, r)
    case VLocal(r) => v == Get(R, r)
    case VReloc(pc) => v == Bool(IsFalse(Get(R, fs.code[pc].b)))
    case VJmp(pc) =>
      var i := fs.code[pc - 1];
      v == Bool(cmp(i.op, Operand(R, i.x), Operand(R, i.y)) == i.want)
  }

  // The code up to the instructions the kind of e still speaks about.
  ghost function Body(fs: FS, e: Exp): seq<Instr>
    requires KindShape(fs, e.k)
  {
    if e.k.VReloc? then fs.code[..|fs.code| - 1]
    else if e.k.VJmp? then fs.code[..|fs.code| - 2]
    else fs.code
  }

  // o0: how the run ended in the code before the expression; o: how it ends now.
  ghost predicate Means(cmp: Compare, o0: Outcome, n: nat, reg: nat, fs: FS, e: Exp, src: Expr, o: Outcome)
    requires KindShape(fs, e.k)
  {
    match o0
    case Stuck => true
    case Exit(_, _) => o == o0
    case Fall(R1) =>
      var v := Eval(cmp, src, R1);
      match o
      case Stuck => false
      case Fall(R2) => AgreeBut(R1, R2, n, reg) && KindOk(cmp, fs, e.k, R2, v)
      case Exit(j, R2) => AgreeBut(R1, R2, n, reg) && ExitOk(fs.code, e, j, R2, v)
  }

  ghost function Run0(cmp: Compare, outer: set<nat>, fs: FS, pc: nat, R: Regs): Outcome {
    Exec(cmp, Prog(fs.code, outer, Elems(fs.jpc)), pc, R)
  }

  ghost function Run(cmp: Compare, outer: set<nat>, fs: FS, e: Exp, pc: nat, R: Regs): Outcome
    requires KindShape(fs, e.k)
  {
    Exec(cmp, Prog(Body(fs, e), outer + Own(e), Elems(fs.jpc)), pc, R)
  }

  // ---------- merging LOADNIL ----------

  // Control reaches the end of the code only through its last instruction.
  ghost predicate OnlyFall(p: Prog) {
    && p.here == {}
    && forall i :: 0 <= i < |p.code| - 1 ==>
         && (p.code[i].Jmp? && i !in p.exits ==> i + 1 + p.code[i].sbx != |p.code|)
         && (p.code[i].LoadBool? && p.code[i].skip ==> i + 2 != |p.code|)
         && (TMode(p.code[i]) ==> i + 2 != |p.code|)
  }

  // A run may start at pc: where merging is possible, only before the last
  // instruction.  lasttarget exists to make this so.
  ghost predicate Entry(outer: set<nat>, fs: FS, pc: nat) {
    pc <= |fs.code| && (Mergeable(fs) ==> pc < |fs.code| && OnlyFall(Prog(fs.code, outer, Elems(fs.jpc))))
  }

  lemma {:induction false} MergeExec(cmp: Compare, p: Prog, i: Instr, reg: nat, pc: nat, R: Regs)
    requires |p.code| > 0 && p.code[|p.code| - 1].LoadNil? && i.LoadNil? && OnlyFall(p) && pc < |p.code|
    requires forall R :: FillNil(R, i.a, i.n) == Set(FillNil(R, p.code[|p.code| - 1].a, p.code[|p.code| - 1].n), reg,
             Nil)
    ensures Exec(cmp, p.(code := p.code[|p.code| - 1 := i]), pc, R) ==
            match Exec(cmp, p, pc, R) case Fall(R2) => Fall(Set(R2, reg, Nil)) case o => o
    decreases |p.code| - pc, 1
  {
    var p' := p.(code := p.code[|p.code| - 1 := i]);
    if pc == |p.code| - 1 {
    } else {
      assert p'.code[pc] == p.code[pc];
      match p.code[pc]
      case Jmp(_, _) => MergeTake(cmp, p, i, reg, pc, R);
      case LoadBool(a, v, skip) =>
        if pc + 2 <= |p.code| { MergeExec(cmp, p, i, reg, if skip then pc + 2 else pc + 1, Set(R, a, Bool(v))); }
      case LoadNil(a, b) => MergeExec(cmp, p, i, reg, pc + 1, FillNil(R, a, b));
      case LoadK(a, k) => MergeExec(cmp, p, i, reg, pc + 1, Set(R, a, k));
      case Move(a, b) => MergeExec(cmp, p, i, reg, pc + 1, Set(R, a, Get(R, b)));
      case Not(a, b) => MergeExec(cmp, p, i, reg, pc + 1, Set(R, a, Bool(IsFalse(Get(R, b)))));
      case Other =>
      case t =>
        if Skips(cmp, t, R) {
          MergeExec(cmp, p, i, reg, pc + 2, R);
        } else {
          MergeTake(cmp, p, i, reg, pc + 1, TestWrite(t, R));
        }
    }
  }

  lemma {:induction false} MergeTake(cmp: Compare, p: Prog, i: Instr, reg: nat, j: nat, R: Regs)
    requires |p.code| > 0 && p.code[|p.code| - 1].LoadNil? && i.LoadNil? && OnlyFall(p)
    requires forall R :: FillNil(R, i.a, i.n) == Set(FillNil(R, p.code[|p.code| - 1].a, p.code[|p.code| - 1].n), reg,
             Nil)
    ensures Take(cmp, p.(code := p.code[|p.code| - 1 := i]), j, R) ==
            match Take(cmp, p, j, R) case Fall(R2) => Fall(Set(R2, reg, Nil)) case o => o
    decreases |p.code| - j, 0
  {
    if j < |p.code| && p.code[j].Jmp? && j !in p.exits && p.code[j].a == 0 && p.code[j].sbx >= 0 {
      var target := j + 1 + p.code[j].sbx;
      if target < |p.code| { MergeExec(cmp, p, i, reg, target, R); }
    }
  }

  // ---------- emitting ----------

  lemma DischargeFacts(fs: FS, js: set<nat>)
    requires Distinct(fs.jpc) && Pending(fs.code, Elems(fs.jpc)) && Pending(fs.code, js) && js !! Elems(fs.jpc)
    requires DischargeJpc(fs).Ok?
    ensures var fs1 := DischargeJpc(fs).value;
            && fs1 == fs.(code := fs1.code, jpc := []) && |fs1.code| == |fs.code|
            && Pending(fs1.code, js) && SameTests(js, fs.code, fs1.code)
            && forall i :: 0 <= i < |fs.code| ==> TMode(fs1.code[i]) == TMode(fs.code[i])
  {
    var fs1, n := DischargeJpc(fs).value, |fs.code|;
    PatchListMeaning(fs.code, fs.jpc, n, NO_REG, n);
    forall i | 0 <= i < |fs.code| ensures TMode(fs1.code[i]) == TMode(fs.code[i]) {
      PatchAt(fs.code, fs1.code, Elems(fs.jpc), NO_REG, n, n, i);
    }
    forall j | j in js
      ensures j < |fs1.code| && fs1.code[j] == fs.code[j] && ValueJump(fs1.code, j) == ValueJump(fs.code, j)
      ensures ValueJump(fs.code, j) ==> fs1.code[j - 1] == fs.code[j - 1]
    {
      PatchAt(fs.code, fs1.code, Elems(fs.jpc), NO_REG, n, n, j);
      if j >= 1 { PatchAt(fs.code, fs1.code, Elems(fs.jpc), NO_REG, n, n, j - 1); }
    }
  }

  // js keeps waiting when code is appended.
  lemma PendingExtend(code: seq<Instr>, ext: seq<Instr>, js: set<nat>)
    requires Pending(code, js)
    ensures Pending(code + ext, js) && SameTests(js, code, code + ext)
  {
    forall j | j in js ensures (code + ext)[j] == code[j] && (j >= 1 ==> (code + ext)[j - 1] == code[j - 1]) { }
  }

  lemma SameTestsTrans(js: set<nat>, a: seq<Instr>, b: seq<Instr>, c: seq<Instr>)
    requires SameTests(js, a, b) && SameTests(js, b, c)
    ensures SameTests(js, a, c)
  {
  }

  lemma PendingUnion(code: seq<Instr>, a: set<nat>, b: set<nat>)
    requires Pending(code, a) && Pending(code, b)
    ensures Pending(code, a + b)
  {
  }

  // luaK_code of an instruction that is neither a test nor a jump.
  lemma CodeSound(outer: set<nat>, own: set<nat>, fs: FS, i: Instr)
    requires Sound(outer, own, fs) && Code(fs, i).Ok? && !TMode(i)
    ensures var fs1 := Code(fs, i).value;
            && Sound(outer, own, fs1) && fs1.jpc == [] && |fs1.code| == |fs.code| + 1 && fs1.code[|fs.code|] == i
            && fs1 == fs.(code := fs1.code, jpc := []) && SameTests(outer + own, fs.code, fs1.code)
  {
    hide Elems;
    PendingUnion(fs.code, outer, own);
    DischargeFacts(fs, outer + own);
    var code1 := DischargeJpc(fs).value.code;
    PendingExtend(code1, [i], outer + own);
    SameTestsTrans(outer + own, fs.code, code1, code1 + [i]);
    assert Pending(code1 + [i], outer) && Pending(code1 + [i], own);
    NoElems();
  }

  lemma NoElems()
    ensures Elems([]) == {} && Distinct([]) && forall code :: Pending(code, {})
  {
  }

  lemma CodeExec(cmp: Compare, outer: set<nat>, own: set<nat>, fs: FS, i: Instr, pc: nat, R: Regs)
    requires Sound(outer, own, fs) && Code(fs, i).Ok? && !TMode(i) && !i.Jmp? && i != Other
    requires i.LoadBool? ==> !i.skip
    requires Exec(cmp, Prog(fs.code, outer + own, Elems(fs.jpc)), pc, R) != Stuck
    ensures Exec(cmp, Prog(Code(fs, i).value.code, outer + own, {}), pc, R) ==
            match Exec(cmp, Prog(fs.code, outer + own, Elems(fs.jpc)), pc, R)
            case Fall(R2) => Fall(Effect(i, R2))
            case o => o
  {
    hide Elems;
    EmitExec(cmp, fs, [i], outer + own, {}, pc, R);
    CodeSound(outer, own, fs, i);
    assert outer + own + {} == outer + own;
    match Exec(cmp, Prog(fs.code, outer + own, Elems(fs.jpc)), pc, R)
    case Fall(R2) => OneInstr(cmp, Prog(Code(fs, i).value.code, outer + own, {}), R2);
    case _ =>
  }

  // What an instruction that is neither a test nor a jump does to the registers.
  function Effect(i: Instr, R: Regs): Regs {
    match i
    case LoadBool(a, v, _) => Set(R, a, Bool(v))
    case LoadNil(a, n) => FillNil(R, a, n)
    case LoadK(a, k) => Set(R, a, k)
    case Move(a, b) => Set(R, a, Get(R, b))
    case Not(a, b) => Set(R, a, Bool(IsFalse(Get(R, b))))
    case _ => R
  }

  lemma OneInstr(cmp: Compare, p: Prog, R: Regs)
    requires |p.code| > 0
    requires var i := p.code[|p.code| - 1]; !TMode(i) && !i.Jmp? && i != Other && (i.LoadBool? ==> !i.skip)
    ensures Exec(cmp, p, |p.code| - 1, R) == Fall(Effect(p.code[|p.code| - 1], R))
  {
  }

  // ---------- discharge2reg ----------

  lemma DischargeToRegShape(outer: set<nat>, fs0: FS, fs: FS, e: Exp, reg: nat)
    requires Shape(outer, fs0, fs, e) && !e.k.VJmp? && DischargeToReg(fs, e, reg).Ok?
    ensures var (fs1, e1) := DischargeToReg(fs, e, reg).value;
            && e1 == e.(k := VNonReloc(reg)) && Sound(outer, Own(e), fs1)
            && fs1 == fs.(code := fs1.code, jpc := fs1.jpc) && SameTests(outer + Own(e), fs.code, fs1.code)
            && (fs1.jpc == [] || fs1.jpc == fs.jpc) && |fs.code| <= |fs1.code|
            && (Mergeable(fs1) ==> fs1 == fs || e.k == VNil)
  {
    hide Elems, Pending;
    match e.k
    case VNil =>
      if EmitNil(fs, reg) != Code(fs, LoadNil(reg, 0)) {
        MergeSound(outer, Own(e), fs, reg);
      } else {
        CodeSound(outer, Own(e), fs, LoadNil(reg, 0));
      }
    case VTrue => CodeSound(outer, Own(e), fs, LoadBool(reg, true, false));
    case VFalse => CodeSound(outer, Own(e), fs, LoadBool(reg, false, false));
    case VK(v) => CodeSound(outer, Own(e), fs, LoadK(reg, v));
    case VReloc(pc) => RelocateSound(outer, Own(e), fs, pc, reg);
    case VNonReloc(r) => if r != reg { CodeSound(outer, Own(e), fs, Move(reg, r)); }
    case VLocal(r) => if r != reg { CodeSound(outer, Own(e), fs, Move(reg, r)); }
  }

  lemma RelocateSound(outer: set<nat>, own: set<nat>, fs: FS, pc: nat, reg: nat)
    requires Sound(outer, own, fs) && KindShape(fs, VReloc(pc))
    ensures var fs1 := fs.(code := fs.code[pc := Relocated(fs.code[pc], reg)]);
            Sound(outer, own, fs1) && SameTests(outer + own, fs.code, fs1.code)
  {
    hide Elems;
    PendingUnion(fs.code, outer, own);
    var code1 := fs.code[pc := Relocated(fs.code[pc], reg)];
    ReplacePlain(fs.code, pc, Relocated(fs.code[pc], reg), outer + own);
    ReplacePlain(fs.code, pc, Relocated(fs.code[pc], reg), Elems(fs.jpc));
    assert Pending(code1, outer) && Pending(code1, own);
  }

  // Replacing an instruction that is neither a test nor a jump by another such.
  lemma ReplacePlain(code: seq<Instr>, pc: nat, i: Instr, js: set<nat>)
    requires pc < |code| && !TMode(code[pc]) && !code[pc].Jmp? && !TMode(i) && Pending(code, js)
    ensures Pending(code[pc := i], js) && SameTests(js, code, code[pc := i])
  {
  }

  // luaK_nil found a LOADNIL to merge with.
  lemma MergeSound(outer: set<nat>, own: set<nat>, fs: FS, reg: nat)
    requires Sound(outer, own, fs) && EmitNil(fs, reg) != Code(fs, LoadNil(reg, 0))
    ensures EmitNil(fs, reg).Ok? && Mergeable(fs)
    ensures var fs1 := EmitNil(fs, reg).value; var n := |fs.code| - 1;
            && fs1.code[n].LoadNil? && fs1 == fs.(code := fs.code[n := fs1.code[n]])
            && Sound(outer, own, fs1) && SameTests(outer + own, fs.code, fs1.code)
            && forall R ::
               FillNil(R, fs1.code[n].a, fs1.code[n].n) ==
               Set(FillNil(R, fs.code[n].a, fs.code[n].n), reg, Nil)
  {
    hide Elems;
    var fs1, n := EmitNil(fs, reg).value, |fs.code| - 1;
    PendingUnion(fs.code, outer, own);
    ReplacePlain(fs.code, n, fs1.code[n], outer + own);
    ReplacePlain(fs.code, n, fs1.code[n], Elems(fs.jpc));
    assert Pending(fs1.code, outer) && Pending(fs1.code, own);
  }

  // After discharge2reg: the value of src is in reg when control falls through.
  ghost predicate InReg(cmp: Compare, o0: Outcome, n: nat, reg: nat, code: seq<Instr>, e: Exp, src: Expr, o: Outcome) {
    match o0
    case Stuck => true
    case Exit(_, _) => o == o0
    case Fall(R1) =>
      var v := Eval(cmp, src, R1);
      match o
      case Stuck => false
      case Fall(R2) => AgreeBut(R1, R2, n, reg) && v == Get(R2, reg)
      case Exit(j, R2) => AgreeBut(R1, R2, n, reg) && ExitOk(code, e, j, R2, v)
  }

  // A run that makes sense in n registers.
  ghost predicate GoodRegs(o0: Outcome) { o0.Fall? ==> |o0.R| >= MAXREGS }

  // The value an expression of kind k stands for once control has fallen through.
  function Produced(fs: FS, k: Kind, R: Regs): Value {
    match k
    case VTrue => Bool(true)
    case VFalse => Bool(false)
    case VK(v) => v
    case VNonReloc(r) => Get(R, r)
    case VLocal(r) => Get(R, r)
    case VReloc(pc) => if pc < |fs.code| && fs.code[pc].Not? then Bool(IsFalse(Get(R, fs.code[pc].b))) else Nil
    case _ => Nil
  }

  lemma DischargeToRegExec(cmp: Compare, outer: set<nat>, fs0: FS, fs: FS, e: Exp, reg: nat, pc: nat, R: Regs)
    requires Shape(outer, fs0, fs, e) && !e.k.VJmp? && DischargeToReg(fs, e, reg).Ok?
    requires Entry(outer, fs0, pc) && Run(cmp, outer, fs, e, pc, R) != Stuck
    ensures var fs1 := DischargeToReg(fs, e, reg).value.0;
            Exec(cmp, Prog(fs1.code, outer + Own(e), Elems(fs1.jpc)), pc, R) ==
            match Run(cmp, outer, fs, e, pc, R)
            case Fall(R2) => Fall(Set(R2, reg, Produced(fs, e.k, R2)))
            case o => o
  {
    hide Elems, Pending, SameTests, Distinct, Exec, OnlyFall;
    match e.k
    case VNil =>
      if EmitNil(fs, reg) != Code(fs, LoadNil(reg, 0)) {
        MergeSound(outer, Own(e), fs, reg);
        MergeMeans(cmp, outer, fs0, fs, e, reg, pc, R);
      } else {
        LoadMeans(cmp, outer, fs, e, LoadNil(reg, 0), pc, R);
        forall R2 ensures FillNil(R2, reg, 0) == Set(R2, reg, Nil) { }
      }
    case VTrue => LoadMeans(cmp, outer, fs, e, LoadBool(reg, true, false), pc, R);
    case VFalse => LoadMeans(cmp, outer, fs, e, LoadBool(reg, false, false), pc, R);
    case VK(v) => LoadMeans(cmp, outer, fs, e, LoadK(reg, v), pc, R);
    case VReloc(q) => RelocateExec(cmp, outer, fs, e, reg, pc, R);
    case VNonReloc(r) => MoveMeans(cmp, outer, fs, e, r, reg, pc, R);
    case VLocal(r) => MoveMeans(cmp, outer, fs, e, r, reg, pc, R);
  }

  lemma DischargeToRegMeans(cmp: Compare, outer: set<nat>, fs0: FS, n: nat, fs: FS, e: Exp, src: Expr, reg: nat,
      pc: nat, R: Regs)
    requires Shape(outer, fs0, fs, e) && !e.k.VJmp? && DischargeToReg(fs, e, reg).Ok? && reg < MAXREGS
    requires Entry(outer, fs0, pc) && GoodRegs(Run0(cmp, outer, fs0, pc, R))
    requires Means(cmp, Run0(cmp, outer, fs0, pc, R), n, NO_REG, fs, e, src, Run(cmp, outer, fs, e, pc, R))
             && n <= MAXREGS
    ensures var fs1 := DischargeToReg(fs, e, reg).value.0;
            InReg(cmp, Run0(cmp, outer, fs0, pc, R), n, reg, fs1.code, e, src,
                  Exec(cmp, Prog(fs1.code, outer + Own(e), Elems(fs1.jpc)), pc, R))
  {
    DischargeToRegShape(outer, fs0, fs, e, reg);
    SameExits(outer, e, fs.code, DischargeToReg(fs, e, reg).value.0.code);
    hide Elems, Pending, SameTests, Distinct, Exec, OnlyFall, DischargeToReg, Sound;
    var o0 := Run0(cmp, outer, fs0, pc, R);
    if !o0.Stuck? {
      DischargeToRegExec(cmp, outer, fs0, fs, e, reg, pc, R);
    }
  }

  // Exits keep their meaning when their tests are kept.
  lemma SameExits(outer: set<nat>, e: Exp, code: seq<Instr>, code': seq<Instr>)
    requires SameTests(outer + Own(e), code, code')
    ensures forall j, R, v :: ExitOk(code', e, j, R, v) <==> ExitOk(code, e, j, R, v)
  {
    forall j, R, v ensures ExitOk(code', e, j, R, v) <==> ExitOk(code, e, j, R, v) {
      if j in Elems(e.t) || j in Elems(e.f) { assert j in outer + Own(e); }
    }
  }

  lemma LoadMeans(cmp: Compare, outer: set<nat>, fs: FS, e: Exp, i: Instr, pc: nat, R: Regs)
    requires Sound(outer, Own(e), fs) && Code(fs, i).Ok? && (i.LoadK? || i.LoadNil? || i.LoadBool?)
             && (i.LoadBool? ==> !i.skip)
    requires Exec(cmp, Prog(fs.code, outer + Own(e), Elems(fs.jpc)), pc, R) != Stuck
    ensures var fs1 := Code(fs, i).value;
            Exec(cmp, Prog(fs1.code, outer + Own(e), Elems(fs1.jpc)), pc, R) ==
            match Exec(cmp, Prog(fs.code, outer + Own(e), Elems(fs.jpc)), pc, R)
            case Fall(R2) => Fall(Effect(i, R2))
            case o => o
  {
    hide Elems, Exec;
    CodeExec(cmp, outer, Own(e), fs, i, pc, R);
    CodeSound(outer, Own(e), fs, i);
    NoElems();
  }

  lemma MoveMeans(cmp: Compare, outer: set<nat>, fs: FS, e: Exp, r: nat, reg: nat, pc: nat, R: Regs)
    requires Sound(outer, Own(e), fs) && (e.k == VNonReloc(r) || e.k == VLocal(r)) && DischargeToReg(fs, e, reg).Ok?
    requires Exec(cmp, Prog(fs.code, outer + Own(e), Elems(fs.jpc)), pc, R) != Stuck
    ensures var fs1 := DischargeToReg(fs, e, reg).value.0;
            Exec(cmp, Prog(fs1.code, outer + Own(e), Elems(fs1.jpc)), pc, R) ==
            match Exec(cmp, Prog(fs.code, outer + Own(e), Elems(fs.jpc)), pc, R)
            case Fall(R2) => Fall(Set(R2, reg, Get(R2, r)))
            case o => o
  {
    hide Elems, Exec;
    if r != reg {
      CodeExec(cmp, outer, Own(e), fs, Move(reg, r), pc, R);
      CodeSound(outer, Own(e), fs, Move(reg, r));
      NoElems();
    } else {
      forall R2 ensures Set(R2, reg, Get(R2, r)) == R2 { }
    }
  }

  lemma RelocateExec(cmp: Compare, outer: set<nat>, fs: FS, e: Exp, reg: nat, pc: nat, R: Regs)
    requires KindShape(fs, e.k) && e.k.VReloc? && Run(cmp, outer, fs, e, pc, R) != Stuck
    ensures var b := fs.code[e.k.pc].b;
            Exec(cmp, Prog(fs.code[e.k.pc := Relocated(fs.code[e.k.pc], reg)], outer + Own(e), Elems(fs.jpc)), pc, R) ==
            match Run(cmp, outer, fs, e, pc, R)
            case Fall(R2) => Fall(Set(R2, reg, Bool(IsFalse(Get(R2, b)))))
            case o => o
  {
    hide Exec, Own;
    var q := e.k.pc;
    var body, i := fs.code[..q], Relocated(fs.code[q], reg);
    NoElems();
    assert fs.code[q := i] == body + [i];
    ExtendExec(cmp, body, [i], outer + Own(e), {}, pc, R);
    assert outer + Own(e) + {} == outer + Own(e);
    match Run(cmp, outer, fs, e, pc, R)
    case Fall(R2) => OneInstr(cmp, Prog(body + [i], outer + Own(e), {}), R2);
    case _ =>
  }

  lemma MergeMeans(cmp: Compare, outer: set<nat>, fs0: FS, fs: FS, e: Exp, reg: nat, pc: nat, R: Regs)
    requires Shape(outer, fs0, fs, e) && e.k == VNil && EmitNil(fs, reg) != Code(fs, LoadNil(reg, 0))
    requires Entry(outer, fs0, pc) && Mergeable(fs0)
    ensures EmitNil(fs, reg).Ok? && Run(cmp, outer, fs, e, pc, R) == Run0(cmp, outer, fs0, pc, R)
    ensures var fs1 := EmitNil(fs, reg).value;
            Exec(cmp, Prog(fs1.code, outer + Own(e), Elems(fs1.jpc)), pc, R) ==
            match Run0(cmp, outer, fs0, pc, R)
            case Fall(R2) => Fall(Set(R2, reg, Nil))
            case o => o
  {
    MergeSound(outer, Own(e), fs, reg);
    NoElems();
    assert Own(e) == {} && outer + Own(e) == outer;
    var fs1, m := EmitNil(fs, reg).value, |fs.code| - 1;
    MergeExec(cmp, Prog(fs.code, outer, Elems(fs.jpc)), fs1.code[m], reg, pc, R);
  }

  // ---------- tests and their jumps ----------

  lemma CondJumpSound(outer: set<nat>, own: set<nat>, fs: FS, test: Instr)
    requires Lists(outer, own, fs) && CondJump(fs, test).Ok? && TMode(test) && (test.TestSet? ==> test.a == NO_REG)
    ensures var (fs1, j) := CondJump(fs, test).value; var n := |fs.code|;
            && j == n + 1 && |fs1.code| == n + 2 && fs1.code[n] == test && fs1.code[n + 1] == Jmp(0, NO_JUMP)
            && fs1 == fs.(code := fs1.code, jpc := []) && Lists(outer, own + {j}, fs1) && j !in outer + own
            && SameTests(outer + own, fs.code, fs1.code)
  {
    hide Elems;
    PendingUnion(fs.code, outer, own);
    DischargeFacts(fs, outer + own);
    var code1, j := DischargeJpc(fs).value.code, |fs.code| + 1;
    var ext := [test, Jmp(0, NO_JUMP)];
    PendingExtend(code1, ext, outer + own);
    SameTestsTrans(outer + own, fs.code, code1, code1 + ext);
    assert CondJump(fs, test).value.0.code == code1 + ext;
    assert Pending(code1 + ext, outer) && Pending(code1 + ext, own) && Pending(code1 + ext, {j});
    PendingUnion(code1 + ext, own, {j});
    NoElems();
  }

  // A run over body into a test and its jump.
  lemma TestJumpExec(cmp: Compare, body: seq<Instr>, test: Instr, jump: Instr, exits: set<nat>, pc: nat, R: Regs)
    requires TMode(test) && (test.TestSet? ==> test.a == NO_REG) && jump.Jmp?
    requires Exec(cmp, Prog(body, exits, {}), pc, R) != Stuck
    ensures Exec(cmp, Prog(body + [test, jump], exits + {|body| + 1}, {}), pc, R) ==
            match Exec(cmp, Prog(body, exits, {}), pc, R)
            case Fall(R2) => if Skips(cmp, test, R2) then Fall(R2) else Exit(|body| + 1, R2)
            case o => o
  {
    ExtendExec(cmp, body, [test, jump], exits, {|body| + 1}, pc, R);
    var p := Prog(body + [test, jump], exits + {|body| + 1}, {});
    match Exec(cmp, Prog(body, exits, {}), pc, R)
    case Fall(R2) =>
      assert p.code[|body|] == test && p.code[|body| + 1] == jump;
      assert Exec(cmp, p, |body| + 2, R2) == Fall(R2);
    case _ =>
  }

  lemma CondJumpExec(cmp: Compare, outer: set<nat>, own: set<nat>, fs: FS, test: Instr, pc: nat, R: Regs)
    requires Lists(outer, own, fs) && CondJump(fs, test).Ok? && TMode(test) && (test.TestSet? ==> test.a == NO_REG)
    requires Exec(cmp, Prog(fs.code, outer + own, Elems(fs.jpc)), pc, R) != Stuck
    ensures var j := |fs.code| + 1;
            Exec(cmp, Prog(CondJump(fs, test).value.0.code, outer + own + {j}, {}), pc, R) ==
            match Exec(cmp, Prog(fs.code, outer + own, Elems(fs.jpc)), pc, R)
            case Fall(R2) => if Skips(cmp, test, R2) then Fall(R2) else Exit(j, R2)
            case o => o
  {
    hide Elems, Exec;
    DischargeExec(cmp, fs, outer + own, pc, R);
    DischargeFacts(fs, {});
    var code1 := DischargeJpc(fs).value.code;
    TestJumpExec(cmp, code1, test, Jmp(0, NO_JUMP), outer + own, pc, R);
    assert CondJump(fs, test).value.0.code == code1 + [test, Jmp(0, NO_JUMP)];
  }

  // Sending a list here: its exits become falling through.
  lemma ToHereExec(cmp: Compare, code: seq<Instr>, exits: set<nat>, js: set<nat>, here: set<nat>, pc: nat, R: Regs)
    requires exits !! js && exits !! here && js !! here
    ensures Exec(cmp, Prog(code, exits, here + js), pc, R) ==
            match Exec(cmp, Prog(code, exits + js, here), pc, R)
            case Exit(j, R2) => if j in js then Fall(R2) else Exit(j, R2)
            case o => o
  {
    hide Exec;
    HereExec(cmp, code, exits, here + js, pc, R);
    HereExec(cmp, code, exits + js, here, pc, R);
    assert exits + (here + js) == exits + js + here;
  }
}
