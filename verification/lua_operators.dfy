// Operands, conditions and operators of lcode.c, and the expression parser that
// drives them, on a FuncState that is updated in place.
module LuaOperators {
  import opened LuaVM
  import opened LuaExec
  import opened LuaCorrect
  import opened LuaLists
  import LuaGen
  import opened LuaCond
  import opened LuaValue
  import opened LuaCompile
  import opened LuaCode

  // ---------- registers ----------

  lemma FreeNothing(outer: set<nat>, fs: FS, e: Exp)
    requires Shape(outer, fs, fs, e)
    ensures LuaGen.FreeExp(fs, LuaGen.DischargeVars(e)) == fs && LuaGen.FreeExp(fs, e) == fs
    ensures LuaGen.DischargeVars(e).k.VNonReloc? ==> LuaGen.DischargeVars(e).k.r < fs.nactvar
  {
    hide Elems, Distinct, Pending;
  }

  lemma VarsEncode(code: seq<Instr>, d: ExpDesc, e: Exp)
    requires Encodes(code, d, e)
    ensures Encodes(code, DischargeVars(d), LuaGen.DischargeVars(e)) && Own(LuaGen.DischargeVars(e)) == Own(e)
  {
  }

  // luaK_exp2nextreg
  method ExpToNextReg(fs: FuncState, d0: ExpDesc, ghost outer: set<nat>, ghost e: Exp) returns (r: Result<ExpDesc>)
    requires At(fs, outer, d0, e)
    modifies fs
    ensures Raised(r, LuaGen.ExpToNextReg(old(fs.model), e), |fs.code|)
    ensures r.Ok? ==>
      var (m, x) := LuaGen.ExpToNextReg(old(fs.model), e).value;
      && fs.model == m && fs.Rep(outer) && Encodes(fs.code, r.value, x) && Kept(old(fs.code), fs.code, outer)
      && x == LuaGen.Exp(LuaGen.VNonReloc(old(fs.model.freereg)), [], [])
  {
    hide IsList, Elems, Own, Distinct, Kept, Shape, Reps, LuaGen.ExpToReg, LuaGen.DischargeVars;
    ghost var m0, x := fs.model, LuaGen.DischargeVars(e);
    FreeNothing(outer, m0, e);
    VarsShape(outer, m0, m0, e);
    VarsEncode(fs.code, d0, e);
    var d := DischargeVars(d0);
    FreeExp(fs, d, x, outer + Own(x));
    assert fs.model == m0;
    var _ :- ReserveReg(fs, outer + Own(x));
    ReserveShape(outer, m0, m0, x);
    Reform(outer, m0, fs.model, x);
    NextRegResult(m0, e);
    ghost var m1, reg := fs.model, fs.freereg - 1;
    r := ExpToReg(fs, d, fs.freereg - 1, outer, x);
    if r.Ok? { ExpToRegResult(m1, x, reg); }
  }

  lemma NextRegResult(fs: FS, e: Exp)
    ensures var x := LuaGen.DischargeVars(e); var r := LuaGen.ReserveReg(LuaGen.FreeExp(fs, x));
            && (r.Ok? ==> LuaGen.ExpToNextReg(fs, e) == LuaGen.ExpToReg(r.value, x, r.value.freereg - 1))
            && (!r.Ok? ==> LuaGen.ExpToNextReg(fs, e).TooManyRegisters?)
  {
    hide LuaGen.ExpToReg;
  }

  lemma ExpToRegResult(fs: FS, e: Exp, reg: nat)
    requires LuaGen.ExpToReg(fs, e, reg).Ok?
    ensures LuaGen.ExpToReg(fs, e, reg).value.1 == LuaGen.Exp(LuaGen.VNonReloc(reg), [], [])
  {
    hide LuaGen.DischargeToReg, LuaGen.PatchListAux, LuaGen.CodeLoads, LuaGen.NeedValue;
  }

  // The value is in a register or can go there without more ado.
  ghost predicate AtValue(fs: FuncState, outer: set<nat>, d: ExpDesc, e: Exp)
    reads fs
  {
    At(fs, outer, d, e) || (e.k.VNonReloc? && e.t == [] && e.f == [] && fs.Rep(outer) && Encodes(fs.code, d, e))
  }

  // luaK_exp2anyreg
  method ExpToAnyReg(fs: FuncState, d0: ExpDesc, ghost outer: set<nat>, ghost e: Exp) returns (r: Result<ExpDesc>)
    requires AtValue(fs, outer, d0, e)
    modifies fs
    ensures Raised(r, LuaGen.ExpToAnyReg(old(fs.model), e), |fs.code|)
    ensures r.Ok? ==>
      var (m, x) := LuaGen.ExpToAnyReg(old(fs.model), e).value;
      && fs.model == m && fs.Rep(outer) && Encodes(fs.code, r.value, x) && Kept(old(fs.code), fs.code, outer)
      && x.k.VNonReloc? && x.t == [] && x.f == []
  {
    hide IsList, Elems, Distinct, Kept, Shape, Reps, LuaGen.ExpToReg, LuaGen.ExpToNextReg;
    var d := DischargeVars(d0);
    EmptyList(fs.code);
    ListHead(fs.code, d.t, e.t);
    ListHead(fs.code, d.f, e.f);
    if At(fs, outer, d0, e) { FreeNothing(outer, fs.model, e); NextRegVars(fs.model, e); }
    if d.k.VNonReloc? {
      if d.t == NO_JUMP && d.f == NO_JUMP {
        NoOwn(e);
        assert outer + {} == outer;
        KeptItself(fs.code, outer);
        VarsEncode(fs.code, d0, e);
        return LuaGen.Ok(d);
      }
      if d.k.r >= fs.nactvar {
        assert false; // jumps hang only on values of locals here
      }
    }
    r := ExpToNextReg(fs, d0, outer, e);
  }

  lemma NextRegVars(fs: FS, e: Exp)
    ensures LuaGen.ExpToNextReg(fs, LuaGen.DischargeVars(e)) == LuaGen.ExpToNextReg(fs, e)
  {
    hide LuaGen.ExpToReg;
  }

  // luaK_exp2RK
  method ExpToRK(fs: FuncState, d0: ExpDesc, ghost outer: set<nat>, ghost e: Exp) returns (r: Result<(ExpDesc, RK)>)
    requires At(fs, outer, d0, e)
    modifies fs
    ensures Raised(r, LuaGen.ExpToRK(old(fs.model), e), |fs.code|)
    ensures r.Ok? ==>
      var (m, x, rk) := LuaGen.ExpToRK(old(fs.model), e).value;
      && fs.model == m && fs.Rep(outer) && r.value.0.k == x.k && r.value.1 == rk && Kept(old(fs.code), fs.code, outer)
  {
    hide IsList, Elems, Distinct, Kept, Shape, Reps, LuaGen.ExpToAnyReg;
    var d := d0;
    ghost var x, code0 := e, fs.code;
    EmptyList(fs.code);
    ListHead(fs.code, d0.t, e.t);
    ListHead(fs.code, d0.f, e.f);
    if d0.t != NO_JUMP || d0.f != NO_JUMP {
      ghost var m0 := fs.model;
      d :- ExpToAnyReg(fs, d0, outer, e);
      x := LuaGen.ExpToAnyReg(m0, e).value.1;
    } else {
      d := DischargeVars(d0);
      x := LuaGen.DischargeVars(e);
      VarsEncode(fs.code, d0, e);
      VarsShape(outer, fs.model, fs.model, e);
      NoOwn(x);
      NoOwn(e);
      assert outer + {} == outer;
      KeptItself(fs.code, outer);
    }
    ghost var code1 := fs.code;
    if d.k.VNil? {
      return LuaGen.Ok((d.(k := LuaGen.VK(Value.Nil)), Const(Value.Nil)));
    } else if d.k.VTrue? {
      return LuaGen.Ok((d.(k := LuaGen.VK(Bool(true))), Const(Bool(true))));
    } else if d.k.VFalse? {
      return LuaGen.Ok((d.(k := LuaGen.VK(Bool(false))), Const(Bool(false))));
    } else if d.k.VK? {
      return LuaGen.Ok((d, Const(d.k.v)));
    }
    var d1 :- ExpToAnyReg(fs, d, outer, x);
    KeptTrans(code0, code1, fs.code, outer);
    return LuaGen.Ok((d1, Reg(d1.k.r)));
  }

  // luaK_storevar on a local variable
  method StoreLocal(fs: FuncState, reg: nat, d: ExpDesc, ghost outer: set<nat>, ghost e: Exp) returns (r: Result<()>)
    requires At(fs, outer, d, e)
    modifies fs
    ensures Raised(r, LuaGen.StoreLocal(old(fs.model), reg, e), |fs.code|)
    ensures r.Ok? ==>
            LuaGen.StoreLocal(old(fs.model), reg, e) == LuaGen.Ok(fs.model) && fs.Rep(outer)
            && Kept(old(fs.code), fs.code, outer)
  {
    hide IsList, Elems, Own, Distinct, Kept, Shape, Reps, LuaGen.ExpToReg;
    FreeNothing(outer, fs.model, e);
    ghost var m0 := fs.model;
    FreeExp(fs, d, e, outer + Own(e));
    assert fs.model == m0;
    var _ :- ExpToReg(fs, d, reg, outer, e);
    return LuaGen.Ok(());
  }

  // ---------- conditions ----------

  // negatecondition
  method NegateCondition(fs: FuncState, d: ExpDesc, ghost outer: set<nat>, ghost e: Exp)
    requires At(fs, outer, d, e) && e.k.VJmp?
    modifies fs
    ensures fs.model == LuaGen.NegateCondition(old(fs.model), e.k.pc) && At(fs, outer, d, e)
            && |fs.code| == |old(fs.code)|
    ensures fs.code[e.k.pc] == old(fs.code)[e.k.pc] && Kept(old(fs.code), fs.code, outer + Own(e))
  {
    hide IsList, Elems, Own, Distinct, Kept, Reps, Sound, SameTests, Mergeable;
    ghost var all, m0, code0 := outer + Own(e) + Elems(fs.model.jpc), fs.model, fs.code;
    RepsSame(fs.code, fs.model.code, all, d.k.pc);
    RepsBound(fs.code, fs.model.code, all);
    var c := LuaGen.Control(fs.code, d.k.pc);
    var i := fs.code[c];
    RepsReplace(fs.code, fs.model.code, all, c, Cmp(i.op, !i.want, i.x, i.y));
    fs.code := fs.code[c := Cmp(i.op, !i.want, i.x, i.y)];
    fs.model := LuaGen.NegateCondition(fs.model, d.k.pc);
    NegateShape(outer, m0, m0, e);
    Reform(outer, m0, fs.model, e);
    KeptPart(code0, fs.code, outer + Own(e), Elems(m0.jpc));
    KeptList(code0, fs.code, all, fs.jpc, m0.jpc);
    KeptEncodes(code0, fs.code, outer + Own(e), d, e);
  }

  lemma DropReps(code: seq<Instr>, mcode: seq<Instr>, waiting: set<nat>)
    requires Reps(code, mcode, waiting) && |code| > 0 && !mcode[|code| - 1].Jmp?
    ensures var n := |code| - 1;
            code[n] == mcode[n] && Reps(code[..n], mcode[..n], waiting) && Kept(code, code[..n], waiting)
  {
    assert |code| - 1 !in waiting;
  }

  // jumponcond: the jump taken when e is cond
  method JumpOnCond(fs: FuncState, d: ExpDesc, cond: bool, ghost outer: set<nat>, ghost e: Exp) returns (r: Result<nat>)
    requires At(fs, outer, d, e) && !e.k.VJmp? && !e.k.VLocal?
    modifies fs
    ensures Raised(r, LuaGen.JumpOnCond(old(fs.model), e, cond), |fs.code|)
    ensures r.Ok? ==>
      && LuaGen.JumpOnCond(old(fs.model), e, cond) == LuaGen.Ok((fs.model, r.value)) && fs.Rep(outer + Own(e))
      && r.value < |fs.code| && fs.code[r.value] == Jmp(0, NO_JUMP) && Kept(old(fs.code), fs.code, outer + Own(e))
  {
    hide IsList, Elems, Own, Distinct, Kept, Shape, Reps, LuaGen.CondJump, LuaGen.DischargeToAnyReg;
    ghost var m0, all, code0 := fs.model, outer + Own(e), fs.code;
    RepsBound(code0, m0.code, all + Elems(m0.jpc));
    if d.k.VReloc? {
      RelocAtEnd(outer, m0, e);
      DropReps(fs.code, fs.model.code, all + Elems(m0.jpc));
      var ie := fs.code[|fs.code| - 1];
      fs.code := fs.code[..|fs.code| - 1];
      fs.model := fs.model.(code := m0.code[..|m0.code| - 1]);
      EmptyList(fs.code);
      EmptyList(code0);
      KeptPart(code0, fs.code, all, Elems(m0.jpc));
      ListHead(code0, fs.jpc, m0.jpc);
      ghost var code1 := fs.code;
      r := fs.CondJump(Test(ie.b, !cond), all);
      if r.Ok? { KeptTrans(code0, code1, fs.code, all); }
    } else {
      AnyRegFacts(outer, m0, e);
      var d1 :- DischargeToAnyReg(fs, d, outer, e);
      ghost var x, code1 := LuaGen.DischargeToAnyReg(m0, e).value.1, fs.code;
      FreeExp(fs, d1, x, all);
      r := fs.CondJump(TestSet(NO_REG, d1.k.r, cond), all);
      if r.Ok? { KeptTrans(code0, code1, fs.code, all); }
    }
  }

  lemma RelocAtEnd(outer: set<nat>, fs: FS, e: Exp)
    requires Shape(outer, fs, fs, e) && e.k.VReloc?
    ensures |fs.code| > 0 && e.k.pc == |fs.code| - 1 && fs.code[e.k.pc].Not? && fs.jpc == []
    ensures Distinct(fs.jpc) && Elems(fs.jpc) !! (outer + Own(e))
  {
    hide Elems, Pending;
    SoundPending(outer, Own(e), fs);
  }

  lemma AnyRegFacts(outer: set<nat>, fs: FS, e: Exp)
    requires Shape(outer, fs, fs, e) && !e.k.VJmp? && !e.k.VLocal?
    ensures var r := LuaGen.DischargeToAnyReg(fs, e);
            r.Ok? ==> var g := LuaGen.FreeExp(r.value.0, r.value.1);
                      r.value.1.k.VNonReloc? && Sound(outer, Own(e), g) && Distinct(g.jpc)
                        && Elems(g.jpc) !! (outer + Own(e))
  {
    var r := LuaGen.DischargeToAnyReg(fs, e);
    if r.Ok? {
      AnyRegShape(outer, fs, fs, e);
      SoundPending(outer, Own(e), LuaGen.FreeExp(r.value.0, r.value.1));
    }
  }

  // The switch of luaK_goiftrue and luaK_goiffalse.
  function CondSwitch(fs: FS, e: Exp, cond: bool): Result<(FS, seq<nat>)> {
    match e.k
    case VJmp(pc) => LuaGen.Ok((if cond then fs else LuaGen.NegateCondition(fs, pc), [pc]))
    case _ =>
      if Settled(e.k, cond) then LuaGen.Ok((fs, []))
      else
        var (fs1, pc) :- LuaGen.JumpOnCond(fs, e, cond);
        LuaGen.Ok((fs1, [pc]))
  }

  lemma GoIfSwitch(fs: FS, e0: Exp, cond: bool)
    ensures var e := LuaGen.DischargeVars(e0); var s := CondSwitch(fs, e, cond);
            && (s.Ok? ==> var d := WithJumps(e, s.value.1, cond);
                          GoIf(fs, e0, cond) == LuaGen.Ok((LuaGen.PatchToHere(s.value.0, if cond then d.f else d.t),
                                                           if cond then LuaGen.Exp(e.k, d.t, [])
                                                             else LuaGen.Exp(e.k, [], d.f))))
            && (s.TooManyRegisters? ==> GoIf(fs, e0, cond).TooManyRegisters?)
            && (s.TooManyLocals? ==> GoIf(fs, e0, cond).TooManyLocals?)
  {
    hide LuaGen.JumpOnCond, LuaGen.PatchToHere, LuaGen.NegateCondition;
  }

  method RunSwitch(fs: FuncState, d: ExpDesc, cond: bool, ghost outer: set<nat>, ghost e: Exp) returns (r: Result<int>)
    requires At(fs, outer, d, e) && !e.k.VLocal?
    modifies fs
    ensures Raised(r, CondSwitch(old(fs.model), e, cond), |fs.code|)
    ensures r.Ok? ==>
      var (m, js) := CondSwitch(old(fs.model), e, cond).value;
      && fs.model == m && fs.Rep(outer + Own(e)) && IsList(fs.code, r.value, js)
         && Kept(old(fs.code), fs.code, outer + Own(e))
      && (js != [] ==> js == [r.value] && r.value < |fs.code| && fs.code[r.value] == Jmp(0, NO_JUMP))
  {
    hide IsList, Elems, Own, Distinct, Kept, Shape, Reps, LuaGen.JumpOnCond, LuaGen.NegateCondition;
    KeptItself(fs.code, outer + Own(e));
    EmptyList(fs.code);
    if d.k.VJmp? {
      if !cond { NegateCondition(fs, d, outer, e); }
      OneList(fs.code, d.k.pc);
      return LuaGen.Ok(d.k.pc);
    } else if Settled(d.k, cond) {
      return LuaGen.Ok(NO_JUMP);
    }
    var pc :- JumpOnCond(fs, d, cond, outer, e);
    OneList(fs.code, pc);
    return LuaGen.Ok(pc);
  }

  lemma OneList(code: seq<Instr>, j: nat)
    requires j < |code| && code[j] == Jmp(0, NO_JUMP)
    ensures IsList(code, j, [j])
  {
    assert [j][1..] == [];
  }

  // The new jumps join one list of e; the other list goes here.
  method JoinAndPatch(fs: FuncState, mine: int, other: int, pc: int, cond: bool, ghost outer: set<nat>, ghost e: Exp,
      ghost js: seq<nat>, ghost fs0: FS)
    returns (r: Result<int>)
    requires fs.Rep(outer + Own(e)) && Branching(outer, fs0, fs.model, WithJumps(e, js, cond))
    requires IsList(fs.code, mine, if cond then e.t else e.f) && IsList(fs.code, other, if cond then e.f else e.t)
             && IsList(fs.code, pc, js)
    requires Distinct(e.t) && Distinct(e.f) && Elems(e.t) !! Elems(e.f) && Elems(js) !! Own(e) && |js| <= 1
    requires js != [] ==> js == [pc] && pc < |fs.code| && fs.code[pc] == Jmp(0, NO_JUMP)
    modifies fs
    ensures var d := WithJumps(e, js, cond); var list := if cond then d.f else d.t;
            var rest := if cond then d.t else d.f;
            match r
            case Ok(l) => fs.model == LuaGen.PatchToHere(old(fs.model), list) && fs.Rep(outer + Elems(rest))
              && IsList(fs.code, l, rest)
                          && Kept(old(fs.code), fs.code, outer)
            case _ => r.TooLong? && |fs.code| > MAXARG_sBx
  {
    hide IsList, Distinct, Kept, Reps, Elems, Pending, SameTests;
    ghost var s1 := if cond then e.t else e.f;
    ghost var s2 := if cond then e.f else e.t;
    ghost var J, m0, code0, d := Elems(fs.model.jpc), fs.model, fs.code, WithJumps(e, js, cond);
    ghost var all := outer + Elems(s1) + Elems(s2) + Elems(js);
    ElemsAppend(e.t, js);
    ElemsAppend(e.f, js);
    SoundPending(outer, Own(d), m0);
    NewWaiting(fs.code, m0.code, outer + Own(e) + J, js);
    assert outer + Own(e) + J + Elems(js) == all + J;
    var l :- fs.Concat(mine, pc, s1, js, all + J);
    ghost var code1 := fs.code;
    ConcatKept(code0, code1, Elems(s1), outer + Elems(s2), J);
    KeptList(code0, code1, outer + Elems(s2) + J, other, s2);
    KeptList(code0, code1, outer + Elems(s2) + J, fs.jpc, m0.jpc);
    assert fs.Rep(all);
    var _ :- fs.PatchToHere(other, s2, all);
    assert all == outer + Elems(s1 + js) + Elems(s2);
    KeptPart(code1, fs.code, outer + Elems(s1 + js), Elems(s2));
    KeptList(code1, fs.code, all, l, s1 + js);
    KeptPart(code1, fs.code, outer, Elems(s1 + js));
    KeptPart(code0, code1, outer + Elems(s2), J);
    KeptPart(code0, code1, outer, Elems(s2));
    KeptTrans(code0, code1, fs.code, outer);
    assert all - Elems(s2) == outer + Elems(s1 + js);
    return LuaGen.Ok(l);
  }

  lemma NewWaiting(code: seq<Instr>, mcode: seq<Instr>, waiting: set<nat>, js: seq<nat>)
    requires Reps(code, mcode, waiting) && |js| <= 1 && (js != [] ==> js[0] < |code| && code[js[0]] == Jmp(0, NO_JUMP))
    ensures Reps(code, mcode, waiting + Elems(js))
  {
    if js == [] {
      NoElems();
      assert waiting + Elems(js) == waiting;
    } else {
      RepsMono(code, mcode, waiting, js[0]);
      ElemsCons(js);
      assert js[1..] == [];
      assert waiting + Elems(js) == waiting + {js[0]};
    }
  }

  lemma ConcatKept(code0: seq<Instr>, code: seq<Instr>, changed: set<nat>, a: set<nat>, b: set<nat>)
    requires |code| == |code0| && forall j :: 0 <= j < |code| && j !in changed ==> code[j] == code0[j]
    requires changed !! a && changed !! b
    ensures Kept(code0, code, a + b)
  {
  }

  // What the switch leaves, for a condition that compiles.
  lemma SwitchFacts(outer: set<nat>, m0: FS, e: Exp, cond: bool)
    requires Shape(outer, m0, m0, e) && !e.k.VLocal? && CondSwitch(m0, e, cond).Ok?
    ensures var (m1, js) := CondSwitch(m0, e, cond).value;
            Branching(outer, m0, m1, WithJumps(e, js, cond)) && Elems(js) !! Own(e) && |js| <= 1
    ensures Distinct(e.t) && Distinct(e.f) && Elems(e.t) !! Elems(e.f)
  {
    NoElems();
    if e.k.VJmp? {
      NegateShape(outer, m0, m0, e);
      JmpShape(outer, m0, if cond then m0 else LuaGen.NegateCondition(m0, e.k.pc), e, cond);
      ElemsCons([e.k.pc]);
    } else if Settled(e.k, cond) {
      assert e.t + [] == e.t && e.f + [] == e.f;
    } else {
      JumpOnCondShape(outer, m0, m0, e, cond);
      ElemsCons([LuaGen.JumpOnCond(m0, e, cond).value.1]);
    }
  }

  // luaK_goiftrue
  method GoIfTrue(fs: FuncState, d0: ExpDesc, ghost outer: set<nat>, ghost e0: Exp) returns (r: Result<ExpDesc>)
    requires At(fs, outer, d0, e0)
    modifies fs
    ensures Raised(r, LuaGen.GoIfTrue(old(fs.model), e0), |fs.code|)
    ensures r.Ok? ==>
      var (m, y) := LuaGen.GoIfTrue(old(fs.model), e0).value;
      fs.model == m && fs.Rep(outer + Elems(y.f)) && IsList(fs.code, r.value.f, y.f)
        && Kept(old(fs.code), fs.code, outer)
  {
    hide IsList, Distinct, Kept, Reps, Elems, Own, Pending, SameTests, Shape, CondSwitch, Branching, LuaGen.GoIfTrue;
    ghost var m0, e, code0 := fs.model, LuaGen.DischargeVars(e0), fs.code;
    var d := DischargeVars(d0);
    VarsShape(outer, m0, m0, e0);
    VarsEncode(fs.code, d0, e0);
    GoIfSwitch(m0, e0, false);
    GoIfIsTrue(m0, e0);
    var pc :- RunSwitch(fs, d, false, outer, e);
    ghost var js, code1 := CondSwitch(m0, e, false).value.1, fs.code;
    SwitchFacts(outer, m0, e, false);
    OwnPart(e);
    KeptEncodes(code0, code1, outer + Own(e), d, e);
    KeptPart(code0, code1, outer, Own(e));
    var f :- JoinAndPatch(fs, d.f, d.t, pc, false, outer, e, js, m0);
    KeptTrans(code0, code1, fs.code, outer);
    return LuaGen.Ok(ExpDesc(d.k, NO_JUMP, f));
  }

  // luaK_goiffalse
  method GoIfFalse(fs: FuncState, d0: ExpDesc, ghost outer: set<nat>, ghost e0: Exp) returns (r: Result<ExpDesc>)
    requires At(fs, outer, d0, e0)
    modifies fs
    ensures Raised(r, LuaGen.GoIfFalse(old(fs.model), e0), |fs.code|)
    ensures r.Ok? ==>
      var (m, y) := LuaGen.GoIfFalse(old(fs.model), e0).value;
      fs.model == m && fs.Rep(outer + Elems(y.t)) && IsList(fs.code, r.value.t, y.t)
        && Kept(old(fs.code), fs.code, outer)
  {
    hide IsList, Distinct, Kept, Reps, Elems, Own, Pending, SameTests, Shape, CondSwitch, Branching, LuaGen.GoIfFalse;
    ghost var m0, e, code0 := fs.model, LuaGen.DischargeVars(e0), fs.code;
    var d := DischargeVars(d0);
    VarsShape(outer, m0, m0, e0);
    VarsEncode(fs.code, d0, e0);
    GoIfSwitch(m0, e0, true);
    GoIfIsTrue(m0, e0);
    var pc :- RunSwitch(fs, d, true, outer, e);
    ghost var js, code1 := CondSwitch(m0, e, true).value.1, fs.code;
    SwitchFacts(outer, m0, e, true);
    OwnPart(e);
    KeptEncodes(code0, code1, outer + Own(e), d, e);
    KeptPart(code0, code1, outer, Own(e));
    var t :- JoinAndPatch(fs, d.t, d.f, pc, true, outer, e, js, m0);
    KeptTrans(code0, code1, fs.code, outer);
    return LuaGen.Ok(ExpDesc(d.k, t, NO_JUMP));
  }

  lemma GoIfIsTrue(fs: FS, e: Exp)
    ensures GoIf(fs, e, false) == LuaGen.GoIfTrue(fs, e) && GoIf(fs, e, true) == LuaGen.GoIfFalse(fs, e)
  {
    hide LuaGen.GoIfTrue, LuaGen.GoIfFalse;
  }

  lemma OwnPart(e: Exp)
    ensures forall outer: set<nat> :: Own(e) <= outer + Own(e)
  {
  }

  // ---------- not ----------

  // codenot's switch.
  method NotSwitch(fs: FuncState, d: ExpDesc, ghost outer: set<nat>, ghost e: Exp) returns (r: Result<Kind>)
    requires At(fs, outer, d, e) && !e.k.VLocal?
    modifies fs
    ensures Raised(r, NotKind(old(fs.model), e), |fs.code|)
    ensures r.Ok? ==>
      var (m, k) := NotKind(old(fs.model), e).value;
      && fs.model == m && r.value == k && At(fs, outer, d.(k := k), e.(k := k)) && Kept(old(fs.code), fs.code, outer)
  {
    hide IsList, Elems, Own, Distinct, Kept, Shape, Reps, LuaGen.DischargeToAnyReg, LuaGen.NegateCondition, LuaGen.Code;
    ghost var m0, code0 := fs.model, fs.code;
    KeptItself(code0, outer);
    OwnPart(e);
    NotShape(outer, m0, e);
    if d.k.VNil? || d.k.VFalse? {
      SameLists(e, LuaGen.VTrue);
      return LuaGen.Ok(LuaGen.VTrue);
    } else if d.k.VK? || d.k.VTrue? {
      SameLists(e, LuaGen.VFalse);
      return LuaGen.Ok(LuaGen.VFalse);
    } else if d.k.VJmp? {
      SameLists(e, e.k);
      NegateCondition(fs, d, outer, e);
      KeptPart(code0, fs.code, outer, Own(e));
      return LuaGen.Ok(d.k);
    }
    AnyRegFacts(outer, m0, e);
    var d1 :- DischargeToAnyReg(fs, d, outer, e);
    ghost var x, code1 := LuaGen.DischargeToAnyReg(m0, e).value.1, fs.code;
    FreeExp(fs, d1, x, outer + Own(e));
    var pc :- fs.Code(Not(0, d1.k.r), outer + Own(e));
    RepsBound(code1, LuaGen.DischargeToAnyReg(m0, e).value.0.code,
      outer + Own(e) + Elems(LuaGen.DischargeToAnyReg(m0, e).value.0.jpc));
    KeptTrans(code0, code1, fs.code, outer + Own(e));
    KeptEncodes(code0, fs.code, outer + Own(e), d, e);
    KeptPart(code0, fs.code, outer, Own(e));
    SameLists(e, LuaGen.VReloc(pc));
    return LuaGen.Ok(LuaGen.VReloc(pc));
  }

  lemma NotShape(outer: set<nat>, fs: FS, e: Exp)
    requires Shape(outer, fs, fs, e) && !e.k.VLocal?
    ensures var r := NotKind(fs, e); r.Ok? ==> Shape(outer, r.value.0, r.value.0, e.(k := r.value.1))
  {
    var r := NotKind(fs, e);
    if r.Ok? {
      NotKindShape(outer, fs, fs, e);
      Reform(outer, fs, r.value.0, e.(k := r.value.1));
    }
  }

  lemma SameLists(e: Exp, k: Kind)
    ensures Own(e.(k := k)) == Own(e)
  {
  }

  // codenot
  method CodeNot(fs: FuncState, d0: ExpDesc, ghost outer: set<nat>, ghost e0: Exp) returns (r: Result<ExpDesc>)
    requires At(fs, outer, d0, e0)
    modifies fs
    ensures Raised(r, LuaGen.CodeNot(old(fs.model), e0), |fs.code|)
    ensures r.Ok? ==>
      var (m, x) := LuaGen.CodeNot(old(fs.model), e0).value;
      fs.model == m && At(fs, outer, r.value, x) && Kept(old(fs.code), fs.code, outer)
  {
    hide IsList, Elems, Own, Distinct, Kept, Shape, Reps, NotKind, LuaGen.RemoveValues, LuaGen.CodeNot;
    ghost var m0, e, code0 := fs.model, LuaGen.DischargeVars(e0), fs.code;
    var d := DischargeVars(d0);
    VarsShape(outer, m0, m0, e0);
    VarsEncode(fs.code, d0, e0);
    NotSteps(m0, e0);
    var k :- NotSwitch(fs, d, outer, e);
    ghost var m1, code1 := fs.model, fs.code;
    ghost var x := e.(k := k);
    ghost var all := outer + Own(x);
    OwnLists(x);
    var t, f := d.f, d.t; // interchange true and false lists
    fs.RemoveValues(f, e.t, all);
    ghost var code2 := fs.code;
    KeptList(code1, code2, all + Elems(m1.jpc), t, e.f);
    KeptList(code1, code2, all + Elems(m1.jpc), f, e.t);
    fs.RemoveValues(t, e.f, all);
    KeptList(code2, fs.code, all + Elems(m1.jpc), t, e.f);
    KeptList(code2, fs.code, all + Elems(m1.jpc), f, e.t);
    KeptTrans(code1, code2, fs.code, all + Elems(m1.jpc));
    KeptPart(code1, fs.code, all, Elems(m1.jpc));
    KeptPart(code1, fs.code, outer, Own(x));
    KeptTrans(code0, code1, fs.code, outer);
    RemoveBothShape(outer, m1, m1, x);
    Reform(outer, m1, fs.model, LuaGen.Exp(k, e.f, e.t));
    NotJump(fs, outer, code1, m1, x);
    return LuaGen.Ok(ExpDesc(k, t, f));
  }

  lemma NotSteps(fs: FS, e0: Exp)
    ensures var e := LuaGen.DischargeVars(e0); var s := NotKind(fs, e); var r := LuaGen.CodeNot(fs, e0);
            && (s.Ok? ==> r == LuaGen.Ok((s.value.0.(code := LuaGen.RemoveValues(LuaGen.RemoveValues(s.value.0.code,
               e.t), e.f)),
                                          LuaGen.Exp(s.value.1, e.f, e.t))))
            && (s.TooManyRegisters? ==> r.TooManyRegisters?) && (s.TooManyLocals? ==> r.TooManyLocals?)
  {
    hide LuaGen.DischargeToAnyReg, LuaGen.RemoveValues, LuaGen.Code, LuaGen.NegateCondition;
  }

  // A comparison's jump is untouched by removevalues.
  lemma NotJump(fs: FuncState, outer: set<nat>, code1: seq<Instr>, m1: FS, x: Exp)
    requires Shape(outer, m1, m1, x) && Reps(code1, m1.code, outer + Own(x) + Elems(m1.jpc))
    requires x.k.VJmp? ==> x.k.pc < |code1| && code1[x.k.pc] == Jmp(0, NO_JUMP)
    requires fs.Rep(outer + Own(x)) && fs.model == m1.(code := LuaGen.RemoveValues(LuaGen.RemoveValues(m1.code, x.t),
             x.f))
    ensures x.k.VJmp? ==> x.k.pc < |fs.code| && fs.code[x.k.pc] == Jmp(0, NO_JUMP)
  {
    if x.k.VJmp? {
      RemoveBoth(outer, m1, m1, x);
      NoElems();
      assert x.k.pc !in outer + Own(x) + Elems(m1.jpc);
      assert m1.code[x.k.pc] == Jmp(0, NO_JUMP);
      assert fs.model.code[x.k.pc] == m1.code[x.k.pc];
    }
  }

  // ---------- comparisons ----------

  // freeexps
  method FreeExps(fs: FuncState, d1: ExpDesc, d2: ExpDesc, ghost e1: Exp, ghost e2: Exp, ghost waiting: set<nat>)
    requires fs.Rep(waiting) && d1.k == e1.k && d2.k == e2.k
    modifies fs`freereg, fs`model
    ensures fs.model == LuaGen.FreeExps(old(fs.model), e1, e2) && fs.Rep(waiting)
  {
    hide IsList, Elems, Reps, LuaGen.FreeExp;
    var r1 := if d1.k.VNonReloc? then d1.k.r else -1;
    var r2 := if d2.k.VNonReloc? then d2.k.r else -1;
    if r1 > r2 {
      FreeExp(fs, d1, e1, waiting);
      FreeExp(fs, d2, e2, waiting);
    } else {
      FreeExp(fs, d2, e2, waiting);
      FreeExp(fs, d1, e1, waiting);
    }
  }

  // codecomp
  method CodeComp(fs: FuncState, op: CompareOp, d1: ExpDesc, rk1: RK, d2: ExpDesc, ghost outer: set<nat>,
      ghost e1: Exp, ghost e2: Exp)
    returns (r: Result<ExpDesc>)
    requires At(fs, outer, d2, e2) && d1.k == e1.k
    modifies fs
    ensures Raised(r, LuaGen.CodeComp(old(fs.model), op, e1, rk1, e2), |fs.code|)
    ensures r.Ok? ==>
      var (m, x) := LuaGen.CodeComp(old(fs.model), op, e1, rk1, e2).value;
      && fs.model == m && fs.Rep(outer) && Encodes(fs.code, r.value, x) && Own(x) == {}
         && Kept(old(fs.code), fs.code, outer)
  {
    hide IsList, Elems, Own, Distinct, Kept, Shape, Reps, LuaGen.ExpToRK, LuaGen.CondJump, LuaGen.FreeExps;
    ghost var m0, code0 := fs.model, fs.code;
    RKFacts(outer, m0, e2);
    var p :- ExpToRK(fs, d2, outer, e2);
    ghost var m1, x2, code1 := fs.model, LuaGen.ExpToRK(m0, e2).value.1, fs.code;
    var rk2 := p.1;
    FreeExps(fs, d1, p.0, e1, x2, outer);
    FreedJpc(m1, e1, x2);
    var test: Instr;
    match op {
      case OpNe => test := Cmp(LuaGen.Opcode(op), false, rk1, rk2);
      case OpGt => test := Cmp(LuaGen.Opcode(op), true, rk2, rk1); // invert operands
      case OpGe => test := Cmp(LuaGen.Opcode(op), true, rk2, rk1);
      case _ => test := Cmp(LuaGen.Opcode(op), true, rk1, rk2);
    }
    var pc :- fs.CondJump(test, outer);
    KeptTrans(code0, code1, fs.code, outer);
    EmptyList(fs.code);
    NoOwn(LuaGen.Exp(LuaGen.VJmp(pc), [], []));
    return LuaGen.Ok(ExpDesc(LuaGen.VJmp(pc), NO_JUMP, NO_JUMP));
  }

  lemma RKFacts(outer: set<nat>, fs: FS, e: Exp)
    requires Shape(outer, fs, fs, e)
    ensures var r := LuaGen.ExpToRK(fs, e);
            r.Ok? ==> Sound(outer, {}, r.value.0) && Distinct(r.value.0.jpc) && Elems(r.value.0.jpc) !! outer
                      && r.value.0.nactvar == fs.nactvar
  {
    if LuaGen.ExpToRK(fs, e).Ok? {
      RKShapeHolds(outer, fs, fs, e);
      var g := LuaGen.ExpToRK(fs, e).value.0;
      SoundPending(outer, {}, g);
      assert outer + {} == outer;
    }
  }

  lemma FreedJpc(fs: FS, e1: Exp, e2: Exp)
    ensures LuaGen.FreeExps(fs, e1, e2).jpc == fs.jpc
  {
  }

  // ---------- the expression parser ----------

  lemma JoinUnfold(fs0: FS, src: Expr, e1: Expr, e2: Expr, cond: bool)
    requires IsJoin(src, e1, e2, cond)
    ensures var c := LuaGen.Compile(fs0, src); var c1 := LuaGen.Compile(fs0, e1);
            if !c1.Ok? then Same(c, c1)
            else
              var g := GoIf(c1.value.0, c1.value.1, cond);
              if !g.Ok? then Same(c, g)
              else
                var c2 := LuaGen.Compile(g.value.0, e2);
                if !c2.Ok? then Same(c, c2) else c == LuaGen.Ok((c2.value.0, Joined(c2.value.1, g.value.1, cond)))
  {
    hide LuaGen.GoIfTrue, LuaGen.GoIfFalse;
  }

  // The same failure.
  ghost predicate Same<T, U>(a: Result<T>, b: Result<U>) {
    a.TooLong? == b.TooLong? && a.TooManyRegisters? == b.TooManyRegisters? && a.TooManyLocals? == b.TooManyLocals?
      && a.Ok? == b.Ok?
  }

  lemma CompUnfold(fs0: FS, op: CompareOp, e1: Expr, e2: Expr)
    ensures var c := LuaGen.Compile(fs0, ECompare(op, e1, e2)); var c1 := LuaGen.Compile(fs0, e1);
            if !c1.Ok? then Same(c, c1)
            else
              var k := LuaGen.ExpToRK(c1.value.0, c1.value.1);
              if !k.Ok? then Same(c, k)
              else
                var c2 := LuaGen.Compile(k.value.0, e2);
                if !c2.Ok? then Same(c, c2) else c == LuaGen.CodeComp(c2.value.0, op, k.value.1, k.value.2, c2.value.1)
  {
    hide LuaGen.ExpToRK, LuaGen.CodeComp;
  }

  // The state in which the second operand of and, or is compiled.
  lemma AfterGoIf(outer: set<nat>, fs0: FS, e1: Expr, cond: bool)
    requires Sound(outer, {}, fs0) && Closed(e1, fs0.nactvar) && LuaGen.Compile(fs0, e1).Ok?
    ensures var (fs1, x1) := LuaGen.Compile(fs0, e1).value; var g := GoIf(fs1, x1, cond);
            g.Ok? ==> var (fs2, y) := g.value;
                      && Sound(outer + Own(y), {}, fs2) && fs2.nactvar == fs0.nactvar && outer !! Own(y)
                      && Own(y) == Elems(if cond then y.t else y.f) && Distinct(if cond then y.t else y.f)
  {
    CompileShape(outer, fs0, e1);
    var (fs1, x1) := LuaGen.Compile(fs0, e1).value;
    var g := GoIf(fs1, x1, cond);
    if g.Ok? {
      GoIfShape(outer, fs0, fs1, x1, cond);
      var (fs2, y) := g.value;
      hide LuaGen.Compile, GoIf, Elems, Distinct, Pending;
      PendingUnion(fs2.code, outer, Own(y));
      NoElems();
    }
  }

  // luaK_posfix for and, or: the waiting list joins the second operand's.
  method Join(fs: FuncState, mine: int, other: int, waiting: int, cond: bool, ghost outer: set<nat>, ghost x: Exp,
      ghost y: Exp)
    returns (r: Result<int>)
    requires fs.Rep(outer + Own(y) + Own(x)) && Shape(outer + Own(y), fs.model, fs.model, x)
    requires IsList(fs.code, mine, if cond then x.t else x.f) && IsList(fs.code, other, if cond then x.f else x.t)
    requires IsList(fs.code, waiting, if cond then y.t else y.f) && Own(y) == Elems(if cond then y.t else y.f)
    requires x.k.VJmp? ==> x.k.pc < |fs.code| && fs.code[x.k.pc] == Jmp(0, NO_JUMP)
    requires Own(Joined(x, y, cond)) == Own(x) + Own(y) && outer !! Own(y)
    modifies fs`code
    ensures var d := Joined(x, y, cond);
            match r
            case Ok(l) => && fs.Rep(outer + Own(d)) && IsList(fs.code, l, if cond then d.t else d.f)
                          && IsList(fs.code, other, if cond then d.f else d.t) && Kept(old(fs.code), fs.code, outer)
                          && (x.k.VJmp? ==> x.k.pc < |fs.code| && fs.code[x.k.pc] == Jmp(0, NO_JUMP))
            case _ => r.TooLong? && |fs.code| > MAXARG_sBx
  {
    hide IsList, Distinct, Kept, Reps, Elems, Pending, SameTests;
    ghost var s1, s2 := if cond then x.t else x.f, if cond then x.f else x.t;
    ghost var s := if cond then y.t else y.f;
    ghost var J, code0 := Elems(fs.model.jpc), fs.code;
    ghost var all := outer + Own(y) + Own(x) + J;
    SoundPending(outer + Own(y), Own(x), fs.model);
    var l :- fs.Concat(mine, waiting, s1, s, all);
    ConcatKept(code0, fs.code, Elems(s1), outer + Elems(s2), J);
    KeptList(code0, fs.code, outer + Elems(s2) + J, other, s2);
    KeptList(code0, fs.code, outer + Elems(s2) + J, fs.jpc, fs.model.jpc);
    KeptPart(code0, fs.code, outer + Elems(s2), J);
    KeptPart(code0, fs.code, outer, Elems(s2));
    assert outer + Own(Joined(x, y, cond)) + J == all;
    return LuaGen.Ok(l);
  }

  // simpleexp
  function LeafKind(src: Expr): Kind {
    match src
    case ETrue => LuaGen.VTrue
    case EFalse => LuaGen.VFalse
    case EConst(id) => LuaGen.VK(Data(id))
    case ELocal(n) => LuaGen.VLocal(n)
    case _ => LuaGen.VNil
  }

  predicate IsLeaf(src: Expr) { src.ENil? || src.ETrue? || src.EFalse? || src.EConst? || src.ELocal? }

  lemma LeafAt(fs: FuncState, src: Expr, outer: set<nat>)
    requires fs.Rep(outer) && Sound(outer, {}, fs.model) && Closed(src, fs.model.nactvar) && IsLeaf(src)
    ensures LuaGen.Compile(fs.model, src) == LuaGen.Ok((fs.model, LuaGen.Exp(LeafKind(src), [], [])))
    ensures At(fs, outer, ExpDesc(LeafKind(src), NO_JUMP, NO_JUMP), LuaGen.Exp(LeafKind(src), [], []))
            && Kept(fs.code, fs.code, outer)
  {
    CompileShape(outer, fs.model, src);
    EmptyList(fs.code);
    NoOwn(LuaGen.Exp(LeafKind(src), [], []));
    assert outer + {} == outer;
  }

  method CompileAnd(fs: FuncState, src: Expr, e1: Expr, e2: Expr, ghost outer: set<nat>) returns (r: Result<ExpDesc>)
    requires fs.Rep(outer) && Sound(outer, {}, fs.model) && Closed(src, fs.model.nactvar) && src == EAnd(e1, e2)
    modifies fs
    ensures Raised(r, LuaGen.Compile(old(fs.model), src), |fs.code|)
    ensures r.Ok? ==>
      var (m, x) := LuaGen.Compile(old(fs.model), src).value;
      fs.model == m && At(fs, outer, r.value, x) && Kept(old(fs.code), fs.code, outer)
    decreases src, 0
  {
    hide IsList, Elems, Own, Distinct, Kept, Shape, Reps, Sound, LuaGen.Compile, GoIf, Joined;
    ghost var m0, code0 := fs.model, fs.code;
    JoinUnfold(m0, src, e1, e2, false);
    var d1 :- Compile(fs, e1, outer);
    ghost var x1, m1, code1 := LuaGen.Compile(m0, e1).value.1, fs.model, fs.code;
    GoIfIsTrue(m1, x1);
    AfterGoIf(outer, m0, e1, false);
    var w :- GoIfTrue(fs, d1, outer, x1);
    ghost var y, m2, code2 := GoIf(m1, x1, false).value.1, fs.model, fs.code;
    KeptTrans(code0, code1, code2, outer);
    var d2 :- Compile(fs, e2, outer + Own(y));
    ghost var x2, code3 := LuaGen.Compile(m2, e2).value.1, fs.code;
    KeptList(code2, code3, outer + Own(y), w.f, y.f);
    KeptPart(code2, code3, outer, Own(y));
    KeptTrans(code0, code2, code3, outer);
    JoinedOwn(outer, m0, src, e1, e2, false);
    var d := DischargeVars(d2);
    var f :- Join(fs, d.f, d.t, w.f, false, outer, x2, y);
    KeptTrans(code0, code3, fs.code, outer);
    CompileShape(outer, m0, src);
    Reform(outer, m0, fs.model, Joined(x2, y, false));
    JoinedEncodes(fs.code, d2, f, x2, y, false);
    return LuaGen.Ok(d.(f := f));
  }

  method CompileOr(fs: FuncState, src: Expr, e1: Expr, e2: Expr, ghost outer: set<nat>) returns (r: Result<ExpDesc>)
    requires fs.Rep(outer) && Sound(outer, {}, fs.model) && Closed(src, fs.model.nactvar) && src == EOr(e1, e2)
    modifies fs
    ensures Raised(r, LuaGen.Compile(old(fs.model), src), |fs.code|)
    ensures r.Ok? ==>
      var (m, x) := LuaGen.Compile(old(fs.model), src).value;
      fs.model == m && At(fs, outer, r.value, x) && Kept(old(fs.code), fs.code, outer)
    decreases src, 0
  {
    hide IsList, Elems, Own, Distinct, Kept, Shape, Reps, Sound, LuaGen.Compile, GoIf, Joined;
    ghost var m0, code0 := fs.model, fs.code;
    JoinUnfold(m0, src, e1, e2, true);
    var d1 :- Compile(fs, e1, outer);
    ghost var x1, m1, code1 := LuaGen.Compile(m0, e1).value.1, fs.model, fs.code;
    GoIfIsTrue(m1, x1);
    AfterGoIf(outer, m0, e1, true);
    var w :- GoIfFalse(fs, d1, outer, x1);
    ghost var y, m2, code2 := GoIf(m1, x1, true).value.1, fs.model, fs.code;
    KeptTrans(code0, code1, code2, outer);
    var d2 :- Compile(fs, e2, outer + Own(y));
    ghost var x2, code3 := LuaGen.Compile(m2, e2).value.1, fs.code;
    KeptList(code2, code3, outer + Own(y), w.t, y.t);
    KeptPart(code2, code3, outer, Own(y));
    KeptTrans(code0, code2, code3, outer);
    JoinedOwn(outer, m0, src, e1, e2, true);
    var d := DischargeVars(d2);
    var t :- Join(fs, d.t, d.f, w.t, true, outer, x2, y);
    KeptTrans(code0, code3, fs.code, outer);
    CompileShape(outer, m0, src);
    Reform(outer, m0, fs.model, Joined(x2, y, true));
    JoinedEncodes(fs.code, d2, t, x2, y, true);
    return LuaGen.Ok(d.(t := t));
  }

  lemma JoinedOwn(outer: set<nat>, fs0: FS, src: Expr, e1: Expr, e2: Expr, cond: bool)
    requires Sound(outer, {}, fs0) && Closed(src, fs0.nactvar) && IsJoin(src, e1, e2, cond)
             && LuaGen.Compile(fs0, src).Ok?
    requires LuaGen.Compile(fs0, e1).Ok? && GoIf(LuaGen.Compile(fs0, e1).value.0, LuaGen.Compile(fs0, e1).value.1,
             cond).Ok?
    requires LuaGen.Compile(GoIf(LuaGen.Compile(fs0, e1).value.0, LuaGen.Compile(fs0, e1).value.1, cond).value.0,
             e2).Ok?
    ensures var (fs2, y) := GoIf(LuaGen.Compile(fs0, e1).value.0, LuaGen.Compile(fs0, e1).value.1, cond).value;
            var x2 := LuaGen.Compile(fs2, e2).value.1;
            Own(Joined(x2, y, cond)) == Own(x2) + Own(y)
  {
    hide *;
    var _, _, _, _ := JoinShape(outer, fs0, src, e1, e2, cond);
  }

  lemma JoinedEncodes(code: seq<Instr>, d2: ExpDesc, l: int, x: Exp, y: Exp, cond: bool)
    requires d2.k == x.k && (x.k.VJmp? ==> x.k.pc < |code| && code[x.k.pc] == Jmp(0, NO_JUMP))
    requires var d := Joined(x, y, cond);
             IsList(code, l, if cond then d.t else d.f) && IsList(code, if cond then d2.f else d2.t,
               if cond then d.f else d.t)
    ensures Encodes(code, if cond then DischargeVars(d2).(t := l) else DischargeVars(d2).(f := l), Joined(x, y, cond))
  {
  }

  method CompileCompare(fs: FuncState, op: CompareOp, e1: Expr, e2: Expr, ghost outer: set<nat>)
      returns (r: Result<ExpDesc>)
    requires fs.Rep(outer) && Sound(outer, {}, fs.model) && Closed(e1, fs.model.nactvar) && Closed(e2, fs.model.nactvar)
    modifies fs
    ensures Raised(r, LuaGen.Compile(old(fs.model), ECompare(op, e1, e2)), |fs.code|)
    ensures r.Ok? ==>
      var (m, x) := LuaGen.Compile(old(fs.model), ECompare(op, e1, e2)).value;
      fs.model == m && At(fs, outer, r.value, x) && Kept(old(fs.code), fs.code, outer)
    decreases ECompare(op, e1, e2), 0
  {
    hide IsList, Elems, Own, Distinct, Kept, Shape, Reps, Sound, LuaGen.Compile, LuaGen.ExpToRK, LuaGen.CodeComp;
    ghost var m0, code0 := fs.model, fs.code;
    CompUnfold(m0, op, e1, e2);
    var d1 :- Compile(fs, e1, outer);
    ghost var x1, m1, code1 := LuaGen.Compile(m0, e1).value.1, fs.model, fs.code;
    CompileVars(outer, m0, e1);
    RKFacts(outer, m1, x1);
    var p :- ExpToRK(fs, d1, outer, x1);
    ghost var y1, m2, code2 := LuaGen.ExpToRK(m1, x1).value.1, fs.model, fs.code;
    KeptTrans(code0, code1, code2, outer);
    var d2 :- Compile(fs, e2, outer);
    ghost var x2, code3 := LuaGen.Compile(m2, e2).value.1, fs.code;
    KeptTrans(code0, code2, code3, outer);
    r := CodeComp(fs, op, p.0, p.1, d2, outer, y1, x2);
    if r.Ok? {
      KeptTrans(code0, code3, fs.code, outer);
      var x := LuaGen.Compile(m0, ECompare(op, e1, e2)).value.1;
      CompileShape(outer, m0, ECompare(op, e1, e2));
      Reform(outer, m0, fs.model, x);
      assert outer + {} == outer;
    }
  }

  lemma CompileVars(outer: set<nat>, fs0: FS, e: Expr)
    requires Sound(outer, {}, fs0) && Closed(e, fs0.nactvar) && LuaGen.Compile(fs0, e).Ok?
    ensures LuaGen.Compile(fs0, e).value.0.nactvar == fs0.nactvar
            && LuaGen.Compile(fs0, e).value.0.freereg == fs0.freereg
  {
    CompileShape(outer, fs0, e);
  }

  // subexpr, with luaK_prefix, luaK_infix and luaK_posfix.
  method Compile(fs: FuncState, src: Expr, ghost outer: set<nat>) returns (r: Result<ExpDesc>)
    requires fs.Rep(outer) && Sound(outer, {}, fs.model) && Closed(src, fs.model.nactvar)
    modifies fs
    ensures Raised(r, LuaGen.Compile(old(fs.model), src), |fs.code|)
    ensures r.Ok? ==>
      var (m, x) := LuaGen.Compile(old(fs.model), src).value;
      fs.model == m && At(fs, outer, r.value, x) && Kept(old(fs.code), fs.code, outer)
    decreases src, 1
  {
    hide IsList, Elems, Own, Distinct, Kept, Shape, Reps, Sound, LuaGen.CodeNot, LuaGen.GoIfTrue, LuaGen.GoIfFalse,
         LuaGen.ExpToRK, LuaGen.CodeComp;
    match src {
      case ENot(e1) =>
        ghost var m0, code0 := fs.model, fs.code;
        var d :- Compile(fs, e1, outer);
        ghost var code1 := fs.code;
        r := CodeNot(fs, d, outer, LuaGen.Compile(m0, e1).value.1);
        if r.Ok? { KeptTrans(code0, code1, fs.code, outer); }
      case EAnd(e1, e2) => r := CompileAnd(fs, src, e1, e2, outer);
      case EOr(e1, e2) => r := CompileOr(fs, src, e1, e2, outer);
      case ECompare(op, e1, e2) => r := CompileCompare(fs, op, e1, e2, outer);
      case _ =>
        LeafAt(fs, src, outer);
        return LuaGen.Ok(ExpDesc(LeafKind(src), NO_JUMP, NO_JUMP));
    }
  }
}
