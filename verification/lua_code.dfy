// The expression part of lcode.c as it is written, on a FuncState that is
// updated in place; every function is proved against its model in LuaGen.
module LuaCode {
  import opened LuaVM
  import opened LuaExec
  import opened LuaCorrect
  import opened LuaLists
  import LuaGen
  import opened LuaCond
  import opened LuaValue

  type FS = LuaGen.FS
  type Exp = LuaGen.Exp
  type Kind = LuaGen.Kind
  type Result<T> = LuaGen.Result<T>

  // expdesc: the lists are given by their heads.
  datatype ExpDesc = ExpDesc(k: Kind, t: int, f: int)

  // d describes what e describes.
  ghost predicate Encodes(code: seq<Instr>, d: ExpDesc, e: Exp) {
    && d.k == e.k && IsList(code, d.t, e.t) && IsList(code, d.f, e.f)
    && (e.k.VJmp? ==> e.k.pc < |code| && code[e.k.pc] == Jmp(0, NO_JUMP))
  }

  // The state between two calls, with an expression at hand.
  ghost predicate At(fs: FuncState, outer: set<nat>, d: ExpDesc, e: Exp)
    reads fs
  {
    fs.Rep(outer + Own(e)) && Shape(outer, fs.model, fs.model, e) && Encodes(fs.code, d, e)
  }

  // A failure the model raises too, or a jump that is too long for its field.
  ghost predicate Raised<T, U>(r: Result<T>, m: Result<U>, n: nat) {
    match r
    case Ok(_) => m.Ok?
    case TooLong => n > MAXARG_sBx
    case TooManyRegisters => m.TooManyRegisters?
    case TooManyLocals => m.TooManyLocals?
  }

  lemma KeptEncodes(code: seq<Instr>, code': seq<Instr>, waiting: set<nat>, d: ExpDesc, e: Exp)
    requires Kept(code, code', waiting) && Own(e) <= waiting && Encodes(code, d, e)
    ensures IsList(code', d.t, e.t) && IsList(code', d.f, e.f)
  {
    KeptList(code, code', waiting, d.t, e.t);
    KeptList(code, code', waiting, d.f, e.f);
  }

  lemma KeptPart(code: seq<Instr>, code': seq<Instr>, a: set<nat>, b: set<nat>)
    requires Kept(code, code', a + b)
    ensures Kept(code, code', a) && Kept(code, code', b)
  {
  }

  lemma SoundPending(outer: set<nat>, own: set<nat>, fs: FS)
    requires Sound(outer, own, fs)
    ensures Distinct(fs.jpc) && Elems(fs.jpc) !! (outer + own)
  {
    hide Elems, Distinct, Pending;
  }

  // Replacing an instruction that is not a jump.
  lemma RepsReplace(code: seq<Instr>, mcode: seq<Instr>, waiting: set<nat>, n: nat, i: Instr)
    requires Reps(code, mcode, waiting) && n < |code| && !code[n].Jmp? && !i.Jmp?
    ensures code[n] == mcode[n] && Reps(code[n := i], mcode[n := i], waiting) && Kept(code, code[n := i], waiting)
  {
  }

  // luaK_nil(fs, reg, 1)
  method Nil(fs: FuncState, reg: nat, ghost waiting: set<nat>) returns (r: Result<()>)
    requires fs.Rep(waiting) && Distinct(fs.model.jpc) && Elems(fs.model.jpc) !! waiting
    modifies fs
    ensures Raised(r, LuaGen.EmitNil(old(fs.model), reg), |fs.code|) && (r.Ok? || r.TooLong?)
            && |fs.code| >= |old(fs.code)|
    ensures r.Ok? ==>
            LuaGen.EmitNil(old(fs.model), reg) == LuaGen.Ok(fs.model) && fs.Rep(waiting)
            && Kept(old(fs.code), fs.code, waiting)
  {
    hide IsList, Elems, Distinct, Kept, LuaGen.Code;
    ghost var all := waiting + Elems(fs.model.jpc);
    RepsSame(fs.code, fs.model.code, all, 0);
    var from, l := reg, reg;
    if |fs.code| > fs.lasttarget && |fs.code| > 0 {
      var previous := fs.code[|fs.code| - 1];
      if previous.LoadNil? {
        var pfrom, pl := previous.a, previous.a + previous.n;
        if (pfrom <= from && from <= pl + 1) || (from <= pfrom && pfrom <= l + 1) {
          if pfrom < from { from := pfrom; }
          if pl > l { l := pl; }
          RepsReplace(fs.code, fs.model.code, all, |fs.code| - 1, LoadNil(from, l - from));
          fs.code := fs.code[|fs.code| - 1 := LoadNil(from, l - from)];
          fs.model := fs.model.(code := fs.model.code[|fs.code| - 1 := LoadNil(from, l - from)]);
          KeptPart(old(fs.code), fs.code, waiting, Elems(fs.model.jpc));
          KeptList(old(fs.code), fs.code, all, fs.jpc, fs.model.jpc);
          return LuaGen.Ok(());
        }
      }
    }
    var _ :- fs.Code(LoadNil(reg, 0), waiting);
    return LuaGen.Ok(());
  }

  // luaK_reserveregs(fs, 1), with luaK_checkstack
  method ReserveReg(fs: FuncState, ghost waiting: set<nat>) returns (r: Result<()>)
    requires fs.Rep(waiting)
    modifies fs`freereg, fs`maxstack, fs`model
    ensures Raised(r, LuaGen.ReserveReg(old(fs.model)), |fs.code|) && !r.TooLong?
    ensures r.Ok? ==> LuaGen.ReserveReg(old(fs.model)) == LuaGen.Ok(fs.model) && fs.Rep(waiting)
  {
    hide IsList, Reps, Elems;
    var newstack := fs.freereg + 1;
    if newstack > fs.maxstack {
      if newstack >= MAXREGS {
        return LuaGen.TooManyRegisters;
      }
      fs.maxstack := newstack;
    }
    fs.freereg := fs.freereg + 1;
    fs.model := LuaGen.ReserveReg(fs.model).value;
    return LuaGen.Ok(());
  }

  // freeexp, with freereg
  method FreeExp(fs: FuncState, d: ExpDesc, ghost e: Exp, ghost waiting: set<nat>)
    requires fs.Rep(waiting) && d.k == e.k
    modifies fs`freereg, fs`model
    ensures fs.model == LuaGen.FreeExp(old(fs.model), e) && fs.Rep(waiting)
  {
    hide IsList, Reps, Elems;
    if d.k.VNonReloc? && d.k.r >= fs.nactvar && fs.freereg > 0 {
      fs.freereg := fs.freereg - 1;
    }
    fs.model := LuaGen.FreeExp(fs.model, e);
  }

  // luaK_dischargevars
  function DischargeVars(d: ExpDesc): ExpDesc {
    if d.k.VLocal? then d.(k := LuaGen.VNonReloc(d.k.r)) else d
  }

  // discharge2reg
  method DischargeToReg(fs: FuncState, d0: ExpDesc, reg: nat, ghost outer: set<nat>, ghost e: Exp)
      returns (r: Result<ExpDesc>)
    requires At(fs, outer, d0, e)
    modifies fs
    ensures Raised(r, LuaGen.DischargeToReg(old(fs.model), e, reg), |fs.code|) && (r.Ok? || r.TooLong?)
            && |fs.code| >= |old(fs.code)|
    ensures r.Ok? ==>
      var (m, x) := LuaGen.DischargeToReg(old(fs.model), e, reg).value;
      fs.model == m && fs.Rep(outer + Own(e)) && Encodes(fs.code, r.value, x)
        && Kept(old(fs.code), fs.code, outer + Own(e))
  {
    hide IsList, Elems, Own, Distinct, Kept, Sound, LuaGen.EmitNil, LuaGen.Code, Pending, SameTests, Mergeable, Reps;
    ghost var all := outer + Own(e);
    SoundPending(outer, Own(e), fs.model);
    var d := DischargeVars(d0);
    match d.k {
      case VNil => var _ :- Nil(fs, reg, all);
      case VTrue => var _ :- fs.Code(LoadBool(reg, true, false), all);
      case VFalse => var _ :- fs.Code(LoadBool(reg, false, false), all);
      case VK(v) => var _ :- fs.Code(LoadK(reg, v), all);
      case VReloc(pc) =>
        RelocReps(fs, all, pc, reg);
        fs.code := fs.code[pc := LuaGen.Relocated(fs.code[pc], reg)];
        fs.model := fs.model.(code := fs.model.code[pc := LuaGen.Relocated(fs.model.code[pc], reg)]);
        KeptList(old(fs.code), fs.code, all + Elems(fs.model.jpc), fs.jpc, fs.model.jpc);
        KeptPart(old(fs.code), fs.code, all, Elems(fs.model.jpc));
      case VNonReloc(n) =>
        if n != reg { var _ :- fs.Code(Move(reg, n), all); } else { KeptItself(fs.code, all); }
      case VJmp(_) =>
        KeptItself(fs.code, all);
        return LuaGen.Ok(d);
    }
    KeptEncodes(old(fs.code), fs.code, all, d0, e);
    return LuaGen.Ok(ExpDesc(LuaGen.VNonReloc(reg), d.t, d.f));
  }

  lemma RelocReps(fs: FuncState, waiting: set<nat>, pc: nat, reg: nat)
    requires fs.Rep(waiting) && KindShape(fs.model, LuaGen.VReloc(pc))
    ensures pc < |fs.code| == |fs.model.code| && fs.code[pc] == fs.model.code[pc]
    ensures var i := LuaGen.Relocated(fs.code[pc], reg); var code1 := fs.code[pc := i];
            Reps(code1, fs.model.code[pc := i], waiting + Elems(fs.model.jpc))
              && Kept(fs.code, code1, waiting + Elems(fs.model.jpc))
  {
    RepsReplace(fs.code, fs.model.code, waiting + Elems(fs.model.jpc), pc, LuaGen.Relocated(fs.code[pc], reg));
  }

  lemma Reform(outer: set<nat>, fs0: FS, fs: FS, e: Exp)
    requires Shape(outer, fs0, fs, e)
    ensures Shape(outer, fs, fs, e)
  {
    hide Elems, Pending, Distinct;
  }

  // discharge2anyreg
  method DischargeToAnyReg(fs: FuncState, d: ExpDesc, ghost outer: set<nat>, ghost e: Exp) returns (r: Result<ExpDesc>)
    requires At(fs, outer, d, e) && !e.k.VLocal? && !e.k.VJmp?
    modifies fs
    ensures Raised(r, LuaGen.DischargeToAnyReg(old(fs.model), e), |fs.code|)
    ensures r.Ok? ==>
      var (m, x) := LuaGen.DischargeToAnyReg(old(fs.model), e).value;
      fs.model == m && fs.Rep(outer + Own(e)) && Encodes(fs.code, r.value, x)
        && Kept(old(fs.code), fs.code, outer + Own(e))
  {
    hide IsList, Elems, Own, Distinct, Kept, Shape, Reps, LuaGen.DischargeToReg;
    if !d.k.VNonReloc? {
      ghost var m0 := fs.model;
      var _ :- ReserveReg(fs, outer + Own(e));
      ReserveShape(outer, m0, m0, e);
      Reform(outer, m0, fs.model, e);
      r := DischargeToReg(fs, d, fs.freereg - 1, outer, e);
    } else {
      KeptItself(fs.code, outer + Own(e));
      return LuaGen.Ok(d);
    }
  }

  // ---------- exp2reg ----------

  // code_loadbool
  method CodeLoadBool(fs: FuncState, reg: nat, v: bool, skip: bool, ghost waiting: set<nat>) returns (r: Result<nat>)
    requires fs.Rep(waiting) && Distinct(fs.model.jpc) && Elems(fs.model.jpc) !! waiting
    modifies fs
    ensures |fs.code| >= |old(fs.code)|
    ensures Raised(r, LuaGen.CodeLoadBool(old(fs.model), reg, v, skip), |fs.code|) && (r.Ok? || r.TooLong?)
    ensures r.Ok? ==>
            LuaGen.CodeLoadBool(old(fs.model), reg, v, skip) == LuaGen.Ok(fs.model)
            && r.value == |old(fs.code)|
                      && fs.model.jpc == [] && fs.jpc == NO_JUMP && fs.Rep(waiting)
                         && Kept(old(fs.code), fs.code, waiting)
  {
    hide IsList, Elems, Distinct, Kept, Reps, LuaGen.Code;
    fs.lasttarget := |fs.code|;
    RepsBound(fs.code, fs.model.code, waiting + Elems(fs.model.jpc));
    fs.model := LuaGen.GetLabel(fs.model);
    r := fs.Code(LoadBool(reg, v, skip), waiting);
  }

  // The loads for jumps that carry no value, with a jump around them unless
  // the expression is itself a jump.
  method CodeLoads(fs: FuncState, isJump: bool, reg: nat, ghost waiting: set<nat>) returns (r: Result<(nat, nat)>)
    requires fs.Rep(waiting) && Distinct(fs.model.jpc) && Elems(fs.model.jpc) !! waiting
             && (isJump ==> fs.model.jpc == [])
    modifies fs
    ensures |fs.code| >= |old(fs.code)|
    ensures Raised(r, LuaGen.CodeLoads(old(fs.model), isJump, reg), |fs.code|) && (r.Ok? || r.TooLong?)
    ensures r.Ok? ==> LuaGen.CodeLoads(old(fs.model), isJump, reg) == LuaGen.Ok((fs.model, r.value.0, r.value.1))
                      && fs.Rep(waiting) && Kept(old(fs.code), fs.code, waiting)
  {
    hide IsList, Elems, Distinct, Kept, Reps, LuaGen.CodeLoadBool, LuaGen.Code;
    ghost var code0, m0 := fs.code, fs.model;
    ghost var list := if isJump then [] else LuaGen.Jump(m0).1;
    RepsBound(fs.code, fs.model.code, waiting + Elems(fs.model.jpc));
    JumpDisjoint(m0, waiting);
    EmptyList(fs.code);
    var fj := NO_JUMP;
    if !isJump {
      fj :- fs.Jump(waiting);
    } else {
      assert waiting + Elems(list) == waiting;
      KeptItself(fs.code, waiting);
    }
    ghost var code1 := fs.code;
    EmptyList(code1);
    assert fs.Rep(waiting + Elems(list)) && fs.model.jpc == [] && IsList(code1, fj, list);
    RepsBound(fs.code, fs.model.code, waiting + Elems(list) + Elems(fs.model.jpc));
    var pf :- CodeLoadBool(fs, reg, false, true, waiting + Elems(list));
    ghost var code2 := fs.code;
    RepsBound(fs.code, fs.model.code, waiting + Elems(list) + Elems(fs.model.jpc));
    EmptyList(code2);
    var pt :- CodeLoadBool(fs, reg, true, false, waiting + Elems(list));
    EmptyList(fs.code);
    KeptTrans(code1, code2, fs.code, waiting + Elems(list));
    KeptList(code1, fs.code, waiting + Elems(list), fj, list);
    KeptPart(code1, fs.code, waiting, Elems(list));
    KeptTrans(code0, code1, fs.code, waiting);
    ghost var code3 := fs.code;
    RepsBound(fs.code, fs.model.code, waiting + Elems(list) + Elems(fs.model.jpc));
    var _ :- fs.PatchToHere(fj, list, waiting + Elems(list));
    KeptPart(code3, fs.code, waiting, Elems(list));
    KeptTrans(code0, code3, fs.code, waiting);
    assert waiting + Elems(list) - Elems(list) == waiting;
    return LuaGen.Ok((pf, pt));
  }

  lemma JumpDisjoint(fs: FS, waiting: set<nat>)
    requires Distinct(fs.jpc) && Elems(fs.jpc) !! waiting && forall j :: j in waiting ==> j < |fs.code|
    ensures Elems(LuaGen.Jump(fs).1) !! waiting
  {
    ElemsCons([|fs.code|] + fs.jpc);
    assert ([|fs.code|] + fs.jpc)[1..] == fs.jpc;
  }

  // The end of exp2reg: both lists get their destinations.
  method FinishLists(fs: FuncState, t: int, f: int, reg: nat, pf: nat, pt: nat, ghost outer: set<nat>, ghost d: Exp)
      returns (r: Result<()>)
    requires fs.Rep(outer + Own(d)) && IsList(fs.code, t, d.t) && IsList(fs.code, f, d.f)
    requires Lists(outer, Own(d), fs.model) && Distinct(d.t) && Distinct(d.f) && Elems(d.t) !! Elems(d.f)
    requires pf <= |fs.code| && pt <= |fs.code|
    modifies fs
    ensures Raised(r, Finish(old(fs.model), d, reg, pf, pt), |fs.code|) && (r.Ok? || r.TooLong?)
    ensures r.Ok? ==>
            Finish(old(fs.model), d, reg, pf, pt) == LuaGen.Ok(fs.model) && fs.Rep(outer)
            && Kept(old(fs.code), fs.code, outer)
  {
    hide IsList, Distinct, Kept, Reps, Elems, LuaGen.PatchListAux, Pending;
    ghost var T, F, J, m0, code0 := Elems(d.t), Elems(d.f), Elems(fs.model.jpc), fs.model, fs.code;
    var end := |fs.code|;
    RepsBound(fs.code, m0.code, outer + Own(d) + J);
    assert outer + Own(d) + J == outer + T + J + F;
    var _ :- fs.PatchListAux(f, end, reg, pf, d.f, outer + T + J);
    ghost var code1 := fs.code;
    assert outer + T + J == outer + J + T;
    KeptPart(code0, code1, outer + J, T);
    KeptPart(code0, code1, outer, J);
    KeptList(code0, code1, outer + J + T, t, d.t);
    KeptList(code0, code1, outer + J, fs.jpc, m0.jpc);
    var _ :- fs.PatchListAux(t, end, reg, pt, d.t, outer + J);
    KeptPart(code1, fs.code, outer, J);
    KeptTrans(code0, code1, fs.code, outer);
    KeptList(code1, fs.code, outer + J, fs.jpc, m0.jpc);
    fs.lasttarget := end;
    fs.model := LuaGen.GetLabel(m0).(code := fs.model.code);
    return LuaGen.Ok(());
  }

  function ViaBefore(fs: FS, e: Exp, reg: nat): Result<(FS, Exp)> {
    var (g, d, pf, pt) :- Before(fs, e, reg);
    var h :- Finish(g, d, reg, pf, pt);
    LuaGen.Ok((h, LuaGen.Exp(LuaGen.VNonReloc(reg), [], [])))
  }

  // Nothing but a value: exp2reg stops early.
  predicate Plain(e: Exp) { !e.k.VJmp? && !LuaGen.HasJumps(e) }

  lemma DischargeResult(fs: FS, e: Exp, reg: nat)
    ensures var d := LuaGen.DischargeToReg(fs, e, reg);
            d.Ok? ==> d.value.1 == if e.k.VJmp? then e else LuaGen.Exp(LuaGen.VNonReloc(reg), e.t, e.f)
    ensures e.k.VJmp? ==> LuaGen.DischargeToReg(fs, e, reg) == LuaGen.Ok((fs, e))
  {
    hide LuaGen.Code, LuaGen.EmitNil;
  }

  lemma ExpToRegPlain(fs: FS, e: Exp, reg: nat)
    requires Plain(e)
    ensures var d := LuaGen.DischargeToReg(fs, e, reg);
            && (d.Ok? ==> LuaGen.ExpToReg(fs, e, reg) == LuaGen.Ok((d.value.0,
               LuaGen.Exp(LuaGen.VNonReloc(reg), [], []))))
            && (d.TooManyRegisters? ==> LuaGen.ExpToReg(fs, e, reg).TooManyRegisters?)
            && (d.TooManyLocals? ==> LuaGen.ExpToReg(fs, e, reg).TooManyLocals?)
  {
    DischargeResult(fs, e, reg);
    hide LuaGen.DischargeToReg, LuaGen.CodeLoads, LuaGen.PatchListAux, LuaGen.NeedValue;
  }

  lemma ExpToRegVia(outer: set<nat>, fs: FS, e: Exp, reg: nat)
    requires Shape(outer, fs, fs, e) && !Plain(e)
    ensures LuaGen.ExpToReg(fs, e, reg) == ViaBefore(fs, e, reg)
  {
    DischargeResult(fs, e, reg);
    if e.k.VJmp? {
      AsListsShape(outer, fs, fs, e);
      hide LuaGen.DischargeToReg, LuaGen.PatchListAux, LuaGen.CodeLoads, Shape, LuaGen.NeedValue;
      var t := e.t + [e.k.pc];
      assert t != [] && LuaGen.NeedValue(fs.code, t);
    } else {
      hide LuaGen.DischargeToReg, LuaGen.PatchListAux, LuaGen.CodeLoads, Shape, LuaGen.NeedValue;
    }
  }

  lemma NeedSame(code: seq<Instr>, mcode: seq<Instr>, waiting: set<nat>, list: seq<nat>)
    requires Reps(code, mcode, waiting)
    ensures LuaGen.NeedValue(code, list) == LuaGen.NeedValue(mcode, list)
  {
    forall n | 0 <= n < |list| ensures LuaGen.ValueJump(code, list[n]) == LuaGen.ValueJump(mcode, list[n]) {
      RepsSame(code, mcode, waiting, list[n]);
    }
  }

  // The jump of a comparison joins the true list.
  method JoinTrue(fs: FuncState, d: ExpDesc, ghost outer: set<nat>, ghost e: Exp) returns (r: Result<int>)
    requires At(fs, outer, d, e) && e.k.VJmp?
    modifies fs`code
    ensures |fs.code| == |old(fs.code)|
    ensures match r
            case Ok(t) => fs.Rep(outer + Own(AsLists(e))) && IsList(fs.code, t, AsLists(e).t)
              && IsList(fs.code, d.f, e.f)
                          && Kept(old(fs.code), fs.code, outer)
            case _ => r.TooLong? && |fs.code| > MAXARG_sBx
  {
    hide IsList, Distinct, Kept, Reps, Elems, Pending, Own;
    ghost var pc, J, all, code0 := e.k.pc, Elems(fs.model.jpc), outer + Own(e), fs.code;
    AsListsShape(outer, fs.model, fs.model, e);
    RepsMono(fs.code, fs.model.code, all + J, pc);
    JoinFacts(outer, fs.model, e);
    var t :- fs.Concat(d.t, d.k.pc, e.t, [pc], all + J);
    JoinKept(code0, fs.code, outer, e, J);
    KeptList(code0, fs.code, outer + Elems(e.f) + J, d.f, e.f);
    KeptList(code0, fs.code, outer + Elems(e.f) + J, fs.jpc, fs.model.jpc);
    RepsMono(fs.code, fs.model.code, all + J, pc);
    assert all + J + {pc} == outer + Own(AsLists(e)) + J;
    assert outer + Elems(e.f) + J == outer + (Elems(e.f) + J);
    KeptPart(code0, fs.code, outer, Elems(e.f) + J);
    return LuaGen.Ok(t);
  }

  lemma JoinFacts(outer: set<nat>, fs: FS, e: Exp)
    requires Shape(outer, fs, fs, e) && e.k.VJmp?
    ensures Distinct(e.t) && Elems(e.t) !! Elems([e.k.pc]) && Elems(e.t) <= outer + Own(e) + Elems(fs.jpc)
    ensures Elems(fs.jpc) == {} && Elems(e.t) !! Elems(e.f) && Elems(e.t) !! outer && e.k.pc !in Elems(e.t)
  {
    ElemsCons([e.k.pc]);
  }

  lemma JoinKept(code0: seq<Instr>, code: seq<Instr>, outer: set<nat>, e: Exp, J: set<nat>)
    requires |code| == |code0| && forall j :: 0 <= j < |code| && j !in Elems(e.t) ==> code[j] == code0[j]
    requires Elems(e.t) !! Elems(e.f) && Elems(e.t) !! outer && Elems(e.t) !! J && e.k.VJmp? && e.k.pc !in Elems(e.t)
    requires e.k.pc < |code|
    ensures Kept(code0, code, outer + Elems(e.f) + J) && code[e.k.pc] == code0[e.k.pc]
  {
  }

  // The lists exp2reg patches.
  ghost function ListsOf(e: Exp, reg: nat): Exp {
    if e.k.VJmp? then AsLists(e) else LuaGen.Exp(LuaGen.VNonReloc(reg), e.t, e.f)
  }

  lemma ListsFacts(outer: set<nat>, m0: FS, e: Exp, reg: nat)
    requires Shape(outer, m0, m0, e) && LuaGen.DischargeToReg(m0, e, reg).Ok?
    ensures var m1, D := LuaGen.DischargeToReg(m0, e, reg).value.0, ListsOf(e, reg);
            && Sound(outer, Own(D), m1) && Distinct(D.t) && Distinct(D.f) && Elems(D.t) !! Elems(D.f)
            && (e.k.VJmp? ==> m1.jpc == []) && (!e.k.VJmp? ==> Own(D) == Own(e))
            && D.t == (if e.k.VJmp? then e.t + [e.k.pc] else e.t) && D.f == e.f
  {
    if e.k.VJmp? { AsListsShape(outer, m0, m0, e); } else { DischargeToRegShape(outer, m0, m0, e, reg); }
  }

  lemma BeforeIs(outer: set<nat>, m0: FS, e: Exp, reg: nat)
    requires Shape(outer, m0, m0, e) && LuaGen.DischargeToReg(m0, e, reg).Ok?
    ensures var m1, D := LuaGen.DischargeToReg(m0, e, reg).value.0, ListsOf(e, reg);
            Before(m0, e, reg) ==
            if LuaGen.NeedValue(m1.code, D.t) || LuaGen.NeedValue(m1.code, D.f) then WithLoads(m1, D, e.k.VJmp?, reg)
            else LuaGen.Ok((m1, D, |m1.code|, |m1.code|))
  {
    DischargeResult(m0, e, reg);
    if e.k.VJmp? { AsListsShape(outer, m0, m0, e); }
    hide LuaGen.DischargeToReg, LuaGen.NeedValue, LuaGen.CodeLoads, Shape;
  }

  // The two load instructions, where a jump without a value needs them.
  method MaybeLoads(fs: FuncState, t: int, f: int, isJump: bool, reg: nat, ghost outer: set<nat>, ghost d: Exp)
      returns (r: Result<(nat, nat)>)
    requires fs.Rep(outer + Own(d)) && IsList(fs.code, t, d.t) && IsList(fs.code, f, d.f)
             && Sound(outer, Own(d), fs.model)
    requires Distinct(d.t) && Distinct(d.f) && Elems(d.t) !! Elems(d.f) && (isJump ==> fs.model.jpc == [])
    modifies fs
    ensures |fs.code| >= |old(fs.code)| && (r.Ok? || (r.TooLong? && |fs.code| > MAXARG_sBx))
    ensures r.Ok? ==>
      && (if LuaGen.NeedValue(old(fs.model.code), d.t) || LuaGen.NeedValue(old(fs.model.code), d.f)
          then WithLoads(old(fs.model), d, isJump, reg) == LuaGen.Ok((fs.model, d, r.value.0, r.value.1))
          else fs.model == old(fs.model) && r.value == (|fs.model.code|, |fs.model.code|))
      && fs.Rep(outer + Own(d)) && IsList(fs.code, t, d.t) && IsList(fs.code, f, d.f) && Lists(outer, Own(d), fs.model)
      && r.value.0 <= |fs.code| && r.value.1 <= |fs.code| && Kept(old(fs.code), fs.code, outer)
  {
    hide IsList, Distinct, Kept, Reps, Elems, Pending, Own, LuaGen.CodeLoads, LuaGen.NeedValue, Lists, Ready, SameTests;
    ghost var m0, code0, all := fs.model, fs.code, outer + Own(d);
    SoundPending(outer, Own(d), m0);
    RepsBound(code0, m0.code, all + Elems(m0.jpc));
    NeedSame(code0, m0.code, all + Elems(m0.jpc), d.t);
    NeedSame(code0, m0.code, all + Elems(m0.jpc), d.f);
    var need := fs.NeedValue(t, d.t);
    if !need { need := fs.NeedValue(f, d.f); }
    if !need {
      KeptItself(code0, outer);
      return LuaGen.Ok((|fs.code|, |fs.code|));
    }
    CodeLoadsShape(outer, m0, d, isJump, reg);
    CodeLoadsSteps(m0, isJump, reg);
    ReadyLists(outer, LuaGen.CodeLoads(m0, isJump, reg).value.0, d, reg, LuaGen.CodeLoads(m0, isJump, reg).value.1,
      LuaGen.CodeLoads(m0, isJump, reg).value.2);
    var p :- CodeLoads(fs, isJump, reg, all);
    RepsBound(fs.code, fs.model.code, all + Elems(fs.model.jpc));
    OwnLists(d);
    KeptList(code0, fs.code, all, t, d.t);
    KeptList(code0, fs.code, all, f, d.f);
    KeptPart(code0, fs.code, outer, Own(d));
    return LuaGen.Ok(p);
  }

  lemma ReadyLists(outer: set<nat>, g: FS, d: Exp, reg: nat, pf: nat, pt: nat)
    requires Ready(outer, g, d, reg, pf, pt)
    ensures Lists(outer, Own(d), g)
  {
  }

  lemma OwnLists(d: Exp)
    ensures Elems(d.t) <= Own(d) && Elems(d.f) <= Own(d) && Own(d) == Elems(d.t) + Elems(d.f)
  {
  }

  // exp2reg
  method ExpToReg(fs: FuncState, d0: ExpDesc, reg: nat, ghost outer: set<nat>, ghost e: Exp)
      returns (r: Result<ExpDesc>)
    requires At(fs, outer, d0, e)
    modifies fs
    ensures Raised(r, LuaGen.ExpToReg(old(fs.model), e, reg), |fs.code|) && (r.Ok? || r.TooLong?)
    ensures r.Ok? ==>
      var (m, x) := LuaGen.ExpToReg(old(fs.model), e, reg).value;
      fs.model == m && fs.Rep(outer) && Encodes(fs.code, r.value, x) && Kept(old(fs.code), fs.code, outer)
  {
    hide IsList, Distinct, Kept, Reps, Elems, Pending, Own, Shape, Before, Finish, LuaGen.ExpToReg,
         LuaGen.DischargeToReg, LuaGen.NeedValue, LuaGen.CodeLoads, SameTests, Mergeable, AsLists, Lists;
    ghost var m0, code0 := fs.model, fs.code;
    DischargeResult(m0, e, reg);
    var d :- DischargeToReg(fs, d0, reg, outer, e);
    ghost var code1, m1, D := fs.code, fs.model, ListsOf(e, reg);
    ListsFacts(outer, m0, e, reg);
    KeptPart(code0, code1, outer, Own(e));
    var t := d.t;
    if d.k.VJmp? {
      t :- JoinTrue(fs, d, outer, e);
      KeptTrans(code0, code1, fs.code, outer);
    }
    ghost var code2 := fs.code;
    ListHead(code2, t, D.t);
    ListHead(code2, d.f, D.f);
    EmptyList(code2);
    if t == NO_JUMP && d.f == NO_JUMP {
      ExpToRegPlain(m0, e, reg);
      NoOwn(D);
      assert outer + {} == outer;
      return LuaGen.Ok(ExpDesc(LuaGen.VNonReloc(reg), NO_JUMP, NO_JUMP));
    }
    ExpToRegVia(outer, m0, e, reg);
    BeforeIs(outer, m0, e, reg);
    var p :- MaybeLoads(fs, t, d.f, d.k.VJmp?, reg, outer, D);
    KeptTrans(code0, code2, fs.code, outer);
    ghost var code3 := fs.code;
    var _ :- FinishLists(fs, t, d.f, reg, p.0, p.1, outer, D);
    KeptTrans(code0, code3, fs.code, outer);
    EmptyList(fs.code);
    return LuaGen.Ok(ExpDesc(LuaGen.VNonReloc(reg), NO_JUMP, NO_JUMP));
  }

  lemma NoOwn(d: Exp)
    requires d.t == [] && d.f == []
    ensures Own(d) == {}
  {
  }
}
