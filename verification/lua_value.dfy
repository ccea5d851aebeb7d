// Values into registers: exp2reg, luaK_exp2nextreg, luaK_exp2anyreg and luaK_exp2RK.
module LuaValue {
  import opened LuaVM
  import opened LuaGen
  import opened LuaExec
  import opened LuaCorrect
  import opened LuaCond

  // The value is in reg and control falls through, whatever jumps there were.
  ghost predicate Placed(cmp: Compare, o0: Outcome, n: nat, reg: nat, src: Expr, o: Outcome) {
    match o0
    case Stuck => true
    case Exit(_, _) => o == o0
    case Fall(R1) => o.Fall? && AgreeBut(R1, o.R, n, reg) && Get(o.R, reg) == Eval(cmp, src, R1)
  }

  // ---------- patching the lists of an expression ----------

  // The two load instructions at the end of the code.
  predicate Loaded(code: seq<Instr>, reg: nat, pf: nat) {
    pf + 2 == |code| && code[pf] == LoadBool(reg, false, true) && code[pf + 1] == LoadBool(reg, true, false)
  }

  // What a patched jump does: hand over its test's value, or load b.
  function Delivered(code: seq<Instr>, j: nat, reg: nat, b: bool, R: Regs): Regs {
    if ValueJump(code, j) then Transfer(code, j, reg, R) else Set(R, reg, Bool(b))
  }

  lemma ArriveEnd(cmp: Compare, p: Prog, j: nat, R: Regs)
    requires j < |p.code| && p.code[j] == Jmp(0, |p.code| - (j + 1)) && j !in p.exits && j !in p.here
    ensures Take(cmp, p, j, R) == Fall(R)
  {
  }

  lemma ArriveLoad(cmp: Compare, p: Prog, j: nat, reg: nat, pf: nat, b: bool, R: Regs)
    requires Loaded(p.code, reg, pf) && j < pf && p.code[j] == Jmp(0, (if b then pf + 1 else pf) - (j + 1))
    requires j !in p.exits && j !in p.here
    ensures Take(cmp, p, j, R) == Fall(Set(R, reg, Bool(b)))
  {
    assert Exec(cmp, p, |p.code|, Set(R, reg, Bool(b))) == Fall(Set(R, reg, Bool(b)));
  }

  // Where the jumps js of one list go: their targets leave no jump without a value behind.
  ghost predicate Targets(code: seq<Instr>, js: set<nat>, reg: nat, pf: nat, dt: nat, b: bool) {
    (forall j :: j in js ==> ValueJump(code, j)) || (Loaded(code, reg, pf) && dt == if b then pf + 1 else pf)
  }

  lemma PatchOneList(cmp: Compare, p: Prog, code1: seq<Instr>, js: set<nat>, reg: nat, pf: nat, dt: nat, b: bool,
      pc: nat, R: Regs)
    requires IsPatch(p.code, code1, js, reg, |p.code|, dt) && Pending(p.code, js) && js <= p.exits && js !! p.here
    requires Targets(p.code, js, reg, pf, dt, b)
    ensures Exec(cmp, Prog(code1, p.exits - js, p.here), pc, R) ==
            match Exec(cmp, p, pc, R)
            case Exit(j, R2) => if j in js then Fall(Delivered(p.code, j, reg, b, R2)) else Exit(j, R2)
            case o => o
  {
    hide Exec;
    var p1 := Prog(code1, p.exits - js, p.here);
    PatchExec(cmp, p, code1, js, reg, |p.code|, dt, pc, R);
    match Exec(cmp, p, pc, R)
    case Exit(j, R2) =>
      if j in js {
        PatchAt(p.code, code1, js, reg, |p.code|, dt, j);
        if ValueJump(p.code, j) {
          ArriveEnd(cmp, p1, j, Transfer(p.code, j, reg, R2));
        } else {
          PatchAt(p.code, code1, js, reg, |p.code|, dt, pf);
          PatchAt(p.code, code1, js, reg, |p.code|, dt, pf + 1);
          ArriveLoad(cmp, p1, j, reg, pf, b, R2);
        }
      }
    case _ =>
  }

  // Patching some jumps leaves the others waiting.
  lemma PatchKeeps(code: seq<Instr>, code1: seq<Instr>, js: set<nat>, reg: nat, vt: nat, dt: nat, ks: set<nat>)
    requires IsPatch(code, code1, js, reg, vt, dt) && Pending(code, js) && Pending(code, ks) && js !! ks
    ensures Pending(code1, ks) && SameTests(ks, code, code1)
    ensures forall i :: 0 <= i < |code| ==> TMode(code1[i]) == TMode(code[i])
    ensures forall i :: 0 <= i < |code| && code[i].LoadBool? ==> code1[i] == code[i]
  {
    forall i | 0 <= i < |code|
      ensures TMode(code1[i]) == TMode(code[i]) && (code[i].LoadBool? ==> code1[i] == code[i])
    {
      PatchAt(code, code1, js, reg, vt, dt, i);
    }
    forall j | j in ks
      ensures j < |code1| && code1[j] == code[j] && ValueJump(code1, j) == ValueJump(code, j)
      ensures ValueJump(code, j) ==> code1[j - 1] == code[j - 1]
    {
      PatchAt(code, code1, js, reg, vt, dt, j);
      if j >= 1 { PatchAt(code, code1, js, reg, vt, dt, j - 1); }
    }
  }

  // The end of exp2reg: both lists of d get their destinations.
  function Finish(g: FS, d: Exp, reg: nat, pf: nat, pt: nat): Result<FS> {
    var code1 :- PatchListAux(g.code, d.f, |g.code|, reg, pf);
    var code2 :- PatchListAux(code1, d.t, |g.code|, reg, pt);
    Ok(GetLabel(g).(code := code2))
  }

  ghost predicate Ready(outer: set<nat>, g: FS, d: Exp, reg: nat, pf: nat, pt: nat) {
    && Lists(outer, Own(d), g) && Distinct(d.t) && Distinct(d.f) && Elems(d.t) !! Elems(d.f)
    && Targets(g.code, Elems(d.f), reg, pf, pf, false) && Targets(g.code, Elems(d.t), reg, pf, pt, true)
  }

  lemma FinishSteps(outer: set<nat>, g: FS, d: Exp, reg: nat, pf: nat, pt: nat) returns (code1: seq<Instr>)
    requires Ready(outer, g, d, reg, pf, pt) && Finish(g, d, reg, pf, pt).Ok?
    ensures var code2 := Finish(g, d, reg, pf, pt).value.code;
            && IsPatch(g.code, code1, Elems(d.f), reg, |g.code|, pf)
               && IsPatch(code1, code2, Elems(d.t), reg, |g.code|, pt)
            && Pending(g.code, Elems(d.f)) && Pending(code1, Elems(d.t)) && |code1| == |g.code|
            && SameTests(Elems(d.t), g.code, code1) && Targets(code1, Elems(d.t), reg, pf, pt, true)
  {
    code1 := PatchListAux(g.code, d.f, |g.code|, reg, pf).value;
    hide Elems, PatchListAux;
    assert Pending(g.code, Elems(d.f)) && Pending(g.code, Elems(d.t)) by {
      assert Elems(d.f) <= Own(d) && Elems(d.t) <= Own(d);
    }
    PatchListMeaning(g.code, d.f, |g.code|, reg, pf);
    PatchKeeps(g.code, code1, Elems(d.f), reg, |g.code|, pf, Elems(d.t));
    PatchListMeaning(code1, d.t, |g.code|, reg, pt);
  }

  lemma FinishShape(outer: set<nat>, g: FS, d: Exp, reg: nat, pf: nat, pt: nat)
    requires Ready(outer, g, d, reg, pf, pt) && Finish(g, d, reg, pf, pt).Ok?
    ensures var g1 := Finish(g, d, reg, pf, pt).value;
            && Lists(outer, {}, g1) && g1 == GetLabel(g).(code := g1.code) && |g1.code| == |g.code| && !Mergeable(g1)
            && SameTests(outer, g.code, g1.code) && forall i :: 0 <= i < |g.code| ==>
               TMode(g1.code[i]) == TMode(g.code[i])
  {
    var code1 := FinishSteps(outer, g, d, reg, pf, pt);
    var code2 := Finish(g, d, reg, pf, pt).value.code;
    hide Elems, PatchListAux, Targets, Distinct;
    assert outer !! Elems(d.f) && outer !! Elems(d.t) && Elems(g.jpc) !! Elems(d.f) && Elems(g.jpc) !! Elems(d.t);
    PatchKeeps(g.code, code1, Elems(d.f), reg, |g.code|, pf, outer);
    PatchKeeps(g.code, code1, Elems(d.f), reg, |g.code|, pf, Elems(g.jpc));
    PatchKeeps(code1, code2, Elems(d.t), reg, |g.code|, pt, outer);
    PatchKeeps(code1, code2, Elems(d.t), reg, |g.code|, pt, Elems(g.jpc));
    SameTestsTrans(outer, g.code, code1, code2);
  }

  lemma FinishExec(cmp: Compare, outer: set<nat>, g: FS, d: Exp, reg: nat, pf: nat, pt: nat, pc: nat, R: Regs)
    requires Ready(outer, g, d, reg, pf, pt) && Finish(g, d, reg, pf, pt).Ok?
    ensures Exec(cmp, Prog(Finish(g, d, reg, pf, pt).value.code, outer, Elems(g.jpc)), pc, R) ==
            match Exec(cmp, Prog(g.code, outer + Own(d), Elems(g.jpc)), pc, R)
            case Exit(j, R2) => if j in Own(d) then Fall(Delivered(g.code, j, reg, j in Elems(d.t), R2))
              else Exit(j, R2)
            case o => o
  {
    var code1 := FinishSteps(outer, g, d, reg, pf, pt);
    var code2 := Finish(g, d, reg, pf, pt).value.code;
    var X, H := outer + Own(d), Elems(g.jpc);
    assert X - Elems(d.f) == outer + Elems(d.t) && outer + Elems(d.t) - Elems(d.t) == outer;
    PatchOneList(cmp, Prog(g.code, X, H), code1, Elems(d.f), reg, pf, pf, false, pc, R);
    PatchOneList(cmp, Prog(code1, outer + Elems(d.t), H), code2, Elems(d.t), reg, pf, pt, true, pc, R);
  }

  lemma FinishMeans(cmp: Compare, o0: Outcome, outer: set<nat>, n: nat, g: FS, d: Exp, src: Expr, reg: nat, pf: nat,
      pt: nat, pc: nat, R: Regs)
    requires Ready(outer, g, d, reg, pf, pt) && Finish(g, d, reg, pf, pt).Ok? && reg < MAXREGS && GoodRegs(o0)
    requires InReg(cmp, o0, n, reg, g.code, d, src, Exec(cmp, Prog(g.code, outer + Own(d), Elems(g.jpc)), pc, R))
    requires o0.Exit? ==> o0.j in outer
    ensures Placed(cmp, o0, n, reg, src, Exec(cmp, Prog(Finish(g, d, reg, pf, pt).value.code, outer, Elems(g.jpc)), pc,
            R))
  {
    FinishExec(cmp, outer, g, d, reg, pf, pt, pc, R);
    hide Exec, Elems, Pending, Distinct, Targets, Finish;
  }

  // ---------- the load instructions ----------

  // Two loads after code that has no jumps to here pending.
  lemma LoadsEmitted(fs: FS, reg: nat)
    requires fs.jpc == []
    ensures var fs1 := CodeLoadBool(fs, reg, false, true);
            && fs1 == Ok(fs.(code := fs.code + [LoadBool(reg, false, true)], lasttarget := |fs.code|))
            && CodeLoadBool(fs1.value, reg, true, false)
               == Ok(fs.(code := fs.code + [LoadBool(reg, false, true), LoadBool(reg, true, false)],
                 lasttarget := |fs.code| + 1))
  {
    assert fs.code + [LoadBool(reg, false, true)] + [LoadBool(reg, true, false)]
        == fs.code + [LoadBool(reg, false, true), LoadBool(reg, true, false)];
  }

  // The instructions CodeLoads appends.
  function Loads(isJump: bool, reg: nat): (ext: seq<Instr>)
    ensures |ext| == if isJump then 2 else 3
    ensures ext[|ext| - 2] == LoadBool(reg, false, true) && ext[|ext| - 1] == LoadBool(reg, true, false)
    ensures !isJump ==> ext[0] == Jmp(0, NO_JUMP)
  {
    if isJump then [LoadBool(reg, false, true), LoadBool(reg, true, false)]
    else [Jmp(0, NO_JUMP), LoadBool(reg, false, true), LoadBool(reg, true, false)]
  }

  lemma CodeLoadsSteps(fs: FS, isJump: bool, reg: nat)
    requires isJump ==> fs.jpc == []
    ensures var n := |fs.code| + if isJump then 0 else 1;
            CodeLoads(fs, isJump, reg) ==
            Ok((fs.(code := fs.code + Loads(isJump, reg), lasttarget := n + 2,
              jpc := if isJump then [] else [|fs.code|] + fs.jpc), n, n + 1))
  {
    var (fs1, fj) := if isJump then (fs, []) else Jump(fs);
    LoadsEmitted(fs1, reg);
    assert fs1.code + [LoadBool(reg, false, true), LoadBool(reg, true, false)] == fs.code + Loads(isJump, reg);
    assert [] + fj == fj;
  }

  lemma CodeLoadsShape(outer: set<nat>, fs: FS, d: Exp, isJump: bool, reg: nat)
    requires Lists(outer, Own(d), fs) && (isJump ==> fs.jpc == [])
    requires !isJump && |fs.code| > 0 ==> !TMode(fs.code[|fs.code| - 1])
    requires Distinct(d.t) && Distinct(d.f) && Elems(d.t) !! Elems(d.f)
    ensures CodeLoads(fs, isJump, reg).Ok?
    ensures var (g, pf, pt) := CodeLoads(fs, isJump, reg).value;
            && Ready(outer, g, d, reg, pf, pt) && SameTests(outer + Own(d), fs.code, g.code)
               && !TMode(g.code[|g.code| - 1])
            && g == fs.(code := g.code, jpc := g.jpc, lasttarget := g.lasttarget) && |fs.code| <= |g.code|
  {
    CodeLoadsSteps(fs, isJump, reg);
    var ext := Loads(isJump, reg);
    var (g, pf, pt) := CodeLoads(fs, isJump, reg).value;
    assert !TMode(ext[|ext| - 1]);
    assert !isJump ==> ext[0] == Jmp(0, NO_JUMP);
    hide *;
    LoadsLists(outer, Own(d), fs, ext, g);
    assert g.code[|g.code| - 1] == ext[|ext| - 1] && g.code[|g.code| - 2] == ext[|ext| - 2];
    LoadsReady(outer, g, d, reg, pf);
  }

  lemma LoadsReady(outer: set<nat>, g: FS, d: Exp, reg: nat, pf: nat)
    requires Lists(outer, Own(d), g) && Distinct(d.t) && Distinct(d.f) && Elems(d.t) !! Elems(d.f)
    requires pf + 2 == |g.code| && g.code[pf] == LoadBool(reg, false, true)
             && g.code[pf + 1] == LoadBool(reg, true, false)
    ensures Ready(outer, g, d, reg, pf, pf + 1)
  {
  }

  lemma LoadsLists(outer: set<nat>, own: set<nat>, fs: FS, ext: seq<Instr>, g: FS)
    requires Lists(outer, own, fs) && g.code == fs.code + ext
    requires g.jpc == fs.jpc == [] ||
             (g.jpc == [|fs.code|] + fs.jpc && |ext| > 0 && ext[0] == Jmp(0, NO_JUMP)
               && (|fs.code| > 0 ==> !TMode(fs.code[|fs.code| - 1])))
    ensures Lists(outer, own, g) && SameTests(outer + own, fs.code, g.code)
  {
    hide Elems, Distinct;
    PendingUnion(fs.code, outer, own);
    PendingExtend(fs.code, ext, outer + own);
    assert Pending(fs.code + ext, outer) && Pending(fs.code + ext, own);
    hide SameTests;
    NoElems();
    if g.jpc != [] { HoldOn(outer + own, fs, ext); }
  }

  // luaK_jump's list: the new jump and the jumps to here.
  lemma HoldOn(js: set<nat>, fs: FS, ext: seq<Instr>)
    requires Distinct(fs.jpc) && Pending(fs.code, Elems(fs.jpc)) && Pending(fs.code, js) && Elems(fs.jpc) !! js
    requires |ext| > 0 && ext[0].Jmp? && ext[0].a == 0 && (|fs.code| > 0 ==> !fs.code[|fs.code| - 1].TestSet?)
    ensures var list := [|fs.code|] + fs.jpc;
            && Distinct(list) && Elems(list) == Elems(fs.jpc) + {|fs.code|} && Pending(fs.code + ext, Elems(list))
               && Elems(list) !! js
  {
    var list := [|fs.code|] + fs.jpc;
    ElemsCons(list);
    assert list[1..] == fs.jpc;
    assert forall m :: 0 <= m < |fs.jpc| ==> fs.jpc[m] in Elems(fs.jpc);
    FreshJump(fs.code, ext);
    PendingExtend(fs.code, ext, Elems(fs.jpc));
  }

  lemma FreshJump(code: seq<Instr>, ext: seq<Instr>)
    requires |ext| > 0 && ext[0].Jmp? && ext[0].a == 0 && (|code| > 0 ==> !code[|code| - 1].TestSet?)
    ensures Pending(code + ext, {|code|})
  {
  }

  // Control that falls through jumps around the loads.
  lemma LoadsAround(cmp: Compare, fs: FS, exits: set<nat>, reg: nat, pc: nat, R: Regs)
    requires Distinct(fs.jpc) && Pending(fs.code, Elems(fs.jpc)) && exits !! Elems(fs.jpc)
             && (forall j :: j in exits ==> j < |fs.code|)
    requires |fs.code| > 0 ==> !TMode(fs.code[|fs.code| - 1])
    requires Exec(cmp, Prog(fs.code, exits, Elems(fs.jpc)), pc, R) != Stuck
    ensures CodeLoads(fs, false, reg).Ok?
    ensures var g := CodeLoads(fs, false, reg).value.0;
            Exec(cmp, Prog(g.code, exits, Elems(g.jpc)), pc, R) == Exec(cmp, Prog(fs.code, exits, Elems(fs.jpc)), pc, R)
  {
    CodeLoadsSteps(fs, false, reg);
    var ext := Loads(false, reg);
    var g, m, here := CodeLoads(fs, false, reg).value.0, |fs.code|, Elems(fs.jpc);
    ElemsCons(g.jpc);
    assert g.jpc[1..] == fs.jpc && Elems(g.jpc) == here + {m};
    var p1 := Prog(fs.code + ext, exits + here + {m}, {});
    assert m > 0 ==> !TMode(p1.code[m - 1]);
    assert p1.code[m] == ext[0];
    ExitsOnly(cmp, Prog(fs.code, exits + here, {}), pc, R);
    hide *;
    HereExec(cmp, fs.code, exits, here, pc, R);
    ExtendExec(cmp, fs.code, ext, exits + here, {m}, pc, R);
    HereExec(cmp, g.code, exits, here + {m}, pc, R);
    assert exits + here + {m} == exits + (here + {m});
    var o := Exec(cmp, Prog(fs.code, exits + here, {}), pc, R);
    if o.Fall? { HeldJump(cmp, p1, m, o.R); }
  }

  lemma HeldJump(cmp: Compare, p: Prog, m: nat, R: Regs)
    requires m < |p.code| && p.code[m].Jmp? && (m > 0 ==> !TMode(p.code[m - 1])) && m in p.exits
    ensures Exec(cmp, p, m, R) == Exit(m, R)
  {
  }

  // Control that falls through loads false.
  lemma LoadsInto(cmp: Compare, fs: FS, exits: set<nat>, reg: nat, pc: nat, R: Regs)
    requires fs.jpc == [] && Exec(cmp, Prog(fs.code, exits, {}), pc, R) != Stuck
    ensures CodeLoads(fs, true, reg).Ok?
    ensures var g := CodeLoads(fs, true, reg).value.0;
            Exec(cmp, Prog(g.code, exits, {}), pc, R) ==
            match Exec(cmp, Prog(fs.code, exits, {}), pc, R)
            case Fall(R2) => Fall(Set(R2, reg, Bool(false)))
            case o => o
  {
    CodeLoadsSteps(fs, true, reg);
    var g, m := CodeLoads(fs, true, reg).value.0, |fs.code|;
    var ext := g.code[m..];
    assert fs.code + ext == g.code;
    ExtendExec(cmp, fs.code, ext, exits, {}, pc, R);
    assert exits + {} == exits;
    match Exec(cmp, Prog(fs.code, exits, {}), pc, R)
    case Fall(R2) =>
      var p := Prog(g.code, exits, {});
      assert Exec(cmp, p, m + 2, Set(R2, reg, Bool(false))) == Fall(Set(R2, reg, Bool(false)));
    case _ =>
  }

  // ---------- exp2reg on a comparison ----------

  // The comparison's jump joins the true list; falling through means false.
  function AsLists(e: Exp): Exp
    requires e.k.VJmp?
  {
    Exp(VFalse, e.t + [e.k.pc], e.f)
  }

  lemma AsListsShape(outer: set<nat>, fs0: FS, fs: FS, e: Exp)
    requires Shape(outer, fs0, fs, e) && e.k.VJmp?
    ensures Shape(outer, fs0, fs, AsLists(e)) && Own(AsLists(e)) == Own(e) + {e.k.pc}
    ensures !ValueJump(fs.code, e.k.pc) && NeedValue(fs.code, AsLists(e).t)
  {
    JmpShape(outer, fs0, fs, e, true);
    assert WithJumps(e, [e.k.pc], true).t == AsLists(e).t && AsLists(e).t[|e.t|] == e.k.pc;
  }

  lemma AsListsMeans(cmp: Compare, outer: set<nat>, fs0: FS, n: nat, fs: FS, e: Exp, src: Expr, pc: nat, R: Regs)
    requires Shape(outer, fs0, fs, e) && e.k.VJmp?
    requires Means(cmp, Run0(cmp, outer, fs0, pc, R), n, NO_REG, fs, e, src, Run(cmp, outer, fs, e, pc, R))
    ensures Means(cmp, Run0(cmp, outer, fs0, pc, R), n, NO_REG, fs, AsLists(e), src,
            Run(cmp, outer, fs, AsLists(e), pc, R))
  {
    var o0, j := Run0(cmp, outer, fs0, pc, R), e.k.pc;
    if !o0.Stuck? {
      AsListsShape(outer, fs0, fs, e);
      JmpExec(cmp, outer, fs0, fs, e, pc, R);
      NoElems();
      assert outer + Own(e) + {j} == outer + Own(AsLists(e));
      ExitStays(e, j, true, fs.code, fs.code);
      hide Elems, Pending, Distinct, Exec, Eval, AgreeBut, Operand, Own;
      assert forall R, v :: ExitOk(fs.code, WithJumps(e, [j], true), j, R, v) ==> ExitOk(fs.code, AsLists(e), j, R, v);
    }
  }

  // ---------- exp2reg ----------

  function WithLoads(fs: FS, d: Exp, isJump: bool, reg: nat): Result<(FS, Exp, nat, nat)> {
    var (g, pf, pt) :- CodeLoads(fs, isJump, reg);
    Ok((g, d, pf, pt))
  }

  // exp2reg up to the patching of the lists.
  function Before(fs: FS, e: Exp, reg: nat): Result<(FS, Exp, nat, nat)> {
    if e.k.VJmp? then WithLoads(fs, AsLists(e), true, reg)
    else
      var (fs1, e1) :- DischargeToReg(fs, e, reg);
      if NeedValue(fs1.code, e1.t) || NeedValue(fs1.code, e1.f) then WithLoads(fs1, e1, false, reg)
      else Ok((fs1, e1, |fs1.code|, |fs1.code|))
  }

  lemma ExpToRegSteps(outer: set<nat>, fs0: FS, fs: FS, e: Exp, reg: nat)
    requires Shape(outer, fs0, fs, e) && ExpToReg(fs, e, reg).Ok?
    ensures var done := Exp(VNonReloc(reg), [], []);
            if !e.k.VJmp? && !HasJumps(e) then
              DischargeToReg(fs, e, reg).Ok? && ExpToReg(fs, e, reg).value == (DischargeToReg(fs, e, reg).value.0, done)
            else
              Before(fs, e, reg).Ok? &&
              var (g, d, pf, pt) := Before(fs, e, reg).value;
              Finish(g, d, reg, pf, pt).Ok? && ExpToReg(fs, e, reg).value == (Finish(g, d, reg, pf, pt).value, done)
  {
    hide PatchListAux, CodeLoads, Elems, Pending;
    if e.k.VJmp? { AsListsShape(outer, fs0, fs, e); } else { DischargeToRegShape(outer, fs0, fs, e, reg); }
  }

  lemma BeforeShape(outer: set<nat>, fs0: FS, fs: FS, e: Exp, reg: nat)
    requires Shape(outer, fs0, fs, e) && Before(fs, e, reg).Ok?
    ensures var (g, d, pf, pt) := Before(fs, e, reg).value;
            && Ready(outer, g, d, reg, pf, pt) && SameTests(outer, fs.code, g.code)
            && (|g.code| > 0 ==> !TMode(g.code[|g.code| - 1]))
            && g == fs.(code := g.code, jpc := g.jpc, lasttarget := g.lasttarget) && |fs.code| <= |g.code|
  {
    hide CodeLoads, DischargeToReg, Elems, Pending, Distinct, SameTests;
    if e.k.VJmp? {
      AsListsShape(outer, fs0, fs, e);
      CodeLoadsShape(outer, fs, AsLists(e), true, reg);
      SameTestsPart(outer, Own(AsLists(e)), fs.code, CodeLoads(fs, true, reg).value.0.code);
    } else {
      DischargeToRegShape(outer, fs0, fs, e, reg);
      var (fs1, e1) := DischargeToReg(fs, e, reg).value;
      SameTestsPart(outer, Own(e), fs.code, fs1.code);
      if NeedValue(fs1.code, e1.t) || NeedValue(fs1.code, e1.f) {
        CodeLoadsShape(outer, fs1, e1, false, reg);
        var g := CodeLoads(fs1, false, reg).value.0;
        SameTestsPart(outer, Own(e1), fs1.code, g.code);
        SameTestsTrans(outer, fs.code, fs1.code, g.code);
      } else {
        NoNeed(fs1.code, e1.t);
        NoNeed(fs1.code, e1.f);
      }
    }
  }

  lemma NoNeed(code: seq<Instr>, list: seq<nat>)
    requires !NeedValue(code, list)
    ensures forall j :: j in Elems(list) ==> ValueJump(code, j)
  {
  }

  lemma BeforeMeans(cmp: Compare, outer: set<nat>, fs0: FS, n: nat, fs: FS, e: Exp, src: Expr, reg: nat, pc: nat,
      R: Regs)
    requires Shape(outer, fs0, fs, e) && Before(fs, e, reg).Ok? && reg < MAXREGS && n <= MAXREGS
    requires Entry(outer, fs0, pc) && GoodRegs(Run0(cmp, outer, fs0, pc, R))
    requires Means(cmp, Run0(cmp, outer, fs0, pc, R), n, NO_REG, fs, e, src, Run(cmp, outer, fs, e, pc, R))
    ensures var (g, d, pf, pt) := Before(fs, e, reg).value;
            InReg(cmp, Run0(cmp, outer, fs0, pc, R), n, reg, g.code, d, src,
                  Exec(cmp, Prog(g.code, outer + Own(d), Elems(g.jpc)), pc, R))
  {
    var o0 := Run0(cmp, outer, fs0, pc, R);
    if o0.Stuck? {
    } else if e.k.VJmp? {
      AsListsShape(outer, fs0, fs, e);
      AsListsMeans(cmp, outer, fs0, n, fs, e, src, pc, R);
      FalseLoaded(cmp, outer, fs0, n, fs, AsLists(e), src, reg, pc, R);
    } else {
      DischargeToRegShape(outer, fs0, fs, e, reg);
      DischargeToRegMeans(cmp, outer, fs0, n, fs, e, src, reg, pc, R);
      hide Shape, Means, Exec, Entry, DischargeToReg;
      var (fs1, e1) := DischargeToReg(fs, e, reg).value;
      InRegAround(cmp, o0, n, reg, outer, fs1, e, e1, src, pc, R);
    }
  }

  lemma InRegAround(cmp: Compare, o0: Outcome, n: nat, reg: nat, outer: set<nat>, fs: FS, e: Exp, e1: Exp, src: Expr,
      pc: nat, R: Regs)
    requires o0 != Stuck && Sound(outer, Own(e), fs) && e1 == e.(k := e1.k) && Distinct(e.t) && Distinct(e.f)
             && Elems(e.t) !! Elems(e.f)
    requires InReg(cmp, o0, n, reg, fs.code, e, src, Exec(cmp, Prog(fs.code, outer + Own(e), Elems(fs.jpc)), pc, R))
    ensures WithLoads(fs, e1, false, reg).Ok? && Own(e1) == Own(e)
    ensures InReg(cmp, o0, n, reg, fs.code, e1, src, Exec(cmp, Prog(fs.code, outer + Own(e1), Elems(fs.jpc)), pc, R))
    ensures var g := WithLoads(fs, e1, false, reg).value.0;
            InReg(cmp, o0, n, reg, g.code, e1, src, Exec(cmp, Prog(g.code, outer + Own(e1), Elems(g.jpc)), pc, R))
  {
    assert Own(e1) == Own(e);
    var o := Exec(cmp, Prog(fs.code, outer + Own(e), Elems(fs.jpc)), pc, R);
    assert o != Stuck;
    assert forall j :: j in outer + Own(e) ==> j < |fs.code|;
    LoadsAround(cmp, fs, outer + Own(e), reg, pc, R);
    CodeLoadsShape(outer, fs, e1, false, reg);
    var g := CodeLoads(fs, false, reg).value.0;
    assert WithLoads(fs, e1, false, reg).Ok? && WithLoads(fs, e1, false, reg).value.0 == g;
    hide *;
    InRegStays(cmp, o0, n, reg, outer, fs.code, fs.code, e, e1, src, o);
    InRegStays(cmp, o0, n, reg, outer, fs.code, g.code, e, e1, src, o);
  }

  lemma InRegStays(cmp: Compare, o0: Outcome, n: nat, reg: nat, outer: set<nat>, code: seq<Instr>, code': seq<Instr>,
      e: Exp, e1: Exp, src: Expr, o: Outcome)
    requires InReg(cmp, o0, n, reg, code, e, src, o) && e1.t == e.t && e1.f == e.f
             && (code == code' || SameTests(outer + Own(e1), code, code'))
    ensures InReg(cmp, o0, n, reg, code', e1, src, o) && Own(e1) == Own(e)
  {
    if code != code' { SameExits(outer, e1, code, code'); }
  }

  // A comparison as lists: falling through loads the false it means.
  lemma FalseLoaded(cmp: Compare, outer: set<nat>, fs0: FS, n: nat, fs: FS, d: Exp, src: Expr, reg: nat, pc: nat,
      R: Regs)
    requires Shape(outer, fs0, fs, d) && d.k == VFalse && fs.jpc == [] && reg < MAXREGS && n <= MAXREGS
    requires GoodRegs(Run0(cmp, outer, fs0, pc, R)) && Run0(cmp, outer, fs0, pc, R) != Stuck
    requires Means(cmp, Run0(cmp, outer, fs0, pc, R), n, NO_REG, fs, d, src, Run(cmp, outer, fs, d, pc, R))
    ensures var g := CodeLoads(fs, true, reg).value.0;
            InReg(cmp, Run0(cmp, outer, fs0, pc, R), n, reg, g.code, d, src,
              Exec(cmp, Prog(g.code, outer + Own(d), Elems(g.jpc)), pc, R))
  {
    NoElems();
    LoadsInto(cmp, fs, outer + Own(d), reg, pc, R);
    CodeLoadsShape(outer, fs, d, true, reg);
    CodeLoadsSteps(fs, true, reg);
    var g := CodeLoads(fs, true, reg).value.0;
    SameExits(outer, d, fs.code, g.code);
    hide Exec, Elems, Distinct, Pending, ExitOk, Eval, CodeLoads, Shape, Sound, SameTests, Mergeable, Ready;
    FalseInReg(cmp, Run0(cmp, outer, fs0, pc, R), n, reg, fs, d, src,
      Exec(cmp, Prog(fs.code, outer + Own(d), {}), pc, R), g.code,
               Exec(cmp, Prog(g.code, outer + Own(d), {}), pc, R));
  }

  lemma FalseInReg(cmp: Compare, o0: Outcome, n: nat, reg: nat, fs: FS, d: Exp, src: Expr, o: Outcome,
      code: seq<Instr>, o': Outcome)
    requires d.k == VFalse && Means(cmp, o0, n, NO_REG, fs, d, src, o) && reg < MAXREGS && n <= MAXREGS && GoodRegs(o0)
    requires o0.Exit? ==> o' == o0
    requires o' == match o
                   case Fall(R2) => Fall(Set(R2, reg, Bool(false)))
                   case _ => o
    requires forall j, R, v :: ExitOk(code, d, j, R, v) <==> ExitOk(fs.code, d, j, R, v)
    ensures InReg(cmp, o0, n, reg, code, d, src, o')
  {
    hide ExitOk, Eval;
  }

  // fs1 is fs with the value of e in a register and nothing pending.
  ghost predicate Grounded(outer: set<nat>, fs0: FS, fs: FS, e: Exp, fs1: FS) {
    && Sound(outer, {}, fs1) && SameTests(outer, fs0.code, fs1.code)
    && fs1 == fs.(code := fs1.code, jpc := fs1.jpc, lasttarget := fs1.lasttarget) && |fs.code| <= |fs1.code|
    && (Mergeable(fs1) ==> (fs1 == fs || e.k == VNil) && !HasJumps(e))
  }

  lemma ExpToRegShape(outer: set<nat>, fs0: FS, fs: FS, e: Exp, reg: nat)
    requires Shape(outer, fs0, fs, e) && ExpToReg(fs, e, reg).Ok?
    ensures var (fs1, e1) := ExpToReg(fs, e, reg).value;
            e1 == Exp(VNonReloc(reg), [], [])
            && Grounded(outer, fs0, fs, e, fs1)
  {
    ExpToRegSteps(outer, fs0, fs, e, reg);
    hide *;
    if !e.k.VJmp? && !HasJumps(e) {
      PlainGrounded(outer, fs0, fs, e, reg);
    } else {
      FinishedGrounded(outer, fs0, fs, e, reg);
    }
  }

  lemma PlainGrounded(outer: set<nat>, fs0: FS, fs: FS, e: Exp, reg: nat)
    requires Shape(outer, fs0, fs, e) && !e.k.VJmp? && !HasJumps(e) && DischargeToReg(fs, e, reg).Ok?
    ensures Grounded(outer, fs0, fs, e, DischargeToReg(fs, e, reg).value.0)
  {
    DischargeToRegShape(outer, fs0, fs, e, reg);
    var fs1 := DischargeToReg(fs, e, reg).value.0;
    NoElems();
    assert Own(e) == {};
    hide DischargeToReg, Elems, Pending, Distinct;
    SameTestsPart(outer, Own(e), fs.code, fs1.code);
    SameTestsTrans(outer, fs0.code, fs.code, fs1.code);
    hide SameTests;
  }

  lemma FinishedGrounded(outer: set<nat>, fs0: FS, fs: FS, e: Exp, reg: nat)
    requires Shape(outer, fs0, fs, e) && Before(fs, e, reg).Ok?
    requires var (g, d, pf, pt) := Before(fs, e, reg).value; Finish(g, d, reg, pf, pt).Ok?
    ensures var (g, d, pf, pt) := Before(fs, e, reg).value; Grounded(outer, fs0, fs, e, Finish(g, d, reg, pf, pt).value)
  {
    var (g, d, pf, pt) := Before(fs, e, reg).value;
    BeforeShape(outer, fs0, fs, e, reg);
    FinishShape(outer, g, d, reg, pf, pt);
    var g1 := Finish(g, d, reg, pf, pt).value;
    hide Before, Finish, Elems, Pending, Distinct, Ready, Targets;
    SameTestsTrans(outer, fs0.code, fs.code, g.code);
    SameTestsTrans(outer, fs0.code, g.code, g1.code);
    hide SameTests;
    FinishedSound(fs, g, g1, outer);
  }

  lemma FinishedSound(fs: FS, g: FS, g1: FS, outer: set<nat>)
    requires Lists(outer, {}, g1) && fs.nactvar <= fs.freereg <= fs.maxstack < MAXREGS
    requires g == fs.(code := g.code, jpc := g.jpc, lasttarget := g.lasttarget) && g1 == GetLabel(g).(code := g1.code)
    requires |g1.code| == |g.code| && (|g.code| > 0 ==> !TMode(g.code[|g.code| - 1]))
    requires forall i :: 0 <= i < |g.code| ==> TMode(g1.code[i]) == TMode(g.code[i])
    ensures Sound(outer, {}, g1) && g1 == fs.(code := g1.code, jpc := g1.jpc, lasttarget := g1.lasttarget)
  {
  }

  // exp2reg: whichever way the run goes, the value ends up in reg and control
  // falls through.
  lemma ExpToRegMeans(cmp: Compare, outer: set<nat>, fs0: FS, n: nat, fs: FS, e: Exp, src: Expr, reg: nat, pc: nat,
      R: Regs)
    requires Shape(outer, fs0, fs, e) && ExpToReg(fs, e, reg).Ok? && reg < MAXREGS && n <= MAXREGS
    requires Entry(outer, fs0, pc) && GoodRegs(Run0(cmp, outer, fs0, pc, R))
    requires Means(cmp, Run0(cmp, outer, fs0, pc, R), n, NO_REG, fs, e, src, Run(cmp, outer, fs, e, pc, R))
    ensures var fs1 := ExpToReg(fs, e, reg).value.0;
            Placed(cmp, Run0(cmp, outer, fs0, pc, R), n, reg, src,
              Exec(cmp, Prog(fs1.code, outer, Elems(fs1.jpc)), pc, R))
  {
    ExpToRegSteps(outer, fs0, fs, e, reg);
    if !e.k.VJmp? && !HasJumps(e) {
      DischargeToRegMeans(cmp, outer, fs0, n, fs, e, src, reg, pc, R);
      NoElems();
      assert outer + Own(e) == outer;
      hide Exec, Elems, DischargeToReg, Shape, Eval;
    } else {
      BeforeShape(outer, fs0, fs, e, reg);
      BeforeMeans(cmp, outer, fs0, n, fs, e, src, reg, pc, R);
      ExitsOnly(cmp, Prog(fs0.code, outer, Elems(fs0.jpc)), pc, R);
      var (g, d, pf, pt) := Before(fs, e, reg).value;
      FinishShape(outer, g, d, reg, pf, pt);
      hide *;
      FinishMeans(cmp, Run0(cmp, outer, fs0, pc, R), outer, n, g, d, src, reg, pf, pt, pc, R);
    }
  }
}
