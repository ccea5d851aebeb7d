// Patch lists as lcode.c keeps them: threaded through the jumps themselves.
module LuaLists {
  import opened LuaVM
  import opened LuaGen
  import opened LuaExec
  import opened LuaCorrect

  // getjump
  function Next(code: seq<Instr>, j: nat): int
    requires j < |code| && code[j].Jmp?
  {
    if code[j].sbx == NO_JUMP then NO_JUMP else j + 1 + code[j].sbx
  }

  // The list that starts at head runs through the jumps of list and ends.
  ghost predicate IsList(code: seq<Instr>, head: int, list: seq<nat>)
    decreases |list|
  {
    if list == [] then head == NO_JUMP
    else head == list[0] && list[0] < |code| && code[list[0]].Jmp? && IsList(code, Next(code, list[0]), list[1..])
  }

  lemma ElemsTail(list: seq<nat>)
    requires list != []
    ensures Elems(list) == {list[0]} + Elems(list[1..])
    ensures Distinct(list) ==> Distinct(list[1..]) && list[0] !in Elems(list[1..])
  {
    ElemsCons(list);
    assert forall n :: 0 <= n < |list[1..]| ==> list[1..][n] == list[n + 1];
  }

  // A threaded list never meets a jump twice, and there is only one reading of it.
  lemma {:induction false} ListUnique(code: seq<Instr>, head: int, a: seq<nat>, b: seq<nat>)
    requires IsList(code, head, a) && IsList(code, head, b)
    ensures a == b
    decreases |a|
  {
    if a == [] || b == [] {
    } else {
      ListUnique(code, Next(code, a[0]), a[1..], b[1..]);
      assert a == [a[0]] + a[1..] && b == [b[0]] + b[1..];
    }
  }

  lemma {:induction false} ListFrom(code: seq<Instr>, head: int, list: seq<nat>, n: nat)
    requires IsList(code, head, list) && n < |list|
    ensures list[n] < |code| && IsList(code, list[n], list[n..])
    decreases n
  {
    if n == 0 {
      assert list[0..] == list;
    } else {
      ListFrom(code, Next(code, list[0]), list[1..], n - 1);
      assert list[1..][n - 1..] == list[n..];
    }
  }

  // Jump lists are acyclic.
  lemma ListAcyclic(code: seq<Instr>, head: int, list: seq<nat>)
    requires IsList(code, head, list)
    ensures Distinct(list)
  {
    forall m, n | 0 <= m < n < |list| ensures list[m] != list[n] {
      ListFrom(code, head, list, m);
      ListFrom(code, head, list, n);
      assert |list[m..]| != |list[n..]|;
      if list[m] == list[n] { ListUnique(code, list[m], list[m..], list[n..]); }
    }
  }

  // A list survives changes to other instructions.
  lemma {:induction false} ListFrame(code: seq<Instr>, code': seq<Instr>, head: int, list: seq<nat>)
    requires IsList(code, head, list)
    requires forall j :: j in Elems(list) && j < |code| ==> j < |code'| && code'[j] == code[j]
    ensures IsList(code', head, list)
    decreases |list|
  {
    if list != [] {
      ElemsTail(list);
      ListFrame(code, code', Next(code, list[0]), list[1..]);
    }
  }

  // luaK_concat's loop: the last jump of a list.
  lemma {:induction false} ListConcat(code: seq<Instr>, h1: int, s1: seq<nat>, h2: nat, s2: seq<nat>)
    requires IsList(code, h1, s1) && IsList(code, h2, s2) && s1 != [] && Distinct(s1) && Elems(s1) !! Elems(s2)
    ensures var last := s1[|s1| - 1];
            && last < |code| && code[last].Jmp? && h2 != last
            && IsList(code[last := Jmp(code[last].a, h2 - (last + 1))], h1, s1 + s2)
    decreases |s1|
  {
    var last := s1[|s1| - 1];
    ListFrom(code, h1, s1, |s1| - 1);
    ElemsTail(s1);
    ElemsTail(s2);
    assert last in Elems(s1) && h2 in Elems(s2);
    var code' := code[last := Jmp(code[last].a, h2 - (last + 1))];
    assert (s1 + s2)[1..] == s1[1..] + s2;
    if |s1| == 1 {
      assert s1[1..] + s2 == s2;
      ListFrame(code, code', h2, s2);
      assert Next(code', last) == h2;
    } else {
      ListConcat(code, Next(code, s1[0]), s1[1..], h2, s2);
    }
  }

  // code is the model's code with links in the jumps that wait.
  ghost predicate Reps(code: seq<Instr>, model: seq<Instr>, waiting: set<nat>) {
    && |code| == |model| && (forall j :: j in waiting ==> j < |code|)
    && forall i :: 0 <= i < |code| ==>
         if i in waiting then code[i].Jmp? && model[i] == Jmp(code[i].a, NO_JUMP) else code[i] == model[i]
  }

  lemma RepsSame(code: seq<Instr>, model: seq<Instr>, waiting: set<nat>, j: nat)
    requires Reps(code, model, waiting)
    ensures ValueJump(code, j) == ValueJump(model, j) && Control(code, j) == Control(model, j)
    ensures forall i :: 0 <= i < |code| && !code[i].Jmp? ==> code[i] == model[i]
    ensures forall i :: 0 <= i < |code| ==> code[i].Jmp? == model[i].Jmp?
  {
    if 1 <= j <= |code| { assert TMode(code[j - 1]) == TMode(model[j - 1]); }
  }

  // Jumps that wait on lists nobody touched.
  ghost predicate Kept(code: seq<Instr>, code': seq<Instr>, waiting: set<nat>) {
    forall j :: j in waiting && j < |code| ==> j < |code'| && code'[j] == code[j]
  }

  // One round of patchlistaux's loop, in the code and in the model.
  lemma PatchStep(code: seq<Instr>, mcode: seq<Instr>, waiting: set<nat>, rest: seq<nat>, reg: nat, dest: nat)
    requires rest != [] && IsList(code, rest[0], rest) && Distinct(rest) && Elems(rest) !! waiting
    requires Reps(code, mcode, waiting + Elems(rest)) && -MAXARG_sBx <= dest - (rest[0] + 1) <= MAXARG_sBx
    ensures var j := rest[0];
            var code1, m1 := PatchTestReg(code, j, reg), PatchTestReg(mcode, j, reg);
            && j < |code1| && code1[j] == code[j] && FixJump(m1, j, dest).Ok?
            && var code2 := code1[j := Jmp(code1[j].a, dest - (j + 1))];
               && Reps(code2, FixJump(m1, j, dest).value, waiting + Elems(rest[1..]))
                  && IsList(code2, Next(code, j), rest[1..])
               && |code2| == |code| && Kept(code, code2, waiting)
  {
    var j := rest[0];
    ElemsTail(rest);
    RepsSame(code, mcode, waiting + Elems(rest), j);
    var code1, m1 := PatchTestReg(code, j, reg), PatchTestReg(mcode, j, reg);
    var code2 := code1[j := Jmp(code1[j].a, dest - (j + 1))];
    assert j in Elems(rest);
    assert forall k :: k in waiting + Elems(rest) && k != j ==> code2[k] == code[k];
    ListFrame(code, code2, Next(code, j), rest[1..]);
  }

  lemma PatchUnfold(code: seq<Instr>, rest: seq<nat>, vtarget: nat, reg: nat, dtarget: nat)
    requires rest != []
    ensures var j := rest[0];
            var m := FixJump(PatchTestReg(code, j, reg), j, if ValueJump(code, j) then vtarget else dtarget);
            m.Ok? ==>
              LuaGen.PatchListAux(code, rest, vtarget, reg, dtarget) ==
              LuaGen.PatchListAux(m.value, rest[1..], vtarget, reg, dtarget)
  {
  }

  lemma ListHead(code: seq<Instr>, head: int, list: seq<nat>)
    requires IsList(code, head, list)
    ensures if head == NO_JUMP then list == [] else
            list != [] && head == list[0] && list[0] < |code|
            && code[list[0]].Jmp?
  {
  }

  lemma EmptyList(code: seq<Instr>)
    ensures IsList(code, NO_JUMP, []) && Elems([]) == {} && Distinct([])
  {
  }

  lemma HeadIs(code: seq<Instr>, head: int, list: seq<nat>)
    requires IsList(code, head, list) && list != []
    ensures head == list[0]
  {
  }

  // luaK_jump emits its instruction with no jump pending.
  lemma JumpModel(fs: FS)
    ensures LuaGen.Code(fs.(jpc := []), Jmp(0, NO_JUMP)) == Ok(LuaGen.Jump(fs).0)
  {
  }

  // After luaK_jump's instruction: the list that was pending, and the new jump.
  lemma HeldList(code0: seq<Instr>, code: seq<Instr>, mcode: seq<Instr>, waiting: set<nat>, saved: int, list: seq<nat>,
      j: nat)
    requires j == |code0| < |code| && Kept(code0, code, waiting + Elems(list)) && IsList(code0, saved, list)
    requires |mcode| == |code| == j + 1 && mcode[j] == Jmp(0, NO_JUMP) && Reps(code, mcode, waiting + Elems(list) + {})
    requires forall k :: k in waiting + Elems(list) ==> k < j
    ensures IsList(code, saved, list) && IsList(code, j, [j]) && Distinct([j]) && Elems([j]) == {j}
            && Elems([j]) !! Elems(list)
    ensures code[j] == Jmp(0, NO_JUMP) && Reps(code, mcode, waiting + Elems([j] + list))
            && Elems([j]) <= waiting + Elems([j] + list)
    ensures Elems([j] + list) == {j} + Elems(list)
  {
    ListFrame(code0, code, saved, list);
    assert waiting + Elems(list) + {} == waiting + Elems(list);
    assert code[j] == mcode[j];
    RepsMono(code, mcode, waiting + Elems(list), j);
    ElemsCons([j] + list);
    assert ([j] + list)[1..] == list;
    ElemsCons([j]);
    assert waiting + Elems(list) + {j} == waiting + Elems([j] + list);
  }

  lemma HeldKept(code0: seq<Instr>, code1: seq<Instr>, code2: seq<Instr>, waiting: set<nat>, list: seq<nat>, j: nat)
    requires Kept(code0, code1, waiting + Elems(list)) && |code0| <= |code1| == |code2| && j == |code0|
    requires forall k :: 0 <= k < |code2| && k !in Elems([j]) ==> code2[k] == code1[k]
    requires Elems([j]) == {j}
    ensures Kept(code0, code2, waiting)
  {
  }

  lemma RepsBound(code: seq<Instr>, mcode: seq<Instr>, waiting: set<nat>)
    requires Reps(code, mcode, waiting)
    ensures |mcode| == |code| && forall j :: j in waiting ==> j < |code|
  {
  }

  lemma RemoveNone(code: seq<Instr>)
    ensures LuaGen.RemoveValues(code, []) == code
  {
  }

  lemma KeptList(code: seq<Instr>, code': seq<Instr>, waiting: set<nat>, head: int, list: seq<nat>)
    requires Kept(code, code', waiting) && Elems(list) <= waiting && IsList(code, head, list)
    ensures IsList(code', head, list)
  {
    ListFrame(code, code', head, list);
  }

  lemma PatchNone(code: seq<Instr>, vtarget: nat, reg: nat, dtarget: nat)
    ensures LuaGen.PatchListAux(code, [], vtarget, reg, dtarget) == Ok(code)
  {
  }

  lemma PatchLength(code: seq<Instr>, j: nat, reg: nat)
    requires j < |code| && code[j].Jmp?
    ensures |PatchTestReg(code, j, reg)| == |code| && PatchTestReg(code, j, reg)[j] == code[j]
  {
  }

  lemma KeptItself(code: seq<Instr>, waiting: set<nat>)
    ensures Kept(code, code, waiting)
  {
  }

  lemma KeptTrans(a: seq<Instr>, b: seq<Instr>, c: seq<Instr>, waiting: set<nat>)
    requires Kept(a, b, waiting) && Kept(b, c, waiting)
    ensures Kept(a, c, waiting)
  {
  }

  lemma RepsAppend(code: seq<Instr>, mcode: seq<Instr>, waiting: set<nat>, i: Instr)
    requires Reps(code, mcode, waiting)
    ensures Reps(code + [i], mcode + [i], waiting) && Kept(code, code + [i], waiting)
  {
  }

  lemma RepsMono(code: seq<Instr>, mcode: seq<Instr>, waiting: set<nat>, j: nat)
    requires Reps(code, mcode, waiting) && j < |code| && code[j] == Jmp(0, NO_JUMP)
    ensures Reps(code, mcode, waiting + {j}) && Reps(code, mcode, waiting - {j}) && IsList(code, j, [j])
  {
    assert Next(code, j) == NO_JUMP && [j][1..] == [];
  }

  // removevalues' loop: one jump.
  lemma RemoveStep(code: seq<Instr>, mcode: seq<Instr>, waiting: set<nat>, rest: seq<nat>)
    requires rest != [] && IsList(code, rest[0], rest) && Elems(rest) <= waiting && Reps(code, mcode, waiting)
    ensures var j := rest[0];
            var code1, m1 := PatchTestReg(code, j, NO_REG), PatchTestReg(mcode, j, NO_REG);
            && Reps(code1, m1, waiting) && IsList(code1, Next(code1, j), rest[1..]) && Next(code1, j) == Next(code, j)
            && |code1| == |code| && Kept(code, code1, waiting)
            && RemoveValues(mcode, rest) == RemoveValues(m1, rest[1..])
  {
    var j := rest[0];
    ElemsTail(rest);
    RepsSame(code, mcode, waiting, j);
    var code1 := PatchTestReg(code, j, NO_REG);
    assert forall k :: k in waiting ==> code1[k] == code[k];
    ListFrame(code, code1, Next(code, j), rest[1..]);
  }

  lemma NoValueLeft(mcode: seq<Instr>, list: seq<nat>, n: nat)
    requires n <= |list| && forall k :: 0 <= k < n ==> ValueJump(mcode, list[k])
    ensures n == |list| ==> !NeedValue(mcode, list)
    ensures n < |list| && !ValueJump(mcode, list[n]) ==> NeedValue(mcode, list)
  {
  }

  // ---------- where the jumps to here land ----------

  // What luaK_code makes of instruction i: a pending jump now goes to dest, a
  // TESTSET in front of one no longer keeps its value, the rest is as it was.
  function Landed(code: seq<Instr>, js: set<nat>, dest: nat, i: nat): Instr
    requires i < |code|
  {
    if i in js && code[i].Jmp? then Jmp(code[i].a, dest - (i + 1))
    else if i + 1 in js && code[i].TestSet? then Test(code[i].b, code[i].c)
    else code[i]
  }

  lemma LandOne(code: seq<Instr>, j: nat, dest: nat)
    requires j < |code| && code[j].Jmp?
    requires FixJump(PatchTestReg(code, j, NO_REG), j, dest).Ok?
    ensures var code1 := FixJump(PatchTestReg(code, j, NO_REG), j, dest).value;
            |code1| == |code| && forall i :: 0 <= i < |code| ==> code1[i] == Landed(code, {j}, dest, i)
  {}

  // Retargeting with equal targets sends every jump of the list to its target
  // and touches nothing else but the TESTSETs in front of them.
  lemma {:induction false} LandAll(code: seq<Instr>, list: seq<nat>, dest: nat)
    requires Distinct(list) && forall j :: j in Elems(list) ==> j < |code| && code[j].Jmp?
    requires LuaGen.PatchListAux(code, list, dest, NO_REG, dest).Ok?
    ensures var code1 := LuaGen.PatchListAux(code, list, dest, NO_REG, dest).value;
            |code1| == |code| && forall i :: 0 <= i < |code| ==> code1[i] == Landed(code, Elems(list), dest, i)
    decreases |list|
  {
    hide Elems, Distinct;
    if list == [] {
      NoElems();
    } else {
      var j := list[0];
      ElemsTail(list);
      PatchUnfold(code, list, dest, NO_REG, dest);
      LandOne(code, j, dest);
      var code1 := FixJump(PatchTestReg(code, j, NO_REG), j, dest).value;
      LandAll(code1, list[1..], dest);
    }
  }

  // The same for the threaded code, beside the jumps that wait elsewhere.
  lemma LandThreaded(code: seq<Instr>, m: seq<Instr>, list: seq<nat>, waiting: set<nat>, code1: seq<Instr>,
      m1: seq<Instr>, dest: nat)
    requires Reps(code, m, waiting + Elems(list)) && Elems(list) !! waiting && Distinct(list)
    requires LuaGen.PatchListAux(m, list, dest, NO_REG, dest) == Ok(m1)
    requires Reps(code1, m1, waiting) && Kept(code, code1, waiting)
    ensures |code1| == |code| && forall i :: 0 <= i < |code| ==> code1[i] == Landed(code, Elems(list), dest, i)
  {
    hide Elems, Distinct;
    assert forall j :: j in Elems(list) ==> j in waiting + Elems(list);
    LandAll(m, list, dest);
    forall i | 0 <= i < |code| ensures code1[i] == Landed(code, Elems(list), dest, i) {
      assert i in waiting ==> i in waiting + Elems(list);
      assert i + 1 in Elems(list) && i + 1 < |code| ==> code[i + 1].Jmp?;
    }
  }

  // The state of the code generator as the source keeps it.
  class FuncState {
    var code: seq<Instr>
    var jpc: int
    var lasttarget: int
    var freereg: nat
    var maxstack: nat
    var nactvar: nat
    ghost var model: FS

    // waiting: the jumps on lists other than jpc.
    ghost predicate Rep(waiting: set<nat>)
      reads this
    {
      && lasttarget == model.lasttarget && freereg == model.freereg && maxstack == model.maxstack
         && nactvar == model.nactvar
      && Reps(code, model.code, waiting + Elems(model.jpc)) && IsList(code, jpc, model.jpc)
    }

    // open_func
    constructor ()
      ensures model == FS([], [], 0, 0, 2, 0) && Rep({}) && code == []
    {
      code, jpc, lasttarget, freereg, maxstack, nactvar := [], NO_JUMP, 0, 0, 2, 0;
      model := FS([], [], 0, 0, 2, 0);
      new;
      EmptyList(code);
    }

    // fixjump
    method FixJump(pc: nat, dest: nat) returns (r: Result<()>)
      requires pc < |code| && code[pc].Jmp?
      modifies this`code
      ensures match r
              case Ok(_) => code == old(code)[pc := Jmp(old(code)[pc].a, dest - (pc + 1))]
                && -MAXARG_sBx <= dest - (pc + 1) <= MAXARG_sBx
              case _ =>
                r.TooLong? && code == old(code) && (dest - (pc + 1) > MAXARG_sBx
                || (pc + 1) - dest > MAXARG_sBx)
    {
      var offset := dest - (pc + 1);
      if offset > MAXARG_sBx || -offset > MAXARG_sBx {
        return TooLong;
      }
      code := code[pc := Jmp(code[pc].a, offset)];
      return Ok(());
    }

    // luaK_concat: the list that starts at the result is l1's followed by l2's.
    method Concat(l1: int, l2: int, ghost s1: seq<nat>, ghost s2: seq<nat>, ghost waiting: set<nat>)
        returns (r: Result<int>)
      requires IsList(code, l1, s1) && IsList(code, l2, s2) && Distinct(s1) && Elems(s1) !! Elems(s2)
      requires Reps(code, model.code, waiting) && Elems(s1) <= waiting
      modifies this`code
      ensures Reps(code, model.code, waiting) && |code| == |old(code)|
      ensures forall j :: 0 <= j < |code| && j !in Elems(s1) ==> code[j] == old(code)[j]
      ensures match r
              case Ok(l) => IsList(code, l, s1 + s2) && (s2 == [] ==> code == old(code))
              case _ => r.TooLong? && |code| > MAXARG_sBx
    {
      if l2 == NO_JUMP {
        assert s1 + s2 == s1;
        return Ok(l1);
      } else if l1 == NO_JUMP {
        assert s1 + s2 == s2;
        return Ok(l2);
      }
      var list: nat := l1;
      var next := Next(code, list);
      ghost var n := 0;
      assert s1[0..] == s1;
      while next != NO_JUMP
        invariant 0 <= n < |s1| && list == s1[n] && list < |code| && code[list].Jmp? && next == Next(code, list)
        invariant code == old(code) && IsList(code, list, s1[n..])
        decreases |s1| - n
      {
        assert s1[n..][1..] == s1[n + 1..];
        list := next;
        n := n + 1;
        next := Next(code, list);
      }
      assert n == |s1| - 1;
      ListConcat(code, l1, s1, l2, s2);
      ListFrom(code, l2, s2, 0);
      assert list in Elems(s1);
      var _ :- FixJump(list, l2);
      return Ok(l1);
    }

    // patchtestreg
    method PatchTestReg(node: nat, reg: nat) returns (b: bool)
      requires node < |code| && code[node].Jmp?
      modifies this`code
      ensures code == LuaGen.PatchTestReg(old(code), node, reg) && b == ValueJump(old(code), node)
    {
      var i := Control(code, node);
      if !code[i].TestSet? {
        return false;
      }
      if reg != NO_REG && reg != code[i].b {
        code := code[i := TestSet(reg, code[i].b, code[i].c)];
      } else {
        code := code[i := Test(code[i].b, code[i].c)];
      }
      return true;
    }

    // patchlistaux
    method PatchListAux(head: int, vtarget: nat, reg: nat, dtarget: nat, ghost s: seq<nat>, ghost waiting: set<nat>)
        returns (r: Result<()>)
      requires IsList(code, head, s) && Distinct(s) && Elems(s) !! waiting && Reps(code, model.code, waiting + Elems(s))
      requires vtarget <= |code| && dtarget <= |code|
      modifies this`code, this`model
      ensures model == old(model).(code := model.code) && |code| == |old(code)|
      ensures match r
              case Ok(_) =>
                && LuaGen.PatchListAux(old(model.code), s, vtarget, reg, dtarget) == Ok(model.code)
                && Reps(code, model.code, waiting) && Kept(old(code), code, waiting)
              case _ => r.TooLong? && |code| > MAXARG_sBx
    {
      hide IsList, Reps, Elems, Distinct, Kept, Next, ValueJump, LuaGen.PatchListAux, LuaGen.PatchTestReg,
           LuaGen.FixJump;
      var list := head;
      ghost var rest: seq<nat> := s;
      KeptItself(code, waiting);
      ListHead(code, list, rest);
      while list != NO_JUMP
        invariant IsList(code, list, rest) && Distinct(rest) && Elems(rest) !! waiting
                  && Reps(code, model.code, waiting + Elems(rest))
        invariant |code| == |old(code)| && model == old(model).(code := model.code) && Kept(old(code), code, waiting)
        invariant LuaGen.PatchListAux(old(model.code), s, vtarget, reg, dtarget)
               == LuaGen.PatchListAux(model.code, rest, vtarget, reg, dtarget)
        invariant if list == NO_JUMP then rest == [] else
                  rest != [] && list == rest[0] && rest[0] < |code|
                  && code[rest[0]].Jmp?
        decreases |rest|
      {
        ghost var code0, rest0, m0 := code, rest, model.code;
        var j: nat := list;
        var next := Next(code, j);
        var b := PatchTestReg(j, reg);
        var dest := if b then vtarget else dtarget;
        PatchLength(code0, j, reg);
        var _ :- FixJump(j, dest);
        PatchStep(code0, m0, waiting, rest0, reg, dest);
        RepsSame(code0, m0, waiting + Elems(rest0), j);
        PatchUnfold(m0, rest0, vtarget, reg, dtarget);
        model := model.(code := LuaGen.FixJump(LuaGen.PatchTestReg(m0, j, reg), j, dest).value);
        ElemsTail(rest0);
        KeptTrans(old(code), code0, code, waiting);
        rest := rest0[1..];
        list := next;
        ListHead(code, list, rest);
      }
      PatchNone(model.code, vtarget, reg, dtarget);
      assert waiting + Elems(rest) == waiting by { NoElems(); }
      return Ok(());
    }

    // dischargejpc
    method DischargeJpc(ghost waiting: set<nat>) returns (r: Result<()>)
      requires Rep(waiting) && Distinct(model.jpc) && Elems(model.jpc) !! waiting
      modifies this`code, this`model, this`jpc
      ensures |code| == |old(code)|
      ensures match r
              case Ok(_) => LuaGen.DischargeJpc(old(model)) == Ok(model) && Rep(waiting)
                && Kept(old(code), code, waiting)
              case _ => r.TooLong? && |code| > MAXARG_sBx
      ensures r.Ok? ==> forall k :: 0 <= k < |code| ==> code[k] == Landed(old(code), Elems(old(model.jpc)), |code|, k)
    {
      ghost var m0, code0 := model, code;
      var _ :- PatchListAux(jpc, |code|, NO_REG, |code|, model.jpc, waiting);
      LandThreaded(code0, m0.code, m0.jpc, waiting, code, model.code, |code|);
      jpc := NO_JUMP;
      model := model.(jpc := []);
      NoElems();
      assert waiting + {} == waiting;
      return Ok(());
    }

    // luaK_code.  Every jump that was pending now goes to the new instruction.
    method Code(i: Instr, ghost waiting: set<nat>) returns (r: Result<nat>)
      requires Rep(waiting) && Distinct(model.jpc) && Elems(model.jpc) !! waiting
      modifies this`code, this`model, this`jpc
      ensures |code| >= |old(code)|
      ensures match r
              case Ok(n) => LuaGen.Code(old(model), i) == Ok(model) && n == |old(code)| && model.jpc == []
                && jpc == NO_JUMP
                            && Rep(waiting) && Kept(old(code), code, waiting)
              case _ => r.TooLong? && |code| > MAXARG_sBx
      ensures r.Ok? ==> |code| == r.value + 1 && code[r.value] == i
                        && forall k :: 0 <= k < r.value ==>
                           code[k] ==
                           Landed(old(code), Elems(old(model.jpc)), r.value, k)
    {
      var _ :- DischargeJpc(waiting);
      NoElems();
      RepsAppend(code, model.code, waiting + Elems(model.jpc), i);
      code := code + [i];
      model := model.(code := model.code + [i]);
      return Ok(|code| - 1);
    }

    // luaK_jump: the new jump takes the jumps to here along.
    method Jump(ghost waiting: set<nat>) returns (r: Result<int>)
      requires Rep(waiting) && Distinct(model.jpc) && Elems(model.jpc) !! waiting
               && Elems(LuaGen.Jump(model).1) !! waiting
      modifies this`code, this`model, this`jpc
      ensures |code| >= |old(code)|
      ensures match r
              case Ok(j) =>
                && (model, LuaGen.Jump(old(model)).1) == LuaGen.Jump(old(model))
                   && IsList(code, j, LuaGen.Jump(old(model)).1)
                && Rep(waiting + Elems(LuaGen.Jump(old(model)).1)) && Kept(old(code), code, waiting)
                && (old(model.jpc) == [] ==> j == |old(code)| && code[j] == Jmp(0, NO_JUMP))
              case _ => r.TooLong? && |code| > MAXARG_sBx
    {
      hide IsList, Reps, Elems, Distinct, Kept, LuaGen.DischargeJpc;
      ghost var list, m0, code0 := model.jpc, model, code;
      var saved := jpc;
      jpc := NO_JUMP;
      model := model.(jpc := []);
      EmptyList(code);
      assert waiting + Elems(list) + {} == waiting + Elems(list);
      var j :- Code(Jmp(0, NO_JUMP), waiting + Elems(list));
      ghost var code1 := code;
      JumpModel(m0);
      RepsBound(code0, m0.code, waiting + Elems(list));
      RepsBound(code, model.code, waiting + Elems(list) + {});
      HeldList(code0, code1, model.code, waiting, saved, list, j);
      var l :- Concat(j, saved, [j], list, waiting + Elems([j] + list));
      HeldKept(code0, code1, code, waiting, list, j);
      assert waiting + Elems([j] + list) + {} == waiting + Elems([j] + list);
      HeadIs(code, l, [j] + list);
      EmptyList(code);
      assert LuaGen.Jump(m0) == (model, [j] + list);
      return Ok(l);
    }

    // condjump
    method CondJump(test: Instr, ghost waiting: set<nat>) returns (r: Result<nat>)
      requires Rep(waiting) && Distinct(model.jpc) && Elems(model.jpc) !! waiting
      modifies this`code, this`model, this`jpc
      ensures |code| >= |old(code)|
      ensures match r
              case Ok(j) => LuaGen.CondJump(old(model), test) == Ok((model, j)) && Rep(waiting)
                && Kept(old(code), code, waiting)
                            && j < |code| && code[j] == Jmp(0, NO_JUMP) && model.jpc == []
              case _ => r.TooLong? && |code| > MAXARG_sBx
    {
      ghost var m0 := model;
      var n :- Code(test, waiting);
      label Emitted:
      ghost var c1 := code;
      NoElems();
      ElemsCons([|code|]);
      assert [|code|] + model.jpc == [|code|];
      var j :- Jump(waiting);
      RepsMono(code, model.code, waiting + Elems([j]), j);
      assert waiting + Elems([j]) - {j} + Elems([]) == waiting;
      KeptTrans(old(code), c1, code, waiting);
      return Ok(j);
    }

    // luaK_patchtohere
    method PatchToHere(list: int, ghost s: seq<nat>, ghost waiting: set<nat>) returns (r: Result<()>)
      requires Rep(waiting) && IsList(code, list, s) && Elems(s) <= waiting && Distinct(model.jpc)
               && Elems(model.jpc) !! waiting
      modifies this`code, this`model, this`jpc, this`lasttarget
      ensures |code| == |old(code)|
      ensures match r
              case Ok(_) => model == LuaGen.PatchToHere(old(model), s) && Rep(waiting - Elems(s))
                && Kept(old(code), code, waiting)
              case _ => r.TooLong? && |code| > MAXARG_sBx
    {
      lasttarget := |code|;
      var l :- Concat(jpc, list, model.jpc, s, waiting + Elems(model.jpc));
      jpc := l;
      ElemsAppend(model.jpc, s);
      assert waiting - Elems(s) + Elems(model.jpc + s) == waiting + Elems(model.jpc);
      model := LuaGen.PatchToHere(model, s);
      return Ok(());
    }

    // need_value
    method NeedValue(head: int, ghost s: seq<nat>) returns (b: bool)
      requires IsList(code, head, s)
      ensures b == LuaGen.NeedValue(code, s)
    {
      var list := head;
      ghost var n := 0;
      assert s[0..] == s;
      while list != NO_JUMP
        invariant 0 <= n <= |s| && IsList(code, list, s[n..])
        invariant forall k :: 0 <= k < n ==> ValueJump(code, s[k])
        decreases |s| - n
      {
        var i := Control(code, list);
        ListFrom(code, head, s, n);
        if !code[i].TestSet? {
          NoValueLeft(code, s, n);
          return true;
        }
        assert s[n..][1..] == s[n + 1..];
        list := Next(code, list);
        n := n + 1;
      }
      NoValueLeft(code, s, n);
      return false;
    }

    // removevalues
    method RemoveValues(head: int, ghost s: seq<nat>, ghost waiting: set<nat>)
      requires Rep(waiting) && IsList(code, head, s) && Elems(s) <= waiting
      modifies this`code, this`model
      ensures model == old(model).(code := LuaGen.RemoveValues(old(model.code), s)) && Rep(waiting)
      ensures |code| == |old(code)| && Kept(old(code), code, waiting + Elems(model.jpc))
    {
      var list := head;
      ghost var rest: seq<nat> := s;
      ghost var all := waiting + Elems(model.jpc);
      hide IsList, Reps, Elems, Distinct, Kept, Next, ValueJump, LuaGen.RemoveValues, LuaGen.PatchTestReg;
      KeptItself(code, all);
      ListHead(code, list, rest);
      while list != NO_JUMP
        invariant IsList(code, list, rest) && Elems(rest) <= all && Reps(code, model.code, all)
                  && Kept(old(code), code, all)
        invariant |code| == |old(code)| && model == old(model).(code := model.code)
        invariant LuaGen.RemoveValues(old(model.code), s) == LuaGen.RemoveValues(model.code, rest)
        invariant if list == NO_JUMP then rest == [] else
                  rest != [] && list == rest[0] && rest[0] < |code|
                  && code[rest[0]].Jmp?
        decreases |rest|
      {
        ghost var code0 := code;
        var _ := PatchTestReg(list, NO_REG);
        RemoveStep(code0, model.code, all, rest);
        PatchLength(code0, rest[0], NO_REG);
        model := model.(code := LuaGen.PatchTestReg(model.code, rest[0], NO_REG));
        ElemsTail(rest);
        KeptTrans(old(code), code0, code, all);
        rest := rest[1..];
        list := Next(code, list);
        ListHead(code, list, rest);
      }
      RemoveNone(model.code);
      KeptList(old(code), code, all, jpc, model.jpc);
    }
  }
}
