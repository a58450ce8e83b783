/** The survey pass and the real pass translate alike: the code they emit differs only in the
    stores at the start of the entry block. */
module Survey {
  import opened Words
  import opened Ast
  import opened Ir
  import opened Emitter
  import opened Translation
  import opened Evaluation

  /** Same function under construction, except that the entry block starts with pa in one and
      with pb in the other. */
  ghost predicate Twins(a: Emit, b: Emit, pa: seq<Instr>, pb: seq<Instr>)
  {
    match a case Emit(blocks, cur, nextBlock, nextReg) =>
      && b.cur == cur && b.nextBlock == nextBlock && b.nextReg == nextReg && nextBlock > 0
      && b.blocks.Keys == blocks.Keys && 0 in blocks
      && (forall x | x in blocks && x != 0 :: b.blocks[x] == blocks[x])
      && pa <= blocks[0] && pb <= b.blocks[0] && blocks[0][|pa|..] == b.blocks[0][|pb|..]
  }

  ghost predicate Straight(p: seq<Instr>)
  {
    forall k | 0 <= k < |p| :: !IsTerminator(p[k])
  }

  ghost predicate TwinResults(ra: Result, rb: Result, pa: seq<Instr>, pb: seq<Instr>)
  {
    match ra
    case Err(_) => rb == ra
    case Ok(st, v) => rb.Ok? && rb.v == v && rb.st.syms == st.syms && Twins(st.em, rb.st.em, pa, pb)
  }

  ghost predicate TwinStates(a: TState, b: TState, pa: seq<Instr>, pb: seq<Instr>)
  {
    match a case TState(em, syms) => b.syms == syms && Twins(em, b.em, pa, pb)
  }

  lemma TwinAppend(a: Emit, b: Emit, i: Instr, pa: seq<Instr>, pb: seq<Instr>)
    requires Twins(a, b, pa, pb)
    ensures Twins(a.Append(i), b.Append(i), pa, pb) && Twins(a.Define(i), b.Define(i), pa, pb)
  {
  }

  lemma TwinCreate(a: Emit, b: Emit, pa: seq<Instr>, pb: seq<Instr>)
    requires Twins(a, b, pa, pb)
    ensures Twins(a.CreateBlock(), b.CreateBlock(), pa, pb)
  {
  }

  lemma TwinErase(a: Emit, b: Emit, x: nat, pa: seq<Instr>, pb: seq<Instr>)
    requires Twins(a, b, pa, pb) && x != 0
    ensures Twins(a.Erase(x), b.Erase(x), pa, pb)
  {
  }

  lemma TwinFallsThrough(a: Emit, b: Emit, pa: seq<Instr>, pb: seq<Instr>)
    requires Twins(a, b, pa, pb) && Straight(pa) && Straight(pb)
    ensures a.FallsThrough() == b.FallsThrough()
  {
    if a.cur == 0 {
      TerminatorAfter(a.blocks[0], pa);
      TerminatorAfter(b.blocks[0], pb);
    }
  }

  lemma TerminatorAfter(body: seq<Instr>, p: seq<Instr>)
    requires p <= body && Straight(p)
    ensures HasTerminator(body) == HasTerminator(body[|p|..])
  {
    if HasTerminator(body) {
      var k :| 0 <= k < |body| && IsTerminator(body[k]);
      assert k >= |p|;
      assert IsTerminator(body[|p|..][k - |p|]);
    }
    if HasTerminator(body[|p|..]) {
      var k :| 0 <= k < |body[|p|..]| && IsTerminator(body[|p|..][k]);
      assert IsTerminator(body[k + |p|]);
    }
  }

  lemma TwinAt(a: Emit, b: Emit, x: nat, pa: seq<Instr>, pb: seq<Instr>)
    requires Twins(a, b, pa, pb)
    ensures Twins(a.At(x), b.At(x), pa, pb)
  {
  }

  lemma TwinNext(a: Emit, b: Emit, pa: seq<Instr>, pb: seq<Instr>)
    requires Twins(a, b, pa, pb)
    ensures b.cur == a.cur && b.nextBlock == a.nextBlock > 0 && b.nextReg == a.nextReg
  {
  }

  lemma TwinThree(a: Emit, b: Emit, pa: seq<Instr>, pb: seq<Instr>)
    requires Twins(a, b, pa, pb)
    ensures Twins(a.CreateBlock().CreateBlock().CreateBlock(), b.CreateBlock().CreateBlock().CreateBlock(), pa, pb)
  {
    hide Twins;
    TwinCreate(a, b, pa, pb);
    TwinCreate(a.CreateBlock(), b.CreateBlock(), pa, pb);
    TwinCreate(a.CreateBlock().CreateBlock(), b.CreateBlock().CreateBlock(), pa, pb);
  }

  lemma TwinFilled(a: Emit, b: Emit, bb: nat, x: Operand, d: nat, mb: nat, pa: seq<Instr>, pb: seq<Instr>)
    requires Twins(a, b, pa, pb)
    ensures Twins(Filled(a, bb, x, d, mb), Filled(b, bb, x, d, mb), pa, pb)
  {
    hide Twins, Emit.Append;
    TwinAt(a, b, bb, pa, pb);
    TwinAppend(a.At(bb), b.At(bb), Store(x, Reg(d)), pa, pb);
    TwinAppend(a.At(bb).Append(Store(x, Reg(d))), b.At(bb).Append(Store(x, Reg(d))), Br(mb), pa, pb);
  }

  lemma TwinSelectArms(a: Emit, b: Emit, x: Operand, y: Operand, cty: CellTy, pa: seq<Instr>, pb: seq<Instr>)
    requires Twins(a, b, pa, pb)
    ensures Twins(SelectArms(x, y, cty, a), SelectArms(x, y, cty, b), pa, pb)
  {
    TwinNext(a, b, pa, pb);
    var d, tb := a.nextReg, a.nextBlock;
    var i := Alloca(d, cty, Temporary);
    SelectArmsIs(a, x, y, cty, d, tb);
    SelectArmsIs(b, x, y, cty, d, tb);
    hide Twins, Emit.Append, Emit.Define, Filled, Emit.CreateBlock, SelectArms;
    TwinAppend(a, b, i, pa, pb);
    TwinThree(a.Define(i), b.Define(i), pa, pb);
    var a1, b1 := SelectOpen(cty, a), SelectOpen(cty, b);
    TwinFilled(a1, b1, tb, x, d, tb + 2, pa, pb);
    TwinFilled(Filled(a1, tb, x, d, tb + 2), Filled(b1, tb, x, d, tb + 2), tb + 1, y, d, tb + 2, pa, pb);
  }

  lemma TwinSelect(a: Emit, b: Emit, c: Operand, x: Operand, y: Operand, cty: CellTy, pa: seq<Instr>, pb: seq<Instr>)
    requires Twins(a, b, pa, pb)
    ensures Twins(Select(c, x, y, cty, a), Select(c, x, y, cty, b), pa, pb)
  {
    TwinNext(a, b, pa, pb);
    var d, tb := a.nextReg, a.nextBlock;
    SelectIs(a, c, x, y, cty, a.cur, d, tb);
    SelectIs(b, c, x, y, cty, a.cur, d, tb);
    hide Twins, Select, Emit.Append, Emit.Define, SelectArms, Emit.At;
    TwinSelectArms(a, b, x, y, cty, pa, pb);
    TwinClose(SelectArms(x, y, cty, a), SelectArms(x, y, cty, b), a.cur, CondBr(c, tb, tb + 1), tb + 2,
              Load(d + 1, Reg(d)), pa, pb);
  }

  lemma SelectArmsIs(em: Emit, x: Operand, y: Operand, cty: CellTy, d: nat, tb: nat)
    requires em.nextReg == d && em.nextBlock == tb
    ensures SelectArms(x, y, cty, em) ==
            Filled(Filled(SelectOpen(cty, em), tb, x, d, tb + 2), tb + 1, y, d, tb + 2)
    ensures SelectOpen(cty, em) == em.Define(Alloca(d, cty, Temporary)).CreateBlock().CreateBlock().CreateBlock()
  {
  }

  lemma SelectIs(em: Emit, c: Operand, x: Operand, y: Operand, cty: CellTy, cur: nat, d: nat, tb: nat)
    requires em.cur == cur && em.nextReg == d && em.nextBlock == tb
    ensures Select(c, x, y, cty, em) ==
            SelectArms(x, y, cty, em).At(cur).Append(CondBr(c, tb, tb + 1)).At(tb + 2).Define(Load(d + 1, Reg(d)))
  {
  }

  lemma TwinClose(a: Emit, b: Emit, cur: nat, i: Instr, next: nat, j: Instr, pa: seq<Instr>, pb: seq<Instr>)
    requires Twins(a, b, pa, pb)
    ensures Twins(a.At(cur).Append(i).At(next).Define(j), b.At(cur).Append(i).At(next).Define(j), pa, pb)
  {
    hide Twins, Emit.Append, Emit.Define;
    TwinAt(a, b, cur, pa, pb);
    TwinAppend(a.At(cur), b.At(cur), i, pa, pb);
    TwinAt(a.At(cur).Append(i), b.At(cur).Append(i), next, pa, pb);
    TwinAppend(a.At(cur).Append(i).At(next), b.At(cur).Append(i).At(next), j, pa, pb);
  }

  // -------------------------------------------------------------- operators

  lemma TwinLoad(name: string, a: TState, b: TState, pa: seq<Instr>, pb: seq<Instr>)
    requires TwinStates(a, b, pa, pb)
    ensures TwinResults(LoadVar(name, a), LoadVar(name, b), pa, pb)
  {
    TwinNext(a.em, b.em, pa, pb);
    if name in a.syms {
      var i := Load(a.em.nextReg, Reg(a.syms[name].cell));
      TwinAppend(a.em, b.em, i, pa, pb);
    }
  }

  lemma TwinBin(op: BinOp, x: TVal, y: TVal, a: TState, b: TState, pa: seq<Instr>, pb: seq<Instr>)
    requires TwinStates(a, b, pa, pb)
    ensures TwinResults(ApplyBin(op, x, y, a), ApplyBin(op, x, y, b), pa, pb)
  {
    hide Twins, Emit.Append, Emit.Define;
    TwinNext(a.em, b.em, pa, pb);
    if x.TVal? && y.TVal? {
      var r := a.em.nextReg;
      if IsLogic(op) {
        var i1, i2 := Cmp(r, PNe, x.opd, Const(I1, 0)), Cmp(r + 1, PNe, y.opd, Const(I1, 0));
        var i3 := Arith(r + 2, if op == LAnd then OAnd else OOr, Reg(r), Reg(r + 1));
        TwinAppend(a.em, b.em, i1, pa, pb);
        TwinAppend(a.em.Define(i1), b.em.Define(i1), i2, pa, pb);
        TwinAppend(a.em.Define(i1).Define(i2), b.em.Define(i1).Define(i2), i3, pa, pb);
      } else if IsArith(op) {
        TwinAppend(a.em, b.em, Arith(r, OpcodeOf(op), x.opd, y.opd), pa, pb);
      } else {
        TwinAppend(a.em, b.em, Cmp(r, PredOf(op), x.opd, y.opd), pa, pb);
      }
    }
  }

  lemma TwinAssign(lhs: LVal, place: Place, v: TVal, a: TState, b: TState, pa: seq<Instr>, pb: seq<Instr>)
    requires TwinStates(a, b, pa, pb)
    ensures TwinResults(ApplyAssign(lhs, place, v, a), ApplyAssign(lhs, place, v, b), pa, pb)
  {
    hide Twins, Emit.Append, Emit.Define;
    TwinNext(a.em, b.em, pa, pb);
    if v.TVal? {
      match place {
        case Fresh =>
          if lhs.LVar? {
            var i := Alloca(a.em.nextReg, Scalar(v.ty), Variable(lhs.name, lhs.mut));
            TwinAppend(a.em, b.em, i, pa, pb);
            TwinAppend(a.em.Define(i), b.em.Define(i), Store(v.opd, Reg(a.em.nextReg)), pa, pb);
          }
        case Known(s) => TwinAppend(a.em, b.em, Store(v.opd, Reg(s.cell)), pa, pb);
        case Pointed(p, _) => TwinAppend(a.em, b.em, Store(v.opd, p), pa, pb);
      }
    }
  }

  lemma TwinCond(c: TVal, x: TVal, y: TVal, a: TState, b: TState, pa: seq<Instr>, pb: seq<Instr>)
    requires TwinStates(a, b, pa, pb)
    ensures TwinResults(ApplyCond(c, x, y, a), ApplyCond(c, x, y, b), pa, pb)
  {
    hide Twins, Select;
    TwinNext(a.em, b.em, pa, pb);
    if c.TVal? && x.TVal? && y.TVal? {
      TwinSelect(a.em, b.em, c.opd, x.opd, y.opd, Scalar(x.ty), pa, pb);
    }
  }

  ghost predicate TwinPlaces(ra: PlaceResult, rb: PlaceResult, pa: seq<Instr>, pb: seq<Instr>)
  {
    match ra
    case PlaceErr(_) => rb == ra
    case PlaceOk(st, p) => rb.PlaceOk? && rb.place == p && TwinStates(st, rb.st, pa, pb)
  }

  lemma TwinCondPlace(c: TVal, x: string, y: string, a: TState, b: TState, pa: seq<Instr>, pb: seq<Instr>)
    requires TwinStates(a, b, pa, pb)
    ensures TwinPlaces(ApplyCondPlace(c, x, y, a), ApplyCondPlace(c, x, y, b), pa, pb)
  {
    hide Twins, Select, ChoosePlace, LoadVar;
    var a1, b1 := LoadVar(x, a), LoadVar(x, b);
    TwinLoad(x, a, b, pa, pb);
    if a1.Ok? {
      var a2, b2 := LoadVar(y, a1.st), LoadVar(y, b1.st);
      TwinLoad(y, a1.st, b1.st, pa, pb);
      if a2.Ok? {
        LoadedSymbols(x, y, a);
        TwinChoose(c, x, y, a2.st, b2.st, pa, pb);
      }
    }
  }

  lemma LoadedSymbols(x: string, y: string, a: TState)
    requires LoadVar(x, a).Ok? && LoadVar(y, LoadVar(x, a).st).Ok?
    ensures x in LoadVar(y, LoadVar(x, a).st).st.syms && y in LoadVar(y, LoadVar(x, a).st).st.syms
  {
  }

  lemma TwinChoose(c: TVal, x: string, y: string, a: TState, b: TState, pa: seq<Instr>, pb: seq<Instr>)
    requires TwinStates(a, b, pa, pb) && x in a.syms && y in a.syms
    ensures TwinPlaces(ChoosePlace(c, x, y, a), ChoosePlace(c, x, y, b), pa, pb)
  {
    hide Twins, Select;
    TwinNext(a.em, b.em, pa, pb);
    if c.TVal? {
      var s, t := a.syms[x], a.syms[y];
      TwinSelect(a.em, b.em, c.opd, Reg(s.cell), Reg(t.cell), Pointer(s.ty), pa, pb);
    }
  }

  lemma TwinThen(a: TState, b: TState, pa: seq<Instr>, pb: seq<Instr>)
    requires TwinStates(a, b, pa, pb)
    ensures TwinStates(ThenState(a), ThenState(b), pa, pb) && TwinStates(CallState(a), CallState(b), pa, pb)
  {
    TwinNext(a.em, b.em, pa, pb);
    hide Twins, Emit.CreateBlock;
    TwinThree(a.em, b.em, pa, pb);
    var a3, b3 := a.em.CreateBlock().CreateBlock().CreateBlock(), b.em.CreateBlock().CreateBlock().CreateBlock();
    TwinAt(a3, b3, a.em.nextBlock, pa, pb);
    TwinCreate(a.em, b.em, pa, pb);
    TwinCreate(a.em.CreateBlock(), b.em.CreateBlock(), pa, pb);
    TwinAt(a.em.CreateBlock().CreateBlock(), b.em.CreateBlock().CreateBlock(), a.em.nextBlock + 1, pa, pb);
  }

  lemma TwinCloseBody(a: Emit, b: Emit, next: nat, pa: seq<Instr>, pb: seq<Instr>)
    requires Twins(a, b, pa, pb) && Straight(pa) && Straight(pb)
    ensures Twins(CloseBody(a, next), CloseBody(b, next), pa, pb)
  {
    TwinFallsThrough(a, b, pa, pb);
    TwinAppend(a, b, Br(next), pa, pb);
  }

  lemma TwinElse(a: TState, b: TState, ea: Emit, eb: Emit, pa: seq<Instr>, pb: seq<Instr>)
    requires TwinStates(a, b, pa, pb) && Twins(ea, eb, pa, pb) && Straight(pa) && Straight(pb)
    ensures TwinStates(ElseState(a, ea), ElseState(b, eb), pa, pb)
  {
    TwinNext(a.em, b.em, pa, pb);
    hide Twins, Emit.Append, CloseBody;
    var mb := a.em.nextBlock + 2;
    TwinCloseBody(ea, eb, mb, pa, pb);
    TwinAt(CloseBody(ea, mb), CloseBody(eb, mb), mb - 1, pa, pb);
  }

  lemma TwinResume(ea: Emit, eb: Emit, cur: nat, i: Instr, next: nat, pa: seq<Instr>, pb: seq<Instr>)
    requires Twins(ea, eb, pa, pb)
    ensures Twins(ea.At(cur).Append(i), eb.At(cur).Append(i), pa, pb)
    ensures Twins(ea.At(cur).Append(i).At(next), eb.At(cur).Append(i).At(next), pa, pb)
  {
    hide Twins, Emit.Append;
    TwinAt(ea, eb, cur, pa, pb);
    TwinAppend(ea.At(cur), eb.At(cur), i, pa, pb);
    TwinAt(ea.At(cur).Append(i), eb.At(cur).Append(i), next, pa, pb);
  }

  lemma TwinJoin(c: Operand, a: TState, b: TState, keep: bool, ea: Emit, eb: Emit, pa: seq<Instr>, pb: seq<Instr>)
    requires TwinStates(a, b, pa, pb) && Twins(ea, eb, pa, pb) && Straight(pa) && Straight(pb)
    ensures TwinStates(JoinArms(c, a, keep, ea), JoinArms(c, b, keep, eb), pa, pb)
  {
    TwinNext(a.em, b.em, pa, pb);
    hide Twins, Emit.Append, CloseBody, Emit.Erase;
    var tb, mb := a.em.nextBlock, a.em.nextBlock + 2;
    TwinCloseBody(ea, eb, mb, pa, pb);
    TwinErase(CloseBody(ea, mb), CloseBody(eb, mb), mb, pa, pb);
    if keep {
      TwinResume(CloseBody(ea, mb), CloseBody(eb, mb), a.em.cur, CondBr(c, tb, tb + 1), mb, pa, pb);
    } else {
      TwinResume(CloseBody(ea, mb).Erase(mb), CloseBody(eb, mb).Erase(mb), a.em.cur, CondBr(c, tb, tb + 1), mb, pa, pb);
    }
  }

  lemma TwinEndCall(a: TState, b: TState, ea: Emit, eb: Emit, pa: seq<Instr>, pb: seq<Instr>)
    requires TwinStates(a, b, pa, pb) && Twins(ea, eb, pa, pb) && Straight(pa) && Straight(pb)
    ensures TwinStates(EndCall(a, ea), EndCall(b, eb), pa, pb)
  {
    TwinNext(a.em, b.em, pa, pb);
    TwinFallsThrough(ea, eb, pa, pb);
    hide Twins, Emit.Append, Emit.Erase;
    var nb := a.em.nextBlock;
    TwinAppend(ea, eb, Br(nb), pa, pb);
    TwinErase(ea, eb, nb, pa, pb);
    if ea.FallsThrough() {
      TwinResume(ea.Append(Br(nb)), eb.Append(Br(nb)), a.em.cur, Br(nb + 1), nb, pa, pb);
    } else {
      TwinResume(ea.Erase(nb), eb.Erase(nb), a.em.cur, Br(nb + 1), nb, pa, pb);
    }
  }

  // -------------------------------------------------------------- induction

  lemma {:induction false} TwinTrans(e: Expr, a: TState, b: TState, pa: seq<Instr>, pb: seq<Instr>)
    requires TwinStates(a, b, pa, pb) && Straight(pa) && Straight(pb)
    ensures TwinResults(Trans(e, a), Trans(e, b), pa, pb)
    decreases e, 1
  {
    hide Twins, Straight, ApplyBin, ApplyAssign, ApplyCond;
    match e
    case IntLit(_) =>
    case BoolLit(_) =>
    case Var(name) => TwinLoad(name, a, b, pa, pb);
    case Bin(op, l, r) =>
      TwinTrans(l, a, b, pa, pb);
      var a1, b1 := Trans(l, a), Trans(l, b);
      if a1.Ok? {
        TwinTrans(r, a1.st, b1.st, pa, pb);
        var a2, b2 := Trans(r, a1.st), Trans(r, b1.st);
        if a2.Ok? {
          TwinBin(op, a1.v, a2.v, a2.st, b2.st, pa, pb);
        }
      }
    case Assign(lhs, rhs) =>
      TwinPlace(lhs, a, b, pa, pb);
      var a1, b1 := TransPlace(lhs, a), TransPlace(lhs, b);
      if a1.PlaceOk? {
        TwinTrans(rhs, a1.st, b1.st, pa, pb);
        var a2, b2 := Trans(rhs, a1.st), Trans(rhs, b1.st);
        if a2.Ok? {
          TwinAssign(lhs, a1.place, a2.v, a2.st, b2.st, pa, pb);
        }
      }
    case Cond(_, _, _) => TwinCondExpr(e, a, b, pa, pb);
    case CondScope(c, _, _) =>
      TwinTrans(c, a, b, pa, pb);
      var a1, b1 := Trans(c, a), Trans(c, b);
      if a1.Ok? && a1.v.TVal? {
        TwinArms(a1.v.opd, e, a1.st, b1.st, pa, pb);
      }
    case ScopeCall(body) => TwinCall(body, a, b, pa, pb);
    case Ret(e1) =>
      TwinTrans(e1, a, b, pa, pb);
      var a1, b1 := Trans(e1, a), Trans(e1, b);
      if a1.Ok? && a1.v.TVal? {
        TwinAppend(a1.st.em, b1.st.em, RetVal(a1.v.ty, a1.v.opd), pa, pb);
      }
  }

  lemma {:induction false} TwinCondExpr(e: Expr, a: TState, b: TState, pa: seq<Instr>, pb: seq<Instr>)
    requires TwinStates(a, b, pa, pb) && Straight(pa) && Straight(pb) && e.Cond?
    ensures TwinResults(Trans(e, a), Trans(e, b), pa, pb)
    decreases e, 0
  {
    hide Twins, Straight, ApplyCond;
    TwinTrans(e.cond, a, b, pa, pb);
    var a1, b1 := Trans(e.cond, a), Trans(e.cond, b);
    if a1.Ok? {
      TwinTrans(e.thn, a1.st, b1.st, pa, pb);
      var a2, b2 := Trans(e.thn, a1.st), Trans(e.thn, b1.st);
      if a2.Ok? {
        TwinTrans(e.els, a2.st, b2.st, pa, pb);
        var a3, b3 := Trans(e.els, a2.st), Trans(e.els, b2.st);
        if a3.Ok? {
          TwinCond(a1.v, a2.v, a3.v, a3.st, b3.st, pa, pb);
        }
      }
    }
  }

  lemma {:induction false} TwinPlace(lhs: LVal, a: TState, b: TState, pa: seq<Instr>, pb: seq<Instr>)
    requires TwinStates(a, b, pa, pb) && Straight(pa) && Straight(pb)
    ensures TwinPlaces(TransPlace(lhs, a), TransPlace(lhs, b), pa, pb)
    decreases lhs, 1
  {
    hide Twins, Straight, ApplyCondPlace;
    if lhs.LCond? {
      TwinTrans(lhs.cond, a, b, pa, pb);
      var a1, b1 := Trans(lhs.cond, a), Trans(lhs.cond, b);
      if a1.Ok? {
        TwinCondPlace(a1.v, lhs.a, lhs.b, a1.st, b1.st, pa, pb);
      }
    }
  }

  lemma {:induction false} TwinAll(es: seq<Expr>, last: TVal, a: TState, b: TState, pa: seq<Instr>, pb: seq<Instr>)
    requires TwinStates(a, b, pa, pb) && Straight(pa) && Straight(pb)
    ensures TwinResults(TransAll(es, a, last), TransAll(es, b, last), pa, pb)
    decreases es, 0
  {
    hide Twins, Straight, Trans;
    if es != [] {
      TwinTrans(es[0], a, b, pa, pb);
      var a1, b1 := Trans(es[0], a), Trans(es[0], b);
      if a1.Ok? {
        TwinAll(es[1..], a1.v, a1.st, b1.st, pa, pb);
      }
    }
  }

  lemma {:induction false} TwinCall(body: seq<Expr>, a: TState, b: TState, pa: seq<Instr>, pb: seq<Instr>)
    requires TwinStates(a, b, pa, pb) && Straight(pa) && Straight(pb)
    ensures TwinResults(TransCall(body, a), TransCall(body, b), pa, pb)
    decreases body, 1
  {
    hide Twins, Straight, TransAll, CallState, EndCall;
    TwinThen(a, b, pa, pb);
    TwinAll(body, Nothing, CallState(a), CallState(b), pa, pb);
    var a1, b1 := TransAll(body, CallState(a), Nothing), TransAll(body, CallState(b), Nothing);
    if a1.Ok? {
      TwinEndCall(a, b, a1.st.em, b1.st.em, pa, pb);
    }
  }

  lemma {:induction false} TwinArms(c: Operand, e: Expr, a: TState, b: TState, pa: seq<Instr>, pb: seq<Instr>)
    requires TwinStates(a, b, pa, pb) && Straight(pa) && Straight(pb) && e.CondScope?
    ensures TwinResults(TransArms(c, e, a), TransArms(c, e, b), pa, pb)
    decreases e, 0
  {
    hide Twins, Straight, TransAll, ThenState, ElseState, JoinArms;
    TwinThen(a, b, pa, pb);
    TwinAll(e.thenBody, Nothing, ThenState(a), ThenState(b), pa, pb);
    var a1, b1 := TransAll(e.thenBody, ThenState(a), Nothing), TransAll(e.thenBody, ThenState(b), Nothing);
    if a1.Ok? {
      TwinElse(a, b, a1.st.em, b1.st.em, pa, pb);
      TwinFallsThrough(a1.st.em, b1.st.em, pa, pb);
      TwinAll(e.elseBody, Nothing, ElseState(a, a1.st.em), ElseState(b, b1.st.em), pa, pb);
      var a2 := TransAll(e.elseBody, ElseState(a, a1.st.em), Nothing);
      var b2 := TransAll(e.elseBody, ElseState(b, b1.st.em), Nothing);
      if a2.Ok? {
        TwinFallsThrough(a2.st.em, b2.st.em, pa, pb);
        TwinJoin(c, a, b, a1.st.em.FallsThrough() || a2.st.em.FallsThrough(), a2.st.em, b2.st.em, pa, pb);
      }
    }
  }

  // -------------------------------------------------------------- functions

  /** Only an entry block without terminator, as both passes have it before the body. */
  ghost predicate Opening(em: Emit)
  {
    match em case Emit(blocks, cur, nextBlock, _) =>
      blocks.Keys == {0} && cur == 0 && nextBlock == 1 && Straight(blocks[0])
  }

  lemma OpeningAppend(em: Emit, i: Instr)
    requires Opening(em) && !IsTerminator(i)
    ensures Opening(em.Append(i)) && Opening(em.Define(i))
  {
  }

  lemma {:induction false} PrologueTwins(params: seq<Parameter>, args: seq<Argument>, k: nat, a: TState, b: TState)
    requires |params| == |args| && k <= |args|
    requires Opening(a.em) && Opening(b.em) && a.syms == b.syms && a.em.nextReg == b.em.nextReg
    ensures var a', b' := DeclareParams(params, args, k, false, a), DeclareParams(params, args, k, true, b);
      && Opening(a'.em) && Opening(b'.em) && a'.syms == b'.syms && a'.em.nextReg == b'.em.nextReg
    decreases |args| - k
  {
    if k < |args| {
      hide Opening;
      var r := a.em.nextReg;
      var i := Alloca(r, Scalar(args[k].ty), Ir.Argument(params[k].name));
      OpeningAppend(a.em, i);
      OpeningAppend(b.em, i);
      OpeningAppend(b.em.Define(i), Store(Param(k), Reg(r)));
      var syms := a.syms[params[k].name := Symbol(r, args[k].ty, args[k].isConst)];
      PrologueTwins(params, args, k + 1, TState(a.em.Define(i), syms),
                    TState(b.em.Define(i).Append(Store(Param(k), Reg(r))), syms));
    }
  }

  lemma OpeningTwins(a: TState, b: TState)
    requires Opening(a.em) && Opening(b.em) && a.syms == b.syms && a.em.nextReg == b.em.nextReg
    ensures TwinStates(a, b, a.em.blocks[0], b.em.blocks[0])
  {
  }

  lemma SelfOpening()
    ensures Opening(SelfCell(false).em) && Opening(SelfCell(true).em)
    ensures SelfCell(false).em.nextReg == SelfCell(true).em.nextReg == 1
  {
  }

  lemma TwinReturnTypes(a: Emit, b: Emit, pa: seq<Instr>, pb: seq<Instr>)
    requires Twins(a, b, pa, pb) && Straight(pa) && Straight(pb)
    ensures ReturnTypes(a.blocks) <= ReturnTypes(b.blocks)
  {
    forall t | t in ReturnTypes(a.blocks)
      ensures t in ReturnTypes(b.blocks)
    {
      var x, k :| x in a.blocks && 0 <= k < |a.blocks[x]| && a.blocks[x][k].RetVal? && a.blocks[x][k].ty == t;
      if x != 0 {
        assert b.blocks[x][k].RetVal? && b.blocks[x][k].ty == t;
      } else {
        assert k >= |pa|;
        assert a.blocks[0][k] == a.blocks[0][|pa|..][k - |pa|] == b.blocks[0][|pb|..][k - |pa|];
        var j := k - |pa| + |pb|;
        assert b.blocks[0][j].RetVal? && b.blocks[0][j].ty == t;
      }
    }
  }

  lemma TwinsSymmetric(a: Emit, b: Emit, pa: seq<Instr>, pb: seq<Instr>)
    requires Twins(a, b, pa, pb)
    ensures Twins(b, a, pb, pa)
  {
  }

  /** The discarded pass and the real one stop with the same error or both succeed, yield the
      same value and symbols, and return values of the same types. */
  lemma SurveyAgrees(lit: FunctionLit, args: seq<Argument>)
    requires |lit.params| == |args|
    ensures var survey := TransAll(lit.body, Prologue(lit.params, args, false), Nothing);
      var actual := TransAll(lit.body, Prologue(lit.params, args, true), Nothing);
      match survey
      case Err(e) => actual == Err(e)
      case Ok(st, v) =>
        && actual.Ok? && actual.v == v && actual.st.syms == st.syms
        && ReturnTypes(actual.st.em.blocks) == ReturnTypes(st.em.blocks)
  {
    var a, b := Prologue(lit.params, args, false), Prologue(lit.params, args, true);
    SelfOpening();
    PrologueTwins(lit.params, args, 0, SelfCell(false), SelfCell(true));
    OpeningTwins(a, b);
    var pa, pb := a.em.blocks[0], b.em.blocks[0];
    assert Straight(pa) && Straight(pb);
    hide Twins, Straight, TransAll, Opening, Prologue, ReturnTypes;
    TwinAll(lit.body, Nothing, a, b, pa, pb);
    var ra, rb := TransAll(lit.body, a, Nothing), TransAll(lit.body, b, Nothing);
    if ra.Ok? {
      TwinReturnTypes(ra.st.em, rb.st.em, pa, pb);
      TwinsSymmetric(ra.st.em, rb.st.em, pa, pb);
      TwinReturnTypes(rb.st.em, ra.st.em, pb, pa);
    }
  }

  /** A function is emitted exactly if the real pass succeeds and its returns agree with each other
      and with the declared type; then every value return has the function's type. */
  lemma EmittedReturns(lit: FunctionLit, args: seq<Argument>)
    requires |lit.params| == |args| && FirstMismatch(lit.params, args, 0).None?
    ensures var actual := TransAll(lit.body, Prologue(lit.params, args, true), Nothing);
      match Evaluate(lit, args)
      case Emitted(fn) =>
        && actual.Ok? && fn.params == Types(args)
        && ReturnTypes(fn.blocks) == (if fn.ret.VoidTy? then {} else {fn.ret.ty})
        && (lit.declared.Some? ==> lit.declared.value == fn.ret)
      case Rejected(e) =>
        match actual
        case Err(er) => e == er
        case Ok(st, _) =>
          if ReturnTypes(st.em.blocks) == {I1, I32} then e == MixedReturnTypes
          else e == ReturnType && lit.declared.Some?
  {
    SurveyAgrees(lit, args);
    hide TransAll, Prologue, FirstMismatch;
    var survey := TransAll(lit.body, Prologue(lit.params, args, false), Nothing);
    var actual := TransAll(lit.body, Prologue(lit.params, args, true), Nothing);
    if survey.Ok? {
      hide ReturnTypes;
      ScanCases(ReturnTypes(survey.st.em.blocks));
      FinishReturnTypes(actual.st.em);
    }
  }

  lemma ScanCases(types: set<Ty>)
    ensures match ScanOf(types)
            case NoReturn => types == {}
            case OneType(t) => types == {t}
            case Mixed => types == {I1, I32}
  {
    assert forall t :: t in types ==> t == I1 || t == I32;
    if I1 !in types && I32 !in types {
      assert types == {};
    } else if I1 !in types {
      assert types == {I32};
    } else if I32 !in types {
      assert types == {I1};
    } else {
      assert types == {I1, I32};
    }
  }

  lemma FinishReturnTypes(em: Emit)
    ensures ReturnTypes(em.Append(RetVoid).blocks) == ReturnTypes(em.blocks)
  {
    var em' := em.Append(RetVoid);
    forall t | t in ReturnTypes(em.blocks)
      ensures t in ReturnTypes(em'.blocks)
    {
      var b, k :| b in em.blocks && 0 <= k < |em.blocks[b]| && em.blocks[b][k].RetVal? && em.blocks[b][k].ty == t;
      assert em'.blocks[b][k].RetVal? && em'.blocks[b][k].ty == t;
    }
    forall t | t in ReturnTypes(em'.blocks)
      ensures t in ReturnTypes(em.blocks)
    {
      var b, k :| b in em'.blocks && 0 <= k < |em'.blocks[b]| && em'.blocks[b][k].RetVal? && em'.blocks[b][k].ty == t;
      assert b in em.blocks && k < |em.blocks[b]|;
      assert em.blocks[b][k].RetVal? && em.blocks[b][k].ty == t;
    }
  }
}
