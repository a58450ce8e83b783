/** What translation never does: it does not touch finished code, reuse a block or a register,
    or move a variable to another cell. */
module Growth {
  import opened Ast
  import opened Ir
  import opened Emitter
  import opened Translation

  ghost predicate ValidEmit(em: Emit)
  {
    match em case Emit(blocks, cur, nextBlock, _) =>
      cur in blocks && forall b | b in blocks :: b < nextBlock
  }

  ghost predicate Valid(st: TState)
  {
    match st case TState(em, syms) =>
      ValidEmit(em) && forall n | n in syms :: syms[n].cell < em.nextReg
  }

  /** Code of em survives in em': blocks other than the insertion block are unchanged, the
      insertion block is a prefix, new blocks have new names. */
  ghost predicate Grows(em: Emit, em': Emit)
  {
    match em case Emit(blocks, cur, nextBlock, nextReg) =>
      && nextBlock <= em'.nextBlock && nextReg <= em'.nextReg
      && (forall b | b in blocks :: b in em'.blocks)
      && (forall b | b in blocks && b != cur :: em'.blocks[b] == blocks[b])
      && BodyOf(blocks, cur) <= BodyOf(em'.blocks, cur)
      && (forall b | b in em'.blocks && b !in blocks :: nextBlock <= b)
      && (em'.cur == cur || nextBlock <= em'.cur)
  }

  /** Declared variables keep their cells and types. */
  ghost predicate Keeps(t: Table, t': Table)
  {
    forall n | n in t :: n in t' && t'[n].cell == t[n].cell && t'[n].ty == t[n].ty
  }

  ghost predicate ValueOk(v: TVal, em: Emit)
  {
    v.TVal? && v.opd.Reg? ==> v.opd.r < em.nextReg
  }

  ghost predicate Advances(st: TState, st': TState)
  {
    match st case TState(em, syms) =>
      Valid(st') && Grows(em, st'.em) && Keeps(syms, st'.syms)
  }

  lemma GrowsTransitive(a: Emit, b: Emit, c: Emit)
    requires ValidEmit(a) && ValidEmit(b)
    requires Grows(a, b) && Grows(b, c)
    ensures Grows(a, c)
  {
    forall x | x in a.blocks && x != a.cur
      ensures c.blocks[x] == a.blocks[x]
    {
      assert x != b.cur;
    }
    if a.cur != b.cur {
      assert c.blocks[a.cur] == b.blocks[a.cur];
    }
  }

  lemma AdvancesTransitive(a: TState, b: TState, c: TState)
    requires Valid(a) && Advances(a, b) && Advances(b, c)
    ensures Advances(a, c)
  {
    GrowsTransitive(a.em, b.em, c.em);
  }

  lemma AppendGrows(em: Emit, i: Instr)
    requires ValidEmit(em)
    ensures ValidEmit(em.Append(i)) && Grows(em, em.Append(i))
    ensures ValidEmit(em.Define(i)) && Grows(em, em.Define(i))
  {
  }

  lemma LoadVarAdvances(name: string, st: TState)
    requires Valid(st)
    ensures var r := LoadVar(name, st); r.Ok? ==>
      Advances(st, r.st) && ValueOk(r.v, r.st.em) && r.v.TVal? && name in st.syms && r.st.syms == st.syms
  {
  }

  lemma ApplyBinAdvances(op: Words.BinOp, x: TVal, y: TVal, st: TState)
    requires Valid(st)
    ensures var r := ApplyBin(op, x, y, st); r.Ok? ==> Advances(st, r.st) && ValueOk(r.v, r.st.em)
  {
  }

  ghost predicate PlaceFits(lhs: LVal, place: Place, st: TState)
  {
    match place
    case Fresh => lhs.LVar?
    case Known(s) => lhs.LVar? && lhs.name in st.syms && st.syms[lhs.name].cell == s.cell
      && st.syms[lhs.name].ty == s.ty
    case Pointed(p, _) => p.Reg? && p.r < st.em.nextReg
  }

  lemma ApplyAssignAdvances(lhs: LVal, place: Place, v: TVal, st: TState)
    requires Valid(st) && ValueOk(v, st.em) && PlaceFits(lhs, place, st)
    ensures var r := ApplyAssign(lhs, place, v, st); r.Ok? ==>
      && Valid(r.st) && Grows(st.em, r.st.em) && ValueOk(r.v, r.st.em)
      && (place.Fresh? || Keeps(st.syms, r.st.syms))
      && forall n | n in st.syms && !(lhs.LVar? && n == lhs.name) :: n in r.st.syms && r.st.syms[n] == st.syms[n]
  {
  }

  lemma ApplyCondAdvances(c: TVal, x: TVal, y: TVal, st: TState)
    requires Valid(st)
    ensures var r := ApplyCond(c, x, y, st); r.Ok? ==> Advances(st, r.st) && ValueOk(r.v, r.st.em)
  {
    if c.TVal? && x.TVal? && y.TVal? {
      SelectGrows(c.opd, x.opd, y.opd, Scalar(x.ty), st.em);
    }
  }

  lemma ChoosePlaceAdvances(c: TVal, a: string, b: string, st: TState)
    requires Valid(st) && a in st.syms && b in st.syms
    ensures var r := ChoosePlace(c, a, b, st); r.PlaceOk? ==>
      Advances(st, r.st) && r.place.Pointed? && r.place.p.Reg? && r.place.p.r < r.st.em.nextReg
  {
    if c.TVal? {
      SelectGrows(c.opd, Reg(st.syms[a].cell), Reg(st.syms[b].cell), Pointer(st.syms[a].ty), st.em);
    }
  }

  lemma ApplyCondPlaceAdvances(c: TVal, a: string, b: string, st: TState)
    requires Valid(st)
    ensures var r := ApplyCondPlace(c, a, b, st); r.PlaceOk? ==>
      Advances(st, r.st) && r.place.Pointed? && r.place.p.Reg? && r.place.p.r < r.st.em.nextReg
  {
    var r := ApplyCondPlace(c, a, b, st);
    if r.PlaceOk? {
      var s1 := LoadVar(a, st).st;
      LoadVarAdvances(a, st);
      var s2 := LoadVar(b, s1).st;
      LoadVarAdvances(b, s1);
      AdvancesTransitive(st, s1, s2);
      ChoosePlaceAdvances(c, a, b, s2);
      AdvancesTransitive(st, s2, r.st);
    }
  }

  /** Code was only added in new blocks. */
  ghost predicate Beside(em: Emit, em': Emit)
  {
    match em case Emit(blocks, _, nextBlock, nextReg) =>
      && nextBlock <= em'.nextBlock && nextReg <= em'.nextReg
      && (forall b | b in blocks :: b in em'.blocks && em'.blocks[b] == blocks[b])
      && (forall b | b in em'.blocks && b !in blocks :: nextBlock <= b < em'.nextBlock)
  }

  /** A body translated in a new block adds code beside the old blocks. */
  lemma BodyBeside(em: Emit, e0: Emit, e1: Emit)
    requires ValidEmit(em) && Beside(em, e0) && em.nextBlock <= e0.cur
    requires ValidEmit(e0) && ValidEmit(e1) && Grows(e0, e1)
    ensures Beside(em, e1) && em.nextBlock <= e1.cur
  {
    forall b | b in em.blocks
      ensures b in e1.blocks && e1.blocks[b] == em.blocks[b]
    {
      assert b != e0.cur;
    }
  }

  lemma CloseBeside(em: Emit, e1: Emit, next: nat)
    requires ValidEmit(em) && Beside(em, e1) && em.nextBlock <= e1.cur && ValidEmit(e1)
    ensures Beside(em, CloseBody(e1, next)) && ValidEmit(CloseBody(e1, next))
    ensures CloseBody(e1, next).nextBlock == e1.nextBlock && CloseBody(e1, next).nextReg == e1.nextReg
    ensures CloseBody(e1, next).blocks.Keys == e1.blocks.Keys
  {
  }

  /** Going back to the insertion block and ending it. */
  lemma Resume(em: Emit, e: Emit, i: Instr)
    requires ValidEmit(em) && Beside(em, e)
    ensures ValidEmit(e.At(em.cur).Append(i)) && Grows(em, e.At(em.cur).Append(i))
    ensures forall b | b in e.blocks && em.nextBlock <= b ::
              ValidEmit(e.At(em.cur).Append(i).At(b)) && Grows(em, e.At(em.cur).Append(i).At(b))
  {
    var e' := e.At(em.cur).Append(i);
    assert forall b | b in e'.blocks :: b < e'.nextBlock by {
      forall b | b in e'.blocks
        ensures b < e'.nextBlock
      {
        if b in em.blocks {
          assert b < em.nextBlock;
        } else {
          assert b in e.blocks;
        }
      }
    }
  }

  /** The arms of a choice are new blocks beside the temporary's allocation. */
  lemma SelectBeside(x: Operand, y: Operand, cty: CellTy, em: Emit)
    requires ValidEmit(em)
    ensures var e := em.Define(Alloca(em.nextReg, cty, Temporary));
      && ValidEmit(e) && Beside(e, SelectArms(x, y, cty, em))
      && SelectArms(x, y, cty, em).nextReg == em.nextReg + 1
      && em.nextBlock + 2 in SelectArms(x, y, cty, em).blocks
  {
  }

  /** Going back to the insertion block, ending it, and starting the block after. */
  lemma ResumeInto(em: Emit, e: Emit, i: Instr, next: nat, j: Instr)
    requires ValidEmit(em) && Beside(em, e) && next in e.blocks && em.nextBlock <= next
    ensures var e' := e.At(em.cur).Append(i).At(next).Define(j); ValidEmit(e') && Grows(em, e')
  {
    Resume(em, e, i);
    var e' := e.At(em.cur).Append(i).At(next);
    hide Beside, Grows, ValidEmit;
    AppendGrows(e', j);
    GrowsTransitive(em, e', e'.Define(j));
  }

  lemma SelectGrows(c: Operand, x: Operand, y: Operand, cty: CellTy, em: Emit)
    requires ValidEmit(em)
    ensures ValidEmit(Select(c, x, y, cty, em)) && Grows(em, Select(c, x, y, cty, em))
    ensures Select(c, x, y, cty, em).nextReg == em.nextReg + 2
  {
    var d, tb := em.nextReg, em.nextBlock;
    var e := em.Define(Alloca(d, cty, Temporary));
    AppendGrows(em, Alloca(d, cty, Temporary));
    SelectBeside(x, y, cty, em);
    SelectNextReg(c, x, y, cty, em);
    SelectFrom(c, x, y, cty, em);
    hide Grows, Beside, ValidEmit, SelectArms, Select, Emit.Define, Emit.Append;
    ResumeInto(e, SelectArms(x, y, cty, em), CondBr(c, tb, tb + 1), tb + 2, Load(d + 1, Reg(d)));
    GrowsTransitive(em, e, Select(c, x, y, cty, em));
  }

  lemma SelectFrom(c: Operand, x: Operand, y: Operand, cty: CellTy, em: Emit)
    ensures var d, tb := em.nextReg, em.nextBlock;
      var e := em.Define(Alloca(d, cty, Temporary));
      && e.nextBlock == tb
      && Select(c, x, y, cty, em) ==
           SelectArms(x, y, cty, em).At(e.cur).Append(CondBr(c, tb, tb + 1)).At(tb + 2).Define(Load(d + 1, Reg(d)))
  {
    hide SelectArms;
  }

  lemma SelectNextReg(c: Operand, x: Operand, y: Operand, cty: CellTy, em: Emit)
    ensures Select(c, x, y, cty, em).nextReg == em.nextReg + 2
  {
  }

  lemma ThenBeside(st: TState)
    requires Valid(st)
    ensures Valid(ThenState(st)) && Beside(st.em, ThenState(st).em)
  {
  }

  lemma CallBeside(st: TState)
    requires Valid(st)
    ensures Valid(CallState(st)) && Beside(st.em, CallState(st).em)
  {
  }

  /** The first arm was translated: the state for the second one. */
  lemma ElseBeside(st: TState, em1: Emit)
    requires Valid(st) && ValidEmit(em1) && Grows(ThenState(st).em, em1)
    ensures var s := ElseState(st, em1);
      && Valid(s) && Beside(st.em, s.em) && st.em.nextBlock + 1 == s.em.cur
      && s.em.nextBlock == em1.nextBlock
      && {st.em.nextBlock, st.em.nextBlock + 1, st.em.nextBlock + 2} <= s.em.blocks.Keys
  {
    ThenBeside(st);
    BodyBeside(st.em, ThenState(st).em, em1);
    CloseBeside(st.em, em1, st.em.nextBlock + 2);
    assert st.em.nextBlock + 1 in em1.blocks;
  }

  /** The second arm was translated. */
  lemma ArmsBeside(st: TState, em1: Emit, em2: Emit)
    requires Valid(st) && ValidEmit(em1) && Grows(ThenState(st).em, em1)
    requires ValidEmit(em2) && Grows(ElseState(st, em1).em, em2)
    ensures Beside(st.em, em2) && st.em.nextBlock <= em2.cur && st.em.nextBlock + 2 in em2.blocks
  {
    ElseBeside(st, em1);
    BodyBeside(st.em, ElseState(st, em1).em, em2);
  }

  lemma ResumeAdvances(st: TState, e: Emit, i: Instr, next: nat)
    requires Valid(st) && Beside(st.em, e)
    ensures Advances(st, TState(e.At(st.em.cur).Append(i), st.syms))
    ensures next in e.blocks && st.em.nextBlock <= next ==>
      Advances(st, TState(e.At(st.em.cur).Append(i).At(next), st.syms))
  {
    Resume(st.em, e, i);
  }

  lemma JoinAdvances(c: Operand, st: TState, keep: bool, em2: Emit)
    requires Valid(st) && ValidEmit(em2) && Beside(st.em, em2)
    requires st.em.nextBlock <= em2.cur && st.em.nextBlock + 2 in em2.blocks
    ensures Advances(st, JoinArms(c, st, keep, em2))
  {
    if keep {
      JoinKept(c, st, em2);
    } else {
      JoinErased(c, st, em2);
    }
  }

  lemma JoinKept(c: Operand, st: TState, em2: Emit)
    requires Valid(st) && ValidEmit(em2) && Beside(st.em, em2)
    requires st.em.nextBlock <= em2.cur && st.em.nextBlock + 2 in em2.blocks
    ensures Advances(st, JoinArms(c, st, true, em2))
  {
    var mb := st.em.nextBlock + 2;
    CloseBeside(st.em, em2, mb);
    ResumeAdvances(st, CloseBody(em2, mb), CondBr(c, st.em.nextBlock, st.em.nextBlock + 1), mb);
  }

  lemma JoinErased(c: Operand, st: TState, em2: Emit)
    requires Valid(st) && ValidEmit(em2) && Beside(st.em, em2)
    requires st.em.nextBlock <= em2.cur
    ensures Advances(st, JoinArms(c, st, false, em2))
  {
    var mb := st.em.nextBlock + 2;
    CloseBeside(st.em, em2, mb);
    EraseBeside(st.em, CloseBody(em2, mb), mb);
    ResumeAdvances(st, CloseBody(em2, mb).Erase(mb), CondBr(c, st.em.nextBlock, st.em.nextBlock + 1), mb);
  }

  lemma EraseBeside(em: Emit, e: Emit, b: nat)
    requires ValidEmit(em) && Beside(em, e) && em.nextBlock <= b
    ensures Beside(em, e.Erase(b))
  {
  }

  lemma CallBodyBeside(st: TState, em1: Emit)
    requires Valid(st) && ValidEmit(em1) && Grows(CallState(st).em, em1)
    ensures Beside(st.em, em1) && st.em.nextBlock <= em1.cur && st.em.nextBlock in em1.blocks
  {
    CallBeside(st);
    BodyBeside(st.em, CallState(st).em, em1);
  }

  lemma EndCallAdvances(st: TState, em1: Emit)
    requires Valid(st) && ValidEmit(em1) && Beside(st.em, em1)
    requires st.em.nextBlock <= em1.cur && st.em.nextBlock in em1.blocks
    ensures Advances(st, EndCall(st, em1)) && EndCall(st, em1).em.nextReg == em1.nextReg
  {
    var nb, i := st.em.nextBlock, Br(st.em.nextBlock + 1);
    if em1.FallsThrough() {
      CloseBeside(st.em, em1, nb);
      Resume(st.em, CloseBody(em1, nb), i);
    } else {
      EraseBeside(st.em, em1, nb);
      Resume(st.em, em1.Erase(nb), i);
    }
  }

  lemma {:induction false} TransAdvances(e: Expr, st: TState)
    requires Valid(st) && Trans(e, st).Ok?
    ensures Advances(st, Trans(e, st).st) && ValueOk(Trans(e, st).v, Trans(e, st).st.em)
    decreases e, 1
  {
    var r := Trans(e, st);
    match e
    case IntLit(_) =>
    case BoolLit(_) =>
    case Var(name) => LoadVarAdvances(name, st);
    case Bin(op, l, rt) =>
      var r1 := Trans(l, st);
      TransAdvances(l, st);
      var r2 := Trans(rt, r1.st);
      TransAdvances(rt, r1.st);
      AdvancesTransitive(st, r1.st, r2.st);
      ApplyBinAdvances(op, r1.v, r2.v, r2.st);
      AdvancesTransitive(st, r2.st, r.st);
    case Assign(lhs, rhs) => AssignAdvances(lhs, rhs, st);
    case Cond(c, x, y) =>
      var r1 := Trans(c, st);
      TransAdvances(c, st);
      var r2 := Trans(x, r1.st);
      TransAdvances(x, r1.st);
      AdvancesTransitive(st, r1.st, r2.st);
      var r3 := Trans(y, r2.st);
      TransAdvances(y, r2.st);
      AdvancesTransitive(st, r2.st, r3.st);
      ApplyCondAdvances(r1.v, r2.v, r3.v, r3.st);
      AdvancesTransitive(st, r3.st, r.st);
    case CondScope(c, _, _) =>
      var r1 := Trans(c, st);
      TransAdvances(c, st);
      ArmsAdvance(r1.v.opd, e, r1.st);
      AdvancesTransitive(st, r1.st, r.st);
    case ScopeCall(body) => CallAdvances(body, st);
    case Ret(e1) =>
      var r1 := Trans(e1, st);
      TransAdvances(e1, st);
      AppendGrows(r1.st.em, RetVal(r1.v.ty, r1.v.opd));
      AdvancesTransitive(st, r1.st, r.st);
  }

  lemma {:induction false} PlaceAdvances(lhs: LVal, st: TState)
    requires Valid(st) && TransPlace(lhs, st).PlaceOk?
    ensures Advances(st, TransPlace(lhs, st).st)
    ensures PlaceFits(lhs, TransPlace(lhs, st).place, TransPlace(lhs, st).st)
    ensures TransPlace(lhs, st).place.Fresh? ==> lhs.LVar? && lhs.name !in st.syms
    ensures lhs.LVar? ==> TransPlace(lhs, st).st == st
    decreases lhs, 1
  {
    if lhs.LCond? {
      var rc := Trans(lhs.cond, st);
      TransAdvances(lhs.cond, st);
      ApplyCondPlaceAdvances(rc.v, lhs.a, lhs.b, rc.st);
      AdvancesTransitive(st, rc.st, TransPlace(lhs, st).st);
    }
  }

  lemma {:induction false} AssignAdvances(lhs: LVal, rhs: Expr, st: TState)
    requires Valid(st) && Trans(Assign(lhs, rhs), st).Ok?
    ensures Advances(st, Trans(Assign(lhs, rhs), st).st)
    ensures ValueOk(Trans(Assign(lhs, rhs), st).v, Trans(Assign(lhs, rhs), st).st.em)
    decreases Assign(lhs, rhs), 0
  {
    var r := Trans(Assign(lhs, rhs), st);
    var rp := TransPlace(lhs, st);
    PlaceAdvances(lhs, st);
    var rv := Trans(rhs, rp.st);
    TransAdvances(rhs, rp.st);
    AdvancesTransitive(st, rp.st, rv.st);
    ApplyAssignAdvances(lhs, rp.place, rv.v, rv.st);
    GrowsTransitive(st.em, rv.st.em, r.st.em);
  }

  lemma {:induction false} AllAdvances(es: seq<Expr>, st: TState, last: TVal)
    requires Valid(st) && ValueOk(last, st.em) && TransAll(es, st, last).Ok?
    ensures var r := TransAll(es, st, last); Advances(st, r.st) && ValueOk(r.v, r.st.em)
    decreases es, 0
  {
    if es != [] {
      var r := Trans(es[0], st);
      TransAdvances(es[0], st);
      AllAdvances(es[1..], r.st, r.v);
      AdvancesTransitive(st, r.st, TransAll(es, st, last).st);
    }
  }

  lemma {:induction false} CallAdvances(body: seq<Expr>, st: TState)
    requires Valid(st) && TransCall(body, st).Ok?
    ensures var r := TransCall(body, st); Advances(st, r.st) && ValueOk(r.v, r.st.em) && r.st.syms == st.syms
    decreases body, 1
  {
    CallBeside(st);
    AllAdvances(body, CallState(st), Nothing);
    CallBodyBeside(st, TransAll(body, CallState(st), Nothing).st.em);
    EndCallAdvances(st, TransAll(body, CallState(st), Nothing).st.em);
  }

  lemma {:induction false} ArmsAdvance(c: Operand, e: Expr, st: TState)
    requires Valid(st) && e.CondScope? && TransArms(c, e, st).Ok?
    ensures var r := TransArms(c, e, st); Advances(st, r.st) && ValueOk(r.v, r.st.em) && r.st.syms == st.syms
    decreases e, 0
  {
    ThenBeside(st);
    AllAdvances(e.thenBody, ThenState(st), Nothing);
    var em1 := TransAll(e.thenBody, ThenState(st), Nothing).st.em;
    ElseBeside(st, em1);
    AllAdvances(e.elseBody, ElseState(st, em1), Nothing);
    var em2 := TransAll(e.elseBody, ElseState(st, em1), Nothing).st.em;
    ArmsBeside(st, em1, em2);
    JoinAdvances(c, st, em1.FallsThrough() || em2.FallsThrough(), em2);
  }
}
