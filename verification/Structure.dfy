/** The shape of emitted code: every translation lays out instructions, two-armed branches and
    called bodies, nothing else. Facts about the control flow graph are proved on this shape. */
module Structure {
  import opened Words
  import opened Ast
  import opened Ir
  import opened Emitter
  import opened Translation

  datatype Code =
    | Skip
    | Instr(i: Ir.Instr)
    | Seq(a: Code, b: Code)
    | Arms(c: Operand, thn: Code, els: Code)
    | Call(body: Code)

  /** Lay out code from the insertion point on. */
  function Lay(code: Code, em: Emit): Emit
  {
    match code
    case Skip => em
    case Instr(i) => if Defs(i) == {} then em.Append(i) else em.Define(i)
    case Seq(a, b) => Lay(b, Lay(a, em))
    case Arms(c, a, b) =>
      var st := TState(em, map[]);
      var e1 := Lay(a, ThenState(st).em);
      var e2 := Lay(b, ElseState(st, e1).em);
      JoinArms(c, st, e1.FallsThrough() || e2.FallsThrough(), e2).em
    case Call(a) =>
      var st := TState(em, map[]);
      EndCall(st, Lay(a, CallState(st).em)).em
  }

  // ----------------------------------------------------- code of an operator

  function BinCode(op: BinOp, x: Operand, y: Operand, r: nat): Code
  {
    if IsLogic(op) then
      Seq(Seq(Instr(Cmp(r, PNe, x, Const(I1, 0))), Instr(Cmp(r + 1, PNe, y, Const(I1, 0)))),
          Instr(Ir.Arith(r + 2, if op == LAnd then OAnd else OOr, Reg(r), Reg(r + 1))))
    else if IsArith(op) then Instr(Ir.Arith(r, OpcodeOf(op), x, y))
    else Instr(Cmp(r, PredOf(op), x, y))
  }

  function SelectCode(c: Operand, x: Operand, y: Operand, cty: CellTy, d: nat): Code
  {
    Seq(Seq(Instr(Alloca(d, cty, Temporary)), Arms(c, Instr(Store(x, Reg(d))), Instr(Store(y, Reg(d))))),
        Instr(Load(d + 1, Reg(d))))
  }

  function DeclareCode(tag: Tag, ty: Ty, o: Operand, r: nat): Code
  {
    Seq(Instr(Alloca(r, Scalar(ty), tag)), Instr(Store(o, Reg(r))))
  }

  function AssignCode(lhs: LVal, place: Place, v: TVal, r: nat): Code
    requires v.TVal? && (place.Fresh? ==> lhs.LVar?)
  {
    match place
    case Fresh => DeclareCode(Variable(lhs.name, lhs.mut), v.ty, v.opd, r)
    case Known(s) => Instr(Store(v.opd, Reg(s.cell)))
    case Pointed(p, _) => Instr(Store(v.opd, p))
  }

  function CondPlaceCode(c: TVal, a: string, b: string, st: TState): Code
    requires ApplyCondPlace(c, a, b, st).PlaceOk?
  {
    var r := st.em.nextReg;
    var x, y := st.syms[a], st.syms[b];
    Seq(Seq(Instr(Load(r, Reg(x.cell))), Instr(Load(r + 1, Reg(y.cell)))),
        SelectCode(c.opd, Reg(x.cell), Reg(y.cell), Pointer(x.ty), r + 2))
  }

  // --------------------------------------------------- code of an expression

  function CodeOf(e: Expr, st: TState): Code
    requires Trans(e, st).Ok?
    decreases e, 1
  {
    match e
    case IntLit(_) => Skip
    case BoolLit(_) => Skip
    case Var(name) => Instr(Load(st.em.nextReg, Reg(st.syms[name].cell)))
    case Bin(op, l, r) =>
      var rl := Trans(l, st);
      var rr := Trans(r, rl.st);
      Seq(Seq(CodeOf(l, st), CodeOf(r, rl.st)), BinCode(op, rl.v.opd, rr.v.opd, rr.st.em.nextReg))
    case Assign(lhs, rhs) =>
      var rp := TransPlace(lhs, st);
      var rv := Trans(rhs, rp.st);
      Seq(Seq(PlaceCode(lhs, st), CodeOf(rhs, rp.st)), AssignCode(lhs, rp.place, rv.v, rv.st.em.nextReg))
    case Cond(c, x, y) =>
      var rc := Trans(c, st);
      var rx := Trans(x, rc.st);
      var ry := Trans(y, rx.st);
      Seq(Seq(Seq(CodeOf(c, st), CodeOf(x, rc.st)), CodeOf(y, rx.st)),
          SelectCode(rc.v.opd, rx.v.opd, ry.v.opd, Scalar(rx.v.ty), ry.st.em.nextReg))
    case CondScope(c, _, _) =>
      var rc := Trans(c, st);
      Seq(CodeOf(c, st), ArmsCode(rc.v.opd, e, rc.st))
    case ScopeCall(body) =>
      assert TransCall(body, st).Ok?;
      Call(CodeOfAll(body, CallState(st), Nothing))
    case Ret(e1) =>
      var r := Trans(e1, st);
      Seq(CodeOf(e1, st), Instr(RetVal(r.v.ty, r.v.opd)))
  }

  function ArmsCode(c: Operand, e: Expr, st: TState): Code
    requires e.CondScope? && TransArms(c, e, st).Ok?
    decreases e, 0
  {
    var r1 := TransAll(e.thenBody, ThenState(st), Nothing);
    Arms(c, CodeOfAll(e.thenBody, ThenState(st), Nothing), CodeOfAll(e.elseBody, ElseState(st, r1.st.em), Nothing))
  }

  function PlaceCode(lhs: LVal, st: TState): Code
    requires TransPlace(lhs, st).PlaceOk?
    decreases lhs, 1
  {
    match lhs
    case LVar(_, _) => Skip
    case LCond(c, a, b) =>
      var rc := Trans(c, st);
      Seq(CodeOf(c, st), CondPlaceCode(rc.v, a, b, rc.st))
  }

  function CodeOfAll(es: seq<Expr>, st: TState, last: TVal): Code
    requires TransAll(es, st, last).Ok?
    decreases es, 0
  {
    if es == [] then Skip
    else
      var r := Trans(es[0], st);
      Seq(CodeOf(es[0], st), CodeOfAll(es[1..], r.st, r.v))
  }

  // -------------------------------------------------- translation is layout

  /** An arm of a choice: an empty block gets a store and falls through. */
  lemma ClosedArm(e: Emit, bb: nat, x: Operand, d: nat, mb: nat)
    requires BodyOf(e.blocks, bb) == []
    ensures e.At(bb).Append(Store(x, Reg(d))).FallsThrough()
    ensures CloseBody(e.At(bb).Append(Store(x, Reg(d))), mb) == Filled(e, bb, x, d, mb)
    ensures forall b | b != bb :: BodyOf(Filled(e, bb, x, d, mb).blocks, b) == BodyOf(e.blocks, b)
  {
    var em := e.At(bb).Append(Store(x, Reg(d)));
    assert em.Here() == [Store(x, Reg(d))];
  }

  lemma ThreeEmpty(em: Emit)
    ensures var e := em.CreateBlock().CreateBlock().CreateBlock();
      BodyOf(e.blocks, em.nextBlock) == [] && BodyOf(e.blocks, em.nextBlock + 1) == []
  {
  }

  lemma LayStore(x: Operand, p: Operand, em: Emit)
    ensures Lay(Instr(Store(x, p)), em) == em.Append(Store(x, p))
  {
  }

  lemma LayChoice(c: Operand, x: Operand, y: Operand, d: nat, em: Emit)
    ensures var tb := em.nextBlock;
      var e := em.CreateBlock().CreateBlock().CreateBlock();
      Lay(Arms(c, Instr(Store(x, Reg(d))), Instr(Store(y, Reg(d)))), em) ==
        Filled(Filled(e, tb, x, d, tb + 2), tb + 1, y, d, tb + 2).At(em.cur).Append(CondBr(c, tb, tb + 1)).At(tb + 2)
  {
    hide Lay, CloseBody, Filled, Emit.Append, Emit.CreateBlock, Emit.At, Emit.FallsThrough, JoinArms, ThenState,
         ElseState, Defs, HasTerminator, BodyOf;
    var tb := em.nextBlock;
    var e := em.CreateBlock().CreateBlock().CreateBlock();
    var st := TState(em, map[]);
    ThreeEmpty(em);
    ClosedArm(e, tb, x, d, tb + 2);
    var f := Filled(e, tb, x, d, tb + 2);
    ClosedArm(f, tb + 1, y, d, tb + 2);
    LayStore(x, Reg(d), e.At(tb));
    LayStore(y, Reg(d), f.At(tb + 1));
    LayArms(c, Instr(Store(x, Reg(d))), Instr(Store(y, Reg(d))), em);
    ArmStates(st, e.At(tb).Append(Store(x, Reg(d))));
    JoinKeeps(c, st, f.At(tb + 1).Append(Store(y, Reg(d))));
  }

  lemma ArmStates(st: TState, e1: Emit)
    ensures ThenState(st).em == st.em.CreateBlock().CreateBlock().CreateBlock().At(st.em.nextBlock)
    ensures ElseState(st, e1).em == CloseBody(e1, st.em.nextBlock + 2).At(st.em.nextBlock + 1)
  {
  }

  lemma JoinKeeps(c: Operand, st: TState, e2: Emit)
    ensures var tb := st.em.nextBlock;
      JoinArms(c, st, true, e2).em == CloseBody(e2, tb + 2).At(st.em.cur).Append(CondBr(c, tb, tb + 1)).At(tb + 2)
  {
  }

  lemma LayInstr(i: Ir.Instr, em: Emit)
    ensures Lay(Instr(i), em) == if Defs(i) == {} then em.Append(i) else em.Define(i)
  {
  }

  lemma LaySeq(a: Code, b: Code, em: Emit)
    ensures Lay(Seq(a, b), em) == Lay(b, Lay(a, em))
  {
  }

  lemma LayArms(c: Operand, a: Code, b: Code, em: Emit)
    ensures var st := TState(em, map[]);
      var e1 := Lay(a, ThenState(st).em);
      var e2 := Lay(b, ElseState(st, e1).em);
      Lay(Arms(c, a, b), em) == JoinArms(c, st, e1.FallsThrough() || e2.FallsThrough(), e2).em
  {
    hide JoinArms, ThenState, ElseState, Emit.FallsThrough;
  }

  lemma LayDefine(i: Ir.Instr, em: Emit)
    requires i.Alloca? || i.Load?
    ensures Lay(Instr(i), em) == em.Define(i)
  {
    assert i.dst in Defs(i);
  }

  lemma LaySelect(c: Operand, x: Operand, y: Operand, cty: CellTy, em: Emit)
    ensures Lay(SelectCode(c, x, y, cty, em.nextReg), em) == Select(c, x, y, cty, em)
  {
    hide Lay, Filled, Emit.Append, Emit.Define, Emit.CreateBlock, Emit.At, Select, Defs, SelectArms;
    var d, tb := em.nextReg, em.nextBlock;
    var i, j := Alloca(d, cty, Temporary), Load(d + 1, Reg(d));
    var arms := Arms(c, Instr(Store(x, Reg(d))), Instr(Store(y, Reg(d))));
    LayChoice(c, x, y, d, em.Define(i));
    LayDefine(i, em);
    LayDefine(j, Lay(arms, em.Define(i)));
    LaySeq(Instr(i), arms, em);
    LaySeq(Seq(Instr(i), arms), Instr(j), em);
    DefineKeeps(em, i);
    SelectIs(c, x, y, cty, em);
  }

  lemma DefineKeeps(em: Emit, i: Ir.Instr)
    ensures em.Define(i).cur == em.cur && em.Define(i).nextBlock == em.nextBlock
  {
  }

  lemma SelectIs(c: Operand, x: Operand, y: Operand, cty: CellTy, em: Emit)
    ensures var d, tb := em.nextReg, em.nextBlock;
      var e := em.Define(Alloca(d, cty, Temporary)).CreateBlock().CreateBlock().CreateBlock();
      Select(c, x, y, cty, em) ==
        Filled(Filled(e, tb, x, d, tb + 2), tb + 1, y, d, tb + 2)
          .At(em.cur).Append(CondBr(c, tb, tb + 1)).At(tb + 2).Define(Load(d + 1, Reg(d)))
  {
    hide Filled, Emit.Append, Emit.CreateBlock;
    DefineKeeps(em, Alloca(em.nextReg, cty, Temporary));
  }

  lemma LayBin(op: BinOp, x: TVal, y: TVal, st: TState)
    requires ApplyBin(op, x, y, st).Ok?
    ensures Lay(BinCode(op, x.opd, y.opd, st.em.nextReg), st.em) == ApplyBin(op, x, y, st).st.em
  {
    var r := st.em.nextReg;
    if IsLogic(op) {
      var i1, i2 := Cmp(r, PNe, x.opd, Const(I1, 0)), Cmp(r + 1, PNe, y.opd, Const(I1, 0));
      var i3 := Ir.Arith(r + 2, if op == LAnd then OAnd else OOr, Reg(r), Reg(r + 1));
      hide Lay, Emit.Append;
      LayInstr(i1, st.em);
      LayInstr(i2, st.em.Define(i1));
      LayInstr(i3, st.em.Define(i1).Define(i2));
      LaySeq(Instr(i1), Instr(i2), st.em);
      LaySeq(Seq(Instr(i1), Instr(i2)), Instr(i3), st.em);
      assert r in Defs(i1) && r + 1 in Defs(i2) && r + 2 in Defs(i3);
    } else if IsArith(op) {
      var i := Ir.Arith(r, OpcodeOf(op), x.opd, y.opd);
      LayInstr(i, st.em);
      assert r in Defs(i);
    } else {
      var i := Cmp(r, PredOf(op), x.opd, y.opd);
      LayInstr(i, st.em);
      assert r in Defs(i);
    }
  }

  lemma LayDeclare(name: string, tag: Tag, isConst: bool, ty: Ty, o: Operand, st: TState)
    ensures Lay(DeclareCode(tag, ty, o, st.em.nextReg), st.em) == Declared(name, tag, isConst, ty, o, st).em
  {
    var r := st.em.nextReg;
    var i, j := Alloca(r, Scalar(ty), tag), Store(o, Reg(r));
    hide Lay, Emit.Append;
    LayInstr(i, st.em);
    LayInstr(j, st.em.Define(i));
    LaySeq(Instr(i), Instr(j), st.em);
    assert r in Defs(i);
  }

  lemma LayAssign(lhs: LVal, place: Place, v: TVal, st: TState)
    requires ApplyAssign(lhs, place, v, st).Ok?
    ensures Lay(AssignCode(lhs, place, v, st.em.nextReg), st.em) == ApplyAssign(lhs, place, v, st).st.em
  {
    match place
    case Fresh => LayDeclare(lhs.name, Variable(lhs.name, lhs.mut), !lhs.mut, v.ty, v.opd, st);
    case Known(s) => LayInstr(Store(v.opd, Reg(s.cell)), st.em);
    case Pointed(p, _) => LayInstr(Store(v.opd, p), st.em);
  }

  lemma CondPlaceIs(c: TVal, a: string, b: string, st: TState)
    requires ApplyCondPlace(c, a, b, st).PlaceOk?
    ensures a in st.syms && b in st.syms && c.TVal?
    ensures var r := st.em.nextReg;
      var x, y := st.syms[a], st.syms[b];
      var i, j := Load(r, Reg(x.cell)), Load(r + 1, Reg(y.cell));
      var e2 := st.em.Define(i).Define(j);
      && e2.nextReg == r + 2
      && ApplyCondPlace(c, a, b, st).st.em == Select(c.opd, Reg(x.cell), Reg(y.cell), Pointer(x.ty), e2)
      && CondPlaceCode(c, a, b, st) ==
           Seq(Seq(Instr(i), Instr(j)), SelectCode(c.opd, Reg(x.cell), Reg(y.cell), Pointer(x.ty), r + 2))
  {
    hide Select, SelectCode, Emit.Append;
  }

  lemma LayTwo(i: Ir.Instr, j: Ir.Instr, em: Emit)
    requires Defs(i) != {} && Defs(j) != {}
    ensures Lay(Seq(Instr(i), Instr(j)), em) == em.Define(i).Define(j)
  {
    hide Lay, Emit.Append;
    LayInstr(i, em);
    LayInstr(j, em.Define(i));
    LaySeq(Instr(i), Instr(j), em);
  }

  lemma LayCondPlace(c: TVal, a: string, b: string, st: TState)
    requires ApplyCondPlace(c, a, b, st).PlaceOk?
    ensures Lay(CondPlaceCode(c, a, b, st), st.em) == ApplyCondPlace(c, a, b, st).st.em
  {
    hide Lay, Select, ApplyCondPlace, CondPlaceCode, SelectCode, Emit.Define, Emit.Append;
    CondPlaceIs(c, a, b, st);
    var r := st.em.nextReg;
    var x, y := st.syms[a], st.syms[b];
    var i, j := Load(r, Reg(x.cell)), Load(r + 1, Reg(y.cell));
    var e2 := st.em.Define(i).Define(j);
    assert r in Defs(i) && r + 1 in Defs(j);
    LayTwo(i, j, st.em);
    LaySelect(c.opd, Reg(x.cell), Reg(y.cell), Pointer(x.ty), e2);
    LaySeq(Seq(Instr(i), Instr(j)), SelectCode(c.opd, Reg(x.cell), Reg(y.cell), Pointer(x.ty), r + 2), st.em);
  }

  lemma LayCall(a: Code, em: Emit)
    ensures Lay(Call(a), em) == EndCall(TState(em, map[]), Lay(a, CallState(TState(em, map[])).em)).em
  {
    hide EndCall, CallState;
  }

  /** Only the code under construction matters for the layout, not the symbols. */
  lemma SameEmit(st: TState, e1: Emit, c: Operand, keep: bool)
    ensures var s := TState(st.em, map[]);
      && ThenState(s).em == ThenState(st).em && ElseState(s, e1).em == ElseState(st, e1).em
      && JoinArms(c, s, keep, e1).em == JoinArms(c, st, keep, e1).em
      && CallState(s).em == CallState(st).em && EndCall(s, e1).em == EndCall(st, e1).em
  {
    hide CloseBody, Emit.CreateBlock, Emit.Append, Emit.Erase, HasTerminator;
  }

  lemma {:induction false} LayTrans(e: Expr, st: TState)
    requires Trans(e, st).Ok?
    ensures Lay(CodeOf(e, st), st.em) == Trans(e, st).st.em
    decreases e, 2
  {
    match e
    case IntLit(_) =>
    case BoolLit(_) =>
    case Var(name) =>
      var i := Load(st.em.nextReg, Reg(st.syms[name].cell));
      LayInstr(i, st.em);
      assert st.em.nextReg in Defs(i);
    case Bin(op, l, r) => LayBinExpr(e, st);
    case Assign(_, _) => LayAssignExpr(e, st);
    case Cond(_, _, _) => LayCondExpr(e, st);
    case CondScope(c, _, _) => LayCondScope(e, st);
    case ScopeCall(body) => LayScopeCall(e, st);
    case Ret(e1) =>
      hide ApplyBin, ApplyAssign, ApplyCond, TransArms, TransCall, BinCode, AssignCode, SelectCode, ArmsCode, Lay,
           Emit.Append;
      var r := Trans(e1, st);
      LayTrans(e1, st);
      LayInstr(RetVal(r.v.ty, r.v.opd), r.st.em);
      LaySeq(CodeOf(e1, st), Instr(RetVal(r.v.ty, r.v.opd)), st.em);
  }

  lemma {:induction false} LayBinExpr(e: Expr, st: TState)
    requires e.Bin? && Trans(e, st).Ok?
    ensures Lay(CodeOf(e, st), st.em) == Trans(e, st).st.em
    decreases e, 0
  {
    hide ApplyBin, ApplyAssign, ApplyCond, TransArms, TransCall, BinCode, AssignCode, SelectCode, ArmsCode, Lay,
         Emit.Append;
    var r1 := Trans(e.l, st);
    var r2 := Trans(e.r, r1.st);
    assert Trans(e, st) == ApplyBin(e.op, r1.v, r2.v, r2.st);
    BinOperands(e.op, r1.v, r2.v, r2.st);
    var a, b, c := CodeOf(e.l, st), CodeOf(e.r, r1.st), BinCode(e.op, r1.v.opd, r2.v.opd, r2.st.em.nextReg);
    assert CodeOf(e, st) == Seq(Seq(a, b), c);
    LayTrans(e.l, st);
    LayTrans(e.r, r1.st);
    LayBin(e.op, r1.v, r2.v, r2.st);
    LaySeq(a, b, st.em);
    LaySeq(Seq(a, b), c, st.em);
  }

  lemma BinOperands(op: BinOp, x: TVal, y: TVal, st: TState)
    requires ApplyBin(op, x, y, st).Ok?
    ensures x.TVal? && y.TVal?
  {
  }

  lemma {:induction false} LayPlace(lhs: LVal, st: TState)
    requires TransPlace(lhs, st).PlaceOk?
    ensures Lay(PlaceCode(lhs, st), st.em) == TransPlace(lhs, st).st.em
    decreases lhs, 1
  {
    hide ApplyCondPlace, CondPlaceCode, Lay;
    match lhs
    case LVar(_, _) => LaySkip(st.em);
    case LCond(c, a, b) =>
      var rc := Trans(c, st);
      LayTrans(c, st);
      LayCondPlace(rc.v, a, b, rc.st);
      LaySeq(CodeOf(c, st), CondPlaceCode(rc.v, a, b, rc.st), st.em);
  }

  lemma LaySkip(em: Emit)
    ensures Lay(Skip, em) == em
  {
  }

  lemma AssignOperands(lhs: LVal, place: Place, v: TVal, st: TState)
    requires ApplyAssign(lhs, place, v, st).Ok?
    ensures v.TVal? && (place.Fresh? ==> lhs.LVar?)
  {
  }

  lemma {:induction false} LayAssignExpr(e: Expr, st: TState)
    requires e.Assign? && Trans(e, st).Ok?
    ensures Lay(CodeOf(e, st), st.em) == Trans(e, st).st.em
    decreases e, 0
  {
    hide ApplyBin, ApplyAssign, ApplyCond, TransArms, TransCall, TransPlace, BinCode, AssignCode, SelectCode,
         ArmsCode, Lay, Emit.Append;
    var rp := TransPlace(e.lhs, st);
    var rv := Trans(e.rhs, rp.st);
    assert Trans(e, st) == ApplyAssign(e.lhs, rp.place, rv.v, rv.st);
    AssignOperands(e.lhs, rp.place, rv.v, rv.st);
    var a, b, c := PlaceCode(e.lhs, st), CodeOf(e.rhs, rp.st), AssignCode(e.lhs, rp.place, rv.v, rv.st.em.nextReg);
    assert CodeOf(e, st) == Seq(Seq(a, b), c);
    LayPlace(e.lhs, st);
    LayTrans(e.rhs, rp.st);
    LayAssign(e.lhs, rp.place, rv.v, rv.st);
    LaySeq(a, b, st.em);
    LaySeq(Seq(a, b), c, st.em);
  }

  lemma CondOperands(c: TVal, x: TVal, y: TVal, st: TState)
    requires ApplyCond(c, x, y, st).Ok?
    ensures c.TVal? && x.TVal? && y.TVal?
    ensures ApplyCond(c, x, y, st).st.em == Select(c.opd, x.opd, y.opd, Scalar(x.ty), st.em)
  {
    hide Select;
  }

  lemma {:induction false} LayCondExpr(e: Expr, st: TState)
    requires e.Cond? && Trans(e, st).Ok?
    ensures Lay(CodeOf(e, st), st.em) == Trans(e, st).st.em
    decreases e, 0
  {
    hide ApplyBin, ApplyAssign, ApplyCond, TransArms, TransCall, BinCode, AssignCode, SelectCode, ArmsCode, Lay,
         Emit.Append, Select;
    var rc := Trans(e.cond, st);
    var rx := Trans(e.thn, rc.st);
    var ry := Trans(e.els, rx.st);
    assert Trans(e, st) == ApplyCond(rc.v, rx.v, ry.v, ry.st);
    CondOperands(rc.v, rx.v, ry.v, ry.st);
    var a, b, c := CodeOf(e.cond, st), CodeOf(e.thn, rc.st), CodeOf(e.els, rx.st);
    var d := SelectCode(rc.v.opd, rx.v.opd, ry.v.opd, Scalar(rx.v.ty), ry.st.em.nextReg);
    assert CodeOf(e, st) == Seq(Seq(Seq(a, b), c), d);
    LayTrans(e.cond, st);
    LayTrans(e.thn, rc.st);
    LayTrans(e.els, rx.st);
    LaySelect(rc.v.opd, rx.v.opd, ry.v.opd, Scalar(rx.v.ty), ry.st.em);
    LaySeq(a, b, st.em);
    LaySeq(Seq(a, b), c, st.em);
    LaySeq(Seq(Seq(a, b), c), d, st.em);
  }

  lemma {:induction false} LayAll(es: seq<Expr>, st: TState, last: TVal)
    requires TransAll(es, st, last).Ok?
    ensures Lay(CodeOfAll(es, st, last), st.em) == TransAll(es, st, last).st.em
    decreases es, 0
  {
    hide Trans, CodeOf, Lay;
    if es == [] {
      LaySkip(st.em);
    } else {
      var r := Trans(es[0], st);
      LayTrans(es[0], st);
      LayAll(es[1..], r.st, r.v);
      LaySeq(CodeOf(es[0], st), CodeOfAll(es[1..], r.st, r.v), st.em);
    }
  }

  lemma {:induction false} LayScopeCall(e: Expr, st: TState)
    requires e.ScopeCall? && Trans(e, st).Ok?
    ensures Lay(CodeOf(e, st), st.em) == Trans(e, st).st.em
    decreases e, 0
  {
    hide Lay, EndCall, CallState;
    assert TransCall(e.body, st).Ok?;
    var r := TransAll(e.body, CallState(st), Nothing);
    var a := CodeOfAll(e.body, CallState(st), Nothing);
    assert CodeOf(e, st) == Call(a) && Trans(e, st).st == EndCall(st, r.st.em);
    LayAll(e.body, CallState(st), Nothing);
    LayCall(a, st.em);
    SameEmit(st, r.st.em, ThisFunction, true);
  }

  lemma {:induction false} LayCondScope(e: Expr, st: TState)
    requires e.CondScope? && Trans(e, st).Ok?
    ensures Lay(CodeOf(e, st), st.em) == Trans(e, st).st.em
    decreases e, 1
  {
    hide ApplyBin, ApplyAssign, ApplyCond, TransArms, TransCall, BinCode, AssignCode, SelectCode, ArmsCode, Lay,
         Emit.Append;
    var rc := Trans(e.cond, st);
    LayTrans(e.cond, st);
    LayArmsCode(rc.v.opd, e, rc.st);
    LaySeq(CodeOf(e.cond, st), ArmsCode(rc.v.opd, e, rc.st), st.em);
  }

  lemma {:induction false} LayArmsCode(c: Operand, e: Expr, st: TState)
    requires e.CondScope? && TransArms(c, e, st).Ok?
    ensures Lay(ArmsCode(c, e, st), st.em) == TransArms(c, e, st).st.em
    decreases e, 0
  {
    hide Lay, JoinArms, ThenState, ElseState, HasTerminator;
    var r1 := TransAll(e.thenBody, ThenState(st), Nothing);
    var s1 := ElseState(st, r1.st.em);
    var r2 := TransAll(e.elseBody, s1, Nothing);
    var a, b := CodeOfAll(e.thenBody, ThenState(st), Nothing), CodeOfAll(e.elseBody, s1, Nothing);
    assert ArmsCode(c, e, st) == Arms(c, a, b);
    LayAll(e.thenBody, ThenState(st), Nothing);
    LayAll(e.elseBody, s1, Nothing);
    LayArms(c, a, b, st.em);
    SameEmit(st, r1.st.em, c, true);
    SameEmit(st, r2.st.em, c, r1.st.em.FallsThrough() || r2.st.em.FallsThrough());
  }
}
