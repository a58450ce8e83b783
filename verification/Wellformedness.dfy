/** Emitted functions as laid-out code, and exactly when they are well-formed. */
module Wellformedness {
  import opened Words
  import opened Ast
  import opened Ir
  import opened Emitter
  import opened Translation
  import opened Evaluation
  import opened Growth
  import opened Structure
  import opened Layout
  import opened Cfg
  import opened Graph
  import opened Positions
  import Survey

  // ------------------------------------------------ code of an expression

  /** No branches, registers in order, and value returns only if `ret`. */
  predicate Regular(code: Code, r: nat, ret: bool)
  {
    Branchless(code) && Numbered(code, r) && (Occurrences(code, ValueReturn) > 0) == ret
  }

  lemma RegularSeq(a: Code, b: Code, r: nat, x: bool, y: bool)
    requires Regular(a, r, x) && Regular(b, Next(a, r), y)
    ensures Regular(Seq(a, b), r, x || y)
    ensures Next(Seq(a, b), r) == Next(b, Next(a, r))
  {
  }

  lemma RegularInstr(i: Ir.Instr, r: nat)
    requires Targets(i) == {} && Defs(i) <= {r}
    ensures Regular(Instr(i), r, i.RetVal?) && Next(Instr(i), r) == if Defs(i) == {} then r else r + 1
  {
  }

  lemma RegularBin(op: BinOp, x: Operand, y: Operand, r: nat)
    ensures Regular(BinCode(op, x, y, r), r, false)
  {
    if IsLogic(op) {
      var i1, i2 := Cmp(r, PNe, x, Const(I1, 0)), Cmp(r + 1, PNe, y, Const(I1, 0));
      var i3 := Ir.Arith(r + 2, if op == LAnd then OAnd else OOr, Reg(r), Reg(r + 1));
      assert r in Defs(i1) && r + 1 in Defs(i2);
      RegularInstr(i1, r);
      RegularInstr(i2, r + 1);
      RegularInstr(i3, r + 2);
      hide Regular, Next;
      RegularSeq(Instr(i1), Instr(i2), r, false, false);
      RegularSeq(Seq(Instr(i1), Instr(i2)), Instr(i3), r, false, false);
    }
  }

  lemma RegularChoice(c: Operand, i: Ir.Instr, j: Ir.Instr, r: nat)
    requires i.Store? && j.Store?
    ensures Regular(Arms(c, Instr(i), Instr(j)), r, false) && Next(Arms(c, Instr(i), Instr(j)), r) == r
  {
  }

  lemma RegularSelect(c: Operand, x: Operand, y: Operand, cty: CellTy, d: nat)
    ensures Regular(SelectCode(c, x, y, cty, d), d, false)
  {
    var i, j := Alloca(d, cty, Temporary), Load(d + 1, Reg(d));
    var arms := Arms(c, Instr(Store(x, Reg(d))), Instr(Store(y, Reg(d))));
    assert d in Defs(i) && d + 1 in Defs(j);
    RegularInstr(i, d);
    RegularInstr(j, d + 1);
    RegularChoice(c, Store(x, Reg(d)), Store(y, Reg(d)), d + 1);
    hide Regular, Next;
    RegularSeq(Instr(i), arms, d, false, false);
    RegularSeq(Seq(Instr(i), arms), Instr(j), d, false, false);
  }

  lemma RegularDeclare(tag: Tag, ty: Ty, o: Operand, r: nat)
    ensures Regular(DeclareCode(tag, ty, o, r), r, false)
  {
    var i, j := Alloca(r, Scalar(ty), tag), Store(o, Reg(r));
    assert r in Defs(i);
    RegularInstr(i, r);
    RegularInstr(j, r + 1);
    hide Regular, Next;
    RegularSeq(Instr(i), Instr(j), r, false, false);
  }

  lemma RegularAssign(lhs: LVal, place: Place, v: TVal, r: nat)
    requires v.TVal? && (place.Fresh? ==> lhs.LVar?)
    ensures Regular(AssignCode(lhs, place, v, r), r, false)
  {
    match place
    case Fresh => RegularDeclare(Variable(lhs.name, lhs.mut), v.ty, v.opd, r);
    case Known(s) => RegularInstr(Store(v.opd, Reg(s.cell)), r);
    case Pointed(p, _) => RegularInstr(Store(v.opd, p), r);
  }

  lemma RegularCondPlace(c: TVal, a: string, b: string, st: TState)
    requires ApplyCondPlace(c, a, b, st).PlaceOk?
    ensures Regular(CondPlaceCode(c, a, b, st), st.em.nextReg, false)
  {
    hide Regular, Next, SelectCode, ApplyCondPlace, CondPlaceCode, Select;
    CondPlaceIs(c, a, b, st);
    var r := st.em.nextReg;
    var x, y := st.syms[a], st.syms[b];
    var i, j := Load(r, Reg(x.cell)), Load(r + 1, Reg(y.cell));
    assert r in Defs(i) && r + 1 in Defs(j);
    RegularInstr(i, r);
    RegularInstr(j, r + 1);
    RegularSelect(c.opd, Reg(x.cell), Reg(y.cell), Pointer(x.ty), r + 2);
    RegularSeq(Instr(i), Instr(j), r, false, false);
    RegularSeq(Seq(Instr(i), Instr(j)), SelectCode(c.opd, Reg(x.cell), Reg(y.cell), Pointer(x.ty), r + 2), r, false,
               false);
  }

  /** The register count of the translator is the one of the code. */
  lemma NextTrans(e: Expr, st: TState)
    requires Trans(e, st).Ok?
    ensures Next(CodeOf(e, st), st.em.nextReg) == Trans(e, st).st.em.nextReg
  {
    hide Lay, Next, CodeOf, Trans;
    LayTrans(e, st);
    LayNext(CodeOf(e, st), st.em);
  }

  lemma NextPlace(lhs: LVal, st: TState)
    requires TransPlace(lhs, st).PlaceOk?
    ensures Next(PlaceCode(lhs, st), st.em.nextReg) == TransPlace(lhs, st).st.em.nextReg
  {
    hide Lay, Next, PlaceCode, TransPlace;
    LayPlace(lhs, st);
    LayNext(PlaceCode(lhs, st), st.em);
  }

  lemma NextAll(es: seq<Expr>, st: TState, last: TVal)
    requires TransAll(es, st, last).Ok?
    ensures Next(CodeOfAll(es, st, last), st.em.nextReg) == TransAll(es, st, last).st.em.nextReg
  {
    hide Lay, Next, CodeOfAll, TransAll;
    LayAll(es, st, last);
    LayNext(CodeOfAll(es, st, last), st.em);
  }

  lemma {:induction false} RegularTrans(e: Expr, st: TState)
    requires Trans(e, st).Ok?
    ensures Regular(CodeOf(e, st), st.em.nextReg, !NoRet(e))
    decreases e, 2
  {
    hide ApplyBin, ApplyAssign, ApplyCond, BinCode, AssignCode, SelectCode, Next;
    match e
    case IntLit(_) =>
    case BoolLit(_) =>
    case Var(name) => RegularInstr(Load(st.em.nextReg, Reg(st.syms[name].cell)), st.em.nextReg);
    case Bin(op, l, r) => BinRegular(e, st);
    case Assign(lhs, rhs) => AssignRegular(e, st);
    case Cond(_, _, _) => CondRegular(e, st);
    case CondScope(c, _, _) => CondScopeRegular(e, st);
    case ScopeCall(body) =>
      assert TransCall(body, st).Ok?;
      AllRegular(body, CallState(st), Nothing);
    case Ret(e1) => RetRegular(e, st);
  }

  lemma {:induction false} BinRegular(e: Expr, st: TState)
    requires e.Bin? && Trans(e, st).Ok?
    ensures Regular(CodeOf(e, st), st.em.nextReg, !NoRet(e))
    decreases e, 1
  {
    hide ApplyBin, BinCode, Next, Regular;
    var r1 := Trans(e.l, st);
    var r2 := Trans(e.r, r1.st);
    assert Trans(e, st) == ApplyBin(e.op, r1.v, r2.v, r2.st);
    BinOperands(e.op, r1.v, r2.v, r2.st);
    var a, b, c := CodeOf(e.l, st), CodeOf(e.r, r1.st), BinCode(e.op, r1.v.opd, r2.v.opd, r2.st.em.nextReg);
    assert CodeOf(e, st) == Seq(Seq(a, b), c);
    RegularTrans(e.l, st);
    RegularTrans(e.r, r1.st);
    NextTrans(e.l, st);
    NextTrans(e.r, r1.st);
    RegularBin(e.op, r1.v.opd, r2.v.opd, r2.st.em.nextReg);
    RegularSeq(a, b, st.em.nextReg, !NoRet(e.l), !NoRet(e.r));
    RegularSeq(Seq(a, b), c, st.em.nextReg, !NoRet(e.l) || !NoRet(e.r), false);
  }

  lemma {:induction false} RetRegular(e: Expr, st: TState)
    requires e.Ret? && Trans(e, st).Ok?
    ensures Regular(CodeOf(e, st), st.em.nextReg, !NoRet(e))
    decreases e, 1
  {
    hide Next, Regular;
    var r := Trans(e.e, st);
    RegularTrans(e.e, st);
    RegularInstr(RetVal(r.v.ty, r.v.opd), Next(CodeOf(e.e, st), st.em.nextReg));
    RegularSeq(CodeOf(e.e, st), Instr(RetVal(r.v.ty, r.v.opd)), st.em.nextReg, !NoRet(e.e), true);
  }

  lemma {:induction false} AssignRegular(e: Expr, st: TState)
    requires e.Assign? && Trans(e, st).Ok?
    ensures Regular(CodeOf(e, st), st.em.nextReg, !NoRet(e))
    decreases e, 1
  {
    hide ApplyAssign, AssignCode, PlaceCode, Next, Regular;
    var rp := TransPlace(e.lhs, st);
    var rv := Trans(e.rhs, rp.st);
    assert Trans(e, st) == ApplyAssign(e.lhs, rp.place, rv.v, rv.st);
    AssignOperands(e.lhs, rp.place, rv.v, rv.st);
    var a, b, c := PlaceCode(e.lhs, st), CodeOf(e.rhs, rp.st), AssignCode(e.lhs, rp.place, rv.v, rv.st.em.nextReg);
    assert CodeOf(e, st) == Seq(Seq(a, b), c);
    var x := e.lhs.LCond? && !NoRet(e.lhs.cond);
    PlaceRegular(e.lhs, st);
    RegularTrans(e.rhs, rp.st);
    NextPlace(e.lhs, st);
    NextTrans(e.rhs, rp.st);
    RegularAssign(e.lhs, rp.place, rv.v, rv.st.em.nextReg);
    RegularSeq(a, b, st.em.nextReg, x, !NoRet(e.rhs));
    RegularSeq(Seq(a, b), c, st.em.nextReg, x || !NoRet(e.rhs), false);
  }

  lemma {:induction false} PlaceRegular(lhs: LVal, st: TState)
    requires TransPlace(lhs, st).PlaceOk?
    ensures Regular(PlaceCode(lhs, st), st.em.nextReg, lhs.LCond? && !NoRet(lhs.cond))
    decreases lhs, 3
  {
    hide ApplyCondPlace, CondPlaceCode, Next;
    match lhs
    case LVar(_, _) =>
    case LCond(c, a, b) =>
      hide Regular;
      var rc := Trans(c, st);
      RegularTrans(c, st);
      NextTrans(c, st);
      RegularCondPlace(rc.v, a, b, rc.st);
      RegularSeq(CodeOf(c, st), CondPlaceCode(rc.v, a, b, rc.st), st.em.nextReg, !NoRet(c), false);
  }

  lemma {:induction false} CondRegular(e: Expr, st: TState)
    requires e.Cond? && Trans(e, st).Ok?
    ensures Regular(CodeOf(e, st), st.em.nextReg, !NoRet(e))
    decreases e, 1
  {
    hide ApplyCond, SelectCode, Next, Regular;
    var rc := Trans(e.cond, st);
    var rx := Trans(e.thn, rc.st);
    var ry := Trans(e.els, rx.st);
    assert Trans(e, st) == ApplyCond(rc.v, rx.v, ry.v, ry.st);
    CondOperands(rc.v, rx.v, ry.v, ry.st);
    var a, b, c := CodeOf(e.cond, st), CodeOf(e.thn, rc.st), CodeOf(e.els, rx.st);
    var d := SelectCode(rc.v.opd, rx.v.opd, ry.v.opd, Scalar(rx.v.ty), ry.st.em.nextReg);
    assert CodeOf(e, st) == Seq(Seq(Seq(a, b), c), d);
    RegularTrans(e.cond, st);
    RegularTrans(e.thn, rc.st);
    RegularTrans(e.els, rx.st);
    NextTrans(e.cond, st);
    NextTrans(e.thn, rc.st);
    NextTrans(e.els, rx.st);
    RegularSelect(rc.v.opd, rx.v.opd, ry.v.opd, Scalar(rx.v.ty), ry.st.em.nextReg);
    var p, q, s := !NoRet(e.cond), !NoRet(e.thn), !NoRet(e.els);
    RegularSeq(a, b, st.em.nextReg, p, q);
    RegularSeq(Seq(a, b), c, st.em.nextReg, p || q, s);
    RegularSeq(Seq(Seq(a, b), c), d, st.em.nextReg, p || q || s, false);
  }

  lemma {:induction false} CondScopeRegular(e: Expr, st: TState)
    requires e.CondScope? && Trans(e, st).Ok?
    ensures Regular(CodeOf(e, st), st.em.nextReg, !NoRet(e))
    decreases e, 1
  {
    hide Next, Regular, ArmsCode, TransArms;
    var rc := Trans(e.cond, st);
    RegularTrans(e.cond, st);
    NextTrans(e.cond, st);
    ArmsRegular(rc.v.opd, e, rc.st);
    RegularSeq(CodeOf(e.cond, st), ArmsCode(rc.v.opd, e, rc.st), st.em.nextReg, !NoRet(e.cond),
               !NoRetAll(e.thenBody) || !NoRetAll(e.elseBody));
  }

  lemma {:induction false} ArmsRegular(c: Operand, e: Expr, st: TState)
    requires e.CondScope? && TransArms(c, e, st).Ok?
    ensures Regular(ArmsCode(c, e, st), st.em.nextReg, !NoRetAll(e.thenBody) || !NoRetAll(e.elseBody))
    decreases e, 0
  {
    hide JoinArms, NoRetAll;
    var r1 := TransAll(e.thenBody, ThenState(st), Nothing);
    var s1 := ElseState(st, r1.st.em);
    ArmRegisters(st, r1.st.em);
    hide ThenState, ElseState;
    AllRegular(e.thenBody, ThenState(st), Nothing);
    NextAll(e.thenBody, ThenState(st), Nothing);
    AllRegular(e.elseBody, s1, Nothing);
  }

  lemma ArmRegisters(st: TState, em1: Emit)
    ensures ThenState(st).em.nextReg == st.em.nextReg && ElseState(st, em1).em.nextReg == em1.nextReg
  {
    hide HasTerminator, BodyOf;
  }

  lemma {:induction false} AllRegular(es: seq<Expr>, st: TState, last: TVal)
    requires TransAll(es, st, last).Ok?
    ensures Regular(CodeOfAll(es, st, last), st.em.nextReg, !NoRetAll(es))
    decreases es, 0
  {
    if es != [] {
      hide Trans, CodeOf, Next, Regular;
      var r := Trans(es[0], st);
      RegularTrans(es[0], st);
      NextTrans(es[0], st);
      AllRegular(es[1..], r.st, r.v);
      RegularSeq(CodeOf(es[0], st), CodeOfAll(es[1..], r.st, r.v), st.em.nextReg, !NoRet(es[0]), !NoRetAll(es[1..]));
    }
  }
}
