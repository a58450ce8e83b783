/** The code of an expression reads available registers only: the cells of the visible variables
    and the values of its parts. */
module Scoping {
  import opened Words
  import opened Ast
  import opened Ir
  import opened Emitter
  import opened Translation
  import opened Structure
  import opened Dominance

  predicate Visible(t: Table, s: set<nat>)
  {
    forall n :: n in t ==> t[n].cell in s
  }

  predicate ValueIn(v: TVal, s: set<nat>)
  {
    v.TVal? ==> RegsOf(v.opd) <= s
  }

  predicate PlaceIn(place: Place, s: set<nat>)
  {
    match place
    case Fresh => true
    case Known(sym) => sym.cell in s
    case Pointed(p, _) => RegsOf(p) <= s
  }

  lemma ScopedSeq(a: Code, b: Code, s: set<nat>)
    ensures Scoped(Seq(a, b), s) <==> Scoped(a, s) && Scoped(b, Out(a, s))
    ensures Out(Seq(a, b), s) == Out(b, Out(a, s))
  {
  }

  lemma ScopedInstr(i: Ir.Instr, s: set<nat>)
    ensures Scoped(Instr(i), s) <==> Uses(i) <= s && Targets(i) == {}
    ensures Out(Instr(i), s) == s + Defs(i)
  {
  }

  lemma ScopedBin(op: BinOp, x: TVal, y: TVal, st: TState, s: set<nat>)
    requires ApplyBin(op, x, y, st).Ok? && ValueIn(x, s) && ValueIn(y, s)
    ensures x.TVal? && y.TVal?
    ensures var code := BinCode(op, x.opd, y.opd, st.em.nextReg);
      Scoped(code, s) && ValueIn(ApplyBin(op, x, y, st).v, Out(code, s))
  {
    var r := st.em.nextReg;
    if IsLogic(op) {
      var i1, i2 := Cmp(r, PNe, x.opd, Const(I1, 0)), Cmp(r + 1, PNe, y.opd, Const(I1, 0));
      var i3 := Ir.Arith(r + 2, if op == LAnd then OAnd else OOr, Reg(r), Reg(r + 1));
      ScopedSeq(Instr(i1), Instr(i2), s);
      ScopedSeq(Seq(Instr(i1), Instr(i2)), Instr(i3), s);
      ScopedInstr(i1, s);
      ScopedInstr(i2, s + {r});
      ScopedInstr(i3, s + {r} + {r + 1});
    }
  }

  lemma ScopedSelect(c: Operand, x: Operand, y: Operand, cty: CellTy, d: nat, s: set<nat>)
    requires RegsOf(c) <= s && RegsOf(x) <= s && RegsOf(y) <= s
    ensures Scoped(SelectCode(c, x, y, cty, d), s) && d + 1 in Out(SelectCode(c, x, y, cty, d), s)
  {
    var i, j := Alloca(d, cty, Temporary), Load(d + 1, Reg(d));
    var arms := Arms(c, Instr(Store(x, Reg(d))), Instr(Store(y, Reg(d))));
    ScopedSeq(Instr(i), arms, s);
    ScopedSeq(Seq(Instr(i), arms), Instr(j), s);
    ScopedInstr(i, s);
    ScopedInstr(j, s + {d});
    ScopedInstr(Store(x, Reg(d)), s + {d});
    ScopedInstr(Store(y, Reg(d)), s + {d});
  }

  lemma ScopedAssign(lhs: LVal, place: Place, v: TVal, st: TState, s: set<nat>)
    requires ApplyAssign(lhs, place, v, st).Ok? && Visible(st.syms, s) && ValueIn(v, s) && PlaceIn(place, s)
    requires v.TVal? && (place.Fresh? ==> lhs.LVar?)
    ensures var code := AssignCode(lhs, place, v, st.em.nextReg);
      var r := ApplyAssign(lhs, place, v, st);
      Scoped(code, s) && Visible(r.st.syms, Out(code, s)) && ValueIn(r.v, Out(code, s))
  {
    match place
    case Fresh =>
      var r := st.em.nextReg;
      var i, j := Alloca(r, Scalar(v.ty), Variable(lhs.name, lhs.mut)), Store(v.opd, Reg(r));
      ScopedSeq(Instr(i), Instr(j), s);
      ScopedInstr(i, s);
      ScopedInstr(j, s + {r});
    case Known(_) =>
    case Pointed(_, _) =>
  }

  lemma ScopedCondPlace(c: TVal, a: string, b: string, st: TState, s: set<nat>)
    requires ApplyCondPlace(c, a, b, st).PlaceOk? && Visible(st.syms, s) && ValueIn(c, s)
    ensures var code := CondPlaceCode(c, a, b, st);
      var r := ApplyCondPlace(c, a, b, st);
      Scoped(code, s) && r.st.syms == st.syms && PlaceIn(r.place, Out(code, s))
  {
    var r := st.em.nextReg;
    CondPlaceResult(c, a, b, st);
    hide ApplyCondPlace, CondPlaceCode, SelectCode, Scoped, Out, Select;
    CondPlaceIs(c, a, b, st);
    var x, y := st.syms[a], st.syms[b];
    var i, j := Load(r, Reg(x.cell)), Load(r + 1, Reg(y.cell));
    ScopedInstr(i, s);
    ScopedInstr(j, s + {r});
    ScopedSeq(Instr(i), Instr(j), s);
    var s2 := s + {r} + {r + 1};
    ScopedSelect(c.opd, Reg(x.cell), Reg(y.cell), Pointer(x.ty), r + 2, s2);
    ScopedSeq(Seq(Instr(i), Instr(j)), SelectCode(c.opd, Reg(x.cell), Reg(y.cell), Pointer(x.ty), r + 2), s);
  }

  lemma CondPlaceResult(c: TVal, a: string, b: string, st: TState)
    requires ApplyCondPlace(c, a, b, st).PlaceOk?
    ensures ApplyCondPlace(c, a, b, st).st.syms == st.syms
    ensures ApplyCondPlace(c, a, b, st).place.Pointed? && ApplyCondPlace(c, a, b, st).place.p == Reg(st.em.nextReg + 3)
  {
    hide Select, Emit.Append;
  }

  lemma Wider(t: Table, v: TVal, s: set<nat>, s': set<nat>)
    requires s <= s'
    ensures Visible(t, s) ==> Visible(t, s')
    ensures ValueIn(v, s) ==> ValueIn(v, s')
  {
  }

  /** What translating e promises about the registers it uses and yields. */
  predicate WellScoped(code: Code, syms: Table, v: TVal, s: set<nat>)
  {
    Scoped(code, s) && Visible(syms, Out(code, s)) && ValueIn(v, Out(code, s))
  }

  lemma {:induction false} ScopedTrans(e: Expr, st: TState, s: set<nat>)
    requires Trans(e, st).Ok? && Visible(st.syms, s)
    ensures WellScoped(CodeOf(e, st), Trans(e, st).st.syms, Trans(e, st).v, s)
    decreases e, 2
  {
    hide ApplyBin, ApplyAssign, ApplyCond, BinCode, AssignCode, SelectCode;
    match e
    case IntLit(_) =>
    case BoolLit(_) =>
    case Var(name) =>
    case Bin(op, l, r) => ScopedBinExpr(e, st, s);
    case Assign(_, _) => ScopedAssignExpr(e, st, s);
    case Cond(_, _, _) => ScopedCondExpr(e, st, s);
    case CondScope(c, _, _) => ScopedCondScope(e, st, s);
    case ScopeCall(body) => ScopedScopeCall(e, st, s);
    case Ret(e1) => ScopedRet(e, st, s);
  }

  lemma {:induction false} ScopedRet(e: Expr, st: TState, s: set<nat>)
    requires e.Ret? && Trans(e, st).Ok? && Visible(st.syms, s)
    ensures WellScoped(CodeOf(e, st), Trans(e, st).st.syms, Trans(e, st).v, s)
    decreases e, 1
  {
    hide Visible, Scoped, Out;
    var r := Trans(e.e, st);
    var a, i := CodeOf(e.e, st), RetVal(r.v.ty, r.v.opd);
    ScopedTrans(e.e, st, s);
    ScopedInstr(i, Out(a, s));
    ScopedSeq(a, Instr(i), s);
    Wider(r.st.syms, Nothing, Out(a, s), Out(Instr(i), Out(a, s)));
  }

  lemma {:induction false} ScopedBinExpr(e: Expr, st: TState, s: set<nat>)
    requires e.Bin? && Trans(e, st).Ok? && Visible(st.syms, s)
    ensures WellScoped(CodeOf(e, st), Trans(e, st).st.syms, Trans(e, st).v, s)
    decreases e, 1
  {
    hide ApplyBin, BinCode, Visible, ValueIn, Scoped, Out;
    var r1 := Trans(e.l, st);
    var r2 := Trans(e.r, r1.st);
    assert Trans(e, st) == ApplyBin(e.op, r1.v, r2.v, r2.st);
    var a, b := CodeOf(e.l, st), CodeOf(e.r, r1.st);
    var s1 := Out(a, s);
    var s2 := Out(b, s1);
    ScopedTrans(e.l, st, s);
    ScopedTrans(e.r, r1.st, s1);
    Wider(r2.st.syms, r1.v, s1, s2);
    ScopedBin(e.op, r1.v, r2.v, r2.st, s2);
    var c := BinCode(e.op, r1.v.opd, r2.v.opd, r2.st.em.nextReg);
    assert CodeOf(e, st) == Seq(Seq(a, b), c);
    ScopedSeq(a, b, s);
    ScopedSeq(Seq(a, b), c, s);
    Wider(r2.st.syms, r1.v, s2, Out(c, s2));
    BinSymbols(e.op, r1.v, r2.v, r2.st);
  }

  lemma BinSymbols(op: BinOp, x: TVal, y: TVal, st: TState)
    requires ApplyBin(op, x, y, st).Ok?
    ensures ApplyBin(op, x, y, st).st.syms == st.syms
  {
  }

  lemma {:induction false} ScopedAssignExpr(e: Expr, st: TState, s: set<nat>)
    requires e.Assign? && Trans(e, st).Ok? && Visible(st.syms, s)
    ensures WellScoped(CodeOf(e, st), Trans(e, st).st.syms, Trans(e, st).v, s)
    decreases e, 1
  {
    hide ApplyAssign, AssignCode, PlaceCode, TransPlace, Visible, ValueIn, Scoped, Out;
    var rp := TransPlace(e.lhs, st);
    var rv := Trans(e.rhs, rp.st);
    assert Trans(e, st) == ApplyAssign(e.lhs, rp.place, rv.v, rv.st);
    AssignOperands(e.lhs, rp.place, rv.v, rv.st);
    var a, b, c := PlaceCode(e.lhs, st), CodeOf(e.rhs, rp.st), AssignCode(e.lhs, rp.place, rv.v, rv.st.em.nextReg);
    assert CodeOf(e, st) == Seq(Seq(a, b), c);
    var s1 := Out(a, s);
    var s2 := Out(b, s1);
    ScopedPlace(e.lhs, st, s);
    ScopedTrans(e.rhs, rp.st, s1);
    PlaceWider(rp.place, s1, s2);
    ScopedAssign(e.lhs, rp.place, rv.v, rv.st, s2);
    ScopedSeq(a, b, s);
    ScopedSeq(Seq(a, b), c, s);
  }

  lemma PlaceWider(place: Place, s: set<nat>, s': set<nat>)
    requires PlaceIn(place, s) && s <= s'
    ensures PlaceIn(place, s')
  {
  }

  lemma {:induction false} ScopedPlace(lhs: LVal, st: TState, s: set<nat>)
    requires TransPlace(lhs, st).PlaceOk? && Visible(st.syms, s)
    ensures var code := PlaceCode(lhs, st);
      var r := TransPlace(lhs, st);
      Scoped(code, s) && Visible(r.st.syms, Out(code, s)) && PlaceIn(r.place, Out(code, s))
    decreases lhs, 3
  {
    hide ApplyCondPlace, CondPlaceCode;
    match lhs
    case LVar(_, _) =>
    case LCond(c, a, b) =>
      hide Scoped, Out, Visible, ValueIn, PlaceIn;
      var rc := Trans(c, st);
      var code := CodeOf(c, st);
      ScopedTrans(c, st, s);
      ScopedCondPlace(rc.v, a, b, rc.st, Out(code, s));
      ScopedSeq(code, CondPlaceCode(rc.v, a, b, rc.st), s);
      Wider(rc.st.syms, Nothing, Out(code, s), Out(CondPlaceCode(rc.v, a, b, rc.st), Out(code, s)));
  }

  lemma {:induction false} ScopedCondExpr(e: Expr, st: TState, s: set<nat>)
    requires e.Cond? && Trans(e, st).Ok? && Visible(st.syms, s)
    ensures WellScoped(CodeOf(e, st), Trans(e, st).st.syms, Trans(e, st).v, s)
    decreases e, 1
  {
    hide ApplyCond, SelectCode, Visible, Scoped, Out;
    var rc := Trans(e.cond, st);
    var rx := Trans(e.thn, rc.st);
    var ry := Trans(e.els, rx.st);
    assert Trans(e, st) == ApplyCond(rc.v, rx.v, ry.v, ry.st);
    CondOperands(rc.v, rx.v, ry.v, ry.st);
    CondResult(rc.v, rx.v, ry.v, ry.st);
    var a, b, c := CodeOf(e.cond, st), CodeOf(e.thn, rc.st), CodeOf(e.els, rx.st);
    var d := SelectCode(rc.v.opd, rx.v.opd, ry.v.opd, Scalar(rx.v.ty), ry.st.em.nextReg);
    assert CodeOf(e, st) == Seq(Seq(Seq(a, b), c), d);
    var s1 := Out(a, s);
    var s2 := Out(b, s1);
    var s3 := Out(c, s2);
    ScopedTrans(e.cond, st, s);
    ScopedTrans(e.thn, rc.st, s1);
    ScopedTrans(e.els, rx.st, s2);
    ScopedSelect(rc.v.opd, rx.v.opd, ry.v.opd, Scalar(rx.v.ty), ry.st.em.nextReg, s3);
    ScopedSeq(a, b, s);
    ScopedSeq(Seq(a, b), c, s);
    ScopedSeq(Seq(Seq(a, b), c), d, s);
    Wider(ry.st.syms, Nothing, s3, Out(d, s3));
  }

  lemma CondResult(c: TVal, x: TVal, y: TVal, st: TState)
    requires ApplyCond(c, x, y, st).Ok?
    ensures ApplyCond(c, x, y, st).st.syms == st.syms
    ensures ApplyCond(c, x, y, st).v.TVal? && ApplyCond(c, x, y, st).v.opd == Reg(st.em.nextReg + 1)
  {
    hide Select;
  }

  lemma {:induction false} ScopedCondScope(e: Expr, st: TState, s: set<nat>)
    requires e.CondScope? && Trans(e, st).Ok? && Visible(st.syms, s)
    ensures WellScoped(CodeOf(e, st), Trans(e, st).st.syms, Trans(e, st).v, s)
    decreases e, 1
  {
    hide ArmsCode, TransArms, Visible, Scoped, Out;
    var rc := Trans(e.cond, st);
    ScopedTrans(e.cond, st, s);
    ScopedArmsCode(rc.v, e, rc.st, Out(CodeOf(e.cond, st), s));
    ScopedSeq(CodeOf(e.cond, st), ArmsCode(rc.v.opd, e, rc.st), s);
  }

  lemma {:induction false} ScopedArmsCode(c: TVal, e: Expr, st: TState, s: set<nat>)
    requires c.TVal? && e.CondScope? && TransArms(c.opd, e, st).Ok? && Visible(st.syms, s) && ValueIn(c, s)
    ensures WellScoped(ArmsCode(c.opd, e, st), TransArms(c.opd, e, st).st.syms, TransArms(c.opd, e, st).v, s)
    decreases e, 0
  {
    hide Visible;
    var r1 := TransAll(e.thenBody, ThenState(st), Nothing);
    var s1 := ElseState(st, r1.st.em);
    ArmSymbols(st, r1.st.em);
    hide ThenState, ElseState;
    ScopedAll(e.thenBody, ThenState(st), Nothing, s);
    ScopedAll(e.elseBody, s1, Nothing, s);
    JoinSymbols(c.opd, st);
  }

  lemma ArmSymbols(st: TState, em1: Emit)
    ensures ThenState(st).syms == st.syms && ElseState(st, em1).syms == st.syms && CallState(st).syms == st.syms
  {
    hide HasTerminator, BodyOf;
  }

  lemma JoinSymbols(c: Operand, st: TState)
    ensures forall keep, em2 :: JoinArms(c, st, keep, em2).syms == st.syms
  {
    hide HasTerminator, BodyOf;
  }

  lemma {:induction false} ScopedScopeCall(e: Expr, st: TState, s: set<nat>)
    requires e.ScopeCall? && Trans(e, st).Ok? && Visible(st.syms, s)
    ensures WellScoped(CodeOf(e, st), Trans(e, st).st.syms, Trans(e, st).v, s)
    decreases e, 1
  {
    hide Visible;
    assert TransCall(e.body, st).Ok?;
    ArmSymbols(st, st.em);
    hide CallState;
    ScopedAll(e.body, CallState(st), Nothing, s);
    Wider(st.syms, Nothing, s, Out(CodeOf(e, st), s));
  }

  lemma {:induction false} ScopedAll(es: seq<Expr>, st: TState, last: TVal, s: set<nat>)
    requires TransAll(es, st, last).Ok? && Visible(st.syms, s) && ValueIn(last, s)
    ensures WellScoped(CodeOfAll(es, st, last), TransAll(es, st, last).st.syms, TransAll(es, st, last).v, s)
    decreases es, 0
  {
    if es != [] {
      hide Trans, CodeOf, Visible, ValueIn, Scoped, Out;
      var r := Trans(es[0], st);
      ScopedTrans(es[0], st, s);
      ScopedAll(es[1..], r.st, r.v, Out(CodeOf(es[0], st), s));
      ScopedSeq(CodeOf(es[0], st), CodeOfAll(es[1..], r.st, r.v), s);
    }
  }
}
