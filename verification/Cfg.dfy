/** The control flow graph of emitted functions: when every block ends in exactly one terminator,
    decided by the source alone. */
module Cfg {
  import opened Words
  import opened Ast
  import opened Ir
  import opened Emitter
  import opened Translation
  import opened Growth
  import opened Bodies
  import opened Structure
  import opened Layout

  // ---------------------------------------------------- the graph's promises

  /** A terminator occurs only in last position. */
  predicate Placed(body: seq<Ir.Instr>)
  {
    forall k :: 0 <= k < |body| - 1 ==> !IsTerminator(body[k])
  }

  /** One terminator, in last position. */
  predicate Closed(body: seq<Ir.Instr>)
  {
    HasTerminator(body) && Placed(body)
  }

  predicate TargetsIn(i: Ir.Instr, bs: Blocks)
  {
    forall t :: t in Targets(i) ==> t in bs && t != 0
  }

  /** Well-formed: every block is closed, branches stay in the function and never go to the entry
      block. */
  predicate WellFormed(bs: Blocks)
  {
    && 0 in bs
    && (forall b :: b in bs ==> Closed(bs[b]))
    && (forall b, k :: b in bs && 0 <= k < |bs[b]| ==> TargetsIn(bs[b][k], bs))
  }

  // ------------------------------------------------------ decided on the source

  /** Whether the insertion block is ended after e; `t` says whether it was before. */
  predicate Ends(e: Expr, t: bool)
    decreases e, 1
  {
    match e
    case IntLit(_) => t
    case BoolLit(_) => t
    case Var(_) => t
    case Bin(_, l, r) => Ends(r, Ends(l, t))
    case Assign(lhs, r) => Ends(r, EndsPlace(lhs, t))
    case Cond(_, _, _) => false
    case CondScope(_, thn, els) => EndsAll(thn, false) && EndsAll(els, false)
    case ScopeCall(body) => EndsAll(body, false)
    case Ret(_) => true
  }

  predicate EndsPlace(lhs: LVal, t: bool)
  {
    lhs.LVar? && t
  }

  predicate EndsAll(es: seq<Expr>, t: bool)
    decreases es, 0
  {
    if es == [] then t else EndsAll(es[1..], Ends(es[0], t))
  }

  /** Nothing but a literal follows a return, or a conditional or called scope that always
      returns. */
  predicate Clean(e: Expr, t: bool)
    decreases e, 1
  {
    match e
    case IntLit(_) => true
    case BoolLit(_) => true
    case Var(_) => !t
    case Bin(_, l, r) => Clean(l, t) && Clean(r, Ends(l, t)) && !Ends(e, t)
    case Assign(lhs, r) => CleanPlace(lhs, t) && Clean(r, EndsPlace(lhs, t)) && !Ends(e, t)
    case Cond(c, x, y) =>
      && Clean(c, t) && Clean(x, Ends(c, t)) && Clean(y, Ends(x, Ends(c, t)))
      && !Ends(y, Ends(x, Ends(c, t)))
    case CondScope(c, thn, els) => Clean(c, t) && !Ends(c, t) && CleanAll(thn, false) && CleanAll(els, false)
    case ScopeCall(body) => !t && CleanAll(body, false)
    case Ret(e1) => Clean(e1, t) && !Ends(e1, t)
  }

  predicate CleanPlace(lhs: LVal, t: bool)
    decreases lhs, 1
  {
    lhs.LCond? ==> Clean(lhs.cond, t) && !Ends(lhs.cond, t)
  }

  predicate CleanAll(es: seq<Expr>, t: bool)
    decreases es, 0
  {
    es == [] || (Clean(es[0], t) && CleanAll(es[1..], Ends(es[0], t)))
  }

  // -------------------------------------------------------- the same on code

  predicate CodeEnds(code: Code, t: bool)
  {
    match code
    case Skip => t
    case Instr(i) => t || IsTerminator(i)
    case Seq(a, b) => CodeEnds(b, CodeEnds(a, t))
    case Arms(_, a, b) => CodeEnds(a, false) && CodeEnds(b, false)
    case Call(a) => CodeEnds(a, false)
  }

  predicate CodeClean(code: Code, t: bool)
  {
    match code
    case Skip => true
    case Instr(_) => !t
    case Seq(a, b) => CodeClean(a, t) && CodeClean(b, CodeEnds(a, t))
    case Arms(_, a, b) => !t && CodeClean(a, false) && CodeClean(b, false)
    case Call(a) => !t && CodeClean(a, false)
  }

  lemma EndsBin(op: BinOp, x: Operand, y: Operand, r: nat, t: bool)
    ensures CodeEnds(BinCode(op, x, y, r), t) == t
    ensures CodeClean(BinCode(op, x, y, r), t) == !t
  {
    if IsLogic(op) {
      var i1, i2 := Instr(Cmp(r, PNe, x, Const(I1, 0))), Instr(Cmp(r + 1, PNe, y, Const(I1, 0)));
      EndsSeq(Seq(i1, i2), Instr(Ir.Arith(r + 2, if op == LAnd then OAnd else OOr, Reg(r), Reg(r + 1))), t);
      EndsSeq(i1, i2, t);
    }
  }

  lemma EndsSelect(c: Operand, x: Operand, y: Operand, cty: CellTy, d: nat, t: bool)
    ensures !CodeEnds(SelectCode(c, x, y, cty, d), t)
    ensures CodeClean(SelectCode(c, x, y, cty, d), t) == !t
  {
    var i, arms := Instr(Alloca(d, cty, Temporary)), Arms(c, Instr(Store(x, Reg(d))), Instr(Store(y, Reg(d))));
    EndsSeq(Seq(i, arms), Instr(Load(d + 1, Reg(d))), t);
    EndsSeq(i, arms, t);
  }

  lemma EndsAssign(lhs: LVal, place: Place, v: TVal, r: nat, t: bool)
    requires v.TVal? && (place.Fresh? ==> lhs.LVar?)
    ensures CodeEnds(AssignCode(lhs, place, v, r), t) == t
    ensures CodeClean(AssignCode(lhs, place, v, r), t) == !t
  {
  }

  lemma EndsSeq(a: Code, b: Code, t: bool)
    ensures CodeEnds(Seq(a, b), t) == CodeEnds(b, CodeEnds(a, t))
    ensures CodeClean(Seq(a, b), t) <==> CodeClean(a, t) && CodeClean(b, CodeEnds(a, t))
  {
  }

  lemma EndsCondPlace(c: TVal, a: string, b: string, st: TState, t: bool)
    requires ApplyCondPlace(c, a, b, st).PlaceOk?
    ensures !CodeEnds(CondPlaceCode(c, a, b, st), t)
    ensures CodeClean(CondPlaceCode(c, a, b, st), t) == !t
  {
    hide CodeEnds, CodeClean, SelectCode, ApplyCondPlace, Select;
    CondPlaceIs(c, a, b, st);
    var r := st.em.nextReg;
    var x, y := st.syms[a], st.syms[b];
    var i, j := Instr(Load(r, Reg(x.cell))), Instr(Load(r + 1, Reg(y.cell)));
    var s := SelectCode(c.opd, Reg(x.cell), Reg(y.cell), Pointer(x.ty), r + 2);
    EndsSeq(Seq(i, j), s, t);
    EndsSeq(i, j, t);
    EndsLoad(r, Reg(x.cell), t);
    EndsLoad(r + 1, Reg(y.cell), t);
    EndsSelect(c.opd, Reg(x.cell), Reg(y.cell), Pointer(x.ty), r + 2, t);
  }

  lemma EndsLoad(d: nat, p: Operand, t: bool)
    ensures CodeEnds(Instr(Load(d, p)), t) == t
    ensures CodeClean(Instr(Load(d, p)), t) == !t
  {
  }

  /** The source decides which code ends, and which puts nothing after a terminator. */
  lemma {:induction false} CodeAgrees(e: Expr, st: TState, t: bool)
    requires Trans(e, st).Ok?
    ensures CodeEnds(CodeOf(e, st), t) == Ends(e, t)
    ensures CodeClean(CodeOf(e, st), t) == Clean(e, t)
    decreases e, 2
  {
    hide ApplyBin, ApplyAssign, ApplyCond, BinCode, AssignCode, SelectCode;
    match e
    case IntLit(_) =>
    case BoolLit(_) =>
    case Var(name) =>
    case Bin(op, l, r) =>
      var r1 := Trans(l, st);
      var r2 := Trans(r, r1.st);
      CodeAgrees(l, st, t);
      CodeAgrees(r, r1.st, Ends(l, t));
      BinOperands(op, r1.v, r2.v, r2.st);
      EndsBin(op, r1.v.opd, r2.v.opd, r2.st.em.nextReg, Ends(e, t));
    case Assign(lhs, rhs) => AssignAgrees(e, st, t);
    case Cond(_, _, _) => CondAgrees(e, st, t);
    case CondScope(c, _, _) =>
      var r1 := Trans(c, st);
      CodeAgrees(c, st, t);
      ArmsAgree(r1.v.opd, e, r1.st, Ends(c, t));
    case ScopeCall(body) =>
      assert TransCall(body, st).Ok?;
      AllAgrees(body, CallState(st), Nothing, false);
    case Ret(e1) => CodeAgrees(e1, st, t);
  }

  lemma {:induction false} AssignAgrees(e: Expr, st: TState, t: bool)
    requires e.Assign? && Trans(e, st).Ok?
    ensures CodeEnds(CodeOf(e, st), t) == Ends(e, t)
    ensures CodeClean(CodeOf(e, st), t) == Clean(e, t)
    decreases e, 1
  {
    hide ApplyAssign, AssignCode, PlaceCode, CodeEnds, CodeClean;
    var rp := TransPlace(e.lhs, st);
    var rv := Trans(e.rhs, rp.st);
    assert Trans(e, st) == ApplyAssign(e.lhs, rp.place, rv.v, rv.st);
    AssignOperands(e.lhs, rp.place, rv.v, rv.st);
    var a, b, c := PlaceCode(e.lhs, st), CodeOf(e.rhs, rp.st), AssignCode(e.lhs, rp.place, rv.v, rv.st.em.nextReg);
    assert CodeOf(e, st) == Seq(Seq(a, b), c);
    PlaceAgrees(e.lhs, st, t);
    CodeAgrees(e.rhs, rp.st, EndsPlace(e.lhs, t));
    EndsAssign(e.lhs, rp.place, rv.v, rv.st.em.nextReg, Ends(e, t));
    EndsSeq(a, b, t);
    EndsSeq(Seq(a, b), c, t);
  }

  lemma {:induction false} PlaceAgrees(lhs: LVal, st: TState, t: bool)
    requires TransPlace(lhs, st).PlaceOk?
    ensures CodeEnds(PlaceCode(lhs, st), t) == EndsPlace(lhs, t)
    ensures CodeClean(PlaceCode(lhs, st), t) == CleanPlace(lhs, t)
    decreases lhs, 3
  {
    hide ApplyCondPlace, CondPlaceCode;
    match lhs
    case LVar(_, _) =>
    case LCond(c, a, b) =>
      var rc := Trans(c, st);
      CodeAgrees(c, st, t);
      EndsCondPlace(rc.v, a, b, rc.st, Ends(c, t));
  }

  lemma {:induction false} CondAgrees(e: Expr, st: TState, t: bool)
    requires e.Cond? && Trans(e, st).Ok?
    ensures CodeEnds(CodeOf(e, st), t) == Ends(e, t)
    ensures CodeClean(CodeOf(e, st), t) == Clean(e, t)
    decreases e, 1
  {
    hide ApplyCond, SelectCode, CodeEnds, CodeClean;
    var rc := Trans(e.cond, st);
    var rx := Trans(e.thn, rc.st);
    var ry := Trans(e.els, rx.st);
    assert Trans(e, st) == ApplyCond(rc.v, rx.v, ry.v, ry.st);
    CondOperands(rc.v, rx.v, ry.v, ry.st);
    var a, b, c := CodeOf(e.cond, st), CodeOf(e.thn, rc.st), CodeOf(e.els, rx.st);
    var d := SelectCode(rc.v.opd, rx.v.opd, ry.v.opd, Scalar(rx.v.ty), ry.st.em.nextReg);
    assert CodeOf(e, st) == Seq(Seq(Seq(a, b), c), d);
    var t1 := Ends(e.cond, t);
    var t2 := Ends(e.thn, t1);
    CodeAgrees(e.cond, st, t);
    CodeAgrees(e.thn, rc.st, t1);
    CodeAgrees(e.els, rx.st, t2);
    EndsSelect(rc.v.opd, rx.v.opd, ry.v.opd, Scalar(rx.v.ty), ry.st.em.nextReg, Ends(e.els, t2));
    EndsSeq(a, b, t);
    EndsSeq(Seq(a, b), c, t);
    EndsSeq(Seq(Seq(a, b), c), d, t);
  }

  lemma {:induction false} ArmsAgree(c: Operand, e: Expr, st: TState, t: bool)
    requires e.CondScope? && TransArms(c, e, st).Ok?
    ensures CodeEnds(ArmsCode(c, e, st), t) <==> EndsAll(e.thenBody, false) && EndsAll(e.elseBody, false)
    ensures CodeClean(ArmsCode(c, e, st), t) <==> !t && CleanAll(e.thenBody, false) && CleanAll(e.elseBody, false)
    decreases e, 1
  {
    hide ThenState, ElseState, JoinArms;
    var r1 := TransAll(e.thenBody, ThenState(st), Nothing);
    AllAgrees(e.thenBody, ThenState(st), Nothing, false);
    AllAgrees(e.elseBody, ElseState(st, r1.st.em), Nothing, false);
  }

  lemma {:induction false} AllAgrees(es: seq<Expr>, st: TState, last: TVal, t: bool)
    requires TransAll(es, st, last).Ok?
    ensures CodeEnds(CodeOfAll(es, st, last), t) == EndsAll(es, t)
    ensures CodeClean(CodeOfAll(es, st, last), t) == CleanAll(es, t)
    decreases es, 0
  {
    hide Trans, CodeOf;
    if es != [] {
      var r := Trans(es[0], st);
      CodeAgrees(es[0], st, t);
      AllAgrees(es[1..], r.st, r.v, Ends(es[0], t));
    }
  }

  // ------------------------------------------------- layout and terminators

  lemma AppendTerminates(em: Emit, i: Ir.Instr)
    ensures HasTerminator(em.Append(i).Here()) <==> HasTerminator(em.Here()) || IsTerminator(i)
    ensures HasTerminator(em.Define(i).Here()) <==> HasTerminator(em.Here()) || IsTerminator(i)
  {
    TerminatorAppend(em.Here(), i);
    assert em.Append(i).Here() == em.Here() + [i];
  }

  /** The test at the end of a list: control falls through exactly if the source says so. */
  lemma {:induction false} LayEnds(code: Code, em: Emit)
    requires ValidEmit(em)
    ensures Lay(code, em).FallsThrough() == !CodeEnds(code, !em.FallsThrough())
    decreases code
  {
    hide HasTerminator, Emit.Append, JoinArms, EndCall, ThenState, ElseState, CallState;
    match code
    case Skip =>
    case Instr(i) => AppendTerminates(em, i);
    case Seq(a, b) =>
      LayGrows(a, em);
      LayEnds(a, em);
      LayEnds(b, Lay(a, em));
    case Arms(c, a, b) =>
      ArmsParts(c, a, b, em);
      ArmsIs(c, a, b, em);
      EmptyFalls();
      LayEnds(a, ThenState(Plain(em)).em);
      LayEnds(b, BeforeElse(a, em));
      JoinEnds(c, em, AfterElse(a, b, em), AfterThen(a, em).FallsThrough() || AfterElse(a, b, em).FallsThrough());
    case Call(a) =>
      CallParts(a, em);
      CallIs(a, em);
      EmptyFalls();
      LayEnds(a, CallState(Plain(em)).em);
      CallEnds(em, AfterBody(a, em));
  }

  lemma EmptyFalls()
    ensures !HasTerminator([])
  {
  }

  lemma JoinEnds(c: Operand, em: Emit, e2: Emit, keep: bool)
    requires Waiting(e2, em.nextBlock + 2) && Beside(em, e2) && ValidEmit(em)
    ensures JoinArms(c, Plain(em), keep, e2).em.FallsThrough() == keep
  {
    var mb := em.nextBlock + 2;
    var i := CondBr(c, em.nextBlock, em.nextBlock + 1);
    WaitingClosed(e2, mb, mb);
    var e3 := CloseBody(e2, mb);
    hide CloseBody, HasTerminator;
    AppendTerminates(e3.Erase(mb).At(em.cur), i);
    EmptyFalls();
    if keep {
      assert JoinArms(c, Plain(em), keep, e2).em.cur == mb;
    }
  }

  lemma CallEnds(em: Emit, e1: Emit)
    requires Waiting(e1, em.nextBlock) && ValidEmit(em)
    ensures EndCall(Plain(em), e1).em.FallsThrough() == e1.FallsThrough()
  {
    var nb, i := em.nextBlock, Br(em.nextBlock + 1);
    hide HasTerminator;
    EmptyFalls();
    AppendTerminates(e1.Erase(nb).At(em.cur), i);
  }
}
