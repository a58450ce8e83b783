/** Which function literals are emitted for which arguments, with which type, and why the others are
    rejected: decided by the typing rules. */
module Verdicts {
  import opened Words
  import opened Ast
  import opened Ir
  import opened Emitter
  import opened Translation
  import opened Evaluation
  import opened Layout
  import opened Structure
  import opened Positions
  import opened Typing
  import Functions
  import Survey

  // -------------------------------------------------------- returned types

  function Behind(e: Expr, ctx: Context): Context
  {
    var r := TypeExpr(e, ctx);
    if r.Typed? then r.ctx else ctx
  }

  /** The types of the values that e returns on some path. */
  function Returns(e: Expr, ctx: Context): set<Ty>
    decreases e, 1
  {
    match e
    case IntLit(_) => {}
    case BoolLit(_) => {}
    case Var(_) => {}
    case Bin(_, l, r) => Returns(l, ctx) + Returns(r, Behind(l, ctx))
    case Assign(LVar(_, _), rhs) => Returns(rhs, ctx)
    case Assign(LCond(c, _, _), rhs) => Returns(c, ctx) + Returns(rhs, Behind(c, ctx))
    case Cond(c, x, y) =>
      var ctx1 := Behind(c, ctx);
      Returns(c, ctx) + Returns(x, ctx1) + Returns(y, Behind(x, ctx1))
    case CondScope(c, thn, els) =>
      var ctx1 := Behind(c, ctx);
      Returns(c, ctx) + ReturnsAll(thn, ctx1) + ReturnsAll(els, ctx1)
    case ScopeCall(body) => ReturnsAll(body, ctx)
    case Ret(e1) =>
      var r := TypeExpr(e1, ctx);
      Returns(e1, ctx) + if r.Typed? && r.sort.Some? then {r.sort.value.ty} else {}
  }

  function ReturnsAll(es: seq<Expr>, ctx: Context): set<Ty>
    decreases es, 0
  {
    if es == [] then {} else Returns(es[0], ctx) + ReturnsAll(es[1..], Behind(es[0], ctx))
  }

  predicate Has(code: Code, ty: Ty)
  {
    Occurrences(code, ReturnOf(ty)) > 0
  }

  lemma HasSeq(a: Code, b: Code, ty: Ty)
    ensures Has(Seq(a, b), ty) <==> Has(a, ty) || Has(b, ty)
  {
  }

  lemma BehindIs(e: Expr, st: TState)
    requires Trans(e, st).Ok?
    ensures Behind(e, ContextOf(st.syms)) == ContextOf(Trans(e, st).st.syms)
  {
    hide Trans, TypeExpr, ContextOf;
    TypingDecides(e, st);
  }

  /** Code returns values of the types that the source returns. */
  lemma {:induction false} CodeReturns(e: Expr, st: TState, ty: Ty)
    requires Trans(e, st).Ok?
    ensures Has(CodeOf(e, st), ty) <==> ty in Returns(e, ContextOf(st.syms))
    decreases e, 2
  {
    hide Has, ContextOf, ApplyBin, ApplyAssign, ApplyCond, Select, Behind, TypeExpr, BinCode, SelectCode, AssignCode;
    match e
    case IntLit(_) => NoReturn(ty);
    case BoolLit(_) => NoReturn(ty);
    case Var(n) => HasInstr(Load(st.em.nextReg, Reg(st.syms[n].cell)), ty);
    case Bin(op, l, r) =>
      var rl := Trans(l, st);
      var rr := Trans(r, rl.st);
      BinOk(op, rl.v, rr.v, rr.st);
      CodeReturns(l, st, ty);
      BehindIs(l, st);
      CodeReturns(r, rl.st, ty);
      BinReturns(op, rl.v.opd, rr.v.opd, rr.st.em.nextReg, ty);
      HasSeq(CodeOf(l, st), CodeOf(r, rl.st), ty);
      HasSeq(Seq(CodeOf(l, st), CodeOf(r, rl.st)), BinCode(op, rl.v.opd, rr.v.opd, rr.st.em.nextReg), ty);
    case Assign(_, _) => AssignReturns(e, st, ty);
    case Cond(c, x, y) =>
      var rc := Trans(c, st);
      var rx := Trans(x, rc.st);
      var ry := Trans(y, rx.st);
      CondOk(rc.v, rx.v, ry.v, ry.st);
      CodeReturns(c, st, ty);
      BehindIs(c, st);
      CodeReturns(x, rc.st, ty);
      BehindIs(x, rc.st);
      CodeReturns(y, rx.st, ty);
      var k := SelectCode(rc.v.opd, rx.v.opd, ry.v.opd, Scalar(rx.v.ty), ry.st.em.nextReg);
      SelectReturns(rc.v.opd, rx.v.opd, ry.v.opd, Scalar(rx.v.ty), ry.st.em.nextReg, ty);
      HasSeq(CodeOf(c, st), CodeOf(x, rc.st), ty);
      HasSeq(Seq(CodeOf(c, st), CodeOf(x, rc.st)), CodeOf(y, rx.st), ty);
      HasSeq(Seq(Seq(CodeOf(c, st), CodeOf(x, rc.st)), CodeOf(y, rx.st)), k, ty);
    case CondScope(c, _, _) =>
      var rc := Trans(c, st);
      CodeReturns(c, st, ty);
      BehindIs(c, st);
      ArmsReturn(rc.v.opd, e, rc.st, ty);
      HasSeq(CodeOf(c, st), ArmsCode(rc.v.opd, e, rc.st), ty);
    case ScopeCall(body) =>
      assert TransCall(body, st).Ok?;
      CallTable(body, st);
      AllReturn(body, CallState(st), Nothing, ty);
      HasCall(CodeOfAll(body, CallState(st), Nothing), ty);
    case Ret(e1) =>
      var r := Trans(e1, st);
      CodeReturns(e1, st, ty);
      TypingDecides(e1, st);
      HasInstr(RetVal(r.v.ty, r.v.opd), ty);
      HasSeq(CodeOf(e1, st), Instr(RetVal(r.v.ty, r.v.opd)), ty);
  }

  lemma BinOk(op: BinOp, x: TVal, y: TVal, st: TState)
    requires ApplyBin(op, x, y, st).Ok?
    ensures x.TVal? && y.TVal?
  {
  }

  lemma CondOk(c: TVal, x: TVal, y: TVal, st: TState)
    requires ApplyCond(c, x, y, st).Ok?
    ensures c.TVal? && x.TVal? && y.TVal?
  {
  }

  lemma AssignOk(lhs: LVal, place: Place, v: TVal, st: TState)
    requires ApplyAssign(lhs, place, v, st).Ok?
    ensures v.TVal? && (place.Fresh? ==> lhs.LVar?)
  {
  }

  lemma NoReturn(ty: Ty)
    ensures !Has(Skip, ty)
  {
  }

  lemma HasCall(a: Code, ty: Ty)
    ensures Has(Call(a), ty) <==> Has(a, ty)
  {
  }

  lemma HasInstr(i: Ir.Instr, ty: Ty)
    ensures Has(Instr(i), ty) <==> i.RetVal? && i.ty == ty
  {
  }

  lemma HasArms(c: Operand, a: Code, b: Code, ty: Ty)
    ensures Has(Arms(c, a, b), ty) <==> Has(a, ty) || Has(b, ty)
  {
  }

  lemma BinReturns(op: BinOp, x: Operand, y: Operand, r: nat, ty: Ty)
    ensures !Has(BinCode(op, x, y, r), ty)
  {
    hide Has;
    if IsLogic(op) {
      var i, j := Cmp(r, PNe, x, Const(I1, 0)), Cmp(r + 1, PNe, y, Const(I1, 0));
      var k := Ir.Arith(r + 2, if op == LAnd then OAnd else OOr, Reg(r), Reg(r + 1));
      HasInstr(i, ty);
      HasInstr(j, ty);
      HasInstr(k, ty);
      HasSeq(Instr(i), Instr(j), ty);
      HasSeq(Seq(Instr(i), Instr(j)), Instr(k), ty);
    } else if IsArith(op) {
      HasInstr(Ir.Arith(r, OpcodeOf(op), x, y), ty);
    } else {
      HasInstr(Cmp(r, PredOf(op), x, y), ty);
    }
  }

  lemma SelectReturns(c: Operand, x: Operand, y: Operand, cty: CellTy, d: nat, ty: Ty)
    ensures !Has(SelectCode(c, x, y, cty, d), ty)
  {
    hide Has;
    var i, j := Instr(Store(x, Reg(d))), Instr(Store(y, Reg(d)));
    HasInstr(Alloca(d, cty, Temporary), ty);
    HasInstr(Store(x, Reg(d)), ty);
    HasInstr(Store(y, Reg(d)), ty);
    HasInstr(Load(d + 1, Reg(d)), ty);
    HasArms(c, i, j, ty);
    HasSeq(Instr(Alloca(d, cty, Temporary)), Arms(c, i, j), ty);
    HasSeq(Seq(Instr(Alloca(d, cty, Temporary)), Arms(c, i, j)), Instr(Load(d + 1, Reg(d))), ty);
  }

  lemma DeclareReturns(tag: Tag, t: Ty, o: Operand, r: nat, ty: Ty)
    ensures !Has(DeclareCode(tag, t, o, r), ty)
  {
    hide Has;
    HasInstr(Alloca(r, Scalar(t), tag), ty);
    HasInstr(Store(o, Reg(r)), ty);
    HasSeq(Instr(Alloca(r, Scalar(t), tag)), Instr(Store(o, Reg(r))), ty);
  }

  lemma StoreReturns(lhs: LVal, place: Place, v: TVal, r: nat, ty: Ty)
    requires v.TVal? && (place.Fresh? ==> lhs.LVar?)
    ensures !Has(AssignCode(lhs, place, v, r), ty)
  {
    hide Has;
    match place
    case Fresh => DeclareReturns(Variable(lhs.name, lhs.mut), v.ty, v.opd, r, ty);
    case Known(s) => HasInstr(Store(v.opd, Reg(s.cell)), ty);
    case Pointed(p, _) => HasInstr(Store(v.opd, p), ty);
  }

  lemma PlaceReturns(c: TVal, a: string, b: string, st: TState, ty: Ty)
    requires ApplyCondPlace(c, a, b, st).PlaceOk?
    ensures !Has(CondPlaceCode(c, a, b, st), ty)
  {
    hide SelectCode, Select, Has;
    var r := st.em.nextReg;
    var x, y := Load(r, Reg(st.syms[a].cell)), Load(r + 1, Reg(st.syms[b].cell));
    HasInstr(x, ty);
    HasInstr(y, ty);
    HasSeq(Instr(x), Instr(y), ty);
    var k := SelectCode(c.opd, Reg(st.syms[a].cell), Reg(st.syms[b].cell), Pointer(st.syms[a].ty), r + 2);
    SelectReturns(c.opd, Reg(st.syms[a].cell), Reg(st.syms[b].cell), Pointer(st.syms[a].ty), r + 2, ty);
    HasSeq(Seq(Instr(x), Instr(y)), k, ty);
  }

  lemma {:induction false} AssignReturns(e: Expr, st: TState, ty: Ty)
    requires e.Assign? && Trans(e, st).Ok?
    ensures Has(CodeOf(e, st), ty) <==> ty in Returns(e, ContextOf(st.syms))
    decreases e, 1
  {
    hide Has, ContextOf, ApplyAssign, ApplyCondPlace, Behind, TypeExpr, AssignCode, CondPlaceCode;
    var rp := TransPlace(e.lhs, st);
    var rv := Trans(e.rhs, rp.st);
    AssignOk(e.lhs, rp.place, rv.v, rv.st);
    var k := AssignCode(e.lhs, rp.place, rv.v, rv.st.em.nextReg);
    StoreReturns(e.lhs, rp.place, rv.v, rv.st.em.nextReg, ty);
    HasSeq(PlaceCode(e.lhs, st), CodeOf(e.rhs, rp.st), ty);
    HasSeq(Seq(PlaceCode(e.lhs, st), CodeOf(e.rhs, rp.st)), k, ty);
    CodeReturns(e.rhs, rp.st, ty);
    match e.lhs
    case LVar(_, _) => NoReturn(ty);
    case LCond(c, a, b) =>
      var rc := Trans(c, st);
      CodeReturns(c, st, ty);
      BehindIs(c, st);
      PlaceTyped(rc.v, a, b, rc.st);
      PlaceReturns(rc.v, a, b, rc.st, ty);
      HasSeq(CodeOf(c, st), CondPlaceCode(rc.v, a, b, rc.st), ty);
  }

  lemma {:induction false} ArmsReturn(c: Operand, e: Expr, st: TState, ty: Ty)
    requires e.CondScope? && TransArms(c, e, st).Ok?
    ensures var ctx := ContextOf(st.syms);
      Has(ArmsCode(c, e, st), ty) <==> ty in ReturnsAll(e.thenBody, ctx) + ReturnsAll(e.elseBody, ctx)
    decreases e, 1
  {
    hide ContextOf, HasTerminator;
    AllReturn(e.thenBody, ThenState(st), Nothing, ty);
    var r1 := TransAll(e.thenBody, ThenState(st), Nothing);
    AllReturn(e.elseBody, ElseState(st, r1.st.em), Nothing, ty);
  }

  lemma {:induction false} AllReturn(es: seq<Expr>, st: TState, last: TVal, ty: Ty)
    requires TransAll(es, st, last).Ok?
    ensures Has(CodeOfAll(es, st, last), ty) <==> ty in ReturnsAll(es, ContextOf(st.syms))
    decreases es, 0
  {
    hide ContextOf, Has, Behind;
    if es == [] {
      NoReturn(ty);
    } else {
      var r := Trans(es[0], st);
      CodeReturns(es[0], st, ty);
      BehindIs(es[0], st);
      AllReturn(es[1..], r.st, r.v, ty);
      HasSeq(CodeOf(es[0], st), CodeOfAll(es[1..], r.st, r.v), ty);
    }
  }

  // ------------------------------------------------------------ the function

  /** The parameters in scope; a later one of the same name hides an earlier one. */
  function ParamContext(params: seq<Parameter>, args: seq<Argument>): Context
    requires |params| == |args|
  {
    if params == [] then map[]
    else
      var n := |params| - 1;
      ParamContext(params[..n], args[..n])[params[n].name := Sort(args[n].ty, args[n].isConst)]
  }

  datatype Verdict = Accepts(ret: ReturnTy) | Rejects(error: Error)

  function Judge(lit: FunctionLit, args: seq<Argument>): Verdict
  {
    if |lit.params| != |args| then Rejects(ArgumentCount) else
    var bad := FirstMismatch(lit.params, args, 0);
    if bad.Some? then Rejects(ArgumentType(bad.value)) else
    var ctx := ParamContext(lit.params, args);
    var r := TypeAll(lit.body, ctx, None);
    if r.Refused? then Rejects(r.error) else
    var types := ReturnsAll(lit.body, ctx);
    if I1 in types && I32 in types then Rejects(MixedReturnTypes) else
    var ret := if I1 in types then ValueTy(I1) else if I32 in types then ValueTy(I32) else VoidTy;
    if lit.declared.Some? && lit.declared.value != ret then Rejects(ReturnType) else Accepts(ret)
  }

  lemma {:induction false} ParamsTyped(params: seq<Parameter>, args: seq<Argument>, k: nat, st: TState)
    requires |params| == |args| && k <= |args| && ContextOf(st.syms) == ParamContext(params[..k], args[..k])
    ensures ContextOf(DeclareParams(params, args, k, true, st).syms) == ParamContext(params, args)
    decreases |args| - k
  {
    if k == |args| {
      assert params[..k] == params && args[..k] == args;
    } else {
      var d := Declared(params[k].name, Ir.Argument(params[k].name), args[k].isConst, args[k].ty, Param(k), st);
      assert params[..k + 1][..k] == params[..k] && args[..k + 1][..k] == args[..k];
      DeclaredTyped(params[k].name, Ir.Argument(params[k].name), args[k].isConst, args[k].ty, Param(k), st);
      ParamsTyped(params, args, k + 1, d);
    }
  }

  lemma DeclaredTyped(name: string, tag: Tag, isConst: bool, ty: Ty, o: Operand, st: TState)
    ensures ContextOf(Declared(name, tag, isConst, ty, o, st).syms) == ContextOf(st.syms)[name := Sort(ty, isConst)]
  {
  }

  lemma PrologueTyped(params: seq<Parameter>, args: seq<Argument>)
    requires |params| == |args|
    ensures ContextOf(Prologue(params, args, true).syms) == ParamContext(params, args)
  {
    assert params[..0] == [] && args[..0] == [];
    ParamsTyped(params, args, 0, SelfCell(true));
  }

  lemma {:induction false} ParamsReturn(params: seq<Parameter>, args: seq<Argument>, k: nat, r: nat, ty: Ty)
    requires |params| == |args| && k <= |args|
    ensures !Has(Functions.ParamsCode(params, args, k, r), ty)
    decreases |args| - k
  {
    hide Has;
    if k == |args| {
      NoReturn(ty);
    } else {
      var tag := Ir.Argument(params[k].name);
      DeclareReturns(tag, args[k].ty, Param(k), r, ty);
      ParamsReturn(params, args, k + 1, r + 1, ty);
      HasSeq(DeclareCode(tag, args[k].ty, Param(k), r), Functions.ParamsCode(params, args, k + 1, r + 1), ty);
    }
  }

  lemma PrologueReturns(params: seq<Parameter>, args: seq<Argument>, ty: Ty)
    requires |params| == |args|
    ensures !Has(Functions.PrologueCode(params, args), ty)
  {
    hide Has, Functions.ParamsCode;
    var i, j := Alloca(0, FunctionPointer, Self), Store(ThisFunction, Reg(0));
    HasInstr(i, ty);
    HasInstr(j, ty);
    HasSeq(Instr(i), Instr(j), ty);
    ParamsReturn(params, args, 0, 1, ty);
    HasSeq(Functions.SELF_CODE, Functions.ParamsCode(params, args, 0, 1), ty);
  }

  /** The blocks of an accepted body return values of the types that the source returns. */
  lemma BodyReturns(lit: FunctionLit, args: seq<Argument>)
    requires |lit.params| == |args| && TransAll(lit.body, Prologue(lit.params, args, true), Nothing).Ok?
    ensures var em := TransAll(lit.body, Prologue(lit.params, args, true), Nothing).st.em;
      forall ty :: ty in ReturnTypes(em.blocks) <==> ty in ReturnsAll(lit.body, ParamContext(lit.params, args))
  {
    var p := Prologue(lit.params, args, true);
    var a := Functions.PrologueCode(lit.params, args);
    var b := CodeOfAll(lit.body, p, Nothing);
    var em := TransAll(lit.body, p, Nothing).st.em;
    forall ty: Ty
      ensures ty in ReturnTypes(em.blocks) <==> ty in ReturnsAll(lit.body, ParamContext(lit.params, args))
    {
      hide TransAll, Prologue, CodeOfAll, Lay, Functions.PrologueCode, ReturnTypes, Sites, Has;
      Functions.LayPrologue(lit.params, args);
      Functions.BlankValid();
      LayGrows(a, Functions.BLANK);
      LayAll(lit.body, p, Nothing);
      LaySites(a, Functions.BLANK, ReturnOf(ty));
      LaySites(b, p.em, ReturnOf(ty));
      PrologueReturns(lit.params, args, ty);
      PrologueTyped(lit.params, args);
      AllReturn(lit.body, p, Nothing, ty);
      SomeSite(em.blocks, ty);
      Counted(a, b, ty);
    }
  }

  lemma Counted(a: Code, b: Code, ty: Ty)
    ensures Has(a, ty) <==> Occurrences(a, ReturnOf(ty)) > 0
    ensures Has(b, ty) <==> Occurrences(b, ReturnOf(ty)) > 0
  {
  }

  lemma SomeSite(bs: Blocks, ty: Ty)
    ensures ty in ReturnTypes(bs) <==> |Sites(bs, ReturnOf(ty))| > 0
  {
    if ty in ReturnTypes(bs) {
      var b, k :| b in bs && 0 <= k < |bs[b]| && bs[b][k].RetVal? && bs[b][k].ty == ty;
      SitesMember(bs, ReturnOf(ty), b, k);
    }
    if Sites(bs, ReturnOf(ty)) != {} {
      var p :| p in Sites(bs, ReturnOf(ty));
      assert bs[p.0][p.1].RetVal? && bs[p.0][p.1].ty == ty;
    }
  }

  /** The discarded pass comes to the verdict of the rules. */
  lemma SurveyJudges(lit: FunctionLit, args: seq<Argument>)
    requires |lit.params| == |args| && FirstMismatch(lit.params, args, 0).None?
    ensures match Evaluation.Survey(lit, args)
            case Emitted(fn) => Judge(lit, args) == Accepts(fn.ret) && fn.params == Types(args)
            case Rejected(e) => Judge(lit, args) == Rejects(e)
  {
    hide TransAll, TypeAll, Prologue, ReturnTypes, ReturnsAll, ParamContext, FirstMismatch, ScanOf;
    Survey.SurveyAgrees(lit, args);
    BodyTyped(lit, args);
    var r := TransAll(lit.body, Prologue(lit.params, args, true), Nothing);
    if r.Ok? {
      BodyReturns(lit, args);
      Scanned(ReturnTypes(r.st.em.blocks));
    }
  }

  lemma BodyTyped(lit: FunctionLit, args: seq<Argument>)
    requires |lit.params| == |args|
    ensures var r := TransAll(lit.body, Prologue(lit.params, args, true), Nothing);
      match TypeAll(lit.body, ParamContext(lit.params, args), None)
      case Typed(_, _) => r.Ok?
      case Refused(e) => r == Err(e)
  {
    hide TransAll, TypeAll, Prologue, ParamContext;
    PrologueTyped(lit.params, args);
    AllTyped(lit.body, Prologue(lit.params, args, true), Nothing);
  }

  /** A function literal is emitted for some arguments exactly if the rules accept it, with the return type
      they give and one parameter per argument, of the argument's type; otherwise it is rejected with the
      error they give. */
  lemma VerdictExactly(lit: FunctionLit, args: seq<Argument>)
    ensures match Evaluate(lit, args)
            case Emitted(fn) =>
              && Judge(lit, args) == Accepts(fn.ret)
              && |fn.params| == |args| && forall k :: 0 <= k < |args| ==> fn.params[k] == args[k].ty
            case Rejected(e) => Judge(lit, args) == Rejects(e)
  {
    if |lit.params| == |args| && FirstMismatch(lit.params, args, 0).None? {
      hide Judge, Evaluation.Survey, TransAll, Prologue;
      SurveyJudges(lit, args);
      Survey.SurveyAgrees(lit, args);
      Surveyed(lit, args);
    }
  }

  lemma Surveyed(lit: FunctionLit, args: seq<Argument>)
    requires |lit.params| == |args|
    ensures Evaluation.Survey(lit, args).Emitted? ==> TransAll(lit.body, Prologue(lit.params, args, false), Nothing).Ok?
  {
    hide TransAll, Prologue;
  }

  lemma Scanned(types: set<Ty>)
    ensures match ScanOf(types)
            case NoReturn => I1 !in types && I32 !in types
            case OneType(t) => t in types && (if t == I1 then I32 !in types else I1 !in types)
            case Mixed => I1 in types && I32 in types
  {
    Survey.ScanCases(types);
  }
}
