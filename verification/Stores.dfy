/** Cells of variables declared without #mut receive exactly one store. */
module Stores {
  import opened Words
  import opened Ast
  import opened Ir
  import opened Emitter
  import opened Translation
  import opened Evaluation
  import opened Growth
  import opened Structure
  import opened Positions
  import opened Wellformedness
  import opened Functions
  import opened Immutability
  import Scoping
  import Correctness

  /** Register r is at most the cell of read-only variables. */
  predicate Protected(t: Table, r: nat)
  {
    forall n :: n in t && t[n].cell == r ==> t[n].isConst
  }

  function Writes(code: Code, r: nat): nat
  {
    Occurrences(code, StoreTo(Reg(r)))
  }

  function Frozen(code: Code, r: nat): nat
  {
    Occurrences(code, ReadOnlyCell(r))
  }

  /** Code that takes table t and free register m to table t' and free register n respects cell r:
      it writes r once if it allocates it for a read-only variable, and not at all if r was
      protected before. */
  predicate Respects(code: Code, t: Table, t': Table, m: nat, n: nat, r: nat)
  {
    && m <= n
    && (r >= n ==> Writes(code, r) == 0 && Frozen(code, r) == 0)
    && (r < m ==> Frozen(code, r) == 0)
    && (r < m && Protected(t, r) ==> Writes(code, r) == 0 && Protected(t', r))
    && (Frozen(code, r) > 0 ==> Writes(code, r) == 1 && Protected(t', r))
  }

  predicate Below(t: Table, m: nat)
  {
    forall n :: n in t ==> t[n].cell < m
  }

  lemma RespectsSeq(a: Code, b: Code, t0: Table, t1: Table, t2: Table, l: nat, m: nat, n: nat, r: nat)
    requires Respects(a, t0, t1, l, m, r) && Respects(b, t1, t2, m, n, r)
    ensures Respects(Seq(a, b), t0, t2, l, n, r)
  {
    hide Protected;
    CountSeq(a, b, StoreTo(Reg(r)));
    CountSeq(a, b, ReadOnlyCell(r));
  }

  lemma CountSeq(a: Code, b: Code, kind: Kind)
    ensures Occurrences(Seq(a, b), kind) == Occurrences(a, kind) + Occurrences(b, kind)
  {
  }

  lemma RespectsArms(c: Operand, a: Code, b: Code, t: Table, ta: Table, tb: Table, l: nat, m: nat, n: nat, r: nat)
    requires Below(t, l) && Respects(a, t, ta, l, m, r) && Respects(b, t, tb, m, n, r)
    ensures Respects(Arms(c, a, b), t, t, l, n, r)
  {
    assert r >= l ==> Protected(t, r);
    hide Protected;
    CountArms(c, a, b, StoreTo(Reg(r)));
    CountArms(c, a, b, ReadOnlyCell(r));
  }

  lemma CountArms(c: Operand, a: Code, b: Code, kind: Kind)
    ensures Occurrences(Arms(c, a, b), kind) == Occurrences(a, kind) + Occurrences(b, kind)
  {
  }

  lemma RespectsCall(a: Code, t: Table, t': Table, l: nat, m: nat, r: nat)
    requires Below(t, l) && Respects(a, t, t', l, m, r)
    ensures Respects(Call(a), t, t, l, m, r)
  {
    assert r >= l ==> Protected(t, r);
    hide Protected;
  }

  /** Instructions that are neither stores nor allocations for variables. */
  predicate Neutral(i: Ir.Instr)
  {
    !i.Store? && (i.Alloca? ==> !i.tag.Variable?)
  }

  lemma RespectsNeutral(i: Ir.Instr, t: Table, m: nat, n: nat, r: nat)
    requires Neutral(i) && m <= n
    ensures Respects(Instr(i), t, t, m, n, r)
  {
  }

  lemma RespectsSkip(t: Table, m: nat, r: nat)
    ensures Respects(Skip, t, t, m, m, r)
  {
  }

  lemma RespectsBin(op: BinOp, x: Operand, y: Operand, t: Table, m: nat, r: nat)
    ensures Respects(BinCode(op, x, y, m), t, t, m, Next(BinCode(op, x, y, m), m), r)
  {
    if IsLogic(op) {
      var i1, i2 := Cmp(m, PNe, x, Const(I1, 0)), Cmp(m + 1, PNe, y, Const(I1, 0));
      var i3 := Ir.Arith(m + 2, if op == LAnd then OAnd else OOr, Reg(m), Reg(m + 1));
      BinNext(op, x, y, m);
      hide Respects, Next;
      RespectsNeutral(i1, t, m, m + 1, r);
      RespectsNeutral(i2, t, m + 1, m + 2, r);
      RespectsNeutral(i3, t, m + 2, m + 3, r);
      RespectsSeq(Instr(i1), Instr(i2), t, t, t, m, m + 1, m + 2, r);
      RespectsSeq(Seq(Instr(i1), Instr(i2)), Instr(i3), t, t, t, m, m + 2, m + 3, r);
    } else {
      BinNext(op, x, y, m);
    }
  }

  lemma BinNext(op: BinOp, x: Operand, y: Operand, m: nat)
    ensures Next(BinCode(op, x, y, m), m) == if IsLogic(op) then m + 3 else m + 1
  {
    if IsLogic(op) {
      var i1, i2 := Cmp(m, PNe, x, Const(I1, 0)), Cmp(m + 1, PNe, y, Const(I1, 0));
      var i3 := Ir.Arith(m + 2, if op == LAnd then OAnd else OOr, Reg(m), Reg(m + 1));
      assert m in Defs(i1) && m + 1 in Defs(i2) && m + 2 in Defs(i3);
      assert Next(Seq(Instr(i1), Instr(i2)), m) == m + 2;
    } else if IsArith(op) {
      assert m in Defs(Ir.Arith(m, OpcodeOf(op), x, y));
    } else {
      assert m in Defs(Cmp(m, PredOf(op), x, y));
    }
  }

  /** The temporary of a choice is not a variable's cell. */
  lemma RespectsSelect(c: Operand, x: Operand, y: Operand, cty: CellTy, d: nat, t: Table, r: nat)
    requires Below(t, d)
    ensures Respects(SelectCode(c, x, y, cty, d), t, t, d, d + 2, r)
  {
    var i, j := Alloca(d, cty, Temporary), Load(d + 1, Reg(d));
    var arms := Arms(c, Instr(Store(x, Reg(d))), Instr(Store(y, Reg(d))));
    CountArms(c, Instr(Store(x, Reg(d))), Instr(Store(y, Reg(d))), StoreTo(Reg(r)));
    CountArms(c, Instr(Store(x, Reg(d))), Instr(Store(y, Reg(d))), ReadOnlyCell(r));
    CountSeq(Instr(i), arms, StoreTo(Reg(r)));
    CountSeq(Instr(i), arms, ReadOnlyCell(r));
    CountSeq(Seq(Instr(i), arms), Instr(j), StoreTo(Reg(r)));
    CountSeq(Seq(Instr(i), arms), Instr(j), ReadOnlyCell(r));
  }

  /** A declaration: the first store is the only one a read-only cell gets. */
  lemma RespectsDeclare(name: string, mut: bool, ty: Ty, o: Operand, t: Table, m: nat, r: nat)
    requires Below(t, m)
    ensures Respects(DeclareCode(Variable(name, mut), ty, o, m), t, t[name := Symbol(m, ty, !mut)], m, m + 1, r)
  {
    var i, j := Alloca(m, Scalar(ty), Variable(name, mut)), Store(o, Reg(m));
    CountSeq(Instr(i), Instr(j), StoreTo(Reg(r)));
    CountSeq(Instr(i), Instr(j), ReadOnlyCell(r));
  }

  /** An assignment to a variable that was assignable before its right-hand side was translated. */
  lemma RespectsStore(a: Code, o: Operand, name: string, t: Table, t': Table, m: nat, n: nat, r: nat, ty: Ty,
                      isConst: bool)
    requires Respects(a, t, t', m, n, r) && Below(t, m)
    requires name in t && !t[name].isConst
    ensures Respects(Seq(a, Instr(Store(o, Reg(t[name].cell)))), t, t'[name := Symbol(t[name].cell, ty, isConst)], m,
      n, r)
  {
    var s := Store(o, Reg(t[name].cell));
    CountSeq(a, Instr(s), StoreTo(Reg(r)));
    CountSeq(a, Instr(s), ReadOnlyCell(r));
  }

  // -------------------------------------------------------------- induction

  lemma TransBelow(e: Expr, st: TState)
    requires Valid(st) && Trans(e, st).Ok?
    ensures Valid(Trans(e, st).st) && Below(Trans(e, st).st.syms, Trans(e, st).st.em.nextReg)
  {
    hide Trans;
    TransAdvances(e, st);
  }

  lemma ValidBelow(st: TState)
    requires Valid(st)
    ensures Below(st.syms, st.em.nextReg)
  {
  }

  lemma {:induction false} RespectsTrans(e: Expr, st: TState, r: nat)
    requires Valid(st) && Trans(e, st).Ok? && Direct(e)
    ensures Respects(CodeOf(e, st), st.syms, Trans(e, st).st.syms, st.em.nextReg, Trans(e, st).st.em.nextReg, r)
    decreases e, 2
  {
    hide ApplyBin, ApplyAssign, ApplyCond, BinCode, AssignCode, SelectCode, Respects, Next, Valid;
    match e
    case IntLit(_) => RespectsSkip(st.syms, st.em.nextReg, r);
    case BoolLit(_) => RespectsSkip(st.syms, st.em.nextReg, r);
    case Var(name) =>
      RespectsNeutral(Load(st.em.nextReg, Reg(st.syms[name].cell)), st.syms, st.em.nextReg, st.em.nextReg + 1, r);
    case Bin(op, l, rt) => RespectsBinExpr(e, st, r);
    case Assign(_, _) => RespectsAssignExpr(e, st, r);
    case Cond(_, _, _) => RespectsCondExpr(e, st, r);
    case CondScope(_, _, _) => RespectsCondScope(e, st, r);
    case ScopeCall(body) => RespectsScopeCall(e, st, r);
    case Ret(e1) =>
      var r1 := Trans(e1, st);
      RespectsTrans(e1, st, r);
      RespectsNeutral(RetVal(r1.v.ty, r1.v.opd), r1.st.syms, r1.st.em.nextReg, r1.st.em.nextReg, r);
      RespectsSeq(CodeOf(e1, st), Instr(RetVal(r1.v.ty, r1.v.opd)), st.syms, r1.st.syms, r1.st.syms,
                  st.em.nextReg, r1.st.em.nextReg, r1.st.em.nextReg, r);
  }

  lemma {:induction false} RespectsBinExpr(e: Expr, st: TState, r: nat)
    requires Valid(st) && e.Bin? && Trans(e, st).Ok? && Direct(e)
    ensures Respects(CodeOf(e, st), st.syms, Trans(e, st).st.syms, st.em.nextReg, Trans(e, st).st.em.nextReg, r)
    decreases e, 1
  {
    hide ApplyBin, BinCode, Respects, Next, Valid;
    var r1 := Trans(e.l, st);
    var r2 := Trans(e.r, r1.st);
    assert Trans(e, st) == ApplyBin(e.op, r1.v, r2.v, r2.st);
    BinOperands(e.op, r1.v, r2.v, r2.st);
    var a, b, c := CodeOf(e.l, st), CodeOf(e.r, r1.st), BinCode(e.op, r1.v.opd, r2.v.opd, r2.st.em.nextReg);
    assert CodeOf(e, st) == Seq(Seq(a, b), c);
    RespectsTrans(e.l, st, r);
    TransBelow(e.l, st);
    RespectsTrans(e.r, r1.st, r);
    BinAfter(e.op, r1.v, r2.v, r2.st);
    RespectsBin(e.op, r1.v.opd, r2.v.opd, r2.st.syms, r2.st.em.nextReg, r);
    var m, n := r1.st.em.nextReg, r2.st.em.nextReg;
    RespectsSeq(a, b, st.syms, r1.st.syms, r2.st.syms, st.em.nextReg, m, n, r);
    RespectsSeq(Seq(a, b), c, st.syms, r2.st.syms, r2.st.syms, st.em.nextReg, n, Trans(e, st).st.em.nextReg, r);
  }

  lemma BinAfter(op: BinOp, x: TVal, y: TVal, st: TState)
    requires ApplyBin(op, x, y, st).Ok? && x.TVal? && y.TVal?
    ensures ApplyBin(op, x, y, st).st.syms == st.syms
    ensures ApplyBin(op, x, y, st).st.em.nextReg == Next(BinCode(op, x.opd, y.opd, st.em.nextReg), st.em.nextReg)
  {
    BinNext(op, x.opd, y.opd, st.em.nextReg);
    hide Emit.Append;
  }

  lemma {:induction false} RespectsAssignExpr(e: Expr, st: TState, r: nat)
    requires Valid(st) && e.Assign? && Trans(e, st).Ok? && Direct(e)
    ensures Respects(CodeOf(e, st), st.syms, Trans(e, st).st.syms, st.em.nextReg, Trans(e, st).st.em.nextReg, r)
    decreases e, 1
  {
    hide Respects, Next, Valid;
    var name := e.lhs.name;
    var rv := Trans(e.rhs, st);
    var b := CodeOf(e.rhs, st);
    ValidBelow(st);
    RespectsTrans(e.rhs, st, r);
    TransBelow(e.rhs, st);
    var l, m := st.em.nextReg, rv.st.em.nextReg;
    RespectsSkip(st.syms, l, r);
    RespectsSeq(Skip, b, st.syms, st.syms, rv.st.syms, l, l, m, r);
    if name in st.syms {
      var s := st.syms[name];
      RespectsStore(Seq(Skip, b), rv.v.opd, name, st.syms, rv.st.syms, l, m, r, rv.v.ty, rv.v.isConst);
      assert CodeOf(e, st) == Seq(Seq(Skip, b), Instr(Store(rv.v.opd, Reg(s.cell))));
    } else {
      var c := DeclareCode(Variable(name, e.lhs.mut), rv.v.ty, rv.v.opd, m);
      RespectsDeclare(name, e.lhs.mut, rv.v.ty, rv.v.opd, rv.st.syms, m, r);
      assert CodeOf(e, st) == Seq(Seq(Skip, b), c);
      DeclaredRegister(name, Variable(name, e.lhs.mut), !e.lhs.mut, rv.v.ty, rv.v.opd, rv.st);
      RespectsSeq(Seq(Skip, b), c, st.syms, rv.st.syms, rv.st.syms[name := Symbol(m, rv.v.ty, !e.lhs.mut)], l, m,
        m + 1, r);
    }
  }

  lemma {:induction false} RespectsCondExpr(e: Expr, st: TState, r: nat)
    requires Valid(st) && e.Cond? && Trans(e, st).Ok? && Direct(e)
    ensures Respects(CodeOf(e, st), st.syms, Trans(e, st).st.syms, st.em.nextReg, Trans(e, st).st.em.nextReg, r)
    decreases e, 1
  {
    hide ApplyCond, SelectCode, Respects, Next, Valid, Below, Select;
    var rc := Trans(e.cond, st);
    var rx := Trans(e.thn, rc.st);
    var ry := Trans(e.els, rx.st);
    assert Trans(e, st) == ApplyCond(rc.v, rx.v, ry.v, ry.st);
    CondOperands(rc.v, rx.v, ry.v, ry.st);
    Scoping.CondResult(rc.v, rx.v, ry.v, ry.st);
    var l, m, n, o := st.em.nextReg, rc.st.em.nextReg, rx.st.em.nextReg, ry.st.em.nextReg;
    SelectNextReg(rc.v.opd, rx.v.opd, ry.v.opd, Scalar(rx.v.ty), ry.st.em);
    var a, b, c := CodeOf(e.cond, st), CodeOf(e.thn, rc.st), CodeOf(e.els, rx.st);
    var d := SelectCode(rc.v.opd, rx.v.opd, ry.v.opd, Scalar(rx.v.ty), o);
    assert CodeOf(e, st) == Seq(Seq(Seq(a, b), c), d);
    RespectsTrans(e.cond, st, r);
    TransBelow(e.cond, st);
    RespectsTrans(e.thn, rc.st, r);
    TransBelow(e.thn, rc.st);
    RespectsTrans(e.els, rx.st, r);
    TransBelow(e.els, rx.st);
    RespectsSelect(rc.v.opd, rx.v.opd, ry.v.opd, Scalar(rx.v.ty), o, ry.st.syms, r);
    RespectsSeq(a, b, st.syms, rc.st.syms, rx.st.syms, l, m, n, r);
    RespectsSeq(Seq(a, b), c, st.syms, rx.st.syms, ry.st.syms, l, n, o, r);
    RespectsSeq(Seq(Seq(a, b), c), d, st.syms, ry.st.syms, ry.st.syms, l, o, o + 2, r);
  }

  lemma {:induction false} RespectsCondScope(e: Expr, st: TState, r: nat)
    requires Valid(st) && e.CondScope? && Trans(e, st).Ok? && Direct(e)
    ensures Respects(CodeOf(e, st), st.syms, Trans(e, st).st.syms, st.em.nextReg, Trans(e, st).st.em.nextReg, r)
    decreases e, 1
  {
    hide ArmsCode, TransArms, Respects, Valid;
    var rc := Trans(e.cond, st);
    var s := rc.st;
    RespectsTrans(e.cond, st, r);
    TransBelow(e.cond, st);
    RespectsArmsCode(rc.v.opd, e, s, r);
    RespectsSeq(CodeOf(e.cond, st), ArmsCode(rc.v.opd, e, s), st.syms, s.syms, s.syms, st.em.nextReg, s.em.nextReg,
                TransArms(rc.v.opd, e, s).st.em.nextReg, r);
  }

  lemma {:induction false} RespectsArmsCode(c: Operand, e: Expr, st: TState, r: nat)
    requires Valid(st) && e.CondScope? && TransArms(c, e, st).Ok? && DirectAll(e.thenBody) && DirectAll(e.elseBody)
    ensures TransArms(c, e, st).st.syms == st.syms
    ensures Respects(ArmsCode(c, e, st), st.syms, st.syms, st.em.nextReg, TransArms(c, e, st).st.em.nextReg, r)
    decreases e, 0
  {
    hide JoinArms, Respects, HasTerminator;
    var r1 := TransAll(e.thenBody, ThenState(st), Nothing);
    var s1 := ElseState(st, r1.st.em);
    Scoping.ArmSymbols(st, r1.st.em);
    ArmRegisters(st, r1.st.em);
    ThenBeside(st);
    AllAdvances(e.thenBody, ThenState(st), Nothing);
    ElseBeside(st, r1.st.em);
    ValidBelow(st);
    hide ThenState, ElseState, Valid, Grows, Beside;
    RespectsAll(e.thenBody, ThenState(st), Nothing, r);
    RespectsAll(e.elseBody, s1, Nothing, r);
    var r2 := TransAll(e.elseBody, s1, Nothing);
    Scoping.JoinSymbols(c, st);
    JoinRegisters(c, st, r1.st.em.FallsThrough() || r2.st.em.FallsThrough(), r2.st.em);
    var a, b := CodeOfAll(e.thenBody, ThenState(st), Nothing), CodeOfAll(e.elseBody, s1, Nothing);
    assert ArmsCode(c, e, st) == Arms(c, a, b);
    RespectsArms(c, a, b, st.syms, r1.st.syms, r2.st.syms, st.em.nextReg, r1.st.em.nextReg, r2.st.em.nextReg, r);
  }

  lemma JoinRegisters(c: Operand, st: TState, keep: bool, em2: Emit)
    ensures JoinArms(c, st, keep, em2).em.nextReg == em2.nextReg
    ensures EndCall(st, em2).em.nextReg == em2.nextReg && EndCall(st, em2).syms == st.syms
  {
    hide HasTerminator, BodyOf;
  }

  lemma {:induction false} RespectsScopeCall(e: Expr, st: TState, r: nat)
    requires Valid(st) && e.ScopeCall? && Trans(e, st).Ok? && Direct(e)
    ensures Respects(CodeOf(e, st), st.syms, Trans(e, st).st.syms, st.em.nextReg, Trans(e, st).st.em.nextReg, r)
    decreases e, 1
  {
    hide Respects, HasTerminator, EndCall;
    assert TransCall(e.body, st).Ok?;
    var r1 := TransAll(e.body, CallState(st), Nothing);
    Scoping.ArmSymbols(st, st.em);
    CallRegisters(st);
    CallBeside(st);
    ValidBelow(st);
    JoinRegisters(ThisFunction, st, true, r1.st.em);
    hide CallState, Valid, Beside;
    RespectsAll(e.body, CallState(st), Nothing, r);
    RespectsCall(CodeOfAll(e.body, CallState(st), Nothing), st.syms, r1.st.syms, st.em.nextReg, r1.st.em.nextReg, r);
  }

  lemma CallRegisters(st: TState)
    ensures CallState(st).em.nextReg == st.em.nextReg
  {
  }

  lemma {:induction false} RespectsAll(es: seq<Expr>, st: TState, last: TVal, r: nat)
    requires Valid(st) && TransAll(es, st, last).Ok? && DirectAll(es)
    ensures var s := TransAll(es, st, last).st;
      Respects(CodeOfAll(es, st, last), st.syms, s.syms, st.em.nextReg, s.em.nextReg, r)
    decreases es, 0
  {
    hide Trans, CodeOf, Valid, Respects;
    if es == [] {
      RespectsSkip(st.syms, st.em.nextReg, r);
    } else {
      var r1 := Trans(es[0], st);
      RespectsTrans(es[0], st, r);
      TransBelow(es[0], st);
      RespectsAll(es[1..], r1.st, r1.v, r);
      var s := TransAll(es, st, last).st;
      RespectsSeq(CodeOf(es[0], st), CodeOfAll(es[1..], r1.st, r1.v), st.syms, r1.st.syms, s.syms,
                  st.em.nextReg, r1.st.em.nextReg, s.em.nextReg, r);
    }
  }

  // -------------------------------------------------------------- functions

  lemma {:induction false} ParamsFrozen(params: seq<Parameter>, args: seq<Argument>, k: nat, m: nat, r: nat)
    requires |params| == |args| && k <= |args|
    ensures Frozen(ParamsCode(params, args, k, m), r) == 0
    ensures r >= Next(ParamsCode(params, args, k, m), m) ==> Writes(ParamsCode(params, args, k, m), r) == 0
    decreases |args| - k
  {
    if k < |args| {
      var a := DeclareCode(Ir.Argument(params[k].name), args[k].ty, Param(k), m);
      var b := ParamsCode(params, args, k + 1, m + 1);
      ParamsFrozen(params, args, k + 1, m + 1, r);
      CountSeq(a, b, StoreTo(Reg(r)));
      CountSeq(a, b, ReadOnlyCell(r));
      assert Next(a, m) == m + 1;
      NextGrows(b, m + 1);
    }
  }

  lemma PrologueFrozen(params: seq<Parameter>, args: seq<Argument>, r: nat)
    requires |params| == |args|
    ensures Frozen(PrologueCode(params, args), r) == 0
    ensures r >= Next(PrologueCode(params, args), 0) ==> Writes(PrologueCode(params, args), r) == 0
  {
    var b := ParamsCode(params, args, 0, 1);
    ParamsFrozen(params, args, 0, 1, r);
    SelfRegular();
    NextGrows(b, 1);
    CountSeq(SELF_CODE, b, StoreTo(Reg(r)));
    CountSeq(SELF_CODE, b, ReadOnlyCell(r));
    assert Frozen(SELF_CODE, r) == 0 && (r >= 1 ==> Writes(SELF_CODE, r) == 0);
    hide ParamsCode;
  }

  /** In a function whose assignments all name their variable, every stack cell allocated for a
      variable declared without #mut receives exactly one store. */
  lemma ReadOnlyStoredOnce(lit: FunctionLit, args: seq<Argument>, r: nat)
    requires Evaluate(lit, args).Emitted? && DirectAll(lit.body)
    requires Sites(Evaluate(lit, args).fn.blocks, ReadOnlyCell(r)) != {}
    ensures |Sites(Evaluate(lit, args).fn.blocks, StoreTo(Reg(r)))| == 1
  {
    FunctionParts(lit, args);
    Correctness.BodyWithin(lit, args);
    hide Evaluate, Lay, Sites, Occurrences, Prologue, TransAll, CodeOfAll, PrologueCode, Next, DirectAll, Valid,
         Protected;
    var p := Prologue(lit.params, args, true);
    var a, b := PrologueCode(lit.params, args), CodeOfAll(lit.body, p, Nothing);
    var end := if Evaluate(lit, args).fn.ret.VoidTy? then Instr(RetVoid) else Skip;
    LayFunction(lit, args);
    BlankValid();
    PrologueRegisters(lit.params, args);
    PrologueFrozen(lit.params, args, r);
    RespectsAll(lit.body, p, Nothing, r);
    CountFunction(a, b, end, StoreTo(Reg(r)));
    CountFunction(a, b, end, ReadOnlyCell(r));
    LaySites(FunctionCode(lit, args), BLANK, StoreTo(Reg(r)));
    LaySites(FunctionCode(lit, args), BLANK, ReadOnlyCell(r));
  }

  lemma CountFunction(a: Code, b: Code, end: Code, kind: Kind)
    requires (end == Skip || end == Instr(RetVoid)) && !kind.ValueReturn?
    ensures Occurrences(Seq(Seq(a, b), end), kind) == Occurrences(a, kind) + Occurrences(b, kind)
  {
    CountSeq(a, b, kind);
    CountSeq(Seq(a, b), end, kind);
  }
}
