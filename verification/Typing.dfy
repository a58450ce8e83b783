/** Which bodies are accepted, and with which error the others are refused: typing rules over the types and
    read-only flags of the variables in scope, without the translator. */
module Typing {
  import opened Words
  import opened Ast
  import opened Ir
  import opened Emitter
  import opened Translation

  /** What is known of a variable or a value. */
  datatype Sort = Sort(ty: Ty, readOnly: bool)

  type Context = map<string, Sort>

  /** The context behind an expression and the sort of its value, None being void; or the first error. */
  datatype Typed = Typed(ctx: Context, sort: Option<Sort>) | Refused(error: Error)

  // -------------------------------------------------------------- the rules

  function TypeExpr(e: Expr, ctx: Context): Typed
    decreases e, 1
  {
    match e
    case IntLit(_) => Typed(ctx, Some(Sort(I32, false)))
    case BoolLit(_) => Typed(ctx, Some(Sort(I1, false)))
    case Var(n) => if n in ctx then Typed(ctx, Some(ctx[n])) else Refused(NotDeclared(n))
    case Bin(op, l, r) =>
      var x := TypeExpr(l, ctx);
      if x.Refused? then x else
      var y := TypeExpr(r, x.ctx);
      if y.Refused? then y
      else if x.sort.None? || y.sort.None? then Refused(VoidOperand)
      else if x.sort.value.ty != y.sort.value.ty then Refused(OperandTypes)
      else if (op == LAnd || op == LOr) && x.sort.value.ty == I32 then Refused(OperandTypes)
      else Typed(y.ctx, Some(Sort(if Compares(op) then I1 else x.sort.value.ty, false)))
    case Assign(LVar(n, mut), rhs) =>
      var v := TypeExpr(rhs, ctx);
      if v.Refused? then v
      else if v.sort.None? then Refused(AssignVoid)
      else if n !in ctx then
        var k := Sort(v.sort.value.ty, !mut);
        Typed(v.ctx[n := k], Some(k))
      else if ctx[n].readOnly then Refused(ReadOnly)
      else if ctx[n].ty != v.sort.value.ty then Refused(Incompatible)
      else Typed(v.ctx[n := v.sort.value], v.sort)
    case Assign(LCond(c, a, b), rhs) =>
      var x := TypeExpr(c, ctx);
      if x.Refused? then x
      else if a !in x.ctx then Refused(NotDeclared(a))
      else if b !in x.ctx then Refused(NotDeclared(b))
      else if x.sort.None? then Refused(VoidOperand)
      else if x.ctx[a].ty != x.ctx[b].ty then Refused(CondTypes)
      else if x.sort.value.ty != I1 then Refused(CondNotBool)
      else
        var v := TypeExpr(rhs, x.ctx);
        if v.Refused? then v
        else if v.sort.None? then Refused(AssignVoid)
        else if v.sort.value.ty != x.ctx[a].ty then Refused(Incompatible)
        else v
    case Cond(c, thn, els) =>
      var x := TypeExpr(c, ctx);
      if x.Refused? then x else
      var y := TypeExpr(thn, x.ctx);
      if y.Refused? then y else
      var z := TypeExpr(els, y.ctx);
      if z.Refused? then z
      else if x.sort.None? || y.sort.None? || z.sort.None? then Refused(VoidOperand)
      else if y.sort.value.ty != z.sort.value.ty then Refused(CondTypes)
      else if x.sort.value.ty != I1 then Refused(CondNotBool)
      else Typed(z.ctx, Some(Sort(y.sort.value.ty, false)))
    case CondScope(c, thn, els) =>
      var x := TypeExpr(c, ctx);
      if x.Refused? then x
      else if x.sort.None? then Refused(VoidOperand)
      else if x.sort.value.ty != I1 then Refused(CondNotBool)
      else
        var y := TypeAll(thn, x.ctx, None);
        if y.Refused? then y else
        var z := TypeAll(els, x.ctx, None);
        if z.Refused? then z else Typed(x.ctx, None)
    case ScopeCall(body) =>
      if body == [] then Refused(EmptyScope) else
      var x := TypeAll(body, ctx, None);
      if x.Refused? then x else Typed(ctx, x.sort)
    case Ret(e1) =>
      var x := TypeExpr(e1, ctx);
      if x.Refused? then x
      else if x.sort.None? then Refused(VoidOperand)
      else Typed(x.ctx, None)
  }

  /** Statements in order; the sort is the last one's. */
  function TypeAll(es: seq<Expr>, ctx: Context, last: Option<Sort>): Typed
    decreases es, 0
  {
    if es == [] then Typed(ctx, last)
    else
      var x := TypeExpr(es[0], ctx);
      if x.Refused? then x else TypeAll(es[1..], x.ctx, x.sort)
  }

  /** Operators whose result is a truth value whatever their operands are. */
  predicate Compares(op: BinOp)
  {
    op in {Eq, Ne, Gt, Lt, Ge, Le}
  }

  // --------------------------------------------------- the translator's view

  function ContextOf(t: Table): Context
  {
    map n | n in t :: Sort(t[n].ty, t[n].isConst)
  }

  function SortOf(v: TVal): Option<Sort>
  {
    match v
    case Nothing => None
    case TVal(_, ty, isConst) => Some(Sort(ty, isConst))
  }

  function Summary(r: Result): Typed
  {
    match r
    case Ok(st, v) => Typed(ContextOf(st.syms), SortOf(v))
    case Err(e) => Refused(e)
  }

  // ------------------------------------------------------------------ lemmas

  /** The rules decide: an expression is accepted exactly if it follows them, with the sorts they give, and
      refused with the error they give otherwise. */
  lemma {:induction false} TypingDecides(e: Expr, st: TState)
    ensures Summary(Trans(e, st)) == TypeExpr(e, ContextOf(st.syms))
    decreases e, 2
  {
    hide ContextOf, ApplyBin, ApplyAssign, ApplyCond, Select;
    match e
    case IntLit(_) =>
    case BoolLit(_) =>
    case Var(n) => VarTyped(n, st);
    case Bin(op, l, r) =>
      TypingDecides(l, st);
      var rl := Trans(l, st);
      if rl.Ok? {
        TypingDecides(r, rl.st);
        var rr := Trans(r, rl.st);
        if rr.Ok? {
          BinTyped(op, rl.v, rr.v, rr.st);
        }
      }
    case Assign(_, _) => AssignTyped(e, st);
    case Cond(c, x, y) =>
      TypingDecides(c, st);
      var rc := Trans(c, st);
      if rc.Ok? {
        TypingDecides(x, rc.st);
        var rx := Trans(x, rc.st);
        if rx.Ok? {
          TypingDecides(y, rx.st);
          var ry := Trans(y, rx.st);
          if ry.Ok? {
            CondTyped(rc.v, rx.v, ry.v, ry.st);
          }
        }
      }
    case CondScope(c, _, _) =>
      TypingDecides(c, st);
      var rc := Trans(c, st);
      if rc.Ok? && rc.v.TVal? && rc.v.ty == I1 {
        ArmsTyped(rc.v.opd, e, rc.st);
      }
    case ScopeCall(body) =>
      if body != [] {
        CallTable(body, st);
        AllTyped(body, CallState(st), Nothing);
      }
    case Ret(e1) => TypingDecides(e1, st);
  }

  lemma VarTyped(n: string, st: TState)
    ensures Summary(LoadVar(n, st)) == TypeExpr(Var(n), ContextOf(st.syms))
  {
  }

  lemma BinTyped(op: BinOp, x: TVal, y: TVal, st: TState)
    ensures Summary(ApplyBin(op, x, y, st)) ==
      if x.Nothing? || y.Nothing? then Refused(VoidOperand)
      else if x.ty != y.ty then Refused(OperandTypes)
      else if (op == LAnd || op == LOr) && x.ty == I32 then Refused(OperandTypes)
      else Typed(ContextOf(st.syms), Some(Sort(if Compares(op) then I1 else x.ty, false)))
  {
    hide ContextOf;
  }

  lemma CondTyped(c: TVal, x: TVal, y: TVal, st: TState)
    ensures Summary(ApplyCond(c, x, y, st)) ==
      if c.Nothing? || x.Nothing? || y.Nothing? then Refused(VoidOperand)
      else if x.ty != y.ty then Refused(CondTypes)
      else if c.ty != I1 then Refused(CondNotBool)
      else Typed(ContextOf(st.syms), Some(Sort(x.ty, false)))
  {
    hide ContextOf, Select;
  }

  lemma {:induction false} AssignTyped(e: Expr, st: TState)
    requires e.Assign?
    ensures Summary(Trans(e, st)) == TypeExpr(e, ContextOf(st.syms))
    decreases e, 1
  {
    hide ContextOf, ApplyAssign, ApplyCondPlace;
    InContext(st.syms);
    match e.lhs
    case LVar(n, mut) =>
      TypingDecides(e.rhs, st);
      var rv := Trans(e.rhs, st);
      if rv.Ok? {
        StoreTyped(e.lhs, TransPlace(e.lhs, st).place, rv.v, rv.st);
      }
    case LCond(c, a, b) =>
      TypingDecides(c, st);
      var rc := Trans(c, st);
      if rc.Ok? {
        InContext(rc.st.syms);
        PlaceTyped(rc.v, a, b, rc.st);
        var rp := TransPlace(e.lhs, st);
        if rp.PlaceOk? {
          TypingDecides(e.rhs, rp.st);
          var rv := Trans(e.rhs, rp.st);
          if rv.Ok? {
            StoreTyped(e.lhs, rp.place, rv.v, rv.st);
          }
        }
      }
  }

  lemma InContext(t: Table)
    ensures forall n :: (n in ContextOf(t) <==> n in t) && (n in t ==> ContextOf(t)[n] == Sort(t[n].ty, t[n].isConst))
  {
  }

  lemma PlaceTyped(c: TVal, a: string, b: string, st: TState)
    ensures var r := ApplyCondPlace(c, a, b, st);
      if a !in st.syms then r == PlaceErr(NotDeclared(a))
      else if b !in st.syms then r == PlaceErr(NotDeclared(b))
      else if c.Nothing? then r == PlaceErr(VoidOperand)
      else if st.syms[a].ty != st.syms[b].ty then r == PlaceErr(CondTypes)
      else if c.ty != I1 then r == PlaceErr(CondNotBool)
      else r.PlaceOk? && r.st.syms == st.syms && r.place.Pointed? && r.place.ty == st.syms[a].ty
  {
    hide Select;
  }

  lemma StoreTyped(lhs: LVal, place: Place, v: TVal, st: TState)
    requires lhs.LVar? <==> !place.Pointed?
    ensures Summary(ApplyAssign(lhs, place, v, st)) ==
      if v.Nothing? then Refused(AssignVoid) else
      match place
      case Fresh => Typed(ContextOf(st.syms)[lhs.name := Sort(v.ty, !lhs.mut)], Some(Sort(v.ty, !lhs.mut)))
      case Known(s) =>
        if s.isConst then Refused(ReadOnly)
        else if s.ty != v.ty then Refused(Incompatible)
        else Typed(ContextOf(st.syms)[lhs.name := Sort(v.ty, v.isConst)], SortOf(v))
      case Pointed(_, ty) =>
        if ty != v.ty then Refused(Incompatible) else Typed(ContextOf(st.syms), SortOf(v))
  {
  }

  lemma {:induction false} ArmsTyped(c: Operand, e: Expr, st: TState)
    requires e.CondScope?
    ensures var ctx := ContextOf(st.syms);
      Summary(TransArms(c, e, st)) ==
      var y := TypeAll(e.thenBody, ctx, None);
      if y.Refused? then y else
      var z := TypeAll(e.elseBody, ctx, None);
      if z.Refused? then z else Typed(ctx, None)
    decreases e, 1
  {
    hide ContextOf, HasTerminator;
    AllTyped(e.thenBody, ThenState(st), Nothing);
    var r1 := TransAll(e.thenBody, ThenState(st), Nothing);
    if r1.Ok? {
      AllTyped(e.elseBody, ElseState(st, r1.st.em), Nothing);
    }
  }

  lemma CallTable(body: seq<Expr>, st: TState)
    ensures CallState(st).syms == st.syms
    ensures var r := TransAll(body, CallState(st), Nothing);
      match TransCall(body, st)
      case Err(e) => r == Err(e)
      case Ok(st', v) => r.Ok? && r.v == v && st'.syms == st.syms
  {
    hide HasTerminator;
  }

  /** The same for statement lists. */
  lemma {:induction false} AllTyped(es: seq<Expr>, st: TState, last: TVal)
    ensures Summary(TransAll(es, st, last)) == TypeAll(es, ContextOf(st.syms), SortOf(last))
    decreases es, 0
  {
    hide ContextOf;
    if es != [] {
      TypingDecides(es[0], st);
      var r := Trans(es[0], st);
      if r.Ok? {
        AllTyped(es[1..], r.st, r.v);
      }
    }
  }
}
