/** The translator object: it walks an expression, appends through its builder, moves the
    insertion point, and swaps the symbol table of the current scope. */
module Translator {
  import opened Words
  import opened Ast
  import opened Ir
  import opened Emitter
  import opened Translation

  /** What a visit gives back: a value, or the error it threw. */
  datatype Visited = Value(v: TVal) | Thrown(error: Error)

  datatype Found = Found(place: Place) | NotFound(error: Error)

  class Translator {
    const builder: Builder
    var symbols: Table

    constructor ()
      ensures fresh(builder)
      ensures State() == TState(Emit(map[0 := []], 0, 1, 0), map[])
    {
      builder := new Builder();
      symbols := map[];
    }

    function State(): TState
      reads this, builder
    {
      TState(builder.State(), symbols)
    }

    // ------------------------------------------------------------ operators

    method ReadVariable(name: string) returns (r: Visited)
      modifies builder
      ensures match LoadVar(name, old(State()))
              case Ok(st, v) => r == Value(v) && State() == st
              case Err(e) => r == Thrown(e)
    {
      if name !in symbols {
        return Thrown(NotDeclared(name));
      }
      var s := symbols[name];
      var reg := builder.CreateLoad(Reg(s.cell));
      r := Value(TVal(Reg(reg), s.ty, s.isConst));
    }

    method BinaryOperator(op: BinOp, x: TVal, y: TVal) returns (r: Visited)
      modifies builder
      ensures match ApplyBin(op, x, y, old(State()))
              case Ok(st, v) => r == Value(v) && State() == st
              case Err(e) => r == Thrown(e)
    {
      if x.Nothing? || y.Nothing? {
        return Thrown(VoidOperand);
      }
      if x.ty != y.ty || (IsLogic(op) && x.ty != I1) {
        return Thrown(OperandTypes);
      }
      var v;
      if IsLogic(op) {
        var p := builder.CreateCmp(PNe, x.opd, Const(I1, 0));
        var q := builder.CreateCmp(PNe, y.opd, Const(I1, 0));
        var b := builder.CreateArith(if op == LAnd then OAnd else OOr, Reg(p), Reg(q));
        v := TVal(Reg(b), I1, false);
      } else if IsArith(op) {
        var a := builder.CreateArith(OpcodeOf(op), x.opd, y.opd);
        v := TVal(Reg(a), x.ty, false);
      } else {
        var b := builder.CreateCmp(PredOf(op), x.opd, y.opd);
        v := TVal(Reg(b), I1, false);
      }
      r := Value(v);
    }

    /** The assignment operator: declares on first appearance, otherwise checks the read-only
        flag; stores the value and copies its flag into the symbol table. */
    method AssignOperator(lhs: LVal, place: Place, v: TVal) returns (r: Visited)
      modifies this, builder
      ensures match ApplyAssign(lhs, place, v, old(State()))
              case Ok(st, w) => r == Value(w) && State() == st
              case Err(e) => r == Thrown(e)
    {
      if v.Nothing? {
        return Thrown(AssignVoid);
      }
      match place {
        case Fresh =>
          if !lhs.LVar? {
            return Thrown(Incompatible);
          }
          var cell := builder.CreateAlloca(Scalar(v.ty), Variable(lhs.name, lhs.mut));
          var w := v.(isConst := !lhs.mut);
          builder.Insert(Store(v.opd, Reg(cell)));
          symbols := symbols[lhs.name := Symbol(cell, v.ty, w.isConst)];
          r := Value(w);
        case Known(s) =>
          if s.isConst {
            return Thrown(ReadOnly);
          }
          if s.ty != v.ty || !lhs.LVar? {
            return Thrown(Incompatible);
          }
          builder.Insert(Store(v.opd, Reg(s.cell)));
          symbols := symbols[lhs.name := Symbol(s.cell, v.ty, v.isConst)];
          r := Value(v);
        case Pointed(p, ty) =>
          if ty != v.ty {
            return Thrown(Incompatible);
          }
          builder.Insert(Store(v.opd, p));
          r := Value(v);
      }
    }

    /** One arm of a value conditional: a store and a branch. */
    method FillArm(bb: nat, x: Operand, d: nat, mergebb: nat)
      modifies builder
      ensures builder.State() == Filled(old(builder.State()), bb, x, d, mergebb)
      ensures builder.nextReg == old(builder.nextReg)
    {
      builder.SetInsertPoint(bb);
      builder.Insert(Store(x, Reg(d)));
      builder.Insert(Br(mergebb));
    }

    method CreateThreeBlocks() returns (thenbb: nat, elsebb: nat, mergebb: nat)
      modifies builder
      ensures var n := old(builder.nextBlock); thenbb == n && elsebb == n + 1 && mergebb == n + 2
      ensures builder.State() == old(builder.State()).CreateBlock().CreateBlock().CreateBlock()
    {
      thenbb := builder.CreateBlock();
      elsebb := builder.CreateBlock();
      mergebb := builder.CreateBlock();
    }

    method OpenChoice(cty: CellTy) returns (d: nat, thenbb: nat, elsebb: nat, mergebb: nat)
      modifies builder
      ensures d == old(builder.nextReg) && builder.nextReg == d + 1
      ensures var n := old(builder.nextBlock); thenbb == n && elsebb == n + 1 && mergebb == n + 2
      ensures builder.State() == SelectOpen(cty, old(builder.State()))
    {
      d := builder.CreateAlloca(cty, Temporary);
      thenbb, elsebb, mergebb := CreateThreeBlocks();
    }

    method CloseChoice(c: Operand, pb: nat, d: nat, thenbb: nat, elsebb: nat, mergebb: nat) returns (r: nat)
      modifies builder
      ensures r == old(builder.nextReg)
      ensures builder.State() ==
              old(builder.State()).At(pb).Append(CondBr(c, thenbb, elsebb)).At(mergebb).Define(Load(r, Reg(d)))
    {
      builder.SetInsertPoint(pb);
      builder.Insert(CondBr(c, thenbb, elsebb));
      builder.SetInsertPoint(mergebb);
      r := builder.CreateLoad(Reg(d));
    }

    /** Blocks, stores and branches of a value conditional. */
    method Choose(c: Operand, x: Operand, y: Operand, cty: CellTy) returns (r: nat)
      modifies builder
      ensures r == old(builder.nextReg) + 1
      ensures builder.State() == Select(c, x, y, cty, old(builder.State()))
    {
      var pb := builder.cur;
      var d, thenbb, elsebb, mergebb := OpenChoice(cty);
      FillArm(thenbb, x, d, mergebb);
      FillArm(elsebb, y, d, mergebb);
      assert builder.nextReg == d + 1;
      hide Filled, SelectOpen, Emit.Append, Emit.Define;
      r := CloseChoice(c, pb, d, thenbb, elsebb, mergebb);
    }

    method CondOperator(c: TVal, x: TVal, y: TVal) returns (r: Visited)
      modifies builder
      ensures match ApplyCond(c, x, y, old(State()))
              case Ok(st, v) => r == Value(v) && State() == st
              case Err(e) => r == Thrown(e)
    {
      if c.Nothing? || x.Nothing? || y.Nothing? {
        return Thrown(VoidOperand);
      }
      if x.ty != y.ty {
        return Thrown(CondTypes);
      }
      if c.ty != I1 {
        return Thrown(CondNotBool);
      }
      var reg := Choose(c.opd, x.opd, y.opd, Scalar(x.ty));
      r := Value(TVal(Reg(reg), x.ty, false));
    }

    method CondPlace(c: TVal, a: string, b: string) returns (r: Found)
      modifies builder
      ensures match ApplyCondPlace(c, a, b, old(State()))
              case PlaceOk(st, p) => r == Found.Found(p) && State() == st
              case PlaceErr(e) => r == NotFound(e)
    {
      var ra := ReadVariable(a);
      if ra.Thrown? {
        return NotFound(ra.error);
      }
      var rb := ReadVariable(b);
      if rb.Thrown? {
        return NotFound(rb.error);
      }
      var x, y := symbols[a], symbols[b];
      if c.Nothing? {
        return NotFound(VoidOperand);
      }
      if x.ty != y.ty {
        return NotFound(CondTypes);
      }
      if c.ty != I1 {
        return NotFound(CondNotBool);
      }
      var reg := Choose(c.opd, Reg(x.cell), Reg(y.cell), Pointer(x.ty));
      r := Found.Found(Pointed(Reg(reg), x.ty));
    }

    // ------------------------------------------------------------- visiting

    method Visit(e: Expr) returns (r: Visited)
      modifies this, builder
      ensures match Trans(e, old(State()))
              case Ok(st, v) => r == Value(v) && State() == st
              case Err(er) => r == Thrown(er)
      decreases e, 1
    {
      match e {
        case IntLit(i) => r := Value(TVal(Const(I32, ToWord(I32, i)), I32, false));
        case BoolLit(b) => r := Value(TVal(Const(I1, if b then 1 else 0), I1, false));
        case Var(name) => r := ReadVariable(name);
        case Bin(op, x, y) =>
          r := Visit(x);
          if r.Thrown? { return; }
          var v := r.v;
          r := Visit(y);
          if r.Thrown? { return; }
          r := BinaryOperator(op, v, r.v);
        case Assign(lhs, rhs) =>
          var p := VisitPlace(lhs);
          if p.NotFound? { return Thrown(p.error); }
          r := Visit(rhs);
          if r.Thrown? { return; }
          r := AssignOperator(lhs, p.place, r.v);
        case Cond(c, x, y) =>
          r := Visit(c);
          if r.Thrown? { return; }
          var vc := r.v;
          r := Visit(x);
          if r.Thrown? { return; }
          var vx := r.v;
          r := Visit(y);
          if r.Thrown? { return; }
          r := CondOperator(vc, vx, r.v);
        case CondScope(c, _, _) =>
          r := Visit(c);
          if r.Thrown? { return; }
          if r.v.Nothing? { return Thrown(VoidOperand); }
          if r.v.ty != I1 { return Thrown(CondNotBool); }
          r := VisitArms(r.v.opd, e);
        case ScopeCall(body) =>
          if body == [] { return Thrown(EmptyScope); }
          r := VisitCall(body);
        case Ret(e1) =>
          r := Visit(e1);
          if r.Thrown? { return; }
          if r.v.Nothing? { return Thrown(VoidOperand); }
          builder.Insert(RetVal(r.v.ty, r.v.opd));
          r := Value(Nothing);
      }
    }

    method VisitPlace(lhs: LVal) returns (r: Found)
      modifies this, builder
      ensures match TransPlace(lhs, old(State()))
              case PlaceOk(st, p) => r == Found.Found(p) && State() == st
              case PlaceErr(e) => r == NotFound(e)
      decreases lhs, 1
    {
      match lhs {
        case LVar(name, _) =>
          r := Found.Found(if name in symbols then Known(symbols[name]) else Fresh);
        case LCond(c, a, b) =>
          var rc := Visit(c);
          if rc.Thrown? { return NotFound(rc.error); }
          r := CondPlace(rc.v, a, b);
      }
    }

    /** The statement loop over a scope's lines; `falls` is the scan of the block the insertion
        point ends in. */
    method VisitBody(insts: seq<Expr>) returns (falls: bool, r: Visited)
      modifies this, builder
      ensures match TransAll(insts, old(State()), Nothing)
              case Ok(st, v) => r == Value(v) && State() == st && falls == st.em.FallsThrough()
              case Err(e) => r == Thrown(e)
      decreases insts, 0
    {
      ghost var start := State();
      r := Value(Nothing);
      falls := true;
      var i := 0;
      while i < |insts|
        invariant 0 <= i <= |insts|
        invariant r.Value?
        invariant TransAll(insts, start, Nothing) == TransAll(insts[i..], State(), r.v)
      {
        ghost var before := State();
        assert insts[i..][0] == insts[i] && insts[i..][1..] == insts[i + 1..];
        ghost var last := r.v;
        r := Visit(insts[i]);
        if r.Thrown? { return; }
        assert TransAll(insts[i..], before, last) == TransAll(insts[i + 1..], State(), r.v);
        i := i + 1;
      }
      falls := builder.NoTerminatorYet();
    }

    /** A called scope. The saved table comes back when the body is done. */
    method VisitCall(body: seq<Expr>) returns (r: Visited)
      modifies this, builder
      ensures match TransCall(body, old(State()))
              case Ok(st, v) => r == Value(v) && State() == st
              case Err(e) => r == Thrown(e)
      decreases body, 1
    {
      var pb := builder.cur;
      var nb := builder.CreateBlock();
      var theblock := builder.CreateBlock();
      builder.SetInsertPoint(theblock);
      var prevScope := symbols;
      assert State() == CallState(old(State()));
      var nonRb;
      nonRb, r := VisitBody(body);
      if r.Thrown? { return; }
      if nonRb {
        builder.Insert(Br(nb));
      } else {
        builder.EraseFromParent(nb);
      }
      symbols := prevScope;
      builder.SetInsertPoint(pb);
      builder.Insert(Br(theblock));
      if nonRb {
        builder.SetInsertPoint(nb);
      }
    }

    /** One arm of a conditional with scope arms, in a copy of the symbol table. */
    method VisitArm(bb: nat, body: seq<Expr>, scope: Table, mergebb: nat) returns (falls: bool, r: Visited)
      modifies this, builder
      ensures match TransAll(body, TState(old(builder.State()).At(bb), scope), Nothing)
              case Ok(st, v) =>
                r == Value(v) && falls == st.em.FallsThrough() && builder.State() == CloseBody(st.em, mergebb)
              case Err(er) => r == Thrown(er)
      decreases body, 1
    {
      builder.SetInsertPoint(bb);
      symbols := scope;
      falls, r := VisitBody(body);
      if r.Value? && falls {
        builder.Insert(Br(mergebb));
      }
    }

    /** A conditional whose arms are scopes: the arms first, the branch to them last. */
    method VisitArms(c: Operand, e: Expr) returns (r: Visited)
      requires e.CondScope?
      modifies this, builder
      ensures match TransArms(c, e, old(State()))
              case Ok(st, v) => r == Value(v) && State() == st
              case Err(er) => r == Thrown(er)
      decreases e, 0
    {
      ghost var st := State();
      var pb := builder.cur;
      var prevScope := symbols;
      var thenbb, elsebb, mergebb := CreateThreeBlocks();
      var falls1, falls2;
      falls1, r := VisitArm(thenbb, e.thenBody, prevScope, mergebb);
      if r.Thrown? { return; }
      falls2, r := VisitArm(elsebb, e.elseBody, prevScope, mergebb);
      if r.Thrown? { return; }
      ghost var em1 := TransAll(e.thenBody, ThenState(st), Nothing).st.em;
      ghost var em2 := TransAll(e.elseBody, ElseState(st, em1), Nothing).st.em;
      assert builder.State() == CloseBody(em2, mergebb);
      Join(c, falls1 || falls2, pb, thenbb, elsebb, mergebb);
      symbols := prevScope;
      assert State() == JoinArms(c, st, falls1 || falls2, em2);
      r := Value(Nothing);
    }

    /** Erase the merge block unless some arm branches to it, then end the block the conditional
        started in. */
    method Join(c: Operand, keep: bool, pb: nat, thenbb: nat, elsebb: nat, mergebb: nat)
      modifies builder
      ensures var em := old(builder.State());
        builder.State() == if keep then em.At(pb).Append(CondBr(c, thenbb, elsebb)).At(mergebb)
                           else em.Erase(mergebb).At(pb).Append(CondBr(c, thenbb, elsebb))
    {
      if !keep {
        builder.EraseFromParent(mergebb);
      }
      builder.SetInsertPoint(pb);
      builder.Insert(CondBr(c, thenbb, elsebb));
      if keep {
        builder.SetInsertPoint(mergebb);
      }
    }
  }
}
