/** What translating an expression does to the function under construction and to the symbol
    table of the current scope, as functions on states. */
module Translation {
  import opened Words
  import opened Ast
  import opened Ir
  import opened Emitter

  /** A symbol table entry: the register holding the variable's cell, the type of the cell's
      content, and the read-only flag copied along with the value last assigned. */
  datatype Symbol = Symbol(cell: nat, ty: Ty, isConst: bool)

  type Table = map<string, Symbol>

  /** A translated value; `Nothing` is a value without an LLVM value (void). */
  datatype TVal = Nothing | TVal(opd: Operand, ty: Ty, isConst: bool)

  datatype TState = TState(em: Emit, syms: Table)

  datatype Error =
    | NotDeclared(name: string)
    | VoidOperand
    | OperandTypes
    | AssignVoid
    | ReadOnly
    | Incompatible
    | CondTypes
    | CondNotBool
    | EmptyScope
    | ArgumentCount
    | ArgumentType(k: nat)
    | MixedReturnTypes
    | ReturnType

  datatype Result = Ok(st: TState, v: TVal) | Err(error: Error)

  /** What stands left of an assignment: an undeclared name, a symbol, or a computed pointer. */
  datatype Place = Fresh | Known(sym: Symbol) | Pointed(p: Operand, ty: Ty)

  datatype PlaceResult = PlaceOk(st: TState, place: Place) | PlaceErr(error: Error)

  function Lift(r: Result): PlaceResult
    requires r.Err?
  {
    PlaceErr(r.error)
  }

  // ------------------------------------------------- one operator at a time

  function LoadVar(name: string, st: TState): Result
  {
    if name !in st.syms then Err(NotDeclared(name))
    else
      var s := st.syms[name];
      var r := st.em.nextReg;
      Ok(st.(em := st.em.Define(Load(r, Reg(s.cell)))), TVal(Reg(r), s.ty, s.isConst))
  }

  function ApplyBin(op: BinOp, x: TVal, y: TVal, st: TState): Result
  {
    if x.Nothing? || y.Nothing? then Err(VoidOperand)
    else if x.ty != y.ty || (IsLogic(op) && x.ty != I1) then Err(OperandTypes)
    else
      var r := st.em.nextReg;
      if IsLogic(op) then
        var e1 := st.em.Define(Cmp(r, PNe, x.opd, Const(I1, 0)));
        var e2 := e1.Define(Cmp(r + 1, PNe, y.opd, Const(I1, 0)));
        var e3 := e2.Define(Arith(r + 2, if op == LAnd then OAnd else OOr, Reg(r), Reg(r + 1)));
        Ok(st.(em := e3), TVal(Reg(r + 2), I1, false))
      else if IsArith(op) then
        Ok(st.(em := st.em.Define(Arith(r, OpcodeOf(op), x.opd, y.opd))), TVal(Reg(r), x.ty, false))
      else
        Ok(st.(em := st.em.Define(Cmp(r, PredOf(op), x.opd, y.opd))), TVal(Reg(r), I1, false))
  }

  /** A new variable: its cell, the first store, and its symbol. */
  function Declared(name: string, tag: Tag, isConst: bool, ty: Ty, o: Operand, st: TState): TState
  {
    var r := st.em.nextReg;
    TState(st.em.Define(Alloca(r, Scalar(ty), tag)).Append(Store(o, Reg(r))),
           st.syms[name := Symbol(r, ty, isConst)])
  }

  function ApplyAssign(lhs: LVal, place: Place, v: TVal, st: TState): Result
  {
    if v.Nothing? then Err(AssignVoid)
    else
      match place
      case Fresh =>
        if !lhs.LVar? then Err(Incompatible) else
        Ok(Declared(lhs.name, Variable(lhs.name, lhs.mut), !lhs.mut, v.ty, v.opd, st), v.(isConst := !lhs.mut))
      case Known(s) =>
        if s.isConst then Err(ReadOnly)
        else if s.ty != v.ty then Err(Incompatible)
        else if !lhs.LVar? then Err(Incompatible)
        else
          Ok(TState(st.em.Append(Store(v.opd, Reg(s.cell))),
                    st.syms[lhs.name := Symbol(s.cell, v.ty, v.isConst)]), v)
      case Pointed(p, ty) =>
        if ty != v.ty then Err(Incompatible)
        else Ok(st.(em := st.em.Append(Store(v.opd, p))), v)
  }

  /** One arm of a choice: store x to cell d and branch to mb. */
  function Filled(em: Emit, bb: nat, x: Operand, d: nat, mb: nat): Emit
  {
    em.At(bb).Append(Store(x, Reg(d))).Append(Br(mb))
  }

  /** The temporary cell and the three blocks of a choice. */
  function SelectOpen(cty: CellTy, em: Emit): Emit
  {
    em.Define(Alloca(em.nextReg, cty, Temporary)).CreateBlock().CreateBlock().CreateBlock()
  }

  /** Both arms of the choice opened at em. */
  function SelectArms(x: Operand, y: Operand, cty: CellTy, em: Emit): Emit
  {
    var d, tb, mb := em.nextReg, em.nextBlock, em.nextBlock + 2;
    Filled(Filled(SelectOpen(cty, em), tb, x, d, mb), tb + 1, y, d, mb)
  }

  /** Choose between two operands through a temporary cell; the result is loaded in the block
      where both branches meet. */
  function Select(c: Operand, x: Operand, y: Operand, cty: CellTy, em: Emit): Emit
  {
    var d, tb := em.nextReg, em.nextBlock;
    SelectArms(x, y, cty, em).At(em.cur).Append(CondBr(c, tb, tb + 1)).At(tb + 2).Define(Load(d + 1, Reg(d)))
  }

  function ApplyCond(c: TVal, x: TVal, y: TVal, st: TState): Result
  {
    if c.Nothing? || x.Nothing? || y.Nothing? then Err(VoidOperand)
    else if x.ty != y.ty then Err(CondTypes)
    else if c.ty != I1 then Err(CondNotBool)
    else
      var em := Select(c.opd, x.opd, y.opd, Scalar(x.ty), st.em);
      Ok(st.(em := em), TVal(Reg(st.em.nextReg + 1), x.ty, false))
  }

  /** Choose between the cells of a and b by a temporary pointer. */
  function ChoosePlace(c: TVal, a: string, b: string, st: TState): PlaceResult
    requires a in st.syms && b in st.syms
  {
    var x, y := st.syms[a], st.syms[b];
    if c.Nothing? then PlaceErr(VoidOperand)
    else if x.ty != y.ty then PlaceErr(CondTypes)
    else if c.ty != I1 then PlaceErr(CondNotBool)
    else
      PlaceOk(st.(em := Select(c.opd, Reg(x.cell), Reg(y.cell), Pointer(x.ty), st.em)),
              Pointed(Reg(st.em.nextReg + 1), x.ty))
  }

  /** A conditional in assignable position: both arms are also read once before their cells
      are chosen between. */
  function ApplyCondPlace(c: TVal, a: string, b: string, st: TState): PlaceResult
  {
    var ra := LoadVar(a, st);
    if ra.Err? then Lift(ra) else
    var rb := LoadVar(b, ra.st);
    if rb.Err? then Lift(rb) else
    ChoosePlace(c, a, b, rb.st)
  }

  function ApplyRet(v: TVal, st: TState): Result
  {
    if v.Nothing? then Err(VoidOperand)
    else Ok(st.(em := st.em.Append(RetVal(v.ty, v.opd))), Nothing)
  }

  /** End a body: branch to the continuation block if control falls through. */
  function CloseBody(em: Emit, next: nat): Emit
  {
    if em.FallsThrough() then em.Append(Br(next)) else em
  }

  /** The state in which the first arm of a conditional is translated: blocks for both arms and
      for what follows exist, the symbol table is a copy. */
  function ThenState(st: TState): TState
  {
    TState(st.em.CreateBlock().CreateBlock().CreateBlock().At(st.em.nextBlock), st.syms)
  }

  function ElseState(st: TState, em1: Emit): TState
  {
    TState(CloseBody(em1, st.em.nextBlock + 2).At(st.em.nextBlock + 1), st.syms)
  }

  /** After both arms: the merge block is kept if some arm falls through (`keep`), and the
      conditional branch ends the block the conditional started in. */
  function JoinArms(c: Operand, st: TState, keep: bool, em2: Emit): TState
  {
    var tb, eb, mb := st.em.nextBlock, st.em.nextBlock + 1, st.em.nextBlock + 2;
    var i := CondBr(c, tb, eb);
    var e2 := CloseBody(em2, mb);
    TState(if keep then e2.At(st.em.cur).Append(i).At(mb) else e2.Erase(mb).At(st.em.cur).Append(i), st.syms)
  }

  /** The state in which a called scope is translated: first the continuation block, then the
      block of the scope. */
  function CallState(st: TState): TState
  {
    TState(st.em.CreateBlock().CreateBlock().At(st.em.nextBlock + 1), st.syms)
  }

  function EndCall(st: TState, em1: Emit): TState
  {
    var nb, tb := st.em.nextBlock, st.em.nextBlock + 1;
    TState(if em1.FallsThrough() then em1.Append(Br(nb)).At(st.em.cur).Append(Br(tb)).At(nb)
           else em1.Erase(nb).At(st.em.cur).Append(Br(tb)), st.syms)
  }

  // --------------------------------------------------------------- recursion

  function Trans(e: Expr, st: TState): Result
    decreases e, 1
  {
    match e
    case IntLit(i) => Ok(st, TVal(Const(I32, ToWord(I32, i)), I32, false))
    case BoolLit(b) => Ok(st, TVal(Const(I1, if b then 1 else 0), I1, false))
    case Var(name) => LoadVar(name, st)
    case Bin(op, l, r) =>
      var rl := Trans(l, st);
      if rl.Err? then rl else
      var rr := Trans(r, rl.st);
      if rr.Err? then rr else
      ApplyBin(op, rl.v, rr.v, rr.st)
    case Assign(lhs, rhs) =>
      var rp := TransPlace(lhs, st);
      if rp.PlaceErr? then Err(rp.error) else
      var rv := Trans(rhs, rp.st);
      if rv.Err? then rv else
      ApplyAssign(lhs, rp.place, rv.v, rv.st)
    case Cond(c, x, y) =>
      var rc := Trans(c, st);
      if rc.Err? then rc else
      var rx := Trans(x, rc.st);
      if rx.Err? then rx else
      var ry := Trans(y, rx.st);
      if ry.Err? then ry else
      ApplyCond(rc.v, rx.v, ry.v, ry.st)
    case CondScope(c, thenBody, elseBody) =>
      var rc := Trans(c, st);
      if rc.Err? then rc else
      if rc.v.Nothing? then Err(VoidOperand) else
      if rc.v.ty != I1 then Err(CondNotBool) else
      TransArms(rc.v.opd, e, rc.st)
    case ScopeCall(body) =>
      if body == [] then Err(EmptyScope) else
      TransCall(body, st)
    case Ret(e1) =>
      var r := Trans(e1, st);
      if r.Err? then r else
      ApplyRet(r.v, r.st)
  }

  function TransPlace(lhs: LVal, st: TState): PlaceResult
    decreases lhs, 1
  {
    match lhs
    case LVar(name, _) =>
      PlaceOk(st, if name in st.syms then Known(st.syms[name]) else Fresh)
    case LCond(c, a, b) =>
      var rc := Trans(c, st);
      if rc.Err? then Lift(rc) else
      ApplyCondPlace(rc.v, a, b, rc.st)
  }

  /** Statement lists: the value of a list is the value of its last statement. */
  function TransAll(es: seq<Expr>, st: TState, last: TVal): Result
    decreases es, 0
  {
    if es == [] then Ok(st, last)
    else
      var r := Trans(es[0], st);
      if r.Err? then r else TransAll(es[1..], r.st, r.v)
  }

  /** Call a scope in place: its body goes to a block of its own, in a copy of the symbol table,
      and control continues in the next block unless the body always returns. */
  function TransCall(body: seq<Expr>, st: TState): Result
    decreases body, 1
  {
    var r := TransAll(body, CallState(st), Nothing);
    if r.Err? then r else Ok(EndCall(st, r.st.em), r.v)
  }

  /** A conditional with scope arms: each arm in its own block and its own copy of the symbol
      table. */
  function TransArms(c: Operand, e: Expr, st: TState): Result
    requires e.CondScope?
    decreases e, 0
  {
    var r1 := TransAll(e.thenBody, ThenState(st), Nothing);
    if r1.Err? then r1 else
    var r2 := TransAll(e.elseBody, ElseState(st, r1.st.em), Nothing);
    if r2.Err? then r2 else
    Ok(JoinArms(c, st, r1.st.em.FallsThrough() || r2.st.em.FallsThrough(), r2.st.em), Nothing)
  }
}
