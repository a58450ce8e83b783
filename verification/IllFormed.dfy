/** Two accepted bodies that are emitted as ill-formed functions. */
module IllFormed {
  import opened Words
  import opened Ast
  import opened Ir
  import opened Emitter
  import opened Translation
  import opened Evaluation
  import opened Wellformedness
  import opened Cfg
  import opened Functions
  import Survey

  // (){ |> 1; |> 2; }
  const BEHIND_RETURN := [Ret(IntLit(1)), Ret(IntLit(2))]

  // (){ true ? { |> 1; } : {}; }
  const ONE_ARM := [CondScope(BoolLit(true), [Ret(IntLit(1))], [])]

  function Constant(body: seq<Expr>): FunctionLit
  {
    FunctionLit([], body, None)
  }

  /** Only numbers are returned so far. */
  predicate Numbers(em: Emit)
  {
    I1 !in ReturnTypes(em.blocks)
  }

  lemma NumbersAppend(em: Emit, i: Instr)
    requires Numbers(em) && (i.RetVal? ==> i.ty == I32)
    ensures Numbers(em.Append(i))
  {
  }

  lemma NumbersFewer(em: Emit, em': Emit)
    requires forall b :: b in em'.blocks ==> em'.blocks[b] == [] || (b in em.blocks && em'.blocks[b] == em.blocks[b])
    requires Numbers(em)
    ensures Numbers(em')
  {
  }

  /** A body of numbers that is translated is emitted. */
  lemma EmittedIf(body: seq<Expr>)
    requires var r := TransAll(body, Prologue([], [], true), Nothing);
      r.Ok? && Numbers(r.st.em)
    ensures Evaluate(Constant(body), []).Emitted?
  {
    Survey.EmittedReturns(Constant(body), []);
  }

  lemma Start()
    ensures Prologue([], [], true) == SelfCell(true) && Numbers(SelfCell(true).em)
  {
    var em := Emit(map[0 := []], 0, 1, 0);
    assert Numbers(em);
    NumbersAppend(em, Alloca(0, FunctionPointer, Self));
    NumbersAppend(em.Define(Alloca(0, FunctionPointer, Self)), Store(ThisFunction, Reg(0)));
  }

  lemma ReturnNumber(i: Int32, st: TState)
    requires Numbers(st.em)
    ensures Trans(Ret(IntLit(i)), st).Ok? && Numbers(Trans(Ret(IntLit(i)), st).st.em)
  {
    NumbersAppend(st.em, RetVal(I32, Const(I32, ToWord(I32, i))));
  }

  lemma TransOne(e: Expr, st: TState, last: TVal)
    ensures TransAll([e], st, last) == Trans(e, st)
  {
    assert [e][1..] == [];
  }

  /** Code behind a return: its block goes on after the return. */
  lemma ReturnBehindReturn()
    ensures var e := Evaluate(Constant(BEHIND_RETURN), []);
      e.Emitted? && !WellFormed(e.fn.blocks)
  {
    hide Evaluate, WellFormed, Prologue, Trans, Numbers, SelfCell;
    Start();
    var st := SelfCell(true);
    ReturnNumber(1, st);
    var r := Trans(Ret(IntLit(1)), st);
    ReturnNumber(2, r.st);
    TransOne(Ret(IntLit(2)), r.st, r.v);
    assert BEHIND_RETURN[1..] == [Ret(IntLit(2))] && [Ret(IntLit(2))][1..] == [];
    EmittedIf(BEHIND_RETURN);
    WellFormedExactly(Constant(BEHIND_RETURN), []);
    assert !Clean(Ret(IntLit(2)), true);
  }

  lemma OneArm(st: TState)
    requires Numbers(st.em)
    ensures Trans(ONE_ARM[0], st).Ok? && Numbers(Trans(ONE_ARM[0], st).st.em)
  {
    hide Numbers, HasTerminator;
    var e := ONE_ARM[0];
    var c := TVal(Const(I1, 1), I1, false);
    assert Trans(BoolLit(true), st) == Ok(st, c);
    NumbersFewer(st.em, ThenState(st).em);
    ReturnNumber(1, ThenState(st));
    TransOne(Ret(IntLit(1)), ThenState(st), Nothing);
    var r1 := TransAll(e.thenBody, ThenState(st), Nothing);
    var em1 := r1.st.em;
    Closing(em1, st.em.nextBlock + 2);
    NumbersFewer(CloseBody(em1, st.em.nextBlock + 2), ElseState(st, em1).em);
    var r2 := TransAll(e.elseBody, ElseState(st, em1), Nothing);
    Joining(c.opd, st, em1.FallsThrough() || r2.st.em.FallsThrough(), r2.st.em);
    assert Trans(e, st) == TransArms(c.opd, e, st);
  }

  lemma Closing(em: Emit, next: nat)
    requires Numbers(em)
    ensures Numbers(CloseBody(em, next))
  {
    NumbersAppend(em, Br(next));
  }

  lemma Joining(c: Operand, st: TState, keep: bool, em: Emit)
    requires Numbers(em)
    ensures Numbers(JoinArms(c, st, keep, em).em)
  {
    hide Numbers, HasTerminator, Emit.Append;
    var tb := st.em.nextBlock;
    var i := CondBr(c, tb, tb + 1);
    Closing(em, tb + 2);
    var e2 := CloseBody(em, tb + 2);
    NumbersFewer(e2, e2.At(st.em.cur));
    NumbersAppend(e2.At(st.em.cur), i);
    NumbersFewer(e2.At(st.em.cur).Append(i), e2.At(st.em.cur).Append(i).At(tb + 2));
    NumbersFewer(e2, e2.Erase(tb + 2).At(st.em.cur));
    NumbersAppend(e2.Erase(tb + 2).At(st.em.cur), i);
  }

  /** A return on one path only: the block where the paths meet has no end. */
  lemma ReturnOnOneArm()
    ensures var e := Evaluate(Constant(ONE_ARM), []);
      e.Emitted? && !WellFormed(e.fn.blocks)
  {
    hide Evaluate, WellFormed, Prologue, Trans, Numbers, SelfCell;
    Start();
    OneArm(SelfCell(true));
    TransOne(ONE_ARM[0], SelfCell(true), Nothing);
    assert ONE_ARM == [ONE_ARM[0]] && ONE_ARM[1..] == [];
    EmittedIf(ONE_ARM);
    WellFormedExactly(Constant(ONE_ARM), []);
    assert !EndsAll([], false);
    assert !EndsAll(ONE_ARM, false);
    assert !NoRetAll([Ret(IntLit(1))]);
    assert !NoRetAll(ONE_ARM);
  }
}
