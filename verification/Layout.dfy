/** Where laid-out code ends up: finished blocks stay, arms and bodies go to new blocks, and each
    instruction gets one position. */
module Layout {
  import opened Ast
  import opened Ir
  import opened Emitter
  import opened Translation
  import opened Growth
  import opened Bodies
  import opened Structure

  function Plain(em: Emit): TState
  {
    TState(em, map[])
  }

  function AfterThen(a: Code, em: Emit): Emit
  {
    Lay(a, ThenState(Plain(em)).em)
  }

  function BeforeElse(a: Code, em: Emit): Emit
  {
    ElseState(Plain(em), AfterThen(a, em)).em
  }

  function AfterElse(a: Code, b: Code, em: Emit): Emit
  {
    Lay(b, BeforeElse(a, em))
  }

  function AfterBody(a: Code, em: Emit): Emit
  {
    Lay(a, CallState(Plain(em)).em)
  }

  lemma {:induction false} LayGrows(code: Code, em: Emit)
    requires ValidEmit(em)
    ensures ValidEmit(Lay(code, em)) && Grows(em, Lay(code, em))
    decreases code, 2
  {
    hide Emit.Append, Emit.CreateBlock, JoinArms, EndCall, ThenState, ElseState, CallState;
    match code
    case Skip =>
    case Instr(i) => AppendGrows(em, i);
    case Seq(a, b) =>
      LayGrows(a, em);
      LayGrows(b, Lay(a, em));
      GrowsTransitive(em, Lay(a, em), Lay(b, Lay(a, em)));
    case Arms(c, a, b) => ArmsGrow(c, a, b, em);
    case Call(a) =>
      CallParts(a, em);
      CallIs(a, em);
      EndCallAdvances(Plain(em), AfterBody(a, em));
  }

  lemma ArmsIs(c: Operand, a: Code, b: Code, em: Emit)
    ensures Lay(Arms(c, a, b), em) ==
      JoinArms(c, Plain(em), AfterThen(a, em).FallsThrough() || AfterElse(a, b, em).FallsThrough(),
        AfterElse(a, b, em)).em
  {
    hide JoinArms, ThenState, ElseState, Emit.FallsThrough;
  }

  lemma CallIs(a: Code, em: Emit)
    ensures Lay(Call(a), em) == EndCall(Plain(em), AfterBody(a, em)).em
  {
    hide EndCall, CallState;
  }

  lemma {:induction false} ArmsGrow(c: Operand, a: Code, b: Code, em: Emit)
    requires ValidEmit(em)
    ensures ValidEmit(Lay(Arms(c, a, b), em)) && Grows(em, Lay(Arms(c, a, b), em))
    decreases Arms(c, a, b), 1
  {
    hide Lay, JoinArms;
    ArmsParts(c, a, b, em);
    ArmsIs(c, a, b, em);
    JoinAdvances(c, Plain(em), AfterThen(a, em).FallsThrough() || AfterElse(a, b, em).FallsThrough(),
      AfterElse(a, b, em));
  }

  /** The stages of laying out two arms. */
  lemma {:induction false} ArmsParts(c: Operand, a: Code, b: Code, em: Emit)
    requires ValidEmit(em)
    ensures var st := Plain(em);
      var e1, s, e2 := AfterThen(a, em), BeforeElse(a, em), AfterElse(a, b, em);
      && Valid(st) && ValidEmit(ThenState(st).em) && ThenState(st).em.Here() == []
      && ValidEmit(e1) && Grows(ThenState(st).em, e1) && Waiting(e1, em.nextBlock + 1) && Waiting(e1, em.nextBlock + 2)
      && ValidEmit(s) && s.Here() == [] && s.cur == em.nextBlock + 1
      && ValidEmit(e2) && Grows(s, e2) && Beside(em, e2) && em.nextBlock <= e2.cur
      && Waiting(e2, em.nextBlock + 2)
    decreases Arms(c, a, b), 0
  {
    hide Lay, ThenState, ElseState, Beside, Grows, Waiting, Emit.CreateBlock, CloseBody;
    var st := Plain(em);
    PlainValid(em);
    ThenBeside(st);
    ThenWaiting(st);
    ValidParts(ThenState(st));
    LayGrows(a, ThenState(st).em);
    var e1 := AfterThen(a, em);
    StillWaiting(ThenState(st).em, e1, em.nextBlock + 1);
    StillWaiting(ThenState(st).em, e1, em.nextBlock + 2);
    ElseBeside(st, e1);
    ElseWaiting(st, e1);
    ValidParts(ElseState(st, e1));
    LayGrows(b, BeforeElse(a, em));
    var e2 := AfterElse(a, b, em);
    StillWaiting(BeforeElse(a, em), e2, em.nextBlock + 2);
    ArmsBeside(st, e1, e2);
  }

  lemma PlainValid(em: Emit)
    requires ValidEmit(em)
    ensures Valid(Plain(em))
  {
  }

  lemma ValidParts(st: TState)
    requires Valid(st)
    ensures ValidEmit(st.em)
  {
  }

  /** The stages of laying out a called body. */
  lemma {:induction false} CallParts(a: Code, em: Emit)
    requires ValidEmit(em)
    ensures var st := Plain(em);
      var e1 := AfterBody(a, em);
      && Valid(st) && ValidEmit(CallState(st).em) && CallState(st).em.Here() == []
      && ValidEmit(e1) && Grows(CallState(st).em, e1) && Beside(em, e1) && em.nextBlock <= e1.cur
      && Waiting(e1, em.nextBlock) && em.nextBlock in e1.blocks
    decreases a, 3
  {
    hide Lay, CallState, Beside, Grows, Waiting, Emit.CreateBlock;
    var st := Plain(em);
    PlainValid(em);
    CallBeside(st);
    CallWaiting(st);
    ValidParts(CallState(st));
    LayGrows(a, CallState(st).em);
    StillWaiting(CallState(st).em, AfterBody(a, em), em.nextBlock);
    CallBodyBeside(st, AfterBody(a, em));
  }
}
