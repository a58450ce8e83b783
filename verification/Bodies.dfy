/** How the blocks of a scope's body sit in the function: what survives until the branch around
    the body is emitted, and what entering and leaving a body does at run time. */
module Bodies {
  import opened Words
  import opened Ast
  import opened Ir
  import opened Emitter
  import opened Translation
  import opened Interp
  import opened Growth
  import opened Relation
  import opened Simulation

  /** An empty block is waiting for control to arrive. */
  ghost predicate Waiting(em: Emit, b: nat)
  {
    match em case Emit(blocks, cur, nextBlock, _) =>
      b in blocks && blocks[b] == [] && b != cur && b < nextBlock
  }

  lemma StillWaiting(e0: Emit, e1: Emit, b: nat)
    requires Grows(e0, e1) && Waiting(e0, b)
    ensures Waiting(e1, b)
  {
  }

  lemma WaitingClosed(em: Emit, next: nat, b: nat)
    requires Waiting(em, b)
    ensures Waiting(CloseBody(em, next), b)
  {
  }

  lemma ThenWaiting(st: TState)
    ensures Waiting(ThenState(st).em, st.em.nextBlock + 1) && Waiting(ThenState(st).em, st.em.nextBlock + 2)
    ensures ThenState(st).em.Here() == [] && ThenState(st).em.nextReg == st.em.nextReg
  {
  }

  lemma ElseWaiting(st: TState, em1: Emit)
    requires Grows(ThenState(st).em, em1)
    ensures Waiting(ElseState(st, em1).em, st.em.nextBlock + 2)
    ensures ElseState(st, em1).em.Here() == [] && ElseState(st, em1).em.nextReg == em1.nextReg
  {
    var mb := st.em.nextBlock + 2;
    ThenWaiting(st);
    StillWaiting(ThenState(st).em, em1, mb);
    StillWaiting(ThenState(st).em, em1, mb - 1);
    hide Grows;
    WaitingClosed(em1, mb, mb);
    WaitingClosed(em1, mb, mb - 1);
  }

  lemma CallWaiting(st: TState)
    ensures Waiting(CallState(st).em, st.em.nextBlock)
    ensures CallState(st).em.Here() == [] && CallState(st).em.nextReg == st.em.nextReg
  {
  }

  /** Code survives going back to an earlier block and ending it, and erasing an empty block. */
  lemma ResumeWithin(em: Emit, e: Emit, i: Instr, next: nat)
    requires ValidEmit(em) && Beside(em, e)
    ensures Within(e, e.At(em.cur).Append(i).At(next).blocks)
      && Within(em.Append(i), e.At(em.cur).Append(i).At(next).blocks)
  {
  }

  lemma EraseWithin(e: Emit, b: nat)
    requires BodyOf(e.blocks, b) == []
    ensures Within(e, e.Erase(b).blocks)
  {
  }

  /** After both arms of a conditional. */
  lemma JoinLayout(c: Operand, st: TState, keep: bool, em2: Emit)
    requires Valid(st) && ValidEmit(em2) && Beside(st.em, em2) && st.em.nextBlock <= em2.cur
    requires Waiting(em2, st.em.nextBlock + 2) && (em2.FallsThrough() ==> keep)
    ensures var mb := st.em.nextBlock + 2;
      var em := JoinArms(c, st, keep, em2).em;
      && Within(CloseBody(em2, mb), em.blocks)
      && Within(st.em.Append(CondBr(c, mb - 2, mb - 1)), em.blocks)
      && (keep ==> em.cur == mb && em.Here() == [])
  {
    var mb := st.em.nextBlock + 2;
    var i := CondBr(c, mb - 2, mb - 1);
    var e2 := CloseBody(em2, mb);
    CloseBeside(st.em, em2, mb);
    WaitingClosed(em2, mb, mb);
    hide CloseBody, Within, Beside;
    if keep {
      ResumeWithin(st.em, e2, i, mb);
    } else {
      EraseBeside(st.em, e2, mb);
      EraseWithin(e2, mb);
      ResumeWithin(st.em, e2.Erase(mb), i, st.em.cur);
      WithinTransitive(e2, e2.Erase(mb), e2.Erase(mb).At(st.em.cur).Append(i).blocks);
    }
  }

  /** After the body of a called scope. */
  lemma EndCallLayout(st: TState, em1: Emit)
    requires Valid(st) && ValidEmit(em1) && Beside(st.em, em1) && st.em.nextBlock <= em1.cur
    requires Waiting(em1, st.em.nextBlock)
    ensures var nb := st.em.nextBlock;
      var em := EndCall(st, em1).em;
      && Within(CloseBody(em1, nb), em.blocks)
      && Within(st.em.Append(Br(nb + 1)), em.blocks)
      && (em1.FallsThrough() ==> em.cur == nb && em.Here() == [])
  {
    var nb := st.em.nextBlock;
    var i := Br(nb + 1);
    if em1.FallsThrough() {
      CloseBeside(st.em, em1, nb);
      WaitingClosed(em1, nb, nb);
      var e := em1.Append(Br(nb));
      assert e == CloseBody(em1, nb);
      hide CloseBody, Within, Beside;
      ResumeWithin(st.em, e, i, nb);
    } else {
      assert em1 == CloseBody(em1, nb);
      hide CloseBody, Within, Beside;
      EraseBeside(st.em, em1, nb);
      EraseWithin(em1, nb);
      ResumeWithin(st.em, em1.Erase(nb), i, st.em.cur);
      WithinTransitive(em1, em1.Erase(nb), em1.Erase(nb).At(st.em.cur).Append(i).blocks);
    }
  }

  // ---------------------------------------------------------------- run time

  /** Jump into a fresh block. */
  lemma Enter(env: Env, st: TState, i: Instr, inner: TState, bs: Blocks, f: Frame) returns (f': Frame)
    requires Ready(env, st, f) && Within(st.em.Append(i), bs)
    requires Exec(i, f) == Running(f.(block := inner.em.cur, idx := 0))
    requires Valid(inner) && inner.em.Here() == [] && inner.syms == st.syms && st.em.nextReg <= inner.em.nextReg
    ensures Leads(bs, Running(f), Running(f')) && Ready(env, inner, f') && Evolves(f, f')
  {
    StepAppended(st.em, i, bs, f);
    LeadsStep(bs, f);
    f' := f.(block := inner.em.cur, idx := 0);
    hide Leads, Within;
    RelEvolves(env, st.syms, f, f');
  }

  /** Jump from the end of a body to the block after it, leaving the body's scope. */
  lemma LeaveBody(env: Env, outer: Env, inner: TState, after: TState, bs: Blocks, f: Frame) returns (f': Frame)
    requires AtEnd(f, inner.em) && Rel(env, inner.syms, f) && FrameOk(f, inner.em)
    requires Within(inner.em.Append(Br(after.em.cur)), bs)
    requires Valid(after) && after.em.Here() == [] && inner.em.nextReg <= after.em.nextReg
    requires Keeps(after.syms, inner.syms) && outer.Keys == after.syms.Keys
    ensures Leads(bs, Running(f), Running(f')) && Ready(Leave(env, outer), after, f') && Evolves(f, f')
    ensures f'.regs == f.regs
  {
    StepAppended(inner.em, Br(after.em.cur), bs, f);
    LeadsStep(bs, f);
    f' := f.(block := after.em.cur, idx := 0);
    hide Leads, Within;
    RelEvolves(env, inner.syms, f, f');
    RelLeave(env, outer, inner.syms, after.syms, f');
  }
}
