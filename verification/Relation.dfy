/** When a machine state represents a source state. */
module Relation {
  import opened Words
  import opened Ast
  import opened Ir
  import opened Emitter
  import opened Translation
  import opened Interp
  import opened Growth

  function Enc(v: Val): MVal
  {
    match v
    case IntV(i) => Word(I32, ToWord(I32, i))
    case BoolV(b) => Word(I1, if b then 1 else 0)
  }

  /** The frame is about to execute the next instruction appended to em. */
  ghost predicate AtEnd(f: Frame, em: Emit)
  {
    match em case Emit(blocks, cur, _, _) =>
      f.block == cur && f.idx == |BodyOf(blocks, cur)|
  }

  /** No register of the frame is one still to be allocated. */
  ghost predicate FrameOk(f: Frame, em: Emit)
  {
    match f case Frame(_, _, regs, _, _) =>
      forall r | r in regs :: r < em.nextReg
  }

  /** The cell of symbol s holds v. */
  ghost predicate Holds(s: Symbol, v: Val, f: Frame)
  {
    match s case Symbol(cell, ty, _) =>
      && TypeOf(v) == ty && cell in f.regs && f.regs[cell].Ptr?
      && f.regs[cell].addr < |f.mem| && f.mem[f.regs[cell].addr] == Enc(v)
  }

  ghost predicate HoldsAll(t: Table, env: Env, f: Frame)
  {
    forall n | n in t :: n in env && Holds(t[n], env[n], f)
  }

  ghost predicate Apart(t: Table, f: Frame)
  {
    forall n, m | n in t && m in t && n != m && t[n].cell in f.regs && t[m].cell in f.regs ::
      f.regs[t[n].cell] != f.regs[t[m].cell]
  }

  /** Exactly the variables of the environment are visible, each in a cell of its own holding
      the variable's value. */
  ghost predicate Rel(env: Env, t: Table, f: Frame)
  {
    match f case Frame(_, _, _, _, _) =>
      env.Keys == t.Keys && HoldsAll(t, env, f) && Apart(t, f)
  }

  ghost predicate ValRel(y: Yield, v: TVal, f: Frame)
  {
    match y
    case Void => v.Nothing?
    case V(x) => v.TVal? && v.ty == TypeOf(x) && Read(f, v.opd) == Enc(x)
  }

  /** Registers are never redefined and memory only grows. */
  ghost predicate Evolves(f: Frame, f': Frame)
  {
    match f case Frame(_, _, regs, mem, args) =>
      && (forall r | r in regs :: r in f'.regs && f'.regs[r] == regs[r])
      && |mem| <= |f'.mem| && f'.args == args
  }

  /** All code of em is still there, unmoved, in bs. */
  ghost predicate Within(em: Emit, bs: Blocks)
  {
    match em case Emit(blocks, _, _, _) =>
      forall b :: BodyOf(blocks, b) <= BodyOf(bs, b)
  }

  /** A configuration reached from f represents outcome o of an expression translated from
      state st to result r. */
  ghost predicate Matches(o: Outcome, st: TState, r: Result, f: Frame, c: Config)
    requires r.Ok?
  {
    match o
    case Normal(env, y) =>
      && c.Running? && AtEnd(c.f, r.st.em) && r.st.em.FallsThrough()
      && Rel(env, r.st.syms, c.f) && FrameOk(c.f, r.st.em) && Evolves(f, c.f) && ValRel(y, r.v, c.f)
    case Return(env, v) =>
      c.Returned? && c.v == Enc(v) && Evolves(f, c.fin) && HoldsAll(st.syms, env, c.fin)
    case Undefined => true
    case Wrong => false
  }

  /** Ready to run the code of an expression translated from st. */
  ghost predicate Ready(env: Env, st: TState, f: Frame)
  {
    match st case TState(em, syms) =>
      Valid(st) && em.FallsThrough() && AtEnd(f, em) && Rel(env, syms, f) && FrameOk(f, em)
  }

  lemma WithinTransitive(a: Emit, b: Emit, bs: Blocks)
    requires Within(a, b.blocks) && Within(b, bs)
    ensures Within(a, bs)
  {
    forall x
      ensures BodyOf(a.blocks, x) <= BodyOf(bs, x)
    {
      assert BodyOf(b.blocks, x) <= BodyOf(bs, x);
    }
  }

  lemma GrowsWithin(em: Emit, em': Emit)
    requires Grows(em, em')
    ensures Within(em, em'.blocks)
  {
    forall b
      ensures BodyOf(em.blocks, b) <= BodyOf(em'.blocks, b)
    {
      if b in em.blocks && b != em.cur {
        assert em'.blocks[b] == em.blocks[b];
      }
    }
  }

  /** The next instruction is the one appended. */
  lemma StepAppended(em: Emit, i: Instr, bs: Blocks, f: Frame)
    requires AtEnd(f, em) && Within(em.Append(i), bs)
    ensures Step(bs, Running(f)) == Exec(i, f)
  {
    assert BodyOf(em.Append(i).blocks, em.cur) <= BodyOf(bs, em.cur);
    assert BodyOf(em.Append(i).blocks, em.cur) == em.Here() + [i];
    assert BodyOf(bs, em.cur)[f.idx] == i;
  }

  lemma AppendFallsThrough(em: Emit, i: Instr)
    requires em.FallsThrough()
    ensures em.Append(i).FallsThrough() <==> !IsTerminator(i)
    ensures em.Define(i).FallsThrough() <==> !IsTerminator(i)
  {
    TerminatorAppend(em.Here(), i);
  }

  lemma RelEvolves(env: Env, t: Table, f: Frame, f': Frame)
    requires Rel(env, t, f) && Evolves(f, f')
    requires forall a | 0 <= a < |f.mem| :: f'.mem[a] == f.mem[a]
    ensures Rel(env, t, f')
  {
  }

  lemma EvolvesTransitive(a: Frame, b: Frame, c: Frame)
    requires Evolves(a, b) && Evolves(b, c)
    ensures Evolves(a, c)
  {
  }

  lemma ValRelEvolves(y: Yield, v: TVal, f: Frame, f': Frame)
    requires ValRel(y, v, f) && Evolves(f, f')
    ensures ValRel(y, v, f')
  {
  }

  /** Storing a value of the right type into the cell of n updates exactly n. */
  lemma RelStore(env: Env, t: Table, f: Frame, n: string, v: Val, isConst: bool)
    requires Rel(env, t, f) && n in t && t[n].ty == TypeOf(v)
    ensures var a := f.regs[t[n].cell].addr;
      Rel(env[n := v], t[n := t[n].(isConst := isConst)], f.(idx := f.idx + 1, mem := f.mem[a := Enc(v)]))
  {
  }

  /** A new cell for n. */
  lemma RelDeclare(env: Env, t: Table, f: Frame, n: string, v: Val, r: nat, isConst: bool)
    requires Rel(env, t, f) && r !in f.regs
    ensures Rel(env[n := v], t[n := Symbol(r, TypeOf(v), isConst)],
                f.(idx := f.idx + 2, regs := f.regs[r := Ptr(|f.mem|)], mem := f.mem + [Enc(v)]))
  {
  }

  /** Leaving a scope: the outer table represents the outer names with their new values. */
  lemma RelLeave(inner: Env, outer: Env, t': Table, t: Table, f: Frame)
    requires Rel(inner, t', f) && Keeps(t, t') && outer.Keys == t.Keys
    ensures Rel(Leave(inner, outer), t, f)
  {
    forall n, m | n in t && m in t && n != m
      ensures f.regs[t[n].cell] != f.regs[t[m].cell]
    {
      assert n in t' && m in t';
      assert Holds(t'[n], inner[n], f) && Holds(t'[m], inner[m], f);
    }
  }

  lemma HoldsLeave(inner: Env, outer: Env, t: Table, f: Frame)
    requires HoldsAll(t, inner, f) && t.Keys <= outer.Keys
    ensures HoldsAll(t, Leave(inner, outer), f)
  {
  }
}
