/** Semantic preservation: the emitted blocks, run by the machine, do what the direct meaning of
    the source says. */
module Simulation {
  import opened Words
  import opened Ast
  import opened Ir
  import opened Emitter
  import opened Translation
  import opened Interp
  import opened Growth
  import opened Relation

  function After(st: TState, i: Instr): TState
  {
    st.(em := st.em.Define(i))
  }

  /** One appended instruction that defines the next register as w. */
  lemma SimDefine(env: Env, st: TState, i: Instr, bs: Blocks, f: Frame, w: MVal)
    requires Ready(env, st, f) && !IsTerminator(i)
    requires Within(st.em.Define(i), bs)
    requires Exec(i, f) == Define(f, st.em.nextReg, w)
    ensures Leads(bs, Running(f), Define(f, st.em.nextReg, w))
    ensures var f' := Define(f, st.em.nextReg, w).f;
      Ready(env, After(st, i), f') && Evolves(f, f') && Read(f', Reg(st.em.nextReg)) == w
  {
    StepAppended(st.em, i, bs, f);
    AppendGrows(st.em, i);
    AppendFallsThrough(st.em, i);
    RelEvolves(env, st.syms, f, Define(f, st.em.nextReg, w).f);
    LeadsStep(bs, f);
  }

  lemma LeadsTwo(bs: Blocks, f: Frame, f1: Frame)
    requires Step(bs, Running(f)) == Running(f1)
    ensures Leads(bs, Running(f), Step(bs, Running(f1)))
  {
    LeadsStep(bs, f);
    LeadsStep(bs, f1);
    hide Leads, Step;
    LeadsTransitive(bs, Running(f), Running(f1), Step(bs, Running(f1)));
  }

  lemma ReadyValid(env: Env, st: TState, f: Frame)
    requires Ready(env, st, f)
    ensures Valid(st) && ValidEmit(st.em)
  {
  }

  lemma ReadyMatches(x: Val, o: Operand, env: Env, st: TState, r: Result, f: Frame, c: Config)
    requires r.Ok? && r.v.TVal? && r.v.opd == o && r.v.ty == TypeOf(x)
    requires c.Running? && Ready(env, r.st, c.f) && Evolves(f, c.f) && Read(c.f, o) == Enc(x)
    ensures Matches(Normal(env, V(x)), st, r, f, c)
  {
  }

  lemma SimLoadVar(name: string, env: Env, st: TState, bs: Blocks, f: Frame) returns (c: Config)
    requires Ready(env, st, f) && name in st.syms
    requires Within(LoadVar(name, st).st.em, bs)
    ensures Leads(bs, Running(f), c)
    ensures Matches(Normal(env, V(env[name])), st, LoadVar(name, st), f, c)
    ensures Ready(env, LoadVar(name, st).st, c.f)
  {
    var s := st.syms[name];
    assert Holds(s, env[name], f);
    var w := f.mem[f.regs[s.cell].addr];
    SimDefine(env, st, Load(st.em.nextReg, Reg(s.cell)), bs, f, w);
    c := Define(f, st.em.nextReg, w);
  }

  // -------------------------------------------------------------- operators

  lemma EncBool(b: bool)
    ensures Enc(BoolV(b)) == Word(I1, if b then 1 else 0)
  {
  }

  /** The instruction chosen for an arithmetic operator, on encoded operands. */
  lemma ArithWord(op: BinOp, x: Val, y: Val)
    requires IsArith(op) && TypeOf(x) == TypeOf(y) && EvalBin(op, x, y).Some?
    ensures var v := EvalBin(op, x, y).value;
      TypeOf(v) == TypeOf(x) && ExecOp(OpcodeOf(op), TypeOf(x), Enc(x).n, Enc(y).n) == Some(Enc(v).n)
  {
    NumRange(x);
    NumRange(y);
    EncWord(x);
    EncWord(y);
    hide Enc, Num, Modulus, ToWord, ExecOp, Back;
    ArithRefines(op, TypeOf(x), Num(x), Num(y));
    var z := EvalArith(op, TypeOf(x), Num(x), Num(y)).value;
    BackWord(TypeOf(x), z);
    EncWord(Back(TypeOf(x), z));
  }

  lemma EncWord(v: Val)
    ensures Enc(v) == Word(TypeOf(v), ToWord(TypeOf(v), Num(v)))
  {
  }

  lemma SimArith(op: BinOp, x: Val, y: Val, vx: TVal, vy: TVal, env: Env, st: TState, bs: Blocks, f: Frame)
    returns (c: Config)
    requires Ready(env, st, f) && IsArith(op)
    requires ValRel(V(x), vx, f) && ValRel(V(y), vy, f) && TypeOf(x) == TypeOf(y)
    requires Within(ApplyBin(op, vx, vy, st).st.em, bs)
    requires EvalBin(op, x, y).Some?
    ensures Leads(bs, Running(f), c)
    ensures Matches(Normal(env, V(EvalBin(op, x, y).value)), st, ApplyBin(op, vx, vy, st), f, c)
  {
    ArithWord(op, x, y);
    EncWord(x);
    EncWord(y);
    EncWord(EvalBin(op, x, y).value);
    hide EvalBin, EvalArith, Enc, ExecOp, ToWord, Within, Ready, Evolves;
    var w := Enc(EvalBin(op, x, y).value);
    SimDefine(env, st, Arith(st.em.nextReg, OpcodeOf(op), vx.opd, vy.opd), bs, f, w);
    c := Define(f, st.em.nextReg, w);
    ReadyMatches(EvalBin(op, x, y).value, Reg(st.em.nextReg), env, st, ApplyBin(op, vx, vy, st), f, c);
  }

  lemma SimCompare(op: BinOp, x: Val, y: Val, vx: TVal, vy: TVal, env: Env, st: TState, bs: Blocks, f: Frame)
    returns (c: Config)
    requires Ready(env, st, f) && !IsArith(op) && !IsLogic(op)
    requires ValRel(V(x), vx, f) && ValRel(V(y), vy, f) && TypeOf(x) == TypeOf(y)
    requires Within(ApplyBin(op, vx, vy, st).st.em, bs)
    ensures Leads(bs, Running(f), c)
    ensures Matches(Normal(env, V(EvalBin(op, x, y).value)), st, ApplyBin(op, vx, vy, st), f, c)
  {
    NumRange(x);
    NumRange(y);
    CmpRefines(op, TypeOf(x), Num(x), Num(y));
    var b := EvalCmp(op, Num(x), Num(y));
    EncBool(b);
    SimDefine(env, st, Cmp(st.em.nextReg, PredOf(op), vx.opd, vy.opd), bs, f, Enc(BoolV(b)));
    c := Define(f, st.em.nextReg, Enc(BoolV(b)));
  }

  /** One of the two `icmp ne` instructions of a logical operator. */
  lemma SimTruth(b: bool, o: Operand, env: Env, st: TState, bs: Blocks, f: Frame)
    requires Ready(env, st, f) && Read(f, o) == Enc(BoolV(b))
    requires Within(st.em.Define(Cmp(st.em.nextReg, PNe, o, Const(I1, 0))), bs)
    ensures var f' := Define(f, st.em.nextReg, Enc(BoolV(b))).f;
      && Leads(bs, Running(f), Running(f')) && Evolves(f, f') && Read(f', Reg(st.em.nextReg)) == Enc(BoolV(b))
      && Ready(env, After(st, Cmp(st.em.nextReg, PNe, o, Const(I1, 0))), f')
  {
    EncBool(b);
    SimDefine(env, st, Cmp(st.em.nextReg, PNe, o, Const(I1, 0)), bs, f, Enc(BoolV(b)));
  }

  lemma LogicWord(op: BinOp, x: bool, y: bool)
    requires IsLogic(op)
    ensures var b := if op == LAnd then x && y else x || y;
      ExecOp(if op == LAnd then OAnd else OOr, I1, if x then 1 else 0, if y then 1 else 0)
        == Some(if b then 1 else 0)
  {
  }

  /** Code before a defining instruction is there if the code after it is. */
  lemma WithinBefore(em: Emit, i: Instr, bs: Blocks)
    requires ValidEmit(em) && Within(em.Define(i), bs)
    ensures ValidEmit(em.Define(i)) && Within(em, bs)
  {
    AppendGrows(em, i);
    GrowsWithin(em, em.Define(i));
    WithinTransitive(em, em.Define(i), bs);
  }

  /** Both `icmp ne` instructions of a logical operator. */
  lemma SimTruths(x: bool, y: bool, vx: TVal, vy: TVal, env: Env, st: TState, bs: Blocks, f: Frame)
    returns (f2: Frame)
    requires Ready(env, st, f) && ValRel(V(BoolV(x)), vx, f) && ValRel(V(BoolV(y)), vy, f)
    requires Within(Truths(vx, vy, st).em, bs)
    ensures Leads(bs, Running(f), Running(f2))
    ensures Ready(env, Truths(vx, vy, st), f2) && Evolves(f, f2)
    ensures Read(f2, Reg(st.em.nextReg)) == Enc(BoolV(x)) && Read(f2, Reg(st.em.nextReg + 1)) == Enc(BoolV(y))
  {
    hide Ready, Valid, ValidEmit, Rel, Evolves, Within, Grows;
    var r := st.em.nextReg;
    var s1 := After(st, Cmp(r, PNe, vx.opd, Const(I1, 0)));
    ReadyValid(env, st, f);
    AppendGrows(st.em, Cmp(r, PNe, vx.opd, Const(I1, 0)));
    WithinBefore(s1.em, Cmp(r + 1, PNe, vy.opd, Const(I1, 0)), bs);
    SimTruth(x, vx.opd, env, st, bs, f);
    var f1 := Define(f, r, Enc(BoolV(x))).f;
    ValRelEvolves(V(BoolV(y)), vy, f, f1);
    SimTruth(y, vy.opd, env, s1, bs, f1);
    f2 := Define(f1, r + 1, Enc(BoolV(y))).f;
    EvolvesTransitive(f, f1, f2);
    LeadsTransitive(bs, Running(f), Running(f1), Running(f2));
  }

  function Truths(vx: TVal, vy: TVal, st: TState): TState
    requires vx.TVal? && vy.TVal?
  {
    After(After(st, Cmp(st.em.nextReg, PNe, vx.opd, Const(I1, 0))),
          Cmp(st.em.nextReg + 1, PNe, vy.opd, Const(I1, 0)))
  }

  lemma SimLogic(op: BinOp, x: bool, y: bool, vx: TVal, vy: TVal, env: Env, st: TState, bs: Blocks, f: Frame)
    returns (c: Config)
    requires Ready(env, st, f) && IsLogic(op)
    requires ValRel(V(BoolV(x)), vx, f) && ValRel(V(BoolV(y)), vy, f)
    requires Within(ApplyBin(op, vx, vy, st).st.em, bs)
    ensures Leads(bs, Running(f), c)
    ensures Matches(Normal(env, V(EvalBin(op, BoolV(x), BoolV(y)).value)), st, ApplyBin(op, vx, vy, st), f, c)
  {
    var r := st.em.nextReg;
    hide Ready, Valid, ValidEmit, Rel, Evolves, Within, Grows, Matches, Exec;
    var i3 := Arith(r + 2, if op == LAnd then OAnd else OOr, Reg(r), Reg(r + 1));
    var s2 := Truths(vx, vy, st);
    assert ApplyBin(op, vx, vy, st).st == After(s2, i3);
    ReadyValid(env, st, f);
    TruthsValid(vx, vy, st);
    WithinBefore(s2.em, i3, bs);
    var f2 := SimTruths(x, y, vx, vy, env, st, bs, f);
    var b := if op == LAnd then x && y else x || y;
    ExecLogic(op, x, y, r, f2);
    SimDefine(env, s2, i3, bs, f2, Enc(BoolV(b)));
    c := Define(f2, r + 2, Enc(BoolV(b)));
    EvolvesTransitive(f, f2, c.f);
    LeadsTransitive(bs, Running(f), Running(f2), c);
    ReadyMatches(BoolV(b), Reg(r + 2), env, st, ApplyBin(op, vx, vy, st), f, c);
  }

  lemma ExecLogic(op: BinOp, x: bool, y: bool, r: nat, f: Frame)
    requires IsLogic(op) && Read(f, Reg(r)) == Enc(BoolV(x)) && Read(f, Reg(r + 1)) == Enc(BoolV(y))
    ensures Exec(Arith(r + 2, if op == LAnd then OAnd else OOr, Reg(r), Reg(r + 1)), f)
         == Define(f, r + 2, Enc(BoolV(if op == LAnd then x && y else x || y)))
  {
    LogicWord(op, x, y);
    EncBool(x);
    EncBool(y);
    EncBool(if op == LAnd then x && y else x || y);
  }

  lemma TruthsValid(vx: TVal, vy: TVal, st: TState)
    requires Valid(st) && vx.TVal? && vy.TVal?
    ensures ValidEmit(Truths(vx, vy, st).em) && Truths(vx, vy, st).em.nextReg == st.em.nextReg + 2
  {
  }

  lemma SimBin(op: BinOp, x: Val, y: Val, vx: TVal, vy: TVal, env: Env, st: TState, bs: Blocks, f: Frame)
    returns (c: Config)
    requires Ready(env, st, f)
    requires ValRel(V(x), vx, f) && ValRel(V(y), vy, f)
    requires ApplyBin(op, vx, vy, st).Ok? && Within(ApplyBin(op, vx, vy, st).st.em, bs)
    ensures TypeOf(x) == TypeOf(y) && (IsLogic(op) ==> x.BoolV? && y.BoolV?)
    ensures Leads(bs, Running(f), c)
    ensures EvalBin(op, x, y).Some? ==>
      Matches(Normal(env, V(EvalBin(op, x, y).value)), st, ApplyBin(op, vx, vy, st), f, c)
  {
    if IsLogic(op) {
      c := SimLogic(op, x.b, y.b, vx, vy, env, st, bs, f);
    } else if EvalBin(op, x, y).None? {
      c := Running(f);
      LeadsSelf(bs, c);
    } else if IsArith(op) {
      c := SimArith(op, x, y, vx, vy, env, st, bs, f);
    } else {
      c := SimCompare(op, x, y, vx, vy, env, st, bs, f);
    }
  }

  // -------------------------------------------- choosing through a temporary

  lemma SelectLayout(c: Operand, x: Operand, y: Operand, cty: CellTy, em: Emit)
    requires ValidEmit(em)
    ensures var bs, d, tb := Select(c, x, y, cty, em).blocks, em.nextReg, em.nextBlock;
      && BodyOf(bs, em.cur) == em.Here() + [Alloca(d, cty, Temporary), CondBr(c, tb, tb + 1)]
      && BodyOf(bs, tb) == [Store(x, Reg(d)), Br(tb + 2)]
      && BodyOf(bs, tb + 1) == [Store(y, Reg(d)), Br(tb + 2)]
      && BodyOf(bs, tb + 2) == [Load(d + 1, Reg(d))]
  {
  }

  /** The frame after a choice whose result is w. */
  function SelectFrame(f: Frame, d: nat, w: MVal, mb: nat): Frame
  {
    f.(block := mb, idx := 1, regs := f.regs[d := Ptr(|f.mem|)][d + 1 := w], mem := f.mem + [w])
  }

  lemma Fetch(em: Emit, bs: Blocks, b: nat, k: nat)
    requires Within(em, bs) && k < |BodyOf(em.blocks, b)|
    ensures k < |BodyOf(bs, b)| && BodyOf(bs, b)[k] == BodyOf(em.blocks, b)[k]
  {
    assert BodyOf(em.blocks, b) <= BodyOf(bs, b);
  }

  /** Entering the block of the chosen arm. */
  lemma SelectEnter(c: Operand, x: Operand, y: Operand, cty: CellTy, b: bool, em: Emit, bs: Blocks, f: Frame)
    returns (f2: Frame)
    requires ValidEmit(em) && AtEnd(f, em) && em.nextReg !in f.regs
    requires Read(f, c) == Enc(BoolV(b))
    requires Within(Select(c, x, y, cty, em), bs)
    ensures Leads(bs, Running(f), Running(f2))
    ensures f2 == f.(block := if b then em.nextBlock else em.nextBlock + 1, idx := 0,
                     regs := f.regs[em.nextReg := Ptr(|f.mem|)], mem := f.mem + [Undef])
  {
    SelectLayout(c, x, y, cty, em);
    EncBool(b);
    Fetch(Select(c, x, y, cty, em), bs, em.cur, f.idx);
    Fetch(Select(c, x, y, cty, em), bs, em.cur, f.idx + 1);
    f2 := f.(block := if b then em.nextBlock else em.nextBlock + 1, idx := 0,
             regs := f.regs[em.nextReg := Ptr(|f.mem|)], mem := f.mem + [Undef]);
    var f1 := f2.(block := f.block, idx := f.idx + 1);
    assert Step(bs, Running(f)) == Running(f1);
    assert Step(bs, Running(f1)) == Running(f2);
    LeadsTwo(bs, f, f1);
  }

  lemma SelectRuns(c: Operand, x: Operand, y: Operand, cty: CellTy, b: bool, w: MVal, em: Emit, bs: Blocks, f: Frame)
    requires ValidEmit(em) && AtEnd(f, em) && em.nextReg !in f.regs
    requires Read(f, c) == Enc(BoolV(b)) && w != Undef && Read(f, if b then x else y) == w
    requires Within(Select(c, x, y, cty, em), bs)
    ensures Leads(bs, Running(f), Running(SelectFrame(f, em.nextReg, w, em.nextBlock + 2)))
  {
    var d, tb := em.nextReg, em.nextBlock;
    var f2 := SelectEnter(c, x, y, cty, b, em, bs, f);
    SelectLayout(c, x, y, cty, em);
    var em' := Select(c, x, y, cty, em);
    hide Within, Leads, Select, ValidEmit, AtEnd, Step, Exec, Enc;
    Fetch(em', bs, f2.block, 0);
    Fetch(em', bs, f2.block, 1);
    Fetch(em', bs, tb + 2, 0);
    SelectArrive(f, f2, if b then x else y, d, w, tb + 2);
    hide SelectFrame, Read;
    SelectFinish(if b then x else y, d, tb + 2, w, bs, f2);
    LeadsTransitive(bs, Running(f), Running(f2), Running(SelectFrame(f, d, w, tb + 2)));
  }

  lemma SelectArrive(f: Frame, f2: Frame, o: Operand, d: nat, w: MVal, mb: nat)
    requires f2.regs == f.regs[d := Ptr(|f.mem|)] && f2.mem == f.mem + [Undef] && f2.args == f.args
    requires Read(f, o) == w != Undef && d !in f.regs
    ensures Read(f2, o) == w && Read(f2, Reg(d)) == Ptr(|f2.mem| - 1)
    ensures f2.(block := mb, idx := 1, regs := f2.regs[d + 1 := w], mem := f2.mem[|f2.mem| - 1 := w])
         == SelectFrame(f, d, w, mb)
  {
    assert (f.mem + [Undef])[|f.mem| := w] == f.mem + [w];
  }

  /** The arm's block and the block where both arms meet. */
  lemma SelectFinish(o: Operand, d: nat, mb: nat, w: MVal, bs: Blocks, f: Frame)
    requires f.idx == 0 && |BodyOf(bs, f.block)| > 1 && |BodyOf(bs, mb)| > 0
    requires BodyOf(bs, f.block)[0] == Store(o, Reg(d)) && BodyOf(bs, f.block)[1] == Br(mb)
    requires BodyOf(bs, mb)[0] == Load(d + 1, Reg(d))
    requires |f.mem| > 0 && Read(f, o) == w != Undef && Read(f, Reg(d)) == Ptr(|f.mem| - 1)
    ensures Leads(bs, Running(f),
                  Running(f.(block := mb, idx := 1, regs := f.regs[d + 1 := w], mem := f.mem[|f.mem| - 1 := w])))
  {
    var f1 := f.(idx := 1, mem := f.mem[|f.mem| - 1 := w]);
    assert Step(bs, Running(f)) == Running(f1);
    var f2 := f1.(block := mb, idx := 0);
    assert Step(bs, Running(f1)) == Running(f2);
    var f3 := f2.(idx := 1, regs := f.regs[d + 1 := w]);
    assert Step(bs, Running(f2)) == Running(f3);
    LeadsTwo(bs, f, f1);
    LeadsStep(bs, f2);
    hide Leads;
    LeadsTransitive(bs, Running(f), Running(f2), Running(f3));
  }

  lemma SelectCursor(c: Operand, x: Operand, y: Operand, cty: CellTy, em: Emit)
    ensures Select(c, x, y, cty, em).cur == em.nextBlock + 2
  {
  }

  lemma SelectEnd(c: Operand, x: Operand, y: Operand, cty: CellTy, w: MVal, em: Emit, f: Frame)
    requires ValidEmit(em)
    ensures var em' := Select(c, x, y, cty, em);
      && ValidEmit(em') && em'.nextReg == em.nextReg + 2 && em'.FallsThrough()
      && AtEnd(SelectFrame(f, em.nextReg, w, em.nextBlock + 2), em')
  {
    SelectLayout(c, x, y, cty, em);
    SelectGrows(c, x, y, cty, em);
    SelectCursor(c, x, y, cty, em);
    hide Select, ValidEmit, Grows;
  }

  lemma SelectReady(c: Operand, x: Operand, y: Operand, cty: CellTy, w: MVal, env: Env, st: TState, f: Frame)
    requires Ready(env, st, f)
    ensures var f' := SelectFrame(f, st.em.nextReg, w, st.em.nextBlock + 2);
      Ready(env, st.(em := Select(c, x, y, cty, st.em)), f') && Evolves(f, f') && Read(f', Reg(st.em.nextReg + 1)) == w
  {
    SelectEnd(c, x, y, cty, w, st.em, f);
    hide Rel, Select, AtEnd;
    RelEvolves(env, st.syms, f, SelectFrame(f, st.em.nextReg, w, st.em.nextBlock + 2));
  }

  lemma SimSelect(c: Operand, x: Operand, y: Operand, cty: CellTy, b: bool, w: MVal,
                  env: Env, st: TState, bs: Blocks, f: Frame) returns (f': Frame)
    requires Ready(env, st, f)
    requires Read(f, c) == Enc(BoolV(b)) && w != Undef && Read(f, if b then x else y) == w
    requires Within(Select(c, x, y, cty, st.em), bs)
    ensures Leads(bs, Running(f), Running(f'))
    ensures Ready(env, st.(em := Select(c, x, y, cty, st.em)), f') && Evolves(f, f')
    ensures Read(f', Reg(st.em.nextReg + 1)) == w
  {
    ReadyFresh(env, st, f);
    hide Ready, Within, Evolves, AtEnd, ValidEmit, Valid;
    SelectRuns(c, x, y, cty, b, w, st.em, bs, f);
    SelectReady(c, x, y, cty, w, env, st, f);
    f' := SelectFrame(f, st.em.nextReg, w, st.em.nextBlock + 2);
  }

  lemma ReadyFresh(env: Env, st: TState, f: Frame)
    requires Ready(env, st, f)
    ensures ValidEmit(st.em) && AtEnd(f, st.em) && st.em.nextReg !in f.regs
  {
  }

  // ------------------------------------------------------------- assignment

  /** The place found for an assignment is the cell of variable `name`, or a declaration of it. */
  ghost predicate PlaceRel(lhs: LVal, place: Place, name: string, t: Table, f: Frame)
  {
    match place
    case Fresh => lhs.LVar? && lhs.name == name
    case Known(s) => lhs.LVar? && lhs.name == name && name in t && t[name].cell == s.cell && t[name].ty == s.ty
    case Pointed(p, ty) =>
      lhs.LCond? && name in t && t[name].ty == ty && t[name].cell in f.regs
      && p.Reg? && p.r in f.regs && f.regs[p.r] == f.regs[t[name].cell]
  }

  lemma PlaceRelEvolves(lhs: LVal, place: Place, name: string, t: Table, t': Table, f: Frame, f': Frame)
    requires PlaceRel(lhs, place, name, t, f) && Keeps(t, t') && Evolves(f, f')
    ensures PlaceRel(lhs, place, name, t', f')
  {
  }

  /** Storing x in the cell of a declared variable. */
  lemma SimStore(name: string, x: Val, o: Operand, p: Operand, isConst: bool, env: Env, st: TState, bs: Blocks,
                 f: Frame)
    returns (f': Frame)
    requires Ready(env, st, f) && Read(f, o) == Enc(x)
    requires name in st.syms && st.syms[name].ty == TypeOf(x)
    requires p.Reg? && Read(f, p) == Read(f, Reg(st.syms[name].cell))
    requires Within(st.em.Append(Store(o, p)), bs)
    ensures Leads(bs, Running(f), Running(f')) && Evolves(f, f') && f'.regs == f.regs
    ensures Ready(env[name := x],
                  TState(st.em.Append(Store(o, p)), st.syms[name := st.syms[name].(isConst := isConst)]), f')
  {
    assert Holds(st.syms[name], env[name], f);
    StepAppended(st.em, Store(o, p), bs, f);
    AppendGrows(st.em, Store(o, p));
    AppendFallsThrough(st.em, Store(o, p));
    LeadsStep(bs, f);
    hide Within, Leads;
    RelStore(env, st.syms, f, name, x, isConst);
    f' := f.(idx := f.idx + 1, mem := f.mem[f.regs[st.syms[name].cell].addr := Enc(x)]);
  }

  /** Declaring a variable: a new cell, then its first store. */
  lemma SimDeclare(name: string, tag: Tag, isConst: bool, x: Val, o: Operand, env: Env, st: TState, bs: Blocks,
                   f: Frame)
    returns (f': Frame)
    requires Ready(env, st, f) && Read(f, o) == Enc(x)
    requires Within(Declared(name, tag, isConst, TypeOf(x), o, st).em, bs)
    ensures Leads(bs, Running(f), Running(f')) && Evolves(f, f')
    ensures Ready(env[name := x], Declared(name, tag, isConst, TypeOf(x), o, st), f')
  {
    var r := st.em.nextReg;
    var i := Alloca(r, Scalar(TypeOf(x)), tag);
    var em1 := st.em.Define(i);
    ReadyFresh(env, st, f);
    AppendGrows(st.em, i);
    WithinAppend(em1, Store(o, Reg(r)), bs);
    StepAppended(st.em, i, bs, f);
    var f1 := f.(idx := f.idx + 1, regs := f.regs[r := Ptr(|f.mem|)], mem := f.mem + [Undef]);
    StepAppended(em1, Store(o, Reg(r)), bs, f1);
    f' := f.(idx := f.idx + 2, regs := f.regs[r := Ptr(|f.mem|)], mem := f.mem + [Enc(x)]);
    LeadsTwo(bs, f, f1);
    hide Within, Leads;
    DeclareReady(name, tag, isConst, x, o, env, st, f);
  }

  lemma WithinAppend(em: Emit, i: Instr, bs: Blocks)
    requires ValidEmit(em) && Within(em.Append(i), bs)
    ensures Within(em, bs)
  {
    AppendGrows(em, i);
    GrowsWithin(em, em.Append(i));
    WithinTransitive(em, em.Append(i), bs);
  }

  lemma DeclareReady(name: string, tag: Tag, isConst: bool, x: Val, o: Operand, env: Env, st: TState, f: Frame)
    requires Ready(env, st, f)
    ensures var f' := f.(idx := f.idx + 2, regs := f.regs[st.em.nextReg := Ptr(|f.mem|)], mem := f.mem + [Enc(x)]);
      Ready(env[name := x], Declared(name, tag, isConst, TypeOf(x), o, st), f')
  {
    var r := st.em.nextReg;
    var i, j := Alloca(r, Scalar(TypeOf(x)), tag), Store(o, Reg(r));
    AppendGrows(st.em, i);
    AppendGrows(st.em.Define(i), j);
    AppendFallsThrough(st.em, i);
    AppendFallsThrough(st.em.Define(i), j);
    RelDeclare(env, st.syms, f, name, x, r, isConst);
  }

  lemma SimAssign(lhs: LVal, place: Place, name: string, x: Val, v: TVal, env: Env, st: TState, bs: Blocks, f: Frame)
    returns (c: Config)
    requires Ready(env, st, f) && ValRel(V(x), v, f) && PlaceRel(lhs, place, name, st.syms, f)
    requires ApplyAssign(lhs, place, v, st).Ok? && Within(ApplyAssign(lhs, place, v, st).st.em, bs)
    ensures Leads(bs, Running(f), c)
    ensures Matches(Normal(env[name := x], V(x)), st, ApplyAssign(lhs, place, v, st), f, c)
  {
    hide Ready, Within, Evolves, Matches, Leads;
    var r := ApplyAssign(lhs, place, v, st);
    var f';
    match place {
      case Fresh =>
        f' := SimDeclare(name, Variable(name, lhs.mut), !lhs.mut, x, v.opd, env, st, bs, f);
      case Known(s) =>
        f' := SimStore(name, x, v.opd, Reg(s.cell), v.isConst, env, st, bs, f);
      case Pointed(p, ty) =>
        assert st.syms[name := st.syms[name].(isConst := st.syms[name].isConst)] == st.syms;
        f' := SimStore(name, x, v.opd, p, st.syms[name].isConst, env, st, bs, f);
    }
    c := Running(f');
    ValRelEvolves(V(x), v, f, f');
    ReadyMatches(x, v.opd, env[name := x], st, r, f, c);
  }

}
