/** Compiler correctness for whole functions. */
module Correctness {
  import opened Words
  import opened Ast
  import opened Ir
  import opened Emitter
  import opened Translation
  import opened Interp
  import opened Growth
  import opened Relation
  import opened Simulation
  import opened Preservation
  import opened Evaluation
  import opened Survey

  function EncAll(vals: seq<Val>): seq<MVal>
  {
    seq(|vals|, k requires 0 <= k < |vals| => Enc(vals[k]))
  }

  /** The environment a body starts in: parameters from the k-th on, added to env. */
  function BindParams(params: seq<Parameter>, vals: seq<Val>, k: nat, env: Env): Env
    requires |params| == |vals| && k <= |vals|
    decreases |vals| - k
  {
    if k == |vals| then env else BindParams(params, vals, k + 1, env[params[k].name := vals[k]])
  }

  function Start(vals: seq<Val>): Frame
  {
    Frame(0, 0, map[], [], EncAll(vals))
  }

  ghost predicate ArgumentsFit(args: seq<Argument>, vals: seq<Val>)
  {
    |args| == |vals| && forall k | 0 <= k < |vals| :: args[k].ty == TypeOf(vals[k])
  }

  // --------------------------------------------------------------- prologue

  lemma SelfReady(bs: Blocks, vals: seq<Val>) returns (f: Frame)
    requires Within(SelfCell(true).em, bs)
    ensures Leads(bs, Running(Start(vals)), Running(f))
    ensures Ready(map[], SelfCell(true), f) && f.args == EncAll(vals)
  {
    var em0 := Emit(map[0 := []], 0, 1, 0);
    var i, j := Alloca(0, FunctionPointer, Self), Store(ThisFunction, Reg(0));
    var em1 := em0.Define(i);
    var f0 := Start(vals);
    assert SelfCell(true).em == em1.Append(j);
    assert BodyOf(SelfCell(true).em.blocks, 0) == [i, j];
    Fetch(SelfCell(true).em, bs, 0, 0);
    Fetch(SelfCell(true).em, bs, 0, 1);
    var f1 := f0.(idx := 1, regs := map[0 := Ptr(0)], mem := [Undef]);
    assert Step(bs, Running(f0)) == Running(f1);
    f := f1.(idx := 2, mem := [Function]);
    assert Step(bs, Running(f1)) == Running(f);
    LeadsTwo(bs, f0, f1);
    assert SelfCell(true).em.Here() == [i, j];
    assert SelfCell(true).em.FallsThrough();
  }

  lemma SelfValid()
    ensures Valid(SelfCell(true))
  {
  }

  lemma DeclaredAdvances(name: string, tag: Tag, isConst: bool, ty: Ty, o: Operand, st: TState)
    requires Valid(st)
    ensures Valid(Declared(name, tag, isConst, ty, o, st))
    ensures Grows(st.em, Declared(name, tag, isConst, ty, o, st).em)
  {
    var r := st.em.nextReg;
    var i := Alloca(r, Scalar(ty), tag);
    AppendGrows(st.em, i);
    AppendGrows(st.em.Define(i), Store(o, Reg(r)));
    hide Grows;
    GrowsTransitive(st.em, st.em.Define(i), st.em.Define(i).Append(Store(o, Reg(r))));
  }

  lemma {:induction false} DeclareParamsGrows(params: seq<Parameter>, args: seq<Argument>, k: nat, st: TState)
    requires |params| == |args| && k <= |args| && Valid(st)
    ensures Valid(DeclareParams(params, args, k, true, st)) && Grows(st.em, DeclareParams(params, args, k, true, st).em)
    decreases |args| - k
  {
    if k < |args| {
      hide Grows, Valid;
      var d := Declared(params[k].name, Ir.Argument(params[k].name), args[k].isConst, args[k].ty, Param(k), st);
      DeclaredAdvances(params[k].name, Ir.Argument(params[k].name), args[k].isConst, args[k].ty, Param(k), st);
      DeclareParamsGrows(params, args, k + 1, d);
      ValidEmits(st);
      ValidEmits(d);
      GrowsTransitive(st.em, d.em, DeclareParams(params, args, k, true, st).em);
    }
  }

  lemma ValidEmits(st: TState)
    requires Valid(st)
    ensures ValidEmit(st.em)
  {
  }

  /** Each parameter ends up in its own cell under its name. */
  lemma {:induction false} SimParams(params: seq<Parameter>, args: seq<Argument>, vals: seq<Val>, k: nat, env: Env,
                                     st: TState, bs: Blocks, f: Frame) returns (f': Frame)
    requires |params| == |args| && k <= |args| && ArgumentsFit(args, vals) && f.args == EncAll(vals)
    requires Ready(env, st, f) && Within(DeclareParams(params, args, k, true, st).em, bs)
    ensures Leads(bs, Running(f), Running(f'))
    ensures Ready(BindParams(params, vals, k, env), DeclareParams(params, args, k, true, st), f')
    decreases |args| - k
  {
    hide Ready, Within, Leads, Evolves, Declared, Enc, Valid, Grows, Read, EncAll;
    if k == |args| {
      f' := f;
      LeadsSelf(bs, Running(f));
    } else {
      var name, tag := params[k].name, Ir.Argument(params[k].name);
      var d := Declared(name, tag, args[k].isConst, args[k].ty, Param(k), st);
      ParamRead(f, vals, k);
      ReadyValid(env, st, f);
      DeclaredAdvances(name, tag, args[k].isConst, args[k].ty, Param(k), st);
      DeclareParamsGrows(params, args, k + 1, d);
      GrowsWithin(d.em, DeclareParams(params, args, k + 1, true, d).em);
      WithinTransitive(d.em, DeclareParams(params, args, k + 1, true, d).em, bs);
      var f1 := SimDeclare(name, tag, args[k].isConst, vals[k], Param(k), env, st, bs, f);
      EvolvesArgs(f, f1);
      f' := SimParams(params, args, vals, k + 1, env[name := vals[k]], d, bs, f1);
      LeadsTransitive(bs, Running(f), Running(f1), Running(f'));
    }
  }

  lemma ParamRead(f: Frame, vals: seq<Val>, k: nat)
    requires f.args == EncAll(vals) && k < |vals|
    ensures Read(f, Param(k)) == Enc(vals[k])
  {
  }

  lemma EvolvesArgs(f: Frame, f': Frame)
    requires Evolves(f, f')
    ensures f'.args == f.args
  {
  }

  // ------------------------------------------------------------ whole function

  /** A machine word that reads back as a number or a truth value. */
  predicate Reads(w: MVal, v: Val)
  {
    w.Word? && match v
               case IntV(i) =>
                 w.ty == I32 && w.n < 0x1_0000_0000 && i == if w.n < 0x8000_0000 then w.n else w.n - 0x1_0000_0000
               case BoolV(b) => w.ty == I1 && w.n == if b then 1 else 0
  }

  lemma EncReads(v: Val)
    ensures Reads(Enc(v), v)
  {
  }

  /** The result of running a function represents the outcome of its body. */
  ghost predicate Implements(o: Outcome, fn: FunctionIr, st: TState, params: Table, c: Config)
  {
    match o
    case Return(env, v) =>
      fn.ret == ValueTy(TypeOf(v)) && c.Returned? && c.v == Enc(v) && Reads(c.v, v) && HoldsAll(params, env, c.fin)
    case Normal(env, _) =>
      if fn.ret.VoidTy? then c.ReturnedVoid? && HoldsAll(st.syms, env, c.fin) else c == Stuck
    case Undefined => true
    case Wrong => false
  }

  lemma BodyWithin(lit: FunctionLit, args: seq<Argument>)
    requires Evaluate(lit, args).Emitted?
    ensures |lit.params| == |args| && Valid(Prologue(lit.params, args, true)) && Valid(SelfCell(true))
    ensures TransAll(lit.body, Prologue(lit.params, args, true), Nothing).Ok?
    ensures var st := TransAll(lit.body, Prologue(lit.params, args, true), Nothing).st;
      var bs := Evaluate(lit, args).fn.blocks;
      && Within(SelfCell(true).em, bs) && Within(Prologue(lit.params, args, true).em, bs) && Within(st.em, bs)
      && bs == Finish(st.em, Evaluate(lit, args).fn.ret).blocks
      && ValidEmit(st.em)
  {
    var p := Prologue(lit.params, args, true);
    var r := TransAll(lit.body, p, Nothing);
    var fn := Evaluate(lit, args).fn;
    assert r.Ok? && fn.blocks == Finish(r.st.em, fn.ret).blocks;
    SelfValid();
    hide Evaluate, TransAll, Valid, Grows, SelfCell, Within;
    DeclareParamsGrows(lit.params, args, 0, SelfCell(true));
    AllAdvances(lit.body, p, Nothing);
    AdvancesParts(p, r.st);
    AppendGrows(r.st.em, RetVoid);
    GrowsWithin(r.st.em, r.st.em.Append(RetVoid));
    SelfWithin(r.st.em);
    WithinSame(r.st.em, Finish(r.st.em, fn.ret));
    GrowsWithin(p.em, r.st.em);
    WithinTransitive(p.em, r.st.em, fn.blocks);
    GrowsWithin(SelfCell(true).em, p.em);
    WithinTransitive(SelfCell(true).em, p.em, fn.blocks);
  }

  lemma AdvancesParts(a: TState, b: TState)
    requires Advances(a, b)
    ensures ValidEmit(b.em) && Grows(a.em, b.em)
  {
  }

  lemma SelfWithin(em: Emit)
    ensures Within(em, em.blocks)
  {
  }

  lemma WithinSame(em: Emit, em': Emit)
    requires em' == em || em' == em.Append(RetVoid)
    requires Within(em, em.Append(RetVoid).blocks) && Within(em, em.blocks)
    ensures Within(em, em'.blocks)
  {
  }

  /** Falling off the end of the body: the added void return, or no instruction at all. */
  lemma FallOff(em: Emit, ret: ReturnTy, bs: Blocks, f: Frame) returns (c: Config)
    requires AtEnd(f, em) && bs == Finish(em, ret).blocks
    ensures Leads(bs, Running(f), c)
    ensures c == if ret.VoidTy? then ReturnedVoid(f) else Stuck
  {
    LeadsStep(bs, f);
    c := Step(bs, Running(f));
    if ret.VoidTy? {
      assert BodyOf(bs, em.cur) == em.Here() + [RetVoid];
    }
  }

  /** A value return that is executed is in the code, so it has the function's type. */
  lemma ReturnedType(lit: FunctionLit, args: seq<Argument>, f: Frame, v: Val, fin: Frame)
    requires Evaluate(lit, args).Emitted?
    requires Leads(Evaluate(lit, args).fn.blocks, Running(f), Returned(Enc(v), fin))
    ensures Evaluate(lit, args).fn.ret == ValueTy(TypeOf(v))
  {
    var fn := Evaluate(lit, args).fn;
    assert |lit.params| == |args| && FirstMismatch(lit.params, args, 0).None?;
    EmittedReturns(lit, args);
    hide Evaluate, ReturnTypes, FirstMismatch, Types;
    var n: nat :| Steps(fn.blocks, Running(f), n) == Returned(Enc(v), fin);
    StepsReturned(fn.blocks, Running(f), n);
    assert Enc(v).ty == TypeOf(v);
  }

  lemma {:induction false} StepsReturned(bs: Blocks, c: Config, n: nat)
    requires c.Running? && Steps(bs, c, n).Returned?
    ensures Steps(bs, c, n).v.Word? && Steps(bs, c, n).v.ty in ReturnTypes(bs)
    decreases n
  {
    var d := Step(bs, c);
    if d.Running? {
      StepsReturned(bs, d, n - 1);
    } else {
      StepsStopped(bs, d, n - 1);
      var b, k := c.f.block, c.f.idx;
      assert b in bs && k < |bs[b]| && bs[b][k].RetVal?;
      assert bs[b][k].ty == d.v.ty;
    }
  }

  /** Semantic preservation: whatever the arguments, running an emitted function ends with the
      value its body returns; if the body reaches its end the function returns void, or, when
      another path of it returns a value, control runs off the end of a block. An accepted body
      never goes wrong. */
  lemma EvaluatePreserves(lit: FunctionLit, args: seq<Argument>, vals: seq<Val>) returns (c: Config)
    requires Evaluate(lit, args).Emitted? && ArgumentsFit(args, vals)
    ensures |lit.params| == |args| && TransAll(lit.body, Prologue(lit.params, args, true), Nothing).Ok?
    ensures var fn := Evaluate(lit, args).fn;
      var p := Prologue(lit.params, args, true);
      var o := EvalAll(lit.body, BindParams(lit.params, vals, 0, map[]), Void);
      && Leads(fn.blocks, Running(Start(vals)), c)
      && Implements(o, fn, TransAll(lit.body, p, Nothing).st, p.syms, c)
  {
    BodyWithin(lit, args);
    var fn := Evaluate(lit, args).fn;
    var bs := fn.blocks;
    var p := Prologue(lit.params, args, true);
    var r := TransAll(lit.body, p, Nothing);
    var env := BindParams(lit.params, vals, 0, map[]);
    var o := EvalAll(lit.body, env, Void);
    hide Evaluate, TransAll, EvalAll, Ready, Within, Leads, Evolves, Valid, SelfCell, DeclareParams, BindParams,
         Matches, Finish, Enc;
    var f0 := SelfReady(bs, vals);
    var f1 := SimParams(lit.params, args, vals, 0, map[], SelfCell(true), bs, f0);
    LeadsTransitive(bs, Running(Start(vals)), Running(f0), Running(f1));
    c := SimAll(lit.body, env, Void, p, Nothing, bs, f1);
    LeadsTransitive(bs, Running(Start(vals)), Running(f1), c);
    MatchedEnd(o, p, r, f1, c);
    if o.Normal? {
      var f2 := c.f;
      c := FallOff(r.st.em, fn.ret, bs, f2);
      LeadsTransitive(bs, Running(Start(vals)), Running(f2), c);
    } else if o.Return? {
      ReturnedType(lit, args, Start(vals), o.val, c.fin);
      EncReads(o.val);
    }
  }

  lemma MatchedEnd(o: Outcome, p: TState, r: Result, f: Frame, c: Config)
    requires r.Ok? && Matches(o, p, r, f, c)
    ensures !o.Wrong?
    ensures o.Normal? ==> c.Running? && AtEnd(c.f, r.st.em) && HoldsAll(r.st.syms, o.env, c.f)
    ensures o.Return? ==> c.Returned? && c == Returned(Enc(o.val), c.fin) && HoldsAll(p.syms, o.env, c.fin)
  {
  }
}
