/** Whole emitted functions: well-formed exactly if the source puts nothing after a return and
    either returns nowhere or on every path. */
module Functions {
  import opened Words
  import opened Ast
  import opened Ir
  import opened Emitter
  import opened Translation
  import opened Evaluation
  import opened Growth
  import opened Structure
  import opened Layout
  import opened Cfg
  import opened Graph
  import opened Positions
  import Bodies
  import opened Wellformedness
  import Survey

  /** A function before anything is emitted into it. */
  const BLANK := Emit(map[0 := []], 0, 1, 0)

  const SELF_CODE := Seq(Instr(Alloca(0, FunctionPointer, Self)), Instr(Store(ThisFunction, Reg(0))))

  function ParamsCode(params: seq<Parameter>, args: seq<Argument>, k: nat, r: nat): Code
    requires |params| == |args| && k <= |args|
    decreases |args| - k
  {
    if k == |args| then Skip
    else Seq(DeclareCode(Ir.Argument(params[k].name), args[k].ty, Param(k), r), ParamsCode(params, args, k + 1, r + 1))
  }

  function PrologueCode(params: seq<Parameter>, args: seq<Argument>): Code
    requires |params| == |args|
  {
    Seq(SELF_CODE, ParamsCode(params, args, 0, 1))
  }

  /** All code of an emitted function. */
  function FunctionCode(lit: FunctionLit, args: seq<Argument>): Code
    requires Evaluate(lit, args).Emitted?
  {
    var fn := Evaluate(lit, args).fn;
    Seq(Seq(PrologueCode(lit.params, args), CodeOfAll(lit.body, Prologue(lit.params, args, true), Nothing)),
        if fn.ret.VoidTy? then Instr(RetVoid) else Skip)
  }

  // --------------------------------------------------------------- prologue

  lemma LaySelf()
    ensures Lay(SELF_CODE, BLANK) == SelfCell(true).em
  {
    hide Lay, Emit.Append;
    LayDefine(Alloca(0, FunctionPointer, Self), BLANK);
    LayStore(ThisFunction, Reg(0), BLANK.Define(Alloca(0, FunctionPointer, Self)));
    LaySeq(Instr(Alloca(0, FunctionPointer, Self)), Instr(Store(ThisFunction, Reg(0))), BLANK);
  }

  lemma {:induction false} LayParams(params: seq<Parameter>, args: seq<Argument>, k: nat, st: TState)
    requires |params| == |args| && k <= |args|
    ensures Lay(ParamsCode(params, args, k, st.em.nextReg), st.em) == DeclareParams(params, args, k, true, st).em
    decreases |args| - k
  {
    hide Lay, Emit.Append;
    if k == |args| {
      LaySkip(st.em);
    } else {
      var tag := Ir.Argument(params[k].name);
      var d := Declared(params[k].name, tag, args[k].isConst, args[k].ty, Param(k), st);
      LayDeclare(params[k].name, tag, args[k].isConst, args[k].ty, Param(k), st);
      DeclaredRegister(params[k].name, tag, args[k].isConst, args[k].ty, Param(k), st);
      hide Declared, DeclareCode;
      LayParams(params, args, k + 1, d);
      LaySeq(DeclareCode(tag, args[k].ty, Param(k), st.em.nextReg),
        ParamsCode(params, args, k + 1, st.em.nextReg + 1), st.em);
    }
  }

  lemma DeclaredRegister(name: string, tag: Tag, isConst: bool, ty: Ty, o: Operand, st: TState)
    ensures Declared(name, tag, isConst, ty, o, st).em.nextReg == st.em.nextReg + 1
  {
  }

  lemma LayPrologue(params: seq<Parameter>, args: seq<Argument>)
    requires |params| == |args|
    ensures Lay(PrologueCode(params, args), BLANK) == Prologue(params, args, true).em
  {
    hide Lay, ParamsCode, DeclareParams;
    LaySelf();
    LayParams(params, args, 0, SelfCell(true));
    LaySeq(SELF_CODE, ParamsCode(params, args, 0, 1), BLANK);
  }

  lemma {:induction false} ParamsRegular(params: seq<Parameter>, args: seq<Argument>, k: nat, r: nat)
    requires |params| == |args| && k <= |args|
    ensures Regular(ParamsCode(params, args, k, r), r, false)
    ensures !CodeEnds(ParamsCode(params, args, k, r), false)
    ensures CodeClean(ParamsCode(params, args, k, r), false)
    decreases |args| - k
  {
    if k < |args| {
      var a := DeclareCode(Ir.Argument(params[k].name), args[k].ty, Param(k), r);
      RegularDeclare(Ir.Argument(params[k].name), args[k].ty, Param(k), r);
      ParamsRegular(params, args, k + 1, r + 1);
      assert Next(a, r) == r + 1;
      EndsDeclare(Ir.Argument(params[k].name), args[k].ty, Param(k), r);
      hide Regular, CodeEnds, CodeClean, DeclareCode;
      var b := ParamsCode(params, args, k + 1, r + 1);
      RegularSeq(a, b, r, false, false);
      EndsSeq(a, b, false);
    }
  }

  lemma EndsDeclare(tag: Tag, ty: Ty, o: Operand, r: nat)
    ensures !CodeEnds(DeclareCode(tag, ty, o, r), false) && CodeClean(DeclareCode(tag, ty, o, r), false)
  {
  }

  lemma PrologueRegular(params: seq<Parameter>, args: seq<Argument>)
    requires |params| == |args|
    ensures Regular(PrologueCode(params, args), 0, false)
    ensures !CodeEnds(PrologueCode(params, args), false) && CodeClean(PrologueCode(params, args), false)
  {
    ParamsRegular(params, args, 0, 1);
    hide ParamsCode, Regular;
    SelfRegular();
    RegularSeq(SELF_CODE, ParamsCode(params, args, 0, 1), 0, false, false);
  }

  lemma SelfRegular()
    ensures Regular(SELF_CODE, 0, false) && Next(SELF_CODE, 0) == 1
    ensures !CodeEnds(SELF_CODE, false) && CodeClean(SELF_CODE, false)
  {
    assert 0 in Defs(Alloca(0, FunctionPointer, Self));
  }

  // ---------------------------------------------------------- whole function

  lemma FunctionParts(lit: FunctionLit, args: seq<Argument>)
    requires Evaluate(lit, args).Emitted?
    ensures |lit.params| == |args| && TransAll(lit.body, Prologue(lit.params, args, true), Nothing).Ok?
    ensures var fn := Evaluate(lit, args).fn;
      var em := TransAll(lit.body, Prologue(lit.params, args, true), Nothing).st.em;
      fn.blocks == (if fn.ret.VoidTy? then em.Append(RetVoid) else em).blocks
  {
    hide TransAll, Prologue;
  }

  /** The blocks of an emitted function are its code, laid out. */
  lemma LayFunction(lit: FunctionLit, args: seq<Argument>)
    requires Evaluate(lit, args).Emitted?
    ensures Evaluate(lit, args).fn.blocks == Lay(FunctionCode(lit, args), BLANK).blocks
  {
    FunctionParts(lit, args);
    hide Evaluate, TransAll, CodeOfAll, Prologue, Lay, PrologueCode, Emit.Append;
    var p := Prologue(lit.params, args, true);
    var r := TransAll(lit.body, p, Nothing);
    var a, b := PrologueCode(lit.params, args), CodeOfAll(lit.body, p, Nothing);
    LayPrologue(lit.params, args);
    LayAll(lit.body, p, Nothing);
    LaySeq(a, b, BLANK);
    LayVoid(r.st.em);
    LaySkip(r.st.em);
    LaySeq(Seq(a, b), Instr(RetVoid), BLANK);
    LaySeq(Seq(a, b), Skip, BLANK);
  }

  lemma LayVoid(em: Emit)
    ensures Lay(Instr(RetVoid), em) == em.Append(RetVoid)
  {
  }

  lemma PrologueRegisters(params: seq<Parameter>, args: seq<Argument>)
    requires |params| == |args|
    ensures Next(PrologueCode(params, args), 0) == Prologue(params, args, true).em.nextReg
  {
    hide Next, PrologueCode, Prologue, Lay;
    LayPrologue(params, args);
    LayNext(PrologueCode(params, args), BLANK);
  }

  lemma FunctionRegular(lit: FunctionLit, args: seq<Argument>)
    requires Evaluate(lit, args).Emitted?
    ensures Regular(FunctionCode(lit, args), 0, !NoRetAll(lit.body))
  {
    FunctionParts(lit, args);
    hide Evaluate, TransAll, CodeOfAll, Prologue, PrologueCode, Next, NoRetAll, Regular;
    var p := Prologue(lit.params, args, true);
    var a, b := PrologueCode(lit.params, args), CodeOfAll(lit.body, p, Nothing);
    PrologueRegular(lit.params, args);
    PrologueRegisters(lit.params, args);
    AllRegular(lit.body, p, Nothing);
    RegularSeq(a, b, 0, false, !NoRetAll(lit.body));
    var r := Next(Seq(a, b), 0);
    RegularInstr(RetVoid, r);
    RegularSkip(r);
    RegularSeq(Seq(a, b), Instr(RetVoid), 0, !NoRetAll(lit.body), false);
    RegularSeq(Seq(a, b), Skip, 0, !NoRetAll(lit.body), false);
  }

  lemma RegularSkip(r: nat)
    ensures Regular(Skip, r, false)
  {
  }

  /** The function returns void exactly if its body contains no return operator. */
  lemma VoidExactly(lit: FunctionLit, args: seq<Argument>)
    requires Evaluate(lit, args).Emitted?
    ensures Evaluate(lit, args).fn.ret.VoidTy? <==> NoRetAll(lit.body)
  {
    var fn := Evaluate(lit, args).fn;
    assert |lit.params| == |args| && FirstMismatch(lit.params, args, 0).None?;
    Survey.EmittedReturns(lit, args);
    hide Evaluate, Lay, ReturnTypes, FirstMismatch, FunctionCode, NoRetAll;
    LayFunction(lit, args);
    FunctionRegular(lit, args);
    BlankValid();
    LaySites(FunctionCode(lit, args), BLANK, ValueReturn);
    ReturnSites(fn.blocks);
  }

  lemma BlankValid()
    ensures ValidEmit(BLANK) && AllPlaced(BLANK) && AllTargets(BLANK) && EndedBut(BLANK, {} + {BLANK.cur})
    ensures NoneTo(BLANK, 0) && BLANK.FallsThrough()
    ensures forall kind :: Sites(BLANK.blocks, kind) == {}
  {
  }

  lemma ReturnSites(bs: Blocks)
    ensures ReturnTypes(bs) == {} <==> |Sites(bs, ValueReturn)| == 0
  {
    forall p | p in Sites(bs, ValueReturn)
      ensures bs[p.0][p.1].ty in ReturnTypes(bs)
    {
    }
    forall t | t in ReturnTypes(bs)
      ensures Sites(bs, ValueReturn) != {}
    {
      var b, k :| b in bs && 0 <= k < |bs[b]| && bs[b][k].RetVal? && bs[b][k].ty == t;
      SitesMember(bs, ValueReturn, b, k);
    }
  }

  /** Laid-out code is a well-formed graph exactly if it is clean and ends. */
  lemma LayWellFormed(code: Code)
    requires Branchless(code)
    ensures WellFormed(Lay(code, BLANK).blocks) <==> CodeClean(code, false) && CodeEnds(code, false)
  {
    var em := Lay(code, BLANK);
    BlankValid();
    LayGrows(code, BLANK);
    LayEnds(code, BLANK);
    LayPlaced(code, BLANK);
    LayEnded(code, BLANK, {});
    LayTargets(code, BLANK);
    hide Lay, CodeClean, CodeEnds, HasTerminator, Placed, TargetsIn;
    assert HasTerminator(em.Here()) <==> CodeEnds(code, false);
    EndsAtCursor(em);
  }

  lemma EndsAtCursor(em: Emit)
    requires ValidEmit(em) && EndedBut(em, {} + {em.cur}) && AllTargets(em) && 0 in em.blocks
    ensures WellFormed(em.blocks) <==> AllPlaced(em) && HasTerminator(em.Here())
  {
    hide HasTerminator, Placed, TargetsIn;
    if WellFormed(em.blocks) {
      assert Closed(em.blocks[em.cur]);
    }
  }

  lemma {:induction false} NoRetOpen(e: Expr)
    requires NoRet(e)
    ensures !Ends(e, false) && Clean(e, false)
    decreases e, 1
  {
    match e
    case IntLit(_) =>
    case BoolLit(_) =>
    case Var(_) =>
    case Bin(_, l, r) => NoRetOpen(l); NoRetOpen(r);
    case Assign(lhs, r) =>
      if lhs.LCond? {
        NoRetOpen(lhs.cond);
      }
      NoRetOpen(r);
    case Cond(c, x, y) => NoRetOpen(c); NoRetOpen(x); NoRetOpen(y);
    case CondScope(c, thn, els) => NoRetOpen(c); NoRetOpenAll(thn); NoRetOpenAll(els);
    case ScopeCall(body) => NoRetOpenAll(body);
    case Ret(_) =>
  }

  /** A list without return operator falls through and is clean. */
  lemma {:induction false} NoRetOpenAll(es: seq<Expr>)
    requires NoRetAll(es)
    ensures !EndsAll(es, false) && CleanAll(es, false)
    decreases es, 0
  {
    if es != [] {
      NoRetOpen(es[0]);
      NoRetOpenAll(es[1..]);
    }
  }

  /** Well-formedness of an emitted function is decided by its source: nothing but a literal may
      follow what always returns, and unless the body has no return at all, every path through it
      must end in one. */
  lemma WellFormedExactly(lit: FunctionLit, args: seq<Argument>)
    requires Evaluate(lit, args).Emitted?
    ensures WellFormed(Evaluate(lit, args).fn.blocks) <==>
              CleanAll(lit.body, false) && (NoRetAll(lit.body) || EndsAll(lit.body, false))
  {
    FunctionParts(lit, args);
    VoidExactly(lit, args);
    LayFunction(lit, args);
    FunctionRegular(lit, args);
    hide Evaluate, Lay, WellFormed, Prologue, TransAll, PrologueCode, CodeOfAll, CodeEnds, CodeClean, NoRetAll,
         CleanAll, EndsAll, Branchless, Numbered;
    LayWellFormed(FunctionCode(lit, args));
    var p := Prologue(lit.params, args, true);
    var a, b := PrologueCode(lit.params, args), CodeOfAll(lit.body, p, Nothing);
    PrologueRegular(lit.params, args);
    AllAgrees(lit.body, p, Nothing, false);
    EndsSeq(a, b, false);
    EndsSeq(Seq(a, b), Instr(RetVoid), false);
    EndsSeq(Seq(a, b), Skip, false);
    EndsLeaf(EndsAll(lit.body, false));
    if NoRetAll(lit.body) {
      NoRetOpenAll(lit.body);
    }
  }

  lemma EndsLeaf(t: bool)
    ensures CodeEnds(Instr(RetVoid), t) && CodeClean(Instr(RetVoid), t) == !t
    ensures CodeEnds(Skip, t) == t && CodeClean(Skip, t)
  {
  }

  /** A body without return operator always gives a well-formed function that returns void. */
  lemma ReturnFree(lit: FunctionLit, args: seq<Argument>)
    requires Evaluate(lit, args).Emitted? && NoRetAll(lit.body)
    ensures WellFormed(Evaluate(lit, args).fn.blocks) && Evaluate(lit, args).fn.ret == VoidTy
  {
    hide Evaluate, WellFormed, NoRetAll;
    WellFormedExactly(lit, args);
    VoidExactly(lit, args);
    NoRetOpenAll(lit.body);
  }

  /** The fall-through test of the translator is the source's. */
  lemma FallsThroughExactly(es: seq<Expr>, st: TState)
    requires Valid(st) && TransAll(es, st, Nothing).Ok?
    ensures TransAll(es, st, Nothing).st.em.FallsThrough() == !EndsAll(es, !st.em.FallsThrough())
  {
    hide TransAll, CodeOfAll, Lay, EndsAll, CodeEnds;
    LayAll(es, st, Nothing);
    AllAgrees(es, st, Nothing, !st.em.FallsThrough());
    LayEnds(CodeOfAll(es, st, Nothing), st.em);
  }

  /** The block after a conditional exists exactly if control can arrive there. */
  lemma MergeExactly(c: Operand, e: Expr, st: TState)
    requires Valid(st) && e.CondScope? && TransArms(c, e, st).Ok?
    ensures st.em.nextBlock + 2 in TransArms(c, e, st).st.em.blocks <==>
              !(EndsAll(e.thenBody, false) && EndsAll(e.elseBody, false))
  {
    ThenBeside(st);
    AllAdvances(e.thenBody, ThenState(st), Nothing);
    var r1 := TransAll(e.thenBody, ThenState(st), Nothing);
    var s1 := ElseState(st, r1.st.em);
    ElseBeside(st, r1.st.em);
    AllAdvances(e.elseBody, s1, Nothing);
    var r2 := TransAll(e.elseBody, s1, Nothing);
    ArmsBeside(st, r1.st.em, r2.st.em);
    ArmsEmpty(st, r1.st.em);
    hide TransAll, EndsAll, Beside, Grows, ThenState, ElseState, HasTerminator;
    FallsThroughExactly(e.thenBody, ThenState(st));
    FallsThroughExactly(e.elseBody, s1);
    JoinKeepsMerge(c, st, r2.st.em, r1.st.em.FallsThrough() || r2.st.em.FallsThrough());
  }

  lemma ArmsEmpty(st: TState, em1: Emit)
    requires Grows(ThenState(st).em, em1)
    ensures ThenState(st).em.FallsThrough() && ElseState(st, em1).em.FallsThrough()
  {
    Bodies.ThenWaiting(st);
    Bodies.ElseWaiting(st, em1);
    EmptyFalls();
  }

  lemma JoinKeepsMerge(c: Operand, st: TState, em2: Emit, keep: bool)
    requires Valid(st) && st.em.nextBlock + 2 in em2.blocks
    ensures st.em.nextBlock + 2 in JoinArms(c, st, keep, em2).em.blocks <==> keep
  {
    hide HasTerminator;
  }

  /** The block after a called scope exists exactly if control can arrive there. */
  lemma ContinuationExactly(body: seq<Expr>, st: TState)
    requires Valid(st) && TransCall(body, st).Ok?
    ensures st.em.nextBlock in TransCall(body, st).st.em.blocks <==> !EndsAll(body, false)
  {
    CallBeside(st);
    AllAdvances(body, CallState(st), Nothing);
    var r := TransAll(body, CallState(st), Nothing);
    CallBodyBeside(st, r.st.em);
    Bodies.CallWaiting(st);
    EmptyFalls();
    hide TransAll, EndsAll, Beside, Grows, CallState, HasTerminator;
    FallsThroughExactly(body, CallState(st));
  }
}
