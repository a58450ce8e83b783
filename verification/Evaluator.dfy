/** The evaluator object: it specialises function literals with the translator it works for and
    keeps the functions of the module. */
module Evaluator {
  import opened Words
  import opened Ast
  import opened Ir
  import opened Emitter
  import opened Translation
  import opened Evaluation
  import Translator
  import Growth

  /** The argument has the type its parameter asks for, if it asks for one. */
  predicate Fitting(p: Parameter, a: Argument)
  {
    p.expected.Some? ==> p.expected.value == a.ty
  }

  class Evaluator {
    const tr: Translator.Translator
    var functions: seq<FunctionIr>

    constructor (tr: Translator.Translator)
      ensures this.tr == tr && functions == []
    {
      this.tr := tr;
      functions := [];
    }

    /** The check of the #type attributes against the supplied values. */
    method CheckTypes(params: seq<Parameter>, args: seq<Argument>) returns (bad: Option<nat>)
      requires |params| == |args|
      ensures bad == FirstMismatch(params, args, 0)
      ensures bad == None ==> forall k :: 0 <= k < |args| ==> Fitting(params[k], args[k])
      ensures bad.Some? ==> bad.value < |args| && !Fitting(params[bad.value], args[bad.value])
      ensures bad.Some? ==> forall k :: 0 <= k < bad.value ==> Fitting(params[k], args[k])
    {
      for k := 0 to |args|
        invariant FirstMismatch(params, args, 0) == FirstMismatch(params, args, k)
        invariant forall j :: 0 <= j < k ==> Fitting(params[j], args[j])
      {
        if params[k].expected.Some? && params[k].expected.value != args[k].ty {
          return Some(k);
        }
      }
      bad := None;
    }

    /** The cell of @self. */
    method OpenSelf(store: bool)
      modifies tr, tr.builder
      ensures tr.State() == SelfCell(store)
    {
      tr.builder.SwitchTo(Emit(map[0 := []], 0, 1, 0));
      tr.symbols := map[];
      var self := tr.builder.CreateAlloca(FunctionPointer, Self);
      if store {
        tr.builder.Insert(Store(ThisFunction, Reg(self)));
      }
    }

    /** The cell of one parameter. */
    method DeclareParameter(name: string, arg: Evaluation.Argument, k: nat, store: bool)
      modifies tr, tr.builder
      ensures tr.State() == DeclaredParam(name, arg, k, store, old(tr.State()))
    {
      var cell := tr.builder.CreateAlloca(Scalar(arg.ty), Ir.Argument(name));
      tr.symbols := tr.symbols[name := Symbol(cell, arg.ty, arg.isConst)];
      if store {
        tr.builder.Insert(Store(Param(k), Reg(cell)));
      }
    }

    /** Open a function: the cell of @self and one cell per parameter, in argument order. The
        survey pass leaves the cells empty, the real pass stores the parameters. */
    method OpenFunction(params: seq<Parameter>, args: seq<Evaluation.Argument>, store: bool)
      requires |params| == |args|
      modifies tr, tr.builder
      ensures tr.State() == Prologue(params, args, store)
    {
      hide DeclaredParam;
      OpenSelf(store);
      for k := 0 to |args|
        invariant DeclareParams(params, args, k, store, tr.State()) == Prologue(params, args, store)
      {
        ghost var st := tr.State();
        DeclareParameter(params[k].name, args[k], k, store);
        DeclareNext(params, args, k, store, st);
      }
    }

    /** The loop over all instructions of the surveyed function. */
    method ScanReturns(blocks: Blocks, count: nat) returns (scan: Scan)
      requires forall b | b in blocks :: b < count
      ensures scan == ScanOf(ReturnTypes(blocks))
    {
      scan := NoReturn;
      ghost var seen: set<Ty> := {};
      for b := 0 to count
        invariant scan == ScanOf(seen) && !scan.Mixed?
        invariant forall t :: t in seen <==> SeenBefore(blocks, b, 0, t)
      {
        if b in blocks {
          var body := blocks[b];
          for k := 0 to |body|
            invariant scan == ScanOf(seen) && !scan.Mixed?
            invariant forall t :: t in seen <==> SeenBefore(blocks, b, k, t)
          {
            SeenNext(blocks, b, k);
            if body[k].RetVal? {
              if scan == OneType(body[k].ty) {
              } else if scan.NoReturn? {
                scan := OneType(body[k].ty);
              } else {
                var t := body[k].ty;
                assert SeenBefore(blocks, b, k + 1, t) && SeenBefore(blocks, b, k + 1, scan.ty);
                SeenIn(blocks, b, k + 1, t);
                SeenIn(blocks, b, k + 1, scan.ty);
                return Mixed;
              }
              seen := seen + {body[k].ty};
            }
          }
        }
        SeenBlock(blocks, b, if b in blocks then |blocks[b]| else 0);
      }
      SeenAll(blocks, count);
      assert seen == ReturnTypes(blocks);
    }

    /** Specialise a literal: on success the module holds exactly one more function; the
        translator's scope and insertion point are as before. */
    method EvaluateFunction(lit: FunctionLit, args: seq<Argument>) returns (r: Evaluated)
      modifies this`functions, tr, tr.builder
      ensures r == Evaluate(lit, args)
      ensures r.Emitted? ==> functions == old(functions) + [r.fn] && tr.State() == old(tr.State())
    {
      hide TransAll, Prologue, ReturnTypes, ScanOf, FirstMismatch;
      if |lit.params| != |args| {
        return Rejected(ArgumentCount);
      }
      var bad := CheckTypes(lit.params, args);
      if bad.Some? {
        return Rejected(ArgumentType(bad.value));
      }
      var prevEmit, prevScope := tr.builder.State(), tr.symbols;
      var declared := if lit.declared.Some? then lit.declared.value else VoidTy;
      functions := functions + [FunctionIr(Types(args), declared, map[])];

      OpenFunction(lit.params, args, false);
      var _, survey := tr.VisitBody(lit.body);
      if survey.Thrown? {
        return Rejected(survey.error);
      }
      ghost var surveyed := TransAll(lit.body, Prologue(lit.params, args, false), Nothing);
      assert tr.builder.State() == surveyed.st.em;
      SurveyBlocks(lit, args);
      var scan := ScanReturns(tr.builder.blocks, tr.builder.nextBlock);
      if scan.Mixed? {
        return Rejected(MixedReturnTypes);
      }
      var ret := if scan.NoReturn? then VoidTy else ValueTy(scan.ty);
      if lit.declared.Some? && lit.declared.value != ret {
        return Rejected(ReturnType);
      }
      functions := functions[..|functions| - 1];

      OpenFunction(lit.params, args, true);
      var _, made := tr.VisitBody(lit.body);
      if made.Thrown? {
        return Rejected(made.error);
      }
      if ret.VoidTy? {
        tr.builder.Insert(RetVoid);
      }
      r := Emitted(FunctionIr(Types(args), ret, tr.builder.blocks));
      functions := functions + [r.fn];
      tr.builder.SwitchTo(prevEmit);
      tr.symbols := prevScope;
    }
  }

  function DeclaredParam(name: string, arg: Evaluation.Argument, k: nat, store: bool, st: TState): TState
  {
    var d := Declared(name, Ir.Argument(name), arg.isConst, arg.ty, Param(k), st);
    if store then d else d.(em := st.em.Define(Alloca(st.em.nextReg, Scalar(arg.ty), Ir.Argument(name))))
  }

  lemma DeclareNext(params: seq<Parameter>, args: seq<Evaluation.Argument>, k: nat, store: bool, st: TState)
    requires |params| == |args| && k < |args|
    ensures DeclareParams(params, args, k, store, st) ==
            DeclareParams(params, args, k + 1, store, DeclaredParam(params[k].name, args[k], k, store, st))
  {
  }

  /** A value return of type t at a position before (b, k). */
  ghost predicate SeenBefore(blocks: Blocks, b: nat, k: nat, t: Ty)
  {
    exists x, j :: x in blocks && 0 <= j < |blocks[x]| && (x < b || (x == b && j < k))
                   && blocks[x][j].RetVal? && blocks[x][j].ty == t
  }

  lemma SeenNext(blocks: Blocks, b: nat, k: nat)
    requires b in blocks && k < |blocks[b]|
    ensures forall t :: SeenBefore(blocks, b, k + 1, t) <==>
              SeenBefore(blocks, b, k, t) || (blocks[b][k].RetVal? && blocks[b][k].ty == t)
  {
    forall t
      ensures SeenBefore(blocks, b, k + 1, t) <==>
                SeenBefore(blocks, b, k, t) || (blocks[b][k].RetVal? && blocks[b][k].ty == t)
    {
      if SeenBefore(blocks, b, k, t) {
        var x, j :| x in blocks && 0 <= j < |blocks[x]| && (x < b || (x == b && j < k))
                    && blocks[x][j].RetVal? && blocks[x][j].ty == t;
        assert x < b || (x == b && j < k + 1);
      }
    }
  }

  lemma SeenBlock(blocks: Blocks, b: nat, n: nat)
    requires n == if b in blocks then |blocks[b]| else 0
    ensures forall t :: SeenBefore(blocks, b + 1, 0, t) <==> SeenBefore(blocks, b, n, t)
  {
    forall t
      ensures SeenBefore(blocks, b + 1, 0, t) <==> SeenBefore(blocks, b, n, t)
    {
      if SeenBefore(blocks, b + 1, 0, t) {
        var x, j :| x in blocks && 0 <= j < |blocks[x]| && x < b + 1 && blocks[x][j].RetVal? && blocks[x][j].ty == t;
        assert x < b || (x == b && j < n);
      }
      if SeenBefore(blocks, b, n, t) {
        var x, j :| x in blocks && 0 <= j < |blocks[x]| && (x < b || (x == b && j < n))
                    && blocks[x][j].RetVal? && blocks[x][j].ty == t;
        assert x < b + 1;
      }
    }
  }

  lemma SeenIn(blocks: Blocks, b: nat, k: nat, t: Ty)
    requires SeenBefore(blocks, b, k, t)
    ensures t in ReturnTypes(blocks)
  {
  }

  lemma SeenAll(blocks: Blocks, count: nat)
    requires forall b | b in blocks :: b < count
    ensures forall t :: SeenBefore(blocks, count, 0, t) <==> t in ReturnTypes(blocks)
  {
    forall t
      ensures SeenBefore(blocks, count, 0, t) <==> t in ReturnTypes(blocks)
    {
      if t in ReturnTypes(blocks) {
        var b, k :| b in blocks && 0 <= k < |blocks[b]| && blocks[b][k].RetVal? && blocks[b][k].ty == t;
        assert b < count;
      }
    }
  }

  lemma SurveyBlocks(lit: FunctionLit, args: seq<Argument>)
    requires |lit.params| == |args| && TransAll(lit.body, Prologue(lit.params, args, false), Nothing).Ok?
    ensures var em := TransAll(lit.body, Prologue(lit.params, args, false), Nothing).st.em;
      forall b | b in em.blocks :: b < em.nextBlock
  {
    hide TransAll, DeclareParams;
    SelfSurveyValid();
    SurveyPrologueValid(lit.params, args, 0, SelfCell(false));
    Growth.AllAdvances(lit.body, Prologue(lit.params, args, false), Nothing);
  }

  lemma SelfSurveyValid()
    ensures Growth.Valid(SelfCell(false))
  {
  }

  lemma {:induction false} SurveyPrologueValid(params: seq<Parameter>, args: seq<Argument>, k: nat, st: TState)
    requires |params| == |args| && k <= |args| && Growth.Valid(st)
    ensures Growth.Valid(DeclareParams(params, args, k, false, st))
    decreases |args| - k
  {
    if k < |args| {
      var r := st.em.nextReg;
      var em := st.em.Define(Alloca(r, Scalar(args[k].ty), Ir.Argument(params[k].name)));
      var st' := TState(em, st.syms[params[k].name := Symbol(r, args[k].ty, args[k].isConst)]);
      Growth.AppendGrows(st.em, Alloca(r, Scalar(args[k].ty), Ir.Argument(params[k].name)));
      SurveyPrologueValid(params, args, k + 1, st');
    }
  }
}
