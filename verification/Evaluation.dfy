/** Specialising a function literal to argument values: a survey translation finds the return
    type, then the real one emits the function. */
module Evaluation {
  import opened Words
  import opened Ast
  import opened Ir
  import opened Emitter
  import opened Translation

  /** A parameter with the type its #type attribute asks for, if any. */
  datatype Parameter = Parameter(name: string, expected: Option<Ty>)

  datatype ReturnTy = VoidTy | ValueTy(ty: Ty)

  /** A function literal with the type its #rettype attribute asks for, if any. */
  datatype FunctionLit = FunctionLit(params: seq<Parameter>, body: seq<Expr>, declared: Option<ReturnTy>)

  /** What the translator knows of an argument value. */
  datatype Argument = Argument(ty: Ty, isConst: bool)

  datatype FunctionIr = FunctionIr(params: seq<Ty>, ret: ReturnTy, blocks: Blocks)

  datatype Scan = NoReturn | OneType(ty: Ty) | Mixed

  datatype Evaluated = Emitted(fn: FunctionIr) | Rejected(error: Error)

  /** The operand types of all value returns in some blocks. */
  function ReturnTypes(bs: Blocks): set<Ty>
  {
    set b, k | b in bs && 0 <= k < |bs[b]| && bs[b][k].RetVal? :: bs[b][k].ty
  }

  function ScanOf(types: set<Ty>): Scan
  {
    if types == {} then NoReturn
    else if types == {I1} then OneType(I1)
    else if types == {I32} then OneType(I32)
    else Mixed
  }

  /** The first argument whose type is not the expected one. */
  function FirstMismatch(params: seq<Parameter>, args: seq<Argument>, k: nat): Option<nat>
    requires |params| == |args| && k <= |args|
    decreases |args| - k
  {
    if k == |args| then None
    else if params[k].expected.Some? && params[k].expected.value != args[k].ty then Some(k)
    else FirstMismatch(params, args, k + 1)
  }

  /** The cell of @self, filled in the real pass only. */
  function SelfCell(store: bool): TState
  {
    var em := Emit(map[0 := []], 0, 1, 0).Define(Alloca(0, FunctionPointer, Self));
    TState(if store then em.Append(Store(ThisFunction, Reg(0))) else em, map[])
  }

  /** Cells for the parameters from the k-th on, each filled with its parameter in the real pass. */
  function DeclareParams(params: seq<Parameter>, args: seq<Argument>, k: nat, store: bool, st: TState): TState
    requires |params| == |args| && k <= |args|
    decreases |args| - k
  {
    if k == |args| then st
    else
      var d := Declared(params[k].name, Ir.Argument(params[k].name), args[k].isConst, args[k].ty, Param(k), st);
      var em := st.em.Define(Alloca(st.em.nextReg, Scalar(args[k].ty), Ir.Argument(params[k].name)));
      DeclareParams(params, args, k + 1, store, if store then d else d.(em := em))
  }

  function Prologue(params: seq<Parameter>, args: seq<Argument>, store: bool): TState
    requires |params| == |args|
  {
    DeclareParams(params, args, 0, store, SelfCell(store))
  }

  /** The discarded pass: the return type, or the error it stops with. */
  function Survey(lit: FunctionLit, args: seq<Argument>): (r: Evaluated)
    requires |lit.params| == |args|
  {
    var r := TransAll(lit.body, Prologue(lit.params, args, false), Nothing);
    if r.Err? then Rejected(r.error) else
    var scan := ScanOf(ReturnTypes(r.st.em.blocks));
    if scan.Mixed? then Rejected(MixedReturnTypes) else
    var ret := if scan.NoReturn? then VoidTy else ValueTy(scan.ty);
    if lit.declared.Some? && lit.declared.value != ret then Rejected(ReturnType) else
    Emitted(FunctionIr(Types(args), ret, map[]))
  }

  function Types(args: seq<Argument>): seq<Ty>
  {
    seq(|args|, k requires 0 <= k < |args| => args[k].ty)
  }

  /** End a function without returned value. */
  function Finish(em: Emit, ret: ReturnTy): Emit
  {
    if ret.VoidTy? then em.Append(RetVoid) else em
  }

  function Evaluate(lit: FunctionLit, args: seq<Argument>): Evaluated
  {
    if |lit.params| != |args| then Rejected(ArgumentCount) else
    var bad := FirstMismatch(lit.params, args, 0);
    if bad.Some? then Rejected(ArgumentType(bad.value)) else
    var s := Survey(lit, args);
    if s.Rejected? then s else
    var r := TransAll(lit.body, Prologue(lit.params, args, true), Nothing);
    if r.Err? then Rejected(r.error) else
    Emitted(s.fn.(blocks := Finish(r.st.em, s.fn.ret).blocks))
  }
}
