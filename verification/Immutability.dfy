/** Variables declared without #mut: their cells are written once, and their values never change,
    unless a conditional stands left of an assignment. */
module Immutability {
  import opened Words
  import opened Ast
  import opened Ir
  import opened Emitter
  import opened Translation
  import opened Evaluation
  import opened Interp
  import opened Growth
  import opened Structure
  import opened Positions
  import opened Wellformedness
  import opened Functions
  import Scoping

  // -------------------------------------------------------- no conditional lvalue

  /** The variable n is not an arm of a conditional left of an assignment. */
  predicate NoArm(e: Expr, n: string)
  {
    match e
    case IntLit(_) => true
    case BoolLit(_) => true
    case Var(_) => true
    case Bin(_, l, r) => NoArm(l, n) && NoArm(r, n)
    case Assign(lhs, r) => (lhs.LCond? ==> NoArm(lhs.cond, n) && lhs.a != n && lhs.b != n) && NoArm(r, n)
    case Cond(c, x, y) => NoArm(c, n) && NoArm(x, n) && NoArm(y, n)
    case CondScope(c, t, f) => NoArm(c, n) && NoArmAll(t, n) && NoArmAll(f, n)
    case ScopeCall(body) => NoArmAll(body, n)
    case Ret(e1) => NoArm(e1, n)
  }

  predicate NoArmAll(es: seq<Expr>, n: string)
  {
    es == [] || (NoArm(es[0], n) && NoArmAll(es[1..], n))
  }

  /** No conditional left of an assignment at all. */
  predicate Direct(e: Expr)
  {
    match e
    case IntLit(_) => true
    case BoolLit(_) => true
    case Var(_) => true
    case Bin(_, l, r) => Direct(l) && Direct(r)
    case Assign(lhs, r) => lhs.LVar? && Direct(r)
    case Cond(c, x, y) => Direct(c) && Direct(x) && Direct(y)
    case CondScope(c, t, f) => Direct(c) && DirectAll(t) && DirectAll(f)
    case ScopeCall(body) => DirectAll(body)
    case Ret(e1) => Direct(e1)
  }

  predicate DirectAll(es: seq<Expr>)
  {
    es == [] || (Direct(es[0]) && DirectAll(es[1..]))
  }

  // ------------------------------------------------------------ source level

  predicate ReadOnlyIn(t: Table, n: string)
  {
    n in t && t[n].isConst
  }

  predicate Unchanged(o: Outcome, env: Env, n: string)
    requires n in env
  {
    o.Normal? || o.Return? ==> n in o.env && o.env[n] == env[n]
  }

  /** In accepted code a read-only variable keeps its value and stays read-only, whatever scopes
      are entered, unless it is an arm of a conditional lvalue. */
  lemma {:induction false} ReadOnlyKept(e: Expr, st: TState, env: Env, n: string)
    requires Trans(e, st).Ok? && NoArm(e, n) && ReadOnlyIn(st.syms, n) && n in env
    ensures ReadOnlyIn(Trans(e, st).st.syms, n) && Unchanged(Eval(e, env), env, n)
    decreases e, 2
  {
    hide ApplyBin, ApplyAssign, ApplyCond, Select, EvalBin;
    match e
    case IntLit(_) =>
    case BoolLit(_) =>
    case Var(_) =>
    case Bin(op, l, r) =>
      var r1 := Trans(l, st);
      var r2 := Trans(r, r1.st);
      BinKeeps(op, r1.v, r2.v, r2.st);
      ReadOnlyKept(l, st, env, n);
      var o1 := Eval(l, env);
      ReadOnlyKept(r, r1.st, if o1.Normal? then o1.env else env, n);
    case Assign(_, _) => AssignKept(e, st, env, n);
    case Cond(_, _, _) => CondKept(e, st, env, n);
    case CondScope(_, _, _) => CondScopeKept(e, st, env, n);
    case ScopeCall(body) =>
      assert TransCall(body, st).Ok?;
      AllKept(body, CallState(st), Nothing, env, Void, n);
    case Ret(e1) => ReadOnlyKept(e1, st, env, n);
  }

  lemma BinKeeps(op: BinOp, x: TVal, y: TVal, st: TState)
    requires ApplyBin(op, x, y, st).Ok?
    ensures ApplyBin(op, x, y, st).st.syms == st.syms
  {
  }

  lemma {:induction false} AssignKept(e: Expr, st: TState, env: Env, n: string)
    requires e.Assign? && Trans(e, st).Ok? && NoArm(e, n) && ReadOnlyIn(st.syms, n) && n in env
    ensures ReadOnlyIn(Trans(e, st).st.syms, n) && Unchanged(Eval(e, env), env, n)
    decreases e, 1
  {
    hide ApplyCondPlace;
    var rp := TransPlace(e.lhs, st);
    var rv := Trans(e.rhs, rp.st);
    if e.lhs.LCond? {
      var rc := Trans(e.lhs.cond, st);
      CondPlaceKeeps(rc.v, e.lhs.a, e.lhs.b, rc.st);
      ReadOnlyKept(e.lhs.cond, st, env, n);
    }
    var t := EvalTarget(e.lhs, env);
    ReadOnlyKept(e.rhs, rp.st, if t.Target? then t.env else env, n);
  }

  lemma CondPlaceKeeps(c: TVal, a: string, b: string, st: TState)
    requires ApplyCondPlace(c, a, b, st).PlaceOk?
    ensures ApplyCondPlace(c, a, b, st).st.syms == st.syms && ApplyCondPlace(c, a, b, st).place.Pointed?
  {
    hide Select;
  }

  lemma {:induction false} CondKept(e: Expr, st: TState, env: Env, n: string)
    requires e.Cond? && Trans(e, st).Ok? && NoArm(e, n) && ReadOnlyIn(st.syms, n) && n in env
    ensures ReadOnlyIn(Trans(e, st).st.syms, n) && Unchanged(Eval(e, env), env, n)
    decreases e, 1
  {
    hide Select;
    var rc := Trans(e.cond, st);
    var rx := Trans(e.thn, rc.st);
    ReadOnlyKept(e.cond, st, env, n);
    var oc := Eval(e.cond, env);
    var env1 := if oc.Normal? then oc.env else env;
    ReadOnlyKept(e.thn, rc.st, env1, n);
    var ox := Eval(e.thn, env1);
    ReadOnlyKept(e.els, rx.st, if ox.Normal? then ox.env else env1, n);
  }

  lemma {:induction false} CondScopeKept(e: Expr, st: TState, env: Env, n: string)
    requires e.CondScope? && Trans(e, st).Ok? && NoArm(e, n) && ReadOnlyIn(st.syms, n) && n in env
    ensures ReadOnlyIn(Trans(e, st).st.syms, n) && Unchanged(Eval(e, env), env, n)
    decreases e, 1
  {
    hide JoinArms, HasTerminator;
    var rc := Trans(e.cond, st);
    ReadOnlyKept(e.cond, st, env, n);
    var oc := Eval(e.cond, env);
    var env1 := if oc.Normal? then oc.env else env;
    Scoping.JoinSymbols(rc.v.opd, rc.st);
    var r1 := TransAll(e.thenBody, ThenState(rc.st), Nothing);
    Scoping.ArmSymbols(rc.st, r1.st.em);
    hide ThenState, ElseState;
    AllKept(e.thenBody, ThenState(rc.st), Nothing, env1, Void, n);
    AllKept(e.elseBody, ElseState(rc.st, r1.st.em), Nothing, env1, Void, n);
  }

  lemma {:induction false} AllKept(es: seq<Expr>, st: TState, last: TVal, env: Env, y: Yield, n: string)
    requires TransAll(es, st, last).Ok? && NoArmAll(es, n) && ReadOnlyIn(st.syms, n) && n in env
    ensures ReadOnlyIn(TransAll(es, st, last).st.syms, n) && Unchanged(EvalAll(es, env, y), env, n)
    decreases es, 0
  {
    if es != [] {
      hide Trans, Eval;
      var r := Trans(es[0], st);
      ReadOnlyKept(es[0], st, env, n);
      var o := Eval(es[0], env);
      if o.Normal? {
        AllKept(es[1..], r.st, r.v, o.env, o.y, n);
      } else {
        AllKept(es[1..], r.st, r.v, env, y, n);
      }
    }
  }

  /** A conditional lvalue is the exception: the assignment is accepted whatever the flags of the
      two variables, and the chosen one gets the value. */
  lemma ConditionalTargetWrites(c: Expr, a: string, b: string, rhs: Expr, st: TState, env: Env)
    requires Trans(Assign(LCond(c, a, b), rhs), st).Ok? && Eval(Assign(LCond(c, a, b), rhs), env).Normal?
    ensures var o := Eval(Assign(LCond(c, a, b), rhs), env);
      var t := EvalTarget(LCond(c, a, b), env);
      && t.Target? && t.name in {a, b} && t.name in o.env && Eval(rhs, t.env).Normal?
      && Eval(rhs, t.env).y == V(o.env[t.name])
  {
  }

  /** The place and the store behind it are the same whatever the flags of the two variables. */
  lemma TargetIgnoresFlags(c: TVal, a: string, b: string, f: bool, g: bool, v: TVal, st: TState)
    requires a in st.syms && b in st.syms
    ensures var t1 := st.syms[a := st.syms[a].(isConst := f)];
      var st' := st.(syms := t1[b := t1[b].(isConst := g)]);
      var lhs := LCond(BoolLit(true), a, b);
      match ApplyCondPlace(c, a, b, st)
      case PlaceErr(er) => ApplyCondPlace(c, a, b, st') == PlaceErr(er)
      case PlaceOk(s, p) =>
        && ApplyCondPlace(c, a, b, st') == PlaceOk(s.(syms := st'.syms), p)
        && match ApplyAssign(lhs, p, v, s)
           case Err(er) => ApplyAssign(lhs, p, v, s.(syms := st'.syms)) == Err(er)
           case Ok(s2, w) => ApplyAssign(lhs, p, v, s.(syms := st'.syms)) == Ok(s2.(syms := st'.syms), w)
  {
    hide Select;
  }

  lemma DeclareStep(name: string, mut: bool, i: Int32, st: TState)
    requires name !in st.syms
    ensures var r := Trans(Assign(LVar(name, mut), IntLit(i)), st);
      r.Ok? && r.st.syms == st.syms[name := Symbol(st.em.nextReg, I32, !mut)]
  {
  }

  lemma ChooseStep(a: string, b: string, i: Int32, st: TState)
    requires a in st.syms && b in st.syms && st.syms[a].ty == st.syms[b].ty == I32
    ensures Trans(Assign(LCond(BoolLit(true), a, b), IntLit(i)), st).Ok?
  {
    hide Select, Emit.Append;
    var c := TVal(Const(I1, 1), I1, false);
    assert Trans(BoolLit(true), st) == Ok(st, c);
    assert LoadVar(a, st).Ok? && LoadVar(b, LoadVar(a, st).st).Ok?;
    assert ApplyCondPlace(c, a, b, st).PlaceOk? && ApplyCondPlace(c, a, b, st).place.ty == I32;
  }

  lemma AllThree(x: Expr, y: Expr, z: Expr, st: TState, env: Env)
    ensures Trans(x, st).Ok? && Trans(y, Trans(x, st).st).Ok? && Trans(z, Trans(y, Trans(x, st).st).st).Ok? ==>
              TransAll([x, y, z], st, Nothing).Ok?
    ensures TransAll([x], st, Nothing) == Trans(x, st)
    ensures var o1 := Eval(x, env);
      && EvalAll([x], env, Void) == o1
      && (o1.Normal? && Eval(y, o1.env).Normal? && Eval(z, Eval(y, o1.env).env).Normal? ==>
            EvalAll([x, y, z], env, Void) == Eval(z, Eval(y, o1.env).env))
  {
    hide Trans, Eval;
    assert [x][1..] == [] && [x, y, z][1..] == [y, z] && [y, z][1..] == [z] && [z][1..] == [];
    var r1 := Trans(x, st);
    if r1.Ok? && Trans(y, r1.st).Ok? {
      var r2 := Trans(y, r1.st);
      assert TransAll([x, y, z], st, Nothing) == TransAll([y, z], r1.st, r1.v);
      assert TransAll([y, z], r1.st, r1.v) == TransAll([z], r2.st, r2.v);
      assert TransAll([z], r2.st, r2.v) == Trans(z, r2.st);
    }
    var o1 := Eval(x, env);
    if o1.Normal? && Eval(y, o1.env).Normal? {
      var o2 := Eval(y, o1.env);
      assert EvalAll([x, y, z], env, Void) == EvalAll([y, z], o1.env, o1.y);
      assert EvalAll([y, z], o1.env, o1.y) == EvalAll([z], o2.env, o2.y);
      assert EvalAll([z], o2.env, o2.y) == Eval(z, o2.env);
    }
  }

  const READ_ONLY_A := Assign(LVar("a", false), IntLit(1))
  const MUTABLE_B := Assign(LVar("b", true), IntLit(2))
  const CHOSEN_5 := Assign(LCond(BoolLit(true), "a", "b"), IntLit(5))

  lemma EvalThree()
    ensures Eval(READ_ONLY_A, map[]) == Normal(map["a" := IntV(1)], V(IntV(1)))
    ensures var env := map["a" := IntV(1)];
      Eval(MUTABLE_B, env) == Normal(env["b" := IntV(2)], V(IntV(2)))
    ensures var env := map["a" := IntV(1)]["b" := IntV(2)];
      Eval(CHOSEN_5, env) == Normal(env["a" := IntV(5)], V(IntV(5)))
  {
  }

  /** a = 1; b#mut = 2; (true ? a : b) = 5 is accepted and gives the read-only a the value 5. */
  lemma ReadOnlyOverwritten()
    ensures var st := Prologue([], [], true);
      var body := [READ_ONLY_A, MUTABLE_B, CHOSEN_5];
      && TransAll(body, st, Nothing).Ok?
      && TransAll([READ_ONLY_A], st, Nothing).Ok? && ReadOnlyIn(TransAll([READ_ONLY_A], st, Nothing).st.syms, "a")
      && EvalAll([READ_ONLY_A], map[], Void) == Normal(map["a" := IntV(1)], V(IntV(1)))
      && EvalAll(body, map[], Void) == Normal(map["a" := IntV(5), "b" := IntV(2)], V(IntV(5)))
  {
    var st := Prologue([], [], true);
    assert st.syms == map[];
    hide Trans, TransAll, Eval, EvalAll, Prologue;
    DeclareStep("a", false, 1, st);
    var s1 := Trans(READ_ONLY_A, st).st;
    DeclareStep("b", true, 2, s1);
    var s2 := Trans(MUTABLE_B, s1).st;
    ChooseStep("a", "b", 5, s2);
    AllThree(READ_ONLY_A, MUTABLE_B, CHOSEN_5, st, map[]);
    EvalThree();
    assert map["a" := IntV(1)]["b" := IntV(2)]["a" := IntV(5)] == map["a" := IntV(5), "b" := IntV(2)];
  }

  // ------------------------------------------------------- losing mutability

  /** Assigning to a declared variable copies the value's read-only flag: afterwards the next
      assignment to it is accepted exactly if that value was not read-only, even if the variable
      was declared #mut. */
  lemma FlagFollowsValue(x: string, m: bool, rhs: Expr, m2: bool, next: Expr, st: TState)
    requires x in st.syms && Trans(Assign(LVar(x, m), rhs), st).Ok?
    requires Trans(rhs, st).Ok? && Trans(rhs, st).v.TVal?
    requires var s1 := Trans(Assign(LVar(x, m), rhs), st).st;
      var r2 := Trans(next, s1);
      r2.Ok? && r2.v.TVal? && r2.v.ty == st.syms[x].ty
    ensures var s1 := Trans(Assign(LVar(x, m), rhs), st).st;
      var again := Trans(Assign(LVar(x, m2), next), s1);
      if Trans(rhs, st).v.isConst then again == Err(ReadOnly) else again.Ok?
  {
  }

  /** c = 1; x#mut = 2; x = c; x = 3 is rejected although x was declared #mut. */
  lemma MutabilityLost()
    ensures TransAll([Assign(LVar("c", false), IntLit(1)), Assign(LVar("x", true), IntLit(2)),
                      Assign(LVar("x", false), Var("c")), Assign(LVar("x", false), IntLit(3))],
                     Prologue([], [], true), Nothing) == Err(ReadOnly)
  {
    var st := Prologue([], [], true);
    assert st.syms == map[];
    var w, x, y, z := Assign(LVar("c", false), IntLit(1)), Assign(LVar("x", true), IntLit(2)),
                      Assign(LVar("x", false), Var("c")), Assign(LVar("x", false), IntLit(3));
    DeclareStep("c", false, 1, st);
    var s1 := Trans(w, st).st;
    DeclareStep("x", true, 2, s1);
    var s2 := Trans(x, s1).st;
    CopyStep("x", "c", s2);
    var s3 := Trans(y, s2).st;
    LiteralValue(3, s3);
    FlagFollowsValue("x", false, Var("c"), false, IntLit(3), s2);
    hide Trans, Prologue;
    assert [w, x, y, z][1..] == [x, y, z] && [x, y, z][1..] == [y, z] && [y, z][1..] == [z];
  }

  lemma CopyStep(x: string, c: string, st: TState)
    requires x in st.syms && c in st.syms && x != c && !st.syms[x].isConst && st.syms[x].ty == st.syms[c].ty
    ensures Trans(Assign(LVar(x, false), Var(c)), st).Ok? && Trans(Var(c), st).Ok?
    ensures Trans(Var(c), st).v.TVal? && Trans(Var(c), st).v.isConst == st.syms[c].isConst
  {
  }

  lemma LiteralValue(i: Int32, st: TState)
    ensures Trans(IntLit(i), st).Ok? && Trans(IntLit(i), st).v.TVal? && Trans(IntLit(i), st).v.ty == I32
  {
  }
}
