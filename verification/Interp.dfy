/** The direct, strict, left-to-right meaning of the fragment over name-to-value environments.
    A scope sees the variables around it; what it declares itself is gone when it ends. */
module Interp {
  import opened Words
  import opened Ast

  type Env = map<string, Val>

  /** What an expression yields: nothing (void) or a value. */
  datatype Yield = Void | V(val: Val)

  datatype Outcome =
    | Normal(env: Env, y: Yield)      // control reaches the end
    | Return(env: Env, val: Val)      // a return operator was evaluated
    | Undefined                       // an operator has no defined result
    | Wrong                           // undeclared name, void operand, operand types

  datatype Target = Target(env: Env, name: string) | Stop(o: Outcome)

  /** The environment after an inner scope: the outer names with their new values. */
  function Leave(inner: Env, outer: Env): Env
  {
    map n | n in outer && n in inner :: inner[n]
  }

  function LeaveOutcome(o: Outcome, outer: Env): Outcome
  {
    match o
    case Normal(env, y) => Normal(Leave(env, outer), y)
    case Return(env, v) => Return(Leave(env, outer), v)
    case _ => o
  }

  function EvalBin(op: BinOp, x: Val, y: Val): Option<Val>
    requires TypeOf(x) == TypeOf(y)
    requires IsLogic(op) ==> x.BoolV? && y.BoolV?
  {
    if op == LAnd then Some(BoolV(x.b && y.b))
    else if op == LOr then Some(BoolV(x.b || y.b))
    else if IsArith(op) then
      match EvalArith(op, TypeOf(x), Num(x), Num(y))
      case None => None
      case Some(z) => Some(Back(TypeOf(x), z))
    else Some(BoolV(EvalCmp(op, Num(x), Num(y))))
  }

  /** A binary operator applied to what its operands yielded. */
  function BinOutcome(op: BinOp, env: Env, l: Yield, r: Yield): Outcome
  {
    if l.Void? || r.Void? then Wrong else
    if TypeOf(l.val) != TypeOf(r.val) || (IsLogic(op) && !l.val.BoolV?) then Wrong else
    match EvalBin(op, l.val, r.val)
    case None => Undefined
    case Some(v) => Normal(env, V(v))
  }

  /** Assigning what was yielded to a variable; env0 is the environment in which the variable
      was looked up. */
  function AssignOutcome(name: string, env0: Env, env: Env, y: Yield): Outcome
  {
    if y.Void? || (name in env0 && TypeOf(env0[name]) != TypeOf(y.val)) then Wrong
    else Normal(env[name := y.val], y)
  }

  /** Choosing between two values that were both evaluated. */
  function CondOutcome(env: Env, c: Yield, x: Yield, y: Yield): Outcome
  {
    if c.Void? || !c.val.BoolV? || x.Void? || y.Void? || TypeOf(x.val) != TypeOf(y.val) then Wrong
    else Normal(env, if c.val.b then x else y)
  }

  function Eval(e: Expr, env: Env): Outcome
    decreases e, 1
  {
    match e
    case IntLit(i) => Normal(env, V(IntV(i)))
    case BoolLit(b) => Normal(env, V(BoolV(b)))
    case Var(name) => if name in env then Normal(env, V(env[name])) else Wrong
    case Bin(op, l, r) =>
      var ol := Eval(l, env);
      if !ol.Normal? then ol else
      var or := Eval(r, ol.env);
      if !or.Normal? then or else
      BinOutcome(op, or.env, ol.y, or.y)
    case Assign(lhs, rhs) =>
      var t := EvalTarget(lhs, env);
      if t.Stop? then t.o else
      var o := Eval(rhs, t.env);
      if !o.Normal? then o else
      AssignOutcome(t.name, t.env, o.env, o.y)
    case Cond(c, x, y) =>
      var oc := Eval(c, env);
      if !oc.Normal? then oc else
      var ox := Eval(x, oc.env);
      if !ox.Normal? then ox else
      var oy := Eval(y, ox.env);
      if !oy.Normal? then oy else
      CondOutcome(oy.env, oc.y, ox.y, oy.y)
    case CondScope(c, thenBody, elseBody) =>
      var oc := Eval(c, env);
      if !oc.Normal? then oc else
      if oc.y.Void? || !oc.y.val.BoolV? then Wrong else
      var o := LeaveOutcome(if oc.y.val.b then EvalAll(thenBody, oc.env, Void)
                            else EvalAll(elseBody, oc.env, Void), oc.env);
      if o.Normal? then Normal(o.env, Void) else o
    case ScopeCall(body) =>
      if body == [] then Wrong else LeaveOutcome(EvalAll(body, env, Void), env)
    case Ret(e1) =>
      var o := Eval(e1, env);
      if !o.Normal? then o else
      if o.y.Void? then Wrong else Return(o.env, o.y.val)
  }

  /** Which variable is assigned; decided before the right-hand side is evaluated. */
  function EvalTarget(lhs: LVal, env: Env): Target
    decreases lhs, 1
  {
    match lhs
    case LVar(name, _) => Target(env, name)
    case LCond(c, a, b) =>
      var o := Eval(c, env);
      if !o.Normal? then Stop(o) else
      if o.y.Void? || !o.y.val.BoolV? || a !in o.env || b !in o.env
         || TypeOf(o.env[a]) != TypeOf(o.env[b]) then Stop(Wrong) else
      Target(o.env, if o.y.val.b then a else b)
  }

  function EvalAll(es: seq<Expr>, env: Env, last: Yield): Outcome
    decreases es, 0
  {
    if es == [] then Normal(env, last)
    else
      var o := Eval(es[0], env);
      if !o.Normal? then o else EvalAll(es[1..], o.env, o.y)
  }
}
