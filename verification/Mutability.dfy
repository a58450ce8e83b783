/** Which variables can still be assigned to: by the rules of the language alone, without the
    translator. Assigning copies the read-only flag of the value, so a #mut variable can lose its
    mutability. */
module Mutability {
  import opened Words
  import opened Ast
  import opened Ir
  import opened Emitter
  import opened Translation
  import opened Immutability
  import Scoping

  /** The variables of a scope, read-only or not. */
  type Flags = map<string, bool>

  function FlagsOf(t: Table): Flags
  {
    map n | n in t :: t[n].isConst
  }

  // ----------------------------------------------------------- at the source

  /** The value of e is read-only: a read of a read-only variable, a declaration without #mut, an
      assignment passing such a value on, or a called scope that ends in one. */
  predicate ReadOnlyValue(e: Expr, flags: Flags)
    decreases e, 1
  {
    match e
    case IntLit(_) => false
    case BoolLit(_) => false
    case Var(n) => n in flags && flags[n]
    case Bin(_, _, _) => false
    case Assign(lhs, rhs) =>
      (match lhs
       case LVar(n, mut) => if n in flags then ReadOnlyValue(rhs, flags) else !mut
       case LCond(c, _, _) => ReadOnlyValue(rhs, FlagsAfter(c, flags)))
    case Cond(_, _, _) => false
    case CondScope(_, _, _) => false
    case ScopeCall(body) => ReadOnlyLast(body, flags, false)
    case Ret(_) => false
  }

  predicate ReadOnlyLast(es: seq<Expr>, flags: Flags, last: bool)
    decreases es, 0
  {
    if es == [] then last else ReadOnlyLast(es[1..], FlagsAfter(es[0], flags), ReadOnlyValue(es[0], flags))
  }

  /** The variables behind e. Whether a name is declared is settled before the right side; arms and called
      scopes leave the enclosing scope's flags alone. */
  function FlagsAfter(e: Expr, flags: Flags): Flags
    decreases e, 0
  {
    match e
    case IntLit(_) => flags
    case BoolLit(_) => flags
    case Var(_) => flags
    case Bin(_, l, r) => FlagsAfter(r, FlagsAfter(l, flags))
    case Assign(lhs, rhs) =>
      (match lhs
       case LVar(n, mut) =>
         FlagsAfter(rhs, flags)[n := if n in flags then ReadOnlyValue(rhs, flags) else !mut]
       case LCond(c, _, _) => FlagsAfter(rhs, FlagsAfter(c, flags)))
    case Cond(c, x, y) => FlagsAfter(y, FlagsAfter(x, FlagsAfter(c, flags)))
    case CondScope(c, _, _) => FlagsAfter(c, flags)
    case ScopeCall(_) => flags
    case Ret(e1) => FlagsAfter(e1, flags)
  }

  /** Whether the value last assigned to x in e, in this scope, is read-only, if there is any such
      assignment. */
  function LastAssigned(e: Expr, x: string, flags: Flags): Option<bool>
  {
    match e
    case IntLit(_) => None
    case BoolLit(_) => None
    case Var(_) => None
    case Bin(_, l, r) => Later(LastAssigned(l, x, flags), LastAssigned(r, x, FlagsAfter(l, flags)))
    case Assign(lhs, rhs) =>
      (match lhs
       case LVar(n, _) => if n == x then Some(ReadOnlyValue(rhs, flags)) else LastAssigned(rhs, x, flags)
       case LCond(c, _, _) => Later(LastAssigned(c, x, flags), LastAssigned(rhs, x, FlagsAfter(c, flags))))
    case Cond(c, t, f) =>
      var f1 := FlagsAfter(c, flags);
      Later(Later(LastAssigned(c, x, flags), LastAssigned(t, x, f1)), LastAssigned(f, x, FlagsAfter(t, f1)))
    case CondScope(c, _, _) => LastAssigned(c, x, flags)
    case ScopeCall(_) => None
    case Ret(e1) => LastAssigned(e1, x, flags)
  }

  function Later(first: Option<bool>, second: Option<bool>): Option<bool>
  {
    if second.Some? then second else first
  }

  /** No statement leaves x with a read-only value. */
  predicate NeverSpoiled(es: seq<Expr>, x: string, flags: Flags)
  {
    es == [] || (LastAssigned(es[0], x, flags) != Some(true) && NeverSpoiled(es[1..], x, FlagsAfter(es[0], flags)))
  }

  // ------------------------------------------------------- the rules are right

  predicate FlagIs(v: TVal, readOnly: bool)
  {
    v.TVal? ==> v.isConst == readOnly
  }

  /** The translator's flags are those of the rules. */
  lemma {:induction false} FlagsAgree(e: Expr, st: TState)
    requires Trans(e, st).Ok?
    ensures FlagsOf(Trans(e, st).st.syms) == FlagsAfter(e, FlagsOf(st.syms))
    ensures FlagIs(Trans(e, st).v, ReadOnlyValue(e, FlagsOf(st.syms)))
    decreases e, 2
  {
    hide ApplyBin, ApplyAssign, ApplyCond, Select, FlagsOf;
    match e
    case IntLit(_) =>
    case BoolLit(_) =>
    case Var(n) => VarFlag(n, st);
    case Bin(op, l, r) =>
      var r1 := Trans(l, st);
      var r2 := Trans(r, r1.st);
      FlagsAgree(l, st);
      FlagsAgree(r, r1.st);
      BinFlags(op, r1.v, r2.v, r2.st);
    case Assign(_, _) => AssignFlags(e, st);
    case Cond(c, x, y) =>
      var r1 := Trans(c, st);
      var r2 := Trans(x, r1.st);
      var r3 := Trans(y, r2.st);
      FlagsAgree(c, st);
      FlagsAgree(x, r1.st);
      FlagsAgree(y, r2.st);
      CondFlags(r1.v, r2.v, r3.v, r3.st);
    case CondScope(c, _, _) =>
      FlagsAgree(c, st);
      var rc := Trans(c, st);
      ArmsFlags(rc.v.opd, e, rc.st);
    case ScopeCall(body) =>
      CallTable(body, st);
      AllFlagsAgree(body, CallState(st), Nothing, false);
    case Ret(e1) => FlagsAgree(e1, st);
  }

  lemma VarFlag(n: string, st: TState)
    requires LoadVar(n, st).Ok?
    ensures n in FlagsOf(st.syms) && LoadVar(n, st).v.isConst == FlagsOf(st.syms)[n] && LoadVar(n, st).v.TVal?
  {
  }

  lemma BinFlags(op: BinOp, x: TVal, y: TVal, st: TState)
    requires ApplyBin(op, x, y, st).Ok?
    ensures ApplyBin(op, x, y, st).st.syms == st.syms && FlagIs(ApplyBin(op, x, y, st).v, false)
  {
  }

  lemma CondFlags(c: TVal, x: TVal, y: TVal, st: TState)
    requires ApplyCond(c, x, y, st).Ok?
    ensures ApplyCond(c, x, y, st).st.syms == st.syms && FlagIs(ApplyCond(c, x, y, st).v, false)
  {
    hide Select;
  }

  lemma ArmsFlags(c: Operand, e: Expr, st: TState)
    requires e.CondScope? && TransArms(c, e, st).Ok?
    ensures TransArms(c, e, st).st.syms == st.syms && TransArms(c, e, st).v == Nothing
  {
    hide HasTerminator;
  }

  lemma CallTable(body: seq<Expr>, st: TState)
    requires TransCall(body, st).Ok?
    ensures CallState(st).syms == st.syms == TransCall(body, st).st.syms
    ensures TransAll(body, CallState(st), Nothing).Ok?
    ensures TransCall(body, st).v == TransAll(body, CallState(st), Nothing).v
  {
    hide HasTerminator;
  }

  lemma {:induction false} AssignFlags(e: Expr, st: TState)
    requires e.Assign? && Trans(e, st).Ok?
    ensures FlagsOf(Trans(e, st).st.syms) == FlagsAfter(e, FlagsOf(st.syms))
    ensures FlagIs(Trans(e, st).v, ReadOnlyValue(e, FlagsOf(st.syms)))
    decreases e, 1
  {
    hide ApplyCondPlace, ApplyAssign, FlagsOf;
    var rp := TransPlace(e.lhs, st);
    var rv := Trans(e.rhs, rp.st);
    FlagsAgree(e.rhs, rp.st);
    match e.lhs {
      case LVar(n, mut) =>
        Declaredness(n, st.syms);
        StoreFlags(e.lhs, rp.place, rv.v, rv.st);
      case LCond(c, a, b) =>
        var rc := Trans(c, st);
        FlagsAgree(c, st);
        CondPlaceKeeps(rc.v, a, b, rc.st);
        StoreFlags(e.lhs, rp.place, rv.v, rv.st);
    }
  }

  lemma Declaredness(n: string, t: Table)
    ensures n in FlagsOf(t) <==> n in t
  {
  }

  lemma StoreFlags(lhs: LVal, place: Place, v: TVal, st: TState)
    requires ApplyAssign(lhs, place, v, st).Ok?
    ensures v.TVal?
    ensures var r := ApplyAssign(lhs, place, v, st);
      match place
      case Fresh => lhs.LVar? && FlagsOf(r.st.syms) == FlagsOf(st.syms)[lhs.name := !lhs.mut] && FlagIs(r.v, !lhs.mut)
      case Known(s) => lhs.LVar? && FlagsOf(r.st.syms) == FlagsOf(st.syms)[lhs.name := v.isConst] && r.v == v
      case Pointed(_, _) => r.st.syms == st.syms && r.v == v
  {
  }

  lemma {:induction false} AllFlagsAgree(es: seq<Expr>, st: TState, last: TVal, readOnly: bool)
    requires TransAll(es, st, last).Ok? && FlagIs(last, readOnly)
    ensures FlagIs(TransAll(es, st, last).v, ReadOnlyLast(es, FlagsOf(st.syms), readOnly))
    decreases es, 0
  {
    hide FlagsOf;
    if es != [] {
      var r := Trans(es[0], st);
      FlagsAgree(es[0], st);
      AllFlagsAgree(es[1..], r.st, r.v, ReadOnlyValue(es[0], FlagsOf(st.syms)));
    }
  }

  /** The flag of a declared variable is that of the value last assigned to it, if there is one. */
  lemma {:induction false} LastDecides(e: Expr, x: string, flags: Flags)
    requires x in flags
    ensures x in FlagsAfter(e, flags)
    ensures var last := LastAssigned(e, x, flags);
      FlagsAfter(e, flags)[x] == if last.Some? then last.value else flags[x]
    decreases e
  {
    hide ReadOnlyValue;
    match e
    case IntLit(_) =>
    case BoolLit(_) =>
    case Var(_) =>
    case Bin(_, l, r) =>
      LastDecides(l, x, flags);
      LastDecides(r, x, FlagsAfter(l, flags));
    case Assign(lhs, rhs) =>
      if lhs.LVar? {
        LastDecides(rhs, x, flags);
      } else {
        LastDecides(lhs.cond, x, flags);
        LastDecides(rhs, x, FlagsAfter(lhs.cond, flags));
      }
    case Cond(c, t, f) =>
      var f1 := FlagsAfter(c, flags);
      LastDecides(c, x, flags);
      LastDecides(t, x, f1);
      LastDecides(f, x, FlagsAfter(t, f1));
    case CondScope(c, _, _) => LastDecides(c, x, flags);
    case ScopeCall(_) =>
    case Ret(e1) => LastDecides(e1, x, flags);
  }

  // ----------------------------------------------------------- statement lists

  /** Accepted code never makes a read-only variable assignable again. */
  lemma {:induction false} FlagStays(e: Expr, st: TState, x: string)
    requires Trans(e, st).Ok? && ReadOnlyIn(st.syms, x)
    ensures ReadOnlyIn(Trans(e, st).st.syms, x)
    decreases e
  {
    hide ApplyBin, ApplyCond, Select, ApplyCondPlace;
    match e
    case IntLit(_) =>
    case BoolLit(_) =>
    case Var(_) =>
    case Bin(op, l, r) =>
      var r1 := Trans(l, st);
      var r2 := Trans(r, r1.st);
      FlagStays(l, st, x);
      FlagStays(r, r1.st, x);
      BinFlags(op, r1.v, r2.v, r2.st);
    case Assign(lhs, rhs) =>
      var rp := TransPlace(lhs, st);
      if lhs.LCond? {
        var rc := Trans(lhs.cond, st);
        FlagStays(lhs.cond, st, x);
        CondPlaceKeeps(rc.v, lhs.a, lhs.b, rc.st);
      }
      FlagStays(rhs, rp.st, x);
    case Cond(c, t, f) =>
      var r1 := Trans(c, st);
      var r2 := Trans(t, r1.st);
      var r3 := Trans(f, r2.st);
      FlagStays(c, st, x);
      FlagStays(t, r1.st, x);
      FlagStays(f, r2.st, x);
      CondFlags(r1.v, r2.v, r3.v, r3.st);
    case CondScope(c, _, _) =>
      FlagStays(c, st, x);
      ArmsFlags(Trans(c, st).v.opd, e, Trans(c, st).st);
    case ScopeCall(body) => CallTable(body, st);
    case Ret(e1) => FlagStays(e1, st, x);
  }

  lemma {:induction false} AllStay(es: seq<Expr>, st: TState, last: TVal, x: string)
    requires TransAll(es, st, last).Ok? && ReadOnlyIn(st.syms, x)
    ensures ReadOnlyIn(TransAll(es, st, last).st.syms, x)
    decreases |es|
  {
    if es != [] {
      hide Trans;
      var r := Trans(es[0], st);
      FlagStays(es[0], st, x);
      AllStay(es[1..], r.st, r.v, x);
    }
  }

  /** A variable that can be assigned to before accepted statements can be assigned to behind them exactly
      if none of them leaves it with a read-only value. */
  lemma {:induction false} StaysMutable(es: seq<Expr>, st: TState, last: TVal, x: string)
    requires TransAll(es, st, last).Ok? && x in st.syms && !st.syms[x].isConst
    ensures x in TransAll(es, st, last).st.syms
    ensures !TransAll(es, st, last).st.syms[x].isConst <==> NeverSpoiled(es, x, FlagsOf(st.syms))
    decreases |es|
  {
    if es != [] {
      hide Trans, LastAssigned, FlagsAfter;
      var r := Trans(es[0], st);
      FlagsAgree(es[0], st);
      LastDecides(es[0], x, FlagsOf(st.syms));
      Declaredness(x, r.st.syms);
      assert x in r.st.syms && r.st.syms[x].isConst == FlagsOf(r.st.syms)[x];
      if r.st.syms[x].isConst {
        AllStay(es[1..], r.st, r.v, x);
      } else {
        StaysMutable(es[1..], r.st, r.v, x);
      }
    }
  }

  /** In terms of assignments: behind accepted statements an assignment of a value of the right type to a
      variable that was mutable before them is accepted, or refused as read-only, accordingly. */
  lemma AssignableExactly(es: seq<Expr>, st: TState, last: TVal, x: string, m: bool, next: Expr)
    requires TransAll(es, st, last).Ok? && x in st.syms && !st.syms[x].isConst
    requires var s1 := TransAll(es, st, last).st;
      && Trans(next, s1).Ok? && Trans(next, s1).v.TVal?
      && (x in s1.syms ==> Trans(next, s1).v.ty == s1.syms[x].ty)
    ensures var again := Trans(Assign(LVar(x, m), next), TransAll(es, st, last).st);
      if NeverSpoiled(es, x, FlagsOf(st.syms)) then again.Ok? else again == Err(ReadOnly)
  {
    hide TransAll, NeverSpoiled;
    StaysMutable(es, st, last, x);
  }
}
