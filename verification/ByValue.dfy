/** When arguments are passed by value. A structure read from a variable is not copied before the call, so
    an argument that assigns the variable changes an argument to the left of it. */
module ByValue {
  import opened Words
  import opened Aggregates
  import opened StructNames
  import opened Objective
  import opened CallValues

  /** Evaluation as one would expect it: operands are values, taken from left to right. */
  function ValueOf(e: Term, sem: Meaning, env: Env): Option<(Aggregates.Val, Env)>
    decreases e, 1
  {
    match e
    case Literal(v) => Some((Basic(v), env))
    case Read(x, path) =>
      var v := if x in env then Lookup(env[x], path) else None;
      if v.None? then None else Some((v.value, env))
    case Build(keys, vals, methods) =>
      var r := ValuesOf(vals, sem, env);
      if r.None? then None else Some((Rec(Paired(keys, r.value.0), methods), r.value.1))
    case Assign(x, _, path, e1) =>
      var r := ValueOf(e1, sem, env);
      if r.None? then None else Entering(x, path, r.value.0, r.value.1)
    case DotCall(a, key, args) =>
      var r := ValuesOf(args, sem, env);
      if r.None? then None else Answered(a, key, r.value.0, env, r.value.1, sem)
    case MethodCall(a, key, args) => ValueOfCall(a, key, args, sem, env)
    case MethodSet(a, key, args) =>
      var r := ValueOfCall(a, key, args, sem, env);
      if r.None? then None else Entering(a, [], r.value.0, r.value.1)
    case Choice(_, _, _) => ValueOfChoice(e, sem, env)
  }

  function ValueOfChoice(e: Term, sem: Meaning, env: Env): Option<(Aggregates.Val, Env)>
    requires e.Choice?
    decreases e, 0
  {
    var rc := ValueOf(e.c, sem, env);
    if rc.None? then None else
    var rx := ValueOf(e.thn, sem, rc.value.1);
    if rx.None? then None else
    var ry := ValueOf(e.els, sem, rx.value.1);
    if ry.None? || rc.value.0.Rec? || rc.value.0.v.IntV? then None else
    Some((if rc.value.0.v.b then rx.value.0 else ry.value.0, ry.value.1))
  }

  function Entering(x: string, path: seq<string>, v: Aggregates.Val, env: Env): Option<(Aggregates.Val, Env)>
  {
    if path == [] then Some((v, env[x := v]))
    else if x !in env || Lookup(env[x], path).None? then None
    else Some((v, env[x := Update(env[x], path, v)]))
  }

  function Answered(a: string, key: string, vs: seq<Aggregates.Val>, before: Env, env: Env, sem: Meaning)
    : Option<(Aggregates.Val, Env)>
  {
    if a !in before || before[a].Basic? || key !in before[a].methods then None
    else Some((sem(before[a].methods[key], vs), env))
  }

  function ValueOfCall(a: string, key: string, args: seq<Term>, sem: Meaning, env: Env): Option<(Aggregates.Val, Env)>
    decreases args, 1
  {
    var r := ValuesOf(args, sem, env);
    if r.None? || a !in r.value.1 then None
    else Answered(a, key, r.value.0 + [r.value.1[a]], env, r.value.1, sem)
  }

  function ValuesOf(es: seq<Term>, sem: Meaning, env: Env): Option<(seq<Aggregates.Val>, Env)>
    decreases es, 0
  {
    if es == [] then Some(([], env))
    else
      var r := ValueOf(es[0], sem, env);
      if r.None? then None else
      var rs := ValuesOf(es[1..], sem, r.value.1);
      if rs.None? then None else Some(([r.value.0] + rs.value.0, rs.value.1))
  }

  // --------------------------------------------------------------- condition

  /** Some assignment to x, or to a member of it, is in e. */
  predicate Touches(e: Term, x: string)
    decreases e, 1
  {
    match e
    case Literal(_) => false
    case Read(_, _) => false
    case Build(_, vals, _) => TouchesAny(vals, x)
    case Assign(y, _, _, e1) => y == x || Touches(e1, x)
    case DotCall(_, _, args) => TouchesAny(args, x)
    case MethodCall(_, _, args) => TouchesAny(args, x)
    case MethodSet(a, _, args) => a == x || TouchesAny(args, x)
    case Choice(c, y, z) => Touches(c, x) || Touches(y, x) || Touches(z, x)
  }

  predicate TouchesAny(es: seq<Term>, x: string)
    decreases es, 0
  {
    es != [] && (Touches(es[0], x) || TouchesAny(es[1..], x))
  }

  /** Nothing in es assigns the variable that r is a place in. */
  predicate Spares(es: seq<Term>, r: Ref)
  {
    r.In? ==> !TouchesAny(es, r.x)
  }

  /** No operand assigns a variable that an operand to the left of it reads a structure from, and no
      structure is assigned to another place in its own variable. */
  predicate Settled(e: Term, sem: Meaning, env: Env)
    decreases e, 1
  {
    match e
    case Literal(_) => true
    case Read(_, _) => true
    case Build(_, vals, _) => SettledAll(vals, sem, env)
    case Assign(x, _, path, e1) =>
      var r := EvalTerm(e1, sem, env);
      Settled(e1, sem, env) && (r.Some? && r.value.0.In? && r.value.0.x == x ==> r.value.0.path == path)
    case DotCall(_, _, args) => SettledAll(args, sem, env)
    case MethodCall(_, _, args) => SettledAll(args, sem, env)
    case MethodSet(_, _, args) => SettledAll(args, sem, env)
    case Choice(_, _, _) => SettledChoice(e, sem, env)
  }

  predicate SettledChoice(e: Term, sem: Meaning, env: Env)
    requires e.Choice?
    decreases e, 0
  {
    Settled(e.c, sem, env) &&
    var rc := EvalTerm(e.c, sem, env);
    rc.Some? ==>
      Spares([e.thn, e.els], rc.value.0) && Settled(e.thn, sem, rc.value.1) &&
      var rx := EvalTerm(e.thn, sem, rc.value.1);
      rx.Some? ==> Spares([e.els], rx.value.0) && Settled(e.els, sem, rx.value.1)
  }

  predicate SettledAll(es: seq<Term>, sem: Meaning, env: Env)
    decreases es, 0
  {
    es == [] ||
    (&& Settled(es[0], sem, env)
     && var r := EvalTerm(es[0], sem, env);
        r.Some? ==> Spares(es[1..], r.value.0) && SettledAll(es[1..], sem, r.value.1))
  }

  // ------------------------------------------------------------------ lemmas

  predicate KeptIn(x: string, env: Env, env': Env)
  {
    x in env ==> x in env' && env'[x] == env[x]
  }

  lemma {:induction false} TermKeepsValue(e: Term, sem: Meaning, env: Env, x: string)
    requires !Touches(e, x) && EvalTerm(e, sem, env).Some?
    ensures KeptIn(x, env, EvalTerm(e, sem, env).value.1)
    decreases e, 1
  {
    match e
    case Literal(_) =>
    case Read(_, _) =>
    case Build(_, vals, _) => TermsKeepValue(vals, sem, env, x);
    case Assign(_, _, _, e1) => TermKeepsValue(e1, sem, env, x);
    case DotCall(_, _, args) => TermsKeepValue(args, sem, env, x);
    case MethodCall(_, _, args) => TermsKeepValue(args, sem, env, x);
    case MethodSet(_, _, args) => TermsKeepValue(args, sem, env, x);
    case Choice(c, y, z) =>
      var env1 := EvalTerm(c, sem, env).value.1;
      TermKeepsValue(c, sem, env, x);
      TermKeepsValue(y, sem, env1, x);
      TermKeepsValue(z, sem, EvalTerm(y, sem, env1).value.1, x);
  }

  lemma {:induction false} TermsKeepValue(es: seq<Term>, sem: Meaning, env: Env, x: string)
    requires !TouchesAny(es, x) && EvalTerms(es, sem, env).Some?
    ensures KeptIn(x, env, EvalTerms(es, sem, env).value.1)
    decreases es, 0
  {
    if es != [] {
      TermKeepsValue(es[0], sem, env, x);
      TermsKeepValue(es[1..], sem, EvalTerm(es[0], sem, env).value.1, x);
    }
  }

  /** What an operand holds behind operands that spare it. */
  lemma NowKept(r: Ref, es: seq<Term>, sem: Meaning, env: Env)
    requires Spares(es, r) && EvalTerms(es, sem, env).Some? && Now(r, env).Some?
    ensures Now(r, EvalTerms(es, sem, env).value.1) == Now(r, env)
  {
    hide EvalTerms, TouchesAny;
    if r.In? {
      TermsKeepValue(es, sem, env, r.x);
    }
  }

  lemma OneTerm(e: Term, sem: Meaning, env: Env)
    ensures EvalTerms([e], sem, env) ==
      var r := EvalTerm(e, sem, env);
      if r.None? then None else Some(([r.value.0], r.value.1))
  {
    assert [e][1..] == [];
    var r := EvalTerm(e, sem, env);
    if r.Some? {
      assert EvalTerms([], sem, r.value.1) == Some(([], r.value.1)) && [r.value.0] + [] == [r.value.0];
    }
  }

  lemma {:induction false} UpdateLooks(v: Aggregates.Val, path: seq<string>, u: Aggregates.Val)
    requires Lookup(v, path).Some?
    ensures Lookup(Update(v, path, u), path) == Some(u)
    decreases |path|
  {
    if path != [] {
      UpdateLooks(v.members[path[0]], path[1..], u);
    }
  }

  /** The result of evaluation, with the value that the operand holds at its end. */
  function Settling(r: Option<(Ref, Env)>): Option<(Aggregates.Val, Env)>
  {
    if r.None? || Now(r.value.0, r.value.1).None? then None
    else Some((Now(r.value.0, r.value.1).value, r.value.1))
  }

  function SettlingAll(r: Option<(seq<Ref>, Env)>): Option<(seq<Aggregates.Val>, Env)>
  {
    if r.None? || NowAll(r.value.0, r.value.1).None? then None
    else Some((NowAll(r.value.0, r.value.1).value, r.value.1))
  }

  /** Settled operands are evaluated as values, from left to right: what a call passes, a literal stores and
      an assignment copies is the value that the operand had when it was evaluated. */
  lemma {:induction false} ByValue(e: Term, sem: Meaning, env: Env)
    requires Settled(e, sem, env)
    ensures ValueOf(e, sem, env) == Settling(EvalTerm(e, sem, env))
    ensures EvalTerm(e, sem, env).Some? ==> ValueOf(e, sem, env).Some?
    decreases e, 1
  {
    match e
    case Literal(_) =>
    case Read(_, _) =>
    case Build(_, vals, _) => AllByValue(vals, sem, env);
    case Assign(x, _, path, e1) =>
      ByValue(e1, sem, env);
      AssignByValue(x, path, EvalTerm(e1, sem, env));
    case DotCall(_, _, args) => AllByValue(args, sem, env);
    case MethodCall(a, key, args) => CallByValue(a, key, args, sem, env);
    case MethodSet(a, key, args) =>
      CallByValue(a, key, args, sem, env);
      AssignByValue(a, [], EvalCall(a, key, args, sem, env));
    case Choice(_, _, _) => ChoiceByValue(e, sem, env);
  }

  lemma AssignByValue(x: string, path: seq<string>, r: Option<(Ref, Env)>)
    requires r.Some? ==> Now(r.value.0, r.value.1).Some?
    requires r.Some? && r.value.0.In? && r.value.0.x == x ==> r.value.0.path == path
    ensures r.Some? ==>
      var out := Assigned(x, path, r.value.0, r.value.1);
      && Entering(x, path, Now(r.value.0, r.value.1).value, r.value.1) == Settling(out)
      && (out.Some? ==> Settling(out).Some?)
  {
    if r.Some? {
      var (ref, env) := r.value;
      var v := Now(ref, env).value;
      if path != [] && x in env && Lookup(env[x], path).Some? {
        UpdateLooks(env[x], path, v);
      }
    }
  }

  lemma {:induction false} CallByValue(a: string, key: string, args: seq<Term>, sem: Meaning, env: Env)
    requires SettledAll(args, sem, env)
    ensures ValueOfCall(a, key, args, sem, env) == Settling(EvalCall(a, key, args, sem, env))
    ensures var r := EvalCall(a, key, args, sem, env);
      r.Some? ==> ValueOfCall(a, key, args, sem, env).Some? && r.value.0.Own?
    decreases args, 1
  {
    AllByValue(args, sem, env);
    var r := EvalTerms(args, sem, env);
    if r.Some? && a in r.value.1 {
      var self := Fetch(a, [], r.value.1).value;
      NowSnoc(r.value.0, self, r.value.1);
    }
  }

  lemma {:induction false} NowSnoc(rs: seq<Ref>, r: Ref, env: Env)
    ensures var vs, v := NowAll(rs, env), Now(r, env);
      NowAll(rs + [r], env) == if vs.Some? && v.Some? then Some(vs.value + [v.value]) else None
    decreases |rs|
  {
    if rs == [] {
      assert rs + [r] == [r] && [r][1..] == [];
      assert NowAll([], env) == Some([]);
      if Now(r, env).Some? {
        assert [Now(r, env).value] + [] == [] + [Now(r, env).value];
      }
    } else {
      assert (rs + [r])[1..] == rs[1..] + [r] && (rs + [r])[0] == rs[0];
      NowSnoc(rs[1..], r, env);
      var v, vs, w := Now(rs[0], env), NowAll(rs[1..], env), Now(r, env);
      if v.Some? && vs.Some? && w.Some? {
        assert [v.value] + (vs.value + [w.value]) == [v.value] + vs.value + [w.value];
      }
    }
  }

  lemma {:induction false} AllByValue(es: seq<Term>, sem: Meaning, env: Env)
    requires SettledAll(es, sem, env)
    ensures ValuesOf(es, sem, env) == SettlingAll(EvalTerms(es, sem, env))
    ensures EvalTerms(es, sem, env).Some? ==> ValuesOf(es, sem, env).Some?
    decreases es, 0
  {
    if es != [] {
      hide ValueOf, EvalTerm, Settled, Spares;
      ByValue(es[0], sem, env);
      var r := EvalTerm(es[0], sem, env);
      if r.Some? {
        AllByValue(es[1..], sem, r.value.1);
        if EvalTerms(es[1..], sem, r.value.1).Some? {
          NowKept(r.value.0, es[1..], sem, r.value.1);
        }
      }
    }
  }

  lemma {:induction false} ChoiceByValue(e: Term, sem: Meaning, env: Env)
    requires e.Choice? && SettledChoice(e, sem, env)
    ensures ValueOfChoice(e, sem, env) == Settling(EvalChoice(e, sem, env))
    ensures EvalChoice(e, sem, env).Some? ==> ValueOfChoice(e, sem, env).Some?
    decreases e, 0
  {
    hide Spares, EvalTerm, ValueOf, Settled;
    ByValue(e.c, sem, env);
    var rc := EvalTerm(e.c, sem, env);
    if rc.Some? {
      ByValue(e.thn, sem, rc.value.1);
      var rx := EvalTerm(e.thn, sem, rc.value.1);
      if rx.Some? {
        ByValue(e.els, sem, rx.value.1);
        if EvalTerm(e.els, sem, rx.value.1).Some? {
          OneTerm(e.els, sem, rx.value.1);
          NowKept(rx.value.0, [e.els], sem, rx.value.1);
          assert [e.thn, e.els][1..] == [e.els];
          NowKept(rc.value.0, [e.thn, e.els], sem, rc.value.1);
        }
      }
    }
  }

  // ---------------------------------------------------------------- programs

  /** Statements one after the other: their values are dropped. */
  function DoLines(es: seq<Term>, sem: Meaning, env: Env): Option<Env>
    decreases |es|
  {
    if es == [] then Some(env)
    else
      var r := EvalTerm(es[0], sem, env);
      if r.None? then None else DoLines(es[1..], sem, r.value.1)
  }

  function ValueLines(es: seq<Term>, sem: Meaning, env: Env): Option<Env>
    decreases |es|
  {
    if es == [] then Some(env)
    else
      var r := ValueOf(es[0], sem, env);
      if r.None? then None else ValueLines(es[1..], sem, r.value.1)
  }

  predicate SettledLines(es: seq<Term>, sem: Meaning, env: Env)
    decreases |es|
  {
    es == [] ||
    (&& Settled(es[0], sem, env)
     && var r := EvalTerm(es[0], sem, env);
        r.Some? ==> SettledLines(es[1..], sem, r.value.1))
  }

  lemma {:induction false} LinesByValue(es: seq<Term>, sem: Meaning, env: Env)
    requires SettledLines(es, sem, env)
    ensures ValueLines(es, sem, env) == DoLines(es, sem, env)
    decreases |es|
  {
    if es != [] {
      hide Settled;
      ByValue(es[0], sem, env);
      var r := EvalTerm(es[0], sem, env);
      if r.Some? {
        LinesByValue(es[1..], sem, r.value.1);
      }
    }
  }

  lemma {:induction false} LinesAre(es: seq<Term>, sem: Meaning, env: Env)
    ensures EvalTerms(es, sem, env).Some? <==> DoLines(es, sem, env).Some?
    ensures EvalTerms(es, sem, env).Some? ==> DoLines(es, sem, env) == Some(EvalTerms(es, sem, env).value.1)
    decreases |es|
  {
    if es != [] && EvalTerm(es[0], sem, env).Some? {
      LinesAre(es[1..], sem, EvalTerm(es[0], sem, env).value.1);
    }
  }

  /** Whole programs, from nothing: the cells hold the values that the program gives the variables, the one it
      gives them by value wherever it is settled. */
  lemma ProgramWithCalls(es: seq<Term>, ev: Callee, sem: Meaning, m: Compiled) returns (g: Frame, env: Env)
    requires TransTerms(es, ev, map[], 0).AllDone? && AllNamesStay(es, ev, map[], 0)
    requires Implements(m, sem, ev) && ReturnsOwned(ev)
    ensures var r := TransTerms(es, ev, map[], 0);
      && RunOps(r.code, Frame(map[], []), m) == Some(g) && DoLines(es, sem, map[]) == Some(env)
      && Rel(env, r.t, g) && Aggregates.Stored(env, r.t, g)
    ensures SettledLines(es, sem, map[]) ==> ValueLines(es, sem, map[]) == Some(env)
  {
    var start := Frame(map[], []);
    assert Rel(map[], map[], start) && Below(start, 0) && AllOwned(map[]);
    hide Rel, Below, Aggregates.Stored, TransTerms, EvalTerms, DoLines, AllNamesStay, RunOps, Implements, ReturnsOwned;
    g := SimTerms(es, map[], ev, sem, m, map[], 0, start);
    LinesAre(es, sem, map[]);
    env := DoLines(es, sem, map[]).value;
    RelStores(env, TransTerms(es, ev, map[], 0).t, g);
    if SettledLines(es, sem, map[]) {
      LinesByValue(es, sem, map[]);
    }
  }

  // ------------------------------------------------------------- a departure

  /** [k: i, b: ...], a structure with a function b. */
  function WithB(i: Int32): Term
  {
    Build(["k"], [Literal(IntV(i))], map["b" := 0])
  }

  function ValueB(i: Int32): Aggregates.Val
  {
    Rec(map["k" := Basic(IntV(i))], map["b" := 0])
  }

  const FIRST := Assign("s", true, [], WithB(1))                                         // s#mut = [k: 1, b: ...]
  const LATE := DotCall("s", "b", [Read("s", []), Assign("s", false, [], WithB(2))])   // s.b(s, s = [k: 2, b: ...])

  /** The function returns its first argument. */
  function FirstSymbol(f: nat, syms: seq<Symbol>): Option<Symbol>
  {
    if syms == [] || !Aggregates.Owned(syms[0]) then None else Some(syms[0])
  }

  function FirstContent(f: nat, cs: seq<Content>): Option<Content>
  {
    if cs == [] then None else Some(cs[0])
  }

  function FirstValue(f: nat, vs: seq<Aggregates.Val>): Aggregates.Val
  {
    if vs == [] then Basic(BoolV(false)) else vs[0]
  }

  lemma FirstImplements()
    ensures Implements(FirstContent, FirstValue, FirstSymbol) && ReturnsOwned(FirstSymbol)
  {
    hide Fits, Aggregates.Owned;
  }

  function SymbolB(n: nat): Symbol
  {
    OneSymbol("k", Bare(Word(I32)), map["b" := 0], n)
  }

  lemma BuildB(i: Int32, t: Table, next: nat)
    ensures var r := TransTerm(WithB(i), FirstSymbol, t, next);
      r.Done? && r.t == t && r.next == next + 2 && r.sym == SymbolB(next) && NamesStay(WithB(i), FirstSymbol, t, next)
  {
    TransOne("k", Lit(IntV(i)), map["b" := 0], t, next);
    EmbeddedB(i);
    EmbeddedTrans(WithFunction(i), FirstSymbol, t, next);
    NamesB(i, t, next);
    hide TransExpr, TransTerm, NamesStay;
  }

  lemma NamesB(i: Int32, t: Table, next: nat)
    ensures NamesStay(WithB(i), FirstSymbol, t, next)
  {
    hide TransTerm;
    var e := Literal(IntV(i));
    assert [e][1..] == [];
    assert NamesStay(e, FirstSymbol, t, next) && AllNamesStay([e], FirstSymbol, t, next);
    assert |["k"]| == |[e]|;
  }

  lemma EmbeddedB(i: Int32)
    ensures Embedded(WithFunction(i)) == WithB(i)
  {
    var m := Member("k", Lit(IntV(i)));
    assert [m][1..] == [] && EmbeddedAll([]) == [] && KeysOf([]) == [];
    assert EmbeddedAll([m]) == [Literal(IntV(i))] + [] == [Literal(IntV(i))];
    assert KeysOf([m]) == ["k"] + [] == ["k"];
  }

  lemma EvalB(i: Int32, env: Env)
    ensures EvalTerm(WithB(i), FirstValue, env) == Some((Own(ValueB(i)), env))
    ensures ValueOf(WithB(i), FirstValue, env) == Some((ValueB(i), env))
  {
    var e := Literal(IntV(i));
    OneTerm(e, FirstValue, env);
    OneValue(e, FirstValue, env);
    assert EvalTerms([e], FirstValue, env) == Some(([Own(Basic(IntV(i)))], env));
    assert ValuesOf([e], FirstValue, env) == Some(([Basic(IntV(i))], env));
    NowOne(Own(Basic(IntV(i))), env);
    hide EvalTerms, ValuesOf, NowAll;
    assert Paired(["k"], [Basic(IntV(i))]) == map["k" := Basic(IntV(i))] by {
      assert ["k"][1..] == [];
    }
  }

  lemma OneValue(e: Term, sem: Meaning, env: Env)
    ensures ValuesOf([e], sem, env) ==
      var r := ValueOf(e, sem, env);
      if r.None? then None else Some(([r.value.0], r.value.1))
  {
    assert [e][1..] == [];
    var r := ValueOf(e, sem, env);
    if r.Some? {
      assert ValuesOf([], sem, r.value.1) == Some(([], r.value.1)) && [r.value.0] + [] == [r.value.0];
    }
  }

  lemma NowOne(r: Ref, env: Env)
    requires Now(r, env).Some?
    ensures NowAll([r], env) == Some([Now(r, env).value])
  {
    assert [] + [r] == [r] && NowAll([], env) == Some([]);
    NowSnoc([], r, env);
    assert [] + [Now(r, env).value] == [Now(r, env).value];
  }

  /** With s = [k: 1, ...], the call s.b(s, s = [k: 2, ...]) is accepted, and passes the new structure as first
      argument, not the one that s was when the argument was evaluated. */
  lemma PassedLate()
    ensures Implements(FirstContent, FirstValue, FirstSymbol) && ReturnsOwned(FirstSymbol)
    ensures TransTerms([FIRST, LATE], FirstSymbol, map[], 0).AllDone?
    ensures AllNamesStay([FIRST, LATE], FirstSymbol, map[], 0)
    ensures var env := map["s" := ValueB(1)];
      && EvalTerm(FIRST, FirstValue, map[]) == Some((Own(ValueB(1)), env))
      && EvalTerm(LATE, FirstValue, env) == Some((Own(ValueB(2)), map["s" := ValueB(2)]))
      && ValueOf(LATE, FirstValue, env) == Some((ValueB(1), map["s" := ValueB(2)]))
  {
    hide EvalTerm, ValueOf, TransTerms, AllNamesStay, Implements, ReturnsOwned;
    FirstImplements();
    LateAccepted();
    FirstEvaluated();
    LateEvaluated(map["s" := ValueB(1)], map["s" := ValueB(2)]);
  }

  lemma FirstEvaluated()
    ensures EvalTerm(FIRST, FirstValue, map[]) == Some((Own(ValueB(1)), map["s" := ValueB(1)]))
  {
    EvalB(1, map[]);
  }

  lemma LateEvaluated(env: Env, env': Env)
    requires env == map["s" := ValueB(1)] && env' == map["s" := ValueB(2)]
    ensures EvalTerm(LATE, FirstValue, env) == Some((Own(ValueB(2)), env'))
    ensures ValueOf(LATE, FirstValue, env) == Some((ValueB(1), env'))
  {
    LateArguments(env, env');
    hide EvalTerms, ValuesOf;
    var place := In("s", []);
    NowOne(place, env');
    NowSnoc([place], Own(ValueB(2)), env');
    hide NowAll;
    assert [place] + [Own(ValueB(2))] == [place, Own(ValueB(2))];
    assert [ValueB(2)] + [ValueB(2)] == [ValueB(2), ValueB(2)];
  }

  /** The table behind the declaration. */
  predicate HasB(t: Table)
  {
    "s" in t && t["s"] == SymbolB(0).(ptr := 2, isConst := false)
  }

  lemma FirstAccepted()
    ensures var r := TransTerm(FIRST, FirstSymbol, map[], 0);
      r.Done? && HasB(r.t) && NamesStay(FIRST, FirstSymbol, map[], 0)
  {
    BuildB(1, map[], 0);
    hide SymbolB;
  }

  lemma ChangeAccepted(t: Table, next: nat)
    requires HasB(t)
    ensures var change := Assign("s", false, [], WithB(2));
      TransTerm(change, FirstSymbol, t, next).Done? && NamesStay(change, FirstSymbol, t, next)
  {
    BuildB(2, t, next);
    WalkHere(t["s"], next);
    SameB(next, t["s"]);
    hide SymbolB, TransTerm, NamesStay;
    var r := TransTerm(WithB(2), FirstSymbol, t, next);
    AssignAccepted(WithB(2), t, next, r);
  }

  lemma SameB(n: nat, sym: Symbol)
    requires sym == SymbolB(0).(ptr := 2, isConst := false)
    ensures SameNames(SymbolB(n), sym) && SymbolB(n).ty == sym.ty && !sym.isConst && Aggregates.Owned(sym)
  {
    assert SymbolB(n).symbols.Keys == {"k"} && SameNames(SymbolB(n).symbols["k"], sym.symbols["k"]);
  }

  lemma AssignAccepted(e: Term, t: Table, next: nat, r: Outcome)
    requires "s" in t && Walk(t["s"], [], next) == Walked.Place([], next, t["s"])
    requires r == TransTerm(e, FirstSymbol, t, next) && r.Done? && NamesStay(e, FirstSymbol, t, next)
    requires SameNames(r.sym, t["s"]) && !t["s"].isConst && r.sym.ty == t["s"].ty
    ensures var change := Assign("s", false, [], e);
      TransTerm(change, FirstSymbol, t, next).Done? && NamesStay(change, FirstSymbol, t, next)
  {
    hide SameNames;
  }

  lemma LateAccepted()
    ensures TransTerms([FIRST, LATE], FirstSymbol, map[], 0).AllDone?
    ensures AllNamesStay([FIRST, LATE], FirstSymbol, map[], 0)
  {
    FirstAccepted();
    var r := TransTerm(FIRST, FirstSymbol, map[], 0);
    CallAccepted(r.t, r.next);
    hide TransTerm, NamesStay;
    TwoAccepted(FIRST, LATE, map[], 0);
  }

  lemma CallAccepted(t: Table, next: nat)
    requires HasB(t)
    ensures TransTerm(LATE, FirstSymbol, t, next).Done? && NamesStay(LATE, FirstSymbol, t, next)
  {
    var read, change := Read("s", []), Assign("s", false, [], WithB(2));
    ReadWhole("s", t, next);
    ReadAccepted(t, next);
    ChangeAccepted(t, next);
    SameB(0, t["s"]);
    TwoAccepted(read, change, t, next);
    hide TransTerms, AllNamesStay, Aggregates.Owned, TransTerm;
    var all := TransTerms([read, change], FirstSymbol, t, next);
    assert Symbols(all.vals)[0] == t["s"];
    assert Found("s", "b", t) == Some(0);
    assert Invoke(0, all, FirstSymbol).Done?;
    hide NamesStay, HasB;
    DotAccepted("s", "b", [read, change], FirstSymbol, t, next);
  }

  lemma DotAccepted(a: string, key: string, args: seq<Term>, ev: Callee, t: Table, next: nat)
    requires Found(a, key, t).Some? && TransTerms(args, ev, t, next).AllDone? && AllNamesStay(args, ev, t, next)
    requires Invoke(Found(a, key, t).value, TransTerms(args, ev, t, next), ev).Done?
    ensures TransTerm(DotCall(a, key, args), ev, t, next).Done? && NamesStay(DotCall(a, key, args), ev, t, next)
  {
    hide TransTerms, AllNamesStay, Invoke, Found;
  }

  lemma ReadAccepted(t: Table, next: nat)
    requires HasB(t)
    ensures var r := TransTerm(Read("s", []), FirstSymbol, t, next);
      r == Done([], next, t, Reg(t["s"].ptr), t["s"])
  {
    ReadWhole("s", t, next);
  }

  lemma TwoAccepted(a: Term, b: Term, t: Table, next: nat)
    requires TransTerm(a, FirstSymbol, t, next).Done? && NamesStay(a, FirstSymbol, t, next)
    requires var r := TransTerm(a, FirstSymbol, t, next);
      TransTerm(b, FirstSymbol, r.t, r.next).Done? && NamesStay(b, FirstSymbol, r.t, r.next)
    ensures var all := TransTerms([a, b], FirstSymbol, t, next);
      all.AllDone? && all.vals != [] && all.vals[0].sym == TransTerm(a, FirstSymbol, t, next).sym
    ensures AllNamesStay([a, b], FirstSymbol, t, next)
  {
    hide TransTerm, NamesStay;
    assert [a, b][1..] == [b] && [b][1..] == [];
    var r := TransTerm(a, FirstSymbol, t, next);
    var q := TransTerm(b, FirstSymbol, r.t, r.next);
    assert TransTerms([], FirstSymbol, q.t, q.next).AllDone? && AllNamesStay([], FirstSymbol, q.t, q.next);
    assert TransTerms([b], FirstSymbol, r.t, r.next).AllDone?;
  }

  lemma LateArguments(env: Env, env': Env)
    requires env == map["s" := ValueB(1)] && env' == map["s" := ValueB(2)]
    ensures var args := [Read("s", []), Assign("s", false, [], WithB(2))];
      && EvalTerms(args, FirstValue, env) == Some(([In("s", []), Own(ValueB(2))], env'))
      && ValuesOf(args, FirstValue, env) == Some(([ValueB(1), ValueB(2)], env'))
  {
    EvalB(2, env);
    var read, change := Read("s", []), Assign("s", false, [], WithB(2));
    assert env["s" := ValueB(2)] == env';
    assert EvalTerm(change, FirstValue, env) == Some((Own(ValueB(2)), env'));
    assert ValueOf(change, FirstValue, env) == Some((ValueB(2), env'));
    assert EvalTerm(read, FirstValue, env) == Some((In("s", []), env));
    assert ValueOf(read, FirstValue, env) == Some((ValueB(1), env));
    hide EvalTerm, ValueOf, ValueB;
    TwoTerms(read, change, FirstValue, env);
  }

  lemma TwoTerms(a: Term, b: Term, sem: Meaning, env: Env)
    ensures var r := EvalTerm(a, sem, env);
      r.Some? ==>
        var q := EvalTerm(b, sem, r.value.1);
        q.Some? ==> EvalTerms([a, b], sem, env) == Some(([r.value.0, q.value.0], q.value.1))
    ensures var r := ValueOf(a, sem, env);
      r.Some? ==>
        var q := ValueOf(b, sem, r.value.1);
        q.Some? ==> ValuesOf([a, b], sem, env) == Some(([r.value.0, q.value.0], q.value.1))
  {
    hide EvalTerm, ValueOf;
    assert [a, b][1..] == [b];
    var r, v := EvalTerm(a, sem, env), ValueOf(a, sem, env);
    if r.Some? {
      OneTerm(b, sem, r.value.1);
      if EvalTerm(b, sem, r.value.1).Some? {
        assert [r.value.0] + [EvalTerm(b, sem, r.value.1).value.0] ==
               [r.value.0, EvalTerm(b, sem, r.value.1).value.0];
      }
    }
    if v.Some? {
      OneValue(b, sem, v.value.1);
      if ValueOf(b, sem, v.value.1).Some? {
        assert [v.value.0] + [ValueOf(b, sem, v.value.1).value.0] == [v.value.0, ValueOf(b, sem, v.value.1).value.0];
      }
    }
  }
}
