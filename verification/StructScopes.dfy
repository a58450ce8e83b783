/** Structures through called scopes and conditionals with scope arms: a scope works on a copy of the
    symbol table that is dropped at its end, while what it writes to the cells of outer variables stays. */
module StructScopes {
  import opened Words
  import opened Aggregates
  import opened StructNames

  datatype Line =
    | One(s: Stmt)
    | Scope(body: seq<Line>)                                // {...}()
    | If(c: Expr, thn: seq<Line>, els: seq<Line>)           // c ? {...} : {...}

  /** Instructions, and the control flow of scopes: a called body and two arms. */
  datatype Code = Straight(code: seq<Instr>) | Then(a: Code, b: Code) | Called(a: Code) | Arms(c: Opd, a: Code, b: Code)

  function Go(code: Code, f: Frame): Option<Frame>
  {
    match code
    case Straight(instrs) => Run(instrs, f)
    case Then(a, b) =>
      var g := Go(a, f);
      if g.None? then None else Go(b, g.value)
    case Called(a) => Go(a, f)
    case Arms(c, a, b) =>
      var v := Value(c, f);
      if v.None? || v.value.Address? then None
      else if v.value.n != 0 then Go(a, f) else Go(b, f)
  }

  datatype Lined = Good(code: Code, next: nat, t: Table) | Bad

  function TransLine(l: Line, t: Table, next: nat): Lined
    decreases l, 1
  {
    match l
    case One(s) =>
      var r := TransStmt(s, t, next);
      if r.Refused? then Bad else Good(Straight(r.code), r.next, r.t)
    case Scope(body) =>
      if body == [] then Bad else
      var r := TransLines(body, t, next);
      if r.Bad? then Bad else Good(Called(r.code), r.next, t)
    case If(c, thn, els) =>
      var rc := TransExpr(c, t, next);
      if rc.Err? || rc.sym.ty != Word(I1) then Bad else
      var r1 := TransLines(thn, t, rc.next);
      if r1.Bad? then Bad else
      var r2 := TransLines(els, t, r1.next);
      if r2.Bad? then Bad else
      Good(Then(Straight(rc.code), Arms(rc.v, r1.code, r2.code)), r2.next, t)
  }

  function TransLines(ls: seq<Line>, t: Table, next: nat): Lined
    decreases ls, 0
  {
    if ls == [] then Good(Straight([]), next, t)
    else
      var r := TransLine(ls[0], t, next);
      if r.Bad? then Bad else
      var rs := TransLines(ls[1..], r.t, r.next);
      if rs.Bad? then Bad else Good(Then(r.code, rs.code), rs.next, rs.t)
  }

  // ------------------------------------------------------------------ source

  /** The outer variables with their new values. */
  function Leave(inner: Env, outer: Env): Env
  {
    map x | x in outer && x in inner :: inner[x]
  }

  function DoLine(l: Line, env: Env): Option<Env>
    decreases l, 1
  {
    match l
    case One(s) => Do(s, env)
    case Scope(body) =>
      var e := DoLines(body, env);
      if e.None? then None else Some(Leave(e.value, env))
    case If(c, thn, els) =>
      var v := Eval(c, env);
      if v.None? || v.value.Rec? || v.value.v.IntV? then None else
      var e := if v.value.v.b then DoLines(thn, env) else DoLines(els, env);
      if e.None? then None else Some(Leave(e.value, env))
  }

  function DoLines(ls: seq<Line>, env: Env): Option<Env>
    decreases ls, 0
  {
    if ls == [] then Some(env)
    else
      var e := DoLine(ls[0], env);
      if e.None? then None else DoLines(ls[1..], e.value)
  }

  // --------------------------------------------------------------- conditions

  /** At the end of a scope every outer variable has the names it had before. */
  predicate Settled(inner: Table, t: Table)
  {
    forall x :: x in t ==> x in inner && SameNames(inner[x], t[x])
  }

  predicate LineAgrees(l: Line, t: Table, next: nat)
    decreases l, 1
  {
    match l
    case One(s) => WellKeyed(s.e) && Agrees(s, t, next)
    case Scope(body) => LinesAgree(body, t, next) && SettledAfter(body, t, next)
    case If(c, thn, els) =>
      WellKeyed(c) && ArmsAgree(c, t, next) &&
      var rc := TransExpr(c, t, next);
      rc.Ok? ==>
        LinesAgree(thn, t, rc.next) && SettledAfter(thn, t, rc.next) &&
        var r1 := TransLines(thn, t, rc.next);
        r1.Good? ==> LinesAgree(els, t, r1.next) && SettledAfter(els, t, r1.next)
  }

  predicate LinesAgree(ls: seq<Line>, t: Table, next: nat)
    decreases ls, 0
  {
    ls == [] ||
    (LineAgrees(ls[0], t, next) &&
     var r := TransLine(ls[0], t, next);
     r.Good? ==> LinesAgree(ls[1..], r.t, r.next))
  }

  predicate SettledAfter(body: seq<Line>, t: Table, next: nat)
  {
    var r := TransLines(body, t, next);
    r.Good? ==> Settled(r.t, t)
  }

  // ----------------------------------------------------------- static lemmas

  lemma {:induction false} WalkNext(sym: Symbol, path: seq<string>, next: nat)
    requires Walk(sym, path, next).Place?
    ensures next <= Walk(sym, path, next).next
    decreases |path|
  {
    if path != [] {
      WalkNext(sym.symbols[path[0]].(ptr := next), path[1..], next + 1);
    }
  }

  lemma {:induction false} ExprNext(e: Expr, t: Table, next: nat)
    requires TransExpr(e, t, next).Ok?
    ensures next <= TransExpr(e, t, next).next
    decreases e, 1
  {
    hide Walk, Fill;
    match e
    case Lit(_) =>
    case Get(x, path) => WalkNext(t[x], path, next);
    case Make(members, _) => MembersNext(members, t, next);
    case Choose(c, x, y) =>
      var rc := TransExpr(c, t, next);
      var rx := TransExpr(x, t, rc.next);
      ExprNext(c, t, next);
      ExprNext(x, t, rc.next);
      ExprNext(y, t, rx.next);
  }

  lemma {:induction false} MembersNext(members: seq<Member>, t: Table, next: nat)
    requires TransMembers(members, t, next).Some?
    ensures next <= TransMembers(members, t, next).value.1
    decreases members, 0
  {
    if members != [] {
      ExprNext(members[0].e, t, next);
      MembersNext(members[1..], t, TransExpr(members[0].e, t, next).next);
    }
  }

  /** Declared variables stay declared, in their cells and with their types. */
  predicate SameCells(t: Table, t': Table)
  {
    forall x :: x in t ==> x in t' && t'[x].ptr == t[x].ptr && t'[x].ty == t[x].ty
  }

  lemma StmtKeeps(s: Stmt, t: Table, next: nat)
    requires AllOwned(t) && TransStmt(s, t, next).Changed?
    ensures var r := TransStmt(s, t, next);
      next <= r.next && SameCells(t, r.t) && AllOwned(r.t)
  {
    StmtOwned(s, t, next);
    hide TransExpr, Walk, AllOwned;
    if s.x in t {
      var w := Walk(t[s.x], s.path, next);
      WalkNext(t[s.x], s.path, next);
      ExprNext(s.e, t, w.next);
      WalkHere(t[s.x], next);
    } else {
      ExprNext(s.e, t, next);
    }
  }

  lemma {:induction false} LineKeeps(l: Line, t: Table, next: nat)
    requires AllOwned(t) && TransLine(l, t, next).Good?
    ensures var r := TransLine(l, t, next);
      next <= r.next && SameCells(t, r.t) && AllOwned(r.t)
    decreases l, 1
  {
    hide TransExpr, TransStmt, AllOwned;
    match l
    case One(s) => StmtKeeps(s, t, next);
    case Scope(body) => LinesKeep(body, t, next);
    case If(c, thn, els) =>
      ExprNext(c, t, next);
      var rc := TransExpr(c, t, next);
      LinesKeep(thn, t, rc.next);
      LinesKeep(els, t, TransLines(thn, t, rc.next).next);
  }

  lemma {:induction false} LinesKeep(ls: seq<Line>, t: Table, next: nat)
    requires AllOwned(t) && TransLines(ls, t, next).Good?
    ensures var r := TransLines(ls, t, next);
      next <= r.next && SameCells(t, r.t) && AllOwned(r.t)
    decreases ls, 0
  {
    hide AllOwned;
    if ls != [] {
      LineKeeps(ls[0], t, next);
      var r := TransLine(ls[0], t, next);
      LinesKeep(ls[1..], r.t, r.next);
    }
  }

  // -------------------------------------------------------------- simulation

  lemma BelowMore(f: Frame, m: nat, n: nat)
    requires Below(f, m) && m <= n
    ensures Below(f, n)
  {
  }

  /** Leaving a scope: the outer variables hold their new values under their old names. */
  lemma RelLeave(inner: Env, t': Table, env: Env, t: Table, f: Frame)
    requires Rel(inner, t', f) && Settled(t', t) && SameCells(t, t') && env.Keys == t.Keys
    ensures Rel(Leave(inner, env), t, f)
  {
    hide Fits, SameNames;
    var out := Leave(inner, env);
    forall x | x in t
      ensures x in out && Holds(out[x], t[x], f)
    {
      assert Holds(inner[x], t'[x], f);
      SameFits(inner[x], f.mem[f.regs[t[x].ptr].base], t'[x], t[x]);
    }
    forall x, y | x in t && y in t && f.regs[t[x].ptr] == f.regs[t[y].ptr]
      ensures x == y
    {
      assert x in t' && y in t' && f.regs[t'[x].ptr] == f.regs[t'[y].ptr];
    }
  }

  lemma {:induction false} SimLine(l: Line, env: Env, t: Table, next: nat, f: Frame) returns (g: Frame, env': Env)
    requires TransLine(l, t, next).Good? && LineAgrees(l, t, next) && AllOwned(t) && Rel(env, t, f) && Below(f, next)
    ensures var r := TransLine(l, t, next);
      DoLine(l, env) == Some(env') && Go(r.code, f) == Some(g) && Below(g, r.next) && Rel(env', r.t, g)
    decreases l, 1
  {
    hide Run, Rel, Below, TransExpr, TransStmt, Eval, Do, WellKeyed, ArmsAgree, Agrees, AllOwned, Settled, SameCells,
         Value, Yields;
    match l
    case One(s) => g, env' := SimStmt(s, env, t, next, f);
    case Scope(body) =>
      var r := TransLines(body, t, next);
      var inner;
      g, inner := SimLines(body, env, t, next, f);
      LinesKeep(body, t, next);
      SameKeys(env, t, f);
      RelLeave(inner, r.t, env, t, g);
      env' := Leave(inner, env);
    case If(c, thn, els) =>
      var rc := TransExpr(c, t, next);
      var r1 := TransLines(thn, t, rc.next);
      var r2 := TransLines(els, t, r1.next);
      var f1, v := SimExpr(c, env, t, next, f);
      GrowsRel(env, t, f, f1);
      Condition(v, rc.v, rc.sym, f1);
      SameKeys(env, t, f1);
      LinesKeep(thn, t, rc.next);
      LinesKeep(els, t, r1.next);
      var inner;
      if v.v.b {
        g, inner := SimLines(thn, env, t, rc.next, f1);
        BelowMore(g, r1.next, r2.next);
        RelLeave(inner, r1.t, env, t, g);
      } else {
        BelowMore(f1, rc.next, r1.next);
        g, inner := SimLines(els, env, t, r1.next, f1);
        RelLeave(inner, r2.t, env, t, g);
      }
      env' := Leave(inner, env);
  }

  lemma SameKeys(env: Env, t: Table, f: Frame)
    requires Rel(env, t, f)
    ensures env.Keys == t.Keys
  {
  }

  lemma Condition(v: Aggregates.Val, o: Opd, sym: Symbol, f: Frame)
    requires Yields(v, o, sym, f) && sym.ty == Word(I1)
    ensures v.Basic? && v.v.BoolV? && Value(o, f) == Some(Number(if v.v.b then 1 else 0))
  {
  }

  /** Value semantics through scopes: running the code of accepted lines leaves every variable's cell with
      the value the lines give it. */
  lemma {:induction false} SimLines(ls: seq<Line>, env: Env, t: Table, next: nat, f: Frame)
    returns (g: Frame, env': Env)
    requires TransLines(ls, t, next).Good? && LinesAgree(ls, t, next) && AllOwned(t) && Rel(env, t, f) && Below(f, next)
    ensures var r := TransLines(ls, t, next);
      DoLines(ls, env) == Some(env') && Go(r.code, f) == Some(g) && Below(g, r.next) && Rel(env', r.t, g)
    decreases ls, 0
  {
    if ls == [] {
      g, env' := f, env;
    } else {
      hide Rel, Below, AllOwned;
      var r := TransLine(ls[0], t, next);
      var f1, env1 := SimLine(ls[0], env, t, next, f);
      LineKeeps(ls[0], t, next);
      g, env' := SimLines(ls[1..], env1, r.t, r.next, f1);
    }
  }

  /** Whole programs, from nothing. */
  lemma ProgramPreserved(ls: seq<Line>) returns (g: Frame, env: Env)
    requires TransLines(ls, map[], 0).Good? && LinesAgree(ls, map[], 0)
    ensures DoLines(ls, map[]) == Some(env) && Go(TransLines(ls, map[], 0).code, Frame(map[], [])) == Some(g)
    ensures Rel(env, TransLines(ls, map[], 0).t, g) && Stored(env, TransLines(ls, map[], 0).t, g)
  {
    hide TransLines, LinesAgree, DoLines, Go, Stored;
    g, env := SimLines(ls, map[], map[], 0, Frame(map[], []));
    RelStores(env, TransLines(ls, map[], 0).t, g);
  }

  // ----------------------------------------------------- where names disagree

  /** After a called scope the translator finds the names that a variable had before, while the value has
      those that the scope left it with. */
  lemma ScopeNames(body: seq<Line>, x: string, k: string, env: Env, t: Table, next: nat, f: Frame, later: nat)
    requires TransLine(Scope(body), t, next).Good? && LinesAgree(body, t, next) && x in t
    requires AllOwned(t) && Rel(env, t, f) && Below(f, next)
    ensures var r := TransLine(Scope(body), t, next);
      r.t == t && (Walk(r.t[x], [k], later).Place? <==> t[x].ty.Struct? && k in t[x].symbols)
    ensures var inner := TransLines(body, t, next).t;
      && DoLine(Scope(body), env).Some? && x in DoLine(Scope(body), env).value && x in inner
      && (Lookup(DoLine(Scope(body), env).value[x], [k]).Some? <==> inner[x].ty.Struct? && k in inner[x].symbols)
  {
    hide TransLines, DoLines, Go, LinesAgree, Rel, Below, Walk, Lookup, Fits;
    SameKeys(env, t, f);
    var g, env' := SimLines(body, env, t, next, f);
    LinesKeep(body, t, next);
    var sym := TransLines(body, t, next).t[x];
    HoldsPoints(env', TransLines(body, t, next).t, g, x);
    var c := g.mem[g.regs[sym.ptr].base];
    PointsFits(env'[x], c, sym, g);
    FitsKind(env'[x], c, sym);
    if sym.ty.Struct? {
      FitsParts(env'[x], c, sym);
    }
    OneStep(sym, env'[x], k, later);
    OneStep(t[x], env'[x], k, later);
  }

  const OUTER := Set("s", true, [], StructNames.One("a", Lit(IntV(1))))       // s#mut = [a: 1]
  const INNER := Set("s", false, [], StructNames.One("b", Lit(IntV(2))))      // s = [b: 2]

  /** z = s.name */
  function Use(name: string): Stmt
  {
    Set("z", false, [], Get("s", [name]))
  }

  predicate IsOuter(t: Table)
  {
    t.Keys == {"s"} && t["s"].ty == Struct([Word(I32)]) && !t["s"].isConst && t["s"].symbols.Keys == {"a"}
    && t["s"].symbols["a"].ty == Word(I32)
  }

  lemma OuterDone() returns (t: Table, next: nat)
    ensures TransLine(One(OUTER), map[], 0).Good? && TransLine(One(OUTER), map[], 0).t == t && IsOuter(t)
    ensures TransLine(One(OUTER), map[], 0).next == next
    ensures DoLine(One(OUTER), map[]) == Some(map["s" := Rec(map["a" := Basic(IntV(1))], map[])])
  {
    TransOne("a", Lit(IntV(1)), map[], map[], 0);
    EvalOne("a", Lit(IntV(1)), map[]);
    hide TransExpr, Eval;
    t, next := TransLine(One(OUTER), map[], 0).t, TransLine(One(OUTER), map[], 0).next;
  }

  lemma InnerDone(t: Table, next: nat, env: Env)
    requires IsOuter(t) && env == map["s" := Rec(map["a" := Basic(IntV(1))], map[])]
    ensures TransLine(Scope([One(INNER)]), t, next).Good? && TransLine(Scope([One(INNER)]), t, next).t == t
    ensures DoLine(Scope([One(INNER)]), env) == Some(map["s" := Rec(map["b" := Basic(IntV(2))], map[])])
  {
    WalkHere(t["s"], next);
    TransOne("b", Lit(IntV(2)), map[], t, next);
    EvalOne("b", Lit(IntV(2)), env);
    hide TransExpr, Eval, Walk;
    var r := TransStmt(INNER, t, next);
    var inner := map["s" := Rec(map["b" := Basic(IntV(2))], map[])];
    assert env["s" := Rec(map["b" := Basic(IntV(2))], map[])] == inner;
    assert r.Changed? && Do(INNER, env) == Some(inner);
    hide TransStmt, Do;
    assert [One(INNER)][1..] == [];
    assert TransLines([], r.t, r.next).Good?;
    assert TransLines([One(INNER)], t, next).Good?;
    assert DoLines([One(INNER)], env) == Some(inner);
    assert Leave(inner, env) == inner;
  }

  lemma UseDone(t: Table, next: nat)
    requires IsOuter(t)
    ensures TransLine(One(Use("a")), t, next).Good? && TransLine(One(Use("b")), t, next).Bad?
    ensures var env := map["s" := Rec(map["b" := Basic(IntV(2))], map[])];
      DoLine(One(Use("a")), env).None? && DoLine(One(Use("b")), env).Some?
  {
    OneStep(t["s"], Basic(IntV(0)), "a", next);
    OneStep(t["s"], Basic(IntV(0)), "b", next);
    assert ["a"][1..] == [] && ["b"][1..] == [];
    WalkHere(t["s"].symbols["a"].(ptr := next), next + 1);
    assert Walk(t["s"], ["a"], next).sym.ty == Word(I32);
  }

  lemma ThreeLines(a: Line, b: Line, c: Line, t: Table, next: nat, env: Env)
    requires TransLine(a, t, next).Good? && DoLine(a, env).Some?
    requires var r := TransLine(a, t, next); TransLine(b, r.t, r.next).Good?
    requires DoLine(b, DoLine(a, env).value).Some?
    ensures var r := TransLine(a, t, next);
      var q := TransLine(b, r.t, r.next);
      TransLines([a] + ([b] + [c]), t, next).Good? == TransLine(c, q.t, q.next).Good?
    ensures DoLines([a] + ([b] + [c]), env) == DoLine(c, DoLine(b, DoLine(a, env).value).value)
  {
    hide TransLine, DoLine;
    var ls := [a] + ([b] + [c]);
    assert ls[1..] == [b] + [c] && ([b] + [c])[1..] == [c] && [c][1..] == [];
    var r := TransLine(a, t, next);
    var q := TransLine(b, r.t, r.next);
    var p := TransLine(c, q.t, q.next);
    if p.Good? {
      assert TransLines([], p.t, p.next).Good?;
    }
    assert TransLines([c], q.t, q.next).Good? == p.Good?;
    assert TransLines([b] + [c], r.t, r.next).Good? == p.Good?;
    var e1 := DoLine(a, env).value;
    var e2 := DoLine(b, e1).value;
    assert DoLines([c], e2) == DoLine(c, e2);
    assert DoLines([b] + [c], e1) == DoLine(c, e2);
  }

  /** After s#mut = [a: 1]; { s = [b: 2]; }() the translator accepts s.a, which the value does not have, and
      refuses s.b, which it has. */
  lemma ScopeRenamed()
    ensures var before := [One(OUTER)] + ([Scope([One(INNER)])] + [One(Use("a"))]);
      TransLines(before, map[], 0).Good? && DoLines(before, map[]).None?
    ensures var after := [One(OUTER)] + ([Scope([One(INNER)])] + [One(Use("b"))]);
      TransLines(after, map[], 0).Bad? && DoLines(after, map[]).Some?
  {
    hide TransLine, DoLine, TransLines, DoLines, IsOuter;
    var t, next := OuterDone();
    var env := DoLine(One(OUTER), map[]).value;
    InnerDone(t, next, env);
    var q := TransLine(Scope([One(INNER)]), t, next);
    UseDone(t, q.next);
    ThreeLines(One(OUTER), Scope([One(INNER)]), One(Use("a")), map[], 0, map[]);
    ThreeLines(One(OUTER), Scope([One(INNER)]), One(Use("b")), map[], 0, map[]);
  }
}
