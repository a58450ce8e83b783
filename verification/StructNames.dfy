/** Accepted programs in which the translator and the meaning of assignment disagree on the names below
    a variable. */
module StructNames {
  import opened Words
  import opened Aggregates

  /** [k: e] */
  function One(k: string, e: Expr): Expr
  {
    Make([Member(k, e)], map[])
  }

  /** The symbol of a literal with one member that is not a function, in the cell n. */
  function OneSymbol(k: string, sym: Symbol, methods: map<string, nat>, n: nat): Symbol
  {
    var member := sym.(ptr := n + 1, parent := true);
    Symbol(n, Struct([sym.ty]), false, false, map[k := 0], map[k := member], methods)
  }

  lemma TransOne(k: string, e: Expr, methods: map<string, nat>, t: Table, next: nat)
    requires TransExpr(e, t, next).Ok?
    ensures var r := TransExpr(e, t, next);
      var q := TransExpr(Make([Member(k, e)], methods), t, next);
      q.Ok? && q.next == r.next + 2 && q.sym == OneSymbol(k, r.sym, methods, r.next)
  {
    hide Fill;
    var r := TransExpr(e, t, next);
    var m := [Member(k, e)];
    assert m[1..] == [];
    var given := Given(k, r.v, r.sym);
    assert r.code + [] == r.code;
    assert TransMembers(m, t, next) == Some((r.code, r.next, [given])) by {
      assert TransMembers(m[1..], t, r.next) == Some(([], r.next, []));
      assert [given] + [] == [given];
    }
    assert [given][1..] == [];
    assert TypesOf([given]) == [r.sym.ty] by {
      assert [r.sym.ty] + [] == [r.sym.ty];
    }
    assert FieldsFrom([given], 1) == map[] && SymbolsFrom([given], 1, r.next) == map[];
  }

  lemma EvalOne(k: string, e: Expr, env: Env)
    requires Eval(e, env).Some?
    ensures Eval(One(k, e), env) == Some(Rec(map[k := Eval(e, env).value], map[]))
  {
    var m := [Member(k, e)];
    assert m[1..] == [];
    assert EvalMembers(m[1..], env) == Some(map[]);
  }

  lemma AllOne(s: Stmt, t: Table, next: nat, env: Env)
    ensures TransAll([s], t, next).Changed? == TransStmt(s, t, next).Changed? && DoAll([s], env) == Do(s, env)
  {
    hide TransStmt, Do;
    assert [s][1..] == [];
    var r := TransStmt(s, t, next);
    if r.Changed? {
      assert TransAll([], r.t, r.next).Changed?;
    }
  }

  lemma AllMore(s: Stmt, rest: seq<Stmt>, t: Table, next: nat, env: Env)
    requires TransStmt(s, t, next).Changed? && Do(s, env).Some?
    ensures var r := TransStmt(s, t, next);
      TransAll([s] + rest, t, next).Changed? == TransAll(rest, r.t, r.next).Changed?
    ensures DoAll([s] + rest, env) == DoAll(rest, Do(s, env).value)
  {
    hide TransStmt, Do;
    assert ([s] + rest)[1..] == rest;
  }

  // ------------------------------------------------------- a member renamed

  const NESTED := Set("s", true, [], One("k", One("a", Lit(IntV(1)))))        // s#mut = [k: [a: 1]]
  const RENAME := Set("s", false, ["k"], One("b", Lit(IntV(2))))              // s.k = [b: 2]

  /** z = s.k.name */
  function Deep(name: string): Stmt
  {
    Set("z", false, [], Get("s", ["k", name]))
  }

  lemma Nested() returns (t: Table, env: Env)
    ensures TransStmt(NESTED, map[], 0).Changed? && TransStmt(NESTED, map[], 0).t == t
    ensures IsNested(t)
    ensures Do(NESTED, map[]) == Some(env)
    ensures env == map["s" := Rec(map["k" := Rec(map["a" := Basic(IntV(1))], map[])], map[])]
  {
    TransOne("a", Lit(IntV(1)), map[], map[], 0);
    TransOne("k", One("a", Lit(IntV(1))), map[], map[], 0);
    EvalOne("a", Lit(IntV(1)), map[]);
    EvalOne("k", One("a", Lit(IntV(1))), map[]);
    hide TransExpr, Eval;
    t := TransStmt(NESTED, map[], 0).t;
    env := map["s" := Rec(map["k" := Rec(map["a" := Basic(IntV(1))], map[])], map[])];
  }

  /** The table after NESTED. */
  predicate IsNested(t: Table)
  {
    && t.Keys == {"s"} && t["s"].ty.Struct? && !t["s"].isConst && !t["s"].parent && t["s"].symbols.Keys == {"k"}
    && IsInner(t["s"].symbols["k"])
  }

  predicate IsInner(sym: Symbol)
  {
    && sym.ty == Struct([Word(I32)]) && !sym.isConst && sym.parent
    && sym.symbols.Keys == {"a"} && sym.symbols["a"].ty == Word(I32)
  }

  lemma WalkInner(t: Table, next: nat)
    requires IsNested(t)
    ensures var w := Walk(t["s"], ["k"], next);
      w.Place? && w.next == next + 1 && IsInner(w.sym)
    ensures Walk(t["s"], ["k", "a"], next).Place? && Walk(t["s"], ["k", "a"], next).sym.ty == Word(I32)
    ensures Walk(t["s"], ["k", "b"], next).Lost?
  {
    var k := t["s"].symbols["k"].(ptr := next);
    assert ["k"][1..] == [] && ["k", "a"][1..] == ["a"] && ["k", "b"][1..] == ["b"];
    WalkHere(k, next + 1);
    OneStep(k, Basic(IntV(0)), "a", next + 1);
    OneStep(k, Basic(IntV(0)), "b", next + 1);
    assert ["a"][1..] == [];
    WalkHere(k.symbols["a"].(ptr := next + 1), next + 2);
  }

  lemma Renamed(t: Table, next: nat)
    requires IsNested(t)
    ensures TransStmt(RENAME, t, next).Changed? && TransStmt(RENAME, t, next).t == t
  {
    WalkInner(t, next);
    TransOne("b", Lit(IntV(2)), map[], t, next + 1);
    hide TransExpr, Walk;
  }

  lemma DoRenamed()
    ensures var one, two := Rec(map["a" := Basic(IntV(1))], map[]), Rec(map["b" := Basic(IntV(2))], map[]);
      Do(RENAME, map["s" := Rec(map["k" := one], map[])]) == Some(map["s" := Rec(map["k" := two], map[])])
  {
    var one, two := Rec(map["a" := Basic(IntV(1))], map[]), Rec(map["b" := Basic(IntV(2))], map[]);
    var v := Rec(map["k" := one], map[]);
    EvalOne("b", Lit(IntV(2)), map["s" := v]);
    hide Eval;
    assert ["k"][1..] == [];
    assert Lookup(v, ["k"]) == Lookup(one, []);
    assert Update(v, ["k"], two) == Rec(map["k" := one]["k" := two], map[]);
    assert map["k" := one]["k" := two] == map["k" := two];
    assert map["s" := v]["s" := Rec(map["k" := two], map[])] == map["s" := Rec(map["k" := two], map[])];
  }

  lemma ThirdTranslated(t: Table, next: nat)
    requires IsNested(t)
    ensures TransStmt(Deep("a"), t, next).Changed? && TransStmt(Deep("b"), t, next).Refused?
  {
    WalkInner(t, next);
    hide Walk;
  }

  lemma ThirdDone()
    ensures var env := map["s" := Rec(map["k" := Rec(map["b" := Basic(IntV(2))], map[])], map[])];
      Do(Deep("a"), env).None? && Do(Deep("b"), env).Some?
  {
    assert ["k", "a"][1..] == ["a"] && ["k", "b"][1..] == ["b"] && ["a"][1..] == [] && ["b"][1..] == [];
  }

  /** After s#mut = [k: [a: 1]]; s.k = [b: 2] the translator accepts s.k.a, which the value does not
      have, and refuses s.k.b, which it has. */
  lemma MemberRenamed()
    ensures var before := [NESTED] + ([RENAME] + [Deep("a")]);
      TransAll(before, map[], 0).Changed? && DoAll(before, map[]).None?
    ensures var after := [NESTED] + ([RENAME] + [Deep("b")]);
      TransAll(after, map[], 0).Refused? && DoAll(after, map[]).Some?
  {
    hide TransStmt, Do, TransAll, DoAll, IsNested;
    var t, env := Nested();
    var n := TransStmt(NESTED, map[], 0).next;
    Renamed(t, n);
    DoRenamed();
    var m := TransStmt(RENAME, t, n).next;
    var env' := Do(RENAME, env).value;
    ThirdTranslated(t, m);
    ThirdDone();
    AllMore(NESTED, [RENAME] + [Deep("a")], map[], 0, map[]);
    AllMore(NESTED, [RENAME] + [Deep("b")], map[], 0, map[]);
    AllMore(RENAME, [Deep("a")], t, n, env);
    AllMore(RENAME, [Deep("b")], t, n, env);
    AllOne(Deep("a"), t, m, env');
    AllOne(Deep("b"), t, m, env');
  }

  // ------------------------------------------ a variable declared from a member

  const TAKEN := Set("y", true, [], Get("s", ["k"]))             // y#mut = s.k
  const REPLACE := Set("y", false, [], One("b", Lit(IntV(2))))         // y = [b: 2]

  /** z = y.name */
  function Inside(name: string): Stmt
  {
    Set("z", false, [], Get("y", [name]))
  }

  predicate IsTaken(t: Table)
  {
    "y" in t && IsInner(t["y"]) && "z" !in t
  }

  lemma Taken(t: Table, next: nat)
    requires IsNested(t)
    ensures TransStmt(TAKEN, t, next).Changed? && IsTaken(TransStmt(TAKEN, t, next).t)
  {
    WalkInner(t, next);
    hide Walk;
  }

  lemma Replaced(t: Table, next: nat)
    requires IsTaken(t)
    ensures TransStmt(REPLACE, t, next).Changed? && TransStmt(REPLACE, t, next).t == t
  {
    WalkHere(t["y"], next);
    TransOne("b", Lit(IntV(2)), map[], t, next);
    hide TransExpr, Walk;
  }

  lemma LastTranslated(t: Table, next: nat)
    requires IsTaken(t)
    ensures TransStmt(Inside("a"), t, next).Changed? && TransStmt(Inside("b"), t, next).Refused?
  {
    OneStep(t["y"], Basic(IntV(0)), "a", next);
    OneStep(t["y"], Basic(IntV(0)), "b", next);
    hide Walk;
  }

  lemma DoTaken(env: Env)
    requires env == map["s" := Rec(map["k" := Rec(map["a" := Basic(IntV(1))], map[])], map[])]
    ensures Do(TAKEN, env) == Some(env["y" := Rec(map["a" := Basic(IntV(1))], map[])])
  {
    assert ["k"][1..] == [];
  }

  lemma DoReplaced(env: Env)
    ensures Do(REPLACE, env) == Some(env["y" := Rec(map["b" := Basic(IntV(2))], map[])])
    ensures var env' := env["y" := Rec(map["b" := Basic(IntV(2))], map[])];
      Do(Inside("a"), env').None? && Do(Inside("b"), env').Some?
  {
    EvalOne("b", Lit(IntV(2)), env);
    assert ["a"][1..] == [] && ["b"][1..] == [];
  }

  lemma AllFour(a: Stmt, b: Stmt, c: Stmt, d: Stmt, env: Env)
    requires TransStmt(a, map[], 0).Changed? && Do(a, env).Some?
    requires var r := TransStmt(a, map[], 0); TransStmt(b, r.t, r.next).Changed?
    requires var r := TransStmt(a, map[], 0);
      var q := TransStmt(b, r.t, r.next);
      TransStmt(c, q.t, q.next).Changed?
    requires Do(b, Do(a, env).value).Some? && Do(c, Do(b, Do(a, env).value).value).Some?
    ensures var r := TransStmt(a, map[], 0);
      var q := TransStmt(b, r.t, r.next);
      var p := TransStmt(c, q.t, q.next);
      TransAll([a] + ([b] + ([c] + [d])), map[], 0).Changed? == TransStmt(d, p.t, p.next).Changed?
    ensures DoAll([a] + ([b] + ([c] + [d])), env) == Do(d, Do(c, Do(b, Do(a, env).value).value).value)
  {
    hide TransStmt, Do, TransAll, DoAll;
    var r := TransStmt(a, map[], 0);
    var q := TransStmt(b, r.t, r.next);
    var p := TransStmt(c, q.t, q.next);
    var ea := Do(a, env).value;
    var eb := Do(b, ea).value;
    AllMore(a, [b] + ([c] + [d]), map[], 0, env);
    AllMore(b, [c] + [d], r.t, r.next, ea);
    AllMore(c, [d], q.t, q.next, eb);
    AllOne(d, p.t, p.next, Do(c, eb).value);
  }

  /** After s#mut = [k: [a: 1]]; y#mut = s.k; y = [b: 2] the translator accepts y.a, which the value
      does not have, and refuses y.b, which it has. */
  lemma TakenRenamed()
    ensures var before := [NESTED] + ([TAKEN] + ([REPLACE] + [Inside("a")]));
      TransAll(before, map[], 0).Changed? && DoAll(before, map[]).None?
    ensures var after := [NESTED] + ([TAKEN] + ([REPLACE] + [Inside("b")]));
      TransAll(after, map[], 0).Refused? && DoAll(after, map[]).Some?
  {
    hide TransStmt, Do, TransAll, DoAll, IsNested, IsTaken;
    var t, env := Nested();
    var n := TransStmt(NESTED, map[], 0).next;
    Taken(t, n);
    var q := TransStmt(TAKEN, t, n);
    Replaced(q.t, q.next);
    LastTranslated(q.t, TransStmt(REPLACE, q.t, q.next).next);
    DoTaken(env);
    DoReplaced(Do(TAKEN, env).value);
    AllFour(NESTED, TAKEN, REPLACE, Inside("a"), map[]);
    AllFour(NESTED, TAKEN, REPLACE, Inside("b"), map[]);
  }

  // ------------------------------------------------------ names of a second arm

  // s#mut = false ? [k: [a: 1]] : [k: [b: 2]]
  const CHOSEN := Set("s", true, [], Choose(Lit(BoolV(false)), One("k", One("a", Lit(IntV(1)))),
                                            One("k", One("b", Lit(IntV(2))))))

  lemma OneInOne(k: string, l: string, i: Int32, next: nat)
    ensures var r := TransExpr(One(k, One(l, Lit(IntV(i)))), map[], next);
      && r.Ok? && r.next == next + 4 && r.sym.ty == Struct([Struct([Word(I32)])])
      && r.sym.fields == map[k := 0] && r.sym.symbols.Keys == {k}
      && var sym := r.sym.symbols[k];
         && sym.ty == Struct([Word(I32)]) && !sym.isConst && sym.parent
         && sym.symbols.Keys == {l} && sym.symbols[l].ty == Word(I32)
  {
    TransOne(l, Lit(IntV(i)), map[], map[], next);
    TransOne(k, One(l, Lit(IntV(i))), map[], map[], next);
    hide TransExpr;
  }

  lemma ChosenSymbol() returns (r: Result)
    ensures CHOSEN.e.Choose? && r == TransExpr(CHOSEN.e, map[], 0) && r.Ok? && r.sym.ty.Struct? && !r.sym.parent
    ensures r.sym.symbols.Keys == {"k"} && IsInner(r.sym.symbols["k"])
  {
    var no := Lit(BoolV(false));
    var x, y := One("k", One("a", Lit(IntV(1)))), One("k", One("b", Lit(IntV(2))));
    assert TransExpr(no, map[], 0) == Ok([], 0, Const(0), Bare(Word(I1)));
    ChoiceIs(no, x, y, map[], 0);
    OneInOne("k", "a", 1, 0);
    OneInOne("k", "b", 2, 4);
    hide TransExpr, One;
    r := TransExpr(CHOSEN.e, map[], 0);
  }

  lemma ChosenTranslated() returns (t: Table)
    ensures TransStmt(CHOSEN, map[], 0).Changed? && TransStmt(CHOSEN, map[], 0).t == t && IsNested(t)
  {
    var r := ChosenSymbol();
    hide TransExpr, One;
    t := TransStmt(CHOSEN, map[], 0).t;
  }

  lemma ChosenDone()
    ensures Do(CHOSEN, map[]) == Some(map["s" := Rec(map["k" := Rec(map["b" := Basic(IntV(2))], map[])], map[])])
  {
    var a, b := One("a", Lit(IntV(1))), One("b", Lit(IntV(2)));
    EvalOne("a", Lit(IntV(1)), map[]);
    EvalOne("k", a, map[]);
    EvalOne("b", Lit(IntV(2)), map[]);
    EvalOne("k", b, map[]);
  }

  /** A choice has the names of its first arm: after CHOSEN the translator accepts s.k.a, which the value
      does not have, and refuses s.k.b, which it has. */
  lemma ArmRenamed()
    ensures var before := [CHOSEN] + [Deep("a")];
      TransAll(before, map[], 0).Changed? && DoAll(before, map[]).None?
    ensures var after := [CHOSEN] + [Deep("b")];
      TransAll(after, map[], 0).Refused? && DoAll(after, map[]).Some?
  {
    hide TransStmt, Do, TransAll, DoAll, IsNested;
    var t := ChosenTranslated();
    ChosenDone();
    var n := TransStmt(CHOSEN, map[], 0).next;
    ThirdTranslated(t, n);
    ThirdDone();
    AllMore(CHOSEN, [Deep("a")], map[], 0, map[]);
    AllMore(CHOSEN, [Deep("b")], map[], 0, map[]);
    AllOne(Deep("a"), t, n, Do(CHOSEN, map[]).value);
    AllOne(Deep("b"), t, n, Do(CHOSEN, map[]).value);
  }
}
