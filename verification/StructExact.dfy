/** Where the meaning of assignment is kept: exactly where names agree. Members are numbered in key order,
    so two structure types with the same names have the same fields. */
module StructExact {
  import opened Words
  import opened Aggregates
  import Scopes = StructScopes
  import Keys = StructLayout

  // ---------------------------------------------------------------- key order

  /** How many of the keys come before k. */
  function Rank(k: string, keys: set<string>): nat
  {
    |set l | l in keys && Keys.Less(l, k)|
  }

  /** Every member has the number that its key has in order, all the way down. */
  predicate Ranked(sym: Symbol)
    decreases sym
  {
    && (forall k :: k in sym.fields ==> sym.fields[k] == Rank(k, sym.fields.Keys))
    && forall k :: k in sym.symbols ==> Ranked(sym.symbols[k])
  }

  predicate AllRanked(t: Table)
  {
    forall x :: x in t ==> Ranked(t[x])
  }

  /** Every literal lists its members in key order, as a map does. */
  predicate InOrder(e: Expr)
    decreases e, 1
  {
    match e
    case Lit(_) => true
    case Get(_, _) => true
    case Make(members, _) => AllInOrder(members)
    case Choose(c, x, y) => InOrder(c) && InOrder(x) && InOrder(y)
  }

  predicate AllInOrder(members: seq<Member>)
    decreases members, 0
  {
    members == [] || (InOrder(members[0].e) && AllInOrder(members[1..])
                      && forall m :: m in members[1..] ==> Keys.Less(members[0].key, m.key))
  }

  lemma {:induction false} RankedLike(a: Symbol, b: Symbol)
    requires a.fields == b.fields && a.symbols == b.symbols
    ensures Ranked(a) == Ranked(b)
  {
  }

  function KeySet(vals: seq<Given>): set<string>
  {
    set i | 0 <= i < |vals| :: vals[i].key
  }

  predicate Ascending(vals: seq<Given>)
  {
    forall i, j :: 0 <= i < j < |vals| ==> Keys.Less(vals[i].key, vals[j].key)
  }

  /** The keys before the i-th are the first i ones. */
  lemma {:induction false} RankIs(vals: seq<Given>, i: nat)
    requires Ascending(vals) && i < |vals|
    ensures Rank(vals[i].key, KeySet(vals)) == i
  {
    var k := vals[i].key;
    var before := set l | l in KeySet(vals) && Keys.Less(l, k);
    forall l
      ensures l in before <==> l in KeySet(vals[..i])
    {
      if l in before {
        var j :| 0 <= j < |vals| && vals[j].key == l;
        if j >= i {
          NotBefore(vals, i, j);
        }
        assert vals[..i][j].key == l;
      }
      if l in KeySet(vals[..i]) {
        var j :| 0 <= j < i && vals[..i][j].key == l;
        assert vals[j].key == l;
      }
    }
    assert before == KeySet(vals[..i]);
    KeyCount(vals[..i]);
  }

  lemma NotBefore(vals: seq<Given>, i: nat, j: nat)
    requires Ascending(vals) && i <= j < |vals|
    ensures !Keys.Less(vals[j].key, vals[i].key)
  {
    Keys.LessIrreflexive(vals[i].key);
    if i < j && Keys.Less(vals[j].key, vals[i].key) {
      Keys.LessTransitive(vals[i].key, vals[j].key, vals[i].key);
    }
  }

  lemma {:induction false} KeyCount(vals: seq<Given>)
    requires Ascending(vals)
    ensures |KeySet(vals)| == |vals|
    decreases |vals|
  {
    if vals == [] {
      assert KeySet(vals) == {};
    } else {
      var n := |vals| - 1;
      KeyCount(vals[..n]);
      var k := vals[n].key;
      forall l
        ensures l in KeySet(vals) <==> l in KeySet(vals[..n]) || l == k
      {
        if l in KeySet(vals) {
          var j :| 0 <= j < |vals| && vals[j].key == l;
          assert j < n ==> vals[..n][j].key == l;
        }
        if l in KeySet(vals[..n]) {
          var j :| 0 <= j < n && vals[..n][j].key == l;
          assert vals[j].key == l;
        }
        assert vals[n].key == k;
      }
      assert KeySet(vals) == KeySet(vals[..n]) + {k};
      Keys.LessIrreflexive(k);
      forall j | 0 <= j < n
        ensures vals[..n][j].key != k
      {
        assert Keys.Less(vals[j].key, vals[n].key);
      }
    }
  }

  lemma FieldKeys(vals: seq<Given>, n: nat)
    requires Apart(vals)
    ensures FieldsFrom(vals, 0).Keys == KeySet(vals)
  {
    FieldsAre(vals, 0, n);
    hide SymbolsFrom;
    forall k
      ensures k in FieldsFrom(vals, 0).Keys <==> k in KeySet(vals)
    {
      if k in KeySet(vals) {
        var i :| 0 <= i < |vals| && vals[i].key == k;
        assert k in FieldsFrom(vals, 0);
      }
    }
  }

  lemma FieldsRanked(vals: seq<Given>, n: nat)
    requires Ascending(vals)
    ensures forall k :: k in FieldsFrom(vals, 0) ==> FieldsFrom(vals, 0)[k] == Rank(k, FieldsFrom(vals, 0).Keys)
  {
    AscendingApart(vals);
    FieldsAre(vals, 0, n);
    FieldKeys(vals, n);
    hide Rank, FieldsFrom, SymbolsFrom, Ascending, KeySet;
    forall k | k in FieldsFrom(vals, 0)
      ensures FieldsFrom(vals, 0)[k] == Rank(k, FieldsFrom(vals, 0).Keys)
    {
      RankIs(vals, FieldsFrom(vals, 0)[k]);
    }
  }

  /** The symbol of a literal in key order is ranked. */
  lemma BuiltRanked(vals: seq<Given>, methods: map<string, nat>, n: nat)
    requires Ascending(vals) && forall i :: 0 <= i < |vals| ==> Ranked(vals[i].sym)
    ensures Ranked(Built(vals, methods, n))
  {
    AscendingApart(vals);
    FieldsAre(vals, 0, n);
    FieldsRanked(vals, n);
    hide Ranked, Rank, FieldsFrom, SymbolsFrom, Ascending, TypesOf;
    var sym := Built(vals, methods, n);
    forall k | k in sym.symbols
      ensures Ranked(sym.symbols[k])
    {
      var i := sym.fields[k];
      RankedLike(vals[i].sym, sym.symbols[k]);
    }
    RankedParts(sym);
  }

  lemma RankedParts(sym: Symbol)
    requires forall k :: k in sym.fields ==> sym.fields[k] == Rank(k, sym.fields.Keys)
    requires forall k :: k in sym.symbols ==> Ranked(sym.symbols[k])
    ensures Ranked(sym)
  {
  }

  lemma AscendingApart(vals: seq<Given>)
    requires Ascending(vals)
    ensures Apart(vals)
  {
    forall i, j | 0 <= i < j < |vals|
      ensures vals[i].key != vals[j].key
    {
      assert Keys.Less(vals[i].key, vals[j].key);
      Keys.LessIrreflexive(vals[i].key);
    }
  }

  // ---------------------------------------------------------------- invariant

  lemma {:induction false} WalkRanked(sym: Symbol, path: seq<string>, next: nat)
    requires Ranked(sym) && Walk(sym, path, next).Place?
    ensures Ranked(Walk(sym, path, next).sym)
    decreases |path|
  {
    if path != [] {
      var c := sym.symbols[path[0]].(ptr := next);
      RankedLike(sym.symbols[path[0]], c);
      WalkRanked(c, path[1..], next + 1);
    }
  }

  lemma {:induction false} ExprRanked(e: Expr, t: Table, next: nat)
    requires AllRanked(t) && InOrder(e) && TransExpr(e, t, next).Ok?
    ensures Ranked(TransExpr(e, t, next).sym)
    decreases e, 1
  {
    hide Ranked, Built, Fill, Walk;
    match e
    case Lit(v) => RankedParts(Bare(Word(TypeOf(v))));
    case Get(x, path) => WalkRanked(t[x], path, next);
    case Make(members, methods) =>
      MembersRanked(members, t, next);
      var (_, n, vals) := TransMembers(members, t, next).value;
      BuiltRanked(vals, methods, n);
    case Choose(c, x, y) =>
      var rc := TransExpr(c, t, next);
      var rx := TransExpr(x, t, rc.next);
      ExprRanked(x, t, rc.next);
      RankedLike(rx.sym, Picked(rx.sym, TransExpr(y, t, rx.next).next));
  }

  lemma {:induction false} MembersRanked(members: seq<Member>, t: Table, next: nat)
    requires AllRanked(t) && AllInOrder(members) && TransMembers(members, t, next).Some?
    ensures var vals := TransMembers(members, t, next).value.2;
      && |vals| == |members| && (forall i :: 0 <= i < |vals| ==> vals[i].key == members[i].key && Ranked(vals[i].sym))
      && Ascending(vals)
    decreases members, 0
  {
    hide Ranked;
    if members != [] {
      ExprRanked(members[0].e, t, next);
      MembersRanked(members[1..], t, TransExpr(members[0].e, t, next).next);
      assert forall i :: 0 < i < |members| ==> members[i] == members[1..][i - 1] && members[i] in members[1..];
    }
  }

  lemma StmtRanked(s: Stmt, t: Table, next: nat)
    requires AllRanked(t) && AllOwned(t) && InOrder(s.e) && TransStmt(s, t, next).Changed?
    ensures AllRanked(TransStmt(s, t, next).t)
  {
    hide TransExpr, Walk, Ranked, Owned;
    if s.x in t {
      var w := Walk(t[s.x], s.path, next);
      var r := TransExpr(s.e, t, w.next);
      ExprRanked(s.e, t, w.next);
      RankedLike(r.sym, r.sym.(ptr := w.sym.ptr));
    } else {
      var r := TransExpr(s.e, t, next);
      ExprRanked(s.e, t, next);
      RankedLike(r.sym, r.sym.(ptr := r.next, isConst := !s.mut));
    }
  }

  // ------------------------------------------------------------ names decide

  lemma RankedFields(a: Symbol, b: Symbol)
    requires Ranked(a) && Ranked(b) && a.fields.Keys == b.fields.Keys
    ensures a.fields == b.fields
  {
    hide Rank;
  }

  lemma RankedBelow(a: Symbol, k: string)
    requires Ranked(a) && k in a.symbols
    ensures Ranked(a.symbols[k])
  {
  }

  lemma NamesParts(a: Symbol, b: Symbol)
    requires a.ty == b.ty && a.fields == b.fields && a.methods == b.methods && a.symbols.Keys == b.symbols.Keys
    requires forall k :: k in a.symbols ==> SameNames(a.symbols[k], b.symbols[k])
    ensures SameNames(a, b)
  {
  }

  /** A content of a's fits b, a symbol of the same type, exactly if both name the same members and
      functions. */
  lemma {:induction false} NamesDecide(v: Aggregates.Val, c: Content, a: Symbol, b: Symbol)
    requires Fits(v, c, a) && a.ty == b.ty && Ranked(a) && Ranked(b)
    ensures Fits(v, c, b) <==> SameNames(a, b)
    decreases a
  {
    if SameNames(a, b) {
      SameFits(v, c, a, b);
    }
    if Fits(v, c, b) {
      if a.ty.Struct? {
        FitsParts(v, c, a);
        FitsParts(v, c, b);
        RankedFields(a, b);
        hide Fits, Ranked, SameNames;
        forall k | k in a.symbols
          ensures SameNames(a.symbols[k], b.symbols[k])
        {
          RankedBelow(a, k);
          RankedBelow(b, k);
          NamesDecide(v.members[k], c.elems[a.fields[k]], a.symbols[k], b.symbols[k]);
        }
        NamesParts(a, b);
      } else {
        assert SameNames(a, b);
      }
    }
  }

  /** A member of what fits fits. */
  lemma {:induction false} PartFits(v: Aggregates.Val, c: Content, sym: Symbol, path: seq<string>, u: Aggregates.Val,
                                    d: Content)
    requires Fits(v, c, sym) && Lookup(v, path).Some? && At(c, Indices(sym, path)).Some?
    requires Fits(Update(v, path, u), Put(c, Indices(sym, path), d), sym) && Known(sym, path)
    ensures Fits(u, d, Descend(sym, path))
    decreases |path|
  {
    if path != [] {
      var k := path[0];
      var i := sym.fields[k];
      var q := Indices(sym.symbols[k], path[1..]);
      assert Indices(sym, path) == [i] + q && ([i] + q)[1..] == q;
      PartFits(v.members[k], c.elems[i], sym.symbols[k], path[1..], u, d);
    }
  }

  /** The path leads through structures. */
  predicate Known(sym: Symbol, path: seq<string>)
    decreases |path|
  {
    path == [] || (sym.ty.Struct? && path[0] in sym.symbols && path[0] in sym.fields
                   && Known(sym.symbols[path[0]], path[1..]))
  }

  lemma {:induction false} WalkKnown(v: Aggregates.Val, c: Content, sym: Symbol, path: seq<string>, next: nat)
    requires Fits(v, c, sym) && Walk(sym, path, next).Place?
    ensures Known(sym, path)
    decreases |path|
  {
    if path != [] {
      var k := path[0];
      var m := sym.symbols[k].(ptr := next);
      FitsLike(v.members[k], c.elems[sym.fields[k]], sym.symbols[k], m);
      WalkKnown(v.members[k], c.elems[sym.fields[k]], m, path[1..], next + 1);
      KnownPtr(sym.symbols[k], path[1..], next);
    }
  }

  lemma KnownPtr(sym: Symbol, path: seq<string>, p: nat)
    ensures Known(sym.(ptr := p), path) == Known(sym, path)
  {
  }

  // -------------------------------------------------------------- statements

  /** If the names disagree, the variable's cell no longer fits its symbol. */
  lemma NamesMatter(s: Stmt, env: Env, t: Table, next: nat, f: Frame) returns (g: Frame, env': Env)
    requires TransStmt(s, t, next).Changed? && WellKeyed(s.e) && InOrder(s.e) && ArmsFit(s, t, next)
    requires !NamesFit(s, t, next)
    requires Rel(env, t, f) && Below(f, next) && AllOwned(t) && AllRanked(t)
    ensures var r := TransStmt(s, t, next);
      Do(s, env) == Some(env') && Run(r.code, f) == Some(g) && !Rel(env', r.t, g)
  {
    hide Run, Below, Rel, Yields, Fits, TransExpr, TransStmt, Eval, WellKeyed, At, Lookup, Indices, Descend, Walk, Put,
         Update, SameNames, Owned, Ranked, InOrder, ArmsAgree, Known;
    var f1, v, c := SimSides(s, env, t, next, f);
    StmtIs(s, t, next);
    var x := t[s.x];
    var w := Walk(x, s.path, next);
    var r := TransExpr(s.e, t, w.next);
    var q := Indices(x, s.path);
    var d;
    g, d := SimCopy(s, v, c, t, next, f, f1);
    ExprRanked(s.e, t, w.next);
    WalkRanked(x, s.path, next);
    NamesDecide(v, d, r.sym, w.sym);
    FitsLike(v, d, Descend(x, s.path), w.sym);
    WalkKnown(env[s.x], c, x, s.path, next);
    DoIs(s, env, v);
    env' := env[s.x := Update(env[s.x], s.path, v)];
    if Fits(env'[s.x], Put(c, q, d), x) {
      PartFits(env[s.x], c, x, s.path, v, d);
    }
    RelatedFits(env', t, g, s.x);
  }

  lemma DoIs(s: Stmt, env: Env, v: Aggregates.Val)
    requires Eval(s.e, env) == Some(v) && s.x in env && Lookup(env[s.x], s.path).Some?
    ensures Do(s, env) == Some(env[s.x := Update(env[s.x], s.path, v)])
  {
    hide Eval;
  }

  lemma RelatedFits(env: Env, t: Table, f: Frame, x: string)
    requires x in t && x in env
    requires t[x].ptr in f.regs && f.regs[t[x].ptr].Address? && f.regs[t[x].ptr].base < |f.mem|
    ensures Rel(env, t, f) ==> Fits(env[x], f.mem[f.regs[t[x].ptr].base], t[x])
  {
    hide Fits;
    if Rel(env, t, f) {
      assert Holds(env[x], t[x], f);
    }
  }

  /** After an accepted assignment the table still describes the cells exactly if the names on both sides
      agree where the table stays as it is. */
  lemma AgreesExactly(s: Stmt, env: Env, t: Table, next: nat, f: Frame) returns (g: Frame, env': Env)
    requires TransStmt(s, t, next).Changed? && WellKeyed(s.e) && InOrder(s.e) && ArmsFit(s, t, next)
    requires Rel(env, t, f) && Below(f, next) && AllOwned(t) && AllRanked(t)
    ensures var r := TransStmt(s, t, next);
      && Do(s, env) == Some(env') && Run(r.code, f) == Some(g)
      && (Rel(env', r.t, g) <==> NamesFit(s, t, next)) && (NamesFit(s, t, next) ==> Below(g, r.next))
  {
    hide Run, Below, Rel, TransStmt, WellKeyed, InOrder, ArmsFit, NamesFit, Do, AllOwned, AllRanked;
    if NamesFit(s, t, next) {
      g, env' := SimStmt(s, env, t, next, f);
    } else {
      g, env' := NamesMatter(s, env, t, next, f);
    }
  }

  // ---------------------------------------------------------------- programs

  /** Literals are in order, and the arms of choices have the same names. */
  predicate AllSound(ss: seq<Stmt>, t: Table, next: nat)
    decreases |ss|
  {
    ss == [] ||
    (&& WellKeyed(ss[0].e) && InOrder(ss[0].e) && ArmsFit(ss[0], t, next)
     && var r := TransStmt(ss[0], t, next);
        r.Changed? ==> AllSound(ss[1..], r.t, r.next))
  }

  /** After each statement the machine and the table represent what the program means so far. */
  ghost predicate Represented(ss: seq<Stmt>, env: Env, t: Table, next: nat, f: Frame)
    decreases |ss|
  {
    ss == [] ||
    (var r, e := TransStmt(ss[0], t, next), Do(ss[0], env);
     && r.Changed? && e.Some?
     && var g := Run(r.code, f);
        g.Some? && Rel(e.value, r.t, g.value) && Represented(ss[1..], e.value, r.t, r.next, g.value))
  }

  /** An accepted program is represented all along exactly if its names agree all along. */
  lemma {:induction false} RepresentedExactly(ss: seq<Stmt>, env: Env, t: Table, next: nat, f: Frame)
    requires TransAll(ss, t, next).Changed? && AllSound(ss, t, next)
    requires Rel(env, t, f) && Below(f, next) && AllOwned(t) && AllRanked(t)
    ensures Represented(ss, env, t, next, f) <==> AllAgree(ss, t, next)
    decreases |ss|
  {
    if ss != [] {
      hide Run, Below, Rel, TransStmt, WellKeyed, InOrder, ArmsFit, NamesFit, Do, AllOwned, AllRanked;
      var s := ss[0];
      var r := TransStmt(s, t, next);
      var g, env' := AgreesExactly(s, env, t, next, f);
      if NamesFit(s, t, next) {
        StmtOwned(s, t, next);
        StmtRanked(s, t, next);
        RepresentedExactly(ss[1..], env', r.t, r.next, g);
      }
    }
  }

  /** Whole programs, from nothing. */
  lemma ProgramExactly(ss: seq<Stmt>)
    requires TransAll(ss, map[], 0).Changed? && AllSound(ss, map[], 0)
    ensures Represented(ss, map[], map[], 0, Frame(map[], [])) <==> AllAgree(ss, map[], 0)
  {
    hide TransAll, AllSound, Represented, AllAgree;
    RepresentedExactly(ss, map[], map[], 0, Frame(map[], []));
  }

  // -------------------------------------------------------- choices and scopes

  /** A choice represents its value exactly if it chose the first arm or both arms have the same names. */
  lemma ChoiceExactly(rc: Result, rx: Result, ry: Result, vc: Aggregates.Val, vx: Aggregates.Val, vy: Aggregates.Val,
                      f: Frame) returns (g: Frame)
    requires rc.Ok? && rx.Ok? && ry.Ok? && Chosen(rc, rx, ry).Ok? && Ranked(rx.sym) && Ranked(ry.sym)
    requires Yields(vc, rc.v, rc.sym, f) && Yields(vx, rx.v, rx.sym, f) && Yields(vy, ry.v, ry.sym, f)
    ensures vc.Basic? && vc.v.BoolV? && Exec(Pick(ry.next, rc.v, rx.v, ry.v), f) == Some(g)
    ensures var v := if vc.v.b then vx else vy;
      Yields(v, Reg(ry.next), Picked(rx.sym, ry.next), g) <==> vc.v.b || SameNames(ry.sym, rx.sym)
  {
    hide SameNames, Fits, Ranked;
    var v := if vc.v.b then vx else vy;
    var held := Value(if vc.v.b then rx.v else ry.v, f).value;
    g := f.(regs := f.regs[ry.next := held]);
    if rx.sym.ty.Struct? {
      var c := Peek(held, f.mem).value;
      FitsLike(v, c, rx.sym, Picked(rx.sym, ry.next));
      if !vc.v.b {
        NamesDecide(v, c, ry.sym, rx.sym);
      }
    } else {
      NoNames(ry.sym, rx.sym);
    }
  }

  lemma NoNames(a: Symbol, b: Symbol)
    requires a.ty == b.ty && a.ty.Word?
    ensures SameNames(a, b)
  {
  }

  /** When a scope ends, the outer table describes the cells exactly if the scope left every outer variable
      with the names it had before. */
  lemma LeaveExactly(inner: Env, t': Table, env: Env, t: Table, f: Frame)
    requires Rel(inner, t', f) && Scopes.SameCells(t, t') && env.Keys == t.Keys && AllRanked(t) && AllRanked(t')
    ensures Rel(Scopes.Leave(inner, env), t, f) <==> Scopes.Settled(t', t)
  {
    hide Fits, SameNames, Ranked;
    var out := Scopes.Leave(inner, env);
    if Scopes.Settled(t', t) {
      Scopes.RelLeave(inner, t', env, t, f);
    }
    if Rel(out, t, f) {
      forall x | x in t
        ensures SameNames(t'[x], t[x])
      {
        assert Holds(inner[x], t'[x], f) && Holds(out[x], t[x], f);
        NamesDecide(inner[x], f.mem[f.regs[t[x].ptr].base], t'[x], t[x]);
      }
    }
  }
}
