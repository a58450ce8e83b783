/** What calls of member functions pass and return. The machine hands a callee numbers, and for structures
    addresses, behind which it finds what is there when the call is made. */
module CallValues {
  import opened Words
  import opened Aggregates
  import opened Objective

  // ----------------------------------------------------------------- machine

  /** What the compiled functions return, from the contents of their arguments. */
  type Compiled = (nat, seq<Content>) -> Option<Content>

  /** What a callee finds in an operand. */
  function Passed(o: Opd, f: Frame): Option<Content>
  {
    match Value(o, f)
    case None => None
    case Some(h) => if h.Number? then Some(W(h.n)) else Peek(h, f.mem)
  }

  function PassedAll(os: seq<Opd>, f: Frame): Option<seq<Content>>
  {
    if os == [] then Some([])
    else
      var c, cs := Passed(os[0], f), PassedAll(os[1..], f);
      if c.None? || cs.None? then None else Some([c.value] + cs.value)
  }

  /** A structure is returned in a cell of its own. */
  function Step(i: Op, f: Frame, m: Compiled): Option<Frame>
  {
    match i
    case Plain(j) => Exec(j, f)
    case Call(d, fn, os) =>
      var cs := PassedAll(os, f);
      if cs.None? then None else
      var out := m(fn, cs.value);
      if out.None? || out.value.Undefined? then None
      else if out.value.W? then Some(f.(regs := f.regs[d := Number(out.value.n)]))
      else Some(Frame(f.regs[d := Address(|f.mem|, [])], f.mem + [out.value]))
  }

  function RunOps(code: seq<Op>, f: Frame, m: Compiled): Option<Frame>
  {
    if code == [] then Some(f)
    else
      var g := Step(code[0], f, m);
      if g.None? then None else RunOps(code[1..], g.value, m)
  }

  // ------------------------------------------------------------------ source

  /** What the functions mean. */
  type Meaning = (nat, seq<Aggregates.Val>) -> Aggregates.Val

  /** The value of an operand: its own, or what a place holds when it is used. Structures read from
      variables are places. */
  datatype Ref = Own(v: Aggregates.Val) | In(x: string, path: seq<string>)

  function Now(r: Ref, env: Env): Option<Aggregates.Val>
  {
    match r
    case Own(v) => Some(v)
    case In(x, path) => if x in env then Lookup(env[x], path) else None
  }

  function NowAll(rs: seq<Ref>, env: Env): Option<seq<Aggregates.Val>>
  {
    if rs == [] then Some([])
    else
      var v, vs := Now(rs[0], env), NowAll(rs[1..], env);
      if v.None? || vs.None? then None else Some([v.value] + vs.value)
  }

  function Paired(keys: seq<string>, vs: seq<Aggregates.Val>): map<string, Aggregates.Val>
  {
    if keys == [] || vs == [] then map[] else Paired(keys[1..], vs[1..])[keys[0] := vs[0]]
  }

  function Fetch(x: string, path: seq<string>, env: Env): Option<Ref>
  {
    var v := Now(In(x, path), env);
    if v.None? then None else Some(if v.value.Basic? then Own(v.value) else In(x, path))
  }

  /** Assignment copies the value the operand has now. */
  function Assigned(x: string, path: seq<string>, r: Ref, env: Env): Option<(Ref, Env)>
  {
    var v := Now(r, env);
    if v.None? then None
    else if path == [] then Some((r, env[x := v.value]))
    else if x !in env || Lookup(env[x], path).None? then None
    else Some((r, env[x := Update(env[x], path, v.value)]))
  }

  function Picking(c: Ref, x: Ref, y: Ref, env: Env): Option<(Ref, Env)>
  {
    var v := Now(c, env);
    if v.None? || v.value.Rec? || v.value.v.IntV? then None else Some((if v.value.v.b then x else y, env))
  }

  /** The function is looked up before the arguments are evaluated, and gets what they hold when the last of
      them is evaluated. */
  function Applied(a: string, key: string, rs: seq<Ref>, before: Env, env: Env, sem: Meaning): Option<(Ref, Env)>
  {
    var vs := NowAll(rs, env);
    if a !in before || before[a].Basic? || key !in before[a].methods || vs.None? then None
    else Some((Own(sem(before[a].methods[key], vs.value)), env))
  }

  /** Operands are evaluated from left to right, all three of a choice included. */
  function EvalTerm(e: Term, sem: Meaning, env: Env): Option<(Ref, Env)>
    decreases e, 1
  {
    match e
    case Literal(v) => Some((Own(Basic(v)), env))
    case Read(x, path) =>
      var r := Fetch(x, path, env);
      if r.None? then None else Some((r.value, env))
    case Build(keys, vals, methods) =>
      var r := EvalTerms(vals, sem, env);
      if r.None? then None else
      var vs := NowAll(r.value.0, r.value.1);
      if vs.None? then None else Some((Own(Rec(Paired(keys, vs.value), methods)), r.value.1))
    case Assign(x, _, path, e1) =>
      var r := EvalTerm(e1, sem, env);
      if r.None? then None else Assigned(x, path, r.value.0, r.value.1)
    case DotCall(a, key, args) =>
      var r := EvalTerms(args, sem, env);
      if r.None? then None else Applied(a, key, r.value.0, env, r.value.1, sem)
    case MethodCall(a, key, args) => EvalCall(a, key, args, sem, env)
    case MethodSet(a, key, args) =>
      var r := EvalCall(a, key, args, sem, env);
      if r.None? then None else Assigned(a, [], r.value.0, r.value.1)
    case Choice(_, _, _) => EvalChoice(e, sem, env)
  }

  function EvalChoice(e: Term, sem: Meaning, env: Env): Option<(Ref, Env)>
    requires e.Choice?
    decreases e, 0
  {
    var rc := EvalTerm(e.c, sem, env);
    if rc.None? then None else
    var rx := EvalTerm(e.thn, sem, rc.value.1);
    if rx.None? then None else
    var ry := EvalTerm(e.els, sem, rx.value.1);
    if ry.None? then None else Picking(rc.value.0, rx.value.0, ry.value.0, ry.value.1)
  }

  /** The receiver is the last argument. */
  function EvalCall(a: string, key: string, args: seq<Term>, sem: Meaning, env: Env): Option<(Ref, Env)>
    decreases args, 1
  {
    var r := EvalTerms(args, sem, env);
    if r.None? then None else
    var self := Fetch(a, [], r.value.1);
    if self.None? then None else Applied(a, key, r.value.0 + [self.value], env, r.value.1, sem)
  }

  function EvalTerms(es: seq<Term>, sem: Meaning, env: Env): Option<(seq<Ref>, Env)>
    decreases es, 0
  {
    if es == [] then Some(([], env))
    else
      var r := EvalTerm(es[0], sem, env);
      if r.None? then None else
      var rs := EvalTerms(es[1..], sem, r.value.1);
      if rs.None? then None else Some(([r.value.0] + rs.value.0, rs.value.1))
  }

  // -------------------------------------------------------------- hypotheses

  ghost predicate AllFitting(vs: seq<Aggregates.Val>, cs: seq<Content>, syms: seq<Symbol>)
  {
    |vs| == |cs| == |syms| && forall i | 0 <= i < |vs| :: Fits(vs[i], cs[i], syms[i])
  }

  /** The compiled functions do what the functions mean: on contents that hold values, a function that was
      accepted on them returns a content that holds its value. */
  ghost predicate Implements(m: Compiled, sem: Meaning, ev: Callee)
  {
    forall f, vs, cs, syms | AllFitting(vs, cs, syms) && ev(f, syms).Some? ::
      m(f, cs).Some? && Fits(sem(f, vs), m(f, cs).value, ev(f, syms).value)
  }

  /** Names stay: no key twice in a literal, no variable declared inside its own declaration, what is
      assigned names the members and functions that its place names, and both values of a choice name the
      same. */
  predicate NamesStay(e: Term, ev: Callee, t: Table, next: nat)
    decreases e, 1
  {
    match e
    case Literal(_) => true
    case Read(_, _) => true
    case Build(keys, vals, _) =>
      |keys| == |vals| && (forall i, j :: 0 <= i < j < |keys| ==> keys[i] != keys[j]) && AllNamesStay(vals, ev, t, next)
    case Assign(x, _, path, e1) =>
      if path == [] && x !in t then
        var r := TransTerm(e1, ev, t, next);
        NamesStay(e1, ev, t, next) && (r.Done? ==> x !in r.t)
      else
        x in t ==>
          var w := Walk(t[x], path, next);
          w.Place? ==>
            var r := TransTerm(e1, ev, t, w.next);
            NamesStay(e1, ev, t, w.next) && (r.Done? ==> SameNames(r.sym, w.sym))
    case DotCall(_, _, args) => AllNamesStay(args, ev, t, next)
    case MethodCall(_, _, args) => AllNamesStay(args, ev, t, next)
    case MethodSet(a, key, args) =>
      var r := TransCall(a, key, args, ev, t, next);
      AllNamesStay(args, ev, t, next) && (r.Done? && a in r.t ==> SameNames(r.sym, r.t[a]))
    case Choice(_, _, _) => ArmsNameAlike(e, ev, t, next)
  }

  predicate ArmsNameAlike(e: Term, ev: Callee, t: Table, next: nat)
    requires e.Choice?
    decreases e, 0
  {
    var rc := TransTerm(e.c, ev, t, next);
    NamesStay(e.c, ev, t, next) && (rc.Done? ==>
      var rx := TransTerm(e.thn, ev, rc.t, rc.next);
      NamesStay(e.thn, ev, rc.t, rc.next) && (rx.Done? ==>
        var ry := TransTerm(e.els, ev, rx.t, rx.next);
        NamesStay(e.els, ev, rx.t, rx.next) && (ry.Done? ==> SameNames(ry.sym, rx.sym))))
  }

  predicate AllNamesStay(es: seq<Term>, ev: Callee, t: Table, next: nat)
    decreases es, 0
  {
    es == [] ||
    (&& NamesStay(es[0], ev, t, next)
     && var r := TransTerm(es[0], ev, t, next);
        r.Done? ==> AllNamesStay(es[1..], ev, r.t, r.next))
  }

  // ---------------------------------------------------------------- relation

  /** Some variable's cell. */
  ghost predicate CellOf(b: nat, t: Table, f: Frame)
  {
    exists x | x in t && t[x].ptr in f.regs :: f.regs[t[x].ptr] == Address(b, [])
  }

  /** What code changes: variables keep their cells and names, other cells their contents. */
  ghost predicate Later(t: Table, f: Frame, t': Table, f': Frame)
  {
    && (forall r | r in f.regs :: r in f'.regs && f'.regs[r] == f.regs[r])
    && |f.mem| <= |f'.mem|
    && (forall x | x in t :: x in t' && t'[x].ptr == t[x].ptr && SameNames(t'[x], t[x]))
    && (forall b | 0 <= b < |f.mem| && !CellOf(b, t, f) :: f'.mem[b] == f.mem[b] && !CellOf(b, t', f'))
  }

  /** The members that a path goes through exist. */
  predicate Resolves(sym: Symbol, path: seq<string>)
    decreases |path|
  {
    path == [] || (sym.ty.Struct? && path[0] in sym.symbols && Resolves(sym.symbols[path[0]], path[1..]))
  }

  /** What an operand was translated to stands for it. */
  ghost predicate Denotes(r: Ref, o: Opd, sym: Symbol, t: Table, f: Frame)
  {
    match r
    case Own(v) =>
      Yields(v, o, sym, f) && (sym.ty.Struct? ==> f.regs[sym.ptr].Address? && !CellOf(f.regs[sym.ptr].base, t, f))
    case In(x, path) =>
      && x in t && Resolves(t[x], path) && sym.ty.Struct? && o == Reg(sym.ptr)
      && sym.ptr in f.regs && t[x].ptr in f.regs && f.regs[t[x].ptr].Address?
      && f.regs[sym.ptr] == Address(f.regs[t[x].ptr].base, Indices(t[x], path))
      && SameNames(Descend(t[x], path), sym)
  }

  lemma {:induction false} NamesReflexive(a: Symbol)
    ensures SameNames(a, a)
    decreases a
  {
    forall k | k in a.symbols ensures SameNames(a.symbols[k], a.symbols[k]) {
      NamesReflexive(a.symbols[k]);
    }
  }

  lemma {:induction false} NamesLike(a: Symbol, b: Symbol)
    requires a.ty == b.ty && a.fields == b.fields && a.methods == b.methods && a.symbols == b.symbols
    ensures SameNames(a, b)
  {
    forall k | k in a.symbols ensures SameNames(a.symbols[k], b.symbols[k]) {
      NamesReflexive(a.symbols[k]);
    }
  }

  lemma {:induction false} NamesTransitive(a: Symbol, b: Symbol, c: Symbol)
    requires SameNames(a, b) && SameNames(b, c)
    ensures SameNames(a, c)
    decreases a
  {
    if a.ty.Struct? {
      forall k | k in a.symbols ensures SameNames(a.symbols[k], c.symbols[k]) {
        NamesTransitive(a.symbols[k], b.symbols[k], c.symbols[k]);
      }
    }
  }

  lemma {:induction false} NamesSymmetric(a: Symbol, b: Symbol)
    requires SameNames(a, b)
    ensures SameNames(b, a)
    decreases a
  {
    if a.ty.Struct? {
      forall k | k in b.symbols ensures SameNames(b.symbols[k], a.symbols[k]) {
        NamesSymmetric(a.symbols[k], b.symbols[k]);
      }
    }
  }

  /** The same names lead to the same places. */
  lemma {:induction false} NamesLead(a: Symbol, b: Symbol, path: seq<string>)
    requires SameNames(a, b)
    ensures Resolves(a, path) == Resolves(b, path)
    ensures Resolves(a, path) ==> Indices(a, path) == Indices(b, path) && SameNames(Descend(a, path), Descend(b, path))
    decreases |path|
  {
    if path != [] && a.ty.Struct? && path[0] in a.symbols {
      NamesLead(a.symbols[path[0]], b.symbols[path[0]], path[1..]);
    }
  }

  lemma {:induction false} FitsResolves(v: Aggregates.Val, c: Content, sym: Symbol, path: seq<string>)
    requires Fits(v, c, sym)
    ensures Lookup(v, path).Some? <==> Resolves(sym, path)
    decreases |path|
  {
    if path != [] && sym.ty.Struct? && path[0] in sym.symbols {
      FitsResolves(v.members[path[0]], c.elems[sym.fields[path[0]]], sym.symbols[path[0]], path[1..]);
    }
  }

  /** An operand yields the value it has now. */
  lemma DenotesNow(r: Ref, o: Opd, sym: Symbol, env: Env, t: Table, f: Frame)
    requires Rel(env, t, f) && Denotes(r, o, sym, t, f)
    ensures Now(r, env).Some? && Yields(Now(r, env).value, o, sym, f)
  {
    hide Fits, At, Lookup, Indices, Descend, SameNames;
    if r.In? {
      var x, path := r.x, r.path;
      HoldsPoints(env, t, f, x);
      var c := f.mem[f.regs[t[x].ptr].base];
      PointsFits(env[x], c, t[x], f);
      FitsResolves(env[x], c, t[x], path);
      LookupFits(env[x], c, t[x], path);
      SameFits(Lookup(env[x], path).value, At(c, Indices(t[x], path)).value, Descend(t[x], path), sym);
    }
  }

  /** And goes on standing for its value, own or in a place. */
  lemma DenotesLater(r: Ref, o: Opd, sym: Symbol, t: Table, f: Frame, t': Table, f': Frame)
    requires Denotes(r, o, sym, t, f) && Later(t, f, t', f')
    ensures Denotes(r, o, sym, t', f')
  {
    hide Fits, Indices, Descend, SameNames, Resolves, CellOf, At;
    if r.In? {
      NamesLead(t'[r.x], t[r.x], r.path);
      NamesTransitive(Descend(t'[r.x], r.path), Descend(t[r.x], r.path), sym);
    }
  }

  /** Addresses of variables do not matter to an operand beyond its own. */
  lemma DenotesLike(r: Ref, o: Opd, a: Symbol, b: Symbol, t: Table, f: Frame)
    requires Denotes(r, o, a, t, f)
    requires a.ptr == b.ptr && a.ty == b.ty && a.fields == b.fields && a.methods == b.methods && a.symbols == b.symbols
    ensures Denotes(r, o, b, t, f)
  {
    hide Fits, Indices, Descend, SameNames, Resolves, CellOf;
    match r
    case Own(v) =>
      if a.ty.Struct? {
        FitsLike(v, PeekReg(a.ptr, f).value, a, b);
      }
    case In(x, path) =>
      NamesLike(a, b);
      NamesTransitive(Descend(t[x], path), a, b);
  }

  lemma LaterTransitive(t1: Table, f1: Frame, t2: Table, f2: Frame, t3: Table, f3: Frame)
    requires Later(t1, f1, t2, f2) && Later(t2, f2, t3, f3)
    ensures Later(t1, f1, t3, f3)
  {
    hide SameNames, CellOf;
    forall x | x in t1 ensures x in t3 && t3[x].ptr == t1[x].ptr && SameNames(t3[x], t1[x]) {
      NamesTransitive(t3[x], t2[x], t1[x]);
    }
  }

  /** Code that only makes new registers and cells. */
  lemma GrowsLater(env: Env, t: Table, f: Frame, g: Frame)
    requires Rel(env, t, f) && Grows(f, g)
    ensures Later(t, f, t, g)
  {
    hide SameNames, Fits;
    forall x | x in t ensures SameNames(t[x], t[x]) && t[x].ptr in f.regs {
      NamesReflexive(t[x]);
      assert Holds(env[x], t[x], f);
    }
    forall b | 0 <= b < |f.mem| && !CellOf(b, t, f) ensures g.mem[b] == f.mem[b] && !CellOf(b, t, g) {
      assert g.mem[..|f.mem|][b] == f.mem[b];
    }
  }

  // ---------------------------------------------------------------- machine

  lemma {:induction false} OpsAppend(a: seq<Op>, b: seq<Op>, f: Frame, m: Compiled)
    ensures RunOps(a + b, f, m) == var g := RunOps(a, f, m); if g.None? then None else RunOps(b, g.value, m)
    decreases |a|
  {
    if a == [] {
      assert a + b == b;
    } else {
      assert (a + b)[1..] == a[1..] + b;
      var g := Step(a[0], f, m);
      if g.Some? {
        OpsAppend(a[1..], b, g.value, m);
      }
    }
  }

  lemma {:induction false} RunPlains(code: seq<Instr>, f: Frame, m: Compiled)
    ensures RunOps(Plains(code), f, m) == Run(code, f)
    decreases |code|
  {
    if code != [] {
      assert Plains(code)[1..] == Plains(code[1..]);
      var g := Exec(code[0], f);
      if g.Some? {
        RunPlains(code[1..], g.value, m);
      }
    }
  }

  lemma OpsThenPlains(a: seq<Op>, code: seq<Instr>, f: Frame, g: Frame, m: Compiled)
    requires RunOps(a, f, m) == Some(g)
    ensures RunOps(a + Plains(code), f, m) == Run(code, g)
  {
    OpsAppend(a, Plains(code), f, m);
    RunPlains(code, g, m);
  }

  // --------------------------------------------------------------- operands

  ghost predicate AllDenote(rs: seq<Ref>, vals: seq<Operand>, t: Table, f: Frame)
  {
    |rs| == |vals| && forall i | 0 <= i < |rs| :: Denotes(rs[i], vals[i].v, vals[i].sym, t, f)
  }

  ghost predicate OperandsYield(vs: seq<Aggregates.Val>, vals: seq<Operand>, f: Frame)
  {
    |vs| == |vals| && forall i | 0 <= i < |vs| :: Yields(vs[i], vals[i].v, vals[i].sym, f)
  }

  lemma {:induction false} AllNow(rs: seq<Ref>, vals: seq<Operand>, env: Env, t: Table, f: Frame)
    requires Rel(env, t, f) && AllDenote(rs, vals, t, f)
    ensures NowAll(rs, env).Some? && OperandsYield(NowAll(rs, env).value, vals, f)
    decreases |rs|
  {
    hide Rel, Denotes, Yields, Now;
    if rs != [] {
      DenotesNow(rs[0], vals[0].v, vals[0].sym, env, t, f);
      AllNow(rs[1..], vals[1..], env, t, f);
      var vs := NowAll(rs[1..], env).value;
      assert vals == [vals[0]] + vals[1..];
      assert OperandsYield([Now(rs[0], env).value] + vs, vals, f);
    }
  }

  /** The callee finds the value. */
  lemma YieldsPassed(v: Aggregates.Val, o: Opd, sym: Symbol, f: Frame) returns (c: Content)
    requires Yields(v, o, sym, f)
    ensures Passed(o, f) == Some(c) && Fits(v, c, sym)
  {
    c := if sym.ty.Word? then W(Bits(v.v)) else PeekReg(sym.ptr, f).value;
  }

  lemma {:induction false} AllPassed(vs: seq<Aggregates.Val>, vals: seq<Operand>, f: Frame) returns (cs: seq<Content>)
    requires OperandsYield(vs, vals, f)
    ensures PassedAll(Values(vals), f) == Some(cs) && AllFitting(vs, cs, Symbols(vals))
    decreases |vs|
  {
    hide Yields, Fits, Passed;
    if vs == [] {
      cs := [];
    } else {
      var c := YieldsPassed(vs[0], vals[0].v, vals[0].sym, f);
      var more := AllPassed(vs[1..], vals[1..], f);
      cs := [c] + more;
      assert Values(vals)[1..] == Values(vals[1..]) && Symbols(vals)[1..] == Symbols(vals[1..]);
      forall i | 0 <= i < |vs| ensures Fits(vs[i], cs[i], Symbols(vals)[i]) {
        if i > 0 {
          assert vs[i] == vs[1..][i - 1] && Symbols(vals)[i] == Symbols(vals[1..])[i - 1];
        }
      }
    }
  }

  lemma AllLater(rs: seq<Ref>, vals: seq<Operand>, t: Table, f: Frame, t': Table, f': Frame)
    requires AllDenote(rs, vals, t, f) && Later(t, f, t', f')
    ensures AllDenote(rs, vals, t', f')
  {
    hide Denotes, Later;
    forall i | 0 <= i < |rs| ensures Denotes(rs[i], vals[i].v, vals[i].sym, t', f') {
      DenotesLater(rs[i], vals[i].v, vals[i].sym, t, f, t', f');
    }
  }

  /** A new cell is no variable's. */
  lemma NewCell(env: Env, t: Table, f: Frame, g: Frame)
    requires Rel(env, t, f) && Grows(f, g)
    ensures !CellOf(|f.mem|, t, g)
  {
    hide Fits;
    forall x | x in t ensures t[x].ptr in f.regs && f.regs[t[x].ptr] != Address(|f.mem|, []) {
      assert Holds(env[x], t[x], f);
    }
  }

  // ------------------------------------------------------------------- steps

  /** Reading: a number is loaded, of a structure the address is taken. */
  lemma SimRead(x: string, path: seq<string>, env: Env, t: Table, next: nat, f: Frame) returns (g: Frame)
    requires TransExpr(Get(x, path), t, next).Ok? && Rel(env, t, f) && Below(f, next)
    ensures var r := TransExpr(Get(x, path), t, next);
      && Run(r.code, f) == Some(g) && Grows(f, g) && Below(g, r.next)
      && Fetch(x, path, env).Some? && Denotes(Fetch(x, path, env).value, r.v, r.sym, t, g)
  {
    hide Points, Run, Exec, Grows, Below, Fits, At, Lookup, Indices, Descend, Rel, Walk, Yields, Denotes;
    HoldsPoints(env, t, f, x);
    var c := f.mem[f.regs[t[x].ptr].base];
    var w := Walk(t[x], path, next);
    var h := WalkReaches(env[x], c, t[x], path, next, f);
    var v := Lookup(env[x], path).value;
    PointsYields(v, At(c, Indices(t[x], path)).value, w.sym, h);
    PointsFits(v, At(c, Indices(t[x], path)).value, w.sym, h);
    FitsKind(v, At(c, Indices(t[x], path)).value, w.sym);
    if w.sym.ty.Word? {
      g := LoadStep(w.sym.ptr, v.v, w.next, h);
      RunAppend(w.code, [Load(w.next, w.sym.ptr)], f);
      RunOne(Load(w.next, w.sym.ptr), h);
      GrowsTransitive(f, h, g);
      NumberYields(v, w.next, w.sym, g);
      OwnNumber(v, Reg(w.next), w.sym, t, g);
    } else {
      g := h;
      PointsFits(env[x], c, t[x], f);
      FitsResolves(env[x], c, t[x], path);
      GrowsKeeps(f, g, t[x].ptr);
      assert [] + Indices(t[x], path) == Indices(t[x], path);
      InPlace(x, path, w.sym, t, g);
    }
  }

  lemma OwnNumber(v: Aggregates.Val, o: Opd, sym: Symbol, t: Table, f: Frame)
    requires Yields(v, o, sym, f) && sym.ty.Word?
    ensures Denotes(Own(v), o, sym, t, f)
  {
  }

  lemma InPlace(x: string, path: seq<string>, sym: Symbol, t: Table, f: Frame)
    requires x in t && Resolves(t[x], path) && sym.ty.Struct? && sym == Descend(t[x], path).(ptr := sym.ptr)
    requires sym.ptr in f.regs && t[x].ptr in f.regs && f.regs[t[x].ptr].Address?
    requires f.regs[sym.ptr] == Address(f.regs[t[x].ptr].base, Indices(t[x], path))
    ensures Denotes(In(x, path), Reg(sym.ptr), sym, t, f)
  {
    NamesLike(Descend(t[x], path), sym);
  }

  /** A call: the callee gets what the operands hold now. */
  lemma SimApply(a: string, key: string, fn: nat, before: Env, r: Outcomes, rs: seq<Ref>, env: Env, f: Frame,
                 sem: Meaning, m: Compiled, ev: Callee)
    returns (g: Frame)
    requires r.AllDone? && Invoke(fn, r, ev).Done? && Implements(m, sem, ev)
    requires Rel(env, r.t, f) && Below(f, r.next) && AllDenote(rs, r.vals, r.t, f)
    requires a in before && before[a].Rec? && key in before[a].methods && before[a].methods[key] == fn
    ensures var d := Invoke(fn, r, ev);
      var out := Applied(a, key, rs, before, env, sem);
      && Step(Call(r.next, fn, Values(r.vals)), f, m) == Some(g) && Grows(f, g) && Below(g, d.next)
      && out.Some? && out.value.1 == env && Denotes(out.value.0, d.v, d.sym, r.t, g)
  {
    hide Rel, Fits, AllDenote, AllFitting, CellOf, OperandsYield;
    AllNow(rs, r.vals, env, r.t, f);
    var vs := NowAll(rs, env).value;
    var cs := AllPassed(vs, r.vals, f);
    var v, out := sem(fn, vs), ev(fn, Symbols(r.vals)).value;
    var c := Answer(fn, vs, cs, Symbols(r.vals), sem, m, ev);
    FitsShape(v, c, out);
    if c.W? {
      g := f.(regs := f.regs[r.next := Number(c.n)]);
    } else {
      g := Frame(f.regs[r.next := Address(|f.mem|, [])], f.mem + [c]);
      FitsLike(v, c, out, Returned(out, r.next));
      NewCell(env, r.t, f, g);
      assert g.mem[|f.mem|] == c;
    }
  }

  lemma Answer(fn: nat, vs: seq<Aggregates.Val>, cs: seq<Content>, syms: seq<Symbol>, sem: Meaning, m: Compiled,
               ev: Callee)
    returns (c: Content)
    requires Implements(m, sem, ev) && AllFitting(vs, cs, syms) && ev(fn, syms).Some?
    ensures m(fn, cs) == Some(c) && Fits(sem(fn, vs), c, ev(fn, syms).value)
  {
    hide Fits, AllFitting;
    c := m(fn, cs).value;
  }

  lemma FitsShape(v: Aggregates.Val, c: Content, sym: Symbol)
    requires Fits(v, c, sym)
    ensures if sym.ty.Word? then IsBasic(v, sym.ty.ty) && c == W(Bits(v.v)) else c.S?
  {
  }

  lemma {:induction false} KeyedIs(keys: seq<string>, vals: seq<Operand>)
    requires |keys| == |vals|
    ensures |Keyed(keys, vals)| == |vals|
    ensures forall i :: 0 <= i < |vals| ==> Keyed(keys, vals)[i] == Given(keys[i], vals[i].v, vals[i].sym)
  {
    if keys != [] {
      KeyedIs(keys[1..], vals[1..]);
    }
  }

  lemma {:induction false} PairedNames(keys: seq<string>, vs: seq<Aggregates.Val>, vals: seq<Given>)
    requires |keys| == |vs| == |vals| && forall i :: 0 <= i < |vals| ==> vals[i].key == keys[i]
    requires forall i, j :: 0 <= i < j < |keys| ==> keys[i] != keys[j]
    ensures Names(vs, vals, Paired(keys, vs))
    decreases |keys|
  {
    if keys != [] {
      PairedNames(keys[1..], vs[1..], vals[1..]);
      NamesCons(vs[0], vals[0], vs[1..], vals[1..], Paired(keys[1..], vs[1..]));
      assert [vs[0]] + vs[1..] == vs && [vals[0]] + vals[1..] == vals;
    }
  }

  /** A literal: the members are copied when all of them are evaluated. */
  lemma SimBuild(keys: seq<string>, methods: map<string, nat>, r: Outcomes, rs: seq<Ref>, env: Env, f: Frame)
    returns (g: Frame)
    requires r.AllDone? && |keys| == |r.vals| && forall i, j :: 0 <= i < j < |keys| ==> keys[i] != keys[j]
    requires Rel(env, r.t, f) && Below(f, r.next) && AllDenote(rs, r.vals, r.t, f)
    ensures var members, n := Keyed(keys, r.vals), r.next;
      && Run([Alloca(n, Struct(TypesOf(members)))] + Fill(members, 0, n), f) == Some(g)
      && Grows(f, g) && Below(g, n + 1 + |members|) && NowAll(rs, env).Some?
      && Denotes(Own(Rec(Paired(keys, NowAll(rs, env).value), methods)), Reg(n), Built(members, methods, n), r.t, g)
  {
    hide Run, Exec, Grows, Below, Rel, Yields, Names, Fill, Fits, AllDenote, Built, Keyed, TypesOf, Denotes;
    AllNow(rs, r.vals, env, r.t, f);
    var vs := NowAll(rs, env).value;
    var members, n := Keyed(keys, r.vals), r.next;
    KeyedIs(keys, r.vals);
    PairedNames(keys, vs, members);
    assert AllYield(vs, members, f);
    var f1 := StartFill(vs, members, n, f);
    var elems;
    g, elems := SimFill(BlankAll(TypesOf(members)), vs, members, 0, n, f, f1);
    FillDone(elems, vs, members, Paired(keys, vs), methods, n, f, g);
    RunOne(Alloca(n, Struct(TypesOf(members))), f);
    RunAppend([Alloca(n, Struct(TypesOf(members)))], Fill(members, 0, n), f);
    BuiltSymbol(members, methods, n);
    NewCell(env, r.t, f, g);
    OwnCell(Rec(Paired(keys, vs), methods), n, Built(members, methods, n), r.t, g);
  }

  lemma OwnCell(v: Aggregates.Val, n: nat, sym: Symbol, t: Table, f: Frame)
    requires Yields(v, Reg(n), sym, f) && sym.ptr == n && n in f.regs && f.regs[n].Address?
    requires !CellOf(f.regs[n].base, t, f)
    ensures Denotes(Own(v), Reg(n), sym, t, f)
  {
    hide Fits, CellOf;
  }

  /** A first assignment: a copy in a new cell. */
  lemma SimFirst(x: string, mut: bool, r: Outcome, ref: Ref, env: Env, f: Frame) returns (g: Frame)
    requires r.Done? && x !in r.t && Rel(env, r.t, f) && Below(f, r.next) && Denotes(ref, r.v, r.sym, r.t, f)
    ensures var d := Declare(x, mut, r);
      var out := Assigned(x, [], ref, env);
      && Run([Alloca(r.next, r.sym.ty), CopyTo(r.next, r.v, r.sym)], f) == Some(g) && Below(g, d.next)
      && out.Some? && Later(r.t, f, d.t, g) && Rel(out.value.1, d.t, g)
      && Denotes(out.value.0, d.v, d.sym, d.t, g)
  {
    hide Run, Exec, Grows, Below, Rel, Yields, Fits, Later, Denotes, CopyTo;
    DenotesNow(ref, r.v, r.sym, env, r.t, f);
    var v := Now(ref, env).value;
    var f1 := AllocaStep(r.next, r.sym.ty, f);
    GrowsYields(v, r.v, r.sym, f, f1);
    var c := CopyStep(v, r.v, r.sym, r.next, f1);
    PokeCell(f.mem, Blank(r.sym.ty), c);
    var sym := r.sym.(ptr := r.next, isConst := !mut);
    FitsLike(v, c, r.sym, sym);
    g := Frame(f.regs[r.next := Address(|f.mem|, [])], f.mem + [c]);
    RelDeclare(env, r.t, f, x, v, sym, c);
    BelowDeclare(f, f1, g, r.next);
    RunTwo(Alloca(r.next, r.sym.ty), CopyTo(r.next, r.v, r.sym), f);
    FirstLater(env, x, sym, r.t, f, c);
    DenotesLater(ref, r.v, r.sym, r.t, f, r.t[x := sym], g);
    DenotesLike(ref, r.v, r.sym, r.sym.(isConst := !mut), r.t[x := sym], g);
  }

  lemma FirstLater(env: Env, x: string, sym: Symbol, t: Table, f: Frame, c: Content)
    requires Rel(env, t, f) && x !in t && Below(f, sym.ptr)
    ensures Later(t, f, t[x := sym], Frame(f.regs[sym.ptr := Address(|f.mem|, [])], f.mem + [c]))
  {
    hide Fits, SameNames;
    var t', g := t[x := sym], Frame(f.regs[sym.ptr := Address(|f.mem|, [])], f.mem + [c]);
    forall y | y in t ensures SameNames(t[y], t[y]) && t[y].ptr in f.regs {
      NamesReflexive(t[y]);
      assert Holds(env[y], t[y], f);
    }
    forall b | 0 <= b < |f.mem| && CellOf(b, t', g) ensures CellOf(b, t, f) {
      var y :| y in t' && t'[y].ptr in g.regs && g.regs[t'[y].ptr] == Address(b, []);
      assert y != x;
    }
  }

  /** The place x.path was visited; its address is known. */
  ghost predicate Visited(place: Symbol, x: string, path: seq<string>, t: Table, f: Frame)
  {
    && x in t && Resolves(t[x], path) && SameNames(place, Descend(t[x], path))
    && t[x].ptr in f.regs && f.regs[t[x].ptr].Address? && place.ptr in f.regs
    && f.regs[place.ptr] == Address(f.regs[t[x].ptr].base, Indices(t[x], path))
    && if path == [] then place.ptr == t[x].ptr else place.parent
  }

  /** A later assignment: a copy in the place. */
  lemma SimStore(x: string, path: seq<string>, place: Symbol, r: Outcome, ref: Ref, env: Env, f: Frame)
    returns (g: Frame)
    requires r.Done? && Replace(place, Name(x, path), r).Done? && SameNames(r.sym, place)
    requires Rel(env, r.t, f) && Below(f, r.next) && Denotes(ref, r.v, r.sym, r.t, f) && Visited(place, x, path, r.t, f)
    ensures var d := Replace(place, Name(x, path), r);
      var out := Assigned(x, path, ref, env);
      && Exec(CopyTo(place.ptr, r.v, r.sym), f) == Some(g) && Below(g, d.next)
      && out.Some? && Later(r.t, f, d.t, g) && Rel(out.value.1, d.t, g)
      && Denotes(out.value.0, d.v, d.sym, d.t, g)
  {
    hide Run, Exec, Grows, Below, Rel, Yields, Fits, Later, Denotes, CopyTo, At, Lookup, Indices, Descend, Put, Update,
         SameNames, Resolves, Poke, PeekReg, Points;
    DenotesNow(ref, r.v, r.sym, env, r.t, f);
    var v, sym := Now(ref, env).value, r.t[x];
    HoldsPoints(env, r.t, f, x);
    var b, q := f.regs[sym.ptr].base, Indices(sym, path);
    var c := f.mem[b];
    PointsFits(env[x], c, sym, f);
    FitsResolves(env[x], c, sym, path);
    LookupFits(env[x], c, sym, path);
    PokePlace(f, place.ptr, b, q, c);
    var d := CopyStep(v, r.v, r.sym, place.ptr, f);
    PokePlace(f, place.ptr, b, q, d);
    SameFits(v, d, r.sym, place);
    SameFits(v, d, place, Descend(sym, path));
    FitsKind(v, d, Descend(sym, path));
    UpdateFits(env[x], c, sym, path, v, d);
    g := f.(mem := f.mem[b := Put(c, q, d)]);
    BelowSame(f, g, r.next);
    var now := if path == [] && !place.parent then r.sym.(ptr := place.ptr) else sym;
    NowFits(v, d, r.sym, place, sym, path, now, env[x], c);
    Whole(c, sym, d, env[x]);
    UpdateWhole(env[x], v);
    RelPoke(env, r.t, f, x, Update(env[x], path, v), now, Put(c, q, d));
    StoreLater(env, x, now, r.t, f, Put(c, q, d));
    assert r.t[x := sym] == r.t;
    DenotesLater(ref, r.v, r.sym, r.t, f, r.t[x := now], g);
  }

  lemma UpdateWhole(v: Aggregates.Val, u: Aggregates.Val)
    ensures Lookup(v, []) == Some(v) && Update(v, [], u) == u
  {
  }

  /** The entry of the variable after the copy. */
  lemma NowFits(v: Aggregates.Val, d: Content, sym: Symbol, place: Symbol, before: Symbol, path: seq<string>,
                now: Symbol, u: Aggregates.Val, c: Content)
    requires SameNames(sym, place) && SameNames(place, Descend(before, path)) && Fits(v, d, sym)
    requires now == if path == [] && !place.parent then sym.(ptr := place.ptr) else before
    requires Lookup(u, path).Some? && At(c, Indices(before, path)).Some?
    requires Fits(Update(u, path, v), Put(c, Indices(before, path), d), before)
    ensures Fits(Update(u, path, v), Put(c, Indices(before, path), d), now) && SameNames(now, before)
  {
    hide Fits, SameNames;
    NamesReflexive(before);
    if path == [] && !place.parent {
      NamesTransitive(sym, place, before);
      NamesLike(now, sym);
      NamesTransitive(now, sym, before);
      FitsLike(v, d, sym, now);
    }
  }

  lemma StoreLater(env: Env, x: string, sym: Symbol, t: Table, f: Frame, c: Content)
    requires Rel(env, t, f) && x in t && sym.ptr == t[x].ptr && SameNames(sym, t[x])
    requires t[x].ptr in f.regs && f.regs[t[x].ptr].Address? && f.regs[t[x].ptr].base < |f.mem|
    ensures Later(t, f, t[x := sym], f.(mem := f.mem[f.regs[t[x].ptr].base := c]))
  {
    hide Fits, SameNames;
    var t', b := t[x := sym], f.regs[t[x].ptr].base;
    var g := f.(mem := f.mem[b := c]);
    assert Holds(env[x], t[x], f);
    assert CellOf(b, t, f);
    forall y | y in t ensures SameNames(t'[y], t[y]) {
      NamesReflexive(t[y]);
    }
    forall a | 0 <= a < |f.mem| && CellOf(a, t', g) ensures CellOf(a, t, f) {
      var y :| y in t' && t'[y].ptr in g.regs && g.regs[t'[y].ptr] == Address(a, []);
      assert t[y].ptr == t'[y].ptr;
    }
  }

  /** A choice between two operands. */
  lemma SimPick(rc: Outcome, rx: Outcome, ry: Outcome, c: Ref, x: Ref, y: Ref, env: Env, f: Frame) returns (g: Frame)
    requires rc.Done? && rx.Done? && ry.Done? && Decide(rc, rx, ry).Done? && SameNames(ry.sym, rx.sym)
    requires Rel(env, ry.t, f) && Below(f, ry.next) && Denotes(c, rc.v, rc.sym, ry.t, f)
    requires Denotes(x, rx.v, rx.sym, ry.t, f) && Denotes(y, ry.v, ry.sym, ry.t, f)
    ensures var d := Decide(rc, rx, ry);
      var out := Picking(c, x, y, env);
      && Exec(Pick(ry.next, rc.v, rx.v, ry.v), f) == Some(g) && Grows(f, g) && Below(g, d.next)
      && out.Some? && out.value.1 == env && Denotes(out.value.0, d.v, d.sym, ry.t, g)
  {
    hide Rel, SameNames, Fits, Denotes, Later, CellOf;
    DenotesNow(c, rc.v, rc.sym, env, ry.t, f);
    var b := Now(c, env).value.v.b;
    var from := if b then rx else ry;
    var ref := if b then x else y;
    Represented(ref, from.v, from.sym, env, ry.t, f);
    var other := if b then ry else rx;
    Represented(if b then y else x, other.v, other.sym, env, ry.t, f);
    g := f.(regs := f.regs[ry.next := Value(from.v, f).value]);
    GrowsLater(env, ry.t, f, g);
    DenotesLater(ref, from.v, from.sym, ry.t, f, ry.t, g);
    if b {
      NamesReflexive(rx.sym);
    }
    DenotesCopied(ref, from.v, from.sym, rx.sym, ry.next, ry.t, g);
  }

  lemma Represented(r: Ref, o: Opd, sym: Symbol, env: Env, t: Table, f: Frame)
    requires Rel(env, t, f) && Denotes(r, o, sym, t, f)
    ensures Value(o, f).Some?
  {
    hide Rel, Fits;
    DenotesNow(r, o, sym, env, t, f);
  }

  /** The same address, or number, in another register, with the names of another symbol. */
  lemma DenotesCopied(r: Ref, o: Opd, a: Symbol, b: Symbol, n: nat, t: Table, f: Frame)
    requires Denotes(r, o, a, t, f) && SameNames(a, b) && n in f.regs && Value(o, f) == Some(f.regs[n])
    ensures Denotes(r, Reg(n), Picked(b, n), t, f)
  {
    hide Fits, SameNames, CellOf, Indices, Descend, Resolves;
    var p := Picked(b, n);
    NamesLike(b, p);
    NamesTransitive(a, b, p);
    NamesType(a, p);
    match r
    case Own(v) =>
      if a.ty.Struct? {
        SameFits(v, PeekReg(a.ptr, f).value, a, p);
      }
    case In(x, path) => NamesTransitive(Descend(t[x], path), a, p);
  }

  lemma NamesType(a: Symbol, b: Symbol)
    requires SameNames(a, b)
    ensures a.ty == b.ty
  {
  }

  // -------------------------------------------------------------- simulation

  /** Running the code reaches the state that evaluation leads to, and what the operand was translated to
      stands for its value. */
  ghost predicate Reaches(r: Outcome, out: Option<(Ref, Env)>, t: Table, f: Frame, g: Frame, m: Compiled)
    requires r.Done?
  {
    && RunOps(r.code, f, m) == Some(g) && Below(g, r.next) && Later(t, f, r.t, g)
    && out.Some? && Rel(out.value.1, r.t, g) && Denotes(out.value.0, r.v, r.sym, r.t, g)
  }

  ghost predicate AllReach(r: Outcomes, out: Option<(seq<Ref>, Env)>, t: Table, f: Frame, g: Frame, m: Compiled)
    requires r.AllDone?
  {
    && RunOps(r.code, f, m) == Some(g) && Below(g, r.next) && Later(t, f, r.t, g)
    && out.Some? && Rel(out.value.1, r.t, g) && AllDenote(out.value.0, r.vals, r.t, g)
  }

  lemma {:induction false} SimTerm(e: Term, env: Env, ev: Callee, sem: Meaning, m: Compiled, t: Table, next: nat,
                                   f: Frame)
    returns (g: Frame)
    requires TransTerm(e, ev, t, next).Done? && NamesStay(e, ev, t, next) && Implements(m, sem, ev)
    requires ReturnsOwned(ev) && AllOwned(t) && Rel(env, t, f) && Below(f, next)
    ensures Reaches(TransTerm(e, ev, t, next), EvalTerm(e, sem, env), t, f, g, m)
    decreases e, 2
  {
    match e
    case Literal(v) =>
      g := f;
      GrowsLater(env, t, f, f);
    case Read(x, path) =>
      hide Rel, Below, Grows, Later, Denotes, Fetch, TransExpr;
      g := SimRead(x, path, env, t, next, f);
      RunPlains(TransExpr(Get(x, path), t, next).code, f, m);
      GrowsLater(env, t, f, g);
      GrowsRel(env, t, f, g);
    case Build(keys, vals, methods) => g := SimLiteral(keys, vals, methods, env, ev, sem, m, t, next, f);
    case Assign(x, mut, path, e1) =>
      if path == [] && x !in t {
        g := SimDeclaration(e, env, ev, sem, m, t, next, f);
      } else {
        g := SimAssignment(e, env, ev, sem, m, t, next, f);
      }
    case DotCall(a, key, args) => g := SimDotCall(a, key, args, env, ev, sem, m, t, next, f);
    case MethodCall(a, key, args) => g := SimCall(a, key, args, env, ev, sem, m, t, next, f);
    case MethodSet(a, key, args) => g := SimMethodSet(a, key, args, env, ev, sem, m, t, next, f);
    case Choice(c, x, y) => g := SimChoose(e, env, ev, sem, m, t, next, f);
  }

  lemma {:induction false} SimTerms(es: seq<Term>, env: Env, ev: Callee, sem: Meaning, m: Compiled, t: Table, next: nat,
                                    f: Frame)
    returns (g: Frame)
    requires TransTerms(es, ev, t, next).AllDone? && AllNamesStay(es, ev, t, next) && Implements(m, sem, ev)
    requires ReturnsOwned(ev) && AllOwned(t) && Rel(env, t, f) && Below(f, next)
    ensures AllReach(TransTerms(es, ev, t, next), EvalTerms(es, sem, env), t, f, g, m)
    decreases es, 0
  {
    if es == [] {
      g := f;
      GrowsLater(env, t, f, f);
    } else {
      hide Rel, Below, Later, Denotes, ReturnsOwned, AllOwned, Implements, TransTerm, EvalTerm, NamesStay, AllReach,
           RunOps;
      var r := TransTerm(es[0], ev, t, next);
      var f1 := SimTerm(es[0], env, ev, sem, m, t, next, f);
      TermKeeps(es[0], ev, t, next);
      var env1 := EvalTerm(es[0], sem, env).value.1;
      g := SimTerms(es[1..], env1, ev, sem, m, r.t, r.next, f1);
      SimCons(es, env, ev, sem, m, t, next, f, f1, g);
    }
  }

  lemma SimCons(es: seq<Term>, env: Env, ev: Callee, sem: Meaning, m: Compiled, t: Table, next: nat, f: Frame,
                f1: Frame, g: Frame)
    requires es != [] && TransTerms(es, ev, t, next).AllDone?
    requires var r, out := TransTerm(es[0], ev, t, next), EvalTerm(es[0], sem, env);
      && r.Done? && Reaches(r, out, t, f, f1, m)
      && AllReach(TransTerms(es[1..], ev, r.t, r.next), EvalTerms(es[1..], sem, out.value.1), r.t, f1, g, m)
    ensures AllReach(TransTerms(es, ev, t, next), EvalTerms(es, sem, env), t, f, g, m)
  {
    hide Rel, Below, Later, Denotes, TransTerm, EvalTerm, RunOps, AllDenote;
    var r, out := TransTerm(es[0], ev, t, next), EvalTerm(es[0], sem, env).value;
    var rs := TransTerms(es[1..], ev, r.t, r.next);
    OpsAppend(r.code, rs.code, f, m);
    LaterTransitive(t, f, r.t, f1, rs.t, g);
    DenotesLater(out.0, r.v, r.sym, r.t, f1, rs.t, g);
    AllDenoteCons(out.0, Operand(r.v, r.sym), EvalTerms(es[1..], sem, out.1).value.0, rs.vals, rs.t, g);
  }

  lemma AllDenoteCons(r: Ref, x: Operand, rs: seq<Ref>, vals: seq<Operand>, t: Table, f: Frame)
    requires Denotes(r, x.v, x.sym, t, f) && AllDenote(rs, vals, t, f)
    ensures AllDenote([r] + rs, [x] + vals, t, f)
  {
    hide Denotes;
  }

  /** Code that only makes new registers and cells, behind other code. */
  lemma Extended(code: seq<Op>, more: seq<Op>, env: Env, t: Table, f: Frame, t1: Table, f1: Frame, g: Frame,
                 m: Compiled)
    requires RunOps(code, f, m) == Some(f1) && Later(t, f, t1, f1) && Rel(env, t1, f1)
    requires RunOps(more, f1, m) == Some(g) && Grows(f1, g)
    ensures RunOps(code + more, f, m) == Some(g) && Later(t, f, t1, g) && Rel(env, t1, g)
  {
    hide Rel, Later, Grows;
    OpsAppend(code, more, f, m);
    GrowsLater(env, t1, f1, g);
    GrowsRel(env, t1, f1, g);
    LaterTransitive(t, f, t1, f1, t1, g);
  }

  lemma {:induction false} SimLiteral(keys: seq<string>, vals: seq<Term>, methods: map<string, nat>, env: Env,
                                      ev: Callee, sem: Meaning, m: Compiled, t: Table, next: nat, f: Frame)
    returns (g: Frame)
    requires var e := Build(keys, vals, methods); TransTerm(e, ev, t, next).Done? && NamesStay(e, ev, t, next)
    requires Implements(m, sem, ev) && ReturnsOwned(ev) && AllOwned(t) && Rel(env, t, f) && Below(f, next)
    ensures var e := Build(keys, vals, methods);
      Reaches(TransTerm(e, ev, t, next), EvalTerm(e, sem, env), t, f, g, m)
    decreases vals, 1
  {
    hide Rel, Below, Later, Denotes, ReturnsOwned, AllOwned, Implements, TransTerms, EvalTerms, AllNamesStay, AllDenote,
         Fill, Built, Keyed, Plains, Run, Grows;
    var f1 := SimTerms(vals, env, ev, sem, m, t, next, f);
    var r := TransTerms(vals, ev, t, next);
    var rs, env1 := EvalTerms(vals, sem, env).value.0, EvalTerms(vals, sem, env).value.1;
    TermsCount(vals, ev, t, next);
    g := SimBuild(keys, methods, r, rs, env1, f1);
    var more := [Alloca(r.next, Struct(TypesOf(Keyed(keys, r.vals))))] + Fill(Keyed(keys, r.vals), 0, r.next);
    RunPlains(more, f1, m);
    Extended(r.code, Plains(more), env1, t, f, r.t, f1, g, m);
  }

  lemma {:induction false} TermsCount(es: seq<Term>, ev: Callee, t: Table, next: nat)
    requires TransTerms(es, ev, t, next).AllDone?
    ensures |TransTerms(es, ev, t, next).vals| == |es|
    decreases |es|
  {
    if es != [] {
      var r := TransTerm(es[0], ev, t, next);
      TermsCount(es[1..], ev, r.t, r.next);
    }
  }

  lemma {:induction false} SimDeclaration(e: Term, env: Env, ev: Callee, sem: Meaning, m: Compiled, t: Table, next: nat,
                                          f: Frame)
    returns (g: Frame)
    requires e.Assign? && e.path == [] && e.x !in t
    requires TransTerm(e, ev, t, next).Done? && NamesStay(e, ev, t, next) && Implements(m, sem, ev)
    requires ReturnsOwned(ev) && AllOwned(t) && Rel(env, t, f) && Below(f, next)
    ensures Reaches(TransTerm(e, ev, t, next), EvalTerm(e, sem, env), t, f, g, m)
    decreases e, 1
  {
    hide Rel, Below, Later, Denotes, ReturnsOwned, AllOwned, Implements, Plains, Run, Assigned;
    var r := TransTerm(e.e, ev, t, next);
    var f1 := SimTerm(e.e, env, ev, sem, m, t, next, f);
    var ref, env1 := EvalTerm(e.e, sem, env).value.0, EvalTerm(e.e, sem, env).value.1;
    g := SimFirst(e.x, e.mut, r, ref, env1, f1);
    OpsThenPlains(r.code, [Alloca(r.next, r.sym.ty), CopyTo(r.next, r.v, r.sym)], f, f1, m);
    LaterTransitive(t, f, r.t, f1, Declare(e.x, e.mut, r).t, g);
  }

  /** The place of an assignment, still the same behind the right side. */
  lemma PlaceStays(place: Symbol, x: string, path: seq<string>, t: Table, f: Frame, t1: Table, f1: Frame)
    requires Visited(place, x, path, t, f) && Later(t, f, t1, f1)
    ensures Visited(place, x, path, t1, f1)
  {
    hide SameNames, Resolves, Indices, Descend;
    NamesLead(t1[x], t[x], path);
    NamesSymmetric(Descend(t1[x], path), Descend(t[x], path));
    NamesTransitive(place, Descend(t[x], path), Descend(t1[x], path));
  }

  lemma SimPlace(x: string, path: seq<string>, env: Env, t: Table, next: nat, f: Frame) returns (g: Frame)
    requires x in t && Walk(t[x], path, next).Place? && AllOwned(t) && Rel(env, t, f) && Below(f, next)
    ensures var w := Walk(t[x], path, next);
      && Run(w.code, f) == Some(g) && Grows(f, g) && Below(g, w.next) && Visited(w.sym, x, path, t, g)
  {
    hide Points, Run, Exec, Grows, Below, Fits, At, Lookup, Indices, Descend, Rel, Walk, Resolves, SameNames;
    HoldsPoints(env, t, f, x);
    var c := f.mem[f.regs[t[x].ptr].base];
    var w := Walk(t[x], path, next);
    g := WalkReaches(env[x], c, t[x], path, next, f);
    PointsFits(env[x], c, t[x], f);
    FitsResolves(env[x], c, t[x], path);
    GrowsKeeps(f, g, t[x].ptr);
    assert [] + Indices(t[x], path) == Indices(t[x], path);
    InOwned(t, x);
    WalkOwned(t[x], path, next);
    NamesLike(w.sym, Descend(t[x], path));
  }

  lemma {:induction false} SimAssignment(e: Term, env: Env, ev: Callee, sem: Meaning, m: Compiled, t: Table, next: nat,
                                         f: Frame)
    returns (g: Frame)
    requires e.Assign? && (e.path != [] || e.x in t)
    requires TransTerm(e, ev, t, next).Done? && NamesStay(e, ev, t, next) && Implements(m, sem, ev)
    requires ReturnsOwned(ev) && AllOwned(t) && Rel(env, t, f) && Below(f, next)
    ensures Reaches(TransTerm(e, ev, t, next), EvalTerm(e, sem, env), t, f, g, m)
    decreases e, 1
  {
    hide Rel, Below, Later, Denotes, ReturnsOwned, AllOwned, Implements, Plains, Run, Exec, Assigned, Walk, Visited,
         Grows, CopyTo, SameNames;
    var x, path := e.x, e.path;
    var w := Walk(t[x], path, next);
    var f0 := SimPlace(x, path, env, t, next, f);
    GrowsRel(env, t, f, f0);
    GrowsLater(env, t, f, f0);
    var r := TransTerm(e.e, ev, t, w.next);
    var f1 := SimTerm(e.e, env, ev, sem, m, t, w.next, f0);
    var ref, env1 := EvalTerm(e.e, sem, env).value.0, EvalTerm(e.e, sem, env).value.1;
    PlaceStays(w.sym, x, path, t, f0, r.t, f1);
    g := SimStore(x, path, w.sym, r, ref, env1, f1);
    var d := Replace(w.sym, Name(x, path), r);
    LaterTransitive(t, f, t, f0, r.t, f1);
    LaterTransitive(t, f, r.t, f1, d.t, g);
    StoreRuns(w.code, r.code, CopyTo(w.sym.ptr, r.v, r.sym), f, f0, f1, g, m);
  }

  lemma StoreRuns(a: seq<Instr>, b: seq<Op>, i: Instr, f: Frame, f0: Frame, f1: Frame, g: Frame, m: Compiled)
    requires Run(a, f) == Some(f0) && RunOps(b, f0, m) == Some(f1) && Exec(i, f1) == Some(g)
    ensures RunOps(b + Plains([i]), f0, m) == Some(g) && RunOps(Plains(a) + (b + Plains([i])), f, m) == Some(g)
  {
    hide Exec;
    RunPlains(a, f, m);
    RunOne(i, f1);
    OpsThenPlains(b, [i], f0, f1, m);
    OpsAppend(Plains(a), b + Plains([i]), f, m);
  }

  lemma {:induction false} SimDotCall(a: string, key: string, args: seq<Term>, env: Env, ev: Callee, sem: Meaning,
                                      m: Compiled, t: Table, next: nat, f: Frame)
    returns (g: Frame)
    requires TransTerm(DotCall(a, key, args), ev, t, next).Done? && AllNamesStay(args, ev, t, next)
    requires Implements(m, sem, ev) && ReturnsOwned(ev) && AllOwned(t) && Rel(env, t, f) && Below(f, next)
    ensures var e := DotCall(a, key, args);
      Reaches(TransTerm(e, ev, t, next), EvalTerm(e, sem, env), t, f, g, m)
    decreases args, 1
  {
    hide Rel, Below, Later, Denotes, ReturnsOwned, AllOwned, Implements, TransTerms, EvalTerms, AllNamesStay, AllDenote,
         Applied, Grows, Step;
    var fn := Found(a, key, t).value;
    FoundMeans(a, key, env, t, f);
    var f1 := SimTerms(args, env, ev, sem, m, t, next, f);
    var r := TransTerms(args, ev, t, next);
    var rs, env1 := EvalTerms(args, sem, env).value.0, EvalTerms(args, sem, env).value.1;
    g := SimApply(a, key, fn, env, r, rs, env1, f1, sem, m, ev);
    var call := Call(r.next, fn, Values(r.vals));
    OneStep(call, f1, g, m);
    Extended(r.code, [call], env1, t, f, r.t, f1, g, m);
  }

  lemma OneStep(i: Op, f: Frame, g: Frame, m: Compiled)
    requires Step(i, f, m) == Some(g)
    ensures RunOps([i], f, m) == Some(g)
  {
    assert [i][1..] == [];
  }

  /** The function found at compile time is the one the value carries. */
  lemma FoundMeans(a: string, key: string, env: Env, t: Table, f: Frame)
    requires Rel(env, t, f) && Found(a, key, t).Some?
    ensures a in env && env[a].Rec? && key in env[a].methods && env[a].methods[key] == Found(a, key, t).value
  {
    hide Fits;
    HoldsPoints(env, t, f, a);
    var c := f.mem[f.regs[t[a].ptr].base];
    PointsFits(env[a], c, t[a], f);
    FitsParts(env[a], c, t[a]);
  }

  lemma {:induction false} SimCall(a: string, key: string, args: seq<Term>, env: Env, ev: Callee, sem: Meaning,
                                   m: Compiled, t: Table, next: nat, f: Frame)
    returns (g: Frame)
    requires TransCall(a, key, args, ev, t, next).Done? && AllNamesStay(args, ev, t, next)
    requires Implements(m, sem, ev) && ReturnsOwned(ev) && AllOwned(t) && Rel(env, t, f) && Below(f, next)
    ensures Reaches(TransCall(a, key, args, ev, t, next), EvalCall(a, key, args, sem, env), t, f, g, m)
    decreases args, 1
  {
    hide Rel, Below, Later, Denotes, ReturnsOwned, AllOwned, Implements, TransTerms, EvalTerms, AllNamesStay, AllDenote,
         Applied, Grows, Step, TransExpr, Fetch, Plains, Run;
    var fn := Found(a, key, t).value;
    FoundMeans(a, key, env, t, f);
    var f1 := SimTerms(args, env, ev, sem, m, t, next, f);
    var r := TransTerms(args, ev, t, next);
    var rs, env1 := EvalTerms(args, sem, env).value.0, EvalTerms(args, sem, env).value.1;
    var self := TransExpr(Get(a, []), r.t, r.next);
    var f2 := SimRead(a, [], env1, r.t, r.next, f1);
    RunPlains(self.code, f1, m);
    Extended(r.code, Plains(self.code), env1, t, f, r.t, f1, f2, m);
    var all := WithReceiver(a, r);
    var refs := rs + [Fetch(a, [], env1).value];
    GrowsLater(env1, r.t, f1, f2);
    AllLater(rs, r.vals, r.t, f1, r.t, f2);
    AllDenoteSnoc(rs, r.vals, Fetch(a, [], env1).value, Operand(self.v, self.sym), r.t, f2);
    g := SimApply(a, key, fn, env, all, refs, env1, f2, sem, m, ev);
    var call := Call(all.next, fn, Values(all.vals));
    OneStep(call, f2, g, m);
    Extended(all.code, [call], env1, t, f, r.t, f2, g, m);
  }

  lemma AllDenoteSnoc(rs: seq<Ref>, vals: seq<Operand>, r: Ref, x: Operand, t: Table, f: Frame)
    requires Denotes(r, x.v, x.sym, t, f) && AllDenote(rs, vals, t, f)
    ensures AllDenote(rs + [r], vals + [x], t, f)
  {
    hide Denotes;
  }

  lemma {:induction false} SimMethodSet(a: string, key: string, args: seq<Term>, env: Env, ev: Callee, sem: Meaning,
                                        m: Compiled, t: Table, next: nat, f: Frame)
    returns (g: Frame)
    requires var e := MethodSet(a, key, args); TransTerm(e, ev, t, next).Done? && NamesStay(e, ev, t, next)
    requires Implements(m, sem, ev) && ReturnsOwned(ev) && AllOwned(t) && Rel(env, t, f) && Below(f, next)
    ensures var e := MethodSet(a, key, args);
      Reaches(TransTerm(e, ev, t, next), EvalTerm(e, sem, env), t, f, g, m)
    decreases args, 2
  {
    hide Rel, Below, Later, Denotes, ReturnsOwned, AllOwned, Implements, TransCall, EvalCall, AllNamesStay, Plains, Run,
         Exec, Assigned, Visited, CopyTo, SameNames;
    var r := TransCall(a, key, args, ev, t, next);
    var f1 := SimCall(a, key, args, env, ev, sem, m, t, next, f);
    var ref, env1 := EvalCall(a, key, args, sem, env).value.0, EvalCall(a, key, args, sem, env).value.1;
    VisitedWhole(a, env1, r.t, f1);
    g := SimStore(a, [], r.t[a], r, ref, env1, f1);
    LaterTransitive(t, f, r.t, f1, Replace(r.t[a], a, r).t, g);
    RunOne(CopyTo(r.t[a].ptr, r.v, r.sym), f1);
    OpsThenPlains(r.code, [CopyTo(r.t[a].ptr, r.v, r.sym)], f, f1, m);
  }

  lemma VisitedWhole(x: string, env: Env, t: Table, f: Frame)
    requires x in t && Rel(env, t, f)
    ensures Visited(t[x], x, [], t, f)
  {
    hide Fits, SameNames;
    HoldsPoints(env, t, f, x);
    NamesReflexive(t[x]);
  }

  lemma {:induction false} SimChoose(e: Term, env: Env, ev: Callee, sem: Meaning, m: Compiled, t: Table, next: nat,
                                     f: Frame)
    returns (g: Frame)
    requires e.Choice? && TransChoice(e, ev, t, next).Done? && ArmsNameAlike(e, ev, t, next) && Implements(m, sem, ev)
    requires ReturnsOwned(ev) && AllOwned(t) && Rel(env, t, f) && Below(f, next)
    ensures Reaches(TransChoice(e, ev, t, next), EvalChoice(e, sem, env), t, f, g, m)
    decreases e, 1
  {
    hide Rel, Below, Later, Denotes, ReturnsOwned, AllOwned, Implements, Plains, Run, Exec, Picking, SameNames, Grows,
         TransTerm, EvalTerm, NamesStay;
    var rc := TransTerm(e.c, ev, t, next);
    var f1 := SimTerm(e.c, env, ev, sem, m, t, next, f);
    TermKeeps(e.c, ev, t, next);
    var c, env1 := EvalTerm(e.c, sem, env).value.0, EvalTerm(e.c, sem, env).value.1;
    var rx := TransTerm(e.thn, ev, rc.t, rc.next);
    var f2 := SimTerm(e.thn, env1, ev, sem, m, rc.t, rc.next, f1);
    TermKeeps(e.thn, ev, rc.t, rc.next);
    var x, env2 := EvalTerm(e.thn, sem, env1).value.0, EvalTerm(e.thn, sem, env1).value.1;
    var ry := TransTerm(e.els, ev, rx.t, rx.next);
    var f3 := SimTerm(e.els, env2, ev, sem, m, rx.t, rx.next, f2);
    var y, env3 := EvalTerm(e.els, sem, env2).value.0, EvalTerm(e.els, sem, env2).value.1;
    DenotesLater(x, rx.v, rx.sym, rx.t, f2, ry.t, f3);
    DenotesLater(c, rc.v, rc.sym, rc.t, f1, rx.t, f2);
    DenotesLater(c, rc.v, rc.sym, rx.t, f2, ry.t, f3);
    LaterTransitive(t, f, rc.t, f1, rx.t, f2);
    LaterTransitive(t, f, rx.t, f2, ry.t, f3);
    g := SimPick(rc, rx, ry, c, x, y, env3, f3);
    var pick := Pick(ry.next, rc.v, rx.v, ry.v);
    OpsAppend(rc.code, rx.code, f, m);
    OpsAppend(rc.code + rx.code, ry.code, f, m);
    RunOne(pick, f3);
    RunPlains([pick], f3, m);
    Extended(rc.code + rx.code + ry.code, Plains([pick]), env3, t, f, ry.t, f3, g, m);
  }
}
