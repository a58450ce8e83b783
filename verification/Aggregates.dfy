/** Nested structures: literals, members, choices, and assignment by copy. Symbol tables are copied along
    with a structure, so what they say about the addresses of members goes stale; only the address
    of a variable's own cell is ever used. */
module Aggregates {
  import opened Words

  datatype LTy = Word(ty: Ty) | Struct(elems: seq<LTy>)

  // ----------------------------------------------------------------- machine

  /** The content of a cell. */
  datatype Content = Undefined | W(n: nat) | S(elems: seq<Content>)

  datatype Held = Number(n: nat) | Address(base: nat, path: seq<nat>)

  datatype Opd = Reg(r: nat) | Const(n: nat)

  /** `Pick` stands for the temporary cell, the blocks and the load of a choice between two values. */
  datatype Instr =
    | Alloca(dst: nat, ty: LTy)
    | Gep(dst: nat, src: nat, field: nat)
    | Load(dst: nat, ptr: nat)
    | Store(v: Opd, ptr: nat)
    | Memcpy(dst: nat, src: nat)
    | Pick(dst: nat, c: Opd, x: Opd, y: Opd)

  datatype Frame = Frame(regs: map<nat, Held>, mem: seq<Content>)

  function Blank(ty: LTy): Content
  {
    match ty
    case Word(_) => Undefined
    case Struct(tys) => S(BlankAll(tys))
  }

  function BlankAll(tys: seq<LTy>): (cs: seq<Content>)
    ensures |cs| == |tys|
  {
    if tys == [] then [] else [Blank(tys[0])] + BlankAll(tys[1..])
  }

  function At(c: Content, path: seq<nat>): Option<Content>
  {
    if path == [] then Some(c)
    else if c.S? && path[0] < |c.elems| then At(c.elems[path[0]], path[1..])
    else None
  }

  function Put(c: Content, path: seq<nat>, d: Content): Content
    requires At(c, path).Some?
  {
    if path == [] then d else S(c.elems[path[0] := Put(c.elems[path[0]], path[1..], d)])
  }

  /** The content an address points to. */
  function Peek(h: Held, mem: seq<Content>): Option<Content>
  {
    if h.Address? && h.base < |mem| then At(mem[h.base], h.path) else None
  }

  function Poke(h: Held, mem: seq<Content>, d: Content): seq<Content>
    requires Peek(h, mem).Some?
  {
    mem[h.base := Put(mem[h.base], h.path, d)]
  }

  function Value(o: Opd, f: Frame): Option<Held>
  {
    match o
    case Const(n) => Some(Number(n))
    case Reg(r) => if r in f.regs then Some(f.regs[r]) else None
  }

  function PeekReg(r: nat, f: Frame): Option<Content>
  {
    if r in f.regs then Peek(f.regs[r], f.mem) else None
  }

  function Exec(i: Instr, f: Frame): Option<Frame>
  {
    match i
    case Alloca(d, ty) => Some(Frame(f.regs[d := Address(|f.mem|, [])], f.mem + [Blank(ty)]))
    case Gep(d, s, k) =>
      if s in f.regs && f.regs[s].Address? then
        Some(f.(regs := f.regs[d := Address(f.regs[s].base, f.regs[s].path + [k])]))
      else None
    case Load(d, p) =>
      var c := PeekReg(p, f);
      if c.Some? && c.value.W? then Some(f.(regs := f.regs[d := Number(c.value.n)])) else None
    case Store(o, p) =>
      var v := Value(o, f);
      if v.Some? && v.value.Number? && PeekReg(p, f).Some? then
        Some(f.(mem := Poke(f.regs[p], f.mem, W(v.value.n))))
      else None
    case Memcpy(d, s) =>
      var c := PeekReg(s, f);
      if c.Some? && PeekReg(d, f).Some? then Some(f.(mem := Poke(f.regs[d], f.mem, c.value))) else None
    case Pick(d, o, p, q) =>
      var c, x, y := Value(o, f), Value(p, f), Value(q, f);
      if c.Some? && c.value.Number? && x.Some? && y.Some? then
        Some(f.(regs := f.regs[d := if c.value.n != 0 then x.value else y.value]))
      else None
  }

  function Run(code: seq<Instr>, f: Frame): Option<Frame>
  {
    if code == [] then Some(f)
    else
      var g := Exec(code[0], f);
      if g.None? then None else Run(code[1..], g.value)
  }

  // -------------------------------------------------------------- translator

  /** A compile-time value: its LLVM value, here always a register with an address, its type and
      read-only flag, whether it has a parent, that is, was taken from a structure, and for a structure
      the number and the symbol of each member and the functions among its members. */
  datatype Symbol = Symbol(ptr: nat, ty: LTy, isConst: bool, parent: bool,
                           fields: map<string, nat>, symbols: map<string, Symbol>, methods: map<string, nat>)

  type Table = map<string, Symbol>

  /** A literal lists its members in key order; those that are functions are lazy and have no field. */
  datatype Expr =
    | Lit(v: Words.Val)
    | Get(x: string, path: seq<string>)
    | Make(members: seq<Member>, methods: map<string, nat>)
    | Choose(c: Expr, thn: Expr, els: Expr)

  datatype Member = Member(key: string, e: Expr)

  /** A translated member. */
  datatype Given = Given(key: string, v: Opd, sym: Symbol)

  /** x.k1...kn = e */
  datatype Stmt = Set(x: string, mut: bool, path: seq<string>, e: Expr)

  datatype Result = Ok(code: seq<Instr>, next: nat, v: Opd, sym: Symbol) | Err

  datatype Walked = Place(code: seq<Instr>, next: nat, sym: Symbol) | Lost

  /** Member by member: the address is computed from the structure's own address, and replaces
      whatever the member's symbol said. */
  function Walk(sym: Symbol, path: seq<string>, next: nat): Walked
    decreases |path|
  {
    if path == [] then Place([], next, sym)
    else if !sym.ty.Struct? || path[0] !in sym.symbols then Lost
    else
      var field := if path[0] in sym.fields then sym.fields[path[0]] else 0;
      var w := Walk(sym.symbols[path[0]].(ptr := next), path[1..], next + 1);
      if w.Lost? then Lost else w.(code := [Gep(next, sym.ptr, field)] + w.code)
  }

  /** Copy a value to the place p points to: a store for a number, memcpy for a structure. */
  function CopyTo(p: nat, v: Opd, sym: Symbol): Instr
  {
    if sym.ty.Word? then Store(v, p) else Memcpy(p, sym.ptr)
  }

  function Bits(v: Words.Val): nat
  {
    match v
    case IntV(i) => ToWord(I32, i)
    case BoolV(b) => if b then 1 else 0
  }

  /** A value that is no structure and comes from no structure. */
  function Bare(ty: LTy): Symbol
  {
    Symbol(0, ty, false, false, map[], map[], map[])
  }

  function TransExpr(e: Expr, t: Table, next: nat): Result
    decreases e, 1
  {
    match e
    case Lit(v) => Ok([], next, Const(Bits(v)), Bare(Word(TypeOf(v))))
    case Get(x, path) =>
      if x !in t then Err else
      var w := Walk(t[x], path, next);
      if w.Lost? then Err
      else if w.sym.ty.Word? then Ok(w.code + [Load(w.next, w.sym.ptr)], w.next + 1, Reg(w.next), w.sym)
      else Ok(w.code, w.next, Reg(w.sym.ptr), w.sym)
    case Make(members, methods) =>
      var ms := TransMembers(members, t, next);
      if ms.None? then Err else
      var (code, n, vals) := ms.value;
      Ok(code + [Alloca(n, Struct(TypesOf(vals)))] + Fill(vals, 0, n), n + 1 + |vals|, Reg(n),
         Built(vals, methods, n))
    case Choose(c, x, y) =>
      var rc := TransExpr(c, t, next);
      if rc.Err? then Err else
      var rx := TransExpr(x, t, rc.next);
      if rx.Err? then Err else
      var ry := TransExpr(y, t, rx.next);
      if ry.Err? then Err else
      Chosen(rc, rx, ry)
  }

  /** All three operands are translated; the types must agree, and the names of the members, but not the
      names below them. The value takes over the symbols of the first one. */
  function Chosen(rc: Result, rx: Result, ry: Result): Result
    requires rc.Ok? && rx.Ok? && ry.Ok?
  {
    if rc.sym.ty != Word(I1) || rx.sym.ty != ry.sym.ty || rx.sym.fields.Keys != ry.sym.fields.Keys then Err else
    Ok(rc.code + rx.code + ry.code + [Pick(ry.next, rc.v, rx.v, ry.v)], ry.next + 1, Reg(ry.next),
       Picked(rx.sym, ry.next))
  }

  lemma ChoiceIs(c: Expr, x: Expr, y: Expr, t: Table, next: nat)
    ensures TransExpr(Choose(c, x, y), t, next) ==
      var rc := TransExpr(c, t, next);
      if rc.Err? then Err else
      var rx := TransExpr(x, t, rc.next);
      if rx.Err? then Err else
      var ry := TransExpr(y, t, rx.next);
      if ry.Err? then Err else
      Chosen(rc, rx, ry)
  {
  }

  function Picked(sym: Symbol, r: nat): Symbol
  {
    sym.(ptr := r, isConst := false, parent := false)
  }

  /** The members of a literal, in key order: code and values. */
  function TransMembers(members: seq<Member>, t: Table, next: nat): Option<(seq<Instr>, nat, seq<Given>)>
    decreases members, 0
  {
    if members == [] then Some(([], next, []))
    else
      var r := TransExpr(members[0].e, t, next);
      if r.Err? then None else
      var rs := TransMembers(members[1..], t, r.next);
      if rs.None? then None else
      Some((r.code + rs.value.0, rs.value.1, [Given(members[0].key, r.v, r.sym)] + rs.value.2))
  }

  function TypesOf(vals: seq<Given>): (tys: seq<LTy>)
    ensures |tys| == |vals|
  {
    if vals == [] then [] else [vals[0].sym.ty] + TypesOf(vals[1..])
  }

  /** Addresses of the fields from the k-th on, and copies of the values into them. */
  function Fill(vals: seq<Given>, k: nat, n: nat): seq<Instr>
    requires k <= |vals|
    decreases |vals| - k
  {
    if k == |vals| then []
    else [Gep(n + 1 + k, n, k), CopyTo(n + 1 + k, vals[k].v, vals[k].sym)] + Fill(vals, k + 1, n)
  }

  function FieldsFrom(vals: seq<Given>, k: nat): map<string, nat>
    requires k <= |vals|
    decreases |vals| - k
  {
    if k == |vals| then map[] else FieldsFrom(vals, k + 1)[vals[k].key := k]
  }

  function SymbolsFrom(vals: seq<Given>, k: nat, n: nat): map<string, Symbol>
    requires k <= |vals|
    decreases |vals| - k
  {
    if k == |vals| then map[]
    else SymbolsFrom(vals, k + 1, n)[vals[k].key := vals[k].sym.(ptr := n + 1 + k, parent := true)]
  }

  /** The symbol of a literal: fields are numbered in key order, and the literal is the parent of its
      members. */
  function Built(vals: seq<Given>, methods: map<string, nat>, n: nat): Symbol
  {
    Symbol(n, Struct(TypesOf(vals)), false, false, FieldsFrom(vals, 0), SymbolsFrom(vals, 0, n), methods)
  }

  datatype Changed = Changed(code: seq<Instr>, next: nat, t: Table) | Refused

  /** The name under which an assignment to x.k1...kn enters its value into a symbol table. */
  function Name(x: string, path: seq<string>): string
  {
    if path == [] then x else path[|path| - 1]
  }

  /** The scope's table after sym was copied to a place. A place with a parent belongs to the parent's
      table, so the scope's own stays as it is. The parent is the literal that the member was written
      in, of which variables only hold copies: nothing reads its table any more. */
  function Entered(t: Table, place: Symbol, name: string, sym: Symbol): Table
  {
    if place.parent then t else t[name := sym.(ptr := place.ptr)]
  }

  /** Assignment. A variable declared from a member keeps the member's parent. */
  function TransStmt(s: Stmt, t: Table, next: nat): Changed
  {
    if s.path == [] && s.x !in t then
      var r := TransExpr(s.e, t, next);
      if r.Err? then Refused else
      Changed(r.code + [Alloca(r.next, r.sym.ty), CopyTo(r.next, r.v, r.sym)], r.next + 1,
              t[s.x := r.sym.(ptr := r.next, isConst := !s.mut)])
    else if s.x !in t then Refused
    else
      var w := Walk(t[s.x], s.path, next);
      if w.Lost? then Refused else
      var r := TransExpr(s.e, t, w.next);
      if r.Err? || w.sym.isConst || w.sym.ty != r.sym.ty then Refused else
      Changed(w.code + r.code + [CopyTo(w.sym.ptr, r.v, r.sym)], r.next, Entered(t, w.sym, Name(s.x, s.path), r.sym))
  }

  // ------------------------------------------------------------------ source

  /** A structure's value: its members by name, and which functions are among them. */
  datatype Val = Basic(v: Words.Val) | Rec(members: map<string, Val>, methods: map<string, nat>)

  type Env = map<string, Val>

  function Lookup(v: Val, path: seq<string>): Option<Val>
    decreases |path|
  {
    if path == [] then Some(v)
    else if v.Rec? && path[0] in v.members then Lookup(v.members[path[0]], path[1..])
    else None
  }

  function Update(v: Val, path: seq<string>, u: Val): Val
    requires Lookup(v, path).Some?
    decreases |path|
  {
    if path == [] then u
    else v.(members := v.members[path[0] := Update(v.members[path[0]], path[1..], u)])
  }

  function Eval(e: Expr, env: Env): Option<Val>
    decreases e, 1
  {
    match e
    case Lit(v) => Some(Basic(v))
    case Get(x, path) => if x in env then Lookup(env[x], path) else None
    case Make(members, methods) =>
      var m := EvalMembers(members, env);
      if m.None? then None else Some(Rec(m.value, methods))
    case Choose(c, x, y) =>
      var vc, vx, vy := Eval(c, env), Eval(x, env), Eval(y, env);
      if vc.None? || vc.value.Rec? || vc.value.v.IntV? || vx.None? || vy.None? then None
      else if vc.value.v.b then vx else vy
  }

  function EvalMembers(members: seq<Member>, env: Env): Option<map<string, Val>>
    decreases members, 0
  {
    if members == [] then Some(map[])
    else
      var v := Eval(members[0].e, env);
      var vs := EvalMembers(members[1..], env);
      if v.None? || vs.None? then None else Some(vs.value[members[0].key := v.value])
  }

  /** Assignment copies: afterwards only the place assigned has changed. */
  function Do(s: Stmt, env: Env): Option<Env>
  {
    var v := Eval(s.e, env);
    if v.None? then None
    else if s.path == [] then Some(env[s.x := v.value])
    else if s.x !in env || Lookup(env[s.x], s.path).None? then None
    else Some(env[s.x := Update(env[s.x], s.path, v.value)])
  }

  // ---------------------------------------------------------------- relation

  predicate IsBasic(v: Val, ty: Ty)
  {
    v.Basic? && TypeOf(v.v) == ty
  }

  /** Cell content c holds value v, members in the fields their symbol numbers; addresses that the
      symbols of members carry do not matter. */
  predicate Fits(v: Val, c: Content, sym: Symbol)
    decreases sym
  {
    match sym.ty
    case Word(ty) => IsBasic(v, ty) && c == W(Bits(v.v))
    case Struct(tys) =>
      && v.Rec? && c.S? && |c.elems| == |tys| && v.methods == sym.methods
      && v.members.Keys == sym.symbols.Keys == sym.fields.Keys
      && (forall k, l :: k in sym.fields && l in sym.fields && sym.fields[k] == sym.fields[l] ==> k == l)
      && forall k :: k in sym.symbols ==>
           && sym.fields[k] < |tys| && sym.symbols[k].ty == tys[sym.fields[k]]
           && Fits(v.members[k], c.elems[sym.fields[k]], sym.symbols[k])
  }

  /** Variable x has a cell of its own that holds its value. */
  ghost predicate Holds(v: Val, sym: Symbol, f: Frame)
  {
    sym.ptr in f.regs && f.regs[sym.ptr].Address? && f.regs[sym.ptr].path == [] && f.regs[sym.ptr].base < |f.mem|
    && Fits(v, f.mem[f.regs[sym.ptr].base], sym)
  }

  ghost predicate Rel(env: Env, t: Table, f: Frame)
  {
    && env.Keys == t.Keys
    && (forall x | x in t :: Holds(env[x], t[x], f))
    && (forall x, y | x in t && y in t && f.regs[t[x].ptr] == f.regs[t[y].ptr] :: x == y)
  }

  ghost predicate Below(f: Frame, next: nat)
  {
    forall r | r in f.regs :: r < next
  }

  /** Only new registers and new cells. */
  ghost predicate Grows(f: Frame, g: Frame)
  {
    && (forall r | r in f.regs :: r in g.regs && g.regs[r] == f.regs[r])
    && |f.mem| <= |g.mem| && g.mem[..|f.mem|] == f.mem
  }

  /** What an expression was translated to represents v. */
  ghost predicate Yields(v: Val, o: Opd, sym: Symbol, f: Frame)
  {
    if sym.ty.Word? then IsBasic(v, sym.ty.ty) && Value(o, f) == Some(Number(Bits(v.v)))
    else o == Reg(sym.ptr) && PeekReg(sym.ptr, f).Some? && Fits(v, PeekReg(sym.ptr, f).value, sym)
  }

  // ------------------------------------------------------------ basic lemmas

  lemma {:induction false} RunAppend(a: seq<Instr>, b: seq<Instr>, f: Frame)
    ensures Run(a + b, f) == var g := Run(a, f); if g.None? then None else Run(b, g.value)
    decreases |a|
  {
    if a == [] {
      assert a + b == b;
    } else {
      assert (a + b)[1..] == a[1..] + b;
      var g := Exec(a[0], f);
      if g.Some? {
        RunAppend(a[1..], b, g.value);
      }
    }
  }

  lemma RunOne(i: Instr, f: Frame)
    ensures Run([i], f) == Exec(i, f)
  {
  }

  lemma RunTwo(i: Instr, j: Instr, f: Frame)
    requires Exec(i, f).Some?
    ensures Run([i, j], f) == Exec(j, Exec(i, f).value)
  {
    assert [i, j][1..] == [j];
    RunOne(j, Exec(i, f).value);
  }

  lemma {:induction false} AtStep(c: Content, path: seq<nat>, k: nat)
    requires At(c, path).Some? && At(c, path).value.S? && k < |At(c, path).value.elems|
    ensures At(c, path + [k]) == Some(At(c, path).value.elems[k])
    decreases |path|
  {
    if path == [] {
      assert path + [k] == [k] && [k][1..] == [];
    } else {
      assert (path + [k])[1..] == path[1..] + [k];
      AtStep(c.elems[path[0]], path[1..], k);
    }
  }

  lemma {:induction false} AtPut(c: Content, path: seq<nat>, d: Content)
    requires At(c, path).Some?
    ensures At(Put(c, path, d), path) == Some(d)
    decreases |path|
  {
    if path != [] {
      AtPut(c.elems[path[0]], path[1..], d);
    }
  }

  lemma {:induction false} AtConcat(c: Content, p: seq<nat>, q: seq<nat>)
    requires At(c, p).Some?
    ensures At(c, p + q) == At(At(c, p).value, q)
    decreases |p|
  {
    if p == [] {
      assert p + q == q;
    } else {
      assert (p + q)[1..] == p[1..] + q;
      AtConcat(c.elems[p[0]], p[1..], q);
    }
  }

  lemma {:induction false} PutConcat(c: Content, p: seq<nat>, q: seq<nat>, d: Content)
    requires At(c, p).Some? && At(At(c, p).value, q).Some?
    ensures At(c, p + q).Some? && Put(c, p + q, d) == Put(c, p, Put(At(c, p).value, q, d))
    decreases |p|
  {
    AtConcat(c, p, q);
    if p == [] {
      assert p + q == q;
    } else {
      assert (p + q)[1..] == p[1..] + q;
      PutConcat(c.elems[p[0]], p[1..], q, d);
    }
  }

  /** Addresses, flags and parents do not matter. */
  lemma {:induction false} FitsLike(v: Val, c: Content, a: Symbol, b: Symbol)
    requires a.ty == b.ty && a.fields == b.fields && a.symbols == b.symbols && a.methods == b.methods
    ensures Fits(v, c, a) == Fits(v, c, b)
  {
  }

  lemma GrowsTransitive(a: Frame, b: Frame, c: Frame)
    requires Grows(a, b) && Grows(b, c)
    ensures Grows(a, c)
  {
    assert c.mem[..|a.mem|] == c.mem[..|b.mem|][..|a.mem|];
  }

  lemma GrowsPeek(f: Frame, g: Frame, r: nat)
    requires Grows(f, g) && PeekReg(r, f).Some?
    ensures PeekReg(r, g) == PeekReg(r, f)
  {
    assert g.mem[..|f.mem|][f.regs[r].base] == f.mem[f.regs[r].base];
  }

  lemma GrowsYields(v: Val, o: Opd, sym: Symbol, f: Frame, g: Frame)
    requires Grows(f, g) && Yields(v, o, sym, f)
    ensures Yields(v, o, sym, g)
  {
    if !sym.ty.Word? {
      GrowsPeek(f, g, sym.ptr);
    }
  }

  lemma GrowsRel(env: Env, t: Table, f: Frame, g: Frame)
    requires Grows(f, g) && Rel(env, t, f)
    ensures Rel(env, t, g)
  {
    hide Fits;
    forall x | x in t
      ensures Holds(env[x], t[x], g)
    {
      var b := f.regs[t[x].ptr].base;
      assert Holds(env[x], t[x], f);
      assert g.mem[..|f.mem|][b] == f.mem[b];
    }
  }

  // -------------------------------------------------------------- simulation

  /** The places a path goes through, as field numbers. */
  function Indices(sym: Symbol, path: seq<string>): seq<nat>
    decreases |path|
  {
    if path == [] || path[0] !in sym.symbols || path[0] !in sym.fields then []
    else [sym.fields[path[0]]] + Indices(sym.symbols[path[0]], path[1..])
  }

  function Descend(sym: Symbol, path: seq<string>): Symbol
    decreases |path|
  {
    if path == [] || path[0] !in sym.symbols then sym else Descend(sym.symbols[path[0]], path[1..])
  }

  lemma IndicesPtr(sym: Symbol, path: seq<string>, ptr: nat, p: nat)
    ensures Indices(sym.(ptr := ptr), path) == Indices(sym, path)
    ensures Descend(sym.(ptr := ptr), path).(ptr := p) == Descend(sym, path).(ptr := p)
  {
  }

  /** The address in sym's register points to content c of value v. */
  ghost predicate Points(v: Val, c: Content, sym: Symbol, f: Frame)
  {
    sym.ptr in f.regs && f.regs[sym.ptr].Address? && PeekReg(sym.ptr, f) == Some(c) && Fits(v, c, sym)
  }

  lemma StepInto(v: Val, c: Content, sym: Symbol, k: string, next: nat, f: Frame) returns (g: Frame)
    requires Points(v, c, sym, f) && Below(f, next) && sym.ty.Struct? && k in sym.symbols
    ensures k in sym.fields && c.S? && sym.fields[k] < |c.elems| && v.Rec? && k in v.members
    ensures sym.ptr in f.regs && f.regs[sym.ptr].Address? && next in g.regs
    ensures Exec(Gep(next, sym.ptr, sym.fields[k]), f) == Some(g)
    ensures g.mem == f.mem && Grows(f, g) && Below(g, next + 1)
    ensures Points(v.members[k], c.elems[sym.fields[k]], sym.symbols[k].(ptr := next), g)
    ensures g.regs[next] == Address(f.regs[sym.ptr].base, f.regs[sym.ptr].path + [sym.fields[k]])
  {
    var i, h := sym.fields[k], f.regs[sym.ptr];
    g := f.(regs := f.regs[next := Address(h.base, h.path + [i])]);
    AtStep(f.mem[h.base], h.path, i);
    FitsLike(v.members[k], c.elems[i], sym.symbols[k], sym.symbols[k].(ptr := next));
  }

  /** Where a walk from sym ends. */
  ghost predicate Reached(v: Val, c: Content, sym: Symbol, path: seq<string>, w: Walked, f: Frame, g: Frame)
    requires w.Place?
  {
    && sym.ptr in f.regs && f.regs[sym.ptr].Address? && w.sym.ptr in g.regs
    && g.regs[w.sym.ptr] == Address(f.regs[sym.ptr].base, f.regs[sym.ptr].path + Indices(sym, path))
    && w.sym == Descend(sym, path).(ptr := w.sym.ptr)
    && Lookup(v, path).Some? && At(c, Indices(sym, path)).Some?
    && Points(Lookup(v, path).value, At(c, Indices(sym, path)).value, w.sym, g)
  }

  /** A path resolves to the chain of fields from the structure's own address, whatever addresses the
      symbols below carry. */
  lemma {:induction false} WalkReaches(v: Val, c: Content, sym: Symbol, path: seq<string>, next: nat, f: Frame)
    returns (g: Frame)
    requires Walk(sym, path, next).Place? && Below(f, next) && Points(v, c, sym, f)
    ensures var w := Walk(sym, path, next);
      && Run(w.code, f) == Some(g) && g.mem == f.mem && Grows(f, g) && Below(g, w.next) && next <= w.next
      && Reached(v, c, sym, path, w, f, g)
    decreases |path|
  {
    hide Points, Run, Exec, Reached, Grows, Below, Fits, At, Lookup, Indices, Descend;
    if path == [] {
      g := f;
      WalkNowhere(v, c, sym, next, f);
    } else {
      var k := path[0];
      var f1 := StepInto(v, c, sym, k, next, f);
      var child := sym.symbols[k].(ptr := next);
      g := WalkReaches(v.members[k], c.elems[sym.fields[k]], child, path[1..], next + 1, f1);
      WalkGlue(sym, path, next, f, f1, g);
      GrowsTransitive(f, f1, g);
      ReachedFurther(v, c, sym, path, next, f, f1, g);
    }
  }

  lemma WalkNowhere(v: Val, c: Content, sym: Symbol, next: nat, f: Frame)
    requires Points(v, c, sym, f)
    ensures Run(Walk(sym, [], next).code, f) == Some(f) && Grows(f, f)
    ensures Reached(v, c, sym, [], Walk(sym, [], next), f, f)
  {
    assert f.regs[sym.ptr].path + [] == f.regs[sym.ptr].path;
  }

  lemma ReachedFurther(v: Val, c: Content, sym: Symbol, path: seq<string>, next: nat, f: Frame, f1: Frame, g: Frame)
    requires path != [] && path[0] in sym.symbols && path[0] in sym.fields && sym.ty.Struct?
    requires c.S? && sym.fields[path[0]] < |c.elems| && v.Rec? && path[0] in v.members
    requires sym.ptr in f.regs && f.regs[sym.ptr].Address? && next in f1.regs
    requires f1.regs[next] == Address(f.regs[sym.ptr].base, f.regs[sym.ptr].path + [sym.fields[path[0]]])
    requires Walk(sym, path, next).Place?
    requires var w1 := Walk(sym.symbols[path[0]].(ptr := next), path[1..], next + 1);
      w1.Place? && Reached(v.members[path[0]], c.elems[sym.fields[path[0]]], sym.symbols[path[0]].(ptr := next),
        path[1..], w1, f1, g)
    ensures Reached(v, c, sym, path, Walk(sym, path, next), f, g)
  {
    hide Points;
    var k := path[0];
    var w := Walk(sym, path, next);
    var w1 := Walk(sym.symbols[k].(ptr := next), path[1..], next + 1);
    assert w.sym == w1.sym;
    IndicesPtr(sym.symbols[k], path[1..], next, w.sym.ptr);
    var q := Indices(sym.symbols[k], path[1..]);
    assert Indices(sym, path) == [sym.fields[k]] + q;
    assert f.regs[sym.ptr].path + [sym.fields[k]] + q == f.regs[sym.ptr].path + ([sym.fields[k]] + q);
    assert ([sym.fields[k]] + q)[1..] == q;
  }

  lemma WalkGlue(sym: Symbol, path: seq<string>, next: nat, f: Frame, f1: Frame, g: Frame)
    requires path != [] && Walk(sym, path, next).Place? && path[0] in sym.fields
    requires Exec(Gep(next, sym.ptr, sym.fields[path[0]]), f) == Some(f1)
    requires Run(Walk(sym.symbols[path[0]].(ptr := next), path[1..], next + 1).code, f1) == Some(g)
    ensures Run(Walk(sym, path, next).code, f) == Some(g)
  {
    hide Exec;
    var w := Walk(sym.symbols[path[0]].(ptr := next), path[1..], next + 1);
    var code := Walk(sym, path, next).code;
    assert code[0] == Gep(next, sym.ptr, sym.fields[path[0]]) && code[1..] == w.code;
  }

  /** Member names of every literal are distinct, as in a map. */
  predicate WellKeyed(e: Expr)
    decreases e, 1
  {
    match e
    case Lit(_) => true
    case Get(_, _) => true
    case Make(members, _) => WellKeyedAll(members)
    case Choose(c, x, y) => WellKeyed(c) && WellKeyed(x) && WellKeyed(y)
  }

  predicate WellKeyedAll(members: seq<Member>)
    decreases members, 0
  {
    members == [] || (WellKeyed(members[0].e) && WellKeyedAll(members[1..])
                      && forall m :: m in members[1..] ==> m.key != members[0].key)
  }

  /** The second arm of every choice names the members that the first one names. */
  predicate ArmsAgree(e: Expr, t: Table, next: nat)
    decreases e, 1
  {
    match e
    case Lit(_) => true
    case Get(_, _) => true
    case Make(members, _) => AllArmsAgree(members, t, next)
    case Choose(c, x, y) =>
      var rc := TransExpr(c, t, next);
      ArmsAgree(c, t, next) && (rc.Ok? ==>
        var rx := TransExpr(x, t, rc.next);
        ArmsAgree(x, t, rc.next) && (rx.Ok? ==>
          var ry := TransExpr(y, t, rx.next);
          ArmsAgree(y, t, rx.next) && (ry.Ok? ==> SameNames(ry.sym, rx.sym))))
  }

  predicate AllArmsAgree(members: seq<Member>, t: Table, next: nat)
    decreases members, 0
  {
    members == [] ||
    (&& ArmsAgree(members[0].e, t, next)
     && var r := TransExpr(members[0].e, t, next);
        r.Ok? ==> AllArmsAgree(members[1..], t, r.next))
  }

  lemma HoldsPoints(env: Env, t: Table, f: Frame, x: string)
    requires Rel(env, t, f) && x in t
    ensures x in env && t[x].ptr in f.regs && f.regs[t[x].ptr].Address? && f.regs[t[x].ptr].base < |f.mem|
    ensures Points(env[x], f.mem[f.regs[t[x].ptr].base], t[x], f) && f.regs[t[x].ptr].path == []
  {
    assert Holds(env[x], t[x], f);
  }

  lemma PointsYields(v: Val, c: Content, sym: Symbol, f: Frame)
    requires Points(v, c, sym, f)
    ensures sym.ty.Word? ==> IsBasic(v, sym.ty.ty) && PeekReg(sym.ptr, f) == Some(W(Bits(v.v)))
    ensures sym.ty.Struct? ==> Yields(v, Reg(sym.ptr), sym, f)
  {
  }

  lemma {:induction false} SimExpr(e: Expr, env: Env, t: Table, next: nat, f: Frame) returns (g: Frame, v: Val)
    requires TransExpr(e, t, next).Ok? && WellKeyed(e) && ArmsAgree(e, t, next) && Rel(env, t, f) && Below(f, next)
    ensures var r := TransExpr(e, t, next);
      && Run(r.code, f) == Some(g) && Grows(f, g) && Below(g, r.next) && next <= r.next
      && Eval(e, env) == Some(v) && Yields(v, r.v, r.sym, g)
    decreases e, 2
  {
    match e
    case Lit(b) =>
      g, v := f, Basic(b);
    case Get(x, path) => g, v := SimGet(x, path, env, t, next, f);
    case Make(members, methods) => g, v := SimMake(members, methods, env, t, next, f);
    case Choose(c, x, y) =>
      hide Run, Grows, Below, Rel, Yields, SameNames, Chosen;
      var rc := TransExpr(c, t, next);
      var f1, vc := SimExpr(c, env, t, next, f);
      GrowsRel(env, t, f, f1);
      var rx := TransExpr(x, t, rc.next);
      var f2, vx := SimExpr(x, env, t, rc.next, f1);
      GrowsRel(env, t, f1, f2);
      var ry := TransExpr(y, t, rx.next);
      var f3, vy := SimExpr(y, env, t, rx.next, f2);
      g, v := SimChoice(rc, rx, ry, vc, vx, vy, f, f1, f2, f3);
  }

  /** The choice itself, its three operands being evaluated. */
  lemma SimChoice(rc: Result, rx: Result, ry: Result, vc: Val, vx: Val, vy: Val,
                  f: Frame, f1: Frame, f2: Frame, f3: Frame)
    returns (g: Frame, v: Val)
    requires rc.Ok? && rx.Ok? && ry.Ok? && Chosen(rc, rx, ry).Ok? && SameNames(ry.sym, rx.sym)
    requires Run(rc.code, f) == Some(f1) && Grows(f, f1) && Yields(vc, rc.v, rc.sym, f1)
    requires Run(rx.code, f1) == Some(f2) && Grows(f1, f2) && Yields(vx, rx.v, rx.sym, f2)
    requires Run(ry.code, f2) == Some(f3) && Grows(f2, f3) && Yields(vy, ry.v, ry.sym, f3) && Below(f3, ry.next)
    ensures vc.Basic? && vc.v.BoolV? && v == if vc.v.b then vx else vy
    ensures var r := Chosen(rc, rx, ry);
      && Run(r.code, f) == Some(g) && Grows(f, g) && Below(g, r.next) && r.next == ry.next + 1
      && Yields(v, r.v, r.sym, g)
  {
    hide Run, Exec, Grows, Below, Yields, SameNames;
    GrowsYields(vx, rx.v, rx.sym, f2, f3);
    GrowsTransitive(f1, f2, f3);
    GrowsYields(vc, rc.v, rc.sym, f1, f3);
    g, v := PickStep(rc, rx, ry, vc, vx, vy, f3);
    GrowsTransitive(f, f1, f3);
    GrowsTransitive(f, f3, g);
    RunAppend(rc.code, rx.code, f);
    RunAppend(rc.code + rx.code, ry.code, f);
    var pick := Pick(ry.next, rc.v, rx.v, ry.v);
    RunOne(pick, f3);
    RunAppend(rc.code + rx.code + ry.code, [pick], f);
  }

  lemma PickStep(rc: Result, rx: Result, ry: Result, vc: Val, vx: Val, vy: Val, f: Frame) returns (g: Frame, v: Val)
    requires rc.Ok? && rx.Ok? && ry.Ok? && Chosen(rc, rx, ry).Ok? && SameNames(ry.sym, rx.sym) && Below(f, ry.next)
    requires Yields(vc, rc.v, rc.sym, f) && Yields(vx, rx.v, rx.sym, f) && Yields(vy, ry.v, ry.sym, f)
    ensures vc.Basic? && vc.v.BoolV? && v == if vc.v.b then vx else vy
    ensures Exec(Pick(ry.next, rc.v, rx.v, ry.v), f) == Some(g) && Grows(f, g) && Below(g, ry.next + 1)
    ensures Yields(v, Reg(ry.next), Picked(rx.sym, ry.next), g)
  {
    hide SameNames, Fits;
    v := if vc.v.b then vx else vy;
    var held := Value(if vc.v.b then rx.v else ry.v, f).value;
    g := f.(regs := f.regs[ry.next := held]);
    if rx.sym.ty.Struct? {
      var c := Peek(held, f.mem).value;
      if !vc.v.b {
        SameFits(v, c, ry.sym, rx.sym);
      }
      FitsLike(v, c, rx.sym, Picked(rx.sym, ry.next));
    }
  }

  lemma SimGet(x: string, path: seq<string>, env: Env, t: Table, next: nat, f: Frame) returns (g: Frame, v: Val)
    requires TransExpr(Get(x, path), t, next).Ok? && Rel(env, t, f) && Below(f, next)
    ensures var r := TransExpr(Get(x, path), t, next);
      && Run(r.code, f) == Some(g) && Grows(f, g) && Below(g, r.next) && next <= r.next
      && Eval(Get(x, path), env) == Some(v) && Yields(v, r.v, r.sym, g)
  {
    hide Points, Run, Exec, Grows, Below, Fits, At, Lookup, Indices, Descend, Rel, Walk, Yields;
    HoldsPoints(env, t, f, x);
    var c := f.mem[f.regs[t[x].ptr].base];
    var w := Walk(t[x], path, next);
    var h := WalkReaches(env[x], c, t[x], path, next, f);
    v := Lookup(env[x], path).value;
    PointsYields(v, At(c, Indices(t[x], path)).value, w.sym, h);
    if w.sym.ty.Word? {
      g := LoadStep(w.sym.ptr, v.v, w.next, h);
      RunAppend(w.code, [Load(w.next, w.sym.ptr)], f);
      RunOne(Load(w.next, w.sym.ptr), h);
      GrowsTransitive(f, h, g);
      NumberYields(v, w.next, w.sym, g);
    } else {
      g := h;
    }
  }

  lemma LoadStep(p: nat, b: Words.Val, d: nat, f: Frame) returns (g: Frame)
    requires PeekReg(p, f) == Some(W(Bits(b))) && Below(f, d)
    ensures Exec(Load(d, p), f) == Some(g) && Grows(f, g) && Below(g, d + 1)
    ensures d in g.regs && g.regs[d] == Number(Bits(b))
  {
    g := f.(regs := f.regs[d := Number(Bits(b))]);
  }

  lemma NumberYields(v: Val, d: nat, sym: Symbol, f: Frame)
    requires sym.ty.Word? && IsBasic(v, sym.ty.ty) && d in f.regs && f.regs[d] == Number(Bits(v.v))
    ensures Yields(v, Reg(d), sym, f)
  {
  }

  // ---------------------------------------------------------------- literals

  predicate Apart(vals: seq<Given>)
  {
    forall i, j :: 0 <= i < j < |vals| ==> vals[i].key != vals[j].key
  }

  ghost predicate AllYield(vs: seq<Val>, vals: seq<Given>, f: Frame)
  {
    |vs| == |vals| && forall i | 0 <= i < |vs| :: Yields(vs[i], vals[i].v, vals[i].sym, f)
  }

  /** The members by name. */
  predicate Names(vs: seq<Val>, vals: seq<Given>, m: map<string, Val>)
  {
    && |vs| == |vals| && m.Keys == (set i | 0 <= i < |vals| :: vals[i].key)
    && forall i :: 0 <= i < |vs| ==> vals[i].key in m && m[vals[i].key] == vs[i]
  }

  lemma NamesCons(v: Val, x: Given, vs: seq<Val>, vals: seq<Given>, m: map<string, Val>)
    requires Names(vs, vals, m) && forall i :: 0 <= i < |vals| ==> vals[i].key != x.key
    ensures Names([v] + vs, [x] + vals, m[x.key := v])
  {
    var xs := [x] + vals;
    var m' := m[x.key := v];
    forall k
      ensures k in m'.Keys <==> k in (set i | 0 <= i < |xs| :: xs[i].key)
    {
      if k in m.Keys {
        var i :| 0 <= i < |vals| && vals[i].key == k;
        assert xs[i + 1].key == k;
      } else if k == x.key {
        assert xs[0].key == k;
      }
    }
  }

  lemma AllYieldCons(v: Val, x: Given, vs: seq<Val>, vals: seq<Given>, f: Frame)
    requires Yields(v, x.v, x.sym, f) && AllYield(vs, vals, f)
    ensures AllYield([v] + vs, [x] + vals, f)
  {
    hide Yields;
  }

  /** Running the members' code from f to g evaluates them to vs. */
  ghost predicate Evaluated(members: seq<Member>, env: Env, tr: (seq<Instr>, nat, seq<Given>), next: nat,
                            f: Frame, g: Frame, vs: seq<Val>)
  {
    var (code, n, vals) := tr;
    && Run(code, f) == Some(g) && Grows(f, g) && Below(g, n) && next <= n
    && |vs| == |vals| == |members| && (forall i :: 0 <= i < |vals| ==> vals[i].key == members[i].key)
    && EvalMembers(members, env).Some? && AllYield(vs, vals, g)
    && Names(vs, vals, EvalMembers(members, env).value)
  }

  lemma {:induction false} SimMembers(members: seq<Member>, env: Env, t: Table, next: nat, f: Frame)
    returns (g: Frame, vs: seq<Val>)
    requires TransMembers(members, t, next).Some? && WellKeyedAll(members) && AllArmsAgree(members, t, next)
    requires Rel(env, t, f) && Below(f, next)
    ensures Evaluated(members, env, TransMembers(members, t, next).value, next, f, g, vs)
    decreases members, 0
  {
    if members == [] {
      g, vs := f, [];
    } else {
      hide Grows, Below, Rel, Yields, TransExpr, Eval, Evaluated;
      var r := TransExpr(members[0].e, t, next);
      var f1, v := SimExpr(members[0].e, env, t, next, f);
      GrowsRel(env, t, f, f1);
      var g1, ws := SimMembers(members[1..], env, t, r.next, f1);
      g := g1;
      vs := [v] + ws;
      EvaluatedCons(members, env, t, next, f, f1, g, v, ws);
    }
  }

  /** The first member and the rest. */
  lemma MembersUnfold(members: seq<Member>, env: Env, t: Table, next: nat)
    requires members != [] && TransMembers(members, t, next).Some?
    ensures var r := TransExpr(members[0].e, t, next);
      var rest := TransMembers(members[1..], t, r.next);
      && r.Ok? && rest.Some?
      && TransMembers(members, t, next).value ==
           (r.code + rest.value.0, rest.value.1, [Given(members[0].key, r.v, r.sym)] + rest.value.2)
    ensures var v, vs := Eval(members[0].e, env), EvalMembers(members[1..], env);
      v.Some? && vs.Some? ==> EvalMembers(members, env) == Some(vs.value[members[0].key := v.value])
    ensures WellKeyedAll(members) ==> forall i :: 0 <= i < |members[1..]| ==> members[1..][i].key != members[0].key
  {
    hide TransExpr, Eval, WellKeyed;
    assert forall i :: 0 <= i < |members[1..]| ==> members[1..][i] in members[1..];
  }

  lemma EvaluatedCons(members: seq<Member>, env: Env, t: Table, next: nat, f: Frame, f1: Frame, g: Frame, v: Val,
                      ws: seq<Val>)
    requires members != [] && WellKeyedAll(members) && TransMembers(members, t, next).Some?
    requires var r := TransExpr(members[0].e, t, next);
      && Run(r.code, f) == Some(f1) && Grows(f, f1) && next <= r.next
      && Eval(members[0].e, env) == Some(v) && Yields(v, r.v, r.sym, f1)
      && Evaluated(members[1..], env, TransMembers(members[1..], t, r.next).value, r.next, f1, g, ws)
    ensures Evaluated(members, env, TransMembers(members, t, next).value, next, f, g, [v] + ws)
  {
    hide Run, Exec, Grows, Below, Yields, Names, TransExpr, Eval, WellKeyedAll, AllYield, TransMembers, EvalMembers;
    MembersUnfold(members, env, t, next);
    var r := TransExpr(members[0].e, t, next);
    var (code, n, vals) := TransMembers(members[1..], t, r.next).value;
    var x := Given(members[0].key, r.v, r.sym);
    GrowsTransitive(f, f1, g);
    GrowsYields(v, r.v, r.sym, f1, g);
    RunAppend(r.code, code, f);
    AllYieldCons(v, x, ws, vals, g);
    NamesCons(v, x, ws, vals, EvalMembers(members[1..], env).value);
  }

  lemma CopyStep(v: Val, o: Opd, sym: Symbol, p: nat, f: Frame) returns (d: Content)
    requires Yields(v, o, sym, f) && PeekReg(p, f).Some?
    ensures Exec(CopyTo(p, o, sym), f) == Some(f.(mem := Poke(f.regs[p], f.mem, d))) && Fits(v, d, sym)
  {
    d := if sym.ty.Word? then W(Bits(v.v)) else PeekReg(sym.ptr, f).value;
  }

  /** The new cell at the end of m0 has fields for vals, the first k of them filled. */
  ghost predicate Filling(elems: seq<Content>, vs: seq<Val>, vals: seq<Given>, k: nat, n: nat, base: Frame, f: Frame)
  {
    && |elems| == |vals| == |vs| && k <= |vals|
    && n in f.regs && f.regs[n] == Address(|base.mem|, []) && f.mem == base.mem + [S(elems)]
    && Grows(base, f) && Below(f, n + 1 + k)
    && forall j | 0 <= j < k :: Fits(vs[j], elems[j], vals[j].sym)
  }

  lemma FillField(elems: seq<Content>, vs: seq<Val>, vals: seq<Given>, k: nat, n: nat, base: Frame, f: Frame)
    returns (g: Frame)
    requires Filling(elems, vs, vals, k, n, base, f) && k < |vals|
    ensures Exec(Gep(n + 1 + k, n, k), f) == Some(g) && Grows(base, g)
    ensures g.mem == f.mem && n in g.regs && g.regs[n] == f.regs[n] && Below(g, n + 2 + k)
    ensures n + 1 + k in g.regs && g.regs[n + 1 + k] == Address(|base.mem|, [k])
    ensures PeekReg(n + 1 + k, g) == Some(elems[k])
  {
    g := f.(regs := f.regs[n + 1 + k := Address(|base.mem|, [k])]);
    assert [] + [k] == [k] && [k][1..] == [];
    assert f.mem[|base.mem|] == S(elems);
    assert At(S(elems), [k]) == At(elems[k], []);
  }

  lemma PokeField(m: seq<Content>, elems: seq<Content>, k: nat, d: Content)
    requires k < |elems|
    ensures Peek(Address(|m|, [k]), m + [S(elems)]).Some?
    ensures Poke(Address(|m|, [k]), m + [S(elems)], d) == m + [S(elems[k := d])]
  {
    assert [k][1..] == [];
    assert Put(S(elems), [k], d) == S(elems[k := d]);
  }

  lemma FillStep(elems: seq<Content>, vs: seq<Val>, vals: seq<Given>, k: nat, n: nat, base: Frame, f: Frame)
    returns (g: Frame, elems': seq<Content>)
    requires Filling(elems, vs, vals, k, n, base, f) && k < |vals| && AllYield(vs, vals, base)
    ensures Filling(elems', vs, vals, k + 1, n, base, g)
    ensures Run([Gep(n + 1 + k, n, k), CopyTo(n + 1 + k, vals[k].v, vals[k].sym)], f) == Some(g)
  {
    hide Exec, Fits, Poke, Yields, Grows, Below, CopyTo;
    var f1 := FillField(elems, vs, vals, k, n, base, f);
    GrowsYields(vs[k], vals[k].v, vals[k].sym, base, f1);
    var d := CopyStep(vs[k], vals[k].v, vals[k].sym, n + 1 + k, f1);
    PokeField(base.mem, elems, k, d);
    elems' := elems[k := d];
    g := f1.(mem := base.mem + [S(elems')]);
    FilledGrows(base, f1, S(elems'), n + 2 + k);
    RunTwo(Gep(n + 1 + k, n, k), CopyTo(n + 1 + k, vals[k].v, vals[k].sym), f);
  }

  lemma FilledGrows(base: Frame, f: Frame, c: Content, n: nat)
    requires Grows(base, f) && Below(f, n)
    ensures Grows(base, f.(mem := base.mem + [c])) && Below(f.(mem := base.mem + [c]), n)
  {
  }

  lemma {:induction false} SimFill(elems: seq<Content>, vs: seq<Val>, vals: seq<Given>, k: nat, n: nat, base: Frame,
                                   f: Frame)
    returns (g: Frame, elems': seq<Content>)
    requires Filling(elems, vs, vals, k, n, base, f) && AllYield(vs, vals, base)
    ensures Run(Fill(vals, k, n), f) == Some(g) && Filling(elems', vs, vals, |vals|, n, base, g)
    decreases |vals| - k
  {
    if k == |vals| {
      g, elems' := f, elems;
    } else {
      hide Filling, AllYield, Run;
      var f1, elems1 := FillStep(elems, vs, vals, k, n, base, f);
      g, elems' := SimFill(elems1, vs, vals, k + 1, n, base, f1);
      RunAppend([Gep(n + 1 + k, n, k), CopyTo(n + 1 + k, vals[k].v, vals[k].sym)], Fill(vals, k + 1, n), f);
    }
  }

  lemma {:induction false} FieldsAre(vals: seq<Given>, j: nat, n: nat)
    requires j <= |vals| && Apart(vals)
    ensures var fs, ss := FieldsFrom(vals, j), SymbolsFrom(vals, j, n);
      && (forall i :: j <= i < |vals| ==> vals[i].key in fs && fs[vals[i].key] == i)
      && (forall i :: j <= i < |vals| ==> vals[i].key in ss)
      && (forall i :: j <= i < |vals| ==> ss[vals[i].key] == vals[i].sym.(ptr := n + 1 + i, parent := true))
      && (forall k :: k in fs ==> j <= fs[k] < |vals| && vals[fs[k]].key == k)
      && ss.Keys == fs.Keys
    decreases |vals| - j
  {
    if j < |vals| {
      FieldsAre(vals, j + 1, n);
    }
  }

  lemma {:induction false} TypesAre(vals: seq<Given>, i: nat)
    requires i < |vals|
    ensures TypesOf(vals)[i] == vals[i].sym.ty
    decreases i
  {
    if i > 0 {
      TypesAre(vals[1..], i - 1);
    }
  }

  /** The filled cell holds the literal's value. */
  lemma BuiltFits(vs: seq<Val>, vals: seq<Given>, m: map<string, Val>, elems: seq<Content>, methods: map<string, nat>,
                  n: nat)
    requires |elems| == |vals| && Apart(vals) && Names(vs, vals, m)
    requires forall j | 0 <= j < |vs| :: Fits(vs[j], elems[j], vals[j].sym)
    ensures Fits(Rec(m, methods), S(elems), Built(vals, methods, n))
  {
    hide Fits, TypesOf;
    var sym := Built(vals, methods, n);
    FieldsAre(vals, 0, n);
    forall k | k in sym.symbols
      ensures sym.fields[k] < |vals| && k in m && sym.symbols[k].ty == TypesOf(vals)[sym.fields[k]]
      ensures Fits(m[k], elems[sym.fields[k]], sym.symbols[k])
    {
      var i := sym.fields[k];
      assert vals[i].key == k;
      TypesAre(vals, i);
      FitsLike(vs[i], elems[i], vals[i].sym, sym.symbols[k]);
    }
    KeysMatch(vs, vals, m, n);
    StructFits(m, elems, sym, TypesOf(vals));
  }

  lemma KeysMatch(vs: seq<Val>, vals: seq<Given>, m: map<string, Val>, n: nat)
    requires Apart(vals) && Names(vs, vals, m)
    ensures m.Keys == FieldsFrom(vals, 0).Keys == SymbolsFrom(vals, 0, n).Keys
  {
    FieldsAre(vals, 0, n);
    forall k
      ensures k in m.Keys <==> k in FieldsFrom(vals, 0).Keys
    {
      if k in m.Keys {
        var i :| 0 <= i < |vals| && vals[i].key == k;
        assert k in FieldsFrom(vals, 0);
      }
    }
  }

  lemma StructFits(m: map<string, Val>, elems: seq<Content>, sym: Symbol, tys: seq<LTy>)
    requires sym.ty == Struct(tys) && |elems| == |tys| && m.Keys == sym.symbols.Keys == sym.fields.Keys
    requires forall k, l :: k in sym.fields && l in sym.fields && sym.fields[k] == sym.fields[l] ==> k == l
    requires forall k :: k in sym.symbols ==>
      sym.fields[k] < |tys| && sym.symbols[k].ty == tys[sym.fields[k]]
        && Fits(m[k], elems[sym.fields[k]], sym.symbols[k])
    ensures Fits(Rec(m, sym.methods), S(elems), sym)
  {
  }

  lemma {:induction false} KeyedApart(members: seq<Member>, vals: seq<Given>)
    requires WellKeyedAll(members) && |vals| == |members|
    requires forall i :: 0 <= i < |vals| ==> vals[i].key == members[i].key
    ensures Apart(vals)
    decreases |members|
  {
    if members != [] {
      KeyedApart(members[1..], vals[1..]);
      forall i, j | 0 <= i < j < |vals|
        ensures vals[i].key != vals[j].key
      {
        if i == 0 {
          assert members[j] == members[1..][j - 1];
          assert members[j] in members[1..];
        } else {
          assert vals[1..][i - 1] == vals[i] && vals[1..][j - 1] == vals[j];
        }
      }
    }
  }

  lemma {:induction false} SimMake(members: seq<Member>, methods: map<string, nat>, env: Env, t: Table, next: nat,
                                   f: Frame)
    returns (g: Frame, v: Val)
    requires TransExpr(Make(members, methods), t, next).Ok? && WellKeyedAll(members) && AllArmsAgree(members, t, next)
    requires Rel(env, t, f) && Below(f, next)
    ensures var r := TransExpr(Make(members, methods), t, next);
      && Run(r.code, f) == Some(g) && Grows(f, g) && Below(g, r.next) && next <= r.next
      && Eval(Make(members, methods), env) == Some(v) && Yields(v, r.v, r.sym, g)
    decreases members, 1
  {
    hide Run, Exec, Grows, Below, Rel, Yields, Names, Fill, Fits, Filling, AllYield, Built;
    var (code, n, vals) := TransMembers(members, t, next).value;
    var f1, vs := SimMembers(members, env, t, next, f);
    var m := EvalMembers(members, env).value;
    KeyedApart(members, vals);
    v := Rec(m, methods);
    var f2 := StartFill(vs, vals, n, f1);
    var g1, elems := SimFill(BlankAll(TypesOf(vals)), vs, vals, 0, n, f1, f2);
    g := g1;
    FillDone(elems, vs, vals, m, methods, n, f1, g);
    GrowsTransitive(f, f1, g);
    RunAppend(code, [Alloca(n, Struct(TypesOf(vals)))], f);
    RunOne(Alloca(n, Struct(TypesOf(vals))), f1);
    RunAppend(code + [Alloca(n, Struct(TypesOf(vals)))], Fill(vals, 0, n), f);
    BuiltSymbol(vals, methods, n);
  }

  lemma BuiltSymbol(vals: seq<Given>, methods: map<string, nat>, n: nat)
    ensures Built(vals, methods, n).ptr == n
  {
  }

  lemma StartFill(vs: seq<Val>, vals: seq<Given>, n: nat, f: Frame) returns (g: Frame)
    requires Below(f, n) && |vs| == |vals|
    ensures Exec(Alloca(n, Struct(TypesOf(vals))), f) == Some(g)
    ensures Filling(BlankAll(TypesOf(vals)), vs, vals, 0, n, f, g)
  {
    g := Frame(f.regs[n := Address(|f.mem|, [])], f.mem + [S(BlankAll(TypesOf(vals)))]);
  }

  lemma FillDone(elems: seq<Content>, vs: seq<Val>, vals: seq<Given>, m: map<string, Val>, methods: map<string, nat>,
                 n: nat, base: Frame, f: Frame)
    requires Filling(elems, vs, vals, |vals|, n, base, f) && Apart(vals) && Names(vs, vals, m)
    ensures Grows(base, f) && Below(f, n + 1 + |vals|) && Yields(Rec(m, methods), Reg(n), Built(vals, methods, n), f)
  {
    hide Names, Grows, Below;
    BuiltFits(vs, vals, m, elems, methods, n);
    hide Fits;
    assert f.mem[|base.mem|] == S(elems);
    BuiltSymbol(vals, methods, n);
    assert Built(vals, methods, n).ty.Struct?;
  }

  // -------------------------------------------------------------- assignment

  /** Two symbols name the same members and functions, all the way down. */
  predicate SameNames(a: Symbol, b: Symbol)
    decreases a
  {
    && a.ty == b.ty
    && (a.ty.Struct? ==>
          && a.fields == b.fields && a.methods == b.methods && a.symbols.Keys == b.symbols.Keys
          && forall k :: k in a.symbols ==> SameNames(a.symbols[k], b.symbols[k]))
  }

  lemma {:induction false} SameFits(v: Val, c: Content, a: Symbol, b: Symbol)
    requires Fits(v, c, a) && SameNames(a, b)
    ensures Fits(v, c, b)
    decreases a
  {
    if a.ty.Struct? {
      forall k | k in b.symbols
        ensures Fits(v.members[k], c.elems[b.fields[k]], b.symbols[k]) && b.symbols[k].ty == a.symbols[k].ty
      {
        SameFits(v.members[k], c.elems[a.fields[k]], a.symbols[k], b.symbols[k]);
      }
    }
  }

  lemma {:induction false} UpdateFits(v: Val, c: Content, sym: Symbol, path: seq<string>, u: Val, d: Content)
    requires Fits(v, c, sym) && Lookup(v, path).Some? && At(c, Indices(sym, path)).Some?
    requires Fits(u, d, Descend(sym, path)) && Descend(sym, path).ty.Word? == u.Basic?
    ensures Fits(Update(v, path, u), Put(c, Indices(sym, path), d), sym)
    decreases |path|
  {
    if path != [] {
      var k := path[0];
      var i := sym.fields[k];
      var q := Indices(sym.symbols[k], path[1..]);
      assert Indices(sym, path) == [i] + q && ([i] + q)[1..] == q;
      UpdateFits(v.members[k], c.elems[i], sym.symbols[k], path[1..], u, d);
      MemberFits(v, c, sym, k, Update(v.members[k], path[1..], u), Put(c.elems[i], q, d));
    }
  }

  lemma MemberFits(v: Val, c: Content, sym: Symbol, k: string, u: Val, d: Content)
    requires Fits(v, c, sym) && sym.ty.Struct? && k in sym.symbols && Fits(u, d, sym.symbols[k])
    ensures Fits(v.(members := v.members[k := u]), S(c.elems[sym.fields[k] := d]), sym)
  {
    hide Fits;
    FitsParts(v, c, sym);
    var m, es := v.members[k := u], c.elems[sym.fields[k] := d];
    forall l | l in sym.symbols
      ensures Fits(m[l], es[sym.fields[l]], sym.symbols[l])
    {
      if l != k {
        assert sym.fields[l] != sym.fields[k];
      }
    }
    assert m.Keys == sym.symbols.Keys;
    StructFits(m, es, sym, sym.ty.elems);
  }

  lemma FitsParts(v: Val, c: Content, sym: Symbol)
    requires Fits(v, c, sym) && sym.ty.Struct?
    ensures v.Rec? && c.S? && |c.elems| == |sym.ty.elems| && v.members.Keys == sym.symbols.Keys == sym.fields.Keys
    ensures v.methods == sym.methods
    ensures forall k, l :: k in sym.fields && l in sym.fields && sym.fields[k] == sym.fields[l] ==> k == l
    ensures forall k :: k in sym.symbols ==>
      sym.fields[k] < |c.elems| && sym.symbols[k].ty == sym.ty.elems[sym.fields[k]]
      && Fits(v.members[k], c.elems[sym.fields[k]], sym.symbols[k])
  {
  }

  /** Writing one variable's cell leaves the others alone. */
  lemma RelPoke(env: Env, t: Table, f: Frame, x: string, v: Val, sym: Symbol, c: Content)
    requires Rel(env, t, f) && x in t && sym.ptr == t[x].ptr && Fits(v, c, sym)
    ensures x in env && t[x].ptr in f.regs && f.regs[t[x].ptr].Address? && f.regs[t[x].ptr].base < |f.mem|
    ensures Rel(env[x := v], t[x := sym], f.(mem := f.mem[f.regs[t[x].ptr].base := c]))
  {
    hide Fits;
    assert Holds(env[x], t[x], f);
    var b := f.regs[t[x].ptr].base;
    var g := f.(mem := f.mem[b := c]);
    forall y | y in t && y != x
      ensures Holds(env[y], t[y], g)
    {
      assert Holds(env[y], t[y], f);
    }
  }

  lemma RelDeclare(env: Env, t: Table, f: Frame, x: string, v: Val, sym: Symbol, c: Content)
    requires Rel(env, t, f) && x !in t && Below(f, sym.ptr) && Fits(v, c, sym)
    ensures Rel(env[x := v], t[x := sym], Frame(f.regs[sym.ptr := Address(|f.mem|, [])], f.mem + [c]))
  {
    hide Fits;
    var g := Frame(f.regs[sym.ptr := Address(|f.mem|, [])], f.mem + [c]);
    forall y | y in t
      ensures Holds(env[y], t[y], g) && g.regs[t[y].ptr].base < |f.mem|
    {
      assert Holds(env[y], t[y], f);
      assert g.mem[f.regs[t[y].ptr].base] == f.mem[f.regs[t[y].ptr].base];
    }
    assert g.mem[|f.mem|] == c;
  }

  /** A new variable gets a cell and a copy. */
  lemma SimDeclare(s: Stmt, env: Env, t: Table, next: nat, f: Frame) returns (g: Frame, v: Val)
    requires s.path == [] && s.x !in t && TransStmt(s, t, next).Changed? && WellKeyed(s.e) && Agrees(s, t, next)
    requires Rel(env, t, f) && Below(f, next)
    ensures var r := TransStmt(s, t, next);
      && Eval(s.e, env) == Some(v) && Run(r.code, f) == Some(g) && Below(g, r.next)
      && Rel(env[s.x := v], r.t, g)
  {
    hide Run, Exec, Grows, Below, Rel, Yields, Fits, TransExpr, Eval, WellKeyed;
    var r := TransExpr(s.e, t, next);
    var f1;
    f1, v := SimExpr(s.e, env, t, next, f);
    GrowsRel(env, t, f, f1);
    var f2 := AllocaStep(r.next, r.sym.ty, f1);
    GrowsYields(v, r.v, r.sym, f1, f2);
    var d := CopyStep(v, r.v, r.sym, r.next, f2);
    PokeCell(f1.mem, Blank(r.sym.ty), d);
    var sym := r.sym.(ptr := r.next, isConst := !s.mut);
    FitsLike(v, d, r.sym, sym);
    g := Frame(f1.regs[r.next := Address(|f1.mem|, [])], f1.mem + [d]);
    RelDeclare(env, t, f1, s.x, v, sym, d);
    BelowDeclare(f1, f2, g, r.next);
    RunTwo(Alloca(r.next, r.sym.ty), CopyTo(r.next, r.v, r.sym), f1);
    RunAppend(r.code, [Alloca(r.next, r.sym.ty), CopyTo(r.next, r.v, r.sym)], f);
  }

  lemma AllocaStep(d: nat, ty: LTy, f: Frame) returns (g: Frame)
    requires Below(f, d)
    ensures Exec(Alloca(d, ty), f) == Some(g) && Grows(f, g)
    ensures g == Frame(f.regs[d := Address(|f.mem|, [])], f.mem + [Blank(ty)])
    ensures PeekReg(d, g) == Some(Blank(ty)) && d in g.regs
  {
    g := Frame(f.regs[d := Address(|f.mem|, [])], f.mem + [Blank(ty)]);
  }

  lemma PokeCell(m: seq<Content>, c: Content, d: Content)
    ensures Peek(Address(|m|, []), m + [c]).Some? && Poke(Address(|m|, []), m + [c], d) == m + [d]
  {
  }

  lemma BelowDeclare(f: Frame, f2: Frame, g: Frame, d: nat)
    requires Below(f, d) && g.regs == f.regs[d := Address(|f.mem|, [])]
    ensures Below(g, d + 1)
  {
  }

  /** The arms of choices have the same names and, where the table stays as it is, the members named on
      the right are those named on the left. */
  predicate Agrees(s: Stmt, t: Table, next: nat)
  {
    ArmsFit(s, t, next) && NamesFit(s, t, next)
  }

  /** The choices on the right side. */
  predicate ArmsFit(s: Stmt, t: Table, next: nat)
  {
    if s.x !in t then ArmsAgree(s.e, t, next)
    else
      var w := Walk(t[s.x], s.path, next);
      w.Place? ==> ArmsAgree(s.e, t, w.next)
  }

  /** The names on both sides. */
  predicate NamesFit(s: Stmt, t: Table, next: nat)
  {
    s.x in t ==>
      var w := Walk(t[s.x], s.path, next);
      w.Place? && w.sym.parent ==>
        var r := TransExpr(s.e, t, w.next);
        r.Ok? ==> SameNames(r.sym, w.sym)
  }

  /** Every member has a parent, all the way down. */
  predicate Owned(sym: Symbol)
    decreases sym
  {
    forall k :: k in sym.symbols ==> sym.symbols[k].parent && Owned(sym.symbols[k])
  }

  predicate AllOwned(t: Table)
  {
    forall x :: x in t ==> Owned(t[x])
  }

  lemma {:induction false} OwnedLike(a: Symbol, b: Symbol)
    requires a.symbols == b.symbols
    ensures Owned(a) == Owned(b)
  {
  }

  lemma {:induction false} WalkOwned(sym: Symbol, path: seq<string>, next: nat)
    requires Owned(sym) && Walk(sym, path, next).Place?
    ensures var w := Walk(sym, path, next);
      Owned(w.sym) && if path == [] then w.sym == sym else w.sym.parent
    decreases |path|
  {
    if path != [] {
      var c := sym.symbols[path[0]].(ptr := next);
      OwnedLike(sym.symbols[path[0]], c);
      WalkOwned(c, path[1..], next + 1);
    }
  }

  lemma {:induction false} ExprOwned(e: Expr, t: Table, next: nat)
    requires AllOwned(t) && TransExpr(e, t, next).Ok?
    ensures Owned(TransExpr(e, t, next).sym)
    decreases e, 1
  {
    match e
    case Lit(_) =>
    case Get(x, path) => WalkOwned(t[x], path, next);
    case Make(members, methods) =>
      MembersOwned(members, t, next);
      var (_, n, vals) := TransMembers(members, t, next).value;
      SymbolsOwned(vals, 0, n);
    case Choose(c, x, y) =>
      var rc := TransExpr(c, t, next);
      var rx := TransExpr(x, t, rc.next);
      ExprOwned(x, t, rc.next);
      OwnedLike(rx.sym, Picked(rx.sym, TransExpr(y, t, rx.next).next));
  }

  lemma {:induction false} MembersOwned(members: seq<Member>, t: Table, next: nat)
    requires AllOwned(t) && TransMembers(members, t, next).Some?
    ensures forall i :: 0 <= i < |TransMembers(members, t, next).value.2| ==>
      Owned(TransMembers(members, t, next).value.2[i].sym)
    decreases members, 0
  {
    if members != [] {
      ExprOwned(members[0].e, t, next);
      MembersOwned(members[1..], t, TransExpr(members[0].e, t, next).next);
    }
  }

  lemma {:induction false} SymbolsOwned(vals: seq<Given>, k: nat, n: nat)
    requires k <= |vals| && forall i :: 0 <= i < |vals| ==> Owned(vals[i].sym)
    ensures forall x :: x in SymbolsFrom(vals, k, n) ==>
      SymbolsFrom(vals, k, n)[x].parent && Owned(SymbolsFrom(vals, k, n)[x])
    decreases |vals| - k
  {
    if k < |vals| {
      SymbolsOwned(vals, k + 1, n);
      OwnedLike(vals[k].sym, vals[k].sym.(ptr := n + 1 + k, parent := true));
    }
  }

  /** So an assignment to a member never enters anything into the scope's table. */
  lemma StmtOwned(s: Stmt, t: Table, next: nat)
    requires AllOwned(t) && TransStmt(s, t, next).Changed?
    ensures AllOwned(TransStmt(s, t, next).t)
    ensures s.path != [] ==> TransStmt(s, t, next).t == t
  {
    hide TransExpr, Walk, Owned;
    if s.x in t {
      var w := Walk(t[s.x], s.path, next);
      var r := TransExpr(s.e, t, w.next);
      WalkOwned(t[s.x], s.path, next);
      ExprOwned(s.e, t, w.next);
      OwnedLike(r.sym, r.sym.(ptr := w.sym.ptr));
    } else {
      var r := TransExpr(s.e, t, next);
      ExprOwned(s.e, t, next);
      OwnedLike(r.sym, r.sym.(ptr := r.next, isConst := !s.mut));
    }
  }

  /** The place on the left is computed, then the value on the right. */
  lemma SimSides(s: Stmt, env: Env, t: Table, next: nat, f: Frame) returns (g: Frame, v: Val, c: Content)
    requires s.x in t && TransStmt(s, t, next).Changed? && WellKeyed(s.e) && ArmsFit(s, t, next)
    requires Rel(env, t, f) && Below(f, next)
    ensures s.x in env && t[s.x].ptr in g.regs && g.regs[t[s.x].ptr].Address? && g.regs[t[s.x].ptr].base < |g.mem|
    ensures c == g.mem[g.regs[t[s.x].ptr].base] && Fits(env[s.x], c, t[s.x])
    ensures Walk(t[s.x], s.path, next).Place?
    ensures var w := Walk(t[s.x], s.path, next);
      var r := TransExpr(s.e, t, w.next);
      && r.Ok? && Run(w.code + r.code, f) == Some(g) && Below(g, r.next) && Rel(env, t, g)
      && Eval(s.e, env) == Some(v) && Yields(v, r.v, r.sym, g)
      && w.sym == Descend(t[s.x], s.path).(ptr := w.sym.ptr)
      && w.sym.ptr in g.regs
      && g.regs[w.sym.ptr] == Address(g.regs[t[s.x].ptr].base, Indices(t[s.x], s.path))
      && Lookup(env[s.x], s.path).Some? && At(c, Indices(t[s.x], s.path)).Some?
  {
    hide Run, Exec, Grows, Below, Rel, Yields, Fits, TransExpr, Eval, WellKeyed, At, Lookup, Indices, Descend, Walk,
         Points, ArmsAgree;
    var x := t[s.x];
    HoldsPoints(env, t, f, s.x);
    c := f.mem[f.regs[x.ptr].base];
    var w := Walk(x, s.path, next);
    var f1 := WalkReaches(env[s.x], c, x, s.path, next, f);
    GrowsRel(env, t, f, f1);
    var r := TransExpr(s.e, t, w.next);
    g, v := SimExpr(s.e, env, t, w.next, f1);
    GrowsRel(env, t, f1, g);
    RunAppend(w.code, r.code, f);
    GrowsTransitive(f, f1, g);
    GrowsKeeps(f, g, x.ptr);
    GrowsKeeps(f1, g, w.sym.ptr);
    PointsFits(env[s.x], c, x, f);
    assert [] + Indices(x, s.path) == Indices(x, s.path);
  }

  lemma GrowsKeeps(f: Frame, g: Frame, r: nat)
    requires Grows(f, g) && r in f.regs
    ensures r in g.regs && g.regs[r] == f.regs[r]
    ensures f.regs[r].Address? && f.regs[r].base < |f.mem| ==>
      f.regs[r].base < |g.mem| && g.mem[f.regs[r].base] == f.mem[f.regs[r].base]
  {
    if f.regs[r].Address? && f.regs[r].base < |f.mem| {
      assert g.mem[..|f.mem|][f.regs[r].base] == f.mem[f.regs[r].base];
    }
  }

  lemma PointsFits(v: Val, c: Content, sym: Symbol, f: Frame)
    requires Points(v, c, sym, f)
    ensures Fits(v, c, sym)
  {
  }

  lemma PokePlace(f: Frame, p: nat, b: nat, path: seq<nat>, d: Content)
    requires p in f.regs && f.regs[p] == Address(b, path) && b < |f.mem| && At(f.mem[b], path).Some?
    ensures PeekReg(p, f).Some? && Poke(f.regs[p], f.mem, d) == f.mem[b := Put(f.mem[b], path, d)]
  {
  }

  lemma StmtIs(s: Stmt, t: Table, next: nat)
    requires s.x in t && TransStmt(s, t, next).Changed?
    ensures Walk(t[s.x], s.path, next).Place?
    ensures var w := Walk(t[s.x], s.path, next);
      var r := TransExpr(s.e, t, w.next);
      && r.Ok? && r.sym.ty == w.sym.ty
      && TransStmt(s, t, next) == Changed(w.code + r.code + [CopyTo(w.sym.ptr, r.v, r.sym)], r.next,
                                          Entered(t, w.sym, Name(s.x, s.path), r.sym))
  {
    hide Walk, TransExpr;
  }

  /** The copy itself. */
  lemma SimCopy(s: Stmt, v: Val, c: Content, t: Table, next: nat, f: Frame, f1: Frame) returns (g: Frame, d: Content)
    requires s.x in t && TransStmt(s, t, next).Changed? && Walk(t[s.x], s.path, next).Place?
    requires t[s.x].ptr in f1.regs && f1.regs[t[s.x].ptr].Address? && f1.regs[t[s.x].ptr].base < |f1.mem|
    requires c == f1.mem[f1.regs[t[s.x].ptr].base] && At(c, Indices(t[s.x], s.path)).Some?
    requires var w := Walk(t[s.x], s.path, next);
      var r := TransExpr(s.e, t, w.next);
      && r.Ok? && Run(w.code + r.code, f) == Some(f1) && Below(f1, r.next) && Yields(v, r.v, r.sym, f1)
      && w.sym.ptr in f1.regs
      && f1.regs[w.sym.ptr] == Address(f1.regs[t[s.x].ptr].base, Indices(t[s.x], s.path))
    ensures Run(TransStmt(s, t, next).code, f) == Some(g) && Below(g, TransStmt(s, t, next).next)
    ensures g == f1.(mem := f1.mem[f1.regs[t[s.x].ptr].base := Put(c, Indices(t[s.x], s.path), d)])
    ensures Fits(v, d, TransExpr(s.e, t, Walk(t[s.x], s.path, next).next).sym)
  {
    hide Run, Exec, Below, Yields, Fits, TransExpr, TransStmt, At, Indices, Walk, Put, CopyTo, Poke, PeekReg;
    StmtIs(s, t, next);
    var x := t[s.x];
    var w := Walk(x, s.path, next);
    var r := TransExpr(s.e, t, w.next);
    var q := Indices(x, s.path);
    var b := f1.regs[x.ptr].base;
    PokePlace(f1, w.sym.ptr, b, q, c);
    d := CopyStep(v, r.v, r.sym, w.sym.ptr, f1);
    PokePlace(f1, w.sym.ptr, b, q, d);
    g := f1.(mem := f1.mem[b := Put(c, q, d)]);
    RunOne(CopyTo(w.sym.ptr, r.v, r.sym), f1);
    RunAppend(w.code + r.code, [CopyTo(w.sym.ptr, r.v, r.sym)], f);
    BelowSame(f1, g, r.next);
  }

  /** A known variable is overwritten with a copy, whether or not its table entry follows. */
  lemma SimReplace(s: Stmt, env: Env, t: Table, next: nat, f: Frame) returns (g: Frame, v: Val)
    requires s.x in t && s.path == [] && TransStmt(s, t, next).Changed? && WellKeyed(s.e) && Agrees(s, t, next)
    requires Rel(env, t, f) && Below(f, next)
    ensures var r := TransStmt(s, t, next);
      Eval(s.e, env) == Some(v) && Run(r.code, f) == Some(g) && Below(g, r.next) && Rel(env[s.x := v], r.t, g)
  {
    hide Run, Below, Rel, Yields, Fits, TransExpr, TransStmt, Eval, WellKeyed, At, Lookup, Indices, Descend, Walk, Put,
         SameNames;
    var f1, c;
    f1, v, c := SimSides(s, env, t, next, f);
    StmtIs(s, t, next);
    var x := t[s.x];
    var w := Walk(x, s.path, next);
    var r := TransExpr(s.e, t, w.next);
    var d;
    g, d := SimCopy(s, v, c, t, next, f, f1);
    Whole(c, x, d, env[s.x]);
    WalkHere(x, next);
    if x.parent {
      SameFits(v, d, r.sym, x);
      RelPoke(env, t, f1, s.x, v, x, d);
      assert t[s.x := x] == t;
    } else {
      FitsLike(v, d, r.sym, r.sym.(ptr := w.sym.ptr));
      RelPoke(env, t, f1, s.x, v, r.sym.(ptr := w.sym.ptr), d);
    }
  }

  /** A member of a known variable is overwritten with a copy; all else keeps its value. */
  lemma SimMember(s: Stmt, env: Env, t: Table, next: nat, f: Frame) returns (g: Frame, v: Val)
    requires s.x in t && s.path != [] && TransStmt(s, t, next).Changed? && WellKeyed(s.e) && Agrees(s, t, next)
    requires Rel(env, t, f) && Below(f, next) && AllOwned(t)
    ensures s.x in env && Lookup(env[s.x], s.path).Some?
    ensures var r := TransStmt(s, t, next);
      && Eval(s.e, env) == Some(v) && Run(r.code, f) == Some(g) && Below(g, r.next)
      && Rel(env[s.x := Update(env[s.x], s.path, v)], r.t, g)
  {
    hide Run, Below, Rel, Yields, Fits, TransExpr, TransStmt, Eval, WellKeyed, At, Lookup, Indices, Descend, Walk, Put,
         Update, SameNames, Owned;
    var f1, c;
    f1, v, c := SimSides(s, env, t, next, f);
    StmtIs(s, t, next);
    var x := t[s.x];
    var w := Walk(x, s.path, next);
    var r := TransExpr(s.e, t, w.next);
    var q := Indices(x, s.path);
    var d;
    g, d := SimCopy(s, v, c, t, next, f, f1);
    WalkOwned(x, s.path, next);
    SameFits(v, d, r.sym, w.sym);
    FitsLike(v, d, Descend(x, s.path), w.sym);
    FitsKind(v, d, w.sym);
    UpdateFits(env[s.x], c, x, s.path, v, d);
    RelPoke(env, t, f1, s.x, Update(env[s.x], s.path, v), x, Put(c, q, d));
    assert t[s.x := x] == t;
  }

  lemma FitsKind(v: Val, c: Content, sym: Symbol)
    requires Fits(v, c, sym)
    ensures sym.ty.Word? == v.Basic?
  {
  }

  lemma BelowSame(f: Frame, g: Frame, n: nat)
    requires Below(f, n) && g.regs == f.regs
    ensures Below(g, n)
  {
  }

  lemma Whole(c: Content, sym: Symbol, d: Content, v: Val)
    ensures Indices(sym, []) == [] && At(c, []) == Some(c) && Put(c, [], d) == d && Descend(sym, []) == sym
    ensures Lookup(v, []) == Some(v)
  {
  }

  lemma WalkHere(sym: Symbol, next: nat)
    ensures Walk(sym, [], next) == Place([], next, sym)
  {
  }

  // ---------------------------------------------------------------- programs

  /** Statements one after the other. */
  function TransAll(ss: seq<Stmt>, t: Table, next: nat): Changed
    decreases |ss|
  {
    if ss == [] then Changed([], next, t)
    else
      var r := TransStmt(ss[0], t, next);
      if r.Refused? then Refused else
      var rs := TransAll(ss[1..], r.t, r.next);
      if rs.Refused? then Refused else rs.(code := r.code + rs.code)
  }

  function DoAll(ss: seq<Stmt>, env: Env): Option<Env>
    decreases |ss|
  {
    if ss == [] then Some(env)
    else
      var e := Do(ss[0], env);
      if e.None? then None else DoAll(ss[1..], e.value)
  }

  predicate AllAgree(ss: seq<Stmt>, t: Table, next: nat)
    decreases |ss|
  {
    ss == [] ||
    (&& WellKeyed(ss[0].e) && Agrees(ss[0], t, next)
     && var r := TransStmt(ss[0], t, next);
        r.Changed? ==> AllAgree(ss[1..], r.t, r.next))
  }

  lemma SimStmt(s: Stmt, env: Env, t: Table, next: nat, f: Frame) returns (g: Frame, env': Env)
    requires TransStmt(s, t, next).Changed? && WellKeyed(s.e) && Agrees(s, t, next)
    requires Rel(env, t, f) && Below(f, next) && AllOwned(t)
    ensures var r := TransStmt(s, t, next);
      Do(s, env) == Some(env') && Run(r.code, f) == Some(g) && Below(g, r.next) && Rel(env', r.t, g)
  {
    hide Run, Rel, Below, TransExpr, Eval, WellKeyed, Agrees, Walk, Lookup, Update, AllOwned;
    var v;
    if s.x !in t {
      g, v := SimDeclare(s, env, t, next, f);
      env' := env[s.x := v];
    } else if s.path == [] {
      g, v := SimReplace(s, env, t, next, f);
      env' := env[s.x := v];
    } else {
      g, v := SimMember(s, env, t, next, f);
      env' := env[s.x := Update(env[s.x], s.path, v)];
    }
  }

  /** Structures have value semantics: running the code of an accepted program leaves every variable's
      cell with the value the program gives it, where assignment copies and changes nothing but the
      place assigned. */
  lemma {:induction false} SimAll(ss: seq<Stmt>, env: Env, t: Table, next: nat, f: Frame) returns (g: Frame, env': Env)
    requires TransAll(ss, t, next).Changed? && AllAgree(ss, t, next) && Rel(env, t, f) && Below(f, next) && AllOwned(t)
    ensures var r := TransAll(ss, t, next);
      DoAll(ss, env) == Some(env') && Run(r.code, f) == Some(g) && Below(g, r.next) && Rel(env', r.t, g)
    decreases |ss|
  {
    if ss == [] {
      g, env' := f, env;
    } else {
      hide Run, Rel, Below, TransStmt, Do, WellKeyed, Agrees, AllOwned;
      var r := TransStmt(ss[0], t, next);
      StmtOwned(ss[0], t, next);
      var f1, env1 := SimStmt(ss[0], env, t, next, f);
      g, env' := SimAll(ss[1..], env1, r.t, r.next, f1);
      RunAppend(r.code, TransAll(ss[1..], r.t, r.next).code, f);
    }
  }

  /** The word n is the number or truth value v: two's complement in 32 bits, or 1 and 0. */
  predicate Reads(n: nat, v: Words.Val)
  {
    match v
    case IntV(i) => n < 0x1_0000_0000 && i == if n < 0x8000_0000 then n else n - 0x1_0000_0000
    case BoolV(b) => n == if b then 1 else 0
  }

  /** The number in x.k1...kn is in the field that the path leads to, in the cell of x. */
  ghost predicate StoredAt(x: string, path: seq<string>, v: Words.Val, t: Table, f: Frame)
  {
    && x in t && t[x].ptr in f.regs && f.regs[t[x].ptr].Address? && f.regs[t[x].ptr].base < |f.mem|
    && var c := At(f.mem[f.regs[t[x].ptr].base], Indices(t[x], path));
       c.Some? && c.value.W? && Reads(c.value.n, v)
  }

  /** Every number below every variable is stored as a word that reads back as it. */
  ghost predicate Stored(env: Env, t: Table, f: Frame)
  {
    forall x, path | x in env && Lookup(env[x], path).Some? && Lookup(env[x], path).value.Basic? ::
      StoredAt(x, path, Lookup(env[x], path).value.v, t, f)
  }

  lemma {:induction false} LookupFits(v: Val, c: Content, sym: Symbol, path: seq<string>)
    requires Fits(v, c, sym) && Lookup(v, path).Some?
    ensures At(c, Indices(sym, path)).Some?
    ensures Fits(Lookup(v, path).value, At(c, Indices(sym, path)).value, Descend(sym, path))
    decreases |path|
  {
    if path != [] {
      var k := path[0];
      var i := sym.fields[k];
      var q := Indices(sym.symbols[k], path[1..]);
      assert Indices(sym, path) == [i] + q && ([i] + q)[1..] == q;
      LookupFits(v.members[k], c.elems[i], sym.symbols[k], path[1..]);
    }
  }

  lemma BitsRead(v: Words.Val)
    ensures Reads(Bits(v), v)
  {
  }

  /** A literal becomes a constant that reads back as it. */
  lemma LiteralReads(v: Words.Val, t: Table, next: nat)
    ensures var r := TransExpr(Lit(v), t, next);
      r.Ok? && r.code == [] && r.v.Const? && Reads(r.v.n, v) && r.sym.ty == Word(TypeOf(v))
  {
    BitsRead(v);
  }

  lemma RelStores(env: Env, t: Table, f: Frame)
    requires Rel(env, t, f)
    ensures Stored(env, t, f)
  {
    hide Fits, Lookup, At, Indices, Descend, Bits, Reads;
    forall x, path | x in env && Lookup(env[x], path).Some? && Lookup(env[x], path).value.Basic?
      ensures StoredAt(x, path, Lookup(env[x], path).value.v, t, f)
    {
      HoldsPoints(env, t, f, x);
      var c := f.mem[f.regs[t[x].ptr].base];
      PointsFits(env[x], c, t[x], f);
      LookupFits(env[x], c, t[x], path);
      var v := Lookup(env[x], path).value;
      FitsBasic(v, At(c, Indices(t[x], path)).value, Descend(t[x], path));
      BitsRead(v.v);
    }
  }

  lemma FitsBasic(v: Val, c: Content, sym: Symbol)
    requires Fits(v, c, sym) && v.Basic?
    ensures c == W(Bits(v.v))
  {
  }

  /** Whole programs, from nothing; numbers are in the cells as words that read back as them. */
  lemma ProgramPreserved(ss: seq<Stmt>) returns (g: Frame, env: Env)
    requires TransAll(ss, map[], 0).Changed? && AllAgree(ss, map[], 0)
    ensures DoAll(ss, map[]) == Some(env) && Run(TransAll(ss, map[], 0).code, Frame(map[], [])) == Some(g)
    ensures Rel(env, TransAll(ss, map[], 0).t, g) && Stored(env, TransAll(ss, map[], 0).t, g)
  {
    hide TransAll, AllAgree, DoAll, Run, Stored;
    g, env := SimAll(ss, map[], map[], 0, Frame(map[], []));
    RelStores(env, TransAll(ss, map[], 0).t, g);
  }

  // ---------------------------------------------------- where names disagree

  lemma {:induction false} WalkSnoc(sym: Symbol, path: seq<string>, k: string, next: nat)
    ensures Walk(sym, path + [k], next).Place? <==>
              var w := Walk(sym, path, next); w.Place? && w.sym.ty.Struct? && k in w.sym.symbols
    decreases |path|
  {
    if path == [] {
      assert path + [k] == [k] && [k][1..] == [];
    } else {
      assert (path + [k])[1..] == path[1..] + [k] && (path + [k])[0] == path[0];
      if path[0] in sym.symbols {
        WalkSnoc(sym.symbols[path[0]].(ptr := next), path[1..], k, next + 1);
      }
    }
  }

  lemma {:induction false} LookupUpdate(v: Val, path: seq<string>, u: Val, k: string)
    requires Lookup(v, path).Some?
    ensures Lookup(Update(v, path, u), path + [k]) == Lookup(u, [k])
    decreases |path|
  {
    if path == [] {
      assert path + [k] == [k];
    } else {
      assert (path + [k])[1..] == path[1..] + [k] && (path + [k])[0] == path[0];
      LookupUpdate(v.members[path[0]], path[1..], u, k);
    }
  }

  /** Assigning a structure to a place only needs equal types, not equal names. If the place has a
      parent, being a member or a variable declared from one, the translator finds the old names below
      it ever after, while the value has the new ones. So a name can be used there as the program means
      it exactly if it occurs on both sides. */
  lemma MemberNamesStick(s: Stmt, k: string, env: Env, t: Table, next: nat, later: nat)
    requires s.x in t && TransStmt(s, t, next).Changed? && Do(s, env).Some? && Walk(t[s.x], s.path, next).sym.parent
    ensures var t' := TransStmt(s, t, next).t;
      var left := Walk(t[s.x], s.path, later);
      && t' == t && left.Place?
      && (Walk(t'[s.x], s.path + [k], later).Place? <==> left.sym.ty.Struct? && k in left.sym.symbols)
    ensures var v := Eval(s.e, env).value;
      Lookup(Do(s, env).value[s.x], s.path + [k]).Some? <==> v.Rec? && k in v.members
  {
    StmtIs(s, t, next);
    hide TransExpr, Eval;
    WalkAnywhere(t[s.x], s.path, next, later);
    WalkSnoc(t[s.x], s.path, k, later);
    var v := Eval(s.e, env).value;
    assert [k][1..] == [];
    if s.path == [] {
      assert [] + [k] == [k];
    } else {
      LookupUpdate(env[s.x], s.path, v, k);
    }
  }

  /** A variable without parent follows the value instead: names are found below it exactly if the
      value has them. */
  lemma NamesFollow(s: Stmt, k: string, env: Env, t: Table, next: nat, f: Frame, later: nat)
    requires s.x in t && s.path == [] && !t[s.x].parent && TransStmt(s, t, next).Changed?
    requires WellKeyed(s.e) && Agrees(s, t, next) && Rel(env, t, f) && Below(f, next)
    ensures var t' := TransStmt(s, t, next).t;
      s.x in t' && Do(s, env).Some? &&
      (Walk(t'[s.x], [k], later).Place? <==> Lookup(Do(s, env).value[s.x], [k]).Some?)
  {
    hide Run, Rel, Below, TransExpr, Eval, WellKeyed, Walk, Fits;
    StmtIs(s, t, next);
    WalkHere(t[s.x], next);
    var g, v := SimReplace(s, env, t, next, f);
    var sym := TransStmt(s, t, next).t[s.x];
    HoldsPoints(env[s.x := v], TransStmt(s, t, next).t, g, s.x);
    var c := g.mem[g.regs[sym.ptr].base];
    PointsFits(v, c, sym, g);
    FitsKind(v, c, sym);
    if sym.ty.Struct? {
      FitsParts(v, c, sym);
    }
    OneStep(sym, v, k, later);
  }

  lemma OneStep(sym: Symbol, v: Val, k: string, later: nat)
    ensures Walk(sym, [k], later).Place? <==> sym.ty.Struct? && k in sym.symbols
    ensures Lookup(v, [k]).Some? <==> v.Rec? && k in v.members
  {
    assert [k][1..] == [];
    if sym.ty.Struct? && k in sym.symbols {
      WalkHere(sym.symbols[k].(ptr := later), later + 1);
    }
  }

  lemma {:induction false} WalkAnywhere(sym: Symbol, path: seq<string>, m: nat, n: nat)
    ensures Walk(sym, path, m).Place? == Walk(sym, path, n).Place?
    decreases |path|
  {
    if path != [] && path[0] in sym.symbols {
      var c := sym.symbols[path[0]];
      WalkPtr(c, path[1..], m, n, m + 1);
      WalkAnywhere(c.(ptr := n), path[1..], m + 1, n + 1);
    }
  }

  lemma {:induction false} WalkPtr(sym: Symbol, path: seq<string>, p: nat, q: nat, next: nat)
    ensures Walk(sym.(ptr := p), path, next).Place? == Walk(sym.(ptr := q), path, next).Place?
  {
  }
}
