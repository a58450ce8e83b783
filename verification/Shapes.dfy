/** Which programs with structures, calls and scopes are accepted: decided by the shapes of their variables,
    without registers and cells. */
module Shapes {
  import opened Words
  import opened Aggregates
  import opened Objective
  import Scopes = StructScopes

  /** What the rules know of a value: its type, whether it is read-only, whether it was taken from a
      structure, and of a structure its members and the functions among them. */
  datatype Shape = Shape(ty: LTy, readOnly: bool, taken: bool, members: map<string, Shape>, methods: map<string, nat>)

  type Shaped = map<string, Shape>

  /** What a function returns for arguments of the given shapes, if it is accepted on them. */
  type Signature = (nat, seq<Shape>) -> Option<Shape>

  datatype Judged = Judged(ctx: Shaped, shape: Shape) | Unfit

  datatype JudgedAll = JudgedAll(ctx: Shaped, shapes: seq<Shape>) | SomeUnfit

  // --------------------------------------------------------------- the rules

  function Number(ty: Ty): Shape
  {
    Shape(Word(ty), false, false, map[], map[])
  }

  /** The member that a path leads to. */
  function Part(s: Shape, path: seq<string>): Option<Shape>
    decreases |path|
  {
    if path == [] then Some(s)
    else if s.ty.Struct? && path[0] in s.members then Part(s.members[path[0]], path[1..])
    else None
  }

  function ElementTypes(keys: seq<string>, shapes: seq<Shape>): seq<LTy>
  {
    if keys == [] || shapes == [] then [] else [shapes[0].ty] + ElementTypes(keys[1..], shapes[1..])
  }

  /** Members are read-only if their values were, and are taken from the literal. */
  function MembersOf(keys: seq<string>, shapes: seq<Shape>): map<string, Shape>
  {
    if keys == [] || shapes == [] then map[]
    else MembersOf(keys[1..], shapes[1..])[keys[0] := shapes[0].(taken := true)]
  }

  /** A value that is in no variable. */
  function Loose(s: Shape): Shape
  {
    s.(readOnly := false, taken := false)
  }

  /** An assignment to a place: not to a read-only one, and of its type. The variable takes over the value's shape, but
      a place taken from a structure keeps its own. */
  function Overwritten(x: string, path: seq<string>, place: Shape, r: Judged): Judged
  {
    if r.Unfit? || place.readOnly || place.ty != r.shape.ty then Unfit
    else Judged(if path == [] && !place.taken then r.ctx[x := r.shape] else r.ctx, r.shape)
  }

  /** Both values of a choice have the same type and name the same members. */
  function Either(c: Judged, x: Judged, y: Judged): Judged
    requires c.Judged? && x.Judged? && y.Judged?
  {
    if c.shape.ty != Word(I1) || x.shape.ty != y.shape.ty || x.shape.members.Keys != y.shape.members.Keys then Unfit
    else Judged(y.ctx, Loose(x.shape))
  }

  function Method(a: string, key: string, ctx: Shaped): Option<nat>
  {
    if a in ctx && ctx[a].ty.Struct? && key in ctx[a].methods then Some(ctx[a].methods[key]) else None
  }

  function Answer(f: nat, shapes: seq<Shape>, ctx: Shaped, sig: Signature): Judged
  {
    var out := sig(f, shapes);
    if out.None? then Unfit else Judged(ctx, Loose(out.value))
  }

  function Judge(e: Term, ctx: Shaped, sig: Signature): Judged
    decreases e, 1
  {
    match e
    case Literal(v) => Judged(ctx, Number(TypeOf(v)))
    case Read(x, path) =>
      if x !in ctx then Unfit else
      var s := Part(ctx[x], path);
      if s.None? then Unfit else Judged(ctx, s.value)
    case Build(keys, vals, methods) =>
      var r := JudgeAll(vals, ctx, sig);
      if r.SomeUnfit? then Unfit else
      Judged(r.ctx, Shape(Struct(ElementTypes(keys, r.shapes)), false, false, MembersOf(keys, r.shapes), methods))
    case Assign(x, mut, path, e1) =>
      if path == [] && x !in ctx then
        var r := Judge(e1, ctx, sig);
        if r.Unfit? then Unfit else
        var s := r.shape.(readOnly := !mut);
        Judged(r.ctx[x := s], s)
      else if x !in ctx then Unfit
      else
        var place := Part(ctx[x], path);
        if place.None? then Unfit else Overwritten(x, path, place.value, Judge(e1, ctx, sig))
    case DotCall(a, key, args) =>
      var f := Method(a, key, ctx);
      if f.None? then Unfit else
      var r := JudgeAll(args, ctx, sig);
      if r.SomeUnfit? then Unfit else Answer(f.value, r.shapes, r.ctx, sig)
    case MethodCall(a, key, args) => JudgeCall(a, key, args, ctx, sig)
    case MethodSet(a, key, args) =>
      var r := JudgeCall(a, key, args, ctx, sig);
      if r.Unfit? || a !in r.ctx then Unfit else Overwritten(a, [], r.ctx[a], r)
    case Choice(_, _, _) => JudgeChoice(e, ctx, sig)
  }

  function JudgeChoice(e: Term, ctx: Shaped, sig: Signature): Judged
    requires e.Choice?
    decreases e, 0
  {
    var rc := Judge(e.c, ctx, sig);
    if rc.Unfit? then Unfit else
    var rx := Judge(e.thn, rc.ctx, sig);
    if rx.Unfit? then Unfit else
    var ry := Judge(e.els, rx.ctx, sig);
    if ry.Unfit? then Unfit else Either(rc, rx, ry)
  }

  function JudgeCall(a: string, key: string, args: seq<Term>, ctx: Shaped, sig: Signature): Judged
    decreases args, 1
  {
    var f := Method(a, key, ctx);
    if f.None? then Unfit else
    var r := JudgeAll(args, ctx, sig);
    if r.SomeUnfit? || a !in r.ctx then Unfit else Answer(f.value, r.shapes + [r.ctx[a]], r.ctx, sig)
  }

  function JudgeAll(es: seq<Term>, ctx: Shaped, sig: Signature): JudgedAll
    decreases es, 0
  {
    if es == [] then JudgedAll(ctx, [])
    else
      var r := Judge(es[0], ctx, sig);
      if r.Unfit? then SomeUnfit else
      var rs := JudgeAll(es[1..], r.ctx, sig);
      if rs.SomeUnfit? then SomeUnfit else JudgedAll(rs.ctx, [r.shape] + rs.shapes)
  }

  // --------------------------------------------------- the translator's view

  function ShapeOf(sym: Symbol): Shape
    decreases sym
  {
    Shape(sym.ty, sym.isConst, sym.parent, map k | k in sym.symbols :: ShapeOf(sym.symbols[k]), sym.methods)
  }

  function ShapesOf(t: Table): Shaped
  {
    map x | x in t :: ShapeOf(t[x])
  }

  function ShapesOfAll(vals: seq<Operand>): (shapes: seq<Shape>)
    ensures |shapes| == |vals|
  {
    if vals == [] then [] else [ShapeOf(vals[0].sym)] + ShapesOfAll(vals[1..])
  }

  function ShapesOfSymbols(syms: seq<Symbol>): seq<Shape>
  {
    if syms == [] then [] else [ShapeOf(syms[0])] + ShapesOfSymbols(syms[1..])
  }

  function Digest(r: Outcome): Judged
  {
    if r.Failed? then Unfit else Judged(ShapesOf(r.t), ShapeOf(r.sym))
  }

  function DigestAll(r: Outcomes): JudgedAll
  {
    if r.OneFailed? then SomeUnfit else JudgedAll(ShapesOf(r.t), ShapesOfAll(r.vals))
  }

  /** Every member has a number, all the way down. */
  predicate Numbered(sym: Symbol)
    decreases sym
  {
    sym.symbols.Keys == sym.fields.Keys && forall k :: k in sym.symbols ==> Numbered(sym.symbols[k])
  }

  predicate AllNumbered(t: Table)
  {
    forall x :: x in t ==> Numbered(t[x])
  }

  predicate OperandsNumbered(vals: seq<Operand>)
  {
    forall i :: 0 <= i < |vals| ==> Numbered(vals[i].sym)
  }

  /** Whether a call is accepted, and what it returns, depends on the shapes of the arguments alone. */
  ghost predicate Follows(ev: Callee, sig: Signature)
  {
    forall f, syms ::
      && (ev(f, syms).Some? ==> Numbered(ev(f, syms).value))
      && sig(f, ShapesOfSymbols(syms)) == if ev(f, syms).None? then None else Some(ShapeOf(ev(f, syms).value))
  }

  // ------------------------------------------------------------------ lemmas

  lemma {:induction false} NumberedLike(a: Symbol, b: Symbol)
    requires a.fields == b.fields && a.symbols == b.symbols
    ensures Numbered(a) == Numbered(b)
  {
  }

  lemma {:induction false} ShapeLike(a: Symbol, b: Symbol)
    requires a.ty == b.ty && a.methods == b.methods && a.symbols == b.symbols
    ensures ShapeOf(b) == ShapeOf(a).(readOnly := b.isConst, taken := b.parent)
  {
  }

  lemma InShapes(t: Table, x: string)
    ensures x in ShapesOf(t) <==> x in t
    ensures x in t ==> ShapesOf(t)[x] == ShapeOf(t[x])
  {
  }

  lemma ShapesEntered(t: Table, x: string, sym: Symbol)
    ensures ShapesOf(t[x := sym]) == ShapesOf(t)[x := ShapeOf(sym)]
  {
    hide ShapeOf;
  }

  lemma ShapeParts(sym: Symbol)
    ensures var s := ShapeOf(sym);
      && s.ty == sym.ty && s.readOnly == sym.isConst && s.taken == sym.parent && s.methods == sym.methods
      && s.members.Keys == sym.symbols.Keys && forall k :: k in sym.symbols ==> s.members[k] == ShapeOf(sym.symbols[k])
  {
  }

  /** A walk finds the member that the path leads to. */
  lemma {:induction false} WalkJudged(sym: Symbol, path: seq<string>, next: nat)
    requires Numbered(sym)
    ensures var w := Walk(sym, path, next);
      && Part(ShapeOf(sym), path) == (if w.Lost? then None else Some(ShapeOf(w.sym)))
      && (w.Place? ==> Numbered(w.sym))
    decreases |path|
  {
    hide ShapeOf;
    ShapeParts(sym);
    if path != [] && sym.ty.Struct? && path[0] in sym.symbols {
      var c := sym.symbols[path[0]].(ptr := next);
      NumberedLike(sym.symbols[path[0]], c);
      ShapeLike(sym.symbols[path[0]], c);
      ShapeParts(sym.symbols[path[0]]);
      WalkJudged(c, path[1..], next + 1);
    }
  }

  lemma ReadJudged(x: string, path: seq<string>, ev: Callee, sig: Signature, t: Table, next: nat)
    requires AllNumbered(t)
    ensures var r := TransTerm(Read(x, path), ev, t, next);
      Digest(r) == Judge(Read(x, path), ShapesOf(t), sig) && (r.Done? ==> r.t == t && Numbered(r.sym))
  {
    hide ShapeOf, Walk, Part, Plains;
    InShapes(t, x);
    if x in t {
      WalkJudged(t[x], path, next);
    }
  }

  lemma {:induction false} SymbolsShaped(vals: seq<Operand>)
    ensures ShapesOfSymbols(Symbols(vals)) == ShapesOfAll(vals)
  {
    if vals != [] {
      assert Symbols(vals)[1..] == Symbols(vals[1..]);
      SymbolsShaped(vals[1..]);
    }
  }

  /** The symbol of a literal. */
  lemma BuiltJudged(keys: seq<string>, vals: seq<Operand>, methods: map<string, nat>, n: nat)
    requires OperandsNumbered(vals)
    ensures var sym := Built(Keyed(keys, vals), methods, n);
      && Numbered(sym)
      && ShapeOf(sym) == Shape(Struct(ElementTypes(keys, ShapesOfAll(vals))), false, false,
                               MembersOf(keys, ShapesOfAll(vals)), methods)
  {
    hide ShapeOf, Numbered;
    var ms := Keyed(keys, vals);
    var sym := Built(ms, methods, n);
    TypesJudged(keys, vals);
    KeyedNumbered(keys, vals);
    FieldsNumbered(ms, 0, n);
    MembersJudged(keys, vals, ms, 0, n);
    assert ms[0..] == ms && keys[0..] == keys && vals[0..] == vals;
    ShapeParts(sym);
    SymbolNumbered(sym);
    assert ShapeOf(sym).members == MembersOf(keys, ShapesOfAll(vals));
  }

  lemma SymbolNumbered(sym: Symbol)
    requires sym.symbols.Keys == sym.fields.Keys && forall k :: k in sym.symbols ==> Numbered(sym.symbols[k])
    ensures Numbered(sym)
  {
  }

  lemma {:induction false} TypesJudged(keys: seq<string>, vals: seq<Operand>)
    ensures TypesOf(Keyed(keys, vals)) == ElementTypes(keys, ShapesOfAll(vals))
  {
    if keys != [] && vals != [] {
      TypesJudged(keys[1..], vals[1..]);
      assert ShapesOfAll(vals)[1..] == ShapesOfAll(vals[1..]);
      assert Keyed(keys, vals)[1..] == Keyed(keys[1..], vals[1..]);
    }
  }

  lemma {:induction false} KeyedNumbered(keys: seq<string>, vals: seq<Operand>)
    requires OperandsNumbered(vals)
    ensures forall i :: 0 <= i < |Keyed(keys, vals)| ==> Numbered(Keyed(keys, vals)[i].sym)
  {
    hide Numbered;
    if keys != [] && vals != [] {
      KeyedNumbered(keys[1..], vals[1..]);
    }
  }

  lemma {:induction false} FieldsNumbered(ms: seq<Given>, k: nat, n: nat)
    requires k <= |ms| && forall i :: 0 <= i < |ms| ==> Numbered(ms[i].sym)
    ensures FieldsFrom(ms, k).Keys == SymbolsFrom(ms, k, n).Keys
    ensures forall l :: l in SymbolsFrom(ms, k, n) ==> Numbered(SymbolsFrom(ms, k, n)[l])
    decreases |ms| - k
  {
    hide Numbered;
    if k < |ms| {
      FieldsNumbered(ms, k + 1, n);
      NumberedLike(ms[k].sym, ms[k].sym.(ptr := n + 1 + k, parent := true));
    }
  }

  /** The members from the k-th on. */
  lemma {:induction false} MembersJudged(keys: seq<string>, vals: seq<Operand>, ms: seq<Given>, k: nat, n: nat)
    requires ms == Keyed(keys, vals) && k <= |ms| && k <= |keys| && k <= |vals|
    ensures var ss := SymbolsFrom(ms, k, n);
      MembersOf(keys[k..], ShapesOfAll(vals[k..])) == map l | l in ss :: ShapeOf(ss[l])
    decreases |ms| - k
  {
    hide ShapeOf;
    KeyedAt(keys, vals);
    if k < |ms| {
      MembersJudged(keys, vals, ms, k + 1, n);
      assert keys[k..][1..] == keys[k + 1..] && vals[k..][1..] == vals[k + 1..];
      assert ShapesOfAll(vals[k..])[1..] == ShapesOfAll(vals[k + 1..]);
      ShapeLike(ms[k].sym, ms[k].sym.(ptr := n + 1 + k, parent := true));
      ShapeParts(ms[k].sym);
    }
  }

  lemma {:induction false} KeyedAt(keys: seq<string>, vals: seq<Operand>)
    ensures var ms := Keyed(keys, vals);
      && |ms| == (if |keys| < |vals| then |keys| else |vals|)
      && forall i :: 0 <= i < |ms| ==> ms[i] == Given(keys[i], vals[i].v, vals[i].sym)
  {
    if keys != [] && vals != [] {
      KeyedAt(keys[1..], vals[1..]);
    }
  }

  lemma InvokeJudged(f: nat, r: Outcomes, ev: Callee, sig: Signature)
    requires r.AllDone? && Follows(ev, sig)
    ensures var d := Invoke(f, r, ev);
      && Digest(d) == Answer(f, ShapesOfAll(r.vals), ShapesOf(r.t), sig) && (d.Done? ==> d.t == r.t && Numbered(d.sym))
  {
    hide ShapeOf, Numbered;
    SymbolsShaped(r.vals);
    var out := ev(f, Symbols(r.vals));
    assert sig(f, ShapesOfSymbols(Symbols(r.vals))) == if out.None? then None else Some(ShapeOf(out.value));
    if out.Some? {
      ShapeLike(out.value, Returned(out.value, r.next));
      NumberedLike(out.value, Returned(out.value, r.next));
    }
  }

  lemma DeclareJudged(x: string, mut: bool, r: Outcome)
    requires r.Done? && AllNumbered(r.t) && Numbered(r.sym)
    ensures var d, s := Declare(x, mut, r), ShapeOf(r.sym).(readOnly := !mut);
      Digest(d) == Judged(ShapesOf(r.t)[x := s], s) && AllNumbered(d.t) && Numbered(d.sym)
  {
    hide ShapeOf, Numbered;
    var here, now := r.sym.(ptr := r.next, isConst := !mut), r.sym.(isConst := !mut);
    ShapeLike(r.sym, here);
    ShapeLike(r.sym, now);
    ShapeParts(r.sym);
    NumberedLike(r.sym, here);
    NumberedLike(r.sym, now);
    ShapesEntered(r.t, x, here);
  }

  /** A place below a variable is taken from it. */
  lemma ReplaceJudged(x: string, path: seq<string>, place: Symbol, r: Outcome)
    requires r.Done? && AllNumbered(r.t) && Numbered(r.sym) && (path == [] || place.parent)
    ensures var d := Replace(place, Name(x, path), r);
      && Digest(d) == Overwritten(x, path, ShapeOf(place), Digest(r))
      && (d.Done? ==> AllNumbered(d.t) && Numbered(d.sym))
  {
    hide ShapeOf, Numbered;
    var here := r.sym.(ptr := place.ptr);
    ShapeLike(r.sym, here);
    ShapeParts(r.sym);
    ShapeParts(place);
    NumberedLike(r.sym, here);
    ShapesEntered(r.t, x, here);
  }

  lemma AfterJudged(code: seq<Op>, r: Outcome)
    ensures Digest(After(code, r)) == Digest(r)
  {
  }

  lemma MethodJudged(a: string, key: string, t: Table)
    ensures Found(a, key, t) == Method(a, key, ShapesOf(t))
  {
    InShapes(t, a);
  }

  // -------------------------------------------------------------- acceptance

  ghost predicate Fine(t: Table)
  {
    AllOwned(t) && AllNumbered(t)
  }

  /** What is accepted keeps tables in order. */
  ghost predicate FineAfter(r: Outcome)
  {
    r.Done? ==> AllNumbered(r.t) && Numbered(r.sym)
  }

  /** The rules decide: a term is translated exactly if they accept it, wherever registers and cells are, and
      the variables and the value get the shapes that they say. */
  lemma {:induction false} TermJudged(e: Term, ev: Callee, sig: Signature, t: Table, next: nat)
    requires Fine(t) && ReturnsOwned(ev) && Follows(ev, sig)
    ensures Digest(TransTerm(e, ev, t, next)) == Judge(e, ShapesOf(t), sig) && FineAfter(TransTerm(e, ev, t, next))
    decreases e, 2
  {
    hide TransTerms, JudgeAll, ShapeOf, Numbered, ReturnsOwned, Follows, AllOwned, TransChoice, JudgeChoice, TransCall,
         JudgeCall, TransExpr, Walk, Part, Replace, Overwritten, Invoke, Answer, Built, Fill, Plains;
    match e
    case Literal(v) => LiteralJudged(v, ev, sig, t, next);
    case Read(x, path) => ReadJudged(x, path, ev, sig, t, next);
    case Build(keys, vals, methods) =>
      hide ShapesOf, ElementTypes, MembersOf;
      TermsJudged(vals, ev, sig, t, next);
      var r := TransTerms(vals, ev, t, next);
      if r.AllDone? {
        BuiltJudged(keys, r.vals, methods, r.next);
      }
    case Assign(x, mut, path, e1) => AssignJudged(e, ev, sig, t, next);
    case DotCall(a, key, args) =>
      hide ShapesOf, Found, Method;
      MethodJudged(a, key, t);
      TermsJudged(args, ev, sig, t, next);
      var r := TransTerms(args, ev, t, next);
      if Found(a, key, t).Some? && r.AllDone? {
        InvokeJudged(Found(a, key, t).value, r, ev, sig);
      }
    case MethodCall(a, key, args) => CallJudged(a, key, args, ev, sig, t, next);
    case MethodSet(a, key, args) =>
      CallJudged(a, key, args, ev, sig, t, next);
      var r := TransCall(a, key, args, ev, t, next);
      if r.Done? {
        InShapes(r.t, a);
        if a in r.t {
          ReplaceJudged(a, [], r.t[a], r);
        }
      }
    case Choice(_, _, _) => ChoiceJudged(e, ev, sig, t, next);
  }

  lemma LiteralJudged(v: Words.Val, ev: Callee, sig: Signature, t: Table, next: nat)
    requires AllNumbered(t)
    ensures var r := TransTerm(Literal(v), ev, t, next);
      Digest(r) == Judge(Literal(v), ShapesOf(t), sig) && FineAfter(r)
  {
    ShapeParts(Bare(Word(TypeOf(v))));
  }

  lemma {:induction false} TermsJudged(es: seq<Term>, ev: Callee, sig: Signature, t: Table, next: nat)
    requires Fine(t) && ReturnsOwned(ev) && Follows(ev, sig)
    ensures var r := TransTerms(es, ev, t, next);
      && DigestAll(r) == JudgeAll(es, ShapesOf(t), sig)
      && (r.AllDone? ==> AllNumbered(r.t) && OperandsNumbered(r.vals))
    decreases es, 0
  {
    hide TransTerm, Judge, ShapeOf, ShapesOf, Numbered, ReturnsOwned, Follows, AllOwned;
    if es != [] {
      TermJudged(es[0], ev, sig, t, next);
      var r := TransTerm(es[0], ev, t, next);
      if r.Done? {
        TermKeeps(es[0], ev, t, next);
        TermsJudged(es[1..], ev, sig, r.t, r.next);
      }
    }
  }

  lemma {:induction false} CallJudged(a: string, key: string, args: seq<Term>, ev: Callee, sig: Signature, t: Table,
                                      next: nat)
    requires Fine(t) && ReturnsOwned(ev) && Follows(ev, sig)
    ensures Digest(TransCall(a, key, args, ev, t, next)) == JudgeCall(a, key, args, ShapesOf(t), sig)
    ensures FineAfter(TransCall(a, key, args, ev, t, next))
    decreases args, 1
  {
    hide TransTerms, JudgeAll, ShapeOf, ShapesOf, Numbered, ReturnsOwned, Follows, AllOwned, Invoke, Answer, Method,
         TransExpr;
    MethodJudged(a, key, t);
    TermsJudged(args, ev, sig, t, next);
    var r := TransTerms(args, ev, t, next);
    if Found(a, key, t).Some? && r.AllDone? {
      TermsKeep(args, ev, t, next);
      InShapes(r.t, a);
      ReceiverRead(a, t, r);
      var all := WithReceiver(a, r);
      ShapesSnoc(r.vals, Operand(Reg(r.t[a].ptr), r.t[a]));
      InvokeJudged(Found(a, key, t).value, all, ev, sig);
    }
  }

  lemma ReceiverRead(a: string, t: Table, r: Outcomes)
    requires r.AllDone? && a in t && t[a].ty.Struct? && Keeps(t, r.t)
    ensures a in r.t
    ensures WithReceiver(a, r) ==
      AllDone(r.code + Plains([]), r.next, r.t, r.vals + [Operand(Reg(r.t[a].ptr), r.t[a])])
  {
    ReadWhole(a, r.t, r.next);
  }

  lemma {:induction false} ShapesSnoc(vals: seq<Operand>, x: Operand)
    ensures ShapesOfAll(vals + [x]) == ShapesOfAll(vals) + [ShapeOf(x.sym)]
    decreases |vals|
  {
    hide ShapeOf;
    if vals == [] {
      assert vals + [x] == [x] && [x][1..] == [];
    } else {
      assert (vals + [x])[1..] == vals[1..] + [x] && (vals + [x])[0] == vals[0];
      ShapesSnoc(vals[1..], x);
    }
  }

  lemma {:induction false} AssignJudged(e: Term, ev: Callee, sig: Signature, t: Table, next: nat)
    requires e.Assign? && Fine(t) && ReturnsOwned(ev) && Follows(ev, sig)
    ensures Digest(TransTerm(e, ev, t, next)) == Judge(e, ShapesOf(t), sig) && FineAfter(TransTerm(e, ev, t, next))
    decreases e, 1
  {
    hide ShapeOf, Numbered, ReturnsOwned, Follows, Replace, Overwritten, Declare, Part, Walk, ShapesOf, Owned, Plains;
    var x, path := e.x, e.path;
    InShapes(t, x);
    if path == [] && x !in t {
      TermJudged(e.e, ev, sig, t, next);
      var r := TransTerm(e.e, ev, t, next);
      if r.Done? {
        DeclareJudged(x, e.mut, r);
      }
    } else if x in t {
      WalkJudged(t[x], path, next);
      var w := Walk(t[x], path, next);
      if w.Place? {
        TermJudged(e.e, ev, sig, t, w.next);
        WalkOwned(t[x], path, next);
        var r := TransTerm(e.e, ev, t, w.next);
        if r.Done? {
          ReplaceJudged(x, path, w.sym, r);
          AfterJudged(Plains(w.code), Replace(w.sym, Name(x, path), r));
        } else {
          NothingOverwritten(x, path, ShapeOf(w.sym));
        }
      }
    }
  }

  lemma NothingOverwritten(x: string, path: seq<string>, place: Shape)
    ensures Overwritten(x, path, place, Unfit) == Unfit
  {
  }

  lemma {:induction false} ChoiceJudged(e: Term, ev: Callee, sig: Signature, t: Table, next: nat)
    requires e.Choice? && Fine(t) && ReturnsOwned(ev) && Follows(ev, sig)
    ensures Digest(TransChoice(e, ev, t, next)) == JudgeChoice(e, ShapesOf(t), sig)
    ensures FineAfter(TransChoice(e, ev, t, next))
    decreases e, 1
  {
    hide ShapeOf, Numbered, ReturnsOwned, Follows, Decide, Either, ShapesOf, AllOwned, Plains, AllNumbered, TransTerm,
         Judge;
    TermJudged(e.c, ev, sig, t, next);
    var rc := TransTerm(e.c, ev, t, next);
    if rc.Done? {
      TermKeeps(e.c, ev, t, next);
      TermJudged(e.thn, ev, sig, rc.t, rc.next);
      var rx := TransTerm(e.thn, ev, rc.t, rc.next);
      if rx.Done? {
        TermKeeps(e.thn, ev, rc.t, rc.next);
        TermJudged(e.els, ev, sig, rx.t, rx.next);
        var ry := TransTerm(e.els, ev, rx.t, rx.next);
        if ry.Done? {
          EitherJudged(rc, rx, ry);
        }
      }
    }
  }

  lemma EitherJudged(rc: Outcome, rx: Outcome, ry: Outcome)
    requires rc.Done? && rx.Done? && ry.Done? && Numbered(rx.sym) && Numbered(ry.sym) && AllNumbered(ry.t)
    ensures var d := Decide(rc, rx, ry);
      Digest(d) == Either(Digest(rc), Digest(rx), Digest(ry)) && FineAfter(d)
  {
    hide ShapeOf;
    ShapeParts(rc.sym);
    ShapeParts(rx.sym);
    ShapeParts(ry.sym);
    ShapeLike(rx.sym, Picked(rx.sym, ry.next));
    NumberedLike(rx.sym, Picked(rx.sym, ry.next));
  }

  // --------------------------------------------------- scopes and conditionals

  /** Of the fragment without calls: no function is ever asked. */
  function NoFunction(f: nat, shapes: seq<Shape>): Option<Shape>
  {
    None
  }

  function NoCallee(f: nat, syms: seq<Symbol>): Option<Symbol>
  {
    None
  }

  function AsTerm(s: Stmt): Term
  {
    Assign(s.x, s.mut, s.path, Embedded(s.e))
  }

  /** A line's variables behind it; scopes and arms have their own. */
  function JudgeLine(l: Scopes.Line, ctx: Shaped): Option<Shaped>
    decreases l, 1
  {
    match l
    case One(s) =>
      var r := Judge(AsTerm(s), ctx, NoFunction);
      if r.Unfit? then None else Some(r.ctx)
    case Scope(body) => if body == [] || JudgeLines(body, ctx).None? then None else Some(ctx)
    case If(c, thn, els) =>
      var r := Judge(Embedded(c), ctx, NoFunction);
      if r.Unfit? || r.shape.ty != Word(I1) || JudgeLines(thn, ctx).None? || JudgeLines(els, ctx).None? then None
      else Some(ctx)
  }

  function JudgeLines(ls: seq<Scopes.Line>, ctx: Shaped): Option<Shaped>
    decreases ls, 0
  {
    if ls == [] then Some(ctx)
    else
      var r := JudgeLine(ls[0], ctx);
      if r.None? then None else JudgeLines(ls[1..], r.value)
  }

  function DigestLine(r: Scopes.Lined): Option<Shaped>
  {
    if r.Bad? then None else Some(ShapesOf(r.t))
  }

  lemma NothingCalled()
    ensures ReturnsOwned(NoCallee) && Follows(NoCallee, NoFunction)
  {
  }

  /** Single statements, as in Aggregates. */
  lemma StmtJudged(s: Stmt, t: Table, next: nat)
    requires Fine(t)
    ensures var r, j := TransStmt(s, t, next), Judge(AsTerm(s), ShapesOf(t), NoFunction);
      && (r.Changed? <==> j.Judged?)
      && (r.Changed? ==> j.ctx == ShapesOf(r.t) && Fine(r.t))
  {
    hide TransTerm, Judge, TransStmt, ShapesOf, Follows, ReturnsOwned, AllOwned, AllNumbered, Numbered, ShapeOf;
    NothingCalled();
    EmbeddedStmt(s, NoCallee, t, next);
    TermJudged(AsTerm(s), NoCallee, NoFunction, t, next);
    if TransStmt(s, t, next).Changed? {
      StmtOwned(s, t, next);
    }
  }

  lemma ExprJudged(e: Expr, t: Table, next: nat)
    requires Fine(t)
    ensures var r, j := TransExpr(e, t, next), Judge(Embedded(e), ShapesOf(t), NoFunction);
      && (r.Ok? <==> j.Judged?)
      && (r.Ok? ==> j.shape == ShapeOf(r.sym) && j.shape.ty == r.sym.ty)
  {
    hide TransTerm, Judge, TransExpr, ShapesOf, Follows, ReturnsOwned, AllOwned, AllNumbered, Numbered, Plains;
    NothingCalled();
    EmbeddedTrans(e, NoCallee, t, next);
    TermJudged(Embedded(e), NoCallee, NoFunction, t, next);
    if TransExpr(e, t, next).Ok? {
      ShapeParts(TransExpr(e, t, next).sym);
    }
  }

  lemma {:induction false} LineJudged(l: Scopes.Line, t: Table, next: nat)
    requires Fine(t)
    ensures var r := Scopes.TransLine(l, t, next);
      DigestLine(r) == JudgeLine(l, ShapesOf(t)) && (r.Good? ==> Fine(r.t))
    decreases l, 1
  {
    hide ShapesOf, ShapeOf, TransStmt, TransExpr, Judge, Fine;
    match l
    case One(s) => StmtJudged(s, t, next);
    case Scope(body) => LinesJudged(body, t, next);
    case If(c, thn, els) =>
      ExprJudged(c, t, next);
      var rc := TransExpr(c, t, next);
      if rc.Ok? {
        LinesJudged(thn, t, rc.next);
        var r1 := Scopes.TransLines(thn, t, rc.next);
        if r1.Good? {
          LinesJudged(els, t, r1.next);
        }
      }
  }

  /** Programs with scopes are accepted exactly by the rules. */
  lemma {:induction false} LinesJudged(ls: seq<Scopes.Line>, t: Table, next: nat)
    requires Fine(t)
    ensures var r := Scopes.TransLines(ls, t, next);
      DigestLine(r) == JudgeLines(ls, ShapesOf(t)) && (r.Good? ==> Fine(r.t))
    decreases ls, 0
  {
    hide ShapesOf, Fine;
    if ls != [] {
      LineJudged(ls[0], t, next);
      var r := Scopes.TransLine(ls[0], t, next);
      if r.Good? {
        LinesJudged(ls[1..], r.t, r.next);
      }
    }
  }
}
