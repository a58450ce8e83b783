/** Calls of a structure's own functions: `a.b(args)`, `a.:b(args)` and `a.=b(args)`. The last one is
    documented as `a = a.:b(args)`; the two differ in the moment at which the variable is visited. */
module Objective {
  import opened Words
  import opened Aggregates
  import opened StructNames

  /** Operands: what stands in member lists, argument lists and right of `=`, assignments included. */
  datatype Term =
    | Literal(v: Words.Val)
    | Read(x: string, path: seq<string>)
    | Build(keys: seq<string>, vals: seq<Term>, methods: map<string, nat>)
    | Assign(x: string, mut: bool, path: seq<string>, e: Term)
    | DotCall(a: string, key: string, args: seq<Term>)       // a.key(args)
    | MethodCall(a: string, key: string, args: seq<Term>)    // a.:key(args)
    | MethodSet(a: string, key: string, args: seq<Term>)     // a.=key(args)
    | Choice(c: Term, thn: Term, els: Term)                  // c ? thn : els

  datatype Op = Plain(i: Instr) | Call(dst: nat, callee: nat, operands: seq<Opd>)

  datatype Operand = Operand(v: Opd, sym: Symbol)

  /** What evaluating function f on the given arguments returns, if it is accepted on them. */
  type Callee = (nat, seq<Symbol>) -> Option<Symbol>

  datatype Outcome = Done(code: seq<Op>, next: nat, t: Table, v: Opd, sym: Symbol) | Failed

  datatype Outcomes = AllDone(code: seq<Op>, next: nat, t: Table, vals: seq<Operand>) | OneFailed

  function Plains(code: seq<Instr>): (ops: seq<Op>)
    ensures |ops| == |code|
  {
    if code == [] then [] else [Plain(code[0])] + Plains(code[1..])
  }

  function Symbols(vals: seq<Operand>): (syms: seq<Symbol>)
    ensures |syms| == |vals| && forall i :: 0 <= i < |vals| ==> syms[i] == vals[i].sym
  {
    if vals == [] then [] else [vals[0].sym] + Symbols(vals[1..])
  }

  function Values(vals: seq<Operand>): (opds: seq<Opd>)
    ensures |opds| == |vals| && forall i :: 0 <= i < |vals| ==> opds[i] == vals[i].v
  {
    if vals == [] then [] else [vals[0].v] + Values(vals[1..])
  }

  /** The members of a literal: the i-th key with the i-th value. */
  function Keyed(keys: seq<string>, vals: seq<Operand>): seq<Given>
  {
    if keys == [] || vals == [] then []
    else [Given(keys[0], vals[0].v, vals[0].sym)] + Keyed(keys[1..], vals[1..])
  }

  /** A call is a new value: neither read-only nor taken from a structure. */
  function Returned(sym: Symbol, r: nat): Symbol
  {
    sym.(ptr := r, isConst := false, parent := false)
  }

  function Lifted(r: Result, t: Table): Outcome
  {
    if r.Err? then Failed else Done(Plains(r.code), r.next, t, r.v, r.sym)
  }

  /** The function member called: only functions can be. */
  function Found(a: string, key: string, t: Table): Option<nat>
  {
    if a in t && t[a].ty.Struct? && key in t[a].methods then Some(t[a].methods[key]) else None
  }

  /** Evaluate the function on translated arguments and emit the call. */
  function Invoke(f: nat, r: Outcomes, ev: Callee): Outcome
    requires r.AllDone?
  {
    var out := ev(f, Symbols(r.vals));
    if out.None? then Failed else
    Done(r.code + [Call(r.next, f, Values(r.vals))], r.next + 1, r.t, Reg(r.next), Returned(out.value, r.next))
  }

  /** The receiver, visited behind the arguments. */
  function WithReceiver(a: string, r: Outcomes): Outcomes
    requires r.AllDone?
  {
    var self := TransExpr(Get(a, []), r.t, r.next);
    if self.Err? then OneFailed else
    AllDone(r.code + Plains(self.code), self.next, r.t, r.vals + [Operand(self.v, self.sym)])
  }

  /** A first assignment: a cell, a copy, an entry. */
  function Declare(x: string, mut: bool, r: Outcome): Outcome
    requires r.Done?
  {
    Done(r.code + Plains([Alloca(r.next, r.sym.ty), CopyTo(r.next, r.v, r.sym)]), r.next + 1,
         r.t[x := r.sym.(ptr := r.next, isConst := !mut)], r.v, r.sym.(isConst := !mut))
  }

  /** An assignment to a place that was visited before. */
  function Replace(place: Symbol, name: string, r: Outcome): Outcome
    requires r.Done?
  {
    if place.isConst || place.ty != r.sym.ty then Failed else
    Done(r.code + Plains([CopyTo(place.ptr, r.v, r.sym)]), r.next, Entered(r.t, place, name, r.sym), r.v, r.sym)
  }

  function After(code: seq<Op>, r: Outcome): Outcome
  {
    if r.Failed? then Failed else Done(code + r.code, r.next, r.t, r.v, r.sym)
  }

  function TransTerm(e: Term, ev: Callee, t: Table, next: nat): Outcome
    decreases e, 1
  {
    match e
    case Literal(v) => Done([], next, t, Const(Bits(v)), Bare(Word(TypeOf(v))))
    case Read(x, path) => Lifted(TransExpr(Get(x, path), t, next), t)
    case Build(keys, vals, methods) =>
      var r := TransTerms(vals, ev, t, next);
      if r.OneFailed? then Failed else
      var members := Keyed(keys, r.vals);
      Done(r.code + Plains([Alloca(r.next, Struct(TypesOf(members)))] + Fill(members, 0, r.next)),
           r.next + 1 + |members|, r.t, Reg(r.next), Built(members, methods, r.next))
    case Assign(x, mut, path, e1) =>
      if path == [] && x !in t then
        var r := TransTerm(e1, ev, t, next);
        if r.Failed? then Failed else Declare(x, mut, r)
      else if x !in t then Failed
      else
        var w := Walk(t[x], path, next);
        if w.Lost? then Failed else
        var r := TransTerm(e1, ev, t, w.next);
        if r.Failed? then Failed else After(Plains(w.code), Replace(w.sym, Name(x, path), r))
    case DotCall(a, key, args) =>
      var f := Found(a, key, t);
      if f.None? then Failed else
      var r := TransTerms(args, ev, t, next);
      if r.OneFailed? then Failed else Invoke(f.value, r, ev)
    case MethodCall(a, key, args) => TransCall(a, key, args, ev, t, next)
    case MethodSet(a, key, args) =>
      var r := TransCall(a, key, args, ev, t, next);
      if r.Failed? || a !in r.t then Failed else Replace(r.t[a], a, r)
    case Choice(_, _, _) => TransChoice(e, ev, t, next)
  }

  /** All three operands of a choice, one after the other. */
  function TransChoice(e: Term, ev: Callee, t: Table, next: nat): Outcome
    requires e.Choice?
    decreases e, 0
  {
    var rc := TransTerm(e.c, ev, t, next);
    if rc.Failed? then Failed else
    var rx := TransTerm(e.thn, ev, rc.t, rc.next);
    if rx.Failed? then Failed else
    var ry := TransTerm(e.els, ev, rx.t, rx.next);
    if ry.Failed? then Failed else Decide(rc, rx, ry)
  }

  /** A choice between two translated values, as in Aggregates. */
  function Decide(rc: Outcome, rx: Outcome, ry: Outcome): Outcome
    requires rc.Done? && rx.Done? && ry.Done?
  {
    if rc.sym.ty != Word(I1) || rx.sym.ty != ry.sym.ty || rx.sym.fields.Keys != ry.sym.fields.Keys then Failed else
    Done(rc.code + rx.code + ry.code + Plains([Pick(ry.next, rc.v, rx.v, ry.v)]), ry.next + 1, ry.t, Reg(ry.next),
         Picked(rx.sym, ry.next))
  }

  function TransCall(a: string, key: string, args: seq<Term>, ev: Callee, t: Table, next: nat): Outcome
    decreases args, 1
  {
    var f := Found(a, key, t);
    if f.None? then Failed else
    var r := TransTerms(args, ev, t, next);
    if r.OneFailed? then Failed else
    var all := WithReceiver(a, r);
    if all.OneFailed? then Failed else Invoke(f.value, all, ev)
  }

  /** Operands, from left to right. */
  function TransTerms(es: seq<Term>, ev: Callee, t: Table, next: nat): Outcomes
    decreases es, 0
  {
    if es == [] then AllDone([], next, t, [])
    else
      var r := TransTerm(es[0], ev, t, next);
      if r.Failed? then OneFailed else
      var rs := TransTerms(es[1..], ev, r.t, r.next);
      if rs.OneFailed? then OneFailed else
      AllDone(r.code + rs.code, rs.next, rs.t, [Operand(r.v, r.sym)] + rs.vals)
  }

  // ------------------------------------------------------------ what is kept

  /** Declared variables stay declared, in their cells and with their types. */
  predicate Keeps(t: Table, t': Table)
  {
    forall x :: x in t ==> x in t' && t'[x].ptr == t[x].ptr && t'[x].ty == t[x].ty
  }

  /** Functions return structures whose members have a parent: the literal they were written in. */
  ghost predicate ReturnsOwned(ev: Callee)
  {
    forall f, syms :: ev(f, syms).Some? ==> Owned(ev(f, syms).value)
  }

  predicate OperandsOwned(vals: seq<Operand>)
  {
    forall i :: 0 <= i < |vals| ==> Owned(vals[i].sym)
  }

  lemma {:induction false} TermKeeps(e: Term, ev: Callee, t: Table, next: nat)
    requires TransTerm(e, ev, t, next).Done? && AllOwned(t) && ReturnsOwned(ev)
    ensures var r := TransTerm(e, ev, t, next);
      Keeps(t, r.t) && AllOwned(r.t) && Owned(r.sym)
    decreases e, 1
  {
    hide Walk, TransExpr, Fill, Owned, ReturnsOwned, Keyed, Built, Plains;
    match e
    case Literal(v) => NoMembers(TypeOf(v));
    case Read(x, path) => ExprOwned(Get(x, path), t, next);
    case Build(keys, vals, methods) =>
      TermsKeep(vals, ev, t, next);
      var r := TransTerms(vals, ev, t, next);
      BuiltOwned(keys, r.vals, methods, r.next);
    case Assign(x, mut, path, e1) =>
      if path == [] && x !in t {
        TermKeeps(e1, ev, t, next);
        DeclareKeeps(x, mut, t, TransTerm(e1, ev, t, next));
      } else {
        var w := Walk(t[x], path, next);
        TermKeeps(e1, ev, t, w.next);
        WalkOwned(t[x], path, next);
        StoreKeeps(w.sym, x, path, t, TransTerm(e1, ev, t, w.next));
      }
    case DotCall(a, key, args) =>
      TermsKeep(args, ev, t, next);
      InvokeOwned(Found(a, key, t).value, TransTerms(args, ev, t, next), ev);
    case MethodCall(a, key, args) => CallKeeps(a, key, args, ev, t, next);
    case MethodSet(a, key, args) =>
      CallKeeps(a, key, args, ev, t, next);
      var r := TransCall(a, key, args, ev, t, next);
      StoreKeeps(r.t[a], a, [], r.t, r);
    case Choice(c, x, y) =>
      var rc := TransTerm(c, ev, t, next);
      TermKeeps(c, ev, t, next);
      var rx := TransTerm(x, ev, rc.t, rc.next);
      TermKeeps(x, ev, rc.t, rc.next);
      var ry := TransTerm(y, ev, rx.t, rx.next);
      TermKeeps(y, ev, rx.t, rx.next);
      OwnedLike(rx.sym, Picked(rx.sym, ry.next));
  }

  lemma {:induction false} CallKeeps(a: string, key: string, args: seq<Term>, ev: Callee, t: Table, next: nat)
    requires TransCall(a, key, args, ev, t, next).Done? && AllOwned(t) && ReturnsOwned(ev)
    ensures var r := TransCall(a, key, args, ev, t, next);
      Keeps(t, r.t) && AllOwned(r.t) && Owned(r.sym)
    decreases args, 1
  {
    hide Owned, ReturnsOwned, TransExpr;
    TermsKeep(args, ev, t, next);
    InvokeOwned(Found(a, key, t).value, WithReceiver(a, TransTerms(args, ev, t, next)), ev);
  }

  lemma {:induction false} TermsKeep(es: seq<Term>, ev: Callee, t: Table, next: nat)
    requires TransTerms(es, ev, t, next).AllDone? && AllOwned(t) && ReturnsOwned(ev)
    ensures var r := TransTerms(es, ev, t, next);
      Keeps(t, r.t) && AllOwned(r.t) && OperandsOwned(r.vals)
    decreases es, 0
  {
    hide Owned, ReturnsOwned;
    if es != [] {
      TermKeeps(es[0], ev, t, next);
      var r := TransTerm(es[0], ev, t, next);
      TermsKeep(es[1..], ev, r.t, r.next);
    }
  }

  lemma NoMembers(ty: Ty)
    ensures Owned(Bare(Word(ty)))
  {
  }

  lemma InvokeOwned(f: nat, r: Outcomes, ev: Callee)
    requires r.AllDone? && Invoke(f, r, ev).Done? && ReturnsOwned(ev)
    ensures Owned(Invoke(f, r, ev).sym) && Invoke(f, r, ev).t == r.t
  {
    var out := ev(f, Symbols(r.vals)).value;
    OwnedLike(out, Returned(out, r.next));
  }

  lemma DeclareKeeps(x: string, mut: bool, t: Table, r: Outcome)
    requires r.Done? && x !in t && Keeps(t, r.t) && AllOwned(r.t) && Owned(r.sym)
    ensures var d := Declare(x, mut, r);
      Keeps(t, d.t) && AllOwned(d.t) && Owned(d.sym)
  {
    hide Owned;
    OwnedLike(r.sym, r.sym.(ptr := r.next, isConst := !mut));
    OwnedLike(r.sym, r.sym.(isConst := !mut));
  }

  /** A place is a declared variable or has a parent. */
  lemma StoreKeeps(place: Symbol, x: string, path: seq<string>, t: Table, r: Outcome)
    requires r.Done? && Keeps(t, r.t) && AllOwned(r.t) && Owned(r.sym) && Replace(place, Name(x, path), r).Done?
    requires x in t && if path == [] then place == t[x] else place.parent
    ensures var d := Replace(place, Name(x, path), r);
      Keeps(t, d.t) && AllOwned(d.t) && Owned(d.sym)
  {
    hide Owned;
    OwnedLike(r.sym, r.sym.(ptr := place.ptr));
  }

  lemma BuiltOwned(keys: seq<string>, vals: seq<Operand>, methods: map<string, nat>, n: nat)
    requires OperandsOwned(vals)
    ensures Owned(Built(Keyed(keys, vals), methods, n))
  {
    KeyedOwned(keys, vals);
    SymbolsOwned(Keyed(keys, vals), 0, n);
  }

  lemma {:induction false} KeyedOwned(keys: seq<string>, vals: seq<Operand>)
    requires OperandsOwned(vals)
    ensures forall i :: 0 <= i < |Keyed(keys, vals)| ==> Owned(Keyed(keys, vals)[i].sym)
  {
    hide Owned;
    if keys != [] && vals != [] {
      KeyedOwned(keys[1..], vals[1..]);
    }
  }

  // ------------------------------------------------- free, read-only or taken

  /** What matters about a variable, or a value, when it is assigned to: a variable taken from a
      structure keeps its table entry for good, a read-only one refuses, a free one follows. */
  datatype Mark = Free | ReadOnly | Taken

  type Marks = map<string, Mark>

  /** First assignment: #mut decides, unless the value comes from a structure. */
  function Declared(v: Mark, mut: bool): Mark
  {
    if v.Taken? then Taken else if mut then Free else ReadOnly
  }

  /** The mark of an operand's value, by the rules of the language alone. */
  function ValueMark(e: Term, m: Marks): Mark
  {
    match e
    case Literal(_) => Free
    case Read(x, path) => if path != [] then Taken else if x in m then m[x] else Free
    case Build(_, _, _) => Free
    case Assign(x, mut, path, e1) =>
      if path == [] && x !in m then Declared(ValueMark(e1, m), mut) else ValueMark(e1, m)
    case DotCall(_, _, _) => Free
    case MethodCall(_, _, _) => Free
    case MethodSet(_, _, _) => Free
    case Choice(_, _, _) => Free
  }

  /** The marks of the variables after an accepted operand: only an assignment of a whole variable that
      is new or free changes anything. */
  function MarksAfter(e: Term, m: Marks): Marks
    decreases e, 1
  {
    match e
    case Literal(_) => m
    case Read(_, _) => m
    case Build(_, vals, _) => MarksAfterAll(vals, m)
    case Assign(x, mut, path, e1) =>
      var m1 := MarksAfter(e1, m);
      if path != [] then m1
      else if x !in m then m1[x := Declared(ValueMark(e1, m), mut)]
      else if m[x].Free? then m1[x := ValueMark(e1, m)]
      else m1
    case DotCall(_, _, args) => MarksAfterAll(args, m)
    case MethodCall(_, _, args) => MarksAfterAll(args, m)
    case MethodSet(_, _, args) => MarksAfterAll(args, m)
    case Choice(c, x, y) => MarksAfter(y, MarksAfter(x, MarksAfter(c, m)))
  }

  function MarksAfterAll(es: seq<Term>, m: Marks): Marks
    decreases es, 0
  {
    if es == [] then m else MarksAfterAll(es[1..], MarksAfter(es[0], m))
  }

  function MarkOf(sym: Symbol): Mark
  {
    if sym.parent then Taken else if sym.isConst then ReadOnly else Free
  }

  function MarksOf(t: Table): Marks
  {
    map x | x in t :: MarkOf(t[x])
  }

  /** The rules are what the translator does. */
  lemma {:induction false} MarksAgree(e: Term, ev: Callee, t: Table, next: nat)
    requires TransTerm(e, ev, t, next).Done? && AllOwned(t) && ReturnsOwned(ev)
    ensures var r := TransTerm(e, ev, t, next);
      MarksOf(r.t) == MarksAfter(e, MarksOf(t)) && MarkOf(r.sym) == ValueMark(e, MarksOf(t))
    decreases e, 1
  {
    hide Walk, TransExpr, Fill, Owned, ReturnsOwned, Keyed, Plains, Keeps, AllOwned, MarksOf, MarkOf, Declare, Replace,
         Invoke, Built;
    match e
    case Literal(v) => PlainMark(TypeOf(v));
    case Read(x, path) => ReadMark(x, path, t, next);
    case Build(keys, vals, methods) =>
      AllMarksAgree(vals, ev, t, next);
      var r := TransTerms(vals, ev, t, next);
      BuiltMark(Keyed(keys, r.vals), methods, r.next);
    case Assign(x, mut, path, e1) => AssignMarks(e, ev, t, next);
    case DotCall(a, key, args) =>
      AllMarksAgree(args, ev, t, next);
      InvokeMark(Found(a, key, t).value, TransTerms(args, ev, t, next), ev);
    case MethodCall(a, key, args) => CallMarks(a, key, args, ev, t, next);
    case MethodSet(a, key, args) =>
      CallMarks(a, key, args, ev, t, next);
      SetMark(a, TransCall(a, key, args, ev, t, next));
    case Choice(c, x, y) =>
      var rc := TransTerm(c, ev, t, next);
      MarksAgree(c, ev, t, next);
      TermKeeps(c, ev, t, next);
      var rx := TransTerm(x, ev, rc.t, rc.next);
      MarksAgree(x, ev, rc.t, rc.next);
      TermKeeps(x, ev, rc.t, rc.next);
      MarksAgree(y, ev, rx.t, rx.next);
      PickedMark(rx.sym, TransTerm(y, ev, rx.t, rx.next).next);
  }

  lemma PickedMark(sym: Symbol, r: nat)
    ensures MarkOf(Picked(sym, r)) == Free
  {
  }

  lemma {:induction false} AssignMarks(e: Term, ev: Callee, t: Table, next: nat)
    requires e.Assign? && TransTerm(e, ev, t, next).Done? && AllOwned(t) && ReturnsOwned(ev)
    ensures var r := TransTerm(e, ev, t, next);
      MarksOf(r.t) == MarksAfter(e, MarksOf(t)) && MarkOf(r.sym) == ValueMark(e, MarksOf(t))
    decreases e, 0
  {
    hide Walk, Owned, ReturnsOwned, Plains, Keeps, AllOwned, MarkOf, Declare, Replace, MarksOf;
    InMarks(t, e.x);
    if e.path == [] && e.x !in t {
      MarksAgree(e.e, ev, t, next);
      DeclareMark(e.x, e.mut, TransTerm(e.e, ev, t, next));
    } else {
      var w := Walk(t[e.x], e.path, next);
      MarksAgree(e.e, ev, t, w.next);
      var r := TransTerm(e.e, ev, t, w.next);
      InOwned(t, e.x);
      WalkOwned(t[e.x], e.path, next);
      StoreMark(w.sym, Name(e.x, e.path), r);
    }
  }

  lemma {:induction false} CallMarks(a: string, key: string, args: seq<Term>, ev: Callee, t: Table, next: nat)
    requires TransCall(a, key, args, ev, t, next).Done? && AllOwned(t) && ReturnsOwned(ev)
    ensures var r := TransCall(a, key, args, ev, t, next);
      MarksOf(r.t) == MarksAfterAll(args, MarksOf(t)) && MarkOf(r.sym) == Free
    decreases args, 1
  {
    hide TransExpr, Owned, ReturnsOwned, AllOwned, MarksOf, MarkOf, Invoke;
    AllMarksAgree(args, ev, t, next);
    InvokeMark(Found(a, key, t).value, WithReceiver(a, TransTerms(args, ev, t, next)), ev);
  }

  lemma {:induction false} AllMarksAgree(es: seq<Term>, ev: Callee, t: Table, next: nat)
    requires TransTerms(es, ev, t, next).AllDone? && AllOwned(t) && ReturnsOwned(ev)
    ensures MarksOf(TransTerms(es, ev, t, next).t) == MarksAfterAll(es, MarksOf(t))
    decreases es, 0
  {
    hide Owned, ReturnsOwned, AllOwned, MarksOf;
    if es != [] {
      MarksAgree(es[0], ev, t, next);
      TermKeeps(es[0], ev, t, next);
      var r := TransTerm(es[0], ev, t, next);
      AllMarksAgree(es[1..], ev, r.t, r.next);
    }
  }

  lemma PlainMark(ty: Ty)
    ensures MarkOf(Bare(Word(ty))) == Free
  {
  }

  lemma InMarks(t: Table, x: string)
    ensures x in MarksOf(t) <==> x in t
    ensures x in t ==> MarksOf(t)[x] == MarkOf(t[x])
  {
  }

  lemma InOwned(t: Table, x: string)
    requires AllOwned(t) && x in t
    ensures Owned(t[x])
  {
  }

  lemma ReadMark(x: string, path: seq<string>, t: Table, next: nat)
    requires AllOwned(t) && TransExpr(Get(x, path), t, next).Ok?
    ensures MarkOf(TransExpr(Get(x, path), t, next).sym) == ValueMark(Read(x, path), MarksOf(t))
  {
    hide Owned;
    WalkOwned(t[x], path, next);
  }

  lemma BuiltMark(vals: seq<Given>, methods: map<string, nat>, n: nat)
    ensures MarkOf(Built(vals, methods, n)) == Free
  {
  }

  lemma InvokeMark(f: nat, r: Outcomes, ev: Callee)
    requires r.AllDone? && Invoke(f, r, ev).Done?
    ensures MarkOf(Invoke(f, r, ev).sym) == Free && Invoke(f, r, ev).t == r.t
  {
  }

  lemma DeclareMark(x: string, mut: bool, r: Outcome)
    requires r.Done?
    ensures var d := Declare(x, mut, r);
      && MarkOf(d.sym) == Declared(MarkOf(r.sym), mut)
      && MarksOf(d.t) == MarksOf(r.t)[x := Declared(MarkOf(r.sym), mut)]
  {
  }

  lemma StoreMark(place: Symbol, name: string, r: Outcome)
    requires r.Done? && Replace(place, name, r).Done?
    ensures var d := Replace(place, name, r);
      && MarkOf(d.sym) == MarkOf(r.sym) && !MarkOf(place).ReadOnly?
      && MarksOf(d.t) == if place.parent then MarksOf(r.t) else MarksOf(r.t)[name := MarkOf(r.sym)]
    ensures place.parent <==> MarkOf(place).Taken?
  {
  }

  /** Assigning a call to the variable it was made on leaves the variable's mark alone. */
  lemma SetMark(a: string, r: Outcome)
    requires r.Done? && a in r.t && MarkOf(r.sym) == Free && Replace(r.t[a], a, r).Done?
    ensures var d := Replace(r.t[a], a, r);
      MarkOf(d.sym) == Free && MarksOf(d.t) == MarksOf(r.t)
  {
  }

  // --------------------------------------------------- entries that never change

  /** The entry of a read-only variable, and of one taken from a structure, never changes again. */
  lemma {:induction false} EntryStays(e: Term, ev: Callee, t: Table, next: nat, x: string)
    requires TransTerm(e, ev, t, next).Done? && AllOwned(t) && ReturnsOwned(ev) && x in t && MarkOf(t[x]) != Free
    ensures x in TransTerm(e, ev, t, next).t && TransTerm(e, ev, t, next).t[x] == t[x]
    decreases e, 1
  {
    hide Walk, TransExpr, Fill, Owned, ReturnsOwned, Keyed, Built, Plains, AllOwned, MarkOf;
    match e
    case Literal(_) =>
    case Read(_, _) =>
    case Build(_, vals, _) => EntriesStay(vals, ev, t, next, x);
    case Assign(y, _, path, e1) =>
      if path == [] && y !in t {
        EntryStays(e1, ev, t, next, x);
      } else {
        var w := Walk(t[y], path, next);
        EntryStays(e1, ev, t, w.next, x);
        InOwned(t, y);
        WalkOwned(t[y], path, next);
        StoreStays(w.sym, y, path, t, TransTerm(e1, ev, t, w.next), x);
      }
    case DotCall(_, _, args) => EntriesStay(args, ev, t, next, x);
    case MethodCall(_, _, args) => EntriesStay(args, ev, t, next, x);
    case MethodSet(a, key, args) =>
      EntriesStay(args, ev, t, next, x);
      var r := TransCall(a, key, args, ev, t, next);
      StoreStays(r.t[a], a, [], r.t, r, x);
    case Choice(c, thn, els) =>
      var rc := TransTerm(c, ev, t, next);
      EntryStays(c, ev, t, next, x);
      TermKeeps(c, ev, t, next);
      var rx := TransTerm(thn, ev, rc.t, rc.next);
      EntryStays(thn, ev, rc.t, rc.next, x);
      TermKeeps(thn, ev, rc.t, rc.next);
      EntryStays(els, ev, rx.t, rx.next, x);
  }

  lemma {:induction false} EntriesStay(es: seq<Term>, ev: Callee, t: Table, next: nat, x: string)
    requires TransTerms(es, ev, t, next).AllDone? && AllOwned(t) && ReturnsOwned(ev) && x in t && MarkOf(t[x]) != Free
    ensures x in TransTerms(es, ev, t, next).t && TransTerms(es, ev, t, next).t[x] == t[x]
    decreases es, 0
  {
    hide Owned, ReturnsOwned, AllOwned, MarkOf;
    if es != [] {
      EntryStays(es[0], ev, t, next, x);
      TermKeeps(es[0], ev, t, next);
      var r := TransTerm(es[0], ev, t, next);
      EntriesStay(es[1..], ev, r.t, r.next, x);
    }
  }

  lemma StoreStays(place: Symbol, y: string, path: seq<string>, t: Table, r: Outcome, x: string)
    requires r.Done? && Replace(place, Name(y, path), r).Done? && x in r.t && x in t && r.t[x] == t[x]
    requires y in t && (if path == [] then place == t[y] else place.parent) && MarkOf(t[x]) != Free
    ensures Replace(place, Name(y, path), r).t[x] == t[x]
  {
  }

  // ------------------------------------------------------- the two assignments

  /** a.=key(args) */
  function Objective(a: string, key: string, args: seq<Term>, ev: Callee, t: Table, next: nat): Outcome
  {
    TransTerm(MethodSet(a, key, args), ev, t, next)
  }

  /** a = a.:key(args) */
  function Written(a: string, mut: bool, key: string, args: seq<Term>, ev: Callee, t: Table, next: nat): Outcome
  {
    TransTerm(Assign(a, mut, [], MethodCall(a, key, args)), ev, t, next)
  }

  lemma Expanded(a: string, mut: bool, key: string, args: seq<Term>, ev: Callee, t: Table, next: nat)
    requires a in t
    ensures var call := TransCall(a, key, args, ev, t, next);
      && Objective(a, key, args, ev, t, next) ==
           (if call.Failed? || a !in call.t then Failed else Replace(call.t[a], a, call))
      && Written(a, mut, key, args, ev, t, next) == if call.Failed? then Failed else Replace(t[a], a, call)
  {
    hide TransCall;
    var w := Walk(t[a], [], next);
    assert w == Place([], next, t[a]);
    var call := TransTerm(MethodCall(a, key, args), ev, t, next);
    if call.Done? {
      assert Plains([]) + call.code == call.code;
      NoCodeBefore(Replace(t[a], a, call));
    }
  }

  lemma NoCodeBefore(r: Outcome)
    ensures After(Plains([]), r) == r
  {
    if r.Done? {
      assert [] + r.code == r.code;
    }
  }

  lemma StoresCompare(before: Symbol, now: Symbol, a: string, r: Outcome)
    requires r.Done? && a in r.t && r.t[a] == now
    requires before.ptr == now.ptr && before.ty == now.ty && MarkOf(r.sym) == Free
    ensures r.sym.ty != now.ty ==> Replace(before, a, r) == Replace(now, a, r) == Failed
    ensures r.sym.ty == now.ty && MarkOf(before) == Free ==>
      && Replace(before, a, r).Done?
      && (Replace(now, a, r) == Replace(before, a, r) <==> MarkOf(now) == Free)
      && (MarkOf(now) == ReadOnly ==> Replace(now, a, r).Failed?)
  {
    if MarkOf(now) == Taken && Replace(now, a, r).Done? && MarkOf(before) == Free && r.sym.ty == now.ty {
      assert Replace(before, a, r).t[a] == r.sym.(ptr := before.ptr);
    }
  }

  /** If the call is refused or returns another type than the variable's, both assignments are refused.
      If not, they emit the same code and leave the same table exactly if the variable was not free
      before, or is still free behind the arguments; an argument that makes it read-only makes `.=`
      alone fail. */
  lemma ObjectiveAssignment(a: string, mut: bool, key: string, args: seq<Term>, ev: Callee, t: Table, next: nat)
    requires AllOwned(t) && ReturnsOwned(ev)
    ensures var call := TransTerm(MethodCall(a, key, args), ev, t, next);
      var objective, written := Objective(a, key, args, ev, t, next), Written(a, mut, key, args, ev, t, next);
      if call.Failed? || a !in t || call.sym.ty != t[a].ty then objective.Failed? && written.Failed?
      else
        var before, behind := MarksOf(t)[a], MarksAfterAll(args, MarksOf(t));
        && a in behind
        && (objective == written <==> before != Free || behind[a] == Free)
        && (before == Free && behind[a] == ReadOnly ==> objective.Failed? && written.Done?)
  {
    hide TransCall, Replace, ReturnsOwned, MarksOf, MarkOf, AllOwned, Objective, Written;
    var call := TransCall(a, key, args, ev, t, next);
    assert TransTerm(MethodCall(a, key, args), ev, t, next) == call;
    if a in t {
      Expanded(a, mut, key, args, ev, t, next);
      if call.Done? {
        CallKeeps(a, key, args, ev, t, next);
        CallMarks(a, key, args, ev, t, next);
        InMarks(t, a);
        InMarks(call.t, a);
        StoresCompare(t[a], call.t[a], a, call);
        if MarkOf(t[a]) != Free {
          CallStays(a, key, args, ev, t, next);
        }
      }
    } else {
      Undeclared(a, mut, key, args, ev, t, next);
    }
  }

  lemma CallStays(a: string, key: string, args: seq<Term>, ev: Callee, t: Table, next: nat)
    requires TransCall(a, key, args, ev, t, next).Done? && AllOwned(t) && ReturnsOwned(ev)
    requires a in t && MarkOf(t[a]) != Free
    ensures a in TransCall(a, key, args, ev, t, next).t && TransCall(a, key, args, ev, t, next).t[a] == t[a]
  {
    EntriesStay(args, ev, t, next, a);
  }

  lemma Undeclared(a: string, mut: bool, key: string, args: seq<Term>, ev: Callee, t: Table, next: nat)
    requires a !in t
    ensures TransCall(a, key, args, ev, t, next).Failed?
    ensures Objective(a, key, args, ev, t, next).Failed? && Written(a, mut, key, args, ev, t, next).Failed?
  {
    assert TransTerm(MethodCall(a, key, args), ev, t, next).Failed?;
  }

  /** Some assignment of the whole variable a is among the operands. */
  predicate Reassigns(e: Term, a: string)
    decreases e, 1
  {
    match e
    case Literal(_) => false
    case Read(_, _) => false
    case Build(_, vals, _) => ReassignsAny(vals, a)
    case Assign(x, _, path, e1) => (x == a && path == []) || Reassigns(e1, a)
    case DotCall(_, _, args) => ReassignsAny(args, a)
    case MethodCall(_, _, args) => ReassignsAny(args, a)
    case MethodSet(_, _, args) => ReassignsAny(args, a)
    case Choice(c, x, y) => Reassigns(c, a) || Reassigns(x, a) || Reassigns(y, a)
  }

  predicate ReassignsAny(es: seq<Term>, a: string)
    decreases es, 0
  {
    es != [] && (Reassigns(es[0], a) || ReassignsAny(es[1..], a))
  }

  lemma {:induction false} Untouched(e: Term, a: string, m: Marks)
    requires !Reassigns(e, a) && a in m
    ensures a in MarksAfter(e, m) && MarksAfter(e, m)[a] == m[a]
    decreases e, 1
  {
    match e
    case Literal(_) =>
    case Read(_, _) =>
    case Build(_, vals, _) => AllUntouched(vals, a, m);
    case Assign(_, _, _, e1) => Untouched(e1, a, m);
    case DotCall(_, _, args) => AllUntouched(args, a, m);
    case MethodCall(_, _, args) => AllUntouched(args, a, m);
    case MethodSet(_, _, args) => AllUntouched(args, a, m);
    case Choice(c, x, y) =>
      Untouched(c, a, m);
      Untouched(x, a, MarksAfter(c, m));
      Untouched(y, a, MarksAfter(x, MarksAfter(c, m)));
  }

  lemma {:induction false} AllUntouched(es: seq<Term>, a: string, m: Marks)
    requires !ReassignsAny(es, a) && a in m
    ensures a in MarksAfterAll(es, m) && MarksAfterAll(es, m)[a] == m[a]
    decreases es, 0
  {
    if es != [] {
      Untouched(es[0], a, m);
      AllUntouched(es[1..], a, MarksAfter(es[0], m));
    }
  }

  /** The documented equation holds whenever no argument assigns the variable as a whole; `.=` inside an
      argument does no harm either. */
  lemma ObjectiveAsDocumented(a: string, mut: bool, key: string, args: seq<Term>, ev: Callee, t: Table, next: nat)
    requires AllOwned(t) && ReturnsOwned(ev) && !ReassignsAny(args, a)
    ensures Objective(a, key, args, ev, t, next) == Written(a, mut, key, args, ev, t, next)
  {
    hide TransTerm, ReturnsOwned, AllOwned, Objective, Written, MarksOf, MarksAfterAll;
    ObjectiveAssignment(a, mut, key, args, ev, t, next);
    if a in t {
      InMarks(t, a);
      AllUntouched(args, a, MarksOf(t));
    }
  }

  // ------------------------------------------------------- what a call emits

  /** What the k-th term is translated to, in the state that translating those before it leaves. */
  function Nth(es: seq<Term>, k: nat, ev: Callee, t: Table, next: nat): Outcome
    requires k < |es|
  {
    var r := TransTerm(es[0], ev, t, next);
    if r.Failed? || k == 0 then r else Nth(es[1..], k - 1, ev, r.t, r.next)
  }

  /** The instruction i of an accepted call of a's function member: its function, an operand for each
      argument, and nothing else but what comes behind them. */
  predicate Passes(i: Op, a: string, key: string, args: seq<Term>, ev: Callee, t: Table, next: nat, behind: seq<Opd>)
  {
    && i.Call? && a in t && key in t[a].methods && i.callee == t[a].methods[key]
    && |i.operands| == |args| + |behind| && i.operands[|args|..] == behind
    && forall k :: 0 <= k < |args| ==> Nth(args, k, ev, t, next).Done? && i.operands[k] == Nth(args, k, ev, t, next).v
  }

  lemma {:induction false} OperandsAre(es: seq<Term>, ev: Callee, t: Table, next: nat)
    requires TransTerms(es, ev, t, next).AllDone?
    ensures var vals := TransTerms(es, ev, t, next).vals;
      && |vals| == |es|
      && forall k :: 0 <= k < |es| ==> Nth(es, k, ev, t, next).Done? && vals[k].v == Nth(es, k, ev, t, next).v
    decreases |es|
  {
    hide TransTerm;
    if es != [] {
      var r := TransTerm(es[0], ev, t, next);
      OperandsAre(es[1..], ev, r.t, r.next);
    }
  }

  /** The last instruction of an accepted call a.key(args) calls the function with one operand for each argument,
      from left to right. */
  lemma DotCallCode(a: string, key: string, args: seq<Term>, ev: Callee, t: Table, next: nat)
    requires TransTerm(DotCall(a, key, args), ev, t, next).Done?
    ensures var r := TransTerm(DotCall(a, key, args), ev, t, next);
      && r.code != []
      && var i := r.code[|r.code| - 1];
         Passes(i, a, key, args, ev, t, next, []) && r.v == Reg(i.dst)
  {
    hide TransTerms, Nth;
    OperandsAre(args, ev, t, next);
  }

  /** Of a.:key(args), with the address of a behind them. */
  lemma MethodCallCode(a: string, key: string, args: seq<Term>, ev: Callee, t: Table, next: nat)
    requires TransTerm(MethodCall(a, key, args), ev, t, next).Done? && AllOwned(t) && ReturnsOwned(ev)
    ensures var r := TransTerm(MethodCall(a, key, args), ev, t, next);
      && r.code != [] && a in t
      && var i := r.code[|r.code| - 1];
         Passes(i, a, key, args, ev, t, next, [Reg(t[a].ptr)]) && r.v == Reg(i.dst)
  {
    hide TransTerms, Nth, Owned, ReturnsOwned, TransExpr;
    TermsKeep(args, ev, t, next);
    OperandsAre(args, ev, t, next);
    var r := TransTerms(args, ev, t, next);
    ReadWhole(a, r.t, r.next);
  }

  /** And so is the last but one of a.=key(args): the last copies what the call returns to the cell of a. */
  lemma MethodSetCode(a: string, key: string, args: seq<Term>, ev: Callee, t: Table, next: nat)
    requires TransTerm(MethodSet(a, key, args), ev, t, next).Done? && AllOwned(t) && ReturnsOwned(ev)
    ensures var r := TransTerm(MethodSet(a, key, args), ev, t, next);
      && |r.code| > 1 && a in t
      && var i := r.code[|r.code| - 2];
         && Passes(i, a, key, args, ev, t, next, [Reg(t[a].ptr)]) && r.v == Reg(i.dst)
         && r.code[|r.code| - 1] == Plain(Memcpy(t[a].ptr, i.dst))
  {
    hide TransTerms, Nth, Owned, ReturnsOwned, TransExpr, Passes;
    CallTerm(a, key, args, ev, t, next);
    MethodCallCode(a, key, args, ev, t, next);
    CallKeeps(a, key, args, ev, t, next);
    var r := TransCall(a, key, args, ev, t, next);
    CallReturns(a, key, args, ev, t, next);
    hide TransCall;
    var copy := CopyTo(r.t[a].ptr, r.v, r.sym);
    assert Plains([copy]) == [Plain(copy)] by {
      assert [copy][1..] == [];
    }
  }

  lemma CallReturns(a: string, key: string, args: seq<Term>, ev: Callee, t: Table, next: nat)
    requires TransCall(a, key, args, ev, t, next).Done?
    ensures var r := TransCall(a, key, args, ev, t, next); r.v == Reg(r.sym.ptr) && a in t && t[a].ty.Struct?
  {
    hide TransTerms, TransExpr;
  }

  // ------------------------------------------------------- the receiver as an argument

  lemma {:induction false} TermsAppend(es: seq<Term>, e: Term, ev: Callee, t: Table, next: nat)
    ensures var r := TransTerms(es, ev, t, next);
      TransTerms(es + [e], ev, t, next) ==
        if r.OneFailed? then OneFailed else
        var last := TransTerm(e, ev, r.t, r.next);
        if last.Failed? then OneFailed
        else AllDone(r.code + last.code, last.next, last.t, r.vals + [Operand(last.v, last.sym)])
    decreases |es|
  {
    if es == [] {
      assert es + [e] == [e] && [e][1..] == [];
      var last := TransTerm(e, ev, t, next);
      if last.Done? {
        assert last.code + [] == last.code && [] + last.code == last.code;
        assert [Operand(last.v, last.sym)] + [] == [] + [Operand(last.v, last.sym)];
      }
    } else {
      assert (es + [e])[0] == es[0] && (es + [e])[1..] == es[1..] + [e];
      var r := TransTerm(es[0], ev, t, next);
      if r.Done? {
        TermsAppend(es[1..], e, ev, r.t, r.next);
        var rs := TransTerms(es[1..], ev, r.t, r.next);
        if rs.AllDone? {
          AppendOutcomes(r, rs, e, ev);
        }
      }
    }
  }

  lemma AppendOutcomes(r: Outcome, rs: Outcomes, e: Term, ev: Callee)
    requires r.Done? && rs.AllDone?
    ensures var last := TransTerm(e, ev, rs.t, rs.next);
      last.Done? ==>
        && r.code + (rs.code + last.code) == r.code + rs.code + last.code
        && [Operand(r.v, r.sym)] + (rs.vals + [Operand(last.v, last.sym)]) ==
           [Operand(r.v, r.sym)] + rs.vals + [Operand(last.v, last.sym)]
  {
  }

  /** a.:b(args) is a.b(args, a), as documented: same code, same table, same refusals. */
  lemma MethodCallIsDotCall(a: string, key: string, args: seq<Term>, ev: Callee, t: Table, next: nat)
    ensures TransTerm(MethodCall(a, key, args), ev, t, next) ==
            TransTerm(DotCall(a, key, args + [Read(a, [])]), ev, t, next)
  {
    hide Invoke, Found;
    TermsAppend(args, Read(a, []), ev, t, next);
  }

  // ---------------------------------------------------------------- a difference

  /** [k: i, b: ...], a structure with a function b. */
  function WithFunction(i: Int32): Expr
  {
    Make([Member("k", Lit(IntV(i)))], map["b" := 0])
  }

  /** The function returns its last argument, which is the receiver. */
  function ReturnsSelf(f: nat, syms: seq<Symbol>): Option<Symbol>
  {
    if syms == [] || !Owned(syms[|syms| - 1]) then None else Some(syms[|syms| - 1])
  }

  const MUTABLE_A := Set("a", true, [], WithFunction(1))      // a#mut = [k: 1, b: ...]
  const READ_ONLY_C := Set("c", false, [], WithFunction(2))   // c = [k: 2, b: ...]
  const A_IS_C := Assign("a", false, [], Read("c", []))       // a = c

  predicate HasFunction(sym: Symbol)
  {
    sym.ty == Struct([Word(I32)]) && "b" in sym.methods && !sym.parent
  }

  lemma DeclareFunction(x: string, mut: bool, i: Int32, t: Table, next: nat)
    requires x !in t
    ensures var r := TransStmt(Set(x, mut, [], WithFunction(i)), t, next);
      r.Changed? && r.t.Keys == t.Keys + {x} && HasFunction(r.t[x]) && r.t[x].isConst == !mut
      && forall y :: y in t ==> r.t[y] == t[y]
  {
    TransOne("k", Lit(IntV(i)), map["b" := 0], t, next);
    hide TransMembers;
  }

  lemma Start() returns (t: Table, next: nat)
    ensures var r := TransAll([MUTABLE_A, READ_ONLY_C], map[], 0);
      r.Changed? && r.t == t && r.next == next && AllOwned(t)
    ensures "a" in t && HasFunction(t["a"]) && !t["a"].isConst && "c" in t && HasFunction(t["c"]) && t["c"].isConst
  {
    hide TransStmt, AllOwned, HasFunction;
    assert AllOwned(map[]) by {
      NothingOwned();
    }
    DeclareFunction("a", true, 1, map[], 0);
    var r1 := TransStmt(MUTABLE_A, map[], 0);
    DeclareFunction("c", false, 2, r1.t, r1.next);
    var r2 := TransStmt(READ_ONLY_C, r1.t, r1.next);
    StmtOwned(MUTABLE_A, map[], 0);
    StmtOwned(READ_ONLY_C, r1.t, r1.next);
    assert [MUTABLE_A, READ_ONLY_C][1..] == [READ_ONLY_C] && [READ_ONLY_C][1..] == [];
    assert TransAll([], r2.t, r2.next) == Changed([], r2.next, r2.t);
    assert TransAll([READ_ONLY_C], r1.t, r1.next) == Changed(r2.code + [], r2.next, r2.t);
    t, next := r2.t, r2.next;
  }

  lemma NothingOwned()
    ensures AllOwned(map[])
  {
  }

  lemma ReadWhole(x: string, t: Table, next: nat)
    requires x in t && t[x].ty.Struct?
    ensures TransExpr(Get(x, []), t, next) == Ok([], next, Reg(t[x].ptr), t[x])
  {
    WalkHere(t[x], next);
  }

  lemma ArgumentDone(t: Table, next: nat)
    requires "a" in t && HasFunction(t["a"]) && !t["a"].isConst && "c" in t && HasFunction(t["c"])
    ensures var r := TransTerms([A_IS_C], ReturnsSelf, t, next);
      r.AllDone? && r.t == t["a" := t["c"].(ptr := t["a"].ptr)]
  {
    ReadWhole("c", t, next);
    WalkHere(t["a"], next);
    var r := TransTerm(A_IS_C, ReturnsSelf, t, next);
    assert r.Done? && r.t == t["a" := t["c"].(ptr := t["a"].ptr)] by {
      assert TransTerm(Read("c", []), ReturnsSelf, t, next).Done?;
    }
    hide TransTerm;
    assert [A_IS_C][1..] == [];
    assert TransTerms([], ReturnsSelf, r.t, r.next).AllDone?;
  }

  /** With a mutable variable a and a read-only one c, both structures with a function b that returns its
      receiver, a = a.:b(a = c) is accepted and a.=b(a = c) is not. */
  lemma ObjectiveDiffers()
    ensures var start := TransAll([MUTABLE_A, READ_ONLY_C], map[], 0);
      && start.Changed?
      && Written("a", false, "b", [A_IS_C], ReturnsSelf, start.t, start.next).Done?
      && Objective("a", "b", [A_IS_C], ReturnsSelf, start.t, start.next).Failed?
  {
    hide TransAll, TransTerm, TransTerms, TransExpr, Owned;
    var t, next := Start();
    ArgumentDone(t, next);
    var r := TransTerms([A_IS_C], ReturnsSelf, t, next);
    ReadWhole("a", r.t, r.next);
    InOwned(t, "c");
    OwnedLike(t["c"], r.t["a"]);
    var call := TransCall("a", "b", [A_IS_C], ReturnsSelf, t, next);
    assert call.Done? && call.sym.ty == Struct([Word(I32)]);
    CallTerm("a", "b", [A_IS_C], ReturnsSelf, t, next);
    InMarks(t, "a");
    InMarks(t, "c");
    MarksOfArgument(MarksOf(t));
    ObjectiveAssignment("a", false, "b", [A_IS_C], ReturnsSelf, t, next);
  }

  lemma MarksOfArgument(m: Marks)
    requires "a" in m && m["a"] == Free && "c" in m
    ensures MarksAfterAll([A_IS_C], m) == m["a" := m["c"]]
  {
    assert [A_IS_C][1..] == [];
  }

  lemma ChoiceTerm(e: Term, ev: Callee, t: Table, next: nat)
    requires e.Choice?
    ensures TransTerm(e, ev, t, next) == TransChoice(e, ev, t, next)
  {
    hide TransChoice;
  }

  lemma CallTerm(a: string, key: string, args: seq<Term>, ev: Callee, t: Table, next: nat)
    ensures TransTerm(MethodCall(a, key, args), ev, t, next) == TransCall(a, key, args, ev, t, next)
  {
  }

  // ---------------------------------------------------- the fragment without calls

  function Embedded(e: Expr): Term
    decreases e, 1
  {
    match e
    case Lit(v) => Literal(v)
    case Get(x, path) => Read(x, path)
    case Make(members, methods) => Build(KeysOf(members), EmbeddedAll(members), methods)
    case Choose(c, x, y) => Choice(Embedded(c), Embedded(x), Embedded(y))
  }

  function EmbeddedAll(members: seq<Member>): seq<Term>
    decreases members, 0
  {
    if members == [] then [] else [Embedded(members[0].e)] + EmbeddedAll(members[1..])
  }

  function KeysOf(members: seq<Member>): seq<string>
  {
    if members == [] then [] else [members[0].key] + KeysOf(members[1..])
  }

  function WithoutKeys(vals: seq<Given>): seq<Operand>
  {
    if vals == [] then [] else [Operand(vals[0].v, vals[0].sym)] + WithoutKeys(vals[1..])
  }

  lemma {:induction false} PlainsAppend(a: seq<Instr>, b: seq<Instr>)
    ensures Plains(a + b) == Plains(a) + Plains(b)
    decreases |a|
  {
    if a == [] {
      assert a + b == b;
    } else {
      assert (a + b)[1..] == a[1..] + b;
      PlainsAppend(a[1..], b);
    }
  }

  /** On expressions without calls and assignments operands are translated as in Aggregates. */
  lemma {:induction false} EmbeddedTrans(e: Expr, ev: Callee, t: Table, next: nat)
    ensures TransTerm(Embedded(e), ev, t, next) == Lifted(TransExpr(e, t, next), t)
    decreases e, 1
  {
    match e
    case Lit(_) =>
    case Get(_, _) =>
    case Make(members, methods) =>
      EmbeddedMembers(members, ev, t, next);
      EmbeddedMake(members, methods, ev, t, next);
    case Choose(c, x, y) =>
      hide TransExpr, TransTerm;
      EmbeddedTrans(c, ev, t, next);
      var rc := TransExpr(c, t, next);
      if rc.Ok? {
        EmbeddedTrans(x, ev, t, rc.next);
        var rx := TransExpr(x, t, rc.next);
        if rx.Ok? {
          EmbeddedTrans(y, ev, t, rx.next);
        }
      }
      EmbeddedChoice(c, x, y, ev, t, next);
  }

  lemma EmbeddedChoice(c: Expr, x: Expr, y: Expr, ev: Callee, t: Table, next: nat)
    requires var rc := TransExpr(c, t, next);
      && TransTerm(Embedded(c), ev, t, next) == Lifted(rc, t)
      && (rc.Ok? ==>
            var rx := TransExpr(x, t, rc.next);
            && TransTerm(Embedded(x), ev, t, rc.next) == Lifted(rx, t)
            && (rx.Ok? ==> TransTerm(Embedded(y), ev, t, rx.next) == Lifted(TransExpr(y, t, rx.next), t)))
    ensures var e := Choose(c, x, y);
      TransTerm(Embedded(e), ev, t, next) == Lifted(TransExpr(e, t, next), t)
  {
    hide TransExpr, TransTerm, Plains;
    ChoiceIs(c, x, y, t, next);
    ChoiceTerm(Choice(Embedded(c), Embedded(x), Embedded(y)), ev, t, next);
    var rc := TransExpr(c, t, next);
    if rc.Ok? && TransExpr(x, t, rc.next).Ok? {
      var rx := TransExpr(x, t, rc.next);
      var ry := TransExpr(y, t, rx.next);
      if ry.Ok? {
        DecidePlains(rc, rx, ry, t);
      }
    }
  }

  lemma DecidePlains(rc: Result, rx: Result, ry: Result, t: Table)
    requires rc.Ok? && rx.Ok? && ry.Ok?
    ensures Decide(Lifted(rc, t), Lifted(rx, t), Lifted(ry, t)) == Lifted(Chosen(rc, rx, ry), t)
  {
    hide Plains;
    PlainsAppend(rc.code, rx.code);
    PlainsAppend(rc.code + rx.code, ry.code);
    PlainsAppend(rc.code + rx.code + ry.code, [Pick(ry.next, rc.v, rx.v, ry.v)]);
  }

  lemma EmbeddedMake(members: seq<Member>, methods: map<string, nat>, ev: Callee, t: Table, next: nat)
    requires TransTerms(EmbeddedAll(members), ev, t, next) ==
      match TransMembers(members, t, next)
      case None => OneFailed
      case Some((code, n, vals)) => AllDone(Plains(code), n, t, WithoutKeys(vals))
    requires TransMembers(members, t, next).Some? ==>
      var vals := TransMembers(members, t, next).value.2;
      Keyed(KeysOf(members), WithoutKeys(vals)) == vals
    ensures var e := Make(members, methods);
      TransTerm(Embedded(e), ev, t, next) == Lifted(TransExpr(e, t, next), t)
  {
    hide Fill, Built, Plains, Keyed, WithoutKeys, TransTerms, TransMembers, EmbeddedAll, KeysOf, TypesOf;
    var ms := TransMembers(members, t, next);
    if ms.Some? {
      var (code, n, vals) := ms.value;
      var cell := [Alloca(n, Struct(TypesOf(vals)))];
      PlainsAppend(code, cell + Fill(vals, 0, n));
      assert code + (cell + Fill(vals, 0, n)) == code + cell + Fill(vals, 0, n);
    }
  }

  lemma {:induction false} EmbeddedMembers(members: seq<Member>, ev: Callee, t: Table, next: nat)
    ensures TransTerms(EmbeddedAll(members), ev, t, next) ==
      match TransMembers(members, t, next)
      case None => OneFailed
      case Some((code, n, vals)) => AllDone(Plains(code), n, t, WithoutKeys(vals))
    ensures TransMembers(members, t, next).Some? ==>
      var vals := TransMembers(members, t, next).value.2;
      Keyed(KeysOf(members), WithoutKeys(vals)) == vals
    decreases members, 0
  {
    if members != [] {
      var m := members[0];
      EmbeddedTrans(m.e, ev, t, next);
      var r := TransExpr(m.e, t, next);
      assert EmbeddedAll(members)[1..] == EmbeddedAll(members[1..]);
      if r.Ok? {
        EmbeddedMembers(members[1..], ev, t, r.next);
        var rs := TransMembers(members[1..], t, r.next);
        if rs.Some? {
          PlainsAppend(r.code, rs.value.0);
          KeyedCons(Given(m.key, r.v, r.sym), KeysOf(members[1..]), rs.value.2);
        }
      }
    }
  }

  lemma KeyedCons(x: Given, keys: seq<string>, vals: seq<Given>)
    requires Keyed(keys, WithoutKeys(vals)) == vals
    ensures WithoutKeys([x] + vals) == [Operand(x.v, x.sym)] + WithoutKeys(vals)
    ensures Keyed([x.key] + keys, WithoutKeys([x] + vals)) == [x] + vals
  {
    assert ([x] + vals)[1..] == vals && ([x.key] + keys)[1..] == keys;
    assert WithoutKeys([x] + vals)[1..] == WithoutKeys(vals);
  }

  /** And so are whole statements. */
  lemma EmbeddedStmt(s: Stmt, ev: Callee, t: Table, next: nat)
    ensures var r := TransTerm(Assign(s.x, s.mut, s.path, Embedded(s.e)), ev, t, next);
      match TransStmt(s, t, next)
      case Changed(code, n, t') => r.Done? && r.code == Plains(code) && r.next == n && r.t == t'
      case Refused => r.Failed?
  {
    hide TransExpr, Walk, Plains;
    if s.path == [] && s.x !in t {
      EmbeddedTrans(s.e, ev, t, next);
      var r := TransExpr(s.e, t, next);
      if r.Ok? {
        PlainsAppend(r.code, [Alloca(r.next, r.sym.ty), CopyTo(r.next, r.v, r.sym)]);
      }
    } else if s.x in t && Walk(t[s.x], s.path, next).Place? {
      var w := Walk(t[s.x], s.path, next);
      EmbeddedTrans(s.e, ev, t, w.next);
      var r := TransExpr(s.e, t, w.next);
      if r.Ok? {
        PlainsAppend(w.code, r.code);
        PlainsAppend(w.code + r.code, [CopyTo(w.sym.ptr, r.v, r.sym)]);
      }
    }
  }
}
