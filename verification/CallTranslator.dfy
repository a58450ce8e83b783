/** The translator object on operands with calls and assignments. Variables, paths and the copies of a
    literal's members are visited as in StructTranslator. */
module CallTranslator {
  import opened Words
  import opened Aggregates
  import opened Objective

  class CallTranslator {
    var code: seq<Op>
    var next: nat
    var table: Table
    const ev: Callee

    constructor (ev: Callee)
      ensures code == [] && next == 0 && table == map[] && this.ev == ev
    {
      code, next, table := [], 0, map[];
      this.ev := ev;
    }

    method Emit(i: Op)
      modifies this`code
      ensures code == old(code) + [i]
    {
      code := code + [i];
    }

    method Visit(e: Term) returns (r: Option<Operand>)
      modifies this
      ensures match TransTerm(e, ev, old(table), old(next))
              case Done(c, n, t, v, s) => r == Some(Operand(v, s)) && code == old(code) + c && next == n && table == t
              case Failed => r == None
      decreases e, 2
    {
      hide TransCall, TransTerms, TransExpr, Fill, Plains, Walk, Declare, Decide;
      match e
      case Literal(v) => r := Some(Operand(Const(Bits(v)), Bare(Word(TypeOf(v)))));
      case Read(x, path) => r := VisitPath(x, path);
      case Build(keys, vals, methods) => r := VisitLiteral(keys, vals, methods);
      case Assign(_, _, _, _) => r := VisitAssign(e);
      case DotCall(a, key, args) =>
        var f := Found(a, key, table);
        if f.None? {
          return None;
        }
        var all := VisitAll(args);
        if all.None? {
          return None;
        }
        r := Apply(f.value, all.value);
      case MethodCall(a, key, args) => r := CallOperator(a, key, args);
      case MethodSet(a, key, args) =>
        var result := CallOperator(a, key, args);
        if result.None? || a !in table {
          return None;
        }
        r := ReplaceAt(table[a], a, result.value);
      case Choice(_, _, _) => r := VisitChoice(e);
    }

    /** A choice between two values: all three operands are visited. */
    method VisitChoice(e: Term) returns (r: Option<Operand>)
      requires e.Choice?
      modifies this
      ensures match TransTerm(e, ev, old(table), old(next))
              case Done(c, n, t, v, s) => r == Some(Operand(v, s)) && code == old(code) + c && next == n && table == t
              case Failed => r == None
      decreases e, 1
    {
      hide Plains, TransTerm;
      ChoiceTerm(e, ev, table, next);
      var c := Visit(e.c);
      if c.None? {
        return None;
      }
      var x := Visit(e.thn);
      if x.None? {
        return None;
      }
      var y := Visit(e.els);
      if y.None? {
        return None;
      }
      var first, second := x.value.sym, y.value.sym;
      if c.value.sym.ty != Word(I1) || first.ty != second.ty || first.fields.Keys != second.fields.Keys {
        return None;
      }
      var reg := next;
      code := code + Plains([Pick(reg, c.value.v, x.value.v, y.value.v)]);
      next := next + 1;
      r := Some(Operand(Reg(reg), Picked(first, reg)));
    }

    /** The loop over the arguments. */
    method VisitAll(args: seq<Term>) returns (r: Option<seq<Operand>>)
      modifies this
      ensures match TransTerms(args, ev, old(table), old(next))
              case AllDone(c, n, t, vals) => r == Some(vals) && code == old(code) + c && next == n && table == t
              case OneFailed => r == None
      decreases args, 0
    {
      hide TransTerm;
      var vals: seq<Operand> := [];
      ghost var emitted: seq<Op> := [];
      FollowedNothing(TransTerms(args, ev, table, next));
      assert args[0..] == args;
      for k := 0 to |args|
        invariant code == old(code) + emitted
        invariant TransTerms(args, ev, old(table), old(next)) ==
                  Followed(emitted, vals, TransTerms(args[k..], ev, table, next))
      {
        assert args[k..][0] == args[k] && args[k..][1..] == args[k + 1..];
        ghost var t, from := table, next;
        var v := Visit(args[k]);
        if v.None? {
          return None;
        }
        ghost var c := TransTerm(args[k], ev, t, from).code;
        FollowedStep(emitted, c, vals, v.value, TransTerms(args[k + 1..], ev, table, next));
        emitted := emitted + c;
        vals := vals + [v.value];
      }
      assert args[|args|..] == [];
      assert emitted + [] == emitted && vals + [] == vals;
      r := Some(vals);
    }

    /** The call of a member with its receiver: member first, then the arguments, the receiver last. */
    method CallOperator(a: string, key: string, args: seq<Term>) returns (r: Option<Operand>)
      modifies this
      ensures match TransCall(a, key, args, ev, old(table), old(next))
              case Done(c, n, t, v, s) => r == Some(Operand(v, s)) && code == old(code) + c && next == n && table == t
              case Failed => r == None
      decreases args, 1
    {
      hide TransTerms, TransExpr;
      var f := Found(a, key, table);
      if f.None? {
        return None;
      }
      var all := VisitAll(args);
      if all.None? {
        return None;
      }
      var self := VisitPath(a, []);
      if self.None? {
        return None;
      }
      r := Apply(f.value, all.value + [self.value]);
    }

    /** Evaluate the function on the arguments' values, then emit the call. */
    method Apply(f: nat, vals: seq<Operand>) returns (r: Option<Operand>)
      modifies this`code, this`next
      ensures match Invoke(f, AllDone(old(code), old(next), table, vals), ev)
              case Done(c, n, t, v, s) => r == Some(Operand(v, s)) && code == c && next == n && table == t
              case Failed => r == None
    {
      var out := ev(f, Symbols(vals));
      if out.None? {
        return None;
      }
      var reg := next;
      Emit(Call(reg, f, Values(vals)));
      next := next + 1;
      r := Some(Operand(Reg(reg), Returned(out.value, reg)));
    }

    method VisitPath(x: string, path: seq<string>) returns (r: Option<Operand>)
      modifies this`code, this`next
      ensures match TransExpr(Get(x, path), table, old(next))
              case Ok(c, n, v, s) => r == Some(Operand(v, s)) && code == old(code) + Plains(c) && next == n
              case Err => r == None
    {
      var visited := TransExpr(Get(x, path), table, next);
      if visited.Err? {
        return None;
      }
      code, next := code + Plains(visited.code), visited.next;
      r := Some(Operand(visited.v, visited.sym));
    }

    method VisitLiteral(keys: seq<string>, vals: seq<Term>, methods: map<string, nat>) returns (r: Option<Operand>)
      modifies this
      ensures match TransTerm(Build(keys, vals, methods), ev, old(table), old(next))
              case Done(c, n, t, v, s) => r == Some(Operand(v, s)) && code == old(code) + c && next == n && table == t
              case Failed => r == None
      decreases vals, 1
    {
      hide TransTerms, Plains, Fill, Built, Keyed;
      var given := VisitAll(vals);
      if given.None? {
        return None;
      }
      var members, cell := Keyed(keys, given.value), next;
      code := code + Plains([Alloca(cell, Struct(TypesOf(members)))] + Fill(members, 0, cell));
      next := next + 1 + |members|;
      r := Some(Operand(Reg(cell), Built(members, methods, cell)));
    }

    /** An assignment: the place first, then the value. */
    method VisitAssign(e: Term) returns (r: Option<Operand>)
      requires e.Assign?
      modifies this
      ensures match TransTerm(e, ev, old(table), old(next))
              case Done(c, n, t, v, s) => r == Some(Operand(v, s)) && code == old(code) + c && next == n && table == t
              case Failed => r == None
      decreases e, 1
    {
      hide Walk, Plains, Replace, TransTerm;
      AssignIs(e, ev, table, next);
      if e.path == [] && e.x !in table {
        r := VisitDeclared(e);
        return;
      }
      if e.x !in table {
        return None;
      }
      var place := Walk(table[e.x], e.path, next);
      if place.Lost? {
        return None;
      }
      ghost var before := code;
      code, next := code + Plains(place.code), place.next;
      ghost var start := code;
      var v := Visit(e.e);
      if v.None? {
        return None;
      }
      ghost var done := Done(code[|start|..], next, table, v.value.v, v.value.sym);
      assert code == start + done.code && done == TransTerm(e.e, ev, old(table), place.next);
      r := ReplaceAt(place.sym, Name(e.x, e.path), v.value);
      ReplaceBehind(start, place.sym, Name(e.x, e.path), done);
      AfterReplace(before, Plains(place.code), Replace(place.sym, Name(e.x, e.path), done));
    }

    /** A first assignment. */
    method VisitDeclared(e: Term) returns (r: Option<Operand>)
      requires e.Assign?
      modifies this
      ensures match TransTerm(e.e, ev, old(table), old(next))
              case Failed => r == None
              case Done(c, n, t, v, s) =>
                var d := Declare(e.x, e.mut, Done(c, n, t, v, s));
                r == Some(Operand(d.v, d.sym)) && code == old(code) + d.code && next == d.next && table == d.t
      decreases e, 0
    {
      hide Plains, TransTerm;
      var v := Visit(e.e);
      if v.None? {
        return None;
      }
      var cell, sym := next, v.value.sym;
      code := code + Plains([Alloca(cell, sym.ty), CopyTo(cell, v.value.v, sym)]);
      next := next + 1;
      table := table[e.x := sym.(ptr := cell, isConst := !e.mut)];
      r := Some(Operand(v.value.v, sym.(isConst := !e.mut)));
    }

    /** Copy a value to a place visited before, and enter it. */
    method ReplaceAt(place: Symbol, name: string, v: Operand) returns (r: Option<Operand>)
      modifies this`code, this`table
      ensures match Replace(place, name, Done(old(code), next, old(table), v.v, v.sym))
              case Done(c, n, t, v', s) => r == Some(Operand(v', s)) && code == c && next == n && table == t
              case Failed => r == None
    {
      if place.isConst || place.ty != v.sym.ty {
        return None;
      }
      code := code + Plains([CopyTo(place.ptr, v.v, v.sym)]);
      table := Entered(table, place, name, v.sym);
      r := Some(v);
    }
  }

  lemma AssignIs(e: Term, ev: Callee, t: Table, next: nat)
    requires e.Assign?
    ensures TransTerm(e, ev, t, next) ==
      if e.path == [] && e.x !in t then
        var r := TransTerm(e.e, ev, t, next);
        if r.Failed? then Failed else Declare(e.x, e.mut, r)
      else if e.x !in t then Failed
      else
        var w := Walk(t[e.x], e.path, next);
        if w.Lost? then Failed else
        var r := TransTerm(e.e, ev, t, w.next);
        if r.Failed? then Failed else After(Plains(w.code), Replace(w.sym, Name(e.x, e.path), r))
  {
  }

  /** Code in front does not matter to a copy. */
  lemma ReplaceBehind(c: seq<Op>, place: Symbol, name: string, r: Outcome)
    requires r.Done?
    ensures Replace(place, name, r.(code := c + r.code)) == After(c, Replace(place, name, r))
  {
    var d := Replace(place, name, r);
    if d.Done? {
      assert c + d.code == c + r.code + Plains([CopyTo(place.ptr, r.v, r.sym)]);
    }
  }

  lemma AfterReplace(a: seq<Op>, b: seq<Op>, r: Outcome)
    ensures After(a + b, r) == After(a, After(b, r))
  {
    if r.Done? {
      assert a + b + r.code == a + (b + r.code);
    }
  }

  function Followed(c: seq<Op>, vals: seq<Operand>, r: Outcomes): Outcomes
  {
    match r
    case OneFailed => OneFailed
    case AllDone(c', n, t, more) => AllDone(c + c', n, t, vals + more)
  }

  lemma FollowedNothing(r: Outcomes)
    ensures Followed([], [], r) == r
  {
    if r.AllDone? {
      assert [] + r.code == r.code && [] + r.vals == r.vals;
    }
  }

  lemma FollowedStep(a: seq<Op>, b: seq<Op>, vals: seq<Operand>, x: Operand, r: Outcomes)
    ensures Followed(a, vals, Followed(b, [x], r)) == Followed(a + b, vals + [x], r)
  {
    if r.AllDone? {
      assert a + (b + r.code) == a + b + r.code && vals + ([x] + r.vals) == vals + [x] + r.vals;
    }
  }
}
