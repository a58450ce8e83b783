/** The translator object on structures: it appends code, walks paths member by member, and keeps the
    symbol table. */
module StructTranslator {
  import opened Words
  import opened Aggregates

  class StructTranslator {
    var code: seq<Instr>
    var next: nat
    var table: Table

    constructor ()
      ensures code == [] && next == 0 && table == map[]
    {
      code, next, table := [], 0, map[];
    }

    method Emit(i: Instr)
      modifies this`code
      ensures code == old(code) + [i]
    {
      code := code + [i];
    }

    /** The dot operators of a path, from left to right: each gives the member's symbol the address
        just computed. */
    method Resolve(sym: Symbol, path: seq<string>) returns (r: Option<Symbol>)
      modifies this`code, this`next
      ensures match Walk(sym, path, old(next))
              case Place(c, n, s) => r == Some(s) && code == old(code) + c && next == n
              case Lost => r == None
    {
      var at := sym;
      ghost var emitted: seq<Instr> := [];
      for k := 0 to |path|
        invariant code == old(code) + emitted
        invariant Walk(sym, path, old(next)) == Continued(emitted, Walk(at, path[k..], next))
      {
        var key := path[k];
        assert path[k..][0] == key && path[k..][1..] == path[k + 1..];
        if !at.ty.Struct? || key !in at.symbols {
          return None;
        }
        var field := if key in at.fields then at.fields[key] else 0;
        var reg := next;
        Emit(Gep(reg, at.ptr, field));
        next := next + 1;
        emitted := emitted + [Gep(reg, at.ptr, field)];
        at := at.symbols[key].(ptr := reg);
      }
      assert path[|path|..] == [];
      r := Some(at);
    }

    method Visit(e: Expr) returns (r: Option<(Opd, Symbol)>)
      modifies this`code, this`next
      ensures match TransExpr(e, table, old(next))
              case Ok(c, n, v, s) => r == Some((v, s)) && code == old(code) + c && next == n
              case Err => r == None
      decreases e, 1
    {
      match e
      case Lit(v) =>
        r := Some((Const(Bits(v)), Bare(Word(TypeOf(v)))));
      case Get(x, path) =>
        if x !in table {
          return None;
        }
        var s := Resolve(table[x], path);
        if s.None? {
          return None;
        }
        if s.value.ty.Word? {
          var reg := next;
          Emit(Load(reg, s.value.ptr));
          next := next + 1;
          r := Some((Reg(reg), s.value));
        } else {
          r := Some((Reg(s.value.ptr), s.value));
        }
      case Make(members, methods) =>
        var vals := VisitMembers(members);
        if vals.None? {
          return None;
        }
        var cell := next;
        Emit(Alloca(cell, Struct(TypesOf(vals.value))));
        next := next + 1;
        FillFields(vals.value, cell);
        r := Some((Reg(cell), Built(vals.value, methods, cell)));
      case Choose(c, x, y) => r := VisitChoice(c, x, y);
    }

    /** A choice between two values: all three operands are visited. */
    method VisitChoice(c: Expr, x: Expr, y: Expr) returns (r: Option<(Opd, Symbol)>)
      modifies this`code, this`next
      ensures match TransExpr(Choose(c, x, y), table, old(next))
              case Ok(cs, n, v, s) => r == Some((v, s)) && code == old(code) + cs && next == n
              case Err => r == None
      decreases Choose(c, x, y), 0
    {
      hide TransExpr;
      ChoiceIs(c, x, y, table, next);
      var vc := Visit(c);
      if vc.None? {
        return None;
      }
      var vx := Visit(x);
      if vx.None? {
        return None;
      }
      var vy := Visit(y);
      if vy.None? {
        return None;
      }
      var first, second := vx.value.1, vy.value.1;
      if vc.value.1.ty != Word(I1) || first.ty != second.ty || first.fields.Keys != second.fields.Keys {
        return None;
      }
      var reg := next;
      Emit(Pick(reg, vc.value.0, vx.value.0, vy.value.0));
      next := next + 1;
      r := Some((Reg(reg), Picked(first, reg)));
    }

    /** The loop over the members of a literal. */
    method VisitMembers(members: seq<Member>) returns (r: Option<seq<Given>>)
      modifies this`code, this`next
      ensures match TransMembers(members, table, old(next))
              case Some((c, n, vals)) => r == Some(vals) && code == old(code) + c && next == n
              case None => r == None
      decreases members, 0
    {
      var vals: seq<Given> := [];
      ghost var emitted: seq<Instr> := [];
      PrefixedNothing(TransMembers(members, table, next));
      assert members[0..] == members;
      for k := 0 to |members|
        invariant code == old(code) + emitted
        invariant TransMembers(members, table, old(next)) ==
                  Prefixed(emitted, vals, TransMembers(members[k..], table, next))
      {
        assert members[k..][0] == members[k] && members[k..][1..] == members[k + 1..];
        ghost var from := next;
        var v := Visit(members[k].e);
        if v.None? {
          return None;
        }
        ghost var c := TransExpr(members[k].e, table, from).code;
        var given := Given(members[k].key, v.value.0, v.value.1);
        PrefixedStep(emitted, c, vals, given, TransMembers(members[k + 1..], table, next));
        emitted := emitted + c;
        vals := vals + [given];
      }
      assert members[|members|..] == [];
      assert emitted + [] == emitted && vals + [] == vals;
      r := Some(vals);
    }

    /** The loop that stores the members, with its counter. */
    method FillFields(vals: seq<Given>, cell: nat)
      requires next == cell + 1
      modifies this`code, this`next
      ensures code == old(code) + Fill(vals, 0, cell) && next == old(next) + |vals|
    {
      for k := 0 to |vals|
        invariant next == cell + 1 + k
        invariant code + Fill(vals, k, cell) == old(code) + Fill(vals, 0, cell)
      {
        Emit(Gep(next, cell, k));
        Emit(CopyTo(next, vals[k].v, vals[k].sym));
        next := next + 1;
      }
    }

    /** An assignment to a variable or a member. */
    method Assign(s: Stmt) returns (done: bool)
      modifies this
      ensures match TransStmt(s, old(table), old(next))
              case Changed(c, n, t) => done && code == old(code) + c && next == n && table == t
              case Refused => !done
    {
      hide TransExpr, Walk;
      if s.path == [] && s.x !in table {
        var v := Visit(s.e);
        if v.None? {
          return false;
        }
        var cell := next;
        Emit(Alloca(cell, v.value.1.ty));
        next := next + 1;
        Emit(CopyTo(cell, v.value.0, v.value.1));
        table := table[s.x := v.value.1.(ptr := cell, isConst := !s.mut)];
        return true;
      }
      if s.x !in table {
        return false;
      }
      var place := Resolve(table[s.x], s.path);
      if place.None? {
        return false;
      }
      var v := Visit(s.e);
      if v.None? || place.value.isConst || place.value.ty != v.value.1.ty {
        return false;
      }
      Emit(CopyTo(place.value.ptr, v.value.0, v.value.1));
      if !place.value.parent {
        table := table[Name(s.x, s.path) := v.value.1.(ptr := place.value.ptr)];
      }
      done := true;
    }
  }

  function Continued(c: seq<Instr>, w: Walked): Walked
  {
    if w.Lost? then Lost else w.(code := c + w.code)
  }

  function Prefixed(c: seq<Instr>, vals: seq<Given>, r: Option<(seq<Instr>, nat, seq<Given>)>)
    : Option<(seq<Instr>, nat, seq<Given>)>
  {
    match r
    case None => None
    case Some((c', n, more)) => Some((c + c', n, vals + more))
  }

  lemma PrefixedNothing(r: Option<(seq<Instr>, nat, seq<Given>)>)
    ensures Prefixed([], [], r) == r
  {
    if r.Some? {
      var (c, n, more) := r.value;
      assert [] + c == c && [] + more == more;
    }
  }

  lemma PrefixedStep(a: seq<Instr>, b: seq<Instr>, vals: seq<Given>, x: Given, r: Option<(seq<Instr>, nat, seq<Given>)>)
    ensures Prefixed(a, vals, Prefixed(b, [x], r)) == Prefixed(a + b, vals + [x], r)
  {
    if r.Some? {
      var (c, n, more) := r.value;
      assert a + (b + c) == a + b + c && vals + ([x] + more) == vals + [x] + more;
    }
  }
}
