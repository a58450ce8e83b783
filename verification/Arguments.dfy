/** Argument lists: the loops that leave lazy values out of a call, of a function's type, and of the
    cells of its parameters agree on which argument is which. */
module Arguments {
  import opened Words

  /** An LLVM type, known by identity; structures and arrays are passed by their address. */
  datatype Ty = Plain(id: nat) | ToStruct(id: nat) | ToArray(id: nat)

  /** A supplied value: its LLVM value and type. */
  datatype Arg = Arg(isLazy: bool, v: nat, ty: Ty)

  /** What a parameter name stands for: a cell for values of some type, filled with an LLVM parameter or
      with what is loaded through it, or a lazy value itself. */
  datatype Bound = Cell(param: nat, holds: nat, loaded: bool) | Itself(a: Arg)

  /** The arguments that exist at run time. */
  function Eager(args: seq<Arg>): seq<Arg>
  {
    if args == [] then [] else if args[0].isLazy then Eager(args[1..]) else [args[0]] + Eager(args[1..])
  }

  function Values(args: seq<Arg>): (vs: seq<nat>)
    ensures |vs| == |args|
  {
    seq(|args|, k requires 0 <= k < |args| => args[k].v)
  }

  function Types(args: seq<Arg>): (ts: seq<Ty>)
    ensures |ts| == |args|
  {
    seq(|args|, k requires 0 <= k < |args| => args[k].ty)
  }

  /** The arguments of a call of a member: the receiver comes last. */
  function WithReceiver(supplied: seq<Arg>, receiver: Option<Arg>): seq<Arg>
  {
    supplied + if receiver.Some? then [receiver.value] else []
  }

  /** The cell of the k-th argument. */
  function BoundTo(args: seq<Arg>, k: nat): Bound
    requires k < |args|
  {
    if args[k].isLazy then Itself(args[k]) else Cell(|Eager(args[..k])|, args[k].ty.id, !args[k].ty.Plain?)
  }

  lemma {:induction false} EagerAppend(a: seq<Arg>, b: seq<Arg>)
    ensures Eager(a + b) == Eager(a) + Eager(b)
    decreases |a|
  {
    if a == [] {
      assert a + b == b;
    } else {
      assert (a + b)[1..] == a[1..] + b;
      EagerAppend(a[1..], b);
    }
  }

  lemma EagerNext(args: seq<Arg>, k: nat)
    requires k < |args|
    ensures Eager(args[..k + 1]) == Eager(args[..k]) + if args[k].isLazy then [] else [args[k]]
  {
    assert args[..k + 1] == args[..k] + [args[k]];
    EagerAppend(args[..k], [args[k]]);
  }

  // ------------------------------------------------------------------- loops

  /** The arguments of a call, and the receiver appended behind them. */
  method CallArguments(supplied: seq<Arg>, receiver: Option<Arg>) returns (all: seq<Arg>, operands: seq<nat>)
    ensures all == WithReceiver(supplied, receiver)
    ensures operands == Values(Eager(supplied)) + (if receiver.Some? then [receiver.value.v] else [])
  {
    all, operands := [], [];
    for k := 0 to |supplied|
      invariant all == supplied[..k] && operands == Values(Eager(supplied[..k]))
    {
      EagerNext(supplied, k);
      all := all + [supplied[k]];
      if !supplied[k].isLazy {
        operands := operands + [supplied[k].v];
      }
    }
    assert supplied[..|supplied|] == supplied;
    if receiver.Some? {
      all := all + [receiver.value];
      operands := operands + [receiver.value.v];
    }
  }

  /** The parameter types of the specialised function. */
  method ParameterTypes(args: seq<Arg>) returns (types: seq<Ty>)
    ensures types == Types(Eager(args))
  {
    types := [];
    for k := 0 to |args|
      invariant types == Types(Eager(args[..k]))
    {
      EagerNext(args, k);
      if !args[k].isLazy {
        types := types + [args[k].ty];
      }
    }
    assert args[..|args|] == args;
  }

  /** Binding the parameter names, walking along the LLVM parameters: a structure or an array is loaded
      through the parameter into a cell for what it points to. */
  method BindParameters(names: seq<string>, args: seq<Arg>) returns (bound: seq<Bound>)
    requires |names| == |args|
    ensures |bound| == |args| && forall k :: 0 <= k < |args| ==> bound[k] == BoundTo(args, k)
  {
    bound := [];
    var param := 0;
    for k := 0 to |args|
      invariant |bound| == k && param == |Eager(args[..k])|
      invariant forall j :: 0 <= j < k ==> bound[j] == BoundTo(args, j)
    {
      EagerNext(args, k);
      if args[k].isLazy {
        bound := bound + [Itself(args[k])];
      } else {
        bound := bound + [Cell(param, args[k].ty.id, !args[k].ty.Plain?)];
        param := param + 1;
      }
    }
  }

  // --------------------------------------------------------------- alignment

  /** The k-th argument, if it exists at run time, comes at the position that counts the ones before. */
  lemma EagerPosition(args: seq<Arg>, k: nat)
    requires k < |args| && !args[k].isLazy
    ensures |Eager(args[..k])| < |Eager(args)| && Eager(args)[|Eager(args[..k])|] == args[k]
  {
    assert args == args[..k] + args[k..];
    EagerAppend(args[..k], args[k..]);
  }

  /** And nothing else is there. */
  lemma {:induction false} EagerOnly(args: seq<Arg>, i: nat) returns (k: nat)
    requires i < |Eager(args)|
    ensures k < |args| && !args[k].isLazy && |Eager(args[..k])| == i && Eager(args)[i] == args[k]
    decreases |args|
  {
    if !args[0].isLazy && i == 0 {
      k := 0;
    } else {
      var j := EagerOnly(args[1..], if args[0].isLazy then i else i - 1);
      k := j + 1;
      assert args[..k] == [args[0]] + args[1..][..j];
    }
  }

  /** Operand, parameter type and cell belong to one argument. */
  predicate Aligned(a: Arg, b: Bound, operands: seq<nat>, types: seq<Ty>)
  {
    match b
    case Itself(c) => c == a && a.isLazy
    case Cell(p, holds, loaded) =>
      && !a.isLazy && p < |operands| == |types|
      && operands[p] == a.v && types[p] == a.ty && holds == a.ty.id && loaded == !a.ty.Plain?
  }

  /** A call of a function member, from the supplied values to the cells of its parameters: each argument
      that exists at run time is passed at the position of the parameter that fills its own cell, with its
      own type, exactly if the receiver, where there is one, exists at run time. */
  method PassArguments(supplied: seq<Arg>, receiver: Option<Arg>, names: seq<string>)
    returns (all: seq<Arg>, operands: seq<nat>, types: seq<Ty>, bound: Option<seq<Bound>>)
    ensures all == WithReceiver(supplied, receiver)
    ensures bound.Some? <==> |names| == |all|
    ensures receiver.Some? && receiver.value.isLazy ==> |operands| == |types| + 1
    ensures !(receiver.Some? && receiver.value.isLazy) ==> operands == Values(Eager(all)) && types == Types(Eager(all))
    ensures bound.Some? && !(receiver.Some? && receiver.value.isLazy) ==>
      |bound.value| == |all| && forall k :: 0 <= k < |all| ==> Aligned(all[k], bound.value[k], operands, types)
  {
    hide Eager, Values, Types, Aligned;
    all, operands := CallArguments(supplied, receiver);
    types := ParameterTypes(all);
    OperandsMatch(supplied, receiver);
    bound := None;
    if |names| == |all| {
      var cells := BindParameters(names, all);
      bound := Some(cells);
      ArgumentsAligned(all, cells);
    }
  }

  /** Operands, parameter types and cells belong together. */
  lemma {:induction false} ArgumentsAligned(args: seq<Arg>, bound: seq<Bound>)
    requires |bound| == |args| && forall k :: 0 <= k < |args| ==> bound[k] == BoundTo(args, k)
    ensures forall k :: 0 <= k < |args| ==> Aligned(args[k], bound[k], Values(Eager(args)), Types(Eager(args)))
  {
    forall k | 0 <= k < |args|
      ensures Aligned(args[k], bound[k], Values(Eager(args)), Types(Eager(args)))
    {
      if !args[k].isLazy {
        EagerPosition(args, k);
      }
    }
  }

  /** The operands are the values of the arguments that exist at run time exactly if the receiver is
      one of them; a lazy receiver would be passed without a parameter for it. */
  lemma OperandsMatch(supplied: seq<Arg>, receiver: Option<Arg>)
    ensures var all := WithReceiver(supplied, receiver);
      var operands := Values(Eager(supplied)) + (if receiver.Some? then [receiver.value.v] else []);
      if receiver.Some? && receiver.value.isLazy then |operands| == |Eager(all)| + 1 else operands == Values(Eager(all))
  {
    if receiver.Some? {
      EagerAppend(supplied, [receiver.value]);
      assert Eager([receiver.value]) == if receiver.value.isLazy then [] else [receiver.value];
    } else {
      assert supplied + [] == supplied;
    }
  }

  /** Two arguments never share a parameter. */
  lemma ParametersDistinct(args: seq<Arg>, j: nat, k: nat)
    requires j < k < |args| && !args[j].isLazy
    ensures |Eager(args[..j])| < |Eager(args[..k])|
  {
    assert args[..k] == args[..j] + args[j..k];
    EagerAppend(args[..j], args[j..k]);
    assert args[j..k][0] == args[j];
  }

  // --------------------------------------------------------- operator dispatch

  /** An operand of an operator node: an expression, or the node of an argument list. */
  datatype Operand = One(e: nat) | Listed(node: nat, al: seq<nat>)

  /** The states of the translator: code, insertion point and symbol tables, known by a number. */
  type State = nat

  /** Visiting an expression in a state: a value and the next state, or an error. */
  type Visitor = (nat, State) -> Option<(Arg, State)>

  datatype Dispatch =
    | Thrown
    | BuiltIn(args: seq<Arg>, st: State)                      // the operator's own translation
    | Method(args: seq<Arg>, operands: seq<nat>, st: State)   // a function member of the first operand

  /** One visit each, from left to right, each in the state the one before left. */
  function VisitAll(es: seq<nat>, visit: Visitor, st: State): (r: Option<(seq<Arg>, State)>)
    ensures r.Some? ==> |r.value.0| == |es|
  {
    if es == [] then Some(([], st))
    else
      var r := visit(es[0], st);
      if r.None? then None else
      var rs := VisitAll(es[1..], visit, r.value.1);
      if rs.None? then None else Some(([r.value.0] + rs.value.0, rs.value.1))
  }

  /** What a further operand stands for: an argument list is unpacked for a structure's operator only. */
  function Elements(o: Operand, unpack: bool): seq<nat>
  {
    match o
    case One(e) => [e]
    case Listed(node, al) => if unpack then al else [node]
  }

  function Order(ops: seq<Operand>, unpack: bool): seq<nat>
  {
    if ops == [] then [] else Elements(ops[0], unpack) + Order(ops[1..], unpack)
  }

  lemma {:induction false} OrderAppend(a: seq<Operand>, b: seq<Operand>, unpack: bool)
    ensures Order(a + b, unpack) == Order(a, unpack) + Order(b, unpack)
    decreases |a|
  {
    if a == [] {
      assert a + b == b;
    } else {
      assert (a + b)[1..] == a[1..] + b;
      OrderAppend(a[1..], b, unpack);
    }
  }

  /** Where an operand stands: an expression by itself, and of an argument list the elements one after the other
      if the first operand is a structure, else the list as it is; the operands before it come before. */
  lemma OrderAt(ops: seq<Operand>, unpack: bool, i: nat)
    requires i < |ops|
    ensures Order(ops, unpack) == Order(ops[..i], unpack) +
      (if ops[i].One? then [ops[i].e] else if unpack then ops[i].al else [ops[i].node]) + Order(ops[i + 1..], unpack)
  {
    assert ops == ops[..i] + ([ops[i]] + ops[i + 1..]);
    OrderAppend(ops[..i], [ops[i]] + ops[i + 1..], unpack);
    assert ([ops[i]] + ops[i + 1..])[1..] == ops[i + 1..];
  }

  lemma {:induction false} VisitAppend(a: seq<nat>, b: seq<nat>, visit: Visitor, st: State)
    ensures VisitAll(a + b, visit, st) ==
      var r := VisitAll(a, visit, st);
      if r.None? then None else
      var q := VisitAll(b, visit, r.value.1);
      if q.None? then None else Some((r.value.0 + q.value.0, q.value.1))
    decreases |a|
  {
    if a == [] {
      assert a + b == b;
      var q := VisitAll(b, visit, st);
      if q.Some? {
        assert [] + q.value.0 == q.value.0;
      }
    } else {
      assert (a + b)[1..] == a[1..] + b;
      var r := visit(a[0], st);
      if r.Some? {
        VisitAppend(a[1..], b, visit, r.value.1);
        var rs := VisitAll(a[1..], visit, r.value.1);
        if rs.Some? {
          var q := VisitAll(b, visit, rs.value.1);
          if q.Some? {
            assert [r.value.0] + (rs.value.0 + q.value.0) == [r.value.0] + rs.value.0 + q.value.0;
          }
        }
      }
    }
  }

  /** The elements of one operand, visited one by one behind what was visited before. */
  method VisitElements(es: seq<nat>, visit: Visitor, st: State) returns (r: Option<(seq<Arg>, State)>)
    ensures r == VisitAll(es, visit, st)
  {
    var args: seq<Arg> := [];
    var s := st;
    for i := 0 to |es|
      invariant VisitAll(es[..i], visit, st) == Some((args, s))
    {
      assert es[..i + 1] == es[..i] + [es[i]] && es == es[..i + 1] + es[i + 1..];
      VisitAppend(es[..i], [es[i]], visit, st);
      VisitAppend(es[..i + 1], es[i + 1..], visit, st);
      var v := visit(es[i], s);
      VisitOne(es[i], visit, s);
      if v.None? {
        return None;
      }
      args, s := args + [v.value.0], v.value.1;
    }
    assert es[..|es|] == es;
    r := Some((args, s));
  }

  lemma VisitOne(e: nat, visit: Visitor, st: State)
    ensures VisitAll([e], visit, st) ==
      var r := visit(e, st);
      if r.None? then None else Some(([r.value.0], r.value.1))
  {
    assert [e][1..] == [];
    var r := visit(e, st);
    if r.Some? {
      assert [r.value.0] + [] == [r.value.0];
    }
  }

  /** What an operator node comes to: everything is visited once, from left to right. The first operand
      decides: a structure defines the operator itself and is passed last, and argument lists are unpacked;
      otherwise it is the first argument. */
  function Dispatched(ops: seq<Operand>, visit: Visitor, st: State): Dispatch
    requires ops != [] && ops[0].One?
  {
    var first := visit(ops[0].e, st);
    if first.None? then Thrown else
    var target := first.value.0;
    var all := VisitAll(Order(ops, target.ty.ToStruct?), visit, st);
    if all.None? then Thrown else
    var vals, s := all.value.0, all.value.1;
    if target.ty.ToStruct? then
      Method(vals[1..] + [target], Values(Eager(vals[1..])) + [target.v], s)
    else BuiltIn(vals, s)
  }

  /** An operator node: the first operand, then the loop over the others. */
  method OperatorNode(ops: seq<Operand>, visit: Visitor, st: State) returns (d: Dispatch)
    requires ops != [] && ops[0].One?
    ensures d == Dispatched(ops, visit, st)
  {
    var first := visit(ops[0].e, st);
    if first.None? {
      return Thrown;
    }
    var (target, s) := first.value;
    var unpack := target.ty.ToStruct?;
    var args: seq<Arg> := [target];
    VisitOne(ops[0].e, visit, st);
    assert ops[..1] == [ops[0]] && [ops[0]][1..] == [] && [ops[0].e] + [] == [ops[0].e];
    assert ops[..1][1..] == [];
    for k := 1 to |ops|
      invariant |args| > 0 && args[0] == target
      invariant VisitAll(Order(ops[..k], unpack), visit, st) == Some((args, s))
    {
      assert ops[..k + 1] == ops[..k] + [ops[k]] && ops == ops[..k + 1] + ops[k + 1..];
      OrderAppend(ops[..k], [ops[k]], unpack);
      OrderAppend(ops[..k + 1], ops[k + 1..], unpack);
      OrderOne(ops[k], unpack);
      VisitAppend(Order(ops[..k], unpack), Elements(ops[k], unpack), visit, st);
      VisitAppend(Order(ops[..k + 1], unpack), Order(ops[k + 1..], unpack), visit, st);
      var more := VisitElements(Elements(ops[k], unpack), visit, s);
      if more.None? {
        return Thrown;
      }
      args, s := args + more.value.0, more.value.1;
    }
    assert ops[..|ops|] == ops;
    if !unpack {
      return BuiltIn(args, s);
    }
    var _, operands := CallArguments(args[1..], Some(target));
    d := Method(args[1..] + [target], operands, s);
  }

  /** The value of the i-th expression, visited in the state that those before it leave. */
  function Nth(es: seq<nat>, i: nat, visit: Visitor, st: State): Option<Arg>
    requires i < |es|
  {
    var r := visit(es[0], st);
    if r.None? then None
    else if i == 0 then Some(r.value.0)
    else Nth(es[1..], i - 1, visit, r.value.1)
  }

  lemma {:induction false} VisitNth(es: seq<nat>, visit: Visitor, st: State, i: nat)
    requires i < |es| && VisitAll(es, visit, st).Some?
    ensures Nth(es, i, visit, st) == Some(VisitAll(es, visit, st).value.0[i])
    decreases i
  {
    if i > 0 {
      VisitNth(es[1..], visit, visit(es[0], st).value.1, i - 1);
    }
  }

  /** `vals` are the values of the expressions `es`, each visited in the state that those before it leave. */
  ghost predicate VisitedInOrder(es: seq<nat>, visit: Visitor, st: State, vals: seq<Arg>) {
    && |vals| == |es|
    && forall i :: 0 <= i < |es| ==> Nth(es, i, visit, st) == Some(vals[i])
  }

  /** A structure as first operand: the arguments are the values of the other operands in written order,
      argument lists element by element, and then the structure; the call passes those of them that are not
      lazy, and the structure last. Any other first operand: all operands are arguments, in written order,
      and an argument list is one of them. */
  lemma DispatchOrder(ops: seq<Operand>, visit: Visitor, st: State)
    requires ops != [] && ops[0].One?
    ensures var d := Dispatched(ops, visit, st);
            d.Method? ==>
              && d.args != [] && d.args[|d.args| - 1].ty.ToStruct?
              && VisitedInOrder([ops[0].e] + Order(ops[1..], true), visit, st,
                   [d.args[|d.args| - 1]] + d.args[..|d.args| - 1])
              && d.operands == Values(Eager(d.args[..|d.args| - 1])) + [d.args[|d.args| - 1].v]
    ensures var d := Dispatched(ops, visit, st);
            d.BuiltIn? ==>
              && d.args != [] && !d.args[0].ty.ToStruct?
              && VisitedInOrder([ops[0].e] + Order(ops[1..], false), visit, st, d.args)
  {
    var first := visit(ops[0].e, st);
    if first.Some? {
      var unpack := first.value.0.ty.ToStruct?;
      var es := Order(ops, unpack);
      assert es == [ops[0].e] + Order(ops[1..], unpack);
      var all := VisitAll(es, visit, st);
      if all.Some? {
        hide Eager, Values;
        var vals := all.value.0;
        forall i | 0 <= i < |es| ensures Nth(es, i, visit, st) == Some(vals[i]) {
          VisitNth(es, visit, st, i);
        }
        assert vals[0] == first.value.0;
        assert (vals[1..] + [vals[0]])[..|vals| - 1] == vals[1..];
        assert [vals[0]] + vals[1..] == vals;
      }
    }
  }

  lemma OrderOne(o: Operand, unpack: bool)
    ensures Order([o], unpack) == Elements(o, unpack)
  {
    assert [o][1..] == [];
    assert Elements(o, unpack) + [] == Elements(o, unpack);
  }
}
