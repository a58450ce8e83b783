/** Which operator binds more tightly, against a list of operator groups written down by itself. */
module Precedence {
  import opened Words
  import opened Syntax
  import opened Parser
  import opened RoundTrip

  /** The groups of binary operators, from the tightest on: `**`, `* /`, `+ - %`, `>> <<`, comparisons, `&`,
      `^`, `|`, `&&`, `||`. */
  function Group(op: Infix): nat
  {
    match op
    case Pow => 0
    case Op(o) =>
      if o in {Mul, Div} then 1
      else if o in {Add, Sub, Rem} then 2
      else if o in {Shr, Shl} then 3
      else if o in {Gt, Lt, Ge, Le, Eq, Ne} then 4
      else if o == IAnd then 5
      else if o == IXor then 6
      else if o == IOr then 7
      else if o == LAnd then 8
      else 9
  }

  /** A name, a literal, or anything else between brackets of its own. */
  predicate Closed(t: Tree)
  {
    Marked(t, false, false) && Level(t.node) == PRIMARY
  }

  /** The tokens of such an operand are the same everywhere. */
  function Tokens(t: Tree): seq<Token>
  {
    Raw(t.node)
  }

  lemma ShowClosed(t: Tree, l: nat)
    requires Closed(t) && l <= PRIMARY
    ensures Show(t, l) == Tokens(t)
  {
    hide Raw;
  }

  lemma GroupsInOrder(o1: Infix, o2: Infix)
    ensures Group(o1) <= Group(o2) <==> Rung(o1) >= Rung(o2)
  {
  }

  function Binary(op: Infix, x: Tree, y: Tree): Tree
  {
    Plain(InfixN(op, x, y))
  }

  lemma BinaryMarked(op: Infix, x: Tree, y: Tree)
    requires Marked(x, false, false) && Marked(y, false, false)
    ensures Marked(Binary(op, x, y), false, false)
    ensures Level(Binary(op, x, y).node) == Rung(op)
  {
  }

  lemma ShowBinary(op: Infix, x: Tree, y: Tree, l: nat)
    requires l <= Rung(op)
    ensures Show(Binary(op, x, y), l) == Show(x, Rung(op)) + ([Operator(op)] + Show(y, Rung(op) + 1))
  {
    assert Show(Binary(op, x, y), l) == Raw(InfixN(op, x, y));
  }

  /** Two binary operators group to the left if the first one binds at least as tightly as the second, and to
      the right otherwise. */
  lemma Grouping(o1: Infix, o2: Infix, x: Tree, y: Tree, z: Tree)
    requires Closed(x) && Closed(y) && Closed(z)
    ensures ParseAll(Tokens(x) + [Operator(o1)] + Tokens(y) + [Operator(o2)] + Tokens(z)) ==
      Some(if Group(o1) <= Group(o2) then Binary(o2, Binary(o1, x, y), z) else Binary(o1, x, Binary(o2, y, z)))
  {
    hide Show, Raw, Marked, ParseAll, Rung, Level;
    GroupsInOrder(o1, o2);
    var a, b, c := Tokens(x), Tokens(y), Tokens(z);
    ShowOperands(o1, x, y);
    ShowOperands(o2, y, z);
    if Group(o1) <= Group(o2) {
      BothMarked(o1, o2, x, y, z);
      ParseShow(Binary(o2, Binary(o1, x, y), z));
      ShowBinary(o2, Binary(o1, x, y), z, RET);
      ShowBinary(o1, x, y, Rung(o2));
      assert a + ([Operator(o1)] + b) + ([Operator(o2)] + c) == a + [Operator(o1)] + b + [Operator(o2)] + c;
    } else {
      BothMarked(o1, o2, x, y, z);
      ParseShow(Binary(o1, x, Binary(o2, y, z)));
      ShowBinary(o1, x, Binary(o2, y, z), RET);
      ShowBinary(o2, y, z, Rung(o1) + 1);
      assert a + ([Operator(o1)] + (b + ([Operator(o2)] + c))) == a + [Operator(o1)] + b + [Operator(o2)] + c;
    }
  }

  lemma ShowOperands(op: Infix, x: Tree, y: Tree)
    requires Closed(x) && Closed(y)
    ensures Show(x, Rung(op)) == Tokens(x) && Show(y, Rung(op)) == Tokens(y)
    ensures Show(x, Rung(op) + 1) == Tokens(x) && Show(y, Rung(op) + 1) == Tokens(y)
  {
    ShowClosed(x, Rung(op));
    ShowClosed(y, Rung(op));
    ShowClosed(x, Rung(op) + 1);
    ShowClosed(y, Rung(op) + 1);
  }

  lemma BothMarked(o1: Infix, o2: Infix, x: Tree, y: Tree, z: Tree)
    requires Closed(x) && Closed(y) && Closed(z)
    ensures Marked(Binary(o2, Binary(o1, x, y), z), false, false)
    ensures Marked(Binary(o1, x, Binary(o2, y, z)), false, false)
  {
    hide Marked, Level;
    assert Marked(x, false, false) && Marked(y, false, false) && Marked(z, false, false);
    BinaryMarked(o1, x, y);
    BinaryMarked(o2, Binary(o1, x, y), z);
    BinaryMarked(o2, y, z);
    BinaryMarked(o1, x, Binary(o2, y, z));
  }

  // -------------------------------------------------------- the other operators

  lemma ClosedMarks(x: Tree)
    requires Closed(x)
    ensures Marked(x, false, false) && Marked(SetLval(x), true, false) && Marked(SetToCall(x), false, true)
  {
  }

  lemma ShowMarked(x: Tree, l: nat)
    requires Closed(x) && l <= PRIMARY
    ensures Show(x, l) == Show(SetLval(x), l) == Show(SetToCall(x), l) == Tokens(x)
  {
    hide Raw;
  }

  // One print each.

  lemma ShowNot(t: Tree, l: nat)
    requires l <= PREFIX
    ensures Show(Plain(NotN(t)), l) == [Bang] + Show(t, POSTFIX)
    ensures Show(Plain(BitNotN(t)), l) == [Tilde] + Show(t, POSTFIX)
  {
    assert Show(Plain(NotN(t)), l) == Raw(NotN(t)) && Show(Plain(BitNotN(t)), l) == Raw(BitNotN(t));
  }

  lemma ShowDot(access: Access, t: Tree, key: string, l: nat)
    requires l <= DOT
    ensures Show(Plain(DotN(access, t, key)), l) == Show(t, DOT) + [Dot(access), Name(key)]
    ensures Show(SetToCall(Plain(DotN(access, t, key))), l) == Show(t, DOT) + [Dot(access), Name(key)]
  {
    assert Show(Plain(DotN(access, t, key)), l) == Raw(DotN(access, t, key));
  }

  lemma ShowAt(a: Tree, i: Tree, l: nat)
    requires l <= CALL
    ensures Show(Plain(AtN(a, i)), l) == Show(a, CALL) + ([LBracket] + Show(i, RET) + [RBracket])
  {
    assert Show(Plain(AtN(a, i)), l) == Raw(AtN(a, i));
  }

  lemma ShowCall(f: Tree, y: Tree, l: nat)
    requires l <= CALL && f.toCall
    ensures Show(Plain(CallN(f, [y])), l) == Show(f, CALL) + ([LParen] + Show(y, RET) + [RParen])
  {
    assert Show(Plain(CallN(f, [y])), l) == Raw(CallN(f, [y]));
    assert ShowArgs([y]) == Show(y, RET);
  }

  lemma ShowPass(f: Tree, x: Tree, l: nat)
    requires l <= PIPE && !f.toCall
    ensures Show(Plain(CallN(f, [x])), l) == Show(x, PIPE) + ([Arrow] + Show(f, ASSIGN))
  {
    assert Show(Plain(CallN(f, [x])), l) == Raw(CallN(f, [x]));
  }

  lemma ShowCond(c: Tree, x: Tree, y: Tree, l: nat)
    requires l <= COND
    ensures Show(Plain(CondN(c, x, y)), l) ==
            Show(c, COND) + ([Question] + Show(x, COND + 1) + [Colon] + Show(y, COND + 1))
  {
    assert Show(Plain(CondN(c, x, y)), l) == Raw(CondN(c, x, y));
  }

  lemma ShowAssign(x: Tree, y: Tree, l: nat)
    requires l <= ASSIGN
    ensures Show(Plain(AssignN(x, y)), l) == Show(x, COND) + ([Equals] + Show(y, ASSIGN))
  {
    assert Show(Plain(AssignN(x, y)), l) == Raw(AssignN(x, y));
  }

  lemma ShowRet(x: Tree)
    ensures Show(Plain(RetN(x)), RET) == [Return] + Show(x, PIPE)
  {
    assert Show(Plain(RetN(x)), RET) == Raw(RetN(x));
  }

  // Marks of what they print.

  lemma NodesMarked(x: Tree, y: Tree, z: Tree, access: Access, key: string)
    requires Marked(x, false, false) && Marked(y, false, false) && Marked(z, false, false)
    ensures Marked(Plain(NotN(x)), false, false) && Marked(Plain(BitNotN(x)), false, false)
    ensures Marked(Plain(DotN(access, x, key)), false, false) && Marked(Plain(AtN(x, y)), false, false)
    ensures Marked(Plain(CallN(SetToCall(x), [y])), false, false) && Marked(Plain(CallN(x, [y])), false, false)
    ensures Marked(Plain(CondN(x, y, z)), false, false) && Marked(Plain(AssignN(SetLval(x), y)), false, false)
    ensures Marked(Plain(RetN(x)), false, false)
  {
    assert MarkedNode(x.node);
    assert [y][1..] == [] && MarkedAll([y]);
    assert Marked(SetToCall(x), false, true) && Marked(SetLval(x), true, false);
  }

  /** A prefix operator binds more tightly than any binary one. */
  lemma PrefixBeforeBinary(op: Infix, x: Tree, y: Tree)
    requires Closed(x) && Closed(y)
    ensures ParseAll([Bang] + Tokens(x) + [Operator(op)] + Tokens(y)) == Some(Binary(op, Plain(NotN(x)), y))
    ensures ParseAll([Tilde] + Tokens(x) + [Operator(op)] + Tokens(y)) == Some(Binary(op, Plain(BitNotN(x)), y))
  {
    hide Show, Raw, ParseAll, Marked, Level;
    ClosedMarks(x);
    ClosedMarks(y);
    NodesMarked(x, x, x, Member, "");
    var p, q := Plain(NotN(x)), Plain(BitNotN(x));
    BinaryMarked(op, p, y);
    BinaryMarked(op, q, y);
    ParseShow(Binary(op, p, y));
    ParseShow(Binary(op, q, y));
    ShowBinary(op, p, y, RET);
    ShowBinary(op, q, y, RET);
    ShowNot(x, Rung(op));
    ShowMarked(x, POSTFIX);
    ShowMarked(y, Rung(op) + 1);
    CatFour([Bang] + Tokens(x), Operator(op), Tokens(y));
    CatFour([Tilde] + Tokens(x), Operator(op), Tokens(y));
  }

  lemma CatFour(x: seq<Token>, u: Token, y: seq<Token>)
    ensures x + ([u] + y) == x + [u] + y
  {
  }

  /** Access to members, elements and calls bind more tightly than a prefix operator. */
  lemma AccessBeforePrefix(x: Tree, y: Tree, access: Access, key: string)
    requires Closed(x) && Closed(y)
    ensures ParseAll([Bang] + (Tokens(x) + [Dot(access), Name(key)])) == Some(Plain(NotN(Plain(DotN(access, x, key)))))
    ensures ParseAll([Bang] + (Tokens(x) + ([LBracket] + Tokens(y) + [RBracket]))) ==
            Some(Plain(NotN(Plain(AtN(x, y)))))
    ensures ParseAll([Bang] + (Tokens(x) + ([LParen] + Tokens(y) + [RParen]))) ==
            Some(Plain(NotN(Plain(CallN(SetToCall(x), [y])))))
  {
    hide Show, Raw, ParseAll, Marked, Level;
    ClosedMarks(x);
    ClosedMarks(y);
    NodesMarked(x, y, y, access, key);
    var d, a, c := Plain(DotN(access, x, key)), Plain(AtN(x, y)), Plain(CallN(SetToCall(x), [y]));
    ShowMarked(x, DOT);
    ShowMarked(x, CALL);
    ShowMarked(y, RET);
    ShowDot(access, x, key, POSTFIX);
    ShowAt(x, y, POSTFIX);
    ShowCall(SetToCall(x), y, POSTFIX);
    NotParses(d);
    NotParses(a);
    NotParses(c);
  }

  lemma NotParses(t: Tree)
    requires Marked(t, false, false)
    ensures ParseAll([Bang] + Show(t, POSTFIX)) == Some(Plain(NotN(t)))
  {
    hide Show, Raw, ParseAll, Marked;
    NodesMarked(t, t, t, Member, "");
    ParseShow(Plain(NotN(t)));
    ShowNot(t, RET);
  }

  /** Access to members binds more tightly than a call. */
  lemma MemberBeforeCall(x: Tree, y: Tree, access: Access, key: string)
    requires Closed(x) && Closed(y)
    ensures ParseAll(Tokens(x) + [Dot(access), Name(key)] + ([LParen] + Tokens(y) + [RParen])) ==
            Some(Plain(CallN(SetToCall(Plain(DotN(access, x, key))), [y])))
  {
    hide Show, Raw, ParseAll, Marked, Level;
    ClosedMarks(x);
    ClosedMarks(y);
    NodesMarked(x, y, y, access, key);
    var d := Plain(DotN(access, x, key));
    NodesMarked(d, y, y, access, key);
    ParseShow(Plain(CallN(SetToCall(d), [y])));
    ShowMarked(x, DOT);
    ShowMarked(y, RET);
    ShowDot(access, x, key, CALL);
    ShowCall(SetToCall(d), y, RET);
  }

  /** ?: binds less tightly than any binary operator, in all three places. */
  lemma BinaryBeforeConditional(op: Infix, x: Tree, y: Tree, u: Tree, v: Tree)
    requires Closed(x) && Closed(y) && Closed(u) && Closed(v)
    ensures var b := Tokens(x) + ([Operator(op)] + Tokens(y));
      && ParseAll(b + ([Question] + Tokens(u) + [Colon] + Tokens(v))) == Some(Plain(CondN(Binary(op, x, y), u, v)))
      && ParseAll(Tokens(u) + ([Question] + b + [Colon] + Tokens(v))) == Some(Plain(CondN(u, Binary(op, x, y), v)))
      && ParseAll(Tokens(u) + ([Question] + Tokens(v) + [Colon] + b)) == Some(Plain(CondN(u, v, Binary(op, x, y))))
  {
    hide Show, Raw, ParseAll, Marked, Level;
    ClosedMarks(x);
    ClosedMarks(y);
    ClosedMarks(u);
    ClosedMarks(v);
    BinaryMarked(op, x, y);
    var t := Binary(op, x, y);
    ShowBinary(op, x, y, COND);
    ShowBinary(op, x, y, COND + 1);
    ShowMarked(x, Rung(op));
    ShowMarked(y, Rung(op) + 1);
    ShowMarked(u, COND);
    ShowMarked(u, COND + 1);
    ShowMarked(v, COND + 1);
    CondParses(t, u, v);
    CondParses(u, t, v);
    CondParses(u, v, t);
  }

  lemma CondParses(c: Tree, x: Tree, y: Tree)
    requires Marked(c, false, false) && Marked(x, false, false) && Marked(y, false, false)
    ensures ParseAll(Show(c, COND) + ([Question] + Show(x, COND + 1) + [Colon] + Show(y, COND + 1))) ==
            Some(Plain(CondN(c, x, y)))
  {
    hide Show, Raw, ParseAll, Marked;
    NodesMarked(c, x, y, Member, "");
    ParseShow(Plain(CondN(c, x, y)));
    ShowCond(c, x, y, RET);
  }

  /** = binds less tightly than ?:, -> less tightly than =, and |> least of all. */
  lemma LooseOperators(x: Tree, y: Tree, u: Tree, v: Tree)
    requires Closed(x) && Closed(y) && Closed(u) && Closed(v)
    ensures ParseAll(Tokens(x) + ([Equals] + (Tokens(y) + ([Question] + Tokens(u) + [Colon] + Tokens(v))))) ==
            Some(Plain(AssignN(SetLval(x), Plain(CondN(y, u, v)))))
    ensures ParseAll(Tokens(x) + ([Equals] + Tokens(y)) + ([Arrow] + Tokens(u))) ==
            Some(Plain(CallN(u, [Plain(AssignN(SetLval(x), y))])))
    ensures ParseAll([Return] + (Tokens(x) + ([Arrow] + Tokens(u)))) == Some(Plain(RetN(Plain(CallN(u, [x])))))
  {
    hide Show, Raw, ParseAll, Marked, Level;
    ClosedMarks(x);
    ClosedMarks(y);
    ClosedMarks(u);
    ClosedMarks(v);
    NodesMarked(y, u, v, Member, "");
    NodesMarked(x, y, y, Member, "");
    NodesMarked(u, x, x, Member, "");
    var c, a, p := Plain(CondN(y, u, v)), Plain(AssignN(SetLval(x), y)), Plain(CallN(u, [x]));
    NodesMarked(x, c, c, Member, "");
    NodesMarked(u, a, a, Member, "");
    NodesMarked(p, p, p, Member, "");
    ShowMarked(x, COND);
    ShowMarked(x, PIPE);
    ShowMarked(y, COND);
    ShowMarked(y, ASSIGN);
    ShowMarked(u, COND + 1);
    ShowMarked(u, ASSIGN);
    ShowMarked(v, COND + 1);
    ShowCond(y, u, v, ASSIGN);
    ShowAssign(SetLval(x), c, RET);
    ParseShow(Plain(AssignN(SetLval(x), c)));
    ShowAssign(SetLval(x), y, PIPE);
    UncalledPass(u);
    ShowPass(u, a, RET);
    ParseShow(Plain(CallN(u, [a])));
    ShowPass(u, x, PIPE);
    ShowRet(p);
    ParseShow(Plain(RetN(p)));
  }

  lemma UncalledPass(u: Tree)
    requires Closed(u)
    ensures !u.toCall
  {
  }
}
