/** Tokens and trees of the expression grammar, the marks the parser leaves in a tree, and a
    printer that parenthesises only where the ladder requires it. */
module Syntax {
  import opened Words
  import Keys = StructLayout

  datatype Infix = Pow | Op(op: BinOp)

  /** `.`, `.:` and `.=`. */
  datatype Access = Member | Method | MethodAssign

  type Literal = n: nat | n < 0x8000_0000

  datatype Token =
    | Num(n: Literal) | Truth(b: bool) | Name(s: string) | Operator(op: Infix) | Dot(access: Access)
    | LParen | RParen | LBracket | RBracket | LBrace | RBrace
    | Comma | Semi | Colon | Question | Equals | Arrow | Return | Increment | Decrement | Bang | Tilde

  /** A node with its two marks: operand that is assigned to, and callee of a call. */
  datatype Tree = Tree(node: Node, lval: bool, toCall: bool)

  datatype Node =
    | IntN(n: Literal)
    | BoolN(b: bool)
    | VarN(name: string)
    | ArrayN(es: seq<Tree>)
    | StructN(members: seq<Entry>)
    | ScopeN(body: seq<Tree>)
    | FunctionN(params: seq<string>, body: seq<Tree>)
    | InfixN(op: Infix, l: Tree, r: Tree)
    | CondN(c: Tree, x: Tree, y: Tree)
    | AssignN(l: Tree, r: Tree)
    | CallN(f: Tree, args: seq<Tree>)
    | AtN(a: Tree, i: Tree)
    | DotN(access: Access, a: Tree, key: string)
    | NotN(e: Tree)
    | BitNotN(e: Tree)
    | IncrementN(e: Tree)
    | DecrementN(e: Tree)
    | RetN(e: Tree)

  /** A member of a structure literal. */
  datatype Entry = Entry(key: string, val: Tree)

  function Plain(n: Node): Tree
  {
    Tree(n, false, false)
  }

  // -------------------------------------------------------------- the ladder

  const RET := 0
  const PIPE := 1
  const ASSIGN := 2
  const COND := 3
  const PREFIX := 14
  const POSTFIX := 15
  const CALL := 16
  const DOT := 17
  const PRIMARY := 18

  /** The rung of a left-folding binary operator, from || up to **. */
  function Rung(op: Infix): (l: nat)
    ensures COND < l < PREFIX
  {
    match op
    case Pow => 13
    case Op(o) =>
      match o
      case Mul => 12
      case Div => 12
      case Add => 11
      case Sub => 11
      case Rem => 11
      case Shr => 10
      case Shl => 10
      case Gt => 9
      case Lt => 9
      case Ge => 9
      case Le => 9
      case Eq => 9
      case Ne => 9
      case IAnd => 8
      case IXor => 7
      case IOr => 6
      case LAnd => 5
      case LOr => 4
  }

  /** The loosest rung that can produce a node. */
  function Level(n: Node): (l: nat)
    ensures l <= PRIMARY
  {
    match n
    case IntN(_) => PRIMARY
    case BoolN(_) => PRIMARY
    case VarN(_) => PRIMARY
    case ArrayN(_) => PRIMARY
    case StructN(_) => PRIMARY
    case ScopeN(_) => PRIMARY
    case FunctionN(_, _) => PRIMARY
    case InfixN(op, _, _) => Rung(op)
    case CondN(_, _, _) => COND
    case AssignN(_, _) => ASSIGN
    case CallN(f, _) => if f.toCall then CALL else PIPE
    case AtN(_, _) => CALL
    case DotN(_, _, _) => DOT
    case NotN(_) => PREFIX
    case BitNotN(_) => PREFIX
    case IncrementN(_) => POSTFIX
    case DecrementN(_) => POSTFIX
    case RetN(_) => RET
  }

  // ---------------------------------------------------------------- members

  /** A literal's members are kept in a map: in key order, each key once. */
  predicate InOrder(es: seq<Entry>)
  {
    forall i, j :: 0 <= i < j < |es| ==> Keys.Less(es[i].key, es[j].key)
  }

  function Inserted(es: seq<Entry>, e: Entry): seq<Entry>
  {
    if es == [] || Keys.Less(e.key, es[0].key) then [e] + es
    else if es[0].key == e.key then [e] + es[1..]
    else [es[0]] + Inserted(es[1..], e)
  }

  /** The map of the members written, one after the other. */
  function Collected(es: seq<Entry>): seq<Entry>
  {
    if es == [] then [] else Inserted(Collected(es[..|es| - 1]), es[|es| - 1])
  }

  // ------------------------------------------------------------------- marks

  /** The marks of t are the expected ones, and so are those below: a node is lval exactly if it is
      the first operand of an assignment, to_call exactly if it is the callee of a call written
      with parentheses; there are no increments and decrements left. An array has an element: without
      one it is an empty structure. */
  predicate Marked(t: Tree, lval: bool, toCall: bool)
    decreases t, 1
  {
    t.lval == lval && t.toCall == toCall && MarkedNode(t.node)
  }

  predicate MarkedNode(n: Node)
    decreases n, 1
  {
    match n
    case IntN(_) => true
    case BoolN(_) => true
    case VarN(_) => true
    case ArrayN(es) => es != [] && MarkedAll(es)
    case StructN(members) => InOrder(members) && MarkedEntries(members)
    case ScopeN(body) => MarkedAll(body)
    case FunctionN(_, body) => MarkedAll(body)
    case InfixN(_, l, r) => Marked(l, false, false) && Marked(r, false, false)
    case CondN(c, x, y) => Marked(c, false, false) && Marked(x, false, false) && Marked(y, false, false)
    case AssignN(l, r) => Marked(l, true, false) && Marked(r, false, false)
    case CallN(f, args) => Marked(f, false, f.toCall) && MarkedAll(args) && (f.toCall || |args| == 1)
    case AtN(a, i) => Marked(a, false, false) && Marked(i, false, false)
    case DotN(_, a, _) => Marked(a, false, false)
    case NotN(e) => Marked(e, false, false)
    case BitNotN(e) => Marked(e, false, false)
    case IncrementN(_) => false
    case DecrementN(_) => false
    case RetN(e) => Marked(e, false, false)
  }

  predicate MarkedAll(ts: seq<Tree>)
    decreases ts, 0
  {
    ts == [] || (Marked(ts[0], false, false) && MarkedAll(ts[1..]))
  }

  predicate MarkedEntries(es: seq<Entry>)
    decreases es, 0
  {
    es == [] || (Marked(es[0].val, false, false) && MarkedEntries(es[1..]))
  }

  // ----------------------------------------------------------------- printer

  function Show(t: Tree, l: nat): seq<Token>
    decreases t, 1
  {
    if l <= Level(t.node) then Raw(t.node) else [LParen] + Raw(t.node) + [RParen]
  }

  function Raw(n: Node): seq<Token>
    decreases n, 1
  {
    match n
    case IntN(i) => [Num(i)]
    case BoolN(b) => [Truth(b)]
    case VarN(name) => [Name(name)]
    case ArrayN(es) => [LBracket] + ShowElements(es) + [RBracket]
    case StructN(members) => [LBracket] + ShowEntries(members) + [RBracket]
    case ScopeN(body) => [LBrace] + ShowLines(body) + [RBrace]
    case FunctionN(params, body) => [LParen] + ShowParams(params) + [RParen, LBrace] + ShowLines(body) + [RBrace]
    case InfixN(op, l, r) => Show(l, Rung(op)) + ([Operator(op)] + Show(r, Rung(op) + 1))
    case CondN(c, x, y) => Show(c, COND) + ([Question] + Show(x, COND + 1) + [Colon] + Show(y, COND + 1))
    case AssignN(l, r) => Show(l, COND) + ([Equals] + Show(r, ASSIGN))
    case CallN(f, args) =>
      if f.toCall then Show(f, CALL) + ([LParen] + ShowArgs(args) + [RParen])
      else if |args| == 1 then Show(args[0], PIPE) + ([Arrow] + Show(f, ASSIGN))
      else []
    case AtN(a, i) => Show(a, CALL) + ([LBracket] + Show(i, RET) + [RBracket])
    case DotN(access, a, key) => Show(a, DOT) + [Dot(access), Name(key)]
    case NotN(e) => [Bang] + Show(e, POSTFIX)
    case BitNotN(e) => [Tilde] + Show(e, POSTFIX)
    case IncrementN(e) => Show(e, CALL) + [Increment]
    case DecrementN(e) => Show(e, CALL) + [Decrement]
    case RetN(e) => [Return] + Show(e, PIPE)
  }

  /** Statements, each ended by a semicolon. */
  function ShowLines(ts: seq<Tree>): seq<Token>
    decreases ts, 0
  {
    if ts == [] then [] else Show(ts[0], RET) + ([Semi] + ShowLines(ts[1..]))
  }

  function ShowArgs(ts: seq<Tree>): seq<Token>
    decreases ts, 0
  {
    if ts == [] then []
    else if |ts| == 1 then Show(ts[0], RET)
    else Show(ts[0], RET) + ([Comma] + ShowArgs(ts[1..]))
  }

  /** The elements of an array. Behind the bracket the grammar tries a member's name first, and takes
      the start of != for one, so the first element must not start with !. */
  function ShowElements(ts: seq<Tree>): seq<Token>
    decreases ts, 0
  {
    if ts == [] then []
    else if |ts| == 1 then Guarded(Show(ts[0], RET))
    else Guarded(Show(ts[0], RET)) + ([Comma] + ShowArgs(ts[1..]))
  }

  function Guarded(ts: seq<Token>): seq<Token>
  {
    if ts != [] && ts[0] == Bang then [LParen] + ts + [RParen] else ts
  }

  function ShowEntries(es: seq<Entry>): seq<Token>
    decreases es, 0
  {
    if es == [] then []
    else if |es| == 1 then [Name(es[0].key), Colon] + Show(es[0].val, RET)
    else [Name(es[0].key), Colon] + (Show(es[0].val, RET) + ([Comma] + ShowEntries(es[1..])))
  }

  function ShowParams(ps: seq<string>): seq<Token>
  {
    if ps == [] then []
    else if |ps| == 1 then [Name(ps[0])]
    else [Name(ps[0]), Comma] + ShowParams(ps[1..])
  }
}
