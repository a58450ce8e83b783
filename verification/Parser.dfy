/** The expression grammar as a recursive descent over tokens: ordered choice, soft sequencing that
    lets a later alternative try again, hard sequencing that turns a failure into an error, and
    left-folding loops. */
module Parser {
  import opened Words
  import opened Syntax

  /** `Soft` is a failure another alternative may repair, `Hard` a failed expectation. */
  datatype Parsed = Got(t: Tree, rest: seq<Token>) | Soft | Hard

  datatype Step = Next(t: Tree, rest: seq<Token>) | Done | Fail

  datatype Listed = Items(ts: seq<Tree>, rest: seq<Token>) | Broken

  datatype Keyed = Entries(es: seq<Entry>, rest: seq<Token>) | Torn

  // ----------------------------------------------------------------- actions

  function SetLval(t: Tree): Tree
  {
    t.(lval := true)
  }

  function SetToCall(t: Tree): Tree
  {
    t.(toCall := true)
  }

  /** E++ becomes E = E + 1, and E-- becomes E = E - 1. */
  function Stepped(t: Tree, op: BinOp): Tree
  {
    Plain(AssignN(SetLval(t), Plain(InfixN(Op(op), t, Plain(IntN(1))))))
  }

  predicate At(ts: seq<Token>, t: Token)
  {
    ts != [] && ts[0] == t
  }

  // ------------------------------------------------------------- the grammar

  /** Parse at rung l of the ladder. */
  function Parse(l: nat, ts: seq<Token>): (r: Parsed)
    requires l <= PRIMARY
    ensures r.Got? ==> |r.rest| < |ts|
    decreases |ts|, PRIMARY - l + 2
  {
    if l == RET then
      var p := Parse(PIPE, ts);
      if !p.Soft? || !At(ts, Return) then p else
      Prefixed(Parse(PIPE, ts[1..]), t => Plain(RetN(t)))
    else if l == ASSIGN then
      var p := Parse(COND, ts);
      if !p.Got? || !At(p.rest, Equals) then p else
      var q := Parse(ASSIGN, p.rest[1..]);
      match q
      case Got(t, rest) => Got(Plain(AssignN(SetLval(p.t), t)), rest)
      case Soft => p
      case Hard => Hard
    else if l == PREFIX then
      var p := Parse(POSTFIX, ts);
      if !p.Soft? then p
      else if At(ts, Bang) then Prefixed(Parse(POSTFIX, ts[1..]), t => Plain(NotN(t)))
      else if At(ts, Tilde) then Prefixed(Parse(POSTFIX, ts[1..]), t => Plain(BitNotN(t)))
      else if At(ts, Increment) then Prefixed(Parse(POSTFIX, ts[1..]), t => Stepped(t, Add))
      else if At(ts, Decrement) then Prefixed(Parse(POSTFIX, ts[1..]), t => Stepped(t, Sub))
      else Soft
    else if l == POSTFIX then
      var p := Parse(CALL, ts);
      if !p.Got? then p
      else if At(p.rest, Increment) then Got(Stepped(p.t, Add), p.rest[1..])
      else if At(p.rest, Decrement) then Got(Stepped(p.t, Sub), p.rest[1..])
      else p
    else if l == PRIMARY then
      ParsePrimary(ts)
    else
      var p := Parse(l + 1, ts);
      if p.Got? then Loop(l, p.t, p.rest) else p
  }

  /** After a prefix token the operand is expected. */
  function Prefixed(p: Parsed, f: Tree -> Tree): (r: Parsed)
    ensures r.Got? ==> p.Got? && r.rest == p.rest
  {
    match p
    case Got(t, rest) => Got(f(t), rest)
    case _ => Hard
  }

  /** The left-folding loop of rung l, with what has been parsed so far. */
  function Loop(l: nat, acc: Tree, ts: seq<Token>): (r: Parsed)
    requires l < PRIMARY
    ensures r.Got? ==> |r.rest| <= |ts|
    decreases |ts|, 1
  {
    match Turn(l, acc, ts)
    case Next(t, rest) => Loop(l, t, rest)
    case Done => Got(acc, ts)
    case Fail => Hard
  }

  /** One turn of the loop of rung l. */
  function Turn(l: nat, acc: Tree, ts: seq<Token>): (s: Step)
    requires l < PRIMARY
    ensures s.Next? ==> |s.rest| < |ts|
    decreases |ts|, 0
  {
    if ts == [] then Done
    else if l == PIPE then
      if ts[0] != Arrow then Done else
      Expected(Parse(ASSIGN, ts[1..]), f => Plain(CallN(f, [acc])))
    else if l == COND then
      if ts[0] != Question then Done else
      var x := Parse(COND + 1, ts[1..]);
      if !x.Got? || !At(x.rest, Colon) then Fail else
      Expected(Parse(COND + 1, x.rest[1..]), y => Plain(CondN(acc, x.t, y)))
    else if COND < l < PREFIX then
      if !ts[0].Operator? || Rung(ts[0].op) != l then Done else
      var r := Parse(l + 1, ts[1..]);
      if ts[0].op == Op(Sub) && r.Soft? then Done else
      Expected(r, y => Plain(InfixN(ts[0].op, acc, y)))
    else if l == CALL then
      if ts[0] == LParen then
        var a := ParseArgs(ts[1..]);
        if a.Items? && At(a.rest, RParen) then Next(Plain(CallN(SetToCall(acc), a.ts)), a.rest[1..]) else Fail
      else if ts[0] == LBracket then
        var i := Parse(RET, ts[1..]);
        if i.Got? && At(i.rest, RBracket) then Next(Plain(AtN(acc, i.t)), i.rest[1..]) else Fail
      else Done
    else if l == DOT then
      if !ts[0].Dot? then Done
      else if |ts| > 1 && ts[1].Name? then Next(Plain(DotN(ts[0].access, acc, ts[1].s)), ts[2..])
      else if ts[0].access.Member? then Done else Fail
    else Done
  }

  function Expected(p: Parsed, f: Tree -> Tree): (s: Step)
    ensures s.Next? ==> p.Got? && s.rest == p.rest
  {
    match p
    case Got(t, rest) => Next(f(t), rest)
    case _ => Fail
  }

  /** Arguments: expressions, each followed by an optional comma. */
  function ParseArgs(ts: seq<Token>): (r: Listed)
    ensures r.Items? ==> |r.rest| <= |ts|
    decreases |ts|, PRIMARY + 3
  {
    var p := Parse(RET, ts);
    match p
    case Soft => Items([], ts)
    case Hard => Broken
    case Got(t, rest) =>
      var more := ParseArgs(if At(rest, Comma) then rest[1..] else rest);
      if more.Items? then Items([t] + more.ts, more.rest) else Broken
  }

  /** Lines: expressions, each followed by a semicolon. */
  function ParseLines(ts: seq<Token>): (r: Listed)
    ensures r.Items? ==> |r.rest| <= |ts|
    decreases |ts|, PRIMARY + 3
  {
    var p := Parse(RET, ts);
    match p
    case Soft => Items([], ts)
    case Hard => Broken
    case Got(t, rest) =>
      if !At(rest, Semi) then Items([], ts) else
      var more := ParseLines(rest[1..]);
      if more.Items? then Items([t] + more.ts, more.rest) else Broken
  }

  /** Members: a name, a colon and an expression, each followed by an optional comma. */
  function ParseEntries(ts: seq<Token>): (r: Keyed)
    ensures r.Entries? ==> |r.rest| <= |ts|
    decreases |ts|, PRIMARY + 3
  {
    if |ts| < 2 || !ts[0].Name? || ts[1] != Colon then Entries([], ts)
    else
      var p := Parse(RET, ts[2..]);
      match p
      case Soft => Entries([], ts)
      case Hard => Torn
      case Got(t, rest) =>
        var more := ParseEntries(if At(rest, Comma) then rest[1..] else rest);
        if more.Entries? then Entries([Entry(ts[0].s, t)] + more.es, more.rest) else Torn
  }

  /** Parameters: names, each followed by an optional comma. */
  function ParseParams(ts: seq<Token>): (r: (seq<string>, seq<Token>))
    ensures |r.1| <= |ts|
    decreases |ts|
  {
    if ts == [] || !ts[0].Name? then ([], ts)
    else
      var more := ParseParams(if At(ts[1..], Comma) then ts[2..] else ts[1..]);
      ([ts[0].s] + more.0, more.1)
  }

  function ParsePrimary(ts: seq<Token>): (r: Parsed)
    ensures r.Got? ==> |r.rest| < |ts|
    decreases |ts|, 1
  {
    if ts == [] then Soft else
    match ts[0]
    case Num(n) => Got(Plain(IntN(n)), ts[1..])
    case Truth(b) => Got(Plain(BoolN(b)), ts[1..])
    case Name(s) => Got(Plain(VarN(s)), ts[1..])
    case LBrace => ParseBody(ts[1..], body => Plain(ScopeN(body)))
    case LBracket => ParseBrackets(ts[1..])
    case LParen =>
      var (params, rest) := ParseParams(ts[1..]);
      if At(rest, RParen) then
        if At(rest[1..], LBrace) then ParseBody(rest[2..], body => Plain(FunctionN(params, body)))
        else Prefixed(Parse(RET, rest[1..]), line => Plain(FunctionN(params, [line])))
      else
        var e := Parse(RET, ts[1..]);
        if e.Got? then if At(e.rest, RParen) then Got(e.t, e.rest[1..]) else Soft
        else e
    case _ => Soft
  }

  /** Behind an opening bracket: a structure, else an array. A name of a member may be !=, so after ! the
      grammar insists on =. */
  function ParseBrackets(ts: seq<Token>): (r: Parsed)
    ensures r.Got? ==> |r.rest| < |ts|
    decreases |ts|, PRIMARY + 4
  {
    if At(ts, Bang) then Hard else
    var s := ParseEntries(ts);
    if s.Torn? then Hard
    else if At(s.rest, RBracket) then Got(Plain(StructN(Collected(s.es))), s.rest[1..])
    else
      var a := ParseArgs(ts);
      if a.Items? && At(a.rest, RBracket) then Got(Plain(ArrayN(a.ts)), a.rest[1..]) else Hard
  }

  /** The lines of a scope or function and the closing brace. */
  function ParseBody(ts: seq<Token>, f: seq<Tree> -> Tree): (r: Parsed)
    ensures r.Got? ==> |r.rest| < |ts|
    decreases |ts|, PRIMARY + 4
  {
    var lines := ParseLines(ts);
    if lines.Items? && At(lines.rest, RBrace) then Got(f(lines.ts), lines.rest[1..]) else Hard
  }

  /** A program is one expression and nothing after it. */
  function ParseAll(ts: seq<Token>): Option<Tree>
  {
    var p := Parse(RET, ts);
    if p.Got? && p.rest == [] then Some(p.t) else None
  }
}
