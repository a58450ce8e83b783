/** Printing and parsing: the parser gives back every tree from its sparsely parenthesised print. */
module RoundTrip {
  import opened Words
  import opened Syntax
  import opened Parser

  // ----------------------------------------------------------------- tokens

  /** The rung at which a token continues an expression. */
  function Rank(t: Token): int
  {
    match t
    case Arrow => PIPE
    case Equals => ASSIGN
    case Question => COND
    case Operator(op) => Rung(op)
    case Increment => POSTFIX
    case Decrement => POSTFIX
    case LParen => CALL
    case LBracket => CALL
    case Dot(_) => DOT
    case _ => -1
  }

  /** The tightest rung at which a token starts an expression. */
  function Start(t: Token): int
  {
    match t
    case Return => RET
    case Bang => PREFIX
    case Tilde => PREFIX
    case Increment => PREFIX
    case Decrement => PREFIX
    case Num(_) => PRIMARY
    case Truth(_) => PRIMARY
    case Name(_) => PRIMARY
    case LParen => PRIMARY
    case LBrace => PRIMARY
    case LBracket => PRIMARY
    case _ => -1
  }

  /** No expression parsed at rung l or tighter goes on into k. */
  predicate Stops(l: int, k: seq<Token>)
  {
    k == [] || Rank(k[0]) < l
  }

  predicate IsLoop(l: nat)
  {
    l == PIPE || (COND <= l < PREFIX) || l == CALL || l == DOT
  }

  // -------------------------------------------------------------- unfolding

  lemma ParseLoops(l: nat, ts: seq<Token>)
    requires IsLoop(l)
    ensures Parse(l, ts) == var p := Parse(l + 1, ts); if p.Got? then Loop(l, p.t, p.rest) else p
  {
  }

  lemma ParseRet(ts: seq<Token>)
    ensures Parse(RET, ts) ==
      var p := Parse(PIPE, ts);
      if !p.Soft? || !At(ts, Return) then p else Prefixed(Parse(PIPE, ts[1..]), t => Plain(RetN(t)))
  {
  }

  lemma ParseAssign(ts: seq<Token>)
    ensures Parse(ASSIGN, ts) ==
      var p := Parse(COND, ts);
      if !p.Got? || !At(p.rest, Equals) then p else
      var q := Parse(ASSIGN, p.rest[1..]);
      match q
      case Got(t, rest) => Got(Plain(AssignN(SetLval(p.t), t)), rest)
      case Soft => p
      case Hard => Hard
  {
  }

  lemma ParsePrefix(ts: seq<Token>)
    ensures Parse(POSTFIX, ts).Got? || Parse(POSTFIX, ts).Hard? ==> Parse(PREFIX, ts) == Parse(POSTFIX, ts)
    ensures Parse(POSTFIX, ts).Soft? ==>
      && (At(ts, Bang) ==> Parse(PREFIX, ts) == Prefixed(Parse(POSTFIX, ts[1..]), t => Plain(NotN(t))))
      && (At(ts, Tilde) ==> Parse(PREFIX, ts) == Prefixed(Parse(POSTFIX, ts[1..]), t => Plain(BitNotN(t))))
      && (At(ts, Increment) ==> Parse(PREFIX, ts) == Prefixed(Parse(POSTFIX, ts[1..]), t => Stepped(t, Add)))
      && (At(ts, Decrement) ==> Parse(PREFIX, ts) == Prefixed(Parse(POSTFIX, ts[1..]), t => Stepped(t, Sub)))
      && (ts == [] || Start(ts[0]) != PREFIX ==> Parse(PREFIX, ts) == Soft)
  {
  }

  lemma ParsePostfix(ts: seq<Token>)
    ensures Parse(POSTFIX, ts) ==
      var p := Parse(CALL, ts);
      if !p.Got? then p
      else if At(p.rest, Increment) then Got(Stepped(p.t, Add), p.rest[1..])
      else if At(p.rest, Decrement) then Got(Stepped(p.t, Sub), p.rest[1..])
      else p
  {
  }

  lemma ParseLeaf(ts: seq<Token>)
    ensures Parse(PRIMARY, ts) == ParsePrimary(ts)
  {
  }

  lemma LoopIs(l: nat, acc: Tree, ts: seq<Token>)
    requires l < PRIMARY
    ensures Loop(l, acc, ts) ==
      match Turn(l, acc, ts)
      case Next(t, rest) => Loop(l, t, rest)
      case Done => Got(acc, ts)
      case Fail => Hard
  {
  }

  lemma LoopDone(l: nat, acc: Tree, k: seq<Token>)
    requires IsLoop(l) && Stops(l, k)
    ensures Loop(l, acc, k) == Got(acc, k)
  {
    hide Parse, ParseArgs;
    LoopIs(l, acc, k);
  }

  /** What is parsed at a tighter rung and does not go on is also what this rung parses. */
  lemma Climb(l: nat, ts: seq<Token>, t: Tree, k: seq<Token>)
    requires l < PRIMARY && Parse(l + 1, ts) == Got(t, k) && Stops(l, k)
    ensures Parse(l, ts) == Got(t, k)
  {
    hide Parse, Loop;
    if IsLoop(l) {
      ParseLoops(l, ts);
      LoopDone(l, t, k);
    } else if l == RET {
      ParseRet(ts);
    } else if l == ASSIGN {
      ParseAssign(ts);
    } else if l == PREFIX {
      ParsePrefix(ts);
    } else {
      ParsePostfix(ts);
    }
  }

  /** An expression that cannot start here fails softly. */
  lemma {:induction false} SoftStart(l: nat, ts: seq<Token>)
    requires l <= PRIMARY && (ts == [] || Start(ts[0]) < l)
    ensures Parse(l, ts) == Soft
    decreases PRIMARY - l
  {
    if l == PRIMARY {
      ParseLeaf(ts);
    } else {
      SoftStart(l + 1, ts);
      hide Parse, Loop;
      if IsLoop(l) {
        ParseLoops(l, ts);
      } else if l == RET {
        ParseRet(ts);
      } else if l == ASSIGN {
        ParseAssign(ts);
      } else if l == PREFIX {
        ParsePrefix(ts);
      } else {
        ParsePostfix(ts);
      }
    }
  }

  // ------------------------------------------------- parenthesis or function

  /** The tokens do not start with a list of names that runs up to a closing parenthesis. */
  predicate NotNames(ts: seq<Token>)
  {
    && ts != [] && ts[0] != RParen
    && (ts[0].Name? ==> |ts| > 1 && !ts[1].Name? && ts[1] != Comma && ts[1] != RParen)
  }

  predicate Joins(k: seq<Token>)
  {
    k != [] && Rank(k[0]) >= 0
  }

  lemma {:induction false} LeadShow(t: Tree, l: nat, k: seq<Token>)
    requires MarkedNode(t.node) && Joins(k)
    ensures NotNames(Show(t, l) + k)
    decreases t, 1
  {
    if l <= Level(t.node) && Level(t.node) < PRIMARY {
      LeadRaw(t.node, k);
    } else if l <= Level(t.node) {
      PrimaryRaw(t.node);
    }
  }

  lemma PrimaryRaw(n: Node)
    requires Level(n) == PRIMARY
    ensures Raw(n) != [] && Raw(n)[0] != RParen && (Raw(n)[0].Name? ==> |Raw(n)| == 1)
  {
  }

  lemma PipeParts(n: Node)
    requires MarkedNode(n) && n.CallN? && !n.f.toCall
    ensures |n.args| == 1 && Marked(n.args[0], false, false) && Marked(n.f, false, false)
  {
    assert MarkedAll(n.args);
  }

  /** What needs parentheses is not mistaken for parameters once it has them. */
  lemma {:induction false} LeadRaw(n: Node, k: seq<Token>)
    requires MarkedNode(n) && Level(n) < PRIMARY
    ensures NotNames(Raw(n) + k)
    decreases n, 0
  {
    hide Show, ShowArgs, NotNames;
    match n
    case InfixN(op, l, r) =>
      var j := [Operator(op)] + Show(r, Rung(op) + 1);
      LeadShow(l, Rung(op), j + k);
      CatTwo(Show(l, Rung(op)), j, k);
    case CondN(c, x, y) =>
      var j := [Question] + Show(x, COND + 1) + [Colon] + Show(y, COND + 1);
      LeadShow(c, COND, j + k);
      CatTwo(Show(c, COND), j, k);
    case AssignN(l, r) =>
      var j := [Equals] + Show(r, ASSIGN);
      LeadShow(l, COND, j + k);
      CatTwo(Show(l, COND), j, k);
    case CallN(f, args) =>
      if f.toCall {
        var j := [LParen] + ShowArgs(args) + [RParen];
        LeadShow(f, CALL, j + k);
        CatTwo(Show(f, CALL), j, k);
      } else {
        var j := [Arrow] + Show(f, ASSIGN);
        PipeParts(n);
        LeadShow(args[0], PIPE, j + k);
        CatTwo(Show(args[0], PIPE), j, k);
      }
    case AtN(a, i) =>
      var j := [LBracket] + Show(i, RET) + [RBracket];
      LeadShow(a, CALL, j + k);
      CatTwo(Show(a, CALL), j, k);
    case DotN(access, a, key) =>
      LeadShow(a, DOT, [Dot(access), Name(key)] + k);
      CatTwo(Show(a, DOT), [Dot(access), Name(key)], k);
    case NotN(e) => LeadToken(Bang, Show(e, POSTFIX), k);
    case BitNotN(e) => LeadToken(Tilde, Show(e, POSTFIX), k);
    case RetN(e) => LeadToken(Return, Show(e, PIPE), k);
  }

  lemma CatTwo(a: seq<Token>, b: seq<Token>, k: seq<Token>)
    ensures (a + b) + k == a + (b + k)
  {
  }

  lemma LeadToken(t: Token, ts: seq<Token>, k: seq<Token>)
    requires t != RParen && !t.Name?
    ensures NotNames([t] + ts + k)
  {
  }

  lemma NamesEnd(ts: seq<Token>)
    requires NotNames(ts)
    ensures !At(ParseParams(ts).1, RParen)
  {
    if ts[0].Name? {
      assert ParseParams(ts[1..]) == ([], ts[1..]);
    }
  }

  lemma {:induction false} ParamsParse(ps: seq<string>, k: seq<Token>)
    ensures ParseParams(ShowParams(ps) + ([RParen] + k)) == (ps, [RParen] + k)
    decreases |ps|
  {
    var ts := ShowParams(ps) + ([RParen] + k);
    if ps == [] {
      assert ts == [RParen] + k;
    } else if |ps| == 1 {
      assert ts == [Name(ps[0])] + ([RParen] + k);
      assert ts[1..] == [RParen] + k;
      assert ParseParams(ts[1..]) == ([], ts[1..]);
      assert !At(ts[1..], Comma) && ts[0] == Name(ps[0]);
      assert ps == [ps[0]] + [];
    } else {
      assert ps == [ps[0]] + ps[1..];
      ParamsParse(ps[1..], k);
      assert ts[2..] == ShowParams(ps[1..]) + ([RParen] + k);
      assert At(ts[1..], Comma);
    }
  }

  // --------------------------------------------------------------- round trip

  function Measure(n: Node, l: nat): nat
    requires l <= PRIMARY
  {
    if l <= Level(n) then Level(n) - l else 100 - l
  }

  /** A print parsed at its own rung or a looser one. */
  lemma {:induction false} ShowParses(t: Tree, l: nat, k: seq<Token>)
    requires l <= PRIMARY && MarkedNode(t.node) && Stops(l, k)
    ensures Parse(l, Show(t, l) + k) == Got(Plain(t.node), k)
    decreases t, Measure(t.node, l), 3
  {
    hide Parse, Loop, Raw, Stops;
    var v := Level(t.node);
    StopsTighter(l, k);
    if l < v || (v < l && l < PRIMARY) {
      ShowParses(t, l + 1, k);
      assert Show(t, l) == Show(t, l + 1);
      Climb(l, Show(t, l) + k, Plain(t.node), k);
    } else if v < l {
      ParenParses(t, k);
    } else if IsLoop(l) {
      ShowLoops(t, l, k);
      LoopDone(l, Plain(t.node), k);
    } else if l == RET {
      RetParses(t, k);
    } else if l == ASSIGN {
      AssignParses(t, k);
    } else if l == PREFIX {
      PrefixParses(t, k);
    } else if l == PRIMARY {
      LeafParses(t, k);
    } else {
      NoPostfix(t.node);
    }
  }

  lemma StopsTighter(l: int, k: seq<Token>)
    requires Stops(l, k)
    ensures Stops(l + 1, k) && Stops(l + 2, k)
  {
  }

  lemma NoPostfix(n: Node)
    requires MarkedNode(n)
    ensures Level(n) != POSTFIX
  {
  }

  lemma Cat(x: seq<Token>, m: seq<Token>, y: seq<Token>, k: seq<Token>)
    ensures (x + (m + y)) + k == x + (m + (y + k))
  {
  }

  lemma {:induction false} ParenParses(t: Tree, k: seq<Token>)
    requires MarkedNode(t.node) && Level(t.node) < PRIMARY
    ensures Parse(PRIMARY, Show(t, PRIMARY) + k) == Got(Plain(t.node), k)
    decreases t, Measure(t.node, PRIMARY), 0
  {
    hide Parse, Loop, Raw, ParseParams;
    var j := [RParen] + k;
    ShowParses(t, RET, j);
    LeadRaw(t.node, j);
    NamesEnd(Raw(t.node) + j);
    var ts := [LParen] + (Raw(t.node) + j);
    assert Show(t, PRIMARY) + k == ts;
    assert ts[1..] == Raw(t.node) + j;
    assert j[1..] == k;
    ParseLeaf(ts);
    ParenIs(ts);
  }

  lemma ParenIs(ts: seq<Token>)
    requires At(ts, LParen) && !At(ParseParams(ts[1..]).1, RParen)
    ensures ParsePrimary(ts) ==
      var e := Parse(RET, ts[1..]);
      if e.Got? then if At(e.rest, RParen) then Got(e.t, e.rest[1..]) else Soft
      else e
  {
    hide Parse, ParseParams;
  }

  lemma {:induction false} RetParses(t: Tree, k: seq<Token>)
    requires MarkedNode(t.node) && Level(t.node) == RET && Stops(RET, k)
    ensures Parse(RET, Show(t, RET) + k) == Got(Plain(t.node), k)
    decreases t, Measure(t.node, RET), 0
  {
    hide Parse, Loop;
    var e := t.node.e;
    ShowParses(e, PIPE, k);
    assert Show(t, RET) == [Return] + Show(e, PIPE);
    hide Show;
    var ts := [Return] + (Show(e, PIPE) + k);
    assert Show(t, RET) + k == ts;
    assert ts[1..] == Show(e, PIPE) + k;
    SoftStart(PIPE, ts);
    ParseRet(ts);
  }

  lemma {:induction false} AssignParses(t: Tree, k: seq<Token>)
    requires MarkedNode(t.node) && Level(t.node) == ASSIGN && Stops(ASSIGN, k)
    ensures Parse(ASSIGN, Show(t, ASSIGN) + k) == Got(Plain(t.node), k)
    decreases t, Measure(t.node, ASSIGN), 0
  {
    hide Parse, Loop;
    var x, y := t.node.l, t.node.r;
    assert Show(t, ASSIGN) == Show(x, COND) + ([Equals] + Show(y, ASSIGN));
    var j := [Equals] + (Show(y, ASSIGN) + k);
    ShowParses(x, COND, j);
    ShowParses(y, ASSIGN, k);
    hide Show;
    Cat(Show(x, COND), [Equals], Show(y, ASSIGN), k);
    assert j[1..] == Show(y, ASSIGN) + k;
    ParseAssign(Show(x, COND) + j);
  }

  lemma {:induction false} PrefixParses(t: Tree, k: seq<Token>)
    requires MarkedNode(t.node) && Level(t.node) == PREFIX && Stops(PREFIX, k)
    ensures Parse(PREFIX, Show(t, PREFIX) + k) == Got(Plain(t.node), k)
    decreases t, Measure(t.node, PREFIX), 0
  {
    hide Parse, Loop;
    var e := t.node.e;
    StopsTighter(PREFIX, k);
    ShowParses(e, POSTFIX, k);
    var token := if t.node.NotN? then Bang else Tilde;
    assert Show(t, PREFIX) == [token] + Show(e, POSTFIX);
    hide Show;
    var ts := [token] + (Show(e, POSTFIX) + k);
    assert Show(t, PREFIX) + k == ts;
    assert ts[1..] == Show(e, POSTFIX) + k;
    SoftStart(POSTFIX, ts);
    ParsePrefix(ts);
  }

  lemma {:induction false} LeafParses(t: Tree, k: seq<Token>)
    requires MarkedNode(t.node) && Level(t.node) == PRIMARY
    ensures Parse(PRIMARY, Show(t, PRIMARY) + k) == Got(Plain(t.node), k)
    decreases t, 0, 1
  {
    match t.node
    case IntN(_) => ParseLeaf(Show(t, PRIMARY) + k);
    case BoolN(_) => ParseLeaf(Show(t, PRIMARY) + k);
    case VarN(_) => ParseLeaf(Show(t, PRIMARY) + k);
    case ScopeN(body) => ScopeParses(t, k);
    case FunctionN(ps, body) => FunctionParses(t, k);
    case ArrayN(es) => ArrayParses(t, k);
    case StructN(members) => StructParses(t, k);
  }

  lemma {:induction false} ScopeParses(t: Tree, k: seq<Token>)
    requires MarkedNode(t.node) && t.node.ScopeN?
    ensures Parse(PRIMARY, Show(t, PRIMARY) + k) == Got(Plain(t.node), k)
    decreases t, 0, 0
  {
    hide Parse, ParseLines, ParseBody, ShowLines;
    var body := t.node.body;
    var b := ShowLines(body);
    var ts := [LBrace] + (b + ([RBrace] + k));
    assert Show(t, PRIMARY) + k == ts;
    assert ts[1..] == b + ([RBrace] + k);
    ParseLeaf(ts);
    BodyParses(body, k, b => Plain(ScopeN(b)));
  }

  lemma FunctionTokens(t: Tree, k: seq<Token>)
    requires t.node.FunctionN?
    ensures Show(t, PRIMARY) + k ==
      [LParen] + (ShowParams(t.node.params) + ([RParen] + ([LBrace] + (ShowLines(t.node.body) + ([RBrace] + k)))))
  {
    hide ShowLines, ShowParams;
    var p, b := ShowParams(t.node.params), ShowLines(t.node.body);
    assert Show(t, PRIMARY) == [LParen] + p + [RParen, LBrace] + b + [RBrace];
  }

  lemma {:induction false} FunctionParses(t: Tree, k: seq<Token>)
    requires MarkedNode(t.node) && t.node.FunctionN?
    ensures Parse(PRIMARY, Show(t, PRIMARY) + k) == Got(Plain(t.node), k)
    decreases t, 0, 0
  {
    hide Parse, ParseLines, ParseBody, ShowLines, ParseParams, ShowParams;
    var ps, body := t.node.params, t.node.body;
    FunctionTokens(t, k);
    var j := [LBrace] + (ShowLines(body) + ([RBrace] + k));
    var rest := [RParen] + j;
    var ts := [LParen] + (ShowParams(ps) + rest);
    assert ts[1..] == ShowParams(ps) + rest;
    assert rest[1..] == j && rest[2..] == ShowLines(body) + ([RBrace] + k);
    ParamsParse(ps, j);
    ParseLeaf(ts);
    hide Show;
    BodyParses(body, k, b => Plain(FunctionN(ps, b)));
  }

  lemma {:induction false} BodyParses(body: seq<Tree>, k: seq<Token>, f: seq<Tree> -> Tree)
    requires MarkedAll(body)
    ensures ParseBody(ShowLines(body) + ([RBrace] + k), f) == Got(f(body), k)
    decreases body, 1000, 0
  {
    hide Parse, ParseLines, ShowLines;
    LinesParse(body, k);
    assert ([RBrace] + k)[1..] == k;
  }

  lemma LinesNext(ts: seq<Token>, t: Tree, j: seq<Token>, more: seq<Tree>, rest: seq<Token>)
    requires Parse(RET, ts) == Got(t, [Semi] + j) && ParseLines(j) == Items(more, rest)
    ensures ParseLines(ts) == Items([t] + more, rest)
  {
    hide Parse;
    assert ([Semi] + j)[1..] == j;
  }

  lemma LinesEnd(k: seq<Token>)
    ensures ParseLines([RBrace] + k) == Items([], [RBrace] + k)
  {
    SoftStart(RET, [RBrace] + k);
    hide Parse;
  }

  /** What closes a list of arguments or members. */
  predicate Closes(end: seq<Token>)
  {
    end != [] && (end[0] == RParen || end[0] == RBracket)
  }

  lemma ListEnd(end: seq<Token>)
    requires Closes(end)
    ensures ParseArgs(end) == Items([], end) && ParseEntries(end) == Entries([], end) && Stops(RET, end)
  {
    SoftStart(RET, end);
    hide Parse;
  }

  lemma {:induction false} LinesParse(body: seq<Tree>, k: seq<Token>)
    requires MarkedAll(body)
    ensures ParseLines(ShowLines(body) + ([RBrace] + k)) == Items(body, [RBrace] + k)
    decreases body, 999, 0
  {
    hide Parse, Show, ParseLines;
    if body == [] {
      assert ShowLines(body) + ([RBrace] + k) == [RBrace] + k;
      LinesEnd(k);
    } else {
      var j := ShowLines(body[1..]) + ([RBrace] + k);
      ShowParses(body[0], RET, [Semi] + j);
      LinesParse(body[1..], k);
      Cat(Show(body[0], RET), [Semi], ShowLines(body[1..]), [RBrace] + k);
      LinesNext(Show(body[0], RET) + ([Semi] + j), body[0], j, body[1..], [RBrace] + k);
      assert body == [body[0]] + body[1..];
    }
  }

  lemma ArgsNext(ts: seq<Token>, t: Tree, rest: seq<Token>, j: seq<Token>, more: seq<Tree>, end: seq<Token>)
    requires Parse(RET, ts) == Got(t, rest) && j == (if At(rest, Comma) then rest[1..] else rest)
    requires ParseArgs(j) == Items(more, end)
    ensures ParseArgs(ts) == Items([t] + more, end)
  {
    hide Parse;
  }

  lemma {:induction false} ArgsParse(args: seq<Tree>, end: seq<Token>)
    requires MarkedAll(args) && Closes(end)
    ensures ParseArgs(ShowArgs(args) + end) == Items(args, end)
    decreases args, 999, 0
  {
    hide Parse, Show, ParseArgs;
    ListEnd(end);
    if args == [] {
      assert ShowArgs(args) + end == end;
    } else if |args| == 1 {
      ShowParses(args[0], RET, end);
      ArgsNext(Show(args[0], RET) + end, args[0], end, end, [], end);
      assert args == [args[0]];
    } else {
      var j := ShowArgs(args[1..]) + end;
      ShowParses(args[0], RET, [Comma] + j);
      ArgsParse(args[1..], end);
      Cat(Show(args[0], RET), [Comma], ShowArgs(args[1..]), end);
      assert ([Comma] + j)[1..] == j;
      ArgsNext(Show(args[0], RET) + ([Comma] + j), args[0], [Comma] + j, j, args[1..], end);
      assert args == [args[0]] + args[1..];
    }
  }

  // ------------------------------------------------------ arrays and structures

  /** The tokens are not taken for a member's name and colon, nor for the end of the brackets. */
  predicate NotKey(ts: seq<Token>)
  {
    ts != [] && ts[0] != RBracket && (ts[0].Name? && |ts| > 1 ==> ts[1] != Colon)
  }

  lemma {:induction false} LeadElement(t: Tree, l: nat, k: seq<Token>)
    requires MarkedNode(t.node) && !At(k, Colon)
    ensures Show(t, l) != [] && NotKey(Show(t, l) + k)
    decreases t, 1
  {
    if l <= Level(t.node) {
      LeadElementRaw(t.node, k);
    }
  }

  lemma {:induction false} LeadElementRaw(n: Node, k: seq<Token>)
    requires MarkedNode(n) && !At(k, Colon)
    ensures Raw(n) != [] && NotKey(Raw(n) + k)
    decreases n, 0
  {
    hide Show, ShowArgs, NotKey;
    match n
    case InfixN(op, l, r) => LeadBehind(l, Rung(op), [Operator(op)] + Show(r, Rung(op) + 1), k);
    case CondN(c, x, y) => LeadBehind(c, COND, [Question] + Show(x, COND + 1) + [Colon] + Show(y, COND + 1), k);
    case AssignN(l, r) => LeadBehind(l, COND, [Equals] + Show(r, ASSIGN), k);
    case CallN(f, args) =>
      if f.toCall {
        LeadBehind(f, CALL, [LParen] + ShowArgs(args) + [RParen], k);
      } else {
        PipeParts(n);
        LeadBehind(args[0], PIPE, [Arrow] + Show(f, ASSIGN), k);
      }
    case AtN(a, i) => LeadBehind(a, CALL, [LBracket] + Show(i, RET) + [RBracket], k);
    case DotN(access, a, key) => LeadBehind(a, DOT, [Dot(access), Name(key)], k);
    case NotN(e) => KeyToken(Bang, Show(e, POSTFIX), k);
    case BitNotN(e) => KeyToken(Tilde, Show(e, POSTFIX), k);
    case RetN(e) => KeyToken(Return, Show(e, PIPE), k);
    case _ => LeadLeaf(n, k);
  }

  lemma {:induction false} LeadBehind(t: Tree, l: nat, j: seq<Token>, k: seq<Token>)
    requires MarkedNode(t.node) && j != [] && j[0] != Colon
    ensures Show(t, l) + j != [] && NotKey(Show(t, l) + j + k)
    decreases t, 2
  {
    hide Show;
    LeadElement(t, l, j + k);
    CatTwo(Show(t, l), j, k);
  }

  lemma KeyToken(t: Token, ts: seq<Token>, k: seq<Token>)
    requires t != RBracket && !t.Name?
    ensures [t] + ts != [] && NotKey([t] + ts + k)
  {
  }

  lemma LeadLeaf(n: Node, k: seq<Token>)
    requires MarkedNode(n) && Level(n) == PRIMARY && !At(k, Colon)
    ensures Raw(n) != [] && NotKey(Raw(n) + k)
  {
  }

  lemma {:induction false} ClimbUp(l: nat, m: nat, ts: seq<Token>, t: Tree, k: seq<Token>)
    requires l <= m <= PRIMARY && Parse(m, ts) == Got(t, k) && Stops(l, k)
    ensures Parse(l, ts) == Got(t, k)
    decreases m
  {
    hide Parse;
    if l < m {
      Climb(m - 1, ts, t, k);
      ClimbUp(l, m - 1, ts, t, k);
    }
  }

  /** The first element, parenthesised or not. */
  lemma {:induction false} GuardedParses(t: Tree, k: seq<Token>)
    requires MarkedNode(t.node) && Stops(RET, k) && !At(k, Colon)
    ensures var g := Guarded(Show(t, RET));
      Parse(RET, g + k) == Got(Plain(t.node), k) && NotKey(g + k) && g != [] && g[0] != Bang
    decreases t, 1002, 0
  {
    hide Parse, Raw, Stops;
    LeadElement(t, RET, k);
    if Show(t, RET)[0] == Bang {
      BangLevel(t.node);
      ParenParses(t, k);
      assert Guarded(Show(t, RET)) == Show(t, PRIMARY);
      StopsAll(k);
      ClimbUp(RET, PRIMARY, Show(t, PRIMARY) + k, Plain(t.node), k);
    } else {
      ShowParses(t, RET, k);
    }
  }

  lemma StopsAll(k: seq<Token>)
    requires Stops(RET, k)
    ensures forall l: nat :: Stops(l, k)
  {
  }

  lemma BangLevel(n: Node)
    requires Raw(n) != [] && Raw(n)[0] == Bang
    ensures Level(n) < PRIMARY
  {
  }

  lemma {:induction false} ElementsParse(es: seq<Tree>, end: seq<Token>)
    requires es != [] && MarkedAll(es) && Closes(end)
    ensures var ts := ShowElements(es) + end;
      ParseArgs(ts) == Items(es, end) && NotKey(ts) && !At(ts, Bang)
    decreases es, 1000, 0
  {
    hide Parse, Show, ParseArgs, Guarded, NotKey;
    ListEnd(end);
    var g := Guarded(Show(es[0], RET));
    if |es| == 1 {
      GuardedParses(es[0], end);
      ArgsNext(g + end, es[0], end, end, [], end);
      assert es == [es[0]];
    } else {
      var j := ShowArgs(es[1..]) + end;
      GuardedParses(es[0], [Comma] + j);
      ArgsParse(es[1..], end);
      Cat(g, [Comma], ShowArgs(es[1..]), end);
      assert ([Comma] + j)[1..] == j;
      ArgsNext(g + ([Comma] + j), es[0], [Comma] + j, j, es[1..], end);
      assert es == [es[0]] + es[1..];
    }
  }

  lemma NoEntries(ts: seq<Token>)
    requires NotKey(ts)
    ensures ParseEntries(ts) == Entries([], ts) && !At(ts, RBracket)
  {
  }

  lemma {:induction false} ArrayParses(t: Tree, k: seq<Token>)
    requires MarkedNode(t.node) && t.node.ArrayN?
    ensures Parse(PRIMARY, Show(t, PRIMARY) + k) == Got(Plain(t.node), k)
    decreases t, 0, 0
  {
    hide Parse, ParseArgs, ParseEntries, ShowElements, NotKey;
    var es := t.node.es;
    var end := [RBracket] + k;
    var ts := [LBracket] + (ShowElements(es) + end);
    assert Show(t, PRIMARY) + k == ts;
    assert ts[1..] == ShowElements(es) + end && end[1..] == k;
    ElementsParse(es, end);
    NoEntries(ts[1..]);
    ParseLeaf(ts);
  }

  lemma EntriesNext(key: string, ts: seq<Token>, t: Tree, rest: seq<Token>, j: seq<Token>, more: seq<Entry>,
                    end: seq<Token>)
    requires Parse(RET, ts) == Got(t, rest) && j == (if At(rest, Comma) then rest[1..] else rest)
    requires ParseEntries(j) == Entries(more, end)
    ensures ParseEntries([Name(key), Colon] + ts) == Entries([Entry(key, t)] + more, end)
  {
    hide Parse;
    assert ([Name(key), Colon] + ts)[2..] == ts;
  }

  lemma EntriesTokens(es: seq<Entry>, end: seq<Token>)
    requires es != []
    ensures var e := es[0];
      ShowEntries(es) + end == [Name(e.key), Colon] +
        (Show(e.val, RET) + if |es| == 1 then end else [Comma] + (ShowEntries(es[1..]) + end))
  {
    hide Show;
    var e := es[0];
    if |es| == 1 {
      CatTwo([Name(e.key), Colon], Show(e.val, RET), end);
    } else {
      CatTwo([Name(e.key), Colon], Show(e.val, RET) + ([Comma] + ShowEntries(es[1..])), end);
      Cat(Show(e.val, RET), [Comma], ShowEntries(es[1..]), end);
    }
  }

  lemma {:induction false} EntriesParse(es: seq<Entry>, end: seq<Token>)
    requires MarkedEntries(es) && Closes(end)
    ensures ParseEntries(ShowEntries(es) + end) == Entries(es, end) && !At(ShowEntries(es) + end, Bang)
    decreases es, 999, 0
  {
    if es == [] {
      hide Parse, ParseEntries;
      ListEnd(end);
      assert ShowEntries(es) + end == end;
    } else {
      hide Parse, Show, ParseEntries, ShowEntries, Raw;
      var e := es[0];
      EntriesTokens(es, end);
      assert es == [e] + es[1..];
      if |es| == 1 {
        ListEnd(end);
        ShowParses(e.val, RET, end);
        EntriesNext(e.key, Show(e.val, RET) + end, e.val, end, end, [], end);
      } else {
        var j := ShowEntries(es[1..]) + end;
        ShowParses(e.val, RET, [Comma] + j);
        EntriesParse(es[1..], end);
        assert ([Comma] + j)[1..] == j;
        EntriesNext(e.key, Show(e.val, RET) + ([Comma] + j), e.val, [Comma] + j, j, es[1..], end);
      }
    }
  }

  lemma {:induction false} StructParses(t: Tree, k: seq<Token>)
    requires MarkedNode(t.node) && t.node.StructN?
    ensures Parse(PRIMARY, Show(t, PRIMARY) + k) == Got(Plain(t.node), k)
    decreases t, 0, 0
  {
    hide Parse, ParseArgs, ParseEntries, ShowEntries, InOrder, Collected;
    var es := t.node.members;
    var end := [RBracket] + k;
    var ts := [LBracket] + (ShowEntries(es) + end);
    assert Show(t, PRIMARY) + k == ts;
    assert ts[1..] == ShowEntries(es) + end && end[1..] == k;
    EntriesParse(es, end);
    CollectedInOrder(es);
    ParseLeaf(ts);
  }

  lemma {:induction false} InsertedLast(es: seq<Entry>, e: Entry)
    requires InOrder(es) && forall i :: 0 <= i < |es| ==> Keys.Less(es[i].key, e.key)
    ensures Inserted(es, e) == es + [e]
    decreases |es|
  {
    if es != [] {
      if Keys.Less(e.key, es[0].key) || es[0].key == e.key {
        if Keys.Less(e.key, es[0].key) {
          Keys.LessTransitive(e.key, es[0].key, e.key);
        }
        Keys.LessIrreflexive(e.key);
        assert false;
      }
      InsertedLast(es[1..], e);
    }
  }

  /** Members written in order are collected as they are. */
  lemma {:induction false} CollectedInOrder(es: seq<Entry>)
    requires InOrder(es)
    ensures Collected(es) == es
    decreases |es|
  {
    if es != [] {
      var front := es[..|es| - 1];
      CollectedInOrder(front);
      InsertedLast(front, es[|es| - 1]);
    }
  }

  lemma {:induction false} InsertedKeeps(es: seq<Entry>, e: Entry)
    requires InOrder(es) && MarkedEntries(es) && Marked(e.val, false, false)
    ensures InOrder(Inserted(es, e)) && MarkedEntries(Inserted(es, e))
    ensures forall x :: x in Inserted(es, e) ==> x in es || x == e
    decreases |es|
  {
    hide Marked;
    if es == [] {
    } else if Keys.Less(e.key, es[0].key) {
      InFront(e, es);
    } else if es[0].key == e.key {
    } else {
      Keys.LessTotal(e.key, es[0].key);
      var more := Inserted(es[1..], e);
      InsertedKeeps(es[1..], e);
      forall j | 0 <= j < |more|
        ensures Keys.Less(es[0].key, more[j].key)
      {
        assert more[j] in more;
      }
      OrderedCons(es[0], more);
    }
  }

  lemma InFront(e: Entry, es: seq<Entry>)
    requires InOrder(es) && es != [] && Keys.Less(e.key, es[0].key)
    ensures InOrder([e] + es)
  {
    forall j | 0 <= j < |es|
      ensures Keys.Less(e.key, es[j].key)
    {
      if j > 0 {
        Keys.LessTransitive(e.key, es[0].key, es[j].key);
      }
    }
    OrderedCons(e, es);
  }

  lemma OrderedCons(e: Entry, es: seq<Entry>)
    requires InOrder(es) && forall j :: 0 <= j < |es| ==> Keys.Less(e.key, es[j].key)
    ensures InOrder([e] + es)
  {
  }

  lemma {:induction false} MarkedLast(es: seq<Entry>)
    requires es != [] && MarkedEntries(es)
    ensures MarkedEntries(es[..|es| - 1]) && Marked(es[|es| - 1].val, false, false)
    decreases |es|
  {
    hide Marked;
    if |es| > 1 {
      MarkedLast(es[1..]);
      assert es[..|es| - 1][1..] == es[1..][..|es| - 2];
    }
  }

  /** Whatever is written, the members collected are in order. */
  lemma {:induction false} CollectedKeeps(es: seq<Entry>)
    requires MarkedEntries(es)
    ensures InOrder(Collected(es)) && MarkedEntries(Collected(es))
    decreases |es|
  {
    hide Marked;
    if es == [] {
    } else {
      hide InOrder;
      MarkedLast(es);
      CollectedKeeps(es[..|es| - 1]);
      InsertedKeeps(Collected(es[..|es| - 1]), es[|es| - 1]);
    }
  }

  /** An entry replaces the one with its key. */
  lemma {:induction false} InsertedMember(es: seq<Entry>, e: Entry, x: Entry)
    requires InOrder(es)
    ensures x in Inserted(es, e) <==> x == e || (x in es && x.key != e.key)
    ensures InOrder(Inserted(es, e))
    decreases |es|
  {
    if es == [] {
    } else if Keys.Less(e.key, es[0].key) {
      InFront(e, es);
      Keys.LessIrreflexive(e.key);
      forall j | 0 <= j < |es| ensures es[j].key != e.key {
        assert Keys.Less(([e] + es)[0].key, ([e] + es)[j + 1].key);
      }
    } else if es[0].key == e.key {
      Keys.LessIrreflexive(e.key);
    } else {
      Keys.LessTotal(e.key, es[0].key);
      var more := Inserted(es[1..], e);
      InsertedMember(es[1..], e, x);
      assert es == [es[0]] + es[1..];
      forall j | 0 <= j < |more|
        ensures Keys.Less(es[0].key, more[j].key)
      {
        InsertedMember(es[1..], e, more[j]);
      }
      OrderedCons(es[0], more);
    }
  }

  /** The k-th member written is the last one with its key. */
  predicate LastOfKey(es: seq<Entry>, x: Entry, k: int)
  {
    0 <= k < |es| && es[k] == x && forall j :: k < j < |es| ==> es[j].key != x.key
  }

  /** Of the members written with the same key the last one is collected, and of every key one. */
  lemma {:induction false} LastIsCollected(es: seq<Entry>, x: Entry)
    ensures x in Collected(es) <==> exists k :: LastOfKey(es, x, k)
    ensures InOrder(Collected(es))
    decreases |es|
  {
    if es != [] {
      hide InOrder, Inserted;
      var n := |es| - 1;
      LastIsCollected(es[..n], x);
      InsertedMember(Collected(es[..n]), es[n], x);
      if x == es[n] {
        assert LastOfKey(es, x, n);
      }
      if k :| LastOfKey(es[..n], x, k) && x.key != es[n].key {
        assert LastOfKey(es, x, k);
      }
      if k :| LastOfKey(es, x, k) && x != es[n] {
        assert LastOfKey(es[..n], x, k);
      }
    }
  }

  /** At a left-folding rung, a print followed by more is what the loop has so far. */
  lemma {:induction false} ShowLoops(t: Tree, l: nat, k: seq<Token>)
    requires IsLoop(l) && MarkedNode(t.node) && Stops(l + 1, k)
    ensures Parse(l, Show(t, l) + k) == Loop(l, Plain(t.node), k)
    decreases t, Measure(t.node, l), 2
  {
    hide Parse, Loop, Raw, Stops;
    if l != Level(t.node) {
      ShowParses(t, l + 1, k);
      assert Show(t, l) == Show(t, l + 1);
      ParseLoops(l, Show(t, l) + k);
    } else if l == PIPE {
      PipeLoops(t, k);
    } else if l == COND {
      CondLoops(t, k);
    } else if l == CALL {
      CallLoops(t, k);
    } else if l == DOT {
      DotLoops(t, k);
    } else {
      InfixLoops(t, k);
    }
  }

  lemma LoopInfix(op: Infix, acc: Tree, ts: seq<Token>, y: Tree, k: seq<Token>)
    requires Parse(Rung(op) + 1, ts) == Got(y, k)
    ensures Loop(Rung(op), acc, [Operator(op)] + ts) == Loop(Rung(op), Plain(InfixN(op, acc, y)), k)
  {
    hide Parse;
    assert ([Operator(op)] + ts)[1..] == ts;
    LoopIs(Rung(op), acc, [Operator(op)] + ts);
  }

  lemma LoopCond(acc: Tree, ts: seq<Token>, x: Tree, us: seq<Token>, y: Tree, k: seq<Token>)
    requires Parse(COND + 1, ts) == Got(x, [Colon] + us) && Parse(COND + 1, us) == Got(y, k)
    ensures Loop(COND, acc, [Question] + ts) == Loop(COND, Plain(CondN(acc, x, y)), k)
  {
    hide Parse;
    assert ([Question] + ts)[1..] == ts && ([Colon] + us)[1..] == us;
    LoopIs(COND, acc, [Question] + ts);
  }

  lemma LoopPipe(acc: Tree, ts: seq<Token>, f: Tree, k: seq<Token>)
    requires Parse(ASSIGN, ts) == Got(f, k)
    ensures Loop(PIPE, acc, [Arrow] + ts) == Loop(PIPE, Plain(CallN(f, [acc])), k)
  {
    hide Parse;
    assert ([Arrow] + ts)[1..] == ts;
    LoopIs(PIPE, acc, [Arrow] + ts);
  }

  lemma LoopCall(acc: Tree, ts: seq<Token>, args: seq<Tree>, k: seq<Token>)
    requires ParseArgs(ts) == Items(args, [RParen] + k)
    ensures Loop(CALL, acc, [LParen] + ts) == Loop(CALL, Plain(CallN(SetToCall(acc), args)), k)
  {
    hide Parse, ParseArgs;
    assert ([LParen] + ts)[1..] == ts && ([RParen] + k)[1..] == k;
    LoopIs(CALL, acc, [LParen] + ts);
  }

  lemma LoopAt(acc: Tree, ts: seq<Token>, i: Tree, k: seq<Token>)
    requires Parse(RET, ts) == Got(i, [RBracket] + k)
    ensures Loop(CALL, acc, [LBracket] + ts) == Loop(CALL, Plain(AtN(acc, i)), k)
  {
    hide Parse;
    assert ([LBracket] + ts)[1..] == ts && ([RBracket] + k)[1..] == k;
    LoopIs(CALL, acc, [LBracket] + ts);
  }

  lemma LoopDot(acc: Tree, access: Access, key: string, k: seq<Token>)
    ensures Loop(DOT, acc, [Dot(access), Name(key)] + k) == Loop(DOT, Plain(DotN(access, acc, key)), k)
  {
    assert ([Dot(access), Name(key)] + k)[2..] == k;
    LoopIs(DOT, acc, [Dot(access), Name(key)] + k);
  }

  lemma {:induction false} InfixLoops(t: Tree, k: seq<Token>)
    requires t.node.InfixN? && MarkedNode(t.node) && Stops(Rung(t.node.op) + 1, k)
    ensures Parse(Rung(t.node.op), Show(t, Rung(t.node.op)) + k) == Loop(Rung(t.node.op), Plain(t.node), k)
    decreases t, 0, 0
  {
    hide Parse, Loop, Turn;
    var op, a, b := t.node.op, t.node.l, t.node.r;
    var l := Rung(op);
    assert Show(t, l) == Show(a, l) + ([Operator(op)] + Show(b, l + 1));
    ShowLoops(a, l, [Operator(op)] + (Show(b, l + 1) + k));
    ShowParses(b, l + 1, k);
    hide Show;
    Cat(Show(a, l), [Operator(op)], Show(b, l + 1), k);
    LoopInfix(op, a, Show(b, l + 1) + k, b, k);
  }

  lemma CondTokens(t: Tree, k: seq<Token>)
    requires t.node.CondN?
    ensures Show(t, COND) + k == Show(t.node.c, COND) + ([Question] +
      (Show(t.node.x, COND + 1) + ([Colon] + (Show(t.node.y, COND + 1) + k))))
  {
    var c, x, y := Show(t.node.c, COND), Show(t.node.x, COND + 1), Show(t.node.y, COND + 1);
    assert Show(t, COND) == c + ([Question] + x + [Colon] + y);
    hide Show;
  }

  lemma {:induction false} CondLoops(t: Tree, k: seq<Token>)
    requires t.node.CondN? && MarkedNode(t.node) && Stops(COND + 1, k)
    ensures Parse(COND, Show(t, COND) + k) == Loop(COND, Plain(t.node), k)
    decreases t, 0, 0
  {
    hide Parse, Loop, Turn, Show;
    var c, x, y := t.node.c, t.node.x, t.node.y;
    var us := Show(y, COND + 1) + k;
    var ts := Show(x, COND + 1) + ([Colon] + us);
    CondTokens(t, k);
    ShowLoops(c, COND, [Question] + ts);
    ShowParses(x, COND + 1, [Colon] + us);
    ShowParses(y, COND + 1, k);
    LoopCond(c, ts, x, us, y, k);
  }

  lemma {:induction false} PipeLoops(t: Tree, k: seq<Token>)
    requires MarkedNode(t.node) && Level(t.node) == PIPE && Stops(PIPE + 1, k)
    ensures Parse(PIPE, Show(t, PIPE) + k) == Loop(PIPE, Plain(t.node), k)
    decreases t, 0, 0
  {
    hide Parse, Loop, Turn;
    PipeParts(t.node);
    var f, x := t.node.f, t.node.args[0];
    assert t.node.args == [x];
    assert Show(t, PIPE) == Show(x, PIPE) + ([Arrow] + Show(f, ASSIGN));
    ShowLoops(x, PIPE, [Arrow] + (Show(f, ASSIGN) + k));
    ShowParses(f, ASSIGN, k);
    hide Show;
    Cat(Show(x, PIPE), [Arrow], Show(f, ASSIGN), k);
    LoopPipe(x, Show(f, ASSIGN) + k, f, k);
  }

  lemma {:induction false} CallLoops(t: Tree, k: seq<Token>)
    requires MarkedNode(t.node) && Level(t.node) == CALL && Stops(CALL + 1, k)
    ensures Parse(CALL, Show(t, CALL) + k) == Loop(CALL, Plain(t.node), k)
    decreases t, 0, 1
  {
    match t.node
    case CallN(_, _) => ParenthesesLoop(t, k);
    case AtN(_, _) => BracketsLoop(t, k);
  }

  lemma {:induction false} ParenthesesLoop(t: Tree, k: seq<Token>)
    requires t.node.CallN? && t.node.f.toCall && MarkedNode(t.node)
    ensures Parse(CALL, Show(t, CALL) + k) == Loop(CALL, Plain(t.node), k)
    decreases t, 0, 0
  {
    hide Parse, Loop, Turn, ParseArgs, ShowArgs;
    var f, args := t.node.f, t.node.args;
    assert Show(t, CALL) == Show(f, CALL) + ([LParen] + ShowArgs(args) + [RParen]);
    ShowLoops(f, CALL, [LParen] + (ShowArgs(args) + ([RParen] + k)));
    hide Show;
    ArgsParse(args, [RParen] + k);
    assert Show(t, CALL) + k == Show(f, CALL) + ([LParen] + (ShowArgs(args) + ([RParen] + k)));
    LoopCall(Plain(f.node), ShowArgs(args) + ([RParen] + k), args, k);
  }

  lemma {:induction false} BracketsLoop(t: Tree, k: seq<Token>)
    requires t.node.AtN? && MarkedNode(t.node)
    ensures Parse(CALL, Show(t, CALL) + k) == Loop(CALL, Plain(t.node), k)
    decreases t, 0, 0
  {
    hide Parse, Loop, Turn, Show;
    var a, x := t.node.a, t.node.i;
    var ts := Show(x, RET) + ([RBracket] + k);
    ShowLoops(a, CALL, [LBracket] + ts);
    ShowParses(x, RET, [RBracket] + k);
    BracketTokens(t, k);
    LoopAt(a, ts, x, k);
  }

  lemma BracketTokens(t: Tree, k: seq<Token>)
    requires t.node.AtN?
    ensures Show(t, CALL) + k == Show(t.node.a, CALL) + ([LBracket] + (Show(t.node.i, RET) + ([RBracket] + k)))
  {
    var a, x := Show(t.node.a, CALL), Show(t.node.i, RET);
    assert Show(t, CALL) == a + ([LBracket] + x + [RBracket]);
    hide Show;
  }

  lemma {:induction false} DotLoops(t: Tree, k: seq<Token>)
    requires t.node.DotN? && MarkedNode(t.node)
    ensures Parse(DOT, Show(t, DOT) + k) == Loop(DOT, Plain(t.node), k)
    decreases t, 0, 0
  {
    hide Parse, Loop, Turn;
    var a, access, key := t.node.a, t.node.access, t.node.key;
    ShowLoops(a, DOT, [Dot(access), Name(key)] + k);
    assert Show(t, DOT) + k == Show(a, DOT) + ([Dot(access), Name(key)] + k);
    LoopDot(a, access, key, k);
  }

  /** The round trip: every tree with the parser's marks is parsed back from its print. */
  lemma ParseShow(t: Tree)
    requires Marked(t, false, false)
    ensures ParseAll(Show(t, RET)) == Some(t)
  {
    hide Parse, Show;
    ShowParses(t, RET, []);
    assert Show(t, RET) + [] == Show(t, RET);
  }

  /** Prints are unambiguous. */
  lemma ShowInjective(t: Tree, u: Tree)
    requires Marked(t, false, false) && Marked(u, false, false) && Show(t, RET) == Show(u, RET)
    ensures t == u
  {
    ParseShow(t);
    ParseShow(u);
  }

  // ------------------------------------------------------ a negation in brackets

  lemma {:induction false} HardUp(l: nat, ts: seq<Token>)
    requires l <= PRIMARY && Parse(PRIMARY, ts) == Hard
    ensures Parse(l, ts) == Hard
    decreases PRIMARY - l
  {
    if l < PRIMARY {
      HardUp(l + 1, ts);
      hide Parse, Loop;
      if IsLoop(l) {
        ParseLoops(l, ts);
      } else if l == RET {
        ParseRet(ts);
      } else if l == ASSIGN {
        ParseAssign(ts);
      } else if l == PREFIX {
        ParsePrefix(ts);
      } else {
        ParsePostfix(ts);
      }
    }
  }

  lemma BracketBang(ts: seq<Token>)
    requires |ts| > 1 && ts[0] == LBracket && ts[1] == Bang
    ensures ParseAll(ts) == None
  {
    assert At(ts[1..], Bang);
    ParseLeaf(ts);
    hide Parse, ParseEntries, ParseArgs;
    HardUp(RET, ts);
  }

  lemma NegationArray(e: Tree) returns (list: Tree)
    requires Marked(e, false, false)
    ensures list == Plain(ArrayN([Plain(NotN(e))])) && Marked(list, false, false)
    ensures Show(list, RET) == [LBracket] + ([LParen] + Show(Plain(NotN(e)), RET) + [RParen]) + [RBracket]
  {
    var t := Plain(NotN(e));
    list := Plain(ArrayN([t]));
    assert Marked(t, false, false);
    assert [t][1..] == [] && MarkedAll([t]);
    assert Show(t, RET) == [Bang] + Show(e, POSTFIX);
    assert ShowElements([t]) == Guarded(Show(t, RET));
    assert Show(list, RET) == Raw(list.node);
  }

  /** An array whose first element is a negation cannot be written without parentheses around it: whatever
      follows, the parser reports an error; with them it is parsed. */
  lemma NegationFirst(e: Tree, rest: seq<Token>)
    requires Marked(e, false, false)
    ensures ParseAll([LBracket] + Show(Plain(NotN(e)), RET) + rest) == None
    ensures ParseAll([LBracket] + ([LParen] + Show(Plain(NotN(e)), RET) + [RParen]) + [RBracket]) ==
            Some(Plain(ArrayN([Plain(NotN(e))])))
  {
    assert Show(Plain(NotN(e)), RET) == [Bang] + Show(e, POSTFIX);
    hide ParseAll, Show, Marked;
    var list := NegationArray(e);
    ParseShow(list);
    BracketBang([LBracket] + Show(Plain(NotN(e)), RET) + rest);
  }

  // ------------------------------------------------------------------- sugar

  /** Behind E, ++ gives the tree of E = E + 1 and -- the one of E = E - 1. */
  lemma IncrementIsSugar(e: Tree)
    requires Marked(e, false, false)
    ensures ParseAll(Show(e, CALL) + [Increment]) ==
            ParseAll(Show(e, COND) + [Equals] + Show(e, 11) + [Operator(Op(Add)), Num(1)]) ==
            Some(Stepped(e, Add))
    ensures ParseAll(Show(e, CALL) + [Decrement]) ==
            ParseAll(Show(e, COND) + [Equals] + Show(e, 11) + [Operator(Op(Sub)), Num(1)]) ==
            Some(Stepped(e, Sub))
  {
    hide Parse, Show;
    PostfixParses(e, Increment, Add);
    PostfixParses(e, Decrement, Sub);
    WrittenOut(e, Add);
    WrittenOut(e, Sub);
  }

  /** In front of E they give the same trees. */
  lemma PrefixIsSugar(e: Tree)
    requires Marked(e, false, false)
    ensures ParseAll([Increment] + Show(e, POSTFIX)) == Some(Stepped(e, Add))
    ensures ParseAll([Decrement] + Show(e, POSTFIX)) == Some(Stepped(e, Sub))
  {
    PrefixStepParses(e, Increment, Add);
    PrefixStepParses(e, Decrement, Sub);
  }

  lemma PostfixParses(e: Tree, token: Token, op: BinOp)
    requires Marked(e, false, false)
    requires (token == Increment && op == Add) || (token == Decrement && op == Sub)
    ensures ParseAll(Show(e, CALL) + [token]) == Some(Stepped(e, op))
  {
    hide Parse, Show;
    var ts := Show(e, CALL) + [token];
    ShowParses(e, CALL, [token]);
    ParsePostfix(ts);
    assert [token][1..] == [];
    ClimbUp(RET, POSTFIX, ts, Stepped(e, op), []);
  }

  lemma PrefixStepParses(e: Tree, token: Token, op: BinOp)
    requires Marked(e, false, false)
    requires (token == Increment && op == Add) || (token == Decrement && op == Sub)
    ensures ParseAll([token] + Show(e, POSTFIX)) == Some(Stepped(e, op))
  {
    hide Parse, Show;
    var ts := [token] + Show(e, POSTFIX);
    ShowParses(e, POSTFIX, []);
    assert ts[1..] == Show(e, POSTFIX) + [];
    SoftStart(POSTFIX, ts);
    ParsePrefix(ts);
    ClimbUp(RET, PREFIX, ts, Stepped(e, op), []);
  }

  lemma WrittenOut(e: Tree, op: BinOp)
    requires Marked(e, false, false) && (op == Add || op == Sub)
    ensures ParseAll(Show(e, COND) + [Equals] + Show(e, 11) + [Operator(Op(op)), Num(1)]) == Some(Stepped(e, op))
  {
    hide ParseAll, Marked;
    var t := Stepped(e, op);
    SteppedMarks(e, op);
    ParseShow(t);
    SteppedTokens(e, op);
    var c, a := Show(e, COND), Show(e, 11);
    hide Show;
    assert c + [Equals] + a + [Operator(Op(op)), Num(1)] == c + ([Equals] + (a + ([Operator(Op(op))] + [Num(1)])));
  }

  lemma SteppedTokens(e: Tree, op: BinOp)
    requires op == Add || op == Sub
    ensures Show(Stepped(e, op), RET) == Show(e, COND) + ([Equals] + (Show(e, 11) + ([Operator(Op(op))] + [Num(1)])))
  {
    var t := Stepped(e, op);
    assert Show(Plain(IntN(1)), 12) == [Num(1)];
    assert Show(t.node.r, ASSIGN) == Show(e, 11) + ([Operator(Op(op))] + [Num(1)]);
    assert Show(t.node.l, COND) == Show(e, COND);
  }

  /** A parameter list and an expression in place of the braces: the function with this one line, the same
      tree as (x) {e;}. Only an expression that begins with a brace is no such line. */
  lemma ShortFunction(ps: seq<string>, e: Tree)
    requires Marked(e, false, false)
    ensures !At(Show(e, RET), LBrace) ==>
              ParseAll([LParen] + ShowParams(ps) + [RParen] + Show(e, RET)) ==
              ParseAll([LParen] + ShowParams(ps) + [RParen, LBrace] + Show(e, RET) + [Semi, RBrace]) ==
              Some(Plain(FunctionN(ps, [e])))
    ensures e.node.ScopeN? ==>
              ParseAll([LParen] + ShowParams(ps) + [RParen] + Show(e, RET)) ==
              Some(Plain(FunctionN(ps, e.node.body)))
  {
    hide Parse, ParseParams, ShowParams, ParseAll;
    LongFunction(ps, e);
    if !At(Show(e, RET), LBrace) {
      ShortParses(ps, e);
    }
    if e.node.ScopeN? {
      ScopeMarks(ps, e);
      ParseShow(Plain(FunctionN(ps, e.node.body)));
      var p, b := ShowParams(ps), ShowLines(e.node.body);
      hide ShowLines;
      assert [LParen] + p + [RParen] + ([LBrace] + b + [RBrace]) == [LParen] + p + [RParen, LBrace] + b + [RBrace];
    }
  }

  lemma ScopeMarks(ps: seq<string>, e: Tree)
    requires Marked(e, false, false) && e.node.ScopeN?
    ensures Marked(Plain(FunctionN(ps, e.node.body)), false, false)
  {
  }

  lemma LineMarks(ps: seq<string>, e: Tree)
    requires Marked(e, false, false)
    ensures Marked(Plain(FunctionN(ps, [e])), false, false)
  {
    assert [e][1..] == [] && MarkedAll([]);
    assert MarkedAll([e]);
  }

  lemma LongFunction(ps: seq<string>, e: Tree)
    requires Marked(e, false, false)
    ensures ParseAll([LParen] + ShowParams(ps) + [RParen, LBrace] + Show(e, RET) + [Semi, RBrace]) ==
            Some(Plain(FunctionN(ps, [e])))
  {
    hide Parse, ParseAll, ShowParams;
    var t := Plain(FunctionN(ps, [e]));
    LineMarks(ps, e);
    ParseShow(t);
    var p, s := ShowParams(ps), Show(e, RET);
    assert [e][1..] == [] && ShowLines([e]) == s + ([Semi] + []);
    hide Show, ShowLines;
    assert [LParen] + p + [RParen, LBrace] + (s + ([Semi] + [])) + [RBrace] ==
           [LParen] + p + [RParen, LBrace] + s + [Semi, RBrace];
  }

  lemma ShortParses(ps: seq<string>, e: Tree)
    requires Marked(e, false, false) && !At(Show(e, RET), LBrace)
    ensures ParseAll([LParen] + ShowParams(ps) + [RParen] + Show(e, RET)) == Some(Plain(FunctionN(ps, [e])))
  {
    hide Parse, ParseParams, ShowParams, Show, Marked;
    var j := Show(e, RET);
    MarkedParts(e);
    ShowParses(e, RET, []);
    assert j + [] == j;
    var rest := [RParen] + j;
    var ts := [LParen] + (ShowParams(ps) + rest);
    assert ts == [LParen] + ShowParams(ps) + [RParen] + j;
    assert ts[1..] == ShowParams(ps) + rest && rest[1..] == j;
    ParamsParse(ps, j);
    ParseLeaf(ts);
    assert Parse(RET, rest[1..]) == Got(e, []);
    ClimbUp(RET, PRIMARY, ts, Plain(FunctionN(ps, [e])), []);
    AllParsed(ts, Plain(FunctionN(ps, [e])));
  }

  // ---------------------------------------------------------------- grouping

  /** Without parentheses, ?: groups to the left. */
  lemma ConditionalsGroupLeft(c: Tree, x: Tree, y: Tree, x2: Tree, y2: Tree)
    requires Marked(c, false, false) && Marked(x, false, false) && Marked(y, false, false)
    requires Marked(x2, false, false) && Marked(y2, false, false)
    ensures var s := COND + 1;
      ParseAll(Show(c, s) + ([Question] + Show(x, s) + [Colon] + Show(y, s)) +
               ([Question] + Show(x2, s) + [Colon] + Show(y2, s))) ==
      Some(Plain(CondN(Plain(CondN(c, x, y)), x2, y2)))
  {
    hide Parse, Loop, Turn, Show, Marked, ParseAll;
    var s := COND + 1;
    var k := [Question] + Show(x2, s) + [Colon] + Show(y2, s);
    InnerConditional(c, x, y, k);
    OuterConditional(Show(c, s) + ([Question] + Show(x, s) + [Colon] + Show(y, s)), Plain(CondN(c, x, y)), x2, y2);
  }

  lemma OuterConditional(ts: seq<Token>, acc: Tree, x: Tree, y: Tree)
    requires Marked(x, false, false) && Marked(y, false, false)
    requires var k := [Question] + Show(x, COND + 1) + [Colon] + Show(y, COND + 1);
      Parse(COND, ts + k) == Loop(COND, acc, k)
    ensures ParseAll(ts + ([Question] + Show(x, COND + 1) + [Colon] + Show(y, COND + 1))) ==
            Some(Plain(CondN(acc, x, y)))
  {
    hide Parse, Loop, Turn, Show, Marked, ParseAll;
    var p, q := Show(x, COND + 1), Show(y, COND + 1);
    var k := [Question] + p + [Colon] + q;
    MarkedParts(x);
    MarkedParts(y);
    ShowParses(x, COND + 1, [Colon] + q);
    ShowParses(y, COND + 1, []);
    assert q + [] == q;
    assert k == [Question] + (p + ([Colon] + q));
    LoopCond(acc, p + ([Colon] + q), x, q, y, []);
    LoopDone(COND, Plain(CondN(acc, x, y)), []);
    ClimbUp(RET, COND, ts + k, Plain(CondN(acc, x, y)), []);
    AllParsed(ts + k, Plain(CondN(acc, x, y)));
  }

  lemma MarkedParts(t: Tree)
    requires Marked(t, false, false)
    ensures MarkedNode(t.node) && Plain(t.node) == t
  {
  }

  lemma AllParsed(ts: seq<Token>, t: Tree)
    requires Parse(RET, ts) == Got(t, [])
    ensures ParseAll(ts) == Some(t)
  {
    hide Parse;
  }

  lemma InnerConditional(c: Tree, x: Tree, y: Tree, k: seq<Token>)
    requires Marked(c, false, false) && Marked(x, false, false) && Marked(y, false, false) && Stops(COND + 1, k)
    ensures var s := COND + 1;
      Parse(COND, Show(c, s) + ([Question] + Show(x, s) + [Colon] + Show(y, s)) + k) ==
      Loop(COND, Plain(CondN(c, x, y)), k)
  {
    hide Parse, Loop, Turn, Show;
    var s := COND + 1;
    var us := Show(y, s) + k;
    var ts := Show(x, s) + ([Colon] + us);
    ShowParses(c, s, [Question] + ts);
    ShowParses(x, s, [Colon] + us);
    ShowParses(y, s, k);
    var a, b, d := Show(c, s), Show(x, s), Show(y, s);
    assert a + ([Question] + b + [Colon] + d) + k == a + ([Question] + ts);
    ParseLoops(COND, a + ([Question] + ts));
    LoopCond(c, ts, x, us, y, k);
  }

  /** Without parentheses, = groups to the right. */
  lemma AssignmentsGroupRight(a: Tree, b: Tree, e: Tree)
    requires Marked(a, false, false) && Marked(b, false, false) && Marked(e, false, false)
    ensures ParseAll(Show(a, COND) + ([Equals] + (Show(b, COND) + ([Equals] + Show(e, ASSIGN))))) ==
            Some(Plain(AssignN(SetLval(a), Plain(AssignN(SetLval(b), e)))))
  {
    var inner := Plain(AssignN(SetLval(b), e));
    var t := Plain(AssignN(SetLval(a), inner));
    assert Marked(SetLval(b), true, false) && Marked(SetLval(a), true, false);
    assert Marked(inner, false, false);
    ParseShow(t);
    assert Show(SetLval(b), COND) == Show(b, COND) && Show(SetLval(a), COND) == Show(a, COND);
    assert Show(inner, ASSIGN) == Raw(inner.node) == Show(SetLval(b), COND) + ([Equals] + Show(e, ASSIGN));
    assert Show(t, RET) == Raw(t.node) == Show(SetLval(a), COND) + ([Equals] + Show(inner, ASSIGN));
  }

  // ------------------------------------------------------------------- marks

  /** Every tree the parser returns carries exactly the parser's marks, and no increment or
      decrement. */
  lemma {:induction false} ParseMarks(l: nat, ts: seq<Token>)
    requires l <= PRIMARY && Parse(l, ts).Got?
    ensures Marked(Parse(l, ts).t, false, false)
    decreases |ts|, PRIMARY - l + 2, 1
  {
    hide Loop, ParsePrimary;
    if l == RET {
      hide Parse;
      ParseRet(ts);
      if Parse(PIPE, ts).Got? {
        ParseMarks(PIPE, ts);
      } else {
        ParseMarks(PIPE, ts[1..]);
      }
    } else if l == ASSIGN {
      hide Parse;
      ParseAssign(ts);
      var p := Parse(COND, ts);
      ParseMarks(COND, ts);
      if At(p.rest, Equals) && Parse(ASSIGN, p.rest[1..]).Got? {
        ParseMarks(ASSIGN, p.rest[1..]);
        assert Marked(SetLval(p.t), true, false);
      }
    } else if l == PREFIX {
      PrefixMarks(ts);
    } else if l == POSTFIX {
      hide Parse;
      ParsePostfix(ts);
      ParseMarks(CALL, ts);
      SteppedMarks(Parse(CALL, ts).t, Add);
      SteppedMarks(Parse(CALL, ts).t, Sub);
    } else if l == PRIMARY {
      PrimaryMarks(ts);
    } else {
      hide Parse;
      ParseLoops(l, ts);
      var p := Parse(l + 1, ts);
      ParseMarks(l + 1, ts);
      LoopMarks(l, p.t, p.rest);
    }
  }

  lemma {:induction false} PrefixMarks(ts: seq<Token>)
    requires Parse(PREFIX, ts).Got?
    ensures Marked(Parse(PREFIX, ts).t, false, false)
    decreases |ts|, PRIMARY - PREFIX + 2, 0
  {
    hide Parse;
    ParsePrefix(ts);
    if Parse(POSTFIX, ts).Got? {
      ParseMarks(POSTFIX, ts);
    } else {
      assert ts != [] && Parse(POSTFIX, ts[1..]).Got?;
      var t := Parse(POSTFIX, ts[1..]).t;
      ParseMarks(POSTFIX, ts[1..]);
      SteppedMarks(t, Add);
      SteppedMarks(t, Sub);
    }
  }

  lemma SteppedMarks(t: Tree, op: BinOp)
    requires Marked(t, false, false)
    ensures Marked(Stepped(t, op), false, false)
  {
    var one := Plain(IntN(1));
    assert Marked(one, false, false) && Marked(SetLval(t), true, false);
    assert Marked(Plain(InfixN(Op(op), t, one)), false, false);
  }

  lemma {:induction false} LoopMarks(l: nat, acc: Tree, ts: seq<Token>)
    requires IsLoop(l) && Marked(acc, false, false) && Loop(l, acc, ts).Got?
    ensures Marked(Loop(l, acc, ts).t, false, false)
    decreases |ts|, 1
  {
    hide Turn, Parse;
    LoopIs(l, acc, ts);
    var s := Turn(l, acc, ts);
    if s.Next? {
      TurnMarks(l, acc, ts);
      LoopMarks(l, s.t, s.rest);
    }
  }

  lemma {:induction false} TurnMarks(l: nat, acc: Tree, ts: seq<Token>)
    requires IsLoop(l) && Marked(acc, false, false) && Turn(l, acc, ts).Next?
    ensures Marked(Turn(l, acc, ts).t, false, false)
    decreases |ts|, 0
  {
    hide Parse, ParseArgs;
    if l == PIPE {
      ParseMarks(ASSIGN, ts[1..]);
      assert MarkedAll([acc]);
    } else if l == COND {
      var x := Parse(COND + 1, ts[1..]);
      ParseMarks(COND + 1, ts[1..]);
      ParseMarks(COND + 1, x.rest[1..]);
    } else if l == CALL {
      if ts[0] == LParen {
        ArgsMarks(ts[1..]);
        assert Marked(SetToCall(acc), false, true);
      } else {
        ParseMarks(RET, ts[1..]);
      }
    } else if l != DOT {
      ParseMarks(l + 1, ts[1..]);
    }
  }

  lemma {:induction false} ArgsMarks(ts: seq<Token>)
    requires ParseArgs(ts).Items?
    ensures MarkedAll(ParseArgs(ts).ts)
    decreases |ts|, PRIMARY + 3
  {
    hide Parse;
    var p := Parse(RET, ts);
    if p.Got? {
      ParseMarks(RET, ts);
      ArgsMarks(if At(p.rest, Comma) then p.rest[1..] else p.rest);
    }
  }

  lemma {:induction false} LinesMarks(ts: seq<Token>)
    requires ParseLines(ts).Items?
    ensures MarkedAll(ParseLines(ts).ts)
    decreases |ts|, PRIMARY + 3
  {
    hide Parse;
    var p := Parse(RET, ts);
    if p.Got? && At(p.rest, Semi) {
      ParseMarks(RET, ts);
      LinesMarks(p.rest[1..]);
    }
  }

  lemma {:induction false} EntriesMarks(ts: seq<Token>)
    requires ParseEntries(ts).Entries?
    ensures MarkedEntries(ParseEntries(ts).es)
    decreases |ts|, PRIMARY + 3
  {
    hide Parse;
    if |ts| >= 2 && ts[0].Name? && ts[1] == Colon {
      var p := Parse(RET, ts[2..]);
      if p.Got? {
        ParseMarks(RET, ts[2..]);
        EntriesMarks(if At(p.rest, Comma) then p.rest[1..] else p.rest);
      }
    }
  }

  /** Empty brackets are a structure, so an array has an element. */
  lemma EmptyBrackets(ts: seq<Token>)
    ensures At(ts, RBracket) ==> ParseEntries(ts) == Entries([], ts)
    ensures ParseArgs(ts).Items? && ParseArgs(ts).ts == [] ==> ParseArgs(ts).rest == ts
  {
    hide Parse;
  }

  lemma {:induction false} BracketsMarks(ts: seq<Token>)
    requires ParseBrackets(ts).Got?
    ensures Marked(ParseBrackets(ts).t, false, false)
    decreases |ts|, PRIMARY + 4
  {
    hide ParseArgs, ParseEntries, Collected;
    var s := ParseEntries(ts);
    EntriesMarks(ts);
    EmptyBrackets(ts);
    if At(s.rest, RBracket) {
      CollectedKeeps(s.es);
    } else {
      ArgsMarks(ts);
    }
  }

  lemma {:induction false} PrimaryMarks(ts: seq<Token>)
    requires Parse(PRIMARY, ts).Got?
    ensures Marked(Parse(PRIMARY, ts).t, false, false)
    decreases |ts|, 1
  {
    ParseLeaf(ts);
    hide Parse, ParseParams, ParseLines, ParseBrackets;
    if ts[0] == LBrace {
      LinesMarks(ts[1..]);
    } else if ts[0] == LBracket {
      BracketsMarks(ts[1..]);
    } else if ts[0] == LParen {
      var (params, rest) := ParseParams(ts[1..]);
      if At(rest, RParen) {
        if At(rest[1..], LBrace) {
          LinesMarks(rest[2..]);
        } else {
          ParseMarks(RET, rest[1..]);
          var line := Parse(RET, rest[1..]).t;
          assert MarkedAll([line]);
        }
      } else {
        ParseMarks(RET, ts[1..]);
      }
    }
  }
}
