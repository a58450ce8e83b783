/** Equality of syntax trees as the repository defines it, and the setters of their flags. */
module Equality {

  datatype Option<T> = None | Some(value: T)

  datatype Attr = Attr(where: nat, attributes: map<string, string>, lval: bool, toCall: bool, survey: bool)

  /** Floating-point numbers as far as == tells them apart. */
  datatype Double = NotANumber | Infinity(negative: bool) | Number(x: real)

  datatype TextKind = StringK | VariableK | PreVariableK | IdentifierK | StructKeyK | AttributeValK

  datatype ListKind = ArrayK | ArglistK | ScopeK

  datatype OpTag = AddT | SubT | PowT | MulT | DivT | RemT | ShlT | ShrT | IAndT | IOrT | IXorT | LAndT | LOrT
                 | EqT | NeT | GtT | LtT | GeT | LeT | AssignT | RetT | CallT | AtT | DotT | ODotT | ADotT
                 | LNotT | INotT | IncT | DecT | CondT

  datatype Param = Param(name: string, attr: Attr)

  /** A member of a structure literal; the members are in key order. */
  datatype Entry = Entry(key: string, keyAttr: Attr, val: Expr)

  datatype Expr =
    | Integer(i: int, attr: Attr)
    | Decimal(d: Double, attr: Attr)
    | Boolean(b: bool, attr: Attr)
    | Text(kind: TextKind, s: string, attr: Attr)
    | List(list: ListKind, es: seq<Expr>, attr: Attr)
    | Structure(entries: seq<Entry>, attr: Attr)
    | Function(params: seq<Param>, body: seq<Expr>, attr: Attr)
    | Operator(tag: OpTag, operands: seq<Expr>, attr: Attr)

  // ---------------------------------------------------------------- equality

  predicate SameAttr(a: Attr, b: Attr)
  {
    a.lval == b.lval && a.toCall == b.toCall && a.attributes == b.attributes
  }

  predicate SameDouble(x: Double, y: Double)
  {
    !x.NotANumber? && x == y
  }

  predicate SameParams(ps: seq<Param>, qs: seq<Param>)
  {
    |ps| == |qs| && forall k :: 0 <= k < |ps| ==> ps[k].name == qs[k].name && SameAttr(ps[k].attr, qs[k].attr)
  }

  /** The equality operator: values compare with their attributes, operator nodes without. */
  predicate Same(a: Expr, b: Expr)
    decreases a, 1
  {
    match a
    case Integer(i, attr) => b.Integer? && i == b.i && SameAttr(attr, b.attr)
    case Decimal(d, attr) => b.Decimal? && SameDouble(d, b.d) && SameAttr(attr, b.attr)
    case Boolean(v, attr) => b.Boolean? && v == b.b && SameAttr(attr, b.attr)
    case Text(kind, s, attr) => b.Text? && kind == b.kind && s == b.s && SameAttr(attr, b.attr)
    case List(list, es, attr) => b.List? && list == b.list && SameAll(es, b.es) && SameAttr(attr, b.attr)
    case Structure(entries, attr) => b.Structure? && SameEntries(entries, b.entries) && SameAttr(attr, b.attr)
    case Function(ps, body, attr) =>
      b.Function? && SameParams(ps, b.params) && SameAll(body, b.body) && SameAttr(attr, b.attr)
    case Operator(tag, operands, _) => b.Operator? && tag == b.tag && SameAll(operands, b.operands)
  }

  predicate SameAll(es: seq<Expr>, fs: seq<Expr>)
    decreases es, 0
  {
    if es == [] || fs == [] then es == fs
    else Same(es[0], fs[0]) && SameAll(es[1..], fs[1..])
  }

  predicate SameEntries(es: seq<Entry>, fs: seq<Entry>)
    decreases es, 0
  {
    if es == [] || fs == [] then es == fs
    else
      && es[0].key == fs[0].key && SameAttr(es[0].keyAttr, fs[0].keyAttr)
      && Same(es[0].val, fs[0].val) && SameEntries(es[1..], fs[1..])
  }

  // ----------------------------------------------------------------- setters

  function SetLval(e: Expr, b: bool): Expr
  {
    e.(attr := e.attr.(lval := b))
  }

  function SetToCall(e: Expr, b: bool): Expr
  {
    e.(attr := e.attr.(toCall := b))
  }

  function Marked(e: Expr, b: bool): Expr
  {
    e.(attr := e.attr.(survey := b))
  }

  /** The recursive setter descends into operands only. */
  function SetSurvey(e: Expr, b: bool): Expr
    decreases e, 1
  {
    Marked(if e.Operator? then Operator(e.tag, SetSurveyAll(e.operands, b), e.attr) else e, b)
  }

  function SetSurveyAll(es: seq<Expr>, b: bool): seq<Expr>
    decreases es, 0
  {
    if es == [] then [] else [SetSurvey(es[0], b)] + SetSurveyAll(es[1..], b)
  }

  // ------------------------------------------------------ what equality sees

  /** No floating-point literal that differs from itself. */
  predicate Comparable(e: Expr)
    decreases e, 1
  {
    match e
    case Decimal(d, _) => !d.NotANumber?
    case List(_, es, _) => ComparableAll(es)
    case Structure(entries, _) => ComparableEntries(entries)
    case Function(_, body, _) => ComparableAll(body)
    case Operator(_, operands, _) => ComparableAll(operands)
    case _ => true
  }

  predicate ComparableAll(es: seq<Expr>)
    decreases es, 0
  {
    es == [] || (Comparable(es[0]) && ComparableAll(es[1..]))
  }

  predicate ComparableEntries(es: seq<Entry>)
    decreases es, 0
  {
    es == [] || (Comparable(es[0].val) && ComparableEntries(es[1..]))
  }

  /** An attribute without place and survey flag. */
  function Seen(a: Attr): Attr
  {
    a.(where := 0, survey := false)
  }

  const UNSEEN := Attr(0, map[], false, false, false)

  function SeenParams(ps: seq<Param>): (qs: seq<Param>)
  {
    seq(|ps|, k requires 0 <= k < |ps| => Param(ps[k].name, Seen(ps[k].attr)))
  }

  /** A tree reduced to what equality looks at. */
  function Core(e: Expr): Expr
    decreases e, 1
  {
    match e
    case List(list, es, attr) => List(list, CoreAll(es), Seen(attr))
    case Structure(entries, attr) => Structure(CoreEntries(entries), Seen(attr))
    case Function(ps, body, attr) => Function(SeenParams(ps), CoreAll(body), Seen(attr))
    case Operator(tag, operands, _) => Operator(tag, CoreAll(operands), UNSEEN)
    case Integer(i, attr) => Integer(i, Seen(attr))
    case Decimal(d, attr) => Decimal(d, Seen(attr))
    case Boolean(b, attr) => Boolean(b, Seen(attr))
    case Text(kind, s, attr) => Text(kind, s, Seen(attr))
  }

  function CoreAll(es: seq<Expr>): (fs: seq<Expr>)
    ensures |fs| == |es|
    decreases es, 0
  {
    if es == [] then [] else [Core(es[0])] + CoreAll(es[1..])
  }

  function CoreEntries(es: seq<Entry>): (fs: seq<Entry>)
    ensures |fs| == |es|
    decreases es, 0
  {
    if es == [] then []
    else [Entry(es[0].key, Seen(es[0].keyAttr), Core(es[0].val))] + CoreEntries(es[1..])
  }

  // ------------------------------------------------------------------ lemmas

  lemma SameAttrExactly(a: Attr, b: Attr)
    ensures SameAttr(a, b) <==> Seen(a) == Seen(b)
  {
  }

  lemma SameParamsExactly(ps: seq<Param>, qs: seq<Param>)
    ensures SameParams(ps, qs) <==> SeenParams(ps) == SeenParams(qs)
  {
    if SeenParams(ps) == SeenParams(qs) {
      assert |SeenParams(ps)| == |ps| && |SeenParams(qs)| == |qs|;
      forall k | 0 <= k < |ps|
        ensures ps[k].name == qs[k].name && SameAttr(ps[k].attr, qs[k].attr)
      {
        assert SeenParams(ps)[k] == SeenParams(qs)[k];
      }
    }
  }

  /** Equality is exactly identity of what it looks at, among trees without NaN. */
  lemma {:induction false} SameExactly(a: Expr, b: Expr)
    ensures Same(a, b) <==> Comparable(a) && Comparable(b) && Core(a) == Core(b)
    decreases a, 1
  {
    SameAttrExactly(a.attr, b.attr);
    match a
    case Integer(_, _) =>
    case Decimal(_, _) =>
    case Boolean(_, _) =>
    case Text(_, _, _) =>
    case List(_, es, _) =>
      if b.List? {
        SameAllExactly(es, b.es);
      }
    case Structure(entries, _) =>
      if b.Structure? {
        SameEntriesExactly(entries, b.entries);
      }
    case Function(ps, body, _) =>
      if b.Function? {
        SameParamsExactly(ps, b.params);
        SameAllExactly(body, b.body);
      }
    case Operator(_, operands, _) =>
      if b.Operator? {
        SameAllExactly(operands, b.operands);
      }
  }

  lemma {:induction false} SameAllExactly(es: seq<Expr>, fs: seq<Expr>)
    ensures SameAll(es, fs) <==> ComparableAll(es) && ComparableAll(fs) && CoreAll(es) == CoreAll(fs)
    decreases es, 0
  {
    if es != [] && fs != [] {
      SameExactly(es[0], fs[0]);
      SameAllExactly(es[1..], fs[1..]);
      assert CoreAll(es)[0] == Core(es[0]) && CoreAll(es)[1..] == CoreAll(es[1..]);
      assert CoreAll(fs)[0] == Core(fs[0]) && CoreAll(fs)[1..] == CoreAll(fs[1..]);
    }
  }

  lemma {:induction false} SameEntriesExactly(es: seq<Entry>, fs: seq<Entry>)
    ensures SameEntries(es, fs) <==>
              ComparableEntries(es) && ComparableEntries(fs) && CoreEntries(es) == CoreEntries(fs)
    decreases es, 0
  {
    if es != [] && fs != [] {
      SameAttrExactly(es[0].keyAttr, fs[0].keyAttr);
      SameExactly(es[0].val, fs[0].val);
      SameEntriesExactly(es[1..], fs[1..]);
      assert CoreEntries(es)[0].val == Core(es[0].val) && CoreEntries(es)[1..] == CoreEntries(es[1..]);
      assert CoreEntries(fs)[0].val == Core(fs[0].val) && CoreEntries(fs)[1..] == CoreEntries(fs[1..]);
    }
  }

  /** Equality is an equivalence on the trees without NaN, and relates no others. */
  lemma Equivalence(a: Expr, b: Expr, c: Expr)
    ensures Same(a, a) <==> Comparable(a)
    ensures Same(a, b) ==> Same(b, a)
    ensures Same(a, b) && Same(b, c) ==> Same(a, c)
  {
    hide Same, Core, Comparable;
    SameExactly(a, a);
    SameExactly(a, b);
    SameExactly(b, a);
    SameExactly(b, c);
    SameExactly(a, c);
  }

  lemma {:induction false} SurveyUnseen(e: Expr, b: bool)
    ensures Core(SetSurvey(e, b)) == Core(e) && Comparable(SetSurvey(e, b)) == Comparable(e)
    decreases e, 1
  {
    if e.Operator? {
      SurveyUnseenAll(e.operands, b);
    }
  }

  lemma {:induction false} SurveyUnseenAll(es: seq<Expr>, b: bool)
    ensures CoreAll(SetSurveyAll(es, b)) == CoreAll(es) && ComparableAll(SetSurveyAll(es, b)) == ComparableAll(es)
    decreases es, 0
  {
    if es != [] {
      SurveyUnseen(es[0], b);
      SurveyUnseenAll(es[1..], b);
      var fs := SetSurveyAll(es, b);
      assert fs[0] == SetSurvey(es[0], b) && fs[1..] == SetSurveyAll(es[1..], b);
    }
  }

  /** The nodes that a path leads to, one operand of an operator node after the other. */
  function Below(e: Expr, path: seq<nat>): Option<Expr>
    decreases |path|
  {
    if path == [] then Some(e)
    else if e.Operator? && path[0] < |e.operands| then Below(e.operands[path[0]], path[1..])
    else None
  }

  /** A node without its flag for the survey pass, and without the operands of an operator node. */
  function Rest(e: Expr): Expr {
    Marked(if e.Operator? then Operator(e.tag, [], e.attr) else e, false)
  }

  /** The setter for the survey pass: on the node and on every operand below operator nodes the flag is b,
      and nothing else of these nodes has changed: not what they are, not their other attributes, not the
      number of their operands, not the values below them. */
  lemma {:induction false} SurveyEverywhere(e: Expr, b: bool, path: seq<nat>)
    ensures var was, now := Below(e, path), Below(SetSurvey(e, b), path);
            && (was.Some? <==> now.Some?)
            && (was.Some? ==>
                 && now.value.attr.survey == b && Rest(now.value) == Rest(was.value)
                 && (was.value.Operator? ==> |now.value.operands| == |was.value.operands|))
    decreases |path|
  {
    if e.Operator? {
      SurveyOperands(e.operands, b);
      if path != [] && path[0] < |e.operands| {
        SurveyEverywhere(e.operands[path[0]], b, path[1..]);
      }
    }
  }

  lemma {:induction false} SurveyOperands(es: seq<Expr>, b: bool)
    ensures |SetSurveyAll(es, b)| == |es|
    ensures forall k :: 0 <= k < |es| ==> SetSurveyAll(es, b)[k] == SetSurvey(es[k], b)
  {
    if es != [] {
      SurveyOperands(es[1..], b);
    }
  }

  /** The other setters set their flag on the node itself and change nothing else. */
  lemma SettersSet(e: Expr, b: bool)
    ensures SetLval(e, b).attr.lval == b && SetLval(SetLval(e, b), e.attr.lval) == e
    ensures SetToCall(e, b).attr.toCall == b && SetToCall(SetToCall(e, b), e.attr.toCall) == e
  {
  }

  /** Marking for the survey pass never makes a tree unequal. */
  lemma SurveyIsInvisible(e: Expr, b: bool)
    ensures Same(SetSurvey(e, b), e) <==> Comparable(e)
  {
    SurveyUnseen(e, b);
    hide Same, Core, Comparable;
    SameExactly(SetSurvey(e, b), e);
  }

  /** Setting one of the other flags is seen, but not on operator nodes. */
  lemma LvalIsVisible(e: Expr, b: bool)
    ensures Same(SetLval(e, b), e) <==> Comparable(e) && (e.Operator? || e.attr.lval == b)
    ensures Same(SetToCall(e, b), e) <==> Comparable(e) && (e.Operator? || e.attr.toCall == b)
  {
    SameExactly(SetLval(e, b), e);
    SameExactly(SetToCall(e, b), e);
    hide Same;
    assert Comparable(SetLval(e, b)) == Comparable(e) && Comparable(SetToCall(e, b)) == Comparable(e);
  }
}
