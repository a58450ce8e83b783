/** Semantic preservation for whole expressions and statement lists, by induction on the source. */
module Preservation {
  import opened Words
  import opened Ast
  import opened Ir
  import opened Emitter
  import opened Translation
  import opened Interp
  import opened Growth
  import opened Relation
  import opened Simulation
  import opened Bodies

  lemma AdvancesWithin(a: TState, b: TState, bs: Blocks)
    requires Advances(a, b) && Within(b.em, bs)
    ensures Within(a.em, bs)
  {
    GrowsWithin(a.em, b.em);
    WithinTransitive(a.em, b.em, bs);
  }

  /** An outcome other than reaching the end does not depend on what is translated after it. */
  lemma Stops(o: Outcome, st: TState, r1: Result, r: Result, f: Frame, c: Config)
    requires r1.Ok? && r.Ok? && !o.Normal? && Matches(o, st, r1, f, c)
    ensures Matches(o, st, r, f, c)
  {
  }

  /** Put a matched run after the run of an earlier part. */
  lemma Prepend(o: Outcome, st: TState, s1: TState, r: Result, f: Frame, f1: Frame, c: Config)
    requires r.Ok? && Advances(st, s1) && Evolves(f, f1) && Matches(o, s1, r, f1, c)
    ensures Matches(o, st, r, f, c)
  {
  }

  /** After a part that reached its end, the next part can be run. */
  lemma NextReady(env: Env, y: Yield, st: TState, r: Result, f: Frame, c: Config)
    requires r.Ok? && Valid(r.st) && Matches(Normal(env, y), st, r, f, c)
    ensures c.Running? && Ready(env, r.st, c.f) && Evolves(f, c.f) && ValRel(y, r.v, c.f)
  {
  }

  lemma {:induction false} SimExpr(e: Expr, env: Env, st: TState, bs: Blocks, f: Frame) returns (c: Config)
    requires Ready(env, st, f)
    requires Trans(e, st).Ok? && Within(Trans(e, st).st.em, bs)
    ensures Leads(bs, Running(f), c)
    ensures Matches(Eval(e, env), st, Trans(e, st), f, c)
    decreases e, 2
  {
    match e
    case IntLit(i) =>
      c := Running(f);
      LeadsSelf(bs, c);
    case BoolLit(b) =>
      EncBool(b);
      c := Running(f);
      LeadsSelf(bs, c);
    case Var(name) => c := SimLoadVar(name, env, st, bs, f);

    case Bin(op, l, r) => c := SimBinExpr(e, env, st, bs, f);
    case Assign(lhs, rhs) => c := SimAssignExpr(e, env, st, bs, f);
    case Cond(_, _, _) => c := SimCondExpr(e, env, st, bs, f);
    case Ret(_) => c := SimRet(e, env, st, bs, f);
    case CondScope(_, _, _) => c := SimCondScope(e, env, st, bs, f);
    case ScopeCall(body) => c := SimScopeCall(e, env, st, bs, f);
  }

  lemma TransBin(e: Expr, st: TState)
    requires e.Bin? && Trans(e, st).Ok?
    ensures Trans(e.l, st).Ok? && Trans(e.r, Trans(e.l, st).st).Ok?
    ensures var r1 := Trans(e.l, st);
      var r2 := Trans(e.r, r1.st);
      Trans(e, st) == ApplyBin(e.op, r1.v, r2.v, r2.st)
  {
  }

  lemma BinAdvances(e: Expr, st: TState, bs: Blocks)
    requires e.Bin? && Valid(st) && Trans(e, st).Ok? && Within(Trans(e, st).st.em, bs)
    ensures Trans(e.l, st).Ok? && Trans(e.r, Trans(e.l, st).st).Ok?
    ensures var r1 := Trans(e.l, st);
      var r2 := Trans(e.r, r1.st);
      && Valid(r1.st) && Advances(st, r1.st) && Within(r1.st.em, bs)
      && Valid(r2.st) && Advances(st, r2.st) && Within(r2.st.em, bs)
      && Trans(e, st) == ApplyBin(e.op, r1.v, r2.v, r2.st)
  {
    hide Leads, Enc, Trans, Within, Advances, Valid, ApplyBin;
    TransBin(e, st);
    var r1 := Trans(e.l, st);
    var r2 := Trans(e.r, r1.st);
    TransAdvances(e.l, st);
    AdvancesValid(st, r1.st);
    TransAdvances(e.r, r1.st);
    AdvancesValid(r1.st, r2.st);
    ApplyBinAdvances(e.op, r1.v, r2.v, r2.st);
    AdvancesWithin(r2.st, Trans(e, st).st, bs);
    AdvancesWithin(r1.st, r2.st, bs);
    AdvancesTransitive(st, r1.st, r2.st);
  }

  /** The operator itself, once both operands have been run. */
  lemma SimBinTail(op: BinOp, y1: Yield, y2: Yield, v1: TVal, v2: TVal, env: Env, st: TState, bs: Blocks, f: Frame)
    returns (c: Config)
    requires Ready(env, st, f) && ValRel(y1, v1, f) && ValRel(y2, v2, f)
    requires ApplyBin(op, v1, v2, st).Ok? && Within(ApplyBin(op, v1, v2, st).st.em, bs)
    ensures Leads(bs, Running(f), c)
    ensures Matches(BinOutcome(op, env, y1, y2), st, ApplyBin(op, v1, v2, st), f, c)
  {
    hide Leads, Enc, Ready, Within, Matches, EvalBin;
    assert y1.V? && y2.V?;
    c := SimBin(op, y1.val, y2.val, v1, v2, env, st, bs, f);
    if EvalBin(op, y1.val, y2.val).None? {
      UndefinedMatches(st, ApplyBin(op, v1, v2, st), f, c);
    }
  }

  lemma {:induction false} SimBinExpr(e: Expr, env: Env, st: TState, bs: Blocks, f: Frame) returns (c: Config)
    requires Ready(env, st, f) && e.Bin?
    requires Trans(e, st).Ok? && Within(Trans(e, st).st.em, bs)
    ensures Leads(bs, Running(f), c)
    ensures Matches(Eval(e, env), st, Trans(e, st), f, c)
    decreases e, 1
  {
    EvalBinExpr(e, env);
    hide Leads, Enc, Trans, Eval, Ready, Within, Evolves, Matches, Advances, ApplyBin, ValRel, BinOutcome, Valid;
    ReadyValid(env, st, f);
    BinAdvances(e, st, bs);
    var r1, r := Trans(e.l, st), Trans(e, st);
    var o1 := Eval(e.l, env);
    c := SimExpr(e.l, env, st, bs, f);
    if !o1.Normal? {
      Stops(o1, st, r1, r, f, c);
    } else {
      NextReady(o1.env, o1.y, st, r1, f, c);
      var f1 := c.f;
      c := SimBinRight(e, o1.env, o1.y, st, bs, f1);
      LeadsTransitive(bs, Running(f), Running(f1), c);
      Prepend(Eval(e, env), st, r1.st, r, f, f1, c);
    }
  }

  lemma {:induction false} SimBinRight(e: Expr, env: Env, y1: Yield, st: TState, bs: Blocks, f: Frame)
    returns (c: Config)
    requires e.Bin? && Valid(st)
    requires Trans(e, st).Ok? && Within(Trans(e, st).st.em, bs)
    requires Trans(e.l, st).Ok? && Ready(env, Trans(e.l, st).st, f) && ValRel(y1, Trans(e.l, st).v, f)
    ensures Leads(bs, Running(f), c)
    ensures var o2 := Eval(e.r, env);
      Matches(if !o2.Normal? then o2 else BinOutcome(e.op, o2.env, y1, o2.y), Trans(e.l, st).st, Trans(e, st), f, c)
    decreases e, 0
  {
    hide Leads, Enc, Trans, Eval, Ready, Within, Evolves, Matches, Advances, ApplyBin, ValRel, BinOutcome, Valid;
    BinAdvances(e, st, bs);
    var r1, r := Trans(e.l, st), Trans(e, st);
    var r2 := Trans(e.r, r1.st);
    var o2 := Eval(e.r, env);
    c := SimExpr(e.r, env, r1.st, bs, f);
    if !o2.Normal? {
      Stops(o2, r1.st, r2, r, f, c);
    } else {
      NextReady(o2.env, o2.y, r1.st, r2, f, c);
      var f2 := c.f;
      ValRelEvolves(y1, r1.v, f, f2);
      c := SimBinTail(e.op, y1, o2.y, r1.v, r2.v, o2.env, r2.st, bs, f2);
      LeadsTransitive(bs, Running(f), Running(f2), c);
      TransAdvances(e.r, r1.st);
      Prepend(BinOutcome(e.op, o2.env, y1, o2.y), r1.st, r2.st, r, f, f2, c);
    }
  }

  lemma EvalBinExpr(e: Expr, env: Env)
    requires e.Bin?
    ensures var o1 := Eval(e.l, env);
      if !o1.Normal? then Eval(e, env) == o1
      else var o2 := Eval(e.r, o1.env);
        Eval(e, env) == if !o2.Normal? then o2 else BinOutcome(e.op, o2.env, o1.y, o2.y)
  {
  }

  lemma UndefinedMatches(st: TState, r: Result, f: Frame, c: Config)
    requires r.Ok?
    ensures Matches(Undefined, st, r, f, c)
  {
  }

  lemma AdvancesValid(a: TState, b: TState)
    requires Advances(a, b)
    ensures Valid(b)
  {
  }

  // ------------------------------------------------------------- assignment

  ghost predicate PlaceTyped(place: Place, name: string, env: Env)
  {
    match place
    case Fresh => name !in env
    case Known(s) => name in env && TypeOf(env[name]) == s.ty
    case Pointed(_, ty) => name in env && TypeOf(env[name]) == ty
  }

  /** The place is found: the frame is ready for what follows and the place is the variable's. */
  ghost predicate Placed(env: Env, name: string, lhs: LVal, place: Place, st: TState, f: Frame, f': Frame)
  {
    match st case TState(_, syms) =>
      Ready(env, st, f') && Evolves(f, f') && PlaceRel(lhs, place, name, syms, f') && PlaceTyped(place, name, env)
  }

  /** What running the left-hand side of an assignment achieves. */
  ghost predicate PlaceMatches(t: Target, lhs: LVal, st: TState, r: PlaceResult, f: Frame, c: Config)
    requires r.PlaceOk?
  {
    match t
    case Target(env, name) => c.Running? && Placed(env, name, lhs, r.place, r.st, f, c.f)
    case Stop(o) => !o.Normal? && Matches(o, st, Ok(r.st, Nothing), f, c)
  }

  lemma CondPlaceSteps(c: TVal, a: string, b: string, st: TState, bs: Blocks)
    requires Valid(st) && ApplyCondPlace(c, a, b, st).PlaceOk?
    requires Within(ApplyCondPlace(c, a, b, st).st.em, bs)
    ensures LoadVar(a, st).Ok? && LoadVar(b, LoadVar(a, st).st).Ok? && a in st.syms && b in st.syms
    ensures var s1 := LoadVar(a, st).st;
      var s2 := LoadVar(b, s1).st;
      && s1.syms == st.syms && s2.syms == st.syms
      && Within(s1.em, bs) && Within(s2.em, bs)
      && ApplyCondPlace(c, a, b, st) == ChoosePlace(c, a, b, s2)
  {
    var s1 := LoadVar(a, st).st;
    var s2 := LoadVar(b, s1).st;
    LoadVarAdvances(a, st);
    LoadVarAdvances(b, s1);
    assert ApplyCondPlace(c, a, b, st) == ChoosePlace(c, a, b, s2);
    hide Within, Grows, Advances, ChoosePlace, ApplyCondPlace;
    AdvancesValid(st, s1);
    AdvancesValid(s1, s2);
    ChoosePlaceAdvances(c, a, b, s2);
    AdvancesWithin(s2, ChoosePlace(c, a, b, s2).st, bs);
    AdvancesWithin(s1, s2, bs);
  }

  lemma SimTwoLoads(a1: string, a2: string, env: Env, st: TState, bs: Blocks, f: Frame) returns (f': Frame)
    requires Ready(env, st, f) && a1 in st.syms && a2 in st.syms
    requires var s1 := LoadVar(a1, st).st;
      s1.syms == st.syms && Within(s1.em, bs) && Within(LoadVar(a2, s1).st.em, bs)
    ensures Leads(bs, Running(f), Running(f')) && Evolves(f, f')
    ensures Ready(env, LoadVar(a2, LoadVar(a1, st).st).st, f')
  {
    var s1 := LoadVar(a1, st).st;
    assert a1 in env && a2 in env && Holds(st.syms[a1], env[a1], f) && Holds(st.syms[a2], env[a2], f);
    hide Leads, Enc, Ready, Within, Evolves, Rel, Matches;
    var c1 := SimLoadVar(a1, env, st, bs, f);
    MatchesEvolves(env, V(env[a1]), st, LoadVar(a1, st), f, c1);
    var c2 := SimLoadVar(a2, env, s1, bs, c1.f);
    MatchesEvolves(env, V(env[a2]), s1, LoadVar(a2, s1), c1.f, c2);
    f' := c2.f;
    EvolvesTransitive(f, c1.f, c2.f);
    LeadsTransitive(bs, Running(f), c1, c2);
  }

  lemma CellRead(name: string, env: Env, st: TState, f: Frame)
    requires Ready(env, st, f) && name in st.syms
    ensures name in env && TypeOf(env[name]) == st.syms[name].ty && st.syms[name].cell in f.regs
    ensures Read(f, Reg(st.syms[name].cell)).Ptr?
  {
    assert Holds(st.syms[name], env[name], f);
  }

  /** The choice of a conditional in assignable position, after both arms were read. */
  lemma SimChoosePlace(lhs: LVal, c: TVal, b: bool, env: Env, st: TState, bs: Blocks, f: Frame)
    returns (f': Frame)
    requires Ready(env, st, f) && ValRel(V(BoolV(b)), c, f)
    requires lhs.LCond? && lhs.a in st.syms && lhs.b in st.syms
    requires ChoosePlace(c, lhs.a, lhs.b, st).PlaceOk? && Within(ChoosePlace(c, lhs.a, lhs.b, st).st.em, bs)
    ensures Leads(bs, Running(f), Running(f'))
    ensures var r := ChoosePlace(c, lhs.a, lhs.b, st);
      Placed(env, if b then lhs.a else lhs.b, lhs, r.place, r.st, f, f')
  {
    var name := if b then lhs.a else lhs.b;
    CellRead(name, env, st, f);
    var x, y := st.syms[lhs.a], st.syms[lhs.b];
    var r := ChoosePlace(c, lhs.a, lhs.b, st);
    hide Ready, Within, Evolves, Select, Leads, ChoosePlace, Placed;
    var w := Read(f, Reg(st.syms[name].cell));
    f' := SimSelect(c.opd, Reg(x.cell), Reg(y.cell), Pointer(x.ty), b, w, env, st, bs, f);
    EvolvesReads(f, f', st.syms[name].cell);
    PlacedPointed(env, name, lhs, r.place, r.st, f, f');
  }

  lemma PlacedPointed(env: Env, name: string, lhs: LVal, place: Place, st: TState, f: Frame, f': Frame)
    requires Ready(env, st, f') && Evolves(f, f') && lhs.LCond? && name in st.syms && name in env
    requires place.Pointed? && place.p.Reg? && place.ty == st.syms[name].ty == TypeOf(env[name])
    requires st.syms[name].cell in f'.regs && Read(f', place.p) == Read(f', Reg(st.syms[name].cell)) != Undef
    ensures Placed(env, name, lhs, place, st, f, f')
  {
  }

  lemma TargetPlaced(env: Env, name: string, lhs: LVal, st: TState, r: PlaceResult, f: Frame, f': Frame)
    requires r.PlaceOk? && Placed(env, name, lhs, r.place, r.st, f, f')
    ensures PlaceMatches(Target(env, name), lhs, st, r, f, Running(f'))
  {
  }

  lemma TargetStopped(o: Outcome, lhs: LVal, st: TState, rc: Result, r: PlaceResult, f: Frame, c: Config)
    requires r.PlaceOk? && rc.Ok? && !o.Normal? && Matches(o, st, rc, f, c)
    ensures PlaceMatches(Stop(o), lhs, st, r, f, c)
  {
  }

  lemma PlacedLater(env: Env, name: string, lhs: LVal, place: Place, st: TState, f: Frame, f1: Frame, f2: Frame)
    requires Evolves(f, f1) && Placed(env, name, lhs, place, st, f1, f2)
    ensures Placed(env, name, lhs, place, st, f, f2)
  {
  }

  /** The two reads and the choice. */
  lemma SimCondPlace(lhs: LVal, c: TVal, b: bool, env: Env, st: TState, bs: Blocks, f: Frame) returns (f': Frame)
    requires Ready(env, st, f) && ValRel(V(BoolV(b)), c, f) && lhs.LCond?
    requires ApplyCondPlace(c, lhs.a, lhs.b, st).PlaceOk?
    requires Within(ApplyCondPlace(c, lhs.a, lhs.b, st).st.em, bs)
    ensures Leads(bs, Running(f), Running(f'))
    ensures var r := ApplyCondPlace(c, lhs.a, lhs.b, st);
      Placed(env, if b then lhs.a else lhs.b, lhs, r.place, r.st, f, f')
  {
    ReadyValid(env, st, f);
    CondPlaceSteps(c, lhs.a, lhs.b, st, bs);
    var s2 := LoadVar(lhs.b, LoadVar(lhs.a, st).st).st;
    hide Leads, Enc, Ready, Within, Evolves, ChoosePlace, Valid, ApplyCondPlace, ValRel, LoadVar, Placed, Read;
    var r := ChoosePlace(c, lhs.a, lhs.b, s2);
    var f2 := SimTwoLoads(lhs.a, lhs.b, env, st, bs, f);
    ValRelEvolves(V(BoolV(b)), c, f, f2);
    f' := SimChoosePlace(lhs, c, b, env, s2, bs, f2);
    PlacedLater(env, if b then lhs.a else lhs.b, lhs, r.place, r.st, f, f2, f');
    LeadsTransitive(bs, Running(f), Running(f2), Running(f'));
  }

  lemma EvolvesReads(f: Frame, f': Frame, r: nat)
    requires Evolves(f, f') && r in f.regs
    ensures Read(f', Reg(r)) == Read(f, Reg(r)) && r in f'.regs
  {
  }

  lemma MatchesEvolves(env: Env, y: Yield, st: TState, r: Result, f: Frame, c: Config)
    requires r.Ok? && Matches(Normal(env, y), st, r, f, c)
    ensures c.Running? && Evolves(f, c.f)
  {
  }

  lemma {:induction false} SimPlace(lhs: LVal, env: Env, st: TState, bs: Blocks, f: Frame) returns (c: Config)
    requires Ready(env, st, f)
    requires TransPlace(lhs, st).PlaceOk? && Within(TransPlace(lhs, st).st.em, bs)
    ensures Leads(bs, Running(f), c)
    ensures PlaceMatches(EvalTarget(lhs, env), lhs, st, TransPlace(lhs, st), f, c)
    decreases lhs, 2
  {
    match lhs
    case LVar(name, _) =>
      assert name in st.syms ==> Holds(st.syms[name], env[name], f);
      c := Running(f);
      LeadsSelf(bs, c);
    case LCond(e, a, b) =>
      c := SimLCond(lhs, env, st, bs, f);
  }

  lemma {:induction false} SimLCond(lhs: LVal, env: Env, st: TState, bs: Blocks, f: Frame) returns (c: Config)
    requires Ready(env, st, f) && lhs.LCond?
    requires TransPlace(lhs, st).PlaceOk? && Within(TransPlace(lhs, st).st.em, bs)
    ensures Leads(bs, Running(f), c)
    ensures PlaceMatches(EvalTarget(lhs, env), lhs, st, TransPlace(lhs, st), f, c)
    decreases lhs, 1
  {
    var rc, r := Trans(lhs.cond, st), TransPlace(lhs, st);
    ReadyValid(env, st, f);
    var o := Eval(lhs.cond, env);
    LCondUnfold(lhs, env, st, bs);
    hide Leads, Enc, Trans, Eval, TransPlace, EvalTarget, Ready, Within, Evolves, Matches, Advances, Valid,
         ApplyCondPlace, ValRel, Placed, PlaceMatches;
    c := SimExpr(lhs.cond, env, st, bs, f);
    if !o.Normal? {
      TargetStopped(o, lhs, st, rc, r, f, c);
    } else {
      NextReady(o.env, o.y, st, rc, f, c);
      CondPlaceTypes(rc.v, lhs.a, lhs.b, o.env, o.y, rc.st, c.f);
      var f1 := c.f;
      var f2 := SimCondPlace(lhs, rc.v, o.y.val.b, o.env, rc.st, bs, f1);
      var name := if o.y.val.b then lhs.a else lhs.b;
      PlacedLater(o.env, name, lhs, r.place, r.st, f, f1, f2);
      TargetPlaced(o.env, name, lhs, st, r, f, f2);
      c := Running(f2);
      LeadsTransitive(bs, Running(f), Running(f1), c);
    }
  }

  lemma CondPlaceTypes(c: TVal, a: string, b: string, env: Env, y: Yield, st: TState, f: Frame)
    requires Ready(env, st, f) && ValRel(y, c, f) && ApplyCondPlace(c, a, b, st).PlaceOk?
    ensures y.V? && y.val.BoolV? && a in env && b in env && TypeOf(env[a]) == TypeOf(env[b])
    ensures ValRel(V(BoolV(y.val.b)), c, f)
  {
    assert Holds(st.syms[a], env[a], f) && Holds(st.syms[b], env[b], f);
  }

  lemma LCondUnfold(lhs: LVal, env: Env, st: TState, bs: Blocks)
    requires Valid(st) && lhs.LCond?
    requires TransPlace(lhs, st).PlaceOk? && Within(TransPlace(lhs, st).st.em, bs)
    ensures Trans(lhs.cond, st).Ok?
    ensures var rc := Trans(lhs.cond, st);
      && Valid(rc.st) && Advances(st, rc.st) && Within(rc.st.em, bs)
      && TransPlace(lhs, st) == ApplyCondPlace(rc.v, lhs.a, lhs.b, rc.st)
    ensures var o := Eval(lhs.cond, env);
      EvalTarget(lhs, env) ==
        if !o.Normal? then Stop(o)
        else if o.y.Void? || !o.y.val.BoolV? || lhs.a !in o.env || lhs.b !in o.env
                || TypeOf(o.env[lhs.a]) != TypeOf(o.env[lhs.b]) then Stop(Wrong)
        else Target(o.env, if o.y.val.b then lhs.a else lhs.b)
  {
    var rc := Trans(lhs.cond, st);
    assert rc.Ok? && TransPlace(lhs, st) == ApplyCondPlace(rc.v, lhs.a, lhs.b, rc.st);
    hide Within, Advances;
    TransAdvances(lhs.cond, st);
    AdvancesValid(st, rc.st);
    ApplyCondPlaceAdvances(rc.v, lhs.a, lhs.b, rc.st);
    AdvancesWithin(rc.st, TransPlace(lhs, st).st, bs);
  }

  lemma SimAssignTail(lhs: LVal, place: Place, name: string, env0: Env, y: Yield, v: TVal, env: Env, st: TState,
                      bs: Blocks, f: Frame) returns (c: Config)
    requires Ready(env, st, f) && ValRel(y, v, f)
    requires PlaceRel(lhs, place, name, st.syms, f) && PlaceTyped(place, name, env0)
    requires ApplyAssign(lhs, place, v, st).Ok? && Within(ApplyAssign(lhs, place, v, st).st.em, bs)
    ensures Leads(bs, Running(f), c)
    ensures Matches(AssignOutcome(name, env0, env, y), st, ApplyAssign(lhs, place, v, st), f, c)
  {
    assert y.V? && AssignOutcome(name, env0, env, y) == Normal(env[name := y.val], y);
    hide Leads, Ready, Within, Matches, ApplyAssign, AssignOutcome;
    c := SimAssign(lhs, place, name, y.val, v, env, st, bs, f);
  }

  lemma AssignUnfold(e: Expr, st: TState, bs: Blocks)
    requires e.Assign? && Valid(st) && Trans(e, st).Ok? && Within(Trans(e, st).st.em, bs)
    ensures TransPlace(e.lhs, st).PlaceOk? && Trans(e.rhs, TransPlace(e.lhs, st).st).Ok?
    ensures var rp := TransPlace(e.lhs, st);
      var rv := Trans(e.rhs, rp.st);
      && Valid(rp.st) && Advances(st, rp.st) && Within(rp.st.em, bs)
      && Valid(rv.st) && Advances(rp.st, rv.st) && Within(rv.st.em, bs) && Keeps(rp.st.syms, rv.st.syms)
      && Trans(e, st) == ApplyAssign(e.lhs, rp.place, rv.v, rv.st)
  {
    var rp := TransPlace(e.lhs, st);
    var rv := Trans(e.rhs, rp.st);
    assert Trans(e, st) == ApplyAssign(e.lhs, rp.place, rv.v, rv.st);
    hide Trans, TransPlace, ApplyAssign, Within;
    PlaceAdvances(e.lhs, st);
    TransAdvances(e.rhs, rp.st);
    ApplyAssignAdvances(e.lhs, rp.place, rv.v, rv.st);
    hide Grows;
    GrowsWithin(rv.st.em, Trans(e, st).st.em);
    WithinTransitive(rv.st.em, Trans(e, st).st.em, bs);
    AdvancesWithin(rp.st, rv.st, bs);
  }

  lemma EvalAssignExpr(e: Expr, env: Env)
    requires e.Assign?
    ensures var t := EvalTarget(e.lhs, env);
      if t.Stop? then Eval(e, env) == t.o
      else var o := Eval(e.rhs, t.env);
        Eval(e, env) == if !o.Normal? then o else AssignOutcome(t.name, t.env, o.env, o.y)
  {
  }

  lemma {:induction false} SimAssignExpr(e: Expr, env: Env, st: TState, bs: Blocks, f: Frame) returns (c: Config)
    requires Ready(env, st, f) && e.Assign?
    requires Trans(e, st).Ok? && Within(Trans(e, st).st.em, bs)
    ensures Leads(bs, Running(f), c)
    ensures Matches(Eval(e, env), st, Trans(e, st), f, c)
    decreases e, 1
  {
    EvalAssignExpr(e, env);
    hide Leads, Trans, TransPlace, Eval, EvalTarget, Ready, Within, Evolves, Matches, Advances, Valid, Keeps,
         PlaceMatches, AssignOutcome;
    ReadyValid(env, st, f);
    AssignUnfold(e, st, bs);
    var rp, r := TransPlace(e.lhs, st), Trans(e, st);
    var t := EvalTarget(e.lhs, env);
    c := SimPlace(e.lhs, env, st, bs, f);
    PlaceMatched(t, e.lhs, st, rp, r, f, c);
    if t.Target? {
      var f1 := c.f;
      c := SimAssignRight(e, t.env, t.name, st, bs, f1);
      LeadsTransitive(bs, Running(f), Running(f1), c);
      Prepend(Eval(e, env), st, rp.st, r, f, f1, c);
    }
  }

  lemma PlaceMatched(t: Target, lhs: LVal, st: TState, rp: PlaceResult, r: Result, f: Frame, c: Config)
    requires rp.PlaceOk? && r.Ok? && PlaceMatches(t, lhs, st, rp, f, c)
    ensures t.Stop? ==> Matches(t.o, st, r, f, c)
    ensures t.Target? ==>
      && c.Running? && Ready(t.env, rp.st, c.f) && Evolves(f, c.f)
      && PlaceRel(lhs, rp.place, t.name, rp.st.syms, c.f) && PlaceTyped(rp.place, t.name, t.env)
  {
    if t.Stop? {
      Stops(t.o, st, Ok(rp.st, Nothing), r, f, c);
    }
  }

  lemma {:induction false} SimAssignRight(e: Expr, env: Env, name: string, st: TState, bs: Blocks, f: Frame)
    returns (c: Config)
    requires e.Assign? && Valid(st) && Trans(e, st).Ok? && Within(Trans(e, st).st.em, bs)
    requires var rp := TransPlace(e.lhs, st);
      && rp.PlaceOk? && Ready(env, rp.st, f)
      && PlaceRel(e.lhs, rp.place, name, rp.st.syms, f) && PlaceTyped(rp.place, name, env)
    ensures Leads(bs, Running(f), c)
    ensures var o := Eval(e.rhs, env);
      Matches(if !o.Normal? then o else AssignOutcome(name, env, o.env, o.y), TransPlace(e.lhs, st).st, Trans(e, st),
        f, c)
    decreases e, 0
  {
    hide Leads, Trans, TransPlace, Eval, EvalTarget, Ready, Within, Evolves, Matches, Advances, Valid, Keeps,
         PlaceRel, PlaceTyped, AssignOutcome, ApplyAssign, ValRel;
    AssignUnfold(e, st, bs);
    var rp, r := TransPlace(e.lhs, st), Trans(e, st);
    var rv := Trans(e.rhs, rp.st);
    var o := Eval(e.rhs, env);
    c := SimExpr(e.rhs, env, rp.st, bs, f);
    if !o.Normal? {
      Stops(o, rp.st, rv, r, f, c);
    } else {
      NextReady(o.env, o.y, rp.st, rv, f, c);
      var f1 := c.f;
      PlaceRelEvolves(e.lhs, rp.place, name, rp.st.syms, rv.st.syms, f, f1);
      c := SimAssignTail(e.lhs, rp.place, name, env, o.y, rv.v, o.env, rv.st, bs, f1);
      LeadsTransitive(bs, Running(f), Running(f1), c);
      Prepend(AssignOutcome(name, env, o.env, o.y), rp.st, rv.st, r, f, f1, c);
    }
  }

  // ------------------------------------------------------ value conditional

  /** The choice itself, once the condition and both values have been computed. */
  lemma SimCondTail(y1: Yield, y2: Yield, y3: Yield, v1: TVal, v2: TVal, v3: TVal, env: Env, st: TState,
                    bs: Blocks, f: Frame) returns (c: Config)
    requires Ready(env, st, f) && ValRel(y1, v1, f) && ValRel(y2, v2, f) && ValRel(y3, v3, f)
    requires ApplyCond(v1, v2, v3, st).Ok? && Within(ApplyCond(v1, v2, v3, st).st.em, bs)
    ensures Leads(bs, Running(f), c)
    ensures Matches(CondOutcome(env, y1, y2, y3), st, ApplyCond(v1, v2, v3, st), f, c)
  {
    var r := ApplyCond(v1, v2, v3, st);
    assert y1.V? && y2.V? && y3.V?;
    var b := y1.val.b;
    var y := if b then y2.val else y3.val;
    assert CondOutcome(env, y1, y2, y3) == Normal(env, V(y));
    assert Read(f, if b then v2.opd else v3.opd) == Enc(y);
    hide Leads, Ready, Within, Matches, Evolves, Select, CondOutcome, ApplyCond;
    var f' := SimSelect(v1.opd, v2.opd, v3.opd, Scalar(v2.ty), b, Enc(y), env, st, bs, f);
    c := Running(f');
    ReadyMatches(y, Reg(st.em.nextReg + 1), env, st, r, f, c);
  }

  lemma CondUnfold(e: Expr, st: TState, bs: Blocks)
    requires e.Cond? && Valid(st) && Trans(e, st).Ok? && Within(Trans(e, st).st.em, bs)
    ensures Trans(e.cond, st).Ok? && Trans(e.thn, Trans(e.cond, st).st).Ok?
    ensures Trans(e.els, Trans(e.thn, Trans(e.cond, st).st).st).Ok?
    ensures var r1 := Trans(e.cond, st);
      var r2 := Trans(e.thn, r1.st);
      var r3 := Trans(e.els, r2.st);
      && Valid(r1.st) && Advances(st, r1.st) && Within(r1.st.em, bs)
      && Valid(r2.st) && Advances(r1.st, r2.st) && Within(r2.st.em, bs)
      && Valid(r3.st) && Advances(r2.st, r3.st) && Within(r3.st.em, bs)
      && Trans(e, st) == ApplyCond(r1.v, r2.v, r3.v, r3.st)
  {
    var r1 := Trans(e.cond, st);
    var r2 := Trans(e.thn, r1.st);
    var r3 := Trans(e.els, r2.st);
    assert Trans(e, st) == ApplyCond(r1.v, r2.v, r3.v, r3.st);
    hide Trans, ApplyCond, Within, Advances, Valid;
    TransAdvances(e.cond, st);
    AdvancesValid(st, r1.st);
    TransAdvances(e.thn, r1.st);
    AdvancesValid(r1.st, r2.st);
    TransAdvances(e.els, r2.st);
    AdvancesValid(r2.st, r3.st);
    ApplyCondAdvances(r1.v, r2.v, r3.v, r3.st);
    AdvancesWithin(r3.st, Trans(e, st).st, bs);
    AdvancesWithin(r2.st, r3.st, bs);
    AdvancesWithin(r1.st, r2.st, bs);
  }

  lemma EvalCondExpr(e: Expr, env: Env)
    requires e.Cond?
    ensures var o1 := Eval(e.cond, env);
      if !o1.Normal? then Eval(e, env) == o1
      else var o2 := Eval(e.thn, o1.env);
        if !o2.Normal? then Eval(e, env) == o2
        else var o3 := Eval(e.els, o2.env);
          Eval(e, env) == if !o3.Normal? then o3 else CondOutcome(o3.env, o1.y, o2.y, o3.y)
  {
  }

  lemma {:induction false} SimCondExpr(e: Expr, env: Env, st: TState, bs: Blocks, f: Frame) returns (c: Config)
    requires Ready(env, st, f) && e.Cond?
    requires Trans(e, st).Ok? && Within(Trans(e, st).st.em, bs)
    ensures Leads(bs, Running(f), c)
    ensures Matches(Eval(e, env), st, Trans(e, st), f, c)
    decreases e, 1
  {
    EvalCondExpr(e, env);
    hide Leads, Trans, Eval, Ready, Within, Evolves, Matches, Advances, Valid, CondOutcome, ApplyCond, ValRel;
    ReadyValid(env, st, f);
    CondUnfold(e, st, bs);
    var r1, r := Trans(e.cond, st), Trans(e, st);
    var o1 := Eval(e.cond, env);
    c := SimExpr(e.cond, env, st, bs, f);
    if !o1.Normal? {
      Stops(o1, st, r1, r, f, c);
    } else {
      NextReady(o1.env, o1.y, st, r1, f, c);
      var f1 := c.f;
      c := SimCondSecond(e, o1.env, o1.y, st, bs, f1);
      LeadsTransitive(bs, Running(f), Running(f1), c);
      Prepend(Eval(e, env), st, r1.st, r, f, f1, c);
    }
  }

  function CondFrom2(e: Expr, env: Env, y1: Yield): Outcome
    requires e.Cond?
  {
    var o2 := Eval(e.thn, env);
    if !o2.Normal? then o2 else CondFrom3(e, o2.env, y1, o2.y)
  }

  function CondFrom3(e: Expr, env: Env, y1: Yield, y2: Yield): Outcome
    requires e.Cond?
  {
    var o3 := Eval(e.els, env);
    if !o3.Normal? then o3 else CondOutcome(o3.env, y1, y2, o3.y)
  }

  lemma {:induction false} SimCondSecond(e: Expr, env: Env, y1: Yield, st: TState, bs: Blocks, f: Frame)
    returns (c: Config)
    requires e.Cond? && Valid(st) && Trans(e, st).Ok? && Within(Trans(e, st).st.em, bs)
    requires Trans(e.cond, st).Ok? && Ready(env, Trans(e.cond, st).st, f) && ValRel(y1, Trans(e.cond, st).v, f)
    ensures Leads(bs, Running(f), c)
    ensures Matches(CondFrom2(e, env, y1), Trans(e.cond, st).st, Trans(e, st), f, c)
    decreases e, 0, 1
  {
    hide Leads, Trans, Eval, Ready, Within, Evolves, Matches, Advances, Valid, CondFrom3, ApplyCond, ValRel;
    CondUnfold(e, st, bs);
    var r1, r := Trans(e.cond, st), Trans(e, st);
    var r2 := Trans(e.thn, r1.st);
    var o2 := Eval(e.thn, env);
    c := SimExpr(e.thn, env, r1.st, bs, f);
    if !o2.Normal? {
      Stops(o2, r1.st, r2, r, f, c);
    } else {
      NextReady(o2.env, o2.y, r1.st, r2, f, c);
      var f2 := c.f;
      ValRelEvolves(y1, r1.v, f, f2);
      c := SimCondThird(e, o2.env, y1, o2.y, st, bs, f2);
      LeadsTransitive(bs, Running(f), Running(f2), c);
      Prepend(CondFrom3(e, o2.env, y1, o2.y), r1.st, r2.st, r, f, f2, c);
    }
  }

  lemma {:induction false} SimCondThird(e: Expr, env: Env, y1: Yield, y2: Yield, st: TState, bs: Blocks, f: Frame)
    returns (c: Config)
    requires e.Cond? && Valid(st) && Trans(e, st).Ok? && Within(Trans(e, st).st.em, bs)
    requires var r1 := Trans(e.cond, st);
      r1.Ok? && ValRel(y1, r1.v, f) &&
      var r2 := Trans(e.thn, r1.st);
      r2.Ok? && ValRel(y2, r2.v, f) && Ready(env, r2.st, f)
    ensures Leads(bs, Running(f), c)
    ensures Matches(CondFrom3(e, env, y1, y2), Trans(e.thn, Trans(e.cond, st).st).st, Trans(e, st), f, c)
    decreases e, 0, 0
  {
    hide Leads, Trans, Eval, Ready, Within, Evolves, Matches, Advances, Valid, CondOutcome, ApplyCond, ValRel;
    CondUnfold(e, st, bs);
    var r1, r := Trans(e.cond, st), Trans(e, st);
    var r2 := Trans(e.thn, r1.st);
    var r3 := Trans(e.els, r2.st);
    var o3 := Eval(e.els, env);
    c := SimExpr(e.els, env, r2.st, bs, f);
    if !o3.Normal? {
      Stops(o3, r2.st, r3, r, f, c);
    } else {
      NextReady(o3.env, o3.y, r2.st, r3, f, c);
      var f3 := c.f;
      ValRelEvolves(y1, r1.v, f, f3);
      ValRelEvolves(y2, r2.v, f, f3);
      c := SimCondTail(y1, y2, o3.y, r1.v, r2.v, r3.v, o3.env, r3.st, bs, f3);
      LeadsTransitive(bs, Running(f), Running(f3), c);
      Prepend(CondOutcome(o3.env, y1, y2, o3.y), r2.st, r3.st, r, f, f3, c);
    }
  }

  // ------------------------------------------------------------------ return

  lemma RetUnfold(e: Expr, env: Env, st: TState, bs: Blocks)
    requires e.Ret? && Valid(st) && Trans(e, st).Ok? && Within(Trans(e, st).st.em, bs)
    ensures Trans(e.e, st).Ok? && Trans(e.e, st).v.TVal?
    ensures var r1 := Trans(e.e, st);
      && Valid(r1.st) && Advances(st, r1.st) && Within(r1.st.em, bs)
      && Within(r1.st.em.Append(RetVal(r1.v.ty, r1.v.opd)), bs)
    ensures var o := Eval(e.e, env);
      Eval(e, env) == if !o.Normal? then o else if o.y.Void? then Wrong else Return(o.env, o.y.val)
  {
    var r1 := Trans(e.e, st);
    assert Trans(e, st).st.em == r1.st.em.Append(RetVal(r1.v.ty, r1.v.opd));
    hide Trans, Within, Advances, Valid;
    TransAdvances(e.e, st);
    AdvancesValid(st, r1.st);
    AdvancesValidEmit(r1.st);
    WithinAppend(r1.st.em, RetVal(r1.v.ty, r1.v.opd), bs);
  }

  lemma AdvancesValidEmit(st: TState)
    requires Valid(st)
    ensures ValidEmit(st.em)
  {
  }

  lemma SimReturn(v: Val, o: TVal, env: Env, st: TState, bs: Blocks, f: Frame) returns (c: Config)
    requires Ready(env, st, f) && o.TVal? && ValRel(V(v), o, f) && Within(st.em.Append(RetVal(o.ty, o.opd)), bs)
    ensures Leads(bs, Running(f), c)
    ensures c == Returned(Enc(v), f) && HoldsAll(st.syms, env, f)
  {
    StepAppended(st.em, RetVal(o.ty, o.opd), bs, f);
    LeadsStep(bs, f);
    c := Returned(Enc(v), f);
  }

  lemma ReturnMatches(v: Val, env: Env, st: TState, s1: TState, r: Result, f: Frame, f1: Frame)
    requires r.Ok? && Advances(st, s1) && Evolves(f, f1) && HoldsAll(s1.syms, env, f1)
    ensures Matches(Return(env, v), st, r, f, Returned(Enc(v), f1))
  {
  }

  lemma {:induction false} SimRet(e: Expr, env: Env, st: TState, bs: Blocks, f: Frame) returns (c: Config)
    requires Ready(env, st, f) && e.Ret?
    requires Trans(e, st).Ok? && Within(Trans(e, st).st.em, bs)
    ensures Leads(bs, Running(f), c)
    ensures Matches(Eval(e, env), st, Trans(e, st), f, c)
    decreases e, 1
  {
    ReadyValid(env, st, f);
    RetUnfold(e, env, st, bs);
    hide Leads, Trans, Eval, Ready, Within, Evolves, Matches, Advances, Valid, HoldsAll;
    var r1, r := Trans(e.e, st), Trans(e, st);
    var o := Eval(e.e, env);
    c := SimExpr(e.e, env, st, bs, f);
    if !o.Normal? {
      Stops(o, st, r1, r, f, c);
    } else {
      NextReady(o.env, o.y, st, r1, f, c);
      var f1 := c.f;
      c := SimReturn(o.y.val, r1.v, o.env, r1.st, bs, f1);
      LeadsTransitive(bs, Running(f), Running(f1), c);
      ReturnMatches(o.y.val, o.env, st, r1.st, r, f, f1);
    }
  }

  // --------------------------------------------------------- statement lists

  lemma AllUnfold(es: seq<Expr>, env: Env, y: Yield, st: TState, last: TVal, bs: Blocks)
    requires es != [] && Valid(st) && TransAll(es, st, last).Ok? && Within(TransAll(es, st, last).st.em, bs)
    ensures Trans(es[0], st).Ok?
    ensures var r1 := Trans(es[0], st);
      && Valid(r1.st) && Advances(st, r1.st) && Within(r1.st.em, bs)
      && TransAll(es, st, last) == TransAll(es[1..], r1.st, r1.v)
    ensures var o := Eval(es[0], env);
      EvalAll(es, env, y) == if !o.Normal? then o else EvalAll(es[1..], o.env, o.y)
  {
    var r1 := Trans(es[0], st);
    assert TransAll(es, st, last) == TransAll(es[1..], r1.st, r1.v);
    hide Trans, TransAll, Within, Advances, Valid;
    TransAdvances(es[0], st);
    AdvancesValid(st, r1.st);
    AllAdvances(es[1..], r1.st, r1.v);
    AdvancesWithin(r1.st, TransAll(es, st, last).st, bs);
  }

  lemma {:induction false} SimAll(es: seq<Expr>, env: Env, y: Yield, st: TState, last: TVal, bs: Blocks, f: Frame)
    returns (c: Config)
    requires Ready(env, st, f) && ValRel(y, last, f)
    requires TransAll(es, st, last).Ok? && Within(TransAll(es, st, last).st.em, bs)
    ensures Leads(bs, Running(f), c)
    ensures Matches(EvalAll(es, env, y), st, TransAll(es, st, last), f, c)
    decreases es, 0
  {
    if es == [] {
      c := Running(f);
      LeadsSelf(bs, c);
    } else {
      ReadyValid(env, st, f);
      AllUnfold(es, env, y, st, last, bs);
      hide Leads, Trans, TransAll, Eval, EvalAll, Ready, Within, Evolves, Matches, Advances, Valid, ValRel;
      var r1, r := Trans(es[0], st), TransAll(es, st, last);
      var o := Eval(es[0], env);
      c := SimExpr(es[0], env, st, bs, f);
      if !o.Normal? {
        Stops(o, st, r1, r, f, c);
      } else {
        NextReady(o.env, o.y, st, r1, f, c);
        var f1 := c.f;
        c := SimAll(es[1..], o.env, o.y, r1.st, r1.v, bs, f1);
        LeadsTransitive(bs, Running(f), Running(f1), c);
        Prepend(EvalAll(es[1..], o.env, o.y), st, r1.st, r, f, f1, c);
      }
    }
  }

  // ------------------------------------------------------------------ scopes

  /** The run of a scope's body, seen from outside. */
  ghost predicate BodyMatches(o: Outcome, st: TState, after: TState, v: TVal, f: Frame, c: Config)
  {
    match o
    case Normal(env, y) => c.Running? && Ready(env, after, c.f) && Evolves(f, c.f) && ValRel(y, v, c.f)
    case Return(env, x) => c.Returned? && c.v == Enc(x) && Evolves(f, c.fin) && HoldsAll(st.syms, env, c.fin)
    case Undefined => true
    case Wrong => false
  }

  /** Where the body goes to if it falls through. */
  ghost predicate Continues(st: TState, em1: Emit, after: TState)
  {
    match after case TState(em, syms) =>
      em1.FallsThrough() ==> Valid(after) && em.Here() == [] && syms == st.syms && em1.nextReg <= em.nextReg
  }

  /** The block of a body is reached by a jump. */
  ghost predicate Entered(st: TState, i: Instr, inner: TState, bs: Blocks, f: Frame)
  {
    match inner case TState(em, syms) =>
      && Valid(inner) && em.Here() == [] && syms == st.syms && st.em.nextReg <= em.nextReg
      && Within(st.em.Append(i), bs) && Exec(i, f) == Running(f.(block := em.cur, idx := 0))
  }

  lemma EnterBody(env: Env, st: TState, i: Instr, inner: TState, bs: Blocks, f: Frame) returns (f': Frame)
    requires Ready(env, st, f) && Entered(st, i, inner, bs, f)
    ensures Leads(bs, Running(f), Running(f')) && Ready(env, inner, f') && Evolves(f, f')
  {
    hide Leads, Ready, Within, Evolves, Valid, Exec;
    f' := Enter(env, st, i, inner, bs, f);
  }

  lemma ExitBody(o: Outcome, env: Env, st: TState, inner: TState, r: Result, after: TState, bs: Blocks, f: Frame,
                 f1: Frame, c: Config)
    returns (c': Config)
    requires Ready(env, st, f) && Evolves(f, f1) && r.Ok? && Valid(r.st)
    requires inner.syms == st.syms && Keeps(inner.syms, r.st.syms)
    requires Matches(o, inner, r, f1, c)
    requires Continues(st, r.st.em, after) && Within(CloseBody(r.st.em, after.em.cur), bs)
    ensures Leads(bs, c, c')
    ensures BodyMatches(LeaveOutcome(o, env), st, after, r.v, f, c')
  {
    ReadyKeys(env, st, f);
    match o {
      case Normal(env1, y) =>
        hide Leads, Within, Evolves, Valid, Ready, Rel, FrameOk, AtEnd;
        var f2 := LeaveBody(env1, env, r.st, after, bs, c.f);
        EvolvesTransitive(f, f1, c.f);
        EvolvesTransitive(f, c.f, f2);
        ValRelEvolves(y, r.v, c.f, f2);
        c' := Running(f2);
      case Return(env1, x) =>
        c' := c;
        LeadsSelf(bs, c);
        HoldsLeave(env1, env, st.syms, c.fin);
        EvolvesTransitive(f, f1, c.fin);
      case Undefined =>
        c' := c;
        LeadsSelf(bs, c);
      case Wrong =>
        assert false;
    }
  }

  lemma ReadyKeys(env: Env, st: TState, f: Frame)
    requires Ready(env, st, f)
    ensures env.Keys == st.syms.Keys
  {
  }

  lemma {:induction false} SimBody(es: seq<Expr>, env: Env, st: TState, i: Instr, inner: TState, after: TState,
                                   bs: Blocks, f: Frame) returns (c: Config)
    requires Ready(env, st, f) && Entered(st, i, inner, bs, f) && TransAll(es, inner, Nothing).Ok?
    requires var r := TransAll(es, inner, Nothing);
      Continues(st, r.st.em, after) && Within(CloseBody(r.st.em, after.em.cur), bs) && Within(r.st.em, bs)
    ensures Leads(bs, Running(f), c)
    ensures BodyMatches(LeaveOutcome(EvalAll(es, env, Void), env), st, after, TransAll(es, inner, Nothing).v, f, c)
    decreases es, 1
  {
    EnteredValid(st, i, inner, bs, f);
    hide Leads, TransAll, EvalAll, Ready, Within, Evolves, Valid, Entered, Continues, Matches, BodyMatches,
         LeaveOutcome, CloseBody, Keeps;
    var r := TransAll(es, inner, Nothing);
    AllKeeps(es, inner);
    var f1 := EnterBody(env, st, i, inner, bs, f);
    c := SimAll(es, env, Void, inner, Nothing, bs, f1);
    LeadsTransitive(bs, Running(f), Running(f1), c);
    var c1 := c;
    c := ExitBody(EvalAll(es, env, Void), env, st, inner, r, after, bs, f, f1, c1);
    LeadsTransitive(bs, Running(f), c1, c);
  }

  lemma EnteredValid(st: TState, i: Instr, inner: TState, bs: Blocks, f: Frame)
    requires Entered(st, i, inner, bs, f)
    ensures Valid(inner) && inner.syms == st.syms
  {
  }

  lemma AllKeeps(es: seq<Expr>, st: TState)
    requires Valid(st) && TransAll(es, st, Nothing).Ok?
    ensures var r := TransAll(es, st, Nothing);
      Valid(r.st) && ValidEmit(r.st.em) && Grows(st.em, r.st.em) && Keeps(st.syms, r.st.syms)
  {
    hide TransAll;
    AllAdvances(es, st, Nothing);
  }

  lemma BodyToMatches(o: Outcome, st: TState, after: TState, v: TVal, f: Frame, c: Config)
    requires BodyMatches(o, st, after, v, f, c)
    ensures Matches(o, st, Ok(after, v), f, c)
  {
  }

  // The call of a scope.

  lemma CallSetup(body: seq<Expr>, st: TState, bs: Blocks, f: Frame)
    requires Valid(st) && TransCall(body, st).Ok? && Within(TransCall(body, st).st.em, bs)
    ensures TransAll(body, CallState(st), Nothing).Ok?
    ensures var r := TransAll(body, CallState(st), Nothing);
      var after := EndCall(st, r.st.em);
      && Entered(st, Br(st.em.nextBlock + 1), CallState(st), bs, f)
      && Continues(st, r.st.em, after) && Within(CloseBody(r.st.em, after.em.cur), bs) && Within(r.st.em, bs)
      && TransCall(body, st) == Ok(after, r.v)
  {
    var r := TransAll(body, CallState(st), Nothing);
    CallBeside(st);
    AllKeeps(body, CallState(st));
    var em1 := r.st.em;
    CallBodyBeside(st, em1);
    CallWaiting(st);
    StillWaiting(CallState(st).em, em1, st.em.nextBlock);
    assert CallState(st).syms == st.syms && CallState(st).em.cur == st.em.nextBlock + 1;
    assert TransCall(body, st) == Ok(EndCall(st, em1), r.v);
    hide TransAll, TransCall, CallState, Grows, Keeps, Waiting;
    CallEnd(st, em1, bs);
    CallEntered(st, em1, bs, f);
  }

  lemma CallEnd(st: TState, em1: Emit, bs: Blocks)
    requires Valid(st) && ValidEmit(em1) && Beside(st.em, em1) && st.em.nextBlock <= em1.cur
    requires Waiting(em1, st.em.nextBlock) && Within(EndCall(st, em1).em, bs)
    ensures var after := EndCall(st, em1);
      && Continues(st, em1, after) && Within(CloseBody(em1, after.em.cur), bs) && Within(em1, bs)
      && Within(st.em.Append(Br(st.em.nextBlock + 1)), bs)
  {
    var after := EndCall(st, em1);
    var nb := st.em.nextBlock;
    EndCallAdvances(st, em1);
    EndCallLayout(st, em1);
    CloseSame(em1, nb, after.em.cur, bs);
    assert after.syms == st.syms;
    hide EndCall, Within, Beside, Waiting, CloseBody, Advances;
    WithinTransitive(CloseBody(em1, nb), after.em, bs);
    WithinTransitive(st.em.Append(Br(nb + 1)), after.em, bs);
    AdvancesValid(st, after);
    CloseWithin(em1, nb, bs);
  }

  lemma CloseSame(em: Emit, a: nat, b: nat, bs: Blocks)
    ensures !em.FallsThrough() ==> CloseBody(em, a) == CloseBody(em, b)
  {
  }

  lemma CloseWithin(em: Emit, next: nat, bs: Blocks)
    requires ValidEmit(em) && Within(CloseBody(em, next), bs)
    ensures Within(em, bs)
  {
    if em.FallsThrough() {
      WithinAppend(em, Br(next), bs);
    }
  }

  lemma CallEntered(st: TState, em1: Emit, bs: Blocks, f: Frame)
    requires Valid(st) && Within(st.em.Append(Br(st.em.nextBlock + 1)), bs)
    ensures Entered(st, Br(st.em.nextBlock + 1), CallState(st), bs, f)
  {
    hide Within;
    CallBeside(st);
    CallWaiting(st);
  }

  lemma {:induction false} SimScopeCall(e: Expr, env: Env, st: TState, bs: Blocks, f: Frame) returns (c: Config)
    requires Ready(env, st, f) && e.ScopeCall?
    requires Trans(e, st).Ok? && Within(Trans(e, st).st.em, bs)
    ensures Leads(bs, Running(f), c)
    ensures Matches(Eval(e, env), st, Trans(e, st), f, c)
    decreases e, 1
  {
    assert e.body != [] && Trans(e, st) == TransCall(e.body, st);
    assert Eval(e, env) == LeaveOutcome(EvalAll(e.body, env, Void), env);
    ReadyValid(env, st, f);
    hide Leads, Trans, Eval, TransAll, TransCall, EvalAll, Ready, Within, Evolves, Valid, Entered, Continues, Matches,
         BodyMatches, LeaveOutcome, CloseBody, CallState, EndCall;
    CallSetup(e.body, st, bs, f);
    var r := TransAll(e.body, CallState(st), Nothing);
    var after := EndCall(st, r.st.em);
    c := SimBody(e.body, env, st, Br(st.em.nextBlock + 1), CallState(st), after, bs, f);
    BodyToMatches(LeaveOutcome(EvalAll(e.body, env, Void), env), st, after, r.v, f, c);
  }

  // The conditional with scope arms.

  lemma ArmsUnfold(c: Operand, e: Expr, st: TState)
    requires Valid(st) && e.CondScope? && TransArms(c, e, st).Ok?
    ensures TransAll(e.thenBody, ThenState(st), Nothing).Ok?
    ensures var em1 := TransAll(e.thenBody, ThenState(st), Nothing).st.em;
      && Valid(ElseState(st, em1)) && TransAll(e.elseBody, ElseState(st, em1), Nothing).Ok?
      && ValidEmit(em1) && Beside(st.em, em1) && st.em.nextBlock <= em1.cur && Waiting(em1, st.em.nextBlock + 2)
      && ElseState(st, em1).em.Here() == [] && em1.nextReg == ElseState(st, em1).em.nextReg
      && st.em.nextReg <= em1.nextReg
      && var em2 := TransAll(e.elseBody, ElseState(st, em1), Nothing).st.em;
      && ValidEmit(em2) && Beside(st.em, em2) && st.em.nextBlock <= em2.cur && Waiting(em2, st.em.nextBlock + 2)
      && Within(CloseBody(em1, st.em.nextBlock + 2), em2.blocks) && em1.nextReg <= em2.nextReg
      && TransArms(c, e, st) == Ok(JoinArms(c, st, em1.FallsThrough() || em2.FallsThrough(), em2), Nothing)
  {
    var mb := st.em.nextBlock + 2;
    var r1 := TransAll(e.thenBody, ThenState(st), Nothing);
    var em1 := r1.st.em;
    var s1 := ElseState(st, em1);
    var r2 := TransAll(e.elseBody, s1, Nothing);
    assert TransArms(c, e, st) == Ok(JoinArms(c, st, em1.FallsThrough() || r2.st.em.FallsThrough(), r2.st.em), Nothing);
    hide TransAll, TransArms, JoinArms;
    ThenBeside(st);
    AllKeeps(e.thenBody, ThenState(st));
    ThenWaiting(st);
    StillWaiting(ThenState(st).em, em1, mb);
    ElseBeside(st, em1);
    ElseWaiting(st, em1);
    AllKeeps(e.elseBody, s1);
    ArmsUnfoldRest(st, em1, r2.st.em);
  }

  lemma ArmsUnfoldRest(st: TState, em1: Emit, em2: Emit)
    requires Valid(st) && ValidEmit(em1) && Grows(ThenState(st).em, em1)
    requires ValidEmit(em2) && Grows(ElseState(st, em1).em, em2)
    ensures Beside(st.em, em1) && st.em.nextBlock <= em1.cur && st.em.nextReg <= em1.nextReg <= em2.nextReg
    ensures Beside(st.em, em2) && st.em.nextBlock <= em2.cur && Waiting(em2, st.em.nextBlock + 2)
    ensures Within(CloseBody(em1, st.em.nextBlock + 2), em2.blocks)
  {
    var mb := st.em.nextBlock + 2;
    ThenBeside(st);
    ThenWaiting(st);
    ElseWaiting(st, em1);
    GrowsRegs(ThenState(st).em, em1);
    GrowsRegs(ElseState(st, em1).em, em2);
    assert ElseState(st, em1).em == CloseBody(em1, mb).At(mb - 1) && ThenState(st).em.cur == st.em.nextBlock;
    hide Valid, ValidEmit, Grows, Beside, Waiting, Within, ThenState, ElseState, CloseBody;
    ValidParts(st);
    BodyBeside(st.em, ThenState(st).em, em1);
    ArmsBeside(st, em1, em2);
    StillWaiting(ElseState(st, em1).em, em2, mb);
    GrowsWithin(ElseState(st, em1).em, em2);
    SameBlocksWithin(CloseBody(em1, mb), mb - 1, em2.blocks);
  }

  lemma ValidParts(st: TState)
    requires Valid(st)
    ensures ValidEmit(st.em) && ValidEmit(ThenState(st).em)
  {
    ThenBeside(st);
  }

  lemma GrowsRegs(em: Emit, em': Emit)
    requires Grows(em, em')
    ensures em.nextReg <= em'.nextReg
  {
  }

  lemma SameBlocksWithin(em: Emit, b: nat, bs: Blocks)
    requires Within(em.At(b), bs)
    ensures Within(em, bs)
  {
  }

  lemma ArmsSetup(c: Operand, e: Expr, st: TState, bs: Blocks)
    requires Valid(st) && e.CondScope? && TransArms(c, e, st).Ok? && Within(TransArms(c, e, st).st.em, bs)
    ensures TransAll(e.thenBody, ThenState(st), Nothing).Ok?
    ensures var em1 := TransAll(e.thenBody, ThenState(st), Nothing).st.em;
      var s1, after := ElseState(st, em1), TransArms(c, e, st).st;
      && Valid(s1) && s1.em.Here() == [] && st.em.nextReg <= s1.em.nextReg
      && Continues(st, em1, after) && Within(CloseBody(em1, after.em.cur), bs) && Within(em1, bs)
      && TransAll(e.elseBody, s1, Nothing).Ok?
      && var em2 := TransAll(e.elseBody, s1, Nothing).st.em;
      && Continues(st, em2, after) && Within(CloseBody(em2, after.em.cur), bs) && Within(em2, bs)
    ensures Within(st.em.Append(CondBr(c, st.em.nextBlock, st.em.nextBlock + 1)), bs)
    ensures TransArms(c, e, st).v == Nothing
  {
    hide TransAll, TransArms, Waiting, Beside, Within, JoinArms, CloseBody, ThenState, ElseState, Emit.FallsThrough,
         Emit.Append, Valid, Grows;
    ArmsUnfold(c, e, st);
    var mb := st.em.nextBlock + 2;
    var em1 := TransAll(e.thenBody, ThenState(st), Nothing).st.em;
    var em2 := TransAll(e.elseBody, ElseState(st, em1), Nothing).st.em;
    var keep := em1.FallsThrough() || em2.FallsThrough();
    JoinSetup(c, st, keep, em2, bs);
    WithinTransitive(CloseBody(em1, mb), em2, bs);
    CloseWithin(em1, mb, bs);
    var after := JoinArms(c, st, keep, em2);
    CloseSame(em1, mb, after.em.cur, bs);
    CloseSame(em2, mb, after.em.cur, bs);
  }

  lemma JoinSetup(c: Operand, st: TState, keep: bool, em2: Emit, bs: Blocks)
    requires Valid(st) && ValidEmit(em2) && Beside(st.em, em2) && st.em.nextBlock <= em2.cur
    requires Waiting(em2, st.em.nextBlock + 2) && (em2.FallsThrough() ==> keep)
    requires Within(JoinArms(c, st, keep, em2).em, bs)
    ensures var mb := st.em.nextBlock + 2;
      var after := JoinArms(c, st, keep, em2);
      && Within(CloseBody(em2, mb), bs) && Within(em2, bs)
      && Within(st.em.Append(CondBr(c, mb - 2, mb - 1)), bs)
      && Valid(after) && after.syms == st.syms && after.em.nextReg == em2.nextReg
      && (keep ==> after.em.cur == mb && after.em.Here() == [])
  {
    var mb := st.em.nextBlock + 2;
    var after := JoinArms(c, st, keep, em2);
    assert mb in em2.blocks;
    JoinLayout(c, st, keep, em2);
    JoinAdvances(c, st, keep, em2);
    assert after.syms == st.syms && after.em.nextReg == em2.nextReg;
    hide Within, Waiting, Beside, JoinArms, CloseBody, Advances;
    AdvancesValid(st, after);
    WithinTransitive(CloseBody(em2, mb), after.em, bs);
    WithinTransitive(st.em.Append(CondBr(c, mb - 2, mb - 1)), after.em, bs);
    CloseWithin(em2, mb, bs);
  }

  lemma ArmEntered(c: Operand, b: bool, st: TState, inner: TState, bs: Blocks, f: Frame)
    requires Valid(st) && Within(st.em.Append(CondBr(c, st.em.nextBlock, st.em.nextBlock + 1)), bs)
    requires Read(f, c) == Enc(BoolV(b))
    requires Valid(inner) && inner.em.Here() == [] && inner.syms == st.syms && st.em.nextReg <= inner.em.nextReg
    requires inner.em.cur == if b then st.em.nextBlock else st.em.nextBlock + 1
    ensures Entered(st, CondBr(c, st.em.nextBlock, st.em.nextBlock + 1), inner, bs, f)
  {
    EncBool(b);
  }

  lemma ArmToMatches(o: Outcome, st: TState, r: Result, v: TVal, f: Frame, c: Config)
    requires r.Ok? && r.v == Nothing && BodyMatches(o, st, r.st, v, f, c)
    ensures Matches(if o.Normal? then Normal(o.env, Void) else o, st, r, f, c)
  {
  }

  lemma {:induction false} SimArms(o: Operand, b: bool, e: Expr, env: Env, st: TState, bs: Blocks, f: Frame)
    returns (c: Config)
    requires Ready(env, st, f) && e.CondScope? && Read(f, o) == Enc(BoolV(b))
    requires TransArms(o, e, st).Ok? && Within(TransArms(o, e, st).st.em, bs)
    ensures Leads(bs, Running(f), c)
    ensures var out := LeaveOutcome(EvalAll(if b then e.thenBody else e.elseBody, env, Void), env);
      Matches(if out.Normal? then Normal(out.env, Void) else out, st, TransArms(o, e, st), f, c)
    decreases e, 0
  {
    ReadyValid(env, st, f);
    ThenBeside(st);
    ThenWaiting(st);
    ArmsSetup(o, e, st, bs);
    var i := CondBr(o, st.em.nextBlock, st.em.nextBlock + 1);
    var r1, r := TransAll(e.thenBody, ThenState(st), Nothing), TransArms(o, e, st);
    var s1 := ElseState(st, r1.st.em);
    var body := if b then e.thenBody else e.elseBody;
    var out := LeaveOutcome(EvalAll(body, env, Void), env);
    assert ThenState(st).em.cur == st.em.nextBlock && s1.em.cur == st.em.nextBlock + 1;
    assert ThenState(st).syms == st.syms && s1.syms == st.syms;
    hide Leads, TransAll, TransArms, EvalAll, Ready, Within, Evolves, Valid, Entered, Continues, Matches, BodyMatches,
         LeaveOutcome, CloseBody, ThenState, ElseState, Read, Enc, Beside;
    ArmEntered(o, b, st, if b then ThenState(st) else s1, bs, f);
    if b {
      c := SimBody(e.thenBody, env, st, i, ThenState(st), r.st, bs, f);
      ArmToMatches(out, st, r, r1.v, f, c);
    } else {
      c := SimBody(e.elseBody, env, st, i, s1, r.st, bs, f);
      ArmToMatches(out, st, r, TransAll(e.elseBody, s1, Nothing).v, f, c);
    }
  }

  lemma CondScopeUnfold(e: Expr, env: Env, st: TState, bs: Blocks)
    requires e.CondScope? && Valid(st) && Trans(e, st).Ok? && Within(Trans(e, st).st.em, bs)
    ensures Trans(e.cond, st).Ok? && Trans(e.cond, st).v.TVal? && Trans(e.cond, st).v.ty == I1
    ensures var r1 := Trans(e.cond, st);
      && Valid(r1.st) && Advances(st, r1.st) && Within(r1.st.em, bs)
      && Trans(e, st) == TransArms(r1.v.opd, e, r1.st)
    ensures var o1 := Eval(e.cond, env);
      if !o1.Normal? then Eval(e, env) == o1
      else if o1.y.Void? || !o1.y.val.BoolV? then Eval(e, env) == Wrong
      else
        var out := LeaveOutcome(EvalAll(if o1.y.val.b then e.thenBody else e.elseBody, o1.env, Void), o1.env);
        Eval(e, env) == if out.Normal? then Normal(out.env, Void) else out
  {
    var r1 := Trans(e.cond, st);
    assert Trans(e, st) == TransArms(r1.v.opd, e, r1.st);
    hide Trans, TransArms, Within, Advances, Valid, LeaveOutcome;
    TransAdvances(e.cond, st);
    AdvancesValid(st, r1.st);
    ArmsAdvance(r1.v.opd, e, r1.st);
    AdvancesWithin(r1.st, Trans(e, st).st, bs);
  }

  lemma CondBool(y: Yield, v: TVal, f: Frame)
    requires ValRel(y, v, f) && v.TVal? && v.ty == I1
    ensures y.V? && y.val.BoolV? && Read(f, v.opd) == Enc(BoolV(y.val.b))
  {
  }

  lemma {:induction false} SimCondScope(e: Expr, env: Env, st: TState, bs: Blocks, f: Frame) returns (c: Config)
    requires Ready(env, st, f) && e.CondScope?
    requires Trans(e, st).Ok? && Within(Trans(e, st).st.em, bs)
    ensures Leads(bs, Running(f), c)
    ensures Matches(Eval(e, env), st, Trans(e, st), f, c)
    decreases e, 1
  {
    ReadyValid(env, st, f);
    CondScopeUnfold(e, env, st, bs);
    hide Leads, Trans, Eval, TransArms, EvalAll, Ready, Within, Evolves, Valid, Matches, LeaveOutcome, Advances, Enc,
         Read, ValRel;
    var r1, r := Trans(e.cond, st), Trans(e, st);
    var o1 := Eval(e.cond, env);
    c := SimExpr(e.cond, env, st, bs, f);
    if !o1.Normal? {
      Stops(o1, st, r1, r, f, c);
    } else {
      NextReady(o1.env, o1.y, st, r1, f, c);
      var f1 := c.f;
      CondBool(o1.y, r1.v, f1);
      c := SimArms(r1.v.opd, o1.y.val.b, e, o1.env, r1.st, bs, f1);
      LeadsTransitive(bs, Running(f), Running(f1), c);
      Prepend(Eval(e, env), st, r1.st, r, f, f1, c);
    }
  }
}
