/** Paths through emitted functions: each register has one definition, and it lies before every
    use on every path. */
module Paths {
  import opened Words
  import opened Ast
  import opened Ir
  import opened Emitter
  import opened Translation
  import opened Evaluation
  import opened Structure
  import opened Layout
  import opened Positions
  import opened Dominance
  import opened Scoping
  import opened Wellformedness
  import opened Functions
  import Cfg

  predicate Inside(bs: Blocks, p: Position)
  {
    p.0 in bs && p.1 < |bs[p.0]|
  }

  function InstrAt(bs: Blocks, p: Position): Ir.Instr
    requires Inside(bs, p)
  {
    bs[p.0][p.1]
  }

  /** Control can go from p to q: to the next instruction, or to the start of a branch target. */
  predicate Follows(bs: Blocks, p: Position, q: Position)
    requires Inside(bs, p)
  {
    var i := InstrAt(bs, p);
    if IsTerminator(i) then q.0 in Targets(i) && q.1 == 0 else q == (p.0, p.1 + 1)
  }

  /** A path from the entry of the function. */
  predicate Path(bs: Blocks, ps: seq<Position>)
  {
    && |ps| > 0 && ps[0] == (0, 0)
    && (forall j :: 0 <= j < |ps| ==> Inside(bs, ps[j]))
    && (forall j :: 0 <= j < |ps| - 1 ==> Follows(bs, ps[j], ps[j + 1]))
  }

  predicate DefinedOn(bs: Blocks, ps: seq<Position>, r: nat)
    requires forall j :: 0 <= j < |ps| ==> Inside(bs, ps[j])
  {
    exists j :: 0 <= j < |ps| && r in Defs(InstrAt(bs, ps[j]))
  }

  ghost predicate CertifiedBlocks(bs: Blocks, ins: Entry)
  {
    0 in ins && ins[0] == {} && forall b | b in bs :: b in ins && Sound(bs[b], ins[b], ins)
  }

  /** What a certificate says is available has been defined on the way. */
  lemma {:induction false} PathDefines(bs: Blocks, ins: Entry, ps: seq<Position>, r: nat)
    requires CertifiedBlocks(bs, ins) && Path(bs, ps)
    ensures var (b, k) := ps[|ps| - 1];
      && !HasTerminator(bs[b][..k])
      && (r in ins[b] || Defined(bs[b][..k], r) ==> DefinedOn(bs, ps[..|ps| - 1], r))
    decreases |ps|
  {
    var n := |ps| - 1;
    var (b, k) := ps[n];
    if n > 0 {
      var qs := ps[..n];
      var (c, l) := ps[n - 1];
      assert Follows(bs, ps[n - 1], ps[n]);
      assert qs[n - 1] == ps[n - 1];
      assert forall j :: 0 <= j < |qs| - 1 ==> Follows(bs, ps[j], ps[j + 1]);
      PathDefines(bs, ins, qs, r);
      if DefinedOn(bs, qs[..n - 1], r) {
        DefinedLater(bs, ps, r);
      }
      if IsTerminator(bs[c][l]) {
        assert Dominance.Passes(bs[c][l], bs[c][..l], ins[c], ins);
      } else {
        assert bs[b][..k] == bs[b][..l] + [bs[b][l]];
        TerminatorAppend(bs[b][..l], bs[b][l]);
        DefinedAppend(bs[b][..l], bs[b][l], r);
        if r in Defs(bs[b][l]) {
          assert r in Defs(InstrAt(bs, qs[n - 1]));
        }
      }
    }
  }

  lemma DefinedLater(bs: Blocks, ps: seq<Position>, r: nat)
    requires Path(bs, ps) && |ps| > 1
    requires DefinedOn(bs, ps[..|ps| - 1][..|ps| - 2], r)
    ensures DefinedOn(bs, ps[..|ps| - 1], r)
  {
    var j :| 0 <= j < |ps| - 2 && r in Defs(InstrAt(bs, ps[..|ps| - 1][..|ps| - 2][j]));
    assert r in Defs(InstrAt(bs, ps[..|ps| - 1][j]));
  }

  lemma DefinedAppend(body: seq<Ir.Instr>, i: Ir.Instr, r: nat)
    ensures Defined(body + [i], r) <==> Defined(body, r) || r in Defs(i)
  {
    if Defined(body, r) {
      var j :| 0 <= j < |body| && r in Defs(body[j]);
      assert r in Defs((body + [i])[j]);
    }
    if r in Defs(i) {
      assert r in Defs((body + [i])[|body|]);
    }
  }

  // ------------------------------------------------------------ functions

  lemma {:induction false} ScopedParams(params: seq<Parameter>, args: seq<Argument>, k: nat, st: TState, s: set<nat>)
    requires |params| == |args| && k <= |args| && Visible(st.syms, s)
    ensures var code := ParamsCode(params, args, k, st.em.nextReg);
      Scoped(code, s) && Visible(DeclareParams(params, args, k, true, st).syms, Out(code, s))
    decreases |args| - k
  {
    if k < |args| {
      var tag, r := Ir.Argument(params[k].name), st.em.nextReg;
      var d := Declared(params[k].name, tag, args[k].isConst, args[k].ty, Param(k), st);
      var i, j := Alloca(r, Scalar(args[k].ty), tag), Store(Param(k), Reg(r));
      ScopedInstr(i, s);
      ScopedInstr(j, s + {r});
      ScopedSeq(Instr(i), Instr(j), s);
      assert Visible(d.syms, s + {r});
      assert s + {r} + Defs(j) == s + {r};
      DeclaredRegister(params[k].name, tag, args[k].isConst, args[k].ty, Param(k), st);
      hide Scoped, Out, Visible, Declared;
      ScopedParams(params, args, k + 1, d, s + {r});
      ScopedSeq(DeclareCode(tag, args[k].ty, Param(k), r), ParamsCode(params, args, k + 1, r + 1), s);
    }
  }

  lemma ScopedSelf()
    ensures Scoped(SELF_CODE, {}) && SelfCell(true).em.nextReg == 1 && SelfCell(true).syms == map[]
  {
    var i, j := Alloca(0, FunctionPointer, Self), Store(ThisFunction, Reg(0));
    ScopedInstr(i, {});
    ScopedInstr(j, {} + {0});
    ScopedSeq(Instr(i), Instr(j), {});
  }

  lemma ScopedFunction(lit: FunctionLit, args: seq<Argument>)
    requires Evaluate(lit, args).Emitted?
    ensures Scoped(FunctionCode(lit, args), {})
  {
    FunctionParts(lit, args);
    hide Evaluate, TransAll, CodeOfAll, DeclareParams, ParamsCode, Scoped, Out;
    var p := Prologue(lit.params, args, true);
    var a, b := PrologueCode(lit.params, args), CodeOfAll(lit.body, p, Nothing);
    ScopedSelf();
    var s0 := Out(SELF_CODE, {});
    ScopedParams(lit.params, args, 0, SelfCell(true), s0);
    ScopedSeq(SELF_CODE, ParamsCode(lit.params, args, 0, 1), {});
    var s1 := Out(a, {});
    ScopedAll(lit.body, p, Nothing, s1);
    ScopedSeq(a, b, {});
    ScopedInstr(RetVoid, Out(Seq(a, b), {}));
    ScopedSeq(Seq(a, b), Instr(RetVoid), {});
    ScopedSeq(Seq(a, b), Skip, {});
    ScopedSkip(Out(Seq(a, b), {}));
  }

  lemma ScopedSkip(s: set<nat>)
    ensures Scoped(Skip, s)
  {
  }

  lemma BlankCertified()
    ensures Certified(BLANK, map[0 := {}]) && Available(BLANK, map[0 := {}], {})
  {
  }

  lemma FunctionCertified(lit: FunctionLit, args: seq<Argument>) returns (ins: Entry)
    requires Evaluate(lit, args).Emitted?
    ensures CertifiedBlocks(Evaluate(lit, args).fn.blocks, ins)
  {
    hide Evaluate, Lay, FunctionCode, Scoped, Available, Out;
    LayFunction(lit, args);
    ScopedFunction(lit, args);
    BlankCertified();
    BlankValid();
    ins := LayCertified(FunctionCode(lit, args), BLANK, map[0 := {}], {});
  }

  /** Single assignment: a register has exactly one definition, or none at all. */
  lemma OneDefinition(lit: FunctionLit, args: seq<Argument>, r: nat)
    requires Evaluate(lit, args).Emitted?
    ensures |Sites(Evaluate(lit, args).fn.blocks, DefinitionOf(r))| ==
            if r < Next(FunctionCode(lit, args), 0) then 1 else 0
  {
    hide Evaluate, Lay, FunctionCode, NoRetAll, Sites, Next, Occurrences;
    LayFunction(lit, args);
    FunctionRegular(lit, args);
    BlankValid();
    LaySites(FunctionCode(lit, args), BLANK, DefinitionOf(r));
    DefinedOnce(FunctionCode(lit, args), 0, r);
  }

  /** On every path to an instruction, each register it reads was defined before. */
  lemma UseAfterDefinition(lit: FunctionLit, args: seq<Argument>, ps: seq<Position>, r: nat)
    requires Evaluate(lit, args).Emitted? && Path(Evaluate(lit, args).fn.blocks, ps)
    requires r in Uses(InstrAt(Evaluate(lit, args).fn.blocks, ps[|ps| - 1]))
    ensures DefinedOn(Evaluate(lit, args).fn.blocks, ps[..|ps| - 1], r)
  {
    hide Evaluate, HasTerminator, Follows;
    var bs := Evaluate(lit, args).fn.blocks;
    var ins := FunctionCertified(lit, args);
    PathDefines(bs, ins, ps, r);
    var (b, k) := ps[|ps| - 1];
    assert Covers(bs[b][..k], ins[b], Uses(bs[b][k]));
  }

  /** Definitions dominate uses: the one definition of a register lies before each use of it on
      every path from the entry. */
  lemma DefinitionDominates(lit: FunctionLit, args: seq<Argument>, d: Position, u: Position, ps: seq<Position>, r: nat)
    requires Evaluate(lit, args).Emitted?
    requires var bs := Evaluate(lit, args).fn.blocks;
      && Inside(bs, d) && r in Defs(InstrAt(bs, d))
      && Inside(bs, u) && r in Uses(InstrAt(bs, u))
      && Path(bs, ps) && ps[|ps| - 1] == u
    ensures d in ps[..|ps| - 1]
  {
    var bs := Evaluate(lit, args).fn.blocks;
    hide Evaluate, Path, Follows, HasTerminator;
    UseAfterDefinition(lit, args, ps, r);
    PathInside(bs, ps);
    var j :| 0 <= j < |ps| - 1 && r in Defs(InstrAt(bs, ps[..|ps| - 1][j]));
    SitesMember(bs, DefinitionOf(r), d.0, d.1);
    SitesMember(bs, DefinitionOf(r), ps[j].0, ps[j].1);
    hide Sites;
    OneDefinition(lit, args, r);
    if d != ps[j] {
      TwoElements(Sites(bs, DefinitionOf(r)), d, ps[j]);
    }
    assert ps[..|ps| - 1][j] == d;
  }

  lemma PathInside(bs: Blocks, ps: seq<Position>)
    requires Path(bs, ps)
    ensures |ps| > 0 && forall j :: 0 <= j < |ps| ==> Inside(bs, ps[j])
  {
  }

  lemma TwoElements<T>(s: set<T>, x: T, y: T)
    requires x != y && x in s && y in s
    ensures |s| >= 2
  {
    assert s == {x, y} + (s - {x, y});
    assert |s| == |{x, y}| + |s - {x, y}|;
  }
}
