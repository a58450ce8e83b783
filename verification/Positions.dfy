/** Positions of instructions: laying out code adds as many instructions of a kind as the code
    has, and never moves one. */
module Positions {
  import opened Words
  import opened Ast
  import opened Ir
  import opened Emitter
  import opened Translation
  import opened Growth
  import opened Bodies
  import opened Structure
  import opened Layout

  /** Kinds of instructions worth counting; branches are of none of them. */
  datatype Kind =
    | ValueReturn
    | ReturnOf(ty: Ty)
    | StoreTo(p: Operand)
    | DefinitionOf(r: nat)
    | ReadOnlyCell(r: nat)

  predicate Is(kind: Kind, i: Ir.Instr)
  {
    match kind
    case ValueReturn => i.RetVal?
    case ReturnOf(ty) => i.RetVal? && i.ty == ty
    case StoreTo(p) => i.Store? && i.ptr == p
    case DefinitionOf(r) => r in Defs(i)
    case ReadOnlyCell(r) => i.Alloca? && i.dst == r && i.tag.Variable? && !i.tag.mut
  }

  type Position = (nat, nat)

  function Sites(bs: Blocks, kind: Kind): set<Position>
  {
    set b, k | b in bs && 0 <= k < |bs[b]| && Is(kind, bs[b][k]) :: (b, k)
  }

  function Occurrences(code: Code, kind: Kind): nat
  {
    match code
    case Skip => 0
    case Instr(i) => if Is(kind, i) then 1 else 0
    case Seq(a, b) => Occurrences(a, kind) + Occurrences(b, kind)
    case Arms(_, a, b) => Occurrences(a, kind) + Occurrences(b, kind)
    case Call(a) => Occurrences(a, kind)
  }

  lemma SitesMember(bs: Blocks, kind: Kind, b: nat, k: nat)
    ensures (b, k) in Sites(bs, kind) <==> b in bs && k < |bs[b]| && Is(kind, bs[b][k])
  {
  }

  lemma SitesAfter(bs: Blocks, c: nat, i: Ir.Instr, kind: Kind)
    ensures Sites(bs[c := BodyOf(bs, c) + [i]], kind) ==
            Sites(bs, kind) + if Is(kind, i) then {(c, |BodyOf(bs, c)|)} else {}
  {
    var bs' := bs[c := BodyOf(bs, c) + [i]];
    var s := Sites(bs, kind) + if Is(kind, i) then {(c, |BodyOf(bs, c)|)} else {};
    hide Sites, Is;
    forall p: Position
      ensures p in Sites(bs', kind) <==> p in s
    {
      SitesMember(bs', kind, p.0, p.1);
      SitesMember(bs, kind, p.0, p.1);
    }
  }

  lemma SitesAppend(em: Emit, i: Ir.Instr, kind: Kind)
    ensures |Sites(em.Append(i).blocks, kind)| == |Sites(em.blocks, kind)| + if Is(kind, i) then 1 else 0
    ensures em.Define(i).blocks == em.Append(i).blocks
  {
    SitesMember(em.blocks, kind, em.cur, |em.Here()|);
    hide Sites, Is;
    SitesAfter(em.blocks, em.cur, i, kind);
  }

  lemma SitesEmpty(em: Emit, b: nat, kind: Kind)
    requires BodyOf(em.blocks, b) == []
    ensures Sites(em.Erase(b).blocks, kind) == Sites(em.blocks, kind)
  {
  }

  lemma SitesCreate(em: Emit, kind: Kind)
    requires ValidEmit(em)
    ensures Sites(em.CreateBlock().blocks, kind) == Sites(em.blocks, kind)
  {
  }

  lemma SitesOpen(em: Emit, kind: Kind)
    requires ValidEmit(em)
    ensures Sites(ThenState(Plain(em)).em.blocks, kind) == Sites(em.blocks, kind)
    ensures Sites(CallState(Plain(em)).em.blocks, kind) == Sites(em.blocks, kind)
  {
    hide Sites;
    SitesCreate(em, kind);
    SitesCreate(em.CreateBlock(), kind);
    SitesCreate(em.CreateBlock().CreateBlock(), kind);
  }

  lemma SitesClose(em: Emit, next: nat, kind: Kind)
    ensures |Sites(CloseBody(em, next).blocks, kind)| == |Sites(em.blocks, kind)|
  {
    hide Sites, Emit.Append, HasTerminator;
    SitesAppend(em, Br(next), kind);
  }

  lemma SitesResume(e: Emit, b: nat, i: Ir.Instr, next: nat, kind: Kind)
    requires !Is(kind, i)
    ensures |Sites(e.At(b).Append(i).blocks, kind)| == |Sites(e.blocks, kind)|
    ensures |Sites(e.At(b).Append(i).At(next).blocks, kind)| == |Sites(e.blocks, kind)|
  {
    SitesAppend(e.At(b), i, kind);
  }

  lemma SitesJoin(c: Operand, em: Emit, e2: Emit, keep: bool, kind: Kind)
    requires Waiting(e2, em.nextBlock + 2)
    ensures |Sites(JoinArms(c, Plain(em), keep, e2).em.blocks, kind)| == |Sites(e2.blocks, kind)|
  {
    hide Sites, CloseBody, Emit.Append, Is, Emit.FallsThrough;
    var mb := em.nextBlock + 2;
    var i := CondBr(c, em.nextBlock, em.nextBlock + 1);
    var e3 := CloseBody(e2, mb);
    WaitingClosed(e2, mb, mb);
    WaitingEmpty(e3, mb);
    SitesClose(e2, mb, kind);
    NotCounted(c, em.nextBlock, kind);
    if keep {
      SitesResume(e3, em.cur, i, mb, kind);
    } else {
      SitesEmpty(e3, mb, kind);
      SitesResume(e3.Erase(mb), em.cur, i, mb, kind);
    }
  }

  lemma WaitingEmpty(em: Emit, b: nat)
    requires Waiting(em, b)
    ensures BodyOf(em.blocks, b) == []
  {
  }

  lemma NotCounted(c: Operand, b: nat, kind: Kind)
    ensures !Is(kind, CondBr(c, b, b + 1)) && !Is(kind, Br(b))
  {
  }

  lemma SitesEndCall(em: Emit, e1: Emit, kind: Kind)
    requires Waiting(e1, em.nextBlock)
    ensures |Sites(EndCall(Plain(em), e1).em.blocks, kind)| == |Sites(e1.blocks, kind)|
  {
    hide Sites, Emit.Append, Is, Emit.FallsThrough;
    var nb := em.nextBlock;
    var i := Br(nb + 1);
    WaitingEmpty(e1, nb);
    NotCounted(ThisFunction, nb, kind);
    NotCounted(ThisFunction, nb + 1, kind);
    if e1.FallsThrough() {
      SitesAppend(e1, Br(nb), kind);
      SitesResume(e1.Append(Br(nb)), em.cur, i, nb, kind);
    } else {
      SitesEmpty(e1, nb, kind);
      SitesResume(e1.Erase(nb), em.cur, i, nb, kind);
    }
  }

  /** Layout conserves instructions. */
  lemma {:induction false} LaySites(code: Code, em: Emit, kind: Kind)
    requires ValidEmit(em)
    ensures |Sites(Lay(code, em).blocks, kind)| == |Sites(em.blocks, kind)| + Occurrences(code, kind)
    decreases code
  {
    hide Sites, Is, HasTerminator, Emit.Append, JoinArms, EndCall, ThenState, ElseState, CallState, CloseBody;
    match code
    case Skip =>
    case Instr(i) => SitesAppend(em, i, kind);
    case Seq(a, b) =>
      LayGrows(a, em);
      LaySites(a, em, kind);
      LaySites(b, Lay(a, em), kind);
    case Arms(c, a, b) =>
      ArmsParts(c, a, b, em);
      ArmsIs(c, a, b, em);
      SitesOpen(em, kind);
      LaySites(a, ThenState(Plain(em)).em, kind);
      SitesElse(a, em, kind);
      LaySites(b, BeforeElse(a, em), kind);
      SitesJoin(c, em, AfterElse(a, b, em), AfterThen(a, em).FallsThrough() || AfterElse(a, b, em).FallsThrough(),
        kind);
    case Call(a) =>
      CallParts(a, em);
      CallIs(a, em);
      SitesOpen(em, kind);
      LaySites(a, CallState(Plain(em)).em, kind);
      SitesEndCall(em, AfterBody(a, em), kind);
  }

  lemma SitesElse(a: Code, em: Emit, kind: Kind)
    ensures |Sites(BeforeElse(a, em).blocks, kind)| == |Sites(AfterThen(a, em).blocks, kind)|
  {
    hide Sites, CloseBody, Lay;
    SitesClose(AfterThen(a, em), em.nextBlock + 2, kind);
  }

  // ------------------------------------------------------- register numbers

  /** The next free register after code that starts with free register r. */
  function Next(code: Code, r: nat): nat
  {
    match code
    case Skip => r
    case Instr(i) => if Defs(i) == {} then r else r + 1
    case Seq(a, b) => Next(b, Next(a, r))
    case Arms(_, a, b) => Next(b, Next(a, r))
    case Call(a) => Next(a, r)
  }

  /** Registers are numbered in the order in which they are defined. */
  predicate Numbered(code: Code, r: nat)
  {
    match code
    case Skip => true
    case Instr(i) => Defs(i) <= {r}
    case Seq(a, b) => Numbered(a, r) && Numbered(b, Next(a, r))
    case Arms(_, a, b) => Numbered(a, r) && Numbered(b, Next(a, r))
    case Call(a) => Numbered(a, r)
  }

  lemma {:induction false} LayNext(code: Code, em: Emit)
    ensures Lay(code, em).nextReg == Next(code, em.nextReg)
    decreases code
  {
    match code
    case Skip =>
    case Instr(_) =>
    case Seq(a, b) =>
      LayNext(a, em);
      LayNext(b, Lay(a, em));
    case Arms(c, a, b) =>
      hide Emit.FallsThrough, BodyOf, HasTerminator;
      LayNext(a, ThenState(Plain(em)).em);
      LayNext(b, BeforeElse(a, em));
    case Call(a) =>
      hide Emit.FallsThrough, BodyOf, HasTerminator;
      LayNext(a, CallState(Plain(em)).em);
  }

  lemma {:induction false} NextGrows(code: Code, r: nat)
    ensures r <= Next(code, r)
    decreases code
  {
    match code
    case Skip =>
    case Instr(_) =>
    case Seq(a, b) => NextGrows(a, r); NextGrows(b, Next(a, r));
    case Arms(_, a, b) => NextGrows(a, r); NextGrows(b, Next(a, r));
    case Call(a) => NextGrows(a, r);
  }

  /** Numbered code defines each of its registers exactly once. */
  lemma {:induction false} DefinedOnce(code: Code, r0: nat, r: nat)
    requires Numbered(code, r0)
    ensures Occurrences(code, DefinitionOf(r)) == if r0 <= r < Next(code, r0) then 1 else 0
    decreases code
  {
    NextGrows(code, r0);
    match code
    case Skip =>
    case Instr(i) =>
    case Seq(a, b) =>
      DefinedOnce(a, r0, r);
      DefinedOnce(b, Next(a, r0), r);
      NextGrows(a, r0);
      NextGrows(b, Next(a, r0));
    case Arms(_, a, b) =>
      DefinedOnce(a, r0, r);
      DefinedOnce(b, Next(a, r0), r);
      NextGrows(a, r0);
      NextGrows(b, Next(a, r0));
    case Call(a) => DefinedOnce(a, r0, r);
  }
}
