/** Every register an emitted function reads is defined before, on every path from the entry:
    definitions dominate uses. */
module Dominance {
  import opened Words
  import opened Ast
  import opened Ir
  import opened Emitter
  import opened Translation
  import opened Growth
  import opened Bodies
  import opened Structure
  import opened Layout
  import opened Cfg
  import opened Positions
  import Graph

  // ------------------------------------------------------ scoping of code

  /** The registers available after code that starts with s available. What the arms of a
      conditional define is not available after it; what a called body defines is. */
  function Out(code: Code, s: set<nat>): (o: set<nat>)
    ensures s <= o
  {
    match code
    case Skip => s
    case Instr(i) => s + Defs(i)
    case Seq(a, b) => Out(b, Out(a, s))
    case Arms(_, _, _) => s
    case Call(a) => Out(a, s)
  }

  /** Each instruction reads available registers only. */
  predicate Scoped(code: Code, s: set<nat>)
  {
    match code
    case Skip => true
    case Instr(i) => Uses(i) <= s && Targets(i) == {}
    case Seq(a, b) => Scoped(a, s) && Scoped(b, Out(a, s))
    case Arms(c, a, b) => RegsOf(c) <= s && Scoped(a, s) && Scoped(b, s)
    case Call(a) => Scoped(a, s)
  }

  // ---------------------------------------------------------- certificates

  /** Which registers are available at the entry of each block. */
  type Entry = map<nat, set<nat>>

  ghost predicate Defined(body: seq<Ir.Instr>, r: nat)
  {
    exists j :: 0 <= j < |body| && r in Defs(body[j])
  }

  /** All of regs is available after body, entered with s available. */
  ghost predicate Covers(body: seq<Ir.Instr>, s: set<nat>, regs: set<nat>)
  {
    forall r | r in regs :: r in s || Defined(body, r)
  }

  ghost predicate Passes(i: Ir.Instr, body: seq<Ir.Instr>, s: set<nat>, ins: Entry)
  {
    forall t | t in Targets(i) :: t in ins && Covers(body, s, ins[t])
  }

  /** Up to its first terminator, a block entered with s available reads what is available, and
      has available what its successors expect. */
  ghost predicate Sound(body: seq<Ir.Instr>, s: set<nat>, ins: Entry)
  {
    forall k :: 0 <= k < |body| && !HasTerminator(body[..k]) ==>
      Covers(body[..k], s, Uses(body[k])) && Passes(body[k], body[..k], s, ins)
  }

  ghost predicate Certified(em: Emit, ins: Entry)
  {
    && (forall b | b in em.blocks :: b in ins && Sound(em.blocks[b], ins[b], ins))
    && (forall b | b in ins :: b < em.nextBlock)
  }

  /** At the insertion point all of s is available, if control can be there. */
  ghost predicate Available(em: Emit, ins: Entry, s: set<nat>)
  {
    em.cur in ins && (em.FallsThrough() ==> Covers(em.Here(), ins[em.cur], s))
  }

  ghost predicate Extends(ins: Entry, ins': Entry)
  {
    forall b | b in ins :: b in ins' && ins'[b] == ins[b]
  }

  lemma SoundAppend(body: seq<Ir.Instr>, i: Ir.Instr, s: set<nat>, ins: Entry)
    requires Sound(body, s, ins)
    requires HasTerminator(body) || (Covers(body, s, Uses(i)) && Passes(i, body, s, ins))
    ensures Sound(body + [i], s, ins)
  {
    forall k | 0 <= k < |body + [i]| && !HasTerminator((body + [i])[..k])
      ensures Covers((body + [i])[..k], s, Uses((body + [i])[k])) && Passes((body + [i])[k], (body + [i])[..k], s, ins)
    {
      assert (body + [i])[..k] == body[..k];
      if k == |body| {
        assert body[..k] == body;
      }
    }
  }

  lemma SoundExtends(body: seq<Ir.Instr>, s: set<nat>, ins: Entry, ins': Entry)
    requires Sound(body, s, ins) && Extends(ins, ins')
    ensures Sound(body, s, ins')
  {
    hide HasTerminator, Covers;
    forall k | 0 <= k < |body| && !HasTerminator(body[..k])
      ensures Covers(body[..k], s, Uses(body[k])) && Passes(body[k], body[..k], s, ins')
    {
      assert Passes(body[k], body[..k], s, ins);
    }
  }

  lemma CertifiedAppend(em: Emit, ins: Entry, i: Ir.Instr)
    requires Certified(em, ins) && em.cur in em.blocks
    requires em.FallsThrough() ==> Covers(em.Here(), ins[em.cur], Uses(i)) && Passes(i, em.Here(), ins[em.cur], ins)
    ensures Certified(em.Append(i), ins) && Certified(em.Define(i), ins)
  {
    SoundAppend(em.Here(), i, ins[em.cur], ins);
    hide Sound, HasTerminator;
  }

  lemma CertifiedInstr(em: Emit, ins: Entry, i: Ir.Instr, s: set<nat>)
    requires Certified(em, ins) && em.cur in em.blocks && Available(em, ins, s) && Uses(i) <= s && Targets(i) == {}
    ensures Certified(em.Append(i), ins) && Certified(em.Define(i), ins)
    ensures Available(em.Append(i), ins, s + Defs(i)) && Available(em.Define(i), ins, s + Defs(i))
  {
    if em.FallsThrough() {
      assert Covers(em.Here(), ins[em.cur], Uses(i));
    }
    CertifiedAppend(em, ins, i);
    AvailableAppend(em, ins, i, s);
  }

  lemma AvailableAppend(em: Emit, ins: Entry, i: Ir.Instr, s: set<nat>)
    requires Available(em, ins, s)
    ensures Available(em.Append(i), ins, s + Defs(i)) && Available(em.Define(i), ins, s + Defs(i))
  {
    AppendTerminates(em, i);
    var body := em.Here() + [i];
    assert em.Append(i).Here() == body;
    if em.Append(i).FallsThrough() {
      forall r | r in s + Defs(i)
        ensures r in ins[em.cur] || Defined(body, r)
      {
        if r in Defs(i) {
          assert r in Defs(body[|em.Here()|]);
        } else if Defined(em.Here(), r) {
          var j :| 0 <= j < |em.Here()| && r in Defs(em.Here()[j]);
          assert r in Defs(body[j]);
        }
      }
    }
  }

  /** A branch out of the insertion block. */
  lemma CertifiedBranch(em: Emit, ins: Entry, i: Ir.Instr, s: set<nat>)
    requires Certified(em, ins) && em.cur in em.blocks && Available(em, ins, s) && Uses(i) <= s
    requires forall t | t in Targets(i) :: t in ins && ins[t] <= s
    ensures Certified(em.Append(i), ins)
  {
    if em.FallsThrough() {
      assert Covers(em.Here(), ins[em.cur], Uses(i));
    }
    CertifiedAppend(em, ins, i);
  }

  lemma CertifiedClose(em: Emit, ins: Entry, next: nat, s: set<nat>)
    requires Certified(em, ins) && em.cur in em.blocks && Available(em, ins, s) && next in ins && ins[next] <= s
    ensures Certified(CloseBody(em, next), ins)
  {
    hide Certified, Available, HasTerminator;
    if em.FallsThrough() {
      CertifiedBranch(em, ins, Br(next), s);
    }
  }

  lemma CertifiedCreate(em: Emit, ins: Entry, s: set<nat>)
    requires ValidEmit(em) && Certified(em, ins)
    ensures Certified(em.CreateBlock(), ins[em.nextBlock := s]) && Extends(ins, ins[em.nextBlock := s])
  {
    var ins' := ins[em.nextBlock := s];
    forall b | b in em.blocks
      ensures Sound(em.blocks[b], ins'[b], ins')
    {
      SoundExtends(em.blocks[b], ins[b], ins, ins');
    }
    assert Sound([], s, ins');
  }

  lemma CertifiedAt(em: Emit, ins: Entry, b: nat)
    ensures Certified(em.At(b), ins) == Certified(em, ins)
  {
  }

  lemma CertifiedErase(em: Emit, ins: Entry, b: nat)
    requires Certified(em, ins)
    ensures Certified(em.Erase(b), ins)
  {
    hide Sound;
  }

  lemma EmptyAvailable(em: Emit, ins: Entry, s: set<nat>)
    requires em.cur in ins && s <= ins[em.cur]
    ensures Available(em, ins, s)
  {
  }

  // ----------------------------------------------------------------- layout

  function ArmEntries(em: Emit, ins: Entry, s: set<nat>): Entry
  {
    ins[em.nextBlock := s][em.nextBlock + 1 := s][em.nextBlock + 2 := s]
  }

  lemma CertifiedThen(em: Emit, ins: Entry, s: set<nat>)
    requires ValidEmit(em) && Certified(em, ins)
    ensures Certified(ThenState(Plain(em)).em, ArmEntries(em, ins, s)) && Extends(ins, ArmEntries(em, ins, s))
    ensures Available(ThenState(Plain(em)).em, ArmEntries(em, ins, s), s)
  {
    hide Certified, Available, Emit.CreateBlock, ValidEmit, Extends;
    var ins1 := ins[em.nextBlock := s];
    var ins2 := ins1[em.nextBlock + 1 := s];
    var e1 := em.CreateBlock();
    CreatedValid(em);
    CertifiedCreate(em, ins, s);
    CreatedValid(e1);
    CertifiedCreate(e1, ins1, s);
    CertifiedCreate(e1.CreateBlock(), ins2, s);
    ExtendsTransitive(ins, ins1, ins2);
    ExtendsTransitive(ins, ins2, ArmEntries(em, ins, s));
    Graph.ThenCursor(em);
    EmptyAvailable(ThenState(Plain(em)).em, ArmEntries(em, ins, s), s);
    CertifiedAt(em.CreateBlock().CreateBlock().CreateBlock(), ArmEntries(em, ins, s), em.nextBlock);
  }

  lemma CreatedValid(em: Emit)
    requires ValidEmit(em)
    ensures ValidEmit(em.CreateBlock()) && em.CreateBlock().nextBlock == em.nextBlock + 1
  {
  }

  lemma ExtendsTransitive(a: Entry, b: Entry, c: Entry)
    requires Extends(a, b) && Extends(b, c)
    ensures Extends(a, c)
  {
  }

  lemma CertifiedCall(em: Emit, ins: Entry, s: set<nat>, o: set<nat>)
    requires ValidEmit(em) && Certified(em, ins)
    ensures var ins' := ins[em.nextBlock := o][em.nextBlock + 1 := s];
      Certified(CallState(Plain(em)).em, ins') && Extends(ins, ins') && Available(CallState(Plain(em)).em, ins', s)
  {
    var ins' := ins[em.nextBlock := o][em.nextBlock + 1 := s];
    CertifiedCreate(em, ins, o);
    CertifiedCreate(em.CreateBlock(), ins[em.nextBlock := o], s);
    Graph.CallCursor(em);
    EmptyAvailable(CallState(Plain(em)).em, ins', s);
    hide Certified, Available;
    CertifiedAt(em.CreateBlock().CreateBlock(), ins', em.nextBlock + 1);
  }

  /** Back in the block before the branch, nothing has changed. */
  lemma AvailableBefore(em: Emit, ins: Entry, e: Emit, ins': Entry, s: set<nat>)
    requires ValidEmit(em) && Beside(em, e) && Extends(ins, ins') && Available(em, ins, s)
    ensures Available(e.At(em.cur), ins', s)
  {
  }

  lemma CertifiedResume(em: Emit, ins: Entry, e: Emit, ins': Entry, i: Ir.Instr, s: set<nat>, next: nat)
    requires ValidEmit(em) && Beside(em, e) && Extends(ins, ins') && Available(em, ins, s) && Certified(e, ins')
    requires Uses(i) <= s && forall t | t in Targets(i) :: t in ins' && ins'[t] <= s
    ensures Certified(e.At(em.cur).Append(i), ins') && Certified(e.At(em.cur).Append(i).At(next), ins')
  {
    AvailableBefore(em, ins, e, ins', s);
    hide Certified, Available;
    CertifiedAt(e, ins', em.cur);
    CertifiedBranch(e.At(em.cur), ins', i, s);
    CertifiedAt(e.At(em.cur).Append(i), ins', next);
  }

  lemma ArmEntriesKept(em: Emit, ins: Entry, ins': Entry, s: set<nat>)
    requires Extends(ArmEntries(em, ins, s), ins')
    ensures em.nextBlock in ins' && em.nextBlock + 1 in ins' && em.nextBlock + 2 in ins'
    ensures ins'[em.nextBlock] == ins'[em.nextBlock + 1] == ins'[em.nextBlock + 2] == s
  {
  }

  lemma CertifiedJoin(c: Operand, em: Emit, ins: Entry, e2: Emit, ins': Entry, s: set<nat>, s2: set<nat>, keep: bool)
    requires ValidEmit(em) && ValidEmit(e2) && Beside(em, e2) && em.nextBlock <= e2.cur
    requires Extends(ins, ins') && Extends(ArmEntries(em, ins, s), ins')
    requires Available(em, ins, s) && Certified(e2, ins') && Available(e2, ins', s2) && s <= s2 && RegsOf(c) <= s
    requires e2.FallsThrough() ==> keep
    ensures Certified(JoinArms(c, Plain(em), keep, e2).em, ins')
  {
    hide Certified, Available, CloseBody, Beside, Extends, HasTerminator, Emit.FallsThrough, ArmEntries, Emit.Append,
         Emit.Erase;
    var mb := em.nextBlock + 2;
    var i := CondBr(c, em.nextBlock, em.nextBlock + 1);
    var e3 := CloseBody(e2, mb);
    ArmEntriesKept(em, ins, ins', s);
    CloseBeside(em, e2, mb);
    CertifiedClose(e2, ins', mb, s2);
    CondBrTargets(c, em.nextBlock);
    if keep {
      CertifiedResume(em, ins, e3, ins', i, s, mb);
    } else {
      CertifiedErase(e3, ins', mb);
      EraseBeside(em, e3, mb);
      CertifiedResume(em, ins, e3.Erase(mb), ins', i, s, mb);
    }
  }

  lemma CondBrTargets(c: Operand, tb: nat)
    ensures Uses(CondBr(c, tb, tb + 1)) == RegsOf(c)
    ensures Targets(CondBr(c, tb, tb + 1)) == {tb, tb + 1}
    ensures Uses(Br(tb)) == {} && Targets(Br(tb)) == {tb}
  {
  }

  lemma CallEntriesKept(em: Emit, ins: Entry, ins': Entry, s: set<nat>, o: set<nat>)
    requires Extends(ins[em.nextBlock := o][em.nextBlock + 1 := s], ins')
    ensures em.nextBlock in ins' && ins'[em.nextBlock] == o && em.nextBlock + 1 in ins' && ins'[em.nextBlock + 1] == s
  {
  }

  lemma CertifiedEndCall(em: Emit, ins: Entry, e1: Emit, ins': Entry, s: set<nat>, o: set<nat>)
    requires ValidEmit(em) && ValidEmit(e1) && Beside(em, e1) && em.nextBlock <= e1.cur
    requires Extends(ins, ins') && Extends(ins[em.nextBlock := o][em.nextBlock + 1 := s], ins')
    requires Available(em, ins, s) && Certified(e1, ins') && Available(e1, ins', o)
    ensures Certified(EndCall(Plain(em), e1).em, ins')
  {
    hide Certified, Available, Beside, Extends, HasTerminator, Emit.Append, Emit.Erase, Emit.FallsThrough;
    var nb := em.nextBlock;
    var i := Br(nb + 1);
    CallEntriesKept(em, ins, ins', s, o);
    CloseBeside(em, e1, nb);
    CertifiedClose(e1, ins', nb, o);
    CondBrTargets(ThisFunction, nb + 1);
    if e1.FallsThrough() {
      CertifiedResume(em, ins, CloseBody(e1, nb), ins', i, s, nb);
    } else {
      CertifiedErase(e1, ins', nb);
      EraseBeside(em, e1, nb);
      CertifiedResume(em, ins, e1.Erase(nb), ins', i, s, nb);
    }
  }

  /** Laying out scoped code keeps the graph certified. */
  lemma {:induction false} LayCertified(code: Code, em: Emit, ins: Entry, s: set<nat>) returns (ins': Entry)
    requires ValidEmit(em) && Certified(em, ins) && Available(em, ins, s) && Scoped(code, s)
    ensures Certified(Lay(code, em), ins') && Extends(ins, ins') && Available(Lay(code, em), ins', Out(code, s))
    decreases code, 1
  {
    hide Certified, Available, HasTerminator, Emit.Append, JoinArms, EndCall, ThenState, ElseState, CallState;
    match code
    case Skip => ins' := ins;
    case Instr(i) =>
      CertifiedInstr(em, ins, i, s);
      ins' := ins;
    case Seq(a, b) =>
      LayGrows(a, em);
      var ins1 := LayCertified(a, em, ins, s);
      ins' := LayCertified(b, Lay(a, em), ins1, Out(a, s));
    case Arms(c, a, b) => ins' := ArmsCertified(c, a, b, em, ins, s);
    case Call(a) =>
      var o := Out(a, s);
      CallParts(a, em);
      CallIs(a, em);
      CertifiedCall(em, ins, s, o);
      ins' := LayCertified(a, CallState(Plain(em)).em, ins[em.nextBlock := o][em.nextBlock + 1 := s], s);
      CertifiedEndCall(em, ins, AfterBody(a, em), ins', s, o);
      CallEnds(em, AfterBody(a, em));
      CallEntriesKept(em, ins, ins', s, o);
      AvailableCursor(em, ins, s);
      CallContinues(em, AfterBody(a, em), ins', o);
  }

  lemma CallContinues(em: Emit, e1: Emit, ins': Entry, o: set<nat>)
    requires ValidEmit(em) && EndCall(Plain(em), e1).em.FallsThrough() == e1.FallsThrough()
    requires em.nextBlock in ins' && ins'[em.nextBlock] == o && em.cur in ins'
    ensures Available(EndCall(Plain(em), e1).em, ins', o)
  {
    hide HasTerminator;
  }

  lemma {:induction false} ArmsCertified(c: Operand, a: Code, b: Code, em: Emit, ins: Entry, s: set<nat>)
    returns (ins': Entry)
    requires ValidEmit(em) && Certified(em, ins) && Available(em, ins, s) && Scoped(Arms(c, a, b), s)
    ensures Certified(Lay(Arms(c, a, b), em), ins') && Extends(ins, ins')
    ensures Available(Lay(Arms(c, a, b), em), ins', s)
    decreases Arms(c, a, b), 0
  {
    AvailableCursor(em, ins, s);
    ScopedArms(c, a, b, s);
    hide Out, Scoped, Lay, Certified, Available, HasTerminator, Emit.Append, JoinArms, ThenState, ElseState,
         CloseBody, Emit.FallsThrough, Beside, Grows, Bodies.Waiting, Extends, ArmEntries;
    ArmsParts(c, a, b, em);
    ArmsIs(c, a, b, em);
    CertifiedThen(em, ins, s);
    var e1, e2 := AfterThen(a, em), AfterElse(a, b, em);
    var ins1 := LayCertified(a, ThenState(Plain(em)).em, ArmEntries(em, ins, s), s);
    ArmEntriesKept(em, ins, ins1, s);
    ElseCertified(a, em, ins1, s, Out(a, s));
    ins' := LayCertified(b, BeforeElse(a, em), ins1, s);
    ExtendsTransitive(ArmEntries(em, ins, s), ins1, ins');
    ExtendsTransitive(ins, ArmEntries(em, ins, s), ins');
    ArmEntriesKept(em, ins, ins', s);
    ExtendsKeeps(ins, ins', em.cur);
    var keep := e1.FallsThrough() || e2.FallsThrough();
    CertifiedJoin(c, em, ins, e2, ins', s, Out(b, s), keep);
    JoinEnds(c, em, e2, keep);
    JoinContinues(c, em, e2, keep, ins', s);
  }

  lemma ExtendsKeeps(ins: Entry, ins': Entry, b: nat)
    requires Extends(ins, ins') && b in ins
    ensures b in ins'
  {
  }

  lemma ScopedArms(c: Operand, a: Code, b: Code, s: set<nat>)
    requires Scoped(Arms(c, a, b), s)
    ensures RegsOf(c) <= s && Scoped(a, s) && Scoped(b, s)
  {
  }

  lemma AvailableCursor(em: Emit, ins: Entry, s: set<nat>)
    requires Available(em, ins, s)
    ensures em.cur in ins
  {
  }

  lemma ElseCertified(a: Code, em: Emit, ins1: Entry, s: set<nat>, s1: set<nat>)
    requires var e1 := AfterThen(a, em);
      && ValidEmit(e1) && Certified(e1, ins1) && Available(e1, ins1, s1) && s <= s1
    requires em.nextBlock + 2 in ins1 && ins1[em.nextBlock + 2] == s && em.nextBlock + 1 in ins1
      && ins1[em.nextBlock + 1] == s
    ensures Certified(BeforeElse(a, em), ins1) && Available(BeforeElse(a, em), ins1, s)
  {
    hide Lay, CloseBody, Certified, Available;
    var e1 := AfterThen(a, em);
    Graph.ElseIs(a, em);
    CertifiedClose(e1, ins1, em.nextBlock + 2, s1);
    CertifiedAt(CloseBody(e1, em.nextBlock + 2), ins1, em.nextBlock + 1);
    EmptyAvailable(BeforeElse(a, em), ins1, s);
  }

  lemma JoinContinues(c: Operand, em: Emit, e2: Emit, keep: bool, ins': Entry, s: set<nat>)
    requires ValidEmit(em) && JoinArms(c, Plain(em), keep, e2).em.FallsThrough() == keep
    requires em.nextBlock + 2 in ins' && ins'[em.nextBlock + 2] == s && em.cur in ins'
    ensures Available(JoinArms(c, Plain(em), keep, e2).em, ins', s)
  {
    hide HasTerminator;
  }
}
