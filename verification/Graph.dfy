/** What laying out code does to the blocks of a function: where terminators are, which blocks
    have one, and which blocks branches go to. */
module Graph {
  import opened Ast
  import opened Ir
  import opened Emitter
  import opened Translation
  import opened Growth
  import opened Bodies
  import opened Structure
  import opened Layout
  import opened Cfg

  // -------------------------------------------------------------- placement

  ghost predicate AllPlaced(em: Emit)
  {
    forall b | b in em.blocks :: Placed(em.blocks[b])
  }

  lemma PlacedAppend(em: Emit, i: Ir.Instr)
    requires em.cur in em.blocks
    ensures AllPlaced(em.Append(i)) <==> AllPlaced(em) && em.FallsThrough()
    ensures AllPlaced(em.Define(i)) <==> AllPlaced(em) && em.FallsThrough()
  {
    var body, body' := em.Here(), em.Append(i).Here();
    assert body' == body + [i] && body' == em.Append(i).blocks[em.cur];
    assert Placed(body') <==> Placed(body) && !HasTerminator(body) by {
      if Placed(body') {
        forall k | 0 <= k < |body|
          ensures !IsTerminator(body[k])
        {
          assert body'[k] == body[k];
        }
      }
    }
    if AllPlaced(em) && em.FallsThrough() {
      forall b | b in em.Append(i).blocks
        ensures Placed(em.Append(i).blocks[b])
      {
      }
    }
    if AllPlaced(em.Append(i)) {
      assert Placed(body');
      forall b | b in em.blocks
        ensures Placed(em.blocks[b])
      {
        assert Placed(em.Append(i).blocks[b]);
      }
    }
  }

  /** Blocks without instructions come and go freely. */
  lemma PlacedEmpty(em: Emit, b: nat)
    requires b in em.blocks && em.blocks[b] == []
    ensures AllPlaced(em.Erase(b)) == AllPlaced(em)
  {
    assert Placed([]);
    if AllPlaced(em.Erase(b)) {
      forall x | x in em.blocks
        ensures Placed(em.blocks[x])
      {
        if x != b {
          assert Placed(em.Erase(b).blocks[x]);
        }
      }
    }
  }

  lemma PlacedCreate(em: Emit)
    requires ValidEmit(em)
    ensures AllPlaced(em.CreateBlock()) == AllPlaced(em)
  {
    var e := em.CreateBlock();
    assert e.blocks[em.nextBlock] == [];
    if AllPlaced(e) {
      forall b | b in em.blocks
        ensures Placed(em.blocks[b])
      {
        assert Placed(e.blocks[b]);
      }
    }
  }

  lemma PlacedOpen(em: Emit)
    requires ValidEmit(em)
    ensures AllPlaced(ThenState(Plain(em)).em) == AllPlaced(em)
    ensures AllPlaced(CallState(Plain(em)).em) == AllPlaced(em)
  {
    hide Placed;
    PlacedCreate(em);
    PlacedCreate(em.CreateBlock());
    PlacedCreate(em.CreateBlock().CreateBlock());
    hide AllPlaced, Emit.CreateBlock;
    PlacedAt(em.CreateBlock().CreateBlock().CreateBlock(), em.nextBlock);
    PlacedAt(em.CreateBlock().CreateBlock(), em.nextBlock + 1);
  }

  lemma PlacedAt(em: Emit, b: nat)
    ensures AllPlaced(em.At(b)) == AllPlaced(em)
  {
  }

  lemma PlacedClose(em: Emit, next: nat)
    requires ValidEmit(em)
    ensures AllPlaced(CloseBody(em, next)) == AllPlaced(em)
  {
    PlacedAppend(em, Br(next));
  }

  lemma PlacedResume(em: Emit, e: Emit, i: Ir.Instr, next: nat)
    requires ValidEmit(em) && Beside(em, e)
    ensures AllPlaced(e.At(em.cur).Append(i)) <==> AllPlaced(e) && em.FallsThrough()
    ensures AllPlaced(e.At(em.cur).Append(i).At(next)) <==> AllPlaced(e) && em.FallsThrough()
  {
    hide AllPlaced, Emit.Append;
    PlacedAt(e, em.cur);
    PlacedAppend(e.At(em.cur), i);
    PlacedAt(e.At(em.cur).Append(i), next);
  }

  lemma PlacedJoin(c: Operand, em: Emit, e2: Emit, keep: bool)
    requires ValidEmit(em) && ValidEmit(e2) && Beside(em, e2) && em.nextBlock <= e2.cur && Waiting(e2, em.nextBlock + 2)
    ensures AllPlaced(JoinArms(c, Plain(em), keep, e2).em) <==> AllPlaced(e2) && em.FallsThrough()
  {
    var mb := em.nextBlock + 2;
    var i := CondBr(c, em.nextBlock, em.nextBlock + 1);
    var e3 := CloseBody(e2, mb);
    WaitingClosed(e2, mb, mb);
    CloseBeside(em, e2, mb);
    PlacedClose(e2, mb);
    hide AllPlaced, CloseBody, Emit.Append, Beside;
    if keep {
      PlacedResume(em, e3, i, mb);
    } else {
      PlacedEmpty(e3, mb);
      EraseBeside(em, e3, mb);
      PlacedResume(em, e3.Erase(mb), i, mb);
    }
  }

  lemma PlacedEndCall(em: Emit, e1: Emit)
    requires ValidEmit(em) && ValidEmit(e1) && Beside(em, e1) && em.nextBlock <= e1.cur && Waiting(e1, em.nextBlock)
    ensures AllPlaced(EndCall(Plain(em), e1).em) <==> AllPlaced(e1) && em.FallsThrough()
  {
    var nb := em.nextBlock;
    var i := Br(nb + 1);
    PlacedClose(e1, nb);
    CloseBeside(em, e1, nb);
    EraseBeside(em, e1, nb);
    PlacedEmpty(e1, nb);
    hide AllPlaced, Emit.Append, Beside;
    if e1.FallsThrough() {
      PlacedResume(em, CloseBody(e1, nb), i, nb);
    } else {
      PlacedResume(em, e1.Erase(nb), i, nb);
    }
  }

  /** Nothing is laid out after a terminator exactly if the code is clean. */
  lemma {:induction false} LayPlaced(code: Code, em: Emit)
    requires ValidEmit(em)
    ensures AllPlaced(Lay(code, em)) <==> AllPlaced(em) && CodeClean(code, !em.FallsThrough())
    decreases code
  {
    hide AllPlaced, HasTerminator, Emit.Append, JoinArms, EndCall, ThenState, ElseState, CallState;
    match code
    case Skip =>
    case Instr(i) => PlacedAppend(em, i);
    case Seq(a, b) =>
      LayGrows(a, em);
      LayEnds(a, em);
      LayPlaced(a, em);
      LayPlaced(b, Lay(a, em));
    case Arms(c, a, b) =>
      ArmsParts(c, a, b, em);
      ArmsIs(c, a, b, em);
      EmptyFalls();
      PlacedOpen(em);
      LayPlaced(a, ThenState(Plain(em)).em);
      PlacedElse(a, em);
      LayPlaced(b, BeforeElse(a, em));
      PlacedJoin(c, em, AfterElse(a, b, em), AfterThen(a, em).FallsThrough() || AfterElse(a, b, em).FallsThrough());
    case Call(a) =>
      CallParts(a, em);
      CallIs(a, em);
      EmptyFalls();
      PlacedOpen(em);
      LayPlaced(a, CallState(Plain(em)).em);
      PlacedEndCall(em, AfterBody(a, em));
  }

  lemma PlacedElse(a: Code, em: Emit)
    requires ValidEmit(AfterThen(a, em))
    ensures AllPlaced(BeforeElse(a, em)) == AllPlaced(AfterThen(a, em))
  {
    hide AllPlaced, Lay, CloseBody;
    PlacedClose(AfterThen(a, em), em.nextBlock + 2);
    PlacedAt(CloseBody(AfterThen(a, em), em.nextBlock + 2), em.nextBlock + 1);
  }

  // ------------------------------------------------------------ termination

  /** Every block outside `open` has a terminator. */
  ghost predicate EndedBut(em: Emit, open: set<nat>)
  {
    forall b | b in em.blocks && b !in open :: HasTerminator(em.blocks[b])
  }

  lemma EndedAppend(em: Emit, i: Ir.Instr, open: set<nat>)
    requires EndedBut(em, open + {em.cur})
    ensures EndedBut(em.Append(i), open + {em.cur}) && EndedBut(em.Define(i), open + {em.cur})
    ensures IsTerminator(i) ==> EndedBut(em.Append(i), open)
  {
    AppendTerminates(em, i);
    assert BodyOf(em.Append(i).blocks, em.cur) == em.Append(i).blocks[em.cur];
  }

  lemma EndedClose(em: Emit, next: nat, open: set<nat>)
    requires EndedBut(em, open + {em.cur})
    ensures EndedBut(CloseBody(em, next), open)
  {
    hide HasTerminator;
    if em.FallsThrough() {
      hide EndedBut;
      EndedAppend(em, Br(next), open);
    }
  }

  lemma EndedOpen(em: Emit, open: set<nat>)
    requires EndedBut(em, open + {em.cur})
    ensures EndedBut(ThenState(Plain(em)).em, open + {em.cur, em.nextBlock + 1, em.nextBlock + 2} + {em.nextBlock})
    ensures EndedBut(CallState(Plain(em)).em, open + {em.cur, em.nextBlock} + {em.nextBlock + 1})
  {
    hide HasTerminator;
  }

  lemma EndedElse(a: Code, em: Emit, open: set<nat>)
    requires var e1 := AfterThen(a, em);
      EndedBut(e1, open + {em.cur, em.nextBlock + 1, em.nextBlock + 2} + {e1.cur})
    ensures EndedBut(BeforeElse(a, em), open + {em.cur, em.nextBlock + 2} + {em.nextBlock + 1})
  {
    hide HasTerminator, CloseBody, Lay;
    EndedClose(AfterThen(a, em), em.nextBlock + 2, open + {em.cur, em.nextBlock + 1, em.nextBlock + 2});
  }

  lemma EndedResume(em: Emit, e: Emit, i: Ir.Instr, next: nat, open: set<nat>)
    requires EndedBut(e, open + {em.cur}) && IsTerminator(i)
    ensures EndedBut(e.At(em.cur).Append(i), open) && EndedBut(e.At(em.cur).Append(i).At(next), open)
  {
    hide HasTerminator;
    EndedAppend(e.At(em.cur), i, open);
  }

  lemma EndedJoin(c: Operand, em: Emit, e2: Emit, keep: bool, open: set<nat>)
    requires EndedBut(e2, open + {em.cur, em.nextBlock + 2} + {e2.cur})
    ensures var e := JoinArms(c, Plain(em), keep, e2).em; EndedBut(e, open + {e.cur})
  {
    var mb := em.nextBlock + 2;
    var i := CondBr(c, em.nextBlock, em.nextBlock + 1);
    var e3 := CloseBody(e2, mb);
    EndedClose(e2, mb, open + {em.cur, mb});
    hide CloseBody, HasTerminator;
    EndedShift(e3, open + {em.cur, mb}, open + {mb} + {em.cur});
    if keep {
      EndedResume(em, e3, i, mb, open + {mb});
    } else {
      EndedErase(e3, mb, open + {em.cur});
      EndedResume(em, e3.Erase(mb), i, mb, open);
    }
  }

  lemma EndedShift(em: Emit, open: set<nat>, open': set<nat>)
    requires EndedBut(em, open) && open <= open'
    ensures EndedBut(em, open')
  {
  }

  lemma EndedErase(em: Emit, b: nat, open: set<nat>)
    requires EndedBut(em, open + {b})
    ensures EndedBut(em.Erase(b), open)
  {
    hide HasTerminator;
  }

  lemma EndedCall(em: Emit, e1: Emit, open: set<nat>)
    requires EndedBut(e1, open + {em.cur, em.nextBlock} + {e1.cur})
    ensures var e := EndCall(Plain(em), e1).em; EndedBut(e, open + {e.cur})
  {
    var nb := em.nextBlock;
    var i := Br(nb + 1);
    EndedClose(e1, nb, open + {em.cur, nb});
    hide HasTerminator;
    EndedShift(CloseBody(e1, nb), open + {em.cur, nb}, open + {nb} + {em.cur});
    if e1.FallsThrough() {
      EndedResume(em, e1.Append(Br(nb)), i, nb, open + {nb});
    } else {
      EndedErase(e1, nb, open + {em.cur});
      EndedResume(em, e1.Erase(nb), i, nb, open);
    }
  }

  /** Only the insertion block may lack a terminator. */
  lemma {:induction false} LayEnded(code: Code, em: Emit, open: set<nat>)
    requires ValidEmit(em) && EndedBut(em, open + {em.cur})
    ensures EndedBut(Lay(code, em), open + {Lay(code, em).cur})
    decreases code
  {
    hide EndedBut, HasTerminator, JoinArms, EndCall, ThenState, ElseState, CallState;
    match code
    case Skip =>
    case Instr(i) => EndedAppend(em, i, open);
    case Seq(a, b) =>
      LayGrows(a, em);
      LayEnded(a, em, open);
      LayEnded(b, Lay(a, em), open);
    case Arms(c, a, b) => ArmsEnded(c, a, b, em, open);
    case Call(a) =>
      CallParts(a, em);
      CallIs(a, em);
      EndedOpen(em, open);
      CallCursor(em);
      LayEnded(a, CallState(Plain(em)).em, open + {em.cur, em.nextBlock});
      EndedCall(em, AfterBody(a, em), open);
  }

  lemma {:induction false} ArmsEnded(c: Operand, a: Code, b: Code, em: Emit, open: set<nat>)
    requires ValidEmit(em) && EndedBut(em, open + {em.cur})
    ensures EndedBut(Lay(Arms(c, a, b), em), open + {Lay(Arms(c, a, b), em).cur})
    decreases Arms(c, a, b), 0
  {
    hide Lay, EndedBut, HasTerminator, Emit.Append, JoinArms, ThenState, ElseState;
    ArmsParts(c, a, b, em);
    ArmsIs(c, a, b, em);
    EndedOpen(em, open);
    ThenCursor(em);
    LayEnded(a, ThenState(Plain(em)).em, open + {em.cur, em.nextBlock + 1, em.nextBlock + 2});
    EndedElse(a, em, open);
    LayEnded(b, BeforeElse(a, em), open + {em.cur, em.nextBlock + 2});
    EndedJoin(c, em, AfterElse(a, b, em), AfterThen(a, em).FallsThrough() || AfterElse(a, b, em).FallsThrough(), open);
  }

  lemma ThenCursor(em: Emit)
    ensures ThenState(Plain(em)).em.cur == em.nextBlock && ThenState(Plain(em)).em.nextBlock == em.nextBlock + 3
  {
  }

  lemma CallCursor(em: Emit)
    ensures CallState(Plain(em)).em.cur == em.nextBlock + 1 && CallState(Plain(em)).em.nextBlock == em.nextBlock + 2
  {
  }

  // ---------------------------------------------------------------- targets

  ghost predicate AllTargets(em: Emit)
  {
    forall b, k | b in em.blocks && 0 <= k < |em.blocks[b]| :: TargetsIn(em.blocks[b][k], em.blocks)
  }

  /** No branch goes to b. */
  ghost predicate NoneTo(em: Emit, b: nat)
  {
    forall x, k | x in em.blocks && 0 <= k < |em.blocks[x]| :: b !in Targets(em.blocks[x][k])
  }

  /** The instructions of the code are not branches. */
  predicate Branchless(code: Code)
  {
    match code
    case Skip => true
    case Instr(i) => Targets(i) == {}
    case Seq(a, b) => Branchless(a) && Branchless(b)
    case Arms(_, a, b) => Branchless(a) && Branchless(b)
    case Call(a) => Branchless(a)
  }

  lemma TargetsAppend(em: Emit, i: Ir.Instr)
    requires em.cur in em.blocks && AllTargets(em) && TargetsIn(i, em.blocks)
    ensures AllTargets(em.Append(i)) && AllTargets(em.Define(i))
  {
    var bs := em.Append(i).blocks;
    forall b, k | b in bs && 0 <= k < |bs[b]|
      ensures TargetsIn(bs[b][k], bs)
    {
      assert k < |em.blocks[b]| ==> bs[b][k] == em.blocks[b][k];
    }
  }

  lemma NoneAppend(em: Emit, i: Ir.Instr, b: nat)
    requires em.cur in em.blocks && NoneTo(em, b) && b !in Targets(i)
    ensures NoneTo(em.Append(i), b) && NoneTo(em.Define(i), b)
  {
    var bs := em.Append(i).blocks;
    forall x, k | x in bs && 0 <= k < |bs[x]|
      ensures b !in Targets(bs[x][k])
    {
      assert k < |em.blocks[x]| ==> bs[x][k] == em.blocks[x][k];
    }
  }

  lemma TargetsCreate(em: Emit)
    requires ValidEmit(em) && AllTargets(em)
    ensures AllTargets(em.CreateBlock()) && NoneTo(em.CreateBlock(), em.nextBlock)
  {
    forall x, k | x in em.blocks && 0 <= k < |em.blocks[x]|
      ensures em.nextBlock !in Targets(em.blocks[x][k])
    {
      assert TargetsIn(em.blocks[x][k], em.blocks);
    }
  }

  lemma NoneCreate(em: Emit, b: nat)
    requires NoneTo(em, b)
    ensures NoneTo(em.CreateBlock(), b)
  {
  }

  lemma TargetsAt(em: Emit, b: nat, x: nat)
    ensures AllTargets(em.At(x)) == AllTargets(em) && NoneTo(em.At(x), b) == NoneTo(em, b)
  {
  }

  lemma TargetsErase(em: Emit, b: nat)
    requires AllTargets(em) && NoneTo(em, b)
    ensures AllTargets(em.Erase(b))
  {
    var bs := em.Erase(b).blocks;
    forall x, k | x in bs && 0 <= k < |bs[x]|
      ensures TargetsIn(bs[x][k], bs)
    {
      assert TargetsIn(em.blocks[x][k], em.blocks);
    }
  }

  lemma NoneErase(em: Emit, x: nat, b: nat)
    requires NoneTo(em, b)
    ensures NoneTo(em.Erase(x), b)
  {
  }

  lemma TargetsClose(em: Emit, next: nat)
    requires ValidEmit(em) && AllTargets(em) && next in em.blocks && next != 0
    ensures AllTargets(CloseBody(em, next))
  {
    hide AllTargets;
    TargetsAppend(em, Br(next));
  }

  lemma NoneClose(em: Emit, next: nat, b: nat)
    requires ValidEmit(em) && NoneTo(em, b) && (b != next || !em.FallsThrough())
    ensures NoneTo(CloseBody(em, next), b)
  {
    hide NoneTo, HasTerminator;
    if em.FallsThrough() {
      NoneAppend(em, Br(next), b);
    }
  }

  lemma TargetsOpen(em: Emit)
    requires ValidEmit(em) && AllTargets(em)
    ensures AllTargets(ThenState(Plain(em)).em) && AllTargets(CallState(Plain(em)).em)
    ensures NoneTo(ThenState(Plain(em)).em, em.nextBlock + 2) && NoneTo(CallState(Plain(em)).em, em.nextBlock)
  {
    TargetsCreate(em);
    TargetsCreate(em.CreateBlock());
    TargetsCreate(em.CreateBlock().CreateBlock());
    NoneCreate(em.CreateBlock(), em.nextBlock);
    hide AllTargets, NoneTo, Emit.CreateBlock;
    TargetsAt(em.CreateBlock().CreateBlock().CreateBlock(), em.nextBlock + 2, em.nextBlock);
    TargetsAt(em.CreateBlock().CreateBlock(), em.nextBlock, em.nextBlock + 1);
    CreatedNext(em);
  }

  lemma CreatedNext(em: Emit)
    ensures em.CreateBlock().nextBlock == em.nextBlock + 1
      && em.CreateBlock().CreateBlock().nextBlock == em.nextBlock + 2
  {
  }

  lemma NoneOpen(em: Emit, b: nat)
    requires NoneTo(em, b)
    ensures NoneTo(ThenState(Plain(em)).em, b) && NoneTo(CallState(Plain(em)).em, b)
  {
    hide NoneTo, Emit.CreateBlock;
    NoneCreate(em, b);
    NoneCreate(em.CreateBlock(), b);
    NoneCreate(em.CreateBlock().CreateBlock(), b);
    TargetsAt(em.CreateBlock().CreateBlock().CreateBlock(), b, em.nextBlock);
    TargetsAt(em.CreateBlock().CreateBlock(), b, em.nextBlock + 1);
  }

  lemma TargetsResume(em: Emit, e: Emit, i: Ir.Instr, next: nat)
    requires ValidEmit(em) && Beside(em, e) && AllTargets(e) && TargetsIn(i, e.blocks)
    ensures AllTargets(e.At(em.cur).Append(i)) && AllTargets(e.At(em.cur).Append(i).At(next))
  {
    hide AllTargets;
    TargetsAt(e, 0, em.cur);
    TargetsAppend(e.At(em.cur), i);
    TargetsAt(e.At(em.cur).Append(i), 0, next);
  }

  lemma NoneResume(em: Emit, e: Emit, i: Ir.Instr, next: nat, b: nat)
    requires ValidEmit(em) && Beside(em, e) && NoneTo(e, b) && b !in Targets(i)
    ensures NoneTo(e.At(em.cur).Append(i), b) && NoneTo(e.At(em.cur).Append(i).At(next), b)
  {
    hide NoneTo;
    TargetsAt(e, b, em.cur);
    NoneAppend(e.At(em.cur), i, b);
    TargetsAt(e.At(em.cur).Append(i), b, next);
  }

  /** Both arms are laid out: every branch still has its target, even if the merge block goes. */
  lemma TargetsJoin(c: Operand, em: Emit, e2: Emit, keep: bool)
    requires ValidEmit(em) && ValidEmit(e2) && Beside(em, e2) && em.nextBlock <= e2.cur && AllTargets(e2)
    requires {em.nextBlock, em.nextBlock + 1, em.nextBlock + 2} <= e2.blocks.Keys
    requires keep || (!e2.FallsThrough() && NoneTo(e2, em.nextBlock + 2))
    ensures AllTargets(JoinArms(c, Plain(em), keep, e2).em)
  {
    var mb := em.nextBlock + 2;
    var i := CondBr(c, em.nextBlock, em.nextBlock + 1);
    var e3 := CloseBody(e2, mb);
    CloseBeside(em, e2, mb);
    TargetsClose(e2, mb);
    hide AllTargets, NoneTo, CloseBody, Emit.Append, Beside;
    if keep {
      TargetsResume(em, e3, i, mb);
    } else {
      NoneClose(e2, mb, mb);
      TargetsErase(e3, mb);
      EraseBeside(em, e3, mb);
      TargetsResume(em, e3.Erase(mb), i, mb);
    }
  }

  lemma NoneJoin(c: Operand, em: Emit, e2: Emit, keep: bool, b: nat)
    requires ValidEmit(em) && ValidEmit(e2) && Beside(em, e2) && em.nextBlock <= e2.cur && NoneTo(e2, b)
      && b < em.nextBlock
    ensures NoneTo(JoinArms(c, Plain(em), keep, e2).em, b)
  {
    var mb := em.nextBlock + 2;
    var i := CondBr(c, em.nextBlock, em.nextBlock + 1);
    var e3 := CloseBody(e2, mb);
    CloseBeside(em, e2, mb);
    NoneClose(e2, mb, b);
    hide NoneTo, CloseBody, Emit.Append, Beside;
    if keep {
      NoneResume(em, e3, i, mb, b);
    } else {
      NoneErase(e3, mb, b);
      EraseBeside(em, e3, mb);
      NoneResume(em, e3.Erase(mb), i, mb, b);
    }
  }

  lemma TargetsEndCall(em: Emit, e1: Emit)
    requires ValidEmit(em) && ValidEmit(e1) && Beside(em, e1) && em.nextBlock <= e1.cur && AllTargets(e1)
    requires {em.nextBlock, em.nextBlock + 1} <= e1.blocks.Keys && NoneTo(e1, em.nextBlock)
    ensures AllTargets(EndCall(Plain(em), e1).em)
  {
    var nb := em.nextBlock;
    var i := Br(nb + 1);
    CloseBeside(em, e1, nb);
    TargetsClose(e1, nb);
    TargetsErase(e1, nb);
    EraseBeside(em, e1, nb);
    hide AllTargets, NoneTo, Emit.Append, Beside;
    if e1.FallsThrough() {
      TargetsResume(em, CloseBody(e1, nb), i, nb);
    } else {
      TargetsResume(em, e1.Erase(nb), i, nb);
    }
  }

  lemma NoneEndCall(em: Emit, e1: Emit, b: nat)
    requires ValidEmit(em) && ValidEmit(e1) && Beside(em, e1) && em.nextBlock <= e1.cur && NoneTo(e1, b)
      && b < em.nextBlock
    ensures NoneTo(EndCall(Plain(em), e1).em, b)
  {
    var nb := em.nextBlock;
    var i := Br(nb + 1);
    CloseBeside(em, e1, nb);
    NoneClose(e1, nb, b);
    NoneErase(e1, nb, b);
    EraseBeside(em, e1, nb);
    hide NoneTo, Emit.Append, Beside;
    if e1.FallsThrough() {
      NoneResume(em, CloseBody(e1, nb), i, nb, b);
    } else {
      NoneResume(em, e1.Erase(nb), i, nb, b);
    }
  }

  /** Layout adds no branch to an existing block. */
  lemma {:induction false} LayNone(code: Code, em: Emit, b: nat)
    requires ValidEmit(em) && Branchless(code) && NoneTo(em, b) && b < em.nextBlock
    ensures NoneTo(Lay(code, em), b)
    decreases code
  {
    hide NoneTo, HasTerminator, Emit.Append, JoinArms, EndCall, ThenState, ElseState, CallState, CloseBody;
    match code
    case Skip =>
    case Instr(i) => NoneAppend(em, i, b);
    case Seq(x, y) =>
      LayGrows(x, em);
      LayNone(x, em, b);
      LayNone(y, Lay(x, em), b);
    case Arms(c, x, y) =>
      ArmsParts(c, x, y, em);
      ArmsIs(c, x, y, em);
      NoneOpen(em, b);
      ThenCursor(em);
      LayNone(x, ThenState(Plain(em)).em, b);
      NoneClose(AfterThen(x, em), em.nextBlock + 2, b);
      ElseIs(x, em);
      TargetsAt(CloseBody(AfterThen(x, em), em.nextBlock + 2), b, em.nextBlock + 1);
      LayNone(y, BeforeElse(x, em), b);
      NoneJoin(c, em, AfterElse(x, y, em), AfterThen(x, em).FallsThrough() || AfterElse(x, y, em).FallsThrough(), b);
    case Call(x) =>
      CallParts(x, em);
      CallIs(x, em);
      NoneOpen(em, b);
      CallCursor(em);
      LayNone(x, CallState(Plain(em)).em, b);
      NoneEndCall(em, AfterBody(x, em), b);
  }

  lemma ElseIs(a: Code, em: Emit)
    ensures BeforeElse(a, em) == CloseBody(AfterThen(a, em), em.nextBlock + 2).At(em.nextBlock + 1)
  {
    hide Lay, CloseBody;
  }

  /** Every branch goes to a block that exists, also where an unreached block is erased. */
  lemma {:induction false} LayTargets(code: Code, em: Emit)
    requires ValidEmit(em) && Branchless(code) && AllTargets(em)
    ensures AllTargets(Lay(code, em))
    decreases code, 1
  {
    hide AllTargets, NoneTo, HasTerminator, Emit.Append, JoinArms, EndCall, ThenState, ElseState, CallState;
    match code
    case Skip =>
    case Instr(i) => TargetsAppend(em, i);
    case Seq(a, b) =>
      LayGrows(a, em);
      LayTargets(a, em);
      LayTargets(b, Lay(a, em));
    case Arms(c, a, b) => ArmsTargets(c, a, b, em);
    case Call(a) =>
      CallParts(a, em);
      CallIs(a, em);
      TargetsOpen(em);
      CallCursor(em);
      LayTargets(a, CallState(Plain(em)).em);
      LayNone(a, CallState(Plain(em)).em, em.nextBlock);
      CallBlocks(em, AfterBody(a, em));
      TargetsEndCall(em, AfterBody(a, em));
  }

  lemma CallBlocks(em: Emit, e1: Emit)
    requires Grows(CallState(Plain(em)).em, e1)
    ensures {em.nextBlock, em.nextBlock + 1} <= e1.blocks.Keys
  {
  }

  lemma {:induction false} ArmsTargets(c: Operand, a: Code, b: Code, em: Emit)
    requires ValidEmit(em) && Branchless(Arms(c, a, b)) && AllTargets(em)
    ensures AllTargets(Lay(Arms(c, a, b), em))
    decreases Arms(c, a, b), 0
  {
    var mb := em.nextBlock + 2;
    hide Lay, AllTargets, NoneTo, HasTerminator, Emit.Append, JoinArms, ThenState, ElseState, CloseBody,
         Emit.FallsThrough, Grows, Waiting;
    ArmsParts(c, a, b, em);
    ArmsIs(c, a, b, em);
    TargetsOpen(em);
    ThenCursor(em);
    var e1, e2 := AfterThen(a, em), AfterElse(a, b, em);
    LayTargets(a, ThenState(Plain(em)).em);
    LayNone(a, ThenState(Plain(em)).em, mb);
    ArmsBlocks(a, b, em);
    TargetsClose(e1, mb);
    ElseIs(a, em);
    TargetsAt(CloseBody(e1, mb), mb, mb - 1);
    LayTargets(b, BeforeElse(a, em));
    if !e1.FallsThrough() && !e2.FallsThrough() {
      NoneClose(e1, mb, mb);
      LayNone(b, BeforeElse(a, em), mb);
    }
    TargetsJoin(c, em, e2, e1.FallsThrough() || e2.FallsThrough());
  }

  lemma ArmsBlocks(a: Code, b: Code, em: Emit)
    requires ValidEmit(em) && Grows(ThenState(Plain(em)).em, AfterThen(a, em)) && ValidEmit(AfterThen(a, em))
    requires Grows(BeforeElse(a, em), AfterElse(a, b, em))
    ensures em.nextBlock + 2 in AfterThen(a, em).blocks && em.nextBlock + 3 <= BeforeElse(a, em).nextBlock
    ensures {em.nextBlock, em.nextBlock + 1, em.nextBlock + 2} <= AfterElse(a, b, em).blocks.Keys
  {
    hide Lay;
    ThenCursor(em);
    ElseBeside(Plain(em), AfterThen(a, em));
  }
}
