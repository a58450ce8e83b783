/** The instruction builder: blocks under construction and the insertion point.
    Instructions always go to the end of the insertion block. */
module Emitter {
  import opened Ir

  datatype Emit = Emit(blocks: Blocks, cur: nat, nextBlock: nat, nextReg: nat) {

    function Here(): seq<Instr>
    {
      BodyOf(blocks, cur)
    }

    function Append(i: Instr): Emit
    {
      this.(blocks := blocks[cur := Here() + [i]])
    }

    /** Append an instruction that defines the next register. */
    function Define(i: Instr): Emit
    {
      Append(i).(nextReg := nextReg + 1)
    }

    function CreateBlock(): Emit
    {
      this.(blocks := blocks[nextBlock := []], nextBlock := nextBlock + 1)
    }

    function Erase(b: nat): Emit
    {
      this.(blocks := blocks - {b})
    }

    function At(b: nat): Emit
    {
      this.(cur := b)
    }

    /** The test that decides whether control leaves a statement list at its end. */
    predicate FallsThrough()
    {
      !HasTerminator(Here())
    }
  }

  class Builder {
    var blocks: Blocks
    var cur: nat
    var nextBlock: nat
    var nextReg: nat

    constructor ()
      ensures State() == Emit(map[0 := []], 0, 1, 0)
    {
      blocks, cur, nextBlock, nextReg := map[0 := []], 0, 1, 0;
    }

    function State(): Emit
      reads this
    {
      Emit(blocks, cur, nextBlock, nextReg)
    }

    method Insert(i: Instr)
      modifies this
      ensures State() == old(State()).Append(i)
    {
      blocks := blocks[cur := BodyOf(blocks, cur) + [i]];
    }

    method CreateAlloca(cty: CellTy, tag: Tag) returns (r: nat)
      modifies this
      ensures r == old(nextReg)
      ensures State() == old(State()).Define(Alloca(r, cty, tag))
    {
      r := nextReg;
      Insert(Alloca(r, cty, tag));
      nextReg := nextReg + 1;
    }

    method CreateLoad(p: Operand) returns (r: nat)
      modifies this
      ensures r == old(nextReg)
      ensures State() == old(State()).Define(Load(r, p))
    {
      r := nextReg;
      Insert(Load(r, p));
      nextReg := nextReg + 1;
    }

    method CreateArith(op: Words.Opcode, x: Operand, y: Operand) returns (r: nat)
      modifies this
      ensures r == old(nextReg)
      ensures State() == old(State()).Define(Arith(r, op, x, y))
    {
      r := nextReg;
      Insert(Arith(r, op, x, y));
      nextReg := nextReg + 1;
    }

    method CreateCmp(p: Words.Pred, x: Operand, y: Operand) returns (r: nat)
      modifies this
      ensures r == old(nextReg)
      ensures State() == old(State()).Define(Cmp(r, p, x, y))
    {
      r := nextReg;
      Insert(Cmp(r, p, x, y));
      nextReg := nextReg + 1;
    }

    method CreateBlock() returns (b: nat)
      modifies this
      ensures b == old(nextBlock)
      ensures State() == old(State()).CreateBlock()
    {
      b := nextBlock;
      blocks := blocks[b := []];
      nextBlock := nextBlock + 1;
    }

    method EraseFromParent(b: nat)
      modifies this
      ensures State() == old(State()).Erase(b)
    {
      blocks := blocks - {b};
    }

    method SetInsertPoint(b: nat)
      modifies this
      ensures State() == old(State()).At(b)
    {
      cur := b;
    }

    /** Continue in another function, or at an earlier point of one. */
    method SwitchTo(em: Emit)
      modifies this
      ensures State() == em
    {
      blocks, cur, nextBlock, nextReg := em.blocks, em.cur, em.nextBlock, em.nextReg;
    }

    /** The scan over the insertion block for a return or a branch. */
    method NoTerminatorYet() returns (none: bool)
      ensures none == State().FallsThrough()
    {
      var body := BodyOf(blocks, cur);
      none := true;
      for k := 0 to |body|
        invariant none == !HasTerminator(body[..k])
      {
        assert body[..k + 1] == body[..k] + [body[k]];
        if IsTerminator(body[k]) {
          assert IsTerminator(body[..k + 1][k]);
          none := false;
        } else {
          TerminatorAppend(body[..k], body[k]);
        }
      }
      assert body[..|body|] == body;
    }
  }

  lemma TerminatorAppend(body: seq<Instr>, i: Instr)
    ensures HasTerminator(body + [i]) <==> HasTerminator(body) || IsTerminator(i)
  {
    if HasTerminator(body) {
      var k :| 0 <= k < |body| && IsTerminator(body[k]);
      assert IsTerminator((body + [i])[k]);
    }
    assert (body + [i])[|body|] == i;
  }
}
