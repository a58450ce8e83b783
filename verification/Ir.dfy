/** The part of LLVM IR the translator emits for one function, and a small-step machine for it. */
module Ir {
  import opened Words

  datatype Operand =
    | Reg(r: nat)
    | Const(ty: Ty, n: nat)
    | Param(k: nat)        // the k-th parameter of the function
    | ThisFunction         // the function's own address

  datatype CellTy = Scalar(ty: Ty) | Pointer(ty: Ty) | FunctionPointer

  /** Why a stack cell was allocated (LLVM keeps this as the name of the instruction). */
  datatype Tag = Variable(name: string, mut: bool) | Argument(name: string) | Self | Temporary

  datatype Instr =
    | Alloca(dst: nat, cty: CellTy, tag: Tag)
    | Load(dst: nat, ptr: Operand)
    | Store(v: Operand, ptr: Operand)
    | Arith(dst: nat, op: Opcode, x: Operand, y: Operand)
    | Cmp(dst: nat, pred: Pred, x: Operand, y: Operand)
    | Br(target: nat)
    | CondBr(c: Operand, thn: nat, els: nat)
    | RetVal(ty: Ty, v: Operand)
    | RetVoid

  type Blocks = map<nat, seq<Instr>>

  function BodyOf(bs: Blocks, b: nat): seq<Instr>
  {
    if b in bs then bs[b] else []
  }

  predicate IsTerminator(i: Instr)
  {
    i.Br? || i.CondBr? || i.RetVal? || i.RetVoid?
  }

  predicate HasTerminator(body: seq<Instr>)
  {
    exists k :: 0 <= k < |body| && IsTerminator(body[k])
  }

  /** The registers an instruction reads. */
  function Uses(i: Instr): set<nat>
  {
    match i
    case Alloca(_, _, _) => {}
    case Load(_, p) => RegsOf(p)
    case Store(v, p) => RegsOf(v) + RegsOf(p)
    case Arith(_, _, x, y) => RegsOf(x) + RegsOf(y)
    case Cmp(_, _, x, y) => RegsOf(x) + RegsOf(y)
    case Br(_) => {}
    case CondBr(c, _, _) => RegsOf(c)
    case RetVal(_, v) => RegsOf(v)
    case RetVoid => {}
  }

  function RegsOf(o: Operand): set<nat>
  {
    if o.Reg? then {o.r} else {}
  }

  /** The registers an instruction defines. */
  function Defs(i: Instr): set<nat>
  {
    match i
    case Alloca(d, _, _) => {d}
    case Load(d, _) => {d}
    case Arith(d, _, _, _) => {d}
    case Cmp(d, _, _, _) => {d}
    case _ => {}
  }

  function Targets(i: Instr): set<nat>
  {
    match i
    case Br(b) => {b}
    case CondBr(_, t, e) => {t, e}
    case _ => {}
  }

  // ------------------------------------------------------------------ machine

  datatype MVal = Word(ty: Ty, n: nat) | Ptr(addr: nat) | Function | Undef

  datatype Frame = Frame(block: nat, idx: nat, regs: map<nat, MVal>, mem: seq<MVal>, args: seq<MVal>)

  datatype Config =
    | Running(f: Frame)
    | Returned(v: MVal, fin: Frame)
    | ReturnedVoid(fin: Frame)
    | Stuck

  function Read(f: Frame, o: Operand): MVal
  {
    match o
    case Reg(r) => if r in f.regs then f.regs[r] else Undef
    case Const(t, n) => Word(t, n)
    case Param(k) => if k < |f.args| then f.args[k] else Undef
    case ThisFunction => Function
  }

  function Define(f: Frame, d: nat, v: MVal): Config
  {
    Running(f.(idx := f.idx + 1, regs := f.regs[d := v]))
  }

  function Exec(i: Instr, f: Frame): Config
  {
    match i
    case Alloca(d, _, _) =>
      Running(f.(idx := f.idx + 1, regs := f.regs[d := Ptr(|f.mem|)], mem := f.mem + [Undef]))
    case Load(d, p) =>
      var a := Read(f, p);
      if a.Ptr? && a.addr < |f.mem| then Define(f, d, f.mem[a.addr]) else Stuck
    case Store(v, p) =>
      var a, w := Read(f, p), Read(f, v);
      if a.Ptr? && a.addr < |f.mem| && w != Undef
      then Running(f.(idx := f.idx + 1, mem := f.mem[a.addr := w])) else Stuck
    case Arith(d, op, x, y) =>
      var a, b := Read(f, x), Read(f, y);
      if a.Word? && b.Word? && a.ty == b.ty then
        match ExecOp(op, a.ty, a.n, b.n)
        case None => Stuck
        case Some(n) => Define(f, d, Word(a.ty, n))
      else Stuck
    case Cmp(d, p, x, y) =>
      var a, b := Read(f, x), Read(f, y);
      if a.Word? && b.Word? && a.ty == b.ty
      then Define(f, d, Word(I1, if ExecCmp(p, a.ty, a.n, b.n) then 1 else 0)) else Stuck
    case Br(b) => Running(f.(block := b, idx := 0))
    case CondBr(c, t, e) =>
      var w := Read(f, c);
      if w.Word? && w.ty == I1 then Running(f.(block := if w.n == 1 then t else e, idx := 0)) else Stuck
    case RetVal(t, v) =>
      var w := Read(f, v);
      if w.Word? && w.ty == t then Returned(w, f) else Stuck
    case RetVoid => ReturnedVoid(f)
  }

  /** One step; running past the end of a block, or in a block that does not exist, is stuck. */
  function Step(bs: Blocks, c: Config): Config
  {
    if !c.Running? then c
    else if c.f.idx < |BodyOf(bs, c.f.block)| then Exec(BodyOf(bs, c.f.block)[c.f.idx], c.f)
    else Stuck
  }

  function Steps(bs: Blocks, c: Config, n: nat): Config
    decreases n
  {
    if n == 0 then c else Steps(bs, Step(bs, c), n - 1)
  }

  /** Running from c reaches d. */
  ghost predicate Leads(bs: Blocks, c: Config, d: Config)
  {
    match c
    case Running(_) => exists n: nat :: Steps(bs, c, n) == d
    case _ => c == d
  }

  lemma StepsAdd(bs: Blocks, c: Config, m: nat, n: nat)
    ensures Steps(bs, c, m + n) == Steps(bs, Steps(bs, c, m), n)
    decreases m
  {
    if m > 0 {
      StepsAdd(bs, Step(bs, c), m - 1, n);
    }
  }

  lemma StepsStopped(bs: Blocks, c: Config, n: nat)
    requires !c.Running?
    ensures Steps(bs, c, n) == c
    decreases n
  {
    if n > 0 {
      StepsStopped(bs, Step(bs, c), n - 1);
    }
  }

  lemma LeadsSelf(bs: Blocks, c: Config)
    ensures Leads(bs, c, c)
  {
    assert Steps(bs, c, 0) == c;
  }

  lemma LeadsStep(bs: Blocks, f: Frame)
    ensures Leads(bs, Running(f), Step(bs, Running(f)))
  {
    hide Step;
    var d := Step(bs, Running(f));
    assert Steps(bs, d, 0) == d;
    assert Steps(bs, Running(f), 1) == d;
  }

  lemma LeadsTransitive(bs: Blocks, c: Config, d: Config, e: Config)
    requires Leads(bs, c, d) && Leads(bs, d, e)
    ensures Leads(bs, c, e)
  {
    hide Step;
    if c.Running? && d.Running? {
      var m: nat :| Steps(bs, c, m) == d;
      var n: nat :| Steps(bs, d, n) == e;
      StepsAdd(bs, c, m, n);
      assert Steps(bs, c, m + n) == e;
    }
  }
}
