/** Machine words of the two LLVM integer types the translator emits (i1 and i32),
    the signed numbers a source program computes with, and the encoding between them. */
module Words {

  datatype Option<+T> = None | Some(value: T)

  datatype Ty = I1 | I32

  function Modulus(t: Ty): int
  {
    if t == I1 then 2 else 0x1_0000_0000
  }

  function Width(t: Ty): nat
  {
    if t == I1 then 1 else 32
  }

  type Int32 = i: int | -0x8000_0000 <= i < 0x8000_0000

  /** What a source expression evaluates to: a signed 32-bit integer or a truth value. */
  datatype Val = IntV(i: Int32) | BoolV(b: bool)

  function TypeOf(v: Val): Ty
  {
    if v.IntV? then I32 else I1
  }

  /** The number an operator sees: `true` is the one-bit two's complement number -1. */
  function Num(v: Val): int
  {
    match v
    case IntV(i) => i
    case BoolV(b) => if b then -1 else 0
  }

  /** The two's complement reading of a word. */
  function Signed(t: Ty, n: int): int
  {
    if n < Modulus(t) / 2 then n else n - Modulus(t)
  }

  function ToWord(t: Ty, z: int): (n: nat)
    ensures n < Modulus(t)
  {
    if t == I1 then z % 2 else z % 0x1_0000_0000
  }

  /** The value of type t whose number is z, reduced to the width of t. */
  function Back(t: Ty, z: int): Val
  {
    if t == I1 then BoolV(z % 2 == 1) else IntV(Signed(I32, ToWord(I32, z)))
  }

  function Pow2(k: nat): (p: nat)
    ensures p > 0
  {
    if k == 0 then 1 else 2 * Pow2(k - 1)
  }

  function TruncDiv(x: int, y: int): int
    requires y != 0
  {
    var q := (if x < 0 then -x else x) / (if y < 0 then -y else y);
    if (x < 0) == (y < 0) then q else -q
  }

  function TruncRem(x: int, y: int): int
    requires y != 0
  {
    x - TruncDiv(x, y) * y
  }

  datatype BitOp = BAnd | BOr | BXor

  function Bit(op: BitOp, p: bool, q: bool): bool
  {
    match op
    case BAnd => p && q
    case BOr => p || q
    case BXor => p != q
  }

  /** Bitwise combination of the lowest `width` bits. */
  function Bitwise(op: BitOp, width: nat, a: nat, b: nat): nat
  {
    if width == 0 then 0
    else (if Bit(op, a % 2 == 1, b % 2 == 1) then 1 else 0) + 2 * Bitwise(op, width - 1, a / 2, b / 2)
  }

  // ---------------------------------------------------------------- LLVM side

  datatype Opcode = OAdd | OSub | OMul | OSDiv | OSRem | OShl | OLShr | OAnd | OOr | OXor

  datatype Pred = PEq | PNe | PSgt | PSlt | PSge | PSle

  /** One LLVM arithmetic instruction on words; None is undefined behaviour. */
  function ExecOp(op: Opcode, t: Ty, a: nat, b: nat): Option<nat>
  {
    var m := Modulus(t);
    match op
    case OAdd => Some((a + b) % m)
    case OSub => Some((a - b) % m)
    case OMul => Some((a * b) % m)
    case OSDiv =>
      var x, y := Signed(t, a), Signed(t, b);
      if y == 0 || (x == -(m / 2) && y == -1) then None else Some(TruncDiv(x, y) % m)
    case OSRem =>
      var x, y := Signed(t, a), Signed(t, b);
      if y == 0 || (x == -(m / 2) && y == -1) then None else Some(TruncRem(x, y) % m)
    case OShl => if b >= Width(t) then None else Some((a * Pow2(b)) % m)
    case OLShr => if b >= Width(t) then None else Some((a / Pow2(b)) % m)
    case OAnd => Some(Bitwise(BAnd, Width(t), a, b) % m)
    case OOr => Some(Bitwise(BOr, Width(t), a, b) % m)
    case OXor => Some(Bitwise(BXor, Width(t), a, b) % m)
  }

  function ExecCmp(p: Pred, t: Ty, a: nat, b: nat): bool
  {
    match p
    case PEq => a == b
    case PNe => a != b
    case PSgt => Signed(t, a) > Signed(t, b)
    case PSlt => Signed(t, a) < Signed(t, b)
    case PSge => Signed(t, a) >= Signed(t, b)
    case PSle => Signed(t, a) <= Signed(t, b)
  }

  // -------------------------------------------------------------- source side

  datatype BinOp = Add | Sub | Mul | Div | Rem | Shl | Shr | IAnd | IOr | IXor
                 | LAnd | LOr | Eq | Ne | Gt | Lt | Ge | Le

  predicate IsArith(op: BinOp)
  {
    op in {Add, Sub, Mul, Div, Rem, Shl, Shr, IAnd, IOr, IXor}
  }

  predicate IsLogic(op: BinOp)
  {
    op == LAnd || op == LOr
  }

  /** Signed arithmetic of the language; None where the operation has no defined result. */
  function EvalArith(op: BinOp, t: Ty, x: int, y: int): Option<int>
    requires IsArith(op)
  {
    match op
    case Add => Some(x + y)
    case Sub => Some(x - y)
    case Mul => Some(x * y)
    case Div => if y == 0 || (x == -(Modulus(t) / 2) && y == -1) then None else Some(TruncDiv(x, y))
    case Rem => if y == 0 || (x == -(Modulus(t) / 2) && y == -1) then None else Some(TruncRem(x, y))
    case Shl => if 0 <= y < Width(t) then Some(x * Pow2(y)) else None
    case Shr => if 0 <= y < Width(t) then Some(ToWord(t, x) / Pow2(y)) else None
    case IAnd => Some(Bitwise(BAnd, Width(t), ToWord(t, x), ToWord(t, y)))
    case IOr => Some(Bitwise(BOr, Width(t), ToWord(t, x), ToWord(t, y)))
    case IXor => Some(Bitwise(BXor, Width(t), ToWord(t, x), ToWord(t, y)))
  }

  function EvalCmp(op: BinOp, x: int, y: int): bool
    requires !IsArith(op) && !IsLogic(op)
  {
    match op
    case Eq => x == y
    case Ne => x != y
    case Gt => x > y
    case Lt => x < y
    case Ge => x >= y
    case Le => x <= y
  }

  /** The opcode chosen for an arithmetic operator. */
  function OpcodeOf(op: BinOp): Opcode
    requires IsArith(op)
  {
    match op
    case Add => OAdd
    case Sub => OSub
    case Mul => OMul
    case Div => OSDiv
    case Rem => OSRem
    case Shl => OShl
    case Shr => OLShr
    case IAnd => OAnd
    case IOr => OOr
    case IXor => OXor
  }

  /** The signed predicate chosen for a comparison. */
  function PredOf(op: BinOp): Pred
    requires !IsArith(op) && !IsLogic(op)
  {
    match op
    case Eq => PEq
    case Ne => PNe
    case Gt => PSgt
    case Lt => PSlt
    case Ge => PSge
    case Le => PSle
  }

  // ------------------------------------------------------------------- lemmas

  lemma SignedToWord(t: Ty, x: int)
    requires -(Modulus(t) / 2) <= x < Modulus(t) / 2
    ensures Signed(t, ToWord(t, x)) == x
  {
  }

  lemma NumRange(v: Val)
    ensures var m := Modulus(TypeOf(v)); -(m / 2) <= Num(v) < m / 2
  {
  }

  lemma EncInjective(t: Ty, x: int, y: int)
    requires -(Modulus(t) / 2) <= x < Modulus(t) / 2
    requires -(Modulus(t) / 2) <= y < Modulus(t) / 2
    ensures ToWord(t, x) == ToWord(t, y) <==> x == y
  {
    SignedToWord(t, x);
    SignedToWord(t, y);
  }

  lemma BackWord(t: Ty, z: int)
    ensures TypeOf(Back(t, z)) == t
    ensures ToWord(t, Num(Back(t, z))) == ToWord(t, z)
  {
  }

  lemma ModShift(x: int, k: int, m: int)
    requires m > 0
    ensures (x + k * m) % m == x % m
    decreases if k < 0 then -k else k
  {
    if k > 0 {
      ModShift(x, k - 1, m);
      assert x + k * m == (x + (k - 1) * m) + m;
      ModStep(x + (k - 1) * m, m);
    } else if k < 0 {
      ModShift(x, k + 1, m);
      assert x + (k + 1) * m == (x + k * m) + m;
      ModStep(x + k * m, m);
    }
  }

  lemma ModStep(x: int, m: int)
    requires m > 0
    ensures (x + m) % m == x % m
  {
    var q, r := x / m, x % m;
    assert x + m == m * (q + 1) + r;
    DivUnique(x + m, m, q + 1, r);
  }

  lemma DivUnique(x: int, m: int, q: int, r: int)
    requires m > 0 && 0 <= r < m && x == m * q + r
    ensures x % m == r
  {
    var q', r' := x / m, x % m;
    assert m * (q - q') == r' - r;
    MulBound(m, q - q');
  }

  lemma MulBound(m: int, k: int)
    requires m > 0
    ensures k >= 1 ==> m * k >= m
    ensures k <= -1 ==> m * k <= -m
  {
  }

  lemma ModAdd(x: int, y: int, m: int)
    requires m > 0
    ensures ((x % m) + (y % m)) % m == (x + y) % m
  {
    var q := x / m + y / m;
    assert x + y == ((x % m) + (y % m)) + q * m;
    ModShift((x % m) + (y % m), q, m);
  }

  lemma ModSub(x: int, y: int, m: int)
    requires m > 0
    ensures ((x % m) - (y % m)) % m == (x - y) % m
  {
    var q := x / m - y / m;
    assert x - y == ((x % m) - (y % m)) + q * m;
    ModShift((x % m) - (y % m), q, m);
  }

  lemma ModMulLeft(x: int, y: int, m: int)
    requires m > 0
    ensures ((x % m) * y) % m == (x * y) % m
  {
    var q := x / m;
    assert x == m * q + x % m;
    assert x * y == (x % m) * y + (q * y) * m;
    ModShift((x % m) * y, q * y, m);
  }

  lemma ModMul(x: int, y: int, m: int)
    requires m > 0
    ensures ((x % m) * (y % m)) % m == (x * y) % m
  {
    ModMulLeft(x, y % m, m);
    ModMulLeft(y, x, m);
    assert x * (y % m) == (y % m) * x;
    assert y * x == x * y;
  }

  lemma WordAdd(t: Ty, x: int, y: int)
    ensures ToWord(t, ToWord(t, x) + ToWord(t, y)) == ToWord(t, x + y)
    ensures ToWord(t, ToWord(t, x) - ToWord(t, y)) == ToWord(t, x - y)
  {
    ModAdd(x, y, Modulus(t));
    ModSub(x, y, Modulus(t));
  }

  lemma WordMul(t: Ty, x: int, y: int)
    ensures ToWord(t, ToWord(t, x) * ToWord(t, y)) == ToWord(t, x * y)
  {
    ModMul(x, y, Modulus(t));
  }

  lemma WordScaled(t: Ty, x: int, k: int)
    ensures ToWord(t, ToWord(t, x) * k) == ToWord(t, x * k)
  {
    ModMulLeft(x, k, Modulus(t));
  }

  /** Every arithmetic instruction computes, on the words of two numbers, the word of the
      number the operator means, and is undefined exactly where the operator is. */
  lemma ArithRefines(op: BinOp, t: Ty, x: int, y: int)
    requires IsArith(op)
    requires -(Modulus(t) / 2) <= x < Modulus(t) / 2
    requires -(Modulus(t) / 2) <= y < Modulus(t) / 2
    ensures match EvalArith(op, t, x, y)
            case None => ExecOp(OpcodeOf(op), t, ToWord(t, x), ToWord(t, y)) == None
            case Some(z) => ExecOp(OpcodeOf(op), t, ToWord(t, x), ToWord(t, y)) == Some(ToWord(t, z))
  {
    SignedToWord(t, x);
    SignedToWord(t, y);
    hide TruncDiv, TruncRem, Bitwise, Pow2, Signed, ToWord;
    match op
    case Add => WordAdd(t, x, y);
    case Sub => WordAdd(t, x, y);
    case Mul => WordMul(t, x, y);
    case Div =>
    case Rem =>
    case Shl =>
      if 0 <= y < Width(t) {
        WordScaled(t, x, Pow2(y));
      }
    case Shr =>
    case IAnd =>
    case IOr =>
    case IXor =>
  }

  lemma CmpRefines(op: BinOp, t: Ty, x: int, y: int)
    requires !IsArith(op) && !IsLogic(op)
    requires -(Modulus(t) / 2) <= x < Modulus(t) / 2
    requires -(Modulus(t) / 2) <= y < Modulus(t) / 2
    ensures ExecCmp(PredOf(op), t, ToWord(t, x), ToWord(t, y)) == EvalCmp(op, x, y)
  {
    SignedToWord(t, x);
    SignedToWord(t, y);
    EncInjective(t, x, y);
  }
}
