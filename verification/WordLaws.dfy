/** What the word operations that instructions and operators have in common mean: bit by bit, by division
    with remainder, by doubling and halving. */
module WordLaws {
  import opened Words

  /** Bit k of a number. */
  predicate Bit1(n: nat, k: nat)
  {
    n / Pow2(k) % 2 == 1
  }

  // -------------------------------------------------------------- powers of 2

  lemma {:induction false} PowSum(j: nat, k: nat)
    ensures Pow2(j + k) == Pow2(j) * Pow2(k)
    decreases j
  {
    if j > 0 {
      PowSum(j - 1, k);
      MulAssoc(2, Pow2(j - 1), Pow2(k));
    }
  }

  lemma MulAssoc(a: nat, b: nat, c: nat)
    ensures a * (b * c) == a * b * c
  {
  }

  lemma DivHalf(n: nat, d: nat)
    requires d > 0
    ensures n / (2 * d) == n / 2 / d
  {
    var q := n / 2;
    var p, r := q / d, q % d;
    assert q == d * p + r;
    var s := n % 2;
    assert n == 2 * q + s;
    assert n == 2 * (d * p + r) + s;
    assert 2 * (d * p) == (2 * d) * p;
    QuotientIs(n, 2 * d, p, 2 * r + s);
  }

  lemma QuotientIs(n: int, d: int, q: int, r: int)
    requires d > 0 && 0 <= r < d && n == d * q + r
    ensures n / d == q && n % d == r
  {
    DivUnique(n, d, q, r);
    assert d * (n / d - q) == 0;
  }

  // ---------------------------------------------------------------------- bits

  /** The lowest bit and the others. */
  lemma BitStep(n: nat, k: nat)
    ensures Bit1(n, 0) <==> n % 2 == 1
    ensures k > 0 ==> (Bit1(n, k) <==> Bit1(n / 2, k - 1))
  {
    assert Pow2(0) == 1;
    if k > 0 {
      DivHalf(n, Pow2(k - 1));
    }
  }

  /** Combining bit by bit: below the width, bit k of the result is the conjunction, the disjunction or the
      difference of the operands' bits; from the width on there are none. */
  lemma {:induction false} BitwiseBits(op: BitOp, width: nat, a: nat, b: nat, k: nat)
    ensures Bitwise(op, width, a, b) < Pow2(width)
    ensures k < width ==>
      (Bit1(Bitwise(op, width, a, b), k) <==>
         match op
         case BAnd => Bit1(a, k) && Bit1(b, k)
         case BOr => Bit1(a, k) || Bit1(b, k)
         case BXor => Bit1(a, k) != Bit1(b, k))
    decreases width
  {
    hide Bit1;
    if width > 0 {
      var r := Bitwise(op, width, a, b);
      BitStep(a, k);
      BitStep(b, k);
      BitStep(r, k);
      BitwiseBits(op, width - 1, a / 2, b / 2, if k > 0 then k - 1 else 0);
    }
  }

  /** `&`, `|` and `^` work on the bits of the two words. */
  lemma BitOperators(op: BinOp, t: Ty, x: int, y: int, k: nat)
    requires op in {IAnd, IOr, IXor} && k < Width(t)
    ensures var z, a, b := EvalArith(op, t, x, y), ToWord(t, x), ToWord(t, y);
      && z.Some? && 0 <= z.value < Modulus(t)
      && (Bit1(z.value, k) <==>
            if op == IAnd then Bit1(a, k) && Bit1(b, k)
            else if op == IOr then Bit1(a, k) || Bit1(b, k)
            else Bit1(a, k) != Bit1(b, k))
  {
    hide Bit1, Bitwise;
    var a, b := ToWord(t, x), ToWord(t, y);
    BitwiseBits(BAnd, Width(t), a, b, k);
    BitwiseBits(BOr, Width(t), a, b, k);
    BitwiseBits(BXor, Width(t), a, b, k);
    WidthModulus(t);
  }

  lemma WidthModulus(t: Ty)
    ensures Pow2(Width(t)) == Modulus(t)
  {
    if t == I1 {
      assert Pow2(1) == 2 * Pow2(0);
    } else {
      PowSum(8, 8);
      PowSum(16, 16);
      Pow2Eight();
    }
  }

  lemma Pow2Eight()
    ensures Pow2(8) == 256
  {
    assert Pow2(2) == 4;
    assert Pow2(4) == 16;
    assert Pow2(6) == 64;
  }

  // ------------------------------------------------------------------- division

  lemma Signs(x: int, y: int, q: int)
    ensures (if (x < 0) == (y < 0) then q else -q) * y == if x < 0 then -(q * Abs(y)) else q * Abs(y)
  {
  }

  lemma Quotient(x: int, y: int)
    requires y != 0
    ensures TruncDiv(x, y) == var q := Abs(x) / Abs(y); if (x < 0) == (y < 0) then q else -q
    ensures TruncRem(x, y) == x - TruncDiv(x, y) * y
  {
  }

  lemma DivMod(a: int, b: int) returns (q: int, p: int, r: int)
    requires a >= 0 && b > 0
    ensures q == a / b && p == q * b && a == p + r && 0 <= r < b
  {
    q, r := a / b, a % b;
    p := q * b;
  }

  /** The multiple of the divisor below the dividend, and the distance to it. */
  lemma Multiple(x: int, y: int) returns (p: int, r: int)
    requires y != 0
    ensures Abs(x) == p + r && 0 <= r < Abs(y) && TruncDiv(x, y) * y == if x < 0 then -p else p
  {
    hide TruncDiv, TruncRem;
    var q;
    q, p, r := DivMod(Abs(x), Abs(y));
    Quotient(x, y);
    Signs(x, y, q);
  }

  lemma Truncation(x: int, y: int)
    requires y != 0
    ensures x == TruncDiv(x, y) * y + TruncRem(x, y)
    ensures Abs(TruncRem(x, y)) < Abs(y)
    ensures TruncRem(x, y) == 0 || (TruncRem(x, y) > 0) == (x > 0)
  {
    var p, r := Multiple(x, y);
    var d := TruncDiv(x, y) * y;
    assert TruncRem(x, y) == x - d;
    hide TruncDiv, TruncRem;
  }

  function Abs(z: int): int
  {
    if z < 0 then -z else z
  }

  /** `/` and `%` divide with remainder: the remainder is smaller than the divisor and is zero or has the
      sign of the dividend. They are undefined for zero and where the quotient does not fit. */
  lemma Division(t: Ty, x: int, y: int)
    ensures var q, m := EvalArith(Div, t, x, y), EvalArith(Rem, t, x, y);
      if y == 0 || (x == -(Modulus(t) / 2) && y == -1) then q == m == None
      else
        && q.Some? && m.Some? && x == q.value * y + m.value
        && Abs(m.value) < Abs(y) && (m.value == 0 || (m.value > 0) == (x > 0))
  {
    if y != 0 {
      Truncation(x, y);
    }
    hide TruncDiv, TruncRem;
  }

  // --------------------------------------------------------------------- shifts

  /** A shift to the left by nothing changes nothing, and by one more doubles. */
  lemma ShiftLeft(t: Ty, x: int, y: int)
    ensures EvalArith(Shl, t, x, 0) == Some(x)
    ensures 0 <= y && y + 1 < Width(t) ==>
      var z := EvalArith(Shl, t, x, y);
      z.Some? && EvalArith(Shl, t, x, y + 1) == Some(2 * z.value)
    ensures y < 0 || y >= Width(t) ==> EvalArith(Shl, t, x, y) == None
  {
    if 0 <= y && y + 1 < Width(t) {
      assert Pow2(y + 1) == 2 * Pow2(y);
      assert x * (2 * Pow2(y)) == 2 * (x * Pow2(y));
    }
  }

  /** A shift to the right by nothing gives the word itself, and by one more halves. */
  lemma ShiftRight(t: Ty, x: int, y: int)
    ensures EvalArith(Shr, t, x, 0) == Some(ToWord(t, x))
    ensures 0 <= y && y + 1 < Width(t) ==>
      var z := EvalArith(Shr, t, x, y);
      z.Some? && EvalArith(Shr, t, x, y + 1) == Some(z.value / 2)
    ensures y < 0 || y >= Width(t) ==> EvalArith(Shr, t, x, y) == None
  {
    if 0 <= y && y + 1 < Width(t) {
      HalfDiv(ToWord(t, x), Pow2(y));
      assert Pow2(y + 1) == 2 * Pow2(y);
    }
  }

  lemma HalfDiv(n: nat, d: nat)
    requires d > 0
    ensures n / (2 * d) == n / d / 2
  {
    var q, r := n / d, n % d;
    var h, s := q / 2, q % 2;
    assert n == d * q + r && q == 2 * h + s;
    assert d * (2 * h + s) == 2 * d * h + d * s;
    QuotientIs(n, 2 * d, h, d * s + r);
  }

  // ---------------------------------------------------------------------- words

  /** The word of a number is the one word that is congruent to it, and reads back as it; a truth value is
      the word 1 or 0. */
  lemma WordReads(i: Int32, n: int)
    ensures 0 <= ToWord(I32, i) < 0x1_0000_0000 && Signed(I32, ToWord(I32, i)) == i
    ensures 0 <= n < 0x1_0000_0000 && (n == i || n == i + 0x1_0000_0000) ==> n == ToWord(I32, i)
  {
  }
}
