/** Powers of two, shifts and bitwise operations: the machine words of one decoder, the integers of the other. */
module Bits {
  function Pow2(k: nat): (p: nat)
    ensures p > 0
  {
    if k == 0 then 1 else 2 * Pow2(k - 1)
  }

  lemma MulMono(a: int, b: int, d: int)
    requires a <= b && d >= 0
    ensures a * d <= b * d
  {
  }

  lemma OneMore(a: int, d: int)
    ensures (a + 1) * d == a * d + d
  {
  }

  lemma Distributes(a: int, b: int, d: int)
    ensures (a + b) * d == a * d + b * d
  {
  }

  lemma LessFactor(a: int, b: int, d: int)
    requires d > 0 && a * d < b * d
    ensures a < b
  {
    if b <= a {
      MulMono(b, a, d);
    }
  }

  /** An arithmetic shift: the quotient rounded down, negative numbers included. */
  function ShiftRight(v: int, k: nat): (q: int)
    ensures q * Pow2(k) <= v < q * Pow2(k) + Pow2(k)
    ensures v >= 0 ==> 0 <= q <= v
    ensures v < 0 ==> q < 0
  {
    var d := Pow2(k);
    QuotientFits(v, d);
    v / d
  }

  lemma QuotientFits(v: int, d: int)
    requires d > 0
    ensures (v / d) * d <= v < (v / d) * d + d
    ensures v >= 0 ==> 0 <= v / d <= v
    ensures v < 0 ==> v / d < 0
  {
    var q := v / d;
    assert v == d * q + v % d && d * q == q * d;
    if v < 0 {
      LessFactor(q, 0, d);
    } else {
      LessFactor(-1, q, d);
      MulMono(1, d, q);
    }
  }

  lemma ShiftIs(v: int, k: nat, q: int)
    requires q * Pow2(k) <= v < q * Pow2(k) + Pow2(k)
    ensures ShiftRight(v, k) == q
  {
    var p, d := ShiftRight(v, k), Pow2(k);
    hide Pow2, ShiftRight;
    assert p * d < (q + 1) * d && q * d < (p + 1) * d;
    LessFactor(p, q + 1, d);
    LessFactor(q, p + 1, d);
  }

  function And(a: nat, b: nat): nat {
    if a == 0 then 0 else 2 * And(a / 2, b / 2) + (a % 2) * (b % 2)
  }

  function Or(a: nat, b: nat): nat {
    if a == 0 then b else 2 * Or(a / 2, b / 2) + if a % 2 == 1 || b % 2 == 1 then 1 else 0
  }

  lemma {:induction false} Pow2Adds(j: nat, k: nat)
    ensures Pow2(j + k) == Pow2(j) * Pow2(k)
  {
    if j > 0 {
      Pow2Adds(j - 1, k);
      assert Pow2(j + k) == 2 * Pow2(j - 1 + k) && Pow2(j) == 2 * Pow2(j - 1);
      hide Pow2;
      Doubled(Pow2(k), Pow2(j - 1), Pow2(j));
    }
  }

  lemma Pow2Grows(j: nat, k: nat)
    requires j <= k
    ensures Pow2(j) <= Pow2(k)
    ensures Pow2(k) == Pow2(k - j) * Pow2(j)
  {
    Pow2Adds(k - j, j);
    hide Pow2;
    MulMono(1, Pow2(k - j), Pow2(j));
  }

  lemma {:induction false} AndIsSmaller(a: nat, b: nat)
    ensures And(a, b) <= a
  {
    if a > 0 {
      AndIsSmaller(a / 2, b / 2);
      assert (a % 2) * (b % 2) <= a % 2;
    }
  }

  lemma Halves(x: nat, k: nat, a: nat)
    requires k > 0
    ensures Pow2(k) == 2 * Pow2(k - 1)
    ensures (x * Pow2(k) + a) / 2 == x * Pow2(k - 1) + a / 2 && (x * Pow2(k) + a) % 2 == a % 2
  {
    assert x * Pow2(k) == 2 * (x * Pow2(k - 1));
  }

  lemma HalfShift(m: nat, k: nat)
    requires k > 0
    ensures ShiftRight(m / 2, k - 1) == ShiftRight(m, k)
  {
    var q := ShiftRight(m / 2, k - 1);
    assert Pow2(k) == 2 * Pow2(k - 1);
    hide ShiftRight, Pow2;
    assert q * Pow2(k) == 2 * (q * Pow2(k - 1));
    ShiftIs(m, k, q);
  }

  lemma NoShift(v: int)
    ensures ShiftRight(v, 0) == v
  {
    ShiftIs(v, 0, v);
  }

  lemma AndUnfolds(a: nat, b: nat)
    ensures And(a, b) == 2 * And(a / 2, b / 2) + (a % 2) * (b % 2)
  {
  }

  lemma AndOfNone(m: nat)
    ensures And(0, m) == 0
  {
  }

  lemma Doubled(x: nat, half: nat, whole: nat)
    requires whole == 2 * half
    ensures 2 * (x * half) == x * whole
  {
  }

  function Bit(n: nat, i: nat): nat {
    ShiftRight(n, i) % 2
  }

  lemma BitHalves(n: nat, i: nat)
    ensures Bit(n, 0) == n % 2
    ensures i > 0 ==> Bit(n, i) == Bit(n / 2, i - 1)
  {
    NoShift(n);
    if i > 0 {
      HalfShift(n, i);
    }
    hide ShiftRight;
  }

  /** A conjunction has the bits that both have, a disjunction those that either has. */
  lemma {:induction false} AndAndOrAreBitwise(a: nat, b: nat, i: nat)
    ensures Bit(And(a, b), i) == Bit(a, i) * Bit(b, i)
    ensures Bit(Or(a, b), i) == if Bit(a, i) == 1 || Bit(b, i) == 1 then 1 else 0
  {
    AndUnfolds(a, b);
    OrUnfolds(a, b);
    assert And(a, b) / 2 == And(a / 2, b / 2) && Or(a, b) / 2 == Or(a / 2, b / 2);
    hide Bit, And, Or;
    BitHalves(a, i);
    BitHalves(b, i);
    BitHalves(And(a, b), i);
    BitHalves(Or(a, b), i);
    if i > 0 {
      AndAndOrAreBitwise(a / 2, b / 2, i - 1);
    }
  }

  lemma OrUnfolds(a: nat, b: nat)
    ensures Or(a, b) == 2 * Or(a / 2, b / 2) + if a % 2 == 1 || b % 2 == 1 then 1 else 0
  {
    if a == 0 {
      assert Or(0, b / 2) == b / 2;
    }
  }

  /** A conjunction works on the high and the low bits apart. */
  lemma {:induction false} AndSplits(x: nat, a: nat, m: nat, k: nat)
    requires a < Pow2(k)
    ensures And(x * Pow2(k) + a, m) == And(x, ShiftRight(m, k)) * Pow2(k) + And(a, m)
  {
    if k == 0 {
      assert Pow2(0) == 1;
      hide And, Pow2, ShiftRight;
      NoShift(m);
      AndOfNone(m);
    } else {
      Halves(x, k, a);
      HalfShift(m, k);
      hide And, Pow2, ShiftRight;
      AndSplits(x, a / 2, m / 2, k - 1);
      AndUnfolds(x * Pow2(k) + a, m);
      AndUnfolds(a, m);
      Doubled(And(x, ShiftRight(m, k)), Pow2(k - 1), Pow2(k));
    }
  }

  /** All ones keep the other operand. */
  lemma {:induction false} OnesKeep(n: nat, m: nat)
    requires m < Pow2(n)
    ensures And(Pow2(n) - 1, m) == m
  {
    if n > 0 {
      assert (Pow2(n) - 1) / 2 == Pow2(n - 1) - 1 && (Pow2(n) - 1) % 2 == 1;
      OnesKeep(n - 1, m / 2);
    }
  }

  /** A disjunction of disjoint bits is a sum. */
  lemma {:induction false} OrOfDisjoint(x: nat, a: nat, k: nat)
    requires a < Pow2(k)
    ensures Or(x * Pow2(k), a) == x * Pow2(k) + a
  {
    if k > 0 && x * Pow2(k) != 0 {
      Halves(x, k, 0);
      OrOfDisjoint(x, a / 2, k - 1);
    } else if k == 0 {
      OrZero(x);
    }
  }

  lemma {:induction false} OrZero(x: nat)
    ensures Or(x, 0) == x
  {
    if x > 0 {
      OrZero(x / 2);
    }
  }

  lemma {:induction false} OrCommutes(a: nat, b: nat)
    ensures Or(a, b) == Or(b, a)
  {
    if a == 0 {
      OrZero(b);
    } else if b == 0 {
      OrZero(a);
    } else {
      OrCommutes(a / 2, b / 2);
    }
  }

  // Bits above a width.

  lemma TimesRegroups(a: int, b: int, c: int)
    ensures (a * b) * c == a * (b * c)
  {
  }

  /** Adding bits above a width changes a shifted value below it exactly when some of them survive the shift. */
  lemma HighBitsSurviveIff(a: nat, h: nat, bits: nat, shift: nat)
    requires a < Pow2(bits)
    ensures ShiftRight(a + h * Pow2(bits), shift) == ShiftRight(a, shift) <==> ShiftRight(h * Pow2(bits), shift) == 0
  {
    hide Pow2, ShiftRight;
    if shift <= bits {
      Pow2Grows(shift, bits);
      TimesRegroups(h, Pow2(bits - shift), Pow2(shift));
      WholeTurnsShift(a, h * Pow2(bits - shift), shift);
    } else {
      Pow2Grows(bits, shift);
      BelowOneTurn(a, h, bits, shift);
    }
  }

  lemma WholeTurnsShift(a: nat, turns: nat, shift: nat)
    ensures ShiftRight(a + turns * Pow2(shift), shift) == ShiftRight(a, shift) + turns
    ensures ShiftRight(turns * Pow2(shift), shift) == turns
  {
    hide Pow2, ShiftRight;
    var q, d := ShiftRight(a, shift), Pow2(shift);
    Distributes(q, turns, d);
    ShiftIs(a + turns * d, shift, q + turns);
    ShiftIs(turns * d, shift, turns);
  }

  lemma BelowOneTurn(a: nat, h: nat, bits: nat, shift: nat)
    requires a < Pow2(bits) && bits <= shift
    ensures ShiftRight(a, shift) == 0
    ensures ShiftRight(a + h * Pow2(bits), shift) == 0 <==> ShiftRight(h * Pow2(bits), shift) == 0
  {
    hide Pow2, ShiftRight;
    Pow2Grows(bits, shift);
    ShiftIs(a, shift, 0);
    if h < Pow2(shift - bits) {
      FewUnits(a, h, Pow2(bits), shift, Pow2(shift - bits));
      FewUnits(0, h, Pow2(bits), shift, Pow2(shift - bits));
    } else {
      MulMono(Pow2(shift - bits), h, Pow2(bits));
      NotBelowOneTurn(a + h * Pow2(bits), shift);
      NotBelowOneTurn(h * Pow2(bits), shift);
    }
  }

  lemma FewUnits(a: nat, h: nat, unit: nat, shift: nat, turns: nat)
    requires a < unit && h < turns && turns * unit == Pow2(shift)
    ensures ShiftRight(a + h * unit, shift) == 0
  {
    hide Pow2, ShiftRight;
    MulMono(h + 1, turns, unit);
    assert (h + 1) * unit == h * unit + unit;
    ShiftIs(a + h * unit, shift, 0);
  }

  lemma NotBelowOneTurn(n: nat, shift: nat)
    requires n >= Pow2(shift)
    ensures ShiftRight(n, shift) != 0
  {
    hide Pow2;
  }
}
