/** Binary numerals: the bits of a number, the number of some bits, and C's bitwise operators on them. */
module Binary {

  type byte = x: nat | x < 256

  /** Bits of one byte. */
  function Width(): (w: nat)
    ensures w == 8
  {
    8
  }

  function Pow2(n: nat): (r: nat)
    ensures r > 0
  {
    if n == 0 then 1 else 2 * Pow2(n - 1)
  }

  lemma {:induction false} ByteRange()
    ensures Pow2(Width()) == 256
  {
    assert Pow2(8) == 256;
  }

  /** The n low bits of v, least significant first. */
  function Bits(v: nat, n: nat): (r: seq<bool>)
    ensures |r| == n
  {
    if n == 0 then [] else [v % 2 == 1] + Bits(v / 2, n - 1)
  }

  function Num(b: seq<bool>): nat {
    if b == [] then 0 else (if b[0] then 1 else 0) + 2 * Num(b[1..])
  }

  /** v >> n */
  function Shr(v: nat, n: nat): nat {
    if n == 0 then v else Shr(v / 2, n - 1)
  }

  /** v << n, unbounded */
  function Shl(v: nat, n: nat): nat {
    if n == 0 then v else 2 * Shl(v, n - 1)
  }

  lemma {:induction false} ShlTimes(v: nat, n: nat)
    ensures Shl(v, n) == v * Pow2(n)
  {
    if n > 0 {
      ShlTimes(v, n - 1);
      assert v * Pow2(n) == 2 * (v * Pow2(n - 1));
    }
  }

  lemma {:induction false} ShlBound(v: nat, m: nat, n: nat)
    requires v < Pow2(m)
    ensures Shl(v, n) + Pow2(n) <= Pow2(m + n)
  {
    if n > 0 {
      ShlBound(v, m, n - 1);
    }
  }

  lemma {:induction false} ShlMonotone(v: nat, w: nat, n: nat)
    requires v <= w
    ensures Shl(v, n) <= Shl(w, n)
  {
    if n > 0 {
      ShlMonotone(v, w, n - 1);
    }
  }

  function And(a: nat, b: nat): nat {
    if a == 0 || b == 0 then 0 else 2 * And(a / 2, b / 2) + (if a % 2 == 1 && b % 2 == 1 then 1 else 0)
  }

  function Or(a: nat, b: nat): nat
    decreases a + b
  {
    if a == 0 && b == 0 then 0 else 2 * Or(a / 2, b / 2) + (if a % 2 == 1 || b % 2 == 1 then 1 else 0)
  }

  function Xor(a: nat, b: nat): nat
    decreases a + b
  {
    if a == 0 && b == 0 then 0 else 2 * Xor(a / 2, b / 2) + (if a % 2 != b % 2 then 1 else 0)
  }

  lemma {:induction false} BitsZero(n: nat)
    ensures Bits(0, n) == seq(n, i => false)
  {
    if n > 0 {
      BitsZero(n - 1);
    }
  }

  lemma {:induction false} AndUnfolds(a: nat, b: nat)
    ensures And(a, b) / 2 == And(a / 2, b / 2)
    ensures And(a, b) % 2 == 1 <==> a % 2 == 1 && b % 2 == 1
  {}

  lemma {:induction false} AndBits(a: nat, b: nat, n: nat, i: nat)
    requires i < n
    ensures Bits(And(a, b), n)[i] == (Bits(a, n)[i] && Bits(b, n)[i])
  {
    if a == 0 || b == 0 {
      BitsZero(n);
    } else {
      AndUnfolds(a, b);
      if i > 0 {
        AndBits(a / 2, b / 2, n - 1, i - 1);
      }
    }
  }

  lemma {:induction false} OrUnfolds(a: nat, b: nat)
    ensures Or(a, b) / 2 == Or(a / 2, b / 2)
    ensures Or(a, b) % 2 == 1 <==> a % 2 == 1 || b % 2 == 1
  {}

  lemma {:induction false} OrBits(a: nat, b: nat, n: nat, i: nat)
    requires i < n
    ensures Bits(Or(a, b), n)[i] == (Bits(a, n)[i] || Bits(b, n)[i])
  {
    OrUnfolds(a, b);
    if i > 0 {
      OrBits(a / 2, b / 2, n - 1, i - 1);
    }
  }

  /** Left shift: the low o bits are clear, the others move up. */
  lemma {:induction false} ShiftBits(v: nat, o: nat, n: nat, i: nat)
    requires i < n
    ensures Bits(Shl(v, o), n)[i] == (i >= o && Bits(v, n)[i - o])
  {
    if o > 0 && i > 0 {
      ShiftBits(v, o - 1, n - 1, i - 1);
      if i >= o {
        BitsPrefix(v, n - 1, n, i - o);
      }
    }
  }

  lemma {:induction false} BitsPrefix(v: nat, m: nat, n: nat, i: nat)
    requires i < m <= n
    ensures Bits(v, m)[i] == Bits(v, n)[i]
  {
    if i > 0 {
      BitsPrefix(v / 2, m - 1, n - 1, i - 1);
    }
  }

  /** (1 << n) - 1 has exactly the bits below n set. */
  lemma {:induction false} MaskBits(n: nat, m: nat, i: nat)
    requires i < m
    ensures Bits(Pow2(n) - 1, m)[i] == (i < n)
  {
    if n == 0 {
      BitsZero(m);
    } else {
      assert (Pow2(n) - 1) / 2 == Pow2(n - 1) - 1;
      if i > 0 {
        MaskBits(n - 1, m - 1, i - 1);
      }
    }
  }

  /** The complement within n bits. */
  lemma {:induction false} NotBits(v: nat, w: nat, n: nat, i: nat)
    requires i < n && v + w == Pow2(n) - 1
    ensures Bits(w, n)[i] == !Bits(v, n)[i]
  {
    assert v + w == 2 * Pow2(n - 1) - 1 && v % 2 + w % 2 == 1 && v / 2 + w / 2 == Pow2(n - 1) - 1;
    hide Pow2;
    if i > 0 {
      NotBits(v / 2, w / 2, n - 1, i - 1);
    }
  }

  lemma {:induction false} NumBits(v: nat, n: nat)
    ensures Num(Bits(v, n)) == v % Pow2(n)
  {
    if n > 0 {
      NumBits(v / 2, n - 1);
      assert Bits(v, n)[1..] == Bits(v / 2, n - 1);
      ModStep(v, Pow2(n - 1));
    }
  }

  lemma {:induction false} ModStep(v: nat, m: nat)
    requires m > 0
    ensures v % (2 * m) == v % 2 + 2 * (v / 2 % m)
  {
    var q, r := v / 2 / m, v / 2 % m;
    assert v / 2 == q * m + r;
    assert v == (2 * m) * q + (2 * r + v % 2);
    ModUnique(v, 2 * m, q, 2 * r + v % 2);
  }

  lemma {:induction false} ModUnique(v: int, m: nat, q: int, r: nat)
    requires m > 0 && v == m * q + r && r < m
    ensures v % m == r && v / m == q
  {
    var q', r' := v / m, v % m;
    var d := q - q';
    assert d * m == r' - r;
    assert d >= 1 ==> d * m >= m;
    assert d <= -1 ==> d * m + m <= 0;
  }

  lemma {:induction false} BitsNum(b: seq<bool>)
    ensures Bits(Num(b), |b|) == b && Num(b) < Pow2(|b|)
  {
    if b != [] {
      BitsNum(b[1..]);
      assert Num(b) / 2 == Num(b[1..]);
    }
  }

  lemma {:induction false} NumConcat(a: seq<bool>, b: seq<bool>)
    ensures Num(a + b) == Num(a) + Shl(Num(b), |a|)
  {
    if a == [] {
      assert a + b == b;
    } else {
      assert (a + b)[1..] == a[1..] + b;
      NumConcat(a[1..], b);
    }
  }

  lemma {:induction false} BitsSplit(v: nat, m: nat, n: nat)
    ensures Bits(v, m + n) == Bits(v, m) + Bits(Shr(v, m), n)
  {
    if m > 0 {
      BitsSplit(v / 2, m - 1, n);
    }
  }

  lemma {:induction false} ShrAdd(v: nat, m: nat, n: nat)
    ensures Shr(Shr(v, m), n) == Shr(v, m + n)
  {
    if m > 0 {
      ShrAdd(v / 2, m - 1, n);
    }
  }

  lemma {:induction false} Pow2Grows(m: nat, n: nat)
    requires m <= n
    ensures Pow2(m) <= Pow2(n)
  {
    if m < n {
      Pow2Grows(m, n - 1);
    }
  }

  /** Bits determine a number below the matching power of two. */
  lemma {:induction false} BitsInjective(a: nat, b: nat, n: nat)
    requires a < Pow2(n) && b < Pow2(n) && Bits(a, n) == Bits(b, n)
    ensures a == b
  {
    NumBits(a, n);
    NumBits(b, n);
    ModSmall(a, Pow2(n));
    ModSmall(b, Pow2(n));
  }

  lemma {:induction false} ModSmall(a: nat, m: nat)
    requires a < m
    ensures a % m == a
  {}

  lemma {:induction false} OrZero(v: nat)
    ensures Or(0, v) == v
  {
    if v > 0 {
      OrZero(v / 2);
    }
  }

  /** value | v << n appends v above the n bits of value. */
  lemma {:induction false} OrAppends(value: nat, v: nat, n: nat)
    requires value < Pow2(n)
    ensures Or(value, Shl(v, n)) == value + Shl(v, n)
  {
    if n == 0 {
      OrZero(v);
    } else {
      OrAppends(value / 2, v, n - 1);
    }
  }

  lemma {:induction false} OrBound(a: nat, b: nat, n: nat)
    requires a < Pow2(n) && b < Pow2(n)
    ensures Or(a, b) < Pow2(n)
  {
    if n > 0 {
      OrBound(a / 2, b / 2, n - 1);
    }
  }

  lemma {:induction false} AndBound(a: nat, b: nat)
    ensures And(a, b) <= a && And(a, b) <= b
  {
    if a != 0 && b != 0 {
      AndBound(a / 2, b / 2);
    }
  }

  lemma {:induction false} XorBound(a: nat, b: nat, n: nat)
    requires a < Pow2(n) && b < Pow2(n)
    ensures Xor(a, b) < Pow2(n)
  {
    if n > 0 {
      XorBound(a / 2, b / 2, n - 1);
    }
  }

  lemma {:induction false} XorZero(a: nat)
    ensures Xor(a, 0) == a
  {
    if a > 0 {
      XorZero(a / 2);
    }
  }

  /** Xor with the same operand twice gives the first operand back. */
  lemma {:induction false} XorCancels(a: nat, b: nat)
    ensures Xor(Xor(a, b), b) == a
    decreases a + b
  {
    if a != 0 || b != 0 {
      XorCancels(a / 2, b / 2);
      assert Xor(a, b) / 2 == Xor(a / 2, b / 2);
    }
  }

  lemma {:induction false} XorCommutes(a: nat, b: nat)
    ensures Xor(a, b) == Xor(b, a)
    decreases a + b
  {
    if a != 0 || b != 0 {
      XorCommutes(a / 2, b / 2);
    }
  }
}
