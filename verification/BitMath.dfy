/**
 JavaScript's bitwise operators on unsigned numbers, bit by bit, and what prefix masks do:
 comparing two numbers under a prefix mask is comparing their quotients by a power of two.
 */
module BitMath {
  function Pow2(n: nat): (p: nat)
    ensures p >= 1
  {
    if n == 0 then 1 else 2 * Pow2(n - 1)
  }

  /** `a & b` */
  function And(a: nat, b: nat): nat {
    if a == 0 || b == 0 then 0 else 2 * And(a / 2, b / 2) + (if a % 2 == 1 && b % 2 == 1 then 1 else 0)
  }

  /** `a | b` */
  function Or(a: nat, b: nat): nat
    decreases a + b
  {
    if a == 0 then b
    else if b == 0 then a
    else 2 * Or(a / 2, b / 2) + (if a % 2 == 1 || b % 2 == 1 then 1 else 0)
  }

  /** `a << k` in a word of `width` bits, read as unsigned. */
  function ShiftLeft(a: nat, k: nat, width: nat): nat {
    (a * Pow2(k)) % Pow2(width)
  }

  // ---- Arithmetic ----

  lemma {:induction false} PowSum(a: nat, b: nat)
    ensures Pow2(a + b) == Pow2(a) * Pow2(b)
  {
    if a > 0 {
      PowSum(a - 1, b);
      Associate(2, Pow2(a - 1), Pow2(b));
    }
  }

  lemma {:induction false} PowMonotone(a: nat, b: nat)
    requires a <= b
    ensures Pow2(a) <= Pow2(b)
    decreases b
  {
    if a < b { PowMonotone(a, b - 1); }
  }

  lemma Associate(a: int, b: int, c: int)
    ensures a * b * c == a * (b * c)
  {
  }

  lemma MulGrows(d: nat, a: int, b: int)
    ensures a <= b ==> d * a <= d * b
  {
  }

  /** Quotient and remainder are determined by their defining equation. */
  lemma DivUnique(x: nat, d: nat, q: nat, r: nat)
    requires d > 0 && x == q * d + r && r < d
    ensures x / d == q && x % d == r
  {
    var q2, r2 := x / d, x % d;
    assert x == d * q2 + r2 && 0 <= r2 < d;
    MulGrows(d, q2 + 1, q);
    MulGrows(d, q + 1, q2);
    assert d * (q2 + 1) == d * q2 + d && d * (q + 1) == d * q + d;
  }

  /** Dividing twice is dividing by the product. */
  lemma DivDiv(x: nat, a: nat, b: nat)
    requires a > 0 && b > 0
    ensures a * b > 0 && x / a / b == x / (a * b)
  {
    var q, r := x / a, x % a;
    var q2, r2 := q / b, q % b;
    assert x == a * q + r && q == b * q2 + r2;
    Associate(a, b, q2);
    assert a * (b * q2 + r2) == a * (b * q2) + a * r2;
    MulGrows(a, r2 + 1, b);
    assert a * (r2 + 1) == a * r2 + a;
    MulGrows(a, 1, b);
    DivUnique(x, a * b, q2, a * r2 + r);
  }

  // ---- Masks ----

  lemma {:induction false} AndLow(x: nat, n: nat)
    ensures And(x, Pow2(n) - 1) == x % Pow2(n)
  {
    hide And, Pow2;
    if n == 0 {
      AndNothing(x);
    } else {
      PowSucc(n);
      AndLow(x / 2, n - 1);
      var p := Pow2(n - 1);
      AndOdd(x, p - 1);
      DoubleMod(x, p);
      assert 2 * p - 1 == 2 * (p - 1) + 1;
    }
  }

  lemma PowSucc(n: nat)
    requires n > 0
    ensures Pow2(n) == 2 * Pow2(n - 1)
  {
  }

  lemma AndNothing(x: nat)
    ensures And(x, Pow2(0) - 1) == x % Pow2(0)
  {
    assert Pow2(0) == 1 && x % 1 == 0;
  }

  lemma AndOdd(x: nat, m: nat)
    ensures And(x, 2 * m + 1) == 2 * And(x / 2, m) + x % 2
  {
    assert (2 * m + 1) / 2 == m && (2 * m + 1) % 2 == 1;
  }

  lemma DoubleMod(x: nat, p: nat)
    requires p > 0
    ensures x % (2 * p) == 2 * (x / 2 % p) + x % 2
  {
    var h := x / 2;
    assert x == 2 * h + x % 2 && h == p * (h / p) + h % p;
    Associate(2, p, h / p);
    DivUnique(x, 2 * p, h / p, 2 * (h % p) + x % 2);
  }

  /** A mask of `ones` one-bits above `zeros` zero-bits. */
  function Prefix(ones: nat, zeros: nat): nat {
    (Pow2(ones) - 1) * Pow2(zeros)
  }

  /** Masking with a prefix keeps the multiple of 2^zeros below the number. */
  lemma {:induction false} AndPrefix(x: nat, ones: nat, zeros: nat)
    requires x < Pow2(ones + zeros)
    ensures And(x, Prefix(ones, zeros)) == x / Pow2(zeros) * Pow2(zeros)
  {
    hide And;
    var m := Pow2(ones) - 1;
    if zeros == 0 {
      AndLow(x, ones);
      assert x % Pow2(ones) == x by { Small(x, Pow2(ones)); }
      assert x / 1 == x;
    } else {
      var half := Pow2(zeros - 1);
      assert Pow2(ones + zeros) == 2 * Pow2(ones + (zeros - 1));
      AndPrefix(x / 2, ones, zeros - 1);
      hide Pow2;
      Swap(m, half);
      AndDouble(x, m * half);
      DivDiv(x, 2, half);
      Swap(x / 2 / half, half);
    }
  }

  lemma Small(x: nat, d: nat)
    requires x < d
    ensures x % d == x && x / d == 0
  {
    DivUnique(x, d, 0, x);
  }

  lemma Swap(a: int, b: int)
    ensures a * (2 * b) == 2 * (a * b)
  {
  }

  lemma AndDouble(x: nat, m: nat)
    ensures And(x, 2 * m) == 2 * And(x / 2, m)
  {
    assert (2 * m) / 2 == m && (2 * m) % 2 == 0;
  }

  /** Two numbers agree under a prefix mask exactly when they agree without their low bits. */
  lemma MaskComparesQuotients(a: nat, b: nat, ones: nat, zeros: nat)
    requires a < Pow2(ones + zeros) && b < Pow2(ones + zeros)
    ensures And(a, Prefix(ones, zeros)) == And(b, Prefix(ones, zeros)) <==> a / Pow2(zeros) == b / Pow2(zeros)
  {
    AndPrefix(a, ones, zeros);
    AndPrefix(b, ones, zeros);
    Cancel(a / Pow2(zeros), b / Pow2(zeros), Pow2(zeros));
  }

  lemma Cancel(a: int, b: int, d: nat)
    requires d > 0
    ensures a * d == b * d <==> a == b
  {
    MulGrows(d, a + 1, b);
    MulGrows(d, b + 1, a);
    assert d * (a + 1) == d * a + d && d * (b + 1) == d * b + d;
  }

  /** Shifting all ones left in a word leaves a prefix mask. */
  lemma ShiftedOnes(ones: nat, zeros: nat)
    requires ones > 0
    ensures ShiftLeft(Pow2(ones + zeros) - 1, zeros, ones + zeros) == Prefix(ones, zeros)
  {
    var w, z, o := Pow2(ones + zeros), Pow2(zeros), Pow2(ones);
    PowSum(ones, zeros);
    hide Pow2;
    LessOne(w, z);
    LessOne(z, w);
    LessOne(o, z);
    MulGrows(z, 1, o);
    DivUnique((w - 1) * z, w, z - 1, w - z);
  }

  lemma LessOne(a: int, b: int)
    ensures (a - 1) * b == a * b - b && a * b == b * a
  {
  }

  /** Adding an octet below a shifted number is what `(x << 8) | n` does. */
  lemma {:induction false} OrBelow(x: nat, n: nat, k: nat)
    requires n < Pow2(k)
    ensures Or(x * Pow2(k), n) == x * Pow2(k) + n
    decreases k
  {
    if k == 0 {
      assert x * 1 == x;
    } else if n > 0 && x > 0 {
      var p := Pow2(k - 1);
      Swap(x, p);
      OrBelow(x, n / 2, k - 1);
      assert x * p > 0;
      assert (2 * (x * p)) / 2 == x * p && (2 * (x * p)) % 2 == 0;
    }
  }
}
