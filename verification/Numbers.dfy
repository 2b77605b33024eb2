/** Integer builtins whose intermediate results must fit 64 bits. */
module Numbers {
  import Values

  const I64_MAX := 0x7fff_ffff_ffff_ffff
  const U64_MAX := 0xffff_ffff_ffff_ffff

  // ---- binomial coefficients ----------------------------------------------------------------

  /** Pascal's triangle. */
  function Choose(n: nat, k: nat): nat {
    if k == 0 then 1 else if n == 0 then 0 else Choose(n - 1, k - 1) + Choose(n - 1, k)
  }

  lemma {:induction false} ChooseNone(n: nat, k: nat)
    requires k > n
    ensures Choose(n, k) == 0
  {
    if n > 0 {
      ChooseNone(n - 1, k - 1);
      ChooseNone(n - 1, k);
    }
  }

  lemma {:induction false} ChooseAll(n: nat)
    ensures Choose(n, n) == 1
  {
    if n > 0 {
      ChooseAll(n - 1);
      ChooseNone(n - 1, n);
    }
  }

  /** k * C(n, k) = n * C(n - 1, k - 1): why every division of the loop is exact. */
  lemma {:induction false} Absorption(n: nat, k: nat)
    requires n > 0 && k > 0
    ensures k * Choose(n, k) == n * Choose(n - 1, k - 1)
  {
    if n == 1 {
      if k > 1 { ChooseNone(1, k); ChooseNone(0, k - 1); }
    } else if k == 1 {
      Absorption(n - 1, 1);
      assert Choose(n, 1) == Choose(n - 1, 0) + Choose(n - 1, 1);
    } else {
      Absorption(n - 1, k);
      Absorption(n - 1, k - 1);
      AbsorptionStep(n, k, Choose(n - 2, k - 2), Choose(n - 2, k - 1), Choose(n - 1, k - 1), Choose(n - 1, k));
    }
  }

  lemma AbsorptionStep(n: int, k: int, a: int, b: int, c: int, d: int)
    requires c == a + b && (k - 1) * c == (n - 1) * a && k * d == (n - 1) * b
    ensures k * (c + d) == n * c
  {
    Distribute(k, c, d);
    Distribute(n - 1, a, b);
    assert k * c == (k - 1) * c + c;
    assert n * c == (n - 1) * c + c;
  }

  lemma Distribute(m: int, a: int, b: int)
    ensures m * a + m * b == m * (a + b)
  {
  }

  lemma {:induction false} ChooseSymmetric(n: nat, k: nat)
    requires k <= n
    ensures Choose(n, k) == Choose(n, n - k)
  {
    if k == 0 {
      ChooseAll(n);
    } else if k == n {
      ChooseAll(n);
    } else {
      ChooseSymmetric(n - 1, k - 1);
      ChooseSymmetric(n - 1, k);
    }
  }

  lemma ExactQuotient(r: nat, num: nat, i: nat, q: nat)
    requires i > 0 && i * q == num * r
    ensures r * num / i == q && r * num % i == 0
  {
    assert r * num == q * i + 0;
    DivideExactly(r * num, i, q);
  }

  /** A multiple of `i` other than zero is at least `i` away from it. */
  lemma Gap(a: int, i: int)
    requires i > 0
    ensures a > 0 ==> a * i >= i
    ensures a < 0 ==> a * i <= -i
  {
    if a > 0 { assert a * i == (a - 1) * i + i; }
    if a < 0 { assert a * i == (a + 1) * i - i; }
  }

  lemma DivideExactly(x: nat, i: nat, q: nat)
    requires i > 0 && x == q * i
    ensures x / i == q && x % i == 0
  {
    Gap(x / i - q, i);
    assert (x / i - q) * i == x / i * i - q * i;
  }

  datatype Result = Number(v: int) | Negative | Overflow

  /** The product of round `i` of the loop does not fit. */
  predicate TooBig(n: nat, k: nat, i: nat)
    requires k <= n && 1 <= i
  {
    Choose(n - k + i - 1, i - 1) * (n - k + i) > I64_MAX
  }

  lemma FitsQuotient(r: nat, num: nat)
    requires num > 0
    ensures r > I64_MAX / num <==> r * num > I64_MAX
  {
    var q := I64_MAX / num;
    assert I64_MAX == q * num + I64_MAX % num;
    if r > q {
      assert r * num >= (q + 1) * num;
    } else {
      assert r * num <= q * num;
    }
  }

  /** ncr: whenever it returns a number it is exactly C(n, k), and it gives up only when
      a product of the loop leaves the 64-bit range. */
  method Ncr(n: int, k: int) returns (res: Result)
    ensures n < 0 || k < 0 <==> res == Negative
    ensures res.Number? ==> n >= 0 && k >= 0 && res.v == Choose(n, k) && 0 <= res.v <= I64_MAX
    ensures res == Overflow <==>
              0 <= k <= n && var s := if k > n - k then n - k else k; exists i {:trigger TooBig(n, s, i)} :: 1 <= i <= s && TooBig(n, s, i)
  {
    if n < 0 || k < 0 {
      return Negative;
    }
    if k > n {
      ChooseNone(n, k);
      return Number(0);
    }
    ChooseSymmetric(n, k);
    var s := if k > n - k then n - k else k;
    var r, i := 1, 1;
    while i <= s
      invariant 1 <= i <= s + 1 && r == Choose(n - s + i - 1, i - 1) && 0 <= r <= I64_MAX
      invariant forall j {:trigger TooBig(n, s, j)} :: 1 <= j < i ==> !TooBig(n, s, j)
    {
      var num := n - s + i;
      FitsQuotient(r, num);
      if r > I64_MAX / num {
        assert TooBig(n, s, i);
        return Overflow;
      }
      Absorption(num, i);
      ExactQuotient(r, num, i, Choose(num, i));
      QuotientSmaller(r * num, i);
      r := r * num / i;
      i := i + 1;
    }
    res := Number(r);
  }

  lemma QuotientSmaller(x: nat, i: nat)
    requires i > 0
    ensures x / i <= x
  {
    FactorSmaller(x / i, i, x, x % i);
  }

  lemma FactorSmaller(q: nat, i: nat, x: nat, r: nat)
    requires i > 0 && x == i * q + r
    ensures q <= x
  {
    assert i * q == (i - 1) * q + q;
    assert (i - 1) * q >= 0;
  }

  // ---- modular powers -----------------------------------------------------------------------------

  function Pow(b: int, e: nat): int {
    if e == 0 then 1 else b * Pow(b, e - 1)
  }

  lemma Associate(a: int, b: int, c: int)
    ensures a * (b * c) == (a * b) * c
  {
  }

  lemma {:induction false} PowSquare(b: int, e: nat)
    ensures Pow(b * b, e) == Pow(b, 2 * e)
  {
    if e > 0 {
      PowSquare(b, e - 1);
      assert Pow(b, 2 * e) == b * (b * Pow(b, 2 * e - 2));
      Associate(b, b, Pow(b, 2 * e - 2));
    }
  }

  /** Equal modulo `m`. */
  predicate Congruent(x: int, y: int, m: int)
    requires m > 0
  {
    x % m == y % m
  }

  lemma MulMod(x: int, y: int, m: int)
    requires m > 0
    ensures Congruent(x * (y % m), x * y, m)
  {
    var q := y / m;
    assert y == q * m + y % m;
    assert x * y == x * (y % m) + (x * q) * m by { Associate(x, q, m); }
    AddMultiple(x * (y % m), x * q, m);
  }

  lemma AddMultiple(x: int, q: int, m: int)
    requires m > 0
    ensures (x + q * m) % m == x % m
  {
    var a, b := x / m, x % m;
    assert x == a * m + b;
    assert x + q * m == (a + q) * m + b by { Distribute(m, a, q); }
    DivideRemainder((a + q), b, m);
  }

  lemma DivideRemainder(q: int, r: int, m: int)
    requires m > 0 && 0 <= r < m
    ensures (q * m + r) % m == r
  {
    var x := q * m + r;
    Gap(x / m - q, m);
    assert (x / m - q) * m == x / m * m - q * m;
  }

  lemma MulCongruent(x: int, x': int, y: int, m: int)
    requires m > 0 && Congruent(x, x', m)
    ensures Congruent(x * y, x' * y, m)
  {
    MulMod(y, x, m);
    MulMod(y, x', m);
    assert y * (x % m) == y * (x' % m);
    assert x * y == y * x && x' * y == y * x';
  }

  lemma {:induction false} PowCongruent(b: int, b': int, e: nat, m: int)
    requires m > 0 && Congruent(b, b', m)
    ensures Congruent(Pow(b, e), Pow(b', e), m)
  {
    if e > 0 {
      PowCongruent(b, b', e - 1, m);
      MulCongruent(b, b', Pow(b, e - 1), m);
      MulCongruent(Pow(b, e - 1), Pow(b', e - 1), b', m);
      assert b' * Pow(b, e - 1) == Pow(b, e - 1) * b' && Pow(b', e - 1) * b' == b' * Pow(b', e - 1);
    }
  }

  const MAX_MODULUS := 3037000499

  datatype PowResult = Power(v: int) | NegativeExponent | BadModulus | LargeModulus

  lemma NormalizedMod(x: int, m: int)
    requires m > 0
    ensures (if Values.TruncMod(x, m) < 0 then Values.TruncMod(x, m) + m else Values.TruncMod(x, m)) == x % m
  {
    Values.TruncDivMod(x, m);
    var q, r := Values.TruncDiv(x, m), Values.TruncMod(x, m);
    hide Values.TruncDiv, Values.TruncMod;
    if r < 0 {
      assert x == (q - 1) * m + (r + m);
      DivideRemainder(q - 1, r + m, m);
    } else {
      DivideRemainder(q, r, m);
    }
  }

  /** Two residues multiply within 64 bits. */
  lemma ProductFits(x: nat, y: nat, m: nat)
    requires x < m && y < m && m <= MAX_MODULUS
    ensures x * y <= U64_MAX
  {
    assert x * y <= (MAX_MODULUS - 1) * y && (MAX_MODULUS - 1) * y <= (MAX_MODULUS - 1) * (MAX_MODULUS - 1);
  }

  /** pow_mod by square and multiply: the power's remainder, no product above 64 bits. */
  method PowMod(b: int, e: int, ms: int) returns (res: PowResult)
    ensures e < 0 ==> res == NegativeExponent
    ensures e >= 0 && ms <= 0 ==> res == BadModulus
    ensures e >= 0 && ms > MAX_MODULUS ==> res == LargeModulus
    ensures e >= 0 && 0 < ms <= MAX_MODULUS ==> res == Power(Pow(b, e) % ms)
  {
    if e < 0 {
      return NegativeExponent;
    }
    if ms <= 0 {
      return BadModulus;
    }
    if ms > MAX_MODULUS {
      return LargeModulus;
    }
    if ms == 1 {
      return Power(0);
    }
    hide *;
    var bb := Values.TruncMod(b, ms);
    NormalizedMod(b, ms);
    ModRange(b, ms);
    if bb < 0 {
      bb := bb + ms;
    }
    var base: nat, result: nat, ue: nat := bb, 1, e;
    Started(base, b, e, ms);
    while ue > 0
      invariant Owes(result, base, ue, Pow(b, e), ms)
    {
      RoundOwes(result, base, ue, Pow(b, e), ms);
      OwesFits(result, base, ue, Pow(b, e), ms);
      if ue % 2 == 1 {
        result := Times(result, base, ms);
      }
      base := Times(base, base, ms);
      ue := ue / 2;
    }
    Settled(result, base, Pow(b, e), ms);
    res := Power(result);
  }

  /** A product reduced modulo `m`; the product itself has to fit an unsigned 64-bit word. */
  function Times(x: nat, y: nat, m: nat): (r: nat)
    requires m > 0 && x * y <= U64_MAX
    ensures r < m && Congruent(r, x * y, m)
  {
    ModTwice(x * y, m);
    x * y % m
  }

  /** `result * base^ue` is still the power modulo `m`. */
  predicate Owes(result: nat, base: nat, ue: nat, power: int, m: nat) {
    0 < m <= MAX_MODULUS && base < m && result < m && Congruent(result * Pow(base, ue), power, m)
  }

  lemma ModRange(x: int, m: int)
    requires m > 0
    ensures 0 <= x % m < m
  {
  }

  lemma Started(base: nat, b: int, e: nat, m: nat)
    requires 1 < m <= MAX_MODULUS && base == b % m
    ensures Owes(1, base, e, Pow(b, e), m)
  {
    ModTwice(b, m);
    PowCongruent(base, b, e, m);
  }

  lemma OwesFits(result: nat, base: nat, ue: nat, power: int, m: nat)
    requires Owes(result, base, ue, power, m)
    ensures m > 0 && result * base <= U64_MAX && base * base <= U64_MAX
  {
    ProductFits(result, base, m);
    ProductFits(base, base, m);
  }

  lemma RoundOwes(result: nat, base: nat, ue: nat, power: int, m: nat)
    requires Owes(result, base, ue, power, m) && ue > 0 && m > 1
    ensures result * base <= U64_MAX && base * base <= U64_MAX
    ensures Owes(if ue % 2 == 1 then Times(result, base, m) else result, Times(base, base, m), ue / 2, power, m)
  {
    OwesFits(result, base, ue, power, m);
    Round(result, base, ue, m);
  }

  lemma Settled(result: nat, base: nat, power: int, m: nat)
    requires Owes(result, base, 0, power, m)
    ensures m > 0 && result == power % m
  {
    hide Pow;
    assert Pow(base, 0) == 1 by { PowNone(base); }
    SmallMod(result, m);
    assert result * 1 == result;
  }

  lemma PowNone(b: int)
    ensures Pow(b, 0) == 1
  {
  }

  lemma SmallMod(x: nat, m: nat)
    requires x < m
    ensures x % m == x
  {
  }

  /** One round keeps result * base^ue the same modulo `m`. */
  lemma Round(result: nat, base: nat, ue: nat, m: nat)
    requires m > 1 && ue > 0
    ensures var result' := if ue % 2 == 1 then (result * base) % m else result;
            Congruent(result' * Pow((base * base) % m, ue / 2), result * Pow(base, ue), m)
  {
    var result' := if ue % 2 == 1 then (result * base) % m else result;
    var raw := if ue % 2 == 1 then result * base else result;
    var h := ue / 2;
    var sq := Pow(base * base, h);
    PowSquare(base, h);
    if ue % 2 == 1 {
      assert ue == 2 * h + 1;
      assert Pow(base, ue) == base * Pow(base, 2 * h);
      Associate(result, base, Pow(base, 2 * h));
    }
    assert raw * sq == result * Pow(base, ue);
    ModTwice(base * base, m);
    ModTwice(result * base, m);
    PowCongruent((base * base) % m, base * base, h, m);
    MulCongruent(Pow((base * base) % m, h), sq, result', m);
    assert result' * Pow((base * base) % m, h) == Pow((base * base) % m, h) * result' && sq * result' == result' * sq;
    MulCongruent(result', raw, sq, m);
  }

  lemma ModTwice(x: int, m: int)
    requires m > 0
    ensures x % m % m == x % m
  {
  }
}
