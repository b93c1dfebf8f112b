/** Go's int64: two's complement, additions wrap modulo 2^64. */
module Int64 {
  const HALF := 0x8000_0000_0000_0000
  const MODULUS := 0x1_0000_0000_0000_0000

  type int64 = x: int | -HALF <= x < HALF

  function Wrap(x: int): int64 {
    (x + HALF) % MODULUS - HALF
  }

  /** Two integers that int64 arithmetic cannot tell apart. */
  predicate Congruent(x: int, y: int) {
    Wrap(x) == Wrap(y)
  }

  /** Wrapping picks the one int64 in each residue class modulo 2^64. */
  lemma WrapExact(x: int, r: int64)
    ensures Wrap(x) == r <==> (x - r) % MODULUS == 0
  {
    var q := (x + HALF) / MODULUS;
    assert x - Wrap(x) == q * MODULUS;
    if (x - r) % MODULUS == 0 {
      var p := (x - r) / MODULUS;
      assert (q - p) * MODULUS == r - Wrap(x);
      assert -1 < q - p < 1;
    }
  }

  lemma WrapIdempotent(x: int64)
    ensures Wrap(x) == x
  {
  }

  /** A sum may be wrapped at any intermediate point. */
  lemma WrapAdd(x: int, y: int)
    ensures Wrap(Wrap(x) + y) == Wrap(x + y)
  {
    var q := (x + HALF) / MODULUS;
    assert Wrap(x) == x - q * MODULUS;
    WrapShift(x + y, -q);
  }

  lemma WrapShift(x: int, k: int)
    ensures Wrap(x + k * MODULUS) == Wrap(x)
  {
    var q := (x + HALF) / MODULUS;
    var r := (x + HALF) % MODULUS;
    var q' := (x + k * MODULUS + HALF) / MODULUS;
    var r' := (x + k * MODULUS + HALF) % MODULUS;
    assert (q' - q - k) * MODULUS == r - r';
    assert -1 < q' - q - k < 1;
  }

  lemma CongruentAdd(x: int, y: int, d: int)
    requires Congruent(x, y)
    ensures Congruent(x + d, y + d)
  {
    WrapAdd(x, d);
    WrapAdd(y, d);
  }

  /** n * d, spelled out. */
  function Times(n: nat, d: int): int {
    if n == 0 then 0 else Times(n - 1, d) + d
  }

  lemma {:induction false} TimesZeroIff(n: nat, d: int)
    ensures Times(n, d) == 0 <==> n == 0 || d == 0
    ensures d >= 0 ==> Times(n, d) >= 0
    ensures d <= 0 ==> Times(n, d) <= 0
  {
    if n > 0 {
      TimesZeroIff(n - 1, d);
    }
  }
}
