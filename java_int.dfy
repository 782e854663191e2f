/**
 * Java's 32-bit `int`: the value range, the two's-complement narrowing that
 * every `int` addition, subtraction and multiplication performs, and the
 * left-to-right wrapping sum computed by `IntStream.sum`.
 */
module JavaInt {

  const MIN: int := -0x8000_0000
  const MAX: int := 0x7fff_ffff
  const MODULUS: int := 0x1_0000_0000

  /**
   * The values a Java `int` can hold. The bounds are written out rather than
   * through `InRange`, so that membership stays plain linear arithmetic.
   */
  type i32 = x: int | MIN <= x <= MAX

  /** Whether `x` is a value a Java `int` can hold. */
  predicate InRange(x: int) {
    MIN <= x <= MAX
  }

  /**
   * The `int` that Java produces for an exact result `x`: the unique value in
   * range that is congruent to `x` modulo 2^32.
   */
  function Wrap(x: int): (r: i32)
    ensures (r - x) % MODULUS == 0
    ensures InRange(x) ==> r == x
  {
    (x - MIN) % MODULUS + MIN
  }

  /** Adding a multiple of 2^32 does not change the wrapped value. */
  lemma {:induction false} WrapShift(x: int, k: int)
    ensures Wrap(x + k * MODULUS) == Wrap(x)
    decreases if k < 0 then -k else k
  {
    if k > 0 {
      WrapShift(x + MODULUS, k - 1);
      assert x + MODULUS + (k - 1) * MODULUS == x + k * MODULUS;
    } else if k < 0 {
      WrapShift(x - MODULUS, k + 1);
      assert x - MODULUS + (k + 1) * MODULUS == x + k * MODULUS;
    }
  }

  /** An intermediate wrap before an addition does not change the result. */
  lemma WrapAdd(x: int, y: int)
    ensures Wrap(Wrap(x) + y) == Wrap(x + y)
  {
    var q := (x - MIN) / MODULUS;
    assert Wrap(x) == x - q * MODULUS;
    WrapShift(x + y, -q);
    assert Wrap(x) + y == (x + y) + (-q) * MODULUS;
  }

  /** Values congruent modulo 2^32 wrap to the same `int`. */
  lemma WrapCongruent(x: int, y: int)
    requires (x - y) % MODULUS == 0
    ensures Wrap(x) == Wrap(y)
  {
    var k := (x - y) / MODULUS;
    assert x == y + k * MODULUS;
    WrapShift(y, k);
  }

  /** Adding the same amount to values that wrap alike gives values that wrap alike. */
  lemma WrapAddCongruent(x: int, x': int, y: int)
    requires Wrap(x) == Wrap(x')
    ensures Wrap(x + y) == Wrap(x' + y)
  {
    WrapAdd(x, y);
    WrapAdd(x', y);
  }

  /** An intermediate wrap before a multiplication does not change the result. */
  lemma WrapMul(x: int, y: int)
    ensures Wrap(Wrap(x) * y) == Wrap(x * y)
  {
    var q := (x - MIN) / MODULUS;
    assert Wrap(x) == x - q * MODULUS;
    calc {
      Wrap(x) * y;
      (x - q * MODULUS) * y;
      x * y + (-q * y) * MODULUS;
    }
    WrapShift(x * y, -q * y);
  }

  /** The exact sum of a sequence, folded from the left. */
  function Sum(xs: seq<int>): int {
    if xs == [] then 0 else Sum(xs[..|xs| - 1]) + xs[|xs| - 1]
  }

  /**
   * `IntStream.sum`: a left fold from 0 in which every addition wraps. It is
   * the exact sum narrowed once, so it is the exact sum whenever that fits in
   * an `int`.
   */
  function StreamSum(xs: seq<i32>): (r: i32)
    ensures r == Wrap(Sum(xs))
    ensures InRange(Sum(xs)) ==> r == Sum(xs)
  {
    if xs == [] then 0
    else
      var init := xs[..|xs| - 1];
      WrapAdd(Sum(init), xs[|xs| - 1]);
      Wrap(StreamSum(init) + xs[|xs| - 1])
  }

  /** A sequence of `n` copies of `v`. */
  function Repeat<T>(v: T, n: nat): (r: seq<T>)
    ensures |r| == n && forall i | 0 <= i < n :: r[i] == v
  {
    if n == 0 then [] else Repeat(v, n - 1) + [v]
  }

  /** One more copy of `p` adds `p` once more to the sum. */
  lemma SumRepeatStep(xs: seq<i32>, p: i32, n: nat)
    requires n > 0
    ensures Sum(xs + Repeat(p, n)) == Sum(xs + Repeat(p, n - 1)) + p
  {
    var ys := xs + Repeat(p, n - 1);
    assert xs + Repeat(p, n) == ys + [p];
    assert (ys + [p])[..|ys|] == ys;
  }

  /** Appending `n` copies of `p` adds `p * n` to the sum, up to wrap-around. */
  lemma {:induction false} WrappedSumRepeat(xs: seq<i32>, p: i32, n: nat)
    ensures Wrap(Sum(xs + Repeat(p, n))) == Wrap(Sum(xs) + p * n)
  {
    if n > 0 {
      var before := p * (n - 1);
      assert before + p == p * n;
      WrappedSumRepeat(xs, p, n - 1);
      WrapAddCongruent(Sum(xs + Repeat(p, n - 1)), Sum(xs) + before, p);
      SumRepeatStep(xs, p, n);
      assert Sum(xs) + before + p == Sum(xs) + p * n;
    } else {
      assert xs + Repeat(p, n) == xs;
    }
  }
}
