/**
 * The deterministic randomness shared by the two demo-data generators
 * (backend/utils/potholeGenerator.js and
 * frontend/src/utils/userDataGenerator.ts, which define it identically):
 * a 32-bit string hash and a linear congruential generator.
 */
module Seeding {
  import opened Js

  // ---------------------------------------------------------------------------
  // The string hash inside getSeed

  /** `hash << 5`: the operand is read as a signed 32-bit integer and the
      shifted value is again one. */
  function ShiftLeft5(h: int): (r: int)
    ensures -TWO_31 <= r < TWO_31
  {
    Wrap32(Wrap32(h) * 32)
  }

  /** One step of the loop: `hash = (hash << 5) - hash + char` followed by
      the conversion to a signed 32-bit integer (`hash |= 0` in the backend,
      `hash & hash` in the frontend). The character code is the char's
      value. */
  function HashStep(h: int, c: char): int {
    Wrap32(ShiftLeft5(h) - h + c as int)
  }

  /** The hash of `s`, one step per character from the left. */
  function Hash32(s: string): (h: int)
    ensures -TWO_31 <= h < TWO_31
  {
    if s == [] then 0 else HashStep(Hash32(s[..|s| - 1]), s[|s| - 1])
  }

  /** The loop of `getSeed`, up to the final `Math.abs`. */
  method StringHash(text: string) returns (hash: int)
    ensures hash == Hash32(text)
  {
    hash := 0;
    for i := 0 to |text|
      invariant hash == Hash32(text[..i])
    {
      assert text[..i + 1][..i] == text[..i];
      var code := text[i] as int;
      hash := Wrap32(ShiftLeft5(hash) - hash + code);
    }
    assert text[..|text|] == text;
  }

  /** Numbers congruent modulo 2^32 wrap to the same 32-bit value. */
  lemma Wrap32Congruent(a: int, b: int)
    requires (a - b) % TWO_32 == 0
    ensures Wrap32(a) == Wrap32(b)
  {
    var k := (a - b) / TWO_32;
    assert a == b + k * TWO_32;
    ModuloShift(b, k);
  }

  lemma ModuloShift(b: int, k: int)
    ensures (b + k * TWO_32) % TWO_32 == b % TWO_32
  {
    var q := b / TWO_32;
    var r := b % TWO_32;
    assert b == q * TWO_32 + r && 0 <= r < TWO_32;
    assert b + k * TWO_32 == (q + k) * TWO_32 + r;
  }

  /** A signed 32-bit value wraps to itself. */
  lemma Wrap32OfInRange(a: int)
    requires -TWO_31 <= a < TWO_31
    ensures Wrap32(a) == a
  {
    if a < 0 {
      assert a % TWO_32 == a + TWO_32 by { ModuloShift(a, 1); }
    }
  }

  /** Each step multiplies the running hash by 31 and adds the character
      code, modulo 2^32. */
  lemma HashStepTimes31(h: int, c: char)
    requires -TWO_31 <= h < TWO_31
    ensures HashStep(h, c) == Wrap32(31 * h + c as int)
  {
    Wrap32OfInRange(h);
    var shifted := Wrap32(h * 32);
    assert (h * 32 - shifted) % TWO_32 == 0;
    assert (shifted - h + c as int) - (31 * h + c as int) == -(h * 32 - shifted);
    NegatedMultiple(h * 32 - shifted);
    Wrap32Congruent(shifted - h + c as int, 31 * h + c as int);
  }

  lemma NegatedMultiple(x: int)
    requires x % TWO_32 == 0
    ensures (-x) % TWO_32 == 0
  {
    var k := x / TWO_32;
    assert x == k * TWO_32;
    assert -x == (-k) * TWO_32;
  }

  /** The unbounded polynomial hash `sum of code(s[i]) * 31^(n-1-i)`. */
  function Polynomial(s: string): int {
    if s == [] then 0 else 31 * Polynomial(s[..|s| - 1]) + s[|s| - 1] as int
  }

  /** The hash is the polynomial hash of the string reduced to a signed
      32-bit integer: the wrap after every step loses nothing against one
      wrap at the end. */
  lemma {:induction false} HashIsPolynomial(s: string)
    ensures Hash32(s) == Wrap32(Polynomial(s))
  {
    if s != [] {
      var init := s[..|s| - 1];
      var c := s[|s| - 1];
      HashIsPolynomial(init);
      HashStepTimes31(Hash32(init), c);
      CongruentStep(Polynomial(init), Hash32(init), c as int);
      Wrap32Congruent(31 * Polynomial(init) + c as int, 31 * Hash32(init) + c as int);
    }
  }

  /** Congruence modulo 2^32 survives `x -> 31 * x + c`. */
  lemma CongruentStep(p: int, h: int, c: int)
    requires (p - h) % TWO_32 == 0
    ensures ((31 * p + c) - (31 * h + c)) % TWO_32 == 0
  {
    var k := (p - h) / TWO_32;
    assert p - h == k * TWO_32;
    assert (31 * p + c) - (31 * h + c) == (31 * k) * TWO_32;
    ModuloShift(0, 31 * k);
  }

  // ---------------------------------------------------------------------------
  // SeededRandom

  const MODULUS: int := 233280
  const MULTIPLIER: int := 9301
  const INCREMENT: int := 49297

  /** JavaScript's `%` on integers: the remainder has the sign of the
      dividend. */
  function JsRem(a: int, m: int): (r: int)
    requires m > 0
    ensures a >= 0 ==> 0 <= r < m
    ensures a < 0 ==> -m < r <= 0
  {
    if a >= 0 then a % m else -((-a) % m)
  }

  /** The seed after one `next()`. */
  function LcgStep(s: int): (r: int)
    ensures s >= 0 ==> 0 <= r < MODULUS
  {
    JsRem(s * MULTIPLIER + INCREMENT, MODULUS)
  }

  /** The value `next()` returns for the new seed `s`. */
  function Unit(s: int): (u: real)
    ensures 0 <= s < MODULUS ==> 0.0 <= u < 1.0
  {
    s as real / MODULUS as real
  }

  /** `nextInt(min, max)` from the seed `s` it starts with. */
  function DrawInt(s: int, min: int, max: int): int {
    (Unit(LcgStep(s)) * (max - min + 1) as real).Floor + min
  }

  /** `nextFloat(min, max)` from the seed `s` it starts with. */
  function DrawFloat(s: int, min: real, max: real): real {
    Scale(Unit(LcgStep(s)), max - min) + min
  }

  /** The fraction `u` of a width: `u * width`. */
  function Scale(u: real, width: real): real {
    u * width
  }

  lemma FloorOfScaledUnit(u: real, n: int)
    requires 0.0 <= u < 1.0 && n >= 1
    ensures 0 <= (u * n as real).Floor < n
  {
    assert 0.0 <= u * n as real;
    assert u * n as real < n as real by {
      assert n as real - u * n as real == (1.0 - u) * n as real;
    }
  }

  /** From a non-negative seed, `nextInt(min, max)` lies in [min, max]. */
  lemma DrawIntInRange(s: int, min: int, max: int)
    requires s >= 0 && min <= max
    ensures min <= DrawInt(s, min, max) <= max
  {
    FloorOfScaledUnit(Unit(LcgStep(s)), max - min + 1);
  }

  /** From a non-negative seed, `nextFloat(min, max)` lies in [min, max),
      or is `min` itself when the interval is a single point. */
  lemma DrawFloatInRange(s: int, min: real, max: real)
    requires s >= 0 && min <= max
    ensures min <= DrawFloat(s, min, max) <= max
    ensures min < max ==> DrawFloat(s, min, max) < max
  {
    ScaledUnitInRange(Unit(LcgStep(s)), min, max);
  }

  /** `u * (max - min) + min` for `u` in [0, 1). */
  lemma ScaledUnitInRange(u: real, min: real, max: real)
    requires 0.0 <= u < 1.0 && min <= max
    ensures min <= Scale(u, max - min) + min <= max
    ensures min < max ==> Scale(u, max - min) + min < max
  {
    ScaledUnitBelowWidth(u, max - min);
  }

  /** A fraction in [0, 1) of a width `w` lies in [0, w], and below `w`
      when `w` is positive. */
  lemma ScaledUnitBelowWidth(u: real, w: real)
    requires 0.0 <= u < 1.0 && w >= 0.0
    ensures 0.0 <= Scale(u, w) <= w
    ensures w > 0.0 ==> Scale(u, w) < w
  {
    ProductNonNegative(u, w);
    ProductNonNegative(1.0 - u, w);
    Distribute(1.0, u, w);
    if w > 0.0 {
      ProductPositive(1.0 - u, w);
    }
  }

  lemma Distribute(a: real, b: real, c: real)
    ensures a * c - b * c == (a - b) * c
  {
  }

  lemma ProductNonNegative(a: real, b: real)
    requires a >= 0.0 && b >= 0.0
    ensures a * b >= 0.0
  {
  }

  lemma ProductPositive(a: real, b: real)
    requires a > 0.0 && b > 0.0
    ensures a * b > 0.0
  {
  }

  /** `class SeededRandom`: a generator whose only state is its seed. */
  class SeededRandom {
    var seed: int

    constructor(seed: int)
      ensures this.seed == seed
    {
      this.seed := seed;
    }

    /** `next()`: advance the seed, return it scaled to [0, 1). */
    method Next() returns (v: real)
      modifies this
      ensures seed == LcgStep(old(seed))
      ensures v == Unit(seed)
      ensures old(seed) >= 0 ==> 0 <= seed && 0.0 <= v < 1.0
    {
      seed := JsRem(seed * MULTIPLIER + INCREMENT, MODULUS);
      v := seed as real / MODULUS as real;
    }

    /** `nextInt(min, max)`. */
    method NextInt(min: int, max: int) returns (n: int)
      modifies this
      ensures seed == LcgStep(old(seed))
      ensures n == DrawInt(old(seed), min, max)
      ensures old(seed) >= 0 ==> 0 <= seed
      ensures old(seed) >= 0 && min <= max ==> min <= n <= max
    {
      if seed >= 0 && min <= max {
        DrawIntInRange(seed, min, max);
      }
      var v := Next();
      n := (v * (max - min + 1) as real).Floor + min;
    }

    /** `nextFloat(min, max)`. */
    method NextFloat(min: real, max: real) returns (x: real)
      modifies this
      ensures seed == LcgStep(old(seed))
      ensures x == DrawFloat(old(seed), min, max)
      ensures old(seed) >= 0 ==> 0 <= seed
      ensures old(seed) >= 0 && min < max ==> min <= x < max
    {
      if seed >= 0 && min < max {
        DrawFloatInRange(seed, min, max);
      }
      var v := Next();
      x := Scale(v, max - min) + min;
    }
  }
}
