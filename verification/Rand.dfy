/** rand.c: the random generator in Schrage's form. */
module Rand {
  import opened Wrappers

  /** 2^31 - 1. */
  const MODULUS := 2147483647
  const MULTIPLIER := 16807
  const INVERSE := 1407677000
  const DEFAULT_SEED := 123459876

  /** The value of a seed as a long, which has 32 bits. */
  function AsLong(seed: int): int
  {
    if seed < 0x8000_0000 then seed else seed - 0x1_0000_0000
  }

  /** What the generator is meant to compute. */
  function Scaled(seed: int): nat
  {
    MULTIPLIER * seed % MODULUS
  }

  /** The seed `n` steps later. */
  function After(seed: nat, n: nat): nat
    decreases n
  {
    if n == 0 then seed else Scaled(After(seed, n - 1))
  }

  function Power(n: nat): (p: nat)
    ensures p > 0
  {
    if n == 0 then 1 else MULTIPLIER * Power(n - 1)
  }

  class Generator {
    var seed: int

    /** srand. */
    constructor (seed: nat)
      ensures this.seed == seed
    {
      this.seed := seed;
    }

    /** do_random: the product modulo 2^31 - 1 without a product of more than 31 bits, for
        every seed; 0 stands for the default seed. There is no number for the largest
        maximum: `max + 1` is 0 then, and the code divides by it. */
    method DoRandom(max: nat) returns (r: Option<nat>)
      requires 0 <= seed < 0x1_0000_0000 && max < 0x1_0000_0000
      modifies this
      ensures seed == Scaled(if old(seed) == 0 then DEFAULT_SEED else AsLong(old(seed)))
      ensures 0 <= seed < MODULUS && (r == None <==> max == 0xFFFF_FFFF)
      ensures r.Some? ==> r.value == seed % (max + 1) && r.value <= max
    {
      Advance();
      Span(max);
      var span := (max + 1) % 0x1_0000_0000;
      r := if span == 0 then None else Some(Remainder(seed, span));
    }

    method Advance()
      requires 0 <= seed < 0x1_0000_0000
      modifies this
      ensures seed == Scaled(if old(seed) == 0 then DEFAULT_SEED else AsLong(old(seed))) && 0 <= seed < MODULUS
    {
      var x := AsLong(seed);
      if x == 0 {
        x := DEFAULT_SEED;
      }
      var high := if x >= 0 then x / 127773 else -((-x) / 127773);
      var low := x - 127773 * high;
      Schrage(x, high, low);
      assert -0x8000_0000 <= MULTIPLIER * low < 0x8000_0000 && -0x8000_0000 <= 2836 * high < 0x8000_0000;
      x := MULTIPLIER * low - 2836 * high;
      assert -0x8000_0000 <= x < 0x8000_0000;
      if x < 0 {
        x := x + MODULUS;
      }
      seed := x;
    }
  }

  /** The generator's first numbers from the seed 1, and the one from the seed 0. */
  lemma FirstNumbers()
    ensures Scaled(1) == 16807 && Scaled(16807) == 282475249 && Scaled(282475249) == 1622650073
    ensures Scaled(DEFAULT_SEED) == 520932930
  {
    Reduced(16807 * 123459876, 966, 520932930);
    Reduced(16807 * 16807, 0, 282475249);
    Reduced(16807 * 282475249, 2210, 1622650073);
  }

  lemma Span(max: nat)
    requires max < 0x1_0000_0000
    ensures (max + 1) % 0x1_0000_0000 == if max == 0xFFFF_FFFF then 0 else max + 1
  {
  }

  function Remainder(x: nat, m: nat): (r: nat)
    requires 0 < m
    ensures r < m && r == x % m
  {
    x % m
  }

  /** Schrage's decomposition, with truncating division: 2^31 - 1 is 16807 * 127773 + 2836. */
  lemma Schrage(x: int, high: int, low: int)
    requires -0x8000_0000 <= x < 0x8000_0000 && low == x - 127773 * high
    requires high == if x >= 0 then x / 127773 else -((-x) / 127773)
    ensures -16807 <= high <= 16807 && -127773 < low < 127773
    ensures var y := MULTIPLIER * low - 2836 * high;
            -MODULUS < y < MODULUS && Scaled(x) == if y < 0 then y + MODULUS else y
  {
    var y := MULTIPLIER * low - 2836 * high;
    assert MULTIPLIER * x == MODULUS * high + y;
    assert x >= 0 ==> 0 <= low && 0 <= high && (high == 16807 ==> low <= 2836);
    assert x < 0 ==> low <= 0 && high <= 0 && (high == -16807 ==> -2837 <= low);
    Reduced(MULTIPLIER * x, if y < 0 then high - 1 else high, if y < 0 then y + MODULUS else y);
  }

  lemma Reduced(a: int, q: int, r: int)
    requires a == MODULUS * q + r && 0 <= r < MODULUS
    ensures a % MODULUS == r
  {
  }

  /** A step can be undone: multiplying by the inverse gives the seed before it. */
  lemma StepBack(x: nat)
    requires x < MODULUS
    ensures INVERSE * Scaled(x) % MODULUS == x
  {
    var q, r := MULTIPLIER * x / MODULUS, Scaled(x);
    assert MULTIPLIER * x == MODULUS * q + r;
    assert INVERSE * MULTIPLIER == 11017 * MODULUS + 1;
    Reduced(INVERSE * r, 11017 * x - INVERSE * q, x);
  }

  /** No two seeds below the modulus have the same successor. */
  lemma StepInjective(x: nat, y: nat)
    requires x < MODULUS && y < MODULUS && Scaled(x) == Scaled(y)
    ensures x == y
  {
    StepBack(x);
    StepBack(y);
  }

  /** Only multiples of the modulus lead to 0. */
  lemma NeverZero(x: int)
    requires -0x8000_0000 <= x < 0x8000_0000
    ensures Scaled(x) == 0 <==> x == 0 || x == MODULUS || x == -MODULUS
  {
    var m := x % MODULUS;
    var q := x / MODULUS;
    assert x == MODULUS * q + m;
    StepBack(m);
    var s, k := Scaled(m), MULTIPLIER * m / MODULUS;
    assert MULTIPLIER * m == MODULUS * k + s;
    Reduced(MULTIPLIER * x, MULTIPLIER * q + k, s);
    assert s == 0 <==> m == 0;
  }

  /** Over whole runs: from a seed between 1 and 2^31 - 2 the seed stays there, is the
      power of the multiplier times the first seed, and tells the first seed. */
  lemma {:induction false} RunStays(seed: nat, n: nat)
    requires 0 < seed < MODULUS
    ensures 0 < After(seed, n) < MODULUS && After(seed, n) == Power(n) * seed % MODULUS
    decreases n
  {
    if n > 0 {
      RunStays(seed, n - 1);
      NeverZero(After(seed, n - 1));
      var p := Power(n - 1) * seed;
      var q := p / MODULUS;
      assert p == MODULUS * q + After(seed, n - 1);
      assert Power(n) * seed == MULTIPLIER * p by {
        Associate(MULTIPLIER, Power(n - 1), seed);
      }
      var s := Scaled(After(seed, n - 1));
      var k := MULTIPLIER * After(seed, n - 1) / MODULUS;
      assert MULTIPLIER * p == MODULUS * (MULTIPLIER * q + k) + s;
      Reduced(MULTIPLIER * p, MULTIPLIER * q + k, s);
    }
  }

  lemma Associate(a: int, b: int, c: int)
    ensures a * b * c == a * (b * c)
  {
  }

  lemma {:induction false} RunInjective(x: nat, y: nat, n: nat)
    requires 0 < x < MODULUS && 0 < y < MODULUS && After(x, n) == After(y, n)
    ensures x == y
    decreases n
  {
    if n > 0 {
      RunStays(x, n - 1);
      RunStays(y, n - 1);
      StepInjective(After(x, n - 1), After(y, n - 1));
      RunInjective(x, y, n - 1);
    }
  }
}
