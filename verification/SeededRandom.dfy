/** The generator behind the logo trail, mulberry32 (apps/web/lib/motion/logo-trail.ts). */
module SeededRandom {

  const WORD := 0x1_0000_0000
  const STEP := 0x6d2b79f5

  /** `| 0`: the signed 32-bit integer that agrees modulo 2^32. */
  function ToInt32(n: int): (r: int)
    ensures -0x8000_0000 <= r < 0x8000_0000
  {
    var u := n % WORD;
    if u >= 0x8000_0000 then u - WORD else u
  }

  function Bits(n: int): bv32 {
    (n % WORD) as bv32
  }

  /** What a state gives out, before it is scaled. */
  function Mixed(a: bv32): bv32 {
    var t := (a ^ (a >> 15)) * (1 | a);
    var u := (t + (t ^ (t >> 7)) * (61 | t)) ^ t;
    u ^ (u >> 14)
  }

  function Scaled(word: bv32): (x: real)
    ensures 0.0 <= x < 1.0
  {
    word as int as real / 4294967296.0
  }

  /** The state after `n` calls. */
  function StateAfter(seed: int, n: nat): int {
    if n == 0 then seed else ToInt32(StateAfter(seed, n - 1) + STEP)
  }

  /** What call number `n` returns; the first is number 1. */
  function Draw(seed: int, n: nat): (x: real)
    ensures 0.0 <= x < 1.0
  {
    Scaled(Mixed(Bits(StateAfter(seed, n))))
  }

  function Stream(seed: int): nat -> real {
    (n: nat) => Draw(seed, n)
  }

  class Generator {
    const seed: int
    var a: int
    /** How often it was called. */
    ghost var calls: nat

    ghost predicate Valid()
      reads this
    {
      a == StateAfter(seed, calls)
    }

    constructor (seed: int)
      ensures Valid() && this.seed == seed && calls == 0
    {
      this.seed, a, calls := seed, seed, 0;
    }

    method Next() returns (x: real)
      requires Valid()
      modifies this
      ensures Valid() && calls == old(calls) + 1
      ensures x == Stream(seed)(calls)
    {
      a := ToInt32(a + STEP);
      calls := calls + 1;
      x := Scaled(Mixed(Bits(a)));
    }
  }

  // ---------------------------------------------------------------------------------------------
  // The period
  // ---------------------------------------------------------------------------------------------

  /** STEP is odd, so it has an inverse modulo 2^32. */
  const INVERSE := 0xdc58aa5d

  predicate Congruent(m: int, n: int) {
    (m - n) % WORD == 0
  }

  lemma SameInt32(m: int, n: int)
    ensures ToInt32(m) == ToInt32(n) <==> Congruent(m, n)
  {
  }

  lemma ToInt32IsCongruent(n: int)
    ensures Congruent(ToInt32(n), n)
  {
  }

  lemma {:induction false} StateIs(seed: int, n: nat)
    requires n > 0
    ensures StateAfter(seed, n) == ToInt32(seed + n * STEP)
    decreases n
  {
    if n == 1 {
      assert StateAfter(seed, 0) == seed;
    } else {
      StateIs(seed, n - 1);
      ToInt32IsCongruent(seed + (n - 1) * STEP);
      SameInt32(StateAfter(seed, n - 1) + STEP, seed + n * STEP);
    }
  }

  lemma InverseIs()
    ensures STEP * INVERSE == 1 + 1576479847 * WORD
  {
  }

  /** Multiples of STEP agree only when the factors do. */
  lemma StepIsInvertible(d: int)
    requires (d * STEP) % WORD == 0
    ensures d % WORD == 0
  {
    InverseIs();
    var q := d * STEP / WORD;
    assert d * STEP == q * WORD;
    assert d * (STEP * INVERSE) == q * WORD * INVERSE;
    assert d == WORD * (q * INVERSE - d * 1576479847);
    MultipleOfWord(q * INVERSE - d * 1576479847);
  }

  lemma MultipleOfWord(q: int)
    ensures (WORD * q) % WORD == 0
  {
  }

  /** Two states of one generator are the same exactly when their numbers of calls differ by a multiple of 2^32: it
      goes through 2^32 different states before the first one comes back, whatever the seed. */
  lemma PeriodIsExact(seed: int, i: nat, j: nat)
    requires i > 0 && j > 0
    ensures StateAfter(seed, i) == StateAfter(seed, j) <==> (i - j) % WORD == 0
  {
    StateIs(seed, i);
    StateIs(seed, j);
    SameInt32(seed + i * STEP, seed + j * STEP);
    var d := i - j;
    assert (seed + i * STEP) - (seed + j * STEP) == d * STEP;
    if d % WORD == 0 {
      assert d * STEP == WORD * (d / WORD * STEP);
      MultipleOfWord(d / WORD * STEP);
    } else if (d * STEP) % WORD == 0 {
      StepIsInvertible(d);
    }
  }

  /** So many calls add `d`, up to a multiple of 2^32. */
  lemma CallsToCome(d: int, n: int, k: int)
    requires n == d * INVERSE - k * WORD
    ensures (n * STEP - d) % WORD == 0
  {
    InverseIs();
    assert n * STEP == d * (STEP * INVERSE) - k * WORD * STEP;
    assert n * STEP - d == WORD * (d * 1576479847 - k * STEP);
    MultipleOfWord(d * 1576479847 - k * STEP);
  }

  /** The number from 1 to 2^32 that agrees with `x` modulo 2^32. */
  lemma LastTurn(x: int) returns (n: nat, k: int)
    ensures 1 <= n <= WORD && n == x - k * WORD
  {
    n, k := x % WORD, x / WORD;
    if n == 0 {
      n, k := WORD, k - 1;
    }
  }

  lemma SameAfterCalls(seed: int, added: int, state: int)
    requires -0x8000_0000 <= state < 0x8000_0000 && (added - (state - seed)) % WORD == 0
    ensures ToInt32(seed + added) == state
  {
    assert seed + added - state == added - (state - seed);
    SameInt32(seed + added, state);
  }

  /** Every 32-bit state is met within those 2^32 calls. */
  lemma EveryStateIsMet(seed: int, state: int)
    requires -0x8000_0000 <= state < 0x8000_0000
    ensures exists n :: 1 <= n <= WORD && StateAfter(seed, n) == state
  {
    var n, k := LastTurn((state - seed) * INVERSE);
    CallsToCome(state - seed, n, k);
    StateIs(seed, n);
    SameAfterCalls(seed, n * STEP, state);
  }
}
