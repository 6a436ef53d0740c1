/**
  The 32-bit generator behind the synthetic summer (scripts/replay-launch.py): its counter state, its
  output, and why drawing until a number is not zero always ends.
 */
module Mulberry {
  const M: nat := 0x1_0000_0000
  const STEP: nat := 0x6D2B79F5

  /** The inverse of STEP modulo M. */
  const INVERSE: nat := 3696798301

  /** A 32-bit state. */
  type Word = n: nat | n < M

  function Succ(s: Word): Word {
    (s + STEP) % M
  }

  /** The mixing of a state into an output; all products and sums wrap at 32 bits. */
  function Mix(a: bv32): bv32 {
    var t := (a ^ (a >> 15)) * (1 | a);
    var u := (t + (t ^ (t >> 7)) * (61 | t)) ^ t;
    u ^ (u >> 14)
  }

  lemma BitsFit(b: bv32)
    ensures 0 <= b as int < M
  {
  }

  function Output(s: Word): Word {
    BitsFit(Mix(s as bv32));
    Mix(s as bv32) as int
  }

  /** The number an output stands for, in [0, 1). */
  function Unit(n: Word): (u: real)
    ensures 0.0 <= u < 1.0
    ensures u == 0.0 <==> n == 0
  {
    n as real / 4294967296.0
  }

  /** A state whose output is not zero. */
  const GOOD: Word := 1

  /** The real mixing sends state 1 to 63. */
  lemma MulberryIsAlive()
    ensures Output(GOOD) == 63
  {
    assert Mix(1) == 63;
  }

  /** How a state turns into an output.  All that is asked of it, beyond the mixing itself, is that some state yields no zero. */
  type Generator = out: Word -> Word | out(GOOD) != 0 witness (_ => GOOD)

  function Uniform(out: Generator, s: Word): (u: real)
    ensures 0.0 <= u < 1.0
  {
    Unit(out(s))
  }

  // ---------------------------------------------------------------- the orbit

  /** The state after `k` steps. */
  function Orbit(s: Word, k: nat): Word {
    (s + k * STEP) % M
  }

  lemma ModSub(x: int, q: int)
    ensures (x - q * M) % M == x % M
  {
    var a, b := x / M, x % M;
    assert x - q * M == (a - q) * M + b;
  }

  lemma OrbitSteps(s: Word, k: nat)
    ensures Orbit(s, 0) == s && Orbit(s, k + 1) == Succ(Orbit(s, k))
  {
    var x := s + k * STEP;
    ModSub(x + STEP, x / M);
    assert x % M + STEP == x + STEP - (x / M) * M;
  }

  /** How many steps lead from `s` to `target`. */
  function StepsTo(s: Word, target: Word): (k: nat)
    ensures k < M
  {
    ((target - s) * INVERSE) % M
  }

  /** The step is odd, so the orbit visits every 32-bit state, each exactly once in 2^32 steps. */
  lemma OrbitIsFull(s: Word, target: Word)
    ensures Orbit(s, StepsTo(s, target)) == target
    ensures forall k: nat :: k < M && Orbit(s, k) == target ==> k == StepsTo(s, target)
  {
    OrbitReaches(s, target);
    forall k: nat | k < M && Orbit(s, k) == target
      ensures k == StepsTo(s, target)
    {
      OrbitIsInjective(s, target, k);
    }
  }

  lemma OrbitReaches(s: Word, target: Word)
    ensures Orbit(s, StepsTo(s, target)) == target
  {
    var x := (target - s) * INVERSE;
    var q := x / M;
    // STEP * INVERSE is one more than a multiple of M
    assert StepsTo(s, target) * STEP == (target - s) + ((target - s) * 1576479847 - q * STEP) * M;
    ModSub(target, -((target - s) * 1576479847 - q * STEP));
  }

  lemma OrbitIsInjective(s: Word, target: Word, k: nat)
    requires k < M && Orbit(s, k) == target
    ensures k == StepsTo(s, target)
  {
    var q := (s + k * STEP) / M;
    assert target - s == k * STEP - q * M;
    assert (target - s) * INVERSE == k + (k * 1576479847 - q * INVERSE) * M;
    ModSub(k, -(k * 1576479847 - q * INVERSE));
  }

  /** One step towards a state one is not yet at. */
  lemma StepGetsCloser(s: Word, target: Word)
    requires s != target
    ensures StepsTo(Succ(s), target) == StepsTo(s, target) - 1
  {
    var k := StepsTo(s, target);
    OrbitIsFull(s, target);
    OrbitSteps(s, k);
    assert k != 0;
    var q := (s + STEP) / M;
    assert Succ(s) + (k - 1) * STEP == s + k * STEP - q * M;
    ModSub(s + k * STEP, q);
    OrbitIsInjective(Succ(s), target, k - 1);
  }

  // ---------------------------------------------------------------- drawing until non-zero

  /** How far the next state is from the good one. */
  function ToGo(s: Word): nat {
    StepsTo(Succ(s), GOOD)
  }

  lemma ZeroGetsCloser(out: Generator, s: Word)
    requires out(Succ(s)) == 0
    ensures ToGo(Succ(s)) < ToGo(s)
  {
    StepGetsCloser(Succ(s), GOOD);
  }

  /** The first state after `s` whose output is not zero. */
  function NonZero(out: Generator, s: Word): (r: Word)
    ensures Uniform(out, r) > 0.0
    decreases ToGo(s)
  {
    if out(Succ(s)) == 0 then
      ZeroGetsCloser(out, s);
      NonZero(out, Succ(s))
    else Succ(s)
  }

  /** Stepping `k` times, one step at a time. */
  function Walk(s: Word, k: nat): Word {
    if k == 0 then s else Succ(Walk(s, k - 1))
  }

  lemma {:induction false} WalkIsOrbit(s: Word, k: nat)
    ensures Walk(s, k) == Orbit(s, k)
  {
    if k > 0 {
      WalkIsOrbit(s, k - 1);
      OrbitSteps(s, k - 1);
    }
  }

  lemma {:induction false} WalkFromNext(s: Word, k: nat)
    ensures Walk(Succ(s), k) == Walk(s, k + 1)
  {
    if k > 0 {
      WalkFromNext(s, k - 1);
    }
  }

  /** What the rejection loop returns is the first state of the walk with a non-zero output. */
  lemma {:induction false} NonZeroIsFirst(out: Generator, s: Word) returns (k: nat)
    ensures k >= 1 && NonZero(out, s) == Walk(s, k)
    ensures forall j :: 1 <= j < k ==> out(Walk(s, j)) == 0
    decreases ToGo(s)
  {
    if out(Succ(s)) == 0 {
      ZeroGetsCloser(out, s);
      var m := NonZeroIsFirst(out, Succ(s));
      k := m + 1;
      WalkFromNext(s, m);
      forall j | 1 <= j < k
        ensures out(Walk(s, j)) == 0
      {
        WalkFromNext(s, j - 1);
      }
    } else {
      k := 1;
      assert Walk(s, 1) == Succ(Walk(s, 0)) == Succ(s);
    }
  }

  // ---------------------------------------------------------------- the generator object

  class Rng {
    const out: Generator
    var s: Word

    constructor (seed: int)
      ensures s == seed % M && out == Output
    {
      MulberryIsAlive();
      out := Output;
      s := seed % M;
    }

    method Next() returns (u: real)
      modifies this
      ensures s == Succ(old(s)) && u == Uniform(out, s)
    {
      s := (s + STEP) % M;
      u := Uniform(out, s);
    }

    /** The rejection loop of the Gaussian draw. */
    method NextNonZero() returns (u: real)
      modifies this
      ensures s == NonZero(out, old(s)) && u == Uniform(out, s) && u > 0.0
    {
      u := 0.0;
      while u == 0.0
        invariant u == 0.0 ==> NonZero(out, s) == NonZero(out, old(s))
        invariant u != 0.0 ==> s == NonZero(out, old(s)) && u == Uniform(out, s)
        decreases if u == 0.0 then ToGo(s) + 1 else 0
      {
        if out(Succ(s)) == 0 {
          ZeroGetsCloser(out, s);
        }
        u := Next();
      }
    }
  }
}
