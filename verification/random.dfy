/** The multiplicative generator of star/ds/random.h. */
module RandomModule {
  const M := 0x7FFF_FFFF          // 2^31 - 1
  const A := 16807
  const INVERSE := 1407677000     // A * INVERSE == 11017 * M + 1

  predicate Seed(s: int) { 1 <= s < M }

  /** What one call computes, by multiplication. */
  function Successor(s: nat): nat { A * s % M }

  function Predecessor(s: nat): nat { INVERSE * s % M }

  class Random {
    var seed: nat

    /** Bad seeds are replaced. */
    constructor (s: nat)
      ensures Seed(seed)
      ensures Seed(s % (M + 1)) ==> seed == s % (M + 1)
    {
      seed := s % (M + 1);
      if s % (M + 1) == 0 || s % (M + 1) == M {
        seed := 1;
      }
    }

    /** Shift and add instead of a division; the intermediate sum stays within 32 bits. */
    method Next() returns (r: nat)
      requires Seed(seed)
      modifies this
      ensures Seed(seed) && r == seed == Successor(old(seed))
    {
      var product := seed * A;
      ShiftAdd(seed);
      seed := product / (M + 1) + product % (M + 1);
      assert seed < 0x1_0000_0000;
      if seed > M {
        seed := seed - M;
      }
      r := seed;
    }

    method Uniform(n: nat) returns (r: nat)
      requires Seed(seed) && n > 0
      modifies this
      ensures Seed(seed) && seed == Successor(old(seed)) && r == seed % n && r < n
    {
      var x := Next();
      r := x % n;
    }
  }

  lemma Congruent(x: int, k: int, r: int)
    requires x == k * M + r && 0 <= r < M
    ensures x % M == r
  {
  }

  /** A has no factor in common with M: only multiples of M give multiples of M. */
  lemma NotMultiple(s: int, k: int)
    requires 0 <= s < M
    ensures A * s == k * M ==> s == 0
  {
    assert A * INVERSE == 11017 * M + 1;
    if A * s == k * M {
      var q := k * INVERSE - 11017 * s;
      calc {
        s;
        A * INVERSE * s - 11017 * M * s;
        A * s * INVERSE - 11017 * M * s;
        k * M * INVERSE - 11017 * M * s;
        M * q;
      }
      assert q >= 1 ==> M * q >= M;
      assert q <= 0 ==> M * q <= 0;
    }
  }

  /** The high and low parts of the product add up to its remainder, or to that plus M, never to M itself. */
  lemma ShiftAdd(s: nat)
    requires Seed(s)
    ensures
      var p := s * A;
      var sum := p / (M + 1) + p % (M + 1);
      && sum < 2 * M && sum != M
      && Successor(s) == (if sum > M then sum - M else sum) && Seed(Successor(s))
  {
    var p := s * A;
    var hi, lo := p / (M + 1), p % (M + 1);
    assert p == hi * M + (hi + lo);
    assert hi <= A;
    NotMultiple(s, hi + 1);
    NotMultiple(s, hi);
    Congruent(p, if hi + lo > M then hi + 1 else hi, if hi + lo > M then hi + lo - M else hi + lo);
  }

  /** Each step can be undone, so no two seeds have the same successor. */
  lemma StepInverts(s: nat)
    requires Seed(s)
    ensures Predecessor(Successor(s)) == s
  {
    var k := A * s / M;
    var r := Successor(s);
    assert A * s == k * M + r;
    var q := 11017 * s - INVERSE * k;
    calc {
      INVERSE * r;
      INVERSE * (A * s - k * M);
      A * INVERSE * s - INVERSE * k * M;
      (11017 * M + 1) * s - INVERSE * k * M;
      q * M + s;
    }
    Congruent(INVERSE * r, q, s);
  }

  lemma Injective(s: nat, t: nat)
    requires Seed(s) && Seed(t) && Successor(s) == Successor(t)
    ensures s == t
  {
    StepInverts(s);
    StepInverts(t);
  }

  function Iterate(s: nat, n: nat): nat {
    if n == 0 then s else Successor(Iterate(s, n - 1))
  }

  function Power(n: nat): nat { if n == 0 then 1 else A * Power(n - 1) }

  /** After any number of calls the state is a legal seed: the n-th power of A times the first one, modulo M. */
  lemma {:induction false} IterateIsPower(s: nat, n: nat)
    requires Seed(s)
    ensures Seed(Iterate(s, n)) && Iterate(s, n) == Power(n) * s % M
  {
    if n > 0 {
      IterateIsPower(s, n - 1);
      var before, p := Iterate(s, n - 1), Power(n - 1) * s;
      ShiftAdd(before);
      ProductModulo(p, before);
      NextPower(s, n);
    }
  }

  lemma NextPower(s: nat, n: nat)
    requires n > 0
    ensures Power(n) * s == A * (Power(n - 1) * s)
  {
  }

  lemma ProductModulo(p: nat, r: nat)
    requires r == p % M && Seed(r)
    ensures A * p % M == Successor(r)
  {
    var k, j := p / M, A * r / M;
    assert p == k * M + r && A * r == j * M + Successor(r);
    calc {
      A * p;
      A * (k * M + r);
      A * k * M + A * r;
      (A * k + j) * M + Successor(r);
    }
    Congruent(A * p, A * k + j, Successor(r));
  }
}
