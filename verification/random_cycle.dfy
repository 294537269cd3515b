/**
 The generator of star/ds/random.h runs through every seed.  16807 generates the multiplicative group
 modulo 2^31 - 1: its powers for the proper divisors of 2^31 - 2 differ from 1.
 */
module RandomCycle {
  import opened RandomModule

  const PERIOD := M - 1   // 2 * 3 * 3 * 7 * 11 * 31 * 151 * 331

  // ----- Powers -----

  lemma {:induction false} IterateAdd(s: nat, a: nat, b: nat)
    ensures Iterate(Iterate(s, a), b) == Iterate(s, a + b)
  {
    if b > 0 { IterateAdd(s, a, b - 1); }
  }

  lemma ModuloProduct(x: nat, y: nat)
    ensures (x % M) * (y % M) % M == x * y % M
  {
    var a, b, c, d := x / M, x % M, y / M, y % M;
    var q := b * d / M;
    assert x == a * M + b && y == c * M + d && b * d == q * M + b * d % M;
    calc {
      x * y;
      (a * M + b) * (c * M + d);
      a * M * (c * M + d) + b * c * M + b * d;
      (a * (c * M + d) + b * c + q) * M + b * d % M;
    }
    Congruent(x * y, a * (c * M + d) + b * c + q, b * d % M);
  }

  lemma {:induction false} PowerAdd(a: nat, b: nat)
    ensures Power(a + b) == Power(a) * Power(b)
  {
    if b > 0 { PowerAdd(a, b - 1); }
  }

  /** The e-th state after 1. */
  ghost predicate State(e: nat, v: nat) { Iterate(1, e) == v }

  lemma Product(a: nat, b: nat, x: nat, y: nat, z: nat)
    requires State(a, x) && State(b, y) && x * y % M == z
    ensures State(a + b, z)
  {
    IterateIsPower(1, a);
    IterateIsPower(1, b);
    IterateIsPower(1, a + b);
    PowerAdd(a, b);
    ModuloProduct(Power(a), Power(b));
  }

  /** Repeated squaring. */
  lemma Squares()
    ensures State(1, 16807) && State(2, 282475249) && State(4, 984943658) && State(8, 1457850878)
    ensures State(16, 1137522503) && State(32, 1636807826) && State(64, 685118024) && State(128, 515204530)
    ensures State(256, 897054849) && State(512, 2038299453) && State(1024, 1836275591) && State(2048, 349037107)
    ensures State(4096, 149796865) && State(8192, 1186652285) && State(16384, 2106880871) && State(32768, 877809922)
    ensures State(65536, 1682791109) && State(131072, 1900685356) && State(262144, 2080563572) && State(524288, 612544882)
    ensures State(1048576, 1295048709) && State(2097152, 1987420232) && State(4194304, 868966365) && State(8388608, 1331238991)
    ensures State(16777216, 1550655590) && State(33554432, 766698560) && State(67108864, 1154667137) && State(134217728, 901595110)
    ensures State(268435456, 1008653149) && State(536870912, 1821072732) && State(1073741824, 2147466840)
  {
    hide State;
    FirstState();
    Product(1, 1, 16807, 16807, 282475249); Product(2, 2, 282475249, 282475249, 984943658);
    Product(4, 4, 984943658, 984943658, 1457850878); Product(8, 8, 1457850878, 1457850878, 1137522503);
    Product(16, 16, 1137522503, 1137522503, 1636807826); Product(32, 32, 1636807826, 1636807826, 685118024);
    Product(64, 64, 685118024, 685118024, 515204530); Product(128, 128, 515204530, 515204530, 897054849);
    Product(256, 256, 897054849, 897054849, 2038299453); Product(512, 512, 2038299453, 2038299453, 1836275591);
    Product(1024, 1024, 1836275591, 1836275591, 349037107); Product(2048, 2048, 349037107, 349037107, 149796865);
    Product(4096, 4096, 149796865, 149796865, 1186652285); Product(8192, 8192, 1186652285, 1186652285, 2106880871);
    Product(16384, 16384, 2106880871, 2106880871, 877809922); Product(32768, 32768, 877809922, 877809922, 1682791109);
    Product(65536, 65536, 1682791109, 1682791109, 1900685356); Product(131072, 131072, 1900685356, 1900685356, 2080563572);
    Product(262144, 262144, 2080563572, 2080563572, 612544882); Product(524288, 524288, 612544882, 612544882, 1295048709);
    Product(1048576, 1048576, 1295048709, 1295048709, 1987420232); Product(2097152, 2097152, 1987420232, 1987420232, 868966365);
    Product(4194304, 4194304, 868966365, 868966365, 1331238991); Product(8388608, 8388608, 1331238991, 1331238991, 1550655590);
    Product(16777216, 16777216, 1550655590, 1550655590, 766698560); Product(33554432, 33554432, 766698560, 766698560, 1154667137);
    Product(67108864, 67108864, 1154667137, 1154667137, 901595110); Product(134217728, 134217728, 901595110, 901595110, 1008653149);
    Product(268435456, 268435456, 1008653149, 1008653149, 1821072732); Product(536870912, 536870912, 1821072732, 1821072732, 2147466840);
  }

  lemma FirstState()
    ensures State(1, 16807)
  {
    assert Iterate(1, 1) == Successor(Iterate(1, 0));
  }

  lemma Power3()
    ensures State(715827882, 634005911)
  {
    hide State;
    Squares();
    Product(2, 8, 282475249, 1457850878, 2007237709); Product(10, 32, 2007237709, 1636807826, 2110010672);
    Product(42, 128, 2110010672, 515204530, 881140534); Product(170, 512, 881140534, 2038299453, 1987502657);
    Product(682, 2048, 1987502657, 349037107, 1656394764); Product(2730, 8192, 1656394764, 1186652285, 99284761);
    Product(10922, 32768, 99284761, 877809922, 544348633); Product(43690, 131072, 544348633, 1900685356, 1175969859);
    Product(174762, 524288, 1175969859, 612544882, 448035156); Product(699050, 2097152, 448035156, 1987420232, 313625057);
    Product(2796202, 8388608, 313625057, 1331238991, 1401305734); Product(11184810, 33554432, 1401305734, 766698560, 1252779437);
    Product(44739242, 134217728, 1252779437, 901595110, 1695056031); Product(178956970, 536870912, 1695056031, 1821072732, 634005911);
  }

  lemma Power7()
    ensures State(306783378, 1600955193)
  {
    hide State;
    Squares();
    Product(2, 16, 282475249, 1137522503, 16531729); Product(18, 128, 16531729, 515204530, 877819790);
    Product(146, 1024, 877819790, 1836275591, 1973792143); Product(1170, 8192, 1973792143, 1186652285, 1588280530);
    Product(9362, 65536, 1588280530, 1682791109, 713072451); Product(74898, 524288, 713072451, 612544882, 864669998);
    Product(599186, 4194304, 864669998, 868966365, 1089368889); Product(4793490, 33554432, 1089368889, 766698560, 1410082339);
    Product(38347922, 268435456, 1410082339, 1008653149, 1600955193);
  }

  lemma Power11()
    ensures State(195225786, 298192073)
  {
    hide State;
    Squares();
    Product(2, 8, 282475249, 1457850878, 2007237709); Product(10, 16, 2007237709, 1137522503, 1131570933);
    Product(26, 32, 1131570933, 1636807826, 1927702196); Product(58, 128, 1927702196, 515204530, 462242385);
    Product(186, 2048, 462242385, 349037107, 621222764); Product(2234, 8192, 621222764, 1186652285, 1432671743);
    Product(10426, 16384, 1432671743, 2106880871, 904341801); Product(26810, 32768, 904341801, 877809922, 687791678);
    Product(59578, 131072, 687791678, 1900685356, 515678993); Product(190650, 2097152, 515678993, 1987420232, 70230534);
    Product(2287802, 8388608, 70230534, 1331238991, 1922162627); Product(10676410, 16777216, 1922162627, 1550655590, 249105855);
    Product(27453626, 33554432, 249105855, 766698560, 765237990); Product(61008058, 134217728, 765237990, 901595110, 298192073);
  }

  lemma Power31()
    ensures State(69273666, 16384)
  {
    hide State;
    Squares();
    Product(2, 64, 282475249, 685118024, 1060806853); Product(66, 2048, 1060806853, 349037107, 111398400);
    Product(2114, 65536, 111398400, 1682791109, 766345775); Product(67650, 2097152, 766345775, 1987420232, 501934855);
    Product(2164802, 67108864, 501934855, 1154667137, 16384);
  }

  lemma Power151()
    ensures State(14221746, 1013763951)
  {
    hide State;
    Squares();
    Product(2, 16, 282475249, 1137522503, 16531729); Product(18, 32, 16531729, 1636807826, 937186357);
    Product(50, 128, 937186357, 515204530, 290145159); Product(178, 256, 290145159, 897054849, 2119315080);
    Product(434, 65536, 2119315080, 1682791109, 461253127); Product(65970, 524288, 461253127, 612544882, 1419975727);
    Product(590258, 1048576, 1419975727, 1295048709, 2125667626); Product(1638834, 4194304, 2125667626, 868966365, 168128469);
    Product(5833138, 8388608, 168128469, 1331238991, 1013763951);
  }

  lemma Power331()
    ensures State(6487866, 759513457)
  {
    hide State;
    Squares();
    Product(2, 8, 282475249, 1457850878, 2007237709); Product(10, 16, 2007237709, 1137522503, 1131570933);
    Product(26, 32, 1131570933, 1636807826, 1927702196); Product(58, 256, 1927702196, 897054849, 1262696576);
    Product(314, 512, 1262696576, 2038299453, 895063368); Product(826, 1024, 895063368, 1836275591, 2028965134);
    Product(1850, 2048, 2028965134, 349037107, 840788275); Product(3898, 4096, 840788275, 149796865, 1433401925);
    Product(7994, 8192, 1433401925, 1186652285, 369200414); Product(16186, 16384, 369200414, 2106880871, 1576225411);
    Product(32570, 32768, 1576225411, 877809922, 1456949660); Product(65338, 131072, 1456949660, 1900685356, 7693700);
    Product(196410, 2097152, 7693700, 1987420232, 1043837591); Product(2293562, 4194304, 1043837591, 868966365, 759513457);
  }

  lemma StateBefore(e: nat, v: nat, w: nat)
    requires State(e + 1, w) && Seed(v) && Successor(v) == w
    ensures State(e, v)
  {
    IterateIsPower(1, e);
    Injective(Iterate(1, e), v);
  }

  /** Half the period leads to -1, the whole period back to 1. */
  lemma PowerHalf()
    ensures State(1073741823, 2147483646) && State(2147483646, 1)
  {
    hide State;
    Squares();
    StateBefore(1073741823, 2147483646, 2147466840);
    Product(1073741823, 1073741823, 2147483646, 2147483646, 1);
  }

  lemma OtherState(e: nat, v: nat)
    requires State(e, v) && v != 1
    ensures !State(e, 1)
  {
  }

  predicate Factor(p: nat) { p in {2, 3, 7, 11, 31, 151, 331} }

  /** The period divided by one of its prime factors does not lead back to 1. */
  lemma NotOne(p: nat, e: nat)
    requires Factor(p) && p * e == PERIOD
    ensures !State(e, 1)
  {
    hide State;
    if p == 2 { PowerHalf(); OtherState(1073741823, 2147483646); }
    if p == 3 { Power3(); OtherState(715827882, 634005911); }
    if p == 7 { Power7(); OtherState(306783378, 1600955193); }
    if p == 11 { Power11(); OtherState(195225786, 298192073); }
    if p == 31 { Power31(); OtherState(69273666, 16384); }
    if p == 151 { Power151(); OtherState(14221746, 1013763951); }
    if p == 331 { Power331(); OtherState(6487866, 759513457); }
  }

  // ----- Divisors of the period -----

  predicate Prime(p: nat) { p > 1 && forall d :: 2 <= d < p ==> p % d != 0 }

  /** Euclid: a prime that divides q * r, with r below it, divides q. */
  lemma {:induction false} DividesFactor(p: nat, q: int, r: nat, m: int) returns (k: int)
    requires Prime(p) && 0 < r < p && q * r == p * m
    ensures q == p * k
    decreases r
  {
    if r == 1 {
      k := m;
    } else {
      var t, r2 := p / r, p % r;
      assert p == r * t + r2;
      calc {
        q * r2;
        q * (p - r * t);
        q * p - (q * r) * t;
        q * p - (p * m) * t;
        p * (q - m * t);
      }
      k := DividesFactor(p, q, r2, q - m * t);
    }
  }

  /** A divisor of p * k is a multiple of the prime p or divides k. */
  lemma Peel(p: nat, k: nat, q: nat, c: nat) returns (hit: bool, x: nat)
    requires Prime(p) && q > 0 && p * k == q * c
    ensures if hit then q == p * x else k == q * x
  {
    var t, r := c / p, c % p;
    assert c == p * t + r;
    assert q * r == q * c - q * (p * t) == p * (k - q * t);
    if r == 0 {
      hit, x := false, t;
      assert p * (k - q * t) == 0;
    } else {
      var y := DividesFactor(p, q, r, k - q * t);
      assert y < 0 ==> p * y < 0;
      hit, x := true, y;
    }
  }

  /** Every divisor of the period but 1 is a multiple of one of its prime factors. */
  lemma PrimeFactor(q: nat, c: nat) returns (p: nat, x: nat)
    requires q > 1 && q * c == PERIOD
    ensures Factor(p) && q == p * x
  {
    hide Prime;
    Primes();
    var hit;
    p := 2;
    hit, x := Peel(2, 1073741823, q, c);
    if hit { return; }
    p := 3;
    hit, x := Peel(3, 357913941, q, x);
    if hit { return; }
    hit, x := Peel(3, 119304647, q, x);
    if hit { return; }
    p := 7;
    hit, x := Peel(7, 17043521, q, x);
    if hit { return; }
    p := 11;
    hit, x := Peel(11, 1549411, q, x);
    if hit { return; }
    p := 31;
    hit, x := Peel(31, 49981, q, x);
    if hit { return; }
    p := 151;
    hit, x := Peel(151, 331, q, x);
    if hit { return; }
    p := 331;
    hit, x := Peel(331, 1, q, x);
    NoMultiple(q, x);
  }

  lemma Primes()
    ensures Prime(2) && Prime(3) && Prime(7) && Prime(11) && Prime(31) && Prime(151) && Prime(331)
  {
    hide Prime;
    SmallPrimes();
    Prime31();
    Prime151();
    Prime331();
  }

  lemma SmallPrimes() ensures Prime(2) && Prime(3) && Prime(7) && Prime(11) {}
  lemma Prime31() ensures Prime(31) {}
  lemma Prime151() ensures Prime(151) {}
  lemma Prime331() ensures Prime(331) {}

  lemma NoMultiple(q: nat, x: nat)
    requires q > 1
    ensures q * x != 1
  {
  }

  // ----- The order of 16807 -----

  lemma {:induction false} StateTimes(d: nat, k: nat)
    requires State(d, 1)
    ensures State(d * k, 1)
  {
    if k > 0 {
      StateTimes(d, k - 1);
      IterateAdd(1, d * (k - 1), d);
      assert d * (k - 1) + d == d * k;
    }
  }

  /** Two exponents that lead back to 1 have a common divisor that does. */
  lemma {:induction false} CommonDivisor(a: nat, b: nat) returns (d: nat, p: nat, q: nat)
    requires a > 0 && b > 0 && State(a, 1) && State(b, 1)
    ensures d > 0 && State(d, 1) && a == d * p && b == d * q
    decreases a + b
  {
    if a == b {
      d, p, q := a, 1, 1;
    } else if a < b {
      IterateAdd(1, a, b - a);
      d, p, q := CommonDivisor(a, b - a);
      assert d * (p + q) == d * p + d * q;
      q := p + q;
    } else {
      IterateAdd(1, b, a - b);
      d, p, q := CommonDivisor(a - b, b);
      assert d * (p + q) == d * p + d * q;
      p := p + q;
    }
  }

  lemma NoShortPeriod(n: nat)
    requires 0 < n < PERIOD
    ensures !State(n, 1)
  {
    hide State;
    if State(n, 1) {
      PowerHalf();
      var d, m, q := CommonDivisor(n, PERIOD);
      Smaller(d, m, q, n);
      var p, x := PrimeFactor(q, d);
      assert p * (d * x) == PERIOD;
      StateTimes(d, x);
      NotOne(p, d * x);
    }
  }

  lemma Smaller(d: nat, m: nat, q: nat, n: nat)
    requires 0 < n < PERIOD && n == d * m && PERIOD == d * q
    ensures q > 1 && q * d == PERIOD
  {
  }

  // ----- Every seed is reached -----

  lemma {:induction false} Cancel(s: nat, t: nat, a: nat)
    requires Seed(s) && Seed(t) && Iterate(s, a) == Iterate(t, a)
    ensures s == t
  {
    if a > 0 {
      IterateIsPower(s, a - 1);
      IterateIsPower(t, a - 1);
      Injective(Iterate(s, a - 1), Iterate(t, a - 1));
      Cancel(s, t, a - 1);
    }
  }

  /** The first n states after 1. */
  ghost function Orbit(n: nat): set<nat> {
    if n == 0 then {} else Orbit(n - 1) + {Iterate(1, n - 1)}
  }

  ghost function UpTo(n: nat): set<nat> {
    if n == 0 then {} else UpTo(n - 1) + {n}
  }

  lemma {:induction false} InOrbit(n: nat, x: nat)
    ensures x in Orbit(n) <==> exists i: nat :: i < n && State(i, x)
  {
    if n > 0 {
      InOrbit(n - 1, x);
      assert x == Iterate(1, n - 1) <==> State(n - 1, x);
    }
  }

  lemma {:induction false} OrbitSize(n: nat)
    requires n <= PERIOD
    ensures |Orbit(n)| == n
  {
    if n > 0 {
      var last := Iterate(1, n - 1);
      OrbitSize(n - 1);
      InOrbit(n - 1, last);
      if i: nat :| i < n - 1 && State(i, last) {
        IterateAdd(1, n - 1 - i, i);
        IterateIsPower(1, n - 1 - i);
        NoShortPeriod(n - 1 - i);
        Cancel(Iterate(1, n - 1 - i), 1, i);
      }
    }
  }

  lemma {:induction false} UpToSize(n: nat)
    ensures |UpTo(n)| == n && forall x :: x in UpTo(n) <==> 1 <= x <= n
  {
    if n > 0 { UpToSize(n - 1); }
  }

  lemma {:induction false} OrbitBelow(n: nat)
    ensures forall x :: x in Orbit(n) ==> 1 <= x < M
  {
    if n > 0 {
      OrbitBelow(n - 1);
      IterateIsPower(1, n - 1);
    }
  }

  lemma SameSet(a: set<nat>, b: set<nat>)
    requires a <= b && |a| == |b|
    ensures a == b
  {
    assert |b - a| == |b| - |a|;
  }

  /** Every seed is a state after 1. */
  lemma FromOne(t: nat) returns (k: nat)
    requires Seed(t)
    ensures k < PERIOD && State(k, t)
  {
    hide State;
    k := ReachedWithin(t, PERIOD);
  }

  lemma ReachedWithin(t: nat, n: nat) returns (k: nat)
    requires Seed(t) && n == PERIOD
    ensures k < n && State(k, t)
  {
    hide State;
    OrbitSize(n);
    UpToSize(n);
    OrbitBelow(n);
    SameSet(Orbit(n), UpTo(n));
    InOrbit(n, t);
    k :| k < n && State(k, t);
  }

  /** From any seed no state repeats before the whole period is over. */
  lemma NoRepeat(s: nat, n: nat)
    requires Seed(s) && 0 < n < PERIOD
    ensures Iterate(s, n) != s
  {
    var a := FromOne(s);
    IterateAdd(1, a, n);
    IterateAdd(1, n, a);
    IterateIsPower(1, n);
    NoShortPeriod(n);
    if Iterate(s, n) == s { Cancel(Iterate(1, n), 1, a); }
  }

  /** The generator cycles through every seed: from any one, any other comes within the period. */
  lemma FullCycle(s: nat, t: nat) returns (k: nat)
    requires Seed(s) && Seed(t)
    ensures k < PERIOD && Iterate(s, k) == t
  {
    var a := FromOne(s);
    var b := FromOne(t);
    if a <= b {
      k := b - a;
      IterateAdd(1, a, k);
    } else {
      k := PERIOD - a + b;
      IterateAdd(1, a, k);
      WrapAround(b, PERIOD);
    }
  }

  lemma WrapAround(b: nat, n: nat)
    requires n == PERIOD
    ensures Iterate(1, n + b) == Iterate(1, b)
  {
    PowerHalf();
    IterateAdd(1, n, b);
  }
}
