/**
  Where the constants of the hash come from: sections 4.2.2 and 5.3.3 of FIPS 180-4 define them by the
  roots of the first primes.
*/
module Sha256Constants {
  import opened Sha256

  const PRIMES: seq<nat> :=
    ([2, 3, 5, 7, 11, 13, 17, 19, 23, 29, 31, 37, 41, 43, 47, 53]
   + [59, 61, 67, 71, 73, 79, 83, 89, 97, 101, 103, 107, 109, 113, 127, 131])
 + ([137, 139, 149, 151, 157, 163, 167, 173, 179, 181, 191, 193, 197, 199, 211, 223]
   + [227, 229, 233, 239, 241, 251, 257, 263, 269, 271, 277, 281, 283, 293, 307, 311])

  predicate IsPrime(n: nat) {
    n >= 2 && forall d :: 2 <= d < n ==> n % d != 0
  }

  // ---------------------------------------------------------------- the primes

  predicate NoSmallFactor(n: nat) {
    n % 2 != 0 && n % 3 != 0 && n % 5 != 0 && n % 7 != 0 && n % 11 != 0 && n % 13 != 0 && n % 17 != 0
  }

  lemma SmallDivisor(n: nat, d: nat)
    requires 2 <= d < 18 && n % d == 0
    ensures !NoSmallFactor(n)
  {
    if d % 2 == 0 {
      EvenDivisor(n, d);
    } else if d % 3 == 0 {
      ThreefoldDivisor(n, d);
    } else {
      assert d == 5 || d == 7 || d == 11 || d == 13 || d == 17;
    }
  }

  lemma ThreefoldDivisor(n: nat, d: nat)
    requires 2 <= d < 18 && d % 3 == 0 && n % d == 0
    ensures n % 3 == 0
  {
    FactorDivides(n, d, 3);
  }

  lemma EvenDivisor(n: nat, d: nat)
    requires 2 <= d < 18 && d % 2 == 0 && n % d == 0
    ensures n % 2 == 0
  {
    FactorDivides(n, d, 2);
  }

  /** What divides a divisor divides the number. */
  lemma FactorDivides(n: nat, d: nat, f: nat)
    requires d > 0 && f > 0 && d % f == 0 && n % d == 0
    ensures n % f == 0
  {
    var p, q := d / f, n / d;
    assert d == f * p && n == d * q;
    Regroup(f, p, q);
    Cofactor(n, p * q, f);
  }

  lemma Regroup(f: nat, p: nat, q: nat)
    ensures (f * p) * q == (p * q) * f
  {
  }

  /** One factor of a number below 324 is below 18. */
  lemma SomeSmallDivisor(n: nat, d: nat)
    requires 2 <= d < n < 324 && n % d == 0
    ensures !NoSmallFactor(n)
  {
    var e := n / d;
    assert n == d * e;
    if d < 18 {
      SmallDivisor(n, d);
    } else {
      assert e <= 1 ==> d * e <= d;
      if e >= 18 { Products(d, e); }
      Cofactor(n, d, e);
      SmallDivisor(n, e);
    }
  }

  lemma Products(d: nat, e: nat)
    requires d >= 18 && e >= 18
    ensures d * e >= 324
  {
    assert d * e == 18 * 18 + 18 * (e - 18) + (d - 18) * e;
  }

  lemma Cofactor(n: nat, d: nat, e: nat)
    requires n == d * e && e > 0
    ensures n % e == 0
  {
    var q, r := n / e, n % e;
    assert n == e * q + r;
    assert e * (d - q) == r;
    assert d - q >= 1 ==> e * (d - q) >= e;
    assert q - d >= 1 ==> e * (q - d) >= e;
  }

  lemma PrimeExactly(n: nat)
    requires 18 <= n < 324
    ensures IsPrime(n) <==> NoSmallFactor(n)
  {
    if NoSmallFactor(n) {
      forall d | 2 <= d < n ensures n % d != 0 {
        if n % d == 0 { SomeSmallDivisor(n, d); }
      }
    }
  }

  lemma Between18(n: nat)
    requires 18 <= n < 50
    ensures NoSmallFactor(n) <==> n in {19, 23, 29, 31, 37, 41, 43, 47}
  {
  }

  lemma Between50(n: nat)
    requires 50 <= n < 80
    ensures NoSmallFactor(n) <==> n in {53, 59, 61, 67, 71, 73, 79}
  {
  }

  lemma Between80(n: nat)
    requires 80 <= n < 110
    ensures NoSmallFactor(n) <==> n in {83, 89, 97, 101, 103, 107, 109}
  {
  }

  lemma Between110(n: nat)
    requires 110 <= n < 140
    ensures NoSmallFactor(n) <==> n in {113, 127, 131, 137, 139}
  {
  }

  lemma Between140(n: nat)
    requires 140 <= n < 170
    ensures NoSmallFactor(n) <==> n in {149, 151, 157, 163, 167}
  {
  }

  lemma Between170(n: nat)
    requires 170 <= n < 200
    ensures NoSmallFactor(n) <==> n in {173, 179, 181, 191, 193, 197, 199}
  {
  }

  lemma Between200(n: nat)
    requires 200 <= n < 228
    ensures NoSmallFactor(n) <==> n in {211, 223, 227}
  {
  }

  lemma Between228(n: nat)
    requires 228 <= n < 256
    ensures NoSmallFactor(n) <==> n in {229, 233, 239, 241, 251}
  {
  }

  lemma Between256(n: nat)
    requires 256 <= n < 284
    ensures NoSmallFactor(n) <==> n in {257, 263, 269, 271, 277, 281, 283}
  {
  }

  lemma Between284(n: nat)
    requires 284 <= n < 312
    ensures NoSmallFactor(n) <==> n in {293, 307, 311}
  {
  }

  lemma Below18(n: nat)
    requires n < 18
    ensures IsPrime(n) <==> n in {2, 3, 5, 7, 11, 13, 17}
  {
    if n in {4, 6, 8, 10, 12, 14, 16} { assert n % 2 == 0; }
    if n in {9, 15} { assert n % 3 == 0; }
  }

  lemma Row0(n: nat)
    ensures n in PRIMES[0..16] <==> n in {2, 3, 5, 7, 11, 13, 17, 19, 23, 29, 31, 37, 41, 43, 47, 53}
  {
    var row := PRIMES[0..16];
    assert row == [2, 3, 5, 7, 11, 13, 17, 19, 23, 29, 31, 37, 41, 43, 47, 53];
  }

  lemma Row1(n: nat)
    ensures n in PRIMES[16..32] <==> n in {59, 61, 67, 71, 73, 79, 83, 89, 97, 101, 103, 107, 109, 113, 127, 131}
  {
    var row := PRIMES[16..32];
    assert row == [59, 61, 67, 71, 73, 79, 83, 89, 97, 101, 103, 107, 109, 113, 127, 131];
  }

  lemma Row2(n: nat)
    ensures n in PRIMES[32..48] <==> n in {137, 139, 149, 151, 157, 163, 167, 173, 179, 181, 191, 193, 197, 199, 211, 223}
  {
    var row := PRIMES[32..48];
    assert row == [137, 139, 149, 151, 157, 163, 167, 173, 179, 181, 191, 193, 197, 199, 211, 223];
  }

  lemma Row3(n: nat)
    ensures n in PRIMES[48..64] <==> n in {227, 229, 233, 239, 241, 251, 257, 263, 269, 271, 277, 281, 283, 293, 307, 311}
  {
    var row := PRIMES[48..64];
    assert row == [227, 229, 233, 239, 241, 251, 257, 263, 269, 271, 277, 281, 283, 293, 307, 311];
  }

  lemma Listed(n: nat)
    ensures n in PRIMES <==> n in PRIMES[0..16] || n in PRIMES[16..32] || n in PRIMES[32..48] || n in PRIMES[48..64]
  {
    assert PRIMES == PRIMES[0..16] + PRIMES[16..32] + PRIMES[32..48] + PRIMES[48..64];
  }

  /** The list holds exactly the primes up to 311. */
  lemma FirstPrimes(n: nat)
    requires n <= 311
    ensures n in PRIMES <==> IsPrime(n)
  {
    hide IsPrime, NoSmallFactor;
    Listed(n);
    Row0(n);
    Row1(n);
    Row2(n);
    Row3(n);
    if n < 18 { Below18(n); } else { PrimeExactly(n); }
    if 18 <= n < 50 { Between18(n); }
    if 50 <= n < 80 { Between50(n); }
    if 80 <= n < 110 { Between80(n); }
    if 110 <= n < 140 { Between110(n); }
    if 140 <= n < 170 { Between140(n); }
    if 170 <= n < 200 { Between170(n); }
    if 200 <= n < 228 { Between200(n); }
    if 228 <= n < 256 { Between228(n); }
    if 256 <= n < 284 { Between256(n); }
    if 284 <= n < 312 { Between284(n); }
  }

  lemma NextPrime(i: nat)
    requires i < 63
    ensures PRIMES[i] < PRIMES[i + 1]
  {
  }

  /** And it holds them in increasing order, each once. */
  lemma {:induction false} PrimesRise(i: nat, j: nat)
    requires i < j < 64
    ensures |PRIMES| == 64 && PRIMES[i] < PRIMES[j]
  {
    NextPrime(j - 1);
    if i < j - 1 { PrimesRise(i, j - 1); }
  }

  // ---------------------------------------------------------------- the roots

  /** k is the first 32 bits of the fraction of the cube root of p. */
  ghost predicate CubeRootBits(p: nat, k: nat) {
    k < 0x1_0000_0000 && exists whole: nat :: CubeRoot(p, whole * 0x1_0000_0000 + k)
  }

  /** n is the whole part of 2^32 times the cube root of p. */
  predicate CubeRoot(p: nat, n: nat) {
    n * n * n <= p * 0x1_0000_0000_0000_0000_0000_0000 < (n + 1) * (n + 1) * (n + 1)
  }

  ghost predicate SquareRootBits(p: nat, k: nat) {
    k < 0x1_0000_0000 && exists whole: nat :: SquareRoot(p, whole * 0x1_0000_0000 + k)
  }

  predicate SquareRoot(p: nat, n: nat) {
    n * n <= p * 0x1_0000_0000_0000_0000 < (n + 1) * (n + 1)
  }

  function Value(w: Word): nat {
    w as nat
  }

  /** Constant t is what the definition says. */
  ghost predicate Defined(t: nat)
    requires t < 64
  {
    CubeRootBits(PRIMES[t], Value(ROUND_CONSTANTS[t]))
  }

  lemma Cube(t: nat, p: nat, whole: nat, w: Word, k: nat)
    requires t < 64 && PRIMES[t] == p && ROUND_CONSTANTS[t] == w && Value(w) == k
    requires k < 0x1_0000_0000 && CubeRoot(p, whole * 0x1_0000_0000 + k)
    ensures Defined(t)
  {
    hide CubeRoot, Value;
  }

  lemma Cubes0()
    ensures forall t :: 0 <= t < 4 ==> Defined(t)
  {
    hide Defined;
    Cube(0, 2, 1, 0x428a2f98, 0x428a2f98);
    Cube(1, 3, 1, 0x71374491, 0x71374491);
    Cube(2, 5, 1, 0xb5c0fbcf, 0xb5c0fbcf);
    Cube(3, 7, 1, 0xe9b5dba5, 0xe9b5dba5);
  }

  lemma Cubes4()
    ensures forall t :: 4 <= t < 8 ==> Defined(t)
  {
    hide Defined;
    Cube(4, 11, 2, 0x3956c25b, 0x3956c25b);
    Cube(5, 13, 2, 0x59f111f1, 0x59f111f1);
    Cube(6, 17, 2, 0x923f82a4, 0x923f82a4);
    Cube(7, 19, 2, 0xab1c5ed5, 0xab1c5ed5);
  }

  lemma Cubes8()
    ensures forall t :: 8 <= t < 12 ==> Defined(t)
  {
    hide Defined;
    Cube(8, 23, 2, 0xd807aa98, 0xd807aa98);
    Cube(9, 29, 3, 0x12835b01, 0x12835b01);
    Cube(10, 31, 3, 0x243185be, 0x243185be);
    Cube(11, 37, 3, 0x550c7dc3, 0x550c7dc3);
  }

  lemma Cubes12()
    ensures forall t :: 12 <= t < 16 ==> Defined(t)
  {
    hide Defined;
    Cube(12, 41, 3, 0x72be5d74, 0x72be5d74);
    Cube(13, 43, 3, 0x80deb1fe, 0x80deb1fe);
    Cube(14, 47, 3, 0x9bdc06a7, 0x9bdc06a7);
    Cube(15, 53, 3, 0xc19bf174, 0xc19bf174);
  }

  lemma Cubes16()
    ensures forall t :: 16 <= t < 20 ==> Defined(t)
  {
    hide Defined;
    Cube(16, 59, 3, 0xe49b69c1, 0xe49b69c1);
    Cube(17, 61, 3, 0xefbe4786, 0xefbe4786);
    Cube(18, 67, 4, 0x0fc19dc6, 0x0fc19dc6);
    Cube(19, 71, 4, 0x240ca1cc, 0x240ca1cc);
  }

  lemma Cubes20()
    ensures forall t :: 20 <= t < 24 ==> Defined(t)
  {
    hide Defined;
    Cube(20, 73, 4, 0x2de92c6f, 0x2de92c6f);
    Cube(21, 79, 4, 0x4a7484aa, 0x4a7484aa);
    Cube(22, 83, 4, 0x5cb0a9dc, 0x5cb0a9dc);
    Cube(23, 89, 4, 0x76f988da, 0x76f988da);
  }

  lemma Cubes24()
    ensures forall t :: 24 <= t < 28 ==> Defined(t)
  {
    hide Defined;
    Cube(24, 97, 4, 0x983e5152, 0x983e5152);
    Cube(25, 101, 4, 0xa831c66d, 0xa831c66d);
    Cube(26, 103, 4, 0xb00327c8, 0xb00327c8);
    Cube(27, 107, 4, 0xbf597fc7, 0xbf597fc7);
  }

  lemma Cubes28()
    ensures forall t :: 28 <= t < 32 ==> Defined(t)
  {
    hide Defined;
    Cube(28, 109, 4, 0xc6e00bf3, 0xc6e00bf3);
    Cube(29, 113, 4, 0xd5a79147, 0xd5a79147);
    Cube(30, 127, 5, 0x06ca6351, 0x06ca6351);
    Cube(31, 131, 5, 0x14292967, 0x14292967);
  }

  lemma Cubes32()
    ensures forall t :: 32 <= t < 36 ==> Defined(t)
  {
    hide Defined;
    Cube(32, 137, 5, 0x27b70a85, 0x27b70a85);
    Cube(33, 139, 5, 0x2e1b2138, 0x2e1b2138);
    Cube(34, 149, 5, 0x4d2c6dfc, 0x4d2c6dfc);
    Cube(35, 151, 5, 0x53380d13, 0x53380d13);
  }

  lemma Cubes36()
    ensures forall t :: 36 <= t < 40 ==> Defined(t)
  {
    hide Defined;
    Cube(36, 157, 5, 0x650a7354, 0x650a7354);
    Cube(37, 163, 5, 0x766a0abb, 0x766a0abb);
    Cube(38, 167, 5, 0x81c2c92e, 0x81c2c92e);
    Cube(39, 173, 5, 0x92722c85, 0x92722c85);
  }

  lemma Cubes40()
    ensures forall t :: 40 <= t < 44 ==> Defined(t)
  {
    hide Defined;
    Cube(40, 179, 5, 0xa2bfe8a1, 0xa2bfe8a1);
    Cube(41, 181, 5, 0xa81a664b, 0xa81a664b);
    Cube(42, 191, 5, 0xc24b8b70, 0xc24b8b70);
    Cube(43, 193, 5, 0xc76c51a3, 0xc76c51a3);
  }

  lemma Cubes44()
    ensures forall t :: 44 <= t < 48 ==> Defined(t)
  {
    hide Defined;
    Cube(44, 197, 5, 0xd192e819, 0xd192e819);
    Cube(45, 199, 5, 0xd6990624, 0xd6990624);
    Cube(46, 211, 5, 0xf40e3585, 0xf40e3585);
    Cube(47, 223, 6, 0x106aa070, 0x106aa070);
  }

  lemma Cubes48()
    ensures forall t :: 48 <= t < 52 ==> Defined(t)
  {
    hide Defined;
    Cube(48, 227, 6, 0x19a4c116, 0x19a4c116);
    Cube(49, 229, 6, 0x1e376c08, 0x1e376c08);
    Cube(50, 233, 6, 0x2748774c, 0x2748774c);
    Cube(51, 239, 6, 0x34b0bcb5, 0x34b0bcb5);
  }

  lemma Cubes52()
    ensures forall t :: 52 <= t < 56 ==> Defined(t)
  {
    hide Defined;
    Cube(52, 241, 6, 0x391c0cb3, 0x391c0cb3);
    Cube(53, 251, 6, 0x4ed8aa4a, 0x4ed8aa4a);
    Cube(54, 257, 6, 0x5b9cca4f, 0x5b9cca4f);
    Cube(55, 263, 6, 0x682e6ff3, 0x682e6ff3);
  }

  lemma Cubes56()
    ensures forall t :: 56 <= t < 60 ==> Defined(t)
  {
    hide Defined;
    Cube(56, 269, 6, 0x748f82ee, 0x748f82ee);
    Cube(57, 271, 6, 0x78a5636f, 0x78a5636f);
    Cube(58, 277, 6, 0x84c87814, 0x84c87814);
    Cube(59, 281, 6, 0x8cc70208, 0x8cc70208);
  }

  lemma Cubes60()
    ensures forall t :: 60 <= t < 64 ==> Defined(t)
  {
    hide Defined;
    Cube(60, 283, 6, 0x90befffa, 0x90befffa);
    Cube(61, 293, 6, 0xa4506ceb, 0xa4506ceb);
    Cube(62, 307, 6, 0xbef9a3f7, 0xbef9a3f7);
    Cube(63, 311, 6, 0xc67178f2, 0xc67178f2);
  }

  /** The round constants are the first 32 bits of the fractions of the cube roots of the first 64 primes. */
  lemma RoundConstants(t: nat)
    requires t < 64
    ensures CubeRootBits(PRIMES[t], ROUND_CONSTANTS[t] as nat)
  {
    assert Defined(t) by {
      hide Defined;
      Cubes0(); Cubes4(); Cubes8(); Cubes12();
      Cubes16(); Cubes20(); Cubes24(); Cubes28();
      Cubes32(); Cubes36(); Cubes40(); Cubes44();
      Cubes48(); Cubes52(); Cubes56(); Cubes60();
    }
    hide CubeRootBits;
  }

  lemma Square(p: nat, whole: nat, w: Word, k: nat)
    requires w as nat == k && SquareRoot(p, whole * 0x1_0000_0000 + k)
    ensures SquareRootBits(p, w as nat)
  {
    hide SquareRoot;
  }

  /** The initial hash value is made of those of the square roots of the first eight. */
  lemma InitialValue()
    ensures SquareRootBits(2, INITIAL.a as nat)
    ensures SquareRootBits(3, INITIAL.b as nat)
    ensures SquareRootBits(5, INITIAL.c as nat)
    ensures SquareRootBits(7, INITIAL.d as nat)
    ensures SquareRootBits(11, INITIAL.e as nat)
    ensures SquareRootBits(13, INITIAL.f as nat)
    ensures SquareRootBits(17, INITIAL.g as nat)
    ensures SquareRootBits(19, INITIAL.h as nat)
  {
    hide SquareRootBits;
    Square(2, 1, INITIAL.a, 0x6a09e667);
    Square(3, 1, INITIAL.b, 0xbb67ae85);
    Square(5, 2, INITIAL.c, 0x3c6ef372);
    Square(7, 2, INITIAL.d, 0xa54ff53a);
    Square(11, 3, INITIAL.e, 0x510e527f);
    Square(13, 3, INITIAL.f, 0x9b05688c);
    Square(17, 4, INITIAL.g, 0x1f83d9ab);
    Square(19, 4, INITIAL.h, 0x5be0cd19);
  }
}
