/** What the constants and the bit functions of SHA-256 are, independently of the tables and
    expressions in include/infrastructure/sha256.hpp, and the standard's one-block example. */
module Sha256Laws {
  import opened Bytes
  import opened Sha256

  // ---------------------------------------------------------------------------------------
  // The sigmas, bit by bit
  // ---------------------------------------------------------------------------------------

  /** Bit `i` of a word, counted from the least significant. */
  predicate Bit(x: bv32, i: bv32)
    requires i < 32
  {
    (x >> i) & 1 == 1
  }

  /** Bit `i + n`, counting on from the lowest bit again after the highest. */
  predicate Around(x: bv32, i: bv32, n: bv32)
    requires i < 32 && n < 32
  {
    Bit(x, (i + n) & 31)
  }

  /** Bit `i` of the exclusive or of three words. */
  predicate OddBit(x: bv32, y: bv32, z: bv32, i: bv32)
    requires i < 32
  {
    ((x ^ y ^ z) >> i) & 1 == 1
  }

  lemma OddBitCounts(x: bv32, y: bv32, z: bv32, i: bv32)
    requires i < 32
    ensures OddBit(x, y, z, i) == ((Bit(x, i) != Bit(y, i)) != Bit(z, i))
  {
  }

  function Xor(x: bv32, y: bv32, z: bv32): bv32 { x ^ y ^ z }

  lemma XorOdd(x: bv32, y: bv32, z: bv32, i: bv32)
    requires i < 32
    ensures Bit(Xor(x, y, z), i) == OddBit(x, y, z, i)
  {
  }

  lemma XorBits(x: bv32, y: bv32, z: bv32, i: bv32)
    requires i < 32
    ensures Bit(Xor(x, y, z), i) == ((Bit(x, i) != Bit(y, i)) != Bit(z, i))
  {
    hide Bit, Xor, OddBit;
    XorOdd(x, y, z, i);
    OddBitCounts(x, y, z, i);
  }

  lemma Turn2(x: bv32, i: bv32)
    requires i < 32
    ensures Bit(Rotr(x, 2), i) == Around(x, i, 2)
  {
  }

  lemma Turn6(x: bv32, i: bv32)
    requires i < 32
    ensures Bit(Rotr(x, 6), i) == Around(x, i, 6)
  {
  }

  lemma Turn7(x: bv32, i: bv32)
    requires i < 32
    ensures Bit(Rotr(x, 7), i) == Around(x, i, 7)
  {
  }

  lemma Turn11(x: bv32, i: bv32)
    requires i < 32
    ensures Bit(Rotr(x, 11), i) == Around(x, i, 11)
  {
  }

  lemma Turn13(x: bv32, i: bv32)
    requires i < 32
    ensures Bit(Rotr(x, 13), i) == Around(x, i, 13)
  {
  }

  lemma Turn17(x: bv32, i: bv32)
    requires i < 32
    ensures Bit(Rotr(x, 17), i) == Around(x, i, 17)
  {
  }

  lemma Turn18(x: bv32, i: bv32)
    requires i < 32
    ensures Bit(Rotr(x, 18), i) == Around(x, i, 18)
  {
  }

  lemma Turn19(x: bv32, i: bv32)
    requires i < 32
    ensures Bit(Rotr(x, 19), i) == Around(x, i, 19)
  {
  }

  lemma Turn22(x: bv32, i: bv32)
    requires i < 32
    ensures Bit(Rotr(x, 22), i) == Around(x, i, 22)
  {
  }

  lemma Turn25(x: bv32, i: bv32)
    requires i < 32
    ensures Bit(Rotr(x, 25), i) == Around(x, i, 25)
  {
  }

  lemma Shift3(x: bv32, i: bv32)
    requires i < 32
    ensures Bit(x >> 3, i) == (i < 29 && Around(x, i, 3))
  {
  }

  lemma Shift10(x: bv32, i: bv32)
    requires i < 32
    ensures Bit(x >> 10, i) == (i < 22 && Around(x, i, 10))
  {
  }

  lemma BSig0Parts(x: bv32)
    ensures BSig0(x) == Xor(Rotr(x, 2), Rotr(x, 13), Rotr(x, 22))
  {
    hide Rotr;
  }

  /** Equation 4.4 of FIPS 180-4: which bits of the argument make up each bit of the result. */
  lemma BSig0Bits(x: bv32, i: bv32)
    requires i < 32
    ensures Bit(BSig0(x), i) == ((Around(x, i, 2) != Around(x, i, 13)) != Around(x, i, 22))
  {
    hide Bit, Around, Rotr, Xor, BSig0;
    BSig0Parts(x);
    XorBits(Rotr(x, 2), Rotr(x, 13), Rotr(x, 22), i);
    Turn2(x, i);
    Turn13(x, i);
    Turn22(x, i);
  }

  lemma BSig1Parts(x: bv32)
    ensures BSig1(x) == Xor(Rotr(x, 6), Rotr(x, 11), Rotr(x, 25))
  {
    hide Rotr;
  }

  /** Equation 4.5 of FIPS 180-4: which bits of the argument make up each bit of the result. */
  lemma BSig1Bits(x: bv32, i: bv32)
    requires i < 32
    ensures Bit(BSig1(x), i) == ((Around(x, i, 6) != Around(x, i, 11)) != Around(x, i, 25))
  {
    hide Bit, Around, Rotr, Xor, BSig1;
    BSig1Parts(x);
    XorBits(Rotr(x, 6), Rotr(x, 11), Rotr(x, 25), i);
    Turn6(x, i);
    Turn11(x, i);
    Turn25(x, i);
  }

  lemma SSig0Parts(x: bv32)
    ensures SSig0(x) == Xor(Rotr(x, 7), Rotr(x, 18), x >> 3)
  {
    hide Rotr;
  }

  /** Equation 4.6 of FIPS 180-4: which bits of the argument make up each bit of the result. */
  lemma SSig0Bits(x: bv32, i: bv32)
    requires i < 32
    ensures Bit(SSig0(x), i) == ((Around(x, i, 7) != Around(x, i, 18)) != (i < 29 && Around(x, i, 3)))
  {
    hide Bit, Around, Rotr, Xor, SSig0;
    SSig0Parts(x);
    XorBits(Rotr(x, 7), Rotr(x, 18), x >> 3, i);
    Turn7(x, i);
    Turn18(x, i);
    Shift3(x, i);
  }

  lemma SSig1Parts(x: bv32)
    ensures SSig1(x) == Xor(Rotr(x, 17), Rotr(x, 19), x >> 10)
  {
    hide Rotr;
  }

  /** Equation 4.7 of FIPS 180-4: which bits of the argument make up each bit of the result. */
  lemma SSig1Bits(x: bv32, i: bv32)
    requires i < 32
    ensures Bit(SSig1(x), i) == ((Around(x, i, 17) != Around(x, i, 19)) != (i < 22 && Around(x, i, 10)))
  {
    hide Bit, Around, Rotr, Xor, SSig1;
    SSig1Parts(x);
    XorBits(Rotr(x, 17), Rotr(x, 19), x >> 10, i);
    Turn17(x, i);
    Turn19(x, i);
    Shift10(x, i);
  }

  // ---------------------------------------------------------------------------------------
  // The constants come from primes
  // ---------------------------------------------------------------------------------------

  predicate IsPrime(n: nat)
  {
    n >= 2 && forall k :: 2 <= k < n ==> n % k != 0
  }

  /** One of the first seven primes divides `n` and is less. */
  predicate Factored(n: nat)
  {
    || (2 < n && n % 2 == 0) || (3 < n && n % 3 == 0) || (5 < n && n % 5 == 0) || (7 < n && n % 7 == 0)
    || (11 < n && n % 11 == 0) || (13 < n && n % 13 == 0) || (17 < n && n % 17 == 0)
  }

  lemma NoRest(n: nat, d: nat, k: nat)
    requires d > 0 && n == d * k
    ensures n % d == 0
  {
    var q, r := n / d, n % d;
    assert n == d * q + r;
    assert d * (k - q) == d * k - d * q == r;
    assert k - q >= 1 ==> d * (k - q) >= d;
    assert k - q <= -1 ==> d * (k - q) + d <= 0;
  }

  /** What divides a factor divides the number. */
  lemma Through(n: nat, j: nat, l: nat, d: nat, h: nat)
    requires d > 0 && n == j * l && j == d * h
    ensures n % d == 0
  {
    assert (d * h) * l == d * (h * l);
    NoRest(n, d, h * l);
  }

  /** A factor of at most 18 is a multiple of one of them. */
  lemma SmallFactor(n: nat, j: nat, l: nat)
    requires 2 <= j <= 18 < n && n == j * l
    ensures Factored(n)
  {
    if j % 2 == 0 {
      Through(n, j, l, 2, j / 2);
    } else if j % 3 == 0 {
      Through(n, j, l, 3, j / 3);
    } else {
      NoRest(n, j, l);
      assert j == 5 || j == 7 || j == 11 || j == 13 || j == 17;
    }
  }

  /** Of two factors of a number below 361 one is at most 18, and the other is a proper one. */
  lemma OneIsSmall(n: nat, k: nat, m: nat)
    requires n == k * m && 18 < k < n < 361
    ensures 2 <= m <= 18
  {
    assert m > 18 ==> k * m >= k * 19;
    assert m <= 1 ==> k * m <= k;
  }

  lemma SmallPrimes(n: nat)
    requires 2 <= n < 361
    ensures IsPrime(n) <==> !Factored(n)
  {
    if n > 18 {
      if !IsPrime(n) {
        LargerPrimes(n);
      }
    } else {
      TinyPrimes(n);
    }
  }

  lemma LargerPrimes(n: nat)
    requires 18 < n < 361 && !IsPrime(n)
    ensures Factored(n)
  {
    hide Factored;
    var k :| 2 <= k < n && n % k == 0;
    var m := n / k;
    assert n == k * m;
    if k <= 18 {
      SmallFactor(n, k, m);
    } else {
      OneIsSmall(n, k, m);
      SmallFactor(n, m, k);
    }
  }

  lemma TinyPrimes(n: nat)
    requires 2 <= n <= 18
    ensures IsPrime(n) <==> n in {2, 3, 5, 7, 11, 13, 17}
    ensures Factored(n) <==> n !in {2, 3, 5, 7, 11, 13, 17}
  {
  }

  /** Two primes with none in between. */
  ghost predicate Consecutive(p: nat, q: nat)
  {
    p < q && IsPrime(p) && IsPrime(q) && forall m :: p < m < q ==> !IsPrime(m)
  }

  /** `d` divides `n` and is neither 1 nor `n`. */
  predicate Splits(n: nat, d: nat)
  {
    1 < d < n && n % d == 0
  }

  /** From one odd prime to the next: every odd number in between comes with a divisor. */
  lemma NextPrime(p: nat, q: nat, d2: nat := 0, d4: nat := 0, d6: nat := 0, d8: nat := 0, d10: nat := 0, d12: nat := 0)
    requires 2 <= p < q < 361 && q <= p + 14 && !Factored(p) && !Factored(q) && (p % 2 == 1 || q == 3)
    requires q - p > 2 ==> Splits(p + 2, d2)
    requires q - p > 4 ==> Splits(p + 4, d4)
    requires q - p > 6 ==> Splits(p + 6, d6)
    requires q - p > 8 ==> Splits(p + 8, d8)
    requires q - p > 10 ==> Splits(p + 10, d10)
    requires q - p > 12 ==> Splits(p + 12, d12)
    ensures Consecutive(p, q)
  {
    hide Factored;
    SmallPrimes(p);
    SmallPrimes(q);
    forall m | p < m < q ensures !IsPrime(m) {
      if m % 2 == 0 {
        assert Splits(m, 2);
      } else {
        assert m - p == 2 || m - p == 4 || m - p == 6 || m - p == 8 || m - p == 10 || m - p == 12;
      }
    }
  }

  function Prime0(t: nat): nat
    requires t < 16
  {
    match t
    case 0 => 2 case 1 => 3 case 2 => 5 case 3 => 7 case 4 => 11 case 5 => 13 case 6 => 17 case 7 => 19
    case 8 => 23 case 9 => 29 case 10 => 31 case 11 => 37 case 12 => 41 case 13 => 43 case 14 => 47 case _ => 53
  }

  function Prime1(t: nat): nat
    requires t < 16
  {
    match t
    case 0 => 59 case 1 => 61 case 2 => 67 case 3 => 71 case 4 => 73 case 5 => 79 case 6 => 83 case 7 => 89
    case 8 => 97 case 9 => 101 case 10 => 103 case 11 => 107 case 12 => 109 case 13 => 113 case 14 => 127 case _ => 131
  }

  function Prime2(t: nat): nat
    requires t < 16
  {
    match t
    case 0 => 137 case 1 => 139 case 2 => 149 case 3 => 151 case 4 => 157 case 5 => 163 case 6 => 167 case 7 => 173
    case 8 => 179 case 9 => 181 case 10 => 191 case 11 => 193 case 12 => 197 case 13 => 199 case 14 => 211 case _ => 223
  }

  function Prime3(t: nat): nat
    requires t < 16
  {
    match t
    case 0 => 227 case 1 => 229 case 2 => 233 case 3 => 239 case 4 => 241 case 5 => 251 case 6 => 257 case 7 => 263
    case 8 => 269 case 9 => 271 case 10 => 277 case 11 => 281 case 12 => 283 case 13 => 293 case 14 => 307 case _ => 311
  }

  /** The first 64 primes, in quarters. */
  function Prime(t: nat): nat
    requires t < 64
  {
    if t < 16 then Prime0(t) else if t < 32 then Prime1(t - 16) else if t < 48 then Prime2(t - 32) else Prime3(t - 48)
  }

  /** The integer part of the cube root. */
  function CubeRoot(p: nat): nat
  {
    if p < 8 then 1 else if p < 27 then 2 else if p < 64 then 3 else if p < 125 then 4 else if p < 216 then 5 else 6
  }

  function SquareRoot(p: nat): nat
  {
    if p < 4 then 1 else if p < 9 then 2 else if p < 16 then 3 else 4
  }

  lemma WholeRoots(p: nat)
    ensures 1 <= p < 343 ==> var a := CubeRoot(p); a * a * a <= p < (a + 1) * (a + 1) * (a + 1)
    ensures 1 <= p < 25 ==> var a := SquareRoot(p); a * a <= p < (a + 1) * (a + 1)
  {
  }

  /** `k` holds the first 32 bits after the point of the cube root of `p`, whose whole part is `a`. */
  predicate CubeRootBits(a: nat, p: nat, k: int)
  {
    var x := a * 0x1_0000_0000 + k;
    x * x * x <= p * 0x1_0000_0000_0000_0000_0000_0000 < (x + 1) * (x + 1) * (x + 1)
  }

  predicate SquareRootBits(a: nat, p: nat, k: int)
  {
    var x := a * 0x1_0000_0000 + k;
    x * x <= p * 0x1_0000_0000_0000_0000 < (x + 1) * (x + 1)
  }

  /** The constant of round `t` is the one section 4.2.2 of FIPS 180-4 derives from prime `t`. */
  predicate Derived(t: nat)
    requires t < 64
  {
    CubeRootBits(CubeRoot(Prime(t)), Prime(t), K(t) as int)
  }

  lemma Primes0()
    ensures Consecutive(Prime(0), Prime(1)) && Consecutive(Prime(1), Prime(2)) && Consecutive(Prime(2), Prime(3)) && Consecutive(Prime(3), Prime(4)) && Consecutive(Prime(4), Prime(5)) && Consecutive(Prime(5), Prime(6)) && Consecutive(Prime(6), Prime(7)) && Consecutive(Prime(7), Prime(8))
  {
    hide Consecutive;
    NextPrime(2, 3);
    NextPrime(3, 5);
    NextPrime(5, 7);
    NextPrime(7, 11, 3);
    NextPrime(11, 13);
    NextPrime(13, 17, 3);
    NextPrime(17, 19);
    NextPrime(19, 23, 3);
  }

  lemma Cubes0()
    ensures CubeRootBits(1, 2, 0x428a2f98)
    ensures CubeRootBits(1, 3, 0x71374491)
    ensures CubeRootBits(1, 5, 0xb5c0fbcf)
    ensures CubeRootBits(1, 7, 0xe9b5dba5)
    ensures CubeRootBits(2, 11, 0x3956c25b)
    ensures CubeRootBits(2, 13, 0x59f111f1)
    ensures CubeRootBits(2, 17, 0x923f82a4)
    ensures CubeRootBits(2, 19, 0xab1c5ed5)
  {
  }

  lemma Constants0()
    ensures Derived(0) && Derived(1) && Derived(2) && Derived(3) && Derived(4) && Derived(5) && Derived(6) && Derived(7)
  {
    hide CubeRootBits;
    Cubes0();
  }

  lemma Primes1()
    ensures Consecutive(Prime(8), Prime(9)) && Consecutive(Prime(9), Prime(10)) && Consecutive(Prime(10), Prime(11)) && Consecutive(Prime(11), Prime(12)) && Consecutive(Prime(12), Prime(13)) && Consecutive(Prime(13), Prime(14)) && Consecutive(Prime(14), Prime(15)) && Consecutive(Prime(15), Prime(16))
  {
    hide Consecutive;
    NextPrime(23, 29, 5, 3);
    NextPrime(29, 31);
    NextPrime(31, 37, 3, 5);
    NextPrime(37, 41, 3);
    NextPrime(41, 43);
    NextPrime(43, 47, 3);
    NextPrime(47, 53, 7, 3);
    NextPrime(53, 59, 5, 3);
  }

  lemma Cubes1()
    ensures CubeRootBits(2, 23, 0xd807aa98)
    ensures CubeRootBits(3, 29, 0x12835b01)
    ensures CubeRootBits(3, 31, 0x243185be)
    ensures CubeRootBits(3, 37, 0x550c7dc3)
    ensures CubeRootBits(3, 41, 0x72be5d74)
    ensures CubeRootBits(3, 43, 0x80deb1fe)
    ensures CubeRootBits(3, 47, 0x9bdc06a7)
    ensures CubeRootBits(3, 53, 0xc19bf174)
  {
  }

  lemma Constants1()
    ensures Derived(8) && Derived(9) && Derived(10) && Derived(11) && Derived(12) && Derived(13) && Derived(14) && Derived(15)
  {
    hide CubeRootBits;
    Cubes1();
  }

  lemma Primes2()
    ensures Consecutive(Prime(16), Prime(17)) && Consecutive(Prime(17), Prime(18)) && Consecutive(Prime(18), Prime(19)) && Consecutive(Prime(19), Prime(20)) && Consecutive(Prime(20), Prime(21)) && Consecutive(Prime(21), Prime(22)) && Consecutive(Prime(22), Prime(23)) && Consecutive(Prime(23), Prime(24))
  {
    hide Consecutive;
    NextPrime(59, 61);
    NextPrime(61, 67, 3, 5);
    NextPrime(67, 71, 3);
    NextPrime(71, 73);
    NextPrime(73, 79, 3, 7);
    NextPrime(79, 83, 3);
    NextPrime(83, 89, 5, 3);
    NextPrime(89, 97, 7, 3, 5);
  }

  lemma Cubes2()
    ensures CubeRootBits(3, 59, 0xe49b69c1)
    ensures CubeRootBits(3, 61, 0xefbe4786)
    ensures CubeRootBits(4, 67, 0x0fc19dc6)
    ensures CubeRootBits(4, 71, 0x240ca1cc)
    ensures CubeRootBits(4, 73, 0x2de92c6f)
    ensures CubeRootBits(4, 79, 0x4a7484aa)
    ensures CubeRootBits(4, 83, 0x5cb0a9dc)
    ensures CubeRootBits(4, 89, 0x76f988da)
  {
  }

  lemma Constants2()
    ensures Derived(16) && Derived(17) && Derived(18) && Derived(19) && Derived(20) && Derived(21) && Derived(22) && Derived(23)
  {
    hide CubeRootBits;
    Cubes2();
  }

  lemma Primes3()
    ensures Consecutive(Prime(24), Prime(25)) && Consecutive(Prime(25), Prime(26)) && Consecutive(Prime(26), Prime(27)) && Consecutive(Prime(27), Prime(28)) && Consecutive(Prime(28), Prime(29)) && Consecutive(Prime(29), Prime(30)) && Consecutive(Prime(30), Prime(31)) && Consecutive(Prime(31), Prime(32))
  {
    hide Consecutive;
    NextPrime(97, 101, 3);
    NextPrime(101, 103);
    NextPrime(103, 107, 3);
    NextPrime(107, 109);
    NextPrime(109, 113, 3);
    NextPrime(113, 127, 5, 3, 7, 11, 3, 5);
    NextPrime(127, 131, 3);
    NextPrime(131, 137, 7, 3);
  }

  lemma Cubes3()
    ensures CubeRootBits(4, 97, 0x983e5152)
    ensures CubeRootBits(4, 101, 0xa831c66d)
    ensures CubeRootBits(4, 103, 0xb00327c8)
    ensures CubeRootBits(4, 107, 0xbf597fc7)
    ensures CubeRootBits(4, 109, 0xc6e00bf3)
    ensures CubeRootBits(4, 113, 0xd5a79147)
    ensures CubeRootBits(5, 127, 0x06ca6351)
    ensures CubeRootBits(5, 131, 0x14292967)
  {
  }

  lemma Constants3()
    ensures Derived(24) && Derived(25) && Derived(26) && Derived(27) && Derived(28) && Derived(29) && Derived(30) && Derived(31)
  {
    hide CubeRootBits;
    Cubes3();
  }

  lemma Primes4()
    ensures Consecutive(Prime(32), Prime(33)) && Consecutive(Prime(33), Prime(34)) && Consecutive(Prime(34), Prime(35)) && Consecutive(Prime(35), Prime(36)) && Consecutive(Prime(36), Prime(37)) && Consecutive(Prime(37), Prime(38)) && Consecutive(Prime(38), Prime(39)) && Consecutive(Prime(39), Prime(40))
  {
    hide Consecutive;
    NextPrime(137, 139);
    NextPrime(139, 149, 3, 11, 5, 3);
    NextPrime(149, 151);
    NextPrime(151, 157, 3, 5);
    NextPrime(157, 163, 3, 7);
    NextPrime(163, 167, 3);
    NextPrime(167, 173, 13, 3);
    NextPrime(173, 179, 5, 3);
  }

  lemma Cubes4()
    ensures CubeRootBits(5, 137, 0x27b70a85)
    ensures CubeRootBits(5, 139, 0x2e1b2138)
    ensures CubeRootBits(5, 149, 0x4d2c6dfc)
    ensures CubeRootBits(5, 151, 0x53380d13)
    ensures CubeRootBits(5, 157, 0x650a7354)
    ensures CubeRootBits(5, 163, 0x766a0abb)
    ensures CubeRootBits(5, 167, 0x81c2c92e)
    ensures CubeRootBits(5, 173, 0x92722c85)
  {
  }

  lemma Constants4()
    ensures Derived(32) && Derived(33) && Derived(34) && Derived(35) && Derived(36) && Derived(37) && Derived(38) && Derived(39)
  {
    hide CubeRootBits;
    Cubes4();
  }

  lemma Primes5()
    ensures Consecutive(Prime(40), Prime(41)) && Consecutive(Prime(41), Prime(42)) && Consecutive(Prime(42), Prime(43)) && Consecutive(Prime(43), Prime(44)) && Consecutive(Prime(44), Prime(45)) && Consecutive(Prime(45), Prime(46)) && Consecutive(Prime(46), Prime(47)) && Consecutive(Prime(47), Prime(48))
  {
    hide Consecutive;
    NextPrime(179, 181);
    NextPrime(181, 191, 3, 5, 11, 3);
    NextPrime(191, 193);
    NextPrime(193, 197, 3);
    NextPrime(197, 199);
    NextPrime(199, 211, 3, 7, 5, 3, 11);
    NextPrime(211, 223, 3, 5, 7, 3, 13);
    NextPrime(223, 227, 3);
  }

  lemma Cubes5()
    ensures CubeRootBits(5, 179, 0xa2bfe8a1)
    ensures CubeRootBits(5, 181, 0xa81a664b)
    ensures CubeRootBits(5, 191, 0xc24b8b70)
    ensures CubeRootBits(5, 193, 0xc76c51a3)
    ensures CubeRootBits(5, 197, 0xd192e819)
    ensures CubeRootBits(5, 199, 0xd6990624)
    ensures CubeRootBits(5, 211, 0xf40e3585)
    ensures CubeRootBits(6, 223, 0x106aa070)
  {
  }

  lemma Constants5()
    ensures Derived(40) && Derived(41) && Derived(42) && Derived(43) && Derived(44) && Derived(45) && Derived(46) && Derived(47)
  {
    hide CubeRootBits;
    Cubes5();
  }

  lemma Primes6()
    ensures Consecutive(Prime(48), Prime(49)) && Consecutive(Prime(49), Prime(50)) && Consecutive(Prime(50), Prime(51)) && Consecutive(Prime(51), Prime(52)) && Consecutive(Prime(52), Prime(53)) && Consecutive(Prime(53), Prime(54)) && Consecutive(Prime(54), Prime(55)) && Consecutive(Prime(55), Prime(56))
  {
    hide Consecutive;
    NextPrime(227, 229);
    NextPrime(229, 233, 3);
    NextPrime(233, 239, 5, 3);
    NextPrime(239, 241);
    NextPrime(241, 251, 3, 5, 13, 3);
    NextPrime(251, 257, 11, 3);
    NextPrime(257, 263, 7, 3);
    NextPrime(263, 269, 5, 3);
  }

  lemma Cubes6()
    ensures CubeRootBits(6, 227, 0x19a4c116)
    ensures CubeRootBits(6, 229, 0x1e376c08)
    ensures CubeRootBits(6, 233, 0x2748774c)
    ensures CubeRootBits(6, 239, 0x34b0bcb5)
    ensures CubeRootBits(6, 241, 0x391c0cb3)
    ensures CubeRootBits(6, 251, 0x4ed8aa4a)
    ensures CubeRootBits(6, 257, 0x5b9cca4f)
    ensures CubeRootBits(6, 263, 0x682e6ff3)
  {
  }

  lemma Constants6()
    ensures Derived(48) && Derived(49) && Derived(50) && Derived(51) && Derived(52) && Derived(53) && Derived(54) && Derived(55)
  {
    hide CubeRootBits;
    Cubes6();
  }

  lemma Primes7()
    ensures Consecutive(Prime(56), Prime(57)) && Consecutive(Prime(57), Prime(58)) && Consecutive(Prime(58), Prime(59)) && Consecutive(Prime(59), Prime(60)) && Consecutive(Prime(60), Prime(61)) && Consecutive(Prime(61), Prime(62)) && Consecutive(Prime(62), Prime(63))
  {
    hide Consecutive;
    NextPrime(269, 271);
    NextPrime(271, 277, 3, 5);
    NextPrime(277, 281, 3);
    NextPrime(281, 283);
    NextPrime(283, 293, 3, 7, 17, 3);
    NextPrime(293, 307, 5, 3, 13, 7, 3, 5);
    NextPrime(307, 311, 3);
  }

  lemma Cubes7()
    ensures CubeRootBits(6, 269, 0x748f82ee)
    ensures CubeRootBits(6, 271, 0x78a5636f)
    ensures CubeRootBits(6, 277, 0x84c87814)
    ensures CubeRootBits(6, 281, 0x8cc70208)
    ensures CubeRootBits(6, 283, 0x90befffa)
    ensures CubeRootBits(6, 293, 0xa4506ceb)
    ensures CubeRootBits(6, 307, 0xbef9a3f7)
    ensures CubeRootBits(6, 311, 0xc67178f2)
  {
  }

  lemma Constants7()
    ensures Derived(56) && Derived(57) && Derived(58) && Derived(59) && Derived(60) && Derived(61) && Derived(62) && Derived(63)
  {
    hide CubeRootBits;
    Cubes7();
  }

  /** The table holds the first 64 primes: it starts with 2 and skips none. */
  lemma FirstPrimes(t: nat)
    requires t < 63
    ensures Prime(0) == 2 && Consecutive(Prime(t), Prime(t + 1))
  {
    assert Prime(0) == 2;
    hide Consecutive, Prime;
    if t < 8 {
      Primes0();
    } else if t < 16 {
      Primes1();
    } else if t < 24 {
      Primes2();
    } else if t < 32 {
      Primes3();
    } else if t < 40 {
      Primes4();
    } else if t < 48 {
      Primes5();
    } else if t < 56 {
      Primes6();
    } else {
      Primes7();
    }
  }

  /** Section 4.2.2 of FIPS 180-4: every round constant holds the first 32 bits of the fractional
      part of the cube root of its prime. */
  lemma RoundConstants(t: nat)
    requires t < 64
    ensures Derived(t)
  {
    hide Derived;
    if t < 8 {
      Constants0();
    } else if t < 16 {
      Constants1();
    } else if t < 24 {
      Constants2();
    } else if t < 32 {
      Constants3();
    } else if t < 40 {
      Constants4();
    } else if t < 48 {
      Constants5();
    } else if t < 56 {
      Constants6();
    } else {
      Constants7();
    }
  }

  /** Section 5.3.3: the initial hash value holds the fractional parts of the square roots of the
      first eight primes. */
  lemma InitialWords()
    ensures SquareRootBits(SquareRoot(Prime(0)), Prime(0), INITIAL.a as int) && SquareRootBits(SquareRoot(Prime(1)), Prime(1), INITIAL.b as int)
    ensures SquareRootBits(SquareRoot(Prime(2)), Prime(2), INITIAL.c as int) && SquareRootBits(SquareRoot(Prime(3)), Prime(3), INITIAL.d as int)
    ensures SquareRootBits(SquareRoot(Prime(4)), Prime(4), INITIAL.e as int) && SquareRootBits(SquareRoot(Prime(5)), Prime(5), INITIAL.f as int)
    ensures SquareRootBits(SquareRoot(Prime(6)), Prime(6), INITIAL.g as int) && SquareRootBits(SquareRoot(Prime(7)), Prime(7), INITIAL.h as int)
  {
  }
}
